/**
 Every reachable state of the concurrent service is safe, commit order is a serial order,
 and locks never deadlock.
 */
module Concurrency {
  import opened Prelude
  import opened Tables
  import opened ReferralRules
  import opened Transactions
  import opened Economy
  import opened Interleaving

  /** What a settlement has read of its binding and its invitee's history still holds. */
  ghost predicate SettleReads(db: Db, l: Local) {
    l.req.Settle? && !l.pc.Failed? && !l.pc.ReadBinding? ==>
      && l.req.binding.Some? && Bound2(db, l.req.invitee, l.req.binding.value)
      && (l.pc.ReadMission? || l.pc.ReadHistory? || SettleFacts(db, l.req))
  }

  ghost predicate UuidFresh(s: State, l: Local) {
    l.req.Adjust? ==> l.req.uuid in s.uuids && !HasKey(s.db.ledger, AdminAdjustment(l.req.uuid))
  }

  /** `t` stands exactly where it would stand had it run alone on the tables committed now. */
  ghost predicate OnPath(cfg: Config, db: Db, t: Txn) {
    !t.local.pc.Failed? ==> t.local == Traj(cfg, t.local.req, db, t.steps)
  }

  ghost predicate TxnsOk(cfg: Config, s: State) {
    forall t | t in s.active ::
      OnPath(cfg, s.db, s.active[t]) && SettleReads(s.db, s.active[t].local) && UuidFresh(s, s.active[t].local)
  }

  /** No two transactions hold the same wallet row, the same code row or the same admin key. */
  ghost predicate Exclusive(s: State) {
    forall t, o | t in s.active && o in s.active && t != o ::
      var l, m := s.active[t].local, s.active[o].local;
      && (l.HoldsWallet() && m.HoldsWallet() ==> LockUser(l.req) != LockUser(m.req))
      && (l.HoldsCode() && m.HoldsCode() ==> l.req.code != m.req.code)
      && (l.req.Adjust? && m.req.Adjust? ==> l.req.uuid != m.req.uuid)
  }

  ghost predicate UuidsKnown(s: State) {
    forall k: Key | k.AdminAdjustment? && HasKey(s.db.ledger, k) :: k.uuid in s.uuids
  }

  ghost predicate Safe(cfg: Config, s: State) {
    Inv(cfg, s.db) && TxnsOk(cfg, s) && Exclusive(s) && UuidsKnown(s)
  }

  lemma AliveIsAdmissible(cfg: Config, s: State, t: nat)
    requires Safe(cfg, s) && t in s.active && !s.active[t].local.pc.Failed?
    requires s.active[t].local.HoldsWallet()
    ensures Admissible(s.db, s.active[t].local.req)
  {
    var Txn(l, k) := s.active[t];
    TrajShape(cfg, l.req, s.db, k);
  }

  // ------------------------------------------------- two live transactions

  lemma KeysApart(s: State, l: Local, m: Local, k: Key)
    requires SettleReads(s.db, l) && SettleReads(s.db, m)
    requires l.HoldsWallet() && m.HoldsWallet() && Shape(l) && Shape(m) && !l.pc.Failed? && !m.pc.Failed?
    requires LockUser(l.req) != LockUser(m.req)
    requires l.HoldsCode() && m.HoldsCode() ==> l.req.code != m.req.code
    requires l.req.Adjust? && m.req.Adjust? ==> l.req.uuid != m.req.uuid
    ensures !(OwnKey(l, k) && OwnKey(m, k))
  {
  }

  lemma LiveAreDisjoint(cfg: Config, s: State, t: nat, o: nat)
    requires Safe(cfg, s) && t in s.active && o in s.active && t != o
    requires s.active[t].local.HoldsWallet() && s.active[o].local.HoldsWallet()
    requires !s.active[t].local.pc.Failed? && !s.active[o].local.pc.Failed?
    ensures Disjoint(s.active[t].local, s.active[o].local)
  {
    var l, m := s.active[t].local, s.active[o].local;
    TrajShape(cfg, l.req, s.db, s.active[t].steps);
    TrajShape(cfg, m.req, s.db, s.active[o].steps);
    forall k ensures !(OwnKey(l, k) && OwnKey(m, k)) {
      KeysApart(s, l, m, k);
    }
  }

  /** A commit of `o` changes nothing that `t` has read or locked. */
  lemma CommitLeavesOthers(cfg: Config, s: State, t: nat, o: nat)
    requires Safe(cfg, s) && t in s.active && o in s.active && t != o
    requires s.active[o].local.pc.Ready? && s.active[t].local.HoldsWallet() && !s.active[t].local.pc.Failed?
    ensures SameFor(s.db, View(s.db, s.active[o].local), s.active[t].local)
  {
    var l, m := s.active[t].local, s.active[o].local;
    TrajShape(cfg, m.req, s.db, s.active[o].steps);
    TrajClaimsFree(cfg, m.req, s.db, s.active[o].steps);
    TrajClaimsFree(cfg, l.req, s.db, s.active[t].steps);
    LiveAreDisjoint(cfg, s, t, o);
    OtherOpsSame(s.db, l, m, m.ops);
  }

  lemma SettleReadsKept(a: Db, b: Db, l: Local)
    requires SettleReads(a, l) && Grows(a, b)
    ensures SettleReads(b, l)
  {
  }

  lemma {:induction false} AdminKeysFrom(db: Db, m: Local, ops: seq<Op>, k: Key)
    requires k.AdminAdjustment? && forall i | 0 <= i < |ops| :: OpOk(m, ops[i])
    requires HasKey(Apply(db, ops).ledger, k)
    ensures HasKey(db.ledger, k) || (m.req.Adjust? && k.uuid == m.req.uuid)
  {
    if ops != [] {
      var n := |ops| - 1;
      if ops[n].Record? { HasKeyGrows(Apply(db, ops[..n]).ledger, ops[n].entry, k); }
      if HasKey(Apply(db, ops[..n]).ledger, k) { AdminKeysFrom(db, m, ops[..n], k); }
    }
  }

  // ------------------------------------------------- each action is safe

  lemma CommitIsSafe(cfg: Config, s: State, o: nat, n: State)
    requires ValidZone(cfg.zone) && Safe(cfg, s) && Next(cfg, s, Commit(o), n)
    ensures Safe(cfg, n)
    ensures n.db == CommitAfter(cfg, s.active[o].local.req, s.db, s.active[o].steps)
  {
    var Txn(m, k) := s.active[o];
    TrajShape(cfg, m.req, s.db, k);
    AliveIsAdmissible(cfg, s, o);
    CommitKeepsInv(cfg, m.req, s.db, k);
    forall t | t in n.active
      ensures OnPath(cfg, n.db, n.active[t]) && SettleReads(n.db, n.active[t].local) && UuidFresh(n, n.active[t].local)
    {
      OthersAfterCommit(cfg, s, t, o, n);
    }
    forall key: Key | key.AdminAdjustment? && HasKey(n.db.ledger, key) ensures key.uuid in n.uuids {
      AdminKeysFrom(s.db, m, m.ops, key);
    }
  }

  lemma OthersAfterCommit(cfg: Config, s: State, t: nat, o: nat, n: State)
    requires ValidZone(cfg.zone) && Safe(cfg, s) && Next(cfg, s, Commit(o), n) && t in n.active
    requires Grows(s.db, n.db)
    ensures OnPath(cfg, n.db, n.active[t]) && SettleReads(n.db, n.active[t].local) && UuidFresh(n, n.active[t].local)
  {
    var Txn(l, k) := s.active[t];
    var m := s.active[o].local;
    SettleReadsKept(s.db, n.db, l);
    if l.HoldsWallet() && !l.pc.Failed? { CommitLeavesOthers(cfg, s, t, o); }
    if !l.pc.Failed? { TrajMoves(cfg, l.req, s.db, n.db, k); }
    TrajShape(cfg, m.req, s.db, s.active[o].steps);
    if l.req.Adjust? && HasKey(n.db.ledger, AdminAdjustment(l.req.uuid)) {
      AdminKeysFrom(s.db, m, m.ops, AdminAdjustment(l.req.uuid));
    }
  }

  lemma BeginIsSafe(cfg: Config, s: State, a: Action, n: State)
    requires Safe(cfg, s) && a.Begin? && Next(cfg, s, a, n)
    ensures Safe(cfg, n)
  {
    forall t | t in n.active
      ensures OnPath(cfg, n.db, n.active[t]) && SettleReads(n.db, n.active[t].local) && UuidFresh(n, n.active[t].local)
    {
      if t != a.t { assert n.active[t] == s.active[t]; }
    }
  }

  lemma RollbackIsSafe(cfg: Config, s: State, a: Action, n: State)
    requires Safe(cfg, s) && a.Rollback? && Next(cfg, s, a, n)
    ensures Safe(cfg, n)
  {
    assert forall t | t in n.active :: t in s.active && n.active[t] == s.active[t];
  }

  lemma ListingGivesFacts(db: Db, l: Local, v: Db, cfg: Config)
    requires SettleReads(db, l) && ReadsCommitted(db, l)
    ensures SettleReads(db, Step(cfg, l, v))
  {
    StepWrites(cfg, l, v);
  }

  /** The locks a statement takes were free, so locks stay exclusive. */
  lemma LocksStayExclusive(cfg: Config, s: State, t: nat, o: nat)
    requires Safe(cfg, s) && t in s.active && o in s.active && t != o
    requires s.active[t].local.Running() && !Waiting(s, t)
    ensures var l, m := s.active[t].local, s.active[o].local;
            var n := Step(cfg, l, View(s.db, l));
            && (n.HoldsWallet() && m.HoldsWallet() ==> LockUser(n.req) != LockUser(m.req))
            && (n.HoldsCode() && m.HoldsCode() ==> n.req.code != m.req.code)
  {
    var l := s.active[t].local;
    assert !WaitsFor(s, t, o);
    TrajShape(cfg, l.req, s.db, s.active[t].steps);
    StepWrites(cfg, l, View(s.db, l));
    StepShape(cfg, l, View(s.db, l));
  }

  lemma StatementIsSafe(cfg: Config, s: State, t: nat, n: State)
    requires Safe(cfg, s) && Next(cfg, s, Statement(t), n)
    ensures Safe(cfg, n)
  {
    var Txn(l, k) := s.active[t];
    var m := Step(cfg, l, View(s.db, l));
    StepWrites(cfg, l, View(s.db, l));
    ListingGivesFacts(s.db, l, View(s.db, l), cfg);
    TrajStep(cfg, l.req, s.db, k);
    assert OnPath(cfg, n.db, n.active[t]);
    assert TxnsOk(cfg, n);
    forall x, o | x in n.active && o in n.active && x != o
      ensures var a, b := n.active[x].local, n.active[o].local;
              && (a.HoldsWallet() && b.HoldsWallet() ==> LockUser(a.req) != LockUser(b.req))
              && (a.HoldsCode() && b.HoldsCode() ==> a.req.code != b.req.code)
    {
      if x == t { LocksStayExclusive(cfg, s, t, o); }
      if o == t { LocksStayExclusive(cfg, s, t, x); }
    }
  }

  lemma StaffKeepsInv(cfg: Config, db: Db, e: Event)
    requires Inv(cfg, db) && StaffCan(db, e)
    ensures Inv(cfg, Effect(cfg, db, e)) && Grows(db, Effect(cfg, db, e))
    ensures Effect(cfg, db, e).ledger == db.ledger
  {
    StaffRows(cfg, db, e);
    EntriesFrame(db, Effect(cfg, db, e));
  }

  /** Staff add batches and unredeemed codes, and move statuses; nobody's redemptions change. */
  lemma StaffRows(cfg: Config, db: Db, e: Event)
    requires StaffCan(db, e) && BatchesOk(db)
    ensures var after := Effect(cfg, db, e);
            && Grows(db, after) && BatchesOk(after)
            && after == db.(codes := after.codes, batches := after.batches)
            && (forall c | c in after.codes && c !in db.codes :: after.codes[c].redemption.None?)
            && (forall u: User :: RedeemedSet(after, u) == RedeemedSet(db, u))
            && (forall u: User, city :: FlavorSet(after, u, city) == FlavorSet(db, u, city))
            && (forall u: User, day :: DaySet(cfg.zone, after, u, day) == DaySet(cfg.zone, db, u, day))
  {
    var after := Effect(cfg, db, e);
    assert forall c | c in db.codes :: c in after.codes && after.codes[c] == db.codes[c];
  }

  lemma StaffLeavesOthers(cfg: Config, db: Db, e: Event, l: Local)
    requires Inv(cfg, db) && StaffCan(db, e) && ClaimedFree(db, l)
    ensures SameFor(db, Effect(cfg, db, e), l)
  {
    var after := Effect(cfg, db, e);
    assert forall c | c in db.codes :: c in after.codes && after.codes[c] == db.codes[c] && CoinsOf(after, c) == CoinsOf(db, c);
  }

  lemma StaffIsSafe(cfg: Config, s: State, e: Event, n: State)
    requires Safe(cfg, s) && Next(cfg, s, Staff(e), n)
    ensures Safe(cfg, n)
  {
    StaffKeepsInv(cfg, s.db, e);
    forall t | t in n.active
      ensures OnPath(cfg, n.db, n.active[t]) && SettleReads(n.db, n.active[t].local) && UuidFresh(n, n.active[t].local)
    {
      var Txn(l, k) := s.active[t];
      SettleReadsKept(s.db, n.db, l);
      TrajClaimsFree(cfg, l.req, s.db, k);
      if !l.pc.Failed? {
        StaffLeavesOthers(cfg, s.db, e, l);
        TrajMoves(cfg, l.req, s.db, n.db, k);
      }
    }
  }

  // ----------------------------------------------------- whole executions

  /** `cfg` runs from the tables `first`, with nobody at work yet. */
  ghost predicate Execution(cfg: Config, first: Db, states: seq<State>, actions: seq<Action>) {
    && |states| == |actions| + 1
    && states[0].db == first && states[0].active == map[] && states[0].log == []
    && (forall k: Key | k.AdminAdjustment? && HasKey(first.ledger, k) :: k.uuid in states[0].uuids)
    && forall i | 0 <= i < |actions| :: Next(cfg, states[i], actions[i], states[i + 1])
  }

  lemma NextIsSafe(cfg: Config, s: State, a: Action, n: State)
    requires ValidZone(cfg.zone) && Safe(cfg, s) && Next(cfg, s, a, n)
    ensures Safe(cfg, n)
  {
    match a
    case Begin(_, _) => BeginIsSafe(cfg, s, a, n);
    case Statement(t) => StatementIsSafe(cfg, s, t, n);
    case Commit(t) => CommitIsSafe(cfg, s, t, n);
    case Rollback(_) => RollbackIsSafe(cfg, s, a, n);
    case Staff(e) => StaffIsSafe(cfg, s, e, n);
  }

  /** Every state of every interleaving is safe. */
  lemma {:induction false} AlwaysSafe(cfg: Config, first: Db, states: seq<State>, actions: seq<Action>, i: nat)
    requires ValidZone(cfg.zone) && Inv(cfg, first) && Execution(cfg, first, states, actions) && i < |states|
    ensures Safe(cfg, states[i])
  {
    if i > 0 {
      AlwaysSafe(cfg, first, states, actions, i - 1);
      NextIsSafe(cfg, states[i - 1], actions[i - 1], states[i]);
    }
  }

  /** The events of a log, one after the other, each alone. */
  function Replay(cfg: Config, first: Db, log: seq<Event>): Db {
    if log == [] then first else Effect(cfg, Replay(cfg, first, log[..|log| - 1]), log[|log| - 1])
  }

  /**
   Serializability: whatever the interleaving, the committed tables are those of running
   the committed calls one by one, each alone, in commit order.
   */
  lemma {:induction false} CommitOrderIsSerial(cfg: Config, first: Db, states: seq<State>, actions: seq<Action>, i: nat)
    requires ValidZone(cfg.zone) && Inv(cfg, first) && Execution(cfg, first, states, actions) && i < |states|
    ensures states[i].db == Replay(cfg, first, states[i].log)
  {
    if i > 0 {
      var s, n, a := states[i - 1], states[i], actions[i - 1];
      CommitOrderIsSerial(cfg, first, states, actions, i - 1);
      AlwaysSafe(cfg, first, states, actions, i - 1);
      assert Next(cfg, s, a, n);
      if a.Commit? {
        CommitIsSafe(cfg, s, a.t, n);
      }
      if |n.log| > |s.log| { assert n.log[..|s.log|] == s.log; }
    }
  }

  /** Conservation in every committed state of every interleaving. */
  lemma WalletsMatchLedger(cfg: Config, first: Db, states: seq<State>, actions: seq<Action>, i: nat, u: User)
    requires ValidZone(cfg.zone) && Inv(cfg, first) && Execution(cfg, first, states, actions) && i < |states|
    requires u in states[i].db.wallets
    ensures var db := states[i].db;
            && db.wallets[u].balance == Sum(db.ledger, u) >= 0
            && db.wallets[u].lifetime == Earned(db.ledger, u)
  {
    AlwaysSafe(cfg, first, states, actions, i);
  }

  lemma StepCannotConflict(cfg: Config, db: Db, l: Local, k: nat)
    requires ValidZone(cfg.zone) && Inv(cfg, db) && OnPath(cfg, db, Txn(l, k)) && l.Running()
    requires l.HoldsWallet() ==> Admissible(db, l.req)
    ensures Step(cfg, l, View(db, l)).pc != Failed(IntegrityError)
  {
    if l.HoldsWallet() {
      TrajStep(cfg, l.req, db, k);
      CommitKeepsInv(cfg, l.req, db, k + 1);
    } else {
      TrajShape(cfg, l.req, db, k);
      BeforeLockCannotConflict(cfg, l, View(db, l));
    }
  }

  lemma BeforeLockCannotConflict(cfg: Config, l: Local, v: Db)
    requires BeforeLock(l.pc)
    ensures Step(cfg, l, v).pc != Failed(IntegrityError)
  {
  }

  /** The application's own checks keep keys distinct: no statement ever hits the unique constraint. */
  lemma UniqueKeyNeverFires(cfg: Config, first: Db, states: seq<State>, actions: seq<Action>, i: nat, t: nat)
    requires ValidZone(cfg.zone) && Inv(cfg, first) && Execution(cfg, first, states, actions)
    requires i < |actions| && actions[i] == Statement(t)
    ensures t in states[i + 1].active && states[i + 1].active[t].local.pc != Failed(IntegrityError)
  {
    AlwaysSafe(cfg, first, states, actions, i);
    StatementNeverConflicts(cfg, states[i], t, states[i + 1]);
  }

  lemma StatementNeverConflicts(cfg: Config, s: State, t: nat, n: State)
    requires ValidZone(cfg.zone) && Safe(cfg, s) && Next(cfg, s, Statement(t), n)
    ensures t in n.active && n.active[t].local.pc != Failed(IntegrityError)
  {
    if s.active[t].local.HoldsWallet() { AliveIsAdmissible(cfg, s, t); }
    StepCannotConflict(cfg, s.db, s.active[t].local, s.active[t].steps);
  }

  // ------------------------------------------------------------- deadlock

  lemma LockHoldersMove(cfg: Config, s: State, t: nat)
    requires Safe(cfg, s) && t in s.active && s.active[t].local.HoldsWallet()
    requires s.active[t].local.req.Redeem? ==> s.active[t].local.HoldsCode()
    ensures !Waiting(s, t)
  {
    TrajShape(cfg, s.active[t].local.req, s.db, s.active[t].steps);
  }

  /** Wallet before code, at most one of each: whenever calls are in flight, one of them waits for nobody. */
  lemma NoDeadlock(cfg: Config, first: Db, states: seq<State>, actions: seq<Action>, i: nat)
    requires ValidZone(cfg.zone) && Inv(cfg, first) && Execution(cfg, first, states, actions) && i < |states|
    requires states[i].active != map[]
    ensures exists t :: t in states[i].active && !Waiting(states[i], t)
  {
    var s := states[i];
    AlwaysSafe(cfg, first, states, actions, i);
    var t :| t in s.active;
    if Waiting(s, t) {
      var o :| o in s.active && WaitsFor(s, t, o);
      if Waiting(s, o) {
        var p :| p in s.active && WaitsFor(s, o, p);
        TrajShape(cfg, s.active[o].local.req, s.db, s.active[o].steps);
        TrajShape(cfg, s.active[p].local.req, s.db, s.active[p].steps);
        assert s.active[p].local.HoldsCode();
        LockHoldersMove(cfg, s, p);
      }
    }
  }
}
