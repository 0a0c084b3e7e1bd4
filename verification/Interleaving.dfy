/**
 Concurrent service calls: transactions interleave one SQL statement at a time under
 wallet and code row locks, READ COMMITTED, with commits, rollbacks and crashes anywhere.

 The main result is that commit order is a serial order: every transaction on its way has
 done exactly what it would have done running alone on the tables committed so far.
 */
module Interleaving {
  import opened Prelude
  import opened Tables
  import opened ReferralRules
  import opened Transactions
  import opened Economy

  datatype Txn = Txn(local: Local, steps: nat)

  /** What changed the committed tables: a service call, or staff working on batches. */
  datatype Event =
    | Committed(req: Request, steps: nat)
    | NewBatch(batch: BatchId, coins: nat)
    | NewCode(code: CodeId, city: City, batch: BatchId)
    | SetStatus(batch: BatchId, status: Status)

  /** `log` and `uuids` only record history: the commits so far, and the admin keys handed out. */
  datatype State = State(db: Db, active: map<nat, Txn>, log: seq<Event>, uuids: set<nat>)

  datatype Action = Begin(t: nat, req: Request) | Statement(t: nat) | Commit(t: nat) | Rollback(t: nat) | Staff(event: Event)

  // ------------------------------------------------------------------ steps

  /** `t` wants a row lock that another transaction holds. */
  ghost predicate WaitsFor(s: State, t: nat, other: nat)
    requires t in s.active && other in s.active
  {
    var l, m := s.active[t].local, s.active[other].local;
    && t != other
    && ( || (l.pc.TakeWallet? && m.HoldsWallet() && LockUser(l.req) == LockUser(m.req))
         || (l.pc.ClaimCode? && l.req.Redeem? && m.HoldsCode() && l.req.code == m.req.code))
  }

  ghost predicate Waiting(s: State, t: nat)
    requires t in s.active
  {
    exists other :: other in s.active && WaitsFor(s, t, other)
  }

  ghost predicate BatchIsActive(db: Db, c: CodeId) {
    && c in db.codes && db.codes[c].batch in db.batches
    && db.batches[db.codes[c].batch].status == Active
  }

  /** `h` is a result of `list_redeemed`: all of the user's redemptions, ascending, ties in any order. */
  ghost predicate IsListing(db: Db, u: User, h: seq<Redeemed>) {
    && Ascending(h)
    && (forall i, j | 0 <= i < j < |h| :: h[i].code != h[j].code)
    && (forall i | 0 <= i < |h| :: RedeemedBy(db, h[i].code, u) && RedeemedAt(db, h[i].code, u) == h[i].at)
    && (forall c | c in RedeemedSet(db, u) :: exists i :: 0 <= i < |h| && h[i].code == c)
  }

  /** A statement that reads rows no lock protects sees what is committed at that moment. */
  ghost predicate ReadsCommitted(db: Db, l: Local) {
    && (l.req.Redeem? && l.pc.ReadBatch? ==> (l.req.batchActive <==> BatchIsActive(db, l.req.code)))
    && (l.req.Settle? && l.pc.ReadBinding? ==>
          l.req.binding == if l.req.invitee in db.bindings then Some(db.bindings[l.req.invitee]) else None)
    && (l.req.Settle? && l.pc.ReadHistory? ==> IsListing(db, l.req.invitee, l.req.history))
  }

  ghost predicate StaffCan(db: Db, e: Event) {
    match e
    case Committed(_, _) => false
    case NewBatch(b, _) => b !in db.batches
    case NewCode(c, _, b) => c !in db.codes && b in db.batches
    case SetStatus(b, _) => b in db.batches
  }

  /** The effect of an event on the committed tables when it runs alone. */
  function Effect(cfg: Config, db: Db, e: Event): Db {
    match e
    case Committed(req, k) => CommitAfter(cfg, req, db, k)
    case NewBatch(b, coins) => if b in db.batches then db else db.(batches := db.batches[b := Batch(coins, Generated)])
    case NewCode(c, city, b) =>
      if c in db.codes || b !in db.batches then db else db.(codes := db.codes[c := CodeRow(city, b, None)])
    case SetStatus(b, status) =>
      if b !in db.batches then db else db.(batches := db.batches[b := db.batches[b].(status := status)])
  }

  ghost predicate Next(cfg: Config, s: State, a: Action, n: State) {
    match a
    case Begin(t, req) =>
      && t !in s.active
      && (req.Adjust? ==> req.uuid !in s.uuids)
      && n == s.(active := s.active[t := Txn(Init(req), 0)],
                 uuids := s.uuids + if req.Adjust? then {req.uuid} else {})
    case Statement(t) =>
      && t in s.active && s.active[t].local.Running() && !Waiting(s, t)
      && ReadsCommitted(s.db, s.active[t].local)
      && var Txn(l, k) := s.active[t];
         n == s.(active := s.active[t := Txn(Step(cfg, l, View(s.db, l)), k + 1)])
    case Commit(t) =>
      && t in s.active && s.active[t].local.pc.Ready?
      && var Txn(l, k) := s.active[t];
         n == s.(db := View(s.db, l), active := s.active - {t}, log := s.log + [Committed(l.req, k)])
    case Rollback(t) => t in s.active && n == s.(active := s.active - {t})
    case Staff(e) => StaffCan(s.db, e) && n == s.(db := Effect(cfg, s.db, e), log := s.log + [e])
  }

  // -------------------------------------- what one transaction depends on

  /** The idempotency keys a transaction may look up or write while it holds its locks. */
  ghost predicate OwnKey(l: Local, k: Key) {
    match l.req
    case Redeem(u, c, _, _, _) => k == FirstCode(u) || (k == CodeRedemption(c) && |l.ops| >= 2)
    case Adjust(_, _, _, uuid) => k == AdminAdjustment(uuid)
    case Claim(u, _, _, _, _) => (k.ChallengeReward? || k.AchievementReward?) && k.user == u
    case Bind(_, _) => false
    case Settle(i, _, _, _, h) =>
      k == ReferralFirst(i) || (k.ReferralLater? && exists j :: 0 <= j < |h| && h[j].code == k.code)
  }

  /** Every write belongs to the locked user, the locked code and the transaction's own keys. */
  ghost predicate OpOk(l: Local, op: Op) {
    var u := LockUser(l.req);
    match op
    case LockWallet(w) => w == u
    case MarkRedeemed(c, w, _) => l.req.Redeem? && c == l.req.code && w == u && |l.ops| >= 2
    case AddPoint(w, _) => w == u
    case Record(e) => e.user == u && OwnKey(l, e.key)
    case InsertClaim(r) => r.user == u
    case InsertUnlock(r) => r.user == u
    case InsertBinding(i, _) => i == u
  }

  ghost predicate Shape(l: Local) {
    && (forall i | 0 <= i < |l.ops| :: OpOk(l, l.ops[i]))
    && (l.pc.Failed? || (l.ops == [] <==> BeforeLock(l.pc)))
    && (l.req.Redeem? && !l.pc.Failed? ==> (|l.ops| >= 2 <==> !BeforeLock(l.pc) && !l.pc.ReadBatch? && !l.pc.ClaimCode?))
  }

  /** Tables `a` and `b` agree on all that `l` has read or will read under its locks. */
  ghost predicate SameFor(a: Db, b: Db, l: Local) {
    var u := LockUser(l.req);
    && (u in a.wallets <==> u in b.wallets) && (u in a.wallets ==> a.wallets[u] == b.wallets[u])
    && (forall c | RedeemedBy(a, c, u) || RedeemedBy(b, c, u) :: RedeemedBy(a, c, u) && RedeemedBy(b, c, u) && a.codes[c] == b.codes[c])
    && (forall city :: Points(a, u, city) == Points(b, u, city))
    && (forall r: ClaimRow | r.user == u :: r in a.claims <==> r in b.claims)
    && (forall r: UnlockRow | r.user == u :: r in a.unlocks <==> r in b.unlocks)
    && (u in a.bindings <==> u in b.bindings)
    && (forall k | OwnKey(l, k) :: HasKey(a.ledger, k) <==> HasKey(b.ledger, k))
    && (l.HoldsCode() ==>
          && l.req.code in a.codes && l.req.code in b.codes
          && a.codes[l.req.code] == b.codes[l.req.code] && CoinsOf(a, l.req.code) == CoinsOf(b, l.req.code))
  }

  lemma PointsAfter(db: Db, op: Op)
    ensures forall w: User, city ::
              Points(DoOp(db, op), w, city) == Points(db, w, city) + if op == AddPoint(w, city) then 1 else 0
  {
  }

  lemma OwnRecordSame(a: Db, b: Db, l: Local, e: Entry)
    requires SameFor(a, b, l) && OpOk(l, Record(e))
    ensures SameFor(DoOp(a, Record(e)), DoOp(b, Record(e)), l)
  {
    forall k | OwnKey(l, k)
      ensures HasKey(DoOp(a, Record(e)).ledger, k) <==> HasKey(DoOp(b, Record(e)).ledger, k)
    {
      HasKeyGrows(a.ledger, e, k);
      HasKeyGrows(b.ledger, e, k);
    }
    PointsAfter(a, Record(e));
    PointsAfter(b, Record(e));
  }

  /** A write of `l` itself keeps the two tables in agreement. */
  lemma OwnOpSame(a: Db, b: Db, l: Local, op: Op)
    requires SameFor(a, b, l) && OpOk(l, op) && !l.pc.Failed?
    ensures SameFor(DoOp(a, op), DoOp(b, op), l)
  {
    PointsAfter(a, op);
    PointsAfter(b, op);
    if op.Record? { OwnRecordSame(a, b, l, op.entry); }
  }

  lemma {:induction false} OwnOpsSame(a: Db, b: Db, l: Local, ops: seq<Op>)
    requires SameFor(a, b, l) && !l.pc.Failed? && forall i | 0 <= i < |ops| :: OpOk(l, ops[i])
    ensures SameFor(Apply(a, ops), Apply(b, ops), l)
  {
    if ops != [] {
      var n := |ops| - 1;
      OwnOpsSame(a, b, l, ops[..n]);
      OwnOpSame(Apply(a, ops[..n]), Apply(b, ops[..n]), l, ops[n]);
    }
  }

  // ------------------------------------------- the shape of a transaction

  lemma InitShape(req: Request)
    ensures Shape(Init(req))
  {
  }

  lemma PayoutKeyIsOwn(l: Local, i: nat)
    requires l.req.Settle? && i < |Payouts(l.req)|
    ensures OwnKey(l, Payouts(l.req)[i].key)
  {
    var h := l.req.history;
    if i > 0 {
      var j := LaterPayoutFrom(h[1..], h[0].at + LATER_CODE_WINDOW, Payouts(l.req)[i]);
      assert h[j + 1].code == Payouts(l.req)[i].key.code;
    }
  }

  lemma StepShape(cfg: Config, l: Local, v: Db)
    requires Shape(l)
    ensures Shape(Step(cfg, l, v))
  {
    if l.req.Settle? && l.pc.PayReferral? && l.pc.i < |Payouts(l.req)| { PayoutKeyIsOwn(l, l.pc.i); }
    var n := Step(cfg, l, v);
    StepWrites(cfg, l, v);
    forall i | 0 <= i < |n.ops| ensures OpOk(n, n.ops[i]) {
      if i < |l.ops| { assert OpOk(l, l.ops[i]); }
    }
  }

  /** `l` serves `req` and only writes what is its own. */
  ghost predicate ShapedFor(req: Request, l: Local) {
    Shape(l) && l.req == req
  }

  lemma StepShaped(cfg: Config, req: Request, l: Local, v: Db)
    requires ShapedFor(req, l)
    ensures ShapedFor(req, Step(cfg, l, v))
  {
    StepShape(cfg, l, v);
    StepWrites(cfg, l, v);
  }

  lemma TrajShape(cfg: Config, req: Request, db: Db, k: nat)
    ensures ShapedFor(req, Traj(cfg, req, db, k))
  {
    InitShape(req);
    var good := (l: Local) => ShapedFor(req, l);
    forall l | good(l) ensures good(Services(cfg)(l, View(db, l))) {
      StepShaped(cfg, req, l, View(db, l));
    }
    Always(Services(cfg), req, db, k, good);
  }

  // ------------------------------------------------- frame of a statement

  /** A statement gives the same result on two views that agree on the rows it is entitled to. */
  lemma StepFrame(cfg: Config, l: Local, a: Db, b: Db)
    requires Shape(l) && !Step(cfg, l, a).pc.Failed?
    requires Step(cfg, l, a).HoldsWallet() ==> SameFor(a, b, Step(cfg, l, a))
    ensures Step(cfg, l, b) == Step(cfg, l, a)
  {
    if l.Running() && !BeforeLock(l.pc) {
      match l.req
      case Redeem(_, _, _, _, _) => RedeemFrame(cfg, l, a, b);
      case Adjust(_, _, _, _) =>
      case Claim(_, _, _, _, _) => ClaimFrame(cfg, l, a, b);
      case Bind(_, _) => BindFrame(l, a, b);
      case Settle(_, _, _, _, _) => SettleFrame(l, a, b);
    }
  }

  lemma BindFrame(l: Local, a: Db, b: Db)
    requires l.req.Bind? && Shape(l) && l.Running() && !BeforeLock(l.pc) && !BindStep(l, a).pc.Failed?
    requires SameFor(a, b, BindStep(l, a))
    ensures BindStep(l, b) == BindStep(l, a)
  {
    assert RedeemedSet(a, l.req.invitee) == RedeemedSet(b, l.req.invitee);
  }

  lemma SettleFrame(l: Local, a: Db, b: Db)
    requires l.req.Settle? && Shape(l) && l.Running() && !BeforeLock(l.pc) && !SettleStep(l, a).pc.Failed?
    requires SameFor(a, b, SettleStep(l, a))
    ensures SettleStep(l, b) == SettleStep(l, a)
  {
    if (l.pc.CheckPaid? || l.pc.PayReferral?) && l.pc.i < |Payouts(l.req)| { PayoutKeyIsOwn(l, l.pc.i); }
  }

  lemma RedeemFrame(cfg: Config, l: Local, a: Db, b: Db)
    requires l.req.Redeem? && Shape(l) && l.Running() && !BeforeLock(l.pc) && !RedeemStep(cfg, l, a).pc.Failed?
    requires SameFor(a, b, RedeemStep(cfg, l, a))
    ensures RedeemStep(cfg, l, b) == RedeemStep(cfg, l, a)
  {
    var u := l.req.user;
    if l.pc.CountToday? {
      var since := cfg.zone.StartOfLocalDay(l.req.now);
      assert SinceSet(a, u, since) == SinceSet(b, u, since);
    } else if l.pc.CountFlavor? {
      assert FlavorSet(a, u, a.codes[l.req.code].city) == FlavorSet(b, u, a.codes[l.req.code].city);
    }
  }

  lemma ClaimFrame(cfg: Config, l: Local, a: Db, b: Db)
    requires l.req.Claim? && Shape(l) && l.Running() && !BeforeLock(l.pc) && !ClaimStep(cfg, l, a).pc.Failed?
    requires SameFor(a, b, ClaimStep(cfg, l, a))
    ensures ClaimStep(cfg, l, b) == ClaimStep(cfg, l, a)
  {
    if l.pc.ReadStreak? {
      assert CheckinDays(a, l.pc.ch.id, l.req.user) == CheckinDays(b, l.pc.ch.id, l.req.user);
    }
  }

  /** Locks and keys only accumulate, so agreement for a later point covers every earlier one. */
  lemma SameForEarlier(cfg: Config, l: Local, v: Db, a: Db, b: Db)
    requires Shape(l) && !Step(cfg, l, v).pc.Failed?
    requires SameFor(a, b, Step(cfg, l, v))
    ensures SameFor(a, b, l)
  {
    var n := Step(cfg, l, v);
    StepWrites(cfg, l, v);
    forall k | OwnKey(l, k) ensures OwnKey(n, k) {}
  }

  lemma FailedStays(cfg: Config, l: Local, v: Db)
    ensures l.pc.Failed? ==> Step(cfg, l, v) == l
    ensures l.pc.Ready? ==> Step(cfg, l, v) == l
    ensures l.HoldsWallet() && !Step(cfg, l, v).pc.Failed? ==> Step(cfg, l, v).HoldsWallet()
  {
    StepWrites(cfg, l, v);
  }

  /** `l` is alive, and once it holds its wallet lock the tables agree on its rows. */
  ghost predicate Agrees(a: Db, b: Db, l: Local) {
    !l.pc.Failed? && (l.HoldsWallet() ==> SameFor(a, b, l))
  }

  /** One statement of a lone run, moved to tables that agree on its rows. */
  lemma StepMoves(cfg: Config, req: Request, l: Local, a: Db, b: Db)
    requires ShapedFor(req, l) && Agrees(a, b, Step(cfg, l, View(a, l)))
    ensures Step(cfg, l, View(b, l)) == Step(cfg, l, View(a, l)) && Agrees(a, b, l)
  {
    var n := Step(cfg, l, View(a, l));
    FailedStays(cfg, l, View(a, l));
    StepWrites(cfg, l, View(a, l));
    if n.HoldsWallet() {
      SameForEarlier(cfg, l, View(a, l), a, b);
      forall i | 0 <= i < |l.ops| ensures OpOk(n, l.ops[i]) {
        StepShape(cfg, l, View(a, l));
        assert n.ops[i] == l.ops[i];
      }
      OwnOpsSame(a, b, n, l.ops);
    }
    StepFrame(cfg, l, View(a, l), View(b, l));
  }

  /** Induction for `TrajMoves`, over any condition that each statement hands back to the one before. */
  lemma {:induction false} Moves(
    step: (Local, Db) -> Local, req: Request, a: Db, b: Db, k: nat, good: Local -> bool, agree: Local -> bool)
    requires good(Init(req)) && forall l {:trigger step(l, View(a, l))} :: good(l) ==> good(step(l, View(a, l)))
    requires forall l {:trigger step(l, View(a, l))} :: good(l) && agree(step(l, View(a, l))) ==> agree(l) && step(l, View(b, l)) == step(l, View(a, l))
    requires agree(Iterate(step, req, a, k))
    ensures Iterate(step, req, b, k) == Iterate(step, req, a, k)
  {
    if k > 0 {
      var l := Iterate(step, req, a, k - 1);
      Always(step, req, a, k - 1, good);
      assert good(l) && agree(step(l, View(a, l)));
      Moves(step, req, a, b, k - 1, good, agree);
    }
  }

  /** Everything a transaction did so far is also what it would do alone on tables that agree on its rows. */
  lemma TrajMoves(cfg: Config, req: Request, a: Db, b: Db, k: nat)
    requires Agrees(a, b, Traj(cfg, req, a, k))
    ensures Traj(cfg, req, b, k) == Traj(cfg, req, a, k)
  {
    var step, good, agree := Services(cfg), (l: Local) => ShapedFor(req, l), (l: Local) => Agrees(a, b, l);
    InitShape(req);
    forall l | good(l) ensures good(step(l, View(a, l))) {
      StepShaped(cfg, req, l, View(a, l));
    }
    forall l | good(l) && agree(step(l, View(a, l))) ensures agree(l) && step(l, View(b, l)) == step(l, View(a, l)) {
      StepMoves(cfg, req, l, a, b);
    }
    Moves(step, req, a, b, k, good, agree);
  }

  // ---------------------------------------- what other commits may change

  ghost predicate Disjoint(l: Local, m: Local) {
    && LockUser(l.req) != LockUser(m.req)
    && !(l.HoldsCode() && m.HoldsCode() && l.req.code == m.req.code)
    && (forall k :: !(OwnKey(l, k) && OwnKey(m, k)))
  }

  /** The code `m` redeems is free or already its own. */
  ghost predicate FreeRow(x: Db, m: Local) {
    m.req.Redeem? && m.req.code in x.codes && x.codes[m.req.code].redemption.Some? ==>
      x.codes[m.req.code].redemption.value.user == LockUser(m.req)
  }

  lemma OtherOpSame(x: Db, l: Local, m: Local, op: Op)
    requires Disjoint(l, m) && OpOk(m, op) && FreeRow(x, m) && !m.pc.Failed?
    requires l.HoldsCode() ==> l.req.code in x.codes
    ensures SameFor(x, DoOp(x, op), l) && FreeRow(DoOp(x, op), m)
  {
    PointsAfter(x, op);
    if op.Record? {
      forall k | OwnKey(l, k) ensures HasKey(DoOp(x, op).ledger, k) <==> HasKey(x.ledger, k) {
        HasKeyGrows(x.ledger, op.entry, k);
      }
    }
  }

  lemma SameForTransitive(a: Db, b: Db, c: Db, l: Local)
    requires SameFor(a, b, l) && SameFor(b, c, l)
    ensures SameFor(a, c, l)
  {
  }

  lemma {:induction false} OtherOpsSame(db: Db, l: Local, m: Local, ops: seq<Op>)
    requires Disjoint(l, m) && FreeRow(db, m) && !m.pc.Failed? && forall i | 0 <= i < |ops| :: OpOk(m, ops[i])
    requires l.HoldsCode() ==> l.req.code in db.codes
    ensures SameFor(db, Apply(db, ops), l) && FreeRow(Apply(db, ops), m)
  {
    if ops != [] {
      var n := |ops| - 1;
      OtherOpsSame(db, l, m, ops[..n]);
      OtherOpSame(Apply(db, ops[..n]), l, m, ops[n]);
      SameForTransitive(db, Apply(db, ops[..n]), Apply(db, ops), l);
    }
  }

  /** Only a free code is ever claimed. */
  ghost predicate ClaimedFree(db: Db, l: Local) {
    l.HoldsCode() ==> l.req.code in db.codes && db.codes[l.req.code].redemption.None?
  }

  lemma StepClaimsFree(cfg: Config, db: Db, l: Local)
    requires Shape(l) && ClaimedFree(db, l)
    ensures ClaimedFree(db, Step(cfg, l, View(db, l)))
  {
    StepWrites(cfg, l, View(db, l));
    if l.req.Redeem? && l.pc.ClaimCode? {
      assert OpOk(l, l.ops[0]);
      assert Apply(db, l.ops[..0]) == db;
      assert View(db, l).codes == db.codes;
    }
  }

  lemma TrajClaimsFree(cfg: Config, req: Request, db: Db, k: nat)
    ensures ClaimedFree(db, Traj(cfg, req, db, k))
  {
    InitShape(req);
    var good := (l: Local) => ShapedFor(req, l) && ClaimedFree(db, l);
    forall l | good(l) ensures good(Services(cfg)(l, View(db, l))) {
      StepShaped(cfg, req, l, View(db, l));
      StepClaimsFree(cfg, db, l);
    }
    Always(Services(cfg), req, db, k, good);
  }
}
