/**
 Lone runs are executions: a call that reads committed values and gets to the end of its
 program can be run from its first statement to its commit with nobody beside it. And a
 settlement that has something to pay always gets to the end.
 */
module SoloRuns {
  import opened Prelude
  import opened Tables
  import opened ReferralRules
  import opened Transactions
  import opened Economy
  import opened Interleaving
  import opened Concurrency
  import opened Guarantees
  import opened Confluence

  // ------------------------------------------------------------------- paths

  /** An execution so far. */
  datatype Trace = Trace(states: seq<State>, actions: seq<Action>)

  ghost predicate Path(next: (State, Action, State) -> bool, r: Trace) {
    && |r.states| == |r.actions| + 1
    && forall i | 0 <= i < |r.actions| :: next(r.states[i], r.actions[i], r.states[i + 1])
  }

  lemma Joined(next: (State, Action, State) -> bool, r: Trace, q: Trace) returns (both: Trace)
    requires Path(next, r) && Path(next, q) && r.states[|r.actions|] == q.states[0]
    ensures Path(next, both) && both.states[0] == r.states[0] && both.actions == r.actions + q.actions
    ensures both.states[|both.actions|] == q.states[|q.actions|]
  {
    both := Trace(r.states + q.states[1..], r.actions + q.actions);
    forall i | 0 <= i < |both.actions| ensures next(both.states[i], both.actions[i], both.states[i + 1]) {
      if i >= |r.actions| {
        var j := i - |r.actions|;
        assert both.actions[i] == q.actions[j] && both.states[i + 1] == q.states[j + 1] && both.states[i] == q.states[j];
      }
    }
  }

  lemma OneStep(next: (State, Action, State) -> bool, s: State, a: Action, n: State)
    requires next(s, a, n)
    ensures Path(next, Trace([s, n], [a]))
  {
  }

  /** Each of the first `k` states leads to the next by the same action. */
  ghost predicate Chained(next: (State, Action, State) -> bool, state: nat -> State, a: Action, k: nat) {
    forall j: nat | j < k :: next(state(j), a, state(j + 1))
  }

  lemma Repeated(next: (State, Action, State) -> bool, state: nat -> State, a: Action, k: nat) returns (r: Trace)
    requires Chained(next, state, a, k)
    ensures Path(next, r) && r.states[0] == state(0) && r.states[|r.actions|] == state(k)
  {
    r := Trace(seq(k + 1, j requires 0 <= j < k + 1 => state(j)), seq(k, j => a));
  }

  ghost predicate All(p: nat -> bool, k: nat) {
    forall j: nat | j < k :: p(j)
  }

  ghost function Steps(cfg: Config): (State, Action, State) -> bool { (s: State, a: Action, n: State) => Next(cfg, s, a, n) }

  /** `r` is an execution from `s`, with nobody at work, and ends in `n`. */
  ghost predicate From(cfg: Config, s: State, r: Trace, n: State) {
    Path(Steps(cfg), r) && r.states[0] == s && r.states[|r.actions|] == n
  }

  ghost predicate Begins(first: Db, s: State) {
    && s.db == first && s.active == map[] && s.log == []
    && forall k: Key | k.AdminAdjustment? && HasKey(first.ledger, k) :: k.uuid in s.uuids
  }

  lemma FromIsExecution(cfg: Config, first: Db, s: State, r: Trace, n: State)
    requires From(cfg, s, r, n) && Begins(first, s)
    ensures Execution(cfg, first, r.states, r.actions)
  {
    forall i | 0 <= i < |r.actions| ensures Next(cfg, r.states[i], r.actions[i], r.states[i + 1]) {
      assert Steps(cfg)(r.states[i], r.actions[i], r.states[i + 1]);
    }
  }

  // --------------------------------------------------------------- lone runs

  /** A statement that can be run, and reads what is committed. */
  ghost predicate CanRun(db: Db, l: Local) { l.Running() && ReadsCommitted(db, l) }

  /** The first `k` statements of `req`, alone on `db`, can all be run. */
  ghost predicate Runs(cfg: Config, req: Request, db: Db, k: nat) { All(CanRunAt(cfg, req, db), k) }

  ghost function CanRunAt(cfg: Config, req: Request, db: Db): nat -> bool {
    (j: nat) => CanRun(db, Traj(cfg, req, db, j))
  }

  /** `s` with one transaction at work, `k` statements into its program. */
  function Solo(s: State, t: nat, l: Local, k: nat): State { s.(active := map[t := Txn(l, k)]) }

  lemma SoloStatement(cfg: Config, s: State, t: nat, l: Local, k: nat)
    requires l.Running() && ReadsCommitted(s.db, l)
    ensures Next(cfg, Solo(s, t, l, k), Statement(t), Solo(s, t, Step(cfg, l, View(s.db, l)), k + 1))
  {
    assert Solo(s, t, l, k).active[t := Txn(Step(cfg, l, View(s.db, l)), k + 1)] == map[t := Txn(Step(cfg, l, View(s.db, l)), k + 1)];
  }

  ghost function SoloAt(cfg: Config, s: State, t: nat, req: Request): nat -> State {
    (j: nat) => Solo(s, t, Traj(cfg, req, s.db, j), j)
  }

  lemma SoloNext(cfg: Config, s: State, t: nat, req: Request, j: nat)
    requires CanRunAt(cfg, req, s.db)(j)
    ensures Steps(cfg)(SoloAt(cfg, s, t, req)(j), Statement(t), SoloAt(cfg, s, t, req)(j + 1))
  {
    TrajStep(cfg, req, s.db, j);
    SoloStatement(cfg, s, t, Traj(cfg, req, s.db, j), j);
  }

  lemma SoloChained(cfg: Config, s: State, t: nat, req: Request, k: nat)
    requires Runs(cfg, req, s.db, k)
    ensures Chained(Steps(cfg), SoloAt(cfg, s, t, req), Statement(t), k)
  {
    forall j: nat | j < k ensures Steps(cfg)(SoloAt(cfg, s, t, req)(j), Statement(t), SoloAt(cfg, s, t, req)(j + 1)) {
      SoloNext(cfg, s, t, req, j);
    }
  }

  lemma SoloStatements(cfg: Config, s: State, t: nat, req: Request, k: nat) returns (r: Trace)
    requires Runs(cfg, req, s.db, k)
    ensures From(cfg, Solo(s, t, Init(req), 0), r, Solo(s, t, Traj(cfg, req, s.db, k), k))
  {
    TrajStep(cfg, req, s.db, 0);
    SoloChained(cfg, s, t, req, k);
    r := Repeated(Steps(cfg), SoloAt(cfg, s, t, req), Statement(t), k);
  }

  /** What a lone run leaves when it has committed. */
  ghost function Left(cfg: Config, s: State, req: Request, k: nat): State {
    s.(db := CommitAfter(cfg, req, s.db, k), active := map[], log := s.log + [Committed(req, k)], uuids := Uuids(s, req))
  }

  function Uuids(s: State, req: Request): set<nat> { s.uuids + if req.Adjust? then {req.uuid} else {} }

  lemma SoloBegin(cfg: Config, s: State, t: nat, req: Request)
    requires s.active == map[] && (req.Adjust? ==> req.uuid !in s.uuids)
    ensures Steps(cfg)(s, Begin(t, req), Solo(s.(uuids := Uuids(s, req)), t, Init(req), 0))
  {
    assert s.active[t := Txn(Init(req), 0)] == map[t := Txn(Init(req), 0)];
  }

  lemma SoloCommit(cfg: Config, s: State, t: nat, req: Request, k: nat)
    requires Traj(cfg, req, s.db, k).pc.Ready?
    ensures Steps(cfg)(Solo(s.(uuids := Uuids(s, req)), t, Traj(cfg, req, s.db, k), k), Commit(t), Left(cfg, s, req, k))
  {
    TrajShape(cfg, req, s.db, k);
    assert Solo(s, t, Traj(cfg, req, s.db, k), k).active - {t} == map[];
  }

  /** A call whose lone run gets ready can be run alone, from begin to commit. */
  lemma RunAlone(cfg: Config, s: State, t: nat, req: Request, k: nat) returns (r: Trace)
    requires s.active == map[] && (req.Adjust? ==> req.uuid !in s.uuids)
    requires Runs(cfg, req, s.db, k) && Traj(cfg, req, s.db, k).pc.Ready?
    ensures From(cfg, s, r, Left(cfg, s, req, k))
  {
    var m := s.(uuids := Uuids(s, req));
    var begun, ready := Solo(m, t, Init(req), 0), Solo(m, t, Traj(cfg, req, s.db, k), k);
    SoloBegin(cfg, s, t, req);
    OneStep(Steps(cfg), s, Begin(t, req), begun);
    var rest := SoloStatements(cfg, m, t, req, k);
    r := Joined(Steps(cfg), Trace([s, begun], [Begin(t, req)]), rest);
    SoloCommit(cfg, s, t, req, k);
    OneStep(Steps(cfg), ready, Commit(t), Left(cfg, s, req, k));
    r := Joined(Steps(cfg), r, Trace([ready, Left(cfg, s, req, k)], [Commit(t)]));
  }

  // -------------------------------------------------------------- settlements

  /** A settlement of this moment that has something to pay. */
  ghost predicate Owes(db: Db, req: Request) {
    && req.Settle? && req.mission && req.history != [] && IsListing(db, req.invitee, req.history)
    && req.invitee in db.bindings && req.binding == Some(db.bindings[req.invitee])
  }

  lemma OwesIsAdmissible(db: Db, req: Request)
    requires Owes(db, req)
    ensures Admissible(db, req)
  {
  }

  /** How many statements of the payment loop are left at most. */
  function PaymentsLeft(req: Request, pc: Pc): nat
    requires req.Settle?
  {
    match pc
    case CheckPaid(i) => if i <= |Payouts(req)| then 2 * (|Payouts(req)| - i) + 1 else 1
    case PayReferral(i) => if i < |Payouts(req)| then 2 * (|Payouts(req)| - i) else 0
    case _ => 0
  }

  /** In the payment loop. */
  ghost predicate Paying(req: Request, l: Local) {
    && req.Settle? && l.req == req
    && ((l.pc.CheckPaid? && l.pc.i <= |Payouts(req)|) || (l.pc.PayReferral? && l.pc.i < |Payouts(req)|))
  }

  lemma PaymentStep(cfg: Config, l: Local, v: Db)
    requires Paying(l.req, l) && !Step(cfg, l, v).pc.Failed?
    ensures var n := Step(cfg, l, v);
            n.req == l.req && (n.pc.Ready? || (Paying(l.req, n) && PaymentsLeft(l.req, n.pc) < PaymentsLeft(l.req, l.pc)))
  {
  }

  lemma PaymentErrors(cfg: Config, l: Local, v: Db)
    requires Paying(l.req, l) && Step(cfg, l, v).pc.Failed?
    ensures Impossible(Step(cfg, l, v))
  {
  }

  ghost function PayingAt(cfg: Config, req: Request, db: Db): nat -> bool {
    (j: nat) => Paying(req, Traj(cfg, req, db, j))
  }

  ghost function LeftAt(cfg: Config, req: Request, db: Db): nat -> nat
    requires req.Settle?
  {
    (j: nat) => PaymentsLeft(req, Traj(cfg, req, db, j).pc)
  }

  ghost function ReadyAt(cfg: Config, req: Request, db: Db): nat -> bool {
    (j: nat) => Traj(cfg, req, db, j).pc.Ready?
  }

  /** While something goes on, the next is possible, and either that is the end or less is left. */
  ghost predicate GoesOn(can: nat -> bool, going: nat -> bool, done: nat -> bool, left: nat -> nat) {
    forall j: nat :: Onward(can, going, done, left, j)
  }

  ghost predicate Onward(can: nat -> bool, going: nat -> bool, done: nat -> bool, left: nat -> nat, j: nat) {
    going(j) ==> can(j) && (done(j + 1) || (going(j + 1) && left(j + 1) < left(j)))
  }

  lemma {:induction false} GetsThere(can: nat -> bool, going: nat -> bool, done: nat -> bool, left: nat -> nat, k: nat) returns (n: nat)
    requires GoesOn(can, going, done, left) && going(k) && All(can, k)
    ensures done(n) && All(can, n)
    decreases left(k)
  {
    n := k + 1;
    assert Onward(can, going, done, left, k);
    if !done(k + 1) { n := GetsThere(can, going, done, left, k + 1); }
  }

  /** One statement of the loop: another one is left, or the settlement is ready. */
  lemma PaymentGoesOn(cfg: Config, req: Request, db: Db, k: nat)
    requires ValidZone(cfg.zone) && Inv(cfg, db) && Owes(db, req) && PayingAt(cfg, req, db)(k)
    ensures CanRunAt(cfg, req, db)(k)
    ensures || ReadyAt(cfg, req, db)(k + 1)
            || (PayingAt(cfg, req, db)(k + 1) && LeftAt(cfg, req, db)(k + 1) < LeftAt(cfg, req, db)(k))
  {
    var l := Traj(cfg, req, db, k);
    OwesIsAdmissible(db, req);
    CommitKeepsInv(cfg, req, db, k + 1);
    TrajStep(cfg, req, db, k);
    var v := View(db, l);
    if Step(cfg, l, v).pc.Failed? { PaymentErrors(cfg, l, v); }
    PaymentStep(cfg, l, v);
  }

  lemma PaymentsGoOn(cfg: Config, req: Request, db: Db)
    requires ValidZone(cfg.zone) && Inv(cfg, db) && Owes(db, req)
    ensures GoesOn(CanRunAt(cfg, req, db), PayingAt(cfg, req, db), ReadyAt(cfg, req, db), LeftAt(cfg, req, db))
  {
    forall j: nat ensures Onward(CanRunAt(cfg, req, db), PayingAt(cfg, req, db), ReadyAt(cfg, req, db), LeftAt(cfg, req, db), j) {
      if PayingAt(cfg, req, db)(j) { PaymentGoesOn(cfg, req, db, j); }
    }
  }

  /** The statements before the loop. */
  function Before(req: Request, j: nat): Local
    requires req.Settle? && j < 4
  {
    Local(req, if j == 0 then ReadBinding else if j == 1 then ReadMission else if j == 2 then ReadHistory else TakeWallet, [])
  }

  lemma BeforeStep(cfg: Config, req: Request, db: Db, j: nat)
    requires Owes(db, req) && j < 4
    ensures Before(req, 0) == Init(req) && View(db, Before(req, j)) == db && CanRun(db, Before(req, j))
    ensures var n := Step(cfg, Before(req, j), db); if j < 3 then n == Before(req, j + 1) else Paying(req, n)
  {
  }

  lemma {:induction false} FirstStatement(cfg: Config, req: Request, db: Db, j: nat)
    requires Owes(db, req) && j < 4
    ensures Traj(cfg, req, db, j) == Before(req, j)
  {
    BeforeStep(cfg, req, db, j);
    if j > 0 {
      FirstStatement(cfg, req, db, j - 1);
      TrajStep(cfg, req, db, j - 1);
      BeforeStep(cfg, req, db, j - 1);
    } else {
      TrajStep(cfg, req, db, 0);
    }
  }

  lemma FirstStatements(cfg: Config, req: Request, db: Db)
    requires Owes(db, req)
    ensures Runs(cfg, req, db, 4) && PayingAt(cfg, req, db)(4)
  {
    forall j: nat | j < 4 ensures CanRunAt(cfg, req, db)(j) {
      FirstStatement(cfg, req, db, j);
      BeforeStep(cfg, req, db, j);
    }
    FirstStatement(cfg, req, db, 3);
    BeforeStep(cfg, req, db, 3);
    TrajStep(cfg, req, db, 3);
  }

  /** A settlement that finds its invitee bound, the mission done and a redemption gets ready to commit, whatever the ledger holds. */
  lemma SettlesAlone(cfg: Config, req: Request, db: Db) returns (n: nat)
    requires ValidZone(cfg.zone) && Inv(cfg, db) && Owes(db, req)
    ensures Runs(cfg, req, db, n) && ReadyAt(cfg, req, db)(n)
  {
    FirstStatements(cfg, req, db);
    PaymentsGoOn(cfg, req, db);
    n := GetsThere(CanRunAt(cfg, req, db), PayingAt(cfg, req, db), ReadyAt(cfg, req, db), LeftAt(cfg, req, db), 4);
  }

  // -------------------------------------------------------------- redemptions

  /** A free code of an active batch, for a user who is not at the daily limit whatever the day. */
  ghost predicate Redeemable(cfg: Config, db: Db, req: Request) {
    && req.Redeem? && req.code in db.codes && db.codes[req.code].redemption.None?
    && req.batchActive && BatchIsActive(db, req.code) && |RedeemedSet(db, req.user)| < cfg.dailyLimit
  }

  function RedeemLeft(pc: Pc): nat {
    match pc
    case TakeWallet => 10
    case ReadBatch => 9
    case ClaimCode => 8
    case CountToday => 7
    case AddEntry => 6
    case PayCoins => 5
    case ReadRule => 4
    case CheckBonus(_) => 3
    case PayBonus(_) => 2
    case CountFlavor(_) => 1
    case _ => 0
  }

  /** A redemption on its way. */
  ghost predicate Redeeming(req: Request, l: Local) { l.req == req && req.Redeem? && RedeemLeft(l.pc) > 0 }

  /** What a statement of such a redemption does, given that its code is there and what it needs is granted. */
  lemma RedeemGoesOnByPc(cfg: Config, l: Local, v: Db)
    requires Redeeming(l.req, l) && l.req.code in v.codes && !Impossible(Step(cfg, l, v))
    requires l.pc.ClaimCode? ==> v.codes[l.req.code].redemption.None? && l.req.batchActive
    requires l.pc.CountToday? ==> |SinceSet(v, l.req.user, cfg.zone.StartOfLocalDay(l.req.now))| <= cfg.dailyLimit
    ensures var n := Step(cfg, l, v);
            n.req == l.req && !n.pc.Failed? && (n.pc.Ready? || (Redeeming(l.req, n) && RedeemLeft(n.pc) < RedeemLeft(l.pc)))
  {
  }

  /** One more redemption than before keeps within the limit. */
  lemma OneMoreToday(cfg: Config, db: Db, l: Local, v: Db, since: Time)
    requires Redeemable(cfg, db, l.req) && v.codes == Rows(db.codes, l)
    ensures |SinceSet(v, l.req.user, since)| <= cfg.dailyLimit
  {
    var u, c := l.req.user, l.req.code;
    forall x | x in SinceSet(v, u, since) ensures x in RedeemedSet(db, u) + {c} {
      if x != c { assert v.codes[x] == db.codes[x]; }
    }
    CardinalityMonotone(SinceSet(v, u, since), RedeemedSet(db, u) + {c});
  }

  lemma RedeemGoesOn(cfg: Config, req: Request, db: Db, l: Local, n: Local)
    requires Redeemable(cfg, db, req) && Redeeming(req, l) && Shape(l) && RowsSeen(db, l) && n == Step(cfg, l, View(db, l)) && !Impossible(n)
    ensures CanRun(db, l) && !n.pc.Failed? && (n.pc.Ready? || (Redeeming(req, n) && RedeemLeft(n.pc) < RedeemLeft(l.pc)))
  {
    OneMoreToday(cfg, db, l, View(db, l), cfg.zone.StartOfLocalDay(req.now));
    assert l.pc.ClaimCode? ==> !l.HoldsCode();
    RedeemGoesOnByPc(cfg, l, View(db, l));
  }

  ghost function RedeemingAt(cfg: Config, req: Request, db: Db): nat -> bool {
    (j: nat) => Redeeming(req, Traj(cfg, req, db, j))
  }

  ghost function RedeemLeftAt(cfg: Config, req: Request, db: Db): nat -> nat {
    (j: nat) => RedeemLeft(Traj(cfg, req, db, j).pc)
  }

  lemma NextIsPossible(cfg: Config, req: Request, db: Db, k: nat)
    requires ValidZone(cfg.zone) && Inv(cfg, db) && Admissible(db, req)
    ensures var l := Traj(cfg, req, db, k); !Impossible(Step(cfg, l, View(db, l)))
  {
    CommitKeepsInv(cfg, req, db, k + 1);
    TrajStep(cfg, req, db, k);
  }

  lemma RowsAlongTheWay(cfg: Config, req: Request, db: Db, k: nat)
    ensures var l := Traj(cfg, req, db, k); !l.pc.Failed? ==> Shape(l) && RowsSeen(db, l)
  {
    TrajShape(cfg, req, db, k);
    TrajTransparent(cfg, req, db, k);
  }

  lemma OneStatement(cfg: Config, req: Request, db: Db, k: nat, l: Local, n: Local)
    requires ValidZone(cfg.zone) && Inv(cfg, db) && Admissible(db, req)
    requires l == Traj(cfg, req, db, k) && n == Traj(cfg, req, db, k + 1)
    ensures n == Step(cfg, l, View(db, l)) && !Impossible(n) && (!l.pc.Failed? ==> Shape(l) && RowsSeen(db, l))
  {
    TrajStep(cfg, req, db, k);
    NextIsPossible(cfg, req, db, k);
    RowsAlongTheWay(cfg, req, db, k);
  }

  lemma RedemptionStep(cfg: Config, req: Request, db: Db, k: nat, l: Local, n: Local)
    requires ValidZone(cfg.zone) && Inv(cfg, db) && Redeemable(cfg, db, req) && Redeeming(req, l)
    requires l == Traj(cfg, req, db, k) && n == Traj(cfg, req, db, k + 1)
    ensures CanRun(db, l) && (n.pc.Ready? || (Redeeming(req, n) && RedeemLeft(n.pc) < RedeemLeft(l.pc)))
  {
    OneStatement(cfg, req, db, k, l, n);
    RedeemGoesOn(cfg, req, db, l, n);
  }

  lemma RedemptionGoesOn(cfg: Config, req: Request, db: Db, k: nat)
    requires ValidZone(cfg.zone) && Inv(cfg, db) && Redeemable(cfg, db, req) && RedeemingAt(cfg, req, db)(k)
    ensures CanRunAt(cfg, req, db)(k)
    ensures || ReadyAt(cfg, req, db)(k + 1)
            || (RedeemingAt(cfg, req, db)(k + 1) && RedeemLeftAt(cfg, req, db)(k + 1) < RedeemLeftAt(cfg, req, db)(k))
  {
    RedemptionStep(cfg, req, db, k, Traj(cfg, req, db, k), Traj(cfg, req, db, k + 1));
  }

  lemma RedemptionsGoOn(cfg: Config, req: Request, db: Db)
    requires ValidZone(cfg.zone) && Inv(cfg, db) && Redeemable(cfg, db, req)
    ensures GoesOn(CanRunAt(cfg, req, db), RedeemingAt(cfg, req, db), ReadyAt(cfg, req, db), RedeemLeftAt(cfg, req, db))
  {
    forall j: nat ensures Onward(CanRunAt(cfg, req, db), RedeemingAt(cfg, req, db), ReadyAt(cfg, req, db), RedeemLeftAt(cfg, req, db), j) {
      if RedeemingAt(cfg, req, db)(j) { RedemptionGoesOn(cfg, req, db, j); }
    }
  }

  /** A redemption of a free code of an active batch below the daily limit gets ready to commit, whatever its clock says. */
  lemma RedeemsAlone(cfg: Config, req: Request, db: Db) returns (n: nat)
    requires ValidZone(cfg.zone) && Inv(cfg, db) && Redeemable(cfg, db, req)
    ensures Runs(cfg, req, db, n) && ReadyAt(cfg, req, db)(n)
  {
    TrajStep(cfg, req, db, 0);
    RedemptionsGoOn(cfg, req, db);
    n := GetsThere(CanRunAt(cfg, req, db), RedeemingAt(cfg, req, db), ReadyAt(cfg, req, db), RedeemLeftAt(cfg, req, db), 0);
  }

  // ----------------------------------------------------------------- bindings

  /** A binding that nothing stands against. */
  ghost predicate Bindable(db: Db, req: Request) {
    && req.Bind? && req.inviter.Some? && req.inviter.value != req.invitee
    && req.invitee !in db.bindings && RedeemedSet(db, req.invitee) == {}
  }

  /** The binding after `j` of its four statements. */
  function BindAfter(req: Request, j: nat): Local
    requires req.Bind? && req.inviter.Some? && j <= 4
  {
    var lock := LockWallet(req.invitee);
    if j == 0 then Local(req, TakeWallet, [])
    else if j == 1 then Local(req, ReadBound, [lock])
    else if j == 2 then Local(req, CountCodes(false), [lock])
    else if j == 3 then Local(req, InsertBound, [lock])
    else Local(req, Ready(Bound), [lock, InsertBinding(req.invitee, req.inviter.value)])
  }

  lemma BindView(db: Db, req: Request, j: nat)
    requires Bindable(db, req) && j <= 4
    ensures var v := View(db, BindAfter(req, j));
            && v.codes == db.codes && v.batches == db.batches && v.ledger == db.ledger
            && v.bindings == if j < 4 then db.bindings else db.bindings[req.invitee := req.inviter.value]
  {
    var lock, bind := LockWallet(req.invitee), InsertBinding(req.invitee, req.inviter.value);
    assert [lock][..0] == [] && [lock, bind][..1] == [lock];
    assert Apply(db, [lock]) == DoOp(db, lock);
  }

  lemma BindStep(cfg: Config, db: Db, req: Request, j: nat)
    requires Bindable(db, req) && j < 4
    ensures CanRun(db, BindAfter(req, j)) && Step(cfg, BindAfter(req, j), View(db, BindAfter(req, j))) == BindAfter(req, j + 1)
  {
    BindView(db, req, j);
    assert RedeemedSet(View(db, BindAfter(req, j)), req.invitee) == RedeemedSet(db, req.invitee);
    assert [LockWallet(req.invitee)] + [InsertBinding(req.invitee, req.inviter.value)] == BindAfter(req, 4).ops;
  }

  lemma {:induction false} BindTraj(cfg: Config, db: Db, req: Request, j: nat)
    requires Bindable(db, req) && j <= 4
    ensures Traj(cfg, req, db, j) == BindAfter(req, j)
  {
    TrajStep(cfg, req, db, 0);
    if j > 0 {
      BindTraj(cfg, db, req, j - 1);
      TrajStep(cfg, req, db, j - 1);
      BindStep(cfg, db, req, j - 1);
    }
  }

  /** A binding that nothing stands against gets to its commit, which adds it and leaves codes, batches and ledger alone. */
  lemma BindsAlone(cfg: Config, req: Request, db: Db)
    requires Bindable(db, req)
    ensures Runs(cfg, req, db, 4) && ReadyAt(cfg, req, db)(4)
    ensures var after := CommitAfter(cfg, req, db, 4);
            && after.codes == db.codes && after.batches == db.batches && after.ledger == db.ledger
            && after.bindings == db.bindings[req.invitee := req.inviter.value]
  {
    forall j: nat | j < 4 ensures CanRunAt(cfg, req, db)(j) {
      BindTraj(cfg, db, req, j);
      BindStep(cfg, db, req, j);
    }
    BindTraj(cfg, db, req, 4);
    BindView(db, req, 4);
  }
}
