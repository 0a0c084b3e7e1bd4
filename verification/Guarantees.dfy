/** What players and staff can rely on in every run: exactly-once redemption, limits, bonuses and unlocks. */
module Guarantees {
  import opened Prelude
  import opened Tables
  import opened ReferralRules
  import opened Transactions
  import opened Economy
  import opened Interleaving
  import opened Concurrency

  // ------------------------------------------------ redeemed once, for good

  lemma NextGrows(cfg: Config, s: State, a: Action, n: State)
    requires ValidZone(cfg.zone) && Safe(cfg, s) && Next(cfg, s, a, n)
    ensures Grows(s.db, n.db)
  {
    if a.Commit? {
      TrajShape(cfg, s.active[a.t].local.req, s.db, s.active[a.t].steps);
      AliveIsAdmissible(cfg, s, a.t);
      CommitKeepsInv(cfg, s.active[a.t].local.req, s.db, s.active[a.t].steps);
    } else if a.Staff? {
      StaffKeepsInv(cfg, s.db, a.event);
    }
  }

  lemma OneStepGrows(cfg: Config, first: Db, states: seq<State>, actions: seq<Action>, i: nat)
    requires ValidZone(cfg.zone) && Inv(cfg, first) && Execution(cfg, first, states, actions) && i < |actions|
    ensures Grows(states[i].db, states[i + 1].db)
  {
    AlwaysSafe(cfg, first, states, actions, i);
    NextGrows(cfg, states[i], actions[i], states[i + 1]);
  }

  /** Tables that grow with every step grow over any stretch of steps. */
  lemma {:induction false} StepsGrow(states: seq<State>, i: nat, j: nat)
    requires i <= j < |states| && forall k | i <= k < j :: Grows(states[k].db, states[k + 1].db)
    ensures Grows(states[i].db, states[j].db)
    decreases j
  {
    if i < j {
      StepsGrow(states, i, j - 1);
      GrowsTransitive(states[i].db, states[j - 1].db, states[j].db);
    }
  }

  /** The committed tables only grow along an execution. */
  lemma ExecutionGrows(cfg: Config, first: Db, states: seq<State>, actions: seq<Action>, i: nat, j: nat)
    requires ValidZone(cfg.zone) && Inv(cfg, first) && Execution(cfg, first, states, actions) && i <= j < |states|
    ensures Grows(states[i].db, states[j].db)
  {
    forall k | i <= k < j ensures Grows(states[k].db, states[k + 1].db) {
      OneStepGrows(cfg, first, states, actions, k);
    }
    StepsGrow(states, i, j);
  }

  /** Once redeemed, a code keeps its redeemer and its moment in every later state. */
  lemma RedeemerNeverChanges(
    cfg: Config, first: Db, states: seq<State>, actions: seq<Action>, i: nat, j: nat, c: CodeId)
    requires ValidZone(cfg.zone) && Inv(cfg, first) && Execution(cfg, first, states, actions) && i <= j < |states|
    requires c in states[i].db.codes && states[i].db.codes[c].redemption.Some?
    ensures c in states[j].db.codes && states[j].db.codes[c] == states[i].db.codes[c]
  {
    ExecutionGrows(cfg, first, states, actions, i, j);
  }

  /**
   In every committed state a user's points in a city count exactly the codes redeemed there,
   and a redeemed code worth coins stands in the ledger once, for its redeemer, at its batch's price.
   */
  lemma PointsAndPayMatchRedemptions(
    cfg: Config, first: Db, states: seq<State>, actions: seq<Action>, n: nat, u: User, city: City, c: CodeId)
    requires ValidZone(cfg.zone) && Inv(cfg, first) && Execution(cfg, first, states, actions) && n < |states|
    ensures var db := states[n].db;
            && Points(db, u, city) == |FlavorSet(db, u, city)|
            && (RedeemedBy(db, c, u) && CoinsOf(db, c) > 0 ==>
                  exists i :: 0 <= i < |db.ledger| && db.ledger[i].key == CodeRedemption(c)
                              && db.ledger[i].user == u && db.ledger[i].amount == CoinsOf(db, c)
                              && forall j | 0 <= j < |db.ledger| && db.ledger[j].key == CodeRedemption(c) :: j == i)
            && (HasKey(db.ledger, CodeRedemption(c)) ==> c in db.codes && db.codes[c].redemption.Some?)
  {
    AlwaysSafe(cfg, first, states, actions, n);
    var db := states[n].db;
    if RedeemedBy(db, c, u) && CoinsOf(db, c) > 0 {
      var i :| 0 <= i < |db.ledger| && db.ledger[i].key == CodeRedemption(c);
      assert EntryOk(db, db.ledger[i]);
    }
    if i :| 0 <= i < |db.ledger| && db.ledger[i].key == CodeRedemption(c) {
      assert EntryOk(db, db.ledger[i]);
    }
  }

  /** A code row that a live or refused transaction holds is, in the committed tables, still free. */
  ghost predicate LockedAreFree(s: State) {
    forall t | t in s.active :: ClaimedFree(s.db, s.active[t].local)
  }

  lemma OtherCodeKept(m: Local, db: Db, op: Op, c: CodeId)
    requires OpOk(m, op) && !(m.HoldsCode() && m.req.code == c)
    ensures c in DoOp(db, op).codes <==> c in db.codes
    ensures c in db.codes ==> DoOp(db, op).codes[c] == db.codes[c]
  {
  }

  lemma {:induction false} OtherCodesKept(m: Local, db: Db, ops: seq<Op>, c: CodeId)
    requires (forall i | 0 <= i < |ops| :: OpOk(m, ops[i])) && !(m.HoldsCode() && m.req.code == c)
    ensures c in Apply(db, ops).codes <==> c in db.codes
    ensures c in db.codes ==> Apply(db, ops).codes[c] == db.codes[c]
  {
    if ops != [] {
      var n := |ops| - 1;
      OtherCodesKept(m, db, ops[..n], c);
      OtherCodeKept(m, Apply(db, ops[..n]), ops[n], c);
    }
  }

  lemma CommitKeepsFree(cfg: Config, s: State, o: nat, n: State, t: nat)
    requires Safe(cfg, s) && LockedAreFree(s) && Next(cfg, s, Commit(o), n) && t in n.active
    ensures ClaimedFree(n.db, n.active[t].local)
  {
    var l, m := s.active[t].local, s.active[o].local;
    assert ClaimedFree(s.db, l);
    if l.HoldsCode() {
      TrajShape(cfg, m.req, s.db, s.active[o].steps);
      OtherCodesKept(m, s.db, m.ops, l.req.code);
    }
  }

  lemma StatementKeepsFree(cfg: Config, s: State, t: nat, n: State)
    requires Safe(cfg, s) && LockedAreFree(s) && Next(cfg, s, Statement(t), n)
    ensures ClaimedFree(n.db, n.active[t].local)
  {
    var Txn(l, k) := s.active[t];
    assert ClaimedFree(s.db, l);
    TrajShape(cfg, l.req, s.db, k);
    StepClaimsFree(cfg, s.db, l);
  }

  lemma NextKeepsFree(cfg: Config, s: State, a: Action, n: State)
    requires Safe(cfg, s) && LockedAreFree(s) && Next(cfg, s, a, n)
    ensures LockedAreFree(n)
  {
    forall t | t in n.active ensures ClaimedFree(n.db, n.active[t].local) {
      match a
      case Commit(o) => CommitKeepsFree(cfg, s, o, n, t);
      case Statement(o) => if t == o { StatementKeepsFree(cfg, s, t, n); } else { assert ClaimedFree(s.db, s.active[t].local); }
      case Begin(o, _) => if t != o { assert ClaimedFree(s.db, s.active[t].local); }
      case Rollback(_) => assert ClaimedFree(s.db, s.active[t].local);
      case Staff(_) => assert ClaimedFree(s.db, s.active[t].local);
    }
  }

  lemma {:induction false} AlwaysLockedFree(cfg: Config, first: Db, states: seq<State>, actions: seq<Action>, i: nat)
    requires ValidZone(cfg.zone) && Inv(cfg, first) && Execution(cfg, first, states, actions) && i < |states|
    ensures LockedAreFree(states[i])
  {
    if i > 0 {
      AlwaysLockedFree(cfg, first, states, actions, i - 1);
      AlwaysSafe(cfg, first, states, actions, i - 1);
      NextKeepsFree(cfg, states[i - 1], actions[i - 1], states[i]);
    }
  }

  /**
   A redemption that rolls back after it claimed its code, because the daily limit refused it or
   for any other reason, leaves the code unredeemed and its row unlocked for the next attempt.
   */
  lemma RollbackFreesCode(cfg: Config, first: Db, states: seq<State>, actions: seq<Action>, i: nat, t: nat)
    requires ValidZone(cfg.zone) && Inv(cfg, first) && Execution(cfg, first, states, actions)
    requires i < |actions| && actions[i] == Rollback(t)
    requires t in states[i].active && states[i].active[t].local.HoldsCode()
    ensures var c, n := states[i].active[t].local.req.code, states[i + 1];
            && c in n.db.codes && n.db.codes[c].redemption.None?
            && forall o | o in n.active && n.active[o].local.HoldsCode() :: n.active[o].local.req.code != c
  {
    AlwaysSafe(cfg, first, states, actions, i);
    AlwaysLockedFree(cfg, first, states, actions, i);
    assert Next(cfg, states[i], actions[i], states[i + 1]);
    assert ClaimedFree(states[i].db, states[i].active[t].local);
  }

  /** The refusal for the daily limit comes while the code row is held, so the rollback after it is one of those. */
  lemma LimitRefusalHoldsTheCode(cfg: Config, l: Local, v: Db)
    requires Shape(l) && l.req.Redeem? && l.Running() && Step(cfg, l, v).pc == Failed(DailyLimit)
    ensures Step(cfg, l, v).HoldsCode()
  {
  }

  // ------------------------------------------------------- limits and bonus

  /** No user ever has more committed redemptions in one campaign day than the limit, in whatever order clocks arrive. */
  lemma DailyLimitHolds(cfg: Config, first: Db, states: seq<State>, actions: seq<Action>, i: nat, u: User, day: Time)
    requires ValidZone(cfg.zone) && Inv(cfg, first) && Execution(cfg, first, states, actions) && i < |states|
    ensures |DaySet(cfg.zone, states[i].db, u, day)| <= cfg.dailyLimit
  {
    AlwaysSafe(cfg, first, states, actions, i);
  }

  /** However staff edit the rule meanwhile, a user gets at most one first-code bonus, and only after redeeming. */
  lemma FirstCodeBonusOnce(cfg: Config, first: Db, states: seq<State>, actions: seq<Action>, n: nat, i: nat, j: nat, u: User)
    requires ValidZone(cfg.zone) && Inv(cfg, first) && Execution(cfg, first, states, actions) && n < |states|
    requires i < |states[n].db.ledger| && j < |states[n].db.ledger|
    requires states[n].db.ledger[i].key == FirstCode(u) && states[n].db.ledger[j].key == FirstCode(u)
    ensures i == j && states[n].db.ledger[i].user == u && RedeemedSet(states[n].db, u) != {}
  {
    AlwaysSafe(cfg, first, states, actions, n);
    assert EntryOk(states[n].db, states[n].db.ledger[i]);
  }

  // ---------------------------------- what one committed redemption changes

  /** The code rows a transaction sees: the committed ones, and its own claim. */
  ghost predicate RowsSeen(db: Db, l: Local) {
    View(db, l).codes == Rows(db.codes, l)
  }

  /** A redemption reports what its own view says when it is ready to commit. */
  ghost predicate ReportsView(l: Local, v: Db) {
    l.req.Redeem? && l.pc.Ready? ==>
      && l.req.code in v.codes && l.pc.outcome.Accepted?
      && var o, u, city := l.pc.outcome, l.req.user, v.codes[l.req.code].city;
         && o.city == city && o.points == Points(v, u, city) && o.coins == CoinsOf(v, l.req.code)
         && o.balance == BalanceIn(v, u)
         && (o.unlocked <==> |FlavorSet(v, u, city)| == UNLOCK_THRESHOLD)
  }

  /** Only the claim statement of a redemption touches the code rows. */
  lemma StepMarks(cfg: Config, l: Local, v: Db)
    ensures MarksOnlyItsClaim(l, Step(cfg, l, v))
  {
  }

  ghost predicate MarksOnlyItsClaim(l: Local, n: Local) {
    |n.ops| > |l.ops| && n.ops[|n.ops| - 1].MarkRedeemed? ==>
      l.req.Redeem? && l.pc.ClaimCode? && n.ops[|n.ops| - 1] == MarkRedeemed(l.req.code, l.req.user, l.req.now)
  }

  /** The code rows a transaction in state `l` sees when `rows` are committed. */
  ghost function Rows(rows: map<CodeId, CodeRow>, l: Local): map<CodeId, CodeRow> {
    if l.HoldsCode() && l.req.code in rows
    then rows[l.req.code := rows[l.req.code].(redemption := Some(Redemption(l.req.user, l.req.now)))]
    else rows
  }

  lemma SecondWriteMarks(cfg: Config, l: Local, v: Db)
    requires Shape(l) && l.req.Redeem? && |l.ops| == 1 && |Step(cfg, l, v).ops| == 2
    ensures Step(cfg, l, v).ops[1].MarkRedeemed?
  {
    StepWrites(cfg, l, v);
  }

  /** One write takes the rows seen before it to the rows seen after it. */
  lemma WriteRows(rows: map<CodeId, CodeRow>, l: Local, n: Local, v: Db)
    requires !l.pc.Failed? && !n.pc.Failed? && Follows(l, n) && |n.ops| > |l.ops| && v.codes == Rows(rows, l)
    requires l.req.Redeem? && l.pc.ClaimCode? ==> |l.ops| == 1
    requires n.ops[|l.ops|].MarkRedeemed? ==>
               l.req.Redeem? && l.pc.ClaimCode? && n.ops[|l.ops|] == MarkRedeemed(l.req.code, l.req.user, l.req.now)
    requires l.req.Redeem? && |l.ops| == 1 ==> n.ops[1].MarkRedeemed?
    ensures DoOp(v, n.ops[|l.ops|]).codes == Rows(rows, n)
  {
  }

  /** What `StepRows` needs to know of a statement that led from `l` to `n`. */
  ghost predicate StepFacts(l: Local, n: Local) {
    && Follows(l, n) && MarksOnlyItsClaim(l, n) && (l.pc.Failed? ==> n.pc.Failed?)
    && (l.req.Redeem? && |l.ops| == 1 && |n.ops| == 2 ==> n.ops[1].MarkRedeemed?)
  }

  lemma AboutStep(cfg: Config, l: Local, v: Db)
    requires Shape(l)
    ensures StepFacts(l, Step(cfg, l, v))
  {
    FailedStays(cfg, l, v);
    StepWrites(cfg, l, v);
    StepMarks(cfg, l, v);
    if l.req.Redeem? && |l.ops| == 1 && |Step(cfg, l, v).ops| == 2 { SecondWriteMarks(cfg, l, v); }
  }

  lemma StepRows(cfg: Config, db: Db, l: Local)
    requires Shape(l) && !Step(cfg, l, View(db, l)).pc.Failed? && RowsSeen(db, l)
    ensures RowsSeen(db, Step(cfg, l, View(db, l)))
  {
    AboutStep(cfg, l, View(db, l));
    StepView(cfg, l, db);
    RowsFollow(db, l, Step(cfg, l, View(db, l)));
  }

  lemma RowsFollow(db: Db, l: Local, n: Local)
    requires Shape(l) && !n.pc.Failed? && RowsSeen(db, l) && StepFacts(l, n)
    requires View(db, n) == if |n.ops| > |l.ops| then DoOp(View(db, l), n.ops[|n.ops| - 1]) else View(db, l)
    ensures RowsSeen(db, n)
  {
    FollowingRows(db, l, n, View(db, l), View(db, n));
  }

  lemma FollowingRows(db: Db, l: Local, n: Local, v: Db, w: Db)
    requires !n.pc.Failed? && v.codes == Rows(db.codes, l) && StepFacts(l, n)
    requires l.req.Redeem? && l.pc.ClaimCode? ==> |l.ops| == 1
    requires w == if |n.ops| > |l.ops| then DoOp(v, n.ops[|n.ops| - 1]) else v
    ensures w.codes == Rows(db.codes, n)
  {
    if |n.ops| > |l.ops| { WriteRows(db.codes, l, n, v); }
  }

  lemma ReadyReports(cfg: Config, l: Local, v: Db)
    requires l.Running()
    ensures var n := Step(cfg, l, v); n.req.Redeem? && n.pc.Ready? ==> n.ops == l.ops && ReportsView(n, v)
  {
  }

  lemma StepReports(cfg: Config, db: Db, l: Local)
    requires ReportsView(l, View(db, l))
    ensures ReportsView(Step(cfg, l, View(db, l)), View(db, Step(cfg, l, View(db, l))))
  {
    FailedStays(cfg, l, View(db, l));
    if l.Running() { ReadyReports(cfg, l, View(db, l)); }
  }

  ghost predicate Transparent(db: Db, l: Local) {
    (l.pc.Failed? || RowsSeen(db, l)) && ReportsView(l, View(db, l))
  }

  lemma StepTransparent(cfg: Config, db: Db, l: Local)
    requires Shape(l) && ClaimedFree(db, l) && Transparent(db, l)
    ensures Transparent(db, Step(cfg, l, View(db, l)))
  {
    StepReports(cfg, db, l);
    FailedStays(cfg, l, View(db, l));
    if !Step(cfg, l, View(db, l)).pc.Failed? { StepRows(cfg, db, l); }
  }

  lemma TrajTransparent(cfg: Config, req: Request, db: Db, k: nat)
    ensures Transparent(db, Traj(cfg, req, db, k))
  {
    InitShape(req);
    var good := (l: Local) => ShapedFor(req, l) && ClaimedFree(db, l) && Transparent(db, l);
    forall l | good(l) ensures good(Services(cfg)(l, View(db, l))) {
      StepShaped(cfg, req, l, View(db, l));
      StepClaimsFree(cfg, db, l);
      StepTransparent(cfg, db, l);
    }
    Always(Services(cfg), req, db, k, good);
  }

  /** Whether the event committed a redemption by `u` of a code of `city`. */
  predicate Redeems(cfg: Config, db: Db, e: Event, u: User, city: City) {
    && e.Committed? && e.req.Redeem? && e.req.user == u
    && var l := Traj(cfg, e.req, db, e.steps);
       l.pc.Ready? && l.pc.outcome.Accepted? && l.pc.outcome.city == city
  }

  /** One event changes a user's codes of a flavor only by redeeming one, and then by exactly one. */
  lemma EventCounts(cfg: Config, db: Db, e: Event, u: User, city: City)
    ensures |FlavorSet(Effect(cfg, db, e), u, city)| == |FlavorSet(db, u, city)| + if Redeems(cfg, db, e, u, city) then 1 else 0
  {
    if e.Committed? {
      TrajTransparent(cfg, e.req, db, e.steps);
      TrajShape(cfg, e.req, db, e.steps);
      TrajClaimsFree(cfg, e.req, db, e.steps);
      var l := Traj(cfg, e.req, db, e.steps);
      if l.pc.Ready? && e.req.Redeem? {
        ClaimedFlavor(db, View(db, l), e.req.code, e.req.user, e.req.now, u, city);
      } else {
        assert FlavorSet(Effect(cfg, db, e), u, city) == FlavorSet(db, u, city);
      }
    } else {
      assert FlavorSet(Effect(cfg, db, e), u, city) == FlavorSet(db, u, city);
    }
  }

  /** How many events of the log redeemed a code of `city` for `u`. */
  function Redemptions(cfg: Config, first: Db, log: seq<Event>, u: User, city: City): nat {
    if log == [] then 0
    else
      var n := |log| - 1;
      Redemptions(cfg, first, log[..n], u, city)
      + if Redeems(cfg, Replay(cfg, first, log[..n]), log[n], u, city) then 1 else 0
  }

  lemma {:induction false} RedemptionsCounted(cfg: Config, first: Db, log: seq<Event>, u: User, city: City)
    ensures |FlavorSet(Replay(cfg, first, log), u, city)| == |FlavorSet(first, u, city)| + Redemptions(cfg, first, log, u, city)
  {
    if log != [] {
      var n := |log| - 1;
      RedemptionsCounted(cfg, first, log[..n], u, city);
      EventCounts(cfg, Replay(cfg, first, log[..n]), log[n], u, city);
    }
  }

  /** Among a user's committed redemptions of one flavor exactly the fifth reports the unlock. */
  lemma ExactlyTheFifthUnlocks(cfg: Config, first: Db, log: seq<Event>, n: nat, u: User, city: City)
    requires n < |log| && Redeems(cfg, Replay(cfg, first, log[..n]), log[n], u, city)
    requires FlavorSet(first, u, city) == {}
    ensures var before := Replay(cfg, first, log[..n]);
            Traj(cfg, log[n].req, before, log[n].steps).pc.outcome.unlocked
            <==> Redemptions(cfg, first, log[..n + 1], u, city) == 5
  {
    var before := Replay(cfg, first, log[..n]);
    assert log[..n + 1][..n] == log[..n] && log[..n + 1][n] == log[n];
    assert Replay(cfg, first, log[..n + 1]) == View(before, Traj(cfg, log[n].req, before, log[n].steps));
    TrajTransparent(cfg, log[n].req, before, log[n].steps);
    RedemptionsCounted(cfg, first, log[..n + 1], u, city);
    var l := Traj(cfg, log[n].req, before, log[n].steps);
    assert l.req == log[n].req by { TrajShape(cfg, log[n].req, before, log[n].steps); }
  }
}
