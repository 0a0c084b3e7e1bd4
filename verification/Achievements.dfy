/**
 Streak achievements: what a check-in claim unlocks, for the claim alone and over every
 execution of the interleaved services.
 */
module Achievements {
  import opened Prelude
  import opened Tables
  import opened ReferralRules
  import opened Transactions
  import opened Economy
  import opened Interleaving
  import opened Concurrency
  import Streaks

  /** Among the first `n` achievements of the catalogue one has this id and a threshold within the streak. */
  ghost predicate ReachedAmong(achievements: seq<Achievement>, n: nat, streak: nat, id: nat)
    requires n <= |achievements|
  {
    exists j | 0 <= j < n :: achievements[j].id == id && achievements[j].threshold <= streak
  }

  /** The unlock rows of `after` are those of `before`, and the user's for what was reached among the first `n`. */
  ghost predicate UnlockedUpTo(before: Db, after: Db, u: User, achievements: seq<Achievement>, n: nat, streak: nat) {
    && n <= |achievements| && before.unlocks <= after.unlocks
    && (forall r | r in after.unlocks && r !in before.unlocks :: r.user == u && ReachedAmong(achievements, n, streak, r.achievement))
    && (forall j | 0 <= j < n && achievements[j].threshold <= streak :: UnlockRow(achievements[j].id, u) in after.unlocks)
  }

  /** The streak is that of the check-in days the claims of the challenge hold. */
  ghost predicate StreakIs(cfg: Config, v: Db, ch: Challenge, req: Request, streak: nat)
    requires req.Claim?
  {
    streak == Streaks.Streak(CheckinDays(v, ch.id, req.user), cfg.zone.dayOf(req.now))
  }

  /** What a claim has unlocked when it is about to run `l.pc`. */
  ghost predicate UnlocksSoFar(cfg: Config, before: Db, l: Local, v: Db)
    requires l.req.Claim?
  {
    var Claim(u, _, challenge, _, achievements) := l.req;
    match l.pc
    case CheckUnlock(ch, streak, i, _) =>
      challenge == Some(ch) && StreakIs(cfg, v, ch, l.req, streak) && UnlockedUpTo(before, v, u, achievements, i, streak)
    case Unlock(ch, streak, i, _) =>
      && challenge == Some(ch) && StreakIs(cfg, v, ch, l.req, streak) && UnlockedUpTo(before, v, u, achievements, i, streak)
      && i < |achievements| && achievements[i].threshold <= streak
    case PayUnlock(ch, streak, i, _) =>
      && challenge == Some(ch) && StreakIs(cfg, v, ch, l.req, streak)
      && i < |achievements| && UnlockedUpTo(before, v, u, achievements, i + 1, streak)
    case Ready(Claimed(_, _, Some(streak), _)) =>
      && challenge.Some? && StreakIs(cfg, v, challenge.value, l.req, streak)
      && UnlockedUpTo(before, v, u, achievements, |achievements|, streak)
    case CheckClaimed(ch) => challenge == Some(ch) && v.unlocks == before.unlocks
    case InsertClaimRow(ch) => challenge == Some(ch) && v.unlocks == before.unlocks
    case PayReward(ch) => challenge == Some(ch) && v.unlocks == before.unlocks
    case ReadStreak(ch) => challenge == Some(ch) && v.unlocks == before.unlocks
    case Failed(_) => true
    case _ => v.unlocks == before.unlocks
  }

  lemma SameClaimsSameStreak(cfg: Config, a: Db, b: Db, ch: Challenge, req: Request, streak: nat)
    requires req.Claim? && a.claims == b.claims && StreakIs(cfg, a, ch, req, streak)
    ensures StreakIs(cfg, b, ch, req, streak)
  {
    assert CheckinDays(a, ch.id, req.user) == CheckinDays(b, ch.id, req.user);
  }

  lemma SkipsOne(before: Db, v: Db, u: User, achievements: seq<Achievement>, i: nat, streak: nat)
    requires UnlockedUpTo(before, v, u, achievements, i, streak) && i < |achievements|
    requires streak < achievements[i].threshold || UnlockRow(achievements[i].id, u) in v.unlocks
    ensures UnlockedUpTo(before, v, u, achievements, i + 1, streak)
  {
    forall id | ReachedAmong(achievements, i, streak, id) ensures ReachedAmong(achievements, i + 1, streak, id) {}
  }

  lemma UnlocksOne(before: Db, v: Db, u: User, achievements: seq<Achievement>, i: nat, streak: nat)
    requires UnlockedUpTo(before, v, u, achievements, i, streak) && i < |achievements| && achievements[i].threshold <= streak
    ensures UnlockedUpTo(before, DoOp(v, InsertUnlock(UnlockRow(achievements[i].id, u))), u, achievements, i + 1, streak)
  {
    forall id | ReachedAmong(achievements, i, streak, id) ensures ReachedAmong(achievements, i + 1, streak, id) {}
    assert ReachedAmong(achievements, i + 1, streak, achievements[i].id);
  }

  lemma SameUnlocks(before: Db, v: Db, w: Db, u: User, achievements: seq<Achievement>, n: nat, streak: nat)
    requires UnlockedUpTo(before, v, u, achievements, n, streak) && w.unlocks == v.unlocks
    ensures UnlockedUpTo(before, w, u, achievements, n, streak)
  {
  }

  /** The view after a statement. */
  function After(l: Local, n: Local, v: Db): Db {
    if |n.ops| > |l.ops| then DoOp(v, n.ops[|n.ops| - 1]) else v
  }

  lemma CheckUnlockStep(cfg: Config, before: Db, l: Local, v: Db)
    requires l.req.Claim? && l.pc.CheckUnlock? && UnlocksSoFar(cfg, before, l, v)
    ensures UnlocksSoFar(cfg, before, ClaimStep(cfg, l, v), After(l, ClaimStep(cfg, l, v), v))
  {
    var CheckUnlock(ch, streak, i, done) := l.pc;
    var a := l.req.achievements;
    if i < |a| && (streak < a[i].threshold || UnlockRow(a[i].id, l.req.user) in v.unlocks) {
      SkipsOne(before, v, l.req.user, a, i, streak);
    }
  }

  lemma UnlockStep(cfg: Config, before: Db, l: Local, v: Db)
    requires l.req.Claim? && l.pc.Unlock? && UnlocksSoFar(cfg, before, l, v)
    ensures UnlocksSoFar(cfg, before, ClaimStep(cfg, l, v), After(l, ClaimStep(cfg, l, v), v))
  {
    var Unlock(ch, streak, i, done) := l.pc;
    UnlocksOne(before, v, l.req.user, l.req.achievements, i, streak);
    SameClaimsSameStreak(cfg, v, After(l, ClaimStep(cfg, l, v), v), ch, l.req, streak);
  }

  lemma PayUnlockStep(cfg: Config, before: Db, l: Local, v: Db)
    requires l.req.Claim? && l.pc.PayUnlock? && UnlocksSoFar(cfg, before, l, v)
    ensures UnlocksSoFar(cfg, before, ClaimStep(cfg, l, v), After(l, ClaimStep(cfg, l, v), v))
  {
    var PayUnlock(ch, streak, i, done) := l.pc;
    var w := After(l, ClaimStep(cfg, l, v), v);
    SameUnlocks(before, v, w, l.req.user, l.req.achievements, i + 1, streak);
    SameClaimsSameStreak(cfg, v, w, ch, l.req, streak);
  }

  lemma EarlyClaimStep(cfg: Config, before: Db, l: Local, v: Db)
    requires l.req.Claim? && UnlocksSoFar(cfg, before, l, v)
    requires l.pc.CheckClaimed? || l.pc.InsertClaimRow? || l.pc.PayReward? || l.pc.ReadStreak?
    ensures UnlocksSoFar(cfg, before, ClaimStep(cfg, l, v), After(l, ClaimStep(cfg, l, v), v))
  {
  }

  lemma ClaimStepUnlocks(cfg: Config, before: Db, l: Local, v: Db)
    requires l.req.Claim? && UnlocksSoFar(cfg, before, l, v)
    ensures Step(cfg, l, v).req.Claim? && UnlocksSoFar(cfg, before, Step(cfg, l, v), After(l, Step(cfg, l, v), v))
  {
    match l.pc
    case CheckUnlock(_, _, _, _) => CheckUnlockStep(cfg, before, l, v);
    case Unlock(_, _, _, _) => UnlockStep(cfg, before, l, v);
    case PayUnlock(_, _, _, _) => PayUnlockStep(cfg, before, l, v);
    case CheckClaimed(_) => EarlyClaimStep(cfg, before, l, v);
    case InsertClaimRow(_) => EarlyClaimStep(cfg, before, l, v);
    case PayReward(_) => EarlyClaimStep(cfg, before, l, v);
    case ReadStreak(_) => EarlyClaimStep(cfg, before, l, v);
    case TakeWallet =>
    case _ => assert Step(cfg, l, v) == l;
  }

  ghost predicate ClaimOnTrack(cfg: Config, before: Db, l: Local) {
    l.req.Claim? && UnlocksSoFar(cfg, before, l, View(before, l))
  }

  lemma TrajUnlocks(cfg: Config, req: Request, db: Db, k: nat)
    requires req.Claim?
    ensures ClaimOnTrack(cfg, db, Traj(cfg, req, db, k)) && Traj(cfg, req, db, k).req == req
  {
    var good := (l: Local) => ClaimOnTrack(cfg, db, l);
    forall l | good(l) ensures good(Services(cfg)(l, View(db, l))) {
      ClaimStepUnlocks(cfg, db, l, View(db, l));
      StepView(cfg, l, db);
    }
    Always(Services(cfg), req, db, k, good);
    TrajShape(cfg, req, db, k);
  }

  ghost predicate Earns(req: Request, streak: nat, r: UnlockRow)
    requires req.Claim?
  {
    r.user == req.user && ReachedAmong(req.achievements, |req.achievements|, streak, r.achievement)
  }

  /**
   A check-in claim unlocks exactly the achievements of the catalogue that the streak has reached
   and the user did not have: nothing else, and for nobody else.
   */
  lemma ClaimUnlocksWhatIsReached(cfg: Config, req: Request, db: Db, k: nat, r: UnlockRow)
    requires req.Claim? && Traj(cfg, req, db, k).pc.Ready?
    ensures var o := Traj(cfg, req, db, k).pc.outcome;
            var after := CommitAfter(cfg, req, db, k);
            && (o.Claimed? && o.streak.Some? ==>
                  && req.challenge.Some? && StreakIs(cfg, after, req.challenge.value, req, o.streak.value)
                  && (r in after.unlocks <==> r in db.unlocks || Earns(req, o.streak.value, r)))
            && (o.Claimed? && o.streak.None? ==> after.unlocks == db.unlocks)
  {
    TrajUnlocks(cfg, req, db, k);
  }

  // ---------------------------------------------------- over every execution

  /** The user checked in on the `n` days in a row that end today or yesterday. */
  ghost predicate CheckedIn(cfg: Config, db: Db, challenge: nat, u: User, now: Time, n: nat) {
    var days, today := CheckinDays(db, challenge, u), cfg.zone.dayOf(now);
    Streaks.AllClaimed(days, today, n) || Streaks.AllClaimed(days, today - 1, n)
  }

  /** The event is a claim by the row's user, whose check-ins after it reach the threshold of the row's achievement. */
  ghost predicate EarnedByClaim(cfg: Config, after: Db, e: Event, r: UnlockRow) {
    && e.Committed? && e.req.Claim? && e.req.user == r.user && e.req.challenge.Some?
    && exists j :: 0 <= j < |e.req.achievements| && e.req.achievements[j].id == r.achievement
                   && CheckedIn(cfg, after, e.req.challenge.value.id, r.user, e.req.now, e.req.achievements[j].threshold)
  }

  lemma StreakIsCheckedIn(cfg: Config, db: Db, ch: Challenge, req: Request, streak: nat, n: nat)
    requires req.Claim? && StreakIs(cfg, db, ch, req, streak) && n <= streak
    ensures CheckedIn(cfg, db, ch.id, req.user, req.now, n)
  {
    var days, today := CheckinDays(db, ch.id, req.user), cfg.zone.dayOf(req.now);
    var last := if today in days then today else today - 1;
    Streaks.RunIsMaximal(days, last, streak);
    assert Streaks.AllClaimed(days, last, n);
  }

  /** A claim adds only unlock rows it earned. */
  lemma ClaimEarns(cfg: Config, req: Request, db: Db, k: nat, r: UnlockRow)
    requires req.Claim? && r in CommitAfter(cfg, req, db, k).unlocks && r !in db.unlocks
    ensures EarnedByClaim(cfg, CommitAfter(cfg, req, db, k), Committed(req, k), r)
  {
    TrajUnlocks(cfg, req, db, k);
    var o := Traj(cfg, req, db, k).pc.outcome;
    ClaimUnlocksWhatIsReached(cfg, req, db, k, r);
    assert o.Claimed? && o.streak.Some?;
    var j :| 0 <= j < |req.achievements| && req.achievements[j].id == r.achievement && req.achievements[j].threshold <= o.streak.value;
    StreakIsCheckedIn(cfg, CommitAfter(cfg, req, db, k), req.challenge.value, req, o.streak.value, req.achievements[j].threshold);
  }

  ghost predicate UnlocksKept(db: Db, l: Local) {
    !l.req.Claim? && View(db, l).unlocks == db.unlocks
  }

  lemma StepKeepsUnlocks(cfg: Config, db: Db, l: Local)
    requires UnlocksKept(db, l)
    ensures UnlocksKept(db, Step(cfg, l, View(db, l)))
  {
    var n := Step(cfg, l, View(db, l));
    StepView(cfg, l, db);
    OthersUnlockNothing(cfg, l, View(db, l));
    LastWriteKeepsUnlocks(View(db, l), l, n);
  }

  lemma LastWriteKeepsUnlocks(v: Db, l: Local, n: Local)
    requires |n.ops| > |l.ops| ==> !n.ops[|n.ops| - 1].InsertUnlock?
    ensures (if |n.ops| > |l.ops| then DoOp(v, n.ops[|n.ops| - 1]) else v).unlocks == v.unlocks
  {
  }

  lemma OthersUnlockNothing(cfg: Config, l: Local, v: Db)
    requires !l.req.Claim?
    ensures var n := Step(cfg, l, v); !n.req.Claim? && (|n.ops| > |l.ops| ==> !n.ops[|n.ops| - 1].InsertUnlock?)
  {
  }

  lemma InitKeepsUnlocks(req: Request, db: Db)
    requires !req.Claim?
    ensures UnlocksKept(db, Init(req))
  {
    assert Init(req).ops == [];
  }

  lemma OtherCallsKeepUnlocks(cfg: Config, req: Request, db: Db, k: nat)
    requires !req.Claim?
    ensures UnlocksKept(db, Traj(cfg, req, db, k))
  {
    InitKeepsUnlocks(req, db);
    var good := (l: Local) => UnlocksKept(db, l);
    forall l | good(l) ensures good(Services(cfg)(l, View(db, l))) { StepKeepsUnlocks(cfg, db, l); }
    Always(Services(cfg), req, db, k, good);
  }

  lemma OtherCallsUnlockNothing(cfg: Config, req: Request, db: Db, k: nat)
    requires !req.Claim?
    ensures CommitAfter(cfg, req, db, k).unlocks == db.unlocks
  {
    OtherCallsKeepUnlocks(cfg, req, db, k);
  }

  lemma EventEarns(cfg: Config, db: Db, e: Event, r: UnlockRow)
    requires r in Effect(cfg, db, e).unlocks && r !in db.unlocks
    ensures EarnedByClaim(cfg, Effect(cfg, db, e), e, r)
  {
    if e.Committed? {
      if e.req.Claim? { ClaimEarns(cfg, e.req, db, e.steps, r); } else { OtherCallsUnlockNothing(cfg, e.req, db, e.steps); }
    }
  }

  lemma {:induction false} ReplayEarns(cfg: Config, first: Db, log: seq<Event>, r: UnlockRow) returns (m: nat)
    requires r in Replay(cfg, first, log).unlocks && r !in first.unlocks
    ensures m < |log| && EarnedByClaim(cfg, Replay(cfg, first, log[..m + 1]), log[m], r)
    decreases |log|
  {
    m := |log| - 1;
    if r in Replay(cfg, first, log[..m]).unlocks {
      var before := log[..m];
      m := ReplayEarns(cfg, first, before, r);
      assert log[..m + 1] == before[..m + 1];
    } else {
      assert log[..m + 1] == log;
      EventEarns(cfg, Replay(cfg, first, log[..m]), log[m], r);
    }
  }

  /**
   In every state of every execution, each unlock row that was not there at the start was earned: by the
   `m`th commit, a claim after which the user had checked in on as many days in a row as the achievement asks.
   */
  lemma EveryUnlockWasEarned(
    cfg: Config, first: Db, states: seq<State>, actions: seq<Action>, n: nat, r: UnlockRow) returns (m: nat)
    requires ValidZone(cfg.zone) && Inv(cfg, first) && Execution(cfg, first, states, actions) && n < |states|
    requires r in states[n].db.unlocks && r !in first.unlocks
    ensures m < |states[n].log| && EarnedByClaim(cfg, Replay(cfg, first, states[n].log[..m + 1]), states[n].log[m], r)
  {
    CommitOrderIsSerial(cfg, first, states, actions, n);
    m := ReplayEarns(cfg, first, states[n].log, r);
  }

  /** An unlock is paid at most once, to its user, however often its achievement is reached. */
  lemma UnlocksArePaidOnce(
    cfg: Config, first: Db, states: seq<State>, actions: seq<Action>, n: nat, i: nat, j: nat)
    requires ValidZone(cfg.zone) && Inv(cfg, first) && Execution(cfg, first, states, actions) && n < |states|
    requires i < |states[n].db.ledger| && j < |states[n].db.ledger|
    requires states[n].db.ledger[i].key.AchievementReward? && states[n].db.ledger[i].key == states[n].db.ledger[j].key
    ensures i == j
    ensures var e := states[n].db.ledger[i];
            e.user == e.key.user && e.amount > 0 && UnlockRow(e.key.achievement, e.user) in states[n].db.unlocks
  {
    AlwaysSafe(cfg, first, states, actions, n);
    assert EntryOk(states[n].db, states[n].db.ledger[i]);
  }
}
