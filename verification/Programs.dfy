/**
 The statements of each service, one lemma a statement, for a call that runs alone. The
 methods of `Services` walk along these.
 */
module Programs {
  import opened Prelude
  import opened Tables
  import opened ReferralRules
  import opened Transactions
  import opened Economy
  import Streaks

  /** `step` runs the service programs under `cfg`. */
  ghost predicate Runs(cfg: Config, step: (Local, Db) -> Local) {
    forall l, v {:trigger Step(cfg, l, v)} :: step(l, v) == Step(cfg, l, v)
  }

  lemma ServicesRun(cfg: Config)
    ensures Runs(cfg, Services(cfg))
  {
  }

  /** `req` alone on the tables `first`, after `k` statements, has reached `l`. */
  datatype Cursor = Cursor(step: (Local, Db) -> Local, req: Request, first: Db, k: nat, l: Local)

  /** The cursor is on the path of its program, and `v` is the view there. */
  ghost predicate At(c: Cursor, v: Db) {
    c.l == Iterate(c.step, c.req, c.first, c.k) && c.l.req == c.req && v == View(c.first, c.l)
  }

  /** `n` follows `c` on the same path. */
  ghost predicate Later(c: Cursor, n: Cursor) {
    n.step == c.step && n.req == c.req && n.first == c.first
  }

  /** The call ended: committed with its outcome, or refused with the tables as they were. */
  ghost predicate Ends(c: Cursor, after: Db, r: Result<Outcome, Error>) {
    && c.l == Iterate(c.step, c.req, c.first, c.k)
    && match r
       case Ok(o) => c.l.pc == Ready(o) && after == View(c.first, c.l)
       case Err(e) => c.l.pc == Failed(e) && after == c.first
  }

  lemma Begins(step: (Local, Db) -> Local, req: Request, first: Db) returns (c: Cursor)
    ensures c.step == step && c.req == req && c.first == first && c.l == Init(req) && At(c, first)
  {
    c := Cursor(step, req, first, 0, Init(req));
  }

  /** One statement on. */
  lemma Steps(cfg: Config, c: Cursor, v: Db) returns (n: Cursor)
    requires Runs(cfg, c.step) && At(c, v)
    ensures Later(c, n) && n.l == Step(cfg, c.l, v)
    ensures At(n, if |n.l.ops| > |c.l.ops| then DoOp(v, n.l.ops[|n.l.ops| - 1]) else v)
  {
    n := c.(k := c.k + 1, l := Step(cfg, c.l, v));
    StepView(cfg, c.l, c.first);
    StepWrites(cfg, c.l, v);
  }

  lemma TakesWallet(cfg: Config, c: Cursor, v: Db) returns (n: Cursor)
    requires Runs(cfg, c.step) && At(c, v) && c.l.pc.TakeWallet?
    ensures Later(c, n) && n.l.pc == AfterLock(c.req) && At(n, DoOp(v, LockWallet(LockUser(c.req))))
  {
    n := Steps(cfg, c, v);
  }

  /** The statement that inserts a ledger entry: on to `next`, or refused with the error of `RecordResult`. */
  ghost predicate Recorded(c: Cursor, n: Cursor, v: Db, e: Entry, next: Pc) {
    && Later(c, n)
    && match RecordResult(v, e)
       case Ok(_) => n.l.pc == next && At(n, DoOp(v, Record(e)))
       case Err(error) => n.l.pc == Failed(error) && At(n, v)
  }

  /** A plain insert under a primary key: on to `next`, or refused when the row is `there` already. */
  ghost predicate Inserted(c: Cursor, n: Cursor, v: Db, there: bool, op: Op, next: Pc) {
    && Later(c, n)
    && if there then n.l.pc == Failed(IntegrityError) && At(n, v) else n.l.pc == next && At(n, DoOp(v, op))
  }

  // ---------------------------------------------------------------- redeem

  lemma ReadsBatch(cfg: Config, c: Cursor, v: Db) returns (n: Cursor)
    requires Runs(cfg, c.step) && At(c, v) && c.req.Redeem? && c.l.pc.ReadBatch?
    ensures Later(c, n) && n.l.pc == ClaimCode && At(n, v)
  {
    n := Steps(cfg, c, v);
  }

  lemma ClaimsCode(cfg: Config, c: Cursor, v: Db) returns (n: Cursor)
    requires Runs(cfg, c.step) && At(c, v) && c.req.Redeem? && c.l.pc.ClaimCode?
    ensures var Redeem(u, code, now, active, _) := c.req;
            && Later(c, n)
            && if code in v.codes && v.codes[code].redemption.None? && active
               then n.l.pc == CountToday && At(n, DoOp(v, MarkRedeemed(code, u, now)))
               else n.l.pc == Failed(Unclaimed) && At(n, v)
  {
    n := Steps(cfg, c, v);
  }

  lemma CountsToday(cfg: Config, c: Cursor, v: Db) returns (n: Cursor)
    requires Runs(cfg, c.step) && At(c, v) && c.req.Redeem? && c.l.pc.CountToday?
    ensures Later(c, n) && At(n, v)
    ensures n.l.pc == if |SinceSet(v, c.req.user, cfg.zone.StartOfLocalDay(c.req.now))| > cfg.dailyLimit
                      then Failed(DailyLimit) else AddEntry
  {
    n := Steps(cfg, c, v);
  }

  lemma AddsEntry(cfg: Config, c: Cursor, v: Db) returns (n: Cursor)
    requires Runs(cfg, c.step) && At(c, v) && c.req.Redeem? && c.l.pc.AddEntry? && c.req.code in v.codes
    ensures Later(c, n) && n.l.pc == PayCoins && At(n, DoOp(v, AddPoint(c.req.user, v.codes[c.req.code].city)))
  {
    n := Steps(cfg, c, v);
  }

  lemma PaysCoins(cfg: Config, c: Cursor, v: Db) returns (n: Cursor)
    requires Runs(cfg, c.step) && At(c, v) && c.req.Redeem? && c.l.pc.PayCoins?
    ensures var Redeem(u, code, now, _, _) := c.req;
            if CoinsOf(v, code) > 0 then Recorded(c, n, v, Entry(u, CoinsOf(v, code), CodeRedemption(code), now), ReadRule)
            else Later(c, n) && n.l.pc == ReadRule && At(n, v)
  {
    n := Steps(cfg, c, v);
  }

  lemma ReadsRule(cfg: Config, c: Cursor, v: Db, amount: int, on: bool) returns (n: Cursor)
    requires Runs(cfg, c.step) && At(c, v) && c.req.Redeem? && c.l.pc.ReadRule?
    requires amount == if c.req.rule.Some? then c.req.rule.value.amount else cfg.firstCodeBonus
    requires on == if c.req.rule.Some? then c.req.rule.value.active else true
    ensures Later(c, n) && At(n, v) && n.l.pc == if on && amount > 0 then CheckBonus(amount) else CountFlavor(0)
  {
    n := Steps(cfg, c, v);
  }

  lemma ChecksBonus(cfg: Config, c: Cursor, v: Db, amount: int) returns (n: Cursor)
    requires Runs(cfg, c.step) && At(c, v) && c.req.Redeem? && c.l.pc == CheckBonus(amount)
    ensures Later(c, n) && At(n, v)
    ensures n.l.pc == if HasKey(v.ledger, FirstCode(c.req.user)) then CountFlavor(0) else PayBonus(amount)
  {
    n := Steps(cfg, c, v);
  }

  lemma PaysBonus(cfg: Config, c: Cursor, v: Db, amount: int) returns (n: Cursor)
    requires Runs(cfg, c.step) && At(c, v) && c.req.Redeem? && c.l.pc == PayBonus(amount)
    ensures Recorded(c, n, v, Entry(c.req.user, amount, FirstCode(c.req.user), c.req.now), CountFlavor(amount))
  {
    n := Steps(cfg, c, v);
  }

  lemma CountsFlavor(cfg: Config, c: Cursor, v: Db, bonus: int) returns (n: Cursor)
    requires Runs(cfg, c.step) && At(c, v) && c.req.Redeem? && c.l.pc == CountFlavor(bonus) && c.req.code in v.codes
    ensures var u, code := c.req.user, c.req.code;
            var city := v.codes[code].city;
            && Later(c, n) && At(n, v)
            && n.l.pc == Ready(Accepted(city, Points(v, u, city), CoinsOf(v, code), BalanceIn(v, u), bonus,
                                        |FlavorSet(v, u, city)| == UNLOCK_THRESHOLD))
  {
    n := Steps(cfg, c, v);
  }

  // ------------------------------------------------------ adjust and bind

  lemma RecordsAdjustment(cfg: Config, c: Cursor, v: Db) returns (n: Cursor)
    requires Runs(cfg, c.step) && At(c, v) && c.req.Adjust? && c.l.pc.RecordAdjustment?
    ensures var Adjust(u, amount, now, uuid) := c.req;
            Recorded(c, n, v, Entry(u, amount, AdminAdjustment(uuid), now), Ready(Adjusted(BalanceIn(v, u) + amount)))
  {
    n := Steps(cfg, c, v);
  }

  lemma ReadsBound(cfg: Config, c: Cursor, v: Db) returns (n: Cursor)
    requires Runs(cfg, c.step) && At(c, v) && c.req.Bind? && c.l.pc.ReadBound?
    ensures Later(c, n) && n.l.pc == CountCodes(c.req.invitee in v.bindings) && At(n, v)
  {
    n := Steps(cfg, c, v);
  }

  /** `check_can_bind`: the refusal, or none. */
  function CheckCanBind(invitee: User, inviter: Option<User>, bound: bool, redeemed: nat): (refusal: Option<Error>)
    ensures refusal.None? <==> inviter.Some? && inviter.value != invitee && !bound && redeemed == 0
    ensures refusal == Some(CodeUnknown) <==> inviter.None?
    ensures refusal == Some(SelfReferral) <==> inviter == Some(invitee)
    ensures refusal == Some(AlreadyBound) <==> inviter.Some? && inviter.value != invitee && bound
    ensures refusal == Some(TooLate) <==> inviter.Some? && inviter.value != invitee && !bound && redeemed > 0
  {
    if inviter.None? then Some(CodeUnknown)
    else if inviter.value == invitee then Some(SelfReferral)
    else if bound then Some(AlreadyBound)
    else if redeemed > 0 then Some(TooLate)
    else None
  }

  lemma ChecksBind(cfg: Config, c: Cursor, v: Db, bound: bool) returns (n: Cursor)
    requires Runs(cfg, c.step) && At(c, v) && c.req.Bind? && c.l.pc == CountCodes(bound)
    ensures var refusal := CheckCanBind(c.req.invitee, c.req.inviter, bound, |RedeemedSet(v, c.req.invitee)|);
            Later(c, n) && At(n, v) && n.l.pc == if refusal.Some? then Failed(refusal.value) else InsertBound
  {
    n := Steps(cfg, c, v);
  }

  lemma InsertsBound(cfg: Config, c: Cursor, v: Db) returns (n: Cursor)
    requires Runs(cfg, c.step) && At(c, v) && c.req.Bind? && c.l.pc.InsertBound? && c.req.inviter.Some?
    ensures Inserted(c, n, v, c.req.invitee in v.bindings, InsertBinding(c.req.invitee, c.req.inviter.value), Ready(Bound))
  {
    n := Steps(cfg, c, v);
  }

  // ---------------------------------------------------------------- settle

  lemma ReadsBinding(cfg: Config, c: Cursor, v: Db) returns (n: Cursor)
    requires Runs(cfg, c.step) && At(c, v) && c.req.Settle? && c.l.pc.ReadBinding?
    ensures Later(c, n) && At(n, v) && n.l.pc == if c.req.binding.None? then Failed(NotReferred) else ReadMission
  {
    n := Steps(cfg, c, v);
  }

  lemma ReadsMissionAndHistory(cfg: Config, c: Cursor, v: Db) returns (n: Cursor)
    requires Runs(cfg, c.step) && At(c, v) && c.req.Settle? && c.l.pc.ReadMission?
    ensures Later(c, n) && At(n, v) && n.l.pc == if Payouts(c.req) == [] then Failed(NothingOwed) else TakeWallet
  {
    n := Steps(cfg, c, v);
    n := Steps(cfg, n, v);
  }

  lemma ChecksPaid(cfg: Config, c: Cursor, v: Db, i: nat) returns (n: Cursor)
    requires Runs(cfg, c.step) && At(c, v) && c.req.Settle? && c.l.pc == CheckPaid(i)
    ensures Later(c, n) && At(n, v)
    ensures n.l.pc == if i >= |Payouts(c.req)| then Ready(Settled)
                      else if HasKey(v.ledger, Payouts(c.req)[i].key) then CheckPaid(i + 1)
                      else PayReferral(i)
  {
    n := Steps(cfg, c, v);
  }

  lemma PaysReferral(cfg: Config, c: Cursor, v: Db, i: nat) returns (n: Cursor)
    requires Runs(cfg, c.step) && At(c, v) && c.req.Settle? && c.l.pc == PayReferral(i) && i < |Payouts(c.req)|
    ensures var p := Payouts(c.req)[i];
            Recorded(c, n, v, Entry(LockUser(c.req), p.amount, p.key, c.req.now), CheckPaid(i + 1))
  {
    n := Steps(cfg, c, v);
  }

  // ----------------------------------------------------------------- claim

  lemma ChecksClaimed(cfg: Config, c: Cursor, v: Db, ch: Challenge) returns (n: Cursor)
    requires Runs(cfg, c.step) && At(c, v) && c.req.Claim? && c.l.pc == CheckClaimed(ch)
    ensures Later(c, n) && At(n, v)
    ensures n.l.pc == if ClaimRow(ch.id, c.req.user, cfg.zone.PeriodKey(ch.cadence, c.req.now)) in v.claims then Failed(AlreadyClaimed)
                      else if c.req.have < ch.target then Failed(NotUnlocked)
                      else InsertClaimRow(ch)
  {
    n := Steps(cfg, c, v);
  }

  lemma InsertsClaim(cfg: Config, c: Cursor, v: Db, ch: Challenge) returns (n: Cursor)
    requires Runs(cfg, c.step) && At(c, v) && c.req.Claim? && c.l.pc == InsertClaimRow(ch)
    ensures var row := ClaimRow(ch.id, c.req.user, cfg.zone.PeriodKey(ch.cadence, c.req.now));
            Inserted(c, n, v, row in v.claims, InsertClaim(row), PayReward(ch))
  {
    n := Steps(cfg, c, v);
  }

  lemma PaysReward(cfg: Config, c: Cursor, v: Db, ch: Challenge) returns (n: Cursor)
    requires Runs(cfg, c.step) && At(c, v) && c.req.Claim? && c.l.pc == PayReward(ch)
    ensures var Claim(u, now, _, _, _) := c.req;
            var next := if ch.checkin then ReadStreak(ch) else Ready(Claimed(ch.reward, BalanceIn(v, u) + ch.reward, None, []));
            if ch.reward > 0
            then Recorded(c, n, v, Entry(u, ch.reward, ChallengeReward(ch.id, cfg.zone.PeriodKey(ch.cadence, now), u), now), next)
            else Later(c, n) && n.l.pc == next && At(n, v)
  {
    n := Steps(cfg, c, v);
  }

  lemma ReadsStreak(cfg: Config, c: Cursor, v: Db, ch: Challenge) returns (n: Cursor)
    requires Runs(cfg, c.step) && At(c, v) && c.req.Claim? && c.l.pc == ReadStreak(ch)
    ensures Later(c, n) && At(n, v)
    ensures n.l.pc == if !DaysParse(v, ch.id, c.req.user) then Failed(BadPeriodKey)
                      else CheckUnlock(ch, Streaks.Streak(CheckinDays(v, ch.id, c.req.user), cfg.zone.dayOf(c.req.now)), 0, [])
  {
    n := Steps(cfg, c, v);
  }

  lemma ChecksUnlock(cfg: Config, c: Cursor, v: Db, ch: Challenge, streak: nat, i: nat, done: seq<nat>) returns (n: Cursor)
    requires Runs(cfg, c.step) && At(c, v) && c.req.Claim? && c.l.pc == CheckUnlock(ch, streak, i, done)
    ensures var Claim(u, _, _, _, achievements) := c.req;
            && Later(c, n) && At(n, v)
            && n.l.pc == if i >= |achievements| then Ready(Claimed(ch.reward, BalanceIn(v, u), Some(streak), done))
                         else if streak < achievements[i].threshold || UnlockRow(achievements[i].id, u) in v.unlocks
                         then CheckUnlock(ch, streak, i + 1, done)
                         else Unlock(ch, streak, i, done)
  {
    n := Steps(cfg, c, v);
  }

  lemma Unlocks(cfg: Config, c: Cursor, v: Db, ch: Challenge, streak: nat, i: nat, done: seq<nat>) returns (n: Cursor)
    requires Runs(cfg, c.step) && At(c, v) && c.req.Claim? && c.l.pc == Unlock(ch, streak, i, done) && i < |c.req.achievements|
    ensures var a := c.req.achievements[i];
            var row := UnlockRow(a.id, c.req.user);
            Inserted(c, n, v, row in v.unlocks, InsertUnlock(row), PayUnlock(ch, streak, i, done + [a.id]))
  {
    n := Steps(cfg, c, v);
  }

  lemma PaysUnlock(cfg: Config, c: Cursor, v: Db, ch: Challenge, streak: nat, i: nat, done: seq<nat>) returns (n: Cursor)
    requires Runs(cfg, c.step) && At(c, v) && c.req.Claim? && c.l.pc == PayUnlock(ch, streak, i, done) && i < |c.req.achievements|
    ensures var a, u := c.req.achievements[i], c.req.user;
            var next := CheckUnlock(ch, streak, i + 1, done);
            if a.reward > 0 then Recorded(c, n, v, Entry(u, a.reward, AchievementReward(a.id, u), c.req.now), next)
            else Later(c, n) && n.l.pc == next && At(n, v)
  {
    n := Steps(cfg, c, v);
  }
}
