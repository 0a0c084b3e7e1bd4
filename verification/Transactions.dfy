/**
 The coin services as programs that run one SQL statement at a time.

 `Local` is a transaction in flight: its request, the statement it runs next, and the
 writes it has made but not committed. `Step` runs that statement against the
 transaction's own view of the tables. What a statement reads from rows that no lock of
 this transaction protects (a batch status, a reward rule, a challenge, a referral
 binding, an invitee's history) stands in the request; `Interleaving` checks those values
 against the committed tables at the moment of the read.
 */
module Transactions {
  import opened Prelude
  import opened Tables
  import opened ReferralRules
  import Streaks

  datatype Cadence = OnceEver | Daily | Weekly | Monthly
  datatype Rule = Rule(amount: int, active: bool)
  datatype Challenge = Challenge(id: nat, checkin: bool, cadence: Cadence, target: nat, reward: nat)
  datatype Achievement = Achievement(id: nat, threshold: nat, reward: nat)

  /** The campaign calendar: which day, week and month a moment falls in, and when a day starts. */
  datatype Zone = Zone(dayOf: Time -> int, weekOf: Time -> int, monthOf: Time -> int, startOf: int -> Time)
  {
    function StartOfLocalDay(now: Time): Time { startOf(dayOf(now)) }

    function PeriodKey(cadence: Cadence, now: Time): Period {
      match cadence
      case OnceEver => Once
      case Daily => Day(dayOf(now))
      case Weekly => Week(weekOf(now))
      case Monthly => Month(monthOf(now))
    }
  }

  datatype Config = Config(dailyLimit: nat, firstCodeBonus: int, zone: Zone)

  /** A local day starts no later than any of its moments. */
  ghost predicate ValidZone(z: Zone) {
    forall t: Time :: z.StartOfLocalDay(t) <= t
  }

  const UNLOCK_THRESHOLD := 5

  datatype Request =
    | Redeem(user: User, code: CodeId, now: Time, batchActive: bool, rule: Option<Rule>)
    | Adjust(user: User, amount: int, now: Time, uuid: nat)
    | Claim(user: User, now: Time, challenge: Option<Challenge>, have: nat, achievements: seq<Achievement>)
    | Bind(invitee: User, inviter: Option<User>)
    | Settle(invitee: User, now: Time, binding: Option<User>, mission: bool, history: seq<Redeemed>)

  datatype Error =
    | Unclaimed | DailyLimit | InsufficientCoins | IntegrityError | ZeroAmount
    | UnknownChallenge | AlreadyClaimed | NotUnlocked | BadPeriodKey
    | SelfReferral | CodeUnknown | AlreadyBound | TooLate
    | NotReferred | NothingOwed

  datatype Outcome =
    | Accepted(city: City, points: nat, coins: int, balance: int, bonus: int, unlocked: bool)
    | Adjusted(balance: int)
    | Claimed(coins: int, balance: int, streak: Option<nat>, achievements: seq<nat>)
    | Bound
    | Settled

  /** The statement a transaction runs next. */
  datatype Pc =
    | ReadBinding | ReadMission | ReadHistory   // settle, before any lock
    | TakeWallet
    | ReadBatch | ClaimCode | CountToday | AddEntry | PayCoins
    | ReadRule | CheckBonus(amount: int) | PayBonus(amount: int) | CountFlavor(bonus: int)
    | RecordAdjustment
    | CheckClaimed(ch: Challenge) | InsertClaimRow(ch: Challenge) | PayReward(ch: Challenge) | ReadStreak(ch: Challenge)
    | CheckUnlock(ch: Challenge, streak: nat, i: nat, done: seq<nat>)
    | Unlock(ch: Challenge, streak: nat, i: nat, done: seq<nat>)
    | PayUnlock(ch: Challenge, streak: nat, i: nat, done: seq<nat>)
    | ReadBound | CountCodes(bound: bool) | InsertBound
    | CheckPaid(i: nat) | PayReferral(i: nat)
    | Ready(outcome: Outcome)
    | Failed(error: Error)

  datatype Local = Local(req: Request, pc: Pc, ops: seq<Op>)
  {
    /** Neither waiting to commit nor rolling back. */
    predicate Running() { !pc.Ready? && !pc.Failed? }

    /** Row locks stay until the commit or the rollback, also once the call has failed. */
    predicate HoldsWallet() { ops != [] }

    predicate HoldsCode() { req.Redeem? && |ops| >= 2 }

    function Goto(next: Pc): Local { this.(pc := next) }

    function Fail(e: Error): Local { this.(pc := Failed(e)) }

    function Write(op: Op, next: Pc): Local { this.(pc := next, ops := ops + [op]) }
  }

  /** The user whose wallet row the transaction locks. */
  function LockUser(req: Request): User {
    match req
    case Redeem(u, _, _, _, _) => u
    case Adjust(u, _, _, _) => u
    case Claim(u, _, _, _, _) => u
    case Bind(i, _) => i
    case Settle(i, _, b, _, _) => if b.Some? then b.value else i
  }

  function Payouts(req: Request): seq<Payout>
    requires req.Settle?
  {
    SettlePayouts(req.invitee, req.mission, req.history)
  }

  function Init(req: Request): Local {
    if req.Adjust? && req.amount == 0 then Local(req, Failed(ZeroAmount), [])
    else Local(req, if req.Settle? then ReadBinding else TakeWallet, [])
  }

  function BalanceIn(v: Db, u: User): int {
    if u in v.wallets then v.wallets[u].balance else 0
  }

  /** `SqlLedger.record`: the unique key and `amount <> 0` first, then the guarded wallet update. */
  function RecordResult(v: Db, e: Entry): Result<int, Error> {
    if HasKey(v.ledger, e.key) || e.amount == 0 then Err(IntegrityError)
    else if e.user !in v.wallets || v.wallets[e.user].balance + e.amount < 0 then Err(InsufficientCoins)
    else Ok(v.wallets[e.user].balance + e.amount)
  }

  function TryRecord(l: Local, v: Db, e: Entry, next: Pc): Local {
    match RecordResult(v, e)
    case Err(error) => l.Fail(error)
    case Ok(_) => l.Write(Record(e), next)
  }

  /** The coins a code's batch pays (0 for a code outside any known batch, which is never claimed). */
  function CoinsOf(v: Db, c: CodeId): nat {
    if c in v.codes && v.codes[c].batch in v.batches then v.batches[v.codes[c].batch].coins else 0
  }

  /** One statement of `RedemptionService.redeem`. */
  function RedeemStep(cfg: Config, l: Local, v: Db): Local
    requires l.req.Redeem?
  {
    var Redeem(u, c, now, active, rule) := l.req;
    match l.pc
    case ReadBatch => l.Goto(ClaimCode)
    case ClaimCode =>
      if c in v.codes && v.codes[c].redemption.None? && active
      then l.Write(MarkRedeemed(c, u, now), CountToday)
      else l.Fail(Unclaimed)
    case CountToday =>
      if |SinceSet(v, u, cfg.zone.StartOfLocalDay(now))| > cfg.dailyLimit then l.Fail(DailyLimit)
      else l.Goto(AddEntry)
    case AddEntry =>
      if c in v.codes then l.Write(AddPoint(u, v.codes[c].city), PayCoins) else l.Fail(Unclaimed)
    case PayCoins =>
      if CoinsOf(v, c) > 0 then TryRecord(l, v, Entry(u, CoinsOf(v, c), CodeRedemption(c), now), ReadRule)
      else l.Goto(ReadRule)
    case ReadRule =>
      var amount := if rule.Some? then rule.value.amount else cfg.firstCodeBonus;
      var on := if rule.Some? then rule.value.active else true;
      if !on || amount <= 0 then l.Goto(CountFlavor(0)) else l.Goto(CheckBonus(amount))
    case CheckBonus(amount) =>
      if HasKey(v.ledger, FirstCode(u)) then l.Goto(CountFlavor(0)) else l.Goto(PayBonus(amount))
    case PayBonus(amount) => TryRecord(l, v, Entry(u, amount, FirstCode(u), now), CountFlavor(amount))
    case CountFlavor(bonus) =>
      if c in v.codes then
        var city := v.codes[c].city;
        l.Goto(Ready(Accepted(city, Points(v, u, city), CoinsOf(v, c), BalanceIn(v, u), bonus,
                              |FlavorSet(v, u, city)| == UNLOCK_THRESHOLD)))
      else l.Fail(Unclaimed)
    case _ => l
  }

  /** One statement of `ChallengeService.claim`, the achievement loop included. */
  function ClaimStep(cfg: Config, l: Local, v: Db): Local
    requires l.req.Claim?
  {
    var Claim(u, now, _, have, achievements) := l.req;
    match l.pc
    case CheckClaimed(ch) =>
      if ClaimRow(ch.id, u, cfg.zone.PeriodKey(ch.cadence, now)) in v.claims then l.Fail(AlreadyClaimed)
      else if have < ch.target then l.Fail(NotUnlocked)
      else l.Goto(InsertClaimRow(ch))
    case InsertClaimRow(ch) =>
      var row := ClaimRow(ch.id, u, cfg.zone.PeriodKey(ch.cadence, now));
      if row in v.claims then l.Fail(IntegrityError) else l.Write(InsertClaim(row), PayReward(ch))
    case PayReward(ch) =>
      var next := if ch.checkin then ReadStreak(ch) else Ready(Claimed(ch.reward, BalanceIn(v, u) + ch.reward, None, []));
      if ch.reward > 0
      then TryRecord(l, v, Entry(u, ch.reward, ChallengeReward(ch.id, cfg.zone.PeriodKey(ch.cadence, now), u), now), next)
      else l.Goto(next)
    case ReadStreak(ch) =>
      if !DaysParse(v, ch.id, u) then l.Fail(BadPeriodKey)
      else l.Goto(CheckUnlock(ch, Streaks.Streak(CheckinDays(v, ch.id, u), cfg.zone.dayOf(now)), 0, []))
    case CheckUnlock(ch, streak, i, done) =>
      if i >= |achievements| then l.Goto(Ready(Claimed(ch.reward, BalanceIn(v, u), Some(streak), done)))
      else if streak < achievements[i].threshold || UnlockRow(achievements[i].id, u) in v.unlocks
      then l.Goto(CheckUnlock(ch, streak, i + 1, done))
      else l.Goto(Unlock(ch, streak, i, done))
    case Unlock(ch, streak, i, done) =>
      if i >= |achievements| || UnlockRow(achievements[i].id, u) in v.unlocks then l.Fail(IntegrityError)
      else l.Write(InsertUnlock(UnlockRow(achievements[i].id, u)), PayUnlock(ch, streak, i, done + [achievements[i].id]))
    case PayUnlock(ch, streak, i, done) =>
      if i >= |achievements| then l.Fail(IntegrityError)
      else if achievements[i].reward > 0
      then TryRecord(l, v, Entry(u, achievements[i].reward, AchievementReward(achievements[i].id, u), now),
                     CheckUnlock(ch, streak, i + 1, done))
      else l.Goto(CheckUnlock(ch, streak, i + 1, done))
    case _ => l
  }

  /** One statement of `ReferralService.bind`; the refusals keep `check_can_bind`'s order. */
  function BindStep(l: Local, v: Db): Local
    requires l.req.Bind?
  {
    var Bind(invitee, inviter) := l.req;
    match l.pc
    case ReadBound => l.Goto(CountCodes(invitee in v.bindings))
    case CountCodes(bound) =>
      if inviter.None? then l.Fail(CodeUnknown)
      else if inviter.value == invitee then l.Fail(SelfReferral)
      else if bound then l.Fail(AlreadyBound)
      else if RedeemedSet(v, invitee) != {} then l.Fail(TooLate)
      else l.Goto(InsertBound)
    case InsertBound =>
      if inviter.None? || invitee in v.bindings then l.Fail(IntegrityError)
      else l.Write(InsertBinding(invitee, inviter.value), Ready(Bound))
    case _ => l
  }

  /** One statement of `ReferralService.settle`. */
  function SettleStep(l: Local, v: Db): Local
    requires l.req.Settle?
  {
    match l.pc
    case ReadBinding => if l.req.binding.None? then l.Fail(NotReferred) else l.Goto(ReadMission)
    case ReadMission => l.Goto(ReadHistory)
    case ReadHistory => if Payouts(l.req) == [] then l.Fail(NothingOwed) else l.Goto(TakeWallet)
    case CheckPaid(i) =>
      if i >= |Payouts(l.req)| then l.Goto(Ready(Settled))
      else if HasKey(v.ledger, Payouts(l.req)[i].key) then l.Goto(CheckPaid(i + 1))
      else l.Goto(PayReferral(i))
    case PayReferral(i) =>
      if i >= |Payouts(l.req)| then l.Fail(IntegrityError)
      else
        var p := Payouts(l.req)[i];
        TryRecord(l, v, Entry(LockUser(l.req), p.amount, p.key, l.req.now), CheckPaid(i + 1))
    case _ => l
  }

  /** The one statement of `CoinAdjustmentService.adjust` after the lock. */
  function AdjustStep(l: Local, v: Db): Local
    requires l.req.Adjust?
  {
    var Adjust(u, amount, now, uuid) := l.req;
    if l.pc.RecordAdjustment?
    then TryRecord(l, v, Entry(u, amount, AdminAdjustment(uuid), now), Ready(Adjusted(BalanceIn(v, u) + amount)))
    else l
  }

  function AfterLock(req: Request): Pc {
    match req
    case Redeem(_, _, _, _, _) => ReadBatch
    case Adjust(_, _, _, _) => RecordAdjustment
    case Claim(_, _, ch, _, _) => if ch.None? then Failed(UnknownChallenge) else CheckClaimed(ch.value)
    case Bind(_, _) => ReadBound
    case Settle(_, _, _, _, _) => CheckPaid(0)
  }

  /** Runs the next statement of `l` when its own view of the tables is `v`. */
  function Step(cfg: Config, l: Local, v: Db): Local {
    if !l.Running() then l
    else if l.pc.TakeWallet? then l.Write(LockWallet(LockUser(l.req)), AfterLock(l.req))
    else
      match l.req
      case Redeem(_, _, _, _, _) => RedeemStep(cfg, l, v)
      case Claim(_, _, _, _, _) => ClaimStep(cfg, l, v)
      case Bind(_, _) => BindStep(l, v)
      case Settle(_, _, _, _, _) => SettleStep(l, v)
      case Adjust(_, _, _, _) => AdjustStep(l, v)
  }

  /** The view of a transaction: the committed tables with its own writes on top. */
  function View(db: Db, l: Local): Db { Apply(db, l.ops) }

  /** The first `k` statements of `req`, each seeing `db` and the transaction's own writes. */
  function Iterate(step: (Local, Db) -> Local, req: Request, db: Db, k: nat): Local {
    if k == 0 then Init(req)
    else
      var l := Iterate(step, req, db, k - 1);
      step(l, View(db, l))
  }

  function Services(cfg: Config): (Local, Db) -> Local {
    (l: Local, v: Db) => Step(cfg, l, v)
  }

  /** The transaction after `k` statements when nobody else changes the tables. */
  function Traj(cfg: Config, req: Request, db: Db, k: nat): Local {
    Iterate(Services(cfg), req, db, k)
  }

  lemma TrajStep(cfg: Config, req: Request, db: Db, k: nat)
    ensures Traj(cfg, req, db, 0) == Init(req)
    ensures var l := Traj(cfg, req, db, k); Traj(cfg, req, db, k + 1) == Step(cfg, l, View(db, l))
  {
  }

  /** What holds at the start and survives every statement holds all along. */
  lemma {:induction false} Always(step: (Local, Db) -> Local, req: Request, db: Db, k: nat, good: Local -> bool)
    requires good(Init(req)) && forall l {:trigger step(l, View(db, l))} :: good(l) ==> good(step(l, View(db, l)))
    ensures good(Iterate(step, req, db, k))
  {
    if k > 0 { Always(step, req, db, k - 1, good); }
  }

  /** The serial meaning of a request: run alone to its end, then commit or roll back. */
  function CommitAfter(cfg: Config, req: Request, db: Db, k: nat): Db {
    var l := Traj(cfg, req, db, k);
    if l.pc.Ready? then View(db, l) else db
  }
}
