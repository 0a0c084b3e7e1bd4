/**
 The services as the program writes them: methods over one store of tables, statement by
 statement, with `balance` rebound by each payment and everything restored when a call is
 refused. Each method is proved to do what its program in `Transactions` does alone, so
 what is proved of the programs and of their interleavings holds of these methods.
 */
module Services {
  import opened Prelude
  import opened Tables
  import opened ReferralRules
  import opened Transactions
  import opened Programs
  import opened Economy
  import Interleaving
  import Streaks

  /** What `POST /redeem` answers. */
  datatype Reply =
    | Fresh(outcome: Outcome)
    | Replayed(city: City, points: nat, coins: int, balance: int)
    | Invalid
    | AlreadyRedeemed
    | OverLimit

  /** What the ledger holds under a key, as an amount of coins. */
  function CoinsFor(ledger: seq<Entry>, k: Key): int {
    match AmountForKey(ledger, k)
    case None => 0
    case Some(amount) => amount
  }

  /**
   The answer to a redemption that ended at `pc` on the tables `before`. `Invalid` is an
   unknown code, or an unredeemed one in a batch that is not active; a refused ledger
   insert would also end there, which `RedemptionsKeepTheEconomy` shows never happens.
   */
  ghost predicate Answers(before: Db, u: User, c: CodeId, pc: Pc, reply: Reply) {
    match reply
    case Fresh(o) => pc == Ready(o)
    case OverLimit => pc == Failed(DailyLimit)
    case AlreadyRedeemed =>
      pc == Failed(Unclaimed) && c in before.codes && before.codes[c].redemption.Some? && !RedeemedBy(before, c, u)
    case Invalid =>
      || (pc == Failed(Unclaimed) && (c !in before.codes || before.codes[c].redemption.None?))
      || pc == Failed(IntegrityError) || pc == Failed(InsufficientCoins)
    case Replayed(city, points, coins, balance) =>
      && pc == Failed(Unclaimed) && RedeemedBy(before, c, u) && city == before.codes[c].city
      && points == Points(before, u, city) && balance == BalanceIn(before, u)
      && coins == CoinsFor(before.ledger, CodeRedemption(c))
  }

  /** A call at cursor `c` belongs to `req` on the tables `first`. */
  ghost predicate Of(c: Cursor, step: (Local, Db) -> Local, req: Request, first: Db) {
    c.step == step && c.req == req && c.first == first
  }

  /** A program run through `step` and through the services of `cfg` reaches the same statements. */
  lemma {:induction false} SameRun(cfg: Config, step: (Local, Db) -> Local, req: Request, db: Db, k: nat)
    requires Runs(cfg, step)
    ensures Iterate(step, req, db, k) == Traj(cfg, req, db, k)
  {
    if k > 0 { SameRun(cfg, step, req, db, k - 1); }
  }

  /**
   What a method leaves is what its transaction commits when it runs alone, so a call keeps
   the invariants of the economy, only adds to it, never trips a unique key, and lacks
   coins only for an adjustment downwards.
   */
  lemma CallsKeepTheEconomy(cfg: Config, at: Cursor, after: Db, r: Result<Outcome, Error>)
    requires Runs(cfg, at.step) && Ends(at, after, r)
    requires ValidZone(cfg.zone) && Inv(cfg, at.first) && Admissible(at.first, at.req)
    ensures after == CommitAfter(cfg, at.req, at.first, at.k)
    ensures Inv(cfg, after) && Grows(at.first, after)
    ensures r != Err(IntegrityError)
    ensures r == Err(InsufficientCoins) ==> at.req.Adjust? && at.req.amount < 0
  {
    SameRun(cfg, at.step, at.req, at.first, at.k);
    CommitKeepsInv(cfg, at.req, at.first, at.k);
    Interleaving.TrajShape(cfg, at.req, at.first, at.k);
  }

  /** The same of a redemption: `Invalid` then means unknown, or unredeemed outside an active batch, and nothing else. */
  lemma RedemptionsKeepTheEconomy(cfg: Config, at: Cursor, after: Db, u: User, c: CodeId, reply: Reply)
    requires Runs(cfg, at.step) && at.l == Iterate(at.step, at.req, at.first, at.k) && Answers(at.first, u, c, at.l.pc, reply)
    requires after == if reply.Fresh? then View(at.first, at.l) else at.first
    requires ValidZone(cfg.zone) && Inv(cfg, at.first) && Admissible(at.first, at.req) && at.req.Redeem?
    ensures after == CommitAfter(cfg, at.req, at.first, at.k)
    ensures Inv(cfg, after) && Grows(at.first, after)
    ensures reply.Invalid? ==> c !in at.first.codes || at.first.codes[c].redemption.None?
  {
    SameRun(cfg, at.step, at.req, at.first, at.k);
    CommitKeepsInv(cfg, at.req, at.first, at.k);
    Interleaving.TrajShape(cfg, at.req, at.first, at.k);
  }

  class Store {
    const cfg: Config
    ghost const program: (Local, Db) -> Local
    var codes: map<CodeId, CodeRow>
    var batches: map<BatchId, Batch>
    var wallets: map<User, Wallet>
    var ledger: seq<Entry>
    var points: map<(User, City), nat>
    var claims: set<ClaimRow>
    var unlocks: set<UnlockRow>
    var bindings: map<User, User>

    constructor (cfg: Config)
      ensures this.cfg == cfg && Valid() && Snapshot() == EmptyDb
    {
      this.cfg, program := cfg, Transactions.Services(cfg);
      codes, batches, wallets, ledger := map[], map[], map[], [];
      points, claims, unlocks, bindings := map[], {}, {}, map[];
      new;
      ServicesRun(cfg);
    }

    ghost predicate Valid() { Runs(cfg, program) }

    function Snapshot(): Db
      reads this
    {
      Db(codes, batches, wallets, ledger, points, claims, unlocks, bindings)
    }

    /** Leaving the unit of work without a commit. */
    method Rollback(saved: Db)
      modifies this
      ensures Snapshot() == saved
    {
      codes, batches, wallets, ledger := saved.codes, saved.batches, saved.wallets, saved.ledger;
      points, claims, unlocks, bindings := saved.points, saved.claims, saved.unlocks, saved.bindings;
    }

    // ------------------------------------------------------ SQL statements

    method InsertAndLockWallet(u: User) returns (balance: int)
      modifies this`wallets
      ensures Snapshot() == DoOp(old(Snapshot()), LockWallet(u))
      ensures u in wallets && balance == BalanceIn(Snapshot(), u) == BalanceIn(old(Snapshot()), u)
    {
      if u !in wallets { wallets := wallets[u := Wallet(0, 0)]; }
      balance := wallets[u].balance;
    }

    predicate BatchIsActive(c: CodeId)
      reads this
    {
      c in codes && codes[c].batch in batches && batches[codes[c].batch].status == Active
    }

    /** `UPDATE ... WHERE redeemed_at IS NULL` joined with the active batch. */
    method UpdateCode(c: CodeId, u: User, now: Time) returns (claimed: bool)
      modifies this`codes
      ensures claimed <==> c in old(codes) && old(codes[c].redemption).None? && old(BatchIsActive(c))
      ensures Snapshot() == if claimed then DoOp(old(Snapshot()), MarkRedeemed(c, u, now)) else old(Snapshot())
    {
      claimed := c in codes && codes[c].redemption.None? && BatchIsActive(c);
      if claimed { codes := codes[c := codes[c].(redemption := Some(Redemption(u, now)))]; }
    }

    method UpsertPoints(u: User, city: City) returns (total: nat)
      modifies this`points
      ensures Snapshot() == DoOp(old(Snapshot()), AddPoint(u, city)) && total == Points(Snapshot(), u, city)
    {
      total := Points(Snapshot(), u, city) + 1;
      points := points[(u, city) := total];
    }

    /** `SqlLedger.record`: the insert with its constraints, then the guarded wallet update. */
    method RecordEntry(e: Entry) returns (r: Result<int, Error>)
      modifies this`ledger, this`wallets
      ensures r == RecordResult(old(Snapshot()), e)
      ensures Snapshot() == if r.Ok? then DoOp(old(Snapshot()), Record(e)) else old(Snapshot())
      ensures r.Ok? ==> e.user in wallets && BalanceIn(Snapshot(), e.user) == r.value
    {
      if HasKey(ledger, e.key) || e.amount == 0 { return Err(IntegrityError); }
      if e.user !in wallets || wallets[e.user].balance + e.amount < 0 { return Err(InsufficientCoins); }
      ledger := ledger + [e];
      wallets := wallets[e.user := Credit(wallets[e.user], e.amount)];
      return Ok(wallets[e.user].balance);
    }

    /** Plain inserts: refused when the primary key is taken. */
    method InsertClaimRow(row: ClaimRow) returns (ok: bool)
      modifies this`claims
      ensures ok <==> row !in old(claims)
      ensures Snapshot() == if ok then DoOp(old(Snapshot()), InsertClaim(row)) else old(Snapshot())
    {
      ok := row !in claims;
      if ok { claims := claims + {row}; }
    }

    method InsertUnlockRow(row: UnlockRow) returns (ok: bool)
      modifies this`unlocks
      ensures ok <==> row !in old(unlocks)
      ensures Snapshot() == if ok then DoOp(old(Snapshot()), InsertUnlock(row)) else old(Snapshot())
    {
      ok := row !in unlocks;
      if ok { unlocks := unlocks + {row}; }
    }

    method InsertReferral(invitee: User, inviter: User) returns (ok: bool)
      modifies this`bindings
      ensures ok <==> invitee !in old(bindings)
      ensures Snapshot() == if ok then DoOp(old(Snapshot()), InsertBinding(invitee, inviter)) else old(Snapshot())
    {
      ok := invitee !in bindings;
      if ok { bindings := bindings[invitee := inviter]; }
    }

    // ------------------------------------------------------------ services

    /** `CoinAdjustmentService.adjust`, from the amount check on. */
    method AdjustCoins(u: User, amount: int, now: Time, uuid: nat) returns (r: Result<Outcome, Error>, ghost at: Cursor)
      requires Valid()
      modifies this
      ensures Of(at, program, Adjust(u, amount, now, uuid), old(Snapshot())) && Ends(at, Snapshot(), r)
    {
      var saved := Snapshot();
      at := Begins(program, Adjust(u, amount, now, uuid), saved);
      if amount == 0 { return Err(ZeroAmount), at; }
      at := TakesWallet(cfg, at, Snapshot());
      var _ := InsertAndLockWallet(u);
      var balance;
      balance, at := PayAdjustment(u, amount, now, uuid, at);
      if balance.Err? {
        Rollback(saved);
        return Err(balance.error), at;
      }
      r := Ok(Adjusted(balance.value));
    }

    /** The one ledger entry of an adjustment; the balance after it. */
    method PayAdjustment(u: User, amount: int, now: Time, uuid: nat, ghost from: Cursor)
      returns (r: Result<int, Error>, ghost at: Cursor)
      requires Valid() && from.step == program && At(from, Snapshot()) && u in wallets
      requires from.req == Adjust(u, amount, now, uuid) && from.l.pc.RecordAdjustment?
      modifies this`ledger, this`wallets
      ensures Later(from, at) && At(at, Snapshot())
      ensures match r
              case Ok(b) => at.l.pc == Ready(Adjusted(b))
              case Err(e) => at.l.pc == Failed(e)
    {
      at := RecordsAdjustment(cfg, from, Snapshot());
      r := RecordEntry(Entry(u, amount, AdminAdjustment(uuid), now));
    }

    /** `ReferralService.bind`; `inviter` is what the referral code resolved to. */
    method BindReferral(invitee: User, inviter: Option<User>) returns (r: Result<Outcome, Error>, ghost at: Cursor)
      requires Valid()
      modifies this
      ensures Of(at, program, Bind(invitee, inviter), old(Snapshot())) && Ends(at, Snapshot(), r)
    {
      var saved := Snapshot();
      at := Begins(program, Bind(invitee, inviter), saved);
      at := TakesWallet(cfg, at, Snapshot());
      var _ := InsertAndLockWallet(invitee);
      at := ReadsBound(cfg, at, Snapshot());
      var existing := invitee in bindings;
      at := ChecksBind(cfg, at, Snapshot(), existing);
      var refusal := CheckCanBind(invitee, inviter, existing, |RedeemedSet(Snapshot(), invitee)|);
      if refusal.Some? {
        Rollback(saved);
        return Err(refusal.value), at;
      }
      at := InsertsBound(cfg, at, Snapshot());
      var inserted := InsertReferral(invitee, inviter.value);
      assert inserted;
      r := Ok(Bound);
    }

    /** `ReferralService.settle`, its three reads done; pays what the ledger does not hold yet. */
    method SettleReferral(invitee: User, now: Time, binding: Option<User>, mission: bool, history: seq<Redeemed>)
      returns (r: Result<Outcome, Error>, ghost at: Cursor)
      requires Valid()
      modifies this
      ensures Of(at, program, Settle(invitee, now, binding, mission, history), old(Snapshot())) && Ends(at, Snapshot(), r)
    {
      ghost var req := Settle(invitee, now, binding, mission, history);
      var saved := Snapshot();
      at := Begins(program, req, saved);
      at := ReadsBinding(cfg, at, Snapshot());
      if binding.None? { return Err(NotReferred), at; }
      var payouts := ComputePayouts(invitee, mission, history);
      at := ReadsMissionAndHistory(cfg, at, Snapshot());
      if payouts == [] { return Err(NothingOwed), at; }
      at := TakesWallet(cfg, at, Snapshot());
      var _ := InsertAndLockWallet(binding.value);
      var i := 0;
      while i < |payouts|
        invariant 0 <= i <= |payouts| && at.l.pc == CheckPaid(i)
        invariant Of(at, program, req, saved) && At(at, Snapshot())
      {
        at := ChecksPaid(cfg, at, Snapshot(), i);
        if !HasKey(ledger, payouts[i].key) {
          at := PaysReferral(cfg, at, Snapshot(), i);
          var paid := RecordEntry(Entry(binding.value, payouts[i].amount, payouts[i].key, now));
          if paid.Err? {
            Rollback(saved);
            return Err(paid.error), at;
          }
        }
        i := i + 1;
      }
      at := ChecksPaid(cfg, at, Snapshot(), i);
      r := Ok(Settled);
    }

    /** `ChallengeService.claim`; progress and catalogues are read by the caller. */
    method ClaimChallenge(u: User, now: Time, challenge: Option<Challenge>, have: nat, achievements: seq<Achievement>)
      returns (r: Result<Outcome, Error>, ghost at: Cursor)
      requires Valid()
      modifies this
      ensures Of(at, program, Claim(u, now, challenge, have, achievements), old(Snapshot())) && Ends(at, Snapshot(), r)
    {
      var saved := Snapshot();
      at := Begins(program, Claim(u, now, challenge, have, achievements), saved);
      at := TakesWallet(cfg, at, Snapshot());
      var balance := InsertAndLockWallet(u);
      if challenge.None? {
        Rollback(saved);
        return Err(UnknownChallenge), at;
      }
      var ch := challenge.value;
      var row := ClaimRow(ch.id, u, cfg.zone.PeriodKey(ch.cadence, now));
      at := ChecksClaimed(cfg, at, Snapshot(), ch);
      if row in claims || have < ch.target {
        r := Err(if row in claims then AlreadyClaimed else NotUnlocked);
        Rollback(saved);
        return;
      }
      at := InsertsClaim(cfg, at, Snapshot(), ch);
      var inserted := InsertClaimRow(row);
      assert inserted;
      var paid;
      paid, at := PayChallenge(ch, u, now, balance, at);
      if paid.Err? {
        Rollback(saved);
        return Err(paid.error), at;
      }
      balance := paid.value;
      if !ch.checkin { return Ok(Claimed(ch.reward, balance, None, [])), at; }
      at := ReadsStreak(cfg, at, Snapshot(), ch);
      if !DaysParse(Snapshot(), ch.id, u) {
        Rollback(saved);
        return Err(BadPeriodKey), at;
      }
      var streak := Streaks.CurrentStreak(CheckinDays(Snapshot(), ch.id, u), cfg.zone.dayOf(now));
      r, at := UnlockStreaks(saved, ch, u, now, achievements, streak, balance, at);
    }

    /** The reward of a claim, when there is one; the balance after it. */
    method PayChallenge(ch: Challenge, u: User, now: Time, balance: int, ghost from: Cursor)
      returns (r: Result<int, Error>, ghost at: Cursor)
      requires Valid() && from.step == program && At(from, Snapshot())
      requires from.req.Claim? && from.req.user == u && from.req.now == now
      requires from.l.pc == PayReward(ch) && u in wallets && balance == BalanceIn(Snapshot(), u)
      modifies this`ledger, this`wallets
      ensures Later(from, at) && At(at, Snapshot()) && u in wallets
      ensures match r
              case Ok(b) =>
                && b == BalanceIn(Snapshot(), u)
                && at.l.pc == if ch.checkin then ReadStreak(ch) else Ready(Claimed(ch.reward, b, None, []))
              case Err(e) => at.l.pc == Failed(e)
    {
      at := PaysReward(cfg, from, Snapshot(), ch);
      if ch.reward == 0 { return Ok(balance), at; }
      r := RecordEntry(Entry(u, ch.reward, ChallengeReward(ch.id, cfg.zone.PeriodKey(ch.cadence, now), u), now));
    }

    /** `_unlock_streak_achievements` and the commit after it. */
    method UnlockStreaks(
      saved: Db, ch: Challenge, u: User, now: Time, achievements: seq<Achievement>, streak: nat, start: int, ghost from: Cursor)
      returns (r: Result<Outcome, Error>, ghost at: Cursor)
      requires Valid() && from.step == program && from.first == saved && At(from, Snapshot())
      requires from.req.Claim? && from.req.user == u && from.req.now == now && from.req.achievements == achievements
      requires from.l.pc == CheckUnlock(ch, streak, 0, []) && start == BalanceIn(Snapshot(), u) && u in wallets
      modifies this
      ensures Later(from, at) && Ends(at, Snapshot(), r)
    {
      var balance, done, i := start, [], 0;
      at := from;
      while i < |achievements|
        invariant 0 <= i <= |achievements| && at.l.pc == CheckUnlock(ch, streak, i, done)
        invariant Later(from, at) && At(at, Snapshot())
        invariant balance == BalanceIn(Snapshot(), u) && u in wallets
      {
        var step;
        step, balance, done, at := UnlockIfReached(ch, u, now, achievements, streak, i, balance, done, at);
        if step.Err? {
          Rollback(saved);
          return Err(step.error), at;
        }
        i := i + 1;
      }
      at := ChecksUnlock(cfg, at, Snapshot(), ch, streak, i, done);
      r := Ok(Claimed(ch.reward, balance, Some(streak), done));
    }

    /** One turn of the loop: the unlock row and its reward, when the streak reaches an achievement not held yet. */
    method UnlockIfReached(
      ch: Challenge, u: User, now: Time, achievements: seq<Achievement>, streak: nat, i: nat, start: int, held: seq<nat>, ghost from: Cursor)
      returns (r: Result<(), Error>, balance: int, done: seq<nat>, ghost at: Cursor)
      requires Valid() && from.step == program && At(from, Snapshot()) && i < |achievements|
      requires from.req.Claim? && from.req.user == u && from.req.now == now && from.req.achievements == achievements
      requires from.l.pc == CheckUnlock(ch, streak, i, held) && start == BalanceIn(Snapshot(), u) && u in wallets
      modifies this`unlocks, this`ledger, this`wallets
      ensures Later(from, at) && At(at, Snapshot()) && u in wallets
      ensures match r
              case Ok(_) => at.l.pc == CheckUnlock(ch, streak, i + 1, done) && balance == BalanceIn(Snapshot(), u)
              case Err(e) => at.l.pc == Failed(e)
    {
      var a := achievements[i];
      balance, done := start, held;
      at := ChecksUnlock(cfg, from, Snapshot(), ch, streak, i, held);
      if streak < a.threshold || UnlockRow(a.id, u) in unlocks { return Ok(()), balance, done, at; }
      at := Unlocks(cfg, at, Snapshot(), ch, streak, i, held);
      var inserted := InsertUnlockRow(UnlockRow(a.id, u));
      assert inserted;
      done := held + [a.id];
      at := PaysUnlock(cfg, at, Snapshot(), ch, streak, i, done);
      if a.reward > 0 {
        var paid := RecordEntry(Entry(u, a.reward, AchievementReward(a.id, u), now));
        if paid.Err? { return Err(paid.error), balance, done, at; }
        balance := paid.value;
      }
      r := Ok(());
    }

    /** `RedemptionService.redeem` from the unit of work on. */
    method RedeemCode(u: User, c: CodeId, now: Time, rule: Option<Rule>) returns (reply: Reply, ghost at: Cursor)
      requires Valid()
      modifies this
      ensures Of(at, program, Redeem(u, c, now, old(BatchIsActive(c)), rule), old(Snapshot()))
      ensures at.l == Iterate(at.step, at.req, at.first, at.k) && Answers(at.first, u, c, at.l.pc, reply)
      ensures Snapshot() == if reply.Fresh? then View(at.first, at.l) else at.first
    {
      var saved := Snapshot();
      at := Begins(program, Redeem(u, c, now, BatchIsActive(c), rule), saved);
      at := TakesWallet(cfg, at, Snapshot());
      var balance := InsertAndLockWallet(u);
      at := ReadsBatch(cfg, at, Snapshot());
      at := ClaimsCode(cfg, at, Snapshot());
      var claimed := UpdateCode(c, u, now);
      if !claimed {
        reply := ResolveUnclaimed(c, u, balance);
        Rollback(saved);
        return;
      }
      at := CountsToday(cfg, at, Snapshot());
      if |SinceSet(Snapshot(), u, cfg.zone.StartOfLocalDay(now))| > cfg.dailyLimit {
        Rollback(saved);
        return OverLimit, at;
      }
      reply, at := ApplyClaim(saved, u, c, now, rule, balance, at);
    }

    /** `_resolve_unclaimed`: read only. */
    method ResolveUnclaimed(c: CodeId, u: User, balance: int) returns (reply: Reply)
      ensures reply == if c !in codes || codes[c].redemption.None? then Invalid
                       else if codes[c].redemption.value.user != u then AlreadyRedeemed
                       else Replayed(codes[c].city, Points(Snapshot(), u, codes[c].city), CoinsFor(ledger, CodeRedemption(c)), balance)
    {
      if c !in codes || codes[c].redemption.None? { return Invalid; }
      if codes[c].redemption.value.user != u { return AlreadyRedeemed; }
      reply := Replayed(codes[c].city, Points(Snapshot(), u, codes[c].city), CoinsFor(ledger, CodeRedemption(c)), balance);
    }

    /** `_apply_claim` after the daily count. */
    method ApplyClaim(saved: Db, u: User, c: CodeId, now: Time, rule: Option<Rule>, start: int, ghost from: Cursor)
      returns (reply: Reply, ghost at: Cursor)
      requires Valid() && from.step == program && from.first == saved && At(from, Snapshot())
      requires from.req.Redeem? && from.req.user == u && from.req.code == c && from.req.now == now && from.req.rule == rule
      requires from.l.pc == AddEntry && c in codes && u in wallets && start == BalanceIn(Snapshot(), u)
      modifies this
      ensures Later(from, at) && at.l == Iterate(at.step, at.req, at.first, at.k) && Answers(saved, u, c, at.l.pc, reply)
      ensures Snapshot() == if reply.Fresh? then View(at.first, at.l) else at.first
    {
      var city := codes[c].city;
      at := AddsEntry(cfg, from, Snapshot());
      var total := UpsertPoints(u, city);
      var coins := CoinsOf(Snapshot(), c);
      var paid;
      paid, at := PayRedemption(u, c, now, rule, coins, start, at);
      if paid.Err? {
        Rollback(saved);
        return Invalid, at;
      }
      var (bonus, balance) := paid.value;
      at := CountsFlavor(cfg, at, Snapshot(), bonus);
      var flavorCodes := |FlavorSet(Snapshot(), u, city)|;
      reply := Fresh(Accepted(city, total, coins, balance, bonus, flavorCodes == UNLOCK_THRESHOLD));
    }

    /** The two payments of a redemption: the bonus paid and the balance after both. */
    method PayRedemption(u: User, c: CodeId, now: Time, rule: Option<Rule>, coins: nat, start: int, ghost from: Cursor)
      returns (r: Result<(int, int), Error>, ghost at: Cursor)
      requires Valid() && from.step == program && At(from, Snapshot()) && coins == CoinsOf(Snapshot(), c)
      requires from.req.Redeem? && from.req.user == u && from.req.code == c && from.req.now == now && from.req.rule == rule
      requires from.l.pc == PayCoins && u in wallets && start == BalanceIn(Snapshot(), u)
      modifies this`ledger, this`wallets
      ensures Later(from, at) && At(at, Snapshot())
      ensures match r
              case Ok(p) => at.l.pc == CountFlavor(p.0) && p.1 == BalanceIn(Snapshot(), u)
              case Err(e) => at.l.pc == Failed(e) && (e == IntegrityError || e == InsufficientCoins)
    {
      var paid;
      paid, at := PayForCode(u, c, now, coins, start, from);
      if paid.Err? { return Err(paid.error), at; }
      var bonus, balance;
      bonus, balance, at := AwardFirstCodeBonus(u, now, rule, paid.value, at);
      r := if bonus.Ok? then Ok((bonus.value, balance)) else Err(bonus.error);
    }

    /** The coins of the code's batch, when there are any; the balance after them. */
    method PayForCode(u: User, c: CodeId, now: Time, coins: nat, balance: int, ghost from: Cursor)
      returns (r: Result<int, Error>, ghost at: Cursor)
      requires Valid() && from.step == program && At(from, Snapshot()) && coins == CoinsOf(Snapshot(), c)
      requires from.req.Redeem? && from.req.user == u && from.req.code == c && from.req.now == now
      requires from.l.pc == PayCoins && u in wallets && balance == BalanceIn(Snapshot(), u)
      modifies this`ledger, this`wallets
      ensures Later(from, at) && At(at, Snapshot()) && u in wallets
      ensures match r
              case Ok(b) => at.l.pc == ReadRule && b == BalanceIn(Snapshot(), u)
              case Err(e) => at.l.pc == Failed(e) && (e == IntegrityError || e == InsufficientCoins)
    {
      at := PaysCoins(cfg, from, Snapshot());
      if coins == 0 { return Ok(balance), at; }
      r := RecordEntry(Entry(u, coins, CodeRedemption(c), now));
    }

    /** `_award_first_code_bonus`: the bonus paid, 0 when it is off or was paid before. */
    method AwardFirstCodeBonus(u: User, now: Time, rule: Option<Rule>, start: int, ghost from: Cursor)
      returns (bonus: Result<int, Error>, balance: int, ghost at: Cursor)
      requires Valid() && from.step == program && At(from, Snapshot())
      requires from.req.Redeem? && from.req.user == u && from.req.now == now && from.req.rule == rule
      requires from.l.pc == ReadRule && u in wallets && start == BalanceIn(Snapshot(), u)
      modifies this`ledger, this`wallets
      ensures Later(from, at) && At(at, Snapshot()) && u in wallets && balance == BalanceIn(Snapshot(), u)
      ensures match bonus
              case Ok(amount) => at.l.pc == CountFlavor(amount)
              case Err(e) => at.l.pc == Failed(e) && (e == IntegrityError || e == InsufficientCoins)
    {
      var amount := if rule.Some? then rule.value.amount else cfg.firstCodeBonus;
      var on := if rule.Some? then rule.value.active else true;
      balance := start;
      at := ReadsRule(cfg, from, Snapshot(), amount, on);
      if !on || amount <= 0 { return Ok(0), balance, at; }
      at := ChecksBonus(cfg, at, Snapshot(), amount);
      if HasKey(ledger, FirstCode(u)) { return Ok(0), balance, at; }
      at := PaysBonus(cfg, at, Snapshot(), amount);
      var paid := RecordEntry(Entry(u, amount, FirstCode(u), now));
      if paid.Err? { return Err(paid.error), balance, at; }
      bonus, balance := Ok(amount), paid.value;
    }
  }
}
