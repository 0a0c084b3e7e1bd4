/**
 What every committed state of the coin economy satisfies, and the proof that each
 service keeps it when it runs alone. `Interleaving` lifts this to concurrent runs.
 */
module Economy {
  import opened Prelude
  import opened Tables
  import opened ReferralRules
  import opened Transactions

  /** Each wallet is exactly its user's ledger, never below zero. */
  ghost predicate WalletsOk(db: Db) {
    && (forall u | u in db.wallets ::
          && db.wallets[u].balance == Sum(db.ledger, u) >= 0
          && db.wallets[u].lifetime == Earned(db.ledger, u))
    && (forall i | 0 <= i < |db.ledger| :: db.ledger[i].user in db.wallets)
  }

  /** No idempotency key is used twice. */
  ghost predicate KeysOk(ledger: seq<Entry>) {
    forall i, j | 0 <= i < j < |ledger| :: ledger[i].key != ledger[j].key
  }

  ghost predicate Bound2(db: Db, invitee: User, inviter: User) {
    invitee in db.bindings && db.bindings[invitee] == inviter
  }

  /** Every ledger entry is backed by the row it pays for, with the right owner and amount. */
  ghost predicate EntryOk(db: Db, e: Entry) {
    match e.key
    case CodeRedemption(c) => RedeemedBy(db, c, e.user) && e.amount == CoinsOf(db, c) > 0
    case FirstCode(u) => e.user == u && e.amount > 0 && RedeemedSet(db, u) != {}
    case ChallengeReward(ch, p, u) => e.user == u && ClaimRow(ch, u, p) in db.claims && e.amount > 0
    case AchievementReward(a, u) => e.user == u && UnlockRow(a, u) in db.unlocks && e.amount > 0
    case AdminAdjustment(_) => e.amount != 0
    case ReferralFirst(i) => Bound2(db, i, e.user) && e.amount == FIRST_CODE_BONUS && RedeemedSet(db, i) != {}
    case ReferralLater(c) =>
      && c in db.codes && db.codes[c].redemption.Some?
      && Bound2(db, db.codes[c].redemption.value.user, e.user) && e.amount == LATER_CODE_BONUS
  }

  ghost predicate EntriesOk(db: Db) {
    forall i | 0 <= i < |db.ledger| :: EntryOk(db, db.ledger[i])
  }

  /** Every redeemed code worth coins has its ledger entry, `skip` aside. */
  ghost predicate PaidOk(db: Db, skip: set<CodeId>) {
    forall c | c in db.codes && db.codes[c].redemption.Some? && c !in skip && CoinsOf(db, c) > 0 ::
      HasKey(db.ledger, CodeRedemption(c))
  }

  /** Passport points count redeemed codes; one point may still be `owed` inside a transaction. */
  ghost predicate PointsOk(db: Db, owed: Option<(User, City)>) {
    forall u: User, city :: Points(db, u, city) + (if owed == Some((u, city)) then 1 else 0) == |FlavorSet(db, u, city)|
  }

  /** The codes `u` redeemed in the local day starting at `day`. */
  ghost function DaySet(z: Zone, db: Db, u: User, day: Time): set<CodeId> {
    set c | c in db.codes && RedeemedBy(db, c, u) && z.StartOfLocalDay(RedeemedAt(db, c, u)) == day
  }

  /** Nobody is over the daily limit; `slack` is a claim whose count is not checked yet. */
  ghost predicate LimitOk(cfg: Config, db: Db, slack: Option<(User, Time)>) {
    forall u: User, day ::
      |DaySet(cfg.zone, db, u, day)| <= cfg.dailyLimit + if slack == Some((u, day)) then 1 else 0
  }

  ghost predicate BindingsOk(db: Db) {
    forall i | i in db.bindings :: db.bindings[i] != i
  }

  /** Foreign key: every code belongs to a known batch. */
  ghost predicate BatchesOk(db: Db) {
    forall c | c in db.codes :: db.codes[c].batch in db.batches
  }

  /** The invariant with the debts a redemption has between its own statements. */
  ghost predicate InvWith(cfg: Config, db: Db, skip: set<CodeId>, owed: Option<(User, City)>, slack: Option<(User, Time)>) {
    && WalletsOk(db) && KeysOk(db.ledger) && EntriesOk(db) && PaidOk(db, skip)
    && PointsOk(db, owed) && LimitOk(cfg, db, slack) && BindingsOk(db) && BatchesOk(db)
  }

  /** The invariant of every committed state. */
  ghost predicate Inv(cfg: Config, db: Db) {
    InvWith(cfg, db, {}, None, None)
  }

  lemma EmptyInv(cfg: Config)
    ensures Inv(cfg, EmptyDb)
  {
  }

  // ------------------------------------------------ one write at a time

  lemma HasKeyGrows(ledger: seq<Entry>, e: Entry, k: Key)
    ensures HasKey(ledger + [e], k) <==> HasKey(ledger, k) || e.key == k
  {
    var after := ledger + [e];
    if i :| 0 <= i < |ledger| && ledger[i].key == k { assert after[i].key == k; }
    if e.key == k { assert after[|ledger|].key == k; }
  }

  lemma SumGrows(ledger: seq<Entry>, e: Entry, u: User)
    ensures Sum(ledger + [e], u) == Sum(ledger, u) + if e.user == u then e.amount else 0
    ensures Earned(ledger + [e], u) == Earned(ledger, u) + if e.user == u && e.amount > 0 then e.amount else 0
  {
    assert (ledger + [e])[..|ledger|] == ledger;
  }

  lemma RecordKeepsWallets(db: Db, e: Entry)
    requires WalletsOk(db) && KeysOk(db.ledger) && !HasKey(db.ledger, e.key)
    requires e.user in db.wallets && db.wallets[e.user].balance + e.amount >= 0
    ensures var after := DoOp(db, Record(e)); WalletsOk(after) && KeysOk(after.ledger)
  {
    var after := DoOp(db, Record(e));
    forall u: User ensures && Sum(after.ledger, u) == Sum(db.ledger, u) + (if e.user == u then e.amount else 0)
                           && Earned(after.ledger, u) == Earned(db.ledger, u) + if e.user == u && e.amount > 0 then e.amount else 0
    {
      SumGrows(db.ledger, e, u);
    }
    forall i | 0 <= i < |db.ledger| ensures after.ledger[i].key != e.key {
      assert after.ledger[i] == db.ledger[i];
    }
  }

  lemma RecordKeepsEntries(db: Db, e: Entry)
    requires EntriesOk(db) && EntryOk(db, e) && e.user in db.wallets
    ensures EntriesOk(DoOp(db, Record(e)))
  {
    var after := DoOp(db, Record(e));
    forall i | 0 <= i < |after.ledger| ensures EntryOk(after, after.ledger[i]) {
      var x := if i < |db.ledger| then db.ledger[i] else e;
      assert EntryOk(db, x) && after.ledger[i] == x;
      EntryFrame(db, after, x);
    }
  }

  lemma RecordKeepsPaid(db: Db, e: Entry, skip: set<CodeId>, left: set<CodeId>)
    requires PaidOk(db, skip) && e.user in db.wallets
    requires forall c | c in skip :: c in left || e.key == CodeRedemption(c)
    ensures PaidOk(DoOp(db, Record(e)), left)
  {
    var after := DoOp(db, Record(e));
    forall c | c in after.codes && after.codes[c].redemption.Some? && c !in left && CoinsOf(after, c) > 0
      ensures HasKey(after.ledger, CodeRedemption(c))
    {
      assert CoinsOf(db, c) == CoinsOf(after, c);
      HasKeyGrows(db.ledger, e, CodeRedemption(c));
    }
  }

  lemma RecordKeeps(cfg: Config, db: Db, e: Entry, skip: set<CodeId>, left: set<CodeId>)
    requires InvWith(cfg, db, skip, None, None)
    requires !HasKey(db.ledger, e.key) && EntryOk(db, e)
    requires e.user in db.wallets && db.wallets[e.user].balance + e.amount >= 0
    requires forall c | c in skip :: c in left || e.key == CodeRedemption(c)
    ensures InvWith(cfg, DoOp(db, Record(e)), left, None, None)
  {
    RecordKeepsWallets(db, e);
    RecordKeepsEntries(db, e);
    RecordKeepsPaid(db, e, skip, left);
    SameRows(cfg, db, DoOp(db, Record(e)));
  }

  /** Entries stay backed while rows they rest on only grow. */
  ghost predicate Grows(a: Db, b: Db) {
    && (forall c | c in a.codes && a.codes[c].redemption.Some? :: c in b.codes && b.codes[c] == a.codes[c])
    && (forall c | c in a.codes :: c in b.codes && CoinsOf(a, c) == CoinsOf(b, c))
    && a.claims <= b.claims && a.unlocks <= b.unlocks
    && (forall i | i in a.bindings :: i in b.bindings && b.bindings[i] == a.bindings[i])
  }

  lemma GrowsTransitive(a: Db, b: Db, c: Db)
    requires Grows(a, b) && Grows(b, c)
    ensures Grows(a, c)
  {
  }

  lemma EntryFrame(a: Db, b: Db, e: Entry)
    requires Grows(a, b) && EntryOk(a, e)
    ensures EntryOk(b, e)
  {
    if e.key.ReferralFirst? || e.key.FirstCode? {
      var u := if e.key.ReferralFirst? then e.key.invitee else e.key.user;
      var c :| c in RedeemedSet(a, u);
      assert c in RedeemedSet(b, u);
    }
  }

  lemma EntriesFrame(a: Db, b: Db)
    requires Grows(a, b) && EntriesOk(a) && a.ledger == b.ledger
    ensures EntriesOk(b)
  {
    forall i | 0 <= i < |b.ledger| ensures EntryOk(b, b.ledger[i]) {
      assert EntryOk(a, a.ledger[i]);
      EntryFrame(a, b, b.ledger[i]);
    }
  }

  /** Points and daily limits only look at the code rows and the points table. */
  lemma SameRows(cfg: Config, a: Db, b: Db)
    requires a.codes == b.codes
    ensures forall u: User, city :: FlavorSet(a, u, city) == FlavorSet(b, u, city)
    ensures forall u: User, day :: DaySet(cfg.zone, a, u, day) == DaySet(cfg.zone, b, u, day)
    ensures forall u: User :: RedeemedSet(a, u) == RedeemedSet(b, u)
  {
  }

  lemma LockKeeps(cfg: Config, db: Db, u: User)
    requires Inv(cfg, db)
    ensures Inv(cfg, DoOp(db, LockWallet(u)))
  {
    var after := DoOp(db, LockWallet(u));
    SameRows(cfg, db, after);
    EntriesFrame(db, after);
    if u !in db.wallets { NoEntries(db.ledger, u); }
  }

  lemma {:induction false} NoEntries(ledger: seq<Entry>, u: User)
    requires forall i | 0 <= i < |ledger| :: ledger[i].user != u
    ensures Sum(ledger, u) == 0 && Earned(ledger, u) == 0
  {
    if ledger != [] { NoEntries(ledger[..|ledger| - 1], u); }
  }

  lemma InsertsKeep(cfg: Config, db: Db, op: Op)
    requires Inv(cfg, db)
    requires op.InsertClaim? || op.InsertUnlock? || op.InsertBinding?
    requires op.InsertBinding? ==> op.invitee !in db.bindings && op.inviter != op.invitee
    ensures Inv(cfg, DoOp(db, op))
  {
    SameRows(cfg, db, DoOp(db, op));
    EntriesFrame(db, DoOp(db, op));
  }

  lemma MarkKeepsLedger(db: Db, c: CodeId, u: User, now: Time)
    requires EntriesOk(db) && PaidOk(db, {})
    requires c in db.codes && db.codes[c].redemption.None?
    ensures var after := DoOp(db, MarkRedeemed(c, u, now));
            EntriesOk(after) && PaidOk(after, {c}) && !HasKey(after.ledger, CodeRedemption(c))
  {
    var after := DoOp(db, MarkRedeemed(c, u, now));
    assert forall x | x in db.codes && x != c :: after.codes[x] == db.codes[x];
    assert forall x | x in db.codes :: CoinsOf(after, x) == CoinsOf(db, x);
    EntriesFrame(db, after);
    forall i | 0 <= i < |db.ledger| ensures db.ledger[i].key != CodeRedemption(c) {
      assert EntryOk(db, db.ledger[i]);
    }
  }

  lemma AddOne<T>(a: set<T>, b: set<T>, x: T)
    requires x !in a && b == a + {x}
    ensures |b| == |a| + 1
  {
  }

  lemma MarkOwesPoint(db: Db, c: CodeId, u: User, now: Time)
    requires PointsOk(db, None) && c in db.codes && db.codes[c].redemption.None?
    ensures PointsOk(DoOp(db, MarkRedeemed(c, u, now)), Some((u, db.codes[c].city)))
  {
    var after, where := DoOp(db, MarkRedeemed(c, u, now)), db.codes[c].city;
    forall w: User, city
      ensures Points(after, w, city) + (if Some((u, where)) == Some((w, city)) then 1 else 0) == |FlavorSet(after, w, city)|
    {
      ClaimedFlavor(db, after, c, u, now, w, city);
      assert Points(after, w, city) == Points(db, w, city) == |FlavorSet(db, w, city)|;
    }
  }

  lemma ClaimedFlavorSet(db: Db, after: Db, c: CodeId, u: User, now: Time, w: User, city: City)
    requires c in db.codes && db.codes[c].redemption.None?
    requires after.codes == db.codes[c := db.codes[c].(redemption := Some(Redemption(u, now)))]
    ensures c !in FlavorSet(db, w, city)
    ensures w == u && db.codes[c].city == city ==> FlavorSet(after, w, city) == FlavorSet(db, w, city) + {c}
    ensures !(w == u && db.codes[c].city == city) ==> FlavorSet(after, w, city) == FlavorSet(db, w, city)
  {
    forall x | x != c ensures x in FlavorSet(after, w, city) <==> x in FlavorSet(db, w, city) {}
  }

  /** Claiming the free code `c` for `u` adds one to `u`'s count of its flavor and to no other count. */
  lemma ClaimedFlavor(db: Db, after: Db, c: CodeId, u: User, now: Time, w: User, city: City)
    requires c in db.codes && db.codes[c].redemption.None?
    requires after.codes == db.codes[c := db.codes[c].(redemption := Some(Redemption(u, now)))]
    ensures |FlavorSet(after, w, city)| == |FlavorSet(db, w, city)| + if w == u && db.codes[c].city == city then 1 else 0
  {
    ClaimedFlavorSet(db, after, c, u, now, w, city);
    if w == u && db.codes[c].city == city { AddOne(FlavorSet(db, w, city), FlavorSet(after, w, city), c); }
  }

  lemma ClaimedDay(z: Zone, db: Db, c: CodeId, u: User, now: Time, w: User, day: Time)
    requires c in db.codes && db.codes[c].redemption.None?
    ensures var after := DoOp(db, MarkRedeemed(c, u, now));
            |DaySet(z, after, w, day)| == |DaySet(z, db, w, day)| + if w == u && day == z.StartOfLocalDay(now) then 1 else 0
  {
    var after := DoOp(db, MarkRedeemed(c, u, now));
    assert forall x | x in db.codes && x != c :: after.codes[x] == db.codes[x];
    if w == u && day == z.StartOfLocalDay(now) {
      AddOne(DaySet(z, db, w, day), DaySet(z, after, w, day), c);
    } else {
      assert DaySet(z, after, w, day) == DaySet(z, db, w, day);
    }
  }

  lemma MarkStrainsLimit(cfg: Config, db: Db, c: CodeId, u: User, now: Time)
    requires LimitOk(cfg, db, None) && c in db.codes && db.codes[c].redemption.None?
    ensures LimitOk(cfg, DoOp(db, MarkRedeemed(c, u, now)), Some((u, cfg.zone.StartOfLocalDay(now))))
  {
    var after, today := DoOp(db, MarkRedeemed(c, u, now)), cfg.zone.StartOfLocalDay(now);
    forall w: User, day
      ensures |DaySet(cfg.zone, after, w, day)| <= cfg.dailyLimit + if Some((u, today)) == Some((w, day)) then 1 else 0
    {
      ClaimedDay(cfg.zone, db, c, u, now, w, day);
    }
  }

  /** Claiming an unredeemed code opens three debts: the limit check, the point and the coins. */
  lemma MarkKeeps(cfg: Config, db: Db, c: CodeId, u: User, now: Time)
    requires Inv(cfg, db)
    requires c in db.codes && db.codes[c].redemption.None?
    ensures var after := DoOp(db, MarkRedeemed(c, u, now));
            && InvWith(cfg, after, {c}, Some((u, db.codes[c].city)), Some((u, cfg.zone.StartOfLocalDay(now))))
            && !HasKey(after.ledger, CodeRedemption(c))
  {
    MarkOwesPoint(db, c, u, now);
    MarkStrainsLimit(cfg, db, c, u, now);
    MarkKeepsLedger(db, c, u, now);
  }

  /** The check that today's count is within the limit settles the first debt, whatever the order of timestamps. */
  lemma CountSettles(cfg: Config, db: Db, c: CodeId, u: User, now: Time, owed: Option<(User, City)>)
    requires ValidZone(cfg.zone)
    requires InvWith(cfg, db, {c}, owed, Some((u, cfg.zone.StartOfLocalDay(now))))
    requires |SinceSet(db, u, cfg.zone.StartOfLocalDay(now))| <= cfg.dailyLimit
    ensures InvWith(cfg, db, {c}, owed, None)
  {
    var day := cfg.zone.StartOfLocalDay(now);
    var today, since := DaySet(cfg.zone, db, u, day), SinceSet(db, u, day);
    assert today <= since by {
      forall x | x in today ensures x in since {
        assert cfg.zone.StartOfLocalDay(RedeemedAt(db, x, u)) <= RedeemedAt(db, x, u);
      }
    }
    CardinalityMonotone(today, since);
  }

  lemma {:induction false} CardinalityMonotone<T>(a: set<T>, b: set<T>)
    requires a <= b
    ensures |a| <= |b|
  {
    assert b == a + (b - a);
    assert |b| == |a| + |b - a|;
  }

  lemma PointKeeps(cfg: Config, db: Db, u: User, city: City, skip: set<CodeId>)
    requires InvWith(cfg, db, skip, Some((u, city)), None)
    ensures InvWith(cfg, DoOp(db, AddPoint(u, city)), skip, None, None)
  {
    var after := DoOp(db, AddPoint(u, city));
    SameRows(cfg, db, after);
    EntriesFrame(db, after);
    assert forall w: User, x :: Points(after, w, x) == Points(db, w, x) + if w == u && x == city then 1 else 0;
  }

  // --------------------------------------------- a service running alone

  /** The code a redemption has claimed but not paid for yet. */
  ghost function Skip(l: Local): set<CodeId> {
    if l.pc.CountToday? || l.pc.AddEntry? || l.pc.PayCoins?
    then if l.req.Redeem? then {l.req.code} else {}
    else {}
  }

  ghost function Owed(l: Local, v: Db): Option<(User, City)> {
    if (l.pc.CountToday? || l.pc.AddEntry?) && l.req.Redeem? && l.req.code in v.codes
    then Some((l.req.user, v.codes[l.req.code].city))
    else None
  }

  ghost function Slack(cfg: Config, l: Local): Option<(User, Time)> {
    if l.pc.CountToday? && l.req.Redeem? then Some((l.req.user, cfg.zone.StartOfLocalDay(l.req.now))) else None
  }

  /** A settlement works for the bound inviter and from codes its invitee really redeemed. */
  ghost predicate SettleFacts(db: Db, req: Request)
    requires req.Settle?
  {
    && req.binding.Some? && Bound2(db, req.invitee, req.binding.value)
    && forall i | 0 <= i < |req.history| ::
         && RedeemedBy(db, req.history[i].code, req.invitee)
         && RedeemedAt(db, req.history[i].code, req.invitee) == req.history[i].at
  }

  /** What a request may rely on when it starts on committed tables. */
  ghost predicate Admissible(db: Db, req: Request) {
    && (req.Adjust? ==> !HasKey(db.ledger, AdminAdjustment(req.uuid)))
    && (req.Settle? && req.binding.Some? ==> SettleFacts(db, req))
  }

  predicate BeforeLock(pc: Pc) {
    pc.ReadBinding? || pc.ReadMission? || pc.ReadHistory? || pc.TakeWallet?
  }

  ghost predicate RedeemFacts(l: Local, v: Db)
    requires l.req.Redeem?
  {
    var Redeem(u, c, now, _, _) := l.req;
    && (l.pc.ReadBatch? || l.pc.ClaimCode? || (RedeemedBy(v, c, u) && RedeemedAt(v, c, u) == now))
    && (Skip(l) != {} ==> !HasKey(v.ledger, CodeRedemption(c)))
    && (l.pc.PayBonus? ==> !HasKey(v.ledger, FirstCode(u)) && l.pc.amount > 0)
    && (l.pc.CheckBonus? ==> l.pc.amount > 0)
  }

  ghost predicate ClaimFacts(cfg: Config, l: Local, v: Db)
    requires l.req.Claim?
  {
    var Claim(u, now, _, _, achievements) := l.req;
    && (l.pc.InsertClaimRow? || l.pc.PayReward? ==>
          var r := ClaimRow(l.pc.ch.id, u, cfg.zone.PeriodKey(l.pc.ch.cadence, now));
          && (r in v.claims <==> l.pc.PayReward?)
          && !HasKey(v.ledger, ChallengeReward(r.challenge, r.period, u)))
    && (l.pc.Unlock? || l.pc.PayUnlock? ==>
          && l.pc.i < |achievements|
          && (UnlockRow(achievements[l.pc.i].id, u) in v.unlocks <==> l.pc.PayUnlock?)
          && !HasKey(v.ledger, AchievementReward(achievements[l.pc.i].id, u)))
  }

  ghost predicate BindFacts(l: Local, v: Db)
    requires l.req.Bind?
  {
    var Bind(i, inviter) := l.req;
    && (l.pc.CountCodes? ==> (l.pc.bound <==> i in v.bindings))
    && (l.pc.InsertBound? ==> i !in v.bindings && inviter.Some? && inviter.value != i && RedeemedSet(v, i) == {})
  }

  ghost predicate PayFacts(l: Local, v: Db)
    requires l.req.Settle?
  {
    && SettleFacts(v, l.req)
    && (l.pc.PayReferral? ==> l.pc.i < |Payouts(l.req)| && !HasKey(v.ledger, Payouts(l.req)[l.pc.i].key))
  }

  /** What the statement reached so far already knows. */
  ghost predicate PcFacts(cfg: Config, l: Local, v: Db) {
    && (l.pc.Failed? || (l.ops == [] <==> BeforeLock(l.pc)))
    && (l.ops != [] && !l.pc.Failed? ==> LockUser(l.req) in v.wallets)
    && (BeforeLock(l.pc) ==> Admissible(v, l.req) && !(l.req.Adjust? && l.req.amount == 0))
    && (l.req.Settle? && (l.pc.ReadMission? || l.pc.ReadHistory? || l.pc.TakeWallet?) ==> l.req.binding.Some?)
    && (!l.Running() || BeforeLock(l.pc) || match l.req
        case Redeem(_, _, _, _, _) => RedeemFacts(l, v)
        case Adjust(_, amount, _, uuid) => !HasKey(v.ledger, AdminAdjustment(uuid)) && amount != 0
        case Claim(_, _, _, _, _) => ClaimFacts(cfg, l, v)
        case Bind(_, _) => BindFacts(l, v)
        case Settle(_, _, _, _, _) => PayFacts(l, v))
  }

  ghost predicate LocalInv(cfg: Config, l: Local, v: Db) {
    && PcFacts(cfg, l, v)
    && (!l.pc.Failed? ==> InvWith(cfg, v, Skip(l), Owed(l, v), Slack(cfg, l)))
  }

  /** Refusals that never happen: a unique key that fires, or coins lacking for anything but an adjustment downwards. */
  predicate Impossible(l: Local) {
    l.pc == Failed(IntegrityError) || (l.pc == Failed(InsufficientCoins) && !(l.req.Adjust? && l.req.amount < 0))
  }

  /** `l` became `n` by a statement on the view `v`, and all is still well. */
  ghost predicate Kept(cfg: Config, l: Local, v: Db, n: Local) {
    && LocalInv(cfg, n, if |n.ops| > |l.ops| then DoOp(v, n.ops[|n.ops| - 1]) else v)
    && !Impossible(n)
  }

  /** Recording an entry that its row backs closes the debt on its key and goes on. */
  lemma TryRecordKeeps(cfg: Config, l: Local, v: Db, e: Entry, next: Pc)
    requires LocalInv(cfg, l, v) && l.Running() && !BeforeLock(l.pc) && !l.pc.CountToday? && !l.pc.AddEntry?
    requires e.user == LockUser(l.req) && EntryOk(v, e) && !HasKey(v.ledger, e.key)
    requires !BeforeLock(next) && !next.Failed? && (e.amount > 0 || (l.req.Adjust? && e.amount == l.req.amount))
    requires Skip(l.Goto(next)) == {}
    requires forall c | c in Skip(l) :: e.key == CodeRedemption(c)
    requires PcFacts(cfg, l.Write(Record(e), next), DoOp(v, Record(e)))
    ensures Kept(cfg, l, v, TryRecord(l, v, e, next))
  {
    var n := TryRecord(l, v, e, next);
    if n.pc == next && |n.ops| > |l.ops| {
      RecordKeeps(cfg, v, e, Skip(l), {});
    }
  }

  lemma ClaimCodeKeeps(cfg: Config, l: Local, v: Db)
    requires l.req.Redeem? && l.pc.ClaimCode? && LocalInv(cfg, l, v)
    ensures Kept(cfg, l, v, RedeemStep(cfg, l, v))
  {
    var n := RedeemStep(cfg, l, v);
    if n.pc.CountToday? { MarkKeeps(cfg, v, l.req.code, l.req.user, l.req.now); }
  }

  lemma CountTodayKeeps(cfg: Config, l: Local, v: Db)
    requires ValidZone(cfg.zone) && l.req.Redeem? && l.pc.CountToday? && LocalInv(cfg, l, v)
    ensures Kept(cfg, l, v, RedeemStep(cfg, l, v))
  {
    var n := RedeemStep(cfg, l, v);
    if !n.pc.Failed? { CountSettles(cfg, v, l.req.code, l.req.user, l.req.now, Owed(l, v)); }
  }

  lemma AddEntryKeeps(cfg: Config, l: Local, v: Db)
    requires l.req.Redeem? && l.pc.AddEntry? && LocalInv(cfg, l, v)
    ensures Kept(cfg, l, v, RedeemStep(cfg, l, v))
  {
    PointKeeps(cfg, v, l.req.user, v.codes[l.req.code].city, {l.req.code});
  }

  lemma PayCoinsKeeps(cfg: Config, l: Local, v: Db)
    requires l.req.Redeem? && l.pc.PayCoins? && LocalInv(cfg, l, v)
    ensures Kept(cfg, l, v, RedeemStep(cfg, l, v))
  {
    var e := Entry(l.req.user, CoinsOf(v, l.req.code), CodeRedemption(l.req.code), l.req.now);
    if CoinsOf(v, l.req.code) > 0 { TryRecordKeeps(cfg, l, v, e, ReadRule); }
  }

  lemma PayBonusKeeps(cfg: Config, l: Local, v: Db)
    requires l.req.Redeem? && l.pc.PayBonus? && LocalInv(cfg, l, v)
    ensures Kept(cfg, l, v, RedeemStep(cfg, l, v))
  {
    assert l.req.code in RedeemedSet(v, l.req.user);
    TryRecordKeeps(cfg, l, v, Entry(l.req.user, l.pc.amount, FirstCode(l.req.user), l.req.now), CountFlavor(l.pc.amount));
  }

  lemma QuietRedeemKeeps(cfg: Config, l: Local, v: Db)
    requires l.req.Redeem? && LocalInv(cfg, l, v)
    requires l.pc.ReadBatch? || l.pc.ReadRule?
    ensures Kept(cfg, l, v, RedeemStep(cfg, l, v))
  {
  }

  lemma LateRedeemKeeps(cfg: Config, l: Local, v: Db)
    requires l.req.Redeem? && LocalInv(cfg, l, v)
    requires l.pc.CheckBonus? || l.pc.CountFlavor?
    ensures Kept(cfg, l, v, RedeemStep(cfg, l, v))
  {
  }

  lemma RedeemStepKeeps(cfg: Config, l: Local, v: Db)
    requires ValidZone(cfg.zone) && l.req.Redeem? && l.Running() && !l.pc.TakeWallet?
    requires LocalInv(cfg, l, v)
    ensures Kept(cfg, l, v, RedeemStep(cfg, l, v))
  {
    match l.pc
    case ClaimCode => ClaimCodeKeeps(cfg, l, v);
    case CountToday => CountTodayKeeps(cfg, l, v);
    case AddEntry => AddEntryKeeps(cfg, l, v);
    case PayCoins => PayCoinsKeeps(cfg, l, v);
    case PayBonus(_) => PayBonusKeeps(cfg, l, v);
    case ReadBatch => QuietRedeemKeeps(cfg, l, v);
    case ReadRule => QuietRedeemKeeps(cfg, l, v);
    case CheckBonus(_) => LateRedeemKeeps(cfg, l, v);
    case CountFlavor(_) => LateRedeemKeeps(cfg, l, v);
    case _ =>
  }

  lemma InsertClaimKeeps(cfg: Config, l: Local, v: Db)
    requires l.req.Claim? && l.pc.InsertClaimRow? && LocalInv(cfg, l, v)
    ensures Kept(cfg, l, v, ClaimStep(cfg, l, v))
  {
    InsertsKeep(cfg, v, InsertClaim(ClaimRow(l.pc.ch.id, l.req.user, cfg.zone.PeriodKey(l.pc.ch.cadence, l.req.now))));
  }

  lemma PayRewardKeeps(cfg: Config, l: Local, v: Db)
    requires l.req.Claim? && l.pc.PayReward? && LocalInv(cfg, l, v)
    ensures Kept(cfg, l, v, ClaimStep(cfg, l, v))
  {
    var Claim(u, now, _, _, _) := l.req;
    var ch, n := l.pc.ch, ClaimStep(cfg, l, v);
    var e := Entry(u, ch.reward, ChallengeReward(ch.id, cfg.zone.PeriodKey(ch.cadence, now), u), now);
    var next := if ch.checkin then ReadStreak(ch) else Ready(Claimed(ch.reward, BalanceIn(v, u) + ch.reward, None, []));
    assert n == if ch.reward > 0 then TryRecord(l, v, e, next) else l.Goto(next);
    if ch.reward > 0 { TryRecordKeeps(cfg, l, v, e, next); }
  }

  lemma UnlockKeeps(cfg: Config, l: Local, v: Db)
    requires l.req.Claim? && l.pc.Unlock? && LocalInv(cfg, l, v)
    ensures Kept(cfg, l, v, ClaimStep(cfg, l, v))
  {
    InsertsKeep(cfg, v, InsertUnlock(UnlockRow(l.req.achievements[l.pc.i].id, l.req.user)));
  }

  lemma PayUnlockKeeps(cfg: Config, l: Local, v: Db)
    requires l.req.Claim? && l.pc.PayUnlock? && LocalInv(cfg, l, v)
    ensures Kept(cfg, l, v, ClaimStep(cfg, l, v))
  {
    var Claim(u, now, _, _, achievements) := l.req;
    var PayUnlock(ch, streak, i, done) := l.pc;
    var e := Entry(u, achievements[i].reward, AchievementReward(achievements[i].id, u), now);
    var next := CheckUnlock(ch, streak, i + 1, done);
    assert ClaimStep(cfg, l, v) == if e.amount > 0 then TryRecord(l, v, e, next) else l.Goto(next);
    if e.amount > 0 { TryRecordKeeps(cfg, l, v, e, next); }
  }

  lemma ClaimStepKeeps(cfg: Config, l: Local, v: Db)
    requires l.req.Claim? && l.Running() && !l.pc.TakeWallet?
    requires LocalInv(cfg, l, v)
    ensures Kept(cfg, l, v, ClaimStep(cfg, l, v))
  {
    var u := l.req.user;
    match l.pc
    case CheckClaimed(ch) => KeyNeedsRow(v, ChallengeReward(ch.id, cfg.zone.PeriodKey(ch.cadence, l.req.now), u));
    case InsertClaimRow(_) => InsertClaimKeeps(cfg, l, v);
    case PayReward(_) => PayRewardKeeps(cfg, l, v);
    case CheckUnlock(_, _, i, _) =>
      if i < |l.req.achievements| { KeyNeedsRow(v, AchievementReward(l.req.achievements[i].id, u)); }
    case Unlock(_, _, _, _) => UnlockKeeps(cfg, l, v);
    case PayUnlock(_, _, _, _) => PayUnlockKeeps(cfg, l, v);
    case _ =>
  }

  /** A reward key without its claim or unlock row cannot be in the ledger. */
  lemma KeyNeedsRow(v: Db, k: Key)
    requires EntriesOk(v)
    requires k.ChallengeReward? || k.AchievementReward?
    ensures HasKey(v.ledger, k) && k.ChallengeReward? ==> ClaimRow(k.challenge, k.user, k.period) in v.claims
    ensures HasKey(v.ledger, k) && k.AchievementReward? ==> UnlockRow(k.achievement, k.user) in v.unlocks
  {
    if i :| 0 <= i < |v.ledger| && v.ledger[i].key == k {
      assert EntryOk(v, v.ledger[i]);
    }
  }

  lemma BindStepKeeps(cfg: Config, l: Local, v: Db)
    requires l.req.Bind? && l.Running() && !l.pc.TakeWallet?
    requires LocalInv(cfg, l, v)
    ensures Kept(cfg, l, v, BindStep(l, v))
  {
    if l.pc.InsertBound? { InsertsKeep(cfg, v, InsertBinding(l.req.invitee, l.req.inviter.value)); }
  }

  lemma PayReferralKeeps(cfg: Config, l: Local, v: Db)
    requires l.req.Settle? && l.pc.PayReferral? && LocalInv(cfg, l, v)
    ensures Kept(cfg, l, v, SettleStep(l, v))
  {
    var p := Payouts(l.req)[l.pc.i];
    var e, next := Entry(LockUser(l.req), p.amount, p.key, l.req.now), CheckPaid(l.pc.i + 1);
    PayoutBacked(v, l.req, p);
    assert SettleStep(l, v) == TryRecord(l, v, e, next);
    assert PcFacts(cfg, l.Write(Record(e), next), DoOp(v, Record(e))) by {
      assert SettleFacts(DoOp(v, Record(e)), l.req);
    }
    TryRecordKeeps(cfg, l, v, e, next);
  }

  lemma SettleStepKeeps(cfg: Config, l: Local, v: Db)
    requires l.req.Settle? && l.Running() && !l.pc.TakeWallet?
    requires LocalInv(cfg, l, v)
    ensures Kept(cfg, l, v, SettleStep(l, v))
  {
    if l.pc.PayReferral? { PayReferralKeeps(cfg, l, v); }
  }

  /** What a settlement pays is backed by its invitee's binding and redemptions. */
  lemma PayoutBacked(v: Db, req: Request, p: Payout)
    requires req.Settle? && SettleFacts(v, req) && p in Payouts(req)
    ensures EntryOk(v, Entry(req.binding.value, p.amount, p.key, req.now)) && p.amount > 0
  {
    assert req.history[0].code in RedeemedSet(v, req.invitee);
    if p != Payout(FIRST_CODE_BONUS, ReferralFirst(req.invitee)) {
      var j := LaterPayoutFrom(req.history[1..], req.history[0].at + LATER_CODE_WINDOW, p);
      assert RedeemedBy(v, req.history[j + 1].code, req.invitee);
    }
  }

  lemma {:induction false} LaterPayoutFrom(codes: seq<Redeemed>, end: Time, p: Payout) returns (j: nat)
    requires p in LaterPayouts(codes, end)
    ensures j < |codes| && p == Payout(LATER_CODE_BONUS, ReferralLater(codes[j].code))
  {
    if p == LaterPayouts(codes, end)[0] {
      j := 0;
    } else {
      j := LaterPayoutFrom(codes[1..], end, p);
      j := j + 1;
    }
  }

  lemma TakeWalletKeeps(cfg: Config, l: Local, v: Db)
    requires l.pc.TakeWallet? && LocalInv(cfg, l, v)
    ensures Kept(cfg, l, v, Step(cfg, l, v))
  {
    LockKeeps(cfg, v, LockUser(l.req));
  }

  lemma AdjustRecorded(cfg: Config, l: Local, v: Db, e: Entry, next: Pc)
    requires l.req.Adjust? && l.pc.RecordAdjustment? && PcFacts(cfg, l, v) && e.user == l.req.user && next.Ready?
    requires e == Entry(l.req.user, l.req.amount, AdminAdjustment(l.req.uuid), l.req.now)
    ensures PcFacts(cfg, l.Write(Record(e), next), DoOp(v, Record(e)))
    ensures LockUser(l.req) in v.wallets && !HasKey(v.ledger, e.key) && e.amount != 0
  {
  }

  lemma AdjustStepKeeps(cfg: Config, l: Local, v: Db)
    requires l.req.Adjust? && l.Running() && !BeforeLock(l.pc) && LocalInv(cfg, l, v)
    ensures Kept(cfg, l, v, AdjustStep(l, v))
  {
    if l.pc.RecordAdjustment? {
      RecordAdjustmentKeeps(cfg, l, v);
    } else {
      assert AdjustStep(l, v) == l;
    }
  }

  lemma RecordAdjustmentKeeps(cfg: Config, l: Local, v: Db)
    requires l.req.Adjust? && l.pc.RecordAdjustment? && LocalInv(cfg, l, v)
    ensures Kept(cfg, l, v, AdjustStep(l, v))
  {
    var Adjust(u, amount, now, uuid) := l.req;
    var e, next := Entry(u, amount, AdminAdjustment(uuid), now), Ready(Adjusted(BalanceIn(v, u) + amount));
    AdjustRecorded(cfg, l, v, e, next);
    TryRecordKeeps(cfg, l, v, e, next);
  }

  lemma ServiceStepKeeps(cfg: Config, l: Local, v: Db)
    requires ValidZone(cfg.zone) && LocalInv(cfg, l, v) && l.Running() && !l.pc.TakeWallet? && !l.req.Adjust?
    ensures Kept(cfg, l, v, Step(cfg, l, v))
  {
    match l.req
    case Redeem(_, _, _, _, _) => RedeemStepKeeps(cfg, l, v);
    case Claim(_, _, _, _, _) => ClaimStepKeeps(cfg, l, v);
    case Bind(_, _) => BindStepKeeps(cfg, l, v);
    case Settle(_, _, _, _, _) => SettleStepKeeps(cfg, l, v);
  }

  /** One statement keeps the invariant, and the unique key constraint never fires. */
  lemma StepKeeps(cfg: Config, l: Local, v: Db)
    requires ValidZone(cfg.zone) && LocalInv(cfg, l, v) && !Impossible(l)
    ensures Kept(cfg, l, v, Step(cfg, l, v))
  {
    if !l.Running() {
      assert Step(cfg, l, v) == l;
    } else if l.pc.TakeWallet? {
      TakeWalletKeeps(cfg, l, v);
    } else if !l.req.Adjust? {
      ServiceStepKeeps(cfg, l, v);
    } else if BeforeLock(l.pc) {
      assert Step(cfg, l, v) == l;
    } else {
      AdjustStepKeeps(cfg, l, v);
    }
  }

  /** A step changes the transaction's view by at most the one write it makes. */
  lemma StepView(cfg: Config, l: Local, db: Db)
    ensures var n := Step(cfg, l, View(db, l));
            View(db, n) == if |n.ops| > |l.ops| then DoOp(View(db, l), n.ops[|n.ops| - 1]) else View(db, l)
  {
    var n := Step(cfg, l, View(db, l));
    StepWrites(cfg, l, View(db, l));
    if n.ops != l.ops { ApplySnoc(db, l.ops, n.ops[|n.ops| - 1]); }
  }

  /** `n` is `l` after a statement: the same request, and at most one more write. */
  ghost predicate Follows(l: Local, n: Local) {
    && n.req == l.req
    && (n.ops == l.ops || (|n.ops| == |l.ops| + 1 && n.ops == l.ops + [n.ops[|l.ops|]]))
  }

  lemma RedeemWrites(cfg: Config, l: Local, v: Db)
    requires l.req.Redeem?
    ensures Follows(l, RedeemStep(cfg, l, v))
  {
  }

  lemma ClaimWrites(cfg: Config, l: Local, v: Db)
    requires l.req.Claim?
    ensures Follows(l, ClaimStep(cfg, l, v))
  {
  }

  lemma StepWrites(cfg: Config, l: Local, v: Db)
    ensures Follows(l, Step(cfg, l, v))
  {
    match l.req
    case Redeem(_, _, _, _, _) => RedeemWrites(cfg, l, v);
    case Claim(_, _, _, _, _) => ClaimWrites(cfg, l, v);
    case _ =>
  }

  lemma InitKeeps(cfg: Config, req: Request, db: Db)
    requires Inv(cfg, db) && Admissible(db, req)
    ensures LocalInv(cfg, Init(req), db) && !Impossible(Init(req))
  {
  }

  /** A write that only ever fills an empty place. */
  ghost predicate Fresh(v: Db, op: Op) {
    && (op.MarkRedeemed? && op.code in v.codes ==> v.codes[op.code].redemption.None?)
    && (op.InsertBinding? ==> op.invitee !in v.bindings)
  }

  lemma FreshGrows(v: Db, op: Op)
    requires Fresh(v, op)
    ensures Grows(v, DoOp(v, op))
  {
  }

  /** What the last statement wrote, if it did, filled an empty place. */
  ghost predicate WroteFresh(v: Db, l: Local, n: Local) { |n.ops| > |l.ops| ==> Fresh(v, n.ops[|n.ops| - 1]) }

  lemma RedeemIsFresh(cfg: Config, l: Local, v: Db)
    requires l.req.Redeem?
    ensures WroteFresh(v, l, RedeemStep(cfg, l, v))
  {
  }

  lemma ClaimIsFresh(cfg: Config, l: Local, v: Db)
    requires l.req.Claim?
    ensures WroteFresh(v, l, ClaimStep(cfg, l, v))
  {
  }

  lemma StepIsFresh(cfg: Config, l: Local, v: Db)
    ensures WroteFresh(v, l, Step(cfg, l, v))
  {
    if l.req.Redeem? { RedeemIsFresh(cfg, l, v); }
    if l.req.Claim? { ClaimIsFresh(cfg, l, v); }
  }

  /** `v`, the view of `l`, keeps the invariant up to the open debts and has lost nothing of `db`. */
  ghost predicate Sound(cfg: Config, l: Local, db: Db, v: Db) {
    LocalInv(cfg, l, v) && !Impossible(l) && Grows(db, v)
  }

  /** A transaction that ran alone on `db` so far. */
  ghost predicate InFlight(cfg: Config, l: Local, db: Db) {
    Sound(cfg, l, db, View(db, l))
  }

  lemma WriteGrows(db: Db, v: Db, op: Op)
    requires Grows(db, v) && Fresh(v, op)
    ensures Grows(db, DoOp(v, op))
  {
    FreshGrows(v, op);
    GrowsTransitive(db, v, DoOp(v, op));
  }

  lemma LastWriteGrows(db: Db, v: Db, l: Local, n: Local)
    requires Grows(db, v) && WroteFresh(v, l, n)
    ensures Grows(db, if |n.ops| > |l.ops| then DoOp(v, n.ops[|n.ops| - 1]) else v)
  {
    if |n.ops| > |l.ops| { WriteGrows(db, v, n.ops[|n.ops| - 1]); }
  }

  lemma StepGrows(cfg: Config, l: Local, db: Db, v: Db)
    requires Grows(db, v)
    ensures var n := Step(cfg, l, v); Grows(db, if |n.ops| > |l.ops| then DoOp(v, n.ops[|n.ops| - 1]) else v)
  {
    StepIsFresh(cfg, l, v);
    LastWriteGrows(db, v, l, Step(cfg, l, v));
  }

  lemma StepStaysSound(cfg: Config, l: Local, db: Db, v: Db)
    requires ValidZone(cfg.zone) && Sound(cfg, l, db, v)
    ensures var n := Step(cfg, l, v); Sound(cfg, n, db, if |n.ops| > |l.ops| then DoOp(v, n.ops[|n.ops| - 1]) else v)
  {
    StepKeeps(cfg, l, v);
    StepGrows(cfg, l, db, v);
  }

  lemma StepStaysInFlight(cfg: Config, l: Local, db: Db)
    requires ValidZone(cfg.zone) && InFlight(cfg, l, db)
    ensures InFlight(cfg, Step(cfg, l, View(db, l)), db)
  {
    StepStaysSound(cfg, l, db, View(db, l));
    StepView(cfg, l, db);
  }

  /** However far a request has run alone, its view satisfies the invariant up to its open debts, and has lost nothing. */
  lemma TrajKeeps(cfg: Config, req: Request, db: Db, k: nat)
    requires ValidZone(cfg.zone) && Inv(cfg, db) && Admissible(db, req)
    ensures InFlight(cfg, Traj(cfg, req, db, k), db)
  {
    InitKeeps(cfg, req, db);
    var good := (l: Local) => InFlight(cfg, l, db);
    forall l | good(l) ensures good(Services(cfg)(l, View(db, l))) {
      StepStaysInFlight(cfg, l, db);
    }
    Always(Services(cfg), req, db, k, good);
  }

  /** Committing any service request keeps the invariant: coins, points, limits and bindings together. */
  lemma CommitKeepsInv(cfg: Config, req: Request, db: Db, k: nat)
    requires ValidZone(cfg.zone) && Inv(cfg, db) && Admissible(db, req)
    ensures Inv(cfg, CommitAfter(cfg, req, db, k))
    ensures !Impossible(Traj(cfg, req, db, k))
    ensures Grows(db, CommitAfter(cfg, req, db, k))
  {
    TrajKeeps(cfg, req, db, k);
  }
}
