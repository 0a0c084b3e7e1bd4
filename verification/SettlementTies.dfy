/**
 What two codes redeemed at the same first moment do to a settlement. `list_redeemed` sorts by
 the moment alone, so either code may come first, and the bonus goes to the other one.
 */
module SettlementTies {
  import opened Prelude
  import opened Tables
  import opened ReferralRules
  import opened Transactions
  import opened Economy
  import opened Interleaving
  import opened Concurrency
  import opened Guarantees
  import opened Confluence
  import opened SoloRuns

  // ------------------------------------------------------ which code is first

  /** `c` is among the earliest redemptions of `u`. */
  ghost predicate Earliest(db: Db, u: User, c: CodeId) {
    RedeemedBy(db, c, u) && forall d | RedeemedBy(db, d, u) :: RedeemedAt(db, c, u) <= RedeemedAt(db, d, u)
  }

  lemma ListedAt(db: Db, u: User, h: seq<Redeemed>, c: CodeId) returns (i: nat)
    requires IsListing(db, u, h) && RedeemedBy(db, c, u)
    ensures i < |h| && h[i].code == c && h[i].at == RedeemedAt(db, c, u)
  {
    assert c in RedeemedSet(db, u);
    i :| 0 <= i < |h| && h[i].code == c;
    assert RedeemedAt(db, h[i].code, u) == h[i].at;
  }

  lemma FirstIsEarliest(db: Db, u: User, h: seq<Redeemed>)
    requires IsListing(db, u, h) && h != []
    ensures Earliest(db, u, h[0].code) && h[0].at == RedeemedAt(db, h[0].code, u)
  {
    assert RedeemedBy(db, h[0].code, u);
    forall d | RedeemedBy(db, d, u) ensures RedeemedAt(db, h[0].code, u) <= RedeemedAt(db, d, u) {
      var i := ListedAt(db, u, h, d);
    }
  }

  /** The bonus for a code that is not first in the history, inside the window. */
  lemma OwedByListing(db: Db, u: User, h: seq<Redeemed>, c: CodeId)
    requires IsListing(db, u, h) && h != []
    ensures Payout(LATER_CODE_BONUS, ReferralLater(c)) in SettlePayouts(u, true, h) <==>
            RedeemedBy(db, c, u) && c != h[0].code && RedeemedAt(db, c, u) <= h[0].at + LATER_CODE_WINDOW
  {
    var p := Payout(LATER_CODE_BONUS, ReferralLater(c));
    PayoutsMeaning(u, h, p);
    if i: nat :| EarnsLater(h, i) && p == Payout(LATER_CODE_BONUS, ReferralLater(h[i].code)) {
      assert RedeemedBy(db, h[i].code, u) && h[0].code != h[i].code;
    }
    if RedeemedBy(db, c, u) && c != h[0].code && RedeemedAt(db, c, u) <= h[0].at + LATER_CODE_WINDOW {
      var i := ListedAt(db, u, h, c);
      assert EarnsLater(h, i);
    }
  }

  ghost predicate SamePayouts(u: User, g: seq<Redeemed>, h: seq<Redeemed>) {
    forall p :: p in SettlePayouts(u, true, g) <==> p in SettlePayouts(u, true, h)
  }

  /** Two listings of the same redemptions owe the same exactly when they start with the same code. */
  lemma FirstCodeDecides(db: Db, u: User, g: seq<Redeemed>, h: seq<Redeemed>)
    requires IsListing(db, u, g) && IsListing(db, u, h) && g != [] && h != []
    ensures SamePayouts(u, g, h) <==> g[0].code == h[0].code
  {
    FirstIsEarliest(db, u, g);
    FirstIsEarliest(db, u, h);
    OwedByListing(db, u, g, g[0].code);
    OwedByListing(db, u, h, g[0].code);
    if g[0].code == h[0].code {
      forall p ensures p in SettlePayouts(u, true, g) <==> p in SettlePayouts(u, true, h) {
        PayoutsMeaning(u, g, p);
        PayoutsMeaning(u, h, p);
        if p.key.ReferralLater? {
          OwedByListing(db, u, g, p.key.code);
          OwedByListing(db, u, h, p.key.code);
        }
      }
    }
  }

  // ------------------------------------------------------------ all listings

  lemma EarliestOf(db: Db, u: User, codes: set<CodeId>) returns (c: CodeId)
    requires codes != {} && forall d | d in codes :: RedeemedBy(db, d, u)
    ensures c in codes && forall d | d in codes :: RedeemedAt(db, c, u) <= RedeemedAt(db, d, u)
    decreases |codes|
  {
    var some :| some in codes;
    var rest := codes - {some};
    c := some;
    if rest != {} {
      var other := EarliestOf(db, u, rest);
      if RedeemedAt(db, other, u) < RedeemedAt(db, some, u) { c := other; }
    }
    forall d | d in codes ensures RedeemedAt(db, c, u) <= RedeemedAt(db, d, u) { assert d == some || d in rest; }
  }

  /** The codes of a set in a listing's order. */
  ghost predicate Lists(db: Db, u: User, codes: set<CodeId>, h: seq<Redeemed>) {
    && Ascending(h)
    && (forall i, j | 0 <= i < j < |h| :: h[i].code != h[j].code)
    && (forall i | 0 <= i < |h| :: h[i].code in codes && RedeemedBy(db, h[i].code, u) && RedeemedAt(db, h[i].code, u) == h[i].at)
    && (forall c | c in codes :: exists i :: 0 <= i < |h| && h[i].code == c)
  }

  lemma ListsMore(db: Db, u: User, codes: set<CodeId>, c: CodeId, rest: seq<Redeemed>)
    requires RedeemedBy(db, c, u) && c !in codes && Lists(db, u, codes, rest)
    requires forall d | d in codes :: RedeemedBy(db, d, u) && RedeemedAt(db, c, u) <= RedeemedAt(db, d, u)
    ensures Lists(db, u, codes + {c}, [Redeemed(c, RedeemedAt(db, c, u))] + rest)
  {
    var h := [Redeemed(c, RedeemedAt(db, c, u))] + rest;
    forall d | d in codes + {c} ensures exists i :: 0 <= i < |h| && h[i].code == d {
      if d in codes {
        var i :| 0 <= i < |rest| && rest[i].code == d;
        assert h[i + 1].code == d;
      } else {
        assert h[0].code == d;
      }
    }
  }

  lemma SomeOrder(db: Db, u: User, codes: set<CodeId>) returns (h: seq<Redeemed>)
    requires forall d | d in codes :: RedeemedBy(db, d, u)
    ensures Lists(db, u, codes, h)
    decreases |codes|
  {
    h := [];
    if codes != {} {
      var c := EarliestOf(db, u, codes);
      var rest := SomeOrder(db, u, codes - {c});
      ListsMore(db, u, codes - {c}, c, rest);
      h := [Redeemed(c, RedeemedAt(db, c, u))] + rest;
      assert codes - {c} + {c} == codes;
    }
  }

  /** Whichever of the earliest codes: some listing starts with it. */
  lemma ListingFrom(db: Db, u: User, c: CodeId) returns (h: seq<Redeemed>)
    requires Earliest(db, u, c)
    ensures IsListing(db, u, h) && h != [] && h[0].code == c
  {
    var codes := RedeemedSet(db, u);
    var rest := SomeOrder(db, u, codes - {c});
    ListsMore(db, u, codes - {c}, c, rest);
    h := [Redeemed(c, RedeemedAt(db, c, u))] + rest;
    assert codes - {c} + {c} == codes;
  }

  /** What is owed does not depend on how ties are listed exactly when the first redemption has no tie. */
  lemma NoTieNoChoice(db: Db, u: User)
    ensures (forall g, h | IsListing(db, u, g) && IsListing(db, u, h) :: SamePayouts(u, g, h)) <==> HasFirst(db.codes, u)
  {
    if HasFirst(db.codes, u) {
      forall g, h | IsListing(db, u, g) && IsListing(db, u, h) ensures SamePayouts(u, g, h) { UntiedListings(db, u, g, h); }
    } else {
      var a, b := TiedFirsts(db, u);
      var g := ListingFrom(db, u, a);
      var h := ListingFrom(db, u, b);
      FirstCodeDecides(db, u, g, h);
    }
  }

  lemma UntiedListings(db: Db, u: User, g: seq<Redeemed>, h: seq<Redeemed>)
    requires HasFirst(db.codes, u) && IsListing(db, u, g) && IsListing(db, u, h)
    ensures SamePayouts(u, g, h)
  {
    if g != [] && h != [] {
      FirstIsEarliest(db, u, g);
      FirstIsEarliest(db, u, h);
      assert Owns(db.codes, g[0].code, u) && Owns(db.codes, h[0].code, u);
      var f :| IsFirst(db.codes, u, f);
      assert RedeemedBy(db, f, u);
      assert g[0].code == f && h[0].code == f;
      FirstCodeDecides(db, u, g, h);
    } else if g != [] {
      assert RedeemedBy(db, g[0].code, u);
      var i := ListedAt(db, u, h, g[0].code);
    } else if h != [] {
      assert RedeemedBy(db, h[0].code, u);
      var i := ListedAt(db, u, g, h[0].code);
    }
  }

  /** Without one earliest redemption there are two at the same moment. */
  lemma TiedFirsts(db: Db, u: User) returns (a: CodeId, b: CodeId)
    requires !HasFirst(db.codes, u)
    ensures a != b && Earliest(db, u, a) && Earliest(db, u, b)
  {
    var x :| Owns(db.codes, x, u);
    var codes := RedeemedSet(db, u);
    assert x in codes;
    a := EarliestOf(db, u, codes);
    assert Owns(db.codes, a, u) && !IsFirst(db.codes, u, a);
    b :| Owns(db.codes, b, u) && b != a && !(db.codes[a].redemption.value.at < db.codes[b].redemption.value.at);
    assert b in codes;
    forall d | RedeemedBy(db, d, u) ensures RedeemedAt(db, a, u) <= RedeemedAt(db, d, u) { assert d in codes; }
  }

  // --------------------------------------------- two settlements after a tie

  /** What a settlement that starts now reads, when ties are listed as in `h`. */
  function SettleNow(db: Db, u: User, h: seq<Redeemed>, now: Time): Request
    requires u in db.bindings
  {
    Settle(u, now, Some(db.bindings[u]), true, h)
  }

  /** From `a` to `b` a settlement was committed: everything it owed is paid, nothing paid is lost, the history is the same. */
  ghost predicate Paid(a: Db, b: Db, req: Request)
    requires req.Settle?
  {
    && b.codes == a.codes && b.batches == a.batches && (forall i | i in a.bindings :: i in b.bindings && b.bindings[i] == a.bindings[i])
    && (forall p | p in Payouts(req) :: HasKey(b.ledger, p.key))
    && (forall k | HasKey(a.ledger, k) :: HasKey(b.ledger, k))
  }

  lemma SettlementPaid(cfg: Config, db: Db, req: Request, k: nat)
    requires ValidZone(cfg.zone) && Inv(cfg, db) && Owes(db, req) && Traj(cfg, req, db, k).pc.Ready?
    ensures Inv(cfg, CommitAfter(cfg, req, db, k)) && Paid(db, CommitAfter(cfg, req, db, k), req)
  {
    var l := Traj(cfg, req, db, k);
    OwesIsAdmissible(db, req);
    CommitKeepsInv(cfg, req, db, k);
    TrajShape(cfg, req, db, k);
    TrajSettles(cfg, req, db, k);
    TrajTransparent(cfg, req, db, k);
    forall p | p in Payouts(req) ensures HasKey(View(db, l).ledger, p.key) {
      var j :| 0 <= j < |Payouts(req)| && Payouts(req)[j] == p;
    }
    forall key | HasKey(db.ledger, key) ensures HasKey(View(db, l).ledger, key) { OldKeysStay(db, l.ops, key); }
    NoBatchWritten(db, l.ops);
  }

  lemma OldKeysStay(db: Db, ops: seq<Op>, k: Key)
    requires HasKey(db.ledger, k)
    ensures HasKey(Apply(db, ops).ledger, k)
  {
    var i :| 0 <= i < |db.ledger| && db.ledger[i].key == k;
    OldEntriesStay(db, ops, db.ledger[i]);
    var j :| 0 <= j < |Apply(db, ops).ledger| && Apply(db, ops).ledger[j] == db.ledger[i];
  }

  lemma {:induction false} NoBatchWritten(db: Db, ops: seq<Op>)
    ensures Apply(db, ops).batches == db.batches
  {
    if ops != [] { NoBatchWritten(db, ops[..|ops| - 1]); }
  }

  /** A settlement, run alone. */
  lemma SettleOnce(cfg: Config, s: State, t: nat, u: User, h: seq<Redeemed>, now: Time) returns (r: Trace, n: State)
    requires ValidZone(cfg.zone) && Inv(cfg, s.db) && s.active == map[] && u in s.db.bindings && IsListing(s.db, u, h) && h != []
    ensures From(cfg, s, r, n) && n.active == map[] && Inv(cfg, n.db) && Paid(s.db, n.db, SettleNow(s.db, u, h, now))
  {
    var req := SettleNow(s.db, u, h, now);
    var k := SettlesAlone(cfg, req, s.db);
    r := RunAlone(cfg, s, t, req, k);
    n := Left(cfg, s, req, k);
    SettlementPaid(cfg, s.db, req, k);
  }

  function AdminUuids(ledger: seq<Entry>): set<nat> {
    if ledger == [] then {}
    else
      var key := ledger[|ledger| - 1].key;
      AdminUuids(ledger[..|ledger| - 1]) + if key.AdminAdjustment? then {key.uuid} else {}
  }

  lemma {:induction false} UuidsCover(ledger: seq<Entry>, k: Key)
    requires k.AdminAdjustment? && HasKey(ledger, k)
    ensures k.uuid in AdminUuids(ledger)
  {
    var i :| 0 <= i < |ledger| && ledger[i].key == k;
    var n := |ledger| - 1;
    if i < n {
      assert ledger[..n][i].key == k;
      UuidsCover(ledger[..n], k);
    }
  }

  lemma Beginning(db: Db) returns (s: State)
    ensures Begins(db, s)
  {
    s := State(db, map[], [], AdminUuids(db.ledger));
    forall k: Key | k.AdminAdjustment? && HasKey(db.ledger, k) ensures k.uuid in s.uuids { UuidsCover(db.ledger, k); }
  }

  /** `c` has its later-code bonus in the ledger, although `h` puts it first and owes it none. */
  ghost predicate PaidThoughFirst(db: Db, u: User, h: seq<Redeemed>, c: CodeId) {
    && IsListing(db, u, h) && h != [] && h[0].code == c && HasKey(db.ledger, ReferralLater(c))
    && Payout(LATER_CODE_BONUS, ReferralLater(c)) !in SettlePayouts(u, true, h)
  }

  /** Two settlements, one after the other, on listings that put either of two tied codes first. */
  lemma SettleBoth(cfg: Config, s: State, u: User, a: CodeId, b: CodeId, now: Time, later: Time)
    returns (r: Trace, n: State, g: seq<Redeemed>, h: seq<Redeemed>)
    requires ValidZone(cfg.zone) && Inv(cfg, s.db) && s.active == map[]
    requires u in s.db.bindings && a != b && Earliest(s.db, u, a) && Earliest(s.db, u, b)
    ensures From(cfg, s, r, n) && PaidThoughFirst(n.db, u, g, a) && PaidThoughFirst(n.db, u, h, b)
  {
    g := ListingFrom(s.db, u, a);
    h := ListingFrom(s.db, u, b);
    FirstIsEarliest(s.db, u, g);
    FirstIsEarliest(s.db, u, h);
    OwedByListing(s.db, u, g, a);
    OwedByListing(s.db, u, g, b);
    OwedByListing(s.db, u, h, a);
    OwedByListing(s.db, u, h, b);
    var m, rest;
    r, m := SettleOnce(cfg, s, 0, u, g, now);
    ListingMoves(s.db, m.db, u, g);
    ListingMoves(s.db, m.db, u, h);
    rest, n := SettleOnce(cfg, m, 0, u, h, later);
    ListingMoves(m.db, n.db, u, g);
    ListingMoves(m.db, n.db, u, h);
    r := Joined(Steps(cfg), r, rest);
  }

  /**
   Whenever two codes tie for the first redemption of a bound invitee, there is an execution of two settlements
   of this invitee, one after the other and nothing else, that pays the later-code bonus for both of the two.
   */
  lemma TiesPayBoth(cfg: Config, db: Db, u: User, a: CodeId, b: CodeId, now: Time, later: Time) returns (r: Trace, g: seq<Redeemed>, h: seq<Redeemed>)
    requires ValidZone(cfg.zone) && Inv(cfg, db) && u in db.bindings && a != b && Earliest(db, u, a) && Earliest(db, u, b)
    ensures Execution(cfg, db, r.states, r.actions)
    ensures var last := r.states[|r.actions|].db; PaidThoughFirst(last, u, g, a) && PaidThoughFirst(last, u, h, b)
  {
    var s := Beginning(db);
    var n;
    r, n, g, h := SettleBoth(cfg, s, u, a, b, now, later);
    FromIsExecution(cfg, db, s, r, n);
  }

  // ------------------------------------------------ a redemption that comes late

  /** A redemption stamped so early that a code of the history falls out of the window it opens. */
  ghost predicate ComesLate(cfg: Config, db: Db, u: User, h: seq<Redeemed>, i: nat, req: Request) {
    && Redeemable(cfg, db, req) && req.user == u && EarnsLater(h, i) && req.now + LATER_CODE_WINDOW < h[i].at
  }

  lemma RedeemOnce(cfg: Config, s: State, t: nat, req: Request) returns (r: Trace, n: State)
    requires ValidZone(cfg.zone) && Inv(cfg, s.db) && s.active == map[] && Redeemable(cfg, s.db, req)
    ensures From(cfg, s, r, n) && n.active == map[] && Inv(cfg, n.db) && Grows(s.db, n.db) && n.db.batches == s.db.batches
    ensures n.db.codes == Confluence.Claim(s.db.codes, req.code, req.user, req.now)
    ensures forall k | HasKey(s.db.ledger, k) :: HasKey(n.db.ledger, k)
  {
    var k := RedeemsAlone(cfg, req, s.db);
    var l := Traj(cfg, req, s.db, k);
    TrajShape(cfg, req, s.db, k);
    TrajTransparent(cfg, req, s.db, k);
    CommitKeepsInv(cfg, req, s.db, k);
    r := RunAlone(cfg, s, t, req, k);
    n := Left(cfg, s, req, k);
    NoBatchWritten(s.db, l.ops);
    forall key | HasKey(s.db.ledger, key) ensures HasKey(n.db.ledger, key) { OldKeysStay(s.db, l.ops, key); }
  }

  /** After it, no listing owes that code its bonus. */
  lemma NoLongerOwed(cfg: Config, db: Db, after: Db, u: User, h: seq<Redeemed>, i: nat, req: Request, g: seq<Redeemed>)
    requires IsListing(db, u, h) && ComesLate(cfg, db, u, h, i, req)
    requires after.codes == Confluence.Claim(db.codes, req.code, u, req.now) && IsListing(after, u, g)
    ensures g != [] && Payout(LATER_CODE_BONUS, ReferralLater(h[i].code)) !in SettlePayouts(u, true, g)
  {
    assert RedeemedBy(db, h[i].code, u) && RedeemedAt(db, h[i].code, u) == h[i].at;
    assert RedeemedBy(after, req.code, u) && RedeemedAt(after, req.code, u) == req.now;
    assert RedeemedBy(after, h[i].code, u) && RedeemedAt(after, h[i].code, u) == h[i].at;
    var j := ListedAt(after, u, g, req.code);
    FirstIsEarliest(after, u, g);
    OwedByListing(after, u, g, h[i].code);
  }

  /**
   A settlement, and then a redemption that commits with an early clock reading: the execution leaves a bonus paid
   that no listing of the redemptions owes any more.
   */
  lemma LateRedemptionOverpays(cfg: Config, db: Db, u: User, h: seq<Redeemed>, i: nat, req: Request, now: Time) returns (r: Trace)
    requires ValidZone(cfg.zone) && Inv(cfg, db) && u in db.bindings && IsListing(db, u, h) && ComesLate(cfg, db, u, h, i, req)
    ensures Execution(cfg, db, r.states, r.actions)
    ensures var last := r.states[|r.actions|].db;
            && HasKey(last.ledger, ReferralLater(h[i].code))
            && forall g | IsListing(last, u, g) :: Payout(LATER_CODE_BONUS, ReferralLater(h[i].code)) !in SettlePayouts(u, true, g)
  {
    var s := Beginning(db);
    var m, n, rest;
    r, m := SettleOnce(cfg, s, 0, u, h, now);
    PayoutsMeaning(u, h, Payout(LATER_CODE_BONUS, ReferralLater(h[i].code)));
    ListingMoves(db, m.db, u, h);
    assert RedeemedSet(m.db, req.user) == RedeemedSet(db, req.user);
    rest, n := RedeemOnce(cfg, m, 0, req);
    forall g | IsListing(n.db, u, g) ensures Payout(LATER_CODE_BONUS, ReferralLater(h[i].code)) !in SettlePayouts(u, true, g) {
      NoLongerOwed(cfg, m.db, n.db, u, h, i, req, g);
    }
    r := Joined(Steps(cfg), r, rest);
    FromIsExecution(cfg, db, s, r, n);
  }

  // ------------------------------------------------------- a tie from nothing

  lemma StaffOnce(cfg: Config, s: State, e: Event) returns (r: Trace, n: State)
    requires StaffCan(s.db, e)
    ensures n == s.(db := Effect(cfg, s.db, e), log := s.log + [e]) && From(cfg, s, r, n)
  {
    n := s.(db := Effect(cfg, s.db, e), log := s.log + [e]);
    assert Steps(cfg)(s, Staff(e), n);
    OneStep(Steps(cfg), s, Staff(e), n);
    r := Trace([s, n], [Staff(e)]);
  }

  const NOTHING := State(EmptyDb, map[], [], {})
  const FREE := CodeRow(Paris, 0, None)

  /** Staff add a batch with the codes 1 and 2, and activate it. */
  lemma TwoCodes(cfg: Config) returns (r: Trace, n: State)
    ensures From(cfg, NOTHING, r, n) && n.active == map[] && n.uuids == {}
    ensures n.db == EmptyDb.(codes := map[1 := FREE, 2 := FREE], batches := map[0 := Batch(0, Active)])
  {
    var s, q;
    r, s := StaffOnce(cfg, NOTHING, NewBatch(0, 0));
    q, n := StaffOnce(cfg, s, NewCode(1, Paris, 0));
    r := Joined(Steps(cfg), r, q);
    q, s := StaffOnce(cfg, n, NewCode(2, Paris, 0));
    r := Joined(Steps(cfg), r, q);
    q, n := StaffOnce(cfg, s, SetStatus(0, Active));
    r := Joined(Steps(cfg), r, q);
    assert n.db.codes == map[1 := FREE, 2 := FREE] && n.db.batches == map[0 := Batch(0, Active)];
  }

  lemma ReachedInv(cfg: Config, r: Trace, n: State)
    requires ValidZone(cfg.zone) && From(cfg, NOTHING, r, n)
    ensures Inv(cfg, n.db)
  {
    EmptyInv(cfg);
    FromIsExecution(cfg, EmptyDb, NOTHING, r, n);
    AlwaysSafe(cfg, EmptyDb, r.states, r.actions, |r.actions|);
  }

  /** Then the player 9 is bound to the inviter 8. */
  lemma TwoCodesAndABinding(cfg: Config) returns (r: Trace, n: State)
    requires ValidZone(cfg.zone)
    ensures From(cfg, NOTHING, r, n) && n.active == map[] && Inv(cfg, n.db)
    ensures n.db.codes == map[1 := FREE, 2 := FREE] && n.db.batches == map[0 := Batch(0, Active)] && n.db.bindings == map[9 := 8]
  {
    var s, req := NOTHING, Bind(9, Some(8));
    r, s := TwoCodes(cfg);
    BindsAlone(cfg, req, s.db);
    var q := RunAlone(cfg, s, 0, req, 4);
    n := Left(cfg, s, req, 4);
    r := Joined(Steps(cfg), r, q);
    ReachedInv(cfg, r, n);
  }

  /** Then 9 redeems both codes, in two calls that read the same clock. */
  lemma TieFromNothing(cfg: Config) returns (r: Trace, n: State)
    requires ValidZone(cfg.zone) && cfg.dailyLimit >= 2
    ensures From(cfg, NOTHING, r, n) && n.active == map[] && Inv(cfg, n.db)
    ensures 9 in n.db.bindings && Earliest(n.db, 9, 1) && Earliest(n.db, 9, 2)
  {
    var s, m, q;
    r, s := TwoCodesAndABinding(cfg);
    assert RedeemedSet(s.db, 9) == {};
    q, m := RedeemOnce(cfg, s, 0, Redeem(9, 1, 0, true, None));
    r := Joined(Steps(cfg), r, q);
    assert RedeemedSet(m.db, 9) == {1};
    q, n := RedeemOnce(cfg, m, 0, Redeem(9, 2, 0, true, None));
    r := Joined(Steps(cfg), r, q);
  }

  /** An execution from empty tables that pays the later-code bonus for both of two tied codes. */
  lemma BothPaidFromNothing(cfg: Config, now: Time, later: Time) returns (r: Trace, g: seq<Redeemed>, h: seq<Redeemed>)
    requires ValidZone(cfg.zone) && cfg.dailyLimit >= 2
    ensures Execution(cfg, EmptyDb, r.states, r.actions)
    ensures var last := r.states[|r.actions|].db; PaidThoughFirst(last, 9, g, 1) && PaidThoughFirst(last, 9, h, 2)
  {
    var s, n, q;
    r, s := TieFromNothing(cfg);
    q, n, g, h := SettleBoth(cfg, s, 9, 1, 2, now, later);
    r := Joined(Steps(cfg), r, q);
    FromIsExecution(cfg, EmptyDb, NOTHING, r, n);
  }
}
