/**
 Referral settlement: however often and whenever it runs, also twice at once and on a stale
 history, each payout reaches the inviter once. A settlement on a current history has paid all
 that this history owes, and `SettlementPays` says exactly when nothing beyond it was paid.

 That is always so while `Timely` holds: no redemption commits with a clock reading at or before
 the user's earliest one. `SettlementTies` shows what happens to ties and to late redemptions.
 */
module Confluence {
  import opened Prelude
  import opened Tables
  import opened ReferralRules
  import opened Transactions
  import opened Economy
  import opened Interleaving
  import opened Concurrency
  import opened Guarantees

  /** `f` is the earliest redemption of `u`, with nothing else at the same moment. */
  ghost predicate IsFirst(codes: map<CodeId, CodeRow>, u: User, f: CodeId) {
    && Owns(codes, f, u)
    && forall c | Owns(codes, c, u) && c != f ::
         codes[f].redemption.value.at < codes[c].redemption.value.at
  }

  ghost predicate Owns(codes: map<CodeId, CodeRow>, c: CodeId, u: User) {
    c in codes && codes[c].redemption.Some? && codes[c].redemption.value.user == u
  }

  ghost predicate HasFirst(codes: map<CodeId, CodeRow>, u: User) {
    (exists x :: Owns(codes, x, u)) ==> exists f :: IsFirst(codes, u, f)
  }

  ghost predicate FirstsExist(codes: map<CodeId, CodeRow>) {
    forall u: User :: HasFirst(codes, u)
  }

  /** `c` is a later redemption of its user, inside the window that the first one opened. */
  ghost predicate InWindow(codes: map<CodeId, CodeRow>, c: CodeId) {
    && c in codes && codes[c].redemption.Some?
    && exists f :: IsFirst(codes, codes[c].redemption.value.user, f) && f != c
         && codes[c].redemption.value.at <= codes[f].redemption.value.at + LATER_CODE_WINDOW
  }

  /** Every later-code bonus in the ledger is owed by the redemptions in the tables. */
  ghost predicate LatersOwed(db: Db) {
    forall i | 0 <= i < |db.ledger| && db.ledger[i].key.ReferralLater? :: InWindow(db.codes, db.ledger[i].key.code)
  }

  ghost predicate Timely(db: Db, req: Request) {
    req.Redeem? && RedeemedSet(db, req.user) != {} ==>
      exists c :: c in RedeemedSet(db, req.user) && RedeemedAt(db, c, req.user) < req.now
  }

  /** The history a settlement has read starts with its invitee's first redemption, now as then. */
  ghost predicate HistoryStarts(codes: map<CodeId, CodeRow>, l: Local) {
    l.req.Settle? && !l.pc.Failed? && !l.pc.ReadBinding? && !l.pc.ReadMission? && !l.pc.ReadHistory? && l.req.history != [] ==>
      && Ascending(l.req.history)
      && (forall i, j | 0 <= i < j < |l.req.history| :: l.req.history[i].code != l.req.history[j].code)
      && IsFirst(codes, l.req.invitee, l.req.history[0].code)
  }

  ghost predicate ReferralsSafe(s: State) {
    && FirstsExist(s.db.codes) && LatersOwed(s.db)
    && forall t | t in s.active :: HistoryStarts(s.db.codes, s.active[t].local)
  }

  // ----------------------------------------------------- first redemptions

  function Claim(codes: map<CodeId, CodeRow>, c: CodeId, u: User, now: Time): map<CodeId, CodeRow>
    requires c in codes
  {
    codes[c := codes[c].(redemption := Some(Redemption(u, now)))]
  }

  /** A timely claim comes after some earlier redemption of the same user, unless it is the very first. */
  ghost predicate InTime(codes: map<CodeId, CodeRow>, u: User, now: Time) {
    (exists x :: Owns(codes, x, u)) ==> exists x :: Owns(codes, x, u) && codes[x].redemption.value.at < now
  }

  lemma ClaimKeepsFirst(codes: map<CodeId, CodeRow>, c: CodeId, u: User, now: Time, w: User, f: CodeId)
    requires c in codes && codes[c].redemption.None? && InTime(codes, u, now) && IsFirst(codes, w, f)
    ensures IsFirst(Claim(codes, c, u, now), w, f)
  {
    if w == u {
      assert Owns(codes, f, u);
      var x :| Owns(codes, x, u) && codes[x].redemption.value.at < now;
      assert x == f || codes[f].redemption.value.at < codes[x].redemption.value.at;
    }
  }

  lemma ClaimKeepsHasFirst(codes: map<CodeId, CodeRow>, c: CodeId, u: User, now: Time, w: User)
    requires c in codes && codes[c].redemption.None? && InTime(codes, u, now) && HasFirst(codes, w)
    ensures HasFirst(Claim(codes, c, u, now), w)
  {
    var after := Claim(codes, c, u, now);
    if y :| Owns(codes, y, w) {
      var f :| IsFirst(codes, w, f);
      ClaimKeepsFirst(codes, c, u, now, w, f);
    } else if x :| Owns(after, x, w) {
      forall z | Owns(after, z, w) ensures z == c { assert !Owns(codes, z, w); }
      assert IsFirst(after, w, c);
    }
  }

  lemma ClaimKeepsWindow(codes: map<CodeId, CodeRow>, c: CodeId, u: User, now: Time, x: CodeId)
    requires c in codes && codes[c].redemption.None? && InTime(codes, u, now) && InWindow(codes, x)
    ensures InWindow(Claim(codes, c, u, now), x)
  {
    var w := codes[x].redemption.value.user;
    var f :| IsFirst(codes, w, f) && f != x
             && codes[x].redemption.value.at <= codes[f].redemption.value.at + LATER_CODE_WINDOW;
    ClaimKeepsFirst(codes, c, u, now, w, f);
  }

  // ------------------------------------------------ what a settlement pays

  /** A settlement records nothing but payouts it computed. */
  ghost predicate RecordsPayouts(l: Local) {
    l.req.Settle? ==>
      forall i | 0 <= i < |l.ops| && l.ops[i].Record? ::
        Payout(l.ops[i].entry.amount, l.ops[i].entry.key) in Payouts(l.req)
  }

  /** The payouts before the loop index are in the ledger; at the end all of them are. */
  ghost predicate PaidSoFar(l: Local, v: Db) {
    l.req.Settle? ==>
      && (l.pc.TakeWallet? || l.pc.CheckPaid? || l.pc.PayReferral? || l.pc.Ready? ==> Payouts(l.req) != [])
      && (l.pc.CheckPaid? || l.pc.PayReferral? ==>
            forall j | 0 <= j < l.pc.i && j < |Payouts(l.req)| :: HasKey(v.ledger, Payouts(l.req)[j].key))
      && (l.pc.Ready? ==> forall j | 0 <= j < |Payouts(l.req)| :: HasKey(v.ledger, Payouts(l.req)[j].key))
  }

  lemma SettleStepPays(l: Local, v: Db)
    requires l.req.Settle? && l.Running() && !BeforeLock(l.pc) && PaidSoFar(l, v) && RecordsPayouts(l)
    ensures var n := SettleStep(l, v);
            RecordsPayouts(n) && PaidSoFar(n, if |n.ops| > |l.ops| then DoOp(v, n.ops[|n.ops| - 1]) else v)
  {
    var n := SettleStep(l, v);
    if |n.ops| > |l.ops| {
      var e := n.ops[|l.ops|].entry;
      forall j | 0 <= j < |Payouts(l.req)| && (j < l.pc.i || j == l.pc.i)
        ensures HasKey(DoOp(v, Record(e)).ledger, Payouts(l.req)[j].key)
      {
        HasKeyGrows(v.ledger, e, Payouts(l.req)[j].key);
      }
    }
  }

  ghost predicate Settling(db: Db, l: Local) {
    RecordsPayouts(l) && PaidSoFar(l, View(db, l))
  }

  lemma StepSettles(cfg: Config, db: Db, l: Local)
    requires Settling(db, l) && l.req.Settle?
    ensures Settling(db, Step(cfg, l, View(db, l)))
  {
    var v := View(db, l);
    StepView(cfg, l, db);
    if l.Running() && !BeforeLock(l.pc) { SettleStepPays(l, v); }
  }

  lemma TrajSettles(cfg: Config, req: Request, db: Db, k: nat)
    requires req.Settle?
    ensures Settling(db, Traj(cfg, req, db, k))
  {
    InitShape(req);
    var good := (l: Local) => ShapedFor(req, l) && Settling(db, l);
    forall l | good(l) ensures good(Services(cfg)(l, View(db, l))) {
      StepShaped(cfg, req, l, View(db, l));
      StepSettles(cfg, db, l);
    }
    Always(Services(cfg), req, db, k, good);
  }

  lemma {:induction false} EntryFrom(db: Db, ops: seq<Op>, e: Entry)
    requires e in Apply(db, ops).ledger
    ensures e in db.ledger || Record(e) in ops
  {
    if ops != [] {
      var n := |ops| - 1;
      if e in Apply(db, ops[..n]).ledger {
        EntryFrom(db, ops[..n], e);
      } else {
        assert ops[n] == Record(e);
      }
    }
  }

  // ------------------------------------------------------- every execution

  /** The codes that a commit leaves behind. */
  lemma CommitClaims(cfg: Config, s: State, t: nat, n: State)
    requires Safe(cfg, s) && Next(cfg, s, Commit(t), n) && Timely(s.db, s.active[t].local.req)
    ensures var req := s.active[t].local.req;
            if req.Redeem?
            then && req.code in s.db.codes && s.db.codes[req.code].redemption.None?
                 && InTime(s.db.codes, req.user, req.now)
                 && n.db.codes == Claim(s.db.codes, req.code, req.user, req.now)
            else n.db.codes == s.db.codes
  {
    var Txn(l, k) := s.active[t];
    TrajShape(cfg, l.req, s.db, k);
    TrajClaimsFree(cfg, l.req, s.db, k);
    TrajTransparent(cfg, l.req, s.db, k);
    if l.req.Redeem? {
      if x :| Owns(s.db.codes, x, l.req.user) { assert x in RedeemedSet(s.db, l.req.user); }
      if RedeemedSet(s.db, l.req.user) != {} {
        var y :| y in RedeemedSet(s.db, l.req.user) && RedeemedAt(s.db, y, l.req.user) < l.req.now;
        assert Owns(s.db.codes, y, l.req.user);
      }
    }
  }

  lemma HistoryKept(codes: map<CodeId, CodeRow>, c: CodeId, u: User, now: Time, l: Local)
    requires c in codes && codes[c].redemption.None? && InTime(codes, u, now) && HistoryStarts(codes, l)
    ensures HistoryStarts(Claim(codes, c, u, now), l)
  {
    if l.req.Settle? && l.req.history != [] && IsFirst(codes, l.req.invitee, l.req.history[0].code) {
      ClaimKeepsFirst(codes, c, u, now, l.req.invitee, l.req.history[0].code);
    }
  }

  /** A later-code payout names a code inside its invitee's window. */
  lemma PayoutInWindow(db: Db, l: Local, p: Payout)
    requires l.req.Settle? && !BeforeLock(l.pc) && !l.pc.Failed? && HistoryStarts(db.codes, l) && SettleFacts(db, l.req)
    requires p in Payouts(l.req) && p.key.ReferralLater?
    ensures InWindow(db.codes, p.key.code)
  {
    var h := l.req.history;
    var j := LaterPayoutFrom(h[1..], h[0].at + LATER_CODE_WINDOW, p);
    PayoutsMeaning(l.req.invitee, h, p);
    var i: nat :| EarnsLater(h, i) && p == Payout(LATER_CODE_BONUS, ReferralLater(h[i].code));
    assert RedeemedBy(db, h[i].code, l.req.invitee) && RedeemedBy(db, h[0].code, l.req.invitee);
    assert h[0].code != h[i].code;
  }

  lemma RedeemCommitKeepsReferrals(cfg: Config, s: State, t: nat, n: State)
    requires ValidZone(cfg.zone) && Safe(cfg, s) && Next(cfg, s, Commit(t), n) && s.active[t].local.req.Redeem?
    requires Timely(s.db, s.active[t].local.req) && ReferralsSafe(s)
    ensures ReferralsSafe(n)
  {
    var Txn(l, k) := s.active[t];
    var req := l.req;
    CommitClaims(cfg, s, t, n);
    forall u: User ensures HasFirst(n.db.codes, u) {
      ClaimKeepsHasFirst(s.db.codes, req.code, req.user, req.now, u);
    }
    forall o | o in n.active ensures HistoryStarts(n.db.codes, n.active[o].local) {
      HistoryKept(s.db.codes, req.code, req.user, req.now, s.active[o].local);
    }
    TrajShape(cfg, req, s.db, k);
    forall i | 0 <= i < |n.db.ledger| && n.db.ledger[i].key.ReferralLater? ensures InWindow(n.db.codes, n.db.ledger[i].key.code) {
      var e := n.db.ledger[i];
      OwnEntryOrOld(s.db, l, e);
      var j :| 0 <= j < |s.db.ledger| && s.db.ledger[j] == e;
      ClaimKeepsWindow(s.db.codes, req.code, req.user, req.now, e.key.code);
    }
  }

  /** A commit adds entries only under the transaction's own keys. */
  lemma OwnEntryOrOld(db: Db, l: Local, e: Entry)
    requires Shape(l) && e in View(db, l).ledger
    ensures e in db.ledger || (OwnKey(l, e.key) && Record(e) in l.ops)
  {
    EntryFrom(db, l.ops, e);
    if Record(e) in l.ops {
      var i :| 0 <= i < |l.ops| && l.ops[i] == Record(e);
      assert OpOk(l, l.ops[i]);
    }
  }

  lemma OtherCommitKeepsReferrals(cfg: Config, s: State, t: nat, n: State)
    requires ValidZone(cfg.zone) && Safe(cfg, s) && Next(cfg, s, Commit(t), n) && !s.active[t].local.req.Redeem?
    requires ReferralsSafe(s)
    ensures ReferralsSafe(n)
  {
    var Txn(l, k) := s.active[t];
    CommitClaims(cfg, s, t, n);
    TrajShape(cfg, l.req, s.db, k);
    if l.req.Settle? {
      TrajSettles(cfg, l.req, s.db, k);
      AliveIsAdmissible(cfg, s, t);
    }
    forall i | 0 <= i < |n.db.ledger| && n.db.ledger[i].key.ReferralLater? ensures InWindow(n.db.codes, n.db.ledger[i].key.code) {
      var e := n.db.ledger[i];
      OwnEntryOrOld(s.db, l, e);
      if e !in s.db.ledger {
        var j :| 0 <= j < |l.ops| && l.ops[j] == Record(e);
        PayoutInWindow(s.db, l, Payout(e.amount, e.key));
      }
    }
  }

  lemma StaffKeepsReferrals(cfg: Config, s: State, e: Event, n: State)
    requires Next(cfg, s, Staff(e), n) && ReferralsSafe(s)
    ensures ReferralsSafe(n)
  {
    var a, b := s.db.codes, n.db.codes;
    forall c, u: User ensures Owns(a, c, u) <==> Owns(b, c, u) {}
    forall u: User, f ensures IsFirst(a, u, f) <==> IsFirst(b, u, f) {}
    forall u: User ensures HasFirst(b, u) {
      assert HasFirst(a, u);
      if x :| Owns(b, x, u) { assert Owns(a, x, u); var f :| IsFirst(a, u, f); assert IsFirst(b, u, f); }
    }
    forall i | 0 <= i < |n.db.ledger| && n.db.ledger[i].key.ReferralLater? ensures InWindow(b, n.db.ledger[i].key.code) {
      var c := s.db.ledger[i].key.code;
      assert InWindow(a, c);
      var f :| IsFirst(a, a[c].redemption.value.user, f) && f != c
               && a[c].redemption.value.at <= a[f].redemption.value.at + LATER_CODE_WINDOW;
      assert IsFirst(b, b[c].redemption.value.user, f);
    }
  }

  /** The history is read in one statement, from the committed tables. */
  lemma ReadKeepsReferrals(cfg: Config, s: State, t: nat, n: State)
    requires Next(cfg, s, Statement(t), n) && ReferralsSafe(s)
    ensures ReferralsSafe(n)
  {
    var Txn(l, k) := s.active[t];
    StepWrites(cfg, l, View(s.db, l));
    FailedStays(cfg, l, View(s.db, l));
    if l.req.Settle? && l.pc.ReadHistory? && l.req.history != [] {
      ListingStarts(s.db, l.req.invitee, l.req.history);
    }
    assert HistoryStarts(s.db.codes, n.active[t].local);
    forall o | o in n.active ensures HistoryStarts(n.db.codes, n.active[o].local) {
      if o != t { assert n.active[o] == s.active[o]; }
    }
  }

  lemma ListingStarts(db: Db, u: User, h: seq<Redeemed>)
    requires IsListing(db, u, h) && h != [] && FirstsExist(db.codes)
    ensures IsFirst(db.codes, u, h[0].code)
  {
    assert RedeemedBy(db, h[0].code, u) && Owns(db.codes, h[0].code, u);
    assert HasFirst(db.codes, u);
    var f :| IsFirst(db.codes, u, f);
    assert f in RedeemedSet(db, u);
    var i :| 0 <= i < |h| && h[i].code == f;
    assert RedeemedAt(db, f, u) == h[i].at;
  }

  lemma NextKeepsReferrals(cfg: Config, s: State, a: Action, n: State)
    requires ValidZone(cfg.zone) && Safe(cfg, s) && Next(cfg, s, a, n) && ReferralsSafe(s)
    requires a.Commit? ==> Timely(s.db, s.active[a.t].local.req)
    ensures ReferralsSafe(n)
  {
    match a
    case Begin(t, req) => BeginKeepsReferrals(cfg, s, a, n);
    case Statement(t) => ReadKeepsReferrals(cfg, s, t, n);
    case Commit(t) =>
      if s.active[t].local.req.Redeem? { RedeemCommitKeepsReferrals(cfg, s, t, n); } else { OtherCommitKeepsReferrals(cfg, s, t, n); }
    case Rollback(t) => assert forall o | o in n.active :: o in s.active && n.active[o] == s.active[o];
    case Staff(e) => StaffKeepsReferrals(cfg, s, e, n);
  }

  lemma BeginKeepsReferrals(cfg: Config, s: State, a: Action, n: State)
    requires a.Begin? && Next(cfg, s, a, n) && ReferralsSafe(s)
    ensures ReferralsSafe(n)
  {
    forall o | o in n.active ensures HistoryStarts(n.db.codes, n.active[o].local) {
      if o != a.t { assert n.active[o] == s.active[o]; }
    }
  }

  /** Every redemption that commits before step `i` is timely. */
  ghost predicate TimelyUntil(states: seq<State>, actions: seq<Action>, i: nat)
    requires |states| == |actions| + 1 && i <= |actions|
  {
    forall j | 0 <= j < i && actions[j].Commit? && actions[j].t in states[j].active ::
      Timely(states[j].db, states[j].active[actions[j].t].local.req)
  }

  lemma {:induction false} AlwaysReferralsSafe(cfg: Config, first: Db, states: seq<State>, actions: seq<Action>, i: nat)
    requires ValidZone(cfg.zone) && Inv(cfg, first) && Execution(cfg, first, states, actions) && i < |states|
    requires FirstsExist(first.codes) && LatersOwed(first) && TimelyUntil(states, actions, i)
    ensures ReferralsSafe(states[i])
  {
    if i > 0 {
      AlwaysReferralsSafe(cfg, first, states, actions, i - 1);
      AlwaysSafe(cfg, first, states, actions, i - 1);
      assert Next(cfg, states[i - 1], actions[i - 1], states[i]);
      NextKeepsReferrals(cfg, states[i - 1], actions[i - 1], states[i]);
    }
  }

  // -------------------------------------------------------- the main result

  ghost predicate About(db: Db, invitee: User, k: Key) {
    k == ReferralFirst(invitee) || (k.ReferralLater? && RedeemedBy(db, k.code, invitee))
  }

  /** `p` stands in the ledger, once, in the inviter's name. */
  ghost predicate PaidOnce(db: Db, inviter: User, p: Payout) {
    exists i :: 0 <= i < |db.ledger| && db.ledger[i].key == p.key && db.ledger[i].amount == p.amount && db.ledger[i].user == inviter
      && forall j | 0 <= j < |db.ledger| && db.ledger[j].key == p.key :: j == i
  }

  lemma ListingMoves(a: Db, b: Db, u: User, h: seq<Redeemed>)
    requires IsListing(a, u, h) && a.codes == b.codes
    ensures IsListing(b, u, h)
  {
    forall i | 0 <= i < |h| ensures RedeemedBy(b, h[i].code, u) && RedeemedAt(b, h[i].code, u) == h[i].at {
      assert RedeemedBy(a, h[i].code, u);
    }
    assert RedeemedSet(a, u) == RedeemedSet(b, u);
  }

  lemma OwedIsPaid(cfg: Config, db: Db, req: Request, p: Payout)
    requires Inv(cfg, db) && req.Settle? && SettleFacts(db, req) && p in Payouts(req) && HasKey(db.ledger, p.key)
    ensures PaidOnce(db, req.binding.value, p) && About(db, req.invitee, p.key)
  {
    PayoutBacked(db, req, p);
    var i :| 0 <= i < |db.ledger| && db.ledger[i].key == p.key;
    assert EntryOk(db, db.ledger[i]);
    assert EntryOk(db, Entry(req.binding.value, p.amount, p.key, req.now));
    if p.key.ReferralLater? {
      var j := LaterPayoutFrom(req.history[1..], req.history[0].at + LATER_CODE_WINDOW, p);
      assert RedeemedBy(db, req.history[j + 1].code, req.invitee);
    } else {
      var h := req.history;
      if p != Payout(FIRST_CODE_BONUS, ReferralFirst(req.invitee)) {
        var j := LaterPayoutFrom(h[1..], h[0].at + LATER_CODE_WINDOW, p);
      }
    }
  }

  /** The tables right after a settlement commits: everything its history owes is in. */
  ghost predicate Settled(db: Db, req: Request) {
    && req.Settle? && req.mission && req.history != [] && SettleFacts(db, req) && IsListing(db, req.invitee, req.history)
    && forall j | 0 <= j < |Payouts(req)| :: HasKey(db.ledger, Payouts(req)[j].key)
  }

  lemma SettleCommits(cfg: Config, s: State, t: nat, n: State)
    requires ValidZone(cfg.zone) && Safe(cfg, s) && Next(cfg, s, Commit(t), n)
    requires s.active[t].local.req.Settle?
    requires var req := s.active[t].local.req; req.mission && IsListing(s.db, req.invitee, req.history)
    ensures Settled(n.db, s.active[t].local.req)
  {
    var Txn(l, k) := s.active[t];
    CommitClaims(cfg, s, t, n);
    TrajSettles(cfg, l.req, s.db, k);
    ListingMoves(s.db, n.db, l.req.invitee, l.req.history);
    assert SettleFacts(n.db, l.req) by { SettleCommitGrows(cfg, s, t, n); }
  }

  lemma SettleCommitGrows(cfg: Config, s: State, t: nat, n: State)
    requires ValidZone(cfg.zone) && Safe(cfg, s) && Next(cfg, s, Commit(t), n) && s.active[t].local.req.Settle?
    ensures SettleFacts(n.db, s.active[t].local.req)
  {
    var Txn(l, k) := s.active[t];
    TrajShape(cfg, l.req, s.db, k);
    AliveIsAdmissible(cfg, s, t);
    CommitKeepsInv(cfg, l.req, s.db, k);
  }

  lemma SettledPays(cfg: Config, db: Db, req: Request, p: Payout)
    requires Inv(cfg, db) && Settled(db, req) && p in Payouts(req)
    ensures PaidOnce(db, req.binding.value, p) && About(db, req.invitee, p.key)
  {
    var j :| 0 <= j < |Payouts(req)| && Payouts(req)[j] == p;
    OwedIsPaid(cfg, db, req, p);
  }

  /** The bonus stands for a code of the history that is not its first, inside the window of the first. */
  ghost predicate Fits(h: seq<Redeemed>, k: Key) {
    k.ReferralLater? ==> exists i: nat :: EarnsLater(h, i) && h[i].code == k.code
  }

  /** Every later-code bonus paid for this invitee so far stands for a code that the history still rewards. */
  ghost predicate PaidFits(db: Db, invitee: User, h: seq<Redeemed>) {
    forall k | 0 <= k < |db.ledger| && About(db, invitee, db.ledger[k].key) :: Fits(h, db.ledger[k].key)
  }

  /** No entry about the invitee goes beyond what the history owes. */
  ghost predicate NothingMore(db: Db, req: Request)
    requires req.Settle?
  {
    forall k | 0 <= k < |db.ledger| && About(db, req.invitee, db.ledger[k].key) ::
      Payout(db.ledger[k].amount, db.ledger[k].key) in SettlePayouts(req.invitee, true, req.history)
  }

  /** An entry about an invitee is owed exactly when its code fits the history. */
  lemma OwedMeansFits(cfg: Config, db: Db, invitee: User, h: seq<Redeemed>, e: Entry)
    requires Ascending(h) && h != [] && EntryOk(db, e) && About(db, invitee, e.key)
    ensures Payout(e.amount, e.key) in SettlePayouts(invitee, true, h) <==> Fits(h, e.key)
  {
    PayoutsMeaning(invitee, h, Payout(e.amount, e.key));
  }

  lemma NewEntriesFit(cfg: Config, s: State, t: nat, n: State, e: Entry)
    requires ValidZone(cfg.zone) && Safe(cfg, s) && Next(cfg, s, Commit(t), n) && s.active[t].local.req.Settle?
    requires var req := s.active[t].local.req; req.mission && IsListing(s.db, req.invitee, req.history)
    requires e in n.db.ledger && e !in s.db.ledger
    ensures Payout(e.amount, e.key) in Payouts(s.active[t].local.req)
  {
    var Txn(l, k) := s.active[t];
    TrajShape(cfg, l.req, s.db, k);
    TrajSettles(cfg, l.req, s.db, k);
    OwnEntryOrOld(s.db, l, e);
    var j :| 0 <= j < |l.ops| && l.ops[j] == Record(e);
  }

  lemma {:induction false} OldEntriesStay(db: Db, ops: seq<Op>, e: Entry)
    requires e in db.ledger
    ensures e in Apply(db, ops).ledger
  {
    if ops != [] {
      var n := |ops| - 1;
      OldEntriesStay(db, ops[..n], e);
      OldEntryStays(Apply(db, ops[..n]), ops[n], e);
    }
  }

  lemma OldEntryStays(db: Db, op: Op, e: Entry)
    requires e in db.ledger
    ensures e in DoOp(db, op).ledger
  {
  }

  /** When what was paid before fits, so does all that is paid after. */
  lemma FitsAfter(cfg: Config, s: State, t: nat, n: State, e: Entry)
    requires ValidZone(cfg.zone) && Safe(cfg, s) && Next(cfg, s, Commit(t), n) && s.active[t].local.req.Settle?
    requires var req := s.active[t].local.req; req.mission && req.history != [] && IsListing(s.db, req.invitee, req.history)
    requires n.db.codes == s.db.codes && e in n.db.ledger && About(n.db, s.active[t].local.req.invitee, e.key)
    requires PaidFits(s.db, s.active[t].local.req.invitee, s.active[t].local.req.history)
    ensures Payout(e.amount, e.key) in Payouts(s.active[t].local.req)
  {
    var req := s.active[t].local.req;
    if e in s.db.ledger {
      var j :| 0 <= j < |s.db.ledger| && s.db.ledger[j] == e;
      assert EntryOk(s.db, e) && Fits(req.history, e.key);
      OwedMeansFits(cfg, s.db, req.invitee, req.history, e);
    } else {
      NewEntriesFit(cfg, s, t, n, e);
    }
  }

  /** An entry that does not fit is there after as it was before. */
  lemma UnfitStays(cfg: Config, s: State, t: nat, n: State, j: nat)
    requires Safe(cfg, s) && Next(cfg, s, Commit(t), n) && s.active[t].local.req.Settle?
    requires var req := s.active[t].local.req; req.mission && req.history != [] && IsListing(s.db, req.invitee, req.history)
    requires n.db.codes == s.db.codes && j < |s.db.ledger| && About(s.db, s.active[t].local.req.invitee, s.db.ledger[j].key)
    requires !Fits(s.active[t].local.req.history, s.db.ledger[j].key)
    ensures !NothingMore(n.db, s.active[t].local.req)
  {
    var req, e := s.active[t].local.req, s.db.ledger[j];
    assert EntryOk(s.db, e);
    OwedMeansFits(cfg, s.db, req.invitee, req.history, e);
    OldEntriesStay(s.db, s.active[t].local.ops, e);
    var k :| 0 <= k < |n.db.ledger| && n.db.ledger[k] == e;
  }

  lemma SettleCommitExact(cfg: Config, s: State, t: nat, n: State)
    requires ValidZone(cfg.zone) && Safe(cfg, s) && Next(cfg, s, Commit(t), n) && s.active[t].local.req.Settle?
    requires var req := s.active[t].local.req; req.mission && IsListing(s.db, req.invitee, req.history)
    ensures var req := s.active[t].local.req; NothingMore(n.db, req) <==> PaidFits(s.db, req.invitee, req.history)
  {
    var req := s.active[t].local.req;
    SettleCommits(cfg, s, t, n);
    CommitClaims(cfg, s, t, n);
    if PaidFits(s.db, req.invitee, req.history) {
      forall k | 0 <= k < |n.db.ledger| && About(n.db, req.invitee, n.db.ledger[k].key)
        ensures Payout(n.db.ledger[k].amount, n.db.ledger[k].key) in SettlePayouts(req.invitee, true, req.history)
      {
        FitsAfter(cfg, s, t, n, n.db.ledger[k]);
      }
    } else {
      var j: nat :| j < |s.db.ledger| && About(s.db, req.invitee, s.db.ledger[j].key) && !Fits(req.history, s.db.ledger[j].key);
      UnfitStays(cfg, s, t, n, j);
    }
  }

  /**
   A settlement whose history was still current when it committed, after whatever came before or ran beside it,
   has paid everything that history owes, each payout once, to the inviter. It leaves nothing beyond that in the
   ledger exactly when the later-code bonuses paid before it still fit the history.
   */
  lemma SettlementPays(cfg: Config, first: Db, states: seq<State>, actions: seq<Action>, i: nat, t: nat, p: Payout)
    requires ValidZone(cfg.zone) && Inv(cfg, first) && Execution(cfg, first, states, actions)
    requires i < |actions| && actions[i] == Commit(t)
    requires t in states[i].active && states[i].active[t].local.req.Settle?
    requires var req := states[i].active[t].local.req; req.mission && IsListing(states[i].db, req.invitee, req.history)
    ensures var req, db := states[i].active[t].local.req, states[i + 1].db;
            && req.binding.Some?
            && (p in SettlePayouts(req.invitee, true, req.history) ==> PaidOnce(db, req.binding.value, p) && About(db, req.invitee, p.key))
            && (NothingMore(db, req) <==> PaidFits(states[i].db, req.invitee, req.history))
  {
    AlwaysSafe(cfg, first, states, actions, i);
    AlwaysSafe(cfg, first, states, actions, i + 1);
    assert Next(cfg, states[i], actions[i], states[i + 1]);
    SettleCommits(cfg, states[i], t, states[i + 1]);
    SettleCommitExact(cfg, states[i], t, states[i + 1]);
    if p in Payouts(states[i].active[t].local.req) { SettledPays(cfg, states[i + 1].db, states[i].active[t].local.req, p); }
  }

  /** While first redemptions stay first, what was paid keeps fitting. */
  lemma OwedKeepsFitting(db: Db, invitee: User, h: seq<Redeemed>)
    requires LatersOwed(db) && IsListing(db, invitee, h)
    ensures PaidFits(db, invitee, h)
  {
    forall k | 0 <= k < |db.ledger| && About(db, invitee, db.ledger[k].key) && db.ledger[k].key.ReferralLater?
      ensures Fits(h, db.ledger[k].key)
    {
      WindowFits(db, invitee, h, db.ledger[k].key.code);
    }
  }

  lemma WindowFits(db: Db, invitee: User, h: seq<Redeemed>, c: CodeId)
    requires IsListing(db, invitee, h) && RedeemedBy(db, c, invitee) && InWindow(db.codes, c)
    ensures exists i: nat :: EarnsLater(h, i) && h[i].code == c
  {
    assert c in RedeemedSet(db, invitee);
    var f :| IsFirst(db.codes, invitee, f) && f != c
             && db.codes[c].redemption.value.at <= db.codes[f].redemption.value.at + LATER_CODE_WINDOW;
    assert f in RedeemedSet(db, invitee);
    var a :| 0 <= a < |h| && h[a].code == f;
    var b: nat :| 0 <= b < |h| && h[b].code == c;
    assert RedeemedBy(db, h[0].code, invitee) && RedeemedAt(db, f, invitee) == h[a].at;
    assert Owns(db.codes, h[0].code, invitee);
    assert h[0].code == f;
    assert RedeemedAt(db, c, invitee) == h[b].at;
    assert EarnsLater(h, b);
  }

  /**
   After a settlement whose history was still current when it committed, the ledger entries
   about this invitee are exactly `SettlePayouts` of that history, each paid once, to the inviter,
   whatever settlements, redemptions and crashes came before or ran beside it.
   */
  lemma SettlementIsExact(
    cfg: Config, first: Db, states: seq<State>, actions: seq<Action>, i: nat, t: nat, p: Payout)
    requires ValidZone(cfg.zone) && Inv(cfg, first) && Execution(cfg, first, states, actions)
    requires FirstsExist(first.codes) && LatersOwed(first)
    requires i < |actions| && actions[i] == Commit(t) && TimelyUntil(states, actions, i)
    requires t in states[i].active && states[i].active[t].local.req.Settle?
    requires var req := states[i].active[t].local.req; req.mission && IsListing(states[i].db, req.invitee, req.history)
    ensures var req, db := states[i].active[t].local.req, states[i + 1].db;
            && req.binding.Some?
            && (p in SettlePayouts(req.invitee, true, req.history) ==>
                  PaidOnce(db, req.binding.value, p) && About(db, req.invitee, p.key))
            && (forall k | 0 <= k < |db.ledger| && About(db, req.invitee, db.ledger[k].key) ::
                  Payout(db.ledger[k].amount, db.ledger[k].key) in SettlePayouts(req.invitee, true, req.history))
  {
    AlwaysReferralsSafe(cfg, first, states, actions, i);
    var req := states[i].active[t].local.req;
    OwedKeepsFitting(states[i].db, req.invitee, req.history);
    SettlementPays(cfg, first, states, actions, i, t, p);
  }

  // --------------------------------------------------- counts, and the limit

  /** The invitees whose first-code bonus `v` has been paid. */
  function QualifiedInvitees(ledger: seq<Entry>, v: User): set<User> {
    if ledger == [] then {}
    else
      var e := ledger[|ledger| - 1];
      QualifiedInvitees(ledger[..|ledger| - 1], v) + if e.user == v && e.key.ReferralFirst? then {e.key.invitee} else {}
  }

  /** `qualified_count`: ledger rows of `v` whose key starts with `referral:first:`. */
  function QualifiedCount(ledger: seq<Entry>, v: User): nat {
    if ledger == [] then 0
    else
      var e := ledger[|ledger| - 1];
      QualifiedCount(ledger[..|ledger| - 1], v) + if e.user == v && e.key.ReferralFirst? then 1 else 0
  }

  /** `invited_count`. */
  function Invited(db: Db, v: User): set<User> {
    set i | i in db.bindings && db.bindings[i] == v
  }

  lemma {:induction false} QualifiedHasRow(ledger: seq<Entry>, v: User, x: User) returns (i: nat)
    requires x in QualifiedInvitees(ledger, v)
    ensures i < |ledger| && ledger[i].user == v && ledger[i].key == ReferralFirst(x)
  {
    var n := |ledger| - 1;
    if x in QualifiedInvitees(ledger[..n], v) {
      i := QualifiedHasRow(ledger[..n], v, x);
    } else {
      i := n;
    }
  }

  lemma {:induction false} RowsAreInvitees(ledger: seq<Entry>, v: User)
    requires KeysOk(ledger)
    ensures QualifiedCount(ledger, v) == |QualifiedInvitees(ledger, v)|
  {
    if ledger != [] {
      var n := |ledger| - 1;
      var e := ledger[n];
      RowsAreInvitees(ledger[..n], v);
      if e.user == v && e.key.ReferralFirst? {
        if e.key.invitee in QualifiedInvitees(ledger[..n], v) {
          var i := QualifiedHasRow(ledger[..n], v, e.key.invitee);
        }
        AddOne(QualifiedInvitees(ledger[..n], v), QualifiedInvitees(ledger, v), e.key.invitee);
      }
    }
  }

  /** In every committed state an inviter has at most as many qualified invitees as invited ones. */
  lemma QualifiedWereInvited(cfg: Config, first: Db, states: seq<State>, actions: seq<Action>, i: nat, v: User)
    requires ValidZone(cfg.zone) && Inv(cfg, first) && Execution(cfg, first, states, actions) && i < |states|
    ensures QualifiedCount(states[i].db.ledger, v) <= |Invited(states[i].db, v)|
  {
    AlwaysSafe(cfg, first, states, actions, i);
    var db := states[i].db;
    RowsAreInvitees(db.ledger, v);
    forall x | x in QualifiedInvitees(db.ledger, v) ensures x in Invited(db, v) {
      var j := QualifiedHasRow(db.ledger, v, x);
      assert EntryOk(db, db.ledger[j]);
    }
    CardinalityMonotone(QualifiedInvitees(db.ledger, v), Invited(db, v));
  }

  /**
   A redemption stamped no later than the first one that becomes the new first code moves the window.
   What was owed stays owed exactly when every later code still fits the new window, so always at a tie.
   */
  lemma LateFirstCodeOverpays(invitee: User, early: Redeemed, codes: seq<Redeemed>)
    requires Ascending(codes) && codes != [] && early.at <= codes[0].at
    requires forall i, j | 0 <= i < j < |codes| :: codes[i].code != codes[j].code
    ensures (forall p | p in SettlePayouts(invitee, true, codes) :: p in SettlePayouts(invitee, true, [early] + codes))
            <==> forall i: nat | EarnsLater(codes, i) :: codes[i].at <= early.at + LATER_CODE_WINDOW
  {
    var due, now := SettlePayouts(invitee, true, codes), SettlePayouts(invitee, true, [early] + codes);
    forall i: nat | EarnsLater(codes, i)
      ensures var p := Payout(LATER_CODE_BONUS, ReferralLater(codes[i].code));
              p in due && (p in now <==> codes[i].at <= early.at + LATER_CODE_WINDOW)
    {
      LaterStillOwed(invitee, early, codes, i);
    }
    forall p | p in due && p != Payout(FIRST_CODE_BONUS, ReferralFirst(invitee))
      ensures exists i: nat :: EarnsLater(codes, i) && p == Payout(LATER_CODE_BONUS, ReferralLater(codes[i].code))
    {
      PayoutsMeaning(invitee, codes, p);
    }
  }

  lemma LaterStillOwed(invitee: User, early: Redeemed, codes: seq<Redeemed>, i: nat)
    requires Ascending(codes) && EarnsLater(codes, i) && early.at <= codes[0].at
    requires forall i, j | 0 <= i < j < |codes| :: codes[i].code != codes[j].code
    ensures var p := Payout(LATER_CODE_BONUS, ReferralLater(codes[i].code));
            && p in SettlePayouts(invitee, true, codes)
            && (p in SettlePayouts(invitee, true, [early] + codes) <==> codes[i].at <= early.at + LATER_CODE_WINDOW)
  {
    var all, p := [early] + codes, Payout(LATER_CODE_BONUS, ReferralLater(codes[i].code));
    PayoutsMeaning(invitee, codes, p);
    PayoutsMeaning(invitee, all, p);
    assert all[i + 1] == codes[i];
    assert codes[i].at <= early.at + LATER_CODE_WINDOW ==> EarnsLater(all, i + 1);
    if j: nat :| EarnsLater(all, j) && p == Payout(LATER_CODE_BONUS, ReferralLater(all[j].code)) {
      assert all[j] == codes[j - 1];
    }
  }

  /** A concrete late arrival: the second code was paid as a later one, and the first one's window has closed before it. */
  lemma LateFirstCodeExample()
    ensures var d := 86_400 * 1_000_000;
            var paid := Payout(LATER_CODE_BONUS, ReferralLater(2));
            && paid in SettlePayouts(9, true, [Redeemed(1, 200 * d), Redeemed(2, 300 * d)])
            && paid !in SettlePayouts(9, true, [Redeemed(0, 0), Redeemed(1, 200 * d), Redeemed(2, 300 * d)])
  {
    var d := 86_400 * 1_000_000;
    var a, b := [Redeemed(1, 200 * d), Redeemed(2, 300 * d)], [Redeemed(0, 0), Redeemed(1, 200 * d), Redeemed(2, 300 * d)];
    assert EarnsLater(a, 1);
    PayoutsMeaning(9, a, Payout(LATER_CODE_BONUS, ReferralLater(2)));
    assert !EarnsLater(b, 2) && !EarnsLater(b, 1);
    PayoutsMeaning(9, b, Payout(LATER_CODE_BONUS, ReferralLater(2)));
  }
}
