/**
 The database tables that move coins, as one value, and the write statements on them.

 A transaction's own view of the database is the committed tables with its own
 uncommitted writes applied on top (READ COMMITTED), so the writes are values (`Op`)
 and `Apply` replays a list of them.
 */
module Tables {
  import opened Prelude

  type User = nat
  type CodeId = nat
  type BatchId = nat
  type Time = int

  /** `challenge_claims.period_key`. */
  datatype Period = Once | Day(day: int) | Week(week: int) | Month(month: int)

  /** The idempotency key families; `Keys` proves their text forms never clash. */
  datatype Key =
    | CodeRedemption(code: CodeId)
    | FirstCode(user: User)
    | ChallengeReward(challenge: nat, period: Period, user: User)
    | AchievementReward(achievement: nat, user: User)
    | AdminAdjustment(uuid: nat)
    | ReferralFirst(invitee: User)
    | ReferralLater(code: CodeId)

  datatype Entry = Entry(user: User, amount: int, key: Key, at: Time)
  datatype Wallet = Wallet(balance: int, lifetime: int)

  /** `redeemed_by_user_id` and `redeemed_at`, both null or both set. */
  datatype Redemption = Redemption(user: User, at: Time)
  datatype CodeRow = CodeRow(city: City, batch: BatchId, redemption: Option<Redemption>)

  datatype Status = Generated | Active | Void
  datatype Batch = Batch(coins: nat, status: Status)

  datatype ClaimRow = ClaimRow(challenge: nat, user: User, period: Period)
  datatype UnlockRow = UnlockRow(achievement: nat, user: User)

  datatype Db = Db(
    codes: map<CodeId, CodeRow>,
    batches: map<BatchId, Batch>,
    wallets: map<User, Wallet>,
    ledger: seq<Entry>,
    points: map<(User, City), nat>,
    claims: set<ClaimRow>,
    unlocks: set<UnlockRow>,
    bindings: map<User, User>)

  const EmptyDb := Db(map[], map[], map[], [], map[], {}, {}, map[])

  // ---------------------------------------------------------------- queries

  predicate RedeemedBy(db: Db, c: CodeId, u: User) {
    c in db.codes && db.codes[c].redemption.Some? && db.codes[c].redemption.value.user == u
  }

  function RedeemedAt(db: Db, c: CodeId, u: User): Time
    requires RedeemedBy(db, c, u)
  {
    db.codes[c].redemption.value.at
  }

  function RedeemedSet(db: Db, u: User): set<CodeId> {
    set c | c in db.codes && RedeemedBy(db, c, u)
  }

  function SinceSet(db: Db, u: User, since: Time): set<CodeId> {
    set c | c in db.codes && RedeemedBy(db, c, u) && RedeemedAt(db, c, u) >= since
  }

  function FlavorSet(db: Db, u: User, city: City): set<CodeId> {
    set c | c in db.codes && RedeemedBy(db, c, u) && db.codes[c].city == city
  }

  function Points(db: Db, u: User, city: City): nat {
    if (u, city) in db.points then db.points[(u, city)] else 0
  }

  predicate HasKey(ledger: seq<Entry>, k: Key) {
    exists i | 0 <= i < |ledger| :: ledger[i].key == k
  }

  function AmountForKey(ledger: seq<Entry>, k: Key): Option<int> {
    if ledger == [] then None
    else if ledger[|ledger| - 1].key == k then Some(ledger[|ledger| - 1].amount)
    else AmountForKey(ledger[..|ledger| - 1], k)
  }

  function CheckinDays(db: Db, challenge: nat, u: User): set<int> {
    set r | r in db.claims && r.challenge == challenge && r.user == u && r.period.Day? :: r.period.day
  }

  /** Every claim of this challenge by this user has a `D:` key, so its date parses. */
  predicate DaysParse(db: Db, challenge: nat, u: User) {
    forall r | r in db.claims && r.challenge == challenge && r.user == u :: r.period.Day?
  }

  function Sum(ledger: seq<Entry>, u: User): int {
    if ledger == [] then 0
    else
      var e := ledger[|ledger| - 1];
      Sum(ledger[..|ledger| - 1], u) + if e.user == u then e.amount else 0
  }

  function Earned(ledger: seq<Entry>, u: User): int {
    if ledger == [] then 0
    else
      var e := ledger[|ledger| - 1];
      Earned(ledger[..|ledger| - 1], u) + if e.user == u && e.amount > 0 then e.amount else 0
  }

  // ----------------------------------------------------------------- writes

  datatype Op =
    | LockWallet(user: User)
    | MarkRedeemed(code: CodeId, user: User, at: Time)
    | AddPoint(user: User, city: City)
    | Record(entry: Entry)
    | InsertClaim(claim: ClaimRow)
    | InsertUnlock(unlock: UnlockRow)
    | InsertBinding(invitee: User, inviter: User)

  function Credit(w: Wallet, amount: int): Wallet {
    Wallet(w.balance + amount, w.lifetime + if amount > 0 then amount else 0)
  }

  function DoOp(db: Db, op: Op): Db {
    match op
    case LockWallet(u) =>
      if u in db.wallets then db else db.(wallets := db.wallets[u := Wallet(0, 0)])
    case MarkRedeemed(c, u, at) =>
      if c !in db.codes then db
      else db.(codes := db.codes[c := db.codes[c].(redemption := Some(Redemption(u, at)))])
    case AddPoint(u, city) => db.(points := db.points[(u, city) := Points(db, u, city) + 1])
    case Record(e) =>
      if e.user !in db.wallets then db
      else db.(ledger := db.ledger + [e],
               wallets := db.wallets[e.user := Credit(db.wallets[e.user], e.amount)])
    case InsertClaim(r) => db.(claims := db.claims + {r})
    case InsertUnlock(r) => db.(unlocks := db.unlocks + {r})
    case InsertBinding(i, v) => db.(bindings := db.bindings[i := v])
  }

  function Apply(db: Db, ops: seq<Op>): Db {
    if ops == [] then db else DoOp(Apply(db, ops[..|ops| - 1]), ops[|ops| - 1])
  }

  lemma ApplySnoc(db: Db, ops: seq<Op>, op: Op)
    ensures Apply(db, ops + [op]) == DoOp(Apply(db, ops), op)
  {
    assert (ops + [op])[..|ops|] == ops;
  }
}
