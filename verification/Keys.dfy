/**
 The text of the idempotency keys. The rest of the model compares keys as tagged values;
 this module shows that their texts are equal exactly when the values are, although
 challenge and achievement ids are free text that may hold colons themselves.
 */
module Keys {
  import opened Tables

  const UUID_LENGTH := 36

  /** The identifiers and calendar units in use, and how each is written out. */
  datatype Names = Names(
    ids: set<nat>, days: set<int>, weeks: set<int>, months: set<int>,
    uuid: nat -> string, challenge: nat -> string, achievement: nat -> string,
    day: int -> string, week: int -> string, month: int -> string)

  predicate IsDateChar(c: char) { '0' <= c <= '9' || c == '-' }

  /** `YYYY-MM-DD` or `YYYY-MM`, as far as it matters. */
  predicate IsDate(text: string, length: nat) {
    |text| == length && forall i | 0 <= i < length :: IsDateChar(text[i])
  }

  ghost predicate Injective<A>(name: A -> string, among: set<A>) {
    forall a, b | a in among && b in among :: name(a) == name(b) ==> a == b
  }

  ghost predicate Proper(n: Names) {
    && Injective(n.uuid, n.ids) && Injective(n.day, n.days) && Injective(n.week, n.weeks) && Injective(n.month, n.months)
    && (forall a, b :: n.challenge(a) == n.challenge(b) ==> a == b)
    && (forall a, b :: n.achievement(a) == n.achievement(b) ==> a == b)
    && (forall i | i in n.ids :: |n.uuid(i)| == UUID_LENGTH)
    && (forall d | d in n.days :: IsDate(n.day(d), 10))
    && (forall w | w in n.weeks :: IsDate(n.week(w), 10))
    && (forall m | m in n.months :: IsDate(n.month(m), 7))
  }

  predicate KnownPeriod(n: Names, p: Period) {
    match p
    case Once => true
    case Day(d) => d in n.days
    case Week(w) => w in n.weeks
    case Month(m) => m in n.months
  }

  /** The key speaks of identifiers and periods in use. */
  predicate Known(n: Names, k: Key) {
    match k
    case CodeRedemption(c) => c in n.ids
    case FirstCode(u) => u in n.ids
    case ChallengeReward(_, p, u) => KnownPeriod(n, p) && u in n.ids
    case AchievementReward(_, u) => u in n.ids
    case AdminAdjustment(id) => id in n.ids
    case ReferralFirst(i) => i in n.ids
    case ReferralLater(c) => c in n.ids
  }

  function PeriodText(n: Names, p: Period): string {
    match p
    case Once => "ONCE"
    case Day(d) => "D:" + n.day(d)
    case Week(w) => "W:" + n.week(w)
    case Month(m) => "M:" + n.month(m)
  }

  function KeyText(n: Names, k: Key): string {
    match k
    case CodeRedemption(c) => "code_redemption:" + n.uuid(c)
    case FirstCode(u) => "first_code:" + n.uuid(u)
    case ChallengeReward(ch, p, u) => "challenge:" + (n.challenge(ch) + ":" + PeriodText(n, p) + ":" + n.uuid(u))
    case AchievementReward(a, u) => "achievement:" + (n.achievement(a) + ":" + n.uuid(u))
    case AdminAdjustment(id) => "admin_adjustment:" + n.uuid(id)
    case ReferralFirst(i) => "referral:first:" + n.uuid(i)
    case ReferralLater(c) => "referral:code:" + n.uuid(c)
  }

  /** A text that ends in either of two ways: the shorter end is an end of the longer one. */
  lemma SharedEnd(a: string, p: string, b: string, q: string)
    requires a + p == b + q && |p| <= |q|
    ensures p == q[|q| - |p|..] && (|p| == |q| ==> a == b)
  {
    var t := a + p;
    assert p == t[|t| - |p|..];
    assert q == t[|t| - |q|..];
    if |p| == |q| {
      assert a == t[..|t| - |p|] && b == t[..|t| - |q|];
    }
  }

  lemma SharedStart(p: string, a: string, b: string)
    requires p + a == p + b
    ensures a == b
  {
    assert a == (p + a)[|p|..];
    assert b == (p + b)[|p|..];
  }

  lemma PeriodLength(n: Names, p: Period)
    requires Proper(n) && KnownPeriod(n, p)
    ensures var text := PeriodText(n, p);
            && |text| == (if p.Once? then 4 else if p.Month? then 9 else 12)
            && !IsDateChar(text[0])
            && (p.Month? || p.Day? || p.Week? ==> text[1] == ':' && forall i | 2 <= i < |text| :: IsDateChar(text[i]))
  {
  }

  /** No period text is a proper end of another, so the ends decide the periods. */
  lemma PeriodEnds(n: Names, p: Period, q: Period)
    requires Proper(n) && KnownPeriod(n, p) && KnownPeriod(n, q) && |PeriodText(n, p)| <= |PeriodText(n, q)|
    requires PeriodText(n, p) == PeriodText(n, q)[|PeriodText(n, q)| - |PeriodText(n, p)|..]
    ensures p == q
  {
    PeriodLength(n, p);
    PeriodLength(n, q);
    var s, t := PeriodText(n, p), PeriodText(n, q);
    assert s[0] == t[|t| - |s|];
    assert |s| == |t|;
    assert s == t;
    match p
    case Once =>
    case Day(d) => SamePeriod(n, p, q, n.day(d));
    case Week(w) => SamePeriod(n, p, q, n.week(w));
    case Month(m) => SamePeriod(n, p, q, n.month(m));
  }

  lemma SamePeriod(n: Names, p: Period, q: Period, date: string)
    requires Proper(n) && KnownPeriod(n, p) && KnownPeriod(n, q) && !p.Once? && PeriodText(n, p) == PeriodText(n, q)
    requires date == match p case Day(d) => n.day(d) case Week(w) => n.week(w) case Month(m) => n.month(m) case Once => ""
    ensures p == q
  {
    PeriodLength(n, p);
    PeriodLength(n, q);
    var s, t := PeriodText(n, p), PeriodText(n, q);
    assert s[0] == t[0];
    assert s[2..] == t[2..];
    assert s[2..] == date;
    assert t[2..] == match q case Day(d) => n.day(d) case Week(w) => n.week(w) case Month(m) => n.month(m) case Once => "CE";
  }

  lemma ChallengeKeys(n: Names, j: Key, k: Key)
    requires Proper(n) && Known(n, j) && Known(n, k) && j.ChallengeReward? && k.ChallengeReward? && KeyText(n, j) == KeyText(n, k)
    requires |PeriodText(n, j.period)| <= |PeriodText(n, k.period)|
    ensures j == k
  {
    var p, q := PeriodText(n, j.period), PeriodText(n, k.period);
    var a, b := n.challenge(j.challenge), n.challenge(k.challenge);
    SharedStart("challenge:", a + ":" + p + ":" + n.uuid(j.user), b + ":" + q + ":" + n.uuid(k.user));
    SharedEnd(a + ":" + p + ":", n.uuid(j.user), b + ":" + q + ":", n.uuid(k.user));
    SharedEnd(a + ":" + p, ":", b + ":" + q, ":");
    SharedEnd(a + ":", p, b + ":", q);
    PeriodEnds(n, j.period, k.period);
    SharedEnd(a, ":", b, ":");
  }

  lemma AchievementKeys(n: Names, j: Key, k: Key)
    requires Proper(n) && Known(n, j) && Known(n, k) && j.AchievementReward? && k.AchievementReward? && KeyText(n, j) == KeyText(n, k)
    ensures j == k
  {
    var a, b := n.achievement(j.achievement), n.achievement(k.achievement);
    SharedStart("achievement:", a + ":" + n.uuid(j.user), b + ":" + n.uuid(k.user));
    SharedEnd(a + ":", n.uuid(j.user), b + ":", n.uuid(k.user));
    SharedEnd(a, ":", b, ":");
  }

  /** A number for each family of keys. */
  function Family(k: Key): nat {
    match k
    case CodeRedemption(_) => 0
    case FirstCode(_) => 1
    case ChallengeReward(_, _, _) => 2
    case AchievementReward(_, _) => 3
    case AdminAdjustment(_) => 4
    case ReferralFirst(_) => 5
    case ReferralLater(_) => 6
  }

  /** The characters that tell the families apart: the first, second and tenth. */
  lemma FamilyMarks(n: Names, k: Key)
    requires Proper(n) && Known(n, k)
    ensures var t := KeyText(n, k);
            && |t| >= 10
            && (t[0], t[1], if t[0] == 'r' then t[9] else ' ')
               == match Family(k)
                  case 0 => ('c', 'o', ' ')
                  case 1 => ('f', 'i', ' ')
                  case 2 => ('c', 'h', ' ')
                  case 3 => ('a', 'c', ' ')
                  case 4 => ('a', 'd', ' ')
                  case 5 => ('r', 'e', 'f')
                  case _ => ('r', 'e', 'c')
  {
  }

  lemma SameFamily(n: Names, j: Key, k: Key)
    requires Proper(n) && Known(n, j) && Known(n, k) && KeyText(n, j) == KeyText(n, k)
    ensures Family(j) == Family(k)
  {
    FamilyMarks(n, j);
    FamilyMarks(n, k);
  }

  /** Two keys have the same text only when they are the same key: the unique constraint compares what the model compares. */
  lemma KeysAreInjective(n: Names, j: Key, k: Key)
    requires Proper(n) && Known(n, j) && Known(n, k)
    ensures KeyText(n, j) == KeyText(n, k) <==> j == k
  {
    if KeyText(n, j) == KeyText(n, k) {
      SameFamily(n, j, k);
      match j
      case ChallengeReward(_, _, _) =>
        if |PeriodText(n, j.period)| <= |PeriodText(n, k.period)| { ChallengeKeys(n, j, k); } else { ChallengeKeys(n, k, j); }
      case AchievementReward(_, _) => AchievementKeys(n, j, k);
      case CodeRedemption(c) => SharedStart("code_redemption:", n.uuid(c), n.uuid(k.code));
      case FirstCode(u) => SharedStart("first_code:", n.uuid(u), n.uuid(k.user));
      case AdminAdjustment(u) => SharedStart("admin_adjustment:", n.uuid(u), n.uuid(k.uuid));
      case ReferralFirst(u) => SharedStart("referral:first:", n.uuid(u), n.uuid(k.invitee));
      case ReferralLater(c) => SharedStart("referral:code:", n.uuid(c), n.uuid(k.code));
    }
  }
}
