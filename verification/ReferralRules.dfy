/** What an inviter is owed for one invitee (app/domain/referrals.py). */
module ReferralRules {
  import opened Prelude
  import opened Tables

  const FIRST_CODE_BONUS := 15
  const LATER_CODE_BONUS := 5
  /** 180 days, in microseconds. */
  const LATER_CODE_WINDOW: int := 180 * 86_400 * 1_000_000

  datatype Redeemed = Redeemed(code: CodeId, at: Time)
  datatype Payout = Payout(amount: int, key: Key)

  /** The payouts for the codes after the first, stopping at the first one out of window. */
  function LaterPayouts(codes: seq<Redeemed>, windowEnd: Time): seq<Payout> {
    if codes == [] || codes[0].at > windowEnd then []
    else [Payout(LATER_CODE_BONUS, ReferralLater(codes[0].code))] + LaterPayouts(codes[1..], windowEnd)
  }

  function SettlePayouts(invitee: User, mission: bool, codes: seq<Redeemed>): seq<Payout> {
    if !mission || codes == [] then []
    else [Payout(FIRST_CODE_BONUS, ReferralFirst(invitee))]
         + LaterPayouts(codes[1..], codes[0].at + LATER_CODE_WINDOW)
  }

  /** The source's loop with its `break`. */
  method ComputePayouts(invitee: User, mission: bool, codes: seq<Redeemed>) returns (payouts: seq<Payout>)
    ensures payouts == SettlePayouts(invitee, mission, codes)
  {
    if !mission || codes == [] { return []; }
    payouts := [Payout(FIRST_CODE_BONUS, ReferralFirst(invitee))];
    var windowEnd := codes[0].at + LATER_CODE_WINDOW;
    var i := 1;
    while i < |codes|
      invariant 1 <= i <= |codes|
      invariant payouts + LaterPayouts(codes[i..], windowEnd) == SettlePayouts(invitee, mission, codes)
    {
      if codes[i].at > windowEnd { break; }
      assert codes[i..][1..] == codes[i + 1..];
      payouts := payouts + [Payout(LATER_CODE_BONUS, ReferralLater(codes[i].code))];
      i := i + 1;
    }
  }

  predicate Ascending(codes: seq<Redeemed>) {
    forall i, j | 0 <= i < j < |codes| :: codes[i].at <= codes[j].at
  }

  /** A redemption that earns the later-code bonus: not the first one, and inside the window. */
  predicate EarnsLater(codes: seq<Redeemed>, i: nat) {
    1 <= i < |codes| && codes[i].at <= codes[0].at + LATER_CODE_WINDOW
  }

  lemma {:induction false} LaterPayoutsMeaning(codes: seq<Redeemed>, windowEnd: Time, p: Payout)
    requires Ascending(codes)
    ensures p in LaterPayouts(codes, windowEnd) <==>
            exists i | 0 <= i < |codes| ::
              codes[i].at <= windowEnd && p == Payout(LATER_CODE_BONUS, ReferralLater(codes[i].code))
  {
    if codes != [] && codes[0].at <= windowEnd {
      LaterPayoutsMeaning(codes[1..], windowEnd, p);
      assert forall i | 1 <= i < |codes| :: codes[i] == codes[1..][i - 1];
    }
  }

  /** The loop's early exit loses nothing: the list holds exactly what the rule owes. */
  lemma PayoutsMeaning(invitee: User, codes: seq<Redeemed>, p: Payout)
    requires Ascending(codes) && codes != []
    ensures p in SettlePayouts(invitee, true, codes) <==>
            || p == Payout(FIRST_CODE_BONUS, ReferralFirst(invitee))
            || exists i: nat :: EarnsLater(codes, i) && p == Payout(LATER_CODE_BONUS, ReferralLater(codes[i].code))
  {
    var tail, end := codes[1..], codes[0].at + LATER_CODE_WINDOW;
    LaterPayoutsMeaning(tail, end, p);
    if j: nat :| j < |tail| && tail[j].at <= end && p == Payout(LATER_CODE_BONUS, ReferralLater(tail[j].code)) {
      assert EarnsLater(codes, j + 1);
    }
    if i: nat :| EarnsLater(codes, i) && p == Payout(LATER_CODE_BONUS, ReferralLater(codes[i].code)) {
      assert tail[i - 1] == codes[i];
    }
  }

  lemma {:induction false} LaterPayoutsGrow(codes: seq<Redeemed>, more: seq<Redeemed>, windowEnd: Time)
    ensures LaterPayouts(codes, windowEnd) <= LaterPayouts(codes + more, windowEnd)
  {
    if codes != [] && codes[0].at <= windowEnd {
      LaterPayoutsGrow(codes[1..], more, windowEnd);
      assert (codes + more)[1..] == codes[1..] + more;
    }
  }

  /** Redemptions appended later only ever add payouts after the ones already owed. */
  lemma PayoutsMonotone(invitee: User, mission: bool, codes: seq<Redeemed>, more: seq<Redeemed>)
    ensures SettlePayouts(invitee, mission, codes) <= SettlePayouts(invitee, mission, codes + more)
  {
    if mission && codes != [] {
      LaterPayoutsGrow(codes[1..], more, codes[0].at + LATER_CODE_WINDOW);
      assert (codes + more)[1..] == codes[1..] + more;
    }
  }
}
