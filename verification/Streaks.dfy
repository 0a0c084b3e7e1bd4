/** The daily check-in streak (app/domain/periods.py, `current_streak`). Days are numbers. */
module Streaks {

  /** How many consecutive days ending at `day` are in `days`. */
  function RunEndingAt(days: set<int>, day: int): nat
    decreases |set d | d in days && d <= day|
  {
    if day !in days then 0
    else
      RunShrinks(days, day);
      1 + RunEndingAt(days, day - 1)
  }

  lemma RunShrinks(days: set<int>, day: int)
    requires day in days
    ensures |set d | d in days && d <= day - 1| < |set d | d in days && d <= day|
  {
    var now, before := set d | d in days && d <= day, set d | d in days && d <= day - 1;
    assert now == before + {day};
  }

  /** The streak starts at today, or at yesterday while today is not claimed yet. */
  function Streak(days: set<int>, today: int): nat {
    RunEndingAt(days, if today in days then today else today - 1)
  }

  /** Days `last - n + 1` to `last` are all claimed. */
  predicate AllClaimed(days: set<int>, last: int, n: nat) {
    forall d | last - n < d <= last :: d in days
  }

  method CurrentStreak(days: set<int>, today: int) returns (streak: nat)
    ensures streak == Streak(days, today)
  {
    var cursor := if today in days then today else today - 1;
    streak := 0;
    while cursor in days
      invariant streak + RunEndingAt(days, cursor) == Streak(days, today)
      decreases |set d | d in days && d <= cursor|
    {
      RunShrinks(days, cursor);
      streak := streak + 1;
      cursor := cursor - 1;
    }
  }

  /** The run is maximal: n days are claimed and no longer run fits, for exactly one n. */
  lemma {:induction false} RunIsMaximal(days: set<int>, day: int, n: nat)
    ensures n == RunEndingAt(days, day) <==> AllClaimed(days, day, n) && day - n !in days
    decreases |set d | d in days && d <= day|
  {
    if day in days {
      RunShrinks(days, day);
      if n > 0 {
        RunIsMaximal(days, day - 1, n - 1);
        assert AllClaimed(days, day, n) <==> AllClaimed(days, day - 1, n - 1);
      }
    } else if n > 0 {
      assert day - n < day <= day;
    }
  }

  /** Checking in today extends the streak the player walked in with by exactly one. */
  lemma CheckinExtendsStreak(days: set<int>, today: int)
    requires today !in days
    ensures Streak(days + {today}, today) == Streak(days, today) + 1
  {
    var n := RunEndingAt(days, today - 1);
    RunIsMaximal(days, today - 1, n);
    assert today - (n + 1) !in days + {today};
    assert AllClaimed(days + {today}, today, n + 1);
    RunIsMaximal(days + {today}, today, n + 1);
  }
}
