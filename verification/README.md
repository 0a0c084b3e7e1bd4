# lottery passport: a verified model

This project models the parts of the campaign backend where money-like state and printed
material are decided, and proves what the code promises about them.

* **The coin and code economy.** `Tables` holds the rows, `Transactions` the services as programs
  of single SQL statements, `Economy` the invariant that every statement keeps. `Interleaving` runs
  any number of such transactions at once under wallet and code row locks with READ COMMITTED reads,
  beside staff who change batches; `Concurrency`, `Guarantees`, `Confluence` and `Achievements` prove
  serializability, conservation, exactly-once redemption, limits, referral settlement and unlocks for
  every interleaving. `SoloRuns` turns lone runs into executions, `SettlementTies` uses them to show
  how settlement overpays, and `Erasure` takes calls that never commit out of any execution. `Services` is the same code as a class with the tables as fields, line by line,
  with loops and rollback; `Programs` ties each of its lines to the statement it runs. `Keys` shows
  that the texts of the idempotency keys are as distinct as the tagged values used elsewhere.
* **Printed codes.** `Luhn` (check characters over any base), `Codes` (formats, registry, detection),
  `Parsing` (what the tolerant parser accepts) and `RoundTrip` (printing, QR URLs, typing errors).
* **Print runs.** `Allocation` (largest remainder, optimality, quota), `PrintRuns` (one run under the
  lock, each call free to fail) and `PrintProtocol` (many runs, staff, crashes and lost locks interleaved).
* **The draw.** `Draw` and `DrawProperties`.
* **Mini-games.** `MiniGames` (what calls do, one after the other), `MiniGameCalls` (their statements interleaved) and
  `SharedWallets` (mini-game calls and coin calls together).
* **Stand-alone algorithms.** `Limiter`, `Grid`, `Leaderboard`, `Streaks`, `ReferralRules`.

Main assumptions, each a precondition where it is used:

* the campaign zone is a fixed day-start function, a day starting no later than any of its moments;
* for `Confluence.SettlementIsExact` a user's first redemption stays the earliest, without a tie (`Timely`; weaker
  than stamps that increase); `Confluence.SettlementPays` needs no such thing and says exactly when more was paid
  than is owed, `SettlementTies` shows the two ways it happens, a tie and a late redemption;
* an adjustment's UUID is new;
* for the time that accepted mini-games take, each start commits clear of the player's accepted runs
  (`MiniGames.StartInTime`, the exact condition); the clock is read before the lock, so a start can come too late
  (`MiniGameCalls.LateStartOverlaps`);
* the connection with the print-run lock lives as long as its run (`PrintProtocol.LocksKept`); what its loss can do
  to the quota is in `PrintProtocol.QuotaAlwaysHolds`, and `PrintProtocol.PlansKeepTheQuota` says exactly when a plan is safe;
* participant ids of a draw hold no line break, for the snapshot to commit to its entries;
* some digest of each draw round is accepted, and the code generator can still draw a code not yet taken;
* identifiers in use have distinct UUID texts and dates distinct date texts.

The invariant that executions start from holds of empty tables (`Economy.EmptyInv`), and every write
keeps it, so the theorems speak of real runs.

Where a comment and the code differ the code is followed. `app/infrastructure/postgres/repositories.py:1014-1025`
says that `top` and `rank_of` can never disagree, which holds exactly when no two players tie in score and
time (`Leaderboard.PlacesAreFixed`). `app/domain/codes.py:26-28` relies on the check character catching a
mistyped character, which needs an even base; `CodeFormat` does not demand one, and both registered formats
have base 32 (`Codes.DetectionNeedsAnEvenBase`). `scripts/qr_sheets.py:112-122` speaks of every grid and is right
about the grid it picks (`Grid.SearchIsOptimal`), but margins that leave no printable space on an axis, with a gutter
that makes the least cell size negative there, can make it give up although a grid fits (`Grid.GivesUpWhenNoneFits`).
`app/infrastructure/postgres/unit_of_work.py:155-165` orders redemptions by their moment alone, while
`app/domain/referrals.py:96-127` treats the first of them differently: at a tie for the first place what is owed is
up to the database (`SettlementTies.NoTieNoChoice`), and both versions can get paid (`SettlementTies.TiesPayBoth`).

`dafny verify dfyconfig.toml` checks everything.

## Model

| member | source | states |
|---|---|---|
| `Concurrency.CommitOrderIsSerial` | app/infrastructure/postgres/unit_of_work.py:1-15 | For every interleaving, the committed tables are those of running the committed calls one by one, each alone, in commit order (serializability). |
| `Concurrency.WalletsMatchLedger` | app/infrastructure/postgres/unit_of_work.py:207-263 | In every committed state of every interleaving each wallet balance is the sum of its user's ledger entries and at least 0, and `lifetime_earned` is the sum of the positive ones. |
| `Concurrency.UniqueKeyNeverFires` | app/infrastructure/postgres/unit_of_work.py:224-255 | No statement of any transaction in any interleaving runs into the unique idempotency key, the `amount <> 0` check or a missing row, nor into the primary key of a claim, an unlock or a binding: the checks made under the locks already exclude it. |
| `Concurrency.NoDeadlock` | app/infrastructure/postgres/unit_of_work.py:13-14 | Whenever transactions are in flight, in any reachable state, one of them waits for no lock. |
| `Concurrency.AlwaysSafe` | app/infrastructure/postgres/unit_of_work.py:1-15 | Every state of every interleaving keeps the economy's invariants, holds each lock at most once, and each live transaction is where it would be if it ran alone on the tables as they are now. |
| `Economy.CommitKeepsInv` | app/infrastructure/postgres/unit_of_work.py:224-255 | Committing any request that ran alone keeps balances, key uniqueness, backing of each entry, points, daily limits and bindings; it only adds; and it is never refused for a key conflict, nor for lack of coins unless it is an adjustment downwards. |
| `Economy.StepKeeps` | app/infrastructure/postgres/unit_of_work.py:94-263 | Each single SQL statement of each service keeps the invariant up to the debts the transaction still owes. |
| `Interleaving.TrajMoves` | app/infrastructure/postgres/unit_of_work.py:3-12 | A transaction's statements give the same results on any tables that agree on the rows it has locked or owns, so what others commit does not disturb it. |
| `Interleaving.StepFrame` | app/infrastructure/postgres/unit_of_work.py:3-12 | One statement depends only on rows its transaction locks or owns. |
| `Interleaving.OtherOpsSame` | app/infrastructure/postgres/unit_of_work.py:3-12 | The writes of one live transaction leave the rows that another is entitled to as they were. |
| `Guarantees.RedeemerNeverChanges` | app/infrastructure/postgres/unit_of_work.py:94-121 | A redeemed code keeps its redeemer and its time in every later state. |
| `Guarantees.PointsAndPayMatchRedemptions` | app/application/redemption_codes.py:314-355 | In every committed state a user's points in a city are the number of that user's redeemed codes of the city, and each redeemed code worth coins has exactly one ledger entry, to its redeemer, at its batch's price. |
| `Guarantees.RollbackFreesCode` | app/application/redemption_codes.py:323-328 | Whenever a redemption that holds a code rolls back, refused by the daily limit or for any other reason, the code is unredeemed in the committed tables and its row free for the next attempt. |
| `Guarantees.LimitRefusalHoldsTheCode` | app/application/redemption_codes.py:323-328 | The daily-limit refusal comes while the code row is held, so the rollback after it is one of those. |
| `Guarantees.DailyLimitHolds` | app/application/redemption_codes.py:322-328 | In every committed state no user has more than the daily limit of redemptions stamped inside one campaign day, whatever order the stamps come in. |
| `Guarantees.FirstCodeBonusOnce` | app/application/redemption_codes.py:357-386 | Across any edits of the reward rule a user gets at most one first-code bonus. |
| `Guarantees.RedemptionsCounted` | app/infrastructure/postgres/repositories.py:389-400 | After any log of calls a user's codes of a flavor number what was there plus the redemptions in the log. |
| `Guarantees.EventCounts` | app/application/redemption_codes.py:314-355 | A committed call changes a user's codes of a flavor by exactly one if it redeemed such a code, and otherwise not at all. |
| `Guarantees.ExactlyTheFifthUnlocks` | app/domain/teams.py:31-42 | Among a user's committed redemptions of one flavor exactly the fifth reports the flavor as unlocked. |
| `Erasure.RetriesLeaveNoTrace` | app/application/redemption_codes.py:388-422 | From every execution all same-user retries, begun after the redemption was committed, can be deleted: what is left is an execution that ends in the same tables and log, with all other calls begun on the same tables and those in flight where they were. |
| `Erasure.HopelessCallsLeaveNoTrace` | app/application/redemption_codes.py:388-422 | The same for any choice of redemption calls that begin when their code is redeemed, by whomever. |
| `Erasure.NeverReady` | app/application/redemption_codes.py:314-328 | A redemption call for a code redeemed before it began never gets ready to commit, in any interleaving. |
| `Erasure.RollbacksLeaveNoTrace` | app/infrastructure/postgres/unit_of_work.py:608-621 | From every execution all calls that roll back, retries made while the first call was still in flight among them, can be deleted: what is left ends in the same tables, log and calls in flight, and never rolls back. |
| `Erasure.OneRedemptionCommits` | app/infrastructure/postgres/unit_of_work.py:94-121 | Of all the redemption calls for a code in an execution, however they interleave, at most one commits. |
| `Erasure.EraseCall` | app/infrastructure/postgres/unit_of_work.py:608-621 | For any call that rolls back or is still in flight, leaving out its actions gives an execution with the same tables and log, everybody else in flight as they were; of an adjustment only the use of its UUID goes too. |
| `Guarantees.TrajTransparent` | app/application/redemption_codes.py:338-355 | The answer of a redemption is what its own transaction sees at the end: city, points, coins, balance and the unlock flag. |
| `Confluence.SettlementPays` | app/application/referrals.py:107-145 | In every execution a settlement whose history was still current when it committed has paid all that history owes, each payout once, to the inviter; nothing beyond it stands in the ledger if and only if the later-code bonuses paid before still fit the history. |
| `Confluence.SettlementIsExact` | app/application/referrals.py:107-145 | While first redemptions stay first (`Timely`) that is always so: after such a settlement the entries about the invitee are exactly `settle_payouts` of the history. |
| `Confluence.AlwaysReferralsSafe` | app/application/referrals.py:107-145 | In every interleaving whose first redemptions stay first, every later-code bonus in the ledger is one that the redemptions in the tables owe. |
| `Confluence.QualifiedWereInvited` | app/infrastructure/postgres/unit_of_work.py:534-568 | In every committed state an inviter's `qualified_count` is at most `invited_count`. |
| `Confluence.LateFirstCodeOverpays` | app/domain/referrals.py:96-127 | On payout lists: a redemption stamped no later than the first one that becomes first leaves everything owed before still owed if and only if every later code still fits the new window. |
| `Confluence.LateFirstCodeExample` | app/domain/referrals.py:96-127 | On payout lists: concrete redemptions, stamped out of order, for which an owed bonus is no longer owed. |
| `SettlementTies.FirstCodeDecides` | app/infrastructure/postgres/unit_of_work.py:155-165 | Two listings of the same redemptions owe the same if and only if they start with the same code. |
| `SettlementTies.NoTieNoChoice` | app/infrastructure/postgres/unit_of_work.py:155-165 | What is owed does not depend on how `list_redeemed` lists ties if and only if no other redemption has the moment of the first. |
| `SettlementTies.TiesPayBoth` | app/infrastructure/postgres/unit_of_work.py:155-165 | Whenever two codes tie for the first redemption of a bound invitee, an execution of two settlements and nothing else pays the later-code bonus for both, although the listing that puts one of them first owes nothing for it. |
| `SettlementTies.TieFromNothing` | app/infrastructure/postgres/unit_of_work.py:155-165 | An execution from empty tables reaches a tie: a batch of two codes, a binding, and two redemptions that read the same clock. |
| `SettlementTies.BothPaidFromNothing` | app/infrastructure/postgres/unit_of_work.py:155-165 | An execution from empty tables that ends with the later-code bonus paid for both of two tied codes. |
| `SettlementTies.LateRedemptionOverpays` | app/application/referrals.py:107-145 | Whenever a redemption can commit with a clock reading so early that a rewarded code falls out of the window, an execution of one settlement and that redemption leaves a bonus paid that no listing owes. |
| `SoloRuns.SettlesAlone` | app/application/referrals.py:107-145 | A settlement of a bound invitee with the mission done and a redemption gets from its first statement to its commit, whatever the ledger holds. |
| `SoloRuns.RedeemsAlone` | app/application/redemption_codes.py:314-355 | A redemption of a free code of an active batch, below the daily limit, gets to its commit, whatever its clock says. |
| `SoloRuns.BindsAlone` | app/application/referrals.py:89-105 | A binding that nothing stands against gets to its commit, which adds it and leaves codes, batches and ledger alone. |
| `SoloRuns.RunAlone` | app/infrastructure/postgres/unit_of_work.py:570-625 | A call that reads committed values and whose statements get it ready can be run, from begin to commit, as steps of the interleaving. |
| `ReferralRules.PayoutsMeaning` | app/domain/referrals.py:96-127 | For a complete mission and an ordered history `settle_payouts` pays exactly the first-code bonus and one bonus for each later code inside the window: the early exit of the loop loses nothing. |
| `ReferralRules.PayoutsMonotone` | app/domain/referrals.py:96-127 | Later redemptions only append payouts. |
| `ReferralRules.ComputePayouts` | app/domain/referrals.py:96-127 | The loop with its break computes that list. |
| `Programs.CheckCanBind` | app/domain/referrals.py:71-88 | A binding is allowed exactly when the code is somebody else's, the invitee is unbound and has redeemed nothing; otherwise the refusal is that of the first check that fails. |
| `Achievements.ClaimUnlocksWhatIsReached` | app/application/challenges.py:222-264 | A committed check-in claim unlocks exactly the catalogue's achievements within the streak that the user lacked, for that user only; any other claim unlocks nothing. |
| `Achievements.EveryUnlockWasEarned` | app/application/challenges.py:222-264 | In every state of every execution each unlock row not there at the start comes from a committed claim of its user, after which the user had checked in on as many days in a row, ending today or yesterday, as the achievement asks. |
| `Achievements.UnlocksArePaidOnce` | app/application/challenges.py:230-264 | In every committed state an achievement reward stands in the ledger at most once per user, and only beside the unlock. |
| `Streaks.CurrentStreak` | app/domain/periods.py:67-81 | The loop terminates and counts the run of days ending today, or yesterday while today is unclaimed. |
| `Streaks.RunIsMaximal` | app/domain/periods.py:67-81 | That count is the one number of days that are all claimed with an unclaimed day before them. |
| `Streaks.CheckinExtendsStreak` | app/domain/periods.py:67-81 | Claiming an unclaimed today raises the streak by exactly one. |
| `Keys.KeysAreInjective` | app/application/challenges.py:178 | The texts of the idempotency keys are equal exactly when family, ids and period are, even when challenge ids hold colons. |
| `Keys.PeriodEnds` | app/domain/periods.py:26-41 | No period key is an end of another. |
| `Services.Store.RedeemCode` | app/application/redemption_codes.py:275-312 | Leaves what its transaction alone would commit; a retry by the redeemer answers the recorded coins and changes nothing; refusals restore every table. |
| `Services.Store.ApplyClaim` | app/application/redemption_codes.py:329-355 | From the passport entry, after the daily count, to the answer, with `balance` rebound by each payment. |
| `Services.Store.AwardFirstCodeBonus` | app/application/redemption_codes.py:357-386 | The bonus paid, or 0 when it is off or was paid before. |
| `Services.Store.ResolveUnclaimed` | app/application/redemption_codes.py:388-422 | Unknown or unreleased, someone else's, or one's own redemption answered again. |
| `Services.Store.ClaimChallenge` | app/application/challenges.py:149-199 | Ends as its transaction alone would, committed or with every table restored. |
| `Services.Store.UnlockStreaks` | app/application/challenges.py:230-264 | The achievement loop. |
| `Services.Store.AdjustCoins` | app/application/coin_adjustments.py:65-133 | The only debit path: ends as its transaction alone would. |
| `Services.Store.BindReferral` | app/application/referrals.py:89-105 | Ends as its transaction alone would. |
| `Services.Store.SettleReferral` | app/application/referrals.py:107-145 | The payout loop: pays what the ledger does not hold yet. |
| `Services.Store.RecordEntry` | app/infrastructure/postgres/unit_of_work.py:224-255 | The insert under its constraints, then the guarded wallet update; nothing when refused. |
| `Services.Store.UpdateCode` | app/infrastructure/postgres/unit_of_work.py:94-121 | Takes a code exactly when it is unredeemed and its batch active. |
| `Services.Store.UpsertPoints` | app/infrastructure/postgres/unit_of_work.py:172-195 | The new total of a user's points in a city. |
| `Services.Store.InsertAndLockWallet` | app/infrastructure/postgres/unit_of_work.py:211-222 | Makes a missing wallet empty and returns the balance. |
| `Services.Store.Rollback` | app/infrastructure/postgres/unit_of_work.py:608-621 | Leaving without a commit restores every table. |
| `Services.CallsKeepTheEconomy` | app/infrastructure/postgres/unit_of_work.py:570-625 | What a service method leaves is what its transaction commits alone, so the method keeps the whole economy's invariant. |
| `Services.RedemptionsKeepTheEconomy` | app/application/redemption_codes.py:388-398 | The same for a redemption, and `INVALID` then means unknown, or unredeemed outside an active batch. |
| `Luhn.ComputeSum` | app/domain/codes.py:255-263 | The alternating loop computes the recursive sum. |
| `Luhn.CheckIsTheOnlyOne` | app/domain/codes.py:270-288 | For every base and length the computed check value is valid and no other is. |
| `Luhn.SubstitutionUndetected` | app/domain/codes.py:255-288 | In any base, another value in a valid sequence goes unnoticed exactly when it is doubled there and doubles to the same addend, which takes an odd base. |
| `Luhn.SwapUndetected` | app/domain/codes.py:255-288 | Swapping neighbours goes unnoticed exactly when they are equal or the first and last symbol, in any base. |
| `Codes.OneCheckCharacter` | app/domain/codes.py:270-296 | The generated check character is valid and the only valid one. |
| `Codes.WrongCharacterDetected` | app/domain/codes.py:283-288 | One character replaced, check included, passes the check exactly when it is doubled there and doubles to the same addend; never in an even base. |
| `Codes.DetectionNeedsAnEvenBase` | app/domain/codes.py:111-131 | For every format the constructor accepts, all single mistyped characters of all its codes are detected if and only if its base is even. |
| `Codes.UndetectedTypo` | app/domain/codes.py:111-131 | For every format of odd base and every city, a valid code and a mistyped last body character that pass the check. |
| `Codes.WrongCityDetected` | app/domain/codes.py:275-276 | Another city's prefix passes exactly when the two indexes are doubled there, to the same addend; never in an even base. |
| `Codes.SwapDetected` | app/domain/codes.py:283-288 | A swap of neighbours passes exactly when they are equal or the ends of the alphabet. |
| `Codes.Registry.Register` | app/domain/codes.py:179-192 | Keeps ids and lengths distinct; each refusal exactly in its case; registering again is harmless. |
| `Codes.LaterFormatsChangeNothing` | app/domain/codes.py:179-192 | A format added later never takes over a length already in use. |
| `Codes.RegisteredFormats` | app/domain/codes.py:164-211 | Both registered formats are accepted by the constructor and fit one registry. |
| `Parsing.ComputeStripped` | app/domain/codes.py:310-318 | The loop drops exactly the separators. |
| `Parsing.ParseMeansRespelling` | app/domain/codes.py:347-376 | Parsing succeeds with exactly the valid code the text spells: case, separators, look-alikes and zero for O aside. |
| `Parsing.MistypedMeansWrongCheck` | app/domain/codes.py:347-376 | `MISTYPED` says exactly that the text spells something of a registered shape whose check fails. |
| `Parsing.AlignmentIsUnique` | app/domain/codes.py:361-370 | Normalized text can stand for one code of its length only. |
| `RoundTrip.ComputePrinted` | app/domain/codes.py:299-307 | The loop joins the groups with dashes. |
| `RoundTrip.RespellingsParse` | app/domain/codes.py:347-376 | In any registry, a respelling of a code parses to its city, canonical text and format exactly when what is left of it after the QR wrapper still is a respelling; in a format free of separators and URL marks that is always so. |
| `RoundTrip.PrintedSpells` | app/domain/codes.py:299-307 | The printed form spells the code and differs from it only by separators. |
| `RoundTrip.ParsingIsIdempotent` | app/domain/codes.py:347-376 | What the parser returns, canonical or printed, parses to the same again. |
| `RoundTrip.FragmentFormParses` | app/domain/codes.py:330-344 | In any registry a text in the fragment form parses to a code exactly when what the QR wrapper leaves spells it; in a clean format every respelling after the last `#` does, whatever stands before. |
| `RoundTrip.QrUrlParses` | scripts/generate_codes.py:73-83 | In a clean format the QR URL of a code parses back to it if and only if its base, trailing slashes gone, has `://` and no `#`. |
| `RoundTrip.RegisteredAreClean` | app/domain/codes.py:164-211 | Both registered formats meet the precondition of the round trips. |
| `RoundTrip.TypoIsMistyped` | app/domain/codes.py:347-376 | In a format of even base, one character mistyped as another of the alphabet is reported as mistyped, never as another code. |
| `RoundTrip.WrongPrefixIsMistyped` | app/domain/codes.py:347-376 | In a format of even base, a right tail under another city's prefix is reported as mistyped. |
| `RoundTrip.SwapIsMistyped` | app/domain/codes.py:347-376 | Swapped neighbours are reported as mistyped unless equal or the ends of the alphabet. |
| `Allocation.Allocate` | app/domain/print_runs.py:106-125 | The dictionary loops give the largest-remainder split, or the error of the first check that fails. |
| `Allocation.ValidateWeights` | app/domain/print_runs.py:98-103 | Accepts exactly non-negative weights that add up to 1; a negative weight is refused before a wrong sum. |
| `Allocation.OnlyOneSplit` | app/domain/print_runs.py:106-125 | Rounding each share, larger remainders first with ties in flavor order, to a sum of k leaves one split only. |
| `Allocation.AllocationIsFair` | app/domain/print_runs.py:106-125 | Each count is within less than 1 of its exact share and not negative; weight 0 gets 0; a whole share is met exactly. |
| `Allocation.LargestRemainderIsOptimal` | app/domain/print_runs.py:106-125 | No other integer split of k has a smaller total absolute deviation from the exact shares. |
| `Allocation.PlanRun` | app/domain/print_runs.py:128-162 | A bad k, then bad weights, are refused as such; accepted plans fit the quota of every flavor; the other refusals list exactly the short ones. |
| `Allocation.Shortages` | app/domain/print_runs.py:135-150 | Lists exactly the flavors that want more than is left, zero at least. |
| `PrintRuns.Store.UniqueRunId` | scripts/print_run.py:111-126 | The search ends, with the first candidate that starts no label. |
| `PrintRuns.LabelsTellRunsApart` | scripts/print_run.py:289-296 | A label starts with one run id only, so the rollback finds its own batches. |
| `PrintRuns.Store.BuildUniqueCodes` | scripts/generate_codes.py:64-70 | The draw ends with exactly so many different codes, all of them drawn. |
| `PrintRuns.Store.InsertCodes` | scripts/generate_codes.py:86-115 | Inserts exactly the codes not there yet and says which. |
| `PrintRuns.Store.GenerateBatch` | scripts/generate_codes.py:130-217 | A bad quantity, then bad coins, are refused with nothing changed; the chunk loop ends; a finished batch holds exactly its quantity of new codes, an interrupted one no more; old codes stay. |
| `PrintRuns.Store.SetStatus` | scripts/code_batches.py:110-148 | Changes a batch exactly when its status allows it. |
| `PrintRuns.Store.Rollback` | scripts/print_run.py:285-306 | Voids the run's batches, found by label, and nothing else. |
| `PrintRuns.Store.GenerateAll` | scripts/print_run.py:251-309 | All planned batches complete, or the run cut short with the old batches untouched. |
| `PrintRuns.Store.RunPrintRun` | scripts/print_run.py:172-248 | A finished run has exactly the allotted batches, a failed one none active and all void if the rollback went through, a refused one changed nothing; no flavor passes its quota or its starting level. |
| `PrintRuns.PlannedIssue` | scripts/print_run.py:94-104 | A run, however far it got, has issued nothing or its whole allotment of a flavor. |
| `PrintProtocol.QuotaAlwaysHolds` | scripts/print_run.py:181-217 | Over any interleaving of runs, staff, crashes and lost lock connections, what is issued of a flavor stays within the quota or its starting level, but for codes generated directly and codes that other runs still had to issue when a run was planned. |
| `PrintProtocol.PlansAloneKeepTheQuota` | scripts/print_run.py:181-217 | When no other run has codes to issue whenever one is planned, the quota is kept but for codes generated directly. |
| `PrintProtocol.LocksKept` | scripts/print_run.py:181-193 | As long as no lock connection is lost, plans are made alone and run ids differ from those at work. |
| `PrintProtocol.PlansKeepTheQuota` | scripts/print_run.py:190-192 | Every plan a run may make keeps the quota if and only if for each flavor the quota is used up or what other runs have to issue still fits beside it. |
| `PrintProtocol.LostLockBreaksTheQuota` | scripts/print_run.py:181-217 | An execution with quota 1 in which the first run loses its lock connection and two codes of the flavor are issued. |
| `PrintProtocol.FinishedRunsAreExact` | scripts/generate_codes.py:186-217 | A finished run has issued exactly its allotment of each flavor and filled every batch. |
| `PrintProtocol.RolledBackStaysVoid` | scripts/print_run.py:285-306 | Batches of a rolled-back run are void for good, whatever staff do later. |
| `PrintProtocol.RunsKeepToTheirOwn` | scripts/print_run.py:285-306 | No step of a run touches a batch or the codes of a run with another id. |
| `PrintProtocol.FreshStartsDiffer` | scripts/print_run.py:111-126 | While no run starts with the id of one at work, every run that has written a batch has an id of its own. |
| `PrintProtocol.RollbackHits` | scripts/print_run.py:285-306 | A rollback goes for batches of another run if and only if that one has the same id and has written a batch. |
| `PrintProtocol.SameIdVoidsTheOther` | scripts/print_run.py:111-126 | An execution in which, after a lost lock, a second run gets the id of the first, whose rollback voids the second one's batch. |
| `PrintProtocol.OnlyStaffActivates` | scripts/code_batches.py:110-148 | A batch becomes redeemable by a staff decision only, so an abandoned run has released nothing. |
| `PrintProtocol.StepKeeps` | scripts/print_run.py:172-309 | Each statement of a run, of its rollback and of staff, and each loss of a lock connection, keeps the protocol's invariant. |
| `Draw.UniformBelow` | app/domain/draw.py:26-38 | The rejection loop ends at the first accepted value. |
| `Draw.DrawWinners` | app/domain/draw.py:41-68 | The loops give the winners of the sorted pool; each error exactly in its case. |
| `Draw.Scan` | app/domain/draw.py:61-66 | The cumulative scan stops at the entry whose stretch of tickets holds the ticket. |
| `Draw.SortedIsUnique` | app/domain/draw.py:57 | Sorting forgets the order of the entries. |
| `DrawProperties.OrderDoesNotMatter` | app/domain/draw.py:41-68 | The winners depend on the entries, not on their order. |
| `DrawProperties.ReserveIsAfterTheWinners` | app/domain/draw.py:41-68 | Drawing fewer names gives a prefix of drawing more. |
| `DrawProperties.WinnersAreDistinctEntrants` | app/domain/draw.py:41-68 | Winners are distinct entrants of positive weight. |
| `DrawProperties.PoolCounts` | app/domain/draw.py:57 | The pool has one place for each entrant of positive weight, which bounds how many are drawn. |
| `DrawProperties.MostAreAccepted` | app/domain/draw.py:30-31 | For bounds up to 2^256 rejection keeps more than half of the values, in whole rounds of residues. |
| `DrawProperties.EveryResidueEqually` | app/domain/draw.py:30-37 | Every number below the bound comes from exactly limit/bound accepted values. |
| `DrawProperties.ChancesAreProportional` | app/domain/draw.py:58-67 | An entry of weight w wins a round by exactly w times limit/total values. |
| `DrawProperties.SnapshotCommits` | app/domain/draw.py:20-23 | Two snapshots whose participant ids hold no line break have the same canonical text exactly when they hold the same entries. |
| `DrawProperties.LineBreaksVoidTheCommitment` | app/domain/draw.py:20-23 | With line breaks in ids, every snapshot of two or more entries shares its text with one of a single entry. |
| `Limiter.RateLimiter.Handle` | app/api/middleware.py:29-51 | Admits exactly when fewer than `requests` calls of the client were admitted within the window; the queue stays in step with the history. |
| `Limiter.RateLimiter.Trim` | app/api/middleware.py:41-42 | The loop leaves exactly the recent times. |
| `Limiter.AdmittedCallsAreSpread` | app/api/middleware.py:34-51 | Any `requests` + 1 consecutive admitted calls of a client span at least the window. |
| `Limiter.RefusedOnlyWhenFull` | app/api/middleware.py:43-44 | A call is refused only when `requests` calls of the client were admitted within the last window. |
| `Limiter.ClientsAreSeparate` | app/api/middleware.py:40 | A client who calls at the same times gets the same verdicts, whatever other clients do. |
| `Grid.PlanGrid` | scripts/qr_sheets.py:103-169 | Each error exactly in its case; otherwise the best of the grids tried, with its cell sizes, which fill the printable area unless both that and the least cell size are negative on an axis. |
| `Grid.Search` | scripts/qr_sheets.py:138-149 | The loop finds the best column count, the least on a tie. |
| `Grid.SearchIsOptimal` | scripts/qr_sheets.py:112-122 | When the search finds a grid, no feasible grid at all, tried or not, has a smaller (waste, aspect gap); for every sheet. |
| `Grid.GivesUpWhenNoneFits` | scripts/qr_sheets.py:151-155 | The fit error is raised exactly when no grid of any size fits, unless `MissesAGrid`, a test of the sheet alone, holds; and then it is raised although one fits. |
| `Grid.NegativeCellsMislead` | scripts/qr_sheets.py:133-136 | Concretely, with margins wider than the page and a negative gutter the search gives up although a grid fits. |
| `Grid.CellPositions` | scripts/qr_sheets.py:194-201 | The nested loops place each cell, row by row. |
| `Grid.CellsInsideMargins` | scripts/qr_sheets.py:194-201 | Cells lie inside the margins. |
| `Grid.CellsAreDisjoint` | scripts/qr_sheets.py:194-201 | Cells never overlap. |
| `Grid.PagesHoldTheRows` | scripts/qr_sheets.py:172-182 | Pages hold the rows in order, none lost, all but the last full, as many as `page_count` says. |
| `Leaderboard.RankIsOneMoreThanThoseAhead` | app/infrastructure/postgres/repositories.py:1030-1072 | A rank is at least 1 + the number of players whose best run is better, and exactly that without ties. |
| `Leaderboard.PlacesAreFixed` | app/infrastructure/postgres/repositories.py:1014-1025 | Every query gives the same places if and only if no two players' best runs tie in score and time. |
| `Leaderboard.RankOfAgreesWithTop` | app/infrastructure/postgres/repositories.py:1074-1119 | Without ties `rank_of` and `top` agree in rank, player and score, and `top(n)` is ranks 1 to min(n, players). |
| `Leaderboard.SomeRanking` | app/infrastructure/postgres/repositories.py:1030-1072 | The query always has a result. |
| `MiniGames.MiniGameStore.StartRun` | app/application/mini_games.py:86-114 | Closes the player's open run as expired and opens the new one; at most one is ever open. |
| `MiniGames.MiniGameStore.FinishRun` | app/application/mini_games.py:116-174 | Every refusal and verdict in its case, a run found too old recorded as expired, and nothing else changed. |
| `MiniGames.PlausibleTakesLong` | app/domain/mini_games.py:158-189 | A plausible run lasted at least 4501 ms. |
| `MiniGames.AlwaysInv` | app/application/mini_games.py:86-174 | After any sequence of calls each player has at most one open run, and accepted runs lasted long enough. |
| `MiniGameCalls.CommitOrderIsSerial` | app/application/mini_games.py:86-174 | For every interleaving of the statements of mini-game calls under the wallet lock, the committed table is what the committed calls make one by one, in commit order. |
| `MiniGameCalls.OneOpenIndexNeverFires` | app/infrastructure/postgres/models.py:634-639 | No statement of any interleaving runs into the index on open runs or the primary key, and no committed table has two open runs of one player. |
| `MiniGameCalls.ClosedForGood` | app/application/mini_games.py:116-174 | A run closed, by a verdict or as expired, never changes again in any interleaving, although the update names it by its id alone. |
| `MiniGameCalls.FinishCommits` | app/application/mini_games.py:116-174 | A `finish_run` commits on an open run of its caller only, closes it, and answers for the table it commits to. |
| `MiniGameCalls.OneFinishCommits` | app/application/mini_games.py:116-174 | Of all the `finish_run` calls for a run, however they interleave, at most one commits. |
| `MiniGameCalls.AlwaysApart` | app/application/mini_games.py:86-174 | In every interleaving whose starts commit in time (`StartInTime`: clear of the player's accepted runs in the table they commit to) no two accepted runs of a player overlap, whatever the clocks of the finishes. |
| `MiniGameCalls.AcceptedRunsTakeTime` | app/application/mini_games.py:86-174 | Then n accepted runs of a player need n times 4501 ms. |
| `MiniGameCalls.LateStartsOverlap` | app/application/mini_games.py:90-92 | From any point of an interleaving where a start that is not in time gets its lock, it can go on to two accepted runs that overlap. |
| `MiniGameCalls.LateStartOverlaps` | app/application/mini_games.py:90-92 | An interleaving in which calls begin in clock order but a start gets its lock late, with two accepted runs in seven seconds. |
| `MiniGames.AlwaysSuccessive` | app/application/mini_games.py:86-174 | When the clock readings of a player's calls do not go back in commit order, the player's runs never overlap in time. |
| `MiniGames.StartInTimeIsExact` | app/application/mini_games.py:86-114 | Whatever finish follows a start, accepted runs stay apart, if and only if the start is in time. |
| `MiniGames.AlwaysOrderly` | app/application/mini_games.py:86-174 | While starts are in time no two accepted runs of a player overlap. |
| `MiniGames.ClockOkStartsInTime` | app/application/mini_games.py:86-114 | With a clock that does not go back between a player's calls every start is in time. |
| `MiniGames.AcceptedRunsTakeTime` | app/application/mini_games.py:86-174 | While starts are in time, n accepted runs of one player need n times 4501 ms. |
| `SharedWallets.AlwaysSafe` | app/infrastructure/postgres/unit_of_work.py:211-222 | With coin calls and mini-game calls interleaved under the same wallet locks both keep their invariants, no wallet is locked twice, and the wallet rows that mini-game calls add disturb nothing. |
| `SharedWallets.NoDeadlock` | app/infrastructure/postgres/unit_of_work.py:13-14 | Whenever coin calls or mini-game calls are in flight, one of them waits for no lock. |

## Left out

- Time zones, DST and calendar formatting: days, weeks and months are numbers given by the zone.
- Unicode: the parser is modelled on ASCII text, where NFKC, digit folding and Unicode separators change nothing beyond the ASCII rules; white space of `str.strip` is the ASCII one. Format aliases are single characters.
- HMAC, SHA-256 and the pepper: a code row stands for its hash (no two codes share one), the draw's digest is any function of the message text.
- The failure throttle in front of redemption, audit rows, structured logging and the reward-rule, challenge and achievement catalogues: what a call reads of them is a free value of the request.
- Codes without a batch: never claimable, so they are not in the code table.
- Reward amounts of achievements and challenges are the catalogue's at the moment of the call.
- Team-change transactions are not part of the interleaving. There is one mini-game, as in the code, and the flag for abusive play is only logged.
- `generate_codes` run directly bypasses the print-run quota: `PrintProtocol` counts what it adds and excepts it.
- The contents of CSV, manifest and checksum files, shuffling, and the deletion of files after a failed run.
- Floating point: grid sizes, weights, scores and monotonic clock readings are exact reals, and wall times exact microseconds.
- SMS, OTP, sessions, admin pages, media, nicknames, health checks, migrations, backups: plumbing around the above.
- User deletion and `reset_test_users`, which remove history by design.
- `unregister_format` (for tests only), `parse_weights` and `parse_sku` (command line text).
- PrintRuns.Store.GenerateBatch: the set of inserted codes is stated, not the order of the file's rows.
- RoundTrip.QrUrlParses: like the typing errors after it, is stated for formats whose alphabets and aliases are free of separators, white space, `#`, `/` and `:`, as both registered formats are; the format constructor admits others.
- Confluence.SettlementPays: like `SettlementIsExact` states exactness for a settlement whose history is still current when it commits; one overtaken by a redemption leaves the rest to the next settlement.
- PrintProtocol.OnlyStaffActivates: a run that dies may leave generated batches behind; they are not redeemable until staff activate them, and nothing in the code stops staff from doing so.
