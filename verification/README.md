# Seev core logic, modelled and proved in Dafny

Seev is a Go payment platform. This project models the parts of it whose correctness ranges over
unbounded inputs or over every interleaving, and proves what those parts are for.

- **Import cycles** (`ImportGraph`, `Components`): the architecture report's Tarjan search splits the
  packages into exactly the classes of mutual dependency, dependencies first, and its count is the
  number of cycles.
- **Cron** (`Calendar`, `Cron`, `CronNext`, `CronParse`, `CronTokens`, `CronText`): the skip-ahead search returns
  the least firing minute after the start, and gives up exactly on expressions that no date of the
  whole Gregorian calendar fits. What is written in an expression is what is parsed.
- **Job leases** (`Lease`): one execution of a job at a time, and exactly when one takes another's lease.
- **Circuit breakers** (`Breaker`, `RedisBreaker`): when a vendor is cut off, when it is probed, and on
  exactly which histories the Redis scripts and the in-process tracker give the same answers.
- **Vendor callbacks and outbound log** (`Inbox`, `Outbound`): single SQL statements of any number of
  handlers interleaved with crashes, database errors and statements that arrive late.
- **Confirmed publishing** (`Publisher`): channels borrowed from a pool by concurrent publishers.
- **Counters and limits** (`Counter`, `RateLimiter`, `Failover`): windows anchored to the first write,
  collection nobody can observe, the admission bound of the token bucket, hysteresis.
- **Velocity policy and its recovery** (`PolicyKeys`, `Policy`, `PolicyCaps`, `PolicyBooks`, `PolicyBurst`,
  `Reseed`): what a check allows, how far requests in flight can overshoot a cap, what every record tells
  the counters, and when the counters rebuilt from the ledger equal the lost ones.

`Options`, `Text` and `SortedStrings` hold what the others share. `dafny verify dfyconfig.toml` checks
the whole project.

## How it is modelled

Objects that the source updates in place are classes with the same fields; loops are loops. A critical
section, a Lua script or a SQL statement is one step, except that the outbound log's
`INSERT ... SELECT MAX+1` is two: a snapshot read and an insert. Protocols are state machines, and a
run is a sequence of events with the states between them. Every clock is a parameter. Whether a network
or database call fails, and whether it took effect all the same, is a choice of the event. A method of a
class and the step of the state machine that stands for it share one function.

Times are whole milliseconds, in the cron engine whole minutes of local time in a zone with a fixed
offset from UTC. `Stamp` and `DayNumber` count from an arbitrary origin.

## Where the code and its documentation or promise part

The model follows the code.

- `internal/platform/scheduling/scheduler.go:582-586` speaks of about four years. The budget counts
  iterations and a day that does not fit costs one, so the search covers the whole 400-year cycle:
  `CronNext.FindsBeyondFourYears` answers 2104 from 2096.
- The hour jump truncates absolute time (`scheduler.go:637`). In a zone that is not a whole number of
  hours off UTC it can jump over a match: `CronNext.CorrectExactlyForWholeHours` gives the exact
  condition and `CronNext.MissesOneOClock` the failing expression, `0 1 * * *`.
- A step near the top of the 64-bit range wraps the loop counter of a field that starts at 1:
  `CronParse.StepMeaning` and `CronParse.ValuesInRangeExactly` give the exact condition.
- Only the tracker replaces settings that are not positive, so the breaker's two backends are
  interchangeable exactly when both settings are: `RedisBreaker.SettingsAgreeExactlyWhenPositive`. With
  the same settings they part exactly when somebody asks after a probe token has expired:
  `RedisBreaker.AgreeExactlyWithoutExpiry`.
- Nothing claims an inbox row again once nobody is left to close it. A row gets there by exactly three
  kinds of step: the process dies while delivering; the closing update is lost, whether its error is
  reported or discarded (`services/vendor-service/internal/callback.go:169`); or a claim that erred takes
  effect without its handler: `Inbox.AbandonedExactlyBy`. In every state of every run the row can still be
  closed exactly when it is not such a row: `Inbox.RunCanCloseExactly`. `Inbox.CrashRun` reaches one in
  four steps.
- The counters rebuilt from the ledger equal the live ones exactly when the records that fell in the
  window amount to the window's posted rows, and, for a type the reseed does not walk, to nothing:
  `Reseed.ReseedMatchesLive`, and row by row `Reseed.ExactRowByRow`. They part when
  - a row is reversed: its status changes, its record stays (`Reseed.ReversalLeavesLiveAhead`);
  - a request is retried after it posted: `services/ledger/internal/ledger/handle/service.go:290-294`
    reports success and `services/ledger/internal/ledger/command/executor.go:226-228` records again
    (`Reseed.ReplayLeavesLiveAhead`);
  - a row created before midnight is recorded after it (`Reseed.LateRecordLeavesLiveAhead`);
  - an increment failed (`Reseed.LostIncrementLeavesLiveBehind`);
  - the type is not among the four walked. The comment at `operations/recovery/drreseed/policy.go:16-31`
    says only those are recorded, but `services/ledger/internal/ledger/ledger.go:1084-1091` posts with a
    source the policy applies to, so top-ups are recorded too (`Reseed.UnwalkedTypeIsNotRebuilt`);
  - the record names no currency and the account's is not IDR: the amount is live in one counter and
    rebuilt in another (`Reseed.CurrencyMovesCounter`).
- A reseed adds to what the counters show, so a second one after an error counts again what the first
  wrote: `Reseed.ReseedAdds`, `Reseed.RerunAddsAgain`.
- An unlock takes the lease of another execution exactly when that one is within its lease and the
  provider cannot tell the two apart: `Lease.LeasesKeptExactly`. Memory never can
  (`Lease.MemoryLateUnlockAdmitsTwo`). Redis compares instance ids, so it is safe while an execution's id
  differs from those of the others and of unlocks that erred and may still run
  (`Lease.RedisWithIdsApart`). It is not safe where ids are shared (`Lease.RedisSharedIdAdmitsTwo`), as by
  replicas given one constant id (`services/fraud/internal/fraud/retention.go:17`), nor when an unlock that
  erred runs during the same instance's next execution (`Lease.LateScriptAdmitsTwo`).
- The limiter and the counter read the clock before they take the mutex, so calls can be applied out of
  time order. Time that is set back is refilled twice: `RateLimiter.AdmissionBound` adds exactly that, and
  `RateLimiter.SetbackIsPaidTwice` shows it. Collection stays unobservable to calls timed at most a fill
  time before it, in the counter not before it (`RateLimiter.CollectionUnobservable`,
  `Counter.CollectionUnobservable`); earlier calls can tell (`RateLimiter.EarlierCallObserves`,
  `Counter.EarlierCallObserves`).

## Model

| member | source | states |
|---|---|---|
| `Components.StronglyConnectedComponents` | tools/architecturemetrics/main.go:178-234 | the search ends on every import graph; every package is listed once, each component is sorted, two packages share a component if and only if each reaches the other, and a package's imports are in its own or an earlier component |
| `Components.CountCyclic` | tools/architecturemetrics/main.go:83-89 | the printed number is the number of mutual-reachability classes of at least two packages, defined from the graph alone |
| `Components.CountedIsCyclic` | tools/architecturemetrics/main.go:83-89 | the listed components of two or more packages are exactly the graph's cyclic classes |
| `Components.Tarjan.Visit` | tools/architecturemetrics/main.go:187-226 | visiting keeps the search invariant, renumbers nothing, and leaves the package placed or with a low-link that accounts for everything it newly stacked |
| `Components.Tarjan.Number` | tools/architecturemetrics/main.go:188-192 | the package gets the next number as index and low-link and goes on top of the stack |
| `Components.Tarjan.Scan` | tools/architecturemetrics/main.go:196-208 | after the loop every local import is numbered, and the low-link is no higher than any older stacked package reachable by one import from what was stacked since |
| `Components.Tarjan.ScanOne` | tools/architecturemetrics/main.go:196-208 | one import, foreign, unseen or seen, extends what the scan has established by exactly that import |
| `Components.Tarjan.ScanUnseen` | tools/architecturemetrics/main.go:200-204 | recursing and taking over the child's low-link keeps the scan's facts and the search invariant |
| `Components.Tarjan.ScanSeen` | tools/architecturemetrics/main.go:205-207 | comparing with the index of a stacked import keeps the scan's facts and changes low-links only |
| `Components.Tarjan.PopUntil` | tools/architecturemetrics/main.go:213-223 | the stack is back to what it was before the package, and the popped list holds each package pushed since exactly once |
| `Components.Tarjan.PopComponent` | tools/architecturemetrics/main.go:210-225 | cutting at a closed low-link keeps the search invariant, so what it emits is a whole class |
| `Components.PushKeeps` | tools/architecturemetrics/main.go:188-192 | numbering a package that all running calls reach keeps the invariant with that call running too |
| `Components.SmallerIsOlder` | tools/architecturemetrics/main.go:205-207 | a stacked package with a smaller number was stacked before the running call |
| `Components.ChildKeepsScan` | tools/architecturemetrics/main.go:200-204 | a finished child hands its parent every fact about the packages stacked meanwhile |
| `Components.NewerIsMutual` | tools/architecturemetrics/main.go:210-225 | everything stacked since a call began reaches, and is reached by, the call's package |
| `Components.NewerIsClosed` | tools/architecturemetrics/main.go:210-225 | when the low-link equals the index, nothing stacked since imports an older stacked package |
| `Components.NewerIsClass` | tools/architecturemetrics/main.go:210-225 | then the packages stacked since are exactly one class of mutual reachability, both directions |
| `Components.PoppedIsComponent` | tools/architecturemetrics/main.go:213-225 | the popped and sorted list is that class, in order, each package once |
| `Components.CutKeeps` | tools/architecturemetrics/main.go:210-225 | the search after the cut keeps its invariant and the visit's promise to its caller |
| `Components.NewerReachesGray` | tools/architecturemetrics/main.go:210-226 | when the low-link is smaller than the index, every stacked package reaches a call still running |
| `Components.LeaveKeeps` | tools/architecturemetrics/main.go:210-226 | leaving the package stacked keeps the invariant without its call |
| `SortedStrings.InsertKeepsSorted` | tools/architecturemetrics/main.go:195-195 | inserting keeps a list in order and adds exactly the one element |
| `SortedStrings.Sort` | tools/architecturemetrics/main.go:224-224 | the result is in lexicographic order and a permutation of the input |
| `Calendar.DayNumberOrders` | internal/platform/scheduling/scheduler.go:600-631 | day numbers order valid dates exactly as year, month and day do, and name them uniquely |
| `Calendar.NextMonthNumber` | internal/platform/scheduling/scheduler.go:605-605 | the month jump lands right after the last day of the month |
| `Calendar.NextDayNumber` | internal/platform/scheduling/scheduler.go:631-631 | the day jump lands on the following calendar day, over month and year ends |
| `Calendar.WeekdayAdvances` | internal/platform/scheduling/scheduler.go:631-631 | the weekday moves on by one, Sunday after Saturday, with every calendar day, over month and year ends |
| `Calendar.EpochIsThursday` | internal/platform/scheduling/scheduler.go:334-393 | 1 January 1970 is a Thursday, which with the successor fixes the weekday of every date |
| `Calendar.KnownDates` | internal/platform/scheduling/scheduler.go:334-393 | known weekdays of 2026 and which of the 29ths of February exist |
| `Calendar.LastDayOfMonthIsDayZero` | internal/platform/scheduling/scheduler.go:40-42 | the day before the first of the next month is exactly the month's last date |
| `Calendar.CalendarRepeats` | internal/platform/scheduling/scheduler.go:580-583 | 400 years are 146097 days and whole weeks: dates, order and weekdays repeat |
| `Calendar.CycleReaches` | internal/platform/scheduling/scheduler.go:580-583 | every date repeats inside every run of 146097 consecutive days |
| `Calendar.NearestWeekdayIsNearest` | internal/platform/scheduling/scheduler.go:49-87 | a day is what the code returns if and only if it is the month's workday that no other workday of the month ties or beats in distance to the clamped target |
| `Calendar.LastWeekdayIsLast` | internal/platform/scheduling/scheduler.go:92-99 | a day is what the code returns if and only if it has the weekday and no later day of the month has |
| `Calendar.NthWeekdayIsNth` | internal/platform/scheduling/scheduler.go:104-121 | a day is the nth occurrence, counted day by day, if and only if the code returns it; 0 exactly when there is none |
| `Calendar.OccurrencesCount` | internal/platform/scheduling/scheduler.go:104-121 | how often a weekday falls in the first k days of a month |
| `Cron.DomMatchesIsFits` | internal/platform/scheduling/scheduler.go:203-255 | the day-of-month test accepts exactly the dates its tokens describe in calendar terms, without the helper functions |
| `Cron.DowMatchesIsFits` | internal/platform/scheduling/scheduler.go:334-393 | the day-of-week test accepts exactly the dates its tokens describe in calendar terms |
| `Cron.DateMatchesIsFits` | internal/platform/scheduling/scheduler.go:600-627 | month test and day switch accept exactly the dates of the vixie rule: two restricted day fields are alternatives, one alone decides |
| `Cron.FitsRepeats` | internal/platform/scheduling/scheduler.go:600-627 | whether a date fits depends only on its place in the 400-year cycle |
| `CronNext.JumpSkipsNoDate` | internal/platform/scheduling/scheduler.go:603-633 | no date passed over by a month or day jump fits |
| `CronNext.AdvanceSkipsNoMatch` | internal/platform/scheduling/scheduler.go:600-645 | in a whole-hour zone no iteration moves past a matching minute |
| `CronNext.FoundIsFirst` | internal/platform/scheduling/scheduler.go:600-648 | a returned minute matches and no minute between the start and it does |
| `CronNext.HitsToday` | internal/platform/scheduling/scheduler.go:600-648 | on a fitting day, before its first matching time, one iteration per minute is enough to return |
| `CronNext.EveryDayFails` | internal/platform/scheduling/scheduler.go:600-633 | from midnight, a search that ends empty with k iterations to spare has seen k days that do not fit |
| `CronNext.LeavesFirstDay` | internal/platform/scheduling/scheduler.go:600-645 | leaving the starting day costs at most one iteration per remaining minute and skips no fitting date |
| `CronNext.ExhaustedMeansNever` | internal/platform/scheduling/scheduler.go:580-651 | a search that uses up its budget proves that no date, past or future, fits |
| `CronNext.NextIsCorrect` | internal/platform/scheduling/scheduler.go:585-651 | for every parsed expression and start in a whole-hour zone: None if and only if no date of the calendar fits, otherwise the least firing minute after the start |
| `CronNext.NextWithin` | internal/platform/scheduling/scheduler.go:594-651 | the loop computes the bounded search for any zone, expression and budget |
| `CronNext.Next` | internal/platform/scheduling/scheduler.go:585-651 | in any zone a returned minute is later and matches; in whole-hour zones the answer is the right one in both directions |
| `CronNext.CorrectExactlyForWholeHours` | internal/platform/scheduling/scheduler.go:637-637 | Next keeps its promise for all expressions and starts if and only if the zone is a whole number of hours off UTC |
| `CronNext.JumpsPastOne` | internal/platform/scheduling/scheduler.go:637-637 | in every other zone a search for 01:00 from midnight answers later than 01:00 |
| `CronNext.MissesOneOClock` | internal/platform/scheduling/scheduler.go:637-637 | so from any midnight in any such zone the answer for `0 1 * * *` is wrong |
| `CronNext.FindsBeyondFourYears` | internal/platform/scheduling/scheduler.go:580-651 | from 29 February 2096 the next `0 0 29 2 *` is 29 February 2104 |
| `CronParse.FillSpan` | internal/platform/scheduling/scheduler.go:184-186 | a range adds exactly its integers to the set |
| `CronParse.FillSteps` | internal/platform/scheduling/scheduler.go:154-163 | the 64-bit step loop ends and collects the progression, plus the wrapped value when the counter overflows |
| `CronParse.ParseCronField` | internal/platform/scheduling/scheduler.go:143-201 | accepts and rejects every text as the field grammar says, with the value set it means |
| `CronParse.ParseList` | internal/platform/scheduling/scheduler.go:165-199 | the list is the union of its elements' values, and any bad element rejects it |
| `CronParse.AcceptedFieldCanMatch` | internal/platform/scheduling/scheduler.go:143-201 | every accepted field has a value in its range |
| `CronParse.ValuesInRangeExactly` | internal/platform/scheduling/scheduler.go:143-201 | all values of an accepted field are in range if and only if it is not a step that overflows the counter |
| `CronParse.PartParses` | internal/platform/scheduling/scheduler.go:166-199 | a written number or range of any size is accepted if and only if it is in bounds and in order: `61`, `5-1` and numbers beyond 64 bits are rejected |
| `CronParse.ListRoundTrip` | internal/platform/scheduling/scheduler.go:143-201 | any non-empty list of numbers and ranges, written with commas, parses back to exactly their values if every one is in bounds and in order, and is rejected otherwise |
| `CronParse.StepMeaning` | internal/platform/scheduling/scheduler.go:154-163 | every positive step is accepted, and means every step-th value if and only if the counter cannot overflow |
| `CronParse.ParseDOMField` | internal/platform/scheduling/scheduler.go:257-332 | the token loop gives the field of the whole list, or rejects at the first bad token |
| `CronParse.ParseDOWField` | internal/platform/scheduling/scheduler.go:395-512 | the token loop gives the field of the whole list, or rejects at the first bad token |
| `CronParse.DowListOk` | internal/platform/scheduling/scheduler.go:425-511 | every accepted list holds weekdays 0 to 6 and occurrences from 1, with 7 read as Sunday |
| `CronParse.ParsedIsOk` | internal/platform/scheduling/scheduler.go:540-578 | whatever parses has an hour and a minute that can match, which the search needs to end correctly |
| `CronParse.ParseCron` | internal/platform/scheduling/scheduler.go:540-578 | five fields in order, each by its own parser; an accepted expression can be searched |
| `CronParse.FirstRun` | internal/platform/scheduling/scheduler.go:831-857 | registering a job fails on bad syntax and on expressions no date fits, on nothing else, and otherwise schedules the least firing minute |
| `CronTokens.DomTokenParses` | internal/platform/scheduling/scheduler.go:276-331 | each written day token (number, range, L, L-n, LW, nW) adds exactly its meaning if its numbers are allowed there, and is rejected otherwise, as `32W` is |
| `CronTokens.DomRoundTrip` | internal/platform/scheduling/scheduler.go:257-332 | any written list of day tokens parses to exactly what its tokens say, and is rejected if and only if one of them is out of bounds |
| `CronTokens.DowTokenParses` | internal/platform/scheduling/scheduler.go:425-511 | each written weekday token (number, range, nL, n#m) adds exactly its meaning, 7 being Sunday also at the ends of a range, or is rejected if and only if a number is out of bounds or the range runs backwards |
| `CronTokens.DowRoundTrip` | internal/platform/scheduling/scheduler.go:395-512 | any written list of weekday tokens parses to exactly what its tokens say, and is rejected if and only if one of them is bad |
| `CronText.FieldParses` | internal/platform/scheduling/scheduler.go:143-201 | a written minute, hour or month field (star, step or list) parses to its meaning if its numbers are in bounds and its step positive, and is rejected otherwise |
| `CronText.DomParses` | internal/platform/scheduling/scheduler.go:257-332 | a written day-of-month field parses to its meaning, or is rejected if and only if a token or the step is bad |
| `CronText.DowParses` | internal/platform/scheduling/scheduler.go:395-512 | a written day-of-week field parses to its meaning, or is rejected if and only if a token or the step is bad |
| `CronText.ExpressionRoundTrip` | internal/platform/scheduling/scheduler.go:540-578 | any five written fields joined by blanks parse to exactly the five meanings if all numbers, ranges and steps are good, and are rejected otherwise |
| `CronText.FiveFieldsOrNone` | internal/platform/scheduling/scheduler.go:540-545 | any other number of words is rejected |
| `CronText.OneOClockIsWritten` | internal/platform/scheduling/scheduler.go:540-578 | `0 1 * * *` parses to the expression that zones off the whole hour miss |
| `CronText.LeapDayIsWritten` | internal/platform/scheduling/scheduler.go:540-578 | `0 0 29 2 *` parses to the expression that fires eight years apart |
| `Text.AtoiOfItoa` | internal/platform/scheduling/scheduler.go:171-190 | a written number reads back as itself if and only if it fits 64 bits |
| `Text.SplitOfJoin` | internal/platform/scheduling/scheduler.go:165-165 | splitting undoes joining for parts without the separator |
| `Text.JoinOfSplit` | internal/platform/scheduling/scheduler.go:165-165 | joining undoes splitting for every text |
| `Text.FieldsOfJoin` | internal/platform/scheduling/scheduler.go:540-545 | words written with blanks between them are read back as those words |
| `Lease.MemoryLock.TryLock` | internal/platform/scheduling/scheduler.go:1051-1061 | succeeds exactly when no lease is held, and moves the map as the run model's lock step says |
| `Lease.MemoryLock.Unlock` | internal/platform/scheduling/scheduler.go:1063-1068 | removes the entry whoever holds it, as the run model's in-memory unlock step says |
| `Lease.MemoryLock.Collect` | internal/platform/scheduling/scheduler.go:1030-1049 | exactly the lapsed leases go, in whatever order the map is walked; a held lease stays as it is |
| `Lease.RedisLock.SetNX` | internal/platform/scheduling/scheduler.go:1095-1097 | succeeds exactly when the key is missing or expired |
| `Lease.RedisLock.Unlock` | internal/platform/scheduling/scheduler.go:1078-1105 | removes the key only when it is live and names the caller |
| `Lease.TimelyKeepsOneHolder` | internal/platform/scheduling/scheduler.go:944-964 | while executions end before their leases, the one in progress stays the one whose entry is stored if and only if the step robs nobody |
| `Lease.AtMostOneRuns` | internal/platform/scheduling/scheduler.go:944-964 | in every run whose executions end before their leases, the holder is alone in every state if and only if no late script robs it, lock and unlock errors included; in memory always |
| `Lease.StepKeepsLease` | internal/platform/scheduling/scheduler.go:1051-1105 | from a state where leases are kept, a step keeps them if and only if it robs nobody: no unlock, on time, late or after an error, while another execution not told apart by the provider is within its lease |
| `Lease.StepKeepsOneWithin` | internal/platform/scheduling/scheduler.go:1051-1061 | while leases are kept, no step lets a second execution be within a lease |
| `Lease.LeasesKeptExactly` | internal/platform/scheduling/scheduler.go:1051-1105 | in every run, with any ids, errors and lateness, all executions keep their leases until they lapse if and only if no event robs one, and then at most one is within its lease |
| `Lease.RobbedAdmitsAnother` | internal/platform/scheduling/scheduler.go:1051-1068 | after any robbery the next attempt to lock gets in beside the execution robbed |
| `Lease.EntriesWereWritten` | internal/platform/scheduling/scheduler.go:1051-1105 | in every run the stored entry is what some attempt wrote, its id and its time plus the time to live, and every execution in progress runs under the entry of its own attempt |
| `Lease.LapseLetsIn` | internal/platform/scheduling/scheduler.go:1051-1061 | once every time to live asked for is over an attempt gets in, whatever was never unlocked |
| `Lease.UnlockLetsNextIn` | internal/platform/scheduling/scheduler.go:1063-1105 | an execution that unlocks within its lease lets the next attempt in, whoever makes it |
| `Lease.RedisWithIdsApart` | internal/platform/scheduling/scheduler.go:1078-1105 | with Redis, while no execution shares its id with another or with an unlock that may still run, at most one is within its lease |
| `Lease.MemoryLateUnlockAdmitsTwo` | internal/platform/scheduling/scheduler.go:1063-1068 | in memory one late unlock lets two executions be within their leases at once |
| `Lease.RedisSharedIdAdmitsTwo` | services/fraud/internal/fraud/retention.go:15-18 | with Redis and one shared id the same run has two executions within their leases |
| `Lease.LateScriptAdmitsTwo` | internal/platform/scheduling/scheduler.go:956-960 | a run of timely executions with distinct ids in which an unlock that erred runs late and two executions end up within their leases |
| `Breaker.HealthTracker.constructor` | contracts/vendorgw/breaker.go:85-101 | settings that are not positive are replaced by the defaults; no vendor is known |
| `Breaker.HealthTracker.StateFor` | contracts/vendorgw/breaker.go:103-113 | a vendor never seen is closed, and other vendors are untouched |
| `Breaker.HealthTracker.Allow` | contracts/vendorgw/breaker.go:129-148 | answers and moves the one vendor as the breaker's state machine does |
| `Breaker.HealthTracker.RecordSuccess` | contracts/vendorgw/breaker.go:156-169 | moves the one vendor as the state machine does on a success |
| `Breaker.HealthTracker.RecordFailure` | contracts/vendorgw/breaker.go:177-197 | moves the one vendor as the state machine does on a failure |
| `Breaker.ClosedExactlyBelowThreshold` | contracts/vendorgw/breaker.go:129-197 | after any history a vendor is closed if and only if fewer failures than the threshold were recorded since its last success |
| `Breaker.OpenSince` | contracts/vendorgw/breaker.go:129-197 | an open breaker was opened by a known failure, since which nothing was let through and no success was recorded |
| `Breaker.ProbeFollowsOpening` | contracts/vendorgw/breaker.go:129-148 | a granted probe comes at least a cooldown after an opening and is the first since it |
| `Breaker.OneProbePerOpening` | contracts/vendorgw/breaker.go:129-197 | between two granted probes the breaker opened again, a cooldown before the second |
| `Breaker.HalfOpenSince` | contracts/vendorgw/breaker.go:129-197 | a half-open breaker granted a known probe on which nothing has been reported |
| `Breaker.GrantedExactly` | contracts/vendorgw/breaker.go:129-148 | on any history a request is let through if and only if fewer failures than the threshold were recorded since the last success, or the breaker was opened at least a cooldown ago and nothing was let through or succeeded since |
| `Breaker.OpensExactly` | contracts/vendorgw/breaker.go:177-197 | on any history a failure opens the breaker if and only if it is the one that reaches the threshold or reports on a probe |
| `RedisBreaker.RedisKeys.AllowScript` | contracts/vendorgw/distributed_breaker.go:36-62 | the script's reads and writes, key by key, are one step of the script machine, whose answers `RedisBreaker.ScriptGrantedExactly` gives from the history alone |
| `RedisBreaker.RedisKeys.RecordSuccessScript` | contracts/vendorgw/distributed_breaker.go:69-73 | the script's writes are the machine's step on a success |
| `RedisBreaker.RedisKeys.RecordFailureScript` | contracts/vendorgw/distributed_breaker.go:82-96 | the script's writes are the machine's step on a failure |
| `RedisBreaker.TokenMeansHalfOpen` | contracts/vendorgw/distributed_breaker.go:36-96 | in every run a probe token, live or expired, is on record if and only if the state is half open |
| `RedisBreaker.StepKeepsSame` | contracts/vendorgw/distributed_breaker.go:36-96 | simulation: from matching states a call gets the same answer from both breakers and leaves matching states, a missing field meaning closed or zero |
| `RedisBreaker.AgreeExactlyWithoutExpiry` | contracts/vendorgw/distributed_breaker.go:36-96 | scripts and tracker give the same answers on a history if and only if nobody asks while half open after the token expired |
| `RedisBreaker.ThresholdDisagrees` | contracts/vendorgw/distributed_breaker.go:150-167 | with a threshold that is not positive some history gets different answers |
| `RedisBreaker.CooldownDisagrees` | contracts/vendorgw/distributed_breaker.go:150-167 | with a cooldown that is not positive some history gets different answers |
| `RedisBreaker.SettingsAgreeExactlyWhenPositive` | contracts/vendorgw/distributed_breaker.go:150-167 | backends built from the same settings agree on every history without expiry if and only if threshold and cooldown are positive |
| `RedisBreaker.ProbeHoldsBack` | contracts/vendorgw/distributed_breaker.go:36-96 | after a probe, until a success, every later state keeps the next probe back, late records from earlier probers included |
| `RedisBreaker.ProbesAreApart` | contracts/vendorgw/distributed_breaker.go:36-96 | two probes with no success between are at least the smaller of cooldown and token lifetime apart |
| `RedisBreaker.ScriptClosedExactly` | contracts/vendorgw/distributed_breaker.go:36-96 | after any history the scripts hold a vendor closed if and only if fewer failures than the threshold were recorded since its last success |
| `RedisBreaker.ScriptOpenSince` | contracts/vendorgw/distributed_breaker.go:36-96 | an open state was written by a known failure, with no probe and no success since |
| `RedisBreaker.ScriptProbedSince` | contracts/vendorgw/distributed_breaker.go:36-96 | a half-open state has a last granted probe on which nothing has been reported |
| `RedisBreaker.ScriptGrantedExactly` | contracts/vendorgw/distributed_breaker.go:36-62 | on any history the script lets a request through if and only if failures are below the threshold, or the breaker opened at least a cooldown ago without a probe since, or its last probe was granted at least a token lifetime ago and never reported |
| `RedisBreaker.ScriptOpensExactly` | contracts/vendorgw/distributed_breaker.go:82-96 | on any history a failure opens the breaker if and only if it reaches the threshold or reports on a probe |
| `RedisBreaker.BackendsNeverMerge` | contracts/vendorgw/distributed_breaker.go:210-257 | with any number of replicas and failing round trips, Redis is exactly the script machine of the calls that reached it, each tracker exactly that of its own fallbacks |
| `RedisBreaker.DistributedBreaker.constructor` | contracts/vendorgw/distributed_breaker.go:150-167 | shared keys, an untouched private tracker with defaulted settings, no backend used yet |
| `RedisBreaker.DistributedBreaker.OnBackendResult` | contracts/vendorgw/distributed_breaker.go:184-201 | a change is reported only when the backend differs from the previous call's |
| `RedisBreaker.DistributedBreaker.Allow` | contracts/vendorgw/distributed_breaker.go:210-226 | one step of the cluster model: Redis answers if its reply arrives, otherwise the own tracker with defaulted settings, even if the script took effect |
| `RedisBreaker.DistributedBreaker.Record` | contracts/vendorgw/distributed_breaker.go:228-257 | one step of the cluster model: a record reaches Redis if the script ran and the own tracker if the reply did not arrive |
| `Inbox.CallbackOutcome` | services/vendor-service/internal/callback.go:208-217 | every answer of the owner closes the row, and the outcome is empty only if the answer is |
| `Inbox.OutcomeDecides` | services/vendor-service/internal/callback.go:208-217 | the row is finalized or ignored if and only if the answer ends in the word for it, and unmatched otherwise |
| `Inbox.LowerByChar` | services/vendor-service/internal/callback.go:208-217 | the stored outcome is the answer with each capital letter made small, letter by letter |
| `Inbox.InboxTable.Insert` | services/vendor-service/internal/callback.go:328-334 | creates the row only if there is none |
| `Inbox.InboxTable.Claim` | services/vendor-service/internal/callback.go:349-357 | claims a received or retry row, counting the attempt, and nothing else |
| `Inbox.InboxTable.Finish` | services/vendor-service/internal/callback.go:359-362 | writes status and outcome |
| `Inbox.TerminalRowIsFinal` | services/vendor-service/internal/callback.go:313-362 | no statement of any handler, late or not, changes a closed row |
| `Inbox.OwnersChange` | services/vendor-service/internal/callback.go:349-362 | only a successful claim makes an owner, and while somebody owns the row no closing update has reached it |
| `Inbox.RowChange` | services/vendor-service/internal/callback.go:328-362 | a processing row changes only by a closing update |
| `Inbox.StepKeepsInv` | services/vendor-service/internal/callback.go:154-362 | every statement, crash, error, late effect and loss keeps the protocol's invariant |
| `Inbox.RunKeepsInv` | services/vendor-service/internal/callback.go:154-362 | the invariant holds in every state of every run |
| `Inbox.DeliveredOnce` | services/vendor-service/internal/callback.go:154-180 | at most one handler is in delivery at any moment, and none once a delivery has returned |
| `Inbox.AtMostOneReturn` | services/vendor-service/internal/callback.go:154-180 | in every run at most one delivery returns success, counted from the events |
| `Inbox.ClosedForever` | services/vendor-service/internal/callback.go:313-362 | a closed row is the same in every later state |
| `Inbox.AckMeansClosed` | services/vendor-service/internal/callback.go:154-180 | a handler that answered 200 found the row closed with a non-empty outcome or closed it, and it stays so; `Inbox.AckedExactly` gives the converse |
| `Inbox.AckExactly` | services/vendor-service/internal/callback.go:154-180 | a statement is answered 200 if and only if it is the look-up or the closing update and the row is closed after it |
| `Inbox.AckedExactly` | services/vendor-service/internal/callback.go:154-180 | in every run a handler has answered 200 if and only if such a statement of its own came before |
| `Inbox.ReturnedIsAcked` | services/vendor-service/internal/callback.go:167-180 | a delivery that returns is closed under its result and answered 200 by the handler's next statement |
| `Inbox.ErredIsRetried` | services/vendor-service/internal/callback.go:167-172 | a delivery that errs leaves the row to be claimed again and is answered 503 |
| `Inbox.ClosedByReturn` | services/vendor-service/internal/callback.go:167-180 | in every run a closed row bears the status and outcome of a delivery that returned; errors and crashes never close one |
| `Inbox.AttemptsCountClaims` | services/vendor-service/internal/callback.go:349-357 | in every run the attempts of the row are the claims that took effect, late ones included |
| `Inbox.AbandonedForever` | services/vendor-service/internal/callback.go:336-362 | a processing row nobody can close any more is never delivered, closed or acknowledged |
| `Inbox.CrashAbandons` | services/vendor-service/internal/callback.go:154-180 | a crash in mid-delivery leaves the row like that |
| `Inbox.LostUpdateAbandons` | services/vendor-service/internal/callback.go:359-362 | a closing update that is lost for good leaves the row like that too |
| `Inbox.FailedFinishAbandons` | services/vendor-service/internal/callback.go:169-178 | so does a finish whose error is discarded or reported and that never takes effect |
| `Inbox.AbandonedExactlyBy` | services/vendor-service/internal/callback.go:313-362 | a row becomes abandoned by a step if and only if the step is a crash in delivery, the loss of a closing update, or the late effect of a claim whose handler is gone |
| `Inbox.CrashRun` | services/vendor-service/internal/callback.go:313-362 | a run from the empty inbox to such a row: arrive, insert, claim, crash |
| `Inbox.CanCloseExactly` | services/vendor-service/internal/callback.go:154-362 | some continuation closes the row if and only if it is not abandoned: an owner finishes, a late update arrives, or a new callback claims and delivers |
| `Inbox.RunCanCloseExactly` | services/vendor-service/internal/callback.go:154-362 | the same in every state of every run |
| `Outbound.HighestIsCount` | services/vendor-service/internal/service.go:165-198 | on a log numbered from 1 the maximum attempt is the number of rows |
| `Outbound.StepKeepsInv` | services/vendor-service/internal/service.go:165-198 | every snapshot read, insert, duplicate key, error and late write keeps the numbering |
| `Outbound.NumberedWithoutGaps` | services/vendor-service/internal/service.go:165-198 | in every run the attempts are exactly 1 to n in commit order, at most one for each call |
| `Outbound.RecordedHasOneRow` | services/vendor-service/internal/service.go:165-198 | in every run a call that reported success has exactly one row, and one still at work or given up has none |
| `Outbound.RecordingAppends` | services/vendor-service/internal/service.go:165-198 | a call becomes recorded only by its own insert, which appends its row under the next number |
| `Outbound.InsertsExactlyWhenFree` | services/vendor-service/internal/service.go:165-198 | an insert succeeds if and only if nothing was committed since its snapshot, and writes nothing otherwise |
| `Outbound.TriesAreInserts` | services/vendor-service/internal/service.go:165-198 | the inserts a call has tried: fewer than three while at work, one to three when recorded, three when it gave up |
| `Outbound.GivesUpExactlyAtThird` | services/vendor-service/internal/service.go:165-198 | a call whose insert loses gives up if and only if that was its third, and otherwise reads again |
| `Outbound.GivingUpNeedsThreeOthers` | services/vendor-service/internal/service.go:165-198 | a call that gives up wrote nothing, and at least three different other calls committed since it began |
| `Publisher.ConfirmChannelPool.constructor` | internal/platform/messaging/pool.go:55-67 | a size that is not positive becomes 16; the pool is empty |
| `Publisher.ConfirmChannelPool.Acquire` | internal/platform/messaging/pool.go:70-81 | hands out the channel given back last, or none, and closes nothing |
| `Publisher.ConfirmChannelPool.Release` | internal/platform/messaging/pool.go:86-98 | the channel is kept or closed, never both or neither, and the pool stays within its size |
| `Publisher.ConfirmChannelPool.Drain` | internal/platform/messaging/pool.go:103-110 | every idle channel is closed once and the pool is empty |
| `Publisher.StepKeepsInv` | internal/platform/messaging/publisher.go:83-201 | every step of publisher, broker, connection and drain keeps ownership, cleanliness and accounting of channels |
| `Publisher.RunKeepsInv` | internal/platform/messaging/publisher.go:83-201 | the invariant holds in every state of every run |
| `Publisher.SuccessIsOwnAck` | internal/platform/messaging/publisher.go:162-201 | a publish that succeeds received a positive confirm that the broker sent for that publish's own message; `Publisher.SucceedsExactly` gives the converse |
| `Publisher.SucceedsExactly` | internal/platform/messaging/publisher.go:162-201 | in every run a publish reports success if and only if it received the positive confirm of its own message |
| `Publisher.GivenBackExactly` | internal/platform/messaging/publisher.go:108-120 | the channel goes back to the pool, never closed, if and only if that confirm was received and there is room; otherwise it is closed exactly once |
| `Publisher.TakesIdleFirst` | internal/platform/messaging/pool.go:70-81 | a publisher gets the channel given back last, and has one opened only if none is idle |
| `Publisher.OpenedOnlyWhenEmpty` | internal/platform/messaging/pool.go:70-81 | in every run a channel is opened only for a publisher that had found the pool empty, one at a time |
| `Publisher.DrainClosesIdle` | internal/platform/messaging/pool.go:103-110 | a drain closes the idle channels once each and no other |
| `Publisher.OwnStepGoesOn` | internal/platform/messaging/publisher.go:83-201 | every step of a publisher's own brings it nearer its end, and nobody else's step moves it |
| `Publisher.PublishEnds` | internal/platform/messaging/publisher.go:83-201 | in every run a publish is over after at most eight steps of its own |
| `Publisher.NeverStuck` | internal/platform/messaging/publisher.go:83-201 | in every state of every run an unfinished publish has a step it can take, whatever semaphore, pool and broker do |
| `Publisher.LostExactly` | internal/platform/messaging/publisher.go:162-170 | a channel's confirm pipe is marked to close if and only if its connection was lost |
| `Publisher.LossWakesWaiter` | internal/platform/messaging/publisher.go:162-170 | once its connection is lost a waiting publisher can receive a confirm or the end of the pipe |
| `Publisher.QueuedWasSent` | internal/platform/messaging/publisher.go:162-201 | every confirm waiting in a channel was sent by the broker for an outstanding message |
| `Publisher.GotWasSent` | internal/platform/messaging/publisher.go:162-201 | every confirm a publisher received was sent by the broker |
| `Publisher.BorrowedIsExclusive` | internal/platform/messaging/publisher.go:108-120 | a channel in use is open, not free, used by one publisher, and holds no confirm of another's message |
| `Publisher.UsedWithinSemaphore` | internal/platform/messaging/publisher.go:83-92 | at most as many channels are in use as publishers are admitted |
| `Publisher.ChannelsConserved` | internal/platform/messaging/pool.go:70-110 | opened = closed + free + in use in every state of every run; no channel is closed twice, free channels stay within the pool size and live ones within pool size plus semaphore |
| `Counter.MemoryCounter.IncrBy` | internal/platform/cache/counter.go:118-130 | the new total is the visible old one plus the delta; a live window keeps its expiry |
| `Counter.MemoryCounter.Get` | internal/platform/cache/counter.go:132-141 | an expired or missing window reads as 0 |
| `Counter.MemoryCounter.Collect` | internal/platform/cache/counter.go:93-111 | exactly the expired windows go, in whatever order the map is walked |
| `Counter.CollectionUnobservable` | internal/platform/cache/counter.go:93-141 | with collection anywhere and calls in any order that puts none after a collection timed later, every answer is what a counter that never collects gives |
| `Counter.EarlierCallObserves` | internal/platform/cache/counter.go:93-141 | for every collection and every earlier time some call at that time, applied after it, gets a different answer |
| `Counter.ExpiryAnchored` | internal/platform/cache/counter.go:118-141 | a window opened by any operation of any run, with or without collection, shows the sum of its increments until the lifetime set by that operation is over, and then nothing |
| `RateLimiter.MemoryRateLimiter.Allow` | internal/platform/cache/rate_limiter.go:170-191 | lets a request through exactly when the key's refilled level holds a token, and reports the whole tokens left |
| `RateLimiter.MemoryRateLimiter.Collect` | internal/platform/cache/rate_limiter.go:138-160 | exactly the buckets untouched for longer than the stale time go |
| `RateLimiter.LevelRefills` | internal/platform/cache/rate_limiter.go:170-191 | between calls in time order a level grows at the rate, up to the capacity |
| `RateLimiter.LevelGains` | internal/platform/cache/rate_limiter.go:170-191 | at any two times the levels differ by no more than the refill of the time between, and an earlier look finds no more |
| `RateLimiter.StaleIsFull` | internal/platform/cache/rate_limiter.go:138-160 | a bucket old enough to be collected is full, even for a call timed up to a fill time before the collection |
| `RateLimiter.CollectKeepsLevel` | internal/platform/cache/rate_limiter.go:138-160 | collecting changes no key's level at any such time |
| `RateLimiter.AllowMovesLevel` | internal/platform/cache/rate_limiter.go:170-191 | a call takes at most one token, from its own key only |
| `RateLimiter.CollectionUnobservable` | internal/platform/cache/rate_limiter.go:138-191 | with collection anywhere and calls in any order that puts none more than a fill time before a collection already applied, every key's level is what a limiter that never collects has |
| `RateLimiter.EarlierCallObserves` | internal/platform/cache/rate_limiter.go:138-191 | a call timed earlier than that finds a full bucket where a token was gone |
| `RateLimiter.Budget` | internal/platform/cache/rate_limiter.go:170-191 | in whatever order calls are applied, what was let through plus what is left never exceeds capacity plus the refill of the time elapsed and the time set back |
| `RateLimiter.AdmissionBound` | internal/platform/cache/rate_limiter.go:170-191 | between any two calls at most capacity + rate * (elapsed + set back) requests of a key get through, in time order capacity + rate * elapsed; below a capacity of one, none |
| `RateLimiter.SetbackIsPaidTwice` | internal/platform/cache/rate_limiter.go:171-173 | calls at 0, 1, 0 and 1 get three through where capacity + rate * elapsed is two |
| `RateLimiter.TokensInRange` | internal/platform/cache/rate_limiter.go:170-191 | stored tokens are within 0 and the capacity after every run, in any order |
| `RateLimiter.WaitingAdmits` | internal/platform/cache/rate_limiter.go:170-191 | a key left alone for the time of one token is let through |
| `RateLimiter.LevelAtLeast` | internal/platform/cache/rate_limiter.go:170-191 | in whatever order calls are applied, a key is never short of its capacity by more than it got through |
| `RateLimiter.BurstAdmitted` | internal/platform/cache/rate_limiter.go:170-191 | so a burst gets through: a request is let in while the key got fewer through than its capacity holds |
| `Failover.RedisHealthSwitcher.Degrade` | internal/platform/cache/failover.go:107-117 | one failed operation turns Redis off and forgets earlier good probes |
| `Failover.RedisHealthSwitcher.ProbeOnce` | internal/platform/cache/failover.go:136-165 | a probe moves the switch as the hysteresis machine says |
| `Failover.TrustedExactlyAfterTwoProbes` | internal/platform/cache/failover.go:30-36 | after any signals Redis is in use if and only if no operation ever failed or two consecutive probes succeeded since the last failure |
| `Failover.NeverOverReports` | internal/platform/cache/failover.go:244-266 | with any number of replicas sharing Redis, after any increments, reads, failures and probes and whichever backend answers, a read never exceeds the true total; it equals it if and only if that backend missed no increment |
| `Failover.HealthFollowsSignals` | internal/platform/cache/failover.go:244-266 | each replica's switch is the hysteresis machine driven by the failures of its own operations and its probes |
| `Failover.ReadsRedisExactly` | internal/platform/cache/failover.go:255-266 | a replica reads Redis if and only if Redis answers and nothing failed there, or two consecutive probes succeeded since its last failure |
| `Failover.DistrustLasts` | internal/platform/cache/failover.go:107-165 | after a call that Redis did not answer the replica distrusts it in every later state before two good probes with no bad one between, and remembers at most one good probe |
| `Failover.MemoryUntilTwoProbes` | internal/platform/cache/failover.go:255-266 | until then its reads come from its own memory, answered by Redis or not |
| `Failover.RedisAfterTwoProbes` | internal/platform/cache/failover.go:255-266 | after such a pair, with no bad probe and no unanswered call since, a read gives what Redis holds |
| `Failover.NeverLeft` | internal/platform/cache/failover.go:244-266 | a replica whose calls were all answered has never left Redis |
| `PolicyKeys.KeyNamesWindow` | services/ledger/policy/policy.go:304-355 | for names without a colon: two counter names are equal if and only if user, type, currency, kind and window agree, with no currency and IDR as one |
| `PolicyKeys.DayTextNames` | services/ledger/policy/policy.go:310-315 | the day text names the date uniquely |
| `PolicyKeys.MonthTextNames` | services/ledger/policy/policy.go:316-318 | the month text names year and month uniquely |
| `PolicyKeys.KeyText` | services/ledger/policy/policy.go:310-334 | each counter name is letter for letter the format of its kind, with the currency segment exactly for currencies other than IDR |
| `PolicyKeys.WindowIsText` | services/ledger/policy/policy.go:310-334 | the window's parts, joined by colons, are the text after the type |
| `PolicyKeys.KeysEqualExactly` | services/ledger/policy/policy.go:304-355 | for any types and currencies, colons included, two counter names are equal if and only if user, kind and window agree and the stems (type, or type with its currency segment) are equal |
| `PolicyKeys.ColonTypeCollides` | services/ledger/policy/policy.go:304-334 | so any type that spells out a currency segment has the name of the foreign-currency counter |
| `Policy.Check` | services/ledger/policy/policy.go:187-242 | the verdict is the ordered test of the limit against what each counter shows at the moment it is read, allowing at the first failed read |
| `Policy.AllowsExactlyWithinBounds` | services/ledger/policy/policy.go:187-242 | with readable counters a request is allowed if and only if it breaks no configured bound |
| `Policy.RejectsOnlyBrokenBounds` | services/ledger/policy/policy.go:187-242 | a rejection names a bound that really is broken by a counter that was read; errors never reject |
| `Policy.RejectsFirstBroken` | services/ledger/policy/policy.go:187-242 | a check rejects by a counter's bound if and only if the counter was read and breaks it, the per-transaction bound holds, and every configured counter before it was read and does not break its own |
| `Policy.RejectsPerTxExactly` | services/ledger/policy/policy.go:187-200 | it rejects by the per-transaction bound if and only if the limit is on and the amount is above that bound, whatever the counters hold |
| `Policy.FailedReadAllows` | services/ledger/policy/policy.go:187-242 | the first configured counter that cannot be read allows the request, whatever those after it hold |
| `Policy.Record` | services/ledger/policy/policy.go:265-278 | the increments that do not fail land on the counters of the current day and month, whichever of the others fail |
| `Policy.TotalIsSum` | services/ledger/policy/policy.go:265-278 | within one window no lifetime drops a contribution: the counter shows the plain sum, in whatever order |
| `Policy.RecordLasts` | services/ledger/policy/policy.go:265-278 | a first record is shown for exactly two days in the daily counters and 35 days in the monthly one |
| `PolicyCaps.StepKeepsInv` | services/ledger/policy/policy.go:187-278 | every read, rejection, write, failed write, abandonment and change of day keeps each window and what requests under way may add to it within the bound |
| `PolicyCaps.RunKeepsInv` | services/ledger/policy/policy.go:168-171 | the same in every state of every run |
| `PolicyCaps.Overshoot` | services/ledger/policy/policy.go:168-171 | with at most k requests between the start of a check and the end of its record, however their reads and writes interleave and across midnight, every day's amount and count and every month's amount stay within cap + (k - 1) * largest request, in flight included |
| `PolicyCaps.ExactWhenAlone` | services/ledger/policy/policy.go:187-242 | with one request at a time every cap holds exactly, with or without a per-transaction bound |
| `PolicyBooks.StepTells` | services/ledger/policy/policy.go:187-278 | each step changes what a counter was told by exactly what its request had to tell |
| `PolicyBooks.NothingToldTwiceOrForgotten` | services/ledger/policy/policy.go:187-278 | in every run, however checks and records interleave, what a counter was told plus what failed increments lost is what the completed records and those under way had to tell |
| `PolicyBooks.CheckIsItsReads` | services/ledger/policy/policy.go:187-242 | the three reads of a check, one by one with nothing between, come to what the whole check decides |
| `PolicyBurst.OvershootReached` | services/ledger/policy/policy.go:168-171 | the bound is attained: for every k some run reaches it |
| `Reseed.WriteGroup` | operations/recovery/drreseed/policy.go:124-135 | one group becomes its amount and, by day, its count; after an error the writes made stay |
| `Reseed.ReconstructWindow` | operations/recovery/drreseed/policy.go:92-138 | one window's groups become exactly its increments, or after a failed query or write exactly the first ones, and the report counts those made |
| `Reseed.ReconstructType` | operations/recovery/drreseed/policy.go:59-82 | a type's day window, then its month window, the second only if the first succeeds |
| `Reseed.ReconstructPolicyCounters` | operations/recovery/drreseed/policy.go:52-84 | all types' day and month windows become exactly their increments, or after the first error exactly those reported; it succeeds if and only if no query or write fails |
| `Reseed.WindowIsCurrent` | operations/recovery/drreseed/policy.go:53-57 | the query's half-open window holds exactly the rows of the current day or month |
| `Reseed.WithinLifetime` | operations/recovery/drreseed/policy.go:52-84 | 48 hours and 35 days outlast every day and month: a contribution of the current window has not expired |
| `Reseed.GroupsSumRows` | operations/recovery/drreseed/policy.go:92-138 | groups that merge into one counter, blank currency and IDR included, add up to the window's posted rows |
| `Reseed.LiveShowsUsage` | services/ledger/internal/ledger/command/executor.go:219-259 | a live counter shows exactly the records that took effect in its window, of any type, at their own times, under their own user and currency, any number to a row |
| `Reseed.ReseedAdds` | operations/recovery/drreseed/policy.go:86-91 | on any counters the reseed adds the window's posted rows of a walked type and nothing for other types |
| `Reseed.ReseedShowsRows` | operations/recovery/drreseed/policy.go:52-138 | so a counter rebuilt from empty shows exactly that |
| `Reseed.RerunAddsAgain` | operations/recovery/drreseed/policy.go:86-91 | a second reseed counts everything again |
| `Reseed.ReseedMatchesLive` | operations/recovery/drreseed/policy.go:52-138 | from empty counters every user, type, currency and current window gets the live total if and only if the records that fell in the window amount to its posted rows if the type is walked, and to nothing if not |
| `Reseed.DriftIsDifference` | operations/recovery/drreseed/policy.go:92-138 | the live counter is ahead by the sum over the rows of what was recorded for the row less what the reseed counts of it |
| `Reseed.ExactRowByRow` | operations/recovery/drreseed/policy.go:52-138 | if no row is recorded in the window for less than the reseed counts, the counters are equal if and only if each row is recorded for exactly what the reseed counts |
| `Reseed.ReversalLeavesLiveAhead` | services/ledger/internal/repository/ledger_transaction_repository.go:733-740 | a recorded row that is reversed counts live and not in the reseed |
| `Reseed.ReplayLeavesLiveAhead` | services/ledger/internal/ledger/handle/service.go:289-294 | a request retried after it posted counts twice live and once in the reseed |
| `Reseed.RetriedTransfer` | services/ledger/internal/ledger/command/executor.go:218-228 | a transfer of 5 retried a second later: 10 live, 5 rebuilt |
| `Reseed.LateRecordLeavesLiveAhead` | operations/recovery/drreseed/policy.go:92-99 | a row created before the window and recorded in it counts live and not in the reseed |
| `Reseed.LostIncrementLeavesLiveBehind` | services/ledger/policy/policy.go:265-278 | a failed increment is missing live and restored by the reseed |
| `Reseed.UnwalkedTypeIsNotRebuilt` | services/ledger/internal/ledger/ledger.go:1084-1091 | a recorded row of a type the reseed does not walk, such as a top-up, counts live and is not rebuilt |
| `Reseed.CurrencyMovesCounter` | services/ledger/internal/transport/http_transactions.go:227-231 | a record without a currency for an account that is not in IDR counts live under IDR and is rebuilt under the account's currency |
| `Reseed.WalkExists` | operations/recovery/drreseed/policy.go:59-136 | every ledger has query results to walk, so the statements above are never empty |
| `Reseed.OrderDoesNotMatter` | operations/recovery/drreseed/policy.go:59-136 | any order of types and groups gives the same counters |
| `Reseed.CountersShowSpends` | services/ledger/policy/policy.go:265-278 | the counter a check reads holds exactly the records of the current window, which ties the counters to the overshoot model |

## Left out

- Configuration, TLS, Vault, HTTP and gRPC plumbing, metrics, tracing and log texts.
- The Redis rate limiter: its Lua script is not part of this model.
- The Redis counter: only the in-memory one is modelled; the two differ at the very instant of expiry.
- The scheduler's loop: heap, timers, goroutines and the job's own timeout.
- Daylight saving and offsets with seconds in the cron engine.
- Texts of errors: a rejected cron field is None, a rejected request names its rule.
- Floating-point rounding in the token bucket: tokens are real numbers, and a refill period below one millisecond is not modelled.
- 64-bit overflow of counter totals and of amounts.
- Fractions of amounts: amounts are integers, so the record's truncation to whole units does nothing.
- The limit cache and a limit that changes while requests are in flight.
- Overshoot: assumes that no counter read fails, as a failed read allows the request and the cap is then not promised.
- ReconstructWindow: a write that errs is taken to have had no effect; one that took effect all the same would be written but not reported.
- AckMeansClosed: takes the owner's answer to be a non-empty text, as it is the name of an enum value.
- Signature checks, source addresses and encryption of callbacks.
- Reconnecting to the broker: a lost connection and the drain are events at any time.
- The probe token's value, which no script compares, and the difference between the clocks of Redis and its clients.
- Years before 0 in the date texts of counter names.
- The failover rate limiter, and steps inside one degrade or probe.
- The ledger, payin and payout services, fraud rules, migrations and document tools: finite tables or single-branch checks.
