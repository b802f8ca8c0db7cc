# DailyTimer — a verified model

DailyTimer decides whether a daily on/off window is active at the current
moment and fires a start or end callback when that answer changes. A timer
holds a start and an end time of day, a start-day mask `onMask` and an
end-day mask `offMask` (bit 7 = Sunday … bit 1 = Saturday, bit 0 a helper bit
that lets a Saturday-night window end on Sunday), a randomisation policy with
a jitter bound, and its last answer. A periodic `update` re-evaluates every
registered timer and fires a callback on each change. `sync` re-evaluates one
timer and, with auto-sync, fires the matching callback on every call.

The model is split by the program's own structure:

- `timer_defs.dfy` (module `TimerDefs`): the header's day-mask table, the
  `EventDays`, `RandomType` and timer-state enumerations, the bounded time of
  day, the instance capacity, and the clamping of times.
- `evaluator.dfy` (module `Evaluator`): the activity test as functions over a
  `Schedule` value (the timer fields the test reads and writes). It holds the
  once-a-day refresh of the randomised edges (`Refresh`), the weekday
  indicator (`TodayBits`), the case table (`Decide`) and the whole test
  (`Evaluate`). The lemmas characterise the test: an open arc round the clock
  when both edges are armed, the weekly window of a same-day schedule and of
  a schedule that crosses midnight (Sunday after Saturday included),
  idempotence of the refresh, and the bounds of the jitter.
- `callbacks.dfy` (module `Callbacks`): which callbacks `sync` and one
  `update` step fire, and what a run of updates fires (one callback per change
  of state, start and end strictly alternating).
- `random_days.dfy` (module `RandomDays`): the array algorithm of
  `setRandomDays` (fill, Fisher–Yates shuffle, pack). It yields a mask with
  exactly min(n, 7) weekday bits set and bit 0 clear.
- `daily_timer.dfy` (module `Timer`): the class `DailyTimer` with the source's
  fields. It has both constructors, the setters, `isActive`, `sync`, one
  timer's step of `update`, and the manual override. Each method that
  re-evaluates the timer (`IsActive`, `Sync`, `Tick`, the day and time
  setters, `SetRandomDays`, `Resume`, `UpdateRun`) ties the new fields to
  `Evaluator.Evaluate` of the old ones and the fired callbacks to the
  `Callbacks` functions. `SetRandomOffset`, `GetDays`, the constructors and
  the manual overrides `ManualOn` and `ManualOff` evaluate nothing; the
  overrides append their one callback directly.
- `registry.dfy` (module `TimerRegistry`): the instance table, bounded by
  `MAX_TIMER_INSTANCES`, and `update`, which walks it in registration order.

Time is linear within a day. An edge at `hour:minute` is `60*(60*hour+minute)`
seconds after local midnight, so an hour of 24 lies past the end of today.
"Now" is a weekday (1 = Sunday … 7 = Saturday) and a second of the day. The
draws of `random(-offset, offset)` are `Jitter` parameters within
`[-offset, offset]`. The draws of `random(i, 7)` are a `picks` sequence. Each
callback invocation is recorded as an event in a ghost trace `fired`.

Behaviours of the code that the model keeps and that a reader may not expect:

- The end mask is shifted only when the start is strictly later than the end.
  Equal times give a one-second pulse at the edge.
- The interval is open. For a window from 18:00 the first active second is
  18:00:01, so a tick at 18:00:00 does not yet fire the start callback
  (`WeekdayEveningScenario`).
- `setRandomDays` replaces `onMask` but leaves `offMask` as it was
  (`SetRandomDays` ensures `offMask == old(offMask)`). The end mask is then no
  longer derived from the start mask. Take 22:00–06:00 on weekends, moved to
  Mondays only. The old Saturday-night end edge still makes Sunday 03:00
  active, and Monday night's window stops at midnight instead of lasting
  until Tuesday 06:00 (`StaleEndMaskScenario`).
- The jitter is constrained to at least 1 minute, so a randomised edge is
  never earlier than its base. This reads `constrain` as a function of one
  draw (see `Evaluator.Jittered` under "## Left out"). It can reach hour 24 (`RandomizedHourReaches24`).
  Such an edge never comes today: a start moved past midnight leaves only the
  morning before the end (`BothArmedIsForwardArc`).
- The masks are derived from the configured times, not the randomised ones.
  Randomising can therefore invert the order of the edges, and a 22:00–22:05
  window can be active at 10:00 (`RandomizedOrderInversion`). The other way
  round, a window that crosses midnight can lose its night. Take Mondays
  22:00–21:50 under RANDOM_END with the end drawn to 22:05. The end is armed
  only on Tuesday, so on Monday the window shuts at 22:05
  (`RandomizedEndShutsEarly`).
- The randomised edges are redrawn only when the weekday changes. After
  `setStartTime` or `setEndTime`, today's randomised edge stays on the old
  base, while the end mask is re-derived from the new configured times. A
  start drawn to 18:10 and then set to 20:00 still makes 19:00 active that
  day (`StaleRandomStartScenario`).
- `setStartTime` and `setEndTime` sync twice. With auto-sync the matching
  callback fires twice, and both evaluations give the same answer.
- A manual override suspends evaluation, but it leaves the stored answer as
  it was. If that answer was `true`, the next `update` fires the end callback
  (`OverrideThenUpdate`).

## Model

| member | source | states |
|---|---|---|
| TimerDefs.DayMask | src/DailyTimer.h:27-39 | the mask a preset selects from `dayTemplate`; it is never empty and never sets the helper bit 0 |
| TimerDefs.SingleDayPresetBits | src/DailyTimer.h:24-35 | each single-day preset is one bit, Sunday at bit 7 down to Saturday at bit 1, following the enumeration's order |
| TimerDefs.CompositePresets | src/DailyTimer.h:36-38 | WEEKENDS is Sunday or Saturday, WEEKDAYS is Monday to Friday, EVERY_DAY is all seven days |
| TimerDefs.RandomTypeValue | src/DailyTimer.h:25 | FIXED is the zero value of the policy enumeration, so the truth test on the policy means "randomised" |
| TimerDefs.Saturate | src/DailyTimer.cpp:110 | a byte saturated at a bound: never above the bound or the input, and equal to one of them |
| TimerDefs.ClampTime | src/DailyTimer.cpp:55-58 | a clamped time is within 00:00-23:59; in-range parts are kept and out-of-range parts become 23 or 59 |
| Evaluator.Constrain | src/DailyTimer.cpp:214 | Arduino `constrain`: the result lies in [lo, hi], equals x inside, and is the nearer bound outside |
| Evaluator.EdgeOrderIsLexicographic | src/DailyTimer.cpp:97 | comparing today's instants of two edges is comparing (hour, minute) lexicographically; equal instants mean equal times |
| Evaluator.Jittered | src/DailyTimer.cpp:213-216 | a randomised edge is the base minute-of-day plus the draw constrained to [1, 1439], split into hour and a minute below 60 |
| Evaluator.JitterBounds | src/DailyTimer.cpp:213-223 | with a draw in [-offset, offset], a randomised edge is 1 to max(1, offset) minutes after its base, never earlier, with hour at most 24 |
| Evaluator.RandomizedHourReaches24 | src/DailyTimer.cpp:216 | 23:59 moved by one minute is stored as hour 24, minute 0 |
| Evaluator.Refresh | src/DailyTimer.cpp:208-226 | the refresh changes only the randomised edges and the recorded day; nothing under FIXED or on the recorded weekday; a randomising policy records the weekday; only start policies rewrite the start, only end policies the end |
| Evaluator.RefreshOncePerDay | src/DailyTimer.cpp:208 | a second refresh on the same weekday changes nothing, whatever it draws |
| Evaluator.RefreshedEdges | src/DailyTimer.cpp:211-224 | each edge a running refresh rewrites lies 1 to max(1, offset) minutes after its configured time, with a minute below 60 |
| Evaluator.OnTime | src/DailyTimer.cpp:228 | the start edge in force is the randomised start under RANDOM or RANDOM_START and the configured start otherwise, at a whole minute |
| Evaluator.OffTime | src/DailyTimer.cpp:229 | the end edge in force is the randomised end under RANDOM or RANDOM_END and the configured end otherwise, at a whole minute |
| Evaluator.EffectiveEdgesAfterRefresh | src/DailyTimer.cpp:208-229 | on the first evaluation of a weekday each edge in force is the configured one or, if randomised, 1 to max(1, offset) minutes later; every edge lies within 00:00-24:58 |
| Evaluator.TodayBits | src/DailyTimer.cpp:230-235 | the weekday indicator has exactly that day's `dayTemplate` bit among bits 7..1, and bit 0 exactly on Sunday |
| Evaluator.ArmedByDayBit | src/DailyTimer.cpp:231-236 | a mask arms a weekday through that day's bit, and Sunday also through the helper bit |
| Evaluator.ShiftedMaskArmsNextDay | src/DailyTimer.cpp:97-100 | `onMask >> 1` arms the end edge exactly on the day after each start day; Saturday's bit moves to the helper bit, which Sunday tests |
| Evaluator.PresetArmedDays | src/DailyTimer.h:27-39 | a preset arms exactly the weekdays it names (SUNDAYS = {1} … WEEKENDS = {1,7}, WEEKDAYS = {2..6}, EVERY_DAY = {1..7}) |
| Evaluator.BothArmedIsForwardArc | src/DailyTimer.cpp:236-254 | with both edges armed: for distinct in-day edges, active iff now lies strictly inside the forward arc from start to end; for any edges, distinct endpoints are never active, equal edges only at that instant, a start not yet reached after the end (a start past midnight included) leaves only now < end, and an end not yet reached after the start leaves only now > start |
| Evaluator.Decide | src/DailyTimer.cpp:236-273 | the case table: active only if today arms an edge; with only the start armed, only after the start; with only the end armed, only before the end; both directions of the one-edge days are in `OneEdgeArmed` |
| Evaluator.OneEdgeArmed | src/DailyTimer.cpp:255-273 | the one-edge days in both directions: start only, active iff start < now < end when the start comes first and iff now > start otherwise; end only, active iff now < end; neither, inactive |
| Evaluator.SameDayWindow | src/DailyTimer.cpp:236-273 | with `offMask == onMask` and start not after end, active iff the day is armed and start < now < end, or now equals both edges when they coincide |
| Evaluator.BridgingWindow | src/DailyTimer.cpp:236-273 | with `offMask == onMask >> 1` and end before start, active iff (armed today and now > start) or (yesterday was a start day and now < end) |
| Evaluator.OffMaskFor | src/DailyTimer.cpp:82-89 | the derived end mask arms the end edge on each start day, or on the day after each start day when the start is later than the end |
| Evaluator.OffMaskDerivation | src/DailyTimer.cpp:93-104 | the derived end mask is `onMask >> 1` when the start is lexicographically later than the end, and `onMask` otherwise |
| Evaluator.Evaluate | src/DailyTimer.cpp:204-273 | a suspended timer is inactive and unchanged; a running one is refreshed; an active answer needs a mask that arms today |
| Evaluator.EvaluateIdempotent | src/DailyTimer.cpp:208-229 | a second evaluation at the same reading gives the same answer and fields, whatever it draws |
| Evaluator.FixedScheduleWindow | src/DailyTimer.cpp:227-273 | the weekly window of a fixed running timer with a derived end mask: same-day interval, single-instant pulse, or evening of a start day plus morning after it |
| Evaluator.WeekdayEveningScenario | src/DailyTimer.cpp:236-241 | 18:00-23:00 on weekdays: active Tuesday 20:00 and 18:00:01; inactive at 18:00 and 23:00 sharp and on Saturday 20:00 |
| Evaluator.OvernightScenario | src/DailyTimer.cpp:242-245 | 22:00-06:00 every day: active at 23:30, 23:59:59, 00:00 and 05:30; inactive at noon |
| Evaluator.RandomizedOrderInversion | src/DailyTimer.cpp:211-244 | the masks come from the configured times, so randomising can swap the edges' order: 22:00-22:05 drawn +10/+1 is active at 10:00 |
| Evaluator.StaleEndMaskScenario | src/DailyTimer.cpp:138-161 | after only the start mask changes, weekends 22:00-06:00 moved to Mondays is active Sunday 03:00 and inactive Tuesday 03:00, where the derived end mask would make it active |
| Evaluator.RandomizedEndShutsEarly | src/DailyTimer.cpp:218-223 | Mondays 22:00-21:50 under RANDOM_END with the end drawn to 22:05 arms only the start on Monday, so it is active at 22:02 and inactive at 23:00 |
| Evaluator.StaleRandomStartScenario | src/DailyTimer.cpp:121-127 | a start randomised to 18:10 on Tuesday and then set to 20:00 still makes Tuesday 19:00 active; after Wednesday's refresh 19:00 is inactive |
| Callbacks.SyncEvents | src/DailyTimer.cpp:168-182 | `sync` fires at most one callback: the start one iff auto-sync, active and present; the end one iff auto-sync, inactive and present |
| Callbacks.UpdateEvents | src/DailyTimer.cpp:188-200 | one update step fires nothing when the answer is unchanged; start iff false to true with a start callback; end iff true to false with an end callback |
| Callbacks.UpdateTraceFollowsEdges | src/DailyTimer.cpp:184-202 | with both callbacks present, a run of updates fires one callback per change; start and end alternate; the first leaves the initial state and the last matches the final state |
| Callbacks.SteadyRunFiresNothing | src/DailyTimer.cpp:190 | a run of updates whose answers never change fires no callback |
| RandomDays.Shuffle | src/DailyTimer.cpp:147-153 | swapping slot i with a slot drawn from [i, 6] permutes the slots and never touches slot 7 |
| RandomDays.Pack | src/DailyTimer.cpp:154-157 | packing 0/1 slots sets bit i exactly when slot i holds 1, for i < 7, and leaves bit 7 clear |
| RandomDays.ShiftLeftCount | src/DailyTimer.cpp:158 | shifting the packed byte left by one keeps the number of set bits among bits 0..6 |
| RandomDays.RandomDayMask | src/DailyTimer.cpp:141-158 | the new start mask has exactly min(n, 7) weekday bits set and the helper bit 0 clear |
| Timer.DailyTimer.SingleEdge | src/DailyTimer.cpp:35-50 | clamped start, end equal to start, preset mask with `offMask == onMask`, offset 15, running, no auto-sync, no end callback, stored answer false, nothing fired, randomised edges 00:00 |
| Timer.DailyTimer.StartEnd | src/DailyTimer.cpp:52-66 | clamped start and end, preset mask with derived end mask, offset 15, running, the given auto-sync and callbacks, stored answer false, nothing fired, randomised edges 00:00 |
| Timer.DailyTimer.IsActive | src/DailyTimer.cpp:204-273 | the answer and the refreshed fields are `Evaluate` of the old fields; the invariant is kept |
| Timer.DailyTimer.Sync | src/DailyTimer.cpp:168-182 | stores and returns `Evaluate`'s answer; with auto-sync the matching present callback fires on every call |
| Timer.DailyTimer.Tick | src/DailyTimer.cpp:188-200 | stores `Evaluate`'s answer and fires exactly the `UpdateEvents` of the old and new answers |
| Timer.DailyTimer.SetDaysActiveMask | src/DailyTimer.cpp:93-106 | `onMask` becomes the argument, the end mask is derived from the configured edges, the times are unchanged, then one sync |
| Timer.DailyTimer.SetDaysActive | src/DailyTimer.cpp:78-91 | as `SetDaysActiveMask` with the preset's mask |
| Timer.DailyTimer.SetRandomOffset | src/DailyTimer.cpp:108-119 | stores min(arg, 59); the policy becomes FIXED when that is 0, else the given one; nothing is re-evaluated |
| Timer.DailyTimer.SetStartTime | src/DailyTimer.cpp:121-127 | clamped start, end and start mask kept, end mask re-derived; two syncs that give the same answer, each firing the sync callback |
| Timer.DailyTimer.SetEndTime | src/DailyTimer.cpp:129-135 | clamped end, start and start mask kept, end mask re-derived; two syncs that give the same answer, each firing the sync callback |
| Timer.DailyTimer.SetRandomDays | src/DailyTimer.cpp:138-161 | returns the new `onMask`, which has min(n, 7) weekday bits and bit 0 clear; `offMask` is left unchanged; then one sync |
| Timer.DailyTimer.GetDays | src/DailyTimer.cpp:163-166 | returns the start-day mask |
| Timer.DailyTimer.ManualOn | src/DailyTimer.cpp:290-294 | suspends the schedule and fires the start callback |
| Timer.DailyTimer.ManualOff | src/DailyTimer.cpp:296-300 | suspends the schedule and fires the end callback |
| Timer.DailyTimer.Resume | src/DailyTimer.cpp:302-306 | resumes the schedule, then one sync of the resumed fields |
| Timer.UpdateRun | src/DailyTimer.cpp:184-202 | a run of updates on one timer: each answer and each new set of fields is `Evaluate` of the fields the previous call left, at that call's reading and draws; it fires exactly the trace of those answers and ends in the last one; with both callbacks, one callback per change of state |
| Timer.UpdateStep | src/DailyTimer.cpp:188-200 | one call of such a run extends the run by `Evaluate`'s answer and fields and the trace by that call's events |
| Timer.OverrideThenUpdate | src/DailyTimer.cpp:206-207 | a suspended timer is inactive whatever the clock and masks, so the next update fires the end callback iff the stored answer was true |
| TimerRegistry.Registry.constructor | src/DailyTimer.cpp:31-32 | the instance table starts empty |
| TimerRegistry.Registry.Register | src/DailyTimer.cpp:47-48 | appends a new timer; the table stays within `MAX_TIMER_INSTANCES` (10) with each timer once |
| TimerRegistry.Registry.Update | src/DailyTimer.cpp:184-202 | every registered timer stores `Evaluate`'s answer with its own draws and fires exactly the `UpdateEvents` of its old and new answers |

## Left out

- Evaluator.Jittered: `constrain(random(-offset, offset), 1, 1439)` is taken
  to draw once and clamp that draw. The platform header that defines
  `constrain` is not part of this model. If it is the classic Wiring macro,
  the argument is evaluated up to three times. The jitter is then 1 when the
  first draw is below 1, and otherwise a third, independent draw, which can
  be 0 or negative. In that case a randomised edge can be earlier than its
  base, and near midnight C's `%` can give a negative minute that wraps in
  the byte field. `JitterBounds`, `RefreshedEdges` and
  `EffectiveEdgesAfterRefresh` hold only under the single-draw reading.
- The clock and calendar: `Time.local`, `Time.year/month/day/weekday` and
  `mktime` are replaced by a weekday and a second of the day. Edges are linear
  seconds from midnight. Daylight saving and date normalisation are not
  modelled. The two weekday readings in `isActive` are taken to agree.
- Several clock readings within one operation are modelled as one. The two
  syncs of `setStartTime`/`setEndTime` see the same clock reading and draws.
- Randomness: `randomSeed`, `micros` and `random` are parameters, and
  uniformity is not modelled. The draws of `random(-offset, offset)` may range
  over the closed interval `[-offset, offset]`, a superset of what the
  generator returns.
- Callback bodies are user code. Only the invocation is recorded.
- Timer.DailyTimer.SingleEdge: the constructors' inner `sync` runs before
  `timerState` and the callbacks are assigned. The model uses zeroed static
  storage, so that sync sees `TIMER_OFF` and stores `false` directly.
  Uninitialised fields, including `currentDay`, start at zero.
- Timer.DailyTimer.StartEnd: same as `SingleEdge` for the inner `sync`.
- TimerRegistry.Registry.Register: registration is a separate call with a
  precondition that the table has room. The out-of-bounds write past ten
  instances is not modelled.
- Timer.DailyTimer.ManualOn: requires a start callback, because the source
  calls it without a null check. `ManualOff` likewise requires an end callback.
- Timer.DailyTimer.SetRandomDays: requires `n <= 8`, because a larger count
  writes past the eight-slot array.
- `getInstanceCount`, `begin` (a wrapper that returns `sync`) and the
  unused `instanceAddress` declaration are trivial and not modelled separately.
- Concurrency: there is none in the source.
