/** One daily timer: its configuration, its last answer, and the operations
    that change them. Every operation that re-evaluates the timer takes the
    clock reading and the random draws it would consume as parameters. */
module Timer {
  import opened TimerDefs
  import opened Evaluator
  import opened Callbacks
  import RandomDays

  class DailyTimer {
    var timerState: TimerState
    /** The start and end callbacks are present (non-null); they are set once. */
    const hasStartCallback: bool
    const hasEndCallback: bool
    var onMask: bv8
    var offMask: bv8
    /** The answer of the last evaluation by `sync` or `update`. */
    var state: bool
    const autoSync: bool
    var startTime: TimerTime
    var endTime: TimerTime
    var randomStartTime: TimerTime
    var randomEndTime: TimerTime
    var randomType: RandomType
    var currentDay: Uint8
    var offset: Uint8
    /** Every callback invocation so far, in order. */
    ghost var fired: seq<Event>

    /** The fields the activity test reads and writes. */
    function View(): Schedule
      reads this
    {
      Schedule(timerState, startTime, endTime, randomStartTime, randomEndTime,
               onMask, offMask, randomType, offset, currentDay)
    }

    /** What every operation keeps: configured times within 00:00-23:59, the
        offset at most 59 and zero only under the fixed policy, and the day of
        the last refresh a weekday or 0 (none yet). */
    ghost predicate Valid()
      reads this
    {
      && InDayRange(startTime) && InDayRange(endTime)
      && offset <= 59 && (offset == 0 ==> randomType == Fixed)
      && currentDay <= 7
    }

    /** The end mask is the one the day setters derive from the start mask. */
    ghost predicate DerivedOffMask()
      reads this
    {
      offMask == OffMaskFor(onMask, startTime, endTime)
    }

    /** The start-time-only timer: the end equals the start and there is no
        end callback. Static storage starts zeroed, so the `sync` reached from
        `setDaysActive` inside the constructor runs while the timer is still
        `TIMER_OFF`: it stores `false` and fires nothing. */
    constructor SingleEdge(startHour: Uint8, startMinute: Uint8, days: EventDays,
                           randomType: RandomType, hasStartCallback: bool)
      ensures Valid() && DerivedOffMask()
      ensures startTime == ClampTime(startHour, startMinute) && endTime == startTime
      ensures onMask == DayMask(days) && offMask == onMask
      ensures this.randomType == randomType && offset == 15 && timerState == TimerOn
      ensures !autoSync && this.hasStartCallback == hasStartCallback && !hasEndCallback
      ensures !state && fired == [] && currentDay == 0
      ensures randomStartTime == TimerTime(0, 0) && randomEndTime == TimerTime(0, 0)
    {
      autoSync := false;
      startTime := ClampTime(startHour, startMinute);
      endTime := ClampTime(startHour, startMinute);
      onMask := DayMask(days);
      offMask := OffMaskFor(DayMask(days), ClampTime(startHour, startMinute), ClampTime(startHour, startMinute));
      state := false;
      this.randomType := randomType;
      offset := 15;
      this.hasStartCallback := hasStartCallback;
      hasEndCallback := false;
      timerState := TimerOn;
      randomStartTime, randomEndTime, currentDay := TimerTime(0, 0), TimerTime(0, 0), 0;
      fired := [];
    }

    /** The start-and-end timer. As for `SingleEdge`, the constructor's own
        `sync` sees `TIMER_OFF`, stores `false` and fires nothing. */
    constructor StartEnd(syncOnPowerup: bool, startHour: Uint8, startMinute: Uint8,
                         endHour: Uint8, endMinute: Uint8, days: EventDays, randomType: RandomType,
                         hasStartCallback: bool, hasEndCallback: bool)
      ensures Valid() && DerivedOffMask()
      ensures startTime == ClampTime(startHour, startMinute) && endTime == ClampTime(endHour, endMinute)
      ensures onMask == DayMask(days)
      ensures this.randomType == randomType && offset == 15 && timerState == TimerOn
      ensures autoSync == syncOnPowerup
      ensures this.hasStartCallback == hasStartCallback && this.hasEndCallback == hasEndCallback
      ensures !state && fired == [] && currentDay == 0
      ensures randomStartTime == TimerTime(0, 0) && randomEndTime == TimerTime(0, 0)
    {
      autoSync := syncOnPowerup;
      startTime := ClampTime(startHour, startMinute);
      endTime := ClampTime(endHour, endMinute);
      onMask := DayMask(days);
      offMask := OffMaskFor(DayMask(days), ClampTime(startHour, startMinute), ClampTime(endHour, endMinute));
      state := false;
      this.randomType := randomType;
      offset := 15;
      this.hasStartCallback := hasStartCallback;
      this.hasEndCallback := hasEndCallback;
      timerState := TimerOn;
      randomStartTime, randomEndTime, currentDay := TimerTime(0, 0), TimerTime(0, 0), 0;
      fired := [];
    }

    /** The activity test: a suspended timer answers `false` at once;
        otherwise the once-a-day refresh runs and the decision reads the
        edges in force. */
    method IsActive(clock: Clock, j: Jitter) returns (active: bool)
      requires Valid() && ValidClock(clock) && JitterInRange(offset, j)
      modifies this`randomStartTime, this`randomEndTime, this`currentDay
      ensures Valid()
      ensures (active, View()) == Evaluate(old(View()), clock, j)
    {
      if timerState == TimerOff {
        return false;
      }
      if currentDay != clock.weekday && RandomTypeValue(randomType) != 0 {
        if randomType == Random || randomType == RandomStart {
          randomStartTime := Jittered(startTime, j.start);
        }
        if randomType == Random || randomType == RandomEnd {
          randomEndTime := Jittered(endTime, j.end);
        }
        currentDay := clock.weekday;
      }
      var onTime := EdgeSeconds(if randomType == Random || randomType == RandomStart then randomStartTime else startTime);
      var offTime := EdgeSeconds(if randomType == Random || randomType == RandomEnd then randomEndTime else endTime);
      active := Decide(TodayBits(clock.weekday), onMask, offMask, onTime, offTime, clock.second);
    }

    /** Re-evaluate and store the answer; with auto-sync the callback that
        matches the answer fires, on every call. */
    method Sync(clock: Clock, j: Jitter) returns (active: bool)
      requires Valid() && ValidClock(clock) && JitterInRange(offset, j)
      modifies this`randomStartTime, this`randomEndTime, this`currentDay, this`state, this`fired
      ensures Valid()
      ensures (active, View()) == Evaluate(old(View()), clock, j)
      ensures state == active
      ensures fired == old(fired) + SyncEvents(active, autoSync, hasStartCallback, hasEndCallback)
    {
      active := IsActive(clock, j);
      if active && autoSync {
        if hasStartCallback {
          fired := fired + [StartFired];
        }
      } else if !active && autoSync {
        if hasEndCallback {
          fired := fired + [EndFired];
        }
      }
      state := active;
    }

    /** This timer's turn in `update`: re-evaluate, store the answer, and
        fire a present callback only when the answer changed. */
    method Tick(clock: Clock, j: Jitter)
      requires Valid() && ValidClock(clock) && JitterInRange(offset, j)
      modifies this`randomStartTime, this`randomEndTime, this`currentDay, this`state, this`fired
      ensures Valid()
      ensures (state, View()) == Evaluate(old(View()), clock, j)
      ensures fired == old(fired) + UpdateEvents(old(state), state, hasStartCallback, hasEndCallback)
    {
      var lastState := state;
      state := IsActive(clock, j);
      if lastState != state {
        if state {
          if hasStartCallback {
            fired := fired + [StartFired];
          }
        } else {
          if hasEndCallback {
            fired := fired + [EndFired];
          }
        }
      }
    }

    /** Replace the start mask, derive the end mask from the order of the
        configured edges, then `sync`. */
    method SetDaysActiveMask(activeDays: bv8, clock: Clock, j: Jitter)
      requires Valid() && ValidClock(clock) && JitterInRange(offset, j)
      modifies this`onMask, this`offMask,
               this`randomStartTime, this`randomEndTime, this`currentDay, this`state, this`fired
      ensures Valid() && DerivedOffMask()
      ensures onMask == activeDays
      ensures startTime == old(startTime) && endTime == old(endTime)
      ensures (state, View()) ==
                Evaluate(old(View()).(onMask := activeDays, offMask := offMask), clock, j)
      ensures fired == old(fired) + SyncEvents(state, autoSync, hasStartCallback, hasEndCallback)
    {
      onMask := activeDays;
      offMask := OffMaskFor(onMask, startTime, endTime);
      var _ := Sync(clock, j);
    }

    /** The preset form: the preset's mask, then as `SetDaysActiveMask`. */
    method SetDaysActive(days: EventDays, clock: Clock, j: Jitter)
      requires Valid() && ValidClock(clock) && JitterInRange(offset, j)
      modifies this`onMask, this`offMask,
               this`randomStartTime, this`randomEndTime, this`currentDay, this`state, this`fired
      ensures Valid() && DerivedOffMask()
      ensures onMask == DayMask(days)
      ensures startTime == old(startTime) && endTime == old(endTime)
      ensures (state, View()) ==
                Evaluate(old(View()).(onMask := DayMask(days), offMask := offMask), clock, j)
      ensures fired == old(fired) + SyncEvents(state, autoSync, hasStartCallback, hasEndCallback)
    {
      SetDaysActiveMask(DayMask(days), clock, j);
    }

    /** Store the jitter bound, saturated at 59; a bound of 0 forces the
        fixed policy. Nothing is re-evaluated. */
    method SetRandomOffset(randomMinutes: Uint8, randomSetting: RandomType)
      requires Valid()
      modifies this`offset, this`randomType
      ensures Valid()
      ensures offset == Saturate(randomMinutes, 59)
      ensures randomType == if offset == 0 then Fixed else randomSetting
    {
      offset := if randomMinutes > 59 then 59 else randomMinutes;
      if offset == 0 {
        randomType := Fixed;
      } else {
        randomType := randomSetting;
      }
    }

    /** Clamp and store the start, re-derive the end mask (which syncs),
        then sync a second time: with auto-sync the matching callback fires
        twice, and both evaluations give the same answer. */
    method SetStartTime(hour: Uint8, minute: Uint8, clock: Clock, j: Jitter)
      requires Valid() && ValidClock(clock) && JitterInRange(offset, j)
      modifies this`startTime, this`onMask, this`offMask,
               this`randomStartTime, this`randomEndTime, this`currentDay, this`state, this`fired
      ensures Valid() && DerivedOffMask()
      ensures startTime == ClampTime(hour, minute)
      ensures endTime == old(endTime) && onMask == old(onMask)
      ensures (state, View()) ==
                Evaluate(old(View()).(startTime := startTime, offMask := offMask), clock, j)
      ensures var e := SyncEvents(state, autoSync, hasStartCallback, hasEndCallback);
              fired == old(fired) + e + e
    {
      startTime := ClampTime(hour, minute);
      ghost var s0 := View();
      SetDaysActiveMask(onMask, clock, j);
      EvaluateIdempotent(s0.(offMask := offMask), clock, j, j);
      var _ := Sync(clock, j);
    }

    /** Clamp and store the end, re-derive the end mask (which syncs), then
        sync a second time, as `SetStartTime` does. */
    method SetEndTime(hour: Uint8, minute: Uint8, clock: Clock, j: Jitter)
      requires Valid() && ValidClock(clock) && JitterInRange(offset, j)
      modifies this`endTime, this`onMask, this`offMask,
               this`randomStartTime, this`randomEndTime, this`currentDay, this`state, this`fired
      ensures Valid() && DerivedOffMask()
      ensures endTime == ClampTime(hour, minute)
      ensures startTime == old(startTime) && onMask == old(onMask)
      ensures (state, View()) ==
                Evaluate(old(View()).(endTime := endTime, offMask := offMask), clock, j)
      ensures var e := SyncEvents(state, autoSync, hasStartCallback, hasEndCallback);
              fired == old(fired) + e + e
    {
      endTime := ClampTime(hour, minute);
      ghost var s0 := View();
      SetDaysActiveMask(onMask, clock, j);
      EvaluateIdempotent(s0.(offMask := offMask), clock, j, j);
      var _ := Sync(clock, j);
    }

    /** Pick `numberDays` weekdays at random as the new start mask, sync, and
        return the mask. The end mask is left as it was. */
    method SetRandomDays(numberDays: Uint8, picks: seq<int>, clock: Clock, j: Jitter) returns (mask: bv8)
      requires Valid() && ValidClock(clock) && JitterInRange(offset, j)
      requires numberDays <= 8 && RandomDays.ValidPicks(picks)
      modifies this`onMask,
               this`randomStartTime, this`randomEndTime, this`currentDay, this`state, this`fired
      ensures Valid()
      ensures mask == onMask
      ensures mask & 1 == 0 && RandomDays.PopCount(mask) == RandomDays.Min(numberDays, 7)
      ensures offMask == old(offMask)
      ensures (state, View()) == Evaluate(old(View()).(onMask := mask), clock, j)
      ensures fired == old(fired) + SyncEvents(state, autoSync, hasStartCallback, hasEndCallback)
    {
      var m := RandomDays.RandomDayMask(numberDays, picks);
      onMask := m;
      var _ := Sync(clock, j);
      mask := onMask;
    }

    /** The start-day mask. */
    function GetDays(): (days: bv8)
      reads this
      ensures days == View().onMask
    {
      onMask
    }

    /** Suspend the schedule and fire the start callback. */
    method ManualOn()
      requires hasStartCallback
      modifies this`timerState, this`fired
      ensures timerState == TimerOff
      ensures fired == old(fired) + [StartFired]
    {
      timerState := TimerOff;
      fired := fired + [StartFired];
    }

    /** Suspend the schedule and fire the end callback. */
    method ManualOff()
      requires hasEndCallback
      modifies this`timerState, this`fired
      ensures timerState == TimerOff
      ensures fired == old(fired) + [EndFired]
    {
      timerState := TimerOff;
      fired := fired + [EndFired];
    }

    /** Resume the schedule and sync. */
    method Resume(clock: Clock, j: Jitter)
      requires Valid() && ValidClock(clock) && JitterInRange(offset, j)
      modifies this`timerState,
               this`randomStartTime, this`randomEndTime, this`currentDay, this`state, this`fired
      ensures Valid()
      ensures timerState == TimerOn
      ensures (state, View()) == Evaluate(old(View()).(timerState := TimerOn), clock, j)
      ensures fired == old(fired) + SyncEvents(state, autoSync, hasStartCallback, hasEndCallback)
    {
      timerState := TimerOn;
      var _ := Sync(clock, j);
    }
  }

  /** A run of `update` calls, as a sketch's loop makes them, seen from one
      timer: one reading and one pair of draws per call. What it fires is the
      trace of the answers it computed, so with both callbacks present start
      and end alternate, one per change of state. */
  method UpdateRun(t: DailyTimer, clocks: seq<Clock>, jitters: seq<Jitter>)
      returns (answers: seq<bool>, ghost views: seq<Schedule>)
    requires t.Valid() && |jitters| == |clocks|
    requires forall i :: 0 <= i < |clocks| ==> ValidClock(clocks[i]) && JitterInRange(t.offset, jitters[i])
    modifies t`randomStartTime, t`randomEndTime, t`currentDay, t`state, t`fired
    ensures t.Valid() && |answers| == |clocks|
    ensures EvaluatedRun(views, answers, clocks, jitters)
    ensures views[0] == old(t.View()) && views[|clocks|] == t.View()
    ensures t.state == LastState(old(t.state), answers)
    ensures t.fired == old(t.fired) + UpdateTrace(old(t.state), answers, t.hasStartCallback, t.hasEndCallback)
    ensures t.hasStartCallback && t.hasEndCallback ==>
              |t.fired| == |old(t.fired)| + Changes(old(t.state), answers)
  {
    ghost var init, fired0 := t.state, t.fired;
    answers := [];
    views := [t.View()];
    for i := 0 to |clocks|
      invariant t.Valid() && |answers| == i
      invariant EvaluatedRun(views, answers, clocks, jitters)
      invariant views[0] == old(t.View()) && views[i] == t.View()
      invariant t.state == LastState(init, answers)
      invariant t.fired == fired0 + UpdateTrace(init, answers, t.hasStartCallback, t.hasEndCallback)
    {
      answers, views := UpdateStep(t, clocks, jitters, answers, views, init, fired0);
    }
    UpdateTraceFollowsEdges(init, answers);
  }

  /** One call of a run of updates: `Tick` at the next reading, recorded as
      the next answer and the next fields of the run. */
  method UpdateStep(t: DailyTimer, clocks: seq<Clock>, jitters: seq<Jitter>, answers: seq<bool>,
                    ghost views: seq<Schedule>, ghost init: bool, ghost fired0: seq<Event>)
      returns (answers': seq<bool>, ghost views': seq<Schedule>)
    requires t.Valid() && |answers| < |clocks| == |jitters|
    requires forall i :: 0 <= i < |clocks| ==> ValidClock(clocks[i]) && JitterInRange(t.offset, jitters[i])
    requires EvaluatedRun(views, answers, clocks, jitters) && views[|answers|] == t.View()
    requires t.state == LastState(init, answers)
    requires t.fired == fired0 + UpdateTrace(init, answers, t.hasStartCallback, t.hasEndCallback)
    modifies t`randomStartTime, t`randomEndTime, t`currentDay, t`state, t`fired
    ensures t.Valid() && answers' == answers + [t.state] && views' == views + [t.View()]
    ensures EvaluatedRun(views', answers', clocks, jitters)
    ensures t.state == LastState(init, answers')
    ensures t.fired == fired0 + UpdateTrace(init, answers', t.hasStartCallback, t.hasEndCallback)
  {
    t.Tick(clocks[|answers|], jitters[|answers|]);
    ExtendRun(views, answers, clocks, jitters, t.state, t.View());
    ExtendTrace(init, answers, t.state, t.hasStartCallback, t.hasEndCallback);
    answers' := answers + [t.state];
    views' := views + [t.View()];
  }

  /** `views[k]` are the fields before the k-th evaluation of a run and
      `answers[k]` its answer: each step is `Evaluate` at its own reading
      and draws, starting from the fields the previous step left. */
  ghost predicate EvaluatedRun(views: seq<Schedule>, answers: seq<bool>, clocks: seq<Clock>, jitters: seq<Jitter>)
  {
    && |views| == |answers| + 1 && |answers| <= |clocks| && |answers| <= |jitters|
    && (forall k :: 0 <= k < |views| ==> Configured(views[k]))
    && (forall k :: 0 <= k < |answers| ==> ValidClock(clocks[k]))
    && (forall k :: 0 <= k < |answers| ==>
          (answers[k], views[k + 1]) == Evaluate(views[k], clocks[k], jitters[k]))
  }

  /** One more update appends its own events to the trace of a run. */
  lemma ExtendTrace(init: bool, answers: seq<bool>, answer: bool, hasStart: bool, hasEnd: bool)
    ensures LastState(init, answers + [answer]) == answer
    ensures UpdateTrace(init, answers + [answer], hasStart, hasEnd) ==
              UpdateTrace(init, answers, hasStart, hasEnd)
                + UpdateEvents(LastState(init, answers), answer, hasStart, hasEnd)
  {
    assert (answers + [answer])[..|answers|] == answers;
  }

  /** One more evaluation extends a run. */
  lemma ExtendRun(views: seq<Schedule>, answers: seq<bool>, clocks: seq<Clock>, jitters: seq<Jitter>,
                  answer: bool, view: Schedule)
    requires EvaluatedRun(views, answers, clocks, jitters)
    requires |answers| < |clocks| && |answers| < |jitters| && ValidClock(clocks[|answers|])
    requires (answer, view) == Evaluate(views[|answers|], clocks[|answers|], jitters[|answers|])
    ensures Configured(view)
    ensures EvaluatedRun(views + [view], answers + [answer], clocks, jitters)
  {
    EvaluateIdempotent(views[|answers|], clocks[|answers|], jitters[|answers|], jitters[|answers|]);
  }

  /** While suspended by a manual override a timer answers `false` whatever
      the clock and masks say, so the next update fires the end callback if
      the stored answer was `true`, and nothing otherwise. */
  lemma OverrideThenUpdate(s: Schedule, c: Clock, j: Jitter, last: bool, hasStart: bool, hasEnd: bool)
    requires Configured(s) && ValidClock(c) && s.timerState == TimerOff
    ensures !Evaluate(s, c, j).0 && Evaluate(s, c, j).1 == s
    ensures UpdateEvents(last, Evaluate(s, c, j).0, hasStart, hasEnd) ==
              if last && hasEnd then [EndFired] else []
  {
  }
}
