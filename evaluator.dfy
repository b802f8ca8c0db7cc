/** The activity test of a daily timer (`isActive`): the once-a-day refresh of
    the randomised edge times, and the decision over the weekday masks and the
    edge times. Both are stated here as functions of a `Schedule` value, the
    fields of one timer that the test reads and writes. */
module Evaluator {
  import opened TimerDefs

  const SecondsPerDay: int := 86400
  const MinutesPerDay: int := 1440

  /** A reading of the local clock: weekday 1 (Sunday) to 7 (Saturday) and the
      second of the day. */
  datatype Clock = Clock(weekday: int, second: int)

  predicate ValidClock(c: Clock)
  {
    1 <= c.weekday <= 7 && 0 <= c.second < SecondsPerDay
  }

  /** The two draws of `random(-offset, offset)` a refresh may consume: one
      for the start time, one for the end time. */
  datatype Jitter = Jitter(start: int, end: int)

  /** The range the random source keeps its draws in. */
  predicate JitterInRange(offset: int, j: Jitter)
  {
    -offset <= j.start <= offset && -offset <= j.end <= offset
  }

  /** The timer's fields that the activity test reads or writes. */
  datatype Schedule = Schedule(
    timerState: TimerState,
    startTime: TimerTime,
    endTime: TimerTime,
    randomStartTime: TimerTime,
    randomEndTime: TimerTime,
    onMask: bv8,
    offMask: bv8,
    randomType: RandomType,
    offset: Uint8,
    currentDay: Uint8)

  /** The configured edges are within the day, as every mutator keeps them. */
  predicate Configured(s: Schedule)
  {
    InDayRange(s.startTime) && InDayRange(s.endTime)
  }

  function Max(a: int, b: int): int
  {
    if a < b then b else a
  }

  /** Arduino's `constrain`: the value nearest to `x` within `[lo, hi]`. */
  function Constrain(x: int, lo: int, hi: int): (r: int)
    requires lo <= hi
    ensures lo <= r <= hi
    ensures lo <= x <= hi ==> r == x
    ensures x < lo ==> r == lo
    ensures hi < x ==> r == hi
  {
    if x < lo then lo else if x > hi then hi else x
  }

  /** Minutes after midnight. */
  function MinuteOfDay(t: TimerTime): int
  {
    60 * t.hour + t.minute
  }

  /** Seconds after midnight of the edge at `t` on today's date; the edges
      always carry zero seconds. An hour of 24 lies past the end of today. */
  function EdgeSeconds(t: TimerTime): int
  {
    60 * MinuteOfDay(t)
  }

  /** A count of minutes in seconds is a whole number of minutes. */
  lemma WholeMinutes(m: int)
    ensures (60 * m) % 60 == 0
  {
  }

  /** Comparing edges as instants is comparing (hour, minute) lexicographically. */
  lemma EdgeOrderIsLexicographic(a: TimerTime, b: TimerTime)
    requires a.minute < 60 && b.minute < 60
    ensures EdgeSeconds(a) > EdgeSeconds(b) <==>
              a.hour > b.hour || (a.hour == b.hour && a.minute > b.minute)
    ensures EdgeSeconds(a) == EdgeSeconds(b) <==> a == b
  {
    if a.hour > b.hour {
      assert MinuteOfDay(a) >= 60 * b.hour + 60;
    } else if a.hour < b.hour {
      assert MinuteOfDay(b) >= 60 * a.hour + 60;
    }
  }

  /** One randomised edge: the base time moved later by the draw constrained
      to [1, 1439] minutes, then split back into hour and minute. */
  function Jittered(base: TimerTime, draw: int): (r: TimerTime)
    requires InDayRange(base)
    ensures MinuteOfDay(r) == MinuteOfDay(base) + Constrain(draw, 1, MinutesPerDay - 1)
    ensures r.minute < 60
  {
    var hrs := MinuteOfDay(base) + Constrain(draw, 1, MinutesPerDay - 1);
    TimerTime(hrs / 60, hrs % 60)
  }

  /** A randomised edge lies 1 to max(1, offset) minutes after its base (never
      earlier), and its hour is at most 24. */
  lemma JitterBounds(base: TimerTime, offset: int, draw: int)
    requires InDayRange(base) && 0 <= offset <= 59
    requires -offset <= draw <= offset
    ensures 1 <= MinuteOfDay(Jittered(base, draw)) - MinuteOfDay(base) <= Max(1, offset)
    ensures Jittered(base, draw).hour <= 24
    ensures EdgeSeconds(Jittered(base, draw)) > EdgeSeconds(base)
  {
    var r := Jittered(base, draw);
    assert MinuteOfDay(r) <= 1439 + 59;
  }

  /** The last minute of the day moved by the smallest jitter lands on hour 24. */
  lemma RandomizedHourReaches24()
    ensures Jittered(TimerTime(23, 59), 1) == TimerTime(24, 0)
  {
  }

  /** `s` and `r` agree on everything except the randomised edges and the day
      of the last refresh. */
  predicate SameConfiguration(s: Schedule, r: Schedule)
  {
    r.timerState == s.timerState && r.startTime == s.startTime && r.endTime == s.endTime
    && r.onMask == s.onMask && r.offMask == s.offMask
    && r.randomType == s.randomType && r.offset == s.offset
  }

  /** The once-a-day refresh at the head of the activity test: on a weekday
      other than the last one seen, a randomising policy draws new edges for
      the times it randomises and records the weekday. */
  function Refresh(s: Schedule, weekday: int, j: Jitter): (r: Schedule)
    requires Configured(s) && 1 <= weekday <= 7
    ensures SameConfiguration(s, r)
    ensures RandomTypeValue(s.randomType) == 0 || s.currentDay == weekday ==> r == s
    ensures RandomTypeValue(s.randomType) != 0 ==> r.currentDay == weekday
    ensures r.randomStartTime != s.randomStartTime ==> RandomizesStart(s.randomType)
    ensures r.randomEndTime != s.randomEndTime ==> RandomizesEnd(s.randomType)
  {
    if s.currentDay != weekday && RandomTypeValue(s.randomType) != 0 then
      s.(randomStartTime :=
           if RandomizesStart(s.randomType) then Jittered(s.startTime, j.start) else s.randomStartTime,
         randomEndTime :=
           if RandomizesEnd(s.randomType) then Jittered(s.endTime, j.end) else s.randomEndTime,
         currentDay := weekday)
    else
      s
  }

  /** A second refresh on the same weekday changes nothing, whatever it draws. */
  lemma RefreshOncePerDay(s: Schedule, weekday: int, j1: Jitter, j2: Jitter)
    requires Configured(s) && 1 <= weekday <= 7
    ensures Refresh(Refresh(s, weekday, j1), weekday, j2) == Refresh(s, weekday, j1)
  {
  }

  /** What a refresh that runs writes: each randomised edge lies 1 to
      max(1, offset) minutes after its configured time. */
  lemma RefreshedEdges(s: Schedule, weekday: int, j: Jitter)
    requires Configured(s) && 1 <= weekday <= 7 && s.offset <= 59
    requires JitterInRange(s.offset, j)
    requires s.currentDay != weekday && s.randomType != Fixed
    ensures var r := Refresh(s, weekday, j);
      && (RandomizesStart(s.randomType) ==>
            1 <= MinuteOfDay(r.randomStartTime) - MinuteOfDay(s.startTime) <= Max(1, s.offset)
            && r.randomStartTime.minute < 60)
      && (RandomizesEnd(s.randomType) ==>
            1 <= MinuteOfDay(r.randomEndTime) - MinuteOfDay(s.endTime) <= Max(1, s.offset)
            && r.randomEndTime.minute < 60)
  {
    JitterBounds(s.startTime, s.offset, j.start);
    JitterBounds(s.endTime, s.offset, j.end);
  }

  /** The start edge the test compares against: the randomised start under a
      policy that randomises it, the configured start otherwise; either way a
      whole minute after midnight. */
  function OnTime(s: Schedule): (on: int)
    ensures on % 60 == 0
    ensures RandomizesStart(s.randomType) ==> on == EdgeSeconds(s.randomStartTime)
    ensures !RandomizesStart(s.randomType) ==> on == EdgeSeconds(s.startTime)
  {
    var t := if RandomizesStart(s.randomType) then s.randomStartTime else s.startTime;
    WholeMinutes(MinuteOfDay(t));
    EdgeSeconds(t)
  }

  /** The end edge the test compares against: the randomised end under a
      policy that randomises it, the configured end otherwise; either way a
      whole minute after midnight. */
  function OffTime(s: Schedule): (off: int)
    ensures off % 60 == 0
    ensures RandomizesEnd(s.randomType) ==> off == EdgeSeconds(s.randomEndTime)
    ensures !RandomizesEnd(s.randomType) ==> off == EdgeSeconds(s.endTime)
  {
    var t := if RandomizesEnd(s.randomType) then s.randomEndTime else s.endTime;
    WholeMinutes(MinuteOfDay(t));
    EdgeSeconds(t)
  }

  /** On the first evaluation of a weekday the edges in force are the
      configured ones, or for a randomised edge 1 to max(1, offset) minutes
      after it. A randomised edge can pass midnight, up to 24:58, so it may
      never come today. */
  lemma EffectiveEdgesAfterRefresh(s: Schedule, weekday: int, j: Jitter)
    requires Configured(s) && 1 <= weekday <= 7 && s.offset <= 59
    requires JitterInRange(s.offset, j) && s.currentDay != weekday
    ensures var r := Refresh(s, weekday, j);
      && (!RandomizesStart(s.randomType) ==> OnTime(r) == EdgeSeconds(s.startTime))
      && (RandomizesStart(s.randomType) ==>
            60 <= OnTime(r) - EdgeSeconds(s.startTime) <= 60 * Max(1, s.offset))
      && (!RandomizesEnd(s.randomType) ==> OffTime(r) == EdgeSeconds(s.endTime))
      && (RandomizesEnd(s.randomType) ==>
            60 <= OffTime(r) - EdgeSeconds(s.endTime) <= 60 * Max(1, s.offset))
      && 0 <= OnTime(r) <= 89880 && 0 <= OffTime(r) <= 89880
  {
    if s.randomType != Fixed {
      RefreshedEdges(s, weekday, j);
    }
  }

  /** The weekday indicator: one bit per day, Sunday at bit 7 down to
      Saturday at bit 1, and on Sunday the helper bit 0 as well. */
  function TodayBits(weekday: int): (today: bv8)
    requires 1 <= weekday <= 7
    ensures today & 0xFE == DayTemplate[weekday - 1]
    ensures today & 1 == 1 <==> weekday == 1
  {
    var bit := (1 as bv8) << (8 - weekday);
    if bit & DayTemplate[DayIndex(Sundays)] != 0 then bit | 1 else bit
  }

  /** The test the source applies: the mask arms an edge on that weekday. */
  predicate Armed(mask: bv8, weekday: int)
    requires 1 <= weekday <= 7
  {
    TodayBits(weekday) & mask != 0
  }

  /** The mask holds that weekday's own bit (bits 7..1). */
  predicate OnDay(mask: bv8, weekday: int)
    requires 1 <= weekday <= 7
  {
    mask & DayTemplate[weekday - 1] != 0
  }

  /** The weekday before `weekday`, Saturday before Sunday. */
  function Prev(weekday: int): int
  {
    if weekday == 1 then 7 else weekday - 1
  }

  /** A mask arms a day by that day's bit, and Sunday also by the helper bit. */
  lemma ArmedByDayBit(mask: bv8, weekday: int)
    requires 1 <= weekday <= 7
    ensures Armed(mask, weekday) <==> OnDay(mask, weekday) || (weekday == 1 && mask & 1 == 1)
  {
  }

  /** Shifting a mask one bit down arms each end edge on the day after the
      start day; Saturday's bit lands on the helper bit, which Sunday tests. */
  lemma ShiftedMaskArmsNextDay(mask: bv8, weekday: int)
    requires 1 <= weekday <= 7
    ensures Armed(mask >> 1, weekday) <==> OnDay(mask, Prev(weekday))
  {
    if weekday == 1 {
      assert TodayBits(1) == 0x81;
    } else {
      assert TodayBits(weekday) == DayTemplate[weekday - 1];
      assert DayTemplate[weekday - 1] == DayTemplate[Prev(weekday) - 1] >> 1;
    }
  }

  /** The weekdays a preset names, 1 for Sunday to 7 for Saturday. */
  function PresetDays(d: EventDays): set<int>
  {
    match d
    case Sundays => {1}
    case Mondays => {2}
    case Tuesdays => {3}
    case Wednesdays => {4}
    case Thursdays => {5}
    case Fridays => {6}
    case Saturdays => {7}
    case Weekends => {1, 7}
    case Weekdays => {2, 3, 4, 5, 6}
    case EveryDay => {1, 2, 3, 4, 5, 6, 7}
  }

  /** A preset arms exactly the weekdays it names. */
  lemma PresetArmedDays(d: EventDays, weekday: int)
    requires 1 <= weekday <= 7
    ensures Armed(DayMask(d), weekday) <==> weekday in PresetDays(d)
  {
  }

  /** The decision once the edges for today are known: which of the two
      edges today arms, then the open-interval comparisons of the case table. */
  function Decide(today: bv8, onMask: bv8, offMask: bv8, on: int, off: int, now: int): (active: bool)
    ensures active ==> today & onMask != 0 || today & offMask != 0
    ensures active && today & offMask == 0 ==> now > on
    ensures active && today & onMask == 0 ==> now < off
  {
    var startArmed := today & onMask != 0;
    var endArmed := today & offMask != 0;
    if startArmed && endArmed then
      if on < off then on < now < off
      else if off < on then now > on || now < off
      else now == on
    else if startArmed then
      if on < off then on < now < off else now > on
    else if endArmed then
      now < off
    else
      false
  }

  /** Going forward round the clock from `on`, `now` comes strictly after `on`
      and strictly before `off`. */
  predicate InForwardArc(on: int, off: int, now: int)
  {
    0 < (now - on) % SecondsPerDay < (off - on) % SecondsPerDay
  }

  /** With both edges armed: for distinct edges within the day the timer is
      active exactly on the open arc from start to end, whether or not that
      arc crosses midnight. For any edges, distinct endpoints are never
      active, equal edges are active only at that instant, a start not yet
      reached with the end before it (a start randomised past midnight
      included) leaves only the morning before the end, and an end past
      midnight after the start leaves the rest of the day after the start. */
  lemma BothArmedIsForwardArc(today: bv8, onMask: bv8, offMask: bv8, on: int, off: int, now: int)
    requires today & onMask != 0 && today & offMask != 0
    ensures 0 <= on < SecondsPerDay && 0 <= off < SecondsPerDay && 0 <= now < SecondsPerDay && on != off ==>
              (Decide(today, onMask, offMask, on, off, now) <==> InForwardArc(on, off, now))
    ensures on != off && (now == on || now == off) ==> !Decide(today, onMask, offMask, on, off, now)
    ensures on == off ==> (Decide(today, onMask, offMask, on, off, now) <==> now == on)
    ensures off < on && now < on ==> (Decide(today, onMask, offMask, on, off, now) <==> now < off)
    ensures on < off && now < off ==> (Decide(today, onMask, offMask, on, off, now) <==> on < now)
  {
    var d := SecondsPerDay;
    if 0 <= on < d && 0 <= off < d && 0 <= now < d && on != off {
      if on < off {
        assert (off - on) % d == off - on;
      } else {
        assert (off - on) % d == off - on + d;
      }
      if now >= on {
        assert (now - on) % d == now - on;
      } else {
        assert (now - on) % d == now - on + d;
      }
    }
  }

  /** The one-edge days of the case table. With only the start armed the
      timer is active strictly between the edges when the start comes first,
      and after the start otherwise; with only the end armed it is active
      before the end; with neither armed it is inactive. */
  lemma OneEdgeArmed(today: bv8, onMask: bv8, offMask: bv8, on: int, off: int, now: int)
    ensures today & onMask != 0 && today & offMask == 0 ==>
              (Decide(today, onMask, offMask, on, off, now) <==>
                 if on < off then on < now < off else now > on)
    ensures today & onMask == 0 && today & offMask != 0 ==>
              (Decide(today, onMask, offMask, on, off, now) <==> now < off)
    ensures today & onMask == 0 && today & offMask == 0 ==>
              !Decide(today, onMask, offMask, on, off, now)
  {
  }

  /** A schedule that does not cross midnight (`offMask == onMask`,
      start not after end): active on an armed day strictly between the
      edges, or at the single instant when the edges coincide. */
  lemma SameDayWindow(mask: bv8, on: int, off: int, weekday: int, now: int)
    requires 1 <= weekday <= 7 && on <= off
    ensures Decide(TodayBits(weekday), mask, mask, on, off, now) <==>
              Armed(mask, weekday) && (on < now < off || (on == off && now == on))
  {
  }

  /** A schedule that crosses midnight (`offMask == onMask >> 1`, end before
      start): active after the start on each armed day, and before the end
      on the morning after each armed day, Sunday after Saturday included. */
  lemma BridgingWindow(mask: bv8, on: int, off: int, weekday: int, now: int)
    requires 1 <= weekday <= 7 && off < on
    ensures Decide(TodayBits(weekday), mask, mask >> 1, on, off, now) <==>
              (Armed(mask, weekday) && now > on) || (OnDay(mask, Prev(weekday)) && now < off)
  {
    ShiftedMaskArmsNextDay(mask, weekday);
  }

  /** The end-edge mask the day setters derive: shifted one day later
      exactly when the start lies later in the day than the end. It arms the
      end edge on each start day, or on the day after each start day when
      the window crosses midnight. */
  function OffMaskFor(onMask: bv8, start: TimerTime, end: TimerTime): (offMask: bv8)
    ensures forall w :: 1 <= w <= 7 ==>
              (Armed(offMask, w) <==>
                 if EdgeSeconds(start) > EdgeSeconds(end) then OnDay(onMask, Prev(w)) else Armed(onMask, w))
  {
    ShiftedMaskArmsEveryDay(onMask);
    if EdgeSeconds(start) > EdgeSeconds(end) then onMask >> 1 else onMask
  }

  /** `ShiftedMaskArmsNextDay` for all seven weekdays at once. */
  lemma ShiftedMaskArmsEveryDay(mask: bv8)
    ensures forall w :: 1 <= w <= 7 ==> (Armed(mask >> 1, w) <==> OnDay(mask, Prev(w)))
  {
    forall w | 1 <= w <= 7
      ensures Armed(mask >> 1, w) <==> OnDay(mask, Prev(w))
    {
      ShiftedMaskArmsNextDay(mask, w);
    }
  }

  /** (hour, minute) of `a` is lexicographically greater than that of `b`. */
  predicate LaterInDay(a: TimerTime, b: TimerTime)
  {
    a.hour > b.hour || (a.hour == b.hour && a.minute > b.minute)
  }

  /** The derived mask in terms of hours and minutes. */
  lemma OffMaskDerivation(onMask: bv8, start: TimerTime, end: TimerTime)
    requires InDayRange(start) && InDayRange(end)
    ensures LaterInDay(start, end) ==> OffMaskFor(onMask, start, end) == onMask >> 1
    ensures !LaterInDay(start, end) ==> OffMaskFor(onMask, start, end) == onMask
  {
    EdgeOrderIsLexicographic(start, end);
  }

  /** The whole activity test: a suspended timer is inactive and touches
      nothing; otherwise the refresh runs and the decision reads the
      refreshed edges. Returns the answer and the refreshed fields. */
  function Evaluate(s: Schedule, c: Clock, j: Jitter): (r: (bool, Schedule))
    requires Configured(s) && ValidClock(c)
    ensures s.timerState == TimerOff ==> r == (false, s)
    ensures s.timerState == TimerOn ==> r.1 == Refresh(s, c.weekday, j)
    ensures r.0 ==> Armed(s.onMask, c.weekday) || Armed(s.offMask, c.weekday)
  {
    if s.timerState == TimerOff then
      (false, s)
    else
      var s' := Refresh(s, c.weekday, j);
      (Decide(TodayBits(c.weekday), s'.onMask, s'.offMask, OnTime(s'), OffTime(s'), c.second), s')
  }

  /** Evaluating again at the same reading repeats the answer and leaves the
      fields as they are, whatever the second evaluation would draw. */
  lemma EvaluateIdempotent(s: Schedule, c: Clock, j1: Jitter, j2: Jitter)
    requires Configured(s) && ValidClock(c)
    ensures Configured(Evaluate(s, c, j1).1)
    ensures Evaluate(Evaluate(s, c, j1).1, c, j2) == Evaluate(s, c, j1)
  {
    if s.timerState == TimerOn {
      RefreshOncePerDay(s, c.weekday, j1, j2);
    }
  }

  /** The weekly behaviour of a fixed (non-randomised) running timer whose
      end mask was derived by the day setters. */
  lemma FixedScheduleWindow(s: Schedule, c: Clock, j: Jitter)
    requires Configured(s) && ValidClock(c)
    requires s.randomType == Fixed && s.timerState == TimerOn
    requires s.offMask == OffMaskFor(s.onMask, s.startTime, s.endTime)
    ensures var on, off, now, w := EdgeSeconds(s.startTime), EdgeSeconds(s.endTime), c.second, c.weekday;
      Evaluate(s, c, j).0 <==>
        if on < off then Armed(s.onMask, w) && on < now < off
        else if on == off then Armed(s.onMask, w) && now == on
        else (Armed(s.onMask, w) && now > on) || (OnDay(s.onMask, Prev(w)) && now < off)
  {
    var on, off := EdgeSeconds(s.startTime), EdgeSeconds(s.endTime);
    if on <= off {
      SameDayWindow(s.onMask, on, off, c.weekday, c.second);
    } else {
      BridgingWindow(s.onMask, on, off, c.weekday, c.second);
    }
  }

  /** A fixed running schedule with its derived end mask. */
  function FixedSchedule(start: TimerTime, end: TimerTime, days: EventDays): (s: Schedule)
    requires InDayRange(start) && InDayRange(end)
    ensures Configured(s) && s.randomType == Fixed && s.timerState == TimerOn
    ensures s.onMask == DayMask(days) && s.offMask == OffMaskFor(s.onMask, start, end)
  {
    Schedule(TimerOn, start, end, TimerTime(0, 0), TimerTime(0, 0),
             DayMask(days), OffMaskFor(DayMask(days), start, end), Fixed, 15, 0)
  }

  /** 18:00 to 23:00 on weekdays: active Tuesday 20:00, not at 23:00 sharp,
      not on Saturday at 20:00, and not at 18:00 sharp (the first active
      second is 18:00:01). */
  lemma WeekdayEveningScenario(j: Jitter)
    ensures var s := FixedSchedule(TimerTime(18, 0), TimerTime(23, 0), Weekdays);
      && Evaluate(s, Clock(3, 20 * 3600), j).0
      && !Evaluate(s, Clock(3, 23 * 3600), j).0
      && !Evaluate(s, Clock(7, 20 * 3600), j).0
      && !Evaluate(s, Clock(3, 18 * 3600), j).0
      && Evaluate(s, Clock(3, 18 * 3600 + 1), j).0
  {
    var s := FixedSchedule(TimerTime(18, 0), TimerTime(23, 0), Weekdays);
    FixedScheduleWindow(s, Clock(3, 20 * 3600), j);
    FixedScheduleWindow(s, Clock(3, 23 * 3600), j);
    FixedScheduleWindow(s, Clock(7, 20 * 3600), j);
    FixedScheduleWindow(s, Clock(3, 18 * 3600), j);
    FixedScheduleWindow(s, Clock(3, 18 * 3600 + 1), j);
  }

  /** 22:00 to 06:00 every day: active at 23:30 and at 05:30, through
      midnight, and not at noon. */
  lemma OvernightScenario(j: Jitter, w: int)
    requires 1 <= w <= 7
    ensures var s := FixedSchedule(TimerTime(22, 0), TimerTime(6, 0), EveryDay);
      && Evaluate(s, Clock(w, 23 * 3600 + 1800), j).0
      && Evaluate(s, Clock(w, 5 * 3600 + 1800), j).0
      && Evaluate(s, Clock(w, SecondsPerDay - 1), j).0
      && Evaluate(s, Clock(w, 0), j).0
      && !Evaluate(s, Clock(w, 12 * 3600), j).0
  {
    var s := FixedSchedule(TimerTime(22, 0), TimerTime(6, 0), EveryDay);
    PresetArmedDays(EveryDay, w);
    PresetArmedDays(EveryDay, Prev(w));
    ArmedByDayBit(s.onMask, Prev(w));
    FixedScheduleWindow(s, Clock(w, 23 * 3600 + 1800), j);
    FixedScheduleWindow(s, Clock(w, 5 * 3600 + 1800), j);
    FixedScheduleWindow(s, Clock(w, SecondsPerDay - 1), j);
    FixedScheduleWindow(s, Clock(w, 0), j);
    FixedScheduleWindow(s, Clock(w, 12 * 3600), j);
  }

  /** Randomising can put the start after the end while the masks still say
      the window does not cross midnight: 22:00 to 22:05 on weekdays, drawn
      10 and 1 minutes, is then active on Tuesday morning at 10:00. */
  lemma RandomizedOrderInversion()
    ensures var s := Schedule(TimerOn, TimerTime(22, 0), TimerTime(22, 5), TimerTime(0, 0), TimerTime(0, 0),
                              DayMask(Weekdays), DayMask(Weekdays), Random, 15, 0);
      && s.offMask == OffMaskFor(s.onMask, s.startTime, s.endTime)
      && Evaluate(s, Clock(3, 10 * 3600), Jitter(10, 1)).0
  {
  }

  /** Replacing the start mask without re-deriving the end mask: 22:00 to
      06:00 on weekends (end mask `0x41`), moved to Mondays only. Saturday
      night's end edge still ends a window on Sunday morning, while Monday
      night's window stops at midnight, where the derived end mask `0x20`
      would keep it open until Tuesday 06:00. */
  lemma StaleEndMaskScenario(j: Jitter)
    ensures var before := FixedSchedule(TimerTime(22, 0), TimerTime(6, 0), Weekends);
            var after := before.(onMask := DayMask(Mondays));
      && before.offMask == 0x41
      && Evaluate(after, Clock(1, 3 * 3600), j).0
      && !Evaluate(after, Clock(3, 3 * 3600), j).0
      && Evaluate(after.(offMask := OffMaskFor(after.onMask, after.startTime, after.endTime)),
                  Clock(3, 3 * 3600), j).0
  {
  }

  /** The end mask follows the configured order, the effective edges the
      randomised one: Mondays 22:00 to 21:50 crosses midnight, so the end is
      armed on Tuesday only; under RANDOM_END the end drawn 15 minutes later
      is 22:05, and on Monday only the start is armed, so the window shuts at
      22:05 on Monday instead of running through the night. */
  lemma RandomizedEndShutsEarly()
    ensures var s := Schedule(TimerOn, TimerTime(22, 0), TimerTime(21, 50), TimerTime(0, 0), TimerTime(0, 0),
                              DayMask(Mondays), OffMaskFor(DayMask(Mondays), TimerTime(22, 0), TimerTime(21, 50)),
                              RandomEnd, 15, 0);
      && s.offMask == 0x20
      && Evaluate(s, Clock(2, 22 * 3600 + 120), Jitter(0, 15)).0
      && !Evaluate(s, Clock(2, 23 * 3600), Jitter(0, 15)).0
  {
  }

  /** A new configured start does not move an edge already randomised today:
      18:00 to 23:00 on weekdays under RANDOM_START, refreshed on Tuesday with
      the start drawn to 18:10, then moved to 20:00 (the end mask re-derived).
      Tuesday 19:00 is still active; from Wednesday's refresh on, the start
      lies after 20:00 and 19:00 is inactive. */
  lemma StaleRandomStartScenario(j: Jitter)
    requires JitterInRange(15, j)
    ensures var s0 := Schedule(TimerOn, TimerTime(18, 0), TimerTime(23, 0), TimerTime(0, 0), TimerTime(0, 0),
                               DayMask(Weekdays), DayMask(Weekdays), RandomStart, 15, 0);
            var s1 := Evaluate(s0, Clock(3, 8 * 3600), Jitter(10, 0)).1;
            var s2 := s1.(startTime := TimerTime(20, 0),
                          offMask := OffMaskFor(s1.onMask, TimerTime(20, 0), s1.endTime));
      && s1.randomStartTime == TimerTime(18, 10)
      && s2.offMask == s2.onMask
      && Evaluate(s2, Clock(3, 19 * 3600), j).0
      && !Evaluate(s2, Clock(4, 19 * 3600), j).0
  {
    var s0 := Schedule(TimerOn, TimerTime(18, 0), TimerTime(23, 0), TimerTime(0, 0), TimerTime(0, 0),
                       DayMask(Weekdays), DayMask(Weekdays), RandomStart, 15, 0);
    var s1 := Evaluate(s0, Clock(3, 8 * 3600), Jitter(10, 0)).1;
    var s2 := s1.(startTime := TimerTime(20, 0),
                  offMask := OffMaskFor(s1.onMask, TimerTime(20, 0), s1.endTime));
    EffectiveEdgesAfterRefresh(s2, 4, j);
  }
}
