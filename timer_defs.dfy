/** Constants and enumerations declared by the DailyTimer header: the weekday
    mask presets, the randomisation policies, the timer state and the bounded
    time of day. */
module TimerDefs {

  /** An unsigned 8-bit value (`byte` / `uint8_t`). */
  type Uint8 = x: int | 0 <= x < 256

  /** Capacity of the process-wide instance table (`MAX_TIMER_INSTANCES`). */
  const MaxTimerInstances: nat := 10

  /** The day presets, in the order of the `EventDays` enumeration. */
  datatype EventDays =
    | Sundays | Mondays | Tuesdays | Wednesdays | Thursdays | Fridays | Saturdays
    | Weekends | Weekdays | EveryDay

  /** The enumerator's numeric value (`SUNDAYS = 0`, then consecutive). */
  function DayIndex(d: EventDays): nat
  {
    match d
    case Sundays => 0
    case Mondays => 1
    case Tuesdays => 2
    case Wednesdays => 3
    case Thursdays => 4
    case Fridays => 5
    case Saturdays => 6
    case Weekends => 7
    case Weekdays => 8
    case EveryDay => 9
  }

  /** `dayTemplate`: bit 7 is Sunday down to bit 1 for Saturday; bit 0 is the
      helper bit that marks an end edge falling on the Sunday after a Saturday. */
  const DayTemplate: seq<bv8> := [
    0x80, 0x40, 0x20, 0x10, 0x08, 0x04, 0x02,
    0x82,  // weekends
    0x7C,  // weekdays
    0xFE   // every day
  ]

  /** The mask a preset stands for. No preset arms a day by the helper bit. */
  function DayMask(d: EventDays): (m: bv8)
    ensures m & 1 == 0 && m != 0
  {
    DayTemplate[DayIndex(d)]
  }

  /** True for the seven presets that name one weekday each. */
  predicate IsSingleDay(d: EventDays)
  {
    DayIndex(d) < 7
  }

  /** The single-day presets are one bit each, Sunday at bit 7 down to
      Saturday at bit 1, in enumeration order. */
  lemma SingleDayPresetBits(d: EventDays)
    requires IsSingleDay(d)
    ensures DayMask(d) == (0x80 as bv8) >> DayIndex(d)
  {
  }

  /** The three composite presets are the unions of their single days. */
  lemma CompositePresets()
    ensures DayMask(Weekends) == DayMask(Sundays) | DayMask(Saturdays)
    ensures DayMask(Weekdays) ==
      DayMask(Mondays) | DayMask(Tuesdays) | DayMask(Wednesdays) | DayMask(Thursdays) | DayMask(Fridays)
    ensures DayMask(EveryDay) == DayMask(Sundays) | DayMask(Weekdays) | DayMask(Saturdays)
  {
  }

  /** Randomisation policy (`RandomType`). */
  datatype RandomType = Fixed | Random | RandomStart | RandomEnd

  /** The enumerator's numeric value; the source tests it for truth, so a
      policy randomises exactly when this is non-zero. */
  function RandomTypeValue(t: RandomType): (v: nat)
    ensures v < 4
    ensures v == 0 <==> t == Fixed
  {
    match t
    case Fixed => 0
    case Random => 1
    case RandomStart => 2
    case RandomEnd => 3
  }

  /** The policy rewrites the start time each day. */
  predicate RandomizesStart(t: RandomType)
  {
    t == Random || t == RandomStart
  }

  /** The policy rewrites the end time each day. */
  predicate RandomizesEnd(t: RandomType)
  {
    t == Random || t == RandomEnd
  }

  /** `TIMER_OFF` suspends the schedule (manual override); `TIMER_ON` runs it. */
  datatype TimerState = TimerOff | TimerOn

  /** A time of day as two unsigned bytes. */
  datatype TimerTime = TimerTime(hour: Uint8, minute: Uint8)

  /** The bound the configured times keep: 00:00 to 23:59. */
  predicate InDayRange(t: TimerTime)
  {
    t.hour <= 23 && t.minute <= 59
  }

  /** Saturate a byte at `hi`: values above the bound become the bound. */
  function Saturate(x: Uint8, hi: Uint8): (r: Uint8)
    ensures r <= hi && r <= x
    ensures r == x || r == hi
  {
    if x > hi then hi else x
  }

  /** The clamping every constructor and time setter applies: an
      out-of-range hour or minute is replaced by its largest valid value. */
  function ClampTime(hour: Uint8, minute: Uint8): (t: TimerTime)
    ensures InDayRange(t)
    ensures hour <= 23 ==> t.hour == hour
    ensures minute <= 59 ==> t.minute == minute
    ensures hour > 23 ==> t.hour == 23
    ensures minute > 59 ==> t.minute == 59
  {
    TimerTime(Saturate(hour, 23), Saturate(minute, 59))
  }
}
