/** The callbacks a timer invokes, recorded as events: which one `sync` fires,
    which one a periodic `update` fires, and what a run of updates fires. */
module Callbacks {

  /** An invocation of the start callback or of the end callback. */
  datatype Event = StartFired | EndFired

  /** `sync`: with auto-sync set, the callback that matches the fresh answer
      fires on every call, if it is present; without auto-sync none fires. */
  function SyncEvents(active: bool, autoSync: bool, hasStart: bool, hasEnd: bool): (r: seq<Event>)
    ensures |r| <= 1
    ensures r == [StartFired] <==> autoSync && active && hasStart
    ensures r == [EndFired] <==> autoSync && !active && hasEnd
  {
    if active && autoSync then
      (if hasStart then [StartFired] else [])
    else if !active && autoSync then
      (if hasEnd then [EndFired] else [])
    else
      []
  }

  /** One instance's share of `update`: a present callback fires only when
      the fresh answer differs from the stored one, start on a rise and end
      on a fall. */
  function UpdateEvents(last: bool, now: bool, hasStart: bool, hasEnd: bool): (r: seq<Event>)
    ensures |r| <= 1
    ensures last == now ==> r == []
    ensures r == [StartFired] <==> !last && now && hasStart
    ensures r == [EndFired] <==> last && !now && hasEnd
  {
    if last != now then
      if now then (if hasStart then [StartFired] else [])
      else (if hasEnd then [EndFired] else [])
    else
      []
  }

  /** The stored state after a run of updates whose answers were `states`. */
  function LastState(init: bool, states: seq<bool>): bool
  {
    if states == [] then init else states[|states| - 1]
  }

  /** What a run of updates fires, starting from stored state `init`, when
      the successive answers are `states`. */
  function UpdateTrace(init: bool, states: seq<bool>, hasStart: bool, hasEnd: bool): seq<Event>
  {
    if states == [] then
      []
    else
      var before := states[..|states| - 1];
      UpdateTrace(init, before, hasStart, hasEnd)
        + UpdateEvents(LastState(init, before), states[|states| - 1], hasStart, hasEnd)
  }

  /** How many answers in the run differ from the stored state before them. */
  function Changes(init: bool, states: seq<bool>): nat
  {
    if states == [] then
      0
    else
      var before := states[..|states| - 1];
      Changes(init, before) + (if LastState(init, before) != states[|states| - 1] then 1 else 0)
  }

  /** With both callbacks present, a run of updates fires exactly one callback
      per change of state: start and end strictly alternate, the first leaves
      the initial state, the last matches the final state, and a run that
      fires nothing ends where it began. */
  lemma {:induction false} UpdateTraceFollowsEdges(init: bool, states: seq<bool>)
    ensures var t := UpdateTrace(init, states, true, true);
      && |t| == Changes(init, states)
      && (forall k :: 0 <= k < |t| - 1 ==> t[k] != t[k + 1])
      && (|t| > 0 ==> t[0] == (if init then EndFired else StartFired))
      && (|t| > 0 ==> t[|t| - 1] == (if LastState(init, states) then StartFired else EndFired))
      && (|t| == 0 ==> LastState(init, states) == init)
  {
    if states != [] {
      var before := states[..|states| - 1];
      UpdateTraceFollowsEdges(init, before);
      var t0 := UpdateTrace(init, before, true, true);
      var e := UpdateEvents(LastState(init, before), states[|states| - 1], true, true);
      var t := t0 + e;
      assert UpdateTrace(init, states, true, true) == t;
      if |e| == 1 && |t0| > 0 {
        assert t[|t0| - 1] == t0[|t0| - 1];
        assert t[|t0|] == e[0];
      }
    }
  }

  /** A run of updates whose answers never change fires nothing, whichever
      callbacks are present. */
  lemma {:induction false} SteadyRunFiresNothing(init: bool, states: seq<bool>, hasStart: bool, hasEnd: bool)
    requires forall k :: 0 <= k < |states| ==> states[k] == init
    ensures UpdateTrace(init, states, hasStart, hasEnd) == []
  {
    if states != [] {
      var before := states[..|states| - 1];
      SteadyRunFiresNothing(init, before, hasStart, hasEnd);
    }
  }
}
