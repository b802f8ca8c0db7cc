/** The instance table and the periodic `update` that walks it. The table is
    an explicit object here; registration is what each constructor does. */
module TimerRegistry {
  import opened TimerDefs
  import opened Evaluator
  import opened Callbacks
  import opened Timer

  class Registry {
    /** The registered timers, in registration order. */
    var timers: seq<DailyTimer>

    /** At most `MaxTimerInstances` timers, each registered once, each valid. */
    ghost predicate Valid()
      reads this, timers
    {
      && |timers| <= MaxTimerInstances
      && (forall i, k :: 0 <= i < k < |timers| ==> timers[i] != timers[k])
      && (forall i :: 0 <= i < |timers| ==> timers[i].Valid())
    }

    constructor ()
      ensures Valid() && timers == []
    {
      timers := [];
    }

    /** Append a newly constructed timer; the table has room for it. */
    method Register(t: DailyTimer)
      requires Valid() && t.Valid() && t !in timers && |timers| < MaxTimerInstances
      modifies this
      ensures Valid()
      ensures timers == old(timers) + [t]
    {
      timers := timers + [t];
    }

    /** One tick: every registered timer, in order, re-evaluates with its own
        draws, stores the answer, and fires a present callback only when its
        answer changed. */
    method Update(clock: Clock, jitters: seq<Jitter>)
      requires Valid() && ValidClock(clock) && |jitters| == |timers|
      requires forall i :: 0 <= i < |timers| ==> JitterInRange(timers[i].offset, jitters[i])
      modifies timers
      ensures Valid()
      ensures forall i :: 0 <= i < |timers| ==>
        && (timers[i].state, timers[i].View()) == Evaluate(old(timers[i].View()), clock, jitters[i])
        && timers[i].fired == old(timers[i].fired) +
             UpdateEvents(old(timers[i].state), timers[i].state,
                          timers[i].hasStartCallback, timers[i].hasEndCallback)
    {
      for i := 0 to |timers|
        invariant Valid()
        invariant forall k :: 0 <= k < i ==>
          && (timers[k].state, timers[k].View()) == Evaluate(old(timers[k].View()), clock, jitters[k])
          && timers[k].fired == old(timers[k].fired) +
               UpdateEvents(old(timers[k].state), timers[k].state,
                            timers[k].hasStartCallback, timers[k].hasEndCallback)
        invariant forall k :: i <= k < |timers| ==>
          && timers[k].View() == old(timers[k].View())
          && timers[k].state == old(timers[k].state)
          && timers[k].fired == old(timers[k].fired)
      {
        timers[i].Tick(clock, jitters[i]);
      }
    }
  }
}
