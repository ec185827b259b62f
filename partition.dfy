/**
 * The two threads together: the fields of the shared record that a device
 * iteration and a simulator sync may write never overlap while both see the
 * same A/T flag.
 */
module Partition {
  import opened SharedState
  import opened DeviceControl
  import opened ThrottleControl

  /**
   * Starting from the same record, with the simulator's copy of the A/T flag
   * equal to the one in the record, a device iteration and a sync never
   * change the same field.
   */
  lemma ThreadsWriteDisjointFields(s: Shared, released: bool, t: Tick, tc: Tqd)
    requires ValidShared(s) && ValidTick(t) && ValidTqd(tc)
    requires tc.isAtEngaged == s.isAtEngaged
    ensures forall f :: !(Differs(s, Step(s, released, t).shared, f) && Differs(s, SyncSpec(tc, s).shared, f))
  {
    StepKeepsOwnership(s, released, t);
    SyncKeepsOwnership(tc, s);
    NoFieldWrittenByBoth(s, Step(s, released, t).shared, SyncSpec(tc, s).shared, s.isAtEngaged);
  }

  /**
   * The partition rests on that shared view of the flag: in the sync that
   * publishes a newly engaged A/T, the simulator writes the throttle levels,
   * while a device iteration that read the flag just before still publishes
   * the polled levels into the same fields.
   */
  lemma EngagingHandOverOverlaps(s: Shared, t: Tick, tc: Tqd)
    requires ValidShared(s) && ValidTick(t) && ValidTqd(tc)
    requires !s.isAtEngaged && tc.isAtEngaged && t.poll.Some?
    requires ToPercent(t.poll.value.levers[1]) != s.throttleLevel[ThrottleLeft]
    requires tc.throttleLevel[ThrottleLeft] != s.throttleLevel[ThrottleLeft]
    ensures Differs(s, Step(s, true, t).shared, ThrottleLevel(ThrottleLeft))
    ensures Differs(s, SyncSpec(tc, s).shared, ThrottleLevel(ThrottleLeft))
  {
  }
}
