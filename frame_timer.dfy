/** `FrameTimer`: a 200-slot ring buffer of frame start times and of the
    time between consecutive frames. */
module Timing {
  import opened Common

  const SLOTS: nat := 200

  class FrameTimer {
    var ptr: int
    var filled: int
    var frameTimes: array<real>
    var deltaTimes: array<real>
    /** How many times `update` has run. */
    ghost var updates: nat

    /** The ring position and the fill count are fixed by the number of
        updates so far. */
    ghost predicate Valid()
      reads this
    {
      && frameTimes.Length == SLOTS && deltaTimes.Length == SLOTS
      && frameTimes != deltaTimes
      && ptr == updates % SLOTS
      && filled == Min(updates, SLOTS)
    }

    constructor ()
      ensures Valid() && updates == 0 && ptr == 0 && filled == 0
      ensures fresh(frameTimes) && fresh(deltaTimes)
      ensures forall i :: 0 <= i < SLOTS ==> frameTimes[i] == 0.0 && deltaTimes[i] == 0.0
    {
      ptr, filled := 0, 0;
      frameTimes := new real[SLOTS](_ => 0.0);
      deltaTimes := new real[SLOTS](_ => 0.0);
      updates := 0;
    }

    /** `update`, with `Input::time` passed in as `now`: the ring advances one
        slot, the new slot records `now`, and once at least two times are
        recorded the old slot's delta is set. No other slot changes. */
    method Update(now: real)
      requires Valid()
      modifies this, frameTimes, deltaTimes
      ensures Valid() && updates == old(updates) + 1
      ensures frameTimes == old(frameTimes) && deltaTimes == old(deltaTimes)
      ensures ptr == (old(ptr) + 1) % SLOTS && 0 <= ptr < SLOTS
      ensures filled == Min(old(filled) + 1, SLOTS)
      ensures frameTimes[ptr] == now
      ensures forall i :: 0 <= i < SLOTS && i != ptr ==> frameTimes[i] == old(frameTimes[i])
      ensures old(filled) > 1 ==> deltaTimes[old(ptr)] == now - old(frameTimes[ptr])
      ensures forall i :: 0 <= i < SLOTS && (i != old(ptr) || old(filled) <= 1) ==>
        deltaTimes[i] == old(deltaTimes[i])
      ensures old(updates) < 2 ==> deltaTimes[..] == old(deltaTimes[..])
    {
      var lastIndex := ptr;
      var lastTime := frameTimes[ptr];
      ptr := (ptr + 1) % SLOTS;
      frameTimes[ptr] := now;
      if filled > 1 {
        deltaTimes[lastIndex] := frameTimes[ptr] - lastTime;
      }
      filled := Min(filled + 1, SLOTS);
      updates := updates + 1;
    }
  }
}
