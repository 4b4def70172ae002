/** The counting semaphore that bounds the chunks between dispatch and the sink (pipeline.rs). Each method
    is what one thread does while it holds the lock. */
module InflightCap {
  import opened Lz77
  import M = Machine

  const INFLIGHT_FLOOR: nat := 16

  /** How many chunks may be out, for a configured factor per worker; `None` when the cap is disabled. */
  function MaxFor(threads: nat, factor: Option<nat>): (r: Option<nat>)
    ensures r.Some? <==> factor.Some?
    ensures r.Some? ==> r.value >= 16 && r.value >= threads * factor.value
    ensures r.Some? ==> r.value == 16 || r.value == threads * factor.value
  {
    match factor
    case None => None
    case Some(f) => if threads * f > INFLIGHT_FLOOR then Some(threads * f) else Some(INFLIGHT_FLOOR)
  }

  datatype Turn = Claimed | ShutDown | Wait

  class Cap {
    var inFlight: nat
    const max: nat
    var shutdown: bool
    ghost var acquired: nat
    ghost var released: nat

    /** Slots claimed and not yet freed are the count, which never exceeds the limit. */
    ghost predicate Valid()
      reads this
    {
      max > 0 && released <= acquired && inFlight == acquired - released <= max
    }

    /** The counters are those of the machine's state. */
    ghost predicate Counts(c: M.Config, s: M.State)
      reads this
    {
      && max == c.max && inFlight == s.inFlight && shutdown == s.shutdown
      && acquired == s.acquired && released == s.released
    }

    constructor (max: nat)
      ensures Valid() && inFlight == 0 && !shutdown && this.max == if max > 0 then max else 1
    {
      inFlight, shutdown, acquired, released := 0, false, 0, 0;
      this.max := if max > 0 then max else 1;
    }

    /** One look of a dispatcher: a slot, the news of a shut-down, or another wait for the condition. For a
        dispatcher with work left these are the machine's steps, and a wait is the lack of one. */
    method TryAcquire(ghost c: M.Config, ghost s: M.State) returns (turn: Turn)
      requires Valid() && Counts(c, s)
      modifies this
      ensures s.dispatcher.Idle? && s.next < c.n ==>
        && (turn == Claimed <==> M.CanDispatch(c, s, M.Acquire))
        && (turn == ShutDown <==> M.CanDispatch(c, s, M.Refused))
      ensures Counts(c, if turn == Claimed then M.Dispatched(s, M.Acquire) else s)
      ensures Valid() && shutdown == old(shutdown) && released == old(released)
      ensures turn == if old(shutdown) then ShutDown else if old(inFlight) < max then Claimed else Wait
      ensures inFlight == old(inFlight) + (if turn == Claimed then 1 else 0)
      ensures acquired == old(acquired) + (if turn == Claimed then 1 else 0)
    {
      if shutdown {
        return ShutDown;
      }
      if inFlight < max {
        inFlight := inFlight + 1;
        acquired := acquired + 1;
        return Claimed;
      }
      turn := Wait;
    }

    /** A slot comes back, and whoever looks next can have it; with none out this changes nothing. While the
        output has a chunk in hand there is one out, so the machine's account is kept. */
    method Release(ghost c: M.Config, ghost s: M.State)
      requires Valid() && Counts(c, s)
      modifies this
      ensures s.inFlight > 0 ==> Counts(c, M.Release(s))
      ensures Valid() && shutdown == old(shutdown) && acquired == old(acquired) && inFlight < max
      ensures inFlight == if old(inFlight) > 0 then old(inFlight) - 1 else 0
    {
      if inFlight > 0 {
        inFlight := inFlight - 1;
        released := released + 1;
      }
    }

    method Shutdown(ghost c: M.Config, ghost s: M.State)
      requires Valid() && Counts(c, s)
      modifies this
      ensures Counts(c, s.(shutdown := true))
      ensures Valid() && shutdown && inFlight == old(inFlight)
      ensures acquired == old(acquired) && released == old(released)
    {
      shutdown := true;
    }
  }

  /** A chunk in the output's hands holds a slot. */
  lemma ChunkHoldsSlot(c: M.Config, s: M.State)
    requires M.Accounts(c, s) && M.Conserved(s) && s.ending.None? && s.nextB in s.reorderB
    ensures s.inFlight > 0
  {
    M.InHand(s);
  }
}
