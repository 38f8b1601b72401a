/** Edges to frames: the capture buffer shared by the interrupt handler and the main loop. Times are microseconds. */
module WiegandCapture {
  import opened Wrappers

  const MAX_BITS: nat := 34
  const MESSAGE_GAP: nat := 25_000

  /** What the two critical sections see. */
  datatype Capture = Capture(bits: seq<bool>, lastEdge: Option<nat>)

  const EMPTY: Capture := Capture([], None)

  /** One falling edge, or one poll of the main loop. */
  datatype Event = Pulse(bit: bool, at: nat) | Poll(at: nat)

  function PushBit(c: Capture, bit: bool, now: nat): Capture {
    Capture((if |c.bits| == MAX_BITS then c.bits[1..] else c.bits) + [bit], Some(now))
  }

  /** Whether a poll at `now` finds a finished frame. */
  predicate Completed(c: Capture, now: nat) {
    c.lastEdge.Some? && c.bits != [] && now - c.lastEdge.value >= MESSAGE_GAP
  }

  function StepCapture(c: Capture, e: Event): Capture {
    match e
    case Pulse(bit, at) => PushBit(c, bit, at)
    case Poll(at) => if Completed(c, at) then EMPTY else c
  }

  /** The frame an event hands to the main loop, as a sequence of at most one. */
  function Taken(c: Capture, e: Event): seq<seq<bool>> {
    if e.Poll? && Completed(c, e.at) then [c.bits] else []
  }

  function After(events: seq<Event>): Capture {
    if events == [] then EMPTY else StepCapture(After(events[..|events| - 1]), events[|events| - 1])
  }

  function TakenAtLast(events: seq<Event>): seq<seq<bool>>
    requires events != []
  {
    Taken(After(events[..|events| - 1]), events[|events| - 1])
  }

  function Frames(events: seq<Event>): seq<seq<bool>> {
    if events == [] then [] else Frames(events[..|events| - 1]) + TakenAtLast(events)
  }

  // ---------------------------------------------------------------- conservation

  function BitOf(e: Event): seq<bool> {
    if e.Pulse? then [e.bit] else []
  }

  /** All bits that arrived, in order. */
  function PushedBits(events: seq<Event>): seq<bool> {
    if events == [] then [] else PushedBits(events[..|events| - 1]) + BitOf(events[|events| - 1])
  }

  /** The same protocol over a buffer without bound: finished stretches, and the one still open. */
  datatype Stretches = Stretches(closed: seq<seq<bool>>, open: seq<bool>, lastEdge: nat)

  function StretchStep(s: Stretches, e: Event): Stretches {
    match e
    case Pulse(bit, at) => Stretches(s.closed, s.open + [bit], at)
    case Poll(at) =>
      if s.open != [] && at - s.lastEdge >= MESSAGE_GAP then Stretches(s.closed + [s.open], [], s.lastEdge) else s
  }

  function Unbounded(events: seq<Event>): Stretches {
    if events == [] then Stretches([], [], 0) else StretchStep(Unbounded(events[..|events| - 1]), events[|events| - 1])
  }

  /** What survives of a stretch in the bounded buffer: its newest bits. */
  function Newest(bits: seq<bool>): seq<bool> {
    if |bits| <= MAX_BITS then bits else bits[|bits| - MAX_BITS..]
  }

  function NewestOfEach(stretches: seq<seq<bool>>): seq<seq<bool>> {
    seq(|stretches|, i requires 0 <= i < |stretches| => Newest(stretches[i]))
  }

  function Flatten(xs: seq<seq<bool>>): seq<bool> {
    if xs == [] then [] else Flatten(xs[..|xs| - 1]) + xs[|xs| - 1]
  }

  lemma FlattenAppend(xs: seq<seq<bool>>, x: seq<bool>)
    ensures Flatten(xs + [x]) == Flatten(xs) + x
  {
    assert (xs + [x])[..|xs|] == xs;
  }

  lemma NewestAppend(bits: seq<bool>, bit: bool)
    ensures Newest(bits + [bit]) == (if |Newest(bits)| == MAX_BITS then Newest(bits)[1..] else Newest(bits)) + [bit]
  {}

  lemma NewestOfEachAppend(xs: seq<seq<bool>>, x: seq<bool>)
    ensures NewestOfEach(xs + [x]) == NewestOfEach(xs) + [Newest(x)]
  {}

  lemma StretchStepKeepsBits(s: Stretches, e: Event)
    ensures Flatten(StretchStep(s, e).closed) + StretchStep(s, e).open == Flatten(s.closed) + s.open + BitOf(e)
  {
    FlattenAppend(s.closed, s.open);
  }

  /** For any interleaving and any timing, the stretches partition the pushed bits. */
  lemma {:induction false} StretchesPartition(events: seq<Event>)
    ensures Flatten(Unbounded(events).closed) + Unbounded(events).open == PushedBits(events)
  {
    if events != [] {
      StretchesPartition(events[..|events| - 1]);
      StretchStepKeepsBits(Unbounded(events[..|events| - 1]), events[|events| - 1]);
    }
  }

  /** A frame is never made of nothing. */
  lemma {:induction false} StretchesNonEmpty(events: seq<Event>)
    ensures forall i :: 0 <= i < |Unbounded(events).closed| ==> Unbounded(events).closed[i] != []
  {
    if events != [] {
      StretchesNonEmpty(events[..|events| - 1]);
    }
  }

  /**
   * The bounded buffer drops oldest bits only: each stretch comes out as one frame made of its
   * newest 34 bits, and the time stamp is set iff bits are buffered.
   */
  lemma {:induction false} Conservation(events: seq<Event>)
    ensures Frames(events) == NewestOfEach(Unbounded(events).closed)
    ensures After(events).bits == Newest(Unbounded(events).open)
    ensures After(events).lastEdge == if Unbounded(events).open == [] then None else Some(Unbounded(events).lastEdge)
  {
    if events != [] {
      var init, last := events[..|events| - 1], events[|events| - 1];
      Conservation(init);
      var s := Unbounded(init);
      if last.Pulse? {
        NewestAppend(s.open, last.bit);
      } else {
        NewestOfEachAppend(s.closed, s.open);
      }
    }
  }

  // ---------------------------------------------------------------- the object

  class CaptureState {
    var bits: seq<bool>
    var lastEdge: Option<nat>
    ghost var events: seq<Event>

    ghost predicate Valid()
      reads this
    {
      Capture(bits, lastEdge) == After(events) && |bits| <= MAX_BITS
    }

    constructor ()
      ensures Valid() && events == []
    {
      bits := [];
      lastEdge := None;
      events := [];
    }

    method PushBit(bit: bool, now: nat)
      requires Valid()
      modifies this
      ensures Valid() && events == old(events) + [Pulse(bit, now)]
      ensures bits == Newest(old(bits) + [bit]) && lastEdge == Some(now)
      ensures Capture(bits, lastEdge) == StepCapture(Capture(old(bits), old(lastEdge)), Pulse(bit, now))
    {
      assert (events + [Pulse(bit, now)])[..|events|] == events;
      if |bits| == MAX_BITS {
        bits := bits[1..];
      }
      bits := bits + [bit];
      lastEdge := Some(now);
      events := events + [Pulse(bit, now)];
    }

    /** One critical section serves both lines; D0 is checked first. */
    method OnGpioInterrupt(d0Set: bool, d1Set: bool, now0: nat, now1: nat)
      requires Valid()
      modifies this
      ensures Valid()
      ensures events == old(events) +
        (if d0Set then [Pulse(false, now0)] else []) + (if d1Set then [Pulse(true, now1)] else [])
    {
      if d0Set {
        PushBit(false, now0);
      }
      if d1Set {
        PushBit(true, now1);
      }
    }

    method TakeCompletedFrame(now: nat) returns (frame: Option<seq<bool>>)
      requires Valid()
      modifies this
      ensures Valid() && events == old(events) + [Poll(now)]
      ensures Frames(events) == Frames(old(events)) + (if frame.Some? then [frame.value] else [])
      ensures frame.Some? <==> Completed(Capture(old(bits), old(lastEdge)), now)
      ensures frame.Some? ==>
        frame.value == old(bits) == Newest(Unbounded(old(events)).open) && bits == [] && lastEdge.None?
      ensures frame.None? ==> bits == old(bits) && lastEdge == old(lastEdge)
    {
      Conservation(events);
      assert (events + [Poll(now)])[..|events|] == events;
      events := events + [Poll(now)];
      if lastEdge.None? || bits == [] || now - lastEdge.value < MESSAGE_GAP {
        return None;
      }
      frame := Some(bits);
      lastEdge := None;
      bits := [];
    }
  }
}
