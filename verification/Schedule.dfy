/**
 * How to build concrete runs the loop can make: presses of any length, polled every 6 ms, that is,
 * after the loop's 5 ms sleep and a millisecond of work.
 */
module Schedule {
  import opened Wrappers
  import opened WiegandCapture
  import opened Segmentation
  import F = Firmware
  import H = RelayHold
  import K = KeypadScript
  import L = Lock

  const GRID: nat := 6_000

  /** The last poll of the grid before the n-th bit of a press that starts at `t`: three bits a poll. */
  function LastGrid(t: nat, n: nat): nat
    requires n > 0
  {
    t + 6_000 * ((n - 1) / 3)
  }

  /** When the silence after a press ends: seven polls later, on the grid. */
  function PressEnd(bits: seq<bool>, t: nat): nat
    requires bits != []
  {
    LastGrid(t, |bits|) + 42_000
  }

  predicate NoneEmpty(presses: seq<seq<bool>>) {
    forall i :: 0 <= i < |presses| ==> presses[i] != []
  }

  /** When presses typed one after the other from `t` on are over. */
  function TypeEnd(presses: seq<seq<bool>>, t: nat): nat
    requires NoneEmpty(presses)
  {
    if presses == [] then t else PressEnd(presses[|presses| - 1], TypeEnd(presses[..|presses| - 1], t))
  }

  /** The bursts of edges they send. */
  function Bursts(presses: seq<seq<bool>>, t: nat): seq<seq<Edge>>
    requires NoneEmpty(presses)
  {
    if presses == [] then [] else Bursts(presses[..|presses| - 1], t) + [LastBurst(presses, t)]
  }

  function LastBurst(presses: seq<seq<bool>>, t: nat): seq<Edge>
    requires NoneEmpty(presses) && presses != []
  {
    K.NibbleBurst(presses[|presses| - 1], TypeEnd(presses[..|presses| - 1], t))
  }

  // ---------------------------------------------------------------- what the buffer makes of them

  /** Polls are at least the loop's sleep apart. */
  predicate Rested(events: seq<Event>, start: nat) {
    events == [] ||
    var init, e := events[..|events| - 1], events[|events| - 1];
    Rested(init, start) && (e.Poll? ==> LastPoll(init, start) + F.POLL_INTERVAL <= e.at)
  }

  /** A run under construction and what it has come to. */
  datatype Trail = Trail(events: seq<Event>, time: nat, poll: nat, stretches: Stretches, edges: seq<Edge>)

  ghost predicate Valid(trail: Trail, period: nat, start: nat) {
    && Paced(trail.events, period, start) && Rested(trail.events, start)
    && LastTime(trail.events, start) == trail.time && LastPoll(trail.events, start) == trail.poll <= trail.time
    && Unbounded(trail.events) == trail.stretches && Edges(trail.events) == trail.edges
  }

  /** Nothing is buffered and a poll has just come. */
  predicate AtRest(trail: Trail) {
    trail.stretches.open == [] && trail.time == trail.poll
  }

  lemma Fresh(period: nat, start: nat) returns (trail: Trail)
    ensures trail == Trail([], start, start, Stretches([], [], 0), []) && Valid(trail, period, start)
  {
    trail := Trail([], start, start, Stretches([], [], 0), []);
  }

  lemma AddPoll(trail: Trail, period: nat, start: nat, at: nat) returns (more: Trail)
    requires Valid(trail, period, start) && trail.time <= at <= trail.poll + period
    requires trail.poll + F.POLL_INTERVAL <= at
    ensures Valid(more, period, start) && more.time == more.poll == at
    ensures more.stretches == StretchStep(trail.stretches, Poll(at)) && more.edges == trail.edges
  {
    var events := trail.events + [Poll(at)];
    PacedAppend(trail.events, Poll(at), period, start);
    assert events[..|trail.events|] == trail.events;
    assert trail.edges + [] == trail.edges;
    more := Trail(events, at, at, StretchStep(trail.stretches, Poll(at)), trail.edges);
  }

  lemma AddEdge(trail: Trail, period: nat, start: nat, bit: bool, at: nat) returns (more: Trail)
    requires Valid(trail, period, start) && trail.time <= at <= trail.poll + period
    ensures Valid(more, period, start) && more.time == at && more.poll == trail.poll
    ensures more.stretches == Stretches(trail.stretches.closed, trail.stretches.open + [bit], at)
    ensures more.edges == trail.edges + [Edge(bit, at)]
  {
    var events := trail.events + [Pulse(bit, at)];
    PacedAppend(trail.events, Pulse(bit, at), period, start);
    assert events[..|trail.events|] == trail.events;
    more := Trail(events, at, trail.poll, StretchStep(trail.stretches, Pulse(bit, at)), trail.edges + [Edge(bit, at)]);
  }

  /** In the middle of a press that started at `t`: n bits sent, the grid's polls made. */
  predicate Pressing(trail: Trail, t: nat, n: nat)
    requires n > 0
  {
    && trail.time == K.BitStart(t, n - 1) == trail.stretches.lastEdge
    && trail.poll == LastGrid(t, n)
    && trail.stretches.open != []
  }

  /** The grid's poll that is due before bit n, if there is one; it finds the burst still open. */
  lemma GridPoll(trail: Trail, period: nat, start: nat, t: nat, n: nat) returns (more: Trail)
    requires Valid(trail, period, start) && period >= GRID && n > 0 && Pressing(trail, t, n)
    ensures Valid(more, period, start) && more.poll == LastGrid(t, n + 1)
    ensures more.time <= K.BitStart(t, n) <= more.poll + GRID
    ensures more.stretches == trail.stretches && more.edges == trail.edges
  {
    more := trail;
    if n % 3 == 0 {
      more := AddPoll(trail, period, start, K.BitStart(t, n));
    }
  }

  lemma NibbleTail(bits: seq<bool>, t: nat, n: nat)
    requires n < |bits|
    ensures K.NibbleBurst(bits, t)[n..] == [Edge(bits[n], K.BitStart(t, n))] + K.NibbleBurst(bits, t)[n + 1..]
    ensures bits[n..] == [bits[n]] + bits[n + 1..]
  {}

  /** The remaining bits of a press. */
  lemma {:induction false} Strokes(trail: Trail, period: nat, start: nat, bits: seq<bool>, t: nat, n: nat)
    returns (more: Trail)
    requires Valid(trail, period, start) && period >= GRID && 0 < n <= |bits| && Pressing(trail, t, n)
    ensures Valid(more, period, start) && Pressing(more, t, |bits|)
    ensures more.stretches.closed == trail.stretches.closed && more.stretches.open == trail.stretches.open + bits[n..]
    ensures more.edges == trail.edges + K.NibbleBurst(bits, t)[n..]
    decreases |bits| - n
  {
    if n == |bits| {
      more := trail;
    } else {
      more := GridPoll(trail, period, start, t, n);
      more := AddEdge(more, period, start, bits[n], K.BitStart(t, n));
      more := Strokes(more, period, start, bits, t, n + 1);
      NibbleTail(bits, t, n);
      ConcatAssociates(trail.stretches.open, [bits[n]], bits[n + 1..]);
      ConcatAssociates(trail.edges, [Edge(bits[n], K.BitStart(t, n))], K.NibbleBurst(bits, t)[n + 1..]);
    }
  }

  /** Seven polls of silence; the fifth finds the frame. */
  lemma Silence(trail: Trail, period: nat, start: nat, t: nat, n: nat) returns (more: Trail)
    requires Valid(trail, period, start) && period >= GRID && n > 0 && Pressing(trail, t, n)
    ensures Valid(more, period, start) && AtRest(more) && more.time == LastGrid(t, n) + 42_000
    ensures more.stretches.closed == trail.stretches.closed + [trail.stretches.open] && more.edges == trail.edges
  {
    var p := LastGrid(t, n);
    more := AddPoll(trail, period, start, p + 6_000);
    more := AddPoll(more, period, start, p + 12_000);
    more := AddPoll(more, period, start, p + 18_000);
    more := AddPoll(more, period, start, p + 24_000);
    assert more.stretches == trail.stretches;
    more := AddPoll(more, period, start, p + 30_000);
    more := AddPoll(more, period, start, p + 36_000);
    more := AddPoll(more, period, start, p + 42_000);
  }

  /** A press leaves exactly its bits as one more closed stretch. */
  lemma Press(trail: Trail, period: nat, start: nat, bits: seq<bool>) returns (more: Trail)
    requires Valid(trail, period, start) && period >= GRID && AtRest(trail) && bits != []
    ensures Valid(more, period, start) && AtRest(more) && more.time == PressEnd(bits, trail.time)
    ensures more.stretches.closed == trail.stretches.closed + [bits]
    ensures more.edges == trail.edges + K.NibbleBurst(bits, trail.time)
  {
    var t := trail.time;
    NibbleTail(bits, t, 0);
    more := AddEdge(trail, period, start, bits[0], t);
    more := Strokes(more, period, start, bits, t, 1);
    assert more.stretches.open == bits;
    ConcatAssociates(trail.edges, [Edge(bits[0], t)], K.NibbleBurst(bits, t)[1..]);
    more := Silence(more, period, start, t, |bits|);
  }

  /** Typing closes exactly the presses, in order. */
  lemma {:induction false} Type(trail: Trail, period: nat, start: nat, presses: seq<seq<bool>>) returns (more: Trail)
    requires Valid(trail, period, start) && period >= GRID && AtRest(trail) && NoneEmpty(presses)
    ensures Valid(more, period, start) && AtRest(more) && more.time == TypeEnd(presses, trail.time)
    ensures more.stretches.closed == trail.stretches.closed + presses
    ensures more.edges == trail.edges + EdgesOf(Bursts(presses, trail.time))
  {
    if presses == [] {
      more := trail;
      assert trail.edges + [] == trail.edges && trail.stretches.closed + [] == trail.stretches.closed;
    } else {
      var init, last := presses[..|presses| - 1], presses[|presses| - 1];
      more := Type(trail, period, start, init);
      more := Press(more, period, start, last);
      assert presses == init + [last];
      EdgesOfSnoc(Bursts(init, trail.time), LastBurst(presses, trail.time));
      ConcatAssociates(trail.edges, EdgesOf(Bursts(init, trail.time)), LastBurst(presses, trail.time));
      ConcatAssociates(trail.stretches.closed, init, [last]);
    }
  }

  // ---------------------------------------------------------------- the loop that polls this way

  /** One iteration per poll, its work falling outside the clocks it reads, and the wall clock standing still. */
  function LoopEvent(e: Event, now: u64): F.Event {
    match e
    case Pulse(bit, at) => F.Edge(bit, at)
    case Poll(at) => F.Iteration(at, now, at, at, at, at)
  }

  /** A run of the loop from boot, and what its capture buffer and its clocks have seen. */
  ghost predicate Loops(cfg: L.Config, loop: seq<F.Event>, events: seq<Event>, now: u64, period: nat, start: nat) {
    && F.CaptureView(loop) == events && H.Cadenced(loop, period, start) && H.Sleeps(loop, start)
    && H.LastCheck(loop, start) == LastPoll(events, start) == H.LastEnd(loop, start)
    && (forall i :: 0 <= i < |F.Log(cfg, F.BOOT, loop)| ==> F.Log(cfg, F.BOOT, loop)[i].unixSeconds == now)
  }

  lemma LoopStep(cfg: L.Config, loop: seq<F.Event>, events: seq<Event>, e: Event, now: u64, period: nat, start: nat)
    requires Loops(cfg, loop, events, now, period, start)
    requires e.Poll? ==> LastPoll(events, start) + F.POLL_INTERVAL <= e.at <= LastPoll(events, start) + period
    ensures Loops(cfg, loop + [LoopEvent(e, now)], events + [e], now, period, start)
  {
    assert (loop + [LoopEvent(e, now)])[..|loop|] == loop;
    assert (events + [e])[..|events|] == events;
  }

  lemma {:induction false} Loop(cfg: L.Config, events: seq<Event>, now: u64, period: nat, start: nat)
    returns (loop: seq<F.Event>)
    requires Paced(events, period, start) && Rested(events, start)
    ensures Loops(cfg, loop, events, now, period, start)
  {
    loop := [];
    if events != [] {
      var init, last := events[..|events| - 1], events[|events| - 1];
      loop := Loop(cfg, init, now, period, start);
      LoopStep(cfg, loop, init, last, now, period, start);
      loop := loop + [LoopEvent(last, now)];
      assert events == init + [last];
    }
  }
}
