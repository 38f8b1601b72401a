/** How bursts of edges become frames when the buffer is polled at a bounded pace. */
module Segmentation {
  import opened WiegandCapture

  datatype Edge = Edge(bit: bool, at: nat)

  /** The edges among the events, in order. */
  function Edges(events: seq<Event>): seq<Edge> {
    if events == [] then [] else Edges(events[..|events| - 1]) + EdgeOf(events[|events| - 1])
  }

  function EdgeOf(e: Event): seq<Edge> {
    if e.Pulse? then [Edge(e.bit, e.at)] else []
  }

  function LastPoll(events: seq<Event>, start: nat): nat {
    if events == [] then start
    else if events[|events| - 1].Poll? then events[|events| - 1].at
    else LastPoll(events[..|events| - 1], start)
  }

  function LastTime(events: seq<Event>, start: nat): nat {
    if events == [] then start else events[|events| - 1].at
  }

  /** From `start` on time never runs back, and at every event the last poll is at most `period` ago. */
  predicate Paced(events: seq<Event>, period: nat, start: nat) {
    events == [] ||
    var init, last := events[..|events| - 1], events[|events| - 1];
    && Paced(init, period, start)
    && LastTime(init, start) <= last.at <= LastPoll(init, start) + period
  }

  // ---------------------------------------------------------------- bursts

  function EdgesOf(bursts: seq<seq<Edge>>): seq<Edge> {
    if bursts == [] then [] else EdgesOf(bursts[..|bursts| - 1]) + bursts[|bursts| - 1]
  }

  /** A burst has edges less than the message gap apart. */
  predicate IsBurst(b: seq<Edge>) {
    b != [] && forall i :: 0 <= i < |b| - 1 ==> 0 <= b[i + 1].at - b[i].at < MESSAGE_GAP
  }

  /** Bursts, each at least `silence` after the end of the one before. */
  predicate Spaced(bursts: seq<seq<Edge>>, silence: nat) {
    && (forall i :: 0 <= i < |bursts| ==> IsBurst(bursts[i]))
    && (forall i :: 0 <= i < |bursts| - 1 ==> bursts[i + 1][0].at - bursts[i][|bursts[i]| - 1].at >= silence)
  }

  function BitsOf(b: seq<Edge>): seq<bool> {
    seq(|b|, i requires 0 <= i < |b| => b[i].bit)
  }

  function BitsOfEach(bursts: seq<seq<Edge>>): seq<seq<bool>> {
    seq(|bursts|, i requires 0 <= i < |bursts| => BitsOf(bursts[i]))
  }

  function LastEdge(bursts: seq<seq<Edge>>): nat
    requires bursts != [] && bursts[|bursts| - 1] != []
  {
    var b := bursts[|bursts| - 1];
    b[|b| - 1].at
  }

  /** The last burst is still open iff no poll has come a message gap after its last edge. */
  predicate StillOpen(bursts: seq<seq<Edge>>, lastPoll: nat) {
    bursts != [] && bursts[|bursts| - 1] != [] && lastPoll < LastEdge(bursts) + MESSAGE_GAP
  }

  /** The stretches so far are the bursts so far. */
  ghost predicate Segmented(s: Stretches, bursts: seq<seq<Edge>>, lastPoll: nat) {
    && (bursts != [] ==> bursts[|bursts| - 1] != [] && s.lastEdge == LastEdge(bursts))
    && if StillOpen(bursts, lastPoll) then
         s.open != [] && s.closed + [s.open] == BitsOfEach(bursts)
       else
         s.open == [] && s.closed == BitsOfEach(bursts)
  }

  /** The bursts without the newest edge. */
  function WithoutLast(bursts: seq<seq<Edge>>): seq<seq<Edge>>
    requires bursts != [] && bursts[|bursts| - 1] != []
  {
    var b := bursts[|bursts| - 1];
    bursts[..|bursts| - 1] + if |b| == 1 then [] else [b[..|b| - 1]]
  }

  lemma WithoutLastEdges(bursts: seq<seq<Edge>>)
    requires bursts != [] && bursts[|bursts| - 1] != []
    ensures var b := bursts[|bursts| - 1]; EdgesOf(bursts) == EdgesOf(WithoutLast(bursts)) + [b[|b| - 1]]
  {
    var b, init := bursts[|bursts| - 1], bursts[..|bursts| - 1];
    if |b| == 1 {
      assert WithoutLast(bursts) == init;
    } else {
      var b' := b[..|b| - 1];
      assert (init + [b'])[..|init|] == init;
      assert b == b' + [b[|b| - 1]];
    }
  }

  lemma WithoutLastSpaced(bursts: seq<seq<Edge>>, silence: nat)
    requires bursts != [] && Spaced(bursts, silence)
    ensures Spaced(WithoutLast(bursts), silence)
  {
    var b, rest := bursts[|bursts| - 1], WithoutLast(bursts);
    assert IsBurst(b);
    forall i | 0 <= i < |rest| ensures IsBurst(rest[i]) {
      assert IsBurst(bursts[i]);
    }
  }

  /** The newest edge: it belongs to the last burst, and the last poll was at most `period` before it. */
  ghost predicate NewestEdge(bursts: seq<seq<Edge>>, e: Edge, lastPoll: nat, period: nat) {
    && bursts != [] && Spaced(bursts, MESSAGE_GAP + period) && bursts[|bursts| - 1] != []
    && e == bursts[|bursts| - 1][|bursts[|bursts| - 1]| - 1]
    && lastPoll <= e.at <= lastPoll + period
  }

  /** After a silence a poll must have come and closed the burst before. */
  lemma EdgeStartsBurst(s: Stretches, bursts: seq<seq<Edge>>, e: Edge, lastPoll: nat, period: nat)
    requires NewestEdge(bursts, e, lastPoll, period) && |bursts[|bursts| - 1]| == 1
    requires Segmented(s, WithoutLast(bursts), lastPoll)
    ensures Segmented(StretchStep(s, Pulse(e.bit, e.at)), bursts, lastPoll)
  {
    var n := |bursts| - 1;
    var rest := WithoutLast(bursts);
    assert rest == bursts[..n];
    if n > 0 {
      assert IsBurst(bursts[n - 1]);
      assert bursts[n - 1 + 1][0].at - bursts[n - 1][|bursts[n - 1]| - 1].at >= MESSAGE_GAP + period;
    }
    assert !StillOpen(rest, lastPoll);
    assert s.open + [e.bit] == [e.bit] == BitsOf(bursts[n]);
    assert BitsOfEach(bursts) == BitsOfEach(rest) + [[e.bit]];
  }

  /** Within a burst no poll can have closed it. */
  lemma EdgeJoinsBurst(s: Stretches, bursts: seq<seq<Edge>>, e: Edge, lastPoll: nat, period: nat)
    requires NewestEdge(bursts, e, lastPoll, period) && |bursts[|bursts| - 1]| > 1
    requires Segmented(s, WithoutLast(bursts), lastPoll)
    ensures Segmented(StretchStep(s, Pulse(e.bit, e.at)), bursts, lastPoll)
  {
    var n := |bursts| - 1;
    var b, rest := bursts[n], WithoutLast(bursts);
    assert IsBurst(b);
    assert b[|b| - 2 + 1].at - b[|b| - 2].at < MESSAGE_GAP;
    var b' := b[..|b| - 1];
    assert rest == bursts[..n] + [b'];
    assert StillOpen(rest, lastPoll);
    assert BitsOfEach(rest) == BitsOfEach(rest)[..n] + [BitsOf(b')];
    assert s.closed == BitsOfEach(rest)[..n] && s.open == BitsOf(b');
    assert BitsOf(b) == BitsOf(b') + [e.bit];
    assert BitsOfEach(bursts) == BitsOfEach(rest)[..n] + [BitsOf(b)];
  }

  lemma PollKeepsSegmented(s: Stretches, bursts: seq<seq<Edge>>, at: nat, lastPoll: nat)
    requires Segmented(s, bursts, lastPoll) && lastPoll <= at
    ensures Segmented(StretchStep(s, Poll(at)), bursts, at)
  {}

  lemma {:induction false} PollsLag(events: seq<Event>, period: nat, start: nat)
    requires Paced(events, period, start)
    ensures LastPoll(events, start) <= LastTime(events, start)
  {
    if events != [] {
      PollsLag(events[..|events| - 1], period, start);
    }
  }

  /**
   * If edges within a burst are less than the gap apart, silences are at least gap + period, and
   * polls come at least every `period`, no burst is merged, split, lost or duplicated.
   */
  lemma {:induction false} BurstsAreStretches(events: seq<Event>, bursts: seq<seq<Edge>>, period: nat, start: nat)
    requires Paced(events, period, start)
    requires Spaced(bursts, MESSAGE_GAP + period) && Edges(events) == EdgesOf(bursts)
    ensures Segmented(Unbounded(events), bursts, LastPoll(events, start))
  {
    if events == [] {
      NoEdgesNoBursts(bursts, MESSAGE_GAP + period);
    } else {
      var init, last := events[..|events| - 1], events[|events| - 1];
      PollsLag(init, period, start);
      if last.Poll? {
        assert Edges(init) + [] == Edges(init);
        BurstsAreStretches(init, bursts, period, start);
        PollKeepsSegmented(Unbounded(init), bursts, last.at, LastPoll(init, start));
      } else {
        NoEdgesNoBursts(bursts, MESSAGE_GAP + period);
        assert IsBurst(bursts[|bursts| - 1]);
        WithoutLastEdges(bursts);
        WithoutLastSpaced(bursts, MESSAGE_GAP + period);
        LastOfAppended(Edges(init), Edge(last.bit, last.at), EdgesOf(WithoutLast(bursts)),
          bursts[|bursts| - 1][|bursts[|bursts| - 1]| - 1]);
        BurstsAreStretches(init, WithoutLast(bursts), period, start);
        if |bursts[|bursts| - 1]| == 1 {
          EdgeStartsBurst(Unbounded(init), bursts, Edge(last.bit, last.at), LastPoll(init, start), period);
        } else {
          EdgeJoinsBurst(Unbounded(init), bursts, Edge(last.bit, last.at), LastPoll(init, start), period);
        }
      }
    }
  }

  lemma NoEdgesNoBursts(bursts: seq<seq<Edge>>, silence: nat)
    requires Spaced(bursts, silence)
    ensures EdgesOf(bursts) == [] <==> bursts == []
  {
    if bursts != [] {
      assert IsBurst(bursts[|bursts| - 1]);
    }
  }

  lemma LastOfAppended<T>(xs: seq<T>, x: T, ys: seq<T>, y: T)
    requires xs + [x] == ys + [y]
    ensures xs == ys && x == y
  {
    assert (xs + [x])[|xs|] == x && (ys + [y])[|ys|] == y;
    assert xs == (xs + [x])[..|xs|] && ys == (ys + [y])[..|ys|];
  }

  /** Once a poll has come a gap after the last edge, the frames are exactly the bursts, cut to their newest 34 bits. */
  lemma TimedSegmentation(events: seq<Event>, bursts: seq<seq<Edge>>, period: nat, start: nat)
    requires Paced(events, period, start)
    requires Spaced(bursts, MESSAGE_GAP + period) && Edges(events) == EdgesOf(bursts)
    requires !StillOpen(bursts, LastPoll(events, start))
    ensures After(events) == EMPTY
    ensures Frames(events) == NewestOfEach(BitsOfEach(bursts))
    ensures (forall i :: 0 <= i < |bursts| ==> |bursts[i]| <= MAX_BITS) ==> Frames(events) == BitsOfEach(bursts)
  {
    BurstsAreStretches(events, bursts, period, start);
    Conservation(events);
  }

  lemma PacedAppend(events: seq<Event>, e: Event, period: nat, start: nat)
    requires Paced(events, period, start)
    requires LastTime(events, start) <= e.at <= LastPoll(events, start) + period
    ensures Paced(events + [e], period, start)
    ensures LastTime(events + [e], start) == e.at
    ensures LastPoll(events + [e], start) == if e.Poll? then e.at else LastPoll(events, start)
    ensures Edges(events + [e]) == Edges(events) + EdgeOf(e)
    ensures Unbounded(events + [e]) == StretchStep(Unbounded(events), e)
  {
    assert (events + [e])[..|events|] == events;
  }

  lemma EdgesOfSnoc(bursts: seq<seq<Edge>>, b: seq<Edge>)
    ensures EdgesOf(bursts + [b]) == EdgesOf(bursts) + b
  {
    assert (bursts + [b])[..|bursts|] == bursts;
  }
}
