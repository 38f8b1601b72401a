/** The keypad script generator: the encoder that capture and decoding must invert. Times are microseconds. */
module KeypadScript {
  import opened Wrappers
  import opened Segmentation
  import ServerTotp
  import Wiegand
  import WiegandCapture

  const D0_PIN: nat := 2
  const D1_PIN: nat := 3
  const PULSE_WIDTH: nat := 50
  const BIT_INTERVAL: nat := 2_000
  const INTER_NIBBLE_GAP: nat := 40_000
  const ENTER: u8 := 11

  /** The longest gap between polls that the script's silences allow. */
  const POLL_BOUND: nat := 17_000

  /** When the j-th bit of a key press starts. */
  function BitStart(start: nat, j: nat): nat {
    start + 2_000 * j
  }

  /** When the i-th key starts. */
  function KeyStart(start: nat, i: nat): nat {
    start + 48_000 * i
  }

  /** The closed forms are what the generator accumulates: one interval a bit, one silence a key. */
  lemma StartsAccumulate(start: nat, i: nat, j: nat)
    ensures BitStart(start, j + 1) == BitStart(start, j) + BIT_INTERVAL
    ensures KeyStart(start, i + 1) == BitStart(KeyStart(start, i), 4) + INTER_NIBBLE_GAP
  {}

  /** One action: drive `pin` to `level` at time `at`. */
  datatype Line = Line(at: nat, pin: nat, level: bool)

  function NibbleBits(value: u8): seq<bool> {
    [value / 8 % 2 == 1, value / 4 % 2 == 1, value / 2 % 2 == 1, value % 2 == 1]
  }

  function KeysForCode(code: string): seq<u8>
    requires ServerTotp.IsCode(code)
  {
    ServerTotp.Digits(code) + [ENTER]
  }

  function Pin(bit: bool): nat { if bit then D1_PIN else D0_PIN }

  /** The first n bits of one key press, the first starting at `at`. */
  function NibbleBurst(bits: seq<bool>, at: nat): seq<Edge> {
    seq(|bits|, j requires 0 <= j < |bits| => Edge(bits[j], BitStart(at, j)))
  }

  function KeyBursts(keys: seq<u8>, start: nat): seq<seq<Edge>> {
    seq(|keys|, i requires 0 <= i < |keys| => NibbleBurst(NibbleBits(keys[i]), KeyStart(start, i)))
  }

  /** The level of a line after the script; it starts high. */
  function LevelAfter(lines: seq<Line>, pin: nat): bool {
    if lines == [] then true
    else if lines[|lines| - 1].pin == pin then lines[|lines| - 1].level
    else LevelAfter(lines[..|lines| - 1], pin)
  }

  /** What the two interrupt lines see, in order: pin 2 falling is a 0 bit, pin 3 falling is a 1 bit. */
  function FallingEdges(lines: seq<Line>): seq<Edge> {
    if lines == [] then [] else FallingEdges(lines[..|lines| - 1]) + LastFall(lines)
  }

  /** A line falls only if it was high. */
  function LastFall(lines: seq<Line>): seq<Edge>
    requires lines != []
  {
    var before, line := lines[..|lines| - 1], lines[|lines| - 1];
    if line.level || !LevelAfter(before, line.pin) then []
    else if line.pin == 2 then [Edge(false, line.at)]
    else if line.pin == 3 then [Edge(true, line.at)]
    else []
  }

  /** The i-th action is the last one on its pin. */
  predicate LastOn(lines: seq<Line>, pin: nat, i: nat) {
    i < |lines| && lines[i].pin == pin && forall j :: i < j < |lines| ==> lines[j].pin != pin
  }

  /** A pin is low iff the last action on it pulled it low. */
  lemma {:induction false} LowIffPulled(lines: seq<Line>, pin: nat)
    ensures !LevelAfter(lines, pin) <==> exists i: nat :: LastOn(lines, pin, i) && !lines[i].level
  {
    if lines != [] {
      var n := |lines| - 1;
      LowIffPulled(lines[..n], pin);
      if lines[n].pin == pin {
        assert LastOn(lines, pin, n);
      } else {
        forall i: nat ensures LastOn(lines, pin, i) <==> LastOn(lines[..n], pin, i) {
          assert forall j :: i < j < n ==> lines[..n][j] == lines[j];
        }
      }
    }
  }

  /** An action is seen as an edge iff it pulls down a pin that is high; pulling a low pin again is lost. */
  lemma SeenIffFalls(lines: seq<Line>, line: Line, bit: bool)
    requires line.pin == if bit then 3 else 2
    ensures FallingEdges(lines + [line]) == FallingEdges(lines) + [Edge(bit, line.at)] <==>
      !line.level && LevelAfter(lines, line.pin)
    ensures line.level || !LevelAfter(lines, line.pin) ==> FallingEdges(lines + [line]) == FallingEdges(lines)
  {
    assert (lines + [line])[..|lines|] == lines;
  }

  predicate BothHigh(lines: seq<Line>) {
    LevelAfter(lines, 2) && LevelAfter(lines, 3)
  }

  /** Every pull is undone by the next action, 50 us later on the same pin. */
  predicate EachReleased(lines: seq<Line>) {
    forall i :: 0 <= i < |lines| && !lines[i].level ==>
      i + 1 < |lines| && lines[i + 1] == Line(lines[i].at + 50, lines[i].pin, true)
  }

  /** The script for a sequence of edges: each pulls its pin low and releases it one pulse width later. */
  function Lines(edges: seq<Edge>): seq<Line> {
    if edges == [] then [] else Lines(edges[..|edges| - 1]) + Pulse(edges[|edges| - 1])
  }

  function Pulse(e: Edge): seq<Line> {
    [Line(e.at, Pin(e.bit), false), Line(e.at + PULSE_WIDTH, Pin(e.bit), true)]
  }

  lemma LinesGrow(before: seq<Edge>, burst: seq<Edge>, j: nat)
    requires j < |burst|
    ensures Lines(before + burst[..j + 1]) == Lines(before + burst[..j]) + Pulse(burst[j])
  {
    var more := before + burst[..j + 1];
    assert more[..|more| - 1] == before + burst[..j];
  }

  /** The interrupt lines see exactly the edges the script was written for, and come back to rest. */
  lemma {:induction false} FallingEdgesOfLines(edges: seq<Edge>)
    ensures FallingEdges(Lines(edges)) == edges
    ensures EachReleased(Lines(edges)) && BothHigh(Lines(edges))
  {
    if edges != [] {
      var init, e := edges[..|edges| - 1], edges[|edges| - 1];
      FallingEdgesOfLines(init);
      OnePulse(Lines(init), e);
    }
  }

  lemma OnePulse(lines: seq<Line>, e: Edge)
    requires EachReleased(lines) && BothHigh(lines)
    ensures FallingEdges(lines + Pulse(e)) == FallingEdges(lines) + [e]
    ensures EachReleased(lines + Pulse(e)) && BothHigh(lines + Pulse(e))
  {
    var low, more := lines + [Pulse(e)[0]], lines + Pulse(e);
    assert low[..|lines|] == lines;
    assert more[..|low|] == low;
  }

  /** The lines before a press, and the lines after it. */
  lemma PressLines(bursts: seq<seq<Edge>>, i: nat)
    requires i < |bursts|
    ensures var before, burst := EdgesOf(bursts[..i]), bursts[i];
      && Lines(before + burst[..0]) == Lines(before)
      && Lines(before + burst[..|burst|]) == Lines(EdgesOf(bursts[..i + 1]))
  {
    assert bursts[..i + 1][..i] == bursts[..i];
    assert EdgesOf(bursts[..i]) + bursts[i][..0] == EdgesOf(bursts[..i]);
    assert bursts[i][..|bursts[i]|] == bursts[i];
  }

  method Generate(code: string, startAt: nat) returns (lines: seq<Line>, endAt: nat)
    requires ServerTotp.IsCode(code)
    ensures lines == Lines(EdgesOf(KeyBursts(KeysForCode(code), startAt)))
    ensures FallingEdges(lines) == EdgesOf(KeyBursts(KeysForCode(code), startAt))
    ensures EachReleased(lines) && BothHigh(lines)
    ensures endAt == KeyStart(startAt, 7)
  {
    var keys := KeysForCode(code);
    ghost var bursts := KeyBursts(keys, startAt);
    lines := [];
    var t := startAt;
    for i := 0 to |keys|
      invariant t == KeyStart(startAt, i)
      invariant lines == Lines(EdgesOf(bursts[..i]))
    {
      var bits := NibbleBits(keys[i]);
      ghost var before, burst := EdgesOf(bursts[..i]), bursts[i];
      assert |burst| == |bits|;
      PressLines(bursts, i);
      for j := 0 to |bits|
        invariant t == BitStart(KeyStart(startAt, i), j)
        invariant lines == Lines(before + burst[..j])
      {
        LinesGrow(before, burst, j);
        assert burst[j] == Edge(bits[j], t);
        lines := lines + [Line(t, Pin(bits[j]), false), Line(t + PULSE_WIDTH, Pin(bits[j]), true)];
        t := t + BIT_INTERVAL;
      }
      t := t + INTER_NIBBLE_GAP;
    }
    assert bursts[..|keys|] == bursts;
    FallingEdgesOfLines(EdgesOf(bursts));
    endAt := t;
  }

  lemma NibbleFold(b8: bool, b4: bool, b2: bool, b1: bool)
    ensures Wiegand.BitsToU32([b8, b4, b2, b1]) ==
      8 * Wiegand.BitValue(b8) + 4 * Wiegand.BitValue(b4) + 2 * Wiegand.BitValue(b2) + Wiegand.BitValue(b1)
  {
    var bits := [b8, b4, b2, b1];
    Wiegand.FoldStep(bits);
    Wiegand.FoldStep(bits[..3]);
    Wiegand.FoldStep(bits[..2]);
    Wiegand.FoldStep(bits[..1]);
    assert bits[..3][..2] == bits[..2] && bits[..2][..1] == bits[..1] && bits[..1][..0] == [];
  }

  /** Encoding a key and decoding the burst gives the key back. */
  lemma NibbleRoundTrip(value: u8)
    requires value < 16
    ensures Wiegand.DecodeFrame(NibbleBits(value)) ==
      if value <= 9 then Wiegand.Digit(value)
      else if value == 10 then Wiegand.Cancel
      else if value == 11 then Wiegand.Enter
      else Wiegand.Unrecognized(4)
  {
    NibbleFold(value / 8 % 2 == 1, value / 4 % 2 == 1, value / 2 % 2 == 1, value % 2 == 1);
  }

  /** The bits of one key press are close enough to be one burst. */
  lemma PressIsBurst(bits: seq<bool>, at: nat)
    requires bits != []
    ensures IsBurst(NibbleBurst(bits, at))
  {
    forall i | 0 <= i < |bits| - 1 ensures BitStart(at, i + 1) == BitStart(at, i) + BIT_INTERVAL {
      StartsAccumulate(at, 0, i);
    }
  }

  /** The script's bursts are spaced for polls at most 17 ms apart: 42 ms of silence is the 25 ms gap plus 17. */
  lemma KeyBurstsSpaced(keys: seq<u8>, start: nat)
    ensures Spaced(KeyBursts(keys, start), WiegandCapture.MESSAGE_GAP + POLL_BOUND)
  {
    var bursts := KeyBursts(keys, start);
    forall i | 0 <= i < |bursts| ensures IsBurst(bursts[i]) {
      PressIsBurst(NibbleBits(keys[i]), KeyStart(start, i));
    }
    forall i | 0 <= i < |bursts| - 1
      ensures bursts[i + 1][0].at - bursts[i][|bursts[i]| - 1].at >= WiegandCapture.MESSAGE_GAP + POLL_BOUND
    {
      StartsAccumulate(start, i, 3);
    }
  }

  /** One burst as the interrupt handler stamps it: each edge up to `lateness` late, still in order. */
  predicate StampedBurst(sent: seq<Edge>, stamped: seq<Edge>, lateness: nat) {
    && |stamped| == |sent|
    && (forall j :: 0 <= j < |sent| ==>
          stamped[j].bit == sent[j].bit && sent[j].at <= stamped[j].at <= sent[j].at + lateness)
    && (forall j :: 0 <= j < |sent| - 1 ==> stamped[j].at <= stamped[j + 1].at)
  }

  predicate Stamped(sent: seq<seq<Edge>>, stamped: seq<seq<Edge>>, lateness: nat) {
    |stamped| == |sent| && forall i :: 0 <= i < |sent| ==> StampedBurst(sent[i], stamped[i], lateness)
  }

  /** Lateness eats into the silences: what is left is the message gap plus 17 ms less the lateness. */
  lemma StampedSpaced(keys: seq<u8>, start: nat, stamped: seq<seq<Edge>>, lateness: nat)
    requires lateness <= POLL_BOUND && Stamped(KeyBursts(keys, start), stamped, lateness)
    ensures Spaced(stamped, WiegandCapture.MESSAGE_GAP + (POLL_BOUND - lateness))
    ensures BitsOfEach(stamped) == BitsOfEach(KeyBursts(keys, start))
    ensures forall i :: 0 <= i < |stamped| ==> |stamped[i]| == 4
  {
    var sent := KeyBursts(keys, start);
    KeyBurstsSpaced(keys, start);
    forall i | 0 <= i < |stamped|
      ensures IsBurst(stamped[i]) && BitsOf(stamped[i]) == BitsOf(sent[i]) && |stamped[i]| == 4 {
      assert StampedBurst(sent[i], stamped[i], lateness);
    }
    forall i | 0 <= i < |stamped| - 1
      ensures stamped[i + 1][0].at - stamped[i][|stamped[i]| - 1].at >=
        WiegandCapture.MESSAGE_GAP + (POLL_BOUND - lateness)
    {
      assert StampedBurst(sent[i], stamped[i], lateness) && StampedBurst(sent[i + 1], stamped[i + 1], lateness);
      StartsAccumulate(start, i, 3);
    }
  }

  lemma KeyBurstBits(keys: seq<u8>, start: nat, i: nat)
    requires i < |keys|
    ensures BitsOf(KeyBursts(keys, start)[i]) == NibbleBits(keys[i])
  {}
}
