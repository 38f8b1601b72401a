/** Runs the loop can make, its sleep included: the theorems' hypotheses can be met and their bounds are reached. */
module Scenarios {
  import opened Wrappers
  import opened Totp
  import opened Lock
  import opened Firmware
  import opened RelayHold
  import opened WholeDevice
  import C = WiegandCapture
  import E = EndToEnd
  import G = Segmentation
  import K = KeypadScript
  import P = PinEntry
  import S = ServerTotp
  import T = Schedule
  import W = Wiegand

  function KeyPresses(keys: seq<u8>): seq<seq<bool>> {
    seq(|keys|, i requires 0 <= i < |keys| => K.NibbleBits(keys[i]))
  }

  /** Typed one after the other, the keys send the bursts of the script. */
  lemma {:induction false} PressesAreScript(keys: seq<u8>, t: nat)
    ensures T.NoneEmpty(KeyPresses(keys))
    ensures T.TypeEnd(KeyPresses(keys), t) == K.KeyStart(t, |keys|)
    ensures T.Bursts(KeyPresses(keys), t) == K.KeyBursts(keys, t)
  {
    if keys != [] {
      var n := |keys| - 1;
      PressesAreScript(keys[..n], t);
      assert KeyPresses(keys)[..n] == KeyPresses(keys[..n]);
      assert |K.NibbleBits(keys[n])| == 4;
      K.StartsAccumulate(t, n, 3);
      assert K.KeyBursts(keys, t) == K.KeyBursts(keys[..n], t) + [T.LastBurst(KeyPresses(keys), t)];
    }
  }

  /** Sent exactly when the script says, the bursts are stamped within any lateness. */
  lemma ScriptIsStamped(keys: seq<u8>, start: nat, lateness: nat)
    ensures K.Stamped(K.KeyBursts(keys, start), K.KeyBursts(keys, start), lateness)
  {
    var bursts := K.KeyBursts(keys, start);
    forall i | 0 <= i < |bursts| ensures K.StampedBurst(bursts[i], bursts[i], lateness) {
      forall j | 0 <= j < |bursts[i]| - 1 ensures bursts[i][j].at <= bursts[i][j + 1].at {
        K.StartsAccumulate(K.KeyStart(start, i), 0, j);
      }
    }
  }

  /** Every code can be played into a loop that sleeps 5 ms and polls every 6. */
  lemma PlayExists(cfg: Config, code: string, start: nat, now: u64) returns (loop: seq<Event>)
    requires S.IsCode(code)
    ensures E.Plays(code, start, 0, loop, start) && Cadenced(loop, T.GRID, start) && Sleeps(loop, start)
    ensures forall i :: 0 <= i < |Log(cfg, BOOT, loop)| ==> Log(cfg, BOOT, loop)[i].unixSeconds == now
    ensures LastCheck(loop, start) == LastEnd(loop, start) == K.KeyStart(start, 7)
  {
    var keys := K.KeysForCode(code);
    PressesAreScript(keys, start);
    var trail := T.Fresh(T.GRID, start);
    trail := T.Type(trail, T.GRID, start, KeyPresses(keys));
    loop := T.Loop(cfg, trail.events, now, T.GRID, start);
    ScriptIsPlayed(code, start, trail.events);
  }

  /** Polls every 6 ms until the last key's silence is over play the script. */
  lemma ScriptIsPlayed(code: string, start: nat, view: seq<C.Event>)
    requires S.IsCode(code) && G.Paced(view, T.GRID, start)
    requires G.Edges(view) == [] + G.EdgesOf(K.KeyBursts(K.KeysForCode(code), start))
    requires G.LastPoll(view, start) == K.KeyStart(start, 7)
    ensures G.Paced(view, K.POLL_BOUND, start)
    ensures E.SentAs(code, start, 0, K.KeyBursts(K.KeysForCode(code), start), view, start)
  {
    var keys := K.KeysForCode(code);
    var bursts := K.KeyBursts(keys, start);
    ScriptIsStamped(keys, start, 0);
    PacedSlower(view, T.GRID, K.POLL_BOUND, start);
    assert bursts[6] == K.NibbleBurst(K.NibbleBits(keys[6]), K.KeyStart(start, 6));
    assert G.LastEdge(bursts) == K.BitStart(K.KeyStart(start, 6), 3);
  }

  lemma {:induction false} PacedSlower(events: seq<C.Event>, period: nat, longer: nat, start: nat)
    requires G.Paced(events, period, start) && period <= longer
    ensures G.Paced(events, longer, start)
  {
    if events != [] {
      PacedSlower(events[..|events| - 1], period, longer, start);
    }
  }

  lemma {:induction false} CadencedSlower(events: seq<Event>, period: nat, longer: nat, start: nat)
    requires Cadenced(events, period, start) && period <= longer
    ensures Cadenced(events, longer, start)
  {
    if events != [] {
      CadencedSlower(events[..|events| - 1], period, longer, start);
    }
  }

  /** The code of the current time step, as digits; it is accepted whatever the skew. */
  function CurrentDigits(cfg: Config, now: u64): seq<u8> {
    ToDigits(CodeOfStep(cfg.hotp, cfg.secret, now / STEP_SECONDS), 6)
  }

  lemma CurrentDigitsAccepted(cfg: Config, now: u64)
    ensures |CurrentDigits(cfg, now)| == 6 && Decimal(CurrentDigits(cfg, now))
    ensures Accepts(cfg.hotp, cfg.secret, CurrentDigits(cfg, now), now, cfg.skew)
  {
    var code := CodeOfStep(cfg.hotp, cfg.secret, now / STEP_SECONDS);
    ToDigitsDecimal(code, 6);
    Pow10Small(6);
    ValueOfToDigits(code, 6);
    assert InWindow(now, cfg.skew, now / STEP_SECONDS);
  }

  // ---------------------------------------------------------------- the latest release

  /** The loop is between two iterations with an empty buffer. */
  ghost predicate Idling(cfg: Config, loop: seq<Event>, period: nat, last: nat) {
    && Cadenced(loop, period, 0) && Sleeps(loop, 0) && LastCheck(loop, 0) == LastEnd(loop, 0) == last
    && Run(cfg, BOOT, loop).capture == C.EMPTY
  }

  /** An iteration that finds nothing to take. */
  lemma IdlePoll(cfg: Config, loop: seq<Event>, now: u64, period: nat, last: nat, at: nat) returns (more: seq<Event>)
    requires Idling(cfg, loop, period, last) && last + POLL_INTERVAL <= at <= last + period
    ensures Idling(cfg, more, period, at)
    ensures Run(cfg, BOOT, more) == Relocked(Run(cfg, BOOT, loop), at)
    ensures LastGrant(cfg, BOOT, more) == LastGrant(cfg, BOOT, loop)
    ensures more == loop + [Iteration(at, now, at, at, at, at)] && more[..|more| - 1] == loop
  {
    more := loop + [Iteration(at, now, at, at, at, at)];
    assert more[..|loop|] == loop;
  }

  /** Idle iterations, n of them 5 to 6 ms apart, up to a given instant. */
  lemma {:induction false} IdleUntil(cfg: Config, loop: seq<Event>, now: u64, period: nat, last: nat, until: nat,
    n: nat)
    returns (more: seq<Event>)
    requires Idling(cfg, loop, period, last) && period >= T.GRID
    requires POLL_INTERVAL * n <= until - last <= T.GRID * n
    ensures Idling(cfg, more, period, until)
    ensures LastGrant(cfg, BOOT, more) == LastGrant(cfg, BOOT, loop)
    decreases n
  {
    if n == 0 {
      more := loop;
    } else {
      var at := if until - last - POLL_INTERVAL <= T.GRID * (n - 1) then last + POLL_INTERVAL
                else until - T.GRID * (n - 1);
      more := IdlePoll(cfg, loop, now, period, last, at);
      more := IdleUntil(cfg, more, now, period, at, until, n - 1);
    }
  }

  /** A run in which the code of the current step has just been accepted. */
  lemma AcceptedRun(cfg: Config, now: u64) returns (loop: seq<Event>)
    ensures Idling(cfg, loop, T.GRID, K.KeyStart(0, 7)) && LastGrant(cfg, BOOT, loop).Some?
  {
    var digits := CurrentDigits(cfg, now);
    CurrentDigitsAccepted(cfg, now);
    var code := S.Render(digits);
    assert S.Digits(code) == digits;
    loop := PlayExists(cfg, code, 0, now);
    E.TypedCodeOpensIffAccepted(cfg, BOOT, code, 0, 0, loop, 0);
  }

  /**
   * The hold time's upper bound is reached by runs the loop can make: for every loop period of at
   * least 6 ms, that is 5 ms of sleep and one of work, and every delay shorter than it, the release
   * may be read that long after the deadline; so the relay is not held for exactly 5 s.
   */
  lemma ReleaseMayBeLate(cfg: Config, now: u64, period: nat, delay: nat) returns (events: seq<Event>)
    requires T.GRID <= period && delay < period
    ensures Cadenced(events, period, 0) && Sleeps(events, 0) && ReleasesAtLast(cfg, events)
    ensures LastGrant(cfg, BOOT, events).Some?
    ensures var g, e := LastGrant(cfg, BOOT, events).value, events[|events| - 1];
      && e.checkAt == g.setAt + 5_000_000 + delay
      && (delay > 0 ==> e.lockAt > g.unlockAt + 5_000_000)
  {
    var loop := AcceptedRun(cfg, now);
    CadencedSlower(loop, T.GRID, period, 0);
    GrantTimes(cfg, loop, period, 0);
    var deadline := LastGrant(cfg, BOOT, loop).value.setAt + UNLOCK_DURATION;
    var gap := if delay + 1 < POLL_INTERVAL then POLL_INTERVAL else delay + 1;
    var last, until := K.KeyStart(0, 7), deadline + delay - gap;
    var waiting := IdleUntil(cfg, loop, now, period, last, until, (until - last) / 5_000);
    events := IdlePoll(cfg, waiting, now, period, until, deadline + delay);
    RelayHighIff(cfg, waiting, period, 0);
    RelayHighIff(cfg, events, period, 0);
    GrantTimes(cfg, events, period, 0);
  }

  // ---------------------------------------------------------------- an overrun between digits

  /** Presses of a code with `noise` after the first k digits. */
  function NoisyPresses(digits: seq<u8>, k: nat, noise: seq<bool>): seq<seq<bool>>
    requires k <= |digits|
  {
    KeyPresses(digits[..k]) + [noise] + KeyPresses(digits[k..] + [K.ENTER])
  }

  /** The frames of the code with an unrecognized one after the first k digits. */
  function NoisyTyped(digits: seq<u8>, k: nat): seq<W.Frame>
    requires k <= |digits|
  {
    TypedLength(digits);
    Typed(digits)[..k] + [W.Unrecognized(34)] + Typed(digits)[k..] + [W.Enter]
  }

  /** They decode to the digits with one unrecognized frame among them, then Enter. */
  lemma NoisyFrames(digits: seq<u8>, k: nat, noise: seq<bool>)
    requires |digits| == 6 && Decimal(digits) && k <= 6 && |noise| > C.MAX_BITS
    ensures T.NoneEmpty(NoisyPresses(digits, k, noise)) && NoisyPresses(digits, k, noise)[k] == noise
    ensures Decoded(C.NewestOfEach(NoisyPresses(digits, k, noise))) == NoisyTyped(digits, k)
  {
    var presses := NoisyPresses(digits, k, noise);
    var frames := Decoded(C.NewestOfEach(presses));
    TypedLength(digits);
    assert |presses| == 8;
    forall i | 0 <= i < 8
      ensures presses[i] != []
      ensures frames[i] == NoisyTyped(digits, k)[i]
    {
      if i != k {
        var key := if i < k then digits[i] else (digits[k..] + [K.ENTER])[i - k - 1];
        assert presses[i] == K.NibbleBits(key);
        K.NibbleRoundTrip(key);
        if i < 7 {
          E.TypedAt(digits, if i < k then i else i - 1);
        }
      }
    }
  }

  /** Of such frames only Enter can unlock, and it does iff the digits are accepted. */
  lemma NoisyVerdict(cfg: Config, digits: seq<u8>, k: nat, log: seq<Fed>, now: u64)
    requires |digits| == 6 && Decimal(digits) && k <= 6
    requires FramesOf(log) == NoisyTyped(digits, k)
    requires forall i :: 0 <= i < |log| ==> log[i].unixSeconds == now
    ensures SomeUnlocked(cfg, log) <==> Accepts(cfg.hotp, cfg.secret, digits, now, cfg.skew)
  {
    TypedLength(digits);
    var frames, clocks := FramesOf(log), ClocksOf(log);
    assert |frames| == |log| == 8;
    forall i | 0 <= i < 7 ensures !UnlockedAt(cfg, log, i) {
      DecideIsVerdict(cfg, frames[..i], frames[i], clocks[i]);
      if i != k {
        E.TypedAt(digits, if i < k then i else i - 1);
      }
    }
    assert frames[..7] == Typed(digits)[..k] + [W.Unrecognized(34)] + Typed(digits)[k..];
    assert Typed(digits)[..k] + Typed(digits)[k..] == Typed(digits);
    NoiseSpoilsNothing(cfg, Typed(digits)[..k], W.Unrecognized(34), Typed(digits)[k..], W.Enter, now);
    TypedIsAttempt(digits);
    DecideIsVerdict(cfg, frames[..7], frames[7], clocks[7]);
    assert UnlockedAt(cfg, log, 7) <==> Verdict(cfg, Typed(digits), W.Enter, now).Unlocked?;
  }

  /**
   * An overrun between any two digits of a code does not make the comparison fail: there is a run
   * from boot with that overrun in which the relay goes high iff the digits are accepted.
   */
  lemma OverrunRun(cfg: Config, digits: seq<u8>, k: nat, noise: seq<bool>, now: u64) returns (loop: seq<Event>)
    requires |digits| == 6 && Decimal(digits) && k <= 6 && |noise| > C.MAX_BITS
    ensures Cadenced(loop, T.GRID, 0) && Sleeps(loop, 0)
    ensures C.Unbounded(CaptureView(loop)).closed == NoisyPresses(digits, k, noise)
    ensures LastRise(cfg, BOOT, loop).Some? <==> Accepts(cfg.hotp, cfg.secret, digits, now, cfg.skew)
  {
    NoisyFrames(digits, k, noise);
    var presses := NoisyPresses(digits, k, noise);
    var trail := T.Fresh(T.GRID, 0);
    trail := T.Type(trail, T.GRID, 0, presses);
    assert trail.stretches.closed == presses;
    loop := T.Loop(cfg, trail.events, now, T.GRID, 0);
    LogIsStretches(cfg, loop);
    NoisyVerdict(cfg, digits, k, Log(cfg, BOOT, loop), now);
    GrantIffUnlocked(cfg, BOOT, loop);
    RisesIffGrant(cfg, BOOT, loop);
  }

  /** In particular the current code still opens the box with an overrun in its midst. */
  lemma OverrunStillOpens(cfg: Config, k: nat, noise: seq<bool>, now: u64) returns (loop: seq<Event>)
    requires k <= 6 && |noise| > C.MAX_BITS
    ensures Cadenced(loop, T.GRID, 0) && Sleeps(loop, 0) && LastRise(cfg, BOOT, loop).Some?
    ensures k < |C.Unbounded(CaptureView(loop)).closed| && C.Unbounded(CaptureView(loop)).closed[k] == noise
  {
    CurrentDigitsAccepted(cfg, now);
    loop := OverrunRun(cfg, CurrentDigits(cfg, now), k, noise, now);
    NoisyFrames(CurrentDigits(cfg, now), k, noise);
  }

  // ---------------------------------------------------------------- polls too far apart

  lemma {:induction false} EdgesOfConcat(xs: seq<seq<G.Edge>>, ys: seq<seq<G.Edge>>)
    ensures G.EdgesOf(xs + ys) == G.EdgesOf(xs) + G.EdgesOf(ys)
  {
    if ys == [] {
      assert xs + ys == xs;
    } else {
      var init, last := ys[..|ys| - 1], ys[|ys| - 1];
      EdgesOfConcat(xs, init);
      G.EdgesOfSnoc(xs + init, last);
      assert xs + ys == xs + init + [last];
      ConcatAssociates(G.EdgesOf(xs), G.EdgesOf(init), last);
    }
  }

  lemma TwoThenRest(b0: seq<G.Edge>, b1: seq<G.Edge>, rest: seq<seq<G.Edge>>)
    ensures G.EdgesOf([b0, b1] + rest) == b0 + b1 + G.EdgesOf(rest)
  {
    EdgesOfConcat([b0, b1], rest);
    G.EdgesOfSnoc([], b0);
    G.EdgesOfSnoc([b0], b1);
    assert [] + [b0] == [b0] && [b0] + [b1] == [b0, b1];
  }

  /** The script's bursts: those of the first two keys, then those of the others. */
  lemma FirstTwoKeys(keys: seq<u8>, start: nat)
    requires |keys| >= 2
    ensures K.KeyBursts(keys, start) ==
      [K.NibbleBurst(K.NibbleBits(keys[0]), start), K.NibbleBurst(K.NibbleBits(keys[1]), K.KeyStart(start, 1))] +
      K.KeyBursts(keys[2..], K.KeyStart(start, 2))
  {
    forall i | 2 <= i < |keys|
      ensures K.KeyStart(start, i) == K.KeyStart(K.KeyStart(start, 2), i - 2) && keys[i] == keys[2..][i - 2]
    {}
  }

  /** The first press, and polls up to just before it would be complete. */
  lemma FirstPress(period: nat, start: nat, bits: seq<bool>) returns (trail: T.Trail)
    requires period > K.POLL_BOUND && |bits| == 4
    ensures T.Valid(trail, period, start)
    ensures trail.time == trail.poll == K.BitStart(start, 3) + C.MESSAGE_GAP - 1
    ensures trail.stretches == C.Stretches([], bits, K.BitStart(start, 3)) && trail.edges == K.NibbleBurst(bits, start)
  {
    trail := T.Fresh(period, start);
    T.NibbleTail(bits, start, 0);
    trail := T.AddEdge(trail, period, start, bits[0], start);
    trail := T.Strokes(trail, period, start, bits, start, 1);
    assert trail.stretches.open == bits && trail.edges == K.NibbleBurst(bits, start);
    trail := T.AddPoll(trail, period, start, start + 12_000);
    trail := T.AddPoll(trail, period, start, start + 18_000);
    trail := T.AddPoll(trail, period, start, start + 24_000);
    trail := T.AddPoll(trail, period, start, K.BitStart(start, 3) + C.MESSAGE_GAP - 1);
  }

  /** Two presses 42 ms apart, with polls just before the first is complete and just after the second begins. */
  lemma MergedPresses(period: nat, start: nat, first: seq<bool>, second: seq<bool>) returns (trail: T.Trail)
    requires period > K.POLL_BOUND && |first| == 4 && |second| == 4
    ensures T.Valid(trail, period, start) && T.AtRest(trail) && trail.time == K.KeyStart(start, 2)
    ensures trail.stretches.closed == [first + second]
    ensures trail.edges == K.NibbleBurst(first, start) + K.NibbleBurst(second, K.KeyStart(start, 1))
  {
    var t1 := K.KeyStart(start, 1);
    trail := FirstPress(period, start, first);
    T.NibbleTail(second, t1, 0);
    trail := T.AddEdge(trail, period, start, second[0], t1);
    trail := T.AddPoll(trail, period, start, t1);
    trail := T.Strokes(trail, period, start, second, t1, 1);
    assert trail.stretches.open == first + second;
    ConcatAssociates(K.NibbleBurst(first, start), [G.Edge(second[0], t1)], K.NibbleBurst(second, t1)[1..]);
    trail := T.Silence(trail, period, start, t1, 4);
  }

  /**
   * The 17 ms bound is sharp: for any code and any longer bound on the gap between polls, the loop
   * can make a run of the script in which the first two key presses come out as one frame of eight
   * bits.
   */
  lemma SlowerPollsMayMerge(cfg: Config, code: string, start: nat, period: nat, now: u64) returns (loop: seq<Event>)
    requires S.IsCode(code) && period > K.POLL_BOUND
    ensures Cadenced(loop, period, start) && Sleeps(loop, start)
    ensures var view := CaptureView(loop);
      && G.Paced(view, period, start)
      && G.Edges(view) == G.EdgesOf(K.KeyBursts(K.KeysForCode(code), start))
      && G.LastPoll(view, start) == K.KeyStart(start, 7)
      && |C.Frames(view)| == 6
      && C.Frames(view)[0] == K.NibbleBits(K.KeysForCode(code)[0]) + K.NibbleBits(K.KeysForCode(code)[1])
  {
    var keys := K.KeysForCode(code);
    var first, second, rest := K.NibbleBits(keys[0]), K.NibbleBits(keys[1]), keys[2..];
    var trail := MergedPresses(period, start, first, second);
    PressesAreScript(rest, K.KeyStart(start, 2));
    trail := T.Type(trail, period, start, KeyPresses(rest));
    FirstTwoKeys(keys, start);
    TwoThenRest(K.NibbleBurst(first, start), K.NibbleBurst(second, K.KeyStart(start, 1)),
      K.KeyBursts(rest, K.KeyStart(start, 2)));
    C.Conservation(trail.events);
    loop := T.Loop(cfg, trail.events, now, period, start);
  }
}
