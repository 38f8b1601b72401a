/** A code typed at the keypad, from falling edges to the relay, and from the server's PIN to the relay. */
module EndToEnd {
  import opened Wrappers
  import opened Totp
  import opened Lock
  import opened Firmware
  import opened RelayHold
  import opened WholeDevice
  import opened Segmentation
  import C = WiegandCapture
  import P = PinEntry
  import K = KeypadScript
  import S = ServerTotp
  import W = Wiegand

  /**
   * The script for `code`, started at `scriptStart`, plays into the device: its falling edges are
   * the only ones, each stamped up to `lateness` late; from `loopStart` on polls are at most 17 ms
   * less that lateness apart; and the last poll comes a message gap after the last edge.
   */
  ghost predicate Plays(code: string, scriptStart: nat, lateness: nat, events: seq<Event>, loopStart: nat) {
    S.IsCode(code) && lateness <= K.POLL_BOUND &&
    Paced(CaptureView(events), K.POLL_BOUND - lateness, loopStart) &&
    exists stamped :: SentAs(code, scriptStart, lateness, stamped, CaptureView(events), loopStart)
  }

  /** The buffer has seen the script's edges as `stamped`, and has been polled a message gap after the last. */
  ghost predicate SentAs(code: string, scriptStart: nat, lateness: nat, stamped: seq<seq<Edge>>, view: seq<C.Event>,
      loopStart: nat)
    requires S.IsCode(code)
  {
    && K.Stamped(K.KeyBursts(K.KeysForCode(code), scriptStart), stamped, lateness)
    && Edges(view) == EdgesOf(stamped)
    && !StillOpen(stamped, LastPoll(view, loopStart))
  }

  /** The captured frames are the seven key presses, bit for bit. */
  lemma CapturesKeyPresses(code: string, scriptStart: nat, lateness: nat, events: seq<Event>, loopStart: nat)
    requires Plays(code, scriptStart, lateness, events, loopStart)
    ensures C.After(CaptureView(events)) == C.EMPTY
    ensures C.Frames(CaptureView(events)) == BitsOfEach(K.KeyBursts(K.KeysForCode(code), scriptStart))
  {
    var stamped :| SentAs(code, scriptStart, lateness, stamped, CaptureView(events), loopStart);
    CapturesStamped(K.KeysForCode(code), scriptStart, lateness, stamped, CaptureView(events), loopStart);
  }

  lemma CapturesStamped(keys: seq<u8>, scriptStart: nat, lateness: nat, stamped: seq<seq<Edge>>, view: seq<C.Event>,
      loopStart: nat)
    requires lateness <= K.POLL_BOUND && Paced(view, K.POLL_BOUND - lateness, loopStart)
    requires K.Stamped(K.KeyBursts(keys, scriptStart), stamped, lateness)
    requires Edges(view) == EdgesOf(stamped) && !StillOpen(stamped, LastPoll(view, loopStart))
    ensures C.After(view) == C.EMPTY && C.Frames(view) == BitsOfEach(K.KeyBursts(keys, scriptStart))
  {
    K.StampedSpaced(keys, scriptStart, stamped, lateness);
    TimedSegmentation(view, stamped, K.POLL_BOUND - lateness, loopStart);
  }

  lemma {:induction false} TypedAt(digits: seq<u8>, i: nat)
    requires i < |digits|
    ensures |Typed(digits)| == |digits| && Typed(digits)[i] == W.Digit(digits[i])
  {
    TypedLength(digits);
    TypedLength(digits[..|digits| - 1]);
    if i < |digits| - 1 {
      TypedAt(digits[..|digits| - 1], i);
    }
  }

  /** Decoding them gives the six digits in order, then Enter. */
  lemma DecodesToCode(code: string, scriptStart: nat)
    requires S.IsCode(code)
    ensures Decoded(BitsOfEach(K.KeyBursts(K.KeysForCode(code), scriptStart))) == Typed(S.Digits(code)) + [W.Enter]
  {
    var keys, digits := K.KeysForCode(code), S.Digits(code);
    var frames := Decoded(BitsOfEach(K.KeyBursts(keys, scriptStart)));
    TypedLength(digits);
    forall i | 0 <= i < 7 ensures frames[i] == (Typed(digits) + [W.Enter])[i] {
      K.KeyBurstBits(keys, scriptStart, i);
      K.NibbleRoundTrip(keys[i]);
      if i < 6 {
        TypedAt(digits, i);
      }
    }
  }

  /** Of the seven frames only Enter can unlock, and it does iff the code is accepted at its clock reading. */
  lemma OnlyEnterDecides(cfg: Config, digits: seq<u8>, log: seq<Fed>)
    requires |digits| == P.PIN_LEN && FramesOf(log) == Typed(digits) + [W.Enter]
    ensures |log| == 7
    ensures SomeUnlocked(cfg, log) <==> Accepts(cfg.hotp, cfg.secret, digits, log[6].unixSeconds, cfg.skew)
  {
    TypedLength(digits);
    var frames, clocks := FramesOf(log), ClocksOf(log);
    assert |frames| == |log|;
    forall i | 0 <= i < 6 ensures !UnlockedAt(cfg, log, i) {
      TypedAt(digits, i);
      DecideIsVerdict(cfg, frames[..i], frames[i], clocks[i]);
    }
    assert frames[..6] == Typed(digits);
    TypedIsAttempt(digits);
    DecideIsVerdict(cfg, frames[..6], frames[6], clocks[6]);
    assert UnlockedAt(cfg, log, 6) <==> Verdict(cfg, Typed(digits), W.Enter, log[6].unixSeconds).Unlocked?;
  }

  /**
   * For every six-digit code, every start time, every stamping and every poll schedule that keeps
   * the bound: exactly the six digits then Enter reach the controller, the buffer and the entry are
   * left clean, and a code is accepted iff it matches when Enter is judged.
   */
  lemma TypedCodeOpensIffAccepted(cfg: Config, d: Device, code: string, scriptStart: nat, lateness: nat,
      events: seq<Event>, loopStart: nat)
    requires Idle(d) && Plays(code, scriptStart, lateness, events, loopStart)
    ensures FramesOf(Log(cfg, d, events)) == Typed(S.Digits(code)) + [W.Enter]
    ensures |Log(cfg, d, events)| == 7
    ensures Idle(Run(cfg, d, events))
    ensures LastGrant(cfg, d, events).Some? <==>
      Accepts(cfg.hotp, cfg.secret, S.Digits(code), Log(cfg, d, events)[6].unixSeconds, cfg.skew)
  {
    CapturesKeyPresses(code, scriptStart, lateness, events, loopStart);
    DecodesToCode(code, scriptStart);
    DeviceIsPipeline(cfg, d, events);
    var log := Log(cfg, d, events);
    OnlyEnterDecides(cfg, S.Digits(code), log);
    GrantIffUnlocked(cfg, d, events);
    EntryAppend(Typed(S.Digits(code)), W.Enter);
  }

  /** The same for the relay itself, on a locked device. */
  lemma RelayGoesHighIffAccepted(cfg: Config, d: Device, code: string, scriptStart: nat, lateness: nat,
      events: seq<Event>, loopStart: nat)
    requires Idle(d) && !d.relay && Plays(code, scriptStart, lateness, events, loopStart)
    ensures |Log(cfg, d, events)| == 7
    ensures LastRise(cfg, d, events).Some? <==>
      Accepts(cfg.hotp, cfg.secret, S.Digits(code), Log(cfg, d, events)[6].unixSeconds, cfg.skew)
  {
    TypedCodeOpensIffAccepted(cfg, d, code, scriptStart, lateness, events, loopStart);
    RisesIffGrant(cfg, d, events);
  }

  /**
   * A PIN issued by the server at `ts` opens a locked box iff some counter in the lock's window has
   * the code of the step of `ts`; in particular when the two clocks' steps differ by at most the skew.
   */
  lemma IssuedPinOpensBox(lib: S.Library, cfg: Config, ts: u64, d: Device, scriptStart: nat, lateness: nat,
      events: seq<Event>, loopStart: nat)
    requires lib.acceptsSecret(cfg.secret) && cfg.hotp == lib.hotp
    requires Idle(d) && !d.relay
    requires Plays(S.GenerateAt(lib, cfg.secret, ts).value.pin, scriptStart, lateness, events, loopStart)
    ensures |Log(cfg, d, events)| == 7
    ensures LastRise(cfg, d, events).Some? <==>
      exists counter: nat :: InWindow(Log(cfg, d, events)[6].unixSeconds, cfg.skew, counter) &&
        CodeOfStep(cfg.hotp, cfg.secret, counter) == CodeOfStep(cfg.hotp, cfg.secret, ts / STEP_SECONDS)
    ensures var tl := Log(cfg, d, events)[6].unixSeconds;
      -(cfg.skew as int) <= ts / STEP_SECONDS - tl / STEP_SECONDS <= cfg.skew ==> LastRise(cfg, d, events).Some?
  {
    var pin := S.GenerateAt(lib, cfg.secret, ts).value.pin;
    RelayGoesHighIffAccepted(cfg, d, pin, scriptStart, lateness, events, loopStart);
    var tl := Log(cfg, d, events)[6].unixSeconds;
    S.PinAcceptedIff(lib, cfg.secret, ts, tl, cfg.skew);
    if -(cfg.skew as int) <= ts / STEP_SECONDS - tl / STEP_SECONDS <= cfg.skew {
      assert InWindow(tl, cfg.skew, ts / STEP_SECONDS);
    }
  }
}
