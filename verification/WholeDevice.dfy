/** The device over arbitrary runs: what its relay says about the edges, codes and clocks that went in. */
module WholeDevice {
  import opened Wrappers
  import opened Wiegand
  import opened Totp
  import opened Lock
  import opened Firmware
  import opened RelayHold
  import C = WiegandCapture
  import P = PinEntry

  ghost predicate UnlockedAt(cfg: Config, log: seq<Fed>, i: int) {
    0 <= i < |log| && OutcomeAt(cfg, FramesOf(log), ClocksOf(log), i).Unlocked?
  }

  /** Some frame of the log was judged Unlocked. */
  ghost predicate SomeUnlocked(cfg: Config, log: seq<Fed>) {
    exists i :: UnlockedAt(cfg, log, i)
  }

  lemma OutcomesAppend(cfg: Config, log: seq<Fed>, fed: Fed)
    ensures forall i :: i != |log| ==> (UnlockedAt(cfg, log + [fed], i) <==> UnlockedAt(cfg, log, i))
    ensures UnlockedAt(cfg, log + [fed], |log|) <==>
      Decide(cfg, EntryAfter(FramesOf(log)), fed.frame, fed.unixSeconds).Unlocked?
  {
    LogAppend(log, fed);
    var more := log + [fed];
    forall i | 0 <= i < |log|
      ensures OutcomeAt(cfg, FramesOf(more), ClocksOf(more), i) == OutcomeAt(cfg, FramesOf(log), ClocksOf(log), i)
    {
      assert FramesOf(more)[..i] == FramesOf(log)[..i];
    }
    assert FramesOf(more)[..|log|] == FramesOf(log);
  }

  /** One step of the log: what it adds, and whether that was an accepted code. */
  lemma LogStep(cfg: Config, d: Device, events: seq<Event>)
    requires Idle(d) && events != []
    ensures var init, e := events[..|events| - 1], events[|events| - 1];
      var before, log := Run(cfg, d, init), Log(cfg, d, init);
      if FrameOf(before, e).Some? then
        && Log(cfg, d, events) == log + [Fed(FrameOf(before, e).value, e.unixSeconds, e.setAt)]
        && (forall i :: i != |log| ==> (UnlockedAt(cfg, Log(cfg, d, events), i) <==> UnlockedAt(cfg, log, i)))
        && (UnlockedAt(cfg, Log(cfg, d, events), |log|) <==> OutcomeOf(cfg, before, e).Unlocked?)
      else
        Log(cfg, d, events) == log
  {
    var init, e := events[..|events| - 1], events[|events| - 1];
    var before := Run(cfg, d, init);
    DeviceIsPipeline(cfg, d, init);
    if FrameOf(before, e).Some? {
      OutcomesAppend(cfg, Log(cfg, d, init), Fed(FrameOf(before, e).value, e.unixSeconds, e.setAt));
    } else {
      assert Log(cfg, d, init) + [] == Log(cfg, d, init);
    }
  }

  lemma {:induction false} GrantIffUnlocked(cfg: Config, d: Device, events: seq<Event>)
    requires Idle(d)
    ensures LastGrant(cfg, d, events).Some? <==> SomeUnlocked(cfg, Log(cfg, d, events))
  {
    if events != [] {
      GrantIffUnlocked(cfg, d, events[..|events| - 1]);
      LogStep(cfg, d, events);
    }
  }

  /** The most recent grant is the latest of the accepted codes in the log. */
  lemma {:induction false} GrantIsLatest(cfg: Config, events: seq<Event>, period: nat, start: nat)
    requires Cadenced(events, period, start)
    ensures forall i :: 0 <= i < |Log(cfg, BOOT, events)| ==> Log(cfg, BOOT, events)[i].setAt <= LastEnd(events, start)
    ensures var log, grant := Log(cfg, BOOT, events), LastGrant(cfg, BOOT, events);
      && (grant.Some? ==> exists i :: UnlockedAt(cfg, log, i) && log[i].setAt == grant.value.setAt)
      && (forall i :: UnlockedAt(cfg, log, i) ==> grant.Some? && log[i].setAt <= grant.value.setAt)
  {
    if events != [] {
      var init := events[..|events| - 1];
      GrantIsLatest(cfg, init, period, start);
      LogStep(cfg, BOOT, events);
      ChecksInOrder(init, period, start);
      if LastGrant(cfg, BOOT, init).Some? {
        var i :| UnlockedAt(cfg, Log(cfg, BOOT, init), i) &&
          Log(cfg, BOOT, init)[i].setAt == LastGrant(cfg, BOOT, init).value.setAt;
        assert UnlockedAt(cfg, Log(cfg, BOOT, events), i);
      }
    }
  }

  ghost function Unlocks(cfg: Config, log: seq<Fed>): set<int> {
    set i | 0 <= i < |log| && UnlockedAt(cfg, log, i)
  }

  lemma UnlocksAppend(cfg: Config, log: seq<Fed>, fed: Fed)
    ensures |Unlocks(cfg, log + [fed])| == |Unlocks(cfg, log)| + if UnlockedAt(cfg, log + [fed], |log|) then 1 else 0
  {
    OutcomesAppend(cfg, log, fed);
    var added: set<int> := if UnlockedAt(cfg, log + [fed], |log|) then {|log|} else {};
    assert Unlocks(cfg, log + [fed]) == Unlocks(cfg, log) + added;
  }

  /** The controller has ordered exactly as many unlocks as frames were judged Unlocked. */
  lemma {:induction false} UnlockCallsAreUnlocks(cfg: Config, events: seq<Event>)
    ensures Run(cfg, BOOT, events).unlockCalls == |Unlocks(cfg, Log(cfg, BOOT, events))|
  {
    if events != [] {
      var init, e := events[..|events| - 1], events[|events| - 1];
      UnlockCallsAreUnlocks(cfg, init);
      LogStep(cfg, BOOT, events);
      var before := Run(cfg, BOOT, init);
      if FrameOf(before, e).Some? {
        UnlocksAppend(cfg, Log(cfg, BOOT, init), Fed(FrameOf(before, e).value, e.unixSeconds, e.setAt));
      }
    }
  }

  // ---------------------------------------------------------------- from edges to the relay

  /** The frames the edges of a run come to: the newest 34 bits of each stretch, decoded. */
  function StretchFrames(events: seq<Event>): seq<Frame> {
    Decoded(C.NewestOfEach(C.Unbounded(CaptureView(events)).closed))
  }

  /** Frame i is an Enter after a positive multiple of six digits whose last six match a code at `now`. */
  ghost predicate Opens(cfg: Config, frames: seq<Frame>, i: nat, now: u64)
    requires i < |frames|
  {
    var digits := P.DigitsSince(Keys(frames[..i]));
    && frames[i].Enter? && P.Submits(digits)
    && Accepts(cfg.hotp, cfg.secret, digits[|digits| - P.PIN_LEN..], now, cfg.skew)
  }

  /** Every stretch of edges reaches the controller as one frame. */
  lemma LogIsStretches(cfg: Config, events: seq<Event>)
    ensures FramesOf(Log(cfg, BOOT, events)) == StretchFrames(events)
    ensures |Log(cfg, BOOT, events)| == |StretchFrames(events)|
  {
    DeviceIsPipeline(cfg, BOOT, events);
    C.Conservation(CaptureView(events));
    assert |FramesOf(Log(cfg, BOOT, events))| == |Log(cfg, BOOT, events)|;
  }

  lemma UnlockedIffOpens(cfg: Config, log: seq<Fed>, i: nat)
    requires i < |log|
    ensures UnlockedAt(cfg, log, i) <==> Opens(cfg, FramesOf(log), i, log[i].unixSeconds)
  {
    LockSafety(cfg, FramesOf(log), ClocksOf(log), i);
  }

  lemma RelayIffUnlocked(cfg: Config, events: seq<Event>, period: nat, start: nat)
    requires Cadenced(events, period, start)
    ensures var log := Log(cfg, BOOT, events);
      Run(cfg, BOOT, events).relay <==>
        exists i :: UnlockedAt(cfg, log, i) && LastCheck(events, start) < log[i].setAt + UNLOCK_DURATION
  {
    RelayHighIff(cfg, events, period, start);
    GrantIsLatest(cfg, events, period, start);
  }

  /**
   * For any edges and iterations from boot: after the last iteration the relay is high iff some
   * stretch of edges decodes to a frame that opens the lock, and its deadline, 5 s after it was set,
   * had not passed at the last check.
   */
  lemma RelayIffStretchOpens(cfg: Config, events: seq<Event>, period: nat, start: nat)
    requires Cadenced(events, period, start)
    ensures |Log(cfg, BOOT, events)| == |StretchFrames(events)|
    ensures Run(cfg, BOOT, events).relay <==>
      exists i :: 0 <= i < |StretchFrames(events)|
        && Opens(cfg, StretchFrames(events), i, Log(cfg, BOOT, events)[i].unixSeconds)
        && LastCheck(events, start) < Log(cfg, BOOT, events)[i].setAt + 5_000_000
  {
    LogIsStretches(cfg, events);
    RelayIffUnlocked(cfg, events, period, start);
    var log := Log(cfg, BOOT, events);
    forall i | 0 <= i < |log| ensures UnlockedAt(cfg, log, i) <==>
      Opens(cfg, StretchFrames(events), i, log[i].unixSeconds) {
      UnlockedIffOpens(cfg, log, i);
    }
  }

  // ---------------------------------------------------------------- noise

  lemma KeysConcatStep(xs: seq<Frame>, ys: seq<Frame>, y: Frame)
    requires Keys(xs + ys) == Keys(xs) + Keys(ys)
    ensures Keys(xs + (ys + [y])) == Keys(xs) + Keys(ys + [y])
  {
    KeysAppend(xs + ys, y);
    KeysAppend(ys, y);
    ConcatAssociates(xs, ys, [y]);
    ConcatAssociates(Keys(xs), Keys(ys), KeySeq(y));
  }

  lemma {:induction false} KeysConcat(xs: seq<Frame>, ys: seq<Frame>)
    ensures Keys(xs + ys) == Keys(xs) + Keys(ys)
  {
    if ys == [] {
      assert xs + ys == xs;
    } else {
      KeysConcat(xs, ys[..|ys| - 1]);
      KeysConcatStep(xs, ys[..|ys| - 1], ys[|ys| - 1]);
      assert ys[..|ys| - 1] + [ys[|ys| - 1]] == ys;
    }
  }

  /** A frame that is no key leaves the key history as if it had not come. */
  lemma NoiseKeepsKeys(before: seq<Frame>, noise: Frame, after: seq<Frame>)
    requires KeyOf(noise).None?
    ensures Keys(before + [noise] + after) == Keys(before + after)
  {
    KeysConcat(before + [noise], after);
    KeysConcat(before, after);
    KeysAppend(before, noise);
  }

  /** An overrun stretch comes out of the buffer as 34 bits, which is noise. */
  lemma OverrunIsNoise(events: seq<C.Event>, i: nat)
    requires i < |C.Unbounded(events).closed| && |C.Unbounded(events).closed[i]| >= C.MAX_BITS
    ensures i < |C.Frames(events)| && DecodeFrame(C.Frames(events)[i]) == Unrecognized(34)
  {
    C.Conservation(events);
  }

  /** A frame that is no key changes no later verdict, wherever it falls. */
  lemma NoiseSpoilsNothing(cfg: Config, before: seq<Frame>, noise: Frame, after: seq<Frame>, frame: Frame, now: u64)
    requires KeyOf(noise).None?
    ensures Verdict(cfg, before + [noise] + after, frame, now) == Verdict(cfg, before + after, frame, now)
  {
    NoiseKeepsKeys(before, noise, after);
  }

  lemma SplitAt(frames: seq<Frame>, i: nat)
    requires i < |frames|
    ensures frames == frames[..i] + [frames[i]] + frames[i + 1..]
  {}

  /** After an overrun every verdict is what it would be had the overrun stretch not been there. */
  lemma OverrunSpoilsNothing(cfg: Config, events: seq<Event>, i: nat, frame: Frame, now: u64)
    requires i < |C.Unbounded(CaptureView(events)).closed|
    requires |C.Unbounded(CaptureView(events)).closed[i]| >= C.MAX_BITS
    ensures i < |StretchFrames(events)|
    ensures Verdict(cfg, StretchFrames(events), frame, now) ==
      Verdict(cfg, StretchFrames(events)[..i] + StretchFrames(events)[i + 1..], frame, now)
  {
    var view := CaptureView(events);
    C.Conservation(view);
    OverrunIsNoise(view, i);
    assert StretchFrames(events)[i] == DecodeFrame(C.Frames(view)[i]);
    DropNoise(cfg, StretchFrames(events), i, frame, now);
  }

  lemma DropNoise(cfg: Config, frames: seq<Frame>, i: nat, frame: Frame, now: u64)
    requires i < |frames| && KeyOf(frames[i]).None?
    ensures Verdict(cfg, frames, frame, now) == Verdict(cfg, frames[..i] + frames[i + 1..], frame, now)
  {
    SplitAt(frames, i);
    NoiseSpoilsNothing(cfg, frames[..i], frames[i], frames[i + 1..], frame, now);
  }
}
