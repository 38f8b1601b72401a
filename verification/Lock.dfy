/** Decoded frames to lock decisions. */
module Lock {
  import opened Wrappers
  import opened Wiegand
  import opened Totp
  import P = PinEntry

  datatype Outcome = Waiting | Unlocked | Rejected

  /** What the controller is built with, plus the one-time-password library it calls. */
  datatype Config = Config(hotp: Hotp, secret: Secret, skew: u8)

  /** The key a frame stands for; card reads and noise are none. */
  function KeyOf(frame: Frame): Option<P.Key> {
    match frame
    case Digit(d) => Some(P.Digit(d))
    case Cancel => Some(P.Cancel)
    case Enter => Some(P.Enter)
    case _ => None
  }

  function EntryStep(entry: P.Buffered, frame: Frame): P.Buffered {
    match KeyOf(frame)
    case Some(key) => P.Pushed(entry, key)
    case None => entry
  }

  ghost function Decide(cfg: Config, entry: P.Buffered, frame: Frame, now: u64): Outcome {
    match KeyOf(frame)
    case None => Waiting
    case Some(key) =>
      match P.Submitted(entry, key)
      case Pending => Waiting
      case Ready(code) => if Accepts(cfg.hotp, cfg.secret, code, now, cfg.skew) then Unlocked else Rejected
  }

  // ---------------------------------------------------------------- whole runs

  function KeySeq(frame: Frame): seq<P.Key> {
    match KeyOf(frame)
    case Some(key) => [key]
    case None => []
  }

  /** The keys among the frames, in order. */
  function Keys(frames: seq<Frame>): seq<P.Key> {
    if frames == [] then [] else Keys(frames[..|frames| - 1]) + KeySeq(frames[|frames| - 1])
  }

  function EntryAfter(frames: seq<Frame>): P.Buffered {
    if frames == [] then [] else EntryStep(EntryAfter(frames[..|frames| - 1]), frames[|frames| - 1])
  }

  ghost function OutcomeAt(cfg: Config, frames: seq<Frame>, clocks: seq<u64>, i: nat): Outcome
    requires i < |frames| == |clocks|
  {
    Decide(cfg, EntryAfter(frames[..i]), frames[i], clocks[i])
  }

  lemma KeysAppend(frames: seq<Frame>, frame: Frame)
    ensures Keys(frames + [frame]) == Keys(frames) + KeySeq(frame)
  {
    assert (frames + [frame])[..|frames|] == frames;
  }

  /** What one more frame does to the digits since the last Cancel or Enter. */
  lemma DigitsByFrame(frames: seq<Frame>, frame: Frame)
    ensures P.DigitsSince(Keys([])) == []
    ensures P.DigitsSince(Keys(frames + [frame])) ==
      if frame.Digit? then P.DigitsSince(Keys(frames)) + [frame.d]
      else if frame.Cancel? || frame.Enter? then []
      else P.DigitsSince(Keys(frames))
  {
    KeysAppend(frames, frame);
    if KeyOf(frame).Some? {
      P.HistoryAppend(Keys(frames), KeyOf(frame).value);
    } else {
      assert Keys(frames) + [] == Keys(frames);
    }
  }

  /** Frames that are no key leave no trace. */
  lemma {:induction false} EntryIsKeyHistory(frames: seq<Frame>)
    ensures EntryAfter(frames) == P.After(Keys(frames))
  {
    if frames != [] {
      var init, last := frames[..|frames| - 1], frames[|frames| - 1];
      EntryIsKeyHistory(init);
      if KeyOf(last).Some? {
        P.HistoryAppend(Keys(init), KeyOf(last).value);
      } else {
        assert Keys(frames) == Keys(init);
      }
    }
  }

  /** What Enter would submit after `frames`: the last six digits, if their count allows. */
  function Attempt(frames: seq<Frame>): P.Submission {
    P.OnEnter(Keys(frames))
  }

  /** The decision on `frame`, from the frames before it alone. */
  ghost function Verdict(cfg: Config, before: seq<Frame>, frame: Frame, now: u64): Outcome {
    if !frame.Enter? || Attempt(before).Pending? then Waiting
    else if Accepts(cfg.hotp, cfg.secret, Attempt(before).code, now, cfg.skew) then Unlocked
    else Rejected
  }

  lemma DecideIsVerdict(cfg: Config, before: seq<Frame>, frame: Frame, now: u64)
    ensures Decide(cfg, EntryAfter(before), frame, now) == Verdict(cfg, before, frame, now)
  {
    EntryIsKeyHistory(before);
    P.EnterClosedForm(Keys(before));
  }

  /**
   * Frame i unlocks iff it is Enter, the digits since the last Cancel or Enter are a positive
   * multiple of six, and the last six match a code in the window; Rejected is exactly the
   * non-matching case.
   */
  lemma LockSafety(cfg: Config, frames: seq<Frame>, clocks: seq<u64>, i: nat)
    requires i < |frames| == |clocks|
    ensures var digits := P.DigitsSince(Keys(frames[..i]));
      var submits := frames[i].Enter? && |digits| > 0 && |digits| % 6 == 0;
      && (OutcomeAt(cfg, frames, clocks, i).Unlocked? <==>
            submits && Accepts(cfg.hotp, cfg.secret, digits[|digits| - 6..], clocks[i], cfg.skew))
      && (OutcomeAt(cfg, frames, clocks, i).Rejected? <==>
            submits && !Accepts(cfg.hotp, cfg.secret, digits[|digits| - 6..], clocks[i], cfg.skew))
  {
    DecideIsVerdict(cfg, frames[..i], frames[i], clocks[i]);
  }

  /** The frames of digits typed one after the other. */
  function Typed(digits: seq<u8>): seq<Frame> {
    if digits == [] then [] else Typed(digits[..|digits| - 1]) + [Digit(digits[|digits| - 1])]
  }

  lemma {:induction false} TypedLength(digits: seq<u8>)
    ensures |Typed(digits)| == |digits|
  {
    if digits != [] {
      TypedLength(digits[..|digits| - 1]);
    }
  }

  lemma OneMoreTyped(frames: seq<Frame>, d: u8)
    ensures P.DigitsSince(Keys(frames + [Digit(d)])) == P.DigitsSince(Keys(frames)) + [d]
  {
    KeysAppend(frames, Digit(d));
    P.HistoryAppend(Keys(frames), P.Digit(d));
  }

  lemma {:induction false} TypedIsDigits(digits: seq<u8>)
    ensures P.DigitsSince(Keys(Typed(digits))) == digits
  {
    if digits != [] {
      var init, last := digits[..|digits| - 1], digits[|digits| - 1];
      TypedIsDigits(init);
      OneMoreTyped(Typed(init), last);
      assert digits == init + [last];
    }
  }

  /** Six digits typed into a fresh entry are what Enter submits. */
  lemma TypedIsAttempt(digits: seq<u8>)
    requires |digits| == P.PIN_LEN
    ensures Attempt(Typed(digits)) == P.Ready(digits)
  {
    TypedIsDigits(digits);
  }

  // ---------------------------------------------------------------- the objects

  /** The relay pin; the ghost counters record the controller's orders. */
  class BoltActuator {
    var high: bool
    ghost var unlockCalls: nat
    ghost var lockCalls: nat

    constructor ()
      ensures !high && unlockCalls == 0 && lockCalls == 0
    {
      high := false;
      unlockCalls := 0;
      lockCalls := 0;
    }

    method Unlock()
      modifies this
      ensures high && unlockCalls == old(unlockCalls) + 1 && lockCalls == old(lockCalls)
    {
      high := true;
      unlockCalls := unlockCalls + 1;
    }

    method Lock()
      modifies this
      ensures !high && lockCalls == old(lockCalls) + 1 && unlockCalls == old(unlockCalls)
    {
      high := false;
      lockCalls := lockCalls + 1;
    }
  }

  class LockController {
    const cfg: Config
    const entry: P.PinEntry
    ghost var frames: seq<Frame>

    ghost predicate Valid()
      reads this, entry, entry.buffer
    {
      entry.Valid() && entry.history == Keys(frames)
    }

    constructor (cfg: Config)
      ensures Valid() && frames == [] && this.cfg == cfg
      ensures fresh(entry) && fresh(entry.buffer)
    {
      this.cfg := cfg;
      var e := new P.PinEntry();
      entry := e;
      frames := [];
    }

    /** The outcome over everything fed so far; the controller never locks, and unlocks only with Unlocked. */
    method OnFrame(frame: Frame, unixSeconds: u64, actuator: BoltActuator) returns (outcome: Outcome)
      requires Valid()
      modifies this`frames, entry, entry.buffer, actuator
      ensures Valid() && entry.buffer == old(entry.buffer)
      ensures frames == old(frames) + [frame]
      ensures outcome == Verdict(cfg, old(frames), frame, unixSeconds)
      ensures outcome.Unlocked? ==>
        actuator.high && actuator.unlockCalls == old(actuator.unlockCalls) + 1 &&
          actuator.lockCalls == old(actuator.lockCalls)
      ensures !outcome.Unlocked? ==> unchanged(actuator)
    {
      ghost var before := frames;
      KeysAppend(before, frame);
      frames := frames + [frame];
      var key := KeyOf(frame);
      if key.None? {
        return Waiting;
      }
      assert KeySeq(frame) == [key.value];
      var submission := entry.Push(key.value);
      assert submission == if frame.Enter? then Attempt(before) else P.Pending;
      match submission {
        case Pending =>
          outcome := Waiting;
        case Ready(code) =>
          var matched := Matches(cfg.hotp, cfg.secret, code, unixSeconds, cfg.skew);
          if matched {
            actuator.Unlock();
            outcome := Unlocked;
          } else {
            outcome := Rejected;
          }
      }
    }
  }
}
