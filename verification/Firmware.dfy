/** The main loop: polls, decisions and the relay with its re-lock deadline. Times are microseconds. */
module Firmware {
  import opened Wrappers
  import opened Wiegand
  import opened Lock
  import C = WiegandCapture
  import P = PinEntry

  const UNLOCK_DURATION: nat := 5_000_000

  /** How long the loop sleeps, at least, at the end of every iteration. */
  const POLL_INTERVAL: nat := 5_000

  /**
   * A falling edge, or one loop iteration with its instants: when it polls the buffer, the wall
   * clock given to the controller, when the controller drives the relay high (if it does), when the
   * loop then sets the deadline, when it checks the deadline, and when it drives the relay low (if
   * it does).
   */
  datatype Event =
    | Edge(bit: bool, at: nat)
    | Iteration(takeAt: nat, unixSeconds: u64, unlockAt: nat, setAt: nat, checkAt: nat, lockAt: nat)

  /** `unlockCalls` counts the orders the controller has given the actuator. */
  datatype Device = Device(capture: C.Capture, entry: P.Buffered, relay: bool, relockAt: Option<nat>, unlockCalls: nat)

  const BOOT: Device := Device(C.EMPTY, [], false, None, 0)

  /** The frame an iteration decodes, if the buffer holds a finished one. */
  function FrameOf(d: Device, e: Event): Option<Frame> {
    if e.Iteration? && C.Completed(d.capture, e.takeAt) then Some(DecodeFrame(d.capture.bits)) else None
  }

  ghost function OutcomeOf(cfg: Config, d: Device, e: Event): Outcome {
    if FrameOf(d, e).Some? then Decide(cfg, d.entry, FrameOf(d, e).value, e.unixSeconds) else Waiting
  }

  /** Feeding one frame to the controller and acting on its outcome. */
  ghost function Judged(cfg: Config, d: Device, frame: Frame, unixSeconds: u64, setAt: nat): Device {
    var granted := Decide(cfg, d.entry, frame, unixSeconds).Unlocked?;
    Device(d.capture, EntryStep(d.entry, frame), d.relay || granted,
      if granted then Some(setAt + UNLOCK_DURATION) else d.relockAt,
      d.unlockCalls + if granted then 1 else 0)
  }

  /** First half of an iteration: poll the buffer and judge the frame, if there is one. */
  ghost function Handled(cfg: Config, d: Device, e: Event): Device
    requires e.Iteration?
  {
    match FrameOf(d, e)
    case None => d
    case Some(frame) => Judged(cfg, d.(capture := C.EMPTY), frame, e.unixSeconds, e.setAt)
  }

  /** Second half: re-lock once the deadline has passed. */
  function Relocked(d: Device, checkAt: nat): Device {
    if d.relockAt.Some? && checkAt >= d.relockAt.value then d.(relay := false, relockAt := None) else d
  }

  ghost function StepDevice(cfg: Config, d: Device, e: Event): Device {
    match e
    case Edge(bit, at) => d.(capture := C.PushBit(d.capture, bit, at))
    case Iteration(_, _, _, _, checkAt, _) => Relocked(Handled(cfg, d, e), checkAt)
  }

  ghost function Run(cfg: Config, d: Device, events: seq<Event>): Device {
    if events == [] then d else StepDevice(cfg, Run(cfg, d, events[..|events| - 1]), events[|events| - 1])
  }

  // ---------------------------------------------------------------- the pipeline

  /** What the capture buffer sees of the events. */
  function CaptureEvent(e: Event): C.Event {
    match e
    case Edge(bit, at) => C.Pulse(bit, at)
    case Iteration(takeAt, _, _, _, _, _) => C.Poll(takeAt)
  }

  function CaptureView(events: seq<Event>): seq<C.Event> {
    if events == [] then [] else CaptureView(events[..|events| - 1]) + [CaptureEvent(events[|events| - 1])]
  }

  /** A frame fed to the controller, the wall clock it was judged by and when the deadline would be set. */
  datatype Fed = Fed(frame: Frame, unixSeconds: u64, setAt: nat)

  ghost function FedBy(d: Device, e: Event): seq<Fed> {
    if FrameOf(d, e).Some? then [Fed(FrameOf(d, e).value, e.unixSeconds, e.setAt)] else []
  }

  ghost function Log(cfg: Config, d: Device, events: seq<Event>): seq<Fed> {
    if events == [] then []
    else Log(cfg, d, events[..|events| - 1]) + FedBy(Run(cfg, d, events[..|events| - 1]), events[|events| - 1])
  }

  function FramesOf(log: seq<Fed>): seq<Frame> {
    seq(|log|, i requires 0 <= i < |log| => log[i].frame)
  }

  function ClocksOf(log: seq<Fed>): seq<u64> {
    seq(|log|, i requires 0 <= i < |log| => log[i].unixSeconds)
  }

  function Decoded(frames: seq<seq<bool>>): seq<Frame> {
    seq(|frames|, i requires 0 <= i < |frames| => DecodeFrame(frames[i]))
  }

  /** A device whose capture buffer is empty and whose entry is reset; the relay may be in use. */
  predicate Idle(d: Device) {
    d.capture == C.EMPTY && d.entry == []
  }

  lemma LogAppend(log: seq<Fed>, fed: Fed)
    ensures FramesOf(log + [fed]) == FramesOf(log) + [fed.frame]
    ensures ClocksOf(log + [fed]) == ClocksOf(log) + [fed.unixSeconds]
  {}

  lemma EntryAppend(frames: seq<Frame>, frame: Frame)
    ensures EntryAfter(frames + [frame]) == EntryStep(EntryAfter(frames), frame)
  {
    assert (frames + [frame])[..|frames|] == frames;
  }

  lemma DecodedAppend(frames: seq<seq<bool>>, bits: seq<bool>)
    ensures Decoded(frames + [bits]) == Decoded(frames) + [DecodeFrame(bits)]
  {}

  /** The device is the composition of its stages: capture, decoding, entry. */
  lemma {:induction false} DeviceIsPipeline(cfg: Config, d: Device, events: seq<Event>)
    requires Idle(d)
    ensures Run(cfg, d, events).capture == C.After(CaptureView(events))
    ensures FramesOf(Log(cfg, d, events)) == Decoded(C.Frames(CaptureView(events)))
    ensures Run(cfg, d, events).entry == EntryAfter(FramesOf(Log(cfg, d, events)))
  {
    if events != [] {
      var init, e := events[..|events| - 1], events[|events| - 1];
      DeviceIsPipeline(cfg, d, init);
      var before, view := Run(cfg, d, init), CaptureView(init);
      assert CaptureView(events)[..|CaptureView(events)| - 1] == view;
      if FrameOf(before, e).Some? {
        LogAppend(Log(cfg, d, init), Fed(FrameOf(before, e).value, e.unixSeconds, e.setAt));
        EntryAppend(FramesOf(Log(cfg, d, init)), FrameOf(before, e).value);
        DecodedAppend(C.Frames(view), before.capture.bits);
      } else {
        assert Log(cfg, d, events) == Log(cfg, d, init);
        assert C.Frames(CaptureView(events)) == C.Frames(view);
      }
    }
  }

  /** Judging a frame, in terms of the frames fed before it. */
  lemma JudgedByVerdict(cfg: Config, d: Device, before: seq<Frame>, frame: Frame, unixSeconds: u64, setAt: nat)
    requires d.entry == EntryAfter(before)
    ensures var granted := Verdict(cfg, before, frame, unixSeconds).Unlocked?;
      Judged(cfg, d, frame, unixSeconds, setAt) == Device(d.capture, EntryAfter(before + [frame]), d.relay || granted,
        if granted then Some(setAt + UNLOCK_DURATION) else d.relockAt,
        d.unlockCalls + if granted then 1 else 0)
  {
    EntryAppend(before, frame);
    DecideIsVerdict(cfg, before, frame, unixSeconds);
  }

  // ---------------------------------------------------------------- the loop

  /** Each method is one transition of the device; `Run` composes them. */
  class MainLoop {
    const capture: C.CaptureState
    const controller: LockController
    const actuator: BoltActuator
    var relockAt: Option<nat>

    ghost predicate Valid()
      reads this, capture, controller, controller.entry, controller.entry.buffer, actuator
    {
      capture.Valid() && controller.Valid() && actuator.high == relockAt.Some?
    }

    ghost function View(): Device
      reads this, capture, controller, actuator
    {
      Device(C.Capture(capture.bits, capture.lastEdge), EntryAfter(controller.frames), actuator.high, relockAt,
        actuator.unlockCalls)
    }

    constructor (cfg: Config)
      ensures Valid() && controller.cfg == cfg && View() == BOOT
      ensures fresh(capture) && fresh(controller) && fresh(controller.entry) && fresh(controller.entry.buffer) &&
        fresh(actuator)
    {
      var cs := new C.CaptureState();
      capture := cs;
      var ba := new BoltActuator();
      actuator := ba;
      var lc := new LockController(cfg);
      controller := lc;
      relockAt := None;
    }

    /** The interrupt handler, between two iterations. */
    method OnEdge(bit: bool, at: nat)
      requires Valid()
      modifies capture
      ensures Valid() && View() == StepDevice(controller.cfg, old(View()), Edge(bit, at))
    {
      capture.PushBit(bit, at);
    }

    /** `unlockAt` and `lockAt` are when the orders to the relay happen; the program does not read them. */
    method Iterate(takeAt: nat, unixSeconds: u64, ghost unlockAt: nat, setAt: nat, checkAt: nat, ghost lockAt: nat)
      requires Valid()
      modifies this, capture, controller, controller.entry, controller.entry.buffer, actuator
      ensures Valid()
      ensures View() ==
        StepDevice(controller.cfg, old(View()), Iteration(takeAt, unixSeconds, unlockAt, setAt, checkAt, lockAt))
    {
      var bits := capture.TakeCompletedFrame(takeAt);
      if bits.Some? {
        var frame := DecodeFrame(bits.value);
        OnFrame(frame, unixSeconds, setAt);
      }
      CheckRelock(checkAt);
    }

    method OnFrame(frame: Frame, unixSeconds: u64, setAt: nat)
      requires Valid()
      modifies this`relockAt, controller, controller.entry, controller.entry.buffer, actuator
      ensures Valid() && View() == Judged(controller.cfg, old(View()), frame, unixSeconds, setAt)
      ensures controller.entry.buffer == old(controller.entry.buffer)
    {
      JudgedByVerdict(controller.cfg, View(), controller.frames, frame, unixSeconds, setAt);
      var outcome := controller.OnFrame(frame, unixSeconds, actuator);
      if outcome.Unlocked? {
        relockAt := Some(setAt + UNLOCK_DURATION);
      }
    }

    method CheckRelock(checkAt: nat)
      requires Valid()
      modifies this`relockAt, actuator
      ensures Valid() && View() == Relocked(old(View()), checkAt)
    {
      if relockAt.Some? && checkAt >= relockAt.value {
        actuator.Lock();
        relockAt := None;
      }
    }
  }
}
