# Verified model of the lock and its server

A Dafny model of the two parts of the system whose correctness depends on timing and interleaving,
with proofs about all their runs.

**Single-flight introspection.** Concurrent requests that carry the same token elect a leader, which
makes one upstream call and broadcasts the outcome to its followers. `SingleFlight.dfy` gives the
shared table as a class (one method per critical section) and the protocol as a transition system
over those sections: any number of requests and tokens, any interleaving, cancellation at every
await. An upstream call is split into its start, the moment the authorization server decides
(`Settle`), and its return. `SingleFlightInvariant.dfy` proves the invariant by rely/guarantee: a
step keeps its own request's facts, and everything else withstands the `Interference` it may cause.
`SingleFlightTheorems.dfy` and `Staleness.dfy` state what callers may rely on. `Broadcast.dfy` is the
contract of the channel, `Introspection.dfy` the evaluation of one reply.

**The offline lock.** Falling edges are collected in a bounded buffer (`WiegandCapture.dfy`),
segmented by silence (`Segmentation.dfy`), decoded (`Wiegand.dfy`), gathered into a PIN
(`PinEntry.dfy`), checked against a window of time steps (`Totp.dfy`, `Lock.dfy`) and turned into a
relay with a re-lock deadline (`Firmware.dfy`). `RelayHold.dfy` says how long the relay stays high,
`WholeDevice.dfy` what it says about arbitrary runs from boot. `KeypadScript.dfy` is the encoder the
pipeline must invert, `ServerTotp.dfy` the server's side of the code, `EndToEnd.dfy` the
composition. `Scenarios.dfy`, on top of `Schedule.dfy`, constructs runs that meet the theorems'
hypotheses and reach their bounds; the loop can make all of them, its 5 ms sleep between iterations
included. Stateful parts are classes whose methods are proved equal to step
functions on values; the theorems about runs are about those functions. The one-time password is an
arbitrary function of secret and counter (section 4.2 of RFC 6238, section 5.3 of RFC 4226), reduced
to six digits.

`dafny verify dfyconfig.toml` checks the whole project.

## Findings

- *Revocation on the very next request.* The comment at `totp-server/src/auth/introspection.rs:26-28`
  says revocation takes effect on the very next request. It can be missed:
  `RevocationCanBeMissed` exhibits, for any vouching reply, a run in which a request that arrives
  after the authorization server decided is answered Ok from that decision.
  `StaleIffAnsweredUnpublished` gives the exact condition: on arrival there is an in-flight call for
  the token whose answer is decided but not yet published. In every other case the outcome was
  decided after the request arrived. What holds without exception is the weaker `NoCaching`.
- *Overrun frames.* The comment at `lock-client/firmware/src/wiegand_capture.rs:19-22` says an overrun
  makes the later code comparison fail. In the code every stretch of 34 bits or more comes out as
  noise (`OverrunIsNoise`), and every verdict is what it would be had that stretch not been there
  (`OverrunSpoilsNothing`): the comparison fails iff it would have failed anyway. `OverrunStillOpens`
  exhibits, for any secret, clock and overrun, a run from boot with the overrun between the digits of
  the current code that still opens the box.
- *Poll pace.* `lock-client/firmware/src/main.rs:50-56` asks for polls that are short compared to the
  message gap. With the script's 42 ms of silence the bound is exactly 17 ms, less how late the
  interrupt handler may stamp an edge: polls that keep it never merge two key presses
  (`TimedSegmentation`, `StampedSpaced`), and for any code and any longer bound the loop can make a run
  of the script whose first two presses come out as one frame of eight bits (`SlowerPollsMayMerge`).
- *Hold time.* `lock-client/firmware/sim/run_sim_tests.py:8-9` describes the relay as held for exactly
  5 s. From the order that raises it to the fall, the code holds it for at least 5 s and less than 5 s
  plus one loop period plus the two delays inside an iteration: from the order to the setting of the
  deadline, and from the check to the fall (`HoldTime`). It is exactly 5 s iff neither delay is felt
  and some iteration checks at the very instant of the deadline (`HeldExactlyIff`). For every loop
  period of at least 6 ms (the 5 ms sleep and 1 ms of work) and every delay shorter than it, the loop
  can make a run released that much later (`ReleaseMayBeLate`).

## Model

| member | source | states |
|---|---|---|
| Introspection.OkIffVouched | totp-server/src/auth/introspection.rs:163-235 | never fail open: a reply becomes Ok for a user iff it has a success status, parses, is active, unexpired, names the audience and carries that subject |
| Introspection.ErrIffSaid | totp-server/src/auth/introspection.rs:163-235 | each error comes out exactly for its replies: Unauthorized iff a 2xx body is inactive or expired, Forbidden iff it is live but the audience is absent or other, unavailable, with its reason, iff the server was unreachable, the status not 2xx, the body unparsable, or the subject missing from an otherwise good body |
| Introspection.AudienceNames | totp-server/src/auth/introspection.rs:75-82 | an audience names the server iff it is that name or a list with it |
| Broadcast.ReadsFirstUnread | totp-server/src/auth/introspection.rs:137-144 | a subscriber reads the first message sent after it subscribed, or lags if more than the capacity have been sent; closing takes no message away |
| SingleFlight.InflightTable.Join | totp-server/src/auth/introspection.rs:124-135 | one critical section: subscribe to the entry of the hash, or insert a new channel and lead |
| SingleFlight.InflightTable.Publish | totp-server/src/auth/introspection.rs:152-157 | the outcome goes to the channel found in the map; the map is unchanged |
| SingleFlight.InflightTable.RemoveEntry | totp-server/src/auth/introspection.rs:97-103 | the entry is gone and its channel closed |
| SingleFlight.InflightTable.Receive | totp-server/src/auth/introspection.rs:137-144 | one poll of the receiver: the next unread message, lag, closure, or nothing yet |
| SingleFlightInvariant.StepInterference | totp-server/src/auth/introspection.rs:121-161 | the most any step may change for everybody else: only a leader closes or publishes to its channel, and only once |
| SingleFlightInvariant.BystanderKept | totp-server/src/auth/introspection.rs:121-161 | every other request's facts withstand that interference |
| SingleFlightInvariant.StepKeepsInv | totp-server/src/auth/introspection.rs:121-161 | every step, cancellations included, keeps the protocol invariant |
| SingleFlightTheorems.EntryIffOneLeader | totp-server/src/auth/introspection.rs:90-103 | in every reachable state a hash has an entry iff exactly one live request leads it, and the entry is the one that request inserted |
| SingleFlightTheorems.NoCaching | totp-server/src/auth/introspection.rs:25-29 | an outcome returned before a request arrived never reaches it; the call it shares belongs to itself or to a request still at work when it arrived |
| SingleFlightTheorems.LateSubscriberCallsItself | totp-server/src/auth/introspection.rs:152-158 | a subscriber that arrives between send and guard drop sees no message and returns only its own call's outcome |
| SingleFlightTheorems.InTimeFollowerShares | totp-server/src/auth/introspection.rs:137-143 | an uncancelled follower that subscribed before publication makes no call and gets exactly the leader's outcome |
| SingleFlightTheorems.NeverLags | totp-server/src/auth/introspection.rs:130-131 | a channel carries at most one message, so capacity 1 never lags a receiver |
| SingleFlightTheorems.CallAccounting | totp-server/src/auth/introspection.rs:137-150 | at most one call per request; calls equal leaders that began plus followers that called, each of them left without a message on a closed channel |
| SingleFlightTheorems.ConcurrentRequestsCostOneCall | totp-server/tests/introspection.rs:205-237 | N requests that meet on one publishing leader cost one upstream call |
| SingleFlightTheorems.OkTracesToVouchingReply | totp-server/src/auth/introspection.rs:137-160 | with an injective hash, a request is Ok for a user iff the call behind it was for its own token and its reply vouched for that user when evaluated |
| SingleFlightTheorems.ErrTracesToReply | totp-server/src/auth/introspection.rs:137-160 | a request gets an error iff the reply to a call for its own token says that error |
| SingleFlightTheorems.CancellableIffAwaiting | totp-server/src/auth/introspection.rs:137-150 | in every reachable state a request can be cancelled iff it awaits a message or its own call, as leader or as fallback |
| SingleFlightTheorems.CancelledLeaderFreesFollowers | totp-server/src/auth/introspection.rs:97-103 | cancelling a calling leader removes its entry, and each waiting follower can at once find the channel closed and go on to call for itself |
| SingleFlightTheorems.CancelledLeaderRun | totp-server/src/auth/introspection.rs:137-150 | a run, for any token and reply, in which the leader is cancelled at its await and the follower is answered by its own call: two calls in all, no entry left |
| SingleFlightTheorems.NeverWedged | totp-server/src/auth/introspection.rs:90-91 | every unfinished request, or the live leader it waits for, has an enabled step other than cancellation |
| SingleFlightTheorems.RunsAreBounded | totp-server/src/auth/introspection.rs:121-161 | n requests take at most 6n steps in any interleaving |
| SingleFlightTheorems.MaximalRunsFinish | totp-server/src/auth/introspection.rs:121-161 | when no step but cancellation or arrival is left, every request that arrived is answered or cancelled and the map is empty |
| Staleness.StaleIffAnsweredUnpublished | totp-server/src/auth/introspection.rs:26-28 | a request may return an outcome decided before it arrived iff a decided, unpublished call for its hash is in flight when it arrives |
| Staleness.RevocationCanBeMissed | totp-server/src/auth/introspection.rs:26-28 | a concrete run in which the next request is answered Ok from a decision older than itself |
| Wiegand.FoldIsPlaceValue | lock-client/core/src/wiegand.rs:68-71 | the shift-or fold is the MSB-first binary value modulo 2^32, for bit strings of any length |
| Wiegand.FoldBound | lock-client/core/src/wiegand.rs:68-71 | up to 32 bits the fold is the exact binary value, below 2^n |
| Wiegand.FoldOfToBits | lock-client/core/src/wiegand.rs:68-71 | folding the n-bit encoding of v < 2^n gives v |
| Wiegand.ToBitsOfFold | lock-client/core/src/wiegand.rs:68-71 | every bit string of up to 32 bits is the encoding of its fold |
| Wiegand.CardRoundTrip | lock-client/core/src/wiegand.rs:61-66 | a card's facility code and number survive encoding and decoding |
| Wiegand.KeyMeaning | lock-client/core/src/wiegand.rs:44-59 | a frame is a digit, Cancel or Enter iff it has four bits of value 0-9, 10 or 11 |
| Wiegand.CardMeaning | lock-client/core/src/wiegand.rs:61-66 | a frame is a card iff it has 26 bits, and the casts of its fields lose nothing |
| Wiegand.NoiseMeaning | lock-client/core/src/wiegand.rs:44-59 | a frame is noise, reported with its own length, iff it is no card and no key |
| PinEntry.ClosedForm | lock-client/core/src/pin_entry.rs:43-72 | after any keys the buffer holds the last ((d-1) mod 6)+1 of the d digits since Cancel or Enter |
| PinEntry.EnterClosedForm | lock-client/core/src/pin_entry.rs:62-70 | Enter yields Ready iff d is a positive multiple of six, with the last six digits in order |
| PinEntry.PinEntry.Push | lock-client/core/src/pin_entry.rs:43-72 | the array-backed entry returns what its whole key history calls for |
| PinEntry.PinEntry.Reset | lock-client/core/src/pin_entry.rs:74-77 | the buffer is zeroed and empty |
| Totp.TriedIffInWindow | lock-client/core/src/totp.rs:20-32 | the saturating loop tries exactly the contiguous counters within the skew, cut off at both ends of u64 |
| Totp.Matches | lock-client/core/src/totp.rs:20-34 | true iff the library's value modulo 1,000,000, at some 30-second counter within the skew of now and the range of u64, is the entered number |
| Totp.ValueIsDecimal | lock-client/core/src/totp.rs:36-38 | six entered digits are the number they spell in base ten |
| Totp.ValueFitsU32 | lock-client/core/src/totp.rs:36-38 | no fold step overflows u32, whatever six bytes are entered |
| Totp.ValueOfToDigits | lock-client/core/src/totp.rs:36-38 | zero-padded digits of v fold back to v |
| Totp.ValueInjective | lock-client/core/src/totp.rs:36-38 | different decimal entries have different values |
| ServerTotp.PinReadsBack | totp-server/src/totp/mod.rs:50-59 | the issued PIN is six decimal characters and reads back as the code of its time step |
| ServerTotp.PinInPlainNumbers | totp-server/src/totp/mod.rs:50-59 | the PIN's characters are the last six decimal digits of the library's value at counter now / 30, valid for 30 - now % 30 seconds |
| ServerTotp.GeneratesIffAccepted | totp-server/src/totp/mod.rs:29-39 | a PIN is generated iff the library takes the secret; otherwise the error is reported |
| ServerTotp.StepTriedIffClose | lock-client/core/src/totp.rs:16-34 | the lock's saturating loop tries the step a PIN was issued in iff the two clocks' steps differ by at most the skew |
| ServerTotp.DriftTolerance | lock-client/core/src/totp.rs:16-34 | drift up to 30*skew seconds always gets the step tried by the loop, 30*(skew+1) or more never does |
| ServerTotp.LastAcceptingSecond | totp-server/src/totp/mod.rs:50-59 | with equal clocks the last second that tries the step is ts + validFor + 30*skew - 1 |
| ServerTotp.PinAcceptedIff | totp-server/src/totp/mod.rs:41-59 | an issued PIN is accepted iff some counter in the lock's window has the code of the PIN's step |
| ServerTotp.IssuedPinAccepted | totp-server/src/totp/mod.rs:41-59 | a PIN whose step is within the skew of the lock's clock is accepted |
| Lock.EntryIsKeyHistory | lock-client/core/src/lock.rs:58-76 | card reads and noise leave no trace in the PIN entry |
| Lock.DigitsByFrame | lock-client/core/src/lock.rs:63-76 | a digit frame adds its digit to the ones since the last Cancel or Enter, Cancel and Enter clear them, any other frame leaves them |
| Lock.LockSafety | lock-client/core/src/lock.rs:63-87 | in any run, frame i is Unlocked iff it is Enter after a positive multiple of six digits whose last six match a code in the window; Rejected is exactly the non-matching case |
| Lock.LockController.OnFrame | lock-client/core/src/lock.rs:63-87 | the controller returns that verdict over all frames so far, unlocks once iff Unlocked and never locks |
| Lock.BoltActuator.Unlock | lock-client/firmware/src/actuator.rs:18-20 | the relay is high |
| Lock.BoltActuator.Lock | lock-client/firmware/src/actuator.rs:22-24 | the relay is low |
| WiegandCapture.StretchesPartition | lock-client/firmware/src/wiegand_capture.rs:80-108 | for any interleaving and timing the stretches between drains are the pushed bits, in order |
| WiegandCapture.StretchesNonEmpty | lock-client/firmware/src/wiegand_capture.rs:98-100 | no frame is ever made of nothing |
| WiegandCapture.Conservation | lock-client/firmware/src/wiegand_capture.rs:80-108 | each stretch comes out as one frame of its newest 34 bits; the time stamp is set iff bits are buffered |
| WiegandCapture.CaptureState.PushBit | lock-client/firmware/src/wiegand_capture.rs:80-87 | the buffer becomes the newest 34 bits and the time stamp the edge's |
| WiegandCapture.CaptureState.OnGpioInterrupt | lock-client/firmware/src/wiegand_capture.rs:61-78 | one interrupt records a 0 for D0, then a 1 for D1, whichever are set |
| WiegandCapture.CaptureState.TakeCompletedFrame | lock-client/firmware/src/wiegand_capture.rs:92-108 | a frame is drained iff bits are buffered and the gap has passed; otherwise nothing changes |
| Segmentation.BurstsAreStretches | lock-client/firmware/src/wiegand_capture.rs:80-108 | at any moment of a paced run the closed stretches, and the open one if its gap has not been polled, are exactly the bursts so far |
| Segmentation.TimedSegmentation | lock-client/firmware/src/main.rs:105-128 | with silences of at least gap + period the frames returned by polling are exactly the bursts, none merged, split, lost or duplicated |
| RelayHold.RelayHighIff | lock-client/firmware/src/main.rs:101-128 | in every run the relay is high iff the deadline of the most recent accepted code has not been seen to pass, so a later code extends it |
| RelayHold.HoldTime | lock-client/firmware/src/main.rs:105-128 | from the last accepted code's order to the fall the relay is high for at least 5 s and less than 5 s plus one period plus the delays from order to deadline and from check to fall; from its rise, at least 5 s |
| RelayHold.ReadExactlyIffChecked | lock-client/firmware/src/main.rs:119-125 | the release is read exactly 5 s after the deadline was set iff some iteration checks at that instant |
| RelayHold.HeldExactlyIff | lock-client/firmware/sim/run_sim_tests.py:8-9 | the bolt is held for exactly 5 s iff besides that neither delay inside an iteration is felt |
| Scenarios.ReleaseMayBeLate | lock-client/firmware/src/main.rs:105-128 | for every loop period of at least 6 ms and every delay below it, a run from boot that keeps the 5 ms sleep is released that long after the deadline |
| RelayHold.RisesIffGrant | lock-client/core/src/lock.rs:78-81 | in any run, without regard to timing, a locked device's relay goes high iff a code is accepted, which is iff the controller orders an unlock |
| RelayHold.SeenHighIffGrant | lock-client/firmware/src/main.rs:105-128 | with checks less than 5 s apart it is then also high at the end of an iteration |
| RelayHold.IterationsApart | lock-client/firmware/src/main.rs:127 | in a run that keeps the sleep, at least 5 ms lie between the end of an iteration and the poll of any later one |
| Firmware.DeviceIsPipeline | lock-client/firmware/src/main.rs:105-117 | the whole device is the composition of capture, decoding and PIN entry over its events |
| WholeDevice.GrantIffUnlocked | lock-client/firmware/src/main.rs:108-113 | the deadline has been set iff some frame of the log was judged Unlocked |
| WholeDevice.UnlockCallsAreUnlocks | lock-client/core/src/lock.rs:76-85 | over any run from boot the controller has ordered exactly as many unlocks as frames were judged Unlocked |
| WholeDevice.RelayIffStretchOpens | lock-client/firmware/src/main.rs:101-128 | for any edges and iterations from boot, the relay is high iff, less than 5 s before the last check, some stretch decoded to Enter after a positive multiple of six digit frames whose last six match a code in the window |
| WholeDevice.OverrunIsNoise | lock-client/firmware/src/wiegand_capture.rs:19-22 | in any run of the buffer every stretch of 34 bits or more comes out as an unrecognized frame |
| WholeDevice.NoiseSpoilsNothing | lock-client/core/src/lock.rs:58-74 | a frame that is no key, anywhere in the history, changes no later verdict |
| WholeDevice.OverrunSpoilsNothing | lock-client/firmware/src/wiegand_capture.rs:19-22 | after an overrun every verdict is what it would be had the overrun stretch not been there |
| Scenarios.OverrunRun | lock-client/firmware/src/wiegand_capture.rs:19-22 | for any six digits and any overrun between them a run from boot that keeps the 5 ms sleep has its relay go high iff the digits are accepted |
| Scenarios.OverrunStillOpens | lock-client/firmware/src/wiegand_capture.rs:19-22 | a run from boot that keeps the 5 ms sleep, with an overrun among the digits of the current code, opens the box |
| Firmware.MainLoop.OnEdge | lock-client/firmware/src/wiegand_capture.rs:61-87 | an edge changes the capture buffer and nothing else |
| Firmware.MainLoop.Iterate | lock-client/firmware/src/main.rs:105-128 | one loop iteration is one transition of the device |
| Firmware.MainLoop.OnFrame | lock-client/firmware/src/main.rs:107-116 | the outcome of a frame drives the relay and sets the deadline |
| Firmware.MainLoop.CheckRelock | lock-client/firmware/src/main.rs:119-125 | past the deadline the relay drops and the deadline is cleared |
| KeypadScript.Generate | lock-client/firmware/sim/wiegand_script.py:37-49 | for every code and start, the falling edges of the lines, over pin levels that start high, are one per bit of the six digits and Enter at the stated times; every pull is released 50 us later on the same pin and both pins end high |
| KeypadScript.FallingEdgesOfLines | lock-client/firmware/sim/wiegand_script.py:43-47 | for any edges, a line falling only if it was high: the interrupt pins 2 (a 0) and 3 (a 1) see exactly the edges the script was written for, each released after 50 us, both high at the end |
| KeypadScript.LowIffPulled | lock-client/firmware/sim/wiegand_script.py:45-46 | a pin is low iff the last action on it pulled it low |
| KeypadScript.SeenIffFalls | lock-client/firmware/sim/wiegand_script.py:4-6 | an action is seen as an edge iff it pulls down a pin that is high |
| KeypadScript.NibbleRoundTrip | lock-client/firmware/sim/wiegand_script.py:28-29 | decoding the four bits of a key gives the key back |
| KeypadScript.KeyBurstsSpaced | lock-client/firmware/sim/wiegand_script.py:20-22 | key presses are bursts with 42 ms of silence, the message gap plus 17 ms |
| KeypadScript.StampedSpaced | lock-client/firmware/src/wiegand_capture.rs:80-87 | stamped up to a lateness late, the same presses keep the same bits and the gap plus 17 ms less that lateness of silence |
| EndToEnd.DecodesToCode | lock-client/firmware/sim/wiegand_script.py:32-49 | decoding the script's bursts gives the six digits in order, then Enter |
| EndToEnd.TypedCodeOpensIffAccepted | lock-client/firmware/sim/README.md:44-51 | for every code, start time, stamping up to J late and poll schedule with gaps of at most 17 ms less J, exactly the digits and Enter are delivered and a code is accepted iff it matches when Enter is judged |
| EndToEnd.RelayGoesHighIffAccepted | lock-client/firmware/sim/README.md:44-51 | on a locked box the relay goes high during the run iff that code matches |
| EndToEnd.IssuedPinOpensBox | totp-server/src/totp/mod.rs:41-59 | a PIN issued by the server drives the relay of a locked box high iff some counter in the lock's window has the code of its step, in particular whenever the clocks' steps differ by at most the skew |
| Scenarios.PlayExists | lock-client/firmware/src/main.rs:105-128 | every code can be played into a loop that sleeps 5 ms and polls every 6, so the end-to-end results speak about runs the loop can make |
| Scenarios.SlowerPollsMayMerge | lock-client/firmware/src/main.rs:50-56 | for every code and every poll bound above 17 ms the loop, its 5 ms sleep kept, can make a run of the script whose first two key presses come out as one frame of eight bits |

## Left out

- HTTP, JSON and the authorization server: any reply may come at any time; that every call returns is an assumption of progress, backed by the 5 s timeout in `totp-server/src/state.rs:14`. Text inside error reasons is not modelled.
- Mutex poisoning and panics: no thread panics while it holds the lock, so the `if let Ok` branches are always taken.
- The hash: a parameter; only `OkTracesToVouchingReply` needs it injective. HMAC, TOTP library internals and which secrets the server's builder accepts are parameters too.
- The asynchronous body of `introspect` is a state machine over its atomic sections rather than one method; an upstream decision after its caller was cancelled has no effect and is not a step.
- Time is unbounded: the microsecond counter's 64-bit range and the additions on it are not modelled; `u64` wall-clock seconds are. Clock readings are arbitrary inputs, ordered where a theorem says so.
- The state of the capture buffer before installation, when interrupts are ignored (`lock-client/firmware/src/wiegand_capture.rs:64-67`).
- In the constructed runs an iteration's clock readings coincide and its work falls before the next poll; the results about all runs leave the readings free.
- The script's times are whole microseconds; accumulated floating-point error in `t` and its six-decimal rendering are not modelled, nor are the file writer and the command line.
- The shift-or of the bit fold is written as arithmetic on 32-bit values, not on bit vectors.
- Rate limiting, secret storage, audit log, routes, configuration, provisioning: thin wrappers over libraries whose properties follow from single branches.
- GPIO configuration, console output, the emulator harness and the box itself: hardware and I/O; one relay bit is kept.
