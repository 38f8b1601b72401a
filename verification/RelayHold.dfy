/** How long the relay stays high. Times are microseconds. */
module RelayHold {
  import opened Wrappers
  import opened Lock
  import opened Firmware

  /** When the controller drove the relay high for an accepted code, and when the loop then set the deadline. */
  datatype Grant = Grant(unlockAt: nat, setAt: nat)

  /** The most recent accepted code. */
  ghost function LastGrant(cfg: Config, d: Device, events: seq<Event>): Option<Grant> {
    if events == [] then None
    else
      var before, e := Run(cfg, d, events[..|events| - 1]), events[|events| - 1];
      if OutcomeOf(cfg, before, e).Unlocked? then Some(Grant(e.unlockAt, e.setAt))
      else LastGrant(cfg, d, events[..|events| - 1])
  }

  /** When the relay last went from low to high. */
  ghost function LastRise(cfg: Config, d: Device, events: seq<Event>): Option<nat> {
    if events == [] then None
    else
      var before, e := Run(cfg, d, events[..|events| - 1]), events[|events| - 1];
      if OutcomeOf(cfg, before, e).Unlocked? && !before.relay then Some(e.unlockAt)
      else LastRise(cfg, d, events[..|events| - 1])
  }

  function LastCheck(events: seq<Event>, start: nat): nat {
    if events == [] then start
    else if events[|events| - 1].Iteration? then events[|events| - 1].checkAt
    else LastCheck(events[..|events| - 1], start)
  }

  function LastEnd(events: seq<Event>, start: nat): nat {
    if events == [] then start
    else if events[|events| - 1].Iteration? then events[|events| - 1].lockAt
    else LastEnd(events[..|events| - 1], start)
  }

  /** Iterations follow one another in time, with at most `period` from one deadline check to the next. */
  predicate Cadenced(events: seq<Event>, period: nat, start: nat) {
    events == [] ||
    var init, e := events[..|events| - 1], events[|events| - 1];
    && Cadenced(init, period, start)
    && (e.Iteration? ==>
          && LastEnd(init, start) <= e.takeAt <= e.unlockAt <= e.setAt <= e.checkAt <= e.lockAt
          && e.checkAt <= LastCheck(init, start) + period)
  }

  /** The loop sleeps between the end of one iteration and the poll of the next. */
  predicate Sleeps(events: seq<Event>, start: nat) {
    events == [] ||
    var init, e := events[..|events| - 1], events[|events| - 1];
    Sleeps(init, start) && (e.Iteration? ==> LastEnd(init, start) + POLL_INTERVAL <= e.takeAt)
  }

  /** Between the end of any iteration and the poll of any later one lie at least 5 ms. */
  lemma {:induction false} IterationsApart(events: seq<Event>, period: nat, start: nat)
    requires Cadenced(events, period, start) && Sleeps(events, start)
    ensures forall i :: 0 <= i < |events| && events[i].Iteration? ==> events[i].lockAt <= LastEnd(events, start)
    ensures forall i, j :: 0 <= i < j < |events| && events[i].Iteration? && events[j].Iteration? ==>
      events[i].lockAt + 5_000 <= events[j].takeAt
  {
    if events != [] {
      var init := events[..|events| - 1];
      IterationsApart(init, period, start);
      assert forall i :: 0 <= i < |init| ==> events[i] == init[i];
    }
  }

  lemma {:induction false} ChecksInOrder(events: seq<Event>, period: nat, start: nat)
    requires Cadenced(events, period, start)
    ensures start <= LastCheck(events, start) <= LastEnd(events, start)
    ensures forall i :: 0 <= i < |events| && events[i].Iteration? ==> events[i].checkAt <= LastCheck(events, start)
  {
    if events != [] {
      ChecksInOrder(events[..|events| - 1], period, start);
    }
  }

  /** The relay is high, with its deadline set, exactly until that deadline has been seen to pass. */
  predicate Held(d: Device, grant: Option<Grant>, lastCheck: nat) {
    && (d.relay <==> grant.Some? && lastCheck < grant.value.setAt + UNLOCK_DURATION)
    && d.relockAt == (if d.relay then Some(grant.value.setAt + UNLOCK_DURATION) else None)
  }

  lemma IterationKeepsHeld(cfg: Config, d: Device, e: Event, grant: Option<Grant>, lastCheck: nat)
    requires Held(d, grant, lastCheck) && e.Iteration? && lastCheck <= e.checkAt
    ensures var granted := OutcomeOf(cfg, d, e).Unlocked?;
      Held(StepDevice(cfg, d, e), if granted then Some(Grant(e.unlockAt, e.setAt)) else grant, e.checkAt)
  {}

  /**
   * At the end of every iteration the relay is high exactly while the deadline set by the most
   * recent accepted code has not been seen to pass; a code accepted while open extends it.
   */
  lemma {:induction false} RelayHighIff(cfg: Config, events: seq<Event>, period: nat, start: nat)
    requires Cadenced(events, period, start)
    ensures Held(Run(cfg, BOOT, events), LastGrant(cfg, BOOT, events), LastCheck(events, start))
  {
    if events != [] {
      var init, e := events[..|events| - 1], events[|events| - 1];
      RelayHighIff(cfg, init, period, start);
      ChecksInOrder(init, period, start);
      if e.Iteration? {
        IterationKeepsHeld(cfg, Run(cfg, BOOT, init), e, LastGrant(cfg, BOOT, init), LastCheck(init, start));
      }
    }
  }

  /** A grant is ordered in time, and the relay rose no later than the most recent one. */
  lemma {:induction false} GrantTimes(cfg: Config, events: seq<Event>, period: nat, start: nat)
    requires Cadenced(events, period, start) && LastGrant(cfg, BOOT, events).Some?
    ensures var g := LastGrant(cfg, BOOT, events).value;
      && start <= g.unlockAt <= g.setAt <= LastCheck(events, start)
      && LastRise(cfg, BOOT, events).Some? && LastRise(cfg, BOOT, events).value <= g.unlockAt
  {
    var init, e := events[..|events| - 1], events[|events| - 1];
    ChecksInOrder(init, period, start);
    if LastGrant(cfg, BOOT, init).Some? {
      GrantTimes(cfg, init, period, start);
    }
    RelayHighIff(cfg, init, period, start);
  }

  /** The iteration at the end of `events` releases the bolt. */
  ghost predicate ReleasesAtLast(cfg: Config, events: seq<Event>) {
    events != [] && events[|events| - 1].Iteration? &&
    var before, e := Run(cfg, BOOT, events[..|events| - 1]), events[|events| - 1];
    (before.relay || OutcomeOf(cfg, before, e).Unlocked?) && !Run(cfg, BOOT, events).relay
  }

  /**
   * How long the relay is high. From the last accepted code's order to the fall: at least 5 s, and
   * less than 5 s plus one loop period plus the two delays inside an iteration, between the order
   * and the setting of the deadline and between the check and the fall. From the rise: at least 5 s.
   */
  lemma HoldTime(cfg: Config, events: seq<Event>, period: nat, start: nat)
    requires Cadenced(events, period, start) && ReleasesAtLast(cfg, events)
    ensures LastGrant(cfg, BOOT, events).Some? && LastRise(cfg, BOOT, events).Some?
    ensures var g, e := LastGrant(cfg, BOOT, events).value, events[|events| - 1];
      && g.setAt + 5_000_000 <= e.checkAt < g.setAt + 5_000_000 + period
      && g.unlockAt + 5_000_000 <= e.lockAt
      && e.lockAt < g.unlockAt + 5_000_000 + period + (g.setAt - g.unlockAt) + (e.lockAt - e.checkAt)
      && LastRise(cfg, BOOT, events).value + 5_000_000 <= e.lockAt
  {
    var init := events[..|events| - 1];
    RelayHighIff(cfg, events, period, start);
    RelayHighIff(cfg, init, period, start);
    ChecksInOrder(init, period, start);
    GrantTimes(cfg, events, period, start);
  }

  /** Some iteration checks the deadline at exactly this instant. */
  predicate ChecksAt(events: seq<Event>, at: nat) {
    exists i :: 0 <= i < |events| && events[i].Iteration? && events[i].checkAt == at
  }

  /** Before the release every check came before the deadline. */
  lemma ChecksBeforeDeadline(cfg: Config, events: seq<Event>, period: nat, start: nat)
    requires Cadenced(events, period, start) && ReleasesAtLast(cfg, events) && LastGrant(cfg, BOOT, events).Some?
    ensures LastCheck(events[..|events| - 1], start) < LastGrant(cfg, BOOT, events).value.setAt + UNLOCK_DURATION
  {
    RelayHighIff(cfg, events[..|events| - 1], period, start);
    ChecksInOrder(events[..|events| - 1], period, start);
  }

  /** The release is read exactly 5 s after the deadline was set iff some iteration checks at that very instant. */
  lemma ReadExactlyIffChecked(cfg: Config, events: seq<Event>, period: nat, start: nat)
    requires Cadenced(events, period, start) && ReleasesAtLast(cfg, events)
    ensures LastGrant(cfg, BOOT, events).Some?
    ensures var deadline := LastGrant(cfg, BOOT, events).value.setAt + 5_000_000;
      events[|events| - 1].checkAt == deadline <==> ChecksAt(events, deadline)
  {
    HoldTime(cfg, events, period, start);
    ChecksBeforeDeadline(cfg, events, period, start);
    OnlyLastChecks(events, period, start, LastGrant(cfg, BOOT, events).value.setAt + UNLOCK_DURATION);
  }

  lemma OnlyLastChecks(events: seq<Event>, period: nat, start: nat, at: nat)
    requires Cadenced(events, period, start) && events != [] && events[|events| - 1].Iteration?
    requires LastCheck(events[..|events| - 1], start) < at
    ensures events[|events| - 1].checkAt == at <==> ChecksAt(events, at)
  {
    var init := events[..|events| - 1];
    ChecksInOrder(init, period, start);
    forall i | 0 <= i < |init| && events[i].Iteration? ensures events[i].checkAt < at {
      assert init[i] == events[i];
    }
  }

  /**
   * The bolt is held for exactly 5 s after the last order iff besides that neither delay inside an
   * iteration is felt.
   */
  lemma HeldExactlyIff(cfg: Config, events: seq<Event>, period: nat, start: nat)
    requires Cadenced(events, period, start) && ReleasesAtLast(cfg, events)
    ensures LastGrant(cfg, BOOT, events).Some?
    ensures var g, e := LastGrant(cfg, BOOT, events).value, events[|events| - 1];
      e.lockAt == g.unlockAt + 5_000_000 <==>
        g.setAt == g.unlockAt && e.lockAt == e.checkAt && ChecksAt(events, g.setAt + 5_000_000)
  {
    HoldTime(cfg, events, period, start);
    ReadExactlyIffChecked(cfg, events, period, start);
    GrantTimes(cfg, events, period, start);
  }

  /** The relay of a locked device goes high iff a code is accepted, which is iff the controller orders it. */
  lemma {:induction false} RisesIffGrant(cfg: Config, d: Device, events: seq<Event>)
    requires !d.relay
    ensures LastRise(cfg, d, events).Some? <==> LastGrant(cfg, d, events).Some?
    ensures LastGrant(cfg, d, events).Some? <==> Run(cfg, d, events).unlockCalls > d.unlockCalls
    ensures LastGrant(cfg, d, events).None? ==> !Run(cfg, d, events).relay
    ensures Run(cfg, d, events).unlockCalls >= d.unlockCalls
  {
    if events != [] {
      RisesIffGrant(cfg, d, events[..|events| - 1]);
    }
  }

  /** The relay is high at the start or at the end of some step of the run. */
  ghost predicate SeenHigh(cfg: Config, d: Device, events: seq<Event>) {
    Run(cfg, d, events).relay || (events != [] && SeenHigh(cfg, d, events[..|events| - 1]))
  }

  /** With checks less than 5 s apart, it is then also high at the end of an iteration. */
  lemma {:induction false} SeenHighIffGrant(cfg: Config, d: Device, events: seq<Event>, period: nat, start: nat)
    requires !d.relay && d.relockAt.None?
    requires Cadenced(events, period, start) && period < UNLOCK_DURATION
    ensures SeenHigh(cfg, d, events) <==> LastGrant(cfg, d, events).Some?
    ensures LastGrant(cfg, d, events).None? ==> !Run(cfg, d, events).relay && Run(cfg, d, events).relockAt.None?
  {
    if events != [] {
      SeenHighIffGrant(cfg, d, events[..|events| - 1], period, start);
      ChecksInOrder(events[..|events| - 1], period, start);
    }
  }
}
