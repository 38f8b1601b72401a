/**
 * How fresh a shared outcome is. The client's documentation promises that a revocation takes
 * effect on the very next request; the code keeps that promise except in one window.
 */
module Staleness {
  import opened Wrappers
  import opened Introspection
  import opened SingleFlight
  import opened SingleFlightInvariant
  import opened SingleFlightTheorems

  /** What is recorded once is never rewritten, and nothing is back-dated. */
  ghost predicate Evolves(s: State, t: State) {
    && s.now <= t.now
    && |s.requests| == |t.requests| && |s.calls| <= |t.calls| && |s.origins| <= |t.origins|
    && (forall r :: 0 <= r < |s.requests| && !s.requests[r].role.Undecided? ==>
          t.requests[r].role == s.requests[r].role && t.requests[r].arrivedAt == s.requests[r].arrivedAt)
    && (forall c :: 0 <= c < |s.calls| ==>
          && t.calls[c].owner == s.calls[c].owner && t.calls[c].startedAt == s.calls[c].startedAt
          && (s.calls[c].answer.Some? ==> t.calls[c].answer == s.calls[c].answer)
          && (s.calls[c].result.Some? ==> t.calls[c].result == s.calls[c].result)
          && (s.calls[c].answer.None? && t.calls[c].answer.Some? ==> s.now <= t.calls[c].answer.value.at))
    && (forall c :: |s.calls| <= c < |t.calls| ==> s.now <= t.calls[c].startedAt)
    && (forall ch :: 0 <= ch < |s.origins| ==>
          && t.origins[ch].leader == s.origins[ch].leader
          && (s.origins[ch].publishedAt.Some? ==> t.origins[ch].publishedAt == s.origins[ch].publishedAt))
  }

  lemma StepEvolves(env: Env, s: State, step: Step)
    requires Inv(env, s) && WellFormed(s) && Enabled(s, step)
    ensures Evolves(s, Apply(env, s, step))
  {
    var t := Apply(env, s, step);
    StepInterference(env, s, step);
    assert RequestOk(env, s, step.r);
    forall ch | 0 <= ch < |s.origins| ensures t.origins[ch].leader == s.origins[ch].leader
      && (s.origins[ch].publishedAt.Some? ==> t.origins[ch].publishedAt == s.origins[ch].publishedAt)
    {
      assert ChannelInterference(s, t, step.r, ch);
    }
  }

  lemma EvolvesTransitively(s: State, u: State, t: State)
    requires Evolves(s, u) && Evolves(u, t)
    ensures Evolves(s, t)
  {}

  lemma {:induction false} RunEvolves(env: Env, s: State, steps: seq<Step>, t: State)
    requires Inv(env, s) && Run(env, s, steps) == Some(t)
    ensures Evolves(s, t)
    decreases |steps|
  {
    if steps != [] {
      StepEvolves(env, s, steps[0]);
      StepKeepsInv(env, s, steps[0]);
      RunEvolves(env, Apply(env, s, steps[0]), steps[1..], t);
      EvolvesTransitively(s, Apply(env, s, steps[0]), t);
    }
  }

  /** A call for `k` is in flight whose answer is decided but not yet published. */
  ghost predicate AnsweredUnpublished(s: State, k: Hash) {
    k in s.shared.inflight && s.shared.inflight[k] < |s.origins| &&
    var l := s.origins[s.shared.inflight[k]].leader;
    l < |s.requests| && (s.requests[l].phase.Calling? || s.requests[l].phase.Holding?) &&
    s.requests[l].phase.call < |s.calls| && s.calls[s.requests[l].phase.call].answer.Some?
  }

  /** `b` returned an outcome that the authorization server had decided before `b` arrived. */
  predicate Stale(t: State, b: nat) {
    b < |t.requests| && t.requests[b].phase.Done? &&
    t.requests[b].phase.call < |t.calls| &&
    var answer := t.calls[t.requests[b].phase.call].answer;
    answer.Some? && answer.value.at < t.requests[b].arrivedAt
  }

  /** Some continuation of the run, starting with the arrival of `b`, gives `b` a stale outcome. */
  ghost predicate MayGoStale(env: Env, s: State, b: nat) {
    exists steps, t :: Run(env, s, [Arrive(b)] + steps) == Some(t) && Stale(t, b)
  }

  lemma StaleNeedsWindow(env: Env, s: State, b: nat, steps: seq<Step>, t: State)
    requires Inv(env, s) && b < |s.requests| && s.requests[b].phase.NotArrived?
    requires Run(env, s, [Arrive(b)] + steps) == Some(t) && Stale(t, b)
    ensures AnsweredUnpublished(s, Key(env, s, b))
  {
    InvWellFormed(env, s);
    var s1 := Apply(env, s, Arrive(b));
    assert ([Arrive(b)] + steps)[1..] == steps;
    StepKeepsInv(env, s, Arrive(b));
    StepEvolves(env, s, Arrive(b));
    RunEvolves(env, s1, steps, t);
    RunKeepsInv(env, s1, steps, t);
    Around(env, t, b);
    var c := t.requests[b].phase.call;
    assert CallOk(env, t, c);
    assert t.calls[c].owner != b;
    var ch := t.requests[b].role.ch;
    assert s1.requests[b].role == Follower(ch);
    assert EntryOk(env, s, Key(env, s, b)) && ChannelOk(env, s, ch);
    Around(env, s, s.origins[ch].leader);
    assert c < |s.calls| && CallOk(env, s, c);
  }

  /** Once the leader publishes, `b` has its outcome to read. */
  lemma PublishReaches(env: Env, s: State, l: nat, b: nat)
    requires Inv(env, s) && WellFormed(s) && b < |s.requests| && l < |s.requests| && b != l
    requires s.requests[b].phase.Waiting? && s.requests[b].role.Follower? && s.requests[l].phase.Holding?
    requires s.requests[l].role == Leader(s.requests[b].role.ch)
    ensures var t := Apply(env, s, Publish(l));
      && Inv(env, t) && WellFormed(t) && |t.requests| == |s.requests| && t.requests[b] == s.requests[b]
      && t.shared.channels[t.requests[b].role.ch].Recv(b).Message?
      && t.shared.channels[t.requests[b].role.ch].Recv(b).message.call == s.requests[l].phase.call
  {
    Around(env, s, b);
    Around(env, s, l);
    var ch := s.requests[b].role.ch;
    var t := Apply(env, s, Publish(l));
    StepInterference(env, s, Publish(l));
    assert ChannelInterference(s, t, l, ch);
    StepKeepsInv(env, s, Publish(l));
    Around(env, t, b);
    assert ChannelOk(env, t, ch);
    assert s.shared.inflight[Key(env, s, l)] == ch;
    assert InTime(t, b, ch);
  }

  /** The leader publishes while `b` waits, and `b` receives its outcome. */
  lemma PublishThenReceive(env: Env, s: State, l: nat, b: nat) returns (steps: seq<Step>, t: State)
    requires Inv(env, s) && b < |s.requests| && l < |s.requests| && b != l
    requires s.requests[b].phase.Waiting? && s.requests[b].role.Follower? && s.requests[l].phase.Holding?
    requires s.requests[l].role == Leader(s.requests[b].role.ch)
    ensures Run(env, s, steps) == Some(t)
    ensures b < |t.requests| && t.requests[b].phase.Done? && t.requests[b].phase.call == s.requests[l].phase.call
  {
    InvWellFormed(env, s);
    PublishReaches(env, s, l, b);
    var s1 := Apply(env, s, Publish(l));
    t := Apply(env, s1, Receive(b));
    steps := [Publish(l)] + ([Receive(b)] + []);
    RunCons(env, s, Publish(l), [Receive(b)] + []);
    RunCons(env, s1, Receive(b), []);
  }

  /**
   * A leader with a decided answer can come to hold its outcome, evaluated at `wallClock` if it was
   * still in its call.
   */
  lemma LeaderComesToHold(env: Env, s: State, l: nat, wallClock: int) returns (steps: seq<Step>, t: State)
    requires Inv(env, s) && l < |s.requests| && s.requests[l].role.Leader?
    requires s.requests[l].phase.Holding? ||
      (s.requests[l].phase.Calling? && s.requests[l].phase.call < |s.calls| &&
        s.calls[s.requests[l].phase.call].answer.Some?)
    ensures Inv(env, t) && Evolves(s, t)
    ensures forall rest :: Run(env, s, steps + rest) == Run(env, t, rest)
    ensures t.requests[l].phase == Holding(s.requests[l].phase.call)
    ensures forall r :: 0 <= r < |s.requests| && r != l ==> t.requests[r] == s.requests[r]
    ensures s.requests[l].phase.Calling? ==>
      var c := s.requests[l].phase.call;
      Yielded(t, c, Judge(s.calls[c].answer.value.reply, wallClock, env.audience))
  {
    if s.requests[l].phase.Holding? {
      steps, t := [], s;
      assert forall rest: seq<Step> :: steps + rest == rest;
    } else {
      InvWellFormed(env, s);
      StepKeepsInv(env, s, Return(l, wallClock));
      StepEvolves(env, s, Return(l, wallClock));
      t := Apply(env, s, Return(l, wallClock));
      steps := [Return(l, wallClock)];
      forall rest ensures Run(env, s, steps + rest) == Run(env, t, rest) {
        RunCons(env, s, Return(l, wallClock), rest);
      }
    }
  }

  /** `l` leads `b`'s channel, and its call was decided before `b` arrived. */
  predicate WaitsForOldAnswer(s: State, b: nat, l: nat) {
    b < |s.requests| && l < |s.requests| && b != l && s.requests[b].phase.Waiting? && s.requests[b].role.Follower? &&
    s.requests[l].role == Leader(s.requests[b].role.ch) &&
      (s.requests[l].phase.Calling? || s.requests[l].phase.Holding?) &&
    var c := s.requests[l].phase.call;
    c < |s.calls| && s.calls[c].answer.Some? && s.calls[c].answer.value.at < s.requests[b].arrivedAt
  }

  /** Arriving in the window is subscribing to such a leader. */
  lemma ArriveInWindow(env: Env, s: State, b: nat) returns (l: nat)
    requires Inv(env, s) && WellFormed(s) && b < |s.requests| && s.requests[b].phase.NotArrived?
    requires AnsweredUnpublished(s, Key(env, s, b))
    ensures l == s.origins[s.shared.inflight[Key(env, s, b)]].leader
    ensures WaitsForOldAnswer(Apply(env, s, Arrive(b)), b, l)
    ensures Apply(env, s, Arrive(b)).calls == s.calls && Apply(env, s, Arrive(b)).requests[l] == s.requests[l]
  {
    assert EntryOk(env, s, Key(env, s, b));
    var ch := s.shared.inflight[Key(env, s, b)];
    l := s.origins[ch].leader;
    assert ChannelOk(env, s, ch);
    Around(env, s, l);
  }

  /** The stale continuation once `b` waits. */
  lemma WaiterGoesStale(env: Env, s: State, b: nat, l: nat, wallClock: int) returns (steps: seq<Step>, t: State)
    requires Inv(env, s) && WaitsForOldAnswer(s, b, l)
    ensures Run(env, s, steps) == Some(t) && Stale(t, b)
    ensures s.requests[l].phase.Calling? ==>
      t.requests[b].phase.outcome ==
        Judge(s.calls[s.requests[l].phase.call].answer.value.reply, wallClock, env.audience)
  {
    var first, u := LeaderComesToHold(env, s, l, wallClock);
    var rest;
    rest, t := PublishThenReceive(env, u, l, b);
    RunEvolves(env, u, rest, t);
    RunKeepsInv(env, u, rest, t);
    assert RequestOk(env, t, b);
    steps := first + rest;
  }

  /** The stale continuation, from the arrival on. */
  lemma GoStale(env: Env, s: State, b: nat, wallClock: int) returns (steps: seq<Step>, t: State)
    requires Inv(env, s) && b < |s.requests| && s.requests[b].phase.NotArrived?
    requires AnsweredUnpublished(s, Key(env, s, b))
    ensures Run(env, s, [Arrive(b)] + steps) == Some(t) && Stale(t, b)
    ensures var q := s.requests[s.origins[s.shared.inflight[Key(env, s, b)]].leader];
      q.phase.Calling? ==>
        t.requests[b].phase.outcome == Judge(s.calls[q.phase.call].answer.value.reply, wallClock, env.audience)
  {
    InvWellFormed(env, s);
    StepKeepsInv(env, s, Arrive(b));
    var l := ArriveInWindow(env, s, b);
    steps, t := WaiterGoesStale(env, Apply(env, s, Arrive(b)), b, l, wallClock);
    RunCons(env, s, Arrive(b), steps);
  }

  /**
   * Exactly when the next request may miss a revocation: it may return an outcome decided before
   * it arrived iff, on arrival, a call for its token is in flight with its answer decided but
   * not yet published.
   */
  lemma StaleIffAnsweredUnpublished(env: Env, tokens: seq<Token>, steps: seq<Step>, s: State, b: nat)
    requires Reaches(env, tokens, steps, s)
    requires b < |s.requests| && s.requests[b].phase.NotArrived?
    ensures MayGoStale(env, s, b) <==> AnsweredUnpublished(s, Key(env, s, b))
  {
    ReachableInv(env, tokens, steps, s);
    if MayGoStale(env, s, b) {
      var more, t :| Run(env, s, [Arrive(b)] + more) == Some(t) && Stale(t, b);
      StaleNeedsWindow(env, s, b, more, t);
    }
    if AnsweredUnpublished(s, Key(env, s, b)) {
      var more, t := GoStale(env, s, b, 0);
    }
  }

  /** The first request is waiting for a reply the authorization server has already decided. */
  lemma AnsweredRun(env: Env, token: Token, reply: Reply) returns (s: State)
    ensures forall rest :: Run(env, Init([token, token]),
      [Arrive(0)] + ([StartCall(0)] + ([Settle(0, reply)] + rest))) == Run(env, s, rest)
    ensures Inv(env, s) && |s.requests| == 2 && s.requests[1].phase.NotArrived?
    ensures AnsweredUnpublished(s, Key(env, s, 1))
    ensures var l := s.origins[s.shared.inflight[Key(env, s, 1)]].leader;
      s.requests[l].phase.Calling? && s.calls[s.requests[l].phase.call].answer.value.reply == reply
  {
    var s0 := Init([token, token]);
    InitInv(env, [token, token]);
    InvWellFormed(env, s0);
    var s1 := Apply(env, s0, Arrive(0));
    StepKeepsInv(env, s0, Arrive(0));
    var s2 := Apply(env, s1, StartCall(0));
    StepKeepsInv(env, s1, StartCall(0));
    s := Apply(env, s2, Settle(0, reply));
    StepKeepsInv(env, s2, Settle(0, reply));
    forall rest ensures Run(env, s0, [Arrive(0)] + ([StartCall(0)] + ([Settle(0, reply)] + rest))) ==
      Run(env, s, rest) {
      RunCons(env, s2, Settle(0, reply), rest);
      RunCons(env, s1, StartCall(0), [Settle(0, reply)] + rest);
      RunCons(env, s0, Arrive(0), [StartCall(0)] + ([Settle(0, reply)] + rest));
    }
  }

  /**
   * The window is real: of two requests for one token, the second arrives after the server has
   * vouched for it, the token may be revoked in between, and the second is still answered Ok.
   */
  lemma RevocationCanBeMissed(env: Env, token: Token, reply: Reply, wallClock: int, user: User)
    returns (steps: seq<Step>, t: State)
    requires Vouches(reply, wallClock, env.audience, user)
    ensures Reaches(env, [token, token], steps, t) && Stale(t, 1)
    ensures ToResult(t.requests[1].phase.outcome) == Ok(user)
  {
    var s := AnsweredRun(env, token, reply);
    var more;
    more, t := GoStale(env, s, 1, wallClock);
    steps := [Arrive(0)] + ([StartCall(0)] + ([Settle(0, reply)] + ([Arrive(1)] + more)));
    OkIffVouched(reply, wallClock, env.audience, user);
  }
}
