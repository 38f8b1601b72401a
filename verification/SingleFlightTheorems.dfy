/** What callers of `introspect` may rely on, over every interleaving and cancellation. */
module SingleFlightTheorems {
  import opened Wrappers
  import opened Introspection
  import opened SingleFlight
  import opened SingleFlightInvariant
  import Broadcast

  ghost predicate CanTake(s: State, step: Step) {
    WellFormed(s) && Enabled(s, step)
  }

  /** The state after `steps`, or None when one of them is not enabled. */
  ghost function Run(env: Env, s: State, steps: seq<Step>): Option<State>
    decreases |steps|
  {
    if steps == [] then Some(s)
    else if CanTake(s, steps[0]) then Run(env, Apply(env, s, steps[0]), steps[1..])
    else None
  }

  ghost predicate Reaches(env: Env, tokens: seq<Token>, steps: seq<Step>, s: State) {
    Run(env, Init(tokens), steps) == Some(s)
  }

  lemma {:induction false} RunKeepsInv(env: Env, s: State, steps: seq<Step>, t: State)
    requires Inv(env, s) && Run(env, s, steps) == Some(t)
    ensures Inv(env, t) && WellFormed(t)
    decreases |steps|
  {
    if steps == [] {
      InvWellFormed(env, s);
    } else {
      StepKeepsInv(env, s, steps[0]);
      RunKeepsInv(env, Apply(env, s, steps[0]), steps[1..], t);
    }
  }

  lemma ReachableInv(env: Env, tokens: seq<Token>, steps: seq<Step>, s: State)
    requires Reaches(env, tokens, steps, s)
    ensures Inv(env, s) && WellFormed(s)
  {
    InitInv(env, tokens);
    RunKeepsInv(env, Init(tokens), steps, s);
  }

  // ---------------------------------------------------------------- ownership

  /**
   * The map holds an entry for a hash iff exactly one request leads it, and that entry is the
   * one this request inserted, so a guard only ever removes its own.
   */
  lemma EntryIffOneLeader(env: Env, tokens: seq<Token>, steps: seq<Step>, s: State, k: Hash)
    requires Reaches(env, tokens, steps, s)
    ensures k in s.shared.inflight <==> exists r :: 0 <= r < |s.requests| && Leads(s.requests[r]) && Key(env, s, r) == k
    ensures forall r :: 0 <= r < |s.requests| && Leads(s.requests[r]) && Key(env, s, r) == k ==>
      && k in s.shared.inflight
      && s.requests[r].role == Leader(s.shared.inflight[k])
      && s.shared.inflight[k] < |s.origins| && s.origins[s.shared.inflight[k]].leader == r
    ensures forall r1, r2 ::
      (0 <= r1 < |s.requests| && 0 <= r2 < |s.requests| && Leads(s.requests[r1]) && Leads(s.requests[r2]) &&
       Key(env, s, r1) == k && Key(env, s, r2) == k) ==> r1 == r2
  {
    ReachableInv(env, tokens, steps, s);
    forall r | 0 <= r < |s.requests| && Leads(s.requests[r]) && Key(env, s, r) == k
      ensures k in s.shared.inflight && s.requests[r].role == Leader(s.shared.inflight[k])
      ensures s.shared.inflight[k] < |s.origins| && s.origins[s.shared.inflight[k]].leader == r
    {
      Around(env, s, r);
    }
    if k in s.shared.inflight {
      assert EntryOk(env, s, k);
      var ch := s.shared.inflight[k];
      assert ChannelOk(env, s, ch);
      var l := s.origins[ch].leader;
      assert RequestOk(env, s, l);
      assert Leads(s.requests[l]) && Key(env, s, l) == k;
    }
  }

  // ---------------------------------------------------------------- no caching

  /**
   * Deduplication, not caching: whoever made the call `b` got its outcome from was still at work
   * when `b` arrived, so nothing that had been returned before reaches `b`.
   */
  lemma NoCaching(env: Env, tokens: seq<Token>, steps: seq<Step>, s: State, a: nat, b: nat)
    requires Reaches(env, tokens, steps, s)
    requires a < |s.requests| && s.requests[a].phase.Done?
    requires b < |s.requests| && s.requests[b].phase.Done?
    requires s.requests[a].phase.at < s.requests[b].arrivedAt
    ensures s.requests[a].phase.call != s.requests[b].phase.call
    ensures s.requests[b].phase.call < |s.calls|
    ensures var o := s.calls[s.requests[b].phase.call].owner;
      o < |s.requests| && (o == b || s.requests[o].phase.Announced? ||
        (s.requests[o].phase.Done? && s.requests[b].arrivedAt < s.requests[o].phase.at))
  {
    ReachableInv(env, tokens, steps, s);
    Around(env, s, a);
    Around(env, s, b);
    Around(env, s, s.calls[s.requests[b].phase.call].owner);
  }

  /** In the window between publication and guard drop a subscriber still ends up calling for itself. */
  lemma LateSubscriberCallsItself(env: Env, tokens: seq<Token>, steps: seq<Step>, s: State, b: nat, ch: nat)
    requires Reaches(env, tokens, steps, s)
    requires b < |s.requests| && s.requests[b].role == Follower(ch)
    requires ch < |s.origins| && s.origins[ch].publishedAt.Some? &&
      s.origins[ch].publishedAt.value < s.requests[b].arrivedAt
    ensures |s.shared.channels| == |s.origins| && s.shared.channels[ch].Valid()
    ensures s.requests[b].phase.Waiting? ==>
      b in s.shared.channels[ch].receivers && !s.shared.channels[ch].Recv(b).Message?
    ensures s.requests[b].phase.Done? ==>
      s.requests[b].phase.call < |s.calls| && s.calls[s.requests[b].phase.call].owner == b
  {
    ReachableInv(env, tokens, steps, s);
    Around(env, s, b);
  }

  // ---------------------------------------------------------------- deduplication

  /** A follower that subscribed before publication makes no call and gets the leader's outcome. */
  lemma InTimeFollowerShares(env: Env, tokens: seq<Token>, steps: seq<Step>, s: State, b: nat, ch: nat)
    requires Reaches(env, tokens, steps, s)
    requires b < |s.requests| && s.requests[b].role == Follower(ch) && !s.requests[b].phase.Cancelled?
    requires ch < |s.origins| && s.origins[ch].publishedAt.Some? &&
      s.requests[b].arrivedAt < s.origins[ch].publishedAt.value
    ensures |s.shared.channels| == |s.origins| && s.shared.channels[ch].Valid() && s.origins[ch].leader < |s.requests|
    ensures forall c :: 0 <= c < |s.calls| ==> s.calls[c].owner != b
    ensures exists c, outcome ::
      && CallOf(s.requests[s.origins[ch].leader].phase) == Some(c) && Yielded(s, c, outcome)
      && if s.requests[b].phase.Done? then
           s.requests[b].phase.outcome == outcome && s.requests[b].phase.call == c
         else
           s.requests[b].phase.Waiting? && b in s.shared.channels[ch].receivers &&
             s.shared.channels[ch].Recv(b) == Broadcast.Message(Message(outcome, c))
  {
    ReachableInv(env, tokens, steps, s);
    Around(env, s, b);
    forall c | 0 <= c < |s.calls| ensures s.calls[c].owner != b {
      assert CallOk(env, s, c);
    }
    var l := s.origins[ch].leader;
    Around(env, s, l);
    var c := CallOf(s.requests[l].phase).value;
    assert CallOk(env, s, c);
    if s.requests[b].phase.Done? {
      assert CallOk(env, s, s.requests[b].phase.call);
      assert Yielded(s, c, s.requests[b].phase.outcome);
    } else {
      assert InTime(s, b, ch);
      assert Yielded(s, c, s.shared.channels[ch].sent[0].outcome);
    }
  }

  /** Capacity one never lags a receiver: each channel carries at most one message. */
  lemma NeverLags(env: Env, tokens: seq<Token>, steps: seq<Step>, s: State, ch: nat, r: nat)
    requires Reaches(env, tokens, steps, s)
    requires ch < |s.shared.channels| && r in s.shared.channels[ch].receivers
    ensures |s.shared.channels[ch].sent| <= 1
    ensures s.shared.channels[ch].Valid() && !s.shared.channels[ch].Recv(r).Lagged?
  {
    ReachableInv(env, tokens, steps, s);
    assert ChannelOk(env, s, ch);
  }

  /** Leaders that got as far as their call. */
  function LeadersThatCalled(s: State): set<nat> {
    set r: nat | r < |s.requests| && s.requests[r].role.Leader? && !s.requests[r].phase.Elected?
  }

  /** Followers that made a call of their own. */
  function FollowersThatCalled(s: State): set<nat> {
    set r: nat | r < |s.requests| && s.requests[r].role.Follower? && MadeOwnCall(s, r)
  }

  predicate MadeOwnCall(s: State, r: nat)
    requires r < |s.requests|
  {
    var phase := s.requests[r].phase;
    || phase.Calling?
    || (phase.Cancelled? && phase.begun.Some?)
    || (phase.Done? && phase.call < |s.calls| && s.calls[phase.call].owner == r)
  }

  function Owners(s: State, n: nat): set<nat>
    requires n <= |s.calls|
  {
    set c | 0 <= c < n :: s.calls[c].owner
  }

  lemma {:induction false} OneCallPerOwner(env: Env, s: State, n: nat)
    requires Inv(env, s) && n <= |s.calls|
    ensures |Owners(s, n)| == n
  {
    if n == 0 {
      assert Owners(s, n) == {};
    } else {
      OneCallPerOwner(env, s, n - 1);
      var last := s.calls[n - 1].owner;
      forall c | 0 <= c < n - 1 ensures s.calls[c].owner != last {
        assert CallOk(env, s, c) && CallOk(env, s, n - 1);
      }
      assert Owners(s, n) == Owners(s, n - 1) + {last};
    }
  }

  /** The callers are exactly the leaders that began and the followers left alone that went on. */
  lemma CallersAreOwners(env: Env, s: State)
    requires Inv(env, s)
    ensures Owners(s, |s.calls|) == LeadersThatCalled(s) + FollowersThatCalled(s)
  {
    forall r | r in LeadersThatCalled(s) + FollowersThatCalled(s) ensures r in Owners(s, |s.calls|) {
      assert RequestOk(env, s, r);
      assert s.calls[CallOf(s.requests[r].phase).value].owner == r;
    }
    forall r | r in Owners(s, |s.calls|) ensures r in LeadersThatCalled(s) + FollowersThatCalled(s) {
      var c :| 0 <= c < |s.calls| && s.calls[c].owner == r;
      assert CallOk(env, s, c);
      assert RequestOk(env, s, r);
    }
  }

  /**
   * Every request starts at most one call, and upstream sees exactly one per leader that began
   * plus one per follower whose channel closed without a message for it.
   */
  lemma CallAccounting(env: Env, tokens: seq<Token>, steps: seq<Step>, s: State)
    requires Reaches(env, tokens, steps, s)
    ensures forall c1, c2 :: 0 <= c1 < c2 < |s.calls| ==> s.calls[c1].owner != s.calls[c2].owner
    ensures |s.calls| == |LeadersThatCalled(s)| + |FollowersThatCalled(s)|
    ensures |s.origins| == |s.shared.channels|
    ensures forall r :: r in FollowersThatCalled(s) ==>
      s.requests[r].role.ch < |s.origins| && LeftAlone(s, r, s.requests[r].role.ch)
  {
    ReachableInv(env, tokens, steps, s);
    forall c1, c2 | 0 <= c1 < c2 < |s.calls| ensures s.calls[c1].owner != s.calls[c2].owner {
      assert CallOk(env, s, c1) && CallOk(env, s, c2);
    }
    forall r | r in FollowersThatCalled(s)
      ensures s.requests[r].role.ch < |s.origins| && LeftAlone(s, r, s.requests[r].role.ch)
    {
      assert RequestOk(env, s, r);
    }
    CallersAreOwners(env, s);
    OneCallPerOwner(env, s, |s.calls|);
    assert LeadersThatCalled(s) !! FollowersThatCalled(s);
  }

  /** N requests that meet on one uncancelled leader cost the authorization server one introspection. */
  lemma ConcurrentRequestsCostOneCall(env: Env, tokens: seq<Token>, steps: seq<Step>, s: State, ch: nat)
    requires Reaches(env, tokens, steps, s)
    requires ch < |s.origins| && s.origins[ch].publishedAt.Some?
    requires forall r :: 0 <= r < |s.requests| && r != s.origins[ch].leader ==>
      s.requests[r].role == Follower(ch) && s.requests[r].arrivedAt < s.origins[ch].publishedAt.value
    ensures |s.calls| == 1
  {
    CallAccounting(env, tokens, steps, s);
    ReachableInv(env, tokens, steps, s);
    var l := s.origins[ch].leader;
    assert ChannelOk(env, s, ch) && RequestOk(env, s, l);
    assert LeadersThatCalled(s) == {l};
    assert FollowersThatCalled(s) == {};
  }

  // ---------------------------------------------------------------- provenance

  ghost predicate Injective(hash: Token -> Hash) {
    forall x, y :: hash(x) == hash(y) ==> x == y
  }

  /**
   * A request is answered Ok for `user` exactly when the call its outcome came from was for its
   * own token and the reply vouched for `user` at the moment it was evaluated.
   */
  lemma OkTracesToVouchingReply(env: Env, tokens: seq<Token>, steps: seq<Step>, s: State, r: nat, user: User)
    requires Reaches(env, tokens, steps, s) && Injective(env.hash)
    requires r < |s.requests| && s.requests[r].phase.Done?
    ensures s.requests[r].phase.call < |s.calls|
    ensures var call := s.calls[s.requests[r].phase.call];
      && call.token == s.requests[r].token && call.answer.Some? && call.result.Some?
      && (Vouches(call.answer.value.reply, call.result.value.wallClock, env.audience, user) <==>
          ToResult(s.requests[r].phase.outcome) == Ok(user))
  {
    ReachableInv(env, tokens, steps, s);
    Around(env, s, r);
    var call := s.calls[s.requests[r].phase.call];
    assert RequestOk(env, s, call.owner);
    assert env.hash(call.token) == env.hash(s.requests[r].token);
    OkIffVouched(call.answer.value.reply, call.result.value.wallClock, env.audience, user);
  }

  /** A request is answered with an error exactly when the reply to that call says it. */
  lemma ErrTracesToReply(env: Env, tokens: seq<Token>, steps: seq<Step>, s: State, r: nat, error: AppError)
    requires Reaches(env, tokens, steps, s) && Injective(env.hash)
    requires r < |s.requests| && s.requests[r].phase.Done?
    ensures s.requests[r].phase.call < |s.calls|
    ensures var call := s.calls[s.requests[r].phase.call];
      && call.token == s.requests[r].token && call.answer.Some? && call.result.Some?
      && (Says(call.answer.value.reply, call.result.value.wallClock, env.audience, error) <==>
          ToResult(s.requests[r].phase.outcome) == Err(error))
  {
    OkTracesToVouchingReply(env, tokens, steps, s, r, User("", []));
    ReachableInv(env, tokens, steps, s);
    assert RequestOk(env, s, r);
    var call := s.calls[s.requests[r].phase.call];
    assert CallOk(env, s, s.requests[r].phase.call);
    ErrIffSaid(call.answer.value.reply, call.result.value.wallClock, env.audience, error);
  }

  // ---------------------------------------------------------------- cancellation

  /** A request can be cancelled exactly while it awaits a message or its own call, as leader or fallback. */
  lemma CancellableIffAwaiting(env: Env, tokens: seq<Token>, steps: seq<Step>, s: State, r: nat)
    requires Reaches(env, tokens, steps, s)
    ensures CanTake(s, Cancel(r)) <==>
      r < |s.requests| && (s.requests[r].phase == Waiting || exists c :: s.requests[r].phase == Calling(c))
  {
    ReachableInv(env, tokens, steps, s);
    if r < |s.requests| && s.requests[r].phase.Calling? {
      assert s.requests[r].phase == Calling(s.requests[r].phase.call);
    }
  }

  predicate WaitsOn(s: State, b: nat, l: nat)
    requires b < |s.requests| && l < |s.requests| && s.requests[l].role.Leader?
  {
    s.requests[b].phase.Waiting? && s.requests[b].role == Follower(s.requests[l].role.ch)
  }

  /** A waiting follower whose channel closed without a message falls back when it next reads. */
  lemma ClosedFrees(env: Env, s: State, b: nat, ch: nat)
    requires Inv(env, s) && WellFormed(s) && b < |s.requests| && ch < |s.shared.channels|
    requires s.requests[b].phase.Waiting? && s.requests[b].role == Follower(ch)
    requires !s.shared.channels[ch].open && s.shared.channels[ch].sent == []
    ensures CanTake(s, Receive(b)) && Apply(env, s, Receive(b)).requests[b].phase == FallingBack
  {
    Around(env, s, b);
  }

  /**
   * Cancelling a calling leader removes its entry, and each of its followers that was waiting can
   * at once find the channel closed and go on to call for itself.
   */
  lemma CancelledLeaderFreesFollowers(env: Env, tokens: seq<Token>, steps: seq<Step>, s: State, l: nat)
    requires Reaches(env, tokens, steps, s)
    requires l < |s.requests| && s.requests[l].role.Leader? && s.requests[l].phase.Calling?
    ensures CanTake(s, Cancel(l))
    ensures var t := Apply(env, s, Cancel(l));
      && t.requests[l].phase.Cancelled? && Key(env, s, l) !in t.shared.inflight
      && (forall b :: 0 <= b < |s.requests| && WaitsOn(s, b, l) ==>
            CanTake(t, Receive(b)) && Apply(env, t, Receive(b)).requests[b].phase == FallingBack)
  {
    ReachableInv(env, tokens, steps, s);
    Around(env, s, l);
    var t := Apply(env, s, Cancel(l));
    StepKeepsInv(env, s, Cancel(l));
    StepInterference(env, s, Cancel(l));
    var ch := s.requests[l].role.ch;
    assert ChannelInterference(s, t, l, ch);
    forall b | 0 <= b < |s.requests| && WaitsOn(s, b, l)
      ensures CanTake(t, Receive(b)) && Apply(env, t, Receive(b)).requests[b].phase == FallingBack
    {
      Around(env, s, b);
      ClosedFrees(env, t, b, ch);
    }
  }

  /** One step of a run prepended. */
  lemma RunCons(env: Env, s: State, step: Step, rest: seq<Step>)
    requires CanTake(s, step)
    ensures Run(env, s, [step] + rest) == Run(env, Apply(env, s, step), rest)
  {
    assert ([step] + rest)[1..] == rest;
  }

  /** Two requests for one token arrive; the one that leads begins its call and is cancelled at its await. */
  lemma LeaderCancelled(env: Env, token: Token) returns (s: State)
    ensures forall rest :: Run(env, Init([token, token]),
      [Arrive(0)] + ([StartCall(0)] + ([Arrive(1)] + ([Cancel(0)] + rest)))) == Run(env, s, rest)
    ensures Inv(env, s) && |s.requests| == 2 && |s.calls| == 1 && s.shared.inflight == map[]
    ensures s.requests[0].phase == Cancelled(Some(0)) && s.calls[0].owner == 0
    ensures CanTake(s, Receive(1)) && Apply(env, s, Receive(1)).requests[1].phase == FallingBack
  {
    var s0 := Init([token, token]);
    InitInv(env, [token, token]);
    InvWellFormed(env, s0);
    var s1 := Apply(env, s0, Arrive(0));
    StepKeepsInv(env, s0, Arrive(0));
    var s2 := Apply(env, s1, StartCall(0));
    StepKeepsInv(env, s1, StartCall(0));
    var s3 := Apply(env, s2, Arrive(1));
    StepKeepsInv(env, s2, Arrive(1));
    s := Apply(env, s3, Cancel(0));
    StepKeepsInv(env, s3, Cancel(0));
    forall rest ensures Run(env, s0, [Arrive(0)] + ([StartCall(0)] + ([Arrive(1)] + ([Cancel(0)] + rest)))) ==
      Run(env, s, rest) {
      RunCons(env, s3, Cancel(0), rest);
      RunCons(env, s2, Arrive(1), [Cancel(0)] + rest);
      RunCons(env, s1, StartCall(0), [Arrive(1)] + ([Cancel(0)] + rest));
      RunCons(env, s0, Arrive(0), [StartCall(0)] + ([Arrive(1)] + ([Cancel(0)] + rest)));
    }
  }

  /** A request left alone makes its own call and returns what the reply to it says. */
  lemma CallsForItself(env: Env, s: State, r: nat, reply: Reply, wallClock: int)
    returns (steps: seq<Step>, t: State)
    requires Inv(env, s) && r < |s.requests| && s.requests[r].phase == FallingBack && s.requests[r].role.Follower?
    ensures steps == [StartCall(r)] + ([Settle(r, reply)] + ([Return(r, wallClock)] + []))
    ensures Run(env, s, steps) == Some(t) && t.shared == s.shared
    ensures |t.requests| == |s.requests| && t.requests == s.requests[r := t.requests[r]]
    ensures t.requests[r].phase == Done(Judge(reply, wallClock, env.audience), |s.calls|, s.now + 2)
    ensures |t.calls| == |s.calls| + 1 && t.calls[..|s.calls|] == s.calls && t.calls[|s.calls|].owner == r
  {
    InvWellFormed(env, s);
    var s1 := Apply(env, s, StartCall(r));
    StepKeepsInv(env, s, StartCall(r));
    var s2 := Apply(env, s1, Settle(r, reply));
    StepKeepsInv(env, s1, Settle(r, reply));
    t := Apply(env, s2, Return(r, wallClock));
    steps := [StartCall(r)] + ([Settle(r, reply)] + ([Return(r, wallClock)] + []));
    RunCons(env, s2, Return(r, wallClock), []);
    RunCons(env, s1, Settle(r, reply), [Return(r, wallClock)] + []);
    RunCons(env, s, StartCall(r), [Settle(r, reply)] + ([Return(r, wallClock)] + []));
  }

  /** The same from the moment it finds its channel closed. */
  lemma FallsBack(env: Env, s: State, r: nat, reply: Reply, wallClock: int) returns (steps: seq<Step>, t: State)
    requires Inv(env, s) && CanTake(s, Receive(r)) && Apply(env, s, Receive(r)).requests[r].phase == FallingBack
    ensures steps == [Receive(r)] + ([StartCall(r)] + ([Settle(r, reply)] + ([Return(r, wallClock)] + [])))
    ensures Run(env, s, steps) == Some(t) && t.shared.inflight == s.shared.inflight
    ensures |t.requests| == |s.requests| && t.requests == s.requests[r := t.requests[r]]
    ensures t.requests[r].phase == Done(Judge(reply, wallClock, env.audience), |s.calls|, s.now + 3)
    ensures |t.calls| == |s.calls| + 1 && t.calls[..|s.calls|] == s.calls && t.calls[|s.calls|].owner == r
  {
    var s1 := Apply(env, s, Receive(r));
    StepKeepsInv(env, s, Receive(r));
    var more;
    more, t := CallsForItself(env, s1, r, reply, wallClock);
    steps := [Receive(r)] + more;
    RunCons(env, s, Receive(r), more);
  }

  /**
   * A cancelled leader costs its follower one more call and nothing else: a run in which the leader
   * is cancelled at its await, the follower finds the channel closed and is answered by a call of
   * its own, whatever the reply; two calls in all, and no entry is left behind.
   */
  lemma CancelledLeaderRun(env: Env, token: Token, reply: Reply, wallClock: int)
    returns (steps: seq<Step>, t: State)
    ensures Reaches(env, [token, token], steps, t) && |t.requests| == 2 && |t.calls| == 2
    ensures steps == [Arrive(0), StartCall(0), Arrive(1), Cancel(0),
      Receive(1), StartCall(1), Settle(1, reply), Return(1, wallClock)]
    ensures t.requests[0].phase == Cancelled(Some(0)) && t.calls[0].owner == 0
    ensures t.requests[1].phase.Done? && t.requests[1].phase.call == 1 && t.calls[1].owner == 1
    ensures t.requests[1].phase.outcome == Judge(reply, wallClock, env.audience)
    ensures t.shared.inflight == map[]
  {
    var s := LeaderCancelled(env, token);
    var more;
    more, t := FallsBack(env, s, 1, reply, wallClock);
    steps := [Arrive(0)] + ([StartCall(0)] + ([Arrive(1)] + ([Cancel(0)] + more)));
    assert t.calls[..1][0] == t.calls[0];
  }

  // ---------------------------------------------------------------- progress

  predicate Finished(q: Request) {
    q.phase.Done? || q.phase.Cancelled?
  }

  /** The step that is due for `r`, or for the leader it is waiting on. */
  ghost function NextStep(s: State, r: nat): Step
    requires WellFormed(s) && |s.origins| == |s.shared.channels| && r < |s.requests|
    requires !Finished(s.requests[r]) && !s.requests[r].phase.NotArrived?
    decreases s.requests[r].phase.Waiting?
  {
    var q := s.requests[r];
    match q.phase
    case Calling(c) => if s.calls[c].answer.None? then Settle(r, Unreachable) else Return(r, 0)
    case Holding(_) => Publish(r)
    case Announced(_) => DropGuard(r)
    case Waiting =>
      var l := s.origins[q.role.ch].leader;
      if !s.shared.channels[q.role.ch].Recv(r).Empty? then Receive(r)
      else if l < |s.requests| && Leads(s.requests[l]) then NextStep(s, l)
      else Cancel(r)
    case _ => StartCall(r)
  }

  /** No request is ever wedged: it, or the live leader it waits for, can always go on. */
  lemma NeverWedged(env: Env, tokens: seq<Token>, steps: seq<Step>, s: State, r: nat)
    requires Reaches(env, tokens, steps, s)
    requires r < |s.requests| && !Finished(s.requests[r]) && !s.requests[r].phase.NotArrived?
    ensures WellFormed(s) && |s.origins| == |s.shared.channels|
    ensures Enabled(s, NextStep(s, r)) && !NextStep(s, r).Cancel? && !NextStep(s, r).Arrive?
    ensures NextStep(s, r).r == r ||
      (s.requests[r].phase.Waiting? && NextStep(s, r).r == s.origins[s.requests[r].role.ch].leader)
  {
    ReachableInv(env, tokens, steps, s);
    Around(env, s, r);
    if s.requests[r].phase.Waiting? {
      Around(env, s, s.origins[s.requests[r].role.ch].leader);
    }
  }

  /** Steps a request may still take. */
  function Weight(s: State, q: Request): nat {
    match q.phase
    case NotArrived => 6
    case Elected => 5
    case Calling(c) =>
      (if q.role.Leader? then 2 else 0) + (if c < |s.calls| && s.calls[c].answer.Some? then 1 else 2)
    case Holding(_) => 2
    case Announced(_) => 1
    case Waiting => 4
    case FallingBack => 3
    case _ => 0
  }

  function Work(s: State, n: nat): nat
    requires n <= |s.requests|
  {
    if n == 0 then 0 else Work(s, n - 1) + Weight(s, s.requests[n - 1])
  }

  lemma {:induction false} WorkDrops(s: State, t: State, mover: nat, n: nat)
    requires n <= |s.requests| == |t.requests|
    requires forall r :: 0 <= r < n && r != mover ==> Weight(t, t.requests[r]) == Weight(s, s.requests[r])
    requires mover < n ==> Weight(t, t.requests[mover]) < Weight(s, s.requests[mover])
    ensures if mover < n then Work(t, n) < Work(s, n) else Work(t, n) == Work(s, n)
  {
    if n > 0 {
      WorkDrops(s, t, mover, n - 1);
    }
  }

  lemma MoverDoesWork(env: Env, s: State, step: Step)
    requires Inv(env, s) && WellFormed(s) && Enabled(s, step)
    ensures step.r < |Apply(env, s, step).requests|
    ensures Weight(Apply(env, s, step), Apply(env, s, step).requests[step.r]) < Weight(s, s.requests[step.r])
  {
    assert RequestOk(env, s, step.r);
  }

  lemma StepDoesWork(env: Env, s: State, step: Step)
    requires Inv(env, s) && WellFormed(s) && Enabled(s, step)
    ensures |Apply(env, s, step).requests| == |s.requests|
    ensures Work(Apply(env, s, step), |s.requests|) < Work(s, |s.requests|)
  {
    var t := Apply(env, s, step);
    StepInterference(env, s, step);
    MoverDoesWork(env, s, step);
    forall r | 0 <= r < |s.requests| && r != step.r ensures Weight(t, t.requests[r]) == Weight(s, s.requests[r]) {
      BystanderWeight(env, s, t, step.r, r);
    }
    WorkDrops(s, t, step.r, |s.requests|);
  }

  lemma BystanderWeight(env: Env, s: State, t: State, mover: nat, r: nat)
    requires Inv(env, s) && Interference(s, t, mover) && r < |s.requests| && r != mover
    ensures Weight(t, t.requests[r]) == Weight(s, s.requests[r])
  {
    assert RequestOk(env, s, r);
  }

  lemma {:induction false} RunDoesWork(env: Env, s: State, steps: seq<Step>, t: State)
    requires Inv(env, s) && Run(env, s, steps) == Some(t)
    ensures |t.requests| == |s.requests|
    ensures |steps| + Work(t, |t.requests|) <= Work(s, |s.requests|)
    decreases |steps|
  {
    if steps != [] {
      StepDoesWork(env, s, steps[0]);
      StepKeepsInv(env, s, steps[0]);
      RunDoesWork(env, Apply(env, s, steps[0]), steps[1..], t);
    }
  }

  lemma {:induction false} InitialWork(tokens: seq<Token>, n: nat)
    requires n <= |tokens|
    ensures Work(Init(tokens), n) == 6 * n
  {
    if n > 0 {
      InitialWork(tokens, n - 1);
    }
  }

  /** n requests take at most 6n steps, whatever the interleaving. */
  lemma RunsAreBounded(env: Env, tokens: seq<Token>, steps: seq<Step>, s: State)
    requires Reaches(env, tokens, steps, s)
    ensures |steps| <= 6 * |tokens|
  {
    InitInv(env, tokens);
    RunDoesWork(env, Init(tokens), steps, s);
    InitialWork(tokens, |tokens|);
  }

  /**
   * When only cancellations and new arrivals remain possible, every request that arrived has
   * returned an outcome or been cancelled, and no in-flight entry is left behind.
   */
  lemma MaximalRunsFinish(env: Env, tokens: seq<Token>, steps: seq<Step>, s: State)
    requires Reaches(env, tokens, steps, s)
    requires forall step :: CanTake(s, step) ==> step.Cancel? || step.Arrive?
    ensures forall r :: 0 <= r < |s.requests| ==> Finished(s.requests[r]) || s.requests[r].phase.NotArrived?
    ensures s.shared.inflight == map[]
  {
    ReachableInv(env, tokens, steps, s);
    forall r | 0 <= r < |s.requests| ensures Finished(s.requests[r]) || s.requests[r].phase.NotArrived? {
      if !Finished(s.requests[r]) && !s.requests[r].phase.NotArrived? {
        NeverWedged(env, tokens, steps, s, r);
        assert CanTake(s, NextStep(s, r));
        assert false;
      }
    }
    forall k ensures k !in s.shared.inflight {
      EntryIffOneLeader(env, tokens, steps, s, k);
    }
  }
}
