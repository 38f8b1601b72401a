/** What every step of the protocol keeps. */
module SingleFlightInvariant {
  import opened Wrappers
  import opened Introspection
  import opened SingleFlight
  import Broadcast

  /** The leader owns its map entry from election until its guard is dropped. */
  predicate Leads(q: Request) {
    q.role.Leader? && (q.phase.Elected? || q.phase.Calling? || q.phase.Holding? || q.phase.Announced?)
  }

  /** The call this request is about to return, is awaiting, or had begun. */
  function CallOf(phase: Phase): Option<nat> {
    match phase
    case Calling(c) => Some(c)
    case Holding(c) => Some(c)
    case Announced(c) => Some(c)
    case Done(_, c, _) => Some(c)
    case Cancelled(begun) => begun
    case _ => None
  }

  /** `r` subscribed to `ch` while its outcome was still to be published. */
  predicate InTime(s: State, r: nat, ch: nat)
    requires r < |s.requests| && ch < |s.origins|
  {
    var p := s.origins[ch].publishedAt;
    p.None? || s.requests[r].arrivedAt < p.value
  }

  /** The channel closed before it carried anything `r` could see. */
  predicate LeftAlone(s: State, r: nat, ch: nat)
    requires r < |s.requests| && ch < |s.origins| && |s.origins| == |s.shared.channels|
  {
    !s.shared.channels[ch].open &&
      (s.origins[ch].publishedAt.Some? ==> s.origins[ch].publishedAt.value < s.requests[r].arrivedAt)
  }

  /** The outcome of `c` is `outcome`. */
  predicate Yielded(s: State, c: nat, outcome: Outcome) {
    c < |s.calls| && s.calls[c].result.Some? && s.calls[c].result.value.outcome == outcome
  }

  ghost predicate LeaderOk(env: Env, s: State, r: nat, ch: nat)
    requires r < |s.requests| && |s.origins| == |s.shared.channels|
  {
    var q := s.requests[r];
    && ch < |s.origins|
    && s.origins[ch].leader == r && s.origins[ch].key == Key(env, s, r)
    && !q.phase.NotArrived? && !q.phase.Waiting? && !q.phase.FallingBack?
    && (Leads(q) <==> s.shared.channels[ch].open)
    && (s.origins[ch].publishedAt.Some? <==> q.phase.Announced? || q.phase.Done?)
    && (s.origins[ch].publishedAt.Some? ==> q.arrivedAt < s.origins[ch].publishedAt.value < s.now)
    && (q.phase.Done? ==> s.origins[ch].publishedAt.value < q.phase.at < s.now)
    && (q.phase.Cancelled? ==> q.phase.begun.Some?)
    && (CallOf(q.phase).Some? ==> CallOf(q.phase).value < |s.calls| && s.calls[CallOf(q.phase).value].owner == r)
  }

  ghost predicate FollowerOk(env: Env, s: State, r: nat, ch: nat)
    requires r < |s.requests| && |s.origins| == |s.shared.channels|
  {
    var q := s.requests[r];
    && ch < |s.origins|
    && s.origins[ch].key == Key(env, s, r)
    && !q.phase.NotArrived? && !q.phase.Elected? && !q.phase.Holding? && !q.phase.Announced?
    && (s.origins[ch].publishedAt.Some? ==> s.origins[ch].publishedAt.value != q.arrivedAt)
    && (q.phase.Waiting? <==> r in s.shared.channels[ch].receivers)
    && (q.phase.Waiting? ==> WaitingOk(s, r, ch))
    && (q.phase.FallingBack? || q.phase.Calling? ==> LeftAlone(s, r, ch))
    && (q.phase.Cancelled? && q.phase.begun.Some? ==> LeftAlone(s, r, ch))
    && (q.phase.Done? ==> FollowerDoneOk(s, r, ch))
    && ((q.phase.Calling? || q.phase.Cancelled?) && CallOf(q.phase).Some? ==>
          CallOf(q.phase).value < |s.calls| && s.calls[CallOf(q.phase).value].owner == r)
  }

  /** An in-time follower finds the one message unread; a late one finds nothing. */
  ghost predicate WaitingOk(s: State, r: nat, ch: nat)
    requires r < |s.requests| && ch < |s.origins| && |s.origins| == |s.shared.channels|
    requires r in s.shared.channels[ch].receivers
  {
    var chan := s.shared.channels[ch];
    if InTime(s, r, ch) then
      chan.receivers[r] == 0 && |chan.sent| == (if s.origins[ch].publishedAt.Some? then 1 else 0)
    else
      chan.receivers[r] == |chan.sent|
  }

  /** A follower's outcome came from its own call, or was published after it subscribed. */
  ghost predicate FollowerDoneOk(s: State, r: nat, ch: nat)
    requires r < |s.requests| && ch < |s.origins| && |s.origins| == |s.shared.channels|
    requires s.requests[r].phase.Done?
  {
    var q := s.requests[r];
    && q.phase.call < |s.calls|
    && q.arrivedAt < q.phase.at < s.now
    && if s.calls[q.phase.call].owner == r then
         LeftAlone(s, r, ch)
       else
         && s.calls[q.phase.call].owner == s.origins[ch].leader
         && s.origins[ch].publishedAt.Some?
         && q.arrivedAt < s.origins[ch].publishedAt.value < q.phase.at
  }

  ghost predicate RequestOk(env: Env, s: State, r: nat)
    requires r < |s.requests| && |s.origins| == |s.shared.channels|
  {
    var q := s.requests[r];
    && (q.phase.NotArrived? <==> q.role.Undecided?)
    && (!q.phase.NotArrived? ==> q.arrivedAt < s.now)
    && (q.role.Leader? ==> LeaderOk(env, s, r, q.role.ch))
    && (q.role.Follower? ==> FollowerOk(env, s, r, q.role.ch))
    && (q.phase.Done? ==> Yielded(s, q.phase.call, q.phase.outcome))
  }

  ghost predicate ChannelOk(env: Env, s: State, ch: nat)
    requires ch < |s.origins| == |s.shared.channels|
  {
    var chan := s.shared.channels[ch];
    var o := s.origins[ch];
    && chan.Valid() && chan.capacity == 1
    && o.leader < |s.requests| && s.requests[o.leader].role == Leader(ch)
    && (chan.open ==> o.key in s.shared.inflight && s.shared.inflight[o.key] == ch)
    && |chan.sent| <= (if o.publishedAt.Some? then 1 else 0)
    && (|chan.sent| == 1 ==>
          && CallOf(s.requests[o.leader].phase) == Some(chan.sent[0].call)
          && Yielded(s, chan.sent[0].call, chan.sent[0].outcome))
    && (forall r :: r in chan.receivers ==>
          r < |s.requests| && s.requests[r].role == Follower(ch) && s.requests[r].phase.Waiting?)
  }

  ghost predicate CallOk(env: Env, s: State, c: nat)
    requires c < |s.calls|
  {
    var call := s.calls[c];
    && call.owner < |s.requests|
    && call.token == s.requests[call.owner].token
    && CallOf(s.requests[call.owner].phase) == Some(c)
    && s.requests[call.owner].arrivedAt < call.startedAt < s.now
    && (call.answer.Some? ==> call.startedAt < call.answer.value.at < s.now)
    && (call.result.Some? ==>
          && call.answer.Some?
          && call.result.value.outcome == Judge(call.answer.value.reply, call.result.value.wallClock, env.audience))
    && (s.requests[call.owner].phase.Calling? ==> call.result.None?)
    && (s.requests[call.owner].phase.Holding? || s.requests[call.owner].phase.Announced? ==> call.result.Some?)
  }

  ghost predicate EntryOk(env: Env, s: State, k: Hash)
    requires k in s.shared.inflight
  {
    var ch := s.shared.inflight[k];
    ch < |s.origins| == |s.shared.channels| && s.origins[ch].key == k && s.shared.channels[ch].open
  }

  ghost predicate Inv(env: Env, s: State) {
    && |s.origins| == |s.shared.channels|
    && (forall r {:trigger RequestOk(env, s, r)} :: 0 <= r < |s.requests| ==> RequestOk(env, s, r))
    && (forall ch {:trigger ChannelOk(env, s, ch)} :: 0 <= ch < |s.origins| ==> ChannelOk(env, s, ch))
    && (forall c {:trigger CallOk(env, s, c)} :: 0 <= c < |s.calls| ==> CallOk(env, s, c))
    && (forall k {:trigger EntryOk(env, s, k)} :: k in s.shared.inflight ==> EntryOk(env, s, k))
  }

  lemma InvWellFormed(env: Env, s: State)
    requires Inv(env, s)
    ensures WellFormed(s)
  {
    forall r | 0 <= r < |s.requests| ensures RefsInRange(s, s.requests[r], r) {
      assert RequestOk(env, s, r);
      assert CallOf(s.requests[r].phase).Some? && s.requests[r].role.Leader? ==>
        CallOk(env, s, CallOf(s.requests[r].phase).value);
    }
    forall k | k in s.shared.inflight ensures s.shared.inflight[k] < |s.shared.channels| {
      assert EntryOk(env, s, k);
    }
    forall ch | 0 <= ch < |s.shared.channels| ensures s.shared.channels[ch].Valid() {
      assert ChannelOk(env, s, ch);
    }
  }

  lemma InitInv(env: Env, tokens: seq<Token>)
    ensures Inv(env, Init(tokens))
  {}

  /** The facts about request `r`, its channel, that channel's leader and `r`'s call. */
  lemma Around(env: Env, s: State, r: nat)
    requires Inv(env, s) && r < |s.requests|
    ensures RequestOk(env, s, r)
    ensures CallOf(s.requests[r].phase).Some? ==>
      CallOf(s.requests[r].phase).value < |s.calls| && CallOk(env, s, CallOf(s.requests[r].phase).value)
    ensures !s.requests[r].role.Undecided? ==>
      var ch := s.requests[r].role.ch;
      ch < |s.origins| && ChannelOk(env, s, ch) && RequestOk(env, s, s.origins[ch].leader)
  {
    assert RequestOk(env, s, r);
    if !s.requests[r].role.Undecided? {
      assert ChannelOk(env, s, s.requests[r].role.ch);
      assert RequestOk(env, s, s.origins[s.requests[r].role.ch].leader);
    }
    if CallOf(s.requests[r].phase).Some? {
      assert CallOk(env, s, CallOf(s.requests[r].phase).value);
    }
  }

  predicate OwnOutcome(s: State, r: nat, m: Message)
    requires r < |s.requests|
  {
    s.requests[r].phase == Announced(m.call) && Yielded(s, m.call, m.outcome)
  }

  predicate OneMoreSent(s: State, r: nat, was: seq<Message>, sent: seq<Message>)
    requires r < |s.requests|
  {
    |sent| == |was| + 1 && was <= sent && OwnOutcome(s, r, sent[|was|])
  }

  /** What a step of `mover` may do to channel `ch`, whoever subscribes to it. */
  ghost predicate ChannelInterference(s: State, t: State, mover: nat, ch: nat)
    requires ch < |s.origins| == |s.shared.channels| && ch < |t.origins| == |t.shared.channels|
    requires mover < |t.requests|
  {
    var o, o' := s.origins[ch], t.origins[ch];
    var chan, chan' := s.shared.channels[ch], t.shared.channels[ch];
    && o'.key == o.key && o'.leader == o.leader && chan'.capacity == chan.capacity
    && (forall x :: x != mover ==> (x in chan'.receivers <==> x in chan.receivers))
    && (forall x :: x != mover && x in chan.receivers ==> chan'.receivers[x] == chan.receivers[x])
    && (mover in chan'.receivers ==> t.requests[mover].role == Follower(ch) && t.requests[mover].phase.Waiting?)
    && (chan'.open ==> chan.open)
    && (chan.open && !chan'.open ==> mover == o.leader)
    && (if o'.publishedAt == o.publishedAt then
          chan'.sent == chan.sent
        else
          && mover == o.leader && chan.open && o.publishedAt.None? && o'.publishedAt == Some(s.now)
          && (if chan.receivers == map[] then chan'.sent == chan.sent
              else OneMoreSent(t, mover, chan.sent, chan'.sent)))
  }

  /** What anyone else relies on while `mover` takes a step. */
  ghost predicate Interference(s: State, t: State, mover: nat) {
    && t.now == s.now + 1
    && |s.origins| == |s.shared.channels| && |t.origins| == |t.shared.channels| && |s.origins| <= |t.origins|
    && mover < |t.requests| == |s.requests|
    && (forall r :: 0 <= r < |s.requests| && r != mover ==> t.requests[r] == s.requests[r])
    && (s.requests[mover].role.Undecided? || t.requests[mover].role == s.requests[mover].role)
    && (CallOf(s.requests[mover].phase).Some? ==> CallOf(t.requests[mover].phase) == CallOf(s.requests[mover].phase))
    && |s.calls| <= |t.calls|
    && (forall c :: 0 <= c < |s.calls| ==>
          t.calls[c].owner == s.calls[c].owner && (s.calls[c].result.Some? ==> t.calls[c].result == s.calls[c].result))
    && (forall c :: 0 <= c < |s.calls| && s.calls[c].owner != mover ==> t.calls[c] == s.calls[c])
    && (forall ch {:trigger ChannelInterference(s, t, mover, ch)} :: 0 <= ch < |s.origins| ==>
          ChannelInterference(s, t, mover, ch))
    && (forall k :: k in s.shared.inflight ==> s.shared.inflight[k] < |s.origins|)
    && (forall k :: k in s.shared.inflight ==>
          if k in t.shared.inflight then t.shared.inflight[k] == s.shared.inflight[k]
          else !t.shared.channels[s.shared.inflight[k]].open)
  }

  /** Arriving adds a receiver to a live channel or opens a new one. */
  lemma ArriveInterference(env: Env, s: State, step: Step)
    requires Inv(env, s) && WellFormed(s) && Enabled(s, step) && step.Arrive?
    ensures Interference(s, Apply(env, s, step), step.r)
  {
    var t := Apply(env, s, step);
    assert RequestOk(env, s, step.r);
    if Key(env, s, step.r) in s.shared.inflight {
      assert EntryOk(env, s, Key(env, s, step.r));
    }
    forall ch | 0 <= ch < |s.origins| ensures ChannelInterference(s, t, step.r, ch) {
      assert ChannelOk(env, s, ch);
    }
  }

  /** Dropping a guard closes the mover's own channel. */
  lemma DropGuardInterference(env: Env, s: State, step: Step)
    requires Inv(env, s) && WellFormed(s) && Enabled(s, step) && step.DropGuard?
    ensures Interference(s, Apply(env, s, step), step.r)
  {
    var t := Apply(env, s, step);
    Around(env, s, step.r);
    forall ch | 0 <= ch < |s.origins| ensures ChannelInterference(s, t, step.r, ch) {
      assert ChannelOk(env, s, ch);
    }
  }

  /** A cancelled leader drops its guard, a cancelled follower its receiver. */
  lemma CancelInterference(env: Env, s: State, step: Step)
    requires Inv(env, s) && WellFormed(s) && Enabled(s, step) && step.Cancel?
    ensures Interference(s, Apply(env, s, step), step.r)
  {
    var t := Apply(env, s, step);
    Around(env, s, step.r);
    forall ch | 0 <= ch < |s.origins| ensures ChannelInterference(s, t, step.r, ch) {
      assert ChannelOk(env, s, ch);
    }
  }

  /** Steps of a request's own call, which do not touch the table. */
  predicate OwnCallStep(step: Step) {
    step.StartCall? || step.Settle? || step.Return?
  }

  lemma OwnCallInterference(env: Env, s: State, step: Step)
    requires Inv(env, s) && WellFormed(s) && Enabled(s, step) && OwnCallStep(step)
    ensures Interference(s, Apply(env, s, step), step.r)
  {
    var t := Apply(env, s, step);
    Around(env, s, step.r);
    forall ch | 0 <= ch < |s.origins| ensures ChannelInterference(s, t, step.r, ch) {
      assert ChannelOk(env, s, ch);
    }
  }

  /** Publishing sends to the mover's own channel, receiving leaves one. */
  lemma MessageInterference(env: Env, s: State, step: Step)
    requires Inv(env, s) && WellFormed(s) && Enabled(s, step) && (step.Publish? || step.Receive?)
    ensures Interference(s, Apply(env, s, step), step.r)
  {
    var t := Apply(env, s, step);
    Around(env, s, step.r);
    forall ch | 0 <= ch < |s.origins| ensures ChannelInterference(s, t, step.r, ch) {
      assert ChannelOk(env, s, ch);
    }
  }

  lemma ArriverKept(env: Env, s: State, step: Step)
    requires Inv(env, s) && WellFormed(s) && Enabled(s, step) && step.Arrive?
    ensures RequestOk(env, Apply(env, s, step), step.r)
  {
    assert RequestOk(env, s, step.r);
    if Key(env, s, step.r) in s.shared.inflight {
      assert EntryOk(env, s, Key(env, s, step.r));
      var ch := s.shared.inflight[Key(env, s, step.r)];
      assert ChannelOk(env, s, ch);
      Around(env, s, s.origins[ch].leader);
    }
  }

  lemma CallerKept(env: Env, s: State, step: Step)
    requires Inv(env, s) && WellFormed(s) && Enabled(s, step) && OwnCallStep(step)
    ensures RequestOk(env, Apply(env, s, step), step.r)
  {
    Around(env, s, step.r);
  }

  lemma MoverKept(env: Env, s: State, step: Step)
    requires Inv(env, s) && WellFormed(s) && Enabled(s, step) && (step.Publish? || step.DropGuard? || step.Receive?)
    ensures RequestOk(env, Apply(env, s, step), step.r)
  {
    Around(env, s, step.r);
  }

  lemma CancelledKept(env: Env, s: State, step: Step)
    requires Inv(env, s) && WellFormed(s) && Enabled(s, step) && step.Cancel?
    ensures RequestOk(env, Apply(env, s, step), step.r)
  {
    Around(env, s, step.r);
  }

  /** Every other request withstands the interference. */
  lemma BystanderKept(env: Env, s: State, t: State, mover: nat, r: nat)
    requires Inv(env, s) && Interference(s, t, mover) && r < |s.requests| && r != mover
    ensures RequestOk(env, t, r)
  {
    Around(env, s, r);
    if !s.requests[r].role.Undecided? {
      assert ChannelInterference(s, t, mover, s.requests[r].role.ch);
    }
  }

  lemma ChannelKept(env: Env, s: State, t: State, mover: nat, ch: nat)
    requires Inv(env, s) && Interference(s, t, mover) && RequestOk(env, t, mover)
    requires ch < |s.origins|
    ensures ChannelOk(env, t, ch)
  {
    assert ChannelOk(env, s, ch);
    assert ChannelInterference(s, t, mover, ch);
    Around(env, s, s.origins[ch].leader);
  }

  /** The mover's own call: begun, answered, evaluated or given up by this step. */
  lemma OwnCallKept(env: Env, s: State, step: Step, c: nat)
    requires Inv(env, s) && WellFormed(s) && Enabled(s, step)
    requires c < |Apply(env, s, step).calls| && (c < |s.calls| ==> s.calls[c].owner == step.r)
    ensures CallOk(env, Apply(env, s, step), c)
  {
    assert RequestOk(env, s, step.r);
    if c < |s.calls| {
      assert CallOk(env, s, c);
    }
  }

  lemma EntryKept(env: Env, s: State, step: Step, k: Hash)
    requires Inv(env, s) && WellFormed(s) && Enabled(s, step)
    requires k in Apply(env, s, step).shared.inflight
    ensures EntryOk(env, Apply(env, s, step), k)
  {
    Around(env, s, step.r);
    if k in s.shared.inflight {
      assert EntryOk(env, s, k);
    }
    if step.Arrive? && Key(env, s, step.r) in s.shared.inflight {
      assert EntryOk(env, s, Key(env, s, step.r));
    }
  }

  lemma StepInterference(env: Env, s: State, step: Step)
    requires Inv(env, s) && WellFormed(s) && Enabled(s, step)
    ensures Interference(s, Apply(env, s, step), step.r)
  {
    match step {
      case Arrive(_) => ArriveInterference(env, s, step);
      case DropGuard(_) => DropGuardInterference(env, s, step);
      case Cancel(_) => CancelInterference(env, s, step);
      case Publish(_) => MessageInterference(env, s, step);
      case Receive(_) => MessageInterference(env, s, step);
      case _ => OwnCallInterference(env, s, step);
    }
  }

  lemma StepKeepsInv(env: Env, s: State, step: Step)
    requires Inv(env, s) && WellFormed(s) && Enabled(s, step)
    ensures Inv(env, Apply(env, s, step)) && WellFormed(Apply(env, s, step))
  {
    var t := Apply(env, s, step);
    StepInterference(env, s, step);
    match step {
      case Arrive(_) => ArriverKept(env, s, step);
      case Publish(_) => MoverKept(env, s, step);
      case DropGuard(_) => MoverKept(env, s, step);
      case Receive(_) => MoverKept(env, s, step);
      case Cancel(_) => CancelledKept(env, s, step);
      case _ => CallerKept(env, s, step);
    }
    forall r | 0 <= r < |t.requests| ensures RequestOk(env, t, r) {
      if r != step.r { BystanderKept(env, s, t, step.r, r); }
    }
    forall ch | 0 <= ch < |t.origins| ensures ChannelOk(env, t, ch) {
      if ch < |s.origins| { ChannelKept(env, s, t, step.r, ch); }
    }
    forall c | 0 <= c < |t.calls| ensures CallOk(env, t, c) {
      if c < |s.calls| && s.calls[c].owner != step.r {
        assert CallOk(env, s, c);
      } else {
        OwnCallKept(env, s, step, c);
      }
    }
    forall k | k in t.shared.inflight ensures EntryOk(env, t, k) { EntryKept(env, s, step, k); }
    InvWellFormed(env, t);
  }
}
