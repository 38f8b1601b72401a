/**
 * The single-flight protocol of `introspect`: the shared table of in-flight calls, and every
 * interleaving of the atomic sections of any number of concurrent requests over it.
 */
module SingleFlight {
  import opened Wrappers
  import opened Introspection
  import Broadcast

  type Hash = seq<u8>

  /** A published outcome, with the id of the call it came from. */
  datatype Message = Message(outcome: Outcome, call: nat)

  type Channel = Broadcast.Channel<Message>

  // ---------------------------------------------------------------- the shared table

  /** The mutex-protected map; `channels` lists every channel ever created, by id. */
  datatype Shared = Shared(inflight: map<Hash, nat>, channels: seq<Channel>) {
    ghost predicate Valid() {
      && (forall k :: k in inflight ==> inflight[k] < |channels|)
      && (forall ch :: 0 <= ch < |channels| ==> channels[ch].Valid())
    }
  }

  function Joined(sh: Shared, key: Hash, r: nat): Shared
    requires sh.Valid()
  {
    if key in sh.inflight then
      var ch := sh.inflight[key];
      sh.(channels := sh.channels[ch := sh.channels[ch].Subscribe(r)])
    else
      Shared(sh.inflight[key := |sh.channels|], sh.channels + [Broadcast.New(1)])
  }

  function Published(sh: Shared, key: Hash, m: Message): Shared
    requires sh.Valid()
  {
    if key in sh.inflight then
      var ch := sh.inflight[key];
      sh.(channels := sh.channels[ch := sh.channels[ch].Send(m)])
    else
      sh
  }

  /** Removing an entry drops the sender it holds. */
  function Released(sh: Shared, key: Hash): Shared
    requires sh.Valid()
  {
    if key in sh.inflight then
      var ch := sh.inflight[key];
      Shared(sh.inflight - {key}, sh.channels[ch := sh.channels[ch].DropSender()])
    else
      sh
  }

  /** The receiver half is dropped when its request moves on or is cancelled. */
  function Left(sh: Shared, ch: nat, r: nat): Shared
    requires ch < |sh.channels|
  {
    sh.(channels := sh.channels[ch := sh.channels[ch].Unsubscribe(r)])
  }

  /** The client's table as the program holds it; each method is one critical section. */
  class InflightTable {
    var inflight: map<Hash, nat>
    var channels: seq<Channel>

    ghost function View(): Shared
      reads this
    {
      Shared(inflight, channels)
    }

    constructor ()
      ensures View() == Shared(map[], [])
      ensures View().Valid()
    {
      inflight := map[];
      channels := [];
    }

    /** Become the leader for `key`, or subscribe to the leader's channel. */
    method Join(key: Hash, r: nat) returns (follower: Option<nat>)
      requires View().Valid()
      modifies this
      ensures View() == Joined(old(View()), key, r) && View().Valid()
      ensures follower == if key in old(inflight) then Some(old(inflight)[key]) else None
      ensures key in inflight && inflight[key] < |channels|
      ensures follower.Some? ==> r in channels[follower.value].receivers && inflight == old(inflight)
      ensures follower.None? ==> channels == old(channels) + [Broadcast.New(1)] && inflight[key] == |old(channels)|
    {
      if key in inflight {
        var ch := inflight[key];
        channels := channels[ch := channels[ch].Subscribe(r)];
        follower := Some(ch);
      } else {
        inflight := inflight[key := |channels|];
        channels := channels + [Broadcast.New(1)];
        follower := None;
      }
    }

    method Publish(key: Hash, m: Message)
      requires View().Valid()
      modifies this
      ensures View() == Published(old(View()), key, m) && View().Valid()
      ensures inflight == old(inflight)
    {
      if key in inflight {
        var ch := inflight[key];
        channels := channels[ch := channels[ch].Send(m)];
      }
    }

    /** `InflightGuard::drop`. */
    method RemoveEntry(key: Hash)
      requires View().Valid()
      modifies this
      ensures View() == Released(old(View()), key) && View().Valid()
      ensures key !in inflight
      ensures key in old(inflight) ==> !channels[old(inflight)[key]].open
    {
      if key in inflight {
        var ch := inflight[key];
        channels := channels[ch := channels[ch].DropSender()];
      }
      inflight := inflight - {key};
    }

    /** One poll of `recv()`; a receiver that got an answer is dropped. */
    method Receive(ch: nat, r: nat) returns (got: Broadcast.Received<Message>)
      requires View().Valid() && ch < |channels| && r in channels[ch].receivers
      modifies this
      ensures got == old(channels)[ch].Recv(r)
      ensures View() == (if got.Empty? then old(View()) else Left(old(View()), ch, r)) && View().Valid()
    {
      got := channels[ch].Recv(r);
      if !got.Empty? {
        channels := channels[ch := channels[ch].Unsubscribe(r)];
      }
    }
  }

  // ---------------------------------------------------------------- requests and calls

  datatype Role = Undecided | Leader(ch: nat) | Follower(ch: nat)

  /** Where a request stands between two atomic sections. `Calling` and `Waiting` are the awaits. */
  datatype Phase =
    | NotArrived
    | Elected                                      // entry inserted, call not yet begun
    | Calling(call: nat)                           // awaiting `call`
    | Holding(call: nat)                           // leader has its outcome, not yet published
    | Announced(call: nat)                         // published, guard not yet dropped
    | Waiting                                      // follower awaiting `recv`
    | FallingBack                                  // `recv` failed, own call not yet begun
    | Done(outcome: Outcome, call: nat, at: nat)   // returned an outcome of `call`
    | Cancelled(begun: Option<nat>)                // future dropped; the call it had begun, if any

  datatype Request = Request(token: Token, role: Role, phase: Phase, arrivedAt: nat)

  datatype Answered = Answered(reply: Reply, at: nat)

  datatype Evaluated = Evaluated(outcome: Outcome, wallClock: int)

  /** One upstream call; `answer` is what the authorization server decided and when. */
  datatype Call = Call(owner: nat, token: Token, startedAt: nat, answer: Option<Answered>, result: Option<Evaluated>)

  /** Who created a channel, for which key, and when its outcome was published. */
  datatype Origin = Origin(key: Hash, leader: nat, publishedAt: Option<nat>)

  datatype Env = Env(hash: Token -> Hash, audience: string)

  /** `now` counts the steps taken; `origins` runs parallel to `shared.channels`. */
  datatype State = State(
    now: nat,
    shared: Shared,
    origins: seq<Origin>,
    requests: seq<Request>,
    calls: seq<Call>)

  datatype Step =
    | Arrive(r: nat)
    | StartCall(r: nat)
    | Settle(r: nat, reply: Reply)
    | Return(r: nat, wallClock: int)
    | Publish(r: nat)
    | DropGuard(r: nat)
    | Receive(r: nat)
    | Cancel(r: nat)

  function Init(tokens: seq<Token>): State {
    State(0, Shared(map[], []), [],
      seq(|tokens|, i requires 0 <= i < |tokens| => Request(tokens[i], Undecided, NotArrived, 0)), [])
  }

  /** Indices stay in range; kept by every step, see SingleFlightInvariant. */
  ghost predicate WellFormed(s: State) {
    && s.shared.Valid()
    && |s.origins| == |s.shared.channels|
    && (forall r :: 0 <= r < |s.requests| ==> RefsInRange(s, s.requests[r], r))
  }

  ghost predicate RefsInRange(s: State, q: Request, r: nat) {
    && (q.phase.Calling? || q.phase.Holding? || q.phase.Announced? ==> q.phase.call < |s.calls|)
    && (q.phase.Holding? || q.phase.Announced? ==> s.calls[q.phase.call].result.Some?)
    && (q.phase.Waiting? ==>
          q.role.Follower? && q.role.ch < |s.shared.channels| && r in s.shared.channels[q.role.ch].receivers)
  }

  function Key(env: Env, s: State, r: nat): Hash
    requires r < |s.requests|
  {
    env.hash(s.requests[r].token)
  }

  ghost predicate Enabled(s: State, step: Step)
    requires WellFormed(s)
  {
    step.r < |s.requests| &&
    var q := s.requests[step.r];
    match step
    case Arrive(_) => q.phase.NotArrived?
    case StartCall(_) => q.phase.Elected? || q.phase.FallingBack?
    case Settle(_, _) => q.phase.Calling? && s.calls[q.phase.call].answer.None?
    case Return(_, _) => q.phase.Calling? && s.calls[q.phase.call].answer.Some?
    case Publish(_) => q.phase.Holding?
    case DropGuard(_) => q.phase.Announced?
    case Receive(r) => q.phase.Waiting? && !s.shared.channels[q.role.ch].Recv(r).Empty?
    case Cancel(_) => q.phase.Waiting? || q.phase.Calling?
  }

  /** Records the new role and phase of request `r`. */
  function Moved(s: State, r: nat, phase: Phase): State
    requires r < |s.requests|
  {
    s.(requests := s.requests[r := s.requests[r].(phase := phase)])
  }

  ghost function Apply(env: Env, s: State, step: Step): State
    requires WellFormed(s) && Enabled(s, step)
  {
    var t := s.(now := s.now + 1);
    match step
    case Arrive(r) => ApplyArrive(env, t, r, s.now)
    case StartCall(r) =>
      Moved(t.(calls := s.calls + [Call(r, s.requests[r].token, s.now, None, None)]), r, Calling(|s.calls|))
    case Settle(r, reply) =>
      var c := s.requests[r].phase.call;
      t.(calls := s.calls[c := s.calls[c].(answer := Some(Answered(reply, s.now)))])
    case Return(r, wallClock) => ApplyReturn(env, t, r, wallClock, s.now)
    case Publish(r) => ApplyPublish(env, t, r, s.now)
    case DropGuard(r) =>
      var c := s.requests[r].phase.call;
      Moved(t.(shared := Released(s.shared, Key(env, s, r))), r, Done(s.calls[c].result.value.outcome, c, s.now))
    case Receive(r) => ApplyReceive(t, r, s.now)
    case Cancel(r) => ApplyCancel(env, t, r)
  }

  function ApplyArrive(env: Env, s: State, r: nat, at: nat): State
    requires s.shared.Valid() && r < |s.requests|
  {
    var key := Key(env, s, r);
    var q := s.requests[r].(arrivedAt := at);
    if key in s.shared.inflight then
      s.(shared := Joined(s.shared, key, r),
         requests := s.requests[r := q.(role := Follower(s.shared.inflight[key]), phase := Waiting)])
    else
      s.(shared := Joined(s.shared, key, r),
         origins := s.origins + [Origin(key, r, None)],
         requests := s.requests[r := q.(role := Leader(|s.shared.channels|), phase := Elected)])
  }

  function ApplyReturn(env: Env, s: State, r: nat, wallClock: int, at: nat): State
    requires r < |s.requests| && s.requests[r].phase.Calling?
    requires s.requests[r].phase.call < |s.calls| && s.calls[s.requests[r].phase.call].answer.Some?
  {
    var c := s.requests[r].phase.call;
    var outcome := Judge(s.calls[c].answer.value.reply, wallClock, env.audience);
    Moved(s.(calls := s.calls[c := s.calls[c].(result := Some(Evaluated(outcome, wallClock)))]), r,
      if s.requests[r].role.Leader? then Holding(c) else Done(outcome, c, at))
  }

  /** The sender is looked up in the map again; the leader does not hold on to it. */
  ghost function ApplyPublish(env: Env, s: State, r: nat, at: nat): State
    requires WellFormed(s) && r < |s.requests| && s.requests[r].phase.Holding?
  {
    var c := s.requests[r].phase.call;
    var key := Key(env, s, r);
    var sh := Published(s.shared, key, Message(s.calls[c].result.value.outcome, c));
    Moved(
      if key in s.shared.inflight then
        var ch := s.shared.inflight[key];
        s.(shared := sh, origins := s.origins[ch := s.origins[ch].(publishedAt := Some(at))])
      else
        s.(shared := sh),
      r, Announced(c))
  }

  ghost function ApplyReceive(s: State, r: nat, at: nat): State
    requires WellFormed(s) && r < |s.requests| && s.requests[r].phase.Waiting?
  {
    var ch := s.requests[r].role.ch;
    Moved(s.(shared := Left(s.shared, ch, r)), r,
      match s.shared.channels[ch].Recv(r)
      case Message(m) => Done(m.outcome, m.call, at)
      case _ => FallingBack)
  }

  /** Dropping the future drops its guard (a calling leader) or its receiver (a waiting follower). */
  ghost function ApplyCancel(env: Env, s: State, r: nat): State
    requires WellFormed(s) && r < |s.requests| && (s.requests[r].phase.Waiting? || s.requests[r].phase.Calling?)
  {
    var q := s.requests[r];
    if q.phase.Waiting? then
      Moved(s.(shared := Left(s.shared, q.role.ch, r)), r, Cancelled(None))
    else if q.role.Leader? then
      Moved(s.(shared := Released(s.shared, Key(env, s, r))), r, Cancelled(Some(q.phase.call)))
    else
      Moved(s, r, Cancelled(Some(q.phase.call)))
  }
}
