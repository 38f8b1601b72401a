/** What one upstream introspection call yields: `call`, `evaluate` and the error conversion. */
module Introspection {
  import opened Wrappers

  type Token = string

  datatype Audience = One(name: string) | Many(names: seq<string>) {
    predicate Contains(expected: string) {
      match this
      case One(name) => name == expected
      case Many(names) => expected in names
    }
  }

  datatype Response = Response(
    active: bool,
    sub: Option<string>,
    aud: Option<Audience>,
    exp: Option<int>,
    realmRoles: Option<seq<string>>)

  /** Everything the network can answer; `body` is None when it does not parse. */
  datatype Reply = Unreachable | Answer(status: nat, body: Option<Response>)

  datatype User = User(subject: string, realmRoles: seq<string>)

  datatype Reason = NotReached | HttpStatus(status: nat) | Unparsable | NoSubject

  datatype Outcome =
    | Active(user: User)
    | Inactive
    | WrongAudience
    | Unavailable(reason: Reason)

  datatype AppError = Unauthorized | Forbidden | IntrospectionUnavailable(reason: Reason)

  /** `From<IntrospectionOutcome>`. */
  function ToResult(outcome: Outcome): Result<User, AppError> {
    match outcome
    case Active(user) => Ok(user)
    case Inactive => Err(Unauthorized)
    case WrongAudience => Err(Forbidden)
    case Unavailable(reason) => Err(IntrospectionUnavailable(reason))
  }

  function Evaluate(body: Response, wallClock: int, expectedAudience: string): Outcome {
    if !body.active then Inactive
    else if body.exp.Some? && body.exp.value <= wallClock then Inactive
    else if body.aud.None? || !body.aud.value.Contains(expectedAudience) then WrongAudience
    else if body.sub.None? then Unavailable(NoSubject)
    else Active(User(body.sub.value, if body.realmRoles.Some? then body.realmRoles.value else []))
  }

  /** `call`, from the moment the reply is in hand. */
  function Judge(reply: Reply, wallClock: int, expectedAudience: string): Outcome {
    match reply
    case Unreachable => Unavailable(NotReached)
    case Answer(status, body) =>
      if !(200 <= status < 300) then Unavailable(HttpStatus(status))
      else if body.None? then Unavailable(Unparsable)
      else Evaluate(body.value, wallClock, expectedAudience)
  }

  /** A positive answer in the sense of section 2.2 of RFC 7662, for this server, about `user`. */
  ghost predicate Vouches(reply: Reply, wallClock: int, expectedAudience: string, user: User) {
    exists sub, aud, exp, roles ::
      && reply.Answer? && 200 <= reply.status < 300
      && reply.body == Some(Response(true, Some(sub), Some(aud), exp, roles))
      && (exp.Some? ==> wallClock < exp.value)
      && (aud == One(expectedAudience) ||
            (aud.Many? && exists i :: 0 <= i < |aud.names| && aud.names[i] == expectedAudience))
      && user == User(sub, match roles case Some(rs) => rs case None => [])
  }

  /** The body of an answer with a success status. */
  function Body(reply: Reply): Option<Response> {
    if reply.Answer? && 200 <= reply.status <= 299 then reply.body else None
  }

  /** Not known to be a live token: the server says so, or its expiry has passed. */
  ghost predicate Dead(body: Response, wallClock: int) {
    body.active == false || exists exp :: body.exp == Some(exp) && exp <= wallClock
  }

  ghost predicate ForUs(body: Response, expectedAudience: string) {
    exists aud :: body.aud == Some(aud) && aud.Contains(expectedAudience)
  }

  /** What a reply must be like for each error a caller can get. */
  ghost predicate Says(reply: Reply, wallClock: int, expectedAudience: string, error: AppError) {
    var body := Body(reply);
    match error
    case Unauthorized => body.Some? && Dead(body.value, wallClock)
    case Forbidden => body.Some? && !Dead(body.value, wallClock) && !ForUs(body.value, expectedAudience)
    case IntrospectionUnavailable(NotReached) => reply == Unreachable
    case IntrospectionUnavailable(HttpStatus(status)) =>
      reply.Answer? && reply.status == status && (status < 200 || 299 < status)
    case IntrospectionUnavailable(Unparsable) => reply.Answer? && 200 <= reply.status <= 299 && reply.body == None
    case IntrospectionUnavailable(NoSubject) =>
      body.Some? && !Dead(body.value, wallClock) && ForUs(body.value, expectedAudience) && body.value.sub == None
  }

  /** Each error comes out exactly for the replies that say it. */
  lemma ErrIffSaid(reply: Reply, wallClock: int, expectedAudience: string, error: AppError)
    ensures ToResult(Judge(reply, wallClock, expectedAudience)) == Err(error)
      <==> Says(reply, wallClock, expectedAudience, error)
  {
    var body := Body(reply);
    if body.Some? {
      var b := body.value;
      assert b.aud.Some? ==> (ForUs(b, expectedAudience) <==> b.aud.value.Contains(expectedAudience));
      assert b.exp.Some? ==> (Dead(b, wallClock) <==> !b.active || b.exp.value <= wallClock);
    }
  }

  /** An audience names the server iff it is that name or a list with it, as section 2.2 of RFC 7662 allows. */
  lemma AudienceNames(aud: Audience, expected: string)
    ensures aud.Contains(expected) <==>
      aud == One(expected) || (aud.Many? && exists i :: 0 <= i < |aud.names| && aud.names[i] == expected)
  {}

  /** Never fail open: an outcome becomes Ok exactly when the reply vouches for that very user. */
  lemma OkIffVouched(reply: Reply, wallClock: int, expectedAudience: string, user: User)
    ensures ToResult(Judge(reply, wallClock, expectedAudience)) == Ok(user)
      <==> Vouches(reply, wallClock, expectedAudience, user)
  {
    var outcome := Judge(reply, wallClock, expectedAudience);
    if outcome == Active(user) {
      var b := reply.body.value;
      assert b == Response(true, Some(b.sub.value), Some(b.aud.value), b.exp, b.realmRoles);
      assert b.aud.value.Contains(expectedAudience);
    }
  }
}
