/** What one target does with a routed call, and what its caller learns of it: the executor's order of
    checks, the peer handler's typed replies, and the transport's errors. */
module PeerExecution {
  import opened Common

  type Data = string

  datatype AppError =
    | NodeUnavailable | PeerAccountUnavailable | PeerIdentityMismatch | UnsupportedRegionOperation
    | ProtocolDefinition | InvalidRequest | NotFound | AccountUnavailable | UpstreamUnavailable
    | Timeout | Transport | Proxy | Protocol | Grpc(status: nat) | Maintenance(status: nat)

  datatype Answer = Success(data: Data) | Error(error: AppError)

  /** The route's own game RPC was sent, or not, and how the call ended. */
  datatype Ran = Ran(sent: bool, answer: Answer)

  // ---- The executor ----

  /** How each step of an admitted call goes, in the order the steps are taken. `cut` is the step at
      which the deadline falls, if it does. */
  datatype Course = Course(
    known: bool,
    supported: bool,
    early: Option<Data>,
    flight: Option<AppError>,
    admission: Option<AppError>,
    sameProtocol: bool,
    leased: bool,
    version: Option<AppError>,
    cache: Option<Answer>,
    guarded: Option<AppError>,
    available: bool,
    pathOpen: bool,
    login: Option<AppError>,
    identity: Option<AppError>,
    answer: Answer,
    cut: Option<nat>
  )

  // What each step can fail with, step by step.

  /** The identity of a shared execution. */
  predicate FlightError(e: AppError) {
    e.ProtocolDefinition? || e.Protocol?
  }

  /** A slot, the protocol barrier, a session lock or an anonymous slot. */
  predicate AdmissionError(e: AppError) {
    e.Timeout? || e.Transport?
  }

  /** One game RPC. */
  predicate CallError(e: AppError) {
    e.Timeout? || e.InvalidRequest? || e.ProtocolDefinition? || e.AccountUnavailable? || e.Transport? || e.Proxy?
    || e.Protocol? || e.Grpc? || e.Maintenance?
  }

  /** Version bootstrap: path admission and one RPC. */
  predicate VersionError(e: AppError) {
    e.UpstreamUnavailable? || CallError(e)
  }

  /** The response-cache key and its check against a refresh. */
  predicate CacheError(e: AppError) {
    e.ProtocolDefinition? || e.Protocol? || e.AccountUnavailable?
  }

  /** A Global login: refusals and limits, the SDK path, and one RPC. */
  predicate LoginError(e: AppError) {
    e.AccountUnavailable? || e.UpstreamUnavailable? || e.Timeout? || e.Maintenance?
  }

  predicate CourseOk(c: Course) {
    && (c.flight.Some? ==> FlightError(c.flight.value))
    && (c.admission.Some? ==> AdmissionError(c.admission.value))
    && (c.version.Some? ==> VersionError(c.version.value))
    && (c.cache.Some? && c.cache.value.Error? ==> CacheError(c.cache.value.error))
    && (c.guarded.Some? ==> AdmissionError(c.guarded.value))
    && (c.login.Some? ==> LoginError(c.login.value))
    && (c.identity.Some? ==> CallError(c.identity.value))
    && (c.answer.Error? ==> CallError(c.answer.error) || c.answer.error.NotFound?)
  }

  predicate Cut(c: Course, step: nat) {
    c.cut == Some(step)
  }

  /** From the first upstream contact on, under the call's deadline. */
  function Upstream(c: Course): Ran {
    if Cut(c, 0) then Ran(false, Error(Timeout))
    else if c.version.Some? then Ran(false, Error(c.version.value))
    else if c.cache.Some? then Ran(false, c.cache.value)
    else if Cut(c, 1) then Ran(false, Error(Timeout))
    else if c.guarded.Some? then Ran(false, Error(c.guarded.value))
    else if !c.available then Ran(false, Error(AccountUnavailable))
    else if c.pathOpen then Ran(false, Error(UpstreamUnavailable))
    else if Cut(c, 2) then Ran(false, Error(Timeout))
    else if c.login.Some? then Ran(false, Error(c.login.value))
    else if Cut(c, 3) then Ran(false, Error(Timeout))
    else if c.identity.Some? then Ran(false, Error(c.identity.value))
    else if Cut(c, 4) then Ran(true, Error(Timeout))
    else Ran(true, c.answer)
  }

  /** An admitted call for a peer: an open path becomes the typed refusal. */
  function Admitted(c: Course): Ran {
    if c.admission.Some? then Ran(false, Error(c.admission.value))
    else if !c.sameProtocol then Ran(false, Error(PeerIdentityMismatch))
    else if !c.leased then Ran(false, Error(PeerAccountUnavailable))
    else
      var r := Upstream(c);
      if r.answer == Error(UpstreamUnavailable) then r.(answer := Error(PeerAccountUnavailable)) else r
  }

  function CallPeer(c: Course): Ran {
    if !c.known then Ran(false, Error(InvalidRequest))
    else if !c.supported then Ran(false, Error(UnsupportedRegionOperation))
    else if c.early.Some? then Ran(false, Success(c.early.value))
    else if c.flight.Some? then Ran(false, Error(c.flight.value))
    else Admitted(c)
  }

  predicate TypedRefusal(a: Answer) {
    a == Error(PeerIdentityMismatch) || a == Error(PeerAccountUnavailable) || a == Error(UnsupportedRegionOperation)
  }

  /** A typed refusal was decided before the route's RPC. */
  lemma RefusalNotSent(c: Course)
    requires CourseOk(c) && TypedRefusal(CallPeer(c).answer)
    ensures !CallPeer(c).sent
  {}

  /** A course that nothing stops: the route's RPC is sent and its answer is the call's. */
  predicate Clear(c: Course) {
    && c.known && c.supported && c.early.None? && c.flight.None? && c.admission.None? && c.sameProtocol && c.leased
    && c.version.None? && c.cache.None? && c.guarded.None? && c.available && !c.pathOpen && c.login.None? && c.identity.None?
  }

  /** The RPC is sent exactly when nothing stops the call, the deadline included, before it; the answer is then
      the game's, unless the deadline falls while waiting for it. */
  lemma SentExactly(c: Course)
    ensures CallPeer(c).sent <==> Clear(c) && c.cut !in {Some(0), Some(1), Some(2), Some(3)}
    ensures CallPeer(c).sent && c.cut != Some(4) && c.answer != Error(UpstreamUnavailable) ==> CallPeer(c).answer == c.answer
    ensures CallPeer(c).sent && c.cut == Some(4) ==> CallPeer(c).answer == Error(Timeout)
  {}

  /** Which answer a call gets that is stopped first by the protocol, the pool, the path or its route. */
  lemma RefusedExactly(c: Course)
    requires CourseOk(c)
    ensures CallPeer(c).answer == Error(UnsupportedRegionOperation) <==> c.known && !c.supported
    ensures CallPeer(c).answer == Error(PeerIdentityMismatch) <==>
      c.known && c.supported && c.early.None? && c.flight.None? && c.admission.None? && !c.sameProtocol
    ensures c.known && c.supported && c.early.None? && c.flight.None? && c.admission.None? && c.sameProtocol && !c.leased ==>
      CallPeer(c).answer == Error(PeerAccountUnavailable)
    ensures Clear(c.(pathOpen := false)) && c.pathOpen && c.cut.None? ==> CallPeer(c).answer == Error(PeerAccountUnavailable)
  {}

  // ---- The peer handler ----

  datatype Failure =
    | IdentityMismatch | UnsupportedOperation | NoAccount | UnavailableBeforeDispatch
    | TimedOut | TransportFailed | ProtocolFailed | Game(status: nat) | Missing

  datatype Outcome = Reply(data: Data) | Failed(failure: Failure)

  function FailureOf(e: AppError): Failure {
    match e
    case UnsupportedRegionOperation => UnsupportedOperation
    case PeerAccountUnavailable => UnavailableBeforeDispatch
    case UpstreamUnavailable => UnavailableBeforeDispatch
    case AccountUnavailable => NoAccount
    case Timeout => TimedOut
    case Transport => TransportFailed
    case Proxy => TransportFailed
    case Grpc(status) => Game(status)
    case Maintenance(status) => Game(status)
    case PeerIdentityMismatch => IdentityMismatch
    case NotFound => Missing
    case _ => ProtocolFailed
  }

  function FailureError(f: Failure, maintenance: bool): AppError {
    match f
    case IdentityMismatch => PeerIdentityMismatch
    case UnsupportedOperation => UnsupportedRegionOperation
    case UnavailableBeforeDispatch => PeerAccountUnavailable
    case NoAccount => AccountUnavailable
    case TimedOut => Timeout
    case TransportFailed => Transport
    case ProtocolFailed => Protocol
    case Game(status) => if maintenance then Maintenance(status) else Grpc(status)
    case Missing => NotFound
  }

  predicate SafeFailure(f: Failure) {
    f.IdentityMismatch? || f.UnsupportedOperation? || f.UnavailableBeforeDispatch?
  }

  /** What the HTTP side answers: a status before dispatch, or a typed outcome. */
  datatype Http = Status(code: nat) | Typed(outcome: Outcome, maintenance: bool)

  /** `refused` is the status of a request turned down before the handler dispatches, if it is. */
  function Query(refused: Option<nat>, sameIdentity: bool, c: Course): (bool, Http) {
    if refused.Some? then (false, Status(refused.value))
    else if !sameIdentity then (false, Typed(Failed(IdentityMismatch), false))
    else
      var r := CallPeer(c);
      match r.answer
      case Success(data) => (r.sent, Typed(Reply(data), false))
      case Error(e) => (r.sent, Typed(Failed(FailureOf(e)), e.Maintenance?))
  }

  /** Mapping an error to its wire form and back: the same, or the same class. */
  lemma FailureRoundTrip(e: AppError)
    ensures
      var back := FailureError(FailureOf(e), e.Maintenance?);
      && (SafeFailure(FailureOf(e)) <==> TypedRefusal(Error(e)) || e.UpstreamUnavailable?)
      && (back == e || (e.UpstreamUnavailable? && back.PeerAccountUnavailable?) || (e.Proxy? && back.Transport?)
          || ((e.NodeUnavailable? || e.ProtocolDefinition? || e.InvalidRequest?) && back.Protocol?))
  {}

  /** A safe typed failure proves that the route's RPC was not sent. */
  lemma SafeReplyNotSent(refused: Option<nat>, sameIdentity: bool, c: Course)
    requires CourseOk(c)
    ensures
      var (sent, http) := Query(refused, sameIdentity, c);
      && (http.Status? ==> !sent)
      && (http.Typed? && http.outcome.Failed? && SafeFailure(http.outcome.failure) ==> !sent)
  {
    if refused.None? && sameIdentity && CallPeer(c).answer.Error? {
      FailureRoundTrip(CallPeer(c).answer.error);
      if TypedRefusal(CallPeer(c).answer) {
        RefusalNotSent(c);
      }
      NoBareUpstream(c);
    }
  }

  /** An open path is always reported to a peer as the typed refusal. */
  lemma NoBareUpstream(c: Course)
    requires CourseOk(c)
    ensures CallPeer(c).answer != Error(UpstreamUnavailable)
  {}

  // ---- The transport ----

  datatype TransportError = BadConfig | NotSent | NoConnection | SlowReply | BrokenReply | BadStatus(code: nat) | BadReply

  const PRE_DISPATCH_STATUSES: set<nat> := {400, 401, 404, 405, 413, 415, 422}

  predicate DefinitelyNotSent(e: TransportError) {
    e.BadConfig? || e.NotSent? || e.NoConnection?
  }

  predicate RejectedBeforeDispatch(e: TransportError) {
    e.BadStatus? && e.code in PRE_DISPATCH_STATUSES
  }

  /** A request that never left, or one that reached the peer and whose answer came back or was lost. No
      one between the two makes up a status that the peer gives only before dispatch. */
  datatype Wire =
    | Unsent(error: TransportError)
    | Answered
    | Lost(error: TransportError)

  predicate WireOk(w: Wire) {
    match w
    case Unsent(e) => DefinitelyNotSent(e)
    case Answered => true
    case Lost(e) => !DefinitelyNotSent(e) && !RejectedBeforeDispatch(e)
  }

  /** A target's part in one call. */
  datatype Visit =
    | Local(course: Course)
    | Remote(wire: Wire, refused: Option<nat>, sameIdentity: bool, course: Course)

  predicate VisitOk(v: Visit) {
    CourseOk(v.course) && (v.Remote? ==> WireOk(v.wire))
  }

  function TransportAnswer(e: TransportError): AppError {
    match e
    case SlowReply => Timeout
    case NotSent => Timeout
    case BadReply => Protocol
    case _ => Transport
  }

  /** Whether the route's RPC was sent, what the router learns, and whether it takes the call as not executed. */
  datatype Attempt = Attempt(sent: bool, answer: Answer, notExecuted: bool)

  function Attempted(v: Visit): Attempt {
    match v
    case Local(c) =>
      var r := CallPeer(c);
      Attempt(r.sent, r.answer, TypedRefusal(r.answer))
    case Remote(wire, refused, same, c) =>
      var (sent, http) := Query(refused, same, c);
      match wire
      case Unsent(e) => Attempt(false, Error(TransportAnswer(e)), true)
      case Lost(e) => Attempt(sent, Error(TransportAnswer(e)), DefinitelyNotSent(e) || RejectedBeforeDispatch(e))
      case Answered =>
        match http
        case Status(code) => Attempt(sent, Error(Transport), RejectedBeforeDispatch(BadStatus(code)))
        case Typed(Reply(data), _) => Attempt(sent, Success(data), false)
        case Typed(Failed(f), maintenance) => Attempt(sent, Error(FailureError(f, maintenance)), SafeFailure(f))
  }

  /** When a target's attempt counts as not executed: exactly for these errors and replies. */
  lemma NotExecutedExactly(v: Visit)
    ensures v.Local? ==>
      (Attempted(v).notExecuted <==>
         CallPeer(v.course).answer in {Error(PeerIdentityMismatch), Error(PeerAccountUnavailable), Error(UnsupportedRegionOperation)})
    ensures v.Remote? && v.wire.Unsent? ==> Attempted(v).notExecuted
    ensures v.Remote? && v.wire.Lost? ==>
      (Attempted(v).notExecuted <==>
         v.wire.error in {BadConfig, NotSent, NoConnection} ||
         v.wire.error in {BadStatus(400), BadStatus(401), BadStatus(404), BadStatus(405), BadStatus(413), BadStatus(415), BadStatus(422)})
    ensures v.Remote? && v.wire.Answered? && v.refused.Some? ==>
      (Attempted(v).notExecuted <==> v.refused.value in {400, 401, 404, 405, 413, 415, 422})
    ensures v.Remote? && v.wire.Answered? && v.refused.None? && !v.sameIdentity ==>
      Attempted(v).notExecuted && Attempted(v).answer == Error(PeerIdentityMismatch)
    ensures v.Remote? && v.wire.Answered? && v.refused.None? && v.sameIdentity ==>
      (Attempted(v).notExecuted <==>
         CallPeer(v.course).answer in {Error(PeerIdentityMismatch), Error(PeerAccountUnavailable), Error(UpstreamUnavailable), Error(UnsupportedRegionOperation)})
      && (CallPeer(v.course).answer.Success? ==> Attempted(v).answer == CallPeer(v.course).answer)
  {
    hide CallPeer;
  }

  /** What the router takes as proof of non-execution is one. */
  lemma ProofHolds(v: Visit)
    requires VisitOk(v) && Attempted(v).notExecuted
    ensures !Attempted(v).sent
  {
    hide CallPeer, CourseOk;
    match v
    case Local(c) => RefusalNotSent(c);
    case Remote(_, refused, same, c) =>
      hide Query;
      SafeReplyNotSent(refused, same, c);
  }
}
