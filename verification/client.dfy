/**
 The Yurplan client's authorisation guard. The session token is absent until an
 authentication request succeeds; every data request refuses to run while the
 token is absent or empty. Requests are abstracted to their outcome: the
 authentication endpoint answers ok with a token or not ok, a data endpoint
 answers ok with a payload or not ok.
 */
module Client {
  import opened Options
  import Badges

  /** The outcome of the authentication request. */
  datatype AuthResponse = AuthOk(token: string) | AuthRejected

  /** The outcome of a data request. */
  datatype Response<T> = Ok(payload: T) | NotOk

  /**
   NotAuthorized: the guard raised "not authorized".
   NoTicketList: the ticket request was not ok, so the pass had no list to iterate.
   */
  datatype Error = NotAuthorized | NoTicketList

  datatype Result<T> = Success(value: T) | Failure(error: Error)

  /** The client's state: its session token, None until an authentication succeeds. */
  datatype YurplanApi = YurplanApi(token: Option<string>)

  /** The guard's test: a token is stored and is not the empty string. */
  predicate Authorized(c: YurplanApi) {
    c.token.Some? && c.token.value != ""
  }

  /** `auth`: store the returned token when the response is ok, otherwise change nothing. */
  function Auth(c: YurplanApi, resp: AuthResponse): (c': YurplanApi)
    ensures resp.AuthRejected? ==> c' == c
    ensures resp.AuthOk? ==> c'.token == Some(resp.token)
  {
    match resp
    case AuthOk(token) => YurplanApi(Some(token))
    case AuthRejected => c
  }

  /** The constructor: start without a token, then authenticate once. */
  function New(resp: AuthResponse): (c: YurplanApi)
    ensures c.token.Some? <==> resp.AuthOk?
    ensures resp.AuthOk? ==> c.token == Some(resp.token)
  {
    Auth(YurplanApi(None), resp)
  }

  /**
   `tickets`: refuse without a usable token; otherwise the list on an ok
   response and None on a non-ok one.
   */
  function Tickets(c: YurplanApi, resp: Response<seq<Badges.Ticket>>)
    : (r: Result<Option<seq<Badges.Ticket>>>)
    ensures r.Failure? <==> !Authorized(c)
    ensures r.Failure? ==> r.error == NotAuthorized
    ensures r.Success? ==> (r.value.Some? <==> resp.Ok?)
    ensures r.Success? && resp.Ok? ==> r.value.value == resp.payload
  {
    if !Authorized(c) then Failure(NotAuthorized)
    else match resp
      case Ok(tickets) => Success(Some(tickets))
      case NotOk => Success(None)
  }

  /** `ticket`: the same guard and response handling for one ticket's detail view. */
  function Ticket<T>(c: YurplanApi, resp: Response<T>): (r: Result<Option<T>>)
    ensures r.Failure? <==> !Authorized(c)
    ensures r.Failure? ==> r.error == NotAuthorized
    ensures r.Success? ==> (r.value.Some? <==> resp.Ok?)
    ensures r.Success? && resp.Ok? ==> r.value.value == resp.payload
  {
    if !Authorized(c) then Failure(NotAuthorized)
    else match resp
      case Ok(detail) => Success(Some(detail))
      case NotOk => Success(None)
  }

  /**
   `get_badge_info` through the client: fetch the tickets (guard included) and
   run the classification pass over them. A non-ok fetch leaves nothing to
   iterate, which is an error.
   */
  function GetBadgeInfo(
    c: YurplanApi, resp: Response<seq<Badges.Ticket>>, ids: Badges.TypeIds,
    exceptions: Badges.Exceptions, corrections: Badges.Corrections)
    : (r: Result<seq<Badges.Record>>)
    ensures !Authorized(c) ==> r == Failure(NotAuthorized)
    ensures Authorized(c) && resp.NotOk? ==> r == Failure(NoTicketList)
    ensures Authorized(c) && resp.Ok? ==>
              r == Success(Badges.BadgeInfo(resp.payload, ids, exceptions, corrections))
    ensures Authorized(c) && resp.Ok? ==>
              r.Success? && |r.value| <= |resp.payload|
              && forall k :: 0 <= k < |r.value| ==> r.value[k].badgeType != ""
  {
    match Tickets(c, resp)
    case Failure(e) => Failure(e)
    case Success(None) => Failure(NoTicketList)
    case Success(Some(tickets)) => Success(Badges.BadgeInfo(tickets, ids, exceptions, corrections))
  }

  /** The client after a series of `auth` calls, in order. */
  function AuthAll(c: YurplanApi, resps: seq<AuthResponse>): YurplanApi
    decreases |resps|
  {
    if |resps| == 0 then c else AuthAll(Auth(c, resps[0]), resps[1..])
  }

  /**
   A token, once stored, stays stored across any further `auth` calls; the
   client is still without one exactly when it started without one and every
   call was rejected.
   */
  lemma {:induction false} TokenPresenceIsMonotone(c: YurplanApi, resps: seq<AuthResponse>)
    ensures c.token.Some? ==> AuthAll(c, resps).token.Some?
    ensures AuthAll(c, resps).token.None? <==>
              c.token.None? && forall i :: 0 <= i < |resps| ==> resps[i].AuthRejected?
    decreases |resps|
  {
    if |resps| > 0 {
      TokenPresenceIsMonotone(Auth(c, resps[0]), resps[1..]);
      assert forall i :: 1 <= i < |resps| ==> resps[i] == resps[1..][i - 1];
    }
  }

  /**
   Authorisation itself is not monotone: a later ok `auth` that returns an empty
   token keeps a token stored but makes the guard refuse.
   */
  lemma EmptyTokenRevokesAuthorization()
    ensures Authorized(New(AuthOk("t")))
    ensures Auth(New(AuthOk("t")), AuthOk("")).token.Some?
    ensures !Authorized(Auth(New(AuthOk("t")), AuthOk("")))
  {
  }

  /** A client whose one authentication was rejected refuses every data request. */
  lemma RejectedAuthRefusesRequests<T>(
    tickets: Response<seq<Badges.Ticket>>, detail: Response<T>, ids: Badges.TypeIds,
    exceptions: Badges.Exceptions, corrections: Badges.Corrections)
    ensures New(AuthRejected).token == None
    ensures Tickets(New(AuthRejected), tickets) == Failure(NotAuthorized)
    ensures Ticket(New(AuthRejected), detail) == Failure(NotAuthorized)
    ensures GetBadgeInfo(New(AuthRejected), tickets, ids, exceptions, corrections) == Failure(NotAuthorized)
  {
  }
}
