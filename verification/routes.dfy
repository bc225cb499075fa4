/**
 * `registerRoutes`: the three GET handlers, the routing of a request to
 * them, and the start-up seeding whose failure is caught and only logged.
 */
module Routes {
  import opened Wrappers
  import opened Text
  import opened Json
  import opened Schema
  import opened Exceptions
  import Contract
  import M = MemStorage
  import Storage
  import Seed

  datatype Request = Request(verb: string, path: string)

  /** A matched route; the get route carries the raw `:id` path segment. */
  datatype Route = ListEventsRoute | GetEventRoute(idParam: string) | ListTeamRoute

  datatype Response = Response(status: int, body: Json)

  /** The literal part of the get-by-id path, before its `:id` parameter. */
  const EventPathPrefix: string := "/api/events/"

  const NotFoundMessage: string := "Event not found"

  /**
   * The verbs a route registered with `app.get` answers: GET, and HEAD,
   * which the framework sends to the GET handler when no HEAD handler is
   * registered.
   */
  predicate Reads(verb: string) {
    verb == "GET" || verb == "HEAD"
  }

  /**
   * The route a request reaches, matching paths exactly: a parameter is one
   * non-empty segment without `/`. None means no handler of this module runs.
   */
  function Match(req: Request): (r: Option<Route>)
    ensures r.Some? ==> Reads(req.verb)
    ensures r == Some(ListEventsRoute) <==> Reads(req.verb) && req.path == Contract.ListEventsPath
    ensures r == Some(ListTeamRoute) <==> Reads(req.verb) && req.path == Contract.ListTeamPath
    ensures r.Some? && r.value.GetEventRoute? ==>
      req.path == EventPathPrefix + r.value.idParam && IsParameter(r.value.idParam)
    ensures Reads(req.verb) && EventPathPrefix <= req.path && IsParameter(req.path[|EventPathPrefix|..]) ==>
      r == Some(GetEventRoute(req.path[|EventPathPrefix|..]))
  {
    if !Reads(req.verb) then None
    else if req.path == Contract.ListEventsPath then Some(ListEventsRoute)
    else if req.path == Contract.ListTeamPath then Some(ListTeamRoute)
    else if EventPathPrefix <= req.path && IsParameter(req.path[|EventPathPrefix|..]) then
      assert req.path == EventPathPrefix + req.path[|EventPathPrefix|..];
      Some(GetEventRoute(req.path[|EventPathPrefix|..]))
    else
      NotListPath(req.path);
      None
  }

  /** A path under the get route's prefix is neither list path. */
  lemma NotListPath(path: string)
    ensures EventPathPrefix <= path ==> path != Contract.ListEventsPath && path != Contract.ListTeamPath
  {
    if EventPathPrefix <= path {
      assert |path| > |Contract.ListEventsPath|;
      assert path[5] == EventPathPrefix[5] != Contract.ListTeamPath[5];
    }
  }

  predicate IsParameter(segment: string) {
    |segment| > 0 && forall i | 0 <= i < |segment| :: segment[i] != '/'
  }

  function EventsBody(es: seq<Event>): (j: Json)
    ensures j.JArray? && |j.items| == |es|
    ensures forall i | 0 <= i < |es| :: EventFromJson(j.items[i]) == Some(es[i])
  {
    forall i | 0 <= i < |es| ensures EventFromJson(EventToJson(es[i])) == Some(es[i]) {
      EventRoundTrip(es[i]);
    }
    JArray(seq(|es|, i requires 0 <= i < |es| => EventToJson(es[i])))
  }

  function TeamBody(ms: seq<TeamMember>): (j: Json)
    ensures j.JArray? && |j.items| == |ms|
    ensures forall i | 0 <= i < |ms| :: TeamMemberFromJson(j.items[i]) == Some(ms[i])
  {
    forall i | 0 <= i < |ms| ensures TeamMemberFromJson(TeamMemberToJson(ms[i])) == Some(ms[i]) {
      TeamMemberRoundTrip(ms[i]);
    }
    JArray(seq(|ms|, i requires 0 <= i < |ms| => TeamMemberToJson(ms[i])))
  }

  /** `GET /api/events`: every event, in store order. */
  function ListEventsHandler(b: Storage.Backend): Result<Response, Thrown> {
    var es :- Storage.GetEvents(b);
    Success(Response(200, EventsBody(es)))
  }

  /**
   * `GET /api/events/:id`: the segment is converted with `Number`; a miss
   * (including a segment that is no integer) is a 404 with a message.
   */
  function GetEventHandler(b: Storage.Backend, idParam: string): (r: Result<Response, Thrown>)
    ensures b.UninitializedDatabase? ==> r == Failure(Storage.NotInitialized)
    ensures b.Memory? ==> r.Success?
    ensures r.Success? ==> r.value.status == 200 || r.value == Response(404, Contract.MessageBody(NotFoundMessage))
    ensures b.Memory? && r.Success? ==>
      (r.value.status == 200 <==> ParseInteger(idParam).Some? && M.GetEvent(b.store, ParseInteger(idParam).value).Some?)
    ensures b.Memory? && r.Success? && r.value.status == 200 && ParseInteger(idParam).Some? ==>
      EventFromJson(r.value.body) == M.GetEvent(b.store, ParseInteger(idParam).value)
  {
    var found :- Storage.GetEvent(b, ParseInteger(idParam));
    match found
    case None => Success(Response(404, Contract.MessageBody(NotFoundMessage)))
    case Some(e) =>
      EventRoundTrip(e);
      Success(Response(200, EventToJson(e)))
  }

  /** `GET /api/team`: every team member, in store order. */
  function ListTeamHandler(b: Storage.Backend): Result<Response, Thrown> {
    var ms :- Storage.GetTeamMembers(b);
    Success(Response(200, TeamBody(ms)))
  }

  /** The handler's outcome for a request: a response, or the error its storage call threw. */
  function Serve(b: Storage.Backend, req: Request): (r: Option<Result<Response, Thrown>>)
    ensures r.Some? <==> Match(req).Some?
    ensures r.Some? && b.Memory? ==> r.value.Success?
    ensures r.Some? && b.UninitializedDatabase? ==> r.value == Failure(Storage.NotInitialized)
  {
    match Match(req)
    case None => None
    case Some(ListEventsRoute) => Some(ListEventsHandler(b))
    case Some(GetEventRoute(p)) => Some(GetEventHandler(b, p))
    case Some(ListTeamRoute) => Some(ListTeamHandler(b))
  }

  /** The endpoint of the contract a route implements. */
  function EndpointOf(r: Route): (ep: Contract.Endpoint)
    ensures ep.verb == Contract.GET
    ensures r.ListEventsRoute? <==> ep.path == Contract.ListEventsPath
    ensures r.GetEventRoute? <==> ep.path == Contract.GetEventPath
    ensures r.ListTeamRoute? <==> ep.path == Contract.ListTeamPath
  {
    match r
    case ListEventsRoute => Contract.ListEvents
    case GetEventRoute(_) => Contract.GetEvent
    case ListTeamRoute => Contract.ListTeam
  }

  /**
   * Registration: the backend the handlers serve after start-up. A seeding
   * error is caught, so registration itself always completes.
   */
  function RegisterRoutes(b: Storage.Backend): (r: Storage.Backend)
    ensures b.Memory? ==> r == Storage.Memory(Seed.SeedMem(b.store))
    ensures b.UninitializedDatabase? ==> r == b
  {
    match Seed.SeedDatabase(b)
    case Success(seeded) => seeded
    case Failure(_) => b
  }

  /** The path a client builds for an event id routes to that id. */
  lemma EventUrlMatches(id: int)
    ensures Match(Request("GET", EventPathPrefix + IntToString(id))) == Some(GetEventRoute(IntToString(id)))
  {
    var path := EventPathPrefix + IntToString(id);
    var seg := IntToString(id);
    assert path[|EventPathPrefix|..] == seg;
    assert path != Contract.ListEventsPath by {
      assert |path| > |Contract.ListEventsPath|;
    }
    assert path != Contract.ListTeamPath by {
      assert path[5] != Contract.ListTeamPath[5];
    }
    forall i | 0 <= i < |seg| ensures seg[i] != '/' {
      if id < 0 {
        assert seg == "-" + NatToString(-id);
        if i > 0 {
          assert seg[i] == NatToString(-id)[i - 1];
        }
      }
    }
  }

  /**
   * After any sequence of creates on a new store, fetching id k answers 200
   * with the k-th created event exactly when 1 <= k <= the number created,
   * and 404 with the not-found message otherwise.
   */
  lemma GetByIdAfterCreates(ops: seq<M.Op>, k: int)
    ensures var ds := M.EventDrafts(ops);
      Serve(Storage.Memory(M.Run(M.New(), ops)), Request("GET", EventPathPrefix + IntToString(k))) ==
        if 1 <= k <= |ds| then Some(Success(Response(200, EventToJson(EventWithId(ds[k - 1], k)))))
        else Some(Success(Response(404, Contract.MessageBody(NotFoundMessage))))
  {
    var s := M.Run(M.New(), ops);
    ServeEventUrl(Storage.Memory(s), k);
    M.RunFromNew(ops, k);
  }

  /** Fetching an integer id's path runs the get handler on that id. */
  lemma ServeEventUrl(b: Storage.Backend, k: int)
    ensures Serve(b, Request("GET", EventPathPrefix + IntToString(k))) ==
      Some(GetEventHandler(b, IntToString(k)))
    ensures b.Memory? && M.GetEvent(b.store, k).None? ==>
      GetEventHandler(b, IntToString(k)) == Success(Response(404, Contract.MessageBody(NotFoundMessage)))
    ensures b.Memory? && M.GetEvent(b.store, k).Some? ==>
      GetEventHandler(b, IntToString(k)) == Success(Response(200, EventToJson(M.GetEvent(b.store, k).value)))
  {
    EventUrlMatches(k);
    ParseIntegerIntToString(k);
  }

  /** A leading zero in the segment is ignored, so `007` finds the same event as `7`. */
  lemma LeadingZeroIgnored(b: Storage.Backend, digits: string)
    requires |digits| > 0 && AllDigits(digits)
    ensures GetEventHandler(b, "0" + digits) == GetEventHandler(b, digits)
  {
    LeadingZero(digits);
  }

  /** A segment that is not an integer never finds an event. */
  lemma NonIntegerIdNotFound(s: M.MemStore, idParam: string)
    requires ParseInteger(idParam).None?
    ensures GetEventHandler(Storage.Memory(s), idParam) == Success(Response(404, Contract.MessageBody(NotFoundMessage)))
  {
  }

  /** Without a database connection every route throws the not-initialized error. */
  lemma ServeUninitialized(req: Request)
    requires Match(req).Some?
    ensures Serve(Storage.UninitializedDatabase, req) == Some(Failure(Storage.NotInitialized))
  {
  }

  /**
   * On the in-memory backend every routed request succeeds, with a status
   * its endpoint declares and a body that satisfies the declared shape.
   */
  lemma ResponsesConform(s: M.MemStore, req: Request)
    requires Match(req).Some?
    ensures var out := Serve(Storage.Memory(s), req);
      && out.Some? && out.value.Success?
      && var resp := out.value.value;
         var shape := Contract.ResponseShape(EndpointOf(Match(req).value), resp.status);
         shape.Some? && Contract.Parse(shape.value, resp.body).Success?
  {
    Contract.DeclaredResponses();
    match Match(req).value
    case ListEventsRoute =>
      Contract.ParseArrayOfCustom(EventsBody(M.GetEvents(s)));
    case ListTeamRoute =>
      Contract.ParseArrayOfCustom(TeamBody(M.GetTeamMembers(s)));
    case GetEventRoute(p) =>
      Contract.MessageBodyConforms(NotFoundMessage);
  }

  /** The list routes on the in-memory backend answer 200 with the stored records, in order. */
  lemma ListRoutes(s: M.MemStore)
    ensures Serve(Storage.Memory(s), Request("GET", Contract.ListEventsPath)) ==
      Some(Success(Response(200, EventsBody(M.GetEvents(s)))))
    ensures Serve(Storage.Memory(s), Request("GET", Contract.ListTeamPath)) ==
      Some(Success(Response(200, TeamBody(M.GetTeamMembers(s)))))
  {
  }

  /** A new in-memory deployment lists the four seeded events and three team members. */
  lemma FreshDeploymentLists()
    ensures var b := RegisterRoutes(Storage.Memory(M.New()));
      var events := Serve(b, Request("GET", Contract.ListEventsPath));
      var team := Serve(b, Request("GET", Contract.ListTeamPath));
      && events.Some? && events.value.Success? && events.value.value.status == 200
      && events.value.value.body.JArray? && |events.value.value.body.items| == 4
      && team.Some? && team.value.Success? && team.value.value.status == 200
      && team.value.value.body.JArray? && |team.value.value.body.items| == 3
  {
    Seed.SeedFreshSizes();
    ListRoutes(Seed.SeedMem(M.New()));
  }

  /** Registration without a database connection still completes, and leaves every route throwing. */
  lemma RegisterWithoutDatabase(req: Request)
    requires Match(req).Some?
    ensures RegisterRoutes(Storage.UninitializedDatabase) == Storage.UninitializedDatabase
    ensures Serve(RegisterRoutes(Storage.UninitializedDatabase), req) == Some(Failure(Storage.NotInitialized))
  {
  }
}
