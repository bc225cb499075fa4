/**
 * The serverless entry point: registration started once at load, an error
 * middleware that turns a thrown value into a JSON error body, and a
 * handler that answers 500 with details when initialization failed.
 */
module ApiHandler {
  import opened Wrappers
  import opened Json
  import opened Exceptions
  import Contract
  import Storage
  import Routes
  import Seed

  const DefaultErrorStatus: int := 500
  const DefaultErrorMessage: string := "Internal Server Error"
  const InitFailureMessage: string := "Internal Server Error during initialization"

  /** JavaScript truthiness of a numeric property: present and not zero. */
  predicate Truthy(n: Option<int>) {
    n.Some? && n.value != 0
  }

  /** `err.status || err.statusCode || 500`. */
  function ErrorStatus(t: Thrown): (n: int)
    ensures n != 0
  {
    if Truthy(t.status) then t.status.value
    else if Truthy(t.statusCode) then t.statusCode.value
    else DefaultErrorStatus
  }

  /** `err.message || "Internal Server Error"`. */
  function ErrorMessage(t: Thrown): (m: string)
    ensures |m| > 0
  {
    var m := MessageOf(t);
    if m.Some? && |m.value| > 0 then m.value else DefaultErrorMessage
  }

  /** The error middleware's response. */
  function ErrorResponse(t: Thrown): Routes.Response {
    Routes.Response(ErrorStatus(t), Contract.MessageBody(ErrorMessage(t)))
  }

  /**
   * What a request receives. `AnsweredWithoutBody` is a status sent with an
   * empty body; `DefaultErrorPage` is the web framework's own
   * error page, sent when the error middleware itself throws; `Unanswered` is
   * a handler rejection that the application does not route to the error
   * middleware; `NoRoute` is a request no route of the application matches.
   */
  datatype Outcome =
    | Answered(response: Routes.Response)
    | AnsweredWithoutBody(status: int)
    | DefaultErrorPage(status: int)
    | Unanswered(error: Thrown)
    | NoRoute

  /** The status codes the HTTP layer accepts; setting any other one throws a RangeError. */
  predicate ValidStatus(n: int) {
    100 <= n <= 999
  }

  /** Statuses whose response carries no body: informational ones, 204 and 304. */
  predicate BodylessStatus(n: int) {
    100 <= n <= 199 || n == 204 || n == 304
  }

  /**
   * The error middleware. Its JSON answer is sent when the chosen status is
   * one the HTTP layer accepts and that may carry a body; a status that may
   * not is sent with the body dropped; any other status makes setting it
   * throw inside the middleware, and the framework's final handler answers
   * 500 with its own page.
   */
  function ErrorHandler(t: Thrown): (out: Outcome)
    ensures out.Answered? <==> ValidStatus(ErrorStatus(t)) && !BodylessStatus(ErrorStatus(t))
    ensures out.AnsweredWithoutBody? <==> BodylessStatus(ErrorStatus(t))
    ensures out.AnsweredWithoutBody? ==> out.status == ErrorStatus(t)
    ensures out.Answered? ==>
      && out.response.status == ErrorStatus(t)
      && Contract.Parse(Contract.InternalShape, out.response.body) == Success(out.response.body)
      && Lookup(out.response.body.members, "message") == Some(JString(ErrorMessage(t)))
    ensures out.DefaultErrorPage? <==> !ValidStatus(ErrorStatus(t))
    ensures out.DefaultErrorPage? ==> out == DefaultErrorPage(500)
    ensures !Truthy(t.status) && !Truthy(t.statusCode) ==>
      out.Answered? && out.response.status == 500
  {
    var status := ErrorStatus(t);
    if !ValidStatus(status) then
      DefaultErrorPage(500)
    else if BodylessStatus(status) then
      AnsweredWithoutBody(status)
    else
      ErrorResponseConforms(t);
      Answered(ErrorResponse(t))
  }

  /** `error instanceof Error ? error.message : String(error)`. */
  function Details(t: Thrown): string {
    match t
    case ErrorInstance(message, _, _) => message
    case NonError(display, _, _, _) => display
  }

  /** The response the handler sends when awaiting initialization threw. */
  function InitFailureResponse(t: Thrown): Routes.Response {
    Routes.Response(500, JObject([Member("message", JString(InitFailureMessage)),
                                  Member("details", JString(Details(t)))]))
  }

  /**
   * The initialization promise: registration on the chosen backend. Its
   * seeding errors are caught inside, so it never rejects: a failed seeding
   * leaves the backend as it was, a successful one serves the seeded store.
   */
  function Initialize(b: Storage.Backend): (r: Result<Storage.Backend, Thrown>)
    ensures Seed.SeedDatabase(b).Failure? ==> r == Success(b)
    ensures Seed.SeedDatabase(b).Success? ==> r == Seed.SeedDatabase(b)
  {
    Success(Routes.RegisterRoutes(b))
  }

  /**
   * The exported handler. Whether the application forwards a rejected async
   * handler to the error middleware depends on the web framework's major
   * version, so it is a parameter.
   */
  function Handle(init: Result<Storage.Backend, Thrown>, req: Routes.Request, forwardsRejections: bool): (out: Outcome)
    ensures init.Failure? ==> out == Answered(InitFailureResponse(init.error))
    ensures init.Success? ==> (out == NoRoute <==> Routes.Match(req).None?)
    ensures init.Success? && Routes.Match(req).Some? && init.value.Memory? ==>
      out == Answered(Routes.Serve(init.value, req).value.value)
    ensures init.Success? && Routes.Match(req).Some? && init.value.UninitializedDatabase? ==>
      out == if forwardsRejections then Answered(ErrorResponse(Storage.NotInitialized)) else Unanswered(Storage.NotInitialized)
  {
    match init
    case Failure(t) => Answered(InitFailureResponse(t))
    case Success(b) =>
      match Routes.Serve(b, req)
      case None => NoRoute
      case Some(Success(resp)) => Answered(resp)
      case Some(Failure(t)) => if forwardsRejections then ErrorHandler(t) else Unanswered(t)
  }

  /** Every thrown value maps to a non-empty message and a JSON body of the internal-error shape. */
  lemma ErrorResponseConforms(t: Thrown)
    ensures Contract.Parse(Contract.InternalShape, ErrorResponse(t).body) == Success(ErrorResponse(t).body)
    ensures Lookup(ErrorResponse(t).body.members, "message") == Some(JString(ErrorMessage(t)))
  {
    Contract.MessageBodyConforms(ErrorMessage(t));
  }

  /** The status is the first truthy one of `status` and `statusCode`, else 500. */
  lemma ErrorStatusChoice(t: Thrown)
    ensures Truthy(t.status) ==> ErrorStatus(t) == t.status.value
    ensures !Truthy(t.status) && Truthy(t.statusCode) ==> ErrorStatus(t) == t.statusCode.value
    ensures !Truthy(t.status) && !Truthy(t.statusCode) ==> ErrorStatus(t) == 500
    ensures ErrorStatus(t) == 500 <==>
      !((Truthy(t.status) && t.status.value != 500)
        || (!Truthy(t.status) && Truthy(t.statusCode) && t.statusCode.value != 500))
  {
  }

  /** A non-empty `message` property is kept, on an error or any other thrown value; otherwise the default. */
  lemma ErrorMessageChoice(t: Thrown)
    ensures t.ErrorInstance? && |t.message| > 0 ==> ErrorMessage(t) == t.message
    ensures t.NonError? && t.messageProperty.Some? && |t.messageProperty.value| > 0 ==>
      ErrorMessage(t) == t.messageProperty.value
    ensures (t.ErrorInstance? && |t.message| == 0) || (t.NonError? && (t.messageProperty.None? || |t.messageProperty.value| == 0)) ==>
      ErrorMessage(t) == DefaultErrorMessage
  {
  }

  /** Once started, the handler never sends the initialization-failure response. */
  lemma InitializedNeverFailsInit(b: Storage.Backend, req: Routes.Request, forwards: bool)
    ensures Handle(Initialize(b), req, forwards) == match Routes.Serve(Routes.RegisterRoutes(b), req)
      case None => NoRoute
      case Some(Success(resp)) => Answered(resp)
      case Some(Failure(t)) => if forwards then ErrorHandler(t) else Unanswered(t)
    ensures forall t :: Handle(Initialize(b), req, forwards) != Answered(InitFailureResponse(t))
  {
    forall t ensures Handle(Initialize(b), req, forwards) != Answered(InitFailureResponse(t)) {
      var resp := InitFailureResponse(t);
      assert Lookup(resp.body.members, "details") == Some(JString(Details(t)));
      match Routes.Serve(Routes.RegisterRoutes(b), req)
      case None =>
      case Some(Success(r)) =>
        InitVersusRouteBodies(Routes.RegisterRoutes(b), req, t);
      case Some(Failure(e)) =>
        if forwards && ErrorHandler(e).Answered? {
          assert Lookup(ErrorResponse(e).body.members, "details") == None;
        }
    }
  }

  /** No route answers with a `details` property, which the initialization failure always carries. */
  lemma InitVersusRouteBodies(b: Storage.Backend, req: Routes.Request, t: Thrown)
    requires Routes.Serve(b, req).Some? && Routes.Serve(b, req).value.Success?
    ensures Routes.Serve(b, req).value.value != InitFailureResponse(t)
  {
    assert Routes.Serve(b, req).value.value.status in {200, 404};
  }

  /** An initialization failure answers every request alike, with the thrown value's text as details. */
  lemma InitFailureAnswersAll(t: Thrown, req1: Routes.Request, req2: Routes.Request, f1: bool, f2: bool)
    ensures Handle(Failure(t), req1, f1) == Handle(Failure(t), req2, f2)
    ensures Handle(Failure(t), req1, f1).Answered? && Handle(Failure(t), req1, f1).response.status == 500
    ensures Lookup(Handle(Failure(t), req1, f1).response.body.members, "message") == Some(JString(InitFailureMessage))
    ensures t.ErrorInstance? ==> Lookup(Handle(Failure(t), req1, f1).response.body.members, "details") == Some(JString(t.message))
    ensures t.NonError? ==> Lookup(Handle(Failure(t), req1, f1).response.body.members, "details") == Some(JString(t.display))
  {
    var ms := InitFailureResponse(t).body.members;
    assert Lookup(ms, "details") == Some(JString(Details(t)));
    assert Lookup(ms, "message") == Some(JString(InitFailureMessage)) by {
      assert ms[1].name != "message";
      assert Lookup(ms, "message") == Lookup(ms[..1], "message");
    }
  }

  /**
   * Without a database connection, a routed request gets 500 with the
   * not-initialized message when rejections are forwarded, and no answer
   * otherwise.
   */
  lemma UninitializedDatabaseRequests(req: Routes.Request, forwards: bool)
    requires Routes.Match(req).Some?
    ensures Handle(Initialize(Storage.UninitializedDatabase), req, forwards) ==
      if forwards then Answered(Routes.Response(500, Contract.MessageBody("Database not initialized")))
      else Unanswered(Storage.NotInitialized)
  {
    Routes.RegisterWithoutDatabase(req);
  }
}
