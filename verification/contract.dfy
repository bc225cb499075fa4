/**
 * The shared API contract: the error body shapes, the three GET endpoints
 * with their paths and per-status response shapes, and the checking a shape
 * performs on a decoded body (the part of zod the contract uses).
 */
module Contract {
  import opened Wrappers
  import opened Json

  /**
   * A declared response shape. `Custom` is a schema built without a
   * predicate, which accepts any value unchanged; `ObjectOf` lists
   * string-valued fields, each required or optional.
   */
  datatype Shape = Custom | ArrayOf(element: Shape) | ObjectOf(fields: seq<Field>)

  datatype Field = Field(name: string, optional: bool)

  /** Why a body does not have its declared shape (the first problem found). */
  datatype Issue = ExpectedArray | ExpectedObject | ExpectedString(field: string)

  datatype Method = GET

  datatype Declared = Declared(status: int, shape: Shape)

  datatype Endpoint = Endpoint(verb: Method, path: string, responses: seq<Declared>)

  const ValidationShape: Shape := ObjectOf([Field("message", false), Field("field", true)])
  const NotFoundShape: Shape := ObjectOf([Field("message", false)])
  const InternalShape: Shape := ObjectOf([Field("message", false)])

  const ListEventsPath: string := "/api/events"
  const GetEventPath: string := "/api/events/:id"
  const ListTeamPath: string := "/api/team"

  const ListEvents: Endpoint := Endpoint(GET, ListEventsPath, [Declared(200, ArrayOf(Custom))])
  const GetEvent: Endpoint := Endpoint(GET, GetEventPath, [Declared(200, Custom), Declared(404, NotFoundShape)])
  const ListTeam: Endpoint := Endpoint(GET, ListTeamPath, [Declared(200, ArrayOf(Custom))])

  /** The shape an endpoint declares for a status, if it declares one. */
  function ResponseShape(ep: Endpoint, status: int): (r: Option<Shape>)
    ensures r.Some? <==> exists i | 0 <= i < |ep.responses| :: ep.responses[i].status == status
    ensures r.Some? ==> Declared(status, r.value) in ep.responses
    decreases |ep.responses|
  {
    if |ep.responses| == 0 then None
    else if ep.responses[0].status == status then Some(ep.responses[0].shape)
    else ResponseShape(Endpoint(ep.verb, ep.path, ep.responses[1..]), status)
  }

  /** A declared field is acceptable in an object when present as a string, or absent and optional. */
  predicate FieldOk(f: Field, members: seq<Member>) {
    match Lookup(members, f.name)
    case None => f.optional
    case Some(v) => v.JString?
  }

  /**
   * `schema.parse(value)`: the value with the shape's checks applied, or the
   * first issue. Objects come back holding only their declared fields.
   */
  function Parse(shape: Shape, v: Json): (r: Result<Json, Issue>)
    ensures shape.Custom? ==> r == Success(v)
    ensures shape.ArrayOf? ==> (r.Success? ==> r.value.JArray?) && (!v.JArray? ==> r == Failure(ExpectedArray))
    ensures shape.ObjectOf? ==> (r.Success? ==> r.value.JObject?) && (!v.JObject? ==> r == Failure(ExpectedObject))
    decreases shape, 0
  {
    match shape
    case Custom => Success(v)
    case ArrayOf(e) =>
      if !v.JArray? then Failure(ExpectedArray)
      else
        var items :- ParseItems(e, v.items);
        Success(JArray(items))
    case ObjectOf(fs) =>
      if !v.JObject? then Failure(ExpectedObject)
      else
        var ms :- ParseFields(fs, v.members);
        Success(JObject(ms))
  }

  /** Every element parsed against the element shape, in order. */
  function ParseItems(e: Shape, items: seq<Json>): (r: Result<seq<Json>, Issue>)
    ensures r.Success? <==> forall i | 0 <= i < |items| :: Parse(e, items[i]).Success?
    ensures r.Success? ==> |r.value| == |items|
    ensures r.Success? ==> forall i | 0 <= i < |items| :: Parse(e, items[i]) == Success(r.value[i])
    decreases e, |items|
  {
    if |items| == 0 then Success([])
    else
      var first :- Parse(e, items[0]);
      var rest :- ParseItems(e, items[1..]);
      Success([first] + rest)
  }

  /**
   * The declared fields of an object, in declaration order; keys the shape
   * does not declare are dropped.
   */
  function ParseFields(fs: seq<Field>, members: seq<Member>): (r: Result<seq<Member>, Issue>)
    ensures r.Success? <==> forall i | 0 <= i < |fs| :: FieldOk(fs[i], members)
    ensures r.Success? ==> forall j | 0 <= j < |r.value| ::
      && r.value[j].value.JString?
      && Lookup(members, r.value[j].name) == Some(r.value[j].value)
      && exists i | 0 <= i < |fs| :: fs[i].name == r.value[j].name
    ensures r.Success? ==> forall i | 0 <= i < |fs| && Lookup(members, fs[i].name).Some? ::
      Member(fs[i].name, Lookup(members, fs[i].name).value) in r.value
    decreases |fs|
  {
    if |fs| == 0 then Success([])
    else
      var f := fs[0];
      match Lookup(members, f.name)
      case None =>
        if f.optional then ParseFields(fs[1..], members) else Failure(ExpectedString(f.name))
      case Some(v) =>
        if !v.JString? then Failure(ExpectedString(f.name))
        else
          var rest :- ParseFields(fs[1..], members);
          Success([Member(f.name, v)] + rest)
  }

  /** An array of predicate-free elements parses to exactly itself; anything else is refused. */
  lemma ParseArrayOfCustom(v: Json)
    ensures Parse(ArrayOf(Custom), v) == (if v.JArray? then Success(v) else Failure(ExpectedArray))
  {
    if v.JArray? {
      var r := ParseItems(Custom, v.items);
      assert r.Success?;
      assert r.value == v.items;
    }
  }

  /**
   * A message body is accepted exactly when it is an object whose `message`
   * is a string, and it comes back as just that message.
   */
  lemma ParseMessageBody(v: Json)
    ensures Parse(NotFoundShape, v).Success? <==>
      v.JObject? && Lookup(v.members, "message").Some? && Lookup(v.members, "message").value.JString?
    ensures Parse(NotFoundShape, v).Success? ==>
      Parse(NotFoundShape, v).value == JObject([Member("message", Lookup(v.members, "message").value)])
  {
    if v.JObject? {
      var fs := [Field("message", false)];
      assert FieldOk(fs[0], v.members) <==> Lookup(v.members, "message").Some? && Lookup(v.members, "message").value.JString?;
    }
  }

  /** The body `{ message }` an error response carries. */
  function MessageBody(message: string): (j: Json)
    ensures j.JObject? && Lookup(j.members, "message") == Some(JString(message))
  {
    JObject([Member("message", JString(message))])
  }

  /** Every message body the server builds satisfies the not-found and internal shapes unchanged. */
  lemma MessageBodyConforms(message: string)
    ensures Parse(NotFoundShape, MessageBody(message)) == Success(MessageBody(message))
    ensures Parse(InternalShape, MessageBody(message)) == Success(MessageBody(message))
    ensures Parse(ValidationShape, MessageBody(message)) == Success(MessageBody(message))
  {
    ParseMessageBody(MessageBody(message));
    var ms := MessageBody(message).members;
    assert Lookup(ms, "field") == None;
  }

  /** The declared statuses of each endpoint. */
  lemma DeclaredResponses()
    ensures ResponseShape(ListEvents, 200) == Some(ArrayOf(Custom))
    ensures ResponseShape(GetEvent, 200) == Some(Custom)
    ensures ResponseShape(GetEvent, 404) == Some(NotFoundShape)
    ensures ResponseShape(ListTeam, 200) == Some(ArrayOf(Custom))
    ensures ResponseShape(ListEvents, 404) == None && ResponseShape(ListTeam, 404) == None
  {
  }
}
