/**
 * The client's data hooks for events: the request each issues, how a
 * response becomes data or an error, and the query keys under which the
 * results are cached.
 */
module EventHooks {
  import opened Wrappers
  import opened Text
  import opened Json
  import opened Schema
  import Contract
  import M = MemStorage
  import Storage
  import Routes

  /**
   * What `fetch` resolved to: status and status text, the body text, and
   * the body as `JSON.parse` reads it (None when the text is not JSON).
   */
  datatype FetchResponse = FetchResponse(status: int, statusText: string, text: string, body: Option<Json>)

  /** Why a query failed. */
  datatype QueryError =
    | FetchFailed(message: string)
    | JsonSyntaxError
    | ShapeMismatch(issue: Contract.Issue)

  /** `res.ok`. */
  predicate Ok(status: int) {
    200 <= status <= 299
  }

  const EventsFailurePrefix: string := "Failed to fetch events: "
  const EventFailureMessage: string := "Failed to fetch event"

  /** How many characters of the body text the events error message quotes. */
  const QuotedBodyLength: nat := 100

  /**
   * The events hook's error message: it opens with the status and the status
   * text and closes with at most the first hundred characters of the body.
   */
  function EventsFailure(status: int, statusText: string, text: string): (m: string)
    ensures EventsFailurePrefix <= m
    ensures EventsFailurePrefix + IntToString(status) + " " + statusText <= m
    ensures var quoted := Prefix(text, QuotedBodyLength);
      |quoted| <= |m| && m[|m| - |quoted|..] == quoted && quoted <= text
    ensures |m| <= |EventsFailurePrefix| + |IntToString(status)| + 1 + |statusText| + 3 + QuotedBodyLength
  {
    EventsFailurePrefix + IntToString(status) + " " + statusText + " - " + Prefix(text, QuotedBodyLength)
  }

  /** The query function of the events-list hook. */
  function EventsQuery(r: FetchResponse): (q: Result<Json, QueryError>)
    ensures q.Success? ==> Ok(r.status) && q.value.JArray? && r.body == Some(q.value)
    ensures !Ok(r.status) ==> q == Failure(FetchFailed(EventsFailure(r.status, r.statusText, r.text)))
    ensures Ok(r.status) && r.body.None? ==> q == Failure(JsonSyntaxError)
    ensures Ok(r.status) && r.body.Some? && r.body.value.JArray? ==> q == Success(r.body.value)
    ensures Ok(r.status) && r.body.Some? && !r.body.value.JArray? ==> q == Failure(ShapeMismatch(Contract.ExpectedArray))
  {
    if !Ok(r.status) then Failure(FetchFailed(EventsFailure(r.status, r.statusText, r.text)))
    else if r.body.None? then Failure(JsonSyntaxError)
    else match Contract.Parse(Contract.ArrayOf(Contract.Custom), r.body.value)
      case Success(data) =>
        Contract.ParseArrayOfCustom(r.body.value);
        Success(data)
      case Failure(issue) => Failure(ShapeMismatch(issue))
  }

  /**
   * The query function of the event-by-id hook: a 404 is `null` rather than
   * an error, and the body is accepted as it is, so a 2xx `null` body gives
   * the same `null`.
   */
  function EventQuery(r: FetchResponse): (q: Result<Json, QueryError>)
    ensures q == Success(JNull) <==> r.status == 404 || (Ok(r.status) && r.body == Some(JNull))
    ensures q.Success? && r.status != 404 ==> Ok(r.status) && r.body == Some(q.value)
    ensures q.Failure? ==> q.error == FetchFailed(EventFailureMessage) || q.error == JsonSyntaxError
    ensures r.status == 404 ==> q == Success(JNull)
    ensures r.status != 404 && !Ok(r.status) ==> q == Failure(FetchFailed(EventFailureMessage))
    ensures Ok(r.status) ==> q == if r.body.Some? then Success(r.body.value) else Failure(JsonSyntaxError)
  {
    if r.status == 404 then Success(JNull)
    else if !Ok(r.status) then Failure(FetchFailed(EventFailureMessage))
    else if r.body.None? then Failure(JsonSyntaxError)
    else
      Success(Contract.Parse(Contract.Custom, r.body.value).value)
  }

  /**
   * The URL the event-by-id hook requests: the contract path with `:id`
   * replaced, which is the literal prefix followed by the id's decimal text.
   */
  function EventUrl(id: int): (u: string)
    ensures u == Routes.EventPathPrefix + IntToString(id)
  {
    ReplaceParameter(IntToString(id));
    ReplaceFirst(Contract.GetEventPath, ":id", IntToString(id))
  }

  /** Replacing the parameter leaves the literal prefix and appends the replacement. */
  lemma ReplaceParameter(t: string)
    ensures ReplaceFirst(Contract.GetEventPath, ":id", t) == Routes.EventPathPrefix + t
  {
    var path := Contract.GetEventPath;
    assert OccursAt(path, ":id", 12);
    forall j: nat | j < 12 ensures !OccursAt(path, ":id", j) {
      assert path[j] != ':';
    }
    assert path[..12] == Routes.EventPathPrefix;
    assert path[15..] == [];
  }

  /** Distinct ids request distinct URLs. */
  lemma EventUrlInjective(a: int, b: int)
    requires EventUrl(a) == EventUrl(b)
    ensures a == b
  {
    var n := |Routes.EventPathPrefix|;
    assert IntToString(a) == EventUrl(a)[n..];
    assert IntToString(b) == EventUrl(b)[n..];
    IntToStringInjective(a, b);
  }

  /** The status the events error message reports, read back from the message. */
  function StatusOfMessage(m: string): Option<int> {
    if EventsFailurePrefix <= m then
      var rest := m[|EventsFailurePrefix|..];
      var k :- FindFrom(rest, " ", 0);
      ParseInteger(rest[..k])
    else None
  }

  /** The events error message always lets the status be read back. */
  lemma EventsFailureShowsStatus(status: int, statusText: string, text: string)
    ensures StatusOfMessage(EventsFailure(status, statusText, text)) == Some(status)
  {
    var m := EventsFailure(status, statusText, text);
    var digits := IntToString(status);
    var tail := statusText + " - " + Prefix(text, QuotedBodyLength);
    var rest := m[|EventsFailurePrefix|..];
    assert rest == digits + " " + tail;
    OccursAtChar(rest, ' ', |digits|);
    forall j: nat | j < |digits| ensures !OccursAt(rest, " ", j) {
      NoSpaceInInteger(status, j);
      assert rest[j] == digits[j];
      OccursAtChar(rest, ' ', j);
    }
    var k := FindFrom(rest, " ", 0);
    assert k == Some(|digits|);
    assert rest[..|digits|] == digits;
    ParseIntegerIntToString(status);
  }

  lemma NoSpaceInInteger(i: int, j: nat)
    requires j < |IntToString(i)|
    ensures IntToString(i)[j] != ' '
  {
    if i < 0 {
      if j > 0 {
        assert IntToString(i)[j] == NatToString(-i)[j - 1];
      }
    }
  }

  /** A cache key: the request path, then the hook's arguments. */
  type QueryKey = seq<Json>

  function EventsKey(): QueryKey {
    [JString(Contract.ListEventsPath)]
  }

  function EventKey(id: int): QueryKey {
    [JString(Contract.GetEventPath), JNumber(id)]
  }

  /** The cache of query results, by key. */
  type QueryCache<R> = map<QueryKey, R>

  /**
   * A mount of a hook: a cached result is reused without fetching; otherwise
   * the fetched result is returned and stored under the key.
   */
  function UseQuery<R>(cache: QueryCache<R>, key: QueryKey, fetched: R): (out: (R, QueryCache<R>))
    ensures key in cache ==> out == (cache[key], cache)
    ensures key !in cache ==> out.0 == fetched
    ensures key in out.1 && out.1[key] == out.0
    ensures forall k | k in cache :: k in out.1 && out.1[k] == cache[k]
  {
    if key in cache then (cache[key], cache) else (fetched, cache[key := fetched])
  }

  /** A second mount under the same key sees the first mount's result, whatever a new fetch would return. */
  lemma RemountReusesResult<R>(cache: QueryCache<R>, key: QueryKey, first: R, second: R)
    ensures var (r1, c1) := UseQuery(cache, key, first);
            UseQuery(c1, key, second) == (r1, c1)
  {
  }

  /** Keys of different events differ, and none is the list's key, so their entries never collide. */
  lemma KeysDistinct(a: int, b: int)
    ensures EventKey(a) == EventKey(b) <==> a == b
    ensures EventKey(a) != EventsKey()
  {
    if EventKey(a) == EventKey(b) {
      assert EventKey(a)[1] == EventKey(b)[1];
    }
  }

  /**
   * The event page's request after the server was populated by creates on a
   * new store: a created id yields that event's body, any other id yields
   * `null` and no error.
   */
  lemma EventFetchAfterCreates(ops: seq<M.Op>, k: int, statusText: string, text: string)
    ensures var ds := M.EventDrafts(ops);
      var served := Routes.Serve(Storage.Memory(M.Run(M.New(), ops)), Routes.Request("GET", EventUrl(k)));
      && served.Some? && served.value.Success?
      && var resp := served.value.value;
         EventQuery(FetchResponse(resp.status, statusText, text, Some(resp.body))) ==
           if 1 <= k <= |ds| then Success(EventToJson(EventWithId(ds[k - 1], k)))
           else Success(JNull)
  {
    Routes.GetByIdAfterCreates(ops, k);
  }

  /**
   * The events page's request against any in-memory store: the list route
   * answers 200 and the hook returns a body whose items read back as the
   * stored events, in store order.
   */
  lemma EventsFetchListsStore(s: M.MemStore, statusText: string, text: string)
    ensures var served := Routes.Serve(Storage.Memory(s), Routes.Request("GET", Contract.ListEventsPath));
      && served.Some? && served.value.Success?
      && var resp := served.value.value;
         var q := EventsQuery(FetchResponse(resp.status, statusText, text, Some(resp.body)));
         && resp.status == 200
         && q.Success? && q.value.JArray? && |q.value.items| == |M.GetEvents(s)|
         && forall i | 0 <= i < |M.GetEvents(s)| :: EventFromJson(q.value.items[i]) == Some(M.GetEvents(s)[i])
  {
    Routes.ListRoutes(s);
  }
}
