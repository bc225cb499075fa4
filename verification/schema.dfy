/**
 * The two record types and their insert shapes. A row is its insert shape
 * plus a server-assigned `id`; the insert shape is the row with `id`
 * removed. Event drafts may carry two fields outside the table definition
 * (`gallery`, `categoryId`), which the in-memory store keeps because it
 * builds records by object spread.
 */
module Schema {
  import opened Wrappers
  import opened Json

  /** A point in time, held as the ISO-8601 text `Date.prototype.toISOString` gives it. */
  datatype Timestamp = Timestamp(iso: string)

  /** Fields a draft may carry beyond the table definition. */
  datatype Extras = Extras(gallery: Option<seq<string>>, categoryId: Option<string>)

  datatype EventDraft = EventDraft(
    title: string,
    description: string,
    date: Timestamp,
    location: string,
    imageUrl: string,
    category: string,
    extras: Extras)

  datatype Event = Event(
    id: int,
    title: string,
    description: string,
    date: Timestamp,
    location: string,
    imageUrl: string,
    category: string,
    extras: Extras)

  datatype TeamMemberDraft = TeamMemberDraft(
    name: string,
    role: string,
    bio: string,
    imageUrl: string)

  datatype TeamMember = TeamMember(
    id: int,
    name: string,
    role: string,
    bio: string,
    imageUrl: string)

  /** The row shape with its id removed. */
  function EventWithoutId(e: Event): EventDraft {
    EventDraft(e.title, e.description, e.date, e.location, e.imageUrl, e.category, e.extras)
  }

  /** `{ ...draft, id }`: the draft extended with an id. */
  function EventWithId(d: EventDraft, id: int): (e: Event)
    ensures e.id == id
    ensures EventWithoutId(e) == d
  {
    Event(id, d.title, d.description, d.date, d.location, d.imageUrl, d.category, d.extras)
  }

  function TeamMemberWithoutId(m: TeamMember): TeamMemberDraft {
    TeamMemberDraft(m.name, m.role, m.bio, m.imageUrl)
  }

  function TeamMemberWithId(d: TeamMemberDraft, id: int): (m: TeamMember)
    ensures m.id == id
    ensures TeamMemberWithoutId(m) == d
  {
    TeamMember(id, d.name, d.role, d.bio, d.imageUrl)
  }

  /** Insert shapes are exactly rows without their id: the two maps are inverse. */
  lemma InsertShapeIsRowWithoutId(e: Event, m: TeamMember, d: EventDraft, t: TeamMemberDraft, id: int)
    ensures EventWithId(EventWithoutId(e), e.id) == e
    ensures EventWithoutId(EventWithId(d, id)) == d
    ensures TeamMemberWithId(TeamMemberWithoutId(m), m.id) == m
    ensures TeamMemberWithoutId(TeamMemberWithId(t, id)) == t
  {
  }

  function StringsToJson(ss: seq<string>): (j: Json)
    ensures j.JArray? && |j.items| == |ss|
    ensures forall i | 0 <= i < |ss| :: j.items[i] == JString(ss[i])
  {
    JArray(seq(|ss|, i requires 0 <= i < |ss| => JString(ss[i])))
  }

  /**
   * The JSON body `res.json(event)` sends: the draft's properties, then `id`
   * (object spread puts the new key last). Optional extras appear only when
   * present.
   */
  function EventToJson(e: Event): (j: Json)
    ensures j.JObject? && |j.members| >= 7
    ensures j.members[|j.members| - 1] == Member("id", JNumber(e.id))
  {
    JObject(EventColumns(e) + EventExtras(e) + [Member("id", JNumber(e.id))])
  }

  /** The table's columns, in declaration order. */
  function EventColumns(e: Event): seq<Member> {
    [Member("title", JString(e.title)),
     Member("description", JString(e.description)),
     Member("date", JString(e.date.iso)),
     Member("location", JString(e.location)),
     Member("imageUrl", JString(e.imageUrl)),
     Member("category", JString(e.category))]
  }

  /** The extras that are present. */
  function EventExtras(e: Event): seq<Member> {
    var categoryId := match e.extras.categoryId
      case Some(c) => [Member("categoryId", JString(c))]
      case None => [];
    var gallery := match e.extras.gallery
      case Some(g) => [Member("gallery", StringsToJson(g))]
      case None => [];
    categoryId + gallery
  }

  function TeamMemberToJson(m: TeamMember): (j: Json)
    ensures j.JObject? && |j.members| == 5
    ensures j.members[4] == Member("id", JNumber(m.id))
  {
    var ms := [Member("name", JString(m.name)),
               Member("role", JString(m.role)),
               Member("bio", JString(m.bio)),
               Member("imageUrl", JString(m.imageUrl)),
               Member("id", JNumber(m.id))];
    JObject(ms)
  }

  /** The strings of a JSON array of strings. */
  function JsonToStrings(j: Json): (r: Option<seq<string>>)
    ensures r.Some? ==> j.JArray? && |r.value| == |j.items|
    ensures r.Some? ==> forall i | 0 <= i < |j.items| :: j.items[i] == JString(r.value[i])
  {
    if j.JArray? && forall i | 0 <= i < |j.items| :: j.items[i].JString? then
      Some(seq(|j.items|, i requires 0 <= i < |j.items| => j.items[i].s))
    else None
  }

  function StringMember(members: seq<Member>, name: string): Option<string> {
    match Lookup(members, name)
    case Some(JString(s)) => Some(s)
    case _ => None
  }

  function NumberMember(members: seq<Member>, name: string): Option<int> {
    match Lookup(members, name)
    case Some(JNumber(n)) => Some(n)
    case _ => None
  }

  /** An optional extra: absent reads as None, present must decode. */
  function OptionalStrings(members: seq<Member>, name: string): Option<Option<seq<string>>> {
    match Lookup(members, name)
    case None => Some(None)
    case Some(j) => var ss :- JsonToStrings(j); Some(Some(ss))
  }

  function OptionalString(members: seq<Member>, name: string): Option<Option<string>> {
    match Lookup(members, name)
    case None => Some(None)
    case Some(JString(s)) => Some(Some(s))
    case Some(_) => None
  }

  /**
   * How a client reads an event out of a decoded body: the properties it
   * uses, by name. Dates travel as their ISO text.
   */
  function EventFromJson(j: Json): (r: Option<Event>)
    ensures r.Some? ==> j.JObject? && NumberMember(j.members, "id") == Some(r.value.id)
    ensures r.Some? ==> StringMember(j.members, "title") == Some(r.value.title)
  {
    if !j.JObject? then None
    else
      var ms := j.members;
      var id :- NumberMember(ms, "id");
      var title :- StringMember(ms, "title");
      var description :- StringMember(ms, "description");
      var date :- StringMember(ms, "date");
      var location :- StringMember(ms, "location");
      var imageUrl :- StringMember(ms, "imageUrl");
      var category :- StringMember(ms, "category");
      var gallery :- OptionalStrings(ms, "gallery");
      var categoryId :- OptionalString(ms, "categoryId");
      Some(Event(id, title, description, Timestamp(date), location, imageUrl, category,
                 Extras(gallery, categoryId)))
  }

  function TeamMemberFromJson(j: Json): (r: Option<TeamMember>)
    ensures r.Some? ==> j.JObject? && NumberMember(j.members, "id") == Some(r.value.id)
    ensures r.Some? ==> StringMember(j.members, "name") == Some(r.value.name)
  {
    if !j.JObject? then None
    else
      var ms := j.members;
      var id :- NumberMember(ms, "id");
      var name :- StringMember(ms, "name");
      var role :- StringMember(ms, "role");
      var bio :- StringMember(ms, "bio");
      var imageUrl :- StringMember(ms, "imageUrl");
      Some(TeamMember(id, name, role, bio, imageUrl))
  }

  /** A gallery survives the trip through JSON. */
  lemma StringsRoundTrip(ss: seq<string>)
    ensures JsonToStrings(StringsToJson(ss)) == Some(ss)
  {
    var j := StringsToJson(ss);
    assert forall i | 0 <= i < |j.items| :: j.items[i].JString?;
    assert JsonToStrings(j).value == ss;
  }

  lemma DistinctColumns(e: Event)
    ensures DistinctNames(EventColumns(e))
  {
  }

  lemma ColumnLookup(e: Event, name: string, v: Json)
    requires Member(name, v) in EventColumns(e)
    ensures Lookup(EventColumns(e), name) == Some(v)
  {
    DistinctColumns(e);
    LookupMember(EventColumns(e), name, v);
  }

  lemma ColumnAbsent(e: Event, name: string)
    requires name in ["id", "gallery", "categoryId"]
    ensures Lookup(EventColumns(e), name) == None
  {
  }

  lemma ExtrasLookups(e: Event, name: string)
    ensures Lookup(EventExtras(e), name) ==
      if name == "gallery" && e.extras.gallery.Some? then Some(StringsToJson(e.extras.gallery.value))
      else if name == "categoryId" && e.extras.categoryId.Some? then Some(JString(e.extras.categoryId.value))
      else None
  {
    var cid := if e.extras.categoryId.Some? then [Member("categoryId", JString(e.extras.categoryId.value))] else [];
    var gal := if e.extras.gallery.Some? then [Member("gallery", StringsToJson(e.extras.gallery.value))] else [];
    assert EventExtras(e) == cid + gal;
    LookupConcat(cid, gal, name);
  }

  /** Only the two extras' names can be found among the extras. */
  lemma ExtrasAbsent(e: Event, name: string)
    requires name != "gallery" && name != "categoryId"
    ensures Lookup(EventExtras(e), name) == None
  {
    ExtrasLookups(e, name);
  }

  /** A name that is neither `id` nor an extra is looked up among the columns. */
  lemma BodyColumnLookup(e: Event, name: string)
    requires name != "id" && name != "gallery" && name != "categoryId"
    ensures Lookup(EventToJson(e).members, name) == Lookup(EventColumns(e), name)
  {
    var idm := [Member("id", JNumber(e.id))];
    LookupThreeParts(EventColumns(e), EventExtras(e), idm, name);
    ExtrasAbsent(e, name);
    assert Lookup(idm, name) == None;
  }

  /** A column property of an event body reads back as the column's text. */
  lemma ColumnProperty(e: Event, name: string, v: string)
    requires name != "id" && name != "gallery" && name != "categoryId"
    requires Member(name, JString(v)) in EventColumns(e)
    ensures StringMember(EventToJson(e).members, name) == Some(v)
  {
    BodyColumnLookup(e, name);
    ColumnLookup(e, name, JString(v));
  }

  lemma EventPropertyLookup(e: Event, name: string)
    ensures Lookup(EventToJson(e).members, name) ==
      if name == "id" then Some(JNumber(e.id))
      else if Lookup(EventExtras(e), name).Some? then Lookup(EventExtras(e), name)
      else Lookup(EventColumns(e), name)
  {
    var idm := [Member("id", JNumber(e.id))];
    LookupThreeParts(EventColumns(e), EventExtras(e), idm, name);
    ExtrasLookups(e, name);
  }

  lemma ColumnProperties(e: Event)
    ensures var ms := EventToJson(e).members;
      && StringMember(ms, "title") == Some(e.title)
      && StringMember(ms, "description") == Some(e.description)
      && StringMember(ms, "date") == Some(e.date.iso)
      && StringMember(ms, "location") == Some(e.location)
      && StringMember(ms, "imageUrl") == Some(e.imageUrl)
      && StringMember(ms, "category") == Some(e.category)
  {
    ColumnProperty(e, "title", e.title);
    ColumnProperty(e, "description", e.description);
    ColumnProperty(e, "date", e.date.iso);
    ColumnProperty(e, "location", e.location);
    ColumnProperty(e, "imageUrl", e.imageUrl);
    ColumnProperty(e, "category", e.category);
  }

  lemma IdProperty(e: Event)
    ensures NumberMember(EventToJson(e).members, "id") == Some(e.id)
  {
    EventPropertyLookup(e, "id");
  }

  lemma GalleryProperty(e: Event)
    ensures OptionalStrings(EventToJson(e).members, "gallery") == Some(e.extras.gallery)
  {
    EventPropertyLookup(e, "gallery");
    ColumnAbsent(e, "gallery");
    if e.extras.gallery.Some? {
      StringsRoundTrip(e.extras.gallery.value);
    }
  }

  lemma CategoryIdProperty(e: Event)
    ensures OptionalString(EventToJson(e).members, "categoryId") == Some(e.extras.categoryId)
  {
    EventPropertyLookup(e, "categoryId");
    ColumnAbsent(e, "categoryId");
  }

  /** Reading back the body sent for an event gives the event. */
  lemma EventRoundTrip(e: Event)
    ensures EventFromJson(EventToJson(e)) == Some(e)
  {
    ColumnProperties(e);
    IdProperty(e);
    GalleryProperty(e);
    CategoryIdProperty(e);
  }

  /** Each property of a team member's body is found under its own name. */
  lemma TeamMemberLookup(m: TeamMember, i: nat)
    requires i < 5
    ensures var ms := TeamMemberToJson(m).members;
      Lookup(ms, ms[i].name) == Some(ms[i].value)
  {
    var ms := TeamMemberToJson(m).members;
    assert DistinctNames(ms);
    LookupSingle(ms, i);
  }

  /** Reading back the body sent for a team member gives the member. */
  lemma TeamMemberRoundTrip(m: TeamMember)
    ensures TeamMemberFromJson(TeamMemberToJson(m)) == Some(m)
  {
    var ms := TeamMemberToJson(m).members;
    TeamMemberLookup(m, 0);
    assert StringMember(ms, "name") == Some(m.name);
    TeamMemberLookup(m, 1);
    assert StringMember(ms, "role") == Some(m.role);
    TeamMemberLookup(m, 2);
    assert StringMember(ms, "bio") == Some(m.bio);
    TeamMemberLookup(m, 3);
    assert StringMember(ms, "imageUrl") == Some(m.imageUrl);
    TeamMemberLookup(m, 4);
    assert NumberMember(ms, "id") == Some(m.id);
  }
}
