/**
 * `seedDatabase`: unless some stored event already carries the sentinel
 * title, create four demonstration events and then three team members, one
 * awaited call at a time, in listed order.
 */
module Seed {
  import opened Wrappers
  import opened Schema
  import opened Exceptions
  import opened MemStorage
  import Storage

  /** The title whose presence marks a store as already seeded. */
  const Sentinel: string := "Grandeur Delhi Wedding Celebration"

  /** Stand-in for the long descriptive texts and image URLs of the demonstration data. */
  const Elided: string := ""

  /** Each demonstration event has a gallery of three image URLs. */
  const ElidedGallery: seq<string> := [Elided, Elided, Elided]

  predicate HasSentinel(es: seq<Event>) {
    exists i | 0 <= i < |es| :: es[i].title == Sentinel
  }

  const SeedEvents: seq<EventDraft> := [
    EventDraft(Sentinel, Elided, Timestamp("2024-03-15T00:00:00.000Z"),
      "Indra Ballroom, Delhi", Elided, "Wedding", Extras(Some(ElidedGallery), Some("Wedding"))),
    EventDraft("TechInnovate Mumbai Summit 2024", Elided, Timestamp("2024-02-28T00:00:00.000Z"),
      "The Gateway Hotel, Mumbai", Elided, "Corporate", Extras(Some(ElidedGallery), None)),
    EventDraft("Bangalore Brand Launch Gala", Elided, Timestamp("2024-01-20T00:00:00.000Z"),
      "Vibrant Event Space, Bangalore", Elided, "Corporate", Extras(Some(ElidedGallery), None)),
    EventDraft("Destination Wedding Goa", Elided, Timestamp("2023-12-10T00:00:00.000Z"),
      "Taj Exotica Resort, Goa", Elided, "Wedding", Extras(Some(ElidedGallery), None))
  ]

  const SeedTeam: seq<TeamMemberDraft> := [
    TeamMemberDraft("Omkar Suresh Nage", "Founder & Lead Event Planner", Elided, Elided),
    TeamMemberDraft("Priya Sharma", "Creative Director & Designer", Elided, Elided),
    TeamMemberDraft("Amit Patel", "Operations & Logistics Manager", Elided, Elided)
  ]

  function EventOps(ds: seq<EventDraft>): seq<Op> {
    seq(|ds|, i requires 0 <= i < |ds| => AddEvent(ds[i]))
  }

  function TeamOps(ds: seq<TeamMemberDraft>): seq<Op> {
    seq(|ds|, i requires 0 <= i < |ds| => AddTeamMember(ds[i]))
  }

  /** The two `for ... of` loops: every event create, then every team create. */
  function SeedOps(): seq<Op> {
    EventOps(SeedEvents) + TeamOps(SeedTeam)
  }

  /**
   * The seed routine against any backend; a throw from the store propagates.
   * On the in-memory backend it succeeds with SeedMem; without a connection it
   * throws at the first listing.
   */
  function SeedDatabase(b: Storage.Backend): (r: Result<Storage.Backend, Thrown>)
    ensures b.Memory? ==> r == Success(Storage.Memory(SeedMem(b.store)))
    ensures b.UninitializedDatabase? ==> r == Failure(Storage.NotInitialized)
  {
    var existing :- Storage.GetEvents(b);
    // The clean-up branch for legacy image hosts has an empty body, so it is omitted.
    if HasSentinel(existing) then Success(b)
    else Storage.PerformAll(b, SeedOps())
  }

  /** The seed routine on an in-memory store, where nothing can throw. */
  function SeedMem(s: MemStore): MemStore {
    if HasSentinel(GetEvents(s)) then s else Run(s, SeedOps())
  }

  /** Event ops contribute exactly their drafts, team ops exactly theirs. */
  lemma {:induction false} DraftsOfOps(ds: seq<EventDraft>, ts: seq<TeamMemberDraft>)
    ensures EventDrafts(EventOps(ds) + TeamOps(ts)) == ds
    ensures TeamDrafts(EventOps(ds) + TeamOps(ts)) == ts
    decreases |ds| + |ts|
  {
    var ops := EventOps(ds) + TeamOps(ts);
    if |ds| > 0 {
      assert ops[1..] == EventOps(ds[1..]) + TeamOps(ts);
      DraftsOfOps(ds[1..], ts);
      assert ds == [ds[0]] + ds[1..];
    } else if |ts| > 0 {
      assert ops == TeamOps(ts);
      assert ops[1..] == EventOps([]) + TeamOps(ts[1..]);
      DraftsOfOps([], ts[1..]);
      assert ts == [ts[0]] + ts[1..];
    }
  }

  /**
   * Without the sentinel, seeding appends exactly the four events and then
   * the three team members, in listed order, numbered on from the counters.
   */
  lemma SeedAppends(s: MemStore)
    requires Valid(s)
    requires !HasSentinel(GetEvents(s))
    ensures Valid(SeedMem(s))
    ensures GetEvents(SeedMem(s)) == GetEvents(s) + NumberEvents(SeedEvents, s.eventId)
    ensures GetTeamMembers(SeedMem(s)) == GetTeamMembers(s) + NumberTeamMembers(SeedTeam, s.teamMemberId)
    ensures |GetEvents(SeedMem(s))| == |GetEvents(s)| + 4
    ensures |GetTeamMembers(SeedMem(s))| == |GetTeamMembers(s)| + 3
  {
    RunAppends(s, SeedOps());
    DraftsOfOps(SeedEvents, SeedTeam);
  }

  /** With the sentinel present, seeding changes nothing. */
  lemma SeedSkips(s: MemStore)
    requires HasSentinel(GetEvents(s))
    ensures SeedMem(s) == s
    ensures SeedDatabase(Storage.Memory(s)) == Success(Storage.Memory(s))
  {
  }

  /** The seed events numbered from 1: ids 1..4 with the listed titles. */
  lemma SeedEventsFromOne()
    ensures var es := NumberEvents(SeedEvents, 1);
      && |es| == 4
      && (forall i | 0 <= i < 4 :: es[i].id == i + 1)
      && es[0].title == "Grandeur Delhi Wedding Celebration"
      && es[1].title == "TechInnovate Mumbai Summit 2024"
      && es[2].title == "Bangalore Brand Launch Gala"
      && es[3].title == "Destination Wedding Goa"
  {
    var es := NumberEvents(SeedEvents, 1);
    forall i | 0 <= i < 4
      ensures es[i] == EventWithId(SeedEvents[i], i + 1)
    {
      NumberEventsAt(SeedEvents, 1, i);
    }
  }

  /** The seed team numbered from 1: ids 1..3 with the listed names. */
  lemma SeedTeamFromOne()
    ensures var ms := NumberTeamMembers(SeedTeam, 1);
      && |ms| == 3
      && (forall i | 0 <= i < 3 :: ms[i].id == i + 1)
      && ms[0].name == "Omkar Suresh Nage"
      && ms[1].name == "Priya Sharma"
      && ms[2].name == "Amit Patel"
  {
    var ms := NumberTeamMembers(SeedTeam, 1);
    forall i | 0 <= i < 3
      ensures ms[i] == TeamMemberWithId(SeedTeam[i], i + 1)
    {
      NumberTeamMembersAt(SeedTeam, 1, i);
    }
  }

  lemma NoSentinelInEmpty(es: seq<Event>)
    requires es == []
    ensures !HasSentinel(es)
  {
  }

  /**
   * On an empty store with both counters at 1, seeding yields exactly the
   * seed events numbered 1..4 and the seed team numbered 1..3.
   */
  lemma SeedEmpty(s: MemStore)
    requires Valid(s) && s.eventId == 1 && s.teamMemberId == 1
    requires GetEvents(s) == [] && GetTeamMembers(s) == []
    ensures GetEvents(SeedMem(s)) == NumberEvents(SeedEvents, 1)
    ensures GetTeamMembers(SeedMem(s)) == NumberTeamMembers(SeedTeam, 1)
  {
    NoSentinelInEmpty(GetEvents(s));
    SeedAppends(s);
    var es := NumberEvents(SeedEvents, s.eventId);
    assert GetEvents(SeedMem(s)) == GetEvents(s) + es;
    assert GetEvents(s) + es == es;
  }

  /** A new store seeded holds four events and three team members. */
  lemma SeedFreshSizes()
    ensures |GetEvents(SeedMem(New()))| == 4
    ensures |GetTeamMembers(SeedMem(New()))| == 3
  {
    SeedEmpty(New());
    SeedEventsFromOne();
    SeedTeamFromOne();
  }

  /** Seeding twice is seeding once: the first seeded event carries the sentinel. */
  lemma SeedIdempotent(s: MemStore)
    requires Valid(s)
    ensures SeedMem(SeedMem(s)) == SeedMem(s)
  {
    if !HasSentinel(GetEvents(s)) {
      SeedAppends(s);
      var es := GetEvents(SeedMem(s));
      NumberEventsAt(SeedEvents, s.eventId, 0);
      assert es[|GetEvents(s)|].title == Sentinel;
    }
  }

  /**
   * Seeding never alters or removes a record: the old listings are prefixes
   * of the new ones, and every stored id still finds the same event.
   */
  lemma SeedPreserves(s: MemStore, k: int)
    requires Valid(s)
    ensures GetEvents(s) <= GetEvents(SeedMem(s))
    ensures GetTeamMembers(s) <= GetTeamMembers(SeedMem(s))
    ensures GetEvent(s, k).Some? ==> GetEvent(SeedMem(s), k) == GetEvent(s, k)
  {
    if !HasSentinel(GetEvents(s)) {
      SeedAppends(s);
      if GetEvent(s, k).Some? {
        GetEventAgreesWithList(s, k);
        assert k < s.eventId;
        RunKeepsEarlier(s, SeedOps(), k);
      }
    }
  }
}
