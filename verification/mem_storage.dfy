/**
 * `MemStorage`: the in-memory repository. Two insertion-ordered maps keyed by
 * id and one next-id counter per record type. Operations are pure: each
 * create returns the new record together with the next store state.
 */
module MemStorage {
  import opened Wrappers
  import opened InsertionMap
  import opened Schema

  datatype MemStore = MemStore(
    events: IMap<int, Event>,
    teamMembers: IMap<int, TeamMember>,
    eventId: int,
    teamMemberId: int)

  /** A created record and the store after its insertion. */
  datatype Created<T> = Created(record: T, store: MemStore)

  /** Every entry is keyed by its record's id, and every id lies in [1, next). */
  predicate EventsKeyedBelow(m: IMap<int, Event>, next: int) {
    forall i | 0 <= i < |m| :: m[i].key == m[i].value.id && 1 <= m[i].key < next
  }

  predicate TeamKeyedBelow(m: IMap<int, TeamMember>, next: int) {
    forall i | 0 <= i < |m| :: m[i].key == m[i].value.id && 1 <= m[i].key < next
  }

  /** The invariant every reachable store satisfies. */
  predicate Valid(s: MemStore) {
    && 1 <= s.eventId
    && 1 <= s.teamMemberId
    && EventsKeyedBelow(s.events, s.eventId)
    && TeamKeyedBelow(s.teamMembers, s.teamMemberId)
  }

  /** Setting a key above every present key appends an entry. */
  lemma AppendFresh<V>(m: IMap<int, V>, next: int, v: V)
    requires forall i | 0 <= i < |m| :: m[i].key < next
    ensures Set(m, next, v) == m + [Entry(next, v)]
    ensures Values(Set(m, next, v)) == Values(m) + [v]
  {
    assert next !in Keys(m);
    var m' := m + [Entry(next, v)];
    assert Values(m') == Values(m) + [v];
  }

  /** Appending the next event keeps the store keyed and raises the bound by one. */
  lemma EventAppended(m: IMap<int, Event>, next: int, e: Event)
    requires EventsKeyedBelow(m, next) && e.id == next && 1 <= next
    ensures Set(m, next, e) == m + [Entry(next, e)]
    ensures Values(Set(m, next, e)) == Values(m) + [e]
    ensures EventsKeyedBelow(Set(m, next, e), next + 1)
  {
    AppendFresh(m, next, e);
    var m' := m + [Entry(next, e)];
    forall i | 0 <= i < |m'|
      ensures m'[i].key == m'[i].value.id && 1 <= m'[i].key < next + 1
    {
      if i < |m| {
        assert m'[i] == m[i];
      }
    }
  }

  lemma TeamMemberAppended(m: IMap<int, TeamMember>, next: int, t: TeamMember)
    requires TeamKeyedBelow(m, next) && t.id == next && 1 <= next
    ensures Set(m, next, t) == m + [Entry(next, t)]
    ensures Values(Set(m, next, t)) == Values(m) + [t]
    ensures TeamKeyedBelow(Set(m, next, t), next + 1)
  {
    AppendFresh(m, next, t);
    var m' := m + [Entry(next, t)];
    forall i | 0 <= i < |m'|
      ensures m'[i].key == m'[i].value.id && 1 <= m'[i].key < next + 1
    {
      if i < |m| {
        assert m'[i] == m[i];
      }
    }
  }

  /** `new MemStorage()`. */
  function New(): (s: MemStore)
    ensures GetEvents(s) == [] && GetTeamMembers(s) == []
    ensures forall k :: GetEvent(s, k) == None
    ensures s.eventId == 1 && s.teamMemberId == 1
    ensures Valid(s)
  {
    MemStore([], [], 1, 1)
  }

  /** `getEvents()`: every stored event, in insertion order. */
  function GetEvents(s: MemStore): seq<Event> {
    Values(s.events)
  }

  /** `getEvent(id)`: the event stored under id, or undefined. */
  function GetEvent(s: MemStore, id: int): Option<Event> {
    Get(s.events, id)
  }

  function GetTeamMembers(s: MemStore): seq<TeamMember> {
    Values(s.teamMembers)
  }

  /** `createEvent(d)`: takes the counter as the id, then advances the counter. */
  function CreateEvent(s: MemStore, d: EventDraft): (r: Created<Event>)
    ensures r.record.id == s.eventId && EventWithoutId(r.record) == d
    ensures r.store.eventId == s.eventId + 1
    ensures r.store.teamMembers == s.teamMembers && r.store.teamMemberId == s.teamMemberId
    ensures GetEvent(r.store, r.record.id) == Some(r.record)
    ensures forall k | k != r.record.id :: GetEvent(r.store, k) == GetEvent(s, k)
    ensures Valid(s) ==> Valid(r.store)
    ensures Valid(s) ==> GetEvents(r.store) == GetEvents(s) + [r.record]
  {
    var id := s.eventId;
    var e := EventWithId(d, id);
    var events := Set(s.events, id, e);
    var s' := s.(events := events, eventId := id + 1);
    if Valid(s) then
      EventAppended(s.events, id, e);
      Created(e, s')
    else
      Created(e, s')
  }

  /** `createTeamMember(d)`: the same policy with the team counter. */
  function CreateTeamMember(s: MemStore, d: TeamMemberDraft): (r: Created<TeamMember>)
    ensures r.record.id == s.teamMemberId && TeamMemberWithoutId(r.record) == d
    ensures r.store.teamMemberId == s.teamMemberId + 1
    ensures r.store.events == s.events && r.store.eventId == s.eventId
    ensures Get(r.store.teamMembers, r.record.id) == Some(r.record)
    ensures forall k | k != r.record.id :: Get(r.store.teamMembers, k) == Get(s.teamMembers, k)
    ensures Valid(s) ==> Valid(r.store)
    ensures Valid(s) ==> GetTeamMembers(r.store) == GetTeamMembers(s) + [r.record]
  {
    var id := s.teamMemberId;
    var m := TeamMemberWithId(d, id);
    var team := Set(s.teamMembers, id, m);
    var s' := s.(teamMembers := team, teamMemberId := id + 1);
    if Valid(s) then
      TeamMemberAppended(s.teamMembers, id, m);
      Created(m, s')
    else
      Created(m, s')
  }

  /** In a valid store, lookup by id agrees with the listing. */
  lemma GetEventAgreesWithList(s: MemStore, k: int)
    requires Valid(s)
    ensures GetEvent(s, k).Some? <==> exists i | 0 <= i < |GetEvents(s)| :: GetEvents(s)[i].id == k
    ensures GetEvent(s, k).Some? ==> GetEvent(s, k).value in GetEvents(s) && GetEvent(s, k).value.id == k
    ensures k <= 0 || k >= s.eventId ==> GetEvent(s, k) == None
  {
    var r := GetEvent(s, k);
    if r.Some? {
      var i :| 0 <= i < |s.events| && s.events[i] == Entry(k, r.value);
      assert GetEvents(s)[i] == r.value;
    } else {
      forall i | 0 <= i < |GetEvents(s)|
        ensures GetEvents(s)[i].id != k
      {
        assert Keys(s.events)[i] == s.events[i].key;
      }
    }
  }

  // ---------------------------------------------------------------------------
  // Sequences of create calls

  /** A create call on the store. */
  datatype Op = AddEvent(draft: EventDraft) | AddTeamMember(member: TeamMemberDraft)

  function Apply(s: MemStore, op: Op): MemStore {
    match op
    case AddEvent(d) => CreateEvent(s, d).store
    case AddTeamMember(d) => CreateTeamMember(s, d).store
  }

  /** The calls performed one after another, first to last. */
  function Run(s: MemStore, ops: seq<Op>): MemStore
    decreases |ops|
  {
    if |ops| == 0 then s else Run(Apply(s, ops[0]), ops[1..])
  }

  function EventDrafts(ops: seq<Op>): seq<EventDraft>
    decreases |ops|
  {
    if |ops| == 0 then []
    else (if ops[0].AddEvent? then [ops[0].draft] else []) + EventDrafts(ops[1..])
  }

  function TeamDrafts(ops: seq<Op>): seq<TeamMemberDraft>
    decreases |ops|
  {
    if |ops| == 0 then []
    else (if ops[0].AddTeamMember? then [ops[0].member] else []) + TeamDrafts(ops[1..])
  }

  /** The drafts as records numbered consecutively from first. */
  function NumberEvents(ds: seq<EventDraft>, first: int): (es: seq<Event>)
    ensures |es| == |ds|
    decreases |ds|
  {
    if |ds| == 0 then [] else [EventWithId(ds[0], first)] + NumberEvents(ds[1..], first + 1)
  }

  function NumberTeamMembers(ds: seq<TeamMemberDraft>, first: int): (ms: seq<TeamMember>)
    ensures |ms| == |ds|
    decreases |ds|
  {
    if |ds| == 0 then [] else [TeamMemberWithId(ds[0], first)] + NumberTeamMembers(ds[1..], first + 1)
  }

  /** The i-th numbered record is the i-th draft with id first + i. */
  lemma {:induction false} NumberEventsAt(ds: seq<EventDraft>, first: int, i: nat)
    requires i < |ds|
    ensures NumberEvents(ds, first)[i] == EventWithId(ds[i], first + i)
    decreases |ds|
  {
    if i > 0 {
      NumberEventsAt(ds[1..], first + 1, i - 1);
    }
  }

  lemma {:induction false} NumberTeamMembersAt(ds: seq<TeamMemberDraft>, first: int, i: nat)
    requires i < |ds|
    ensures NumberTeamMembers(ds, first)[i] == TeamMemberWithId(ds[i], first + i)
    decreases |ds|
  {
    if i > 0 {
      NumberTeamMembersAt(ds[1..], first + 1, i - 1);
    }
  }

  /**
   * Any sequence of creates on a valid store appends exactly one record per
   * create to its own list, in call order, numbered on from the counter,
   * and keeps the store valid (ids fresh, ascending, equal to their keys).
   */
  lemma {:induction false} RunAppends(s: MemStore, ops: seq<Op>)
    requires Valid(s)
    ensures Valid(Run(s, ops))
    ensures GetEvents(Run(s, ops)) == GetEvents(s) + NumberEvents(EventDrafts(ops), s.eventId)
    ensures GetTeamMembers(Run(s, ops)) == GetTeamMembers(s) + NumberTeamMembers(TeamDrafts(ops), s.teamMemberId)
    ensures Run(s, ops).eventId == s.eventId + |EventDrafts(ops)|
    ensures Run(s, ops).teamMemberId == s.teamMemberId + |TeamDrafts(ops)|
    decreases |ops|
  {
    if |ops| > 0 {
      var s1 := Apply(s, ops[0]);
      ApplyStep(s, ops[0]);
      RunAppends(s1, ops[1..]);
      var s' := Run(s1, ops[1..]);
      if ops[0].AddEvent? {
        ExtendEvents(s, ops, s1, s');
        SkipTeamMembers(s, ops, s1, s');
      } else {
        SkipEvents(s, ops, s1, s');
        ExtendTeamMembers(s, ops, s1, s');
      }
    }
  }

  lemma ExtendEvents(s: MemStore, ops: seq<Op>, s1: MemStore, s': MemStore)
    requires |ops| > 0 && ops[0].AddEvent?
    requires s1.eventId == s.eventId + 1
    requires GetEvents(s1) == GetEvents(s) + [EventWithId(ops[0].draft, s.eventId)]
    requires GetEvents(s') == GetEvents(s1) + NumberEvents(EventDrafts(ops[1..]), s1.eventId)
    ensures GetEvents(s') == GetEvents(s) + NumberEvents(EventDrafts(ops), s.eventId)
  {
    var ds := EventDrafts(ops[1..]);
    assert EventDrafts(ops) == [ops[0].draft] + ds;
    NumberEventsCons(ops[0].draft, ds, s.eventId);
  }

  lemma SkipEvents(s: MemStore, ops: seq<Op>, s1: MemStore, s': MemStore)
    requires |ops| > 0 && !ops[0].AddEvent?
    requires s1.eventId == s.eventId
    requires GetEvents(s1) == GetEvents(s)
    requires GetEvents(s') == GetEvents(s1) + NumberEvents(EventDrafts(ops[1..]), s1.eventId)
    ensures GetEvents(s') == GetEvents(s) + NumberEvents(EventDrafts(ops), s.eventId)
  {
    assert EventDrafts(ops) == EventDrafts(ops[1..]);
  }

  lemma ExtendTeamMembers(s: MemStore, ops: seq<Op>, s1: MemStore, s': MemStore)
    requires |ops| > 0 && ops[0].AddTeamMember?
    requires s1.teamMemberId == s.teamMemberId + 1
    requires GetTeamMembers(s1) == GetTeamMembers(s) + [TeamMemberWithId(ops[0].member, s.teamMemberId)]
    requires GetTeamMembers(s') == GetTeamMembers(s1) + NumberTeamMembers(TeamDrafts(ops[1..]), s1.teamMemberId)
    ensures GetTeamMembers(s') == GetTeamMembers(s) + NumberTeamMembers(TeamDrafts(ops), s.teamMemberId)
  {
    var ds := TeamDrafts(ops[1..]);
    assert TeamDrafts(ops) == [ops[0].member] + ds;
    NumberTeamMembersCons(ops[0].member, ds, s.teamMemberId);
  }

  lemma SkipTeamMembers(s: MemStore, ops: seq<Op>, s1: MemStore, s': MemStore)
    requires |ops| > 0 && !ops[0].AddTeamMember?
    requires s1.teamMemberId == s.teamMemberId
    requires GetTeamMembers(s1) == GetTeamMembers(s)
    requires GetTeamMembers(s') == GetTeamMembers(s1) + NumberTeamMembers(TeamDrafts(ops[1..]), s1.teamMemberId)
    ensures GetTeamMembers(s') == GetTeamMembers(s) + NumberTeamMembers(TeamDrafts(ops), s.teamMemberId)
  {
    assert TeamDrafts(ops) == TeamDrafts(ops[1..]);
  }

  lemma NumberEventsCons(d: EventDraft, ds: seq<EventDraft>, first: int)
    ensures NumberEvents([d] + ds, first) == [EventWithId(d, first)] + NumberEvents(ds, first + 1)
  {
    assert ([d] + ds)[1..] == ds;
  }

  lemma NumberTeamMembersCons(d: TeamMemberDraft, ds: seq<TeamMemberDraft>, first: int)
    ensures NumberTeamMembers([d] + ds, first) == [TeamMemberWithId(d, first)] + NumberTeamMembers(ds, first + 1)
  {
    assert ([d] + ds)[1..] == ds;
  }

  /** One create call on a valid store. */
  lemma ApplyStep(s: MemStore, op: Op)
    requires Valid(s)
    ensures Valid(Apply(s, op))
    ensures op.AddEvent? ==>
      && GetEvents(Apply(s, op)) == GetEvents(s) + [EventWithId(op.draft, s.eventId)]
      && GetTeamMembers(Apply(s, op)) == GetTeamMembers(s)
      && Apply(s, op).eventId == s.eventId + 1
      && Apply(s, op).teamMemberId == s.teamMemberId
    ensures op.AddTeamMember? ==>
      && GetTeamMembers(Apply(s, op)) == GetTeamMembers(s) + [TeamMemberWithId(op.member, s.teamMemberId)]
      && GetEvents(Apply(s, op)) == GetEvents(s)
      && Apply(s, op).teamMemberId == s.teamMemberId + 1
      && Apply(s, op).eventId == s.eventId
  {
    match op
    case AddEvent(d) =>
      var c := CreateEvent(s, d);
      assert c.record == EventWithId(d, s.eventId);
    case AddTeamMember(d) =>
      var c := CreateTeamMember(s, d);
      assert c.record == TeamMemberWithId(d, s.teamMemberId);
  }

  /** Creates never touch an event whose id is below the counter. */
  lemma {:induction false} RunKeepsEarlier(s: MemStore, ops: seq<Op>, k: int)
    requires Valid(s)
    requires k < s.eventId
    ensures GetEvent(Run(s, ops), k) == GetEvent(s, k)
    decreases |ops|
  {
    if |ops| > 0 {
      var s1 := Apply(s, ops[0]);
      ApplyStep(s, ops[0]);
      assert GetEvent(s1, k) == GetEvent(s, k);
      RunKeepsEarlier(s1, ops[1..], k);
    }
  }

  /**
   * From a new store, the n-th created event has id n, and lookup finds
   * exactly the ids 1..(number of event creates); every other id, including
   * every k <= 0, is not found.
   */
  lemma RunFromNew(ops: seq<Op>, k: int)
    ensures var s := Run(New(), ops);
            var ds := EventDrafts(ops);
            && GetEvents(s) == NumberEvents(ds, 1)
            && GetTeamMembers(s) == NumberTeamMembers(TeamDrafts(ops), 1)
            && GetEvent(s, k) == (if 1 <= k <= |ds| then Some(EventWithId(ds[k - 1], k)) else None)
  {
    RunAppends(New(), ops);
    LookupNumbered(Run(New(), ops), EventDrafts(ops), k);
  }

  /** In a valid store listing the drafts numbered from 1, id k finds the k-th draft. */
  lemma LookupNumbered(s: MemStore, ds: seq<EventDraft>, k: int)
    requires Valid(s)
    requires GetEvents(s) == NumberEvents(ds, 1)
    ensures GetEvent(s, k) == (if 1 <= k <= |ds| then Some(EventWithId(ds[k - 1], k)) else None)
  {
    forall j | 0 <= j < |ds|
      ensures GetEvents(s)[j] == EventWithId(ds[j], j + 1)
    {
      NumberEventsAt(ds, 1, j);
    }
    LookupListed(s, ds, k);
  }

  /** The same, for a listing given position by position. */
  lemma LookupListed(s: MemStore, ds: seq<EventDraft>, k: int)
    requires Valid(s)
    requires |GetEvents(s)| == |ds|
    requires forall j | 0 <= j < |ds| :: GetEvents(s)[j] == EventWithId(ds[j], j + 1)
    ensures GetEvent(s, k) == (if 1 <= k <= |ds| then Some(EventWithId(ds[k - 1], k)) else None)
  {
    GetEventAgreesWithList(s, k);
    var es := GetEvents(s);
    if 1 <= k <= |ds| {
      assert es[k - 1].id == k;
      var v := GetEvent(s, k).value;
      var j :| 0 <= j < |es| && es[j] == v;
      assert j == k - 1;
    }
  }
}
