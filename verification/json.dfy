/** JSON values as `JSON.parse` produces them and `res.json` sends them. */
module Json {
  import opened Wrappers

  datatype Json =
    | JNull
    | JBool(b: bool)
    | JNumber(n: int)
    | JString(s: string)
    | JArray(items: seq<Json>)
    | JObject(members: seq<Member>)

  datatype Member = Member(name: string, value: Json)

  /** Property lookup; with a repeated name the last occurrence wins, as in `JSON.parse`. */
  function Lookup(members: seq<Member>, name: string): (r: Option<Json>)
    ensures r.Some? ==> Member(name, r.value) in members
    ensures r.None? <==> forall i | 0 <= i < |members| :: members[i].name != name
  {
    if |members| == 0 then None
    else if members[|members| - 1].name == name then Some(members[|members| - 1].value)
    else Lookup(members[..|members| - 1], name)
  }

  /** A name carried by exactly one member looks up to that member's value. */
  lemma LookupSingle(members: seq<Member>, i: nat)
    requires i < |members|
    requires forall j | 0 <= j < |members| && j != i :: members[j].name != members[i].name
    ensures Lookup(members, members[i].name) == Some(members[i].value)
  {
    var r := Lookup(members, members[i].name);
    assert r.Some?;
    var j :| 0 <= j < |members| && members[j] == Member(members[i].name, r.value);
  }

  predicate DistinctNames(members: seq<Member>) {
    forall i, j | 0 <= i < j < |members| :: members[i].name != members[j].name
  }

  /** In an object without repeated names, a member is found by its name. */
  lemma LookupMember(members: seq<Member>, name: string, v: Json)
    requires DistinctNames(members)
    requires Member(name, v) in members
    ensures Lookup(members, name) == Some(v)
  {
    var i :| 0 <= i < |members| && members[i] == Member(name, v);
    LookupSingle(members, i);
  }

  /** A name is looked up in the later part first, then in the earlier part. */
  lemma {:induction false} LookupConcat(a: seq<Member>, b: seq<Member>, name: string)
    ensures Lookup(a + b, name) == if Lookup(b, name).Some? then Lookup(b, name) else Lookup(a, name)
    decreases |b|
  {
    if |b| > 0 {
      var b' := b[..|b| - 1];
      assert (a + b)[..|a + b| - 1] == a + b';
      assert (a + b)[|a + b| - 1] == b[|b| - 1];
      if b[|b| - 1].name != name {
        assert Lookup(b, name) == Lookup(b', name);
        LookupConcat(a, b', name);
      }
    } else {
      assert a + b == a;
    }
  }

  /** LookupConcat for an object assembled from three parts. */
  lemma LookupThreeParts(a: seq<Member>, b: seq<Member>, c: seq<Member>, name: string)
    ensures Lookup(a + b + c, name) ==
      if Lookup(c, name).Some? then Lookup(c, name)
      else if Lookup(b, name).Some? then Lookup(b, name)
      else Lookup(a, name)
  {
    LookupConcat(a + b, c, name);
    LookupConcat(a, b, name);
  }
}
