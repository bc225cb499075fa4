/**
 * The events page: the category filter buttons, the events a filter
 * shows, and when the "no events" message appears.
 */
module EventsPage {
  import opened Wrappers
  import opened Schema

  const AllFilter: string := "All"
  const NoEventsText: string := "No events found in this category."

  predicate Distinct(xs: seq<string>) {
    forall i, j | 0 <= i < j < |xs| :: xs[i] != xs[j]
  }

  /**
   * `[...new Set(xs)]`: each value once, in the order it was first added
   * (a set remembers insertion order and ignores re-insertion).
   */
  function Dedup(xs: seq<string>): (r: seq<string>)
    ensures Distinct(r)
    ensures forall x :: x in r <==> x in xs
    ensures |r| <= |xs|
  {
    if |xs| == 0 then []
    else
      var init := Dedup(xs[..|xs| - 1]);
      var x := xs[|xs| - 1];
      assert forall y :: y in xs <==> y in xs[..|xs| - 1] || y == x by {
        assert xs == xs[..|xs| - 1] + [x];
      }
      if x in init then init else init + [x]
  }

  /** Adding more values never reorders or drops the buttons already there. */
  lemma {:induction false} DedupExtends(xs: seq<string>, ys: seq<string>)
    ensures Dedup(xs) <= Dedup(xs + ys)
    decreases |ys|
  {
    if |ys| > 0 {
      var zs := xs + ys;
      assert zs[..|zs| - 1] == xs + ys[..|ys| - 1];
      DedupExtends(xs, ys[..|ys| - 1]);
    } else {
      assert xs + ys == xs;
    }
  }

  /** Values that are already distinct come out unchanged. */
  lemma {:induction false} DedupDistinct(xs: seq<string>)
    requires Distinct(xs)
    ensures Dedup(xs) == xs
  {
    if |xs| > 0 {
      var init := xs[..|xs| - 1];
      assert Distinct(init);
      DedupDistinct(init);
      assert xs[|xs| - 1] !in init;
      assert xs == init + [xs[|xs| - 1]];
    }
  }

  function CategoriesOf(es: seq<Event>): (cs: seq<string>)
    ensures |cs| == |es|
    ensures forall i | 0 <= i < |es| :: cs[i] == es[i].category
  {
    seq(|es|, i requires 0 <= i < |es| => es[i].category)
  }

  /** The filter buttons: "All", then each category once, by first appearance. */
  function Categories(events: Option<seq<Event>>): (cs: seq<string>)
    ensures |cs| >= 1 && cs[0] == AllFilter
    ensures events.None? ==> cs == [AllFilter]
    ensures events.Some? ==> forall c :: c in cs[1..] <==> exists i | 0 <= i < |events.value| :: events.value[i].category == c
    ensures Distinct(cs[1..])
  {
    var es := if events.Some? then events.value else [];
    var d := Dedup(CategoriesOf(es));
    assert ([AllFilter] + d)[1..] == d;
    [AllFilter] + d
  }

  /** The events of one category, in list order. */
  function InCategory(es: seq<Event>, c: string): (r: seq<Event>)
    ensures |r| <= |es|
    ensures forall i | 0 <= i < |r| :: r[i].category == c
  {
    if |es| == 0 then []
    else
      var init := InCategory(es[..|es| - 1], c);
      var e := es[|es| - 1];
      if e.category == c then init + [e] else init
  }

  /** An event is listed under a category exactly when it is stored with that category. */
  lemma {:induction false} InCategoryMembers(es: seq<Event>, c: string)
    ensures forall e :: e in InCategory(es, c) <==> e in es && e.category == c
  {
    if |es| > 0 {
      var init := es[..|es| - 1];
      InCategoryMembers(init, c);
      assert es == init + [es[|es| - 1]];
    }
  }

  /** Nothing is filtered out exactly when every event has the category. */
  lemma {:induction false} InCategoryKeepsAll(es: seq<Event>, c: string)
    ensures |InCategory(es, c)| == |es| <==> forall i | 0 <= i < |es| :: es[i].category == c
  {
    if |es| > 0 {
      var init := es[..|es| - 1];
      InCategoryKeepsAll(init, c);
      assert forall i | 0 <= i < |init| :: init[i] == es[i];
    }
  }

  /** The events the page lists under a filter; "All" is the list itself. */
  function Filtered(events: Option<seq<Event>>, filter: string): (r: Option<seq<Event>>)
    ensures r.Some? <==> events.Some?
    ensures filter == AllFilter ==> r == events
    ensures filter != AllFilter && events.Some? ==> forall e :: e in r.value <==> e in events.value && e.category == filter
  {
    if filter == AllFilter then events
    else if events.None? then None
    else
      InCategoryMembers(events.value, filter);
      Some(InCategory(events.value, filter))
  }

  /**
   * The "no events" message shows once loading is over and the filtered list
   * is empty, unless the query is in error: then the page returns the error
   * view early, and neither the message nor the category buttons appear. The
   * query library keeps the last data after a failed refetch, so an error can
   * come with data.
   */
  predicate ShowsNoEvents(isError: bool, isLoading: bool, filtered: Option<seq<Event>>) {
    !isError && !isLoading && filtered.Some? && |filtered.value| == 0
  }

  /** Filtering keeps the list order: the result is a subsequence of the events. */
  lemma {:induction false} InCategoryOrdered(es: seq<Event>, c: string, es': seq<Event>)
    ensures InCategory(es + es', c) == InCategory(es, c) + InCategory(es', c)
    decreases |es'|
  {
    if |es'| == 0 {
      assert es + es' == es;
    } else {
      var all := es + es';
      var init' := es'[..|es'| - 1];
      var e := es'[|es'| - 1];
      assert all[..|all| - 1] == es + init';
      assert all[|all| - 1] == e;
      InCategoryOrdered(es, c, init');
      var tail := if e.category == c then [e] else [];
      assert InCategory(all, c) == InCategory(es + init', c) + tail;
      assert InCategory(es', c) == InCategory(init', c) + tail;
    }
  }

  /**
   * Once events have loaded, a category button other than "All" is offered
   * exactly when choosing it lists at least one event; so a button that is
   * offered never leads to the "no events" message.
   */
  lemma OfferedIffNonEmpty(es: seq<Event>, c: string)
    requires c != AllFilter
    ensures c in Categories(Some(es)) <==> |Filtered(Some(es), c).value| > 0
    ensures c in Categories(Some(es)) ==> !ShowsNoEvents(false, false, Filtered(Some(es), c))
  {
    var cs := Categories(Some(es));
    var r := Filtered(Some(es), c).value;
    if c in cs {
      assert c in cs[1..];
      var i :| 0 <= i < |es| && es[i].category == c;
      assert es[i] in r;
    }
    if |r| > 0 {
      assert r[0] in es && r[0].category == c;
      var i :| 0 <= i < |es| && es[i] == r[0];
      assert c in cs[1..];
    }
  }

  /** Under "All", once loaded and not in error, the message shows exactly when no events exist. */
  lemma AllShowsNoEventsIffEmpty(es: seq<Event>, isError: bool)
    ensures ShowsNoEvents(isError, false, Filtered(Some(es), AllFilter)) <==> !isError && |es| == 0
  {
  }

  /** While loading, in error, or before data arrives, the message never shows. */
  lemma NoMessageWithoutData(filter: string, isError: bool, isLoading: bool, events: Option<seq<Event>>)
    ensures !ShowsNoEvents(isError, isLoading, Filtered(None, filter))
    ensures isError || isLoading ==> !ShowsNoEvents(isError, isLoading, Filtered(events, filter))
    ensures Categories(None) == [AllFilter]
  {
  }
}
