/**
 * The home page: the featured events and the statistics counters, whose
 * number and suffix are split out of a display string.
 */
module HomePage {
  import opened Wrappers
  import opened Text
  import opened Schema

  const FeaturedCount: nat := 3

  /** `events?.slice(0, 3) || []`: at most the first three events, none before data arrives. */
  function Featured(events: Option<seq<Event>>): (r: seq<Event>)
    ensures events.None? ==> r == []
    ensures events.Some? ==> r <= events.value
    ensures events.Some? ==> |r| == if |events.value| < FeaturedCount then |events.value| else FeaturedCount
  {
    if events.None? then []
    else if |events.value| <= FeaturedCount then events.value
    else events.value[..FeaturedCount]
  }

  /** `s.replace(/\D/g, '')`: the digits of s, in order. */
  function DigitsOf(s: string): (d: string)
    ensures AllDigits(d)
    ensures |d| <= |s|
  {
    if |s| == 0 then []
    else if IsDigit(s[0]) then [s[0]] + DigitsOf(s[1..])
    else DigitsOf(s[1..])
  }

  /** `s.replace(/[0-9]/g, '')`: everything but the digits, in order. */
  function NonDigitsOf(s: string): (n: string)
    ensures forall i | 0 <= i < |n| :: !IsDigit(n[i])
    ensures |n| <= |s|
  {
    if |s| == 0 then []
    else if IsDigit(s[0]) then NonDigitsOf(s[1..])
    else [s[0]] + NonDigitsOf(s[1..])
  }

  /** The counter's target: `parseInt` of the digits, NaN (None) when there are none. */
  function StatValue(s: string): (v: Option<nat>)
    ensures v.None? <==> forall i | 0 <= i < |s| :: !IsDigit(s[i])
    ensures v.Some? ==> v.value == ParseDigits(DigitsOf(s))
  {
    var d := DigitsOf(s);
    NoDigitsIffEmpty(s);
    if |d| == 0 then None else Some(ParseDigits(d))
  }

  /** The counter's suffix. */
  function StatSuffix(s: string): string {
    NonDigitsOf(s)
  }

  lemma {:induction false} NoDigitsIffEmpty(s: string)
    ensures |DigitsOf(s)| == 0 <==> forall i | 0 <= i < |s| :: !IsDigit(s[i])
  {
    if |s| > 0 {
      NoDigitsIffEmpty(s[1..]);
      assert forall i | 1 <= i < |s| :: s[i] == s[1..][i - 1];
    }
  }

  /** Every character goes to exactly one of the two parts. */
  lemma {:induction false} SplitPartitions(s: string)
    ensures |DigitsOf(s)| + |NonDigitsOf(s)| == |s|
    ensures multiset(DigitsOf(s)) + multiset(NonDigitsOf(s)) == multiset(s)
  {
    if |s| > 0 {
      SplitPartitions(s[1..]);
      assert s == [s[0]] + s[1..];
    }
  }

  lemma {:induction false} DigitsOfAppend(a: string, b: string)
    ensures DigitsOf(a + b) == DigitsOf(a) + DigitsOf(b)
    ensures NonDigitsOf(a + b) == NonDigitsOf(a) + NonDigitsOf(b)
  {
    if |a| > 0 {
      assert (a + b)[1..] == a[1..] + b;
      DigitsOfAppend(a[1..], b);
    } else {
      assert a + b == b;
    }
  }

  lemma {:induction false} DigitsOfDigits(s: string)
    requires AllDigits(s)
    ensures DigitsOf(s) == s && NonDigitsOf(s) == []
  {
    if |s| > 0 {
      DigitsOfDigits(s[1..]);
    }
  }

  lemma {:induction false} NonDigitsOfNonDigits(s: string)
    requires forall i | 0 <= i < |s| :: !IsDigit(s[i])
    ensures DigitsOf(s) == [] && NonDigitsOf(s) == s
  {
    if |s| > 0 {
      NonDigitsOfNonDigits(s[1..]);
    }
  }

  /**
   * A counter written as a number followed by a digit-free suffix splits
   * back into that number and that suffix.
   */
  lemma StatRoundTrip(n: nat, suffix: string)
    requires forall i | 0 <= i < |suffix| :: !IsDigit(suffix[i])
    ensures StatValue(NatToString(n) + suffix) == Some(n)
    ensures StatSuffix(NatToString(n) + suffix) == suffix
  {
    DigitsOfAppend(NatToString(n), suffix);
    DigitsOfDigits(NatToString(n));
    NonDigitsOfNonDigits(suffix);
    assert NatToString(n) + [] == NatToString(n);
    assert [] + suffix == suffix;
    ParseNatToString(n);
  }

  /** The four counters shown. */
  const Stats: seq<string> := ["500+", "250+", "100+", "15"]

  lemma StatsDisplay()
    ensures StatValue(Stats[0]) == Some(500) && StatSuffix(Stats[0]) == "+"
    ensures StatValue(Stats[1]) == Some(250) && StatSuffix(Stats[1]) == "+"
    ensures StatValue(Stats[2]) == Some(100) && StatSuffix(Stats[2]) == "+"
    ensures StatValue(Stats[3]) == Some(15) && StatSuffix(Stats[3]) == ""
  {
    assert Stats[0] == NatToString(500) + "+";
    StatRoundTrip(500, "+");
    assert Stats[1] == NatToString(250) + "+";
    StatRoundTrip(250, "+");
    assert Stats[2] == NatToString(100) + "+";
    StatRoundTrip(100, "+");
    assert Stats[3] == NatToString(15) + "";
    StatRoundTrip(15, "");
  }
}
