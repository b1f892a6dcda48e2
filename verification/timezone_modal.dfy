/** The timezone dialog: a fixed table of seventeen zones, a case-insensitive
    search over it, and the initial selection taken from the browser. */
module TimezoneModal {
  import opened Wrappers
  import opened Strings

  datatype Timezone = Timezone(value: string, caption: string)

  /** The zones offered, in display order. */
  const Timezones: seq<Timezone> := [
    Timezone("UTC", "UTC"),
    Timezone("Asia/Ho_Chi_Minh", "Asia/Ho_Chi_Minh (GMT+7)"),
    Timezone("Asia/Bangkok", "Asia/Bangkok (GMT+7)"),
    Timezone("Asia/Jakarta", "Asia/Jakarta (GMT+7)"),
    Timezone("Asia/Singapore", "Asia/Singapore (GMT+8)"),
    Timezone("Asia/Kuala_Lumpur", "Asia/Kuala_Lumpur (GMT+8)"),
    Timezone("Asia/Manila", "Asia/Manila (GMT+8)"),
    Timezone("Asia/Shanghai", "Asia/Shanghai (GMT+8)"),
    Timezone("Asia/Tokyo", "Asia/Tokyo (GMT+9)"),
    Timezone("Australia/Sydney", "Australia/Sydney (GMT+11)"),
    Timezone("Europe/London", "Europe/London (GMT+1)"),
    Timezone("Europe/Paris", "Europe/Paris (GMT+2)"),
    Timezone("Europe/Berlin", "Europe/Berlin (GMT+2)"),
    Timezone("America/New_York", "America/New_York (GMT-4)"),
    Timezone("America/Chicago", "America/Chicago (GMT-5)"),
    Timezone("America/Denver", "America/Denver (GMT-6)"),
    Timezone("America/Los_Angeles", "America/Los_Angeles (GMT-7)")
  ]

  /** The zone picked when the browser's zone cannot be read. */
  const FallbackZone := "UTC"

  /** The text shown while no zone is selected. */
  const NotSet := "Not set"

  /** No two entries share a `value`, so the values can key the options. */
  predicate DistinctValues(zones: seq<Timezone>) {
    forall i, j :: 0 <= i < j < |zones| ==> zones[i].value != zones[j].value
  }

  /** `a` is `b` with some entries left out and the rest in their original order. */
  predicate IsSubsequence<T(==)>(a: seq<T>, b: seq<T>)
    decreases |b|
  {
    |a| == 0 || (|b| > 0 && ((a[0] == b[0] && IsSubsequence(a[1..], b[1..])) || IsSubsequence(a, b[1..])))
  }

  /** The table has seventeen entries with pairwise distinct values, and the
      fallback zone is one of them. */
  lemma TableWellFormed()
    ensures |Timezones| == 17
    ensures DistinctValues(Timezones)
    ensures Timezones[0].value == FallbackZone
  {
  }

  /** The search test for one entry against an already lower-cased query. */
  predicate Matches(tz: Timezone, query: string) {
    Includes(ToLower(tz.caption), query) || Includes(ToLower(tz.value), query)
  }

  /** `Array.prototype.filter` with the search test. */
  function Keep(zones: seq<Timezone>, query: string): (r: seq<Timezone>)
    ensures forall z :: z in r ==> z in zones && Matches(z, query)
    ensures forall z :: z in zones && Matches(z, query) ==> z in r
    ensures IsSubsequence(r, zones)
    decreases |zones|
  {
    if |zones| == 0 then []
    else if Matches(zones[0], query) then
      var rest := Keep(zones[1..], query);
      assert ([zones[0]] + rest)[1..] == rest;
      assert forall z :: z in zones ==> z == zones[0] || z in zones[1..];
      [zones[0]] + rest
    else
      var rest := Keep(zones[1..], query);
      assert forall z :: z in zones ==> z == zones[0] || z in zones[1..];
      assert |rest| == 0 || IsSubsequence(rest, zones[1..]);
      rest
  }

  /** The effect run when the search text changes: everything for an empty
      query, otherwise the entries whose label or value contains it, ignoring case. */
  function Search(query: string): (r: seq<Timezone>)
    ensures query == "" ==> r == Timezones
    ensures query != "" ==> forall z :: z in r <==> z in Timezones && Matches(z, ToLower(query))
    ensures IsSubsequence(r, Timezones)
  {
    if query == "" then
      SubsequenceReflexive(Timezones);
      Timezones
    else
      Keep(Timezones, ToLower(query))
  }

  lemma {:induction false} SubsequenceReflexive<T>(a: seq<T>)
    ensures IsSubsequence(a, a)
    decreases |a|
  {
    if |a| > 0 {
      SubsequenceReflexive(a[1..]);
    }
  }

  lemma {:induction false} SubsequenceElements<T>(a: seq<T>, b: seq<T>)
    requires IsSubsequence(a, b)
    ensures forall x :: x in a ==> x in b
    decreases |b|
  {
    if |a| > 0 {
      if a[0] == b[0] && IsSubsequence(a[1..], b[1..]) {
        SubsequenceElements(a[1..], b[1..]);
        assert forall x :: x in a ==> x == a[0] || x in a[1..];
      } else {
        SubsequenceElements(a, b[1..]);
      }
    }
  }

  /** Leaving entries out of a table with distinct values cannot create a duplicate. */
  lemma {:induction false} SubsequenceKeepsDistinct(a: seq<Timezone>, b: seq<Timezone>)
    requires IsSubsequence(a, b)
    requires DistinctValues(b)
    ensures DistinctValues(a)
    decreases |b|
  {
    if |a| > 0 {
      assert DistinctValues(b[1..]) by {
        forall i, j | 0 <= i < j < |b| - 1
          ensures b[1..][i].value != b[1..][j].value
        {
          assert b[1..][i] == b[i + 1] && b[1..][j] == b[j + 1];
        }
      }
      if a[0] == b[0] && IsSubsequence(a[1..], b[1..]) {
        SubsequenceKeepsDistinct(a[1..], b[1..]);
        SubsequenceElements(a[1..], b[1..]);
        forall j | 0 < j < |a|
          ensures a[0].value != a[j].value
        {
          assert a[j] == a[1..][j - 1];
          assert a[j] in a[1..];
          assert a[j] in b[1..];
          var k :| 0 <= k < |b[1..]| && b[1..][k] == a[j];
          assert b[k + 1] == a[j];
        }
        forall i, j | 0 <= i < j < |a|
          ensures a[i].value != a[j].value
        {
          if i > 0 {
            assert a[i] == a[1..][i - 1] && a[j] == a[1..][j - 1];
          }
        }
      } else {
        SubsequenceKeepsDistinct(a, b[1..]);
      }
    }
  }

  /** Soundness: every entry listed matches the lower-cased query. */
  lemma SearchSound(query: string)
    requires query != ""
    ensures forall z :: z in Search(query) ==>
              Includes(ToLower(z.caption), ToLower(query)) || Includes(ToLower(z.value), ToLower(query))
  {
  }

  /** Completeness: every table entry that matches is listed. */
  lemma SearchComplete(query: string)
    ensures forall i :: 0 <= i < |Timezones| && Matches(Timezones[i], ToLower(query)) ==>
              Timezones[i] in Search(query)
  {
    if query == "" {
    } else {
      forall i | 0 <= i < |Timezones| && Matches(Timezones[i], ToLower(query))
        ensures Timezones[i] in Search(query)
      {
        assert Timezones[i] in Timezones;
      }
    }
  }

  /** The listing preserves table order and holds no entry twice. */
  lemma SearchOrderedAndDistinct(query: string)
    ensures IsSubsequence(Search(query), Timezones)
    ensures DistinctValues(Search(query))
  {
    TableWellFormed();
    SubsequenceKeepsDistinct(Search(query), Timezones);
  }

  /** Queries that agree after lower-casing list the same entries. */
  lemma SearchIgnoresCase(q1: string, q2: string)
    requires ToLower(q1) == ToLower(q2)
    ensures Search(q1) == Search(q2)
  {
    assert |q1| == |q2|;
  }

  /** An empty query matches every entry, so the filter path would list the whole table too. */
  lemma EmptyQueryMatchesAll()
    ensures Keep(Timezones, "") == Timezones
  {
    forall z | z in Timezones
      ensures Matches(z, "")
    {
      IncludesEmpty(ToLower(z.caption));
    }
    KeepAllMatching(Timezones, "");
  }

  lemma {:induction false} KeepAllMatching(zones: seq<Timezone>, query: string)
    requires forall z :: z in zones ==> Matches(z, query)
    ensures Keep(zones, query) == zones
    decreases |zones|
  {
    if |zones| > 0 {
      assert zones[0] in zones;
      assert forall z :: z in zones[1..] ==> z in zones;
      KeepAllMatching(zones[1..], query);
      assert [zones[0]] + zones[1..] == zones;
    }
  }

  /** The first effect: the browser's zone, or the fallback when reading it fails. */
  function InitialSelection(browserZone: Option<string>): (r: string)
    ensures browserZone.None? ==> r == FallbackZone
    ensures browserZone.Some? ==> r == browserZone.value
  {
    browserZone.GetOr(FallbackZone)
  }

  /** The "Current Timezone" line: the selection, or the not-set text when empty. */
  function ZoneLabel(selected: string): (r: string)
    ensures selected == "" ==> r == NotSet
    ensures selected != "" ==> r == selected
  {
    if selected == "" then NotSet else selected
  }

  /** Failing to read the browser's zone shows a zone that the table lists. */
  lemma FallbackIsListed()
    ensures ZoneLabel(InitialSelection(None)) == Timezones[0].value
    ensures exists z :: z in Timezones && z.value == ZoneLabel(InitialSelection(None))
  {
    assert Timezones[0] in Timezones;
  }
}
