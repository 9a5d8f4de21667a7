/**
 * Sorted vocabularies: `Array.from(new Set(values)).sort()`, used for the age groups,
 * equipment and tags offered by the entry form (DataEntry.jsx) and for the tag colours of
 * the training page (TrainingSession.jsx). A `Set` keeps one copy of every value, and the
 * default `sort` orders strings by character (`Text.LexLess`).
 */
module Vocabulary {
  import opened Text
  import opened Drills

  /** Ascending without repeats. */
  predicate StrictlySorted(s: seq<string>) {
    forall i, j :: 0 <= i < j < |s| ==> LexLess(s[i], s[j])
  }

  predicate Distinct(s: seq<string>) {
    forall i, j :: 0 <= i < j < |s| ==> s[i] != s[j]
  }

  lemma SortedIsDistinct(s: seq<string>)
    requires StrictlySorted(s)
    ensures Distinct(s)
  {
    forall i, j | 0 <= i < j < |s| ensures s[i] != s[j] {
      LexIrreflexive(s[i]);
    }
  }

  /** Two ascending lists without repeats that hold the same strings are the same list: the
      vocabulary is determined by its set of values alone. */
  lemma {:induction false} StrictlySortedUnique(a: seq<string>, b: seq<string>)
    requires StrictlySorted(a) && StrictlySorted(b)
    requires forall y :: y in a <==> y in b
    ensures a == b
  {
    if a != [] && b != [] {
      // The first element of each is the least of the common set.
      assert a[0] in b && b[0] in a;
      if a[0] != b[0] {
        var i :| 0 <= i < |b| && b[i] == a[0];
        var j :| 0 <= j < |a| && a[j] == b[0];
        assert LexLess(b[0], a[0]) && LexLess(a[0], b[0]);
        LexAsymmetric(b[0], a[0]);
      }
      forall y ensures y in a[1..] <==> y in b[1..] {
        if y in a[1..] {
          var i :| 1 <= i < |a| && a[i] == y;
          LexIrreflexive(y);
          assert y in b && y != b[0];
          var k :| 0 <= k < |b| && b[k] == y;
          assert b[1..][k - 1] == y;
        }
        if y in b[1..] {
          var i :| 1 <= i < |b| && b[i] == y;
          LexIrreflexive(y);
          assert y in a && y != a[0];
          var k :| 0 <= k < |a| && a[k] == y;
          assert a[1..][k - 1] == y;
        }
      }
      StrictlySortedUnique(a[1..], b[1..]);
    } else {
      // A non-empty list would hold a string the empty one lacks.
      FirstIsMember(a);
      FirstIsMember(b);
    }
  }

  lemma FirstIsMember(s: seq<string>)
    ensures s != [] ==> s[0] in s
  {
  }

  /** Inserting a new string into an ascending list at the first position whose element is
      not smaller. */
  method InsertSorted(r: seq<string>, x: string) returns (s: seq<string>)
    requires StrictlySorted(r) && x !in r
    ensures StrictlySorted(s) && |s| == |r| + 1
    ensures forall y :: y in s <==> y in r || y == x
  {
    var i := 0;
    while i < |r| && LexLess(r[i], x)
      invariant 0 <= i <= |r|
      invariant forall k :: 0 <= k < i ==> LexLess(r[k], x)
    {
      i := i + 1;
    }
    if i < |r| {
      LexTotal(r[i], x);
      forall k | i < k < |r| ensures LexLess(x, r[k]) {
        LexTransitive(x, r[i], r[k]);
      }
    }
    s := r[..i] + [x] + r[i..];
    assert forall k :: 0 <= k < i ==> s[k] == r[k];
    assert forall k :: i < k < |s| ==> s[k] == r[k - 1];
    assert s[i] == x;
    forall p, q | 0 <= p < q < |s| ensures LexLess(s[p], s[q]) {
      if q < i {
        assert LexLess(r[p], r[q]);
      } else if q == i {
        assert LexLess(r[p], x);
      } else if p < i {
        assert LexLess(r[p], r[q - 1]);
      } else if p == i {
        assert LexLess(x, r[q - 1]);
      } else {
        assert LexLess(r[p - 1], r[q - 1]);
      }
    }
    assert r == r[..i] + r[i..];
  }

  /** `Array.from(set).sort()` on the contents of a `Set` (no repeats): the same strings,
      ascending. */
  method SortStrings(xs: seq<string>) returns (r: seq<string>)
    requires Distinct(xs)
    ensures StrictlySorted(r) && |r| == |xs|
    ensures forall y :: y in r <==> y in xs
  {
    r := [];
    var i := 0;
    while i < |xs|
      invariant 0 <= i <= |xs|
      invariant StrictlySorted(r) && |r| == i
      invariant forall y :: y in r <==> y in xs[..i]
    {
      assert xs[i] !in xs[..i];
      r := InsertSorted(r, xs[i]);
      assert xs[..i + 1] == xs[..i] + [xs[i]];
      i := i + 1;
    }
    assert xs[..i] == xs;
  }

  /** `set.add(v)` on a `Set` kept as the list of its values in insertion order. */
  function SetAdd(members: seq<string>, v: string): (r: seq<string>)
    requires Distinct(members)
    ensures Distinct(r)
    ensures forall y :: y in r <==> y in members || y == v
  {
    if v in members then members else members + [v]
  }

  /** The age-group vocabulary: the non-empty age groups of the catalogue (an empty one is
      falsy and skipped), once each, ascending. */
  method AgeGroups(catalog: seq<Drill>) returns (r: seq<string>)
    ensures StrictlySorted(r)
    ensures forall g :: g in r <==> g != "" && exists k :: 0 <= k < |catalog| && catalog[k].ageGroup == g
  {
    var groups: seq<string> := [];
    var i := 0;
    while i < |catalog|
      invariant 0 <= i <= |catalog|
      invariant Distinct(groups)
      invariant forall g :: g in groups <==> g != "" && exists k :: 0 <= k < i && catalog[k].ageGroup == g
    {
      if catalog[i].ageGroup != "" {
        groups := SetAdd(groups, catalog[i].ageGroup);
      }
      i := i + 1;
    }
    r := SortStrings(groups);
  }

  /** Every string in the list field `field` of some catalogue record, once each. */
  method CollectLists(catalog: seq<Drill>, equipment: bool) returns (found: seq<string>)
    ensures Distinct(found)
    ensures forall v :: v in found <==> exists k :: 0 <= k < |catalog| && v in Field(catalog[k], equipment)
  {
    found := [];
    var i := 0;
    while i < |catalog|
      invariant 0 <= i <= |catalog|
      invariant Distinct(found)
      invariant forall v :: v in found <==> exists k :: 0 <= k < i && v in Field(catalog[k], equipment)
    {
      var values := Field(catalog[i], equipment);
      var j := 0;
      while j < |values|
        invariant 0 <= j <= |values|
        invariant Distinct(found)
        invariant forall v :: v in found <==>
          (exists k :: 0 <= k < i && v in Field(catalog[k], equipment)) || v in values[..j]
      {
        found := SetAdd(found, values[j]);
        assert values[..j + 1] == values[..j] + [values[j]];
        j := j + 1;
      }
      assert values[..j] == values;
      i := i + 1;
    }
  }

  /** The equipment list of a record, or its tag list. */
  function Field(d: Drill, equipment: bool): seq<string> {
    if equipment then d.equipment else d.tags
  }

  /** The equipment vocabulary: every equipment item of the catalogue, once, ascending. */
  method EquipmentVocabulary(catalog: seq<Drill>) returns (r: seq<string>)
    ensures StrictlySorted(r)
    ensures forall v :: v in r <==> exists k :: 0 <= k < |catalog| && v in catalog[k].equipment
  {
    var found := CollectLists(catalog, true);
    r := SortStrings(found);
  }

  /** The tag vocabulary: every tag of the catalogue, once, ascending. */
  method TagVocabulary(catalog: seq<Drill>) returns (r: seq<string>)
    ensures StrictlySorted(r)
    ensures forall v :: v in r <==> exists k :: 0 <= k < |catalog| && v in catalog[k].tags
  {
    var found := CollectLists(catalog, false);
    r := SortStrings(found);
  }
}
