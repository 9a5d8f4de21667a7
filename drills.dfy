/**
 * The catalogue records shared by every page: drills, saved training sessions, the
 * resolution of a session's id list against the catalogue, the duration sum shown for a
 * list of drills, and the normalisation of a drill's `picture` field.
 */
module Drills {
  import opened Wrappers
  import Seqs

  /** A drill's `picture` field: missing, a single file name, or an array of file names. */
  datatype Pictures = Absent | Single(file: string) | Files(files: seq<string>)

  /** A catalogue record. `duration` and `intensity` may be missing (`None`). */
  datatype Drill = Drill(
    id: int,
    name: string,
    description: string,
    ageGroup: string,
    duration: Option<int>,
    equipment: seq<string>,
    picture: Pictures,
    tags: seq<string>,
    intensity: Option<int>)

  /** A saved training: an id (the save time stamp), a name and the drill ids in order.
      A record without `drills` reads as one with an empty list. */
  datatype SavedSession = SavedSession(id: int, name: string, drills: seq<int>)

  // ---------------------------------------------------------------------------------------
  // Lookup by id.

  function IdIs(id: int): Drill -> bool {
    (d: Drill) => d.id == id
  }

  function IdIsNot(id: int): Drill -> bool {
    (d: Drill) => d.id != id
  }

  predicate HasId(ds: seq<Drill>, id: int) {
    exists k :: 0 <= k < |ds| && ds[k].id == id
  }

  /** The ids of a list of drills, in order (`drills.map(d => d.id)`). */
  function Ids(ds: seq<Drill>): (r: seq<int>)
    ensures |r| == |ds| && forall k :: 0 <= k < |ds| ==> r[k] == ds[k].id
  {
    seq(|ds|, k requires 0 <= k < |ds| => ds[k].id)
  }

  /** No two drills of the list share an id. */
  predicate UniqueIds(ds: seq<Drill>) {
    forall i, j :: 0 <= i < j < |ds| ==> ds[i].id != ds[j].id
  }

  /** `drillsData.find(d => d.id === id)`: the first catalogue record with that id. */
  function FindDrill(catalog: seq<Drill>, id: int): (r: Option<Drill>)
    ensures r.None? <==> !HasId(catalog, id)
    ensures r.Some? ==> r.value in catalog && r.value.id == id
  {
    var r := Seqs.Find(catalog, IdIs(id));
    assert r.Some? ==> exists k :: 0 <= k < |catalog| && catalog[k] == r.value && IdIs(id)(catalog[k]);
    r
  }

  function KnownIn(catalog: seq<Drill>): int -> bool {
    (id: int) => HasId(catalog, id)
  }

  /**
   * `ids.map(id => drillsData.find(d => d.id === id)).filter(Boolean)`: the catalogue record
   * of every id that has one, in the order of the ids.
   */
  function Resolve(catalog: seq<Drill>, ids: seq<int>): (r: seq<Drill>)
    ensures |r| <= |ids|
    ensures forall k :: 0 <= k < |r| ==> r[k] in catalog
  {
    if ids == [] then []
    else
      match FindDrill(catalog, ids[0])
      case Some(d) => [d] + Resolve(catalog, ids[1..])
      case None => Resolve(catalog, ids[1..])
  }

  /** The resolved records carry exactly the ids of the list that the catalogue knows, in
      order and with repeats: ids missing from the catalogue are dropped and nothing else. */
  lemma {:induction false} ResolveKeepsKnownIds(catalog: seq<Drill>, ids: seq<int>)
    ensures Ids(Resolve(catalog, ids)) == Seqs.Filter(ids, KnownIn(catalog))
  {
    if ids != [] {
      var tail := ids[1..];
      ResolveKeepsKnownIds(catalog, tail);
      var rest := Resolve(catalog, tail);
      var known := KnownIn(catalog);
      var found := FindDrill(catalog, ids[0]);
      assert known(ids[0]) == found.Some?;
      if found.Some? {
        var d := found.value;
        assert Resolve(catalog, ids) == [d] + rest;
        assert Seqs.Filter(ids, known) == [ids[0]] + Seqs.Filter(tail, known);
        assert Ids([d] + rest) == [ids[0]] + Ids(rest);
      } else {
        assert Resolve(catalog, ids) == rest;
        assert Seqs.Filter(ids, known) == Seqs.Filter(tail, known);
      }
    }
  }

  /** Every resolved record is the first catalogue record with its id. */
  lemma {:induction false} ResolveFindsFirst(catalog: seq<Drill>, ids: seq<int>)
    ensures forall d :: d in Resolve(catalog, ids) ==> FindDrill(catalog, d.id) == Some(d)
  {
    if ids != [] {
      ResolveFindsFirst(catalog, ids[1..]);
    }
  }

  /** Resolving the concatenation of two id lists concatenates the two resolutions. */
  lemma {:induction false} ResolveAppend(catalog: seq<Drill>, a: seq<int>, b: seq<int>)
    ensures Resolve(catalog, a + b) == Resolve(catalog, a) + Resolve(catalog, b)
  {
    if a == [] {
      assert a + b == b;
    } else {
      assert (a + b)[1..] == a[1..] + b;
      ResolveAppend(catalog, a[1..], b);
    }
  }

  /** When every id is in the catalogue nothing is dropped: the resolution has the same ids. */
  lemma ResolveKnown(catalog: seq<Drill>, ids: seq<int>)
    requires forall k :: 0 <= k < |ids| ==> HasId(catalog, ids[k])
    ensures Ids(Resolve(catalog, ids)) == ids
  {
    ResolveKeepsKnownIds(catalog, ids);
    Seqs.FilterKeepsAll(ids, KnownIn(catalog));
  }

  /** Resolving the ids of catalogue records (each the first with its id) gives them back. */
  lemma {:induction false} ResolveIds(catalog: seq<Drill>, ds: seq<Drill>)
    requires forall k :: 0 <= k < |ds| ==> FindDrill(catalog, ds[k].id) == Some(ds[k])
    ensures Resolve(catalog, Ids(ds)) == ds
  {
    if ds != [] {
      assert Ids(ds)[1..] == Ids(ds[1..]);
      ResolveIds(catalog, ds[1..]);
    }
  }

  // ---------------------------------------------------------------------------------------
  // Durations.

  /** `drill.duration || 0` */
  function DurationOrZero(d: Drill): int {
    d.duration.GetOr(0)
  }

  /** `drills.reduce((total, d) => total + (d.duration || 0), 0)`, summed left to right. */
  function TotalDuration(ds: seq<Drill>): int {
    if ds == [] then 0 else TotalDuration(ds[..|ds| - 1]) + DurationOrZero(ds[|ds| - 1])
  }

  lemma {:induction false} TotalDurationAppend(a: seq<Drill>, b: seq<Drill>)
    ensures TotalDuration(a + b) == TotalDuration(a) + TotalDuration(b)
  {
    if b == [] {
      assert a + b == a;
    } else {
      assert (a + b)[..|a + b| - 1] == a + b[..|b| - 1];
      TotalDurationAppend(a, b[..|b| - 1]);
    }
  }

  /** The total only depends on which drills are listed, not on their order: it is the same
      for every permutation (in particular after any drag-and-drop move). */
  lemma {:induction false} TotalDurationPermutation(a: seq<Drill>, b: seq<Drill>)
    requires multiset(a) == multiset(b)
    ensures TotalDuration(a) == TotalDuration(b)
    decreases |a|
  {
    if a == [] {
      assert |b| == |multiset(b)| == 0;
    } else {
      var x := a[|a| - 1];
      var a' := a[..|a| - 1];
      assert a == a' + [x];
      assert multiset(a') == multiset(a) - multiset{x};
      assert x in multiset(b);
      var i :| 0 <= i < |b| && b[i] == x;
      var b' := b[..i] + b[i + 1..];
      MultisetRemove(b, i);
      TotalDurationPermutation(a', b');
      TotalDurationRemove(b, i);
    }
  }

  /** Taking one element out of a list takes one occurrence out of its multiset. */
  lemma MultisetRemove<T>(b: seq<T>, i: nat)
    requires i < |b|
    ensures multiset(b[..i] + b[i + 1..]) == multiset(b) - multiset{b[i]}
  {
    assert b == b[..i] + b[i..];
    assert b[i..] == [b[i]] + b[i + 1..];
    assert multiset(b) == multiset(b[..i]) + multiset{b[i]} + multiset(b[i + 1..]);
  }

  /** Taking one drill out of a list takes its duration out of the total. */
  lemma TotalDurationRemove(b: seq<Drill>, i: nat)
    requires i < |b|
    ensures TotalDuration(b) == TotalDuration(b[..i] + b[i + 1..]) + DurationOrZero(b[i])
  {
    var pre := b[..i];
    var post := b[i + 1..];
    assert TotalDuration(b) == TotalDuration(pre) + TotalDuration(b[i..]) by {
      assert pre + b[i..] == b;
      TotalDurationAppend(pre, b[i..]);
    }
    assert TotalDuration(b[i..]) == TotalDuration([b[i]]) + TotalDuration(post) by {
      assert [b[i]] + post == b[i..];
      TotalDurationAppend([b[i]], post);
    }
    assert TotalDuration([b[i]]) == DurationOrZero(b[i]) by {
      assert [b[i]][..0] == [];
    }
    TotalDurationAppend(pre, post);
  }

  /** With no negative durations the total is at least every single drill's duration. */
  lemma {:induction false} TotalDurationBounds(ds: seq<Drill>)
    requires forall k :: 0 <= k < |ds| ==> DurationOrZero(ds[k]) >= 0
    ensures TotalDuration(ds) >= 0
    ensures forall k :: 0 <= k < |ds| ==> DurationOrZero(ds[k]) <= TotalDuration(ds)
  {
    if ds != [] {
      TotalDurationBounds(ds[..|ds| - 1]);
    }
  }

  // ---------------------------------------------------------------------------------------
  // Pictures and image sources.

  /** `Array.isArray(p) ? p : (p ? [p] : [])`: an array as it is, a non-empty file name as a
      one-element list, and a missing or empty value as no pictures at all. */
  function NormalizePictures(p: Pictures): (r: seq<string>)
    ensures p.Files? ==> r == p.files
    ensures p.Single? && p.file != "" ==> r == [p.file]
    ensures p.Absent? || p == Single("") ==> r == []
  {
    match p
    case Absent => []
    case Single(f) => if f == "" then [] else [f]
    case Files(fs) => fs
  }

  /** `imageMap[file]` used as a condition: the asset URL when the map has a non-empty one. */
  function Lookup(imageMap: map<string, string>, file: string): (r: Option<string>)
    ensures r.Some? <==> file in imageMap && imageMap[file] != ""
    ensures r.Some? ==> r.value == imageMap[file]
  {
    if file in imageMap && imageMap[file] != "" then Some(imageMap[file]) else None
  }

  /**
   * The picture shown at carousel index `idx`: `imageMap[pictures[idx]]` when the list has
   * that index and the map a non-empty asset for it, else the placeholder. It is always one
   * of the two.
   */
  function ShownSource(imageMap: map<string, string>, pictures: seq<string>, idx: int, placeholder: string): (src: string)
    ensures src == placeholder || src in imageMap.Values
    ensures 0 <= idx < |pictures| && Lookup(imageMap, pictures[idx]).Some? ==> src == imageMap[pictures[idx]]
    ensures !(0 <= idx < |pictures|) || Lookup(imageMap, pictures[idx]).None? ==> src == placeholder
  {
    if 0 <= idx < |pictures| && Lookup(imageMap, pictures[idx]).Some? then imageMap[pictures[idx]] else placeholder
  }

  /** The picture of a drill row: `filename && imageMap[filename] ? imageMap[filename] : placeholder`
      with `filename` the picture at the row's index (none without pictures), as the training
      page and the shared page draw their rows. */
  function ThumbSource(imageMap: map<string, string>, d: Drill, idxs: map<int, int>, placeholder: string): (src: string)
    ensures src == placeholder || src in imageMap.Values
    ensures var pictures := NormalizePictures(d.picture);
            var idx := if d.id in idxs then idxs[d.id] else 0;
            && (0 <= idx < |pictures| && pictures[idx] != "" && Lookup(imageMap, pictures[idx]).Some? ==>
                  src == imageMap[pictures[idx]])
            && (!(0 <= idx < |pictures|) || pictures[idx] == "" || Lookup(imageMap, pictures[idx]).None? ==>
                  src == placeholder)
  {
    var pictures := NormalizePictures(d.picture);
    var idx := if d.id in idxs then idxs[d.id] else 0;
    if 0 <= idx < |pictures| && pictures[idx] == "" then placeholder
    else ShownSource(imageMap, pictures, idx, placeholder)
  }
}
