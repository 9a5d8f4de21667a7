/**
 * The training cart (CartContext.jsx): the ordered list of selected drills that the
 * provider owns and that every operation replaces, kept in browser storage between visits.
 */
module Cart {
  import opened Wrappers
  import opened Drills
  import Seqs
  import Reorder

  /** The list after `addDrill(d)`: unchanged when a drill with `d.id` is present, else `d`
      appended at the end. */
  function Added(prev: seq<Drill>, d: Drill): (r: seq<Drill>)
    ensures HasId(r, d.id)
    ensures HasId(prev, d.id) ==> r == prev
    ensures !HasId(prev, d.id) ==> r == prev + [d]
    ensures UniqueIds(prev) ==> UniqueIds(r)
  {
    if HasId(prev, d.id) then prev
    else
      var r := prev + [d];
      assert r[|prev|].id == d.id;
      r
  }

  /** `drills.forEach(d => addDrill(d))`: adding a list of drills one after the other. */
  function AddedAll(prev: seq<Drill>, ds: seq<Drill>): (r: seq<Drill>)
    ensures |prev| <= |r| && r[..|prev|] == prev
  {
    if ds == [] then prev else Added(AddedAll(prev, ds[..|ds| - 1]), ds[|ds| - 1])
  }

  /** Adding a list of drills one by one keeps the ids unique, keeps what was there, and
      makes the cart hold exactly the ids of the old cart and of the added drills. */
  lemma {:induction false} AddedAllContents(prev: seq<Drill>, ds: seq<Drill>)
    requires UniqueIds(prev)
    ensures UniqueIds(AddedAll(prev, ds))
    ensures forall id :: HasId(AddedAll(prev, ds), id) <==> HasId(prev, id) || HasId(ds, id)
    ensures |AddedAll(prev, ds)| <= |prev| + |ds|
  {
    if ds != [] {
      var init := ds[..|ds| - 1];
      var d := ds[|ds| - 1];
      AddedAllContents(prev, init);
      var before := AddedAll(prev, init);
      forall id ensures HasId(AddedAll(prev, ds), id) <==> HasId(prev, id) || HasId(ds, id) {
        if HasId(ds, id) && !HasId(init, id) {
          assert d.id == id;
        }
        if HasId(init, id) {
          var k :| 0 <= k < |init| && init[k].id == id;
          assert ds[k].id == id;
        }
        if HasId(Added(before, d), id) && !HasId(before, id) {
          assert Added(before, d)[|before|].id == id;
        }
        if HasId(before, id) {
          var k :| 0 <= k < |before| && before[k].id == id;
          assert Added(before, d)[k].id == id;
        }
      }
    }
  }

  /** The cart itself. */
  class CartStore {
    var selected: seq<Drill>

    /**
     * The initial cart from storage: the stored list, or the empty list when nothing is
     * stored or the stored text does not parse (`None`).
     */
    constructor (stored: Option<seq<Drill>>)
      ensures stored.Some? ==> selected == stored.value
      ensures stored.None? ==> selected == []
    {
      selected := stored.GetOr([]);
    }

    /** `isInCart(id)`: whether a selected drill has that id. */
    predicate IsInCart(id: int)
      reads this
      ensures IsInCart(id) <==> id in Ids(selected)
    {
      HasId(selected, id)
    }

    /** `count`: zero exactly when no drill is in the cart. */
    function Count(): (n: nat)
      reads this
      ensures n == 0 <==> forall id :: !IsInCart(id)
    {
      assert selected != [] ==> IsInCart(selected[0].id);
      |selected|
    }

    /** `addDrill(d)`: appends `d` unless a drill with its id is already selected. */
    method AddDrill(d: Drill)
      modifies this
      ensures selected == Added(old(selected), d)
      ensures IsInCart(d.id)
      ensures Count() == old(Count()) + (if old(IsInCart(d.id)) then 0 else 1)
      ensures forall id :: id != d.id ==> (IsInCart(id) <==> old(IsInCart(id)))
      ensures old(UniqueIds(selected)) ==> UniqueIds(selected)
    {
      var prev := selected;
      selected := Added(selected, d);
      forall id | id != d.id ensures IsInCart(id) <==> HasId(prev, id) {
        if IsInCart(id) {
          var k :| 0 <= k < |selected| && selected[k].id == id;
          assert k < |prev| && prev[k].id == id;
        }
        if HasId(prev, id) {
          var k :| 0 <= k < |prev| && prev[k].id == id;
          assert selected[k].id == id;
        }
      }
    }

    /** `removeDrill(id)`: drops every drill with that id, the others keep their order. */
    method RemoveDrill(id: int)
      modifies this
      ensures selected == Seqs.Filter(old(selected), IdIsNot(id))
      ensures !IsInCart(id)
      ensures forall other :: other != id ==> (IsInCart(other) <==> old(IsInCart(other)))
      ensures old(UniqueIds(selected)) ==> UniqueIds(selected)
    {
      var prev := selected;
      selected := Seqs.Filter(selected, IdIsNot(id));
      RemovedIds(prev, id);
    }

    /** `reorderDrills(start, end)`: the drill at `start` moves to `end`. */
    method ReorderDrills(start: int, end: int)
      requires 0 <= start < |selected| && 0 <= end < |selected|
      modifies this
      ensures selected == Reorder.Move(old(selected), start, end)
      ensures forall id :: IsInCart(id) <==> old(IsInCart(id))
      ensures old(UniqueIds(selected)) ==> UniqueIds(selected)
    {
      var prev := selected;
      selected := Reorder.Move(selected, start, end);
      PermutationIds(prev, selected);
    }

    /** `clearCart()` */
    method ClearCart()
      modifies this
      ensures selected == []
      ensures forall id :: !IsInCart(id)
    {
      selected := [];
    }

    /** `getTotalDuration()`: the reduce over the selected drills. */
    method GetTotalDuration() returns (total: int)
      ensures total == TotalDuration(selected)
    {
      total := 0;
      var i := 0;
      while i < |selected|
        invariant 0 <= i <= |selected|
        invariant total == TotalDuration(selected[..i])
      {
        assert selected[..i + 1][..i] == selected[..i];
        total := total + DurationOrZero(selected[i]);
        i := i + 1;
      }
      assert selected[..i] == selected;
    }
  }

  /** What `removeDrill` leaves: no drill with the id, every other id as before, and no
      repeated ids when there were none. */
  lemma RemovedIds(prev: seq<Drill>, id: int)
    ensures !HasId(Seqs.Filter(prev, IdIsNot(id)), id)
    ensures forall other :: other != id ==>
      (HasId(Seqs.Filter(prev, IdIsNot(id)), other) <==> HasId(prev, other))
    ensures UniqueIds(prev) ==> UniqueIds(Seqs.Filter(prev, IdIsNot(id)))
  {
    var r := Seqs.Filter(prev, IdIsNot(id));
    forall other | other != id
      ensures HasId(r, other) <==> HasId(prev, other)
    {
      if HasId(r, other) {
        var k :| 0 <= k < |r| && r[k].id == other;
        assert r[k] in prev;
      }
      if HasId(prev, other) {
        var k :| 0 <= k < |prev| && prev[k].id == other;
        assert IdIsNot(id)(prev[k]);
        assert prev[k] in r;
      }
    }
    if UniqueIds(prev) {
      FilterUnique(prev, IdIsNot(id));
    }
  }

  lemma {:induction false} FilterUnique(s: seq<Drill>, keep: Drill -> bool)
    requires UniqueIds(s)
    ensures UniqueIds(Seqs.Filter(s, keep))
  {
    if s != [] {
      FilterUnique(s[1..], keep);
      var rest := Seqs.Filter(s[1..], keep);
      forall d | d in rest ensures d.id != s[0].id {
        assert d in s[1..];
      }
    }
  }

  /** A permutation holds the same ids, each as often as before. */
  lemma PermutationIds(a: seq<Drill>, b: seq<Drill>)
    requires multiset(a) == multiset(b)
    ensures forall id :: HasId(a, id) <==> HasId(b, id)
    ensures UniqueIds(a) ==> UniqueIds(b)
  {
    forall id ensures HasId(a, id) <==> HasId(b, id) {
      if HasId(a, id) {
        var k :| 0 <= k < |a| && a[k].id == id;
        assert a[k] in multiset(b);
      }
      if HasId(b, id) {
        var k :| 0 <= k < |b| && b[k].id == id;
        assert b[k] in multiset(a);
      }
    }
    if UniqueIds(a) && !UniqueIds(b) {
      var i, j :| 0 <= i < j < |b| && b[i].id == b[j].id;
      UniqueIdsDistinct(a);
      assert b[i] in multiset(a) && b[j] in multiset(a);
      if b[i] == b[j] {
        assert multiset(b)[b[i]] >= 2 by {
          assert b == b[..i] + [b[i]] + b[i + 1..j] + [b[j]] + b[j + 1..];
        }
        OnceInUnique(a, b[i]);
      }
    }
  }

  lemma UniqueIdsDistinct(a: seq<Drill>)
    requires UniqueIds(a)
    ensures forall i, j :: 0 <= i < j < |a| ==> a[i] != a[j]
  {
  }

  /** In a list without repeated ids every drill occurs at most once. */
  lemma {:induction false} OnceInUnique(a: seq<Drill>, d: Drill)
    requires UniqueIds(a)
    ensures multiset(a)[d] <= 1
  {
    if a != [] {
      OnceInUnique(a[1..], d);
      assert a == [a[0]] + a[1..];
      if a[0] == d {
        assert d !in a[1..];
      }
    }
  }
}
