/**
 * The drill detail dialog (DrillModal.jsx): a picture carousel whose index restarts at the
 * first picture for every drill, the intensity shown as a colour class, three dots and a
 * label, the usage count of the drill, and a button that adds the drill to the training
 * cart or removes it.
 */
module DrillModal {
  import opened Wrappers
  import opened Text
  import opened Drills
  import Seqs
  import Carousel
  import Cart
  import Trainings

  // ---------------------------------------------------------------------------------------
  // Intensity.

  /** `Number(drill.intensity) || 0`: the intensity, 0 when the drill has none. */
  function IntensityValue(d: Drill): (v: int)
    ensures d.intensity.None? ==> v == 0
    ensures d.intensity.Some? ==> v == d.intensity.value
  {
    d.intensity.GetOr(0)
  }

  /** The colour class of an intensity: green, orange and red for 1, 2 and 3, and none for
      any other value. */
  function IntensityClass(v: int): (c: string)
    ensures c == "intensity-green" <==> v == 1
    ensures c == "intensity-orange" <==> v == 2
    ensures c == "intensity-red" <==> v == 3
    ensures c == "" <==> !(1 <= v <= 3)
  {
    if v == 1 then "intensity-green"
    else if v == 2 then "intensity-orange"
    else if v == 3 then "intensity-red"
    else ""
  }

  /** The three dots for 1, 2 and 3: dot `i` is active when `i <= v`. */
  function Dots(v: int): (r: seq<bool>)
    ensures |r| == 3
    ensures forall i :: 0 <= i < 3 ==> (r[i] <==> i + 1 <= v)
  {
    [1 <= v, 2 <= v, 3 <= v]
  }

  /** The number of active dots. */
  function ActiveCount(dots: seq<bool>): nat {
    if dots == [] then 0 else (if dots[0] then 1 else 0) + ActiveCount(dots[1..])
  }

  /** The active dots come first, and there are as many as the intensity clamped to 0..3. */
  lemma DotsActive(v: int)
    ensures forall i, j :: 0 <= j < i < 3 && Dots(v)[i] ==> Dots(v)[j]
    ensures ActiveCount(Dots(v)) == if v < 0 then 0 else if v > 3 then 3 else v
  {
    var d := Dots(v);
    assert d[1..][1..][1..] == [];
    assert ActiveCount(d[1..][1..]) == if d[2] then 1 else 0;
    assert ActiveCount(d[1..]) == (if d[1] then 1 else 0) + ActiveCount(d[1..][1..]);
  }

  /** The class of dot `i`: `intensity-dot`, followed by `active` and the colour class when
      the dot is active. */
  function DotClass(v: int, i: int): string {
    "intensity-dot " + (if i <= v then "active " + IntensityClass(v) else "")
  }

  /** The label under the dots (read from `Number(drill.intensity)` directly): Licht,
      Gemiddeld or Zwaar for 1, 2 and 3, a dash otherwise. */
  function IntensityLabel(v: int): (caption: string)
    ensures caption == "Licht" <==> v == 1
    ensures caption == "Gemiddeld" <==> v == 2
    ensures caption == "Zwaar" <==> v == 3
    ensures caption == "—" <==> !(1 <= v <= 3)
  {
    if v == 1 then "Licht"
    else if v == 2 then "Gemiddeld"
    else if v == 3 then "Zwaar"
    else "—"
  }

  /** Label, colour and dots agree: a drill gets a dash exactly when it gets no colour, and
      the active dots are coloured exactly when the intensity is 1, 2 or 3. An intensity
      above 3 lights all three dots without a colour. */
  lemma IntensityViewsAgree(d: Drill)
    ensures IntensityLabel(IntensityValue(d)) == "—" <==> IntensityClass(IntensityValue(d)) == ""
    ensures forall i :: 1 <= i <= 3 && i <= IntensityValue(d) ==>
              (DotClass(IntensityValue(d), i) == "intensity-dot active " <==> !(1 <= IntensityValue(d) <= 3))
    ensures forall i :: 1 <= i <= 3 && i > IntensityValue(d) ==> DotClass(IntensityValue(d), i) == "intensity-dot "
  {
    var v := IntensityValue(d);
    forall i | 1 <= i <= 3 && i <= v
      ensures DotClass(v, i) == "intensity-dot active " <==> !(1 <= v <= 3)
    {
      assert DotClass(v, i) == "intensity-dot active " + IntensityClass(v);
      if DotClass(v, i) == "intensity-dot active " {
        assert |IntensityClass(v)| == 0;
      }
    }
  }

  // ---------------------------------------------------------------------------------------
  // Details.

  /** `drillUsage && drillUsage[drill.id] ? drillUsage[drill.id] : 0`: the count of the
      drill, 0 without a usage map, without an entry, or with a zero entry. */
  function UsageShown(usage: Option<map<int, int>>, id: int): (n: int)
    ensures usage.Some? && id in usage.value && usage.value[id] != 0 ==> n == usage.value[id]
    ensures usage.None? || id !in usage.value ==> n == 0
  {
    if usage.Some? && id in usage.value && usage.value[id] != 0 then usage.value[id] else 0
  }

  /** Shown with the usage counts of the saved sessions, the number is how often the drill
      occurs in them, repeats included (0 when it occurs nowhere). */
  lemma UsageShownCounts(sessions: seq<SavedSession>, id: int)
    ensures UsageShown(Some(Trainings.Tally(Trainings.AllDrillIds(sessions))), id)
            == Seqs.Count(Trainings.AllDrillIds(sessions), id)
  {
    var ids := Trainings.AllDrillIds(sessions);
    Trainings.TallyCounts(ids);
    if id !in ids {
      assert multiset(ids)[id] == 0;
    }
  }

  /** `drill.ageGroup || '—'` */
  function AgeLabel(d: Drill): (caption: string)
    ensures d.ageGroup != "" ==> caption == d.ageGroup
    ensures d.ageGroup == "" ==> caption == "—"
  {
    if d.ageGroup != "" then d.ageGroup else "—"
  }

  /** `drill.duration ? `${drill.duration} min` : '—'`: a dash for a missing or zero duration. */
  function DurationLabel(d: Drill): (caption: string)
    ensures d.duration.Some? && d.duration.value != 0 ==> caption == IntToString(d.duration.value) + " min"
    ensures d.duration.None? || d.duration == Some(0) ==> caption == "—"
  {
    if d.duration.Some? && d.duration.value != 0 then IntToString(d.duration.value) + " min" else "—"
  }

  /** The equipment list, or one line saying no equipment is needed when it is empty. */
  function EquipmentShown(d: Drill): (items: seq<string>)
    ensures items != []
    ensures d.equipment != [] ==> items == d.equipment
    ensures d.equipment == [] ==> items == ["Geen speciale uitrusting nodig"]
  {
    if d.equipment != [] then d.equipment else ["Geen speciale uitrusting nodig"]
  }

  // ---------------------------------------------------------------------------------------
  // The dialog.

  class Modal {
    const cart: Cart.CartStore
    /** Whether the page passed a `showToast` callback. */
    const hasToast: bool
    /** The drill shown; `None` renders nothing. */
    var drill: Option<Drill>
    var idx: int
    var toast: Option<string>

    /** The carousel index points at a picture of the drill, or is 0 when it has none. */
    predicate IdxValid()
      reads this
    {
      idx == 0 || (drill.Some? && 0 <= idx < |NormalizePictures(drill.value.picture)|)
    }

    constructor (cart: Cart.CartStore, hasToast: bool)
      ensures this.cart == cart && this.hasToast == hasToast
      ensures drill.None? && idx == 0 && toast.None? && IdxValid()
    {
      this.cart := cart;
      this.hasToast := hasToast;
      drill := None;
      idx := 0;
      toast := None;
    }

    /** A new `drill` prop: the effect on `[drill]` puts the index back on the first picture. */
    method Show(d: Option<Drill>)
      modifies this
      ensures drill == d && idx == 0 && toast == old(toast)
      ensures IdxValid()
    {
      drill := d;
      idx := 0;
    }

    /** The picture shown: the asset of the current file, or the placeholder when the drill
        has no pictures or the file has no asset; nothing without a drill. */
    function Source(imageMap: map<string, string>, placeholder: string): (src: Option<string>)
      reads this
      ensures drill.None? <==> src.None?
      ensures src.Some? ==> src.value == placeholder || src.value in imageMap.Values
      ensures drill.Some? && NormalizePictures(drill.value.picture) == [] ==> src == Some(placeholder)
      ensures drill.Some? ==>
                var pictures := NormalizePictures(drill.value.picture);
                && (0 <= idx < |pictures| && Lookup(imageMap, pictures[idx]).Some? ==>
                      src == Some(imageMap[pictures[idx]]))
                && (0 <= idx < |pictures| && Lookup(imageMap, pictures[idx]).None? ==> src == Some(placeholder))
    {
      match drill
      case None => None
      case Some(d) => Some(ShownSource(imageMap, NormalizePictures(d.picture), idx, placeholder))
    }

    /** The previous/next buttons, offered only for a drill with more than one picture: the
        index moves one place, wrapping at both ends, and stays a picture index. */
    method Step(forward: bool)
      requires drill.Some? && |NormalizePictures(drill.value.picture)| > 1 && IdxValid()
      modifies this
      ensures drill == old(drill) && toast == old(toast)
      ensures var len := |NormalizePictures(drill.value.picture)|;
              idx == if forward then Carousel.Next(old(idx), len) else Carousel.Prev(old(idx), len)
      ensures IdxValid()
    {
      var len := |NormalizePictures(drill.value.picture)|;
      idx := if forward then Carousel.Next(idx, len) else Carousel.Prev(idx, len);
    }

    /** The cart button's caption. */
    function ButtonLabel(): (caption: string)
      reads this, cart
      requires drill.Some?
      ensures caption == "Verwijder uit training" <==> cart.IsInCart(drill.value.id)
      ensures caption == "Voeg toe aan training" <==> !cart.IsInCart(drill.value.id)
    {
      if cart.IsInCart(drill.value.id) then "Verwijder uit training" else "Voeg toe aan training"
    }

    /** The cart button: a drill in the cart is removed, any other one is added, so the
        drill's membership flips and no other drill's changes; the toast says which. */
    method ToggleCart()
      requires drill.Some?
      modifies this, cart
      ensures var d := old(drill).value;
              old(cart.IsInCart(d.id)) ==> cart.selected == Seqs.Filter(old(cart.selected), IdIsNot(d.id))
      ensures var d := old(drill).value;
              !old(cart.IsInCart(d.id)) ==> cart.selected == Cart.Added(old(cart.selected), d)
      ensures drill == old(drill) && idx == old(idx)
      ensures cart.IsInCart(drill.value.id) <==> !old(cart.IsInCart(drill.value.id))
      ensures forall id :: id != drill.value.id ==> (cart.IsInCart(id) <==> old(cart.IsInCart(id)))
      ensures !hasToast ==> toast == old(toast)
      ensures hasToast ==> toast == Some(if cart.IsInCart(drill.value.id) then "Toegevoegd aan training"
                                         else "Verwijderd uit training")
    {
      var d := drill.value;
      var msg: string;
      if cart.IsInCart(d.id) {
        cart.RemoveDrill(d.id);
        msg := "Verwijderd uit training";
      } else {
        cart.AddDrill(d);
        msg := "Toegevoegd aan training";
      }
      if hasToast {
        toast := Some(msg);
      }
    }
  }
}
