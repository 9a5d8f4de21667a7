/**
 * The training page (TrainingSession.jsx): the cart's drills in an order that drag and drop
 * changes, a picture carousel per row, tag colours from a fixed palette with a text colour
 * chosen for contrast, and saving the cart as a session.
 */
module Session {
  import opened Wrappers
  import opened Text
  import opened Drills
  import Reorder
  import Carousel
  import Vocabulary
  import Storage
  import Cart

  // ---------------------------------------------------------------------------------------
  // Tag colours.

  const Palette: seq<string> := ["#43669e", "#c05b4b", "#3c3841", "#6b8bb3", "#d47968", "#5a5762"]

  /** Every tag of the catalogue. */
  ghost function AllTags(catalog: seq<Drill>): set<string> {
    set k, t | 0 <= k < |catalog| && t in catalog[k].tags :: t
  }

  /** The tags of the catalogue that sort before `t`: the rank of `t` in sorted order. */
  ghost function TagsBefore(catalog: seq<Drill>, t: string): set<string> {
    set u | u in AllTags(catalog) && LexLess(u, t)
  }

  /** The first `i` elements of a list, as a set. */
  ghost function Elements(s: seq<string>, i: nat): set<string>
    requires i <= |s|
  {
    set j | 0 <= j < i :: s[j]
  }

  lemma {:induction false} ElementsCount(s: seq<string>, i: nat)
    requires i <= |s| && Vocabulary.Distinct(s)
    ensures |Elements(s, i)| == i
  {
    if i > 0 {
      ElementsCount(s, i - 1);
      assert Elements(s, i) == Elements(s, i - 1) + {s[i - 1]};
      assert s[i - 1] !in Elements(s, i - 1);
    }
  }

  /** In an ascending list without repeats, the elements below element `i` are the first `i`. */
  lemma SortedRank(s: seq<string>, i: nat)
    requires Vocabulary.StrictlySorted(s) && i < |s|
    ensures (set u | u in s && LexLess(u, s[i])) == Elements(s, i)
    ensures |Elements(s, i)| == i
  {
    forall u | u in s && LexLess(u, s[i]) ensures u in Elements(s, i) {
      var j :| 0 <= j < |s| && s[j] == u;
      if j == i {
        LexIrreflexive(u);
      } else if j > i {
        LexAsymmetric(s[i], s[j]);
      }
    }
    Vocabulary.SortedIsDistinct(s);
    ElementsCount(s, i);
  }

  /**
   * `tagColors`: every tag of the catalogue gets a colour, and the tag of rank `i` in the
   * sorted vocabulary (the number of tags sorting before it) gets `palette[i % 6]`.
   */
  method TagColors(catalog: seq<Drill>) returns (colours: map<string, string>)
    ensures forall t :: t in colours <==> t in AllTags(catalog)
    ensures forall t :: t in colours ==> colours[t] == Palette[|TagsBefore(catalog, t)| % |Palette|]
  {
    var tags := Vocabulary.TagVocabulary(catalog);
    Vocabulary.SortedIsDistinct(tags);
    colours := map[];
    var i := 0;
    while i < |tags|
      invariant 0 <= i <= |tags|
      invariant forall t :: t in colours <==> t in tags[..i]
      invariant forall j :: 0 <= j < i ==> colours[tags[j]] == Palette[j % |Palette|]
    {
      colours := colours[tags[i] := Palette[i % |Palette|]];
      assert tags[..i + 1] == tags[..i] + [tags[i]];
      i := i + 1;
    }
    assert tags[..i] == tags;
    forall t ensures t in tags <==> t in AllTags(catalog) {
      if t in AllTags(catalog) {
        var k :| 0 <= k < |catalog| && t in catalog[k].tags;
      }
    }
    forall t | t in colours ensures colours[t] == Palette[|TagsBefore(catalog, t)| % |Palette|] {
      var j :| 0 <= j < |tags| && tags[j] == t;
      SortedRank(tags, j);
      assert TagsBefore(catalog, t) == set u | u in tags && LexLess(u, tags[j]);
    }
  }

  // ---------------------------------------------------------------------------------------
  // Text colour.

  /**
   * `getTextColor(hex)`: black for a missing colour; otherwise the three two-digit hex
   * components after the first character are read, and black is chosen when the YIQ
   * brightness `(299 r + 587 g + 114 b) / 1000` reaches 128, white otherwise (also when a
   * component is not a number).
   */
  function GetTextColor(hex: Option<string>): (r: string)
    ensures r == "#000" || r == "#fff"
    ensures hex.None? || hex == Some("") ==> r == "#000"
  {
    if hex.None? || hex.value == "" then "#000"
    else
      var c := hex.value[1..];
      Contrast(HexPair(c, 0), HexPair(c, 2), HexPair(c, 4))
  }

  /** Black text when the YIQ brightness of the three components reaches 128, white otherwise
      and when a component is not a number. */
  function Contrast(r: Option<int>, g: Option<int>, b: Option<int>): (colour: string)
    ensures colour == "#000" || colour == "#fff"
    ensures r.None? || g.None? || b.None? ==> colour == "#fff"
    ensures r.Some? && g.Some? && b.Some? ==>
              (colour == "#000" <==> 299 * r.value + 587 * g.value + 114 * b.value >= 128000)
  {
    if r.Some? && g.Some? && b.Some? && 299 * r.value + 587 * g.value + 114 * b.value >= 128000 then "#000" else "#fff"
  }

  /** For `#rrggbb` the choice is the YIQ test on the three bytes the digit pairs write. */
  lemma TextColorOfHex(h: string)
    requires |h| == 6 && forall k :: 0 <= k < 6 ==> IsHexDigit(h[k])
    ensures GetTextColor(Some("#" + h)) ==
            Contrast(Some(HexByte(h[0], h[1])), Some(HexByte(h[2], h[3])), Some(HexByte(h[4], h[5])))
    ensures GetTextColor(Some("#" + h)) == "#000" <==>
            299 * HexByte(h[0], h[1]) + 587 * HexByte(h[2], h[3]) + 114 * HexByte(h[4], h[5]) >= 128000
  {
    assert ("#" + h)[1..] == h;
    assert GetTextColor(Some("#" + h)) == Contrast(HexPair(h, 0), HexPair(h, 2), HexPair(h, 4));
    HexPairAt(h, 0);
    HexPairAt(h, 2);
    HexPairAt(h, 4);
  }

  /** A palette entry written `#rrggbb` gets the text colour of its three bytes. */
  lemma PaletteEntry(i: nat, h: string, r: int, g: int, b: int)
    requires i < |Palette| && Palette[i] == "#" + h
    requires |h| == 6 && forall k :: 0 <= k < 6 ==> IsHexDigit(h[k])
    requires HexByte(h[0], h[1]) == r && HexByte(h[2], h[3]) == g && HexByte(h[4], h[5]) == b
    ensures GetTextColor(Some(Palette[i])) == Contrast(Some(r), Some(g), Some(b))
  {
    TextColorOfHex(h);
  }

  /** The palette's text colours: black on the two light entries (`#6b8bb3`, `#d47968`),
      white on the other four. */
  lemma PaletteTextColor(i: nat)
    requires i < |Palette|
    ensures GetTextColor(Some(Palette[i])) == if i == 3 || i == 4 then "#000" else "#fff"
  {
    if i == 0 {
      PaletteEntry(0, "43669e", 67, 102, 158);
    } else if i == 1 {
      PaletteEntry(1, "c05b4b", 192, 91, 75);
    } else if i == 2 {
      PaletteEntry(2, "3c3841", 60, 56, 65);
    } else if i == 3 {
      PaletteEntry(3, "6b8bb3", 107, 139, 179);
    } else if i == 4 {
      PaletteEntry(4, "d47968", 212, 121, 104);
    } else {
      PaletteEntry(5, "5a5762", 90, 87, 98);
    }
  }

  // ---------------------------------------------------------------------------------------
  // The page.

  class SessionPage {
    const cart: Cart.CartStore
    const store: Storage.SessionStore
    var dragged: Option<int>
    var saveName: string
    var saveModal: bool
    var message: string
    var imgIndexes: map<int, int>

    constructor (cart: Cart.CartStore, store: Storage.SessionStore, defaultName: string)
      ensures this.cart == cart && this.store == store
      ensures dragged.None? && saveName == defaultName && !saveModal && message == "" && imgIndexes == map[]
    {
      this.cart := cart;
      this.store := store;
      dragged := None;
      saveName := defaultName;
      saveModal := false;
      message := "";
      imgIndexes := map[];
    }

    /** `handleDragStart(e, index)` */
    method DragStart(index: int)
      modifies this
      ensures dragged == Some(index)
      ensures saveName == old(saveName) && imgIndexes == old(imgIndexes)
      ensures saveModal == old(saveModal) && message == old(message)
    {
      dragged := Some(index);
    }

    /** `handleDrop(e, dropIndex)`: the cart is reordered only for a dragged row dropped on
        another row; the dragged index is reset in every case. */
    method HandleDrop(drop: int)
      requires dragged.Some? && dragged.value != drop ==>
                 0 <= dragged.value < |cart.selected| && 0 <= drop < |cart.selected|
      modifies this, cart
      ensures dragged.None?
      ensures old(dragged).Some? && old(dragged).value != drop ==>
                cart.selected == Reorder.Move(old(cart.selected), old(dragged).value, drop)
      ensures old(dragged).None? || old(dragged).value == drop ==> cart.selected == old(cart.selected)
      ensures saveName == old(saveName) && imgIndexes == old(imgIndexes)
      ensures saveModal == old(saveModal) && message == old(message)
    {
      if dragged.Some? && dragged.value != drop {
        cart.ReorderDrills(dragged.value, drop);
      }
      dragged := None;
    }

    /** `handleSave`: the trimmed name must not be blank; the record gets the cart's ids in
        cart order; a successful save closes the dialog and clears the name. */
    method HandleSave(now: int)
      modifies this, store
      ensures dragged == old(dragged) && imgIndexes == old(imgIndexes)
      ensures Trim(old(saveName)) == [] ==>
                store.raw == old(store.raw) && message == "Geef een naam op"
                && saveName == old(saveName) && saveModal == old(saveModal)
      ensures Trim(old(saveName)) != [] && old(store.raw).None? ==>
                store.raw == old(store.raw) && message == "Fout bij opslaan"
                && saveName == old(saveName) && saveModal == old(saveModal)
      ensures Trim(old(saveName)) != [] && old(store.raw).Some? ==>
                store.raw == Some(old(store.raw).value + [SavedSession(now, Trim(old(saveName)), Ids(cart.selected))])
                && message == "Training opgeslagen" && !saveModal && saveName == ""
    {
      var outcome := store.Save(saveName, Ids(cart.selected), now);
      message := Storage.SaveMessage(outcome);
      match outcome
      case Saved =>
        saveModal := false;
        saveName := "";
      case NameMissing =>
      case SaveFailed =>
    }

    /** `prevThumb`/`nextThumb` on the row of `d` (offered with more than one picture): only
        that drill's index moves, from 0 when unset, and stays a picture index. */
    method StepThumb(d: Drill, forward: bool)
      requires |NormalizePictures(d.picture)| > 1
      requires d.id in imgIndexes ==> 0 <= imgIndexes[d.id] < |NormalizePictures(d.picture)|
      modifies this
      ensures imgIndexes == Carousel.Stepped(old(imgIndexes), d.id, |NormalizePictures(d.picture)|, forward)
      ensures dragged == old(dragged) && saveName == old(saveName)
      ensures saveModal == old(saveModal) && message == old(message)
    {
      imgIndexes := Carousel.Stepped(imgIndexes, d.id, |NormalizePictures(d.picture)|, forward);
    }
  }
}
