/**
 * The PDF export of a training (`generatePdfForSession`, written out identically in
 * Trainings.jsx and SharedTraining.jsx). A4 pages in millimetres: an optional cover page,
 * then one block per drill (picture, numbered title, wrapped description) laid out by an
 * integer cursor that starts at 28 mm and moves down by `max(34, 6 * lines + 16)` per
 * drill. After a block is drawn, a cursor past 262 mm (297 - 15 - 20) stamps the logo on
 * the page, opens a new page and resets the cursor. The last page gets its logo at the end.
 *
 * Drawing is recorded as marks on pages; the font metrics of the PDF library are the
 * `wrap` parameter (the number of lines a description wraps to).
 */
module Pdf {
  import opened Wrappers
  import opened Drills
  import Seqs

  const PageHeight: int := 297
  const Margin: int := 15
  /** Where the first block of every content page starts. */
  const Top: int := 28
  /** `pageHeight - margin - 20`: a cursor beyond this ends the page. */
  const BottomLimit: int := PageHeight - Margin - 20

  /** `Math.max(34, lines * 6 + 16)`: the height a drill block takes. */
  function BlockHeight(lines: nat): (h: int)
    ensures h >= 34 && h >= 6 * lines + 16
    ensures h == 34 || h == 6 * lines + 16
  {
    if 6 * lines + 16 > 34 then 6 * lines + 16 else 34
  }

  /** What is put on a page. */
  datatype Mark =
    | CoverImage(src: string)
    | CoverText(name: string)
    | Separator(y: int)
    | Picture(src: string, y: int)
    | Title(number: nat, name: string, y: int)
    | Description(text: string, lines: nat, y: int)
    | Logo(src: string)

  /**
   * What the export gets from its surroundings: the bundled image map, the public URL
   * prefix, the placeholder image, the line wrapping of the PDF library, whether the PDF
   * library rejects the cover image, and whether a logo image is available.
   */
  datatype Assets = Assets(
    imageMap: map<string, string>,
    publicUrl: string,
    placeholder: string,
    wrap: string -> nat,
    coverFails: bool,
    hasLogo: bool)

  const CoverCandidates: seq<string> := ["cover.jpg", "cover.png", "cover.jpeg",
    "basketdesselgem-cover.png", "basket-desselgem.png", "basketdesselgem.png",
    "basket_logo.png", "basket.png"]

  const LogoCandidates: seq<string> := ["basketdesselgem.png", "basket-desselgem.png",
    "basketdesselgem.svg", "basket-desselgem.svg", "basket_logo.png", "basket.png",
    "logo-basket.png"]

  /** The asset of the first candidate file the image map has. */
  function FirstPresent(imageMap: map<string, string>, candidates: seq<string>): (r: Option<string>)
    ensures r.None? <==> forall k :: 0 <= k < |candidates| ==> Lookup(imageMap, candidates[k]).None?
    ensures r.Some? ==> exists k :: 0 <= k < |candidates| && Lookup(imageMap, candidates[k]) == r &&
                                    forall j :: 0 <= j < k ==> Lookup(imageMap, candidates[j]).None?
  {
    if candidates == [] then None
    else if Lookup(imageMap, candidates[0]).Some? then Lookup(imageMap, candidates[0])
    else
      var r := FirstPresent(imageMap, candidates[1..]);
      assert r.Some? ==> exists k :: 0 <= k < |candidates[1..]| && Lookup(imageMap, candidates[1..][k]) == r &&
                                     forall j :: 0 <= j < k ==> Lookup(imageMap, candidates[1..][j]).None?;
      r
  }

  function CoverSource(a: Assets): string {
    FirstPresent(a.imageMap, CoverCandidates).GetOr(a.publicUrl + "/cover.png")
  }

  function LogoSource(a: Assets): string {
    FirstPresent(a.imageMap, LogoCandidates).GetOr(a.publicUrl + "/basket-desselgem.png")
  }

  /** The cover: the cover image, or the text cover when the image is rejected. */
  function CoverMark(a: Assets, name: string): Mark {
    if a.coverFails then CoverText(name) else CoverImage(CoverSource(a))
  }

  /**
   * The picture of a drill block: only the first picture is used, from the image map when
   * it has the file, else the file name itself, else (no picture, or an empty name) the
   * placeholder.
   */
  function ImageSource(a: Assets, d: Drill): (src: string)
    ensures NormalizePictures(d.picture) == [] ==> src == a.placeholder
    ensures var ps := NormalizePictures(d.picture);
            ps != [] && Lookup(a.imageMap, ps[0]).Some? ==> src == a.imageMap[ps[0]]
    ensures var ps := NormalizePictures(d.picture);
            ps != [] && Lookup(a.imageMap, ps[0]).None? ==> src == (if ps[0] != "" then ps[0] else a.placeholder)
  {
    var ps := NormalizePictures(d.picture);
    if ps != [] && Lookup(a.imageMap, ps[0]).Some? then a.imageMap[ps[0]]
    else if ps != [] && ps[0] != "" then ps[0]
    else a.placeholder
  }

  /** `${name || 'training'}.pdf` */
  function FileName(name: string): (r: string)
    ensures name != "" ==> r == name + ".pdf"
    ensures name == "" ==> r == "training.pdf"
  {
    (if name == "" then "training" else name) + ".pdf"
  }

  // ---------------------------------------------------------------------------------------
  // The layout as functions.

  /** Drawing the marks `ms`, in order, on the current (last) page. */
  function DrawAll(pages: seq<seq<Mark>>, ms: seq<Mark>): (r: seq<seq<Mark>>)
    requires pages != []
    ensures |r| == |pages| && r[..|r| - 1] == pages[..|pages| - 1]
    ensures r[|r| - 1] == pages[|pages| - 1] + ms
  {
    pages[..|pages| - 1] + [pages[|pages| - 1] + ms]
  }

  lemma DrawAllSnoc(pages: seq<seq<Mark>>, ms: seq<Mark>, m: Mark)
    requires pages != []
    ensures DrawAll(DrawAll(pages, ms), [m]) == DrawAll(pages, ms + [m])
  {
    var r1 := DrawAll(DrawAll(pages, ms), [m]);
    var r2 := DrawAll(pages, ms + [m]);
    assert r1[|r1| - 1] == r2[|r2| - 1];
    assert r1 == r1[..|r1| - 1] + [r1[|r1| - 1]];
    assert r2 == r2[..|r2| - 1] + [r2[|r2| - 1]];
  }

  datatype Layout = Layout(pages: seq<seq<Mark>>, cursor: int)

  /** Whether the block of `d` drawn at `cursor` ends the page. */
  predicate Overflows(a: Assets, cursor: int, d: Drill) {
    cursor + BlockHeight(a.wrap(d.description)) > BottomLimit
  }

  /** The block of drill number `i` (counting from 0) at `c`: a separator 6 mm above it
      unless it is the first drill, its picture, its numbered title and its description. */
  function BlockMarks(a: Assets, c: int, i: nat, d: Drill): seq<Mark> {
    (if i > 0 then [Separator(c - 6)] else [])
      + [Picture(ImageSource(a, d), c), Title(i + 1, d.name, c + 6),
         Description(d.description, a.wrap(d.description), c + 14)]
  }

  /** What one iteration of the drill loop draws: the block, then the logo when the block
      ends the page. */
  function StepMarks(a: Assets, c: int, i: nat, d: Drill): seq<Mark> {
    BlockMarks(a, c, i, d) + (if Overflows(a, c, d) && a.hasLogo then [Logo(LogoSource(a))] else [])
  }

  /** One iteration of the drill loop: draw, move the cursor down, and after a block that
      ends below the limit open a new page with the cursor back at the top. */
  function DrillStep(a: Assets, st: Layout, i: nat, d: Drill): (r: Layout)
    requires st.pages != []
    ensures r.pages != [] && |r.pages| >= |st.pages|
    ensures r.pages[..|st.pages| - 1] == st.pages[..|st.pages| - 1]
  {
    var p := DrawAll(st.pages, StepMarks(a, st.cursor, i, d));
    if Overflows(a, st.cursor, d) then
      assert (p + [[]])[..|st.pages| - 1] == p[..|p| - 1];
      Layout(p + [[]], Top)
    else
      Layout(p, st.cursor + BlockHeight(a.wrap(d.description)))
  }

  /** The drill loop over `ds`, drills numbered from 0. */
  function LayoutDrills(a: Assets, start: Layout, ds: seq<Drill>): (r: Layout)
    requires start.pages != []
    ensures r.pages != [] && |r.pages| >= |start.pages|
    ensures r.pages[..|start.pages| - 1] == start.pages[..|start.pages| - 1]
  {
    if ds == [] then start
    else
      var prev := LayoutDrills(a, start, ds[..|ds| - 1]);
      var r := DrillStep(a, prev, |ds| - 1, ds[|ds| - 1]);
      assert r.pages[..|start.pages| - 1] == r.pages[..|prev.pages| - 1][..|start.pages| - 1];
      r
  }

  /** The pages of the exported document. */
  function Document(a: Assets, name: string, ds: seq<Drill>, includeCover: bool): seq<seq<Mark>> {
    var st := LayoutDrills(a, Layout(FirstPages(a, name, includeCover), Top), ds);
    if a.hasLogo then DrawAll(st.pages, [Logo(LogoSource(a))]) else st.pages
  }

  /** The pages before the first drill: the cover page and an empty page, or one empty page. */
  function FirstPages(a: Assets, name: string, includeCover: bool): seq<seq<Mark>> {
    if includeCover then [[CoverMark(a, name)], []] else [[]]
  }

  // ---------------------------------------------------------------------------------------
  // The cursor alone.

  /** The cursor after the drill loop, starting from `c0`. */
  function CursorAfter(a: Assets, c0: int, ds: seq<Drill>): int {
    if ds == [] then c0
    else
      var c := CursorAfter(a, c0, ds[..|ds| - 1]);
      if Overflows(a, c, ds[|ds| - 1]) then Top else c + BlockHeight(a.wrap(ds[|ds| - 1].description))
  }

  /** How many drills ended a page. */
  function Breaks(a: Assets, c0: int, ds: seq<Drill>): nat {
    if ds == [] then 0
    else
      var c := CursorAfter(a, c0, ds[..|ds| - 1]);
      Breaks(a, c0, ds[..|ds| - 1]) + (if Overflows(a, c, ds[|ds| - 1]) then 1 else 0)
  }

  /** How many drills are on the current page since the last break. */
  function SinceBreak(a: Assets, c0: int, ds: seq<Drill>): nat {
    if ds == [] then 0
    else
      var c := CursorAfter(a, c0, ds[..|ds| - 1]);
      if Overflows(a, c, ds[|ds| - 1]) then 0 else SinceBreak(a, c0, ds[..|ds| - 1]) + 1
  }

  /** The layout's cursor is the cursor machine's, and every break adds exactly one page. */
  lemma {:induction false} LayoutFollowsCursor(a: Assets, start: Layout, ds: seq<Drill>)
    requires start.pages != []
    ensures LayoutDrills(a, start, ds).cursor == CursorAfter(a, start.cursor, ds)
    ensures |LayoutDrills(a, start, ds).pages| == |start.pages| + Breaks(a, start.cursor, ds)
  {
    if ds != [] {
      LayoutFollowsCursor(a, start, ds[..|ds| - 1]);
    }
  }

  /** From a start on the page, the cursor stays between 28 and 262: every drill block starts
      inside the printable area. */
  lemma {:induction false} CursorStaysOnPage(a: Assets, c0: int, ds: seq<Drill>)
    requires Top <= c0 <= BottomLimit
    ensures Top <= CursorAfter(a, c0, ds) <= BottomLimit
  {
    if ds != [] {
      CursorStaysOnPage(a, c0, ds[..|ds| - 1]);
    }
  }

  /** Each block takes at least 34 mm, so a page that ended in a break holds at most 7
      drills and the last page at most 6: `|ds| <= 7 * breaks + 6`. */
  lemma {:induction false} PageCapacity(a: Assets, c0: int, ds: seq<Drill>)
    requires Top <= c0 <= BottomLimit
    ensures Top + 34 * SinceBreak(a, c0, ds) <= CursorAfter(a, c0, ds)
    ensures |ds| <= 7 * Breaks(a, c0, ds) + SinceBreak(a, c0, ds)
    ensures SinceBreak(a, c0, ds) <= 6
    ensures |ds| <= 7 * Breaks(a, c0, ds) + 6
  {
    CursorStaysOnPage(a, c0, ds);
    if ds != [] {
      PageCapacity(a, c0, ds[..|ds| - 1]);
    }
  }

  // ---------------------------------------------------------------------------------------
  // The marks in drawing order.

  function Flatten(pages: seq<seq<Mark>>): seq<Mark> {
    Seqs.Concat(pages)
  }

  lemma FlattenDrawAll(pages: seq<seq<Mark>>, ms: seq<Mark>)
    requires pages != []
    ensures Flatten(DrawAll(pages, ms)) == Flatten(pages) + ms
  {
    var init := pages[..|pages| - 1];
    var last := pages[|pages| - 1];
    assert pages == init + [last];
    Seqs.ConcatAppend(init, [last + ms]);
    Seqs.ConcatAppend(init, [last]);
    assert Seqs.Concat([last + ms]) == last + ms by {
      assert [last + ms][..0] == [];
    }
    assert Seqs.Concat([last]) == last by {
      assert [last][..0] == [];
    }
  }

  lemma FlattenNewPage(pages: seq<seq<Mark>>)
    ensures Flatten(pages + [[]]) == Flatten(pages)
  {
    assert (pages + [[]])[..|pages|] == pages;
  }

  /** The marks of the whole drill loop, in drawing order. */
  function LoopMarks(a: Assets, c0: int, ds: seq<Drill>): seq<Mark> {
    if ds == [] then []
    else
      var n := |ds| - 1;
      LoopMarks(a, c0, ds[..n]) + StepMarks(a, CursorAfter(a, c0, ds[..n]), n, ds[n])
  }

  /** The drill loop draws exactly `LoopMarks`, in that order, across its pages. */
  lemma {:induction false} LayoutMarks(a: Assets, start: Layout, ds: seq<Drill>)
    requires start.pages != []
    ensures Flatten(LayoutDrills(a, start, ds).pages) == Flatten(start.pages) + LoopMarks(a, start.cursor, ds)
  {
    if ds != [] {
      var n := |ds| - 1;
      var prev := LayoutDrills(a, start, ds[..n]);
      var step := StepMarks(a, prev.cursor, n, ds[n]);
      assert Flatten(prev.pages) == Flatten(start.pages) + LoopMarks(a, start.cursor, ds[..n]) by {
        LayoutMarks(a, start, ds[..n]);
      }
      assert Flatten(LayoutDrills(a, start, ds).pages) == Flatten(prev.pages) + step by {
        StepFlatten(a, prev, n, ds[n]);
      }
      assert LoopMarks(a, start.cursor, ds) == LoopMarks(a, start.cursor, ds[..n]) + step by {
        LayoutFollowsCursor(a, start, ds[..n]);
      }
    }
  }

  /** In reading order, one step of the loop adds its marks at the end. */
  lemma StepFlatten(a: Assets, st: Layout, i: nat, d: Drill)
    requires st.pages != []
    ensures Flatten(DrillStep(a, st, i, d).pages) == Flatten(st.pages) + StepMarks(a, st.cursor, i, d)
  {
    var p := DrawAll(st.pages, StepMarks(a, st.cursor, i, d));
    FlattenDrawAll(st.pages, StepMarks(a, st.cursor, i, d));
    FlattenNewPage(p);
  }


  /** The numbered titles of a list of marks, in order. */
  function Titles(ms: seq<Mark>): seq<(nat, string)> {
    if ms == [] then []
    else (if ms[0].Title? then [(ms[0].number, ms[0].name)] else []) + Titles(ms[1..])
  }

  lemma {:induction false} TitlesAppend(xs: seq<Mark>, ys: seq<Mark>)
    ensures Titles(xs + ys) == Titles(xs) + Titles(ys)
  {
    if xs == [] {
      assert xs + ys == ys;
    } else {
      var head := if xs[0].Title? then [(xs[0].number, xs[0].name)] else [];
      assert (xs + ys)[0] == xs[0] && (xs + ys)[1..] == xs[1..] + ys;
      assert Titles(xs + ys) == head + Titles(xs[1..] + ys);
      TitlesAppend(xs[1..], ys);
      assert Titles(xs) == head + Titles(xs[1..]);
    }
  }

  lemma TitlesSingle(m: Mark)
    ensures Titles([m]) == if m.Title? then [(m.number, m.name)] else []
  {
    assert [m][1..] == [];
  }

  lemma StepTitles(a: Assets, c: int, i: nat, d: Drill)
    ensures Titles(StepMarks(a, c, i, d)) == [(i + 1, d.name)]
  {
    var sep: seq<Mark> := if i > 0 then [Separator(c - 6)] else [];
    var pic := Picture(ImageSource(a, d), c);
    var title := Title(i + 1, d.name, c + 6);
    var desc := Description(d.description, a.wrap(d.description), c + 14);
    var logo: seq<Mark> := if Overflows(a, c, d) && a.hasLogo then [Logo(LogoSource(a))] else [];
    var block := [pic, title, desc];
    assert StepMarks(a, c, i, d) == (sep + block) + logo;
    TitlesAppend(sep + block, logo);
    TitlesAppend(sep, block);
    assert Titles(block) == [(i + 1, d.name)] by {
      assert block[1..] == [title, desc] && [title, desc][1..] == [desc];
      TitlesSingle(desc);
      assert Titles([title, desc]) == [(i + 1, d.name)] + Titles([desc]);
    }
    if i > 0 {
      TitlesSingle(Separator(c - 6));
    }
    if logo != [] {
      TitlesSingle(Logo(LogoSource(a)));
    }
  }

  /** Drill `i` is titled with number `i + 1` and its name, in the order of the drills. */
  lemma {:induction false} TitlesNumbered(a: Assets, c0: int, ds: seq<Drill>)
    ensures Titles(LoopMarks(a, c0, ds)) == seq(|ds|, k requires 0 <= k < |ds| => (k + 1, ds[k].name))
  {
    if ds != [] {
      var n := |ds| - 1;
      TitlesNumbered(a, c0, ds[..n]);
      var c := CursorAfter(a, c0, ds[..n]);
      TitlesAppend(LoopMarks(a, c0, ds[..n]), StepMarks(a, c, n, ds[n]));
      StepTitles(a, c, n, ds[n]);
    }
  }

  /** The number of separator lines among a list of marks. */
  function Separators(ms: seq<Mark>): nat {
    if ms == [] then 0
    else (if ms[0].Separator? then 1 else 0) + Separators(ms[1..])
  }

  lemma {:induction false} SeparatorsAppend(xs: seq<Mark>, ys: seq<Mark>)
    ensures Separators(xs + ys) == Separators(xs) + Separators(ys)
  {
    if xs == [] {
      assert xs + ys == ys;
    } else {
      var head := if xs[0].Separator? then 1 else 0;
      assert (xs + ys)[0] == xs[0] && (xs + ys)[1..] == xs[1..] + ys;
      assert Separators(xs + ys) == head + Separators(xs[1..] + ys);
      SeparatorsAppend(xs[1..], ys);
    }
  }

  lemma SeparatorsSingle(m: Mark)
    ensures Separators([m]) == if m.Separator? then 1 else 0
  {
    assert [m][1..] == [];
  }

  lemma StepSeparators(a: Assets, c: int, i: nat, d: Drill)
    ensures Separators(StepMarks(a, c, i, d)) == if i > 0 then 1 else 0
  {
    var sep: seq<Mark> := if i > 0 then [Separator(c - 6)] else [];
    var pic := Picture(ImageSource(a, d), c);
    var title := Title(i + 1, d.name, c + 6);
    var desc := Description(d.description, a.wrap(d.description), c + 14);
    var logo: seq<Mark> := if Overflows(a, c, d) && a.hasLogo then [Logo(LogoSource(a))] else [];
    assert StepMarks(a, c, i, d) == sep + [pic] + [title] + [desc] + logo;
    SeparatorsAppend(sep + [pic] + [title] + [desc], logo);
    SeparatorsAppend(sep + [pic] + [title], [desc]);
    SeparatorsAppend(sep + [pic], [title]);
    SeparatorsAppend(sep, [pic]);
    SeparatorsSingle(pic);
    SeparatorsSingle(title);
    SeparatorsSingle(desc);
    if i > 0 {
      SeparatorsSingle(Separator(c - 6));
    }
    if logo != [] {
      SeparatorsSingle(Logo(LogoSource(a)));
    }
  }

  /** A separator goes before every drill but the first, also right after a page break. */
  lemma {:induction false} SeparatorsBetweenDrills(a: Assets, c0: int, ds: seq<Drill>)
    ensures Separators(LoopMarks(a, c0, ds)) == if ds == [] then 0 else |ds| - 1
  {
    if ds != [] {
      var n := |ds| - 1;
      SeparatorsBetweenDrills(a, c0, ds[..n]);
      var c := CursorAfter(a, c0, ds[..n]);
      SeparatorsAppend(LoopMarks(a, c0, ds[..n]), StepMarks(a, c, n, ds[n]));
      StepSeparators(a, c, n, ds[n]);
    }
  }

  /** Every picture is drawn with its top between 28 and 262. */
  lemma {:induction false} PicturesOnPage(a: Assets, c0: int, ds: seq<Drill>)
    requires Top <= c0 <= BottomLimit
    ensures forall m :: m in LoopMarks(a, c0, ds) && m.Picture? ==> Top <= m.y <= BottomLimit
  {
    if ds != [] {
      var n := |ds| - 1;
      PicturesOnPage(a, c0, ds[..n]);
      CursorStaysOnPage(a, c0, ds[..n]);
    }
  }

  // ---------------------------------------------------------------------------------------
  // Pages and logos.

  function Logos(page: seq<Mark>): nat {
    if page == [] then 0
    else (if page[0].Logo? then 1 else 0) + Logos(page[1..])
  }

  lemma {:induction false} LogosAppend(xs: seq<Mark>, ys: seq<Mark>)
    ensures Logos(xs + ys) == Logos(xs) + Logos(ys)
  {
    if xs == [] {
      assert xs + ys == ys;
    } else {
      var head := if xs[0].Logo? then 1 else 0;
      assert (xs + ys)[0] == xs[0] && (xs + ys)[1..] == xs[1..] + ys;
      assert Logos(xs + ys) == head + Logos(xs[1..] + ys);
      LogosAppend(xs[1..], ys);
    }
  }

  lemma LogosSingle(m: Mark)
    ensures Logos([m]) == if m.Logo? then 1 else 0
  {
    assert [m][1..] == [];
  }

  lemma StepLogos(a: Assets, c: int, i: nat, d: Drill)
    ensures Logos(StepMarks(a, c, i, d)) == if Overflows(a, c, d) && a.hasLogo then 1 else 0
  {
    var sep: seq<Mark> := if i > 0 then [Separator(c - 6)] else [];
    var pic := Picture(ImageSource(a, d), c);
    var title := Title(i + 1, d.name, c + 6);
    var desc := Description(d.description, a.wrap(d.description), c + 14);
    var logo: seq<Mark> := if Overflows(a, c, d) && a.hasLogo then [Logo(LogoSource(a))] else [];
    assert StepMarks(a, c, i, d) == sep + [pic] + [title] + [desc] + logo;
    LogosAppend(sep + [pic] + [title] + [desc], logo);
    LogosAppend(sep + [pic] + [title], [desc]);
    LogosAppend(sep + [pic], [title]);
    LogosAppend(sep, [pic]);
    LogosSingle(pic);
    LogosSingle(title);
    LogosSingle(desc);
    if i > 0 {
      LogosSingle(Separator(c - 6));
    }
    if logo != [] {
      LogosSingle(Logo(LogoSource(a)));
    }
  }

  /** From page `from` on, every finished page carries one logo and the current page none. */
  predicate LogoPerPage(pages: seq<seq<Mark>>, from: nat) {
    && pages != []
    && from < |pages|
    && (forall k :: from <= k < |pages| - 1 ==> Logos(pages[k]) == 1)
    && Logos(pages[|pages| - 1]) == 0
  }

  lemma StepKeepsLogos(a: Assets, st: Layout, i: nat, d: Drill, from: nat)
    requires a.hasLogo && LogoPerPage(st.pages, from)
    ensures LogoPerPage(DrillStep(a, st, i, d).pages, from)
  {
    var step := StepMarks(a, st.cursor, i, d);
    var p := DrawAll(st.pages, step);
    StepLogos(a, st.cursor, i, d);
    LogosAppend(st.pages[|st.pages| - 1], step);
    assert forall k :: 0 <= k < |p| - 1 ==> p[k] == st.pages[k];
    if Overflows(a, st.cursor, d) {
      var r := p + [[]];
      assert Logos([]) == 0;
      assert forall k :: 0 <= k < |p| ==> r[k] == p[k];
    }
  }

  lemma {:induction false} LayoutKeepsLogos(a: Assets, start: Layout, ds: seq<Drill>, from: nat)
    requires a.hasLogo && LogoPerPage(start.pages, from)
    ensures LogoPerPage(LayoutDrills(a, start, ds).pages, from)
  {
    if ds != [] {
      var n := |ds| - 1;
      LayoutKeepsLogos(a, start, ds[..n], from);
      StepKeepsLogos(a, LayoutDrills(a, start, ds[..n]), n, ds[n], from);
    }
  }

  /**
   * The exported document: one page for the cover when asked for, then one content page
   * more than the number of drills that ended a page (a drill that ends the last page
   * leaves a page with only the logo).
   */
  lemma DocumentPages(a: Assets, name: string, ds: seq<Drill>, includeCover: bool)
    ensures |Document(a, name, ds, includeCover)| == (if includeCover then 1 else 0) + 1 + Breaks(a, Top, ds)
    ensures includeCover ==> Document(a, name, ds, includeCover)[0] == [CoverMark(a, name)]
  {
    var first := FirstPages(a, name, includeCover);
    var start := Layout(first, Top);
    LayoutFollowsCursor(a, start, ds);
    var st := LayoutDrills(a, start, ds);
    if includeCover {
      assert st.pages[..1][0] == first[0];
      var doc := Document(a, name, ds, includeCover);
      assert doc[0] == st.pages[0] by {
        if a.hasLogo {
          assert doc[..|doc| - 1] == st.pages[..|st.pages| - 1];
          assert doc[..|doc| - 1][0] == doc[0];
        }
      }
    }
  }

  /** With a logo every content page carries exactly one logo and the cover none. */
  lemma DocumentLogos(a: Assets, name: string, ds: seq<Drill>, includeCover: bool)
    requires a.hasLogo
    ensures includeCover ==> Logos(Document(a, name, ds, includeCover)[0]) == 0
    ensures forall k :: (if includeCover then 1 else 0) <= k < |Document(a, name, ds, includeCover)| ==>
      Logos(Document(a, name, ds, includeCover)[k]) == 1
  {
    var from := if includeCover then 1 else 0;
    var start := Layout(FirstPages(a, name, includeCover), Top);
    var st := LayoutDrills(a, start, ds);
    assert Logos([]) == 0;
    LayoutKeepsLogos(a, start, ds, from);
    var logo := [Logo(LogoSource(a))];
    LogosAppend(st.pages[|st.pages| - 1], logo);
    assert Logos(logo) == 1;
    var doc := DrawAll(st.pages, logo);
    assert forall k :: 0 <= k < |doc| - 1 ==> doc[k] == st.pages[k];
    if includeCover {
      DocumentPages(a, name, ds, includeCover);
      assert Logos([CoverMark(a, name)]) == 0;
    }
  }

  /** The overflow test runs after the block is drawn: a drill whose description wraps to
      41 lines starts at the top of a page and reaches 28 + 262 = 290 mm, past the limit. */
  lemma BlockCanPassLimit(a: Assets, d: Drill)
    requires a.wrap(d.description) == 41
    ensures Overflows(a, Top, d)
    ensures Top + BlockHeight(a.wrap(d.description)) == 290
  {
  }

  // ---------------------------------------------------------------------------------------
  // The document object and the export as a method.

  /** The jsPDF document: its pages, the last one being the current page. */
  class PdfDocument {
    var pages: seq<seq<Mark>>

    /** `new jsPDF(...)`: one empty page. */
    constructor ()
      ensures pages == [[]]
    {
      pages := [[]];
    }

    /** `doc.addPage()` */
    method AddPage()
      modifies this
      ensures pages == old(pages) + [[]]
    {
      pages := pages + [[]];
    }

    /** Drawing (`doc.addImage`, `doc.text`, `doc.line`) on the current page. */
    method Draw(m: Mark)
      requires pages != []
      modifies this
      ensures pages == DrawAll(old(pages), [m])
    {
      pages := DrawAll(pages, [m]);
    }
  }

  /** Drawing the block of drill `i` at `cursor`: separator, picture, title, description. */
  method DrawBlock(doc: PdfDocument, a: Assets, cursor: int, i: nat, d: Drill)
    requires doc.pages != []
    modifies doc
    ensures doc.pages == DrawAll(old(doc.pages), BlockMarks(a, cursor, i, d))
  {
    ghost var before := doc.pages;
    ghost var drawn: seq<Mark> := [];
    if i > 0 {
      doc.Draw(Separator(cursor - 6));
      drawn := [Separator(cursor - 6)];
    } else {
      assert before[|before| - 1] + drawn == before[|before| - 1];
      assert before == before[..|before| - 1] + [before[|before| - 1]];
    }
    assert doc.pages == DrawAll(before, drawn);
    var pic := Picture(ImageSource(a, d), cursor);
    DrawAllSnoc(before, drawn, pic);
    doc.Draw(pic);
    drawn := drawn + [pic];
    var title := Title(i + 1, d.name, cursor + 6);
    DrawAllSnoc(before, drawn, title);
    doc.Draw(title);
    drawn := drawn + [title];
    var desc := Description(d.description, a.wrap(d.description), cursor + 14);
    DrawAllSnoc(before, drawn, desc);
    doc.Draw(desc);
    drawn := drawn + [desc];
    assert drawn == BlockMarks(a, cursor, i, d);
  }

  /** The body of the drill loop: draws drill `i` at `cursor` and returns the new cursor. */
  method DrawDrill(doc: PdfDocument, a: Assets, cursor: int, i: nat, d: Drill) returns (next: int)
    requires doc.pages != []
    modifies doc
    ensures Layout(doc.pages, next) == DrillStep(a, Layout(old(doc.pages), cursor), i, d)
  {
    ghost var before := doc.pages;
    DrawBlock(doc, a, cursor, i, d);
    next := cursor + BlockHeight(a.wrap(d.description));
    if next > BottomLimit {
      if a.hasLogo {
        DrawAllSnoc(before, BlockMarks(a, cursor, i, d), Logo(LogoSource(a)));
        doc.Draw(Logo(LogoSource(a)));
      } else {
        assert BlockMarks(a, cursor, i, d) + [] == BlockMarks(a, cursor, i, d);
      }
      doc.AddPage();
      next := Top;
    } else {
      assert BlockMarks(a, cursor, i, d) + [] == BlockMarks(a, cursor, i, d);
    }
  }

  /** A training as the export sees it: its name and its drills in order. */
  datatype PdfSession = PdfSession(name: string, drills: seq<Drill>)

  /** What `doc.save(fileName)` hands to the browser. */
  datatype PdfFile = PdfFile(fileName: string, pages: seq<seq<Mark>>)

  /** `new jsPDF(...)` followed by the cover page when asked for. */
  method NewDocument(a: Assets, name: string, includeCover: bool) returns (doc: PdfDocument)
    ensures fresh(doc)
    ensures doc.pages == FirstPages(a, name, includeCover)
  {
    doc := new PdfDocument();
    if includeCover {
      ghost var empty: seq<Mark> := [];
      assert DrawAll([empty], [CoverMark(a, name)]) == [empty + [CoverMark(a, name)]];
      assert empty + [CoverMark(a, name)] == [CoverMark(a, name)];
      doc.Draw(CoverMark(a, name));
      doc.AddPage();
    }
  }

  /** The drill loop: every drill drawn in turn from the top of the last page. */
  method DrawDrills(doc: PdfDocument, a: Assets, ds: seq<Drill>) returns (cursor: int)
    requires doc.pages != []
    modifies doc
    ensures Layout(doc.pages, cursor) == LayoutDrills(a, Layout(old(doc.pages), Top), ds)
  {
    cursor := Top;
    ghost var start := Layout(doc.pages, Top);
    var i := 0;
    while i < |ds|
      invariant 0 <= i <= |ds|
      invariant Layout(doc.pages, cursor) == LayoutDrills(a, start, ds[..i])
    {
      assert ds[..i + 1][..i] == ds[..i];
      cursor := DrawDrill(doc, a, cursor, i, ds[i]);
      i := i + 1;
    }
    assert ds[..i] == ds;
  }

  /**
   * `generatePdfForSession(session, includeCover)`: nothing for a missing session, else the
   * document laid out drill by drill, saved as `<name or 'training'>.pdf`.
   */
  method GeneratePdf(a: Assets, session: Option<PdfSession>, includeCover: bool) returns (out: Option<PdfFile>)
    ensures session.None? ==> out.None?
    ensures session.Some? ==> out == Some(PdfFile(FileName(session.value.name),
                                                  Document(a, session.value.name, session.value.drills, includeCover)))
  {
    if session.None? {
      return None;
    }
    var name := session.value.name;
    var ds := session.value.drills;
    var doc := NewDocument(a, name, includeCover);
    var cursor := DrawDrills(doc, a, ds);
    if a.hasLogo {
      doc.Draw(Logo(LogoSource(a)));
    }
    out := Some(PdfFile(FileName(name), doc.pages));
  }
}
