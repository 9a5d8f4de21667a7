/**
 * The saved-trainings page (Trainings.jsx): the list of saved sessions with delete, edit
 * (load into the cart), share link, usage counts per drill, and the PDF export.
 */
module Trainings {
  import opened Wrappers
  import opened Text
  import opened Drills
  import Seqs
  import Slug
  import Storage
  import Cart
  import Pdf

  // ---------------------------------------------------------------------------------------
  // Share links.

  /**
   * The part of the share path after `/share/`: the session id, followed by a dash and the
   * slug of the session's name when a saved session has that id.
   */
  function ShareSegment(sessions: seq<SavedSession>, id: int): (r: string)
    ensures |r| >= |IntToString(id)| && r[..|IntToString(id)|] == IntToString(id)
    ensures Storage.FindSession(sessions, id).None? ==> r == IntToString(id)
    ensures Storage.FindSession(sessions, id).Some? ==>
              r[|IntToString(id)|..] == "-" + Slug.MakeSlug(Storage.FindSession(sessions, id).value.name)
  {
    var slugPart := match Storage.FindSession(sessions, id)
                    case Some(s) => "-" + Slug.MakeSlug(s.name)
                    case None => "";
    IntToString(id) + slugPart
  }

  /** The segment holds no `/`: the id is a sign and digits, the slug lower-case letters,
      digits and dashes. */
  lemma ShareSegmentNoSlash(sessions: seq<SavedSession>, id: int)
    ensures forall k :: 0 <= k < |ShareSegment(sessions, id)| ==> ShareSegment(sessions, id)[k] != '/'
  {
    var num := IntToString(id);
    assert forall k :: 0 <= k < |num| ==> num[k] != '/';
    match Storage.FindSession(sessions, id)
    case None =>
    case Some(s) =>
      var slug := Slug.MakeSlug(s.name);
      Slug.SlugShape(s.name);
      assert ShareSegment(sessions, id) == num + "-" + slug;
      NoSlashJoin(num, slug);
  }

  /** An id followed by a dash and a slug holds no `/`. */
  lemma NoSlashJoin(num: string, slug: string)
    requires forall k :: 0 <= k < |num| ==> num[k] != '/'
    requires forall k :: 0 <= k < |slug| ==> Slug.IsSlugChar(slug[k])
    ensures forall k :: 0 <= k < |num + "-" + slug| ==> (num + "-" + slug)[k] != '/'
  {
  }

  /**
   * `(window.location.origin || '') + '/share/' + id + slugPart`: a link to the share route
   * on the origin whose one route parameter, everything after `/share/`, holds no further
   * `/` (so the router hands all of it to the shared-training page).
   */
  function ShareUrl(origin: string, sessions: seq<SavedSession>, id: int): (r: string)
    ensures |r| >= |origin| + 7 && r[..|origin| + 7] == origin + "/share/"
    ensures forall k :: |origin| + 7 <= k < |r| ==> r[k] != '/'
  {
    ShareSegmentNoSlash(sessions, id);
    origin + "/share/" + ShareSegment(sessions, id)
  }

  // ---------------------------------------------------------------------------------------
  // Usage counts.

  /** The drill ids of all sessions, session after session (`s.drills || []` each). */
  function AllDrillIds(sessions: seq<SavedSession>): seq<int> {
    if sessions == [] then []
    else AllDrillIds(sessions[..|sessions| - 1]) + sessions[|sessions| - 1].drills
  }

  /** `map[id] = (map[id] || 0) + 1` for every id in turn. */
  function Tally(ids: seq<int>): map<int, int> {
    if ids == [] then map[]
    else
      var m := Tally(ids[..|ids| - 1]);
      var x := ids[|ids| - 1];
      m[x := (if x in m then m[x] else 0) + 1]
  }

  /** Every id that occurs has an entry, and nothing else; an entry is the number of
      occurrences, repeats included. */
  lemma {:induction false} TallyCounts(ids: seq<int>)
    ensures forall id :: id in Tally(ids) <==> id in ids
    ensures forall id :: id in Tally(ids) ==> Tally(ids)[id] == Seqs.Count(ids, id)
  {
    if ids != [] {
      var init := ids[..|ids| - 1];
      var x := ids[|ids| - 1];
      TallyCounts(init);
      assert ids == init + [x];
      forall id ensures Seqs.Count(ids, id) == Seqs.Count(init, id) + (if id == x then 1 else 0) {
        Seqs.CountAppend(init, [x], id);
      }
    }
  }

  /** Counting one more id adds one to its entry. */
  lemma TallySnoc(ids: seq<int>, id: int)
    ensures Tally(ids + [id]) == Tally(ids)[id := (if id in Tally(ids) then Tally(ids)[id] else 0) + 1]
  {
    assert (ids + [id])[..|ids|] == ids;
  }

  /** The drill ids of the first `i + 1` sessions: those of the first `i`, then the next
      session's. */
  lemma AllDrillIdsStep(sessions: seq<SavedSession>, i: nat)
    requires i < |sessions|
    ensures AllDrillIds(sessions[..i + 1]) == AllDrillIds(sessions[..i]) + sessions[i].drills
  {
    assert sessions[..i + 1][..i] == sessions[..i];
  }

  /** The inner loop of `drillUsage`: the ids of one session counted on top of the tally of
      the ids `before` them. */
  method TallyInto(usage0: map<int, int>, ghost before: seq<int>, ids: seq<int>) returns (usage: map<int, int>)
    requires usage0 == Tally(before)
    ensures usage == Tally(before + ids)
  {
    usage := usage0;
    var j := 0;
    assert before + ids[..0] == before;
    while j < |ids|
      invariant 0 <= j <= |ids|
      invariant usage == Tally(before + ids[..j])
    {
      var id := ids[j];
      assert before + ids[..j + 1] == (before + ids[..j]) + [id];
      TallySnoc(before + ids[..j], id);
      usage := usage[id := (if id in usage then usage[id] else 0) + 1];
      j := j + 1;
    }
    assert ids[..j] == ids;
  }

  /** Some element of a non-empty set. */
  ghost function Pick<T>(keys: set<T>): T
    requires keys != {}
  {
    var k :| k in keys; k
  }

  /** The sum of the values of a map. */
  ghost function SumValues(m: map<int, int>): int
    decreases |m.Keys|
  {
    if m.Keys == {} then 0
    else
      var k := Pick(m.Keys);
      assert (m - {k}).Keys == m.Keys - {k};
      m[k] + SumValues(m - {k})
  }

  /** The sum does not depend on the order in which the keys are taken. */
  lemma {:induction false} SumRemove(m: map<int, int>, k: int)
    requires k in m
    ensures SumValues(m) == m[k] + SumValues(m - {k})
    decreases |m.Keys|
  {
    var j := Pick(m.Keys);
    assert SumValues(m) == m[j] + SumValues(m - {j});
    if j != k {
      var mj := m - {j};
      var mk := m - {k};
      assert mj.Keys == m.Keys - {j} && k in mj && mj[k] == m[k];
      assert mk.Keys == m.Keys - {k} && j in mk && mk[j] == m[j];
      SumRemove(mj, k);
      SumRemove(mk, j);
      assert (mj - {k}).Keys == (mk - {j}).Keys;
      assert mj - {k} == mk - {j};
    }
  }

  /** The counts add up to the number of ids counted. */
  lemma {:induction false} TallySum(ids: seq<int>)
    ensures SumValues(Tally(ids)) == |ids|
  {
    if ids != [] {
      var init := ids[..|ids| - 1];
      var x := ids[|ids| - 1];
      TallySum(init);
      var m := Tally(init);
      var m' := Tally(ids);
      SumRemove(m', x);
      assert m' - {x} == m - {x};
      if x in m {
        SumRemove(m, x);
      } else {
        assert m - {x} == m;
      }
    }
  }

  /** Usage of all saved sessions: each drill id maps to the number of times it occurs in
      the sessions, repeats included, and the counts add up to the total length of their
      drill lists. */
  lemma UsageCounts(sessions: seq<SavedSession>)
    ensures forall id :: id in Tally(AllDrillIds(sessions)) <==> exists k :: 0 <= k < |sessions| && id in sessions[k].drills
    ensures forall id :: id in Tally(AllDrillIds(sessions)) ==>
              Tally(AllDrillIds(sessions))[id] == Seqs.Count(AllDrillIds(sessions), id)
    ensures SumValues(Tally(AllDrillIds(sessions))) == |AllDrillIds(sessions)|
  {
    TallyCounts(AllDrillIds(sessions));
    TallySum(AllDrillIds(sessions));
    AllDrillIdsMembers(sessions);
  }

  lemma {:induction false} AllDrillIdsMembers(sessions: seq<SavedSession>)
    ensures forall id :: id in AllDrillIds(sessions) <==> exists k :: 0 <= k < |sessions| && id in sessions[k].drills
  {
    if sessions != [] {
      var n := |sessions| - 1;
      AllDrillIdsMembers(sessions[..n]);
      forall id | id in AllDrillIds(sessions)
        ensures exists k :: 0 <= k < |sessions| && id in sessions[k].drills
      {
        assert AllDrillIds(sessions) == AllDrillIds(sessions[..n]) + sessions[n].drills;
        if id !in sessions[n].drills {
          assert id in AllDrillIds(sessions[..n]);
          var k :| 0 <= k < n && id in sessions[..n][k].drills;
          assert sessions[k] == sessions[..n][k];
        }
      }
      forall id | exists k :: 0 <= k < |sessions| && id in sessions[k].drills
        ensures id in AllDrillIds(sessions)
      {
        var k :| 0 <= k < |sessions| && id in sessions[k].drills;
        if k < n {
          assert sessions[..n][k] == sessions[k];
        }
      }
    }
  }

  // ---------------------------------------------------------------------------------------
  // Editing a session.

  /** Loading a session into an empty cart one drill at a time gives a cart without repeated
      ids that holds exactly the session's ids that the catalogue knows. */
  lemma EditedCart(catalog: seq<Drill>, ids: seq<int>)
    ensures UniqueIds(Cart.AddedAll([], Resolve(catalog, ids)))
    ensures forall id :: HasId(Cart.AddedAll([], Resolve(catalog, ids)), id) <==> id in ids && HasId(catalog, id)
  {
    var ds := Resolve(catalog, ids);
    Cart.AddedAllContents([], ds);
    ResolveKeepsKnownIds(catalog, ids);
    forall id ensures HasId(ds, id) <==> id in Ids(ds) {
      if HasId(ds, id) {
        var k :| 0 <= k < |ds| && ds[k].id == id;
        assert Ids(ds)[k] == id;
      }
    }
  }

  // ---------------------------------------------------------------------------------------
  // Viewing a session, and exporting it from the view dialog.

  /** A session as the view dialog holds it (`{ ...session, drills }`): the stored drill ids
      replaced by the catalogue records they resolve to. */
  datatype ViewedSession = ViewedSession(id: int, name: string, drills: seq<Drill>)

  /** `handleView(session)`: the viewed session keeps the id and the name, and its drills
      are the records of exactly the known ids, in order and with repeats. */
  function Viewed(catalog: seq<Drill>, s: SavedSession): (v: ViewedSession)
    ensures v.id == s.id && v.name == s.name
    ensures Ids(v.drills) == Seqs.Filter(s.drills, KnownIn(catalog))
  {
    ResolveKeepsKnownIds(catalog, s.drills);
    ViewedSession(s.id, s.name, Resolve(catalog, s.drills))
  }

  /** A value of a session's `drills` list as the export reads it: a stored id, or, in the
      viewed session, a drill record. */
  datatype Entry = IdEntry(id: int) | RecordEntry(drill: Drill)

  /** `drillsData.find(d => d.id === v)`: strict equality holds between equal numbers and
      never between a number and a record. */
  function FindEntry(catalog: seq<Drill>, v: Entry): Option<Drill> {
    match v
    case IdEntry(id) => FindDrill(catalog, id)
    case RecordEntry(_) => None
  }

  /** `(session.drills || []).map(id => drillsData.find(...)).filter(Boolean)` on any entries:
      the found records, in order, never more than there are entries. */
  function ResolveEntries(catalog: seq<Drill>, vs: seq<Entry>): (r: seq<Drill>)
    ensures |r| <= |vs|
  {
    if vs == [] then []
    else
      match FindEntry(catalog, vs[0])
      case Some(d) => [d] + ResolveEntries(catalog, vs[1..])
      case None => ResolveEntries(catalog, vs[1..])
  }

  /** The drills of a viewed session as the export sees them: records, not ids. */
  function Records(ds: seq<Drill>): (vs: seq<Entry>)
    ensures |vs| == |ds| && forall k :: 0 <= k < |ds| ==> vs[k] == RecordEntry(ds[k])
  {
    seq(|ds|, k requires 0 <= k < |ds| => RecordEntry(ds[k]))
  }

  /** The export button of the view dialog as written: the viewed session goes to the same
      export as a stored one, which looks its drills up once more, now by record. */
  function ViewedExportAsWritten(a: Pdf.Assets, catalog: seq<Drill>, v: ViewedSession, includeCover: bool): Pdf.PdfFile {
    Pdf.PdfFile(Pdf.FileName(v.name),
                Pdf.Document(a, v.name, ResolveEntries(catalog, Records(v.drills)), includeCover))
  }

  /** No record is found by `d.id === record`. */
  lemma {:induction false} RecordsNotFound(catalog: seq<Drill>, ds: seq<Drill>)
    ensures ResolveEntries(catalog, Records(ds)) == []
  {
    if ds != [] {
      assert Records(ds)[1..] == Records(ds[1..]);
      RecordsNotFound(catalog, ds[1..]);
    }
  }

  /** Exporting from the view dialog as written draws a document without a single drill:
      only the cover (when asked for), one page and its logo, and no drill titles. */
  lemma ViewedExportDropsDrills(a: Pdf.Assets, catalog: seq<Drill>, s: SavedSession, includeCover: bool)
    ensures ViewedExportAsWritten(a, catalog, Viewed(catalog, s), includeCover).pages
            == Pdf.Document(a, s.name, [], includeCover)
    ensures Pdf.Titles(Pdf.LoopMarks(a, Pdf.Top, ResolveEntries(catalog, Records(Viewed(catalog, s).drills)))) == []
  {
    RecordsNotFound(catalog, Viewed(catalog, s).drills);
  }

  /** The intended export from the view dialog, on the drills it already shows, gives the
      document the list's export button gives for the same stored session; drill `k` of it is
      titled `k + 1` and the name of the `k`-th drill the session's ids resolve to. */
  lemma ViewedExportMatchesList(a: Pdf.Assets, catalog: seq<Drill>, s: SavedSession, includeCover: bool)
    ensures var v := Viewed(catalog, s);
            Pdf.Document(a, v.name, v.drills, includeCover) == Pdf.Document(a, s.name, Resolve(catalog, s.drills), includeCover)
    ensures var ds := Resolve(catalog, s.drills);
            Pdf.Titles(Pdf.LoopMarks(a, Pdf.Top, Viewed(catalog, s).drills))
            == seq(|ds|, k requires 0 <= k < |ds| => (k + 1, ds[k].name))
  {
    Pdf.TitlesNumbered(a, Pdf.Top, Resolve(catalog, s.drills));
  }

  /** `drillUsage`: the stored sessions are read (none when the entry does not parse) and
      every drill id of every session is counted. The page runs this once, when it mounts. */
  method DrillUsage(store: Storage.SessionStore) returns (usage: map<int, int>)
    ensures usage == Tally(AllDrillIds(store.Sessions()))
  {
    var all := store.Sessions();
    usage := map[];
    var i := 0;
    while i < |all|
      invariant 0 <= i <= |all|
      invariant usage == Tally(AllDrillIds(all[..i]))
    {
      usage := TallyInto(usage, AllDrillIds(all[..i]), all[i].drills);
      AllDrillIdsStep(all, i);
      i := i + 1;
    }
    assert all[..i] == all;
  }

  /** The counts taken at mount go stale: deleting the only session, which holds drill 7,
      leaves a store whose tally is empty, while the page still shows drill 7 used once. */
  lemma UsageStaleAfterDelete()
    ensures var sessions := [SavedSession(1, "a", [7])];
            Tally(AllDrillIds(sessions)) == map[7 := 1] &&
            Tally(AllDrillIds(Storage.WithoutSession(sessions, 1))) == map[]
  {
    var sessions := [SavedSession(1, "a", [7])];
    assert Storage.WithoutSession(sessions, 1) == [];
    assert AllDrillIds(sessions) == [7] by {
      assert sessions[..0] == [];
    }
    assert Tally([7]) == map[7 := 1] by {
      assert [7][..0] == [];
    }
  }

  // ---------------------------------------------------------------------------------------
  // The page.

  class TrainingsPage {
    /** The sessions shown (state loaded once from storage). */
    var sessions: seq<SavedSession>
    /** The session shown in the view dialog, if any. */
    var viewSession: Option<ViewedSession>
    /** The usage counts shown in the view dialog, tallied once when the page mounts
        (`useMemo` with no dependencies): later deletions do not refresh them. */
    var usage: map<int, int>
    const store: Storage.SessionStore
    const catalog: seq<Drill>

    /** The initial list: the stored sessions, or none when the entry does not parse. */
    constructor (store: Storage.SessionStore, catalog: seq<Drill>)
      ensures sessions == store.Sessions() && viewSession.None?
      ensures usage == Tally(AllDrillIds(store.Sessions()))
      ensures this.store == store && this.catalog == catalog
    {
      var counts := DrillUsage(store);
      this.store := store;
      this.catalog := catalog;
      sessions := store.Sessions();
      viewSession := None;
      usage := counts;
    }

    /** `handleDelete(id)`: every session with that id goes, the others stay in order, and
        the remaining list is written to storage. The usage counts are not recomputed. */
    method HandleDelete(id: int)
      modifies this, store
      ensures sessions == Storage.WithoutSession(old(sessions), id)
      ensures store.raw == Some(sessions)
      ensures viewSession == old(viewSession) && usage == old(usage)
    {
      var remaining := Storage.WithoutSession(sessions, id);
      store.Write(remaining);
      sessions := remaining;
    }

    /** `handleEdit(session)`: the cart is cleared and every resolved drill of the session is
        added in order. */
    method HandleEdit(cart: Cart.CartStore, session: SavedSession)
      modifies cart
      ensures cart.selected == Cart.AddedAll([], Resolve(catalog, session.drills))
    {
      cart.ClearCart();
      var drills := Resolve(catalog, session.drills);
      var i := 0;
      while i < |drills|
        invariant 0 <= i <= |drills|
        invariant cart.selected == Cart.AddedAll([], drills[..i])
      {
        assert drills[..i + 1][..i] == drills[..i];
        cart.AddDrill(drills[i]);
        i := i + 1;
      }
      assert drills[..i] == drills;
    }

    /** `handleView(session)`: the dialog opens on the session with its drills resolved. */
    method HandleView(session: SavedSession)
      modifies this
      ensures viewSession == Some(Viewed(catalog, session))
      ensures sessions == old(sessions) && usage == old(usage)
    {
      viewSession := Some(Viewed(catalog, session));
    }

    /** `closeView` */
    method CloseView()
      modifies this
      ensures viewSession.None? && sessions == old(sessions) && usage == old(usage)
    {
      viewSession := None;
    }

    /** The export button of the view dialog, as intended: the drills the dialog shows,
        without a second look-up. */
    method ExportViewed(a: Pdf.Assets, includeCover: bool) returns (out: Option<Pdf.PdfFile>)
      ensures viewSession.None? ==> out.None?
      ensures viewSession.Some? ==>
        out == Some(Pdf.PdfFile(Pdf.FileName(viewSession.value.name),
                                Pdf.Document(a, viewSession.value.name, viewSession.value.drills, includeCover)))
    {
      var pdfSession := match viewSession
                        case Some(v) => Some(Pdf.PdfSession(v.name, v.drills))
                        case None => None;
      out := Pdf.GeneratePdf(a, pdfSession, includeCover);
    }

    /** The PDF export of a saved session from the list: its drill ids resolved against the
        catalogue. */
    method ExportPdf(a: Pdf.Assets, session: Option<SavedSession>, includeCover: bool) returns (out: Option<Pdf.PdfFile>)
      ensures session.None? ==> out.None?
      ensures session.Some? ==>
        out == Some(Pdf.PdfFile(Pdf.FileName(session.value.name),
                                Pdf.Document(a, session.value.name, Resolve(catalog, session.value.drills), includeCover)))
    {
      var pdfSession := match session
                        case Some(s) => Some(Pdf.PdfSession(s.name, Resolve(catalog, s.drills)))
                        case None => None;
      out := Pdf.GeneratePdf(a, pdfSession, includeCover);
    }
  }
}
