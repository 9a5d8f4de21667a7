/**
 * The shared-training page (SharedTraining.jsx), opened from a share link `/share/<id>-<slug>`:
 * the session is looked up by the number before the first dash, its drills are shown in an
 * order that can be changed by drag and drop, each with a picture carousel, and it can be
 * saved as a new session of one's own or exported as a PDF.
 */
module Shared {
  import opened Wrappers
  import opened Text
  import opened Drills
  import Storage
  import Reorder
  import Carousel
  import Pdf
  import Trainings

  /** `raw.split('-')[0]`: the text before the first dash (all of it when there is none). */
  function BeforeFirstDash(s: string): (r: string)
    ensures |r| <= |s| && r == s[..|r|]
    ensures forall k :: 0 <= k < |r| ==> r[k] != '-'
    ensures |r| < |s| ==> s[|r|] == '-'
  {
    if s == [] || s[0] == '-' then [] else [s[0]] + BeforeFirstDash(s[1..])
  }

  /** `parseInt(String(id || '').split('-')[0], 10)`; `None` is `NaN`. */
  function SharedId(route: string): Option<int> {
    JsParseInt(BeforeFirstDash(route), Base10)
  }

  /** The session as the page holds it: the stored record with its ids resolved. */
  datatype SharedSession = SharedSession(id: int, name: string, drills: seq<Drill>)

  function SharedOf(s: SavedSession, catalog: seq<Drill>): SharedSession {
    SharedSession(s.id, s.name, Resolve(catalog, s.drills))
  }

  /**
   * The loading effect: no session (the not-found view) when the stored entry does not
   * parse, when the route holds no number, or when no stored session has that number;
   * otherwise the first stored session with it.
   */
  function LoadShared(raw: Option<seq<SavedSession>>, catalog: seq<Drill>, route: string): (r: Option<SharedSession>)
    ensures raw.None? || SharedId(route).None? ==> r.None?
    ensures raw.Some? && SharedId(route).Some? ==>
              match Storage.FindSession(raw.value, SharedId(route).value)
              case None => r.None?
              case Some(s) => r == Some(SharedOf(s, catalog))
  {
    match raw
    case None => None
    case Some(sessions) =>
      match SharedId(route)
      case None => None
      case Some(sid) =>
        match Storage.FindSession(sessions, sid)
        case None => None
        case Some(s) => Some(SharedOf(s, catalog))
  }

  lemma {:induction false} BeforeFirstDashAppend(a: string, rest: string)
    requires forall k :: 0 <= k < |a| ==> a[k] != '-'
    requires rest == [] || rest[0] == '-'
    ensures BeforeFirstDash(a + rest) == a
  {
    if a == [] {
      assert a + rest == rest;
    } else {
      assert (a + rest)[1..] == a[1..] + rest;
      BeforeFirstDashAppend(a[1..], rest);
    }
  }

  /** The id written into a share link is read back from it, whatever follows the id as long
      as it starts with a dash: the slug, an empty slug, or nothing at all. */
  lemma ShareIdRoundTrip(id: int, rest: string)
    requires id >= 0
    requires rest == [] || rest[0] == '-'
    ensures SharedId(IntToString(id) + rest) == Some(id)
  {
    BeforeFirstDashAppend(IntToString(id), rest);
    ParseIntOfString(id, Base10);
  }

  /** A negative id is not read back: its minus sign is taken for the slug separator. */
  lemma NegativeIdNotRecovered(id: int, rest: string)
    requires id < 0
    ensures SharedId(IntToString(id) + rest) == None
  {
    assert BeforeFirstDash(IntToString(id) + rest) == [];
  }

  /** Following the share link of a saved session (with a non-negative id) on the same
      storage opens that session, its drills resolved against the catalogue. */
  lemma ShareLinkOpensSession(sessions: seq<SavedSession>, catalog: seq<Drill>, id: int)
    requires id >= 0
    requires Storage.FindSession(sessions, id).Some?
    ensures LoadShared(Some(sessions), catalog, Trainings.ShareSegment(sessions, id))
            == Some(SharedOf(Storage.FindSession(sessions, id).value, catalog))
  {
    var seg := Trainings.ShareSegment(sessions, id);
    var n := |IntToString(id)|;
    assert seg == IntToString(id) + seg[n..];
    ShareIdRoundTrip(id, seg[n..]);
  }

  /** The share link of a saved session (with a non-negative id) opens that session: the
      route parameter after `/share/` loads it from the same storage, its drills resolved
      against the catalogue. */
  lemma ShareUrlOpensSession(origin: string, sessions: seq<SavedSession>, catalog: seq<Drill>, id: int)
    requires id >= 0
    requires Storage.FindSession(sessions, id).Some?
    ensures var url := Trainings.ShareUrl(origin, sessions, id);
            LoadShared(Some(sessions), catalog, url[|origin| + 7..])
            == Some(SharedOf(Storage.FindSession(sessions, id).value, catalog))
  {
    var url := Trainings.ShareUrl(origin, sessions, id);
    assert url[|origin| + 7..] == Trainings.ShareSegment(sessions, id);
    ShareLinkOpensSession(sessions, catalog, id);
  }

  /** `idxs[d.id] = 0` for every drill: every carousel starts at its first picture. */
  function InitialIdxs(drills: seq<Drill>): (m: map<int, int>)
    ensures forall id :: id in m <==> HasId(drills, id)
    ensures forall id :: id in m ==> m[id] == 0
  {
    var r := map id | id in Ids(drills) :: 0;
    assert forall id :: id in Ids(drills) <==> HasId(drills, id) by {
      forall id | HasId(drills, id) ensures id in Ids(drills) {
        var k :| 0 <= k < |drills| && drills[k].id == id;
        assert Ids(drills)[k] == id;
      }
    }
    r
  }

  /** The carousel indexes the page starts with: none without a session. */
  function StartIdxs(session: Option<SharedSession>): map<int, int> {
    match session
    case Some(sh) => InitialIdxs(sh.drills)
    case None => map[]
  }

  class SharedPage {
    var session: Option<SharedSession>
    var imageIdxs: map<int, int>
    var dragged: Option<int>
    var saveName: string
    var saveModal: bool
    var message: string
    const store: Storage.SessionStore
    const catalog: seq<Drill>

    /** The page opened on `route`, loading the session from storage. */
    constructor (store: Storage.SessionStore, catalog: seq<Drill>, route: string, defaultName: string)
      ensures this.store == store && this.catalog == catalog
      ensures session == LoadShared(store.raw, catalog, route)
      ensures imageIdxs == StartIdxs(session)
      ensures dragged.None? && saveName == defaultName && !saveModal && message == ""
    {
      this.store := store;
      this.catalog := catalog;
      var loaded := LoadShared(store.raw, catalog, route);
      session := loaded;
      imageIdxs := StartIdxs(loaded);
      dragged := None;
      saveName := defaultName;
      saveModal := false;
      message := "";
    }

    /** `handleDragStart(e, index)` */
    method DragStart(index: int)
      modifies this
      ensures dragged == Some(index)
      ensures session == old(session) && imageIdxs == old(imageIdxs)
      ensures saveName == old(saveName) && saveModal == old(saveModal) && message == old(message)
    {
      dragged := Some(index);
    }

    /**
     * `handleDrop(e, dropIndex)`: without a dragged row, or on the row itself, only the
     * dragged index is reset; otherwise the dragged drill moves to `drop` (when a session is
     * shown) and the dragged index is reset.
     */
    method HandleDrop(drop: int)
      requires session.Some? ==> 0 <= drop < |session.value.drills|
      requires session.Some? && dragged.Some? ==> 0 <= dragged.value < |session.value.drills|
      modifies this
      ensures dragged.None?
      ensures session.None? <==> old(session).None?
      ensures session.Some? ==>
                session.value == old(session).value.(drills := Reorder.Dropped(old(session).value.drills, old(dragged), drop))
      ensures imageIdxs == old(imageIdxs)
      ensures saveName == old(saveName) && saveModal == old(saveModal) && message == old(message)
    {
      if dragged.None? || dragged.value == drop {
        dragged := None;
        return;
      }
      if session.Some? {
        var s := session.value;
        session := Some(s.(drills := Reorder.Move(s.drills, dragged.value, drop)));
      }
      dragged := None;
    }

    /** `prevImg`/`nextImg` of the row of `d`, offered when it has more than one picture:
        only that drill's index moves, and it stays a picture index. */
    method StepImage(d: Drill, forward: bool)
      requires |NormalizePictures(d.picture)| > 1
      requires d.id in imageIdxs ==> 0 <= imageIdxs[d.id] < |NormalizePictures(d.picture)|
      modifies this
      ensures imageIdxs == Carousel.Stepped(old(imageIdxs), d.id, |NormalizePictures(d.picture)|, forward)
      ensures session == old(session) && dragged == old(dragged)
      ensures saveName == old(saveName) && saveModal == old(saveModal) && message == old(message)
    {
      imageIdxs := Carousel.Stepped(imageIdxs, d.id, |NormalizePictures(d.picture)|, forward);
    }

    /**
     * The save button of the save dialog (the page shows a session): the trimmed name must
     * not be blank; the record gets the ids of the drills in the order shown. A successful
     * save closes the dialog.
     */
    method Save(now: int)
      requires session.Some?
      modifies this, store
      ensures session == old(session) && saveName == old(saveName)
      ensures dragged == old(dragged) && imageIdxs == old(imageIdxs)
      ensures var name := Trim(old(saveName));
              && (name == [] ==> store.raw == old(store.raw) && message == "Geef een naam op" && saveModal == old(saveModal))
              && (name != [] && old(store.raw).None? ==>
                    store.raw == old(store.raw) && message == "Fout bij opslaan" && saveModal == old(saveModal))
              && (name != [] && old(store.raw).Some? ==>
                    store.raw == Some(old(store.raw).value + [SavedSession(now, name, Ids(session.value.drills))])
                    && message == "Training opgeslagen" && !saveModal)
    {
      var outcome := store.Save(saveName, Ids(session.value.drills), now);
      if outcome == Storage.Saved {
        saveModal := false;
      }
      message := Storage.SaveMessage(outcome);
    }

    /** `generatePdfForSession(session, includeCover)` on the drills as shown. */
    method ExportPdf(a: Pdf.Assets, includeCover: bool) returns (out: Option<Pdf.PdfFile>)
      ensures session.None? ==> out.None?
      ensures session.Some? ==>
        out == Some(Pdf.PdfFile(Pdf.FileName(session.value.name),
                                Pdf.Document(a, session.value.name, session.value.drills, includeCover)))
    {
      var pdfSession := match session
                        case Some(s) => Some(Pdf.PdfSession(s.name, s.drills))
                        case None => None;
      out := Pdf.GeneratePdf(a, pdfSession, includeCover);
    }
  }
}
