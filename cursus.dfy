/**
 * The course page (Cursus.jsx): one card per course item, with a label for the item's kind,
 * the link target (a bundled document, a file under the public assets, or the item's own
 * address) and exactly one action link.
 */
module Cursus {
  import opened Wrappers
  import opened Text
  import Drills

  /** A course item; `kind` and `data` may be missing. */
  datatype Item = Item(name: string, description: string, kind: Option<string>, data: Option<string>)

  /** The action links a card can carry. */
  datatype Action = OpenSite | OpenDocument | OpenExternDocument | Open

  function ActionCaption(a: Action): (caption: string)
    ensures caption != ""
  {
    match a
    case OpenSite => "Open site"
    case OpenDocument => "Open document"
    case OpenExternDocument => "Open extern document"
    case Open => "Open"
  }

  const KnownKinds: seq<string> := ["link", "int-doc", "ext-doc"]

  /** `typeLabel(t)`: fixed labels for the three known kinds, in any case; any other value
      is shown as it is. */
  function TypeLabel(t: string): (caption: string)
    ensures ToLower(t) == "link" ==> caption == "Extern"
    ensures ToLower(t) == "int-doc" ==> caption == "Document (intern)"
    ensures ToLower(t) == "ext-doc" ==> caption == "Extern document"
    ensures ToLower(t) !in KnownKinds ==> caption == t
  {
    var lower := ToLower(t);
    if lower == "link" then "Extern"
    else if lower == "int-doc" then "Document (intern)"
    else if lower == "ext-doc" then "Extern document"
    else t
  }

  /** `(item.type || '').toLowerCase()` */
  function ItemKind(item: Item): (kind: string)
    ensures ToLower(kind) == kind
    ensures item.kind.None? ==> kind == ""
    ensures item.kind.Some? ==> kind == ToLower(item.kind.value)
  {
    ToLowerIdempotent(item.kind.GetOr(""));
    ToLower(item.kind.GetOr(""))
  }

  /** `${item.data}` in a template: the text, or `undefined` when it is missing. */
  function DataText(data: Option<string>): string {
    match data
    case Some(s) => s
    case None => "undefined"
  }

  /**
   * The link target: for a bundled document (`int-doc`) the asset of that file when the
   * document map has a non-empty one, else the file under `/assets/cursusses/` of the public
   * address; for every other kind the item's data, or nothing.
   */
  function Href(item: Item, docMap: map<string, string>, publicUrl: string): (href: string)
    ensures ItemKind(item) != "int-doc" ==> href == item.data.GetOr("")
    ensures ItemKind(item) == "int-doc" && Drills.Lookup(docMap, DataText(item.data)).Some? ==>
              href == docMap[DataText(item.data)]
    ensures ItemKind(item) == "int-doc" && Drills.Lookup(docMap, DataText(item.data)).None? ==>
              href == publicUrl + "/assets/cursusses/" + DataText(item.data)
  {
    if ItemKind(item) == "int-doc" then
      match Drills.Lookup(docMap, DataText(item.data))
      case Some(asset) => asset
      case None => publicUrl + "/assets/cursusses/" + DataText(item.data)
    else item.data.GetOr("")
  }

  /** The links rendered for a kind: each of the four conditions adds its link. */
  function Links(kind: string): seq<Action> {
    (if kind == "link" then [OpenSite] else [])
    + (if kind == "int-doc" then [OpenDocument] else [])
    + (if kind == "ext-doc" then [OpenExternDocument] else [])
    + (if kind !in KnownKinds then [Open] else [])
  }

  /** Exactly one link is rendered for every kind, and it is the one of that kind. */
  lemma OneLink(kind: string)
    ensures |Links(kind)| == 1
    ensures kind == "link" <==> Links(kind) == [OpenSite]
    ensures kind == "int-doc" <==> Links(kind) == [OpenDocument]
    ensures kind == "ext-doc" <==> Links(kind) == [OpenExternDocument]
    ensures kind !in KnownKinds <==> Links(kind) == [Open]
  {
    if kind == "link" {
      assert Links(kind) == [OpenSite];
    } else if kind == "int-doc" {
      assert Links(kind) == [OpenDocument];
    } else if kind == "ext-doc" {
      assert Links(kind) == [OpenExternDocument];
    } else {
      assert kind !in KnownKinds;
      assert Links(kind) == [Open];
    }
  }

  /** The card of an item. */
  datatype Card = Card(caption: string, name: string, description: string, href: string, links: seq<Action>)

  function CardOf(item: Item, docMap: map<string, string>, publicUrl: string): Card {
    var kind := ItemKind(item);
    Card(TypeLabel(kind), item.name, item.description, Href(item, docMap, publicUrl), Links(kind))
  }

  /** The page: `cursusses.map(...)`, one card per item in order. */
  function Cards(items: seq<Item>, docMap: map<string, string>, publicUrl: string): (cards: seq<Card>)
    ensures |cards| == |items|
    ensures forall k :: 0 <= k < |items| ==> cards[k] == CardOf(items[k], docMap, publicUrl)
  {
    seq(|items|, k requires 0 <= k < |items| => CardOf(items[k], docMap, publicUrl))
  }

  /** Every card carries one link, and a label that is one of the three fixed labels or the
      item's own (lower-cased) kind. */
  lemma CardShape(item: Item, docMap: map<string, string>, publicUrl: string)
    ensures |CardOf(item, docMap, publicUrl).links| == 1
    ensures var caption := CardOf(item, docMap, publicUrl).caption;
            caption in ["Extern", "Document (intern)", "Extern document"] || caption == ItemKind(item)
    ensures ItemKind(item) !in KnownKinds ==> CardOf(item, docMap, publicUrl).caption == ItemKind(item)
  {
    OneLink(ItemKind(item));
  }

  /** The card does not depend on the case of the item's type: two items whose types agree
      up to case, with the same data, get the same label, target and links. */
  lemma CardIgnoresCase(a: Item, b: Item, docMap: map<string, string>, publicUrl: string)
    requires ToLower(a.kind.GetOr("")) == ToLower(b.kind.GetOr("")) && a.data == b.data
    ensures CardOf(a, docMap, publicUrl).caption == CardOf(b, docMap, publicUrl).caption
    ensures CardOf(a, docMap, publicUrl).href == CardOf(b, docMap, publicUrl).href
    ensures CardOf(a, docMap, publicUrl).links == CardOf(b, docMap, publicUrl).links
  {
    assert ItemKind(a) == ItemKind(b);
  }

  /** An item typed `int-doc` in any case is an internal document: it is labelled as one, its
      only link opens the document, and it points at the bundled asset when the document map
      has one, else at the file under the public assets. */
  lemma IntDocCard(item: Item, docMap: map<string, string>, publicUrl: string)
    requires item.kind.Some? && ToLower(item.kind.value) == "int-doc"
    ensures CardOf(item, docMap, publicUrl).caption == "Document (intern)"
    ensures CardOf(item, docMap, publicUrl).links == [OpenDocument]
    ensures CardOf(item, docMap, publicUrl).href ==
              match Drills.Lookup(docMap, DataText(item.data))
              case Some(asset) => asset
              case None => publicUrl + "/assets/cursusses/" + DataText(item.data)
  {
    assert ItemKind(item) == "int-doc";
    assert ToLower("int-doc") == "int-doc";
    OneLink("int-doc");
  }
}
