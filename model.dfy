/** The scene model and the catalog of saved cards (model/CardModel.js). */
module Model {
  import opened Wrappers

  const DefaultCardName: string := "Sem nome"
  const DefaultShapeColor: string := "#000"
  const DefaultImageWidth: real := 500.0
  const DefaultImageHeight: real := 300.0

  /** A text label, anchored at its centre. `rotation` is `None` for a record that lacks the
      field (cards written before rotation existed); the editor reads that as 0. */
  datatype TextItem = TextItem(text: string, fontSize: real, color: string, x: real, y: real, rotation: Option<real>)

  /** What an image element's `image` field holds: a decoded bitmap with its `src`, the bare
      `src` string it is replaced by in a saved card, or the empty object that `JSON.stringify`
      makes of a bitmap without a `src`. */
  datatype ImageData = Bitmap(src: string) | SrcString(src: string) | EmptyObject

  /** A graphic element, anchored at its top-left corner. `color` is `None` while the record
      has no such field: images get one only through `SetElementColor`. */
  datatype Element =
    | Image(image: ImageData, x: real, y: real, width: real, height: real, rotation: real, color: Option<string>)
    | Shape(shape: string, x: real, y: real, width: real, height: real, rotation: real, fill: bool, color: Option<string>)

  /** The optional `options` argument of `addShape`. */
  datatype ShapeOptions = ShapeOptions(rotation: Option<real>, fill: Option<bool>, color: Option<string>)

  /** A saved card. The empty `name` stands for a missing or empty (falsy) name; `texts` is
      `None` when the record has no `texts` array. */
  datatype Card = Card(name: string, texts: Option<seq<TextItem>>, elements: seq<Element>)

  /** The value under the `savedCards` key of the key-value store: no entry, the empty
      string, a serialized catalog, or a string `JSON.parse` rejects. */
  datatype Stored = Absent | Blank | Catalog(cards: seq<Card>) | Unparsable

  /** `loadSavedCards`: `None` is the SyntaxError that `JSON.parse` throws. */
  function LoadSavedCards(s: Stored): (r: Option<seq<Card>>)
    ensures r.None? <==> s.Unparsable?
    ensures s.Catalog? ==> r == Some(s.cards)
    ensures s.Absent? || s.Blank? ==> r == Some([])
  {
    match s
    case Absent => Some([])
    case Blank => Some([])
    case Catalog(cs) => Some(cs)
    case Unparsable => None
  }

  /** The JSON replacer of the save operations: a bitmap with a non-empty `src` becomes that
      string, anything else is serialized as it is. */
  function PortableImage(d: ImageData): (r: ImageData)
    ensures !r.Bitmap?
    ensures d.Bitmap? && d.src != "" ==> r == SrcString(d.src)
    ensures d.Bitmap? && d.src == "" ==> r == EmptyObject
    ensures !d.Bitmap? ==> r == d
  {
    match d
    case Bitmap(src) => if src != "" then SrcString(src) else EmptyObject
    case _ => d
  }

  function Portable(e: Element): Element {
    if e.Image? then e.(image := PortableImage(e.image)) else e
  }

  function PortableElements(es: seq<Element>): (r: seq<Element>)
    ensures |r| == |es|
    ensures forall i :: 0 <= i < |es| ==> r[i] == Portable(es[i])
  {
    seq(|es|, i requires 0 <= i < |es| => Portable(es[i]))
  }

  /** `name || 'Sem nome'`. */
  function NameOrDefault(name: string): (r: string)
    ensures r != ""
    ensures name != "" ==> r == name
    ensures name == "" ==> r == DefaultCardName
  {
    if name != "" then name else DefaultCardName
  }

  /** The card the save operations append: a copy of the live texts and of the live elements
      with every bitmap replaced by its source string. */
  function Snapshot(texts: seq<TextItem>, elements: seq<Element>, name: string): (c: Card)
    ensures c.name == name && c.texts == Some(texts)
    ensures |c.elements| == |elements|
    ensures forall i :: 0 <= i < |elements| ==> !(c.elements[i].Image? && c.elements[i].image.Bitmap?)
  {
    Card(name, Some(texts), PortableElements(elements))
  }

  /** A saved card holds no bitmap; every bitmap with a source is stored as that source;
      the geometry, rotation, colour and shape fields of every element are kept. */
  lemma SnapshotIsPortable(texts: seq<TextItem>, elements: seq<Element>, name: string)
    ensures var c := Snapshot(texts, elements, name);
      c.texts == Some(texts) && |c.elements| == |elements| &&
      forall i :: 0 <= i < |elements| ==>
        && !(c.elements[i].Image? && c.elements[i].image.Bitmap?)
        && c.elements[i].Image? == elements[i].Image?
        && c.elements[i].x == elements[i].x && c.elements[i].y == elements[i].y
        && c.elements[i].width == elements[i].width && c.elements[i].height == elements[i].height
        && c.elements[i].rotation == elements[i].rotation && c.elements[i].color == elements[i].color
        && (elements[i].Shape? ==> c.elements[i] == elements[i])
        && ((elements[i].Image? && elements[i].image.Bitmap? && elements[i].image.src != "")
              ==> c.elements[i].image == SrcString(elements[i].image.src))
  {
  }

  /** Saving a card built from a saved card's elements changes nothing more. */
  lemma PortableIdempotent(es: seq<Element>)
    ensures PortableElements(PortableElements(es)) == PortableElements(es)
  {
  }

  /** The first index `splice(start, 1)` touches: a negative start counts from the end. */
  function SpliceStart(start: int, len: nat): (k: nat)
    ensures k <= len
  {
    if start < 0 then (if len + start < 0 then 0 else len + start)
    else if start > len then len
    else start
  }

  /** `Array.prototype.splice(start, 1)` on a sequence: the sequence after the call. */
  function SpliceOne<T>(s: seq<T>, start: int): (r: seq<T>)
    ensures 0 <= start < |s| ==> r == s[..start] + s[start + 1..]
    ensures -|s| <= start < 0 ==> r == s[..|s| + start] + s[|s| + start + 1..]
    ensures start < -|s| && s != [] ==> r == s[1..]
    ensures start >= |s| || s == [] ==> r == s
    ensures |r| == if s == [] || start >= |s| then |s| else |s| - 1
  {
    var k := SpliceStart(start, |s|);
    if k < |s| then s[..k] + s[k + 1..] else s
  }

  /** `options.color || '#000'`. */
  function ShapeColor(c: Option<string>): (r: string)
    ensures r != ""
    ensures c.Some? && c.value != "" ==> r == c.value
    ensures c.None? || c.value == "" ==> r == DefaultShapeColor
  {
    if c.Some? && c.value != "" then c.value else DefaultShapeColor
  }

  /** The catalog after the live texts list was changed to `ts`: when the live list is the
      very array of catalog entry `link` (see `CardModel.linkedCard`), that entry sees it. */
  function Linked(cards: seq<Card>, link: Option<nat>, ts: seq<TextItem>): seq<Card> {
    if link.Some? && link.value < |cards| then cards[link.value := cards[link.value].(texts := Some(ts))]
    else cards
  }

  /** `JSON.stringify` without a replacer, as every catalog write uses it: a bitmap object
      (an image element, which has no own enumerable fields) is written as `{}`. */
  function StoredImage(d: ImageData): (r: ImageData)
    ensures !r.Bitmap?
    ensures d.Bitmap? ==> r == EmptyObject
    ensures !d.Bitmap? ==> r == d
  {
    if d.Bitmap? then EmptyObject else d
  }

  function StoredElement(e: Element): Element {
    if e.Image? then e.(image := StoredImage(e.image)) else e
  }

  function StoredElements(es: seq<Element>): (r: seq<Element>)
    ensures |r| == |es|
    ensures forall i :: 0 <= i < |es| ==> r[i] == StoredElement(es[i])
  {
    seq(|es|, i requires 0 <= i < |es| => StoredElement(es[i]))
  }

  /** The catalog as a `JSON.stringify` of it stores and a `JSON.parse` gives it back: names
      and texts as they are, and every bitmap still in an element as the empty object. */
  function Serialized(cards: seq<Card>): (r: seq<Card>)
    ensures |r| == |cards|
    ensures forall i :: 0 <= i < |cards| ==>
      r[i] == cards[i].(elements := StoredElements(cards[i].elements))
  {
    seq(|cards|, i requires 0 <= i < |cards| => cards[i].(elements := StoredElements(cards[i].elements)))
  }

  /** Elements made by a save hold no bitmap, so writing them changes nothing. */
  lemma StoredElementsOfPortable(es: seq<Element>)
    ensures StoredElements(PortableElements(es)) == PortableElements(es)
  {
    var p := PortableElements(es);
    assert forall i :: 0 <= i < |p| ==> StoredElement(p[i]) == p[i];
  }

  /** Writing a catalog that was read back changes nothing more. */
  lemma SerializedIdempotent(cards: seq<Card>)
    ensures Serialized(Serialized(cards)) == Serialized(cards)
  {
    var once := Serialized(cards);
    forall i | 0 <= i < |cards|
      ensures StoredElements(once[i].elements) == once[i].elements
    {
      var es := once[i].elements;
      assert forall j :: 0 <= j < |es| ==> StoredElement(es[j]) == es[j];
    }
  }

  /** A catalog just written agrees with the catalog it was written from. */
  lemma WrittenCatalogAgrees(cards: seq<Card>)
    ensures StoredAgrees(Catalog(Serialized(cards)), cards)
  {
    SerializedIdempotent(cards);
  }

  /** What the store holds parses, and agrees with the in-memory catalog in length and names,
      and in elements once bitmaps are serialized. Only the texts of an entry can run ahead of
      the store, by being edited through the live scene after the entry was loaded. */
  predicate StoredAgrees(s: Stored, cards: seq<Card>) {
    match LoadSavedCards(s)
    case None => false
    case Some(cs) =>
      |cs| == |cards| &&
      forall i :: 0 <= i < |cs| ==>
        cs[i].name == cards[i].name && StoredElements(cs[i].elements) == StoredElements(cards[i].elements)
  }

  /** The element with its `rotation` field set, whatever its kind. */
  function Rotated(e: Element, deg: real): Element {
    e.(rotation := deg)
  }

  predicate IsIndex<T>(idx: Option<int>, s: seq<T>) {
    idx.Some? && 0 <= idx.value < |s|
  }

  class CardModel {
    var texts: seq<TextItem>
    var selectedIdx: Option<int>
    var elements: seq<Element>
    var selectedElementIdx: Option<int>
    var savedCards: seq<Card>
    /** The `savedCards` entry of the key-value store. */
    var stored: Stored
    /** In the source, loading a card assigns that card's own `texts` array to the live
        scene, so the two are one array until another card is loaded. `Some(k)` records
        that the live texts are the array of `savedCards[k]`. */
    var linkedCard: Option<nat>

    ghost predicate Valid()
      reads this
    {
      && (linkedCard.Some? ==> linkedCard.value < |savedCards| && savedCards[linkedCard.value].texts == Some(texts))
      && StoredAgrees(stored, savedCards)
    }

    /** A non-null text selection that names no text makes the selection setters throw. */
    predicate TextSelectionResolves()
      reads this
    {
      selectedIdx.None? || 0 <= selectedIdx.value < |texts|
    }

    /** The constructor reads the catalog from the store. The source's constructor throws on
        an unparsable entry; this one requires a parsable one. */
    constructor(initial: Stored)
      requires !initial.Unparsable?
      ensures Valid()
      ensures texts == [] && selectedIdx == None && elements == [] && selectedElementIdx == None
      ensures Some(savedCards) == LoadSavedCards(initial) && stored == initial && linkedCard == None
    {
      texts := [];
      selectedIdx := None;
      elements := [];
      selectedElementIdx := None;
      savedCards := LoadSavedCards(initial).value;
      stored := initial;
      linkedCard := None;
    }

    /** Replaces the live texts list, and with it the linked catalog entry's. */
    method PutTexts(ts: seq<TextItem>)
      requires Valid()
      modifies this`texts, this`savedCards
      ensures Valid()
      ensures texts == ts
      ensures savedCards == Linked(old(savedCards), linkedCard, ts)
    {
      texts := ts;
      if linkedCard.Some? {
        var k := linkedCard.value;
        savedCards := savedCards[k := savedCards[k].(texts := Some(ts))];
      }
    }

    method AddText(text: string, fontSize: real, color: string, x: real, y: real)
      requires Valid()
      modifies this`texts, this`savedCards, this`selectedIdx
      ensures Valid()
      ensures texts == old(texts) + [TextItem(text, fontSize, color, x, y, Some(0.0))]
      ensures selectedIdx == Some(|texts| - 1)
      ensures savedCards == Linked(old(savedCards), linkedCard, texts)
    {
      PutTexts(texts + [TextItem(text, fontSize, color, x, y, Some(0.0))]);
      selectedIdx := Some(|texts| - 1);
    }

    /** Any index is accepted; the element selection is left as it is. */
    method SelectText(idx: int)
      modifies this`selectedIdx
      ensures selectedIdx == Some(idx)
    {
      selectedIdx := Some(idx);
    }

    /** The source writes `text` of `texts[selectedIdx]` when the selection is non-null;
        `ok` is false when that reads past the list and throws, and nothing changes then. */
    method SetText(text: string) returns (ok: bool)
      requires Valid()
      modifies this`texts, this`savedCards
      ensures Valid()
      ensures ok == old(TextSelectionResolves())
      ensures !ok || old(selectedIdx).None? ==> texts == old(texts) && savedCards == old(savedCards)
      ensures ok && old(selectedIdx).Some? ==>
        var i := old(selectedIdx).value;
        texts == old(texts)[i := old(texts)[i].(text := text)] &&
        savedCards == Linked(old(savedCards), linkedCard, texts)
    {
      ok := TextSelectionResolves();
      if ok && selectedIdx.Some? {
        var i := selectedIdx.value;
        PutTexts(texts[i := texts[i].(text := text)]);
      }
    }

    method SetFontSize(size: real) returns (ok: bool)
      requires Valid()
      modifies this`texts, this`savedCards
      ensures Valid()
      ensures ok == old(TextSelectionResolves())
      ensures !ok || old(selectedIdx).None? ==> texts == old(texts) && savedCards == old(savedCards)
      ensures ok && old(selectedIdx).Some? ==>
        var i := old(selectedIdx).value;
        texts == old(texts)[i := old(texts)[i].(fontSize := size)] &&
        savedCards == Linked(old(savedCards), linkedCard, texts)
    {
      ok := TextSelectionResolves();
      if ok && selectedIdx.Some? {
        var i := selectedIdx.value;
        PutTexts(texts[i := texts[i].(fontSize := size)]);
      }
    }

    method SetColor(color: string) returns (ok: bool)
      requires Valid()
      modifies this`texts, this`savedCards
      ensures Valid()
      ensures ok == old(TextSelectionResolves())
      ensures !ok || old(selectedIdx).None? ==> texts == old(texts) && savedCards == old(savedCards)
      ensures ok && old(selectedIdx).Some? ==>
        var i := old(selectedIdx).value;
        texts == old(texts)[i := old(texts)[i].(color := color)] &&
        savedCards == Linked(old(savedCards), linkedCard, texts)
    {
      ok := TextSelectionResolves();
      if ok && selectedIdx.Some? {
        var i := selectedIdx.value;
        PutTexts(texts[i := texts[i].(color := color)]);
      }
    }

    method SetPosition(x: real, y: real) returns (ok: bool)
      requires Valid()
      modifies this`texts, this`savedCards
      ensures Valid()
      ensures ok == old(TextSelectionResolves())
      ensures !ok || old(selectedIdx).None? ==> texts == old(texts) && savedCards == old(savedCards)
      ensures ok && old(selectedIdx).Some? ==>
        var i := old(selectedIdx).value;
        texts == old(texts)[i := old(texts)[i].(x := x, y := y)] &&
        savedCards == Linked(old(savedCards), linkedCard, texts)
    {
      ok := TextSelectionResolves();
      if ok && selectedIdx.Some? {
        var i := selectedIdx.value;
        PutTexts(texts[i := texts[i].(x := x, y := y)]);
      }
    }

    method SetTextRotation(deg: real) returns (ok: bool)
      requires Valid()
      modifies this`texts, this`savedCards
      ensures Valid()
      ensures ok == old(TextSelectionResolves())
      ensures !ok || old(selectedIdx).None? ==> texts == old(texts) && savedCards == old(savedCards)
      ensures ok && old(selectedIdx).Some? ==>
        var i := old(selectedIdx).value;
        texts == old(texts)[i := old(texts)[i].(rotation := Some(deg))] &&
        savedCards == Linked(old(savedCards), linkedCard, texts)
    {
      ok := TextSelectionResolves();
      if ok && selectedIdx.Some? {
        var i := selectedIdx.value;
        PutTexts(texts[i := texts[i].(rotation := Some(deg))]);
      }
    }

    /** `texts.splice(idx, 1)`; the selection is not touched (the caller clears it). */
    method DeleteText(idx: int)
      requires Valid()
      modifies this`texts, this`savedCards
      ensures Valid()
      ensures texts == SpliceOne(old(texts), idx)
      ensures savedCards == Linked(old(savedCards), linkedCard, texts)
    {
      PutTexts(SpliceOne(texts, idx));
    }

    /** `None` arguments stand for omitted (`undefined`) ones and take the source's defaults: origin (0, 0), 500 by 300, unrotated.
        The text selection is not touched. */
    method AddImage(img: ImageData, x: Option<real>, y: Option<real>, w: Option<real>, h: Option<real>, rotation: Option<real>)
      modifies this`elements, this`selectedElementIdx
      ensures elements == old(elements) +
        [Image(img, x.GetOr(0.0), y.GetOr(0.0), w.GetOr(DefaultImageWidth), h.GetOr(DefaultImageHeight), rotation.GetOr(0.0), None)]
      ensures selectedElementIdx == Some(|elements| - 1)
    {
      elements := elements +
        [Image(img, x.GetOr(0.0), y.GetOr(0.0), w.GetOr(DefaultImageWidth), h.GetOr(DefaultImageHeight), rotation.GetOr(0.0), None)];
      selectedElementIdx := Some(|elements| - 1);
    }

    /** Shapes default to unrotated, unfilled and black. The text selection is not touched. */
    method AddShape(shape: string, x: real, y: real, w: real, h: real, options: ShapeOptions)
      modifies this`elements, this`selectedElementIdx
      ensures elements == old(elements) +
        [Shape(shape, x, y, w, h, options.rotation.GetOr(0.0), options.fill.GetOr(false), Some(ShapeColor(options.color)))]
      ensures selectedElementIdx == Some(|elements| - 1)
    {
      var el := Shape(shape, x, y, w, h, options.rotation.GetOr(0.0), options.fill.GetOr(false), Some(ShapeColor(options.color)));
      elements := elements + [el];
      selectedElementIdx := Some(|elements| - 1);
    }

    /** Out of range: nothing. In range: element `idx` goes, and the element selection is
        cleared if it was `idx`; any other selection index stays as it was, unshifted. A null
        index passes the guard on a non-empty list (`null` compares as 0) and `splice(null, 1)`
        removes element 0; the selection then stays as it was, null or not. */
    method DeleteElement(idx: Option<int>)
      modifies this`elements, this`selectedElementIdx
      ensures IsIndex(idx, old(elements)) ==>
        && elements == old(elements)[..idx.value] + old(elements)[idx.value + 1..]
        && selectedElementIdx == if old(selectedElementIdx) == idx then None else old(selectedElementIdx)
      ensures idx.None? && old(elements) != [] ==>
        elements == old(elements)[1..] && selectedElementIdx == old(selectedElementIdx)
      ensures (idx.Some? && !IsIndex(idx, old(elements))) || (idx.None? && old(elements) == []) ==>
        elements == old(elements) && selectedElementIdx == old(selectedElementIdx)
    {
      var start := idx.GetOr(0);
      if 0 <= start < |elements| {
        elements := SpliceOne(elements, start);
        if selectedElementIdx == idx {
          selectedElementIdx := None;
        }
      }
    }

    method SetElementPosition(idx: Option<int>, x: real, y: real)
      modifies this`elements
      ensures IsIndex(idx, old(elements)) ==>
        elements == old(elements)[idx.value := old(elements)[idx.value].(x := x, y := y)]
      ensures !IsIndex(idx, old(elements)) ==> elements == old(elements)
    {
      if idx.Some? && 0 <= idx.value < |elements| {
        elements := elements[idx.value := elements[idx.value].(x := x, y := y)];
      }
    }

    method SetElementSize(idx: Option<int>, w: real, h: real)
      modifies this`elements
      ensures IsIndex(idx, old(elements)) ==>
        elements == old(elements)[idx.value := old(elements)[idx.value].(width := w, height := h)]
      ensures !IsIndex(idx, old(elements)) ==> elements == old(elements)
    {
      if idx.Some? && 0 <= idx.value < |elements| {
        elements := elements[idx.value := elements[idx.value].(width := w, height := h)];
      }
    }

    method SetElementRotation(idx: Option<int>, deg: real)
      modifies this`elements
      ensures IsIndex(idx, old(elements)) ==>
        elements == old(elements)[idx.value := Rotated(old(elements)[idx.value], deg)]
      ensures !IsIndex(idx, old(elements)) ==> elements == old(elements)
    {
      if idx.Some? && 0 <= idx.value < |elements| {
        elements := elements[idx.value := Rotated(elements[idx.value], deg)];
      }
    }

    /** Images gain a `color` field this way too. */
    method SetElementColor(idx: Option<int>, color: string)
      modifies this`elements
      ensures IsIndex(idx, old(elements)) ==>
        elements == old(elements)[idx.value := old(elements)[idx.value].(color := Some(color))]
      ensures !IsIndex(idx, old(elements)) ==> elements == old(elements)
    {
      if idx.Some? && 0 <= idx.value < |elements| {
        elements := elements[idx.value := elements[idx.value].(color := Some(color))];
      }
    }

    /** Rotates the selected element only when it exists and is an image. */
    method SetImageRotation(deg: real)
      modifies this`elements
      ensures IsIndex(selectedElementIdx, old(elements)) && old(elements)[selectedElementIdx.value].Image? ==>
        elements == old(elements)[selectedElementIdx.value := Rotated(old(elements)[selectedElementIdx.value], deg)]
      ensures !(IsIndex(selectedElementIdx, old(elements)) && old(elements)[selectedElementIdx.value].Image?) ==>
        elements == old(elements)
    {
      if selectedElementIdx.Some? && 0 <= selectedElementIdx.value < |elements| && elements[selectedElementIdx.value].Image? {
        var i := selectedElementIdx.value;
        elements := elements[i := Rotated(elements[i], deg)];
      }
    }

    /** Appends an unnamed snapshot and writes the whole catalog to the store. */
    method SaveCard()
      requires Valid()
      modifies this`savedCards, this`stored
      ensures Valid()
      ensures savedCards == old(savedCards) + [Snapshot(texts, elements, DefaultCardName)]
      ensures stored == Catalog(Serialized(savedCards))
    {
      savedCards := savedCards + [Snapshot(texts, elements, DefaultCardName)];
      stored := Catalog(Serialized(savedCards));
      WrittenCatalogAgrees(savedCards);
    }

    /** Appends a snapshot named `name`, or `Sem nome` when `name` is empty, and writes the
        whole catalog to the store. */
    method SaveCardWithName(name: string)
      requires Valid()
      modifies this`savedCards, this`stored
      ensures Valid()
      ensures savedCards == old(savedCards) + [Snapshot(texts, elements, NameOrDefault(name))]
      ensures stored == Catalog(Serialized(savedCards))
    {
      savedCards := savedCards + [Snapshot(texts, elements, NameOrDefault(name))];
      stored := Catalog(Serialized(savedCards));
      WrittenCatalogAgrees(savedCards);
    }

    /** In range: replaces entry `idx` (which is then no longer the live texts' array) and
        writes the catalog. Out of range: nothing. */
    method UpdateSaved(idx: int, card: Card)
      requires Valid()
      modifies this`savedCards, this`stored, this`linkedCard
      ensures Valid()
      ensures 0 <= idx < |old(savedCards)| ==>
        && savedCards == old(savedCards)[idx := card]
        && stored == Catalog(Serialized(savedCards))
        && linkedCard == if old(linkedCard) == Some(idx) then None else old(linkedCard)
      ensures !(0 <= idx < |old(savedCards)|) ==>
        savedCards == old(savedCards) && stored == old(stored) && linkedCard == old(linkedCard)
    {
      if 0 <= idx < |savedCards| {
        savedCards := savedCards[idx := card];
        stored := Catalog(Serialized(savedCards));
        WrittenCatalogAgrees(savedCards);
        if linkedCard == Some(idx) {
          linkedCard := None;
        }
      }
    }

    /** In range: removes entry `idx` and writes the catalog; the entries after it move down
        one place, the live texts' link with them. Out of range: nothing. */
    method DeleteSaved(idx: int)
      requires Valid()
      modifies this`savedCards, this`stored, this`linkedCard
      ensures Valid()
      ensures 0 <= idx < |old(savedCards)| ==>
        && savedCards == old(savedCards)[..idx] + old(savedCards)[idx + 1..]
        && stored == Catalog(Serialized(savedCards))
        && linkedCard == match old(linkedCard)
                         case None => None
                         case Some(k) => if k == idx then None else if k > idx then Some(k - 1) else Some(k)
      ensures !(0 <= idx < |old(savedCards)|) ==>
        savedCards == old(savedCards) && stored == old(stored) && linkedCard == old(linkedCard)
    {
      if 0 <= idx < |savedCards| {
        savedCards := SpliceOne(savedCards, idx);
        stored := Catalog(Serialized(savedCards));
        WrittenCatalogAgrees(savedCards);
        match linkedCard
        case None =>
        case Some(k) =>
          if k == idx {
            linkedCard := None;
          } else if k > idx {
            linkedCard := Some(k - 1);
          }
      }
    }
  }
}
