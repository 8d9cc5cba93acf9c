/** The parts of the view that decide something: hit tests, saved-card titles and what the
    edit controls show (view/CardView.js). */
module View {
  import opened Wrappers
  import opened Utils
  import opened Model

  /** `imageResizeHandle.size`: the side of the square handle at each element's bottom-right corner. */
  const HandleSize: real := 12.0
  const TitleSeparator: string := " | "
  const EmptyCardTitle: string := "Cartão vazio"

  /** The element's axis-aligned body box, open on every side; rotation is ignored. */
  predicate InBody(el: Element, p: Point) {
    p.x > el.x && p.x < el.x + el.width && p.y > el.y && p.y < el.y + el.height
  }

  /** The open handle square ending at the element's bottom-right corner; rotation is ignored. */
  predicate InHandle(el: Element, p: Point) {
    var hx := el.x + el.width;
    var hy := el.y + el.height;
    p.x > hx - HandleSize && p.x < hx && p.y > hy - HandleSize && p.y < hy
  }

  /** `getElementResizeHandleAt`: the lowest index whose handle holds the point, else null. */
  method GetElementResizeHandleAt(p: Point, elements: Option<seq<Element>>) returns (r: Option<nat>)
    ensures elements.None? ==> r.None?
    ensures r.Some? ==>
      && elements.Some? && r.value < |elements.value|
      && InHandle(elements.value[r.value], p)
      && forall j :: 0 <= j < r.value ==> !InHandle(elements.value[j], p)
    ensures r.None? && elements.Some? ==> forall j :: 0 <= j < |elements.value| ==> !InHandle(elements.value[j], p)
  {
    if elements.None? {
      return None;
    }
    var els := elements.value;
    var i := 0;
    while i < |els|
      invariant 0 <= i <= |els|
      invariant forall j :: 0 <= j < i ==> !InHandle(els[j], p)
    {
      var el := els[i];
      var hx := el.x + el.width;
      var hy := el.y + el.height;
      if p.x > hx - HandleSize && p.x < hx && p.y > hy - HandleSize && p.y < hy {
        return Some(i);
      }
      i := i + 1;
    }
    return None;
  }

  /** `getElementAt`: the highest (topmost) index whose body holds the point, else null. */
  method GetElementAt(p: Point, elements: Option<seq<Element>>) returns (r: Option<nat>)
    ensures elements.None? ==> r.None?
    ensures r.Some? ==>
      && elements.Some? && r.value < |elements.value|
      && InBody(elements.value[r.value], p)
      && forall j :: r.value < j < |elements.value| ==> !InBody(elements.value[j], p)
    ensures r.None? && elements.Some? ==> forall j :: 0 <= j < |elements.value| ==> !InBody(elements.value[j], p)
  {
    if elements.None? {
      return None;
    }
    var els := elements.value;
    var i := |els| - 1;
    while i >= 0
      invariant -1 <= i < |els|
      invariant forall j :: i < j < |els| ==> !InBody(els[j], p)
    {
      var el := els[i];
      if p.x > el.x && p.x < el.x + el.width && p.y > el.y && p.y < el.y + el.height {
        return Some(i);
      }
      i := i - 1;
    }
    return None;
  }

  /** On an element at least as large as its handle, the handle lies inside the body, so a
      press there would be a body hit too if the handle were not tested first. */
  lemma HandleWithinBody(el: Element, p: Point)
    requires el.width >= HandleSize && el.height >= HandleSize
    requires InHandle(el, p)
    ensures InBody(el, p)
  {
  }

  /** Points on the edges of a body are never hits. */
  lemma BodyEdgesMiss(el: Element, t: real)
    ensures !InBody(el, Point(el.x, t)) && !InBody(el, Point(el.x + el.width, t))
    ensures !InBody(el, Point(t, el.y)) && !InBody(el, Point(t, el.y + el.height))
  {
  }

  /** `Array.prototype.join`. */
  function Join(parts: seq<string>, sep: string): string
    decreases |parts|
  {
    if |parts| == 0 then ""
    else if |parts| == 1 then parts[0]
    else parts[0] + sep + Join(parts[1..], sep)
  }

  function TotalLength(parts: seq<string>): nat
    decreases |parts|
  {
    if |parts| == 0 then 0 else |parts[0]| + TotalLength(parts[1..])
  }

  lemma {:induction false} JoinLength(parts: seq<string>, sep: string)
    ensures |Join(parts, sep)| == TotalLength(parts) + if |parts| == 0 then 0 else (|parts| - 1) * |sep|
    decreases |parts|
  {
    if |parts| >= 2 {
      JoinLength(parts[1..], sep);
      assert (|parts| - 1) * |sep| == (|parts| - 2) * |sep| + |sep|;
    }
  }

  /** With a non-empty separator, a join is empty exactly when it joins at most one part and
      that part is empty. */
  lemma {:induction false} JoinEmptyIff(parts: seq<string>, sep: string)
    requires sep != ""
    ensures Join(parts, sep) == "" <==> |parts| <= 1 && forall i :: 0 <= i < |parts| ==> parts[i] == ""
    decreases |parts|
  {
    if |parts| >= 2 {
      JoinEmptyIff(parts[1..], sep);
      assert |Join(parts, sep)| >= |sep|;
    }
  }

  /** `c.texts.map(t => t.text)`. */
  function TextsOf(ts: seq<TextItem>): (r: seq<string>)
    ensures |r| == |ts| && forall i :: 0 <= i < |ts| ==> r[i] == ts[i].text
  {
    seq(|ts|, i requires 0 <= i < |ts| => ts[i].text)
  }

  /** The label of a saved card in the list: its name, else its texts joined with ` | `,
      else `Cartão vazio`. */
  function Title(c: Card): (r: string)
    ensures c.name != "" ==> r == c.name
    ensures c.name == "" && c.texts.Some? && |c.texts.value| > 0 ==> r == Join(TextsOf(c.texts.value), TitleSeparator)
    ensures c.name == "" && (c.texts.None? || |c.texts.value| == 0) ==> r == EmptyCardTitle
  {
    if c.name != "" then c.name
    else if c.texts.Some? && |c.texts.value| > 0 then Join(TextsOf(c.texts.value), TitleSeparator)
    else EmptyCardTitle
  }

  /** A card is listed under an empty label exactly when it has no name and a single text,
      whose content is empty. */
  lemma TitleEmptyIff(c: Card)
    ensures Title(c) == "" <==>
      c.name == "" && c.texts.Some? && |c.texts.value| == 1 && c.texts.value[0].text == ""
  {
    if c.name == "" && c.texts.Some? && |c.texts.value| > 0 {
      JoinEmptyIff(TextsOf(c.texts.value), TitleSeparator);
    }
  }

  /** A card with no name is listed under its only text, or under all of them in order. */
  lemma TitleOfTexts(c: Card)
    requires c.name == "" && c.texts.Some? && |c.texts.value| > 0
    ensures |c.texts.value| == 1 ==> Title(c) == c.texts.value[0].text
    ensures |Title(c)| == TotalLength(TextsOf(c.texts.value)) + (|c.texts.value| - 1) * |TitleSeparator|
  {
    JoinLength(TextsOf(c.texts.value), TitleSeparator);
  }

  /** Cards the editor saves always carry a name, so they are always listed under it. */
  lemma SavedCardTitle(texts: seq<TextItem>, elements: seq<Element>, name: string)
    ensures Title(Snapshot(texts, elements, NameOrDefault(name))) == NameOrDefault(name)
    ensures name != "" ==> Title(Snapshot(texts, elements, NameOrDefault(name))) == name
  {
  }

  /** The writes of one `updateControls` pass: `None` leaves that control's value as it is. */
  datatype ControlWrites = ControlWrites(textField: Option<string>, fontSizeField: Option<real>, colorField: Option<string>)

  /** `el.color || '#000'`. */
  function ShownColor(el: Element): (r: string)
    ensures r != ""
    ensures el.color.Some? && el.color.value != "" ==> r == el.color.value
    ensures !(el.color.Some? && el.color.value != "") ==> r == DefaultShapeColor
  {
    if el.color.Some? && el.color.value != "" then el.color.value else DefaultShapeColor
  }

  /** `updateControls`: a selected text shows its fields; otherwise a selected element shows
      its colour; otherwise the text field is cleared. */
  function UpdateControls(texts: seq<TextItem>, selectedIdx: Option<int>, elements: seq<Element>,
                          selectedElementIdx: Option<int>, textFieldFocused: bool): (w: ControlWrites)
    ensures textFieldFocused ==> w.textField.None?
    ensures w.fontSizeField.Some? <==> IsIndex(selectedIdx, texts)
    ensures IsIndex(selectedIdx, texts) ==>
      var t := texts[selectedIdx.value];
      w.fontSizeField == Some(t.fontSize) && w.colorField == Some(t.color) &&
      (!textFieldFocused ==> w.textField == Some(t.text))
    ensures !IsIndex(selectedIdx, texts) && IsIndex(selectedElementIdx, elements) ==>
      w == ControlWrites(None, None, Some(ShownColor(elements[selectedElementIdx.value])))
    ensures !IsIndex(selectedIdx, texts) && !IsIndex(selectedElementIdx, elements) ==>
      w.fontSizeField.None? && w.colorField.None? && (!textFieldFocused ==> w.textField == Some(""))
  {
    if IsIndex(selectedIdx, texts) then
      var t := texts[selectedIdx.value];
      ControlWrites(if textFieldFocused then None else Some(t.text), Some(t.fontSize), Some(t.color))
    else if IsIndex(selectedElementIdx, elements) then
      ControlWrites(None, None, Some(ShownColor(elements[selectedElementIdx.value])))
    else
      ControlWrites(if textFieldFocused then None else Some(""), None, None)
  }
}
