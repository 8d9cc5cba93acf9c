/** The gesture engine: pointer-down priority, drag and resize arithmetic, gesture reset,
    rotation controls and loading a saved card (controller/CardController.js). */
module Controller {
  import opened Wrappers
  import opened Utils
  import opened Model

  /** A resized image is never made smaller than this on either axis. */
  const MinImageExtent: real := 50.0
  /** The step of the rotate-left and rotate-right buttons, in degrees. */
  const RotationStep: real := 15.0

  /** The single image the controller keeps in fields of the model that this model does not
      hold (`model.image`, `imageX`, `imageY`, `imageWidth`, `imageHeight`, `imageRotation`):
      their values enter as this parameter. `present` is the truthiness of `model.image`. */
  datatype LegacyImage = LegacyImage(present: bool, x: real, y: real, width: real, height: real, rotation: real)

  /** Calls the controller makes on model members that this model does not hold. */
  datatype ImageRequest = NoRequest | SetImageSize(width: real, height: real) | SetImagePosition(x: real, y: real) | DeleteImage

  /** The open box of a text whose measured width is `width`, centred on its anchor. */
  predicate InTextBox(t: TextItem, width: real, p: Point) {
    p.x > t.x - width / 2.0 && p.x < t.x + width / 2.0 &&
    p.y > t.y - t.fontSize / 2.0 && p.y < t.y + t.fontSize / 2.0
  }

  /** `measure(text, fontSize)` is the width the canvas reports for `text` in that font. */
  predicate TextHit(t: TextItem, measure: (string, real) -> real, p: Point) {
    InTextBox(t, measure(t.text, t.fontSize), p)
  }

  /** The topmost (highest-index) text under the point, if any. */
  function TopTextAt(ts: seq<TextItem>, measure: (string, real) -> real, p: Point): (r: Option<nat>)
    ensures r.Some? ==>
      && r.value < |ts| && TextHit(ts[r.value], measure, p)
      && forall j :: r.value < j < |ts| ==> !TextHit(ts[j], measure, p)
    ensures r.None? ==> forall j :: 0 <= j < |ts| ==> !TextHit(ts[j], measure, p)
    decreases |ts|
  {
    if ts == [] then None
    else if TextHit(ts[|ts| - 1], measure, p) then Some(|ts| - 1)
    else TopTextAt(ts[..|ts| - 1], measure, p)
  }

  /** The new extent of a resized image along one axis:
      `max(50, min(canvasExtent - origin, pointer - origin))`. */
  function ResizeExtent(pointer: real, origin: real, canvasExtent: real): (r: real)
    ensures r >= MinImageExtent
    ensures canvasExtent - origin >= MinImageExtent ==> r <= canvasExtent - origin
    ensures MinImageExtent <= pointer - origin <= canvasExtent - origin ==> r == pointer - origin
    ensures canvasExtent - origin < MinImageExtent ==> r == MinImageExtent
  {
    Clamp(pointer - origin, MinImageExtent, canvasExtent - origin)
  }

  /** The new origin of a dragged image along one axis:
      `max(0, min(canvasExtent - size, pointer - offset))`. */
  function DragOrigin(pointer: real, offset: real, canvasExtent: real, size: real): (r: real)
    ensures r >= 0.0
    ensures canvasExtent >= size ==> r + size <= canvasExtent
    ensures 0.0 <= pointer - offset && pointer - offset + size <= canvasExtent ==> r == pointer - offset
  {
    Clamp(pointer - offset, 0.0, canvasExtent - size)
  }

  /** `t.rotation || 0`. */
  function RotationOrZero(r: Option<real>): real {
    r.GetOr(0.0)
  }

  class CardController {
    const model: CardModel
    var dragging: bool
    var draggingImage: bool
    var resizingImage: bool
    var offset: Point

    ghost predicate Valid()
      reads this, model
    {
      model.Valid()
    }

    constructor(initial: Stored)
      requires !initial.Unparsable?
      ensures Valid() && fresh(model)
      ensures model.texts == [] && model.elements == [] && model.selectedIdx == None && model.selectedElementIdx == None
      ensures Some(model.savedCards) == LoadSavedCards(initial)
      ensures !dragging && !draggingImage && !resizingImage && offset == Point(0.0, 0.0)
    {
      model := new CardModel(initial);
      dragging, draggingImage, resizingImage := false, false, false;
      offset := Point(0.0, 0.0);
    }

    /** `mousedown` at canvas point `p`. Texts are tried from the top down and win; a text hit
        selects it and starts a drag that keeps the grab offset. Otherwise the image handle,
        then the image body (the results of `isMouseOnImageResizeHandle` and `isMouseOnImage`
        enter as `onImageHandle` and `onImage`); otherwise the text selection is cleared.
        The element selection is never touched. */
    method PointerDown(p: Point, measure: (string, real) -> real, onImageHandle: bool, onImage: bool, image: LegacyImage)
      requires Valid()
      modifies this`dragging, this`draggingImage, this`resizingImage, this`offset, model`selectedIdx
      ensures Valid()
      ensures var hit := TopTextAt(model.texts, measure, p);
        && (hit.Some? ==>
              && model.selectedIdx == Some(hit.value)
              && dragging
              && offset == Point(p.x - model.texts[hit.value].x, p.y - model.texts[hit.value].y)
              && draggingImage == old(draggingImage) && resizingImage == old(resizingImage))
        && (hit.None? && onImageHandle ==>
              && resizingImage
              && model.selectedIdx == old(model.selectedIdx)
              && dragging == old(dragging) && draggingImage == old(draggingImage) && offset == old(offset))
        && (hit.None? && !onImageHandle && onImage ==>
              && draggingImage
              && offset == Point(p.x - image.x, p.y - image.y)
              && model.selectedIdx == old(model.selectedIdx)
              && dragging == old(dragging) && resizingImage == old(resizingImage))
        && (hit.None? && !onImageHandle && !onImage ==>
              && model.selectedIdx == None
              && dragging == old(dragging) && draggingImage == old(draggingImage)
              && resizingImage == old(resizingImage) && offset == old(offset))
    {
      var found := false;
      var i := |model.texts| - 1;
      while i >= 0
        invariant -1 <= i < |model.texts|
        invariant forall j :: i < j < |model.texts| ==> !TextHit(model.texts[j], measure, p)
        invariant !found && model.selectedIdx == old(model.selectedIdx)
        invariant dragging == old(dragging) && offset == old(offset)
      {
        var t := model.texts[i];
        var textWidth := measure(t.text, t.fontSize);
        var textHeight := t.fontSize;
        if p.x > t.x - textWidth / 2.0 && p.x < t.x + textWidth / 2.0 &&
           p.y > t.y - textHeight / 2.0 && p.y < t.y + textHeight / 2.0
        {
          model.SelectText(i);
          dragging := true;
          offset := Point(p.x - t.x, p.y - t.y);
          found := true;
          break;
        }
        i := i - 1;
      }

      if found {
        return;
      }
      if onImageHandle {
        resizingImage := true;
        return;
      }
      if onImage {
        draggingImage := true;
        offset := Point(p.x - image.x, p.y - image.y);
        return;
      }
      model.selectedIdx := None;
    }

    /** `mousemove` at canvas point `p`: an image resize or an image drag is returned as the
        request the source makes; a text drag moves the selected text's anchor to the pointer
        less the grab offset, unclamped. `ok` is false when that move throws. */
    method PointerMove(p: Point, image: LegacyImage, canvas: Canvas) returns (req: ImageRequest, ok: bool)
      requires Valid()
      modifies model`texts, model`savedCards
      ensures Valid()
      ensures resizingImage && image.present ==>
        && req == SetImageSize(ResizeExtent(p.x, image.x, canvas.width), ResizeExtent(p.y, image.y, canvas.height))
        && ok && model.texts == old(model.texts) && model.savedCards == old(model.savedCards)
      ensures !(resizingImage && image.present) && draggingImage && image.present ==>
        && req == SetImagePosition(DragOrigin(p.x, offset.x, canvas.width, image.width),
                                   DragOrigin(p.y, offset.y, canvas.height, image.height))
        && ok && model.texts == old(model.texts) && model.savedCards == old(model.savedCards)
      ensures !(resizingImage && image.present) && !(draggingImage && image.present) ==> req == NoRequest
      ensures !(resizingImage && image.present) && !(draggingImage && image.present) &&
              dragging && old(model.selectedIdx).Some? ==>
        && ok == old(model.TextSelectionResolves())
        && (ok ==> var i := model.selectedIdx.value;
                   model.texts == old(model.texts)[i := old(model.texts)[i].(x := p.x - offset.x, y := p.y - offset.y)]
                   && model.savedCards == Linked(old(model.savedCards), model.linkedCard, model.texts))
      ensures !(resizingImage && image.present) && !(draggingImage && image.present) &&
              !(dragging && old(model.selectedIdx).Some?) ==>
        ok && model.texts == old(model.texts) && model.savedCards == old(model.savedCards)
      ensures !ok ==> model.texts == old(model.texts) && model.savedCards == old(model.savedCards)
    {
      ok := true;
      if resizingImage && image.present {
        var newWidth := Max(MinImageExtent, Min(canvas.width - image.x, p.x - image.x));
        var newHeight := Max(MinImageExtent, Min(canvas.height - image.y, p.y - image.y));
        return SetImageSize(newWidth, newHeight), ok;
      }
      if draggingImage && image.present {
        var newX := Max(0.0, Min(canvas.width - image.width, p.x - offset.x));
        var newY := Max(0.0, Min(canvas.height - image.height, p.y - offset.y));
        return SetImagePosition(newX, newY), ok;
      }
      req := NoRequest;
      if dragging && model.selectedIdx.Some? {
        ok := model.SetPosition(p.x - offset.x, p.y - offset.y);
      }
    }

    /** `mouseup` and `mouseleave`: every gesture ends, whatever was active. */
    method EndGesture()
      modifies this`dragging, this`draggingImage, this`resizingImage
      ensures !dragging && !draggingImage && !resizingImage
    {
      dragging := false;
      draggingImage := false;
      resizingImage := false;
    }

    /** Turns the selected text, or else the image, to `deg`; none of them selected: nothing.
        The image turn goes through `setImageRotation`, which turns the selected element
        when it is an image. `ok` is false when the text selection names no text. */
    method RotateTo(deg: real, image: LegacyImage) returns (ok: bool)
      requires Valid()
      modifies model`texts, model`savedCards, model`elements
      ensures Valid()
      ensures old(model.selectedIdx).Some? ==>
        && ok == old(model.TextSelectionResolves())
        && model.elements == old(model.elements)
        && (ok ==> var i := model.selectedIdx.value;
                   model.texts == old(model.texts)[i := old(model.texts)[i].(rotation := Some(deg))]
                   && model.savedCards == Linked(old(model.savedCards), model.linkedCard, model.texts))
        && (!ok ==> model.texts == old(model.texts) && model.savedCards == old(model.savedCards))
      ensures old(model.selectedIdx).None? ==>
        && ok && model.texts == old(model.texts) && model.savedCards == old(model.savedCards)
        && var e := model.selectedElementIdx;
           if image.present && IsIndex(e, old(model.elements)) && old(model.elements)[e.value].Image?
           then model.elements == old(model.elements)[e.value := Rotated(old(model.elements)[e.value], deg)]
           else model.elements == old(model.elements)
    {
      ok := true;
      if model.selectedIdx.Some? {
        ok := model.SetTextRotation(deg);
      } else if image.present {
        model.SetImageRotation(deg);
      }
    }

    /** The rotate buttons: 15 degrees anticlockwise or clockwise from the selected text's
        rotation (missing counts as 0), or else from the image's. A selection that names no
        text throws (`ok` false) when its rotation is read. */
    method RotateStep(clockwise: bool, image: LegacyImage) returns (ok: bool)
      requires Valid()
      modifies model`texts, model`savedCards, model`elements
      ensures Valid()
      ensures var delta := if clockwise then RotationStep else -RotationStep;
        && (old(model.selectedIdx).Some? ==>
              && ok == old(model.TextSelectionResolves())
              && model.elements == old(model.elements)
              && (ok ==> var i := model.selectedIdx.value;
                         model.texts == old(model.texts)[i := old(model.texts)[i].(rotation := Some(RotationOrZero(old(model.texts)[i].rotation) + delta))]
                         && model.savedCards == Linked(old(model.savedCards), model.linkedCard, model.texts))
              && (!ok ==> model.texts == old(model.texts) && model.savedCards == old(model.savedCards)))
        && (old(model.selectedIdx).None? ==>
              && ok && model.texts == old(model.texts) && model.savedCards == old(model.savedCards)
              && var e := model.selectedElementIdx;
                 if image.present && IsIndex(e, old(model.elements)) && old(model.elements)[e.value].Image?
                 then model.elements == old(model.elements)[e.value := Rotated(old(model.elements)[e.value], image.rotation + delta)]
                 else model.elements == old(model.elements))
    {
      var delta := if clockwise then RotationStep else -RotationStep;
      if model.selectedIdx.Some? {
        var i := model.selectedIdx.value;
        if !(0 <= i < |model.texts|) {
          return false;
        }
        var cur := RotationOrZero(model.texts[i].rotation);
        ok := model.SetTextRotation(cur + delta);
      } else {
        ok := true;
        if image.present {
          model.SetImageRotation(image.rotation + delta);
        }
      }
    }

    /** The rotation field's `change`: `parseFloat(value) || 0`, where `None` is a value
        that does not parse (NaN), then the same dispatch as `RotateTo`. */
    method RotationFieldChanged(parsed: Option<real>, image: LegacyImage) returns (ok: bool)
      requires Valid()
      modifies model`texts, model`savedCards, model`elements
      ensures Valid()
      ensures var v := parsed.GetOr(0.0);
        old(model.selectedIdx).Some? && old(model.TextSelectionResolves()) ==>
          var i := model.selectedIdx.value;
          && ok
          && model.texts == old(model.texts)[i := old(model.texts)[i].(rotation := Some(v))]
          && model.elements == old(model.elements)
          && model.savedCards == Linked(old(model.savedCards), model.linkedCard, model.texts)
      ensures old(model.selectedIdx).Some? && !old(model.TextSelectionResolves()) ==>
        && !ok && model.texts == old(model.texts) && model.elements == old(model.elements)
        && model.savedCards == old(model.savedCards)
      ensures parsed.None? && old(model.selectedIdx).Some? && old(model.TextSelectionResolves()) ==>
        model.texts[model.selectedIdx.value].rotation == Some(0.0)
      ensures old(model.selectedIdx).None? ==>
        && ok && model.texts == old(model.texts) && model.savedCards == old(model.savedCards)
        && var e := model.selectedElementIdx;
           if image.present && IsIndex(e, old(model.elements)) && old(model.elements)[e.value].Image?
           then model.elements == old(model.elements)[e.value := Rotated(old(model.elements)[e.value], parsed.GetOr(0.0))]
           else model.elements == old(model.elements)
    {
      var v := parsed.GetOr(0.0);
      ok := RotateTo(v, image);
    }

    /** The delete button: with a text selected, `splice` it out and clear the selection;
        otherwise, with an image present, request `deleteImage`. */
    method DeletePressed(image: LegacyImage) returns (req: ImageRequest)
      requires Valid()
      modifies model`texts, model`savedCards, model`selectedIdx
      ensures Valid()
      ensures old(model.selectedIdx).Some? ==>
        && req == NoRequest && model.selectedIdx == None
        && model.texts == SpliceOne(old(model.texts), old(model.selectedIdx).value)
        && model.savedCards == Linked(old(model.savedCards), model.linkedCard, model.texts)
      ensures old(model.selectedIdx).None? ==>
        && req == (if image.present then DeleteImage else NoRequest)
        && model.texts == old(model.texts) && model.savedCards == old(model.savedCards)
        && model.selectedIdx == None
    {
      req := NoRequest;
      if model.selectedIdx.Some? {
        model.DeleteText(model.selectedIdx.value);
        model.selectedIdx := None;
      } else if image.present {
        req := DeleteImage;
      }
    }

    /** Choosing saved card `idx` in the list: the live texts become that card's own texts
        array (empty when it has none), the first text is selected if there is one; the
        elements and the element selection are left as they are. */
    method LoadSaved(idx: nat)
      requires Valid()
      requires idx < |model.savedCards|
      modifies model`texts, model`selectedIdx, model`linkedCard
      ensures Valid()
      ensures model.texts == old(model.savedCards[idx].texts).GetOr([])
      ensures model.selectedIdx == if |model.texts| > 0 then Some(0) else None
      ensures model.linkedCard == if old(model.savedCards[idx].texts).Some? then Some(idx) else None
    {
      var c := model.savedCards[idx];
      model.texts := c.texts.GetOr([]);
      model.linkedCard := if c.texts.Some? then Some(idx) else None;
      model.selectedIdx := if |model.texts| > 0 then Some(0) else None;
    }
  }

  /** Text comes first at the same point: whatever the handle and body tests would say, a
      press on a text selects the topmost text under it. */
  lemma TextPreemptsElements(ts: seq<TextItem>, measure: (string, real) -> real, p: Point, k: nat)
    requires k < |ts| && TextHit(ts[k], measure, p)
    ensures TopTextAt(ts, measure, p).Some?
    ensures TopTextAt(ts, measure, p).value >= k
  {
  }

  /** Selection is not kept exclusive: adding a shape while a text is selected leaves both
      selections set. */
  method SelectionIsNotExclusive() returns (m: CardModel)
    ensures m.selectedIdx == Some(0) && m.selectedElementIdx == Some(0)
  {
    m := new CardModel(Absent);
    m.AddText("Hello", 20.0, "#000", 100.0, 100.0);
    m.AddShape("rect", 10.0, 10.0, 50.0, 30.0, ShapeOptions(None, None, None));
  }

  /** Save "Card A" with one text, load it, edit the text and save "Card B": the load
      selects the card's text, and the edit reaches entry 0 of the store as well. */
  method EditingLoadedCardRewritesIt() returns (c: CardController)
    ensures c.model.stored.Catalog? && |c.model.stored.cards| == 2
    ensures c.model.stored.cards[0].name == "Card A"
    ensures c.model.stored.cards[0].texts == Some([TextItem("Bye", 20.0, "#000", 100.0, 100.0, Some(0.0))])
  {
    c := new CardController(Absent);
    c.model.AddText("Hello", 20.0, "#000", 100.0, 100.0);
    c.model.SaveCardWithName("Card A");
    c.LoadSaved(0);
    assert c.model.texts == [TextItem("Hello", 20.0, "#000", 100.0, 100.0, Some(0.0))];
    assert c.model.selectedIdx == Some(0);
    var ok := c.model.SetText("Bye");
    assert c.model.texts == [TextItem("Bye", 20.0, "#000", 100.0, 100.0, Some(0.0))];
    assert c.model.savedCards[0].texts == Some(c.model.texts);
    c.model.SaveCardWithName("Card B");
  }
}
