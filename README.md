# Card editor: scene model, hit tests and gestures in Dafny

This project models the core of an in-browser card editor. Users place text labels, images
and shapes on a canvas, move, resize and rotate them, and keep a catalog of named cards in
the browser's key-value store. The project has five modules:

- `Utils` (`utils.dfy`): `clamp` and the client-to-canvas coordinate map, as exact real arithmetic.
- `Model` (`model.dfy`): the class `CardModel`. It holds the texts (anchored at their centre),
  the elements (images and shapes, anchored at their top-left corner), the two nullable
  selection indices, the catalog `savedCards` and the value `stored` under the catalog's key.
  Every operation is a method that states its whole new state. It also states the error
  path the source takes: a text setter whose non-null selection names no text throws a
  TypeError (`ok == false`), and nothing changes then.
- `View` (`view.dfy`): the handle and body hit tests, as loops proved against what they
  return. Also the saved-card title rule and the writes of `updateControls`.
- `Controller` (`controller.dfy`): the class `CardController`. Its state is the gesture flags
  `dragging`, `draggingImage`, `resizingImage` and the grab `offset`, over the model. It
  models pointer-down priority, move arithmetic, gesture reset, the rotation controls, the
  delete button and loading a saved card.
- `Wrappers` (`wrappers.dfy`): `Option`, standing for `null`/`undefined`.

The model follows the code as written. In particular:

- Selection is not exclusive. Selecting a text leaves the element selection as it was, and
  adding an element leaves the text selection as it was (`Controller.SelectionIsNotExclusive`).
  A press that hits no text, no image handle and no image body clears only the text
  selection. This assumes the two view hit tests the controller calls
  (`isMouseOnImageResizeHandle`, `isMouseOnImage`) exist and return booleans; see "Left out".
- Loading a saved card makes the live texts list the card's own `texts` array, not a copy.
  The field `linkedCard` records which entry that is. Text edits then change that catalog
  entry in memory, and the next catalog write persists them
  (`Controller.EditingLoadedCardRewritesIt`). `Valid()` states how far the store can lag: it
  agrees with the in-memory catalog in length, names and elements, and can differ only in
  texts.
- A stored catalog that does not parse makes `JSON.parse` throw. It does not read as an
  empty catalog. An absent or empty entry does read as `[]`.
- The default card name is `Sem nome`. A resized image has a minimum extent of 50. Only the
  image drag is clamped; a text drag is not.
- No canvas size is saved, and a load rescales nothing. A load restores texts only: the
  elements and the element selection stay as they were.
- Selection indices are not kept valid. `DeleteElement` does not shift the element
  selection, so deleting an element below the selected one leaves the index pointing at
  the next element. `DeleteText` leaves the text selection as it was; the delete button
  clears it itself.
- `deleteText` is `splice(idx, 1)`, so a negative index counts from the end (`Model.SpliceOne`).

## Model

| member | source | states |
|---|---|---|
| `Utils.Clamp` | controller/utils.js:12-14 | the result is at least `lo`; at most `hi` when `lo <= hi`; equals `v` inside the range; equals `lo` below it or when the range is empty; equals `hi` above it |
| `Utils.ClampIdempotent` | controller/utils.js:12-14 | clamping a clamped value again changes nothing |
| `Utils.ClampIsNearest` | controller/utils.js:12-14 | in a non-empty range, the clamped value is the point of the range nearest to `v` |
| `Utils.ClientToCanvas` | controller/utils.js:2-10 | the canvas point is the client offset from the box corner, scaled per axis by canvas size over on-screen size |
| `Utils.ClientToCanvasOrigin` | controller/utils.js:2-10 | the box's top-left corner maps to (0, 0) |
| `Utils.ClientToCanvasAffine` | controller/utils.js:2-10 | a client displacement maps to the same displacement times `canvas.width/rect.width` and `canvas.height/rect.height` |
| `Utils.ClientToCanvasRoundTrip` | controller/utils.js:2-10 | the inverse affine map takes the canvas point back to the client point |
| `Model.LoadSavedCards` | model/CardModel.js:140-142 | an absent or empty entry loads as the empty catalog; a serialized catalog loads as itself; an unparsable one throws (`None`) |
| `Model.NameOrDefault` | model/CardModel.js:120 | a non-empty name is kept; an empty one becomes `Sem nome` |
| `Model.PortableImage` | model/CardModel.js:116-118 | the JSON replacer never leaves a bitmap: a bitmap with a non-empty `src` becomes that string, one without becomes the empty object, and anything else is kept |
| `Model.PortableElements` | model/CardModel.js:116-119 | the saved element list has one entry per live element, each with its image replaced as `PortableImage` says |
| `Model.Snapshot` | model/CardModel.js:114-121 | the saved card carries the given name and the live texts, and one element per live element with no bitmap left |
| `Model.SnapshotIsPortable` | model/CardModel.js:113-121 | a saved card holds the live texts, and one element per live element with the same kind, geometry, rotation and colour; no bitmap remains, each bitmap with a `src` becomes that string, and shapes are kept unchanged |
| `Model.PortableIdempotent` | model/CardModel.js:116-119 | the image replacement changes nothing more when applied to already saved elements |
| `Model.StoredImage` | model/CardModel.js:129 | `JSON.stringify` with no replacer writes a bitmap as the empty object and any other image value as it is; no bitmap is ever written |
| `Model.StoredElements` | model/CardModel.js:126-131 | a written element list has one entry per element, each with its image written as `StoredImage` says |
| `Model.Serialized` | model/CardModel.js:126-131 | a written catalog has one entry per card, with the same name and texts and its elements written as `StoredElements` says |
| `Model.StoredElementsOfPortable` | model/CardModel.js:113-124 | elements made by a save hold no bitmap, so writing them stores them unchanged |
| `Model.SerializedIdempotent` | model/CardModel.js:126-142 | writing a catalog that was read back from the store stores the same thing again |
| `Model.WrittenCatalogAgrees` | model/CardModel.js:100-138 | right after a write, the store parses and agrees with the in-memory catalog in length, names and (serialized) elements |
| `Model.SpliceOne` | model/CardModel.js:42-44 | `splice(start, 1)`: removes index `start` when in range, counts a negative start from the end (the first item below `-len`), and changes nothing at or past the end |
| `Model.ShapeColor` | model/CardModel.js:57 | a shape's colour is the given non-empty colour, otherwise `#000`; never empty |
| `Model.CardModel.constructor` | model/CardModel.js:3-11 | empty texts and elements; both selections null; the catalog as the store holds it; the store agrees with the catalog |
| `Model.CardModel.PutTexts` | controller/CardController.js:23 | writing the live texts list also writes the texts of the catalog entry whose array it is (if any), and keeps the store in agreement with the catalog |
| `Model.CardModel.AddText` | model/CardModel.js:13-23 | appends exactly one text with the given fields and rotation 0; earlier texts stay; the new last index is selected; a linked catalog entry sees the new list |
| `Model.CardModel.SelectText` | model/CardModel.js:24-26 | selects any given index and touches nothing else, the element selection included |
| `Model.CardModel.SetText` | model/CardModel.js:27-29 | no-op with no selection; it throws without change when the selection names no text; otherwise only `text` of the selected text changes |
| `Model.CardModel.SetFontSize` | model/CardModel.js:30-32 | as `SetText`, for `fontSize` |
| `Model.CardModel.SetColor` | model/CardModel.js:33-35 | as `SetText`, for `color` |
| `Model.CardModel.SetPosition` | model/CardModel.js:36-41 | as `SetText`, for `x` and `y` together |
| `Model.CardModel.SetTextRotation` | model/CardModel.js:90-92 | as `SetText`, for `rotation` |
| `Model.CardModel.DeleteText` | model/CardModel.js:42-44 | the texts become `SpliceOne(texts, idx)`; the selection is not touched |
| `Model.CardModel.AddImage` | model/CardModel.js:46-49 | appends one image with defaults x=0, y=0, w=500, h=300 and rotation 0 for omitted arguments; selects its index; the text selection is not touched |
| `Model.CardModel.AddShape` | model/CardModel.js:50-61 | appends one shape with rotation `options.rotation` or 0, `fill` false unless given, and colour per `ShapeColor`; selects its index |
| `Model.CardModel.DeleteElement` | model/CardModel.js:62-67 | an out-of-range index changes nothing; otherwise exactly element `idx` is removed, and the element selection becomes null iff it was `idx`, with any other index left unshifted; a null index on a non-empty list removes element 0 and leaves the selection as it was, and on an empty list changes nothing |
| `Model.CardModel.SetElementPosition` | model/CardModel.js:68-73 | a null or out-of-range index is a no-op; otherwise only `x` and `y` of that element change |
| `Model.CardModel.SetElementSize` | model/CardModel.js:74-79 | as `SetElementPosition`, for `width` and `height` |
| `Model.CardModel.SetElementRotation` | model/CardModel.js:80-84 | as `SetElementPosition`, for `rotation` |
| `Model.CardModel.SetElementColor` | model/CardModel.js:85-89 | as `SetElementPosition`, for `color`, on shapes and images alike |
| `Model.CardModel.SetImageRotation` | model/CardModel.js:93-98 | only a selected element that exists and is an image gets the new rotation; otherwise nothing changes |
| `Model.CardModel.SaveCard` | model/CardModel.js:100-111 | the catalog grows by one snapshot named `Sem nome`, and the store then holds the whole catalog as `Serialized` writes it |
| `Model.CardModel.SaveCardWithName` | model/CardModel.js:113-124 | the catalog grows by one snapshot named `name`, or `Sem nome` if it is empty; the store then holds the whole catalog as `Serialized` writes it |
| `Model.CardModel.UpdateSaved` | model/CardModel.js:126-131 | in range, entry `idx` is replaced by the given card as it is, bitmaps included, and the store holds the catalog as `Serialized` writes it; out of range, nothing changes |
| `Model.CardModel.DeleteSaved` | model/CardModel.js:133-138 | in range, exactly entry `idx` is removed and the store holds the catalog as `Serialized` writes it; out of range, nothing changes |
| `View.GetElementResizeHandleAt` | view/CardView.js:93-103 | returns the lowest index whose open 12x12 square at the bottom-right corner holds the point, and only a valid index; otherwise null, and always null when there are no elements |
| `View.GetElementAt` | view/CardView.js:106-113 | returns the highest index whose open body box holds the point, and only a valid index; otherwise null, and always null when there are no elements |
| `View.HandleWithinBody` | view/CardView.js:98-110 | on an element at least 12 by 12, every point of the handle square is also inside the body |
| `View.BodyEdgesMiss` | view/CardView.js:110 | no point on a body's four edges is a body hit |
| `View.JoinLength` | view/CardView.js:126 | a join is as long as its parts together plus one separator between each pair |
| `View.JoinEmptyIff` | view/CardView.js:126 | with a non-empty separator, a join is empty iff it has at most one part and that part is empty |
| `View.Title` | view/CardView.js:126 | a non-empty name is the title; otherwise a card with at least one text is titled by its texts joined with the separator; otherwise `Cartão vazio` |
| `View.TitleEmptyIff` | view/CardView.js:126 | a card's title is empty iff it has no name and exactly one text, whose content is empty |
| `View.TitleOfTexts` | view/CardView.js:126 | an unnamed card with texts is titled by its single text, or by all of them joined with the separator (length stated exactly) |
| `View.SavedCardTitle` | view/CardView.js:126 | a card saved by the editor is always titled by its name, or by `Sem nome` |
| `View.ShownColor` | view/CardView.js:156 | the colour field shows the element's non-empty colour; a missing or empty colour shows `#000` |
| `View.UpdateControls` | view/CardView.js:145-163 | a valid text selection takes precedence and shows its text, size and colour; otherwise a valid element selection shows only its colour; otherwise the text field is cleared; the text field is never written while focused |
| `Controller.TopTextAt` | controller/CardController.js:161-182 | returns the highest index whose measured box, centred on the anchor, holds the point; null iff no text's box does |
| `Controller.ResizeExtent` | controller/CardController.js:216-221 | the new extent is at least 50; at most the canvas space beyond the origin when that space is at least 50; exactly the pointer-minus-origin when that lies between them |
| `Controller.DragOrigin` | controller/CardController.js:227-230 | the new origin is at least 0; the image ends inside the canvas whenever it fits; exactly pointer minus offset when that already fits |
| `Controller.CardController.constructor` | controller/CardController.js:5-18 | a fresh model with the stored catalog; no gesture active; offset (0, 0) |
| `Controller.CardController.PointerDown` | controller/CardController.js:153-207 | the topmost text hit wins: it is selected and a drag starts with offset = point - anchor. Otherwise the handle starts a resize, then the body starts an image drag with its offset. Otherwise only the text selection is cleared. |
| `Controller.CardController.PointerMove` | controller/CardController.js:208-239 | a resize requests `ResizeExtent` on both axes; otherwise an image drag requests `DragOrigin` on both axes; otherwise a text drag moves the selected text's anchor to pointer - offset, unclamped |
| `Controller.CardController.EndGesture` | controller/CardController.js:250-259 | on `mouseup` and `mouseleave` all three gesture flags become false, whatever they were |
| `Controller.CardController.RotateTo` | controller/CardController.js:144-148 | sets a selected text's rotation; with no text selected and an image present, it rotates the selected element if that is an image |
| `Controller.CardController.RotateStep` | controller/CardController.js:119-140 | the buttons add -15 or +15 to the selected text's rotation (missing counts as 0); with no text selected, they set the image element's rotation to the legacy image rotation plus the step |
| `Controller.CardController.RotationFieldChanged` | controller/CardController.js:141-151 | a non-numeric field yields rotation 0. The value goes to the selected text, with the elements kept and the linked catalog entry updated; or else to the image, with texts and catalog kept. A selection naming no text throws with texts, elements and catalog unchanged |
| `Controller.CardController.DeletePressed` | controller/CardController.js:106-116 | with a text selected, it is spliced out and the selection nulled; otherwise, if an image is present, an image delete is requested |
| `Controller.CardController.LoadSaved` | controller/CardController.js:22-24 | the texts become the card's texts, or empty if it has none; the first text is selected if there is any, else none is; the live list is linked to that entry |
| `Controller.TextPreemptsElements` | controller/CardController.js:160-187 | if any text is hit, pointer-down picks a text at or above it, before the handle or body tests run |
| `Controller.SelectionIsNotExclusive` | model/CardModel.js:46-61 | after adding a text and then a shape, both a text and an element are selected |
| `Controller.EditingLoadedCardRewritesIt` | controller/CardController.js:22-24 | after save, load, edit and a second save, the stored first card carries the edited text |

## Left out

- Rendering (`renderCard`, view/CardView.js:13-90): canvas drawing, the transform stack and trigonometric rotation.
- DOM work: building the saved-card list (view/CardView.js:115-143 apart from the title), cursor feedback (controller/CardController.js:241-248), and view/main.js, which only wires elements to the controller. Focus enters `View.UpdateControls` as a boolean.
- Image decoding and file input (drop, paste, `FileReader`, `loadImageFromDataURL`): asynchronous browser services. An image is an opaque `Bitmap` with its `src`.
- Text measurement (`measureText`): a foreign call. The measured width enters `PointerDown` as the function `measure`.
- `localStorage` and JSON: the catalog's key is the field `stored`. JSON's value conversions (NaN to null, dropped `undefined` fields) are not modelled. A bitmap, written by a `JSON.stringify` with or without the replacer, becomes the value `EmptyObject` unless the replacer turns its `src` into a string.
- The legacy single-image members the controller calls but the model does not define (`model.image`, `imageX`, `imageY`, `imageWidth`, `imageHeight`, `imageRotation`, `setImage`, `setImageSize`, `setImagePosition`, `deleteImage`, `isMouseOnImage`, `isMouseOnImageResizeHandle`). Their values enter as `LegacyImage` and the hit booleans. The two hit tests are called on the view (controller/CardController.js:190, 196), and view/CardView.js does not define them either. Taken as shown, a press that misses every text throws a TypeError at line 190, so line 204 is never reached. The model assumes both calls exist and return the booleans `onImageHandle` and `onImage`. Their calls leave as `ImageRequest`. The writes a load makes to these fields (controller/CardController.js:25-41: `imageX` to `imageRotation`, `model.image = c.image || null`, and the asynchronous decode of a string `image` at lines 31-37) are not modelled. A card this editor saved has no top-level `image`, so after loading one `model.image` is null, and callers should then pass a `LegacyImage` with `present == false`.
- The rotation-field refresh in `renderAll` (controller/CardController.js:50-59), which reads the legacy image fields. The refresh only writes the field's displayed value; what an edit of the field does is `Controller.CardController.RotationFieldChanged`.
- The input handlers that only forward to modelled operations (controller/CardController.js:62-105): Enter adds a text, the text, size and colour fields call the setters, and the save button calls `SaveCardWithName` with the trimmed name or `Sem nome`. String trimming and `parseInt` are not modelled.
- Numbers are exact reals, with no NaN or Infinity. Pointer methods take canvas coordinates. The conversion the handlers inline (controller/CardController.js:154-158, 209-213) is `Utils.ClientToCanvas`.
- `DeleteText`, `UpdateSaved` and `DeleteSaved` take integer indices, not null: `deleteText` is called only when the selection is not null (controller/CardController.js:107-108), `deleteSaved` with a list position (controller/CardController.js:46), and `updateSaved` has no caller.
- Utils.ClientToCanvas: requires a non-zero on-screen box size. In the source a zero size gives Infinity or NaN.
- Model.CardModel.constructor: requires a stored value that parses. The source's constructor throws on one that does not, and `Model.LoadSavedCards` models that throw.
- Canvas-size capture and rescale on load, and a "currently loaded card" that a later save would overwrite: the code has neither.
