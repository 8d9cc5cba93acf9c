/** Small arithmetic helpers of the controller (controller/utils.js). */
module Utils {

  /** A point in canvas (or client) coordinates. */
  datatype Point = Point(x: real, y: real)

  /** The on-screen box of the canvas, as `getBoundingClientRect` reports it. */
  datatype Rect = Rect(left: real, top: real, width: real, height: real)

  /** The canvas's own pixel size (`canvas.width`, `canvas.height`). */
  datatype Canvas = Canvas(width: real, height: real)

  function Min(a: real, b: real): real { if a <= b then a else b }

  function Max(a: real, b: real): real { if a >= b then a else b }

  /** `clamp(val, min, max)`: `max` is applied first, so an empty range yields `lo`. */
  function Clamp(v: real, lo: real, hi: real): (r: real)
    ensures lo <= r
    ensures lo <= hi ==> r <= hi
    ensures lo <= v <= hi ==> r == v
    ensures v < lo ==> r == lo
    ensures lo <= hi < v ==> r == hi
    ensures hi < lo ==> r == lo
  {
    Max(lo, Min(hi, v))
  }

  lemma ClampIdempotent(v: real, lo: real, hi: real)
    ensures Clamp(Clamp(v, lo, hi), lo, hi) == Clamp(v, lo, hi)
  {
  }

  /** Within a non-empty range the clamped value is the nearest point of the range to `v`. */
  lemma ClampIsNearest(v: real, lo: real, hi: real, z: real)
    requires lo <= z <= hi
    ensures (if Clamp(v, lo, hi) >= v then Clamp(v, lo, hi) - v else v - Clamp(v, lo, hi))
         <= (if z >= v then z - v else v - z)
  {
  }

  /** Client (page) coordinates to canvas pixels: the box's corner goes to the origin and
      each axis is scaled by canvas size over on-screen size. */
  function ClientToCanvas(canvas: Canvas, rect: Rect, clientX: real, clientY: real): (p: Point)
    requires rect.width != 0.0 && rect.height != 0.0
    ensures p.x * rect.width == (clientX - rect.left) * canvas.width
    ensures p.y * rect.height == (clientY - rect.top) * canvas.height
  {
    var scaleX := canvas.width / rect.width;
    var scaleY := canvas.height / rect.height;
    Point((clientX - rect.left) * scaleX, (clientY - rect.top) * scaleY)
  }

  /** The inverse map, from canvas pixels back to client coordinates. */
  function CanvasToClient(canvas: Canvas, rect: Rect, p: Point): Point
    requires canvas.width != 0.0 && canvas.height != 0.0
  {
    Point(rect.left + p.x * (rect.width / canvas.width), rect.top + p.y * (rect.height / canvas.height))
  }

  lemma ClientToCanvasOrigin(canvas: Canvas, rect: Rect)
    requires rect.width != 0.0 && rect.height != 0.0
    ensures ClientToCanvas(canvas, rect, rect.left, rect.top) == Point(0.0, 0.0)
  {
  }

  /** The map is affine: a displacement in client space is scaled, independently per axis. */
  lemma ClientToCanvasAffine(canvas: Canvas, rect: Rect, x1: real, y1: real, x2: real, y2: real)
    requires rect.width != 0.0 && rect.height != 0.0
    ensures ClientToCanvas(canvas, rect, x2, y2).x - ClientToCanvas(canvas, rect, x1, y1).x
         == (x2 - x1) * (canvas.width / rect.width)
    ensures ClientToCanvas(canvas, rect, x2, y2).y - ClientToCanvas(canvas, rect, x1, y1).y
         == (y2 - y1) * (canvas.height / rect.height)
  {
  }

  lemma ClientToCanvasRoundTrip(canvas: Canvas, rect: Rect, clientX: real, clientY: real)
    requires rect.width != 0.0 && rect.height != 0.0
    requires canvas.width != 0.0 && canvas.height != 0.0
    ensures CanvasToClient(canvas, rect, ClientToCanvas(canvas, rect, clientX, clientY)) == Point(clientX, clientY)
  {
  }
}
