/** Screen and world geometry around the map: the element's box, the viewport
    built from the center and zoom, and the center updates of dragging and of
    anchored zooming. The spherical-Mercator projection itself is supplied from
    outside as a pair of functions. */
module Geometry {
  import opened JsValues
  import opened MapMath

  /** A pixel position on the world plane at some zoom. */
  datatype WorldPoint = WorldPoint(x: real, y: real)

  /** A pixel position relative to the map element's top-left corner. */
  datatype ScreenPoint = ScreenPoint(x: real, y: real)

  /** What `getBoundingClientRect()` reports for the map element. */
  datatype Rect = Rect(left: real, top: real, width: real, height: real)

  /** The element's box: its bounding rectangle and its `clientWidth`/`clientHeight`. */
  datatype Surface = Surface(rect: Rect, clientWidth: real, clientHeight: real)

  /** The visible world-pixel rectangle of one render pass. */
  datatype Viewport = Viewport(width: real, height: real, topLeftX: real, topLeftY: real, centerPoint: WorldPoint)

  /** `latLngToPoint(lat, lng, zoom)` and `pointToLatLng(x, y, zoom)`. */
  datatype Projection = Projection(toPoint: (real, real, int) -> WorldPoint,
                                   toLatLng: (real, real, int) -> GeoPoint)

  /** JavaScript `v || fallback` on numbers (zero is falsy). */
  function OrElse(v: real, fallback: real): real
  {
    if v != 0.0 then v else fallback
  }

  /** `buildViewport(rect.width, rect.height)`: a zero size falls back to the
      element's client size and then to 1; the projected center sits in the
      middle of the viewport. */
  function BuildViewport(proj: Projection, center: GeoPoint, zoom: int, surface: Surface): (vp: Viewport)
    ensures vp.width != 0.0 && vp.height != 0.0
    ensures surface.rect.width != 0.0 ==> vp.width == surface.rect.width
    ensures surface.rect.height != 0.0 ==> vp.height == surface.rect.height
    ensures surface.rect.width == 0.0 && surface.clientWidth != 0.0 ==> vp.width == surface.clientWidth
    ensures surface.rect.height == 0.0 && surface.clientHeight != 0.0 ==> vp.height == surface.clientHeight
    ensures surface.rect.width == 0.0 && surface.clientWidth == 0.0 ==> vp.width == 1.0
    ensures surface.rect.height == 0.0 && surface.clientHeight == 0.0 ==> vp.height == 1.0
    ensures vp.centerPoint == proj.toPoint(center.lat, center.lng, zoom)
    ensures vp.topLeftX + vp.width / 2.0 == vp.centerPoint.x
    ensures vp.topLeftY + vp.height / 2.0 == vp.centerPoint.y
  {
    var w := OrElse(surface.rect.width, OrElse(surface.clientWidth, 1.0));
    var h := OrElse(surface.rect.height, OrElse(surface.clientHeight, 1.0));
    var centerPoint := proj.toPoint(center.lat, center.lng, zoom);
    Viewport(w, h, centerPoint.x - w / 2.0, centerPoint.y - h / 2.0, centerPoint)
  }

  /** The release-point test of `cursorToLatLng`: inside `[0, width] x [0, height]`. */
  predicate InRect(x: real, y: real, rect: Rect)
  {
    !(x < 0.0 || y < 0.0 || x > rect.width || y > rect.height)
  }

  /** `cursorToLatLng(clientX, clientY)`: nothing before the first render or
      outside the element, otherwise the clamped coordinate under the cursor
      in the last rendered viewport. */
  function CursorToLatLng(proj: Projection, viewport: Option<Viewport>, zoom: int,
                          clientX: real, clientY: real, rect: Rect): (r: Option<GeoPoint>)
    ensures r.Some? <==> viewport.Some? && InRect(clientX - rect.left, clientY - rect.top, rect)
    ensures r.Some? ==> IsClamped(r.value)
    ensures r.Some? ==> r.value == ClampLatLng(proj.toLatLng(viewport.value.topLeftX + (clientX - rect.left),
                                                              viewport.value.topLeftY + (clientY - rect.top), zoom))
  {
    if viewport.None? then None
    else
      var x := clientX - rect.left;
      var y := clientY - rect.top;
      if x < 0.0 || y < 0.0 || x > rect.width || y > rect.height then None
      else Some(ClampLatLng(proj.toLatLng(viewport.value.topLeftX + x, viewport.value.topLeftY + y, zoom)))
  }

  /** The center a drag gives: the drag-start center's world point moved
      against the pointer displacement, projected back and clamped. */
  function DragCenter(proj: Projection, snapshot: GeoPoint, zoom: int, dx: real, dy: real): (c: GeoPoint)
    ensures IsClamped(c)
  {
    var start := proj.toPoint(snapshot.lat, snapshot.lng, zoom);
    ClampLatLng(proj.toLatLng(start.x - dx, start.y - dy, zoom))
  }

  /** The center `adjustZoom` moves to when zooming from `zoom` to `target`
      about `focus` (the element's middle when absent). A clamped coordinate. */
  function AnchorCenter(proj: Projection, center: GeoPoint, zoom: int, target: int,
                        focus: Option<ScreenPoint>, surface: Surface): (c: GeoPoint)
    ensures IsClamped(c)
  {
    var rect := surface.rect;
    var vp := BuildViewport(proj, center, zoom, surface);
    var f := if focus.Some? then focus.value else ScreenPoint(rect.width / 2.0, rect.height / 2.0);
    var focusLatLng := proj.toLatLng(vp.topLeftX + f.x, vp.topLeftY + f.y, zoom);
    var newPoint := proj.toPoint(focusLatLng.lat, focusLatLng.lng, target);
    var centerX := newPoint.x - f.x + rect.width / 2.0;
    var centerY := newPoint.y - f.y + rect.height / 2.0;
    ClampLatLng(proj.toLatLng(centerX, centerY, target))
  }
}
