# OSMView slippy map — a verified model

This project models `OSMView`, the map widget of the game's front end. It has a
viewport over OpenStreetMap raster tiles and a layer of markers. The widget can
be dragged with a pointer, and zoomed with the wheel, a double click or the
`+`/`-` buttons. A click that does not drag picks a coordinate. A host
(a LiveView hook) pushes new options into the widget with `update`.

The model has these modules:

- `JsValues` — JavaScript values the widget reads by truthiness or presence.
- `MapMath` — the numeric helpers: clamping, rounding, zoom limits, longitude
  normalisation with JavaScript's truncating `%`, tile-column wrapping and
  wheel-delta scaling.
- `Geometry` —
  - the element's box;
  - `buildViewport`;
  - `cursorToLatLng`;
  - the center updates of a drag and of an anchored zoom.
- `Tiles` — tile keys, the set of keys one viewport needs, and the column whose
  offset a wrapped tile finally gets.
- `Markers` — the logical marker list of each mode, and which markers are
  placed or culled.
- `HostConfig` — the options object, and the `data-*` parsers `parseBoolean`
  and `parseZoom`.
- `Wheel` — the stepping loop of `handleWheel` as a function, under the rule as
  written and under the corrected rule.
- `MapView` — the class `OsmView`. Its fields are the widget's state, and its
  methods are the constructor, `update`, the event handlers, `adjustZoom` and
  one render pass.
  - The tile layer is a `map<TileKey, Tile>`, updated in place by the same
    loops the source runs.
  - The marker layer is a sequence of placed markers.

The spherical-Mercator projection (`latLngToPoint`, `pointToLatLng`) is a pair
of functions the class is built with, so every statement about centers and
offsets holds for any projection.

The animation-frame scheduler is the flag `renderPending`. `RenderNow` is the
frame callback.

A second `pointerdown` before a `pointerup` replaces the drag in progress, in
the model as in the source.

The class is built with an accumulator rule `rule` for the wheel loop.
`AsWritten` is the source's `wheelAccumulator -= step`. `Consuming` is the
correction described under Findings: `wheelAccumulator += step`.

## Model

| member | source | states |
|---|---|---|
| MapMath.Clamp | assets/js/app.js:523 | the result is the value when it lies in `[lo, hi]`, `lo` below, `hi` above, and always within the bounds |
| MapMath.Round | assets/js/app.js:524 | `Math.round` gives the integer nearest the value, halves rounding up |
| MapMath.ZoomInRange | assets/js/app.js:524 | an integer zoom is clamped into `[2, 18]` and kept when already inside |
| MapMath.ClampZoom | assets/js/app.js:524 | the zoom lies in `[2, 18]`; inside the range it is the rounded value; at or beyond a bound it is that bound |
| MapMath.ClampZoomOfInteger | assets/js/app.js:524 | on an integer, `clampZoom` is the integer clamp `ZoomInRange` |
| MapMath.ClampZoomIdempotent | assets/js/app.js:524 | clamping a zoom twice gives the same zoom as clamping once |
| MapMath.JsRemInt | assets/js/app.js:574-577 | JavaScript's integer `%` lies in `[0, m)` for a non-negative dividend and in `(-m, 0]` for a negative one, and differs from the dividend by a multiple of `m` |
| MapMath.Trunc | assets/js/app.js:545 | truncation toward zero: a non-negative value lies in `[t, t + 1)`, a negative one in `(t - 1, t]` |
| MapMath.JsRem | assets/js/app.js:545 | JavaScript's `%` on numbers differs from the dividend by a whole multiple of the divisor; by a positive divisor it lies in `[0, b)` for a non-negative dividend and in `(-b, 0]` for a negative one |
| MapMath.Pow2 | assets/js/app.js:411 | `2 ** zoom`, the number of tiles per axis, is at least 1 |
| MapMath.WrapTileIndex | assets/js/app.js:574-577 | the wrapped column lies in `[0, 2^zoom)` and equals the floored modulo of the column |
| MapMath.WrapIsFlooredModulo | assets/js/app.js:576 | `((v % m) + m) % m` with truncating `%` is the floored remainder, for negative columns too |
| MapMath.WrapTileIndexPeriodic | assets/js/app.js:574-577 | columns one world (`2^zoom`) apart wrap to the same index |
| MapMath.NormalizeLng | assets/js/app.js:544-547 | a normalised longitude lies in `[-180, 180)` |
| MapMath.NormalizeLngIsJs | assets/js/app.js:545 | the normalised longitude is the source's `((((lng + 180) % 360) + 360) % 360) - 180` with JavaScript's truncating `%` |
| MapMath.NormalizeIsFloored | assets/js/app.js:545 | the two truncating remainders add up to one floored remainder by 360 |
| MapMath.NormalizeLngPeriodic | assets/js/app.js:544-547 | longitudes one full turn apart normalise to the same value |
| MapMath.NormalizeLngIdentity | assets/js/app.js:544-547 | a longitude already in `[-180, 180)` is left unchanged |
| MapMath.ClampLatLng | assets/js/app.js:526-532 | the result is clamped (Mercator latitude range, normalised longitude); its latitude is the clamped latitude and its longitude the normalised longitude; a clamped coordinate is kept |
| MapMath.NormalizeWheelDelta | assets/js/app.js:534-542 | the delta keeps its sign; line mode divides by 12, page mode by 4, pixel mode by 240 |
| Geometry.BuildViewport | assets/js/app.js:376-387 | a nonzero box width (height) is taken; a zero one falls back to a nonzero client width (height), and to 1 when that is zero too, so neither is zero; the projected center sits exactly in the middle of the viewport |
| Geometry.CursorToLatLng | assets/js/app.js:363-374 | a coordinate is returned exactly when a viewport exists and the release point lies within the element; it is clamped and is the point under the cursor in the last viewport |
| Geometry.DragCenter | assets/js/app.js:262-270 | the center a drag sets is a clamped coordinate |
| Geometry.AnchorCenter | assets/js/app.js:337-361 | the center after an anchored zoom is a clamped coordinate |
| Tiles.TileIndexOf | assets/js/app.js:407-410 | the index is that of the tile containing the coordinate: `i * 256 <= c < (i + 1) * 256` |
| Tiles.NeededKeys | assets/js/app.js:406-421 | every needed key has the current zoom, a wrapped column in `[0, 2^zoom)` and a row in the row range and inside the world |
| Tiles.LastColumn | assets/js/app.js:413-436 | the last column up to `endX` wrapping to a key lies within one world (`2^zoom` columns) of `endX` |
| Tiles.RowKeys | assets/js/app.js:415-421 | a column reaches exactly the keys of its wrapped index whose row is in the range and inside the world |
| Tiles.LastColumnIsLast | assets/js/app.js:413-434 | `LastColumn` is the largest column up to `endX` wrapping to the key, which is the column whose `translate` a shared tile keeps |
| Tiles.NeededKeysMembers | assets/js/app.js:413-421 | a key is needed iff its zoom is the current one, its row is in range and inside the world, and some column of the range wraps to its column |
| Tiles.NeededKeysStep | assets/js/app.js:413-421 | adding column `x` to the range adds exactly that column's keys |
| Tiles.NeededKeysStepCovered | assets/js/app.js:413-421 | every key of the range up to `x` is a key of the range up to `x - 1` or of column `x` |
| Tiles.NeededKeysStepKept | assets/js/app.js:413-421 | the keys of the range up to `x - 1` and of column `x` are all keys of the range up to `x` |
| Tiles.NeededKeysEmpty | assets/js/app.js:413 | an empty column range needs no tiles |
| Tiles.WideViewportNeedsEveryColumn | assets/js/app.js:413-421 | a viewport at least one world wide needs every column of the world on each visible row |
| Markers.ActualMarker | assets/js/app.js:453-461 | the reveal-mode `actual` marker carries the actual coordinate and kind `actual` |
| Markers.GuessMarker | assets/js/app.js:466-479 | a guess marker is `self` iff the widget's player id is truthy and equals the guess's; it has a `pts` label iff the points are finite; it has a title iff the player name is truthy, the name followed by ` • <points> pts` when the points are finite and the name alone otherwise |
| Markers.GuessMarkers | assets/js/app.js:463-480 | the guess markers are never more than the guesses, and each is `self` or `other` |
| Markers.GuessMarkersAppend | assets/js/app.js:463-480 | filtering and mapping the guesses commutes with concatenation, so the input order is kept |
| Markers.GuessMarkersAllFinite | assets/js/app.js:463-480 | when every guess is finite there is one marker per guess, at the same position |
| Markers.GuessMarkersNoneFinite | assets/js/app.js:464 | guesses without finite coordinates contribute no marker |
| Markers.ModeMarker | assets/js/app.js:481-487 | outside reveal mode the marker is `self` in guess mode and `primary` otherwise, and has no label |
| Markers.MarkerList | assets/js/app.js:450-487 | in reveal mode only the first entry can be `actual`, and it is `actual` exactly when the actual coordinate is finite; the entries after it are exactly the guess markers, and the first is the actual marker when the actual coordinate is finite; there are at most guesses + 1 entries. Outside reveal mode there is one entry iff the marker is finite, and it is the mode's marker for that coordinate |
| Markers.Place | assets/js/app.js:489-492 | a marker element is placed at its projected point minus the viewport's top-left, keeping its kind, title and label |
| Markers.Rendered | assets/js/app.js:489-519 | no drawn marker lies more than 60 pixels outside the viewport, and no more are drawn than listed |
| Markers.RenderedExactly | assets/js/app.js:494-501 | a listed marker is drawn exactly when it is not culled |
| Markers.RenderedSingle | assets/js/app.js:489-501 | a single listed marker is drawn, at its placement, exactly when that placement is not culled |
| Markers.RenderedFromList | assets/js/app.js:489-519 | every drawn element is the placement of some listed marker |
| Markers.RenderedAppend | assets/js/app.js:489-519 | drawing a concatenation draws each part in order |
| HostConfig.ValueOrNull | assets/js/app.js:41-42 | `options.x ?? null` has a value exactly when the key is present with a non-null value, and for a present key it is that key's value |
| HostConfig.GuessesOf | assets/js/app.js:43 | a non-array `guesses` becomes the empty list; an array is kept |
| HostConfig.ControlsShown | assets/js/app.js:44 | the controls are hidden exactly when `controls` is `false` |
| HostConfig.InitialCenter | assets/js/app.js:52-54 | the initial center is `options.center` when given; otherwise the marker's coordinate when there is a marker; otherwise the actual coordinate when there is one; otherwise the default center |
| HostConfig.ParseBoolean | assets/js/app.js:594-599 | `"false"`/`"0"` give false, `"true"`/`"1"` give true, and anything else or a missing attribute gives the fallback |
| HostConfig.ParseZoom | assets/js/app.js:589-592 | an unparsed value gives the fallback; a parsed one gives its clamped zoom, within `[2, 18]` |
| Wheel.StepFor | assets/js/app.js:312 | the step is `-1` (zoom out) exactly when the accumulator is positive, and `+1` otherwise |
| Wheel.Drain | assets/js/app.js:308-320 | the loop from `steps` accepted steps ends with between `steps` and four accepted steps, and a loop that ends on a rejected step leaves the accumulator at 0 |
| Wheel.DrainView | assets/js/app.js:308-320 | when the loop accepts no further step, the view is left as it is |
| Wheel.DrainTurn | assets/js/app.js:312-319 | one turn of the loop: an accepted step continues the loop from the settled accumulator, the target zoom and the anchored view; a refused one ends it with the accumulator cleared and the view unchanged |
| Wheel.DrainStops | assets/js/app.js:308-320 | under either rule: at most four `adjustZoom` calls per event; a rejected step clears the accumulator; otherwise the loop ends with under one unit left or after four steps |
| Wheel.DrainZoomInRange | assets/js/app.js:308-320 | the wheel loop keeps the zoom in `[2, 18]` |
| Wheel.DrainZoomsOut | assets/js/app.js:311-313 | a positive accumulator zooms out exactly one level per accepted step |
| Wheel.DrainZoomsIn | assets/js/app.js:311-313 | a negative accumulator zooms in exactly one level per accepted step |
| Wheel.DrainConsumes | assets/js/app.js:308-320 | with the corrected rule, each accepted step takes one unit off the accumulator's magnitude and its sign never flips |
| Wheel.DrainSettles | assets/js/app.js:308-320 | with the corrected rule, an accumulator under five units is left under one unit unless a step was rejected |
| Wheel.OneNotchOneStep | assets/js/app.js:304-320 | with the corrected rule, one 240-pixel notch above the minimum zoom makes exactly one anchored zoom-out step and empties the accumulator |
| Wheel.AsWrittenGrows | assets/js/app.js:318 | with the rule as written, each accepted step adds one unit to the accumulator's magnitude |
| Wheel.AsWrittenOneNotch | assets/js/app.js:318 | with the rule as written, one notch at zoom 10 gives four zoom-out steps to zoom 6 and leaves 5 units |
| MapView.TileRange | assets/js/app.js:407-410 | for a viewport of non-negative width (height) the first column (row) is not after the last |
| MapView.RemoveStale | assets/js/app.js:439-444 | after removing the elements that are not needed, the layer holds exactly the needed keys, each with its element unchanged |
| MapView.PlaceTile | assets/js/app.js:418-436 | a tile is found by key or created with a fresh identity and then positioned; every other tile is unchanged |
| MapView.PlaceColumn | assets/js/app.js:415-437 | the row loop places exactly the column's in-world keys at the column's offsets |
| MapView.PlaceColumns | assets/js/app.js:413-437 | the column loop places exactly the needed keys, each at the offset of the last column wrapping to it; kept tiles keep their element |
| MapView.OsmView.constructor | assets/js/app.js:36-102 | the accumulator rule `rule` is the one given; every field is set from the options as the constructor reads them (mode, player id, clamped zoom, marker, actual, guesses, controls); the center is the clamped `center ‖ marker ‖ actual ‖ default`; a render is scheduled |
| MapView.OsmView.SetSelectHandler | assets/js/app.js:154-156 | a selection handler is installed or removed |
| MapView.OsmView.Render | assets/js/app.js:389-394 | a frame is pending afterwards |
| MapView.OsmView.Update | assets/js/app.js:158-203 | each option applies as `update` reads it; a mode change resets the interaction flag; the zoom and center follow the host only while the user has not interacted or the mode changed; a render is scheduled |
| MapView.OsmView.AdoptMode | assets/js/app.js:159-165 | a truthy new mode is taken, and a changed mode clears the interaction flag |
| MapView.OsmView.AdoptData | assets/js/app.js:167-196 | the player id, marker, actual, guesses and controls change exactly for the keys present |
| MapView.OsmView.AdoptView | assets/js/app.js:171-200 | zoom and center follow the host only when the host leads, and stay valid |
| MapView.OsmView.HandlePointerDown | assets/js/app.js:230-246 | a primary-button press off the controls starts a drag from the current center; anything else changes nothing |
| MapView.OsmView.HandlePointerMove | assets/js/app.js:248-272 | a foreign pointer changes nothing; the drag latches `moved` past 2 pixels on an axis, and from then on the center is the drag-start center moved against the pointer |
| MapView.OsmView.HandlePointerUp | assets/js/app.js:274-293 | the dragging pointer ends the drag; a selection is reported iff the press never moved, a handler is installed, the mode is not reveal and the point lies in the element; the selection is that clamped coordinate |
| MapView.OsmView.AdjustZoom | assets/js/app.js:337-361 | the zoom changes iff the clamped target differs; it then becomes the target with the center anchored at the focus; otherwise nothing changes |
| MapView.OsmView.HandleWheel | assets/js/app.js:295-321 | a zero delta changes nothing but the interaction flag; otherwise the accumulator, zoom and center are what the wheel loop under the view's `rule` gives from the accumulator plus the delta (`AsWritten` is line 318 as written, `Consuming` the corrected rule) |
| MapView.OsmView.DrainWheel | assets/js/app.js:308-320 | the stepping loop ends in the state `Drain`/`DrainView` describe under the view's `rule` |
| MapView.OsmView.WheelStep | assets/js/app.js:312-319 | one loop turn moves the state one step of `Drain`/`DrainView`; an accepted step settles the accumulator by the view's `rule` |
| MapView.OsmView.HandleDoubleClick | assets/js/app.js:323-335 | the accumulator is cleared, and the zoom moves one level in (out with shift) about the cursor, within the zoom range |
| MapView.OsmView.HandleZoomButton | assets/js/app.js:113-128 | the accumulator is cleared, and the zoom moves one level about the element's middle, within the zoom range |
| MapView.OsmView.RenderNow | assets/js/app.js:396-403 | the viewport is stored; the tile layer is the one the viewport needs; the marker layer is exactly the unculled markers of the mode's list |
| MapView.OsmView.RenderTiles | assets/js/app.js:405-445 | the tile layer holds exactly the needed keys, each at the offset of the last column wrapping to it; a tile already present keeps its element and a new one gets a new element |
| MapView.OsmView.RenderMarkers | assets/js/app.js:447-520 | the marker layer is cleared and refilled with exactly the placed, unculled markers of the mode's list, in order |
| MapView.OsmView.CollectMarkers | assets/js/app.js:450-487 | the collected list is the mode's marker list |
| MapView.OsmView.DrawMarkers | assets/js/app.js:489-519 | the drawn elements are appended in list order, culled ones left out |

## Left out

- The Mercator formulas (`latLngToPoint`, `pointToLatLng`) use `Math.sin`, `Math.log`, `Math.atan` and `Math.exp` on floating point. They are taken as a parameter `Projection`, so nothing is proved about their values.
- Floating point in general: numbers are reals. `NaN` and infinities appear as the `Num.NotFinite` case of host records, and a non-finite `options.zoom` is folded into `Options.zoom == None`.
- MapView.OsmView.constructor: takes `None` for `options.zoom` as 2. In the source a missing zoom gives 2, but `Infinity` gives 18, `-Infinity` gives 2 and `NaN` gives `NaN`; `update` ignores every non-finite zoom, as the model does.
- `normalizeLng`'s fallback to 0 for a non-finite result, and `clampLatLng`'s `null` branch. Every longitude in the model is a real, so neither can occur.
- MapView.OsmView.constructor: requires that a center built from `marker` or `actual` has finite parts. A non-finite part has no real value to carry. In the source the outcome depends on the value. For a numeric, `null` or `undefined` part: an infinite latitude clamps to the Mercator bound, a `null` one becomes 0, a `NaN` or `undefined` one leaves `NaN` in the center, and a non-finite longitude normalises to 0. Other values are converted: `Math.max` turns a latitude into a number (a string that is not a number gives `NaN`), and `+` concatenates a string longitude with 180 and adds a boolean as 0 or 1, so such a longitude can land on some other longitude. The widget's own callers pass coordinates that are finite or `null` from `parseLatLng`.
- The DOM: creating, styling, appending and removing elements; `setPointerCapture`; the `is-dragging` class; `preventDefault`; the order of children in the tile layer. Tile elements are modelled by identity and offset only.
- `requestAnimationFrame` timing, `ResizeObserver`, `destroy`, `createControls`, `createAttribution` and `updateControlsVisibility`. The zoom buttons' click handlers are modelled by `HandleZoomButton`. The controls' visibility is the field `showControls`.
- `toFixed(6)` rounding of the selected coordinate passed to the handler. `HandlePointerUp` returns the unrounded clamped coordinate.
- `tileUrl`: a tile's image source is determined by its key, so the model keeps only the key.
- Number-to-text conversion in labels: it is the parameter `numberText`.
- `parseNumber`, `parseJson`, `parseGuesses`, `parseLatLng` and the LiveView hooks object. `ParseZoom` takes `parseNumber`'s result as its input.
- How `handlePointerDown` recognises the controls and the attribution (`closest(...)`): it is the flag `onChrome`.
- Player ids are strings only. A guess whose `player_id` is a number while the widget's `playerId` is a string never matches under `===`; the model cannot express that mismatch.
- MapView.OsmView.RenderTiles: does not state that the identities given to new elements are distinct from each other. It states only that each new identity is at least the counter's value before the pass.

## Findings

| source | as written | input that shows it | evidently intended | confidence | as-written member | corrected member |
|---|---|---|---|---|---|---|
| assets/js/app.js:318 | `this.wheelAccumulator -= step`, where `step` is `-1` for a positive accumulator, so each accepted step moves the accumulator one unit away from zero | one 240-pixel wheel notch (`deltaY = 240`, pixel mode) at zoom 10 with an empty accumulator: four zoom-out steps to zoom 6, and 5 units left for the next event | each accepted step consumes one unit (`wheelAccumulator += step`): one notch gives one zoom step and leaves 0 | not executed | Wheel.AsWrittenOneNotch | Wheel.OneNotchOneStep |
