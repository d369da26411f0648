/** The `OSMView` widget: its state, the host's `update`, the pointer, wheel,
    double-click and zoom-button handlers, and one render pass over the tile map
    and the marker layer. */
module MapView {
  import opened JsValues
  import opened MapMath
  import opened Geometry
  import opened Tiles
  import opened Markers
  import opened Wheel
  import opened HostConfig

  /** A drag in progress: the pointer that started it, where it went down, the
      center at that moment, and whether it has passed the movement threshold. */
  datatype DragState = DragState(id: int, origin: ScreenPoint, centerSnapshot: GeoPoint, moved: bool)

  /** A pointer must move more than this many pixels on an axis before it drags. */
  const DRAG_THRESHOLD: real := 2.0

  /** The tile layer holds only keys of real tiles at a valid zoom, and its
      elements carry identities below the next one to be handed out. */
  ghost predicate TilesWellFormed(tiles: map<TileKey, Tile>, nextTileId: nat)
  {
    forall k :: k in tiles ==>
      MIN_ZOOM <= k.zoom <= MAX_ZOOM && 0 <= k.x < Pow2(k.zoom) && 0 <= k.y < Pow2(k.zoom)
      && tiles[k].id < nextTileId
  }

  /** Removing elements from a well-formed tile layer keeps it well formed. */
  lemma SubLayerWellFormed(small: map<TileKey, Tile>, large: map<TileKey, Tile>, nextTileId: nat)
    requires TilesWellFormed(large, nextTileId)
    requires forall k :: k in small ==> k in large && small[k] == large[k]
    ensures TilesWellFormed(small, nextTileId)
  {
  }

  /** The removal pass of `renderTiles`: every element whose key is not in
      `needed` is removed from `layer`; the others stay as they are. */
  method RemoveStale(layer: map<TileKey, Tile>, needed: set<TileKey>) returns (kept: map<TileKey, Tile>)
    requires needed <= layer.Keys
    ensures kept.Keys == needed
    ensures forall k :: k in kept ==> k in layer && kept[k] == layer[k]
  {
    kept := layer;
    var stale := kept.Keys - needed;
    while stale != {}
      invariant forall k :: k in stale ==> k !in needed
      invariant forall k :: k in kept <==> k in needed || k in stale
      invariant forall k :: k in kept ==> k in layer && kept[k] == layer[k]
      decreases |stale|
    {
      var k :| k in stale;
      kept := kept - {k};
      stale := stale - {k};
    }
  }

  /** One tile of `renderTiles`: the element found under `key` is moved to
      `(left, top)`, or a new element is created there when there is none. */
  method PlaceTile(layer: map<TileKey, Tile>, nextId: nat, key: TileKey, left: real, top: real)
    returns (placed: map<TileKey, Tile>, nextId': nat)
    requires TilesWellFormed(layer, nextId)
    requires MIN_ZOOM <= key.zoom <= MAX_ZOOM && 0 <= key.x < Pow2(key.zoom) && 0 <= key.y < Pow2(key.zoom)
    ensures TilesWellFormed(placed, nextId') && nextId <= nextId'
    ensures forall k :: k in placed <==> k in layer || k == key
    ensures placed[key].left == left && placed[key].top == top
    ensures key in layer ==> placed[key].id == layer[key].id
    ensures key !in layer ==> nextId <= placed[key].id
    ensures forall k :: k in layer && k != key ==> placed[k] == layer[k]
  {
    if key in layer {
      placed, nextId' := layer[key := Tile(layer[key].id, left, top)], nextId;
    } else {
      placed, nextId' := layer[key := Tile(nextId, left, top)], nextId + 1;
    }
  }

  /** `placed` is `layer` with the tiles of `column` placed at column `x`'s
      offset: a tile already in `layer` keeps its element, a new one has an
      identity from `nextId` on, and every other tile is untouched. */
  ghost predicate ColumnPlaced(layer: map<TileKey, Tile>, nextId: nat, placed: map<TileKey, Tile>,
                               column: set<TileKey>, x: int, vp: Viewport)
  {
    && (forall k :: k in placed <==> k in layer || k in column)
    && (forall k :: k in placed ==>
          if k in column then
            && placed[k].left == (x * TILE_SIZE) as real - vp.topLeftX
            && placed[k].top == (k.y * TILE_SIZE) as real - vp.topLeftY
            && (k in layer ==> placed[k].id == layer[k].id) && (k !in layer ==> nextId <= placed[k].id)
          else placed[k] == layer[k])
  }

  /** Placing one more tile of column `x` extends `ColumnPlaced` by its key. */
  lemma ColumnPlacedStep(layer: map<TileKey, Tile>, nextId: nat, before: map<TileKey, Tile>, nextBefore: nat,
                         placed: map<TileKey, Tile>, column: set<TileKey>, key: TileKey, x: int, vp: Viewport)
    requires ColumnPlaced(layer, nextId, before, column, x, vp) && nextId <= nextBefore && key !in column
    requires forall k :: k in placed <==> k in before || k == key
    requires placed[key].left == (x * TILE_SIZE) as real - vp.topLeftX
    requires placed[key].top == (key.y * TILE_SIZE) as real - vp.topLeftY
    requires key in before ==> placed[key].id == before[key].id
    requires key !in before ==> nextBefore <= placed[key].id
    requires forall k :: k in before && k != key ==> placed[k] == before[k]
    ensures ColumnPlaced(layer, nextId, placed, column + {key}, x, vp)
  {
  }

  /** The inner loop of `renderTiles` over the rows of column `x` at `zoom`: the
      column's tiles inside the world are placed at that column's offset, reusing
      the element under each key, and their keys are returned. */
  method PlaceColumn(layer: map<TileKey, Tile>, nextId: nat, zoom: int, x: int, startY: int, endY: int, vp: Viewport)
    returns (placed: map<TileKey, Tile>, nextId': nat, column: set<TileKey>)
    requires MIN_ZOOM <= zoom <= MAX_ZOOM && TilesWellFormed(layer, nextId)
    ensures TilesWellFormed(placed, nextId') && nextId <= nextId'
    ensures column == RowKeys(zoom, WrapTileIndex(x, zoom), startY, endY)
    ensures ColumnPlaced(layer, nextId, placed, column, x, vp)
  {
    var wrappedX := WrapTileIndex(x, zoom);
    var maxIndex := Pow2(zoom);
    placed, nextId', column := layer, nextId, {};
    var y := startY;
    while y <= endY
      invariant startY <= y && (y <= endY + 1 || y == startY)
      invariant forall k :: k in column <==>
        k.zoom == zoom && k.x == wrappedX && startY <= k.y < y && 0 <= k.y < maxIndex
      invariant TilesWellFormed(placed, nextId') && nextId <= nextId'
      invariant ColumnPlaced(layer, nextId, placed, column, x, vp)
      decreases endY - y
    {
      if 0 <= y < maxIndex {
        var left := (x * TILE_SIZE) as real - vp.topLeftX;
        var top := (y * TILE_SIZE) as real - vp.topLeftY;
        var key := TileKey(zoom, wrappedX, y);
        ghost var before, nextBefore := placed, nextId';
        placed, nextId' := PlaceTile(placed, nextId', key, left, top);
        ColumnPlacedStep(layer, nextId, before, nextBefore, placed, column, key, x, vp);
        column := column + {key};
      }
      y := y + 1;
    }
    assert column == RowKeys(zoom, wrappedX, startY, endY);
  }

  /** `layer` is `before` with the tiles of `needed` placed for the columns up to
      `lastX`: each at the offset of the last of those columns that wraps to it,
      keeping the element it had in `before` or else one from `nextId` on; every
      other tile is untouched. */
  ghost predicate ColumnsPlaced(before: map<TileKey, Tile>, nextId: nat, layer: map<TileKey, Tile>,
                                needed: set<TileKey>, zoom: int, lastX: int, vp: Viewport)
    requires MIN_ZOOM <= zoom
  {
    && (forall k :: k in layer <==> k in before || k in needed)
    && (forall k :: k in layer ==>
          if k in needed then
            && layer[k].left == (LastColumn(lastX, k.x, zoom) * TILE_SIZE) as real - vp.topLeftX
            && layer[k].top == (k.y * TILE_SIZE) as real - vp.topLeftY
            && (k in before ==> layer[k].id == before[k].id) && (k !in before ==> nextId <= layer[k].id)
          else layer[k] == before[k])
  }

  /** Placing column `x` after the columns up to `x - 1` extends `ColumnsPlaced`
      by the column's keys: a key of column `x` now has `x` as its last column,
      and every other key keeps its last column. */
  lemma ColumnsPlacedStep(before: map<TileKey, Tile>, nextId0: nat, layer: map<TileKey, Tile>, nextId: nat,
                          placed: map<TileKey, Tile>, needed: set<TileKey>, column: set<TileKey>,
                          zoom: int, x: int, startY: int, endY: int, vp: Viewport)
    requires MIN_ZOOM <= zoom <= MAX_ZOOM && nextId0 <= nextId
    requires forall k :: k in needed ==>
      k.zoom == zoom && 0 <= k.x < Pow2(zoom) && startY <= k.y <= endY && 0 <= k.y < Pow2(zoom)
    requires ColumnsPlaced(before, nextId0, layer, needed, zoom, x - 1, vp)
    requires column == RowKeys(zoom, WrapTileIndex(x, zoom), startY, endY)
    requires ColumnPlaced(layer, nextId, placed, column, x, vp)
    ensures ColumnsPlaced(before, nextId0, placed, needed + column, zoom, x, vp)
  {
    forall k | k in needed + column
      ensures LastColumn(x, k.x, zoom) == (if k in column then x else LastColumn(x - 1, k.x, zoom))
    {
      LastColumnStep(x, k.x, zoom);
    }
  }

  /** The first and last tile columns and rows a viewport touches. */
  function TileRange(vp: Viewport): (r: (int, int, int, int))
    ensures vp.width >= 0.0 ==> r.0 <= r.1
    ensures vp.height >= 0.0 ==> r.2 <= r.3
  {
    (TileIndexOf(vp.topLeftX), TileIndexOf(vp.topLeftX + vp.width),
     TileIndexOf(vp.topLeftY), TileIndexOf(vp.topLeftY + vp.height))
  }

  /** The tile layer after a render pass of `vp` at `zoom` over the layer
      `before`: exactly the needed keys; every tile at the offset of the last
      column that wraps to it; a tile that was already there keeps its element,
      and a new one gets a new element. */
  ghost predicate LayerFor(layer: map<TileKey, Tile>, zoom: int, vp: Viewport, before: map<TileKey, Tile>, nextBefore: nat)
    requires MIN_ZOOM <= zoom
  {
    var (startX, endX, startY, endY) := TileRange(vp);
    && layer.Keys == NeededKeys(zoom, startX, endX, startY, endY)
    && (forall k :: k in layer ==>
          && layer[k].left == (LastColumn(endX, k.x, zoom) * TILE_SIZE) as real - vp.topLeftX
          && layer[k].top == (k.y * TILE_SIZE) as real - vp.topLeftY
          && (k in before ==> layer[k].id == before[k].id)
          && (k !in before ==> nextBefore <= layer[k].id))
  }

  /** Once every column is placed, removing the keys that are not needed leaves
      the layer a render pass promises. */
  lemma PlacedLayerMatches(before: map<TileKey, Tile>, nextId: nat, layer: map<TileKey, Tile>, needed: set<TileKey>,
                           kept: map<TileKey, Tile>, zoom: int, lastX: int, vp: Viewport)
    requires MIN_ZOOM <= zoom
    requires var (startX, endX, startY, endY) := TileRange(vp);
      needed == NeededKeys(zoom, startX, endX, startY, endY) && (lastX == endX || needed == {})
    requires ColumnsPlaced(before, nextId, layer, needed, zoom, lastX, vp)
    requires kept.Keys == needed && forall k :: k in kept ==> k in layer && kept[k] == layer[k]
    ensures LayerFor(kept, zoom, vp, before, nextId)
  {
  }

  /** The outer loop of `renderTiles` over the columns `[startX, endX]`: places
      every column and returns the layer, the next identity, the keys placed
      (the needed keys) and the last column placed. */
  method PlaceColumns(before: map<TileKey, Tile>, next0: nat, zoom: int,
                      startX: int, endX: int, startY: int, endY: int, vp: Viewport)
    returns (layer: map<TileKey, Tile>, nextId: nat, needed: set<TileKey>, ghost lastX: int)
    requires MIN_ZOOM <= zoom <= MAX_ZOOM && TilesWellFormed(before, next0)
    ensures TilesWellFormed(layer, nextId) && next0 <= nextId
    ensures needed == NeededKeys(zoom, startX, endX, startY, endY) && (lastX == endX || needed == {})
    ensures ColumnsPlaced(before, next0, layer, needed, zoom, lastX, vp)
  {
    layer, nextId, needed := before, next0, {};
    var x := startX;
    while x <= endX
      invariant startX <= x && (x <= endX + 1 || x == startX)
      invariant needed == NeededKeys(zoom, startX, x - 1, startY, endY)
      invariant forall k :: k in needed ==>
        k.zoom == zoom && 0 <= k.x < Pow2(zoom) && startY <= k.y <= endY && 0 <= k.y < Pow2(zoom)
      invariant TilesWellFormed(layer, nextId) && next0 <= nextId
      invariant ColumnsPlaced(before, next0, layer, needed, zoom, x - 1, vp)
      decreases endX - x
    {
      var placed, nextId', column := PlaceColumn(layer, nextId, zoom, x, startY, endY, vp);
      NeededKeysStep(zoom, startX, x, startY, endY);
      ColumnsPlacedStep(before, next0, layer, nextId, placed, needed, column, zoom, x, startY, endY, vp);
      layer, nextId := placed, nextId';
      needed := needed + column;
      x := x + 1;
    }
    if x != endX + 1 {
      NeededKeysEmpty(zoom, startX, x - 1, startY, endY);
      NeededKeysEmpty(zoom, startX, endX, startY, endY);
    }
    lastX := x - 1;
  }

  class OsmView {
    /** Web Mercator, supplied from outside. */
    const projection: Projection
    /** How a number is written into a label (JavaScript's `String(number)`). */
    const numberText: real -> string
    /** How `handleWheel` settles the accumulator after an accepted step:
        `AsWritten` is the source's `wheelAccumulator -= step`, `Consuming` the
        corrected `wheelAccumulator += step`. */
    const rule: AccumulatorRule

    var mode: string
    var playerId: Option<string>
    var zoom: int
    var marker: Option<Coords>
    var actual: Option<Coords>
    var guesses: seq<Guess>
    var showControls: bool
    var userHasInteracted: bool
    var wheelAccumulator: real
    /** Whether an `onSelect` callback is installed. */
    var hasSelectHandler: bool
    var dragState: Option<DragState>
    /** The viewport of the last render pass. */
    var viewport: Option<Viewport>
    /** A render is scheduled for the next animation frame (`rafId !== null`). */
    var renderPending: bool
    var center: GeoPoint
    /** The tile layer's `<img>` elements, by `data-key`. */
    var tiles: map<TileKey, Tile>
    var nextTileId: nat
    /** The marker layer's elements, in document order. */
    var markerLayer: seq<PlacedMarker>

    /** The view is at a valid zoom and a clamped center. */
    ghost predicate Valid()
      reads this`zoom, this`center
    {
      MIN_ZOOM <= zoom <= MAX_ZOOM && IsClamped(center)
    }

    /** The tile layer is well formed (kept apart from `Valid`, which the
        handlers maintain, since only a render pass touches the tiles). */
    ghost predicate TilesValid()
      reads this`tiles, this`nextTileId
    {
      TilesWellFormed(tiles, nextTileId)
    }

    constructor (projection: Projection, numberText: real -> string, rule: AccumulatorRule, options: Options)
      requires CenterSourceFinite(options)
      ensures Valid() && TilesValid()
      ensures this.projection == projection && this.numberText == numberText && this.rule == rule
      ensures mode == (if Truthy(options.mode) then options.mode.value else "submission")
      ensures playerId == (if options.playerId.Given? && Truthy(options.playerId.value) then options.playerId.value else None)
      ensures zoom == ClampZoom(if options.zoom.Some? then options.zoom.value else 2.0)
      ensures marker == ValueOrNull(options.marker) && actual == ValueOrNull(options.actual)
      ensures guesses == (if options.guesses.Given? then GuessesOf(options.guesses.value) else [])
      ensures showControls == (options.controls.Absent? || ControlsShown(options.controls.value))
      ensures !userHasInteracted && wheelAccumulator == 0.0 && !hasSelectHandler
      ensures dragState == None && viewport == None && renderPending
      ensures center == ClampLatLng(InitialCenter(options))
      ensures tiles == map[] && nextTileId == 0 && markerLayer == []
    {
      this.projection := projection;
      this.numberText := numberText;
      this.rule := rule;
      mode := if Truthy(options.mode) then options.mode.value else "submission";
      playerId := if options.playerId.Given? && Truthy(options.playerId.value) then options.playerId.value else None;
      zoom := ClampZoom(if options.zoom.Some? then options.zoom.value else 2.0);
      marker := ValueOrNull(options.marker);
      actual := ValueOrNull(options.actual);
      guesses := if options.guesses.Given? then GuessesOf(options.guesses.value) else [];
      showControls := options.controls.Absent? || ControlsShown(options.controls.value);
      userHasInteracted := false;
      wheelAccumulator := 0.0;
      hasSelectHandler := false;
      dragState := None;
      viewport := None;
      center := ClampLatLng(InitialCenter(options));
      tiles := map[];
      nextTileId := 0;
      markerLayer := [];
      renderPending := true;
    }

    /** `setSelectHandler(callback)`, with the callback reduced to its presence. */
    method SetSelectHandler(installed: bool)
      modifies this`hasSelectHandler
      ensures hasSelectHandler == installed
    {
      hasSelectHandler := installed;
    }

    /** `render()`: (re)schedules one render pass. */
    method Render()
      modifies this`renderPending
      ensures renderPending
    {
      renderPending := true;
    }

    /** `update(options)`: the host pushes new state. A changed mode resets the
        interaction latch; the host's zoom and center are taken only while the user
        has not interacted, or when the mode changed. */
    method Update(options: Options)
      requires Valid()
      modifies this`mode, this`userHasInteracted, this`playerId, this`zoom, this`marker, this`actual,
               this`guesses, this`showControls, this`center, this`renderPending
      ensures Valid()
      ensures mode == (if Truthy(options.mode) then options.mode.value else old(mode))
      ensures userHasInteracted == (old(userHasInteracted) && !ModeChanged(options.mode, old(mode)))
      ensures playerId == (if options.playerId.Given? then options.playerId.value else old(playerId))
      ensures zoom == (if options.zoom.Some? && (!old(userHasInteracted) || ModeChanged(options.mode, old(mode)))
                       then ClampZoom(options.zoom.value) else old(zoom))
      ensures marker == (if options.marker.Given? then options.marker.value else old(marker))
      ensures actual == (if options.actual.Given? then options.actual.value else old(actual))
      ensures guesses == (if options.guesses.Given? then GuessesOf(options.guesses.value) else old(guesses))
      ensures showControls == (if options.controls.Given? then ControlsShown(options.controls.value) else old(showControls))
      ensures center == (if options.center.Some? && (!old(userHasInteracted) || ModeChanged(options.mode, old(mode)))
                         then ClampLatLng(options.center.value) else old(center))
      ensures renderPending
      ensures old(userHasInteracted) && !ModeChanged(options.mode, old(mode)) ==>
        zoom == old(zoom) && center == old(center)
    {
      var modeChanged := AdoptMode(options.mode);
      AdoptData(options);
      AdoptView(options, !userHasInteracted || modeChanged);
      Render();
    }

    /** The mode part of `update`: a truthy mode is adopted, and a different one
        clears the interaction latch. */
    method AdoptMode(next: Option<string>) returns (changed: bool)
      modifies this`mode, this`userHasInteracted
      ensures changed == ModeChanged(next, old(mode))
      ensures mode == (if Truthy(next) then next.value else old(mode))
      ensures userHasInteracted == (old(userHasInteracted) && !changed)
    {
      changed := ModeChanged(next, mode);
      if changed {
        mode := next.value;
        userHasInteracted := false;
      } else if Truthy(next) {
        mode := next.value;
      }
    }

    /** The data part of `update`: every key present in the options replaces the
        field it names. */
    method AdoptData(options: Options)
      modifies this`playerId, this`marker, this`actual, this`guesses, this`showControls
      ensures playerId == (if options.playerId.Given? then options.playerId.value else old(playerId))
      ensures marker == (if options.marker.Given? then options.marker.value else old(marker))
      ensures actual == (if options.actual.Given? then options.actual.value else old(actual))
      ensures guesses == (if options.guesses.Given? then GuessesOf(options.guesses.value) else old(guesses))
      ensures showControls == (if options.controls.Given? then ControlsShown(options.controls.value) else old(showControls))
    {
      if options.playerId.Given? {
        playerId := options.playerId.value;
      }
      if options.marker.Given? {
        marker := options.marker.value;
      }
      if options.actual.Given? {
        actual := options.actual.value;
      }
      if options.guesses.Given? {
        guesses := GuessesOf(options.guesses.value);
      }
      if options.controls.Given? {
        showControls := ControlsShown(options.controls.value);
      }
    }

    /** The view part of `update`: the host's zoom and center are taken only when
        `hostLeads` (the user has not interacted, or the mode changed). */
    method AdoptView(options: Options, hostLeads: bool)
      requires Valid()
      modifies this`zoom, this`center
      ensures Valid()
      ensures zoom == (if options.zoom.Some? && hostLeads then ClampZoom(options.zoom.value) else old(zoom))
      ensures center == (if options.center.Some? && hostLeads then ClampLatLng(options.center.value) else old(center))
    {
      if options.zoom.Some? {
        var nextZoom := ClampZoom(options.zoom.value);
        if nextZoom != zoom && hostLeads {
          zoom := nextZoom;
        }
      }
      if options.center.Some? && hostLeads {
        center := ClampLatLng(options.center.value);
      }
    }

    /** `handlePointerDown`: a primary-button press outside the controls and the
        attribution starts a drag from the current center. */
    method HandlePointerDown(button: int, pointerId: int, clientX: real, clientY: real, onChrome: bool)
      modifies this`dragState
      ensures if button == 0 && !onChrome
              then dragState == Some(DragState(pointerId, ScreenPoint(clientX, clientY), center, false))
              else dragState == old(dragState)
    {
      if button != 0 {
        return;
      }
      if onChrome {
        return;
      }
      dragState := Some(DragState(pointerId, ScreenPoint(clientX, clientY), center, false));
    }

    /** `handlePointerMove`: a move of the dragging pointer latches `moved` once it
        leaves the threshold box, and from then on pans the map so that the world
        point under the drag start follows the pointer. */
    method HandlePointerMove(pointerId: int, clientX: real, clientY: real)
      requires Valid()
      modifies this`dragState, this`userHasInteracted, this`center, this`renderPending
      ensures Valid()
      ensures old(dragState).None? || old(dragState).value.id != pointerId ==>
        dragState == old(dragState) && userHasInteracted == old(userHasInteracted)
        && center == old(center) && renderPending == old(renderPending)
      ensures old(dragState).Some? && old(dragState).value.id == pointerId ==>
        var ds := old(dragState).value;
        var dx := clientX - ds.origin.x;
        var dy := clientY - ds.origin.y;
        var moved := ds.moved || Abs(dx) > DRAG_THRESHOLD || Abs(dy) > DRAG_THRESHOLD;
        && dragState == Some(ds.(moved := moved))
        && (moved ==> userHasInteracted && center == DragCenter(projection, ds.centerSnapshot, zoom, dx, dy) && renderPending)
        && (!moved ==> userHasInteracted == old(userHasInteracted) && center == old(center)
                       && renderPending == old(renderPending))
    {
      if dragState.None? || pointerId != dragState.value.id {
        return;
      }
      var ds := dragState.value;
      var dx := clientX - ds.origin.x;
      var dy := clientY - ds.origin.y;
      if !ds.moved && (Abs(dx) > DRAG_THRESHOLD || Abs(dy) > DRAG_THRESHOLD) {
        ds := ds.(moved := true);
        dragState := Some(ds);
      }
      if !ds.moved {
        return;
      }
      userHasInteracted := true;
      center := DragCenter(projection, ds.centerSnapshot, zoom, dx, dy);
      Render();
    }

    /** `handlePointerUp` (also `pointercancel`): the dragging pointer ends the drag;
        a press that never moved selects the clamped coordinate under it, when a
        handler is installed, the map is not revealing, and the pointer is inside. */
    method HandlePointerUp(pointerId: int, clientX: real, clientY: real, rect: Rect) returns (selected: Option<GeoPoint>)
      modifies this`dragState, this`userHasInteracted
      ensures old(dragState).None? || old(dragState).value.id != pointerId ==>
        dragState == old(dragState) && selected == None && userHasInteracted == old(userHasInteracted)
      ensures old(dragState).Some? && old(dragState).value.id == pointerId ==> dragState == None
      ensures selected.Some? <==>
        && old(dragState).Some? && old(dragState).value.id == pointerId && !old(dragState).value.moved
        && hasSelectHandler && mode != "reveal"
        && CursorToLatLng(projection, viewport, zoom, clientX, clientY, rect).Some?
      ensures selected.Some? ==>
        selected == CursorToLatLng(projection, viewport, zoom, clientX, clientY, rect)
        && IsClamped(selected.value) && userHasInteracted
      ensures selected.None? ==> userHasInteracted == old(userHasInteracted)
    {
      selected := None;
      if dragState.None? || pointerId != dragState.value.id {
        return;
      }
      var moved := dragState.value.moved;
      dragState := None;
      if !moved && hasSelectHandler && mode != "reveal" {
        var coords := CursorToLatLng(projection, viewport, zoom, clientX, clientY, rect);
        if coords.Some? {
          userHasInteracted := true;
          selected := coords;
        }
      }
    }

    /** `adjustZoom(delta, focusPoint)`: moves to the clamped zoom `zoom + delta`
        (`clampZoom` of an integer, which is `ZoomInRange`),
        keeping the world point under the focus (the element's middle when absent)
        in place; reports whether the zoom changed. */
    method AdjustZoom(delta: int, focus: Option<ScreenPoint>, surface: Surface) returns (adjusted: bool)
      requires Valid()
      modifies this`zoom, this`center, this`renderPending
      ensures Valid()
      ensures var target := ZoomInRange(old(zoom) + delta);
        && adjusted == (target != old(zoom))
        && (adjusted ==> zoom == target && renderPending
                         && center == AnchorCenter(projection, old(center), old(zoom), target, focus, surface))
        && (!adjusted ==> zoom == old(zoom) && center == old(center) && renderPending == old(renderPending))
    {
      var targetZoom := ClampZoom((zoom + delta) as real);
      ClampZoomOfInteger(zoom + delta);
      if targetZoom == zoom {
        return false;
      }
      center := AnchorCenter(projection, center, zoom, targetZoom, focus, surface);
      zoom := targetZoom;
      Render();
      return true;
    }

    /** The center update of one accepted wheel step about `focus`. */
    function AnchorStep(focus: Option<ScreenPoint>, surface: Surface): (GeoPoint, int, int) -> GeoPoint
    {
      (c: GeoPoint, from: int, to: int) => AnchorCenter(projection, c, from, to, focus, surface)
    }

    /** `handleWheel`: the event's delta is added to the accumulator, then at most
        four anchored unit steps are taken toward it, each settled by `rule`, and a
        step the zoom bounds refuse clears it. Under `AsWritten` this is the source
        as it stands; under `Consuming` the corrected loop (see the `Wheel` module). */
    method HandleWheel(clientX: real, clientY: real, deltaY: real, deltaMode: int, surface: Surface)
      requires Valid()
      modifies this`userHasInteracted, this`wheelAccumulator, this`zoom, this`center, this`renderPending
      ensures Valid()
      ensures userHasInteracted
      ensures var focus := ScreenPoint(clientX - surface.rect.left, clientY - surface.rect.top);
              var delta := NormalizeWheelDelta(deltaY, deltaMode);
        if delta == 0.0 then
          wheelAccumulator == old(wheelAccumulator) && zoom == old(zoom) && center == old(center)
          && renderPending == old(renderPending)
        else
          var d := Drain(rule, old(wheelAccumulator) + delta, old(zoom), 0);
          && wheelAccumulator == d.acc && zoom == d.zoom
          && center == DrainView(rule, old(wheelAccumulator) + delta, old(zoom), old(center), 0,
                                 AnchorStep(Some(focus), surface))
          && renderPending == (old(renderPending) || d.steps > 0)
    {
      var focus := ScreenPoint(clientX - surface.rect.left, clientY - surface.rect.top);
      userHasInteracted := true;
      var delta := NormalizeWheelDelta(deltaY, deltaMode);
      if delta == 0.0 {
        return;
      }
      wheelAccumulator := wheelAccumulator + delta;
      DrainWheel(Some(focus), surface, AnchorStep(Some(focus), surface));
    }

    /** The stepping loop of `handleWheel`. `anchor` is `AnchorStep(focus, surface)`,
        passed as a value so that the loop reasons about one step at a time. */
    method DrainWheel(focus: Option<ScreenPoint>, surface: Surface, ghost anchor: (GeoPoint, int, int) -> GeoPoint)
      requires Valid()
      requires forall c, from, to {:trigger AnchorCenter(projection, c, from, to, focus, surface)} ::
        anchor(c, from, to) == AnchorCenter(projection, c, from, to, focus, surface)
      modifies this`wheelAccumulator, this`zoom, this`center, this`renderPending
      ensures Valid()
      ensures var d := Drain(rule, old(wheelAccumulator), old(zoom), 0);
        && wheelAccumulator == d.acc && zoom == d.zoom
        && center == DrainView(rule, old(wheelAccumulator), old(zoom), old(center), 0, anchor)
        && renderPending == (old(renderPending) || d.steps > 0)
    {
      ghost var goal := Drain(rule, wheelAccumulator, zoom, 0);
      ghost var goalView := DrainView(rule, wheelAccumulator, zoom, center, 0, anchor);
      ghost var pending0 := renderPending;
      var steps: nat := 0;
      while Abs(wheelAccumulator) >= 1.0 && steps < MAX_STEPS_PER_FRAME
        invariant Valid()
        invariant steps <= MAX_STEPS_PER_FRAME
        invariant Drain(rule, wheelAccumulator, zoom, steps) == goal
        invariant DrainView(rule, wheelAccumulator, zoom, center, steps, anchor) == goalView
        invariant renderPending == (pending0 || steps > 0)
        decreases MAX_STEPS_PER_FRAME - steps
      {
        var adjusted := WheelStep(focus, surface, anchor, steps);
        if !adjusted {
          break;
        }
        steps := steps + 1;
      }
      if !(Abs(wheelAccumulator) >= 1.0 && steps < MAX_STEPS_PER_FRAME) {
        DrainDone(rule, wheelAccumulator, zoom, steps);
        DrainViewStays(rule, wheelAccumulator, zoom, center, steps, anchor);
      }
    }

    /** One turn of the `handleWheel` loop: one anchored unit step toward the
        accumulator's sign; a refused step clears the accumulator, an accepted one
        is settled by `rule`. The outcome of the rest of the loop is unchanged. */
    method WheelStep(focus: Option<ScreenPoint>, surface: Surface, ghost anchor: (GeoPoint, int, int) -> GeoPoint,
                     ghost steps: nat)
      returns (adjusted: bool)
      requires Valid()
      requires forall c, from, to {:trigger AnchorCenter(projection, c, from, to, focus, surface)} ::
        anchor(c, from, to) == AnchorCenter(projection, c, from, to, focus, surface)
      requires steps < MAX_STEPS_PER_FRAME && Abs(wheelAccumulator) >= 1.0
      modifies this`wheelAccumulator, this`zoom, this`center, this`renderPending
      ensures Valid()
      ensures Drain(rule, old(wheelAccumulator), old(zoom), steps)
        == if adjusted then Drain(rule, wheelAccumulator, zoom, steps + 1)
           else Drained(wheelAccumulator, zoom, steps, true)
      ensures DrainView(rule, old(wheelAccumulator), old(zoom), old(center), steps, anchor)
        == if adjusted then DrainView(rule, wheelAccumulator, zoom, center, steps + 1, anchor) else center
      ensures renderPending == (old(renderPending) || adjusted)
    {
      var step := StepFor(wheelAccumulator);
      ghost var a0, z0, c0 := wheelAccumulator, zoom, center;
      adjusted := AdjustZoom(step, focus, surface);
      if !adjusted {
        wheelAccumulator := 0.0;
      } else {
        wheelAccumulator := Settle(rule, wheelAccumulator, step);
      }
      DrainTurn(rule, a0, z0, c0, steps, anchor, adjusted, wheelAccumulator, zoom, center);
    }

    /** `handleDoubleClick`: one zoom step about the clicked point, in with the
        plain click and out with Shift; the wheel accumulator is cleared. */
    method HandleDoubleClick(clientX: real, clientY: real, shiftKey: bool, surface: Surface)
      requires Valid()
      modifies this`userHasInteracted, this`wheelAccumulator, this`zoom, this`center, this`renderPending
      ensures Valid()
      ensures userHasInteracted && wheelAccumulator == 0.0
      ensures var target := ZoomInRange(old(zoom) + (if shiftKey then -1 else 1));
              var focus := ScreenPoint(clientX - surface.rect.left, clientY - surface.rect.top);
        if target != old(zoom) then
          zoom == target && renderPending
          && center == AnchorCenter(projection, old(center), old(zoom), target, Some(focus), surface)
        else zoom == old(zoom) && center == old(center) && renderPending == old(renderPending)
    {
      var focus := ScreenPoint(clientX - surface.rect.left, clientY - surface.rect.top);
      userHasInteracted := true;
      wheelAccumulator := 0.0;
      var delta := if shiftKey then -1 else 1;
      var _ := AdjustZoom(delta, Some(focus), surface);
    }

    /** The click handlers of the `+` and `-` buttons: one zoom step about the
        middle of the map; the wheel accumulator is cleared. */
    method HandleZoomButton(zoomIn: bool, surface: Surface)
      requires Valid()
      modifies this`userHasInteracted, this`wheelAccumulator, this`zoom, this`center, this`renderPending
      ensures Valid()
      ensures userHasInteracted && wheelAccumulator == 0.0
      ensures var target := ZoomInRange(old(zoom) + (if zoomIn then 1 else -1));
        if target != old(zoom) then
          zoom == target && renderPending
          && center == AnchorCenter(projection, old(center), old(zoom), target, None, surface)
        else zoom == old(zoom) && center == old(center) && renderPending == old(renderPending)
    {
      userHasInteracted := true;
      wheelAccumulator := 0.0;
      var _ := AdjustZoom(if zoomIn then 1 else -1, None, surface);
    }

    /** `renderNow`: the scheduled render pass. The viewport is rebuilt from the
        element's size, then the tile layer and the marker layer are redrawn. */
    method RenderNow(surface: Surface)
      requires Valid() && TilesValid()
      modifies this`renderPending, this`viewport, this`tiles, this`nextTileId, this`markerLayer
      ensures TilesValid()
      ensures !renderPending
      ensures var vp := BuildViewport(projection, center, zoom, surface);
        && viewport == Some(vp)
        && LayerFor(tiles, zoom, vp, old(tiles), old(nextTileId))
        && markerLayer == Rendered(projection, zoom, vp, MarkerList(mode, playerId, marker, actual, guesses, numberText))
    {
      renderPending := false;
      var vp := BuildViewport(projection, center, zoom, surface);
      viewport := Some(vp);
      RenderTiles(vp);
      RenderMarkers(vp);
    }

    /** `renderTiles(viewport)`: every needed tile is placed, reusing the element
        already shown under its key, then every element whose key is not needed
        is removed. */
    method RenderTiles(vp: Viewport)
      requires Valid() && TilesValid()
      modifies this`tiles, this`nextTileId
      ensures TilesValid() && LayerFor(tiles, zoom, vp, old(tiles), old(nextTileId))
    {
      var startX := TileIndexOf(vp.topLeftX);
      var endX := TileIndexOf(vp.topLeftX + vp.width);
      var startY := TileIndexOf(vp.topLeftY);
      var endY := TileIndexOf(vp.topLeftY + vp.height);
      var layer, nextId, needed, lastX := PlaceColumns(tiles, nextTileId, zoom, startX, endX, startY, endY, vp);
      var kept := RemoveStale(layer, needed);
      SubLayerWellFormed(kept, layer, nextId);
      PlacedLayerMatches(tiles, nextTileId, layer, needed, kept, zoom, lastX, vp);
      tiles, nextTileId := kept, nextId;
    }

    /** `renderMarkers(viewport)`: the marker layer is emptied, the marker list of
        the mode is built, and every marker not culled is drawn, in list order. */
    method RenderMarkers(vp: Viewport)
      modifies this`markerLayer
      ensures markerLayer == Rendered(projection, zoom, vp, MarkerList(mode, playerId, marker, actual, guesses, numberText))
    {
      // The list is built before the layer is emptied; building it does not
      // read the layer, so the order is not observable.
      var markers := CollectMarkers();
      markerLayer := [];
      DrawMarkers(vp, markers);
      assert [] + Rendered(projection, zoom, vp, markers) == Rendered(projection, zoom, vp, markers);
    }

    /** The list-building half of `renderMarkers`. */
    method CollectMarkers() returns (markers: seq<Marker>)
      ensures markers == MarkerList(mode, playerId, marker, actual, guesses, numberText)
    {
      markers := [];
      if mode == "reveal" {
        if actual.Some? && IsFiniteLatLng(actual.value) {
          markers := markers + [ActualMarker(actual.value)];
        }
        ghost var head := markers;
        var i := 0;
        while i < |guesses|
          invariant 0 <= i <= |guesses|
          invariant markers == head + GuessMarkers(guesses[..i], playerId, numberText)
        {
          var guess := guesses[i];
          if IsFiniteGuess(guess) {
            markers := markers + [GuessMarker(guess, playerId, numberText)];
          }
          assert guesses[..i + 1][..i] == guesses[..i];
          i := i + 1;
        }
        assert guesses[..|guesses|] == guesses;
      } else if marker.Some? && IsFiniteLatLng(marker.value) {
        markers := [ModeMarker(mode, marker.value)];
      }
    }

    /** The drawing half of `renderMarkers`: each marker is positioned against the
        viewport and appended to the layer unless it is culled. */
    method DrawMarkers(vp: Viewport, markers: seq<Marker>)
      modifies this`markerLayer
      ensures markerLayer == old(markerLayer) + Rendered(projection, zoom, vp, markers)
    {
      var j := 0;
      while j < |markers|
        invariant 0 <= j <= |markers|
        invariant markerLayer == old(markerLayer) + Rendered(projection, zoom, vp, markers[..j])
      {
        var m := markers[j];
        var point := projection.toPoint(m.lat, m.lng, zoom);
        var left := point.x - vp.topLeftX;
        var top := point.y - vp.topLeftY;
        assert markers[..j + 1][..j] == markers[..j];
        if !(left < -CULL_MARGIN || left > vp.width + CULL_MARGIN || top < -CULL_MARGIN || top > vp.height + CULL_MARGIN) {
          markerLayer := markerLayer + [PlacedMarker(m.kind, left, top, m.title, m.labelText)];
        }
        j := j + 1;
      }
      assert markers[..|markers|] == markers;
    }
  }
}
