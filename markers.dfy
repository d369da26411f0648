/** The marker list of one render pass: which records become markers in each
    mode, how they are tagged and labelled, and which of them are culled. */
module Markers {
  import opened JsValues
  import opened MapMath
  import opened Geometry

  /** The `osm-marker--<type>` class of a marker. */
  datatype MarkerKind = Actual | Self | Other | Primary

  /** A `{lat, lng}` record from the host; its parts need not be finite numbers. */
  datatype Coords = Coords(lat: Num, lng: Num)

  /** One entry of `guesses`: `lat`, `lng`, `player_id`, `player_name`, `points`.
      `playerId` is `None` when `player_id` is missing or `null`; ids are strings. */
  datatype Guess = Guess(lat: Num, lng: Num, playerId: Option<string>, playerName: Option<string>, points: Num)

  /** An entry of the logical marker list. */
  datatype Marker = Marker(lat: real, lng: real, kind: MarkerKind, title: Option<string>, labelText: Option<string>)

  /** A marker element in the marker layer, positioned in screen pixels. */
  datatype PlacedMarker = PlacedMarker(kind: MarkerKind, left: real, top: real, title: Option<string>, labelText: Option<string>)

  const CULL_MARGIN: real := 60.0

  /** `isFiniteLatLng` */
  predicate IsFiniteLatLng(c: Coords)
  {
    c.lat.Finite? && c.lng.Finite?
  }

  predicate IsFiniteGuess(g: Guess)
  {
    IsFiniteLatLng(Coords(g.lat, g.lng))
  }

  /** The `actual` marker of the reveal mode. */
  function ActualMarker(c: Coords): (m: Marker)
    requires IsFiniteLatLng(c)
    ensures m.kind == Actual && m.lat == c.lat.value && m.lng == c.lng.value
  {
    Marker(c.lat.value, c.lng.value, Actual, Some("Actual location"), Some("Actual"))
  }

  /** `${points} pts`, with the number written by JavaScript's number-to-string conversion. */
  function PointsText(points: real, numberText: real -> string): string
  {
    numberText(points) + " pts"
  }

  /** The marker of one finite guess: `self` exactly when the widget's player id is
      truthy and equal to the guess's `player_id`; a `"<points> pts"` label exactly
      when the points are finite; a title exactly when the player name is truthy. */
  function GuessMarker(g: Guess, playerId: Option<string>, numberText: real -> string): (m: Marker)
    requires IsFiniteGuess(g)
    ensures m.lat == g.lat.value && m.lng == g.lng.value
    ensures m.kind == Self || m.kind == Other
    ensures m.kind == Self <==> Truthy(playerId) && g.playerId == playerId
    ensures m.labelText.Some? <==> g.points.Finite?
    ensures g.points.Finite? ==> m.labelText == Some(PointsText(g.points.value, numberText))
    ensures m.title.Some? <==> Truthy(g.playerName)
    ensures Truthy(g.playerName) && !g.points.Finite? ==> m.title == g.playerName
    ensures Truthy(g.playerName) && g.points.Finite? ==>
      m.title == Some(g.playerName.value + " \U{2022} " + PointsText(g.points.value, numberText))
  {
    var isCurrentPlayer := Truthy(playerId) && g.playerId == playerId;
    var hasPoints := g.points.Finite?;
    assert g.playerName.Some? ==> g.playerName.value + "" == g.playerName.value;
    assert g.playerName.Some? && hasPoints ==>
      g.playerName.value + (" \U{2022} " + PointsText(g.points.value, numberText))
      == g.playerName.value + " \U{2022} " + PointsText(g.points.value, numberText);
    Marker(g.lat.value, g.lng.value,
           if isCurrentPlayer then Self else Other,
           if Truthy(g.playerName)
           then Some(g.playerName.value + (if hasPoints then " \U{2022} " + PointsText(g.points.value, numberText) else ""))
           else None,
           if hasPoints then Some(PointsText(g.points.value, numberText)) else None)
  }

  /** The finite guesses, in order, turned into markers. */
  function GuessMarkers(gs: seq<Guess>, playerId: Option<string>, numberText: real -> string): (ms: seq<Marker>)
    ensures |ms| <= |gs|
    ensures forall m :: m in ms ==> m.kind == Self || m.kind == Other
  {
    if gs == [] then []
    else
      var last := gs[|gs| - 1];
      GuessMarkers(gs[..|gs| - 1], playerId, numberText)
        + (if IsFiniteGuess(last) then [GuessMarker(last, playerId, numberText)] else [])
  }

  /** Guess markers of a concatenation are the concatenation of the guess markers:
      the list keeps the input order. */
  lemma {:induction false} GuessMarkersAppend(a: seq<Guess>, b: seq<Guess>, playerId: Option<string>, numberText: real -> string)
    ensures GuessMarkers(a + b, playerId, numberText)
         == GuessMarkers(a, playerId, numberText) + GuessMarkers(b, playerId, numberText)
    decreases |b|
  {
    if b == [] {
      assert a + b == a;
    } else {
      var b' := b[..|b| - 1];
      assert (a + b)[..|a + b| - 1] == a + b';
      assert (a + b)[|a + b| - 1] == b[|b| - 1];
      GuessMarkersAppend(a, b', playerId, numberText);
    }
  }

  /** When every guess is finite there is one marker per guess, in the same position. */
  lemma {:induction false} GuessMarkersAllFinite(gs: seq<Guess>, playerId: Option<string>, numberText: real -> string)
    requires forall i :: 0 <= i < |gs| ==> IsFiniteGuess(gs[i])
    ensures |GuessMarkers(gs, playerId, numberText)| == |gs|
    ensures forall i :: 0 <= i < |gs| ==> GuessMarkers(gs, playerId, numberText)[i] == GuessMarker(gs[i], playerId, numberText)
  {
    if gs != [] {
      GuessMarkersAllFinite(gs[..|gs| - 1], playerId, numberText);
    }
  }

  /** Non-finite guesses contribute nothing. */
  lemma {:induction false} GuessMarkersNoneFinite(gs: seq<Guess>, playerId: Option<string>, numberText: real -> string)
    requires forall i :: 0 <= i < |gs| ==> !IsFiniteGuess(gs[i])
    ensures GuessMarkers(gs, playerId, numberText) == []
  {
    if gs != [] {
      GuessMarkersNoneFinite(gs[..|gs| - 1], playerId, numberText);
    }
  }

  /** The marker of a non-reveal mode: `self` in `"guess"` mode, `primary` otherwise. */
  function ModeMarker(mode: string, c: Coords): (m: Marker)
    requires IsFiniteLatLng(c)
    ensures m.kind == (if mode == "guess" then Self else Primary)
    ensures m.lat == c.lat.value && m.lng == c.lng.value && m.labelText == None
  {
    Marker(c.lat.value, c.lng.value,
           if mode == "guess" then Self else Primary,
           Some(if mode == "guess" then "Your guess" else "Selected location"),
           None)
  }

  /** The logical marker list of `renderMarkers`. In `"reveal"` mode: the finite
      `actual`, tagged `actual`, first, then the finite guesses; in every other mode
      at most the finite `marker`. */
  function MarkerList(mode: string, playerId: Option<string>, marker: Option<Coords>, actual: Option<Coords>,
                      guesses: seq<Guess>, numberText: real -> string): (ms: seq<Marker>)
    ensures mode == "reveal" ==>
      (forall i :: 0 <= i < |ms| ==> (ms[i].kind == Actual <==> i == 0 && actual.Some? && IsFiniteLatLng(actual.value)))
    ensures mode == "reveal" ==> |ms| <= |guesses| + 1
    ensures mode != "reveal" ==> |ms| <= 1 && (|ms| == 1 <==> marker.Some? && IsFiniteLatLng(marker.value))
    ensures mode != "reveal" ==> forall m :: m in ms ==> m.kind == (if mode == "guess" then Self else Primary)
    ensures mode == "reveal" ==>
      var first := if actual.Some? && IsFiniteLatLng(actual.value) then 1 else 0;
      first <= |ms| && ms[first..] == GuessMarkers(guesses, playerId, numberText)
    ensures mode == "reveal" && actual.Some? && IsFiniteLatLng(actual.value) ==>
      |ms| >= 1 && ms[0] == ActualMarker(actual.value)
    ensures mode != "reveal" && |ms| == 1 ==> ms[0] == ModeMarker(mode, marker.value)
  {
    if mode == "reveal" then
      var head := if actual.Some? && IsFiniteLatLng(actual.value) then [ActualMarker(actual.value)] else [];
      var tail := GuessMarkers(guesses, playerId, numberText);
      assert forall i :: 0 <= i < |tail| ==> tail[i] in tail;
      head + tail
    else if marker.Some? && IsFiniteLatLng(marker.value) then [ModeMarker(mode, marker.value)]
    else []
  }

  /** A marker element positioned against the viewport's top-left corner. */
  function Place(proj: Projection, zoom: int, vp: Viewport, m: Marker): (p: PlacedMarker)
    ensures p.kind == m.kind && p.title == m.title && p.labelText == m.labelText
    ensures p.left + vp.topLeftX == proj.toPoint(m.lat, m.lng, zoom).x
    ensures p.top + vp.topLeftY == proj.toPoint(m.lat, m.lng, zoom).y
  {
    var point := proj.toPoint(m.lat, m.lng, zoom);
    PlacedMarker(m.kind, point.x - vp.topLeftX, point.y - vp.topLeftY, m.title, m.labelText)
  }

  /** A marker more than 60 pixels outside the viewport on some side is not drawn. */
  predicate Culled(p: PlacedMarker, vp: Viewport)
  {
    p.left < -CULL_MARGIN || p.left > vp.width + CULL_MARGIN || p.top < -CULL_MARGIN || p.top > vp.height + CULL_MARGIN
  }

  /** The marker elements drawn for `ms`, in list order. */
  function Rendered(proj: Projection, zoom: int, vp: Viewport, ms: seq<Marker>): (ps: seq<PlacedMarker>)
    ensures |ps| <= |ms|
    ensures forall p :: p in ps ==> !Culled(p, vp)
  {
    if ms == [] then []
    else
      var p := Place(proj, zoom, vp, ms[|ms| - 1]);
      Rendered(proj, zoom, vp, ms[..|ms| - 1]) + (if Culled(p, vp) then [] else [p])
  }

  /** A marker is drawn exactly when it is not culled. */
  lemma {:induction false} RenderedExactly(proj: Projection, zoom: int, vp: Viewport, ms: seq<Marker>)
    ensures forall i :: 0 <= i < |ms| ==>
      (Place(proj, zoom, vp, ms[i]) in Rendered(proj, zoom, vp, ms) <==> !Culled(Place(proj, zoom, vp, ms[i]), vp))
  {
    if ms != [] {
      var init := ms[..|ms| - 1];
      RenderedExactly(proj, zoom, vp, init);
      forall i | 0 <= i < |ms|
        ensures Place(proj, zoom, vp, ms[i]) in Rendered(proj, zoom, vp, ms) <==> !Culled(Place(proj, zoom, vp, ms[i]), vp)
      {
        if i < |ms| - 1 {
          assert ms[i] == init[i];
        }
      }
    }
  }

  /** One listed marker is drawn, at its placement, exactly when it is not culled. */
  lemma RenderedSingle(proj: Projection, zoom: int, vp: Viewport, m: Marker)
    ensures Rendered(proj, zoom, vp, [m])
         == if Culled(Place(proj, zoom, vp, m), vp) then [] else [Place(proj, zoom, vp, m)]
  {
    assert [m][..0] == [];
  }

  /** Every drawn element is the placement of a listed marker. */
  lemma {:induction false} RenderedFromList(proj: Projection, zoom: int, vp: Viewport, ms: seq<Marker>)
    ensures forall p :: p in Rendered(proj, zoom, vp, ms) ==>
      exists i :: 0 <= i < |ms| && p == Place(proj, zoom, vp, ms[i])
  {
    if ms != [] {
      var init := ms[..|ms| - 1];
      RenderedFromList(proj, zoom, vp, init);
      forall p | p in Rendered(proj, zoom, vp, ms)
        ensures exists i :: 0 <= i < |ms| && p == Place(proj, zoom, vp, ms[i])
      {
        if p in Rendered(proj, zoom, vp, init) {
          var i :| 0 <= i < |init| && p == Place(proj, zoom, vp, init[i]);
          assert ms[i] == init[i];
        } else {
          assert p == Place(proj, zoom, vp, ms[|ms| - 1]);
        }
      }
    }
  }

  /** Culling keeps the list order: drawing a concatenation draws each part in turn. */
  lemma {:induction false} RenderedAppend(proj: Projection, zoom: int, vp: Viewport, a: seq<Marker>, b: seq<Marker>)
    ensures Rendered(proj, zoom, vp, a + b) == Rendered(proj, zoom, vp, a) + Rendered(proj, zoom, vp, b)
    decreases |b|
  {
    if b == [] {
      assert a + b == a;
    } else {
      var b' := b[..|b| - 1];
      assert (a + b)[..|a + b| - 1] == a + b';
      assert (a + b)[|a + b| - 1] == b[|b| - 1];
      RenderedAppend(proj, zoom, vp, a, b');
    }
  }
}
