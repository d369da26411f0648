/** What the host hands the widget: the options object of the constructor and of
    `update`, and the small parsers for `data-*` attribute text. */
module HostConfig {
  import opened JsValues
  import opened MapMath
  import opened Markers

  /** The `guesses` value: an array of guess records, or anything else. */
  datatype GuessList = GuessArray(items: seq<Guess>) | NotAnArray

  /** An options object. `mode` and `center` are read by truthiness, `zoom` only when it
      is a finite number (`None` otherwise, which joins a missing zoom with a
      non-finite one), and the remaining keys by presence. The inner `None` of
      `marker`, `actual` and `controls` is a present `null` or `undefined`; that of
      `playerId` is a present `null` only, since `update` tests `playerId` with
      `!== undefined` and so treats an `undefined` one as `Absent`. */
  datatype Options = Options(
    mode: Option<string>,
    playerId: Field<Option<string>>,
    zoom: Option<real>,
    marker: Field<Option<Coords>>,
    actual: Field<Option<Coords>>,
    guesses: Field<GuessList>,
    controls: Field<Option<bool>>,
    center: Option<GeoPoint>)

  /** `options.x ?? null` */
  function ValueOrNull<T>(f: Field<Option<T>>): (r: Option<T>)
    ensures r.Some? <==> f.Given? && f.value.Some?
    ensures f.Given? ==> r == f.value
  {
    if f.Given? then f.value else None
  }

  /** `Array.isArray(guesses) ? guesses : []` */
  function GuessesOf(list: GuessList): (gs: seq<Guess>)
    ensures list.NotAnArray? ==> gs == []
    ensures list.GuessArray? ==> gs == list.items
  {
    match list
    case GuessArray(items) => items
    case NotAnArray => []
  }

  /** `options.controls !== false` */
  function ControlsShown(controls: Option<bool>): (shown: bool)
    ensures !shown <==> controls == Some(false)
  {
    !(controls.Some? && !controls.value)
  }

  /** `options.mode && options.mode !== this.mode` */
  predicate ModeChanged(next: Option<string>, current: string)
  {
    Truthy(next) && next.value != current
  }

  /** The constructor's center comes from a finite record: `options.center` is
      present, or the marker or actual it falls back on has finite parts. */
  predicate CenterSourceFinite(o: Options)
  {
    o.center.None? ==>
      var marker := ValueOrNull(o.marker);
      var actual := ValueOrNull(o.actual);
      (marker.Some? ==> IsFiniteLatLng(marker.value))
      && (marker.None? && actual.Some? ==> IsFiniteLatLng(actual.value))
  }

  /** `options.center || this.marker || this.actual || DEFAULT_CENTER`, before clamping. */
  function InitialCenter(o: Options): (c: GeoPoint)
    requires CenterSourceFinite(o)
    ensures o.center.Some? ==> c == o.center.value
    ensures o.center.None? && ValueOrNull(o.marker).Some? ==>
      c == GeoPoint(ValueOrNull(o.marker).value.lat.value, ValueOrNull(o.marker).value.lng.value)
    ensures o.center.None? && ValueOrNull(o.marker).None? && ValueOrNull(o.actual).Some? ==>
      c == GeoPoint(ValueOrNull(o.actual).value.lat.value, ValueOrNull(o.actual).value.lng.value)
    ensures o.center.None? && ValueOrNull(o.marker).None? && ValueOrNull(o.actual).None? ==> c == DEFAULT_CENTER
  {
    var marker := ValueOrNull(o.marker);
    var actual := ValueOrNull(o.actual);
    if o.center.Some? then o.center.value
    else if marker.Some? then GeoPoint(marker.value.lat.value, marker.value.lng.value)
    else if actual.Some? then GeoPoint(actual.value.lat.value, actual.value.lng.value)
    else DEFAULT_CENTER
  }

  /** `parseBoolean(value, fallback)` on a `data-*` attribute: `"false"`/`"0"` and
      `"true"`/`"1"` decide, anything else (and a missing attribute) gives the fallback. */
  function ParseBoolean(value: Option<string>, fallback: bool): (b: bool)
    ensures value == Some("false") || value == Some("0") ==> !b
    ensures value == Some("true") || value == Some("1") ==> b
    ensures !(value.Some? && value.value in {"false", "0", "true", "1"}) ==> b == fallback
  {
    if value.None? then fallback
    else if value.value == "false" || value.value == "0" then false
    else if value.value == "true" || value.value == "1" then true
    else fallback
  }


  /** `parseZoom(value, fallback)`, given what `parseNumber(value)` returned: the
      fallback when nothing parsed, a clamped integer zoom otherwise. */
  function ParseZoom(parsed: Option<real>, fallback: int): (z: int)
    ensures parsed.None? ==> z == fallback
    ensures parsed.Some? ==> MIN_ZOOM <= z <= MAX_ZOOM && z == ClampZoom(parsed.value)
  {
    if parsed.None? then fallback else ClampZoom(parsed.value)
  }
}
