/** Pure numeric helpers of the slippy map: clamping, rounding, zoom limits,
    longitude normalisation, tile-column wrapping and wheel-delta scaling. */
module MapMath {

  const TILE_SIZE: int := 256
  const MIN_LAT: real := -85.05112878
  const MAX_LAT: real := 85.05112878
  const MIN_ZOOM: int := 2
  const MAX_ZOOM: int := 18

  /** A geographic coordinate in degrees. */
  datatype GeoPoint = GeoPoint(lat: real, lng: real)

  const DEFAULT_CENTER: GeoPoint := GeoPoint(20.0, 0.0)

  function Abs(v: real): real { if v < 0.0 then -v else v }
  function Min(a: real, b: real): real { if a <= b then a else b }
  function Max(a: real, b: real): real { if a >= b then a else b }

  /** `clamp(value, min, max)`: `Math.min(Math.max(value, min), max)`. */
  function Clamp(value: real, lo: real, hi: real): (r: real)
    ensures r == value || r == lo || r == hi
    ensures lo <= hi ==> lo <= r <= hi
    ensures lo <= value <= hi ==> r == value
    ensures value < lo <= hi ==> r == lo
    ensures hi < value ==> r == hi
  {
    Min(Max(value, lo), hi)
  }

  /** `Math.round`: the integer nearest to `value`, halves going up. */
  function Round(value: real): (r: int)
    ensures r as real - 0.5 <= value < r as real + 0.5
  {
    (value + 0.5).Floor
  }

  /** `clamp(z, MIN_ZOOM, MAX_ZOOM)` on an integer zoom. */
  function ZoomInRange(z: int): (r: int)
    ensures MIN_ZOOM <= r <= MAX_ZOOM
    ensures MIN_ZOOM <= z <= MAX_ZOOM ==> r == z
  {
    if z < MIN_ZOOM then MIN_ZOOM else if z > MAX_ZOOM then MAX_ZOOM else z
  }

  /** `clampZoom`: round, then clamp into `[MIN_ZOOM, MAX_ZOOM]`. */
  function ClampZoom(value: real): (r: int)
    ensures MIN_ZOOM <= r <= MAX_ZOOM
    ensures MIN_ZOOM as real <= value <= MAX_ZOOM as real ==> r == Round(value)
    ensures value <= MIN_ZOOM as real ==> r == MIN_ZOOM
    ensures value >= MAX_ZOOM as real ==> r == MAX_ZOOM
  {
    ZoomInRange(Round(value))
  }

  /** On integers, `clampZoom` is the identity inside the zoom range and
      saturates outside it. */
  lemma ClampZoomOfInteger(z: int)
    ensures ClampZoom(z as real) == ZoomInRange(z)
  {
    assert Round(z as real) == z;
  }

  /** Clamping a zoom twice changes nothing. */
  lemma ClampZoomIdempotent(value: real)
    ensures ClampZoom(ClampZoom(value) as real) == ClampZoom(value)
  {
    ClampZoomOfInteger(ClampZoom(value));
  }

  /** `2 ** n`, the number of tiles per axis at zoom `n`. */
  function Pow2(n: nat): (r: nat)
    ensures r >= 1
  {
    if n == 0 then 1 else 2 * Pow2(n - 1)
  }

  /** A positive multiple of a positive number is at least that number. */
  lemma {:induction false} MultipleAtLeast(d: int, m: int)
    requires d >= 1 && m > 0
    ensures d * m >= m
    decreases d
  {
    if d > 1 {
      MultipleAtLeast(d - 1, m);
      assert d * m == (d - 1) * m + m;
    }
  }

  /** Euclidean remainder is determined by any quotient/remainder pair. */
  lemma ModUnique(x: int, m: int, q: int, r: int)
    requires m > 0 && 0 <= r < m && x == q * m + r
    ensures x % m == r
  {
    var q', r' := x / m, x % m;
    assert x == q' * m + r';
    assert (q' - q) * m == r - r' by {
      assert (q' - q) * m == q' * m - q * m;
    }
    if q' > q {
      MultipleAtLeast(q' - q, m);
    } else if q' < q {
      MultipleAtLeast(q - q', m);
    }
  }

  /** JavaScript `%` on integers: the remainder truncated toward zero,
      carrying the sign of the dividend. */
  function JsRemInt(a: int, m: int): (r: int)
    requires m > 0
    ensures a >= 0 ==> 0 <= r < m
    ensures a < 0 ==> -m < r <= 0
    ensures (a - r) % m == 0
  {
    if a >= 0 then
      ModUnique(a - a % m, m, a / m, 0);
      a % m
    else
      ModUnique(a + (-a) % m, m, -((-a) / m), 0);
      -((-a) % m)
  }

  /** `wrapTileIndex(value, zoom)`: `((value % max) + max) % max` with `max = 2 ** zoom`.
      It agrees with the floored (Euclidean) modulo. */
  function WrapTileIndex(value: int, zoom: nat): (r: int)
    ensures 0 <= r < Pow2(zoom)
    ensures r == value % Pow2(zoom)
  {
    var max := Pow2(zoom);
    WrapIsFlooredModulo(value, max);
    JsRemInt(JsRemInt(value, max) + max, max)
  }

  lemma WrapIsFlooredModulo(value: int, max: int)
    requires max > 0
    ensures JsRemInt(JsRemInt(value, max) + max, max) == value % max
  {
    var t := JsRemInt(value, max);
    if value >= 0 {
      ModUnique(t + max, max, 1, t);
    } else {
      var s := (-value) % max;
      var q := (-value) / max;
      assert -value == q * max + s;
      if s == 0 {
        ModUnique(t + max, max, 1, 0);
        ModUnique(value, max, -q, 0);
      } else {
        ModUnique(t + max, max, 0, t + max);
        ModUnique(value, max, -q - 1, max - s);
      }
    }
  }

  /** Columns repeat every `2 ** zoom` tiles. */
  lemma {:induction false} WrapTileIndexPeriodic(value: int, zoom: nat)
    ensures WrapTileIndex(value + Pow2(zoom), zoom) == WrapTileIndex(value, zoom)
  {
    var m := Pow2(zoom);
    ModUnique(value, m, value / m, value % m);
    ModUnique(value + m, m, value / m + 1, value % m);
  }

  /** `Math.trunc`. */
  function Trunc(v: real): (t: int)
    ensures v >= 0.0 ==> t as real <= v < t as real + 1.0
    ensures v < 0.0 ==> t as real - 1.0 < v <= t as real
  {
    if v >= 0.0 then v.Floor else -((-v).Floor)
  }

  /** JavaScript `%` on numbers: `a - b * Math.trunc(a / b)`. */
  function JsRem(a: real, b: real): (r: real)
    requires b != 0.0
    ensures b > 0.0 && a >= 0.0 ==> 0.0 <= r < b
    ensures b > 0.0 && a < 0.0 ==> -b < r <= 0.0
    ensures (a - r) / b == ((a - r) / b).Floor as real
  {
    var k := Trunc(a / b);
    DivOfMultiple(b, k);
    if b > 0.0 then TruncScaled(a, b); a - b * k as real
    else a - b * k as real
  }

  /** A whole multiple of `b`, divided by `b`, is that whole number. */
  lemma DivOfMultiple(b: real, k: int)
    requires b != 0.0
    ensures (b * k as real) / b == k as real
  {
  }

  /** `b * Math.trunc(a / b)` lies within `b` of `a`, on the side of zero. */
  lemma TruncScaled(a: real, b: real)
    requires b > 0.0
    ensures a >= 0.0 ==> b * Trunc(a / b) as real <= a < b * Trunc(a / b) as real + b
    ensures a < 0.0 ==> b * Trunc(a / b) as real - b < a <= b * Trunc(a / b) as real
  {
    var q := a / b;
    assert b * q == a;
    if a >= 0.0 {
      assert q >= 0.0;
      Between(a, b, q, Trunc(q) as real);
    } else {
      assert q < 0.0;
      Between(a, b, q, Trunc(q) as real - 1.0);
    }
  }

  /** Scaling `t <= q < t + 1` by a positive `b`, where `a = b * q`. */
  lemma Between(a: real, b: real, q: real, t: real)
    requires b > 0.0 && b * q == a
    ensures t <= q < t + 1.0 ==> b * t <= a < b * t + b
    ensures t < q <= t + 1.0 ==> b * t < a <= b * t + b
  {
    var lo, hi := q - t, t + 1.0 - q;
    MulSign(b, lo);
    MulSign(b, hi);
    assert a - b * t == b * lo;
    assert b * t + b - a == b * hi;
  }

  /** A positive factor keeps the sign of the other one. */
  lemma MulSign(b: real, y: real)
    requires b > 0.0
    ensures y >= 0.0 ==> b * y >= 0.0
    ensures y > 0.0 ==> b * y > 0.0
  {
  }

  /** `normalizeLng`: the longitude shifted by a whole number of turns into
      `[-180, 180)`. Written with a floored quotient; `NormalizeLngIsJs` shows it is
      the source's `((((lng + 180) % 360) + 360) % 360) - 180` with JavaScript's `%`. */
  function NormalizeLng(lng: real): (r: real)
    ensures -180.0 <= r < 180.0
  {
    lng - 360.0 * ((lng + 180.0) / 360.0).Floor as real
  }

  /** The floored form of `NormalizeLng` is the source's expression over truncating `%`. */
  lemma NormalizeLngIsJs(lng: real)
    ensures NormalizeLng(lng) == JsRem(JsRem(lng + 180.0, 360.0) + 360.0, 360.0) - 180.0
  {
    NormalizeIsFloored(lng + 180.0);
  }

  /** The two truncating remainders of `normalizeLng` amount to one floored remainder. */
  lemma NormalizeIsFloored(a: real)
    ensures JsRem(JsRem(a, 360.0) + 360.0, 360.0) == a - 360.0 * (a / 360.0).Floor as real
  {
    var f := (a / 360.0).Floor;
    var t := JsRem(a, 360.0);
    if a >= 0.0 {
      assert Trunc(a / 360.0) == f;
      assert 0.0 <= t < 360.0;
      assert Trunc((t + 360.0) / 360.0) == 1;
    } else {
      var g := (-a / 360.0).Floor;
      assert Trunc(a / 360.0) == -g;
      assert t == a + 360.0 * g as real;
      if f == -g {
        assert t == 0.0;
        assert Trunc((t + 360.0) / 360.0) == 1;
      } else {
        assert f == -g - 1;
        assert -360.0 < t < 0.0;
        assert Trunc((t + 360.0) / 360.0) == 0;
      }
    }
  }

  /** Longitudes one full turn apart normalise to the same value. */
  lemma NormalizeLngPeriodic(lng: real)
    ensures NormalizeLng(lng + 360.0) == NormalizeLng(lng)
  {
    var f := ((lng + 180.0) / 360.0).Floor;
    assert ((lng + 360.0 + 180.0) / 360.0) == (lng + 180.0) / 360.0 + 1.0;
    assert ((lng + 360.0 + 180.0) / 360.0).Floor == f + 1;
  }

  /** A longitude already in `[-180, 180)` is left as it is. */
  lemma NormalizeLngIdentity(lng: real)
    requires -180.0 <= lng < 180.0
    ensures NormalizeLng(lng) == lng
  {
    assert ((lng + 180.0) / 360.0).Floor == 0;
  }

  /** The invariant every stored center keeps. */
  predicate IsClamped(p: GeoPoint)
  {
    MIN_LAT <= p.lat <= MAX_LAT && -180.0 <= p.lng < 180.0
  }

  /** `clampLatLng` on a present coordinate: clamp the latitude to the Mercator
      range and normalise the longitude. */
  function ClampLatLng(p: GeoPoint): (r: GeoPoint)
    ensures IsClamped(r)
    ensures IsClamped(p) ==> r == p
    ensures r.lat == Clamp(p.lat, MIN_LAT, MAX_LAT)
    ensures r.lng == NormalizeLng(p.lng)
  {
    if IsClamped(p) then NormalizeLngIdentity(p.lng); GeoPoint(p.lat, p.lng)
    else GeoPoint(Clamp(p.lat, MIN_LAT, MAX_LAT), NormalizeLng(p.lng))
  }

  /** `normalizeWheelDelta`: line mode (1) scales by 20, page mode (2) by 60,
      pixels are kept; then 240 units make one zoom step. */
  function NormalizeWheelDelta(deltaY: real, deltaMode: int): (r: real)
    ensures (r > 0.0 <==> deltaY > 0.0) && (r < 0.0 <==> deltaY < 0.0)
    ensures deltaMode == 1 ==> 12.0 * r == deltaY
    ensures deltaMode == 2 ==> 4.0 * r == deltaY
    ensures deltaMode != 1 && deltaMode != 2 ==> 240.0 * r == deltaY
  {
    var delta := if deltaMode == 1 then deltaY * 20.0
                 else if deltaMode == 2 then deltaY * 60.0
                 else deltaY;
    delta / 240.0
  }
}
