/**
 * The numeric parts of position tracking in the browser client: the mock
 * position used when the live-position request fails, the colour code of the
 * map marker, the zoom clamp of the camera and the degree shifts of the
 * latitude/longitude projection.
 */
module Tracking {
  import opened Wrappers
  import opened JsText
  import Orbit

  /** A position record as the tooltip and map read it. */
  datatype Position = Position(
    satlatitude: real,
    satlongitude: real,
    sataltitude: real,
    azimuth: real,
    elevation: real,
    timestamp: int,
    status: string)

  /** `x` is a whole number between `lo` and `hi`, stepping by `step` from `lo`. */
  predicate OnGrid(x: real, lo: int, hi: int, step: nat)
    requires step > 0
  {
    x == x.Floor as real && lo as real <= x <= hi as real && (x.Floor - lo) % step == 0
  }

  /**
   * The mock position of `updateSatellitePosition`'s fallback, built from the
   * observer position, the catalogue number and the clock (milliseconds since
   * the epoch). For a non-negative catalogue number every offset stays on a
   * small grid; the satellite's status is kept; the timestamp is the clock in
   * whole seconds, rounded down.
   */
  function MockPosition(
    observerLat: real, observerLng: real, noradId: int, status: string, nowMillis: int)
    : (p: Position)
    ensures noradId >= 0 ==> OnGrid(p.satlatitude - observerLat, 0, 18, 2)
    ensures noradId >= 0 ==> OnGrid(p.satlongitude - observerLng, 0, 28, 2)
    ensures noradId >= 0 ==> OnGrid(p.sataltitude, 400, 800, 100)
    ensures noradId >= 0 ==> OnGrid(p.azimuth, 180, 359, 1)
    ensures noradId >= 0 ==> OnGrid(p.elevation, -30, 29, 1)
    ensures noradId < 0 ==> p.satlatitude <= observerLat && p.satlongitude <= observerLng
    ensures noradId < 0 ==> 0.0 <= p.sataltitude <= 400.0 && 1.0 <= p.azimuth <= 180.0
    ensures p.timestamp * 1000 <= nowMillis < p.timestamp * 1000 + 1000
    ensures p.status == status
  {
    var lat := JsRem(noradId, 10) * 2;
    var lng := JsRem(noradId, 15) * 2;
    var alt := 400 + JsRem(noradId, 5) * 100;
    var az := 180 + JsRem(noradId, 180);
    var el := -30 + JsRem(noradId, 60);
    IntOnGrid(lat, 0, 18, 2);
    IntOnGrid(lng, 0, 28, 2);
    IntOnGrid(alt, 400, 800, 100);
    IntOnGrid(az, 180, 359, 1);
    IntOnGrid(el, -30, 29, 1);
    WholeSeconds(nowMillis);
    Position(
      observerLat + lat as real,
      observerLng + lng as real,
      alt as real,
      az as real,
      el as real,
      nowMillis / 1000,
      status)
  }

  /** A whole number on the grid, seen as a real, is on the grid. */
  lemma IntOnGrid(k: int, lo: int, hi: int, step: nat)
    requires step > 0
    ensures lo <= k <= hi && (k - lo) % step == 0 ==> OnGrid(k as real, lo, hi, step)
  {
  }

  /** `Math.floor(ms / 1000)` is the whole number of seconds in `ms`. */
  lemma WholeSeconds(ms: int)
    ensures (ms / 1000) * 1000 <= ms < (ms / 1000) * 1000 + 1000
  {
  }

  /** `color.toString(16).padStart(6, "0")`. */
  function HexColorCode(color: nat): (code: string)
    ensures |code| >= 6
    ensures AllRadixDigits(code, 16)
  {
    var digits := ToRadixString(color, 16);
    var code := PadStart(digits, 6, '0');
    LeadingZerosIgnored(code[..|code| - |digits|], digits, 16);
    assert code == code[..|code| - |digits|] + digits;
    code
  }

  /**
   * For every 24-bit colour the code is exactly six lower-case hex digits and
   * reads back as that colour.
   */
  lemma HexColorCodeRoundTrip(color: nat)
    requires color < 0x1000000
    ensures |HexColorCode(color)| == 6
    ensures forall i :: 0 <= i < 6 ==>
      ('0' <= HexColorCode(color)[i] <= '9' || 'a' <= HexColorCode(color)[i] <= 'f')
    ensures RadixValue(HexColorCode(color), 16) == color
  {
    var digits := ToRadixString(color, 16);
    var code := HexColorCode(color);
    assert Pow(16, 6) == 0x1000000;
    RadixStringLength(color, 16, 6);
    RadixRoundTrip(color, 16);
    LeadingZerosIgnored(code[..|code| - |digits|], digits, 16);
    assert code == code[..|code| - |digits|] + digits;
  }

  /** The code of the DEFAULT colour 0xffc0cb, digit by digit. */
  lemma DefaultColorCode()
    ensures HexColorCode(0xffc0cb) == "ffc0cb"
  {
    assert ToRadixString(15, 16) == "f";
    assert ToRadixString(255, 16) == "ff";
    assert ToRadixString(4092, 16) == "ffc";
    assert ToRadixString(65472, 16) == "ffc0";
    assert ToRadixString(1047564, 16) == "ffc0c";
    assert ToRadixString(16761035, 16) == "ffc0cb";
  }

  /**
   * The colour code `updateMap` writes into the marker's style; a call
   * without a colour uses `ORBIT_COLORS.DEFAULT`.
   */
  function MarkerColorCode(satelliteColor: Option<nat>): (code: string)
    ensures AllRadixDigits(code, 16)
    ensures satelliteColor.None? ==> code == "ffc0cb"
    ensures satelliteColor.Some? && satelliteColor.value < 0x1000000 ==>
      |code| == 6 && RadixValue(code, 16) == satelliteColor.value
  {
    var color := satelliteColor.GetOr(Orbit.OrbitColors["DEFAULT"]);
    DefaultColorCode();
    if color < 0x1000000 then
      HexColorCodeRoundTrip(color);
      HexColorCode(color)
    else HexColorCode(color)
  }

  /** `MIN_ZOOM` and `MAX_ZOOM`: the camera distance range. */
  const MinZoom: real := 7.0
  const MaxZoom: real := 20.0

  function Max(a: real, b: real): real { if a >= b then a else b }
  function Min(a: real, b: real): real { if a <= b then a else b }

  /**
   * The wheel handler's target camera distance: the current distance moved by
   * a hundredth of the wheel delta, clamped to [7, 20].
   */
  function ZoomTarget(currentZ: real, deltaY: real): (z: real)
    ensures MinZoom <= z <= MaxZoom
    ensures MinZoom <= currentZ + deltaY * 0.01 <= MaxZoom ==> z == currentZ + deltaY * 0.01
    ensures currentZ + deltaY * 0.01 < MinZoom ==> z == MinZoom
    ensures currentZ + deltaY * 0.01 > MaxZoom ==> z == MaxZoom
  {
    var newZ := currentZ + deltaY * 0.01;
    Max(MinZoom, Min(MaxZoom, newZ))
  }

  /**
   * The degree shifts of `latLngToVector3`, before the conversion to radians:
   * `phi = 90 - lat` (angle from the north pole) and `theta = lng + 180`.
   */
  function SphericalAnglesDeg(lat: real, lng: real): (angles: (real, real))
    ensures -90.0 <= lat <= 90.0 ==> 0.0 <= angles.0 <= 180.0
    ensures angles.0 == 0.0 <==> lat == 90.0
    ensures angles.0 == 180.0 <==> lat == -90.0
    ensures -180.0 <= lng <= 180.0 ==> 0.0 <= angles.1 <= 360.0
  {
    (90.0 - lat, lng + 180.0)
  }
}
