/**
 * Orbit-regime classification and the per-regime render tables of the
 * browser client: which tag a satellite gets from its altitude and
 * eccentricity, and which height above the globe and which colour that tag
 * is drawn with.
 */
module Orbit {
  import opened Wrappers

  /** The four tags the classifier produces. */
  const RegimeTags: set<string> := {"LEO", "MEO", "GEO", "HEO"}

  /** `ORBIT_COLORS`: packed 24-bit RGB per tag, plus the fallback entry. */
  const OrbitColors: map<string, int> := map[
    "LEO" := 0xffc0cb,
    "MEO" := 0xff4500,
    "GEO" := 0x3bf7ff,
    "HEO" := 0xff00ff,
    "DEFAULT" := 0xffc0cb
  ]

  /** `ORBIT_HEIGHTS`: height above the globe surface, in globe units. */
  const OrbitHeights: map<string, real> := map[
    "LEO" := 0.5,
    "MEO" := 1.25,
    "GEO" := 2.0,
    "HEO" := 2.25,
    "DEFAULT" := 0.5
  ]

  /** Radius of the globe sphere. */
  const GlobeRadius: real := 5.0
  /** Radius at which the observer marker is drawn. */
  const ObserverMarkerRadius: real := 5.01
  /** Radius at which a satellite's ground shadow is drawn. */
  const ShadowRadius: real := 5.02
  /** Radius at which the direction-of-travel dot is drawn. */
  const DirectionDotRadius: real := 5.03

  /**
   * `getOrbitType(altitude, eccentricity)`: an eccentric orbit is HEO whatever
   * its altitude; otherwise the altitude (km) alone picks LEO, MEO or GEO.
   * Every input gets exactly one tag.
   */
  function OrbitType(altitude: real, eccentricity: real): (tag: string)
    ensures tag in RegimeTags
    ensures tag == "HEO" <==> eccentricity > 0.1
    ensures tag == "LEO" <==> eccentricity <= 0.1 && altitude <= 2000.0
    ensures tag == "MEO" <==> eccentricity <= 0.1 && 2000.0 < altitude <= 22000.0
    ensures tag == "GEO" <==> eccentricity <= 0.1 && altitude > 22000.0
  {
    if eccentricity > 0.1 then "HEO"
    else if altitude <= 2000.0 then "LEO"
    else if altitude <= 22000.0 then "MEO"
    else "GEO"
  }

  /**
   * `ORBIT_HEIGHTS[tag] || ORBIT_HEIGHTS.DEFAULT`: the fallback applies when
   * the key is missing or its value is falsy (zero). No table value is zero,
   * so a tag in the table always gets its own entry.
   */
  function OrbitHeight(tag: string): (h: real)
    ensures tag in OrbitHeights ==> h == OrbitHeights[tag]
    ensures tag !in OrbitHeights ==> h == OrbitHeights["DEFAULT"]
    ensures 0.5 <= h <= 2.25
  {
    if tag in OrbitHeights && OrbitHeights[tag] != 0.0 then OrbitHeights[tag]
    else OrbitHeights["DEFAULT"]
  }

  /** `ORBIT_COLORS[tag] || ORBIT_COLORS.DEFAULT`, with the same fallback rule. */
  function OrbitColor(tag: string): (c: int)
    ensures tag in OrbitColors ==> c == OrbitColors[tag]
    ensures tag !in OrbitColors ==> c == OrbitColors["DEFAULT"]
    ensures 0 < c < 0x1000000
  {
    if tag in OrbitColors && OrbitColors[tag] != 0 then OrbitColors[tag]
    else OrbitColors["DEFAULT"]
  }

  /** The regime table row by row, and the fallback for an unknown tag. */
  lemma RegimeTable(tag: string)
    ensures tag == "LEO" ==> OrbitHeight(tag) == 0.5 && OrbitColor(tag) == 0xffc0cb
    ensures tag == "MEO" ==> OrbitHeight(tag) == 1.25 && OrbitColor(tag) == 0xff4500
    ensures tag == "GEO" ==> OrbitHeight(tag) == 2.0 && OrbitColor(tag) == 0x3bf7ff
    ensures tag == "HEO" ==> OrbitHeight(tag) == 2.25 && OrbitColor(tag) == 0xff00ff
    ensures tag !in RegimeTags && tag != "DEFAULT" ==>
      OrbitHeight(tag) == 0.5 && OrbitColor(tag) == 0xffc0cb
  {
  }

  /** Radius at which a satellite of the given tag is drawn: `5 + orbitHeight`. */
  function SatelliteRadius(tag: string): (r: real)
    ensures 5.5 <= r <= 7.25
    ensures GlobeRadius < ObserverMarkerRadius < ShadowRadius < DirectionDotRadius < r
  {
    GlobeRadius + OrbitHeight(tag)
  }

  /** What `createSatellite` records about a satellite it builds. */
  datatype SatelliteGroup = SatelliteGroup(
    name: string,
    noradId: int,
    orbitType: string,
    orbitHeight: real,
    color: int,
    status: string,
    satelliteRadius: real,
    shadowRadius: real)

  /**
   * `createSatellite({...})`: absent arguments take the defaults altitude 400,
   * status "inactive" and eccentricity 0. The satellite sphere is placed at
   * `5 + orbitHeight`, its shadow at 5.02; both take the regime's colour.
   */
  function CreateSatellite(
    name: string, noradId: int,
    altitude: Option<real>, status: Option<string>, eccentricity: Option<real>)
    : (g: SatelliteGroup)
    ensures g.orbitType in RegimeTags
    ensures g.orbitType == OrbitType(altitude.GetOr(400.0), eccentricity.GetOr(0.0))
    ensures altitude.None? && eccentricity.None? ==> g.orbitType == "LEO"
    ensures g.orbitHeight == OrbitHeights[g.orbitType] && g.color == OrbitColors[g.orbitType]
    ensures g.status == if status.Some? then status.value else "inactive"
    ensures g.shadowRadius == ShadowRadius < g.satelliteRadius == SatelliteRadius(g.orbitType)
    ensures g.satelliteRadius == GlobeRadius + g.orbitHeight
    ensures g.name == name && g.noradId == noradId
  {
    var orbitType := OrbitType(altitude.GetOr(400.0), eccentricity.GetOr(0.0));
    var color := OrbitColor(orbitType);
    var orbitHeight := OrbitHeight(orbitType);
    SatelliteGroup(
      name, noradId, orbitType, orbitHeight, color, status.GetOr("inactive"),
      SatelliteRadius(orbitType), ShadowRadius)
  }
}
