/**
 * The catalogue side of the browser client: the search box
 * (`searchSatellites`) and the four quick-filter buttons (ISS, Starlink, GPS,
 * HEO) over the list of records loaded from the proxy.
 */
module Catalogue {
  import opened Wrappers
  import opened Lists
  import opened Strings
  import opened JsText
  import Orbit

  /** A catalogue record, with the fields the client reads or writes. */
  datatype SatRecord = SatRecord(
    objectName: string,           // OBJECT_NAME
    noradCatId: int,              // NORAD_CAT_ID
    meanMotion: real,             // MEAN_MOTION
    eccentricity: Option<real>,   // ECCENTRICITY, may be absent
    inclination: real,            // INCLINATION
    epoch: string,                // EPOCH
    status: Option<string>)       // STATUS, may be absent

  /** Search results are capped at this many records. */
  const MaxSearchResults: nat := 50
  /** Catalogue number of the International Space Station. */
  const IssNoradId: int := 25544

  /** `{ ...sat, STATUS: "active" }`. */
  function Activate(sat: SatRecord): (r: SatRecord)
    ensures r.status == Some("active")
    ensures r.(status := sat.status) == sat
  {
    sat.(status := Some("active"))
  }

  /** `.map(sat => ({ ...sat, STATUS: "active" }))`. */
  function ActivateAll(s: seq<SatRecord>): (r: seq<SatRecord>)
    ensures |r| == |s|
    ensures forall i :: 0 <= i < |s| ==> r[i] == Activate(s[i])
  {
    seq(|s|, i requires 0 <= i < |s| => Activate(s[i]))
  }

  /**
   * `filter(p).map(activate)`, the shape shared by the search and the quick
   * filters: exactly the records satisfying `p`, each marked active.
   */
  function ActiveMatches(sats: seq<SatRecord>, p: SatRecord -> bool): (r: seq<SatRecord>)
    ensures |r| == |Filter(sats, p)| <= |sats|
    ensures forall y :: y in r ==> y.status == Some("active")
    ensures forall y :: y in r ==> exists x :: x in sats && p(x) && y == Activate(x)
    ensures forall x :: x in sats && p(x) ==> Activate(x) in r
  {
    var found := Filter(sats, p);
    FilterMembers(sats, p);
    var r := ActivateAll(found);
    assert forall x :: x in found ==> Activate(x) in r by {
      forall x | x in found ensures Activate(x) in r {
        var i :| 0 <= i < |found| && found[i] == x;
        assert r[i] == Activate(x);
      }
    }
    r
  }

  /**
   * `filter(p).map(activate)` keeps the input order, one copy per match: a
   * record satisfying `p` is returned, marked active, at the position given
   * by the number of matches before it.
   */
  lemma ActiveMatchesKeepsOrder(
    sats: seq<SatRecord>, p: SatRecord -> bool,
    before: seq<SatRecord>, x: SatRecord, after: seq<SatRecord>)
    requires sats == before + [x] + after
    requires p(x)
    ensures var r := ActiveMatches(sats, p);
      var k := |Filter(before, p)|;
      k < |r| && r[k] == Activate(x)
  {
    FilterConcat(before + [x], after, p);
    FilterConcat(before, [x], p);
    assert Filter([x], p) == [x];
  }

  /**
   * The search test for an already lower-cased term: the lower-cased name or
   * the decimal catalogue number contains it.
   */
  predicate SearchMatch(sat: SatRecord, term: string)
    ensures SearchMatch(sat, term) <==>
      (NameIncludes(sat, term) || exists i :: OccursAt(NumberToString(sat.noradCatId), term, i))
  {
    ContainsIffOccurs(NumberToString(sat.noradCatId), term);
    NameIncludes(sat, term) || Contains(NumberToString(sat.noradCatId), term)
  }

  /** `searchSatellites`' filter callback for an already lower-cased term. */
  function MatchesTerm(term: string): SatRecord -> bool {
    (sat: SatRecord) => SearchMatch(sat, term)
  }

  /** `sat.OBJECT_NAME.toLowerCase().includes(word)`. */
  predicate NameIncludes(sat: SatRecord, word: string)
    ensures NameIncludes(sat, word) <==> exists i :: OccursAt(ToLowerCase(sat.objectName), word, i)
  {
    ContainsIffOccurs(ToLowerCase(sat.objectName), word);
    Contains(ToLowerCase(sat.objectName), word)
  }

  /**
   * `searchSatellites(satellites, searchTerm)`: nothing for a missing term or
   * one shorter than two characters; otherwise the records whose lower-cased
   * name or decimal catalogue number contains the lower-cased term, marked
   * active, at most 50 of them.
   */
  function SearchSatellites(sats: seq<SatRecord>, searchTerm: Option<string>): (r: seq<SatRecord>)
    ensures searchTerm.None? || |searchTerm.value| < 2 ==> r == []
    ensures |r| <= MaxSearchResults
    ensures forall y :: y in r ==> y.status == Some("active")
    ensures forall y :: y in r ==>
      exists x :: x in sats && y == Activate(x) && SearchMatch(x, ToLowerCase(searchTerm.value))
  {
    if searchTerm.None? || |searchTerm.value| < 2 then []
    else
      var term := ToLowerCase(searchTerm.value);
      var found := ActiveMatches(sats, MatchesTerm(term));
      var r := found[..if |found| <= MaxSearchResults then |found| else MaxSearchResults];
      assert forall y :: y in r ==> exists x :: x in sats && y == Activate(x) && SearchMatch(x, term) by {
        forall y | y in r ensures exists x :: x in sats && y == Activate(x) && SearchMatch(x, term) {
          assert y in found;
          var x :| x in sats && MatchesTerm(term)(x) && y == Activate(x);
          assert SearchMatch(x, term);
        }
      }
      r
  }

  /**
   * The search returns the matches in input order and cuts after fifty: a
   * matching record preceded by fewer than fifty matches is returned, marked
   * active, at the position given by the number of matches before it.
   */
  lemma SearchKeepsOrder(
    sats: seq<SatRecord>, searchTerm: string,
    before: seq<SatRecord>, x: SatRecord, after: seq<SatRecord>)
    requires |searchTerm| >= 2
    requires sats == before + [x] + after
    requires MatchesTerm(ToLowerCase(searchTerm))(x)
    requires |Filter(before, MatchesTerm(ToLowerCase(searchTerm)))| < MaxSearchResults
    ensures var r := SearchSatellites(sats, Some(searchTerm));
      var k := |Filter(before, MatchesTerm(ToLowerCase(searchTerm)))|;
      k < |r| && r[k] == Activate(x)
  {
    ActiveMatchesKeepsOrder(sats, MatchesTerm(ToLowerCase(searchTerm)), before, x, after);
  }

  /** The search returns every match when there are at most fifty of them. */
  lemma SearchReturnsAllFewMatches(sats: seq<SatRecord>, searchTerm: string)
    requires |searchTerm| >= 2
    requires |Filter(sats, MatchesTerm(ToLowerCase(searchTerm)))| <= MaxSearchResults
    ensures SearchSatellites(sats, Some(searchTerm))
      == ActivateAll(Filter(sats, MatchesTerm(ToLowerCase(searchTerm))))
  {
  }

  /** The Starlink button's test. */
  predicate IsStarlink(sat: SatRecord) {
    NameIncludes(sat, "starlink")
  }

  /** The GPS button's test. */
  predicate IsGps(sat: SatRecord) {
    NameIncludes(sat, "navstar")
  }

  /** "Starlink" button: records whose lower-cased name contains "starlink". */
  function ShowStarlink(sats: seq<SatRecord>): (r: seq<SatRecord>)
    ensures |r| == |Filter(sats, IsStarlink)|
    ensures forall y :: y in r ==>
      y.status == Some("active") && (exists x :: x in sats && IsStarlink(x) && y == Activate(x))
    ensures forall x :: x in sats && IsStarlink(x) ==> Activate(x) in r
  {
    ActiveMatches(sats, IsStarlink)
  }

  /** "GPS" button: records whose lower-cased name contains "navstar". */
  function ShowGps(sats: seq<SatRecord>): (r: seq<SatRecord>)
    ensures |r| == |Filter(sats, IsGps)|
    ensures forall y :: y in r ==>
      y.status == Some("active") && (exists x :: x in sats && IsGps(x) && y == Activate(x))
    ensures forall x :: x in sats && IsGps(x) ==> Activate(x) in r
  {
    ActiveMatches(sats, IsGps)
  }

  /** `sat.ECCENTRICITY || 0`. */
  function EccentricityOrZero(sat: SatRecord): real {
    sat.eccentricity.GetOr(0.0)
  }

  /** The HEO button's test, `(sat.ECCENTRICITY || 0) > 0.1`. */
  predicate IsHighlyEccentric(sat: SatRecord)
    ensures IsHighlyEccentric(sat) <==> sat.eccentricity.Some? && sat.eccentricity.value > 0.1
  {
    EccentricityOrZero(sat) > 0.1
  }

  /** "HEO" button: records with eccentricity above 0.1, absent counting as 0. */
  function ShowHeo(sats: seq<SatRecord>): (r: seq<SatRecord>)
    ensures |r| == |Filter(sats, IsHighlyEccentric)|
    ensures forall y :: y in r ==>
      y.status == Some("active") && (exists x :: x in sats && IsHighlyEccentric(x) && y == Activate(x))
    ensures forall x :: x in sats && IsHighlyEccentric(x) ==> Activate(x) in r
  {
    ActiveMatches(sats, IsHighlyEccentric)
  }

  /**
   * Each quick filter lists its matches in input order, one copy each: a
   * record passing a button's test is shown, marked active, at the position
   * given by the number of passing records before it.
   */
  lemma QuickFiltersKeepOrder(
    sats: seq<SatRecord>, before: seq<SatRecord>, x: SatRecord, after: seq<SatRecord>)
    requires sats == before + [x] + after
    ensures IsStarlink(x) ==>
      var k := |Filter(before, IsStarlink)|;
      k < |ShowStarlink(sats)| && ShowStarlink(sats)[k] == Activate(x)
    ensures IsGps(x) ==>
      var k := |Filter(before, IsGps)|;
      k < |ShowGps(sats)| && ShowGps(sats)[k] == Activate(x)
    ensures IsHighlyEccentric(x) ==>
      var k := |Filter(before, IsHighlyEccentric)|;
      k < |ShowHeo(sats)| && ShowHeo(sats)[k] == Activate(x)
  {
    if IsStarlink(x) {
      ActiveMatchesKeepsOrder(sats, IsStarlink, before, x, after);
    }
    if IsGps(x) {
      ActiveMatchesKeepsOrder(sats, IsGps, before, x, after);
    }
    if IsHighlyEccentric(x) {
      ActiveMatchesKeepsOrder(sats, IsHighlyEccentric, before, x, after);
    }
  }

  /**
   * The HEO button picks exactly the records that, once selected, are drawn
   * as HEO satellites: selection passes `ECCENTRICITY || 0` to
   * `createSatellite`, whatever altitude it computes.
   */
  lemma HeoFilterAgreesWithClassifier(sat: SatRecord, altitude: real)
    ensures IsHighlyEccentric(sat) <==>
      Orbit.CreateSatellite(sat.objectName, sat.noradCatId, Some(altitude),
        sat.status, Some(EccentricityOrZero(sat))).orbitType == "HEO"
  {
  }

  /** `satellites.find(sat => sat.NORAD_CAT_ID === id)`, as an index. */
  function FindById(sats: seq<SatRecord>, id: int): (r: Option<nat>)
    ensures r.Some? ==> r.value < |sats| && sats[r.value].noradCatId == id
    ensures r.Some? ==> forall j :: 0 <= j < r.value ==> sats[j].noradCatId != id
    ensures r.None? ==> forall j :: 0 <= j < |sats| ==> sats[j].noradCatId != id
  {
    if sats == [] then None
    else if sats[0].noradCatId == id then Some(0)
    else
      match FindById(sats[1..], id)
      case None => None
      case Some(k) => Some(k + 1)
  }

  /** "ISS" button: the first record numbered 25544, marked active, if any. */
  function ShowIss(sats: seq<SatRecord>): (r: Option<SatRecord>)
    ensures r.None? <==> forall j :: 0 <= j < |sats| ==> sats[j].noradCatId != IssNoradId
    ensures r.Some? ==>
      (exists i :: 0 <= i < |sats| && r.value == Activate(sats[i]) &&
        sats[i].noradCatId == IssNoradId &&
        forall j :: 0 <= j < i ==> sats[j].noradCatId != IssNoradId)
  {
    match FindById(sats, IssNoradId)
    case None => None
    case Some(i) => Some(Activate(sats[i]))
  }
}
