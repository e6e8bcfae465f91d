# Satellite watch: a verified model of the catalogue logic and the caching proxy

This project models, in Dafny, the two pieces of behaviour the satellite-watch
application actually decides, and proves what they promise.

* **The browser client (`satellites.js`)**: the orbit-regime classifier
  (`getOrbitType`), the per-regime height and colour tables with their `||`
  fallback, the render radii of satellite, shadow, direction dot and observer
  marker, the catalogue search (`searchSatellites`) and the ISS / Starlink /
  GPS / HEO quick filters, the hex colour code of the map marker, the mock
  position used when the live position cannot be fetched, and the zoom clamp
  of the wheel handler. All of this is pure and is modelled as functions and
  lemmas (modules `Orbit`, `Catalogue`, `Tracking`, with the JavaScript
  primitives they use in `JsText` and `Strings`).
* **The proxy server (`server.py`)**: how `do_GET` routes a request path and
  builds the N2YO and Celestrak upstream URLs (pure functions in `Proxy`, with
  Python's `split`/`replace` in `PyText`), the two-hour cache-freshness rule,
  and the Celestrak decision procedure: fresh cache, else live fetch (written
  back to the cache), else expired cache, else the bundled fallback file, else
  a 500 error. That procedure changes state step by step, so it is the method
  `ProxyHandler.DoGet` on a class holding the cache (keyed by upstream URL)
  and a log of the handler's external steps (upstream fetches, cache reads and
  writes, fallback-file reads). The clock, the upstream answer, whether the
  cache write succeeds and what the fallback file holds are arguments of each
  request.

Numbers the source compares or adds (altitudes, eccentricities, heights, zoom
distances) are Dafny `real`s; catalogue numbers, colours and clocks are `int`s.
JavaScript's truncating `%` is written out (`JsText.JsRem`), as is Python's
`str.replace` with its empty-pattern case.

Where the code's comments and its values disagree (the MEO and GEO height
comments say 1.0 and 1.5 while the table holds 1.25 and 2.0; the DEFAULT colour
is commented "red" but is the LEO pink), the model follows the values.

One behaviour worth knowing, modelled as written: in the Celestrak branch only
an `HTTPError` from upstream falls back to the expired cache or the bundled
file; any other exception, including a network failure (`URLError`), is
answered with 500 without consulting either (`ProxyHandler.DoGet`, last
postcondition).

## Model

| member | source | states |
|---|---|---|
| `Orbit.OrbitType` | satellites.js:232-240 | eccentricity above 0.1 gives HEO whatever the altitude; otherwise altitude ≤ 2000 gives LEO, (2000, 22000] MEO, above 22000 GEO; each as an if-and-only-if, so every input gets exactly one of the four tags |
| `Orbit.OrbitHeight` | satellites.js:243-245 | a tag present in `ORBIT_HEIGHTS` gets its own entry (no value is falsy, so the fallback never fires for it); any other tag gets the DEFAULT height; the result lies in [0.5, 2.25] |
| `Orbit.OrbitColor` | satellites.js:273 | a tag present in `ORBIT_COLORS` gets its own colour, any other the DEFAULT colour; every result is a 24-bit colour |
| `Orbit.RegimeTable` | satellites.js:214-229 | LEO 0.5/0xffc0cb, MEO 1.25/0xff4500, GEO 2.0/0x3bf7ff, HEO 2.25/0xff00ff, and an unknown tag 0.5/0xffc0cb |
| `Orbit.SatelliteRadius` | satellites.js:283 | a satellite is drawn at radius at least 5.5 (at most 7.25), above the direction dot 5.03, the shadow 5.02, the observer marker 5.01 and the globe 5, in that order |
| `Orbit.CreateSatellite` | satellites.js:262-315 | absent altitude, status and eccentricity default to 400, "inactive" and 0 (so a bare satellite is LEO); height and colour are the table row of the computed tag; the sphere sits above its shadow at `SatelliteRadius` of its tag, 5 + height |
| `Lists.Filter` | satellites.js:567-571 | `filter` never lengthens the list |
| `Lists.FilterMembers` | satellites.js:567-571 | `filter` keeps exactly the elements satisfying the predicate |
| `Lists.FilterCons` | satellites.js:567-571 | the first element is kept exactly when it passes, ahead of the filtered rest |
| `Lists.FilterConcat` | satellites.js:567-571 | filtering a concatenation is the concatenation of the filtered parts, so the input order is kept |
| `Catalogue.Activate` | satellites.js:572-575 | the copy's STATUS is "active" and it differs from the record in nothing else |
| `Catalogue.ActivateAll` | satellites.js:572-575 | each record is copied with STATUS set to "active", in place, every other field unchanged |
| `Catalogue.ActiveMatches` | satellites.js:566-575 | the filter-then-activate chain returns as many records as match, an active copy of every matching record and nothing else |
| `Catalogue.ActiveMatchesKeepsOrder` | satellites.js:566-575 | a matching record is returned, marked active, at the position given by the number of matches before it: input order, one copy per match |
| `Catalogue.SearchMatch` | satellites.js:568-570 | the search test (the body of `searchSatellites`' filter callback, wrapped as `MatchesTerm`) holds exactly when the lower-cased name contains the term or the term occurs at some position of the decimal catalogue number |
| `Catalogue.NameIncludes` | satellites.js:569 | `OBJECT_NAME.toLowerCase().includes(word)` holds exactly when the word occurs at some position of the lower-cased name |
| `Catalogue.SearchSatellites` | satellites.js:562-577 | a missing term or one shorter than 2 characters gives no results; at most 50 results; each is an active copy of a record whose lower-cased name or decimal catalogue number contains the lower-cased term |
| `Catalogue.SearchKeepsOrder` | satellites.js:565-576 | a matching record preceded by fewer than 50 matches is returned, marked active, at the index equal to the number of matches before it: the first 50 matches in input order |
| `Catalogue.SearchReturnsAllFewMatches` | satellites.js:576 | when at most 50 records match, the search returns all of them, in order, marked active |
| `Catalogue.ShowStarlink` | satellites.js:896-901 | the Starlink button returns one active copy per record whose lower-cased name contains "starlink", and nothing else |
| `Catalogue.ShowGps` | satellites.js:903-908 | the GPS button returns one active copy per record whose lower-cased name contains "navstar", and nothing else |
| `Catalogue.IsHighlyEccentric` | satellites.js:912 | the HEO test (eccentricity, absent counting as 0, above 0.1) holds exactly when the record has an eccentricity and it exceeds 0.1 |
| `Catalogue.ShowHeo` | satellites.js:910-915 | the HEO button returns one active copy per record whose eccentricity, absent counting as 0, exceeds 0.1, and nothing else |
| `Catalogue.QuickFiltersKeepOrder` | satellites.js:896-915 | each of the Starlink, GPS and HEO buttons lists a passing record, marked active, at the position given by the number of passing records before it |
| `Catalogue.HeoFilterAgreesWithClassifier` | satellites.js:912 | a record passes the HEO button's test exactly when the satellite built for it on selection (eccentricity: the record's, absent counting as 0; any altitude) is tagged HEO |
| `Catalogue.FindById` | satellites.js:890 | `find` returns the first index holding the catalogue number, or nothing when none does |
| `Catalogue.ShowIss` | satellites.js:889-894 | the ISS button yields nothing exactly when no record is numbered 25544, else an active copy of the first such record |
| `Tracking.MockPosition` | satellites.js:506-514 | for a non-negative catalogue number the latitude offset is an even whole number in [0, 18], the longitude offset one in [0, 28], the altitude a multiple of 100 in [400, 800], the azimuth a whole number in [180, 359], the elevation one in [-30, 29]; a negative number gives non-positive offsets (truncating `%`); status is kept; the timestamp is the clock in seconds rounded down |
| `Tracking.HexColorCode` | satellites.js:82-84 | the marker colour code has at least 6 characters, all hexadecimal digits |
| `Tracking.HexColorCodeRoundTrip` | satellites.js:83-84 | for a colour in [0, 2^24) the code is exactly 6 lower-case hex digits and reads back as that colour |
| `Tracking.DefaultColorCode` | satellites.js:83-84 | the DEFAULT colour 0xffc0cb is written as the six characters "ffc0cb" |
| `Tracking.MarkerColorCode` | satellites.js:71-84 | `updateMap` without a colour (as in `updateMap(0, 0)`) writes exactly "ffc0cb"; with a 24-bit colour it writes that colour as 6 hex digits |
| `Tracking.ZoomTarget` | satellites.js:1053-1060 | the camera target distance is always in [7, 20]; it is `currentZ + delta*0.01` when that is in range, 7 below it and 20 above it |
| `Tracking.SphericalAnglesDeg` | satellites.js:250-251 | the polar angle `90 - lat` is in [0, 180] for a latitude in [-90, 90] and is 0 exactly at the north pole, 180 exactly at the south pole; the shifted longitude is in [0, 360] |
| `Strings.StartsWith` | server.py:98 | a string starting with a prefix is that prefix followed by the rest |
| `Strings.Contains` | satellites.js:569-570 | `includes` can only find a needle no longer than the haystack, and always finds the empty needle and a prefix |
| `Strings.ContainsIffOccurs` | satellites.js:569-570 | the substring scan used for `includes` holds exactly when the needle occurs at some position of the haystack |
| `JsText.ToLowerCase` | satellites.js:565 | `toLowerCase` keeps the length and maps each character independently, leaving no upper-case ASCII letter |
| `JsText.ToLowerCaseIdempotent` | satellites.js:565-569 | lower-casing twice equals lower-casing once |
| `JsText.ToRadixString` | satellites.js:83 | `toString(radix)` writes at least one digit, only digits of that radix, and a leading 0 only for the number 0 |
| `JsText.RadixRoundTrip` | satellites.js:83 | reading the digits of `toString(radix)` back gives the number |
| `JsText.RadixStringLength` | satellites.js:83-84 | a number below radix^k takes at most k digits |
| `JsText.LeadingZerosIgnored` | satellites.js:84 | the zeros `padStart` adds do not change the value read back |
| `JsText.PadStart` | satellites.js:84 | `padStart` yields the longer of the input and the target length, ending with the input and filled before it with the pad character |
| `JsText.JsRem` | satellites.js:507-511 | JavaScript's `%` by a positive divisor lies in [0, b) for a non-negative dividend (agreeing with Dafny's `%`) and in (-b, 0] for a negative one, and differs from the dividend by a multiple of b: the truncated remainder, e.g. -7 % 3 is -1 |
| `JsText.NumberToString` | satellites.js:570 | an integer's decimal string reads back as the integer, with a leading minus sign exactly for negative numbers, and has no leading zero: 0 is written exactly "0" |
| `PyText.IndexOf` | server.py:146 | the first position of the character: it is there and not before |
| `PyText.Split` | server.py:146 | `split` yields at least one piece and no piece contains the separator |
| `PyText.SplitPrepend` | server.py:146 | splitting a separator-free piece, the separator and a rest gives the piece followed by the split of the rest |
| `PyText.JoinSplit` | server.py:146 | joining the pieces of a split with the separator gives back the string |
| `PyText.SplitJoin` | server.py:146 | splitting a join of separator-free pieces gives back the pieces |
| `PyText.Replace` | server.py:116-119 | `s.replace(t, t)` is `s` for every `t`, the empty one included; a string without a non-empty pattern comes back unchanged |
| `Proxy.N2yoUpstreamUrl` | server.py:101-119 | the N2YO upstream URL is always the base URL, "/" and the path after the prefix: the positions/, above/ and other branches agree and the apiKey replacements change nothing |
| `Proxy.CelestrakQuery` | server.py:146 | the query never contains "?" and is empty when the path has no "?" |
| `Proxy.CelestrakQueryBetweenMarks` | server.py:146 | the Celestrak query is the text between the first and the second "?" of the path (or to its end), and empty when there is no "?" |
| `Proxy.CelestrakUrl` | server.py:145-147 | the Celestrak upstream URL is the base URL, "/gp.php?" and the query, whatever else the path holds |
| `Proxy.RouteOf` | server.py:97-209 | paths starting "/api/n2yo/" go to N2YO (URL as above), other paths starting "/api/celestrak/" to Celestrak, every other path to the static-file handler |
| `Proxy.IsCacheValid` | server.py:37-49 | a valid entry exists; an existing entry not older than the clock is valid |
| `Proxy.FreshForTwoHours` | server.py:16 | an entry written at time t is fresh exactly while now < t + 2 hours |
| `Proxy.ExpiryIsFinal` | server.py:45 | an entry that is not fresh stays not fresh as the clock advances |
| `Proxy.JsonHeaders` | server.py:156-159 | JSON answers carry exactly the content-type header, then the open CORS header, then, only when a source is named, `X-Data-Source` with that source |
| `Proxy.SaveToCache` | server.py:52-61 | a failed open leaves the cache as it was; otherwise the entry for the URL is stamped with the time of the write and holds the data, or, when the write breaks off, whatever bytes it left; no other entry changes |
| `Proxy.ProxyHandler.constructor` | server.py:22-24 | a handler starts with the given cache directory and an empty log |
| `Proxy.ProxyHandler.DoGet` | server.py:97-209 | static paths are passed on untouched; N2YO: one fetch, then the body, the forwarded HTTP error or 500, and when reading the body fails after the 200 headers went out, an error page after those headers; Celestrak (through `CelestrakGet`): a fresh entry is served as "cache" with no fetch; else a fetched body is served as "api" and `save_to_cache` stamps the entry with the write time, which is no earlier than the request time (a write that fails after the open leaves a truncated entry); on an HTTP error the expired entry, else the fallback file, is served as "fallback", else 500, and a fallback file whose read fails after the headers went out gives an error page after them; any other exception, including a failed body read, is 500 without touching cache or file |

## Left out

- `latLngToVector3` and the 3D positions of satellite, shadow, direction dot and observer marker: sine and cosine of floating-point angles; only the degree shifts (`SphericalAnglesDeg`) and the radii are modelled.
- Floating-point orbital arithmetic: the altitude computed from mean motion in `selectSatellite`, the mean motion computed from altitude in `searchSatellitesAbove`, and the direction normalisation (a square root that can divide by zero) in the live branch of `updateSatellitePosition`; the classifier takes the altitude as an argument.
- Rendering and UI: the Three.js scene, camera, renderer, raycasting and tooltips, the Leaflet map, gsap animations, the random star field, mouse-drag rotation, the splash screen, the day/night toggle and the DOM building of `displaySearchResults` and the `populate*` functions.
- Timing and concurrency: `async`/`fetch`, `Promise.all`, the ten-second polling interval and `debounce`; the live N2YO branch of `updateSatellitePosition` and `searchSatellitesAbove` with its mock satellites are network glue around the modelled pieces.
- Locale and library behaviour: `localeCompare` country sorting, `JSON.parse`/`JSON.stringify`.
- IEEE doubles: reals have no NaN or rounding. With a NaN altitude `getOrbitType` would answer GEO and the zoom clamp would answer NaN; `ZoomTarget` uses exact arithmetic for `delta * 0.01`.
- JsText.ToLowerCase: only ASCII letters are mapped; JavaScript's full Unicode case mapping is not modelled.
- JsText.NumberToString: integers only, written in positional notation; JavaScript's exponent notation from 1e21 on is not modelled (catalogue numbers are far below it).
- Catalogue.SearchSatellites: strings are sequences of Unicode scalar values, while JavaScript's `length` counts UTF-16 code units; a one-character term outside the Basic Multilingual Plane (an emoji, say) has length 2 in JavaScript and is searched for, but the model counts 1 and returns nothing.
- JsText.PadStart: the pad string is one character, the only form the client uses.
- Orbit.OrbitHeight: a tag that names an inherited object property (such as "toString") would find a function in the JavaScript table; the model treats every key outside the table as unknown.
- Orbit.OrbitColor: the same holds for `ORBIT_COLORS[orbitType] || ORBIT_COLORS.DEFAULT`; the program only ever passes a tag from `getOrbitType`, so the case does not arise there.
- Server I/O: `get_cache_path` hashes the URL with MD5, so the cache is keyed by the URL itself; file and socket I/O, `HTTPServer`/`serve_forever`, the error-body read on an N2YO error and the debug `print` output are not modelled. Each request's clock (microseconds, the resolution of `timedelta`), upstream result, cache-write outcome and fallback-file contents are arguments.
- Proxy.ProxyHandler.DoGet: reading an existing cache file is assumed to succeed; when `load_from_cache` fails the source writes `None` and the handler raises, which is not modelled. The HTTP framing of `send_error` is reduced to its status code and message. A `wfile.write` to the client that fails is not modelled; `ErrorAfterHeaders` records only that `send_error` runs after the 200 status line and headers have been sent.
