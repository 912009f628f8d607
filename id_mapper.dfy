/**
 * DeVVSGtfsIdMapper: the read-only lookup tables built once from the static
 * GTFS schedule (stops.txt grouped by parent station, the set of route ids
 * in routes.txt), and the two lookups the alert translator runs against them.
 */
module IdMapper {
  import opened Options
  import opened Text

  /** One row of stops.txt; an empty or absent cell of an optional column is Some("") or None. */
  datatype StopRow = StopRow(stopId: string, locationType: Option<string>, parentStation: Option<string>)

  /** One row of routes.txt. */
  datatype RouteRow = RouteRow(routeId: string)

  /** Parent-station key (None stands for Python's None) to the stop ids grouped under it. */
  type ParentIndex = map<Option<string>, set<string>>

  /** Names of type-11 routes that the static feed keeps in canonical form. */
  const Route11Exceptions: seq<string> := ["011", "064", "074a"]

  /** Route types whose legacy ids already are the static feed's ids. */
  const UnchangedRouteTypes: seq<string> := ["76", "77", "81"]

  /** Hard-coded corrections of ids that routes.txt spells differently. */
  const SpecialCases: map<string, string> := map["de:vvs:30014e:" := "de:vvs:300014e:"]

  /** Only stops and platforms (location_type missing, '' or '0') are grouped. */
  predicate IsPlatform(stop: StopRow)
  {
    stop.locationType.None? || stop.locationType.value == "" || stop.locationType.value == "0"
  }

  /**
   * `_parent_station`: the explicit parent_station when non-empty, else the
   * stop id up to (not including) its third ':', else the parent_station
   * cell as it was (None or Some("")).
   */
  function ParentStation(stop: StopRow): (r: Option<string>)
    ensures stop.parentStation.Some? && stop.parentStation.value != "" ==> r == stop.parentStation
    ensures (stop.parentStation.None? || stop.parentStation.value == "") && Count(stop.stopId, ':') >= 3 ==>
      r.Some? && |r.value| < |stop.stopId| && r.value == stop.stopId[..|r.value|] &&
      stop.stopId[|r.value|] == ':' && Count(r.value, ':') == 2
    ensures (stop.parentStation.None? || stop.parentStation.value == "") && Count(stop.stopId, ':') < 3 ==>
      r == stop.parentStation
  {
    var parent := stop.parentStation;
    if parent.None? || parent.value == "" then
      var pos := NthIndex(stop.stopId, ':', 3);
      NthIndexMeaning(stop.stopId, ':', 3);
      if pos > 0 then Some(stop.stopId[..pos]) else parent
    else parent
  }

  /** A stop without explicit parent whose id reads `p:rest`, `p` holding two ':', is keyed by `p`. */
  lemma ImplicitParent(stop: StopRow, p: string, rest: string)
    requires stop.parentStation.None? || stop.parentStation.value == ""
    requires stop.stopId == p + [':'] + rest && Count(p, ':') == 2
    ensures ParentStation(stop) == Some(p)
  {
    var s := stop.stopId;
    assert s[..|p|] == p;
    NthIndexUnique(s, ':', 3, |p|);
  }

  /** The table after one more row passes through `handle_stop`. */
  function AddStop(index: ParentIndex, stop: StopRow): (r: ParentIndex)
    ensures !IsPlatform(stop) ==> r == index
    ensures IsPlatform(stop) ==> ParentStation(stop) in r && stop.stopId in r[ParentStation(stop)]
    ensures forall k :: k in index ==> k in r && index[k] <= r[k]
    ensures forall k :: k in r && k != ParentStation(stop) ==> k in index && r[k] == index[k]
    ensures forall k, x :: k in r && x in r[k] ==> (k in index && x in index[k]) || x == stop.stopId
  {
    if !IsPlatform(stop) then index
    else
      var key := ParentStation(stop);
      index[key := (if key in index then index[key] else {}) + {stop.stopId}]
  }

  /** `parent_stations_stops` after `_load_stops` has read `stops` in order. */
  function StopIndex(stops: seq<StopRow>): ParentIndex
  {
    if stops == [] then map[] else AddStop(StopIndex(stops[..|stops| - 1]), stops[|stops| - 1])
  }

  /** Row `i` is a platform grouped under `key`. */
  predicate GroupedUnder(stops: seq<StopRow>, i: int, key: Option<string>)
  {
    0 <= i < |stops| && IsPlatform(stops[i]) && ParentStation(stops[i]) == key
  }

  /**
   * The keys are exactly the parents of platform rows, and a stop id is in a
   * key's set exactly when some platform row with that id has that parent.
   */
  lemma {:induction false} StopIndexGrouping(stops: seq<StopRow>, key: Option<string>, id: string)
    ensures key in StopIndex(stops) <==> exists i :: GroupedUnder(stops, i, key)
    ensures key in StopIndex(stops) ==>
      (id in StopIndex(stops)[key] <==> exists i :: GroupedUnder(stops, i, key) && stops[i].stopId == id)
    decreases |stops|
  {
    if stops != [] {
      var n := |stops| - 1;
      var init := stops[..n];
      var last := stops[n];
      StopIndexGrouping(init, key, id);
      forall i | 0 <= i < n
        ensures GroupedUnder(init, i, key) <==> GroupedUnder(stops, i, key)
      {
        assert init[i] == stops[i];
      }
      assert StopIndex(stops) == AddStop(StopIndex(init), last);
      if GroupedUnder(stops, n, key) {
        assert key in StopIndex(stops) && id == last.stopId ==> id in StopIndex(stops)[key];
      } else {
        assert forall i :: GroupedUnder(stops, i, key) ==> i < n;
        assert StopIndex(stops) == StopIndex(init) || (IsPlatform(last) && ParentStation(last) != key);
      }
    }
  }

  /** Every key maps to a non-empty set. */
  lemma StopIndexNonEmpty(stops: seq<StopRow>)
    ensures forall key :: key in StopIndex(stops) ==> StopIndex(stops)[key] != {}
  {
    forall key | key in StopIndex(stops)
      ensures StopIndex(stops)[key] != {}
    {
      StopIndexGrouping(stops, key, "");
      var i :| GroupedUnder(stops, i, key);
      StopIndexGrouping(stops, key, stops[i].stopId);
    }
  }

  /** Stations, entrances and other non-platform rows never appear in any group. */
  lemma NonPlatformsNeverGrouped(stops: seq<StopRow>, id: string)
    requires forall i :: 0 <= i < |stops| && stops[i].stopId == id ==> !IsPlatform(stops[i])
    ensures forall key :: key in StopIndex(stops) ==> id !in StopIndex(stops)[key]
  {
    forall key | key in StopIndex(stops)
      ensures id !in StopIndex(stops)[key]
    {
      StopIndexGrouping(stops, key, id);
    }
  }

  /** `route_ids` after `_load_routes`. */
  function RouteIdSet(routes: seq<RouteRow>): set<string>
  {
    set i | 0 <= i < |routes| :: routes[i].routeId
  }

  /** The two legacy encodings carry enough separators for `map_route_id` not to raise IndexError. */
  predicate LegacyWellFormed(id: string)
  {
    if StartsWith(id, "de:vvs:vvs") then
      var comps := Split(Drop(id, 11), '-');
      |comps| >= 2 && |Split(comps[1], ':')| >= 2
    else if StartsWith(id, "vvs:") then
      |Split(Drop(id, 4), ':')| >= 2
    else true
  }

  /** The special-case table applied to a candidate id. */
  function ApplySpecialCases(id: string): string
  {
    if id in SpecialCases then SpecialCases[id] else id
  }

  /** The canonical route id the static feed uses for a type, name and suffix. */
  function Canonical(routeType: string, routeName: string, suffix: string): string
  {
    "de:vvs:" + routeType + routeName + suffix + ":"
  }

  class DeVVSGtfsIdMapper {
    /** The rows the tables were built from. */
    ghost const stopRows: seq<StopRow>
    ghost const routeRows: seq<RouteRow>

    var parentStationsStops: ParentIndex
    var routeIds: set<string>

    ghost predicate Valid()
      reads this
    {
      parentStationsStops == StopIndex(stopRows) && routeIds == RouteIdSet(routeRows)
    }

    constructor (stops: seq<StopRow>, routes: seq<RouteRow>)
      ensures stopRows == stops && routeRows == routes && Valid()
    {
      stopRows := stops;
      routeRows := routes;
      new;
      LoadStops(stops);
      LoadRoutes(routes);
    }

    /** `_load_stops`: groups the platform rows under their parent-station key, row by row. */
    method LoadStops(stops: seq<StopRow>)
      requires stops == stopRows
      modifies this`parentStationsStops
      ensures parentStationsStops == StopIndex(stops)
    {
      var index: ParentIndex := map[];
      for i := 0 to |stops|
        invariant index == StopIndex(stops[..i])
      {
        var stop := stops[i];
        assert stops[..i + 1][..i] == stops[..i];
        if IsPlatform(stop) {
          var parent := ParentStation(stop);
          if parent !in index {
            index := index[parent := {}];
          }
          index := index[parent := index[parent] + {stop.stopId}];
        }
      }
      assert stops[..|stops|] == stops;
      parentStationsStops := index;
    }

    /** `_load_routes`: collects every route_id. */
    method LoadRoutes(routes: seq<RouteRow>)
      requires routes == routeRows
      modifies this`routeIds
      ensures routeIds == RouteIdSet(routes)
    {
      var ids: set<string> := {};
      for i := 0 to |routes|
        invariant ids == RouteIdSet(routes[..i])
      {
        assert RouteIdSet(routes[..i + 1]) == RouteIdSet(routes[..i]) + {routes[i].routeId} by {
          assert forall j :: 0 <= j < i ==> routes[..i + 1][j] == routes[..i][j];
        }
        ids := ids + {routes[i].routeId};
      }
      assert routes[..|routes|] == routes;
      routeIds := ids;
    }

    /**
     * `find_nth`: the loop that calls `find` again from just after the last hit
     * while hits remain and fewer than n have been taken.
     */
    static method FindNth(wholestring: string, pattern: char, n: int) returns (start: int)
      ensures start == NthIndex(wholestring, pattern, n)
      ensures var k := if n < 1 then 1 else n;
              (start == -1 <==> Count(wholestring, pattern) < k) &&
              (start != -1 ==> 0 <= start < |wholestring| && wholestring[start] == pattern &&
                               Count(wholestring[..start], pattern) == k - 1)
    {
      start := FindFrom(wholestring, pattern, 0);
      var m := n;
      while start >= 0 && m > 1
        invariant if n >= 1 then 1 <= m <= n else m == n
        invariant start == NthIndex(wholestring, pattern, n - m + 1)
        decreases m
      {
        start := FindFrom(wholestring, pattern, start + 1);
        m := m - 1;
      }
      if start < 0 {
        NthIndexMeaning(wholestring, pattern, n - m + 1);
      } else if n < 1 {
        assert NthIndex(wholestring, pattern, 1) == NthIndex(wholestring, pattern, n);
      } else {
        assert m == 1;
      }
      NthIndexMeaning(wholestring, pattern, n);
    }

    /**
     * `map_route_id`: ids already in routes.txt pass through; the two legacy
     * encodings `de:vvs:vvs-<type>-<name>:<suffix>` and
     * `vvs:<type><name>:<suffix>:...` are decoded into
     * `de:vvs:<type><name padded to 3><suffix>:`, except for type 11 (apart
     * from three names) and types 76, 77 and 81; then the special cases apply.
     */
    function MapRouteId(gtfsrtRouteId: string): (r: string)
      reads this
      requires gtfsrtRouteId in routeIds || LegacyWellFormed(gtfsrtRouteId)
      ensures gtfsrtRouteId in routeIds ==> r == gtfsrtRouteId
      ensures (!StartsWith(gtfsrtRouteId, "de:vvs:vvs") && !StartsWith(gtfsrtRouteId, "vvs:") &&
               gtfsrtRouteId !in routeIds) ==> r == ApplySpecialCases(gtfsrtRouteId)
    {
      if gtfsrtRouteId in routeIds then gtfsrtRouteId
      else if StartsWith(gtfsrtRouteId, "de:vvs:vvs") then
        var comps := Split(Drop(gtfsrtRouteId, 11), '-');
        var routeType := comps[0];
        var nameComps := Split(comps[1], ':');
        var routeName := ZFill(nameComps[0], 3);
        var suffix := if |nameComps[1]| > 0 then nameComps[1] else "_";
        if routeType == "11" && routeName !in Route11Exceptions then gtfsrtRouteId
        else if routeType in UnchangedRouteTypes then ApplySpecialCases(gtfsrtRouteId)
        else ApplySpecialCases(Canonical(routeType, routeName, suffix))
      else if StartsWith(gtfsrtRouteId, "vvs:") then
        var comps := Split(Drop(gtfsrtRouteId, 4), ':');
        var routeType := Take(comps[0], 2);
        var routeName := ZFill(Drop(comps[0], 2), 3);
        var suffix := if comps[1] != " " then comps[1] else "_";
        if routeType == "11" && routeName !in Route11Exceptions then gtfsrtRouteId
        else if routeType in UnchangedRouteTypes then ApplySpecialCases(gtfsrtRouteId)
        else ApplySpecialCases(Canonical(routeType, routeName, suffix))
      else ApplySpecialCases(gtfsrtRouteId)
    }

    /**
     * `map_stop_id`: a parent-station key expands to its stops; any other id
     * stands for itself. Never empty.
     */
    function MapStopId(gtfsrtStopId: string): (r: set<string>)
      reads this
      requires Valid()
      ensures r != {}
      ensures Some(gtfsrtStopId) in parentStationsStops ==> r == parentStationsStops[Some(gtfsrtStopId)]
      ensures Some(gtfsrtStopId) !in parentStationsStops ==> r == {gtfsrtStopId}
    {
      StopIndexNonEmpty(stopRows);
      if Some(gtfsrtStopId) !in parentStationsStops then {gtfsrtStopId}
      else parentStationsStops[Some(gtfsrtStopId)]
    }
  }

  /**
   * `map_stop_id` against the rows: `x` is in the expansion of `id` exactly
   * when a platform row with id `x` has parent `id`, or, when no platform row
   * has parent `id`, when `x` is `id` itself.
   */
  lemma MapStopIdMembers(m: DeVVSGtfsIdMapper, id: string, x: string)
    requires m.Valid()
    ensures x in m.MapStopId(id) <==>
      (exists i :: GroupedUnder(m.stopRows, i, Some(id)) && m.stopRows[i].stopId == x) ||
      ((forall i :: !GroupedUnder(m.stopRows, i, Some(id))) && x == id)
  {
    StopIndexGrouping(m.stopRows, Some(id), x);
  }

  /** The legacy id `de:vvs:vvs-<type>-<name>:<suffix><rest>`. */
  function DashedLegacyId(routeType: string, routeName: string, suffix: string, rest: string): string
  {
    "de:vvs:vvs-" + (routeType + "-" + (routeName + ":" + (suffix + rest)))
  }

  /** The legacy id `vvs:<type><name>:<suffix><rest>`. */
  function ColonLegacyId(typeAndName: string, suffix: string, rest: string): string
  {
    "vvs:" + (typeAndName + ":" + (suffix + rest))
  }

  lemma PrefixDrop(p: string, s: string)
    ensures StartsWith(p + s, p) && Drop(p + s, |p|) == s
  {
    assert (p + s)[..|p|] == p;
  }

  /** `s` followed by nothing or by a further ':'-separated part splits with `s` first. */
  lemma SplitFirstPiece(s: string, rest: string)
    requires ':' !in s && (rest == [] || rest[0] == ':')
    ensures |Split(s + rest, ':')| >= 1 && Split(s + rest, ':')[0] == s
  {
    if rest == [] {
      assert s + rest == s;
      SplitNoSep(s, ':');
    } else {
      assert s + rest == s + [':'] + rest[1..];
      SplitAtFirst(s, ':', rest[1..]);
    }
  }

  /** How the `de:vvs:vvs-` branch splits a legacy id built from its parts. */
  lemma DecodeDashed(routeType: string, routeName: string, suffix: string, rest: string)
    requires '-' !in routeType && '-' !in routeName && ':' !in routeName
    requires '-' !in suffix && ':' !in suffix && '-' !in rest
    requires rest == [] || rest[0] == ':'
    ensures var id := DashedLegacyId(routeType, routeName, suffix, rest);
            var comps := Split(Drop(id, 11), '-');
            StartsWith(id, "de:vvs:vvs") && |comps| >= 2 && comps[0] == routeType &&
            var nameComps := Split(comps[1], ':');
            |nameComps| >= 2 && nameComps[0] == routeName && nameComps[1] == suffix
  {
    var nameTail := suffix + rest;
    var tail := routeName + ":" + nameTail;
    var id := DashedLegacyId(routeType, routeName, suffix, rest);
    assert id == "de:vvs:vvs" + ("-" + (routeType + "-" + tail));
    PrefixDrop("de:vvs:vvs", "-" + (routeType + "-" + tail));
    PrefixDrop("de:vvs:vvs-", routeType + "-" + tail);
    assert '-' !in nameTail;
    assert '-' !in tail;
    SplitNoSep(tail, '-');
    SplitAtFirst(routeType, '-', tail);
    SplitAtFirst(routeName, ':', nameTail);
    SplitFirstPiece(suffix, rest);
  }

  /** How the `vvs:` branch splits a legacy id built from its parts. */
  lemma DecodeColon(typeAndName: string, suffix: string, rest: string)
    requires ':' !in typeAndName && ':' !in suffix
    requires rest == [] || rest[0] == ':'
    ensures var id := ColonLegacyId(typeAndName, suffix, rest);
            var comps := Split(Drop(id, 4), ':');
            StartsWith(id, "vvs:") && !StartsWith(id, "de:vvs:vvs") &&
            |comps| >= 2 && comps[0] == typeAndName && comps[1] == suffix
  {
    var id := ColonLegacyId(typeAndName, suffix, rest);
    PrefixDrop("vvs:", typeAndName + ":" + (suffix + rest));
    SplitAtFirst(typeAndName, ':', suffix + rest);
    SplitFirstPiece(suffix, rest);
    assert id[0] == 'v';
  }

  /**
   * Decoding `de:vvs:vvs-<type>-<name>:<suffix>`: unchanged for type 11 outside
   * the exceptions and for types 76, 77, 81; otherwise the canonical id with
   * the name padded to three characters and an empty suffix read as '_',
   * passed through the special cases.
   */
  lemma MapRouteIdDashed(m: DeVVSGtfsIdMapper, routeType: string, routeName: string, suffix: string, rest: string)
    requires '-' !in routeType && '-' !in routeName && ':' !in routeName
    requires '-' !in suffix && ':' !in suffix && '-' !in rest
    requires rest == [] || rest[0] == ':'
    ensures var id := DashedLegacyId(routeType, routeName, suffix, rest);
            var name := ZFill(routeName, 3);
            LegacyWellFormed(id) &&
            (id !in m.routeIds ==>
              m.MapRouteId(id) ==
                if routeType == "11" && name !in Route11Exceptions then id
                else if routeType in UnchangedRouteTypes then id
                else ApplySpecialCases(Canonical(routeType, name, if suffix == "" then "_" else suffix)))
  {
    var id := DashedLegacyId(routeType, routeName, suffix, rest);
    DecodeDashed(routeType, routeName, suffix, rest);
    assert id[7] == 'v';
    assert id !in SpecialCases;
  }

  /**
   * Decoding `vvs:<type><name>:<suffix>[:...]`: the type is the first two
   * characters, the name the rest padded to three, a suffix of one space
   * reads as '_'; the same pass-through rules as the dashed form.
   */
  lemma MapRouteIdColon(m: DeVVSGtfsIdMapper, typeAndName: string, suffix: string, rest: string)
    requires ':' !in typeAndName && ':' !in suffix
    requires rest == [] || rest[0] == ':'
    ensures var id := ColonLegacyId(typeAndName, suffix, rest);
            var routeType := Take(typeAndName, 2);
            var name := ZFill(Drop(typeAndName, 2), 3);
            LegacyWellFormed(id) &&
            (id !in m.routeIds ==>
              m.MapRouteId(id) ==
                if routeType == "11" && name !in Route11Exceptions then id
                else if routeType in UnchangedRouteTypes then id
                else ApplySpecialCases(Canonical(routeType, name, if suffix == " " then "_" else suffix)))
  {
    var id := ColonLegacyId(typeAndName, suffix, rest);
    DecodeColon(typeAndName, suffix, rest);
    assert id[0] == 'v';
    assert id !in SpecialCases;
  }

  /** Fixture case: `de:vvs:vvs-31-263:` maps to `de:vvs:31263_:`. */
  lemma MapRouteIdFixture31263(m: DeVVSGtfsIdMapper, id: string)
    requires id == "de:vvs:vvs-31-263:" && id !in m.routeIds
    ensures LegacyWellFormed(id) && m.MapRouteId(id) == "de:vvs:31263_:"
  {
    assert DashedLegacyId("31", "263", "", "") == id by { }
    assert Canonical("31", "263", "_") == "de:vvs:31263_:" by { }
    assert "31" !in UnchangedRouteTypes by { }
    assert ZFill("263", 3) == "263" by { }
    assert "de:vvs:31263_:" !in SpecialCases by { }
    MapRouteIdDashed(m, "31", "263", "", "");
  }

  /** Fixture case: `de:vvs:vvs-34-48:` maps to `de:vvs:34048_:`. */
  lemma MapRouteIdFixture34048(m: DeVVSGtfsIdMapper, id: string)
    requires id == "de:vvs:vvs-34-48:" && id !in m.routeIds
    ensures LegacyWellFormed(id) && m.MapRouteId(id) == "de:vvs:34048_:"
  {
    assert DashedLegacyId("34", "48", "", "") == id by { }
    assert ZFill("48", 3) == "048" by { }
    assert Canonical("34", "048", "_") == "de:vvs:34048_:" by { }
    assert "34" !in UnchangedRouteTypes by { }
    assert "de:vvs:34048_:" !in SpecialCases by { }
    MapRouteIdDashed(m, "34", "48", "", "");
  }

  /** Fixture case: `de:vvs:vvs-31-901:a` maps to `de:vvs:31901a:`. */
  lemma MapRouteIdFixture31901a(m: DeVVSGtfsIdMapper, id: string)
    requires id == "de:vvs:vvs-31-901:a" && id !in m.routeIds
    ensures LegacyWellFormed(id) && m.MapRouteId(id) == "de:vvs:31901a:"
  {
    assert DashedLegacyId("31", "901", "a", "") == id by { }
    assert Canonical("31", "901", "a") == "de:vvs:31901a:" by { }
    assert "31" !in UnchangedRouteTypes by { }
    assert ZFill("901", 3) == "901" by { }
    assert "de:vvs:31901a:" !in SpecialCases by { }
    MapRouteIdDashed(m, "31", "901", "a", "");
  }

  /** Fixture case: `vvs:31X16: :R:j24` maps to `de:vvs:31X16_:`. */
  lemma MapRouteIdFixture31X16(m: DeVVSGtfsIdMapper, id: string)
    requires id == "vvs:31X16: :R:j24" && id !in m.routeIds
    ensures LegacyWellFormed(id) && m.MapRouteId(id) == "de:vvs:31X16_:"
  {
    assert ColonLegacyId("31X16", " ", ":R:j24") == id by { }
    assert Take("31X16", 2) == "31" by { }
    assert Drop("31X16", 2) == "X16" by { }
    assert Canonical("31", "X16", "_") == "de:vvs:31X16_:" by { }
    assert "31" !in UnchangedRouteTypes by { }
    assert ZFill("X16", 3) == "X16" by { }
    assert "de:vvs:31X16_:" !in SpecialCases by { }
    MapRouteIdColon(m, "31X16", " ", ":R:j24");
  }

  /** Fixture case: `vvs:31757:u:H:j24` maps to `de:vvs:31757u:`. */
  lemma MapRouteIdFixture31757u(m: DeVVSGtfsIdMapper, id: string)
    requires id == "vvs:31757:u:H:j24" && id !in m.routeIds
    ensures LegacyWellFormed(id) && m.MapRouteId(id) == "de:vvs:31757u:"
  {
    assert ColonLegacyId("31757", "u", ":H:j24") == id by { }
    assert Take("31757", 2) == "31" by { }
    assert Drop("31757", 2) == "757" by { }
    assert Canonical("31", "757", "u") == "de:vvs:31757u:" by { }
    assert "31" !in UnchangedRouteTypes by { }
    assert ZFill("757", 3) == "757" by { }
    assert "de:vvs:31757u:" !in SpecialCases by { }
    MapRouteIdColon(m, "31757", "u", ":H:j24");
  }

  /** Fixture case: `vvs:30014:e:H:j24` maps to `de:vvs:300014e:` through the special cases. */
  lemma MapRouteIdFixture300014e(m: DeVVSGtfsIdMapper, id: string)
    requires id == "vvs:30014:e:H:j24" && id !in m.routeIds
    ensures LegacyWellFormed(id) && m.MapRouteId(id) == "de:vvs:300014e:"
  {
    assert ColonLegacyId("30014", "e", ":H:j24") == id by { }
    assert Take("30014", 2) == "30" by { }
    assert Drop("30014", 2) == "014" by { }
    assert Canonical("30", "014", "e") == "de:vvs:30014e:" by { }
    assert "30" !in UnchangedRouteTypes by { }
    assert ZFill("014", 3) == "014" by { }
    MapRouteIdColon(m, "30014", "e", ":H:j24");
  }

  /** Two platforms `p:x` and `p:y` without explicit parent are exactly what `p` expands to. */
  lemma TwoImplicitChildren(m: DeVVSGtfsIdMapper, p: string, x: string, y: string)
    requires Count(p, ':') == 2
    requires m.Valid() && m.stopRows == [StopRow(p + [':'] + x, Some(""), Some("")), StopRow(p + [':'] + y, Some(""), Some(""))]
    ensures m.MapStopId(p) == {p + [':'] + x, p + [':'] + y}
  {
    var s3 := m.stopRows[0];
    var s4 := m.stopRows[1];
    ImplicitParent(s3, p, x);
    ImplicitParent(s4, p, y);
    assert m.stopRows[..1] == [s3];
    assert [s3][..0] == [];
    assert StopIndex([s3]) == AddStop(map[], s3);
  }

  /**
   * The fixture's two platforms `de:08111:109:0:3` and `de:08111:109:0:4`, with
   * empty location_type and parent_station, expand from `de:08111:109`.
   */
  lemma ImplicitParentFixture(m: DeVVSGtfsIdMapper, parent: string, a: string, b: string)
    requires parent == "de:08111:109" && a == "de:08111:109:0:3" && b == "de:08111:109:0:4"
    requires m.Valid() && m.stopRows == [StopRow(a, Some(""), Some("")), StopRow(b, Some(""), Some(""))]
    ensures m.MapStopId(parent) == {a, b}
  {
    assert Count(parent, ':') == 2 by {
      var d, n, x := "de", "08111", "109";
      assert parent == d + ":" + n + ":" + x;
      CountAppend(d + ":" + n + ":", x, ':');
      CountAppend(d + ":" + n, ":", ':');
      CountAppend(d + ":", n, ':');
      CountAppend(d, ":", ':');
      CountAbsent(d, ':');
      CountAbsent(n, ':');
      CountAbsent(x, ':');
      assert Count(":", ':') == 1 by { assert ":"[..0] == ""; }
    }
    assert a == parent + [':'] + "0:3";
    assert b == parent + [':'] + "0:4";
    TwoImplicitChildren(m, parent, "0:3", "0:4");
  }
}
