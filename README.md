# de_vvs alert translator — a Dafny model

This project models the core of `gtfs_realtime_translators/translators/de_vvs.py`.
That code repairs the GTFS-realtime Alerts feed of the Stuttgart transit
authority VVS against the authority's static GTFS schedule. It has two parts.

- **`DeVVSGtfsIdMapper`** (module `IdMapper`) builds two read-only tables from
  `stops.txt` and `routes.txt`:
  - the platform stops grouped under their parent station, where the key is the
    explicit `parent_station`, or else the prefix of the `stop_id` before its third `:`;
  - the set of valid route ids.

  It maps a feed route id onto the schedule's form. Ids already valid pass
  through. It decodes the legacy encodings `de:vvs:vvs-<type>-<name>:<suffix>`
  and `vvs:<type><name>:<suffix>:…` into `de:vvs:<type><name padded to 3><suffix>:`,
  with the type-11 and type-76/77/81 pass-throughs and one typo fix-up. It
  expands a parent-station id into its stops.
- **`DeVVSAlertGtfsRealtimeTranslator`** (module `AlertTranslator`) handles each
  alert of the feed in turn:
  - it rebuilds the informed-entity selectors, mapping the route and exploding
    a parent station into one selector per stop;
  - it turns the description's HTML into text;
  - when the effect or the cause is absent or `UNKNOWN_*`, it guesses it from
    keywords in the lower-cased header and description (module `Classify`);
  - it sets the severity to WARNING (3) or SEVERE (4).

The module `Text` gives the Python string operations the code relies on their
exact Python meaning:
- `find` and the `find_nth` loop;
- `startswith`, and slicing that clamps at the end;
- `split` on one character, which never returns an empty list;
- `zfill`, including its sign handling;
- substring `in` and `any(map(s.__contains__, …))`.

Form of the model:
- The mapper is a class. Its constructor fills `parentStationsStops` and
  `routeIds` with the row-by-row loops of `_load_stops` and `_load_routes`.
- `Valid()` ties those fields to the declarative tables `StopIndex` and `RouteIdSet`.
- `find_nth` is a method with its `while` loop, proved against `NthIndex`.
- `map_route_id`, `map_stop_id`, `_parent_station` and the classifiers are functions.
- Selector expansion and severity are methods with the source's loops, proved
  against specification functions.

Python iterates a set in an order the model cannot know. The expansion method
therefore also returns, as ghost data, the order in which each stop set was
iterated. The specification `Expansion` is stated for any such order. The
lemma `ExpansionMembers` shows that which selectors come out does not depend
on that order.

Three behaviours of the code worth knowing:
- **Stops without a derivable parent are grouped.** A platform stop with no
  explicit parent and fewer than three colons in its id is still grouped. Its
  key is `""` when the `parent_station` cell is empty, and `None` when the cell
  is absent (a missing column or a short row). No string argument of
  `map_stop_id` reaches the `None` group. The model's key type is therefore
  `Option<string>`.
- **Every start within the window counts.** Severity looks at every active
  period whose start is at or before the bound `latestStart`, not only the
  earliest one, and that includes starts in the past. Periods without a start
  are ignored.
- **The legacy prefix test and the slice differ by one character.** The test is
  `startswith('de:vvs:vvs')`, but the slice drops `len('de:vvs:vvs-')`
  characters. The model keeps both exactly as written.

## Model

| member | source | states |
|---|---|---|
| Text.FindFrom | gtfs_realtime_translators/translators/de_vvs.py:230-232 | `str.find(c, start)` for a one-character pattern: the result is -1 exactly when no `c` lies at or after `start`; otherwise it is the first such index. |
| Text.NthIndexMeaning | gtfs_realtime_translators/translators/de_vvs.py:228-234 | The value of `find_nth(s, c, n)` is -1 exactly when `s` has fewer than max(n,1) copies of `c`. Otherwise it is an index holding `c` with exactly max(n,1)-1 copies before it. |
| Text.NthIndex | gtfs_realtime_translators/translators/de_vvs.py:228-234 | The reference definition of `find_nth`: for n ≤ 1 it is `find` from index 0; each further step searches just after the previous hit, and -1 stays -1. |
| Text.NthIndexUnique | gtfs_realtime_translators/translators/de_vvs.py:228-234 | The position holding `c` after exactly n-1 earlier copies is the one `find_nth` returns. |
| Text.ContainsAny | gtfs_realtime_translators/translators/de_vvs.py:83 | `any(map(s.__contains__, words))` holds exactly when some word occurs as a substring. |
| Text.Split | gtfs_realtime_translators/translators/de_vvs.py:241-243 | `split` on one character yields at least one piece, and no piece contains the separator. |
| Text.SplitJoin | gtfs_realtime_translators/translators/de_vvs.py:241-243 | Round trip: joining the pieces of `split` with the separator gives back the string. |
| Text.SplitArity | gtfs_realtime_translators/translators/de_vvs.py:243-245 | `split` yields a second piece (so `[1]` does not raise) exactly when the separator occurs. |
| Text.ZFill | gtfs_realtime_translators/translators/de_vvs.py:244 | `zfill(w)` never truncates and pads to `w` with `0`. A leading `+`/`-` stays in front of the padding; unsigned input keeps its characters at the end. |
| IdMapper.ParentStation | gtfs_realtime_translators/translators/de_vvs.py:198-205 | A non-empty explicit parent is the key. Otherwise, with at least three colons, the key is the prefix before the third colon, which holds exactly two colons. Otherwise the key is the cell as read (`""` or missing). |
| IdMapper.ImplicitParent | gtfs_realtime_translators/translators/de_vvs.py:199-203 | A stop without explicit parent whose id is `p:rest`, where `p` holds two colons, is keyed by `p`. |
| IdMapper.IsPlatform | gtfs_realtime_translators/translators/de_vvs.py:210-211 | A row is a platform (kept by `handle_stop`) exactly when its `location_type` is missing, `''` or `'0'`. |
| IdMapper.AddStop | gtfs_realtime_translators/translators/de_vvs.py:209-215 | One row through `handle_stop`. A non-platform row leaves the table as it is. A platform row puts its id under its parent key, adding the key if needed. Every other key keeps its set, no set shrinks, and the only new id is the row's. |
| IdMapper.StopIndex | gtfs_realtime_translators/translators/de_vvs.py:207-216 | The table `_load_stops` builds: the rows folded through `AddStop` in file order. |
| IdMapper.StopIndexGrouping | gtfs_realtime_translators/translators/de_vvs.py:207-218 | A key is in the index exactly when some platform row has that parent. An id is in the key's set exactly when a platform row with that id has that parent. |
| IdMapper.StopIndexNonEmpty | gtfs_realtime_translators/translators/de_vvs.py:213-216 | Every key of the index maps to a non-empty set. |
| IdMapper.NonPlatformsNeverGrouped | gtfs_realtime_translators/translators/de_vvs.py:210-211 | An id whose rows all have a `location_type` other than missing, `''` or `'0'` is in no group. |
| IdMapper.RouteIdSet | gtfs_realtime_translators/translators/de_vvs.py:220-226 | The set `_load_routes` builds: the route id of every row. |
| IdMapper.LegacyWellFormed | gtfs_realtime_translators/translators/de_vvs.py:240-262 | The legacy ids on which the source's indexing does not raise. A `de:vvs:vvs` id needs a `-` after the 11-character slice, then a `:` in the second piece. A `vvs:` id needs a `:` after its prefix. Every other id qualifies. |
| IdMapper.ApplySpecialCases | gtfs_realtime_translators/translators/de_vvs.py:278-282 | The typo fix-up table: `de:vvs:30014e:` becomes `de:vvs:300014e:`, and every other id is left as it is. |
| IdMapper.DeVVSGtfsIdMapper.constructor | gtfs_realtime_translators/translators/de_vvs.py:186-188 | Loading both tables establishes `Valid()`: the fields equal the declarative stop index and route-id set of the rows. |
| IdMapper.DeVVSGtfsIdMapper.LoadStops | gtfs_realtime_translators/translators/de_vvs.py:207-218 | The row-by-row loop leaves exactly `StopIndex(stops)` in `parentStationsStops`. |
| IdMapper.DeVVSGtfsIdMapper.LoadRoutes | gtfs_realtime_translators/translators/de_vvs.py:220-226 | The loop leaves exactly the set of all rows' route ids. |
| IdMapper.DeVVSGtfsIdMapper.FindNth | gtfs_realtime_translators/translators/de_vvs.py:228-234 | The `while` loop returns -1 exactly when fewer than max(n,1) colons occur. Otherwise it returns the index of the max(n,1)-th one, with that many minus one before it. |
| IdMapper.DeVVSGtfsIdMapper.MapRouteId | gtfs_realtime_translators/translators/de_vvs.py:236-287 | An id already in `routes.txt` is returned unchanged. A non-legacy unknown id goes only through the typo fix-up table. A legacy id must split into at least two pieces, or the source raises `IndexError`. |
| IdMapper.DeVVSGtfsIdMapper.MapStopId | gtfs_realtime_translators/translators/de_vvs.py:289-295 | Never empty. It is the stored set for a known parent key and `{id}` for any other id. |
| IdMapper.MapStopIdMembers | gtfs_realtime_translators/translators/de_vvs.py:289-295 | Against the rows: `x` is in `map_stop_id(id)` exactly when a platform row `x` has parent `id`, or when no row has parent `id` and `x` is `id`. |
| IdMapper.DecodeDashed | gtfs_realtime_translators/translators/de_vvs.py:240-245 | Splitting `de:vvs:vvs-<type>-<name>:<suffix>…` recovers type, name and suffix. |
| IdMapper.DecodeColon | gtfs_realtime_translators/translators/de_vvs.py:257-262 | Splitting `vvs:<type+name>:<suffix>…` recovers the first component and the suffix. |
| IdMapper.MapRouteIdDashed | gtfs_realtime_translators/translators/de_vvs.py:240-254 | For an unknown dashed id: type 11 with a padded name outside `011`/`064`/`074a` is returned as is (no fix-up). Types 76/77/81 go through the fix-up only. Otherwise the result is the fixed-up `de:vvs:<type><zfill3 name><suffix or _>:`. |
| IdMapper.MapRouteIdColon | gtfs_realtime_translators/translators/de_vvs.py:257-282 | For an unknown `vvs:` id: the same pass-throughs, with the type the first two characters and the name the rest padded to 3. The suffix is `_` only when the component is a single space; then the fix-up applies. |
| IdMapper.MapRouteIdFixture31263 | test/test_de_vvs.py:23 | `de:vvs:vvs-31-263:` maps to `de:vvs:31263_:`. |
| IdMapper.MapRouteIdFixture34048 | test/test_de_vvs.py:24 | `de:vvs:vvs-34-48:` maps to `de:vvs:34048_:` (name padded). |
| IdMapper.MapRouteIdFixture31901a | test/test_de_vvs.py:25 | `de:vvs:vvs-31-901:a` maps to `de:vvs:31901a:`. |
| IdMapper.MapRouteIdFixture31X16 | test/test_de_vvs.py:26 | `vvs:31X16: :R:j24` maps to `de:vvs:31X16_:` (space suffix becomes `_`). |
| IdMapper.MapRouteIdFixture31757u | test/test_de_vvs.py:27 | `vvs:31757:u:H:j24` maps to `de:vvs:31757u:`. |
| IdMapper.MapRouteIdFixture300014e | test/test_de_vvs.py:28-29 | `vvs:30014:e:H:j24` maps to `de:vvs:300014e:` through the typo fix-up. |
| IdMapper.TwoImplicitChildren | gtfs_realtime_translators/translators/de_vvs.py:198-218 | Two stops `p:x` and `p:y` with empty parent cells, where `p` holds two colons, make `map_stop_id(p)` exactly `{p:x, p:y}`. |
| IdMapper.ImplicitParentFixture | test/test_de_vvs.py:31-38 | `de:08111:109:0:3` and `de:08111:109:0:4` are exactly the stops of `de:08111:109`. |
| Classify.HeaderOrDescContainsAny | gtfs_realtime_translators/translators/de_vvs.py:127-129 | Holds exactly when some word occurs in the header or in the description. |
| Classify.MapEffect | gtfs_realtime_translators/translators/de_vvs.py:68-97 | Never yields REDUCED_SERVICE, SIGNIFICANT_DELAYS, DETOUR or OTHER_EFFECT. |
| Classify.MapCause | gtfs_realtime_translators/translators/de_vvs.py:99-125 | Yields only CONSTRUCTION, OTHER_CAUSE, WEATHER, ACCIDENT or UNKNOWN_CAUSE. |
| Classify.FirstMatch | gtfs_realtime_translators/translators/de_vvs.py:83-97 | The reference rule engine: the result of the first rule that fires, or the fallback when none fires. |
| Classify.EffectRulesFire | gtfs_realtime_translators/translators/de_vvs.py:83-92 | Four of the effect rules, as data, fire exactly on the keyword tests `__map_effect` writes. |
| Classify.EffectRulesFireTail | gtfs_realtime_translators/translators/de_vvs.py:87-94 | The accessibility and regular-service rules fire exactly on their keyword tests. |
| Classify.MapEffectIsFirstMatch | gtfs_realtime_translators/translators/de_vvs.py:83-97 | `__map_effect` is first-match over STOP_MOVED, NO_SERVICE, ACCESSIBILITY_ISSUE, MODIFIED_SERVICE, ADDITIONAL_SERVICE, NO_EFFECT, falling back to UNKNOWN_EFFECT. |
| Classify.MapCauseIsFirstMatch | gtfs_realtime_translators/translators/de_vvs.py:115-125 | `__map_cause` is first-match over CONSTRUCTION, OTHER_CAUSE, WEATHER, ACCIDENT, each reading header and description, falling back to UNKNOWN_CAUSE. |
| Classify.EffectIgnoresDescription | gtfs_realtime_translators/translators/de_vvs.py:83-97 | Only STOP_MOVED consults the description: two descriptions that both give another effect give the same one. |
| Classify.CauseSymmetric | gtfs_realtime_translators/translators/de_vvs.py:115-129 | Every cause rule reads header and description alike, so swapping them changes nothing. |
| AlertTranslator.BaseSelector | gtfs_realtime_translators/translators/de_vvs.py:134-141 | The selector before stops are exploded: agency and direction copied, route mapped by `map_route_id`, and no route type, trip or stop. |
| AlertTranslator.Expand | gtfs_realtime_translators/translators/de_vvs.py:144-152 | One input selector's outputs: the base selector once per stop of `map_stop_id`, in the iteration order taken, when it has a stop id; otherwise the base selector alone. |
| AlertTranslator.Expansion | gtfs_realtime_translators/translators/de_vvs.py:131-154 | The outputs of `__map_informed_entities`: each input's `Expand`, concatenated in input order. |
| AlertTranslator.ExpansionAppend | gtfs_realtime_translators/translators/de_vvs.py:131-154 | Outputs follow input order: expanding `a + b` is expanding `a`, then `b`. |
| AlertTranslator.ExpansionMembers | gtfs_realtime_translators/translators/de_vvs.py:131-154 | For any iteration order, a selector is output exactly when it is an input's base selector (agency, mapped route, direction) and either the input has no stop id, or it carries one stop of the input's `map_stop_id`. |
| AlertTranslator.ExpansionLength | gtfs_realtime_translators/translators/de_vvs.py:144-152 | Each stop selector yields one output per stop of `map_stop_id`; each other selector yields exactly one. |
| AlertTranslator.ExpansionDropsTripAndRouteType | gtfs_realtime_translators/translators/de_vvs.py:134-141 | No output carries a route type or a trip: only agency, route, direction and stop are copied. |
| AlertTranslator.StartsLatestIn | gtfs_realtime_translators/translators/de_vvs.py:176-182 | True exactly when some active period has a start no later than the bound; periods without a start are ignored. |
| AlertTranslator.Severity | gtfs_realtime_translators/translators/de_vvs.py:156-171 | The level is 3 or 4. It is 4 exactly when a start lies at or before `latestStart` and either a keyword occurs in the stored description or a selector's route is a priority route. |
| AlertTranslator.SeverityBaselineWhenFar | gtfs_realtime_translators/translators/de_vvs.py:158-159 | An alert whose starts all lie after `latestStart`, or that has none, keeps WARNING whatever it matches. |
| AlertTranslator.SeverityMonotone | gtfs_realtime_translators/translators/de_vvs.py:163-171 | More priority keywords or routes never lower the level. |
| AlertTranslator.FinalEffect | gtfs_realtime_translators/translators/de_vvs.py:58-59 | The effect `__map_alert` leaves: one that is present and not UNKNOWN_EFFECT is kept, otherwise `__map_effect` decides. |
| AlertTranslator.FinalCause | gtfs_realtime_translators/translators/de_vvs.py:61-62 | The cause `__map_alert` leaves: one that is present and not UNKNOWN_CAUSE is kept, otherwise `__map_cause` decides. |
| AlertTranslator.ExplicitClassificationKept | gtfs_realtime_translators/translators/de_vvs.py:58-62 | An effect or cause that is present and not `UNKNOWN_*` is never overwritten. |
| AlertTranslator.MissingClassificationGuessed | gtfs_realtime_translators/translators/de_vvs.py:49-62 | An absent or unknown effect or cause becomes the first-match rule result on the lower-cased header and the lower-cased plain-text description. |
| AlertTranslator.MapAlertShape | gtfs_realtime_translators/translators/de_vvs.py:44-66 | The id, active periods and header are kept, and the description is present exactly when it was. An effect, a cause and a level of 3 or 4 are always set. |
| AlertTranslator.MapAlertSpec | gtfs_realtime_translators/translators/de_vvs.py:44-66 | `__map_alert` on one entity as a value. The selectors are expanded. The header is lower-cased, and a present description is replaced by its text. Effect and cause go through `FinalEffect` and `FinalCause`, then the level is set by `Severity`. |
| AlertTranslator.MapAlerts | gtfs_realtime_translators/translators/de_vvs.py:38 | The list comprehension over the feed: one output entity per input entity (`|r| == |entities|`), each one `MapAlertSpec`. |
| AlertTranslator.MapAlertsPointwise | gtfs_realtime_translators/translators/de_vvs.py:38 | Entity `i` of the output feed is input entity `i` mapped by `__map_alert`: feed order is kept. |
| AlertTranslator.DeVVSAlertGtfsRealtimeTranslator.constructor | gtfs_realtime_translators/translators/de_vvs.py:30-33 | A fresh, valid mapper over the given rows, and the two priority lists stored. |
| AlertTranslator.DeVVSAlertGtfsRealtimeTranslator.MapInformedEntity | gtfs_realtime_translators/translators/de_vvs.py:133-152 | One selector's outputs: the set loop visits every stop of `map_stop_id` exactly once, and the outputs are `Expand` for that order. |
| AlertTranslator.DeVVSAlertGtfsRealtimeTranslator.MapInformedEntities | gtfs_realtime_translators/translators/de_vvs.py:131-154 | The nested loops produce exactly `Expansion` for the iteration orders taken, each order enumerating its stop set. |
| AlertTranslator.DeVVSAlertGtfsRealtimeTranslator.SetSeverityLevel | gtfs_realtime_translators/translators/de_vvs.py:156-171 | The loops leave the alert unchanged except for a severity level equal to `Severity`. |
| AlertTranslator.DeVVSAlertGtfsRealtimeTranslator.MapAlert | gtfs_realtime_translators/translators/de_vvs.py:44-66 | The successive updates of one alert give exactly `MapAlertSpec`, with selectors expanded over a fitting iteration order. |
| AlertTranslator.DeVVSAlertGtfsRealtimeTranslator.Translate | gtfs_realtime_translators/translators/de_vvs.py:35-42 | The new feed keeps the header's incrementality and timestamp, and its entities are `MapAlerts` of the input entities. |

## Left out

- Protobuf parsing and serialisation (`ParseFromString`, `FeedMessage.create`, `Alert.create_from`) are not modelled. Messages are plain records, and `create_from` is taken to copy every alert field except the informed entities it replaces. The factories module is not part of this model.
- Alert fields the code never reads are not modelled: URL, cause and effect details, TTS texts, images. A translated string is reduced to the text of its first translation, the only one read or written. An empty translation list, where the source raises `IndexError`, is not modelled.
- Selector fields: the trip descriptor is reduced to a trip id. The feed header keeps only incrementality and timestamp; the version `FeedMessage.create` writes is not modelled.
- BeautifulSoup's HTML-to-text conversion is the parameter `htmlToText: string -> string`.
- Reading the GTFS zip and CSV files is not modelled: rows are passed in as sequences of records. A row without a `stop_id` or `route_id` value is not modelled. A missing `location_type` column, on which the source raises `KeyError`, reads as missing.
- `datetime.now()` is not read by the model. Its place is taken by the integer parameter `latestStart`: the POSIX seconds of `(datetime.now() + timedelta(weeks=1)).timestamp()`, the local wall clock moved on a week, rounded down. A daylight-saving change inside that week makes it lie an hour more or less than 604800 s ahead. Comparing an integer start with the float bound is the same as comparing it with that bound rounded down. The source reads the clock once per alert, while `Translate` takes one bound for the whole feed.
- Logging (`logger.warning`, `logger.info`, `logger.debug`) is not modelled; it has no effect on results.
- `registry/registry.py` and `setup.py` are not modelled; they are a dispatch table and packaging.
- Text.Lower: folds only ASCII capitals and `Ä`, `Ö`, `Ü`, not the whole of Unicode as Python's `str.lower` does.
- IdMapper.DeVVSGtfsIdMapper.FindNth: the pattern is one character, the only use in the source; `find` with a longer pattern is not modelled.
- IdMapper.DeVVSGtfsIdMapper.MapRouteId: an id that is neither known nor well-formed legacy is excluded by the precondition. The source raises `IndexError` on it (`[1]` on a one-piece split).
