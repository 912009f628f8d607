/**
 * The alert side of the de_vvs translator: each GTFS-realtime Alert of the
 * feed gets its informed-entity selectors rewritten against the static
 * schedule (route ids mapped, parent stations exploded into their stops), an
 * effect and a cause guessed from its texts when the feed leaves them
 * unknown, and a severity level of WARNING or SEVERE.
 */
module AlertTranslator {
  import opened Options
  import opened Text
  import opened IdMapper
  import opened Classify

  /** GTFS-realtime EntitySelector, with the trip descriptor reduced to its trip id. */
  datatype EntitySelector = EntitySelector(
    agencyId: Option<string>,
    routeId: Option<string>,
    routeType: Option<int>,
    trip: Option<string>,
    directionId: Option<int>,
    stopId: Option<string>)

  /** GTFS-realtime TimeRange: POSIX seconds, either end optional. */
  datatype TimeRange = TimeRange(start: Option<int>, end: Option<int>)

  /**
   * GTFS-realtime Alert. A translated text is reduced to the text of its first
   * translation, the only one the translator reads or writes.
   */
  datatype Alert = Alert(
    activePeriod: seq<TimeRange>,
    informedEntity: seq<EntitySelector>,
    cause: Option<Cause>,
    effect: Option<Effect>,
    headerText: Option<string>,
    descriptionText: Option<string>,
    severityLevel: Option<int>)

  datatype FeedEntity = FeedEntity(id: string, alert: Alert)

  datatype Incrementality = FullDataset | Differential

  datatype FeedHeader = FeedHeader(incrementality: Incrementality, timestamp: int)

  datatype FeedMessage = FeedMessage(header: FeedHeader, entity: seq<FeedEntity>)

  /** GTFS-realtime SeverityLevel WARNING, the level every translated alert starts from. */
  const Warning: int := 3
  /** GTFS-realtime SeverityLevel SEVERE. */
  const Severe: int := 4

  /** The selector's route id, if any, is one `map_route_id` accepts without failing. */
  predicate RouteMappable(m: DeVVSGtfsIdMapper, sel: EntitySelector)
    reads m
  {
    sel.routeId.Some? ==> sel.routeId.value in m.routeIds || LegacyWellFormed(sel.routeId.value)
  }

  predicate AllRoutesMappable(m: DeVVSGtfsIdMapper, sels: seq<EntitySelector>)
    reads m
  {
    forall i :: 0 <= i < |sels| ==> RouteMappable(m, sels[i])
  }

  /**
   * The selector `__map_informed_entities` starts from: agency and direction
   * copied, the route id mapped, every other field left unset.
   */
  function BaseSelector(m: DeVVSGtfsIdMapper, sel: EntitySelector): EntitySelector
    reads m
    requires RouteMappable(m, sel)
  {
    EntitySelector(
      sel.agencyId,
      if sel.routeId.Some? then Some(m.MapRouteId(sel.routeId.value)) else None,
      None, None,
      sel.directionId,
      None)
  }

  /** `base` once per stop id, in the given order. */
  function PerStop(base: EntitySelector, stopIds: seq<string>): seq<EntitySelector>
  {
    seq(|stopIds|, i requires 0 <= i < |stopIds| => base.(stopId := Some(stopIds[i])))
  }

  /**
   * What one input selector becomes: one selector per stop of its expanded
   * stop id, taken in the order `order`, or the base selector alone.
   */
  function Expand(m: DeVVSGtfsIdMapper, sel: EntitySelector, order: seq<string>): seq<EntitySelector>
    reads m
    requires RouteMappable(m, sel)
  {
    if sel.stopId.Some? then PerStop(BaseSelector(m, sel), order) else [BaseSelector(m, sel)]
  }

  /**
   * The outputs of all selectors, in input order; `orders[i]` is the order in
   * which the stop set of selector i was iterated.
   */
  function Expansion(m: DeVVSGtfsIdMapper, sels: seq<EntitySelector>, orders: seq<seq<string>>): seq<EntitySelector>
    reads m
    requires |orders| == |sels| && AllRoutesMappable(m, sels)
    decreases |sels|
  {
    if sels == [] then []
    else
      var n := |sels| - 1;
      Expansion(m, sels[..n], orders[..n]) + Expand(m, sels[n], orders[n])
  }

  /** `order` lists every element of `s` exactly once: one possible iteration order of the set. */
  ghost predicate Enumerates(order: seq<string>, s: set<string>)
  {
    |order| == |s| && forall x :: x in order <==> x in s
  }

  /** Each selector with a stop id is iterated over exactly its expanded stop set. */
  ghost predicate OrdersFit(m: DeVVSGtfsIdMapper, sels: seq<EntitySelector>, orders: seq<seq<string>>)
    reads m
    requires m.Valid()
  {
    |orders| == |sels| &&
    forall i :: 0 <= i < |sels| && sels[i].stopId.Some? ==> Enumerates(orders[i], m.MapStopId(sels[i].stopId.value))
  }

  /** How many selectors the expansion yields: the size of each stop set, or one. */
  ghost function OutputCount(m: DeVVSGtfsIdMapper, sels: seq<EntitySelector>): nat
    reads m
    requires m.Valid()
    decreases |sels|
  {
    if sels == [] then 0
    else
      var n := |sels| - 1;
      OutputCount(m, sels[..n]) + (if sels[n].stopId.Some? then |m.MapStopId(sels[n].stopId.value)| else 1)
  }

  /** Expanding two runs of selectors one after the other keeps their outputs in that order. */
  lemma {:induction false} ExpansionAppend(m: DeVVSGtfsIdMapper, a: seq<EntitySelector>, b: seq<EntitySelector>,
                                           oa: seq<seq<string>>, ob: seq<seq<string>>)
    requires |oa| == |a| && |ob| == |b| && AllRoutesMappable(m, a) && AllRoutesMappable(m, b)
    ensures AllRoutesMappable(m, a + b)
    ensures Expansion(m, a + b, oa + ob) == Expansion(m, a, oa) + Expansion(m, b, ob)
    decreases |b|
  {
    assert forall i :: 0 <= i < |a + b| ==> (a + b)[i] == if i < |a| then a[i] else b[i - |a|];
    if b == [] {
      assert a + b == a && oa + ob == oa;
    } else {
      var n := |b| - 1;
      assert (a + b)[..|a| + n] == a + b[..n];
      assert (oa + ob)[..|a| + n] == oa + ob[..n];
      ExpansionAppend(m, a, b[..n], oa, ob[..n]);
    }
  }

  /**
   * Which selectors come out does not depend on the iteration orders: a
   * selector is produced exactly when it is the base selector of an input
   * without stop id, or the base selector of an input with stop id set to
   * one of that input's expanded stops.
   */
  lemma {:induction false} ExpansionMembers(m: DeVVSGtfsIdMapper, sels: seq<EntitySelector>, orders: seq<seq<string>>, x: EntitySelector)
    requires m.Valid() && AllRoutesMappable(m, sels) && OrdersFit(m, sels, orders)
    ensures x in Expansion(m, sels, orders) <==>
      exists i :: 0 <= i < |sels| &&
        if sels[i].stopId.Some? then
          x.stopId.Some? && x.stopId.value in m.MapStopId(sels[i].stopId.value) &&
          x == BaseSelector(m, sels[i]).(stopId := x.stopId)
        else x == BaseSelector(m, sels[i])
    decreases |sels|
  {
    if sels != [] {
      var n := |sels| - 1;
      var init, last := sels[..n], sels[n];
      assert forall i :: 0 <= i < n ==> init[i] == sels[i];
      ExpansionMembers(m, init, orders[..n], x);
      var tail := Expand(m, last, orders[n]);
      if last.stopId.Some? {
        var order := orders[n];
        assert Enumerates(order, m.MapStopId(last.stopId.value));
        if x in tail {
          var k :| 0 <= k < |order| && tail[k] == x;
          assert order[k] in order;
        }
        if x.stopId.Some? && x.stopId.value in m.MapStopId(last.stopId.value) &&
           x == BaseSelector(m, last).(stopId := x.stopId) {
          var k :| 0 <= k < |order| && order[k] == x.stopId.value;
          assert tail[k] == x;
        }
      }
    }
  }

  /** The expansion yields one selector per stop for each stop selector and one for each other selector. */
  lemma {:induction false} ExpansionLength(m: DeVVSGtfsIdMapper, sels: seq<EntitySelector>, orders: seq<seq<string>>)
    requires m.Valid() && AllRoutesMappable(m, sels) && OrdersFit(m, sels, orders)
    ensures |Expansion(m, sels, orders)| == OutputCount(m, sels)
    decreases |sels|
  {
    if sels != [] {
      var n := |sels| - 1;
      assert forall i :: 0 <= i < n ==> sels[..n][i] == sels[i];
      ExpansionLength(m, sels[..n], orders[..n]);
    }
  }

  /** Every produced selector lacks route type and trip, the fields the expansion never copies. */
  lemma {:induction false} ExpansionDropsTripAndRouteType(m: DeVVSGtfsIdMapper, sels: seq<EntitySelector>, orders: seq<seq<string>>)
    requires |orders| == |sels| && AllRoutesMappable(m, sels)
    ensures forall k :: 0 <= k < |Expansion(m, sels, orders)| ==>
      Expansion(m, sels, orders)[k].routeType.None? && Expansion(m, sels, orders)[k].trip.None?
    decreases |sels|
  {
    if sels != [] {
      var n := |sels| - 1;
      assert forall i :: 0 <= i < n ==> sels[..n][i] == sels[i];
      ExpansionDropsTripAndRouteType(m, sels[..n], orders[..n]);
    }
  }

  /**
   * `__starts_latest_in`: some active period has a start no later than
   * `latestStart`; periods without a start do not count.
   */
  function StartsLatestIn(periods: seq<TimeRange>, latestStart: int): (r: bool)
    ensures r <==> exists i :: 0 <= i < |periods| && periods[i].start.Some? && periods[i].start.value <= latestStart
    decreases |periods|
  {
    if periods == [] then false
    else if periods[0].start.Some? && periods[0].start.value <= latestStart then true
    else
      var r := StartsLatestIn(periods[1..], latestStart);
      assert forall i :: 1 <= i < |periods| ==> periods[i] == periods[1..][i - 1];
      r
  }

  /** A high-priority keyword occurs, case-sensitively, in the stored description. */
  predicate KeywordHit(keywords: seq<string>, description: Option<string>)
  {
    description.Some? && exists k :: 0 <= k < |keywords| && Contains(description.value, keywords[k])
  }

  /** Some informed selector carries a high-priority route id. */
  predicate RouteHit(routeIds: seq<string>, selectors: seq<EntitySelector>)
  {
    exists i :: 0 <= i < |selectors| && selectors[i].routeId.Some? && selectors[i].routeId.value in routeIds
  }

  /**
   * The level `__set_severity_level` leaves: SEVERE when the alert starts no
   * later than `latestStart` and a keyword or a route marks it, WARNING
   * otherwise. `latestStart` is `(datetime.now() + timedelta(weeks=1)).timestamp()`
   * rounded down: the local wall clock moved a week on, so across a daylight
   * saving change it lies an hour more or less than 604800 s ahead.
   */
  function Severity(alert: Alert, latestStart: int, keywords: seq<string>, routeIds: seq<string>): (level: int)
    ensures level == Warning || level == Severe
    ensures level == Severe <==>
      StartsLatestIn(alert.activePeriod, latestStart) &&
      (KeywordHit(keywords, alert.descriptionText) || RouteHit(routeIds, alert.informedEntity))
  {
    if StartsLatestIn(alert.activePeriod, latestStart) &&
       (KeywordHit(keywords, alert.descriptionText) || RouteHit(routeIds, alert.informedEntity))
    then Severe else Warning
  }

  /** An alert whose every start lies after `latestStart`, or which has none, stays at WARNING. */
  lemma SeverityBaselineWhenFar(alert: Alert, latestStart: int, keywords: seq<string>, routeIds: seq<string>)
    requires forall i :: 0 <= i < |alert.activePeriod| && alert.activePeriod[i].start.Some? ==>
      alert.activePeriod[i].start.value > latestStart
    ensures Severity(alert, latestStart, keywords, routeIds) == Warning
  {
  }

  /** More keywords or more priority routes never lower the level. */
  lemma SeverityMonotone(alert: Alert, latestStart: int, k1: seq<string>, k2: seq<string>, r1: seq<string>, r2: seq<string>)
    requires forall k :: 0 <= k < |k1| ==> k1[k] in k2
    requires forall r :: r in r1 ==> r in r2
    ensures Severity(alert, latestStart, k1, r1) <= Severity(alert, latestStart, k2, r2)
  {
    if KeywordHit(k1, alert.descriptionText) {
      var k :| 0 <= k < |k1| && Contains(alert.descriptionText.value, k1[k]);
      var j :| 0 <= j < |k2| && k2[j] == k1[k];
    }
  }

  /** The effect the translator leaves: an explicit, known effect is kept, otherwise it is guessed. */
  function FinalEffect(given: Option<Effect>, header: string, description: string): Effect
  {
    if given.None? || given.value == UnknownEffect then MapEffect(header, description) else given.value
  }

  /** The cause the translator leaves: an explicit, known cause is kept, otherwise it is guessed. */
  function FinalCause(given: Option<Cause>, header: string, description: string): Cause
  {
    if given.None? || given.value == UnknownCause then MapCause(header, description) else given.value
  }

  /**
   * `__map_alert` on one feed entity: selectors expanded, the description
   * turned from HTML into text, effect and cause classified on the lower-cased
   * header and text, then the severity set.
   */
  function MapAlertSpec(m: DeVVSGtfsIdMapper, keywords: seq<string>, routeIds: seq<string>,
                        entity: FeedEntity, latestStart: int, htmlToText: string -> string, orders: seq<seq<string>>): FeedEntity
    reads m
    requires |orders| == |entity.alert.informedEntity| && AllRoutesMappable(m, entity.alert.informedEntity)
  {
    var a := entity.alert;
    var header := if a.headerText.Some? then Lower(a.headerText.value) else "";
    var description := if a.descriptionText.Some? then htmlToText(a.descriptionText.value) else "";
    var classified := a.(
      informedEntity := Expansion(m, a.informedEntity, orders),
      descriptionText := if a.descriptionText.Some? then Some(description) else None,
      effect := Some(FinalEffect(a.effect, header, Lower(description))),
      cause := Some(FinalCause(a.cause, header, Lower(description))));
    entity.(alert := classified.(severityLevel := Some(Severity(classified, latestStart, keywords, routeIds))))
  }

  /** An effect that is present and not UNKNOWN_EFFECT, and likewise a cause, survives translation. */
  lemma ExplicitClassificationKept(m: DeVVSGtfsIdMapper, keywords: seq<string>, routeIds: seq<string>,
                                   entity: FeedEntity, latestStart: int, htmlToText: string -> string, orders: seq<seq<string>>)
    requires |orders| == |entity.alert.informedEntity| && AllRoutesMappable(m, entity.alert.informedEntity)
    ensures var r := MapAlertSpec(m, keywords, routeIds, entity, latestStart, htmlToText, orders);
      (entity.alert.effect.Some? && entity.alert.effect.value != UnknownEffect ==> r.alert.effect == entity.alert.effect) &&
      (entity.alert.cause.Some? && entity.alert.cause.value != UnknownCause ==> r.alert.cause == entity.alert.cause)
  {
  }

  /**
   * A missing or UNKNOWN effect is replaced by the first-match rule over the
   * lower-cased header and plain-text description; likewise the cause.
   */
  lemma MissingClassificationGuessed(m: DeVVSGtfsIdMapper, keywords: seq<string>, routeIds: seq<string>,
                                     entity: FeedEntity, latestStart: int, htmlToText: string -> string, orders: seq<seq<string>>)
    requires |orders| == |entity.alert.informedEntity| && AllRoutesMappable(m, entity.alert.informedEntity)
    ensures var r := MapAlertSpec(m, keywords, routeIds, entity, latestStart, htmlToText, orders);
      var a := entity.alert;
      var header := if a.headerText.Some? then Lower(a.headerText.value) else "";
      var description := if a.descriptionText.Some? then Lower(htmlToText(a.descriptionText.value)) else "";
      (a.effect.None? || a.effect == Some(UnknownEffect) ==>
         r.alert.effect == Some(FirstMatch(EffectRules(), header, description, UnknownEffect))) &&
      (a.cause.None? || a.cause == Some(UnknownCause) ==>
         r.alert.cause == Some(FirstMatch(CauseRules(), header, description, UnknownCause)))
  {
    var a := entity.alert;
    var header := if a.headerText.Some? then Lower(a.headerText.value) else "";
    var description := if a.descriptionText.Some? then htmlToText(a.descriptionText.value) else "";
    assert Lower("") == "";
    MapEffectIsFirstMatch(header, Lower(description));
    MapCauseIsFirstMatch(header, Lower(description));
  }

  /**
   * The translator keeps the id, the active periods and the header, keeps the
   * description present exactly when it was, and always leaves an effect, a
   * cause and a WARNING or SEVERE level.
   */
  lemma MapAlertShape(m: DeVVSGtfsIdMapper, keywords: seq<string>, routeIds: seq<string>,
                      entity: FeedEntity, latestStart: int, htmlToText: string -> string, orders: seq<seq<string>>)
    requires |orders| == |entity.alert.informedEntity| && AllRoutesMappable(m, entity.alert.informedEntity)
    ensures var r := MapAlertSpec(m, keywords, routeIds, entity, latestStart, htmlToText, orders);
      r.id == entity.id && r.alert.activePeriod == entity.alert.activePeriod &&
      r.alert.headerText == entity.alert.headerText &&
      r.alert.descriptionText.Some? == entity.alert.descriptionText.Some? &&
      r.alert.effect.Some? && r.alert.cause.Some? &&
      r.alert.severityLevel.Some? && r.alert.severityLevel.value in {Warning, Severe}
  {
  }

  predicate FeedMappable(m: DeVVSGtfsIdMapper, entities: seq<FeedEntity>)
    reads m
  {
    forall i :: 0 <= i < |entities| ==> AllRoutesMappable(m, entities[i].alert.informedEntity)
  }

  ghost predicate AllOrdersFit(m: DeVVSGtfsIdMapper, entities: seq<FeedEntity>, orders: seq<seq<seq<string>>>)
    reads m
    requires m.Valid()
  {
    |orders| == |entities| &&
    forall i :: 0 <= i < |entities| ==> OrdersFit(m, entities[i].alert.informedEntity, orders[i])
  }

  /** The entities of the translated feed: each input entity mapped by `__map_alert`, in feed order. */
  function MapAlerts(m: DeVVSGtfsIdMapper, keywords: seq<string>, routeIds: seq<string>, entities: seq<FeedEntity>,
                     latestStart: int, htmlToText: string -> string, orders: seq<seq<seq<string>>>): (r: seq<FeedEntity>)
    reads m
    requires |orders| == |entities| && FeedMappable(m, entities)
    requires forall i :: 0 <= i < |entities| ==> |orders[i]| == |entities[i].alert.informedEntity|
    ensures |r| == |entities|
    decreases |entities|
  {
    if entities == [] then []
    else
      var n := |entities| - 1;
      MapAlerts(m, keywords, routeIds, entities[..n], latestStart, htmlToText, orders[..n]) +
      [MapAlertSpec(m, keywords, routeIds, entities[n], latestStart, htmlToText, orders[n])]
  }

  /** Entity `i` of the translated feed is entity `i` of the input, mapped with its own iteration orders. */
  lemma {:induction false} MapAlertsPointwise(m: DeVVSGtfsIdMapper, keywords: seq<string>, routeIds: seq<string>, entities: seq<FeedEntity>,
                                              latestStart: int, htmlToText: string -> string, orders: seq<seq<seq<string>>>, i: nat)
    requires |orders| == |entities| && FeedMappable(m, entities)
    requires forall i :: 0 <= i < |entities| ==> |orders[i]| == |entities[i].alert.informedEntity|
    requires i < |entities|
    ensures MapAlerts(m, keywords, routeIds, entities, latestStart, htmlToText, orders)[i] ==
            MapAlertSpec(m, keywords, routeIds, entities[i], latestStart, htmlToText, orders[i])
    decreases |entities|
  {
    var n := |entities| - 1;
    if i < n {
      assert forall j :: 0 <= j < n ==> entities[..n][j] == entities[j] && orders[..n][j] == orders[j];
      MapAlertsPointwise(m, keywords, routeIds, entities[..n], latestStart, htmlToText, orders[..n], i);
    }
  }

  /** `__init__` and the per-alert steps, sharing one mapper and the two priority lists. */
  class DeVVSAlertGtfsRealtimeTranslator {
    const idMapper: DeVVSGtfsIdMapper
    const highPrioKeywords: seq<string>
    const highPrioRouteIds: seq<string>

    constructor (stops: seq<StopRow>, routes: seq<RouteRow>, keywords: seq<string>, routeIds: seq<string>)
      ensures fresh(idMapper) && idMapper.Valid() && idMapper.stopRows == stops && idMapper.routeRows == routes
      ensures highPrioKeywords == keywords && highPrioRouteIds == routeIds
    {
      idMapper := new DeVVSGtfsIdMapper(stops, routes);
      highPrioKeywords := keywords;
      highPrioRouteIds := routeIds;
    }

    /**
     * The body of `__map_informed_entities`' loop for one selector: rebuilt
     * from its agency, mapped route and direction; with a stop id, one copy
     * per stop of `map_stop_id`, in the order the set is iterated (`order`).
     */
    method MapInformedEntity(entity: EntitySelector) returns (outputs: seq<EntitySelector>, ghost order: seq<string>)
      requires idMapper.Valid() && RouteMappable(idMapper, entity)
      ensures entity.stopId.Some? ==> Enumerates(order, idMapper.MapStopId(entity.stopId.value))
      ensures outputs == Expand(idMapper, entity, order)
    {
      var newEntity := EntitySelector(None, None, None, None, None, None);
      if entity.agencyId.Some? {
        newEntity := newEntity.(agencyId := entity.agencyId);
      }
      if entity.routeId.Some? {
        newEntity := newEntity.(routeId := Some(idMapper.MapRouteId(entity.routeId.value)));
      }
      if entity.directionId.Some? {
        newEntity := newEntity.(directionId := entity.directionId);
      }
      assert newEntity == BaseSelector(idMapper, entity);
      order := [];
      if entity.stopId.Some? {
        outputs := [];
        var remaining := idMapper.MapStopId(entity.stopId.value);
        ghost var all := remaining;
        while remaining != {}
          invariant remaining <= all && |order| + |remaining| == |all|
          invariant forall x :: x in order ==> x in all && x !in remaining
          invariant forall x :: x in all && x !in remaining ==> x in order
          invariant outputs == PerStop(newEntity, order)
          decreases |remaining|
        {
          var stopId :| stopId in remaining;
          var perStopEntity := newEntity.(stopId := Some(stopId));
          outputs := outputs + [perStopEntity];
          order := order + [stopId];
          remaining := remaining - {stopId};
        }
      } else {
        outputs := [newEntity];
      }
    }

    /**
     * `__map_informed_entities`: the selectors' outputs appended in input
     * order; `orders` records how each stop set was iterated.
     */
    method MapInformedEntities(informed: seq<EntitySelector>) returns (mapped: seq<EntitySelector>, ghost orders: seq<seq<string>>)
      requires idMapper.Valid() && AllRoutesMappable(idMapper, informed)
      ensures OrdersFit(idMapper, informed, orders)
      ensures mapped == Expansion(idMapper, informed, orders)
    {
      mapped := [];
      orders := [];
      for i := 0 to |informed|
        invariant OrdersFit(idMapper, informed[..i], orders)
        invariant mapped == Expansion(idMapper, informed[..i], orders)
      {
        var outputs, order := MapInformedEntity(informed[i]);
        mapped := mapped + outputs;
        assert informed[..i + 1][..i] == informed[..i];
        assert (orders + [order])[..i] == orders;
        orders := orders + [order];
      }
      assert informed[..|informed|] == informed;
    }

    /**
     * `__set_severity_level`: WARNING first; then, when the alert starts
     * within a week, SEVERE for every keyword found in the description and
     * for every selector on a priority route.
     */
    method SetSeverityLevel(entity: FeedEntity, latestStart: int) returns (r: FeedEntity)
      ensures r == entity.(alert := entity.alert.(severityLevel := Some(Severity(entity.alert, latestStart, highPrioKeywords, highPrioRouteIds))))
    {
      var alert := entity.alert.(severityLevel := Some(Warning));
      if StartsLatestIn(alert.activePeriod, latestStart) {
        if alert.descriptionText.Some? {
          var description := alert.descriptionText.value;
          for k := 0 to |highPrioKeywords|
            invariant alert == entity.alert.(severityLevel := alert.severityLevel)
            invariant alert.severityLevel ==
              Some(if exists j :: 0 <= j < k && Contains(description, highPrioKeywords[j]) then Severe else Warning)
          {
            if Contains(description, highPrioKeywords[k]) {
              alert := alert.(severityLevel := Some(Severe));
            }
          }
        }
        ghost var keywordLevel := alert.severityLevel;
        for i := 0 to |alert.informedEntity|
          invariant alert == entity.alert.(severityLevel := alert.severityLevel)
          invariant alert.severityLevel ==
            if RouteHit(highPrioRouteIds, alert.informedEntity[..i]) then Some(Severe) else keywordLevel
        {
          var informedEntity := alert.informedEntity[i];
          assert alert.informedEntity[..i + 1][..i] == alert.informedEntity[..i];
          assert alert.informedEntity[..i + 1][i] == informedEntity;
          if informedEntity.routeId.Some? && informedEntity.routeId.value in highPrioRouteIds {
            alert := alert.(severityLevel := Some(Severe));
          }
        }
        assert alert.informedEntity[..|alert.informedEntity|] == alert.informedEntity;
      }
      r := entity.(alert := alert);
    }

    /**
     * `__map_alert`: selectors expanded, the description's HTML turned into
     * text by `htmlToText`, an absent or unknown effect or cause guessed from
     * the lower-cased header and text, then the severity set.
     */
    method MapAlert(entity: FeedEntity, latestStart: int, htmlToText: string -> string) returns (r: FeedEntity, ghost orders: seq<seq<string>>)
      requires idMapper.Valid() && AllRoutesMappable(idMapper, entity.alert.informedEntity)
      ensures OrdersFit(idMapper, entity.alert.informedEntity, orders)
      ensures r == MapAlertSpec(idMapper, highPrioKeywords, highPrioRouteIds, entity, latestStart, htmlToText, orders)
    {
      var informedEntity;
      informedEntity, orders := MapInformedEntities(entity.alert.informedEntity);
      var alert := entity.alert.(informedEntity := informedEntity);
      var header := if entity.alert.headerText.Some? then Lower(entity.alert.headerText.value) else "";
      var description := "";
      if entity.alert.descriptionText.Some? {
        description := htmlToText(entity.alert.descriptionText.value);
        alert := alert.(descriptionText := Some(description));
      }
      if alert.effect.None? || alert.effect.value == UnknownEffect {
        alert := alert.(effect := Some(MapEffect(header, Lower(description))));
      }
      if alert.cause.None? || alert.cause.value == UnknownCause {
        alert := alert.(cause := Some(MapCause(header, Lower(description))));
      }
      r := SetSeverityLevel(FeedEntity(entity.id, alert), latestStart);
    }

    /**
     * `__call__`: every entity of the feed mapped in order; the new feed keeps
     * the incoming header's incrementality and timestamp.
     */
    method Translate(feed: FeedMessage, latestStart: int, htmlToText: string -> string)
      returns (message: FeedMessage, ghost orders: seq<seq<seq<string>>>)
      requires idMapper.Valid() && FeedMappable(idMapper, feed.entity)
      ensures AllOrdersFit(idMapper, feed.entity, orders)
      ensures message == FeedMessage(feed.header, MapAlerts(idMapper, highPrioKeywords, highPrioRouteIds, feed.entity, latestStart, htmlToText, orders))
    {
      var entities: seq<FeedEntity> := [];
      orders := [];
      for i := 0 to |feed.entity|
        invariant AllOrdersFit(idMapper, feed.entity[..i], orders)
        invariant entities == MapAlerts(idMapper, highPrioKeywords, highPrioRouteIds, feed.entity[..i], latestStart, htmlToText, orders)
      {
        var mappedEntity, order := MapAlert(feed.entity[i], latestStart, htmlToText);
        assert feed.entity[..i + 1][..i] == feed.entity[..i];
        assert (orders + [order])[..i] == orders;
        entities := entities + [mappedEntity];
        orders := orders + [order];
      }
      assert feed.entity[..|feed.entity|] == feed.entity;
      message := FeedMessage(feed.header, entities);
    }
  }
}
