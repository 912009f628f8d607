/**
 * Inference of an alert's effect and cause from its (lower-cased) header and
 * description: ordered first-match keyword rules, as `__map_effect` and
 * `__map_cause` write them, beside the same rules written as data tables.
 */
module Classify {
  import opened Text

  /** GTFS-realtime Alert.Effect. */
  datatype Effect =
    | NoService | ReducedService | SignificantDelays | Detour | AdditionalService
    | ModifiedService | OtherEffect | UnknownEffect | StopMoved | NoEffect | AccessibilityIssue

  /** GTFS-realtime Alert.Cause. */
  datatype Cause =
    | UnknownCause | OtherCause | TechnicalProblem | Strike | Demonstration | Accident
    | Holiday | Weather | Maintenance | Construction | PoliceActivity | MedicalEmergency

  /**
   * `__header_or_desc_contains_any`: some word occurs in the header or in the
   * description.
   */
  function HeaderOrDescContainsAny(header: string, desc: string, substrings: seq<string>): (r: bool)
    ensures r <==> exists i :: 0 <= i < |substrings| && (Contains(header, substrings[i]) || Contains(desc, substrings[i]))
  {
    ContainsAny(header, substrings) || ContainsAny(desc, substrings)
  }

  /** `__map_effect`: the first rule whose keywords occur decides; header and description are lower case. */
  function MapEffect(header: string, description: string): (e: Effect)
    ensures e != ReducedService && e != SignificantDelays && e != Detour && e != OtherEffect
  {
    if ContainsAny(header, ["verleg", "bahnen halten"]) || ContainsAny(description, ["ersatzhalt"]) then StopMoved
    else if ContainsAny(header, ["nicht angefahren", "entfall", "entfällt", "gesperrt", "ausfall"]) then NoService
    else if Contains(header, "kein barrierefrei") || (Contains(header, "aufzug") && Contains(header, "betrieb")) then AccessibilityIssue
    else if ContainsAny(header, ["fahrplanänderung", "umleitung", "verlängerung"]) then ModifiedService
    else if ContainsAny(header, ["sportveranstaltung", "konzert", "neue haltestelle"]) then AdditionalService
    else if Contains(header, "regulär") then NoEffect
    else UnknownEffect
  }

  /** `__map_cause`: the first rule whose keywords occur in header or description decides. */
  function MapCause(header: string, description: string): (c: Cause)
    ensures c in {UnknownCause, Construction, OtherCause, Weather, Accident}
  {
    if HeaderOrDescContainsAny(header, description, ["bauarbeiten", "baustelle"]) then Construction
    else if HeaderOrDescContainsAny(header, description, ["konzert", "veranstaltung"]) then OtherCause
    else if HeaderOrDescContainsAny(header, description, ["erdrutsch", "hangrutsch", "unwetter"]) then Weather
    else if HeaderOrDescContainsAny(header, description, ["unfall"]) then Accident
    else UnknownCause
  }

  /** Which text a keyword clause reads. */
  datatype Field = Header | Description

  /** A clause holds when every one of its words occurs in its field. */
  datatype Clause = Clause(field: Field, words: seq<string>)

  /** A rule fires when any of its clauses holds, and then yields its result. */
  datatype Rule<T> = Rule(clauses: seq<Clause>, result: T)

  function FieldText(field: Field, header: string, description: string): string
  {
    if field == Header then header else description
  }

  predicate ClauseHolds(clause: Clause, header: string, description: string)
  {
    forall i :: 0 <= i < |clause.words| ==> Contains(FieldText(clause.field, header, description), clause.words[i])
  }

  predicate Fires<T>(rule: Rule<T>, header: string, description: string)
  {
    exists i :: 0 <= i < |rule.clauses| && ClauseHolds(rule.clauses[i], header, description)
  }

  /** The result of the first rule that fires, or `fallback` when none does. */
  function FirstMatch<T>(rules: seq<Rule<T>>, header: string, description: string, fallback: T): (r: T)
    ensures (forall i :: 0 <= i < |rules| ==> !Fires(rules[i], header, description)) ==> r == fallback
    ensures forall i :: (0 <= i < |rules| && Fires(rules[i], header, description) &&
                         (forall j :: 0 <= j < i ==> !Fires(rules[j], header, description))) ==> r == rules[i].result
  {
    if rules == [] then fallback
    else if Fires(rules[0], header, description) then rules[0].result
    else
      var r := FirstMatch(rules[1..], header, description, fallback);
      assert forall i :: 1 <= i < |rules| ==> rules[i] == rules[1..][i - 1];
      r
  }

  /** A clause per word, each on one field: "any of these words in this field". */
  function AnyOf(field: Field, words: seq<string>): (clauses: seq<Clause>)
    ensures |clauses| == |words|
    ensures forall i :: 0 <= i < |words| ==> clauses[i] == Clause(field, [words[i]])
  {
    if words == [] then [] else [Clause(field, [words[0]])] + AnyOf(field, words[1..])
  }

  /** The effect rules in the order `__map_effect` tries them. */
  function EffectRules(): seq<Rule<Effect>>
  {
    [ Rule(AnyOf(Header, ["verleg", "bahnen halten"]) + AnyOf(Description, ["ersatzhalt"]), StopMoved),
      Rule(AnyOf(Header, ["nicht angefahren", "entfall", "entfällt", "gesperrt", "ausfall"]), NoService),
      Rule([Clause(Header, ["kein barrierefrei"]), Clause(Header, ["aufzug", "betrieb"])], AccessibilityIssue),
      Rule(AnyOf(Header, ["fahrplanänderung", "umleitung", "verlängerung"]), ModifiedService),
      Rule(AnyOf(Header, ["sportveranstaltung", "konzert", "neue haltestelle"]), AdditionalService),
      Rule([Clause(Header, ["regulär"])], NoEffect) ]
  }

  /** The cause rules in the order `__map_cause` tries them; each reads header and description. */
  function CauseRules(): seq<Rule<Cause>>
  {
    [ Rule(AnyOf(Header, ["bauarbeiten", "baustelle"]) + AnyOf(Description, ["bauarbeiten", "baustelle"]), Construction),
      Rule(AnyOf(Header, ["konzert", "veranstaltung"]) + AnyOf(Description, ["konzert", "veranstaltung"]), OtherCause),
      Rule(AnyOf(Header, ["erdrutsch", "hangrutsch", "unwetter"]) + AnyOf(Description, ["erdrutsch", "hangrutsch", "unwetter"]), Weather),
      Rule(AnyOf(Header, ["unfall"]) + AnyOf(Description, ["unfall"]), Accident) ]
  }

  /** A one-word clause holds when its word occurs in its field. */
  lemma OneWordClause(field: Field, word: string, header: string, description: string)
    ensures ClauseHolds(Clause(field, [word]), header, description) <==> Contains(FieldText(field, header, description), word)
  {
    assert [word][0] == word;
  }

  /** A run of one-word clauses on a field holds somewhere exactly when one of the words occurs there. */
  lemma AnyOfHolds(field: Field, words: seq<string>, header: string, description: string)
    ensures (exists i :: 0 <= i < |AnyOf(field, words)| && ClauseHolds(AnyOf(field, words)[i], header, description))
            <==> ContainsAny(FieldText(field, header, description), words)
  {
    var clauses := AnyOf(field, words);
    var text := FieldText(field, header, description);
    forall i | 0 <= i < |words|
      ensures ClauseHolds(clauses[i], header, description) <==> Contains(text, words[i])
    {
      OneWordClause(field, words[i], header, description);
    }
  }

  /** Some clause of `c1 + c2` holds exactly when one of `c1` or one of `c2` does. */
  lemma SomeClauseOfConcat(c1: seq<Clause>, c2: seq<Clause>, header: string, description: string)
    ensures (exists i :: 0 <= i < |c1 + c2| && ClauseHolds((c1 + c2)[i], header, description)) <==>
            (exists i :: 0 <= i < |c1| && ClauseHolds(c1[i], header, description)) ||
            (exists i :: 0 <= i < |c2| && ClauseHolds(c2[i], header, description))
  {
    var cs := c1 + c2;
    if i :| 0 <= i < |cs| && ClauseHolds(cs[i], header, description) {
      if i < |c1| {
        assert cs[i] == c1[i];
      } else {
        assert cs[i] == c2[i - |c1|];
      }
    }
    if i :| 0 <= i < |c1| && ClauseHolds(c1[i], header, description) {
      assert cs[i] == c1[i];
    }
    if i :| 0 <= i < |c2| && ClauseHolds(c2[i], header, description) {
      assert cs[|c1| + i] == c2[i];
    }
  }

  /** A rule made of two runs of one-word clauses fires when a word of either run occurs in its field. */
  lemma FiresTwoRuns<T>(f1: Field, w1: seq<string>, f2: Field, w2: seq<string>, result: T, header: string, description: string)
    ensures Fires(Rule(AnyOf(f1, w1) + AnyOf(f2, w2), result), header, description) <==>
            ContainsAny(FieldText(f1, header, description), w1) || ContainsAny(FieldText(f2, header, description), w2)
  {
    SomeClauseOfConcat(AnyOf(f1, w1), AnyOf(f2, w2), header, description);
    AnyOfHolds(f1, w1, header, description);
    AnyOfHolds(f2, w2, header, description);
  }

  /** A rule made of one run of one-word clauses fires when one of its words occurs in its field. */
  lemma FiresOneRun<T>(f: Field, w: seq<string>, result: T, header: string, description: string)
    ensures Fires(Rule(AnyOf(f, w), result), header, description) <==> ContainsAny(FieldText(f, header, description), w)
  {
    AnyOfHolds(f, w, header, description);
  }

  /** The first four effect rules fire exactly on the conditions `__map_effect` tests. */
  lemma EffectRulesFire(header: string, description: string)
    ensures var rules := EffectRules();
      (Fires(rules[0], header, description) <==>
         ContainsAny(header, ["verleg", "bahnen halten"]) || ContainsAny(description, ["ersatzhalt"])) &&
      (Fires(rules[1], header, description) <==>
         ContainsAny(header, ["nicht angefahren", "entfall", "entfällt", "gesperrt", "ausfall"])) &&
      (Fires(rules[3], header, description) <==> ContainsAny(header, ["fahrplanänderung", "umleitung", "verlängerung"])) &&
      (Fires(rules[4], header, description) <==> ContainsAny(header, ["sportveranstaltung", "konzert", "neue haltestelle"]))
  {
    FiresTwoRuns(Header, ["verleg", "bahnen halten"], Description, ["ersatzhalt"], StopMoved, header, description);
    FiresOneRun(Header, ["nicht angefahren", "entfall", "entfällt", "gesperrt", "ausfall"], NoService, header, description);
    FiresOneRun(Header, ["fahrplanänderung", "umleitung", "verlängerung"], ModifiedService, header, description);
    FiresOneRun(Header, ["sportveranstaltung", "konzert", "neue haltestelle"], AdditionalService, header, description);
  }

  /** A rule of two clauses fires when either holds. */
  lemma FiresTwoClauses<T>(c0: Clause, c1: Clause, result: T, header: string, description: string)
    ensures Fires(Rule([c0, c1], result), header, description) <==>
            ClauseHolds(c0, header, description) || ClauseHolds(c1, header, description)
  {
    assert [c0, c1][0] == c0 && [c0, c1][1] == c1;
  }

  /** The accessibility rule and the regular-service rule fire exactly on the conditions `__map_effect` tests. */
  lemma EffectRulesFireTail(header: string, description: string)
    ensures var rules := EffectRules();
      (Fires(rules[2], header, description) <==>
         Contains(header, "kein barrierefrei") || (Contains(header, "aufzug") && Contains(header, "betrieb"))) &&
      (Fires(rules[5], header, description) <==> Contains(header, "regulär"))
  {
    var rules := EffectRules();
    var single := Clause(Header, ["kein barrierefrei"]);
    var both := Clause(Header, ["aufzug", "betrieb"]);
    OneWordClause(Header, "kein barrierefrei", header, description);
    OneWordClause(Header, "regulär", header, description);
    assert ClauseHolds(both, header, description) <==> Contains(header, "aufzug") && Contains(header, "betrieb") by {
      assert both.words[0] == "aufzug" && both.words[1] == "betrieb";
    }
    FiresTwoClauses(single, both, AccessibilityIssue, header, description);
    assert rules[2] == Rule([single, both], AccessibilityIssue);
    var regular := Clause(Header, ["regulär"]);
    assert rules[5] == Rule([regular], NoEffect);
    assert [regular][0] == regular;
  }

  /** FirstMatch over six rules, written out as the if-chain it amounts to. */
  lemma FirstMatchSix<T>(rules: seq<Rule<T>>, header: string, description: string, fallback: T)
    requires |rules| == 6
    ensures FirstMatch(rules, header, description, fallback) ==
      if Fires(rules[0], header, description) then rules[0].result
      else if Fires(rules[1], header, description) then rules[1].result
      else if Fires(rules[2], header, description) then rules[2].result
      else if Fires(rules[3], header, description) then rules[3].result
      else if Fires(rules[4], header, description) then rules[4].result
      else if Fires(rules[5], header, description) then rules[5].result
      else fallback
  {
    var k := if Fires(rules[0], header, description) then 0
      else if Fires(rules[1], header, description) then 1
      else if Fires(rules[2], header, description) then 2
      else if Fires(rules[3], header, description) then 3
      else if Fires(rules[4], header, description) then 4
      else if Fires(rules[5], header, description) then 5
      else 6;
    assert forall j :: 0 <= j < k ==> !Fires(rules[j], header, description);
  }

  /** `__map_effect` is the first match over EffectRules, defaulting to UNKNOWN_EFFECT. */
  lemma MapEffectIsFirstMatch(header: string, description: string)
    ensures MapEffect(header, description) == FirstMatch(EffectRules(), header, description, UnknownEffect)
  {
    var rules := EffectRules();
    EffectRulesFire(header, description);
    EffectRulesFireTail(header, description);
    FirstMatchSix(rules, header, description, UnknownEffect);
  }

  /** `__map_cause` is the first match over CauseRules, defaulting to UNKNOWN_CAUSE. */
  lemma MapCauseIsFirstMatch(header: string, description: string)
    ensures MapCause(header, description) == FirstMatch(CauseRules(), header, description, UnknownCause)
  {
    var rules := CauseRules();
    FiresTwoRuns(Header, ["bauarbeiten", "baustelle"], Description, ["bauarbeiten", "baustelle"], Construction, header, description);
    FiresTwoRuns(Header, ["konzert", "veranstaltung"], Description, ["konzert", "veranstaltung"], OtherCause, header, description);
    FiresTwoRuns(Header, ["erdrutsch", "hangrutsch", "unwetter"], Description, ["erdrutsch", "hangrutsch", "unwetter"], Weather, header, description);
    FiresTwoRuns(Header, ["unfall"], Description, ["unfall"], Accident, header, description);
    var k := if Fires(rules[0], header, description) then 0
      else if Fires(rules[1], header, description) then 1
      else if Fires(rules[2], header, description) then 2
      else if Fires(rules[3], header, description) then 3
      else 4;
    if k < 4 {
      assert forall j :: 0 <= j < k ==> !Fires(rules[j], header, description);
    }
  }

  /** Only the STOP_MOVED rule reads the description: any other effect depends on the header alone. */
  lemma EffectIgnoresDescription(header: string, d1: string, d2: string)
    requires MapEffect(header, d1) != StopMoved && MapEffect(header, d2) != StopMoved
    ensures MapEffect(header, d1) == MapEffect(header, d2)
  {
  }

  /** Every cause rule reads header and description alike, so swapping them changes nothing. */
  lemma CauseSymmetric(header: string, description: string)
    ensures MapCause(header, description) == MapCause(description, header)
  {
  }
}
