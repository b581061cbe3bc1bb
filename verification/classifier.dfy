/**
 * Sort mode (`sort_files_by_mapdata`) without the file moves: reading the
 * rules from the mapdata document, separating the `DoNotUse` fallback, and
 * choosing one destination per file by first match.
 */
module Classifier {
  import opened Wrappers
  import opened Json
  import opened Normalize
  import opened Container
  import opened Adapters
  import opened MapData

  const FallbackLabel: Json := JStr("DoNotUse")

  // ---------------------------------------------------------------------------
  // reading the rules

  /** `mapping.get("directory")` and `mapping.get("target", {})`; each entry must be a dict. */
  function ReadMapping(entry: Json): (r: Py<Mapping>)
    ensures r.Ok? <==> entry.JObj?
    ensures entry.JObj? && "directory" in entry.fields ==> r.value.directory == entry.fields["directory"]
    ensures entry.JObj? && "directory" !in entry.fields ==> r.value.directory == JNull
    ensures entry.JObj? && "target" in entry.fields ==> r.value.target == entry.fields["target"]
    ensures entry.JObj? && "target" !in entry.fields ==> r.value.target == EmptyObject
  {
    var directory :- Get(entry, "directory", JNull);
    Ok(Mapping(directory, Get(entry, "target", EmptyObject).value))
  }

  function ReadMappings(entries: seq<Json>): (r: Py<seq<Mapping>>)
    ensures r.Ok? <==> forall i :: 0 <= i < |entries| ==> entries[i].JObj?
    ensures r.Ok? ==>
      && |r.value| == |entries|
      && forall i :: 0 <= i < |entries| ==> ReadMapping(entries[i]) == Ok(r.value[i])
    decreases |entries|
  {
    if |entries| == 0 then Ok([])
    else
      var first :- ReadMapping(entries[0]);
      var rest :- ReadMappings(entries[1..]);
      Ok([first] + rest)
  }

  /**
   * `mapdata.get("mapdata", {}).get("sorted", [])` and the iteration over it.
   * An empty string or object iterates to nothing; any other non-list either
   * cannot be iterated or yields items without `.get`.
   */
  function RulesOf(doc: Json): (r: Py<seq<Mapping>>)
    ensures r.Ok? ==> doc.JObj?
    ensures !doc.JObj? ==> r == Err(AttributeError)
    ensures doc.JObj? && "mapdata" !in doc.fields ==> r == Ok([])
    ensures doc.JObj? && "mapdata" in doc.fields && !doc.fields["mapdata"].JObj? ==> r == Err(AttributeError)
    ensures doc.JObj? && "mapdata" in doc.fields && doc.fields["mapdata"].JObj? ==>
      var section := doc.fields["mapdata"].fields;
      && ("sorted" !in section ==> r == Ok([]))
      && ("sorted" in section && section["sorted"].JArr? ==> r == ReadMappings(section["sorted"].items))
      && ("sorted" in section && (section["sorted"].JStr? || section["sorted"].JObj?) ==>
            r == (if section["sorted"] == JStr("") || section["sorted"] == EmptyObject then Ok([])
                  else Err(AttributeError)))
      && ("sorted" in section && (section["sorted"].JNull? || section["sorted"].JBool? || section["sorted"].JNum?) ==>
            r == Err(TypeError))
  {
    var section :- Get(doc, "mapdata", EmptyObject);
    var sorted :- Get(section, "sorted", JArr([]));
    match sorted
    case JArr(entries) => ReadMappings(entries)
    case JStr(s) => if s == "" then Ok([]) else Err(AttributeError)
    case JObj(m) => if m == map[] then Ok([]) else Err(AttributeError)
    case _ => Err(TypeError)
  }

  /** The rules written by preparation mode are the rules sort mode reads back. */
  lemma RulesRoundTrip(ms: seq<Mapping>, unsort: Json)
    ensures RulesOf(JObj(map["mapdata" := JObj(map["unsort" := unsort, "sorted" := MappingsJson(ms)])])) == Ok(ms)
  {
    var entries := MappingsJson(ms).items;
    var r := ReadMappings(entries);
    assert r.Ok?;
    assert r.value == ms;
  }

  // ---------------------------------------------------------------------------
  // separating the fallback

  /** The `DoNotUse` entry with no conditions. */
  predicate IsFallback(m: Mapping) {
    m.directory == FallbackLabel && !Truthy(m.target)
  }

  /** The ordinary rules in stored order and the fallback, if any. */
  datatype RuleSet = RuleSet(normals: seq<Mapping>, fallback: Option<Mapping>)

  /**
   * The separating loop: every fallback-shaped entry overwrites the previous
   * one (so the last is kept); all other entries stay ordinary rules, in order.
   */
  function SplitRules(ms: seq<Mapping>): (r: RuleSet)
    ensures forall i :: 0 <= i < |r.normals| ==> !IsFallback(r.normals[i])
    ensures r.fallback.Some? ==> IsFallback(r.fallback.value) && r.fallback.value in ms
    ensures r.fallback.None? <==> forall i :: 0 <= i < |ms| ==> !IsFallback(ms[i])
    ensures |r.normals| <= |ms|
    decreases |ms|
  {
    if |ms| == 0 then RuleSet([], None)
    else
      var prefix := SplitRules(ms[..|ms| - 1]);
      var last := ms[|ms| - 1];
      if IsFallback(last) then RuleSet(prefix.normals, Some(last))
      else RuleSet(prefix.normals + [last], prefix.fallback)
  }

  /** The ordinary rules are exactly the non-fallback entries, in their stored order. */
  lemma {:induction false} SplitKeepsOrder(ms: seq<Mapping>)
    ensures SplitRules(ms).normals == Filter(ms)
    decreases |ms|
  {
    if |ms| > 0 {
      SplitKeepsOrder(ms[..|ms| - 1]);
      FilterSnoc(ms[..|ms| - 1], ms[|ms| - 1]);
      assert ms == ms[..|ms| - 1] + [ms[|ms| - 1]];
    }
  }

  /** The entries that are not fallback-shaped, in order. */
  function Filter(ms: seq<Mapping>): seq<Mapping>
    decreases |ms|
  {
    if |ms| == 0 then []
    else if IsFallback(ms[0]) then Filter(ms[1..])
    else [ms[0]] + Filter(ms[1..])
  }

  lemma {:induction false} FilterSnoc(ms: seq<Mapping>, m: Mapping)
    ensures Filter(ms + [m]) == Filter(ms) + (if IsFallback(m) then [] else [m])
    decreases |ms|
  {
    if |ms| == 0 {
      assert ms + [m] == [m];
      assert [m][1..] == [];
    } else {
      assert (ms + [m])[1..] == ms[1..] + [m];
      FilterSnoc(ms[1..], m);
    }
  }

  /** Whatever the record, a fallback found always points at `DoNotUse`. */
  lemma FallbackIsDoNotUse(ms: seq<Mapping>)
    ensures SplitRules(ms).fallback.Some? ==> SplitRules(ms).fallback.value.directory == FallbackLabel
  {
  }

  // ---------------------------------------------------------------------------
  // matching one rule

  /**
   * One condition against one present file value: `None` fails; a list
   * condition needs the normalised file value among its normalised members;
   * anything else needs normalised equality.
   */
  predicate ValueMatches(expected: Json, actual: Json) {
    && actual != JNull
    && if expected.JArr? then
         exists i :: 0 <= i < |expected.items| && NormalizeForCompare(expected.items[i]) == NormalizeForCompare(actual)
       else NormalizeForCompare(actual) == NormalizeForCompare(expected)
  }

  /**
   * A rule's conditions against a file's `meta` object: at least one condition
   * key must be present, and every present one must match; keys the file
   * lacks are not looked at.
   */
  predicate RuleMatches(conditions: map<string, Json>, meta: map<string, Json>) {
    && (exists k :: k in conditions && k in meta)
    && forall k :: k in conditions && k in meta ==> ValueMatches(conditions[k], meta[k])
  }

  /**
   * The inner loop of `sort_files_by_mapdata` over one rule's conditions: it
   * counts the keys present in `meta` and stops at the first present key that
   * fails.
   */
  method EvaluateRule(conditions: map<string, Json>, meta: map<string, Json>) returns (allMatch: bool)
    ensures allMatch <==> RuleMatches(conditions, meta)
  {
    var remaining := conditions.Keys;
    var evaluatedKeys := 0;
    allMatch := true;
    while remaining != {}
      invariant remaining <= conditions.Keys
      invariant evaluatedKeys > 0 <==> exists k :: k in conditions && k !in remaining && k in meta
      invariant allMatch
      invariant forall k :: k in conditions && k !in remaining && k in meta ==> ValueMatches(conditions[k], meta[k])
      decreases remaining
    {
      var key :| key in remaining;
      remaining := remaining - {key};
      if key in meta {
        evaluatedKeys := evaluatedKeys + 1;
        if !ValueMatches(conditions[key], meta[key]) {
          allMatch := false;
          break;
        }
      }
    }
    if evaluatedKeys == 0 {
      allMatch := false;
    }
  }

  /**
   * What the rule loop does with one ordinary rule for a file whose `meta` is
   * `meta`: `Ok(true)` when its conditions hold. Falsy conditions are skipped;
   * conditions that are not a dict have no `.items()`; a `meta` that is not a
   * dict fails Python's `in` or indexing as soon as a condition key is tested
   * against it and found.
   */
  function RuleOutcome(target: Json, meta: Json): (r: Py<bool>)
    ensures !Truthy(target) ==> r == Ok(false)
    ensures Truthy(target) && target.JObj? && meta.JObj? ==> r == Ok(RuleMatches(target.fields, meta.fields))
    ensures r.Err? ==> Truthy(target) && (!target.JObj? || !meta.JObj?)
    ensures Truthy(target) && !target.JObj? ==> r == Err(AttributeError)
    ensures Truthy(target) && target.JObj? && (meta.JNull? || meta.JBool? || meta.JNum?) ==> r == Err(TypeError)
    ensures Truthy(target) && target.JObj? && (meta.JStr? || meta.JArr?) ==>
      r == (if exists k :: k in target.fields && Contains(meta, k) == Ok(true) then Err(TypeError) else Ok(false))
  {
    if !Truthy(target) then Ok(false)
    else if !target.JObj? then Err(AttributeError)
    else match meta
      case JObj(m) => Ok(RuleMatches(target.fields, m))
      case JStr(_) =>
        if exists k :: k in target.fields && Contains(meta, k) == Ok(true) then Err(TypeError) else Ok(false)
      case JArr(_) =>
        if exists k :: k in target.fields && Contains(meta, k) == Ok(true) then Err(TypeError) else Ok(false)
      case _ => Err(TypeError)
  }

  /** A rule that moves the file: its conditions hold and it names a directory. */
  predicate Fires(m: Mapping, meta: Json) {
    RuleOutcome(m.target, meta) == Ok(true) && Truthy(m.directory)
  }

  /** A rule that neither fails nor moves the file. */
  predicate Passes(m: Mapping, meta: Json) {
    RuleOutcome(m.target, meta).Ok? && !Fires(m, meta)
  }

  // ---------------------------------------------------------------------------
  // choosing the destination

  /** The destination of the fallback, if configured. */
  function FallbackDestination(fallback: Option<Mapping>): Option<Json> {
    if fallback.Some? && Truthy(fallback.value.directory) then Some(fallback.value.directory) else None
  }

  /**
   * The destination of one file: the first ordinary rule that fires, else the
   * fallback, else none.
   */
  function Decide(normals: seq<Mapping>, fallback: Option<Mapping>, meta: Json): (r: Py<Option<Json>>)
    ensures r.Ok? && r.value.Some? ==>
      FirstFiring(normals, meta, r.value.value) || (AllPass(normals, meta) && r.value == FallbackDestination(fallback))
    ensures AllPass(normals, meta) ==> r == Ok(FallbackDestination(fallback))
    ensures r == Ok(None) ==> AllPass(normals, meta) && FallbackDestination(fallback).None?
    decreases |normals|
  {
    if |normals| == 0 then Ok(FallbackDestination(fallback))
    else
      var outcome :- RuleOutcome(normals[0].target, meta);
      if outcome && Truthy(normals[0].directory) then
        assert FirstFiring(normals, meta, normals[0].directory);
        Ok(Some(normals[0].directory))
      else
        var r := Decide(normals[1..], fallback, meta);
        ShiftPassing(normals, meta);
        r
  }

  /** Some rule fires with destination `d`, and every rule before it passes. */
  predicate FirstFiring(normals: seq<Mapping>, meta: Json, d: Json) {
    exists i :: 0 <= i < |normals| && Fires(normals[i], meta) && d == normals[i].directory
                && forall j :: 0 <= j < i ==> Passes(normals[j], meta)
  }

  /** Every rule passes: none fails and none fires. */
  predicate AllPass(normals: seq<Mapping>, meta: Json) {
    forall j :: 0 <= j < |normals| ==> Passes(normals[j], meta)
  }

  /** Behind a passing first rule, the facts about the remaining rules carry over to all rules. */
  lemma ShiftPassing(normals: seq<Mapping>, meta: Json)
    requires |normals| > 0
    ensures Passes(normals[0], meta) ==>
      forall d :: FirstFiring(normals[1..], meta, d) ==> FirstFiring(normals, meta, d)
    ensures AllPass(normals, meta) <==> Passes(normals[0], meta) && AllPass(normals[1..], meta)
  {
    if Passes(normals[0], meta) {
      forall d | FirstFiring(normals[1..], meta, d)
        ensures FirstFiring(normals, meta, d)
      {
        ShiftFirstFiring(normals, meta, d);
      }
      if AllPass(normals[1..], meta) {
        ShiftAllPass(normals, meta);
      }
    }
    if AllPass(normals, meta) {
      UnshiftAllPass(normals, meta);
    }
  }

  lemma ShiftFirstFiring(normals: seq<Mapping>, meta: Json, d: Json)
    requires |normals| > 0 && Passes(normals[0], meta) && FirstFiring(normals[1..], meta, d)
    ensures FirstFiring(normals, meta, d)
  {
    var rest := normals[1..];
    var i :| 0 <= i < |rest| && Fires(rest[i], meta) && d == rest[i].directory
             && forall j :: 0 <= j < i ==> Passes(rest[j], meta);
    AddPassingHead(normals, (m: Mapping) => Fires(m, meta) && d == m.directory, (m: Mapping) => Passes(m, meta), i);
  }

  lemma ShiftAllPass(normals: seq<Mapping>, meta: Json)
    requires |normals| > 0 && Passes(normals[0], meta) && AllPass(normals[1..], meta)
    ensures AllPass(normals, meta)
  {
    var rest := normals[1..];
    forall j | 0 < j < |normals|
      ensures Passes(normals[j], meta)
    {
      assert normals[j] == rest[j - 1];
    }
  }

  lemma UnshiftAllPass(normals: seq<Mapping>, meta: Json)
    requires |normals| > 0 && AllPass(normals, meta)
    ensures AllPass(normals[1..], meta)
  {
    var rest := normals[1..];
    forall j | 0 <= j < |rest|
      ensures Passes(rest[j], meta)
    {
      assert rest[j] == normals[j + 1];
    }
  }

  /** Some rule fails with `e`, and every rule before it passes. */
  predicate FirstFailing(normals: seq<Mapping>, meta: Json, e: PyError) {
    exists i :: 0 <= i < |normals| && RuleOutcome(normals[i].target, meta) == Err(e)
                && forall j :: 0 <= j < i ==> Passes(normals[j], meta)
  }

  lemma ShiftFirstFailing(normals: seq<Mapping>, meta: Json, e: PyError)
    requires |normals| > 0 && Passes(normals[0], meta)
    ensures FirstFailing(normals, meta, e) <==> FirstFailing(normals[1..], meta, e)
  {
    if FirstFailing(normals, meta, e) {
      DropFirstFailing(normals, meta, e);
    }
    if FirstFailing(normals[1..], meta, e) {
      AddFirstFailing(normals, meta, e);
    }
  }

  lemma DropFirstFailing(normals: seq<Mapping>, meta: Json, e: PyError)
    requires |normals| > 0 && Passes(normals[0], meta) && FirstFailing(normals, meta, e)
    ensures FirstFailing(normals[1..], meta, e)
  {
    var i :| 0 <= i < |normals| && RuleOutcome(normals[i].target, meta) == Err(e)
             && forall j :: 0 <= j < i ==> Passes(normals[j], meta);
    assert RuleOutcome(normals[0].target, meta).Ok?;
    DropPassingHead(normals, (m: Mapping) => RuleOutcome(m.target, meta) == Err(e), (m: Mapping) => Passes(m, meta), i);
  }

  lemma AddFirstFailing(normals: seq<Mapping>, meta: Json, e: PyError)
    requires |normals| > 0 && Passes(normals[0], meta) && FirstFailing(normals[1..], meta, e)
    ensures FirstFailing(normals, meta, e)
  {
    var rest := normals[1..];
    var i :| 0 <= i < |rest| && RuleOutcome(rest[i].target, meta) == Err(e)
             && forall j :: 0 <= j < i ==> Passes(rest[j], meta);
    AddPassingHead(normals, (m: Mapping) => RuleOutcome(m.target, meta) == Err(e), (m: Mapping) => Passes(m, meta), i);
  }

  /** An element reached through passing elements of the tail is reached through passing elements of the whole. */
  lemma AddPassingHead<T>(xs: seq<T>, stop: T -> bool, pass: T -> bool, i: nat)
    requires |xs| > 0 && pass(xs[0]) && i < |xs| - 1
    requires stop(xs[1..][i]) && forall j :: 0 <= j < i ==> pass(xs[1..][j])
    ensures stop(xs[i + 1]) && forall j :: 0 <= j < i + 1 ==> pass(xs[j])
  {
    assert xs[i + 1] == xs[1..][i];
    forall j | 0 < j < i + 1
      ensures pass(xs[j])
    {
      assert xs[j] == xs[1..][j - 1];
    }
  }

  /** An element reached through passing elements, other than a head it cannot be, is reached the same way in the tail. */
  lemma DropPassingHead<T>(xs: seq<T>, stop: T -> bool, pass: T -> bool, i: nat)
    requires i < |xs| && stop(xs[i]) && forall j :: 0 <= j < i ==> pass(xs[j])
    requires |xs| > 0 && !stop(xs[0])
    ensures 0 < i && stop(xs[1..][i - 1]) && forall j :: 0 <= j < i - 1 ==> pass(xs[1..][j])
  {
    assert xs[1..][i - 1] == xs[i];
    forall j | 0 <= j < i - 1
      ensures pass(xs[1..][j])
    {
      assert xs[1..][j] == xs[j + 1];
    }
  }

  /**
   * The script fails on a file exactly when, walking the ordinary rules in
   * order, it meets a failing rule before any rule fires; the failure is that
   * rule's.
   */
  lemma {:induction false} DecideFailsAtFirstFailing(normals: seq<Mapping>, fallback: Option<Mapping>, meta: Json)
    ensures Decide(normals, fallback, meta).Err? ==> FirstFailing(normals, meta, Decide(normals, fallback, meta).error)
    ensures forall e :: FirstFailing(normals, meta, e) ==> Decide(normals, fallback, meta) == Err(e)
    decreases |normals|
  {
    if |normals| > 0 {
      var outcome := RuleOutcome(normals[0].target, meta);
      if outcome.Err? {
        assert FirstFailing(normals, meta, outcome.error);
        assert !Passes(normals[0], meta);
      } else if Fires(normals[0], meta) {
        assert !Passes(normals[0], meta);
      } else {
        DecideFailsAtFirstFailing(normals[1..], fallback, meta);
        DecideSkipsPassing(normals, fallback, meta);
        forall e ensures FirstFailing(normals, meta, e) <==> FirstFailing(normals[1..], meta, e) {
          ShiftFirstFailing(normals, meta, e);
        }
      }
    }
  }

  /** A rule that passes hands the decision to the rules after it. */
  lemma DecideSkipsPassing(normals: seq<Mapping>, fallback: Option<Mapping>, meta: Json)
    requires |normals| > 0 && Passes(normals[0], meta)
    ensures Decide(normals, fallback, meta) == Decide(normals[1..], fallback, meta)
  {
  }

  /** The first rule that fires wins: no later rule is considered. */
  lemma {:induction false} FirstMatchWins(normals: seq<Mapping>, fallback: Option<Mapping>, meta: Json, i: nat)
    requires i < |normals| && Fires(normals[i], meta)
    requires AllPass(normals[..i], meta)
    ensures Decide(normals, fallback, meta) == Ok(Some(normals[i].directory))
    decreases i
  {
    if i > 0 {
      var rest := normals[1..];
      assert normals[..i][0] == normals[0];
      UnshiftAllPass(normals[..i], meta);
      assert normals[..i][1..] == rest[..i - 1];
      assert rest[i - 1] == normals[i];
      FirstMatchWins(rest, fallback, meta, i - 1);
      DecideSkipsPassing(normals, fallback, meta);
    }
  }

  /**
   * A rule shadows a later one that asks for more: when the earlier rule's
   * conditions are among the later rule's, the later one fires and the
   * earlier one tests at least one key the file has, the earlier one matches too.
   */
  lemma ShadowedBySubset(a: map<string, Json>, b: map<string, Json>, meta: map<string, Json>)
    requires forall k :: k in a ==> k in b && b[k] == a[k]
    requires RuleMatches(b, meta)
    requires exists k :: k in a && k in meta
    ensures RuleMatches(a, meta)
  {
  }

  /** With two rules in this order, both firing, the first one's destination is chosen. */
  lemma EarlierRuleWins(a: Mapping, b: Mapping, fallback: Option<Mapping>, meta: Json)
    requires Fires(a, meta) && Fires(b, meta)
    ensures Decide([a, b], fallback, meta) == Ok(Some(a.directory))
  {
    FirstMatchWins([a, b], fallback, meta, 0);
  }

  /** A rule none of whose keys the file has never matches, although "all of none" would hold. */
  lemma NoPresentKeyNeverMatches(conditions: map<string, Json>, meta: map<string, Json>)
    requires forall k :: k in conditions ==> k !in meta
    ensures !RuleMatches(conditions, meta)
  {
  }

  /** A rule without conditions never matches. */
  lemma EmptyRuleNeverMatches(directory: Json, meta: Json)
    ensures RuleOutcome(EmptyObject, meta) == Ok(false)
    ensures !Fires(Mapping(directory, EmptyObject), meta)
  {
  }

  /** A condition on a key the file lacks changes nothing. */
  lemma AbsentKeyIgnored(conditions: map<string, Json>, meta: map<string, Json>, k: string, v: Json)
    requires k !in meta
    ensures RuleMatches(conditions[k := v], meta) == RuleMatches(conditions, meta)
  {
    if RuleMatches(conditions, meta) {
      var w :| w in conditions && w in meta;
      assert w in conditions[k := v];
    }
    if RuleMatches(conditions[k := v], meta) {
      var w :| w in conditions[k := v] && w in meta;
      assert w in conditions;
    }
  }

  /** A present key whose value is `null` makes the rule fail. */
  lemma NullValueFails(conditions: map<string, Json>, meta: map<string, Json>, k: string)
    requires k in conditions && k in meta && meta[k] == JNull
    ensures !RuleMatches(conditions, meta)
  {
  }

  /** A list of scalar conditions is the OR of those conditions. */
  lemma ListConditionIsOr(members: seq<Json>, actual: Json)
    requires forall i :: 0 <= i < |members| ==> !members[i].JArr?
    ensures ValueMatches(JArr(members), actual) <==>
      exists i :: 0 <= i < |members| && ValueMatches(members[i], actual)
  {
  }

  /** Case and surrounding whitespace do not matter on either side of a comparison. */
  lemma MatchIgnoresCaseAndPadding(expected: string, actual: string, p: string, q: string)
    requires Text.AllSpace(p) && Text.AllSpace(q)
    requires Text.Lower(expected) == Text.Lower(actual)
    ensures ValueMatches(JStr(expected), JStr(p + actual + q))
  {
    NormalizeIgnoresPadding(p, actual, q);
    NormalizeIgnoresCase(expected, actual);
  }

  /**
   * A first rule asking for one value of one key sends a file whose value
   * differs only in case and padding to its destination, e.g.
   * `{"commercialUsage": "Disallow"}` against a file saying " disallow ".
   */
  lemma SingleConditionRuleChosen(key: string, expected: string, actual: string, p: string, q: string,
                                  directory: Json, rest: seq<Mapping>, fallback: Option<Mapping>,
                                  meta: map<string, Json>)
    requires Text.AllSpace(p) && Text.AllSpace(q)
    requires Text.Lower(expected) == Text.Lower(actual)
    requires key in meta && meta[key] == JStr(p + actual + q)
    requires Truthy(directory)
    ensures Decide([Mapping(directory, JObj(map[key := JStr(expected)]))] + rest, fallback, JObj(meta))
            == Ok(Some(directory))
  {
    MatchIgnoresCaseAndPadding(expected, actual, p, q);
    var t := map[key := JStr(expected)];
    var rule := Mapping(directory, JObj(t));
    assert t.Keys == {key};
    assert Truthy(JObj(t));
    assert ValueMatches(t[key], meta[key]);
    assert RuleMatches(t, meta);
    assert Fires(rule, JObj(meta));
    FirstMatchWins([rule] + rest, fallback, JObj(meta), 0);
  }

  /** When no rule fires, the fallback decides; without one there is no destination. */
  lemma FallbackOnlyWhenNothingFires(normals: seq<Mapping>, fallback: Option<Mapping>, meta: Json)
    requires forall j :: 0 <= j < |normals| ==> Passes(normals[j], meta)
    ensures fallback.None? ==> Decide(normals, fallback, meta) == Ok(None)
    ensures fallback.Some? && IsFallback(fallback.value) ==> Decide(normals, fallback, meta) == Ok(Some(fallback.value.directory))
  {
  }

  /**
   * The rule loop as written: rules are tried in order, a failure of the
   * script stops it, and the first rule that fires decides.
   */
  method ChooseDestination(normals: seq<Mapping>, fallback: Option<Mapping>, meta: Json)
    returns (r: Py<Option<Json>>)
    ensures r == Decide(normals, fallback, meta)
  {
    var i := 0;
    while i < |normals|
      invariant 0 <= i <= |normals|
      invariant Decide(normals, fallback, meta) == Decide(normals[i..], fallback, meta)
    {
      var outcome := RuleOutcome(normals[i].target, meta);
      if outcome.Err? {
        return Err(outcome.error);
      }
      if outcome.value && Truthy(normals[i].directory) {
        return Ok(Some(normals[i].directory));
      }
      assert normals[i..][1..] == normals[i + 1..];
      i := i + 1;
    }
    return Ok(FallbackDestination(fallback));
  }

  // ---------------------------------------------------------------------------
  // one file and a batch

  /** The destination for one loaded file; files without JSON or version are left alone. */
  function ClassifyFile(f: VrmFile, rules: RuleSet): (r: Py<Option<Json>>)
    ensures !(HasJson(f) && f.version.Some?) ==> r == Ok(None)
    ensures HasJson(f) && f.version.Some? && MetaByGet(f.json.value, f.version.value).Err? ==>
      r == Err(MetaByGet(f.json.value, f.version.value).error)
    ensures HasJson(f) && f.version.Some? && MetaByGet(f.json.value, f.version.value).Ok? ==>
      r == Decide(rules.normals, rules.fallback, MetaByGet(f.json.value, f.version.value).value)
  {
    if !(HasJson(f) && f.version.Some?) then Ok(None)
    else
      var meta :- MetaByGet(f.json.value, f.version.value);
      Decide(rules.normals, rules.fallback, meta)
  }

  /** The outcome of a sorting pass: the destinations chosen before any failure, and that failure. */
  datatype Pass = Pass(destinations: seq<Option<Json>>, failure: Option<PyError>)

  /**
   * `sort_files_by_mapdata` without the moves: a malformed rule record fails
   * before any file; otherwise each file gets its destination in turn until
   * one makes the script fail.
   */
  method SortFiles(doc: Json, files: seq<VrmFile>) returns (pass: Pass)
    ensures RulesOf(doc).Err? ==> pass == Pass([], Some(RulesOf(doc).error))
    ensures |pass.destinations| <= |files|
    ensures pass.failure.None? ==> |pass.destinations| == |files|
    ensures pass.failure.Some? && RulesOf(doc).Ok? ==>
      |pass.destinations| < |files| &&
      ClassifyFile(files[|pass.destinations|], SplitRules(RulesOf(doc).value)) == Err(pass.failure.value)
    ensures RulesOf(doc).Ok? ==> forall i :: 0 <= i < |pass.destinations| ==>
      ClassifyFile(files[i], SplitRules(RulesOf(doc).value)) == Ok(pass.destinations[i])
  {
    var mappings := RulesOf(doc);
    if mappings.Err? {
      return Pass([], Some(mappings.error));
    }
    pass := SortWith(SplitRules(mappings.value), files);
  }

  /** `ds` are the destinations of the first `|ds|` files. */
  predicate Classified(files: seq<VrmFile>, rules: RuleSet, ds: seq<Option<Json>>) {
    |ds| <= |files| && forall j :: 0 <= j < |ds| ==> ClassifyFile(files[j], rules) == Ok(ds[j])
  }

  lemma ClassifiedSnoc(files: seq<VrmFile>, rules: RuleSet, ds: seq<Option<Json>>, d: Option<Json>)
    requires Classified(files, rules, ds) && |ds| < |files| && ClassifyFile(files[|ds|], rules) == Ok(d)
    ensures Classified(files, rules, ds + [d])
  {
    SnocRelated(files, ds, d, (f, x) => ClassifyFile(f, rules) == Ok(x));
  }

  /** A prefix related pointwise to `xs` stays so when the next related item is appended. */
  lemma SnocRelated<A, B>(xs: seq<A>, ys: seq<B>, y: B, rel: (A, B) -> bool)
    requires |ys| < |xs| && rel(xs[|ys|], y)
    requires forall j :: 0 <= j < |ys| ==> rel(xs[j], ys[j])
    ensures forall j :: 0 <= j < |ys| + 1 ==> rel(xs[j], (ys + [y])[j])
  {
    forall j | 0 <= j < |ys| + 1
      ensures rel(xs[j], (ys + [y])[j])
    {
      if j < |ys| {
        assert (ys + [y])[j] == ys[j];
      }
    }
  }

  /** The file loop of a sorting pass under separated rules. */
  method SortWith(rules: RuleSet, files: seq<VrmFile>) returns (pass: Pass)
    ensures Classified(files, rules, pass.destinations)
    ensures pass.failure.None? ==> |pass.destinations| == |files|
    ensures pass.failure.Some? ==>
      |pass.destinations| < |files| && ClassifyFile(files[|pass.destinations|], rules) == Err(pass.failure.value)
  {
    var destinations: seq<Option<Json>> := [];
    while |destinations| < |files|
      invariant Classified(files, rules, destinations)
    {
      var choice := ClassifyFile(files[|destinations|], rules);
      if choice.Err? {
        return Pass(destinations, Some(choice.error));
      }
      ClassifiedSnoc(files, rules, destinations, choice.value);
      destinations := destinations + [choice.value];
    }
    return Pass(destinations, None);
  }

  /** The scaffold separates into its two folder rules and the `DoNotUse` fallback. */
  lemma ScaffoldSplit()
    ensures SplitRules(Scaffold) == RuleSet([Scaffold[0], Scaffold[1]], Some(Scaffold[2]))
  {
    assert Scaffold[..2] == [Scaffold[0], Scaffold[1]];
    assert Scaffold[..2][..1] == [Scaffold[0]];
    assert [Scaffold[0]][..0] == [];
    assert SplitRules([Scaffold[0]]) == RuleSet([Scaffold[0]], None);
    assert SplitRules(Scaffold[..2]) == RuleSet([Scaffold[0], Scaffold[1]], None);
  }

  /** An unedited scaffold sends every recognised file to `DoNotUse`. */
  lemma ScaffoldSendsAllToDoNotUse(f: VrmFile)
    requires HasJson(f) && f.version.Some? && MetaByGet(f.json.value, f.version.value).Ok?
    ensures ClassifyFile(f, SplitRules(Scaffold)) == Ok(Some(FallbackLabel))
  {
    ScaffoldSplit();
    var meta := MetaByGet(f.json.value, f.version.value).value;
    var normals := [Scaffold[0], Scaffold[1]];
    assert Passes(normals[0], meta) && Passes(normals[1], meta);
    FallbackOnlyWhenNothingFires(normals, Some(Scaffold[2]), meta);
  }
}
