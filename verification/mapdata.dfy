/**
 * Preparation mode (`prepare_mapdata`): pool the distinct canonical values
 * of the license keys over a corpus of loaded files, collapse single values,
 * and lay out the three empty destination rules for the operator to fill in.
 */
module MapData {
  import opened Wrappers
  import opened Json
  import opened Normalize
  import opened Container
  import opened Adapters

  /** `LICENSE_KEYS`: the 0.x and 1.0 spellings of the license-relevant keys. */
  const LicenseKeys: set<string> := {
    "allowedUserName", "violentUssageName", "sexualUssageName", "commercialUssageName",
    "creditNotation", "modification", "licenseName",
    "avatarPermission", "allowExcessivelyViolentUsage", "allowExcessivelySexualUsage",
    "commercialUsage", "allowRedistribution", "licenseUrl"
  }

  /** Key to the set of canonical values seen so far (`value_dict`). */
  type Pool = map<string, set<Json>>

  /** `None` and `""` are skipped. */
  predicate Kept(v: Json) {
    v != JNull && v != JStr("")
  }

  /** What one `meta` object adds to the pool: its kept license entries, canonicalised. */
  function Contribution(meta: map<string, Json>): (c: map<string, Json>)
    ensures c.Keys <= LicenseKeys && c.Keys <= meta.Keys
    ensures forall k :: k in meta && k in LicenseKeys && Kept(meta[k]) <==> k in c
    ensures forall k :: k in c ==> c[k] == Canonicalize(meta[k])
  {
    map k | k in meta && k in LicenseKeys && Kept(meta[k]) :: Canonicalize(meta[k])
  }

  /** `pool` with `c` merged in: every entry of `c` joins the set of its key. */
  function Merge(pool: Pool, c: map<string, Json>): Pool {
    map k | k in pool.Keys + c.Keys ::
      (if k in pool then pool[k] else {}) + (if k in c then {c[k]} else {})
  }

  /** The body of the collection loop for one `meta`; `.items()` needs a dict. */
  function AddMeta(pool: Pool, meta: Json): (r: Py<Pool>)
    ensures r.Ok? <==> meta.JObj?
    ensures r.Ok? ==> r.value.Keys == pool.Keys + Contribution(meta.fields).Keys
    ensures r.Ok? ==> forall k, c :: c in (if k in r.value then r.value[k] else {}) <==>
      (k in pool && c in pool[k]) || (k in Contribution(meta.fields) && Contribution(meta.fields)[k] == c)
  {
    if meta.JObj? then Ok(Merge(pool, Contribution(meta.fields))) else Err(AttributeError)
  }

  /** Files the loop looks at: parsed JSON that is truthy. */
  predicate HasJson(f: VrmFile) {
    f.json.Some? && Truthy(f.json.value)
  }

  /** Files the pool is built from: parsed JSON and a detected version. */
  predicate Pooled(f: VrmFile) {
    HasJson(f) && f.version.Some?
  }

  /** One loop iteration, skipping a file whose version is unknown. */
  function PoolStep(pool: Pool, f: VrmFile): Py<Pool> {
    if !Pooled(f) then Ok(pool)
    else
      var meta :- MetaByGet(f.json.value, f.version.value);
      AddMeta(pool, meta)
  }

  /** The collection loop of `prepare_mapdata` from an initial pool. */
  function PoolFrom(pool: Pool, files: seq<VrmFile>): Py<Pool>
    decreases |files|
  {
    if |files| == 0 then Ok(pool)
    else
      var next :- PoolStep(pool, files[0]);
      PoolFrom(next, files[1..])
  }

  /** `f` adds the canonical value `c` under key `k`. */
  predicate Contributes(f: VrmFile, k: string, c: Json) {
    && Pooled(f)
    && MetaByGet(f.json.value, f.version.value).Ok?
    && var meta := MetaByGet(f.json.value, f.version.value).value;
       meta.JObj? && k in Contribution(meta.fields) && Contribution(meta.fields)[k] == c
  }

  /** Membership in a pool that may not hold the key. */
  predicate InPool(pool: Pool, k: string, c: Json) {
    k in pool && c in pool[k]
  }

  /**
   * The pool of a corpus: keys are license keys with at least one value, and
   * a canonical value is pooled under a key exactly when some recognised file
   * has that key with a non-empty value canonicalising to it.
   */
  function CollectValues(files: seq<VrmFile>): (r: Py<Pool>)
    ensures r.Ok? <==> forall i :: 0 <= i < |files| ==> Collectable(files[i])
    ensures r.Ok? ==> forall k :: k in r.value ==> k in LicenseKeys && r.value[k] != {}
    ensures r.Ok? ==> forall k, c :: InPool(r.value, k, c) <==>
      exists i :: 0 <= i < |files| && Contributes(files[i], k, c)
  {
    var r := PoolFrom(map[], files);
    PoolFromSucceeds(map[], files);
    if r.Ok? then
      PoolFromContents(map[], files);
      r
    else r
  }

  /** A file the loop gets through: unrecognised, or with a `meta` that is a dict. */
  predicate Collectable(f: VrmFile) {
    Pooled(f) ==> MetaByGet(f.json.value, f.version.value).Ok? && MetaByGet(f.json.value, f.version.value).value.JObj?
  }

  /** The loop fails exactly when some file is not collectable, whatever the pool so far. */
  lemma {:induction false} PoolFromSucceeds(pool: Pool, files: seq<VrmFile>)
    ensures PoolFrom(pool, files).Ok? <==> forall i :: 0 <= i < |files| ==> Collectable(files[i])
    decreases |files|
  {
    if |files| > 0 {
      assert PoolStep(pool, files[0]).Ok? <==> Collectable(files[0]);
      if Collectable(files[0]) {
        PoolFromSucceeds(PoolStep(pool, files[0]).value, files[1..]);
      }
      ForallSplit(files, Collectable);
    }
  }

  /** Every element satisfies `p` exactly when the head and every element of the tail do. */
  lemma ForallSplit<T>(xs: seq<T>, p: T -> bool)
    requires |xs| > 0
    ensures (forall i :: 0 <= i < |xs| ==> p(xs[i])) <==> p(xs[0]) && forall i :: 0 <= i < |xs[1..]| ==> p(xs[1..][i])
  {
    if p(xs[0]) && forall i :: 0 <= i < |xs[1..]| ==> p(xs[1..][i]) {
      forall i | 0 < i < |xs|
        ensures p(xs[i])
      {
        assert xs[i] == xs[1..][i - 1];
      }
    }
  }

  predicate WellFormed(pool: Pool) {
    forall k :: k in pool ==> k in LicenseKeys && pool[k] != {}
  }

  lemma {:induction false} PoolFromContents(pool: Pool, files: seq<VrmFile>)
    requires WellFormed(pool)
    requires PoolFrom(pool, files).Ok?
    ensures WellFormed(PoolFrom(pool, files).value)
    ensures forall k, c :: InPool(PoolFrom(pool, files).value, k, c) <==>
      InPool(pool, k, c) || exists i :: 0 <= i < |files| && Contributes(files[i], k, c)
    decreases |files|
  {
    if |files| > 0 {
      var next := PoolStep(pool, files[0]).value;
      assert forall k, c :: InPool(next, k, c) <==> InPool(pool, k, c) || Contributes(files[0], k, c);
      PoolFromContents(next, files[1..]);
      forall k, c
        ensures (exists i :: 0 <= i < |files| && Contributes(files[i], k, c)) <==>
          Contributes(files[0], k, c) || exists i :: 0 <= i < |files[1..]| && Contributes(files[1..][i], k, c)
      {
        SomeFileSplit(files, k, c);
      }
    }
  }

  lemma SomeFileSplit(files: seq<VrmFile>, k: string, c: Json)
    requires |files| > 0
    ensures (exists i :: 0 <= i < |files| && Contributes(files[i], k, c)) <==>
      Contributes(files[0], k, c) || exists i :: 0 <= i < |files[1..]| && Contributes(files[1..][i], k, c)
  {
    ExistsSplit(files, f => Contributes(f, k, c));
  }

  /** Some element satisfies `p` exactly when the head or some element of the tail does. */
  lemma ExistsSplit<T>(xs: seq<T>, p: T -> bool)
    requires |xs| > 0
    ensures (exists i :: 0 <= i < |xs| && p(xs[i])) <==> p(xs[0]) || exists i :: 0 <= i < |xs[1..]| && p(xs[1..][i])
  {
    if exists i :: 0 <= i < |xs| && p(xs[i]) {
      var i :| 0 <= i < |xs| && p(xs[i]);
      if i > 0 {
        assert xs[1..][i - 1] == xs[i];
      }
    }
    if exists i :: 0 <= i < |xs[1..]| && p(xs[1..][i]) {
      var i :| 0 <= i < |xs[1..]| && p(xs[1..][i]);
      assert xs[i + 1] == xs[1..][i];
    }
  }

  // ---------------------------------------------------------------------------
  // the loop as written: a file with JSON but no version reuses `meta`

  /** One iteration as written; `prev` is the `meta` left over from an earlier iteration. */
  function StepAsWritten(pool: Pool, prev: Option<Json>, f: VrmFile): Py<(Pool, Option<Json>)> {
    if !HasJson(f) then Ok((pool, prev))
    else if f.version.Some? then
      var meta :- MetaByGet(f.json.value, f.version.value);
      var next :- AddMeta(pool, meta);
      Ok((next, Some(meta)))
    else if prev.None? then Err(UnboundLocal)
    else
      var next :- AddMeta(pool, prev.value);
      Ok((next, prev))
  }

  function PoolFromAsWritten(pool: Pool, prev: Option<Json>, files: seq<VrmFile>): Py<Pool>
    decreases |files|
  {
    if |files| == 0 then Ok(pool)
    else
      var (next, meta) :- StepAsWritten(pool, prev, files[0]);
      PoolFromAsWritten(next, meta, files[1..])
  }

  /** The collection loop of `prepare_mapdata` exactly as written. */
  function CollectValuesAsWritten(files: seq<VrmFile>): Py<Pool> {
    PoolFromAsWritten(map[], None, files)
  }

  /**
   * A file whose `extensions` is the list `["VRM"]` is detected as 0.x, and
   * preparation mode then stops: `.get` on that list raises `AttributeError`.
   */
  lemma ListExtensionsStopPreparation()
    ensures var j := JObj(map["extensions" := JArr([JStr("VRM")])]);
      && DetectVersion(j) == Ok(V0x)
      && CollectValues([VrmFile(Some(j), Some(V0x), None)]) == Err(AttributeError)
  {
    var j := JObj(map["extensions" := JArr([JStr("VRM")])]);
    var f := VrmFile(Some(j), Some(V0x), None);
    assert PoolStep(map[], f) == Err(AttributeError);
  }

  /** A plain glTF file (JSON without a VRM marker) loaded first. */
  const PlainGltf: VrmFile := VrmFile(Some(JObj(map["asset" := JObj(map["version" := JStr("2.0")])])), None, Some(MetadataNotFound))

  /** As written, a corpus that starts with a plain glTF file stops with an unbound `meta`. */
  lemma PlainGltfFirstAborts()
    ensures CollectValuesAsWritten([PlainGltf]) == Err(UnboundLocal)
    ensures CollectValues([PlainGltf]) == Ok(map[])
  {
    assert PoolStep(map[], PlainGltf) == Ok(map[]);
    assert [PlainGltf][1..] == [];
    assert PoolFrom(map[], [PlainGltf]) == PoolFrom(map[], []) == Ok(map[]);
  }

  /** The pool already holds everything `meta` would add. */
  predicate Absorbs(pool: Pool, meta: Json) {
    meta.JObj? && forall k :: k in Contribution(meta.fields) ==> InPool(pool, k, Contribution(meta.fields)[k])
  }

  lemma MergeAbsorbed(pool: Pool, meta: Json)
    requires Absorbs(pool, meta)
    ensures AddMeta(pool, meta) == Ok(pool)
  {
    MergeNothingNew(pool, Contribution(meta.fields));
  }

  /** Merging entries the pool already holds leaves it as it is. */
  lemma MergeNothingNew(pool: Pool, c: map<string, Json>)
    requires forall k :: k in c ==> InPool(pool, k, c[k])
    ensures Merge(pool, c) == pool
  {
    var m := Merge(pool, c);
    assert m.Keys == pool.Keys;
    forall k | k in pool
      ensures m[k] == pool[k]
    {
      if k in c {
        assert InPool(pool, k, c[k]);
        assert m[k] == pool[k] + {c[k]};
      }
    }
    assert m == pool;
  }

  lemma MergeKeepsAbsorbed(pool: Pool, meta: Json, other: Json)
    requires Absorbs(pool, meta) && other.JObj?
    ensures Absorbs(AddMeta(pool, other).value, meta)
  {
  }

  lemma {:induction false} AsWrittenMatchesWhenOk(pool: Pool, prev: Option<Json>, files: seq<VrmFile>)
    requires prev.Some? ==> Absorbs(pool, prev.value)
    requires PoolFromAsWritten(pool, prev, files).Ok?
    ensures PoolFromAsWritten(pool, prev, files) == PoolFrom(pool, files)
    decreases |files|
  {
    if |files| > 0 {
      var f := files[0];
      var (next, meta) := StepAsWritten(pool, prev, f).value;
      if !HasJson(f) {
        assert PoolStep(pool, f) == Ok(pool);
      } else if f.version.Some? {
        var m := MetaByGet(f.json.value, f.version.value).value;
        assert PoolStep(pool, f) == Ok(next);
        assert next == Merge(pool, Contribution(m.fields));
        assert Absorbs(next, m);
      } else {
        MergeAbsorbed(pool, prev.value);
        assert next == pool;
        assert PoolStep(pool, f) == Ok(pool);
      }
      if meta.Some? && prev.Some? && meta == prev && f.version.Some? {
        MergeKeepsAbsorbed(pool, prev.value, meta.value);
      }
      AsWrittenMatchesWhenOk(next, meta, files[1..]);
    }
  }

  /** Whenever the loop as written finishes, it pools exactly what the corrected loop pools. */
  lemma AsWrittenAgreesWhenItFinishes(files: seq<VrmFile>)
    requires CollectValuesAsWritten(files).Ok?
    ensures CollectValuesAsWritten(files) == CollectValues(files)
  {
    AsWrittenMatchesWhenOk(map[], None, files);
  }

  // ---------------------------------------------------------------------------
  // the document written to mapdata.json

  /** A pooled key's entry: one value, or the list of distinct values. */
  datatype PooledValue = Single(value: Json) | Several(values: set<Json>)

  lemma SingletonUnique(s: set<Json>, x: Json, y: Json)
    requires |s| == 1 && x in s && y in s
    ensures x == y
  {
    var rest := s - {x};
    assert |rest| == 0;
    assert y !in rest;
  }

  /** The one member of a one-element set. */
  function TheElement(s: set<Json>): (r: Json)
    requires |s| == 1
    ensures s == {r}
  {
    assert exists x :: x in s;
    forall x, y | x in s && y in s
      ensures x == y
    {
      SingletonUnique(s, x, y);
    }
    var x :| x in s;
    assert s == {x} by {
      forall y | y in s
        ensures y == x
      {
        SingletonUnique(s, x, y);
      }
    }
    x
  }

  /** `unsort.target`: a key with one distinct value maps to it, otherwise to all its values. */
  function Collapse(pool: Pool): (r: map<string, PooledValue>)
    ensures r.Keys == pool.Keys
    ensures forall k :: k in r ==> (r[k].Single? <==> |pool[k]| == 1)
    ensures forall k :: k in r && r[k].Single? ==> pool[k] == {r[k].value}
    ensures forall k :: k in r && r[k].Several? ==> r[k].values == pool[k]
  {
    map k | k in pool :: if |pool[k]| == 1 then Single(TheElement(pool[k])) else Several(pool[k])
  }

  /** An entry of `mapdata.sorted`: a destination and its conditions, both as read from JSON. */
  datatype Mapping = Mapping(directory: Json, target: Json)

  /** The three destinations written with empty conditions. */
  const Scaffold: seq<Mapping> := [
    Mapping(JStr("folder-1"), EmptyObject),
    Mapping(JStr("folder-2"), EmptyObject),
    Mapping(JStr("DoNotUse"), EmptyObject)
  ]

  datatype Document = Document(unsort: map<string, PooledValue>, sorted: seq<Mapping>)

  /** `prepare_mapdata` without the file writing: the pooled values and the scaffold. */
  function PrepareMapData(files: seq<VrmFile>): (r: Py<Document>)
    ensures r.Ok? <==> CollectValues(files).Ok?
    ensures r.Ok? ==> r.value.unsort == Collapse(CollectValues(files).value)
    ensures r.Ok? ==> r.value.unsort.Keys <= LicenseKeys
    ensures r.Ok? ==> |r.value.sorted| == 3 && forall i :: 0 <= i < 3 ==> r.value.sorted[i].target == EmptyObject
    ensures r.Ok? ==> r.value.sorted[0].directory == JStr("folder-1")
    ensures r.Ok? ==> r.value.sorted[1].directory == JStr("folder-2")
    ensures r.Ok? ==> r.value.sorted[2].directory == JStr("DoNotUse")
    ensures r.Err? ==> r.error == CollectValues(files).error
  {
    var pool :- CollectValues(files);
    Ok(Document(Collapse(pool), Scaffold))
  }

  /** The JSON form of the `sorted` list. */
  function MappingsJson(ms: seq<Mapping>): (r: Json)
    ensures r.JArr? && |r.items| == |ms|
    ensures forall i :: 0 <= i < |ms| ==>
      && r.items[i].JObj? && r.items[i].fields.Keys == {"directory", "target"}
      && r.items[i].fields["directory"] == ms[i].directory
      && r.items[i].fields["target"] == ms[i].target
  {
    JArr(seq(|ms|, i requires 0 <= i < |ms| =>
      JObj(map["directory" := ms[i].directory, "target" := ms[i].target])))
  }
}
