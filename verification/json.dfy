/**
 * Decoded JSON values and the handful of Python operations the script applies
 * to them: truthiness, `key in value`, `value.get(key, default)` and
 * `value[key]`. Each operation fails exactly where Python would raise.
 */
module Json {
  import opened Wrappers

  /** A value produced by `json.loads`. Numbers are integers only. */
  datatype Json =
    | JNull
    | JBool(b: bool)
    | JNum(n: int)
    | JStr(s: string)
    | JArr(items: seq<Json>)
    | JObj(fields: map<string, Json>)

  /** The exceptions the modelled code can raise. */
  datatype PyError =
    | StructError       // struct.unpack_from on a buffer that is too short
    | BadMagic          // the first four bytes are not "glTF"
    | DecodeError       // UTF-8 decoding or json.loads failed
    | MetadataNotFound  // neither VRM marker under "extensions"
    | TypeError
    | AttributeError
    | KeyError
    | UnboundLocal      // a local variable read before any assignment
    | Unsupported       // a case this model does not represent (see README)

  type Py<T> = Result<T, PyError>

  const EmptyObject: Json := JObj(map[])

  /** Python's `bool(value)`. */
  predicate Truthy(j: Json) {
    match j
    case JNull => false
    case JBool(b) => b
    case JNum(n) => n != 0
    case JStr(s) => |s| > 0
    case JArr(xs) => |xs| > 0
    case JObj(m) => |m| > 0
  }

  /** Does `t` occur as a contiguous run inside `s` (Python's `t in s` on strings)? */
  predicate IsInfix(t: string, s: string)
    decreases |s|
  {
    if |t| > |s| then false
    else if s[..|t|] == t then true
    else IsInfix(t, s[1..])
  }

  /** `t` occurs in `s` starting at position `i`. */
  predicate OccursAt(t: string, s: string, i: int) {
    0 <= i <= |s| - |t| && s[i..i + |t|] == t
  }

  /** `IsInfix` agrees with the textbook definition of a substring occurrence. */
  lemma {:induction false} InfixIffOccurs(t: string, s: string)
    ensures IsInfix(t, s) <==> exists i :: OccursAt(t, s, i)
    decreases |s|
  {
    if |t| > |s| {
    } else if s[..|t|] == t {
      assert OccursAt(t, s, 0);
    } else {
      InfixIffOccurs(t, s[1..]);
      if IsInfix(t, s[1..]) {
        var i :| OccursAt(t, s[1..], i);
        assert s[i + 1..i + 1 + |t|] == s[1..][i..i + |t|];
        assert OccursAt(t, s, i + 1);
      }
      if exists i :: OccursAt(t, s, i) {
        var i :| OccursAt(t, s, i);
        assert i != 0;
        assert s[1..][i - 1..i - 1 + |t|] == s[i..i + |t|];
        assert OccursAt(t, s[1..], i - 1);
      }
    }
  }

  /** Python's `key in container` for a string key. */
  function Contains(container: Json, key: string): (r: Py<bool>)
    ensures r.Err? <==> container.JNull? || container.JBool? || container.JNum?
    ensures r.Err? ==> r.error == TypeError
    ensures container.JObj? ==> r == Ok(key in container.fields)
    ensures container.JArr? ==> r == Ok(JStr(key) in container.items)
    ensures container.JStr? ==> r == Ok(IsInfix(key, container.s))
  {
    match container
    case JObj(m) => Ok(key in m)
    case JArr(xs) => Ok(JStr(key) in xs)
    case JStr(s) => Ok(IsInfix(key, s))
    case _ => Err(TypeError)
  }

  /** Python's `d.get(key, default)`; only dicts have `.get`. */
  function Get(d: Json, key: string, default: Json): (r: Py<Json>)
    ensures r.Ok? <==> d.JObj?
    ensures r.Ok? && key in d.fields ==> r.value == d.fields[key]
    ensures r.Ok? && key !in d.fields ==> r.value == default
    ensures r.Err? ==> r.error == AttributeError
  {
    if d.JObj? then Ok(if key in d.fields then d.fields[key] else default)
    else Err(AttributeError)
  }

  /** Python's `d[key]` for a string key. */
  function Index(d: Json, key: string): (r: Py<Json>)
    ensures r.Ok? <==> d.JObj? && key in d.fields
    ensures r.Ok? ==> r.value == d.fields[key]
    ensures d.JObj? && key !in d.fields ==> r == Err(KeyError)
    ensures !d.JObj? ==> r == Err(TypeError)
  {
    match d
    case JObj(m) => if key in m then Ok(m[key]) else Err(KeyError)
    case _ => Err(TypeError)
  }
}
