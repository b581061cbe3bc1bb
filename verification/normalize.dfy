/**
 * The two value helpers of the script: `normalize_for_compare`, used when a
 * rule is matched against a file, and `canonicalize`, used when the values of
 * a corpus are pooled (with `json.dumps(value, sort_keys=True,
 * ensure_ascii=False)` for lists and objects).
 */
module Normalize {
  import opened Json
  import opened Text

  /** The words "true" and "false" become booleans; other text stays text. */
  function WordValue(t: string): (r: Json)
    ensures r.JStr? || r.JBool?
    ensures r.JStr? <==> t != "true" && t != "false"
    ensures r.JStr? ==> r.s == t
  {
    if t == "true" then JBool(true)
    else if t == "false" then JBool(false)
    else JStr(t)
  }

  /**
   * `normalize_for_compare`: strings are stripped and lower-cased, and the
   * words "true" / "false" become booleans; every other value is unchanged.
   */
  function NormalizeForCompare(v: Json): (r: Json)
    ensures !v.JStr? ==> r == v
    ensures v.JStr? ==> r.JStr? || r.JBool?
    ensures r.JStr? ==> Strip(r.s) == r.s && Lower(r.s) == r.s
    ensures r.JStr? ==> r.s != "true" && r.s != "false"
  {
    match v
    case JStr(s) =>
      var t := Lower(Strip(s));
      NormalFormIsStable(s);
      WordValue(t)
    case _ => v
  }

  /** A text normalises through the word mapping of its stripped, lower-cased form. */
  lemma NormalizeText(s: string)
    ensures NormalizeForCompare(JStr(s)) == WordValue(Lower(Strip(s)))
  {
  }

  /** A stripped, lower-cased text is unchanged by stripping or lower-casing again. */
  lemma NormalFormIsStable(s: string)
    ensures Strip(Lower(Strip(s))) == Lower(Strip(s))
    ensures Lower(Lower(Strip(s))) == Lower(Strip(s))
  {
    StripLowerCommute(Strip(s));
    StripOfStripped(Strip(s));
    LowerIdempotent(Strip(s));
  }

  /** Normalising twice is normalising once. */
  lemma NormalizeIdempotent(v: Json)
    ensures NormalizeForCompare(NormalizeForCompare(v)) == NormalizeForCompare(v)
  {
  }

  /** Surrounding whitespace never changes the normalised value. */
  lemma NormalizeIgnoresPadding(p: string, s: string, q: string)
    requires AllSpace(p) && AllSpace(q)
    ensures NormalizeForCompare(JStr(p + s + q)) == NormalizeForCompare(JStr(s))
  {
    StripIgnoresPadding(p, s, q);
  }

  /** Texts that agree up to letter case normalise alike. */
  lemma NormalizeIgnoresCase(a: string, b: string)
    requires Lower(a) == Lower(b)
    ensures NormalizeForCompare(JStr(a)) == NormalizeForCompare(JStr(b))
  {
    StripLowerCommute(a);
    StripLowerCommute(b);
    NormalizeText(a);
    NormalizeText(b);
  }

  /** The words true / false, in any case and with any padding, become booleans. */
  lemma NormalizeBooleanWords(s: string)
    ensures NormalizeForCompare(JStr(s)) == JBool(true) <==> Lower(Strip(s)) == "true"
    ensures NormalizeForCompare(JStr(s)) == JBool(false) <==> Lower(Strip(s)) == "false"
    ensures NormalizeForCompare(JStr(s)).JStr? <==> Lower(Strip(s)) != "true" && Lower(Strip(s)) != "false"
  {
  }

  // ---------------------------------------------------------------------------
  // canonicalize

  /** Python can hash every JSON scalar but no list or dict. */
  predicate IsHashable(v: Json) {
    !v.JArr? && !v.JObj?
  }

  function HexDigit(d: nat): char
    requires d < 16
  {
    if d < 10 then ('0' as int + d) as char else ('a' as int + d - 10) as char
  }

  /** How `json.dumps(..., ensure_ascii=False)` writes one character inside a string. */
  function EscapeChar(c: char): string {
    if c == '"' then "\\\""
    else if c == '\\' then "\\\\"
    else if c == '\n' then "\\n"
    else if c == '\r' then "\\r"
    else if c == '\t' then "\\t"
    else if c == '\U{8}' then "\\b"
    else if c == '\U{c}' then "\\f"
    else if (c as int) < 0x20 then "\\u00" + [HexDigit(c as int / 16), HexDigit(c as int % 16)]
    else [c]
  }

  function Escape(s: string): string
    decreases |s|
  {
    if |s| == 0 then "" else EscapeChar(s[0]) + Escape(s[1..])
  }

  function Quote(s: string): string {
    "\"" + Escape(s) + "\""
  }

  /** `json.dumps(v, sort_keys=True, ensure_ascii=False)` with the default separators. */
  function Dumps(v: Json): string
    decreases v
  {
    match v
    case JNull => "null"
    case JBool(b) => if b then "true" else "false"
    case JNum(n) => IntToString(n)
    case JStr(s) => Quote(s)
    case JArr(xs) =>
      "[" + Join(seq(|xs|, i requires 0 <= i < |xs| => Dumps(xs[i])), ", ") + "]"
    case JObj(m) =>
      var ks := SortedKeys(m.Keys);
      "{" + Join(seq(|ks|, i requires 0 <= i < |ks| => Quote(ks[i]) + ": " + Dumps(m[ks[i]])), ", ") + "}"
  }

  /** `canonicalize`: a hashable value stands for itself, anything else for its JSON text. */
  function Canonicalize(v: Json): (r: Json)
    ensures IsHashable(r)
    ensures IsHashable(v) ==> r == v
    ensures !IsHashable(v) ==> r.JStr? && |r.s| >= 2
    ensures !IsHashable(v) ==> r == JStr(Dumps(v))
    ensures v.JArr? ==> r.s[0] == '[' && r.s[|r.s| - 1] == ']'
    ensures v.JObj? ==> r.s[0] == '{' && r.s[|r.s| - 1] == '}'
  {
    if IsHashable(v) then v else JStr(Dumps(v))
  }

  /** Canonical values are fixed points: canonicalising again changes nothing. */
  lemma CanonicalizeIdempotent(v: Json)
    ensures Canonicalize(Canonicalize(v)) == Canonicalize(v)
  {
  }

  /** A list and the string spelling its JSON text share one canonical value. */
  lemma ListAndItsTextCollide()
    ensures Canonicalize(JArr([JNum(7)])) == Canonicalize(JStr("[7]"))
  {
    var xs := [JNum(7)];
    var parts := seq(|xs|, i requires 0 <= i < |xs| => Dumps(xs[i]));
    assert parts == [Dumps(JNum(7))];
    assert Dumps(JNum(7)) == "7";
    assert Dumps(JArr(xs)) == "[" + Join(parts, ", ") + "]";
  }
}
