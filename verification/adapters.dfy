/**
 * The two metadata adapters (`VRM0xMeta` and `VRM1Meta`), the dispatch of
 * `VRMParser.parse`, and the two ways the script reaches a file's `meta`
 * object.
 */
module Adapters {
  import opened Wrappers
  import opened Json
  import opened Text
  import opened Container

  /** The "nothing recorded" text. */
  const Sentinel: Json := JStr("--")
  const AllowedText: Json := JStr("Allowed")
  const NotAllowedText: Json := JStr("Not allowed")

  /** The unified license record, one field per column of the report. */
  datatype LicenseInfo = LicenseInfo(
    fileName: string,
    vrmVersion: string,
    modelName: Json,
    author: Json,
    contact: Json,
    referenceUrl: Json,
    commercialUsage: Json,
    redistribution: Json,
    creditNotation: Json,
    modification: Json,
    avatarPermission: Json,
    sexualExpression: Json,
    violenceExpression: Json,
    license: Json,
    otherPermissionUrl: Json,
    otherLicenseUrl: Json)

  /** `meta.get(key, "--")`: a present key keeps its value, even `null`. */
  function Field(meta: map<string, Json>, key: string): Json {
    if key in meta then meta[key] else Sentinel
  }

  // ---------------------------------------------------------------------------
  // the query string of `otherPermissionUrl`

  /** The query of a URL as `urllib.parse.urlparse` finds it: after the first `?`, before any `#`. */
  function UrlQuery(url: string): string {
    var beforeFragment := Split(url, '#')[0];
    Join(Split(beforeFragment, '?')[1..], "?")
  }

  /** The name of a `name=value` field: the text before its first `=`. */
  function ParamName(field: string): string {
    Split(field, '=')[0]
  }

  /** The value of a `name=value` field: the text after its first `=`. */
  function ParamValue(field: string): string {
    Join(Split(field, '=')[1..], "=")
  }

  /** `parse_qs` keeps a field only when it has an `=` and a non-empty value. */
  predicate Gives(field: string, key: string) {
    '=' in field && ParamName(field) == key && |ParamValue(field)| > 0
  }

  /** The first value `parse_qs` records for `key` among the `&`-separated fields. */
  function FirstValue(fields: seq<string>, key: string): (r: Option<string>)
    ensures r.None? <==> forall i :: 0 <= i < |fields| ==> !Gives(fields[i], key)
    ensures r.Some? ==>
      exists i :: 0 <= i < |fields| && Gives(fields[i], key) && ParamValue(fields[i]) == r.value
                  && forall j :: 0 <= j < i ==> !Gives(fields[j], key)
    decreases |fields|
  {
    if |fields| == 0 then None
    else if Gives(fields[0], key) then Some(ParamValue(fields[0]))
    else
      var r := FirstValue(fields[1..], key);
      assert forall i :: 1 <= i < |fields| ==> fields[i] == fields[1..][i - 1];
      r
  }

  /** `parse_qs(query).get(key, ["--"])[0]`, without percent-decoding. */
  function QueryValue(query: string, key: string): Option<string> {
    FirstValue(Split(query, '&'), key)
  }

  /** A query parameter as a writer would put it in a URL. */
  datatype Param = Param(name: string, value: string)

  function EncodeParam(p: Param): string {
    p.name + "=" + p.value
  }

  /** `urlencode`-style writing of parameters, without percent-encoding. */
  function EncodeQuery(ps: seq<Param>): string {
    Join(seq(|ps|, i requires 0 <= i < |ps| => EncodeParam(ps[i])), "&")
  }

  /** The value a reader should find: the first non-empty value written under `key`. */
  function FirstWritten(ps: seq<Param>, key: string): Option<string>
    decreases |ps|
  {
    if |ps| == 0 then None
    else if ps[0].name == key && |ps[0].value| > 0 then Some(ps[0].value)
    else FirstWritten(ps[1..], key)
  }

  /** Names free of `=` and `&`, values free of `&`. */
  predicate Plain(ps: seq<Param>) {
    forall i :: 0 <= i < |ps| ==> '=' !in ps[i].name && '&' !in ps[i].name && '&' !in ps[i].value
  }

  lemma ParamRoundTrip(p: Param)
    requires '=' !in p.name
    ensures ParamName(EncodeParam(p)) == p.name
    ensures ParamValue(EncodeParam(p)) == p.value
    ensures '=' in EncodeParam(p)
  {
    SplitPrefix(p.name, p.value, '=');
    assert Split(EncodeParam(p), '=') == [p.name] + Split(p.value, '=');
    assert ([p.name] + Split(p.value, '='))[1..] == Split(p.value, '=');
    JoinSplit(p.value, '=');
    assert EncodeParam(p)[|p.name|] == '=';
  }

  /** Reading a written query finds exactly the first non-empty value written under the key. */
  lemma {:induction false} QueryRoundTrip(ps: seq<Param>, key: string)
    requires Plain(ps)
    ensures QueryValue(EncodeQuery(ps), key) == FirstWritten(ps, key)
    decreases |ps|
  {
    var fields := seq(|ps|, i requires 0 <= i < |ps| => EncodeParam(ps[i]));
    if |ps| == 0 {
      assert Split("", '&') == [""];
    } else {
      forall i | 0 <= i < |fields|
        ensures '&' !in fields[i]
      {
        assert fields[i] == ps[i].name + "=" + ps[i].value;
      }
      SplitJoin(fields, '&');
      assert Split(EncodeQuery(ps), '&') == fields;
      FieldsMatchWritten(ps, fields, key);
    }
  }

  lemma {:induction false} FieldsMatchWritten(ps: seq<Param>, fields: seq<string>, key: string)
    requires Plain(ps)
    requires |fields| == |ps|
    requires forall i :: 0 <= i < |ps| ==> fields[i] == EncodeParam(ps[i])
    ensures FirstValue(fields, key) == FirstWritten(ps, key)
    decreases |ps|
  {
    if |ps| > 0 {
      ParamRoundTrip(ps[0]);
      FieldsMatchWritten(ps[1..], fields[1..], key);
    }
  }

  /**
   * The 0.x redistribution column: read from the `redistribution` query
   * parameter of `otherPermissionUrl`; "--" when the URL is missing or falsy
   * or the parameter is not there. `urlparse` refuses a non-string URL.
   */
  function Redistribution0x(meta: map<string, Json>): (r: Py<Json>)
    ensures "otherPermissionUrl" !in meta ==> r == Ok(Sentinel)
    ensures "otherPermissionUrl" in meta && !Truthy(meta["otherPermissionUrl"]) ==> r == Ok(Sentinel)
    ensures r.Err? <==> "otherPermissionUrl" in meta && Truthy(meta["otherPermissionUrl"])
                        && !meta["otherPermissionUrl"].JStr?
    ensures r.Err? ==> r.error == AttributeError
    ensures r.Ok? ==> r.value.JStr? && |r.value.s| > 0
    ensures "otherPermissionUrl" in meta && meta["otherPermissionUrl"].JStr? && r != Ok(Sentinel) ==>
      QueryValue(UrlQuery(meta["otherPermissionUrl"].s), "redistribution") == Some(r.value.s)
    ensures "otherPermissionUrl" in meta && meta["otherPermissionUrl"].JStr? && |meta["otherPermissionUrl"].s| > 0 ==>
      r == Ok(match QueryValue(UrlQuery(meta["otherPermissionUrl"].s), "redistribution")
              case Some(v) => JStr(v)
              case None => Sentinel)
  {
    var url := if "otherPermissionUrl" in meta then meta["otherPermissionUrl"] else JStr("");
    if !Truthy(url) then Ok(Sentinel)
    else if !url.JStr? then Err(AttributeError)
    else
      match QueryValue(UrlQuery(url.s), "redistribution")
      case Some(v) => Ok(JStr(v))
      case None => Ok(Sentinel)
  }

  /** The query of `base?query` when neither part holds a `#` and the base holds no `?`. */
  lemma UrlQueryOf(base: string, query: string)
    requires '#' !in base && '#' !in query && '?' !in base
    ensures UrlQuery(base + "?" + query) == query
  {
    var url := base + "?" + query;
    assert '#' !in url by {
      assert forall i :: 0 <= i < |url| ==> url[i] == '?' || url[i] in base || url[i] in query;
    }
    SplitNoSep(url, '#');
    SplitPrefix(base, query, '?');
    assert Split(url, '?')[1..] == Split(query, '?');
    JoinSplit(query, '?');
  }

  /**
   * A URL `base?redistribution=value` yields `value`, as for
   * "https://example.com?redistribution=Allow", which yields "Allow".
   */
  lemma RedistributionFromUrl(base: string, value: string)
    requires '#' !in base && '?' !in base
    requires '#' !in value && '&' !in value && |value| > 0
    ensures Redistribution0x(map["otherPermissionUrl" := JStr(base + "?redistribution=" + value)])
            == Ok(JStr(value))
  {
    var name := "redistribution";
    var query := name + "=" + value;
    assert '#' !in name && '=' !in name && '&' !in name by {
      assert forall i :: 0 <= i < |name| ==> name[i] in "abdeinorstu";
    }
    assert '#' !in query by {
      assert forall i :: 0 <= i < |query| ==> query[i] == '=' || query[i] in name || query[i] in value;
    }
    assert base + "?redistribution=" + value == base + "?" + query;
    UrlQueryOf(base, query);
    QueryOfOneParam(name, value);
  }

  /** A query holding a single `name=value` field yields that value for that name. */
  lemma QueryOfOneParam(name: string, value: string)
    requires '=' !in name && '&' !in name && '&' !in value && |value| > 0
    ensures QueryValue(name + "=" + value, name) == Some(value)
  {
    var p := Param(name, value);
    assert EncodeQuery([p]) == name + "=" + value;
    QueryRoundTrip([p], name);
  }

  /** Without `otherPermissionUrl` the redistribution column is "--". */
  lemma RedistributionWithoutUrl(meta: map<string, Json>)
    requires "otherPermissionUrl" !in meta
    ensures Redistribution0x(meta) == Ok(Sentinel)
  {
  }

  // ---------------------------------------------------------------------------
  // VRM 0.x

  /** `VRM0xMeta.get_license_info`. */
  function Vrm0xInfo(meta: map<string, Json>, fileName: string): (r: Py<LicenseInfo>)
    ensures r.Ok? <==> Redistribution0x(meta).Ok?
    ensures r.Err? ==> r == Err(AttributeError)
    ensures r.Ok? ==> r.value.vrmVersion == "0.x" && r.value.fileName == fileName
    ensures r.Ok? ==> r.value.redistribution == Redistribution0x(meta).value
    ensures r.Ok? ==>
      && r.value.modelName == Field(meta, "title")
      && r.value.author == Field(meta, "author")
      && r.value.contact == Field(meta, "contactInformation")
      && r.value.referenceUrl == Field(meta, "reference")
      && r.value.commercialUsage == Field(meta, "commercialUssageName")
      && r.value.creditNotation == Field(meta, "creditNotation")
      && r.value.modification == Field(meta, "modification")
      && r.value.avatarPermission == Field(meta, "allowedUserName")
      && r.value.sexualExpression == Field(meta, "sexualUssageName")
      && r.value.violenceExpression == Field(meta, "violentUssageName")
      && r.value.license == Field(meta, "licenseName")
      && r.value.otherPermissionUrl == Field(meta, "otherPermissionUrl")
      && r.value.otherLicenseUrl == Field(meta, "otherLicenseUrl")
  {
    var redistribution :- Redistribution0x(meta);
    Ok(LicenseInfo(
      fileName, "0.x",
      Field(meta, "title"), Field(meta, "author"), Field(meta, "contactInformation"),
      Field(meta, "reference"), Field(meta, "commercialUssageName"), redistribution,
      Field(meta, "creditNotation"), Field(meta, "modification"), Field(meta, "allowedUserName"),
      Field(meta, "sexualUssageName"), Field(meta, "violentUssageName"), Field(meta, "licenseName"),
      Field(meta, "otherPermissionUrl"), Field(meta, "otherLicenseUrl")))
  }

  // ---------------------------------------------------------------------------
  // VRM 1.0

  /**
   * A VRM 1.0 permission flag as text: absent or `null` gives "--", a truthy
   * value "Allowed", any other value "Not allowed".
   */
  function TriState(meta: map<string, Json>, key: string): (r: Json)
    ensures r == Sentinel <==> key !in meta || meta[key] == JNull
    ensures r == AllowedText <==> key in meta && meta[key] != JNull && Truthy(meta[key])
    ensures r == NotAllowedText <==> key in meta && meta[key] != JNull && !Truthy(meta[key])
  {
    if key !in meta || meta[key] == JNull then Sentinel
    else if Truthy(meta[key]) then AllowedText
    else NotAllowedText
  }

  /** Missing, `true` and `false` are three different outcomes. */
  lemma TriStateKeepsThreeStates(key: string)
    ensures TriState(map[], key) != TriState(map[key := JBool(true)], key)
    ensures TriState(map[], key) != TriState(map[key := JBool(false)], key)
    ensures TriState(map[key := JBool(true)], key) != TriState(map[key := JBool(false)], key)
  {
  }

  /** The texts of a list of JSON strings. */
  function Texts(xs: seq<Json>): (r: seq<string>)
    requires forall i :: 0 <= i < |xs| ==> xs[i].JStr?
    ensures |r| == |xs| && forall i :: 0 <= i < |xs| ==> r[i] == xs[i].s
  {
    seq(|xs|, i requires 0 <= i < |xs| && xs[i].JStr? => xs[i].s)
  }

  /** A string iterated as Python iterates it: one-character strings. */
  function Chars(s: string): (r: seq<string>)
    ensures |r| == |s| && forall i :: 0 <= i < |s| ==> r[i] == [s[i]]
  {
    seq(|s|, i requires 0 <= i < |s| => [s[i]])
  }

  /**
   * `", ".join(meta.get("authors", ["--"]))`: the names of a list joined
   * with a comma and a space; a string is iterated character by character.
   */
  function Authors(meta: map<string, Json>): (r: Py<string>)
    ensures "authors" !in meta ==> r == Ok("--")
    ensures "authors" in meta && meta["authors"].JArr? ==>
      var xs := meta["authors"].items;
      && (r.Ok? <==> forall i :: 0 <= i < |xs| ==> xs[i].JStr?)
      && (r.Ok? ==> r.value == Join(Texts(xs), ", "))
      && (r.Ok? && |xs| == 1 ==> r.value == xs[0].s)
      && (r.Ok? && |xs| == 0 ==> r.value == "")
    ensures "authors" in meta && meta["authors"].JStr? ==> r == Ok(Join(Chars(meta["authors"].s), ", "))
    ensures "authors" in meta && meta["authors"].JArr? && r.Err? ==> r.error == TypeError
    ensures "authors" in meta && meta["authors"].JObj? ==> r == Err(Unsupported)
    ensures "authors" in meta && !meta["authors"].JArr? && !meta["authors"].JStr? ==> r.Err?
    ensures "authors" in meta && (meta["authors"].JNull? || meta["authors"].JBool? || meta["authors"].JNum?) ==>
      r == Err(TypeError)
  {
    if "authors" !in meta then Ok("--")
    else
      match meta["authors"]
      case JArr(xs) =>
        if forall i :: 0 <= i < |xs| ==> xs[i].JStr? then Ok(Join(Texts(xs), ", "))
        else Err(TypeError)
      case JStr(s) => Ok(Join(Chars(s), ", "))
      case JObj(_) => Err(Unsupported)
      case _ => Err(TypeError)
  }

  /** Two authors come out separated by a comma and a space. */
  lemma AuthorsJoined(a: string, b: string)
    ensures Authors(map["authors" := JArr([JStr(a), JStr(b)])]) == Ok(a + ", " + b)
  {
    var xs := [JStr(a), JStr(b)];
    assert Texts(xs) == [a, b];
    assert Texts(xs)[1..] == [b];
  }

  /** One more author in the list adds a comma, a space and that name to the column. */
  lemma AuthorAppended(xs: seq<Json>, a: string)
    requires |xs| >= 1 && forall i :: 0 <= i < |xs| ==> xs[i].JStr?
    ensures Authors(map["authors" := JArr(xs + [JStr(a)])]) ==
            Ok(Authors(map["authors" := JArr(xs)]).value + ", " + a)
  {
    var ys := xs + [JStr(a)];
    assert forall i :: 0 <= i < |ys| ==> ys[i].JStr?;
    assert Texts(ys) == Texts(xs) + [a];
    JoinSnoc(Texts(xs), a, ", ");
  }

  /** `VRM1Meta.get_license_info`. */
  function Vrm1Info(meta: map<string, Json>, fileName: string): (r: Py<LicenseInfo>)
    ensures r.Ok? <==> Authors(meta).Ok?
    ensures r.Err? ==> r.error == Authors(meta).error && (r.error == TypeError || r.error == Unsupported)
    ensures r.Ok? ==> r.value.vrmVersion == "1.0" && r.value.fileName == fileName
    ensures r.Ok? ==> r.value.author == JStr(Authors(meta).value)
    ensures r.Ok? ==>
      && r.value.contact == Sentinel && r.value.referenceUrl == Sentinel
      && r.value.otherPermissionUrl == Sentinel && r.value.otherLicenseUrl == Sentinel
    ensures r.Ok? ==>
      && r.value.redistribution == TriState(meta, "allowRedistribution")
      && r.value.sexualExpression == TriState(meta, "allowExcessivelySexualUsage")
      && r.value.violenceExpression == TriState(meta, "allowExcessivelyViolentUsage")
    ensures r.Ok? ==>
      && r.value.modelName == Field(meta, "name")
      && r.value.commercialUsage == Field(meta, "commercialUsage")
      && r.value.creditNotation == Field(meta, "creditNotation")
      && r.value.modification == Field(meta, "modification")
      && r.value.avatarPermission == Field(meta, "avatarPermission")
      && r.value.license == Field(meta, "licenseUrl")
  {
    var authors :- Authors(meta);
    Ok(LicenseInfo(
      fileName, "1.0",
      Field(meta, "name"), JStr(authors), Sentinel, Sentinel,
      Field(meta, "commercialUsage"), TriState(meta, "allowRedistribution"),
      Field(meta, "creditNotation"), Field(meta, "modification"), Field(meta, "avatarPermission"),
      TriState(meta, "allowExcessivelySexualUsage"), TriState(meta, "allowExcessivelyViolentUsage"),
      Field(meta, "licenseUrl"), Sentinel, Sentinel))
  }

  // ---------------------------------------------------------------------------
  // reaching `meta` and dispatching

  /** `json_data["extensions"][marker]["meta"]` as the adapters' constructors read it; `.get` needs a dict. */
  function AdapterMeta(json: Json, v: Version): (r: Py<map<string, Json>>)
    ensures r.Ok? ==>
      && json.JObj? && "extensions" in json.fields
      && json.fields["extensions"].JObj? && v.Marker() in json.fields["extensions"].fields
      && var vrm := json.fields["extensions"].fields[v.Marker()];
         vrm.JObj? && "meta" in vrm.fields && vrm.fields["meta"] == JObj(r.value)
    ensures (json.JObj? && "extensions" in json.fields
             && json.fields["extensions"].JObj? && v.Marker() in json.fields["extensions"].fields
             && var vrm := json.fields["extensions"].fields[v.Marker()];
                vrm.JObj? && "meta" in vrm.fields && vrm.fields["meta"].JObj?) ==>
      r == Ok(json.fields["extensions"].fields[v.Marker()].fields["meta"].fields)
    ensures !json.JObj? ==> r == Err(TypeError)
    ensures json.JObj? && "extensions" !in json.fields ==> r == Err(KeyError)
  {
    var ext :- Index(json, "extensions");
    var vrm :- Index(ext, v.Marker());
    var meta :- Index(vrm, "meta");
    if meta.JObj? then Ok(meta.fields) else Err(AttributeError)
  }

  /** `json_data.get("extensions", {}).get(marker, {}).get("meta", {})` as the folder modes read it. */
  function MetaByGet(json: Json, v: Version): (r: Py<Json>)
    ensures json.JObj? && "extensions" !in json.fields ==> r == Ok(EmptyObject)
    ensures (json.JObj? && "extensions" in json.fields && json.fields["extensions"].JObj?
             && v.Marker() !in json.fields["extensions"].fields) ==> r == Ok(EmptyObject)
    ensures r.Err? ==> r.error == AttributeError
    ensures r.Ok? <==>
      && json.JObj?
      && ("extensions" in json.fields ==>
            && json.fields["extensions"].JObj?
            && (v.Marker() in json.fields["extensions"].fields ==>
                  json.fields["extensions"].fields[v.Marker()].JObj?))
    ensures !json.JObj? ==> r == Err(AttributeError)
    ensures (json.JObj? && "extensions" in json.fields && json.fields["extensions"].JObj?
             && v.Marker() in json.fields["extensions"].fields
             && json.fields["extensions"].fields[v.Marker()].JObj?) ==>
      var vrm := json.fields["extensions"].fields[v.Marker()].fields;
      r == Ok(if "meta" in vrm then vrm["meta"] else EmptyObject)
  {
    var ext :- Get(json, "extensions", EmptyObject);
    var vrm :- Get(ext, v.Marker(), EmptyObject);
    Get(vrm, "meta", EmptyObject)
  }
  /**
   * Where the adapters find `meta` by indexing, the folder modes' chained
   * `.get` finds the same dict.
   */
  lemma MetaByGetAgrees(json: Json, v: Version)
    requires AdapterMeta(json, v).Ok?
    ensures MetaByGet(json, v) == Ok(JObj(AdapterMeta(json, v).value))
  {
  }


  /**
   * `VRMParser.parse`: no detected version gives no record; otherwise the
   * adapter of the detected version runs (its failures are not caught).
   */
  function Parse(file: VrmFile, fileName: string): (r: Py<Option<LicenseInfo>>)
    ensures file.version.None? ==> r == Ok(None)
    ensures r.Ok? && r.value.Some? ==>
      && file.version.Some?
      && r.value.value.vrmVersion == file.version.value.Tag()
      && r.value.value.fileName == fileName
    ensures file.version.Some? && file.json.None? ==> r == Err(TypeError)
    ensures file.version.Some? && file.json.Some? && AdapterMeta(file.json.value, file.version.value).Err? ==>
      r == Err(AdapterMeta(file.json.value, file.version.value).error)
    ensures file.version == Some(V0x) && file.json.Some? && AdapterMeta(file.json.value, V0x).Ok? ==>
      r == (match Vrm0xInfo(AdapterMeta(file.json.value, V0x).value, fileName)
            case Ok(info) => Ok(Some(info))
            case Err(e) => Err(e))
    ensures file.version == Some(V1) && file.json.Some? && AdapterMeta(file.json.value, V1).Ok? ==>
      r == (match Vrm1Info(AdapterMeta(file.json.value, V1).value, fileName)
            case Ok(info) => Ok(Some(info))
            case Err(e) => Err(e))
  {
    match file.version
    case None => Ok(None)
    case Some(v) =>
      if file.json.None? then Err(TypeError)
      else
        var meta :- AdapterMeta(file.json.value, v);
        var info :- if v == V0x then Vrm0xInfo(meta, fileName) else Vrm1Info(meta, fileName);
        Ok(Some(info))
  }
}
