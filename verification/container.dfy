/**
 * `VRMFile.load`: the Binary glTF header check, the JSON chunk slice and the
 * VRM schema detection (section 4.4 of the Khronos glTF 2.0 specification
 * describes the container layout).
 */
module Container {
  import opened Wrappers
  import opened Json

  /** One octet of the file. */
  type Byte = b: int | 0 <= b < 0x100

  /** The ASCII bytes of "glTF". */
  const Magic: seq<Byte> := [0x67, 0x6C, 0x54, 0x46]
  /** The ASCII bytes of "JSON", the chunk type written at offset 16 (never checked on read). */
  const JsonChunkType: seq<Byte> := [0x4A, 0x53, 0x4F, 0x4E]
  /** `struct.unpack_from("<4sII", data, 0)` reads twelve bytes. */
  const HeaderSize := 12
  const JsonLengthOffset := 12
  const JsonChunkStart := 20
  const U32Limit := 0x1_0000_0000

  /** The unsigned little-endian 32-bit integer stored at `off`. */
  function LeU32(data: seq<Byte>, off: nat): (r: nat)
    requires off + 4 <= |data|
    ensures r < U32Limit
  {
    var b0, b1, b2, b3 := data[off] as int, data[off + 1] as int, data[off + 2] as int, data[off + 3] as int;
    b0 + 0x100 * (b1 + 0x100 * (b2 + 0x100 * b3))
  }

  /** The four little-endian bytes of `n`. */
  function U32Le(n: nat): (r: seq<Byte>)
    requires n < U32Limit
    ensures |r| == 4
  {
    [n % 0x100, n / 0x100 % 0x100, n / 0x100 / 0x100 % 0x100, n / 0x100 / 0x100 / 0x100]
  }

  /** Reading back a written length gives the length. */
  lemma U32RoundTrip(pre: seq<Byte>, n: nat, post: seq<Byte>)
    requires n < U32Limit
    ensures LeU32(pre + U32Le(n) + post, |pre|) == n
  {
    var d := pre + U32Le(n) + post;
    assert d[|pre|..|pre| + 4] == U32Le(n);
    var q1 := n / 0x100;
    var q2 := q1 / 0x100;
    var q3 := q2 / 0x100;
    assert n == n % 0x100 + 0x100 * q1;
    assert q1 == q1 % 0x100 + 0x100 * q2;
    assert q2 == q2 % 0x100 + 0x100 * q3;
  }

  function Min(a: int, b: int): int {
    if a <= b then a else b
  }

  /**
   * The bytes of the first chunk: the header must be readable and start with
   * "glTF", the length is read at offset 12, and the slice starting at offset 20
   * is cut short at the end of the buffer, as Python slicing does.
   */
  function JsonChunk(data: seq<Byte>): (r: Py<seq<Byte>>)
    ensures r.Ok? <==> |data| >= JsonLengthOffset + 4 && data[..4] == Magic
    ensures |data| < HeaderSize ==> r == Err(StructError)
    ensures |data| >= HeaderSize && data[..4] != Magic ==> r == Err(BadMagic)
    ensures r.Ok? ==>
      var len := LeU32(data, JsonLengthOffset);
      && |r.value| == Min(len, |data| - Min(JsonChunkStart, |data|))
      && forall i :: 0 <= i < |r.value| ==> r.value[i] == data[JsonChunkStart + i]
  {
    if |data| < HeaderSize then Err(StructError)
    else if data[..4] != Magic then Err(BadMagic)
    else if |data| < JsonLengthOffset + 4 then Err(StructError)
    else
      var len := LeU32(data, JsonLengthOffset);
      var start := Min(JsonChunkStart, |data|);
      Ok(data[start..Min(JsonChunkStart + len, |data|)])
  }

  /** A Binary glTF file holding the JSON text `text` followed by `rest`. */
  function Glb(version: nat, text: seq<Byte>, rest: seq<Byte>): (r: seq<Byte>)
    requires version < U32Limit
    requires JsonChunkStart + |text| + |rest| < U32Limit
    ensures |r| == JsonChunkStart + |text| + |rest|
    ensures r[..4] == Magic
    ensures r[4..8] == U32Le(version)
    ensures r[8..12] == U32Le(|r|)
    ensures r[JsonLengthOffset..JsonLengthOffset + 4] == U32Le(|text|)
    ensures r[16..JsonChunkStart] == JsonChunkType
    ensures r[JsonChunkStart..JsonChunkStart + |text|] == text
    ensures r[JsonChunkStart + |text|..] == rest
  {
    Magic + U32Le(version) + U32Le(JsonChunkStart + |text| + |rest|)
    + U32Le(|text|) + JsonChunkType + text + rest
  }

  /** The chunk read from a written file is exactly the JSON text written. */
  lemma ChunkRoundTrip(version: nat, text: seq<Byte>, rest: seq<Byte>)
    requires version < U32Limit
    requires JsonChunkStart + |text| + |rest| < U32Limit
    ensures JsonChunk(Glb(version, text, rest)) == Ok(text)
  {
    var d := Glb(version, text, rest);
    var pre := Magic + U32Le(version) + U32Le(JsonChunkStart + |text| + |rest|);
    assert d == pre + U32Le(|text|) + (JsonChunkType + text + rest);
    U32RoundTrip(pre, |text|, JsonChunkType + text + rest);
    assert d[..4] == Magic;
    assert d[JsonChunkStart..JsonChunkStart + |text|] == text;
  }

  /** A file cut short inside its JSON chunk yields the part of the text that is there. */
  lemma ChunkOfTruncated(version: nat, text: seq<Byte>, rest: seq<Byte>, n: nat)
    requires version < U32Limit
    requires JsonChunkStart + |text| + |rest| < U32Limit
    requires JsonLengthOffset + 4 <= n <= JsonChunkStart + |text|
    ensures JsonChunk(Glb(version, text, rest)[..n]) == Ok(text[..if n <= JsonChunkStart then 0 else n - JsonChunkStart])
  {
    var d := Glb(version, text, rest);
    var pre := Magic + U32Le(version) + U32Le(JsonChunkStart + |text| + |rest|);
    assert d == pre + U32Le(|text|) + (JsonChunkType + text + rest);
    U32RoundTrip(pre, |text|, JsonChunkType + text + rest);
    assert d[..n][..4] == Magic;
    assert LeU32(d[..n], JsonLengthOffset) == LeU32(d, JsonLengthOffset);
    if n >= JsonChunkStart {
      assert d[JsonChunkStart..JsonChunkStart + |text|] == text;
      assert d[..n][JsonChunkStart..n] == d[JsonChunkStart..n];
      assert d[JsonChunkStart..n] == text[..n - JsonChunkStart];
    }
  }

  /** Anything whose first four bytes are not "glTF" is refused. */
  lemma RejectsBadMagic(data: seq<Byte>)
    requires |data| >= 4 && data[..4] != Magic
    ensures JsonChunk(data).Err?
    ensures |data| >= HeaderSize ==> JsonChunk(data) == Err(BadMagic)
  {
  }

  // ---------------------------------------------------------------------------
  // schema detection

  /** The two VRM schema generations. */
  datatype Version = V0x | V1 {
    /** The version tag the script reports. */
    function Tag(): string {
      match this
      case V0x => "0.x"
      case V1 => "1.0"
    }
    /** The key under `extensions` that marks this generation. */
    function Marker(): string {
      match this
      case V0x => "VRM"
      case V1 => "VRMC_vrm"
    }
  }

  /**
   * The version detection of `VRMFile.load`: `"VRM"` under `extensions` is
   * looked for first, then `"VRMC_vrm"`; the tests are Python `in` tests.
   */
  function DetectVersion(j: Json): (r: Py<Version>)
    ensures r.Ok? ==> j.JObj? && "extensions" in j.fields
    ensures r.Ok? ==> Contains(j.fields["extensions"], r.value.Marker()) == Ok(true)
    ensures r == Ok(V1) ==> Contains(j.fields["extensions"], "VRM") == Ok(false)
    ensures j.JObj? && "extensions" !in j.fields ==> r == Err(MetadataNotFound)
    ensures j.JObj? && "extensions" in j.fields ==>
      var ext := j.fields["extensions"];
      && (Contains(ext, "VRM") == Ok(true) ==> r == Ok(V0x))
      && (Contains(ext, "VRM") == Ok(false) && Contains(ext, "VRMC_vrm") == Ok(true) ==> r == Ok(V1))
      && (Contains(ext, "VRM") == Ok(false) && Contains(ext, "VRMC_vrm") == Ok(false) ==> r == Err(MetadataNotFound))
      && (Contains(ext, "VRM").Err? ==> r == Err(TypeError))
  {
    var hasExtensions :- Contains(j, "extensions");
    if !hasExtensions then Err(MetadataNotFound)
    else
      var ext :- Index(j, "extensions");
      var hasLegacy :- Contains(ext, "VRM");
      if hasLegacy then Ok(V0x)
      else
        if Contains(ext, "VRMC_vrm").value then Ok(V1) else Err(MetadataNotFound)
  }

  /** Detection on the usual shape: a top-level object whose `extensions` is an object. */
  /** A list of extension names is searched by element: `"VRM"` wins, then `"VRMC_vrm"`. */
  lemma DetectOnLists(names: seq<Json>)
    ensures DetectVersion(JObj(map["extensions" := JArr(names)])) ==
      if JStr("VRM") in names then Ok(V0x)
      else if JStr("VRMC_vrm") in names then Ok(V1)
      else Err(MetadataNotFound)
  {
  }

  lemma DetectOnObjects(top: map<string, Json>)
    ensures "extensions" !in top ==> DetectVersion(JObj(top)) == Err(MetadataNotFound)
    ensures "extensions" in top && top["extensions"].JObj? ==>
      var ext := top["extensions"].fields;
      && ("VRM" in ext ==> DetectVersion(JObj(top)) == Ok(V0x))
      && ("VRM" !in ext && "VRMC_vrm" in ext ==> DetectVersion(JObj(top)) == Ok(V1))
      && ("VRM" !in ext && "VRMC_vrm" !in ext ==> DetectVersion(JObj(top)) == Err(MetadataNotFound))
  {
  }

  /** The state of a `VRMFile` after `load()`: what was parsed, what was detected, what was reported. */
  datatype VrmFile = VrmFile(json: Option<Json>, version: Option<Version>, error: Option<PyError>)

  /**
   * `VRMFile.load` on the bytes of a file. `decode` stands for UTF-8 decoding,
   * `strip()` and `json.loads` together and is `None` where those raise.
   * Every failure is caught and reported; the parsed JSON is kept even when
   * no version is detected.
   */
  function Load(data: seq<Byte>, decode: seq<Byte> -> Option<Json>): (r: VrmFile)
    ensures r.version.Some? <==> r.error.None?
    ensures r.version.Some? ==> r.json.Some? && DetectVersion(r.json.value) == Ok(r.version.value)
    ensures r.json.Some? <==> JsonChunk(data).Ok? && decode(JsonChunk(data).value).Some?
    ensures JsonChunk(data).Err? ==> r == VrmFile(None, None, Some(JsonChunk(data).error))
    ensures r.json.Some? ==> r.json == decode(JsonChunk(data).value)
    ensures JsonChunk(data).Ok? && decode(JsonChunk(data).value).None? ==> r.error == Some(DecodeError)
    ensures r.json.Some? && DetectVersion(r.json.value).Err? ==>
      r.version.None? && r.error == Some(DetectVersion(r.json.value).error)
  {
    match JsonChunk(data)
    case Err(e) => VrmFile(None, None, Some(e))
    case Ok(chunk) =>
      match decode(chunk)
      case None => VrmFile(None, None, Some(DecodeError))
      case Some(j) =>
        match DetectVersion(j)
        case Ok(v) => VrmFile(Some(j), Some(v), None)
        case Err(e) => VrmFile(Some(j), None, Some(e))
  }

  /** A written VRM file loads back with the version its JSON declares. */
  lemma LoadWritten(version: nat, text: seq<Byte>, rest: seq<Byte>, decode: seq<Byte> -> Option<Json>, j: Json)
    requires version < U32Limit
    requires JsonChunkStart + |text| + |rest| < U32Limit
    requires decode(text) == Some(j)
    ensures Load(Glb(version, text, rest), decode).json == Some(j)
    ensures Load(Glb(version, text, rest), decode).version ==
      (if DetectVersion(j).Ok? then Some(DetectVersion(j).value) else None)
  {
    ChunkRoundTrip(version, text, rest);
  }
}
