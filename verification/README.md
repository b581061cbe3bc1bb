# VRM license listing and folder sorting, in Dafny

This project models the core of `list_license.py`, a command-line tool that
reads VRM avatar files (Binary glTF containers carrying a VRM 0.x or VRM 1.0
extension). The tool has three jobs:

- it reports each file's license and permission metadata in one record shape;
- in preparation mode it pools the distinct license values of a corpus into a
  `mapdata.json` scaffold;
- in sort mode it reads operator-written rules back from that document and
  chooses one destination folder per file.

The model keeps the script's decisions and drops its I/O.

Modules, in dependency order:

- `Wrappers`: `Option` and a `Result` that works with `:-`.
- `Json`: the JSON value tree as the script sees it after `json.loads`. It also
  defines Python's truthiness, `in`, `.get` and `[]` on those values. Each
  exception Python would raise becomes an `Err(PyError)`.
- `Text`: `str.strip()` (Python's whitespace set) and ASCII `str.lower()`.
  It also has the code-point order used by `sort_keys`, split on one
  character, join with a separator, and decimal digits.
- `Container`: `VRMFile.load`. It checks the 12-byte header and the "glTF"
  magic, reads the little-endian JSON length at offset 12, and slices the chunk
  from offset 20, clamped at the end of the buffer. It then detects the version
  by the `"VRM"` / `"VRMC_vrm"` markers, found with Python `in` on whatever
  `extensions` holds (a dict, a list or a string). The result is the state of the object
  after `load()`: a caught failure leaves an error behind, and the parsed JSON
  is kept even when no version is found.
- `Normalize`: `normalize_for_compare`, and `canonicalize` including the
  `json.dumps(sort_keys=True, ensure_ascii=False)` text it produces for lists
  and dicts.
- `Adapters`: `VRM0xMeta` and `VRM1Meta` (the unified 16-field record, the
  `"--"` sentinel, the redistribution value from the query of
  `otherPermissionUrl`, and the "Allowed" / "Not allowed" tri-states).
  It also covers the dispatch of `VRMParser.parse`, and the two ways the
  script reaches `meta`: indexing in the adapters and chained `.get` in the
  folder modes.
- `MapData`: preparation mode. It pools canonical values under the 13
  `LICENSE_KEYS`, skipping `None` and `""`. A key with a single value collapses
  to that value. The scaffold is `folder-1`, `folder-2` and `DoNotUse`, each
  with empty conditions.
- `Classifier`: sort mode. It reads the rules and sets the `DoNotUse` fallback
  apart. It evaluates one rule: every condition key the file has must match
  after normalisation, a list is an OR, and a rule testing no present key
  fails. The first firing rule with a truthy directory wins, otherwise the
  fallback, otherwise no move. The batch loop runs over all files.

## Model

| member | source | states |
|---|---|---|
| Json.Contains | list_license.py:157-160 | Python `in`: key membership on a dict, element equality on a list, substring on a string, `TypeError` on null, booleans and numbers |
| Json.InfixIffOccurs | list_license.py:158-160 | the substring test holds exactly when the key occurs at some position of the string |
| Json.Get | list_license.py:270 | `.get(key, default)` gives the stored value or the default, and `AttributeError` on anything that is not a dict |
| Json.Index | list_license.py:174 | `d[key]` succeeds exactly on a dict holding the key; a dict without it gives `KeyError`, a non-dict `TypeError` |
| Text.TrimStartSpec | list_license.py:100 | the result is a suffix of the input, everything removed is whitespace, and it does not start with whitespace |
| Text.TrimEndSpec | list_license.py:100 | the result is a prefix of the input, everything removed is whitespace, and it does not end with whitespace |
| Text.Strip | list_license.py:100 | `strip()` leaves a contiguous slice with only whitespace removed on either side, and the slice neither starts nor ends with whitespace |
| Text.StripIgnoresPadding | list_license.py:100 | adding whitespace on either side does not change the stripped text |
| Text.StripIsTrims | list_license.py:100 | `strip()` is the left strip followed by the right strip |
| Text.StripShape | list_license.py:100 | stripping the front and then the back leaves a slice padded only by whitespace, with no whitespace at either of its ends |
| Text.PaddedBySuffixPrefix | list_license.py:100 | what the two trims remove is whitespace on either side of what they keep |
| Text.SpacedSuffixCons | list_license.py:100 | one more whitespace character in front keeps a left-stripped result valid |
| Text.SpacedPrefixSnoc | list_license.py:100 | one more whitespace character behind keeps a right-stripped result valid |
| Text.TrimsIgnorePadding | list_license.py:100 | whitespace added on either side does not change the result of the two trims |
| Text.TrimStartSkipsPadding | list_license.py:100 | a whitespace prefix never survives left-stripping, whatever follows it |
| Text.StripOfStripped | list_license.py:100 | text that has no whitespace at either end is its own strip |
| Text.TrimStartAllSpace | list_license.py:100 | all-whitespace text strips to nothing from the left |
| Text.TrimEndAllSpace | list_license.py:100 | all-whitespace text strips to nothing from the right |
| Text.TrimStartSkipsSpace | list_license.py:100 | leading whitespace before any text is removed entirely |
| Text.TrimStartAppend | list_license.py:100 | left-stripping a concatenation strips into the second part only when the first part is all whitespace |
| Text.TrimEndPrepend | list_license.py:100 | right-stripping a concatenation strips into the first part only when the second part is all whitespace |
| Text.StripSkipsTrailingSpace | list_license.py:100 | trailing whitespace after the text does not survive stripping |
| Text.Lower | list_license.py:100 | `lower()` keeps the length and maps every character through ASCII lower-casing |
| Text.LowerKeepsSpace | list_license.py:100 | lower-casing never creates or removes whitespace |
| Text.LowerIdempotent | list_license.py:100 | lower-casing twice is lower-casing once |
| Text.StripLowerCommute | list_license.py:100 | stripping and lower-casing can be done in either order |
| Text.TrimStartLower | list_license.py:100 | left-stripping commutes with lower-casing |
| Text.TrimEndLower | list_license.py:100 | right-stripping commutes with lower-casing |
| Text.LeTotal | list_license.py:90 | the key order of `sort_keys` relates any two strings |
| Text.LeAntisymmetric | list_license.py:90 | two strings each ordered before the other are equal |
| Text.LeTransitive | list_license.py:90 | the key order is transitive |
| Text.LeastExists | list_license.py:90 | every non-empty key set has a least key |
| Text.LeastUnique | list_license.py:90 | the least key of a set is unique |
| Text.SortedKeys | list_license.py:90 | the keys of a dict in `sort_keys` order: a permutation of the key set, strictly increasing |
| Text.Least | list_license.py:90 | the key `sort_keys` writes first is in the dict and sorts before every other key |
| Text.ConsLeast | list_license.py:90 | the least key followed by the other keys in increasing order lists every key once, in increasing order |
| Text.Join | list_license.py:219 | joining no items gives the empty string, one item gives that item, and two or more give the first item, the separator and the join of the rest |
| Text.JoinSnoc | list_license.py:219 | appending an item to a non-empty list appends the separator and that item to the joined text |
| Text.Split | list_license.py:191-193 | splitting at a character gives at least one piece, and no piece holds the separator |
| Text.JoinSplit | list_license.py:191-193 | joining the pieces of a split with its separator restores the text |
| Text.SplitJoin | list_license.py:191-193 | splitting a join of separator-free pieces gives the pieces back |
| Text.SplitNoSep | list_license.py:191-193 | text without the separator splits into itself |
| Text.SplitPrefix | list_license.py:191-193 | splitting at the first separator peels off the separator-free head |
| Text.NatToString | list_license.py:90 | a number is written as a non-empty run of decimal digits, without a leading zero unless the number is 0 |
| Text.NatToStringRoundTrip | list_license.py:90 | reading those digits back gives the number |
| Text.IntToString | list_license.py:90 | `str(n)`: a non-negative number is digits whose decimal value is `n`; a negative one is a minus sign followed by digits whose value is `-n`; neither has a leading zero |
| Container.LeU32 | list_license.py:148 | the `<I` field is an unsigned 32-bit value |
| Container.U32Le | list_license.py:148 | a 32-bit value is written as four bytes |
| Container.U32RoundTrip | list_license.py:148 | four little-endian bytes written for `n` anywhere in a buffer read back as `n` |
| Container.JsonChunk | list_license.py:143-153 | the chunk is readable exactly when there are 16 bytes and the magic is "glTF"; fewer than 12 bytes is `struct.error`, a wrong magic a `ValueError`; the chunk is the bytes from offset 20, as many as the stored length asks for and the buffer still holds |
| Container.Glb | list_license.py:143-153 | a written container starts with the "glTF" magic, the version and the total length; the JSON length sits at offset 12 and the chunk type after it; the JSON text starts at offset 20, followed by the rest |
| Container.ChunkRoundTrip | list_license.py:143-153 | the chunk read from a written container is exactly the JSON text written |
| Container.ChunkOfTruncated | list_license.py:148-153 | a container cut short inside its JSON chunk yields the part of the text still present, as Python slicing does |
| Container.RejectsBadMagic | list_license.py:143-145 | anything not starting with "glTF" is refused, with `ValueError` once the header is readable |
| Container.DetectVersion | list_license.py:157-165 | with no `extensions` there is no version; otherwise Python `in` decides, whatever `extensions` holds: `"VRM"` found (as a key, a list element or a substring) means 0.x, else `"VRMC_vrm"` found means 1.0, else not found; an `extensions` that `in` cannot search is a `TypeError` |
| Container.DetectOnLists | list_license.py:157-165 | a list of extension names is searched element by element: `"VRM"` means 0.x, else `"VRMC_vrm"` means 1.0, else not found |
| Container.DetectOnObjects | list_license.py:157-165 | on objects: no `extensions` or neither marker means not found, `"VRM"` means 0.x even if `"VRMC_vrm"` is also present, `"VRMC_vrm"` alone means 1.0 |
| Container.Load | list_license.py:136-168 | a version is set exactly when no error was reported, and agrees with detection; the JSON is kept exactly when the chunk was read and decoded, and is then the decoding of that chunk, even if no version is found; a decoding failure is reported as such, a detection failure as detection's own error; a header failure leaves neither |
| Container.LoadWritten | list_license.py:136-165 | a written container loads back with its JSON and the version that JSON declares |
| Normalize.WordValue | list_license.py:101-105 | the words "true" and "false" become booleans and exactly the other texts stay text |
| Normalize.NormalizeForCompare | list_license.py:92-106 | non-strings pass through unchanged; a string becomes text or a boolean, and text results are already stripped, lower-cased and not a boolean word |
| Normalize.NormalizeText | list_license.py:99-105 | proof helper: on a string, the normalised value is the word mapping of its stripped, lower-cased form, which the case and padding lemmas build on |
| Normalize.NormalFormIsStable | list_license.py:100 | stripped, lower-cased text is unchanged by stripping or lower-casing again |
| Normalize.NormalizeIdempotent | list_license.py:92-106 | normalising twice is normalising once |
| Normalize.NormalizeIgnoresPadding | list_license.py:100 | surrounding whitespace never changes the normalised value |
| Normalize.NormalizeIgnoresCase | list_license.py:100 | texts equal up to letter case normalise alike |
| Normalize.NormalizeBooleanWords | list_license.py:101-104 | a string becomes `true` or `false` exactly when its stripped, lower-cased form is that word, and stays text otherwise |
| Normalize.Canonicalize | list_license.py:81-90 | the result is always hashable; hashable values stand for themselves; lists and dicts become their `json.dumps` text with sorted keys, bracketed `[...]` or `{...}` |
| Normalize.CanonicalizeIdempotent | list_license.py:81-90 | canonical values are fixed points |
| Normalize.ListAndItsTextCollide | list_license.py:86-90 | the list `[7]` and the string `"[7]"` share one canonical value, so the pool cannot tell them apart |
| Adapters.FirstValue | list_license.py:192-193 | the first `key=value` field with a non-empty value is chosen; none exists exactly when no field gives one |
| Adapters.ParamRoundTrip | list_license.py:192 | a written `name=value` field reads back as its name and value |
| Adapters.QueryRoundTrip | list_license.py:191-193 | reading a written query finds exactly the first non-empty value written under the key |
| Adapters.FieldsMatchWritten | list_license.py:192-193 | the fields of a written query select the same value as the written parameters |
| Adapters.Redistribution0x | list_license.py:188-194 | a missing or falsy URL gives "--"; a truthy non-string URL fails with `AttributeError`, as `urlparse` does; a non-empty URL string gives the first non-empty `redistribution` value of its query, or "--" when the query has none |
| Adapters.UrlQueryOf | list_license.py:191 | the query of `base?query` is `query` when there is no fragment and the base holds no `?` |
| Adapters.RedistributionFromUrl | list_license.py:188-194 | a URL `base?redistribution=value` gives `value` |
| Adapters.QueryOfOneParam | list_license.py:192-193 | a one-field query gives that field's value for its name |
| Adapters.RedistributionWithoutUrl | list_license.py:188-189 | no `otherPermissionUrl` means "--" |
| Adapters.Vrm0xInfo | list_license.py:177-203 | the 0.x record: tag "0.x", the file name, every column from its 0.x key with "--" when absent, and the redistribution column from the URL; it fails, with `AttributeError`, exactly when reading the URL fails |
| Adapters.TriState | list_license.py:223-240 | absent or `null` gives "--", a truthy value "Allowed", any other value "Not allowed", each exactly in its case |
| Adapters.TriStateKeepsThreeStates | list_license.py:223-227 | missing, `true` and `false` give three different texts |
| Adapters.Authors | list_license.py:218-219 | absent authors give "--"; a list joins exactly when every member is a string, and then gives the names joined with ", " (one author kept as is, none giving ""), and otherwise fails with `TypeError`; a string is joined character by character; a dict is not modelled; `null`, booleans and numbers fail with `TypeError` |
| Adapters.AuthorsJoined | list_license.py:219 | two authors come out as `a, b` |
| Adapters.AuthorAppended | list_license.py:219 | one more author adds ", " and that name to the end of the column |
| Adapters.Texts | list_license.py:219 | the names of a list of strings, one per member and in order |
| Adapters.Chars | list_license.py:219 | a string iterates as its one-character strings, in order |
| Adapters.Vrm1Info | list_license.py:212-244 | the 1.0 record: tag "1.0", the file name, the joined authors, the three tri-states, the 1.0 keys for the other columns, and "--" for contact, reference and the two URLs; it fails exactly when joining the authors fails, with that error |
| Adapters.AdapterMeta | list_license.py:171-174 | the adapters' `meta` is found exactly when `extensions`, the marker and `meta` are each present and the last is a dict, and is then that dict; a non-dict document gives `TypeError`, a missing `extensions` `KeyError` |
| Adapters.MetaByGet | list_license.py:270-272 | the chained `.get` succeeds exactly when the document, a present `extensions` and a present marker entry are dicts, and fails with `AttributeError` otherwise; a missing `extensions` or marker gives `{}`; a present marker dict gives its `meta`, or `{}` without one |
| Adapters.MetaByGetAgrees | list_license.py:171-174 | wherever the adapters find `meta` by indexing, the chained `.get` of the folder modes finds the same dict |
| Adapters.Parse | list_license.py:249-255 | no version gives no record; a version without JSON fails with `TypeError`; a failing `meta` lookup fails with that lookup's error; a record carries the detected version's tag and the file name, and equals the record of that version's adapter |
| MapData.Contribution | list_license.py:273-278 | a key contributes exactly when it is a license key present with a value other than `None` and `""`, and what it contributes is the canonical form of that value; nothing else contributes |
| MapData.AddMeta | list_license.py:273-282 | a dict adds its contributions to the sets of their keys and keeps everything pooled; anything else has no `.items()` |
| MapData.CollectValues | list_license.py:264-282 | pooling succeeds exactly when every recognised file's `meta` is found and is a dict; every pooled key is a license key with a non-empty set; a canonical value is pooled under a key exactly when some recognised file contributes it |
| MapData.PoolFromContents | list_license.py:265-282 | the loop's pool holds what it started with plus what each file contributes, and nothing else |
| MapData.PoolFromSucceeds | list_license.py:265-282 | the loop fails exactly when some recognised file's `meta` is missing or not a dict, whatever was pooled before |
| MapData.ListExtensionsStopPreparation | list_license.py:157-159 | a file whose `extensions` is a list naming `"VRM"` is detected as 0.x, and preparation mode then fails with `AttributeError` when it calls `.get` on that list (line 270) |
| MapData.ForallSplit | list_license.py:265 | every element satisfies a test exactly when the head and every element of the tail do |
| MapData.SomeFileSplit | list_license.py:265 | some file contributes exactly when the first file does or some later one does |
| MapData.ExistsSplit | list_license.py:265 | some element satisfies a test exactly when the head or some element of the tail does |
| MapData.PlainGltfFirstAborts | list_license.py:268-273 | as written, a corpus whose first file is plain glTF stops with an unbound `meta`; the corrected loop pools nothing from it |
| MapData.MergeAbsorbed | list_license.py:273-282 | adding a `meta` whose values are already pooled leaves the pool unchanged |
| MapData.MergeNothingNew | list_license.py:279-282 | merging entries the pool already holds leaves it unchanged |
| MapData.MergeKeepsAbsorbed | list_license.py:273-282 | pooling more files keeps every value already absorbed |
| MapData.AsWrittenMatchesWhenOk | list_license.py:265-282 | whenever the loop as written succeeds, re-adding the previous `meta` changes nothing, and it pools what the corrected loop pools |
| MapData.AsWrittenAgreesWhenItFinishes | list_license.py:265-282 | on every corpus where the script as written finishes, its pool equals the corrected pool |
| MapData.SingletonUnique | list_license.py:287-288 | a one-element set has one element |
| MapData.TheElement | list_license.py:288 | the chosen value is the only member of the set |
| MapData.Collapse | list_license.py:284-290 | every pooled key appears; one distinct value is written as that value, several as all of them |
| MapData.PrepareMapData | list_license.py:258-312 | the document exists exactly when pooling succeeds, and otherwise fails with pooling's error; `unsort.target` is the collapsed pool over license keys only; `sorted` is `folder-1`, `folder-2` and `DoNotUse` in that order, each with empty conditions |
| MapData.MappingsJson | list_license.py:297-310 | the `sorted` list holds, for each rule in order, an object with exactly the keys `directory` and `target` carrying the rule's destination and conditions |
| Classifier.ReadMapping | list_license.py:326-328 | an entry must be a dict; its directory is `directory` or `None`, its conditions `target` or `{}` |
| Classifier.ReadMappings | list_license.py:321-331 | every entry must be a dict, and each is read in order |
| Classifier.RulesOf | list_license.py:321 | a missing `mapdata` or `sorted` gives no rules; a list in `sorted` is read entry by entry; an empty string or empty object gives no rules and any other string or object fails with `AttributeError`; `null`, booleans and numbers fail with `TypeError`; a non-dict document or section fails with `AttributeError` |
| Classifier.RulesRoundTrip | list_license.py:297-321 | the rules written in preparation mode are the rules sort mode reads back |
| Classifier.SplitRules | list_license.py:323-331 | ordinary rules are never fallback-shaped; the fallback is a `DoNotUse` entry without conditions taken from the list, and exists exactly when one is there |
| Classifier.SplitKeepsOrder | list_license.py:326-331 | the ordinary rules are exactly the other entries, in stored order |
| Classifier.FilterSnoc | list_license.py:326-331 | appending an entry appends it to the ordinary rules unless it is fallback-shaped |
| Classifier.FallbackIsDoNotUse | list_license.py:328 | any fallback found points at `DoNotUse` |
| Classifier.EvaluateRule | list_license.py:349-371 | the condition loop keeps the rule exactly when some condition key is present in `meta` and every present one matches |
| Classifier.RuleOutcome | list_license.py:346-372 | empty conditions skip the rule; non-dict conditions fail with `AttributeError`; conditions on a dict `meta` give the rule's match; a `null`, boolean or number `meta` fails with `TypeError`; a string or list `meta` fails with `TypeError` exactly when some condition key is found in it, and otherwise does not match |
| Classifier.Decide | list_license.py:345-392 | a destination is either the first rule that fires after only passing rules, or the fallback after all rules pass; when every rule passes the fallback decides; no destination means every rule passed and no usable fallback exists |
| Classifier.ShiftPassing | list_license.py:345-382 | behind a passing first rule, what holds of the remaining rules holds of all rules |
| Classifier.ShiftFirstFiring | list_license.py:345-382 | a first firing rule among the remaining rules is the first firing rule overall when the first rule passes |
| Classifier.ShiftAllPass | list_license.py:345-382 | a passing first rule and passing remaining rules make every rule pass |
| Classifier.UnshiftAllPass | list_license.py:345-382 | when every rule passes, every remaining rule passes |
| Classifier.DecideSkipsPassing | list_license.py:345-382 | a passing first rule hands the decision to the remaining rules |
| Classifier.DecideFailsAtFirstFailing | list_license.py:345-382 | a file makes the rule loop fail exactly when a failing rule is met before any rule fires, and the failure is that rule's |
| Classifier.ShiftFirstFailing | list_license.py:345-382 | behind a passing first rule, the first failing rule overall is the first failing rule of the remaining rules |
| Classifier.DropFirstFailing | list_license.py:345-382 | the first failing rule is never a passing first rule, so it is among the remaining rules |
| Classifier.AddFirstFailing | list_license.py:345-382 | a first failing rule among the remaining rules is the first failing rule overall when the first rule passes |
| Classifier.AddPassingHead | list_license.py:345-382 | an element reached through passing elements of the tail is reached through passing elements of the whole list, one position later |
| Classifier.DropPassingHead | list_license.py:345-382 | an element reached through passing elements, when the head is not such an element, is reached the same way in the tail, one position earlier |
| Classifier.FirstMatchWins | list_license.py:372-382 | the first rule that fires decides, whatever follows it |
| Classifier.ShadowedBySubset | list_license.py:351-372 | a rule whose conditions are among a later firing rule's, and which tests a key the file has, matches too |
| Classifier.EarlierRuleWins | list_license.py:345-382 | of two rules that both fire, the earlier one's directory is chosen |
| Classifier.NoPresentKeyNeverMatches | list_license.py:369-371 | a rule none of whose keys the file has never matches |
| Classifier.EmptyRuleNeverMatches | list_license.py:346-348 | a rule without conditions never fires |
| Classifier.AbsentKeyIgnored | list_license.py:352 | a condition on a key the file lacks changes nothing |
| Classifier.NullValueFails | list_license.py:355-357 | a present key whose value is `None` makes the rule fail |
| Classifier.ListConditionIsOr | list_license.py:360-364 | a list of non-list conditions matches exactly when one member matches |
| Classifier.MatchIgnoresCaseAndPadding | list_license.py:358-368 | case and surrounding whitespace do not matter in a comparison |
| Classifier.SingleConditionRuleChosen | list_license.py:345-382 | a first rule asking for one value sends a file whose value differs only in case and padding to its directory |
| Classifier.FallbackOnlyWhenNothingFires | list_license.py:383-392 | when every rule passes, the fallback's directory is chosen, or nothing without a fallback |
| Classifier.ChooseDestination | list_license.py:343-392 | the rule loop, including its early exits, chooses what `Decide` chooses |
| Classifier.ClassifyFile | list_license.py:336-345 | files without truthy JSON or without a version are left where they are; for the others a failing `meta` lookup is the file's failure, and otherwise the rules decide on the `meta` found |
| Classifier.SortFiles | list_license.py:318-392 | unreadable rules fail before any file; otherwise each file in turn gets the destination the rules choose, until the first failing file, which is the next one |
| Classifier.ClassifiedSnoc | list_license.py:333-392 | one more classified file extends the recorded destinations by its destination |
| Classifier.SnocRelated | list_license.py:333-392 | a relation holding pairwise on a prefix and on the next pair holds on the prefix extended by one |
| Classifier.SortWith | list_license.py:333-392 | every recorded destination is the destination chosen for that file, all files are covered unless one failed, and that one is the file after the last recorded |
| Classifier.ScaffoldSplit | list_license.py:297-331 | the unedited scaffold separates into its two folder rules and the `DoNotUse` fallback |
| Classifier.ScaffoldSendsAllToDoNotUse | list_license.py:292-392 | with the unedited scaffold, every recognised file goes to `DoNotUse` |

## Left out

- File I/O, `glob`, `argparse`, `main`, the localisation messages, console and CSV output, `os.makedirs` and `shutil.move`. They are effects or presentation, not decisions. Sort mode's result is the list of chosen destinations, not the moves.
- UTF-8 decoding, `strip()` of the raw JSON text and `json.loads`. They are a parameter `decode` of `Container.Load` that may fail, not a model of a JSON parser.
- Floating-point JSON numbers. Numbers are integers, so Python's `1 == 1.0` inside sets and comparisons is not modelled.
- Python's `True == 1` and `False == 0`. Booleans and numbers are distinct JSON values here, so a pooled `true` and `1` stay two values, and `Classifier.ValueMatches` never equates a boolean with a number, where Python's sets and `==` would.
- Dict insertion order: objects are maps. Iteration order matters in only two places. In `", ".join` over a dict of authors, the object case is `Err(Unsupported)`. In the order of keys in the written `mapdata.json`, which does not affect any result.
- The order of the list written for several pooled values. Python's set order is arbitrary, so `Several` holds the set.
- `urllib.parse` details beyond the query/fragment split: percent-decoding, `+` as space, `;` handling, control-character stripping and the `ValueError` for malformed IPv6 hosts.
- Unicode case mapping beyond ASCII in `str.lower()`.
- `os.path.basename` of the path: the file name is a parameter of `Adapters.Parse`.
- The digit limit on converting very large integers to text, and lone surrogates in `json.dumps`.
- Classifier.Decide: a rule or fallback whose truthy `directory` is not a string is still returned as the destination. The script would fail on it in `os.path.exists`, `os.makedirs` or `os.path.join` (list_license.py:374-378), which are moves and not modelled.
- Container.JsonChunk: the version and total-length fields and the chunk type are read or skipped but never checked, so they appear only in `Container.Glb`.

Two places where the code differs from its own description:

- The separating loop keeps the LAST `DoNotUse` entry without conditions as the fallback. It drops earlier ones entirely, so they are not ordinary rules either. This is not a "first" rule.
- A 0.x key present with value `null` is reported as `null`, not as "--". `.get` returns the stored `None`.

## Findings

| source | as written | input that shows it | evidently intended | confidence | as-written member | corrected member |
|---|---|---|---|---|---|---|
| list_license.py:268-273 | preparation mode reads `meta` for every file whose JSON is truthy, but assigns it only when a version was detected | a corpus whose first file is a plain glTF file (JSON with no VRM marker): `meta` is unbound and `UnboundLocalError` stops the run; a later such file silently re-adds the previous file's values | files without a detected version are skipped, as sort mode does at line 336 | not executed | MapData.CollectValuesAsWritten (shown by MapData.PlainGltfFirstAborts) | MapData.CollectValues (MapData.AsWrittenAgreesWhenItFinishes proves both agree whenever the code as written finishes) |
