# amuri URI grammar in Dafny

This project models the parsing core of `amuri`, a Rust library that
addresses production assets with URIs such as
`asset://dev01.rd.9999/bob/model/hi/maya_model?version=current&create=true#main`.
`parse_uri` turns such a text into an `AssetModel`. The model holds the scheme,
the level (show, show.sequence or show.sequence.shot), the asset name,
department, subcontext and snapshot type, an optional version, an optional
key and a create flag. Each segment has its own nom parser. The name,
resource, query and key parsers share one letter-led rule: start with a
letter, continue with letters, digits or `_`, and check the last character.
The sequence and shot of a three-part level are level items, which may
also start with a digit, and the scheme is one of four fixed words.

The model states each parser as a pure Dafny function over `string`. nom's
`IResult` is a datatype `Ok(rest, value) | Err(rest, kind)`. The nom
combinators the grammar uses (`tag`, `none_of`, `terminated`, `opt`,
`all_consuming`, `alpha1`, `alphanumeric1` and the `split_at_position`
scanners) are functions whose contracts say what they consume and where
they fail. The `c as u8` casts in the body-character tests keep only the
low byte, and are modelled as such (`Utils.ByteOf`, `Utils.ByteOfTruncates`).

The modules follow the source files:

- `Nom` (combinators), `Utils` (src/parse/utils.rs) and `Resource` (src/parse/resource.rs, plus the letter-led shape shared with the name parsers);
- `ContainerName`, `Department`, `Subcontext`, `SnapshotType` and `Hashkey` (the per-segment parsers);
- `Levels` (src/level.rs) and `LevelParser` (src/parse/level.rs);
- `Query` (src/parse/query.rs), `Schemes` and `SchemeParser` (src/scheme.rs, src/parse/scheme.rs) and `Versions` (src/version.rs);
- `Errors` (the parse variants of src/errors.rs) and `AssetModels` (the result record);
- `Uri` (`parse_uri`), `UriProperties` (its round trip and error reporting) and `UriExamples` (the cases of its tests).

The main results:

- **Round trips.** Every grammar-valid asset model, written as its canonical URI, parses back to itself (`UriProperties.UriRoundTrip`). The same holds for every layer below it: resource, names, level, query, key, scheme and path.
- **Errors.** Each failure of the grammar is reported at the right place: a non-letter char, a trailing underscore, or the raw nom error (`UriProperties.UriAlphaError`, `UriVerifyError`, `UriOtherError`).
- **Version.** A version number can never come out of a URI, because query values must start with a letter (`UriProperties.UriVersionNeverNumber`).
- **Query flags.** The last `version` and `create` pairs decide the version and the flag (`UriProperties.UriQueryFlags`).

## Model

| member | source | states |
|---|---|---|
| Nom.MatchTag | src/parse/scheme.rs:8-9 | `tag(t)` succeeds exactly when the input starts with `t`, consumes exactly `t`, and otherwise fails with `Tag` at the unchanged input |
| Nom.MatchNoneOf | src/parse/level.rs:30-32 | `none_of(cs)` succeeds exactly on a non-empty input whose first char is not in `cs`, consuming that one char; otherwise `NoneOf` at the input |
| Nom.Terminated | src/parse/container_name.rs:48-50 | `terminated(p, tag(t))` keeps `p`'s error; it succeeds iff `p` does and `p`'s rest starts with `t`, with `p`'s value and the text after `t`; otherwise `Tag` at `p`'s rest |
| Nom.Opt | src/parse/uri.rs:27-28 | `opt` never fails: `Some` of the value and its rest on success, `None` with the input untouched on failure |
| Nom.AllConsuming | src/parse/uri.rs:20-29 | `all_consuming` succeeds iff the inner parser succeeds with nothing left; leftover text is an `Eof` error at that text; inner errors pass through |
| Utils.ByteOfTruncates | src/parse/utils.rs:22 | the `as u8` cast keeps the low eight bits: an ASCII char is its own byte, and any char is its byte plus a multiple of 256 |
| Utils.ByteTestsOnChars | src/parse/utils.rs:5-13 | on ASCII, `is_underscore` is exactly `_`, `is_alphabetic` and `is_digit` exactly the ASCII letters and digits, and `is_valid_body_char` exactly a letter, digit or `_`; on any char the body test sees only the low byte |
| Utils.ClassInclusion | src/parse/utils.rs:11-13 | a letter is a letter-or-digit, and a letter-or-digit is a valid body char |
| Utils.RunLength | src/parse/utils.rs:28-34 | the maximal run of a class: every char before it is in the class and the char at it is not |
| Utils.RunLengthUnique | src/parse/utils.rs:28-34 | any split into class chars followed by a char outside the class (or nothing) is the run length: the maximal run is unique |
| Utils.RunLengthConcat | src/parse/utils.rs:28-34 | a class run followed by a text that cannot continue it scans to exactly that run |
| Utils.RunLengthSplit | src/parse/utils.rs:28-34 | scanning a run in two pieces gives the same length as scanning it at once |
| Utils.SplitAtPosition | src/parse/utils.rs:33 | `split_at_position_complete` never fails; it splits the input into a class run and a rest that cannot continue it |
| Utils.SplitAtPosition1 | src/parse/utils.rs:21-24 | `split_at_position1_complete` fails with the given kind at the input exactly when no class char leads; otherwise it is the same split as the zero-or-more scan, non-empty |
| Utils.ValidBody0 | src/parse/utils.rs:28-34 | `valid_body0` never fails and takes the longest prefix whose chars' truncated bytes are letters, digits or `_` |
| Utils.ValidBody1 | src/parse/utils.rs:16-25 | `valid_body1` fails iff the input is empty or starts with a non-body char, and then only with `Alpha` at the input; otherwise it succeeds, agrees with `valid_body0` and takes at least one char |
| Utils.Alpha1 | src/parse/resource.rs:7 | `alpha1` fails with `Alpha` at the input iff no ASCII letter leads; otherwise it takes the maximal letter run |
| Utils.Alphanumeric1 | src/parse/level.rs:18 | `alphanumeric1` fails with `AlphaNumeric` at the input iff no ASCII letter or digit leads; otherwise it takes the maximal run |
| Utils.LeadThenBody | src/parse/resource.rs:7-10 | after a leading letter (or letter-or-digit) run, `valid_body0` takes exactly the rest of the maximal body run |
| Utils.ValidBody1Concat | src/parse/utils.rs:16-25 | round trip: a non-empty body run followed by a non-body char (or nothing) is exactly what `valid_body1` takes |
| Utils.ValidBody0Unique | src/parse/utils.rs:28-34 | any split of the input into body chars and a non-body rest is the split `valid_body0` returns |
| Utils.BodyCharExamples | src/parse/utils.rs:53-67 | `_` is an underscore and `a` is not; `abc09_` are body chars and `-$! ,./?\|` are not |
| Utils.Body1ScanExample | src/parse/utils.rs:72 | `valid_body1_parser("abc_123-")` takes `abc_123` and leaves `-` |
| Utils.Body1EmptyScanExample | src/parse/utils.rs:73-76 | `valid_body1_parser("-abc_123-")` fails with `Alpha` at the whole input |
| Utils.Body0ScanExample | src/parse/utils.rs:81 | `valid_body0_parser("abc_123-")` takes `abc_123` and leaves `-` |
| Utils.Body0EmptyScanExample | src/parse/utils.rs:82 | `valid_body0_parser("-abc_123-")` succeeds with an empty value and the whole input left |
| Resource.DefaultAccepted | src/parse/resource.rs:8-10 | the stand-in char each letter-led parser uses for an empty body run passes that parser's own check |
| Resource.LetterLedSegment | src/parse/container_name.rs:38-44 | the shared `alpha1` then checked `valid_body0` shape: the value is a prefix of the input, and it fails with `Alpha` at the input iff no letter leads, otherwise only with `Verify` |
| Resource.LetterLedScans | src/parse/resource.rs:7-10 | the two scans take the maximal letter run and then the rest of the maximal body run, and the check passes iff there is no body run or its last char is accepted |
| Resource.LetterLedAllLetters | src/parse/container_name.rs:38-44 | a letters-only run is accepted whole, whatever the check |
| Resource.LetterLedRejected | src/parse/container_name.rs:38-44 | a body run whose last char fails the check gives `Verify` at the text after the letters |
| Resource.LetterLedAccepted | src/parse/container_name.rs:38-44 | a body run whose last char passes gives the whole body run |
| Resource.LetterLedSpec | src/parse/resource.rs:6-12 | the parser in one scan: `Alpha` at the input when no letter leads, `Verify` after the letters when the run's last char fails, otherwise the whole maximal body run |
| Resource.LetterLedSound | src/parse/resource.rs:6-12 | a success returns a well-formed token that the rest cannot extend, and a `Verify` error points after the letters of a run whose last char fails the check |
| Resource.LetterLedOkSound | src/parse/resource.rs:6-12 | every value returned is a well-formed token for its check and the rest cannot extend it |
| Resource.LetterLedVerifySound | src/parse/resource.rs:8-10 | a `Verify` error sits after the letters of a run whose last char fails the check |
| Resource.LetterLedTokenSound | src/parse/resource.rs:6-12 | the maximal body run of an input that the parser accepts is a well-formed token |
| Resource.LetterLedConcat | src/parse/resource.rs:6-12 | round trip: a well-formed token followed by a non-body char (or nothing) parses to exactly that token |
| Resource.LetterLedTailRejected | src/parse/resource.rs:8-10 | a letter-led run ending in a refused char, then a non-body char, fails with `Verify` after its letters |
| Resource.ResourceIsSegment | src/parse/resource.rs:4-5 | a resource is exactly a letter-led token not ending in `_` |
| Resource.ParseResource | src/parse/resource.rs:6-12 | `parse_resource` returns a resource that the rest cannot extend; it fails with `Alpha` at the input iff no letter leads, otherwise with `Verify` after the letters |
| Resource.ResourceConcat | src/parse/resource.rs:6-12 | round trip: a resource followed by a non-body char (or nothing) parses back to itself |
| Resource.ResourceTrailingUnderscore | src/parse/resource.rs:8-10 | a letter-led run ending in `_` is refused with `Verify` after its letters |
| Resource.ResourceExample | src/parse/resource.rs:20-23 | `parse_resource("a123b")` takes the whole input |
| Resource.ResourceUnderscoreExample | src/parse/resource.rs:26-31 | `parse_resource("a123_")` fails with `Verify` at `123_` |
| ContainerName.NameIsSegment | src/parse/container_name.rs:38-44 | a name is a letter-led token whose last char's byte is not `_` |
| ContainerName.NameIsResource | src/parse/container_name.rs:38-44 | every name is a resource, and on ASCII text the two are the same |
| ContainerName.ParseNameNoslash | src/parse/container_name.rs:38-44 | `parse_name_noslash` returns a name that the rest cannot extend; `Alpha` at the input iff no letter leads, otherwise `Verify` after the letters |
| ContainerName.ParseName | src/parse/container_name.rs:48-50 | `parse_name` succeeds iff a name is followed by `/`, which it consumes; a missing `/` is `Tag` where the name ends |
| ContainerName.NameConcat | src/parse/container_name.rs:38-44 | round trip: a name followed by a non-body char parses back to itself |
| ContainerName.NameSlashConcat | src/parse/container_name.rs:48-50 | round trip: a name and `/` parse back to the name, leaving exactly what follows |
| ContainerName.NameTrailingUnderscore | src/parse/container_name.rs:40-42 | a letter-led run ending in `_` is refused with `Verify` after its letters |
| ContainerName.NameNoslashIsResourceOnAscii | src/parse/container_name.rs:38-44 | on ASCII input `parse_name_noslash` and `parse_resource` give the same result |
| ContainerName.AsciiTailChecksAgree | src/parse/container_name.rs:41 | for ASCII chars the byte test for `_` and the char test for `_` agree |
| ContainerName.NameNoslashDiffersOffAscii | src/parse/container_name.rs:41 | the truncating cast makes U+015F (low byte `_`) end a resource but not a name |
| ContainerName.NameExample | src/parse/container_name.rs:151-153 | `parse_name("fred/")` gives `fred` with nothing left |
| ContainerName.NameUnderscoreExample | src/parse/container_name.rs:170-175 | `parse_name("fred1_/")` fails with `Verify` at `1_/` |
| ContainerName.NameLeadingExamples | src/parse/container_name.rs:178-191 | names starting with `1` or `_` fail with `Alpha` at the whole input |
| ContainerName.ParseAssetNameUnterminated | src/parse/container_name.rs:12-17 | `parse_asset_name_` passes on `parse_resource`'s errors and refuses a resource ending in a digit with `Verify` at the whole input |
| ContainerName.ParseAssetName | src/parse/container_name.rs:20-22 | `parse_asset_name` succeeds iff the inner parser succeeds and `/` follows, returning an asset name; it keeps the inner parser's errors, and a missing `/` is `Tag` where the name ends |
| ContainerName.AssetNameSlashConcat | src/parse/container_name.rs:20-22 | round trip: an asset name and `/` parse back to the name |
| ContainerName.AssetNameDigitRejected | src/parse/container_name.rs:13-15 | a resource ending in a digit is refused with `Verify` at the whole input |
| ContainerName.AssetNameExample | src/parse/container_name.rs:61-64 | `parse_asset_name("fred/")` gives `fred` |
| ContainerName.AssetNameUnderscoreExample | src/parse/container_name.rs:66-71 | `parse_asset_name("fred_/")` fails with `Verify` at `_/` |
| ContainerName.AssetNameLeadingExample | src/parse/container_name.rs:74-79 | `parse_asset_name("_fred/")` fails with `Alpha` at the whole input |
| ContainerName.AssetNameDigitExample | src/parse/container_name.rs:82-87 | `parse_asset_name("fred1/")` fails with `Verify` at the whole input |
| ContainerName.ParseInstanceNameUnterminated | src/parse/container_name.rs:24-30 | `parse_instance_name_` returns a letter-led token that is letters only or ends in a digit; `Alpha` at the input iff no letter leads, otherwise `Verify` after the letters |
| ContainerName.ParseInstanceName | src/parse/container_name.rs:33-35 | `parse_instance_name` succeeds iff the inner parser succeeds and `/` follows, returning such a token; it keeps the inner parser's errors, and a missing `/` is `Tag` where the name ends |
| ContainerName.InstanceNameSlashConcat | src/parse/container_name.rs:33-35 | round trip: an instance name and `/` parse back to the name |
| ContainerName.InstanceNameNotLetter | src/parse/container_name.rs:25 | an instance name that does not start with a letter fails with `Alpha` at the input |
| ContainerName.InstanceNameExample | src/parse/container_name.rs:94-96 | `parse_instance_name("fred1/")` gives `fred1` |
| ContainerName.InstanceNameDigitExample | src/parse/container_name.rs:111-117 | `parse_instance_name("1fred1/")` fails with `Alpha` at the whole input |
| ContainerName.InstanceNameUnderscoreExample | src/parse/container_name.rs:127-132 | `parse_instance_name("fred_/")` fails with `Verify` at `_/` |
| ContainerName.InstanceNameUnderscoreLeadExample | src/parse/container_name.rs:134-139 | `parse_instance_name("_fred1/")` fails with `Alpha` at the whole input |
| ContainerName.InstanceNameAcceptsLetters | src/parse/container_name.rs:26-28 | as written, every name of letters only (which does not end in a digit) is accepted as an instance name |
| ContainerName.InstanceNameLettersExample | src/parse/container_name.rs:119-124 | as written, `parse_instance_name("fred/")` accepts `fred` |
| ContainerName.ParseDigitEndedNameUnterminated | src/parse/container_name.rs:24-30 | corrected: every instance name returned ends in a digit; `Alpha` at the input iff no letter leads, otherwise only `Verify` |
| ContainerName.DigitEndedNameVerifyAt | src/parse/container_name.rs:26-28 | corrected: a `Verify` error sits after the leading letters, as in the original |
| ContainerName.ParseDigitEndedName | src/parse/container_name.rs:33-35 | corrected: the returned name ends in a digit and is followed by `/` |
| ContainerName.DigitEndedNameSlashConcat | src/parse/container_name.rs:33-35 | corrected round trip: a digit-ended name and `/` parse back to the name |
| ContainerName.DigitEndedNameRefusesLetters | src/parse/container_name.rs:119-124 | corrected: a name of letters only is refused with `Verify` at its `/` |
| ContainerName.DigitEndedNameRefines | src/parse/container_name.rs:24-35 | the corrected parser fails wherever the original fails, and wherever it succeeds the original gives the same result; on any input where the two differ, the original's inner parser took a name of letters only |
| ContainerName.DigitEndedNameExample | src/parse/container_name.rs:94-96 | corrected: `fred1/` still gives `fred1` |
| ContainerName.DigitEndedNameLettersExample | src/parse/container_name.rs:119-124 | corrected: `fred/` fails with `Verify` at `/` |
| Department.ParseDepartment | src/parse/department.rs:5-7 | a department is a name closed by `/`: success iff the name parses and `/` follows; errors only `Alpha` at the input (no leading letter), `Verify` after the letters, or `Tag` where the name ends |
| Department.DepartmentConcat | src/parse/department.rs:5-7 | round trip: a name and `/` parse back to the department |
| Subcontext.ParseSubcontext | src/parse/subcontext.rs:5-7 | a subcontext is a name closed by `/`: success iff the name parses and `/` follows; errors only `Alpha` at the input (no leading letter), `Verify` after the letters, or `Tag` where the name ends |
| Subcontext.SubcontextConcat | src/parse/subcontext.rs:5-7 | round trip: a name and `/` parse back to the subcontext |
| SnapshotType.ParseSnapshotType | src/parse/snapshot_type.rs:5-7 | a snapshot type is a name with no closing `/` (nothing after it is consumed); errors only `Alpha` at the input (no leading letter) or `Verify` after the letters |
| SnapshotType.SnapshotTypeConcat | src/parse/snapshot_type.rs:5-7 | round trip: a name followed by a char that cannot continue it parses back to the snapshot type, leaving that char |
| Hashkey.ParseHashtag | src/parse/hashkey.rs:8-10 | a key is `#` then a resource; without a leading `#` it is `Tag` at the input, with one it is exactly `parse_resource` after the `#` |
| Hashkey.HashtagConcat | src/parse/hashkey.rs:8-10 | round trip: `#`, a resource and a non-body char give back the resource |
| Hashkey.HashtagExample | src/parse/hashkey.rs:19-21 | `#main` gives `main` |
| Hashkey.HashtagDigitExample | src/parse/hashkey.rs:23-28 | `#1main` fails with `Alpha` at `1main` |
| Hashkey.HashtagSymbolExample | src/parse/hashkey.rs:30-32 | `#ma$in` gives `ma` and leaves `$in` |
| Hashkey.HashtagUnderscoreExample | src/parse/hashkey.rs:34-39 | `#main_` fails with `Verify` at `_` |
| Hashkey.HashtagMissingExample | src/parse/hashkey.rs:9 | `main` without `#` fails with `Tag` at the input |
| Levels.PartsDetermineLevel | src/level.rs:7-19 | a borrowed level is determined by its variant and its parts |
| Levels.PartsDetermineOwned | src/level.rs:80-92 | an owned level is determined by its variant and its parts |
| Levels.ToOwned | src/level.rs:55-65 | `to_owned` keeps the variant and every part |
| Levels.ToOwnedBijective | src/level.rs:55-79 | `to_owned` (and the equal `From` conversion) is a bijection between borrowed and owned levels |
| Levels.ToString | src/level.rs:126-136 | the level string starts with the show, puts `.` after it for deeper levels, and ends with the sequence or the shot |
| Levels.ToStringInjective | src/level.rs:126-136 | for parts without `.`, different levels have different strings |
| Levels.ToStringExamples | src/level.rs:126-136 | `dev02`, `dev02.rd` and `dev02.rd.9999` are the strings of the three variants |
| Levels.CompareStringsEqual | src/level.rs:80 | string comparison says `Equal` exactly on equal strings |
| Levels.CompareStringsFlip | src/level.rs:80 | swapping the strings flips the comparison |
| Levels.CompareStringsLess | src/level.rs:80 | string comparison says `Less` exactly when the first string is lexicographically smaller |
| Levels.CompareLevels | src/level.rs:80-92 | the derived order puts every show before every sequence before every shot; within a variant it answers `Less` exactly when the part tuple is lexicographically smaller (`ListLexLess`, the first differing part decides by `LexLess`) |
| Levels.ComparePartsLess | src/level.rs:80-92 | comparing part tuples answers `Less` exactly on the independent list-lexicographic order |
| Levels.CompareStringsTransitive | src/level.rs:80-92 | the string order on parts is transitive |
| Levels.ComparePartsTransitive | src/level.rs:80-92 | the part-tuple order is transitive |
| Levels.CompareLevelsTransitive | src/level.rs:80-92 | the level order is transitive, so with `CompareLevelsLaws` it is a total order |
| Levels.ComparePartsEqual | src/level.rs:80-92 | comparing part tuples says `Equal` exactly on equal tuples |
| Levels.ComparePartsFlip | src/level.rs:80-92 | comparing part tuples is antisymmetric |
| Levels.CompareLevelsLaws | src/level.rs:80-92 | the level order says `Equal` exactly on equal levels and is antisymmetric |
| Levels.CompareLevelsByShow | src/level.rs:80-92 | levels of one variant with different shows are ordered by their shows |
| Levels.CompareLevelsExamples | src/level.rs:80-92 | a show sorts before any sequence, a shot after any sequence, and sequences with one show sort by their sequence |
| LevelParser.ResourceIsLevelItem | src/parse/level.rs:17-35 | every resource is a level item |
| LevelParser.ParseLevelItem | src/parse/level.rs:17-35 | `parse_level_item` fails with `AlphaNumeric` at the input iff no letter or digit leads, otherwise only with `NoneOf` |
| LevelParser.NoTrailingUnderscore | src/parse/level.rs:20-34 | the tail test of `parse_level_item`: it passes iff the body run is empty or does not end in `_`, and then returns the item and rest; otherwise it fails with `NoneOf` at `_` |
| LevelParser.LastCharTest | src/parse/level.rs:29-32 | `none_of("_")` on the last char fails exactly on `_`, with `NoneOf` at that char |
| LevelParser.LevelItemScans | src/parse/level.rs:18-19 | `alphanumeric1` then `valid_body0` take the maximal body run, and the leading run does not end in `_` |
| LevelParser.LevelItemUnderscore | src/parse/level.rs:20-33 | a body run ending in `_` fails with `NoneOf` at `_` |
| LevelParser.LevelItemWhole | src/parse/level.rs:17-35 | a body run not ending in `_` is taken whole |
| LevelParser.LevelItemSpec | src/parse/level.rs:17-35 | the level item in one scan: `AlphaNumeric` at the input, `NoneOf` at `_`, or the whole maximal body run |
| LevelParser.LevelItemSound | src/parse/level.rs:17-35 | every value is a level item that the rest cannot extend, and a `NoneOf` error always rests on `_` |
| LevelParser.LevelItemConcat | src/parse/level.rs:17-35 | round trip: a level item followed by a non-body char parses back to itself |
| LevelParser.LevelItemTrailingUnderscore | src/parse/level.rs:20-33 | any body run ending in `_` is refused with `NoneOf` at `_` |
| LevelParser.ParseShow | src/parse/level.rs:38-41 | `parse_show` is a show level holding a resource, and fails exactly as `parse_resource` does |
| LevelParser.ParseSeq | src/parse/level.rs:44-51 | `parse_seq` returns two resources joined by `.`, and fails as `parse_resource` does when no show can be read |
| LevelParser.ParseShot | src/parse/level.rs:53-57 | `parse_shot` returns a resource and two level items joined by `.`, and fails as `parse_resource` does when no show can be read |
| LevelParser.ParseLevelNoslash | src/parse/level.rs:59-62 | the level alternatives are tried in order: a shot that reads wins; otherwise a sequence that reads; otherwise the show's outcome. They fail iff the show fails, and then all three fail with that same error. A success is a valid level (resources and level items in their places) that reads back as the level's string. The rest does not start with a body char, though it may start with `.` |
| LevelParser.ParseLevel | src/parse/level.rs:60-62 | `parse_level` succeeds iff a level is followed by `/`, and then returns a valid level; a missing `/` is `Tag` where the level ends |
| LevelParser.LevelFromStr | src/level.rs:48-52 | `Level::from_str` fails iff no show can be read, with `LevelParsingFailure` carrying the input; otherwise it is the level the alternatives return |
| LevelParser.ShowThen | src/parse/level.rs:60-62 | when a show is followed by neither `.` nor a body char, shot and seq fail and show takes it |
| LevelParser.SequenceThen | src/parse/level.rs:60-62 | for `show.seq` followed by an end of level, shot fails and seq takes it |
| LevelParser.SeqConcat | src/parse/level.rs:44-47 | round trip: `show.seq` followed by a non-body char parses back to the sequence level |
| LevelParser.ShotThen | src/parse/level.rs:53-57 | round trip: `show.seq.shot` followed by an end of level parses back to the shot level |
| LevelParser.NoslashRoundTrip | src/parse/level.rs:59-62 | every valid level's string, followed by an end of level, parses back to that level |
| LevelParser.LevelRoundTrip | src/parse/level.rs:60-62 | every valid level's string and `/` parse back to that level, leaving exactly what follows |
| LevelParser.FromStrRoundTrip | src/level.rs:48-52 | `Level::from_str` inverts `to_string` on valid levels |
| LevelParser.ShotFirst | src/parse/level.rs:59-62 | the shot is tried first: `a.b.c` followed by an end of level gives the shot, whatever follows it |
| LevelParser.SequenceWhenShotRefused | src/parse/level.rs:53-62 | when the shot's third part is a body run ending in `_`, the shot fails, and the sequence `a.b` is taken with `.` and the third part left unread |
| LevelParser.LevelMissingSlash | src/parse/level.rs:60-62 | a valid level followed by something other than `/` fails with `Tag` where the level ends |
| LevelParser.ShowExample | src/parse/level.rs:72-75 | `parse_show("DEV01")` gives the show `DEV01` |
| LevelParser.ShowUpToPeriodExample | src/parse/level.rs:77-80 | `parse_show("DEV01.")` stops before the `.` |
| LevelParser.ShowUnderscoreExample | src/parse/level.rs:82-87 | `parse_show("DEV01_")` fails with `Verify` at `01_` |
| LevelParser.SeqExample | src/parse/level.rs:95-98 | `parse_seq("dev01.rd")` gives the sequence `dev01.rd` |
| LevelParser.SeqUpToPeriodExample | src/parse/level.rs:100-103 | `parse_seq("dev01.rd.")` stops before the last `.` |
| LevelParser.LevelItemDigitsExample | src/parse/level.rs:109-111 | `0001` is a level item |
| LevelParser.LevelItemMixedExample | src/parse/level.rs:114-116 | `a0001` is a level item |
| LevelParser.LevelItemSpaceExample | src/parse/level.rs:119-121 | `a 0001` gives `a` and leaves ` 0001` |
| LevelParser.LevelItemUnderscoreExample | src/parse/level.rs:124-129 | `0001_` fails with `NoneOf` at `_` |
| LevelParser.ShotExample | src/parse/level.rs:135-140 | `parse_shot("dev01.rd.0001")` gives that shot |
| LevelParser.LevelShotExample | src/parse/level.rs:146-159 | `parse_level("dev01.rd.9999/")` gives the shot |
| LevelParser.LevelSequenceExample | src/parse/level.rs:161-166 | `parse_level("dev01.rd/")` gives the sequence |
| LevelParser.LevelShowExample | src/parse/level.rs:168-170 | `parse_level("dev01/")` gives the show |
| LevelParser.LevelMissingSlashExample | src/parse/level.rs:173-177 | `parse_level("dev01 .rd/")` fails with `Tag` at ` .rd/` |
| LevelParser.FromStrShotExample | src/level.rs:147-150 | `Level::from_str("dev02.rd.9999")` is that shot |
| LevelParser.FromStrSequenceExample | src/level.rs:152-155 | `Level::from_str("dev02.rd")` is that sequence |
| LevelParser.FromStrShowExample | src/level.rs:157-160 | `Level::from_str("dev02")` is that show |
| LevelParser.FromStrFailureExample | src/level.rs:162-168 | `Level::from_str("_dev02.rd.9999")` is `LevelParsingFailure` of the input |
| LevelParser.ShotFirstExample | src/parse/level.rs:59-62 | `dev01.rd.9999.x/` reads as the shot `dev01.rd.9999` leaving `.x/`, so `parse_level` fails with `Tag` at `.x/` |
| LevelParser.SequenceFallbackExample | src/parse/level.rs:59-62 | `dev01.rd.9999_/` reads as the sequence `dev01.rd` leaving `.9999_/` |
| LevelParser.SequenceFallbackSlashExample | src/parse/level.rs:60-62 | `parse_level("dev01.rd.9999_/")` fails with `Tag` at `.9999_/` |
| LevelParser.FromStrSequenceFallbackExample | src/level.rs:48-52 | `Level::from_str("dev01.rd.9999_")` is the sequence `dev01.rd`, because the unread rest is ignored |
| Query.ToOwnedPair | src/parse/query.rs:24-31 | the owned pair has the same key and value |
| Query.ToOwnedPairInjective | src/parse/query.rs:24-31 | two pairs convert to the same owned pair exactly when they are equal |
| Query.ParsePair | src/parse/query.rs:34-35 | a lead, a resource key, `=` and a resource value; without the lead it is `Tag` at the input |
| Query.ParseAnd | src/parse/query.rs:33-37 | `parse_and` reads `&key=value` with resource key and value; without `&` it is `Tag` at the input |
| Query.ManyAnd | src/parse/query.rs:42 | `many0(parse_and)` never fails, reads valid pairs, and stops exactly where `parse_and` fails |
| Query.ParseQuery | src/parse/query.rs:39-47 | `parse_query` reads `?key=value` then every `&key=value`, returns at least one valid pair, and leaves a rest where no further pair can be read |
| Query.PairConcat | src/parse/query.rs:33-37 | round trip: a pair's text followed by a non-body char parses back to the pair |
| Query.ManyAndCons | src/parse/query.rs:42 | one more `&` pair in front adds that pair in front of the list |
| Query.ManyAndRoundTrip | src/parse/query.rs:42 | round trip: the text of any list of valid pairs, before a text that `parse_and` refuses, parses back to the list |
| Query.QueryCons | src/parse/query.rs:39-47 | the first pair leads the list that the `&` pairs continue |
| Query.QueryRoundTrip | src/parse/query.rs:39-47 | round trip: the query text of any non-empty list of valid pairs parses back to the list |
| Query.AndNeedsAmpersand | src/parse/query.rs:34 | text that does not start with `&` is refused by `parse_and` |
| Query.OnePairQuery | src/parse/query.rs:39-47 | a single valid pair's query text parses to that pair |
| Query.SinglePairQuery | src/parse/query.rs:39-47 | a single pair before a text that no `&` pair can start parses to that pair |
| Query.TwoPairQuery | src/parse/query.rs:39-47 | two valid pairs' query text parses to those pairs |
| Query.AndNonLetterKey | src/parse/query.rs:34 | `&` followed by a non-letter fails with `Alpha` after the `&` |
| Query.PairThenStrayAmpersand | src/parse/query.rs:42 | a stray `&` after the pairs ends the list and is left over |
| Query.QueryTrailingAmpersandExample | src/parse/query.rs:42 | `?version=current&1` reads one pair and leaves `&1` |
| Query.NonLetterValue | src/parse/query.rs:41 | a value that does not start with a letter makes the query fail with `Alpha` at the value |
| Query.QueryNumericValueExample | src/parse/query.rs:41 | `?version=1` fails with `Alpha` at `1` |
| Query.AndExample | src/parse/query.rs:80-84 | `&version=current` reads that pair |
| Query.QueryExample | src/parse/query.rs:56-60 | `?version=current` reads that pair |
| Query.QueryTwoPairsExample | src/parse/query.rs:63-74 | `?version=current&server=organic` reads both pairs in order |
| Schemes.Index | src/scheme.rs:3-10 | every scheme has its place in declaration order |
| Schemes.AllSchemesComplete | src/scheme.rs:3-10 | the declared schemes are all the schemes, each listed once |
| Schemes.Name | src/scheme.rs:3-10 | the snake-case name of a scheme is a non-empty lower-case word |
| Schemes.FromStr | src/scheme.rs:3-10 | parsing a name gives the scheme with that name, and none exactly when no scheme has it |
| Schemes.FromStrInvertsName | src/scheme.rs:34-40 | parsing inverts naming, and different schemes have different names |
| Schemes.NamesPrefixFree | src/scheme.rs:3-10 | no scheme's name is a prefix of another's |
| Schemes.NamesExample | src/scheme.rs:18-40 | the schemes in order are named asset, instance, render and plate, and each name parses |
| SchemeParser.SchemeToken | src/parse/scheme.rs:8 | the alternatives take the scheme name the input starts with; `Tag` at the input when none matches |
| SchemeParser.SchemeParse | src/parse/scheme.rs:6-11 | `scheme_parser` returns a known scheme name followed by `://` |
| SchemeParser.ParseScheme | src/parse/scheme.rs:14-19 | `parse_scheme` returns the scheme whose name and `://` begin the input; it only fails with `Tag` |
| SchemeParser.SchemeRoundTrip | src/parse/scheme.rs:14-19 | round trip: a scheme's name and `://` parse back to the scheme |
| SchemeParser.SchemeUnknown | src/parse/scheme.rs:6-11 | input that starts with no scheme name fails with `Tag` at the input |
| SchemeParser.SchemeNeedsSeparator | src/parse/scheme.rs:6-11 | a scheme name not followed by `://` fails with `Tag` after the name |
| SchemeParser.AssetSchemeExample | src/parse/scheme.rs:28 | `asset://` gives `asset` |
| SchemeParser.InstanceSchemeExample | src/parse/scheme.rs:29 | `instance://` gives `instance` |
| SchemeParser.RenderSchemeExample | src/parse/scheme.rs:30 | `render://` gives `render` |
| SchemeParser.PlateSchemeExample | src/parse/scheme.rs:31 | `plate://` gives `plate` |
| SchemeParser.SchemeTooLongExample | src/parse/scheme.rs:35 | `renderful://` fails, at `ful://` |
| SchemeParser.SchemeUnknownExample | src/parse/scheme.rs:36 | `frender://` fails, at the input |
| Versions.Unsigned | src/version.rs:16 | the digits are the input with at most one leading `+` removed |
| Versions.Accumulate | src/version.rs:16-18 | the checked digit loop succeeds iff all chars are digits and the value fits in 16 bits, and then returns that value |
| Versions.ParseU16 | src/version.rs:16-18 | `str::parse::<u16>` accepts exactly an optional `+` and one or more digits worth at most 65535, and returns their value |
| Versions.FromStr | src/version.rs:11-22 | `current` and `latest` are the keywords, a `u16` text is a number with its value, and anything else is `StrToIntError` of the input |
| Versions.NumberRoundTrip | src/version.rs:16-19 | every `u16` in decimal, with any leading zeros, parses back to itself |
| Versions.KeywordRoundTrip | src/version.rs:12-14 | the keyword texts parse back to their versions |
| Versions.WordVersion | src/version.rs:12-18 | a text starting with neither digit nor `+` is a version iff it is a keyword |
| Versions.VersionKeywordExamples | src/version.rs:31-38 | `current` and `latest` parse to their keywords |
| Versions.PaddedVersionExample | src/version.rs:41-43 | `0001` is version number 1 |
| Versions.WordVersionExamples | src/version.rs:45-51 | `fred` (and `next`) are `StrToIntError` of the input |
| Versions.VersionMaxExample | src/version.rs:16-19 | `65535` is a version number |
| Versions.VersionOverflowExample | src/version.rs:16-18 | `65536` overflows and is `StrToIntError` |
| Versions.SignedVersionExamples | src/version.rs:16-18 | `+7` is 7, while `+`, `-1` and the empty text are errors |
| Uri.ParseLeaf | src/parse/uri.rs:25-26 | subcontext and snapshot type: two names with a `/` between, whose rest cannot extend the last one |
| Uri.ParseTrunk | src/parse/uri.rs:24-26 | department, subcontext and snapshot type, each a name, joined by `/` in that order |
| Uri.ParseFolders | src/parse/uri.rs:23-26 | asset name, department, subcontext and snapshot type, each a name, joined by `/` in that order |
| Uri.ParsePath | src/parse/uri.rs:22-26 | the level and the four names: a valid path (`ValidPath`) whose canonical text is the text read, with a rest that cannot extend it |
| Uri.ParseTail | src/parse/uri.rs:27-29 | the optional query and key must take all the remaining text, which is their canonical text; anything else is `Eof` |
| Uri.ParseSegments | src/parse/uri.rs:19-29 | the whole input is the canonical text of the segments, with a valid path, a non-empty valid query and a resource key when present |
| Uri.Classify | src/parse/uri.rs:30-54 | an `Alpha` error reports the offending char and the input up to and including it, a `Verify` error splits the input where the error sits, and any other error (or an error at the end) is kept as the nom error |
| Uri.ClassifyKeepsPosition | src/parse/uri.rs:30-54 | two errors at different places never produce the same reported error |
| Uri.ParseBool | src/parse/uri.rs:64 | `str::parse::<bool>` accepts exactly `true` and `false` |
| Uri.CreateFlag | src/parse/uri.rs:63-65 | the flag is set iff the value is exactly `true` |
| Uri.ReadPairs | src/parse/uri.rs:56-67 | reading the pairs fails only with `StrToIntError` |
| Uri.ReadPairsSpec | src/parse/uri.rs:56-67 | the read fails iff some `version` value is not a version, with the first such value's error; otherwise the last `version` pair gives the version and the last `create` pair the flag |
| Uri.ParseUri | src/parse/uri.rs:18-71 | a success is the model whose scheme, valid path and resource key, with the query that was read, spell out the whole input, and whose version and flag are what reading that query's pairs gives; a segment failure is never a version error, and a version error only follows parsed segments |
| UriProperties.LeafRoundTrip | src/parse/uri.rs:25-26 | round trip for subcontext and snapshot type |
| UriProperties.TrunkRoundTrip | src/parse/uri.rs:24-26 | round trip for department, subcontext and snapshot type |
| UriProperties.FoldersRoundTrip | src/parse/uri.rs:23-26 | round trip for the four names |
| UriProperties.PathRoundTrip | src/parse/uri.rs:22-26 | round trip for a valid level and names, before a text that cannot extend them |
| UriProperties.QueryPartRoundTrip | src/parse/uri.rs:27 | the optional query reads back its canonical text before a key or the end |
| UriProperties.KeyPartRoundTrip | src/parse/uri.rs:28 | the optional key reads back its canonical text |
| UriProperties.TailRoundTrip | src/parse/uri.rs:27-29 | a valid query and key read back, leaving nothing |
| UriProperties.SegmentsRoundTrip | src/parse/uri.rs:19-29 | round trip: valid segments' canonical text parses back to them |
| UriProperties.CanonicalPairsRead | src/parse/uri.rs:56-67 | reading a model's canonical query pairs gives back its version and its create flag |
| UriProperties.UriRoundTrip | src/parse/uri.rs:18-71 | round trip: every valid asset model with a keyword version or none, written as its canonical URI, parses back to itself |
| UriProperties.ReadPairsKeywordsOnly | src/parse/uri.rs:56-62 | reading pairs whose values are resources never yields a version number |
| UriProperties.UriParsedModelValid | src/parse/uri.rs:18-71 | every model `parse_uri` returns has grammar-valid parts and a keyword version or none, so it is one `UriRoundTrip` writes back |
| UriProperties.UriVersionNeverNumber | src/parse/uri.rs:56-62 | a version number never comes out of `parse_uri` |
| UriProperties.UriQueryFlags | src/parse/uri.rs:56-67 | on success the last `version` pair gives the version and the last `create` pair the flag; after the segments parse, a failure is the error of the first bad `version` value |
| UriProperties.SegmentsAfterPath | src/parse/uri.rs:19-29 | once scheme and path parse, the segments succeed or fail exactly as the tail does |
| UriProperties.TailLeftOver | src/parse/uri.rs:20-29 | text that is neither a query nor a key is left over and reported as `Eof` |
| UriProperties.SegmentsNameError | src/parse/uri.rs:21-23 | once scheme and level parse, a name failure is the failure of the segments |
| UriProperties.UriSegmentsError | src/parse/uri.rs:30-54 | a segment failure is classified against the whole input |
| UriProperties.UriSchemeError | src/parse/uri.rs:50-53 | an unknown scheme is reported as the raw nom `Tag` error |
| UriProperties.UriOtherError | src/parse/uri.rs:50-53 | an error that is neither `Alpha` nor `Verify` is reported as the raw nom error |
| UriProperties.UriAlphaError | src/parse/uri.rs:31-42 | an `Alpha` error is reported with its char and the input up to and including that char |
| UriProperties.UriVerifyError | src/parse/uri.rs:43-49 | a `Verify` error is reported with the processed text and the remaining text |
| UriProperties.UriNameNotLetter | src/parse/uri.rs:31-42 | a name that does not start with a letter is reported as a non-letter char at that place |
| UriProperties.UriNameUnderscore | src/parse/uri.rs:43-49 | a name ending in `_` is reported as an unexpected underscore where its check failed |
| UriProperties.UriTailLeftOver | src/parse/uri.rs:50-53 | a valid path followed by neither a query nor a key fails with `Eof` at that text |
| UriExamples.VersionAndKeyExample | src/parse/uri.rs:77-91 | `...maya_model?version=current#main` gives the asset with version current and key main |
| UriExamples.VersionKeyAndCreateExample | src/parse/uri.rs:92-107 | `...?version=current&create=true#main` also sets the create flag |
| UriExamples.VersionNoKeyExample | src/parse/uri.rs:125-140 | `...?version=current` gives version current and no key |
| UriExamples.NoVersionNoKeyExample | src/parse/uri.rs:142-157 | the bare path gives no version and no key |
| UriExamples.BadSchemeExample | src/parse/uri.rs:158-165 | `assetf://...` is the nom `Tag` error at `f://dev01/bob/model/hi/maya_model` |
| UriExamples.NumericTailNotQuery | src/parse/uri.rs:108-123 | `?version=1#main` is not a query: `Alpha` at `1#main` |
| UriExamples.NumericTailNotKey | src/parse/uri.rs:108-123 | `?version=1#main` is not a key: `Tag` at the whole text |
| UriExamples.NumericVersionExample | src/parse/uri.rs:108-123 | `...?version=1#main` fails with `Eof` at `?version=1#main`, because `1` is not a resource |

## Left out

- The version/path resolver, the HTTP client, the command line, environment lookups and file-system access are outside the grammar. They are left out, together with the `AmuriError` variants that only they produce.
- The error strings are left out. `UriParsingError` keeps the nom error's rest and kind, where the source keeps its `Debug` text. The `Display` messages of the errors are not modelled.
- `AssetModel::new` and `AssetModel::from_strs` are not part of this model. `AssetModels.AssetModel` is the record of the nine values `parse_uri` passes to `AssetModel::new`, in that order, with the level stored owned.
- `parse_level_noslash`, called by `Level::from_str` (src/level.rs:48-52), is not part of this model's source. It is modelled as `parse_level` without the closing `/`, `alt((parse_shot, parse_seq, parse_show))`, which is what the tests of `Level::from_str` require.
- The `Level` and `LevelOwned` constructors (`show`, `seq`, `sequence`, `shot`) are the datatype constructors. `parse_sequence` is the same function as `parse_seq`. `From<Level> for LevelOwned` is the same mapping as `to_owned`.
- The derived `Ord` is modelled on `LevelOwned` (`Levels.CompareLevels`). `Level`'s order is the same order on the same parts.
- When all of the level alternatives fail, nom's `alt` reports an error built from theirs. The model does not say which one it picks. Instead it proves that all three fail with the same error (`LevelParser.ParseLevelNoslash`), so the choice cannot matter.
- The `many0` guard against a parser that succeeds without consuming is left out. `parse_and` always consumes at least `&`.
- Only the low byte of a char feeds the body tests, as in `as u8`. Characters are Dafny chars, not UTF-8 bytes: byte lengths and slicing at byte offsets are not modelled, and the error positions are counted in chars.
- The reported errors of `parse_uri` assume the input is sliced at char boundaries, as the source does through `str` slicing.
- strum's `EnumString` error is modelled as `None` (`Schemes.FromStr`).
- Versions.FromStr: there is no `Next` version, because src/version.rs has none.
- UriProperties.UriRoundTrip: it covers only keyword versions or none. A version number cannot be written in a URI that parses: query values must be resources, which start with a letter (`UriProperties.UriVersionNeverNumber`). The test at src/parse/uri.rs:108-123 expects `?version=1#main` to parse. By the code it fails with `Eof` (`UriExamples.NumericVersionExample`), and the model follows the code.
- `parse_uri`'s `UriNonAlphaParsingError` and `UriUnexpectedUnderscoreParsingError` branches are covered by the general lemmas (`UriProperties.UriAlphaError`, `UriVerifyError`, `UriNameNotLetter`, `UriNameUnderscore`), not by concrete URIs, because no test of the source reaches them.

## Findings

| source | as written | input that shows it | evidently intended | confidence | as-written member | corrected member |
|---|---|---|---|---|---|---|
| src/parse/container_name.rs:26-28 | the check on the last char of the body run falls back to `'1'`, a digit, when the body run is empty, so a name of letters only passes as an instance name | `parse_instance_name("fred/")` returns `Ok(("", "fred"))` | an instance name must end in a digit (the test at line 119 is named `cannot_end_with_a_letter`, though its input `1fred/` fails for its leading digit instead), so `fred/` is refused with `Verify` at `/` | medium, not executed | ContainerName.InstanceNameAcceptsLetters | ContainerName.ParseDigitEndedName |
