# git-semver version core, in Dafny

This project models the version core of `git-semver`, which turns a description of a Git head into a semantic-version string. A head description is the last tag, the number of commits since it and the short hash.

- **Tag parser `NewFromHead(head, expectedPrefix)`** (`Versions`).
  - It reads a leading run of letters as the prefix and cuts the rest at the first `+` (build metadata), then at the first `-` (pre-release).
  - It requires the numeric text to be exactly three dot-separated runs of decimal digits.
  - It copies the commit count from the head.
  - It uses the head's hash as metadata only when the tag has no `+`.
  - An empty tag gives the zero version. A non-empty prefix argument must equal the tag's prefix.
- **Formatter `Version.Format(template, target)` and `Version.String()`** (`Formatting`).
  - A version with commits past its tag is first projected.
    - With a pre-release, it gets `.dev.<n>` appended.
    - Otherwise the next patch, minor or major release is taken, marked `dev.<n>`.
  - The template (fields `x y z p m`, separators `. - +`) is then rendered after the prefix.
  - A separator in front of an empty field is dropped.
  - Any other template character is the error `invalid format: <template>`.
- **`TargetRelease`** (`Targets`): the three targets, their names `patch`, `minor` and `major`, and `Set`.
  - `Set` is a method on a class holding the variable, because the source updates its receiver in place.

Supporting modules:
- `Wrappers`: `Option` and `Result`.
- `Text`: letter runs, the first occurrence of a delimiter, and cutting at it. It also holds decimal notation: `Value` reads a digit run as a number and `Decimal` writes a number as a digit run, as Go's standard decimal parsing and printing do.

The accepted tag language is also written as a grammar (`TagText`, `Spell`). `ParseSpelled` and `ParsedIsSpelled` prove that the parser accepts exactly the tags the grammar spells, and returns the pieces they were spelled from. `FullFormatParsesBack` closes the loop: a full rendering parses back to the projected version.

The module `Scenarios` states every row of the repository's test tables as a lemma about the model.

## Model

| member | source | states |
|---|---|---|
| Text.AlphaRun | version/version_test.go:57-65 | the prefix length: every character before it is a letter and the one at it is not |
| Text.IndexOf | version/version_test.go:46-48 | the first occurrence of a delimiter: absent exactly when the character does not occur; otherwise that position holds it and nothing before does |
| Text.CutAt | version/version_test.go:66-73 | a cut at the first delimiter: the part before has no delimiter, and before, delimiter and after put back together are the input |
| Text.CutAtFound | version/version_test.go:74-77 | a cut finds a part after the delimiter exactly when the delimiter occurs |
| Text.CutAtUnique | version/version_test.go:78-85 | the cut is unique: a delimiter-free text, the delimiter and any rest are cut back into exactly those pieces |
| Text.Decimal | version/version_test.go:99-102 | decimal notation of a natural: a digit run whose value is the number, with no leading zero except for 0 |
| Text.DecimalOfValue | version/version_test.go:11-13 | reading a canonical digit run and writing its value back gives the same text |
| Versions.Scan | version/version_test.go:66-85 | the pieces of a tag reassemble to it; the prefix is its leading letter run; the numeric text has no `-` or `+`; the pre-release has no `+` |
| Versions.ScanMeta | version/version_test.go:74-85 | the metadata piece is the text after the first `+`, present exactly when the tag has a `+` |
| Versions.ParseTag | version/version_test.go:16-27 | a tag parses exactly when its numeric text is a triplet; the prefix is the tag's leading letter run; a failure reports the tag |
| Versions.NewFromHead | version/version_test.go:29-91 | empty tag gives the zero version; on success the commits come from the head, the prefix is an alphabetic prefix of the tag equal to an expected prefix when one is given, and the metadata is the hash without `+` and the text after the first `+` otherwise; failure reports the tag |
| Versions.NewFromHeadFails | version/version_test.go:16-27 | parsing fails exactly on a non-empty tag whose numeric text is no triplet or whose prefix differs from a given expected prefix |
| Versions.ParseTripletSpelled | version/version_test.go:11-13 | three digit runs joined by dots are read as their three values |
| Versions.ParsedTripletSpelled | version/version_test.go:16-27 | every accepted numeric text is three digit runs joined by dots |
| Versions.ParseSpelled | version/version_test.go:29-91 | every tag the grammar spells parses to the prefix, values, pre-release and metadata it was spelled from |
| Versions.ParsedIsSpelled | version/version_test.go:29-91 | every tag that parses is spelled by the grammar, and parses to what that spelling denotes |
| Versions.NewFromHeadSpelled | version/version_test.go:29-91 | a spelled tag with a matching or absent expected prefix gives the version of its pieces, with the head's commits and the hash unless the tag has metadata |
| Versions.NewFromHeadOnlySpelled | version/version_test.go:16-27 | every non-empty tag `NewFromHead` accepts is a spelled tag, with a matching prefix, giving the version of its pieces |
| Formatting.Project | version/version_test.go:103-110 | projection keeps prefix, commits and metadata, and leaves a version with no commits past its tag unchanged |
| Formatting.ProjectIsNextRelease | version/version_test.go:170-187 | with commits and no pre-release, the projection is above the tag, of the target's kind, below no other triplet that is both, and marked `dev.<commits>` |
| Formatting.ProjectContinuesPreRelease | version/version_test.go:115-118 | with commits and a pre-release, the triplet is kept and the pre-release gains `.dev.<commits>` |
| Formatting.Format | version/version_test.go:196-201 | fails exactly on a template with a character outside the fields and separators, with message `invalid format: <template>`; a success starts with the prefix |
| Formatting.String | version/version_test.go:93-123 | `String` is the full template rendered for the default target |
| Formatting.RenderAppend | version/version_test.go:140-169 | rendering two templates one after the other is rendering their concatenation, unless a trailing separator meets an empty field |
| Formatting.RenderSeparated | version/version_test.go:103-114 | a separator in front of a field shows exactly when the field's text is non-empty |
| Formatting.RenderTriplet | version/version_test.go:146-163 | `x`, `x.y` and `x.y.z` render as the major, major and minor, and the whole triplet |
| Formatting.RenderSuffixed | version/version_test.go:134-145 | `x.y.z-p` adds `-` and the pre-release only when there is one, and `x.y.z-p+m` adds `+` and the metadata only when there is some |
| Formatting.NamedFormats | version/version_test.go:134-163 | the output of each named template for any version and target, in terms of the projected version |
| Formatting.TargetIrrelevantAtTag | version/version_test.go:103-114 | with no commits past the tag, the target does not change any output |
| Formatting.FullFormatParsesBack | version/version_test.go:99-102 | a full rendering parsed back, with the prefix expected and the metadata as hash, gives the projected version with no commits |
| Formatting.StringParsesBack | version/version_test.go:103-114 | `String` of a version at its tag parses back to the same version |
| Targets.Name | version/version_test.go:209-222 | each target's name (`patch`, `minor`, `major`) is parsed back to that target |
| Targets.ParseTarget | version/version_test.go:225-248 | succeeds exactly on `patch`, `minor` and `major`; anything else is `parse error` |
| Targets.ParseTargetName | version/version_test.go:203-248 | names and parsing are inverse: a string parses to a target exactly when it is that target's name |
| Targets.NamesDistinct | version/version_test.go:209-222 | two targets have the same name exactly when they are the same target |
| Targets.TargetVar.Set | version/version_test.go:225-248 | no error exactly on a known name, and the variable then holds the target of that name; otherwise `parse error` and the variable is unchanged |
| Scenarios.ParseTriplet123 | version/version_test.go:11-13 | `1.2.3` parses to 1.2.3; with 4 commits and hash `fcf2c8fa` it keeps both |
| Scenarios.ParseEmptyHead | version/version_test.go:41-44 | an empty head gives the zero version |
| Scenarios.ParsePreRelease | version/version_test.go:45-52 | `1.2.3-rc.1` gives pre-release `rc.1`, with or without commits and hash |
| Scenarios.ParseTriplet321 | version/version_test.go:53-56 | `3.2.1` parses to 3.2.1 |
| Scenarios.ParseShortPrefix | version/version_test.go:57-60 | `v3.2.1` gives prefix `v` |
| Scenarios.ParseExpectedPrefix | version/version_test.go:61-65 | `ver3.2.1` gives prefix `ver`, with or without that prefix expected |
| Scenarios.ParseDottedPreRelease | version/version_test.go:66-69 | `3.2.1-liftoff.alpha.1` keeps its dotted pre-release, commits and hash |
| Scenarios.ParseDashedPreRelease | version/version_test.go:70-73 | `3.5.0-liftoff-alpha.1` keeps the `-` inside its pre-release |
| Scenarios.ParseTagMeta | version/version_test.go:74-77 | `3.2.1+special` gives metadata `special` |
| Scenarios.ParseTagMetaOverHash | version/version_test.go:78-85 | `3.2.1-rc.2+special` gives metadata `special` even when a hash is given |
| Scenarios.PlainTagRejected | version/version_test.go:16-27 | a tag without `-` or `+` whose text after its letters is no triplet is rejected |
| Scenarios.ComponentRejected | version/version_test.go:20-22 | three components one of which is not a digit run are rejected |
| Scenarios.RejectsMissingPatch | version/version_test.go:19 | `1.2` is rejected, for any commits and hash |
| Scenarios.RejectsLetterPatch | version/version_test.go:20 | `1.2.a` is rejected, for any commits and hash |
| Scenarios.RejectsLetterMinor | version/version_test.go:21 | `1.a.3` is rejected, for any commits and hash |
| Scenarios.RejectsLetterMajor | version/version_test.go:22 | `a.2.3` is rejected: `a` is the prefix and the major is empty |
| Scenarios.StringProjected | version/version_test.go:100-101 | 1.2.3 with 10 commits and metadata `fcf2c8f` prints `1.2.4-dev.10+fcf2c8f` |
| Scenarios.StringAtTag | version/version_test.go:104-109 | 0.3.1 prints `0.3.1`, and `v0.3.1` with prefix `v` |
| Scenarios.StringPreRelease | version/version_test.go:112-113 | 1.3.0 with pre-release `rc.3` prints `1.3.0-rc.3` |
| Scenarios.StringPreReleaseDev | version/version_test.go:116-117 | 2.5.0 with pre-release `rc.3` and 3 commits prints `2.5.0-rc.3.dev.3` |
| Scenarios.FormatFullDefault | version/version_test.go:134-139 | the full template gives `1.2.4-dev.10+fcf2c8f` |
| Scenarios.FormatNoMeta | version/version_test.go:140-145 | `x.y.z-p` gives `1.2.4-dev.10` |
| Scenarios.FormatNoPre | version/version_test.go:146-151 | `x.y.z` gives `1.2.4` |
| Scenarios.FormatNoPatch | version/version_test.go:152-157 | `x.y` gives `1.2` |
| Scenarios.FormatNoMinor | version/version_test.go:158-163 | `x` with prefix `v` gives `v1` |
| Scenarios.FormatFreeForm | version/version_test.go:164-169 | `x.y-p` with prefix `v` gives `v1.2-dev.10` |
| Scenarios.FormatTargetPatch | version/version_test.go:170-175 | target patch gives `1.2.4-dev.10+fcf2c8f` |
| Scenarios.FormatTargetMinor | version/version_test.go:176-181 | target minor gives `1.3.0-dev.10+fcf2c8f` |
| Scenarios.FormatTargetMajor | version/version_test.go:182-187 | target major gives `2.0.0-dev.10+fcf2c8f` |
| Scenarios.FormatRejectsUnknownField | version/version_test.go:196-201 | template `q` fails with `invalid format: q` |
| Scenarios.TargetNames | version/version_test.go:209-228 | the names of the three targets, and `foo` is a `parse error` |
| Scenarios.SetTable | version/version_test.go:225-248 | on fresh variables, `Set("foo")` reports `parse error` and `patch`, `minor`, `major` set the matching targets |

`Formatting.Render`, the element-by-element template loop, has no contract of its own; the rows for `Formatting.Format`, `RenderAppend`, `RenderSeparated`, `RenderTriplet`, `RenderSuffixed` and `NamedFormats` state what it does.

Three definitions have no contract of their own and are stated by the rows of their lemmas:
- `Formatting.Render` (version/version_test.go:134-169), as above.
- `Versions.ParseTriplet` (version/version_test.go:16-27): the numeric text must be exactly three dot-separated, non-empty digit runs, read as their values; anything else is `None`. `ParseTripletSpelled` and `ParsedTripletSpelled` state this in both directions.
- `Text.Value` (version/version_test.go:11-13): the number a digit run denotes. `Text.Decimal` states that writing a number and reading it back gives the number, and `Text.DecimalOfValue` that reading a canonical digit run and writing its value gives the same text.

## Left out

- Reading the head from Git (running `git`, reading refs) is I/O. The head is an input record.
- The model follows the behaviour that `version/version_test.go` fixes; where the tests leave a case open, the model's choices are listed below.
- Integers are unbounded. In Go the version fields have a fixed width. Overflow is not modelled, either when reading very long digit runs or when projection increments a component at the maximum (a tag like `1.2.9223372036854775807` with commits).
- `TargetRelease` is a closed datatype, so the out-of-range ordinal that makes `String` panic (`unexpected TargetRevision value 8`) cannot be built. The panic and its message are not modelled.
- `Targets.TargetVar.Set`: that the variable keeps its value after `parse error` is this model's choice. The tests only check the error.
- `Formatting.Format`: the empty string returned beside the error is not modelled. The error carries no output.
- `Formatting.Project`: its own contract states only what projection keeps. The projection rules are stated by `ProjectIsNextRelease` and `ProjectContinuesPreRelease`.
- The separator rule drops any separator directly in front of a field that renders empty. Only `p` and `m` can render empty. The tests fix this only for `-p` and `+m`; other positions in free-form templates follow this model's rule.
- Letters in the prefix are ASCII letters. Unicode letters are not modelled.
- A tag ending in `+` (`1.2.3+`) gives empty metadata, not the hash, because a `+` is present. A tag ending in `-` gives an empty pre-release. The tests do not cover either case.
- `Set` used as a command-line `flag.Value` is modelled only through its parse result.
- The test harness (testify assertions, table loops, `v.Prefix` overwritten per row) is not modelled. Every table row is stated by a lemma in `Scenarios`; some lemmas state several rows.
