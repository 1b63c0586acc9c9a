/** Rendering a version under a template: `Version.Format` and `Version.String`,
    with the projection of a version that has commits past its tag onto the
    next release. */
module Formatting {
  import opened Wrappers
  import opened Text
  import opened Versions
  import opened Targets

  const FullFormat: string := "x.y.z-p+m"
  const NoMetaFormat: string := "x.y.z-p"
  const NoPreFormat: string := "x.y.z"
  const NoPatchFormat: string := "x.y"
  const NoMinorFormat: string := "x"

  /** The formatter's error; its message is `invalid format: <template>`. */
  datatype FormatError = InvalidFormat(template: string)

  function Message(e: FormatError): string {
    "invalid format: " + e.template
  }

  /** Template fields: major, minor, patch, pre-release, metadata. */
  predicate IsField(c: char) {
    c == 'x' || c == 'y' || c == 'z' || c == 'p' || c == 'm'
  }

  predicate IsSeparator(c: char) {
    c == '.' || c == '-' || c == '+'
  }

  /** A template is any string over the fields and the separators. */
  predicate IsTemplate(t: string) {
    forall i :: 0 <= i < |t| ==> IsField(t[i]) || IsSeparator(t[i])
  }

  /** The pre-release marking `n` commits past a tag. */
  function DevSuffix(n: nat): string {
    "dev." + Decimal(n)
  }

  /** The version the formatter renders. With no commits past the tag, the
      version itself. With commits and a pre-release, the pre-release gains a
      `.dev.<n>` suffix. With commits and no pre-release, the next release of
      the target's kind, marked `dev.<n>`. Prefix, commits and metadata are
      kept. The increment is on unbounded naturals: Go's fixed-width fields
      would overflow at the maximum. */
  function Project(v: Version, target: TargetRelease): (e: Version)
    ensures e.prefix == v.prefix && e.commits == v.commits && e.meta == v.meta
    ensures v.commits == 0 ==> e == v
  {
    if v.commits == 0 then v
    else if v.preRelease != "" then v.(preRelease := v.preRelease + "." + DevSuffix(v.commits))
    else
      match target
      case TargetPatch => v.(patch := v.patch + 1, preRelease := DevSuffix(v.commits))
      case TargetMinor => v.(minor := v.minor + 1, patch := 0, preRelease := DevSuffix(v.commits))
      case TargetMajor => v.(major := v.major + 1, minor := 0, patch := 0, preRelease := DevSuffix(v.commits))
  }

  function TripletOf(v: Version): Triplet {
    Triplet(v.major, v.minor, v.patch)
  }

  /** Release order on triplets (lexicographic). */
  predicate Below(a: Triplet, b: Triplet) {
    || a.major < b.major
    || (a.major == b.major && a.minor < b.minor)
    || (a.major == b.major && a.minor == b.minor && a.patch < b.patch)
  }

  /** The triplets a release of the target's kind can have. */
  predicate Aligned(t: Triplet, target: TargetRelease) {
    match target
    case TargetPatch => true
    case TargetMinor => t.patch == 0
    case TargetMajor => t.minor == 0 && t.patch == 0
  }

  /** With commits and no pre-release, the projection is the next release of
      the target's kind: above the tagged triplet, of that kind, and below no
      other triplet that is both. */
  lemma ProjectIsNextRelease(v: Version, target: TargetRelease, other: Triplet)
    requires v.commits > 0 && v.preRelease == ""
    ensures Below(TripletOf(v), TripletOf(Project(v, target)))
    ensures Aligned(TripletOf(Project(v, target)), target)
    ensures Below(TripletOf(v), other) && Aligned(other, target) ==> !Below(other, TripletOf(Project(v, target)))
    ensures Project(v, target).preRelease == DevSuffix(v.commits)
  {
  }

  /** With commits and a pre-release, the triplet is kept and the pre-release is
      continued with the dev marker. */
  lemma ProjectContinuesPreRelease(v: Version, target: TargetRelease)
    requires v.commits > 0 && v.preRelease != ""
    ensures TripletOf(Project(v, target)) == TripletOf(v)
    ensures Project(v, target).preRelease == v.preRelease + "." + DevSuffix(v.commits)
  {
  }

  function FieldText(c: char, e: Version): string
    requires IsField(c)
  {
    match c
    case 'x' => Decimal(e.major)
    case 'y' => Decimal(e.minor)
    case 'z' => Decimal(e.patch)
    case 'p' => e.preRelease
    case 'm' => e.meta
  }

  /** Renders a template field by field. Separators are literal, except that a
      separator directly in front of a field with nothing to show is dropped. */
  function Render(t: string, e: Version): string
    requires IsTemplate(t)
  {
    if t == [] then ""
    else if IsField(t[0]) then FieldText(t[0], e) + Render(t[1..], e)
    else if |t| > 1 && IsField(t[1]) && FieldText(t[1], e) == "" then Render(t[1..], e)
    else [t[0]] + Render(t[1..], e)
  }

  /** `Version.Format`: the prefix, then the template rendered over the projected
      version; a template with a character outside the fields and separators
      is rejected with `invalid format: <template>` and no output. */
  function Format(v: Version, template: string, target: TargetRelease): (r: Result<string, FormatError>)
    ensures r.Err? <==> !IsTemplate(template)
    ensures r.Err? ==> Message(r.error) == "invalid format: " + template
    ensures r.Ok? ==> v.prefix <= r.value
  {
    if IsTemplate(template) then Ok(v.prefix + Render(template, Project(v, target)))
    else Err(InvalidFormat(template))
  }

  /** `Version.String`: the full format under the default target. */
  function String(v: Version): (s: string)
    ensures Format(v, FullFormat, DefaultTargetRelease) == Ok(s)
  {
    assert IsTemplate(FullFormat);
    Format(v, FullFormat, DefaultTargetRelease).value
  }

  /** No template element can glue onto its neighbour: a trailing separator
      whose next field is empty is the only place where rendering two
      templates apart differs from rendering them together. */
  predicate Joinable(a: string, b: string, e: Version) {
    !(a != [] && IsSeparator(a[|a| - 1]) && b != [] && IsField(b[0]) && FieldText(b[0], e) == "")
  }

  lemma {:induction false} RenderAppend(a: string, b: string, e: Version)
    requires IsTemplate(a) && IsTemplate(b) && Joinable(a, b, e)
    ensures IsTemplate(a + b)
    ensures Render(a + b, e) == Render(a, e) + Render(b, e)
    decreases |a|
  {
    if a == [] {
      assert a + b == b;
    } else {
      var ab := a + b;
      assert ab[0] == a[0];
      assert ab[1..] == a[1..] + b;
      assert IsTemplate(a[1..]);
      assert a[1..] != [] ==> a[1..][|a[1..]| - 1] == a[|a| - 1];
      RenderAppend(a[1..], b, e);
      var rest := Render(a[1..], e) + Render(b, e);
      if IsField(a[0]) {
        assert Render(ab, e) == FieldText(a[0], e) + rest;
      } else if |a| > 1 && IsField(a[1]) && FieldText(a[1], e) == "" {
        assert ab[1] == a[1];
        assert Render(ab, e) == rest;
      } else {
        assert |a| > 1 ==> ab[1] == a[1];
        assert |a| == 1 ==> ab[1..] == b;
        assert Render(ab, e) == [a[0]] + rest;
      }
    }
  }

  /** A separator in front of a field shows only when the field does. */
  lemma RenderSeparated(sep: char, f: char, e: Version)
    requires IsSeparator(sep) && IsField(f)
    ensures IsTemplate([sep, f])
    ensures Render([sep, f], e) == Affix(sep, FieldText(f, e))
  {
    assert [sep, f][1..] == [f];
    assert [f][1..] == [];
    assert Render([f], e) == FieldText(f, e) + Render([], e);
  }

  /** The numeric part of a version as `major.minor.patch`. */
  function TripletString(e: Version): string {
    Decimal(e.major) + "." + Decimal(e.minor) + "." + Decimal(e.patch)
  }

  lemma RenderTriplet(e: Version)
    ensures IsTemplate(NoPreFormat) && IsTemplate(NoPatchFormat) && IsTemplate(NoMinorFormat)
    ensures Render(NoMinorFormat, e) == Decimal(e.major)
    ensures Render(NoPatchFormat, e) == Decimal(e.major) + "." + Decimal(e.minor)
    ensures Render(NoPreFormat, e) == TripletString(e)
  {
    assert NoMinorFormat[1..] == [];
    assert Render(NoMinorFormat, e) == Decimal(e.major);
    RenderSeparated('.', 'y', e);
    assert ".y" == ['.', 'y'];
    assert NoPatchFormat == NoMinorFormat + ".y";
    RenderAppend(NoMinorFormat, ".y", e);
    RenderSeparated('.', 'z', e);
    assert ".z" == ['.', 'z'];
    assert NoPreFormat == NoPatchFormat + ".z";
    RenderAppend(NoPatchFormat, ".z", e);
  }

  lemma RenderSuffixed(e: Version)
    ensures IsTemplate(NoMetaFormat) && IsTemplate(FullFormat)
    ensures Render(NoMetaFormat, e) == TripletString(e) + Affix('-', e.preRelease)
    ensures Render(FullFormat, e) == TripletString(e) + Affix('-', e.preRelease) + Affix('+', e.meta)
  {
    RenderTriplet(e);
    RenderSeparated('-', 'p', e);
    assert "-p" == ['-', 'p'];
    assert NoMetaFormat == NoPreFormat + "-p";
    RenderAppend(NoPreFormat, "-p", e);
    RenderSeparated('+', 'm', e);
    assert "+m" == ['+', 'm'];
    assert FullFormat == NoMetaFormat + "+m";
    RenderAppend(NoMetaFormat, "+m", e);
  }

  /** The named templates, written out: each shows the prefix and the projected
      fields it names, with no dangling `-` before an empty pre-release and no
      dangling `+` before empty metadata. */
  lemma NamedFormats(v: Version, target: TargetRelease)
    ensures var e := Project(v, target);
      && Format(v, NoMinorFormat, target) == Ok(v.prefix + Decimal(e.major))
      && Format(v, NoPatchFormat, target) == Ok(v.prefix + Decimal(e.major) + "." + Decimal(e.minor))
      && Format(v, NoPreFormat, target) == Ok(v.prefix + TripletString(e))
      && Format(v, NoMetaFormat, target) == Ok(v.prefix + TripletString(e) + Affix('-', e.preRelease))
      && Format(v, FullFormat, target)
         == Ok(v.prefix + TripletString(e) + Affix('-', e.preRelease) + Affix('+', e.meta))
  {
    var e := Project(v, target);
    RenderTriplet(e);
    RenderSuffixed(e);
    var x, y, pre, meta := Decimal(e.major), Decimal(e.minor), Affix('-', e.preRelease), Affix('+', e.meta);
    assert v.prefix + (x + "." + y) == v.prefix + x + "." + y;
    assert v.prefix + (TripletString(e) + pre) == v.prefix + TripletString(e) + pre;
    assert v.prefix + (TripletString(e) + pre + meta) == v.prefix + TripletString(e) + pre + meta;
  }

  /** With no commits past the tag the target makes no difference. */
  lemma TargetIrrelevantAtTag(v: Version, template: string, a: TargetRelease, b: TargetRelease)
    requires v.commits == 0
    ensures Format(v, template, a) == Format(v, template, b)
  {
  }

  /** The full rendering is itself a tag: parsed back (with no commits, the
      version's metadata as hash and its prefix expected) it yields the
      projected release, provided the prefix is alphabetic and the pre-release
      has no `+`. */
  lemma FullFormatParsesBack(v: Version, target: TargetRelease)
    requires AllAlpha(v.prefix) && '+' !in v.preRelease
    ensures Format(v, FullFormat, target).Ok?
    ensures NewFromHead(RepoHead(Format(v, FullFormat, target).value, 0, v.meta), v.prefix)
         == Ok(Project(v, target).(commits := 0))
  {
    var e := Project(v, target);
    NamedFormats(v, target);
    assert '+' !in e.preRelease by {
      NoDelimiterInDecimal(Decimal(v.commits), '+');
      assert '+' !in DevSuffix(v.commits);
    }
    var t := TagText(v.prefix, Decimal(e.major), Decimal(e.minor), Decimal(e.patch),
                     if e.preRelease == "" then None else Some(e.preRelease),
                     if e.meta == "" then None else Some(e.meta));
    assert WellFormed(t);
    assert Spell(t) == v.prefix + TripletString(e) + Affix('-', e.preRelease) + Affix('+', e.meta);
    NewFromHeadSpelled(t, 0, v.meta, v.prefix);
  }

  /** `String` round-trips: the default rendering of a version at its tag parses
      back to the same version. */
  lemma StringParsesBack(v: Version)
    requires v.commits == 0 && AllAlpha(v.prefix) && '+' !in v.preRelease
    ensures NewFromHead(RepoHead(String(v), 0, v.meta), v.prefix) == Ok(v)
  {
    FullFormatParsesBack(v, DefaultTargetRelease);
  }
}
