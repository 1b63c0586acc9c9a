/** The cases of the repository's test tables, stated against the model. */
module Scenarios {
  import opened Wrappers
  import opened Text
  import opened Versions
  import opened Targets
  import opened Formatting

  // The lemmas DecimalTen, Spelled*Tags, RejectedTexts, TableAffixes and
  // StringTexts only state string-literal equalities. They are proof steps that
  // keep literal evaluation apart from the scenario proofs, not claims about
  // the model.

  lemma DecimalTen()
    ensures Decimal(10) == "10"
  {
    assert Decimal(1) == "1";
    assert Decimal(10) == Decimal(1) + [DigitChar(0)];
  }

  /** Parsing a spelled tag with one-digit components, stated on the spelling. */
  lemma ParsesAs(tag: string, t: TagText, commits: nat, hash: string, expectedPrefix: string)
    requires WellFormed(t) && Spell(t) == tag
    requires expectedPrefix == "" || expectedPrefix == t.prefix
    requires |t.major| == 1 && |t.minor| == 1 && |t.patch| == 1
    ensures NewFromHead(RepoHead(tag, commits, hash), expectedPrefix)
         == Ok(Version(t.prefix, DigitValue(t.major[0]), DigitValue(t.minor[0]), DigitValue(t.patch[0]),
                       t.preRelease.GetOr(""), commits, t.meta.GetOr(hash)))
  {
    NewFromHeadSpelled(t, commits, hash, expectedPrefix);
  }

  /** The accepted tags of the parser's table without pre-release or metadata, spelled from their pieces. */
  lemma SpelledPlainTags()
    ensures Spell(TagText("", "1", "2", "3", None, None)) == "1.2.3"
    ensures Spell(TagText("", "3", "2", "1", None, None)) == "3.2.1"
    ensures Spell(TagText("v", "3", "2", "1", None, None)) == "v3.2.1"
    ensures Spell(TagText("ver", "3", "2", "1", None, None)) == "ver3.2.1"
  {
  }

  /** The accepted tags of the parser's table with a pre-release, spelled from their pieces. */
  lemma SpelledPreTags()
    ensures Spell(TagText("", "1", "2", "3", Some("rc.1"), None)) == "1.2.3-rc.1"
  {
  }

  lemma SpelledDottedPreTags()
    ensures Spell(TagText("", "3", "2", "1", Some("liftoff.alpha.1"), None)) == "3.2.1-liftoff.alpha.1"
  {
  }

  lemma SpelledDashedPreTags()
    ensures Spell(TagText("", "3", "5", "0", Some("liftoff-alpha.1"), None)) == "3.5.0-liftoff-alpha.1"
  {
  }

  /** The accepted tags of the parser's table with metadata, spelled from their pieces. */
  lemma SpelledMetaTags()
    ensures Spell(TagText("", "3", "2", "1", None, Some("special"))) == "3.2.1+special"
    ensures Spell(TagText("", "3", "2", "1", Some("rc.2"), Some("special"))) == "3.2.1-rc.2+special"
  {
  }

  lemma ParseTriplet123()
    ensures NewFromHead(RepoHead("1.2.3", 0, ""), "") == Ok(Version("", 1, 2, 3, "", 0, ""))
    ensures NewFromHead(RepoHead("1.2.3", 4, "fcf2c8fa"), "") == Ok(Version("", 1, 2, 3, "", 4, "fcf2c8fa"))
  {
    var t := TagText("", "1", "2", "3", None, None);
    SpelledPlainTags();
    ParsesAs("1.2.3", t, 0, "", "");
    ParsesAs("1.2.3", t, 4, "fcf2c8fa", "");
  }

  lemma ParseTriplet321()
    ensures NewFromHead(RepoHead("3.2.1", 0, ""), "") == Ok(Version("", 3, 2, 1, "", 0, ""))
  {
    var t := TagText("", "3", "2", "1", None, None);
    SpelledPlainTags();
    ParsesAs("3.2.1", t, 0, "", "");
  }

  lemma ParseShortPrefix()
    ensures NewFromHead(RepoHead("v3.2.1", 0, ""), "") == Ok(Version("v", 3, 2, 1, "", 0, ""))
  {
    var t := TagText("v", "3", "2", "1", None, None);
    SpelledPlainTags();
    ParsesAs("v3.2.1", t, 0, "", "");
  }

  lemma ParseExpectedPrefix()
    ensures NewFromHead(RepoHead("ver3.2.1", 0, ""), "ver") == Ok(Version("ver", 3, 2, 1, "", 0, ""))
    ensures NewFromHead(RepoHead("ver3.2.1", 0, ""), "") == Ok(Version("ver", 3, 2, 1, "", 0, ""))
  {
    var t := TagText("ver", "3", "2", "1", None, None);
    SpelledPlainTags();
    ParsesAs("ver3.2.1", t, 0, "", "ver");
    ParsesAs("ver3.2.1", t, 0, "", "");
  }

  lemma ParsePreRelease()
    ensures NewFromHead(RepoHead("1.2.3-rc.1", 0, ""), "") == Ok(Version("", 1, 2, 3, "rc.1", 0, ""))
    ensures NewFromHead(RepoHead("1.2.3-rc.1", 2, "gd92f0b2"), "") == Ok(Version("", 1, 2, 3, "rc.1", 2, "gd92f0b2"))
  {
    var t := TagText("", "1", "2", "3", Some("rc.1"), None);
    SpelledPreTags();
    ParsesAs("1.2.3-rc.1", t, 0, "", "");
    ParsesAs("1.2.3-rc.1", t, 2, "gd92f0b2", "");
  }

  lemma ParseDottedPreRelease()
    ensures NewFromHead(RepoHead("3.2.1-liftoff.alpha.1", 3, "fcf2c8fa"), "") == Ok(Version("", 3, 2, 1, "liftoff.alpha.1", 3, "fcf2c8fa"))
  {
    var t := TagText("", "3", "2", "1", Some("liftoff.alpha.1"), None);
    SpelledDottedPreTags();
    ParsesAs("3.2.1-liftoff.alpha.1", t, 3, "fcf2c8fa", "");
  }

  lemma ParseDashedPreRelease()
    ensures NewFromHead(RepoHead("3.5.0-liftoff-alpha.1", 0, ""), "") == Ok(Version("", 3, 5, 0, "liftoff-alpha.1", 0, ""))
  {
    var t := TagText("", "3", "5", "0", Some("liftoff-alpha.1"), None);
    SpelledDashedPreTags();
    ParsesAs("3.5.0-liftoff-alpha.1", t, 0, "", "");
  }

  lemma ParseTagMeta()
    ensures NewFromHead(RepoHead("3.2.1+special", 0, ""), "") == Ok(Version("", 3, 2, 1, "", 0, "special"))
  {
    var t := TagText("", "3", "2", "1", None, Some("special"));
    SpelledMetaTags();
    ParsesAs("3.2.1+special", t, 0, "", "");
  }

  lemma ParseTagMetaOverHash()
    ensures NewFromHead(RepoHead("3.2.1-rc.2+special", 0, ""), "") == Ok(Version("", 3, 2, 1, "rc.2", 0, "special"))
    ensures NewFromHead(RepoHead("3.2.1-rc.2+special", 3, "gd92f0b2"), "") == Ok(Version("", 3, 2, 1, "rc.2", 3, "special"))
  {
    var t := TagText("", "3", "2", "1", Some("rc.2"), Some("special"));
    SpelledMetaTags();
    ParsesAs("3.2.1-rc.2+special", t, 0, "", "");
    ParsesAs("3.2.1-rc.2+special", t, 3, "gd92f0b2", "");
  }

  lemma ParseEmptyHead()
    ensures NewFromHead(RepoHead("", 0, ""), "") == Ok(Zero)
  {
  }

  /** A tag without `-` or `+` scans to its leading letters and the rest. */
  lemma ScanPlain(s: string)
    requires '+' !in s && '-' !in s
    ensures Scan(s) == Pieces(s[..AlphaRun(s)], s[AlphaRun(s)..], None, None)
  {
    var p := Scan(s);
    assert s == p.prefix + p.triplet;
    ConcatParts(p.prefix, p.triplet);
  }

  /** A triplet whose second cut at `.` finds no dot has too few components. */
  lemma TwoComponents(x: string, y: string)
    requires '.' !in x && '.' !in y
    ensures ParseTriplet(x + "." + y).None?
  {
    assert x + "." + y == x + Delimited('.', Some(y));
    CutAtUnique(x, '.', Some(y));
    assert y == y + Delimited('.', None);
    CutAtUnique(y, '.', None);
  }

  /** A triplet with a component that is not a digit run is rejected. */
  lemma NonDecimalComponent(x: string, y: string, z: string)
    requires '.' !in x && '.' !in y
    requires !IsDecimal(x) || !IsDecimal(y) || !IsDecimal(z)
    ensures ParseTriplet(TripletText(x, y, z)).None?
  {
    TripletTextCuts(x, y, z);
    CutAtUnique(x, '.', Some(y + Delimited('.', Some(z))));
    CutAtUnique(y, '.', Some(z));
  }

  /** A tag without `-` or `+` whose text after its letters is no triplet is
      rejected, whatever the commits and the hash. */
  lemma PlainTagRejected(s: string, prefix: string, rest: string, commits: nat, hash: string)
    requires '+' !in s && '-' !in s && s == prefix + rest
    requires AllAlpha(prefix) && rest != [] && !IsAlpha(rest[0])
    requires ParseTriplet(rest).None?
    ensures NewFromHead(RepoHead(s, commits, hash), "").Err?
  {
    AlphaRunOf(prefix, rest);
    ConcatParts(prefix, rest);
    ScanPlain(s);
    NewFromHeadFails(RepoHead(s, commits, hash), "");
  }

  /** Letters, then three dot-separated components free of `-` and `+`, one of
      them not a digit run: rejected. */
  lemma ComponentRejected(prefix: string, x: string, y: string, z: string, commits: nat, hash: string)
    requires AllAlpha(prefix) && (x == [] || !IsAlpha(x[0]))
    requires '.' !in x && '.' !in y
    requires '+' !in x && '+' !in y && '+' !in z && '-' !in x && '-' !in y && '-' !in z
    requires !IsDecimal(x) || !IsDecimal(y) || !IsDecimal(z)
    ensures NewFromHead(RepoHead(prefix + TripletText(x, y, z), commits, hash), "").Err?
  {
    var rest := TripletText(x, y, z);
    LetterFree(prefix, rest, '+', x, y, z);
    LetterFree(prefix, rest, '-', x, y, z);
    NonDecimalComponent(x, y, z);
    assert rest[0] == if x == [] then '.' else x[0];
    PlainTagRejected(prefix + rest, prefix, rest, commits, hash);
  }

  /** A character that is neither a letter nor a dot and is absent from three
      components is absent from a prefix of letters followed by their triplet. */
  lemma LetterFree(prefix: string, rest: string, c: char, x: string, y: string, z: string)
    requires AllAlpha(prefix) && !IsAlpha(c) && c != '.' && rest == TripletText(x, y, z)
    requires c !in x && c !in y && c !in z
    ensures c !in prefix + rest
  {
    assert forall i :: 0 <= i < |prefix| ==> prefix[i] != c;
    assert c !in rest;
  }

  /** The rejected tags of the parser's table, spelled from their components. */
  lemma RejectedTexts()
    ensures "1.2" == "" + ("1" + "." + "2")
    ensures "1.2.a" == "" + TripletText("1", "2", "a")
    ensures "1.a.3" == "" + TripletText("1", "a", "3")
    ensures "a.2.3" == "a" + TripletText("", "2", "3")
    ensures !IsDigit("a"[0])
  {
  }

  lemma RejectsMissingPatch(commits: nat, hash: string)
    ensures NewFromHead(RepoHead("1.2", commits, hash), "").Err?
  {
    TwoComponents("1", "2");
    RejectedTexts();
    PlainTagRejected("1.2", "", "1" + "." + "2", commits, hash);
  }

  lemma RejectsLetterPatch(commits: nat, hash: string)
    ensures NewFromHead(RepoHead("1.2.a", commits, hash), "").Err?
  {
    RejectedTexts();
    ComponentRejected("", "1", "2", "a", commits, hash);
  }

  lemma RejectsLetterMinor(commits: nat, hash: string)
    ensures NewFromHead(RepoHead("1.a.3", commits, hash), "").Err?
  {
    RejectedTexts();
    ComponentRejected("", "1", "a", "3", commits, hash);
  }

  /** `a.2.3`: the `a` is read as a prefix, which leaves an empty major. */
  lemma RejectsLetterMajor(commits: nat, hash: string)
    ensures NewFromHead(RepoHead("a.2.3", commits, hash), "").Err?
  {
    RejectedTexts();
    ComponentRejected("a", "", "2", "3", commits, hash);
  }

  /** The version of the format table, with the prefix each row sets. */
  function FormatTableVersion(prefix: string): Version {
    Version(prefix, 1, 2, 3, "", 10, "fcf2c8f")
  }

  /** A format call whose rendering is known. */
  lemma FormatRenders(v: Version, template: string, target: TargetRelease, rendered: string)
    requires IsTemplate(template) && Render(template, Project(v, target)) == rendered
    ensures Format(v, template, target) == Ok(v.prefix + rendered)
    ensures v.prefix == "" ==> Format(v, template, target) == Ok(rendered)
  {
    assert v.prefix == "" ==> v.prefix + rendered == rendered;
  }

  /** Affixes of the format table's projected version. */
  lemma TableAffixes()
    ensures Affix('-', "dev.10") == "-dev.10" && Affix('+', "fcf2c8f") == "+fcf2c8f"
    ensures "1.2.4" + "-dev.10" == "1.2.4-dev.10"
    ensures "1.2" + "-dev.10" == "1.2-dev.10" && "v" + "1.2-dev.10" == "v1.2-dev.10"
    ensures "1.2.4" + "-dev.10" + "+fcf2c8f" == "1.2.4-dev.10+fcf2c8f"
    ensures "1.3.0" + "-dev.10" + "+fcf2c8f" == "1.3.0-dev.10+fcf2c8f"
    ensures "2.0.0" + "-dev.10" + "+fcf2c8f" == "2.0.0-dev.10+fcf2c8f"
  {
  }

  /** Suffixed renderings of a projected table version whose triplet reads `t`. */
  lemma RenderDev(e: Version, t: string)
    requires e.preRelease == "dev.10" && e.meta == "fcf2c8f" && TripletString(e) == t
    ensures Render(NoMetaFormat, e) == t + "-dev.10"
    ensures Render(FullFormat, e) == t + "-dev.10" + "+fcf2c8f"
  {
    RenderSuffixed(e);
    assert Affix('-', e.preRelease) == "-dev.10";
    assert Affix('+', e.meta) == "+fcf2c8f";
  }

  lemma FormatFullDefault()
    ensures Format(FormatTableVersion(""), FullFormat, DefaultTargetRelease) == Ok("1.2.4-dev.10+fcf2c8f")
  {
    var v := FormatTableVersion("");
    var e := Project(v, DefaultTargetRelease);
    DecimalTen();
    assert e == Version("", 1, 2, 4, "dev.10", 10, "fcf2c8f");
    assert Decimal(1) == "1" && Decimal(2) == "2" && Decimal(4) == "4";
    assert TripletString(e) == "1.2.4";
    RenderDev(e, "1.2.4");
    TableAffixes();
    assert Render(FullFormat, e) == "1.2.4-dev.10+fcf2c8f";
    FormatRenders(v, FullFormat, DefaultTargetRelease, "1.2.4-dev.10+fcf2c8f");
  }

  lemma FormatNoMeta()
    ensures Format(FormatTableVersion(""), NoMetaFormat, DefaultTargetRelease) == Ok("1.2.4-dev.10")
  {
    var v := FormatTableVersion("");
    var e := Project(v, DefaultTargetRelease);
    DecimalTen();
    assert e == Version("", 1, 2, 4, "dev.10", 10, "fcf2c8f");
    assert Decimal(1) == "1" && Decimal(2) == "2" && Decimal(4) == "4";
    assert TripletString(e) == "1.2.4";
    RenderDev(e, "1.2.4");
    TableAffixes();
    assert Render(NoMetaFormat, e) == "1.2.4-dev.10";
    FormatRenders(v, NoMetaFormat, DefaultTargetRelease, "1.2.4-dev.10");
  }

  lemma FormatNoPre()
    ensures Format(FormatTableVersion(""), NoPreFormat, DefaultTargetRelease) == Ok("1.2.4")
  {
    var v := FormatTableVersion("");
    var e := Project(v, DefaultTargetRelease);
    DecimalTen();
    assert e == Version("", 1, 2, 4, "dev.10", 10, "fcf2c8f");
    assert Decimal(1) == "1" && Decimal(2) == "2" && Decimal(4) == "4";
    RenderTriplet(e);
    assert Render(NoPreFormat, e) == "1" + "." + "2" + "." + "4";
    assert Render(NoPreFormat, e) == "1.2.4";
    FormatRenders(v, NoPreFormat, DefaultTargetRelease, "1.2.4");
  }

  lemma FormatNoPatch()
    ensures Format(FormatTableVersion(""), NoPatchFormat, DefaultTargetRelease) == Ok("1.2")
  {
    var v := FormatTableVersion("");
    var e := Project(v, DefaultTargetRelease);
    DecimalTen();
    assert e == Version("", 1, 2, 4, "dev.10", 10, "fcf2c8f");
    assert Decimal(1) == "1" && Decimal(2) == "2" && Decimal(4) == "4";
    RenderTriplet(e);
    assert Render(NoPatchFormat, e) == "1" + "." + "2";
    assert Render(NoPatchFormat, e) == "1.2";
    FormatRenders(v, NoPatchFormat, DefaultTargetRelease, "1.2");
  }

  lemma FormatNoMinor()
    ensures Format(FormatTableVersion("v"), NoMinorFormat, DefaultTargetRelease) == Ok("v1")
  {
    var v := FormatTableVersion("v");
    var e := Project(v, DefaultTargetRelease);
    DecimalTen();
    assert e == Version("v", 1, 2, 4, "dev.10", 10, "fcf2c8f");
    assert Decimal(1) == "1" && Decimal(2) == "2" && Decimal(4) == "4";
    RenderTriplet(e);
    assert Render(NoMinorFormat, e) == "1";
    FormatRenders(v, NoMinorFormat, DefaultTargetRelease, "1");
    assert "v" + "1" == "v1";
  }

  lemma FormatTargetPatch()
    ensures Format(FormatTableVersion(""), FullFormat, TargetPatch) == Ok("1.2.4-dev.10+fcf2c8f")
  {
    var v := FormatTableVersion("");
    var e := Project(v, TargetPatch);
    DecimalTen();
    assert e == Version("", 1, 2, 4, "dev.10", 10, "fcf2c8f");
    assert Decimal(1) == "1" && Decimal(2) == "2" && Decimal(4) == "4";
    assert TripletString(e) == "1.2.4";
    RenderDev(e, "1.2.4");
    TableAffixes();
    assert Render(FullFormat, e) == "1.2.4-dev.10+fcf2c8f";
    FormatRenders(v, FullFormat, TargetPatch, "1.2.4-dev.10+fcf2c8f");
  }

  lemma FormatTargetMinor()
    ensures Format(FormatTableVersion(""), FullFormat, TargetMinor) == Ok("1.3.0-dev.10+fcf2c8f")
  {
    var v := FormatTableVersion("");
    var e := Project(v, TargetMinor);
    DecimalTen();
    assert e == Version("", 1, 3, 0, "dev.10", 10, "fcf2c8f");
    assert Decimal(0) == "0" && Decimal(1) == "1" && Decimal(3) == "3";
    assert TripletString(e) == "1.3.0";
    RenderDev(e, "1.3.0");
    TableAffixes();
    assert Render(FullFormat, e) == "1.3.0-dev.10+fcf2c8f";
    FormatRenders(v, FullFormat, TargetMinor, "1.3.0-dev.10+fcf2c8f");
  }

  lemma FormatTargetMajor()
    ensures Format(FormatTableVersion(""), FullFormat, TargetMajor) == Ok("2.0.0-dev.10+fcf2c8f")
  {
    var v := FormatTableVersion("");
    var e := Project(v, TargetMajor);
    DecimalTen();
    assert e == Version("", 2, 0, 0, "dev.10", 10, "fcf2c8f");
    assert Decimal(0) == "0" && Decimal(2) == "2";
    assert TripletString(e) == "2.0.0";
    RenderDev(e, "2.0.0");
    TableAffixes();
    assert Render(FullFormat, e) == "2.0.0-dev.10+fcf2c8f";
    FormatRenders(v, FullFormat, TargetMajor, "2.0.0-dev.10+fcf2c8f");
  }

  /** The free-form template `x.y-p` is the two-field triplet and the pre-release. */
  lemma RenderShortPre(e: Version)
    ensures IsTemplate("x.y-p")
    ensures Render("x.y-p", e) == Decimal(e.major) + "." + Decimal(e.minor) + Affix('-', e.preRelease)
  {
    RenderTriplet(e);
    RenderSeparated('-', 'p', e);
    assert "-p" == ['-', 'p'];
    assert "x.y-p" == NoPatchFormat + "-p";
    RenderAppend(NoPatchFormat, "-p", e);
  }

  /** A free-form template: a pre-release after a two-field triplet. */
  lemma FormatFreeForm()
    ensures Format(FormatTableVersion("v"), "x.y-p", DefaultTargetRelease) == Ok("v1.2-dev.10")
  {
    var v := FormatTableVersion("v");
    var e := Project(v, DefaultTargetRelease);
    DecimalTen();
    assert e == Version("v", 1, 2, 4, "dev.10", 10, "fcf2c8f");
    assert Decimal(1) == "1" && Decimal(2) == "2";
    RenderShortPre(e);
    TableAffixes();
    assert Render("x.y-p", e) == "1.2-dev.10";
    FormatRenders(v, "x.y-p", DefaultTargetRelease, "1.2-dev.10");
  }

  /** `String` read off the full template's closed form. */
  lemma StringIs(v: Version, t: string, pre: string, meta: string, out: string)
    requires var e := Project(v, DefaultTargetRelease);
      TripletString(e) == t && Affix('-', e.preRelease) == pre && Affix('+', e.meta) == meta
    requires v.prefix + t + pre + meta == out
    ensures String(v) == out
  {
    NamedFormats(v, DefaultTargetRelease);
  }

  /** Literal assemblies of the `String` table. */
  lemma StringTexts()
    ensures "" + "1.2.4" + "-dev.10" + "+fcf2c8f" == "1.2.4-dev.10+fcf2c8f"
    ensures "" + "0.3.1" + "" + "" == "0.3.1"
    ensures "v" + "0.3.1" + "" + "" == "v0.3.1"
    ensures "" + "1.3.0" + "-rc.3" + "" == "1.3.0-rc.3"
    ensures "" + "2.5.0" + "-rc.3.dev.3" + "" == "2.5.0-rc.3.dev.3"
  {
  }

  lemma StringProjected()
    ensures String(Version("", 1, 2, 3, "", 10, "fcf2c8f")) == "1.2.4-dev.10+fcf2c8f"
  {
    var v := Version("", 1, 2, 3, "", 10, "fcf2c8f");
    var e := Project(v, DefaultTargetRelease);
    DecimalTen();
    assert e == Version("", 1, 2, 4, "dev.10", 10, "fcf2c8f");
    assert Decimal(1) == "1" && Decimal(2) == "2" && Decimal(4) == "4";
    assert TripletString(e) == "1.2.4";
    TableAffixes();
    StringTexts();
    StringIs(v, "1.2.4", "-dev.10", "+fcf2c8f", "1.2.4-dev.10+fcf2c8f");
  }

  lemma StringAtTag()
    ensures String(Version("", 0, 3, 1, "", 0, "")) == "0.3.1"
    ensures String(Version("v", 0, 3, 1, "", 0, "")) == "v0.3.1"
  {
    assert Decimal(0) == "0" && Decimal(3) == "3" && Decimal(1) == "1";
    StringTexts();
    var v := Version("", 0, 3, 1, "", 0, "");
    assert TripletString(v) == "0.3.1";
    StringIs(v, "0.3.1", "", "", "0.3.1");
    var w := v.(prefix := "v");
    assert TripletString(w) == "0.3.1";
    StringIs(w, "0.3.1", "", "", "v0.3.1");
  }

  lemma StringPreRelease()
    ensures String(Version("", 1, 3, 0, "rc.3", 0, "")) == "1.3.0-rc.3"
  {
    var v := Version("", 1, 3, 0, "rc.3", 0, "");
    assert Decimal(0) == "0" && Decimal(3) == "3" && Decimal(1) == "1";
    assert TripletString(v) == "1.3.0";
    StringTexts();
    StringIs(v, "1.3.0", "-rc.3", "", "1.3.0-rc.3");
  }

  lemma StringPreReleaseDev()
    ensures String(Version("", 2, 5, 0, "rc.3", 3, "")) == "2.5.0-rc.3.dev.3"
  {
    var v := Version("", 2, 5, 0, "rc.3", 3, "");
    var e := Project(v, DefaultTargetRelease);
    assert Decimal(0) == "0" && Decimal(3) == "3" && Decimal(2) == "2" && Decimal(5) == "5";
    assert e.preRelease == "rc.3" + "." + "dev." + "3" == "rc.3.dev.3";
    assert e == v.(preRelease := "rc.3.dev.3");
    assert TripletString(e) == "2.5.0";
    StringTexts();
    StringIs(v, "2.5.0", "-rc.3.dev.3", "", "2.5.0-rc.3.dev.3");
  }

  lemma FormatRejectsUnknownField()
    ensures Format(Version("", 1, 2, 3, "", 0, ""), "q", DefaultTargetRelease).Err?
    ensures Message(Format(Version("", 1, 2, 3, "", 0, ""), "q", DefaultTargetRelease).error)
         == "invalid format: q"
  {
    assert !IsTemplate("q") by {
      assert "q"[0] == 'q';
    }
  }

  lemma TargetNames()
    ensures Name(TargetPatch) == "patch" && Name(TargetMinor) == "minor" && Name(TargetMajor) == "major"
    ensures ParseTarget("foo") == Err("parse error")
  {
  }

  /** `Set` on a fresh variable for each name, as a command-line flag would be
      set: the error each call reports and the value the variable then holds. */
  method SetTable() returns (errs: seq<Option<string>>, values: seq<TargetRelease>)
    ensures errs == [Some("parse error"), None, None, None]
    ensures values == [DefaultTargetRelease, TargetPatch, TargetMinor, TargetMajor]
  {
    errs, values := [], [];
    var v := new TargetVar(DefaultTargetRelease);
    var err := v.Set("foo");
    errs, values := errs + [err], values + [v.value];
    v := new TargetVar(DefaultTargetRelease);
    err := v.Set("patch");
    NamesDistinct(v.value, TargetPatch);
    errs, values := errs + [err], values + [v.value];
    v := new TargetVar(DefaultTargetRelease);
    err := v.Set("minor");
    NamesDistinct(v.value, TargetMinor);
    errs, values := errs + [err], values + [v.value];
    v := new TargetVar(DefaultTargetRelease);
    err := v.Set("major");
    NamesDistinct(v.value, TargetMajor);
    errs, values := errs + [err], values + [v.value];
  }
}
