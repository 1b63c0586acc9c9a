/** The version value and the tag parser `NewFromHead`: a repository head
    (last tag, commits since it, short hash) becomes a `Version`. */
module Versions {
  import opened Wrappers
  import opened Text

  /** What the repository reports about the current commit. Reading it from Git
      is not part of this model: the head is an input. */
  datatype RepoHead = RepoHead(lastTag: string, commitsSinceTag: nat, hash: string)

  /** A parsed version. `preRelease` is unexported in the source but observable
      through formatting. */
  datatype Version = Version(
    prefix: string,
    major: nat,
    minor: nat,
    patch: nat,
    preRelease: string,
    commits: nat,
    meta: string)

  /** Go's zero `Version{}`. */
  const Zero := Version("", 0, 0, 0, "", 0, "")

  /** The parser's single, coarse error: the offending tag. */
  datatype ParseError = InvalidVersion(tag: string)

  /** The numeric core of a tag. */
  datatype Triplet = Triplet(major: nat, minor: nat, patch: nat)

  /** What a tag alone contributes: `meta` is `None` when the tag has no `+`. */
  datatype Tag = Tag(prefix: string, triplet: Triplet, preRelease: string, meta: Option<string>)

  /** Exactly three dot-separated, non-empty runs of decimal digits. */
  function ParseTriplet(s: string): Option<Triplet> {
    var first := CutAt(s, '.');
    if first.after.None? then None
    else
      var second := CutAt(first.after.value, '.');
      if second.after.None? then None
      else
        var x, y, z := first.before, second.before, second.after.value;
        if IsDecimal(x) && IsDecimal(y) && IsDecimal(z) then
          Some(Triplet(Value(x), Value(y), Value(z)))
        else
          None
  }

  /** The raw pieces of a tag: its leading letters, the numeric text, and the
      text after the first `-` and after the first `+`, when present. */
  datatype Pieces = Pieces(prefix: string, triplet: string, preRelease: Option<string>, meta: Option<string>)

  /** The pieces put back together. */
  function Assemble(p: Pieces): string {
    p.prefix + ((p.triplet + Delimited('-', p.preRelease)) + Delimited('+', p.meta))
  }

  /** Scans a tag left to right: the alphabetic prefix, then a cut at the first
      `+` (build metadata), then a cut of the remaining body at the first `-`
      (pre-release). The pieces reassemble to the tag and no delimiter is
      swallowed by an earlier piece. */
  function Scan(s: string): (p: Pieces)
    ensures Assemble(p) == s
    ensures p.prefix == s[..AlphaRun(s)] && AllAlpha(p.prefix)
    ensures '+' !in p.triplet && '-' !in p.triplet
    ensures p.preRelease.Some? ==> '+' !in p.preRelease.value
  {
    var n := AlphaRun(s);
    var rest := CutAt(s[n..], '+');
    var body := CutAt(rest.before, '-');
    Reassemble(s, n);
    PlusFree(body.before, body.after, rest.before);
    Pieces(s[..n], body.before, body.after, rest.after)
  }

  lemma PlusFree(a: string, o: Option<string>, whole: string)
    requires whole == a + Delimited('-', o) && '+' !in whole
    ensures '+' !in a && (o.Some? ==> '+' !in o.value)
  {
    if o.Some? {
      assert whole == a + ['-'] + o.value;
    }
  }

  /** In pieces whose leading parts have no `+`, the metadata piece is whatever
      follows the first `+` of the assembled tag. */
  lemma AssembledMeta(p: Pieces)
    requires AllAlpha(p.prefix) && '+' !in p.triplet
    requires p.preRelease.Some? ==> '+' !in p.preRelease.value
    ensures CutAt(Assemble(p), '+').after == p.meta
  {
    var body := p.triplet + Delimited('-', p.preRelease);
    assert '+' !in p.prefix;
    PlusFreeBack(p.triplet, p.preRelease);
    assert Assemble(p) == (p.prefix + body) + Delimited('+', p.meta);
    CutAtUnique(p.prefix + body, '+', p.meta);
  }

  /** The metadata piece is whatever follows the first `+` of the tag. */
  lemma ScanMeta(s: string)
    ensures Scan(s).meta == CutAt(s, '+').after
    ensures Scan(s).meta.Some? <==> '+' in s
  {
    AssembledMeta(Scan(s));
    CutAtFound(s, '+');
  }

  lemma PlusFreeBack(a: string, o: Option<string>)
    requires '+' !in a && (o.Some? ==> '+' !in o.value)
    ensures '+' !in a + Delimited('-', o)
  {
  }

  /** Parses a tag: its scanned pieces, with the numeric text read as a triplet. */
  function ParseTag(s: string): (r: Result<Tag, ParseError>)
    ensures r.Ok? <==> ParseTriplet(Scan(s).triplet).Some?
    ensures r.Ok? ==> r.value.prefix == s[..AlphaRun(s)] && AllAlpha(r.value.prefix)
    ensures r.Err? ==> r.error == InvalidVersion(s)
  {
    var p := Scan(s);
    match ParseTriplet(p.triplet)
    case None => Err(InvalidVersion(s))
    case Some(x) => Ok(Tag(p.prefix, x, p.preRelease.GetOr(""), p.meta))
  }

  /** `NewFromHead`: the zero version for a head without a tag; otherwise the
      parsed tag, checked against the expected prefix when one is given, with
      the commit count taken from the head and the head's hash as metadata
      unless the tag carries its own `+` metadata. */
  function NewFromHead(head: RepoHead, expectedPrefix: string): (r: Result<Version, ParseError>)
    ensures head.lastTag == "" ==> r == Ok(Zero)
    ensures head.lastTag != "" && r.Ok? ==>
      && r.value.commits == head.commitsSinceTag
      && r.value.prefix <= head.lastTag
      && AllAlpha(r.value.prefix)
      && (expectedPrefix != "" ==> r.value.prefix == expectedPrefix)
      && ('+' !in head.lastTag ==> r.value.meta == head.hash)
      && ('+' in head.lastTag ==> CutAt(head.lastTag, '+').after == Some(r.value.meta))
    ensures head.lastTag != "" && r.Err? ==> r.error == InvalidVersion(head.lastTag)
  {
    if head.lastTag == "" then Ok(Zero)
    else
      var s := head.lastTag;
      match ParseTag(s)
      case Err(e) => Err(e)
      case Ok(t) =>
        if expectedPrefix != "" && t.prefix != expectedPrefix then
          Err(InvalidVersion(s))
        else
          ScanMeta(s);
          Ok(Version(t.prefix, t.triplet.major, t.triplet.minor, t.triplet.patch,
                     t.preRelease, head.commitsSinceTag, t.meta.GetOr(head.hash)))
  }

  /** `NewFromHead` fails exactly on a tag whose numeric text is no triplet or
      whose prefix differs from the expected one. */
  lemma NewFromHeadFails(head: RepoHead, expectedPrefix: string)
    ensures NewFromHead(head, expectedPrefix).Err? <==>
      && head.lastTag != ""
      && (|| ParseTriplet(Scan(head.lastTag).triplet).None?
          || (expectedPrefix != "" && Scan(head.lastTag).prefix != expectedPrefix))
  {
  }

  // The accepted tag grammar, written as the pieces a tag is spelled from:
  //   prefix major "." minor "." patch [ "-" preRelease ] [ "+" meta ]

  datatype TagText = TagText(
    prefix: string,
    major: string,
    minor: string,
    patch: string,
    preRelease: Option<string>,
    meta: Option<string>)

  /** Letters for the prefix, digits for the triplet, and a pre-release that does
      not run into the metadata. */
  predicate WellFormed(t: TagText) {
    && AllAlpha(t.prefix)
    && IsDecimal(t.major) && IsDecimal(t.minor) && IsDecimal(t.patch)
    && (t.preRelease.Some? ==> '+' !in t.preRelease.value)
  }

  function TripletText(x: string, y: string, z: string): string {
    x + "." + y + "." + z
  }

  function Spell(t: TagText): string {
    t.prefix + ((TripletText(t.major, t.minor, t.patch) + Delimited('-', t.preRelease))
                + Delimited('+', t.meta))
  }

  function Denote(t: TagText): Tag
    requires WellFormed(t)
  {
    Tag(t.prefix, Triplet(Value(t.major), Value(t.minor), Value(t.patch)),
        t.preRelease.GetOr(""), t.meta)
  }

  lemma NoDelimiterInDecimal(s: string, c: char)
    requires IsDecimal(s) && !IsDigit(c)
    ensures c !in s
  {
  }

  lemma TripletTextCuts(x: string, y: string, z: string)
    ensures TripletText(x, y, z) == x + Delimited('.', Some(y + Delimited('.', Some(z))))
  {
  }

  /** Three digit runs joined by dots are read back as their values. */
  lemma ParseTripletSpelled(x: string, y: string, z: string)
    requires IsDecimal(x) && IsDecimal(y) && IsDecimal(z)
    ensures ParseTriplet(TripletText(x, y, z)) == Some(Triplet(Value(x), Value(y), Value(z)))
  {
    NoDelimiterInDecimal(x, '.');
    NoDelimiterInDecimal(y, '.');
    TripletTextCuts(x, y, z);
    CutAtUnique(x, '.', Some(y + Delimited('.', Some(z))));
    CutAtUnique(y, '.', Some(z));
  }

  /** An accepted triplet is three digit runs joined by dots. */
  lemma ParsedTripletSpelled(s: string) returns (x: string, y: string, z: string)
    requires ParseTriplet(s).Some?
    ensures IsDecimal(x) && IsDecimal(y) && IsDecimal(z)
    ensures s == TripletText(x, y, z)
    ensures ParseTriplet(s) == Some(Triplet(Value(x), Value(y), Value(z)))
  {
    var first := CutAt(s, '.');
    var second := CutAt(first.after.value, '.');
    x, y, z := first.before, second.before, second.after.value;
    assert first.after.value == y + Delimited('.', Some(z));
    assert s == x + Delimited('.', Some(first.after.value));
    TripletTextCuts(x, y, z);
  }

  /** Every tag spelled by the grammar is accepted, with the pieces it was
      spelled from. */
  lemma ParseSpelled(t: TagText)
    requires WellFormed(t)
    ensures ParseTag(Spell(t)) == Ok(Denote(t))
  {
    var s := Spell(t);
    var triplet := TripletText(t.major, t.minor, t.patch);
    var body := triplet + Delimited('-', t.preRelease);
    var tail := body + Delimited('+', t.meta);
    NoDelimiterInDecimal(t.major, '-');
    NoDelimiterInDecimal(t.minor, '-');
    NoDelimiterInDecimal(t.patch, '-');
    NoDelimiterInDecimal(t.major, '+');
    NoDelimiterInDecimal(t.minor, '+');
    NoDelimiterInDecimal(t.patch, '+');
    assert triplet[0] == t.major[0];
    assert body[0] == triplet[0];
    assert tail[0] == body[0];
    AlphaRunOf(t.prefix, tail);
    ConcatParts(t.prefix, tail);
    assert '-' !in triplet;
    assert '+' !in body;
    CutAtUnique(body, '+', t.meta);
    CutAtUnique(triplet, '-', t.preRelease);
    ParseTripletSpelled(t.major, t.minor, t.patch);
  }

  /** Every accepted tag is spelled by the grammar, and parses to what that
      spelling denotes. */
  lemma ParsedIsSpelled(s: string)
    requires ParseTag(s).Ok?
    ensures exists t :: WellFormed(t) && Spell(t) == s && ParseTag(s) == Ok(Denote(t))
  {
    var p := Scan(s);
    var x, y, z := ParsedTripletSpelled(p.triplet);
    var t := TagText(p.prefix, x, y, z, p.preRelease, p.meta);
    assert Spell(t) == Assemble(p);
    assert WellFormed(t);
    assert ParseTag(s) == Ok(Denote(t));
  }

  /** `NewFromHead` accepts exactly the non-empty tags the grammar spells (with a
      matching prefix when one is expected), and builds the version from the
      spelled pieces and the head. */
  lemma NewFromHeadSpelled(t: TagText, commits: nat, hash: string, expectedPrefix: string)
    requires WellFormed(t)
    requires expectedPrefix == "" || expectedPrefix == t.prefix
    ensures NewFromHead(RepoHead(Spell(t), commits, hash), expectedPrefix)
         == Ok(Version(t.prefix, Value(t.major), Value(t.minor), Value(t.patch),
                       t.preRelease.GetOr(""), commits, t.meta.GetOr(hash)))
  {
    ParseSpelled(t);
  }

  lemma NewFromHeadOnlySpelled(head: RepoHead, expectedPrefix: string)
    requires head.lastTag != ""
    requires NewFromHead(head, expectedPrefix).Ok?
    ensures exists t :: && WellFormed(t) && Spell(t) == head.lastTag
                        && (expectedPrefix == "" || expectedPrefix == t.prefix)
                        && NewFromHead(head, expectedPrefix)
                           == Ok(Version(t.prefix, Value(t.major), Value(t.minor), Value(t.patch),
                                         t.preRelease.GetOr(""), head.commitsSinceTag,
                                         t.meta.GetOr(head.hash)))
  {
    ParsedIsSpelled(head.lastTag);
  }
}
