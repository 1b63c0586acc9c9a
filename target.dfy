/** The target release: which release a version with commits past its tag is
    projected to, with its command-line names. */
module Targets {
  import opened Wrappers

  /** A closed set of three targets; an ordinal outside it cannot be built. */
  datatype TargetRelease = TargetPatch | TargetMinor | TargetMajor

  const DefaultTargetRelease: TargetRelease := TargetPatch

  /** `TargetRelease.String`: each target's name, which `Set` parses back to it. */
  function Name(t: TargetRelease): (n: string)
    ensures ParseTarget(n) == Ok(t)
  {
    match t
    case TargetPatch => "patch"
    case TargetMinor => "minor"
    case TargetMajor => "major"
  }

  /** The parse behind `TargetRelease.Set`: an exact, case-sensitive match
      against the three names; anything else is `parse error`. */
  function ParseTarget(s: string): (r: Result<TargetRelease, string>)
    ensures r.Ok? <==> s == "patch" || s == "minor" || s == "major"
    ensures r.Err? ==> r.error == "parse error"
  {
    if s == "patch" then Ok(TargetPatch)
    else if s == "minor" then Ok(TargetMinor)
    else if s == "major" then Ok(TargetMajor)
    else Err("parse error")
  }

  /** Names and parsing are inverse: each target is parsed back from its name,
      and a name parses to a target only if it is that target's name. */
  lemma ParseTargetName(s: string, t: TargetRelease)
    ensures ParseTarget(s) == Ok(t) <==> s == Name(t)
  {
  }

  /** The three names are distinct. */
  lemma NamesDistinct(a: TargetRelease, b: TargetRelease)
    ensures Name(a) == Name(b) <==> a == b
  {
  }

  /** A target variable as the command line holds one: `Set` updates it in place. */
  class TargetVar {
    var value: TargetRelease

    constructor (initial: TargetRelease)
      ensures value == initial
    {
      value := initial;
    }

    /** `TargetRelease.Set`: on a known name, the variable takes that target;
        otherwise the error `parse error` and the variable is left as it was. */
    method Set(s: string) returns (err: Option<string>)
      modifies this
      ensures err.None? <==> s == "patch" || s == "minor" || s == "major"
      ensures err.None? ==> Name(value) == s
      ensures err.Some? ==> err.value == "parse error" && value == old(value)
    {
      match ParseTarget(s)
      case Ok(t) =>
        ParseTargetName(s, t);
        value := t;
        err := None;
      case Err(e) =>
        err := Some(e);
    }
  }
}
