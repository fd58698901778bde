/**
 * The pure part of the version-bump script: parsing `MAJOR.MINOR.PATCH`,
 * bumping one component, formatting the result, and choosing the target
 * version from the command-line options.
 */
module BumpVersion {
  import opened Outcomes
  import opened Strings

  datatype Version = Version(major: int, minor: int, patch: int)

  /** The ValueError `_format_bump` raises for a version not of the form `M.m.p`. */
  datatype BumpError = NotMajorMinorPatch(version: string)

  /** Lexicographic order on (major, minor, patch). */
  predicate Precedes(v: Version, w: Version)
  {
    v.major < w.major
    || (v.major == w.major && v.minor < w.minor)
    || (v.major == w.major && v.minor == w.minor && v.patch < w.patch)
  }

  /**
   * `(int(part) for part in version.split("."))` unpacked into three names:
   * exactly three parts, each an integer.
   */
  function ParseVersion(s: string): (r: Option<Version>)
    ensures r.Some? <==> |Split(s, '.')| == 3 && forall i :: 0 <= i < 3 ==> ParseInt(Split(s, '.')[i]).Some?
    ensures r.Some? ==> Some(r.value.major) == ParseInt(Split(s, '.')[0])
                        && Some(r.value.minor) == ParseInt(Split(s, '.')[1])
                        && Some(r.value.patch) == ParseInt(Split(s, '.')[2])
  {
    var parts := Split(s, '.');
    if |parts| != 3 then None
    else
      match (ParseInt(parts[0]), ParseInt(parts[1]), ParseInt(parts[2]))
      case (Some(major), Some(minor), Some(patch)) => Some(Version(major, minor, patch))
      case _ => None
  }

  /** The bump itself: "major" and "minor" reset the lower components; anything else bumps the patch. */
  function Bumped(v: Version, bump: string): (r: Version)
    ensures Precedes(v, r)
    ensures bump == "major" ==> r.major == v.major + 1 && r.minor == 0 && r.patch == 0
    ensures bump == "minor" ==> r.major == v.major && r.minor == v.minor + 1 && r.patch == 0
    ensures bump != "major" && bump != "minor" ==> r.major == v.major && r.minor == v.minor && r.patch == v.patch + 1
  {
    if bump == "major" then Version(v.major + 1, 0, 0)
    else if bump == "minor" then Version(v.major, v.minor + 1, 0)
    else Version(v.major, v.minor, v.patch + 1)
  }

  /** `f"{major}.{minor}.{patch}"`: three decimal numerals separated by '.'. */
  function FormatVersion(v: Version): (r: string)
    ensures Split(r, '.') == [FormatInt(v.major), FormatInt(v.minor), FormatInt(v.patch)]
  {
    var a, b, c := FormatInt(v.major), FormatInt(v.minor), FormatInt(v.patch);
    SplitWithoutSep(c, '.');
    SplitAfterPiece(b, c, '.');
    SplitAfterPiece(a, b + ['.'] + c, '.');
    assert a + "." + b + "." + c == a + ['.'] + (b + ['.'] + c);
    a + "." + b + "." + c
  }

  /** `_format_bump(version, bump)`. */
  function FormatBump(version: string, bump: string): (r: Result<string, BumpError>)
    ensures r.Err? <==> ParseVersion(version).None?
    ensures r.Err? ==> r.error == NotMajorMinorPatch(version)
  {
    match ParseVersion(version)
    case None => Err(NotMajorMinorPatch(version))
    case Some(v) => Ok(FormatVersion(Bumped(v, bump)))
  }

  /** Splitting a formatted version on '.' and parsing the parts gives the version back. */
  lemma ParseFormatRoundTrip(v: Version)
    ensures ParseVersion(FormatVersion(v)) == Some(v)
  {
    FormatIntRoundTrip(v.major);
    FormatIntRoundTrip(v.minor);
    FormatIntRoundTrip(v.patch);
  }

  /**
   * A successful bump yields a well-formed version, strictly later than the
   * one given, which parses back to the bumped triple.
   */
  lemma FormatBumpAdvances(version: string, bump: string)
    requires FormatBump(version, bump).Ok?
    ensures ParseVersion(FormatBump(version, bump).value).Some?
    ensures Precedes(ParseVersion(version).value, ParseVersion(FormatBump(version, bump).value).value)
  {
    var v := ParseVersion(version).value;
    ParseFormatRoundTrip(Bumped(v, bump));
  }

  /** The three kinds of bump on a formatted version. */
  lemma FormatBumpKinds(major: int, minor: int, patch: int, other: string)
    requires other != "major" && other != "minor"
    ensures FormatBump(FormatVersion(Version(major, minor, patch)), "major")
            == Ok(FormatVersion(Version(major + 1, 0, 0)))
    ensures FormatBump(FormatVersion(Version(major, minor, patch)), "minor")
            == Ok(FormatVersion(Version(major, minor + 1, 0)))
    ensures FormatBump(FormatVersion(Version(major, minor, patch)), other)
            == Ok(FormatVersion(Version(major, minor, patch + 1)))
  {
    ParseFormatRoundTrip(Version(major, minor, patch));
  }

  /** Too few parts are rejected. */
  lemma TooFewPartsRejected(bump: string)
    ensures FormatBump("1.2", bump) == Err(NotMajorMinorPatch("1.2"))
  {
    assert "1.2" == Join(["1", "2"], '.');
    SplitJoin(["1", "2"], '.');
  }

  /** Too many parts are rejected. */
  lemma TooManyPartsRejected(bump: string)
    ensures FormatBump("1.2.3.4", bump) == Err(NotMajorMinorPatch("1.2.3.4"))
  {
    assert "1.2.3.4" == Join(["1", "2", "3", "4"], '.');
    SplitJoin(["1", "2", "3", "4"], '.');
  }

  /** A non-numeric part is rejected. */
  lemma NonNumericPartRejected(bump: string)
    ensures FormatBump("1.x.3", bump) == Err(NotMajorMinorPatch("1.x.3"))
  {
    assert "1.x.3" == Join(["1", "x", "3"], '.');
    SplitJoin(["1", "x", "3"], '.');
    assert !IsDigits("x");
  }

  /**
   * The target version in `main`: a non-empty `--version` wins; otherwise the
   * current version bumped by `--bump`, "patch" when that is absent or empty,
   * which fails exactly when the current version is not `M.m.p`.
   */
  function ChooseTarget(version: Option<string>, bump: Option<string>, current: string): (r: Result<string, BumpError>)
    ensures version.Some? && version.value != [] ==> r == Ok(version.value)
    ensures !(version.Some? && version.value != []) ==>
              (r.Err? <==> ParseVersion(current).None?)
              && (r.Err? ==> r.error == NotMajorMinorPatch(current))
    ensures !(version.Some? && version.value != []) && bump.Some? && bump.value != [] ==>
              r == FormatBump(current, bump.value)
    ensures !(version.Some? && version.value != []) && (bump.None? || bump.value == []) ==>
              r == FormatBump(current, "patch")
  {
    if version.Some? && version.value != [] then Ok(version.value)
    else FormatBump(current, if bump.Some? && bump.value != [] then bump.value else "patch")
  }
}
