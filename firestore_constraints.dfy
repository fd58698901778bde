/**
 * Firestore's structural limits on field names and map nesting, checked
 * before any write is attempted. Each validator either passes or raises a
 * constraint error naming the offending name or depth.
 */
module FirestoreConstraints {
  import opened Outcomes

  /** Maps may nest at most this many levels; depths are counted from 0. */
  const MAX_NESTING_DEPTH: int := 20
  /** A field name may take at most this many bytes once UTF-8 encoded. */
  const MAX_FIELD_NAME_BYTES: int := 1500

  /** The reasons a FirestoreConstraintError is raised. */
  datatype ConstraintError =
    | DepthExceeded(depth: int)
    | EmptyName(atDepth: int)
    | ReservedName(name: string, atDepth: int)
    | SurroundingWhitespace(name: string, atDepth: int)
    | NameTooLong(name: string, bytes: nat, atDepth: int)

  /** Rejects a nesting depth of MAX_NESTING_DEPTH or more. */
  function ValidateNestingDepth(depth: int): (r: Outcome<ConstraintError>)
    ensures r.Pass? <==> depth < MAX_NESTING_DEPTH
    ensures r.Fail? ==> r.error == DepthExceeded(depth)
  {
    if depth >= MAX_NESTING_DEPTH then Fail(DepthExceeded(depth)) else Pass
  }

  // ---------------------------------------------------------------------------
  // Whitespace and str.strip()
  // ---------------------------------------------------------------------------

  /** The characters Python's `str.strip()` removes (those `str.isspace()` accepts). */
  predicate IsSpace(c: char)
  {
    var n := c as int;
    (0x09 <= n <= 0x0D) || (0x1C <= n <= 0x20) || n == 0x85 || n == 0xA0 || n == 0x1680
    || (0x2000 <= n <= 0x200A) || n == 0x2028 || n == 0x2029 || n == 0x202F
    || n == 0x205F || n == 0x3000
  }

  /** Every character of `t` is whitespace. */
  predicate AllSpace(t: string)
  {
    forall i :: 0 <= i < |t| ==> IsSpace(t[i])
  }

  /** Whitespace in front of an all-whitespace string. */
  lemma AllSpaceCons(c: char, t: string)
    requires IsSpace(c) && AllSpace(t)
    ensures AllSpace([c] + t)
  {
  }

  /** Whitespace after an all-whitespace string. */
  lemma AllSpaceSnoc(t: string, c: char)
    requires AllSpace(t) && IsSpace(c)
    ensures AllSpace(t + [c])
  {
  }

  /** `s.lstrip()`: drops leading whitespace. */
  function LStrip(s: string): (r: string)
    ensures |r| <= |s| && r == s[|s| - |r|..]
    ensures r == [] || !IsSpace(r[0])
    ensures AllSpace(s[..|s| - |r|])
    ensures s != [] && IsSpace(s[0]) ==> |r| < |s|
    decreases |s|
  {
    if s != [] && IsSpace(s[0]) then
      var r := LStrip(s[1..]);
      AllSpaceCons(s[0], s[1..][..|s| - 1 - |r|]);
      assert s[..|s| - |r|] == [s[0]] + s[1..][..|s| - 1 - |r|];
      r
    else s
  }

  /** `s.rstrip()`: drops trailing whitespace. */
  function RStrip(s: string): (r: string)
    ensures |r| <= |s| && r == s[..|r|]
    ensures r == [] || !IsSpace(r[|r| - 1])
    ensures AllSpace(s[|r|..])
    ensures s != [] && IsSpace(s[|s| - 1]) ==> |r| < |s|
    decreases |s|
  {
    if s != [] && IsSpace(s[|s| - 1]) then
      var r := RStrip(s[..|s| - 1]);
      AllSpaceSnoc(s[..|s| - 1][|r|..], s[|s| - 1]);
      assert s[|r|..] == s[..|s| - 1][|r|..] + [s[|s| - 1]];
      r
    else s
  }

  /** `s.strip()`. */
  function Strip(s: string): string
  {
    RStrip(LStrip(s))
  }

  /** A string equals its stripped form exactly when it neither starts nor ends with whitespace. */
  lemma StripUnchangedIff(s: string)
    ensures Strip(s) == s <==> s == [] || (!IsSpace(s[0]) && !IsSpace(s[|s| - 1]))
  {
    if s == [] {
    } else if IsSpace(s[0]) {
      assert |LStrip(s)| < |s|;
    } else {
      assert LStrip(s) == s;
      if IsSpace(s[|s| - 1]) {
        assert |RStrip(s)| < |s|;
      } else {
        assert RStrip(s) == s;
      }
    }
  }

  // ---------------------------------------------------------------------------
  // UTF-8 length
  // ---------------------------------------------------------------------------

  /** Bytes UTF-8 uses for one code point. */
  function Utf8Width(c: char): nat
  {
    var n := c as int;
    if n < 0x80 then 1 else if n < 0x800 then 2 else if n < 0x10000 then 3 else 4
  }

  /** `len(s.encode('utf-8'))`. */
  function Utf8Length(s: string): nat
    decreases |s|
  {
    if s == [] then 0 else Utf8Width(s[0]) + Utf8Length(s[1..])
  }

  /** An ASCII string takes one byte per character. */
  lemma {:induction false} AsciiUtf8Length(s: string)
    requires forall i :: 0 <= i < |s| ==> s[i] as int < 0x80
    ensures Utf8Length(s) == |s|
    decreases |s|
  {
    if s != [] {
      AsciiUtf8Length(s[1..]);
    }
  }

  /** Every code point takes between one and four bytes. */
  lemma {:induction false} Utf8LengthBounds(s: string)
    ensures |s| <= Utf8Length(s) <= 4 * |s|
    decreases |s|
  {
    if s != [] {
      Utf8LengthBounds(s[1..]);
    }
  }

  // ---------------------------------------------------------------------------
  // Field names
  // ---------------------------------------------------------------------------

  /** `name.startswith("__") and name.endswith("__")`. */
  predicate IsDunder(name: string)
  {
    |name| >= 2 && name[..2] == "__" && name[|name| - 2..] == "__"
  }

  /**
   * What Firestore accepts as a field name, stated without reference to
   * `strip()`: non-empty, not of the form `__x__`, no whitespace at either
   * end, at most MAX_FIELD_NAME_BYTES bytes.
   */
  predicate IsValidFieldName(name: string)
  {
    && name != []
    && !IsDunder(name)
    && !IsSpace(name[0]) && !IsSpace(name[|name| - 1])
    && Utf8Length(name) <= MAX_FIELD_NAME_BYTES
  }

  /**
   * Checks, in order, emptiness, the `__x__` pattern, surrounding
   * whitespace and the UTF-8 length, and reports the first that fails.
   * `depth` only appears in the error.
   */
  function ValidateFieldName(name: string, depth: int): (r: Outcome<ConstraintError>)
    ensures r.Pass? <==> IsValidFieldName(name)
    ensures r == Fail(EmptyName(depth)) <==> name == []
    ensures r.Fail? && r.error.ReservedName? <==> name != [] && IsDunder(name)
    ensures r.Fail? && r.error.SurroundingWhitespace?
            <==> name != [] && !IsDunder(name) && (IsSpace(name[0]) || IsSpace(name[|name| - 1]))
    ensures r.Fail? && r.error.NameTooLong?
            <==> name != [] && !IsDunder(name) && !IsSpace(name[0]) && !IsSpace(name[|name| - 1])
                 && Utf8Length(name) > MAX_FIELD_NAME_BYTES
    ensures r.Fail? ==> r.error.atDepth == depth
  {
    StripUnchangedIff(name);
    if name == [] then Fail(EmptyName(depth))
    else if IsDunder(name) then Fail(ReservedName(name, depth))
    else if name != Strip(name) then Fail(SurroundingWhitespace(name, depth))
    else if Utf8Length(name) > MAX_FIELD_NAME_BYTES then
      Fail(NameTooLong(name, Utf8Length(name), depth))
    else Pass
  }

  /** Depths 0 to 19 pass; 20 and above fail. */
  lemma NestingDepthBoundary()
    ensures ValidateNestingDepth(MAX_NESTING_DEPTH - 1).Pass?
    ensures ValidateNestingDepth(MAX_NESTING_DEPTH) == Fail(DepthExceeded(20))
    ensures ValidateNestingDepth(MAX_NESTING_DEPTH + 5).Fail?
  {
  }

  /** An ASCII name without whitespace ends and not starting with "__" is accepted. */
  lemma AsciiNameAccepted(name: string)
    requires |name| >= 2 && name[1] != '_'
    requires !IsSpace(name[0]) && !IsSpace(name[|name| - 1])
    requires forall i :: 0 <= i < |name| ==> name[i] as int < 0x80
    requires |name| <= MAX_FIELD_NAME_BYTES
    ensures ValidateFieldName(name, 0).Pass?
  {
    AsciiUtf8Length(name);
    assert name[..2][1] == name[1];
  }

  /** Plain identifiers are accepted. */
  lemma OrdinaryNamesAccepted()
    ensures ValidateFieldName("email", 0).Pass?
    ensures ValidateFieldName("user_name", 0).Pass?
  {
    AsciiNameAccepted("email");
    AsciiNameAccepted("user_name");
  }

  /** A single leading underscore, or trailing digits, do not make a name invalid. */
  lemma UnderscoreAndDigitNamesAccepted()
    ensures ValidateFieldName("_private", 0).Pass?
    ensures ValidateFieldName("field123", 0).Pass?
  {
    AsciiNameAccepted("_private");
    AsciiNameAccepted("field123");
  }

  /** Empty, `__x__`-shaped and space-padded names are rejected with their own error. */
  lemma MalformedNamesRejected()
    ensures ValidateFieldName("", 3) == Fail(EmptyName(3))
    ensures ValidateFieldName("__private__", 0) == Fail(ReservedName("__private__", 0))
    ensures ValidateFieldName("__", 0) == Fail(ReservedName("__", 0))
    ensures ValidateFieldName(" email", 0).Fail? && ValidateFieldName(" email", 0).error.SurroundingWhitespace?
    ensures ValidateFieldName("email ", 0).Fail? && ValidateFieldName("email ", 0).error.SurroundingWhitespace?
    ensures ValidateFieldName(" email ", 0).Fail? && ValidateFieldName(" email ", 0).error.SurroundingWhitespace?
  {
    assert "__private__"[..2] == "__" && "__private__"[9..] == "__";
    assert " email"[..2][0] == ' ';
    assert "email "[..2][0] == 'e';
    assert " email "[..2][0] == ' ';
  }

  /** 1500 one-byte characters are accepted; 1501 are rejected as too long. */
  lemma NameLengthBoundary()
    ensures ValidateFieldName(seq(MAX_FIELD_NAME_BYTES, _ => 'a'), 0).Pass?
    ensures var r := ValidateFieldName(seq(MAX_FIELD_NAME_BYTES + 1, _ => 'a'), 0);
            r.Fail? && r.error.NameTooLong?
  {
    var ok := seq(MAX_FIELD_NAME_BYTES, _ => 'a');
    var long := seq(MAX_FIELD_NAME_BYTES + 1, _ => 'a');
    AsciiUtf8Length(ok);
    AsciiUtf8Length(long);
    assert ok[..2][1] == 'a';
    assert long[..2][1] == 'a';
  }
}
