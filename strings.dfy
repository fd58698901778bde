/**
 * The few pieces of Python's string behaviour the core relies on:
 * `str.split(sep)` with a one-character separator, and `int(s)` / `str(n)`
 * on decimal integers.
 */
module Strings {
  import opened Outcomes

  /** Number of occurrences of `c` in `s`. */
  function Count(s: string, c: char): nat
    decreases |s|
  {
    if s == [] then 0 else (if s[0] == c then 1 else 0) + Count(s[1..], c)
  }

  /**
   * Python's `s.split(sep)`: the pieces between separators, in order,
   * including empty pieces; `"".split(sep)` is `[""]`.
   */
  function Split(s: string, sep: char): (parts: seq<string>)
    ensures |parts| == Count(s, sep) + 1
    decreases |s|
  {
    if s == [] then [[]]
    else
      var rest := Split(s[1..], sep);
      if s[0] == sep then [[]] + rest
      else [[s[0]] + rest[0]] + rest[1..]
  }

  /** Python's `sep.join(parts)`. */
  function Join(parts: seq<string>, sep: char): string
    requires |parts| >= 1
    decreases |parts|
  {
    if |parts| == 1 then parts[0] else parts[0] + [sep] + Join(parts[1..], sep)
  }

  /** Prefixing a character to the first piece prefixes it to the joined string. */
  lemma JoinConsChar(c: char, parts: seq<string>, sep: char)
    requires |parts| >= 1
    ensures Join([[c] + parts[0]] + parts[1..], sep) == [c] + Join(parts, sep)
  {
    var q := [[c] + parts[0]] + parts[1..];
    if |parts| > 1 {
      assert q[1..] == parts[1..];
      assert Join(q, sep) == ([c] + parts[0]) + [sep] + Join(parts[1..], sep);
    }
  }

  /** Joining the pieces with the separator gives back the original string. */
  lemma {:induction false} JoinSplit(s: string, sep: char)
    ensures Join(Split(s, sep), sep) == s
    decreases |s|
  {
    if s != [] {
      var rest := Split(s[1..], sep);
      JoinSplit(s[1..], sep);
      assert s == [s[0]] + s[1..];
      if s[0] == sep {
        assert Split(s, sep) == [[]] + rest;
        assert ([[]] + rest)[1..] == rest;
      } else {
        assert Split(s, sep) == [[s[0]] + rest[0]] + rest[1..];
        JoinConsChar(s[0], rest, sep);
      }
    }
  }

  /** No piece contains the separator. */
  lemma {:induction false} SplitPartsFree(s: string, sep: char)
    ensures forall i :: 0 <= i < |Split(s, sep)| ==> sep !in Split(s, sep)[i]
    decreases |s|
  {
    if s != [] {
      SplitPartsFree(s[1..], sep);
    }
  }

  /** A string without the separator splits into itself alone. */
  lemma {:induction false} SplitWithoutSep(s: string, sep: char)
    requires sep !in s
    ensures Split(s, sep) == [s]
    decreases |s|
  {
    if s != [] {
      SplitWithoutSep(s[1..], sep);
      assert s == [s[0]] + s[1..];
    }
  }

  /** Splitting `a + sep + b`, where `a` has no separator, yields `a` then the pieces of `b`. */
  lemma {:induction false} SplitAfterPiece(a: string, b: string, sep: char)
    requires sep !in a
    ensures Split(a + [sep] + b, sep) == [a] + Split(b, sep)
    decreases |a|
  {
    var s := a + [sep] + b;
    if a == [] {
      assert s[1..] == b;
    } else {
      assert s[1..] == a[1..] + [sep] + b;
      SplitAfterPiece(a[1..], b, sep);
      assert [a[0]] + a[1..] == a;
    }
  }

  /** Splitting what was joined from separator-free pieces gives the pieces back. */
  lemma {:induction false} SplitJoin(parts: seq<string>, sep: char)
    requires |parts| >= 1
    requires forall i :: 0 <= i < |parts| ==> sep !in parts[i]
    ensures Split(Join(parts, sep), sep) == parts
    decreases |parts|
  {
    if |parts| == 1 {
      SplitWithoutSep(parts[0], sep);
    } else {
      SplitJoin(parts[1..], sep);
      SplitAfterPiece(parts[0], Join(parts[1..], sep), sep);
      assert parts == [parts[0]] + parts[1..];
    }
  }

  /** The first piece is empty exactly when the string is empty or starts with the separator. */
  lemma FirstPieceEmpty(s: string, sep: char)
    ensures Split(s, sep)[0] == [] <==> s == [] || s[0] == sep
  {
  }

  /** The last piece is empty exactly when the string is empty or ends with the separator. */
  lemma {:induction false} LastPieceEmpty(s: string, sep: char)
    ensures var parts := Split(s, sep);
            parts[|parts| - 1] == [] <==> s == [] || s[|s| - 1] == sep
    decreases |s|
  {
    if s != [] {
      var t := s[1..];
      LastPieceEmpty(t, sep);
      if t != [] {
        assert t[|t| - 1] == s[|s| - 1];
      }
    }
  }

  /** The string contains the separator twice in a row at position `i`. */
  predicate DoubleSepAt(s: string, sep: char, i: int)
  {
    0 <= i < |s| - 1 && s[i] == sep && s[i + 1] == sep
  }

  /** Two adjacent separators leave an empty piece between them. */
  lemma {:induction false} DoubleSepGivesEmptyPiece(s: string, sep: char, i: int)
    requires DoubleSepAt(s, sep, i)
    ensures exists j :: 1 <= j < |Split(s, sep)| && Split(s, sep)[j] == []
    decreases |s|
  {
    var parts := Split(s, sep);
    var rest := Split(s[1..], sep);
    if i == 0 {
      assert rest[0] == [];
      assert parts[1] == rest[0];
    } else {
      assert DoubleSepAt(s[1..], sep, i - 1);
      DoubleSepGivesEmptyPiece(s[1..], sep, i - 1);
      var j :| 1 <= j < |rest| && rest[j] == [];
      if s[0] == sep {
        assert parts[j + 1] == [];
      } else {
        assert parts[j] == rest[j];
      }
    }
  }

  /** Without an empty end and without adjacent separators, every piece is non-empty. */
  lemma {:induction false} NoEmptyPiece(s: string, sep: char)
    requires s != [] && s[0] != sep && s[|s| - 1] != sep
    requires forall i :: !DoubleSepAt(s, sep, i)
    ensures forall j :: 0 <= j < |Split(s, sep)| ==> Split(s, sep)[j] != []
    decreases |s|
  {
    var t := s[1..];
    var parts := Split(s, sep);
    var rest := Split(t, sep);
    if t == [] {
    } else if t[0] != sep {
      forall i ensures !DoubleSepAt(t, sep, i) {
        assert !DoubleSepAt(s, sep, i + 1);
      }
      NoEmptyPiece(t, sep);
    } else {
      var u := t[1..];
      assert !DoubleSepAt(s, sep, 1);
      assert |t| >= 2;
      assert u[0] == s[2];
      assert u[|u| - 1] == s[|s| - 1];
      forall i ensures !DoubleSepAt(u, sep, i) {
        assert !DoubleSepAt(s, sep, i + 2);
      }
      NoEmptyPiece(u, sep);
      assert rest == [[]] + Split(u, sep);
      forall j | 0 <= j < |parts| ensures parts[j] != [] {
        if j > 0 {
          assert parts[j] == Split(u, sep)[j - 1];
        }
      }
    }
  }

  /**
   * Some piece of `s.split(sep)` is empty exactly when `s` is empty, starts or
   * ends with the separator, or holds two separators in a row.
   */
  lemma EmptyPieceIff(s: string, sep: char)
    ensures (exists j :: 0 <= j < |Split(s, sep)| && Split(s, sep)[j] == [])
        <==> (s == [] || s[0] == sep || s[|s| - 1] == sep || exists i :: DoubleSepAt(s, sep, i))
  {
    var parts := Split(s, sep);
    if s == [] || s[0] == sep {
      FirstPieceEmpty(s, sep);
      assert parts[0] == [];
    } else if s[|s| - 1] == sep {
      LastPieceEmpty(s, sep);
      assert parts[|parts| - 1] == [];
    } else if i :| DoubleSepAt(s, sep, i) {
      DoubleSepGivesEmptyPiece(s, sep, i);
    } else {
      NoEmptyPiece(s, sep);
    }
  }

  // ---------------------------------------------------------------------------
  // Decimal integers
  // ---------------------------------------------------------------------------

  predicate IsDigit(c: char)
  {
    '0' as int <= c as int <= '9' as int
  }

  /** A non-empty run of ASCII decimal digits. */
  predicate IsDigits(s: string)
  {
    |s| > 0 && forall i :: 0 <= i < |s| ==> IsDigit(s[i])
  }

  function DigitChar(d: nat): (c: char)
    requires d < 10
    ensures IsDigit(c) && c as int - '0' as int == d
  {
    ('0' as int + d) as char
  }

  /** The number a run of decimal digits denotes (leading zeros allowed). */
  function DigitsValue(s: string): nat
    requires forall i :: 0 <= i < |s| ==> IsDigit(s[i])
    decreases |s|
  {
    if s == [] then 0
    else
      assert IsDigit(s[|s| - 1]);
      DigitsValue(s[..|s| - 1]) * 10 + (s[|s| - 1] as int - '0' as int)
  }

  /** Python's `str(n)` for a non-negative integer. */
  function FormatNat(n: nat): (s: string)
    ensures IsDigits(s)
    decreases n
  {
    if n < 10 then [DigitChar(n)] else FormatNat(n / 10) + [DigitChar(n % 10)]
  }

  lemma {:induction false} FormatNatValue(n: nat)
    ensures DigitsValue(FormatNat(n)) == n
    decreases n
  {
    if n >= 10 {
      var s := FormatNat(n);
      FormatNatValue(n / 10);
      assert s[..|s| - 1] == FormatNat(n / 10);
    }
  }

  /**
   * Python's `int(s)` restricted to an optional sign followed by ASCII
   * decimal digits; anything else raises ValueError (here: None).
   */
  function ParseInt(s: string): Option<int>
  {
    if |s| > 0 && (s[0] == '-' || s[0] == '+') then
      if IsDigits(s[1..]) then
        var magnitude: int := DigitsValue(s[1..]);
        Some(if s[0] == '-' then -magnitude else magnitude)
      else None
    else if IsDigits(s) then Some(DigitsValue(s))
    else None
  }

  /** Python's `str(n)` / `f"{n}"` for an integer. */
  function FormatInt(n: int): (s: string)
    ensures '.' !in s && '/' !in s
  {
    if n < 0 then "-" + FormatNat(-n) else FormatNat(n)
  }

  /** `int(str(n)) == n`. */
  lemma FormatIntRoundTrip(n: int)
    ensures ParseInt(FormatInt(n)) == Some(n)
  {
    var s := FormatInt(n);
    if n < 0 {
      FormatNatValue(-n);
      assert s[1..] == FormatNat(-n);
      assert s[0] == '-' && IsDigits(s[1..]);
    } else {
      FormatNatValue(n);
      assert IsDigit(s[0]);
    }
  }
}
