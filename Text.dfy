/**
 * String primitives of the PHP runtime that the protocol code relies on:
 * strpos-based prefix and substring tests, explode/implode, trim,
 * str_replace, is_numeric and the decimal rendering of integers.
 * Strings are sequences of characters; PHP byte strings are modelled
 * character by character, except that `strlen` counts the bytes of the
 * UTF-8 encoding (`Utf8Length`).
 */
module Text {

  /** `strpos($s, $p) === 0`: `p` is a prefix of `s`. */
  predicate StartsWith(s: string, p: string) {
    |p| <= |s| && s[..|p|] == p
  }

  /** A text that differs from `p` at a position both have does not start with `p`. */
  lemma Differs(s: string, p: string, k: nat)
    requires k < |s| && k < |p| && s[k] != p[k]
    ensures !StartsWith(s, p)
  {
    if |p| <= |s| {
      assert s[..|p|][k] == s[k];
    }
  }

  /** `p` occurs in `s` at index `i`. */
  ghost predicate OccursAt(s: string, p: string, i: int) {
    0 <= i && i + |p| <= |s| && s[i..i + |p|] == p
  }

  /**
   * `strpos($s, $p) !== FALSE`, by scanning the suffixes of `s`.
   * An empty needle is found at offset 0 (PHP 8 semantics).
   */
  predicate Contains(s: string, p: string)
    decreases |s|
  {
    StartsWith(s, p) || (|s| > 0 && Contains(s[1..], p))
  }

  lemma {:induction false} ContainsIffOccurs(s: string, p: string)
    ensures Contains(s, p) <==> exists i :: OccursAt(s, p, i)
    decreases |s|
  {
    if StartsWith(s, p) {
      assert OccursAt(s, p, 0);
    } else if |s| > 0 {
      ContainsIffOccurs(s[1..], p);
      if exists i :: OccursAt(s, p, i) {
        var i :| OccursAt(s, p, i);
        assert i != 0;
        assert s[1..][i - 1..i - 1 + |p|] == s[i..i + |p|];
        assert OccursAt(s[1..], p, i - 1);
      }
      if exists j :: OccursAt(s[1..], p, j) {
        var j :| OccursAt(s[1..], p, j);
        assert s[j + 1..j + 1 + |p|] == s[1..][j..j + |p|];
        assert OccursAt(s, p, j + 1);
      }
    }
  }

  /** A string that a substring test finds is found in any extension of it. */
  lemma {:induction false} ContainsInfix(a: string, s: string, b: string, p: string)
    requires Contains(s, p)
    ensures Contains(a + s + b, p)
  {
    ContainsIffOccurs(s, p);
    var i :| OccursAt(s, p, i);
    assert (a + s + b)[|a| + i..|a| + i + |p|] == s[i..i + |p|];
    assert OccursAt(a + s + b, p, |a| + i);
    ContainsIffOccurs(a + s + b, p);
  }

  // ---------------------------------------------------------------------
  // explode / implode

  /** `explode($c, $s)` for a one-character separator: the pieces between separators. */
  function Split(s: string, c: char): (r: seq<string>)
    ensures |r| >= 1
    decreases |s|
  {
    if |s| == 0 then [""]
    else if s[0] == c then [""] + Split(s[1..], c)
    else
      var rest := Split(s[1..], c);
      [[s[0]] + rest[0]] + rest[1..]
  }

  /** `implode($sep, $parts)`. */
  function Join(parts: seq<string>, sep: string): string
    decreases |parts|
  {
    if |parts| == 0 then ""
    else if |parts| == 1 then parts[0]
    else parts[0] + sep + Join(parts[1..], sep)
  }

  /** No piece produced by Split holds the separator. */
  lemma {:induction false} SplitPiecesFree(s: string, c: char)
    ensures forall k :: 0 <= k < |Split(s, c)| ==> c !in Split(s, c)[k]
    decreases |s|
  {
    if |s| > 0 {
      SplitPiecesFree(s[1..], c);
    }
  }

  /** Every piece of Split is a run of characters of the input. */
  lemma {:induction false} SplitPiecesFromInput(s: string, c: char)
    ensures forall k, j :: 0 <= k < |Split(s, c)| && 0 <= j < |Split(s, c)[k]| ==> Split(s, c)[k][j] in s
    decreases |s|
  {
    if |s| > 0 {
      SplitPiecesFromInput(s[1..], c);
    }
  }

  /** implode undoes explode. */
  lemma {:induction false} JoinSplit(s: string, c: char)
    ensures Join(Split(s, c), [c]) == s
    decreases |s|
  {
    if |s| > 0 {
      JoinSplit(s[1..], c);
      var rest := Split(s[1..], c);
      if s[0] != c {
        if |rest| == 1 {
          assert Split(s, c) == [[s[0]] + rest[0]];
        } else {
          assert Split(s, c) == [[s[0]] + rest[0]] + rest[1..];
          assert Split(s, c)[1..] == rest[1..];
          assert Join(rest, [c]) == rest[0] + [c] + Join(rest[1..], [c]);
        }
      } else {
        assert Split(s, c) == [""] + rest;
        assert Split(s, c)[1..] == rest;
      }
    }
  }

  /** Consing a character onto the first piece of a join. */
  lemma {:induction false} SplitConsChar(x: char, t: string, c: char)
    requires x != c
    ensures Split([x] + t, c) == [[x] + Split(t, c)[0]] + Split(t, c)[1..]
  {
    assert ([x] + t)[1..] == t;
  }

  /** explode undoes implode when no part holds the separator. */
  lemma {:induction false} SplitJoin(parts: seq<string>, c: char)
    requires |parts| >= 1
    requires forall k :: 0 <= k < |parts| ==> c !in parts[k]
    ensures Split(Join(parts, [c]), c) == parts
    decreases |parts|
  {
    if |parts| == 1 {
      SplitNoSep(parts[0], c);
    } else {
      SplitJoin(parts[1..], c);
      var tail := Join(parts[1..], [c]);
      SplitPrefixFree(parts[0], tail, c);
      assert Join(parts, [c]) == parts[0] + ([c] + tail);
    }
  }

  lemma {:induction false} SplitNoSep(s: string, c: char)
    requires c !in s
    ensures Split(s, c) == [s]
    decreases |s|
  {
    if |s| > 0 {
      SplitNoSep(s[1..], c);
      assert [s[0]] + s[1..] == s;
    }
  }

  /** Splitting `a + [c] + t` when `a` is free of the separator. */
  lemma {:induction false} SplitPrefixFree(a: string, t: string, c: char)
    requires c !in a
    ensures Split(a + ([c] + t), c) == [a] + Split(t, c)
    decreases |a|
  {
    if |a| == 0 {
      assert a + ([c] + t) == [c] + t;
      assert ([c] + t)[1..] == t;
    } else {
      var s := a + ([c] + t);
      var rest := Split(a[1..] + ([c] + t), c);
      assert s[0] == a[0] && a[0] != c;
      calc {
        Split(s, c);
        { assert s[1..] == a[1..] + ([c] + t); }
        [[a[0]] + rest[0]] + rest[1..];
        { SplitPrefixFree(a[1..], t, c); }
        [[a[0]] + a[1..]] + Split(t, c);
        { assert [a[0]] + a[1..] == a; }
        [a] + Split(t, c);
      }
    }
  }

  // ---------------------------------------------------------------------
  // trim

  /** The characters PHP's `trim` strips by default: " \t\n\r\0\x0B". */
  const TrimChars: set<char> := {' ', '\t', '\n', '\r', 0 as char, 11 as char}

  /** `ltrim($s, $cs)`: drops the leading characters that belong to `cs`. */
  function TrimLeftBy(s: string, cs: set<char>): (r: string)
    ensures |r| <= |s| && r == s[|s| - |r|..]
    ensures r == [] || r[0] !in cs
    decreases |s|
  {
    if |s| > 0 && s[0] in cs then TrimLeftBy(s[1..], cs) else s
  }

  /** `rtrim($s, $cs)`: drops the trailing characters that belong to `cs`. */
  function TrimRightBy(s: string, cs: set<char>): (r: string)
    ensures |r| <= |s| && r == s[..|r|]
    ensures r == [] || r[|r| - 1] !in cs
    decreases |s|
  {
    if |s| > 0 && s[|s| - 1] in cs then TrimRightBy(s[..|s| - 1], cs) else s
  }

  /** `trim($s, $cs)`. */
  function TrimBy(s: string, cs: set<char>): string {
    TrimRightBy(TrimLeftBy(s, cs), cs)
  }

  /** `trim($s)` with PHP's default character set. */
  function Trim(s: string): string {
    TrimBy(s, TrimChars)
  }

  /** `ltrim` empties exactly the strings made only of characters of `cs`. */
  lemma {:induction false} TrimLeftEmpty(s: string, cs: set<char>)
    ensures TrimLeftBy(s, cs) == [] <==> forall k :: 0 <= k < |s| ==> s[k] in cs
    decreases |s|
  {
    if |s| > 0 {
      TrimLeftEmpty(s[1..], cs);
      assert forall k :: 1 <= k < |s| ==> s[k] == s[1..][k - 1];
    }
  }

  /** `rtrim` stops at a first character outside `cs`. */
  lemma {:induction false} TrimRightKeepsFirst(s: string, cs: set<char>)
    requires |s| > 0 && s[0] !in cs
    ensures |TrimRightBy(s, cs)| > 0
    decreases |s|
  {
    if s[|s| - 1] in cs {
      TrimRightKeepsFirst(s[..|s| - 1], cs);
    }
  }

  /** `trim` gives the empty string exactly when every character is one it strips. */
  lemma TrimEmpty(s: string, cs: set<char>)
    ensures TrimBy(s, cs) == [] <==> forall k :: 0 <= k < |s| ==> s[k] in cs
  {
    TrimLeftEmpty(s, cs);
    var l := TrimLeftBy(s, cs);
    if |l| > 0 {
      TrimRightKeepsFirst(l, cs);
    }
  }

  /** Trimming keeps only characters of the input, in place. */
  lemma TrimFromInput(s: string, cs: set<char>)
    ensures forall k :: 0 <= k < |TrimBy(s, cs)| ==> TrimBy(s, cs)[k] in s
  {
    var l := TrimLeftBy(s, cs);
    var r := TrimRightBy(l, cs);
    var d := |s| - |l|;
    assert l == s[d..] && r == l[..|r|];
    forall k | 0 <= k < |r|
      ensures r[k] in s
    {
      assert r[k] == l[k] == s[d + k];
    }
  }

  /** Trimming twice is trimming once. */
  lemma TrimIdempotent(s: string, cs: set<char>)
    ensures TrimBy(TrimBy(s, cs), cs) == TrimBy(s, cs)
  {
    var l := TrimLeftBy(s, cs);
    var t := TrimRightBy(l, cs);
    if |t| > 0 {
      assert t[0] == l[0];
    }
    assert TrimLeftBy(t, cs) == t;
  }

  /** Trimming a string free of `c` leaves it free of `c`. */
  lemma TrimSubset(s: string, cs: set<char>, c: char)
    requires c !in s
    ensures c !in TrimBy(s, cs)
  {
    TrimFromInput(s, cs);
  }

  // ---------------------------------------------------------------------
  // str_replace

  /** `str_replace($from, $to, $s)`: left-to-right, non-overlapping replacement. */
  function Replace(s: string, from: string, to: string): string
    requires |from| > 0
    decreases |s|
  {
    if |s| == 0 then s
    else if StartsWith(s, from) then to + Replace(s[|from|..], from, to)
    else [s[0]] + Replace(s[1..], from, to)
  }

  /** Replacing a character by text free of it removes every occurrence. */
  lemma {:induction false} ReplaceRemovesChar(s: string, c: char, to: string)
    requires c !in to
    ensures c !in Replace(s, [c], to)
    decreases |s|
  {
    if |s| > 0 {
      ReplaceRemovesChar(s[|[c]|..], c, to);
      ReplaceRemovesChar(s[1..], c, to);
    }
  }

  /** Replacing text that never occurs changes nothing. */
  lemma {:induction false} ReplaceAbsent(s: string, from: string, to: string)
    requires |from| > 0
    requires !Contains(s, from)
    ensures Replace(s, from, to) == s
    decreases |s|
  {
    if |s| > 0 {
      ReplaceAbsent(s[1..], from, to);
      assert [s[0]] + s[1..] == s;
    }
  }

  /** A one-character pattern cannot straddle a join, so replacing it distributes over `+`. */
  lemma {:induction false} ReplaceCharConcat(a: string, b: string, c: char, to: string)
    ensures Replace(a + b, [c], to) == Replace(a, [c], to) + Replace(b, [c], to)
    decreases |a|
  {
    if |a| == 0 {
      assert a + b == b;
    } else {
      var s := a + b;
      var head := if a[0] == c then to else [a[0]];
      assert StartsWith(s, [c]) <==> a[0] == c by {
        assert s[..1] == [s[0]] && s[0] == a[0];
      }
      assert StartsWith(a, [c]) <==> a[0] == c by {
        assert a[..1] == [a[0]];
      }
      calc {
        Replace(s, [c], to);
        { assert s[1..] == a[1..] + b; }
        head + Replace(a[1..] + b, [c], to);
        { ReplaceCharConcat(a[1..], b, c, to); }
        head + (Replace(a[1..], [c], to) + Replace(b, [c], to));
        (head + Replace(a[1..], [c], to)) + Replace(b, [c], to);
        Replace(a, [c], to) + Replace(b, [c], to);
      }
    }
  }

  /**
   * A CR LF pair that follows `a` is replaced on its own: no match that
   * starts inside `a` can run into it, since its first character is not a
   * line feed.
   */
  lemma ReplaceBeforeCrLf(a: string, b: string, to: string)
    ensures Replace(a + ("\r\n" + b), "\r\n", to)
         == Replace(a, "\r\n", to) + to + Replace(b, "\r\n", to)
  {
    ReplaceBeforePair(a, "\r\n", b, to);
  }

  /** The same for any two-character pattern whose characters differ. */
  lemma {:induction false} ReplaceBeforePair(a: string, p: string, b: string, to: string)
    requires |p| == 2 && p[0] != p[1]
    ensures Replace(a + (p + b), p, to) == Replace(a, p, to) + to + Replace(b, p, to)
    decreases |a|
  {
    var s := a + (p + b);
    if |a| == 0 {
      assert s == p + b;
      assert s[..2] == p && s[2..] == b;
    } else {
      var k := if StartsWith(a, p) then 2 else 1;
      var head := if k == 2 then to else [a[0]];
      PairMatchInside(a, p, b);
      calc {
        Replace(s, p, to);
        { assert s[k..] == a[k..] + (p + b); }
        head + Replace(a[k..] + (p + b), p, to);
        { ReplaceBeforePair(a[k..], p, b, to); }
        head + (Replace(a[k..], p, to) + to + Replace(b, p, to));
        (head + Replace(a[k..], p, to)) + to + Replace(b, p, to);
        Replace(a, p, to) + to + Replace(b, p, to);
      }
    }
  }

  /** A match at the start of `a` that is followed by `p` lies inside `a`. */
  lemma PairMatchInside(a: string, p: string, b: string)
    requires |a| > 0 && |p| == 2 && p[0] != p[1]
    ensures StartsWith(a + (p + b), p) <==> StartsWith(a, p)
  {
    var s := a + (p + b);
    if |a| == 1 {
      assert s[1] == p[0];
      Differs(s, p, 1);
    } else {
      assert s[..2] == a[..2];
    }
  }

  // ---------------------------------------------------------------------
  // Decimal numbers

  predicate IsDigit(ch: char) {
    '0' <= ch <= '9'
  }

  function DigitChar(d: nat): (ch: char)
    requires d < 10
    ensures IsDigit(ch)
  {
    ('0' as int + d) as char
  }

  function DigitValue(ch: char): (d: nat)
    requires IsDigit(ch)
    ensures d < 10
  {
    (ch as int - '0' as int)
  }

  /** Decimal digits of a natural number, most significant first, no leading zero. */
  function NatToString(n: nat): (s: string)
    ensures |s| >= 1 && forall k :: 0 <= k < |s| ==> IsDigit(s[k])
    decreases n
  {
    if n < 10 then [DigitChar(n)] else NatToString(n / 10) + [DigitChar(n % 10)]
  }

  /** PHP's string conversion of an integer. */
  function IntToString(i: int): string {
    if i < 0 then "-" + NatToString(-i) else NatToString(i)
  }

  /** Reads a digit string as a natural number. */
  function ParseNat(s: string): nat
    requires forall k :: 0 <= k < |s| ==> IsDigit(s[k])
    decreases |s|
  {
    if |s| == 0 then 0 else ParseNat(s[..|s| - 1]) * 10 + DigitValue(s[|s| - 1])
  }

  /** Reading back the rendering of a natural number gives the number. */
  lemma {:induction false} ParseNatToString(n: nat)
    ensures ParseNat(NatToString(n)) == n
    decreases n
  {
    if n >= 10 {
      ParseNatToString(n / 10);
      var s := NatToString(n);
      assert s[..|s| - 1] == NatToString(n / 10);
    }
  }

  /** Distinct numbers render to distinct strings. */
  lemma NatToStringInjective(m: nat, n: nat)
    requires m != n
    ensures NatToString(m) != NatToString(n)
  {
    ParseNatToString(m);
    ParseNatToString(n);
  }

  /** Length of the run of digits at the start of `s`. */
  function LeadingDigits(s: string): (n: nat)
    ensures n <= |s|
    ensures forall k :: 0 <= k < n ==> IsDigit(s[k])
    ensures n < |s| ==> !IsDigit(s[n])
    decreases |s|
  {
    if |s| > 0 && IsDigit(s[0]) then 1 + LeadingDigits(s[1..]) else 0
  }

  lemma {:induction false} LeadingDigitsAll(s: string)
    requires forall k :: 0 <= k < |s| ==> IsDigit(s[k])
    ensures LeadingDigits(s) == |s|
    decreases |s|
  {
    if |s| > 0 {
      LeadingDigitsAll(s[1..]);
    }
  }

  /** The white space PHP allows around a numeric string: " \t\n\r\v\f". */
  const NumericSpace: set<char> := {' ', '\t', '\n', '\r', 11 as char, 12 as char}

  /** `[eE][+-]?[0-9]+`, or nothing. */
  predicate IsExponentOrEmpty(e: string) {
    |e| == 0 ||
    ((e[0] == 'e' || e[0] == 'E') &&
     var f := if |e| > 1 && (e[1] == '+' || e[1] == '-') then e[2..] else e[1..];
     |f| > 0 && LeadingDigits(f) == |f|)
  }

  /** An unsigned decimal: `[0-9]+(\.[0-9]*)?` or `\.[0-9]+`, then an optional exponent. */
  predicate IsUnsignedDecimal(u: string) {
    var d1 := LeadingDigits(u);
    var rest := u[d1..];
    if |rest| > 0 && rest[0] == '.' then
      var d2 := LeadingDigits(rest[1..]);
      d1 + d2 > 0 && IsExponentOrEmpty(rest[1..][d2..])
    else
      d1 > 0 && IsExponentOrEmpty(rest)
  }

  /**
   * `is_numeric` on a string (PHP 8): optional surrounding white space,
   * an optional sign, a decimal with optional fraction and exponent.
   */
  predicate IsNumericString(s: string) {
    var t := TrimBy(s, NumericSpace);
    var u := if |t| > 0 && (t[0] == '+' || t[0] == '-') then t[1..] else t;
    IsUnsignedDecimal(u)
  }

  /** An integer's rendering has no white space around it to trim. */
  lemma IntToStringUntrimmed(i: int)
    ensures TrimBy(IntToString(i), NumericSpace) == IntToString(i)
  {
    var s := IntToString(i);
    var n := NatToString(if i < 0 then -i else i);
    assert s[0] !in NumericSpace;
    assert s[|s| - 1] == n[|n| - 1];
    assert s[|s| - 1] !in NumericSpace;
    assert TrimLeftBy(s, NumericSpace) == s;
  }

  /** Every integer's rendering is numeric, so integer arguments are emitted bare. */
  lemma IntToStringIsNumeric(i: int)
    ensures IsNumericString(IntToString(i))
  {
    var s := IntToString(i);
    var n := NatToString(if i < 0 then -i else i);
    assert s[0] !in NumericSpace;
    assert s[|s| - 1] == n[|n| - 1];
    assert s[|s| - 1] !in NumericSpace;
    assert TrimLeftBy(s, NumericSpace) == s;
    assert TrimBy(s, NumericSpace) == s;
    var u := if s[0] == '-' then s[1..] else s;
    assert u == n;
    LeadingDigitsAll(n);
    assert n[|n|..] == [];
  }

  /** Some digit before the exponent, if any, is not zero. */
  predicate NonZeroMantissa(u: string)
    decreases |u|
  {
    |u| > 0 && u[0] != 'e' && u[0] != 'E' && ('1' <= u[0] <= '9' || NonZeroMantissa(u[1..]))
  }

  /**
   * The value of a numeric string is below zero: a minus sign, then a
   * mantissa that is not all zeros (`-0`, `-0.0e5` are zero).
   */
  predicate NumericBelowZero(s: string) {
    var t := TrimBy(s, NumericSpace);
    |t| > 0 && t[0] == '-' && NonZeroMantissa(t[1..])
  }

  lemma {:induction false} NonZeroMantissaPrefix(a: string, b: string)
    requires NonZeroMantissa(a)
    ensures NonZeroMantissa(a + b)
    decreases |a|
  {
    assert (a + b)[0] == a[0];
    if !('1' <= a[0] <= '9') {
      assert (a + b)[1..] == a[1..] + b;
      NonZeroMantissaPrefix(a[1..], b);
    }
  }

  /** A positive number's rendering has a nonzero digit. */
  lemma {:induction false} NatToStringNonZero(n: nat)
    requires n >= 1
    ensures NonZeroMantissa(NatToString(n))
    decreases n
  {
    if n >= 10 {
      NatToStringNonZero(n / 10);
      NonZeroMantissaPrefix(NatToString(n / 10), [DigitChar(n % 10)]);
    }
  }

  /** The rendering of an integer reads as below zero exactly when the integer is. */
  lemma IntToStringBelowZero(i: int)
    ensures NumericBelowZero(IntToString(i)) <==> i < 0
  {
    var s := IntToString(i);
    var n := NatToString(if i < 0 then -i else i);
    IntToStringUntrimmed(i);
    if i < 0 {
      assert s[1..] == n;
      NatToStringNonZero(-i);
    } else {
      assert s[0] == n[0];
    }
  }

  // ---------------------------------------------------------------------
  // Byte length

  /** The number of bytes UTF-8 spends on one character. */
  function Utf8Width(c: char): (w: nat)
    ensures 1 <= w <= 4
    ensures w == 1 <==> c as int < 0x80
  {
    if c as int < 0x80 then 1
    else if c as int < 0x800 then 2
    else if c as int < 0x10000 then 3
    else 4
  }

  /** `strlen` of a text held as UTF-8: its length in bytes. */
  function Utf8Length(s: string): (n: nat)
    ensures |s| <= n <= 4 * |s|
    decreases |s|
  {
    if |s| == 0 then 0 else Utf8Width(s[0]) + Utf8Length(s[1..])
  }

  /** The byte length is the character count exactly when every character is ASCII. */
  lemma {:induction false} Utf8LengthAscii(s: string)
    ensures Utf8Length(s) == |s| <==> forall k :: 0 <= k < |s| ==> s[k] as int < 0x80
    decreases |s|
  {
    if |s| > 0 {
      Utf8LengthAscii(s[1..]);
      assert forall k :: 1 <= k < |s| ==> s[k] == s[1..][k - 1];
    }
  }

  /** A text with no ASCII character takes at least two bytes per character. */
  lemma {:induction false} Utf8LengthWide(s: string)
    requires forall k :: 0 <= k < |s| ==> s[k] as int >= 0x80
    ensures Utf8Length(s) >= 2 * |s|
    decreases |s|
  {
    if |s| > 0 {
      assert forall k :: 0 <= k < |s| - 1 ==> s[1..][k] == s[k + 1];
      Utf8LengthWide(s[1..]);
    }
  }

  /** ASCII lower-casing (`strtolower`). */
  function Lower(s: string): (r: string)
    ensures |r| == |s|
  {
    seq(|s|, k requires 0 <= k < |s| => if 'A' <= s[k] <= 'Z' then (s[k] as int + 32) as char else s[k])
  }
}
