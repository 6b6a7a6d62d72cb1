/** The JavaScript string operations the application relies on: `trim`,
    `toLowerCase` (ASCII letters only), `includes`, `startsWith` and the
    last piece of `split(sep)`. */
module Text {
  import opened Wrappers

  /** The characters `String.prototype.trim` removes and `\s` matches:
      ECMAScript WhiteSpace and LineTerminator code points. */
  predicate IsSpace(c: char) {
    c == ' ' || c == '\t' || c == '\n' || c == '\r' || c == '\U{000B}' || c == '\U{000C}'
    || c == '\U{00A0}' || c == '\U{1680}' || ('\U{2000}' <= c <= '\U{200A}')
    || c == '\U{2028}' || c == '\U{2029}' || c == '\U{202F}' || c == '\U{205F}'
    || c == '\U{3000}' || c == '\U{FEFF}'
  }

  /** Leading white space removed. */
  function TrimStart(s: string): string {
    if |s| > 0 && IsSpace(s[0]) then TrimStart(s[1..]) else s
  }

  /** What is left is the longest suffix of `s` that does not start with
      white space. */
  lemma {:induction false} TrimStartSpec(s: string)
    ensures var r := TrimStart(s);
      |r| <= |s| && r == s[|s| - |r|..]
      && (r == [] || !IsSpace(r[0]))
      && forall i :: 0 <= i < |s| - |r| ==> IsSpace(s[i])
  {
    if |s| > 0 && IsSpace(s[0]) {
      TrimStartSpec(s[1..]);
      var r := TrimStart(s);
      forall i | 0 <= i < |s| - |r|
        ensures IsSpace(s[i])
      {
        if i > 0 {
          assert s[i] == s[1..][i - 1];
        }
      }
    }
  }

  /** Trailing white space removed. */
  function TrimEnd(s: string): string {
    if |s| > 0 && IsSpace(s[|s| - 1]) then TrimEnd(s[..|s| - 1]) else s
  }

  /** What is left is the longest prefix of `s` that does not end with
      white space. */
  lemma {:induction false} TrimEndSpec(s: string)
    ensures var r := TrimEnd(s);
      |r| <= |s| && r == s[..|r|]
      && (r == [] || !IsSpace(r[|r| - 1]))
      && forall i :: |r| <= i < |s| ==> IsSpace(s[i])
  {
    if |s| > 0 && IsSpace(s[|s| - 1]) {
      TrimEndSpec(s[..|s| - 1]);
      var r := TrimEnd(s);
      forall i | |r| <= i < |s|
        ensures IsSpace(s[i])
      {
        if i < |s| - 1 {
          assert s[i] == s[..|s| - 1][i];
        }
      }
    }
  }

  /** `s.trim()`. */
  function Trim(s: string): string {
    TrimEnd(TrimStart(s))
  }

  /** `s.trim()` is the slice of `s` between its leading and its trailing
      white space, and neither of its ends is white space. */
  lemma TrimIsCore(s: string)
    ensures exists a, b :: (0 <= a <= b <= |s| && Trim(s) == s[a..b]
      && (forall i :: 0 <= i < a ==> IsSpace(s[i]))
      && (forall i :: b <= i < |s| ==> IsSpace(s[i])))
    ensures Trim(s) == [] || (!IsSpace(Trim(s)[0]) && !IsSpace(Trim(s)[|Trim(s)| - 1]))
  {
    var t := TrimStart(s);
    var r := TrimEnd(t);
    TrimStartSpec(s);
    TrimEndSpec(t);
    var a := |s| - |t|;
    var b := a + |r|;
    assert t == s[a..];
    assert r == t[..|r|];
    assert r == s[a..b] by {
      forall j | 0 <= j < |r|
        ensures r[j] == s[a + j]
      {
        assert r[j] == t[j];
      }
    }
    forall i | b <= i < |s|
      ensures IsSpace(s[i])
    {
      assert s[i] == t[i - a];
    }
    assert Trim(s) == r;
  }

  /** A string is blank (`!s.trim()`) exactly when every character is white space. */
  lemma TrimEmptyIffAllSpace(s: string)
    ensures Trim(s) == [] <==> forall i :: 0 <= i < |s| ==> IsSpace(s[i])
  {
    var t := TrimStart(s);
    TrimStartSpec(s);
    TrimEndSpec(t);
    if Trim(s) == [] {
      assert t == [];
    }
  }

  /** ASCII lower-casing of one character. */
  function Lower(c: char): char {
    if 'A' <= c <= 'Z' then (c as int + 32) as char else c
  }

  /** `s.toLowerCase()` on ASCII letters; every other character is kept. */
  function ToLower(s: string): (r: string)
    ensures |r| == |s|
    ensures forall i :: 0 <= i < |s| ==> r[i] == Lower(s[i])
  {
    if s == [] then [] else [Lower(s[0])] + ToLower(s[1..])
  }

  /** The UTF-16 code units one character takes: two for a character
      outside the Basic Multilingual Plane, one otherwise. */
  function CodeUnits(c: char): nat {
    if c as int >= 0x1_0000 then 2 else 1
  }

  /** `s.length`, which counts UTF-16 code units, not characters. */
  function Utf16Length(s: string): (n: nat)
    ensures |s| <= n <= 2 * |s|
  {
    if s == [] then 0 else CodeUnits(s[0]) + Utf16Length(s[1..])
  }

  /** Lengths add up over concatenation. */
  lemma {:induction false} Utf16LengthAppend(a: string, b: string)
    ensures Utf16Length(a + b) == Utf16Length(a) + Utf16Length(b)
  {
    if a != [] {
      assert (a + b)[1..] == a[1..] + b;
      Utf16LengthAppend(a[1..], b);
    } else {
      assert a + b == b;
    }
  }

  /** Text within the Basic Multilingual Plane is as long as it has
      characters, and only such text is. */
  lemma {:induction false} Utf16LengthOfBmp(s: string)
    ensures Utf16Length(s) == |s| <==> forall i :: 0 <= i < |s| ==> s[i] as int < 0x1_0000
  {
    if s != [] {
      Utf16LengthOfBmp(s[1..]);
      assert forall i :: 1 <= i < |s| ==> s[i] == s[1..][i - 1];
    }
  }

  /** `s.startsWith(p)`. */
  predicate StartsWith(s: string, p: string) {
    |p| <= |s| && s[..|p|] == p
  }

  /** `s.includes(p)`, searching from the left. */
  predicate Includes(s: string, p: string)
    decreases |s|
  {
    StartsWith(s, p) || (|s| > 0 && Includes(s[1..], p))
  }

  /** `p` occurs in `s` starting at position `i`. */
  predicate OccursAt(s: string, p: string, i: int) {
    0 <= i <= |s| - |p| && s[i..i + |p|] == p
  }

  /** `s.replace(p, rep)` with a string pattern: the first occurrence of `p`
      replaced by `rep`; `s` itself when `p` does not occur. */
  function ReplaceFirst(s: string, p: string, rep: string): (r: string)
    ensures StartsWith(s, p) ==> r == rep + s[|p|..]
    ensures !Includes(s, p) ==> r == s
    decreases |s|
  {
    if StartsWith(s, p) then rep + s[|p|..]
    else if s == [] then s
    else [s[0]] + ReplaceFirst(s[1..], p, rep)
  }

  /** An occurrence in the tail is an occurrence one place further on in
      the whole string. */
  lemma OccursInTail(s: string, p: string, i: int)
    requires |s| > 0 && 0 <= i
    ensures OccursAt(s[1..], p, i) <==> OccursAt(s, p, i + 1)
  {
    if 0 <= i <= |s| - 1 - |p| {
      assert s[1..][i..i + |p|] == s[i + 1..i + 1 + |p|];
    }
  }

  /** `includes` holds exactly when `p` occurs at some position of `s`. */
  lemma {:induction false} IncludesIffOccurs(s: string, p: string)
    ensures Includes(s, p) <==> exists i :: OccursAt(s, p, i)
    decreases |s|
  {
    if StartsWith(s, p) {
      assert OccursAt(s, p, 0);
    } else if |s| == 0 {
    } else {
      IncludesIffOccurs(s[1..], p);
      if exists i :: OccursAt(s, p, i) {
        var i :| OccursAt(s, p, i);
        assert i != 0;
        OccursInTail(s, p, i - 1);
      }
      if Includes(s[1..], p) {
        var j :| OccursAt(s[1..], p, j);
        OccursInTail(s, p, j);
      }
    }
  }

  /** Case-insensitive `includes`, as the catalogue search does it:
      `s.toLowerCase().includes(term.toLowerCase())`. */
  predicate IncludesIgnoringCase(s: string, term: string) {
    Includes(ToLower(s), ToLower(term))
  }

  /** The last element of `s.split([sep])`: the longest suffix of `s` that
      does not contain `sep`, which is all of `s` when `sep` does not occur. */
  function LastPiece(s: string, sep: char): (r: string)
    ensures |r| <= |s| && r == s[|s| - |r|..]
    ensures sep !in r
    ensures |r| < |s| ==> s[|s| - |r| - 1] == sep
  {
    if s == [] then []
    else if s[|s| - 1] == sep then []
    else LastPiece(s[..|s| - 1], sep) + [s[|s| - 1]]
  }

  /** `s.trim() || null`: the trimmed text, or null when nothing but white
      space was entered. */
  function TrimmedOrNull(s: string): (r: Option<string>)
    ensures r.None? <==> forall i :: 0 <= i < |s| ==> IsSpace(s[i])
    ensures r.Some? ==> r.value == Trim(s) && r.value != [] && !IsSpace(r.value[0]) && !IsSpace(r.value[|r.value| - 1])
  {
    TrimEmptyIffAllSpace(s);
    TrimIsCore(s);
    if Trim(s) == [] then None else Some(Trim(s))
  }

  /** A trimmed text needs no more trimming. */
  lemma TrimmedOrNullIdempotent(s: string)
    requires TrimmedOrNull(s).Some?
    ensures TrimmedOrNull(TrimmedOrNull(s).value) == TrimmedOrNull(s)
  {
    var t := Trim(s);
    assert TrimStart(t) == t;
    assert TrimEnd(t) == t;
  }

  /** Trimming twice is trimming once. */
  lemma TrimTwice(s: string)
    ensures Trim(Trim(s)) == Trim(s)
  {
    TrimIsCore(s);
    var t := Trim(s);
    if t != [] {
      assert TrimStart(t) == t;
      assert TrimEnd(t) == t;
    }
  }

  predicate IsDigit(c: char) {
    '0' <= c <= '9'
  }

  /** The longest prefix of `s` made of decimal digits. */
  function DigitPrefix(s: string): (r: string)
    ensures |r| <= |s| && r == s[..|r|]
    ensures forall i :: 0 <= i < |r| ==> IsDigit(r[i])
    ensures |r| < |s| ==> !IsDigit(s[|r|])
  {
    if s != [] && IsDigit(s[0]) then [s[0]] + DigitPrefix(s[1..]) else []
  }

  /** The number a string of decimal digits denotes. */
  function DigitsValue(ds: string): nat
    requires forall i :: 0 <= i < |ds| ==> IsDigit(ds[i])
  {
    if ds == [] then 0
    else
      assert IsDigit(ds[|ds| - 1]);
      10 * DigitsValue(ds[..|ds| - 1]) + (ds[|ds| - 1] as int - '0' as int)
  }

  /** A hexadecimal digit, in either case. */
  predicate IsHexDigit(c: char) {
    IsDigit(c) || 'a' <= c <= 'f' || 'A' <= c <= 'F'
  }

  function HexDigitValue(c: char): (v: nat)
    requires IsHexDigit(c)
    ensures v < 16
  {
    if IsDigit(c) then c as int - '0' as int
    else if 'a' <= c <= 'f' then c as int - 'a' as int + 10
    else c as int - 'A' as int + 10
  }

  /** The longest prefix of `s` made of hexadecimal digits. */
  function HexPrefix(s: string): (r: string)
    ensures |r| <= |s| && r == s[..|r|]
    ensures forall i :: 0 <= i < |r| ==> IsHexDigit(r[i])
    ensures |r| < |s| ==> !IsHexDigit(s[|r|])
  {
    if s != [] && IsHexDigit(s[0]) then [s[0]] + HexPrefix(s[1..]) else []
  }

  /** The number a string of hexadecimal digits denotes. */
  function HexValue(hs: string): nat
    requires forall i :: 0 <= i < |hs| ==> IsHexDigit(hs[i])
  {
    if hs == [] then 0
    else 16 * HexValue(hs[..|hs| - 1]) + HexDigitValue(hs[|hs| - 1])
  }

  /** The "0x" or "0X" that makes `parseInt` without a radix read base 16. */
  predicate HasHexPrefix(s: string) {
    |s| >= 2 && s[0] == '0' && (s[1] == 'x' || s[1] == 'X')
  }

  /** The value `parseInt` reads from unsigned text with no radix given:
      after "0x" or "0X" as many hexadecimal digits as follow, otherwise as
      many decimal digits; not a number (None) when no digit follows. */
  function UnsignedValue(rest: string): Option<nat> {
    if HasHexPrefix(rest) then
      var hs := HexPrefix(rest[2..]);
      if hs == [] then None else Some(HexValue(hs))
    else
      var ds := DigitPrefix(rest);
      if ds == [] then None else Some(DigitsValue(ds))
  }

  /** `parseInt(s)` with no radix: leading white space skipped, an optional
      sign, then the unsigned value; -0 reads as 0. */
  function ParseInt(s: string): (r: Option<int>)
  {
    var t := TrimStart(s);
    var negative := t != [] && t[0] == '-';
    var rest := if t != [] && (t[0] == '-' || t[0] == '+') then t[1..] else t;
    var v := UnsignedValue(rest);
    if v.None? then None
    else if negative then Some(-(v.value as int))
    else Some(v.value)
  }

  /** A decimal numeral followed by a unit such as "MB" parses to the
      numeral's value, unless the two together start with "0x", which
      `ParseIntOfHexNumeral` covers. */
  lemma ParseIntOfNumeral(ds: string, suffix: string)
    requires ds != [] && forall i :: 0 <= i < |ds| ==> IsDigit(ds[i])
    requires suffix == [] || !IsDigit(suffix[0])
    requires !HasHexPrefix(ds + suffix)
    ensures ParseInt(ds + suffix) == Some(DigitsValue(ds))
  {
    var s := ds + suffix;
    assert s[0] == ds[0];
    DigitIsNoSpace(s[0]);
    NoSpaceNoTrim(s);
    UnsignedParse(s);
    DigitPrefixOfNumeral(ds, suffix);
  }

  /** "0x" or "0X", hexadecimal digits and a unit parse in base 16; with no
      digit after the prefix the text is not a number. */
  lemma ParseIntOfHexNumeral(x: char, hs: string, suffix: string)
    requires x == 'x' || x == 'X'
    requires forall i :: 0 <= i < |hs| ==> IsHexDigit(hs[i])
    requires suffix == [] || !IsHexDigit(suffix[0])
    ensures ParseInt(['0', x] + hs + suffix) == if hs == [] then None else Some(HexValue(hs) as int)
  {
    var rest := hs + suffix;
    var s := ['0', x] + rest;
    assert s == ['0', x] + hs + suffix;
    assert HasHexPrefix(s);
    assert s[2..] == rest;
    HexPrefixOfNumeral(hs, suffix);
    HexTextParse(s);
  }

  /** Text that starts with neither a digit, a sign nor white space is not
      a number. */
  lemma ParseIntOfWord(s: string)
    requires s != [] && !IsDigit(s[0]) && !IsSpace(s[0]) && s[0] != '-' && s[0] != '+'
    ensures ParseInt(s).None?
  {
    NoSpaceNoTrim(s);
  }

  /** On unsigned text with no leading space, `parseInt` reads hexadecimal
      digits after a "0x" prefix and decimal digits otherwise, and is NaN
      when none follow. */
  lemma UnsignedParse(s: string)
    requires s != [] && TrimStart(s) == s && s[0] != '-' && s[0] != '+'
    ensures !HasHexPrefix(s) ==>
      ParseInt(s) == if DigitPrefix(s) == [] then None else Some(DigitsValue(DigitPrefix(s)) as int)
    ensures HasHexPrefix(s) ==>
      ParseInt(s) == if HexPrefix(s[2..]) == [] then None else Some(HexValue(HexPrefix(s[2..])) as int)
  {
  }

  lemma HexTextParse(s: string)
    requires HasHexPrefix(s)
    ensures ParseInt(s) == if HexPrefix(s[2..]) == [] then None else Some(HexValue(HexPrefix(s[2..])) as int)
  {
    DigitIsNoSpace(s[0]);
    NoSpaceNoTrim(s);
    UnsignedParse(s);
  }

  lemma DigitIsNoSpace(c: char)
    requires IsDigit(c)
    ensures !IsSpace(c)
  {
  }

  lemma NoSpaceNoTrim(s: string)
    requires s != [] && !IsSpace(s[0])
    ensures TrimStart(s) == s
  {
  }

  lemma {:induction false} DigitPrefixOfNumeral(ds: string, suffix: string)
    requires forall i :: 0 <= i < |ds| ==> IsDigit(ds[i])
    requires suffix == [] || !IsDigit(suffix[0])
    ensures DigitPrefix(ds + suffix) == ds
  {
    if ds != [] {
      assert (ds + suffix)[1..] == ds[1..] + suffix;
      DigitPrefixOfNumeral(ds[1..], suffix);
    } else {
      assert ds + suffix == suffix;
    }
  }

  lemma {:induction false} HexPrefixOfNumeral(hs: string, suffix: string)
    requires forall i :: 0 <= i < |hs| ==> IsHexDigit(hs[i])
    requires suffix == [] || !IsHexDigit(suffix[0])
    ensures HexPrefix(hs + suffix) == hs
  {
    if hs != [] {
      assert (hs + suffix)[1..] == hs[1..] + suffix;
      HexPrefixOfNumeral(hs[1..], suffix);
    } else {
      assert hs + suffix == suffix;
    }
  }

  /** The decimal digit for `d`. */
  function DigitChar(d: nat): (c: char)
    requires d < 10
    ensures IsDigit(c) && c as int - '0' as int == d
  {
    ('0' as int + d) as char
  }

  /** A natural number as JavaScript prints it in a template string: its
      decimal digits, without leading zeros. */
  function NatText(n: nat): (r: string)
    ensures r != [] && forall i :: 0 <= i < |r| ==> IsDigit(r[i])
    ensures |r| > 1 ==> r[0] != '0'
  {
    if n < 10 then [DigitChar(n)] else NatText(n / 10) + [DigitChar(n % 10)]
  }

  /** Printing a number and reading it back gives the number. */
  lemma {:induction false} NatTextValue(n: nat)
    ensures DigitsValue(NatText(n)) == n
  {
    var r := NatText(n);
    if n >= 10 {
      NatTextValue(n / 10);
      assert r[..|r| - 1] == NatText(n / 10);
    }
  }

  lemma NatTextParses(n: nat)
    ensures ParseInt(NatText(n)) == Some(n)
  {
    NatTextValue(n);
    ParseIntOfNumeral(NatText(n), "");
    assert NatText(n) + "" == NatText(n);
  }
}
