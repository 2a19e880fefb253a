/**
 * Character classes and string helpers shared by the browser code (JavaScript)
 * and the post service (Python).  The two runtimes disagree on what counts as
 * white space, so every white-space helper takes the runtime as a parameter.
 */
module Text {

  /** Which language runtime a string operation stands for. */
  datatype Runtime = JavaScript | Python

  /**
   * ECMAScript WhiteSpace and LineTerminator code points: the characters that
   * `String.prototype.trim` removes and that the regular-expression class `\s`
   * matches.
   */
  predicate IsJsSpace(c: char) {
    c == '\t' || c == '\n' || c == '\U{B}' || c == '\U{C}' || c == '\r' || c == ' '
    || c == '\U{A0}' || c == '\U{1680}' || ('\U{2000}' <= c <= '\U{200A}')
    || c == '\U{2028}' || c == '\U{2029}' || c == '\U{202F}' || c == '\U{205F}'
    || c == '\U{3000}' || c == '\U{FEFF}'
  }

  /** The characters for which Python's `str.isspace` holds, which `str.strip()` removes. */
  predicate IsPySpace(c: char) {
    ('\t' <= c <= '\r') || ('\U{1C}' <= c <= '\U{1F}') || c == ' '
    || c == '\U{85}' || c == '\U{A0}' || c == '\U{1680}' || ('\U{2000}' <= c <= '\U{200A}')
    || c == '\U{2028}' || c == '\U{2029}' || c == '\U{202F}' || c == '\U{205F}' || c == '\U{3000}'
  }

  predicate IsSpace(rt: Runtime, c: char) {
    match rt
    case JavaScript => IsJsSpace(c)
    case Python => IsPySpace(c)
  }

  predicate AllSpace(rt: Runtime, s: string) {
    forall k :: 0 <= k < |s| ==> IsSpace(rt, s[k])
  }

  /** Removes leading white space. */
  function TrimStart(rt: Runtime, s: string): (r: string)
    ensures |r| <= |s|
    ensures r == [] || !IsSpace(rt, r[0])
  {
    if s != [] && IsSpace(rt, s[0]) then TrimStart(rt, s[1..]) else s
  }

  /** What TrimStart leaves is a suffix of `s`, and what it removed is all white space. */
  lemma {:induction false} TrimStartSuffix(rt: Runtime, s: string)
    ensures var r := TrimStart(rt, s);
      r == s[|s| - |r|..] && AllSpace(rt, s[..|s| - |r|])
  {
    if s != [] && IsSpace(rt, s[0]) {
      var r := TrimStart(rt, s[1..]);
      TrimStartSuffix(rt, s[1..]);
      assert s[1..][|s| - 1 - |r|..] == s[|s| - |r|..];
      assert s[..|s| - |r|] == [s[0]] + s[1..][..|s| - 1 - |r|];
    }
  }

  /** Removes trailing white space. */
  function TrimEnd(rt: Runtime, s: string): (r: string)
    ensures |r| <= |s|
    ensures r == [] || !IsSpace(rt, r[|r| - 1])
  {
    if s != [] && IsSpace(rt, s[|s| - 1]) then TrimEnd(rt, s[..|s| - 1]) else s
  }

  /** What TrimEnd leaves is a prefix of `s`, and what it removed is all white space. */
  lemma {:induction false} TrimEndPrefix(rt: Runtime, s: string)
    ensures var r := TrimEnd(rt, s);
      r == s[..|r|] && AllSpace(rt, s[|r|..])
  {
    if s != [] && IsSpace(rt, s[|s| - 1]) {
      var r := TrimEnd(rt, s[..|s| - 1]);
      TrimEndPrefix(rt, s[..|s| - 1]);
      assert s[..|s| - 1][..|r|] == s[..|r|];
      assert s[|r|..] == s[..|s| - 1][|r|..] + [s[|s| - 1]];
    }
  }

  /** `s.trim()` in JavaScript, `s.strip()` in Python. */
  function Trim(rt: Runtime, s: string): (r: string)
    ensures |r| <= |s|
    ensures r == [] || (!IsSpace(rt, r[0]) && !IsSpace(rt, r[|r| - 1]))
  {
    var t := TrimStart(rt, s);
    TrimEndPrefix(rt, t);
    var r := TrimEnd(rt, t);
    assert r != [] ==> r[0] == t[0];
    r
  }

  /** A string trims to nothing exactly when every character of it is white space. */
  lemma TrimEmptyIff(rt: Runtime, s: string)
    ensures Trim(rt, s) == [] <==> AllSpace(rt, s)
  {
    var t := TrimStart(rt, s);
    TrimStartSuffix(rt, s);
    TrimEndPrefix(rt, t);
    if Trim(rt, s) == [] {
      assert t[0..] == t;
      assert AllSpace(rt, t);
      assert t == [];
      assert s[..|s|] == s;
    } else {
      var r := Trim(rt, s);
      assert r[0] == t[0];
      assert t[0] == s[|s| - |t|];
    }
  }

  /** Lower-casing used for `toLowerCase`/`lower`: ASCII and the Latin-1 capitals. */
  function LowerChar(c: char): (r: char)
    ensures ('A' <= c <= 'Z') ==> r as int == c as int + 32
    ensures !('A' <= c <= 'Z') && !('\U{C0}' <= c <= '\U{DE}') ==> r == c
  {
    if 'A' <= c <= 'Z' || ('\U{C0}' <= c <= '\U{DE}' && c != '\U{D7}') then
      (c as int + 32) as char
    else
      c
  }

  function Lower(s: string): (r: string)
    ensures |r| == |s|
    ensures forall k :: 0 <= k < |s| ==> r[k] == LowerChar(s[k])
  {
    if s == [] then [] else [LowerChar(s[0])] + Lower(s[1..])
  }

  /** Upper-casing used for `toUpperCase`: ASCII and the Latin-1 small letters that stay one character. */
  function UpperChar(c: char): (r: char)
    ensures ('a' <= c <= 'z') ==> r as int == c as int - 32
    ensures !('a' <= c <= 'z') && !('\U{E0}' <= c <= '\U{FE}') ==> r == c
  {
    if 'a' <= c <= 'z' || ('\U{E0}' <= c <= '\U{FE}' && c != '\U{F7}') then
      (c as int - 32) as char
    else
      c
  }

  /** SQLite's built-in case folding, which knows only the ASCII letters. */
  function AsciiLowerChar(c: char): (r: char)
    ensures ('A' <= c <= 'Z') ==> r as int == c as int + 32
    ensures !('A' <= c <= 'Z') ==> r == c
  {
    if 'A' <= c <= 'Z' then (c as int + 32) as char else c
  }

  function AsciiLower(s: string): (r: string)
    ensures |r| == |s|
    ensures forall k :: 0 <= k < |s| ==> r[k] == AsciiLowerChar(s[k])
  {
    if s == [] then [] else [AsciiLowerChar(s[0])] + AsciiLower(s[1..])
  }

  /** `needle` occurs in `hay` starting at index `i`. */
  predicate OccursAt(hay: string, needle: string, i: int) {
    0 <= i && i + |needle| <= |hay| && hay[i..i + |needle|] == needle
  }

  /** `hay.includes(needle)` in JavaScript, `needle in hay` in Python. */
  predicate Contains(hay: string, needle: string) {
    exists i :: 0 <= i <= |hay| && OccursAt(hay, needle, i)
  }

  /** A needle longer than the haystack is never found. */
  lemma ContainsNeedsRoom(hay: string, needle: string)
    requires |needle| > |hay|
    ensures !Contains(hay, needle)
  {
  }

  /** First index at or after `from` where `needle` occurs, or -1. */
  function IndexFrom(hay: string, needle: string, from: nat): (r: int)
    requires from <= |hay|
    ensures r == -1 || (from <= r && OccursAt(hay, needle, r))
    ensures r == -1 ==> forall i :: from <= i ==> !OccursAt(hay, needle, i)
    ensures r != -1 ==> forall i :: from <= i < r ==> !OccursAt(hay, needle, i)
    decreases |hay| - from
  {
    if OccursAt(hay, needle, from) then from
    else if from == |hay| then -1
    else IndexFrom(hay, needle, from + 1)
  }

  /** `hay.indexOf(needle)`: the first occurrence, or -1 when there is none. */
  function IndexOf(hay: string, needle: string): (r: int)
    ensures r == -1 <==> !Contains(hay, needle)
    ensures r != -1 ==> OccursAt(hay, needle, r) && forall i :: 0 <= i < r ==> !OccursAt(hay, needle, i)
  {
    IndexFrom(hay, needle, 0)
  }

  /** The part of `s` before the first `c` (all of `s` when it has none): `s.split(c)[0]`. */
  function BeforeFirst(s: string, c: char): (r: string)
    ensures |r| <= |s| && r == s[..|r|]
    ensures c !in r
    ensures |r| < |s| ==> s[|r|] == c
  {
    if s == [] then [] else if s[0] == c then [] else [s[0]] + BeforeFirst(s[1..], c)
  }

  /** The part of `s` after the last `c`; `s` itself when it has none. */
  function AfterLast(s: string, c: char): (r: string)
    ensures |r| <= |s| && r == s[|s| - |r|..]
    ensures c !in r
    ensures |r| < |s| ==> s[|s| - |r| - 1] == c
  {
    if s == [] then [] else if s[|s| - 1] == c then [] else AfterLast(s[..|s| - 1], c) + [s[|s| - 1]]
  }

  /** `s.replace(c, '')`: every `c` dropped, the other characters kept in order. */
  function RemoveAll(s: string, c: char): (r: string)
    ensures |r| <= |s|
    ensures c !in r
  {
    if s == [] then [] else (if s[0] == c then [] else [s[0]]) + RemoveAll(s[1..], c)
  }

  /** Removing from a concatenation removes from each part. */
  lemma {:induction false} RemoveAllConcat(a: string, b: string, c: char)
    ensures RemoveAll(a + b, c) == RemoveAll(a, c) + RemoveAll(b, c)
  {
    if a == [] {
      assert a + b == b;
    } else {
      assert (a + b)[1..] == a[1..] + b;
      RemoveAllConcat(a[1..], b, c);
      var h := if a[0] == c then [] else [a[0]];
      assert RemoveAll(a + b, c) == h + (RemoveAll(a[1..], c) + RemoveAll(b, c));
      assert RemoveAll(a, c) == h + RemoveAll(a[1..], c);
    }
  }

  /** A string without `c` is left as it is. */
  lemma {:induction false} RemoveAllAbsent(s: string, c: char)
    requires c !in s
    ensures RemoveAll(s, c) == s
  {
    if s != [] {
      RemoveAllAbsent(s[1..], c);
    }
  }

  // ---------------------------------------------------------------------------
  // JavaScript string length
  // ---------------------------------------------------------------------------

  /** The UTF-16 code units JavaScript stores for `c`: two for a character outside the Basic Multilingual Plane. */
  function Utf16Units(c: char): (n: nat)
    ensures n == 1 || n == 2
    ensures n == 2 <==> c as int >= 0x1_0000
  {
    if c as int >= 0x1_0000 then 2 else 1
  }

  /** JavaScript's `length` of a string: the number of UTF-16 code units, not of characters. */
  function Utf16Length(s: string): (n: nat)
    ensures |s| <= n <= 2 * |s|
    ensures n == 0 <==> s == []
  {
    if s == [] then 0 else Utf16Units(s[0]) + Utf16Length(s[1..])
  }

  /** Every character of `s` lies in the Basic Multilingual Plane. */
  predicate InBmp(s: string) {
    forall k :: 0 <= k < |s| ==> s[k] as int < 0x1_0000
  }

  /** The length of a concatenation is the sum of the lengths. */
  lemma {:induction false} Utf16LengthAppend(s: string, t: string)
    ensures Utf16Length(s + t) == Utf16Length(s) + Utf16Length(t)
  {
    if s != [] {
      assert (s + t)[0] == s[0] && (s + t)[1..] == s[1..] + t;
      Utf16LengthAppend(s[1..], t);
    } else {
      assert s + t == t;
    }
  }

  /** On a string of Basic Multilingual Plane characters, JavaScript's length is the character count. */
  lemma {:induction false} Utf16LengthBmp(s: string)
    ensures InBmp(s) <==> Utf16Length(s) == |s|
  {
    if s != [] {
      Utf16LengthBmp(s[1..]);
      if InBmp(s) {
        assert InBmp(s[1..]) by {
          forall k | 0 <= k < |s[1..]| ensures s[1..][k] as int < 0x1_0000 {
            assert s[1..][k] == s[k + 1];
          }
        }
      }
      if Utf16Length(s) == |s| {
        forall k | 0 <= k < |s| ensures s[k] as int < 0x1_0000 {
          if k > 0 {
            assert s[k] == s[1..][k - 1];
          }
        }
      }
    }
  }

  predicate IsDigit(c: char) { '0' <= c <= '9' }

  /** Every character of `s` is a decimal digit. */
  predicate AllDigits(s: string) {
    forall k :: 0 <= k < |s| ==> IsDigit(s[k])
  }

  function DigitChar(d: nat): (c: char)
    requires d < 10
    ensures IsDigit(c) && c as int - '0' as int == d
  {
    ('0' as int + d) as char
  }

  /** Decimal digits of `n` without leading zeros, as `String(n)` writes them. */
  function NatToString(n: nat): (r: string)
    ensures |r| >= 1
    ensures AllDigits(r)
    ensures |r| > 1 ==> r[0] != '0'
    decreases n
  {
    if n < 10 then [DigitChar(n)] else NatToString(n / 10) + [DigitChar(n % 10)]
  }

  /** The value of a string of decimal digits. */
  function DigitsValue(s: string): nat
    requires AllDigits(s)
  {
    if s == [] then 0 else assert IsDigit(s[|s| - 1]); DigitsValue(s[..|s| - 1]) * 10 + (s[|s| - 1] as int - '0' as int)
  }

  /** Reading the digits back gives the number that was written. */
  lemma {:induction false} NatToStringValue(n: nat)
    ensures DigitsValue(NatToString(n)) == n
  {
    if n >= 10 {
      NatToStringValue(n / 10);
      var r := NatToString(n);
      assert r[..|r| - 1] == NatToString(n / 10);
    }
  }
}
