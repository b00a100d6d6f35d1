/** String helpers shared by the Python back end and the TypeScript front end:
    ASCII case folding, the two languages' whitespace trimming, substring
    containment, decimal rendering and joining. */
module Text {

  /** Python's `str.lower()` restricted to ASCII: only 'A'..'Z' change. */
  function LowerChar(c: char): char {
    if 'A' <= c <= 'Z' then (c as int + 32) as char else c
  }

  function Lower(s: string): string {
    seq(|s|, i requires 0 <= i < |s| => LowerChar(s[i]))
  }

  /** The characters Python's `str.isspace()` accepts (what `str.strip()` removes). */
  predicate PyIsSpace(c: char) {
    var n := c as int;
    (0x09 <= n <= 0x0D) || (0x1C <= n <= 0x20) || n == 0x85 || n == 0xA0
    || n == 0x1680 || (0x2000 <= n <= 0x200A) || n == 0x2028 || n == 0x2029
    || n == 0x202F || n == 0x205F || n == 0x3000
  }

  /** The characters JavaScript's `String.prototype.trim` removes, which are
      also the characters the regular-expression class `\s` matches. */
  predicate JsIsSpace(c: char) {
    var n := c as int;
    (0x09 <= n <= 0x0D) || n == 0x20 || n == 0xA0 || n == 0x1680
    || (0x2000 <= n <= 0x200A) || n == 0x2028 || n == 0x2029
    || n == 0x202F || n == 0x205F || n == 0x3000 || n == 0xFEFF
  }

  function TrimStart(s: string, isSpace: char -> bool): string
    decreases |s|
  {
    if |s| > 0 && isSpace(s[0]) then TrimStart(s[1..], isSpace) else s
  }

  function TrimEnd(s: string, isSpace: char -> bool): string
    decreases |s|
  {
    if |s| > 0 && isSpace(s[|s| - 1]) then TrimEnd(s[..|s| - 1], isSpace) else s
  }

  /** Removes leading and trailing characters satisfying `isSpace`. */
  function Trim(s: string, isSpace: char -> bool): string {
    TrimEnd(TrimStart(s, isSpace), isSpace)
  }

  /** Python's `str.strip()`. */
  function PyStrip(s: string): string {
    Trim(s, PyIsSpace)
  }

  /** JavaScript's `String.prototype.trim()`. */
  function JsTrim(s: string): string {
    Trim(s, JsIsSpace)
  }

  predicate AllSpace(s: string, isSpace: char -> bool) {
    forall i :: 0 <= i < |s| ==> isSpace(s[i])
  }

  lemma {:induction false} TrimStartBlank(s: string, isSpace: char -> bool)
    ensures TrimStart(s, isSpace) == [] <==> AllSpace(s, isSpace)
    decreases |s|
  {
    if |s| > 0 && isSpace(s[0]) {
      TrimStartBlank(s[1..], isSpace);
      assert AllSpace(s, isSpace) <==> AllSpace(s[1..], isSpace) by {
        if AllSpace(s[1..], isSpace) {
          forall i | 0 <= i < |s| ensures isSpace(s[i]) {
            if i > 0 { assert s[i] == s[1..][i - 1]; }
          }
        }
      }
    }
  }

  lemma {:induction false} TrimEndOfBlank(s: string, isSpace: char -> bool)
    requires |s| > 0 && !isSpace(s[0])
    ensures |TrimEnd(s, isSpace)| > 0
    decreases |s|
  {
    if isSpace(s[|s| - 1]) {
      TrimEndOfBlank(s[..|s| - 1], isSpace);
    }
  }

  /** A trimmed string is empty exactly when every character of the input is
      whitespace; this is what "blank after trimming" means. */
  lemma TrimBlank(s: string, isSpace: char -> bool)
    ensures Trim(s, isSpace) == [] <==> AllSpace(s, isSpace)
  {
    TrimStartBlank(s, isSpace);
    var t := TrimStart(s, isSpace);
    if t != [] {
      TrimStartShape(s, isSpace);
      TrimEndOfBlank(t, isSpace);
    }
  }

  lemma {:induction false} TrimStartShape(s: string, isSpace: char -> bool)
    ensures TrimStart(s, isSpace) == [] || !isSpace(TrimStart(s, isSpace)[0])
    decreases |s|
  {
    if |s| > 0 && isSpace(s[0]) {
      TrimStartShape(s[1..], isSpace);
    }
  }

  /** Python's `needle in hay` and JavaScript's `hay.includes(needle)`. */
  predicate Contains(hay: string, needle: string) {
    exists i | 0 <= i <= |hay| - |needle| :: OccursAt(hay, needle, i)
  }

  /** `needle` occurs in `hay` starting at index `i`. */
  predicate OccursAt(hay: string, needle: string, i: int) {
    0 <= i <= |hay| - |needle| && hay[i..i + |needle|] == needle
  }

  /** Only the empty string occurs inside the empty string. */
  lemma ContainedInEmpty(needle: string)
    requires Contains([], needle)
    ensures needle == []
  {
  }

  function DigitChar(d: int): char
    requires 0 <= d < 10
  {
    ('0' as int + d) as char
  }

  /** Regrouping a concatenation; stated over plain strings so that callers
      with string literals need not compare the literals character by character. */
  lemma Regroup(a: string, b: string, c: string, d: string)
    ensures a + (b + c + d) == a + b + c + d
  {
  }

  /** The decimal rendering of a natural number, without leading zeros. */
  function NatToString(n: nat): string
    decreases n
  {
    if n < 10 then [DigitChar(n)] else NatToString(n / 10) + [DigitChar(n % 10)]
  }

  /** Decimal rendering of an integer, with a leading '-' when negative. */
  function IntToString(n: int): string {
    if n < 0 then "-" + NatToString(-n) else NatToString(n)
  }

  /** `parts.join(sep)`: the parts with `sep` between consecutive ones. */
  function Join(parts: seq<string>, sep: string): string
    decreases |parts|
  {
    if |parts| == 0 then ""
    else if |parts| == 1 then parts[0]
    else parts[0] + sep + Join(parts[1..], sep)
  }

  /** Concatenation of all parts, in order. */
  function Concat(parts: seq<string>): string
    decreases |parts|
  {
    if |parts| == 0 then "" else parts[0] + Concat(parts[1..])
  }

  /** Python's `s.split(c)[0]`: everything before the first `c`, or all of `s`. */
  function BeforeFirst(s: string, c: char): string
    decreases |s|
  {
    if |s| == 0 || s[0] == c then "" else [s[0]] + BeforeFirst(s[1..], c)
  }

  /** `split(c)[0]` of `a + b` is `a` when `a` holds no `c` and `b` starts with one. */
  lemma {:induction false} BeforeFirstPrefix(a: string, b: string, c: char)
    requires forall i :: 0 <= i < |a| ==> a[i] != c
    requires |b| > 0 && b[0] == c
    ensures BeforeFirst(a + b, c) == a
    decreases |a|
  {
    if |a| > 0 {
      assert (a + b)[1..] == a[1..] + b;
      BeforeFirstPrefix(a[1..], b, c);
    }
  }

  /** Python's ordering of strings, code point by code point, with a
      proper prefix first: `a <= b`. */
  predicate StrLe(a: string, b: string)
    decreases |a|
  {
    if |a| == 0 then true
    else if |b| == 0 then false
    else if a[0] != b[0] then a[0] < b[0]
    else StrLe(a[1..], b[1..])
  }

  /** Any two strings are ordered one way or the other. */
  lemma {:induction false} StrLeTotal(a: string, b: string)
    ensures StrLe(a, b) || StrLe(b, a)
    decreases |a|
  {
    if |a| > 0 && |b| > 0 && a[0] == b[0] {
      StrLeTotal(a[1..], b[1..]);
    }
  }

  lemma {:induction false} StrLeTrans(a: string, b: string, c: string)
    requires StrLe(a, b) && StrLe(b, c)
    ensures StrLe(a, c)
    decreases |a|
  {
    if |a| > 0 && |b| > 0 && |c| > 0 && a[0] == b[0] && b[0] == c[0] {
      StrLeTrans(a[1..], b[1..], c[1..]);
    }
  }
}
