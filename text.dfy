/** The part of JavaScript's string and number behaviour the dashboard
    relies on: decimal rendering (`toString`, `padStart(2, "0")`),
    `split` on one character, `trim`, `toLowerCase`/`toUpperCase` on
    ASCII letters, `includes`, `endsWith`, the regular expression
    `/^[+-]?\d+/` and `parseInt`. */
module Text {
  import opened Wrappers

  // ---------------------------------------------------------------- digits

  predicate IsDigit(c: char) { '0' <= c <= '9' }

  predicate AllDigits(s: string) { forall i :: 0 <= i < |s| ==> IsDigit(s[i]) }

  function DigitChar(d: nat): (c: char)
    requires d < 10
    ensures IsDigit(c) && (c as int) - ('0' as int) == d
  {
    (('0' as int) + d) as char
  }

  /** `n.toString()` for a non-negative integer: decimal, no leading zeros. */
  function Digits(n: nat): (s: string)
    ensures 1 <= |s| && AllDigits(s)
    ensures |s| == 1 <==> n < 10
    ensures s[0] == '0' ==> n == 0
    decreases n
  {
    if n < 10 then [DigitChar(n)] else Digits(n / 10) + [DigitChar(n % 10)]
  }

  /** The number a string of decimal digits denotes ("" denotes 0, as `Number("")` does). */
  function DecimalValue(s: string): nat
    requires AllDigits(s)
  {
    if s == [] then 0 else DecimalValue(s[..|s| - 1]) * 10 + ((s[|s| - 1] as int) - ('0' as int))
  }

  /** Reading back what `Digits` wrote gives the number again. */
  lemma {:induction false} DecimalValueOfDigits(n: nat)
    ensures DecimalValue(Digits(n)) == n
  {
    if n >= 10 {
      DecimalValueOfDigits(n / 10);
      var s := Digits(n);
      assert s[..|s| - 1] == Digits(n / 10);
    }
  }

  lemma DigitsInjective(a: nat, b: nat)
    requires Digits(a) == Digits(b)
    ensures a == b
  {
    DecimalValueOfDigits(a);
    DecimalValueOfDigits(b);
  }

  /** `n.toString().padStart(2, "0")`. */
  function Pad2(n: nat): (s: string)
    ensures AllDigits(s) && DecimalValue(s) == n
    ensures n < 100 ==> |s| == 2
    ensures 2 <= |s|
  {
    DecimalValueOfDigits(n);
    if n < 10 then
      var s := "0" + Digits(n);
      assert s[..1] == "0";
      s
    else
      assert |Digits(n / 10)| == 1 <==> n / 10 < 10;
      Digits(n)
  }

  /** `i.toString()` for any integer. */
  function IntText(i: int): string {
    if i < 0 then "-" + Digits(-i) else Digits(i)
  }

  // ---------------------------------------------------------------- split

  function IndexOf(s: string, c: char): (i: nat)
    requires c in s
    ensures i < |s| && s[i] == c && c !in s[..i]
  {
    if s[0] == c then 0
    else
      assert s == [s[0]] + s[1..];
      var j := IndexOf(s[1..], c);
      assert s[..j + 1] == [s[0]] + s[1..][..j];
      j + 1
  }

  /** `s.split(sep)` for a one-character separator. */
  function Split(s: string, sep: char): (parts: seq<string>)
    ensures |parts| >= 1
    ensures forall k :: 0 <= k < |parts| ==> sep !in parts[k]
    decreases |s|
  {
    if sep !in s then [s]
    else
      var i := IndexOf(s, sep);
      [s[..i]] + Split(s[i + 1..], sep)
  }

  /** `parts.join(sep)`, the inverse of `Split`. */
  function Join(parts: seq<string>, sep: char): string
    requires |parts| >= 1
  {
    if |parts| == 1 then parts[0] else parts[0] + [sep] + Join(parts[1..], sep)
  }

  lemma {:induction false} JoinSplit(s: string, sep: char)
    ensures Join(Split(s, sep), sep) == s
    decreases |s|
  {
    if sep in s {
      var i := IndexOf(s, sep);
      var rest := Split(s[i + 1..], sep);
      var parts := Split(s, sep);
      assert parts == [s[..i]] + rest;
      assert parts[0] == s[..i] && parts[1..] == rest;
      JoinSplit(s[i + 1..], sep);
      assert Join(parts, sep) == s[..i] + [sep] + Join(rest, sep);
      assert s == s[..i] + [sep] + s[i + 1..];
    }
  }

  /** Splitting text joined from separator-free parts gives the parts back. */
  lemma {:induction false} SplitJoin(parts: seq<string>, sep: char)
    requires |parts| >= 1
    requires forall k :: 0 <= k < |parts| ==> sep !in parts[k]
    ensures Split(Join(parts, sep), sep) == parts
  {
    if |parts| > 1 {
      var s := Join(parts, sep);
      var rest := Join(parts[1..], sep);
      assert s == parts[0] + [sep] + rest;
      assert sep in s by { assert s[|parts[0]|] == sep; }
      var i := IndexOf(s, sep);
      assert s[..|parts[0]|] == parts[0];
      assert i == |parts[0]|;
      assert s[..i] == parts[0];
      assert s[i + 1..] == rest;
      SplitJoin(parts[1..], sep);
    }
  }

  lemma SplitTwo(a: string, b: string, sep: char)
    requires sep !in a && sep !in b
    ensures Split(a + [sep] + b, sep) == [a, b]
  {
    SplitJoin([a, b], sep);
  }

  lemma SplitThree(a: string, b: string, c: string, sep: char)
    requires sep !in a && sep !in b && sep !in c
    ensures Split(a + [sep] + b + [sep] + c, sep) == [a, b, c]
  {
    assert [a, b, c][1..] == [b, c] && [b, c][1..] == [c];
    assert Join([b, c], sep) == b + [sep] + c;
    assert Join([a, b, c], sep) == a + [sep] + (b + [sep] + c);
    assert a + [sep] + b + [sep] + c == a + [sep] + (b + [sep] + c);
    SplitJoin([a, b, c], sep);
  }

  lemma NoCharInDigits(s: string, c: char)
    requires AllDigits(s) && !IsDigit(c)
    ensures c !in s
  {
  }

  // ---------------------------------------------------------------- case, trim, search

  /** `toLowerCase` on one character; letters outside ASCII are not folded. */
  function LowerChar(c: char): char {
    if 'A' <= c <= 'Z' then ((c as int) + 32) as char else c
  }

  /** `toUpperCase` on one character; letters outside ASCII are not folded. */
  function UpperChar(c: char): char {
    if 'a' <= c <= 'z' then ((c as int) - 32) as char else c
  }

  function Lower(s: string): string {
    seq(|s|, i requires 0 <= i < |s| => LowerChar(s[i]))
  }

  function Upper(s: string): string {
    seq(|s|, i requires 0 <= i < |s| => UpperChar(s[i]))
  }

  /** The characters `String.prototype.trim` removes: white space and line terminators. */
  predicate IsSpace(c: char) {
    var n := c as int;
    n == 0x09 || n == 0x0A || n == 0x0B || n == 0x0C || n == 0x0D || n == 0x20 ||
    n == 0xA0 || n == 0x1680 || 0x2000 <= n <= 0x200A || n == 0x2028 || n == 0x2029 ||
    n == 0x202F || n == 0x205F || n == 0x3000 || n == 0xFEFF
  }

  function TrimStart(s: string): string
    decreases |s|
  {
    if |s| > 0 && IsSpace(s[0]) then TrimStart(s[1..]) else s
  }

  function TrimEnd(s: string): string
    decreases |s|
  {
    if |s| > 0 && IsSpace(s[|s| - 1]) then TrimEnd(s[..|s| - 1]) else s
  }

  function Trim(s: string): string {
    TrimEnd(TrimStart(s))
  }

  predicate OccursAt(s: string, sub: string, i: nat) {
    i + |sub| <= |s| && s[i..i + |sub|] == sub
  }

  /** `s.includes(sub)`. */
  predicate Contains(s: string, sub: string) {
    exists i :: 0 <= i <= |s| && OccursAt(s, sub, i)
  }

  /** `s.endsWith(suffix)`. */
  predicate EndsWith(s: string, suffix: string) {
    |suffix| <= |s| && s[|s| - |suffix|..] == suffix
  }

  lemma ContainsAt(s: string, sub: string, i: nat)
    requires OccursAt(s, sub, i)
    ensures Contains(s, sub)
  {
  }

  /** A string in which the character `c` does not occur contains no text starting with `c`. */
  lemma NotContainsWithout(s: string, sub: string)
    requires |sub| > 0 && sub[0] !in s
    ensures !Contains(s, sub)
  {
  }

  /** Text put in front keeps the ending of a string. */
  lemma PrefixKeepsEnding(p: string, s: string, suffix: string)
    requires EndsWith(s, suffix)
    ensures EndsWith(p + s, suffix)
  {
    var r := p + s;
    assert r[|r| - |suffix|..] == s[|s| - |suffix|..];
  }

  /** Text put in front keeps every occurrence, shifted by its length. */
  lemma PrefixKeepsOccurrence(p: string, s: string, sub: string)
    requires Contains(s, sub)
    ensures Contains(p + s, sub)
  {
    var r := p + s;
    var i :| 0 <= i <= |s| && OccursAt(s, sub, i);
    assert r[|p| + i..|p| + i + |sub|] == s[i..i + |sub|];
    ContainsAt(r, sub, |p| + i);
  }

  // ---------------------------------------------------------------- numbers in text

  /** The length of the run of decimal digits at the start of `s`. */
  function DigitRun(s: string): (n: nat)
    ensures n <= |s| && AllDigits(s[..n])
    ensures n < |s| ==> !IsDigit(s[n])
  {
    if |s| > 0 && IsDigit(s[0]) then
      var n := 1 + DigitRun(s[1..]);
      assert s[..n] == [s[0]] + s[1..][..n - 1];
      n
    else 0
  }

  predicate IsSign(c: char) { c == '+' || c == '-' }

  /** `s.match(/^[+-]?\d+/)?.[0]`: an optional sign followed by every leading digit. */
  function LeadingInteger(s: string): Option<string> {
    var k := if |s| > 0 && IsSign(s[0]) then 1 else 0;
    var n := DigitRun(s[k..]);
    if n == 0 then None else Some(s[..k + n])
  }

  predicate IsHexDigit(c: char) { IsDigit(c) || 'a' <= c <= 'f' || 'A' <= c <= 'F' }

  function HexDigitValue(c: char): nat
    requires IsHexDigit(c)
  {
    if IsDigit(c) then (c as int) - ('0' as int)
    else if 'a' <= c <= 'f' then (c as int) - ('a' as int) + 10
    else (c as int) - ('A' as int) + 10
  }

  function HexRun(s: string): (n: nat)
    ensures n <= |s|
  {
    if |s| > 0 && IsHexDigit(s[0]) then 1 + HexRun(s[1..]) else 0
  }

  function HexValue(s: string): nat
    requires forall i :: 0 <= i < |s| ==> IsHexDigit(s[i])
  {
    if s == [] then 0 else HexValue(s[..|s| - 1]) * 16 + HexDigitValue(s[|s| - 1])
  }

  lemma HexRunDigits(s: string)
    ensures forall i :: 0 <= i < HexRun(s) ==> IsHexDigit(s[i])
  {
    if |s| > 0 && IsHexDigit(s[0]) {
      HexRunDigits(s[1..]);
      forall i | 0 <= i < HexRun(s) ensures IsHexDigit(s[i]) {
        if i > 0 { assert s[i] == s[1..][i - 1]; }
      }
    }
  }

  /** `parseInt(s)` without a radix: leading white space and one sign are
      skipped, a "0x" prefix selects hexadecimal, and the longest run of
      digits is read; `None` stands for `NaN`. */
  function ParseInt(s: string): Option<int> {
    var t := TrimStart(s);
    var k := if |t| > 0 && IsSign(t[0]) then 1 else 0;
    ParseMagnitude(if k == 1 && t[0] == '-' then -1 else 1, t[k..])
  }

  /** What follows the sign: hexadecimal digits after "0x" or "0X", decimal
      digits otherwise, read up to the first character that is not one; no
      digit at all is `NaN`, here `None`. */
  function ParseMagnitude(sign: int, body: string): Option<int> {
    if |body| >= 2 && body[0] == '0' && (body[1] == 'x' || body[1] == 'X') then
      var hex := body[2..];
      var n := HexRun(hex);
      HexRunDigits(hex);
      if n == 0 then None else Some(sign * HexValue(hex[..n]))
    else
      var n := DigitRun(body);
      if n == 0 then None else Some(sign * DecimalValue(body[..n]))
  }

  lemma DigitRunAll(s: string)
    requires AllDigits(s)
    ensures DigitRun(s) == |s|
  {
  }

  /** parseInt reads back the decimal text of a number, signed or not. */
  lemma ParseIntOfDigits(sign: string, n: nat)
    requires sign == "" || sign == "+" || sign == "-"
    ensures ParseInt(sign + Digits(n)) == Some(if sign == "-" then -(n as int) else n as int)
  {
    var s := sign + Digits(n);
    assert |s| > 0 && !IsSpace(s[0]);
    assert TrimStart(s) == s;
    assert s[|sign|..] == Digits(n);
    ParseMagnitudeOfDigits(if sign == "-" then -1 else 1, n);
  }

  lemma ParseMagnitudeOfDigits(sign: int, n: nat)
    ensures ParseMagnitude(sign, Digits(n)) == Some(sign * n)
  {
    var d := Digits(n);
    DigitRunAll(d);
    assert d[..|d|] == d;
    DecimalValueOfDigits(n);
  }
}
