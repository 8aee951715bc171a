/** The JavaScript string operations the source relies on, over `seq<char>`.
    Case mapping covers ASCII letters only. */
module Strings {
  import opened Wrappers

  /** The characters `String.prototype.trim` removes: ECMAScript WhiteSpace
      and LineTerminator code points. */
  predicate IsSpace(c: char) {
    var n := c as int;
    n == 0x09 || n == 0x0A || n == 0x0B || n == 0x0C || n == 0x0D || n == 0x20 ||
    n == 0xA0 || n == 0x1680 || (0x2000 <= n <= 0x200A) || n == 0x2028 || n == 0x2029 ||
    n == 0x202F || n == 0x205F || n == 0x3000 || n == 0xFEFF
  }

  predicate IsUpper(c: char) {
    'A' <= c <= 'Z'
  }

  /** Lower-case mapping of one character (ASCII). */
  function LowerChar(c: char): (r: char)
    ensures !IsUpper(r)
    ensures !IsUpper(c) ==> r == c
    ensures IsUpper(c) ==> 'a' <= r <= 'z' && r as int - c as int == 32
  {
    if IsUpper(c) then (c as int + 32) as char else c
  }

  /** `s.toLowerCase()`. */
  function ToLower(s: string): (r: string)
    ensures |r| == |s|
    ensures forall i :: 0 <= i < |s| ==> r[i] == LowerChar(s[i])
  {
    seq(|s|, i requires 0 <= i < |s| => LowerChar(s[i]))
  }

  /** Lower-casing twice is lower-casing once. */
  lemma ToLowerIdempotent(s: string)
    ensures ToLower(ToLower(s)) == ToLower(s)
  {
  }

  /** The number of leading whitespace characters. */
  function LeadingSpaces(s: string): (n: nat)
    ensures n <= |s|
    ensures forall i :: 0 <= i < n ==> IsSpace(s[i])
    ensures n == |s| || !IsSpace(s[n])
  {
    if s == [] || !IsSpace(s[0]) then 0 else 1 + LeadingSpaces(s[1..])
  }

  /** The end of `s[lo..hi]` once its trailing whitespace is dropped; the
      characters from `hi` on are whitespace already. */
  function TrimmedEnd(s: string, lo: nat, hi: nat): (e: nat)
    requires lo <= hi <= |s|
    requires forall k :: hi <= k < |s| ==> IsSpace(s[k])
    ensures lo <= e <= hi
    ensures forall k :: e <= k < |s| ==> IsSpace(s[k])
    ensures e == lo || !IsSpace(s[e - 1])
    decreases hi
  {
    if hi == lo || !IsSpace(s[hi - 1]) then hi else TrimmedEnd(s, lo, hi - 1)
  }

  /** `s.trim()`: drop leading and trailing whitespace. The result is the
      contiguous middle of `s` that neither starts nor ends with whitespace,
      and everything dropped is whitespace. */
  function Trim(s: string): (r: string)
    ensures exists i :: OccursAt(s, r, i) && (forall k :: 0 <= k < i ==> IsSpace(s[k])) &&
                        forall k :: i + |r| <= k < |s| ==> IsSpace(s[k])
    ensures r != [] ==> !IsSpace(r[0]) && !IsSpace(r[|r| - 1])
    ensures r == [] <==> forall k :: 0 <= k < |s| ==> IsSpace(s[k])
  {
    var lead := LeadingSpaces(s);
    var end := TrimmedEnd(s, lead, |s|);
    assert OccursAt(s, s[lead..end], lead);
    s[lead..end]
  }

  /** `s.startsWith(p)`. */
  predicate StartsWith(s: string, p: string) {
    |p| <= |s| && s[..|p|] == p
  }

  /** `s.endsWith(p)`. */
  predicate EndsWith(s: string, p: string) {
    |p| <= |s| && s[|s| - |p|..] == p
  }

  /** `t` occurs in `s` starting at offset `i`. */
  predicate OccursAt(s: string, t: string, i: int) {
    0 <= i <= |s| - |t| && s[i..i + |t|] == t
  }

  /** `s.includes(t)`: `t` occurs somewhere in `s` (the empty string occurs
      everywhere). */
  predicate Contains(s: string, t: string)
    decreases |s|
  {
    StartsWith(s, t) || (s != [] && Contains(s[1..], t))
  }

  /** `Contains` holds exactly when `t` occurs at some offset. */
  lemma {:induction false} ContainsAt(s: string, t: string)
    ensures Contains(s, t) <==> exists i :: OccursAt(s, t, i)
  {
    if StartsWith(s, t) {
      assert OccursAt(s, t, 0);
    }
    if s != [] {
      ContainsAt(s[1..], t);
      if Contains(s[1..], t) {
        var i :| OccursAt(s[1..], t, i);
        assert s[i + 1..i + 1 + |t|] == s[1..][i..i + |t|];
        assert OccursAt(s, t, i + 1);
      }
      if exists i :: OccursAt(s, t, i) {
        var i :| OccursAt(s, t, i);
        if i > 0 {
          assert s[1..][i - 1..i - 1 + |t|] == s[i..i + |t|];
          assert OccursAt(s[1..], t, i - 1);
        } else {
          assert s[..|t|] == s[0..0 + |t|];
        }
      }
    } else if exists i :: OccursAt(s, t, i) {
      var i :| OccursAt(s, t, i);
      assert s[..|t|] == s[i..i + |t|];
    }
  }

  /** `s.split(c)[0]`: the text before the first `c`, or all of `s`. */
  function BeforeFirst(s: string, c: char): (r: string)
    ensures |r| <= |s| && r == s[..|r|]
    ensures c !in r
    ensures |r| < |s| ==> s[|r|] == c
  {
    if s == [] || s[0] == c then [] else [s[0]] + BeforeFirst(s[1..], c)
  }

  /** `xs.join(sep)`. */
  function Join(xs: seq<string>, sep: string): (r: string)
    ensures xs == [] ==> r == []
    ensures |xs| == 1 ==> r == xs[0]
  {
    if xs == [] then [] else if |xs| == 1 then xs[0] else xs[0] + sep + Join(xs[1..], sep)
  }

  /** The value of a digit character in bases up to 36: `0`-`9`, then the
      letters in either case; 36 for any other character. */
  function DigitValue(c: char): (v: nat)
    ensures v <= 36
  {
    if '0' <= c <= '9' then c as int - '0' as int
    else if 'a' <= c <= 'z' then c as int - 'a' as int + 10
    else if 'A' <= c <= 'Z' then c as int - 'A' as int + 10
    else 36
  }

  predicate IsDigitIn(c: char, radix: nat) {
    DigitValue(c) < radix
  }

  /** The number of leading digits of `s` in `radix`. */
  function RunLength(s: string, radix: nat): (n: nat)
    ensures n <= |s|
    ensures forall i :: 0 <= i < n ==> IsDigitIn(s[i], radix)
    ensures n == |s| || !IsDigitIn(s[n], radix)
  {
    if s == [] || !IsDigitIn(s[0], radix) then 0 else 1 + RunLength(s[1..], radix)
  }

  /** The value of a run of digits in `radix`, most significant first. */
  function RunValue(ds: string, radix: nat): nat
    requires forall i :: 0 <= i < |ds| ==> IsDigitIn(ds[i], radix)
  {
    if ds == [] then 0
    else
      var init := ds[..|ds| - 1];
      var high: nat := RunValue(init, radix);
      var scaled: nat := NatTimes(high, radix);
      scaled + DigitValue(ds[|ds| - 1])
  }

  function NatTimes(a: nat, b: nat): (p: nat)
    ensures p == a * b
  {
    a * b
  }

  /** `t` without one leading `+` or `-`. */
  function SignStripped(t: string): string {
    if t != [] && (t[0] == '-' || t[0] == '+') then t[1..] else t
  }

  /** The text `parseInt` reads digits from: leading whitespace and one
      sign removed. */
  function Unsigned(s: string): string {
    SignStripped(s[LeadingSpaces(s)..])
  }

  /** A `0x` or `0X` prefix, which switches `parseInt` to base 16. */
  predicate HexPrefixed(body: string) {
    |body| >= 2 && body[0] == '0' && (body[1] == 'x' || body[1] == 'X')
  }

  /** Whether the text after the leading whitespace starts with `-`. */
  predicate Negative(s: string) {
    var t := s[LeadingSpaces(s)..];
    t != [] && t[0] == '-'
  }

  /** `v` with a sign. */
  function Signed(negative: bool, v: nat): int {
    if negative then -(v as int) else v
  }

  /** `parseInt(s)` without a radix argument, as section 19.2.5 of
      ECMAScript 2024 defines it: skip leading whitespace and read an
      optional sign, then read the digits of what follows. An empty run of
      digits gives `NaN`, modelled as `None`. */
  function ParseInt(s: string): (r: Option<int>)
    ensures r.None? <==>
              (if HexPrefixed(Unsigned(s)) then RunLength(Unsigned(s)[2..], 16) else RunLength(Unsigned(s), 10)) == 0
  {
    ReadDigits(Negative(s), Unsigned(s))
  }

  /** After a `0x` or `0X` prefix the longest run of hexadecimal digits,
      otherwise the longest run of decimal digits, with the sign applied. */
  function ReadDigits(negative: bool, body: string): (r: Option<int>)
    ensures r.None? <==> (if HexPrefixed(body) then RunLength(body[2..], 16) else RunLength(body, 10)) == 0
  {
    var radix := if HexPrefixed(body) then 16 else 10;
    var digits := if HexPrefixed(body) then body[2..] else body;
    var n := RunLength(digits, radix);
    if n == 0 then None else Some(Signed(negative, RunValue(digits[..n], radix)))
  }

  /** A sign: nothing, `+` or `-`. */
  predicate IsSign(sign: string) {
    |sign| <= 1 && (sign != [] ==> sign[0] == '+' || sign[0] == '-')
  }

  /** Whitespace, a sign and a body that starts with neither whitespace nor
      a sign: `parseInt` reads the body, negated exactly for `-`. */
  lemma SignedText(sp: string, sign: string, body: string)
    requires forall i :: 0 <= i < |sp| ==> IsSpace(sp[i])
    requires IsSign(sign)
    requires body != [] && !IsSpace(body[0]) && body[0] != '+' && body[0] != '-'
    ensures Unsigned(sp + sign + body) == body
    ensures Negative(sp + sign + body) <==> sign != [] && sign[0] == '-'
  {
    var rest := sign + body;
    Regroup3(sp, sign, body);
    assert rest[0] == (if sign == [] then body[0] else sign[0]);
    LeadingSpacesAppend(sp, rest);
    if sign != [] {
      assert rest[1..] == body;
    } else {
      assert rest == body;
    }
  }

  /** Decimal text: whitespace, an optional sign, digits, then anything that
      does not continue the digits, reads as the signed value of the digits;
      `parseInt(" -12px")` is -12 and `parseInt("7")` is 7. */
  lemma ParseIntDecimal(sp: string, sign: string, ds: string, tail: string)
    requires forall i :: 0 <= i < |sp| ==> IsSpace(sp[i])
    requires IsSign(sign)
    requires ds != [] && forall i :: 0 <= i < |ds| ==> IsDigitIn(ds[i], 10)
    requires tail == [] || !IsDigitIn(tail[0], 10)
    requires !HexPrefixed(ds + tail)
    ensures ParseInt(sp + sign + ds + tail) == Some(Signed(sign != [] && sign[0] == '-', RunValue(ds, 10)))
  {
    Regroup3(sp + sign, ds, tail);
    assert (ds + tail)[0] == ds[0];
    SignedText(sp, sign, ds + tail);
    DecimalBody(sign != [] && sign[0] == '-', ds, tail);
  }

  /** A body that is a run of decimal digits, without a `0x` prefix, reads
      as that run in base 10. */
  lemma DecimalBody(negative: bool, ds: string, tail: string)
    requires ds != [] && forall i :: 0 <= i < |ds| ==> IsDigitIn(ds[i], 10)
    requires tail == [] || !IsDigitIn(tail[0], 10)
    requires !HexPrefixed(ds + tail)
    ensures ReadDigits(negative, ds + tail) == Some(Signed(negative, RunValue(ds, 10)))
  {
    RunLengthAppend(ds, tail, 10);
    assert (ds + tail)[..|ds|] == ds;
  }

  /** Hexadecimal text: after whitespace, an optional sign and `0x` or `0X`,
      the run of hexadecimal digits is read in base 16, so
      `parseInt("0x1A")` is 26; with no digit after the prefix the result is
      `NaN`, so `parseInt("0x")` is not 0. */
  lemma ParseIntHex(sp: string, sign: string, x: char, hs: string, tail: string)
    requires forall i :: 0 <= i < |sp| ==> IsSpace(sp[i])
    requires IsSign(sign)
    requires x == 'x' || x == 'X'
    requires forall i :: 0 <= i < |hs| ==> IsDigitIn(hs[i], 16)
    requires tail == [] || !IsDigitIn(tail[0], 16)
    ensures ParseInt(sp + sign + ['0', x] + hs + tail) ==
              if hs == [] then None else Some(Signed(sign != [] && sign[0] == '-', RunValue(hs, 16)))
  {
    var body := ['0', x] + (hs + tail);
    Regroup(sp + sign, ['0', x], hs, tail);
    SignedText(sp, sign, body);
    HexBody(sign != [] && sign[0] == '-', x, hs, tail);
  }

  /** A body that is `0x` followed by a run of hexadecimal digits reads as
      that run in base 16. */
  lemma HexBody(negative: bool, x: char, hs: string, tail: string)
    requires x == 'x' || x == 'X'
    requires forall i :: 0 <= i < |hs| ==> IsDigitIn(hs[i], 16)
    requires tail == [] || !IsDigitIn(tail[0], 16)
    ensures ReadDigits(negative, ['0', x] + (hs + tail)) ==
              if hs == [] then None else Some(Signed(negative, RunValue(hs, 16)))
  {
    var body := ['0', x] + (hs + tail);
    assert HexPrefixed(body);
    assert body[2..] == hs + tail;
    RunLengthAppend(hs, tail, 16);
    assert (hs + tail)[..|hs|] == hs;
  }

  lemma Regroup3(a: string, b: string, c: string)
    ensures a + b + c == a + (b + c)
  {
  }

  lemma Regroup(a: string, b: string, c: string, d: string)
    ensures a + b + c + d == a + (b + (c + d))
  {
  }

  /** Leading whitespace followed by a non-space ends where the
      whitespace does. */
  lemma {:induction false} LeadingSpacesAppend(sp: string, rest: string)
    requires forall i :: 0 <= i < |sp| ==> IsSpace(sp[i])
    requires rest == [] || !IsSpace(rest[0])
    ensures LeadingSpaces(sp + rest) == |sp|
    ensures (sp + rest)[|sp|..] == rest
  {
    if sp != [] {
      assert (sp + rest)[1..] == sp[1..] + rest;
      LeadingSpacesAppend(sp[1..], rest);
    } else {
      assert sp + rest == rest;
    }
  }

  lemma {:induction false} RunLengthAppend(ds: string, tail: string, radix: nat)
    requires forall i :: 0 <= i < |ds| ==> IsDigitIn(ds[i], radix)
    requires tail == [] || !IsDigitIn(tail[0], radix)
    ensures RunLength(ds + tail, radix) == |ds|
  {
    if ds != [] {
      assert (ds + tail)[1..] == ds[1..] + tail;
      RunLengthAppend(ds[1..], tail, radix);
    } else {
      assert ds + tail == tail;
    }
  }
}
