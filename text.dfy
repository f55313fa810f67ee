/**
 * Text helpers the clients rely on: decimal rendering of integers (as
 * Rust's `{}` and Python's `format` print them), left-to-right
 * substring replacement (Rust's `str::replace`), and UTF-8 encoding
 * (Python's `str.encode("utf-8")`).
 */
module Text {
  import opened Wrappers

  type byte = x: int | 0 <= x < 0x100

  predicate IsDigit(c: char) {
    '0' <= c <= '9'
  }

  predicate AllDigits(s: string) {
    forall i :: 0 <= i < |s| ==> IsDigit(s[i])
  }

  function DigitChar(d: nat): (c: char)
    requires d < 10
    ensures IsDigit(c) && c as int - '0' as int == d
  {
    ('0' as int + d) as char
  }

  /** The decimal digits of `n`, most significant first, without leading zeros. */
  function Decimal(n: nat): (s: string)
    ensures |s| > 0 && AllDigits(s)
    ensures s[0] == '0' ==> n == 0
    decreases n
  {
    if n < 10 then [DigitChar(n)] else Decimal(n / 10) + [DigitChar(n % 10)]
  }

  /** The number a string of decimal digits denotes. */
  function DecimalValue(s: string): nat
    requires AllDigits(s)
  {
    if s == [] then 0
    else DecimalValue(s[..|s| - 1]) * 10 + (s[|s| - 1] as int - '0' as int)
  }

  lemma {:induction false} DecimalRoundTrip(n: nat)
    ensures DecimalValue(Decimal(n)) == n
  {
    if n >= 10 {
      var s := Decimal(n);
      assert s[..|s| - 1] == Decimal(n / 10);
      DecimalRoundTrip(n / 10);
    }
  }

  /** A signed integer as Python's `str` and `format` render it. */
  function IntToString(i: int): (s: string)
    ensures |s| > 0
    ensures i < 0 <==> s[0] == '-'
  {
    if i < 0 then "-" + Decimal(-i) else Decimal(i)
  }

  /** Reads back a rendering produced by `IntToString`. */
  function ParseInt(s: string): Option<int> {
    if |s| > 1 && s[0] == '-' && AllDigits(s[1..]) then Some(0 - DecimalValue(s[1..]) as int)
    else if |s| > 0 && AllDigits(s) then Some(DecimalValue(s))
    else None
  }

  lemma IntToStringRoundTrip(i: int)
    ensures ParseInt(IntToString(i)) == Some(i)
  {
    if i < 0 {
      assert IntToString(i)[1..] == Decimal(-i);
      DecimalRoundTrip(-i);
    } else {
      DecimalRoundTrip(i);
    }
  }

  /** `pat` occurs in `s` starting at index `i`. */
  predicate At(s: string, i: nat, pat: string) {
    i + |pat| <= |s| && s[i..i + |pat|] == pat
  }

  predicate Occurs(s: string, pat: string) {
    exists i: nat | i <= |s| :: At(s, i, pat)
  }

  /**
   * Rust's `str::replace`: every non-overlapping occurrence of `pat`, found
   * left to right, is replaced by `rep`; an empty pattern matches before
   * every character and at the end.
   */
  function ReplaceAll(s: string, pat: string, rep: string): string
    decreases |s|
  {
    if pat == [] then
      rep + (if s == [] then [] else [s[0]] + ReplaceAll(s[1..], pat, rep))
    else if At(s, 0, pat) then
      rep + ReplaceAll(s[|pat|..], pat, rep)
    else if s == [] then []
    else [s[0]] + ReplaceAll(s[1..], pat, rep)
  }

  /** Rust's `str::replace` with a set of characters as the pattern. */
  function ReplaceChars(s: string, chars: set<char>, rep: string): string {
    if s == [] then []
    else (if s[0] in chars then rep else [s[0]]) + ReplaceChars(s[1..], chars, rep)
  }

  /** Replacement introduces no character that neither the text nor the replacement holds. */
  lemma {:induction false} ReplaceAllAvoids(s: string, pat: string, rep: string, c: char)
    requires c !in s && c !in rep
    ensures c !in ReplaceAll(s, pat, rep)
    decreases |s|
  {
    if s != [] {
      if pat != [] && At(s, 0, pat) {
        ReplaceAllAvoids(s[|pat|..], pat, rep, c);
      } else {
        ReplaceAllAvoids(s[1..], pat, rep, c);
      }
    }
  }

  /** Replacing a one-character pattern by text without it removes that character. */
  lemma {:induction false} ReplaceAllRemoves(s: string, c: char, rep: string)
    requires c !in rep
    ensures c !in ReplaceAll(s, [c], rep)
    decreases |s|
  {
    if s != [] {
      if At(s, 0, [c]) {
        ReplaceAllRemoves(s[1..], c, rep);
      } else {
        assert s[0] != c;
        ReplaceAllRemoves(s[1..], c, rep);
      }
    }
  }

  /** Text in which the pattern never occurs comes back unchanged. */
  lemma {:induction false} ReplaceAllAbsent(s: string, pat: string, rep: string)
    requires pat != [] && !Occurs(s, pat)
    ensures ReplaceAll(s, pat, rep) == s
    decreases |s|
  {
    if s != [] {
      assert !At(s, 0, pat);
      if Occurs(s[1..], pat) {
        var i: nat :| i <= |s[1..]| && At(s[1..], i, pat);
        assert s[1..][i..i + |pat|] == s[i + 1..i + 1 + |pat|];
        assert At(s, i + 1, pat);
        assert false;
      }
      ReplaceAllAbsent(s[1..], pat, rep);
    }
  }

  /** Character replacement leaves none of the replaced characters behind. */
  lemma {:induction false} ReplaceCharsRemoves(s: string, chars: set<char>, rep: string, c: char)
    requires c in chars && c !in rep
    ensures c !in ReplaceChars(s, chars, rep)
  {
    if s != [] {
      ReplaceCharsRemoves(s[1..], chars, rep, c);
    }
  }

  /** Text holding none of the characters comes back unchanged. */
  lemma {:induction false} ReplaceCharsAbsent(s: string, chars: set<char>, rep: string)
    requires forall i :: 0 <= i < |s| ==> s[i] !in chars
    ensures ReplaceChars(s, chars, rep) == s
  {
    if s != [] {
      ReplaceCharsAbsent(s[1..], chars, rep);
    }
  }

  /** Character replacement introduces no character that neither the text nor the replacement holds. */
  lemma {:induction false} ReplaceCharsAvoids(s: string, chars: set<char>, rep: string, c: char)
    requires c !in s && c !in rep
    ensures c !in ReplaceChars(s, chars, rep)
  {
    if s != [] {
      ReplaceCharsAvoids(s[1..], chars, rep, c);
    }
  }

  /** Text that starts with the pattern has it replaced, and the rest is scanned on. */
  lemma ReplaceAllLeading(y: string, pat: string, rep: string)
    requires pat != []
    ensures ReplaceAll(pat + y, pat, rep) == rep + ReplaceAll(y, pat, rep)
  {
    assert (pat + y)[0..|pat|] == pat;
    assert (pat + y)[|pat|..] == y;
  }

  /** A character that cannot start the pattern is copied through. */
  lemma ReplaceAllSkip(c: char, y: string, pat: string, rep: string)
    requires pat != [] && pat[0] != c
    ensures ReplaceAll([c] + y, pat, rep) == [c] + ReplaceAll(y, pat, rep)
  {
    var s := [c] + y;
    assert !At(s, 0, pat) by {
      if |pat| <= |s| {
        assert s[0..|pat|][0] == s[0] == c;
      }
    }
    assert s[1..] == y;
  }

  /** A prefix that cannot start the pattern is copied through as it is. */
  lemma {:induction false} ReplaceAllPrefix(x: string, y: string, pat: string, rep: string)
    requires pat != [] && pat[0] !in x
    ensures ReplaceAll(x + y, pat, rep) == x + ReplaceAll(y, pat, rep)
    decreases |x|
  {
    if x == [] {
      assert x + y == y;
    } else {
      var t := x[1..];
      calc {
        ReplaceAll(x + y, pat, rep);
        { assert x + y == [x[0]] + (t + y); }
        ReplaceAll([x[0]] + (t + y), pat, rep);
        { ReplaceAllSkip(x[0], t + y, pat, rep); }
        [x[0]] + ReplaceAll(t + y, pat, rep);
        { ReplaceAllPrefix(t, y, pat, rep); }
        [x[0]] + (t + ReplaceAll(y, pat, rep));
        { assert x == [x[0]] + t; }
        x + ReplaceAll(y, pat, rep);
      }
    }
  }

  /** A slice that lies wholly in the middle part of a concatenation. */
  lemma SliceMiddle(a: string, b: string, c: string, i: nat, n: nat)
    requires |a| <= i && i + n <= |a| + |b|
    ensures (a + b + c)[i..i + n] == b[i - |a|..i - |a| + n]
  {
  }

  /** A slice that lies wholly in the second part of a concatenation. */
  lemma SliceRight(a: string, b: string, i: nat, n: nat)
    requires |a| <= i && i + n <= |a + b|
    ensures (a + b)[i..i + n] == b[i - |a|..i - |a| + n]
  {
  }

  /**
   * Replacing a two-character pattern `[c, d]` by text that holds no `c`
   * and does not start with `d` leaves no occurrence of the pattern: the
   * scan consumes every occurrence, and no new one forms at a seam.
   */
  lemma {:induction false} ReplacePairRemoves(s: string, c: char, d: char, rep: string)
    requires rep != [] && c !in rep && rep[0] != d
    ensures !Occurs(ReplaceAll(s, [c, d], rep), [c, d])
    decreases |s|
  {
    var pat := [c, d];
    var r := ReplaceAll(s, pat, rep);
    if s != [] {
      var matched := At(s, 0, pat);
      var rest := if matched then s[2..] else s[1..];
      var head := if matched then rep else [s[0]];
      ReplacePairRemoves(rest, c, d, rep);
      var tail := ReplaceAll(rest, pat, rep);
      assert r == head + tail;
      forall i: nat | i <= |r|
        ensures !At(r, i, pat)
      {
        if i + 2 <= |r| {
          assert r[i..i + 2] == [r[i], r[i + 1]];
          if i + 1 < |head| {
            assert r[i] == rep[i];
          } else if i + 1 == |head| {
            assert r[i + 1] == tail[0];
            if matched {
              assert r[i] == rep[i];
            } else if s[0] == c {
              assert s[..2] == [s[0], s[1]];
              if At(rest, 0, pat) {
                assert tail[0] == rep[0];
              } else {
                assert tail[0] == rest[0] == s[1];
              }
            }
          } else {
            var j := i - |head|;
            assert !At(tail, j, pat);
            assert r[i..i + 2] == tail[j..j + 2];
          }
        }
      }
    }
  }

  // UTF-8

  /** The UTF-8 encoding of one Unicode scalar value. */
  function EncodeChar(c: char): (b: seq<byte>)
    ensures 1 <= |b| <= 4
  {
    var n := c as int;
    if n < 0x80 then [n]
    else if n < 0x800 then [0xC0 + n / 0x40, 0x80 + n % 0x40]
    else if n < 0x1_0000 then [0xE0 + n / 0x1000, 0x80 + n / 0x40 % 0x40, 0x80 + n % 0x40]
    else [0xF0 + n / 0x4_0000, 0x80 + n / 0x1000 % 0x40, 0x80 + n / 0x40 % 0x40, 0x80 + n % 0x40]
  }

  /** Python's `s.encode("utf-8")`. */
  function Utf8(s: string): seq<byte> {
    if s == [] then [] else EncodeChar(s[0]) + Utf8(s[1..])
  }

  predicate IsContinuation(b: byte) {
    0x80 <= b < 0xC0
  }

  predicate IsScalar(n: int) {
    0 <= n < 0xD800 || 0xE000 <= n < 0x11_0000
  }

  /** The code point of the first encoded character and its length in bytes; rejects overlong forms. */
  function DecodeFirst(b: seq<byte>): Option<(int, nat)>
    requires b != []
  {
    var b0: int := b[0];
    if b0 < 0x80 then Some((b0, 1))
    else if 0xC0 <= b0 < 0xE0 && |b| >= 2 && IsContinuation(b[1]) then
      var n := (b0 - 0xC0) * 0x40 + (b[1] as int - 0x80);
      if n >= 0x80 then Some((n, 2)) else None
    else if 0xE0 <= b0 < 0xF0 && |b| >= 3 && IsContinuation(b[1]) && IsContinuation(b[2]) then
      var n := (b0 - 0xE0) * 0x1000 + (b[1] as int - 0x80) * 0x40 + (b[2] as int - 0x80);
      if n >= 0x800 then Some((n, 3)) else None
    else if 0xF0 <= b0 < 0xF8 && |b| >= 4 && IsContinuation(b[1]) && IsContinuation(b[2]) && IsContinuation(b[3]) then
      var n := (b0 - 0xF0) * 0x4_0000 + (b[1] as int - 0x80) * 0x1000 + (b[2] as int - 0x80) * 0x40 + (b[3] as int - 0x80);
      if n >= 0x1_0000 then Some((n, 4)) else None
    else None
  }

  /** Strict UTF-8 decoding: `None` for any malformed sequence. */
  function DecodeUtf8(b: seq<byte>): Option<string>
    decreases |b|
  {
    if b == [] then Some([])
    else match DecodeFirst(b)
      case None => None
      case Some((n, k)) =>
        if !IsScalar(n) || k > |b| || k == 0 then None
        else match DecodeUtf8(b[k..])
          case None => None
          case Some(rest) => Some([n as char] + rest)
  }

  lemma DecodeFirstEncodeChar(c: char, rest: seq<byte>)
    ensures DecodeFirst(EncodeChar(c) + rest) == Some((c as int, |EncodeChar(c)|))
  {
    var n := c as int;
    if n < 0x80 {
    } else if n < 0x800 {
      DecodeTwoBytes(c, rest);
    } else if n < 0x1_0000 {
      DecodeThreeBytes(c, rest);
    } else {
      DecodeFourBytes(c, rest);
    }
  }

  lemma DecodeTwoBytes(c: char, rest: seq<byte>)
    requires 0x80 <= c as int < 0x800
    ensures DecodeFirst(EncodeChar(c) + rest) == Some((c as int, |EncodeChar(c)|))
  {
    var n := c as int;
    var b := EncodeChar(c) + rest;
    assert b[0] == 0xC0 + n / 0x40 && b[1] == 0x80 + n % 0x40;
    assert (n / 0x40) * 0x40 + n % 0x40 == n;
  }

  lemma DecodeThreeBytes(c: char, rest: seq<byte>)
    requires 0x800 <= c as int < 0x1_0000
    ensures DecodeFirst(EncodeChar(c) + rest) == Some((c as int, |EncodeChar(c)|))
  {
    var n := c as int;
    var b := EncodeChar(c) + rest;
    assert b[0] == 0xE0 + n / 0x1000 && b[1] == 0x80 + n / 0x40 % 0x40 && b[2] == 0x80 + n % 0x40;
    assert (n / 0x1000) * 0x1000 + (n / 0x40 % 0x40) * 0x40 + n % 0x40 == n;
  }

  lemma DecodeFourBytes(c: char, rest: seq<byte>)
    requires 0x1_0000 <= c as int
    ensures DecodeFirst(EncodeChar(c) + rest) == Some((c as int, |EncodeChar(c)|))
  {
    var n := c as int;
    var b := EncodeChar(c) + rest;
    assert b[0] == 0xF0 + n / 0x4_0000 && b[1] == 0x80 + n / 0x1000 % 0x40;
    assert b[2] == 0x80 + n / 0x40 % 0x40 && b[3] == 0x80 + n % 0x40;
    FourDigits(n);
  }

  /** A number splits into its base-64 digits as the four-byte form writes them. */
  lemma FourDigits(n: nat)
    ensures (n / 0x4_0000) * 0x4_0000 + (n / 0x1000 % 0x40) * 0x1000 + (n / 0x40 % 0x40) * 0x40 + n % 0x40 == n
  {
    var q1 := n / 0x40;
    var q2 := q1 / 0x40;
    assert n == q1 * 0x40 + n % 0x40;
    assert q1 == q2 * 0x40 + q1 % 0x40;
    assert q2 == q2 / 0x40 * 0x40 + q2 % 0x40;
    assert n / 0x1000 == q2;
    assert n / 0x4_0000 == q2 / 0x40;
  }

  /** Decoding undoes encoding: UTF-8 loses nothing. */
  lemma {:induction false} Utf8RoundTrip(s: string)
    ensures DecodeUtf8(Utf8(s)) == Some(s)
  {
    if s != [] {
      var b := Utf8(s);
      var e := EncodeChar(s[0]);
      DecodeFirstEncodeChar(s[0], Utf8(s[1..]));
      assert b[|e|..] == Utf8(s[1..]);
      Utf8RoundTrip(s[1..]);
      assert (s[0] as int) as char == s[0];
      assert [s[0]] + s[1..] == s;
    }
  }

  /** ASCII text encodes byte for byte. */
  lemma {:induction false} Utf8Ascii(s: string)
    requires forall i :: 0 <= i < |s| ==> s[i] as int < 0x80
    ensures |Utf8(s)| == |s|
    ensures forall i :: 0 <= i < |s| ==> Utf8(s)[i] == s[i] as int
  {
    if s != [] {
      Utf8Ascii(s[1..]);
    }
  }
}
