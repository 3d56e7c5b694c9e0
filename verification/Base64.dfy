/** Unpadded base64url, section 5 of RFC 4648, as Go's `base64.RawURLEncoding`. */
module Base64 {
  import opened Basics

  newtype byte = x: int | 0 <= x < 256

  predicate InAlphabet(c: char) {
    'A' <= c <= 'Z' || 'a' <= c <= 'z' || '0' <= c <= '9' || c == '-' || c == '_'
  }

  predicate AllInAlphabet(s: string) {
    forall i :: 0 <= i < |s| ==> InAlphabet(s[i])
  }

  function Digit(n: int): (c: char)
    requires 0 <= n < 64
    ensures InAlphabet(c)
  {
    if n < 26 then ('A' as int + n) as char
    else if n < 52 then ('a' as int + n - 26) as char
    else if n < 62 then ('0' as int + n - 52) as char
    else if n == 62 then '-' else '_'
  }

  function Value(c: char): (n: int)
    requires InAlphabet(c)
    ensures 0 <= n < 64
  {
    if 'A' <= c <= 'Z' then c as int - 'A' as int
    else if 'a' <= c <= 'z' then c as int - 'a' as int + 26
    else if '0' <= c <= '9' then c as int - '0' as int + 52
    else if c == '-' then 62 else 63
  }

  lemma ValueDigit(n: int)
    requires 0 <= n < 64
    ensures Value(Digit(n)) == n
  {
  }

  /** The URL-safe alphabet in the order of the standard, by code point. */
  lemma DigitCodes(n: int)
    requires 0 <= n < 64
    ensures Digit(n) as int ==
              if n <= 25 then 65 + n else if n <= 51 then 97 + (n - 26) else if n <= 61 then 48 + (n - 52)
              else if n == 62 then 45 else 95
  {
  }

  // the four sextets of three bytes

  function S0(x: byte): (n: int) ensures 0 <= n < 64 { x as int / 4 }
  function S1(x: byte, y: byte): (n: int) ensures 0 <= n < 64 { x as int % 4 * 16 + y as int / 16 }
  function S2(y: byte, z: byte): (n: int) ensures 0 <= n < 64 { y as int % 16 * 4 + z as int / 64 }
  function S3(z: byte): (n: int) ensures 0 <= n < 64 { z as int % 64 }

  lemma Sextets(x: byte, y: byte, z: byte)
    ensures S0(x) * 4 + S1(x, y) / 16 == x as int
    ensures S1(x, y) % 16 * 16 + S2(y, z) / 4 == y as int
    ensures S2(y, z) % 4 * 64 + S3(z) == z as int
  {
  }

  function Encode(b: seq<byte>): (s: string)
    ensures AllInAlphabet(s)
    ensures |s| == (4 * |b| + 2) / 3
  {
    if |b| == 0 then ""
    else if |b| == 1 then [Digit(S0(b[0])), Digit(S1(b[0], 0))]
    else if |b| == 2 then [Digit(S0(b[0])), Digit(S1(b[0], b[1])), Digit(S2(b[1], 0))]
    else [Digit(S0(b[0])), Digit(S1(b[0], b[1])), Digit(S2(b[1], b[2])), Digit(S3(b[2]))] + Encode(b[3..])
  }

  /** The decoder skips line breaks. */
  function SkipBreaks(s: string): string {
    if s == "" then ""
    else (if s[0] in {'\r', '\n'} then "" else [s[0]]) + SkipBreaks(s[1..])
  }

  function DecodeQuanta(s: string): Option<seq<byte>> {
    if s == "" then Some([])
    else if |s| == 1 || !InAlphabet(s[0]) || !InAlphabet(s[1]) then None
    else
      var c0, c1 := Value(s[0]), Value(s[1]);
      var b0 := (c0 * 4 + c1 / 16) as byte;
      if |s| == 2 then Some([b0])
      else if !InAlphabet(s[2]) then None
      else
        var c2 := Value(s[2]);
        var b1 := (c1 % 16 * 16 + c2 / 4) as byte;
        if |s| == 3 then Some([b0, b1])
        else if !InAlphabet(s[3]) then None
        else
          var b2 := (c2 % 4 * 64 + Value(s[3])) as byte;
          var rest := DecodeQuanta(s[4..]);
          if rest.None? then None else Some([b0, b1, b2] + rest.value)
  }

  function Decode(s: string): Option<seq<byte>> {
    DecodeQuanta(SkipBreaks(s))
  }

  lemma {:induction false} NoBreaks(s: string)
    requires AllInAlphabet(s)
    ensures SkipBreaks(s) == s
  {
    if s != "" {
      NoBreaks(s[1..]);
    }
  }

  lemma {:induction false} FullQuantum(x: byte, y: byte, z: byte, rest: string, tail: seq<byte>)
    requires DecodeQuanta(rest) == Some(tail)
    ensures DecodeQuanta([Digit(S0(x)), Digit(S1(x, y)), Digit(S2(y, z)), Digit(S3(z))] + rest) == Some([x, y,
        z] + tail)
  {
    hide Digit, Value, S0, S1, S2, S3;
    var s := [Digit(S0(x)), Digit(S1(x, y)), Digit(S2(y, z)), Digit(S3(z))] + rest;
    ValueDigit(S0(x));
    ValueDigit(S1(x, y));
    ValueDigit(S2(y, z));
    ValueDigit(S3(z));
    Sextets(x, y, z);
    assert s[4..] == rest;
  }

  lemma {:induction false} LastQuantum(b: seq<byte>)
    requires 1 <= |b| <= 2
    ensures DecodeQuanta(Encode(b)) == Some(b)
  {
    hide Digit, Value, S0, S1, S2, S3;
    var x, y := b[0], if |b| > 1 then b[1] else 0;
    ValueDigit(S0(x));
    ValueDigit(S1(x, y));
    ValueDigit(S2(y, 0));
    Sextets(x, y, 0);
    assert DecodeQuanta(Encode(b)).value == b;
  }

  lemma {:induction false} DecodeEncodeQuanta(b: seq<byte>)
    ensures DecodeQuanta(Encode(b)) == Some(b)
  {
    if |b| >= 3 {
      hide Digit, Value, S0, S1, S2, S3, DecodeQuanta;
      DecodeEncodeQuanta(b[3..]);
      assert b == [b[0], b[1], b[2]] + b[3..];
      FullQuantum(b[0], b[1], b[2], Encode(b[3..]), b[3..]);
    } else if b != [] {
      LastQuantum(b);
    }
  }

  /** Decoding undoes encoding, for every byte string. */
  lemma DecodeEncode(b: seq<byte>)
    ensures Decode(Encode(b)) == Some(b)
  {
    NoBreaks(Encode(b));
    DecodeEncodeQuanta(b);
  }

  /** Known texts: the bytes of "Man", "Ma" and "M", and the two digits that differ from plain base64. */
  lemma {:induction false} KnownTexts()
    ensures Encode([77, 97, 110]) == "TWFu" && Encode([77, 97]) == "TWE" && Encode([77]) == "TQ"
    ensures Encode([255, 239]) == "_-8"
  {
    assert S0(77) == 19 && S1(77, 97) == 22 && S2(97, 110) == 5 && S3(110) == 46 && S2(97, 0) == 4 && S1(77, 0) == 16;
    assert S0(255) == 63 && S1(255, 239) == 62 && S2(239, 0) == 60;
    hide S0, S1, S2, S3;
    var man: seq<byte> := [77, 97, 110];
    assert man[3..] == [] && Encode([]) == "";
    assert Encode(man) == [Digit(19), Digit(22), Digit(5), Digit(46)] + "";
  }
}
