/** Base64 in the standard alphabet of section 4 of RFC 4648, with `=`
    padding, as Go's `base64.StdEncoding` implements it: encoding always
    pads to a multiple of four characters; decoding skips carriage returns
    and line feeds, demands a multiple of four remaining characters,
    accepts `=` only as the final "xx==" or "xxx=" quantum, and (not being
    in strict mode) ignores the unused low bits of a padded quantum. */
module Base64 {
  import opened Wrappers
  import opened GoInts
  import opened Arith

  /** A 6-bit value, the index of one character of the alphabet. */
  type index = x: int | 0 <= x < 64

  const Pad: char := '='

  /** The alphabet of Table 1 of RFC 4648: A-Z, a-z, 0-9, '+', '/'. */
  function CharOf(v: index): (c: char)
    ensures c != Pad && c != '\r' && c != '\n'
  {
    if v < 26 then ('A' as int + v) as char
    else if v < 52 then ('a' as int + (v - 26)) as char
    else if v < 62 then ('0' as int + (v - 52)) as char
    else if v == 62 then '+'
    else '/'
  }

  predicate IsAlphabetChar(c: char) {
    ('A' <= c <= 'Z') || ('a' <= c <= 'z') || ('0' <= c <= '9') || c == '+' || c == '/'
  }

  /** The inverse of `CharOf` on the alphabet. */
  function ValueOf(c: char): (v: index)
    requires IsAlphabetChar(c)
    ensures CharOf(v) == c
  {
    if 'A' <= c <= 'Z' then c as int - 'A' as int
    else if 'a' <= c <= 'z' then c as int - 'a' as int + 26
    else if '0' <= c <= '9' then c as int - '0' as int + 52
    else if c == '+' then 62
    else 63
  }

  lemma ValueOfCharOf(v: index)
    ensures IsAlphabetChar(CharOf(v)) && ValueOf(CharOf(v)) == v
  {
  }

  /** Characters of the four-character group for three whole bytes. */
  function EncodeQuantum(b0: byte, b1: byte, b2: byte): (quad: string) {
    [CharOf(b0 / 4), CharOf((b0 % 4) * 16 + b1 / 16), CharOf((b1 % 16) * 4 + b2 / 64), CharOf(b2 % 64)]
  }

  /** `base64.StdEncoding.EncodeToString`. */
  function Encode(b: seq<byte>): (s: string)
    ensures |s| == 4 * ((|b| + 2) / 3)
    ensures forall i :: 0 <= i < |s| ==> s[i] != '\r' && s[i] != '\n'
    decreases |b|
  {
    if |b| == 0 then []
    else if |b| == 1 then [CharOf(b[0] / 4), CharOf((b[0] % 4) * 16), Pad, Pad]
    else if |b| == 2 then [CharOf(b[0] / 4), CharOf((b[0] % 4) * 16 + b[1] / 16), CharOf((b[1] % 16) * 4), Pad]
    else EncodeQuantum(b[0], b[1], b[2]) + Encode(b[3..])
  }

  /** The input with every '\r' and '\n' removed, which Go's decoder skips. */
  function StripNewlines(s: string): (t: string)
    ensures |t| <= |s|
    ensures forall i :: 0 <= i < |t| ==> t[i] != '\r' && t[i] != '\n'
  {
    if |s| == 0 then []
    else if s[0] == '\r' || s[0] == '\n' then StripNewlines(s[1..])
    else [s[0]] + StripNewlines(s[1..])
  }

  /** Bytes of one four-character group; only the last group may be padded. */
  function DecodeQuantum(q: string, last: bool): (bytes: Option<seq<byte>>)
    requires |q| == 4
  {
    if !IsAlphabetChar(q[0]) || !IsAlphabetChar(q[1]) then None
    else
      var c0, c1 := ValueOf(q[0]), ValueOf(q[1]);
      var b0 := c0 * 4 + c1 / 16;
      if last && q[2] == Pad && q[3] == Pad then Some([b0])
      else if !IsAlphabetChar(q[2]) then None
      else
        var c2 := ValueOf(q[2]);
        var b1 := (c1 % 16) * 16 + c2 / 4;
        if last && q[3] == Pad then Some([b0, b1])
        else if !IsAlphabetChar(q[3]) then None
        else
          var c3 := ValueOf(q[3]);
          Some([b0, b1, (c2 % 4) * 64 + c3])
  }

  /** Decoding of input that holds no line breaks. */
  function DecodeStripped(s: string): (decoded: Option<seq<byte>>)
    decreases |s|
  {
    if |s| == 0 then Some([])
    else if |s| < 4 then None
    else if |s| == 4 then DecodeQuantum(s, true)
    else
      match DecodeQuantum(s[..4], false)
      case None => None
      case Some(head) =>
        match DecodeStripped(s[4..])
        case None => None
        case Some(tail) => Some(head + tail)
  }

  /** `base64.StdEncoding.DecodeString`: `None` is a non-nil error. */
  function Decode(s: string): (decoded: Option<seq<byte>>) {
    DecodeStripped(StripNewlines(s))
  }

  lemma {:induction false} StripNewlinesIdentity(s: string)
    requires forall i :: 0 <= i < |s| ==> s[i] != '\r' && s[i] != '\n'
    ensures StripNewlines(s) == s
    decreases |s|
  {
    if |s| > 0 {
      StripNewlinesIdentity(s[1..]);
      assert [s[0]] + s[1..] == s;
    }
  }

  /** The 6-bit groups of three bytes put back together give the bytes. */
  lemma QuantumArithmetic(b0: byte, b1: byte, b2: byte)
    ensures var v0, v1, v2, v3 := b0 / 4, (b0 % 4) * 16 + b1 / 16, (b1 % 16) * 4 + b2 / 64, b2 % 64;
      && b0 == v0 * 4 + v1 / 16
      && b1 == (v1 % 16) * 16 + v2 / 4
      && b2 == (v2 % 4) * 64 + v3
  {
    DivModUnique((b0 % 4) * 16 + b1 / 16, 16, b0 % 4, b1 / 16);
    DivModUnique((b1 % 16) * 4 + b2 / 64, 4, b1 % 16, b2 / 64);
  }

  lemma QuantumRoundTrip(b0: byte, b1: byte, b2: byte, last: bool)
    ensures DecodeQuantum(EncodeQuantum(b0, b1, b2), last) == Some([b0, b1, b2])
  {
    var v0, v1, v2, v3 := b0 / 4, (b0 % 4) * 16 + b1 / 16, (b1 % 16) * 4 + b2 / 64, b2 % 64;
    ValueOfCharOf(v0);
    ValueOfCharOf(v1);
    ValueOfCharOf(v2);
    ValueOfCharOf(v3);
    QuantumArithmetic(b0, b1, b2);
  }

  lemma OneByteRoundTrip(b0: byte)
    ensures DecodeStripped(Encode([b0])) == Some([b0])
  {
    ValueOfCharOf(b0 / 4);
    ValueOfCharOf((b0 % 4) * 16);
    var s := Encode([b0]);
    assert s == [CharOf(b0 / 4), CharOf((b0 % 4) * 16), Pad, Pad];
  }

  lemma TwoBytesRoundTrip(b0: byte, b1: byte)
    ensures DecodeStripped(Encode([b0, b1])) == Some([b0, b1])
  {
    ValueOfCharOf(b0 / 4);
    ValueOfCharOf((b0 % 4) * 16 + b1 / 16);
    ValueOfCharOf((b1 % 16) * 4);
    var s := Encode([b0, b1]);
    assert s == [CharOf(b0 / 4), CharOf((b0 % 4) * 16 + b1 / 16), CharOf((b1 % 16) * 4), Pad];
  }

  lemma DecodeStrippedAppend(q: string, rest: string, head: seq<byte>, tail: seq<byte>)
    requires |q| == 4 && |rest| > 0
    requires DecodeQuantum(q, false) == Some(head)
    requires DecodeStripped(rest) == Some(tail)
    ensures DecodeStripped(q + rest) == Some(head + tail)
  {
    var s := q + rest;
    assert s[..4] == q;
    assert s[4..] == rest;
  }

  lemma EncodeUnfold(b: seq<byte>)
    requires |b| >= 3
    ensures Encode(b) == EncodeQuantum(b[0], b[1], b[2]) + Encode(b[3..])
  {
  }

  lemma ThreeBytesRoundTrip(b: seq<byte>)
    requires |b| == 3
    ensures DecodeStripped(Encode(b)) == Some(b)
  {
    var q := EncodeQuantum(b[0], b[1], b[2]);
    EncodeUnfold(b);
    assert Encode(b[3..]) == [];
    assert Encode(b) == q;
    QuantumRoundTrip(b[0], b[1], b[2], true);
    assert DecodeStripped(q) == DecodeQuantum(q, true);
    assert [b[0], b[1], b[2]] == b;
  }

  lemma SplitHead(b: seq<byte>)
    requires |b| >= 3
    ensures [b[0], b[1], b[2]] + b[3..] == b
  {
    assert [b[0], b[1], b[2]] == b[..3];
    assert b[..3] + b[3..] == b;
  }

  lemma LongRoundTrip(b: seq<byte>)
    requires |b| > 3
    requires DecodeStripped(Encode(b[3..])) == Some(b[3..])
    ensures DecodeStripped(Encode(b)) == Some(b)
  {
    var rest := b[3..];
    var q := EncodeQuantum(b[0], b[1], b[2]);
    SplitHead(b);
    EncodeUnfold(b);
    QuantumRoundTrip(b[0], b[1], b[2], false);
    DecodeStrippedAppend(q, Encode(rest), [b[0], b[1], b[2]], rest);
  }

  lemma {:induction false} DecodeStrippedEncode(b: seq<byte>)
    ensures DecodeStripped(Encode(b)) == Some(b)
    decreases |b|
  {
    if |b| == 1 {
      OneByteRoundTrip(b[0]);
      assert [b[0]] == b;
    } else if |b| == 2 {
      TwoBytesRoundTrip(b[0], b[1]);
      assert [b[0], b[1]] == b;
    } else if |b| == 3 {
      ThreeBytesRoundTrip(b);
    } else if |b| > 3 {
      DecodeStrippedEncode(b[3..]);
      LongRoundTrip(b);
    }
  }

  /** Decoding what was encoded yields the original bytes. */
  lemma RoundTrip(b: seq<byte>)
    ensures Decode(Encode(b)) == Some(b)
  {
    StripNewlinesIdentity(Encode(b));
    DecodeStrippedEncode(b);
  }

  lemma {:induction false} DecodeStrippedLength(s: string)
    requires |s| % 4 != 0
    ensures DecodeStripped(s) == None
    decreases |s|
  {
    if |s| > 4 {
      DecodeStrippedLength(s[4..]);
    }
  }

  /** Input whose length, not counting line breaks, is not a multiple of
      four is always rejected. */
  lemma DecodeRejectsPartialQuantum(s: string)
    requires |StripNewlines(s)| % 4 != 0
    ensures Decode(s) == None
  {
    DecodeStrippedLength(StripNewlines(s));
  }

  /** Decoding succeeds only on text that is alphabet characters and padding,
      and it produces three bytes for each four characters, fewer for a padded end. */
  lemma {:induction false} DecodeStrippedShape(s: string)
    requires DecodeStripped(s).Some?
    ensures |s| % 4 == 0
    ensures forall i :: 0 <= i < |s| ==> IsAlphabetChar(s[i]) || s[i] == Pad
    ensures |s| / 4 * 3 - 2 <= |DecodeStripped(s).value| <= |s| / 4 * 3
    decreases |s|
  {
    if |s| > 4 {
      DecodeStrippedShape(s[4..]);
      forall i | 0 <= i < |s|
        ensures IsAlphabetChar(s[i]) || s[i] == Pad
      {
        if i >= 4 {
          assert s[i] == s[4..][i - 4];
        } else {
          assert s[i] == s[..4][i];
        }
      }
    }
  }
}
