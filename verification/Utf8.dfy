/** UTF-8 as RFC 3629 defines it, decoding with replacement as the Unicode Standard, section 3.9,
  * recommends: one U+FFFD for each maximal subpart of an ill-formed sequence. */
module Utf8 {

  type byte = b: int | 0 <= b < 256

  const REPLACEMENT: char := '\U{FFFD}'

  function EncodeChar(c: char): (bytes: seq<byte>)
    ensures 1 <= |bytes| <= 4
  {
    var n := c as int;
    if n < 0x80 then [n]
    else if n < 0x800 then [0xC0 + n / 64, 0x80 + n % 64]
    else if n < 0x10000 then [0xE0 + n / 4096, 0x80 + n / 64 % 64, 0x80 + n % 64]
    else [0xF0 + n / 262144, 0x80 + n / 4096 % 64, 0x80 + n / 64 % 64, 0x80 + n % 64]
  }

  function Encode(s: string): seq<byte> {
    if s == "" then [] else EncodeChar(s[0]) + Encode(s[1..])
  }

  predicate Continues(b: byte) {
    0x80 <= b < 0xC0
  }

  /** How many bytes may follow a lead byte; none for a byte that cannot lead. */
  function Followers(lead: byte): (n: nat)
    ensures n <= 3
  {
    if 0xC2 <= lead <= 0xDF then 1
    else if 0xE0 <= lead <= 0xEF then 2
    else if 0xF0 <= lead <= 0xF4 then 3
    else 0
  }

  /** The second byte excludes overlong forms, surrogates and values above U+10FFFF. */
  predicate SecondFits(lead: byte, second: byte) {
    && Continues(second)
    && (lead == 0xE0 ==> 0xA0 <= second)
    && (lead == 0xED ==> second < 0xA0)
    && (lead == 0xF0 ==> 0x90 <= second)
    && (lead == 0xF4 ==> second < 0x90)
  }

  /** The code point of a well-formed sequence, from its lead byte and its followers. */
  function CodePoint(bytes: seq<byte>): (n: int)
    requires 2 <= |bytes| <= 4 && |bytes| == Followers(bytes[0]) + 1
    requires SecondFits(bytes[0], bytes[1])
    requires forall i :: 1 <= i < |bytes| ==> Continues(bytes[i])
    ensures 0 <= n < 0xD800 || 0xE000 <= n < 0x110000
  {
    var lead: int, second: int := bytes[0], bytes[1];
    if |bytes| == 2 then (lead - 0xC0) * 64 + (second - 0x80)
    else
      var third: int := bytes[2];
      assert Continues(bytes[1]) && Continues(bytes[2]);
      assert lead <= 0xEC || (lead == 0xED && second < 0xA0) || 0xEE <= lead;
      if |bytes| == 3 then (lead - 0xE0) * 4096 + (second - 0x80) * 64 + (third - 0x80)
      else
        var fourth: int := bytes[3];
        assert Continues(bytes[3]);
        assert (lead == 0xF0 && 0x90 <= second) || 0xF1 <= lead <= 0xF3 || (lead == 0xF4 && second < 0x90);
        (lead - 0xF0) * 262144 + (second - 0x80) * 4096 + (third - 0x80) * 64 + (fourth - 0x80)
  }

  /** The first character that decoding yields, and how many bytes it takes. */
  function DecodeHead(bytes: seq<byte>): (head: (char, nat))
    requires bytes != []
    ensures 1 <= head.1 <= |bytes|
  {
    var more := Followers(bytes[0]);
    if bytes[0] < 0x80 then (bytes[0] as char, 1)
    else if more == 0 || |bytes| < 2 || !SecondFits(bytes[0], bytes[1]) then (REPLACEMENT, 1)
    else if more == 1 then (CodePoint(bytes[..2]) as char, 2)
    else if |bytes| < 3 || !Continues(bytes[2]) then (REPLACEMENT, 2)
    else if more == 2 then (CodePoint(bytes[..3]) as char, 3)
    else if |bytes| < 4 || !Continues(bytes[3]) then (REPLACEMENT, 3)
    else (CodePoint(bytes[..4]) as char, 4)
  }

  /** `bytes.decode(errors="replace")`. */
  function Decode(bytes: seq<byte>): string {
    if bytes == [] then ""
    else
      var (c, n) := DecodeHead(bytes);
      [c] + Decode(bytes[n..])
  }

  lemma DecodeNothing()
    ensures Decode([]) == "" && Encode("") == []
  {
  }

  lemma HeadOfEncoded(c: char, rest: seq<byte>)
    ensures DecodeHead(EncodeChar(c) + rest) == (c, |EncodeChar(c)|)
  {
    var n := c as int;
    var bytes := EncodeChar(c);
    assert (bytes + rest)[..|bytes|] == bytes;
    assert (bytes + rest)[0] == bytes[0];
    if n >= 0x80 {
      CodePointOfEncoded(c);
      assert (bytes + rest)[1] == bytes[1];
      assert |bytes| > 2 ==> (bytes + rest)[2] == bytes[2];
      assert |bytes| > 3 ==> (bytes + rest)[3] == bytes[3];
    }
  }

  /** Every character beyond ASCII is a well-formed sequence for its own code point. */
  lemma CodePointOfEncoded(c: char)
    requires c as int >= 0x80
    ensures var bytes := EncodeChar(c);
      && |bytes| == Followers(bytes[0]) + 1 && SecondFits(bytes[0], bytes[1])
      && (forall i :: 1 <= i < |bytes| ==> Continues(bytes[i]))
      && CodePoint(bytes) == c as int
  {
    var n := c as int;
    assert n < 0xD800 || 0xE000 <= n < 0x110000;
    if 0x800 <= n < 0x10000 {
      ThreeDigits(n);
    } else if 0x10000 <= n {
      FourDigits(n);
    }
  }

  lemma ThreeDigits(n: nat)
    requires n < 0x10000
    ensures n == n / 4096 * 4096 + n / 64 % 64 * 64 + n % 64
    ensures n / 4096 == 0 ==> n / 64 % 64 == n / 64
    ensures n / 4096 == 13 ==> (n < 0xD800 <==> n / 64 % 64 < 32)
  {
    assert n / 4096 == n / 64 / 64;
  }

  lemma FourDigits(n: nat)
    requires 0x10000 <= n < 0x110000
    ensures n == n / 262144 * 262144 + n / 4096 % 64 * 4096 + n / 64 % 64 * 64 + n % 64
    ensures n / 262144 <= 4
    ensures n / 262144 == 0 ==> 16 <= n / 4096 % 64
    ensures n / 262144 == 4 ==> n / 4096 % 64 < 16
  {
    assert n / 4096 == n / 64 / 64 && n / 262144 == n / 4096 / 64;
  }

  lemma Digits64(high: nat, middle: nat, low: nat)
    requires middle < 64 && low < 64
    ensures var n := high * 4096 + middle * 64 + low;
      n / 4096 == high && n / 64 % 64 == middle && n % 64 == low && n / 64 == high * 64 + middle
  {
    var n := high * 4096 + middle * 64 + low;
    assert n / 64 == high * 64 + middle;
  }

  lemma EncodedTwo(a: int, b: int, c: char)
    requires 2 <= a < 32 && 0 <= b < 64 && c as int == a * 64 + b
    ensures EncodeChar(c) == [0xC0 + a, 0x80 + b]
  {
  }

  lemma EncodedThree(a: int, b: int, d: int, c: char)
    requires 0 <= a < 16 && 0 <= b < 64 && 0 <= d < 64 && c as int == a * 4096 + b * 64 + d && c as int >= 0x800
    ensures EncodeChar(c) == [0xE0 + a, 0x80 + b, 0x80 + d]
  {
    Digits64(a, b, d);
  }

  lemma EncodedFour(a: int, b: int, d: int, e: int, c: char)
    requires 0 <= a <= 4 && 0 <= b < 64 && 0 <= d < 64 && 0 <= e < 64
    requires c as int == a * 262144 + b * 4096 + d * 64 + e && c as int >= 0x10000
    ensures EncodeChar(c) == [0xF0 + a, 0x80 + b, 0x80 + d, 0x80 + e]
  {
    var high := a * 64 + b;
    Digits64(high, d, e);
    assert high / 64 == a && high % 64 == b;
    assert c as int / 262144 == c as int / 4096 / 64;
  }

  /** A well-formed sequence is the only one for its code point: no overlong form is decoded. */
  lemma EncodedCodePoint(bytes: seq<byte>)
    requires 2 <= |bytes| <= 4 && |bytes| == Followers(bytes[0]) + 1 && SecondFits(bytes[0], bytes[1])
    requires forall i :: 1 <= i < |bytes| ==> Continues(bytes[i])
    ensures EncodeChar(CodePoint(bytes) as char) == bytes
  {
    var lead: int, second: int := bytes[0], bytes[1];
    var c := CodePoint(bytes) as char;
    hide EncodeChar;
    assert Continues(bytes[1]);
    if |bytes| == 2 {
      EncodedTwo(lead - 0xC0, second - 0x80, c);
    } else {
      var third: int := bytes[2];
      assert Continues(bytes[2]);
      if |bytes| == 3 {
        EncodedThree(lead - 0xE0, second - 0x80, third - 0x80, c);
      } else {
        var fourth: int := bytes[3];
        assert Continues(bytes[3]);
        EncodedFour(lead - 0xF0, second - 0x80, third - 0x80, fourth - 0x80, c);
      }
    }
  }

  /** Whatever the bytes are: a character other than U+FFFD that decoding yields was encoded there. */
  lemma DecodesOnlyEncodings(bytes: seq<byte>)
    requires bytes != []
    ensures var (c, n) := DecodeHead(bytes);
      c == REPLACEMENT || EncodeChar(c) == bytes[..n]
  {
    hide EncodeChar, CodePoint;
    var (c, n) := DecodeHead(bytes);
    if bytes[0] < 0x80 {
      OneByte(bytes[0]);
      assert bytes[..1] == [bytes[0]];
    } else if c != REPLACEMENT {
      EncodedCodePoint(bytes[..n]);
    }
  }

  lemma OneByte(b: byte)
    requires b < 0x80
    ensures EncodeChar(b as char) == [b]
  {
  }

  /** A character cut short decodes to one replacement for all of its bytes. */
  lemma HeadOfCut(c: char, k: nat)
    requires 0 < k < |EncodeChar(c)|
    ensures DecodeHead(EncodeChar(c)[..k]) == (REPLACEMENT, k)
  {
    LongIsNotAscii(c);
    CodePointOfEncoded(c);
    hide EncodeChar;
    var bytes := EncodeChar(c);
    var cut := bytes[..k];
    assert cut[0] == bytes[0];
    assert k > 1 ==> cut[1] == bytes[1];
    assert k > 2 ==> cut[2] == bytes[2];
  }

  lemma LongIsNotAscii(c: char)
    requires |EncodeChar(c)| > 1
    ensures c as int >= 0x80 && EncodeChar(c)[0] >= 0x80
  {
  }

  lemma DecodeStep(c: char, rest: seq<byte>)
    ensures Decode(EncodeChar(c) + rest) == [c] + Decode(rest)
  {
    HeadOfEncoded(c, rest);
    assert (EncodeChar(c) + rest)[|EncodeChar(c)|..] == rest;
  }

  lemma DecodeCut(c: char, k: nat)
    requires 0 < k < |EncodeChar(c)|
    ensures Decode(EncodeChar(c)[..k]) == [REPLACEMENT]
  {
    HeadOfCut(c, k);
    assert EncodeChar(c)[..k][k..] == [];
  }

  /** Encoded text in front of any bytes decodes to itself. */
  lemma {:induction false} DecodeAfterText(s: string, rest: seq<byte>)
    ensures Decode(Encode(s) + rest) == s + Decode(rest)
  {
    hide Decode, DecodeHead, CodePoint, EncodeChar;
    if s == "" {
      assert Encode(s) + rest == rest && s + Decode(rest) == Decode(rest);
    } else {
      var head := EncodeChar(s[0]);
      var tail := Encode(s[1..]) + rest;
      assert Encode(s) + rest == head + tail;
      DecodeStep(s[0], tail);
      DecodeAfterText(s[1..], rest);
      assert [s[0]] + (s[1..] + Decode(rest)) == s + Decode(rest);
    }
  }

  lemma RoundTrip(s: string)
    ensures Decode(Encode(s)) == s
  {
    hide DecodeHead, CodePoint, EncodeChar;
    DecodeAfterText(s, []);
    assert Encode(s) + [] == Encode(s) && s + "" == s;
  }

  lemma {:induction false} EncodeConcat(s: string, t: string)
    ensures Encode(s + t) == Encode(s) + Encode(t)
  {
    hide EncodeChar;
    if s == "" {
      assert s + t == t;
    } else {
      assert (s + t)[1..] == s[1..] + t;
      EncodeConcat(s[1..], t);
    }
  }

  // ---------------------------------------------------------------- truncation

  function Min(a: nat, b: nat): nat {
    if a < b then a else b
  }

  function Take<T>(s: seq<T>, n: nat): seq<T> {
    s[..Min(n, |s|)]
  }

  /** The largest number of leading characters whose encoding fits in a number of bytes. */
  function CharsWithin(s: string, room: nat): (k: nat)
    ensures k <= |s|
  {
    if s == "" || |EncodeChar(s[0])| > room then 0
    else 1 + CharsWithin(s[1..], room - |EncodeChar(s[0])|)
  }

  lemma {:induction false} CharsWithinFits(s: string, room: nat)
    ensures var k := CharsWithin(s, room);
      |Encode(s[..k])| <= room && (k < |s| ==> room < |Encode(s[..k + 1])|)
  {
    hide EncodeChar;
    var k := CharsWithin(s, room);
    if k == 0 {
      assert s[..0] == "";
      if s != "" {
        assert s[..1] == [s[0]] && s[..1][1..] == "";
      }
    } else {
      CharsWithinFits(s[1..], room - |EncodeChar(s[0])|);
      assert s[..k][1..] == s[1..][..k - 1];
      if k < |s| {
        assert s[..k + 1][1..] == s[1..][..k];
      }
    }
  }

  /** The remains of a character that the cut falls inside: one replacement character, or nothing. */
  function CutMark(s: string, room: nat): (mark: string)
    ensures |mark| <= 1
  {
    if |Encode(s[..CharsWithin(s, room)])| < Min(room, |Encode(s)|) then [REPLACEMENT] else ""
  }

  /** Cutting encoded text anywhere and decoding gives the characters that fit whole, and one
    * replacement exactly when the cut falls inside a character. */
  lemma {:induction false} TruncatedDecode(s: string, room: nat)
    ensures Decode(Take(Encode(s), room)) == s[..CharsWithin(s, room)] + CutMark(s, room)
  {
    hide DecodeHead, CodePoint, EncodeChar;
    var bytes := Take(Encode(s), room);
    if s == "" {
      assert bytes == [];
    } else {
      var head := EncodeChar(s[0]);
      if |head| > room {
        assert s[..0] == "";
        if room > 0 {
          assert bytes == head[..room];
          DecodeCut(s[0], room);
        }
      } else {
        var rest := Take(Encode(s[1..]), room - |head|);
        assert bytes == head + rest;
        DecodeStep(s[0], rest);
        TruncatedDecode(s[1..], room - |head|);
        var k := CharsWithin(s[1..], room - |head|);
        assert s[..k + 1] == [s[0]] + s[1..][..k];
        assert s[..k + 1][1..] == s[1..][..k];
      }
    }
  }

  lemma ReplacementSize()
    ensures |Encode([REPLACEMENT])| == 3
  {
    assert [REPLACEMENT][1..] == "";
  }

  /** A cut costs at most two extra bytes when the text is encoded again. */
  lemma TruncatedSize(s: string, room: nat)
    ensures |Encode(s[..CharsWithin(s, room)] + CutMark(s, room))| <= Min(room, |Encode(s)|) + 2
    ensures CutMark(s, room) != "" ==> room < |Encode(s)|
    ensures |Encode(s)| <= room ==> CharsWithin(s, room) == |s|
  {
    hide Decode, DecodeHead, CodePoint, EncodeChar;
    var kept := s[..CharsWithin(s, room)];
    CharsWithinFits(s, room);
    EncodeConcat(kept, CutMark(s, room));
    assert s == kept + s[CharsWithin(s, room)..];
    EncodeConcat(kept, s[CharsWithin(s, room)..]);
    ReplacementSize();
    if CharsWithin(s, room) < |s| {
      var more := s[..CharsWithin(s, room) + 1];
      assert s == more + s[CharsWithin(s, room) + 1..];
      EncodeConcat(more, s[CharsWithin(s, room) + 1..]);
    }
  }
}
