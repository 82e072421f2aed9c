/** Reading a file through the Kubernetes runtime: the pod prints base64, the output cap applies to
  * the printed text, and the host strips and decodes it. */
module Base64Read {
  import opened Strings
  import opened Utf8
  import opened OutputBudget

  /** The alphabet of RFC 4648, section 4. */
  function Letter(sextet: nat): char
    requires sextet < 64
  {
    if sextet < 26 then 'A' + sextet as char
    else if sextet < 52 then 'a' + (sextet - 26) as char
    else if sextet < 62 then '0' + (sextet - 52) as char
    else if sextet == 62 then '+'
    else '/'
  }

  /** The value of a letter; 64 for a character outside the alphabet. */
  function Sextet(c: char): (n: nat)
    ensures n <= 64
  {
    if 'A' <= c <= 'Z' then c as int - 'A' as int
    else if 'a' <= c <= 'z' then c as int - 'a' as int + 26
    else if '0' <= c <= '9' then c as int - '0' as int + 52
    else if c == '+' then 62
    else if c == '/' then 63
    else 64
  }

  function EncodeGroup(a: byte, b: byte, c: byte): (group: string)
    ensures |group| == 4
  {
    [Letter(a / 4), Letter(a % 4 * 16 + b / 16), Letter(b % 16 * 4 + c / 64), Letter(c % 64)]
  }

  /** The last one or two bytes, padded to a group. */
  function PaddedGroup(rest: seq<byte>): (group: string)
    requires 1 <= |rest| <= 2
    ensures |group| == 4
  {
    if |rest| == 1 then EncodeGroup(rest[0], 0, 0)[..2] + "==" else EncodeGroup(rest[0], rest[1], 0)[..3] + "="
  }

  /** `4 * ceil(n / 3)`. */
  function EncodedLength(n: nat): nat {
    4 * ((n + 2) / 3)
  }

  /** `base64.b64encode`. */
  function B64Encode(content: seq<byte>): (text: string)
    ensures |text| == EncodedLength(|content|)
  {
    if content == [] then ""
    else if |content| < 3 then PaddedGroup(content)
    else EncodeGroup(content[0], content[1], content[2]) + B64Encode(content[3..])
  }

  /** One group of four characters; padding is allowed in the last group only. */
  function DecodeGroup(group: string, last: bool): Option<seq<byte>>
    requires |group| == 4
  {
    var p, q, r, s := Sextet(group[0]), Sextet(group[1]), Sextet(group[2]), Sextet(group[3]);
    if p == 64 || q == 64 then None
    else if r < 64 && s < 64 then Some([p * 4 + q / 16, q % 16 * 16 + r / 4, r % 4 * 64 + s])
    else if last && r < 64 && group[3] == '=' then Some([p * 4 + q / 16, q % 16 * 16 + r / 4])
    else if last && group[2] == '=' && group[3] == '=' then Some([p * 4 + q / 16])
    else None
  }

  /** `base64.b64decode(text, validate=True)`: None stands for binascii.Error. */
  function B64Decode(text: string): Option<seq<byte>> {
    if text == "" then Some([])
    else if |text| < 4 then None
    else
      match (DecodeGroup(text[..4], |text| == 4), B64Decode(text[4..]))
      case (Some(head), Some(tail)) => Some(head + tail)
      case _ => None
  }

  /** The ASCII part of what `str.strip` removes. */
  predicate Space(c: char) {
    c == ' ' || c == '\n' || c == '\t' || c == '\r' || c as int == 11 || c as int == 12
  }

  /** `read_file`, once the reading command has succeeded: the printed text, whatever else the
    * command wrote to stderr, under the cap. */
  function ReadFile(content: seq<byte>, stderr: string, limit: nat): Option<seq<byte>> {
    B64Decode(Strip(BoundedOutputs(B64Encode(content) + "\n", stderr, limit).0, Space))
  }

  predicate Printable(c: char) {
    Sextet(c) < 64 || c == '='
  }

  ghost predicate AllPrintable(text: string) {
    forall i :: 0 <= i < |text| ==> Printable(text[i])
  }

  lemma GroupPrintable(a: byte, b: byte, c: byte)
    ensures AllPrintable(EncodeGroup(a, b, c))
  {
    SextetOfLetter(a / 4);
    SextetOfLetter(a % 4 * 16 + b / 16);
    SextetOfLetter(b % 16 * 4 + c / 64);
    SextetOfLetter(c % 64);
  }

  lemma {:induction false} EncodedPrintable(content: seq<byte>)
    ensures AllPrintable(B64Encode(content))
  {
    hide EncodeGroup, Letter, Sextet;
    if |content| >= 3 {
      GroupPrintable(content[0], content[1], content[2]);
      EncodedPrintable(content[3..]);
    } else if content != [] {
      GroupPrintable(content[0], if |content| == 1 then 0 else content[1], 0);
    }
  }

  lemma SextetOfLetter(n: nat)
    requires n < 64
    ensures Sextet(Letter(n)) == n
  {
  }

  /** Cutting three bytes into sextets and putting them together again. */
  lemma SextetsRecombine(a: byte, b: byte, c: byte)
    ensures var q, r := a % 4 * 16 + b / 16, b % 16 * 4 + c / 64;
      a / 4 * 4 + q / 16 == a && q % 16 * 16 + r / 4 == b && r % 4 * 64 + c % 64 == c
  {
    var q, r := a % 4 * 16 + b / 16, b % 16 * 4 + c / 64;
    assert q / 16 == a % 4 && q % 16 == b / 16;
    assert r / 4 == b % 16 && r % 4 == c / 64;
  }

  lemma GroupRoundTrip(a: byte, b: byte, c: byte, last: bool)
    ensures DecodeGroup(EncodeGroup(a, b, c), last) == Some([a, b, c])
  {
    hide Letter, Sextet;
    SextetOfLetter(a / 4);
    SextetOfLetter(a % 4 * 16 + b / 16);
    SextetOfLetter(b % 16 * 4 + c / 64);
    SextetOfLetter(c % 64);
    SextetsRecombine(a, b, c);
  }

  lemma PaddedRoundTrip(rest: seq<byte>)
    requires 1 <= |rest| <= 2
    ensures DecodeGroup(PaddedGroup(rest), true) == Some(rest)
  {
    hide Letter, Sextet;
    var a := rest[0];
    SextetOfLetter(a / 4);
    PadIsNoLetter();
    if |rest| == 1 {
      SextetOfLetter(a % 4 * 16);
      assert rest == [a];
    } else {
      var b := rest[1];
      SextetOfLetter(a % 4 * 16 + b / 16);
      SextetOfLetter(b % 16 * 4);
      assert rest == [a, b];
    }
  }

  lemma PadIsNoLetter()
    ensures Sextet('=') == 64
  {
  }

  lemma {:induction false} Base64RoundTrip(content: seq<byte>)
    ensures B64Decode(B64Encode(content)) == Some(content)
  {
    hide DecodeGroup, EncodeGroup, PaddedGroup;
    var text := B64Encode(content);
    if |content| >= 3 {
      var (a, b, c) := (content[0], content[1], content[2]);
      assert text[..4] == EncodeGroup(a, b, c) && text[4..] == B64Encode(content[3..]);
      GroupRoundTrip(a, b, c, |text| == 4);
      Base64RoundTrip(content[3..]);
      assert content == [a, b, c] + content[3..];
    } else if content != [] {
      PaddedRoundTrip(content);
      assert text[..4] == text && text[4..] == "";
      assert content + [] == content;
    }
  }

  /** A cut inside the encoding, at a group boundary, is the encoding of a prefix of the bytes. */
  lemma {:induction false} CutEncoding(content: seq<byte>, groups: nat)
    requires 4 * groups < EncodedLength(|content|)
    ensures 3 * groups < |content|
    ensures B64Encode(content)[..4 * groups] == B64Encode(content[..3 * groups])
  {
    hide EncodeGroup, PaddedGroup;
    if groups == 0 {
      assert content[..0] == [];
    } else {
      CutEncoding(content[3..], groups - 1);
      assert content[..3 * groups][3..] == content[3..][..3 * (groups - 1)];
      assert B64Encode(content)[..4 * groups]
          == EncodeGroup(content[0], content[1], content[2]) + B64Encode(content[3..])[..4 * (groups - 1)];
    }
  }

  /** Text whose length is no multiple of four never decodes. */
  lemma {:induction false} RaggedTextFails(text: string)
    requires |text| % 4 != 0
    ensures B64Decode(text) == None
  {
    if |text| >= 4 {
      RaggedTextFails(text[4..]);
    }
  }

  // ---------------------------------------------------------------- which texts decode

  /** The alphabet holds no other characters. */
  lemma LetterOfSextet(c: char)
    requires Sextet(c) < 64
    ensures Letter(Sextet(c)) == c
  {
  }

  /** Whole groups of letters of the alphabet, with this many `=` in place of the last ones. */
  ghost predicate WellFormed(text: string, pads: nat) {
    && |text| % 4 == 0 && pads <= 2 && pads <= |text|
    && (forall i :: 0 <= i < |text| - pads ==> Sextet(text[i]) < 64)
    && (forall i :: |text| - pads <= i < |text| ==> text[i] == '=')
  }

  lemma GroupDecodes(group: string, last: bool)
    requires |group| == 4
    ensures last ==> (DecodeGroup(group, last).Some? <==> exists pads: nat :: WellFormed(group, pads))
    ensures !last ==> (DecodeGroup(group, last).Some? <==> WellFormed(group, 0))
    ensures forall pads: nat :: WellFormed(group, pads) && DecodeGroup(group, last).Some? ==>
      |DecodeGroup(group, last).value| == 3 - pads
  {
    PadIsNoLetter();
    hide Sextet;
    assert WellFormed(group, 0) || !WellFormed(group, 0);
    assert WellFormed(group, 1) || !WellFormed(group, 1);
    assert WellFormed(group, 2) || !WellFormed(group, 2);
  }

  lemma WellFormedTail(text: string, pads: nat)
    requires |text| > 4
    ensures WellFormed(text, pads) <==> WellFormed(text[..4], 0) && WellFormed(text[4..], pads)
  {
    PadIsNoLetter();
    hide Sextet;
    if WellFormed(text[..4], 0) && WellFormed(text[4..], pads) {
      forall i | 0 <= i < |text| - pads ensures Sextet(text[i]) < 64 {
        assert text[i] == if i < 4 then text[..4][i] else text[4..][i - 4];
      }
      forall i | |text| - pads <= i < |text| ensures text[i] == '=' {
        assert text[i] == text[4..][i - 4];
      }
    }
  }

  /** A text decodes if and only if it is made of whole groups of the alphabet, of which the last may end
    * in one or two `=`; each `=` is one byte less. */
  lemma {:induction false} DecodesExactly(text: string)
    ensures B64Decode(text).Some? <==> exists pads: nat :: WellFormed(text, pads)
    ensures forall pads: nat :: WellFormed(text, pads) && B64Decode(text).Some? ==>
      |B64Decode(text).value| == |text| / 4 * 3 - pads
  {
    hide Sextet, DecodeGroup;
    if text == "" {
      assert WellFormed(text, 0);
    } else if |text| >= 4 {
      GroupDecodes(text[..4], |text| == 4);
      DecodesExactly(text[4..]);
      if |text| == 4 {
        assert text[..4] == text && text[4..] == "";
        assert WellFormed("", 0);
      } else {
        forall pads: nat ensures WellFormed(text, pads) <==> WellFormed(text[..4], 0) && WellFormed(text[4..], pads) {
          WellFormedTail(text, pads);
        }
      }
    }
  }

  /** White space around the printed text, in the sense of Python's ASCII white space, changes nothing. */
  lemma WhiteSpaceIsIgnored(left: string, text: string, right: string)
    requires Only(left, c => c in " \t\n\r" || c as int in {11, 12})
    requires Only(right, c => c in " \t\n\r" || c as int in {11, 12})
    requires AllPrintable(text)
    ensures B64Decode(Strip(left + (text + right), Space)) == B64Decode(text)
  {
    hide B64Decode, Strip;
    forall i | 0 <= i < |text| ensures !Space(text[i]) {
      PrintableIsNoSpace(text[i]);
    }
    Stripped(left, text, right, Space);
  }

  // ---------------------------------------------------------------- the cap on ASCII text

  lemma {:induction false} AsciiEncoding(s: string)
    requires forall i :: 0 <= i < |s| ==> s[i] as int < 0x80
    ensures |Encode(s)| == |s|
    ensures forall n :: 0 <= n <= |s| ==> Encode(s)[..n] == Encode(s[..n])
  {
    if s != "" {
      AsciiEncoding(s[1..]);
      forall n | 0 <= n <= |s| ensures Encode(s)[..n] == Encode(s[..n]) {
        if n > 0 {
          assert s[..n][1..] == s[1..][..n - 1];
          assert Encode(s)[..n] == EncodeChar(s[0]) + Encode(s[1..])[..n - 1];
        } else {
          assert s[..0] == "";
        }
      }
    }
  }

  /** On ASCII output the cap keeps exactly the first characters. */
  lemma AsciiCapped(stdout: string, stderr: string, limit: nat)
    requires forall i :: 0 <= i < |stdout| ==> stdout[i] as int < 0x80
    ensures BoundedOutputs(stdout, stderr, limit).0 == stdout[..Min(limit, |stdout|)]
  {
    AsciiEncoding(stdout);
    RoundTrip(stdout[..Min(limit, |stdout|)]);
  }

  lemma TrimPrintable(text: string)
    requires AllPrintable(text)
    ensures Strip(text, Space) == text
    ensures Strip(text + "\n", Space) == text
  {
    hide Sextet;
    if text == "" {
      assert text + "\n" == "\n" && "\n"[1..] == "";
    } else {
      PrintableIsNoSpace(text[0]);
      PrintableIsNoSpace(text[|text| - 1]);
      TrimOneNewline(text);
    }
  }

  lemma PrintableIsNoSpace(c: char)
    requires Printable(c)
    ensures !Space(c)
  {
  }

  lemma TrimOneNewline(text: string)
    requires text != "" && !Space(text[0]) && !Space(text[|text| - 1])
    ensures Strip(text, Space) == text && Strip(text + "\n", Space) == text
  {
    var longer := text + "\n";
    assert longer[0] == text[0];
    assert TrimLeft(longer, Space) == longer && TrimLeft(text, Space) == text;
    assert longer[..|longer| - 1] == text;
    assert TrimRight(longer, Space) == TrimRight(text, Space);
  }

  /** The text that the host decodes: the base64 text, as far as the cap lets it through. */
  lemma StrippedOutput(content: seq<byte>, stderr: string, limit: nat)
    ensures var text := B64Encode(content);
      Strip(BoundedOutputs(text + "\n", stderr, limit).0, Space) == text[..Min(limit, |text|)]
  {
    hide B64Encode, Encode, BoundedOutputs, Strip;
    var text := B64Encode(content);
    EncodedPrintable(content);
    AsciiCapped(text + "\n", stderr, limit);
    if limit <= |text| {
      assert (text + "\n")[..limit] == text[..limit];
      TrimPrintable(text[..limit]);
    } else {
      assert (text + "\n")[..|text| + 1] == text + "\n";
      TrimPrintable(text);
    }
  }

  /** What `read_file` returns for every file and every cap: the whole file exactly when its base64
    * text fits; otherwise a decoding error, except that a cap divisible by four silently yields
    * the prefix of the file whose encoding fills the cap. */
  lemma ReadFileTheorem(content: seq<byte>, stderr: string, limit: nat)
    ensures ReadFile(content, stderr, limit)
         == if EncodedLength(|content|) <= limit then Some(content)
            else if limit % 4 == 0 then Some(Take(content, 3 * (limit / 4)))
            else None
  {
    hide B64Decode, BoundedOutputs, Strip, EncodeGroup, PaddedGroup;
    var text := B64Encode(content);
    StrippedOutput(content, stderr, limit);
    if EncodedLength(|content|) <= limit {
      Base64RoundTrip(content);
      assert text[..|text|] == text;
    } else if limit % 4 == 0 {
      CutEncoding(content, limit / 4);
      Base64RoundTrip(content[..3 * (limit / 4)]);
    } else {
      RaggedTextFails(text[..limit]);
    }
  }

  /** The read is faithful if and only if the base64 text fits under the cap. */
  lemma ReadIsFaithfulExactlyWhenItFits(content: seq<byte>, stderr: string, limit: nat)
    ensures ReadFile(content, stderr, limit) == Some(content) <==> EncodedLength(|content|) <= limit
  {
    ReadFileTheorem(content, stderr, limit);
    if EncodedLength(|content|) > limit && limit % 4 == 0 {
      CutEncoding(content, limit / 4);
      assert |Take(content, 3 * (limit / 4))| < |content|;
    }
  }

  /** Four bytes under a cap of four characters: three of them come back, without an error. */
  lemma SilentPrefix()
    ensures ReadFile([1, 2, 3, 4], "", 4) == Some([1, 2, 3])
  {
    hide ReadFile;
    var content: seq<byte> := [1, 2, 3, 4];
    ReadFileTheorem(content, "", 4);
    assert content[..3] == [1, 2, 3];
  }
}
