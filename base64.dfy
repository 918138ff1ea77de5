/** The browser's `atob`: the forgiving base64 decoder of the WHATWG Infra
    standard over the alphabet of section 4 of RFC 4648, returning a "binary
    string" whose character codes are the decoded bytes. The padded encoder of
    section 4 of RFC 4648 is defined beside it so that the round trip can be
    stated. */
module Base64 {
  import opened Types

  /** A 6-bit value, the payload of one base64 character. */
  type sextet = x: int | 0 <= x < 64

  /** Membership in the base64 alphabet of RFC 4648 (Table 1): A-Z, a-z, 0-9, '+', '/'. */
  predicate IsBase64Char(c: char)
  {
    ('A' <= c <= 'Z') || ('a' <= c <= 'z') || ('0' <= c <= '9') || c == '+' || c == '/'
  }

  /** The value a base64 character stands for (RFC 4648, Table 1). */
  function SextetOf(c: char): (v: sextet)
    requires IsBase64Char(c)
    ensures CharOf(v) == c
  {
    if 'A' <= c <= 'Z' then c as int - 'A' as int
    else if 'a' <= c <= 'z' then c as int - 'a' as int + 26
    else if '0' <= c <= '9' then c as int - '0' as int + 52
    else if c == '+' then 62
    else 63
  }

  /** The base64 character for a 6-bit value (RFC 4648, Table 1). */
  function CharOf(v: sextet): (c: char)
    ensures IsBase64Char(c) && c != '='
  {
    if v < 26 then ('A' as int + v) as char
    else if v < 52 then ('a' as int + v - 26) as char
    else if v < 62 then ('0' as int + v - 52) as char
    else if v == 62 then '+'
    else '/'
  }

  /** ASCII whitespace as the Infra standard defines it: TAB, LF, FF, CR, SPACE. */
  predicate IsAsciiWhitespace(c: char)
  {
    c == '\t' || c == '\n' || c == '\U{C}' || c == '\r' || c == ' '
  }

  /** The input with every ASCII whitespace character removed, in order. */
  function StripAsciiWhitespace(s: string): (r: string)
    ensures forall i :: 0 <= i < |r| ==> !IsAsciiWhitespace(r[i])
    ensures |r| <= |s|
  {
    if s == [] then []
    else if IsAsciiWhitespace(s[0]) then StripAsciiWhitespace(s[1..])
    else [s[0]] + StripAsciiWhitespace(s[1..])
  }

  /** Whitespace removal works character by character: a whitespace character
      is dropped and any other is kept. */
  lemma StripOne(c: char)
    ensures StripAsciiWhitespace([c]) == if IsAsciiWhitespace(c) then [] else [c]
  {
    assert [c][1..] == [];
  }

  /** Whitespace removal distributes over concatenation, so together with
      `StripOne` every non-whitespace character is kept, in order. */
  lemma {:induction false} StripConcat(a: string, b: string)
    ensures StripAsciiWhitespace(a + b) == StripAsciiWhitespace(a) + StripAsciiWhitespace(b)
  {
    if a == [] {
      assert a + b == b;
    } else {
      assert (a + b)[0] == a[0];
      assert (a + b)[1..] == a[1..] + b;
      StripConcat(a[1..], b);
    }
  }

  /** When the length is a multiple of four, one or two trailing '=' are dropped. */
  function RemovePadding(s: string): (r: string)
    ensures r <= s && |s| - 2 <= |r|
    ensures r != s ==> |s| % 4 == 0 && forall i :: |r| <= i < |s| ==> s[i] == '='
    ensures |s| % 4 == 0 && |s| > 0 && s[|s| - 1] == '=' ==> |r| < |s|
    ensures |s| % 4 == 0 && |s| >= 2 && s[|s| - 2] == '=' && s[|s| - 1] == '=' ==> |r| == |s| - 2
  {
    if |s| % 4 == 0 && |s| >= 1 && s[|s| - 1] == '=' then
      if |s| >= 2 && s[|s| - 2] == '=' then s[..|s| - 2] else s[..|s| - 1]
    else s
  }

  /** The sextets of a string made only of alphabet characters. */
  function Sextets(d: string): (vs: seq<sextet>)
    requires forall i :: 0 <= i < |d| ==> IsBase64Char(d[i])
    ensures |vs| == |d|
  {
    seq(|d|, i requires 0 <= i < |d| => SextetOf(d[i]))
  }

  /** Packs sextets into bytes, 4 sextets to 3 bytes; a final group of 2 or 3
      sextets gives 1 or 2 bytes and its leftover low bits are discarded. */
  function DecodeSextets(vs: seq<sextet>): (bs: seq<byte>)
    requires |vs| % 4 != 1
    ensures |bs| == (3 * |vs|) / 4
  {
    if |vs| == 0 then []
    else
      var v0: int, v1: int := vs[0], vs[1];
      if |vs| == 2 then [v0 * 4 + v1 / 16]
      else
        var v2: int := vs[2];
        if |vs| == 3 then [v0 * 4 + v1 / 16, (v1 % 16) * 16 + v2 / 4]
        else
          var v3: int := vs[3];
          [v0 * 4 + v1 / 16, (v1 % 16) * 16 + v2 / 4, (v2 % 4) * 64 + v3] + DecodeSextets(vs[4..])
  }

  /** The string whose character codes are the given bytes, one per byte. */
  function BinaryString(bs: seq<byte>): (s: string)
    ensures |s| == |bs|
    ensures forall i :: 0 <= i < |bs| ==> s[i] as int == bs[i]
  {
    seq(|bs|, i requires 0 <= i < |bs| => bs[i] as char)
  }

  /** `atob`: `None` stands for the InvalidCharacterError it throws. */
  function Atob(data: string): (r: Option<string>)
    ensures r.Some? ==> forall i :: 0 <= i < |r.value| ==> r.value[i] as int < 256
  {
    var d := RemovePadding(StripAsciiWhitespace(data));
    if |d| % 4 == 1 then None
    else if exists i :: 0 <= i < |d| && !IsBase64Char(d[i]) then None
    else Some(BinaryString(DecodeSextets(Sextets(d))))
  }

  // ---------------------------------------------------------------------
  // The encoder of section 4 of RFC 4648, used to state the round trip.

  /** Splits bytes into sextets, 3 bytes to 4 sextets; a final group of 1 or 2
      bytes gives 2 or 3 sextets with zero low bits. */
  function EncodeSextets(bs: seq<byte>): (vs: seq<sextet>)
    ensures |vs| == (4 * |bs| + 2) / 3
  {
    if |bs| == 0 then []
    else if |bs| == 1 then [bs[0] / 4, (bs[0] % 4) * 16]
    else if |bs| == 2 then [bs[0] / 4, (bs[0] % 4) * 16 + bs[1] / 16, (bs[1] % 16) * 4]
    else [bs[0] / 4, (bs[0] % 4) * 16 + bs[1] / 16, (bs[1] % 16) * 4 + bs[2] / 64, bs[2] % 64]
         + EncodeSextets(bs[3..])
  }

  function Chars(vs: seq<sextet>): (s: string)
    ensures |s| == |vs|
    ensures forall i :: 0 <= i < |vs| ==> s[i] == CharOf(vs[i])
  {
    seq(|vs|, i requires 0 <= i < |vs| => CharOf(vs[i]))
  }

  /** The '=' characters that complete the last group of four. */
  function Padding(leftover: nat): string
  {
    if leftover == 1 then "==" else if leftover == 2 then "=" else ""
  }

  /** Padded base64 encoding (section 4 of RFC 4648). */
  function Encode(bs: seq<byte>): (s: string)
    ensures |s| % 4 == 0
    ensures |s| == 0 <==> |bs| == 0
  {
    Chars(EncodeSextets(bs)) + Padding(|bs| % 3)
  }

  // ---------------------------------------------------------------------
  // The round trip.

  lemma ByteGroup(b0: byte, b1: byte, b2: byte)
    ensures (b0 / 4) * 4 + ((b0 % 4) * 16 + b1 / 16) / 16 == b0
    ensures (((b0 % 4) * 16 + b1 / 16) % 16) * 16 + ((b1 % 16) * 4 + b2 / 64) / 4 == b1
    ensures (((b1 % 16) * 4 + b2 / 64) % 4) * 64 + b2 % 64 == b2
  {
  }

  /** Decoding the sextets of any byte sequence gives back the bytes. */
  lemma {:induction false} DecodeEncodeSextets(bs: seq<byte>)
    ensures |EncodeSextets(bs)| % 4 != 1
    ensures DecodeSextets(EncodeSextets(bs)) == bs
  {
    if |bs| == 0 {
    } else if |bs| == 1 {
      ByteGroup(bs[0], 0, 0);
    } else if |bs| == 2 {
      ByteGroup(bs[0], bs[1], 0);
    } else {
      ByteGroup(bs[0], bs[1], bs[2]);
      DecodeEncodeSextets(bs[3..]);
      var vs := EncodeSextets(bs);
      assert vs[4..] == EncodeSextets(bs[3..]);
      assert bs == bs[..3] + bs[3..];
    }
  }

  lemma NoWhitespaceUnchanged(s: string)
    requires forall i :: 0 <= i < |s| ==> !IsAsciiWhitespace(s[i])
    ensures StripAsciiWhitespace(s) == s
  {
    if s != [] {
      NoWhitespaceUnchanged(s[1..]);
    }
  }

  /** Stripping the padding of an encoding leaves exactly its alphabet characters. */
  lemma RemovePaddingOfEncode(bs: seq<byte>)
    ensures RemovePadding(Encode(bs)) == Chars(EncodeSextets(bs))
  {
    var body := Chars(EncodeSextets(bs));
    var s := Encode(bs);
    assert s == body + Padding(|bs| % 3);
    if |bs| % 3 == 1 {
      assert s[..|s| - 2] == body;
    } else if |bs| % 3 == 2 {
      assert s[..|s| - 1] == body;
    } else {
      assert s == body;
    }
  }

  /** An encoding holds no whitespace, so whitespace removal leaves it as is. */
  lemma EncodeHasNoWhitespace(bs: seq<byte>)
    ensures StripAsciiWhitespace(Encode(bs)) == Encode(bs)
  {
    var s := Encode(bs);
    var vs := EncodeSextets(bs);
    forall i | 0 <= i < |s| ensures !IsAsciiWhitespace(s[i]) {
      if i >= |vs| {
        assert s[i] == '=';
      } else {
        assert s[i] == CharOf(vs[i]);
      }
    }
    NoWhitespaceUnchanged(s);
  }

  /** Reading back the characters of sextets gives the sextets. */
  lemma SextetsOfChars(vs: seq<sextet>)
    ensures forall i :: 0 <= i < |Chars(vs)| ==> IsBase64Char(Chars(vs)[i])
    ensures Sextets(Chars(vs)) == vs
  {
  }

  /** `atob` inverts the RFC 4648 encoder: encoding any bytes and decoding the
      result yields the binary string of those same bytes, in order. */
  lemma {:induction false} AtobEncode(bs: seq<byte>)
    ensures Atob(Encode(bs)) == Some(BinaryString(bs))
  {
    var vs := EncodeSextets(bs);
    var d := Chars(vs);
    EncodeHasNoWhitespace(bs);
    RemovePaddingOfEncode(bs);
    assert RemovePadding(StripAsciiWhitespace(Encode(bs))) == d;
    DecodeEncodeSextets(bs);
    SextetsOfChars(vs);
    assert !(exists i :: 0 <= i < |d| && !IsBase64Char(d[i]));
    assert DecodeSextets(Sextets(d)) == bs;
  }

  /** Whitespace anywhere in the input is ignored: " QQ== " decodes to "A". */
  lemma AtobSkipsWhitespace()
    ensures Atob(" QQ== ") == Some("A")
  {
    assert StripAsciiWhitespace(" QQ== ") == "QQ==" by {
      assert " QQ== " == [' '] + ("QQ==" + [' ']);
      StripConcat([' '], "QQ==" + [' ']);
      StripConcat("QQ==", [' ']);
      StripOne(' ');
      NoWhitespaceUnchanged("QQ==");
    }
    AtobQQ();
  }

  /** "QQ==" is the one byte 65, the character 'A'. */
  lemma AtobQQ()
    ensures RemovePadding("QQ==") == "QQ"
    ensures Sextets("QQ") == [16, 16]
    ensures BinaryString(DecodeSextets([16, 16])) == "A"
  {
    assert DecodeSextets([16, 16]) == [65];
  }

  // ---------------------------------------------------------------------
  // Which texts `atob` accepts.

  /** Every character is in the base64 alphabet (so none is '='). */
  predicate AllAlphabet(u: string)
  {
    forall i :: 0 <= i < |u| ==> IsBase64Char(u[i])
  }

  /** The whitespace-free texts `atob` accepts: alphabet characters whose
      count is not 1 more than a multiple of 4; or alphabet characters
      followed by "=" or "==", the whole a multiple of 4 long. */
  predicate IsForgivingBase64(t: string)
  {
    || (AllAlphabet(t) && |t| % 4 != 1)
    || (|t| % 4 == 0 && |t| >= 1 && t[|t| - 1] == '=' && AllAlphabet(t[..|t| - 1]))
    || (|t| % 4 == 0 && |t| >= 2 && t[|t| - 2..] == "==" && AllAlphabet(t[..|t| - 2]))
  }

  /** `atob` throws InvalidCharacterError exactly when the text, once its
      whitespace is removed, has neither of the accepted shapes. */
  lemma AtobAcceptsIff(s: string)
    ensures Atob(s).Some? <==> IsForgivingBase64(StripAsciiWhitespace(s))
  {
    var t := StripAsciiWhitespace(s);
    var d := RemovePadding(t);
    assert Atob(s).Some? <==> |d| % 4 != 1 && AllAlphabet(d);
    if |t| % 4 == 0 && |t| >= 1 && t[|t| - 1] == '=' {
      assert !AllAlphabet(t);
      if t[|t| - 2] == '=' {
        assert d == t[..|t| - 2];
        assert t[|t| - 2..] == "==";
        assert !AllAlphabet(t[..|t| - 1]) by {
          assert t[..|t| - 1][|t| - 2] == '=';
        }
      } else {
        assert d == t[..|t| - 1];
        assert t[|t| - 2..] != "==" by {
          assert t[|t| - 2..][0] == t[|t| - 2];
        }
      }
    } else {
      assert d == t;
      assert |t| >= 2 ==> t[|t| - 2..][1] == t[|t| - 1];
    }
  }

  /** Padding is only removed from a text whose length is a multiple of 4:
      "QQ=" is rejected although "QQ==" and "QQ" decode to "A". */
  lemma AtobRejectsUnalignedPadding()
    ensures Atob("QQ=") == None
  {
    NoWhitespaceUnchanged("QQ=");
    assert RemovePadding("QQ=") == "QQ=";
    assert !IsBase64Char("QQ="[2]);
  }
}
