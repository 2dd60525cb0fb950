/** Base64 (sections 4 and 5 of RFC 4648), as the `base64` crate's `STANDARD`
    and `URL_SAFE_NO_PAD` engines read and write it: decoding refuses wrong
    padding and non-zero trailing bits. */
module Base64 {
  import opened Prelude

  type sextet = x: nat | x < 64

  datatype Alphabet = Standard | UrlSafe

  function CharOf(a: Alphabet, s: sextet): char {
    if s < 26 then (s + 'A' as int) as char
    else if s < 52 then (s - 26 + 'a' as int) as char
    else if s < 62 then (s - 52 + '0' as int) as char
    else if s == 62 then (if a.Standard? then '+' else '-')
    else (if a.Standard? then '/' else '_')
  }

  function SextetOf(a: Alphabet, c: char): Option<sextet> {
    if 'A' <= c <= 'Z' then Some(c as int - 'A' as int)
    else if 'a' <= c <= 'z' then Some(c as int - 'a' as int + 26)
    else if '0' <= c <= '9' then Some(c as int - '0' as int + 52)
    else if c == CharOf(a, 62) then Some(62)
    else if c == CharOf(a, 63) then Some(63)
    else None
  }

  lemma CharRoundTrip(a: Alphabet, s: sextet)
    ensures SextetOf(a, CharOf(a, s)) == Some(s)
  {
  }

  lemma SextetRoundTrip(a: Alphabet, c: char)
    requires SextetOf(a, c).Some?
    ensures CharOf(a, SextetOf(a, c).value) == c
  {
  }

  /** Three bytes as four sextets. */
  function Group(b0: nat, b1: nat, b2: nat): (ss: seq<sextet>)
    requires b0 < 256 && b1 < 256 && b2 < 256
    ensures |ss| == 4
  {
    [b0 / 4, b0 % 4 * 16 + b1 / 16, b1 % 16 * 4 + b2 / 64, b2 % 64]
  }

  /** Four sextets as three bytes. */
  function Ungroup(s0: nat, s1: nat, s2: nat, s3: nat): (bytes: seq<byte>)
    requires s0 < 64 && s1 < 64 && s2 < 64 && s3 < 64
    ensures |bytes| == 3
  {
    [s0 * 4 + s1 / 16, s1 % 16 * 16 + s2 / 4, s2 % 4 * 64 + s3]
  }

  function ToSextets(bytes: seq<byte>): seq<sextet> {
    if |bytes| == 0 then []
    else if |bytes| == 1 then Group(bytes[0], 0, 0)[..2]
    else if |bytes| == 2 then Group(bytes[0], bytes[1], 0)[..3]
    else Group(bytes[0], bytes[1], bytes[2]) + ToSextets(bytes[3..])
  }

  function FromSextets(ss: seq<sextet>): Option<seq<byte>> {
    if |ss| == 0 then Some([])
    else if |ss| == 1 then None
    else if |ss| == 2 then
      if ss[1] % 16 == 0 then Some(Ungroup(ss[0], ss[1], 0, 0)[..1]) else None
    else if |ss| == 3 then
      if ss[2] % 4 == 0 then Some(Ungroup(ss[0], ss[1], ss[2], 0)[..2]) else None
    else
      match FromSextets(ss[4..])
      case None => None
      case Some(rest) => Some(Ungroup(ss[0], ss[1], ss[2], ss[3]) + rest)
  }

  function ToText(a: Alphabet, ss: seq<sextet>): (text: string)
    ensures |text| == |ss|
  {
    seq(|ss|, i requires 0 <= i < |ss| => CharOf(a, ss[i]))
  }

  function FromText(a: Alphabet, text: string): (r: Option<seq<sextet>>)
    ensures r.Some? <==> forall i :: 0 <= i < |text| ==> SextetOf(a, text[i]).Some?
    ensures r.Some? ==> |r.value| == |text|
  {
    if exists i :: 0 <= i < |text| && SextetOf(a, text[i]).None? then None
    else Some(seq(|text|, i requires 0 <= i < |text| => SextetOf(a, text[i]).value))
  }

  // Unpadded: the URL_SAFE_NO_PAD engine.

  function EncodeUnpadded(a: Alphabet, bytes: seq<byte>): string {
    ToText(a, ToSextets(bytes))
  }

  function DecodeUnpadded(a: Alphabet, text: string): Option<seq<byte>> {
    match FromText(a, text)
    case None => None
    case Some(ss) => FromSextets(ss)
  }

  // Padded: the STANDARD engine.

  function Padding(unpadded: nat): string {
    if unpadded % 4 == 2 then "==" else if unpadded % 4 == 3 then "=" else ""
  }

  function EncodePadded(a: Alphabet, bytes: seq<byte>): string {
    var text := EncodeUnpadded(a, bytes);
    text + Padding(|text|)
  }

  function DecodePadded(a: Alphabet, text: string): Option<seq<byte>> {
    if |text| % 4 != 0 then None
    else if |text| >= 2 && text[|text| - 2..] == "==" then DecodeUnpadded(a, text[..|text| - 2])
    else if |text| >= 1 && text[|text| - 1] == '=' then DecodeUnpadded(a, text[..|text| - 1])
    else DecodeUnpadded(a, text)
  }

  lemma {:induction false} SextetLength(bytes: seq<byte>)
    ensures |ToSextets(bytes)| == (4 * |bytes| + 2) / 3
    ensures |ToSextets(bytes)| % 4 != 1
  {
    if |bytes| >= 3 {
      SextetLength(bytes[3..]);
    }
  }

  // The arithmetic of regrouping, one byte or sextet at a time: `q` and `r` are the
  // high and low bits of a value cut in two.

  lemma CutAndJoin(q: nat, r: nat, base: nat, x: nat)
    requires base == 4 || base == 16 || base == 64
    requires r < base && x == q * base + r
    ensures x / base == q && x % base == r
  {
  }

  lemma GroupRoundTrip(b0: nat, b1: nat, b2: nat)
    requires b0 < 256 && b1 < 256 && b2 < 256
    ensures var ss := Group(b0, b1, b2); Ungroup(ss[0], ss[1], ss[2], ss[3]) == [b0, b1, b2]
    ensures b2 == 0 ==> Group(b0, b1, b2)[2] % 4 == 0 && Group(b0, b1, b2)[3] == 0
    ensures b1 == b2 == 0 ==> Group(b0, b1, b2)[1] % 16 == 0 && Group(b0, b1, b2)[2] == 0
  {
    var s1, s2 := b0 % 4 * 16 + b1 / 16, b1 % 16 * 4 + b2 / 64;
    CutAndJoin(b0 % 4, b1 / 16, 16, s1);
    CutAndJoin(b1 % 16, b2 / 64, 4, s2);
  }

  lemma UngroupRoundTrip(s0: nat, s1: nat, s2: nat, s3: nat)
    requires s0 < 64 && s1 < 64 && s2 < 64 && s3 < 64
    ensures var bytes := Ungroup(s0, s1, s2, s3); Group(bytes[0], bytes[1], bytes[2]) == [s0, s1, s2, s3]
    ensures s3 == 0 && s2 % 4 == 0 ==> Ungroup(s0, s1, s2, s3)[2] == 0
    ensures s3 == s2 == 0 && s1 % 16 == 0 ==> Ungroup(s0, s1, s2, s3)[1] == 0
  {
    CutAndJoin(s0, s1 / 16, 4, s0 * 4 + s1 / 16);
    CutAndJoin(s1 % 16, s2 / 4, 16, s1 % 16 * 16 + s2 / 4);
    CutAndJoin(s2 % 4, s3, 64, s2 % 4 * 64 + s3);
  }

  lemma {:induction false} SextetsRoundTrip(bytes: seq<byte>)
    ensures FromSextets(ToSextets(bytes)) == Some(bytes)
  {
    if |bytes| >= 3 {
      SextetsRoundTrip(bytes[3..]);
      GroupRoundTrip(bytes[0], bytes[1], bytes[2]);
      var group := Group(bytes[0], bytes[1], bytes[2]);
      assert (group + ToSextets(bytes[3..]))[4..] == ToSextets(bytes[3..]);
      assert bytes == [bytes[0], bytes[1], bytes[2]] + bytes[3..];
    } else if |bytes| == 2 {
      GroupRoundTrip(bytes[0], bytes[1], 0);
      assert bytes == [bytes[0], bytes[1], 0][..2];
    } else if |bytes| == 1 {
      GroupRoundTrip(bytes[0], 0, 0);
      assert bytes == [bytes[0], 0, 0][..1];
    }
  }

  lemma {:induction false} SextetsCanonical(ss: seq<sextet>)
    requires FromSextets(ss).Some?
    ensures ToSextets(FromSextets(ss).value) == ss
  {
    if |ss| >= 4 {
      SextetsCanonical(ss[4..]);
      UngroupRoundTrip(ss[0], ss[1], ss[2], ss[3]);
      var rest := FromSextets(ss[4..]).value;
      assert (Ungroup(ss[0], ss[1], ss[2], ss[3]) + rest)[3..] == rest;
      assert ss == [ss[0], ss[1], ss[2], ss[3]] + ss[4..];
    } else if |ss| == 3 {
      UngroupRoundTrip(ss[0], ss[1], ss[2], 0);
      assert ss == [ss[0], ss[1], ss[2], 0][..3];
    } else if |ss| == 2 {
      UngroupRoundTrip(ss[0], ss[1], 0, 0);
      assert ss == [ss[0], ss[1], 0, 0][..2];
    }
  }

  lemma TextRoundTrip(a: Alphabet, ss: seq<sextet>)
    ensures FromText(a, ToText(a, ss)) == Some(ss)
  {
    forall i | 0 <= i < |ss| ensures SextetOf(a, ToText(a, ss)[i]) == Some(ss[i]) {
      CharRoundTrip(a, ss[i]);
    }
    assert FromText(a, ToText(a, ss)).value == ss;
  }

  /** Unpadded base64 decodes to what was encoded. */
  lemma UnpaddedRoundTrip(a: Alphabet, bytes: seq<byte>)
    ensures DecodeUnpadded(a, EncodeUnpadded(a, bytes)) == Some(bytes)
    ensures |EncodeUnpadded(a, bytes)| == (4 * |bytes| + 2) / 3
  {
    TextRoundTrip(a, ToSextets(bytes));
    SextetsRoundTrip(bytes);
    SextetLength(bytes);
  }

  /** Nothing but an encoding decodes: text and bytes match one to one. */
  lemma UnpaddedCanonical(a: Alphabet, text: string)
    requires DecodeUnpadded(a, text).Some?
    ensures EncodeUnpadded(a, DecodeUnpadded(a, text).value) == text
  {
    var ss := FromText(a, text).value;
    SextetsCanonical(ss);
    forall i | 0 <= i < |text| ensures CharOf(a, ss[i]) == text[i] {
      SextetRoundTrip(a, text[i]);
    }
  }

  /** Encodings use the alphabet only. */
  lemma EncodedChars(a: Alphabet, bytes: seq<byte>)
    ensures forall i :: 0 <= i < |EncodeUnpadded(a, bytes)| ==> SextetOf(a, EncodeUnpadded(a, bytes)[i]).Some?
    ensures forall i :: 0 <= i < |EncodePadded(a, bytes)| ==>
              SextetOf(a, EncodePadded(a, bytes)[i]).Some? || EncodePadded(a, bytes)[i] == '='
  {
    TextRoundTrip(a, ToSextets(bytes));
  }

  lemma PaddingNotInAlphabet(a: Alphabet, bytes: seq<byte>)
    ensures '=' !in EncodeUnpadded(a, bytes)
  {
    EncodedChars(a, bytes);
    var text := EncodeUnpadded(a, bytes);
    forall i | 0 <= i < |text| ensures text[i] != '=' {
      assert SextetOf(a, text[i]).Some?;
    }
  }

  lemma LastCharsOf(text: string, padding: string)
    requires |padding| <= 2
    ensures (text + padding)[..|text|] == text
    ensures |text + padding| >= 2 && |padding| == 2 ==> (text + padding)[|text + padding| - 2..] == padding
    ensures |text + padding| >= 2 && |padding| == 1 ==> (text + padding)[|text + padding| - 2..][0] == text[|text| - 1]
    ensures |text + padding| >= 2 && |padding| == 0 ==> (text + padding)[|text + padding| - 2..][1] == text[|text| - 1]
  {
  }

  /** Decoding strips exactly the padding encoding adds. */
  lemma StripPadding(a: Alphabet, text: string)
    requires '=' !in text && |text| % 4 != 1
    ensures DecodePadded(a, text + Padding(|text|)) == DecodeUnpadded(a, text)
  {
    LastCharsOf(text, Padding(|text|));
    assert |Padding(|text|)| == 0 ==> text + Padding(|text|) == text;
  }

  /** Padded base64 decodes to what was encoded. */
  lemma PaddedRoundTrip(a: Alphabet, bytes: seq<byte>)
    ensures DecodePadded(a, EncodePadded(a, bytes)) == Some(bytes)
  {
    UnpaddedRoundTrip(a, bytes);
    SextetLength(bytes);
    PaddingNotInAlphabet(a, bytes);
    StripPadding(a, EncodeUnpadded(a, bytes));
  }

  /** The alphabets of tables 1 and 2 of RFC 4648: capitals, small letters and digits, each in order, and then
      the two characters the tables differ in. */
  lemma TheAlphabet(a: Alphabet, s: sextet, t: sextet)
    ensures CharOf(a, 0) == 'A' && CharOf(a, 25) == 'Z' && CharOf(a, 26) == 'a' && CharOf(a, 51) == 'z'
    ensures CharOf(a, 52) == '0' && CharOf(a, 61) == '9'
    ensures s < t < 26 || 26 <= s < t < 52 || 52 <= s < t < 62 ==> CharOf(a, s) < CharOf(a, t)
    ensures CharOf(Standard, 62) == '+' && CharOf(Standard, 63) == '/'
    ensures CharOf(UrlSafe, 62) == '-' && CharOf(UrlSafe, 63) == '_'
  {
  }

  /** Four sextets are the number the three bytes are, the first the most significant. */
  lemma GroupValue(b0: nat, b1: nat, b2: nat)
    requires b0 < 256 && b1 < 256 && b2 < 256
    ensures var ss := Group(b0, b1, b2);
            var (s0: nat, s1: nat, s2: nat, s3: nat) := (ss[0], ss[1], ss[2], ss[3]);
            ((s0 * 64 + s1) * 64 + s2) * 64 + s3 == (b0 * 256 + b1) * 256 + b2
  {
  }
}
