/** Base58 with the bitcoin alphabet, as the `bs58` crate reads and writes it:
    the bytes are one big-endian number, and each leading zero byte is a
    leading '1'. */
module Base58 {
  import opened Prelude
  import opened Numerals

  function CharOf(d: nat): char
    requires d < 58
  {
    if d < 9 then (d + '1' as int) as char
    else if d < 17 then (d - 9 + 'A' as int) as char
    else if d < 22 then (d - 17 + 'J' as int) as char
    else if d < 33 then (d - 22 + 'P' as int) as char
    else if d < 44 then (d - 33 + 'a' as int) as char
    else (d - 44 + 'm' as int) as char
  }

  function DigitOfChar(c: char): (r: Option<nat>)
    ensures r.Some? ==> r.value < 58 && CharOf(r.value) == c
  {
    if '1' <= c <= '9' then Some(c as int - '1' as int)
    else if 'A' <= c <= 'H' then Some(c as int - 'A' as int + 9)
    else if 'J' <= c <= 'N' then Some(c as int - 'J' as int + 17)
    else if 'P' <= c <= 'Z' then Some(c as int - 'P' as int + 22)
    else if 'a' <= c <= 'k' then Some(c as int - 'a' as int + 33)
    else if 'm' <= c <= 'z' then Some(c as int - 'm' as int + 44)
    else None
  }

  lemma CharRoundTrip(d: nat)
    requires d < 58
    ensures DigitOfChar(CharOf(d)) == Some(d)
  {
  }

  /** How many zeros a digit sequence starts with. */
  function LeadingZeros(ds: seq<nat>): (k: nat)
    ensures k <= |ds|
    ensures forall i :: 0 <= i < k ==> ds[i] == 0
    ensures k < |ds| ==> ds[k] != 0
  {
    if ds == [] || ds[0] != 0 then 0 else 1 + LeadingZeros(ds[1..])
  }

  function Zeros(k: nat): (zs: seq<nat>)
    ensures |zs| == k && forall i :: 0 <= i < k ==> zs[i] == 0
  {
    seq(k, i => 0)
  }

  /** Rewrites a numeral in another base, keeping its leading zeros. */
  function Rebase(ds: seq<nat>, from: nat, to: nat): seq<nat>
    requires to >= 2
  {
    Zeros(LeadingZeros(ds)) + Digits(Value(ds, from), to)
  }

  lemma RebaseInRange(ds: seq<nat>, from: nat, to: nat)
    requires to >= 2
    ensures AllBelow(Rebase(ds, from, to), to)
  {
    DigitsInRange(Value(ds, from), to);
  }

  /** Rebasing is undone by rebasing back. */
  lemma RebaseRoundTrip(ds: seq<nat>, from: nat, to: nat)
    requires from >= 2 && to >= 2 && AllBelow(ds, from)
    ensures Rebase(Rebase(ds, from, to), to, from) == ds
  {
    var k := LeadingZeros(ds);
    var tail := ds[k..];
    var n := Value(ds, from);
    var there := Rebase(ds, from, to);
    assert ds == Zeros(k) + tail;
    ValueSkipsZeros(Zeros(k), tail, from);
    DigitsOfValue(tail, from);
    DigitsInRange(n, to);
    ValueOfDigits(n, to);
    ValueSkipsZeros(Zeros(k), Digits(n, to), to);
    assert LeadingZeros(there) == k by {
      if tail != [] {
        ValuePositive(tail, from);
        assert there[k] != 0;
      }
    }
  }

  function Encode(bytes: seq<byte>): string {
    RebaseInRange(bytes, 256, 58);
    var ds := Rebase(bytes, 256, 58);
    seq(|ds|, i requires 0 <= i < |ds| => CharOf(ds[i]))
  }

  function ToDigits(text: string): (r: Option<seq<nat>>)
    ensures r.Some? ==> |r.value| == |text| && AllBelow(r.value, 58)
  {
    if exists i :: 0 <= i < |text| && DigitOfChar(text[i]).None? then None
    else Some(seq(|text|, i requires 0 <= i < |text| => DigitOfChar(text[i]).value))
  }

  function Decode(text: string): Option<seq<byte>> {
    match ToDigits(text)
    case None => None
    case Some(ds) =>
      RebaseInRange(ds, 58, 256);
      var out := Rebase(ds, 58, 256);
      Some(seq(|out|, i requires 0 <= i < |out| => out[i]))
  }

  /** Decoding recovers the bytes encoded. */
  lemma RoundTrip(bytes: seq<byte>)
    ensures Decode(Encode(bytes)) == Some(bytes)
  {
    RebaseInRange(bytes, 256, 58);
    var ds := Rebase(bytes, 256, 58);
    var text := Encode(bytes);
    forall i | 0 <= i < |text| ensures DigitOfChar(text[i]) == Some(ds[i]) {
      CharRoundTrip(ds[i]);
    }
    assert ToDigits(text).value == ds;
    RebaseRoundTrip(bytes, 256, 58);
    RebaseInRange(ds, 58, 256);
    assert Decode(text).value == bytes;
  }

  /** No two texts decode to the same bytes. */
  lemma Canonical(text: string)
    requires Decode(text).Some?
    ensures Encode(Decode(text).value) == text
  {
    var ds := ToDigits(text).value;
    RebaseInRange(ds, 58, 256);
    var out := Rebase(ds, 58, 256);
    var bytes := Decode(text).value;
    assert bytes == out;
    RebaseRoundTrip(ds, 58, 256);
    RebaseInRange(bytes, 256, 58);
    assert Rebase(bytes, 256, 58) == ds;
  }

  /** The bitcoin alphabet: digits but zero, capitals but I and O and small letters but l, in ASCII order. */
  lemma TheAlphabet(d: nat, e: nat)
    requires d < e < 58
    ensures CharOf(d) < CharOf(e)
    ensures CharOf(0) == '1' && CharOf(8) == '9' && CharOf(9) == 'A' && CharOf(57) == 'z'
    ensures CharOf(d) !in "0IOl" && (CharOf(d) <= '9' || 'A' <= CharOf(d) <= 'Z' || 'a' <= CharOf(d))
  {
  }

  /** The text is the bytes as one number, most significant digit first, and a '1' for each leading zero byte. */
  lemma EncodesValue(bytes: seq<byte>)
    ensures var text, zeros := Encode(bytes), LeadingZeros(bytes);
            && zeros <= |text| && (forall i :: 0 <= i < zeros ==> text[i] == '1')
            && (zeros < |text| ==> text[zeros] != '1')
            && ToDigits(text).Some? && Value(ToDigits(text).value, 58) == Value(bytes, 256)
  {
    RebaseInRange(bytes, 256, 58);
    var ds, n := Rebase(bytes, 256, 58), Value(bytes, 256);
    var text := Encode(bytes);
    forall i | 0 <= i < |text| ensures DigitOfChar(text[i]) == Some(ds[i]) {
      CharRoundTrip(ds[i]);
    }
    assert ToDigits(text).value == ds;
    DigitsInRange(n, 58);
    ValueOfDigits(n, 58);
    ValueSkipsZeros(Zeros(LeadingZeros(bytes)), Digits(n, 58), 58);
  }
}
