/** did:key identifiers of Ed25519 public keys (crates/auth/src/did_key.rs and
    the decoder in crates/channel-manager/src/grant.rs). */
module DidKey {
  import opened Prelude
  import Base58
  import Numerals

  const PREFIX := "did:key:z"
  const MULTICODEC: seq<byte> := [0xed, 0x01]
  const KEY_LENGTH := 32

  function Of(publicKey: seq<byte>): string {
    PREFIX + Base58.Encode(MULTICODEC + publicKey)
  }

  /** The key an identifier encodes, if it is an Ed25519 did:key. */
  function Decode(owner: string): Option<seq<byte>> {
    if !(PREFIX <= owner) then None
    else
      match Base58.Decode(owner[|PREFIX|..])
      case None => None
      case Some(bytes) =>
        if MULTICODEC <= bytes && |bytes| == 2 + KEY_LENGTH then Some(bytes[2..]) else None
  }

  /** An identifier decodes to the key it was made from, which must be 32 bytes long. */
  lemma RoundTrip(publicKey: seq<byte>)
    ensures Decode(Of(publicKey)) == if |publicKey| == KEY_LENGTH then Some(publicKey) else None
  {
    Base58.RoundTrip(MULTICODEC + publicKey);
    assert Of(publicKey)[|PREFIX|..] == Base58.Encode(MULTICODEC + publicKey);
    assert (MULTICODEC + publicKey)[2..] == publicKey;
  }

  /** A key has one identifier: what decodes to it is the text made from it. */
  lemma Canonical(owner: string)
    requires Decode(owner).Some?
    ensures |Decode(owner).value| == KEY_LENGTH
    ensures Of(Decode(owner).value) == owner
  {
    var text := owner[|PREFIX|..];
    var bytes := Base58.Decode(text).value;
    Base58.Canonical(text);
    assert bytes == MULTICODEC + bytes[2..];
    assert owner == PREFIX + text;
  }

  /** Two identifiers that decode to the same key are the same identifier. */
  lemma DecodeInjective(a: string, b: string)
    requires Decode(a).Some? && Decode(a) == Decode(b)
    ensures a == b
  {
    Canonical(a);
    Canonical(b);
  }

  // What an identifier looks like.

  lemma Power58(k: nat)
    requires k == 4
    ensures Numerals.Power(58, 11 * k) == 389790918707373377135528568990913592653094657612049369038476873218241589149696
  {
    assert Numerals.Power(58, k) == 11316496;
    Numerals.PowerTwice(58, k, 11316496);
    Numerals.PowerTwice(58, 2 * k, 128063081718016);
    Numerals.PowerTwice(58, 4 * k, 16400152899115243850138976256);
    Numerals.PowerSum(58, 8 * k, 2 * k);
    Numerals.PowerSum(58, 10 * k, k);
  }

  lemma Power256(k: nat)
    requires k == 4
    ensures Numerals.Power(256, 8 * k) == 115792089237316195423570985008687907853269984665640564039457584007913129639936
  {
    assert Numerals.Power(256, k) == 4294967296;
    Numerals.PowerTwice(256, k, 4294967296);
    Numerals.PowerTwice(256, 2 * k, 18446744073709551616);
    Numerals.PowerTwice(256, 4 * k, 340282366920938463463374607431768211456);
  }

  /** The number an identifier's bytes are. */
  lemma KeyValue(publicKey: seq<byte>)
    requires |publicKey| == KEY_LENGTH
    ensures 0xed01 * Numerals.Power(256, |publicKey|) <= Numerals.Value(MULTICODEC + publicKey, 256)
            < 0xed02 * Numerals.Power(256, |publicKey|)
  {
    var head: seq<nat> := [0xed, 0x01];
    assert head[..1] == [0xed] && [0xed][..0] == [];
    assert Numerals.Value(head, 256) == 0xed01;
    assert MULTICODEC + publicKey == head + publicKey;
    Numerals.ValueOfJoined(head, publicKey, 256);
    Numerals.ValueBound(publicKey, 256);
  }

  /** That number starts, in base 58, with the digits of 18023. */
  lemma KeyDigits(publicKey: seq<byte>, k: nat)
    requires |publicKey| == KEY_LENGTH && k == 4
    ensures Numerals.Digits(18023, 58) <= Numerals.Digits(Numerals.Value(MULTICODEC + publicKey, 256), 58)
  {
    KeyValue(publicKey);
    Power58(k);
    Power256(k);
    assert |publicKey| == 8 * k;
    Numerals.LeadingDigits(Numerals.Value(MULTICODEC + publicKey, 256), 58, 11 * k, 18023);
  }

  /** Every Ed25519 key's identifier starts `did:key:z6Mk`. */
  lemma StartsAsEd25519(publicKey: seq<byte>)
    requires |publicKey| == KEY_LENGTH
    ensures "did:key:z6Mk" <= Of(publicKey)
  {
    var bytes := MULTICODEC + publicKey;
    KeyDigits(publicKey, 4);
    TopDigits();
    assert Base58.LeadingZeros(bytes) == 0;
    Base58.RebaseInRange(bytes, 256, 58);
    assert Base58.Rebase(bytes, 256, 58) == Numerals.Digits(Numerals.Value(bytes, 256), 58);
    var text := Base58.Encode(bytes);
    assert text[0] == '6' && text[1] == 'M' && text[2] == 'k';
    assert Of(publicKey)[..12] == "did:key:z6Mk";
  }

  lemma TopDigits()
    ensures Numerals.Digits(18023, 58) == [5, 20, 43]
  {
    assert Numerals.Digits(5, 58) == [5];
    assert Numerals.Digits(310, 58) == [5, 20];
  }
}
