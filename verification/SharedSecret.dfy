/** Shared-secret tokens (crates/auth/src/shared_secret.rs):
    `id:timestamp:nonce:claims:mac`. The keyed hash is a parameter; text stands
    for its bytes. */
module SharedSecret {
  import opened Prelude
  import opened Text
  import opened Numerals
  import opened ReplayCache
  import Base64

  const NONCE_LEN := 12
  const HMAC_TAG_LEN := 32
  const MAX_TIMESTAMP_DIGITS := 20
  const TOKEN_SEPARATOR_COUNT := 4

  function UnpaddedLength(byteLen: nat): nat {
    (byteLen * 4 + 2) / 3
  }

  const NONCE_B64_LEN := UnpaddedLength(NONCE_LEN)
  const HMAC_TAG_B64_LEN := UnpaddedLength(HMAC_TAG_LEN)

  datatype AuthError = TokenMalformed | TokenInvalid | Base64DecodeError | TokenInvalidReplay

  /** The HMAC tag of a message under the shared secret. */
  type Mac = string -> seq<byte>

  /** A verifier's fixed settings; times in seconds. */
  datatype Settings = Settings(
    mac: Mac,
    validityWindow: u64,
    clockSkew: u64,
    replayCacheEnabled: bool,
    replayCacheMax: nat)

  datatype Fields = Fields(id: string, timestamp: u64, nonce: string, claims: string, mac: string)

  // Reading tokens.

  /** `parse_token`: splits the whole text. */
  function ParseToken(text: string): Result<Fields, AuthError> {
    var parts := Split(text, ':');
    if |parts| != 5 then Err(TokenMalformed)
    else
      match ParseU64(parts[1])
      case None => Err(TokenMalformed)
      case Some(ts) => Ok(Fields(parts[0], ts, parts[2], parts[3], parts[4]))
  }

  /** The shape check of `try_verify`: cuts at the last colon, then in at most four. */
  function SliceToken(text: string): Result<(string, Fields), AuthError> {
    match RFind(text, ':')
    case None => Err(TokenMalformed)
    case Some(lastColon) => SliceMessage(text[..lastColon], text[lastColon + 1..])
  }

  function SliceMessage(message: string, mac: string): Result<(string, Fields), AuthError> {
    var parts := SplitN(message, 4, ':');
    if |parts| < 4 || ':' in parts[3] then Err(TokenMalformed)
    else
      match ParseU64(parts[1])
      case None => Err(TokenMalformed)
      case Some(ts) => Ok((message, Fields(parts[0], ts, parts[2], parts[3], mac)))
  }

  /** Cutting in at most `n` is cutting everywhere, unless there are more parts than `n`. */
  lemma {:induction false} SplitNIsSplit(s: string, n: nat, sep: char)
    requires n > 0
    ensures |Split(s, sep)| <= n ==> SplitN(s, n, sep) == Split(s, sep)
    ensures |Split(s, sep)| > n ==> |SplitN(s, n, sep)| == n && sep in SplitN(s, n, sep)[n - 1]
    decreases n
  {
    SplitWhole(s, sep);
    match Find(s, sep)
    case None =>
    case Some(i) =>
      var front, back := s[..i], s[i + 1..];
      assert s == front + [sep] + back;
      SplitAround(front, back, sep);
      SplitWhole(front, sep);
      if n > 1 {
        SplitNIsSplit(back, n - 1, sep);
      }
  }

  /** The two readers accept the same texts and read the same fields, and what
      precedes the tag is what was signed. */
  lemma ReadersAgree(text: string)
    ensures ParseToken(text) == match SliceToken(text) case Ok((_, fields)) => Ok(fields) case Err(e) => Err(e)
    ensures SliceToken(text).Ok? ==>
              var (message, fields) := SliceToken(text).value; text == message + [':'] + fields.mac
  {
    SplitWhole(text, ':');
    match RFind(text, ':')
    case None =>
    case Some(lastColon) =>
      var message, mac := text[..lastColon], text[lastColon + 1..];
      assert text == message + [':'] + mac;
      SplitAround(message, mac, ':');
      SplitWhole(mac, ':');
      SplitNIsSplit(message, 4, ':');
  }

  // Writing tokens.

  function MessageText(id: string, timestamp: u64, nonce: seq<byte>, claims: string): string {
    Join([id, ToDecimal(timestamp), Base64.EncodeUnpadded(Base64.UrlSafe, nonce), claims], ':')
  }

  function TokenText(mac: Mac, id: string, timestamp: u64, nonce: seq<byte>, claims: string): string {
    var message := MessageText(id, timestamp, nonce, claims);
    message + [':'] + Base64.EncodeUnpadded(Base64.UrlSafe, mac(message))
  }

  function TokenCapacity(id: string, claims: string): nat {
    |id| + TOKEN_SEPARATOR_COUNT + MAX_TIMESTAMP_DIGITS + NONCE_B64_LEN + |claims| + HMAC_TAG_B64_LEN
  }

  /** `get_token_into`: fills the buffer piece by piece and signs what is in it. */
  method GetTokenInto(mac: Mac, id: string, timestamp: u64, nonce: seq<byte>, claims: string) returns (out: string)
    ensures out == TokenText(mac, id, timestamp, nonce, claims)
  {
    out := id;
    out := out + [':'];
    out := out + ToDecimal(timestamp);
    out := out + [':'];
    out := out + Base64.EncodeUnpadded(Base64.UrlSafe, nonce);
    out := out + [':'];
    out := out + claims;
    assert out == MessageText(id, timestamp, nonce, claims) by {
      JoinFour(id, ToDecimal(timestamp), Base64.EncodeUnpadded(Base64.UrlSafe, nonce), claims);
    }
    var tag := mac(out);
    out := out + [':'];
    out := out + Base64.EncodeUnpadded(Base64.UrlSafe, tag);
  }

  lemma JoinFour(a: string, b: string, c: string, d: string)
    ensures Join([a, b, c, d], ':') == a + [':'] + b + [':'] + c + [':'] + d
  {
    assert [c, d][1..] == [d];
    assert Join([c, d], ':') == c + [':'] + d;
    assert [b, c, d][1..] == [c, d];
    assert Join([b, c, d], ':') == b + [':'] + c + [':'] + d;
    assert [a, b, c, d][1..] == [b, c, d];
  }

  /** A token fits the buffer reserved for it. */
  lemma TokenFits(mac: Mac, id: string, timestamp: u64, nonce: seq<byte>, claims: string)
    requires |nonce| == NONCE_LEN && |mac(MessageText(id, timestamp, nonce, claims))| == HMAC_TAG_LEN
    ensures |TokenText(mac, id, timestamp, nonce, claims)| <= TokenCapacity(id, claims)
  {
    var message := MessageText(id, timestamp, nonce, claims);
    JoinFour(id, ToDecimal(timestamp), Base64.EncodeUnpadded(Base64.UrlSafe, nonce), claims);
    DecimalLength(timestamp);
    Base64.UnpaddedRoundTrip(Base64.UrlSafe, nonce);
    Base64.UnpaddedRoundTrip(Base64.UrlSafe, mac(message));
  }

  /** And the longest timestamp fills it. */
  lemma CapacityIsReached(mac: Mac, id: string, nonce: seq<byte>, claims: string)
    requires |nonce| == NONCE_LEN && |mac(MessageText(id, U64_LIMIT - 1, nonce, claims))| == HMAC_TAG_LEN
    ensures |TokenText(mac, id, U64_LIMIT - 1, nonce, claims)| == TokenCapacity(id, claims)
  {
    var message := MessageText(id, U64_LIMIT - 1, nonce, claims);
    JoinFour(id, ToDecimal(U64_LIMIT - 1), Base64.EncodeUnpadded(Base64.UrlSafe, nonce), claims);
    LargestDecimal();
    Base64.UnpaddedRoundTrip(Base64.UrlSafe, nonce);
    Base64.UnpaddedRoundTrip(Base64.UrlSafe, mac(message));
  }

  // Verifying tokens.

  /** `validate_timestamp`. */
  function ValidateTimestamp(settings: Settings, now: u64, ts: u64): Result<(), AuthError> {
    if ts > now then
      if ts - now > settings.clockSkew then Err(TokenInvalid) else Ok(())
    else
      if now - ts > settings.validityWindow then Err(TokenInvalid) else Ok(())
  }

  /** Everything `try_verify` checks before the replay cache: the entry to record. */
  function Authentic(settings: Settings, text: string, now: u64): Result<Entry, AuthError> {
    var (message, fields) :- SliceToken(text);
    var _ :- ValidateTimestamp(settings, now, fields.timestamp);
    if |fields.mac| != HMAC_TAG_B64_LEN then Err(TokenMalformed)
    else
      match Base64.DecodeUnpadded(Base64.UrlSafe, fields.mac)
      case None => Err(Base64DecodeError)
      case Some(tag) =>
        if settings.mac(message) != tag then Err(TokenInvalid)
        else Ok(Entry(fields.nonce, fields.timestamp))
  }

  /** `record_replay` on the cache's queue. */
  function RecordReplay(settings: Settings, order: seq<Entry>, entry: Entry, now: u64)
    : (seq<Entry>, Result<(), AuthError>)
  {
    if !settings.replayCacheEnabled then (order, Ok(()))
    else
      var (order', answer) := Insert(order, settings.replayCacheMax, entry, now, settings.validityWindow);
      (order', if answer.Fresh? then Ok(()) else Err(TokenInvalidReplay))
  }

  /** `try_verify`. */
  function TryVerify(settings: Settings, order: seq<Entry>, text: string, now: u64)
    : (seq<Entry>, Result<(), AuthError>)
  {
    match Authentic(settings, text, now)
    case Err(e) => (order, Err(e))
    case Ok(entry) => RecordReplay(settings, order, entry, now)
  }

  /** A verifier at work: its settings and its replay cache. */
  class Verifier {
    const settings: Settings
    const cache: Cache

    ghost predicate Valid()
      reads cache
    {
      cache.Valid() && cache.maxSize == settings.replayCacheMax
    }

    constructor (settings: Settings)
      ensures Valid() && fresh(cache) && cache.order == [] && this.settings == settings
    {
      this.settings := settings;
      cache := new Cache(settings.replayCacheMax);
    }

    method Verify(text: string, now: u64) returns (r: Result<(), AuthError>)
      requires Valid()
      modifies cache
      ensures Valid()
      ensures (cache.order, r) == TryVerify(settings, old(cache.order), text, now)
    {
      var checked := Authentic(settings, text, now);
      match checked
      case Err(e) => return Err(e);
      case Ok(entry) =>
        if !settings.replayCacheEnabled {
          return Ok(());
        }
        var answer := cache.InsertEntry(entry, now, settings.validityWindow);
        return if answer.Fresh? then Ok(()) else Err(TokenInvalidReplay);
    }
  }

  lemma ColonNotInAlphabet(bytes: seq<byte>)
    ensures ':' !in Base64.EncodeUnpadded(Base64.UrlSafe, bytes)
  {
    Base64.EncodedChars(Base64.UrlSafe, bytes);
  }

  lemma {:induction false} LastColon(message: string, tag: string)
    requires ':' !in tag
    ensures RFind(message + [':'] + tag, ':') == Some(|message|)
    decreases |tag|
  {
    var text := message + [':'] + tag;
    if tag == "" {
      assert text == message + [':'];
    } else {
      var front := tag[..|tag| - 1];
      assert text[..|text| - 1] == message + [':'] + front;
      LastColon(message, front);
    }
  }

  /** Cutting joined fields gives them back, or leaves a separator in the last part when the first field holds one. */
  lemma CutJoined(fields: seq<string>, parts: seq<string>, sep: char)
    requires |fields| > 0 && parts == SplitN(Join(fields, sep), |fields|, sep)
    ensures (forall k :: 0 <= k < |fields| ==> sep !in fields[k]) ==> parts == fields
    ensures sep in fields[0] ==> |parts| == |fields| && sep in parts[|parts| - 1]
  {
    SplitJoin(fields, sep);
    SplitNIsSplit(Join(fields, sep), |fields|, sep);
  }

  lemma SliceParts(message: string, mac: string, parts: seq<string>)
    requires parts == SplitN(message, 4, ':') && |parts| == 4
    ensures ':' in parts[3] ==> SliceMessage(message, mac) == Err(TokenMalformed)
    ensures ':' !in parts[3] && ParseU64(parts[1]).Some? ==>
              SliceMessage(message, mac)
              == Ok((message, Fields(parts[0], ParseU64(parts[1]).value, parts[2], parts[3], mac)))
  {
  }

  /** A message of four fields, the second a timestamp, is read back unless the first field holds a colon. */
  lemma SliceJoined(message: string, fields: seq<string>, timestamp: u64, mac: string)
    requires |fields| == 4 && message == Join(fields, ':') && ParseU64(fields[1]) == Some(timestamp)
    requires forall k :: 1 <= k < 4 ==> ':' !in fields[k]
    ensures ':' in fields[0] ==> SliceMessage(message, mac) == Err(TokenMalformed)
    ensures ':' !in fields[0] ==>
              SliceMessage(message, mac) == Ok((message, Fields(fields[0], timestamp, fields[2], fields[3], mac)))
  {
    var parts := SplitN(message, 4, ':');
    CutJoined(fields, parts, ':');
    SliceParts(message, mac, parts);
    if ':' !in fields[0] {
      assert forall k :: 0 <= k < 4 ==> ':' !in fields[k];
    }
  }

  /** How an issued token is read: an id with a colon makes it unreadable. */
  lemma IssuedIsReadable(mac: Mac, id: string, timestamp: u64, nonce: seq<byte>, claims: string)
    requires ':' !in claims
    ensures var message := MessageText(id, timestamp, nonce, claims);
            var tag := Base64.EncodeUnpadded(Base64.UrlSafe, mac(message));
            SliceToken(TokenText(mac, id, timestamp, nonce, claims)) == (
              if ':' in id then Err(TokenMalformed)
              else Ok((message, Fields(id, timestamp, Base64.EncodeUnpadded(Base64.UrlSafe, nonce), claims, tag))))
  {
    var message := MessageText(id, timestamp, nonce, claims);
    var text := TokenText(mac, id, timestamp, nonce, claims);
    var tag := Base64.EncodeUnpadded(Base64.UrlSafe, mac(message));
    ColonNotInAlphabet(nonce);
    ColonNotInAlphabet(mac(message));
    LastColon(message, tag);
    assert text[..|message|] == message && text[|message| + 1..] == tag;
    ParseDecimal(timestamp);
    DecimalDigits(timestamp);
    SliceJoined(message, [id, ToDecimal(timestamp), Base64.EncodeUnpadded(Base64.UrlSafe, nonce), claims], timestamp,
                tag);
  }

  /** What any instance with the same secret answers to an issued token: it
      verifies unless the id holds a colon, the timestamp is out of the window,
      or the replay cache still holds it. */
  lemma IssuedVerifies(settings: Settings, order: seq<Entry>, id: string, timestamp: u64, nonce: seq<byte>,
                       claims: string, now: u64)
    requires ':' !in claims && |settings.mac(MessageText(id, timestamp, nonce, claims))| == HMAC_TAG_LEN
    ensures var entry := Entry(Base64.EncodeUnpadded(Base64.UrlSafe, nonce), timestamp);
            TryVerify(settings, order, TokenText(settings.mac, id, timestamp, nonce, claims), now).1 == (
              if ':' in id then Err(TokenMalformed)
              else if !InWindow(settings, now, timestamp) then Err(TokenInvalid)
              else if settings.replayCacheEnabled && entry in Purged(order, now, settings.validityWindow)
              then Err(TokenInvalidReplay)
              else Ok(()))
  {
    IssuedIsReadable(settings.mac, id, timestamp, nonce, claims);
    Base64.UnpaddedRoundTrip(Base64.UrlSafe, settings.mac(MessageText(id, timestamp, nonce, claims)));
  }

  // What an accepted token is.

  /** The timestamp is at most the clock skew ahead and the validity window behind. */
  predicate InWindow(settings: Settings, now: u64, timestamp: u64) {
    timestamp <= now + settings.clockSkew && now <= timestamp + settings.validityWindow
  }

  /** The text is four fields without a colon, the second the entry's timestamp and the third its nonce,
      and the tag of exactly those fields; and the timestamp is in the window. */
  predicate GenuineAs(settings: Settings, text: string, now: u64, entry: Entry, id: string, digits: string,
                      claims: string)
  {
    var message := id + ":" + digits + ":" + entry.nonce + ":" + claims;
    && ':' !in id && ':' !in digits && ':' !in entry.nonce && ':' !in claims
    && ParseU64(digits) == Some(entry.timestamp)
    && |settings.mac(message)| == HMAC_TAG_LEN
    && text == message + ":" + Base64.EncodeUnpadded(Base64.UrlSafe, settings.mac(message))
    && InWindow(settings, now, entry.timestamp)
  }

  ghost predicate Genuine(settings: Settings, text: string, now: u64, entry: Entry) {
    exists id: string, digits: string, claims: string :: GenuineAs(settings, text, now, entry, id, digits, claims)
  }

  lemma SlicedMessage(message: string, mac: string) returns (digits: string)
    requires SliceMessage(message, mac).Ok?
    ensures var (m, fields) := SliceMessage(message, mac).value;
            && m == message && fields.mac == mac
            && message == Join([fields.id, digits, fields.nonce, fields.claims], ':')
            && ':' !in fields.id && ':' !in digits && ':' !in fields.nonce && ':' !in fields.claims
            && ParseU64(digits) == Some(fields.timestamp)
  {
    var parts := SplitN(message, 4, ':');
    SplitNIsSplit(message, 4, ':');
    JoinSplit(message, ':');
    digits := parts[1];
    assert Split(message, ':') == parts == [parts[0], digits, parts[2], parts[3]];
  }

  /** Forty-three base64 characters hold 32 bytes. */
  lemma TagLength(tag: seq<byte>)
    ensures |Base64.EncodeUnpadded(Base64.UrlSafe, tag)| == HMAC_TAG_B64_LEN <==> |tag| == HMAC_TAG_LEN
  {
    Base64.UnpaddedRoundTrip(Base64.UrlSafe, tag);
  }

  lemma AuthenticIsGenuine(settings: Settings, text: string, now: u64)
    requires Authentic(settings, text, now).Ok?
    ensures Genuine(settings, text, now, Authentic(settings, text, now).value)
  {
    var entry := Authentic(settings, text, now).value;
    var (message, fields) := SliceToken(text).value;
    ReadersAgree(text);
    var digits := SlicedMessage(message, fields.mac);
    JoinFour(fields.id, digits, fields.nonce, fields.claims);
    Base64.UnpaddedCanonical(Base64.UrlSafe, fields.mac);
    TagLength(settings.mac(message));
    assert GenuineAs(settings, text, now, entry, fields.id, digits, fields.claims);
  }

  /** Four fields and a tag are read back. */
  lemma SliceText(text: string, message: string, fields: seq<string>, timestamp: u64, tag: string)
    requires |fields| == 4 && message == Join(fields, ':') && text == message + [':'] + tag
    requires ParseU64(fields[1]) == Some(timestamp) && ':' !in tag
    requires forall k :: 0 <= k < 4 ==> ':' !in fields[k]
    ensures SliceToken(text) == Ok((message, Fields(fields[0], timestamp, fields[2], fields[3], tag)))
  {
    LastColon(message, tag);
    assert text[..|message|] == message && text[|message| + 1..] == tag;
    SliceJoined(message, fields, timestamp, tag);
  }

  lemma GenuineReads(settings: Settings, text: string, now: u64, entry: Entry, id: string, digits: string,
                     claims: string)
    requires GenuineAs(settings, text, now, entry, id, digits, claims)
    ensures var message := id + ":" + digits + ":" + entry.nonce + ":" + claims;
            var tag := Base64.EncodeUnpadded(Base64.UrlSafe, settings.mac(message));
            SliceToken(text) == Ok((message, Fields(id, entry.timestamp, entry.nonce, claims, tag)))
  {
    var message := id + ":" + digits + ":" + entry.nonce + ":" + claims;
    var mac := settings.mac(message);
    JoinFour(id, digits, entry.nonce, claims);
    ColonNotInAlphabet(mac);
    SliceText(text, message, [id, digits, entry.nonce, claims], entry.timestamp,
              Base64.EncodeUnpadded(Base64.UrlSafe, mac));
  }

  lemma AuthenticWhen(settings: Settings, text: string, now: u64, message: string, fields: Fields)
    requires SliceToken(text) == Ok((message, fields)) && InWindow(settings, now, fields.timestamp)
    requires |fields.mac| == HMAC_TAG_B64_LEN
    requires Base64.DecodeUnpadded(Base64.UrlSafe, fields.mac) == Some(settings.mac(message))
    ensures Authentic(settings, text, now) == Ok(Entry(fields.nonce, fields.timestamp))
  {
  }

  lemma GenuineIsAuthentic(settings: Settings, text: string, now: u64, entry: Entry, id: string, digits: string,
                           claims: string)
    requires GenuineAs(settings, text, now, entry, id, digits, claims)
    ensures Authentic(settings, text, now) == Ok(entry)
  {
    var message := id + ":" + digits + ":" + entry.nonce + ":" + claims;
    var mac := settings.mac(message);
    GenuineReads(settings, text, now, entry, id, digits, claims);
    TagLength(mac);
    Base64.UnpaddedRoundTrip(Base64.UrlSafe, mac);
    AuthenticWhen(settings, text, now, message,
                  Fields(id, entry.timestamp, entry.nonce, claims, Base64.EncodeUnpadded(Base64.UrlSafe, mac)));
  }

  /** A token passes every check but the replay cache's exactly when it carries the tag of its own
      message under the shared secret and its timestamp is in the window. */
  lemma AuthenticIff(settings: Settings, text: string, now: u64, entry: Entry)
    ensures Authentic(settings, text, now) == Ok(entry) <==> Genuine(settings, text, now, entry)
  {
    if Authentic(settings, text, now) == Ok(entry) {
      AuthenticIsGenuine(settings, text, now);
    }
    if id: string, digits: string, claims: string :| GenuineAs(settings, text, now, entry, id, digits, claims) {
      GenuineIsAuthentic(settings, text, now, entry, id, digits, claims);
    }
  }

  /** `try_verify` accepts exactly such tokens, unless replay protection is on and the cache holds the entry. */
  lemma VerifiedIff(settings: Settings, order: seq<Entry>, text: string, now: u64)
    ensures TryVerify(settings, order, text, now).1.Ok? <==>
              exists entry :: Genuine(settings, text, now, entry)
                              && !(settings.replayCacheEnabled && entry in Purged(order, now, settings.validityWindow))
  {
    if TryVerify(settings, order, text, now).1.Ok? {
      AuthenticIff(settings, text, now, Authentic(settings, text, now).value);
    }
    if entry :| Genuine(settings, text, now, entry)
                && !(settings.replayCacheEnabled && entry in Purged(order, now, settings.validityWindow)) {
      AuthenticIff(settings, text, now, entry);
    }
  }

  /** How a token that is not accepted is refused: by its shape as the other reader sees it, its
      timestamp, its tag's length, its tag's encoding and its tag, in that order. */
  lemma RefusedAs(settings: Settings, text: string, now: u64)
    ensures match ParseToken(text)
            case Err(e) => e == TokenMalformed && Authentic(settings, text, now) == Err(TokenMalformed)
            case Ok(fields) =>
              && (!InWindow(settings, now, fields.timestamp) ==> Authentic(settings, text, now) == Err(TokenInvalid))
              && (InWindow(settings, now, fields.timestamp) && |fields.mac| != HMAC_TAG_B64_LEN ==>
                    Authentic(settings, text, now) == Err(TokenMalformed))
              && (InWindow(settings, now, fields.timestamp) && |fields.mac| == HMAC_TAG_B64_LEN ==>
                    match Base64.DecodeUnpadded(Base64.UrlSafe, fields.mac)
                    case None => Authentic(settings, text, now) == Err(Base64DecodeError)
                    case Some(tag) =>
                      Authentic(settings, text, now).Err? ==> Authentic(settings, text, now) == Err(TokenInvalid))
  {
    ReadersAgree(text);
  }
}
