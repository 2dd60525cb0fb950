/** JWT verification (crates/auth/src/jwt.rs): the loop over candidate keys, the subject
    binding and the cache of verified tokens. Parsing and signature checks are
    parameters. */
module Jwt {
  import opened Prelude
  import opened Text
  import opened KeyIndex
  import Base64
  import DidKey

  type Claims = string

  /** Which claims type the caller asks for. */
  type Shape = string

  datatype IdentityBinding = Off | Warn | Enforce

  datatype JwtError =
    | InvalidSignature
    | Undecodable(reason: string)
    | Expired
    | Immature
    | NotAcceptable(reason: string)
    | SubjectNotOwner
    | NoSuitableKeyForToken
    | WouldBlock
    | MissingIssuer
    | NoKeyResolver

  datatype SignatureOutcome = Valid | Mismatch | Unusable(error: string)

  datatype StandardClaims = StandardClaims(iss: Option<string>, sub: Option<string>)

  /** What a token's text says, and whose signature it carries. */
  datatype Jose = Jose(
    signature: (string, DecodingKey, Algorithm) -> SignatureOutcome,
    header: string -> Result<Header, JwtError>,
    claims: (string, Shape) -> Result<Claims, JwtError>,
    standard: string -> Result<StandardClaims, JwtError>,
    exp: string -> Result<u64, JwtError>,
    /** The expiry and not-before times validation sees. */
    times: string -> (Option<u64>, Option<u64>),
    /** What validation says whatever the time, first of required claims, last of subject, issuer and audience. */
    lacking: string -> Option<JwtError>,
    unacceptable: string -> Option<JwtError>)

  /** The `exp` read for the cache is the one validation reads; an unacceptable token is not a signature mismatch. */
  ghost predicate Coherent(jose: Jose) {
    && (forall token :: jose.exp(token).Ok? ==> jose.times(token).0 == Some(jose.exp(token).value))
    && (forall token :: jose.lacking(token) != Some(InvalidSignature))
    && (forall token :: jose.unacceptable(token) != Some(InvalidSignature))
    && (forall token, shape :: jose.claims(token, shape) != Err(InvalidSignature))
    && (forall token :: jose.exp(token) != Err(InvalidSignature))
    && (forall token :: jose.standard(token) != Err(InvalidSignature))
  }

  /** Where a verifier's keys come from: one configured key, or a static trust list. */
  datatype Keys =
    | Configured(key: DecodingKey, algorithm: Algorithm)
    | Static(keys: seq<Jwk>, byKid: map<string, Jwk>)
    | NoKeys

  datatype Settings = Settings(
    jose: Jose,
    convert: Convert,
    keys: Keys,
    binding: Option<IdentityBinding>,
    leeway: u64,
    validateExp: bool,
    validateNbf: bool)

  // One key.

  /** The time and content checks `decode` makes once the signature is valid. */
  function Validate(settings: Settings, token: string, now: u64): Result<(), JwtError> {
    var (exp, nbf) := settings.jose.times(token);
    if settings.jose.lacking(token).Some? then Err(settings.jose.lacking(token).value)
    else if settings.validateExp && exp.Some? && exp.value + settings.leeway < now then Err(Expired)
    else if settings.validateNbf && nbf.Some? && nbf.value > now + settings.leeway then Err(Immature)
    else
      match settings.jose.unacceptable(token)
      case Some(e) => Err(e)
      case None => Ok(())
  }

  /** `decode` with a single algorithm. */
  function Decode(settings: Settings, token: string, candidate: Candidate, now: u64, shape: Shape)
    : Result<Claims, JwtError>
  {
    match settings.jose.signature(token, candidate.key, candidate.algorithm)
    case Mismatch => Err(InvalidSignature)
    case Unusable(e) => Err(Undecodable(e))
    case Valid =>
      var claims :- settings.jose.claims(token, shape);
      var _ :- Validate(settings, token, now);
      Ok(claims)
  }

  /** `check_subject_binding`. */
  function CheckSubjectBinding(settings: Settings, token: string, owner: Option<KeyOwner>): Result<(), JwtError> {
    if settings.binding.None? || owner.None? || settings.binding.value.Off? then Ok(())
    else
      var claims :- settings.jose.standard(token);
      if claims.sub.Some? && owner.value.Owns(claims.sub.value) then Ok(())
      else if settings.binding.value.Enforce? then Err(SubjectNotOwner)
      else Ok(())
  }

  /** `verify_internal` but for the cache: a token let through has an expiry to cache it under. */
  function Attempt(settings: Settings, token: string, candidate: Candidate, now: u64, shape: Shape)
    : Result<Claims, JwtError>
  {
    var claims :- Decode(settings, token, candidate, now, shape);
    var _ :- CheckSubjectBinding(settings, token, candidate.owner);
    var _ :- settings.jose.exp(token);
    Ok(claims)
  }

  // The loop over keys.

  predicate Decisive(r: Result<Claims, JwtError>) {
    r != Err(InvalidSignature)
  }

  /** `verify_with_keys`: only a signature mismatch goes on to the next key. */
  function TryKeys(settings: Settings, token: string, keys: seq<Candidate>, now: u64, shape: Shape, lastErr: JwtError)
    : Result<Claims, JwtError>
  {
    if keys == [] then Err(lastErr)
    else
      var r := Attempt(settings, token, keys[0], now, shape);
      if Decisive(r) then r else TryKeys(settings, token, keys[1..], now, shape, InvalidSignature)
  }

  predicate Decides(settings: Settings, token: string, candidate: Candidate, now: u64, shape: Shape) {
    Decisive(Attempt(settings, token, candidate, now, shape))
  }

  /** Key `i` is the first that decides. */
  predicate DecidesFirst(settings: Settings, token: string, keys: seq<Candidate>, now: u64, shape: Shape, i: int) {
    && 0 <= i < |keys| && Decides(settings, token, keys[i], now, shape)
    && forall j :: 0 <= j < i ==> !Decides(settings, token, keys[j], now, shape)
  }

  predicate NoKeyDecides(settings: Settings, token: string, keys: seq<Candidate>, now: u64, shape: Shape) {
    forall j :: 0 <= j < |keys| ==> !Decides(settings, token, keys[j], now, shape)
  }

  /** The loop's answer is that of the first key that decides. */
  lemma {:induction false} FirstDecides(settings: Settings, token: string, keys: seq<Candidate>, now: u64, shape: Shape,
                                        lastErr: JwtError, i: nat)
    requires DecidesFirst(settings, token, keys, now, shape, i)
    ensures TryKeys(settings, token, keys, now, shape, lastErr) == Attempt(settings, token, keys[i], now, shape)
    decreases |keys|
  {
    if i > 0 {
      assert !Decides(settings, token, keys[0], now, shape);
      FirstDecides(settings, token, keys[1..], now, shape, InvalidSignature, i - 1);
    }
  }

  /** With no key to decide the answer is a signature error, or the initial one if there is no key. */
  lemma {:induction false} NoneDecides(settings: Settings, token: string, keys: seq<Candidate>, now: u64, shape: Shape,
                                       lastErr: JwtError)
    requires NoKeyDecides(settings, token, keys, now, shape)
    ensures TryKeys(settings, token, keys, now, shape, lastErr) == Err(if keys == [] then lastErr else InvalidSignature)
    decreases |keys|
  {
    if keys != [] {
      assert !Decides(settings, token, keys[0], now, shape);
      NoneDecides(settings, token, keys[1..], now, shape, InvalidSignature);
    }
  }

  /** Either no key decides or there is a first that does. */
  lemma {:induction false} FindDecider(settings: Settings, token: string, keys: seq<Candidate>, now: u64, shape: Shape)
    returns (first: Option<nat>)
    ensures first.None? ==> NoKeyDecides(settings, token, keys, now, shape)
    ensures first.Some? ==> DecidesFirst(settings, token, keys, now, shape, first.value)
    decreases |keys|
  {
    if keys == [] {
      first := None;
    } else {
      var n := |keys| - 1;
      var front := keys[..n];
      first := FindDecider(settings, token, front, now, shape);
      if first.None? {
        assert forall j :: 0 <= j < n ==> keys[j] == front[j];
        first := if Decides(settings, token, keys[n], now, shape) then Some(n) else None;
      }
    }
  }

  /** The keys that decide all decide alike. */
  predicate DecidersAgree(settings: Settings, token: string, keys: seq<Candidate>, now: u64, shape: Shape) {
    forall a, b :: a in keys && b in keys
      && Decides(settings, token, a, now, shape) && Decides(settings, token, b, now, shape)
      ==> Attempt(settings, token, a, now, shape) == Attempt(settings, token, b, now, shape)
  }

  ghost predicate OrderIrrelevant(settings: Settings, token: string, keys: seq<Candidate>, now: u64, shape: Shape,
                                  lastErr: JwtError)
  {
    forall other: seq<Candidate> :: multiset(other) == multiset(keys) ==>
      TryKeys(settings, token, other, now, shape, lastErr) == TryKeys(settings, token, keys, now, shape, lastErr)
  }

  lemma AgreeingAnswer(settings: Settings, token: string, keys: seq<Candidate>, other: seq<Candidate>, now: u64,
                       shape: Shape, lastErr: JwtError)
    requires DecidersAgree(settings, token, keys, now, shape) && multiset(other) == multiset(keys)
    ensures TryKeys(settings, token, other, now, shape, lastErr) == TryKeys(settings, token, keys, now, shape, lastErr)
  {
    forall c ensures c in other <==> c in keys {
      assert c in other <==> c in multiset(other);
      assert c in keys <==> c in multiset(keys);
    }
    assert |other| == |multiset(other)| == |multiset(keys)| == |keys|;
    var mine := FindDecider(settings, token, keys, now, shape);
    if mine.None? {
      NoneDecides(settings, token, keys, now, shape, lastErr);
      forall j | 0 <= j < |other| ensures !Decides(settings, token, other[j], now, shape) {
        assert other[j] in keys;
      }
      NoneDecides(settings, token, other, now, shape, lastErr);
    } else {
      FirstDecides(settings, token, keys, now, shape, lastErr, mine.value);
      assert keys[mine.value] in other;
      var theirs := FindDecider(settings, token, other, now, shape);
      FirstDecides(settings, token, other, now, shape, lastErr, theirs.value);
      assert other[theirs.value] in keys;
    }
  }

  /** The same keys, one of them moved to the front. */
  lemma MovedFirst(keys: seq<Candidate>, c: Candidate) returns (moved: seq<Candidate>)
    requires c in keys
    ensures multiset(moved) == multiset(keys) && moved != [] && moved[0] == c
  {
    var i :| 0 <= i < |keys| && keys[i] == c;
    moved := [c] + (keys[..i] + keys[i + 1..]);
    assert keys == keys[..i] + [c] + keys[i + 1..];
  }

  /** The answer is the same in whatever order the keys are tried exactly when all keys that decide agree. */
  lemma OrderIrrelevantIff(settings: Settings, token: string, keys: seq<Candidate>, now: u64, shape: Shape,
                           lastErr: JwtError)
    ensures OrderIrrelevant(settings, token, keys, now, shape, lastErr)
        <==> DecidersAgree(settings, token, keys, now, shape)
  {
    if DecidersAgree(settings, token, keys, now, shape) {
      forall other: seq<Candidate> | multiset(other) == multiset(keys)
        ensures TryKeys(settings, token, other, now, shape, lastErr)
            == TryKeys(settings, token, keys, now, shape, lastErr)
      {
        AgreeingAnswer(settings, token, keys, other, now, shape, lastErr);
      }
    }
    if OrderIrrelevant(settings, token, keys, now, shape, lastErr) {
      forall c | c in keys && Decides(settings, token, c, now, shape)
        ensures Attempt(settings, token, c, now, shape) == TryKeys(settings, token, keys, now, shape, lastErr)
      {
        var moved := MovedFirst(keys, c);
        FirstDecides(settings, token, moved, now, shape, lastErr, 0);
      }
    }
  }

  method VerifyWithKeys(settings: Settings, token: string, keys: seq<Candidate>, now: u64, shape: Shape)
    returns (r: Result<Claims, JwtError>)
    ensures r == TryKeys(settings, token, keys, now, shape, NoSuitableKeyForToken)
  {
    var lastErr := NoSuitableKeyForToken;
    for i := 0 to |keys|
      invariant TryKeys(settings, token, keys[i..], now, shape, lastErr)
             == TryKeys(settings, token, keys, now, shape, NoSuitableKeyForToken)
    {
      assert keys[i..][1..] == keys[i + 1..];
      var attempt := Attempt(settings, token, keys[i], now, shape);
      if attempt != Err(InvalidSignature) {
        return attempt;
      }
      lastErr := InvalidSignature;
    }
    return Err(lastErr);
  }

  // Choosing keys, and the whole check without a cache.

  function DecodingKeys(settings: Settings, token: string): Result<seq<Candidate>, JwtError> {
    match settings.keys
    case Configured(key, algorithm) => Ok([Candidate(key, algorithm, None)])
    case NoKeys => Err(NoKeyResolver)
    case Static(keys, byKid) =>
      var claims :- settings.jose.standard(token);
      var header :- settings.jose.header(token);
      if claims.iss.None? then Err(MissingIssuer)
      else
        match Candidates(settings.convert, keys, byKid, header, true)
        case Ok(candidates) => Ok(candidates)
        case Err(_) => Err(WouldBlock)
  }

  /** What `try_verify_claims` answers without its cache. */
  function VerifyUncached(settings: Settings, token: string, now: u64, shape: Shape): Result<Claims, JwtError> {
    var keys :- DecodingKeys(settings, token);
    TryKeys(settings, token, keys, now, shape, NoSuitableKeyForToken)
  }

  /** The key a token's `kid` names, as a candidate. */
  function Named(settings: Settings, byKid: map<string, Jwk>, header: Header): Result<Candidate, KeyError>
    requires header.kid.Some? && header.kid.value in byKid
  {
    CandidateOf(settings.convert, byKid[header.kid.value], header.alg, true)
  }

  /** The keys of a trust list the loop goes through without the index. */
  function Unindexed(settings: Settings, keys: seq<Jwk>, header: Header): seq<Candidate> {
    var matching := Matching(settings.convert, keys, header, true);
    if matching.Ok? then matching.value else []
  }

  predicate AllConvert(settings: Settings, keys: seq<Jwk>, header: Header) {
    forall i :: 0 <= i < |keys| && AlgorithmMatches(keys[i], header) ==> settings.convert(keys[i]).Some?
  }

  /** The token's `kid` is in the index, under a key of the token's algorithm. */
  ghost predicate NamesKey(keys: seq<Jwk>, byKid: map<string, Jwk>, header: Header) {
    && Indexes(byKid, keys) && header.kid.Some? && header.kid.value in byKid
    && AlgorithmMatches(byKid[header.kid.value], header)
  }

  /** The named key is what the index offers, and one of those without it. */
  lemma NamedIsCandidate(settings: Settings, keys: seq<Jwk>, byKid: map<string, Jwk>, header: Header)
    requires NamesKey(keys, byKid, header) && AllConvert(settings, keys, header)
    ensures var named := Named(settings, byKid, header);
            && named.Ok? && named.value in Unindexed(settings, keys, header)
            && Candidates(settings.convert, keys, byKid, header, true) == Ok([named.value])
  {
    var jwk := byKid[header.kid.value];
    assert IsFirst(keys, header.kid.value, jwk);
    var i :| FirstWithKid(keys, header.kid.value, i) && keys[i] == jwk;
    MatchingHolds(settings.convert, keys, header, true);
  }

  /** The indexed fast path answers as the loop over every key of the token's
      algorithm does, when the key its `kid` names has that algorithm and is
      among the keys that decide, if any does. */
  lemma FastPathAgrees(settings: Settings, token: string, keys: seq<Jwk>, byKid: map<string, Jwk>, header: Header,
                       now: u64, shape: Shape)
    requires NamesKey(keys, byKid, header) && AllConvert(settings, keys, header)
    requires DecidersAgree(settings, token, Unindexed(settings, keys, header), now, shape)
    requires forall c, named :: c in Unindexed(settings, keys, header) && Decides(settings, token, c, now, shape)
                                && Named(settings, byKid, header) == Ok(named) ==>
               Decides(settings, token, named, now, shape)
    ensures Candidates(settings.convert, keys, byKid, header, true).Ok?
    ensures TryKeys(settings, token, Candidates(settings.convert, keys, byKid, header, true).value, now, shape,
                    NoSuitableKeyForToken)
         == TryKeys(settings, token, Unindexed(settings, keys, header), now, shape, NoSuitableKeyForToken)
  {
    var named, all := Named(settings, byKid, header).value, Unindexed(settings, keys, header);
    NamedIsCandidate(settings, keys, byKid, header);
    var first := FindDecider(settings, token, all, now, shape);
    if first.None? {
      NoneDecides(settings, token, all, now, shape, NoSuitableKeyForToken);
      NoneDecides(settings, token, [named], now, shape, NoSuitableKeyForToken);
    } else {
      assert all[first.value] in all;
      FirstDecides(settings, token, all, now, shape, NoSuitableKeyForToken, first.value);
      FirstDecides(settings, token, [named], now, shape, NoSuitableKeyForToken, 0);
    }
  }

  /** The key does not fail the token's signature. */
  predicate Checks(settings: Settings, token: string, c: Candidate) {
    !settings.jose.signature(token, c.key, c.algorithm).Mismatch?
  }

  /** When at most one key checks the token's signature, the keys may be tried in any order. */
  lemma OneSignerAnyOrder(settings: Settings, token: string, keys: seq<Candidate>, now: u64, shape: Shape,
                          lastErr: JwtError)
    requires Coherent(settings.jose)
    requires forall a, b :: a in keys && b in keys && Checks(settings, token, a) && Checks(settings, token, b) ==>
               a == b
    ensures OrderIrrelevant(settings, token, keys, now, shape, lastErr)
  {
    forall c | c in keys ensures Decides(settings, token, c, now, shape) <==> Checks(settings, token, c) {
      OnlyMismatchGoesOn(settings, token, c, now, shape);
    }
    OrderIrrelevantIff(settings, token, keys, now, shape, lastErr);
  }

  /** When no key of the token's algorithm but the one its `kid` names checks its
      signature, the keys may be tried in any order and the index gives the answer of each. */
  lemma NamedSignerFastPath(settings: Settings, token: string, keys: seq<Jwk>, byKid: map<string, Jwk>, header: Header,
                            now: u64, shape: Shape, other: seq<Candidate>)
    requires Coherent(settings.jose) && NamesKey(keys, byKid, header) && AllConvert(settings, keys, header)
    requires forall c :: c in Unindexed(settings, keys, header) && Checks(settings, token, c) ==>
               Named(settings, byKid, header) == Ok(c)
    requires multiset(other) == multiset(Unindexed(settings, keys, header))
    ensures Candidates(settings.convert, keys, byKid, header, true).Ok?
    ensures TryKeys(settings, token, Candidates(settings.convert, keys, byKid, header, true).value, now, shape,
                    NoSuitableKeyForToken)
         == TryKeys(settings, token, other, now, shape, NoSuitableKeyForToken)
  {
    var all := Unindexed(settings, keys, header);
    OneSignerAnyOrder(settings, token, all, now, shape, NoSuitableKeyForToken);
    forall c | c in all ensures Decides(settings, token, c, now, shape) <==> Checks(settings, token, c) {
      OnlyMismatchGoesOn(settings, token, c, now, shape);
    }
    FastPathAgrees(settings, token, keys, byKid, header, now, shape);
  }

  // The token cache.

  /** Verified tokens and when they expire. */
  type TokenCache = map<string, u64>

  predicate CacheHit(cache: TokenCache, token: string, now: u64) {
    token in cache && cache[token] > now && |Split(token, '.')| == 3
  }

  /** `try_verify_claims`: the answer and the cache afterwards. */
  function TryVerifyClaims(settings: Settings, cache: TokenCache, token: string, now: u64, shape: Shape)
    : (Result<Claims, JwtError>, TokenCache)
  {
    if CacheHit(cache, token, now) && settings.jose.claims(token, shape).Ok? then
      (settings.jose.claims(token, shape), cache)
    else
      var r := VerifyUncached(settings, token, now, shape);
      (r, if r.Ok? && settings.jose.exp(token).Ok? then cache[token := settings.jose.exp(token).value] else cache)
  }

  class JwtVerifier {
    const settings: Settings
    var cache: TokenCache

    constructor (settings: Settings)
      ensures this.settings == settings && cache == map[]
    {
      this.settings := settings;
      cache := map[];
    }

    /** `try_verify_claims`. */
    method TryVerify(token: string, now: u64, shape: Shape) returns (r: Result<Claims, JwtError>)
      modifies this
      ensures (r, cache) == TryVerifyClaims(settings, old(cache), token, now, shape)
    {
      if CacheHit(cache, token, now) {
        var claims := settings.jose.claims(token, shape);
        if claims.Ok? {
          return claims;
        }
      }
      var keys := DecodingKeys(settings, token);
      if keys.Err? {
        return Err(keys.error);
      }
      r := VerifyWithKeys(settings, token, keys.value, now, shape);
      if r.Ok? {
        var exp := settings.jose.exp(token);
        if exp.Ok? {
          cache := cache[token := exp.value];
        }
      }
    }
  }

  // Runs of a verifier whose keys do not change.

  /** A cached token passed every check at some time up to `clock`: validation,
      the signature under a candidate key before which all others mismatch, and
      that key's subject binding. */
  ghost predicate Vouched(settings: Settings, token: string, expiry: u64, clock: u64) {
    && settings.jose.exp(token) == Ok(expiry)
    && DecodingKeys(settings, token).Ok?
    && (exists n: u64 :: n <= clock && Validate(settings, token, n).Ok?)
    && (exists i :: SignedAndBound(settings, token, DecodingKeys(settings, token).value, i))
  }

  predicate SignedAndBound(settings: Settings, token: string, keys: seq<Candidate>, i: int) {
    && 0 <= i < |keys|
    && settings.jose.signature(token, keys[i].key, keys[i].algorithm).Valid?
    && CheckSubjectBinding(settings, token, keys[i].owner).Ok?
    && (forall j :: 0 <= j < i ==> settings.jose.signature(token, keys[j].key, keys[j].algorithm).Mismatch?)
  }

  ghost predicate AllVouched(settings: Settings, cache: TokenCache, clock: u64) {
    forall token :: token in cache ==> Vouched(settings, token, cache[token], clock)
  }

  lemma OnlyMismatchGoesOn(settings: Settings, token: string, candidate: Candidate, now: u64, shape: Shape)
    requires Coherent(settings.jose)
    ensures Decides(settings, token, candidate, now, shape) <==>
              !settings.jose.signature(token, candidate.key, candidate.algorithm).Mismatch?
  {
  }

  /** A token let through the uncached check is vouched for from then on. */
  lemma AcceptedIsVouched(settings: Settings, token: string, now: u64, shape: Shape)
    requires Coherent(settings.jose) && VerifyUncached(settings, token, now, shape).Ok?
    ensures settings.jose.exp(token).Ok? && Vouched(settings, token, settings.jose.exp(token).value, now)
    ensures VerifyUncached(settings, token, now, shape) == settings.jose.claims(token, shape)
  {
    var keys := DecodingKeys(settings, token).value;
    var first := FindDecider(settings, token, keys, now, shape);
    if first.None? {
      NoneDecides(settings, token, keys, now, shape, NoSuitableKeyForToken);
    }
    var i := first.value;
    FirstDecides(settings, token, keys, now, shape, NoSuitableKeyForToken, i);
    forall j | 0 <= j < i ensures settings.jose.signature(token, keys[j].key, keys[j].algorithm).Mismatch? {
      OnlyMismatchGoesOn(settings, token, keys[j], now, shape);
    }
    assert SignedAndBound(settings, token, keys, i);
    assert Validate(settings, token, now).Ok?;
  }

  lemma ValidStays(settings: Settings, token: string, expiry: u64, n: u64, now: u64)
    requires Coherent(settings.jose) && settings.jose.exp(token) == Ok(expiry)
    requires Validate(settings, token, n).Ok? && n <= now < expiry
    ensures Validate(settings, token, now).Ok?
  {
  }

  /** A vouched token that has not expired passes the uncached check, for every claims type that parses. */
  lemma VouchedIsAccepted(settings: Settings, token: string, expiry: u64, clock: u64, now: u64, shape: Shape)
    requires Coherent(settings.jose) && Vouched(settings, token, expiry, clock) && clock <= now < expiry
    requires settings.jose.claims(token, shape).Ok?
    ensures VerifyUncached(settings, token, now, shape) == settings.jose.claims(token, shape)
  {
    var keys := DecodingKeys(settings, token).value;
    var n: u64 :| n <= clock && Validate(settings, token, n).Ok?;
    var i :| SignedAndBound(settings, token, keys, i);
    ValidStays(settings, token, expiry, n, now);
    forall j | 0 <= j < i ensures !Decides(settings, token, keys[j], now, shape) {
      OnlyMismatchGoesOn(settings, token, keys[j], now, shape);
    }
    FirstDecides(settings, token, keys, now, shape, NoSuitableKeyForToken, i);
  }

  /** One call: the cache changes no answer and only takes in vouched tokens. */
  lemma CallAgrees(settings: Settings, cache: TokenCache, clock: u64, token: string, now: u64, shape: Shape)
    requires Coherent(settings.jose) && AllVouched(settings, cache, clock) && clock <= now
    ensures var (r, cache') := TryVerifyClaims(settings, cache, token, now, shape);
            r == VerifyUncached(settings, token, now, shape) && AllVouched(settings, cache', now)
  {
    forall t | t in cache ensures Vouched(settings, t, cache[t], now) {
      assert Vouched(settings, t, cache[t], clock);
      var n: u64 :| n <= clock && Validate(settings, t, n).Ok?;
      assert n <= now;
    }
    if CacheHit(cache, token, now) && settings.jose.claims(token, shape).Ok? {
      VouchedIsAccepted(settings, token, cache[token], clock, now, shape);
    } else if VerifyUncached(settings, token, now, shape).Ok? {
      AcceptedIsVouched(settings, token, now, shape);
    }
  }

  datatype Call = Call(token: string, shape: Shape, now: u64)

  function CacheAfter(settings: Settings, calls: seq<Call>): TokenCache
    decreases |calls|
  {
    if calls == [] then map[]
    else
      var last := calls[|calls| - 1];
      TryVerifyClaims(settings, CacheAfter(settings, calls[..|calls| - 1]), last.token, last.now, last.shape).1
  }

  predicate ClockOk(calls: seq<Call>) {
    forall i, j :: 0 <= i < j < |calls| ==> calls[i].now <= calls[j].now
  }

  function ClockAfter(calls: seq<Call>): u64 {
    if calls == [] then 0 else calls[|calls| - 1].now
  }

  /** In every run every cached token has passed the signature check and the subject binding. */
  lemma {:induction false} CachedTokensVouched(settings: Settings, calls: seq<Call>)
    requires Coherent(settings.jose) && ClockOk(calls)
    ensures AllVouched(settings, CacheAfter(settings, calls), ClockAfter(calls))
    decreases |calls|
  {
    if calls != [] {
      var front, last := calls[..|calls| - 1], calls[|calls| - 1];
      CachedTokensVouched(settings, front);
      CallAgrees(settings, CacheAfter(settings, front), ClockAfter(front), last.token, last.now, last.shape);
    }
  }

  /** In every run the verifier with its cache answers every call as one without. */
  lemma CacheUnnoticed(settings: Settings, calls: seq<Call>)
    requires Coherent(settings.jose) && ClockOk(calls)
    ensures forall i :: 0 <= i < |calls| ==>
              TryVerifyClaims(settings, CacheAfter(settings, calls[..i]), calls[i].token, calls[i].now,
                              calls[i].shape).0
              == VerifyUncached(settings, calls[i].token, calls[i].now, calls[i].shape)
  {
    forall i | 0 <= i < |calls|
      ensures TryVerifyClaims(settings, CacheAfter(settings, calls[..i]), calls[i].token, calls[i].now,
                              calls[i].shape).0
           == VerifyUncached(settings, calls[i].token, calls[i].now, calls[i].shape)
    {
      CachedTokensVouched(settings, calls[..i]);
      CallAgrees(settings, CacheAfter(settings, calls[..i]), ClockAfter(calls[..i]), calls[i].token, calls[i].now,
                 calls[i].shape);
    }
  }

  // What is accepted, and on whose word.

  /** What each setting of the binding asks of a token verified with a key of this owner. */
  predicate BoundTo(settings: Settings, token: string, owner: Option<KeyOwner>) {
    settings.binding.Some? && owner.Some? && !settings.binding.value.Off? ==>
      && settings.jose.standard(token).Ok?
      && (settings.binding.value.Enforce? ==>
            var sub := settings.jose.standard(token).value.sub;
            sub.Some? && owner.value.Owns(sub.value))
  }

  /** An enforced binding holds the subject to the key's owner; `Off` asks nothing and `Warn` only that
      the standard claims decode. */
  lemma BindingIff(settings: Settings, token: string, owner: Option<KeyOwner>)
    ensures CheckSubjectBinding(settings, token, owner).Ok? <==> BoundTo(settings, token, owner)
    ensures settings.jose.standard(token).Ok? && CheckSubjectBinding(settings, token, owner).Err? ==>
              CheckSubjectBinding(settings, token, owner) == Err(SubjectNotOwner)
  {
  }

  /** The token's own times and contents, give or take the leeway. */
  predicate Current(settings: Settings, token: string, now: u64) {
    var (exp, nbf) := settings.jose.times(token);
    && settings.jose.lacking(token).None? && settings.jose.unacceptable(token).None?
    && (settings.validateExp && exp.Some? ==> now <= exp.value + settings.leeway)
    && (settings.validateNbf && nbf.Some? ==> nbf.value <= now + settings.leeway)
  }

  lemma CurrentIff(settings: Settings, token: string, now: u64)
    ensures Validate(settings, token, now).Ok? <==> Current(settings, token, now)
  {
  }

  /** The key vouches for the token, which is current, readable and bound to the key's owner. */
  predicate Admits(settings: Settings, token: string, c: Candidate, now: u64, shape: Shape) {
    && settings.jose.signature(token, c.key, c.algorithm).Valid?
    && settings.jose.claims(token, shape).Ok? && settings.jose.exp(token).Ok?
    && Current(settings, token, now) && BoundTo(settings, token, c.owner)
  }

  lemma AdmitsIff(settings: Settings, token: string, c: Candidate, now: u64, shape: Shape)
    ensures Attempt(settings, token, c, now, shape).Ok? <==> Admits(settings, token, c, now, shape)
    ensures Attempt(settings, token, c, now, shape).Ok? ==>
              Attempt(settings, token, c, now, shape) == settings.jose.claims(token, shape)
  {
    CurrentIff(settings, token, now);
    BindingIff(settings, token, c.owner);
  }

  /** The first key that does not fail the signature admits the token. */
  predicate AdmittedBy(settings: Settings, token: string, keys: seq<Candidate>, now: u64, shape: Shape, i: int) {
    && 0 <= i < |keys| && Admits(settings, token, keys[i], now, shape)
    && forall j :: 0 <= j < i ==> settings.jose.signature(token, keys[j].key, keys[j].algorithm).Mismatch?
  }

  /** A token is accepted, with the claims it holds, exactly when there are keys for it and the first of them that does
      not fail its signature admits it. */
  lemma AcceptedIff(settings: Settings, token: string, now: u64, shape: Shape)
    requires Coherent(settings.jose)
    ensures VerifyUncached(settings, token, now, shape).Ok? <==>
              && DecodingKeys(settings, token).Ok?
              && exists i :: AdmittedBy(settings, token, DecodingKeys(settings, token).value, now, shape, i)
    ensures VerifyUncached(settings, token, now, shape).Ok? ==>
              VerifyUncached(settings, token, now, shape) == settings.jose.claims(token, shape)
  {
    if DecodingKeys(settings, token).Ok? {
      var keys := DecodingKeys(settings, token).value;
      forall j | 0 <= j < |keys|
        ensures Decides(settings, token, keys[j], now, shape) <==> Checks(settings, token, keys[j])
      {
        OnlyMismatchGoesOn(settings, token, keys[j], now, shape);
      }
      var first := FindDecider(settings, token, keys, now, shape);
      if first.None? {
        NoneDecides(settings, token, keys, now, shape, NoSuitableKeyForToken);
      } else {
        FirstDecides(settings, token, keys, now, shape, NoSuitableKeyForToken, first.value);
        AdmitsIff(settings, token, keys[first.value], now, shape);
        if VerifyUncached(settings, token, now, shape).Ok? {
          assert AdmittedBy(settings, token, keys, now, shape, first.value);
        }
      }
    }
  }

  /** Where the keys for a token come from. */
  lemma KeysFrom(settings: Settings, token: string, candidates: seq<Candidate>)
    ensures DecodingKeys(settings, token) == Ok(candidates) <==>
              match settings.keys
              case NoKeys => false
              case Configured(key, algorithm) => candidates == [Candidate(key, algorithm, None)]
              case Static(keys, byKid) =>
                && settings.jose.standard(token).Ok? && settings.jose.standard(token).value.iss.Some?
                && settings.jose.header(token).Ok?
                && Candidates(settings.convert, keys, byKid, settings.jose.header(token).value, true) == Ok(candidates)
  {
  }

  /** A key of the trust list whose own algorithm verifies the token and whose `kid` or did:key is its subject. */
  predicate OwnToken(settings: Settings, token: string, jwk: Jwk) {
    && jwk.alg.Some? && jwk.alg.value.Signing? && settings.convert(jwk).Some?
    && settings.jose.signature(token, settings.convert(jwk).value, jwk.alg.value.algorithm).Valid?
    && settings.jose.standard(token).Ok? && settings.jose.standard(token).value.sub.Some?
    && (|| jwk.kid == settings.jose.standard(token).value.sub
        || (&& jwk.parameters.Ed25519? && DidKey.Decode(settings.jose.standard(token).value.sub.value).Some?
            && Base64.DecodeUnpadded(Base64.UrlSafe, jwk.parameters.x)
               == DidKey.Decode(settings.jose.standard(token).value.sub.value)))
  }

  ghost predicate OwnedByPeer(settings: Settings, token: string) {
    && settings.keys.Static?
    && exists i :: 0 <= i < |settings.keys.keys| && OwnToken(settings, token, settings.keys.keys[i])
  }

  lemma BoundIsOwned(settings: Settings, token: string, i: int)
    requires settings.keys.Static? && Indexes(settings.keys.byKid, settings.keys.keys)
    requires settings.binding == Some(Enforce) && DecodingKeys(settings, token).Ok?
    requires SignedAndBound(settings, token, DecodingKeys(settings, token).value, i)
    ensures OwnedByPeer(settings, token)
  {
    var c := DecodingKeys(settings, token).value[i];
    var header := settings.jose.header(token).value;
    KeysFrom(settings, token, DecodingKeys(settings, token).value);
    CandidatesAreKeys(settings.convert, settings.keys.keys, settings.keys.byKid, header, true);
    assert c in DecodingKeys(settings, token).value;
    var k :| 0 <= k < |settings.keys.keys| && IsKey(settings.convert, settings.keys.keys[k], c, true);
    BindingIff(settings, token, c.owner);
    OwnsExactly(settings.keys.keys[k], settings.jose.standard(token).value.sub.value);
    assert OwnToken(settings, token, settings.keys.keys[k]);
  }

  /** With the binding enforced, a token accepted from a trust list is one whose subject is a peer that signed it. */
  lemma EnforcedIsOwned(settings: Settings, token: string, now: u64, shape: Shape)
    requires Coherent(settings.jose) && settings.binding == Some(Enforce)
    requires settings.keys.Static? && Indexes(settings.keys.byKid, settings.keys.keys)
    requires VerifyUncached(settings, token, now, shape).Ok?
    ensures OwnedByPeer(settings, token)
  {
    AcceptedIsVouched(settings, token, now, shape);
    var i :| SignedAndBound(settings, token, DecodingKeys(settings, token).value, i);
    BoundIsOwned(settings, token, i);
  }

  /** And so is every token in the cache, in every run. */
  lemma CachedAreOwned(settings: Settings, calls: seq<Call>, token: string)
    requires Coherent(settings.jose) && ClockOk(calls) && settings.binding == Some(Enforce)
    requires settings.keys.Static? && Indexes(settings.keys.byKid, settings.keys.keys)
    requires token in CacheAfter(settings, calls)
    ensures OwnedByPeer(settings, token)
  {
    CachedTokensVouched(settings, calls);
    var i :| SignedAndBound(settings, token, DecodingKeys(settings, token).value, i);
    BoundIsOwned(settings, token, i);
  }

  /** An accepted token is cached until it expires, and nothing else is added or dropped. */
  lemma AcceptedIsCached(settings: Settings, cache: TokenCache, clock: u64, token: string, now: u64, shape: Shape)
    requires Coherent(settings.jose) && AllVouched(settings, cache, clock)
    ensures var (r, cache') := TryVerifyClaims(settings, cache, token, now, shape);
            && (r.Ok? ==> settings.jose.exp(token).Ok? && cache' == cache[token := settings.jose.exp(token).value])
            && (r.Err? ==> cache' == cache)
  {
    if CacheHit(cache, token, now) {
      assert Vouched(settings, token, cache[token], clock);
      assert cache == cache[token := cache[token]];
    }
    if VerifyUncached(settings, token, now, shape).Ok? {
      AcceptedIsVouched(settings, token, now, shape);
    }
  }
}
