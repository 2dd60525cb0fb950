/** Choosing candidate keys for a token (crates/auth/src/resolver.rs): the `kid` index
    (section 4.5 of RFC 7517) and the fallback to every key of the token's
    algorithm. Converting a JWK to a decoding key is a parameter. */
module KeyIndex {
  import opened Prelude
  import Base64
  import DidKey

  datatype Algorithm =
    | HS256 | HS384 | HS512 | ES256 | ES384 | RS256 | RS384 | RS512 | PS256 | PS384 | PS512 | EdDSA

  /** A JWK's `alg`: a signing algorithm or something else. */
  datatype KeyAlgorithm = Signing(algorithm: Algorithm) | NotForSigning(name: string)

  datatype KeyParameters = Ed25519(x: string) | OtherParameters(text: string)

  datatype Jwk = Jwk(kid: Option<string>, alg: Option<KeyAlgorithm>, parameters: KeyParameters)

  datatype Header = Header(kid: Option<string>, alg: Algorithm)

  datatype DecodingKey = DecodingKey(text: string)

  /** The peer a trust-list key belongs to. */
  datatype KeyOwner = KeyOwner(kid: Option<string>, did: Option<string>) {
    /** `sub` names this key's owner. */
    predicate Owns(sub: string) {
      kid == Some(sub) || did == Some(sub)
    }
  }

  datatype Candidate = Candidate(key: DecodingKey, algorithm: Algorithm, owner: Option<KeyOwner>)

  datatype KeyError = NoSuitableKey | UnsupportedAlgorithm | NotConvertible

  type Convert = Jwk -> Option<DecodingKey>

  function OwnerOf(jwk: Jwk): KeyOwner {
    var did :=
      if !jwk.parameters.Ed25519? then None
      else
        match Base64.DecodeUnpadded(Base64.UrlSafe, jwk.parameters.x)
        case Some(public) => if |public| == DidKey.KEY_LENGTH then Some(DidKey.Of(public)) else None
        case None => None;
    KeyOwner(jwk.kid, did)
  }

  /** An Ed25519 key owns its `kid` and the did:key of its own 32 bytes, and nothing else. */
  lemma OwnsExactly(jwk: Jwk, sub: string)
    ensures OwnerOf(jwk).Owns(sub) <==>
              || jwk.kid == Some(sub)
              || (&& jwk.parameters.Ed25519? && DidKey.Decode(sub).Some?
                  && Base64.DecodeUnpadded(Base64.UrlSafe, jwk.parameters.x) == DidKey.Decode(sub))
  {
    if jwk.parameters.Ed25519? {
      var public := Base64.DecodeUnpadded(Base64.UrlSafe, jwk.parameters.x);
      if public.Some? {
        DidKey.RoundTrip(public.value);
      }
    }
    if DidKey.Decode(sub).Some? {
      DidKey.Canonical(sub);
    }
  }

  // The index.

  /** `i` is the first key carrying `kid`. */
  predicate FirstWithKid(keys: seq<Jwk>, kid: string, i: int) {
    0 <= i < |keys| && keys[i].kid == Some(kid) && forall j :: 0 <= j < i ==> keys[j].kid != Some(kid)
  }

  ghost predicate IsFirst(keys: seq<Jwk>, kid: string, jwk: Jwk) {
    exists i :: FirstWithKid(keys, kid, i) && keys[i] == jwk
  }

  /** The index holds, for every `kid` in the list, the first key carrying it. */
  ghost predicate Indexes(byKid: map<string, Jwk>, keys: seq<Jwk>) {
    && (forall kid :: kid in byKid ==> IsFirst(keys, kid, byKid[kid]))
    && (forall i :: 0 <= i < |keys| && keys[i].kid.Some? ==> keys[i].kid.value in byKid)
  }

  lemma IndexOneMore(byKid: map<string, Jwk>, keys: seq<Jwk>, key: Jwk)
    requires Indexes(byKid, keys)
    ensures Indexes(if key.kid.Some? && key.kid.value !in byKid then byKid[key.kid.value := key] else byKid,
                    keys + [key])
  {
    var all := keys + [key];
    var byKid' := if key.kid.Some? && key.kid.value !in byKid then byKid[key.kid.value := key] else byKid;
    forall kid | kid in byKid' ensures IsFirst(all, kid, byKid'[kid]) {
      if kid in byKid {
        var i :| FirstWithKid(keys, kid, i) && keys[i] == byKid[kid];
        assert FirstWithKid(all, kid, i) && all[i] == keys[i];
      } else {
        assert FirstWithKid(all, kid, |keys|) && all[|keys|] == key;
      }
    }
  }

  /** `JwksCache::new`: the first writer wins. */
  method BuildIndex(keys: seq<Jwk>) returns (byKid: map<string, Jwk>)
    ensures Indexes(byKid, keys)
  {
    byKid := map[];
    for n := 0 to |keys|
      invariant Indexes(byKid, keys[..n])
    {
      var key := keys[n];
      IndexOneMore(byKid, keys[..n], key);
      assert keys[..n + 1] == keys[..n] + [key];
      if key.kid.Some? && key.kid.value !in byKid {
        byKid := byKid[key.kid.value := key];
      }
    }
    assert keys[..|keys|] == keys;
  }

  /** There is only one such index. */
  lemma IndexUnique(a: map<string, Jwk>, b: map<string, Jwk>, keys: seq<Jwk>)
    requires Indexes(a, keys) && Indexes(b, keys)
    ensures a == b
  {
    forall kid | kid in a ensures kid in b && b[kid] == a[kid] {
      SameEntry(a, b, keys, kid);
    }
    forall kid | kid in b ensures kid in a {
      SameEntry(b, a, keys, kid);
    }
  }

  lemma SameEntry(a: map<string, Jwk>, b: map<string, Jwk>, keys: seq<Jwk>, kid: string)
    requires Indexes(a, keys) && Indexes(b, keys) && kid in a
    ensures kid in b && b[kid] == a[kid]
  {
    var i :| FirstWithKid(keys, kid, i) && keys[i] == a[kid];
    assert keys[i].kid.value in b;
    var j :| FirstWithKid(keys, kid, j) && keys[j] == b[kid];
    assert i == j;
  }

  // Candidates.

  function AlgorithmOf(jwk: Jwk): Result<Algorithm, KeyError> {
    match jwk.alg
    case None => Err(NoSuitableKey)
    case Some(NotForSigning(_)) => Err(UnsupportedAlgorithm)
    case Some(Signing(algorithm)) => Ok(algorithm)
  }

  function CandidateOf(convert: Convert, jwk: Jwk, algorithm: Algorithm, peerKeys: bool): Result<Candidate, KeyError> {
    match convert(jwk)
    case None => Err(NotConvertible)
    case Some(key) => Ok(Candidate(key, algorithm, if peerKeys then Some(OwnerOf(jwk)) else None))
  }

  predicate AlgorithmMatches(jwk: Jwk, header: Header) {
    AlgorithmOf(jwk) == Ok(header.alg)
  }

  /** Every key of the token's algorithm, in order; the first that does not convert is an error. */
  function Matching(convert: Convert, keys: seq<Jwk>, header: Header, peerKeys: bool)
    : Result<seq<Candidate>, KeyError>
  {
    if keys == [] then Ok([])
    else
      var n := |keys| - 1;
      var front :- Matching(convert, keys[..n], header, peerKeys);
      if AlgorithmMatches(keys[n], header) then
        var last :- CandidateOf(convert, keys[n], header.alg, peerKeys);
        Ok(front + [last])
      else Ok(front)
  }

  /** `candidates_from_cache`. */
  function Candidates(convert: Convert, keys: seq<Jwk>, byKid: map<string, Jwk>, header: Header, peerKeys: bool)
    : Result<seq<Candidate>, KeyError>
  {
    if header.kid.Some? && header.kid.value in byKid then
      var jwk := byKid[header.kid.value];
      var algorithm :- AlgorithmOf(jwk);
      var candidate :- CandidateOf(convert, jwk, algorithm, peerKeys);
      Ok([candidate])
    else
      var matching :- Matching(convert, keys, header, peerKeys);
      if matching == [] then Err(NoSuitableKey) else Ok(matching)
  }

  method CandidatesFromCache(convert: Convert, keys: seq<Jwk>, byKid: map<string, Jwk>, header: Header, peerKeys: bool)
    returns (r: Result<seq<Candidate>, KeyError>)
    ensures r == Candidates(convert, keys, byKid, header, peerKeys)
  {
    if header.kid.Some? && header.kid.value in byKid {
      var jwk := byKid[header.kid.value];
      var algorithm :- AlgorithmOf(jwk);
      var candidate :- CandidateOf(convert, jwk, algorithm, peerKeys);
      return Ok([candidate]);
    }
    var candidates := [];
    for n := 0 to |keys|
      invariant Matching(convert, keys[..n], header, peerKeys) == Ok(candidates)
    {
      assert keys[..n + 1][..n] == keys[..n];
      if AlgorithmMatches(keys[n], header) {
        var candidate := CandidateOf(convert, keys[n], header.alg, peerKeys);
        if candidate.Err? {
          MatchingFails(convert, keys, n + 1, header, peerKeys);
          return Err(candidate.error);
        }
        candidates := candidates + [candidate.value];
      }
    }
    assert keys[..|keys|] == keys;
    return if candidates == [] then Err(NoSuitableKey) else Ok(candidates);
  }

  lemma {:induction false} MatchingFails(convert: Convert, keys: seq<Jwk>, n: nat, header: Header, peerKeys: bool)
    requires n <= |keys| && Matching(convert, keys[..n], header, peerKeys).Err?
    ensures Matching(convert, keys, header, peerKeys) == Matching(convert, keys[..n], header, peerKeys)
    decreases |keys|
  {
    if n < |keys| {
      var front := keys[..|keys| - 1];
      assert front[..n] == keys[..n];
      MatchingFails(convert, front, n, header, peerKeys);
    } else {
      assert keys[..n] == keys;
    }
  }

  /** When every key of the algorithm converts, the fallback offers exactly those keys. */
  lemma {:induction false} MatchingHolds(convert: Convert, keys: seq<Jwk>, header: Header, peerKeys: bool)
    requires forall i :: 0 <= i < |keys| && AlgorithmMatches(keys[i], header) ==> convert(keys[i]).Some?
    ensures Matching(convert, keys, header, peerKeys).Ok?
    ensures forall c :: c in Matching(convert, keys, header, peerKeys).value <==>
              exists i :: 0 <= i < |keys| && AlgorithmMatches(keys[i], header)
                          && CandidateOf(convert, keys[i], header.alg, peerKeys) == Ok(c)
    decreases |keys|
  {
    if keys != [] {
      var n := |keys| - 1;
      var front := keys[..n];
      MatchingHolds(convert, front, header, peerKeys);
      forall c ensures c in Matching(convert, keys, header, peerKeys).value <==>
                 exists i :: 0 <= i < |keys| && AlgorithmMatches(keys[i], header)
                             && CandidateOf(convert, keys[i], header.alg, peerKeys) == Ok(c)
      {
        if c in Matching(convert, front, header, peerKeys).value {
          var i :| 0 <= i < |front| && AlgorithmMatches(front[i], header)
                   && CandidateOf(convert, front[i], header.alg, peerKeys) == Ok(c);
          assert keys[i] == front[i];
        }
        if i :| 0 <= i < |keys| && AlgorithmMatches(keys[i], header)
                && CandidateOf(convert, keys[i], header.alg, peerKeys) == Ok(c) {
          if i < n {
            assert front[i] == keys[i];
          }
        }
      }
    }
  }

  // Which keys the candidates are.

  /** The candidate is this key, under the key's own algorithm and for the key's own owner. */
  predicate IsKey(convert: Convert, jwk: Jwk, c: Candidate, peerKeys: bool) {
    && jwk.alg == Some(Signing(c.algorithm)) && convert(jwk) == Some(c.key)
    && c.owner == (if peerKeys then Some(OwnerOf(jwk)) else None)
  }

  /** Whatever a token's header says, every candidate is a key of the list under that key's own algorithm. */
  lemma CandidatesAreKeys(convert: Convert, keys: seq<Jwk>, byKid: map<string, Jwk>, header: Header, peerKeys: bool)
    requires Indexes(byKid, keys) && Candidates(convert, keys, byKid, header, peerKeys).Ok?
    ensures var candidates := Candidates(convert, keys, byKid, header, peerKeys).value;
            && candidates != []
            && forall c :: c in candidates ==> exists i :: 0 <= i < |keys| && IsKey(convert, keys[i], c, peerKeys)
  {
    if header.kid.Some? && header.kid.value in byKid {
      var i :| FirstWithKid(keys, header.kid.value, i) && keys[i] == byKid[header.kid.value];
      assert IsKey(convert, keys[i], Candidates(convert, keys, byKid, header, peerKeys).value[0], peerKeys);
    } else {
      MatchingAreKeys(convert, keys, header, peerKeys);
    }
  }

  lemma {:induction false} MatchingAreKeys(convert: Convert, keys: seq<Jwk>, header: Header, peerKeys: bool)
    requires Matching(convert, keys, header, peerKeys).Ok?
    ensures forall c :: c in Matching(convert, keys, header, peerKeys).value ==>
              exists i :: 0 <= i < |keys| && IsKey(convert, keys[i], c, peerKeys) && c.algorithm == header.alg
    decreases |keys|
  {
    if keys != [] {
      var n := |keys| - 1;
      var front := keys[..n];
      MatchingAreKeys(convert, front, header, peerKeys);
      forall c | c in Matching(convert, keys, header, peerKeys).value
        ensures exists i :: 0 <= i < |keys| && IsKey(convert, keys[i], c, peerKeys) && c.algorithm == header.alg
      {
        if c in Matching(convert, front, header, peerKeys).value {
          var i :| 0 <= i < |front| && IsKey(convert, front[i], c, peerKeys) && c.algorithm == header.alg;
          assert IsKey(convert, keys[i], c, peerKeys);
        } else {
          assert IsKey(convert, keys[n], c, peerKeys);
        }
      }
    }
  }

  /** For a token whose `kid` is in the list: the first key carrying it alone, if it is a signing key that
      converts. */
  lemma IndexedCandidate(convert: Convert, keys: seq<Jwk>, byKid: map<string, Jwk>, header: Header, peerKeys: bool,
                         i: int)
    requires Indexes(byKid, keys) && header.kid.Some? && FirstWithKid(keys, header.kid.value, i)
    ensures Candidates(convert, keys, byKid, header, peerKeys)
         == if keys[i].alg.None? then Err(NoSuitableKey)
            else if keys[i].alg.value.NotForSigning? then Err(UnsupportedAlgorithm)
            else if convert(keys[i]).None? then Err(NotConvertible)
            else Ok([Candidate(convert(keys[i]).value, keys[i].alg.value.algorithm,
                               if peerKeys then Some(OwnerOf(keys[i])) else None)])
  {
    var kid := header.kid.value;
    assert keys[i].kid.value in byKid;
    var j :| FirstWithKid(keys, kid, j) && keys[j] == byKid[kid];
    assert i == j;
  }

  /** For any other token: exactly the keys of its algorithm, when these convert. */
  lemma FallbackCandidates(convert: Convert, keys: seq<Jwk>, byKid: map<string, Jwk>, header: Header, peerKeys: bool)
    requires Indexes(byKid, keys)
    requires header.kid.Some? ==> forall i :: 0 <= i < |keys| ==> keys[i].kid != header.kid
    requires forall i :: 0 <= i < |keys| && keys[i].alg == Some(Signing(header.alg)) ==> convert(keys[i]).Some?
    ensures var r := Candidates(convert, keys, byKid, header, peerKeys);
            && (r.Ok? <==> exists i :: 0 <= i < |keys| && keys[i].alg == Some(Signing(header.alg)))
            && (r.Err? ==> r.error == NoSuitableKey)
            && (r.Ok? ==> forall c :: c in r.value <==>
                            c.algorithm == header.alg
                            && exists i :: 0 <= i < |keys| && IsKey(convert, keys[i], c, peerKeys))
  {
    assert header.kid.Some? && header.kid.value in byKid ==> IsFirst(keys, header.kid.value, byKid[header.kid.value]);
    MatchingHolds(convert, keys, header, peerKeys);
    var all := Matching(convert, keys, header, peerKeys).value;
    forall c ensures c in all <==>
               c.algorithm == header.alg && exists i :: 0 <= i < |keys| && IsKey(convert, keys[i], c, peerKeys)
    {
      if c in all {
        MatchingAreKeys(convert, keys, header, peerKeys);
      }
      if c.algorithm == header.alg {
        if i :| 0 <= i < |keys| && IsKey(convert, keys[i], c, peerKeys) {
          assert AlgorithmMatches(keys[i], header) && CandidateOf(convert, keys[i], header.alg, peerKeys) == Ok(c);
        }
      }
    }
    if i :| 0 <= i < |keys| && keys[i].alg == Some(Signing(header.alg)) {
      var c := CandidateOf(convert, keys[i], header.alg, peerKeys).value;
      assert IsKey(convert, keys[i], c, peerKeys) && c in all;
    }
    if all != [] {
      assert all[0] in all;
    }
  }

  /** And these in the order of the list: more keys only add candidates at the end. */
  lemma {:induction false} InListOrder(convert: Convert, keys: seq<Jwk>, n: nat, header: Header, peerKeys: bool)
    requires n <= |keys| && Matching(convert, keys, header, peerKeys).Ok?
    ensures Matching(convert, keys[..n], header, peerKeys).Ok?
    ensures Matching(convert, keys[..n], header, peerKeys).value <= Matching(convert, keys, header, peerKeys).value
    decreases |keys|
  {
    if n < |keys| {
      var front := keys[..|keys| - 1];
      assert front[..n] == keys[..n];
      InListOrder(convert, front, n, header, peerKeys);
    } else {
      assert keys[..n] == keys;
    }
  }
}
