/** The three statements a channel owner signs and the bytes they are signed
    over (crates/channel-manager/src/grant.rs). Text stands for its UTF-8
    bytes, in which only the NUL character encodes to a zero byte. */
module Statements {
  import opened Prelude
  import opened Text
  import opened Numerals

  datatype Action = Add | Delete

  /** An owner's permission for one participant change. */
  datatype Grant = Grant(
    channel: string,
    invitee: string,
    action: Action,
    role: string,
    notAfter: u64,
    nonce: string)

  /** A signed create request; its signer becomes the channel's owner. */
  datatype Creation = Creation(
    audience: string,
    channel: string,
    owner: string,
    mlsEnabled: bool,
    ttlSeconds: Option<u64>,
    callbackName: Option<string>,
    notAfter: u64,
    nonce: string)

  /** A signed delete request. */
  datatype Deletion = Deletion(
    audience: string,
    channel: string,
    notAfter: u64,
    nonce: string)

  datatype Statement =
    | GrantStatement(grant: Grant)
    | CreateStatement(creation: Creation)
    | DeleteStatement(deletion: Deletion)
  {
    function Channel(): string {
      match this
      case GrantStatement(g) => g.channel
      case CreateStatement(c) => c.channel
      case DeleteStatement(d) => d.channel
    }

    function Nonce(): string {
      match this
      case GrantStatement(g) => g.nonce
      case CreateStatement(c) => c.nonce
      case DeleteStatement(d) => d.nonce
    }

    function NotAfter(): u64 {
      match this
      case GrantStatement(g) => g.notAfter
      case CreateStatement(c) => c.notAfter
      case DeleteStatement(d) => d.notAfter
    }
  }

  const NUL := '\0'
  const GRANT_DOMAIN := "SLIM-CHANNEL-GRANT/1"
  const CREATE_DOMAIN := "SLIM-CHANNEL-CREATE/1"
  const DELETE_DOMAIN := "SLIM-CHANNEL-DELETE/1"

  function ActionText(action: Action): string {
    match action
    case Add => "add"
    case Delete => "delete"
  }

  function BoolText(b: bool): string {
    if b then "true" else "false"
  }

  function OptionalU64Text(n: Option<u64>): string {
    if n.Some? then ToDecimal(n.value) else ""
  }

  function OrEmpty(s: Option<string>): string {
    if s.Some? then s.value else ""
  }

  function Domain(s: Statement): string {
    match s
    case GrantStatement(_) => GRANT_DOMAIN
    case CreateStatement(_) => CREATE_DOMAIN
    case DeleteStatement(_) => DELETE_DOMAIN
  }

  /** What follows the domain tag in the signed bytes. */
  function Body(s: Statement): (fields: seq<string>)
    ensures |fields| == match s case GrantStatement(_) => 6 case CreateStatement(_) => 8 case DeleteStatement(_) => 4
  {
    match s
    case GrantStatement(g) =>
      [g.channel, g.invitee, ActionText(g.action), g.role, ToDecimal(g.notAfter), g.nonce]
    case CreateStatement(c) =>
      [c.audience, c.channel, c.owner, BoolText(c.mlsEnabled), OptionalU64Text(c.ttlSeconds),
       OrEmpty(c.callbackName), ToDecimal(c.notAfter), c.nonce]
    case DeleteStatement(d) =>
      [d.audience, d.channel, ToDecimal(d.notAfter), d.nonce]
  }

  /** The bytes a statement is signed over. */
  function Canonical(s: Statement): string {
    Join([Domain(s)] + Body(s), NUL)
  }

  /** The free-text fields `reject_nul` is given. */
  function FreeText(s: Statement): seq<string> {
    match s
    case GrantStatement(g) => [g.channel, g.invitee, g.role, g.nonce]
    case CreateStatement(c) => [c.audience, c.channel, c.owner, OrEmpty(c.callbackName), c.nonce]
    case DeleteStatement(d) => [d.audience, d.channel, d.nonce]
  }

  predicate NulFree(s: Statement) {
    forall k :: 0 <= k < |FreeText(s)| ==> NUL !in FreeText(s)[k]
  }

  /** What the verifier lets through before looking at the signature. */
  predicate Acceptable(s: Statement) {
    NulFree(s) && !(s.CreateStatement? && s.creation.callbackName == Some(""))
  }

  /** The statement with an empty callback name read as none. */
  function Normal(s: Statement): Statement {
    if s.CreateStatement? && s.creation.callbackName == Some("")
    then CreateStatement(s.creation.(callbackName := None))
    else s
  }

  lemma DecimalHasNoNul(n: u64)
    ensures NUL !in ToDecimal(n)
  {
    DecimalDigits(n);
  }

  lemma BodyHasNoNul(s: Statement)
    requires NulFree(s)
    ensures forall k :: 0 <= k < |Body(s)| ==> NUL !in Body(s)[k]
  {
    DecimalHasNoNul(s.NotAfter());
    match s
    case GrantStatement(g) =>
      assert forall k :: 0 <= k < 4 ==> NUL !in FreeText(s)[k];
      assert FreeText(s)[0] == g.channel && FreeText(s)[1] == g.invitee && FreeText(s)[2] == g.role
          && FreeText(s)[3] == g.nonce;
    case CreateStatement(c) =>
      if c.ttlSeconds.Some? {
        DecimalHasNoNul(c.ttlSeconds.value);
      }
      assert FreeText(s)[0] == c.audience && FreeText(s)[1] == c.channel && FreeText(s)[2] == c.owner
          && FreeText(s)[3] == OrEmpty(c.callbackName) && FreeText(s)[4] == c.nonce;
    case DeleteStatement(d) =>
      assert FreeText(s)[0] == d.audience && FreeText(s)[1] == d.channel && FreeText(s)[2] == d.nonce;
  }

  /** The domain tag can be read back from the signed bytes of any statement. */
  lemma DomainReadable(s: Statement)
    ensures Split(Canonical(s), NUL)[0] == Domain(s)
  {
    FirstPart(Domain(s), Body(s), NUL);
  }

  lemma OptionalU64Injective(a: Option<u64>, b: Option<u64>)
    requires OptionalU64Text(a) == OptionalU64Text(b)
    ensures a == b
  {
    if a.Some? {
      DecimalDigits(a.value);
    }
    if b.Some? {
      DecimalDigits(b.value);
    }
    if a.Some? && b.Some? {
      DecimalInjective(a.value, b.value);
    }
  }

  /** Statements of one kind are determined by their fields, up to an empty callback name. */
  lemma BodyInjective(a: Statement, b: Statement)
    requires Domain(a) == Domain(b) && Body(a) == Body(b)
    ensures Normal(a) == Normal(b)
  {
    match a
    case GrantStatement(g) =>
      var h := b.grant;
      DecimalInjective(g.notAfter, h.notAfter);
      assert Body(a)[0] == Body(b)[0] && Body(a)[1] == Body(b)[1] && Body(a)[2] == Body(b)[2]
          && Body(a)[3] == Body(b)[3] && Body(a)[5] == Body(b)[5];
    case CreateStatement(c) =>
      var e := b.creation;
      DecimalInjective(c.notAfter, e.notAfter);
      OptionalU64Injective(c.ttlSeconds, e.ttlSeconds);
      assert Body(a)[0] == Body(b)[0] && Body(a)[1] == Body(b)[1] && Body(a)[2] == Body(b)[2]
          && Body(a)[3] == Body(b)[3] && Body(a)[5] == Body(b)[5] && Body(a)[7] == Body(b)[7];
    case DeleteStatement(d) =>
      var e := b.deletion;
      DecimalInjective(d.notAfter, e.notAfter);
      assert Body(a)[0] == Body(b)[0] && Body(a)[1] == Body(b)[1] && Body(a)[3] == Body(b)[3];
  }

  /** An empty callback name changes nothing in the signed bytes. */
  lemma NormalSameBytes(s: Statement)
    ensures Canonical(Normal(s)) == Canonical(s)
  {
    assert Body(Normal(s)) == Body(s);
  }

  /** The signed encodings are injective and disjoint between kinds: the bytes
      of a statement the verifier lets through are the bytes of that statement
      only, whatever NULs the other one's fields hold, save that an empty
      callback name signs as none. */
  lemma CanonicalInjective(accepted: Statement, signed: Statement)
    requires Acceptable(accepted)
    ensures Canonical(accepted) == Canonical(signed) <==> Normal(signed) == accepted
  {
    if Canonical(accepted) == Canonical(signed) {
      DomainReadable(accepted);
      DomainReadable(signed);
      var clean, other := [Domain(accepted)] + Body(accepted), [Domain(signed)] + Body(signed);
      BodyHasNoNul(accepted);
      assert |clean| == |other|;
      JoinInjective(clean, other, NUL);
      assert clean[1..] == Body(accepted) && other[1..] == Body(signed);
      BodyInjective(accepted, signed);
    }
    NormalSameBytes(signed);
  }

  // The layout of the signed bytes.

  lemma JoinMore(first: string, rest: seq<string>)
    requires rest != []
    ensures Join([first] + rest, NUL) == first + [NUL] + Join(rest, NUL)
  {
    assert ([first] + rest)[1..] == rest;
  }

  /** What follows a field: a NUL and the fields after it. */
  function Then(fields: seq<string>): string {
    if fields == [] then "" else [NUL] + fields[0] + Then(fields[1..])
  }

  lemma {:induction false} JoinIsThen(first: string, rest: seq<string>)
    ensures Join([first] + rest, NUL) == first + Then(rest)
    decreases |rest|
  {
    if rest == [] {
      assert [first] + rest == [first];
    } else {
      JoinMore(first, rest);
      assert rest == [rest[0]] + rest[1..];
      JoinIsThen(rest[0], rest[1..]);
      Regroup(first, rest[0], Then(rest[1..]));
    }
  }

  lemma Regroup(first: string, second: string, rest: string)
    ensures first + [NUL] + (second + rest) == first + ([NUL] + second + rest)
  {
  }

  /** A grant is signed over its channel, invitee, action, role, expiry and nonce, in that order. */
  lemma GrantBytes(g: Grant)
    ensures Canonical(GrantStatement(g))
         == "SLIM-CHANNEL-GRANT/1" + Then([g.channel, g.invitee, if g.action.Add? then "add" else "delete", g.role,
                                           ToDecimal(g.notAfter), g.nonce])
  {
    JoinIsThen(GRANT_DOMAIN, Body(GrantStatement(g)));
  }

  /** A create over its audience, channel, owner, MLS flag, TTL, callback name, expiry and nonce, in that order. */
  lemma CreateBytes(c: Creation)
    ensures Canonical(CreateStatement(c))
         == "SLIM-CHANNEL-CREATE/1"
            + Then([c.audience, c.channel, c.owner, if c.mlsEnabled then "true" else "false",
                    if c.ttlSeconds.Some? then ToDecimal(c.ttlSeconds.value) else "",
                    if c.callbackName.Some? then c.callbackName.value else "", ToDecimal(c.notAfter), c.nonce])
  {
    JoinIsThen(CREATE_DOMAIN, Body(CreateStatement(c)));
  }

  /** A delete over its audience, channel, expiry and nonce, in that order. */
  lemma DeleteBytes(d: Deletion)
    ensures Canonical(DeleteStatement(d))
         == "SLIM-CHANNEL-DELETE/1" + Then([d.audience, d.channel, ToDecimal(d.notAfter), d.nonce])
  {
    JoinIsThen(DELETE_DOMAIN, Body(DeleteStatement(d)));
  }
}
