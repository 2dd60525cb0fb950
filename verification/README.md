# SLIM authorization: a verified model

A Dafny model of how SLIM's channel manager and authentication crate decide
whom to let through, and proofs of what those decisions guarantee over every
run. Verify it with `dafny verify dfyconfig.toml`.

What is modelled, and the main result about each part:

* **Signed statements** (`Statements`, `Verifier`): grants, create and delete
  requests, the NUL-joined bytes they are signed over, signing and verifying.
  The encodings are injective and disjoint even against fields holding NULs,
  save that an empty callback name signs as none.
* **Channel manager** (`Policy`, `Manager`, `Server`, `Store`, `Nonces`,
  `Ownership`, `Expiry`, `Sessions`, `Names`): the handlers, the reaper,
  startup and the write-through store, as classes proved against functions on
  a state; exactly when each request succeeds, what it does and what was
  signed for it (`Answers`). Over whole runs with store failures, crashes and
  restarts: no signed statement authorizes twice and each authorization is one
  the entitled key signed (`AuthorizationRuns`); memory stays on disk, and exact
  conditions for records to stay within the live channels and to survive
  restarts (`RecordRuns`), for channels to keep the owners they were created
  with and for nothing to outlive its TTL (`PromiseRuns`); one of any number of
  racing creates wins, whatever fails, with the exact condition for its records
  to be right (`ConcurrentCreates`); exactly when forgetting expired nonces
  goes unnoticed (`NonceRuns`).
* **Shared-secret tokens** (`SharedSecret`, `ReplayCache`, `ReplayRuns`): two
  readers that agree on every text, exactly which texts verify, and a bounded
  replay cache compared with one that never forgets.
* **Refresh-token rotation** (`RefreshRotation`): any number of processes over
  a locked file; no spent token is presented unless a rotated one was lost.
* **OIDC refresh schedule** (`OidcSchedule`): a token is always served exactly
  when lifetimes are at least 268 seconds.
* **JWT verification** (`Jwt`, `KeyIndex`): the token cache changes no answer,
  the key loop's order matters exactly when deciding keys disagree, the `kid`
  index equals the loop, and an enforced subject binding means that the key
  that verifies a token is its subject's own.
* **Codecs** (`Base64`, `Base58`, `DidKey`, `Pem`, with `Text` and `Numerals`):
  round trips for every byte string.

Conventions. Signature checks, keyed hashes, SHA-256, JWK conversion and JWT
parsing are function-valued parameters; what is assumed of them is a named
predicate in the `requires` of the lemmas that need it (`Ideal`, `SignsFor`,
`CollisionFree`, `Coherent`). JSON envelopes and records are datatypes: a proof
is what parsing its bytes as each envelope gives, so a signed create also reads
as a delete envelope. Clock readings, failing store operations, failing session
operations, the owner's answer to an approval request and the identity
provider's replies are inputs. Session ids are unique, as the session layer
assigns them. Text is `seq<char>` and stands for its UTF-8 bytes.

Where the code and its comments differ, the code is followed.
`crates/channel-manager/src/store.rs:167` says a channel name cannot hold a
NUL, but `ProtoName::parse_name` accepts one; nonces are only ever recorded for
channels the verifier found free of NULs, which is what the model requires.
`crates/channel-manager/src/service.rs:457-464` says records survive a restart
along with the sessions they govern; startup lists a session under the trimmed
parts of its name
(`crates/channel-manager/src/bin/channel_manager.rs:404-414`), so records kept
under a name with blanks around a part do not
(`RecordRuns.RecordsSurviveIffTidy`), and the results about owners and expiry
times across restarts carry that condition.
`crates/channel-manager/src/service.rs:508-510` says stale records are dropped
at the next startup; if their channel has been created again by then they are
revived (`RecordRuns.RecordsStayThroughoutIff`).

Other promises hold on a condition that is stated exactly. A delete of a
channel whose session has ended keeps its records though it leaves the list
(`RecordRuns.DeleteWithin`). The reaper forgets a channel whose session it
could not delete, and a restart that brings that session back lists it without
owner or TTL (`PromiseRuns.NothingOutlivesIff`,
`PromiseRuns.NeverWithoutOwnerIff`). A create that could not be recorded
unlists its channel before it forgets the records, and a create in between can
lose its own (`ConcurrentCreates.RecordsRightIff`). A refresh token that could
not be written is lost (`RefreshRotation.StepSoundIff`).

## Model

| member | source | states |
|---|---|---|
| `Statements.CanonicalInjective` | crates/channel-manager/src/grant.rs:175-280 | the bytes of a statement the verifier lets through equal those of a signed statement of any kind, NULs in its fields included, if and only if the two are equal up to reading an empty callback name as none |
| `Statements.NormalSameBytes` | crates/channel-manager/src/grant.rs:230-251 | a create with an empty callback name is signed over the bytes of one with none |
| `Statements.BodyHasNoNul` | crates/channel-manager/src/grant.rs:175-200 | refusing NULs in the free-text fields leaves no NUL in any signed field |
| `Statements.DomainReadable` | crates/channel-manager/src/grant.rs:168-171 | the domain tag can be read back from the signed bytes of any statement, so no kind passes for another |
| `Statements.BodyInjective` | crates/channel-manager/src/grant.rs:188-280 | statements of one kind are determined by their encoded fields, up to an empty callback name |
| `Statements.GrantBytes` | crates/channel-manager/src/grant.rs:184-200 | a grant is signed over its domain tag, channel, invitee, action, role, expiry and nonce, in that order, a NUL before each field |
| `Statements.CreateBytes` | crates/channel-manager/src/grant.rs:230-251 | a create over its domain tag, audience, channel, owner, MLS flag, TTL, callback name, expiry and nonce, in that order |
| `Statements.DeleteBytes` | crates/channel-manager/src/grant.rs:270-280 | a delete over its domain tag, audience, channel, expiry and nonce, in that order |
| `Verifier.SignedGrantVerifies` | crates/channel-manager/src/grant.rs:348-359 | a signed grant verifies under its signer's did:key, unchanged, unless a field holds a NUL |
| `Verifier.SignedCreateVerifies` | crates/channel-manager/src/grant.rs:364-382 | a key signs exactly the creates that name it, and they verify unchanged unless a field holds a NUL or the callback name is empty |
| `Verifier.SignedDeleteVerifies` | crates/channel-manager/src/grant.rs:386-395 | a signed delete verifies under its signer's did:key, unchanged, unless a field holds a NUL |
| `Verifier.VerifiedGrant` | crates/channel-manager/src/grant.rs:405-427 | under an ideal scheme a verified grant is one the owner's key signed |
| `Verifier.VerifiedCreate` | crates/channel-manager/src/grant.rs:431-465 | under an ideal scheme a verified create was signed by the key of the owner it names |
| `Verifier.VerifiedDelete` | crates/channel-manager/src/grant.rs:467-486 | under an ideal scheme a verified delete was signed by the given owner's key |
| `DidKey.RoundTrip` | crates/auth/src/did_key.rs:16-20 | decoding a did:key gives back the key it was made from, and fails exactly when that is not 32 bytes long |
| `DidKey.Canonical` | crates/channel-manager/src/grant.rs:297-315 | only the did:key made from a key decodes to it |
| `DidKey.DecodeInjective` | crates/channel-manager/src/grant.rs:297-315 | two identifiers of the same key are the same text, so comparing subjects compares keys |
| `DidKey.StartsAsEd25519` | crates/auth/src/did_key.rs:13-20 | the identifier of every 32-byte key starts `did:key:z6Mk` |
| `Base58.RoundTrip` | crates/auth/src/did_key.rs:16-20 | base58 decodes to the bytes encoded, leading zeros included |
| `Base58.Canonical` | crates/channel-manager/src/grant.rs:303-305 | no two base58 texts decode to the same bytes |
| `Base58.EncodesValue` | crates/auth/src/did_key.rs:16-20 | the text is the bytes as one big-endian number in base 58, after a `1` for each leading zero byte |
| `Base58.TheAlphabet` | crates/auth/src/did_key.rs:16-20 | the digits are those of the bitcoin alphabet, in order |
| `Base64.PaddedRoundTrip` | crates/channel-manager/src/grant.rs:284-290 | padded base64 decodes to the bytes encoded |
| `Base64.UnpaddedRoundTrip` | crates/auth/src/shared_secret.rs:89-92 | unpadded base64 decodes to the bytes encoded and has the length the token format counts on |
| `Base64.UnpaddedCanonical` | crates/auth/src/shared_secret.rs:630-637 | nothing but an encoding decodes: tags match their text one to one |
| `Base64.GroupValue` | crates/auth/src/shared_secret.rs:630-637 | four characters are three bytes as one number, most significant first |
| `Base64.TheAlphabet` | crates/auth/src/shared_secret.rs:630-637 | the characters of the two alphabets of RFC 4648, in order |
| `Pem.BytesToPem` | crates/auth/src/utils.rs:246-264 | the loop prints header, base64 body wrapped at 64 characters, footer |
| `Pem.LineLengths` | crates/auth/src/utils.rs:250-261 | every body line is 64 characters but the last, which is no longer and not empty unless the body is |
| `Pem.RoundTrip` | crates/auth/src/did_key.rs:41-51 | reading a printed block returns the bytes printed, for every byte string and label |
| `Policy.FoundSigner` | crates/channel-manager/src/service.rs:165-184 | the signer a delete is attributed to is one of those entitled, and the request verifies under that signer's key |
| `Answers.CreateAuthorizedIff` | crates/channel-manager/src/service.rs:96-137 | a create is let through exactly when its proof is a create its owner signed that describes exactly this request, is meant for this channel manager, expires within a day, and its nonce can be spent; or it is unsigned, names no callback and signatures are not required |
| `Answers.DeleteAuthorizedIff` | crates/channel-manager/src/service.rs:144-224 | a delete is let through exactly when its proof is such a delete of this channel that the owner or an operator signed; or the channel has no owner and signatures are not required |
| `Answers.ChangeAuthorizedIff` | crates/channel-manager/src/service.rs:236-336 | a participant change is let through exactly when a grant for exactly this change, given with it or when the owner was asked, verifies under the owner and its nonce can be spent; or the channel has no owner and signatures are not required |
| `Answers.FoundIff` | crates/channel-manager/src/service.rs:165-184 | a signer is found exactly when the delete verifies under one of those entitled |
| `Answers.MeantHereIff` | crates/channel-manager/src/service.rs:206-224 | a signed request passes exactly when its audience is this channel manager and it expires within 86400 seconds |
| `Answers.SpentIff` | crates/channel-manager/src/service.rs:322-336 | a nonce is spent exactly when its statement has not expired, no unexpired one holds it and it can be recorded, and is then in memory and on disk |
| `Answers.CreateDoneIff` | crates/channel-manager/src/service.rs:584-694 | a create succeeds exactly when it is let through, the channel is not listed, the names and the TTL are good and nothing it needs fails |
| `Answers.CreateEffect` | crates/channel-manager/src/service.rs:656-694 | it then lists the channel under its open session with the owner who signed and an expiry of the time of recording plus the TTL, the largest time if that is past it, in memory and on disk, and changes no other channel |
| `Answers.CreateAnswer` | crates/channel-manager/src/service.rs:584-694 | one of a channel whose session is open is answered so before anything is spent; one that is not let through is refused with its reason |
| `Answers.DeleteDoneIff` | crates/channel-manager/src/service.rs:696-723 | a delete succeeds exactly when it is let through and the channel's session is open and can be deleted |
| `Answers.DeleteEffect` | crates/channel-manager/src/service.rs:715-723 | it then unlists the channel, closes its session and drops its records, and changes no other channel |
| `Answers.DeleteAnswer` | crates/channel-manager/src/service.rs:144-201 | one that is not let through is refused with its reason; without a proof, for want of the owner's signature, or of an operator's where there is no owner |
| `Answers.ChangeDoneIff` | crates/channel-manager/src/service.rs:751-868 | a participant change succeeds exactly when it is let through, the channel's session is open, the participant's name is valid and the session does not refuse |
| `Answers.ChangeAnswer` | crates/channel-manager/src/service.rs:751-868 | one that is not let through is refused with its reason, one to a channel without an open session is not found |
| `Answers.CreateWasSigned` | crates/channel-manager/src/service.rs:584-694 | under an ideal scheme, a create that succeeds with an owner, or where signatures are required, was signed for this channel manager by the owner then on record |
| `Answers.DeleteWasSigned` | crates/channel-manager/src/service.rs:696-723 | a delete of an owned channel that succeeds was signed for this channel manager by its owner or an operator |
| `Answers.ChangeWasSigned` | crates/channel-manager/src/service.rs:751-868 | a participant change of an owned channel that succeeds was signed by its owner, for exactly that participant and action |
| `Answers.SignedCreateIsDone` | crates/channel-manager/src/service.rs:584-694 | a create its owner signs, presented in time and for the first time, succeeds |
| `Answers.SignedDeleteIsDone` | crates/channel-manager/src/service.rs:696-723 | a delete the owner or an operator signs, presented in time and for the first time, succeeds |
| `Answers.SignedGrantIsDone` | crates/channel-manager/src/service.rs:751-868 | a change the owner signs a grant for, presented in time and for the first time, succeeds |
| `Answers.ReapEffect` | crates/channel-manager/src/service.rs:494-506 | a reaper pass unlists and forgets exactly the channels whose expiry is at or before it, and closes exactly their sessions but those it could not delete |
| `Store.WriteRefines` | crates/channel-manager/src/store.rs:75-136 | a write to the flat store changes its own map at its own key and no other map |
| `Store.EraseRefines` | crates/channel-manager/src/store.rs:84-140 | a delete from the flat store changes its own map at its own key and no other map |
| `Store.KeysDistinct` | crates/channel-manager/src/store.rs:158-172 | records of different kinds, channels or nonces never share a key |
| `Store.NonceTextInjective` | crates/channel-manager/src/store.rs:166-172 | channel and nonce can be told apart in a nonce key when the channel has no NUL |
| `Store.RepresentsOne` | crates/channel-manager/src/store.rs:88-155 | a flat store stands for one triple of maps only |
| `Store.StateStore.PutOwner` | crates/channel-manager/src/store.rs:75-82 | sets one owner or, failing, changes nothing |
| `Store.StateStore.DeleteOwner` | crates/channel-manager/src/store.rs:84-86 | removes one owner or, failing, changes nothing |
| `Store.StateStore.LoadOwners` | crates/channel-manager/src/store.rs:88-103 | lists exactly the stored owners |
| `Store.StateStore.PutExpiry` | crates/channel-manager/src/store.rs:105-111 | sets one expiry time or, failing, changes nothing |
| `Store.StateStore.DeleteExpiry` | crates/channel-manager/src/store.rs:113-115 | removes one expiry time or, failing, changes nothing |
| `Store.StateStore.LoadExpiries` | crates/channel-manager/src/store.rs:117-126 | lists exactly the stored expiry times |
| `Store.StateStore.PutNonce` | crates/channel-manager/src/store.rs:128-136 | records one nonce or, failing, changes nothing |
| `Store.StateStore.DeleteNonce` | crates/channel-manager/src/store.rs:138-140 | removes one nonce or, failing, changes nothing |
| `Store.StateStore.LoadNonces` | crates/channel-manager/src/store.rs:142-155 | lists exactly the stored nonces |
| `Store.StateStore.ListPrefix` | crates/channel-manager/src/store.rs:88-155 | a prefix listing of the flat store gives exactly the held records under that prefix |
| `Store.PrefixSelects` | crates/channel-manager/src/store.rs:158-172 | each prefix selects one kind of record, so no load sees another kind |
| `Store.RecordsMean` | crates/channel-manager/src/store.rs:88-155 | decoding the records under a prefix gives back that map |
| `Nonces.NonceStore.Load` | crates/channel-manager/src/nonce.rs:39-52 | keeps exactly the unexpired nonces in memory and store; when a delete fails, no unexpired nonce is lost |
| `Nonces.NonceStore.Consume` | crates/channel-manager/src/nonce.rs:62-85 | prunes, refuses a remembered nonce, and records a new one in the store before memory |
| `Nonces.NonceStore.Prune` | crates/channel-manager/src/nonce.rs:87-101 | forgets exactly the expired nonces, in memory even where the store's delete fails |
| `NonceRuns.SpendExact` | crates/channel-manager/src/service.rs:322-336 | `spend` accepts exactly the unexpired statements whose nonce no unexpired accepted statement carries, and then remembers exactly those |
| `NonceRuns.ReloadKeeps` | crates/channel-manager/src/nonce.rs:39-52 | a reload remembers exactly the accepted nonces that have not expired |
| `NonceRuns.FailedReloadKeeps` | crates/channel-manager/src/nonce.rs:39-52 | a reload that fails half way loses no unexpired one |
| `NonceRuns.RemembersExactly` | crates/channel-manager/src/nonce.rs:39-101 | in every run, reloads included, memory and store agree with everything accepted on what has not expired |
| `NonceRuns.ForgettingUnnoticed` | crates/channel-manager/src/nonce.rs:39-101 | when no two statements share a nonce, every answer of every run is that of a store that never forgets |
| `NonceRuns.ForgettingUnnoticedIff` | crates/channel-manager/src/nonce.rs:39-101 | in any run, reloads and failures included, every answer is that of a store that never forgets exactly when no in-time spend presents a nonce whose accepted statement has expired |
| `NonceRuns.SharedNonceNoticed` | crates/channel-manager/src/nonce.rs:62-101 | any statement accepted at its last moment and any later one under the same nonce tell the store from one that never forgets |
| `NonceRuns.RememberedAsFate` | crates/channel-manager/src/nonce.rs:39-101 | under any clock, reloads and failures included, where an accepted nonce is still remembered depends only on the clock readings and failed deletes since |
| `NonceRuns.RememberedUntilPassed` | crates/channel-manager/src/nonce.rs:39-101 | it is remembered in memory and on disk until some spend in time or reload reads a clock past its expiry |
| `NonceRuns.ReplayAcceptedIffFaded` | crates/channel-manager/src/service.rs:322-336 | under any clock, reloads included, an accepted statement presented in time again, with a store that records, is accepted exactly when its nonce has so faded from memory, and then a clock reading since was past its expiry |
| `NonceRuns.ReplayAcceptedIffClockWentBack` | crates/channel-manager/src/service.rs:322-336 | between reloads that is exactly when an in-time spend read a clock past its expiry, which then went back |
| `Ownership.ChannelOwnership.Load` | crates/channel-manager/src/ownership.rs:52-66 | keeps exactly the owners of restored channels in memory and store; when a delete fails, none of those is lost |
| `Ownership.ChannelOwnership.SetOwner` | crates/channel-manager/src/ownership.rs:73-83 | durable first: on failure nothing is recorded anywhere |
| `Ownership.ChannelOwnership.RemoveOwner` | crates/channel-manager/src/ownership.rs:96-102 | gone from memory even where the store fails |
| `Expiry.ChannelExpiry.Load` | crates/channel-manager/src/expiry.rs:36-50 | keeps exactly the expiry times of restored channels in memory and store; when a delete fails, none of those is lost |
| `Expiry.ChannelExpiry.SetExpiry` | crates/channel-manager/src/expiry.rs:55-65 | durable first: on failure nothing is recorded anywhere |
| `Expiry.ChannelExpiry.RemoveExpiry` | crates/channel-manager/src/expiry.rs:75-81 | gone from memory even where the store fails |
| `Sessions.SessionsList.AddSession` | crates/channel-manager/src/sessions.rs:41-54 | inserts exactly when the channel is not listed, and never replaces one |
| `Sessions.SessionsList.RemoveSession` | crates/channel-manager/src/sessions.rs:64-92 | the channel leaves the list whatever the outcome; its session closes only on success |
| `Manager.ReapedStep` | crates/channel-manager/src/service.rs:494-506 | reaping one more due channel reaches the same state in whatever order the channels come |
| `Server.ChannelManagerServer.WithStateStore` | crates/channel-manager/src/service.rs:465-476 | startup loads exactly what a restart should, and a failed one loses nothing a later one would load |
| `Server.ChannelManagerServer.Spend` | crates/channel-manager/src/service.rs:322-336 | the state and answer of `Answers.SpentIff` and of the run lemmas |
| `Server.ChannelManagerServer.AuthorizeCreate` | crates/channel-manager/src/service.rs:96-137 | the state and answer `Manager.AuthorizeCreate` gives, nonce spent last |
| `Server.ChannelManagerServer.AuthorizeDelete` | crates/channel-manager/src/service.rs:144-201 | the state and answer `Manager.AuthorizeDelete` gives, nonce spent last |
| `Server.ChannelManagerServer.Enforce` | crates/channel-manager/src/service.rs:236-314 | the state and answer `Manager.AuthorizeChange` gives, nonce spent last |
| `Server.ChannelManagerServer.RecordNewChannel` | crates/channel-manager/src/service.rs:522-539 | expiry, then owner, stopping at the first failure |
| `Server.ChannelManagerServer.ForgetChannel` | crates/channel-manager/src/service.rs:511-518 | both records gone from memory, from the store where its deletes succeed |
| `Server.ChannelManagerServer.HandleCreateChannel` | crates/channel-manager/src/service.rs:584-694 | on every path the state and response of `Answers.CreateDoneIff`, `Answers.CreateEffect` and `Answers.CreateAnswer` and of the run lemmas |
| `Server.ChannelManagerServer.CompleteCreateChannel` | crates/channel-manager/src/service.rs:656-694 | lists the channel and records owner and expiry as `Answers.CreateEffect` says, or undoes it |
| `Server.ChannelManagerServer.HandleDeleteChannel` | crates/channel-manager/src/service.rs:696-723 | on every path the state and response of `Answers.DeleteDoneIff`, `Answers.DeleteEffect` and `Answers.DeleteAnswer` and of the run lemmas |
| `Server.ChannelManagerServer.HandleParticipantChange` | crates/channel-manager/src/service.rs:751-868 | on every path the state and response of `Answers.ChangeDoneIff`, `Answers.ChangeAnswer` and `Answers.ChangeWasSigned` and of the run lemmas |
| `Server.ChannelManagerServer.ReapChannel` | crates/channel-manager/src/service.rs:494-506 | one due channel is unlisted and forgotten whether or not its session could be deleted |
| `Server.ChannelManagerServer.ReapExpiredChannels` | crates/channel-manager/src/service.rs:494-506 | the loop over the due channels, in any order, leaves exactly these unlisted and forgotten in memory |
| `AuthorizationRuns.NoStatementAuthorizesTwice` | crates/channel-manager/src/service.rs:96-336 | in every interleaving with failures, crashes and restarts, a handler's first clock reading being any, each authorization is of a statement the entitled key signed that names exactly the operation, and no two share a statement or its bytes |
| `AuthorizationRuns.StepSafe` | crates/channel-manager/src/service.rs:96-336 | every step keeps authorizations lawful, pairwise distinct, and remembered in memory and on disk while still valid |
| `AuthorizationRuns.SpendSafe` | crates/channel-manager/src/service.rs:322-336 | spending a lawful statement keeps this whether or not the spend succeeds, and a success may be logged |
| `AuthorizationRuns.ReadingsWereSo` | crates/channel-manager/src/service.rs:149-260 | whoever an authorization took for the channel's owner had been the owner on record |
| `AuthorizationRuns.SignedCreateLogged` | crates/channel-manager/src/service.rs:96-137 | a create with a proof is let through only by a logged authorization |
| `AuthorizationRuns.OwnedDeleteLogged` | crates/channel-manager/src/service.rs:144-201 | deleting an owned channel, or any under required signatures, is let through only by a logged authorization |
| `AuthorizationRuns.OwnedChangeLogged` | crates/channel-manager/src/service.rs:236-314 | changing an owned channel's participants is let through only by a logged authorization |
| `AuthorizationRuns.CreateIsARun` | crates/channel-manager/src/service.rs:584-694 | handling a create leaves the state a run of the steps above leaves |
| `AuthorizationRuns.DeleteIsARun` | crates/channel-manager/src/service.rs:696-723 | handling a delete, outside config mode, leaves the state a run of the steps above leaves |
| `AuthorizationRuns.ChangeIsARun` | crates/channel-manager/src/service.rs:751-868 | handling a participant change of a live channel, outside config mode, leaves the state a run of the steps above leaves |
| `RecordRuns.EventKeepsDisk` | crates/channel-manager/src/ownership.rs:52-102 | whatever fails, memory stays on disk; while record deletes succeed the two stay equal |
| `RecordRuns.RunKeepsDisk` | crates/channel-manager/src/expiry.rs:36-81 | the same over every run |
| `RecordRuns.RunRestartsIff` | crates/channel-manager/src/service.rs:457-476 | in every run in which record deletes succeed, restarting with exactly the live channels brings back exactly their records exactly when every channel with a record has a tidy name, one without blanks at the ends of its parts |
| `RecordRuns.RestartBringsBackIff` | crates/channel-manager/src/bin/channel_manager.rs:396-420 | the same of one restart |
| `RecordRuns.RestartedRecords` | crates/channel-manager/src/bin/channel_manager.rs:396-420 | a channel comes back under its tidied name: if that is its own, with its records exactly when disk has none that memory had forgotten; if not, its records are dropped from disk and it has whatever disk held for the tidied name |
| `RecordRuns.RecordsSurviveIffTidy` | crates/channel-manager/src/bin/channel_manager.rs:396-420 | with no other record under the tidied name, a channel's owner and expiry survive a restart exactly when its name is tidy |
| `Names.TidyParses` | crates/proto/src/impls.rs:351-361 | a tidied name is read into the same parts and is tidy |
| `Names.TidyIff` | crates/proto/src/impls.rs:351-361 | a valid name is tidy exactly when no part of it has white space at an end |
| `Names.ParseIff` | crates/proto/src/impls.rs:351-361 | a text is read as three parts exactly when it is those parts, none of them blank, between slashes, with any white space around each |
| `Names.TrimIff` | crates/proto/src/impls.rs:351-361 | trimming takes off the white space around a text, all of it and nothing else |
| `RecordRuns.RestartWithin` | crates/channel-manager/src/service.rs:462-476 | after startup records name restored channels only, whatever was on disk, and memory equals disk |
| `RecordRuns.CreateWithin` | crates/channel-manager/src/service.rs:584-694 | a create keeps records within the live channels, and one that fails leaves sessions, owners and expiry times as they were |
| `RecordRuns.CreatedRecords` | crates/channel-manager/src/service.rs:522-539 | a successful create leaves the owner and expiry it asked for exactly when it asked for one or no older record of that name remained |
| `RecordRuns.DeleteWithin` | crates/channel-manager/src/service.rs:715-719 | a delete keeps records within the live channels exactly when it is not one that is let through for a channel with records whose session has ended or cannot be deleted |
| `RecordRuns.EndedChannelLeavesRecords` | crates/channel-manager/src/service.rs:696-723 | deleting a channel whose session has ended by itself takes it off the list and always leaves its records |
| `RecordRuns.EndedThenDeleted` | crates/channel-manager/src/service.rs:584-723 | a run to that effect: any plain create with a TTL, the session ending, the delete |
| `RecordRuns.ReapWithin` | crates/channel-manager/src/service.rs:494-506 | a reaper pass keeps records within the live channels, even where sessions could not be deleted |
| `RecordRuns.EventWithin` | crates/channel-manager/src/service.rs:465-723 | every event keeps records within the live channels exactly when it is not such a delete |
| `RecordRuns.RunWithin` | crates/channel-manager/src/service.rs:465-723 | in every run records name live channels only, all the way, exactly when no such delete is on the way |
| `RecordRuns.RecordsStayIff` | crates/channel-manager/src/ownership.rs:52-102 | a session that stays listed keeps its tidy name, and its channel its owner and expiry exactly when the event is no restart that finds a record on disk memory had forgotten |
| `RecordRuns.RecordsStayThroughoutIff` | crates/channel-manager/src/ownership.rs:52-102 | over every run, failed record deletes included: kept exactly when no restart on the way revives a record, and a revived one stays |
| `RecordRuns.RecordsStayThroughout` | crates/channel-manager/src/ownership.rs:68-102 | so owner and expiry are kept in every run in which record deletes succeed |
| `RecordRuns.OwnedChannelLeaves` | crates/channel-manager/src/service.rs:139-201 | an owned channel leaves the list only by a delete its owner or an operator signed for it, by being due, or by a restart that does not restore it |
| `PromiseRuns.EventKeeps` | crates/channel-manager/src/service.rs:465-723 | an event keeps the owner, or the expiry, each listed session was created with on record in memory and on disk exactly when it is no restart that brings a session back, listed before or not, under a name disk does not have its record for |
| `PromiseRuns.RunKeepsIff` | crates/channel-manager/src/service.rs:465-723 | over every run they are on record all the way exactly when no restart on the way is of that kind |
| `PromiseRuns.NeverWithoutOwnerIff` | crates/channel-manager/src/ownership.rs:52-102 | in every run no session created with an owner is ever listed without that owner exactly when every restart finds on disk the owner of each session it brings back |
| `PromiseRuns.TidyNamesKeepOwners` | crates/channel-manager/src/ownership.rs:52-102 | so it is in every run in which owners ask for tidy names and restarts bring back listed sessions only |
| `RecordRuns.ReapClears` | crates/channel-manager/src/service.rs:494-506 | a reaper pass leaves nothing due and does not touch channels not due |
| `PromiseRuns.NothingOutlivesIff` | crates/channel-manager/src/service.rs:478-506 | in every run a reaper pass, whenever it comes and whatever fails in it, leaves no listed session past the TTL it was created with exactly when every restart finds on disk a deadline no later than promised for each session it brings back, listed before or not |
| `PromiseRuns.NothingOutlivesItsTtl` | crates/channel-manager/src/service.rs:478-506 | in every such run that ends with a reaper pass, no session still listed then has an expiry, as it was created, at or before that pass |
| `PromiseRuns.ListedUntilTtl` | crates/channel-manager/src/service.rs:494-506 | in every run whose restarts find the deadlines, a channel recorded at `t` with a TTL of `n` seconds is still listed after a reaper pass exactly when it was before and the pass comes before `t + n`, or the largest time |
| `PromiseRuns.PromisedTtl` | crates/channel-manager/src/service.rs:675-678 | the deadline of a channel recorded at `t` with a TTL of `n` seconds is `t + n`, or the largest time, all the way |
| `PromiseRuns.TidyNamesDoNotOutlive` | crates/channel-manager/src/service.rs:478-506 | so it is in every run in which channels with a TTL are asked for by tidy names and restarts bring back listed sessions only |
| `PromiseRuns.UntidyNameOutlives` | crates/channel-manager/src/bin/channel_manager.rs:396-420 | under any other valid name a channel created with a TTL outlives it once a restart has brought it back, without a record of its expiry |
| `PromiseRuns.UndeletedOutlives` | crates/channel-manager/src/service.rs:494-506 | under a tidy name too, when a reaper pass could not delete its session and a restart brings that back |
| `PromiseRuns.ReapedThenBack` | crates/channel-manager/src/service.rs:494-518 | whatever owner and expiry a channel had are lost that way |
| `ConcurrentCreates.OneCreateWins` | crates/channel-manager/src/service.rs:584-694 | in every interleaving, whatever fails, at most one create per channel succeeds and the listed session is its own; one beaten at the insert found the channel taken, and its session is closed unless closing it failed |
| `ConcurrentCreates.StepOk` | crates/channel-manager/src/sessions.rs:41-54 | every step of a racing request, failing or not, keeps what holds of every request's session |
| `ConcurrentCreates.RecordsAreTheWinners` | crates/channel-manager/src/service.rs:507-539 | from records within the live channels, owner and expiry on record are the successful request's in every interleaving in which no request takes a channel another is still forgetting to its harm: with an expiry left there, or asking for a record yet to be forgotten |
| `ConcurrentCreates.RecordedAreTheWinners` | crates/channel-manager/src/service.rs:656-694 | that is so in every interleaving in which recording does not fail |
| `ConcurrentCreates.RecordsRightIff` | crates/channel-manager/src/service.rs:656-694 | the condition is exact: after any run without harm, the next step leaves the records right in every continuation without further harm exactly when it does none |
| `ConcurrentCreates.HarmLosesRecords` | crates/channel-manager/src/service.rs:675-690 | after any harm the run can go on so that the taker succeeds with records other than those it asked for |
| `ConcurrentCreates.HarmIsReached` | crates/channel-manager/src/service.rs:584-694 | for any two requests for one unlisted channel that pass the checks and ask for a record there is a run, with one failure to record, up to such harm |
| `ConcurrentCreates.RecordsCanBeLost` | crates/channel-manager/src/service.rs:584-694 | and so a whole run that ends with the second successful and its records wrong |
| `ConcurrentCreates.AloneIsHandleCreate` | crates/channel-manager/src/service.rs:584-694 | without interference a request's steps are the whole handler: the same state on every path, and success exactly when it succeeds |
| `ReplayCache.Cache.InsertEntry` | crates/auth/src/shared_secret.rs:120-152 | set and queue stay in step, and the queue is purged, checked, evicted and appended in that order |
| `ReplayCache.Cache.PurgeExpired` | crates/auth/src/shared_secret.rs:120-135 | drops the too-old entries at the front of the queue, and only these |
| `ReplayCache.InsertRemembers` | crates/auth/src/shared_secret.rs:120-152 | whatever has left the cache is too old or has a full capacity of distinct later entries accepted after it |
| `ReplayCache.AcceptedAgainOnlyBuried` | crates/auth/src/shared_secret.rs:137-147 | an entry in the validity window is accepted again only after a full capacity of distinct others |
| `ReplayCache.LatestKept` | crates/auth/src/shared_secret.rs:137-150 | distinct recent arrivals leave exactly the latest ones, a full capacity of them |
| `ReplayCache.CapacityIsTight` | crates/auth/src/shared_secret.rs:142-150 | for every size, one entry more than the capacity and the first is accepted again |
| `ReplayCache.TooOldIff` | crates/auth/src/shared_secret.rs:126-135 | an entry is too old exactly when its timestamp is more than the window behind the clock |
| `ReplayCache.PurgedStops` | crates/auth/src/shared_secret.rs:126-135 | purging stops at the first entry that is not |
| `ReplayRuns.ReplaysAreSpaced` | crates/auth/src/shared_secret.rs:490-643 | in every run, between two acceptances of the same nonce and timestamp at least max(1, max_size) distinct others were accepted |
| `ReplayRuns.BoundedCacheUnnoticed` | crates/auth/src/shared_secret.rs:601-643 | a run that accepts at most max(1, max_size) tokens gets, call by call, the answers of a verifier that remembers everything |
| `ReplayRuns.AcceptedAreGenuine` | crates/auth/src/shared_secret.rs:601-643 | in every run each accepted entry is that of a text carrying the tag of its own message under the shared secret, its timestamp in the window when presented |
| `SharedSecret.ReadersAgree` | crates/auth/src/shared_secret.rs:459-473 | the two readers accept the same texts and read the same fields, and the text is what was signed, a colon and the tag |
| `SharedSecret.GetTokenInto` | crates/auth/src/shared_secret.rs:354-387 | the buffer ends up holding the four joined fields, a colon and the tag of exactly those fields |
| `SharedSecret.TokenFits` | crates/auth/src/shared_secret.rs:341-348 | no token is longer than the capacity reserved for it |
| `SharedSecret.CapacityIsReached` | crates/auth/src/shared_secret.rs:341-348 | and the longest token fills it |
| `SharedSecret.IssuedIsReadable` | crates/auth/src/shared_secret.rs:459-473 | an issued token is read back into the fields it was made of, and is malformed exactly when its id holds a colon |
| `SharedSecret.IssuedVerifies` | crates/auth/src/shared_secret.rs:601-643 | an issued token, its claims in base64, verifies on any instance with the same secret unless its id holds a colon, its timestamp is out of the window or the cache holds it, each with its own error |
| `SharedSecret.AuthenticIff` | crates/auth/src/shared_secret.rs:601-641 | a text passes every check but the replay cache's exactly when it is four fields without a colon and the tag of exactly those fields, and the second is at most the clock skew ahead and the validity window behind |
| `SharedSecret.VerifiedIff` | crates/auth/src/shared_secret.rs:601-643 | it verifies exactly when that is so and the cache, if there is one, does not hold its nonce and timestamp |
| `SharedSecret.RefusedAs` | crates/auth/src/shared_secret.rs:601-641 | any other text is refused by its shape, its timestamp, its tag's length, its tag's encoding and its tag, in that order |
| `Numerals.ReadIff` | crates/auth/src/shared_secret.rs:605-628 | a text is read as a timestamp exactly when it is the number's decimal, after any zeros and a plus sign at most |
| `SharedSecret.Verifier.Verify` | crates/auth/src/shared_secret.rs:601-643 | accepts exactly what `SharedSecret.VerifiedIff` says, and moves the cache as the run lemmas assume |
| `RefreshRotation.NoSpentTokenPresented` | crates/auth/src/refresh_token.rs:134-260 | in every interleaving of any number of processes in which no rotated token is lost and rotated tokens are new, every token presented was live, and whenever the lock is free the file holds the live token |
| `RefreshRotation.StepSound` | crates/auth/src/refresh_token.rs:134-260 | every step keeps the lock exclusive and the file, the holder's phase and the provider in agreement |
| `RefreshRotation.StepSoundIff` | crates/config/src/auth/oidc.rs:437-516 | with a provider that issues new tokens, every step keeps that exactly when it does not lose a rotated token, by dying before writing it or by a write that fails, before or after truncating the file, and is only logged |
| `RefreshRotation.CrashKeepsTokenIff` | crates/auth/src/refresh_token.rs:230-251 | a crash leaves the live token on file exactly when no rotated token was still unwritten |
| `RefreshRotation.LostTokenIsPresented` | crates/auth/src/refresh_token.rs:134-228 | after such a loss that leaves another token on file the next process to go to the provider presents one that is not live |
| `RefreshRotation.EmptyFileLasts` | crates/config/src/auth/oidc.rs:437-474 | after one that leaves the file empty, truncated and not written, no process ever goes to the provider again |
| `RefreshRotation.RefreshTokenProvider.FetchNewToken` | crates/auth/src/refresh_token.rs:134-260 | one fetch reads, exchanges and persists in order, leaving the state the step lemmas are about |
| `RefreshRotation.FetchKeepsLive` | crates/auth/src/refresh_token.rs:134-260 | with the live token on file a fetch is never told it was revoked and leaves the live token in memory, and on file exactly when it had no rotated token to write or wrote it |
| `RefreshRotation.FetchAnswer` | crates/auth/src/refresh_token.rs:134-260 | a fetch reuses a stored access token under its own expiry exactly while less than two thirds of its lifetime have passed; otherwise it goes to the provider and keeps what it is given for as long as it is given, or keeps what it had |
| `RefreshRotation.ReusesOrExchanges` | crates/auth/src/refresh_token.rs:153-176 | the same of a step of the lock holder |
| `RefreshRotation.FreshIff` | crates/auth/src/refresh_token.rs:160-165 | the two thirds in whole seconds |
| `RefreshRotation.StartedProcess` | crates/auth/src/refresh_token.rs:134-150 | a process starts idle and disturbs no other |
| `RefreshRotation.FetchIsARun` | crates/auth/src/refresh_token.rs:134-260 | an uninterrupted fetch is a run of the steps above |
| `OidcSchedule.NeverFailsIff` | crates/auth/src/oidc.rs:73-106 | tokens of a fixed lifetime are served at every moment for every phase of the ticker exactly when they live at least 268 seconds |
| `OidcSchedule.AlwaysServed` | crates/auth/src/oidc.rs:303-357 | with every lifetime at least 268 seconds, varying or not, there is always a token to serve after the first fetch |
| `OidcSchedule.TickInTime` | crates/auth/src/oidc.rs:327-349 | each tick either refreshes or leaves a token that is served until after the next tick |
| `OidcSchedule.ShortLifetimeFails` | crates/auth/src/oidc.rs:89-106 | for every shorter lifetime some phase lets the token lapse between two ticks |
| `OidcSchedule.NeverRecovers` | crates/auth/src/oidc.rs:99-103 | a lapsed token is never refreshed by a later tick |
| `OidcSchedule.OidcTokenProvider.Tick` | crates/auth/src/oidc.rs:333-349 | a tick refreshes the provider's own token exactly when it is due and still served |
| `Jwt.CacheUnnoticed` | crates/auth/src/jwt.rs:432-448 | with fixed keys and a clock that never goes back, the verifier with its cache answers every call of every run as one without |
| `Jwt.CachedTokensVouched` | crates/auth/src/jwt.rs:504-581 | in every run every cached token has passed validation, the signature check under the first key that does not mismatch, and that key's subject binding |
| `Jwt.CallAgrees` | crates/auth/src/jwt.rs:432-448 | one call: the cache changes no answer and takes in only such tokens |
| `Jwt.AcceptedIsVouched` | crates/auth/src/jwt.rs:504-563 | whatever the full check accepts has passed all of that |
| `Jwt.VouchedIsAccepted` | crates/auth/src/jwt.rs:565-581 | a cached, unexpired token passes the full check for every claims type that parses |
| `Jwt.AcceptedIff` | crates/auth/src/jwt.rs:477-563 | a token is accepted, with the claims it holds, exactly when there are keys for it and the first of them that does not fail its signature verifies it, it is current and readable, and it is bound to that key's owner as the binding asks |
| `Jwt.BindingIff` | crates/auth/src/jwt.rs:533-563 | an enforced binding asks that the subject is one the key's owner has, `Warn` only that the standard claims decode, `Off` nothing |
| `Jwt.CurrentIff` | crates/auth/src/jwt.rs:504-528 | a token is current exactly when it lacks nothing required and its times hold give or take the leeway |
| `Jwt.KeysFrom` | crates/auth/src/jwt.rs:608-639 | the keys are the configured one, or the trust list's candidates for a token that names an issuer |
| `Jwt.EnforcedIsOwned` | crates/auth/src/jwt.rs:530-563 | with the binding enforced, a token accepted from a trust list verifies under a key of the list by that key's own algorithm, and its subject is that key's `kid` or the did:key of its bytes |
| `Jwt.CachedAreOwned` | crates/auth/src/jwt.rs:504-581 | and so is every cached token in every run |
| `Jwt.AcceptedIsCached` | crates/auth/src/jwt.rs:113-154 | an accepted token is cached until it expires, and a call changes nothing else in the cache |
| `Jwt.OrderIrrelevantIff` | crates/auth/src/jwt.rs:468-502 | the key loop's answer is the same in every order exactly when all keys that decide agree |
| `Jwt.FirstDecides` | crates/auth/src/jwt.rs:477-502 | the loop answers with the first key whose result is not a signature mismatch |
| `Jwt.NoneDecides` | crates/auth/src/jwt.rs:477-502 | with no such key the answer is a signature error, or that no key was suitable when there is none |
| `Jwt.VerifyWithKeys` | crates/auth/src/jwt.rs:477-502 | the loop with its last error computes that answer |
| `Jwt.FastPathAgrees` | crates/auth/src/resolver.rs:298-357 | when the keys of the token's algorithm convert and those that decide agree, a token whose `kid` names a key of its algorithm that decides if any does gets the loop's answer from the index |
| `Jwt.OneSignerAnyOrder` | crates/auth/src/jwt.rs:468-502 | when at most one key checks a token's signature the keys may be tried in any order |
| `Jwt.NamedSignerFastPath` | crates/auth/src/resolver.rs:298-357 | when no key of the token's algorithm but the one its `kid` names checks its signature, the index gives the answer of the loop in every order |
| `Jwt.JwtVerifier.TryVerify` | crates/auth/src/jwt.rs:432-448 | the answer and the cache of `Jwt.AcceptedIff`, `Jwt.AcceptedIsCached` and the run lemmas |
| `KeyIndex.BuildIndex` | crates/auth/src/resolver.rs:107-122 | the index holds, for every `kid` in the list and no other, the first key carrying it |
| `KeyIndex.IndexUnique` | crates/auth/src/resolver.rs:92-122 | there is one such index only |
| `KeyIndex.CandidatesFromCache` | crates/auth/src/resolver.rs:315-357 | the loop computes the candidates that `KeyIndex.IndexedCandidate`, `KeyIndex.FallbackCandidates` and `KeyIndex.InListOrder` describe, with the first error met |
| `KeyIndex.CandidatesAreKeys` | crates/auth/src/resolver.rs:315-357 | whatever the token's header says, every candidate is a key of the list under that key's own algorithm and, for peer keys, its own owner |
| `KeyIndex.IndexedCandidate` | crates/auth/src/resolver.rs:329-340 | for a `kid` in the list it is the first key carrying it, if that is a signing key that converts, each other case with its error |
| `KeyIndex.FallbackCandidates` | crates/auth/src/resolver.rs:342-357 | for any other token they are exactly the keys of its algorithm, when these convert |
| `KeyIndex.InListOrder` | crates/auth/src/resolver.rs:342-357 | in the order of the list |
| `KeyIndex.MatchingHolds` | crates/auth/src/resolver.rs:342-356 | when the keys of the algorithm convert, the fallback offers exactly those |
| `KeyIndex.MatchingFails` | crates/auth/src/resolver.rs:342-356 | the fallback's first error is its answer |
| `KeyIndex.OwnsExactly` | crates/auth/src/resolver.rs:48-69 | a trust-list key owns its `kid` and the did:key of its own 32 bytes, and nothing else |

## Left out

- Ed25519, HMAC, SHA-256, P-256 and MLS key generation: parameters with the stated assumptions.
- JSON, protobuf and YAML: envelopes and records are datatypes, and a record that does not decode does not occur.
- UTF-8: text is a sequence of characters; lengths count characters where the source counts bytes.
- Memory-only mode of the channel manager, without a `StateStore`: the model always has a store.
- `SpendIn`, and every other use of `spend`: one step each, its clock reading included; `NonceRuns.ReplayAcceptedIffFaded` says what depends on that.
- ConcurrentCreates.OneCreateWins: deletes and reaping do not take part; removing a session from the list and deleting it are one step.
- Order of `HashMap` iteration: loops over maps take entries in any order.
- The session layer's persistence: which sessions a restart brings back is an input, as are the names of sessions that had left the list; a create is not interrupted by a crash between opening its session and recording its owner.
- `request_approval` and its transport: the owner's answer is an input.
- Overflow of `now + expires_in` and `lifetime * 2` beyond 64 bits in the OIDC and refresh-token arithmetic: computed without bound.
- Fetches that take time or fail in the OIDC schedule: the bound is for fetches that succeed at once.
- The background loop of the refresh-token provider and its 30-second retry: it only decides when a fetch starts.
- Discovery, HTTP, TLS, SPIRE, file watching, and key replacement while a JWT verifier lives: the cache result is for fixed keys.
- `jsonwebtoken`, `base64`, `bs58`: foreign libraries, modelled by their documented behaviour.
- `try_get_claims`: decoding the custom claims is JSON; that it reads the fields `try_verify` checked is `SharedSecret.ReadersAgree`.
- `list_channels`, `list_participants`, config mode beyond refusing changes, control plane, data plane, session layer: not part of this model.
