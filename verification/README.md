# SMQTT: a verified model

SMQTT puts an authorization layer in front of an MQTT broker. Users register an Ed25519 key,
answer a challenge to obtain a JWT, agree on secrets through a server-mediated X25519
exchange, and register relationships whose topics the JWT then carries. A JWT is a snapshot
of the relationship table, and MQTT admission and subscription are decided from it; revoking a
relationship or suspending a user has to make old snapshots useless.

This project models that server as a state machine over its tables, its two in-memory maps and
the broker's connections, together with the Python client that talks to it, and proves what
holds over every run.

## Layout

| file | content |
|---|---|
| `Types.dfy` | rows, claims, configuration, the cryptographic operations taken as given |
| `Base64Url.dfy` | unpadded base64url of server and client (section 5 of RFC 4648) |
| `SharedSecrets.dfy` | salt, key material and topic names of one relationship |
| `Tables.dfy` | the queries and updates of the tables, and what they mean |
| `Spec.dfy` | the whole state, and each request, hook and timer as one function on it |
| `Replies.dfy` | for every request, who may send it, which answer comes in which case, what it stores |
| `Machine.dfy` | events, the facts assumed of the environment, paths and runs |
| `AuthInvariant.dfy` | the inductive invariant about tokens, devices, sessions, connections |
| `Kicking.dfy` | what a kick does, and which events kick whom |
| `RelationshipTable.dfy` | the rows told from the run; a revocation takes exactly one |
| `Accounts.dfy` | users and devices told from the run |
| `Connections.dfy` | open connections and owed disconnect hooks told from the events |
| `Revocation.dfy`, `Suspension.dfy` | when a snapshot stops being usable |
| `Admission.dfy` | exactly when an issued token is admitted, told from the run |
| `Boundary.dfy` | runs that pass through the boundary second of a kick |
| `AuthRace.dfy`, `RaceWitness.dfy` | revocation and suspension with `verify` and CONNECT each split in two |
| `Interrupted.dfy` | a revocation cut short by a restart |
| `Provenance.dfy`, `Notifications.dfy` | where every granted subscription comes from; personal topics |
| `Challenges.dfy`, `Registration.dfy` | counted and timed resources |
| `ExchangeLifecycle.dfy` | the exchange record over runs with atomic handlers |
| `ExchangeReplies.dfy` | what a client is shown of an exchange, told from the run |
| `ExchangeRace.dfy` | the exchange table with handlers split into reads and writes |
| `AnswerRace.dfy` | which client shares the initiator's secret when answers overlap |
| `EndToEnd.dfy` | key agreement and routing across two clients and the server |
| `Progress.dfy`, `Routing.dfy` | the counterpart of the safety results: honest parties get through |
| `Database.dfy`, `App.dfy`, `RestApi.dfy`, `AuthHook.dfy` | the server as classes, loops and early exits, each proved equal to its function in `Spec` |
| `Client.dfy` | the client class, each request a call of the handler |
| `ClientRuns.dfy` | the client's calls as stretches of runs, and what two clients end up with |

A run (`Machine.Path.IsRun`) starts from empty tables and is any finite sequence of events:
every REST request with any arguments, CONNECT, SUBSCRIBE, connection loss, the disconnect
hook, the purge timer, the passing of time and a process restart. Theorems about runs
quantify over all of them.

## Facts assumed

They are the conditions of `Machine.Allowed` and `SharedSecrets.Lawful`, or built into `Spec`:

- The clock counts whole seconds and never goes back; times stay below 2^63, so the casts
  between `u64` and `i64` lose nothing.
- A drawn UUID was never drawn before and contains no `>`.
- Only tokens the server signed verify; how long past its expiry a token still verifies is a
  parameter (section 4.1.4 of RFC 7519 leaves it open).
- X25519 commutes (section 6.1 of RFC 7748), public keys are 32 bytes, the requested HKDF
  output is 96 bytes. Nothing else is assumed of the cryptographic operations.
- Database statements succeed, and each handler is one atomic step, except in `ExchangeRace`
  and `AuthRace`.
- The broker keeps one connection per client id, a closed connection sends no further
  SUBSCRIBE, and its disconnect hook comes at any later time.

## Where the code does less than its comments promise

- The comments at `src/broker/mod.rs:65-74` and in `src/db/migrations/002_tokens_valid_from.sql`
  say that a kick makes old tokens unusable. The test at `src/broker/auth_hook.rs:69` is strict
  and seconds are whole, so a token signed in the very second of the kick survives it.
  `Boundary.SameSecondRun` is a run from an empty server that does this, and
  `Boundary.SuspensionOutlived` the same for suspension. With atomic handlers that second is the
  only exception: by `Revocation.RevocationIsFinalIff` access ends for good if and only if no
  token listing the topic was signed in it; `Suspension.SuspensionIsFinalIff` says so for
  suspension.
- `verify` reads the rows and signs in two steps (`src/api/auth.rs:99-111`), and `authenticate`
  reads the user before the connection opens (`src/broker/auth_hook.rs:62-75`). A revocation or
  suspension in between is not confined to one second. The exact windows are
  `AuthRace.RevocationRaceIff` for grants, `AuthRace.SuspensionRaceIff` for connections of a
  suspended user and `AuthRace.SuspensionSigningIff` for tokens signed for one; `RaceWitness` has
  runs through each of them.
- `revoke` deletes the row and then kicks (`src/api/relationships.rs:79-82`). If the process
  restarts in between, the row is gone and the age limit on tokens has not moved:
  `Interrupted.InterruptedIff` says exactly which tokens keep the topic, and
  `Interrupted.RevocationLost` that every current one does.
- `get` reads and deletes in two statements (`src/api/exchange.rs:66-80`), so a completed record
  can be shown again before it is deleted: exactly then, by `ExchangeRace.ShownAgainIff`.
- `respond` (`src/api/exchange.rs:102-116`) checks for an existing answer and writes its own in
  two statements. `ExchangeRace.OverlapOverwrites` shows two accepted answers of which the second
  replaces the first. Starting an answer is unsafe if and only if an earlier one by the same
  responder is still pending (`ExchangeRace.StartIsUnsafeIff`); a responder who sends one answer
  at a time is safe (`ExchangeRace.OneAtATimeIsSafe`). When answers do overlap, the initiator
  shares its secret with the last writer and, unless HKDF collides, with nobody else
  (`AnswerRace.LastAnswerAgrees`).

## Model

| member | source | states |
|---|---|---|
| `Base64Url.UnpackPack` | src/crypto.rs:96-98 | regrouping bytes into six-bit values loses nothing and leaves only zero fill bits, for all byte strings |
| `Base64Url.PackUnpack` | src/crypto.rs:100-102 | every canonical sequence of six-bit values is the regrouping of the bytes it stands for |
| `Base64Url.PackLength` | example/smqtt_client.py:24-25 | the length modulo 4 is fixed by the number of bytes modulo 3 and is never 1 |
| `Base64Url.DecodeIffEncode` | src/crypto.rs:96-102 | the server accepts a text as given bytes if and only if the text is their encoding; so a key is returned character for character as it was accepted |
| `Base64Url.RepadRestores` | example/smqtt_client.py:24-31 | re-padding restores exactly the `=` signs that stripping removed; client and server encodings coincide; the stripped length is never 1 modulo 4 |
| `Base64Url.ClientDecodes` | example/smqtt_client.py:27-31 | the client decodes whatever server or client encoded back to the same bytes |
| `Base64Url.LetterIsTable` | src/crypto.rs:96-102 | the digits are those of table 2 of RFC 4648, in its order |
| `Base64Url.SplitIsBigEndian` | src/crypto.rs:96-98 | three bytes and their four digits are the same number, most significant part first |
| `Base64Url.TestVectors` | src/crypto.rs:96-98 | the test vectors of section 10 of RFC 4648, unpadded |
| `Base64Url.LenientDecode` | example/smqtt_client.py:27-31 | on letters alone the client accepts a text if and only if its length is not 1 modulo 4, and reads bytes whose encoding differs from it at most in the last letter |
| `Base64Url.B64uDecode` | example/smqtt_client.py:27-31 | the decoder as written computes the specified decoding and agrees with the server on every text the server accepts |
| `SharedSecrets.LessIsTotal` | example/smqtt_client.py:54-57 | byte strings compare in exactly one way |
| `SharedSecrets.LessIsLexicographic` | example/smqtt_client.py:56-56 | one byte string is less if and only if at the first difference it ends or has the smaller byte |
| `SharedSecrets.LessIsTransitive` | example/smqtt_client.py:54-57 | the comparison is transitive, so it is a strict total order |
| `SharedSecrets.SaltIsSymmetric` | example/smqtt_client.py:54-57 | swapping the two public keys gives the same salt |
| `SharedSecrets.DeriveAgrees` | example/smqtt_client.py:53-71 | each side, from its private and the other's public key, derives the same three keys |
| `SharedSecrets.DeriveIsOutput` | example/smqtt_client.py:54-71 | topic seed, encryption key and authentication key, in this order, are the HKDF output with the two public keys in ascending order as salt |
| `SharedSecrets.TopicsMirror` | example/smqtt_client.py:73-83 | with equal material filed under each other's id, one's outbound topic is the other's inbound topic, both ways |
| `SharedSecrets.MessageIsInjective` | example/smqtt_client.py:75-81 | over ids without `>`, equal topic messages have equal senders and receivers, and conversely |
| `SharedSecrets.DirectionsDiffer` | example/smqtt_client.py:75-81 | the two directions between distinct users hash different messages |
| `Tables.AggregateIsLists` | src/db/mod.rs:215-230 | a topic is in a user's aggregate if and only if a current row of that user lists it |
| `Tables.AggregateAddsUp` | src/db/mod.rs:221-228 | multiplicities add up: a row contributes its topics to its owner and nothing to anyone else |
| `Tables.DeleteTakesItsOwn` | src/db/mod.rs:200-230 | deleting a row takes exactly its own topics, with multiplicity, from its owner's aggregate |
| `Tables.DeleteSparesOthers` | src/db/mod.rs:205-208 | deleting a row leaves the rows of every other user as they were |
| `Tables.ConsumeCounts` | src/db/mod.rs:342-354 | consuming raises the total of uses by the number of rows affected and keeps every row within its allowance |
| `Tables.SuccessesAreExact` | src/db/mod.rs:342-354 | of any attempts with one token, exactly as many of those before its expiry succeed as uses are left; all others fail |
| `RelationshipTable.RunRowsSound` | src/db/mod.rs:140-167 | in every reachable state relationship ids are unique |
| `RelationshipTable.RevokeDeletes` | src/api/relationships.rs:79-80 | revocation succeeds if and only if the token verifies and the caller owns a row of that id; on failure nothing changes |
| `RelationshipTable.RevocationTakesOneRow` | src/api/relationships.rs:74-84 | in every run a revocation removes one row, takes exactly that row's topics from its owner in both directions, and changes no other user's rows |
| `RelationshipTable.RowStep` | src/api/relationships.rs:31-84 | for every event, exactly which rows are in the table afterwards: created as requested by the caller, or there before and not revoked by their owner |
| `RelationshipTable.RowsFromHistory` | src/api/relationships.rs:31-84 | in every reachable state the table holds exactly the rows that accepted requests created, with owner, peer and topics as requested, and their owners have not revoked since |
| `RelationshipTable.ListedFromHistory` | src/api/relationships.rs:55-72 | in every run a user is shown exactly the rows the user created and has not revoked |
| `AuthInvariant.KickIsExact` | src/broker/mod.rs:75-89 | the device loop closes every open connection whose token names the user, and no other |
| `AuthInvariant.KickRestores` | src/broker/mod.rs:75-89 | a kick re-establishes the invariant when only that user's connections violated it |
| `AuthInvariant.ConnectKeeps` | src/broker/auth_hook.rs:54-75 | admission keeps session entry, connection, token and device in agreement |
| `AuthInvariant.StepKeeps` | src/broker/auth_hook.rs:18-76 | every event keeps: session and connection keys equal the token's device, the device belongs to the token's user, and no open connection rests on a stale token or belongs to a suspended user |
| `AuthInvariant.RunKeeps` | src/broker/auth_hook.rs:18-76 | the invariant holds in every reachable state |
| `AuthInvariant.DevicesNeverVanish` | src/db/mod.rs:101-127 | device rows never move or vanish along any path |
| `Revocation.ValidFromNeverDecreases` | src/db/mod.rs:64-73 | a user's earliest accepted time of issue never decreases and the user never vanishes along any path |
| `Revocation.StalenessIsPermanent` | src/broker/auth_hook.rs:67-71 | a token once too old at connect is refused at every later connect of the run |
| `Revocation.IssuedStep` | src/api/auth.rs:99-113 | tokens come from successful verifications only, and each is the snapshot of that moment |
| `Revocation.SnapshotIsTable` | src/api/auth.rs:99-111 | a token lists a topic for subscription if and only if a current row of the user does or it is the user's notification topic, as often as the rows together; for publishing, if and only if a row does |
| `Kicking.KickExpels` | src/broker/mod.rs:75-89 | a kick closes and ages exactly one user's connections and tokens |
| `Kicking.RevocationKicksBoth` | src/api/relationships.rs:79-82 | a revocation closes and ages exactly the connections and tokens of the two ends of the deleted row |
| `Revocation.RevocationReachesPeer` | src/api/relationships.rs:82-82 | after a revocation the peer's older tokens are refused at every later connect of the run |
| `Revocation.GrantRestsOnToken` | src/broker/auth_hook.rs:84-93 | a granted subscription rests on a signed token for that device that is neither stale nor of a suspended user |
| `Revocation.RevocationSafety` | src/api/relationships.rs:74-84 | over whole runs: after the last row for a topic is revoked in second T, and until a row restores it, a grant rests on a token signed before the revocation in second T; older tokens are never admitted, later ones never list the topic |
| `Revocation.RevocationIsFinalIff` | src/broker/auth_hook.rs:67-71 | some continuation without a new row grants the topic again if and only if a token listing it was signed in the second of the revocation |
| `Boundary.LoginRuns` | src/api/auth.rs:27-114 | every run with a user who can log in goes on to a login, which takes no time and adds only the snapshot to the signed tokens |
| `Boundary.RevokeOnlyListing` | src/api/relationships.rs:74-84 | revoking the only row for a topic leaves no row for it and moves the user's age limit to the present second |
| `Boundary.RevocationOutlived` | src/broker/auth_hook.rs:69-71 | every run with a user who can log in and has one row for a topic goes on, within one second, by login, revocation, connect and subscription to a grant of the topic that no row lists |
| `Boundary.SameSecondRun` | src/broker/auth_hook.rs:69-71 | such a run exists from an empty server, for any topic |
| `AuthRace.AtomicVerifyIsGatherThenSign` | src/api/auth.rs:99-111 | reading the rows and signing back to back is the atomic verification |
| `AuthRace.AtomicConnectIsCheckThenOpen` | src/broker/auth_hook.rs:62-75 | checking and opening back to back is the atomic connect |
| `AuthRace.RunKeeps` | src/broker/auth_hook.rs:54-75 | with both handlers split, in every reachable state tokens, session entries, connections and requests under way name a device of their own user |
| `AuthRace.RevocationRaceIff` | src/api/auth.rs:99-111 | with both handlers split, some continuation without a new row grants the topic on a token of a given second if and only if, at the revocation, that is its second and a token was signed in it, or a verification had read the rows and not signed (any later second), or a connection had passed its checks with such a token and not opened |
| `RaceWitness.LateSignatureRun` | src/api/auth.rs:99-111 | every run with such a user goes on to a revocation between the read and the signature, after which the topic is granted on a token of any chosen later second |
| `RaceWitness.LateOpeningRun` | src/broker/auth_hook.rs:62-75 | every run with a good token goes on to a revocation between check and opening, after which the topic is granted on that older token |
| `Interrupted.UncutIsRevoke` | src/api/relationships.rs:79-82 | deletion followed by both kicks is the atomic revocation |
| `Interrupted.OfflineGrantIff` | src/broker/auth_hook.rs:49-75 | with no connection open and no row for a topic, some continuation without a new row grants it if and only if an unexpired token within the age limit lists it |
| `Interrupted.InterruptedIff` | src/api/relationships.rs:79-82 | after a restart between the deletion and the kicks, some continuation without a new row grants the topic if and only if an unexpired token lists it and is not older than the age limit: the present second if the caller was kicked, the previous limit if not |
| `Interrupted.RevocationLost` | src/api/relationships.rs:79-82 | in every run, a user with a current token of whatever age keeps the topic when the revocation of its only row is cut short before the kicks |
| `Suspension.SuspendedIsOffline` | src/api/admin.rs:72-82 | in every reachable state a suspended user has no open connection, is admitted with no token and is issued none |
| `Suspension.SuspensionKicks` | src/api/admin.rs:79-80 | a suspension marks the user, ages the tokens and closes exactly the user's connections, which await their disconnect hooks |
| `Suspension.SuspensionIsFinalIff` | src/api/admin.rs:72-92 | of the tokens signed before a suspension, exactly those of its very second can be admitted again in some continuation, unsuspension included |
| `Suspension.SuspensionStep` | src/db/mod.rs:75-89 | for every event, a user is suspended afterwards if and only if the administrator asked for it now, or the user was suspended and the administrator did not lift it |
| `Suspension.SuspendedFromHistory` | src/api/admin.rs:72-92 | in every run a user is suspended if and only if a request with the administrator's key suspended the existing user and none has unsuspended the user since |
| `Suspension.OnlyAdministrator` | src/api/admin.rs:18-28 | an administrative request without the administrator's key changes nothing |
| `Boundary.SuspensionOutlived` | src/broker/auth_hook.rs:69-71 | every run with a user who can log in goes on to a suspension, its lifting and an admission with the token signed before |
| `AuthRace.SuspensionRaceIff` | src/broker/auth_hook.rs:62-75 | with CONNECT split, before the suspension is lifted a connection of the user can be open again if and only if one was between its checks and its opening |
| `AuthRace.SuspensionSigningIff` | src/api/auth.rs:72-111 | with `verify` split, before the suspension is lifted a token is signed for the user in some continuation if and only if a verification of the user was between its checks and its signature |
| `RaceWitness.SuspendedOnlineRun` | src/broker/auth_hook.rs:62-75 | every run with a good token goes on to a suspension between check and opening, after which the suspended user is online |
| `RaceWitness.SignedWhileSuspendedRun` | src/api/auth.rs:72-111 | every run with a user who can log in goes on to a suspension between checks and signature, after which a token of any chosen later second is signed for the suspended user and is admitted once the suspension is lifted |
| `RaceWitness.SuspensionWindowsReached` | src/api/admin.rs:72-82 | both happen in runs from an empty server |
| `Kicking.ValidFromExact` | src/db/mod.rs:64-73 | for every event, the user's age limit moves to the present second if and only if the event kicks the user, and otherwise stays |
| `Admission.StaleIffKicked` | src/broker/auth_hook.rs:67-71 | along every run a token's age passes the limit later if and only if it did before and no kick in between came in a later second |
| `Admission.AdmittedIff` | src/broker/auth_hook.rs:36-76 | in every run an issued token is admitted later if and only if the client id is its device, lifetime plus leeway has not run out, the user is not suspended, and every kick since fell in the second of issue |
| `Admission.AcceptedIff` | src/api/extractors.rs:31-33 | in every run a REST request with an issued token is accepted as its user's if and only if lifetime plus leeway has not run out |
| `Provenance.TokenOrigin` | src/api/auth.rs:99-113 | every signed token goes back to an earlier verification of the run and is the snapshot taken there |
| `Provenance.GrantProvenance` | src/broker/auth_hook.rs:73-93 | every granted subscription is listed in a token signed earlier for that very device, and at its time of issue a row of the user listed the topic or it was the notification topic |
| `Provenance.GrantStep` | src/broker/auth_hook.rs:26-29 | for every event, exactly when a client id is permitted a topic afterwards: replaced by an admitted connect, ended by a disconnect hook or restart, otherwise unchanged |
| `Provenance.OnlyConnectGrants` | src/broker/auth_hook.rs:73-93 | only an admitted connect of that client id turns a refusal into a grant |
| `Notifications.TokenCarriesTopic` | src/crypto.rs:79-85 | every token carries as its last subscription the base64url of the HMAC of `notify:` and its own user id |
| `Notifications.TopicsDiffer` | src/crypto.rs:79-85 | the tokens of two users name the same notification topic if and only if it is one user or the HMAC collides on the two messages |
| `Notifications.TopicIsPersonal` | src/api/auth.rs:99-111 | in every run another user's notification topic is granted only on a token for which a row of the grantee's own listed it at issue, unless the HMAC collides |
| `Connections.OpenStep` | src/broker/mod.rs:85-88 | for every event, a connection is open afterwards if and only if just admitted, or open before and neither hung up, its user kicked, nor the server restarted |
| `Connections.ConnectionsConserved` | src/broker/auth_hook.rs:26-29 | in every run each connection admitted since the last restart is open, has had its disconnect hook, or awaits it; none is lost or reported twice |
| `Challenges.ChallengeStep` | src/api/auth.rs:27-41 | a challenge replaces the outstanding one, an attempt removes it whatever its result, nothing else touches it |
| `Challenges.ChallengeOrigin` | src/api/auth.rs:37-38 | a stored challenge is the latest one issued to that user, with no attempt since |
| `Challenges.TokenIsPaid` | src/api/auth.rs:57-97 | every token rests on the user's latest challenge, at most 60 seconds old, unattempted, whose nonce a key of the user's device verified |
| `Challenges.AttemptSpends` | src/api/auth.rs:61-70 | after any attempt, later tokens of that user rest on challenges issued after it |
| `Challenges.ChallengeOfIsInjective` | src/api/auth.rs:57-70 | the map from issued tokens to issued challenges is injective |
| `Challenges.StoredIff` | src/api/auth.rs:37-38 | in every reachable state a user's stored challenge is the latest one issued, with 60 seconds from issue, if it is unattempted and not lost in a restart |
| `Challenges.VerifySucceedsIff` | src/api/auth.rs:57-113 | in every run a verification yields a token if and only if the user exists and is not suspended and a device of the user signed the user's latest challenge, at most 60 seconds old, unattempted and not lost in a restart |
| `Accounts.FilesFromHistory` | src/api/register.rs:59-75 | in every reachable state users and devices are exactly those that allowed registrations of valid keys have filed, each device with its registered key |
| `Accounts.RunDistinct` | src/db/mod.rs:101-115 | in every reachable state no two devices share an id and every key on file is a valid 32-byte key |
| `Registration.PolicyCharges` | src/api/register.rs:34-57 | a request that passes the push policy has counted a use, whatever happens to it later |
| `Registration.PolicyPassesIff` | src/api/register.rs:42-47 | under the push policy a request passes if and only if its token is usable now; otherwise it is forbidden and nothing changes |
| `Registration.TokenAdmitsExactly` | src/api/admin.rs:48-63 | in every run under the push policy, as many registrations with a new token get past the policy as present it before its expiry, up to its number of uses |
| `Registration.RegistrationConservation` | src/api/register.rs:34-70 | along every run each token's uses stay within 0 and max(0, max_uses), and under the push policy users never outnumber uses, which never exceed what the administrator granted |
| `ExchangeLifecycle.RecordStep` | src/api/exchange.rs:61-133 | every event on a stored record: it vanishes if and only if delivered to its initiator or purged past expiry, and changes if and only if the named responder answers while none is stored |
| `ExchangeLifecycle.AppearStep` | src/api/exchange.rs:26-50 | records appear if and only if an initiation succeeds, with a fresh id, unanswered, with a week to live |
| `ExchangeLifecycle.RunSound` | src/db/mod.rs:245-273 | in every reachable state keys are 32 bytes and expiry is creation plus seven days |
| `ExchangeLifecycle.PartiesAreUsers` | src/api/exchange.rs:31-39 | in every reachable state both parties of every exchange are registered users |
| `ExchangeLifecycle.GoneStaysGone` | src/db/mod.rs:289-309 | a record that has gone never comes back |
| `ExchangeLifecycle.RecordIsStable` | src/api/exchange.rs:61-133 | ids, initiator key and times never change, and a stored answer never changes |
| `ExchangeLifecycle.AnswerOrigin` | src/api/exchange.rs:102-116 | a stored answer was submitted by the named responder in an earlier step |
| `ExchangeLifecycle.AnsweredAtMostOnce` | src/api/exchange.rs:107-109 | over any run an exchange is answered at most once |
| `ExchangeLifecycle.DiscardedAfterDelivery` | src/api/exchange.rs:73-80 | once a completed exchange is delivered to its initiator, no later step shows it to anyone |
| `ExchangeLifecycle.PurgeIsExact` | src/db/mod.rs:311-318 | a purge removes exactly the records past their expiry, keeps the others unchanged and reports the difference in size |
| `ExchangeLifecycle.SurvivesSevenDays` | src/db/mod.rs:245-273 | over any run a record not collected survives seven days |
| `ExchangeLifecycle.GoneAfterPurge` | src/main.rs:41-54 | after the first purge past its expiry a record is gone for good |
| `ExchangeReplies.OfferOrigin` | src/api/exchange.rs:26-50 | every stored record goes back to an accepted request that offered it |
| `ExchangeReplies.FetchAnswers` | src/api/exchange.rs:61-89 | in every run a fetch shows the record if and only if the token is good, the record is stored, and the caller offered it or is the peer its offer named; the reply is ids and key texts as the two sent them; otherwise it is one of three errors and nothing changes |
| `ExchangeReplies.AnswerAnswers` | src/api/exchange.rs:96-133 | in every run an answer is accepted if and only if the token is good, the record is stored, no earlier step answered it, the caller is the peer its offer named and the key is one; the reply is what the two sent |
| `ExchangeRace.AtomicRespondIsReadThenWrite` | src/api/exchange.rs:102-116 | the two halves run back to back are the atomic handler, errors included |
| `ExchangeRace.AtomicGetIsReadThenDelete` | src/api/exchange.rs:66-80 | the atomic fetch is the read, followed by the deletion if the read delivers, and shows the record exactly when the read does |
| `ExchangeRace.AtomicInitiateIsOffer` | src/api/exchange.rs:31-39 | the atomic initiation is the offer |
| `ExchangeRace.AtomicPurgeIsPurge` | src/db/mod.rs:311-318 | the atomic purge is the purge |
| `ExchangeRace.InterleavingKeeps` | src/api/exchange.rs:102-116 | under every interleaving stored answers and pending writes are genuine |
| `ExchangeRace.InterleavingSafety` | src/db/mod.rs:289-302 | under every interleaving a stored answer is a 32-byte key submitted by the named responder, the offer is untouched, and no late write recreates a record |
| `ExchangeRace.AnsweredIffWritten` | src/api/exchange.rs:102-116 | a record unanswered at one point is answered later if and only if a request wrote to it in between |
| `ExchangeRace.OverwritesIff` | src/api/exchange.rs:102-116 | a write replaces an answer if and only if another request wrote to the record since this request's read |
| `ExchangeRace.PendingIsResponders` | src/api/exchange.rs:104-106 | an answer on its way to a stored record is by the record's own responder |
| `ExchangeRace.OneAtATimeIsSafe` | src/api/exchange.rs:102-116 | under every interleaving in which the responder starts no answer while one of its own is pending, each write to a stored record finds it unanswered |
| `ExchangeRace.OneAtATimeAnswersOnce` | src/api/exchange.rs:107-116 | under the same condition a record is answered at most once |
| `ExchangeRace.StartIsUnsafeIff` | src/api/exchange.rs:102-116 | starting an answer opens a way to overwrite one, without any further request, if and only if an earlier answer by the same responder is pending at that moment |
| `ExchangeRace.OverlapOverwrites` | src/api/exchange.rs:102-116 | two overlapping requests both succeed and the record keeps the second key |
| `ExchangeRace.PresentIffNotRemoved` | src/db/mod.rs:304-318 | under every interleaving a record is still there if and only if no deletion or purge has removed it since |
| `ExchangeRace.ShownAgainIff` | src/api/exchange.rs:66-80 | under every interleaving, after its initiator has read the completed record it is shown again if and only if one of its parties asks before its deletion or purge |
| `ExchangeRace.DeletionStaysDue` | src/api/exchange.rs:77-80 | after such a read the deletion stays due until it is done |
| `AnswerRace.LastWriteWins` | src/db/mod.rs:289-302 | under every interleaving the record holds the key of the last write |
| `AnswerRace.AgreesIffStored` | example/smqtt_client.py:53-71 | initiator and responder hold the same keys if and only if the key the initiator read is the responder's, or their two HKDF calls collide on different salts |
| `AnswerRace.LastAnswerAgrees` | example/smqtt_client.py:180-232 | under every interleaving, a client of the responder shares its secret with the initiator if and only if its key is the one written last before the collection, or their two HKDF calls collide on different salts |
| `EndToEnd.KeyTextDecodes` | src/api/exchange.rs:111-116 | the key text a client sends is stored as the key itself |
| `EndToEnd.OfferIsKept` | src/api/exchange.rs:31-39 | whenever the record is stored it carries what its initiator offered |
| `EndToEnd.CollectedIsAnswer` | src/api/exchange.rs:73-80 | the initiator collects the very key the responder submitted |
| `EndToEnd.KeyAgreement` | example/smqtt_client.py:163-232 | in every run in which both clients complete one exchange they hold equal topic seed, encryption key and authentication key, each under the other's authenticated id |
| `EndToEnd.HandshakeKeys` | example/smqtt_client.py:163-232 | in every completed exchange both sides hold, from the two private keys alone, the three consecutive 32-byte parts of the HKDF output for the Diffie-Hellman secret under both public keys in ascending order |
| `EndToEnd.HandshakeTopics` | example/smqtt_client.py:73-83 | each side registers for publishing the base64url of the HMAC of `me>peer` under the first 32 bytes of that output, and for subscription that of `peer>me` |
| `EndToEnd.TokenListsPeer` | src/api/auth.rs:99-111 | a token signed while a row is present lists the row's topics for subscription |
| `EndToEnd.RoutesTo` | src/broker/auth_hook.rs:84-93 | one direction, given that the row was registered and its owner has not revoked it: the token lists what the peer registered for publishing, and a connection admitted with it that holds its session entry is granted it |
| `EndToEnd.EndToEndRouting` | example/smqtt_client.py:234-245 | after a completed exchange, registration by both and re-authentication without a revocation since, each side's token lists what the other publishes to, and the broker grants it |
| `Progress.LoginSucceeds` | src/api/auth.rs:27-114 | signing the challenge with the key on file yields the snapshot of the table |
| `Progress.RegisteredUserGetsIn` | src/api/register.rs:59-75 | a newly registered user can log in, connect with the device and subscribe to the notification topic |
| `Progress.HandshakeSucceeds` | example/smqtt_client.py:163-232 | any run in which two users hold usable tokens extends to a complete handshake between them |
| `Routing.RoutingReached` | example/smqtt_client.py:163-245 | any run in which two users hold good tokens and can log in extends by handshake, both registrations, logins and connects to grants, to each, of the very topic the other registered for publishing |
| `Database.Database.UserTopics` | src/db/mod.rs:216-230 | the aggregation loop yields the topics of the user's rows in order; a topic is in it if and only if a row lists it |
| `Database.Database.InvalidateTokens` | src/db/mod.rs:64-73 | sets one user's earliest accepted time of issue to now, if the user exists, and nothing else |
| `Database.Database.SetSuspended` | src/db/mod.rs:75-89 | changes one user's suspension, or reports that there is none |
| `Database.Database.GetDeviceByUser` | src/db/mod.rs:117-127 | exactly the devices of the user |
| `Database.Database.ListRelationships` | src/db/mod.rs:169-180 | exactly the rows of the user |
| `Database.Database.GetRelationship` | src/db/mod.rs:182-198 | a row of that user and id, or none exists |
| `Database.Database.DeleteRelationship` | src/db/mod.rs:200-213 | deletes the caller's row of that id; succeeds if and only if a row went |
| `Database.Database.CreateExchange` | src/db/mod.rs:247-273 | adds an unanswered record with seven days to live |
| `Database.Database.SetResponderPubkey` | src/db/mod.rs:289-302 | updates the answer of a stored record, never creates one |
| `Database.Database.PurgeExpiredExchanges` | src/db/mod.rs:311-318 | removes the records past their expiry and returns their number |
| `Database.Database.ConsumeRegistrationToken` | src/db/mod.rs:342-354 | counts one use on every usable row, fails if there is none |
| `App.Broker.KickDevices` | src/broker/mod.rs:85-88 | the loop closes exactly the open connections among the given devices, each once |
| `App.AppState.KickUser` | src/broker/mod.rs:75-89 | equals the specified kick, and in sound states closes exactly the connections whose token names the user |
| `App.AppState.IssueJwt` | src/crypto.rs:42-63 | signs claims with the present second and the configured lifetime |
| `App.AppState.constructor` | src/state.rs:28-39 | starts with empty tables, maps and broker |
| `Spec.DecodeKey` | src/api/exchange.rs:34-37 | an accepted key is 32 bytes and encodes back to the same text |
| `Replies.CallerIff` | src/api/extractors.rs:17-34 | who a request comes from: the subject of a server's token within its life and the leeway, nobody otherwise |
| `Replies.DecodeKeyIff` | src/api/exchange.rs:34-37 | a key is accepted from exactly one text, its unpadded base64url, and must be 32 bytes |
| `Replies.PolicyReplies` | src/api/register.rs:34-57 | registration is allowed if and only if the mode is open, the hook says so, or the token is usable; each refusal with its error |
| `Replies.RegisterReplies` | src/api/register.rs:29-76 | registration succeeds if and only if allowed and the key is valid; it then files one active user and one device and replies with their ids |
| `Replies.ChallengeReplies` | src/api/auth.rs:27-41 | an existing user's challenge is stored for 60 seconds and sent as text; an unknown user is not found |
| `Replies.VerifyReplies` | src/api/auth.rs:57-114 | each outcome of a verification with the condition under which it occurs; every attempt spends the challenge |
| `Replies.InitiateReplies` | src/api/exchange.rs:26-50 | each outcome of an initiation with its condition; the record names caller and peer and lives 604800 seconds |
| `Replies.GetReplies` | src/api/exchange.rs:61-89 | each outcome of a fetch with its condition |
| `Replies.RespondReplies` | src/api/exchange.rs:96-133 | each outcome of an answer with its condition |
| `Replies.CreateReplies` | src/api/relationships.rs:31-53 | a row is stored and returned as requested, for the caller |
| `Replies.ListReplies` | src/api/relationships.rs:55-72 | the caller's rows and no others are returned |
| `Replies.RevokeReplies` | src/api/relationships.rs:74-84 | revocation succeeds if and only if the caller owns a row of that id; otherwise nothing changes |
| `Replies.CreateTokenReplies` | src/api/admin.rs:48-63 | the administrator alone gets a token, whose keyed hash is what is stored, unused, with the limits asked for |
| `Replies.SuspendReplies` | src/api/admin.rs:72-82 | the administrator alone suspends an existing user, with the reason given and the tokens aged |
| `Replies.UnsuspendReplies` | src/api/admin.rs:84-92 | the administrator alone unsuspends an existing user |
| `RestApi.Challenge` | src/api/auth.rs:27-41 | state and reply equal the specified step |
| `RestApi.Verify` | src/api/auth.rs:57-114 | the ordered checks, the aggregation and the signing equal the specified step, the challenge being spent on every exit |
| `RestApi.CheckRegistrationPolicy` | src/api/register.rs:33-57 | every policy branch equals the specified decision, consumption included |
| `RestApi.Register` | src/api/register.rs:29-76 | equals the specified step; a consumed token stays consumed when the key is rejected |
| `RestApi.Initiate` | src/api/exchange.rs:26-50 | equals the specified step |
| `RestApi.GetExchange` | src/api/exchange.rs:61-89 | equals the specified step, with the discard after delivery |
| `RestApi.Respond` | src/api/exchange.rs:96-133 | equals the specified step and returns the key in the text it was sent in |
| `RestApi.PurgeTimer` | src/main.rs:46-53 | equals the specified step and its count |
| `RestApi.CreateRelationship` | src/api/relationships.rs:31-53 | equals the specified step |
| `RestApi.ListRelationships` | src/api/relationships.rs:55-72 | equals the specified reply, the caller's own rows, and changes nothing |
| `RestApi.Revoke` | src/api/relationships.rs:74-84 | equals the specified step: one row deleted, both ends kicked |
| `RestApi.CreateRegistrationToken` | src/api/admin.rs:48-63 | equals the specified step |
| `RestApi.SuspendUser` | src/api/admin.rs:72-82 | equals the specified step |
| `RestApi.UnsuspendUser` | src/api/admin.rs:84-92 | equals the specified step |
| `AuthHook.Authenticate` | src/broker/auth_hook.rs:36-76 | the ordered checks equal the specified admission; exactly an admitted client id gets its session entry |
| `AuthHook.OnConnect` | src/broker/auth_hook.rs:20-22 | admission followed by the connection equals the specified step |
| `AuthHook.CheckSubscribeAcl` | src/broker/auth_hook.rs:78-103 | grants if and only if the session entry lists the topic |
| `AuthHook.OnDisconnected` | src/broker/auth_hook.rs:26-29 | removes the session entry and nothing else of the server |
| `Client.SmqttClient.Register` | example/smqtt_client.py:123-141 | keeps the generated key whatever the answer, takes the server's ids on success and keeps the old ones on failure; an empty token is not sent |
| `Client.SmqttClient.Authenticate` | example/smqtt_client.py:143-161 | challenge, then verification with the held key's signature of exactly the nonce drawn; the token is kept on success |
| `Client.SmqttClient.InitiateExchange` | example/smqtt_client.py:163-178 | equals the server's step on the client's encoded key |
| `Client.SmqttClient.RespondToExchange` | example/smqtt_client.py:180-208 | fetch, answer, derivation and registration composed, stopping at the first error |
| `Client.SmqttClient.CompleteExchange` | example/smqtt_client.py:210-232 | collection, derivation and registration composed; none while the peer has not answered |
| `Client.SmqttClient.RegisterRow` | example/smqtt_client.py:234-245 | registers outbound for publishing and inbound for subscription |
| `ClientRuns.RespondFlowRuns` | example/smqtt_client.py:180-208 | the client's answering call is a stretch of three steps of a run: a fetch, an accepted answer and the registration of the mirrored topics |
| `ClientRuns.CompleteFlowRuns` | example/smqtt_client.py:210-232 | the client's completing call is a stretch of two steps: the collection of a completed exchange and the registration |
| `ClientRuns.ClientsAgree` | example/smqtt_client.py:163-245 | whatever happens between Bob's answering call and Alice's completing call, if both return a secret the secrets hold equal keys under each other's id, and each side publishes to what the other subscribes to |

## Left out

- rmqtt itself: routing, QoS, retained messages, persistent-session subscriptions, listener setup. Theorems are about admission and the subscribe decision, not about message delivery.
- `publish_system`, the notifications sent by `initiate` and `respond`, and their delivery.
- Publish authorization: topics for publishing are carried in the claims, but no hook decides on them.
- Suspension and token age on REST calls: the code checks only the token itself there, so those theorems are about MQTT connect and token issue.
- The peer's own row on revocation: the code deletes only the caller's row, and the theorems say so.
- Interleavings inside other handlers than `respond`, `get`, `verify` and CONNECT: other requests between the deletion and the kicks of `revoke` (a restart there is in `Interrupted`), between marking and kick of `suspend_user`, between the device rows read and the loop of `kick_user`. In `AuthRace` setting the session entry and opening the connection are one step, as are the checks of `verify` and its read of the rows.
- Failing database statements; `kick_user` logs such a failure and goes on.
- The internals of Ed25519, X25519, HMAC, HKDF and JWT signing, including the rejection of low-order X25519 points, and payload encryption with ChaCha20-Poly1305.
- JSON encoding of topic lists and claims, SQL text, foreign keys, the connection pool, migrations; the `recovery_codes` table, which no code uses.
- The HTTP call of the registration hook: its answer is an argument.
- The `Bearer` header and the admin header: a request carries a token or a key. A missing or malformed header is a token that does not verify.
- Configuration loading, argument parsing, mapping of errors to status codes, logging, `example/presence.py` and `example/smoke_test.py`.
- Base64Url.B64uDecode: Python's decoder skips characters outside its alphabet; the model rejects them. On every text that the server or a client produces the two agree.
