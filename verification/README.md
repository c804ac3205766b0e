# Telemetry gateway: a Dafny model

This project models the stateful and arithmetic cores of a multi-tenant telemetry
gateway and proves what they promise over every input, every run and every interleaving.
`dafny verify dfyconfig.toml` checks all of it.

| component | modules |
|---|---|
| Tamper-evident record chain | `CanonicalRecord`, `Chain` (over `Json`, `Utf8`, `Strings`) |
| Chain-safe deletion and its three readers | `Deletion`, `ContentViews`, `ContentRuns`, `ContentArchive`, `ExportProof` (over `Seal`) |
| OAuth 2.1 authorization server | `ExpiringStore`, `OAuth`, `OAuthRuns`, `TokenVerifier`, `OAuthLogins` |
| Metering and billing | `Fields`, `Metering`, `Billing`, `MeteringRuns`, `BillingRuns` |
| Envelope encryption, crypto-shred, session ids | `Seal`, `SessionIds` |
| Keyset pagination and codecs | `Ordering`, `Paging`, `UsagePaging`, `UsageList`, `SessionPaging`, `Base64Url`, `BridgeKeys` |
| Calendar, spend and forecast | `Calendar`, `Period`, `Money`, `Spend`, `LeastSquares` |

How the parts are modelled:

- A component whose methods update state is a class (`TelemetryTable`, `Service`,
  `MemoryStore`, `AuthServer`, `Verifier`, `Biller`, `Meter`, `SecretVault`,
  `BridgeVerifier`). Each method is proved equal to a function of the old state, and the
  laws are proved about those functions, over whole runs where time matters.
- Concurrency is a state machine whose steps can come in any order: writers that read the
  chain's tip and insert later; increments, flushes, crashes, rollbacks and expiries.
- Cryptography is ideal and symbolic. The chain hash, the bearer hash and the AEAD are
  parameters; a lemma that needs them collision-free or unforgeable says so (`Ideal`), and
  one about a 32-byte digest names the collision that would break it (`Collide`).
  Random secrets and keys are fresh by construction of the run.
- The database is its relational meaning: filters, unique constraints, upserts,
  transactions, ORDER BY and LIMIT.

Where the code and what it says about itself part ways, the model follows the code. Each
of these comes with a run or an input at which it fails and a theorem about all of them:

- Every IntegrityError is taken to mean "already there". `Chain.RaisedMeansPresentOrRaced`
  says when that is so; `Chain.LoserIsNotADuplicate` is a run in which it is not.
- Deletion and shred events share one namespace of external ids with captured content.
  `ContentRuns.PurgedIffCovered` holds for runs of ids outside it, `ContentViews.ShredShows`
  and `ContentViews.DeletedMessagesArePurged` say what blocks them in any state, and
  `ContentRuns.MessageNamedTenantHidesShred` and `ContentRuns.CapturedDeletionIdHidesDelete`
  are runs in which a shred and a deletion stay invisible.
- Stripe's idempotency key names only the minute bucket, so a bucket split over two flushes
  is billed short: `BillingRuns.SplitBucketIsShort`. A transaction that fails after its
  dispatch leaves a charge with no usage: `BillingRuns.RolledBackChargeStays`. By how much
  billing misses usage in any run, and so when it is exact: `BillingRuns.BillingAgainstUsage`.
- The key's parts are joined with colons. Two buckets share a key if and only if a colon
  stands in the tenant or the record type (`Fields.TextIsShared`), and Stripe's bound per
  bucket holds over all runs if and only if none splits them (`BillingRuns.BoundHoldsIffUnambiguous`,
  with the run in `BillingRuns.ColonsCollide`).
- The comments expect a crashed flush to be retried; no code does.
  `MeteringRuns.CrashedFlushIsNeverResumed` holds in every run, a count reaches usage if and
  only if its flush committed it (`MeteringRuns.UsageIsWhatCommitted`), and
  `BillingRuns.CrashedCountsAreLost` is a run that loses one; only expiry does
  (`MeteringRuns.OnlyExpiryLoses`).
- The session list compares cursor rows in one direction while it orders them in two: over
  the limits the endpoint accepts, walks are complete if and only if no two sessions end
  together (`SessionPaging.CompleteIffDistinct`); of a tie, later sessions are lost and earlier
  ones come back (`SessionPaging.TiesAreNotResumed`, `SessionPaging.TiesComeBack`).
- The usage totals price each (vendor, model) bucket at its earliest row: they are the sum of
  the listed costs, whatever the records, if and only if no rate a row can be charged changes
  in the range (`UsageList.TotalsMatchIffRatesHold`; `UsageList.RateChangeMissesTotal` gives
  the records). The daily series does the same by day: `Spend.DailySpendMatchesIffSteady`.
- A window for an aware but non-UTC `now` holds it if and only if its UTC date is in the same
  day, week or month as its local one: `Period.WindowHoldsNow`, `Period.WindowMissesNow`.
- A cached bearer token outlives its revocation: `TokenVerifier.CachedAnswer` says exactly
  when, `TokenVerifier.RevokedIsStillAccepted` is a run.
- Section 6.2.1.2 of RFC 7518 wants full-size P-256 coordinates; the gateway publishes
  minimal ones: full size exactly from 256^31 on (`BridgeKeys.CoordinateLength`), "AA" for 0
  (`BridgeKeys.UintText`).

## Model

| member | source | states |
|---|---|---|
| Json.LoadsInvertsText | vargate_telemetry/chain.py:99-105 | reading a serialized JSON value back gives that value, for every nesting, escape, integer and float |
| Json.DumpsIsCanonical | vargate_telemetry/chain.py:99-105 | two dicts have the same canonical text if and only if they mean the same, so key order never matters |
| Json.LoadsRecoversDict | vargate_telemetry/chain.py:64-105 | the dict is recovered from its canonical text |
| CanonicalRecord.CanonicalBytesIdentifyFields | vargate_telemetry/chain.py:64-105 | two records have equal canonical bytes if and only if every hashed column is equal |
| CanonicalRecord.CanonicalBytesHold | vargate_telemetry/chain.py:64-105 | reading the hashed bytes back gives the eight immutable columns, each under its own key |
| CanonicalRecord.HexTextDigits | vargate_telemetry/chain.py:83-84 | a hash is written as two digits for each byte, the high one first |
| Utf8.RoundTrip | vargate_telemetry/chain.py:99-105 | decoding the UTF-8 of any text returns it |
| Chain.VerifyAcceptsLinked | vargate_telemetry/chain.py:206-259 | verification accepts exactly the chains whose every row hashes its fields with the row before, and counts them; otherwise it reports the first broken link and how many records came before it |
| Chain.TamperEvidence | vargate_telemetry/chain.py:206-259 | two accepted chains of a tenant have the same tip hash if and only if they hold the same records in the same order |
| Chain.EditIsLocated | vargate_telemetry/chain.py:206-259 | rewriting hashed columns of one record of an accepted chain is reported at that record |
| Chain.UnboundColumnsStayAccepted | vargate_telemetry/chain.py:235-259 | sizes, the first stored previous hash and gaps in the numbering are not protected |
| Chain.InsertOutcome | vargate_telemetry/chain.py:149-203 | an insert with a remembered tip raises exactly when the record is there or the chain grew since, and otherwise keeps every tenant's chain linked |
| Chain.ConcurrentAppends | vargate_telemetry/chain.py:149-203 | under every interleaving of writers the numbers are exactly 1..n, every link holds, and verification says valid with n records |
| Chain.RaisedMeansPresentOrRaced | vargate_telemetry/models/records.py:89-100 | in every reachable state, the insert raises if and only if the record is present or another row was committed after the tip was read |
| Chain.LoserIsNotADuplicate | mcp_server/tasks/persist_event.py:115-122 | a two-writer run whose loser raises although its record is not in the table |
| Chain.TelemetryTable.Append | vargate_telemetry/chain.py:108-203 | a serial append validates, raises exactly on a duplicate and otherwise adds the next link |
| Deletion.DeleteOneOutcome | vargate_telemetry/content_deletion.py:127-175 | deleting one message keeps the invariant, takes exactly its own blob unless the store raises, and appends at most the one event that records it |
| Deletion.DeleteAllOutcome | vargate_telemetry/content_deletion.py:127-175 | a deletion pass only appends, and deleted plus already deleted is the number of rows selected |
| Deletion.DeleteAllRecords | vargate_telemetry/content_deletion.py:127-175 | every row a pass appends records the deletion of a selected message: its id, chat and subject, the reason, requester, time and scope asked for, under the hash of saying so |
| Deletion.RepeatedDeleteIsIdempotent | vargate_telemetry/content_deletion.py:74-100 | deleting the same rows again appends nothing, whoever asks |
| Deletion.DeletedBlobsAreGone | vargate_telemetry/content_deletion.py:127-175 | a pass takes exactly the blobs of the selected messages whose removal did not raise, even where an event was not recorded, and leaves every other blob as it was |
| ContentViews.MessageViewsAgree | vargate_telemetry/content_export.py:119-218 | for a message of a chat, the list's join, the detail view's ids and the export's ids give the same purge state |
| ContentViews.ChatViewsAgree | vargate_telemetry/api/content.py:243-306 | the list and the detail view call the same chats purged |
| ContentViews.DeletedMessagesArePurged | vargate_telemetry/content_deletion.py:74-175 | in any state, a deleted message is then purged if and only if its event's id was not occupied (or the tenant is shredded) |
| ContentViews.ShredShows | vargate_telemetry/content_deletion.py:227-264 | in any state, a shred then shows if and only if no other row sits on its external id |
| ContentRuns.CleanRunsNeverBlock | vargate_telemetry/content_deletion.py:74-100 | after any run that captured only ids outside the deletion namespace, no deletion and no shred is blocked |
| ContentRuns.DeletionIsAppendOnly | vargate_telemetry/content_deletion.py:74-310 | over every run of captures, deletions, reveals, shreds and key changes the old chain stays a prefix, verifies, and the three views agree |
| ContentRuns.PurgedForGood | vargate_telemetry/content_deletion.py:74-264 | after any run of such ids, what a deletion or a shred covers is purged in the list, in its chat and in the export from then on, whatever follows |
| ContentRuns.PurgedIffCovered | vargate_telemetry/content_export.py:119-218 | after any run of such ids a message is purged, in each of the three views, if and only if an operation of the run covered it |
| ContentRuns.MessageNamedTenantHidesShred | vargate_telemetry/content_deletion.py:227-264 | a run of accepted captures: the deletion of a message with id "tenant" keeps a later shred from showing |
| ContentRuns.CapturedDeletionIdHidesDelete | vargate_telemetry/content_deletion.py:74-100 | a run of accepted captures: an id in the deletion namespace keeps a deleted message visible as not purged |
| ContentRuns.ShredIsTerminal | vargate_telemetry/content_deletion.py:227-264 | no blob stored before a shred opens again, whatever follows, even a new key |
| ContentRuns.BlobIsKeptIffNotErased | vargate_telemetry/content_deletion.py:127-264 | over any run that does not store under a reference again, its blob is there, as it was, if and only if no deletion of the run took it; a shred takes none |
| ContentRuns.IngestAccepts | vargate_telemetry/chain.py:149-203 | a capture is taken exactly by a tenant, with a 32-byte hash and an id of its own, and never as a deletion event; otherwise nothing changes |
| ContentRuns.RevealIsLogged | vargate_telemetry/content_deletion.py:267-310 | a reveal with a new id is its own event in the chain, saying what was revealed, when and to whom, and touches neither content nor keys |
| ContentArchive.CoveredYieldsNoContent | vargate_telemetry/api/content.py:361-446 | after any run of such ids, what a deletion or a shred covered is purged and yields no content to the detail view or the export, even if its blob lingers or is stored again |
| ContentArchive.ShownIffUncovered | vargate_telemetry/content_export.py:136-218 | after any run of such ids, a message shows its content in the detail view and the export if and only if nothing covered it and its blob opens |
| ContentArchive.CapturedIsShown | vargate_telemetry/api/content.py:361-446 | over any run of such ids, a captured message is shown with the very text captured (or its masked form, with its findings) in the detail view and the export if and only if no operation covered it or took its blob and the key is the one of its capture |
| ContentArchive.FirstCaptureIsShown | vargate_telemetry/api/content.py:361-446 | such a run exists: provision a key, capture a message, and the reveal shows its text |
| ContentArchive.DeletedYieldsNoContent | vargate_telemetry/content_deletion.py:127-175 | whatever the ids, a message deleted without a blob error yields no content in either reader until a capture stores under its reference |
| ContentArchive.GroupedByChat | vargate_telemetry/content_export.py:161-216 | grouping loses and repeats nothing: the chats come as first seen, each once, with their own records in order |
| ContentArchive.ThreadIsOrdered | vargate_telemetry/api/content.py:341-382 | a chat's messages are all its records, each as often as it is in the table, in strict order of time and then chain number |
| ExportProof.DigestIdentifiesProof | vargate_telemetry/content_export.py:220-254 | two exports carry the same digest if and only if they report the same verification and hold the same proof rows, or their two texts are a collision of the hash |
| ExportProof.DigestDictHolds | vargate_telemetry/content_export.py:220-254 | the hashed dict holds the verification and the records, each part under its own key |
| ExportProof.RowHolds | vargate_telemetry/content_export.py:190-200 | a proof row holds its eight columns, each under its own key |
| ContentArchive.Service.AppendDeletionEvent | vargate_telemetry/content_deletion.py:74-100 | True exactly when no row of the tenant had the event's id; the event is then the next link of a well-formed chain, and otherwise nothing changes |
| ContentArchive.Service.DeleteMessageRecords | vargate_telemetry/content_deletion.py:127-175 | the loop is the deletion pass; its counters add up to the rows, each appended row records a selected message, and exactly their blobs are gone |
| ContentArchive.Service.DeleteChat | vargate_telemetry/content_deletion.py:178-195 | a chat's deletion, refused without a tenant or chat id; it takes the blobs of that chat's messages and no other |
| ContentArchive.Service.DeleteUserContent | vargate_telemetry/content_deletion.py:198-224 | a user's deletion, recorded as a data-subject request for that user; it takes the blobs of that user's messages and no other |
| ContentArchive.Service.CryptoShredTenant | vargate_telemetry/content_deletion.py:227-264 | refused without a tenant; the vault's key goes first, then the event that records it; both flags say what happened |
| ContentArchive.Service.BuildChatDetail | vargate_telemetry/api/content.py:335-458 | one message per record in order of time: nothing of a purged or unreadable one, the masked text of any other, or on a reveal the text itself, with the findings counted either way; the chat is purged if all are, with the reason and time of a most recent covering event |
| ContentArchive.Service.GatherExportModel | vargate_telemetry/content_export.py:82-254 | for any table, tampered or not: every record in scope once in its chat, masked if asked for and empty if purged, and once in the proof, which certifies its columns; the counts and the report are those of the chats, the proof and the chain, the digest names both, and in an untouched table each proof row rehashes to its own hash |
| Base64Url.RoundTrip | mcp_server/auth/bridge_verifier.py:230-235 | decoding an unpadded base64url text returns its bytes (section 5 of RFC 4648) |
| BridgeKeys.UintRoundTrip | vargate_telemetry/auth/bridge_keys.py:250-254 | the verifier's decode of the gateway's encoding returns every non-negative integer |
| BridgeKeys.ByteLengthIsMinimal | vargate_telemetry/auth/bridge_keys.py:250-254 | the octet count is the least that fits the integer |
| BridgeKeys.NoLeadingZeroOctet | vargate_telemetry/auth/bridge_keys.py:250-254 | only zero has a leading zero octet, as Base64urlUInt demands (section 2 of RFC 7518) |
| BridgeKeys.UintText | vargate_telemetry/auth/bridge_keys.py:250-254 | the text is unpadded base64url of the exact length, "AA" for zero |
| BridgeKeys.CoordinateLength | vargate_telemetry/auth/bridge_keys.py:257-281 | a coordinate takes at most 43 characters, and all 43 exactly when it needs 32 octets |
| BridgeKeys.PublishedKeyIsReadBack | mcp_server/auth/bridge_verifier.py:238-246 | the verifier rebuilds exactly the published key, if it is on the curve; the document names the key and its use |
| BridgeKeys.BridgeVerifier.SetJwk | mcp_server/auth/bridge_verifier.py:86-113 | an EC P-256 document with readable coordinates of a point on the curve replaces the key by that point; any other leaves the old one in place |
| ExpiringStore.AnswersFromHistory | mcp_server/auth/oauth_routes.py:78-103 | after any run with a clock that does not go back, a take answers what the history dictates: once, never after expiry, never lost before |
| ExpiringStore.SweepIsInvisible | mcp_server/auth/oauth_routes.py:78-92 | the sweep never changes a later answer |
| ExpiringStore.MemoryStore.StorePut | mcp_server/auth/oauth_routes.py:78-92 | the sweeping loop removes exactly the expired entries and stores the new one |
| ExpiringStore.MemoryStore.StorePop | mcp_server/auth/oauth_routes.py:95-103 | the entry is removed, and answered only while it is good |
| OAuth.PkceMatches | mcp_server/auth/oauth_routes.py:636-645 | an accepted challenge is the 43-character encoding of the verifier's digest, and a digest's challenge is met by exactly the verifiers with that digest (section 4.6 of RFC 7636) |
| OAuth.StateIsOneShot | mcp_server/auth/oauth_routes.py:516-628 | once a verified callback named a state, no later callback for it succeeds, whatever became of the first |
| OAuth.CodeIsOneShot | mcp_server/auth/oauth_routes.py:675-735 | a code presented once is spent, even if the client or PKCE check failed |
| OAuth.RefreshIsOneShot | mcp_server/auth/oauth_routes.py:738-769 | a refresh token presented once is spent, even by the wrong client |
| OAuth.AllowlistIs | mcp_server/auth/oauth_routes.py:184-191 | a redirect URI is allowed if and only if it starts with one of the four prefixes |
| OAuth.AuthorizeOutcome | mcp_server/auth/oauth_routes.py:317-477 | which requests go on, and what is kept for them, parameter by parameter with the defaults; the errors told apart |
| OAuth.CallbackOutcome | mcp_server/auth/oauth_routes.py:516-628 | the client is sent back to its own URI with its own state if and only if the JWT is verified, names a good state and carries a whole identity; the code stands for both |
| OAuth.ExchangeOutcome | mcp_server/auth/oauth_routes.py:675-841 | an exchange answers a pair if and only if the code is stored and good, the client is the grant's, the redirect URI absent or the grant's, the verifier meets the challenge and the insert commits; the server then stands by both tokens as answered |
| OAuth.RefreshOutcome | mcp_server/auth/oauth_routes.py:738-841 | a rotation answers a pair if and only if the token is stored and good, the client is its own and the insert commits; the new pair is for what the old one was |
| OAuth.AuthServer.RegisterClient | mcp_server/auth/oauth_routes.py:184-263 | a client is registered, with the URIs it gave, exactly when there are some and all are on the allowlist |
| OAuth.AuthServer.HandleAuthorize | mcp_server/auth/oauth_routes.py:317-477 | the endpoint is its specification: each check in order, then a stored state or, in spike mode, a code |
| OAuth.AuthServer.Claim | mcp_server/auth/oauth_state.py:122-138 | answers exactly for a state stored and not expired; no later claim answers again, and no other state is touched |
| OAuth.AuthServer.HandleCallback | mcp_server/auth/oauth_routes.py:516-628 | the state is claimed before the identity is looked at, and a code is minted only with both |
| OAuth.AuthServer.HandleCode | mcp_server/auth/oauth_routes.py:675-735 | the code is spent before client, redirect URI and verifier are checked; a pair is answered exactly for a redeemable one, and the server stands by it |
| OAuth.AuthServer.HandleRefresh | mcp_server/auth/oauth_routes.py:738-769 | the refresh token is spent before the client is checked, and rotated exactly when it is renewable; the server stands by the new pair |
| OAuth.AuthServer.IssueTokenPair | mcp_server/auth/oauth_routes.py:772-841 | the row and the refresh entry of the answered pair are written together, with their lifetimes, or neither |
| OAuthRuns.SpentAtMostOnce | mcp_server/auth/oauth_routes.py:95-103 | in every run a state yields at most one code, a code at most one pair, a refresh token at most one successor |
| OAuthRuns.OneLiveArtefactPerLogin | mcp_server/auth/oauth_routes.py:582-841 | in every reachable state a login has at most one live artefact across all three stores, so at most one unspent refresh token |
| OAuthRuns.RedirectsAreRegistered | mcp_server/auth/oauth_routes.py:271-628 | whatever is asked of a reachable server, a client is only ever sent to a URI that some client registered and that is on the allowlist |
| OAuthRuns.OneLoginOneIdentity | mcp_server/auth/oauth_routes.py:693-841 | all tokens of one login carry the same client, tenant, user, resource and scopes |
| OAuthRuns.TokenProvenance | mcp_server/auth/oauth_routes.py:381-841 | with spike mode off every access token was issued by one event, expires its lifetime after it, and goes back from there, rotation by rotation, to the exchange, the callback and the one `/authorize` call of its own login: by a client registered for the redirect URI and not retired when it called, with one verified bridge JWT for this identity and a verifier that meets that call's challenge, each within ten minutes of the last |
| OAuthLogins.LoginCompletes | mcp_server/auth/oauth_routes.py:317-841 | in every run, an authorize, a callback and an exchange in time end in a pair for the client that asked, the identity of the JWT and the resource and scope asked for, whatever happens in between, provided nobody else presents the state or the code |
| OAuthLogins.FirstLogin | mcp_server/auth/oauth_routes.py:317-841 | such a login exists: five requests to a new server end in an access token that is accepted as the identity of the JWT |
| OAuthLogins.AccessTokenIsAccepted | mcp_server/auth/token_verifier.py:130-248 | whatever a run does next, an answered access token is accepted if and only if it has not expired or been revoked and is for this resource, and acts for the client and identity it was issued for |
| OAuthLogins.RefreshTokenRenews | mcp_server/auth/oauth_routes.py:738-841 | until somebody presents it, an answered refresh token is worth a new pair for the same data, exactly to its client and before it expires |
| OAuthLogins.RetiredForGood | mcp_server/auth/oauth_routes.py:381-440 | in every run, a retired client never gets past `/authorize` again |
| TokenVerifier.CachedAnswer | mcp_server/auth/token_verifier.py:130-205 | the cached check differs from the lookup exactly for a token revoked while cached, and never answers at or after expiry |
| TokenVerifier.CacheRefinesLookup | mcp_server/auth/token_verifier.py:59-97 | after any run the cache holds at most 1024 entries, and without revocations every answer is the table's |
| TokenVerifier.RevokedIsStillAccepted | mcp_server/auth/token_verifier.py:73-81 | a run in which a revoked token is still accepted |
| TokenVerifier.HitNeedsNoDatabase | mcp_server/auth/token_verifier.py:130-205 | an accepted token is accepted again, with the database down, until its entry expires |
| TokenVerifier.GetOutcome | mcp_server/auth/token_verifier.py:73-81 | reading the cache answers a good entry and takes away an expired one, and no other |
| TokenVerifier.PutOutcome | mcp_server/auth/token_verifier.py:84-97 | writing adds the entry; when the cache is full the oldest one goes, and no other |
| TokenVerifier.IdentityRoundTrip | mcp_server/auth/token_verifier.py:186-248 | the packed identity is read back whatever the granted scopes are; None exactly when a part is empty |
| TokenVerifier.VerifiedIdentityIsAuthorized | mcp_server/auth/token_verifier.py:130-248 | end to end, an accepted bearer acts as the identity of the verified bridge JWT, and for the client, of the very call it descends from |
| TokenVerifier.IdentityFromAccessToken | mcp_server/auth/token_verifier.py:227-248 | the loop returns the last marker of each kind |
| TokenVerifier.Verifier.Put | mcp_server/auth/token_verifier.py:84-97 | a full cache drops its oldest entry first |
| TokenVerifier.Verifier.VerifyToken | mcp_server/auth/token_verifier.py:130-205 | the method keeps the cache sound and answers as specified |
| Fields.SplitRoundTrip | vargate_telemetry/metering.py:135-140 | splitting a counter's field gives its parts back if and only if the first two hold no delimiter |
| Fields.TextIsShared | vargate_telemetry/billing/stripe_client.py:123-126 | another bucket of the same form has the same idempotency key if and only if a colon stands in the tenant or the record type |
| Metering.IncrementField | vargate_telemetry/metering.py:87-110 | incrementing a hash field increments the bucket it names and no other |
| Metering.GroupByTenant | vargate_telemetry/metering.py:134-142 | the grouping loop gives each tenant its own counters, in order |
| Metering.Meter.Increment | vargate_telemetry/metering.py:87-110 | takes exactly non-empty names without the delimiter and positive counts, and then adds to that one bucket |
| Metering.Meter.Flush | vargate_telemetry/metering.py:113-155 | an uninterrupted flush moves every counter to usage, dispatches the billed ones and empties the hash |
| Billing.Biller.ReportUsage | vargate_telemetry/billing/stripe_client.py:129-208 | the dispatch loop: nothing without a billing row or dispatcher, a retry row for each call that raises |
| Billing.DispatchAllAccounts | vargate_telemetry/billing/stripe_client.py:176-208 | every dispatched quantity is charged, queued for retry or taken for a replay |
| Billing.FirstDispatchIsNotSwallowed | vargate_telemetry/billing/stripe_client.py:123-208 | a bucket dispatched for the first time is charged or queued, never ignored |
| MeteringRuns.CountsAreConserved | vargate_telemetry/metering.py:87-201 | under every interleaving with crashes, what was counted is active, uncommitted in a surviving flush, in usage, or expired |
| MeteringRuns.OnlyExpiryLoses | vargate_telemetry/metering.py:113-155 | while nothing expires nothing is lost, whatever crashes or rolls back: every flush hash is kept until all of it is committed |
| MeteringRuns.CrashedFlushIsNeverResumed | vargate_telemetry/metering.py:24-29 | once a flush's worker is gone, no later step of any run commits what it had not committed |
| MeteringRuns.UsageIsWhatCommitted | vargate_telemetry/metering.py:149-201 | in every reachable state, usage is the sum of what committed transactions carried |
| BillingRuns.CrashedCountsAreLost | vargate_telemetry/metering.py:129-136 | a run: a flush that crashes and expires leaves its counts nowhere but among the expired |
| MeteringRuns.BooksBalance | vargate_telemetry/billing/stripe_client.py:129-208 | usage plus charges of rolled-back transactions equals charges, retries, ignored replays and undispatched usage |
| BillingRuns.StripeNeverExceeds | vargate_telemetry/billing/stripe_client.py:123-208 | what Stripe accepted under a key was counted for a bucket with that key, and for the bucket itself unless a colon splits its names |
| BillingRuns.TwinsAreAmbiguous | vargate_telemetry/billing/stripe_client.py:123-126 | among buckets that `increment` takes, another has the same key if and only if a colon splits the tenant or the record type |
| BillingRuns.BoundHoldsIffUnambiguous | vargate_telemetry/billing/stripe_client.py:123-208 | over all runs, what Stripe accepted under a bucket's key stays within what was counted for it if and only if no colon splits its names |
| BillingRuns.ColonsCollide | vargate_telemetry/billing/stripe_client.py:123-126 | a run: two accepted buckets with one key, and one billed as the other |
| BillingRuns.UnsplitBucketIsBilledExactly | vargate_telemetry/metering.py:183-201 | a bucket one committed flush carried whole has accepted + retry == usage |
| BillingRuns.OneFlushIsBilled | vargate_telemetry/metering.py:183-201 | such a run exists: one flush from the start, committed with billing, is billed for what was counted |
| BillingRuns.BillingAgainstUsage | vargate_telemetry/billing/stripe_client.py:123-208 | over every run, with rollbacks and unbilled commits: accepted + retry plus replayed plus unbilled equals usage plus what failed transactions had charged |
| BillingRuns.UnambiguousStandsAlone | vargate_telemetry/billing/stripe_client.py:123-126 | in every run, a bucket whose names no colon splits shares its key with no other flushed bucket, so the two theorems around this one apply to it |
| BillingRuns.ExactIffNeverReplayed | vargate_telemetry/billing/stripe_client.py:123-208 | when no failed transaction had charged the bucket, billing is exact if and only if no commit was replayed or unbilled, and otherwise short |
| BillingRuns.SplitBucketIsShort | vargate_telemetry/billing/stripe_client.py:123-208 | a run: a bucket split over two flushes is billed for the first share only |
| BillingRuns.RolledBackChargeStays | vargate_telemetry/billing/stripe_client.py:176-208 | a run: a transaction that fails after its dispatch leaves a charge without usage |
| Seal.UnsealFromHistory | vargate_telemetry/crypto/seal.py:57-211 | every unseal answers what the history dictates: the plaintext last sealed, unless the tenant was shredded since or the slot is empty |
| Seal.DekFromHistory | vargate_telemetry/crypto/seal.py:57-124 | a key is handed out if and only if the tenant was provisioned after its last shred |
| Seal.ShredIsTerminal | vargate_telemetry/crypto/seal.py:97-124 | no key ever held again opens a ciphertext made under a destroyed key |
| Seal.MovedSecretIsRejected | vargate_telemetry/crypto/seal.py:174-211 | a secret row moved to another tenant never opens, for its integrity tag; one renamed never opens, for its associated data |
| Seal.AlteredNonceIsRejected | vargate_telemetry/crypto/seal.py:174-211 | a secret row whose nonce was altered never opens |
| Seal.MovedDekIsRejected | vargate_telemetry/crypto/integrity.py:84-105 | a key row moved to another tenant is refused before it is unwrapped |
| Seal.SecretVault.ProvisionTenantDek | vargate_telemetry/crypto/seal.py:57-79 | provisioning is idempotent and draws a fresh key |
| Seal.SecretVault.DestroyTenantDek | vargate_telemetry/crypto/seal.py:97-124 | says whether a key was destroyed, and removes only that |
| Seal.SecretVault.SealUnderDek | vargate_telemetry/crypto/seal.py:127-171 | upserts the secret under the tenant's key, or fails and changes nothing |
| SessionIds.ParseRaw | vargate_telemetry/api/sessions.py:291-313 | a natural key is read back if and only if neither actor part holds the separator |
| SessionIds.SessionIdRoundTrip | vargate_telemetry/api/sessions.py:271-355 | decoding an id gives its date and its actor parts with each separator replaced |
| SessionIds.SessionIdIdentifies | vargate_telemetry/api/sessions.py:271-288 | two sessions have the same id if and only if their dates and sanitised actor parts are equal |
| SessionIds.ForeignIdIsRejected | vargate_telemetry/api/sessions.py:316-341 | an id made under another tenant's key is refused |
| SessionIds.LegacyIsNotV2 | vargate_telemetry/api/sessions.py:316-355 | no legacy id can be taken for a v2 id |
| SessionIds.LegacyDecodes | vargate_telemetry/api/sessions.py:343-355 | a legacy id decodes if and only if no separator broke it |
| SessionIds.SessionWrapKey | vargate_telemetry/api/sessions.py:254-268 | a tenant without a key gets one on demand, and the wrap key is derived from it |
| SessionIds.ShredEndsSessionIds | vargate_telemetry/api/sessions.py:254-268 | after a shred no later key decodes the tenant's session ids |
| Ordering.SortIsSorted | vargate_telemetry/api/usage.py:627-629 | ORDER BY puts distinguishable rows in strict order |
| Paging.WalkFollowsResponses | vargate_telemetry/api/usage.py:660-668 | a walk is its first response followed by the walk from the cursor it names |
| Paging.WalkIsWhole | vargate_telemetry/api/usage.py:660-668 | if each row's cursor lets through exactly the later rows, every walk is the whole set, each row once |
| UsagePaging.AllRowsShow | vargate_telemetry/api/usage.py:310-420 | a tenant's rows are exactly its results, dimension by dimension and counter by counter: cached input counted once, a flat zero not masking the nested cache creation, sentinels left out |
| UsagePaging.ExpandedRows | vargate_telemetry/api/usage.py:258-430 | a row is listed if and only if its UTC date is in the range, both ends included, it passes the filters, and it is not a legacy Anthropic row of a date on which some row has a model |
| UsagePaging.CursorRoundTrip | vargate_telemetry/api/usage.py:193-226 | a cursor is decoded to what it was made from |
| UsagePaging.UsageWalkIsWhole | vargate_telemetry/api/usage.py:276-389 | following the cursor with any positive limits ends and gives exactly the sorted two-vendor set |
| UsagePaging.PagesAddUpToTotals | vargate_telemetry/api/usage.py:640-658 | the pages' sums, counter by counter, and their row count are the totals of every response |
| UsagePaging.SupersessionIsPerDay | vargate_telemetry/api/usage.py:291-307 | on each UTC date the surviving Anthropic rows are all per-model or all legacy |
| UsagePaging.NoDateGoesBlank | vargate_telemetry/api/usage.py:287-307 | without filters, a UTC date in the range that has a row of a vendor lists one |
| UsageList.ListUsage | vargate_telemetry/api/usage.py:514-788 | one priced page with the right cursor and the totals of the whole set, cost and rows without a cost included, or the right error |
| UsageList.TotalsMatchIffRatesHold | vargate_telemetry/api/usage.py:711-788 | the total cost and the rows without a cost are those of the listed rows, for all records, if and only if no rate that a listed row can be charged changes within the range |
| UsageList.RateChangeMissesTotal | vargate_telemetry/api/usage.py:711-788 | two one-result records on either side of such a change whose total is not the sum of their rows |
| UsageList.PagesAddUpToTotalCost | vargate_telemetry/api/usage.py:660-788 | while rates hold, the costs shown over all pages of any walk add up, to within half a cent, to the rounded total every response carries, and the rows without one are as many as it says |
| SessionPaging.CursorRoundTrip | vargate_telemetry/api/sessions.py:364-398 | a list cursor is decoded to what it was made from |
| SessionPaging.TiesAreNotResumed | vargate_telemetry/api/sessions.py:502-513 | among sessions that end together the cursor clause lets through none that come later |
| SessionPaging.TiesComeBack | vargate_telemetry/api/sessions.py:502-513 | and it lets through again the sessions of the tie that were listed before: all of them, unless the cursor stands for a NULL part |
| SessionPaging.DistinctTimesAreComplete | vargate_telemetry/api/sessions.py:502-571 | with distinct end times every walk lists each session once, in order |
| SessionPaging.TiesAreIncomplete | vargate_telemetry/api/sessions.py:502-571 | with a tie, a walk with pages of one session is not the whole list |
| SessionPaging.CompleteIffDistinct | vargate_telemetry/api/sessions.py:413-571 | over all limits from 1 to 1000, every walk lists each session once, in order, if and only if no two end together |
| Calendar.MonthLength | vargate_telemetry/budgets/period.py:59-66 | each month starts where the one before it ends, leap years included |
| Calendar.DaysBeforeYearFormula | vargate_telemetry/budgets/period.py:69-76 | day numbers are those of `toordinal` |
| Calendar.OrdinalIdentifies | vargate_telemetry/budgets/period.py:69-76 | different dates have different day numbers |
| Calendar.UnixEpoch | vargate_telemetry/budgets/period.py:69-76 | 1970-01-01 is day 719163, a Thursday |
| Period.WindowHoldsNow | vargate_telemetry/budgets/period.py:79-139 | a window contains its `now` if and only if its UTC date is in the day, week or month of its local date: always for UTC |
| Period.WindowMissesNow | vargate_telemetry/budgets/period.py:106-139 | midnight of 1970-01-01 at offset +01:00 lies before its own daily window |
| Period.WindowsTile | vargate_telemetry/budgets/period.py:79-139 | the windows of a period tile time: same window, next window at its end, or disjoint |
| Period.WindowShape | vargate_telemetry/budgets/period.py:79-150 | by the name of the period: a day from its midnight; a week of 7 days from the Monday at or before the date; a month from its 1st, as long as the month |
| Period.WindowExists | vargate_telemetry/budgets/period.py:79-139 | exactly when a window is refused, or overflows on the calendar's last day, in its last week or in its last month, by the name of the period |
| Period.ForecastMonthIsWindow | vargate_telemetry/insights/spend_data.py:470-478 | the forecast's month is the monthly window |
| Spend.ComputeSpendInWindow | vargate_telemetry/budgets/spend.py:70-213 | the loop returns the spend of the selected rows rounded to cents, or the right error |
| Spend.SelectedRows | vargate_telemetry/budgets/spend.py:107-165 | the query takes exactly the Anthropic rows of the half-open window and of the scope, less the legacy rows of a date with a breakdown |
| Money.Cents | vargate_telemetry/budgets/spend.py:210-213 | the nearest whole number of cents, halves to the even one |
| Spend.SpendIsAdditive | vargate_telemetry/budgets/spend.py:107-213 | spend is additive over adjacent windows, in every scope |
| Spend.SpendAddsOverRecords | vargate_telemetry/budgets/spend.py:107-213 | spend is additive over records, in every scope: none changes what another costs |
| Spend.OneResultSpend | vargate_telemetry/budgets/spend.py:107-213 | a single result is charged its price exactly when it is in the window and the scope, and nothing without a model or a price |
| Spend.SupersessionIsFree | vargate_telemetry/budgets/spend.py:131-160 | dropping the supersession filter never changes spend |
| Spend.TenantSplitsByScope | vargate_telemetry/budgets/spend.py:107-131 | a tenant's spend is the sum over any distinct workspaces, keys or models plus the rows with none of them |
| Spend.TenantIsSumOfModels | vargate_telemetry/budgets/spend.py:107-213 | a tenant's spend is the sum of its models' spends |
| Spend.DailySpendIsPerRecord | vargate_telemetry/insights/spend_data.py:164-221 | while no rate changes within a day, pricing its summed tokens per model equals pricing every record, and the rounded series is within half a cent of it |
| Spend.UnitCost | vargate_telemetry/pricing/anthropic_rates.py:255-301 | a token of each kind costs its own rate, and web searches nothing; costs are additive in tokens |
| Spend.DailySpendMatchesIffSteady | vargate_telemetry/insights/spend_data.py:164-221 | the day's grouped spend is the sum over its records, for all records, if and only if no rate changes within the day |
| LeastSquares.LinearFit | vargate_telemetry/insights/spend_data.py:390-416 | in every branch no line has a smaller sum of squared residuals |
| LeastSquares.FitIsUnique | vargate_telemetry/insights/spend_data.py:390-416 | when x varies no other line is as good |
| LeastSquares.IndexDenominator | vargate_telemetry/insights/spend_data.py:484-487 | for positions 0..n-1 the denominator is n(n^2-1)/12, so the zero-variance branch is not reached from two points on |

## Left out

- Text is a sequence of Unicode scalar values; lone surrogates, which Python strings can hold, are not modelled.
- Json.LoadsInvertsText: NaN and infinities, which JSONB refuses, and the whitespace a general reader accepts, are not modelled; `True`, `1` and `1.0`, equal in Python, are different values here.
- The hash, verification and canonical contract of the external chain package are taken from its description in `chain.py`; digests are identified with their hex text.
- A record is assumed to read back from the database with the same canonical bytes.
- ContentArchive.Service.BuildChatDetail: instants are compared as the ISO text of their UTC time; a chat's name, model and user, and the list's cap of chats, are not shown.
- ContentArchive.Service.GatherExportModel: rendering to JSON, zip and PDF is not modelled; the wording of a failure reason is the chain package's, a parameter.
- ContentRuns.PurgedIffCovered: content is stored under the vault's key at the time of its capture; the object store and its keys beyond that are not part of this model.
- Capturing content is a step of the environment; `metadata->>` of a nested object is its text without spaces.
- BridgeKeys.BridgeVerifier.SetJwk: whether a point is on the curve is a parameter, and fetching the document with retries is not modelled.
- ExpiringStore.AnswersFromHistory: needs a clock that does not go back, as the source does.
- OAuth.AuthServer.HandleAuthorize: the clock is read once per request, in whole seconds; the JSON round trip of the stored state is the identity.
- OAuthRuns.OneLiveArtefactPerLogin: names in the stores are fresh, which for tokens assumes a collision-free bearer hash.
- OAuthRuns.TokenProvenance: the JWT library is a function of the key, the token and the time; signatures are not modelled further.
- TokenVerifier.Verifier.VerifyToken: the table and the cache share one clock in whole seconds.
- Metering.Meter.Flush: the uninterrupted flush only; crashes, rollbacks and concurrent flushes are in `MeteringRuns`, which treats a tenant's transaction as one step, its dispatches in order.
- BillingRuns.StripeNeverExceeds: Stripe keeps an idempotency key forever and answers a repeated key without an error.
- Expiry can happen at any time in `MeteringRuns`; the two-hour length is not modelled.
- Seal.MovedDekIsRejected: a tag is ideal on the pair of tenant and content; restoring a deleted key row from a copy kept outside the table is not modelled.
- SessionIds.SessionIdRoundTrip: dates are their ISO text with a parser that reads it; other texts a newer Python accepts are up to that parser.
- UsagePaging.UsageWalkIsWhole: record ids are ordered by code point; names joined from side tables are not shown, and the data does not change during a walk.
- UsageList.TotalsMatchIffRatesHold: rate cards are not part of this model; they are taken as linear in tokens, by vendor, model and instant, without their rounding to six decimals.
- SessionPaging.DistinctTimesAreComplete: sessions are given aggregated and distinct; a hand-made cursor whose actor parts are not strings is refused.
- Spend.ComputeSpendInWindow: amounts are over `real`; the rate card is an uninterpreted optional cost per row.
- Spend.DailySpendIsPerRecord: the rate card is taken as linear in tokens, by model and instant; its rounding of each price to six decimals is not modelled.
- LeastSquares.LinearFit: over the reals, not floats.
- HTTP routing, response models, cookies, metrics, scheduling, notifications, onboarding, vendor clients and PII patterns are not modelled; they hold no state these laws need.
- Workspace spend and model shares are groupings of the same kind as `Spend.DailySpendIsPerRecord` and would only add easy members.
