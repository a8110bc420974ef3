# Verified core of tokyo3-base

A Dafny model of the parts of the library whose correctness depends on state that
outlives one call: the PostgreSQL placeholder rewriter, the journal (replay window,
tracker, Server-Sent Events), the unwrapped-key cache, the TLS file reloader, the bearer
token manager, back-channel logout replay protection, the shared SSO token cache of the
command-line helpers, and sliding session expiry.

`dafny verify dfyconfig.toml` checks the whole project.

## How it is built

Each component has functions that say what one critical section does, and, where the
source mutates fields, a class whose methods are proved to do exactly that. The results
are then proved about the functions:

- **Refinement.** The index-jumping SQL lexer (`PgLexer`) produces the tokens of an
  automaton that reads one byte at a time and never looks ahead. The gated file reloader
  (`FileReloader`) is compared with a machine that re-reads on every call. The lazily
  swept id cache (`LogoutReplay`) is compared with the whole history.
- **Round trips.** Server-Sent Events are read back by the parser of sections 9.2.5 and
  9.2.6 of the WHATWG HTML Living Standard (`SseFraming`, `SseRoundTrip`), for every cut of the
  connection, and reconnecting by `Last-Event-ID` is followed over whole sequences of
  connections (`SseResume`). Converted SQL is lexed again (`PgRelex`, `PgDriver`).
- **Histories.** What caches and reloaders answer is read off the list of calls alone
  (`LogoutReplay`, `KeyCacheHistory`, `FileReloader`), and the lexer's byte classes are pinned by
  numbers it does not share (`PgGrammar`).
- **Runs.** Concurrent code is a state machine whose steps are the source's critical
  sections (`BearerToken`/`BearerRuns`, `KeyCacheRuns`, `LogoutOnce`, `TokenCacheRuns`/
  `TokenReuse`/`TokenServed`). Theorems hold in every state of every interleaving. The network, the
  clock, the root key service and the identity provider are step parameters.

Times are integers (nanoseconds), texts that are parsed or printed are byte strings
(tokens and issuer names are opaque strings), and `uint64` arithmetic is
either shown not to wrap (`ReplayWindow`) or written with its wrap-around (`Tracker`,
`PickDeliverPolicy`).

## What turned out to need a condition

- Converted SQL lexes back to the same literals exactly when no placeholder is followed
  by a *hazard* (`PgRelex.RelexStable`); `$1$2` is the smallest failure.
- Tracker resumption is gap-free exactly when no record has sequence 0 or 2^64−1
  (`Tracker.ResumableIffGapFree`).
- Reconnecting by `Last-Event-ID` loses and repeats nothing, in every honestly served run,
  exactly when the reader carries its id buffer over or the heartbeat ticker is off, and no
  record has sequence 2^64−1 (`SseResume.ResumeExactIff`). A browser starts each stream with
  an empty buffer, so a heartbeat that arrives before the first record of a *re*connection
  makes it forget its position: `HeartbeatRepeats` is the run.
- The mtime gate is invisible exactly when files that cannot be stat'ed cannot be read
  either, or read as the only readable value (`FileReloader.GateInvisibleIff`).
- A logout token completes at most once exactly when the replay window is at least 5.5
  minutes plus the time between verifying and reserving (`LogoutOnce.OnceIffWindowCovers`).
- With refresh buffers up to some limit, no run hands out an empty bearer token exactly when
  the seed is not empty or its expiry plus that limit has passed (`BearerRuns.NeverEmptyIff`).
- A rotated refresh token is sent again only after its replacement was lost, in an answer that
  never arrived or a process that stopped before saving (`TokenReuse.RotatedNotResent`); either
  loss makes the next refresh send it (`LostRotationIsResent`).
- Removing `tokens.json` is final exactly when no refresh is past its reload
  (`TokenReuse.LogoutIsFinalIff`).
- The unlocked load reads its two files apart. Every caller is given only tokens of its own
  issuer and client, in every run, exactly when `tokens.json` is missing, bound or blank at
  the start (`TokenReuse.ServedBelongIff`).
- On hazard-free SQL a driver that fills the `?` it sees finds exactly the emitted marks if
  and only if the query had no `?` of its own outside literals (`PgDriver.DriverFindsMarks`).
- Visits keep a session alive up to a gap of half the idle window plus one nanosecond,
  and no further (`SessionExpiry.FrequentVisitsKeepAlive`, `HalfWindowIsSharp`).

The repository's README.md (line 1160) says backslash escapes in `E'…'` are not
interpreted; the code at db/db.go:173-178 interprets them, and the model follows the code.

## Model

| member | source | states |
|---|---|---|
| `PgLexer.SkipQuoted` | db/db.go:171-187 | the loop ends at the close of the quoted literal: doubled quotes and, in E-strings, backslash escapes do not close it; unterminated runs to the end |
| `PgLexer.SkipBlock` | db/db.go:193-208 | the depth-counting loop ends at the comment's own close, nested comments included |
| `PgLexer.SkipDollar` | db/db.go:213-226 | a dollar-quoted body is skipped to its first matching tag, or nothing is skipped when no tag opens |
| `PgLexer.SkipLiteral` | db/db.go:169-229 | for every position, the end of the literal starting there, or the position itself |
| `PgLexer.TagRun` | db/db.go:215-218 | the run is all tag bytes and is maximal |
| `PgLexer.DigitRun` | db/db.go:139-142 | the run is all digits and is maximal |
| `PgLexer.QuotedRefines` | db/db.go:171-187 | from any point inside a quoted literal the automaton emits exactly that literal and goes on where the skip ends |
| `PgLexer.BlockRefines` | db/db.go:193-208 | the same for block comments at any depth |
| `PgLexer.BodyRefines` | db/db.go:222-226 | the same for dollar-quoted bodies, whose delimiter may overlap itself |
| `PgLexer.DollarRefines` | db/db.go:138-226 | what the automaton makes of a `$`: placeholder, opener, or plain bytes |
| `PgLexer.LexerRefinesAutomaton` | db/db.go:131-229 | for every text the skip-ahead lexer and the one-byte automaton give the same tokens |
| `PgGrammar.OpensIff` | db/db.go:213-221 | a `$` opens a dollar quote exactly when a tag (bytes given as numbers) and another `$` follow |
| `PgGrammar.DollarQuoted` | db/db.go:213-226 | `$tag$ body $tag$` is one literal for every tag and every body after which the closing tag comes first |
| `PgGrammar.UnclosedQuote` | db/db.go:222-226 | an opened quote without its closing tag runs to the end of the text |
| `PgGrammar.OpensNothing` | db/db.go:213-221 | a `$` before any byte that starts no tag and is no `$` opens nothing |
| `PgGrammar.PlaceholderIff` | db/db.go:138-143 | a token is a placeholder exactly when it starts with `$` and a digit and no identifier byte (given as numbers) precedes it |
| `PgGrammar.PlaceholderDigits` | db/db.go:139-153 | and then it has all the digits that follow |
| `PgGrammar.EscapesIff` | db/db.go:171-178 | a string takes backslash escapes exactly after an `e` or `E` that ends no longer identifier |
| `PgGrammar.DecimalIsPositional` | db/db.go:144-146 | the digits of a placeholder, and of an event id, count by their place |
| `PgPlaceholders.ScanDigits` | db/db.go:139-142 | the index loop finds the whole digit run |
| `PgPlaceholders.ConvertPgPlaceholders` | db/db.go:123-164 | fails exactly when some lexed placeholder is outside 1..len(args), naming the first; returns text and arguments untouched when there is none; otherwise emits the tokens with `?` and the arguments in placeholder order |
| `PgPlaceholders.TokensCoverText` | db/db.go:131-158 | the tokens spell the query: no byte is lost or invented |
| `PgPlaceholders.EmittedMarks` | db/db.go:149-153 | the emitted marks stand in order at `?` bytes of the converted text |
| `PgPlaceholders.ConversionPreservesMeaning` | db/db.go:131-158 | for every rendering, filling the k-th emitted `?` with the k-th returned argument is the same text as filling every `$n` with argument n |
| `PgPlaceholders.ConvertedMeans` | db/db.go:123-164 | the same for whatever the conversion returned, on both of its success branches |
| `PgRelex.RelexFrom` | db/db.go:131-235 | from any point where both texts look back on the same facts, re-lexing agrees if and only if no later placeholder is followed by a hazard |
| `PgRelex.RelexStable` | db/db.go:131-235 | lexing the converted text gives the original's tokens with `?` for each placeholder if and only if the text is hazard-free |
| `PgRelex.SeparatedIsHazardFree` | db/db.go:232-235 | placeholders followed by the end or a non-identifier byte are hazard-free |
| `PgRelex.AdjacentPlaceholders` | db/db.go:138-154 | `$1$2` has one placeholder before conversion and another one after |
| `PgDriver.QuestionsOfMarked` | db/db.go:131-158 | what a driver that lexes the converted text finds: the emitted marks and the query's own plain question marks, nothing else |
| `PgDriver.DriverFindsMarks` | db/db.go:131-164 | on hazard-free text, exactly the emitted marks if and only if the query has no plain `?` |
| `PgDriver.DriverFills` | db/db.go:123-164 | then filling what the driver finds with the returned arguments is the original query filled with the original arguments |
| `PgDriver.HazardMayKeepMarks` | db/db.go:138-154 | a hazard need not move a mark: `$1$2` |
| `ReplayWindow.ReplayStart` | journal/jetstream/jetstream.go:505-560 | returns the n-th newest matching sequence, and "too few" only when fewer than n match; at most 2·ceil(log2(d+1)) probes when it lies d below the first probe; no uint64 operation wraps |
| `ReplayWindow.Gallop` | journal/jetstream/jetstream.go:522-543 | the doubling loop terminates with a bracket whose width is bounded by the last step, or shows that too few records match |
| `ReplayWindow.Bisect` | journal/jetstream/jetstream.go:544-559 | the bisection returns the n-th newest in at most k probes from a bracket of width 2^k |
| `ReplayWindow.CountReaches` | journal/jetstream/jetstream.go:500-504 | at least n records lie at or above s exactly when the n-th newest does |
| `ReplayWindow.NewestFit` | journal/jetstream/jetstream.go:506-511 | the first probe is never below the answer |
| `ReplayWindow.PickDeliverPolicy` | journal/jetstream/jetstream.go:476-498 | the chosen policy's backfill is the records at or after the resume point when that lies in 1..lastSeq+1, otherwise the newest min(replay, matching); at lastSeq = 2^64−1 the resume point is ignored |
| `ReplayWindow.RecordsFromAll` | journal/journal.go:86-88 | `RecordsFrom` is exactly the records at or above the start, as a suffix of the stream |
| `StableSort.SortIsStable` | journal/tracker.go:183-186 | the sort puts every element where the stable order (ties by arrival) puts it |
| `StableSort.StableOrderUnique` | journal/tracker.go:183-186 | there is only one stable order |
| `StableSort.TakeInsert` | journal/tracker.go:190-192 | cutting to the first n before an insertion never changes the first n after it |
| `Tracker.Tracker.constructor` | journal/tracker.go:73-95 | starts empty, with the configured size if positive and 500 otherwise |
| `Tracker.Tracker.Reset` | journal/tracker.go:174-178 | the ring is empty |
| `Tracker.Tracker.Insert` | journal/tracker.go:180-193 | the ring becomes the inserted, truncated ring |
| `Tracker.Tracker.Ingest` | journal/tracker.go:140-162 | draining a channel extends the history by it, keeps the ring its function and returns the last sequence |
| `Tracker.Tracker.Snapshot` | journal/tracker.go:166-172 | returns the ring of the whole history |
| `Tracker.Tracker.Run` | journal/tracker.go:103-136 | the history is what the attempts deliver, each resumed from the last sequence; one attempt without a retry interval; returns the context's error, the subscription's error or none |
| `Tracker.InsertKeepsHead` | journal/tracker.go:180-193 | inserting into the truncated ring loses nothing the full ranking would show |
| `Tracker.RingIsHeadOfHistory` | journal/tracker.go:140-193 | for every ingest history the ring is the first max of everything kept since the last backwards sequence, newest first |
| `Tracker.RingIsStableTop` | journal/tracker.go:180-193 | with an order, the ring is the first max positions of the one stable order of those values |
| `Tracker.ResumeIsGapFree` | journal/tracker.go:103-136 | for every pattern of drops and failed subscribes against an honest source, the ingested records are a gap-free, duplicate-free run of the stream |
| `Tracker.UnresumableRepeats` | journal/tracker.go:110-113 | a record with sequence 0 or 2^64−1 can be delivered twice by an honest source |
| `Tracker.ResumableIffGapFree` | journal/tracker.go:103-136 | gap-free against every honest source exactly when every sequence can be resumed after |
| `Tracker.RingSurvivesDrops` | journal/tracker.go:103-193 | on a stream that is not reset the ring ranks the whole run, across all drops |
| `JournalSource.FirstAfter` | journal/journal.go:86-90 | resuming at the sequence after a record starts at the next record |
| `SseFraming.Decimal` | journal/sse/handler.go:210-212 | the printed id is decimal digits that denote the sequence, without leading zeros |
| `SseFraming.ResponseWriter.WriteEvent` | journal/sse/handler.go:209-222 | appends the id line, one data line per line of the payload, and a blank line |
| `SseFraming.ResponseWriter.Stream` | journal/sse/handler.go:179-206 | the event loop appends the bytes of its records and heartbeats in order |
| `SseFraming.ReadField` | journal/sse/handler.go:209-222 | a field line is read back as that field by the standard's parser |
| `SseFraming.ReadConcat` | journal/sse/handler.go:179-206 | reading in two parts is reading the whole |
| `SseRoundTrip.NormalisedLines` | journal/sse/handler.go:213-219 | the two newline replacements frame exactly the lines the standard sees in the payload |
| `SseRoundTrip.ReadStream` | journal/sse/handler.go:179-222 | reading the bytes of any records and heartbeats is, for the parser, one event per record and an id update per blank line |
| `SseRoundTrip.RoundTrip` | journal/sse/handler.go:179-222 | parsing yields exactly one event per record, with its id and newline-normalised data |
| `SseRoundTrip.CutAnywhere` | journal/sse/handler.go:179-222 | for every byte prefix, events and last event ID are those of the items that arrived whole |
| `SseResume.ResumesAfter` | journal/sse/handler.go:117-122 | the printed id of a record resumes at the next sequence, except at 2^64−1 |
| `SseResume.HeaderAsks` | journal/sse/handler.go:117-122 | every header that is not decimal digits below 2^64−1 asks for the backfill window, every other for the next sequence |
| `SseResume.ConnectDelivers` | journal/sse/handler.go:113-206 | one connection adds exactly the whole records' events; the id becomes the last one's, or is kept or forgotten exactly as `KeepsId` says |
| `SseResume.ResumeLosesNothing` | journal/sse/handler.go:113-206 | over every sequence of connections, cut anywhere, the events are those of a gap-free, duplicate-free run, if the id buffer is carried over or the ticker is off |
| `SseResume.HeartbeatRepeats` | journal/sse/handler.go:171-193 | with the ticker on and a buffer that starts empty, an honestly served run of three connections delivers a record twice |
| `SseResume.LastSequenceRepeats` | journal/sse/handler.go:117-122 | a record with sequence 2^64−1 is delivered twice by an honestly served run |
| `SseResume.TwiceIsNotGapFree` | journal/journal.go:69-96 | events delivered twice are those of no gap-free run |
| `SseResume.ResumeExactIff` | journal/sse/handler.go:113-206 | every honestly served run loses and repeats nothing exactly when the buffer is carried over or the ticker is off, and no record has sequence 2^64−1 |
| `FileReloader.FileValue.constructor` | tls/reloader/reload.go:34-64 | nothing is loaded |
| `FileReloader.FileValue.Get` | tls/reloader/reload.go:70-129 | the new fields and the result are those of the gated machine |
| `FileReloader.GatedStep` | tls/reloader/reload.go:151-174 | one call: remembered mtimes stand for the value and the failure kept, and the call does what re-reading would |
| `FileReloader.GateIsInvisible` | tls/reloader/reload.go:70-174 | for every sequence of calls, forced or not, same results, same value, same start of the failure run, same MaxStale cut-off as re-reading on every call |
| `FileReloader.GateShows` | tls/reloader/reload.go:151-162 | a read that succeeds while stat fails makes the gate visible |
| `FileReloader.GateInvisibleIff` | tls/reloader/reload.go:70-174 | the exact worlds in which gating is invisible |
| `FileReloader.GoodIsServed` | tls/reloader/reload.go:114-128 | after every sequence of calls, a call whose files read well is given that value |
| `FileReloader.FirstFailureIsReported` | tls/reloader/reload.go:90-96 | a call whose reading fails when none was good before is given the error |
| `FileReloader.KeptUntilStale` | tls/reloader/reload.go:90-174 | a call whose reading fails after a good one is given the last good value until more than MaxStale has passed since the first failing call, then the failure; read off the calls and the files alone |
| `FileReloader.UnchangedNotRead` | tls/reloader/reload.go:145-162 | once loaded, an unforced call that sees the previous mtimes does not read the files |
| `LogoutReplay.ReplayWindow` | oidc/backchannel_logout.go:94-96 | the larger of the configured window and the time a token stays acceptable |
| `LogoutReplay.AcceptableSpan` | oidc/oidc.go:234-264 | a token with an id verifies exactly within one interval, from iat or nbf less the skew to iat plus the maximum age or exp plus the skew, and no replay window is shorter |
| `LogoutReplay.LogoutJtiCache.constructor` | oidc/backchannel_logout.go:212-214 | an empty cache with this window |
| `LogoutReplay.LogoutJtiCache.AcceptJti` | oidc/backchannel_logout.go:220-237 | the new cache and the answer are those of `Accept` |
| `LogoutReplay.LogoutJtiCache.Sweep` | oidc/backchannel_logout.go:226-230 | in whatever order entries are visited, exactly the expired ones that are not pending go |
| `LogoutReplay.LogoutJtiCache.FinishJti` | oidc/backchannel_logout.go:241-249 | success keeps the id from now on, failure releases it |
| `LogoutReplay.LazySweepIsInvisible` | oidc/backchannel_logout.go:220-249 | after every history the lazily swept map holds an id exactly when the whole history says it is taken |
| `LogoutReplay.AcceptAnswers` | oidc/backchannel_logout.go:220-237 | every accept answers from the history alone |
| `LogoutReplay.AcceptSweeps` | oidc/backchannel_logout.go:216-231 | once a minute an accept drops every id that is neither taken nor completed within the window |
| `LogoutOnce.CompletesAtMostOnce` | oidc/backchannel_logout.go:135-148 | over every interleaving of requests no token completes twice when the window covers 5.5 minutes and the delay |
| `LogoutOnce.HandlerCompletesOnce` | oidc/backchannel_logout.go:94-148 | with any configured window, when verification and reservation read one instant |
| `LogoutOnce.DelayedReplay` | oidc/oidc.go:231-264 | with a shorter window a run completes one acceptable token twice |
| `LogoutOnce.OnceIffWindowCovers` | oidc/oidc.go:199-205 | at most once in every run exactly when the window covers the acceptable span and the delay |
| `BearerToken.BearerTokenManager.constructor` | api/bearer_token.go:44-64 | the seeded fields |
| `BearerToken.BearerTokenManager.IsFresh` | api/bearer_token.go:80-85 | fresh under the buffer, clamped to half the observed lifetime |
| `BearerToken.BearerTokenManager.DecideLocked` | api/bearer_token.go:100-139 | the new fields and decision of the locked section: serve, fail, back off, wait, or start a refresh |
| `BearerToken.BearerTokenManager.CompleteLocked` | api/bearer_token.go:176-195 | the fields a finished refresh leaves; an empty token counts as a failure |
| `BearerRuns.SingleFlightAndPaced` | api/bearer_token.go:87-206 | in every run at most one refresh is live; the next starts at least 1 s after a failed one and half the granted lifetime after a successful one |
| `BearerRuns.PermittedAfterFailure` | api/bearer_token.go:125-137 | 30 s after a failure a caller without a fresh token starts the next refresh |
| `BearerRuns.ResultsJustified` | api/bearer_token.go:87-160 | in every run each result is justified: a cached token is the seed or a granted one with its own expiry, unexpired at the deciding clock reading (non-positive buffers); a refreshed one is what the awaited call or a later one was granted; a failure is the awaited call's own; a caller is refused only if the token held for it was empty or had expired; no waiter on a closed call is stuck |
| `BearerRuns.FreshIff` | api/bearer_token.go:72-85 | when a token is due for refresh, in plain arithmetic on buffer, expiry and half the granted lifetime |
| `BearerRuns.FastOutcome` | api/bearer_token.go:92-98 | the fast path serves exactly the token that is not due |
| `BearerRuns.SlowOutcome` | api/bearer_token.go:100-160 | in every state: who is served, who starts a refresh, who waits and who fails; an unexpired token is never waited for by a caller that does not lead |
| `BearerRuns.FailurePause` | api/bearer_token.go:186-190 | a failed refresh keeps the token and pauses for half the time it has left, within 1 s and 30 s |
| `BearerRuns.SuccessOutcome` | api/bearer_token.go:182-186 | a successful one replaces token, expiry and lifetime and leaves no pause |
| `BearerRuns.NeverEmpty` | api/bearer_token.go:87-206 | no empty token is handed out as a success if the seed is not empty or no buffer in use makes it fresh |
| `BearerRuns.EmptySeedIsServed` | api/bearer_token.go:92-98 | an empty seed that the buffer makes fresh is handed out |
| `BearerRuns.NeverEmptyIff` | api/bearer_token.go:87-206 | with buffers up to a limit, never an empty success exactly when the seed is not empty or its expiry plus the limit has passed |
| `KeyCache.BigEndianRoundTrip` | crypto/cache.go:153-160 | the fixed-width generation can be read back |
| `KeyCache.FlightKeyInjective` | crypto/cache.go:153-160 | equal flight keys mean equal id, generation and digest, whatever bytes the ids hold |
| `KeyCache.KeyProviderCache.constructor` | crypto/cache.go:63-69 | empty, generation 0 |
| `KeyCache.KeyProviderCache.Lookup` | crypto/cache.go:171-178 | the provider stored for this id and digest, if not expired |
| `KeyCache.KeyProviderCache.Store` | crypto/cache.go:184-199 | nothing under an older generation; otherwise exactly the unexpired entries and, with a positive ttl, the new one |
| `KeyCache.KeyProviderCache.Invalidate` | crypto/cache.go:207-212 | the entry is gone and the generation has moved |
| `KeyCacheRuns.JoinedIsSame` | crypto/cache.go:104-108 | a caller that joins a flight joins one for its own id, generation and material |
| `KeyCacheRuns.NeverStale` | crypto/cache.go:84-134 | in every interleaving of calls, unwraps, stores, invalidations, give-ups and ticks, a call gets a provider unwrapped from its own bytes, by an unwrap that started after every Invalidate of its id before the call |
| `KeyCacheRuns.OneUnwrapPerKey` | crypto/cache.go:96-124 | never two undelivered unwraps for one id, generation and material |
| `KeyCacheHistory.LookupFromHistory` | crypto/cache.go:84-94 | in every run a call hits exactly when the last store of its id that counts is of its material, is not followed by an Invalidate of the id, and is younger than the ttl; then it gets that provider |
| `KeyCacheHistory.RecheckFromHistory` | crypto/cache.go:108-117 | in every run a shared call asks the root exactly when the history retains nothing for it |
| `KeyCacheHistory.FailsOnlyWithTheRoot` | crypto/cache.go:117-133 | in every run a call fails only if it gave up or an unwrap for its own id and material failed at the root |
| `KeyCacheHistory.StorePurges` | crypto/cache.go:180-199 | a store that counts leaves no expired entry and removes no other |
| `TokenCache.TokenStore.constructor` | auth/oidcclient/client.go:193-212 | the two files |
| `TokenCache.TokenStore.LoadConfig` | auth/oidcclient/client.go:174-191 | the config when both issuer and client are set, otherwise nothing |
| `TokenCache.TokenStore.LoadMatchingTokens` | auth/oidcclient/client.go:222-324 | tokens exactly when bound to this configuration, or unbound while config.json names it; otherwise which error, a missing file and an unreadable one told apart |
| `TokenCache.TokenStore.ReloadLocked` | auth/oidcclient/client.go:272-282 | each decision under the lock and each error: which files fail how, when the cached tokens are served, when the refresh token is presented |
| `TokenCache.TokenStore.SaveFresh` | auth/oidcclient/client.go:287-298 | saves the answer's access token and expiration, bound to the configuration, keeping the cached refresh and id tokens where the answer has none |
| `TokenCache.TokenStore.SaveLogin` | auth/oidcclient/login.go:49-62 | tokens.json first and bound, then config.json; each failure stops there |
| `TokenCache.TokenStore.Logout` | auth/oidcclient/client.go:519-535 | removes tokens.json, keeps config.json |
| `TokenCacheRuns.StepKeepsLock` | auth/oidcclient/client.go:263-272 | at most one process is in a locked section, crashes included |
| `TokenCacheRuns.StepKeepsOrigin` | auth/oidcclient/client.go:300-324 | every step keeps each process, and tokens.json, holding tokens of the issuer/client they are bound to |
| `TokenReuse.RotatedNotResent` | auth/oidcclient/client.go:254-299 | in every run a rotated refresh token is presented again only if the answer that replaced it was lost before its save |
| `TokenReuse.LostRotationIsResent` | auth/oidcclient/client.go:254-299 | from every start whose tokens.json is due, a first refresh that loses its rotation (answer never arrives, or a stop before the save) makes the second present the same token again |
| `TokenReuse.SentToItsIssuer` | auth/oidcclient/client.go:300-324 | in every run each refresh token is presented only to the issuer and client it was issued for, wherever logins stop |
| `TokenReuse.ServedBelongIff` | auth/oidcclient/client.go:254-324 | every caller in every run is given only tokens of its own issuer and client exactly when tokens.json is missing, bound or blank at the start |
| `TokenReuse.UnboundReadRaces` | auth/oidcclient/client.go:309-324 | whatever config.json holds, a login between the two reads of the unlocked load makes unbound tokens match its configuration |
| `TokenReuse.NamedServesOwn` | auth/oidcclient/client.go:254-324 | from a missing, bound or blank tokens.json, in every run |
| `TokenReuse.UnnamedServesForeign` | auth/oidcclient/client.go:309-324 | from any other, a run that gives a caller tokens that are not its own |
| `TokenReuse.LoginWrites` | auth/oidcclient/login.go:49-62 | a login that runs to its end leaves its bound tokens and its configuration in the two files |
| `TokenReuse.RefreshPresents` | auth/oidcclient/client.go:254-283 | a caller whose own tokens are due gets to present their refresh token |
| `TokenServed.ServedCurrent` | auth/oidcclient/client.go:254-299 | in every run a caller served after a refresh has the access token and expiration its own exchange granted; any other had its margin left at the deciding clock reading |
| `TokenServed.SavedIsServed` | auth/oidcclient/client.go:295-298 | what a caller is given after a refresh is what tokens.json then holds |
| `TokenServed.FreshIsServed` | auth/oidcclient/client.go:255-261 | a caller whose own tokens have the margin left is served them without the lock |
| `TokenServed.RefreshedWhileWaiting` | auth/oidcclient/client.go:272-279 | a caller that waited while another refreshed is served the new tokens and presents nothing |
| `TokenReuse.LogoutIsFinalIff` | auth/oidcclient/client.go:519-535 | a Logout, locked or not, stays in effect until the next login exactly when no refresh is past its reload |
| `TokenReuse.LockedLogoutIsFinal` | auth/oidcclient/client.go:523-535 | in every run a Logout that holds the lock is not undone by a refresh |
| `SessionExpiry.NewConfig` | session/session.go:209-211 | a positive session lifetime is kept, otherwise it is eight hours |
| `SessionExpiry.NeverPastCap` | session/session.go:272-293 | for every request history, replays of old cookies included, no cookie outlives login plus the session lifetime |
| `SessionExpiry.WithinWindow` | session/session.go:534-567 | a live session expires at most one idle window after the last visit and never beyond the cap |
| `SessionExpiry.ExpiryNeverDecreases` | session/session.go:534-555 | for a client presenting its latest cookie |
| `SessionExpiry.VisitLeaves` | session/session.go:534-555 | a visit in the second half of the window leaves an expiry of exactly a full window from now or the cap; any other leaves it |
| `SessionExpiry.RefusedWhen` | session/session.go:408-447 | a request is refused exactly when the session is dead or not admitted |
| `SessionExpiry.FrequentVisitsKeepAlive` | session/session.go:534-567 | visits at most half an idle window (and one nanosecond) apart keep the session alive up to the cap |
| `SessionExpiry.HalfWindowIsSharp` | session/session.go:534-567 | a gap one nanosecond longer can end it |
| `SessionExpiry.LongGapEnds` | session/session.go:558-567 | a gap above the idle window ends it |
| `SessionExpiry.HardCapOnly` | session/session.go:272-293 | without an idle window the session lives exactly its lifetime |

## Left out

- Foreign primitives (AES-GCM, HMAC, SHA-256, JWT and x509 verification): only their use. Digests are 32 bytes and do not collide on the wrapped keys presented in a run; a token's signature is taken as checked.
- HTTP, NATS and logging wrappers, `SanitizeDBConn`, `CopyDeref`, `SafeReturnTo`, `ratelimit`, `clientip`, `envutil` and the per-client SSE limits: they rest on libraries that are not part of this model or would add only easy members.
- Consumer creation, stream lookup (`ensureStream`, `fetchStream`) and the consumer probe itself (`pendingFrom`): a probe is a function that counts matching records of one snapshot or fails.
- ReplayWindow.ReplayStart: records arriving between probes are not modelled; all probes count one snapshot of the stream.
- Tracker.Tracker.Run: the length of the wait between attempts is not modelled; the context ends after a number of attempts, and an interrupted drain is a shorter channel.
- SSE write errors, deadlines and UTF-8 decoding by the browser (including a leading byte order mark) and the `retry` field: writing is modelled as appending bytes, a failure as a cut.
- FileReloader.FileValue.Get: one call's stat and read see one snapshot, content is a function of the mtimes, and calls are serial; a caller that waited for the write lock with an older stat is not modelled. The stale callback and the raw bytes kept for it have no effect on the result.
- LogoutReplay.LogoutJtiCache.Sweep: entries are visited in an arbitrary order through a set of keys, in place of ranging over the map while deleting from it.
- LogoutOnce.CompletesAtMostOnce: one handler process and a clock that does not go back; a process restart forgets the cache, as the source says.
- BearerToken.BearerTokenManager.DecideLocked: panics in the refresher become errors, and contexts only cancel waiters; overflow of time arithmetic is not modelled.
- KeyCacheRuns.NeverStale: a nil wrapped key (which selects the root provider) and the unwrap timeout are not modelled, and a run invalidates fewer than 2^64 times, so the generation does not wrap.
- TokenReuse.RotatedNotResent: assumes an exclusive lock that the system releases when a process ends, whole-file replacement, issuers no two of which issue the same string, refresh tokens that are new when they rotate, and no writer outside Login, refresh and Logout (`SaveTokens` and `SaveConfig` called directly write without the lock). Systems without file locks are not modelled.
- TokenCache.TokenStore.Logout: the extra paths it removes and the errors it joins are not modelled.
- SessionExpiry.NeverPastCap: sealing, cookie names and the browser's Max-Age are not modelled; `UpdateSession` is not part of a history. Revocation and group checks are one admitted-or-not input.
