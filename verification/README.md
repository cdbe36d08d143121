# A model of the chatbubbles server

chatbubbles is a small HTTPS API for iMessage. This project models its stateful core in Dafny and proves what holds over
whole runs:

| file | models |
|---|---|
| RateLimiter.dfy | the token-bucket limiter, the keys and limits the routes use, the retry hint |
| Text.dfy, Sorting.dfy, Scopes.dfy | trimming and ordering of strings, stable sorting, cleaned scope lists |
| Base64.dfy, Tokens.dfy | unpadded URL-safe base64 (section 5 of RFC 4648), minting and verifying access tokens |
| Store.dfy | the configuration file: load, edit, write a temporary file, rename |
| Auth.dfy, AuthService.dfy | pairing, delegated sessions, authentication, revocation: as functions, and as methods over the store |
| AuthRequests.dfy | what each of those requests does, in the fields of the stored configuration |
| AuthRuns.dfy, AuthTheorems.dfy | invariants and theorems over every run of the auth service |
| AuthPruning.dfy, AuthSweeping.dfy | the auth service against one that never prunes, and exactly when they differ |
| Webhooks.dfy, Writers.dfy | webhook registration, and the three components that share the configuration file |
| Hub.dfy | the event hub with its bounded, dropping queues |
| HistoryCache.dfy, HistoryObject.dfy | the message-history cache as a protocol, and as an object that copies its slices |
| HistoryFlow.dfy | message handler, cache, hub and invalidation loop together |
| Watcher.dfy | the watch loop with its high-water marks and backoff |
| Merge.dfy, MergeFold.dfy | merging messages in the web client, all at once and one at a time |
| Basics.dfy | options, filtering, first match, the in-place compaction loop |

Two forms appear side by side. Components that the program updates in place are classes and methods with loops
(`Limiter`, `Service`, `Draft`, `FileStore`, `EventHub`, `Channel`, `Cache`, `Callback`, `Run`, ...); each is proved to do
exactly what a specification function says. The theorems over whole runs are about those functions.

Inputs the code draws from its surroundings are parameters: clock readings (one for each place the code reads the clock),
generated ids and random bytes, the store's failures and how many file steps of a save complete, the rows a watch process
emits. Assumptions over runs are spelled out where they are used: clocks do not run backwards, generated ids are fresh, a
signature that verifies is on a payload this server signed (`Tokens.Unforged`), an approver's claims come from an earlier
successful authentication, and signing and JSON encoding behave as `Tokens.Sound` says.

## Model

| member | source | states |
|---|---|---|
| RateLimiter.AdmissionIsExact | internal/api/ratelimit.go:32-69 | on one key with a fixed limit and rate, call i is admitted if and only if, for every j <= i, the calls admitted among j..i-1, plus one, are at most limit + rate * (t_i - t_j) |
| RateLimiter.WindowBound | internal/api/ratelimit.go:52-61 | no window of calls admits more than limit + rate * its length |
| RateLimiter.GreedyIsOptimal | internal/api/ratelimit.go:43-68 | on every prefix, no policy that respects the same window bounds admits more calls |
| RateLimiter.GreedyRespectsWindows | internal/api/ratelimit.go:43-68 | the limiter is itself such a policy, so it attains that optimum |
| RateLimiter.RetryHintIsSoundAndTight | internal/api/ratelimit.go:63-68 | if nothing is admitted since a refusal with wait w, a call at least w later is admitted; if w exceeds a second, a call at most w - 1 seconds later is refused; the Retry-After header carries w |
| RateLimiter.KeysAreIndependent | internal/api/ratelimit.go:43-50 | in any interleaved run, a key's answers and bucket are those of running only its own calls |
| RateLimiter.KeysAreInjective | internal/api/ratelimit.go:77-78 | the key strings of the registered routes and actions determine kind, route or action, and address or token id |
| RateLimiter.OriginsAreIndependent | internal/api/ratelimit.go:110-133 | however requests interleave, each address on a route and each token doing an action is limited as if alone, by its own limit |
| RateLimiter.CallsOfTheRouter | internal/api/ratelimit.go:77-134 | the keys and limits of each route and action: five a minute per address for pairing and for sessions, and per token 20 sends, 10 attachments and 120 of any other action a minute |
| RateLimiter.UnlimitedCallsPass | internal/api/ratelimit.go:32-35 | a call without limit, period or key is admitted and leaves no trace |
| RateLimiter.Limiter.Allow | internal/api/ratelimit.go:32-69 | the in-place limiter, with buckets behind pointers, changes the table and answers exactly as the specification |
| Scopes.CleanScopes | internal/auth/pairing.go:489-511 | the loop over a seen-set computes the specified cleaned list |
| Scopes.CleanMeaning | internal/auth/pairing.go:489-511 | a cleaned list is strictly increasing and holds exactly the non-blank trimmed scopes of its input |
| Scopes.CleanIsIdempotent | internal/auth/pairing.go:489-511 | cleaning a cleaned list changes nothing |
| Scopes.CollectOrder | internal/webhook/dispatch.go:99-109 | before it is sorted, a cleaned list is in order of first mention |
| Text.TrimAround | internal/auth/pairing.go:500 | trimming takes spaces from both ends and nothing else |
| Text.BlankTrims | internal/auth/pairing.go:501 | exactly the strings of nothing but spaces trim to nothing |
| Text.LessMeans | internal/auth/pairing.go:509 | the order of the sort: at the first difference the smaller character, or the end, comes first |
| Scopes.ScopesSubset | internal/auth/pairing.go:513-526 | answers whether one list's scopes are all in the other |
| Base64.RoundTrip | internal/auth/tokens.go:54-72 | decoding undoes encoding for byte strings of every length |
| Base64.EncodedAlphabet | internal/auth/tokens.go:54 | encodings contain no dot, line break or space, and are empty only for no bytes |
| Base64.TestVectors | internal/auth/tokens.go:54 | the test vectors of section 10 of RFC 4648, unpadded, and one for the two characters of its URL-safe alphabet |
| Base64.SplitKeepsBits | internal/auth/tokens.go:54 | four digits hold the bits of three bytes, most significant first |
| Base64.DecodeMeans | internal/auth/tokens.go:64-72 | a text decodes if and only if, line breaks aside, it is made of the alphabet and its length is not one over a multiple of four |
| Base64.NewlinesAreSkipped | internal/auth/tokens.go:64-72 | a line break anywhere in the text makes no difference |
| Base64.TailBitsAreIgnored | internal/auth/tokens.go:64-72 | neither do the bits left over in the last digit |
| Tokens.CutAfterDotless | internal/auth/tokens.go:59 | cutting at the first dot recovers what was joined around it |
| Tokens.VerifyUndoesMint | internal/auth/tokens.go:36-88 | a minted token verifies to exactly the minted claims until its expiry second and is expired from then on, for all ids, scopes and lifetimes |
| Tokens.OpenMeans | internal/auth/tokens.go:58-81 | a token opens to claims if and only if it is two non-empty encoded parts with the first dot between them, the second part decodes to a signature that verifies on the first part decoded, and that payload decodes to the claims |
| Tokens.OpenCarried | internal/auth/tokens.go:74-76 | a token whose parts decode is refused as unverified whenever the signature does not verify on the payload |
| Tokens.VerifyMeans | internal/auth/tokens.go:58-88 | a token verifies to claims if and only if it carries them under a signature that verifies and the instant is before their expiry second |
| Basics.Compact | internal/auth/pairing.go:437-455 | the range-and-append loop over `s[:0]`, run in place on the array, leaves exactly the order-preserving filter in front |
| Store.SavingIsAllOrNothing | internal/store/store.go:137-157 | a save that stops after any number of its file steps leaves the old file, unless all steps ran, and then exactly the new configuration |
| Store.UpdatesAreAtomic | internal/store/store.go:95-118 | over any history of updates with failing reads, failing closures, and failures or crashes at any file step, a later load returns exactly the result of the completed updates |
| Store.LoadMeans | internal/store/store.go:120-135 | a missing file loads as the empty configuration; one that does not decode or cannot be read is an error |
| Store.FileStore.SaveLocked | internal/store/store.go:137-157 | the step-by-step save changes the disk as specified and reports success only when the file was replaced |
| Store.FileStore.Update | internal/store/store.go:95-118 | a returned configuration is what a later load finds; any error leaves the file as it was; a closure's error is told apart from an I/O error |
| AuthService.Draft.PruneExpiredCodes | internal/auth/pairing.go:437-445 | drops exactly the expired codes, in place and in order |
| AuthService.Draft.PruneExpiredSessions | internal/auth/pairing.go:447-455 | drops exactly the expired sessions that were not approved, in place and in order |
| AuthService.Service.CreateSession | internal/auth/pairing.go:72-107 | disk and answer are those specified, under every store failure |
| AuthService.Service.GetSession | internal/auth/pairing.go:109-140 | the answer is the one specified and the disk is untouched |
| AuthService.Service.ApproveSession | internal/auth/pairing.go:142-211 | disk and answer are those specified, including forbidden, expired and unknown sessions |
| AuthService.Service.EnsureBootstrap | internal/auth/pairing.go:213-247 | disk and answer are those specified: nothing while a client is active, else the first live code, else a new one |
| AuthService.Service.GeneratePairingCode | internal/auth/pairing.go:249-281 | disk and answer are those specified, with the default lifetime and scopes |
| AuthService.Service.Pair | internal/auth/pairing.go:283-344 | disk and answer are those specified, under every store failure |
| AuthService.Service.Authenticate | internal/auth/pairing.go:346-381 | disk and answer are those specified; every failure is "unauthorized" |
| AuthService.Service.RevokeClient | internal/auth/pairing.go:407-435 | disk and answer are those specified |
| AuthService.Service.HasScope | internal/auth/pairing.go:383-391 | answers whether the claims contain the scope |
| AuthRequests.EarlyMeans | internal/auth/pairing.go:76-80 | exactly which requests are answered without the store, and how: a blank name, kind or code, an approval that exceeds the approver's scopes, a token without a valid signature or past its expiry, a blank client id |
| AuthRequests.TroubleStoresNothing | internal/store/store.go:95-118 | when the store cannot be read or saved nothing is stored, and exactly the requests that needed it fail, Authenticate with "unauthorized" |
| AuthRequests.CreateSessionDoes | internal/auth/pairing.go:72-107 | refused exactly for blank names; otherwise a pending session of three minutes is stored behind the unexpired and approved ones and answered, expired codes go, and nothing else changes |
| AuthRequests.GetSessionDoes | internal/auth/pairing.go:109-140 | answers the first session with the id as it is stored, "expired" from its expiry on, "not found" if there is none, and changes nothing |
| AuthRequests.ApproveSessionDoes | internal/auth/pairing.go:142-211 | forbidden exactly when something wanted is not among the approver's scopes; on success the signed claims, the answer, the stored client and the session carry exactly the wanted scopes (those mentioned, or read and send when none is), for 24 hours, and nothing else changes |
| AuthRequests.EnsureBootstrapDoes | internal/auth/pairing.go:213-247 | sets the name, drops expired codes, and makes a code of two minutes for all three scopes exactly when no client is active and no code is live; else answers the first live code, or nothing while a client is active |
| AuthRequests.GeneratePairingCodeDoes | internal/auth/pairing.go:249-281 | stores and answers a code of the asked lifetime, or two minutes, with exactly the mentioned scopes, or all three when the list is empty |
| AuthRequests.PairDoes | internal/auth/pairing.go:283-344 | refused exactly for blank input or when no live code is the typed one; otherwise the first such code goes, and a client and a token of 90 days come with its scopes |
| AuthRequests.AuthenticateDoes | internal/auth/pairing.go:346-381 | answers the first client that the carried claims name and that is not revoked, and touches its last-seen time and nothing else |
| AuthRequests.RevokeClientDoes | internal/auth/pairing.go:407-435 | the answer says whether a client has the id; that client is then revoked and nothing else changes; a blank id changes nothing |
| Auth.RandomText | internal/auth/pairing.go:457-487 | the builder loop spells the drawn bytes in the alphabet |
| Auth.GeneratedCodeCanBeTyped | internal/auth/pairing.go:287 | a generated code, typed in either case with spaces around it, is recognised as that code |
| AuthRuns.RunsKeepInv | internal/auth/pairing.go:72-435 | in every legal run stored clients match grants, ids are distinct, sessions match grants and codes are accounted for |
| AuthTheorems.AuthenticateIsExact | internal/auth/pairing.go:346-381 | in every legal run Authenticate accepts a token at an instant if and only if the token carries, under a signature that verifies, claims that were granted by an earlier committed Pair or ApproveSession, the instant is before their expiry second, and their client has not been revoked; the answer then names those claims and that client, with the same scope set |
| AuthTheorems.GrantedMeans | internal/auth/pairing.go:314-328 | the grants of a run are exactly the claims minted by its committed Pairs and ApproveSessions |
| AuthTheorems.RevokedMeans | internal/auth/pairing.go:407-435 | the revoked ids of a run are exactly those for which some RevokeClient answered true |
| AuthTheorems.PairHandsOutGrant | internal/auth/pairing.go:314-335 | a successful Pair hands out the sealed token of the claims it granted, with their client id and expiry |
| AuthTheorems.ApproveHandsOutGrant | internal/auth/pairing.go:165-200 | a successful ApproveSession answers with the id it was asked for and the sealed token, client id, expiry and scopes of the claims it granted, within the approver's scopes, and a session with exactly this answer is stored |
| AuthTheorems.GrantLifetime | internal/auth/tokens.go:83-85 | the sealed token of any grant of a run works until its expiry second or its client's revocation, and not after either |
| AuthTheorems.RevocationIsForever | internal/auth/pairing.go:423 | once a client is revoked, its tokens are refused at every later point of every run |
| AuthTheorems.SessionsAreRecords | internal/auth/pairing.go:175-189 | every stored session is pending with nothing granted, or approved with a token sealed from a grant with the same client, scopes and expiry, whose client is stored with that token id |
| AuthTheorems.ApprovalIsForever | internal/auth/pairing.go:447-455 | an approved session never vanishes and never reverts, across pruning and re-approval |
| AuthTheorems.ScopesNeverWiden | internal/auth/pairing.go:147-153 | through any chain of delegations, every token ever signed has scopes contained in those of some issued pairing code |
| AuthTheorems.ClientScopesAreClaimScopes | internal/auth/pairing.go:320-328 | a stored client's scopes are, as a set, those of the claims granted to it |
| AuthTheorems.CodesAreConserved | internal/auth/pairing.go:234-273 | for every code string, even one drawn twice: entries issued = pending + redeemed + dropped, and dropped entries have expired |
| AuthTheorems.PairingsNeverExceedIssues | internal/auth/pairing.go:300-312 | a code is never redeemed more often than it was issued |
| AuthTheorems.PairTakesFirstLiveMatch | internal/auth/pairing.go:298-312 | a Pair succeeds exactly when an unexpired entry has the typed code; it removes the first and keeps the order of the rest; otherwise nothing changes |
| AuthPruning.PruningIsInvisible | internal/auth/pairing.go:437-455 | in every legal run each answer is that of a service that never prunes and checks expiry only at use, except that a session request may fail with "not found" where the reference fails with "expired"; never the other way round |
| AuthPruning.DroppedIsNotFound | internal/auth/pairing.go:122-136 | a run with the difference, for every choice of its requests: create a session, let it expire, create another, and get the first: "not found" here, "expired" in the reference |
| AuthPruning.OnlySessionErrorsDiffer | internal/auth/pairing.go:157-158 | for all requests but GetSession and ApproveSession the answers are equal |
| AuthSweeping.PruningShowsExactly | internal/auth/pairing.go:447-455 | at every event of every legal run the answer differs from that of the service that never prunes if and only if the request passes its first checks, the store can be read, and it is an ApproveSession for a session that expired without being approved, or a GetSession for such a session that was also swept: a committed CreateSession or ApproveSession ran at or after its expiry |
| AuthSweeping.RunsAccount | internal/auth/pairing.go:447-455 | in every legal run every stored session is in the reference, and one in the reference that is not approved is stored if and only if it was not swept |
| Webhooks.CleanEvents | internal/webhook/dispatch.go:99-109 | keeps the trimmed non-blank events once each, in order of first mention |
| Webhooks.DropHook | internal/webhook/service.go:77-85 | the in-place loop keeps exactly the other hooks, and its flag says whether anything was dropped |
| Webhooks.DeleteRemovesExactly | internal/webhook/service.go:69-92 | a deletion answers true exactly when some hook has the id; afterwards none has and all others remain |
| Webhooks.CreateAddsOne | internal/webhook/service.go:29-56 | refused exactly for an invalid target or events that are all blank; otherwise one hook with the given id, target and time is stored behind the others and answered, with the mentioned events once each in order of first mention |
| Webhooks.DeleteTouchesHooksOnly | internal/webhook/service.go:69-92 | a blank id deletes nothing, and a deletion keeps the other hooks in order and changes nothing else |
| Webhooks.HookTroubleStoresNothing | internal/webhook/service.go:44-52 | what cannot be saved changes nothing, and only requests that needed the store fail for it |
| Webhooks.Service.Create | internal/webhook/service.go:29-56 | disk and answer are those specified, under every store failure |
| Webhooks.Service.Delete | internal/webhook/service.go:69-92 | disk and answer are those specified, under every store failure |
| Writers.WritersDoNotInterfere | internal/store/store.go:95-118 | for every interleaving of auth requests, webhook requests and watch-mark saves, each writer's part of the configuration and each of its answers are those of running its own operations alone in the same order |
| Writers.OperationsAreTheComponents | internal/store/store.go:95-118 | the operations that interleave are the auth service's, the webhook service's, and the saving of a watch mark |
| Hub.NeverPanics | internal/events/hub.go:22-60 | no interleaving of subscribe, publish, receive and unsubscribe sends on a closed channel or closes a channel twice |
| Hub.UnsubscribeIsFinal | internal/events/hub.go:36-47 | after an unsubscribe the subscriber stays out, and unsubscribing again at any later point changes nothing |
| Hub.ChannelIsQueue | internal/events/hub.go:22-60 | in every interleaving a subscriber's channel is exactly a bounded queue fed with its own events and receives |
| Hub.DeliveryIsInOrder | internal/events/hub.go:50-60 | what a subscriber received, followed by what is buffered, is an in-order subsequence of the events published while it listened |
| Hub.LostOnlyWhenFull | internal/events/hub.go:54-59 | an event is lost to a listening subscriber exactly when its channel is full at that moment |
| Hub.NothingLostWhenKeepingUp | internal/events/hub.go:54-59 | a subscriber whose lag stays below its capacity loses nothing |
| Hub.ReceiveTakesOldest | internal/events/hub.go:22-34 | after any run, a receive takes the oldest waiting event and nothing else |
| Hub.SubscriberHasRoom | internal/events/hub.go:22-34 | after any run, a new subscriber keeps the first events published before it reads, as many as it asked room for, and at least one |
| Hub.ApplyIsEffect | internal/events/hub.go:22-60 | the atomic steps change the table of subscribers as the methods of the hub object do |
| Hub.EventHub.Subscribe | internal/events/hub.go:22-36 | a fresh open channel of at least one slot under the next id |
| Hub.EventHub.Unsubscribe | internal/events/hub.go:36-47 | removes and closes the channel the first time, does nothing later |
| Hub.EventHub.Publish | internal/events/hub.go:50-60 | offers the event to every subscriber, in whatever order the map yields them |
| HistoryCache.TableIsFacts | internal/api/history_cache.go:34-75 | in every interleaving the table holds exactly the last puts not invalidated since and not removed by a racing expired-entry deletion |
| HistoryCache.InterleavedGetIsExact | internal/api/history_cache.go:34-52 | whatever interleaves between the sections of a Get, it hits if and only if, when this very Get read its key, the last put of the key was not invalidated and not lost to an expired-entry deletion, and it is at most the time to live old at the clock check; a hit returns that put |
| HistoryCache.UninterruptedGet | internal/api/history_cache.go:34-52 | exactly when a Get without interruption hits, after any interleaved past and for any clock readings |
| HistoryCache.FreshPutsLoseOnlyRaces | internal/api/history_cache.go:44-49 | with a clock that does not run backwards, a put that is still fresh has been deleted if and only if a Get that began before it deleted the entry after it |
| HistoryCache.UninterruptedGetOnClock | internal/api/history_cache.go:34-52 | so, on such a clock, a Get without interruption hits if and only if the last put is not invalidated, young enough, and was not deleted by a Get begun before it |
| HistoryCache.DeletionCanLoseFreshPut | internal/api/history_cache.go:44-49 | the converse fails under interleaving: a run in which a fresh put is lost to a late deletion |
| HistoryCache.WholeGetIsItsSections | internal/api/history_cache.go:34-52 | run without interruption, the sections of a Get act as one call |
| HistoryCache.GetRefinesReference | internal/api/history_cache.go:34-75 | used sequentially, Get hits with v if and only if v was the last put of the key, is at most the time to live old, and its chat was not invalidated since |
| HistoryObject.CloneMessages | internal/api/history_cache.go:109-127 | the copy has the same content in new arrays only; its timestamps are the same pointers |
| HistoryObject.Cache.Get | internal/api/history_cache.go:34-52 | answers as specified, with arrays that belong to the caller alone |
| HistoryObject.Cache.Put | internal/api/history_cache.go:54-64 | stores the content as it is at the call; the cache's memory grows only by new arrays |
| HistoryObject.Cache.InvalidateChat | internal/api/history_cache.go:66-75 | removes exactly the chat's entries |
| HistoryObject.CallersCannotDisturb | internal/api/router.go:187-207 | over any sequence of puts, gets and invalidations, with arbitrary writes in between by callers to every array they ever handed in or were handed: each answer is that of the calls alone, with each history as it was when it was put (a timestamp counting as the pointer it is), and no call changes what callers hold |
| HistoryObject.TimestampsAreShared | internal/api/history_cache.go:109-127 | timestamps are the exception: for every cache, every history and every message of it, a time written through the message's timestamp after the put is what a later hit shows |
| HistoryObject.Act | internal/api/history_cache.go:34-75 | one such action: its effect on the table, its answer, and that callers still share no memory with the cache |
| HistoryObject.OutsideWritesAreInvisible | internal/api/history_cache.go:109-127 | any change that leaves the cache's own memory alone leaves every entry's content as it was |
| HistoryFlow.CurrentExactlyIfLoadUndisturbed | internal/api/router.go:187-264 | for every interleaving of changes, events and handlers, a cached history is the chat's current one if and only if the chat changed neither between its load and its put nor since; and where the chat is not 0 and no change of it is unreported, waiting or lost to a full channel, that is if and only if it did not change between load and put |
| HistoryFlow.DisturbedLoadGoesStale | internal/api/router.go:196-207 | a chat can change between load and put with its event processed first: an outdated history then stays cached with nothing unreported, waiting or lost |
| HistoryFlow.AnnounceQueuesOrLoses | internal/api/router.go:248-264 | after any run, a published change waits for the invalidation loop, and is lost exactly when 32 events wait already |
| HistoryFlow.ProcessDropsItsChatOnly | internal/api/router.go:251-263 | the loop drops the entries of the event's chat and no others, and none for chat 0 |
| HistoryFlow.PromptLoadIsCurrent | internal/api/router.go:196-207 | after any run, a load that is put at once is the chat's current history, under its key, for 30 minutes |
| Watcher.Run | internal/imsg/watcher.go:60-89 | the loop's marks, hand-overs, delays and end are those specified, for every pattern of failures |
| Watcher.GoesOnUntilEnded | internal/imsg/watcher.go:64-88 | the loop ends at the first watch that finishes or whose wait is cancelled, and at no failure before it; it has then handed on the rows of all watches up to that one, in order, and waited once after each watch before it |
| Watcher.Callback.Handle | cmd/chatbubbles/main.go:116-125 | hands the row on, raises the mark in memory, and changes nothing else in the stored configuration than the saved mark |
| Watcher.RowsAreGapFree | internal/imsg/watcher.go:60-102 | from a positive starting row and a source that emits rows above the mark in order, the rows handed over are a prefix of the rows above the start: no gap, no repeat |
| Watcher.GapFreeExactlyFromPositiveStart | internal/imsg/watcher.go:100-102 | the rows handed over are free of gaps and repeats for every table and every pattern of failures if and only if the starting row is positive |
| Watcher.MarksAreHighWater | internal/imsg/watcher.go:65-71 | for any rows at all, both marks in memory are the highest row seen and the saved mark is never above them |
| Watcher.SavedMarkIsMonotone | cmd/chatbubbles/main.go:117-124 | the saved mark never goes back, whichever saves fail |
| Watcher.SavedMarkKeepsUp | cmd/chatbubbles/main.go:117-124 | when every save works, the saved mark is the mark in memory |
| Watcher.RestartsLeaveOutExactly | cmd/chatbubbles/main.go:113-130 | over any sequence of processes, each started from the mark the one before it saved and each possibly crashing inside the callback: the rows handed on are exactly the rows reached except those left out, and the saved mark is never above the highest row reached |
| Watcher.LeftOutMeans | cmd/chatbubbles/main.go:116-130 | a row is left out if and only if some process crashed on it after its mark was saved and before it was handed on, and it was above every row seen until then |
| Watcher.CrashAfterSaveLeavesOut | cmd/chatbubbles/main.go:116-130 | that happens from every positive start with a row above it: a crash on the next row after the save leaves that row out for good |
| Watcher.RepeatsWereUnsaved | cmd/chatbubbles/main.go:113-125 | a row that a later process hands on again lies above the mark saved when that process started |
| Watcher.BackoffIsExponential | internal/imsg/watcher.go:78-87 | the nth delay is min(start * 2^n, max) |
| Merge.MergeMessages | web/src/App.tsx:1596-1604 | the loop over an insertion-ordered map, then the sort, compute the specified merge |
| Merge.MergeMeaning | web/src/App.tsx:1526-1604 | a merge has one message per key, the last occurrence over both lists, sorted by timestamp and id |
| Merge.MergeIsChronological | web/src/App.tsx:1526-1535 | a merge is oldest first: by creation, absent counting as 0, and at the same instant by id |
| Merge.KeyOfGuid | web/src/App.tsx:1606-1608 | a guid with something in it is the key without the white space around it, whatever the id |
| Merge.KeyOfID | web/src/App.tsx:1606-1608 | without a guid, or with a blank one, the key is the id in decimal |
| Merge.NumberOfDigits | web/src/App.tsx:1606-1608 | which is digits only, of the right value, without leading zero |
| Merge.MergeIsIdempotent | web/src/App.tsx:1596-1604 | merging the same batch again changes nothing, ties included |
| MergeFold.MergedOrder | web/src/App.tsx:1526-1604 | a merge orders two keys by the timestamp and id of their last messages, and where these tie by first occurrence over both lists |
| MergeFold.FoldOrder | web/src/App.tsx:1005-1020 | folding orders two keys as their last messages compared when they last differed after some message of the batch, and if they never did by first occurrence |
| MergeFold.FoldEqualsMergeExactly | web/src/App.tsx:1005-1020 | folding a non-empty batch in one event at a time equals merging it at once if and only if, for every two keys whose last messages tie, the last point of the batch at which they did not tie, if there was one, ordered them as they first occurred |
| MergeFold.FoldEqualsMerge | web/src/App.tsx:1005-1020 | where different keys never share timestamp and id, folding a non-empty batch in one event at a time equals merging it at once |
| MergeFold.FoldDiffersOnTies | web/src/App.tsx:1005-1020 | with ties the two can differ: a batch of three messages for which they do |
| Merge.KeysOfIDs | web/src/App.tsx:1606-1608 | without a guid, messages have the same key exactly when they have the same id |

## Left out

- RateLimiter.AdmissionIsExact: floating-point rounding of tokens and rates is not modelled; instants and tokens are real numbers.
- Auth.GeneratedCodeCanBeTyped: `ToUpper` maps only the characters whose upper case is one of the letters A to Z; other letters are left as they are, which no generated code can tell.
- Merge.MergeMeaning: timestamps that `Date.parse` rejects make the comparator inconsistent and the order implementation-defined; every timestamp is taken as parsed, or absent.
- HistoryCache.InterleavedGetIsExact: the printed key is taken as injective in chat, limit, instants and flag; date formatting is not modelled.
- Store.UpdatesAreAtomic: a rename is atomic and durable; power loss without a sync is not modelled. A file is its decoded content, so absent and empty lists are not told apart.
- Watcher.RestartsLeaveOutExactly: a row counts as handed on once the callback has published it on the hub and dispatched it to the webhooks; a crash between these two is not told apart from one before them.
- The mutexes themselves: every locked section is one atomic step.
- HistoryFlow.CurrentExactlyIfLoadUndisturbed: a load is one atomic look at the chat's history, and events that carry something other than a message are not modelled, since the watch callback publishes messages only.
- HTTP routing, JSON responses, websockets, the control socket and the command lines: input and output.
- TLS certificates, key files, attachment ids and files, running the `imsg` binary: foreign code.
- Webhook URL validation and delivery: name resolution and HTTP; a validated target is an input.
- Listing webhooks, event naming, chat previews and the rest of the web client: single expressions over the same state.
