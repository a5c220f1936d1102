# Verification of the thumbnailer

This project models the parts of the thumbnailer that decide something, and proves what they
promise: which request is sent when, whose reply goes where, what the caches return, and how
large an image becomes. `dafny verify dfyconfig.toml` checks everything.

Each component is described twice. A value-level module gives its state and one function per
operation; all properties of whole runs are proved about these. A module whose name ends in
`Object` or `Objects` has the classes that the program has, with methods that update fields in
place as the program does, each proved to perform the operation of the value-level module.

| files | what they model |
|---|---|
| `RateLimiter`, `RateLimiterObject` | `src/ratelimiter.cpp` |
| `ClientProtocol`, `ClientRuns`, `ClientEffects`, `ClientObjects` | the client requests of `src/libthumbnailer-qt/libthumbnailer-qt.cpp` over the rate limiter |
| `Credentials`, `CredentialsObject` | `src/service/credentialscache.cpp` |
| `Chains` | the per-key chains of `src/service/dbusinterface.cpp` |
| `ServiceParts`, `Service`, `ServiceObjects` | the handlers of `src/service/handler.cpp` over chains, credentials cache, rate limiters and `src/service/inactivityhandler.cpp` |
| `ServiceAccess` | the service with what the bus daemon has said of each peer: who is served |
| `Scaling`, `Orientation` | the size arithmetic and the Exif orientations of `src/image.cpp` |
| `Backoff`, `BackoffObject` | `src/backoff_adjuster.cpp`, and how `src/thumbnailer.cpp` and `src/settings.cpp` configure, save and restore it |
| `CacheKeys`, `Lookup`, `LookupEffects`, `LookupObjects` | the keys and the three-cache look-up of `src/thumbnailer.cpp` |
| `ServedLookup`, `ServedReplies` | the service with the look-up: `check()` and `create()` of its handlers are calls of `thumbnail()`, and their results are what clients are answered |
| `CacheRecovery`, `CacheRecoveryObject` | `include/internal/cachehelper.h` |
| `ResourceOwnership`, `ResourceOwnershipObject` | `include/internal/ResourcePtr.h` |

## The environment

- The event loop is single-threaded: each slot, and each call of `thumbnail()`, is one step, and
  steps interleave in any order. Calls that Qt makes inside another call (`begin()` from
  `finished()`, `gotCredentials()` from a reply) are kept on a stack and run innermost first.
- D-Bus, the bus daemon, downloads, extraction, image decoders, AppArmor and the leveldb caches
  answer with any of their possible outcomes, at any time. Cache entries can disappear at any time.
- The clock is an integer that does not run backwards, where an order matters.
- `QSize::scale` with `Qt::KeepAspectRatio` is its documented definition with truncating 64-bit
  division. An image is its size, except in `Orientation`, where it is its pixels.
- A job does not call its own cancel function, a `finished()` slot does not destroy its request,
  and waiting for a reply delivers that reply.
- Peers, handlers, jobs and resources are named by numbers, since only their identity matters.

## What the code does that its documentation does not say

- `include/ratelimiter.h:58-59` says that `done()` starts the job at the head of the queue. It
  takes jobs from the back: the queue is last-in first-out (`RateLimiting.TakeLiveTakesNewest`).
- An excess of running jobs left by `schedule_now` lasts while jobs wait: `done()` lowers the number
  of running jobs exactly when no live job waits (`RateLimiting.ExcessLasts`, `RateLimiting.DoneLowers`).
- `include/unity/thumbnailer/qt/thumbnailer-qt.h:118-119` says that a cancelled request may
  complete successfully. A request for which `cancel()` took effect never becomes valid
  (`ClientEffects.CancelIsFinal`).
- `queueRequest` appends to a chain that no longer exists if the handler finishes inside
  `begin()`, which happens exactly for a refused peer whose credentials are cached
  (`ServiceProtocol.FaultIff`, `ServiceProtocol.FaultIsReachable`). The results about runs of the
  service assume that it does not.
- `MAX_CACHE_SIZE` does not bound the credentials cache (`CredentialsCaching.NoBound`); exactly
  when an operation stays within it is `CredentialsCaching.WithinLimitIff`.
- The comment at `src/backoff_adjuster.cpp:100-102` says that `adjust_retry_limit` returns true
  when the period is maxed out. Within the period it returns false, maxed out or not.
- The assertion in `set_max_backoff` can fail for values that the settings allow
  (`BackoffRules.ConfigurationAssertion`), and that in `set_backoff_period` for a saved period, when
  the settings have changed since (`BackoffRules.RestartNeverProlongs`).
- Very thin images: `Image::scale` clamps a dimension to one pixel, decoding at a size fails
  instead. So such an image can be returned once and throw later, and a local file can be
  recorded as failed for all sizes (`CacheLookup.FromFullSize`, `CacheLookup.FailureSpreads`).
- Limiting large images to the maximum first changes the result for oblong boxes by any amount
  (`Scaling.OblongUnbounded`, `Scaling.WithinTwoIff`).
- Assigning a `ResourcePtr` that holds a resource to itself deletes the resource
  (`ResourceOwnership.MoveAssignTransfers`).

## Model

| member | source | states |
|---|---|---|
| RateLimiting.TakeLiveTakesNewest | src/ratelimiter.cpp:87-98 | the next job is the newest live one; cleared entries behind it are dropped, everything before it stays in place |
| RateLimiting.ScheduleValid | src/ratelimiter.cpp:47-57 | scheduling adds one job that is running or waiting, and a job waits only while the limiter is full |
| RateLimiting.CancelValid | src/ratelimiter.cpp:62-70 | a cancel function keeps the limiter valid |
| RateLimiting.ClearFrame | src/ratelimiter.cpp:62-70 | a cancel function clears the entry of its job and no other, whether or not it had been cleared before |
| RateLimiting.DoneValid | src/ratelimiter.cpp:82-105 | done() takes exactly one away from what runs or waits, starts a job that was waiting, and keeps the limiter valid |
| RateLimiting.Drain | src/ratelimiter.cpp:82-105 | with no new jobs, one done() per running or waiting job empties the limiter and starts each live job once, newest first, and no cleared one |
| RateLimiting.Conservation | src/ratelimiter.cpp:47-105 | over every run: scheduled minus first successful cancels minus done() calls is running plus waiting; each job was started, cancelled or waits; a queue implies a full limiter |
| RateLimiting.CancelledNeverStarts | src/ratelimiter.cpp:87-104 | over every run a job that does not wait any more, say because it was cancelled, is not started unless scheduled again |
| RateLimiting.Overshoot | src/ratelimiter.cpp:73-80 | the limit is exceeded by at most the number of schedule_now calls |
| RateLimiting.DoneLowers | src/ratelimiter.cpp:82-105 | done() lowers the number of running jobs exactly if no live job waits |
| RateLimiting.WithinLimitIff | src/ratelimiter.cpp:47-105 | exactly when each operation leaves no more jobs running than the limit allows |
| RateLimiting.RunningBalance | src/ratelimiter.cpp:47-105 | over every run the running count changes by the jobs that start without waiting minus the calls to done() that find no live job |
| RateLimiting.ExcessLasts | src/ratelimiter.cpp:47-105 | over every run an excess over the limit goes down only by calls to done() that find no live job, and is gone exactly if these make up for it and for the jobs started without waiting |
| RateLimiting.OvershootPersists | src/ratelimiter.cpp:73-105 | an example: two jobs run under a limit of one although the job that bypassed the queue has completed |
| RateLimiterObject.RateLimiter.Schedule | src/ratelimiter.cpp:47-71 | the object performs the specified step; the returned weak pointer names the queued entry |
| RateLimiterObject.RateLimiter.ScheduleNow | src/ratelimiter.cpp:73-80 | the object performs the specified step |
| RateLimiterObject.RateLimiter.CallCancel | src/ratelimiter.cpp:62-70 | the cancel function clears its entry in place and returns true exactly if the entry is still in the list |
| RateLimiterObject.RateLimiter.Done | src/ratelimiter.cpp:82-105 | the loop over the list from its back performs the specified step and starts the specified job |
| ClientProtocol.StepKeepsInv | src/libthumbnailer-qt/libthumbnailer-qt.cpp:141-318 | no call and no event fails an assertion of the client or the limiter, and each keeps requests, queue, events and accounts consistent |
| ClientRuns.PumpedExactlyOnce | src/libthumbnailer-qt/libthumbnailer-qt.cpp:197-208 | over every interleaving: no assertion fails, running_ is the number of sent and unfinished requests plus pending pumps, done() was called exactly once for every other request sent and never for one not sent; a cancelled request is never valid |
| ClientRuns.WaitFinishes | src/libthumbnailer-qt/libthumbnailer-qt.cpp:300-318 | waitForFinished returns with the request finished with its own reply, queued or sent, unless it had been cancelled |
| ClientRuns.CompletionFrame | src/libthumbnailer-qt/libthumbnailer-qt.cpp:197-252 | a completion finishes its own request, valid exactly if the reply is and it was not cancelled, and changes no other except for sending one |
| ClientRuns.PumpFrame | src/libthumbnailer-qt/libthumbnailer-qt.cpp:428-431 | pumping changes no request except for sending the one that the limiter starts |
| ClientRuns.DroppedNeverSent | src/libthumbnailer-qt/libthumbnailer-qt.cpp:175-195 | a request that is destroyed, finished, or cancelled while queued is never sent in any later run |
| ClientRuns.DeliveryProgress | src/libthumbnailer-qt/libthumbnailer-qt.cpp:197-252 | every delivery by the event loop brings the client nearer to having nothing left to deliver |
| ClientRuns.DeliveriesEnd | src/libthumbnailer-qt/libthumbnailer-qt.cpp:175-318 | once the application stops calling, only boundedly many deliveries follow |
| ClientRuns.QuiescentIsComplete | src/libthumbnailer-qt/libthumbnailer-qt.cpp:197-208 | when nothing is left to deliver every request has finished, the limiter is idle and empty, and done() was called once per request sent |
| ClientRuns.BacklogIsLimited | src/libthumbnailer-qt/libthumbnailer-qt.cpp:165-172 | over every run, requests sent and not finished exceed max_backlog by at most the calls to waitForFinished that sent a queued request; requests are queued only while that many are sent |
| ClientEffects.CreateEffect | src/libthumbnailer-qt/libthumbnailer-qt.cpp:141-173 | for every client: a valid size gives an unfinished request that is sent at once exactly while fewer than max_backlog run, and otherwise is the newest entry of the queue; an invalid size gives a finished request without an image, and the limiter is not touched |
| ClientEffects.CancelEffect | src/libthumbnailer-qt/libthumbnailer-qt.cpp:273-298 | cancel() of a request neither finished nor cancelled marks it; if it was not sent its queue entry is cleared and the faked completion posted, otherwise it keeps its watcher; no other request changes; in every other case nothing changes |
| ClientEffects.DestroyEffect | src/libthumbnailer-qt/libthumbnailer-qt.cpp:175-195 | the destroyed request is gone with its faked completion, its queue entry is cleared, and a pump is posted exactly if its reply is still to come |
| ClientEffects.WaitEffect | src/libthumbnailer-qt/libthumbnailer-qt.cpp:300-318 | waitForFinished does nothing for a finished or cancelled request; otherwise it returns with the request settled by its reply, sent once and pumped for once, the newest waiting request having been sent |
| ClientEffects.ReplyEffect | src/libthumbnailer-qt/libthumbnailer-qt.cpp:197-252 | a reply settles its request, with the image unless it was cancelled, and the newest request still waiting is sent in its place |
| ClientEffects.FakeEffect | src/libthumbnailer-qt/libthumbnailer-qt.cpp:197-216 | the faked completion settles its request with an error and changes nothing else, so it does not pump |
| ClientEffects.RunPumpEffect | src/libthumbnailer-qt/libthumbnailer-qt.cpp:428-431 | a deferred pump sends the newest request still waiting |
| ClientEffects.EndEmitEffect | src/libthumbnailer-qt/libthumbnailer-qt.cpp:228-252 | after the slots of a successful finished() the watcher is dropped, and nothing else changes |
| ClientEffects.CancelIsFinal | src/libthumbnailer-qt/libthumbnailer-qt.cpp:273-298 | after cancel() of an unfinished request no later run gives it an image, and if its call had not been made it never is |
| ClientEffects.RefusedForGood | src/libthumbnailer-qt/libthumbnailer-qt.cpp:157-163 | a request with an invalid size is never sent and never gets an image, in any later run |
| ClientEffects.FinishedForGood | src/libthumbnailer-qt/libthumbnailer-qt.cpp:197-271 | in every later run a finished request keeps its outcome |
| ClientEffects.FirstWordDecides | src/libthumbnailer-qt/libthumbnailer-qt.cpp:197-318 | over every run the first thing said about an open request decides: cancel() leaves it without an image for good, a reply finishes it with an image exactly if the reply carries one, and until then it is open |
| ClientObjects.ThumbnailerImpl.CreateRequest | src/libthumbnailer-qt/libthumbnailer-qt.cpp:141-173 | the constructor on objects: finished exactly if the size is invalid, sent exactly if it is valid and fewer than max_backlog run, queued otherwise (the step of `ClientEffects.CreateEffect`) |
| ClientObjects.ThumbnailerImpl.DbusCallFinished | src/libthumbnailer-qt/libthumbnailer-qt.cpp:197-252 | dbusCallFinished on objects performs the specified step, including the nested start of another request |
| ClientObjects.ThumbnailerImpl.Cancel | src/libthumbnailer-qt/libthumbnailer-qt.cpp:273-298 | cancel on objects: an unfinished request is marked, and the faked completion is posted exactly if its entry was still queued (the step of `ClientEffects.CancelEffect`) |
| ClientObjects.ThumbnailerImpl.WaitForFinished | src/libthumbnailer-qt/libthumbnailer-qt.cpp:300-318 | waitForFinished on objects performs the specified step |
| ClientObjects.ThumbnailerImpl.Destroy | src/libthumbnailer-qt/libthumbnailer-qt.cpp:175-195 | the destructor on objects performs the specified step |
| ClientObjects.ThumbnailerImpl.Pump | src/libthumbnailer-qt/libthumbnailer-qt.cpp:204-207 | limiter().done() with the request it starts performs the specified step |
| ClientObjects.ThumbnailerImpl.RunFake | src/libthumbnailer-qt/libthumbnailer-qt.cpp:291-297 | the delivery of a faked completion performs the specified step |
| ClientObjects.ThumbnailerImpl.RunPump | src/libthumbnailer-qt/libthumbnailer-qt.cpp:428-431 | pump_limiter performs the specified step |
| KeyChains.ArriveKeepsOk | src/service/dbusinterface.cpp:191-214 | a new handler keeps every chain in order: it begins alone or waits linked behind the last |
| KeyChains.BeginKeepsOk | src/service/dbusinterface.cpp:202-212 | the begin() that a finished handler triggers keeps every chain in order |
| KeyChains.FinishEffect | src/service/dbusinterface.cpp:256-283 | a finished handler was the first of its chain; the rest stays, and its new first handler is the one due to begin |
| KeyChains.FinishKeepsOk | src/service/dbusinterface.cpp:256-283 | finishing keeps every chain in order |
| KeyChains.DeleteKeepsOk | src/service/dbusinterface.cpp:282-283 | the deferred deletion of a finished handler keeps every chain in order |
| KeyChains.DeleteEffect | src/service/dbusinterface.cpp:282-283 | the deleted handler is gone, it was in no chain, and nothing else changes |
| KeyChains.ChainsPartitionRequests | src/service/dbusinterface.cpp:191-283 | requests_ is the disjoint union of the chains, none is empty, only the first of a chain has begun, departures are a prefix of arrivals |
| ServiceProtocol.StepKeepsInv | src/service/handler.cpp:107-368 | every step keeps the invariant of chains, waiting callbacks, limiters and counts, and goes wrong exactly if a new handler finishes inside queueRequest |
| ServiceProtocol.FaultIff | src/service/dbusinterface.cpp:197-213 | in every reachable state a step goes wrong if and only if it queues the first request for a key whose peer is cached and refused: only then begin() returns after the chain was erased |
| ServiceProtocol.FaultIsReachable | src/service/dbusinterface.cpp:197-213 | a run in which a client that has been accepted once asks for something refused, and this happens |
| ServiceProtocol.FirstBy | src/service/dbusinterface.cpp:197-213 | which requests make queueRequest append to an erased chain, and what the others leave |
| ServiceProtocol.OneAtATimePerKey | src/service/dbusinterface.cpp:191-283 | in every reachable state requests_ is the disjoint union of the chains and exactly the first handler of each chain has begun |
| ServiceProtocol.FirstComeFirstServed | src/service/dbusinterface.cpp:272-280 | in every reachable state the handlers that arrived for a key are those that finished, in that order, followed by its chain |
| ServiceProtocol.DownloadsWithinLimit | src/service/dbusinterface.cpp:75-95 | over every run, the downloads between start and downloadFinished are those the limiter counts, at most as many as configured, and exactly as many while a handler waits; the queue holds exactly the waiting handlers |
| ServiceProtocol.RepliesAndCount | src/service/inactivityhandler.cpp:93-111 | every handler has replied and emitted finished() once if it has finished and not at all otherwise; the inactivity count is live handlers plus admin calls |
| ServiceProtocol.CounterIsRight | src/service/inactivityhandler.cpp:93-111 | over every run the counter is the number of handlers that exist plus the admin calls begun and not ended |
| ServiceProtocol.CredentialsDecide | src/service/handler.cpp:155-199 | a handler that is told valid credentials which its check allows goes on to checking; with any others its client is sent an error and it has finished |
| ServiceProtocol.WhoIsAnswered | src/service/handler.cpp:155-368 | each step sends the reply that its event calls for, to that handler only |
| ServiceProtocol.StageFollows | src/service/handler.cpp:146-368 | a handler goes from stage to stage in order, and only by its own events or by a download that ends |
| ServiceProtocol.NewHandlers | src/service/dbusinterface.cpp:191-214 | handlers come from requests only, have sent nothing and are at most being checked when they come |
| ServiceProtocol.OneWorkerPerKey | src/service/dbusinterface.cpp:197-213 | no two handlers for a key are at work at the same time |
| ServiceProtocol.RepliesReachTheirPeer | src/service/credentialscache.cpp:174-179 | the daemon's answer reaches exactly the handlers that wait for that peer's credentials |
| ServiceProtocol.QuietMeansDone | src/service/handler.cpp:146-368 | when the daemon, the thread pools and the downloads owe nothing more, every handler has finished and no request or chain is left |
| ServiceProtocol.StepAdvances | src/service/handler.cpp:146-368 | every step that is not an arrival brings the service nearer to having answered everything |
| ServiceProtocol.RunsEnd | src/service/handler.cpp:146-368 | without arrivals a run is bounded |
| ServiceAccess.StepKeepsCache | src/service/credentialscache.cpp:66-180 | after every step the cache holds the daemon's last answers and nothing else |
| ServiceAccess.StepKeepsCalls | src/service/handler.cpp:146-153 | a callback about to run has been given the last answer about the peer of its handler |
| ServiceAccess.PassedByLatest | src/service/handler.cpp:155-198 | a handler gets past its check only with the last answer about its own peer |
| ServiceAccess.OnlyTheGrantedAreServed | src/service/handler.cpp:155-356 | over every run, a handler past its check or that has sent a thumbnail was accepted with what the daemon had last said about its own peer when it passed |
| ServedLookup.ServiceKeepsAccount | src/service/dbusinterface.cpp:191-283 | with the look-up attached, what the service does neither starts a second download of a key nor drops the one being made |
| ServedLookup.CheckKeepsAccount | src/service/handler.cpp:209-216 | a check asks for a download of a key only if none has been asked for |
| ServedLookup.CreateKeepsAccount | src/service/handler.cpp:308-322 | the create that ends a download definitely leaves its image or failure in the cache |
| ServedLookup.HandlersTakeTurns | src/service/dbusinterface.cpp:197-213 | over every run of the service with its look-up, at most one handler for a key is past waiting and not finished |
| ServedLookup.NoneOnceSettled | src/thumbnailer.cpp:339-358 | once an image or failure of a key is cached, and while it stays, no check asks for a download of it |
| ServedLookup.OneDownloadPerKey | src/thumbnailer.cpp:339-463 | over every run of the service with its look-up, from any contents of the caches and with all keys interleaved, a key is downloaded at most once if the first download that ends does so definitely and what it leaves stays cached |
| ServedLookup.DepartEffect | src/thumbnailer.cpp:323-358 | entries leave exactly the caches they are said to leave |
| ServedReplies.DeliveryAnswers | src/service/handler.cpp:218-349 | when the result of a check or create is delivered, the client is sent the thumbnail exactly if there is an image, nothing exactly if a check asks for a download, and an error otherwise |
| ServedReplies.OnlyDeliveryShows | src/service/handler.cpp:324-368 | nothing else sends a thumbnail to that client |
| ServedReplies.ShownIffDelivered | src/service/handler.cpp:209-356 | over every run a client has been sent a thumbnail exactly if a call of thumbnail() made for its handler returned an image that was delivered to it |
| ServedReplies.ClientsAreShownTheirImages | src/service/handler.cpp:209-356 | over every run of the service from its start, that image has the size which the source of the requested key gives for the requested size, whatever requests, evictions and clears came between |
| CredentialWaits.AskKeepsOk | src/service/handler.cpp:146-153 | every waiting handler has exactly one callback, held for its peer or about to run; begin() without cached credentials keeps that |
| CredentialWaits.HitKeepsOk | src/service/handler.cpp:146-153 | the same for begin() with cached credentials |
| CredentialWaits.ReplyKeepsOk | src/service/credentialscache.cpp:174-179 | the same when the daemon answers |
| CredentialWaits.ReleaseKeepsOk | src/service/handler.cpp:155-199 | the same when a callback runs |
| DownloadPools.StartKeepsOk | src/service/handler.cpp:251-265 | scheduling a download keeps the queue equal to the waiting handlers and the count equal to the downloading ones |
| DownloadPools.CompleteKeepsOk | src/service/handler.cpp:279-283 | so does the end of a download; the next one started had been waiting |
| DownloadPools.CancelAbsent | src/service/handler.cpp:130-133 | the cancel function of a handler that is not queued does nothing |
| ServiceObjects.InactivityHandler.RequestStarted | src/service/inactivityhandler.cpp:93-101 | one more is active and the timer does not run |
| ServiceObjects.InactivityHandler.RequestCompleted | src/service/inactivityhandler.cpp:103-111 | one less is active and the timer runs exactly if none is left |
| ServiceObjects.Handler.Begin | src/service/handler.cpp:146-153 | performs the specified step on handler and cache |
| ServiceObjects.Handler.GotCredentials | src/service/handler.cpp:155-199 | finishes with an error reply exactly if the credentials are refused, and is checking otherwise |
| ServiceObjects.Handler.CheckFinished | src/service/handler.cpp:218-277 | replies, or hands the download to the limiter; the stage tells whether it runs |
| ServiceObjects.Handler.DownloadFinished | src/service/handler.cpp:279-301 | performs the specified step on handler and limiter and tells which download starts |
| ServiceObjects.Handler.CreateFinished | src/service/handler.cpp:324-349 | replies once, with the thumbnail or an error |
| ServiceObjects.Handler.Destroy | src/service/handler.cpp:127-139 | cancels the handler's queued download in place and counts it as completed |
| ServiceObjects.DBusInterface.QueueRequest | src/service/dbusinterface.cpp:191-214 | fails to append exactly if the handler finished at once; otherwise the table becomes that of the specified arrival |
| ServiceObjects.DBusInterface.RequestFinished | src/service/dbusinterface.cpp:256-283 | the table becomes that of the specified departure |
| ServiceObjects.Removed | src/service/dbusinterface.cpp:273-276 | the loop of std::remove computes the specified rest of the chain |
| CredentialsCaching.CacheIsConsistent | src/service/credentialscache.cpp:66-180 | in every reachable state generations and pending peers are disjoint, one query is out per pending peer, cached credentials are the last answer, every callback has run once or waits |
| CredentialsCaching.AnswersAreTheDaemons | src/service/credentialscache.cpp:66-180 | a callback is always given the daemon's last answer for its own peer |
| CredentialsCaching.DropsOnlyTheUnused | src/service/credentialscache.cpp:164-172 | credentials are dropped only if at least MAX_CACHE_SIZE other peers were inserted or promoted since the last use |
| CredentialsCaching.RecentIsAnswered | src/service/credentialscache.cpp:66-104 | over every run a peer since whose last use fewer than MAX_CACHE_SIZE others were inserted or promoted is answered for at once, with the daemon's last answer |
| CredentialsCaching.CallbacksInOrder | src/service/credentialscache.cpp:106-179 | callbacks that wait for a peer are run by its reply in the order in which they came |
| CredentialsCaching.LimitAfterReply | src/service/credentialscache.cpp:164-172 | right after a reply the current generation holds at most 50 peers |
| CredentialsCaching.WithinLimitIff | src/service/credentialscache.cpp:66-172 | exactly when an operation leaves the current generation within MAX_CACHE_SIZE: after a reply always, otherwise unless a promotion is one too many |
| CredentialsCaching.NoBound | src/service/credentialscache.cpp:80-91 | promotion has no size check: for any size a reachable cache is larger |
| CredentialsCaching.TrimLabelDropsMode | src/service/credentialscache.cpp:141-155 | a label with a mode is reduced to its profile, spaces in the profile included |
| CredentialsCaching.TrimLabelKeepsProfile | src/service/credentialscache.cpp:141-155 | a label without a mode loses only its NUL |
| CredentialsCaching.TrimLabelIsProfile | src/service/credentialscache.cpp:141-155 | what is cut off a label is exactly a mode in parentheses with the space before it, and the NUL |
| CredentialsCaching.FromReplyMeans | src/service/credentialscache.cpp:126-162 | credentials are valid exactly if the daemon knew the peer, and carry its user; under AppArmor the profile is the one its label names, without AppArmor it is "unconfined" |
| CredentialsObject.CredentialsCache.Get | src/service/credentialscache.cpp:66-122 | the maps are updated in place as specified; the callback is answered and the daemon asked exactly when specified |
| CredentialsObject.CredentialsCache.ReceivedCredentials | src/service/credentialscache.cpp:124-180 | the reply is turned into credentials with its user and, under AppArmor, the profile its label names, "unconfined" without AppArmor, invalid on an error; the maps are updated in place with them, and every waiting callback is told once, in order |
| Scaling.KeepAspectFits | src/image.cpp:478 | the scaled size fits the box, touches it, and does not exceed an image that does not fit |
| Scaling.KeepAspectRatio | src/image.cpp:478 | the dimension that is not the box's is within one pixel of the exact ratio |
| Scaling.ScalePromises | src/image.cpp:455-498 | for every image and valid request: fits the completed box, is at least 1x1 and never larger than the image, keeps an image that fits, and is within a pixel of the ratio unless clamped |
| Scaling.ScaleIdempotent | src/image.cpp:455-498 | scaling again to the same request changes nothing |
| Scaling.DecodeIsScale | src/image.cpp:242-271 | decoding at a size agrees with scaling to it, and fails exactly where scaling clamps a zero |
| Scaling.NoOverflow | src/image.cpp:478 | the products fit 64 bits for dimensions below 2^31 |
| Scaling.ScaleTwice | src/thumbnailer.cpp:447-466 | scaling to the maximum square first and then to a smaller one: the long side is the same, the short side never longer, at most one pixel shorter, or two if the image is wide and scaling once fills the box |
| Scaling.TwoPixelsLost | src/thumbnailer.cpp:447-466 | two pixels do occur |
| Scaling.ScaleTwiceOblong | src/thumbnailer.cpp:447-466 | for every image, maximum and box: the short side is off by at most two pixels, the long side never shorter, and how much longer is bounded by the short side of the intermediate image |
| Scaling.WithinTwoIff | src/thumbnailer.cpp:447-466 | exactly when scaling through the maximum square stays within two pixels of scaling once, in arithmetic on image, maximum and box |
| Scaling.OblongUnbounded | src/thumbnailer.cpp:447-466 | a family of images and boxes for which the long side grows from 4k to 6k, for every k |
| Scaling.ThumbnailFits | src/image.cpp:211-240 | a decoded Exif thumbnail fits the box; it is enlarged or reduced but never both |
| Scaling.ThumbnailGrowsIff | src/image.cpp:211-240 | exactly when a decoded Exif thumbnail is larger than stored |
| Scaling.ThumbnailEnlarged | src/image.cpp:211-240 | an example: a 10x25 thumbnail becomes 10x26 for a 10x26 box |
| Scaling.ThumbnailServes | src/image.cpp:211-239 | the embedded thumbnail is used exactly if it is as large as the request in one of the dimensions given, and no dimension truncates to zero |
| Scaling.TargetLimits | src/thumbnailer.cpp:312-321 | no thumbnail exceeds max_size_, the request or the image |
| Scaling.TargetIsLargest | src/thumbnailer.cpp:312-321 | a box fits the target size exactly if it fits the configured maximum and the dimensions that were requested |
| Orientation.CorrectOrientation | src/image.cpp:366-406 | the flips and rotations compute the specified correction, and nothing for values outside the standard |
| Orientation.CorrectedIsStored | src/image.cpp:366-406 | the loaded image is the stored form, in the sense of section 4.6.4 of Exif 2.3, of its correction |
| Orientation.SceneIsUnique | src/image.cpp:366-406 | a stored image and its tag determine the scene |
| Orientation.CorrectionUndoesStorage | src/image.cpp:366-406 | for every tag and pixel grid, the correction is the scene if and only if the image stores that scene |
| Orientation.EverySceneIsStored | src/image.cpp:366-406 | every scene has a stored form for every tag, from which it is recovered |
| Orientation.CorrectedSize | src/image.cpp:366-406 | tags 5 to 8 swap the dimensions and the others do not |
| Orientation.OrientedFits | src/image.cpp:316-340 | decoding to the transposed box for tags 5 to 8 makes the corrected image fit the requested box |
| Orientation.OrientedThumbnailFits | src/image.cpp:316-340 | the same for the embedded thumbnail, which is decoded to the transposed box too |
| BackoffRules.RunValid | src/backoff_adjuster.cpp:104-144 | over every run a non-zero period stays between the minimum and the maximum |
| BackoffRules.FrozenUntilDeadline | src/backoff_adjuster.cpp:104-144 | no report up to the deadline, in whatever order, has any effect |
| BackoffRules.Spacing | src/backoff_adjuster.cpp:104-144 | each recorded failure comes after the deadline set by the one before, even across resets |
| BackoffRules.Growth | src/backoff_adjuster.cpp:104-125 | failures in a row put in force the doubling periods, up to the maximum |
| BackoffRules.FailuresBackOff | src/backoff_adjuster.cpp:104-125 | without a reset the n-th failure after the first comes later than the sum of min(min_backoff * 2^i, max_backoff) for i < n |
| BackoffRules.AnswerClears | src/backoff_adjuster.cpp:133-144 | an answer counts exactly after the deadline of a period in force; it then allows retrying at any time, and the next failure starts at the minimum |
| BackoffRules.StartsOver | src/backoff_adjuster.cpp:104-144 | the failures after an answer that counts go through the doubling sequence from its start |
| BackoffRules.ConfigurationAssertion | src/settings.cpp:98-110 | the configured limits are always valid, and meet the assertion of set_max_backoff if and only if the retry limit is at least four timeouts |
| BackoffRules.ConfigurationAssertionFails | src/backoff_adjuster.cpp:82-88 | one hour and a timeout of 1000 seconds do not |
| BackoffRules.RestartNeverProlongs | src/thumbnailer.cpp:766-802 | whatever becomes of the saved entries and of the settings, a restart never prolongs the wait; exactly when the restored state is valid, and when the assertion of set_backoff_period holds |
| BackoffRules.RestartShortens | src/thumbnailer.cpp:766-802 | the wait is shortened by less than a second if both entries survive, and when it can end if one does not |
| BackoffObject.BackoffAdjuster.CheckRetry | src/backoff_adjuster.cpp:90-98 | tells whether retrying is allowed |
| BackoffObject.BackoffAdjuster.AdjustRetryLimit | src/backoff_adjuster.cpp:104-125 | performs the specified step and returns whether the failure was recorded |
| BackoffObject.BackoffAdjuster.Reset | src/backoff_adjuster.cpp:133-144 | performs the specified step |
| CacheKeys.DecimalIsInjective | src/thumbnailer.cpp:323-327 | different numbers are written differently, without NULs |
| CacheKeys.LastFieldIsUnique | src/thumbnailer.cpp:323-327 | the last field and what precedes it can be told from the joined string |
| CacheKeys.JoinIsInjective | src/thumbnailer.cpp:530-536 | NUL-free fields can be read back from their concatenation |
| CacheKeys.KeyIsJoin | src/thumbnailer.cpp:530-536 | a request key is its fields joined by NULs |
| CacheKeys.KeyIsInjective | src/thumbnailer.cpp:530-536 | for NUL-free names, requests that differ in kind, names, file identity or times have different keys |
| CacheKeys.SharesKeyIff | src/thumbnailer.cpp:626 | another subject has the same key if and only if it is an album or artist with a NUL in a name |
| CacheKeys.SizedKeyIsInjective | src/thumbnailer.cpp:323-327 | a sized key tells the key, whatever it contains, and the size |
| CacheKeys.ReservedKeys | src/thumbnailer.cpp:735-740 | the two keys for the backoff state are different and never the key of a request |
| CacheLookup.CallKeepsInv | src/thumbnailer.cpp:295-478 | a call leaves in the caches only what the source gives, and returns only that |
| CacheLookup.Transparent | src/thumbnailer.cpp:323-473 | after any two runs with any evictions and clears, two calls for a key and size that return images return the same size, from whichever cache |
| CacheLookup.WithinLimits | src/thumbnailer.cpp:312-321 | no image returned after any run exceeds the maximum or the requested size |
| CacheLookup.KeptIsScaled | src/thumbnailer.cpp:447-463 | limiting only images above the maximum is scaling every image to the maximum square |
| CacheLookup.FromFullSize | src/thumbnailer.cpp:339-345 | an image in the full-size cache is returned if and only if no dimension truncates to zero, and a fresh fetch of the same image always gives the same size |
| CacheLookup.StripThrowsLater | src/thumbnailer.cpp:339-345 | a 1000x2 image is returned at 100x100 and throws once the thumbnail is evicted |
| CacheLookup.LocalImageComes | src/thumbnailer.cpp:575-586 | a local image, with or without Exif thumbnail, is returned if and only if its thumbnail is cached, or no failure is and it is readable and its Exif thumbnail decodes or decoding the file does not truncate |
| CacheLookup.FailureSpreads | src/thumbnailer.cpp:354-358 | a failure at one size withholds the file at every other size that is not cached |
| CacheLookup.CallTells | src/thumbnailer.cpp:295-478 | for every kind of source: exactly when a call returns an image, when it adds a full-size image and when it adds a failure |
| CacheLookup.HistoryTells | src/thumbnailer.cpp:323-478 | after any run, which thumbnails, full-size image and failure the caches hold for a key, told from the calls for it and the departures |
| CacheLookup.ImageReturned | src/thumbnailer.cpp:295-484 | after any run, whether a call returns an image, told from the earlier calls for the key and the departures, for remote, video and local sources |
| CacheLookup.LocalImageReturned | src/thumbnailer.cpp:295-484 | after any run, whether a local image is returned at a size, told from the earlier calls for the file and the departures from the caches |
| CacheLookup.CallSettles | src/thumbnailer.cpp:383-412 | which calls settle a key, and that a settled key never needs a download |
| CacheLookup.OneDownload | src/thumbnailer.cpp:339-463 | after the call that ends a download with an image or a definite failure, no call for the key asks for another as long as nothing is evicted, expires or is cleared |
| CacheLookup.DefiniteSettles | src/thumbnailer.cpp:383-463 | a call with a definite reply caches an image or a failure, unless the thumbnail was cached |
| CacheLookup.DownloadIffAllowed | src/thumbnailer.cpp:370-379 | a remote key that is in no cache needs a download if and only if the backoff allows it |
| CacheLookup.BackoffHolds | src/thumbnailer.cpp:360-425 | until the period in force is over no run makes a remote key need a download or changes the period, unless the failure cache is cleared |
| CacheLookup.TemporaryErrorBlocks | src/thumbnailer.cpp:413-425 | a recorded temporary error starts such a period at that time |
| CacheLookup.ClearingLiftsBackoff | src/thumbnailer.cpp:949-964 | clearing the failure cache or all caches allows retrying at once, clearing another changes nothing |
| LookupEffects.RemoteOutcome | src/thumbnailer.cpp:360-430 | the result, the caches and the backoff for each outcome of a download: only an image, an absence or a lasting error settles the key; a server unavailable or late and a network that is down leave all caches as they were |
| LookupEffects.AskedAgain | src/thumbnailer.cpp:370-382 | the next check of a key, at any size, asks for a download exactly if its last one had no definite outcome and the backoff allows it |
| LookupEffects.VideoOutcome | src/thumbnailer.cpp:360-412 | an extraction that fails is recorded as a lasting failure; the backoff is not concerned |
| LookupEffects.LocalOutcome | src/thumbnailer.cpp:360-412 | the result and the caches for each kind of local file |
| LookupEffects.KnownOutcome | src/thumbnailer.cpp:333-358 | which cache answers, with what status, and what is added |
| LookupEffects.ThrowsIff | src/thumbnailer.cpp:302-345 | thumbnail() throws exactly for a negative size, or when a cached full-size image truncates to zero at the size requested |
| LookupEffects.LoadedFits | src/image.cpp:316-380 | a local image is decoded to a size that fits the request once it is turned upright, and is not scaled again |
| LookupEffects.ClearEffect | src/thumbnailer.cpp:949-964 | clearing empties exactly the caches named, and lifts the backoff with the failures |
| LookupEffects.BackoffTold | src/thumbnailer.cpp:360-430 | after any run the backoff is what the calls that reached the server make of it |
| LookupEffects.DownloadAskedFor | src/thumbnailer.cpp:339-379 | after any run, whether a check asks for a download, told from the earlier calls, departures and clears |
| LookupObjects.Request.Thumbnail | src/thumbnailer.cpp:295-484 | thumbnail() on objects, step by step, performs the specified look-up |
| LookupObjects.Request.Store | src/thumbnailer.cpp:442-473 | the branch of success performs its part of the look-up |
| LookupObjects.Request.NoImage | src/thumbnailer.cpp:362-437 | the other statuses perform theirs: the failure cache gains the key exactly for not_found and hard_error (the outcomes of `LookupEffects.RemoteOutcome`) |
| LookupObjects.Thumbnailer.Clear | src/thumbnailer.cpp:949-964 | empties the selected caches and forgets the backoff with the failures |
| CacheRecovery.OtherErrorsPropagate | include/internal/cachehelper.h:221-260 | any failure other than code 666 propagates, the one attempt is the only one, and nothing is wiped |
| CacheRecovery.RecoveredIsFresh | include/internal/cachehelper.h:82-111 | after recovery the outcome is that of the operation on an empty cache of the configured size |
| CacheRecovery.FailedRecovery | include/internal/cachehelper.h:82-262 | if the corrupt database cannot be replaced there is no second attempt and no open database, and the caller is told why the recovery failed |
| CacheRecovery.AtMostTwice | include/internal/cachehelper.h:82-111 | counted from the recorded attempts: one or two, two exactly if the first found the database corrupt and it was replaced, the second on an empty cache; the outcome is that of the last, unless the recovery failed |
| CacheRecovery.InitCacheResizes | include/internal/cachehelper.h:265-279 | opening always yields a cache of the configured size that holds nothing new |
| CacheRecovery.NeverStale | include/internal/cachehelper.h:82-111 | in any run with corruption, recovery and eviction, a value found is the last one stored for its key |
| CacheRecovery.FoundIff | include/internal/cachehelper.h:82-111 | over any run, get() finds a value if and only if the steps that concern the key or met corruption have left it, and then the last one stored |
| CacheRecovery.Retained | include/internal/cachehelper.h:82-111 | a stored value that is not evicted, lost, overwritten or invalidated stays, through any failures other than code 666 |
| CacheRecoveryObject.CacheHelper.Call | include/internal/cachehelper.h:82-111 | try, recover and retry on the object performs the specified call |
| CacheRecoveryObject.CacheHelper.Recover | include/internal/cachehelper.h:221-260 | rethrows unless the database is corrupt, and then wipes and reopens it |
| CacheRecoveryObject.CacheHelper.InitCache | include/internal/cachehelper.h:265-279 | opens a cache of the configured size, resizing an existing one |
| ResourceOwnership.ApplyKeepsInv | include/internal/ResourcePtr.h:237-414 | every operation keeps each resource with one holder, released or deleted |
| ResourceOwnership.ExactlyOneFate | include/internal/ResourcePtr.h:237-414 | after any operations each acquired resource is in exactly one of held, released and deleted, and held by one pointer |
| ResourceOwnership.DeletedOnce | include/internal/ResourcePtr.h:403-414 | a deleter is called at most once per resource, even if it throws, and it is the resource's own |
| ResourceOwnership.NothingLeaks | include/internal/ResourcePtr.h:289-299 | once all pointers are destroyed, what was not released has been deleted |
| ResourceOwnership.ThrowingMoveKeepsSource | include/internal/ResourcePtr.h:264-283 | if the deleter throws, move assignment leaves its source alone and the target empty |
| ResourceOwnership.MoveAssignTransfers | include/internal/ResourcePtr.h:264-283 | otherwise the target has a resource if and only if the source had one, unless a pointer holding one is assigned to itself |
| ResourceOwnership.OpEffect | include/internal/ResourcePtr.h:181-415 | for each operation: what every pointer manages afterwards, and which resource has been deleted with whose deleter |
| ResourceOwnershipObject.ResourcePtr.MoveAssign | include/internal/ResourcePtr.h:264-283 | the assignment on objects, self-assignment included, performs the specified operation |
| ResourceOwnershipObject.ResourcePtr.Swap | include/internal/ResourcePtr.h:310-326 | performs the specified operation, self-swap included |
| ResourceOwnershipObject.ResourcePtr.Reset | include/internal/ResourcePtr.h:356-374 | performs the specified operation |
| ResourceOwnershipObject.ResourcePtr.Release | include/internal/ResourcePtr.h:382-394 | performs the specified operation, and throws exactly if nothing is held |
| ResourceOwnershipObject.ResourcePtr.Dealloc | include/internal/ResourcePtr.h:403-414 | performs the specified operation |

## Left out

- The wire: D-Bus messages, QProcess, the network, GStreamer, gdk-pixbuf codecs, libexif, TagLib and AppArmor calls are outcomes only.
- leveldb and PersistentStringCache: modelled as maps that lose entries and throw; statistics, expiry times and eviction order are not modelled.
- Pixel values under JPEG encoding: only the sizes of cached images are modelled.
- Threads: the backoff object is used from pool threads without a lock; here each use is one step.
- Shutdown with handlers still running, and `download()` throwing inside a scheduled job.
- Handlers cancelled while at work: `cancelled` is set only in the destructor, which runs after the handler has finished.
- CacheHelper: failures while the helper is constructed, and calls after a failed recovery, when `c_` may be null.
- ResourcePtr: its ordering operators, its mutexes, and copies of a resource that throw.
- Time stamps and log messages of handlers and requests.
- The service as one object graph: `ServiceObjects` has the classes and their methods, but the event loop that calls them is only in the value-level `ServiceProtocol`; Qt connections are the map `links`.
- The admin interface, settings other than those cited, version upgrades, file locks, tracing, MIME types, the QML plugin and the search for cover images inside media files.
- ServedLookup.OneDownloadPerKey: a pool thread's call of `thumbnail()` is one step, and checks and creates of cancelled handlers are not modelled.
