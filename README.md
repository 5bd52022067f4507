# YTM Desktop Remote — status-synchronisation client

A Dafny model of `ApiWorker` (`app/apiworker.py`), the object that keeps the
tray and mini-player in step with a media player's local HTTP API.
`ApiWorker` caches the title, artist, the playing/liked/disliked flags and the
artwork URL, and raises a signal only when a cached value changes. It keeps a
table of in-flight requests per endpoint, so a poll or command that would
overlap an unfinished request to the same endpoint is dropped. Play/pause,
like and dislike flip their flag optimistically, but only when their POST was
actually issued. The reply handlers diff decoded payloads into the cache and
start an artwork fetch when the thumbnail URL changes.

Modules:

- `Wrappers` (`wrappers.dfy`): `Option`.
- `Protocol` (`protocol.dfy`): the signals (`Event`), the requests handed to
  the network (`Request`, with the status of its reply handle: running,
  finished or deleted), and decoded replies (`Reply`, `Json`, `Payload`).
- `Sync` (`sync.dfy`): the worker as a state machine over values. `Worker`
  holds the cache, the table of active requests, every issued request and
  every emitted event. There is one function per operation of the class.
  `Valid` is the de-duplication invariant. `Step`/`Run` play out the event
  loop: poll ticks, user commands, replies completing, handles being deleted.
- `SyncProofs` (`sync_proofs.dfy`): construction, de-duplication, commands,
  and the invariant in every reachable state.
- `CacheProofs` (`cache_proofs.dfy`): setters and reply handlers. It also
  proves that over any sequence of track replies, notifications and artwork
  fetches happen exactly at changes.
- `Client` (`client.dfy`): class `ApiWorker`, with the source's fields updated
  in place by methods with `modifies this`. Each method keeps `Valid()` and is
  proved to leave `Model()` as the matching `Sync` function says.

The network is represented by the `requests` sequence. A reply handle is an
index into it, and its status changes only through `Settle` (the network
finishing a reply or deleting its object). Replies reach the handlers already
decoded. Malformed text is the `Json.Malformed` case, which the handlers
swallow, as the source's catch-all `except` does.

Where the intended behaviour described for this client differs from the
code, the model follows the code:

- Artwork is fetched again on every change of the thumbnail URL, not once
  per distinct URL: going A, B, A fetches A twice (`TrackRepliesFetchOnChange`).
- A successful reply whose body is not JSON changes nothing and is not
  reported as a separate protocol error.
- An artwork reply is applied whatever URL it was fetched for, so a late
  reply for a superseded URL still replaces the image and emits.
- A reply that arrives after polling stops is still handled.
- An in-flight toggle does not block a second toggle. The first toggle has
  already flipped `playing`, so the second POSTs to the other endpoint
  (`track/pause` after `track/play`) and is issued. `playing` then ends at
  whichever reply is handled last (`SecondToggleNotBlocked`).

## Model

| member | source | states |
|---|---|---|
| Sync.Normalise | app/apiworker.py:36-38 | the stored server URL is the given one with at most one character removed, and one is removed exactly when it ends in `/` |
| SyncProofs.InitialState | app/apiworker.py:36-48 | a new worker strips exactly one trailing slash; title, artist and artwork URL are absent; every flag is false; no request is active or issued; nothing is emitted; the invariant holds |
| Client.ApiWorker.constructor | app/apiworker.py:27-51 | the same initial state on the object's fields |
| CacheProofs.SettersEmitIffChanged | app/apiworker.py:57-101 | each of the playing, title, artist, liked and disliked setters leaves its field equal to the value; it appends exactly one matching notification if the value differed and none otherwise; nothing else changes |
| CacheProofs.SettersIdempotent | app/apiworker.py:57-101 | assigning the same value a second time emits nothing and changes nothing |
| CacheProofs.ArtworkAlwaysEmits | app/apiworker.py:107-110 | the artwork setter stores the image and emits on every call, also when the image is the one already held |
| Client.ApiWorker.SetPlaying | app/apiworker.py:57-61 | the object ends in the `Sync.SetPlaying` state: field assigned, one notification iff changed |
| Client.ApiWorker.SetTitle | app/apiworker.py:67-71 | the object ends in the `Sync.SetTitle` state: field assigned, one notification iff changed |
| Client.ApiWorker.SetArtist | app/apiworker.py:77-81 | the object ends in the `Sync.SetArtist` state: field assigned, one notification iff changed |
| Client.ApiWorker.SetLiked | app/apiworker.py:87-91 | the object ends in the `Sync.SetLiked` state: field assigned, one notification iff changed |
| Client.ApiWorker.SetDisliked | app/apiworker.py:97-101 | the object ends in the `Sync.SetDisliked` state: field assigned, one notification iff changed |
| Client.ApiWorker.SetArtwork | app/apiworker.py:107-110 | the object ends in the `Sync.SetArtwork` state: image stored, always one notification |
| SyncProofs.HasActiveRequestSpec | app/apiworker.py:161-175 | the query is true iff the endpoint is in the table and its handle is still running (a deleted handle counts as finished); when true nothing changes; when false the endpoint is absent afterwards and every other entry and all other state is unchanged |
| Client.ApiWorker.HasActiveRequest | app/apiworker.py:161-175 | returns, and leaves the table, as `Sync.HasActiveRequest` says |
| SyncProofs.SendSpec | app/apiworker.py:177-206 | with an unfinished request to the endpoint, GET/POST returns None and changes nothing; otherwise it issues exactly one request to server + "/" + endpoint, records its handle under the endpoint and returns it, changing nothing else |
| SyncProofs.SendPreservesValid | app/apiworker.py:177-206 | issuing through the table keeps the invariant: each unfinished request recorded under an endpoint is the one the table holds for it, and its URL is the endpoint's |
| Client.ApiWorker.GetRequest | app/apiworker.py:177-189 | returns and updates as `Sync.GetRequest`, keeping the invariant |
| Client.ApiWorker.PostRequest | app/apiworker.py:191-206 | returns and updates as `Sync.PostRequest`, keeping the invariant |
| SyncProofs.ValidNoOverlap | app/apiworker.py:177-206 | under the invariant no two issued requests for one endpoint are both unfinished |
| SyncProofs.RunKeepsValid | app/apiworker.py:156-206 | any sequence of polls, commands, completed replies and deleted handles keeps the invariant, and hence keeps at most one unfinished request per endpoint |
| SyncProofs.ReachableNoOverlap | app/apiworker.py:156-206 | every state reachable from a new worker has at most one unfinished request per endpoint |
| Client.ApiWorker.UpdateStatus | app/apiworker.py:156-159 | one poll: GET `track` then GET `track/state`, each through the table, as `Sync.UpdateStatus` |
| SyncProofs.DoubleTickIssuesNothing | app/apiworker.py:156-206 | a second poll before either reply has finished issues no request and changes nothing |
| SyncProofs.TickReissuesAfterSettle | app/apiworker.py:156-206 | once the recorded state request has finished or been deleted, the next poll issues a new GET to `track/state` and records it in place of the old handle |
| SyncProofs.TogglePlayPauseSpec | app/apiworker.py:136-144 | toggle POSTs to `track/pause` when playing and to `track/play` otherwise; `playing` flips, with one notification, iff the POST was issued; a deduplicated toggle changes nothing |
| Client.ApiWorker.TogglePlayPause | app/apiworker.py:136-144 | the object ends in the `Sync.TogglePlayPause` state |
| SyncProofs.PlayPauseGuards | app/apiworker.py:146-154 | play when already playing, and pause when not playing, change nothing and issue nothing; otherwise each is exactly the toggle |
| Client.ApiWorker.Play | app/apiworker.py:146-149 | the object ends in the `Sync.Play` state |
| Client.ApiWorker.Pause | app/apiworker.py:151-154 | the object ends in the `Sync.Pause` state |
| SyncProofs.ToggleLikeSpec | app/apiworker.py:126-129 | like POSTs to `track/like` with a refreshing callback, recorded under its endpoint; `liked` flips, with one notification, iff the POST was issued; a deduplicated call changes nothing |
| Client.ApiWorker.ToggleLikeTrack | app/apiworker.py:126-129 | the object ends in the `Sync.ToggleLikeTrack` state |
| SyncProofs.ToggleDislikeSpec | app/apiworker.py:131-134 | dislike POSTs to `track/dislike`, recorded under its endpoint; `disliked` flips, with one notification, iff the POST was issued; a deduplicated call changes nothing |
| Client.ApiWorker.ToggleDislikeTrack | app/apiworker.py:131-134 | the object ends in the `Sync.ToggleDislikeTrack` state |
| SyncProofs.NextTrackSpec | app/apiworker.py:121-123 | next POSTs to `track/next` with a refreshing callback through the table: when issued, exactly that request is appended and recorded under the endpoint, and no cached value or notification changes; a deduplicated call changes nothing |
| SyncProofs.PrevTrackSpec | app/apiworker.py:117-119 | previous POSTs to `track/prev` in the same way: when issued, exactly that request is appended and recorded, nothing else changes; a deduplicated call changes nothing |
| SyncProofs.SecondToggleNotBlocked | app/apiworker.py:136-144 | a second toggle before the first reply is not blocked: it POSTs to the other endpoint, so a `track/play` and a `track/pause` request are both unfinished and `playing` is back where it started |
| Client.ApiWorker.NextTrack | app/apiworker.py:122-124 | the object ends in the `Sync.NextTrack` state |
| Client.ApiWorker.PrevTrack | app/apiworker.py:118-120 | the object ends in the `Sync.PrevTrack` state |
| SyncProofs.ToggleThenReconcile | app/apiworker.py:258-267 | after a toggle, a play/pause reply carrying `isPlaying` leaves `playing` equal to it, whatever the optimistic flip guessed |
| CacheProofs.TrackReplySpec | app/apiworker.py:208-235 | the track handler assigns exactly the title, author and first thumbnail URL the reply carries and emits for those that changed, title first; missing fields keep their cached values; an artwork GET outside the table is issued, and the artwork URL updated, iff the first thumbnail URL is present and differs from the cached one; nothing else changes |
| CacheProofs.VideoSpec | app/apiworker.py:216-231 | the same for the `video` object; a first thumbnail without `url` stops the handler after title and artist have been assigned |
| CacheProofs.ThumbnailSpec | app/apiworker.py:224-231 | `thumbnails` that is not a list, is empty, or whose first item has no `url` changes nothing; otherwise a new URL is cached and fetched, and a repeated one is not |
| CacheProofs.TrackReplyIgnoresFailures | app/apiworker.py:208-235 | a failed reply, a body that is not JSON, or a falsy body changes no state |
| Client.ApiWorker.HandleTrackReply | app/apiworker.py:208-235 | the object ends in the `Sync.HandleTrackReply` state |
| Client.ApiWorker.ApplyVideo | app/apiworker.py:216-231 | the object ends in the `Sync.ApplyVideo` state |
| Client.ApiWorker.ApplyThumbnail | app/apiworker.py:224-231 | the object ends in the `Sync.ApplyThumbnail` state, keeping the invariant although the fetch bypasses the table |
| CacheProofs.StateReplySpec | app/apiworker.py:237-252 | the state handler assigns only the keys present among playing, liked and disliked, emitting in that order for those that changed, and changes nothing else |
| CacheProofs.StateReplyIgnoresFailures | app/apiworker.py:237-256 | a failed, non-JSON or falsy state reply changes nothing: no notification, `playing` unchanged |
| Client.ApiWorker.HandleStateReply | app/apiworker.py:237-256 | the object ends in the `Sync.HandleStateReply` state |
| CacheProofs.PlayPauseReplySpec | app/apiworker.py:258-267 | the play/pause handler sets `playing` to `isPlaying` when present (with a notification iff it changes) and changes nothing else |
| CacheProofs.PlayPauseReplyIgnoresFailures | app/apiworker.py:258-271 | a failed, non-JSON or falsy play/pause reply changes nothing |
| Client.ApiWorker.HandlePlayPauseReply | app/apiworker.py:258-271 | the object ends in the `Sync.HandlePlayPauseReply` state |
| CacheProofs.ArtworkReplySpec | app/apiworker.py:273-282 | a successful artwork reply stores the image and always emits; a failed one changes nothing |
| Client.ApiWorker.HandleArtworkReply | app/apiworker.py:273-282 | the object ends in the `Sync.HandleArtworkReply` state |
| CacheProofs.TransitionsNoRepeats | app/apiworker.py:57-101 | the values a change-only field reports differ from the value before them and from each other in turn, and each was assigned |
| CacheProofs.RepeatedValueNoTransitions | app/apiworker.py:57-101 | assigning the cached value any number of times reports nothing |
| CacheProofs.TrackRepliesEmitOnChange | app/apiworker.py:216-222 | over any sequence of track replies, the title (and the artist) notifications are exactly the assigned values that differ from the value cached just before |
| CacheProofs.TrackRepliesFetchOnChange | app/apiworker.py:224-231 | over any sequence of track replies, the artwork fetches are exactly the first-thumbnail URLs that differ from the one cached just before, in order |
| CacheProofs.RepeatedPayloadScenario | app/apiworker.py:216-222 | replies {A, B}, {A, B}, {C, B} on a new worker emit title A and artist B, then nothing, then only title C |

## Left out

- `start`/`stop` and the `QTimer`: polling is the `Tick` action, which can happen at any time. `start` uses a fixed 1000 ms and ignores `update_time` (app/apiworker.py:113); intervals are not modelled.
- Logging (`_logger.debug`/`warning`/`exception`) and reply error strings: they do not affect state.
- JSON text parsing: a reply arrives decoded. Truthy non-object JSON (lists, numbers), keys whose values have an unexpected type (a null title, a `video` that is not an object), and `thumbnails` items that are not objects are not modelled.
- `QPixmap` decoding: an image is the bytes it was loaded from, whether or not they decode.
- The empty POST body `{}`: every POST sends it, so requests carry no body.
- The Qt network manager's own behaviour: how a reply handle reaches the finished or deleted state, and the delivery of a reply to its slot (`Sync.Step`'s `Complete` action stands for both), are outside the class. `Client.ApiWorker.Settle` stands for the network changing a handle's status.
- Signals are a ghost log of `Event` values; connected receivers are not modelled.
- The constructor's default server URL (`http://localhost:13091`, app/apiworker.py:29) is not modelled: the URL is a required argument, as the application always passes one.
- The `parent` and `objectName` constructor arguments are Qt object-tree details.
