/**
 * The status-synchronisation client as a state machine over values: one
 * function per operation of the worker, each mapping the whole observable
 * state (cache, active-request table, issued requests, emitted events) to
 * the state after the operation.  The class in module Client is proved
 * against these functions; the lemmas in SyncProofs and CacheProofs state
 * what they guarantee.
 */
module Sync {
  import opened Wrappers
  import opened Protocol

  datatype Worker = Worker(
    server: string,
    title: Option<string>,
    artist: Option<string>,
    playing: bool,
    liked: bool,
    disliked: bool,
    artworkUrl: Option<string>,
    artwork: Option<Pixmap>,
    active: map<string, nat>,    // endpoint -> index into requests of its last recorded handle
    requests: seq<Request>,      // every request issued, in order, with its handle's current status
    events: seq<Event>)          // every signal emitted, in order

  predicate EndsWithSlash(s: string) {
    |s| > 0 && s[|s| - 1] == '/'
  }

  /** The server URL with one trailing slash removed, if it has one. */
  function Normalise(server: string): (r: string)
    ensures server == r || server == r + "/"
    ensures |r| < |server| <==> EndsWithSlash(server)
  {
    if EndsWithSlash(server) then server[..|server| - 1] else server
  }

  /** The state of a freshly constructed worker. */
  function Init(server: string): Worker {
    Worker(Normalise(server), None, None, false, false, false, None, None, map[], [], [])
  }

  function Url(server: string, endpoint: string): string {
    server + "/" + endpoint
  }

  // ---- property setters: assign, and emit only on a change (artwork always emits)

  function SetPlaying(w: Worker, value: bool): Worker {
    if value != w.playing then w.(playing := value, events := w.events + [PlayStateChanged(value)]) else w
  }

  function SetTitle(w: Worker, value: string): Worker {
    if Some(value) != w.title then w.(title := Some(value), events := w.events + [TitleChanged(value)]) else w
  }

  function SetArtist(w: Worker, value: string): Worker {
    if Some(value) != w.artist then w.(artist := Some(value), events := w.events + [ArtistChanged(value)]) else w
  }

  function SetLiked(w: Worker, value: bool): Worker {
    if value != w.liked then w.(liked := value, events := w.events + [LikeStateChanged(value)]) else w
  }

  function SetDisliked(w: Worker, value: bool): Worker {
    if value != w.disliked then w.(disliked := value, events := w.events + [DislikeStateChanged(value)]) else w
  }

  function SetArtwork(w: Worker, value: Pixmap): Worker {
    w.(artwork := Some(value), events := w.events + [ArtworkChanged(value)])
  }

  // ---- request de-duplication

  /** Querying a handle; an index the network does not know behaves like a deleted object. */
  function StatusOf(w: Worker, id: nat): Status {
    if id < |w.requests| then w.requests[id].status else Deleted
  }

  /** Whether `endpoint` has an unfinished request; a finished entry is removed from the table. */
  function HasActiveRequest(w: Worker, endpoint: string): (bool, Worker) {
    if endpoint in w.active then
      if StatusOf(w, w.active[endpoint]) == Running then (true, w)
      else (false, w.(active := w.active - {endpoint}))
    else (false, w)
  }

  /** Shared body of GET and POST: drop the request if one is in flight, else issue and record it. */
  function Send(w: Worker, verb: Verb, endpoint: string, slot: Handler): (Option<nat>, Worker) {
    var url := Url(w.server, endpoint);
    var (busy, w1) := HasActiveRequest(w, endpoint);
    if busy then (None, w1)
    else
      var id := |w1.requests|;
      (Some(id), w1.(requests := w1.requests + [Request(verb, url, Some(endpoint), slot, Running)],
                     active := w1.active[endpoint := id]))
  }

  function GetRequest(w: Worker, endpoint: string, slot: Handler): (Option<nat>, Worker) {
    Send(w, Get, endpoint, slot)
  }

  function PostRequest(w: Worker, endpoint: string, slot: Handler): (Option<nat>, Worker) {
    Send(w, Post, endpoint, slot)
  }

  /** One poll: GET the track and the playback state. */
  function UpdateStatus(w: Worker): Worker {
    var w1 := GetRequest(w, "track", OnTrack).1;
    GetRequest(w1, "track/state", OnState).1
  }

  // ---- commands

  function PrevTrack(w: Worker): Worker {
    PostRequest(w, "track/prev", OnRefresh).1
  }

  function NextTrack(w: Worker): Worker {
    PostRequest(w, "track/next", OnRefresh).1
  }

  function ToggleLikeTrack(w: Worker): Worker {
    var (reply, w1) := PostRequest(w, "track/like", OnRefresh);
    if reply.Some? then SetLiked(w1, !w1.liked) else w1
  }

  function ToggleDislikeTrack(w: Worker): Worker {
    var (reply, w1) := PostRequest(w, "track/dislike", OnRefresh);
    if reply.Some? then SetDisliked(w1, !w1.disliked) else w1
  }

  function PlayPauseEndpoint(playing: bool): string {
    if playing then "track/pause" else "track/play"
  }

  function TogglePlayPause(w: Worker): Worker {
    var (reply, w1) := PostRequest(w, PlayPauseEndpoint(w.playing), OnPlayPause);
    if reply.Some? then SetPlaying(w1, !w1.playing) else w1
  }

  function Play(w: Worker): Worker {
    if !w.playing then TogglePlayPause(w) else w
  }

  function Pause(w: Worker): Worker {
    if w.playing then TogglePlayPause(w) else w
  }

  // ---- reply handlers

  /** An artwork GET goes straight to the network, bypassing the table of active requests. */
  function FetchArtwork(w: Worker, url: string): Worker {
    w.(requests := w.requests + [Request(Get, url, None, OnArtwork, Running)])
  }

  /**
   * The `video` object of a track reply.  A first thumbnail without a `url`
   * raises inside the handler, which swallows the exception: the title and
   * artist already assigned stay assigned.
   */
  function ApplyVideo(w: Worker, video: Video): Worker {
    var w1 := if video.title.Some? then SetTitle(w, video.title.value) else w;
    var w2 := if video.author.Some? then SetArtist(w1, video.author.value) else w1;
    ApplyThumbnail(w2, video.thumbnail)
  }

  /** `video.thumbnail`: fetch the artwork when the first thumbnail's URL differs from the cached one. */
  function ApplyThumbnail(w: Worker, thumbnail: Option<Thumbnail>): Worker {
    match thumbnail
    case None => w
    case Some(t) =>
      match t.thumbnails
      case None => w
      case Some(NotAList) => w
      case Some(Items(urls)) =>
        if |urls| == 0 then w
        else match urls[0]
          case None => w
          case Some(url) =>
            if Some(url) != w.artworkUrl then FetchArtwork(w.(artworkUrl := Some(url)), url) else w
  }

  function HandleTrackReply(w: Worker, reply: Reply): Worker {
    match reply
    case Failed => w
    case Succeeded(_, json) =>
      match json
      case Object(data) => if data.video.Some? then ApplyVideo(w, data.video.value) else w
      case _ => w
  }

  function HandleStateReply(w: Worker, reply: Reply): Worker {
    match reply
    case Failed => w
    case Succeeded(_, json) =>
      match json
      case Object(data) =>
        var w1 := if data.playing.Some? then SetPlaying(w, data.playing.value) else w;
        var w2 := if data.liked.Some? then SetLiked(w1, data.liked.value) else w1;
        if data.disliked.Some? then SetDisliked(w2, data.disliked.value) else w2
      case _ => w
  }

  function HandlePlayPauseReply(w: Worker, reply: Reply): Worker {
    match reply
    case Failed => w
    case Succeeded(_, json) =>
      match json
      case Object(data) => if data.isPlaying.Some? then SetPlaying(w, data.isPlaying.value) else w
      case _ => w
  }

  function HandleArtworkReply(w: Worker, reply: Reply): Worker {
    match reply
    case Failed => w
    case Succeeded(raw, _) => SetArtwork(w, Pixmap(raw))
  }

  // ---- the network and the event loop

  /** The network moves handle `id` out of the running state (finished, or its object deleted). */
  function Settle(w: Worker, id: nat, status: Status): Worker {
    if id < |w.requests| then w.(requests := w.requests[id := w.requests[id].(status := status)]) else w
  }

  /** Deliver a reply to the slot its request was issued with. */
  function Dispatch(w: Worker, slot: Handler, reply: Reply): Worker {
    match slot
    case OnTrack => HandleTrackReply(w, reply)
    case OnState => HandleStateReply(w, reply)
    case OnPlayPause => HandlePlayPauseReply(w, reply)
    case OnRefresh => UpdateStatus(w)
    case OnArtwork => HandleArtworkReply(w, reply)
  }

  /** Everything that can happen on the event loop. */
  datatype Action =
    | Tick                              // the poll timer fires
    | TogglePlayPauseCmd | PlayCmd | PauseCmd
    | ToggleLikeCmd | ToggleDislikeCmd | NextCmd | PrevCmd
    | Complete(id: nat, reply: Reply)   // request `id` finishes and its slot runs
    | Dispose(id: nat)                  // the object behind handle `id` is deleted

  function Step(w: Worker, a: Action): Worker {
    match a
    case Tick => UpdateStatus(w)
    case TogglePlayPauseCmd => TogglePlayPause(w)
    case PlayCmd => Play(w)
    case PauseCmd => Pause(w)
    case ToggleLikeCmd => ToggleLikeTrack(w)
    case ToggleDislikeCmd => ToggleDislikeTrack(w)
    case NextCmd => NextTrack(w)
    case PrevCmd => PrevTrack(w)
    case Complete(id, reply) =>
      if id < |w.requests| && w.requests[id].status == Running then
        Dispatch(Settle(w, id, Finished), w.requests[id].handler, reply)
      else w
    case Dispose(id) => Settle(w, id, Deleted)
  }

  function Run(w: Worker, actions: seq<Action>): Worker
    decreases |actions|
  {
    if actions == [] then w else Run(Step(w, actions[0]), actions[1..])
  }

  // ---- the de-duplication invariant

  /**
   * The table records, for each endpoint, a request issued under that
   * endpoint to the server's URL for it; every unfinished recorded request
   * is the one its endpoint's table entry points to.
   */
  ghost predicate Valid(w: Worker) {
    && (forall e :: e in w.active ==> w.active[e] < |w.requests| && w.requests[w.active[e]].key == Some(e))
    && (forall i :: 0 <= i < |w.requests| && w.requests[i].key.Some? ==>
          w.requests[i].url == Url(w.server, w.requests[i].key.value))
    && (forall i :: 0 <= i < |w.requests| && w.requests[i].key.Some? && w.requests[i].status == Running ==>
          w.requests[i].key.value in w.active && w.active[w.requests[i].key.value] == i)
  }

  /** At most one unfinished request per endpoint. */
  ghost predicate NoOverlap(w: Worker) {
    forall i, j :: 0 <= i < j < |w.requests| && w.requests[i].key.Some? && w.requests[i].key == w.requests[j].key ==>
      w.requests[i].status != Running || w.requests[j].status != Running
  }
}
