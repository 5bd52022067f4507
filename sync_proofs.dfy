/**
 * Construction, request de-duplication and commands: what the functions of
 * module Sync guarantee, and that the de-duplication invariant holds in
 * every state the event loop can reach.
 */
module SyncProofs {
  import opened Wrappers
  import opened Protocol
  import opened Sync

  /** A new worker drops exactly one trailing slash and starts with nothing cached. */
  lemma InitialState(server: string)
    ensures EndsWithSlash(server) ==> Init(server).server + "/" == server
    ensures !EndsWithSlash(server) ==> Init(server).server == server
    ensures var w := Init(server);
      && w.title == None && w.artist == None && w.artworkUrl == None && w.artwork == None
      && !w.playing && !w.liked && !w.disliked
      && w.active == map[] && w.requests == [] && w.events == []
    ensures Valid(Init(server))
  {
  }

  /**
   * The query answers true exactly for an unfinished recorded handle and
   * then changes nothing; otherwise the endpoint is no longer in the table
   * and every other entry, and everything else, is as before.
   */
  lemma HasActiveRequestSpec(w: Worker, e: string)
    ensures var (busy, w') := HasActiveRequest(w, e);
      && (busy <==> e in w.active && StatusOf(w, w.active[e]) == Running)
      && (busy ==> w' == w)
      && (!busy ==> e !in w'.active && w'.active == w.active - {e} && w' == w.(active := w'.active))
  {
  }

  /**
   * A GET or POST to an endpoint with an unfinished request returns None
   * and changes nothing; otherwise it issues exactly one request to
   * server + "/" + endpoint and records its handle under the endpoint.
   */
  lemma SendSpec(w: Worker, verb: Verb, e: string, slot: Handler)
    ensures var (reply, w') := Send(w, verb, e, slot);
      var busy := e in w.active && StatusOf(w, w.active[e]) == Running;
      && (busy ==> reply == None && w' == w)
      && (!busy ==>
            && reply == Some(|w.requests|)
            && w'.requests == w.requests + [Request(verb, Url(w.server, e), Some(e), slot, Running)]
            && w'.active == w.active[e := |w.requests|]
            && w' == w.(requests := w'.requests, active := w'.active))
  {
    var (busy, w1) := HasActiveRequest(w, e);
    if !busy {
      assert (w.active - {e})[e := |w.requests|] == w.active[e := |w.requests|];
    }
  }

  lemma SendPreservesValid(w: Worker, verb: Verb, e: string, slot: Handler)
    requires Valid(w)
    ensures Valid(Send(w, verb, e, slot).1)
  {
    var (busy, w1) := HasActiveRequest(w, e);
    if !busy {
      var w' := Send(w, verb, e, slot).1;
      var id := |w.requests|;
      assert w'.requests == w.requests + [Request(verb, Url(w.server, e), Some(e), slot, Running)];
      forall i | 0 <= i < |w'.requests| && w'.requests[i].key.Some? && w'.requests[i].status == Running
        ensures w'.requests[i].key.value in w'.active && w'.active[w'.requests[i].key.value] == i
      {
        if i < id {
          // an older unfinished request under the same endpoint would have made it busy
          assert w.requests[i] == w'.requests[i];
          assert w'.requests[i].key.value != e;
        }
      }
    }
  }

  /** The invariant rules out two unfinished requests under one endpoint. */
  lemma ValidNoOverlap(w: Worker)
    requires Valid(w)
    ensures NoOverlap(w)
  {
  }

  /** Two polls with no reply in between: the second issues nothing and changes nothing. */
  lemma DoubleTickIssuesNothing(w: Worker)
    ensures UpdateStatus(UpdateStatus(w)) == UpdateStatus(w)
  {
    var w1 := GetRequest(w, "track", OnTrack).1;
    var w2 := GetRequest(w1, "track/state", OnState).1;
    assert "track" != "track/state";
    assert "track" in w1.active && StatusOf(w1, w1.active["track"]) == Running;
    assert "track" in w2.active && StatusOf(w2, w2.active["track"]) == Running;
    assert "track/state" in w2.active && StatusOf(w2, w2.active["track/state"]) == Running;
  }

  /**
   * Once the recorded state request has finished (or its object is gone),
   * the next poll issues a fresh GET to the state endpoint and records it.
   */
  lemma TickReissuesAfterSettle(w: Worker, status: Status)
    requires Valid(w) && status != Running
    requires "track/state" in w.active
    ensures var old_id := w.active["track/state"];
      var w' := UpdateStatus(Settle(w, old_id, status));
      && |w'.requests| > 0
      && w'.requests[|w'.requests| - 1] == Request(Get, Url(w.server, "track/state"), Some("track/state"), OnState, Running)
      && "track/state" in w'.active && w'.active["track/state"] == |w'.requests| - 1 != old_id
  {
    var old_id := w.active["track/state"];
    var w0 := Settle(w, old_id, status);
    var w1 := GetRequest(w0, "track", OnTrack).1;
    SendSpec(w0, Get, "track", OnTrack);
    assert "track" != "track/state";
    assert w1.active["track/state"] == old_id && StatusOf(w1, old_id) == status;
    SendSpec(w1, Get, "track/state", OnState);
  }

  /**
   * A step that keeps the server and the table, and at most appends one
   * request recorded under no endpoint (an artwork fetch).
   */
  ghost predicate OnlyArtworkFetch(w: Worker, w': Worker) {
    && w'.server == w.server
    && w'.active == w.active
    && (|| w'.requests == w.requests
        || (&& |w'.requests| == |w.requests| + 1
            && w'.requests[..|w.requests|] == w.requests
            && w'.requests[|w.requests|].key == None))
  }

  lemma OnlyArtworkFetchKeepsValid(w: Worker, w': Worker)
    requires Valid(w) && OnlyArtworkFetch(w, w')
    ensures Valid(w')
  {
    if w'.requests != w.requests {
      forall i | 0 <= i < |w.requests| ensures w'.requests[i] == w.requests[i] {
        assert w'.requests[..|w.requests|][i] == w'.requests[i];
      }
    }
  }

  /** The thumbnail part of the track handler changes the network only by an artwork fetch. */
  lemma ThumbnailKeepsNetwork(w: Worker, thumbnail: Option<Thumbnail>)
    ensures OnlyArtworkFetch(w, ApplyThumbnail(w, thumbnail))
  {
    var r := ApplyThumbnail(w, thumbnail);
    if r.requests != w.requests {
      assert r.requests[..|w.requests|] == w.requests;
    }
  }

  /** The track handler changes the network only by an artwork fetch. */
  lemma ApplyVideoKeepsNetwork(w: Worker, video: Video)
    ensures OnlyArtworkFetch(w, ApplyVideo(w, video))
  {
    var w1 := if video.title.Some? then SetTitle(w, video.title.value) else w;
    var w2 := if video.author.Some? then SetArtist(w1, video.author.value) else w1;
    assert w2.requests == w.requests && w2.active == w.active && w2.server == w.server;
    ThumbnailKeepsNetwork(w2, video.thumbnail);
  }

  /** The state handler changes only the cache and the events. */
  lemma StateReplyKeepsNetwork(w: Worker, reply: Reply)
    ensures var r := HandleStateReply(w, reply);
      r.server == w.server && r.active == w.active && r.requests == w.requests
  {
    if reply.Succeeded? && reply.json.Object? {
      var data := reply.json.payload;
      var w1 := if data.playing.Some? then SetPlaying(w, data.playing.value) else w;
      var w2 := if data.liked.Some? then SetLiked(w1, data.liked.value) else w1;
      assert w1.requests == w.requests && w1.active == w.active && w1.server == w.server;
      assert w2.requests == w.requests && w2.active == w.active && w2.server == w.server;
    }
  }

  /** Reply handlers change the network only by an artwork fetch. */
  lemma HandlersKeepNetwork(w: Worker, reply: Reply)
    ensures OnlyArtworkFetch(w, HandleTrackReply(w, reply))
    ensures OnlyArtworkFetch(w, HandleStateReply(w, reply))
    ensures OnlyArtworkFetch(w, HandlePlayPauseReply(w, reply))
    ensures OnlyArtworkFetch(w, HandleArtworkReply(w, reply))
  {
    if reply.Succeeded? && reply.json.Object? && reply.json.payload.video.Some? {
      ApplyVideoKeepsNetwork(w, reply.json.payload.video.value);
    }
    StateReplyKeepsNetwork(w, reply);
  }

  lemma HandlersKeepValid(w: Worker, reply: Reply)
    requires Valid(w)
    ensures Valid(HandleTrackReply(w, reply))
    ensures Valid(HandleStateReply(w, reply))
    ensures Valid(HandlePlayPauseReply(w, reply))
    ensures Valid(HandleArtworkReply(w, reply))
  {
    HandlersKeepNetwork(w, reply);
    OnlyArtworkFetchKeepsValid(w, HandleTrackReply(w, reply));
    OnlyArtworkFetchKeepsValid(w, HandleStateReply(w, reply));
    OnlyArtworkFetchKeepsValid(w, HandlePlayPauseReply(w, reply));
    OnlyArtworkFetchKeepsValid(w, HandleArtworkReply(w, reply));
  }

  lemma UpdateStatusKeepsValid(w: Worker)
    requires Valid(w)
    ensures Valid(UpdateStatus(w))
  {
    SendPreservesValid(w, Get, "track", OnTrack);
    SendPreservesValid(GetRequest(w, "track", OnTrack).1, Get, "track/state", OnState);
  }

  lemma CommandsKeepValid(w: Worker)
    requires Valid(w)
    ensures Valid(TogglePlayPause(w)) && Valid(Play(w)) && Valid(Pause(w))
    ensures Valid(ToggleLikeTrack(w)) && Valid(ToggleDislikeTrack(w))
    ensures Valid(NextTrack(w)) && Valid(PrevTrack(w))
  {
    SendPreservesValid(w, Post, PlayPauseEndpoint(w.playing), OnPlayPause);
    SendPreservesValid(w, Post, "track/like", OnRefresh);
    SendPreservesValid(w, Post, "track/dislike", OnRefresh);
    SendPreservesValid(w, Post, "track/next", OnRefresh);
    SendPreservesValid(w, Post, "track/prev", OnRefresh);
  }

  /** Moving a handle out of the running state keeps the invariant. */
  lemma SettleKeepsValid(w: Worker, id: nat, status: Status)
    requires Valid(w)
    requires status != Running
    ensures Valid(Settle(w, id, status))
  {
  }

  lemma StepKeepsValid(w: Worker, a: Action)
    requires Valid(w)
    ensures Valid(Step(w, a))
  {
    match a
    case Tick => UpdateStatusKeepsValid(w);
    case Complete(id, reply) =>
      if id < |w.requests| && w.requests[id].status == Running {
        var w1 := Settle(w, id, Finished);
        SettleKeepsValid(w, id, Finished);
        HandlersKeepValid(w1, reply);
        UpdateStatusKeepsValid(w1);
      }
    case Dispose(id) => SettleKeepsValid(w, id, Deleted);
    case _ => CommandsKeepValid(w);
  }

  /** Whatever happens on the event loop, the invariant, and so no overlap, is kept. */
  lemma {:induction false} RunKeepsValid(w: Worker, actions: seq<Action>)
    requires Valid(w)
    ensures Valid(Run(w, actions)) && NoOverlap(Run(w, actions))
    decreases |actions|
  {
    if actions == [] {
      ValidNoOverlap(w);
    } else {
      StepKeepsValid(w, actions[0]);
      RunKeepsValid(Step(w, actions[0]), actions[1..]);
    }
  }

  /** Every state reachable from a fresh worker has at most one unfinished request per endpoint. */
  lemma ReachableNoOverlap(server: string, actions: seq<Action>)
    ensures Valid(Run(Init(server), actions)) && NoOverlap(Run(Init(server), actions))
  {
    RunKeepsValid(Init(server), actions);
  }

  // ---- commands

  /**
   * Toggle POSTs to track/pause when playing and to track/play otherwise;
   * `playing` flips, with one notification, exactly when the POST is issued,
   * and a deduplicated toggle changes nothing at all.
   */
  lemma TogglePlayPauseSpec(w: Worker)
    ensures var e := if w.playing then "track/pause" else "track/play";
      var issued := !(e in w.active && StatusOf(w, w.active[e]) == Running);
      var w' := TogglePlayPause(w);
      && (issued ==>
            && w'.playing == !w.playing
            && w'.requests == w.requests + [Request(Post, Url(w.server, e), Some(e), OnPlayPause, Running)]
            && w'.active == w.active[e := |w.requests|]
            && w'.events == w.events + [PlayStateChanged(!w.playing)]
            && w' == w.(playing := w'.playing, requests := w'.requests, active := w'.active, events := w'.events))
      && (!issued ==> w' == w)
  {
    SendSpec(w, Post, PlayPauseEndpoint(w.playing), OnPlayPause);
  }

  /** Play when playing and pause when paused do nothing; otherwise both are the toggle. */
  lemma PlayPauseGuards(w: Worker)
    ensures w.playing ==> Play(w) == w && Pause(w) == TogglePlayPause(w)
    ensures !w.playing ==> Pause(w) == w && Play(w) == TogglePlayPause(w)
  {
  }

  /** Like flips `liked` exactly when its POST is issued; a deduplicated call changes nothing. */
  lemma ToggleLikeSpec(w: Worker)
    ensures var issued := !("track/like" in w.active && StatusOf(w, w.active["track/like"]) == Running);
      var w' := ToggleLikeTrack(w);
      && (issued ==>
            && w'.liked == !w.liked
            && w'.requests == w.requests + [Request(Post, Url(w.server, "track/like"), Some("track/like"), OnRefresh, Running)]
            && w'.active == w.active["track/like" := |w.requests|]
            && w'.events == w.events + [LikeStateChanged(!w.liked)]
            && w' == w.(liked := w'.liked, requests := w'.requests, active := w'.active, events := w'.events))
      && (!issued ==> w' == w)
  {
    SendSpec(w, Post, "track/like", OnRefresh);
  }

  /** Dislike flips `disliked` exactly when its POST is issued; a deduplicated call changes nothing. */
  lemma ToggleDislikeSpec(w: Worker)
    ensures var issued := !("track/dislike" in w.active && StatusOf(w, w.active["track/dislike"]) == Running);
      var w' := ToggleDislikeTrack(w);
      && (issued ==>
            && w'.disliked == !w.disliked
            && w'.requests == w.requests + [Request(Post, Url(w.server, "track/dislike"), Some("track/dislike"), OnRefresh, Running)]
            && w'.active == w.active["track/dislike" := |w.requests|]
            && w'.events == w.events + [DislikeStateChanged(!w.disliked)]
            && w' == w.(disliked := w'.disliked, requests := w'.requests, active := w'.active, events := w'.events))
      && (!issued ==> w' == w)
  {
    SendSpec(w, Post, "track/dislike", OnRefresh);
  }

  /**
   * Next POSTs to track/next with a refreshing callback, through the table;
   * the cache and the emitted events stay as they were, and a deduplicated
   * call changes nothing.
   */
  lemma NextTrackSpec(w: Worker)
    ensures var busy := "track/next" in w.active && StatusOf(w, w.active["track/next"]) == Running;
      var w' := NextTrack(w);
      && (busy ==> w' == w)
      && (!busy ==>
            w' == w.(requests := w.requests + [Request(Post, Url(w.server, "track/next"), Some("track/next"), OnRefresh, Running)],
                  active := w.active["track/next" := |w.requests|]))
  {
    SendSpec(w, Post, "track/next", OnRefresh);
  }

  /**
   * Previous POSTs to track/prev with a refreshing callback, through the
   * table; the cache and the emitted events stay as they were, and a
   * deduplicated call changes nothing.
   */
  lemma PrevTrackSpec(w: Worker)
    ensures var busy := "track/prev" in w.active && StatusOf(w, w.active["track/prev"]) == Running;
      var w' := PrevTrack(w);
      && (busy ==> w' == w)
      && (!busy ==>
            w' == w.(requests := w.requests + [Request(Post, Url(w.server, "track/prev"), Some("track/prev"), OnRefresh, Running)],
                  active := w.active["track/prev" := |w.requests|]))
  {
    SendSpec(w, Post, "track/prev", OnRefresh);
  }

  /**
   * An in-flight toggle does not block a second one: the first has already
   * flipped `playing`, so the second POSTs to the other endpoint and is
   * issued too, leaving two play/pause requests unfinished.
   */
  lemma SecondToggleNotBlocked(w: Worker)
    requires !w.playing && "track/play" !in w.active && "track/pause" !in w.active
    ensures var w' := TogglePlayPause(TogglePlayPause(w));
      && |w'.requests| == |w.requests| + 2
      && w'.requests[|w.requests|] == Request(Post, Url(w.server, "track/play"), Some("track/play"), OnPlayPause, Running)
      && w'.requests[|w.requests| + 1] == Request(Post, Url(w.server, "track/pause"), Some("track/pause"), OnPlayPause, Running)
      && !w'.playing
  {
    TogglePlayPauseSpec(w);
    var w1 := TogglePlayPause(w);
    assert "track/play" != "track/pause";
    TogglePlayPauseSpec(w1);
  }

  /** Whatever the optimistic flip guessed, the play/pause reply leaves `playing` at the server's value. */
  lemma ToggleThenReconcile(w: Worker, raw: seq<byte>, data: Payload)
    requires data.isPlaying.Some?
    ensures HandlePlayPauseReply(TogglePlayPause(w), Succeeded(raw, Object(data))).playing == data.isPlaying.value
  {
  }
}
