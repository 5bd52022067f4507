/**
 * The status client as the object the application holds: the cache fields
 * that its setters and reply handlers update in place, the table of active
 * requests, and the requests the network access manager has handed out.
 * Every method keeps the de-duplication invariant and leaves the object in
 * exactly the state the matching function of module Sync describes.
 */
module Client {
  import opened Wrappers
  import opened Protocol
  import Sync
  import SyncProofs

  class ApiWorker {
    const server: string
    var title: Option<string>
    var artist: Option<string>
    var playing: bool
    var liked: bool
    var disliked: bool
    var artworkUrl: Option<string>
    var artwork: Option<Pixmap>
    /** endpoint -> index into `requests` of the handle last recorded for it */
    var activeRequests: map<string, nat>
    /** the reply handles the network access manager has produced, in issue order */
    var requests: seq<Request>
    /** the signals emitted so far, in order */
    ghost var events: seq<Event>

    ghost function Model(): Sync.Worker
      reads this
    {
      Sync.Worker(server, title, artist, playing, liked, disliked, artworkUrl, artwork,
                  activeRequests, requests, events)
    }

    ghost predicate Valid()
      reads this
    {
      Sync.Valid(Model())
    }

    constructor (server: string)
      ensures Valid()
      ensures Model() == Sync.Init(server)
      ensures Sync.EndsWithSlash(server) ==> this.server + "/" == server
      ensures !Sync.EndsWithSlash(server) ==> this.server == server
      ensures title == None && artist == None && artworkUrl == None && artwork == None
      ensures !playing && !liked && !disliked
      ensures activeRequests == map[] && requests == [] && events == []
    {
      var s := server;
      if |s| > 0 && s[|s| - 1] == '/' {
        s := s[..|s| - 1];
      }
      this.server := s;
      title, artist := None, None;
      playing, liked, disliked := false, false, false;
      artworkUrl, artwork := None, None;
      activeRequests := map[];
      requests := [];
      events := [];
    }

    // ---- property setters

    method SetPlaying(value: bool)
      requires Valid()
      modifies this
      ensures Valid()
      ensures Model() == Sync.SetPlaying(old(Model()), value)
    {
      if value != playing {
        playing := value;
        events := events + [PlayStateChanged(value)];
      }
    }

    method SetTitle(value: string)
      requires Valid()
      modifies this
      ensures Valid()
      ensures Model() == Sync.SetTitle(old(Model()), value)
    {
      if Some(value) != title {
        title := Some(value);
        events := events + [TitleChanged(value)];
      }
    }

    method SetArtist(value: string)
      requires Valid()
      modifies this
      ensures Valid()
      ensures Model() == Sync.SetArtist(old(Model()), value)
    {
      if Some(value) != artist {
        artist := Some(value);
        events := events + [ArtistChanged(value)];
      }
    }

    method SetLiked(value: bool)
      requires Valid()
      modifies this
      ensures Valid()
      ensures Model() == Sync.SetLiked(old(Model()), value)
    {
      if value != liked {
        liked := value;
        events := events + [LikeStateChanged(value)];
      }
    }

    method SetDisliked(value: bool)
      requires Valid()
      modifies this
      ensures Valid()
      ensures Model() == Sync.SetDisliked(old(Model()), value)
    {
      if value != disliked {
        disliked := value;
        events := events + [DislikeStateChanged(value)];
      }
    }

    method SetArtwork(value: Pixmap)
      requires Valid()
      modifies this
      ensures Valid()
      ensures Model() == Sync.SetArtwork(old(Model()), value)
    {
      artwork := Some(value);
      events := events + [ArtworkChanged(value)];
    }

    // ---- commands

    method PrevTrack()
      requires Valid()
      modifies this
      ensures Valid()
      ensures Model() == Sync.PrevTrack(old(Model()))
    {
      var _ := PostRequest("track/prev", OnRefresh);
    }

    method NextTrack()
      requires Valid()
      modifies this
      ensures Valid()
      ensures Model() == Sync.NextTrack(old(Model()))
    {
      var _ := PostRequest("track/next", OnRefresh);
    }

    method ToggleLikeTrack()
      requires Valid()
      modifies this
      ensures Valid()
      ensures Model() == Sync.ToggleLikeTrack(old(Model()))
    {
      var reply := PostRequest("track/like", OnRefresh);
      if reply.Some? {
        SetLiked(!liked);
      }
    }

    method ToggleDislikeTrack()
      requires Valid()
      modifies this
      ensures Valid()
      ensures Model() == Sync.ToggleDislikeTrack(old(Model()))
    {
      var reply := PostRequest("track/dislike", OnRefresh);
      if reply.Some? {
        SetDisliked(!disliked);
      }
    }

    method TogglePlayPause()
      requires Valid()
      modifies this
      ensures Valid()
      ensures Model() == Sync.TogglePlayPause(old(Model()))
    {
      var endpoint;
      if playing {
        endpoint := "track/pause";
      } else {
        endpoint := "track/play";
      }
      var reply := PostRequest(endpoint, OnPlayPause);
      if reply.Some? {
        SetPlaying(!playing);
      }
    }

    method Play()
      requires Valid()
      modifies this
      ensures Valid()
      ensures Model() == Sync.Play(old(Model()))
    {
      if !playing {
        TogglePlayPause();
      }
    }

    method Pause()
      requires Valid()
      modifies this
      ensures Valid()
      ensures Model() == Sync.Pause(old(Model()))
    {
      if playing {
        TogglePlayPause();
      }
    }

    // ---- polling and de-duplication

    method UpdateStatus()
      requires Valid()
      modifies this
      ensures Valid()
      ensures Model() == Sync.UpdateStatus(old(Model()))
    {
      var _ := GetRequest("track", OnTrack);
      var _ := GetRequest("track/state", OnState);
    }

    method HasActiveRequest(endpoint: string) returns (active: bool)
      requires Valid()
      modifies this
      ensures Valid()
      ensures (active, Model()) == Sync.HasActiveRequest(old(Model()), endpoint)
    {
      if endpoint in activeRequests {
        var reply := requests[activeRequests[endpoint]];
        var finished := true;
        if reply.status != Deleted {
          // querying a deleted handle raises; it then counts as finished
          finished := reply.status == Finished;
        }
        if !finished {
          return true;
        }
        activeRequests := activeRequests - {endpoint};
      }
      return false;
    }

    method GetRequest(endpoint: string, slot: Handler) returns (reply: Option<nat>)
      requires Valid()
      modifies this
      ensures Valid()
      ensures (reply, Model()) == Sync.GetRequest(old(Model()), endpoint, slot)
    {
      ghost var before := Model();
      var url := server + "/" + endpoint;
      var busy := HasActiveRequest(endpoint);
      if busy {
        return None;
      }
      var id := |requests|;
      requests := requests + [Request(Get, url, Some(endpoint), slot, Running)];
      activeRequests := activeRequests[endpoint := id];
      SyncProofs.SendPreservesValid(before, Get, endpoint, slot);
      return Some(id);
    }

    method PostRequest(endpoint: string, slot: Handler) returns (reply: Option<nat>)
      requires Valid()
      modifies this
      ensures Valid()
      ensures (reply, Model()) == Sync.PostRequest(old(Model()), endpoint, slot)
    {
      ghost var before := Model();
      var url := server + "/" + endpoint;
      var busy := HasActiveRequest(endpoint);
      if busy {
        return None;
      }
      var id := |requests|;
      requests := requests + [Request(Post, url, Some(endpoint), slot, Running)];
      activeRequests := activeRequests[endpoint := id];
      SyncProofs.SendPreservesValid(before, Post, endpoint, slot);
      return Some(id);
    }

    // ---- reply handlers

    method HandleTrackReply(reply: Reply)
      requires Valid()
      modifies this
      ensures Valid()
      ensures Model() == Sync.HandleTrackReply(old(Model()), reply)
    {
      match reply {
        case Failed =>
        case Succeeded(_, json) =>
          match json {
            case Object(data) =>
              if data.video.Some? {
                ApplyVideo(data.video.value);
              }
            case _ =>
          }
      }
    }

    /** The body of the track handler once it has found a `video` object. */
    method ApplyVideo(video: Video)
      requires Valid()
      modifies this
      ensures Valid()
      ensures Model() == Sync.ApplyVideo(old(Model()), video)
    {
      if video.title.Some? {
        SetTitle(video.title.value);
      }
      if video.author.Some? {
        SetArtist(video.author.value);
      }
      ApplyThumbnail(video.thumbnail);
    }

    method ApplyThumbnail(thumbnail: Option<Thumbnail>)
      requires Valid()
      modifies this
      ensures Valid()
      ensures Model() == Sync.ApplyThumbnail(old(Model()), thumbnail)
    {
      ghost var before := Model();
      if thumbnail.Some? && thumbnail.value.thumbnails.Some? {
        var thumbnails := thumbnail.value.thumbnails.value;
        // a first item without "url" raises, and the handler swallows it
        if thumbnails.Items? && |thumbnails.urls| > 0 && thumbnails.urls[0].Some? {
          var url := thumbnails.urls[0].value;
          if Some(url) != artworkUrl {
            artworkUrl := Some(url);
            requests := requests + [Request(Get, url, None, OnArtwork, Running)];
          }
        }
      }
      SyncProofs.ThumbnailKeepsNetwork(before, thumbnail);
      SyncProofs.OnlyArtworkFetchKeepsValid(before, Model());
    }

    method HandleStateReply(reply: Reply)
      requires Valid()
      modifies this
      ensures Valid()
      ensures Model() == Sync.HandleStateReply(old(Model()), reply)
    {
      match reply {
        case Failed =>
        case Succeeded(_, json) =>
          match json {
            case Object(data) =>
              if data.playing.Some? {
                SetPlaying(data.playing.value);
              }
              if data.liked.Some? {
                SetLiked(data.liked.value);
              }
              if data.disliked.Some? {
                SetDisliked(data.disliked.value);
              }
            case _ =>
          }
      }
    }

    method HandlePlayPauseReply(reply: Reply)
      requires Valid()
      modifies this
      ensures Valid()
      ensures Model() == Sync.HandlePlayPauseReply(old(Model()), reply)
    {
      match reply {
        case Failed =>
        case Succeeded(_, json) =>
          match json {
            case Object(data) =>
              if data.isPlaying.Some? {
                SetPlaying(data.isPlaying.value);
              }
            case _ =>
          }
      }
    }

    method HandleArtworkReply(reply: Reply)
      requires Valid()
      modifies this
      ensures Valid()
      ensures Model() == Sync.HandleArtworkReply(old(Model()), reply)
    {
      match reply {
        case Failed =>
        case Succeeded(raw, _) =>
          SetArtwork(Pixmap(raw));
      }
    }

    // ---- the network side

    /** The network reports handle `id` finished, or deletes the object behind it. */
    method Settle(id: nat, status: Status)
      requires Valid()
      requires status != Running
      modifies this
      ensures Valid()
      ensures Model() == Sync.Settle(old(Model()), id, status)
    {
      ghost var before := Model();
      if id < |requests| {
        requests := requests[id := requests[id].(status := status)];
      }
      SyncProofs.SettleKeepsValid(before, id, status);
    }
  }
}
