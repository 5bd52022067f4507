/**
 * The cache and its change notifications: what the setters and the reply
 * handlers of module Sync guarantee for one call, and, over any sequence of
 * track replies, that notifications and artwork fetches happen exactly at
 * the changes of the value they follow.
 */
module CacheProofs {
  import opened Wrappers
  import opened Protocol
  import opened Sync

  // ---- setters

  /**
   * Each change-only setter ends with the field equal to the assigned value,
   * appends one matching notification exactly when the value differed, and
   * changes nothing else.
   */
  lemma SettersEmitIffChanged(w: Worker, b: bool, s: string)
    ensures SetPlaying(w, b) == w.(playing := b, events := w.events + (if b != w.playing then [PlayStateChanged(b)] else []))
    ensures SetLiked(w, b) == w.(liked := b, events := w.events + (if b != w.liked then [LikeStateChanged(b)] else []))
    ensures SetDisliked(w, b) == w.(disliked := b, events := w.events + (if b != w.disliked then [DislikeStateChanged(b)] else []))
    ensures SetTitle(w, s) == w.(title := Some(s), events := w.events + (if Some(s) != w.title then [TitleChanged(s)] else []))
    ensures SetArtist(w, s) == w.(artist := Some(s), events := w.events + (if Some(s) != w.artist then [ArtistChanged(s)] else []))
  {
  }

  /** Assigning the same value twice emits nothing the second time. */
  lemma SettersIdempotent(w: Worker, b: bool, s: string)
    ensures SetPlaying(SetPlaying(w, b), b) == SetPlaying(w, b)
    ensures SetLiked(SetLiked(w, b), b) == SetLiked(w, b)
    ensures SetDisliked(SetDisliked(w, b), b) == SetDisliked(w, b)
    ensures SetTitle(SetTitle(w, s), s) == SetTitle(w, s)
    ensures SetArtist(SetArtist(w, s), s) == SetArtist(w, s)
  {
  }

  /** The artwork setter emits on every assignment, also of the image already held. */
  lemma ArtworkAlwaysEmits(w: Worker, p: Pixmap)
    ensures SetArtwork(w, p) == w.(artwork := Some(p), events := w.events + [ArtworkChanged(p)])
    ensures w.artwork == Some(p) ==> |SetArtwork(w, p).events| == |w.events| + 1
  {
  }

  // ---- what a reply carries, read independently of the handlers

  function ReplyVideo(reply: Reply): Option<Video> {
    if reply.Succeeded? && reply.json.Object? then reply.json.payload.video else None
  }

  function ReplyTitle(reply: Reply): Option<string> {
    if ReplyVideo(reply).Some? then ReplyVideo(reply).value.title else None
  }

  function ReplyAuthor(reply: Reply): Option<string> {
    if ReplyVideo(reply).Some? then ReplyVideo(reply).value.author else None
  }

  /** The `url` of the first thumbnail, when `thumbnails` is a non-empty list and that key is there. */
  function FirstThumbnailUrl(thumbnail: Option<Thumbnail>): Option<string> {
    if thumbnail.Some? && thumbnail.value.thumbnails.Some? then
      var list := thumbnail.value.thumbnails.value;
      if list.Items? && |list.urls| > 0 then list.urls[0] else None
    else None
  }

  function ReplyThumbnailUrl(reply: Reply): Option<string> {
    if ReplyVideo(reply).Some? then FirstThumbnailUrl(ReplyVideo(reply).value.thumbnail) else None
  }

  /** The two string fields a track reply diffs into the cache. */
  datatype Field = TitleField | ArtistField

  function FieldEvent(f: Field, value: string): Event {
    match f
    case TitleField => TitleChanged(value)
    case ArtistField => ArtistChanged(value)
  }

  function FieldChanged(value: Option<string>, cached: Option<string>, f: Field): seq<Event> {
    if value.Some? && value != cached then [FieldEvent(f, value.value)] else []
  }

  /** The three flags the state and play/pause replies diff into the cache. */
  datatype Flag = PlayingFlag | LikedFlag | DislikedFlag

  function FlagEvent(flag: Flag, value: bool): Event {
    match flag
    case PlayingFlag => PlayStateChanged(value)
    case LikedFlag => LikeStateChanged(value)
    case DislikedFlag => DislikeStateChanged(value)
  }

  function FlagChanged(value: Option<bool>, cached: bool, flag: Flag): seq<Event> {
    if value.Some? && value.value != cached then [FlagEvent(flag, value.value)] else []
  }

  // ---- reply handlers

  /**
   * The track handler assigns exactly the fields the reply carries, emits
   * for those that changed (title first), and fetches the artwork, outside
   * the table of active requests, exactly when the first thumbnail URL is
   * there and differs from the cached one.  A failed, malformed or empty
   * reply changes nothing.
   */
  lemma TrackReplySpec(w: Worker, reply: Reply)
    ensures var w' := HandleTrackReply(w, reply);
      var t, a, u := ReplyTitle(reply), ReplyAuthor(reply), ReplyThumbnailUrl(reply);
      var fetch := u.Some? && u != w.artworkUrl;
      && w'.title == (if t.Some? then t else w.title)
      && w'.artist == (if a.Some? then a else w.artist)
      && w'.artworkUrl == (if fetch then u else w.artworkUrl)
      && w'.events == w.events + FieldChanged(t, w.title, TitleField) + FieldChanged(a, w.artist, ArtistField)
      && w'.requests == w.requests + (if fetch then [Request(Get, u.value, None, OnArtwork, Running)] else [])
      && w' == w.(title := w'.title, artist := w'.artist, artworkUrl := w'.artworkUrl,
                  events := w'.events, requests := w'.requests)
  {
    if ReplyVideo(reply).Some? {
      VideoSpec(w, ReplyVideo(reply).value);
    }
  }

  /** The part of the track handler that reads the `video` object. */
  lemma VideoSpec(w: Worker, video: Video)
    ensures var w' := ApplyVideo(w, video);
      var u := FirstThumbnailUrl(video.thumbnail);
      var fetch := u.Some? && u != w.artworkUrl;
      && w'.title == (if video.title.Some? then video.title else w.title)
      && w'.artist == (if video.author.Some? then video.author else w.artist)
      && w'.artworkUrl == (if fetch then u else w.artworkUrl)
      && w'.events == w.events + FieldChanged(video.title, w.title, TitleField)
                               + FieldChanged(video.author, w.artist, ArtistField)
      && w'.requests == w.requests + (if fetch then [Request(Get, u.value, None, OnArtwork, Running)] else [])
      && w' == w.(title := w'.title, artist := w'.artist, artworkUrl := w'.artworkUrl,
                  events := w'.events, requests := w'.requests)
  {
    var w1 := if video.title.Some? then SetTitle(w, video.title.value) else w;
    var w2 := if video.author.Some? then SetArtist(w1, video.author.value) else w1;
    assert w1 == w.(title := w1.title, events := w1.events);
    assert w2 == w.(title := w1.title, artist := w2.artist, events := w2.events);
    assert w2.events == w.events + FieldChanged(video.title, w.title, TitleField)
                                 + FieldChanged(video.author, w.artist, ArtistField);
    ThumbnailSpec(w2, video.thumbnail);
  }

  /** The artwork URL changes, and one fetch outside the table is issued, exactly when the first URL is new. */
  lemma ThumbnailSpec(w: Worker, thumbnail: Option<Thumbnail>)
    ensures var u := FirstThumbnailUrl(thumbnail);
      var fetch := u.Some? && u != w.artworkUrl;
      ApplyThumbnail(w, thumbnail)
        == w.(artworkUrl := if fetch then u else w.artworkUrl,
              requests := w.requests + if fetch then [Request(Get, u.value, None, OnArtwork, Running)] else [])
  {
    if !(FirstThumbnailUrl(thumbnail).Some? && FirstThumbnailUrl(thumbnail) != w.artworkUrl) {
      assert w.requests + [] == w.requests;
    }
  }

  lemma TrackReplyIgnoresFailures(w: Worker, reply: Reply)
    requires reply.Failed? || !reply.json.Object?
    ensures HandleTrackReply(w, reply) == w
  {
  }

  /**
   * The state handler assigns only the keys present among playing, liked
   * and disliked, emitting in that order for those that changed.
   */
  lemma StateReplySpec(w: Worker, raw: seq<byte>, data: Payload)
    ensures var w' := HandleStateReply(w, Succeeded(raw, Object(data)));
      && w'.playing == (if data.playing.Some? then data.playing.value else w.playing)
      && w'.liked == (if data.liked.Some? then data.liked.value else w.liked)
      && w'.disliked == (if data.disliked.Some? then data.disliked.value else w.disliked)
      && w'.events == w.events + FlagChanged(data.playing, w.playing, PlayingFlag)
                               + FlagChanged(data.liked, w.liked, LikedFlag)
                               + FlagChanged(data.disliked, w.disliked, DislikedFlag)
      && w' == w.(playing := w'.playing, liked := w'.liked, disliked := w'.disliked, events := w'.events)
  {
    var w1 := if data.playing.Some? then SetPlaying(w, data.playing.value) else w;
    var w2 := if data.liked.Some? then SetLiked(w1, data.liked.value) else w1;
    assert w1 == w.(playing := w1.playing, events := w1.events);
    assert w1.events == w.events + FlagChanged(data.playing, w.playing, PlayingFlag);
    assert w2 == w.(playing := w1.playing, liked := w2.liked, events := w2.events);
    assert w2.events == w1.events + FlagChanged(data.liked, w.liked, LikedFlag);
  }

  /** A failed, malformed or empty state reply changes nothing. */
  lemma StateReplyIgnoresFailures(w: Worker, reply: Reply)
    requires reply.Failed? || !reply.json.Object?
    ensures HandleStateReply(w, reply) == w
  {
  }

  /**
   * The play/pause handler sets `playing` to the server's `isPlaying` when
   * the key is there, whatever the optimistic flip had guessed.
   */
  lemma PlayPauseReplySpec(w: Worker, raw: seq<byte>, data: Payload)
    ensures var w' := HandlePlayPauseReply(w, Succeeded(raw, Object(data)));
      && w'.playing == (if data.isPlaying.Some? then data.isPlaying.value else w.playing)
      && w'.events == w.events + FlagChanged(data.isPlaying, w.playing, PlayingFlag)
      && w' == w.(playing := w'.playing, events := w'.events)
  {
  }

  /** A failed, malformed or empty play/pause reply changes nothing. */
  lemma PlayPauseReplyIgnoresFailures(w: Worker, reply: Reply)
    requires reply.Failed? || !reply.json.Object?
    ensures HandlePlayPauseReply(w, reply) == w
  {
  }

  /** A successful artwork reply always replaces the image and emits; a failed one changes nothing. */
  lemma ArtworkReplySpec(w: Worker, reply: Reply)
    ensures reply.Succeeded? ==>
      HandleArtworkReply(w, reply) == w.(artwork := Some(Pixmap(reply.raw)),
                                         events := w.events + [ArtworkChanged(Pixmap(reply.raw))])
    ensures reply.Failed? ==> HandleArtworkReply(w, reply) == w
  {
  }

  // ---- sequences of track replies

  /** The values of `vs` that differ from the value before them (`prev` for the first). */
  function Transitions<T(==)>(prev: Option<T>, vs: seq<T>): seq<T>
    decreases |vs|
  {
    if vs == [] then []
    else if Some(vs[0]) != prev then [vs[0]] + Transitions(Some(vs[0]), vs[1..])
    else Transitions(prev, vs[1..])
  }

  /** No two consecutive transitions are equal, the first differs from `prev`, and each was assigned. */
  lemma {:induction false} TransitionsNoRepeats<T>(prev: Option<T>, vs: seq<T>)
    ensures var r := Transitions(prev, vs);
      && |r| <= |vs|
      && (|r| > 0 ==> Some(r[0]) != prev)
      && (forall k :: 0 < k < |r| ==> r[k] != r[k - 1])
      && (forall k :: 0 <= k < |r| ==> r[k] in vs)
    decreases |vs|
  {
    if vs != [] {
      TransitionsNoRepeats(Some(vs[0]), vs[1..]);
      TransitionsNoRepeats(prev, vs[1..]);
      var rest := vs[1..];
      assert forall x :: x in rest ==> x in vs;
    }
  }

  lemma TransitionsCons<T>(prev: Option<T>, x: T, rest: seq<T>)
    ensures Transitions(prev, [x] + rest)
         == if Some(x) != prev then [x] + Transitions(Some(x), rest) else Transitions(prev, rest)
  {
    assert ([x] + rest)[0] == x;
    assert ([x] + rest)[1..] == rest;
  }

  /** Assigning a value already held, any number of times, produces no transition. */
  lemma {:induction false} RepeatedValueNoTransitions<T>(v: T, vs: seq<T>)
    requires forall k :: 0 <= k < |vs| ==> vs[k] == v
    ensures Transitions(Some(v), vs) == []
    decreases |vs|
  {
    if vs != [] {
      RepeatedValueNoTransitions(v, vs[1..]);
    }
  }

  function Cached(f: Field, w: Worker): Option<string> {
    match f
    case TitleField => w.title
    case ArtistField => w.artist
  }

  function Assigned(f: Field, reply: Reply): Option<string> {
    match f
    case TitleField => ReplyTitle(reply)
    case ArtistField => ReplyAuthor(reply)
  }

  /** The values carried by the change notifications of field `f`, in order. */
  function Emitted(f: Field, evs: seq<Event>): seq<string>
    decreases |evs|
  {
    if evs == [] then []
    else
      var head := match f
        case TitleField => if evs[0].TitleChanged? then [evs[0].title] else []
        case ArtistField => if evs[0].ArtistChanged? then [evs[0].artist] else [];
      head + Emitted(f, evs[1..])
  }

  lemma {:induction false} EmittedAppend(f: Field, a: seq<Event>, b: seq<Event>)
    ensures Emitted(f, a + b) == Emitted(f, a) + Emitted(f, b)
    decreases |a|
  {
    if a == [] {
      assert a + b == b;
    } else {
      assert (a + b)[0] == a[0];
      assert (a + b)[1..] == a[1..] + b;
      EmittedAppend(f, a[1..], b);
    }
  }

  /** The values of field `f` that a sequence of track replies assigns, in order. */
  function AssignedAll(f: Field, rs: seq<Reply>): seq<string>
    decreases |rs|
  {
    if rs == [] then []
    else (if Assigned(f, rs[0]).Some? then [Assigned(f, rs[0]).value] else []) + AssignedAll(f, rs[1..])
  }

  /** The first thumbnail URLs that a sequence of track replies carries, in order. */
  function ThumbnailUrls(rs: seq<Reply>): seq<string>
    decreases |rs|
  {
    if rs == [] then []
    else (if ReplyThumbnailUrl(rs[0]).Some? then [ReplyThumbnailUrl(rs[0]).value] else []) + ThumbnailUrls(rs[1..])
  }

  /** The URLs of the artwork fetches among `reqs`, in issue order. */
  function ArtworkFetches(reqs: seq<Request>): seq<string>
    decreases |reqs|
  {
    if reqs == [] then []
    else (if reqs[0].handler == OnArtwork then [reqs[0].url] else []) + ArtworkFetches(reqs[1..])
  }

  lemma {:induction false} ArtworkFetchesAppend(a: seq<Request>, b: seq<Request>)
    ensures ArtworkFetches(a + b) == ArtworkFetches(a) + ArtworkFetches(b)
    decreases |a|
  {
    if a == [] {
      assert a + b == b;
    } else {
      assert (a + b)[0] == a[0];
      assert (a + b)[1..] == a[1..] + b;
      ArtworkFetchesAppend(a[1..], b);
    }
  }

  /** Handle the track replies `rs` one after another. */
  function HandleTrackReplies(w: Worker, rs: seq<Reply>): Worker
    decreases |rs|
  {
    if rs == [] then w else HandleTrackReplies(HandleTrackReply(w, rs[0]), rs[1..])
  }

  lemma TrackReplyFieldStep(f: Field, w: Worker, reply: Reply)
    ensures var w' := HandleTrackReply(w, reply);
      var v := Assigned(f, reply);
      && Cached(f, w') == (if v.Some? then v else Cached(f, w))
      && Emitted(f, w'.events) == Emitted(f, w.events) + (if v.Some? && v != Cached(f, w) then [v.value] else [])
  {
    TrackReplySpec(w, reply);
    var ct := FieldChanged(ReplyTitle(reply), w.title, TitleField);
    var ca := FieldChanged(ReplyAuthor(reply), w.artist, ArtistField);
    assert HandleTrackReply(w, reply).events == w.events + ct + ca;
    EmittedAppend(f, w.events + ct, ca);
    EmittedAppend(f, w.events, ct);
    EmittedSingle(f, ct);
    EmittedSingle(f, ca);
  }

  /** The notifications a single field change contributes. */
  lemma EmittedSingle(f: Field, evs: seq<Event>)
    requires |evs| <= 1
    ensures Emitted(f, evs) == if |evs| == 1 then
      match f
      case TitleField => if evs[0].TitleChanged? then [evs[0].title] else []
      case ArtistField => if evs[0].ArtistChanged? then [evs[0].artist] else []
    else []
  {
    if |evs| == 1 {
      assert evs[1..] == [];
    }
  }

  /**
   * Over any sequence of track replies, the notifications for the title
   * (and for the artist) carry exactly the assigned values that differ from
   * the value cached just before: none for a repeated value.
   */
  lemma {:induction false} TrackRepliesEmitOnChange(f: Field, w: Worker, rs: seq<Reply>)
    ensures Emitted(f, HandleTrackReplies(w, rs).events)
         == Emitted(f, w.events) + Transitions(Cached(f, w), AssignedAll(f, rs))
    decreases |rs|
  {
    if rs != [] {
      var w1 := HandleTrackReply(w, rs[0]);
      var v := Assigned(f, rs[0]);
      TrackReplyFieldStep(f, w, rs[0]);
      TrackRepliesEmitOnChange(f, w1, rs[1..]);
      assert AssignedAll(f, rs) == (if v.Some? then [v.value] else []) + AssignedAll(f, rs[1..]);
      if v.Some? {
        TransitionsCons(Cached(f, w), v.value, AssignedAll(f, rs[1..]));
      } else {
        assert AssignedAll(f, rs) == AssignedAll(f, rs[1..]);
      }
    }
  }

  /**
   * Over any sequence of track replies, an artwork fetch is issued exactly
   * for each first-thumbnail URL that differs from the one cached just
   * before, in order.
   */
  lemma {:induction false} TrackRepliesFetchOnChange(w: Worker, rs: seq<Reply>)
    ensures ArtworkFetches(HandleTrackReplies(w, rs).requests)
         == ArtworkFetches(w.requests) + Transitions(w.artworkUrl, ThumbnailUrls(rs))
    decreases |rs|
  {
    if rs != [] {
      var w1 := HandleTrackReply(w, rs[0]);
      TrackReplySpec(w, rs[0]);
      var u := ReplyThumbnailUrl(rs[0]);
      var added := if u.Some? && u != w.artworkUrl then [Request(Get, u.value, None, OnArtwork, Running)] else [];
      ArtworkFetchesAppend(w.requests, added);
      assert ArtworkFetches(added) == if u.Some? && u != w.artworkUrl then [u.value] else [];
      TrackRepliesFetchOnChange(w1, rs[1..]);
      assert ThumbnailUrls(rs) == (if u.Some? then [u.value] else []) + ThumbnailUrls(rs[1..]);
      if u.Some? {
        TransitionsCons(w.artworkUrl, u.value, ThumbnailUrls(rs[1..]));
      } else {
        assert ThumbnailUrls(rs) == ThumbnailUrls(rs[1..]);
      }
    }
  }

  function TrackReply(title: string, author: string): Reply {
    Succeeded([], Object(Payload(Some(Video(Some(title), Some(author), None)), None, None, None, None)))
  }

  /**
   * Replies {title A, author B}, {A, B}, {C, B} on a fresh worker: the
   * second emits nothing, the third only the title change to C.
   */
  lemma RepeatedPayloadScenario(server: string)
    ensures HandleTrackReplies(Init(server), [TrackReply("A", "B"), TrackReply("A", "B"), TrackReply("C", "B")]).events
         == [TitleChanged("A"), ArtistChanged("B"), TitleChanged("C")]
  {
    var r1, r3 := TrackReply("A", "B"), TrackReply("C", "B");
    var w1 := HandleTrackReply(Init(server), r1);
    TrackReplySpec(Init(server), r1);
    TrackReplySpec(w1, r1);
    TrackReplySpec(w1, r3);
    assert HandleTrackReplies(Init(server), [r1, r1, r3]) == HandleTrackReplies(w1, [r1, r3]);
    assert HandleTrackReplies(w1, [r1, r3]) == HandleTrackReplies(w1, [r3]);
  }
}
