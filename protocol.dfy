/**
 * What the status client exchanges with the outside world: the change
 * notifications it emits, the HTTP requests it issues, and the decoded
 * replies the server sends back.  Turning reply text into a `Json` value is
 * left abstract: a reply arrives already decoded (or marked as malformed).
 */
module Protocol {
  import opened Wrappers

  type byte = b: int | 0 <= b < 256

  /** An image loaded from a reply body; decoding is not modelled, the pixmap keeps its bytes. */
  datatype Pixmap = Pixmap(data: seq<byte>)

  /** The worker's signals, one constructor per signal, carrying the emitted value. */
  datatype Event =
    | TitleChanged(title: string)
    | ArtistChanged(artist: string)
    | PlayStateChanged(playing: bool)
    | LikeStateChanged(liked: bool)
    | DislikeStateChanged(disliked: bool)
    | ArtworkChanged(artwork: Pixmap)

  datatype Verb = Get | Post

  /** The slot a request's reply is delivered to. */
  datatype Handler =
    | OnTrack       // the track reply handler
    | OnState       // the state reply handler
    | OnPlayPause   // the play/pause reply handler
    | OnRefresh     // a callback that ignores the reply and refreshes the status
    | OnArtwork     // the artwork reply handler

  /**
   * What querying a reply handle for completion yields: still running,
   * finished, or the underlying object already deleted (the query raises,
   * and the handle counts as finished).
   */
  datatype Status = Running | Finished | Deleted

  /**
   * One request handed to the network access manager.  `key` is the endpoint
   * the request is recorded under in the table of active requests, or None
   * for an artwork fetch, which is never recorded there.
   */
  datatype Request = Request(verb: Verb, url: string, key: Option<string>, handler: Handler, status: Status)

  /** `video.thumbnail.thumbnails`: a list whose items may or may not have a `url` key, or some other value. */
  datatype ThumbList = Items(urls: seq<Option<string>>) | NotAList
  datatype Thumbnail = Thumbnail(thumbnails: Option<ThumbList>)
  datatype Video = Video(title: Option<string>, author: Option<string>, thumbnail: Option<Thumbnail>)

  /** A decoded JSON object; every key the client looks at may be missing. */
  datatype Payload = Payload(
    video: Option<Video>,
    playing: Option<bool>,
    liked: Option<bool>,
    disliked: Option<bool>,
    isPlaying: Option<bool>)

  /**
   * The result of decoding a reply body: text that is not JSON, a falsy
   * value (null, false, 0, "", [], {}), or an object.
   */
  datatype Json = Malformed | Falsy | Object(payload: Payload)

  /** A finished reply: an HTTP failure, or a success with its raw body and that body decoded. */
  datatype Reply = Failed | Succeeded(raw: seq<byte>, json: Json)
}
