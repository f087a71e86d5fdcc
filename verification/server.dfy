/** The bridge's HTTP handlers: `/metadata` serves the last-seen event, and
    `/image` parses its query and proxies one blob from the image store. */
module Server {
  import opened Wrappers
  import opened Messages
  import opened Text

  const Get: string := "GET"
  const PostMethod: string := "POST"
  /** Status written explicitly, and also the status net/http sends when a
      handler writes none. */
  const StatusOK: int := 200
  const MetadataContentType: string := "text/json"
  const ImageContentType: string := "image/jpeg; charset=utf-8"
  const PostNotice: string := "Received a POST request"
  const UnsupportedNotice: string := "Sorry, only GET and POST methods are supported."
  /** The query key that names the image handle. */
  const HandleKey: string := "img_handle"
  const QuerySeparator: char := '='

  /** Body of a reply: raw bytes, a plain text message, or the JSON encoding
      of the last-seen metadata (nil before the first message). */
  datatype Body = Raw(bytes: seq<byte>) | Notice(text: string) | Json(value: Option<Metadata>)

  /** A reply: the status passed to `WriteHeader`, if the handler called it,
      the content type header, and the body. */
  datatype Reply = Reply(explicitStatus: Option<int>, contentType: string, body: Body)

  /** A handler either replies or panics; net/http recovers the panic and
      drops the connection without a reply. */
  datatype Outcome = Replied(reply: Reply) | Aborted

  /** Why parsing the `/image` query fails. */
  datatype QueryError = MissingSeparator

  /** The status the client receives: the one the handler wrote, or 200
      when it wrote none (net/http's default). */
  function WireStatus(r: Reply): (s: int)
    ensures r.explicitStatus.Some? ==> s == r.explicitStatus.value
    ensures r.explicitStatus.None? ==> s == StatusOK
  {
    r.explicitStatus.GetOr(StatusOK)
  }

  /** The `/metadata` handler. Only GET writes a status and the JSON body; any
      other method gets the default status with an empty body. */
  function HandleMetadata(verb: string, lastSeen: Option<Metadata>): (r: Reply)
    ensures r.contentType == MetadataContentType
    ensures r.explicitStatus.Some? <==> verb == Get
    ensures r.body == if verb == Get then Json(lastSeen) else Raw([])
    ensures WireStatus(r) == StatusOK
  {
    if verb == Get then Reply(Some(StatusOK), MetadataContentType, Json(lastSeen))
    else Reply(None, MetadataContentType, Raw([]))
  }

  /** The `/image` query parsing: split on '=', store the second piece under
      the first in a one-entry map, and look up "img_handle" (empty when
      absent). Indexing the second piece fails when there is no '='. */
  function ParseImageQuery(rawQuery: string): (r: Result<string, QueryError>)
    ensures r.Failure? <==> QuerySeparator !in rawQuery
    ensures r.Success? ==> QuerySeparator !in r.value
  {
    var pieces := Split(rawQuery, QuerySeparator);
    if |pieces| < 2 then
      assert Count(rawQuery, QuerySeparator) == 0;
      NoSeparatorCounted(rawQuery, QuerySeparator);
      Failure(MissingSeparator)
    else
      assert Count(rawQuery, QuerySeparator) > 0;
      NoSeparatorCounted(rawQuery, QuerySeparator);
      SplitPiecesExcludeSeparator(rawQuery, QuerySeparator);
      var img := map[pieces[0] := pieces[1]];
      Success(if HandleKey in img then img[HandleKey] else "")
  }

  /** A character is absent exactly when it is counted zero times. */
  lemma {:induction false} NoSeparatorCounted(s: string, c: char)
    ensures c !in s <==> Count(s, c) == 0
  {
    if |s| != 0 {
      NoSeparatorCounted(s[1..], c);
      assert s == [s[0]] + s[1..];
    }
  }

  /** A query "key=rest", where the key has no '=', yields the handle only
      when the key is "img_handle", and then the handle is `rest` up to its
      next '='; whatever follows is ignored. */
  lemma ParseKeyValue(key: string, rest: string)
    requires QuerySeparator !in key
    ensures ParseImageQuery(key + [QuerySeparator] + rest)
      == Success(if key == HandleKey then Split(rest, QuerySeparator)[0] else "")
  {
    SplitAround(key, QuerySeparator, rest);
    SplitNoSeparator(key, QuerySeparator);
  }

  /** Round trip: the query "img_handle=h" yields the handle h. */
  lemma ParseHandleQuery(handle: string)
    requires QuerySeparator !in handle
    ensures ParseImageQuery(HandleKey + "=" + handle) == Success(handle)
  {
    ParseKeyValue(HandleKey, handle);
    SplitNoSeparator(handle, QuerySeparator);
  }

  /** Pieces after the second are ignored. */
  lemma TrailingPiecesIgnored(key: string, value: string, trailing: string)
    requires QuerySeparator !in key && QuerySeparator !in value
    ensures ParseImageQuery(key + [QuerySeparator] + value + [QuerySeparator] + trailing)
      == ParseImageQuery(key + [QuerySeparator] + value)
  {
    ParseKeyValue(key, value + [QuerySeparator] + trailing);
    ParseKeyValue(key, value);
    SplitAround(value, QuerySeparator, trailing);
    SplitNoSeparator(value, QuerySeparator);
    assert key + [QuerySeparator] + value + [QuerySeparator] + trailing
      == key + [QuerySeparator] + (value + [QuerySeparator] + trailing);
  }

  /** The read command sent to the image store for a handle. */
  type StoreRequest = map<string, string>

  /** How the request/response exchange with the image store went. */
  datatype RoundTrip = RequestFailed | ResponseFailed | Responded(blobs: seq<seq<byte>>)

  /** What `readImage` hands back: the first blob of the response, nil after
      a failed exchange, or a panic when the response holds no blob. */
  datatype ImageRead = Frame(bytes: seq<byte>) | NoFrame | Panicked

  /** The read command for `handle`. */
  function ReadCommand(handle: string): (r: StoreRequest)
    ensures r.Keys == {"command", HandleKey}
    ensures r["command"] == "read" && r[HandleKey] == handle
  {
    map["command" := "read", HandleKey := handle]
  }

  /** `readImage`: send the read command for the handle and return the first
      blob of the response; nothing when either half of the exchange fails. */
  function ReadImage(handle: string, store: StoreRequest -> RoundTrip): (r: ImageRead)
    ensures var rt := store(map["command" := "read", "img_handle" := handle]);
      && (r == NoFrame <==> rt.RequestFailed? || rt.ResponseFailed?)
      && (r.Frame? <==> rt.Responded? && |rt.blobs| > 0)
      && (r.Frame? ==> r.bytes == rt.blobs[0])
  {
    match store(ReadCommand(handle))
    case RequestFailed => NoFrame
    case ResponseFailed => NoFrame
    case Responded(blobs) => if |blobs| == 0 then Panicked else Frame(blobs[0])
  }

  /** The `/image` handler. */
  function HandleImage(verb: string, rawQuery: string, store: StoreRequest -> RoundTrip): (o: Outcome)
    ensures o.Replied? ==> o.reply.contentType == ImageContentType && WireStatus(o.reply) == StatusOK
    ensures verb == PostMethod ==> o == Replied(Reply(None, ImageContentType, Notice(PostNotice)))
    ensures verb != Get && verb != PostMethod ==> o == Replied(Reply(None, ImageContentType, Notice(UnsupportedNotice)))
    ensures verb == Get && QuerySeparator !in rawQuery ==> o == Aborted
  {
    if verb == Get then
      match ParseImageQuery(rawQuery)
      case Failure(_) => Aborted
      case Success(handle) =>
        match ReadImage(handle, store)
        case Frame(bytes) => Replied(Reply(Some(StatusOK), ImageContentType, Raw(bytes)))
        case NoFrame => Replied(Reply(Some(StatusOK), ImageContentType, Raw([])))
        case Panicked => Aborted
    else if verb == PostMethod then Replied(Reply(None, ImageContentType, Notice(PostNotice)))
    else Replied(Reply(None, ImageContentType, Notice(UnsupportedNotice)))
  }

  /** A GET whose query contains '=' asks the store for the parsed handle
      (the empty handle when the key is not "img_handle") and returns status
      200 with exactly the store's first blob, status 200 with an empty body
      when the exchange fails, and aborts when the store answers no blob. */
  lemma ImageProxy(rawQuery: string, store: StoreRequest -> RoundTrip)
    requires QuerySeparator in rawQuery
    ensures var handle := ParseImageQuery(rawQuery).value;
      var o := HandleImage(Get, rawQuery, store);
      var rt := store(ReadCommand(handle));
      && (rt.Responded? && |rt.blobs| > 0 ==> o == Replied(Reply(Some(StatusOK), ImageContentType, Raw(rt.blobs[0]))))
      && (rt.RequestFailed? || rt.ResponseFailed? ==> o == Replied(Reply(Some(StatusOK), ImageContentType, Raw([]))))
      && (rt.Responded? && |rt.blobs| == 0 ==> o == Aborted)
  {
  }

  /** A query whose key is not "img_handle" asks the store for the empty
      handle. */
  lemma ForeignKeyAsksEmptyHandle(key: string, rest: string, store: StoreRequest -> RoundTrip)
    requires QuerySeparator !in key && key != HandleKey
    ensures HandleImage(Get, key + [QuerySeparator] + rest, store)
      == HandleImage(Get, HandleKey + [QuerySeparator], store)
  {
    ParseKeyValue(key, rest);
    ParseKeyValue(HandleKey, "");
    assert HandleKey + [QuerySeparator] + "" == HandleKey + [QuerySeparator];
    assert Split("", QuerySeparator) == [""];
  }

  /** Only GET reaches the image store: for any other method the outcome is
      the same whatever the store would answer. */
  lemma NonGetIgnoresStore(verb: string, rawQuery: string, s1: StoreRequest -> RoundTrip, s2: StoreRequest -> RoundTrip)
    requires verb != Get
    ensures HandleImage(verb, rawQuery, s1) == HandleImage(verb, rawQuery, s2)
  {
  }
}
