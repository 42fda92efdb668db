/**
 * The HTTP layer (handlers.go): `/songs` dispatches on the request method
 * to the list, delete, update and add services, `/text` serves lyrics, and
 * every service failure becomes a status code and a plain-text body the
 * way `http.Error` writes it (the message and a newline).
 */
module Handlers {
  import opened Wrappers
  import opened Text
  import opened Params
  import Repository
  import opened Services

  datatype Method = Get | Post | Patch | Delete | Other(name: string)

  /**
   * The PATCH body as `io.ReadAll` and `json.Unmarshal` into a
   * `map[string]string` leave it: unreadable, not a JSON object of strings
   * (or not JSON at all), or the decoded object.
   */
  datatype Body = Unreadable | Malformed | Object(fields: map<string, string>)

  /** A request: its method, its parsed URL query and its body. */
  datatype Request = Request(verb: Method, query: Query, body: Body)

  /** What a response carries: a JSON list of songs, a JSON string of lyrics, or plain text. */
  datatype Payload = Songs(songs: seq<Wire>) | Lyrics(text: string) | Plain(text: string)

  /**
   * A response, or `Aborted` when the handler panics (indexing the missing
   * "releasedate" of a query; the server then drops the connection).
   */
  datatype Response = Response(status: int, payload: Payload) | Aborted

  /** The response together with the store as the request leaves it. */
  datatype Outcome = Outcome(response: Response, store: Repository.Store)

  const StatusOK: int := 200
  const StatusBadRequest: int := 400
  const StatusNotFound: int := 404
  const StatusMethodNotAllowed: int := 405
  const StatusInternalServerError: int := 500

  /** An error answer is plain text ending in the newline `http.Error` appends. */
  predicate Erroneous(r: Response)
  {
    r.Response? && r.status != StatusOK ==> r.payload.Plain? && EndsWith(r.payload.text, "\n")
  }

  /** `http.Error`: the status code and the message followed by a newline. */
  function HttpError(message: string, code: int): (r: Response)
    requires code != StatusOK
    ensures r.Response? && r.status == code && r.payload.Plain?
    ensures Erroneous(r) && |r.payload.text| == |message| + 1 && r.payload.text[..|message|] == message
  {
    EndsWithAppend(message, "\n");
    Response(code, Plain(message + "\n"))
  }

  /** A plain 200 answer. */
  function Done(text: string): Response
  {
    Response(StatusOK, Plain(text))
  }

  /** The body of the 400 answer to unexpected keys. */
  function UnexpectedMessage(keys: seq<string>): string
  {
    "Unexpected parameters: " + Join(keys, ", ")
  }

  const NotFoundMessage: string := "Song does not exist"

  /**
   * The GET error table (lines 26-49). The date echo indexes the query
   * map that `GetSongs` rewrote in place, so it shows the first
   * comma-separated segment of the raw value; with no "releasedate" at all
   * the index panics.
   */
  function ListError(f: Failure, query: Query): (r: Response)
    requires WellFormed(query)
    ensures r.Aborted? <==> f.message == BadDate && "releasedate" !in query
    ensures r.Response? ==> r.status in {StatusBadRequest, StatusInternalServerError} && Erroneous(r)
    ensures r.Response? && r.status == StatusInternalServerError <==>
              f.message !in {UnexpectedParams, PageNotNumber, OnlyOne("page"), OnlyOne("onpage"), OnpageNotNumber, BadDate}
  {
    if f.message == UnexpectedParams then HttpError(UnexpectedMessage(f.unexpected), StatusBadRequest)
    else if f.message == PageNotNumber then HttpError("\"page\" requires a positive number", StatusBadRequest)
    else if f.message == OnlyOne("page") then HttpError(OnlyOne("page"), StatusBadRequest)
    else if f.message == OnlyOne("onpage") then HttpError(OnlyOne("onpage"), StatusBadRequest)
    else if f.message == OnpageNotNumber then HttpError("\"onpage\" requires a positive number", StatusBadRequest)
    else if f.message == BadDate then
      if "releasedate" in query then HttpError("Invalid date format: " + FirstSegment(query["releasedate"][0]), StatusBadRequest)
      else Aborted
    else HttpError("Failed to get music list ", StatusInternalServerError)
  }

  /**
   * The error table shared by DELETE, PATCH and `/text` (lines 60-74,
   * 97-111, 152-166): unexpected keys and any validation message are 400,
   * the operation's own storage failure is 500, a missing song is 404.
   */
  function StorageError(f: Failure, failed: string, answer: string): (r: Response)
    requires failed != UnexpectedParams && failed != Repository.DoesNotExist
    ensures r.Response? && Erroneous(r)
    ensures r.status == StatusNotFound <==> f.message == Repository.DoesNotExist
    ensures r.status == StatusInternalServerError <==> f.message == failed
    ensures r.status == StatusBadRequest <==> f.message != failed && f.message != Repository.DoesNotExist
  {
    if f.message == UnexpectedParams then HttpError(UnexpectedMessage(f.unexpected), StatusBadRequest)
    else if f.message == failed then HttpError(answer, StatusInternalServerError)
    else if f.message == Repository.DoesNotExist then HttpError(NotFoundMessage, StatusNotFound)
    else HttpError(f.message, StatusBadRequest)
  }

  /**
   * The POST error table (lines 120-137): the two failures of the
   * service itself are 500, everything else, an existing song included, 400.
   */
  function AddError(f: Failure): (r: Response)
    ensures r.Response? && Erroneous(r)
    ensures r.status == StatusInternalServerError <==> f.message == FailedAdd || f.message == FailedInfo
    ensures r.status == StatusBadRequest <==> f.message != FailedAdd && f.message != FailedInfo
  {
    if f.message == UnexpectedParams then HttpError(UnexpectedMessage(f.unexpected), StatusBadRequest)
    else if f.message == FailedAdd then HttpError("Failed to add song", StatusInternalServerError)
    else if f.message == FailedInfo then HttpError("Failed to get song info", StatusInternalServerError)
    else if f.message == Repository.AlreadyExists then HttpError("Song already exists", StatusBadRequest)
    else HttpError(f.message, StatusBadRequest)
  }

  /** GET /songs (lines 22-55): the listed songs with their dates written out, or the error answer. */
  function HandleList(query: Query, order: seq<string>,
                      listing: Query -> Result<seq<Repository.SongData>, string>): (r: Response)
    requires WellFormed(query) && Enumerates(order, query.Keys)
    ensures r.Response? && r.status == StatusOK <==> GetSongs(query, order, listing).Ok?
    ensures r.Response? && r.status == StatusOK ==> r.payload == Songs(DateToString(GetSongs(query, order, listing).value))
    ensures Erroneous(r)
  {
    match GetSongs(query, order, listing)
    case Err(f) => ListError(f, query)
    case Ok(songs) => Response(StatusOK, Songs(DateToString(songs)))
  }

  /** DELETE /songs (lines 57-79): "Song deleted", or the error answer with the store kept. */
  function HandleDelete(query: Query, order: seq<string>, req: RequiredOrder,
                        store: Repository.Store, faults: Repository.Faults): (o: Outcome)
    requires WellFormed(query) && Enumerates(order, query.Keys)
    ensures o.response.Response? && Erroneous(o.response)
    ensures o.response.status == StatusOK <==> DeleteSong(query, order, req, store, faults).Ok?
    ensures o.response.status == StatusOK ==> o == Outcome(Done("Song deleted"), DeleteSong(query, order, req, store, faults).value)
    ensures o.response.status != StatusOK ==> o.store == store
  {
    match DeleteSong(query, order, req, store, faults)
    case Err(f) => Outcome(StorageError(f, FailedDelete, "Failed to delete song"), store)
    case Ok(s) => Outcome(Done("Song deleted"), s)
  }

  /**
   * PATCH /songs (lines 81-115): an unreadable body or one that is not a
   * JSON object of strings is refused before the service runs; otherwise
   * "Song data updated", or the error answer with the store kept.
   */
  function HandleUpdate(body: Body, order: seq<string>, req: RequiredOrder,
                        store: Repository.Store, faults: Repository.Faults): (o: Outcome)
    requires body.Object? ==> Enumerates(order, body.fields.Keys)
    ensures o.response.Response? && Erroneous(o.response)
    ensures !body.Object? ==> o.response.status == StatusBadRequest && o.store == store
    ensures o.response.status == StatusOK <==> body.Object? && UpdateSong(body.fields, order, req, store, faults).Ok?
    ensures o.response.status == StatusOK ==> o == Outcome(Done("Song data updated"), UpdateSong(body.fields, order, req, store, faults).value)
    ensures o.response.status != StatusOK ==> o.store == store
  {
    match body
    case Unreadable => Outcome(HttpError("Can't read request body", StatusBadRequest), store)
    case Malformed => Outcome(HttpError("Invalid JSON format", StatusBadRequest), store)
    case Object(fields) =>
      match UpdateSong(fields, order, req, store, faults)
      case Err(f) => Outcome(StorageError(f, FailedUpdate, "Failed to update song data"), store)
      case Ok(s) => Outcome(Done("Song data updated"), s)
  }

  /** POST /songs (lines 117-142): "New song added", or the error answer with the store kept. */
  function HandleAdd(query: Query, order: seq<string>, req: RequiredOrder,
                     info: (string, string) -> Result<Wire, string>,
                     store: Repository.Store, faults: Repository.Faults): (o: Outcome)
    requires WellFormed(query) && Enumerates(order, query.Keys)
    ensures o.response.Response? && Erroneous(o.response)
    ensures o.response.status == StatusOK <==> AddSong(query, order, req, info, store, faults).Ok?
    ensures o.response.status == StatusOK ==> o == Outcome(Done("New song added"), AddSong(query, order, req, info, store, faults).value)
    ensures o.response.status != StatusOK ==> o.store == store
  {
    match AddSong(query, order, req, info, store, faults)
    case Err(f) => Outcome(AddError(f), store)
    case Ok(s) => Outcome(Done("New song added"), s)
  }

  /** The map whose iteration order a request's service sees: the PATCH object, else the query. */
  predicate Ordered(request: Request, order: seq<string>)
  {
    if request.verb == Patch && request.body.Object? then Enumerates(order, request.body.fields.Keys)
    else Enumerates(order, request.query.Keys)
  }

  /**
   * `SongsHandler` (lines 21-144). Only a 200 answer to DELETE, PATCH or
   * POST changes the store; every error is plain text ending in a newline;
   * another method gets an empty 200.
   */
  function SongsHandler(request: Request, order: seq<string>, req: RequiredOrder,
                        listing: Query -> Result<seq<Repository.SongData>, string>,
                        info: (string, string) -> Result<Wire, string>,
                        store: Repository.Store, faults: Repository.Faults): (o: Outcome)
    requires WellFormed(request.query) && Ordered(request, order)
    ensures o.response.Response? ==> o.response.status in {StatusOK, StatusBadRequest, StatusNotFound, StatusInternalServerError}
    ensures Erroneous(o.response)
    ensures o.store != store ==> request.verb in {Delete, Patch, Post} && o.response.Response? && o.response.status == StatusOK
    ensures o.response.Aborted? ==> request.verb == Get
    ensures request.verb.Other? ==> o == Outcome(Done(""), store)
  {
    match request.verb
    case Get => Outcome(HandleList(request.query, order, listing), store)
    case Delete => HandleDelete(request.query, order, req, store, faults)
    case Patch => HandleUpdate(request.body, order, req, store, faults)
    case Post => HandleAdd(request.query, order, req, info, store, faults)
    case Other(_) => Outcome(Done(""), store)
  }

  /**
   * `TextHandler` (lines 147-177): GET answers with the lyrics as a JSON
   * string; any other method is 405.
   */
  function TextHandler(request: Request, order: seq<string>, req: RequiredOrder,
                       store: Repository.Store, faults: Repository.Faults): (r: Response)
    requires WellFormed(request.query) && Enumerates(order, request.query.Keys)
    ensures r.Response? && Erroneous(r)
    ensures r.status in {StatusOK, StatusBadRequest, StatusNotFound, StatusMethodNotAllowed, StatusInternalServerError}
    ensures r.status == StatusMethodNotAllowed <==> request.verb != Get
    ensures r.status == StatusOK <==> request.verb == Get && GetText(request.query, order, req, store, faults).Ok?
    ensures r.status == StatusOK ==> r.payload == Lyrics(GetText(request.query, order, req, store, faults).value)
  {
    if request.verb != Get then HttpError("Invalid request method", StatusMethodNotAllowed)
    else match GetText(request.query, order, req, store, faults)
      case Err(f) => StorageError(f, FailedText, "Failed to get songs text")
      case Ok(text) => Response(StatusOK, Lyrics(text))
  }
}
