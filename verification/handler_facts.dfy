/**
 * End-to-end properties of the HTTP layer: which status a request gets in
 * terms of the raw query or update object and the store, and what it does
 * to the store.
 */
module HandlerFacts {
  import opened Wrappers
  import opened Text
  import opened Dates
  import opened Params
  import Repository
  import opened Services
  import opened ServiceFacts
  import opened Handlers

  /**
   * GET /songs panics exactly when a valid request's listing fails with the
   * text "incorrect date format" and the query has no "releasedate" to
   * echo: the validation's own date error always has one.
   */
  lemma ListAborts(query: Query, order: seq<string>, listing: Query -> Result<seq<Repository.SongData>, string>)
    requires WellFormed(query) && Enumerates(order, query.Keys)
    ensures HandleList(query, order, listing).Aborted? <==>
              ListValid(query) && listing(Normalize(query)) == Err(BadDate) && "releasedate" !in query
  {
    GetSongsListing(query, order, listing);
    ListCheckPasses(query, order);
    var g := GetSongs(query, order, listing);
    if g.Err? && g.error.message == BadDate && "releasedate" !in query {
      ListDateReported(query, order);
    }
  }

  /** The validation reports a bad date only for a query that has one. */
  lemma ListDateReported(query: Query, order: seq<string>)
    requires WellFormed(query) && Enumerates(order, query.Keys)
    ensures ListCheck(query, order).Some? && ListCheck(query, order).value.message == BadDate ==> "releasedate" in query
  {
  }

  /** GET /songs answers 200 exactly for valid requests whose listing succeeds, with those songs written out. */
  lemma ListAnswers(query: Query, order: seq<string>, listing: Query -> Result<seq<Repository.SongData>, string>)
    requires WellFormed(query) && Enumerates(order, query.Keys)
    ensures var r := HandleList(query, order, listing);
            && (r.Response? && r.status == StatusOK <==> ListValid(query) && listing(Normalize(query)).Ok?)
            && (r.Response? && r.status == StatusOK ==> r.payload == Songs(DateToString(listing(Normalize(query)).value)))
  {
    GetSongsListing(query, order, listing);
  }

  /**
   * A GET whose only fault is its release date is 400 and echoes the first
   * comma-separated segment of the raw value, the one that was validated.
   */
  lemma DateEcho(query: Query, order: seq<string>, listing: Query -> Result<seq<Repository.SongData>, string>)
    requires WellFormed(query) && Enumerates(order, query.Keys)
    requires query.Keys <= ListKeys && NumberRule(query, "page") && NumberRule(query, "onpage") && !DateRule(query)
    ensures HandleList(query, order, listing) ==
              HttpError("Invalid date format: " + FirstSegment(query["releasedate"][0]), StatusBadRequest)
  {
    ListDate(query, order);
    assert GetSongs(query, order, listing) == Err(Failure(BadDate, []));
    assert HandleList(query, order, listing) == ListError(Failure(BadDate, []), query);
    DateError(query);
  }

  /** The GET table's answer to a bad date, for a query that has one. */
  lemma DateError(query: Query)
    requires WellFormed(query) && "releasedate" in query
    ensures ListError(Failure(BadDate, []), query) ==
              HttpError("Invalid date format: " + FirstSegment(query["releasedate"][0]), StatusBadRequest)
  {
  }

  /** A DELETE with keys besides song and group is 400 and lists them; the store is kept. */
  lemma DeleteUnexpected(query: Query, order: seq<string>, req: RequiredOrder,
                         store: Repository.Store, faults: Repository.Faults)
    requires WellFormed(query) && Enumerates(order, query.Keys) && !(query.Keys <= SongKeys)
    ensures HandleDelete(query, order, req, store, faults) ==
              Outcome(HttpError(UnexpectedMessage(Unexpected(order, SongKeys)), StatusBadRequest), store)
  {
    DeleteOutcome(query, order, req, store, faults);
  }

  /**
   * A valid DELETE, with the lookup working: 404 when the song is not
   * stored; otherwise 200 and the entry removed, unless the delete
   * statement fails (500, or 404 should its error read "song does not exist").
   */
  lemma DeleteAnswers(query: Query, order: seq<string>, req: RequiredOrder,
                      store: Repository.Store, faults: Repository.Faults)
    requires WellFormed(query) && Enumerates(order, query.Keys) && DeleteValid(query) && faults.lookup.None?
    ensures var key := Repository.Key(query["song"][0], query["group"][0]);
            var o := HandleDelete(query, order, req, store, faults);
            && (key !in store ==> o == Outcome(HttpError(NotFoundMessage, StatusNotFound), store))
            && (key in store && faults.write.None? ==> o == Outcome(Done("Song deleted"), store - {key}))
            && (key in store && faults.write.Some? ==>
                  o.store == store && o.response.status == if faults.write.value == Repository.DoesNotExist then StatusNotFound else StatusInternalServerError)
  {
    DeleteOutcome(query, order, req, store, faults);
    var key := Repository.Key(query["song"][0], query["group"][0]);
    if key in store && faults.write.None? {
      var s1 := DeleteSong(query, order, req, store, faults).value;
      assert s1.Keys == (store - {key}).Keys;
      assert s1 == store - {key};
    }
  }

  /**
   * A PATCH update object with song and group and whitelisted keys, whose
   * date (if any) reads with the lenient layout, against a working store:
   * 404 when the song is not stored, otherwise 200 and the stored entry
   * merged with the update.
   */
  lemma UpdateAnswers(fields: map<string, string>, order: seq<string>, req: RequiredOrder, store: Repository.Store)
    requires Enumerates(order, fields.Keys) && UpdateKeysValid(fields)
    requires "releasedate" in fields ==> ParseDate(Lenient, fields["releasedate"]).Some?
    ensures var key := Repository.Key(fields["song"], fields["group"]);
            var data := Repository.SongData(fields["song"], fields["group"], SentDate(fields), Field(fields, "text"), Field(fields, "link"));
            var o := HandleUpdate(Object(fields), order, req, store, Repository.Faults(None, None, None));
            && (key !in store ==> o == Outcome(HttpError(NotFoundMessage, StatusNotFound), store))
            && (key in store ==> o == Outcome(Done("Song data updated"), store[key := Repository.Merge(store[key], data)]))
  {
    var faults := Repository.Faults(None, None, None);
    UpdateReaches(fields, order, req, store, faults);
    var key := Repository.Key(fields["song"], fields["group"]);
    if key in store {
      var data := Repository.SongData(fields["song"], fields["group"], SentDate(fields), Field(fields, "text"), Field(fields, "link"));
      var s1 := Repository.UpdateSong(store, data, faults).value;
      var expected := store[key := Repository.Merge(store[key], data)];
      assert s1.Keys == expected.Keys;
      assert s1 == expected;
    }
  }

  /**
   * A PATCH whose release date the lenient layout rejects (the empty string
   * included) is 400 with the service's own message; the store is kept.
   */
  lemma UpdateBadDate(fields: map<string, string>, order: seq<string>, req: RequiredOrder,
                      store: Repository.Store, faults: Repository.Faults)
    requires Enumerates(order, fields.Keys) && UpdateKeysValid(fields)
    requires "releasedate" in fields && ParseDate(Lenient, fields["releasedate"]).None?
    ensures HandleUpdate(Object(fields), order, req, store, faults) == Outcome(HttpError(BadDate, StatusBadRequest), store)
  {
    UpdateChecks(fields, order, req, store, faults);
  }

  /** A PATCH object with whitelisted keys but no song is 400 naming the missing key, when the group is there. */
  lemma UpdateMissingSong(fields: map<string, string>, order: seq<string>, req: RequiredOrder,
                          store: Repository.Store, faults: Repository.Faults)
    requires Enumerates(order, fields.Keys) && fields.Keys <= UpdateKeys && "song" !in fields && "group" in fields
    ensures HandleUpdate(Object(fields), order, req, store, faults) == Outcome(HttpError(Required("song"), StatusBadRequest), store)
  {
    PresenceReport(fields.Keys, order, UpdateKeys, req);
    UpdateChecks(fields, order, req, store, faults);
  }

  /**
   * A POST with exactly song and group: a failed lookup is 500 "Failed to
   * get song info"; a song already stored is 400 "Song already exists";
   * either way the store is kept.
   */
  lemma AddAnswers(query: Query, order: seq<string>, req: RequiredOrder,
                   info: (string, string) -> Result<Wire, string>,
                   store: Repository.Store, faults: Repository.Faults)
    requires WellFormed(query) && Enumerates(order, query.Keys) && AddKeysValid(query)
    ensures var song, group := query["song"][0], query["group"][0];
            var o := HandleAdd(query, order, req, info, store, faults);
            && (info(song, group).Err? ==> o == Outcome(HttpError("Failed to get song info", StatusInternalServerError), store))
            && (info(song, group).Ok? && faults.lookup.None? && Repository.Key(song, group) in store ==>
                  o == Outcome(HttpError("Song already exists", StatusBadRequest), store))
  {
    AddReaches(query, order, req, info, store, faults);
    AddOutcome(query, order, req, info, store, faults);
  }

  /** A song added through POST and deleted through DELETE with the same query leaves the store as it was. */
  lemma AddThenDelete(query: Query, order: seq<string>, req: RequiredOrder,
                      info: (string, string) -> Result<Wire, string>,
                      store: Repository.Store, faults: Repository.Faults)
    requires WellFormed(query) && Enumerates(order, query.Keys) && DeleteValid(query)
    requires HandleAdd(query, order, req, info, store, faults).response.status == StatusOK
    ensures HandleDelete(query, order, req, HandleAdd(query, order, req, info, store, faults).store, faults) ==
              Outcome(Done("Song deleted"), store)
  {
    var song, group := query["song"][0], query["group"][0];
    AddReaches(query, order, req, info, store, faults);
    var data := StringToDate(info(song, group).value.(song := song, group := group));
    var s1 := Repository.AddSong(store, data, faults).value;
    Repository.AddThenDelete(store, data, faults, s1);
    DeleteOutcome(query, order, req, s1, faults);
  }

  /**
   * GET /text on a valid request against a working store: 404 when the
   * song is not stored, otherwise 200 with the whole text, or the verse
   * asked for.
   */
  lemma TextAnswers(request: Request, order: seq<string>, req: RequiredOrder,
                    store: Repository.Store, faults: Repository.Faults)
    requires request.verb == Get && WellFormed(request.query) && Enumerates(order, request.query.Keys)
    requires TextValid(request.query) && faults.lookup.None? && faults.read.None?
    ensures var q := request.query;
            var key := Repository.Key(q["song"][0], q["group"][0]);
            var r := TextHandler(request, order, req, store, faults);
            && (key !in store ==> r == HttpError(NotFoundMessage, StatusNotFound))
            && (key in store && "verse" !in q ==> r == Response(StatusOK, Lyrics(store[key].text)))
            && (key in store && "verse" in q ==> r == Response(StatusOK, Lyrics(SelectVerse(store[key].text, Numbers.DecimalValue(q["verse"][0])))))
  {
    GetTextOutcome(request.query, order, req, store, faults);
  }
}
