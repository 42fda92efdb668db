/**
 * Properties of the service layer: what each validation rule lets through
 * and reports, in terms of the raw query before normalisation, and how
 * storage outcomes are rewritten.
 */
module ServiceFacts {
  import opened Wrappers
  import opened Text
  import opened Numbers
  import opened Dates
  import opened Params
  import opened ListQuery
  import Repository
  import opened Services

  /** A raw "page", "onpage" or "verse" value that passes: no comma, and a positive number. */
  predicate NumberRule(params: Query, key: string)
    requires WellFormed(params)
  {
    key in params ==> ',' !in params[key][0] && Positive(params[key][0])
  }

  /** The count rule on the normalised map, read off the raw first value. */
  lemma CountRuleRaw(params: Query, key: string, many: string, notNumber: string)
    requires WellFormed(params)
    ensures key in params && ',' in params[key][0] ==> CountRule(Normalize(params), key, many, notNumber) == Some(many)
    ensures key in params && ',' !in params[key][0] && !Positive(params[key][0]) ==>
              CountRule(Normalize(params), key, many, notNumber) == Some(notNumber)
    ensures NumberRule(params, key) <==> CountRule(Normalize(params), key, many, notNumber).None?
  {
    if key in params {
      NormalizeNoComma(params, key);
    }
  }

  /** The release date of a list request that the lenient layout accepts, read from its first segment. */
  predicate DateRule(params: Query)
    requires WellFormed(params)
  {
    "releasedate" in params ==> ParseDate(Lenient, FirstSegment(params["releasedate"][0])).Some?
  }

  /** A list request that passes every check of `GetSongs`. */
  predicate ListValid(params: Query)
    requires WellFormed(params)
  {
    params.Keys <= ListKeys && NumberRule(params, "page") && NumberRule(params, "onpage") && DateRule(params)
  }

  /**
   * Unexpected keys are reported first: any key outside the list whitelist
   * makes the result "unexpected params" with exactly those keys, before any
   * other check; otherwise no keys are reported.
   */
  lemma ListUnexpected(params: Query, order: seq<string>)
    requires WellFormed(params) && Enumerates(order, params.Keys)
    ensures !(params.Keys <= ListKeys) ==> ListCheck(params, order) == Some(Failure(UnexpectedParams, Unexpected(order, ListKeys)))
    ensures params.Keys <= ListKeys && ListCheck(params, order).Some? ==> ListCheck(params, order).value.unexpected == []
  {
    UnexpectedExactly(order, params.Keys, ListKeys);
  }

  /**
   * The "page" rule: a comma in its value is "'page' requires only 1 value";
   * a single value that is not a number of at least 1 is "page is not a
   * number".
   */
  lemma ListPage(params: Query, order: seq<string>)
    requires WellFormed(params) && Enumerates(order, params.Keys)
    requires params.Keys <= ListKeys
    ensures "page" in params && ',' in params["page"][0] ==> ListCheck(params, order) == Some(Failure(OnlyOne("page"), []))
    ensures "page" in params && ',' !in params["page"][0] && !Positive(params["page"][0]) ==>
              ListCheck(params, order) == Some(Failure(PageNotNumber, []))
  {
    UnexpectedExactly(order, params.Keys, ListKeys);
    CountRuleRaw(params, "page", OnlyOne("page"), PageNotNumber);
  }

  /** The "onpage" rule, checked once "page" has passed, with its own messages. */
  lemma ListOnpage(params: Query, order: seq<string>)
    requires WellFormed(params) && Enumerates(order, params.Keys)
    requires params.Keys <= ListKeys && NumberRule(params, "page")
    ensures "onpage" in params && ',' in params["onpage"][0] ==> ListCheck(params, order) == Some(Failure(OnlyOne("onpage"), []))
    ensures "onpage" in params && ',' !in params["onpage"][0] && !Positive(params["onpage"][0]) ==>
              ListCheck(params, order) == Some(Failure(OnpageNotNumber, []))
  {
    UnexpectedExactly(order, params.Keys, ListKeys);
    CountRuleRaw(params, "page", OnlyOne("page"), PageNotNumber);
    CountRuleRaw(params, "onpage", OnlyOne("onpage"), OnpageNotNumber);
  }

  /**
   * The release-date rule, checked last: only the first comma-separated
   * segment is validated, with the lenient "2.1.2006" layout. A request
   * passes every check exactly when it is `ListValid`.
   */
  lemma ListDate(params: Query, order: seq<string>)
    requires WellFormed(params) && Enumerates(order, params.Keys)
    requires params.Keys <= ListKeys && NumberRule(params, "page") && NumberRule(params, "onpage")
    ensures !DateRule(params) ==> ListCheck(params, order) == Some(Failure(BadDate, []))
    ensures DateRule(params) ==> ListCheck(params, order) == None
  {
    UnexpectedExactly(order, params.Keys, ListKeys);
    CountRuleRaw(params, "page", OnlyOne("page"), PageNotNumber);
    CountRuleRaw(params, "onpage", OnlyOne("onpage"), OnpageNotNumber);
  }

  /** The checks pass exactly on valid requests. */
  lemma ListCheckPasses(params: Query, order: seq<string>)
    requires WellFormed(params) && Enumerates(order, params.Keys)
    ensures ListCheck(params, order).None? <==> ListValid(params)
  {
    ListUnexpected(params, order);
    if params.Keys <= ListKeys {
      CountRuleRaw(params, "page", OnlyOne("page"), PageNotNumber);
      if NumberRule(params, "page") {
        CountRuleRaw(params, "onpage", OnlyOne("onpage"), OnpageNotNumber);
        if NumberRule(params, "onpage") {
          ListDate(params, order);
        }
      }
    }
  }

  /**
   * The listing is consulted exactly for valid requests, on the normalised
   * map; its songs are returned and its error is passed on unchanged.
   */
  lemma GetSongsListing(params: Query, order: seq<string>, listing: Query -> Result<seq<Repository.SongData>, string>)
    requires WellFormed(params) && Enumerates(order, params.Keys)
    ensures GetSongs(params, order, listing).Ok? <==> ListValid(params) && listing(Normalize(params)).Ok?
    ensures ListValid(params) && listing(Normalize(params)).Ok? ==> GetSongs(params, order, listing) == Ok(listing(Normalize(params)).value)
    ensures ListValid(params) && listing(Normalize(params)).Err? ==>
              GetSongs(params, order, listing) == Err(Failure(listing(Normalize(params)).error, []))
  {
    ListCheckPasses(params, order);
  }

  /** A required key fails its check: absent, or (when counted) with several values. */
  predicate Faulty(present: set<string>, many: set<string>, key: string)
  {
    key !in present || key in many
  }

  /**
   * The visiting order of the required keys only matters when both fail:
   * otherwise the report (or its absence) is the same for both orders.
   */
  lemma RequiredOrderIrrelevant(present: set<string>, many: set<string>)
    ensures !(Faulty(present, many, "song") && Faulty(present, many, "group")) ==>
              RequiredRule(present, many, RequiredKeys(SongFirst)) == RequiredRule(present, many, RequiredKeys(GroupFirst))
    ensures Faulty(present, many, "song") && Faulty(present, many, "group") ==>
              RequiredRule(present, many, RequiredKeys(SongFirst)).Some? && RequiredRule(present, many, RequiredKeys(GroupFirst)).Some?
  {
    assert RequiredKeys(SongFirst)[1..] == ["group"];
    assert RequiredKeys(GroupFirst)[1..] == ["song"];
    assert ["group"][1..] == [] && ["song"][1..] == [];
  }

  /** Song and group each present with a first value free of commas. */
  predicate SongAndGroup(params: Query)
    requires WellFormed(params)
  {
    "song" in params && "group" in params && ',' !in params["song"][0] && ',' !in params["group"][0]
  }

  /** The counted required-key check on the normalised map, read off the raw values. */
  lemma RequiredRaw(params: Query, req: RequiredOrder)
    requires WellFormed(params)
    ensures var p := Normalize(params);
            RequiredRule(p.Keys, Multiple(p), RequiredKeys(req)).None? <==> SongAndGroup(params)
  {
    var p := Normalize(params);
    if "song" in params {
      NormalizeNoComma(params, "song");
    }
    if "group" in params {
      NormalizeNoComma(params, "group");
    }
    var keys := RequiredKeys(req);
    if RequiredRule(p.Keys, Multiple(p), keys).None? {
      assert keys[0] in p.Keys && keys[0] !in Multiple(p);
      assert keys[1] in p.Keys && keys[1] !in Multiple(p);
    }
  }

  /** A get-text request that passes every check of `GetText`. */
  predicate TextValid(params: Query)
    requires WellFormed(params)
  {
    params.Keys <= TextKeys && SongAndGroup(params) && NumberRule(params, "verse")
  }

  /**
   * Get-text checks: unexpected keys first, reported exactly; the checks
   * pass exactly on `TextValid` requests; with song and group valid, a
   * comma in "verse" is "'verse' requires only 1 value" and a single value
   * that is not a positive number is "'verse' requires a positive number".
   */
  lemma TextChecks(params: Query, order: seq<string>, req: RequiredOrder)
    requires WellFormed(params) && Enumerates(order, params.Keys)
    ensures !(params.Keys <= TextKeys) ==> TextCheck(params, order, req) == Some(Failure(UnexpectedParams, Unexpected(order, TextKeys)))
    ensures TextCheck(params, order, req).None? <==> TextValid(params)
    ensures params.Keys <= TextKeys && SongAndGroup(params) && "verse" in params ==>
              (',' in params["verse"][0] ==> TextCheck(params, order, req) == Some(Failure(OnlyOne("verse"), [])))
              && (',' !in params["verse"][0] && !Positive(params["verse"][0]) ==>
                    TextCheck(params, order, req) == Some(Failure(VerseNotPositive, [])))
  {
    UnexpectedExactly(order, params.Keys, TextKeys);
    RequiredRaw(params, req);
    CountRuleRaw(params, "verse", OnlyOne("verse"), VerseNotPositive);
  }

  /**
   * A valid get-text request reads the text of its song and group: the
   * whole text without "verse", the verse asked for with it. "song does not
   * exist" passes through and any other storage error becomes "failed to
   * get songs text".
   */
  lemma GetTextOutcome(params: Query, order: seq<string>, req: RequiredOrder,
                       store: Repository.Store, faults: Repository.Faults)
    requires WellFormed(params) && Enumerates(order, params.Keys) && TextValid(params)
    ensures var stored := Repository.GetText(store, params["song"][0], params["group"][0], faults);
            var r := GetText(params, order, req, store, faults);
            && (r.Ok? <==> stored.Ok?)
            && (stored.Ok? && "verse" !in params ==> r.value == stored.value)
            && (stored.Ok? && "verse" in params ==> r.value == SelectVerse(stored.value, DecimalValue(params["verse"][0])))
            && (r.Err? ==> r.error == Failure(if stored.error == Repository.DoesNotExist then Repository.DoesNotExist else FailedText, []))
  {
    TextChecks(params, order, req);
    NormalizeNoComma(params, "song");
    NormalizeNoComma(params, "group");
    if "verse" in params {
      NormalizeNoComma(params, "verse");
    }
  }

  /**
   * Verse selection on lyrics written as verses separated by blank lines:
   * verse v is the v-th of them, and past the last one the result is "".
   */
  lemma VerseOfJoin(verses: seq<string>, v: int)
    requires |verses| >= 1 && v >= 1
    requires forall k | 0 <= k < |verses| - 1 :: EndsCleanly(verses[k], "\n\n")
    requires !Contains(verses[|verses| - 1], "\n\n")
    ensures SelectVerse(Join(verses, "\n\n"), v) == if v <= |verses| then verses[v - 1] else ""
  {
    SplitOfJoin(verses, "\n\n");
  }

  /** A text without a blank line is a single verse: verse 1 is the whole text, verse 2 is empty. */
  lemma SingleVerse(text: string)
    requires !Contains(text, "\n\n")
    ensures SelectVerse(text, 1) == text
    ensures SelectVerse(text, 2) == ""
  {
    SplitSingle(text, "\n\n");
    assert Join(Split(text, "\n\n"), "\n\n") == text;
  }

  /** A delete request that passes every check of `DeleteSong`. */
  predicate DeleteValid(params: Query)
    requires WellFormed(params)
  {
    params.Keys <= SongKeys && SongAndGroup(params)
  }

  /**
   * Delete: unexpected keys first, reported exactly; a valid request
   * deletes exactly its song and group; "song does not exist" passes
   * through and any other storage error becomes "failed to delete song".
   */
  lemma DeleteOutcome(params: Query, order: seq<string>, req: RequiredOrder,
                      store: Repository.Store, faults: Repository.Faults)
    requires WellFormed(params) && Enumerates(order, params.Keys)
    ensures !(params.Keys <= SongKeys) ==> DeleteSong(params, order, req, store, faults) == Err(Failure(UnexpectedParams, Unexpected(order, SongKeys)))
    ensures DeleteSong(params, order, req, store, faults).Ok? ==> DeleteValid(params)
    ensures DeleteValid(params) ==>
              var stored := Repository.DeleteSong(store, params["song"][0], params["group"][0], faults);
              var r := DeleteSong(params, order, req, store, faults);
              && (r.Ok? <==> stored.Ok?)
              && (r.Ok? ==> r.value == stored.value)
              && (r.Err? ==> r.error == Failure(if stored.error == Repository.DoesNotExist then Repository.DoesNotExist else FailedDelete, []))
  {
    UnexpectedExactly(order, params.Keys, SongKeys);
    RequiredRaw(params, req);
    if "song" in params {
      NormalizeNoComma(params, "song");
    }
    if "group" in params {
      NormalizeNoComma(params, "group");
    }
  }

  /** An update object whose keys pass: only whitelisted keys, song and group present. */
  predicate UpdateKeysValid(fields: map<string, string>)
  {
    fields.Keys <= UpdateKeys && "song" in fields && "group" in fields
  }

  /** The presence check passes on whitelisted keys that include song and group. */
  lemma PresencePasses(keys: set<string>, order: seq<string>, allowed: set<string>, req: RequiredOrder)
    requires Enumerates(order, keys) && keys <= allowed && "song" in keys && "group" in keys
    ensures PresenceCheck(keys, order, allowed, req) == None
  {
    UnexpectedExactly(order, keys, allowed);
    RequiredPresence(keys, req);
  }

  /**
   * The presence check: unexpected keys first, reported exactly; then a
   * missing song or group is named, which one depending on the visiting
   * order only when both are missing.
   */
  lemma PresenceReport(keys: set<string>, order: seq<string>, allowed: set<string>, req: RequiredOrder)
    requires Enumerates(order, keys)
    ensures !(keys <= allowed) ==> PresenceCheck(keys, order, allowed, req) == Some(Failure(UnexpectedParams, Unexpected(order, allowed)))
    ensures keys <= allowed && "song" !in keys && "group" in keys ==> PresenceCheck(keys, order, allowed, req) == Some(Failure(Required("song"), []))
    ensures keys <= allowed && "group" !in keys && "song" in keys ==> PresenceCheck(keys, order, allowed, req) == Some(Failure(Required("group"), []))
    ensures keys <= allowed && "song" !in keys && "group" !in keys ==>
              PresenceCheck(keys, order, allowed, req) == Some(Failure(Required(RequiredKeys(req)[0]), []))
  {
    UnexpectedExactly(order, keys, allowed);
    var k := RequiredKeys(req);
    assert k[1..] == [k[1]] && k[1..][1..] == [];
    assert RequiredRule(keys, {}, k[1..]) == if k[1] in keys then None else Some(Required(k[1]));
  }

  /** With song and group present, the presence-only required check passes whatever the order. */
  lemma RequiredPresence(keys: set<string>, req: RequiredOrder)
    requires "song" in keys && "group" in keys
    ensures RequiredRule(keys, {}, RequiredKeys(req)) == None
  {
    var k := RequiredKeys(req);
    assert k[0] in keys && k[1] in keys;
  }

  /**
   * Update checks: the presence check's failure is the result; then a
   * release date the lenient layout rejects, the empty string included, is
   * "incorrect date format".
   */
  lemma UpdateChecks(fields: map<string, string>, order: seq<string>, req: RequiredOrder,
                     store: Repository.Store, faults: Repository.Faults)
    requires Enumerates(order, fields.Keys)
    ensures PresenceCheck(fields.Keys, order, UpdateKeys, req).Some? ==>
              UpdateSong(fields, order, req, store, faults) == Err(PresenceCheck(fields.Keys, order, UpdateKeys, req).value)
    ensures UpdateKeysValid(fields) && "releasedate" in fields && ParseDate(Lenient, fields["releasedate"]).None? ==>
              UpdateSong(fields, order, req, store, faults) == Err(Failure(BadDate, []))
    ensures UpdateKeysValid(fields) && "releasedate" in fields && fields["releasedate"] == "" ==>
              UpdateSong(fields, order, req, store, faults) == Err(Failure(BadDate, []))
  {
    if UpdateKeysValid(fields) {
      PresencePasses(fields.Keys, order, UpdateKeys, req);
    }
  }

  /** The date an update sends: the lenient reading of "releasedate", the zero date when absent. */
  function SentDate(fields: map<string, string>): Date
    requires "releasedate" in fields ==> ParseDate(Lenient, fields["releasedate"]).Some?
  {
    if "releasedate" in fields then ParseDate(Lenient, fields["releasedate"]).value else Zero
  }

  /** The song data a valid update object fills in. */
  lemma FillValue(fields: map<string, string>)
    requires "song" in fields && "group" in fields
    requires "releasedate" in fields ==> ParseDate(Lenient, fields["releasedate"]).Some?
    ensures Fill(fields) == Some(Repository.SongData(fields["song"], fields["group"], SentDate(fields), Field(fields, "text"), Field(fields, "link")))
  {
  }

  /** A valid update hands its filled-in data to the repository and rewrites its errors. */
  lemma UpdateReaches(fields: map<string, string>, order: seq<string>, req: RequiredOrder,
                      store: Repository.Store, faults: Repository.Faults)
    requires Enumerates(order, fields.Keys) && UpdateKeysValid(fields)
    requires "releasedate" in fields ==> ParseDate(Lenient, fields["releasedate"]).Some?
    ensures var data := Repository.SongData(fields["song"], fields["group"], SentDate(fields), Field(fields, "text"), Field(fields, "link"));
            var stored := Repository.UpdateSong(store, data, faults);
            var r := UpdateSong(fields, order, req, store, faults);
            && (r.Ok? <==> stored.Ok?)
            && (r.Ok? ==> r.value == stored.value)
            && (r.Err? ==> r.error == Failure(if stored.error == Repository.DoesNotExist then Repository.DoesNotExist else FailedUpdate, []))
  {
    PresencePasses(fields.Keys, order, UpdateKeys, req);
    FillValue(fields);
  }

  /**
   * A successful update changes only the entry of its song and group: the
   * date unless the sent one is the zero date (absent, or "1.1.0001"), the
   * text and link unless absent or empty; every other entry is kept.
   */
  lemma UpdateEffect(fields: map<string, string>, order: seq<string>, req: RequiredOrder,
                     store: Repository.Store, faults: Repository.Faults, s1: Repository.Store)
    requires Enumerates(order, fields.Keys) && UpdateKeysValid(fields)
    requires "releasedate" in fields ==> ParseDate(Lenient, fields["releasedate"]).Some?
    requires UpdateSong(fields, order, req, store, faults) == Ok(s1)
    ensures var key := Repository.Key(fields["song"], fields["group"]);
            && key in store && s1.Keys == store.Keys
            && s1[key].releaseDate == (if SentDate(fields) == Zero then store[key].releaseDate else SentDate(fields))
            && s1[key].text == (if Field(fields, "text") == "" then store[key].text else fields["text"])
            && s1[key].link == (if Field(fields, "link") == "" then store[key].link else fields["link"])
            && forall k | k in store && k != key :: s1[k] == store[k]
  {
    UpdateReaches(fields, order, req, store, faults);
  }

  /**
   * A valid update of a song that is not stored is "song does not exist";
   * every other storage error is "failed to update song".
   */
  lemma UpdateFailures(fields: map<string, string>, order: seq<string>, req: RequiredOrder,
                       store: Repository.Store, faults: Repository.Faults)
    requires Enumerates(order, fields.Keys) && UpdateKeysValid(fields)
    requires "releasedate" in fields ==> ParseDate(Lenient, fields["releasedate"]).Some?
    ensures var r := UpdateSong(fields, order, req, store, faults);
            && (faults.lookup.None? && Repository.Key(fields["song"], fields["group"]) !in store ==> r == Err(Failure(Repository.DoesNotExist, [])))
            && (r.Err? ==> r.error.message in {Repository.DoesNotExist, FailedUpdate})
  {
    UpdateReaches(fields, order, req, store, faults);
  }

  /** An add request whose keys pass: exactly song and group. */
  predicate AddKeysValid(params: Query)
  {
    params.Keys == SongKeys
  }

  /** The entry an add stores for a looked-up song: the strict reading of its date, its text and link. */
  function Looked(w: Wire): Repository.Entry
  {
    Repository.Entry(StringToDate(w).releaseDate, w.text, w.link)
  }

  /** A valid add request looks up its song and group, then hands the result to the repository. */
  lemma AddReaches(params: Query, order: seq<string>, req: RequiredOrder,
                   info: (string, string) -> Result<Wire, string>,
                   store: Repository.Store, faults: Repository.Faults)
    requires WellFormed(params) && Enumerates(order, params.Keys) && AddKeysValid(params)
    ensures var song, group := params["song"][0], params["group"][0];
            var r := AddSong(params, order, req, info, store, faults);
            && (info(song, group).Err? ==> r == Err(Failure(FailedInfo, [])))
            && (info(song, group).Ok? ==>
                  var stored := Repository.AddSong(store, StringToDate(info(song, group).value.(song := song, group := group)), faults);
                  && (r.Ok? <==> stored.Ok?)
                  && (r.Ok? ==> r.value == stored.value)
                  && (r.Err? ==> r.error == Failure(if stored.error == Repository.AlreadyExists then Repository.AlreadyExists else FailedAdd, [])))
  {
    PresencePasses(params.Keys, order, SongKeys, req);
  }

  /**
   * Add: a failed song-info lookup is "failed to get song info"; an
   * existing song is "song already exists"; a success stores exactly one
   * new entry under the requested (unsplit) song and group, whatever names
   * the lookup returned, with the looked-up date read by the strict layout
   * (zero when it fails), text and link.
   */
  lemma AddOutcome(params: Query, order: seq<string>, req: RequiredOrder,
                   info: (string, string) -> Result<Wire, string>,
                   store: Repository.Store, faults: Repository.Faults)
    requires WellFormed(params) && Enumerates(order, params.Keys) && AddKeysValid(params)
    ensures var song, group := params["song"][0], params["group"][0];
            var r := AddSong(params, order, req, info, store, faults);
            && (info(song, group).Ok? && faults.lookup.None? && Repository.Key(song, group) in store ==>
                  r == Err(Failure(Repository.AlreadyExists, [])))
            && (r.Ok? ==>
                  && info(song, group).Ok? && Repository.Key(song, group) !in store
                  && r.value == store[Repository.Key(song, group) := Looked(info(song, group).value)])
            && (r.Err? ==> r.error.message in {FailedInfo, Repository.AlreadyExists, FailedAdd})
  {
    AddReaches(params, order, req, info, store, faults);
    var song, group := params["song"][0], params["group"][0];
    if info(song, group).Ok? {
      var w := info(song, group).value;
      var data := StringToDate(w.(song := song, group := group));
      assert Repository.KeyOf(data) == Repository.Key(song, group);
      assert Repository.EntryOf(data) == Looked(w);
      var r := AddSong(params, order, req, info, store, faults);
      if r.Ok? {
        var s1 := r.value;
        var expected := store[Repository.Key(song, group) := Looked(w)];
        assert s1.Keys == expected.Keys;
        assert forall k | k in s1 :: s1[k] == expected[k];
        assert s1 == expected;
      }
    }
  }

  /** Writing a listed song for clients and reading it back as `stringToDate` does gives the song back. */
  lemma WireRoundTrip(s: Repository.SongData)
    requires Valid(s.releaseDate) && 0 <= s.releaseDate.year <= 9999
    ensures StringToDate(ToWire(s)) == s
  {
    ParseOfFormat(s.releaseDate);
  }

  /** A client song whose date the strict layout accepts is written back exactly as it was. */
  lemma DataRoundTrip(w: Wire)
    requires ParseDate(Strict, w.releaseDate).Some?
    ensures ToWire(StringToDate(w)) == w
  {
  }

  /** Every song of a listing with four-digit-year dates reads back from its client form. */
  lemma DateToStringRoundTrip(songs: seq<Repository.SongData>)
    requires forall i | 0 <= i < |songs| :: Valid(songs[i].releaseDate) && 0 <= songs[i].releaseDate.year <= 9999
    ensures forall i | 0 <= i < |songs| :: StringToDate(DateToString(songs)[i]) == songs[i]
  {
    forall i | 0 <= i < |songs|
      ensures StringToDate(DateToString(songs)[i]) == songs[i]
    {
      WireRoundTrip(songs[i]);
    }
  }
}
