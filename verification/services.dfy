/**
 * The service layer (services.go): per operation a key whitelist, the comma
 * normalisation of query values, single-value and positive-number rules,
 * day.month.yyyy validation, verse selection, and the rewriting of storage
 * errors into a fixed set of messages. Storage is the `Repository` model;
 * the song listing and the song-info lookup are parameters.
 */
module Services {
  import opened Wrappers
  import opened Text
  import opened Numbers
  import opened Dates
  import opened Params
  import Repository

  /** `services.SongData`: a song as clients see it, the date as "02.01.2006" text. */
  datatype Wire = Wire(song: string, group: string, releaseDate: string, text: string, link: string)

  /** A failed call: the error text, and for "unexpected params" the offending keys in iteration order. */
  datatype Failure = Failure(message: string, unexpected: seq<string>)

  /** The order in which a `range` over the two required keys happens to visit them. */
  datatype RequiredOrder = SongFirst | GroupFirst

  function RequiredKeys(o: RequiredOrder): seq<string>
  {
    if o == SongFirst then ["song", "group"] else ["group", "song"]
  }

  const UnexpectedParams: string := "unexpected params"
  const PageNotNumber: string := "page is not a number"
  const OnpageNotNumber: string := "onpage is not a number"
  const BadDate: string := "incorrect date format"
  const VerseNotPositive: string := "'verse' requires a positive number"
  const FailedText: string := "failed to get songs text"
  const FailedDelete: string := "failed to delete song"
  const FailedUpdate: string := "failed to update song"
  const FailedAdd: string := "failed to add song"
  const FailedInfo: string := "failed to get song info"

  function Required(key: string): string
  {
    "'" + key + "' parameter is required"
  }

  function OnlyOne(key: string): string
  {
    "'" + key + "' requires only 1 value"
  }

  /** The keys each operation accepts. */
  const ListKeys: set<string> := {"song", "group", "releasedate", "text", "link", "page", "onpage"}
  const TextKeys: set<string> := {"song", "group", "verse"}
  const SongKeys: set<string> := {"song", "group"}
  const UpdateKeys: set<string> := {"song", "group", "releasedate", "text", "link", "page"}

  /** Text `strconv.Atoi` reads as a number of at least 1. */
  predicate Positive(s: string)
  {
    Atoi(s).ok && Atoi(s).value >= 1
  }

  /**
   * The rule for "page", "onpage" and "verse" on normalised values: more
   * than one value gives `many`; one value that is not a positive number
   * gives `notNumber`; an absent key passes.
   */
  function CountRule(p: Query, key: string, many: string, notNumber: string): (r: Option<string>)
    ensures r.None? <==> key in p ==> |p[key]| <= 1 && (|p[key]| == 1 ==> Positive(p[key][0]))
  {
    if key in p && |p[key]| > 1 then Some(many)
    else if key in p && |p[key]| != 0 && !Positive(p[key][0]) then Some(notNumber)
    else None
  }

  /**
   * The required-key loop: for each key in turn, absence gives "'<key>'
   * parameter is required" and a key in `many` gives "'<key>' requires only 1 value".
   */
  function RequiredRule(present: set<string>, many: set<string>, keys: seq<string>): (r: Option<string>)
    ensures r.None? <==> forall i | 0 <= i < |keys| :: keys[i] in present && keys[i] !in many
    decreases |keys|
  {
    if |keys| == 0 then None
    else if keys[0] !in present then Some(Required(keys[0]))
    else if keys[0] in many then Some(OnlyOne(keys[0]))
    else
      var r := RequiredRule(present, many, keys[1..]);
      assert forall i | 1 <= i < |keys| :: keys[i] == keys[1..][i - 1];
      r
  }

  /** When the required-key loop passes, song and group are both present and neither is in `many`. */
  lemma RequiredPresent(present: set<string>, many: set<string>, req: RequiredOrder)
    requires RequiredRule(present, many, RequiredKeys(req)).None?
    ensures "song" in present && "group" in present && "song" !in many && "group" !in many
  {
    var keys := RequiredKeys(req);
    assert keys[0] in present && keys[0] !in many;
    assert keys[1] in present && keys[1] !in many;
  }

  /** The keys of a normalised map that carry more than one value. */
  function Multiple(p: Query): set<string>
  {
    set k | k in p && |p[k]| != 1
  }

  /** The first comma-separated segment of a raw value. */
  function FirstSegment(value: string): string
  {
    Split(value, ",")[0]
  }

  /**
   * The checks of `GetSongs` (lines 26-95) after normalising: unexpected
   * keys, a bad "page", a bad "onpage", then a first release date the
   * lenient layout rejects, in that order.
   */
  function ListCheck(params: Query, order: seq<string>): Option<Failure>
    requires WellFormed(params) && Enumerates(order, params.Keys)
  {
    var p := Normalize(params);
    var unexpected := Unexpected(order, ListKeys);
    if |unexpected| != 0 then Some(Failure(UnexpectedParams, unexpected))
    else match CountRule(p, "page", OnlyOne("page"), PageNotNumber)
      case Some(m) => Some(Failure(m, []))
      case None =>
        match CountRule(p, "onpage", OnlyOne("onpage"), OnpageNotNumber)
        case Some(m) => Some(Failure(m, []))
        case None =>
          if "releasedate" in p && ParseDate(Lenient, p["releasedate"][0]).None? then Some(Failure(BadDate, []))
          else None
  }

  /**
   * `GetSongs` (lines 26-103): the checks, then `ListSongs` on the
   * normalised map (its query text is `BuildListQuery`'s; its evaluation
   * is the parameter `listing`). A listing error is passed on unchanged.
   */
  function GetSongs(params: Query, order: seq<string>,
                    listing: Query -> Result<seq<Repository.SongData>, string>): Result<seq<Repository.SongData>, Failure>
    requires WellFormed(params) && Enumerates(order, params.Keys)
  {
    match ListCheck(params, order)
    case Some(f) => Err(f)
    case None =>
      match listing(Normalize(params))
      case Err(e) => Err(Failure(e, []))
      case Ok(songs) => Ok(songs)
  }

  /**
   * Verse `verse` of a text: the text is cut at every blank line ("\n\n");
   * past the last verse the result is empty. No verse holds a blank line;
   * verse 1 is the text up to its first blank line (all of it when there is
   * none), and verse v+1 is verse v of what follows that blank line.
   */
  function SelectVerse(text: string, verse: int): (r: string)
    requires verse >= 1
    ensures !Contains(r, "\n\n")
    ensures verse == 1 && !Contains(text, "\n\n") ==> r == text
    ensures verse == 1 && Contains(text, "\n\n") ==> r == text[..Index(text, "\n\n")]
    ensures verse > 1 && !Contains(text, "\n\n") ==> r == ""
    ensures verse > 1 && Contains(text, "\n\n") ==> r == SelectVerse(text[Index(text, "\n\n") + 2..], verse - 1)
  {
    var verses := Split(text, "\n\n");
    if verse > |verses| then "" else verses[verse - 1]
  }

  /**
   * The checks of `GetText` (lines 108-167) after normalising: unexpected
   * keys, a missing or multi-valued song or group (in the order the
   * required keys are visited), and a "verse" that is not a single positive
   * number. When they pass, song and group have one value each.
   */
  function TextCheck(params: Query, order: seq<string>, req: RequiredOrder): (r: Option<Failure>)
    requires WellFormed(params) && Enumerates(order, params.Keys)
    ensures r.None? ==> var p := Normalize(params);
              && "song" in p && |p["song"]| == 1 && "group" in p && |p["group"]| == 1
              && ("verse" in p ==> |p["verse"]| == 1 && Positive(p["verse"][0]))
  {
    var p := Normalize(params);
    var unexpected := Unexpected(order, TextKeys);
    if |unexpected| != 0 then Some(Failure(UnexpectedParams, unexpected))
    else match RequiredRule(p.Keys, Multiple(p), RequiredKeys(req))
      case Some(m) => Some(Failure(m, []))
      case None =>
        RequiredPresent(p.Keys, Multiple(p), req);
        match CountRule(p, "verse", OnlyOne("verse"), VerseNotPositive)
        case Some(m) => Some(Failure(m, []))
        case None => None
  }

  /**
   * `GetText` (lines 106-193): the checks; read the text; return the whole
   * text, or the verse asked for. "song does not exist" passes through;
   * every other storage error becomes "failed to get songs text".
   */
  function GetText(params: Query, order: seq<string>, req: RequiredOrder,
                   store: Repository.Store, faults: Repository.Faults): Result<string, Failure>
    requires WellFormed(params) && Enumerates(order, params.Keys)
  {
    match TextCheck(params, order, req)
    case Some(f) => Err(f)
    case None =>
      var p := Normalize(params);
      match Repository.GetText(store, p["song"][0], p["group"][0], faults)
      case Err(e) => Err(Failure(if e == Repository.DoesNotExist then e else FailedText, []))
      case Ok(text) => Ok(if "verse" in p then SelectVerse(text, Atoi(p["verse"][0]).value) else text)
  }

  /**
   * The checks of `DeleteSong` (lines 197-235) after normalising: keys other
   * than song and group, then a missing or multi-valued song or group.
   */
  function DeleteCheck(params: Query, order: seq<string>, req: RequiredOrder): (r: Option<Failure>)
    requires WellFormed(params) && Enumerates(order, params.Keys)
    ensures r.None? ==> var p := Normalize(params);
              "song" in p && |p["song"]| == 1 && "group" in p && |p["group"]| == 1
  {
    var p := Normalize(params);
    var unexpected := Unexpected(order, SongKeys);
    if |unexpected| != 0 then Some(Failure(UnexpectedParams, unexpected))
    else match RequiredRule(p.Keys, Multiple(p), RequiredKeys(req))
      case Some(m) => Some(Failure(m, []))
      case None =>
        RequiredPresent(p.Keys, Multiple(p), req);
        None
  }

  /**
   * `DeleteSong` (lines 196-249): the checks; delete. "song does not exist"
   * passes through; every other storage error becomes "failed to delete song".
   */
  function DeleteSong(params: Query, order: seq<string>, req: RequiredOrder,
                      store: Repository.Store, faults: Repository.Faults): Result<Repository.Store, Failure>
    requires WellFormed(params) && Enumerates(order, params.Keys)
  {
    match DeleteCheck(params, order, req)
    case Some(f) => Err(f)
    case None =>
      var p := Normalize(params);
      match Repository.DeleteSong(store, p["song"][0], p["group"][0], faults)
      case Err(e) => Err(Failure(if e == Repository.DoesNotExist then e else FailedDelete, []))
      case Ok(s) => Ok(s)
  }

  /**
   * The key checks of `UpdateSong` and `AddSong` (lines 268-292, 338-362):
   * keys outside `allowed`, then a missing song or group. Values are not
   * counted.
   */
  function PresenceCheck(keys: set<string>, order: seq<string>, allowed: set<string>, req: RequiredOrder): (r: Option<Failure>)
    requires Enumerates(order, keys)
    ensures r.None? ==> "song" in keys && "group" in keys
  {
    var unexpected := Unexpected(order, allowed);
    if |unexpected| != 0 then Some(Failure(UnexpectedParams, unexpected))
    else match RequiredRule(keys, {}, RequiredKeys(req))
      case Some(m) => Some(Failure(m, []))
      case None =>
        RequiredPresent(keys, {}, req);
        None
  }

  /** A field of the update, or "" (Go's zero string) when it was not sent. */
  function Field(fields: map<string, string>, key: string): string
  {
    if key in fields then fields[key] else ""
  }

  /**
   * The fill loop of `UpdateSong` (lines 294-316): song, group, text and
   * link copied, a release date read with the lenient layout (absent: the
   * zero date). `None` is "incorrect date format"; no other field can fail,
   * so the iteration order does not matter.
   */
  function Fill(fields: map<string, string>): (r: Option<Repository.SongData>)
    requires "song" in fields && "group" in fields
    ensures r.None? <==> "releasedate" in fields && ParseDate(Lenient, fields["releasedate"]).None?
    ensures r.Some? ==> r.value.song == fields["song"] && r.value.group == fields["group"]
  {
    var date := if "releasedate" in fields then ParseDate(Lenient, fields["releasedate"]) else Some(Zero);
    match date
    case None => None
    case Some(d) => Some(Repository.SongData(fields["song"], fields["group"], d, Field(fields, "text"), Field(fields, "link")))
  }

  /**
   * `UpdateSong` (lines 252-329), on the decoded JSON object: refuse
   * unexpected keys, then a missing song or group, then a release date the
   * lenient layout rejects; update. "song does not exist" passes through;
   * every other storage error becomes "failed to update song".
   */
  function UpdateSong(fields: map<string, string>, order: seq<string>, req: RequiredOrder,
                      store: Repository.Store, faults: Repository.Faults): Result<Repository.Store, Failure>
    requires Enumerates(order, fields.Keys)
  {
    match PresenceCheck(fields.Keys, order, UpdateKeys, req)
    case Some(f) => Err(f)
    case None =>
      match Fill(fields)
      case None => Err(Failure(BadDate, []))
      case Some(data) =>
        match Repository.UpdateSong(store, data, faults)
        case Err(e) => Err(Failure(if e == Repository.DoesNotExist then e else FailedUpdate, []))
        case Ok(s) => Ok(s)
  }

  /** `stringToDate` (lines 444-453): the date read with the strict layout, the zero date when that fails. */
  function StringToDate(w: Wire): (r: Repository.SongData)
    ensures r.song == w.song && r.group == w.group && r.text == w.text && r.link == w.link
    ensures ParseDate(Strict, w.releaseDate).None? ==> r.releaseDate == Zero
    ensures ParseDate(Strict, w.releaseDate).Some? ==> Format(r.releaseDate) == w.releaseDate
  {
    match ParseDate(Strict, w.releaseDate)
    case Some(d) =>
      FormatOfStrictParse(w.releaseDate, d);
      Repository.SongData(w.song, w.group, d, w.text, w.link)
    case None => Repository.SongData(w.song, w.group, Zero, w.text, w.link)
  }

  /**
   * `AddSong` (lines 332-384): refuse keys other than song and group, then
   * a missing one (the first raw values are used, unsplit); look the song
   * up, keep the requested song and group over whatever the lookup said,
   * read its date with the strict layout, and add. A lookup failure becomes
   * "failed to get song info"; "song already exists" passes through; every
   * other storage error becomes "failed to add song".
   */
  function AddSong(params: Query, order: seq<string>, req: RequiredOrder,
                   info: (string, string) -> Result<Wire, string>,
                   store: Repository.Store, faults: Repository.Faults): Result<Repository.Store, Failure>
    requires WellFormed(params) && Enumerates(order, params.Keys)
  {
    match PresenceCheck(params.Keys, order, SongKeys, req)
    case Some(f) => Err(f)
    case None =>
      var song := params["song"][0];
      var group := params["group"][0];
      match info(song, group)
      case Err(_) => Err(Failure(FailedInfo, []))
      case Ok(w) =>
        match Repository.AddSong(store, StringToDate(w.(song := song, group := group)), faults)
        case Err(e) => Err(Failure(if e == Repository.AlreadyExists then e else FailedAdd, []))
        case Ok(s) => Ok(s)
  }

  /** One listed song as clients see it: the date written "02.01.2006". */
  function ToWire(s: Repository.SongData): Wire
  {
    Wire(s.song, s.group, Format(s.releaseDate), s.text, s.link)
  }

  /**
   * `DateToString` (lines 429-441): every song in order, with its date
   * written "02.01.2006" and its other fields unchanged.
   */
  function DateToString(songs: seq<Repository.SongData>): (r: seq<Wire>)
    ensures |r| == |songs|
    ensures forall i | 0 <= i < |songs| :: r[i] == ToWire(songs[i])
    decreases |songs|
  {
    if |songs| == 0 then []
    else DateToString(songs[..|songs| - 1]) + [ToWire(songs[|songs| - 1])]
  }
}
