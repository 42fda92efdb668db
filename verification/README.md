# Song catalogue service — a Dafny model

This project models the core of a small Go web service that keeps a catalogue
of songs (song name, group, release date, lyrics, video link) and serves it
over HTTP:

- `GET /songs` lists songs, filtered by any field and paged.
- `POST /songs` adds a song. Its date, text and link come from an external song-info service.
- `PATCH /songs` partially updates a song from a JSON object.
- `DELETE /songs` removes a song.
- `GET /text` returns a song's lyrics, or one verse of them.

The model covers three layers, each a pure function over immutable data:

- **Services** (`internal/services/services.go`). The key whitelist of each operation. The comma normalisation
  that turns the first raw value of each query key into its `strings.Split(…, ",")`. The
  single-value and positive-number rules. Date validation with the lenient `2.1.2006` layout. The
  strict `02.01.2006` rewrite of looked-up dates. Verse selection. The rewriting of storage errors into a
  fixed set of messages.
- **Repository** (`internal/database/database.go`). A map from (song, group) to the stored entry, with
  `Exists`, `AddSong`, `DeleteSong`, `UpdateSong` (including the partial-update merge) and `GetText`.
  `BuildListQuery`, the SQL text of a listing, is modelled twice. One model is a functional reference,
  `ListQuery.Statement`. The other is a method that follows the Go loops step by step. The method
  is proved to build exactly the reference text.
- **Handlers** (`internal/handlers/handlers.go`). The error-to-status table of each method, the success
  bodies, and the newline that `http.Error` appends.

Supporting modules model what those files call from the Go library:

- `Text`: `strings.Index`, `Split` and `Join`.
- `Numbers`: `strconv.Atoi` with its fast and slow paths, `strconv.Itoa`, zero padding, and int64 wrap-around.
- `Dates`: `time.Parse` for the two day-first layouts, and `Format` for `02.01.2006` and `2006-01-02`.
- `Params`: query maps, iteration order, and normalisation.

Things outside the program become parameters:

- The iteration order of a Go map is an explicit `order: seq<string>` that enumerates the map's keys.
  Which of the two required keys a `range` visits first is `RequiredOrder`.
- Database failures are `Repository.Faults`: the connection or existence query, the row read, and the modifying statement.
- The listing query's evaluation against the database is a function `listing` of the normalised query.
- The external song-info call is a function `info` of (song, group).

The reference definitions and the code-shaped definitions are tied together by the lemmas in
`ServiceFacts` and `HandlerFacts`. Those lemmas state each outcome in terms of the raw request and the
store. They include several round trips:

- formatting a date, then parsing it back;
- `Atoi` of `Itoa`;
- `Split` of `Join`;
- a song written out for clients, then read back;
- add, then delete;
- an update repeated twice.

## Model

| member | source | states |
|---|---|---|
| Text.Index | internal/services/services.go:184 | the result is -1 or a position where the separator occurs, and no occurrence comes earlier |
| Text.Split | internal/services/services.go:41-43 | at least one part; joining the parts with the separator gives the input back; no part contains the separator; every part but the last ends cleanly, so each cut is at the first occurrence in what remains |
| Text.SplitSingle | internal/services/services.go:41-43 | splitting yields one part exactly when the separator does not occur |
| Text.SplitOfJoin | internal/services/services.go:184 | Split undoes Join when every part but the last ends cleanly before the separator and the last has none |
| Text.SplitOfJoinChar | internal/services/services.go:41-43 | for a one-character separator, Split undoes Join whenever no part contains that character |
| Text.ContainsChar | internal/services/services.go:41-43 | a one-character separator occurs exactly when the character is in the string |
| Text.TerminatedIsJoined | internal/database/database.go:135-138 | appending the separator after every part equals joining and then appending one separator |
| Numbers.Wrap64 | internal/database/database.go:148 | the wrapped value is an int64 congruent to the input modulo 2^64, and equals the input when that already fits |
| Numbers.Digits | internal/database/database.go:148 | at least one digit, all digits, no leading zero, and the digits are worth the number |
| Numbers.Atoi | internal/services/services.go:65-70 | success exactly on an optionally signed decimal numeral within int64, whose value is the result |
| Numbers.AtoiOfItoa | internal/database/database.go:147-148 | Atoi reads back what Itoa writes, for every int64 |
| Numbers.ParseIntValue | internal/services/services.go:65-70 | the slow path succeeds exactly on signed numerals within int64 and returns their value |
| Numbers.PadFour | internal/services/services.go:435 | four-place padding writes thousands, hundreds, tens and units for 0..9999 |
| Dates.ParseDate | internal/services/services.go:88-95 | an accepted date is a real calendar date with a year in 0..9999 |
| Dates.ParseOfFormat | internal/services/services.go:435-448 | formatting a valid date as "02.01.2006" and parsing it back under either layout gives the date back |
| Dates.FormatOfStrictParse | internal/services/services.go:444-453 | a string the strict layout accepts is exactly the formatted date it denotes |
| Dates.LenientAcceptsStrict | internal/services/services.go:88-95 | whatever the strict layout accepts, the lenient one accepts as the same date |
| Dates.StrictShape | internal/services/services.go:448 | only ten-character "dd.mm.yyyy" strings pass the strict layout |
| Dates.ParseShaped | internal/services/services.go:89 | on "dd.mm.yyyy" strings both layouts read the same date |
| Dates.IsoOfFormat | internal/database/database.go:131-134 | the storage spelling "yyyy-mm-dd" is the client spelling with the fields reordered |
| Dates.OneDigitFields | internal/services/services.go:89 | "1.2.2020" is 1 February 2020 for the lenient layout and is refused by the strict one |
| Dates.LeapDay | internal/services/services.go:448 | "29.02.2024" is accepted as 29 February 2024 |
| Dates.CommonYearDay | internal/services/services.go:448 | "29.02.2023" is refused |
| Params.Unexpected | internal/services/services.go:46-50 | the reported keys are exactly the visited keys outside the whitelist, each once |
| Params.UnexpectedExactly | internal/services/services.go:46-57 | over a map's iteration order the report holds exactly the map's keys outside the whitelist; it is empty exactly when every key is allowed |
| Params.UnexpectedPermutation | internal/services/services.go:46-50 | two iteration orders report the same unexpected keys up to permutation |
| Params.Normalize | internal/services/services.go:41-43 | the key set is kept, every key has a value, and re-joining a key's values with "," gives its first raw value |
| Params.NormalizeSingle | internal/services/services.go:60-64 | a normalised key has several values exactly when its first raw value contains a comma |
| Params.NormalizeNoComma | internal/services/services.go:204-206 | a comma-free first value normalises to itself alone |
| Params.NormalizeOfJoined | internal/services/services.go:122-124 | a comma-joined first value comes back as the list it was joined from |
| ListQuery.BuildListQuery | internal/database/database.go:106-152 | the loops build exactly the reference statement: projection, WHERE part and limit clause |
| ListQuery.AppendValues | internal/database/database.go:130-137 | the value loop, after cutting its last three characters, is the rewritten values joined by "', '" plus a closing quote |
| ListQuery.AppendConditions | internal/database/database.go:117-140 | the second loop appends every condition followed by " AND " and reports whether there was none |
| ListQuery.AnyFilter | internal/database/database.go:110-115 | the first loop finds a key exactly when some key other than "page" has values |
| ListQuery.AppendLimit | internal/database/database.go:146-149 | without a "page" value the query is unchanged; a page p in 1..922337203685477581 appends "LIMIT 10 OFFSET " and the decimal (p-1)*10; a short page value that is no numeral reads as 0 and appends offset -10 |
| ListQuery.ClauseMembership | internal/database/database.go:117-129 | there is a clause for a key exactly when the key is visited, is not "page" and has values; the clause carries those values |
| ListQuery.ClausesPermutation | internal/database/database.go:117 | two iteration orders of one map give the same clauses up to permutation |
| ListQuery.ConjunctsPermutation | internal/database/database.go:117-140 | the WHERE conjuncts are the same for every iteration order, up to permutation |
| ListQuery.NoFilterNoWhere | internal/database/database.go:108-144 | the statement is the bare projection plus the limit clause exactly when no key other than "page" has values |
| ListQuery.ConditionShape | internal/database/database.go:123-129 | for keys other than the release date: "song" filters on s.name, "group" on g.name, and any other key is compared as the quoted literal of its own name, with the values verbatim |
| ListQuery.DateCondition | internal/database/database.go:119-136 | "releasedate" is compared as the literal 'release_date', and every value is rewritten to "yyyy-mm-dd" through the strict layout |
| ListQuery.StorageDateRewrite | internal/database/database.go:131-134 | a strictly valid date is rewritten "yyyy-mm-dd" by moving its fields; anything else becomes "0001-01-01" |
| ListQuery.PageOffsetExact | internal/database/database.go:147-148 | the offset equals (page-1)*10 exactly for the pages that do not overflow int64 |
| ListQuery.OffsetWraps | internal/database/database.go:148 | page 922337203685477582 wraps around to a negative offset |
| ListQuery.PageLimit | internal/database/database.go:146-149 | a first "page" value p in range ends the statement with "LIMIT 10 OFFSET " and the decimal (p-1)*10 |
| ListQuery.LiteralsPlain | internal/database/database.go:130-135 | values of a column other than the release date appear verbatim |
| Repository.Exists | internal/database/database.go:41-68 | the lookup succeeds unless it faults, and then says whether the pair is stored |
| Repository.AddSong | internal/database/database.go:155-204 | success exactly when the pair is new and nothing faults; a stored pair is "song already exists"; success adds exactly that entry and keeps all others |
| Repository.DeleteSong | internal/database/database.go:207-234 | success exactly when the pair is stored and nothing faults; a missing pair is "song does not exist"; success removes exactly that entry |
| Repository.Merge | internal/database/database.go:260-268 | a zero date, empty text or empty link keeps the stored value; any other value replaces it |
| Repository.UpdateSong | internal/database/database.go:237-279 | a missing pair is "song does not exist"; success replaces that entry by the merge and keeps the key set and every other entry |
| Repository.GetText | internal/database/database.go:282-302 | a stored pair reads back its text; a missing one is "song does not exist" |
| Repository.AddThenDelete | internal/database/database.go:155-234 | deleting a song just added gives back the store as it was |
| Repository.UpdateTwice | internal/database/database.go:237-279 | repeating a successful update leaves the store as the first one left it |
| Repository.AddThenAdd | internal/database/database.go:163-171 | adding the same pair again is refused with "song already exists" |
| Repository.DeleteThenText | internal/database/database.go:215-223 | after a delete the song's text reads "song does not exist" |
| Services.CountRule | internal/services/services.go:59-71 | a counted key passes exactly when it is absent, or has at most one value and that value is a positive number |
| Services.RequiredRule | internal/services/services.go:140-153 | the check passes exactly when every required key is present and single-valued |
| Services.TextCheck | internal/services/services.go:108-167 | when the checks pass, song and group have one value each and any verse is a single positive number |
| Services.DeleteCheck | internal/services/services.go:197-235 | when the checks pass, song and group have one value each |
| Services.PresenceCheck | internal/services/services.go:268-292 | when the key checks pass, song and group are present |
| Services.SelectVerse | internal/services/services.go:180-191 | the selected verse never contains a blank line; verse 1 is the text up to its first blank line, or all of it without one; verse v+1 is verse v of the text after that blank line, and "" when there is none |
| Services.Fill | internal/services/services.go:294-316 | the fill fails exactly on a "releasedate" the lenient layout rejects, and copies song and group |
| Services.StringToDate | internal/services/services.go:444-453 | names, text and link are copied; a strictly valid date is kept and formats back to its input; any other date becomes the zero date |
| Services.DateToString | internal/services/services.go:429-441 | every song in order, with its date written "02.01.2006" |
| ServiceFacts.CountRuleRaw | internal/services/services.go:59-85 | in terms of the raw value: a comma is "requires only 1 value", a non-positive single value is the number error, and the rule passes exactly on comma-free positive numbers |
| ServiceFacts.ListUnexpected | internal/services/services.go:45-57 | a listing with keys outside the whitelist fails with exactly those keys, in iteration order |
| ServiceFacts.ListPage | internal/services/services.go:59-71 | a comma in the raw "page" is "'page' requires only 1 value"; a non-positive single page is "page is not a number" |
| ServiceFacts.ListOnpage | internal/services/services.go:73-85 | the same two rules for "onpage", checked after "page" |
| ServiceFacts.ListDate | internal/services/services.go:87-95 | with page and onpage valid, a first date segment the lenient layout rejects is "incorrect date format"; otherwise the checks pass |
| ServiceFacts.ListCheckPasses | internal/services/services.go:26-95 | the listing checks pass exactly on requests that are valid in terms of the raw query |
| ServiceFacts.GetSongsListing | internal/services/services.go:97-101 | the listing is consulted exactly for valid requests; its songs are returned and its error passed on unchanged |
| ServiceFacts.RequiredOrderIrrelevant | internal/services/services.go:141-153 | the visiting order of the required keys changes the message only when both keys are faulty |
| ServiceFacts.RequiredRaw | internal/services/services.go:223-235 | song and group pass exactly when both are present and their raw values have no comma |
| ServiceFacts.TextChecks | internal/services/services.go:126-167 | text checks: unexpected keys are reported exactly; the checks pass exactly on valid requests; the verse errors in terms of the raw value |
| ServiceFacts.GetTextOutcome | internal/services/services.go:169-191 | a valid request returns the stored text, or the verse asked for; "song does not exist" passes through; other storage errors become "failed to get songs text" |
| ServiceFacts.VerseOfJoin | internal/services/services.go:184-190 | on lyrics written as verses separated by blank lines, verse v is the v-th of them and past the last one is empty |
| ServiceFacts.SingleVerse | internal/services/services.go:184-190 | lyrics without a blank line are verse 1, and verse 2 is empty |
| ServiceFacts.DeleteOutcome | internal/services/services.go:196-249 | unexpected keys are reported exactly; only valid requests reach the store, with errors rewritten as the code does |
| ServiceFacts.PresencePasses | internal/services/services.go:270-292 | whitelisted keys that include song and group pass the key checks |
| ServiceFacts.PresenceReport | internal/services/services.go:270-292 | unexpected keys are reported exactly; a missing song or group is named, and the visiting order matters only when both are missing |
| ServiceFacts.UpdateChecks | internal/services/services.go:276-308 | key failures come first; a release date the lenient layout rejects, the empty string included, is "incorrect date format" |
| ServiceFacts.FillValue | internal/services/services.go:294-316 | a valid object fills in its song, group, leniently read date, text and link |
| ServiceFacts.UpdateReaches | internal/services/services.go:317-328 | a valid update hands its filled-in data to the repository and rewrites its errors |
| ServiceFacts.UpdateEffect | internal/services/services.go:294-328 | a successful update changes only its song's entry: date unless zero, text and link unless empty |
| ServiceFacts.UpdateFailures | internal/services/services.go:317-328 | updating a song that is not stored is "song does not exist"; every other storage error is "failed to update song" |
| ServiceFacts.AddReaches | internal/services/services.go:365-383 | a valid add looks up its raw song and group, then hands the strictly re-read result to the repository |
| ServiceFacts.AddOutcome | internal/services/services.go:332-384 | a stored song is "song already exists"; a success stores exactly one new entry under the requested names with the looked-up date, text and link |
| ServiceFacts.WireRoundTrip | internal/services/services.go:429-453 | writing a song for clients and reading it back as stringToDate does gives the song back |
| ServiceFacts.DataRoundTrip | internal/services/services.go:429-453 | a client song with a strictly valid date is written back exactly as it was |
| ServiceFacts.DateToStringRoundTrip | internal/services/services.go:429-441 | every listed song reads back from its client form |
| Handlers.HttpError | internal/handlers/handlers.go:29 | an error answer has the given status and is plain text: the message followed by a newline |
| Handlers.ListError | internal/handlers/handlers.go:26-49 | the GET table: a panic exactly on a date error without "releasedate"; otherwise 400 or 500, and 500 exactly for messages outside the validation set |
| Handlers.StorageError | internal/handlers/handlers.go:60-74 | 404 exactly for "song does not exist", 500 exactly for the operation's own failure, 400 for everything else |
| Handlers.AddError | internal/handlers/handlers.go:120-137 | 500 exactly for "failed to add song" and "failed to get song info"; everything else, an existing song included, is 400 |
| Handlers.HandleList | internal/handlers/handlers.go:22-55 | 200 exactly when the service succeeds, with its songs written out |
| Handlers.HandleDelete | internal/handlers/handlers.go:57-79 | 200 "Song deleted" exactly when the service succeeds; otherwise the store is kept |
| Handlers.HandleUpdate | internal/handlers/handlers.go:81-115 | an unreadable or non-object body is 400 before the service runs; 200 exactly when the update succeeds; otherwise the store is kept |
| Handlers.HandleAdd | internal/handlers/handlers.go:117-142 | 200 "New song added" exactly when the service succeeds; otherwise the store is kept |
| Handlers.SongsHandler | internal/handlers/handlers.go:21-144 | statuses are 200, 400, 404 or 500; errors end in a newline; only a 200 answer to DELETE, PATCH or POST changes the store; only GET can panic; another method gets an empty 200 |
| Handlers.TextHandler | internal/handlers/handlers.go:147-177 | 405 exactly for a method other than GET; 200 exactly when the service succeeds, with the lyrics |
| HandlerFacts.ListAborts | internal/handlers/handlers.go:43-44 | GET panics exactly when a valid request's listing itself fails with "incorrect date format" and there is no "releasedate" to echo |
| HandlerFacts.ListAnswers | internal/handlers/handlers.go:22-55 | GET answers 200 exactly for valid requests whose listing succeeds, with those songs written out |
| HandlerFacts.DateEcho | internal/handlers/handlers.go:43-44 | a GET whose only fault is its date is 400 and echoes the first comma-separated segment of the raw value |
| HandlerFacts.DeleteUnexpected | internal/handlers/handlers.go:61-64 | a DELETE with extra keys is 400, lists them, and keeps the store |
| HandlerFacts.DeleteAnswers | internal/handlers/handlers.go:57-79 | a valid DELETE is 404 when the song is not stored, otherwise 200 with the entry removed, or the failure status with the store kept |
| HandlerFacts.UpdateAnswers | internal/handlers/handlers.go:81-115 | a valid PATCH against a working store is 404 when the song is not stored, otherwise 200 with the entry merged |
| HandlerFacts.UpdateBadDate | internal/handlers/handlers.go:96-110 | a PATCH date the lenient layout rejects, the empty string included, is 400 "incorrect date format" and keeps the store |
| HandlerFacts.UpdateMissingSong | internal/handlers/handlers.go:96-110 | a PATCH without song is 400 "'song' parameter is required" |
| HandlerFacts.AddAnswers | internal/handlers/handlers.go:117-137 | a POST whose lookup fails is 500 and one for a stored song is 400 "Song already exists"; the store is kept |
| HandlerFacts.AddThenDelete | internal/handlers/handlers.go:57-142 | a song added through POST and deleted through DELETE with the same query leaves the store as it was |
| HandlerFacts.TextAnswers | internal/handlers/handlers.go:147-172 | a valid GET /text is 404 for an unknown song, otherwise 200 with the whole text or the verse asked for |

## Left out

- Running SQL is not modelled. The repository is an abstract map, and the Group table's
  insert-if-missing (database.go:173-186) is folded into adding the entry. A failure of either
  insert is one `write` fault, so a partially completed add (group inserted, song not) is not represented.
- `ListSongs` (database.go:305-340) runs the built statement and scans the rows; that evaluation is the
  `listing` parameter. The listing is therefore not tied to the store; only the statement text is modelled.
- `Exists` returns the id of the last matching row; the model only says whether the pair is stored.
- Repository.Exists: the lookup is assumed to compare names literally. The Go code pastes song and group
  into the SQL text (database.go:50). A name with a `'` makes the statement malformed, and a crafted name can
  match another row. The model does not cover this: its store answers `Key(song, group) in store` for every
  name. So AddSong, DeleteSong and UpdateSong's success conditions hold only for names the SQL text carries
  verbatim.
  `GetSong`'s reading of the stored row is part of the `read` fault.
- `BuildListQuery` iterates the map twice, and Go may visit the keys in a different order each time. The
  model uses one order for both loops. Only whether any key filters depends on the first loop, so the text is unaffected.
- The HTTP call of `getSongInfo` (services.go:387-426) is the `info` parameter. The only part kept is
  its overwriting of song and group with the requested ones.
- JSON encoding and decoding are abstracted:
  - Response payloads are values, not bytes.
  - A PATCH body is `Unreadable`, `Malformed` or the decoded object. A JSON `null` body decodes to no
    fields, which the caller of `HandleUpdate` expresses as an empty object.
  - A nil song list (no songs) is encoded as `null` by the Go code; the model gives the empty sequence.
- Logging, response headers, `WriteHeader` order, the Swagger wrappers (handlers.go:179-262),
  `server.go`, `main.go`, the mock service and the configuration loader are not part of this model.
- Concurrency is out of scope: requests are modelled one at a time.
- Time of day and time zones are out of scope. Dates are (year, month, day); `IsZero` is the date 0001-01-01.
- `ParseDate` covers only the layouts the program uses, day-first with dots. Go's generic layout engine is not modelled.
- The PATCH handler treats an empty "releasedate" as a bad date, as the code does (services.go:302-308). Only
  an absent "releasedate", or a date equal to the zero date, keeps the stored one.
- Dates.ParseDate: its contract states only that an accepted date is a real calendar date with a four-digit year. Which spellings the
  lenient layout accepts is pinned down for "dd.mm.yyyy" strings (ParseShaped) and by examples (OneDigitFields), not by a general lemma.
