/**
 * The song repository (database.go) with the SQL abstracted away: a map from
 * (song, group) to the stored release date, text and link. Each operation
 * first asks whether the pair exists, fails with "song already exists" or
 * "song does not exist" as appropriate, and otherwise changes exactly one
 * entry. Failures of the database itself are a parameter.
 */
module Repository {
  import opened Wrappers
  import opened Dates

  /** The identity of a song: its name and its group's name. */
  datatype Key = Key(song: string, group: string)

  /** What is stored for a song besides its key. */
  datatype Entry = Entry(releaseDate: Date, text: string, link: string)

  type Store = map<Key, Entry>

  /** `database.SongData`: a song as the repository receives and lists it. */
  datatype SongData = SongData(song: string, group: string, releaseDate: Date, text: string, link: string)

  function KeyOf(data: SongData): Key
  {
    Key(data.song, data.group)
  }

  function EntryOf(data: SongData): Entry
  {
    Entry(data.releaseDate, data.text, data.link)
  }

  /**
   * Database failures outside the model, each with the driver's message:
   * opening the connection or running the existence query (`lookup`),
   * reading the stored row (`read`), and the modifying statement (`write`).
   */
  datatype Faults = Faults(lookup: Option<string>, read: Option<string>, write: Option<string>)

  const AlreadyExists: string := "song already exists"
  const DoesNotExist: string := "song does not exist"

  /** `Exists` (lines 41-68): whether the pair is stored, or the lookup failure. */
  function Exists(store: Store, song: string, group: string, faults: Faults): (r: Result<bool, string>)
    ensures r.Ok? <==> faults.lookup.None?
    ensures r.Ok? ==> (r.value <==> Key(song, group) in store)
  {
    match faults.lookup
    case Some(e) => Err(e)
    case None => Ok(Key(song, group) in store)
  }

  /**
   * `AddSong` (lines 155-204): a stored pair is refused with "song already
   * exists"; otherwise the song is inserted with its date, text and link.
   */
  function AddSong(store: Store, data: SongData, faults: Faults): (r: Result<Store, string>)
    ensures r.Ok? <==> faults.lookup.None? && KeyOf(data) !in store && faults.write.None?
    ensures faults.lookup.None? && KeyOf(data) in store ==> r == Err(AlreadyExists)
    ensures r.Ok? ==> r.value.Keys == store.Keys + {KeyOf(data)}
    ensures r.Ok? ==> r.value[KeyOf(data)] == EntryOf(data)
    ensures r.Ok? ==> forall k | k in store :: r.value[k] == store[k]
  {
    match Exists(store, data.song, data.group, faults)
    case Err(e) => Err(e)
    case Ok(found) =>
      if found then Err(AlreadyExists)
      else match faults.write
        case Some(e) => Err(e)
        case None => Ok(store[KeyOf(data) := EntryOf(data)])
  }

  /**
   * `DeleteSong` (lines 207-234): a missing pair is refused with "song does
   * not exist"; otherwise exactly that entry is removed.
   */
  function DeleteSong(store: Store, song: string, group: string, faults: Faults): (r: Result<Store, string>)
    ensures r.Ok? <==> faults.lookup.None? && Key(song, group) in store && faults.write.None?
    ensures faults.lookup.None? && Key(song, group) !in store ==> r == Err(DoesNotExist)
    ensures r.Ok? ==> r.value.Keys == store.Keys - {Key(song, group)}
    ensures r.Ok? ==> forall k | k in r.value :: r.value[k] == store[k]
  {
    match Exists(store, song, group, faults)
    case Err(e) => Err(e)
    case Ok(found) =>
      if !found then Err(DoesNotExist)
      else match faults.write
        case Some(e) => Err(e)
        case None => Ok(store - {Key(song, group)})
  }

  /**
   * The partial-update merge (lines 260-268): a zero date, an empty text or
   * an empty link keeps the stored value; any other value replaces it.
   */
  function Merge(stored: Entry, data: SongData): (e: Entry)
    ensures data.releaseDate == Zero ==> e.releaseDate == stored.releaseDate
    ensures data.releaseDate != Zero ==> e.releaseDate == data.releaseDate
    ensures data.text == "" ==> e.text == stored.text
    ensures data.text != "" ==> e.text == data.text
    ensures data.link == "" ==> e.link == stored.link
    ensures data.link != "" ==> e.link == data.link
  {
    Entry(if data.releaseDate == Zero then stored.releaseDate else data.releaseDate,
          if data.text == "" then stored.text else data.text,
          if data.link == "" then stored.link else data.link)
  }

  /**
   * `UpdateSong` (lines 237-279): a missing pair is refused with "song does
   * not exist"; otherwise the stored entry is merged with the update, and
   * the key and every other entry stay as they were.
   */
  function UpdateSong(store: Store, data: SongData, faults: Faults): (r: Result<Store, string>)
    ensures r.Ok? <==> faults.lookup.None? && KeyOf(data) in store && faults.read.None? && faults.write.None?
    ensures faults.lookup.None? && KeyOf(data) !in store ==> r == Err(DoesNotExist)
    ensures r.Ok? ==> r.value.Keys == store.Keys
    ensures r.Ok? ==> r.value[KeyOf(data)] == Merge(store[KeyOf(data)], data)
    ensures r.Ok? ==> forall k | k in store && k != KeyOf(data) :: r.value[k] == store[k]
  {
    match Exists(store, data.song, data.group, faults)
    case Err(e) => Err(e)
    case Ok(found) =>
      if !found then Err(DoesNotExist)
      else if faults.read.Some? then Err(faults.read.value)
      else if faults.write.Some? then Err(faults.write.value)
      else Ok(store[KeyOf(data) := Merge(store[KeyOf(data)], data)])
  }

  /** `GetText` (lines 282-302): the stored text of an existing pair. */
  function GetText(store: Store, song: string, group: string, faults: Faults): (r: Result<string, string>)
    ensures r.Ok? <==> faults.lookup.None? && Key(song, group) in store && faults.read.None?
    ensures faults.lookup.None? && Key(song, group) !in store ==> r == Err(DoesNotExist)
    ensures r.Ok? ==> r.value == store[Key(song, group)].text
  {
    match Exists(store, song, group, faults)
    case Err(e) => Err(e)
    case Ok(found) =>
      if !found then Err(DoesNotExist)
      else match faults.read
        case Some(e) => Err(e)
        case None => Ok(store[Key(song, group)].text)
  }

  /** Merging the same update twice changes nothing more than merging it once. */
  lemma MergeIdempotent(stored: Entry, data: SongData)
    ensures Merge(Merge(stored, data), data) == Merge(stored, data)
  {
  }

  /** An update with a zero date and empty text and link keeps the entry. */
  lemma MergeBlank(stored: Entry, song: string, group: string)
    ensures Merge(stored, SongData(song, group, Zero, "", "")) == stored
  {
  }

  /** An update that sets every field replaces the entry, whatever was stored. */
  lemma MergeFull(stored: Entry, data: SongData)
    requires data.releaseDate != Zero && data.text != "" && data.link != ""
    ensures Merge(stored, data) == EntryOf(data)
  {
  }

  /** Adding a song twice: the second attempt is refused and changes nothing. */
  lemma AddThenAdd(store: Store, data: SongData, again: SongData, faults: Faults, s1: Store)
    requires AddSong(store, data, faults) == Ok(s1)
    requires KeyOf(again) == KeyOf(data) && faults.lookup.None?
    ensures AddSong(s1, again, faults) == Err(AlreadyExists)
  {
  }

  /** After adding a song its text reads back as added. */
  lemma AddThenText(store: Store, data: SongData, faults: Faults, s1: Store)
    requires AddSong(store, data, faults) == Ok(s1) && faults.read.None?
    ensures GetText(s1, data.song, data.group, faults) == Ok(data.text)
  {
  }

  /** Deleting a song just added gives back the store as it was. */
  lemma AddThenDelete(store: Store, data: SongData, faults: Faults, s1: Store)
    requires AddSong(store, data, faults) == Ok(s1)
    ensures DeleteSong(s1, data.song, data.group, faults) == Ok(store)
  {
    var s2 := s1 - {KeyOf(data)};
    assert s2.Keys == store.Keys;
    assert forall k | k in s2 :: s2[k] == store[k];
    assert s2 == store;
  }

  /** After a delete the song does not exist any more. */
  lemma DeleteThenText(store: Store, song: string, group: string, faults: Faults, s1: Store)
    requires DeleteSong(store, song, group, faults) == Ok(s1)
    ensures GetText(s1, song, group, faults) == Err(DoesNotExist)
  {
  }

  /** After an update the text is the new one, or the stored one when the update left it empty. */
  lemma UpdateThenText(store: Store, data: SongData, faults: Faults, s1: Store)
    requires UpdateSong(store, data, faults) == Ok(s1)
    ensures GetText(s1, data.song, data.group, faults) == Ok(if data.text == "" then store[KeyOf(data)].text else data.text)
  {
  }

  /** Repeating a successful update leaves the store as the first update left it. */
  lemma UpdateTwice(store: Store, data: SongData, faults: Faults, s1: Store)
    requires UpdateSong(store, data, faults) == Ok(s1)
    ensures UpdateSong(s1, data, faults) == Ok(s1)
  {
    MergeIdempotent(store[KeyOf(data)], data);
    assert s1[KeyOf(data) := Merge(s1[KeyOf(data)], data)] == s1;
  }
}
