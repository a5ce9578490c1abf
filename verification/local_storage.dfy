/** The versioned envelope store and the character repository
    (src/lib/storage/local-storage.ts, shapes from src/lib/storage/types.ts).

    The single storage key holds nothing, bytes that do not parse, or an
    envelope: that is `Medium`. Every repository operation is a function of
    the medium before it and of the clock reading `now` (`new Date()`), and an
    operation that writes returns the medium after it. JSON text exchanged
    with the user by export and import is the abstract `Text`, with `Parse`
    and `Serialize` as its codec. */
module LocalStorage {
  import opened Common
  import opened GameTypes
  import opened Keyed

  const StorageVersion := 1

  datatype Envelope = Envelope(
    version: int,
    characters: seq<Character>,
    lastCharacterId: Option<string>,
    updatedAt: string)

  /** The contents of the storage key. */
  datatype Medium = Empty | Corrupt | Stored(envelope: Envelope)

  // ---------------------------------------------------------------- envelope

  /** `createEmptyEnvelope()`. */
  function CreateEmptyEnvelope(now: string): (e: Envelope)
    ensures e.version == StorageVersion && e.characters == []
    ensures e.lastCharacterId == None && e.updatedAt == now
  {
    Envelope(StorageVersion, [], None, now)
  }

  /** `migrate(data)`: today the only step is "any older version becomes
      version 1", keeping every other field. */
  function Migrate(e: Envelope): (r: Envelope)
    ensures r.version == StorageVersion
    ensures r.characters == e.characters && r.lastCharacterId == e.lastCharacterId
    ensures r.updatedAt == e.updatedAt
  {
    e.(version := StorageVersion)
  }

  /** Migrating twice is migrating once. */
  lemma MigrateIdempotent(e: Envelope)
    ensures Migrate(Migrate(e)) == Migrate(e)
  {
  }

  /** `getEnvelope()`: an empty or unparsable medium reads as a fresh empty
      envelope; a stored envelope older than the running version is read
      migrated (the migration is not written back); any other one is read
      as stored. */
  function GetEnvelope(m: Medium, now: string): (e: Envelope)
    ensures !m.Stored? ==> e == CreateEmptyEnvelope(now)
    ensures m.Stored? ==>
      && e.version == Max(m.envelope.version, StorageVersion)
      && e.characters == m.envelope.characters
      && e.lastCharacterId == m.envelope.lastCharacterId
      && e.updatedAt == m.envelope.updatedAt
    ensures e.version >= StorageVersion
  {
    match m
    case Empty => CreateEmptyEnvelope(now)
    case Corrupt => CreateEmptyEnvelope(now)
    case Stored(data) => if data.version < StorageVersion then Migrate(data) else data
  }

  /** `saveEnvelope(envelope)`: stamps `updatedAt` and overwrites the whole
      medium. */
  function SaveEnvelope(e: Envelope, now: string): (m: Medium)
    ensures m.Stored? && m.envelope.updatedAt == now
    ensures m.envelope.version == e.version && m.envelope.characters == e.characters
    ensures m.envelope.lastCharacterId == e.lastCharacterId
  {
    Stored(e.(updatedAt := now))
  }

  /** Reading back what was just written yields it, with its new stamp. */
  lemma ReadAfterWrite(e: Envelope, now: string, later: string)
    requires e.version >= StorageVersion
    ensures GetEnvelope(SaveEnvelope(e, now), later) == e.(updatedAt := now)
  {
  }

  // ----------------------------------------------------------- list helpers

  /** `characters.findIndex(c => c.id === id)`. */
  function IndexOf(cs: seq<Character>, id: string): int {
    IndexBy(cs, CharacterId, id)
  }

  /** `characters.find(c => c.id === id) ?? null`. */
  function Find(cs: seq<Character>, id: string): Option<Character> {
    FindBy(cs, CharacterId, id)
  }

  /** `characters.filter(c => c.id !== id)`. */
  function RemoveId(cs: seq<Character>, id: string): seq<Character> {
    RemoveBy(cs, CharacterId, id)
  }

  predicate UniqueIds(cs: seq<Character>) {
    UniqueKeys(cs, CharacterId)
  }

  /** The list part of `saveCharacter`: replace the first character with the
      same id in place, or push it at the end. */
  function Upsert(cs: seq<Character>, c: Character): (r: seq<Character>)
    ensures IndexOf(cs, c.id) >= 0 ==>
      && |r| == |cs|
      && r[IndexOf(cs, c.id)] == c
      && forall j :: 0 <= j < |cs| && j != IndexOf(cs, c.id) ==> r[j] == cs[j]
    ensures IndexOf(cs, c.id) < 0 ==> r == cs + [c]
  {
    var i := IndexOf(cs, c.id);
    if i >= 0 then cs[i := c] else cs + [c]
  }

  /** An upsert keeps ids unique, and finding the id afterwards yields the
      saved character. */
  lemma UpsertProperties(cs: seq<Character>, c: Character)
    ensures UniqueIds(cs) ==> UniqueIds(Upsert(cs, c))
    ensures Find(Upsert(cs, c), c.id) == Some(c)
  {
    var r := Upsert(cs, c);
    var i := IndexOf(cs, c.id);
    if i >= 0 {
      assert IndexOf(r, c.id) == i by {
        IndexByFirstMatch(r, CharacterId, c.id, i);
      }
    } else {
      assert IndexOf(r, c.id) == |cs| by {
        IndexByFirstMatch(r, CharacterId, c.id, |cs|);
      }
    }
    FindByIsFirst(r, CharacterId, c.id);
  }

  // ------------------------------------------------------------- repository

  /** `getCharacters()`: the envelope's list, in stored order. */
  function GetCharacters(m: Medium, now: string): (cs: seq<Character>)
    ensures m.Stored? ==> cs == m.envelope.characters
    ensures !m.Stored? ==> cs == []
  {
    GetEnvelope(m, now).characters
  }

  /** `getCharacter(id)`: the first character with the id, or null. */
  function GetCharacter(m: Medium, now: string, id: string): (r: Option<Character>)
    ensures r.Some? ==> r.value in GetCharacters(m, now) && r.value.id == id
    ensures r.None? <==> forall c :: c in GetCharacters(m, now) ==> c.id != id
  {
    Find(GetEnvelope(m, now).characters, id)
  }

  /** `saveCharacter(character)`: stamps the character's `updatedAt`, then
      upserts it by id and writes the envelope. */
  function SaveCharacter(m: Medium, now: string, c: Character): (r: Medium)
    ensures r.Stored? && r.envelope.updatedAt == now
    ensures r.envelope.version == GetEnvelope(m, now).version
    ensures r.envelope.lastCharacterId == GetEnvelope(m, now).lastCharacterId
    ensures r.envelope.characters == Upsert(GetCharacters(m, now), c.(updatedAt := now))
  {
    var e := GetEnvelope(m, now);
    SaveEnvelope(e.(characters := Upsert(e.characters, c.(updatedAt := now))), now)
  }

  /** After a save, the id reads back as the saved character (with its new
      stamp), whether it was new or replaced; saving keeps ids unique. */
  lemma SaveThenGet(m: Medium, now: string, c: Character, later: string)
    ensures GetCharacter(SaveCharacter(m, now, c), later, c.id) == Some(c.(updatedAt := now))
    ensures UniqueIds(GetCharacters(m, now)) ==> UniqueIds(GetCharacters(SaveCharacter(m, now, c), later))
  {
    UpsertProperties(GetCharacters(m, now), c.(updatedAt := now));
  }

  /** Saving an existing id replaces it in place: the length and every other
      position are unchanged. Saving a new id appends it at the end. */
  lemma SaveCharacterShape(m: Medium, now: string, c: Character, later: string)
    ensures var before := GetCharacters(m, now);
            var after := GetCharacters(SaveCharacter(m, now, c), later);
            var i := IndexOf(before, c.id);
            && (i >= 0 ==> |after| == |before| && after[i] == c.(updatedAt := now)
                           && forall j :: 0 <= j < |before| && j != i ==> after[j] == before[j])
            && (i < 0 ==> after == before + [c.(updatedAt := now)])
  {
  }

  /** `after` is `before` with the first character carrying `c.id` replaced
      by `c` in place, or with `c` appended when none carries it: every other
      character keeps its position and value. */
  predicate SavedInPlace(before: seq<Character>, after: seq<Character>, c: Character) {
    var i := IndexOf(before, c.id);
    && (i >= 0 ==> |after| == |before| && after[i] == c
                   && forall j :: 0 <= j < |before| && j != i ==> after[j] == before[j])
    && (i < 0 ==> after == before + [c])
  }

  /** The new value of `lastCharacterId` after deleting `id` from a list
      leaving `rest`. */
  function RepairLastId(last: Option<string>, id: string, rest: seq<Character>): (r: Option<string>)
    ensures last != Some(id) ==> r == last
    ensures last == Some(id) && |rest| > 0 ==> r == Some(rest[0].id)
    ensures last == Some(id) && |rest| == 0 ==> r == None
  {
    if last == Some(id) then (if |rest| > 0 then Some(rest[0].id) else None) else last
  }

  /** `deleteCharacter(id)`: drops every character with the id and repairs
      the last-character id if it was the deleted id. */
  function DeleteCharacter(m: Medium, now: string, id: string): (r: Medium)
    ensures r.Stored? && r.envelope.updatedAt == now
    ensures r.envelope.version == GetEnvelope(m, now).version
    ensures r.envelope.characters == RemoveId(GetCharacters(m, now), id)
    ensures r.envelope.lastCharacterId ==
      RepairLastId(GetEnvelope(m, now).lastCharacterId, id, r.envelope.characters)
  {
    var e := GetEnvelope(m, now);
    var rest := RemoveId(e.characters, id);
    SaveEnvelope(e.(characters := rest, lastCharacterId := RepairLastId(e.lastCharacterId, id, rest)), now)
  }

  /** After a delete the id is gone, the last-character id never names it, ids stay
      unique, and an unknown id leaves the list as it was. */
  lemma DeleteProperties(m: Medium, now: string, id: string, later: string)
    ensures GetCharacter(DeleteCharacter(m, now, id), later, id) == None
    ensures GetLastCharacterId(DeleteCharacter(m, now, id), later) != Some(id)
    ensures UniqueIds(GetCharacters(m, now)) ==> UniqueIds(GetCharacters(DeleteCharacter(m, now, id), later))
    ensures GetCharacter(m, now, id) == None ==>
      GetCharacters(DeleteCharacter(m, now, id), later) == GetCharacters(m, now)
  {
    if UniqueIds(GetCharacters(m, now)) {
      RemoveByKeepsUnique(GetCharacters(m, now), CharacterId, id);
    }
  }

  /** `getLastCharacterId()`. */
  function GetLastCharacterId(m: Medium, now: string): (r: Option<string>)
    ensures m.Stored? ==> r == m.envelope.lastCharacterId
    ensures !m.Stored? ==> r == None
  {
    GetEnvelope(m, now).lastCharacterId
  }

  /** `setLastCharacterId(id)`: stores any id, whether or not a character
      has it; nothing else in the envelope changes but the stamp. */
  function SetLastCharacterId(m: Medium, now: string, id: string): (r: Medium)
    ensures r.Stored? && r.envelope.lastCharacterId == Some(id) && r.envelope.updatedAt == now
    ensures r.envelope.characters == GetCharacters(m, now)
    ensures r.envelope.version == GetEnvelope(m, now).version
  {
    SaveEnvelope(GetEnvelope(m, now).(lastCharacterId := Some(id)), now)
  }

  /** Reading the last-character id back after setting it gives the id that was set,
      and the characters read as before. */
  lemma SetThenGetLastId(m: Medium, now: string, id: string, later: string)
    ensures GetLastCharacterId(SetLastCharacterId(m, now, id), later) == Some(id)
    ensures GetCharacters(SetLastCharacterId(m, now, id), later) == GetCharacters(m, now)
  {
  }

  // ------------------------------------------------------- export / import

  /** A parsed JSON document, seen through the fields the store reads:
      `version` is `Some(n)` for an integer `n` (0 included), and `None`
      when it is absent, null, false, NaN or the empty string; `characters` is `None` when it is not an array;
      `lastCharacterId` is `None` for null. A truthy version that is not an
      integer has no representation here. Neither does the document `null`,
      on which reading `version` throws a TypeError that the import reports
      as an import error. */
  datatype Payload = Payload(
    version: Option<int>,
    characters: Option<seq<Character>>,
    lastCharacterId: Option<string>,
    updatedAt: string)

  /** JSON text: a document, or text `JSON.parse` rejects. */
  datatype Text = Document(payload: Payload) | NotJson(raw: string)

  /** `JSON.stringify(envelope)`. */
  function Serialize(e: Envelope): Text {
    Document(Payload(Some(e.version), Some(e.characters), e.lastCharacterId, e.updatedAt))
  }

  /** `JSON.parse(text)`; `None` stands for the thrown syntax error. */
  function Parse(t: Text): (r: Option<Payload>)
    ensures r.None? <==> t.NotJson?
    ensures t.Document? ==> r == Some(t.payload)
  {
    match t
    case Document(p) => Some(p)
    case NotJson(_) => None
  }

  /** The import validation: `version` truthy (present and non-zero) and
      `characters` an array. */
  predicate IsValidPayload(p: Payload) {
    p.version.Some? && p.version.value != 0 && p.characters.Some?
  }

  /** The envelope a valid payload stands for. */
  function ToEnvelope(p: Payload): Envelope
    requires IsValidPayload(p)
  {
    Envelope(p.version.value, p.characters.value, p.lastCharacterId, p.updatedAt)
  }

  /** The codec round trip: parsing a serialized envelope gives back a valid
      payload standing for that very envelope. */
  lemma ParseSerialize(e: Envelope)
    requires e.version != 0
    ensures Parse(Serialize(e)).Some?
    ensures IsValidPayload(Parse(Serialize(e)).value)
    ensures ToEnvelope(Parse(Serialize(e)).value) == e
  {
  }

  /** `exportData()`: the whole envelope as read, serialized. */
  function ExportData(m: Medium, now: string): (t: Text)
    ensures Parse(t).Some? && IsValidPayload(Parse(t).value)
    ensures ToEnvelope(Parse(t).value) == GetEnvelope(m, now)
  {
    Serialize(GetEnvelope(m, now))
  }

  /** Why an import failed: the text is not JSON, or it lacks a truthy
      `version` or an array `characters` ("Format de données invalide"). */
  datatype ImportError = SyntaxError | InvalidFormat

  /** The outcome of `importData`: the error it throws, if any, and the
      medium afterwards. */
  datatype ImportOutcome = ImportOutcome(error: Option<ImportError>, medium: Medium)

  /** `importData(json)`: on a valid payload, replaces the whole envelope
      (migrated if older) and writes it; otherwise fails and leaves the medium
      untouched. */
  function ImportData(m: Medium, now: string, t: Text): (r: ImportOutcome)
    ensures Parse(t).None? ==> r == ImportOutcome(Some(SyntaxError), m)
    ensures Parse(t).Some? && !IsValidPayload(Parse(t).value) ==> r == ImportOutcome(Some(InvalidFormat), m)
    ensures Parse(t).Some? && IsValidPayload(Parse(t).value) ==>
      var p := Parse(t).value;
      && r.error == None
      && r.medium == Stored(Envelope(Max(p.version.value, StorageVersion), p.characters.value, p.lastCharacterId, now))
  {
    match Parse(t)
    case None => ImportOutcome(Some(SyntaxError), m)
    case Some(p) =>
      if !IsValidPayload(p) then ImportOutcome(Some(InvalidFormat), m)
      else
        var imported := ToEnvelope(p);
        var migrated := if imported.version < StorageVersion then Migrate(imported) else imported;
        ImportOutcome(None, SaveEnvelope(migrated, now))
  }

  /** Importing an export succeeds and reproduces the exported characters
      (same order) and last-character id, whatever the target held. */
  lemma ExportImportRoundTrip(source: Medium, t0: string, target: Medium, t1: string, t2: string)
    ensures ImportData(target, t1, ExportData(source, t0)).error == None
    ensures GetCharacters(ImportData(target, t1, ExportData(source, t0)).medium, t2) == GetCharacters(source, t0)
    ensures GetLastCharacterId(ImportData(target, t1, ExportData(source, t0)).medium, t2) == GetLastCharacterId(source, t0)
  {
  }

  /** A rejected import leaves every later read as it was. */
  lemma RejectedImportKeepsData(m: Medium, now: string, t: Text, later: string)
    requires ImportData(m, now, t).error.Some?
    ensures GetCharacters(ImportData(m, now, t).medium, later) == GetCharacters(m, later)
    ensures GetLastCharacterId(ImportData(m, now, t).medium, later) == GetLastCharacterId(m, later)
  {
  }

  /** The test scenario: a document without `version`, or without an array
      `characters`, is rejected. */
  lemma ImportRejectsIncompleteDocuments(m: Medium, now: string, cs: seq<Character>)
    ensures ImportData(m, now, Document(Payload(None, Some(cs), None, ""))) == ImportOutcome(Some(InvalidFormat), m)
    ensures ImportData(m, now, Document(Payload(Some(1), None, None, ""))) == ImportOutcome(Some(InvalidFormat), m)
    ensures ImportData(m, now, Document(Payload(Some(0), Some(cs), None, ""))) == ImportOutcome(Some(InvalidFormat), m)
    ensures ImportData(m, now, NotJson("pas du json")) == ImportOutcome(Some(SyntaxError), m)
  {
  }
}
