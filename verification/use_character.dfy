/** The character hook with its single-slot undo (src/hooks/use-character.ts).

    The hook's state (the requested character id, the loaded character and
    the undo slot) is kept together with the storage medium it writes
    through. React effects and the 5000 ms `setTimeout` become explicit
    events; every path that clears the timer also empties the slot, so the
    timer firing is the `Expire` event of the entry currently armed. */
module UseCharacter {
  import opened Common
  import opened GameTypes
  import opened LocalStorage

  /** The undo window of the source, in milliseconds; it is the `Expire`
      event that models its passing. */
  const UndoWindowMs := 5000

  /** One pending undo: the loaded character's full state before a
      described update. */
  datatype UndoEntry = UndoEntry(
    characterId: string,
    previousState: Character,
    description: string,
    timestamp: string)

  datatype UndoSlot = Idle | Armed(entry: UndoEntry)

  datatype Session = Session(
    medium: Medium,
    characterId: Option<string>,
    character: Option<Character>,
    slot: UndoSlot)

  datatype Event =
    | Update(patch: CharacterPatch, description: Option<string>, now: string)
    | Undo(now: string)
    | Dismiss
    | Expire
    | SwitchCharacter(id: Option<string>, now: string)

  /** `updateCharacter(updates, undoDescription?)`: nothing without a loaded
      character; otherwise a truthy description arms the slot with the
      pre-update snapshot (replacing any earlier entry), an absent or empty
      one leaves the slot as it is, and the merged character is persisted
      and becomes the loaded one, carrying the stamp the repository gave it.
      The source reads the clock twice, once for the entry's `timestamp` and
      once inside `saveCharacter`; one reading `now` serves both here. The
      rest of the store is untouched: the other characters keep their
      positions, and the last id and the version stay as they were. */
  function UpdateCharacter(s: Session, patch: CharacterPatch, description: Option<string>, now: string)
    : (r: Session)
    ensures s.character.None? ==> r == s
    ensures s.character.Some? ==>
      var c := s.character.value;
      var saved := Merge(c, patch).(updatedAt := now);
      && r.character == Some(saved)
      && GetCharacter(r.medium, now, saved.id) == Some(saved)
      && SavedInPlace(GetCharacters(s.medium, now), GetCharacters(r.medium, now), saved)
      && GetLastCharacterId(r.medium, now) == GetLastCharacterId(s.medium, now)
      && GetEnvelope(r.medium, now).version == GetEnvelope(s.medium, now).version
      && r.characterId == s.characterId
      && (IsTruthy(description) ==> r.slot == Armed(UndoEntry(c.id, c, description.value, now)))
      && (!IsTruthy(description) ==> r.slot == s.slot)
  {
    match s.character
    case None => s
    case Some(c) =>
      var slot := if IsTruthy(description) then Armed(UndoEntry(c.id, c, description.value, now)) else s.slot;
      var updated := Merge(c, patch);
      SaveThenGet(s.medium, now, updated, now);
      SaveCharacterShape(s.medium, now, updated, now);
      Session(SaveCharacter(s.medium, now, updated), s.characterId, Some(updated.(updatedAt := now)), slot)
  }

  /** `undo()`: nothing without an entry or a loaded character; an entry for
      another character is discarded without touching anything else; a
      matching entry is restored, persisted and discarded. */
  function Undo(s: Session, now: string): (r: Session)
    ensures s.slot.Idle? || s.character.None? ==> r == s
    ensures s.slot.Armed? && s.character.Some? && s.slot.entry.characterId != s.character.value.id ==>
      r == s.(slot := Idle)
    ensures s.slot.Armed? && s.character.Some? && s.slot.entry.characterId == s.character.value.id ==>
      var restored := s.slot.entry.previousState.(updatedAt := now);
      && r.slot == Idle
      && r.character == Some(restored)
      && GetCharacter(r.medium, now, restored.id) == Some(restored)
      && SavedInPlace(GetCharacters(s.medium, now), GetCharacters(r.medium, now), restored)
      && GetLastCharacterId(r.medium, now) == GetLastCharacterId(s.medium, now)
      && GetEnvelope(r.medium, now).version == GetEnvelope(s.medium, now).version
      && r.characterId == s.characterId
  {
    if s.slot.Idle? || s.character.None? then s
    else if s.slot.entry.characterId != s.character.value.id then s.(slot := Idle)
    else
      var previous := s.slot.entry.previousState;
      SaveThenGet(s.medium, now, previous, now);
      SaveCharacterShape(s.medium, now, previous, now);
      Session(SaveCharacter(s.medium, now, previous), s.characterId, Some(previous.(updatedAt := now)), Idle)
  }

  /** `dismissUndo()`, and the expiry timer firing: the slot is emptied and
      nothing else changes. */
  function ClearSlot(s: Session): (r: Session)
    ensures r.slot == Idle
    ensures r.medium == s.medium && r.character == s.character && r.characterId == s.characterId
  {
    s.(slot := Idle)
  }

  /** A new `characterId`: the reset effect empties the slot, and the load
      effect reads the character (none for an absent or empty id). The
      effects run only when the id changes, so a call with the current id
      is not a re-render. It stands for a page mounting a fresh hook
      instance on the same id, which starts with an empty slot and reads the
      character again. */
  function SwitchTo(s: Session, id: Option<string>, now: string): (r: Session)
    ensures r.slot == Idle && r.medium == s.medium && r.characterId == id
    ensures !IsTruthy(id) ==> r.character == None
    ensures IsTruthy(id) ==> r.character == GetCharacter(s.medium, now, id.value)
  {
    Session(s.medium, id, if IsTruthy(id) then GetCharacter(s.medium, now, id.value) else None, Idle)
  }

  /** The hook as a state machine. Only an update and an undo write to
      storage; dismissal, expiry and a switch leave the slot empty. */
  function Step(s: Session, e: Event): (r: Session)
    ensures e.Dismiss? || e.Expire? || e.SwitchCharacter? ==> r.medium == s.medium && r.slot == Idle
    ensures e.Dismiss? || e.Expire? ==> r.character == s.character && r.characterId == s.characterId
    ensures !e.SwitchCharacter? ==> r.characterId == s.characterId
    ensures s.character.None? && (e.Update? || e.Undo?) ==> r == s
  {
    match e
    case Update(patch, description, now) => UpdateCharacter(s, patch, description, now)
    case Undo(now) => Undo(s, now)
    case Dismiss => ClearSlot(s)
    case Expire => ClearSlot(s)
    case SwitchCharacter(id, now) => SwitchTo(s, id, now)
  }

  /** An armed entry always names the id of the snapshot it holds. */
  predicate SlotConsistent(s: Session) {
    s.slot.Armed? ==> s.slot.entry.characterId == s.slot.entry.previousState.id
  }

  /** Every event keeps the slot consistent. */
  lemma StepKeepsSlotConsistent(s: Session, e: Event)
    requires SlotConsistent(s)
    ensures SlotConsistent(Step(s, e))
  {
  }

  /** Undoing a described update that kept the character's id restores the
      pre-update state, in memory and in storage, and empties the slot. */
  lemma UndoRestoresPreUpdateState(s: Session, patch: CharacterPatch, d: string, t1: string, t2: string)
    requires s.character.Some? && d != ""
    requires patch.id.None? || patch.id == Some(s.character.value.id)
    ensures var c := s.character.value;
            var u := Undo(UpdateCharacter(s, patch, Some(d), t1), t2);
            && u.character == Some(c.(updatedAt := t2))
            && GetCharacter(u.medium, t2, c.id) == Some(c.(updatedAt := t2))
            && u.slot == Idle
  {
  }

  /** A second undo is a no-op. */
  lemma UndoTwiceIsUndoOnce(s: Session, t1: string, t2: string)
    ensures Undo(Undo(s, t1), t2) == Undo(s, t1)
  {
  }

  /** The slot is not a stack: after two described updates only the state
      before the second one can be restored. */
  lemma SlotHoldsOnlyLatest(s: Session, p1: CharacterPatch, d1: string, p2: CharacterPatch, d2: string,
                            t1: string, t2: string, t3: string)
    requires s.character.Some? && d1 != "" && d2 != ""
    requires p1.id.None? && p2.id.None?
    ensures var s1 := UpdateCharacter(s, p1, Some(d1), t1);
            var s2 := UpdateCharacter(s1, p2, Some(d2), t2);
            && s2.slot == Armed(UndoEntry(s.character.value.id, s1.character.value, d2, t2))
            && Undo(s2, t3).character == Some(s1.character.value.(updatedAt := t3))
  {
  }

  /** An update without a description neither arms nor clears the slot, so
      an armed entry survives it and still restores its own snapshot. */
  lemma UndescribedUpdateKeepsEntry(s: Session, patch: CharacterPatch, t1: string)
    requires s.character.Some? && s.slot.Armed?
    ensures UpdateCharacter(s, patch, None, t1).slot == s.slot
    ensures UpdateCharacter(s, patch, Some(""), t1).slot == s.slot
  {
  }

  /** After switching characters, undo is a no-op: the switched-to
      character and the storage stay as they are. */
  lemma UndoAfterSwitchIsNoop(s: Session, id: Option<string>, t1: string, t2: string)
    ensures Undo(SwitchTo(s, id, t1), t2) == SwitchTo(s, id, t1)
  {
  }

  /** An entry for a character other than the loaded one is discarded and
      changes neither the character nor the storage. */
  lemma StaleUndoIsDiscarded(s: Session, t: string)
    requires s.slot.Armed? && s.character.Some? && s.slot.entry.characterId != s.character.value.id
    ensures Undo(s, t).character == s.character && Undo(s, t).medium == s.medium
    ensures Undo(s, t).slot == Idle
  {
  }
}
