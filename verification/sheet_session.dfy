/** The pages wired to the character hook: every user action on the sheet,
    the edit dialog and the combat tracker, fed through `updateCharacter`,
    plus undo, dismissal, expiry and switching characters. The point of
    this module is the stat invariant: starting from a store whose
    characters are all within their limits, no sequence of these actions
    breaks it (an import, which does not range-check characters, can).

    The app mounts its own `useCharacter` on each page, and only the sheet
    page offers undo and dismissal. One session driving every page allows
    more interleavings than the app does, for example a combat edit followed
    by an undo. The invariant covers all of them, so it also covers the
    app's. Moving to another page is a remount with an empty slot; here it
    is `Open` with the last-character id. */
module SheetSession {
  import opened Common
  import opened GameTypes
  import opened Rules
  import opened LocalStorage
  import opened UseCharacter
  import Counter
  import EditCharacterDialog
  import CharacterSheet
  import CombatTracker

  /** The actions a user can take on the loaded character's pages. */
  datatype Action =
    | StatPress(stat: CharacterSheet.Stat, button: Counter.Button)
    | EditSave(name: string, bookTitle: string, skillInput: Option<Option<int>>,
               staminaInput: Option<Option<int>>, luckInput: Option<Option<int>>)
    | AddItem(itemId: string, text: string)
    | RemoveItem(itemId: string)
    | NotesChange(notes: string)
    | PageChange(page: Option<int>)
    | AddEnemy(enemyId: string, nameText: string, skill: Option<int>, stamina: Option<int>)
    | EnemyCounter(index: nat, enemyStat: CombatTracker.EnemyStat, enemyButton: Counter.Button)
    | RemoveEnemy(enemyId: string)
    | ResetCombat
    | UndoPressed
    | DismissUndo
    | UndoExpired
    | Open(characterId: Option<string>)

  /** The edit a page hands to `updateCharacter` for an action on the loaded
      character `c`, if any. */
  function EditFor(c: Character, a: Action): (r: Option<Edit>)
    ensures a.UndoPressed? || a.DismissUndo? || a.UndoExpired? || a.Open? ==> r.None?
    ensures a.NotesChange? || a.PageChange? ==> r.Some? && r.value.description == None
    ensures a.AddEnemy? || a.RemoveEnemy? || a.ResetCombat? || a.RemoveItem? ==>
      r.Some? && IsTruthy(r.value.description)
  {
    match a
    case StatPress(stat, b) => CharacterSheet.HandleStatPress(c, stat, b)
    case EditSave(name, title, skill, stamina, luck) =>
      CharacterSheet.OnEditSave(c, EditCharacterDialog.FillForm(c, name, title, skill, stamina, luck))
    case AddItem(id, text) => CharacterSheet.HandleAddItem(c, id, text)
    case RemoveItem(id) => Some(CharacterSheet.HandleRemoveItem(c, id))
    case NotesChange(notes) => Some(CharacterSheet.HandleNotesChange(notes))
    case PageChange(page) => Some(CharacterSheet.HandlePageChange(page))
    case AddEnemy(id, name, skill, stamina) =>
      Some(CombatTracker.HandleAddEnemy(c.combatEnemies, id, name, skill, stamina))
    case EnemyCounter(i, stat, b) =>
      if i < |c.combatEnemies| then CombatTracker.CardPress(c.combatEnemies, i, stat, b) else None
    case RemoveEnemy(id) => Some(CombatTracker.HandleRemoveEnemy(c.combatEnemies, id))
    case ResetCombat => Some(CombatTracker.HandleResetCombat())
    case UndoPressed => None
    case DismissUndo => None
    case UndoExpired => None
    case Open(_) => None
  }

  /** One action against the hook's session, at clock reading `now`. */
  function Apply(s: Session, a: Action, now: string): Session {
    match a
    case UndoPressed => Step(s, Undo(now))
    case DismissUndo => Step(s, Dismiss)
    case UndoExpired => Step(s, Expire)
    case Open(id) => Step(s, SwitchCharacter(id, now))
    case _ =>
      if s.character.None? then s
      else match EditFor(s.character.value, a)
        case None => s
        case Some(e) => Step(s, Update(e.patch, e.description, now))
  }

  /** Every character in the store is within its limits. */
  predicate StoreWithinLimits(m: Medium) {
    m.Stored? ==> forall c :: c in m.envelope.characters ==> WithinLimits(c)
  }

  /** The session invariant: the store, the loaded character and the undo
      snapshot are all within their limits. */
  predicate Invariant(s: Session) {
    && StoreWithinLimits(s.medium)
    && (s.character.Some? ==> WithinLimits(s.character.value))
    && (s.slot.Armed? ==> WithinLimits(s.slot.entry.previousState))
  }

  /** Every edit a page produces for a character within its limits leaves
      the merged character within its limits. */
  lemma EditKeepsLimits(c: Character, a: Action)
    requires WithinLimits(c)
    requires EditFor(c, a).Some?
    ensures WithinLimits(Merge(c, EditFor(c, a).value.patch))
  {
    match a
    case StatPress(stat, b) =>
      CharacterSheet.StatPressKeepsLimits(c, stat, b);
    case EditSave(name, title, skill, stamina, luck) =>
      EditCharacterDialog.FilledFormKeepsLimits(c, name, title, skill, stamina, luck);
    case _ =>
  }

  /** Saving a character within its limits keeps the store within limits. */
  lemma SaveKeepsStoreWithinLimits(m: Medium, now: string, c: Character)
    requires StoreWithinLimits(m) && WithinLimits(c)
    ensures StoreWithinLimits(SaveCharacter(m, now, c))
  {
    var before := GetCharacters(m, now);
    var saved := c.(updatedAt := now);
    var after := SaveCharacter(m, now, c).envelope.characters;
    forall d | d in after
      ensures WithinLimits(d)
    {
      var k :| 0 <= k < |after| && after[k] == d;
      if IndexOf(before, saved.id) >= 0 {
        if k != IndexOf(before, saved.id) {
          assert d == before[k];
          assert before[k] in before;
        }
      } else {
        if k < |before| {
          assert d == before[k];
          assert before[k] in before;
        }
      }
    }
  }

  /** No action breaks the session invariant. */
  lemma ApplyKeepsInvariant(s: Session, a: Action, now: string)
    requires Invariant(s)
    ensures Invariant(Apply(s, a, now))
  {
    match a
    case UndoPressed =>
      if s.slot.Armed? && s.character.Some? && s.slot.entry.characterId == s.character.value.id {
        SaveKeepsStoreWithinLimits(s.medium, now, s.slot.entry.previousState);
      }
    case DismissUndo =>
    case UndoExpired =>
    case Open(id) =>
      var r := Apply(s, a, now);
      if r.character.Some? {
        assert r.character.value in GetCharacters(s.medium, now);
      }
    case _ =>
      if s.character.Some? && EditFor(s.character.value, a).Some? {
        var c := s.character.value;
        var e := EditFor(c, a).value;
        EditKeepsLimits(c, a);
        SaveKeepsStoreWithinLimits(s.medium, now, Merge(c, e.patch));
      }
  }

  /** Hence no sequence of actions breaks it. */
  lemma {:induction false} RunKeepsInvariant(s: Session, actions: seq<Action>, clock: seq<string>)
    requires Invariant(s) && |clock| == |actions|
    ensures Invariant(Run(s, actions, clock))
    decreases |actions|
  {
    if |actions| > 0 {
      ApplyKeepsInvariant(s, actions[0], clock[0]);
      RunKeepsInvariant(Apply(s, actions[0], clock[0]), actions[1..], clock[1..]);
    }
  }

  /** The session after the actions, each at its clock reading. */
  function Run(s: Session, actions: seq<Action>, clock: seq<string>): Session
    requires |clock| == |actions|
    decreases |actions|
  {
    if |actions| == 0 then s
    else Run(Apply(s, actions[0], clock[0]), actions[1..], clock[1..])
  }

  /** Notes and bookmark edits carry no description, so an armed undo entry
      survives them. Every combat edit is described, so it re-arms the slot
      with the state before it. In the app that slot belongs to the combat
      page's own hook, which offers no undo: the entry is only dropped, by
      the timer or when the page unmounts. */
  lemma UndoArming(s: Session, a: Action, now: string)
    requires s.character.Some?
    ensures a.NotesChange? || a.PageChange? ==> Apply(s, a, now).slot == s.slot
    ensures a.AddEnemy? || a.RemoveEnemy? || a.ResetCombat? ==>
      Apply(s, a, now).slot == Armed(UndoEntry(s.character.value.id, s.character.value,
                                               EditFor(s.character.value, a).value.description.value, now))
  {
  }
}
