/** The shared data shapes of the game systems: characters, inventory items,
    combat enemies and dice rolls, plus `Partial<Character>` (a patch) and
    the object spread `{ ...character, ...updates }` that applies one.
    `Character` is the Fighting Fantasy character, the only member of the
    source's character union. Timestamps and ids are opaque strings. */
module GameTypes {
  import opened Common

  /** The game-system tags the data model anticipates. */
  datatype GameSystem = FightingFantasy | LoneWolf | Graal

  datatype InventoryItem = InventoryItem(id: string, name: string)

  function ItemId(i: InventoryItem): string { i.id }

  datatype CombatEnemy = CombatEnemy(
    id: string,
    name: string,
    skill: int,
    stamina: int,
    initialSkill: int,
    initialStamina: int)

  function EnemyId(e: CombatEnemy): string { e.id }

  /** The `type` tag of a dice roll: "1d6" or "2d6". */
  datatype DiceType = OneD6 | TwoD6

  datatype DiceRoll = DiceRoll(
    id: string,
    kind: DiceType,
    values: seq<int>,
    total: int,
    caption: Option<string>,
    timestamp: string)

  datatype Character = Character(
    id: string,
    name: string,
    bookTitle: string,
    gameSystem: GameSystem,
    currentPage: int,
    notes: string,
    createdAt: string,
    updatedAt: string,
    initialSkill: int,
    currentSkill: int,
    initialStamina: int,
    currentStamina: int,
    initialLuck: int,
    currentLuck: int,
    maxFear: int,
    currentFear: int,
    meals: int,
    gold: int,
    inventory: seq<InventoryItem>,
    combatEnemies: seq<CombatEnemy>)

  /** The key the repository looks characters up by. */
  function CharacterId(c: Character): string { c.id }

  /** `Partial<Character>`: a field is overridden exactly when it is `Some`. */
  datatype CharacterPatch = CharacterPatch(
    id: Option<string>,
    name: Option<string>,
    bookTitle: Option<string>,
    gameSystem: Option<GameSystem>,
    currentPage: Option<int>,
    notes: Option<string>,
    createdAt: Option<string>,
    updatedAt: Option<string>,
    initialSkill: Option<int>,
    currentSkill: Option<int>,
    initialStamina: Option<int>,
    currentStamina: Option<int>,
    initialLuck: Option<int>,
    currentLuck: Option<int>,
    maxFear: Option<int>,
    currentFear: Option<int>,
    meals: Option<int>,
    gold: Option<int>,
    inventory: Option<seq<InventoryItem>>,
    combatEnemies: Option<seq<CombatEnemy>>)

  /** The empty object `{}`. */
  const NoChange: CharacterPatch :=
    CharacterPatch(None, None, None, None, None, None, None, None, None, None,
                   None, None, None, None, None, None, None, None, None, None)

  /** The patch that sets every field to the value it has in `c`. */
  function Snapshot(c: Character): CharacterPatch {
    CharacterPatch(
      Some(c.id), Some(c.name), Some(c.bookTitle), Some(c.gameSystem),
      Some(c.currentPage), Some(c.notes), Some(c.createdAt), Some(c.updatedAt),
      Some(c.initialSkill), Some(c.currentSkill),
      Some(c.initialStamina), Some(c.currentStamina),
      Some(c.initialLuck), Some(c.currentLuck),
      Some(c.maxFear), Some(c.currentFear),
      Some(c.meals), Some(c.gold),
      Some(c.inventory), Some(c.combatEnemies))
  }

  /** `{ ...c, ...p }`. */
  function Merge(c: Character, p: CharacterPatch): Character {
    Character(
      p.id.GetOr(c.id),
      p.name.GetOr(c.name),
      p.bookTitle.GetOr(c.bookTitle),
      p.gameSystem.GetOr(c.gameSystem),
      p.currentPage.GetOr(c.currentPage),
      p.notes.GetOr(c.notes),
      p.createdAt.GetOr(c.createdAt),
      p.updatedAt.GetOr(c.updatedAt),
      p.initialSkill.GetOr(c.initialSkill),
      p.currentSkill.GetOr(c.currentSkill),
      p.initialStamina.GetOr(c.initialStamina),
      p.currentStamina.GetOr(c.currentStamina),
      p.initialLuck.GetOr(c.initialLuck),
      p.currentLuck.GetOr(c.currentLuck),
      p.maxFear.GetOr(c.maxFear),
      p.currentFear.GetOr(c.currentFear),
      p.meals.GetOr(c.meals),
      p.gold.GetOr(c.gold),
      p.inventory.GetOr(c.inventory),
      p.combatEnemies.GetOr(c.combatEnemies))
  }

  /** Spreading an empty object changes nothing. */
  lemma MergeNoChange(c: Character)
    ensures Merge(c, NoChange) == c
  {
  }

  /** Spreading a full snapshot of `d` over any character yields `d`. */
  lemma MergeSnapshot(c: Character, d: Character)
    ensures Merge(c, Snapshot(d)) == d
  {
  }

  /** Applying the same patch twice is the same as applying it once. */
  lemma MergeIdempotent(c: Character, p: CharacterPatch)
    ensures Merge(Merge(c, p), p) == Merge(c, p)
  {
  }

  /** The `(updates, undoDescription?)` pair a component hands to the
      character hook's `updateCharacter`. */
  datatype Edit = Edit(patch: CharacterPatch, description: Option<string>)
}
