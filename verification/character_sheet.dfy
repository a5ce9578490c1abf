/** The character sheet (src/components/character/character-sheet.tsx): the
    six stat counters and their bounds, the inventory, notes and bookmark
    handlers, and the edit dialog's save. Every handler produces the edit it
    hands to the character hook; item ids (`nanoid()`) are parameters. */
module CharacterSheet {
  import opened Common
  import opened GameTypes
  import opened Keyed
  import opened Rules
  import Counter
  import EditCharacterDialog

  /** The counters of the sheet, one per stat it shows. */
  datatype Stat = Skill | Stamina | Luck | Fear | Meals | Gold

  /** The props a stat's counter is rendered with. */
  datatype CounterProps = CounterProps(caption: string, value: int, min: int, max: int)

  /** The configuration's stat labels. */
  function Caption(s: Stat): string {
    match s
    case Skill => "Habileté"
    case Stamina => "Endurance"
    case Luck => "Chance"
    case Fear => "Peur"
    case Meals => "Provisions"
    case Gold => "Pièces d'or"
  }

  /** The character field a stat's counter shows. */
  function StatValue(c: Character, s: Stat): int {
    match s
    case Skill => c.currentSkill
    case Stamina => c.currentStamina
    case Luck => c.currentLuck
    case Fear => c.currentFear
    case Meals => c.meals
    case Gold => c.gold
  }

  /** The fear counter is rendered only for a character with a positive
      fear maximum; the others always are. */
  predicate Shown(c: Character, s: Stat) {
    s != Fear || c.maxFear > 0
  }

  /** The bounds each counter is given: skill from 1 up to the initial skill,
      stamina and luck from 0 up to their initial values, fear from 0 up to
      its maximum, meals and gold within [0, 99]. */
  function CounterFor(c: Character, s: Stat): (p: CounterProps)
    ensures p.caption == Caption(s) && p.value == StatValue(c, s)
    ensures s == Skill ==> p.min == SkillMin && p.max == c.initialSkill
    ensures s == Stamina ==> p.min == StaminaMin && p.max == c.initialStamina
    ensures s == Luck ==> p.min == LuckMin && p.max == c.initialLuck
    ensures s == Fear ==> p.min == FearMin && p.max == c.maxFear
    ensures s == Meals ==> p.min == MealsMin && p.max == MealsMax
    ensures s == Gold ==> p.min == GoldMin && p.max == GoldMax
  {
    match s
    case Skill => CounterProps(Caption(s), c.currentSkill, SkillMin, c.initialSkill)
    case Stamina => CounterProps(Caption(s), c.currentStamina, StaminaMin, c.initialStamina)
    case Luck => CounterProps(Caption(s), c.currentLuck, LuckMin, c.initialLuck)
    case Fear => CounterProps(Caption(s), c.currentFear, FearMin, c.maxFear)
    case Meals => CounterProps(Caption(s), c.meals, MealsMin, MealsMax)
    case Gold => CounterProps(Caption(s), c.gold, GoldMin, GoldMax)
  }

  /** `{ [field]: value }` for the field a stat's counter shows. */
  function SetStat(s: Stat, v: int): (p: CharacterPatch) {
    match s
    case Skill => NoChange.(currentSkill := Some(v))
    case Stamina => NoChange.(currentStamina := Some(v))
    case Luck => NoChange.(currentLuck := Some(v))
    case Fear => NoChange.(currentFear := Some(v))
    case Meals => NoChange.(meals := Some(v))
    case Gold => NoChange.(gold := Some(v))
  }

  /** Spreading a one-stat patch sets that stat and nothing else. */
  lemma SetStatChangesOnlyThatStat(c: Character, s: Stat, v: int, t: Stat)
    ensures StatValue(Merge(c, SetStat(s, v)), t) == if t == s then v else StatValue(c, t)
    ensures var d := Merge(c, SetStat(s, v));
            && d.id == c.id && d.name == c.name && d.notes == c.notes && d.currentPage == c.currentPage
            && d.initialSkill == c.initialSkill && d.initialStamina == c.initialStamina
            && d.initialLuck == c.initialLuck && d.maxFear == c.maxFear
            && d.inventory == c.inventory && d.combatEnemies == c.combatEnemies
  {
  }

  /** `handleStatChange` behind a counter press: nothing when the counter is
      not rendered or its guard refuses, otherwise the one-stat patch with
      the counter's description. */
  function HandleStatPress(c: Character, s: Stat, b: Counter.Button): (r: Option<Edit>)
    ensures !Shown(c, s) ==> r.None?
    ensures Shown(c, s) ==>
      var p := CounterFor(c, s);
      (r.Some? <==> Counter.Press(p.caption, p.value, p.min, p.max, b).Some?)
    ensures r.Some? ==>
      var ch := Counter.Press(Caption(s), StatValue(c, s), CounterFor(c, s).min, CounterFor(c, s).max, b).value;
      r.value == Edit(SetStat(s, ch.value), Some(ch.description))
  {
    var p := CounterFor(c, s);
    if !Shown(c, s) then None
    else match Counter.Press(p.caption, p.value, p.min, p.max, b)
      case None => None
      case Some(ch) => Some(Edit(SetStat(s, ch.value), Some(ch.description)))
  }

  /** A counter press on a character within its limits keeps it within its
      limits, moves exactly the pressed stat by one, and is always described,
      so it arms the undo slot. */
  lemma StatPressKeepsLimits(c: Character, s: Stat, b: Counter.Button)
    requires WithinLimits(c)
    requires HandleStatPress(c, s, b).Some?
    ensures var d := Merge(c, HandleStatPress(c, s, b).value.patch);
            && WithinLimits(d)
            && (StatValue(d, s) == StatValue(c, s) - 1 || StatValue(d, s) == StatValue(c, s) + 1)
            && (forall t :: t != s ==> StatValue(d, t) == StatValue(c, t))
    ensures IsTruthy(HandleStatPress(c, s, b).value.description)
  {
    var p := CounterFor(c, s);
    var ch := Counter.Press(p.caption, p.value, p.min, p.max, b).value;
    var d := Merge(c, SetStat(s, ch.value));
    forall t | t != s
      ensures StatValue(d, t) == StatValue(c, t)
    {
      SetStatChangesOnlyThatStat(c, s, ch.value, t);
    }
    SetStatChangesOnlyThatStat(c, s, ch.value, s);
  }

  /** At a counter's bound the button pointing past it does nothing. */
  lemma CounterRefusesAtBounds(c: Character, s: Stat)
    ensures StatValue(c, s) <= CounterFor(c, s).min ==> HandleStatPress(c, s, Counter.Minus) == None
    ensures StatValue(c, s) >= CounterFor(c, s).max ==> HandleStatPress(c, s, Counter.Plus) == None
  {
  }

  /** The stamina counter's critical flag, fed the initial stamina and the
      0.25 threshold, is the ruleset's `isStaminaCritical` for every
      non-negative initial stamina; for a negative one the counter never
      flags while the ruleset may. The sheet's death banner is the stamina
      counter's `isDead`. */
  lemma StaminaCounterMatchesRules(c: Character)
    ensures c.initialStamina >= 0 ==>
      Counter.IsCritical(c.currentStamina, Some(c.initialStamina), Some(CriticalThreshold)) == IsStaminaCritical(c)
    ensures c.initialStamina < 0 ==> !Counter.IsCritical(c.currentStamina, Some(c.initialStamina), Some(CriticalThreshold))
    ensures Counter.IsDead(c.currentStamina, StaminaMin) == IsDead(c)
  {
  }

  // -------------------------------------------------------------- inventory

  /** `inventory.find(i => i.id === id)`. */
  function FindItem(items: seq<InventoryItem>, id: string): Option<InventoryItem> {
    FindBy(items, ItemId, id)
  }

  /** `inventory.filter(i => i.id !== id)`. */
  function RemoveItem(items: seq<InventoryItem>, id: string): seq<InventoryItem> {
    RemoveBy(items, ItemId, id)
  }

  /** `handleAddItem`: nothing for a blank name; otherwise the trimmed name
      is appended as a new item and described. */
  function HandleAddItem(c: Character, id: string, text: string): (r: Option<Edit>)
    ensures r.None? <==> AllSpace(text)
    ensures r.Some? ==>
      && r.value.patch == NoChange.(inventory := Some(c.inventory + [InventoryItem(id, Trim(text))]))
      && r.value.description == Some("Ajout : " + Trim(text))
  {
    var name := Trim(text);
    if name == [] then None
    else Some(Edit(NoChange.(inventory := Some(c.inventory + [InventoryItem(id, name)])), Some("Ajout : " + name)))
  }

  /** An added item keeps everything already in the inventory, in order, and
      carries a name with no surrounding white space. */
  lemma AddItemAppends(c: Character, id: string, text: string)
    requires HandleAddItem(c, id, text).Some?
    ensures var after := Merge(c, HandleAddItem(c, id, text).value.patch).inventory;
            && |after| == |c.inventory| + 1
            && after[..|c.inventory|] == c.inventory
            && after[|c.inventory|].id == id
            && after[|c.inventory|].name != []
            && !IsJsSpace(after[|c.inventory|].name[0])
  {
    var after := c.inventory + [InventoryItem(id, Trim(text))];
    assert after[..|c.inventory|] == c.inventory;
  }

  /** `handleRemoveItem(id)`: every item with the id is dropped; the
      description names the first one, or says "objet". */
  function HandleRemoveItem(c: Character, id: string): (r: Edit)
    ensures r.patch == NoChange.(inventory := Some(RemoveItem(c.inventory, id)))
    ensures FindItem(c.inventory, id).Some? ==>
      r.description == Some("Retrait : " + FindItem(c.inventory, id).value.name)
    ensures FindItem(c.inventory, id).None? ==> r.description == Some("Retrait : " + "objet")
  {
    var name := match FindItem(c.inventory, id) case Some(i) => i.name case None => "objet";
    Edit(NoChange.(inventory := Some(RemoveItem(c.inventory, id))), Some("Retrait : " + name))
  }

  /** After a removal no item has the id and every other item remains. */
  lemma RemoveItemThenFind(c: Character, id: string)
    ensures var after := Merge(c, HandleRemoveItem(c, id).patch).inventory;
            && FindItem(after, id) == None
            && (forall i :: i in c.inventory && i.id != id ==> i in after)
  {
    var after := RemoveItem(c.inventory, id);
    assert forall j :: 0 <= j < |after| ==> after[j] in after;
  }

  /** `handleNotesChange(notes)`: an undescribed notes patch. */
  function HandleNotesChange(notes: string): (r: Edit)
    ensures r.patch == NoChange.(notes := Some(notes)) && r.description == None
  {
    Edit(NoChange.(notes := Some(notes)), None)
  }

  /** The bookmark input: `handlePageChange(parseInt(text) || 0)`, an
      undescribed page patch, 0 when the text is not a number. */
  function HandlePageChange(parsed: Option<int>): (r: Edit)
    ensures r.patch == NoChange.(currentPage := Some(parsed.GetOr(0))) && r.description == None
  {
    Edit(NoChange.(currentPage := Some(OrIfFalsy(parsed, 0))), None)
  }

  /** The edit dialog's `onSave`: the dialog's patch, described as
      "Personnage modifié"; nothing when the dialog saves nothing. */
  function OnEditSave(c: Character, f: EditCharacterDialog.Form): (r: Option<Edit>)
    ensures r.None? <==> EditCharacterDialog.HandleSave(c, f).None?
    ensures r.Some? ==> r.value.patch == EditCharacterDialog.HandleSave(c, f).value
    ensures r.Some? ==> r.value.description == Some("Personnage modifié")
  {
    match EditCharacterDialog.HandleSave(c, f)
    case None => None
    case Some(p) => Some(Edit(p, Some("Personnage modifié")))
  }
}
