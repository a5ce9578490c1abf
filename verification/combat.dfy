/** The combat tracker (src/components/combat/combat-tracker.tsx): adding,
    updating, removing and clearing the enemies of the loaded character, and
    the two counters of each enemy card. Every handler produces the edit it
    hands to the character hook; ids (`nanoid()`) are parameters. */
module CombatTracker {
  import opened Common
  import opened GameTypes
  import opened Keyed
  import Counter

  /** The defaults of the add form's number fields and name. */
  const DefaultEnemyStat := 7
  const DefaultEnemyName := "Adversaire"
  /** The counters' labels and bounds on an enemy card. */
  const SkillCaption := "Habileté"
  const StaminaCaption := "Endurance"
  const EnemySkillMax := 12

  /** `Partial<CombatEnemy>`. */
  datatype EnemyPatch = EnemyPatch(
    id: Option<string>,
    name: Option<string>,
    skill: Option<int>,
    stamina: Option<int>,
    initialSkill: Option<int>,
    initialStamina: Option<int>)

  /** `{ ...e, ...p }`. */
  function MergeEnemy(e: CombatEnemy, p: EnemyPatch): CombatEnemy {
    CombatEnemy(p.id.GetOr(e.id), p.name.GetOr(e.name), p.skill.GetOr(e.skill),
                p.stamina.GetOr(e.stamina), p.initialSkill.GetOr(e.initialSkill),
                p.initialStamina.GetOr(e.initialStamina))
  }

  /** The edit that replaces the enemy list. */
  function EnemiesEdit(es: seq<CombatEnemy>, description: string): (r: Edit)
    ensures r.patch == NoChange.(combatEnemies := Some(es))
    ensures r.description == Some(description)
  {
    Edit(NoChange.(combatEnemies := Some(es)), Some(description))
  }

  predicate UniqueEnemyIds(es: seq<CombatEnemy>) {
    UniqueKeys(es, EnemyId)
  }

  // ------------------------------------------------------------ list helpers

  /** `enemies.find(e => e.id === id)`. */
  function FindEnemy(es: seq<CombatEnemy>, id: string): Option<CombatEnemy> {
    FindBy(es, EnemyId, id)
  }

  /** `enemies.filter(e => e.id !== id)`. */
  function RemoveEnemy(es: seq<CombatEnemy>, id: string): seq<CombatEnemy> {
    RemoveBy(es, EnemyId, id)
  }

  /** `enemies.map(e => e.id === id ? { ...e, ...p } : e)`: every enemy with
      the id is patched, every other one is kept, in place. */
  function UpdateEnemies(es: seq<CombatEnemy>, id: string, p: EnemyPatch): (r: seq<CombatEnemy>)
    ensures |r| == |es|
    ensures forall j :: 0 <= j < |es| && es[j].id == id ==> r[j] == MergeEnemy(es[j], p)
    ensures forall j :: 0 <= j < |es| && es[j].id != id ==> r[j] == es[j]
  {
    if |es| == 0 then []
    else
      var rest := UpdateEnemies(es[1..], id, p);
      [if es[0].id == id then MergeEnemy(es[0], p) else es[0]] + rest
  }

  /** A patch that leaves ids alone keeps the list's ids, position by
      position, and so keeps them unique. */
  lemma UpdateKeepsIds(es: seq<CombatEnemy>, id: string, p: EnemyPatch)
    requires p.id.None?
    ensures forall j :: 0 <= j < |es| ==> UpdateEnemies(es, id, p)[j].id == es[j].id
    ensures UniqueEnemyIds(es) ==> UniqueEnemyIds(UpdateEnemies(es, id, p))
  {
  }

  /** An update for an id that is not in the list changes nothing. */
  lemma UpdateUnknownIdIsIdentity(es: seq<CombatEnemy>, id: string, p: EnemyPatch)
    requires FindEnemy(es, id).None?
    ensures UpdateEnemies(es, id, p) == es
  {
  }

  // ---------------------------------------------------------------- handlers

  /** The enemy the add form describes: the trimmed name or "Adversaire",
      each stat `parseInt(text) || 7`, the initial stats equal to the
      current ones. */
  function NewEnemy(id: string, nameText: string, skill: Option<int>, stamina: Option<int>)
    : (e: CombatEnemy)
    ensures e.id == id
    ensures Trim(nameText) != [] ==> e.name == Trim(nameText)
    ensures Trim(nameText) == [] ==> e.name == DefaultEnemyName
    ensures e.name != []
    ensures skill.Some? && skill.value != 0 ==> e.skill == skill.value
    ensures skill.None? || skill.value == 0 ==> e.skill == DefaultEnemyStat
    ensures stamina.Some? && stamina.value != 0 ==> e.stamina == stamina.value
    ensures stamina.None? || stamina.value == 0 ==> e.stamina == DefaultEnemyStat
    ensures e.initialSkill == e.skill && e.initialStamina == e.stamina
    ensures e.skill != 0 && e.stamina != 0
  {
    var trimmed := Trim(nameText);
    var name := if trimmed != [] then trimmed else DefaultEnemyName;
    var s := OrIfFalsy(skill, DefaultEnemyStat);
    var st := OrIfFalsy(stamina, DefaultEnemyStat);
    CombatEnemy(id, name, s, st, s, st)
  }

  /** `handleAddEnemy`: the new enemy is appended and described by name. */
  function HandleAddEnemy(es: seq<CombatEnemy>, id: string, nameText: string,
                          skill: Option<int>, stamina: Option<int>): (r: Edit)
    ensures var e := NewEnemy(id, nameText, skill, stamina);
            && r.patch == NoChange.(combatEnemies := Some(es + [e]))
            && r.description == Some("Combat : ajout de " + e.name)
  {
    var e := NewEnemy(id, nameText, skill, stamina);
    EnemiesEdit(es + [e], "Combat : ajout de " + e.name)
  }

  /** With a fresh id the added enemy is found under it, after everything
      that was there before. */
  lemma AddThenFind(es: seq<CombatEnemy>, id: string, nameText: string,
                    skill: Option<int>, stamina: Option<int>)
    requires FindEnemy(es, id).None?
    ensures var after := HandleAddEnemy(es, id, nameText, skill, stamina).patch.combatEnemies.value;
            && FindEnemy(after, id) == Some(NewEnemy(id, nameText, skill, stamina))
            && after[..|es|] == es
            && (UniqueEnemyIds(es) ==> UniqueEnemyIds(after))
  {
    var after := es + [NewEnemy(id, nameText, skill, stamina)];
    FindByAfterAbsentPrefix(es, [NewEnemy(id, nameText, skill, stamina)], EnemyId, id);
    assert after[..|es|] == es;
  }

  /** `handleUpdateEnemy(id, updates, description)`. */
  function HandleUpdateEnemy(es: seq<CombatEnemy>, id: string, p: EnemyPatch, description: string)
    : (r: Edit)
    ensures r.patch.combatEnemies.Some? && r.description == Some(description)
    ensures r.patch == NoChange.(combatEnemies := r.patch.combatEnemies)
    ensures var after := r.patch.combatEnemies.value;
            && |after| == |es|
            && (forall j :: 0 <= j < |es| && es[j].id == id ==> after[j] == MergeEnemy(es[j], p))
            && (forall j :: 0 <= j < |es| && es[j].id != id ==> after[j] == es[j])
  {
    EnemiesEdit(UpdateEnemies(es, id, p), description)
  }

  /** `handleRemoveEnemy(id)`: every enemy with the id is dropped; the
      description names the first one, or says "adversaire" when none. */
  function HandleRemoveEnemy(es: seq<CombatEnemy>, id: string): (r: Edit)
    ensures r.patch == NoChange.(combatEnemies := Some(RemoveEnemy(es, id)))
    ensures FindEnemy(es, id).Some? ==>
      r.description == Some("Combat : retrait de " + FindEnemy(es, id).value.name)
    ensures FindEnemy(es, id).None? ==> r.description == Some("Combat : retrait de " + "adversaire")
  {
    var name := match FindEnemy(es, id) case Some(e) => e.name case None => "adversaire";
    EnemiesEdit(RemoveEnemy(es, id), "Combat : retrait de " + name)
  }

  /** After removal the id is gone and everything else remains. */
  lemma RemoveThenFind(es: seq<CombatEnemy>, id: string)
    ensures var after := HandleRemoveEnemy(es, id).patch.combatEnemies.value;
            && FindEnemy(after, id) == None
            && (forall e :: e in es && e.id != id ==> e in after)
  {
    var after := RemoveEnemy(es, id);
    assert forall j :: 0 <= j < |after| ==> after[j] in after;
  }

  /** `handleResetCombat()`: the list is emptied. */
  function HandleResetCombat(): (r: Edit)
    ensures r.patch == NoChange.(combatEnemies := Some([]))
    ensures r.description == Some("Combat réinitialisé")
  {
    EnemiesEdit([], "Combat réinitialisé")
  }

  /** Every combat handler hands over a truthy description, so each one arms
      the undo slot. */
  lemma CombatEditsAreDescribed(es: seq<CombatEnemy>, id: string, nameText: string,
                                skill: Option<int>, stamina: Option<int>)
    ensures IsTruthy(HandleAddEnemy(es, id, nameText, skill, stamina).description)
    ensures IsTruthy(HandleRemoveEnemy(es, id).description)
    ensures IsTruthy(HandleResetCombat().description)
  {
  }

  // -------------------------------------------------------------- enemy card

  /** The card's `dead` flag. */
  predicate IsDefeated(e: CombatEnemy) {
    e.stamina <= 0
  }

  /** The card's flag is the stamina counter's own `isDead`, whose minimum
      is 0. */
  lemma DefeatedIsCounterDead(e: CombatEnemy)
    ensures IsDefeated(e) <==> Counter.IsDead(e.stamina, 0)
  {
  }

  datatype EnemyStat = EnemySkill | EnemyStamina

  /** The range the two counters of a card keep an enemy in. */
  predicate EnemyInRange(e: CombatEnemy) {
    0 <= e.skill <= EnemySkillMax && 0 <= e.stamina <= e.initialStamina
  }

  /** A press on one of a card's counters: skill counts within [0, 12],
      stamina within [0, initialStamina]; the change becomes a one-field
      patch whose description is prefixed with the enemy's name. */
  function EnemyPress(e: CombatEnemy, stat: EnemyStat, b: Counter.Button): (r: Option<(EnemyPatch, string)>)
    ensures stat == EnemySkill ==>
      (r.Some? <==> Counter.Press(SkillCaption, e.skill, 0, EnemySkillMax, b).Some?)
    ensures stat == EnemyStamina ==>
      (r.Some? <==> Counter.Press(StaminaCaption, e.stamina, 0, e.initialStamina, b).Some?)
    ensures r.Some? && stat == EnemySkill ==>
      var ch := Counter.Press(SkillCaption, e.skill, 0, EnemySkillMax, b).value;
      r.value == (EnemyPatch(None, None, Some(ch.value), None, None, None), e.name + " — " + ch.description)
    ensures r.Some? && stat == EnemyStamina ==>
      var ch := Counter.Press(StaminaCaption, e.stamina, 0, e.initialStamina, b).value;
      r.value == (EnemyPatch(None, None, None, Some(ch.value), None, None), e.name + " — " + ch.description)
  {
    match stat
    case EnemySkill =>
      (match Counter.Press(SkillCaption, e.skill, 0, EnemySkillMax, b)
       case None => None
       case Some(ch) => Some((EnemyPatch(None, None, Some(ch.value), None, None, None), e.name + " — " + ch.description)))
    case EnemyStamina =>
      (match Counter.Press(StaminaCaption, e.stamina, 0, e.initialStamina, b)
       case None => None
       case Some(ch) => Some((EnemyPatch(None, None, None, Some(ch.value), None, None), e.name + " — " + ch.description)))
  }

  /** A press on the card of the enemy at position `i`, routed through
      `handleUpdateEnemy` with that enemy's id. */
  function CardPress(es: seq<CombatEnemy>, i: nat, stat: EnemyStat, b: Counter.Button): (r: Option<Edit>)
    requires i < |es|
    ensures r.Some? <==> EnemyPress(es[i], stat, b).Some?
    ensures r.Some? ==> IsTruthy(r.value.description)
  {
    match EnemyPress(es[i], stat, b)
    case None => None
    case Some(pd) => Some(HandleUpdateEnemy(es, es[i].id, pd.0, pd.1))
  }

  /** On a list with unique ids whose enemies are in range, a counter press
      keeps every enemy in range, changes only the pressed enemy and moves
      its stat by exactly one. */
  lemma CardPressKeepsRange(es: seq<CombatEnemy>, i: nat, stat: EnemyStat, b: Counter.Button)
    requires i < |es| && UniqueEnemyIds(es)
    requires forall j :: 0 <= j < |es| ==> EnemyInRange(es[j])
    requires CardPress(es, i, stat, b).Some?
    ensures var after := CardPress(es, i, stat, b).value.patch.combatEnemies.value;
            && |after| == |es|
            && (forall j :: 0 <= j < |es| ==> EnemyInRange(after[j]))
            && (forall j :: 0 <= j < |es| && j != i ==> after[j] == es[j])
            && after[i].id == es[i].id
            && (stat == EnemySkill ==>
                  (after[i] == es[i].(skill := after[i].skill)
                   && (after[i].skill == es[i].skill - 1 || after[i].skill == es[i].skill + 1)))
            && (stat == EnemyStamina ==>
                  (after[i] == es[i].(stamina := after[i].stamina)
                   && (after[i].stamina == es[i].stamina - 1 || after[i].stamina == es[i].stamina + 1)))
  {
    var e := es[i];
    if stat == EnemySkill {
      Counter.PressStaysInRange(SkillCaption, e.skill, 0, EnemySkillMax, b);
    } else {
      Counter.PressStaysInRange(StaminaCaption, e.stamina, 0, e.initialStamina, b);
    }
  }
}
