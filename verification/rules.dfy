/** The Fighting Fantasy ruleset (src/lib/game-systems/fighting-fantasy/rules.ts):
    stat limits, creation rolls, the critical-stamina and death predicates,
    eating a meal and testing one's luck. The float ratio of the critical
    test is the exact real quotient here; for the small integers involved
    the double comparison against 0.25 gives the same answer. */
module Rules {
  import opened Common
  import opened GameTypes
  import opened DiceEngine

  // FF_LIMITS
  const SkillMin := 1
  const SkillMax := 12
  const StaminaMin := 0
  const StaminaMax := 24
  const LuckMin := 0
  const LuckMax := 12
  const FearMin := 0
  const FearMax := 18
  const MealsMin := 0
  const MealsMax := 99
  const GoldMin := 0
  const GoldMax := 99
  const StaminaHealPerMeal := 4
  const CriticalThreshold: real := 0.25

  /** The stat invariant every write path is meant to keep: each current
      value lies between 0 and its initial (or maximum) value, and meals and
      gold stay within their counters' range. */
  predicate WithinLimits(c: Character) {
    && 0 <= c.currentSkill <= c.initialSkill
    && 0 <= c.currentStamina <= c.initialStamina
    && 0 <= c.currentLuck <= c.initialLuck
    && 0 <= c.currentFear <= c.maxFear
    && MealsMin <= c.meals <= MealsMax
    && GoldMin <= c.gold <= GoldMax
  }

  /** `clamp(value, min, max)`: `Math.min(Math.max(value, min), max)`. */
  function Clamp(value: int, lo: int, hi: int): (r: int)
    ensures lo <= value <= hi ==> r == value
    ensures value < lo <= hi ==> r == lo
    ensures hi < value ==> r == hi
    ensures hi < lo ==> r == hi
    ensures lo <= hi ==> lo <= r <= hi
  {
    Min(Max(value, lo), hi)
  }

  /** The test vectors of `clamp`. */
  lemma ClampExamples()
    ensures Clamp(5, 0, 10) == 5 && Clamp(-3, 0, 10) == 0
    ensures Clamp(15, 0, 10) == 10 && Clamp(5, 3, 3) == 3
  {
  }

  /** `rollCreationStat(diceCount, bonus)`: the loop adds one fresh die per
      iteration, then adds the bonus. `diceCount` is typed `1 | 2`. */
  method RollCreationStat(diceCount: int, bonus: int, draws: seq<Draw>) returns (total: int)
    requires diceCount == 1 || diceCount == 2
    requires AllValid(draws) && |draws| >= diceCount
    ensures total == Sum(Faces(draws[..diceCount])) + bonus
    ensures diceCount + bonus <= total <= 6 * diceCount + bonus
  {
    total := 0;
    var i := 0;
    while i < diceCount
      invariant 0 <= i <= diceCount
      invariant total == Sum(Faces(draws[..i]))
    {
      FacesStep(draws, i);
      total := total + RollD6(draws[i]);
      i := i + 1;
    }
    FacesSumBounds(draws[..diceCount]);
    total := total + bonus;
  }

  /** The faces of `n` draws sum to between `n` and `6 * n`. */
  lemma FacesSumBounds(draws: seq<Draw>)
    requires AllValid(draws)
    ensures |draws| <= Sum(Faces(draws)) <= 6 * |draws|
  {
    var faces := Faces(draws);
    forall j | 0 <= j < |faces|
      ensures IsFace(faces[j])
    {
      assert faces[j] == RollD6(draws[j]);
    }
    SumOfFacesBounds(faces);
  }

  /** Rolling one more die adds its face to the running sum. */
  lemma FacesStep(draws: seq<Draw>, i: nat)
    requires AllValid(draws) && i < |draws|
    ensures Sum(Faces(draws[..i + 1])) == Sum(Faces(draws[..i])) + RollD6(draws[i])
  {
    assert draws[..i + 1][..i] == draws[..i];
    var f := Faces(draws[..i + 1]);
    assert f[..|f| - 1] == Faces(draws[..i]);
  }

  /** The creation formulas: skill and luck are 1d6+6 (7..12), stamina is
      2d6+12 (14..24). */
  method RollCharacterStats(draws: seq<Draw>) returns (skill: int, stamina: int, luck: int)
    requires AllValid(draws) && |draws| >= 4
    ensures 7 <= skill <= 12 && 14 <= stamina <= 24 && 7 <= luck <= 12
    ensures skill == RollD6(draws[0]) + 6
    ensures stamina == RollD6(draws[1]) + RollD6(draws[2]) + 12
    ensures luck == RollD6(draws[3]) + 6
  {
    skill := RollCreationStat(1, 6, draws);
    assert draws[..1] == [draws[0]];
    FacesOfOne(draws[0]);
    stamina := RollCreationStat(2, 12, draws[1..]);
    assert draws[1..][..2] == [draws[1], draws[2]];
    FacesOfTwo(draws[1], draws[2]);
    luck := RollCreationStat(1, 6, draws[3..]);
    assert draws[3..][..1] == [draws[3]];
    FacesOfOne(draws[3]);
  }

  /** A single draw sums to its face. */
  lemma FacesOfOne(d: Draw)
    requires d.Valid()
    ensures Sum(Faces([d])) == RollD6(d)
  {
    assert [d][..0] == [];
  }

  /** Two draws sum to their two faces. */
  lemma FacesOfTwo(d: Draw, e: Draw)
    requires d.Valid() && e.Valid()
    ensures Sum(Faces([d, e])) == RollD6(d) + RollD6(e)
  {
    assert [d, e][..1] == [d];
    FacesOfOne(d);
  }

  /** For a positive denominator, `cur / init < 1/4` is `4 * cur < init`;
      for a negative one the inequality flips. */
  lemma QuarterRatio(cur: int, init: int)
    requires init != 0
    ensures init > 0 ==> ((cur as real) / (init as real) < 0.25 <==> 4 * cur < init)
    ensures init < 0 ==> ((cur as real) / (init as real) < 0.25 <==> 4 * cur > init)
  {
    var c, n := cur as real, init as real;
    if init > 0 {
      RatioBelow(c, n, 0.25);
    } else {
      assert c / n == (-c) / (-n);
      RatioBelow(-c, -n, 0.25);
    }
  }

  /** `isStaminaCritical`: false when the initial stamina is 0 (the division
      guard), otherwise the ratio current/initial is below one quarter. */
  function IsStaminaCritical(c: Character): (r: bool)
    ensures c.initialStamina == 0 ==> !r
    ensures c.initialStamina > 0 ==> (r <==> 4 * c.currentStamina < c.initialStamina)
    ensures c.initialStamina < 0 ==> (r <==> 4 * c.currentStamina > c.initialStamina)
  {
    if c.initialStamina == 0 then false
    else
      QuarterRatio(c.currentStamina, c.initialStamina);
      (c.currentStamina as real) / (c.initialStamina as real) < CriticalThreshold
  }

  /** `isDead`: stamina at or below zero. */
  predicate IsDead(c: Character) {
    c.currentStamina <= 0
  }

  /** A dead character with a positive initial stamina is also critical, and
      a critical one is never at or above a quarter of its stamina. */
  lemma DeadIsCritical(c: Character)
    requires c.initialStamina > 0
    ensures IsDead(c) ==> IsStaminaCritical(c)
    ensures IsStaminaCritical(c) ==> c.currentStamina < c.initialStamina
  {
  }

  /** The test vectors of the two predicates. */
  lemma PredicateExamples(c: Character)
    ensures c.initialStamina == 20 && c.currentStamina == 4 ==> IsStaminaCritical(c)
    ensures c.initialStamina == 20 && c.currentStamina == 5 ==> !IsStaminaCritical(c)
    ensures c.initialStamina == 20 && c.currentStamina == 0 ==> IsStaminaCritical(c) && IsDead(c)
    ensures c.currentStamina == -1 ==> IsDead(c)
    ensures c.currentStamina == 1 ==> !IsDead(c)
  {
  }

  /** `eatMeal`: `null` without provisions; otherwise one meal fewer and four
      stamina more, never above the initial stamina. A character already
      above its initial stamina (possible after an import) is brought down
      to it; one at or below it never loses stamina. */
  function EatMeal(c: Character): (r: Option<CharacterPatch>)
    ensures r.None? <==> c.meals <= 0
    ensures r.Some? ==> r.value == NoChange.(meals := r.value.meals, currentStamina := r.value.currentStamina)
    ensures r.Some? ==> r.value.meals == Some(c.meals - 1)
    ensures r.Some? ==> r.value.currentStamina.Some?
    ensures r.Some? ==>
      var s := r.value.currentStamina.value;
      s <= c.initialStamina && s <= c.currentStamina + StaminaHealPerMeal
      && (s == c.initialStamina || s == c.currentStamina + StaminaHealPerMeal)
    ensures r.Some? && c.currentStamina <= c.initialStamina ==>
      c.currentStamina <= r.value.currentStamina.value
  {
    if c.meals <= 0 then None
    else Some(NoChange.(meals := Some(c.meals - 1),
                        currentStamina := Some(Min(c.currentStamina + StaminaHealPerMeal, c.initialStamina))))
  }

  /** Eating a meal keeps the stat invariant. */
  lemma EatMealKeepsLimits(c: Character)
    requires WithinLimits(c) && EatMeal(c).Some?
    ensures WithinLimits(Merge(c, EatMeal(c).value))
    ensures Merge(c, EatMeal(c).value).meals == c.meals - 1
  {
  }

  /** The test vectors of `eatMeal`. */
  lemma EatMealExamples(c: Character)
    ensures c.meals == 0 ==> EatMeal(c) == None
    ensures c.meals == 3 && c.currentStamina == 10 && c.initialStamina == 20 ==>
      EatMeal(c) == Some(NoChange.(meals := Some(2), currentStamina := Some(14)))
    ensures c.meals == 3 && c.currentStamina == 18 && c.initialStamina == 20 ==>
      EatMeal(c) == Some(NoChange.(meals := Some(2), currentStamina := Some(20)))
  {
  }

  datatype LuckTest = LuckTest(lucky: bool, newLuck: int)

  /** `testLuck`: lucky when the roll does not exceed the current luck (ties
      win); luck drops by one on every test, but never below zero. */
  function TestLuck(c: Character, rollTotal: int): (r: LuckTest)
    ensures r.lucky <==> rollTotal <= c.currentLuck
    ensures r.newLuck >= 0
    ensures c.currentLuck >= 1 ==> r.newLuck == c.currentLuck - 1
    ensures c.currentLuck < 1 ==> r.newLuck == 0
  {
    LuckTest(rollTotal <= c.currentLuck, Max(0, c.currentLuck - 1))
  }

  /** Spending luck keeps the stat invariant. */
  lemma TestLuckKeepsLimits(c: Character, rollTotal: int)
    requires WithinLimits(c)
    ensures WithinLimits(c.(currentLuck := TestLuck(c, rollTotal).newLuck))
    ensures TestLuck(c, rollTotal).newLuck <= c.currentLuck
  {
  }

  /** The test vectors of `testLuck`. */
  lemma TestLuckExamples(c: Character)
    ensures c.currentLuck == 8 ==> TestLuck(c, 7) == LuckTest(true, 7)
    ensures c.currentLuck == 8 ==> TestLuck(c, 8) == LuckTest(true, 7)
    ensures c.currentLuck == 8 ==> TestLuck(c, 9) == LuckTest(false, 7)
    ensures c.currentLuck == 0 ==> TestLuck(c, 5) == LuckTest(false, 0)
    ensures c.currentLuck == 0 ==> TestLuck(c, 1) == LuckTest(false, 0)
  {
  }
}
