/** The dice engine (src/lib/dice/engine.ts). Each call to the uniform random
    source is an explicit `Draw`: the exact real `num / den` in [0, 1). A die
    face is `floor(draw * 6) + 1`; record ids (nanoid) and timestamps (the
    clock) are supplied by the caller. */
module DiceEngine {
  import opened Common
  import opened GameTypes

  /** One output of `Math.random()`, as the exact fraction `num / den`. */
  datatype Draw = Draw(num: nat, den: nat) {
    predicate Valid() { num < den }
  }

  predicate AllValid(draws: seq<Draw>) {
    forall i :: 0 <= i < |draws| ==> draws[i].Valid()
  }

  predicate IsFace(v: int) { 1 <= v <= 6 }

  /** `rollD6()`: `Math.floor(Math.random() * 6) + 1`. The result is the
      unique face with `face - 1 <= 6 * draw < face`. */
  function RollD6(u: Draw): (face: int)
    requires u.Valid()
    ensures IsFace(face)
    ensures (face - 1) * u.den <= 6 * u.num < face * u.den
  {
    (6 * u.num) / u.den + 1
  }

  /** The test vectors of the dice engine: 0 gives 1, 0.5 gives 4, 0.999
      gives 6, and 0.4 and 0.7 give 3 and 5. */
  lemma RollD6Examples()
    ensures RollD6(Draw(0, 1)) == 1
    ensures RollD6(Draw(1, 2)) == 4
    ensures RollD6(Draw(999, 1000)) == 6
    ensures RollD6(Draw(2, 5)) == 3 && RollD6(Draw(7, 10)) == 5
  {
  }

  /** Every face is produced by some draw, so taking faces in 1..6 as inputs
      loses nothing. */
  lemma EveryFaceReachable(face: int)
    requires IsFace(face)
    ensures Draw(face - 1, 6).Valid() && RollD6(Draw(face - 1, 6)) == face
  {
  }

  /** The faces rolled from a list of draws, in draw order. */
  function Faces(draws: seq<Draw>): (faces: seq<int>)
    requires AllValid(draws)
    ensures |faces| == |draws|
    ensures forall i :: 0 <= i < |faces| ==> faces[i] == RollD6(draws[i])
  {
    if |draws| == 0 then [] else Faces(draws[..|draws| - 1]) + [RollD6(draws[|draws| - 1])]
  }

  /** A sum of `n` faces lies between `n` and `6 * n`. */
  lemma {:induction false} SumOfFacesBounds(faces: seq<int>)
    requires forall i :: 0 <= i < |faces| ==> IsFace(faces[i])
    ensures |faces| <= Sum(faces) <= 6 * |faces|
  {
    if |faces| > 0 {
      SumOfFacesBounds(faces[..|faces| - 1]);
    }
  }

  /** `rollNd6(count)`: `Array.from({ length: count }, rollD6)`. A negative
      length is read as 0, as `Array.from` does. The first `count`
      draws are consumed in order. */
  method RollNd6(count: int, draws: seq<Draw>) returns (values: seq<int>)
    requires AllValid(draws) && |draws| >= Max(count, 0)
    ensures |values| == Max(count, 0)
    ensures values == Faces(draws[..Max(count, 0)])
    ensures forall i :: 0 <= i < |values| ==> IsFace(values[i])
  {
    var n := Max(count, 0);
    values := [];
    var i := 0;
    while i < n
      invariant 0 <= i <= n
      invariant values == Faces(draws[..i])
    {
      assert draws[..i + 1][..i] == draws[..i];
      values := values + [RollD6(draws[i])];
      i := i + 1;
    }
  }

  /** `roll1d6(label?)`: one die; its total is that die. */
  method Roll1d6(draws: seq<Draw>, id: string, caption: Option<string>, now: string)
    returns (roll: DiceRoll)
    requires AllValid(draws) && |draws| >= 1
    ensures roll.kind == OneD6 && roll.id == id && roll.caption == caption && roll.timestamp == now
    ensures roll.values == [RollD6(draws[0])]
    ensures roll.total == roll.values[0] && 1 <= roll.total <= 6
  {
    var values := RollNd6(1, draws);
    roll := DiceRoll(id, OneD6, values, values[0], caption, now);
  }

  /** `roll2d6(label?)`: two dice; its total is their sum. */
  method Roll2d6(draws: seq<Draw>, id: string, caption: Option<string>, now: string)
    returns (roll: DiceRoll)
    requires AllValid(draws) && |draws| >= 2
    ensures roll.kind == TwoD6 && roll.id == id && roll.caption == caption && roll.timestamp == now
    ensures roll.values == [RollD6(draws[0]), RollD6(draws[1])]
    ensures roll.total == roll.values[0] + roll.values[1] && 2 <= roll.total <= 12
  {
    var values := RollNd6(2, draws);
    roll := DiceRoll(id, TwoD6, values, values[0] + values[1], caption, now);
  }

  /** The sample roll of the test suite: draws 0.4 and 0.7 give 3 + 5 = 8. */
  method Roll2d6Example() returns (roll: DiceRoll)
    ensures roll.values == [3, 5] && roll.total == 8 && roll.caption == None
  {
    roll := Roll2d6([Draw(2, 5), Draw(7, 10)], "r", None, "t");
  }
}
