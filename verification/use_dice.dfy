/** The dice hook (src/hooks/use-dice.ts): the current roll, the rolling
    flag and a newest-first history capped at ten rolls. The 600 ms
    animation is collapsed to its end: the state after the final roll. */
module UseDice {
  import opened Common
  import opened GameTypes
  import opened DiceEngine

  const MaxHistory := 10

  datatype DiceState = DiceState(current: Option<DiceRoll>, history: seq<DiceRoll>, rolling: bool)

  /** The hook's initial state. */
  const Initial := DiceState(None, [], false)

  /** `addToHistory(roll)`: the roll goes in front and the list is cut back
      to the ten newest. */
  function AddToHistory(h: seq<DiceRoll>, roll: DiceRoll): (r: seq<DiceRoll>)
    ensures |r| == Min(|h| + 1, MaxHistory)
    ensures r[0] == roll
    ensures forall i :: 1 <= i < |r| ==> r[i] == h[i - 1]
  {
    ([roll] + h)[..Min(|h| + 1, MaxHistory)]
  }

  /** `clearHistory()`: the history is emptied; the current roll stays. */
  function ClearHistory(s: DiceState): (t: DiceState)
    ensures t.history == [] && t.current == s.current && t.rolling == s.rolling
  {
    s.(history := [])
  }

  /** The history after the rolls of `rolls`, oldest first, starting from an
      empty one. */
  function Replay(rolls: seq<DiceRoll>): seq<DiceRoll> {
    if |rolls| == 0 then []
    else AddToHistory(Replay(rolls[..|rolls| - 1]), rolls[|rolls| - 1])
  }

  /** `rolls` newest first. */
  function Reverse(rolls: seq<DiceRoll>): (r: seq<DiceRoll>)
    ensures |r| == |rolls|
    ensures forall i :: 0 <= i < |r| ==> r[i] == rolls[|rolls| - 1 - i]
  {
    if |rolls| == 0 then [] else [rolls[|rolls| - 1]] + Reverse(rolls[..|rolls| - 1])
  }

  /** The history always holds exactly the ten most recent rolls (all of
      them when there were fewer), newest first. */
  lemma {:induction false} HistoryIsNewestTen(rolls: seq<DiceRoll>)
    ensures Replay(rolls) == Reverse(rolls)[..Min(|rolls|, MaxHistory)]
  {
    if |rolls| > 0 {
      var p := rolls[..|rolls| - 1];
      HistoryIsNewestTen(p);
      var r := Replay(rolls);
      var want := Reverse(rolls)[..Min(|rolls|, MaxHistory)];
      assert |r| == |want|;
      forall i | 0 <= i < |r|
        ensures r[i] == want[i]
      {
        if i > 0 {
          assert r[i] == Replay(p)[i - 1];
          assert Reverse(p)[i - 1] == p[|p| - 1 - (i - 1)];
        }
      }
    }
  }

  /** The final step of `rollOneDice(label)`: a 1d6 record carrying the label
      becomes the current roll and the head of the history, and the rolling
      flag drops. */
  method RollOneDice(s: DiceState, draws: seq<Draw>, id: string, caption: Option<string>, now: string)
    returns (t: DiceState)
    requires AllValid(draws) && |draws| >= 1
    ensures t.current.Some? && !t.rolling
    ensures t.history == AddToHistory(s.history, t.current.value)
    ensures var roll := t.current.value;
            roll.kind == OneD6 && roll.caption == caption && roll.values == [RollD6(draws[0])]
            && 1 <= roll.total <= 6
  {
    var roll := Roll1d6(draws, id, caption, now);
    t := DiceState(Some(roll), AddToHistory(s.history, roll), false);
  }

  /** The final step of `rollTwoDice(label)`, the same with a 2d6 record. */
  method RollTwoDice(s: DiceState, draws: seq<Draw>, id: string, caption: Option<string>, now: string)
    returns (t: DiceState)
    requires AllValid(draws) && |draws| >= 2
    ensures t.current.Some? && !t.rolling
    ensures t.history == AddToHistory(s.history, t.current.value)
    ensures var roll := t.current.value;
            roll.kind == TwoD6 && roll.caption == caption
            && roll.values == [RollD6(draws[0]), RollD6(draws[1])]
            && 2 <= roll.total <= 12
  {
    var roll := Roll2d6(draws, id, caption, now);
    t := DiceState(Some(roll), AddToHistory(s.history, roll), false);
  }

  /** After clearing, the next roll is the whole history. */
  lemma ClearThenAdd(s: DiceState, roll: DiceRoll)
    ensures AddToHistory(ClearHistory(s).history, roll) == [roll]
  {
  }
}
