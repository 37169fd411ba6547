/** The game manager's turn accounting: the move budget, the cleared and
    game-over flags, the key flag, the win check over the player's four
    neighbours and the two HUD texts.  The first synchronous step of each
    transition coroutine (the `SetState` before its first wait) is performed;
    what follows the waits is the `Finish…` methods. */
module Turns {
  import opened Common
  import opened GameEnums
  import opened GridModel
  import opened Text
  import opened Input
  import Grid

  /** `romanNumeral`, the stage labels 0 to 10. */
  const RomanNumerals: seq<string> := ["O", "I", "II", "III", "IV", "V", "VI", "VII", "VIII", "IX", "X"]

  /** The neighbours the win check visits, in its order. */
  const Neighbours: seq<Vec2Int> := [Up, Down, Left, Right]

  /** The inspector default of `maxMoveCount`. */
  const DefaultMaxMoveCount: int := 23

  /** The game manager's fields, HUD texts included. */
  datatype Turn = Turn(
    maxMoveCount: int, stage: int, moveCount: int,
    cleared: bool, gameOver: bool, hasKey: bool,
    turnText: string, stageText: string)

  /** The turn counter text: "X" once nothing remains, otherwise the number. */
  function TurnText(remaining: int): (s: string)
    ensures s == "X" <==> remaining <= 0
    ensures remaining > 0 ==> AllDigits(s)
  {
    if remaining <= 0 then "X" else NatToString(remaining)
  }

  /** The stage label: the roman numeral for 0 to 10, "?" otherwise. */
  function StageText(stage: int): (s: string)
    ensures s != []
    ensures s == "?" <==> !(0 <= stage <= 10)
  {
    if 0 <= stage < |RomanNumerals| then RomanNumerals[stage] else "?"
  }

  /** `GetRemainingMoves`. */
  function RemainingMoves(t: Turn): (r: int)
    ensures r >= 0 && r >= t.maxMoveCount - t.moveCount
    ensures r == 0 || r == t.maxMoveCount - t.moveCount
  {
    if t.maxMoveCount - t.moveCount > 0 then t.maxMoveCount - t.moveCount else 0
  }

  /** `UpdateUI`: both texts recomputed from the fields. */
  function WithUI(t: Turn): Turn
  {
    t.(turnText := TurnText(t.maxMoveCount - t.moveCount), stageText := StageText(t.stage))
  }

  /** `ResetGameState`. */
  function Reset(t: Turn): Turn
  {
    WithUI(t.(cleared := false, gameOver := false, hasKey := false, moveCount := 0))
  }

  /** `CheckWinCondition`'s test: a player is set and alive, and a live Goal is
      listed at one of its four neighbours. */
  predicate WinReached(g: GridState, player: Option<ObjId>)
  {
    && player.Some? && Alive(g, player.value)
    && exists i :: 0 <= i < |Neighbours| && ObjectWithTagAt(g, g.scene[player.value].cell.Plus(Neighbours[i]), Goal).Some?
  }

  /** `OnLevelClear` up to its coroutine's first wait. */
  function LevelClear(t: Turn, m: Mode): (Turn, Mode)
  {
    (t.(cleared := true), SetStateSpec(m, Transition, NoUI))
  }

  /** `OnGameOver`: with a death animator the game-over UI stays up; without
      one the restart coroutine starts, switches to Transition and stops at
      its `HideGameOver` call (`RestartAsWritten`). */
  function GameOverSpec(t: Turn, m: Mode, deathAnimator: bool): (Turn, Mode)
  {
    var m1 := SetStateSpec(m, UI, GameOver);
    (t.(gameOver := true), if deathAnimator then m1 else SetStateSpec(m1, Transition, NoUI))
  }

  /** `IncreaseMoveCount(amount)`. */
  function Increase(t: Turn, m: Mode, g: GridState, player: Option<ObjId>, amount: int, deathAnimator: bool): (Turn, Mode)
  {
    if t.cleared || t.gameOver then (t, m)
    else
      var t1 := WithUI(t.(moveCount := t.moveCount + amount));
      if WinReached(g, player) then LevelClear(t1, m)
      else if t1.moveCount >= t1.maxMoveCount then GameOverSpec(t1, m, deathAnimator)
      else (t1, m)
  }

  /** The stage is never both cleared and lost. */
  predicate TurnValid(t: Turn)
  {
    !(t.cleared && t.gameOver)
  }

  // ------------------------------------------------------------------ roman numerals

  function SymbolValue(c: char): nat
  {
    match c
    case 'I' => 1
    case 'V' => 5
    case 'X' => 10
    case _ => 0
  }

  /** The value of a roman numeral, a symbol before a larger one subtracted. */
  function RomanValue(s: string): int
  {
    if s == [] then 0
    else if |s| >= 2 && SymbolValue(s[0]) < SymbolValue(s[1]) then RomanValue(s[1..]) - SymbolValue(s[0])
    else SymbolValue(s[0]) + RomanValue(s[1..])
  }

  /** Each stage label from 0 to 10 reads back as its stage number. */
  lemma StageTextReadsBack(stage: int)
    requires 0 <= stage <= 10
    ensures RomanValue(StageText(stage)) == stage
  {
    var s := StageText(stage);
    if stage == 8 {
      assert s == "VIII" && s[1..] == "III" && s[2..] == "II" && s[3..] == "I";
    } else if stage == 7 {
      assert s == "VII" && s[1..] == "II" && s[2..] == "I";
    } else if stage == 3 {
      assert s == "III" && s[1..] == "II" && s[2..] == "I";
    }
  }

  /** Distinct stages in range get distinct labels. */
  lemma StageTextInjective(a: int, b: int)
    requires 0 <= a <= 10 && 0 <= b <= 10 && StageText(a) == StageText(b)
    ensures a == b
  {
    StageTextReadsBack(a);
    StageTextReadsBack(b);
  }

  /** The turn text shows a number, and that number reads back as the
      remaining moves, exactly when moves remain. */
  lemma TurnTextReadsBack(t: Turn)
    requires t.maxMoveCount - t.moveCount <= MaxInt32
    ensures TurnText(t.maxMoveCount - t.moveCount) == "X" <==> RemainingMoves(t) == 0
    ensures RemainingMoves(t) > 0 ==> ParseInt32(TurnText(t.maxMoveCount - t.moveCount)) == Some(RemainingMoves(t))
  {
    if RemainingMoves(t) > 0 {
      ParseNatToString(RemainingMoves(t));
    }
  }

  // ------------------------------------------------------------------ turn lemmas

  lemma ResetIsFresh(t: Turn)
    ensures var r := Reset(t);
      && r.moveCount == 0 && !r.cleared && !r.gameOver && !r.hasKey && TurnValid(r)
      && r.maxMoveCount == t.maxMoveCount && r.stage == t.stage
      && RemainingMoves(r) == (if t.maxMoveCount > 0 then t.maxMoveCount else 0)
  {
  }

  /** Once the stage is cleared or lost, further moves change nothing. */
  lemma IncreaseAfterEndIsNoOp(t: Turn, m: Mode, g: GridState, player: Option<ObjId>, amount: int, deathAnimator: bool)
    requires t.cleared || t.gameOver
    ensures Increase(t, m, g, player, amount, deathAnimator) == (t, m)
  {
  }

  /** While the stage is running, the count grows by exactly `amount` and the
      turn text shows what remains. */
  lemma IncreaseCounts(t: Turn, m: Mode, g: GridState, player: Option<ObjId>, amount: int, deathAnimator: bool)
    requires !t.cleared && !t.gameOver
    ensures var (t', _) := Increase(t, m, g, player, amount, deathAnimator);
      && t'.moveCount == t.moveCount + amount
      && t'.maxMoveCount == t.maxMoveCount && t'.stage == t.stage && t'.hasKey == t.hasKey
      && t'.turnText == TurnText(t.maxMoveCount - t.moveCount - amount)
  {
  }

  /** The stage clears exactly when a running stage's player stands next to a
      Goal; a clearing move never also loses, whatever the budget. */
  lemma ClearIffWin(t: Turn, m: Mode, g: GridState, player: Option<ObjId>, amount: int, deathAnimator: bool)
    requires !t.cleared && !t.gameOver
    ensures var (t', m') := Increase(t, m, g, player, amount, deathAnimator);
      && (t'.cleared <==> WinReached(g, player))
      && (t'.cleared ==> !t'.gameOver && m'.state == Transition)
  {
  }

  /** Game over is entered exactly when a running stage is not won and the
      count reaches the budget; the input then shows the game-over UI, or is in
      Transition when there is no death animator. */
  lemma GameOverIffBudgetSpent(t: Turn, m: Mode, g: GridState, player: Option<ObjId>, amount: int, deathAnimator: bool)
    requires !t.cleared && !t.gameOver
    ensures var (t', m') := Increase(t, m, g, player, amount, deathAnimator);
      && (t'.gameOver <==> !WinReached(g, player) && t.moveCount + amount >= t.maxMoveCount)
      && (t'.gameOver && deathAnimator ==> m'.state == UI && m'.ui == GameOver)
      && (t'.gameOver && !deathAnimator ==> m'.state == Transition)
      && (!t'.gameOver && !t'.cleared ==> m' == m && RemainingMoves(t') > 0)
  {
  }

  /** Cleared and game over are never both set. */
  lemma IncreasePreservesValid(t: Turn, m: Mode, g: GridState, player: Option<ObjId>, amount: int, deathAnimator: bool)
    requires TurnValid(t)
    ensures TurnValid(Increase(t, m, g, player, amount, deathAnimator).0)
  {
  }

  /** The win check looks at exactly the four orthogonal neighbours of the
      player's cell. */
  lemma WinIffGoalAdjacent(g: GridState, p: ObjId)
    requires Alive(g, p)
    ensures WinReached(g, Some(p)) <==>
      exists c :: Adjacent(c, g.scene[p].cell) && AnyTagged(g, c, {Goal})
  {
    var pos := g.scene[p].cell;
    if WinReached(g, Some(p)) {
      var i :| 0 <= i < |Neighbours| && ObjectWithTagAt(g, pos.Plus(Neighbours[i]), Goal).Some?;
      AnyTaggedIffFirst(g, pos.Plus(Neighbours[i]), {Goal});
      assert Adjacent(pos.Plus(Neighbours[i]), pos);
    }
    if exists c :: Adjacent(c, pos) && AnyTagged(g, c, {Goal}) {
      var c :| Adjacent(c, pos) && AnyTagged(g, c, {Goal});
      AnyTaggedIffFirst(g, c, {Goal});
      var i := if c == pos.Plus(Up) then 0 else if c == pos.Plus(Down) then 1 else if c == pos.Plus(Left) then 2 else 3;
      assert c == pos.Plus(Neighbours[i]);
    }
  }

  // ------------------------------------------------------------------ the restart coroutine

  /** The restart coroutine run to its end, the level reload aside, as
      written: it switches to Transition and calls `HideGameOver` on the death
      animator; without one that call throws and the coroutine stops there,
      otherwise after both waits the turn is reset and play resumes. */
  function RestartAsWritten(t: Turn, m: Mode, deathAnimator: bool): (Turn, Mode)
  {
    var m1 := SetStateSpec(m, Transition, NoUI);
    if deathAnimator then (Reset(t), SetStateSpec(m1, Playing, NoUI)) else (t, m1)
  }

  /** The restart coroutine with `HideGameOver` skipped when no death animator
      is assigned, as the null check in `OnGameOver` evidently intends. */
  function RestartGuarded(t: Turn, m: Mode): (Turn, Mode)
  {
    (Reset(t), SetStateSpec(SetStateSpec(m, Transition, NoUI), Playing, NoUI))
  }

  /** As written: without a death animator, the move that spends the budget
      starts the restart coroutine from the game-over UI, and the coroutine
      stops in Transition with the stage still lost; from then on every frame
      of input is ignored and every further move changes nothing. */
  lemma GameOverStrandsWithoutAnimator(t: Turn, m: Mode, g: GridState, player: Option<ObjId>, amount: int,
                                       f: Frame, threshold: real, view: View, back: seq<StateCall>, more: int)
    requires !t.cleared && !t.gameOver && !WinReached(g, player) && t.moveCount + amount >= t.maxMoveCount
    ensures var (t1, m1) := Increase(t, m, g, player, amount, false);
      && (t1, m1) == RestartAsWritten(t1, SetStateSpec(m, UI, GameOver), false)
      && t1.gameOver && m1.state == Transition
      && Step(m1, f, threshold, view, back) == (m1, [])
      && Increase(t1, m1, g, player, more, false) == (t1, m1)
  {
  }

  /** Corrected: the guarded restart always resets the stage and returns the
      input manager to play, and agrees with the code as written whenever a
      death animator is assigned. */
  lemma GuardedRestartReturnsToGame(t: Turn, m: Mode)
    ensures var (t', m') := RestartGuarded(t, m);
      && m'.state == Playing && m'.waiting
      && !t'.gameOver && !t'.cleared && t'.moveCount == 0 && t'.stage == t.stage
      && RemainingMoves(t') == (if t.maxMoveCount > 0 then t.maxMoveCount else 0)
    ensures RestartGuarded(t, m) == RestartAsWritten(t, m, true)
  {
  }

  /** Two cells one orthogonal step apart. */
  predicate Adjacent(c: Vec2Int, d: Vec2Int)
  {
    (c.x == d.x && (c.y == d.y + 1 || c.y == d.y - 1)) || (c.y == d.y && (c.x == d.x + 1 || c.x == d.x - 1))
  }

  /** Without a live player the win check never fires. */
  lemma NoPlayerNoWin(g: GridState, player: Option<ObjId>)
    requires player.None? || !Alive(g, player.value)
    ensures !WinReached(g, player)
  {
  }

  class GameManager
  {
    const grid: Grid.GridManager
    const input: InputManager
    /** Whether `dialogueDeathAnimator` is assigned. */
    const hasDeathAnimator: bool

    var maxMoveCount: int
    var currentStage: int
    var currentMoveCount: int
    var isStageCleared: bool
    var isGameOver: bool
    var hasKey: bool
    var player: Option<ObjId>
    var turnText: string
    var stageText: string

    function Snapshot(): Turn
      reads this
    {
      Turn(maxMoveCount, currentStage, currentMoveCount, isStageCleared, isGameOver, hasKey, turnText, stageText)
    }

    constructor (grid: Grid.GridManager, input: InputManager, hasDeathAnimator: bool)
      ensures this.grid == grid && this.input == input && this.hasDeathAnimator == hasDeathAnimator
      ensures Snapshot() == Turn(DefaultMaxMoveCount, 1, 0, false, false, false, "", "") && player == None
    {
      this.grid := grid;
      this.input := input;
      this.hasDeathAnimator := hasDeathAnimator;
      maxMoveCount := DefaultMaxMoveCount;
      currentStage := 1;
      currentMoveCount := 0;
      isStageCleared := false;
      isGameOver := false;
      hasKey := false;
      player := None;
      turnText := "";
      stageText := "";
    }

    method UpdateUI()
      modifies this
      ensures Snapshot() == WithUI(old(Snapshot())) && player == old(player)
    {
      var remainingMoves := maxMoveCount - currentMoveCount;
      if remainingMoves <= 0 {
        turnText := "X";
      } else {
        turnText := NatToString(remainingMoves);
      }
      if 0 <= currentStage < |RomanNumerals| {
        stageText := RomanNumerals[currentStage];
      } else {
        stageText := "?";
      }
    }

    method ResetGameState()
      modifies this
      ensures Snapshot() == Reset(old(Snapshot())) && player == old(player)
    {
      isStageCleared := false;
      isGameOver := false;
      hasKey := false;
      currentMoveCount := 0;
      UpdateUI();
    }

    /** `InitializeStage`: the start coroutine with the input manager present. */
    method InitializeStage()
      modifies this, input
      ensures Snapshot() == Reset(old(Snapshot())) && player == old(player)
      ensures input.Snapshot() == SetStateSpec(old(input.Snapshot()), Playing, NoUI)
      ensures input.inputThreshold == old(input.inputThreshold)
    {
      ResetGameState();
      input.SetState(Playing, NoUI);
    }

    method SetPlayer(p: Option<ObjId>)
      modifies this
      ensures Snapshot() == old(Snapshot()) && player == p
    {
      player := p;
    }

    method SetKey(value: bool)
      modifies this
      ensures Snapshot() == old(Snapshot()).(hasKey := value) && player == old(player)
    {
      hasKey := value;
    }

    method GetRemainingMoves() returns (r: int)
      ensures r == RemainingMoves(Snapshot())
    {
      r := if maxMoveCount - currentMoveCount > 0 then maxMoveCount - currentMoveCount else 0;
    }

    method OnLevelClear()
      modifies this, input
      ensures (Snapshot(), input.Snapshot()) == LevelClear(old(Snapshot()), old(input.Snapshot()))
      ensures player == old(player) && input.inputThreshold == old(input.inputThreshold)
    {
      isStageCleared := true;
      input.SetState(Transition, NoUI);
    }

    method OnGameOver()
      modifies this, input
      ensures (Snapshot(), input.Snapshot()) == GameOverSpec(old(Snapshot()), old(input.Snapshot()), hasDeathAnimator)
      ensures player == old(player) && input.inputThreshold == old(input.inputThreshold)
    {
      isGameOver := true;
      input.SetState(UI, GameOver);
      if !hasDeathAnimator {
        input.SetState(Transition, NoUI);
      }
    }

    /** `RestartStage` up to its coroutine's first wait.  `resumes` tells
        whether the coroutine gets there: `HideGameOver` on a missing death
        animator throws and ends it. */
    method RestartStage() returns (resumes: bool)
      modifies input
      ensures input.Snapshot() == SetStateSpec(old(input.Snapshot()), Transition, NoUI)
      ensures input.inputThreshold == old(input.inputThreshold)
      ensures resumes == hasDeathAnimator
    {
      input.SetState(Transition, NoUI);
      resumes := hasDeathAnimator;
    }

    /** The restart coroutine after its first wait, the level reload aside;
        only a coroutine that got past `HideGameOver` gets here. */
    method FinishRestart()
      requires hasDeathAnimator
      modifies this, input
      ensures Snapshot() == Reset(old(Snapshot())) && player == old(player)
      ensures input.Snapshot() == SetStateSpec(old(input.Snapshot()), Playing, NoUI)
      ensures input.inputThreshold == old(input.inputThreshold)
    {
      ResetGameState();
      input.SetState(Playing, NoUI);
    }

    /** The next-stage coroutine after its first wait, the level load aside. */
    method FinishNextStage()
      modifies this, input
      ensures Snapshot() == Reset(old(Snapshot()).(stage := old(currentStage) + 1)) && player == old(player)
      ensures input.Snapshot() == SetStateSpec(old(input.Snapshot()), Playing, NoUI)
      ensures input.inputThreshold == old(input.inputThreshold)
    {
      currentStage := currentStage + 1;
      ResetGameState();
      input.SetState(Playing, NoUI);
    }

    method CheckWinCondition()
      modifies this, input
      ensures (Snapshot(), input.Snapshot()) ==
        (if WinReached(grid.State(), player) then LevelClear(old(Snapshot()), old(input.Snapshot()))
         else (old(Snapshot()), old(input.Snapshot())))
      ensures player == old(player) && input.inputThreshold == old(input.inputThreshold)
    {
      if player.None? || !(player.value in grid.scene && grid.scene[player.value].live) {
        return;
      }
      var playerPos := grid.scene[player.value].cell;
      var i := 0;
      while i < |Neighbours|
        invariant 0 <= i <= |Neighbours|
        invariant forall j :: 0 <= j < i ==> ObjectWithTagAt(grid.State(), playerPos.Plus(Neighbours[j]), Goal).None?
        invariant Snapshot() == old(Snapshot()) && input.Snapshot() == old(input.Snapshot())
        invariant player == old(player) && input.inputThreshold == old(input.inputThreshold)
      {
        var goal := grid.GetObjectWithTagAt(playerPos.Plus(Neighbours[i]), Goal);
        if goal.Some? {
          OnLevelClear();
          return;
        }
        i := i + 1;
      }
    }

    method IncreaseMoveCount(amount: int)
      modifies this, input
      ensures (Snapshot(), input.Snapshot()) ==
        Increase(old(Snapshot()), old(input.Snapshot()), grid.State(), player, amount, hasDeathAnimator)
      ensures player == old(player) && input.inputThreshold == old(input.inputThreshold)
    {
      if isStageCleared || isGameOver {
        return;
      }
      currentMoveCount := currentMoveCount + amount;
      UpdateUI();
      CheckWinCondition();
      if isStageCleared {
        return;
      }
      if currentMoveCount >= maxMoveCount {
        OnGameOver();
      }
    }
  }
}
