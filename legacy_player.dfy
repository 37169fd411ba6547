/** The earlier player script at the top of the scripts folder (`Player.cs`):
    push-and-follow instead of kick-in-place, the penalty judged at the target
    before the player steps there, no thorn toggle, no input buffer, and its
    own edge-triggered reading of the axes. */
module LegacyPlayer {
  import opened Common
  import opened GridModel
  import opened Input
  import opened Turns
  import opened Grid
  import PlayerMoves

  /** Everything a legacy move attempt reads or changes. */
  datatype World = World(grid: GridState, turn: Turn, mode: Mode, pos: Vec2Int, ready: bool)

  /** `TryPushObject` for a Block or Monster at `at`: the world after it and
      whether the push went through.  A Monster pushed against something is
      removed and costs one move; a Block stays and costs nothing. */
  function Push(w: World, b: ObjId, at: Vec2Int, dir: Vec2Int, player: Option<ObjId>, deathAnimator: bool): (World, bool)
    requires Alive(w.grid, b)
  {
    var pushTarget := at.Plus(dir);
    if IsBlocked(w.grid, pushTarget) || PushableAt(w.grid, pushTarget).Some? then
      if w.grid.scene[b].tag == Monster then
        var g1 := DestroyObject(Unregister(w.grid, b), b);
        var after := Increase(w.turn, w.mode, g1, player, 1, deathAnimator);
        (w.(grid := g1, turn := after.0, mode := after.1), false)
      else (w, false)
    else (w.(grid := Move(w.grid, b, at, pushTarget)), true)
  }

  /** `TryMove(direction)`: a blocked target or a failed push ends the attempt;
      otherwise the cost is read at the target, the player steps there and the
      cost is charged. */
  function TryMoveSpec(w: World, self: ObjId, player: Option<ObjId>, dir: Vec2Int, deathAnimator: bool): World
    requires Alive(w.grid, self)
  {
    var target := w.pos.Plus(dir);
    if IsBlocked(w.grid, target) then w
    else
      var pushable := PushableAt(w.grid, target);
      var (w1, ok) := if pushable.Some? then Push(w, pushable.value, target, dir, player, deathAnimator) else (w, true);
      if !ok then w1
      else
        var cost := if IsPunished(w1.grid, target) then 2 else 1;
        var g2 := Move(w1.grid, self, w.pos, target);
        var after := Increase(w1.turn, w1.mode, g2, player, cost, deathAnimator);
        World(g2, after.0, after.1, target, w.ready)
  }

  /** `Update` with the raw axes `(h, v)`: nothing once the stage is over; a
      deflection beyond the threshold moves once and disarms, a smaller one re-arms. */
  function UpdateSpec(w: World, self: ObjId, player: Option<ObjId>, h: real, v: real, deathAnimator: bool): World
    requires Alive(w.grid, self)
  {
    if w.turn.gameOver || w.turn.cleared then w
    else if h * h + v * v > DefaultThreshold then
      if w.ready then TryMoveSpec(w.(ready := false), self, player, NormalizeDirection(h, v), deathAnimator)
      else w
    else w.(ready := true)
  }

  // ------------------------------------------------------------------ lemmas

  /** A blocked target changes nothing and charges nothing. */
  lemma BlockedChangesNothing(w: World, self: ObjId, player: Option<ObjId>, dir: Vec2Int, deathAnimator: bool)
    requires Alive(w.grid, self) && IsBlocked(w.grid, w.pos.Plus(dir))
    ensures TryMoveSpec(w, self, player, dir, deathAnimator) == w
  {
  }

  /** Push-and-follow: when the cell beyond is free the pushable moves there
      and the player steps into the cell it left, charged 2 if that cell is
      punished and 1 otherwise. */
  lemma PushAndFollow(w: World, self: ObjId, player: Option<ObjId>, dir: Vec2Int, deathAnimator: bool)
    requires Alive(w.grid, self) && Valid(w.grid) && !w.turn.cleared && !w.turn.gameOver
    requires var target := w.pos.Plus(dir);
      && !IsBlocked(w.grid, target) && PushableAt(w.grid, target).Some?
      && PushableAt(w.grid, target).value != self
      && !IsBlocked(w.grid, target.Plus(dir)) && PushableAt(w.grid, target.Plus(dir)).None?
    ensures var target := w.pos.Plus(dir);
      var b := PushableAt(w.grid, target).value;
      var g1 := Move(w.grid, b, target, target.Plus(dir));
      var w' := TryMoveSpec(w, self, player, dir, deathAnimator);
      && w'.pos == target
      && w'.grid == Move(g1, self, w.pos, target)
      && w'.grid.scene[b].cell == target.Plus(dir) && b in Listed(w'.grid, target.Plus(dir))
      && w'.grid.scene[self].cell == target && self in Listed(w'.grid, target)
      && w'.turn.moveCount == w.turn.moveCount + (if IsPunished(g1, target) then 2 else 1)
  {
    var target := w.pos.Plus(dir);
    var b := PushableAt(w.grid, target).value;
    var g1 := Move(w.grid, b, target, target.Plus(dir));
    MoveEffect(w.grid, b, target, target.Plus(dir));
    PlayerMoves.MoveKeepsOthers(g1, self, w.pos, target);
    MoveEffect(g1, self, w.pos, target);
    var g2 := Move(g1, self, w.pos, target);
    IncreaseCounts(w.turn, w.mode, g2, player, if IsPunished(g1, target) then 2 else 1, deathAnimator);
  }

  /** A Block pushed against something stays, the player stays, and nothing is charged. */
  lemma FailedBlockPushChargesNothing(w: World, self: ObjId, player: Option<ObjId>, dir: Vec2Int, deathAnimator: bool)
    requires Alive(w.grid, self)
    requires var target := w.pos.Plus(dir);
      && !IsBlocked(w.grid, target) && PushableAt(w.grid, target).Some?
      && w.grid.scene[PushableAt(w.grid, target).value].tag == Block
      && (IsBlocked(w.grid, target.Plus(dir)) || PushableAt(w.grid, target.Plus(dir)).Some?)
    ensures TryMoveSpec(w, self, player, dir, deathAnimator) == w
  {
  }

  /** A Monster pushed against something is taken off the grid and destroyed;
      the player stays and exactly one move is charged. */
  lemma FailedMonsterPushChargesOne(w: World, self: ObjId, player: Option<ObjId>, dir: Vec2Int, deathAnimator: bool)
    requires Alive(w.grid, self) && Valid(w.grid) && !w.turn.cleared && !w.turn.gameOver
    requires var target := w.pos.Plus(dir);
      && !IsBlocked(w.grid, target) && PushableAt(w.grid, target).Some?
      && w.grid.scene[PushableAt(w.grid, target).value].tag == Monster
      && w.grid.scene[PushableAt(w.grid, target).value].cell == target
      && (IsBlocked(w.grid, target.Plus(dir)) || PushableAt(w.grid, target.Plus(dir)).Some?)
    ensures var target := w.pos.Plus(dir);
      var m := PushableAt(w.grid, target).value;
      var w' := TryMoveSpec(w, self, player, dir, deathAnimator);
      && w'.pos == w.pos && !Alive(w'.grid, m) && m !in Listed(w'.grid, target)
      && w'.turn.moveCount == w.turn.moveCount + 1
  {
    var target := w.pos.Plus(dir);
    var m := PushableAt(w.grid, target).value;
    UnregisterEffect(w.grid, m);
    var g1 := DestroyObject(Unregister(w.grid, m), m);
    IncreaseCounts(w.turn, w.mode, g1, player, 1, deathAnimator);
  }

  /** With nothing pushable at a free target the player steps there, charged
      2 when the target is punished before the step and 1 otherwise. */
  lemma StepCost(w: World, self: ObjId, player: Option<ObjId>, dir: Vec2Int, deathAnimator: bool)
    requires Alive(w.grid, self) && !w.turn.cleared && !w.turn.gameOver
    requires !IsBlocked(w.grid, w.pos.Plus(dir)) && PushableAt(w.grid, w.pos.Plus(dir)).None?
    ensures var w' := TryMoveSpec(w, self, player, dir, deathAnimator);
      && w'.pos == w.pos.Plus(dir) && w'.grid == Move(w.grid, self, w.pos, w.pos.Plus(dir))
      && w'.turn.moveCount == w.turn.moveCount + (if IsPunished(w.grid, w.pos.Plus(dir)) then 2 else 1)
  {
    var target := w.pos.Plus(dir);
    var g2 := Move(w.grid, self, w.pos, target);
    IncreaseCounts(w.turn, w.mode, g2, player, if IsPunished(w.grid, target) then 2 else 1, deathAnimator);
  }

  /** Once the stage is cleared or lost, input changes nothing. */
  lemma IgnoredAfterStageEnds(w: World, self: ObjId, player: Option<ObjId>, h: real, v: real, deathAnimator: bool)
    requires Alive(w.grid, self) && (w.turn.gameOver || w.turn.cleared)
    ensures UpdateSpec(w, self, player, h, v, deathAnimator) == w
  {
  }

  /** A held deflection moves on its first frame only: the move disarms the
      reader, and the same deflection on the next frame changes nothing. */
  lemma OneMovePerPress(w: World, self: ObjId, player: Option<ObjId>, h: real, v: real, deathAnimator: bool)
    requires Alive(w.grid, self) && !w.turn.gameOver && !w.turn.cleared && w.ready
    requires h * h + v * v > DefaultThreshold
    ensures var w1 := UpdateSpec(w, self, player, h, v, deathAnimator);
      && w1 == TryMoveSpec(w.(ready := false), self, player, NormalizeDirection(h, v), deathAnimator)
      && !w1.ready
      && (Alive(w1.grid, self) ==> UpdateSpec(w1, self, player, h, v, deathAnimator) == w1)
  {
    var w1 := UpdateSpec(w, self, player, h, v, deathAnimator);
    TryMoveKeepsReady(w.(ready := false), self, player, NormalizeDirection(h, v), deathAnimator);
  }

  /** A move attempt never touches the reader's arming flag. */
  lemma TryMoveKeepsReady(w: World, self: ObjId, player: Option<ObjId>, dir: Vec2Int, deathAnimator: bool)
    requires Alive(w.grid, self)
    ensures TryMoveSpec(w, self, player, dir, deathAnimator).ready == w.ready
  {
  }

  /** A deflection at or below the threshold re-arms the reader and moves nothing. */
  lemma SmallDeflectionRearms(w: World, self: ObjId, player: Option<ObjId>, h: real, v: real, deathAnimator: bool)
    requires Alive(w.grid, self) && !w.turn.gameOver && !w.turn.cleared
    requires h * h + v * v <= DefaultThreshold
    ensures UpdateSpec(w, self, player, h, v, deathAnimator) == w.(ready := true)
  {
  }

  // ------------------------------------------------- against the current player

  /** A failed Block push: the current player is charged (and toggles the
      thorns), the legacy one is not. */
  lemma FailedBlockPushContrast(w: World, self: ObjId, player: Option<ObjId>, dir: Vec2Int,
                                hooks: PlayerMoves.Hooks, deathAnimator: bool)
    requires Alive(w.grid, self) && !w.turn.cleared && !w.turn.gameOver
    requires var target := w.pos.Plus(dir);
      && !IsBlocked(w.grid, target) && PushableAt(w.grid, target).Some?
      && w.grid.scene[PushableAt(w.grid, target).value].tag == Block
      && (IsBlocked(w.grid, target.Plus(dir)) || PushableAt(w.grid, target.Plus(dir)).Some?)
    ensures var cw := PlayerMoves.World(w.grid, w.turn, w.mode, PlayerMoves.Body(w.pos, None, dir));
      var (cw', _) := PlayerMoves.Resolve(cw, self, player, dir, false, hooks, deathAnimator);
      && TryMoveSpec(w, self, player, dir, deathAnimator).turn.moveCount == w.turn.moveCount
      && cw'.turn.moveCount >= w.turn.moveCount + 1
  {
    FailedBlockPushChargesNothing(w, self, player, dir, deathAnimator);
    var cw := PlayerMoves.World(w.grid, w.turn, w.mode, PlayerMoves.Body(w.pos, None, dir));
    PlayerMoves.ResolutionCharges(cw, self, player, dir, hooks, deathAnimator);
  }

  /** A successful push: the legacy player follows into the freed cell, the
      current one stays where it was. */
  lemma SuccessfulPushContrast(w: World, self: ObjId, player: Option<ObjId>, dir: Vec2Int,
                               hooks: PlayerMoves.Hooks, deathAnimator: bool)
    requires Alive(w.grid, self) && Valid(w.grid) && !w.turn.cleared && !w.turn.gameOver
    requires var target := w.pos.Plus(dir);
      && !IsBlocked(w.grid, target) && PushableAt(w.grid, target).Some?
      && PushableAt(w.grid, target).value != self
      && !IsBlocked(w.grid, target.Plus(dir)) && PushableAt(w.grid, target.Plus(dir)).None?
    ensures var cw := PlayerMoves.World(w.grid, w.turn, w.mode, PlayerMoves.Body(w.pos, None, dir));
      var (cw', _) := PlayerMoves.Resolve(cw, self, player, dir, false, hooks, deathAnimator);
      && TryMoveSpec(w, self, player, dir, deathAnimator).pos == w.pos.Plus(dir)
      && cw'.body.pos == w.pos
  {
    PushAndFollow(w, self, player, dir, deathAnimator);
    var cw := PlayerMoves.World(w.grid, w.turn, w.mode, PlayerMoves.Body(w.pos, None, dir));
    PlayerMoves.KickStaysInPlace(cw, self, player, dir, hooks, deathAnimator);
  }

  // ------------------------------------------------------------------ the class

  class Player
  {
    const grid: GridManager
    const game: GameManager
    const input: InputManager
    /** The player's own scene object. */
    const self: ObjId

    var readyToMove: bool
    var currentGridPos: Vec2Int

    /** The singletons the player talks to are the ones the game manager uses. */
    predicate Wired()
    {
      game.grid == grid && game.input == input
    }

    function Current(): World
      reads this, grid, game, input
    {
      World(grid.State(), game.Snapshot(), input.Snapshot(), currentGridPos, readyToMove)
    }

    /** `Start`: the cell of the transform, registration as the game
        manager's player, and an armed reader. */
    constructor (grid: GridManager, game: GameManager, input: InputManager, self: ObjId)
      requires self in grid.scene
      modifies game
      ensures this.grid == grid && this.game == game && this.input == input && this.self == self
      ensures currentGridPos == grid.scene[self].cell && readyToMove
      ensures game.player == Some(self) && game.Snapshot() == old(game.Snapshot())
    {
      this.grid := grid;
      this.game := game;
      this.input := input;
      this.self := self;
      currentGridPos := grid.scene[self].cell;
      new;
      game.SetPlayer(Some(self));
      readyToMove := true;
    }

    /** `Update` with the frame's raw axes. */
    method Update(h: real, v: real)
      requires Wired() && Alive(grid.State(), self)
      modifies this, grid, game, input
      ensures Current() == UpdateSpec(old(Current()), self, old(game.player), h, v, game.hasDeathAnimator)
      ensures game.player == old(game.player)
    {
      if game.isGameOver || game.isStageCleared {
        return;
      }
      if h * h + v * v > DefaultThreshold {
        if readyToMove {
          readyToMove := false;
          var direction := NormalizeDirection(h, v);
          TryMove(direction);
        }
      } else {
        readyToMove := true;
      }
    }

    method TryMove(direction: Vec2Int)
      requires Wired() && Alive(grid.State(), self)
      modifies this`currentGridPos, grid, game, input
      ensures Current() == TryMoveSpec(old(Current()), self, old(game.player), direction, game.hasDeathAnimator)
      ensures game.player == old(game.player)
    {
      var targetPos := currentGridPos.Plus(direction);
      var blocked := grid.IsPositionBlocked(targetPos);
      if blocked {
        return;
      }
      var pushable := grid.GetPushableAt(targetPos);
      if pushable.Some? {
        var pushed := TryPushObject(pushable.value, targetPos, direction);
        if !pushed {
          return;
        }
      }
      Step(targetPos);
    }

    /** The tail of `TryMove`: the cost read at the target, the step, the charge. */
    method Step(targetPos: Vec2Int)
      requires Wired() && Alive(grid.State(), self)
      modifies this`currentGridPos, grid, game, input
      ensures var w := old(Current());
        var cost := if IsPunished(w.grid, targetPos) then 2 else 1;
        var g2 := Move(w.grid, self, w.pos, targetPos);
        var after := Increase(w.turn, w.mode, g2, old(game.player), cost, game.hasDeathAnimator);
        Current() == World(g2, after.0, after.1, targetPos, w.ready)
      ensures game.player == old(game.player)
    {
      var moveCount := 1;
      var punished := grid.IsPositionPunished(targetPos);
      if punished {
        moveCount := moveCount + 1;
      }
      grid.MoveObject(self, currentGridPos, targetPos);
      currentGridPos := targetPos;
      game.IncreaseMoveCount(moveCount);
    }

    method TryPushObject(pushable: ObjId, pushablePos: Vec2Int, direction: Vec2Int) returns (pushed: bool)
      requires Wired() && Alive(grid.State(), pushable)
      modifies grid, game, input
      ensures (Current(), pushed) == Push(old(Current()), pushable, pushablePos, direction, old(game.player), game.hasDeathAnimator)
      ensures game.player == old(game.player)
    {
      var pushTargetPos := pushablePos.Plus(direction);
      var stuck := grid.IsPositionBlocked(pushTargetPos);
      if !stuck {
        var other := grid.GetPushableAt(pushTargetPos);
        stuck := other.Some?;
      }
      if stuck {
        if grid.scene[pushable].tag == Monster {
          DestroyMonster(pushable);
          game.IncreaseMoveCount(1);
          return false;
        }
        return false;
      }
      var anotherPushable := grid.GetPushableAt(pushTargetPos);
      // the second pushable check cannot fire: the first one already returned
      assert anotherPushable.None?;
      grid.MoveObject(pushable, pushablePos, pushTargetPos);
      return true;
    }

    method DestroyMonster(monster: ObjId)
      requires Alive(grid.State(), monster)
      modifies grid
      ensures grid.State() == DestroyObject(Unregister(old(grid.State()), monster), monster)
      ensures grid.nextId == old(grid.nextId)
    {
      grid.UnregisterObject(monster);
      grid.Destroy(monster);
    }
  }
}
