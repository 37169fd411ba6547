/** The current player (`Utils/Objects/Player.cs`): kick-in-place pushing,
    key pickup, thorn toggling and the 1-or-2 move charge of every resolved
    attempt, with a one-slot buffer for input that arrives mid-animation.

    Three members the player calls are not part of this model and are supplied
    by the caller: `GridManager.ToggleThorns` and the `updateTransform` overload
    of `GridManager.MoveObject` as grid effects in `Hooks`, and
    `GameManager.IsPendingGameOver` as the `pending` flag.  Whether
    `GameManager.ExecutePendingGameOver` was called is returned. */
module PlayerMoves {
  import opened Common
  import opened GameEnums
  import opened GridModel
  import opened Input
  import opened Turns
  import opened Grid

  /** The grid effects whose bodies are not part of this model. */
  datatype Hooks = Hooks(
    toggleThorns: GridState -> GridState,
    slideObject: (GridState, ObjId, Vec2Int, Vec2Int) -> GridState)

  /** The player's own fields. */
  datatype Body = Body(pos: Vec2Int, queued: Option<Vec2Int>, lastDir: Vec2Int)

  /** Everything a move attempt reads or changes. */
  datatype World = World(grid: GridState, turn: Turn, mode: Mode, body: Body)

  /** `TryPushObject` for a Block or Monster at `at`: the new grid and whether
      the push went through. */
  function Push(g: GridState, b: ObjId, at: Vec2Int, dir: Vec2Int, hooks: Hooks): (GridState, bool)
    requires Alive(g, b)
  {
    var pushTarget := at.Plus(dir);
    if IsBlocked(g, pushTarget) || PushableAt(g, pushTarget).Some? then
      (if g.scene[b].tag == Monster then DestroyObject(Unregister(g, b), b) else g, false)
    else if g.scene[b].tag == Block then (hooks.slideObject(g, b, at, pushTarget), true)
    else (Move(g, b, at, pushTarget), true)
  }

  /** The plain move onto `to`, then `CollectKey` for a live Key found there:
      the new grid and whether a key was taken. */
  function Walk(g: GridState, self: ObjId, from: Vec2Int, to: Vec2Int): (GridState, bool)
    requires Alive(g, self)
  {
    var g1 := Move(g, self, from, to);
    match ObjectWithTagAt(g1, to, Key)
    case Some(k) => (DestroyObject(Unregister(g1, k), k), true)
    case None => (g1, false)
  }

  /** `TryMove` past its guards: the blocked check, the pending game over, the
      push or plain move, the thorn toggle and the charge.  The flag says
      whether `ExecutePendingGameOver` was called. */
  function Resolve(w: World, self: ObjId, player: Option<ObjId>, dir: Vec2Int, pending: bool,
                   hooks: Hooks, deathAnimator: bool): (World, bool)
    requires Alive(w.grid, self)
  {
    var body := w.body.(lastDir := dir);
    var target := body.pos.Plus(dir);
    if IsBlocked(w.grid, target) then (w.(body := body), false)
    else if pending then (w.(body := body.(queued := None)), true)
    else
      var pushable := PushableAt(w.grid, target);
      var g1 := if pushable.Some? then Push(w.grid, pushable.value, target, dir, hooks).0
                else Walk(w.grid, self, body.pos, target).0;
      var pos := if pushable.Some? then body.pos else target;
      var tookKey := pushable.None? && Walk(w.grid, self, body.pos, target).1;
      var t1 := if tookKey then w.turn.(hasKey := true) else w.turn;
      var g2 := hooks.toggleThorns(g1);
      var cost := if IsPunished(g2, pos) then 2 else 1;
      var after := Increase(t1, w.mode, g2, player, cost, deathAnimator);
      (World(g2, after.0, after.1, body.(pos := pos)), false)
  }

  /** `TryMove(dir)`. */
  function TryMoveSpec(w: World, self: ObjId, player: Option<ObjId>, dir: Vec2Int,
                       animating: bool, pending: bool, hooks: Hooks, deathAnimator: bool): (World, bool)
    requires Alive(w.grid, self)
  {
    if w.mode.state != Playing || w.turn.gameOver || w.turn.cleared then (w, false)
    else if animating then (w.(body := w.body.(queued := Some(dir))), false)
    else Resolve(w, self, player, dir, pending, hooks, deathAnimator)
  }

  /** `Update`: a pending game over empties the buffer; an idle animator
      replays the buffered direction once. */
  function UpdateSpec(w: World, self: ObjId, player: Option<ObjId>, hasAnimator: bool, animating: bool,
                      pending: bool, hooks: Hooks, deathAnimator: bool): (World, bool)
    requires Alive(w.grid, self)
  {
    if pending then (w.(body := w.body.(queued := None)), false)
    else if hasAnimator && !animating && w.body.queued.Some? then
      TryMoveSpec(w.(body := w.body.(queued := None)), self, player, w.body.queued.value, false, false, hooks, deathAnimator)
    else (w, false)
  }

  // ------------------------------------------------------------------ lemmas

  /** Outside Playing, or once the stage is cleared or lost, an attempt changes nothing. */
  lemma IgnoredUnlessRunning(w: World, self: ObjId, player: Option<ObjId>, dir: Vec2Int,
                             animating: bool, pending: bool, hooks: Hooks, deathAnimator: bool)
    requires Alive(w.grid, self)
    requires w.mode.state != Playing || w.turn.gameOver || w.turn.cleared
    ensures TryMoveSpec(w, self, player, dir, animating, pending, hooks, deathAnimator) == (w, false)
  {
  }

  /** During an animation the attempt only overwrites the one-slot buffer. */
  lemma AnimatingOnlyBuffers(w: World, self: ObjId, player: Option<ObjId>, dir: Vec2Int,
                             pending: bool, hooks: Hooks, deathAnimator: bool)
    requires Alive(w.grid, self)
    requires w.mode.state == Playing && !w.turn.gameOver && !w.turn.cleared
    ensures var (w', called) := TryMoveSpec(w, self, player, dir, true, pending, hooks, deathAnimator);
      && w'.grid == w.grid && w'.turn == w.turn && w'.mode == w.mode && !called
      && w'.body == w.body.(queued := Some(dir))
  {
  }

  /** A blocked target only turns the player: no grid change, no charge. */
  lemma BlockedOnlyTurns(w: World, self: ObjId, player: Option<ObjId>, dir: Vec2Int,
                         pending: bool, hooks: Hooks, deathAnimator: bool)
    requires Alive(w.grid, self)
    requires IsBlocked(w.grid, w.body.pos.Plus(dir))
    ensures var (w', called) := Resolve(w, self, player, dir, pending, hooks, deathAnimator);
      && w'.grid == w.grid && w'.turn == w.turn && w'.mode == w.mode && !called
      && w'.body == w.body.(lastDir := dir)
  {
  }

  /** With a free target and a game over pending, the pending game over runs
      and nothing moves. */
  lemma PendingGameOverStops(w: World, self: ObjId, player: Option<ObjId>, dir: Vec2Int,
                             hooks: Hooks, deathAnimator: bool)
    requires Alive(w.grid, self)
    requires !IsBlocked(w.grid, w.body.pos.Plus(dir))
    ensures var (w', called) := Resolve(w, self, player, dir, true, hooks, deathAnimator);
      && called && w'.grid == w.grid && w'.turn == w.turn && w'.mode == w.mode
      && w'.body == w.body.(lastDir := dir, queued := None)
  {
  }

  /** Every attempt that gets past the blocked check and the pending game
      over toggles the thorns once and charges through `IncreaseMoveCount`:
      2 moves when the player's final cell is punished after the toggle, else 1. */
  lemma ResolutionCharges(w: World, self: ObjId, player: Option<ObjId>, dir: Vec2Int,
                          hooks: Hooks, deathAnimator: bool)
    requires Alive(w.grid, self) && !w.turn.cleared && !w.turn.gameOver
    requires !IsBlocked(w.grid, w.body.pos.Plus(dir))
    ensures var (w', called) := Resolve(w, self, player, dir, false, hooks, deathAnimator);
      && !called
      && w'.turn.moveCount == w.turn.moveCount + (if IsPunished(w'.grid, w'.body.pos) then 2 else 1)
      && w'.body.lastDir == dir && w'.body.queued == w.body.queued
  {
    var (w', _) := Resolve(w, self, player, dir, false, hooks, deathAnimator);
    var target := w.body.pos.Plus(dir);
    var pushable := PushableAt(w.grid, target);
    var g1 := if pushable.Some? then Push(w.grid, pushable.value, target, dir, hooks).0
              else Walk(w.grid, self, w.body.pos, target).0;
    var pos := if pushable.Some? then w.body.pos else target;
    var tookKey := pushable.None? && Walk(w.grid, self, w.body.pos, target).1;
    var t1 := if tookKey then w.turn.(hasKey := true) else w.turn;
    var g2 := hooks.toggleThorns(g1);
    IncreaseCounts(t1, w.mode, g2, player, if IsPunished(g2, pos) then 2 else 1, deathAnimator);
  }

  /** With nothing pushable at the target the player moves exactly one step
      there, listed at the target, and the thorns are toggled on the result. */
  lemma WalkMovesOneStep(w: World, self: ObjId, player: Option<ObjId>, dir: Vec2Int,
                         hooks: Hooks, deathAnimator: bool)
    requires Alive(w.grid, self) && Valid(w.grid)
    requires !IsBlocked(w.grid, w.body.pos.Plus(dir)) && PushableAt(w.grid, w.body.pos.Plus(dir)).None?
    ensures var (w', _) := Resolve(w, self, player, dir, false, hooks, deathAnimator);
      var (g1, took) := Walk(w.grid, self, w.body.pos, w.body.pos.Plus(dir));
      && w'.body.pos == w.body.pos.Plus(dir)
      && w'.grid == hooks.toggleThorns(g1)
      && Move(w.grid, self, w.body.pos, w.body.pos.Plus(dir)).cells[w.body.pos.Plus(dir)] != []
      && self in Listed(Move(w.grid, self, w.body.pos, w.body.pos.Plus(dir)), w.body.pos.Plus(dir))
      && (!w.turn.cleared && !w.turn.gameOver ==> (w'.turn.hasKey <==> w.turn.hasKey || took))
  {
    var target := w.body.pos.Plus(dir);
    MoveEffect(w.grid, self, w.body.pos, target);
    var (g1, took) := Walk(w.grid, self, w.body.pos, target);
    var t1 := if took then w.turn.(hasKey := true) else w.turn;
    var g2 := hooks.toggleThorns(g1);
    if !w.turn.cleared && !w.turn.gameOver {
      IncreaseCounts(t1, w.mode, g2, player, if IsPunished(g2, target) then 2 else 1, deathAnimator);
    }
  }

  /** A plain move takes a key exactly when a live Key is listed at the target
      (the player itself not being a Key); the key is unlisted and dead afterwards. */
  lemma WalkCollectsKey(g: GridState, self: ObjId, from: Vec2Int, to: Vec2Int)
    requires Alive(g, self) && g.scene[self].tag != Key
    ensures var (g', took) := Walk(g, self, from, to);
      && (took <==> AnyTagged(g, to, {Key}))
      && (took ==> var k := ObjectWithTagAt(Move(g, self, from, to), to, Key).value;
                   !Alive(g', k) && k in Listed(g, to))
  {
    var g1 := Move(g, self, from, to);
    MoveKeepsOthers(g, self, from, to);
    AnyTaggedIffFirst(g1, to, {Key});
    if AnyTagged(g, to, {Key}) {
      var x :| x in Listed(g, to) && Matches(g.scene, x, {Key});
      assert x != self;
      assert x in Listed(g1, to) && Matches(g1.scene, x, {Key});
    }
    if AnyTagged(g1, to, {Key}) {
      var x :| x in Listed(g1, to) && Matches(g1.scene, x, {Key});
      assert x != self;
      assert x in Listed(g, to) && Matches(g.scene, x, {Key});
    }
    var k := ObjectWithTagAt(g1, to, Key);
    if k.Some? {
      assert k.value != self;
    }
  }

  /** Moving one object changes no other object's listing or scene entry. */
  lemma MoveKeepsOthers(g: GridState, id: ObjId, from: Vec2Int, to: Vec2Int)
    requires Alive(g, id)
    ensures var g' := Move(g, id, from, to);
      && (forall x, c :: x != id ==> (x in Listed(g', c) <==> x in Listed(g, c)))
      && (forall x :: x != id && x in g.scene ==> x in g'.scene && g'.scene[x] == g.scene[x])
  {
    var g' := Move(g, id, from, to);
    forall x, c | x != id
      ensures x in Listed(g', c) <==> x in Listed(g, c)
    {
      if from in g.cells {
        RemoveFirstKeepsOthers(g.cells[from], id, x);
      }
    }
  }

  lemma {:induction false} RemoveFirstKeepsOthers(s: seq<ObjId>, id: ObjId, x: ObjId)
    requires x != id
    ensures x in RemoveFirst(s, id) <==> x in s
  {
    if s != [] && s[0] != id {
      RemoveFirstKeepsOthers(s[1..], id, x);
      assert RemoveFirst(s, id) == [s[0]] + RemoveFirst(s[1..], id);
    }
  }

  /** With a pushable at the target the player never moves and no key is taken;
      the grid is the push's result with the thorns toggled. */
  lemma KickStaysInPlace(w: World, self: ObjId, player: Option<ObjId>, dir: Vec2Int,
                         hooks: Hooks, deathAnimator: bool)
    requires Alive(w.grid, self)
    requires !IsBlocked(w.grid, w.body.pos.Plus(dir)) && PushableAt(w.grid, w.body.pos.Plus(dir)).Some?
    ensures var (w', _) := Resolve(w, self, player, dir, false, hooks, deathAnimator);
      var b := PushableAt(w.grid, w.body.pos.Plus(dir)).value;
      && w'.body.pos == w.body.pos
      && w'.grid == hooks.toggleThorns(Push(w.grid, b, w.body.pos.Plus(dir), dir, hooks).0)
      && (!w.turn.cleared && !w.turn.gameOver ==> w'.turn.hasKey == w.turn.hasKey)
  {
    var target := w.body.pos.Plus(dir);
    var b := PushableAt(w.grid, target).value;
    var g2 := hooks.toggleThorns(Push(w.grid, b, target, dir, hooks).0);
    if !w.turn.cleared && !w.turn.gameOver {
      IncreaseCounts(w.turn, w.mode, g2, player, if IsPunished(g2, w.body.pos) then 2 else 1, deathAnimator);
    }
  }

  /** A push succeeds exactly when the cell beyond is neither blocked nor
      holds a pushable.  A successful Monster push moves it there; a failed one
      removes the Monster; a failed Block push changes nothing. */
  lemma PushOutcome(g: GridState, b: ObjId, at: Vec2Int, dir: Vec2Int, hooks: Hooks)
    requires Valid(g) && Alive(g, b) && g.scene[b].cell == at && g.scene[b].tag in PushableTags
    ensures var (g', ok) := Push(g, b, at, dir, hooks);
      && (ok <==> !IsBlocked(g, at.Plus(dir)) && !AnyTagged(g, at.Plus(dir), PushableTags))
      && (ok && g.scene[b].tag == Monster ==>
            g'.scene[b].cell == at.Plus(dir) && b in Listed(g', at.Plus(dir)) && Valid(g'))
      && (ok && g.scene[b].tag == Block ==> g' == hooks.slideObject(g, b, at, at.Plus(dir)))
      && (!ok && g.scene[b].tag == Monster ==> !Alive(g', b) && b !in Listed(g', at) && Valid(g'))
      && (!ok && g.scene[b].tag == Block ==> g' == g)
  {
    var pushTarget := at.Plus(dir);
    AnyTaggedIffFirst(g, pushTarget, PushableTags);
    if IsBlocked(g, pushTarget) || PushableAt(g, pushTarget).Some? {
      if g.scene[b].tag == Monster {
        UnregisterEffect(g, b);
        UnregisterPreservesValid(g, b);
      }
    } else if g.scene[b].tag == Monster {
      MoveEffect(g, b, at, pushTarget);
    }
  }

  /** A pending game over empties the buffer and does nothing else; otherwise
      an idle animator replays the buffered direction exactly once, and in any
      other case nothing happens. */
  lemma UpdateReplaysOnce(w: World, self: ObjId, player: Option<ObjId>, hasAnimator: bool, animating: bool,
                          pending: bool, hooks: Hooks, deathAnimator: bool)
    requires Alive(w.grid, self)
    ensures var (w', called) := UpdateSpec(w, self, player, hasAnimator, animating, pending, hooks, deathAnimator);
      && (pending ==> w' == w.(body := w.body.(queued := None)) && !called)
      && (!pending && hasAnimator && !animating && w.body.queued.Some? ==>
            w'.body.queued == None
            && (w', called) == TryMoveSpec(w.(body := w.body.(queued := None)), self, player, w.body.queued.value,
                                            false, false, hooks, deathAnimator))
      && (!pending && !(hasAnimator && !animating && w.body.queued.Some?) ==> w' == w && !called)
  {
  }

  class Player
  {
    const grid: GridManager
    const game: GameManager
    const input: InputManager
    /** The player's own scene object. */
    const self: ObjId
    /** Whether a `PlayerAnimator` is attached. */
    const hasAnimator: bool

    var currentGridPos: Vec2Int
    var queuedInput: Option<Vec2Int>
    var lastMoveDirection: Vec2Int

    /** The singletons the player talks to are the ones the game manager uses. */
    predicate Wired()
    {
      game.grid == grid && game.input == input
    }

    function Current(): World
      reads this, grid, game, input
    {
      World(grid.State(), game.Snapshot(), input.Snapshot(), Body(currentGridPos, queuedInput, lastMoveDirection))
    }

    /** `Awake` and `Start`: the cell of the transform, registration as the
        game manager's player. */
    constructor (grid: GridManager, game: GameManager, input: InputManager, self: ObjId, hasAnimator: bool)
      requires self in grid.scene
      modifies game
      ensures this.grid == grid && this.game == game && this.input == input
      ensures this.self == self && this.hasAnimator == hasAnimator
      ensures currentGridPos == grid.scene[self].cell && queuedInput == None && lastMoveDirection == Right
      ensures game.player == Some(self) && game.Snapshot() == old(game.Snapshot())
    {
      this.grid := grid;
      this.game := game;
      this.input := input;
      this.self := self;
      this.hasAnimator := hasAnimator;
      lastMoveDirection := Right;
      queuedInput := None;
      currentGridPos := grid.scene[self].cell;
      new;
      game.SetPlayer(Some(self));
    }

    method Update(animating: bool, pending: bool, hooks: Hooks) returns (executedPending: bool)
      requires Wired() && Alive(grid.State(), self)
      modifies this, grid, game, input
      ensures (Current(), executedPending) ==
        UpdateSpec(old(Current()), self, old(game.player), hasAnimator, animating, pending, hooks, game.hasDeathAnimator)
      ensures game.player == old(game.player) && grid.nextId == old(grid.nextId)
      ensures input.inputThreshold == old(input.inputThreshold)
    {
      executedPending := false;
      if pending {
        queuedInput := None;
        return;
      }
      if hasAnimator && !animating && queuedInput.Some? {
        var dir := queuedInput.value;
        queuedInput := None;
        executedPending := TryMove(dir, animating, pending, hooks);
      }
    }

    method TryMove(dir: Vec2Int, animating: bool, pending: bool, hooks: Hooks) returns (executedPending: bool)
      requires Wired() && Alive(grid.State(), self)
      modifies this, grid, game, input
      ensures (Current(), executedPending) ==
        TryMoveSpec(old(Current()), self, old(game.player), dir, hasAnimator && animating, pending, hooks, game.hasDeathAnimator)
      ensures game.player == old(game.player) && grid.nextId == old(grid.nextId)
      ensures input.inputThreshold == old(input.inputThreshold)
    {
      executedPending := false;
      if input.currentState != Playing {
        return;
      }
      if game.isGameOver || game.isStageCleared {
        return;
      }
      if hasAnimator && animating {
        queuedInput := Some(dir);
        return;
      }
      executedPending := ResolveMove(dir, pending, hooks);
    }

    /** The rest of `TryMove` once its guards have passed. */
    method ResolveMove(dir: Vec2Int, pending: bool, hooks: Hooks) returns (executedPending: bool)
      requires Wired() && Alive(grid.State(), self)
      modifies this, grid, game, input
      ensures (Current(), executedPending) == Resolve(old(Current()), self, old(game.player), dir, pending, hooks, game.hasDeathAnimator)
      ensures game.player == old(game.player) && grid.nextId == old(grid.nextId)
      ensures input.inputThreshold == old(input.inputThreshold)
    {
      executedPending := false;
      lastMoveDirection := dir;
      var targetPos := currentGridPos.Plus(dir);
      var blocked := grid.IsPositionBlocked(targetPos);
      if blocked {
        return;
      }
      if pending {
        queuedInput := None;
        executedPending := true;
        return;
      }
      PushOrWalk(targetPos, dir, hooks);
      grid.ApplyEffect(hooks.toggleThorns);
      var moveCount := 1;
      var punished := grid.IsPositionPunished(currentGridPos);
      if punished {
        moveCount := moveCount + 1;
      }
      game.IncreaseMoveCount(moveCount);
    }

    /** The push of whatever stands on `targetPos`, or else the plain move
        there with the key pickup. */
    method PushOrWalk(targetPos: Vec2Int, dir: Vec2Int, hooks: Hooks)
      requires Alive(grid.State(), self)
      modifies this`currentGridPos, grid, game
      ensures var g0 := old(grid.State());
        var pushable := PushableAt(g0, targetPos);
        var walk := Walk(g0, self, old(currentGridPos), targetPos);
        && grid.State() == (if pushable.Some? then Push(g0, pushable.value, targetPos, dir, hooks).0 else walk.0)
        && currentGridPos == (if pushable.Some? then old(currentGridPos) else targetPos)
        && game.Snapshot() == (if pushable.None? && walk.1 then old(game.Snapshot()).(hasKey := true) else old(game.Snapshot()))
      ensures game.player == old(game.player) && grid.nextId == old(grid.nextId)
    {
      var pushable := grid.GetPushableAt(targetPos);
      if pushable.Some? {
        var _ := TryPushObject(pushable.value, targetPos, dir, hooks);
      } else {
        grid.MoveObject(self, currentGridPos, targetPos);
        currentGridPos := targetPos;
        var key := grid.GetObjectWithTagAt(currentGridPos, Key);
        if key.Some? {
          CollectKey(key.value);
        }
      }
    }

    method TryPushObject(pushable: ObjId, pushablePos: Vec2Int, dir: Vec2Int, hooks: Hooks) returns (pushed: bool)
      requires Alive(grid.State(), pushable)
      modifies grid
      ensures (grid.State(), pushed) == Push(old(grid.State()), pushable, pushablePos, dir, hooks)
      ensures grid.nextId == old(grid.nextId)
    {
      var pushTargetPos := pushablePos.Plus(dir);
      var stuck := grid.IsPositionBlocked(pushTargetPos);
      if !stuck {
        var other := grid.GetPushableAt(pushTargetPos);
        stuck := other.Some?;
      }
      if stuck {
        if grid.scene[pushable].tag == Monster {
          DestroyMonster(pushable);
        }
        return false;
      }
      if grid.scene[pushable].tag == Block {
        grid.ApplyEffect(g => hooks.slideObject(g, pushable, pushablePos, pushTargetPos));
      } else {
        grid.MoveObject(pushable, pushablePos, pushTargetPos);
      }
      return true;
    }

    method DestroyMonster(monster: ObjId)
      requires Alive(grid.State(), monster)
      modifies grid
      ensures grid.State() == DestroyObject(Unregister(old(grid.State()), monster), monster)
      ensures grid.nextId == old(grid.nextId)
    {
      grid.UnregisterObject(monster);
      grid.Destroy(monster);
    }

    method CollectKey(key: ObjId)
      requires Alive(grid.State(), key)
      modifies game, grid
      ensures game.Snapshot() == old(game.Snapshot()).(hasKey := true) && game.player == old(game.player)
      ensures grid.State() == DestroyObject(Unregister(old(grid.State()), key), key)
      ensures grid.nextId == old(grid.nextId)
    {
      game.SetKey(true);
      grid.UnregisterObject(key);
      grid.Destroy(key);
    }

    /** `UnlockBox`: the box leaves the grid and the key is spent.  `TryMove`
        never reaches it (see `GridModel.PushableIsBlockOrMonster`). */
    method UnlockBox(lockBox: ObjId)
      requires Alive(grid.State(), lockBox)
      modifies game, grid
      ensures grid.State() == DestroyObject(Unregister(old(grid.State()), lockBox), lockBox)
      ensures game.Snapshot() == old(game.Snapshot()).(hasKey := false) && game.player == old(game.player)
      ensures grid.nextId == old(grid.nextId)
    {
      grid.UnregisterObject(lockBox);
      grid.Destroy(lockBox);
      game.SetKey(false);
    }
  }
}
