/** The first movement prototype (`Player/PlayerMovement.cs`,
    `Obstacle/Push.cs`, `Monster/Monster.cs`): no grid index, only the arrays
    of obstacles, pushables and monsters each script finds by tag at `Start`,
    scanned linearly for an object standing exactly at the next position.
    Positions are the transforms' x and y, compared exactly. */
module Prototype {
  import opened Common
  import opened Grid

  /** The scene as the prototype scripts see it: obstacle positions, pushable
      positions, and monster positions with `None` for a destroyed monster. */
  datatype Scene = Scene(obstacles: seq<Vec2>, crates: seq<Vec2>, monsters: seq<Option<Vec2>>)

  /** The prototype player: the scene, its own position, `MoveCount` and `ReadyToMove`. */
  datatype Proto = Proto(scene: Scene, pos: Vec2, moveCount: int, ready: bool)

  /** `Vector2.Normalize`'s cut-off: shorter vectors become zero. */
  const NormalizeEpsilon: real := 0.00001

  /** The threshold `Update` compares the squared input length against. */
  const Deflection: real := 0.5

  /** `transform.Translate(direction)` with no rotation. */
  function Translate(p: Vec2, d: Vec2): Vec2
  {
    Vec2(p.x + d.x, p.y + d.y)
  }

  /** `Normalize` of a one-axis component: its sign, or zero below the cut-off. */
  function UnitOf(r: real): (u: real)
    ensures u == 1.0 || u == 0.0 || u == -1.0
    ensures u == 0.0 <==> Abs(r) <= NormalizeEpsilon
    ensures u > 0.0 <==> r > NormalizeEpsilon
  {
    if r > NormalizeEpsilon then 1.0 else if r < -NormalizeEpsilon then -1.0 else 0.0
  }

  /** `Move`'s direction clean-up: a small x is dropped, otherwise y is
      dropped, and what is left is normalised. */
  function AxisStep(d: Vec2): (s: Vec2)
  {
    if Abs(d.x) < 0.5 then Vec2(0.0, UnitOf(d.y)) else Vec2(UnitOf(d.x), 0.0)
  }

  /** The first index holding `x`, as the `foreach` scans find it. */
  function FirstAt<T(==)>(xs: seq<T>, x: T): (r: Option<nat>)
    ensures r.None? <==> x !in xs
    ensures r.Some? ==> r.value < |xs| && xs[r.value] == x && x !in xs[..r.value]
  {
    if xs == [] then None
    else if xs[0] == x then Some(0)
    else match FirstAt(xs[1..], x)
      case None => None
      case Some(i) =>
        assert xs[1..][..i] == xs[1..i + 1];
        assert xs[..i + 1] == [xs[0]] + xs[1..i + 1];
        Some(i + 1)
  }

  /** `Push.ObjToBlocked(position, direction)`: an obstacle, a pushable or a
      live monster stands at `position + direction`. */
  predicate Occupied(s: Scene, p: Vec2)
  {
    p in s.obstacles || p in s.crates || Some(p) in s.monsters
  }

  /** `Push.Move` on pushable `i`: a step when the next position is free,
      otherwise nothing. */
  function CrateStep(s: Scene, i: nat, d: Vec2): (Scene, bool)
    requires i < |s.crates|
  {
    var next := Translate(s.crates[i], d);
    if Occupied(s, next) then (s, false) else (s.(crates := s.crates[i := next]), true)
  }

  /** `Monster.Move` on live monster `j`: a step when the next position is
      free, otherwise the monster destroys itself. */
  function MonsterStep(s: Scene, j: nat, d: Vec2): (Scene, bool)
    requires j < |s.monsters| && s.monsters[j].Some?
  {
    var next := Translate(s.monsters[j].value, d);
    if Occupied(s, next) then (s.(monsters := s.monsters[j := None]), false)
    else (s.(monsters := s.monsters[j := Some(next)]), true)
  }

  /** `PlayerMovement.Blocked(position, direction)`: obstacles first, then the
      first pushable there (blocking iff its move fails), then the first live
      monster there (likewise); the scene after any push, and the verdict. */
  function BlockedSpec(s: Scene, p: Vec2, d: Vec2): (Scene, bool)
  {
    var next := Translate(p, d);
    if next in s.obstacles then (s, true)
    else match FirstAt(s.crates, next)
      case Some(i) => var (s1, moved) := CrateStep(s, i, d); (s1, !moved)
      case None =>
        match FirstAt(s.monsters, Some(next))
        case Some(j) => var (s1, moved) := MonsterStep(s, j, d); (s1, !moved)
        case None => (s, false)
  }

  /** `PlayerMovement.Move(direction)`: the new state and whether the player moved. */
  function MoveSpec(w: Proto, direction: Vec2): (Proto, bool)
  {
    var d := AxisStep(direction);
    var (s1, blocked) := BlockedSpec(w.scene, w.pos, d);
    if blocked then (w.(scene := s1), false) else (w.(scene := s1, pos := Translate(w.pos, d)), true)
  }

  /** `PlayerMovement.Update` with the frame's axes after `Vector2.Normalize`. */
  function UpdateSpec(w: Proto, input: Vec2): Proto
  {
    if input.x * input.x + input.y * input.y > Deflection then
      if w.ready then
        var (w1, moved) := MoveSpec(w.(ready := false), input);
        if moved then w1.(moveCount := w1.moveCount + 1) else w1
      else w
    else w.(ready := true)
  }

  // ------------------------------------------------------------------ lemmas

  /** `Move` always takes an axis-aligned step of length at most one: x is
      dropped when it is below one half, y otherwise. */
  lemma AxisStepIsAxisAligned(d: Vec2)
    ensures var s := AxisStep(d);
      && (Abs(d.x) < 0.5 ==> s.x == 0.0 && (s.y == 0.0 <==> Abs(d.y) <= NormalizeEpsilon))
      && (Abs(d.x) >= 0.5 ==> s.y == 0.0 && s.x != 0.0 && (s.x > 0.0 <==> d.x > 0.0))
      && s.x * s.x + s.y * s.y <= 1.0
  {
  }

  /** An obstacle at the next position blocks before any pushable or monster
      is looked at, and nothing is pushed. */
  lemma ObstacleBlocksFirst(s: Scene, p: Vec2, d: Vec2)
    requires Translate(p, d) in s.obstacles
    ensures BlockedSpec(s, p, d) == (s, true)
  {
  }

  /** A pushable at the next position blocks exactly when its own move fails;
      when it moves, so does the player, one step behind it. */
  lemma PushableBlocksIffStuck(w: Proto, direction: Vec2)
    requires var next := Translate(w.pos, AxisStep(direction));
      next !in w.scene.obstacles && next in w.scene.crates
    ensures var d := AxisStep(direction);
      var next := Translate(w.pos, d);
      var i := FirstAt(w.scene.crates, next).value;
      var (w', moved) := MoveSpec(w, direction);
      && (moved <==> !Occupied(w.scene, Translate(next, d)))
      && (moved ==> w'.pos == next && w'.scene.crates[i] == Translate(next, d))
      && (!moved ==> w' == w)
  {
  }

  /** A live monster at the next position (with no obstacle or pushable there)
      blocks exactly when its own move fails, and a failed move destroys it. */
  lemma MonsterBlocksIffStuck(w: Proto, direction: Vec2)
    requires var next := Translate(w.pos, AxisStep(direction));
      next !in w.scene.obstacles && next !in w.scene.crates && Some(next) in w.scene.monsters
    ensures var d := AxisStep(direction);
      var next := Translate(w.pos, d);
      var j := FirstAt(w.scene.monsters, Some(next)).value;
      var (w', moved) := MoveSpec(w, direction);
      && (moved <==> !Occupied(w.scene, Translate(next, d)))
      && (moved ==> w'.pos == next && w'.scene.monsters[j] == Some(Translate(next, d)))
      && (!moved ==> w'.pos == w.pos && w'.scene.monsters[j] == None
                     && w'.scene == w.scene.(monsters := w.scene.monsters[j := None]))
  {
  }

  /** With nothing at the next position the player steps there. */
  lemma FreeStep(w: Proto, direction: Vec2)
    requires !Occupied(w.scene, Translate(w.pos, AxisStep(direction)))
    ensures MoveSpec(w, direction) == (w.(pos := Translate(w.pos, AxisStep(direction))), true)
  {
    var next := Translate(w.pos, AxisStep(direction));
    assert FirstAt(w.scene.monsters, Some(next)).None?;
  }

  /** `MoveCount` grows by one exactly when the player moved, so a monster
      destroyed by a push costs nothing. */
  lemma CountsOnlyMoves(w: Proto, input: Vec2)
    requires w.ready && input.x * input.x + input.y * input.y > Deflection
    ensures var (w1, moved) := MoveSpec(w.(ready := false), input);
      var w' := UpdateSpec(w, input);
      && w'.moveCount == w.moveCount + (if moved then 1 else 0)
      && w'.pos == w1.pos && w'.scene == w1.scene && !w'.ready
  {
  }

  /** A held deflection moves once; the next frame with the same input does nothing. */
  lemma OneMovePerDeflection(w: Proto, input: Vec2)
    requires w.ready && input.x * input.x + input.y * input.y > Deflection
    ensures var w' := UpdateSpec(w, input);
      !w'.ready && UpdateSpec(w', input) == w'
  {
  }

  /** The reader starts disarmed (`ReadyToMove` is never set in `Start`), so
      the first deflection after loading only re-arms after a release. */
  lemma FirstDeflectionIgnored(s: Scene, p: Vec2, input: Vec2)
    requires input.x * input.x + input.y * input.y > Deflection
    ensures UpdateSpec(Proto(s, p, 0, false), input) == Proto(s, p, 0, false)
  {
  }

  /** `Push.Move` steps exactly when the next position is free, and otherwise
      leaves every position as it was. */
  lemma CrateMoveOutcome(s: Scene, i: nat, d: Vec2)
    requires i < |s.crates|
    ensures var (s', moved) := CrateStep(s, i, d);
      && (moved <==> !Occupied(s, Translate(s.crates[i], d)))
      && (moved ==> s'.crates[i] == Translate(s.crates[i], d)
                    && s'.obstacles == s.obstacles && s'.monsters == s.monsters
                    && forall k :: 0 <= k < |s.crates| && k != i ==> s'.crates[k] == s.crates[k])
      && (!moved ==> s' == s)
  {
  }

  /** No push chains: a pushable or a live monster in the way of a pushable
      blocks it rather than being pushed along. */
  lemma NoPushChains(s: Scene, i: nat, d: Vec2)
    requires i < |s.crates|
    requires var next := Translate(s.crates[i], d); next in s.crates || Some(next) in s.monsters
    ensures CrateStep(s, i, d) == (s, false)
  {
  }

  /** A monster's single move either steps or destroys it, never both, and
      blocks by exactly the pushables' rule. */
  lemma MonsterMoveOutcome(s: Scene, j: nat, d: Vec2)
    requires j < |s.monsters| && s.monsters[j].Some?
    ensures var next := Translate(s.monsters[j].value, d);
      var (s', moved) := MonsterStep(s, j, d);
      && (moved <==> !Occupied(s, next))
      && (moved ==> s'.monsters[j] == Some(next))
      && (!moved ==> s'.monsters[j] == None)
      && s'.obstacles == s.obstacles && s'.crates == s.crates
      && forall k :: 0 <= k < |s.monsters| && k != j ==> s'.monsters[k] == s.monsters[k]
  {
  }

  /** A destroyed monster no longer blocks: once the only thing at its
      position is gone, the position is free. */
  lemma DestroyedMonsterIgnored(s: Scene, j: nat, d: Vec2)
    requires j < |s.monsters| && s.monsters[j].Some?
    requires var q := s.monsters[j].value;
      && q !in s.obstacles && q !in s.crates
      && forall k :: 0 <= k < |s.monsters| && k != j ==> s.monsters[k] != Some(q)
    requires Occupied(s, Translate(s.monsters[j].value, d))
    ensures !Occupied(MonsterStep(s, j, d).0, s.monsters[j].value)
  {
    var q := s.monsters[j].value;
    var s' := MonsterStep(s, j, d).0;
    assert Some(q) !in s'.monsters by {
      forall k | 0 <= k < |s'.monsters| ensures s'.monsters[k] != Some(q) {
      }
    }
  }

  // ------------------------------------------------------------------ the classes

  /** The tagged scene objects every prototype script finds at `Start`, with
      the `Push` and `Monster` scripts' behaviour on them. */
  class Board
  {
    /** The `Obstacles` objects, which nothing moves. */
    const obstacles: seq<Vec2>
    /** The `ObjToPush` objects' positions. */
    const crates: array<Vec2>
    /** The `ObjMonster` objects' positions, `None` once destroyed. */
    const monsters: array<Option<Vec2>>

    function Snapshot(): Scene
      reads crates, monsters
    {
      Scene(obstacles, crates[..], monsters[..])
    }

    constructor (obstacles: seq<Vec2>, crates: seq<Vec2>, monsters: seq<Vec2>)
      ensures Snapshot() == Scene(obstacles, crates, seq(|monsters|, k requires 0 <= k < |monsters| => Some(monsters[k])))
      ensures fresh(this.crates) && fresh(this.monsters)
    {
      this.obstacles := obstacles;
      this.crates := new Vec2[|crates|](k requires 0 <= k < |crates| => crates[k]);
      this.monsters := new Option<Vec2>[|monsters|](k requires 0 <= k < |monsters| => Some(monsters[k]));
    }

    /** `Push.ObjToBlocked(position, direction)`: three scans, each returning on a hit. */
    method ObjToBlocked(position: Vec2, direction: Vec2) returns (b: bool)
      ensures b <==> Occupied(Snapshot(), Translate(position, direction))
    {
      var newPos := Translate(position, direction);
      for i := 0 to |obstacles|
        invariant newPos !in obstacles[..i]
      {
        if obstacles[i] == newPos {
          return true;
        }
      }
      assert obstacles[..|obstacles|] == obstacles;
      for i := 0 to crates.Length
        invariant newPos !in crates[..i]
      {
        if crates[i] == newPos {
          return true;
        }
      }
      assert crates[..crates.Length] == crates[..];
      for i := 0 to monsters.Length
        invariant Some(newPos) !in monsters[..i]
      {
        if monsters[i] != None && monsters[i].value == newPos {
          return true;
        }
      }
      assert monsters[..monsters.Length] == monsters[..];
      return false;
    }

    /** `Push.Move(direction)` on pushable `i`. */
    method CrateMove(i: nat, direction: Vec2) returns (moved: bool)
      requires i < crates.Length
      modifies crates
      ensures (Snapshot(), moved) == CrateStep(old(Snapshot()), i, direction)
    {
      var blocked := ObjToBlocked(crates[i], direction);
      if blocked {
        return false;
      }
      crates[i] := Translate(crates[i], direction);
      return true;
    }

    /** `Monster.Move(direction)` on live monster `j`: `Destroy` when blocked. */
    method MonsterMove(j: nat, direction: Vec2) returns (moved: bool)
      requires j < monsters.Length && monsters[j].Some?
      modifies monsters
      ensures (Snapshot(), moved) == MonsterStep(old(Snapshot()), j, direction)
    {
      var blocked := ObjToBlocked(monsters[j].value, direction);
      if blocked {
        monsters[j] := None;
        return false;
      }
      monsters[j] := Some(Translate(monsters[j].value, direction));
      return true;
    }
  }

  class PlayerMovement
  {
    const board: Board
    /** The player's transform position. */
    var position: Vec2
    var moveCount: int
    var readyToMove: bool

    function Current(): Proto
      reads this, board.crates, board.monsters
    {
      Proto(board.Snapshot(), position, moveCount, readyToMove)
    }

    /** `Start`: the count is zeroed; `ReadyToMove` keeps its default `false`. */
    constructor (board: Board, position: Vec2)
      ensures this.board == board && Current() == Proto(board.Snapshot(), position, 0, false)
    {
      this.board := board;
      this.position := position;
      moveCount := 0;
      readyToMove := false;
    }

    /** `Update` with the frame's axes after `Vector2.Normalize`. */
    method Update(input: Vec2)
      modifies this, board.crates, board.monsters
      ensures Current() == UpdateSpec(old(Current()), input)
    {
      if input.x * input.x + input.y * input.y > Deflection {
        if readyToMove {
          readyToMove := false;
          var moved := Move(input);
          if moved {
            moveCount := moveCount + 1;
          }
        }
      } else {
        readyToMove := true;
      }
    }

    method Move(direction: Vec2) returns (moved: bool)
      modifies this`position, board.crates, board.monsters
      ensures (Current(), moved) == MoveSpec(old(Current()), direction)
    {
      var d := AxisStep(direction);
      var blocked := Blocked(position, d);
      if blocked {
        return false;
      }
      position := Translate(position, d);
      return true;
    }

    /** `Blocked(position, direction)`: three scans; a pushable or monster
        found at the next position is asked to move first. */
    method Blocked(pos: Vec2, direction: Vec2) returns (b: bool)
      modifies board.crates, board.monsters
      ensures (board.Snapshot(), b) == BlockedSpec(old(board.Snapshot()), pos, direction)
    {
      var newPos := Translate(pos, direction);
      for i := 0 to |board.obstacles|
        invariant newPos !in board.obstacles[..i]
      {
        if board.obstacles[i] == newPos {
          return true;
        }
      }
      assert board.obstacles[..|board.obstacles|] == board.obstacles;
      for i := 0 to board.crates.Length
        invariant newPos !in board.crates[..i]
      {
        if board.crates[i] == newPos {
          var moved := board.CrateMove(i, direction);
          return !moved;
        }
      }
      assert board.crates[..board.crates.Length] == board.crates[..];
      for i := 0 to board.monsters.Length
        invariant Some(newPos) !in board.monsters[..i]
      {
        if board.monsters[i] != None && board.monsters[i].value == newPos {
          var moved := board.MonsterMove(i, direction);
          return !moved;
        }
      }
      assert board.monsters[..board.monsters.Length] == board.monsters[..];
      return false;
    }
  }
}
