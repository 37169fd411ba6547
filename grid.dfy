/** The grid manager: the occupancy dictionary updated in place, the scene
    objects it refers to, and the world/grid coordinate conversions. */
module Grid {
  import opened Common
  import opened GridModel

  /** A world position (`Vector2`/`Vector3` without its z component). */
  datatype Vec2 = Vec2(x: real, y: real)

  /** `Mathf.RoundToInt`: nearest integer, halves to the even neighbour. */
  function RoundToInt(r: real): (n: int)
    ensures (n as real) - 0.5 <= r <= (n as real) + 0.5
    ensures (r - n as real == 0.5 || n as real - r == 0.5) ==> n % 2 == 0
  {
    var f := r.Floor;
    var d := r - f as real;
    if d < 0.5 then f
    else if d > 0.5 then f + 1
    else if f % 2 == 0 then f
    else f + 1
  }

  /** `WorldToGrid`: the offset from the level's base position, rounded. */
  function WorldToGrid(world: Vec2, base: Vec2): Vec2Int
  {
    Vec2Int(RoundToInt(world.x - base.x), RoundToInt(world.y - base.y))
  }

  /** `GridToWorld`: the cell shifted by the level's base position. */
  function GridToWorld(cell: Vec2Int, base: Vec2): Vec2
  {
    Vec2(cell.x as real + base.x, cell.y as real + base.y)
  }

  /** Every integer cell survives the trip to world coordinates and back. */
  lemma WorldGridRoundTrip(cell: Vec2Int, base: Vec2)
    ensures WorldToGrid(GridToWorld(cell, base), base) == cell
  {
    RoundIntegral(cell.x);
    RoundIntegral(cell.y);
  }

  lemma RoundIntegral(n: int)
    ensures RoundToInt(n as real) == n
  {
    assert (n as real).Floor == n;
  }

  /** A world position less than half a tile from a cell's centre on each axis
      rounds to that cell. */
  lemma WorldNearCell(world: Vec2, cell: Vec2Int, base: Vec2)
    requires Abs(world.x - GridToWorld(cell, base).x) < 0.5
    requires Abs(world.y - GridToWorld(cell, base).y) < 0.5
    ensures WorldToGrid(world, base) == cell
  {
  }

  class GridManager
  {
    /** The `grid` dictionary. */
    var cells: map<Vec2Int, seq<ObjId>>
    /** The scene objects the dictionary refers to (Unity's object store). */
    var scene: map<ObjId, SceneObject>
    /** The identity the next instantiated object receives. */
    var nextId: nat

    function State(): GridState
      reads this
    {
      GridState(cells, scene)
    }

    /** Scene identities are all below `nextId`, so instantiation yields fresh ones. */
    predicate Fresh()
      reads this
    {
      forall id :: id in scene ==> id < nextId
    }

    constructor ()
      ensures State() == GridState(map[], map[]) && Valid(State()) && Fresh()
    {
      cells := map[];
      scene := map[];
      nextId := 0;
    }

    /** `Instantiate`: a new live object with `tag` whose transform rounds to
        `cell`, under one of the level's parents when `parented`. */
    method Instantiate(tag: Tag, cell: Vec2Int, parented: bool) returns (id: ObjId)
      requires Fresh()
      modifies this
      ensures id == old(nextId) && nextId == old(nextId) + 1 && id !in old(scene) && Fresh()
      ensures cells == old(cells) && scene == old(scene)[id := SceneObject(tag, cell, true, parented)]
    {
      id := nextId;
      scene := scene[id := SceneObject(tag, cell, true, parented)];
      nextId := nextId + 1;
    }

    /** `Destroy`: the object compares equal to `null` from then on; its grid
        entries, if any, stay. */
    method Destroy(id: ObjId)
      requires id in scene
      modifies this
      ensures State() == DestroyObject(old(State()), id) && nextId == old(nextId)
    {
      scene := scene[id := scene[id].(live := false)];
    }

    method RegisterObject(id: ObjId)
      requires Alive(State(), id)
      modifies this
      ensures State() == Register(old(State()), id) && nextId == old(nextId)
    {
      var c := scene[id].cell;
      if c !in cells {
        cells := cells[c := []];
      }
      if id !in cells[c] {
        cells := cells[c := cells[c] + [id]];
      }
    }

    method UnregisterObject(id: ObjId)
      requires Alive(State(), id)
      modifies this
      ensures State() == Unregister(old(State()), id) && nextId == old(nextId)
    {
      var c := scene[id].cell;
      if c in cells {
        cells := cells[c := RemoveFirst(cells[c], id)];
        if |cells[c]| == 0 {
          cells := cells - {c};
        }
      }
    }

    method MoveObject(id: ObjId, from: Vec2Int, to: Vec2Int)
      requires Alive(State(), id)
      modifies this
      ensures State() == Move(old(State()), id, from, to) && nextId == old(nextId)
    {
      if from in cells {
        cells := cells[from := RemoveFirst(cells[from], id)];
        if |cells[from]| == 0 {
          cells := cells - {from};
        }
      }
      if to !in cells {
        cells := cells[to := []];
      }
      if id !in cells[to] {
        cells := cells[to := cells[to] + [id]];
      }
      scene := scene[id := scene[id].(cell := to)];
    }

    /** A grid effect whose body is not part of this model (the thorn toggle and
        the slide overload of `MoveObject`), supplied by the caller. */
    method ApplyEffect(effect: GridState -> GridState)
      modifies this
      ensures State() == effect(old(State())) && nextId == old(nextId)
    {
      var next := effect(State());
      cells := next.cells;
      scene := next.scene;
    }

    method ClearGrid()
      modifies this
      ensures State() == Clear(old(State())) && nextId == old(nextId)
    {
      cells := map[];
    }

    /** The loop shared by `IsPositionBlocked` and `IsPositionPunished`: does a
        live object at `pos` carry one of `tags`? */
    method ScanForTags(pos: Vec2Int, tags: set<Tag>) returns (found: bool)
      ensures found <==> AnyTagged(State(), pos, tags)
    {
      if pos !in cells {
        return false;
      }
      var l := cells[pos];
      var i := 0;
      while i < |l|
        invariant 0 <= i <= |l|
        invariant forall j :: 0 <= j < i ==> !Matches(scene, l[j], tags)
      {
        var id := l[i];
        if id in scene && scene[id].live && scene[id].tag in tags {
          assert id in Listed(State(), pos) && Matches(State().scene, id, tags);
          return true;
        }
        i := i + 1;
      }
      assert Listed(State(), pos) == l;
      return false;
    }

    method IsPositionBlocked(pos: Vec2Int) returns (b: bool)
      ensures b <==> IsBlocked(State(), pos)
      ensures b <==> exists id :: id in Listed(State(), pos) && Alive(State(), id)
                                  && scene[id].tag in {Wall, Goal, LockBox}
    {
      b := ScanForTags(pos, BlockingTags);
    }

    method IsPositionPunished(pos: Vec2Int) returns (b: bool)
      ensures b <==> IsPunished(State(), pos)
      ensures b <==> exists id :: id in Listed(State(), pos) && Alive(State(), id)
                                  && scene[id].tag in {ThornNormal, ThornHidden}
    {
      b := ScanForTags(pos, PunishingTags);
    }

    method GetObjectsAt(pos: Vec2Int) returns (r: seq<ObjId>)
      ensures r == ObjectsAt(State(), pos)
      ensures forall id :: id in r <==> id in Listed(State(), pos) && Alive(State(), id)
    {
      if pos !in cells {
        return [];
      }
      var l := cells[pos];
      r := [];
      var i := 0;
      while i < |l|
        invariant 0 <= i <= |l|
        invariant r + LiveIn(l[i..], scene) == LiveIn(l, scene)
      {
        assert l[i..] == [l[i]] + l[i + 1..];
        if l[i] in scene && scene[l[i]].live {
          r := r + [l[i]];
        }
        i := i + 1;
      }
    }

    /** The first-match loop over `GetObjectsAt`'s result. */
    method FirstWithTags(pos: Vec2Int, tags: set<Tag>) returns (r: Option<ObjId>)
      ensures r == FirstTagged(State(), pos, tags)
    {
      var objects := GetObjectsAt(pos);
      ghost var target := FirstIn(objects, scene, tags);
      FirstInLive(Listed(State(), pos), scene, tags);
      assert target == FirstTagged(State(), pos, tags);
      var i := 0;
      while i < |objects|
        invariant 0 <= i <= |objects|
        invariant FirstIn(objects[i..], scene, tags) == target
        invariant forall j :: 0 <= j < |objects| ==> objects[j] in scene && scene[objects[j]].live
      {
        var id := objects[i];
        FirstInFrom(objects, i, scene, tags);
        if scene[id].tag in tags {
          return Some(id);
        }
        i := i + 1;
      }
      assert objects[i..] == [];
      return None;
    }

    method GetObjectWithTagAt(pos: Vec2Int, tag: Tag) returns (r: Option<ObjId>)
      ensures r == ObjectWithTagAt(State(), pos, tag)
      ensures r.Some? ==> r.value in Listed(State(), pos) && Alive(State(), r.value) && scene[r.value].tag == tag
      ensures r.None? <==> forall id :: id in Listed(State(), pos) && Alive(State(), id) ==> scene[id].tag != tag
    {
      r := FirstWithTags(pos, {tag});
      AnyTaggedIffFirst(State(), pos, {tag});
    }

    method GetPushableAt(pos: Vec2Int) returns (r: Option<ObjId>)
      ensures r == PushableAt(State(), pos)
      ensures r.Some? ==> r.value in Listed(State(), pos) && Alive(State(), r.value)
                          && (scene[r.value].tag == Block || scene[r.value].tag == Monster)
      ensures r.None? <==> !AnyTagged(State(), pos, PushableTags)
    {
      r := FirstWithTags(pos, PushableTags);
      AnyTaggedIffFirst(State(), pos, PushableTags);
    }
  }
}
