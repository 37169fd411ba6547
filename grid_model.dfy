/** The grid manager's occupancy index as a value: a map from integer cell to
    the ordered list of objects registered there, beside the scene objects those
    entries refer to.  Each scene object carries its tag, the cell its transform
    rounds to and whether it is still alive (Unity's `obj == null` after
    `Destroy`).  The functions here are the specification the `GridManager`
    class is proved against. */
module GridModel {
  import opened Common

  /** The Unity tags the game logic compares against. */
  datatype Tag =
    | Untagged | PlayerTag | Wall | Goal | LockBox | Block | Monster | Key
    | ThornNormal | ThornHidden | ThornUp | ThornDown

  /** Identity of a scene object (C# reference identity). */
  type ObjId = nat

  /** A scene object: its tag, the cell its transform rounds to, whether it is
      still alive, and whether its transform hangs under one of the level
      manager's parent objects. */
  datatype SceneObject = SceneObject(tag: Tag, cell: Vec2Int, live: bool, parented: bool)

  datatype GridState = GridState(cells: map<Vec2Int, seq<ObjId>>, scene: map<ObjId, SceneObject>)

  /** Tags `IsPositionBlocked` stops at. */
  const BlockingTags: set<Tag> := {Wall, Goal, LockBox}
  /** Tags `IsPositionPunished` charges for; the toggle spikes are not among them. */
  const PunishingTags: set<Tag> := {ThornNormal, ThornHidden}
  /** Tags `GetPushableAt` returns. */
  const PushableTags: set<Tag> := {Block, Monster}

  predicate NoDup(s: seq<ObjId>)
  {
    forall i, j :: 0 <= i < j < |s| ==> s[i] != s[j]
  }

  /** Every key holds a non-empty, duplicate-free list of scene objects. */
  predicate Valid(g: GridState)
  {
    forall c :: c in g.cells ==> g.cells[c] != [] && NoDup(g.cells[c]) && (forall id :: id in g.cells[c] ==> id in g.scene)
  }

  /** The list at a cell, an absent key read as an empty list. */
  function Listed(g: GridState, c: Vec2Int): seq<ObjId>
  {
    if c in g.cells then g.cells[c] else []
  }

  /** A live scene object carrying one of `tags`. */
  predicate Matches(scene: map<ObjId, SceneObject>, id: ObjId, tags: set<Tag>)
  {
    id in scene && scene[id].live && scene[id].tag in tags
  }

  predicate Alive(g: GridState, id: ObjId)
  {
    id in g.scene && g.scene[id].live
  }

  // ---------------------------------------------------------------- mutators

  /** The index of the first occurrence of `id` in `s`. */
  function FirstIndex(s: seq<ObjId>, id: ObjId): (k: nat)
    requires id in s
    ensures k < |s| && s[k] == id && id !in s[..k]
  {
    if s[0] == id then 0
    else
      var k := FirstIndex(s[1..], id) + 1;
      assert s[..k] == [s[0]] + s[1..][..k - 1];
      k
  }

  /** `List.Remove`: drops the first occurrence of `id`, if any, keeping the
      order of the rest. */
  function RemoveFirst(s: seq<ObjId>, id: ObjId): (r: seq<ObjId>)
    ensures id in s ==> |r| == |s| - 1
    ensures id !in s ==> r == s
    ensures forall x :: x in r ==> x in s
    ensures id in s ==> r == s[..FirstIndex(s, id)] + s[FirstIndex(s, id) + 1..]
  {
    if s == [] then []
    else if s[0] == id then s[1..]
    else
      var t := RemoveFirst(s[1..], id);
      if id in s then
        FirstIndexCons(s, id);
        [s[0]] + t
      else
        assert [s[0]] + s[1..] == s;
        [s[0]] + t
  }

  /** Past a head that is not `id`, the first occurrence moves one place on. */
  lemma FirstIndexCons(s: seq<ObjId>, id: ObjId)
    requires s != [] && s[0] != id && id in s
    ensures id in s[1..]
    ensures var k := FirstIndex(s[1..], id);
      FirstIndex(s, id) == k + 1 && s[..k + 1] + s[k + 2..] == [s[0]] + (s[1..][..k] + s[1..][k + 1..])
  {
    assert id in s[1..];
    var k := FirstIndex(s[1..], id);
    assert s[..k + 1] == [s[0]] + s[1..][..k];
    assert s[k + 2..] == s[1..][k + 1..];
  }

  /** Takes `id` off the list at `c`, deleting the key once its list is empty. */
  function RemoveAt(cells: map<Vec2Int, seq<ObjId>>, id: ObjId, c: Vec2Int): map<Vec2Int, seq<ObjId>>
  {
    if c !in cells then cells
    else
      var l := RemoveFirst(cells[c], id);
      if |l| == 0 then cells - {c} else cells[c := l]
  }

  /** Appends `id` to the list at `c` (creating it) unless it is already there. */
  function AddAt(cells: map<Vec2Int, seq<ObjId>>, id: ObjId, c: Vec2Int): map<Vec2Int, seq<ObjId>>
  {
    var l := if c in cells then cells[c] else [];
    if id in l then cells[c := l] else cells[c := l + [id]]
  }

  /** `RegisterObject`: the object is listed at the cell its transform rounds to. */
  function Register(g: GridState, id: ObjId): GridState
    requires Alive(g, id)
  {
    g.(cells := AddAt(g.cells, id, g.scene[id].cell))
  }

  /** `UnregisterObject`: the object is taken off the list at its transform's cell. */
  function Unregister(g: GridState, id: ObjId): GridState
    requires Alive(g, id)
  {
    g.(cells := RemoveAt(g.cells, id, g.scene[id].cell))
  }

  /** `MoveObject(obj, from, to)`: off `from`, onto `to`, transform placed on `to`.
      No legality check is made. */
  function Move(g: GridState, id: ObjId, from: Vec2Int, to: Vec2Int): GridState
    requires Alive(g, id)
  {
    GridState(AddAt(RemoveAt(g.cells, id, from), id, to), g.scene[id := g.scene[id].(cell := to)])
  }

  /** `Destroy(obj)`: the object compares equal to `null` from then on; its
      grid entries, if any, stay. */
  function DestroyObject(g: GridState, id: ObjId): GridState
    requires id in g.scene
  {
    g.(scene := g.scene[id := g.scene[id].(live := false)])
  }

  /** `ClearGrid`. */
  function Clear(g: GridState): GridState
  {
    g.(cells := map[])
  }

  // ----------------------------------------------------------------- queries

  /** The live entries of a list, in order (`GetObjectsAt`). */
  function LiveIn(l: seq<ObjId>, scene: map<ObjId, SceneObject>): (r: seq<ObjId>)
    ensures |r| <= |l|
    ensures forall id :: id in r <==> id in l && id in scene && scene[id].live
  {
    if l == [] then []
    else if l[0] in scene && scene[l[0]].live then [l[0]] + LiveIn(l[1..], scene)
    else LiveIn(l[1..], scene)
  }

  function ObjectsAt(g: GridState, c: Vec2Int): seq<ObjId>
  {
    LiveIn(Listed(g, c), g.scene)
  }

  /** The first entry of `l` that matches, scanning in list order. */
  function FirstIn(l: seq<ObjId>, scene: map<ObjId, SceneObject>, tags: set<Tag>): (r: Option<ObjId>)
    ensures r.Some? ==> r.value in l && Matches(scene, r.value, tags)
    ensures r.None? <==> forall i :: 0 <= i < |l| ==> !Matches(scene, l[i], tags)
  {
    if l == [] then None
    else if Matches(scene, l[0], tags) then Some(l[0])
    else FirstIn(l[1..], scene, tags)
  }

  /** One step of the first-match scan from index `i`. */
  lemma FirstInFrom(l: seq<ObjId>, i: nat, scene: map<ObjId, SceneObject>, tags: set<Tag>)
    requires i < |l|
    ensures FirstIn(l[i..], scene, tags) ==
      if Matches(scene, l[i], tags) then Some(l[i]) else FirstIn(l[i + 1..], scene, tags)
  {
    assert l[i..][1..] == l[i + 1..];
  }

  /** What the search returns is the first match: nothing before it matches. */
  lemma {:induction false} FirstInIsFirst(l: seq<ObjId>, scene: map<ObjId, SceneObject>, tags: set<Tag>)
    requires FirstIn(l, scene, tags).Some?
    ensures exists i :: 0 <= i < |l| && l[i] == FirstIn(l, scene, tags).value
                        && forall j :: 0 <= j < i ==> !Matches(scene, l[j], tags)
  {
    if !Matches(scene, l[0], tags) {
      FirstInIsFirst(l[1..], scene, tags);
      var r := FirstIn(l, scene, tags).value;
      var i :| 0 <= i < |l[1..]| && l[1..][i] == r && forall j :: 0 <= j < i ==> !Matches(scene, l[1..][j], tags);
      assert l[i + 1] == r;
      assert forall j :: 0 <= j < i + 1 ==> !Matches(scene, l[j], tags) by {
        forall j | 0 <= j < i + 1 ensures !Matches(scene, l[j], tags) {
          if j > 0 {
            assert l[j] == l[1..][j - 1];
          }
        }
      }
    } else {
      assert l[0] == FirstIn(l, scene, tags).value;
    }
  }

  /** Some live object at `c` carries one of `tags`. */
  predicate AnyTagged(g: GridState, c: Vec2Int, tags: set<Tag>)
  {
    exists id :: id in Listed(g, c) && Matches(g.scene, id, tags)
  }

  function FirstTagged(g: GridState, c: Vec2Int, tags: set<Tag>): Option<ObjId>
  {
    FirstIn(Listed(g, c), g.scene, tags)
  }

  /** `IsPositionBlocked`. */
  predicate IsBlocked(g: GridState, c: Vec2Int)
  {
    AnyTagged(g, c, BlockingTags)
  }

  /** `IsPositionPunished`. */
  predicate IsPunished(g: GridState, c: Vec2Int)
  {
    AnyTagged(g, c, PunishingTags)
  }

  /** `GetPushableAt`. */
  function PushableAt(g: GridState, c: Vec2Int): Option<ObjId>
  {
    FirstTagged(g, c, PushableTags)
  }

  /** `GetObjectWithTagAt`. */
  function ObjectWithTagAt(g: GridState, c: Vec2Int, tag: Tag): Option<ObjId>
  {
    FirstTagged(g, c, {tag})
  }

  // ------------------------------------------------------------------ lemmas

  /** The first-match search finds something exactly when some object matches. */
  lemma AnyTaggedIffFirst(g: GridState, c: Vec2Int, tags: set<Tag>)
    ensures AnyTagged(g, c, tags) <==> FirstTagged(g, c, tags).Some?
  {
    var l := Listed(g, c);
    if AnyTagged(g, c, tags) {
      var id :| id in l && Matches(g.scene, id, tags);
      var i :| 0 <= i < |l| && l[i] == id;
    }
  }

  /** Scanning only the live objects finds the same first match as scanning all. */
  lemma {:induction false} FirstInLive(l: seq<ObjId>, scene: map<ObjId, SceneObject>, tags: set<Tag>)
    ensures FirstIn(LiveIn(l, scene), scene, tags) == FirstIn(l, scene, tags)
  {
    if l != [] {
      FirstInLive(l[1..], scene, tags);
      if l[0] in scene && scene[l[0]].live {
        assert ([l[0]] + LiveIn(l[1..], scene))[1..] == LiveIn(l[1..], scene);
      }
    }
  }

  /** A destroyed object is skipped by every query, even while still listed. */
  lemma DestroyedIsSkipped(g: GridState, id: ObjId, c: Vec2Int, tags: set<Tag>)
    requires id in g.scene
    ensures var g' := DestroyObject(g, id);
      && id !in ObjectsAt(g', c) && FirstTagged(g', c, tags) != Some(id)
      && (AnyTagged(g', c, tags) ==> exists x :: x != id && x in Listed(g, c) && Matches(g.scene, x, tags))
  {
    var g' := DestroyObject(g, id);
    if AnyTagged(g', c, tags) {
      var x :| x in Listed(g', c) && Matches(g'.scene, x, tags);
      assert x != id && Matches(g.scene, x, tags);
    }
  }

  /** A cell with no key is neither blocked nor punished and yields nothing. */
  lemma AbsentCellIsEmpty(g: GridState, c: Vec2Int, tags: set<Tag>)
    requires c !in g.cells
    ensures !AnyTagged(g, c, tags) && FirstTagged(g, c, tags) == None && ObjectsAt(g, c) == []
  {
  }

  /** Only Block and Monster are ever pushable, so a pushable is never a LockBox. */
  lemma PushableIsBlockOrMonster(g: GridState, c: Vec2Int)
    ensures PushableAt(g, c).Some? ==> var t := g.scene[PushableAt(g, c).value].tag; t == Block || t == Monster
  {
  }

  /** A cell holding a live LockBox is blocked. */
  lemma LockBoxBlocks(g: GridState, c: Vec2Int, id: ObjId)
    requires id in Listed(g, c) && Alive(g, id) && g.scene[id].tag == LockBox
    ensures IsBlocked(g, c)
  {
    assert Matches(g.scene, id, BlockingTags);
  }

  /** On a duplicate-free list, `Remove` drops exactly `id` and keeps the list
      duplicate-free. */
  lemma {:induction false} RemoveFirstNoDup(s: seq<ObjId>, id: ObjId)
    requires NoDup(s)
    ensures NoDup(RemoveFirst(s, id)) && id !in RemoveFirst(s, id)
    ensures forall x :: x in s && x != id ==> x in RemoveFirst(s, id)
  {
    if s == [] {
    } else if s[0] == id {
      NoDupTail(s);
    } else {
      NoDupTail(s);
      RemoveFirstNoDup(s[1..], id);
      NoDupCons(s[0], RemoveFirst(s[1..], id));
      assert RemoveFirst(s, id) == [s[0]] + RemoveFirst(s[1..], id);
      assert forall x :: x in s ==> x == s[0] || x in s[1..];
    }
  }

  /** The tail of a duplicate-free list is duplicate-free and misses its head. */
  lemma NoDupTail(s: seq<ObjId>)
    requires NoDup(s) && s != []
    ensures NoDup(s[1..]) && s[0] !in s[1..]
  {
    forall i | 0 <= i < |s| - 1 ensures s[1..][i] != s[0] {
      assert s[1..][i] == s[i + 1];
    }
  }

  /** Putting a new head on a duplicate-free list keeps it duplicate-free. */
  lemma NoDupCons(x: ObjId, t: seq<ObjId>)
    requires NoDup(t) && x !in t
    ensures NoDup([x] + t)
  {
    var r := [x] + t;
    forall i, j | 0 <= i < j < |r| ensures r[i] != r[j] {
      assert r[j] == t[j - 1];
      if i > 0 {
        assert r[i] == t[i - 1];
      }
    }
  }

  lemma NoDupAppend(l: seq<ObjId>, id: ObjId)
    requires NoDup(l) && id !in l
    ensures NoDup(l + [id])
  {
  }

  /** Registering is idempotent. */
  lemma RegisterIdempotent(g: GridState, id: ObjId)
    requires Alive(g, id)
    ensures Register(Register(g, id), id) == Register(g, id)
  {
  }

  /** An object already listed at its cell leaves the grid unchanged; otherwise it
      is appended to that cell's list, created if needed, and nothing else moves. */
  lemma RegisterEffect(g: GridState, id: ObjId)
    requires Alive(g, id)
    ensures var c := g.scene[id].cell; var g' := Register(g, id);
      && g'.scene == g.scene
      && (id in Listed(g, c) && c in g.cells ==> g' == g)
      && (id !in Listed(g, c) ==> g'.cells[c] == Listed(g, c) + [id])
      && (forall d :: d != c ==> Listed(g', d) == Listed(g, d))
  {
    var c := g.scene[id].cell;
    if id in Listed(g, c) && c in g.cells {
      assert g.cells[c := g.cells[c]] == g.cells;
    }
  }

  /** Unregistering takes the object off its cell, keeps every other object
      listed there, deletes the key once the list empties, changes no other
      cell, and does nothing for an absent cell. */
  lemma UnregisterEffect(g: GridState, id: ObjId)
    requires Valid(g) && Alive(g, id)
    ensures var c := g.scene[id].cell; var g' := Unregister(g, id);
      && g'.scene == g.scene
      && (c !in g.cells ==> g' == g)
      && id !in Listed(g', c)
      && (forall x :: x != id ==> (x in Listed(g', c) <==> x in Listed(g, c)))
      && (c in g.cells && g.cells[c] == [id] <==> c in g.cells && c !in g'.cells)
      && (forall d :: d != c ==> Listed(g', d) == Listed(g, d))
  {
    var c := g.scene[id].cell;
    if c in g.cells {
      RemoveFirstNoDup(g.cells[c], id);
      var l := RemoveFirst(g.cells[c], id);
      if g.cells[c] == [id] {
        assert l == [];
      }
      if l == [] {
        assert g.cells[c] == [id] by {
          assert |g.cells[c]| <= 1;
          assert g.cells[c][0] == id;
        }
      }
    }
  }

  /** Unregistering undoes a registration that added the object. */
  lemma UnregisterUndoesRegister(g: GridState, id: ObjId)
    requires Valid(g) && Alive(g, id) && id !in Listed(g, g.scene[id].cell)
    ensures Unregister(Register(g, id), id) == g
  {
    var c := g.scene[id].cell;
    var l := Listed(g, c);
    assert RemoveFirst(l + [id], id) == l by {
      RemoveFirstAfter(l, id);
    }
    if c !in g.cells {
      assert g.cells[c := [id]] - {c} == g.cells;
    } else {
      assert g.cells[c := l] == g.cells;
    }
  }

  lemma {:induction false} RemoveFirstAfter(l: seq<ObjId>, id: ObjId)
    requires id !in l
    ensures RemoveFirst(l + [id], id) == l
  {
    if l != [] {
      assert (l + [id])[1..] == l[1..] + [id];
      RemoveFirstAfter(l[1..], id);
    }
  }

  lemma RegisterPreservesValid(g: GridState, id: ObjId)
    requires Valid(g) && Alive(g, id)
    ensures Valid(Register(g, id))
  {
    var c := g.scene[id].cell;
    if id !in Listed(g, c) {
      NoDupAppend(Listed(g, c), id);
    }
  }

  lemma RemoveAtValid(g: GridState, id: ObjId, c: Vec2Int)
    requires Valid(g)
    ensures Valid(g.(cells := RemoveAt(g.cells, id, c)))
    ensures id !in Listed(g.(cells := RemoveAt(g.cells, id, c)), c)
    ensures forall d :: d != c ==> Listed(g.(cells := RemoveAt(g.cells, id, c)), d) == Listed(g, d)
  {
    if c in g.cells {
      RemoveFirstNoDup(g.cells[c], id);
    }
  }

  lemma UnregisterPreservesValid(g: GridState, id: ObjId)
    requires Valid(g) && Alive(g, id)
    ensures Valid(Unregister(g, id))
  {
    RemoveAtValid(g, id, g.scene[id].cell);
  }

  /** After `MoveObject(obj, from, to)` the object is listed at `to` in a
      duplicate-free list (so exactly once),
      not at `from` when the two differ, its transform sits on `to`, and every
      other cell and object is as before. */
  lemma MoveEffect(g: GridState, id: ObjId, from: Vec2Int, to: Vec2Int)
    requires Valid(g) && Alive(g, id)
    ensures var g' := Move(g, id, from, to);
      && Valid(g')
      && to in g'.cells && id in g'.cells[to] && NoDup(g'.cells[to])
      && (from != to ==> id !in Listed(g', from))
      && (forall d :: d != from && d != to ==> Listed(g', d) == Listed(g, d))
      && g'.scene == g.scene[id := g.scene[id].(cell := to)]
  {
    var g1 := g.(cells := RemoveAt(g.cells, id, from));
    RemoveAtValid(g, id, from);
    var l := Listed(g1, to);
    var g' := Move(g, id, from, to);
    if id !in l {
      NoDupAppend(l, id);
    }
  }

  lemma ClearIsValid(g: GridState)
    ensures Valid(Clear(g)) && Clear(g).cells == map[] && Clear(g).scene == g.scene
  {
  }
}
