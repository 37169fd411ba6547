/** The level manager: reads a stage's map file (a header line, then one
    comma-separated row per map line), keeps the cells in a fixed-size
    two-dimensional buffer, spawns one scene object per tile code found in a
    cell and registers it with the grid manager, picks the goal character's
    prefab, and clears the map between stages. */
module Levels {
  import opened Common
  import opened Text
  import opened GridModel
  import opened Grid
  import Turns

  /** Identity of a prefab asset assigned in the inspector. */
  type Prefab = nat

  const DefaultGoalCharacter: string := "PandeMonica"
  /** The goal characters, in the order of the goal prefab array. */
  const CharacterNames: seq<string> :=
    ["PandeMonica", "Modeus", "Cerberus", "Malina", "Zdrada", "Azazel", "Justice", "Lucifer"]

  /** The number of tile codes `GenerateMap` looks for. */
  const CodeCount: nat := 10

  /** The tile codes `GenerateMap` looks for, in the order it looks:
      P, K, L, T, U, D, G, #, B, M. */
  function CodeChar(k: nat): char
    requires k < CodeCount
  {
    match k
    case 0 => 'P' case 1 => 'K' case 2 => 'L' case 3 => 'T' case 4 => 'U'
    case 5 => 'D' case 6 => 'G' case 7 => '#' case 8 => 'B' case _ => 'M'
  }

  /** The tag of the object code `k` spawns; the codes spawn distinct tags. */
  function CodeTag(k: nat): (tag: Tag)
    requires k < CodeCount
    ensures Rank(tag) == k
  {
    match k
    case 0 => PlayerTag case 1 => Key case 2 => LockBox case 3 => ThornNormal case 4 => ThornUp
    case 5 => ThornDown case 6 => Goal case 7 => Wall case 8 => Block case _ => Monster
  }

  /** Text with no white space at either end and at least one character. */
  predicate Clean(t: string)
  {
    t != [] && !IsWhiteSpace(t[0]) && !IsWhiteSpace(t[|t| - 1])
  }

  // ------------------------------------------------------------------ reading the file

  /** `validLines`: the non-blank lines, trimmed, in order. */
  function ValidLines(lines: seq<string>): (r: seq<string>)
    ensures |r| <= |lines|
    ensures forall i :: 0 <= i < |r| ==> Clean(r[i])
  {
    if lines == [] then []
    else
      var l := lines[|lines| - 1];
      if IsNullOrWhiteSpace(l) then ValidLines(lines[..|lines| - 1])
      else
        TrimEmptyIff(l);
        ValidLines(lines[..|lines| - 1]) + [Trim(l)]
  }

  /** The loader reads a file without throwing: a header and at least one
      map line, and at least three header fields. */
  predicate Loadable(vl: seq<string>)
  {
    |vl| >= 2 && |Split(vl[0], ',')| >= 3
  }

  function MapHeight(vl: seq<string>): int
    requires |vl| >= 2
  {
    |vl| - 1
  }

  /** The width is read from the first map row alone. */
  function MapWidth(vl: seq<string>): int
    requires |vl| >= 2
  {
    Count(vl[1], ',') + 1
  }

  /** The stored cell at row `y`, column `x`: the trimmed field, or none
      (a C# null) where the row has fewer fields. */
  function CellAt(vl: seq<string>, y: int, x: int): Option<string>
    requires 0 <= y < |vl| - 1 && 0 <= x
  {
    var cells := Split(vl[y + 1], ',');
    if x < |cells| then Some(Trim(cells[x])) else None
  }

  /** Every map row has at least as many fields as the first one, so every
      cell is stored. */
  predicate RowsFull(vl: seq<string>)
    requires |vl| >= 2
  {
    forall y :: 1 <= y < |vl| ==> Count(vl[y], ',') + 1 >= MapWidth(vl)
  }

  /** Header field 0 as a move budget (`int.TryParse` after `Trim`). */
  function MoveBudget(header: seq<string>): Option<int>
    requires |header| >= 1
  {
    ParseInt32(Trim(header[0]))
  }

  /** Header fields 1 and 2 as the base position, when both parse. */
  function Offset(header: seq<string>): Option<Vec2>
    requires |header| >= 3
  {
    var x := ParseDecimal(Trim(header[1]));
    var y := ParseDecimal(Trim(header[2]));
    if x.Some? && y.Some? then Some(Vec2(x.value, y.value)) else None
  }

  /** Header field 3, trimmed, when present and not blank; the default character otherwise. */
  function GoalCharacter(header: seq<string>): string
  {
    if |header| > 3 && !IsNullOrWhiteSpace(header[3]) then Trim(header[3]) else DefaultGoalCharacter
  }

  // ------------------------------------------------------------------ properties of the reader

  /** Clean lines are all kept, as they are. */
  lemma {:induction false} ValidLinesOfClean(lines: seq<string>)
    requires forall i :: 0 <= i < |lines| ==> Clean(lines[i])
    ensures ValidLines(lines) == lines
  {
    if lines != [] {
      var l := lines[|lines| - 1];
      assert !IsNullOrWhiteSpace(l) by {
        assert !IsWhiteSpace(l[0]);
      }
      TrimUnchanged(l);
      ValidLinesOfClean(lines[..|lines| - 1]);
    }
  }

  /** Reading the lines a second time changes nothing. */
  lemma ValidLinesIdempotent(lines: seq<string>)
    ensures ValidLines(ValidLines(lines)) == ValidLines(lines)
  {
    ValidLinesOfClean(ValidLines(lines));
  }

  /** A stored cell is trimmed and holds no comma; the first map row fills every column. */
  lemma StoredCells(vl: seq<string>, y: int, x: int)
    requires |vl| >= 2 && 0 <= y < |vl| - 1 && 0 <= x < MapWidth(vl)
    ensures CellAt(vl, y, x).Some? ==> var c := CellAt(vl, y, x).value;
      ',' !in c && (c == [] || Clean(c))
    ensures y == 0 ==> CellAt(vl, y, x).Some?
    ensures RowsFull(vl) ==> CellAt(vl, y, x).Some?
  {
    var cells := Split(vl[y + 1], ',');
    if x < |cells| {
      var c := cells[x];
      assert ',' !in c;
      var t := Trim(c);
      assert ',' !in t by {
        forall i | 0 <= i < |t| ensures t[i] != ',' {
          assert t[i] == c[TrimStart(c) + i];
        }
      }
    }
  }

  /** The move budget is the header's first number, and only a number there
      changes it. */
  lemma MoveBudgetOfNumber(n: nat, rest: string)
    requires n <= MaxInt32
    ensures MoveBudget(Split(NatToString(n) + [','] + rest, ',')) == Some(n)
  {
    var s := NatToString(n);
    assert ',' !in s by {
      forall i | 0 <= i < |s| ensures s[i] != ',' {
        assert IsDigit(s[i]);
      }
    }
    SplitAfterHead(s, rest, ',');
    TrimUnchanged(s);
    ParseNatToString(n);
  }

  /** The text of a map file: the header line, then each row's cells joined by commas. */
  function MapText(header: string, rows: seq<seq<string>>): string
    requires forall y :: 0 <= y < |rows| ==> |rows[y]| >= 1
  {
    Join([header] + RowLines(rows), '\n')
  }

  function RowLines(rows: seq<seq<string>>): (r: seq<string>)
    requires forall y :: 0 <= y < |rows| ==> |rows[y]| >= 1
    ensures |r| == |rows| && forall y :: 0 <= y < |rows| ==> r[y] == Join(rows[y], ',')
  {
    if rows == [] then [] else RowLines(rows[..|rows| - 1]) + [Join(rows[|rows| - 1], ',')]
  }

  /** A cell a map file can hold: clean, without commas or line breaks. */
  predicate MapCell(c: string)
  {
    Clean(c) && ',' !in c && '\n' !in c
  }

  /** A rectangular map of `w` columns whose cells and header a file can hold. */
  predicate WritableMap(header: string, rows: seq<seq<string>>, w: int)
  {
    && Clean(header) && '\n' !in header
    && |rows| >= 1 && w >= 1
    && (forall y :: 0 <= y < |rows| ==> |rows[y]| == w)
    && (forall y, x :: 0 <= y < |rows| && 0 <= x < |rows[y]| ==> MapCell(rows[y][x]))
  }

  /** A row of map cells joined by commas is one clean line that splits back into the row. */
  lemma RowLineReadsBack(row: seq<string>)
    requires |row| >= 1 && forall x :: 0 <= x < |row| ==> MapCell(row[x])
    ensures var l := Join(row, ','); Clean(l) && '\n' !in l && Split(l, ',') == row
  {
    SplitJoin(row, ',');
    JoinAvoids(row, ',', '\n');
    JoinEnds(row, ',');
  }

  /** Loading a written map reads back its height, its width and every cell. */
  lemma MapReadsBack(header: string, rows: seq<seq<string>>, w: int)
    requires WritableMap(header, rows, w)
    ensures var vl := ValidLines(Split(MapText(header, rows), '\n'));
      && |vl| >= 2 && vl[0] == header
      && MapHeight(vl) == |rows| && MapWidth(vl) == w && RowsFull(vl)
      && forall y, x :: 0 <= y < |rows| && 0 <= x < w ==> CellAt(vl, y, x) == Some(rows[y][x])
  {
    var rl := RowLines(rows);
    forall y | 0 <= y < |rows|
      ensures Clean(rl[y]) && '\n' !in rl[y] && Split(rl[y], ',') == rows[y]
    {
      RowLineReadsBack(rows[y]);
    }
    var lines := [header] + rl;
    forall i | 0 <= i < |lines|
      ensures Clean(lines[i]) && '\n' !in lines[i]
    {
      if i > 0 {
        assert lines[i] == rl[i - 1];
      }
    }
    MapLinesReadBack(lines);
    var vl := ValidLines(Split(MapText(header, rows), '\n'));
    assert vl == lines;
    RowsReadBack(vl, rows, w);
  }

  /** The lines of a map file, none of them blank, are read back as they were written. */
  lemma MapLinesReadBack(lines: seq<string>)
    requires |lines| >= 1
    requires forall i :: 0 <= i < |lines| ==> Clean(lines[i]) && '\n' !in lines[i]
    ensures ValidLines(Split(Join(lines, '\n'), '\n')) == lines
  {
    SplitJoin(lines, '\n');
    ValidLinesOfClean(lines);
  }

  /** Lines below the header that split into the rows of a rectangular map
      give back its size and its cells. */
  lemma RowsReadBack(vl: seq<string>, rows: seq<seq<string>>, w: int)
    requires |rows| >= 1 && w >= 1 && |vl| == |rows| + 1
    requires forall y :: 0 <= y < |rows| ==> |rows[y]| == w && Split(vl[y + 1], ',') == rows[y]
    requires forall y, x :: 0 <= y < |rows| && 0 <= x < |rows[y]| ==> MapCell(rows[y][x])
    ensures MapHeight(vl) == |rows| && MapWidth(vl) == w && RowsFull(vl)
    ensures forall y, x :: 0 <= y < |rows| && 0 <= x < w ==> CellAt(vl, y, x) == Some(rows[y][x])
  {
    assert |Split(vl[1], ',')| == |rows[0]|;
    forall y, x | 0 <= y < |rows| && 0 <= x < w
      ensures CellAt(vl, y, x) == Some(rows[y][x])
    {
      TrimUnchanged(rows[y][x]);
    }
    forall y | 1 <= y < |vl|
      ensures Count(vl[y], ',') + 1 >= MapWidth(vl)
    {
      assert |Split(vl[y], ',')| == |rows[y - 1]|;
    }
  }

  // ------------------------------------------------------------------ spawning

  /** The spawn position of column `x`, row `y`: centred on the base
      position by integer halves of the map size, rows running downwards. */
  function SpawnPosition(base: Vec2, tileSize: real, width: int, height: int, x: int, y: int): Vec2
    requires width >= 1 && height >= 1
  {
    Vec2(base.x + ((x - width / 2) as real) * tileSize, base.y - ((y - height / 2) as real) * tileSize)
  }

  /** The grid cell an object spawned at column `x`, row `y` registers at. */
  function SpawnCell(base: Vec2, tileSize: real, width: int, height: int, x: int, y: int): Vec2Int
    requires width >= 1 && height >= 1
  {
    WorldToGrid(SpawnPosition(base, tileSize, width, height, x, y), base)
  }

  /** With unit tiles, column `x`, row `y` registers at `(x - w/2, h/2 - y)`
      whatever the base position, so distinct cells of the map land on
      distinct grid cells. */
  lemma UnitTileCell(base: Vec2, width: int, height: int, x: int, y: int)
    requires width >= 1 && height >= 1
    ensures SpawnCell(base, 1.0, width, height, x, y) == Vec2Int(x - width / 2, height / 2 - y)
  {
    var p := SpawnPosition(base, 1.0, width, height, x, y);
    assert p.x - base.x == (x - width / 2) as real;
    assert p.y - base.y == (height / 2 - y) as real;
    RoundIntegral(x - width / 2);
    RoundIntegral(height / 2 - y);
  }

  lemma UnitTileCellsDistinct(base: Vec2, width: int, height: int, x1: int, y1: int, x2: int, y2: int)
    requires width >= 1 && height >= 1 && (x1, y1) != (x2, y2)
    ensures SpawnCell(base, 1.0, width, height, x1, y1) != SpawnCell(base, 1.0, width, height, x2, y2)
  {
    UnitTileCell(base, width, height, x1, y1);
    UnitTileCell(base, width, height, x2, y2);
  }

  /** With a positive tile size later columns sit further right and later rows lower. */
  lemma SpawnLayout(base: Vec2, tileSize: real, width: int, height: int, x1: int, y1: int, x2: int, y2: int)
    requires width >= 1 && height >= 1 && tileSize > 0.0
    ensures x1 < x2 ==> SpawnPosition(base, tileSize, width, height, x1, y1).x < SpawnPosition(base, tileSize, width, height, x2, y2).x
    ensures y1 < y2 ==> SpawnPosition(base, tileSize, width, height, x1, y1).y > SpawnPosition(base, tileSize, width, height, x2, y2).y
  {
    if x1 < x2 {
      ScaleMonotone((x1 - width / 2) as real, (x2 - width / 2) as real, tileSize);
    }
    if y1 < y2 {
      ScaleMonotone((y1 - height / 2) as real, (y2 - height / 2) as real, tileSize);
    }
  }

  lemma ScaleMonotone(a: real, b: real, t: real)
    requires a < b && t > 0.0
    ensures a * t < b * t
  {
    assert b * t - a * t == (b - a) * t;
  }

  /** One object to spawn: its tag and the grid cell it registers at. */
  datatype Spawn = Spawn(tag: Tag, cell: Vec2Int)

  /** What code `k` of the table spawns in a cell with text `t`, if anything. */
  function CodeSlot(t: string, cell: Vec2Int, k: nat): Option<Spawn>
    requires k < CodeCount
  {
    if CodeChar(k) in t then Some(Spawn(CodeTag(k), cell)) else None
  }

  /** The ten checks of a cell, one slot per code, in table order. */
  function Slots(t: string, cell: Vec2Int): (r: seq<Option<Spawn>>)
    ensures |r| == CodeCount && forall k :: 0 <= k < CodeCount ==> r[k] == CodeSlot(t, cell, k)
  {
    seq(CodeCount, k requires 0 <= k < CodeCount => CodeSlot(t, cell, k))
  }

  /** The spawn of a slot, as a list of zero or one. */
  function SlotSpawn(o: Option<Spawn>): seq<Spawn>
  {
    if o.Some? then [o.value] else []
  }

  /** The spawns of the filled slots, in slot order. */
  function Spawned(slots: seq<Option<Spawn>>): seq<Spawn>
  {
    if slots == [] then [] else Spawned(slots[..|slots| - 1]) + SlotSpawn(slots[|slots| - 1])
  }

  /** The objects a cell's text spawns. */
  function TileSpawns(t: string, cell: Vec2Int): seq<Spawn>
  {
    Spawned(Slots(t, cell))
  }

  /** The spawns of the first `k + 1` slots are those of the first `k` and then slot `k`'s. */
  lemma SpawnedStep(slots: seq<Option<Spawn>>, k: nat)
    requires k < |slots|
    ensures Spawned(slots[..k + 1]) == Spawned(slots[..k]) + SlotSpawn(slots[k])
  {
    assert slots[..k + 1][..k] == slots[..k];
  }

  /** No code checked spawns nothing; all of them checked spawn the cell's objects. */
  lemma SpawnedPrefixes(t: string, cell: Vec2Int, done: seq<Spawn>)
    ensures done + Spawned(Slots(t, cell)[..0]) == done
    ensures done + Spawned(Slots(t, cell)[..CodeCount]) == done + TileSpawns(t, cell)
  {
    assert Slots(t, cell)[..0] == [];
    assert Slots(t, cell)[..CodeCount] == Slots(t, cell);
  }

  /** After code `k`'s check, the spawns so far are those of the first `k + 1` codes. */
  lemma SlotStep(t: string, cell: Vec2Int, k: nat, start: seq<Spawn>, done: seq<Spawn>)
    requires k < CodeCount && done == start + Spawned(Slots(t, cell)[..k])
    ensures done + SlotSpawn(CodeSlot(t, cell, k)) == start + Spawned(Slots(t, cell)[..k + 1])
  {
    SpawnedStep(Slots(t, cell), k);
    AppendAssoc(start, Spawned(Slots(t, cell)[..k]), SlotSpawn(CodeSlot(t, cell, k)));
  }

  /** The position of a tag in the table (past its end for tags no code spawns). */
  function Rank(tag: Tag): nat
  {
    match tag
    case PlayerTag => 0 case Key => 1 case LockBox => 2 case ThornNormal => 3 case ThornUp => 4
    case ThornDown => 5 case Goal => 6 case Wall => 7 case Block => 8 case Monster => 9
    case _ => 10
  }

  /** The first `k` codes spawn at most one object each, at the cell, of a tag
      of rank below `k`. */
  lemma {:induction false} SpawnedBounded(t: string, cell: Vec2Int, k: nat)
    requires k <= CodeCount
    ensures var r := Spawned(Slots(t, cell)[..k]);
      && |r| <= k
      && (forall i :: 0 <= i < |r| ==> r[i].cell == cell && Rank(r[i].tag) < k)
  {
    if k > 0 {
      SpawnedBounded(t, cell, k - 1);
      SpawnedStep(Slots(t, cell), k - 1);
    }
  }

  /** Spawns in strictly increasing rank of tag. */
  predicate SortedByRank(r: seq<Spawn>)
  {
    forall i, j :: 0 <= i < j < |r| ==> Rank(r[i].tag) < Rank(r[j].tag)
  }

  lemma SortedSnoc(r: seq<Spawn>, x: Spawn)
    requires SortedByRank(r) && forall i :: 0 <= i < |r| ==> Rank(r[i].tag) < Rank(x.tag)
    ensures SortedByRank(r + [x])
  {
    var r' := r + [x];
    forall i, j | 0 <= i < j < |r'| ensures Rank(r'[i].tag) < Rank(r'[j].tag) {
      assert r'[i] == r[i];
      if j < |r| {
        assert r'[j] == r[j];
      }
    }
  }

  /** The spawns of the first `k` codes come in strictly increasing rank. */
  lemma {:induction false} SpawnedSorted(t: string, cell: Vec2Int, k: nat)
    requires k <= CodeCount
    ensures SortedByRank(Spawned(Slots(t, cell)[..k]))
  {
    if k > 0 {
      SpawnedSorted(t, cell, k - 1);
      SpawnedBounded(t, cell, k - 1);
      SpawnedStep(Slots(t, cell), k - 1);
      if CodeChar(k - 1) in t {
        SortedSnoc(Spawned(Slots(t, cell)[..k - 1]), Spawn(CodeTag(k - 1), cell));
      }
    }
  }

  /** Among the first `k` codes, code `m` spawns its tag exactly when its letter is in the text. */
  lemma {:induction false} SpawnedMembers(t: string, cell: Vec2Int, k: nat)
    requires k <= CodeCount
    ensures var r := Spawned(Slots(t, cell)[..k]);
      forall m :: 0 <= m < k ==> (Spawn(CodeTag(m), cell) in r <==> CodeChar(m) in t)
  {
    if k > 0 {
      SpawnedMembers(t, cell, k - 1);
      SpawnedBounded(t, cell, k - 1);
      SpawnedStep(Slots(t, cell), k - 1);
      var r := Spawned(Slots(t, cell)[..k - 1]);
      var last := SlotSpawn(CodeSlot(t, cell, k - 1));
      assert Spawn(CodeTag(k - 1), cell) !in r;
      forall m | 0 <= m < k
        ensures Spawn(CodeTag(m), cell) in r + last <==> CodeChar(m) in t
      {
        if m < k - 1 {
          assert Spawn(CodeTag(m), cell) !in last;
        }
      }
    }
  }

  /** A cell spawns one object per distinct code letter it contains, each at
      the cell, in the order P, K, L, T, U, D, G, #, B, M; `U` and `D` give
      toggle spikes tagged up and down. */
  lemma TileSpawnsInOrder(t: string, cell: Vec2Int)
    ensures var r := TileSpawns(t, cell);
      && |r| <= CodeCount
      && (forall i :: 0 <= i < |r| ==> r[i].cell == cell)
      && SortedByRank(r)
      && (forall m :: 0 <= m < CodeCount ==> (Spawn(CodeTag(m), cell) in r <==> CodeChar(m) in t))
  {
    var slots := Slots(t, cell);
    assert slots[..CodeCount] == slots;
    SpawnedBounded(t, cell, CodeCount);
    SpawnedSorted(t, cell, CodeCount);
    SpawnedMembers(t, cell, CodeCount);
  }

  /** What the cell at column `x`, row `y` spawns (nothing for an unstored cell). */
  function CellSpawns(tiles: seq<seq<Option<string>>>, base: Vec2, tileSize: real, width: int, height: int, y: int, x: int): seq<Spawn>
    requires width >= 1 && height >= 1 && 0 <= y < |tiles| && 0 <= x < |tiles[y]|
  {
    match tiles[y][x]
    case Some(t) => TileSpawns(t, SpawnCell(base, tileSize, width, height, x, y))
    case None => []
  }

  /** The spawns of every cell, by row and then by column. */
  function Plan(tiles: seq<seq<Option<string>>>, base: Vec2, tileSize: real, width: int, height: int): (p: seq<seq<seq<Spawn>>>)
    requires width >= 1 && height >= 1
    ensures |p| == |tiles|
    ensures forall y :: 0 <= y < |p| ==> |p[y]| == |tiles[y]|
    ensures forall y, x :: 0 <= y < |p| && 0 <= x < |p[y]| ==> p[y][x] == CellSpawns(tiles, base, tileSize, width, height, y, x)
  {
    seq(|tiles|, y requires 0 <= y < |tiles| =>
      seq(|tiles[y]|, x requires 0 <= x < |tiles[y]| => CellSpawns(tiles, base, tileSize, width, height, y, x)))
  }

  /** The parts one after another. */
  function Concat(parts: seq<seq<Spawn>>): seq<Spawn>
  {
    if parts == [] then [] else Concat(parts[..|parts| - 1]) + parts[|parts| - 1]
  }

  /** The rows' parts one after another, row by row. */
  function ConcatRows(rows: seq<seq<seq<Spawn>>>): seq<Spawn>
  {
    if rows == [] then [] else ConcatRows(rows[..|rows| - 1]) + Concat(rows[|rows| - 1])
  }

  lemma ConcatStep(parts: seq<seq<Spawn>>, k: nat)
    requires k < |parts|
    ensures Concat(parts[..k + 1]) == Concat(parts[..k]) + parts[k]
  {
    assert parts[..k + 1][..k] == parts[..k];
  }

  lemma ConcatRowsStep(rows: seq<seq<seq<Spawn>>>, k: nat)
    requires k < |rows|
    ensures ConcatRows(rows[..k + 1]) == ConcatRows(rows[..k]) + Concat(rows[k])
  {
    assert rows[..k + 1][..k] == rows[..k];
  }

  lemma AppendAssoc(a: seq<Spawn>, b: seq<Spawn>, c: seq<Spawn>)
    ensures (a + b) + c == a + (b + c)
  {
  }

  /** The objects `GenerateMap` spawns: every cell's, row by row, column by column. */
  function MapSpawns(tiles: seq<seq<Option<string>>>, base: Vec2, tileSize: real, width: int, height: int): seq<Spawn>
    requires width >= 1 && height >= 1
  {
    ConcatRows(Plan(tiles, base, tileSize, width, height))
  }

  /** `Instantiate` then `RegisterObject` for one spawn, with identity `id`. */
  function Place(g: GridState, id: ObjId, s: Spawn): GridState
  {
    Register(g.(scene := g.scene[id := SceneObject(s.tag, s.cell, true, Parented(s.tag))]), id)
  }

  /** The spawns placed one after another with identities `n`, `n + 1`, .... */
  function PlaceAll(g: GridState, n: nat, s: seq<Spawn>): GridState
  {
    if s == [] then g else Place(PlaceAll(g, n, s[..|s| - 1]), n + |s| - 1, s[|s| - 1])
  }

  lemma {:induction false} PlaceAllAppend(g: GridState, n: nat, s: seq<Spawn>, t: seq<Spawn>)
    ensures PlaceAll(g, n, s + t) == PlaceAll(PlaceAll(g, n, s), n + |s|, t)
    decreases |t|
  {
    if t == [] {
      assert s + t == s;
    } else {
      assert (s + t)[..|s + t| - 1] == s + t[..|t| - 1];
      PlaceAllAppend(g, n, s, t[..|t| - 1]);
    }
  }

  lemma PlaceAllSnoc(g: GridState, n: nat, s: seq<Spawn>, x: Spawn)
    ensures PlaceAll(g, n, s + [x]) == Place(PlaceAll(g, n, s), n + |s|, x)
  {
    assert (s + [x])[..|s|] == s;
  }

  /** One placement: the new object is live, listed at its cell, and the
      only entry added anywhere. */
  lemma PlaceEffect(g: GridState, id: ObjId, s: Spawn)
    requires Valid(g) && id !in g.scene
    ensures var g' := Place(g, id, s);
      && Valid(g')
      && g'.scene == g.scene[id := SceneObject(s.tag, s.cell, true, Parented(s.tag))]
      && id in Listed(g', s.cell)
      && (forall c, x :: x in Listed(g, c) ==> x in Listed(g', c))
      && (forall c, x :: x in Listed(g', c) ==> x in Listed(g, c) || x == id)
  {
    var g2 := g.(scene := g.scene[id := SceneObject(s.tag, s.cell, true, Parented(s.tag))]);
    assert Valid(g2);
    RegisterPreservesValid(g2, id);
    RegisterEffect(g2, id);
  }

  /** One placement adds the new object to the scene and keeps the grid valid. */
  lemma PlaceScene(g: GridState, id: ObjId, s: Spawn)
    requires Valid(g) && id !in g.scene
    ensures Valid(Place(g, id, s))
    ensures Place(g, id, s).scene == g.scene[id := SceneObject(s.tag, s.cell, true, Parented(s.tag))]
  {
    PlaceEffect(g, id, s);
  }

  /** Placing spawns with identities past every existing one adds exactly
      those identities to the scene and leaves every earlier object as it was. */
  lemma {:induction false} PlaceAllScene(g: GridState, n: nat, s: seq<Spawn>)
    requires Valid(g) && forall id :: id in g.scene ==> id < n
    ensures var g' := PlaceAll(g, n, s);
      && (forall id :: id in g'.scene <==> id in g.scene || n <= id < n + |s|)
      && (forall id :: id in g.scene ==> g'.scene[id] == g.scene[id])
      && (forall i :: 0 <= i < |s| ==> g'.scene[n + i] == SceneObject(s[i].tag, s[i].cell, true, Parented(s[i].tag)))
    decreases |s|
  {
    if s != [] {
      var p, last := s[..|s| - 1], s[|s| - 1];
      var gp := PlaceAll(g, n, p);
      assert PlaceAll(g, n, s) == Place(gp, n + |p|, last);
      PlaceAllScene(g, n, p);
      PlaceAllFresh(g, n, p);
      PlaceScene(gp, n + |p|, last);
      forall i | 0 <= i < |p| ensures s[i] == p[i] {
      }
    }
  }

  /** Placing spawns keeps every earlier entry and adds only the new identities. */
  lemma {:induction false} PlaceAllFrame(g: GridState, n: nat, s: seq<Spawn>)
    requires Valid(g) && forall id :: id in g.scene ==> id < n
    ensures var g' := PlaceAll(g, n, s);
      && (forall c, x :: x in Listed(g, c) ==> x in Listed(g', c))
      && (forall c, x :: x in Listed(g', c) ==> x in Listed(g, c) || n <= x < n + |s|)
    decreases |s|
  {
    if s != [] {
      var p := s[..|s| - 1];
      PlaceAllFrame(g, n, p);
      PlaceAllFresh(g, n, p);
      PlaceEffect(PlaceAll(g, n, p), n + |p|, s[|s| - 1]);
    }
  }

  /** Placing spawns keeps the grid valid and every identity below `n + |s|`. */
  lemma {:induction false} PlaceAllFresh(g: GridState, n: nat, s: seq<Spawn>)
    requires Valid(g) && forall id :: id in g.scene ==> id < n
    ensures Valid(PlaceAll(g, n, s)) && forall id :: id in PlaceAll(g, n, s).scene ==> id < n + |s|
    decreases |s|
  {
    if s != [] {
      var p := s[..|s| - 1];
      PlaceAllFresh(g, n, p);
      PlaceScene(PlaceAll(g, n, p), n + |p|, s[|s| - 1]);
    }
  }

  /** ... and spawn `i` is listed at its cell under identity `n + i`. */
  lemma {:induction false} PlaceAllListed(g: GridState, n: nat, s: seq<Spawn>)
    requires Valid(g) && forall id :: id in g.scene ==> id < n
    ensures var g' := PlaceAll(g, n, s);
      forall i :: 0 <= i < |s| ==> n + i in Listed(g', s[i].cell)
    decreases |s|
  {
    if s != [] {
      var p, last := s[..|s| - 1], s[|s| - 1];
      assert PlaceAll(g, n, s) == Place(PlaceAll(g, n, p), n + |p|, last);
      assert p + [last] == s;
      PlaceAllListed(g, n, p);
      PlaceAllFresh(g, n, p);
      ListedSnoc(PlaceAll(g, n, p), n, p, last);
    }
  }

  /** Placing one more spawn keeps the earlier spawns listed and lists the new one. */
  lemma ListedSnoc(gp: GridState, n: nat, p: seq<Spawn>, last: Spawn)
    requires Valid(gp) && n + |p| !in gp.scene
    requires forall i :: 0 <= i < |p| ==> n + i in Listed(gp, p[i].cell)
    ensures forall i :: 0 <= i < |p| + 1 ==> n + i in Listed(Place(gp, n + |p|, last), (p + [last])[i].cell)
  {
    var g' := Place(gp, n + |p|, last);
    PlaceListed(gp, n + |p|, last);
    forall i | 0 <= i < |p| + 1 ensures n + i in Listed(g', (p + [last])[i].cell) {
      if i < |p| {
        PlaceKeeps(gp, n + |p|, last, p[i].cell, n + i);
      }
    }
  }

  /** One placement lists the new object at its cell. */
  lemma PlaceListed(g: GridState, id: ObjId, s: Spawn)
    requires Valid(g) && id !in g.scene
    ensures id in Listed(Place(g, id, s), s.cell)
  {
    PlaceEffect(g, id, s);
  }

  /** One placement keeps an entry that was listed. */
  lemma PlaceKeeps(g: GridState, id: ObjId, s: Spawn, c: Vec2Int, x: ObjId)
    requires Valid(g) && id !in g.scene && x in Listed(g, c)
    ensures x in Listed(Place(g, id, s), c)
  {
    PlaceEffect(g, id, s);
  }

  /** The tags `ClearCurrentMap` destroys by tag; `GenerateMap` spawns these
      objects without a parent. */
  const SingleTags: set<Tag> := {PlayerTag, Key, LockBox}

  /** Whether `GenerateMap` spawns an object with `tag` under one of the six
      parents `Start` creates. */
  predicate Parented(tag: Tag)
  {
    tag !in SingleTags
  }

  /** Whether `ClearCurrentMap` destroys the object: a child of one of the
      parents, or tagged Player, Key or LockBox. */
  predicate Cleared(o: SceneObject)
  {
    o.parented || o.tag in SingleTags
  }

  /** `ClearCurrentMap`: the parents' children and the Player, Key and LockBox
      objects are destroyed, and the grid emptied. */
  function ClearSpec(g: GridState): GridState
  {
    GridState(map[], map id | id in g.scene :: if Cleared(g.scene[id]) then g.scene[id].(live := false) else g.scene[id])
  }

  /** After a clear and a fresh generation only the new objects are on the
      grid; every object the clear reaches is dead, and every other object,
      such as one built into the scene without a parent, is as it was. */
  lemma ReloadLeavesOnlyNewObjects(g: GridState, n: nat, s: seq<Spawn>)
    requires forall id :: id in g.scene ==> id < n
    ensures var g' := PlaceAll(ClearSpec(g), n, s);
      && (forall c, x :: x in Listed(g', c) ==> n <= x < n + |s|)
      && (forall id :: id in g.scene && Cleared(g.scene[id]) ==> id in g'.scene && !g'.scene[id].live)
      && (forall id :: id in g.scene && !Cleared(g.scene[id]) ==> id in g'.scene && g'.scene[id] == g.scene[id])
  {
    var g0 := ClearSpec(g);
    assert Valid(g0);
    PlaceAllScene(g0, n, s);
    PlaceAllFrame(g0, n, s);
  }

  /** Every object a generation spawns is reached by the next clear: the ones
      with a parent through it, the others through their tag. */
  lemma SpawnedObjectsAreCleared(g: GridState, n: nat, s: seq<Spawn>)
    requires Valid(g) && forall id :: id in g.scene ==> id < n
    ensures var g' := ClearSpec(PlaceAll(g, n, s));
      forall id :: n <= id < n + |s| ==> id in g'.scene && !g'.scene[id].live
  {
    PlaceAllScene(g, n, s);
    var gp := PlaceAll(g, n, s);
    forall id | n <= id < n + |s| ensures Cleared(gp.scene[id]) {
      assert gp.scene[n + (id - n)] == SceneObject(s[id - n].tag, s[id - n].cell, true, Parented(s[id - n].tag));
    }
  }

  // ------------------------------------------------------------------ goal prefabs

  /** `goalPrefabMap` after the first `i` steps of `InitializeGoalPrefabs`. */
  function GoalMapBelow(prefabs: seq<Prefab>, i: nat): map<string, Prefab>
    requires i <= |prefabs| && i <= |CharacterNames|
  {
    if i == 0 then map[] else GoalMapBelow(prefabs, i - 1)[CharacterNames[i - 1] := prefabs[i - 1]]
  }

  function Min(a: int, b: int): int
  {
    if a < b then a else b
  }

  function GoalPrefabMap(prefabs: seq<Prefab>): map<string, Prefab>
  {
    GoalMapBelow(prefabs, Min(|prefabs|, |CharacterNames|))
  }

  /** `GetGoalPrefab`: the character's prefab, else the first one; none (an
      exception) when the array is empty. */
  function GoalPrefabFor(m: map<string, Prefab>, prefabs: seq<Prefab>, name: string): Option<Prefab>
  {
    if name in m then Some(m[name]) else if |prefabs| > 0 then Some(prefabs[0]) else None
  }

  /** No character name is listed twice. */
  lemma CharacterNamesDistinct()
    ensures forall j, k :: 0 <= j < k < |CharacterNames| ==> CharacterNames[j] != CharacterNames[k]
  {
    forall j, k | 0 <= j < k < |CharacterNames|
      ensures CharacterNames[j] != CharacterNames[k]
    {
      var a, b := CharacterNames[j], CharacterNames[k];
      assert a[0] != b[0] || a[1] != b[1];
    }
  }

  lemma {:induction false} GoalMapBelowContents(prefabs: seq<Prefab>, i: nat)
    requires i <= |prefabs| && i <= |CharacterNames|
    ensures forall name :: name in GoalMapBelow(prefabs, i) <==> name in CharacterNames[..i]
    ensures forall j :: 0 <= j < i ==> GoalMapBelow(prefabs, i)[CharacterNames[j]] == prefabs[j]
  {
    if i > 0 {
      GoalMapBelowContents(prefabs, i - 1);
      assert CharacterNames[..i] == CharacterNames[..i - 1] + [CharacterNames[i - 1]];
      CharacterNamesDistinct();
    }
  }

  /** The first `min(#prefabs, #names)` characters get their own prefab; any
      other name falls back to the first prefab. */
  lemma GoalPrefabLookup(prefabs: seq<Prefab>, name: string)
    ensures var n := Min(|prefabs|, |CharacterNames|);
      var r := GoalPrefabFor(GoalPrefabMap(prefabs), prefabs, name);
      && (forall j :: 0 <= j < n && CharacterNames[j] == name ==> r == Some(prefabs[j]))
      && (name !in CharacterNames[..n] ==> r == if |prefabs| > 0 then Some(prefabs[0]) else None)
  {
    GoalMapBelowContents(prefabs, Min(|prefabs|, |CharacterNames|));
  }

  // ------------------------------------------------------------------ the manager

  /** The `validLines` loop of `LoadMapFromCSV`. */
  method ReadValidLines(lines: seq<string>) returns (validLines: seq<string>)
    ensures validLines == ValidLines(lines)
  {
    validLines := [];
    for i := 0 to |lines|
      invariant validLines == ValidLines(lines[..i])
    {
      assert lines[..i + 1][..i] == lines[..i];
      if !IsNullOrWhiteSpace(lines[i]) {
        validLines := validLines + [Trim(lines[i])];
      }
    }
    assert lines[..|lines|] == lines;
  }

  /** The `mapData` loops of `LoadMapFromCSV`: a fresh buffer of the map's
      size, each row's fields trimmed into it up to the width. */
  method ReadCells(validLines: seq<string>) returns (data: array2<Option<string>>)
    requires |validLines| >= 2
    ensures fresh(data) && data.Length0 == MapHeight(validLines) && data.Length1 == MapWidth(validLines)
    ensures forall y, x :: 0 <= y < data.Length0 && 0 <= x < data.Length1 ==> data[y, x] == CellAt(validLines, y, x)
  {
    var mapHeight := |validLines| - 1;
    var mapWidth := Count(validLines[1], ',') + 1;
    data := new Option<string>[mapHeight, mapWidth]((_, _) => None);
    for y := 0 to mapHeight
      invariant forall y', x' :: 0 <= y' < y && 0 <= x' < mapWidth ==> data[y', x'] == CellAt(validLines, y', x')
      invariant forall y', x' :: y <= y' < mapHeight && 0 <= x' < mapWidth ==> data[y', x'] == None
    {
      ReadRow(data, validLines, y);
    }
  }

  /** One pass of the outer `mapData` loop: row `y` gets the trimmed fields
      of line `y + 1`, up to the width; the other rows stay as they were. */
  method ReadRow(data: array2<Option<string>>, validLines: seq<string>, y: int)
    requires |validLines| >= 2 && 0 <= y < data.Length0 == MapHeight(validLines)
    requires data.Length1 == MapWidth(validLines)
    requires forall x :: 0 <= x < data.Length1 ==> data[y, x] == None
    modifies data
    ensures forall x :: 0 <= x < data.Length1 ==> data[y, x] == CellAt(validLines, y, x)
    ensures forall y', x' :: 0 <= y' < data.Length0 && y' != y && 0 <= x' < data.Length1 ==>
      data[y', x'] == old(data[y', x'])
  {
    var cells := Split(validLines[y + 1], ',');
    var x := 0;
    while x < |cells| && x < data.Length1
      invariant 0 <= x <= data.Length1
      invariant forall x' :: 0 <= x' < x ==> data[y, x'] == CellAt(validLines, y, x')
      invariant forall x' :: x <= x' < data.Length1 ==> data[y, x'] == None
      invariant forall y', x' :: 0 <= y' < data.Length0 && y' != y && 0 <= x' < data.Length1 ==>
        data[y', x'] == old(data[y', x'])
    {
      data[y, x] := Some(Trim(cells[x]));
      x := x + 1;
    }
  }

  class LevelManager
  {
    const grid: GridManager
    const game: Turns.GameManager
    /** `GoalPrefabs`, as assigned in the inspector. */
    const goalPrefabs: seq<Prefab>
    var basePosition: Vec2
    var tileSize: real
    var goalPrefabMap: map<string, Prefab>
    var currentGoalCharacter: string
    var mapData: array2?<Option<string>>
    var mapWidth: int
    var mapHeight: int
    /** `MapFileName`: the resource path of the stage being loaded ("" before the first load). */
    var mapFileName: string

    /** The buffer matches the recorded size; without a buffer the size is zero. */
    predicate Valid()
      reads this`mapData, this`mapWidth, this`mapHeight
    {
      && (mapData == null ==> mapWidth == 0 && mapHeight == 0)
      && (mapData != null ==> mapData.Length0 == mapHeight && mapData.Length1 == mapWidth && mapWidth >= 1 && mapHeight >= 1)
    }

    /** The cells of the buffer, row by row. */
    function Tiles(): (r: seq<seq<Option<string>>>)
      reads this`mapData, mapData
      requires mapData != null
      ensures |r| == mapData.Length0 && forall y :: 0 <= y < |r| ==> |r[y]| == mapData.Length1
    {
      var a := mapData;
      seq(a.Length0, y requires 0 <= y < a.Length0 reads a =>
        seq(a.Length1, x requires 0 <= x < a.Length1 reads a => a[y, x]))
    }

    /** Every cell of the buffer is stored, so `GenerateMap` reads no null cell. */
    predicate Filled()
      reads this`mapData, mapData
    {
      mapData != null ==> forall y, x :: 0 <= y < mapData.Length0 && 0 <= x < mapData.Length1 ==> mapData[y, x].Some?
    }

    /** `Awake`: the goal prefab map is built. */
    constructor (grid: GridManager, game: Turns.GameManager, goalPrefabs: seq<Prefab>, basePosition: Vec2, tileSize: real)
      ensures this.grid == grid && this.game == game && this.goalPrefabs == goalPrefabs
      ensures this.basePosition == basePosition && this.tileSize == tileSize
      ensures goalPrefabMap == GoalPrefabMap(goalPrefabs) && currentGoalCharacter == DefaultGoalCharacter
      ensures mapData == null && Valid()
    {
      this.grid := grid;
      this.game := game;
      this.goalPrefabs := goalPrefabs;
      this.basePosition := basePosition;
      this.tileSize := tileSize;
      goalPrefabMap := map[];
      currentGoalCharacter := DefaultGoalCharacter;
      mapData := null;
      mapWidth := 0;
      mapHeight := 0;
      mapFileName := "";
      new;
      InitializeGoalPrefabs();
    }

    method InitializeGoalPrefabs()
      modifies this
      ensures goalPrefabMap == GoalPrefabMap(goalPrefabs)
      ensures basePosition == old(basePosition) && tileSize == old(tileSize) && currentGoalCharacter == old(currentGoalCharacter)
      ensures mapData == old(mapData) && mapWidth == old(mapWidth) && mapHeight == old(mapHeight)
    {
      goalPrefabMap := map[];
      var i := 0;
      while i < |goalPrefabs| && i < |CharacterNames|
        invariant 0 <= i <= Min(|goalPrefabs|, |CharacterNames|)
        invariant goalPrefabMap == GoalMapBelow(goalPrefabs, i)
        invariant basePosition == old(basePosition) && tileSize == old(tileSize) && currentGoalCharacter == old(currentGoalCharacter)
        invariant mapData == old(mapData) && mapWidth == old(mapWidth) && mapHeight == old(mapHeight)
      {
        goalPrefabMap := goalPrefabMap[CharacterNames[i] := goalPrefabs[i]];
        i := i + 1;
      }
    }

    method GetGoalPrefab(characterName: string) returns (r: Option<Prefab>)
      ensures r == GoalPrefabFor(goalPrefabMap, goalPrefabs, characterName)
    {
      if characterName in goalPrefabMap {
        return Some(goalPrefabMap[characterName]);
      }
      if |goalPrefabs| == 0 {
        return None;
      }
      return Some(goalPrefabs[0]);
    }

    /** `LoadMapFromCSV`, with the stage file's text (`None` when there is no such file). */
    method LoadMapFromCSV(csv: Option<string>)
      modifies this`mapData, this`mapWidth, this`mapHeight, this`basePosition, this`currentGoalCharacter, game`maxMoveCount
      requires Valid()
      requires csv.Some? ==> Loadable(ValidLines(Split(csv.value, '\n')))
      ensures Valid()
      ensures csv.None? ==>
        && basePosition == old(basePosition) && currentGoalCharacter == old(currentGoalCharacter)
        && mapData == old(mapData) && mapWidth == old(mapWidth) && mapHeight == old(mapHeight)
        && game.maxMoveCount == old(game.maxMoveCount)
      ensures csv.Some? ==> var vl := ValidLines(Split(csv.value, '\n'));
        && fresh(mapData) && HoldsCells(vl)
        && HoldsHeader(Split(vl[0], ','), old(basePosition), old(game.maxMoveCount))
    {
      if csv.None? {
        return;
      }
      var validLines := ReadValidLines(Split(csv.value, '\n'));
      mapHeight := |validLines| - 1;
      mapWidth := Count(validLines[1], ',') + 1;
      ReadHeader(Split(validLines[0], ','));
      mapData := ReadCells(validLines);
    }

    /** The header part of `LoadMapFromCSV`: move budget, base position, goal character. */
    method ReadHeader(mapInfo: seq<string>)
      modifies this`basePosition, this`currentGoalCharacter, game`maxMoveCount
      requires |mapInfo| >= 3
      ensures currentGoalCharacter == GoalCharacter(mapInfo)
      ensures basePosition == (if Offset(mapInfo).Some? then Offset(mapInfo).value else old(basePosition))
      ensures game.maxMoveCount == (if MoveBudget(mapInfo).Some? then MoveBudget(mapInfo).value else old(game.maxMoveCount))
    {
      var moveCount := ParseInt32(Trim(mapInfo[0]));
      if moveCount.Some? {
        game.maxMoveCount := moveCount.value;
      }
      var offsetX := ParseDecimal(Trim(mapInfo[1]));
      if offsetX.Some? {
        var offsetY := ParseDecimal(Trim(mapInfo[2]));
        if offsetY.Some? {
          basePosition := Vec2(offsetX.value, offsetY.value);
        }
      }
      if |mapInfo| > 3 && !IsNullOrWhiteSpace(mapInfo[3]) {
        currentGoalCharacter := Trim(mapInfo[3]);
      } else {
        currentGoalCharacter := DefaultGoalCharacter;
      }
    }

    /** `GenerateMap`: every stored cell spawns its objects, row by row. */
    method GenerateMap()
      modifies grid
      requires Valid() && Filled() && grid.Fresh()
      requires GoalReady()
      ensures grid.Fresh() && unchanged(this, game) && (mapData != null ==> unchanged(mapData))
      ensures mapData == null ==> grid.State() == old(grid.State()) && grid.nextId == old(grid.nextId)
      ensures mapData != null ==> var s := MapSpawns(Tiles(), basePosition, tileSize, mapWidth, mapHeight);
        grid.State() == PlaceAll(old(grid.State()), old(grid.nextId), s) && grid.nextId == old(grid.nextId) + |s|
    {
      if mapData == null {
        return;
      }
      ghost var plan := Plan(Tiles(), basePosition, tileSize, mapWidth, mapHeight);
      PlanOfBuffer(plan);
      SpawnRows(mapData, plan, basePosition, tileSize, mapWidth, mapHeight);
    }

    /** The plan of the stored buffer, cell by cell. */
    lemma PlanOfBuffer(plan: seq<seq<seq<Spawn>>>)
      requires Valid() && Filled() && mapData != null
      requires plan == Plan(Tiles(), basePosition, tileSize, mapWidth, mapHeight)
      ensures |plan| == mapHeight && forall y :: 0 <= y < mapHeight ==> |plan[y]| == mapWidth
      ensures forall y, x {:trigger mapData[y, x]} :: 0 <= y < mapHeight && 0 <= x < mapWidth ==>
        mapData[y, x].Some? && plan[y][x] == TileSpawns(mapData[y, x].value, SpawnCell(basePosition, tileSize, mapWidth, mapHeight, x, y))
    {
      var tiles := Tiles();
      forall y, x | 0 <= y < mapHeight && 0 <= x < mapWidth
        ensures mapData[y, x].Some? && plan[y][x] == TileSpawns(mapData[y, x].value, SpawnCell(basePosition, tileSize, mapWidth, mapHeight, x, y))
      {
        assert tiles[y][x] == mapData[y, x];
      }
    }

    /** The row loop of `GenerateMap`. */
    method SpawnRows(data: array2<Option<string>>, ghost plan: seq<seq<seq<Spawn>>>,
                     base: Vec2, size: real, width: int, height: int)
      modifies grid
      requires width >= 1 && height >= 1 && height == |plan| == data.Length0 && width == data.Length1
      requires forall y :: 0 <= y < height ==> |plan[y]| == width
      requires forall y, x {:trigger data[y, x]} :: 0 <= y < height && 0 <= x < width ==>
        data[y, x].Some? && plan[y][x] == TileSpawns(data[y, x].value, SpawnCell(base, size, width, height, x, y))
      requires grid.Fresh()
      ensures grid.Fresh()
      ensures grid.State() == PlaceAll(old(grid.State()), old(grid.nextId), ConcatRows(plan))
      ensures grid.nextId == old(grid.nextId) + |ConcatRows(plan)|
    {
      ghost var g0, n0 := grid.State(), grid.nextId;
      assert plan[..0] == [];
      for y := 0 to height
        invariant grid.Fresh()
        invariant grid.State() == PlaceAll(g0, n0, ConcatRows(plan[..y]))
        invariant grid.nextId == n0 + |ConcatRows(plan[..y])|
      {
        SpawnRow(y, data, plan[y], base, size, width, height, g0, n0, ConcatRows(plan[..y]));
        ConcatRowsStep(plan, y);
      }
      assert plan[..height] == plan;
    }

    /** One row of `GenerateMap`: the column loop. */
    method SpawnRow(y: int, data: array2<Option<string>>, ghost row: seq<seq<Spawn>>,
                    base: Vec2, size: real, width: int, height: int, ghost g0: GridState, ghost n0: nat, ghost before: seq<Spawn>)
      modifies grid
      requires width >= 1 && height >= 1 && 0 <= y < data.Length0 && width == data.Length1 == |row|
      requires forall x {:trigger data[y, x]} :: 0 <= x < width ==>
        data[y, x].Some? && row[x] == TileSpawns(data[y, x].value, SpawnCell(base, size, width, height, x, y))
      requires grid.Fresh() && grid.State() == PlaceAll(g0, n0, before) && grid.nextId == n0 + |before|
      ensures grid.Fresh()
      ensures grid.State() == PlaceAll(g0, n0, before + Concat(row)) && grid.nextId == n0 + |before + Concat(row)|
    {
      assert row[..0] == [] && before + Concat(row[..0]) == before;
      for x := 0 to width
        invariant grid.Fresh()
        invariant grid.State() == PlaceAll(g0, n0, before + Concat(row[..x]))
        invariant grid.nextId == n0 + |before + Concat(row[..x])|
      {
        var spawnPosition := SpawnPosition(base, size, width, height, x, y);
        var tileData := data[y, x].value;
        SpawnTile(tileData, WorldToGrid(spawnPosition, base), g0, n0, before + Concat(row[..x]));
        ConcatStep(row, x);
        AppendAssoc(before, Concat(row[..x]), row[x]);
      }
      assert row[..width] == row;
    }

    /** The ten tile-code checks of `GenerateMap` for one cell, in table order. */
    method SpawnTile(tileData: string, cell: Vec2Int, ghost g0: GridState, ghost n0: nat, ghost done: seq<Spawn>)
      modifies grid
      requires grid.Fresh() && grid.State() == PlaceAll(g0, n0, done) && grid.nextId == n0 + |done|
      ensures grid.Fresh()
      ensures grid.State() == PlaceAll(g0, n0, done + TileSpawns(tileData, cell))
      ensures grid.nextId == n0 + |done + TileSpawns(tileData, cell)|
    {
      SpawnedPrefixes(tileData, cell, done);
      ghost var s := SpawnSlot(tileData, 0, cell, g0, n0, done, done);  // P: player
      s := SpawnMiddleCodes(tileData, cell, g0, n0, done, s);
      s := SpawnLastCodes(tileData, cell, g0, n0, done, s);
    }

    /** The checks of codes K, L, T and U. */
    method SpawnMiddleCodes(tileData: string, cell: Vec2Int, ghost g0: GridState, ghost n0: nat, ghost done: seq<Spawn>,
                            ghost first: seq<Spawn>)
      returns (ghost s: seq<Spawn>)
      modifies grid
      requires first == done + Spawned(Slots(tileData, cell)[..1])
      requires grid.Fresh() && grid.State() == PlaceAll(g0, n0, first) && grid.nextId == n0 + |first|
      ensures s == done + Spawned(Slots(tileData, cell)[..5])
      ensures grid.Fresh() && grid.State() == PlaceAll(g0, n0, s) && grid.nextId == n0 + |s|
    {
      s := SpawnSlot(tileData, 1, cell, g0, n0, done, first);  // K: key
      s := SpawnSlot(tileData, 2, cell, g0, n0, done, s);  // L: lock box
      s := SpawnSlot(tileData, 3, cell, g0, n0, done, s);  // T: spikes
      s := SpawnSlot(tileData, 4, cell, g0, n0, done, s);  // U: toggle spikes, up
    }

    /** The checks of codes D, G, #, B and M. */
    method SpawnLastCodes(tileData: string, cell: Vec2Int, ghost g0: GridState, ghost n0: nat, ghost done: seq<Spawn>,
                          ghost first: seq<Spawn>)
      returns (ghost s: seq<Spawn>)
      modifies grid
      requires first == done + Spawned(Slots(tileData, cell)[..5])
      requires grid.Fresh() && grid.State() == PlaceAll(g0, n0, first) && grid.nextId == n0 + |first|
      ensures s == done + Spawned(Slots(tileData, cell)[..CodeCount])
      ensures grid.Fresh() && grid.State() == PlaceAll(g0, n0, s) && grid.nextId == n0 + |s|
    {
      s := SpawnSlot(tileData, 5, cell, g0, n0, done, first);  // D: toggle spikes, down
      s := SpawnSlot(tileData, 6, cell, g0, n0, done, s);  // G: goal character
      s := SpawnSlot(tileData, 7, cell, g0, n0, done, s);  // #: wall
      s := SpawnSlot(tileData, 8, cell, g0, n0, done, s);  // B: block
      s := SpawnSlot(tileData, 9, cell, g0, n0, done, s);  // M: monster
    }

    /** Code `k`'s check, extending the spawns of the first `k` codes to the first `k + 1`. */
    method SpawnSlot(tileData: string, k: nat, cell: Vec2Int, ghost g0: GridState, ghost n0: nat,
                     ghost start: seq<Spawn>, ghost done: seq<Spawn>)
      returns (ghost after: seq<Spawn>)
      modifies grid
      requires k < CodeCount && done == start + Spawned(Slots(tileData, cell)[..k])
      requires grid.Fresh() && grid.State() == PlaceAll(g0, n0, done) && grid.nextId == n0 + |done|
      ensures after == start + Spawned(Slots(tileData, cell)[..k + 1])
      ensures grid.Fresh() && grid.State() == PlaceAll(g0, n0, after) && grid.nextId == n0 + |after|
    {
      SlotStep(tileData, cell, k, start, done);
      after := SpawnCode(tileData, k, cell, g0, n0, done);
    }

    /** One `if (tileData.Contains(code)) { Instantiate; RegisterObject }` step,
        for code `k` of the table. */
    method SpawnCode(tileData: string, k: nat, cell: Vec2Int, ghost g0: GridState, ghost n0: nat, ghost done: seq<Spawn>)
      returns (ghost after: seq<Spawn>)
      modifies grid
      requires k < CodeCount
      requires grid.Fresh() && grid.State() == PlaceAll(g0, n0, done) && grid.nextId == n0 + |done|
      ensures after == done + SlotSpawn(CodeSlot(tileData, cell, k))
      ensures grid.Fresh() && grid.State() == PlaceAll(g0, n0, after) && grid.nextId == n0 + |after|
    {
      var code, tag := CodeChar(k), CodeTag(k);
      if code in tileData {
        SpawnObject(tag, cell, g0, n0, done);
        after := done + [Spawn(tag, cell)];
      } else {
        after := done;
      }
    }

    /** `Instantiate` then `RegisterObject`: the next spawn is placed. */
    method SpawnObject(tag: Tag, cell: Vec2Int, ghost g0: GridState, ghost n0: nat, ghost done: seq<Spawn>)
      modifies grid
      requires grid.Fresh() && grid.State() == PlaceAll(g0, n0, done) && grid.nextId == n0 + |done|
      ensures grid.Fresh() && grid.State() == PlaceAll(g0, n0, done + [Spawn(tag, cell)]) && grid.nextId == n0 + |done| + 1
    {
      ghost var gp := grid.State();
      var spawnedObject := grid.Instantiate(tag, cell, Parented(tag));
      ghost var gi := grid.State();
      assert gi == gp.(scene := gp.scene[spawnedObject := SceneObject(tag, cell, true, Parented(tag))]);
      grid.RegisterObject(spawnedObject);
      assert grid.scene == gi.scene;
      assert grid.State() == Place(gp, n0 + |done|, Spawn(tag, cell));
      PlaceAllSnoc(g0, n0, done, Spawn(tag, cell));
    }

    /** `ClearCurrentMap`: the children of the level's parents and the
        Player, Key and LockBox objects are destroyed, then the grid is cleared. */
    method ClearCurrentMap()
      modifies grid
      ensures grid.State() == ClearSpec(old(grid.State())) && grid.nextId == old(grid.nextId)
      ensures unchanged(this, game) && (mapData != null ==> unchanged(mapData))
    {
      ghost var g0 := grid.State();
      var pending := grid.scene.Keys;
      while pending != {}
        invariant pending <= g0.scene.Keys && grid.scene.Keys == g0.scene.Keys && grid.nextId == old(grid.nextId)
        invariant forall id :: id in g0.scene ==>
          grid.scene[id] == (if id !in pending && Cleared(g0.scene[id]) then g0.scene[id].(live := false) else g0.scene[id])
        decreases pending
      {
        var obj :| obj in pending;
        if grid.scene[obj].parented || grid.scene[obj].tag in SingleTags {
          grid.Destroy(obj);
        }
        pending := pending - {obj};
      }
      grid.ClearGrid();
    }

    /** A goal cell, if the buffer holds one, finds a goal prefab (`GetGoalPrefab`
        throws on an empty prefab array otherwise). */
    predicate GoalReady()
      reads this`mapData, this`goalPrefabMap, this`currentGoalCharacter, mapData
    {
      mapData != null && HasGoalTile(Tiles()) ==> GoalPrefabFor(goalPrefabMap, goalPrefabs, currentGoalCharacter).Some?
    }

    /** The buffer holds the cells of the valid lines `vl`, at their size. */
    predicate HoldsCells(vl: seq<string>)
      requires |vl| >= 2
      reads this`mapData, this`mapWidth, this`mapHeight, mapData
    {
      && mapHeight == MapHeight(vl) && mapWidth == MapWidth(vl) && mapData != null
      && mapData.Length0 == mapHeight && mapData.Length1 == mapWidth
      && forall y, x :: 0 <= y < mapHeight && 0 <= x < mapWidth ==> mapData[y, x] == CellAt(vl, y, x)
    }

    /** The header fields are in force: the goal character always, the base
        position and the move budget where they parse (`base0` and `moves0`
        otherwise). */
    predicate HoldsHeader(header: seq<string>, base0: Vec2, moves0: int)
      requires |header| >= 3
      reads this`currentGoalCharacter, this`basePosition, game`maxMoveCount
    {
      && currentGoalCharacter == GoalCharacter(header)
      && basePosition == (if Offset(header).Some? then Offset(header).value else base0)
      && game.maxMoveCount == (if MoveBudget(header).Some? then MoveBudget(header).value else moves0)
    }

    /** What `GenerateMap` spawns from the buffer as it stands. */
    function CurrentSpawns(): seq<Spawn>
      requires Valid()
      reads this`mapData, this`mapWidth, this`mapHeight, this`basePosition, this`tileSize, mapData
    {
      if mapData == null then [] else MapSpawns(Tiles(), basePosition, tileSize, mapWidth, mapHeight)
    }

    /** `LoadMapFromCSV` then `GenerateMap` run without an exception: the stage
        text, when there is one, has a header and a map line, every map row is
        as wide as the first, and a goal cell finds a goal prefab; without a
        text, the same holds of the buffer already loaded. */
    predicate CanLoad(csv: Option<string>)
      reads this`mapData, this`mapWidth, this`mapHeight, this`goalPrefabMap, this`currentGoalCharacter, mapData
    {
      match csv
      case None =>
        Filled() && GoalReady()
      case Some(text) =>
        var vl := ValidLines(Split(text, '\n'));
        && Loadable(vl) && RowsFull(vl)
        && (MapHasGoal(vl) ==> GoalPrefabFor(goalPrefabMap, goalPrefabs, GoalCharacter(Split(vl[0], ','))).Some?)
    }

    /** A buffer holding full rows stores every cell, and it holds a goal cell
        only where the text does. */
    lemma LoadedBuffer(vl: seq<string>)
      requires Loadable(vl) && RowsFull(vl) && HoldsCells(vl)
      requires currentGoalCharacter == GoalCharacter(Split(vl[0], ','))
      requires MapHasGoal(vl) ==> GoalPrefabFor(goalPrefabMap, goalPrefabs, GoalCharacter(Split(vl[0], ','))).Some?
      ensures Filled() && GoalReady()
    {
      forall y, x | 0 <= y < mapHeight && 0 <= x < mapWidth
        ensures mapData[y, x].Some?
      {
        StoredCells(vl, y, x);
      }
      if HasGoalTile(Tiles()) {
        var tiles: seq<seq<Option<string>>> := Tiles();
        var y: int, x: int :| 0 <= y < |tiles| && 0 <= x < |tiles[y]| && tiles[y][x].Some? && 'G' in tiles[y][x].value;
        assert tiles[y][x] == CellAt(vl, y, x);
      }
    }

    /** What `LoadMapFromCSV(csv)` leaves, given the fields as it found them:
        without a text nothing changes; with one, the buffer holds its cells
        and the header fields are in force. */
    predicate Loaded(csv: Option<string>, data0: array2?<Option<string>>, width0: int, height0: int,
                     base0: Vec2, goal0: string, moves0: int)
      reads this`mapData, this`mapWidth, this`mapHeight, this`basePosition, this`currentGoalCharacter
      reads mapData, game`maxMoveCount
    {
      match csv
      case None =>
        && mapData == data0 && mapWidth == width0 && mapHeight == height0
        && basePosition == base0 && currentGoalCharacter == goal0 && game.maxMoveCount == moves0
      case Some(text) =>
        var vl := ValidLines(Split(text, '\n'));
        Loadable(vl) && HoldsCells(vl) && HoldsHeader(Split(vl[0], ','), base0, moves0)
    }

    /** `LoadMapFromCSV`, when the map it loads can be generated. */
    method LoadStage(csv: Option<string>)
      modifies this`mapData, this`mapWidth, this`mapHeight, this`basePosition, this`currentGoalCharacter, game`maxMoveCount
      requires Valid() && CanLoad(csv)
      ensures Valid() && Filled() && GoalReady()
      ensures csv.Some? ==> fresh(mapData)
      ensures Loaded(csv, old(mapData), old(mapWidth), old(mapHeight), old(basePosition), old(currentGoalCharacter), old(game.maxMoveCount))
    {
      LoadMapFromCSV(csv);
      if csv.Some? {
        LoadedBuffer(ValidLines(Split(csv.value, '\n')));
      }
    }

    /** `LoadMapFromCSV` followed by `GenerateMap`, the common tail of `Start`,
        `ReloadStage` and `LoadNextStage`. */
    method LoadAndGenerate(csv: Option<string>)
      modifies grid, this`mapData, this`mapWidth, this`mapHeight, this`basePosition, this`currentGoalCharacter, game`maxMoveCount
      requires Valid() && grid.Fresh() && CanLoad(csv)
      ensures Valid() && Filled() && grid.Fresh()
      ensures csv.Some? ==> fresh(mapData)
      ensures Loaded(csv, old(mapData), old(mapWidth), old(mapHeight), old(basePosition), old(currentGoalCharacter), old(game.maxMoveCount))
      ensures grid.State() == PlaceAll(old(grid.State()), old(grid.nextId), CurrentSpawns())
      ensures grid.nextId == old(grid.nextId) + |CurrentSpawns()|
    {
      LoadStage(csv);
      GenerateMap();
    }

    /** `Start`: the first stage's scene is built in; any other stage loads its
        own map file (whose text is `csv`) and generates it. */
    method Start(csv: Option<string>)
      modifies grid, this`mapFileName, this`mapData, this`mapWidth, this`mapHeight, this`basePosition, this`currentGoalCharacter, game`maxMoveCount
      requires Valid() && grid.Fresh()
      requires game.currentStage != 1 ==> CanLoad(csv)
      ensures Valid() && grid.Fresh()
      ensures old(game.currentStage) == 1 ==>
        && grid.State() == old(grid.State()) && grid.nextId == old(grid.nextId)
        && mapData == old(mapData) && mapFileName == old(mapFileName)
      ensures old(game.currentStage) != 1 ==>
        && mapFileName == StageFile(old(game.currentStage))
        && (csv.Some? ==> fresh(mapData))
        && Loaded(csv, old(mapData), old(mapWidth), old(mapHeight), old(basePosition), old(currentGoalCharacter), old(game.maxMoveCount))
        && grid.State() == PlaceAll(old(grid.State()), old(grid.nextId), CurrentSpawns())
    {
      if game.currentStage == 1 {
        return;
      }
      OpenStage(game.currentStage, csv);
    }

    /** The part of `Start` past the first-stage check: the stage's file name
        is recorded, and its map (whose text is `csv`) loaded and generated. */
    method OpenStage(stageNum: int, csv: Option<string>)
      modifies grid, this`mapFileName, this`mapData, this`mapWidth, this`mapHeight, this`basePosition, this`currentGoalCharacter, game`maxMoveCount
      requires Valid() && grid.Fresh() && CanLoad(csv)
      ensures Valid() && Filled() && grid.Fresh()
      ensures mapFileName == StageFile(stageNum)
      ensures csv.Some? ==> fresh(mapData)
      ensures Loaded(csv, old(mapData), old(mapWidth), old(mapHeight), old(basePosition), old(currentGoalCharacter), old(game.maxMoveCount))
      ensures grid.State() == PlaceAll(old(grid.State()), old(grid.nextId), CurrentSpawns())
      ensures grid.nextId == old(grid.nextId) + |CurrentSpawns()|
    {
      mapFileName := StageFile(stageNum);
      LoadAndGenerate(csv);
    }

    /** `ReloadStage`: the level is cleared, and the current map file (whose
        text is `csv`) is loaded and generated again. */
    method ReloadStage(csv: Option<string>)
      modifies grid, this`mapData, this`mapWidth, this`mapHeight, this`basePosition, this`currentGoalCharacter, game`maxMoveCount
      requires Valid() && grid.Fresh() && CanLoad(csv)
      ensures Valid() && Filled() && grid.Fresh()
      ensures csv.Some? ==> fresh(mapData)
      ensures Loaded(csv, old(mapData), old(mapWidth), old(mapHeight), old(basePosition), old(currentGoalCharacter), old(game.maxMoveCount))
      ensures grid.State() == PlaceAll(ClearSpec(old(grid.State())), old(grid.nextId), CurrentSpawns())
      ensures grid.nextId == old(grid.nextId) + |CurrentSpawns()|
    {
      ClearCurrentMap();
      LoadAndGenerate(csv);
    }

    /** `LoadNextStage(stageNum)`: the level is cleared, and the map file of
        stage `stageNum` (whose text is `csv`) is loaded and generated. */
    method LoadNextStage(stageNum: int, csv: Option<string>)
      modifies grid, this`mapFileName, this`mapData, this`mapWidth, this`mapHeight, this`basePosition, this`currentGoalCharacter, game`maxMoveCount
      requires Valid() && grid.Fresh() && CanLoad(csv)
      ensures Valid() && Filled() && grid.Fresh()
      ensures mapFileName == StageFile(stageNum)
      ensures csv.Some? ==> fresh(mapData)
      ensures Loaded(csv, old(mapData), old(mapWidth), old(mapHeight), old(basePosition), old(currentGoalCharacter), old(game.maxMoveCount))
      ensures grid.State() == PlaceAll(ClearSpec(old(grid.State())), old(grid.nextId), CurrentSpawns())
      ensures grid.nextId == old(grid.nextId) + |CurrentSpawns()|
    {
      mapFileName := StageFile(stageNum);
      ReloadStage(csv);
    }

    /** `GetTileAt(x, y)`: `"."` outside the map, the stored cell inside. */
    function GetTileAt(x: int, y: int): (r: Option<string>)
      reads this`mapData, this`mapWidth, this`mapHeight, mapData
      requires Valid()
      ensures !(0 <= x < mapWidth && 0 <= y < mapHeight) ==> r == Some(".")
      ensures 0 <= x < mapWidth && 0 <= y < mapHeight ==> mapData != null && r == mapData[y, x]
    {
      if x < 0 || y < 0 || x >= mapWidth || y >= mapHeight then Some(".") else mapData[y, x]
    }
  }

  /** Some cell holds a goal code. */
  predicate HasGoalTile(tiles: seq<seq<Option<string>>>)
  {
    exists y, x :: 0 <= y < |tiles| && 0 <= x < |tiles[y]| && tiles[y][x].Some? && 'G' in tiles[y][x].value
  }

  /** Some cell of the map text holds a goal code. */
  predicate MapHasGoal(vl: seq<string>)
    requires |vl| >= 2
  {
    exists y, x :: 0 <= y < MapHeight(vl) && 0 <= x < MapWidth(vl) && CellAt(vl, y, x).Some? && 'G' in CellAt(vl, y, x).value
  }

  /** `n.ToString()` for any `int`. */
  function IntText(n: int): (s: string)
    ensures s != []
  {
    if n < 0 then "-" + NatToString(-n) else NatToString(n)
  }

  /** The resource path of stage `n`'s map file. */
  function StageFile(n: int): string
  {
    "Stages/Stage" + IntText(n)
  }

  /** Distinct stages read distinct map files. */
  lemma StageFileInjective(a: int, b: int)
    requires StageFile(a) == StageFile(b)
    ensures a == b
  {
    var p := "Stages/Stage";
    assert IntText(a) == StageFile(a)[|p|..] == StageFile(b)[|p|..] == IntText(b);
    NatTextInjective(if a < 0 then -a else a, if b < 0 then -b else b, a < 0, b < 0);
  }

  lemma NatTextInjective(m: nat, n: nat, negM: bool, negN: bool)
    requires (if negM then "-" + NatToString(m) else NatToString(m)) == (if negN then "-" + NatToString(n) else NatToString(n))
    ensures negM == negN && m == n
  {
    var sm, sn := NatToString(m), NatToString(n);
    var tm := if negM then "-" + sm else sm;
    assert tm[0] == (if negM then '-' else sm[0]) && IsDigit(sm[0]);
    assert tm[0] == (if negN then '-' else sn[0]) && IsDigit(sn[0]);
    if negM {
      assert sm == tm[1..] == sn;
    }
    DigitsOfNatToString(m);
    DigitsOfNatToString(n);
  }
}
