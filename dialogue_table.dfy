/** The dialogue table: the quote-aware CSV line splitter, the string cleaner,
    the dialogue type names and the row-to-node rules of the dialogue loader. */
module DialogueTable {
  import opened Common
  import opened Text

  const DialogueStartId: int := 1
  /** Choice targets below this id continue the conversation; the others lead
      to a game-over line. */
  const DialogueThresholdId: int := 100
  const AdviceStartId: int := 201

  /** `DialogueType`; `None` (-1) is written `NoType`, and `Unnamed` holds a
      number `Enum.TryParse` accepts without a name for it. */
  datatype DialogueType = NoType | Dialogue | Choice | NumberChoice | Success | GameOver | Advice | Unnamed(value: int)

  /** The enum member with the given underlying value. */
  function TypeOfValue(n: int): DialogueType
  {
    if n == -1 then NoType
    else if n == 0 then Dialogue
    else if n == 1 then Choice
    else if n == 2 then NumberChoice
    else if n == 3 then Success
    else if n == 4 then GameOver
    else if n == 5 then Advice
    else Unnamed(n)
  }

  function TypeName(t: DialogueType): string
    requires !t.Unnamed?
  {
    match t
    case NoType => "None"
    case Dialogue => "Dialogue"
    case Choice => "Choice"
    case NumberChoice => "NumberChoice"
    case Success => "Success"
    case GameOver => "GameOver"
    case Advice => "Advice"
  }

  /** `Enum.TryParse<DialogueType>`: a member name, compared exactly, or a
      32-bit number, surrounding white space ignored. */
  function ParseType(s: string): (r: Option<DialogueType>)
    ensures Trim(s) == [] ==> r.None?
    ensures r.Some? && r.value.Unnamed? ==> ParseInt32(Trim(s)) == Some(r.value.value)
    ensures r.Some? ==> ParseInt32(Trim(s)).Some? || TypeName(r.value) == Trim(s)
  {
    var t := Trim(s);
    if t == [] then None
    else if IsDigit(t[0]) || t[0] == '-' || t[0] == '+' then
      match ParseInt32(t)
      case Some(n) => Some(TypeOfValue(n))
      case None => None
    else TypeOfName(t)
  }

  /** The member named exactly `t`. */
  function TypeOfName(t: string): (r: Option<DialogueType>)
    ensures r.Some? ==> !r.value.Unnamed? && TypeName(r.value) == t
  {
    if t == "None" then Some(NoType)
    else if t == "Dialogue" then Some(Dialogue)
    else if t == "Choice" then Some(Choice)
    else if t == "NumberChoice" then Some(NumberChoice)
    else if t == "Success" then Some(Success)
    else if t == "GameOver" then Some(GameOver)
    else if t == "Advice" then Some(Advice)
    else None
  }

  /** Every member name reads back as its member. */
  lemma TypeNameReadsBack(t: DialogueType)
    requires !t.Unnamed?
    ensures ParseType(TypeName(t)) == Some(t)
  {
    TrimUnchanged(TypeName(t));
  }

  /** Every underlying value from 0 to 5 written in decimal reads back as its member. */
  lemma TypeValueReadsBack(n: nat)
    requires n <= 5
    ensures ParseType(NatToString(n)) == Some(TypeOfValue(n))
  {
    TrimUnchanged(NatToString(n));
    ParseNatToString(n);
  }

  // ------------------------------------------------------------------ CSV

  /** The splitter's scan: a quote toggles the in-quotes flag and is dropped,
      a comma outside quotes ends the current field, any other character is
      appended to it. */
  function Scan(s: string, inQuotes: bool, current: string, acc: seq<string>): (r: seq<string>)
    ensures |r| > |acc|
  {
    if s == [] then acc + [current]
    else if s[0] == '"' then Scan(s[1..], !inQuotes, current, acc)
    else if s[0] == ',' && !inQuotes then Scan(s[1..], inQuotes, "", acc + [current])
    else Scan(s[1..], inQuotes, current + [s[0]], acc)
  }

  /** `ParseCSVLine`. */
  function ParseCSV(line: string): seq<string>
  {
    Scan(line, false, "", [])
  }

  /** The commas outside quotes, the quote state starting at `inQuotes`. */
  function CommasOutside(s: string, inQuotes: bool): nat
  {
    if s == [] then 0
    else if s[0] == '"' then CommasOutside(s[1..], !inQuotes)
    else (if s[0] == ',' && !inQuotes then 1 else 0) + CommasOutside(s[1..], inQuotes)
  }

  /** `s` with every double quote removed. */
  function Unquote(s: string): (r: string)
    ensures '"' !in r
  {
    if s == [] then [] else (if s[0] == '"' then [] else [s[0]]) + Unquote(s[1..])
  }

  lemma {:induction false} ScanFieldCount(s: string, inQuotes: bool, current: string, acc: seq<string>)
    ensures |Scan(s, inQuotes, current, acc)| == |acc| + 1 + CommasOutside(s, inQuotes)
  {
    if s != [] {
      if s[0] == '"' {
        ScanFieldCount(s[1..], !inQuotes, current, acc);
      } else if s[0] == ',' && !inQuotes {
        ScanFieldCount(s[1..], inQuotes, "", acc + [current]);
      } else {
        ScanFieldCount(s[1..], inQuotes, current + [s[0]], acc);
      }
    }
  }

  /** No field holds a double quote. */
  predicate NoQuotes(fields: seq<string>)
  {
    forall i :: 0 <= i < |fields| ==> '"' !in fields[i]
  }

  lemma {:induction false} ScanDropsQuotes(s: string, inQuotes: bool, current: string, acc: seq<string>)
    requires '"' !in current && NoQuotes(acc)
    ensures NoQuotes(Scan(s, inQuotes, current, acc))
  {
    if s == [] {
      assert forall i :: 0 <= i < |acc + [current]| ==> (acc + [current])[i] == if i < |acc| then acc[i] else current;
    } else if s[0] == '"' {
      ScanDropsQuotes(s[1..], !inQuotes, current, acc);
    } else if s[0] == ',' && !inQuotes {
      assert forall i :: 0 <= i < |acc + [current]| ==> (acc + [current])[i] == if i < |acc| then acc[i] else current;
      ScanDropsQuotes(s[1..], inQuotes, "", acc + [current]);
    } else {
      ScanDropsQuotes(s[1..], inQuotes, current + [s[0]], acc);
    }
  }

  /** Extending the last field extends the joined text. */
  lemma JoinExtendLast(acc: seq<string>, current: string, c: char)
    ensures Join(acc + [current + [c]], ',') == Join(acc + [current], ',') + [c]
  {
    if acc != [] {
      JoinAppend(acc, current + [c], ',');
      JoinAppend(acc, current, ',');
    } else {
      assert [] + [current + [c]] == [current + [c]];
      assert [] + [current] == [current];
    }
  }

  lemma {:induction false} ScanJoin(s: string, inQuotes: bool, current: string, acc: seq<string>)
    ensures Join(Scan(s, inQuotes, current, acc), ',') == Join(acc + [current], ',') + Unquote(s)
  {
    if s == [] {
      assert Join(acc + [current], ',') + [] == Join(acc + [current], ',');
    } else if s[0] == '"' {
      ScanJoin(s[1..], !inQuotes, current, acc);
    } else if s[0] == ',' && !inQuotes {
      ScanJoin(s[1..], inQuotes, "", acc + [current]);
      JoinAppend(acc + [current], "", ',');
      assert Unquote(s) == [','] + Unquote(s[1..]);
    } else {
      ScanJoin(s[1..], inQuotes, current + [s[0]], acc);
      JoinExtendLast(acc, current, s[0]);
      assert Unquote(s) == [s[0]] + Unquote(s[1..]);
    }
  }

  /** The splitter yields one field more than there are commas outside quotes. */
  lemma FieldCount(line: string)
    ensures |ParseCSV(line)| == 1 + CommasOutside(line, false)
  {
    ScanFieldCount(line, false, "", []);
  }

  /** No field holds a double quote. */
  lemma FieldsHaveNoQuotes(line: string)
    ensures NoQuotes(ParseCSV(line))
  {
    ScanDropsQuotes(line, false, "", []);
  }

  /** Joining the fields with commas gives the line back without its quotes. */
  lemma FieldsJoinToUnquotedLine(line: string)
    ensures Join(ParseCSV(line), ',') == Unquote(line)
  {
    ScanJoin(line, false, "", []);
    assert [] + [""] == [""];
    assert Join([""], ',') == "";
    assert "" + Unquote(line) == Unquote(line);
  }

  /** Without quotes the splitter is a plain split on commas. */
  lemma {:induction false} UnquotedIsSplit(s: string, current: string, acc: seq<string>)
    requires '"' !in s
    ensures Scan(s, false, current, acc) == acc + [current + Split(s, ',')[0]] + Split(s, ',')[1..]
  {
    if s == [] {
      assert current + "" == current;
    } else if s[0] == ',' {
      UnquotedIsSplit(s[1..], "", acc + [current]);
      var rest := Split(s[1..], ',');
      assert "" + rest[0] == rest[0];
      assert Split(s, ',') == [""] + rest;
      assert current + "" == current;
    } else {
      UnquotedIsSplit(s[1..], current + [s[0]], acc);
      var rest := Split(s[1..], ',');
      assert Split(s, ',')[0] == [s[0]] + rest[0];
      assert Split(s, ',')[1..] == rest[1..];
      assert current + [s[0]] + rest[0] == current + ([s[0]] + rest[0]);
    }
  }

  lemma ParseCSVWithoutQuotes(line: string)
    requires '"' !in line
    ensures ParseCSV(line) == Split(line, ',')
  {
    UnquotedIsSplit(line, "", []);
    var sp := Split(line, ',');
    assert "" + sp[0] == sp[0];
    assert [] + [sp[0]] + sp[1..] == sp;
  }

  /** `ParseCSVLine`, the loop over the line's characters. */
  method ParseCSVLine(line: string) returns (result: seq<string>)
    ensures result == ParseCSV(line)
  {
    result := [];
    var inQuotes := false;
    var current := "";
    var i := 0;
    while i < |line|
      invariant 0 <= i <= |line|
      invariant Scan(line[i..], inQuotes, current, result) == ParseCSV(line)
    {
      var c := line[i];
      assert line[i..][1..] == line[i + 1..];
      if c == '"' {
        inQuotes := !inQuotes;
      } else if c == ',' && !inQuotes {
        result := result + [current];
        current := "";
      } else {
        current := current + [c];
      }
      i := i + 1;
    }
    result := result + [current];
  }

  // ------------------------------------------------------------------ CleanString

  const TripleQuote: string := "\"\"\""

  /** `CleanString`: empty stays empty; otherwise trim, drop a leading and a
      trailing triple quote, then a leading and a trailing quote, turn each
      backslash-n into a newline and trim again. */
  function CleanString(s: string): (r: string)
    ensures r == [] || (!IsWhiteSpace(r[0]) && !IsWhiteSpace(r[|r| - 1]))
    ensures !HasEscapedNewline(r)
  {
    if s == [] then []
    else
      var t := ReplaceEscapedNewlines(StripQuotes(Trim(s)));
      TrimKeepsNoEscape(t);
      Trim(t)
  }

  /** The four quote removals of `CleanString`, in order. */
  function StripQuotes(t0: string): (r: string)
    ensures |r| <= |t0|
  {
    var t1 := if |t0| >= 3 && t0[..3] == TripleQuote then t0[3..] else t0;
    var t2 := if |t1| >= 3 && t1[|t1| - 3..] == TripleQuote then t1[..|t1| - 3] else t1;
    var t3 := if |t2| >= 1 && t2[0] == '"' then t2[1..] else t2;
    if |t3| >= 1 && t3[|t3| - 1] == '"' then t3[..|t3| - 1] else t3
  }

  /** Trimming cannot create a backslash-n pair. */
  lemma TrimKeepsNoEscape(s: string)
    requires !HasEscapedNewline(s)
    ensures !HasEscapedNewline(Trim(s))
  {
    InfixKeepsNoEscape(s, TrimStart(s), TrimEnd(s));
  }

  lemma InfixKeepsNoEscape(s: string, a: nat, b: nat)
    requires a <= b <= |s| && !HasEscapedNewline(s)
    ensures !HasEscapedNewline(s[a..b])
  {
    var r := s[a..b];
    forall i | 0 <= i < |r| - 1
      ensures !(r[i] == '\\' && r[i + 1] == 'n')
    {
      assert r[i] == s[a + i] && r[i + 1] == s[a + i + 1];
    }
  }

  lemma {:induction false} NoBackslashUnchanged(s: string)
    requires '\\' !in s
    ensures ReplaceEscapedNewlines(s) == s
  {
    if s != [] {
      NoBackslashUnchanged(s[1..]);
      assert [s[0]] + s[1..] == s;
    }
  }

  /** Text that is already clean (no surrounding white space or quotes, no
      backslash) passes through unchanged. */
  lemma CleanTextUnchanged(s: string)
    requires s != [] && '\\' !in s
    requires !IsWhiteSpace(s[0]) && !IsWhiteSpace(s[|s| - 1]) && s[0] != '"' && s[|s| - 1] != '"'
    ensures CleanString(s) == s
  {
    TrimUnchanged(s);
    StripQuotesUnchanged(s);
    NoBackslashUnchanged(s);
    assert CleanString(s) == Trim(ReplaceEscapedNewlines(StripQuotes(Trim(s))));
  }

  /** Quote-free text passes the quote removals unchanged. */
  lemma StripQuotesWithoutQuotes(t: string)
    requires '"' !in t
    ensures StripQuotes(t) == t
  {
    if |t| >= 3 {
      assert t[..3] != TripleQuote by {
        assert t[..3][0] == t[0];
      }
      assert t[|t| - 3..] != TripleQuote by {
        assert t[|t| - 3..][2] == t[|t| - 1];
      }
    }
  }

  /** The fields the splitter returns hold no quote, so on them the quote
      removals of `CleanString` never apply: cleaning a field only trims it
      and turns backslash-n into newlines. */
  lemma CleanFieldOnlyTrims(line: string, k: nat)
    requires k < |ParseCSV(line)|
    ensures var f := ParseCSV(line)[k];
      CleanString(f) == if f == [] then [] else Trim(ReplaceEscapedNewlines(Trim(f)))
  {
    var f := ParseCSV(line)[k];
    FieldsHaveNoQuotes(line);
    assert '"' !in f;
    if f != [] {
      var t := Trim(f);
      assert '"' !in t by {
        forall i | 0 <= i < |t| ensures t[i] != '"' {
          assert t[i] == f[TrimStart(f) + i];
        }
      }
      StripQuotesWithoutQuotes(t);
    }
  }

  lemma StripQuotesUnchanged(s: string)
    requires s != [] && s[0] != '"' && s[|s| - 1] != '"'
    ensures StripQuotes(s) == s
  {
    if |s| >= 3 {
      assert s[..3] != TripleQuote by {
        assert s[..3][0] == s[0];
      }
      assert s[|s| - 3..] != TripleQuote by {
        assert s[|s| - 3..][2] == s[|s| - 1];
      }
    }
  }

  // ------------------------------------------------------------------ nodes

  /** `DialogueNode`; a missing choice text is `None` (a C# null). */
  datatype DialogueNode = DialogueNode(
    id: int, kind: DialogueType, imagePath: string, name: string, text: string,
    choiceTexts: seq<Option<string>>, choiceNextIDs: seq<int>, correctChoiceIndex: int,
    minValue: int, maxValue: int, nextDialogueID: int)

  /** The three choice slots every node is created with. */
  predicate Shaped(n: DialogueNode)
  {
    |n.choiceTexts| == 3 && |n.choiceNextIDs| == 3
  }

  function NewNode(id: int, kind: DialogueType, imagePath: string, name: string, text: string): (n: DialogueNode)
    ensures Shaped(n)
  {
    DialogueNode(id, kind, imagePath, name, text, [None, None, None], [0, 0, 0], 0, 0, 0, 0)
  }

  /** What the loader does with one row: skip it, add a node, or throw. */
  datatype RowOutcome = Skip | Add(node: DialogueNode) | Throws

  /** Choice slot `j` is read when both of its fields exist and its text is not empty. */
  predicate SlotFilled(values: seq<string>, j: nat)
  {
    6 + 2 * j < |values| && values[5 + 2 * j] != []
  }

  /** A filled slot whose target id parses and is below the threshold. */
  predicate Correctable(values: seq<string>, j: nat)
  {
    SlotFilled(values, j) && ParseInt32(values[6 + 2 * j]).Some? && ParseInt32(values[6 + 2 * j]).value < DialogueThresholdId
  }

  /** Every filled slot below `j` has a target id that parses. */
  predicate SlotsParseBelow(values: seq<string>, j: nat)
  {
    j == 0 || (SlotsParseBelow(values, j - 1) && (SlotFilled(values, j - 1) ==> ParseInt32(values[6 + 2 * (j - 1)]).Some?))
  }

  /** Every filled slot's target id parses; otherwise `int.Parse` throws. */
  predicate SlotsParse(values: seq<string>)
  {
    SlotsParseBelow(values, 3)
  }

  /** The text a slot holds: the cleaned text when filled, null otherwise. */
  function SlotText(values: seq<string>, j: nat): Option<string>
  {
    if SlotFilled(values, j) then Some(CleanString(values[5 + 2 * j])) else None
  }

  /** The target id a slot holds: the parsed id when filled, 0 otherwise. */
  function SlotNext(values: seq<string>, j: nat): int
  {
    if SlotFilled(values, j) && ParseInt32(values[6 + 2 * j]).Some? then ParseInt32(values[6 + 2 * j]).value else 0
  }

  /** The choice texts after the slots below `j` are read. */
  function TextsBelow(values: seq<string>, j: nat): (r: seq<Option<string>>)
    requires j <= 3
    ensures |r| == 3
  {
    if j == 0 then [None, None, None] else TextsBelow(values, j - 1)[j - 1 := SlotText(values, j - 1)]
  }

  /** The choice target ids after the slots below `j` are read. */
  function NextsBelow(values: seq<string>, j: nat): (r: seq<int>)
    requires j <= 3
    ensures |r| == 3
  {
    if j == 0 then [0, 0, 0] else NextsBelow(values, j - 1)[j - 1 := SlotNext(values, j - 1)]
  }

  /** The correct-choice index the loop has reached after the slots below `j`:
      the latest correctable one, 0 when there is none. */
  function CorrectBelow(values: seq<string>, j: nat): (k: nat)
    ensures k < j || k == 0
  {
    if j == 0 then 0
    else if Correctable(values, j - 1) then j - 1
    else CorrectBelow(values, j - 1)
  }

  /** A choice row's node: the three slots and the correct choice. */
  function ChoiceNode(values: seq<string>, node: DialogueNode): (n: DialogueNode)
    ensures Shaped(n) && n.id == node.id && n.kind == node.kind
  {
    node.(choiceTexts := TextsBelow(values, 3), choiceNextIDs := NextsBelow(values, 3),
          correctChoiceIndex := CorrectBelow(values, 3))
  }

  /** `dialogueID + 1` in 32-bit arithmetic. */
  function NextId(id: int): int
  {
    if id == MaxInt32 then MinInt32 else id + 1
  }

  /** One row of the loader, the header and blank lines aside: a row with
      fewer than five fields, or whose id or type does not parse, is skipped. */
  function ParseRow(values: seq<string>): (r: RowOutcome)
    ensures r != Skip ==> |values| >= 5
    ensures r.Add? ==> Shaped(r.node) && ParseInt32(values[0]) == Some(r.node.id) && ParseType(values[1]) == Some(r.node.kind)
  {
    if |values| < 5 then Skip
    else match ParseInt32(values[0])
      case None => Skip
      case Some(id) =>
        match ParseType(values[1])
        case None => Skip
        case Some(kind) => BuildRow(values, id, kind)
  }

  /** The node a row with a parsed id and type becomes. */
  function BuildRow(values: seq<string>, id: int, kind: DialogueType): (r: RowOutcome)
    requires |values| >= 5
    ensures r != Skip
    ensures r.Add? ==> Shaped(r.node) && r.node.id == id && r.node.kind == kind
  {
    var node := NewNode(id, kind, CleanString(values[2]), CleanString(values[3]), CleanString(values[4]));
    if kind == Choice then
      if SlotsParse(values) then Add(ChoiceNode(values, node)) else Throws
    else if kind == NumberChoice then
      match NumberFields(values)
      case None => Throws
      case Some(f) => Add(node.(minValue := f.0, maxValue := f.1, choiceNextIDs := [f.2, f.3, 0]))
    else if kind == Dialogue || kind == Advice then Add(node.(nextDialogueID := NextId(id)))
    else Add(node)
  }

  /** A number choice's minimum, maximum, and the targets below and at the
      maximum; `None` when a field is missing or `int.Parse` throws. */
  function NumberFields(values: seq<string>): (r: Option<(int, int, int, int)>)
    ensures r.Some? ==> |values| >= 9
  {
    if |values| < 9 then None
    else
      var lo := ParseInt32(CleanString(values[5]));
      var hi := ParseInt32(CleanString(values[7]));
      var n0 := ParseInt32(values[6]);
      var n1 := ParseInt32(values[8]);
      if lo.None? || hi.None? || n0.None? || n1.None? then None
      else Some((lo.value, hi.value, n0.value, n1.value))
  }

  /** The loader from line `i` on; `None` when it throws. */
  function LoadLines(lines: seq<string>, i: nat, acc: map<int, DialogueNode>): (r: Option<map<int, DialogueNode>>)
    ensures r.Some? ==> forall k :: k in acc ==> k in r.value && r.value[k] == acc[k]
    decreases |lines| - i
  {
    if i >= |lines| then Some(acc)
    else if IsNullOrWhiteSpace(lines[i]) then LoadLines(lines, i + 1, acc)
    else match ParseRow(ParseCSV(lines[i]))
      case Skip => LoadLines(lines, i + 1, acc)
      case Throws => None
      case Add(n) => if n.id in acc then None else LoadLines(lines, i + 1, acc[n.id := n])
  }

  /** `LoadDialogueData`: a missing file gives an empty table; line 0 is the header. */
  function LoadTable(csv: Option<string>): (r: Option<map<int, DialogueNode>>)
    ensures csv.None? ==> r == Some(map[])
    ensures csv.Some? && |Split(csv.value, '\n')| <= 1 ==> r == Some(map[])
  {
    if csv.None? then Some(map[]) else LoadLines(Split(csv.value, '\n'), 1, map[])
  }

  /** Every node the loader keeps is stored under its own id and has three choice slots. */
  predicate TableValid(m: map<int, DialogueNode>)
  {
    forall k :: k in m ==> m[k].id == k && Shaped(m[k])
  }

  // ------------------------------------------------------------------ loader lemmas

  /** A row is skipped exactly when it has fewer than five fields or its id or
      type does not parse. */
  lemma SkipIff(values: seq<string>)
    ensures ParseRow(values) == Skip <==>
      |values| < 5 || ParseInt32(values[0]).None? || ParseType(values[1]).None?
  {
    RowHeader(values);
  }

  /** A row that is not skipped is built from its parsed id and type. */
  lemma RowHeader(values: seq<string>)
    ensures ParseRow(values) != Skip ==>
      && |values| >= 5 && ParseInt32(values[0]).Some? && ParseType(values[1]).Some?
      && ParseRow(values) == BuildRow(values, ParseInt32(values[0]).value, ParseType(values[1]).value)
  {
  }

  /** Dialogue and Advice rows continue at the next id. */
  lemma LinesContinueAtNextId(values: seq<string>)
    requires ParseRow(values).Add? && ParseRow(values).node.kind in {Dialogue, Advice}
    ensures ParseRow(values).node.nextDialogueID == NextId(ParseRow(values).node.id)
  {
    RowHeader(values);
  }

  /** A number-choice row needs all of fields 5 to 8, as integers: it is
      added exactly when they are there and parse, and otherwise the loader
      throws; the node takes them as minimum, first target, maximum and
      second target. */
  lemma NumberChoiceFields(values: seq<string>, id: int)
    requires |values| >= 5
    ensures var r := BuildRow(values, id, NumberChoice);
      && (r.Add? || r.Throws?)
      && (r.Add? <==>
            && |values| >= 9
            && ParseInt32(CleanString(values[5])).Some?
            && ParseInt32(CleanString(values[7])).Some?
            && ParseInt32(values[6]).Some?
            && ParseInt32(values[8]).Some?)
    ensures var r := BuildRow(values, id, NumberChoice);
      r.Add? ==>
        && |values| >= 9
        && ParseInt32(CleanString(values[5])) == Some(r.node.minValue)
        && ParseInt32(CleanString(values[7])) == Some(r.node.maxValue)
        && ParseInt32(values[6]) == Some(r.node.choiceNextIDs[0])
        && ParseInt32(values[8]) == Some(r.node.choiceNextIDs[1])
  {
  }

  lemma {:induction false} CorrectBelowIsLast(values: seq<string>, j: nat)
    ensures var k := CorrectBelow(values, j);
      && (k == 0 || Correctable(values, k))
      && (forall i: nat :: i < j && Correctable(values, i) ==> i <= k)
  {
    if j > 0 && !Correctable(values, j - 1) {
      CorrectBelowIsLast(values, j - 1);
    }
  }

  /** A choice row's correct index is the last filled slot whose target id is
      below the threshold, or 0 when there is none. */
  lemma CorrectChoiceIsLastContinuing(values: seq<string>)
    requires ParseRow(values).Add? && ParseRow(values).node.kind == Choice
    ensures var n := ParseRow(values).node;
      && 0 <= n.correctChoiceIndex < 3
      && (n.correctChoiceIndex == 0 || Correctable(values, n.correctChoiceIndex))
      && (forall i: nat :: i < 3 && Correctable(values, i) ==> i <= n.correctChoiceIndex)
  {
    RowHeader(values);
    CorrectBelowIsLast(values, 3);
  }

  lemma {:induction false} LoadLinesValid(lines: seq<string>, i: nat, acc: map<int, DialogueNode>)
    requires TableValid(acc) && LoadLines(lines, i, acc).Some?
    ensures TableValid(LoadLines(lines, i, acc).value)
    ensures forall k :: k in acc ==> k in LoadLines(lines, i, acc).value
    decreases |lines| - i
  {
    if i < |lines| {
      if IsNullOrWhiteSpace(lines[i]) {
        LoadLinesValid(lines, i + 1, acc);
      } else {
        match ParseRow(ParseCSV(lines[i]))
        case Skip => LoadLinesValid(lines, i + 1, acc);
        case Throws =>
        case Add(n) =>
          RowHeader(ParseCSV(lines[i]));
          LoadLinesValid(lines, i + 1, acc[n.id := n]);
      }
    }
  }

  /** A loaded table keys every node by its own id, each with three choice slots. */
  lemma LoadedTableValid(csv: Option<string>)
    requires LoadTable(csv).Some?
    ensures TableValid(LoadTable(csv).value)
  {
    if csv.Some? {
      LoadLinesValid(Split(csv.value, '\n'), 1, map[]);
    }
  }

  /** `LoadDialogueData`'s choice loop over a freshly created node; `None`
      when `int.Parse` throws. */
  method ParseChoices(values: seq<string>, node: DialogueNode) returns (r: Option<DialogueNode>)
    requires node.choiceTexts == [None, None, None] && node.choiceNextIDs == [0, 0, 0] && node.correctChoiceIndex == 0
    ensures r == if SlotsParse(values) then Some(ChoiceNode(values, node)) else None
  {
    var texts := node.choiceTexts;
    var nexts := node.choiceNextIDs;
    var correct := node.correctChoiceIndex;
    var j := 0;
    while j < 3
      invariant 0 <= j <= 3
      invariant SlotsParseBelow(values, j)
      invariant texts == TextsBelow(values, j) && nexts == NextsBelow(values, j)
      invariant correct == CorrectBelow(values, j)
    {
      var choiceTextIndex := 5 + 2 * j;
      var choiceNextIndex := 6 + 2 * j;
      SlotStep(values, j);
      if choiceTextIndex < |values| && choiceNextIndex < |values| && values[choiceTextIndex] != [] {
        var next := ParseInt32(values[choiceNextIndex]);
        if next.None? {
          NotParsedAbove(values, j + 1, 3);
          return None;
        }
        texts := texts[j := Some(CleanString(values[choiceTextIndex]))];
        nexts := nexts[j := next.value];
        if next.value < DialogueThresholdId {
          correct := j;
        }
      }
      j := j + 1;
    }
    return Some(node.(choiceTexts := texts, choiceNextIDs := nexts, correctChoiceIndex := correct));
  }

  /** What reading slot `j` adds. */
  lemma SlotStep(values: seq<string>, j: nat)
    requires j < 3
    ensures SlotsParseBelow(values, j + 1) == (SlotsParseBelow(values, j) && (SlotFilled(values, j) ==> ParseInt32(values[6 + 2 * j]).Some?))
    ensures TextsBelow(values, j + 1) == TextsBelow(values, j)[j := SlotText(values, j)]
    ensures NextsBelow(values, j + 1) == NextsBelow(values, j)[j := SlotNext(values, j)]
    ensures CorrectBelow(values, j + 1) == if Correctable(values, j) then j else CorrectBelow(values, j)
  {
  }

  lemma {:induction false} NotParsedAbove(values: seq<string>, j: nat, k: nat)
    requires j <= k && !SlotsParseBelow(values, j)
    ensures !SlotsParseBelow(values, k)
    decreases k
  {
    if k > j {
      NotParsedAbove(values, j, k - 1);
    }
  }
}
