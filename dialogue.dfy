/** The dialogue manager: loads a stage's dialogue table, shows lines, list
    choices and number choices, and walks the conversation as the input manager
    calls it.  Its state is `DState`; each public operation is a method of
    `DialogueManager` proved against a function over `(DState, Mode)`, `Mode`
    being the input manager's state, which `EndDialogue(true)` and the start
    operations change. */
module Dialogue {
  import opened Common
  import opened Text
  import opened DialogueTable
  import GameEnums
  import Input

  /** A callback invocation: `OnWrongChoice(text)` or `OnDialogueEnd()`. */
  datatype Event = WrongChoice(text: string) | DialogueEnded

  /** Whether an operation returned or threw (a missing key in the table, or a
      choice index outside the three slots). */
  datatype Outcome = Done | Threw

  datatype DState = DState(
    data: map<int, DialogueNode>, currentId: int, choiceIndex: int, activeChoices: int,
    numberValue: int, numberMin: int, numberMax: int, numberNode: Option<DialogueNode>,
    showingChoice: bool, numberChoice: bool, active: bool, events: seq<Event>)

  /** The table keys every node by its id with three choice slots; a number
      choice is a choice and has its node; the list cursor stays on an active
      slot (or at -1 or 0 when no slot is active). */
  predicate Valid(d: DState)
  {
    && TableValid(d.data)
    && (d.numberChoice ==> d.showingChoice && d.numberNode.Some? && Shaped(d.numberNode.value))
    && 0 <= d.activeChoices <= 3
    && (d.showingChoice && !d.numberChoice ==>
          if d.activeChoices > 0 then 0 <= d.choiceIndex < d.activeChoices else -1 <= d.choiceIndex <= 0)
  }

  /** The state `Awake` leaves (the table is null until the first load, here empty). */
  const Initial: DState := DState(map[], 0, 0, 0, 0, 0, 0, None, false, false, false, [])

  /** `EndDialogue(returnToGame)`. */
  function EndSpec(d: DState, m: Input.Mode, returnToGame: bool): (DState, Input.Mode)
  {
    (d.(active := false, showingChoice := false, numberChoice := false),
     if returnToGame then Input.SetStateSpec(m, GameEnums.Playing, GameEnums.NoUI) else m)
  }

  /** The number of slots with a non-empty text. */
  function ActiveCount(texts: seq<Option<string>>): (n: nat)
    ensures n <= |texts|
  {
    if texts == [] then 0
    else ActiveCount(texts[..|texts| - 1]) + (if texts[|texts| - 1].Some? && texts[|texts| - 1].value != [] then 1 else 0)
  }

  /** `ShowChoices(node)`. */
  function ShowChoicesSpec(d: DState, node: DialogueNode): DState
    requires Shaped(node)
  {
    d.(showingChoice := true, numberChoice := false, choiceIndex := 0, activeChoices := ActiveCount(node.choiceTexts))
  }

  /** `ShowNumberChoice(node)`. */
  function ShowNumberSpec(d: DState, node: DialogueNode): DState
  {
    d.(showingChoice := true, numberChoice := true, numberMin := node.minValue, numberMax := node.maxValue,
       numberValue := node.minValue, numberNode := Some(node))
  }

  /** `ShowDialogue(id)`. */
  function ShowSpec(d: DState, m: Input.Mode, id: int): (DState, Input.Mode)
    requires TableValid(d.data)
  {
    if id !in d.data then EndSpec(d, m, false)
    else
      var node := d.data[id];
      if node.kind == Choice then (ShowChoicesSpec(d, node), m)
      else if node.kind == NumberChoice then (ShowNumberSpec(d, node), m)
      else if node.kind == GameOver then
        var e := EndSpec(d, m, false);
        (e.0.(events := e.0.events + [WrongChoice(node.text)]), e.1)
      else (d.(showingChoice := false, numberChoice := false), m)
  }

  /** `AdvanceDialogue`, with the return-to-game flag of the call that ends an
      advice at a non-advice line as a parameter: `false` as written,
      `true` as intended. */
  function AdvanceWith(d: DState, m: Input.Mode, adviceExitReturns: bool): (DState, Input.Mode, Outcome)
    requires TableValid(d.data)
  {
    if d.showingChoice then (d, m, Done)
    else if d.currentId !in d.data then (d, m, Threw)
    else
      var node := d.data[d.currentId];
      if node.kind == Dialogue || node.kind == Advice then
        if node.nextDialogueID in d.data then
          if node.kind == Advice && d.data[node.nextDialogueID].kind != Advice then
            var e := EndSpec(d, m, adviceExitReturns);
            (e.0, e.1, Done)
          else
            var s := ShowSpec(d.(currentId := node.nextDialogueID), m, node.nextDialogueID);
            (s.0, s.1, Done)
        else
          var e := EndSpec(d, m, node.kind == Advice);
          (e.0, e.1, Done)
      else if node.kind == Success then
        var e := EndSpec(d, m, false);
        (e.0.(events := e.0.events + [DialogueEnded]), e.1, Done)
      else (d, m, Done)
  }

  /** `AdvanceDialogue` as written. */
  function AdvanceAsWritten(d: DState, m: Input.Mode): (DState, Input.Mode, Outcome)
    requires TableValid(d.data)
  {
    AdvanceWith(d, m, false)
  }

  /** `AdvanceDialogue` with the advice exit returning to the game. */
  function Advance(d: DState, m: Input.Mode): (DState, Input.Mode, Outcome)
    requires TableValid(d.data)
  {
    AdvanceWith(d, m, true)
  }

  /** `MoveChoiceSelection(direction)`: a wrapping cursor over the active slots. */
  function MoveSpec(d: DState, direction: int): DState
  {
    if !d.showingChoice || d.numberChoice then d
    else
      var i := d.choiceIndex + direction;
      d.(choiceIndex := if i < 0 then d.activeChoices - 1 else if i >= d.activeChoices then 0 else i)
  }

  /** `SelectChoice`: right and wrong choices alike go to the slot's target id. */
  function SelectSpec(d: DState, m: Input.Mode): (DState, Input.Mode, Outcome)
    requires TableValid(d.data)
  {
    if !d.showingChoice || d.numberChoice then (d, m, Done)
    else if d.currentId !in d.data || !(0 <= d.choiceIndex < 3) then (d, m, Threw)
    else
      var next := d.data[d.currentId].choiceNextIDs[d.choiceIndex];
      var s := ShowSpec(d.(currentId := next, showingChoice := false), m, next);
      (s.0, s.1, Done)
  }

  /** `ChangeNumberValue(delta)`: the value moves by `delta`, clamped to the range. */
  function ChangeNumberSpec(d: DState, delta: int): DState
  {
    if !d.numberChoice then d
    else
      var v := d.numberValue + delta;
      d.(numberValue := if v < d.numberMin then d.numberMin else if v > d.numberMax then d.numberMax else v)
  }

  /** `SelectNumberChoice`: the maximum takes the second target, any other value the first. */
  function SelectNumberSpec(d: DState, m: Input.Mode): (DState, Input.Mode)
    requires Valid(d)
  {
    if !d.numberChoice then (d, m)
    else
      var node := d.numberNode.value;
      var next := if d.numberValue == d.numberMax then node.choiceNextIDs[1] else node.choiceNextIDs[0];
      ShowSpec(d.(numberChoice := false, showingChoice := false, currentId := next), m, next)
  }

  /** `StartDialogue`/`StartAdvice` once the table is loaded: nothing more for
      an empty table, otherwise the start line is shown and the input manager
      enters the UI state with the given subtype. */
  function StartSpec(d: DState, m: Input.Mode, table: map<int, DialogueNode>, startId: int, ui: GameEnums.UIType): (DState, Input.Mode)
    requires TableValid(table)
  {
    var d1 := d.(data := table);
    if |table| == 0 then (d1, m)
    else
      var s := ShowSpec(d1.(currentId := startId, active := true), m, startId);
      (s.0, Input.SetStateSpec(s.1, GameEnums.UI, ui))
  }

  // ------------------------------------------------------------------ showing

  /** Showing a line never hands control back to the game. */
  lemma ShowKeepsMode(d: DState, m: Input.Mode, id: int)
    requires TableValid(d.data)
    ensures ShowSpec(d, m, id).1 == m
    ensures ShowSpec(d, m, id).0.data == d.data && ShowSpec(d, m, id).0.currentId == d.currentId
  {
  }

  /** A missing id ends the dialogue; a game-over line ends it and reports its
      text; a list choice puts the cursor on slot 0 over the non-empty texts; a
      number choice starts at its minimum; any other line clears both choice flags. */
  lemma ShowOutcome(d: DState, m: Input.Mode, id: int)
    requires TableValid(d.data)
    ensures var r := ShowSpec(d, m, id).0;
      && (id !in d.data ==> !r.active && !r.showingChoice && !r.numberChoice && r.events == d.events)
      && (id in d.data && d.data[id].kind == GameOver ==>
            !r.active && !r.showingChoice && r.events == d.events + [WrongChoice(d.data[id].text)])
      && (id in d.data && d.data[id].kind == Choice ==>
            r.showingChoice && !r.numberChoice && r.choiceIndex == 0 && r.activeChoices == ActiveCount(d.data[id].choiceTexts))
      && (id in d.data && d.data[id].kind == NumberChoice ==>
            r.showingChoice && r.numberChoice && r.numberValue == r.numberMin == d.data[id].minValue
            && r.numberMax == d.data[id].maxValue && r.numberNode == Some(d.data[id]))
      && (id in d.data && d.data[id].kind !in {Choice, NumberChoice, GameOver} ==>
            !r.showingChoice && !r.numberChoice && r.active == d.active && r.events == d.events)
  {
  }

  lemma ShowPreservesValid(d: DState, m: Input.Mode, id: int)
    requires Valid(d)
    ensures Valid(ShowSpec(d, m, id).0)
  {
    if id in d.data && d.data[id].kind == Choice {
      var c := ActiveCount(d.data[id].choiceTexts);
      assert c <= 3;
    }
  }

  // ------------------------------------------------------------------ advancing

  /** While a choice is shown, advancing does nothing. */
  lemma AdvanceBlockedByChoice(d: DState, m: Input.Mode, fix: bool)
    requires TableValid(d.data) && d.showingChoice
    ensures AdvanceWith(d, m, fix) == (d, m, Done)
  {
  }

  /** Advancing throws exactly when no choice is shown and the current id has no line. */
  lemma AdvanceThrowsIff(d: DState, m: Input.Mode, fix: bool)
    requires TableValid(d.data)
    ensures AdvanceWith(d, m, fix).2 == Threw <==> !d.showingChoice && d.currentId !in d.data
  {
  }

  /** A plain line with a successor shows the successor; the mode is unchanged. */
  lemma AdvanceToNextLine(d: DState, m: Input.Mode, fix: bool)
    requires TableValid(d.data) && !d.showingChoice && d.currentId in d.data
    requires d.data[d.currentId].kind == Dialogue && d.data[d.currentId].nextDialogueID in d.data
    ensures var next := d.data[d.currentId].nextDialogueID;
      AdvanceWith(d, m, fix) == (ShowSpec(d.(currentId := next), m, next).0, m, Done)
  {
    var next := d.data[d.currentId].nextDialogueID;
    ShowKeepsMode(d.(currentId := next), m, next);
  }

  /** A success line ends the dialogue and reports the end; the game is not resumed here. */
  lemma AdvanceAtSuccess(d: DState, m: Input.Mode, fix: bool)
    requires TableValid(d.data) && !d.showingChoice && d.currentId in d.data
    requires d.data[d.currentId].kind == Success
    ensures var r := AdvanceWith(d, m, fix);
      && !r.0.active && r.0.events == d.events + [DialogueEnded] && r.1 == m && r.2 == Done
  {
  }

  lemma AdvancePreservesValid(d: DState, m: Input.Mode, fix: bool)
    requires Valid(d)
    ensures Valid(AdvanceWith(d, m, fix).0)
  {
    if !d.showingChoice && d.currentId in d.data {
      var node := d.data[d.currentId];
      if (node.kind == Dialogue || node.kind == Advice) && node.nextDialogueID in d.data {
        ShowPreservesValid(d.(currentId := node.nextDialogueID), m, node.nextDialogueID);
      }
    }
  }

  /** As written: an advice line followed by a non-advice line ends the advice
      without returning to the game, so the input manager stays in the advice
      UI; the next confirm advances from the same line and ends it again, and
      no frame of input asks for a restart there. */
  lemma AdviceExitStrandsInput(f: Input.Frame, threshold: real, view: Input.View)
    ensures var adviceLine := NewNode(201, Advice, "", "", "").(nextDialogueID := 202);
      var nextLine := NewNode(202, Dialogue, "", "", "").(nextDialogueID := 203);
      var d := Initial.(data := map[201 := adviceLine, 202 := nextLine], currentId := 201, active := true);
      var m := Input.Mode(GameEnums.UI, GameEnums.Advice, true, false);
      var r := AdvanceAsWritten(d, m);
      && r.1 == m && !r.0.active
      && AdvanceAsWritten(r.0, r.1) == r
      && Input.RestartStage !in Input.Step(r.1, f, threshold, view, []).1
  {
  }

  /** Corrected: advancing from an advice line either stays in the advice on
      its next advice line or returns the input manager to play. */
  lemma AdviceExitReturnsToGame(d: DState, m: Input.Mode)
    requires TableValid(d.data) && !d.showingChoice && d.currentId in d.data
    requires d.data[d.currentId].kind == Advice
    ensures var r := Advance(d, m); var next := d.data[d.currentId].nextDialogueID;
      || (r.1 == Input.SetStateSpec(m, GameEnums.Playing, GameEnums.NoUI) && !r.0.active)
      || (next in d.data && d.data[next].kind == Advice && r.0.currentId == next && r.1 == m && r.0.active == d.active)
  {
  }

  // ------------------------------------------------------------------ choices

  /** On a shown list with active slots the cursor wraps around them. */
  lemma MoveWraps(d: DState, direction: int)
    requires Valid(d) && d.showingChoice && !d.numberChoice && d.activeChoices > 0
    requires direction == 1 || direction == -1
    ensures MoveSpec(d, direction).choiceIndex == (d.choiceIndex + direction) % d.activeChoices
  {
  }

  /** The cursor stays on an active slot whatever the step, and moves only while a list is shown. */
  lemma MoveStaysInRange(d: DState, direction: int)
    requires Valid(d)
    ensures Valid(MoveSpec(d, direction))
    ensures !d.showingChoice || d.numberChoice ==> MoveSpec(d, direction) == d
  {
  }

  /** Selecting on a shown list whose line is present and has an active slot
      goes to that slot's target id without throwing. */
  lemma SelectOnActiveSlot(d: DState, m: Input.Mode)
    requires Valid(d) && d.showingChoice && !d.numberChoice && d.currentId in d.data && d.activeChoices > 0
    ensures var r := SelectSpec(d, m);
      && r.2 == Done && r.1 == m
      && r.0.currentId == d.data[d.currentId].choiceNextIDs[d.choiceIndex]
  {
    var next := d.data[d.currentId].choiceNextIDs[d.choiceIndex];
    ShowKeepsMode(d.(currentId := next, showingChoice := false), m, next);
  }

  /** Selecting throws only with no active slot after the cursor moved up to -1
      (or with the current line missing). */
  lemma SelectThrowsOnlyOffTheList(d: DState, m: Input.Mode)
    requires Valid(d)
    ensures SelectSpec(d, m).2 == Threw ==>
      d.showingChoice && !d.numberChoice && (d.currentId !in d.data || (d.activeChoices == 0 && d.choiceIndex == -1))
  {
  }

  lemma SelectPreservesValid(d: DState, m: Input.Mode)
    requires Valid(d)
    ensures Valid(SelectSpec(d, m).0)
  {
    if d.showingChoice && !d.numberChoice && d.currentId in d.data && 0 <= d.choiceIndex < 3 {
      var next := d.data[d.currentId].choiceNextIDs[d.choiceIndex];
      ShowPreservesValid(d.(currentId := next, showingChoice := false), m, next);
    }
  }

  /** The number stays within its range, moves by exactly `delta` when that
      stays within it, and changes only while a number choice is shown. */
  lemma ChangeNumberClamps(d: DState, delta: int)
    requires d.numberMin <= d.numberMax
    ensures var v := ChangeNumberSpec(d, delta).numberValue;
      && (d.numberChoice ==> d.numberMin <= v <= d.numberMax)
      && (d.numberChoice && d.numberMin <= d.numberValue + delta <= d.numberMax ==> v == d.numberValue + delta)
      && (!d.numberChoice ==> v == d.numberValue)
    ensures ChangeNumberSpec(d, delta) == d.(numberValue := ChangeNumberSpec(d, delta).numberValue)
  {
  }

  /** Confirming a number goes to the second target exactly at the maximum. */
  lemma SelectNumberBranches(d: DState, m: Input.Mode)
    requires Valid(d) && d.numberChoice
    ensures var r := SelectNumberSpec(d, m);
      && r.1 == m
      && r.0.currentId == (if d.numberValue == d.numberMax then d.numberNode.value.choiceNextIDs[1] else d.numberNode.value.choiceNextIDs[0])
  {
    var node := d.numberNode.value;
    var next := if d.numberValue == d.numberMax then node.choiceNextIDs[1] else node.choiceNextIDs[0];
    ShowKeepsMode(d.(numberChoice := false, showingChoice := false, currentId := next), m, next);
  }

  lemma SelectNumberPreservesValid(d: DState, m: Input.Mode)
    requires Valid(d)
    ensures Valid(SelectNumberSpec(d, m).0)
  {
    if d.numberChoice {
      var node := d.numberNode.value;
      var next := if d.numberValue == d.numberMax then node.choiceNextIDs[1] else node.choiceNextIDs[0];
      ShowPreservesValid(d.(numberChoice := false, showingChoice := false, currentId := next), m, next);
    }
  }

  // ------------------------------------------------------------------ starting

  /** With a non-empty table the dialogue is active at the start id's line and
      the input manager is in the UI state with the given subtype. */
  lemma StartEntersUI(d: DState, m: Input.Mode, table: map<int, DialogueNode>, startId: int, ui: GameEnums.UIType)
    requires Valid(d) && TableValid(table) && |table| > 0 && ui != GameEnums.NoUI
    ensures var r := StartSpec(d, m, table, startId, ui);
      && Valid(r.0) && r.0.data == table && r.0.currentId == startId
      && r.1.state == GameEnums.UI && r.1.ui == ui
      && (startId in table && table[startId].kind !in {GameOver} ==> r.0.active)
  {
    var d1 := d.(data := table, currentId := startId, active := true);
    ShowPreservesValid(d1, m, startId);
    ShowKeepsMode(d1, m, startId);
  }

  // ------------------------------------------------------------------ the manager

  class DialogueManager
  {
    const input: Input.InputManager
    var currentDialogueData: map<int, DialogueNode>
    var currentDialogueID: int
    var currentChoiceIndex: int
    var activeChoiceCount: int
    var currentNumberValue: int
    var numberChoiceMin: int
    var numberChoiceMax: int
    var numberChoiceNode: Option<DialogueNode>
    var isShowingChoice: bool
    var isNumberChoice: bool
    var isActive: bool
    /** The callbacks invoked so far, in order. */
    var events: seq<Event>

    function State(): DState
      reads this
    {
      DState(currentDialogueData, currentDialogueID, currentChoiceIndex, activeChoiceCount,
             currentNumberValue, numberChoiceMin, numberChoiceMax, numberChoiceNode,
             isShowingChoice, isNumberChoice, isActive, events)
    }

    /** `Awake`, the panels and sprites aside. */
    constructor (input: Input.InputManager)
      ensures State() == Initial && this.input == input
    {
      this.input := input;
      currentDialogueData := map[];
      currentDialogueID := 0;
      currentChoiceIndex := 0;
      activeChoiceCount := 0;
      currentNumberValue := 0;
      numberChoiceMin := 0;
      numberChoiceMax := 0;
      numberChoiceNode := None;
      isShowingChoice := false;
      isNumberChoice := false;
      isActive := false;
      events := [];
    }

    /** `LoadDialogueData`: `csv` is the stage's table as `Resources.Load`
        returns it (`None` when there is no such file). */
    method LoadDialogueData(csv: Option<string>)
      modifies this
      requires LoadTable(csv).Some?
      ensures State() == old(State()).(data := LoadTable(csv).value)
    {
      currentDialogueData := map[];
      if csv.None? {
        return;
      }
      var lines := Split(csv.value, '\n');
      for i := 1 to |lines|
        invariant LoadLines(lines, i, currentDialogueData) == LoadTable(csv)
        invariant State() == old(State()).(data := currentDialogueData)
      {
        if IsNullOrWhiteSpace(lines[i]) {
          continue;
        }
        var values := ParseCSVLine(lines[i]);
        RowHeader(values);
        if |values| < 5 {
          continue;
        }
        var id := ParseInt32(values[0]);
        if id.None? {
          continue;
        }
        var kind := ParseType(values[1]);
        if kind.None? {
          continue;
        }
        var node := NewNode(id.value, kind.value, CleanString(values[2]), CleanString(values[3]), CleanString(values[4]));
        if kind.value == Choice {
          var parsed := ParseChoices(values, node);
          node := parsed.value;
        } else if kind.value == NumberChoice {
          var fields := NumberFields(values).value;
          node := node.(minValue := fields.0, maxValue := fields.1, choiceNextIDs := [fields.2, fields.3, 0]);
        } else if kind.value == Dialogue || kind.value == Advice {
          node := node.(nextDialogueID := NextId(id.value));
        }
        currentDialogueData := currentDialogueData[id.value := node];
      }
    }

    /** `EndDialogue(returnToGame)`. */
    method EndDialogue(returnToGame: bool)
      modifies this, input
      ensures (State(), input.Snapshot()) == EndSpec(old(State()), old(input.Snapshot()), returnToGame)
      ensures input.inputThreshold == old(input.inputThreshold)
    {
      isActive := false;
      isShowingChoice := false;
      isNumberChoice := false;
      if returnToGame {
        input.SetState(GameEnums.Playing, GameEnums.NoUI);
      }
    }

    /** `ShowChoices(node)`: counts the non-empty texts of the three slots. */
    method ShowChoices(node: DialogueNode)
      modifies this
      requires Shaped(node)
      ensures State() == ShowChoicesSpec(old(State()), node)
    {
      isShowingChoice := true;
      isNumberChoice := false;
      currentChoiceIndex := 0;
      activeChoiceCount := 0;
      for i := 0 to 3
        invariant activeChoiceCount == ActiveCount(node.choiceTexts[..i])
        invariant State() == ShowChoicesSpec(old(State()), node).(activeChoices := activeChoiceCount)
      {
        assert node.choiceTexts[..i + 1][..i] == node.choiceTexts[..i];
        if node.choiceTexts[i].Some? && node.choiceTexts[i].value != [] {
          activeChoiceCount := activeChoiceCount + 1;
        }
      }
      assert node.choiceTexts[..3] == node.choiceTexts;
    }

    /** `ShowNumberChoice(node)`. */
    method ShowNumberChoice(node: DialogueNode)
      modifies this
      ensures State() == ShowNumberSpec(old(State()), node)
    {
      isShowingChoice := true;
      isNumberChoice := true;
      numberChoiceMin := node.minValue;
      numberChoiceMax := node.maxValue;
      currentNumberValue := numberChoiceMin;
      numberChoiceNode := Some(node);
    }

    /** `ShowDialogue(dialogueID)`, the picture and name aside. */
    method ShowDialogue(dialogueID: int)
      modifies this, input
      requires TableValid(currentDialogueData)
      ensures (State(), input.Snapshot()) == ShowSpec(old(State()), old(input.Snapshot()), dialogueID)
      ensures input.inputThreshold == old(input.inputThreshold)
    {
      if dialogueID !in currentDialogueData {
        EndDialogue(false);
        return;
      }
      var node := currentDialogueData[dialogueID];
      if node.kind == Choice {
        ShowChoices(node);
      } else if node.kind == NumberChoice {
        ShowNumberChoice(node);
      } else if node.kind == GameOver {
        EndDialogue(false);
        events := events + [WrongChoice(node.text)];
      } else {
        isShowingChoice := false;
        isNumberChoice := false;
      }
    }

    /** `StartDialogue(stageNumber)` with the stage's table. */
    method StartDialogue(csv: Option<string>)
      modifies this, input
      requires LoadTable(csv).Some?
      ensures TableValid(LoadTable(csv).value)
      ensures (State(), input.Snapshot()) ==
        StartSpec(old(State()), old(input.Snapshot()), LoadTable(csv).value, DialogueStartId, GameEnums.Dialogue)
      ensures input.inputThreshold == old(input.inputThreshold)
    {
      Start(csv, DialogueStartId, GameEnums.Dialogue);
    }

    /** `StartAdvice(stageNumber)` with the stage's table. */
    method StartAdvice(csv: Option<string>)
      modifies this, input
      requires LoadTable(csv).Some?
      ensures TableValid(LoadTable(csv).value)
      ensures (State(), input.Snapshot()) ==
        StartSpec(old(State()), old(input.Snapshot()), LoadTable(csv).value, AdviceStartId, GameEnums.Advice)
      ensures input.inputThreshold == old(input.inputThreshold)
    {
      Start(csv, AdviceStartId, GameEnums.Advice);
    }

    /** The body `StartDialogue` and `StartAdvice` share. */
    method Start(csv: Option<string>, startId: int, ui: GameEnums.UIType)
      modifies this, input
      requires LoadTable(csv).Some?
      ensures TableValid(LoadTable(csv).value)
      ensures (State(), input.Snapshot()) == StartSpec(old(State()), old(input.Snapshot()), LoadTable(csv).value, startId, ui)
      ensures input.inputThreshold == old(input.inputThreshold)
    {
      LoadedTableValid(csv);
      LoadDialogueData(csv);
      if |currentDialogueData| == 0 {
        return;
      }
      currentDialogueID := startId;
      isActive := true;
      ShowDialogue(currentDialogueID);
      input.SetState(GameEnums.UI, ui);
    }

    /** `AdvanceDialogue`, with the advice exit returning to the game. */
    method AdvanceDialogue() returns (outcome: Outcome)
      modifies this, input
      requires TableValid(currentDialogueData)
      ensures (State(), input.Snapshot(), outcome) == Advance(old(State()), old(input.Snapshot()))
      ensures input.inputThreshold == old(input.inputThreshold)
    {
      if isShowingChoice {
        return Done;
      }
      if currentDialogueID !in currentDialogueData {
        return Threw;
      }
      var currentNode := currentDialogueData[currentDialogueID];
      if currentNode.kind == Dialogue || currentNode.kind == Advice {
        if currentNode.nextDialogueID in currentDialogueData {
          var nextNode := currentDialogueData[currentNode.nextDialogueID];
          if currentNode.kind == Advice && nextNode.kind != Advice {
            EndDialogue(true);
            return Done;
          }
          currentDialogueID := currentNode.nextDialogueID;
          ShowDialogue(currentDialogueID);
        } else {
          if currentNode.kind == Advice {
            EndDialogue(true);
          } else {
            EndDialogue(false);
          }
        }
      } else if currentNode.kind == Success {
        EndDialogue(false);
        events := events + [DialogueEnded];
      }
      return Done;
    }

    /** `MoveChoiceSelection(direction)`. */
    method MoveChoiceSelection(direction: int)
      modifies this
      ensures State() == MoveSpec(old(State()), direction)
    {
      if !isShowingChoice || isNumberChoice {
        return;
      }
      currentChoiceIndex := currentChoiceIndex + direction;
      if currentChoiceIndex < 0 {
        currentChoiceIndex := activeChoiceCount - 1;
      } else if currentChoiceIndex >= activeChoiceCount {
        currentChoiceIndex := 0;
      }
    }

    /** `SelectChoice`. */
    method SelectChoice() returns (outcome: Outcome)
      modifies this, input
      requires TableValid(currentDialogueData)
      ensures (State(), input.Snapshot(), outcome) == SelectSpec(old(State()), old(input.Snapshot()))
      ensures input.inputThreshold == old(input.inputThreshold)
    {
      if !isShowingChoice || isNumberChoice {
        return Done;
      }
      if currentDialogueID !in currentDialogueData || !(0 <= currentChoiceIndex < 3) {
        return Threw;
      }
      var currentNode := currentDialogueData[currentDialogueID];
      assert currentDialogueData[currentDialogueID].id == currentDialogueID;
      currentDialogueID := currentNode.choiceNextIDs[currentChoiceIndex];
      isShowingChoice := false;
      ShowDialogue(currentDialogueID);
      return Done;
    }

    /** `ChangeNumberValue(delta)`. */
    method ChangeNumberValue(delta: int)
      modifies this
      ensures State() == ChangeNumberSpec(old(State()), delta)
    {
      if !isNumberChoice {
        return;
      }
      currentNumberValue := currentNumberValue + delta;
      if currentNumberValue < numberChoiceMin {
        currentNumberValue := numberChoiceMin;
      } else if currentNumberValue > numberChoiceMax {
        currentNumberValue := numberChoiceMax;
      }
    }

    /** `SelectNumberChoice`. */
    method SelectNumberChoice()
      modifies this, input
      requires Valid(State())
      ensures (State(), input.Snapshot()) == SelectNumberSpec(old(State()), old(input.Snapshot()))
      ensures input.inputThreshold == old(input.inputThreshold)
    {
      if !isNumberChoice {
        return;
      }
      isNumberChoice := false;
      isShowingChoice := false;
      var nextID;
      if currentNumberValue == numberChoiceMax {
        nextID := numberChoiceNode.value.choiceNextIDs[1];
      } else {
        nextID := numberChoiceNode.value.choiceNextIDs[0];
      }
      currentDialogueID := nextID;
      ShowDialogue(currentDialogueID);
    }
  }
}
