/** The input manager: a mode machine over `(state, uiType, readyToMove,
    waitingForInputRelease)` fed one frame of raw input at a time.  The calls it
    makes into the player, game and dialogue managers are returned, in the order
    the source makes them, for the caller to perform; its own `SetState` calls
    are performed on the spot. */
module Input {
  import opened Common
  import opened GameEnums

  /** The keys the manager polls. */
  datatype Key = Return | Space | JoystickButton0 | Escape | JoystickButton1
               | KeyR | JoystickButton5 | KeyL | JoystickButton4

  /** One frame of raw input: the two axes, the keys held and the keys that went
      down this frame. */
  datatype Frame = Frame(h: real, v: real, held: set<Key>, pressed: set<Key>)

  /** What the manager reads of the rest of the game in a frame: whether a
      player exists and which kind of choice the dialogue manager shows. */
  datatype View = View(hasPlayer: bool, isNumberChoice: bool, isShowingChoice: bool)

  datatype Mode = Mode(state: GameState, ui: UIType, readyToMove: bool, waiting: bool)

  /** A call into another manager. */
  datatype Call =
    | TryMove(dir: Vec2Int)
    | RestartStage
    | StartAdvice
    | ChangeNumberValue(delta: int)
    | SelectNumberChoice
    | MoveChoiceSelection(delta: int)
    | SelectChoice
    | AdvanceDialogue

  const DefaultThreshold: real := 0.5

  function SqrMagnitude(f: Frame): real
  {
    f.h * f.h + f.v * f.v
  }

  predicate Deflected(f: Frame, threshold: real)
  {
    SqrMagnitude(f) > threshold * threshold
  }

  /** `IsAnyKeyPressed`: the stick is deflected or a polled key is held; a
      held key always counts, and a stick at rest with nothing held never does. */
  predicate IsAnyKeyPressed(f: Frame, threshold: real)
    ensures f.held != {} ==> IsAnyKeyPressed(f, threshold)
    ensures f.h == 0.0 && f.v == 0.0 && f.held == {} ==> !IsAnyKeyPressed(f, threshold)
  {
    Deflected(f, threshold) || f.held != {}
  }

  /** Enter or the A button went down this frame. */
  predicate Confirm(f: Frame)
  {
    Return in f.pressed || JoystickButton0 in f.pressed
  }

  /** The UI subtype `SetState` stores for `ui` when entering the UI state. */
  function EffectiveUI(ui: UIType): UIType
  {
    if ui == NoUI then Dialogue else ui
  }

  /** `SetState(newState, uiType)`. */
  function SetStateSpec(m: Mode, s: GameState, ui: UIType): Mode
  {
    if m.state != s then
      m.(state := s, waiting := true, ui := if s == UI then EffectiveUI(ui) else NoUI)
    else if s == UI && m.ui != EffectiveUI(ui) then
      m.(waiting := true, ui := EffectiveUI(ui))
    else m
  }

  /** `NormalizeDirection`: the dominant axis, ties and zero going vertical. */
  function NormalizeDirection(x: real, y: real): (d: Vec2Int)
    ensures IsUnitStep(d)
    ensures d.x != 0 <==> Abs(x) > Abs(y)
    ensures d.x != 0 ==> (d.x == 1 <==> x > 0.0)
    ensures d.x == 0 ==> (d.y == 1 <==> y > 0.0)
  {
    if Abs(x) > Abs(y) then Vec2Int(if x > 0.0 then 1 else -1, 0)
    else Vec2Int(0, if y > 0.0 then 1 else -1)
  }

  /** The release gate both handlers start with: `None` while the frame still
      holds input, otherwise the mode with the gate lowered. */
  function Release(m: Mode, f: Frame, threshold: real): Option<Mode>
  {
    if !m.waiting then Some(m)
    else if IsAnyKeyPressed(f, threshold) then None
    else Some(m.(waiting := false, readyToMove := true))
  }

  /** A `SetState(state, uiType)` call another manager makes on this one. */
  datatype StateCall = StateCall(state: GameState, ui: UIType)

  /** The mode after a run of `SetState` calls, in order. */
  function SetStates(m: Mode, calls: seq<StateCall>): Mode
    decreases |calls|
  {
    if calls == [] then m
    else
      var last := calls[|calls| - 1];
      SetStateSpec(SetStates(m, calls[..|calls| - 1]), last.state, last.ui)
  }

  /** The move latch of `HandlePlayingInput` after the release gate: disarmed
      by a deflection, re-armed at rest. */
  function Latch(m1: Mode, f: Frame, threshold: real): Mode
  {
    if Deflected(f, threshold) then m1.(readyToMove := false) else m1.(readyToMove := true)
  }

  /** Whether `HandlePlayingInput` calls `TryMove` once the gate has passed. */
  predicate Fires(m1: Mode, f: Frame, threshold: real, view: View)
  {
    Deflected(f, threshold) && m1.readyToMove && view.hasPlayer
  }

  /** The R and L keys of `HandlePlayingInput`, read in the mode the move left. */
  function KeysStep(m: Mode, f: Frame): (Mode, seq<Call>)
  {
    var restart := KeyR in f.pressed || JoystickButton5 in f.pressed;
    var m3 := if restart then SetStateSpec(m, Transition, NoUI) else m;
    var advice := KeyL in f.pressed || JoystickButton4 in f.pressed;
    var m4 := if advice then SetStateSpec(m3, UI, Advice) else m3;
    (m4, (if restart then [RestartStage] else []) + (if advice then [StartAdvice] else []))
  }

  /** `HandlePlayingInput`.  `TryMove` runs synchronously, in the mode the latch
      leaves, before the R and L keys are read; the `SetState` calls it makes
      back on this manager (through `OnLevelClear` or `OnGameOver`) are `back`,
      applied at that point. */
  function PlayingStep(m: Mode, f: Frame, threshold: real, view: View, back: seq<StateCall>): (Mode, seq<Call>)
  {
    match Release(m, f, threshold)
    case None => (m, [])
    case Some(m1) =>
      var m2 := Latch(m1, f, threshold);
      var moves := if Fires(m1, f, threshold, view) then [TryMove(NormalizeDirection(f.h, f.v))] else [];
      var keys := KeysStep(if Fires(m1, f, threshold, view) then SetStates(m2, back) else m2, f);
      (keys.0, moves + keys.1)
  }

  /** One choice-cursor axis of `HandleUIInput`: fire once per deflection of
      `axis`, re-arm at rest. */
  function AxisStep(m: Mode, axis: real, threshold: real, call: Call): (Mode, seq<Call>)
  {
    if Abs(axis) > threshold && m.readyToMove then (m.(readyToMove := false), [call])
    else if Abs(axis) <= threshold && !m.readyToMove then (m.(readyToMove := true), [])
    else (m, [])
  }

  /** `HandleUIInput`. */
  function UIStep(m: Mode, f: Frame, threshold: real, view: View): (Mode, seq<Call>)
  {
    if m.waiting then
      (if IsAnyKeyPressed(f, threshold) then m else m.(waiting := false, readyToMove := true), [])
    else if m.ui == Dialogue || m.ui == Advice then
      if view.isNumberChoice then
        var ax := AxisStep(m, f.h, threshold, ChangeNumberValue(if f.h > 0.0 then 1 else -1));
        (ax.0, if Confirm(f) then ax.1 + [SelectNumberChoice] else ax.1)
      else if view.isShowingChoice then
        var ax := AxisStep(m, f.v, threshold, MoveChoiceSelection(if f.v > 0.0 then -1 else 1));
        (ax.0, if Confirm(f) then ax.1 + [SelectChoice] else ax.1)
      else (m, if Confirm(f) then [AdvanceDialogue] else [])
    else if m.ui == StageSelect then
      if Deflected(f, threshold) && m.readyToMove then (m.(readyToMove := false), [])
      else if !Deflected(f, threshold) && !m.readyToMove then (m.(readyToMove := true), [])
      else (m, [])
    else if m.ui == GameOver then (m, if Confirm(f) then [RestartStage] else [])
    else (m, [])
  }

  /** `Update`: one frame. */
  function Step(m: Mode, f: Frame, threshold: real, view: View, back: seq<StateCall>): (Mode, seq<Call>)
  {
    match m.state
    case Playing => PlayingStep(m, f, threshold, view, back)
    case UI => UIStep(m, f, threshold, view)
    case _ => (m, [])
  }

  /** In the UI state the subtype is never `None`. */
  predicate ModeValid(m: Mode)
  {
    m.state == UI ==> m.ui != NoUI
  }

  // ------------------------------------------------------------------ lemmas

  /** Changing state stores it, raises the release gate, and stores `Dialogue`
      for a `None` UI subtype and `None` outside the UI state. */
  lemma SetStateChangingState(m: Mode, s: GameState, ui: UIType)
    requires m.state != s
    ensures var m' := SetStateSpec(m, s, ui);
      && m'.state == s && m'.waiting && m'.readyToMove == m.readyToMove
      && (s == UI && ui == NoUI ==> m'.ui == Dialogue)
      && (s == UI && ui != NoUI ==> m'.ui == ui)
      && (s != UI ==> m'.ui == NoUI)
  {
  }

  /** Re-entering the current state changes something only in the UI state with
      a different subtype, and then raises the release gate. */
  lemma SetStateSameState(m: Mode, ui: UIType)
    ensures m.state != UI ==> SetStateSpec(m, m.state, ui) == m
    ensures m.state == UI && m.ui == EffectiveUI(ui) ==> SetStateSpec(m, UI, ui) == m
    ensures m.state == UI && m.ui != EffectiveUI(ui) ==>
              SetStateSpec(m, UI, ui) == m.(waiting := true, ui := EffectiveUI(ui))
  {
  }

  /** Setting the same state twice is the same as setting it once. */
  lemma SetStateIdempotent(m: Mode, s: GameState, ui: UIType)
    ensures SetStateSpec(SetStateSpec(m, s, ui), s, ui) == SetStateSpec(m, s, ui)
  {
  }

  lemma SetStatePreservesValid(m: Mode, s: GameState, ui: UIType)
    requires ModeValid(m)
    ensures ModeValid(SetStateSpec(m, s, ui))
  {
  }

  /** `SetState` calls never touch the move latch. */
  lemma {:induction false} SetStatesKeepLatch(m: Mode, calls: seq<StateCall>)
    ensures SetStates(m, calls).readyToMove == m.readyToMove
    decreases |calls|
  {
    if calls != [] {
      SetStatesKeepLatch(m, calls[..|calls| - 1]);
    }
  }

  lemma {:induction false} SetStatesPreserveValid(m: Mode, calls: seq<StateCall>)
    requires ModeValid(m)
    ensures ModeValid(SetStates(m, calls))
    decreases |calls|
  {
    if calls != [] {
      SetStatesPreserveValid(m, calls[..|calls| - 1]);
    }
  }

  lemma StepPreservesValid(m: Mode, f: Frame, threshold: real, view: View, back: seq<StateCall>)
    requires ModeValid(m)
    ensures ModeValid(Step(m, f, threshold, view, back).0)
  {
    if m.state == Playing {
      match Release(m, f, threshold)
      case None =>
      case Some(m1) =>
        var m2 := Latch(m1, f, threshold);
        SetStatesPreserveValid(m2, back);
        var k := if Fires(m1, f, threshold, view) then SetStates(m2, back) else m2;
        SetStatePreservesValid(k, Transition, NoUI);
        var m3 := if KeyR in f.pressed || JoystickButton5 in f.pressed then SetStateSpec(k, Transition, NoUI) else k;
        SetStatePreservesValid(m3, UI, Advice);
    }
  }

  /** Transition (and the unused `None` state) dispatches nothing and changes nothing. */
  lemma TransitionIgnoresInput(m: Mode, f: Frame, threshold: real, view: View, back: seq<StateCall>)
    requires m.state == Transition || m.state == NoState
    ensures Step(m, f, threshold, view, back) == (m, [])
  {
  }

  /** While waiting for release, a frame still holding input changes nothing and
      dispatches nothing. */
  lemma WaitingBlocksInput(m: Mode, f: Frame, threshold: real, view: View, back: seq<StateCall>)
    requires m.waiting && IsAnyKeyPressed(f, threshold)
    ensures Step(m, f, threshold, view, back) == (m, [])
  {
  }

  /** Once the input is released the gate drops and the manager is re-armed; in the
      UI state nothing else happens in that frame. */
  lemma ReleaseRearms(m: Mode, f: Frame, threshold: real, view: View, back: seq<StateCall>)
    requires m.waiting && !IsAnyKeyPressed(f, threshold) && m.state == UI
    ensures Step(m, f, threshold, view, back) == (m.(waiting := false, readyToMove := true), [])
  {
  }

  /** Counting the moves a call list dispatches. */
  function MoveCalls(calls: seq<Call>): nat
  {
    if calls == [] then 0 else (if calls[0].TryMove? then 1 else 0) + MoveCalls(calls[1..])
  }

  lemma {:induction false} MoveCallsAppend(a: seq<Call>, b: seq<Call>)
    ensures MoveCalls(a + b) == MoveCalls(a) + MoveCalls(b)
  {
    if a == [] {
      assert a + b == b;
    } else {
      assert (a + b)[1..] == a[1..] + b;
      MoveCallsAppend(a[1..], b);
    }
  }

  /** In Playing, a frame dispatches at most one move, and only when the stick
      is deflected past the threshold and the manager was armed; it leaves the
      manager disarmed exactly when the stick is deflected, whatever the move
      and the keys did to its state. */
  lemma PlayingMovesOncePerDeflection(m: Mode, f: Frame, threshold: real, view: View, back: seq<StateCall>)
    requires m.state == Playing && !m.waiting
    ensures var (m', calls) := Step(m, f, threshold, view, back);
      && MoveCalls(calls) <= 1
      && (MoveCalls(calls) == 1 <==> Deflected(f, threshold) && m.readyToMove && view.hasPlayer)
      && (m'.readyToMove <==> !Deflected(f, threshold))
  {
    var (m', calls) := Step(m, f, threshold, view, back);
    var m2 := Latch(m, f, threshold);
    SetStatesKeepLatch(m2, back);
    var moves := if Fires(m, f, threshold, view) then [TryMove(NormalizeDirection(f.h, f.v))] else [];
    var restart := KeyR in f.pressed || JoystickButton5 in f.pressed;
    var advice := KeyL in f.pressed || JoystickButton4 in f.pressed;
    var rest := (if restart then [RestartStage] else []) + (if advice then [StartAdvice] else []);
    assert calls == moves + rest;
    MoveCallsAppend(moves, rest);
    MoveCallsAppend(if restart then [RestartStage] else [], if advice then [StartAdvice] else []);
  }

  /** A held deflection fires the move once: the frame after, the same
      deflection dispatches nothing; a move that changed nothing here leaves the
      manager in Playing. */
  lemma HeldDeflectionFiresOnce(m: Mode, f: Frame, threshold: real, view: View, back: seq<StateCall>, back': seq<StateCall>)
    requires m.state == Playing && !m.waiting && Deflected(f, threshold)
    requires f.pressed == {}
    ensures var m' := Step(m, f, threshold, view, back).0;
      && (back == [] ==> m'.state == Playing)
      && Step(m', f, threshold, view, back').1 == []
  {
    var m2 := Latch(m, f, threshold);
    SetStatesKeepLatch(m2, back);
  }

  /** The move is resolved before the R and L keys are read: after a move that
      clears the stage (its `SetState(Transition)`), L still opens the advice
      and R still asks for a restart; after a move that loses with the
      game-over UI up, R switches to Transition. */
  lemma MoveResolvesBeforeKeys(m: Mode, f: Frame, threshold: real, view: View)
    requires m.state == Playing && !m.waiting && m.readyToMove && Deflected(f, threshold) && view.hasPlayer
    ensures var d := NormalizeDirection(f.h, f.v);
      var cleared := Step(m, f, threshold, view, [StateCall(Transition, NoUI)]);
      var lost := Step(m, f, threshold, view, [StateCall(UI, GameOver)]);
      && (KeyL in f.pressed ==> cleared.0.state == UI && cleared.0.ui == Advice && cleared.0.waiting)
      && (KeyL !in f.pressed && JoystickButton4 !in f.pressed ==> cleared.0.state == Transition)
      && (KeyR in f.pressed ==> cleared.1[..2] == [TryMove(d), RestartStage])
      && (KeyR in f.pressed && KeyL !in f.pressed && JoystickButton4 !in f.pressed ==> lost.0.state == Transition)
      && (KeyR !in f.pressed && JoystickButton5 !in f.pressed && KeyL !in f.pressed && JoystickButton4 !in f.pressed ==>
            lost.0.state == UI && lost.0.ui == GameOver && lost.1 == [TryMove(d)])
  {
    var cs := [StateCall(Transition, NoUI)];
    assert cs[..0] == [];
    var ls := [StateCall(UI, GameOver)];
    assert ls[..0] == [];
  }

  /** A number choice steps by the sign of the horizontal axis, once per
      deflection, and Enter confirms it. */
  lemma NumberChoiceStep(m: Mode, f: Frame, threshold: real, view: View)
    requires m.state == UI && !m.waiting && (m.ui == Dialogue || m.ui == Advice)
    requires view.isNumberChoice && threshold >= 0.0
    ensures var (m', calls) := Step(m, f, threshold, view, []);
      && (Abs(f.h) > threshold && m.readyToMove ==>
            calls[0] == ChangeNumberValue(if f.h > 0.0 then 1 else -1) && !m'.readyToMove)
      && (!(Abs(f.h) > threshold && m.readyToMove) ==> calls == (if Confirm(f) then [SelectNumberChoice] else []))
      && (Abs(f.h) > threshold ==> Step(m', f.(pressed := {}), threshold, view, []).1 == [])
  {
  }

  /** A list choice moves up (-1) for a positive vertical axis and down (+1)
      otherwise, once per deflection. */
  lemma ListChoiceStep(m: Mode, f: Frame, threshold: real, view: View)
    requires m.state == UI && !m.waiting && (m.ui == Dialogue || m.ui == Advice)
    requires !view.isNumberChoice && view.isShowingChoice && threshold >= 0.0
    ensures var (m', calls) := Step(m, f, threshold, view, []);
      && (Abs(f.v) > threshold && m.readyToMove ==>
            calls[0] == MoveChoiceSelection(if f.v > 0.0 then -1 else 1) && !m'.readyToMove)
      && (Abs(f.v) > threshold ==> Step(m', f.(pressed := {}), threshold, view, []).1 == [])
  {
  }

  class InputManager
  {
    var currentState: GameState
    var currentUIType: UIType
    var readyToMove: bool
    var waitingForInputRelease: bool
    /** `inputThreshold`, an inspector setting. */
    var inputThreshold: real

    function Snapshot(): Mode
      reads this
    {
      Mode(currentState, currentUIType, readyToMove, waitingForInputRelease)
    }

    constructor ()
      ensures Snapshot() == Mode(Playing, Dialogue, true, false) && inputThreshold == DefaultThreshold
    {
      currentState := Playing;
      currentUIType := Dialogue;
      readyToMove := true;
      waitingForInputRelease := false;
      inputThreshold := DefaultThreshold;
    }

    method SetState(newState: GameState, uiType: UIType)
      modifies this
      ensures Snapshot() == SetStateSpec(old(Snapshot()), newState, uiType)
      ensures inputThreshold == old(inputThreshold)
    {
      if currentState != newState {
        waitingForInputRelease := true;
        currentState := newState;
        if newState == UI {
          if uiType == NoUI {
            currentUIType := Dialogue;
          } else {
            currentUIType := uiType;
          }
        } else {
          currentUIType := NoUI;
        }
      } else if newState == UI {
        var t := uiType;
        if t == NoUI {
          t := Dialogue;
        }
        if currentUIType != t {
          waitingForInputRelease := true;
          currentUIType := t;
        }
      }
    }

    /** `Update`; `back` is what the dispatched `TryMove` does to this manager. */
    method Update(f: Frame, view: View, back: seq<StateCall>) returns (calls: seq<Call>)
      modifies this
      ensures (Snapshot(), calls) == Step(old(Snapshot()), f, old(inputThreshold), view, back)
      ensures inputThreshold == old(inputThreshold)
    {
      match currentState
      case Playing =>
        calls := HandlePlayingInput(f, view, back);
      case UI =>
        calls := HandleUIInput(f, view);
      case _ =>
        calls := [];
    }

    /** The `SetState` calls a synchronous call into another manager makes
        back on this one, in order. */
    method ReceiveStateCalls(back: seq<StateCall>)
      modifies this
      ensures Snapshot() == SetStates(old(Snapshot()), back)
      ensures inputThreshold == old(inputThreshold)
    {
      var i := 0;
      while i < |back|
        invariant 0 <= i <= |back|
        invariant Snapshot() == SetStates(old(Snapshot()), back[..i])
        invariant inputThreshold == old(inputThreshold)
      {
        SetState(back[i].state, back[i].ui);
        assert back[..i + 1][..i] == back[..i];
        i := i + 1;
      }
      assert back[..|back|] == back;
    }

    method HandlePlayingInput(f: Frame, view: View, back: seq<StateCall>) returns (calls: seq<Call>)
      requires currentState == Playing
      modifies this
      ensures (Snapshot(), calls) == PlayingStep(old(Snapshot()), f, old(inputThreshold), view, back)
      ensures inputThreshold == old(inputThreshold)
    {
      ghost var m0 := Snapshot();
      calls := [];
      if waitingForInputRelease {
        if IsAnyKeyPressed(f, inputThreshold) {
          return;
        } else {
          waitingForInputRelease := false;
          readyToMove := true;
        }
      }
      ghost var m1 := Snapshot();
      assert Release(m0, f, inputThreshold) == Some(m1);
      if Deflected(f, inputThreshold) {
        if readyToMove {
          readyToMove := false;
          var direction := NormalizeDirection(f.h, f.v);
          if view.hasPlayer {
            calls := [TryMove(direction)];
            ReceiveStateCalls(back);
          }
        }
      } else {
        readyToMove := true;
      }
      ghost var moves := calls;
      assert Snapshot() == (if Fires(m1, f, inputThreshold, view) then SetStates(Latch(m1, f, inputThreshold), back)
                            else Latch(m1, f, inputThreshold));
      if KeyR in f.pressed || JoystickButton5 in f.pressed {
        SetState(Transition, NoUI);
        calls := calls + [RestartStage];
      }
      if KeyL in f.pressed || JoystickButton4 in f.pressed {
        SetState(UI, Advice);
        calls := calls + [StartAdvice];
      }
      assert calls == moves + ((if KeyR in f.pressed || JoystickButton5 in f.pressed then [RestartStage] else [])
                            + (if KeyL in f.pressed || JoystickButton4 in f.pressed then [StartAdvice] else []));
    }

    method HandleUIInput(f: Frame, view: View) returns (calls: seq<Call>)
      requires currentState == UI
      modifies this
      ensures (Snapshot(), calls) == UIStep(old(Snapshot()), f, old(inputThreshold), view)
      ensures inputThreshold == old(inputThreshold)
    {
      calls := [];
      if waitingForInputRelease {
        if !IsAnyKeyPressed(f, inputThreshold) {
          waitingForInputRelease := false;
          readyToMove := true;
        }
        return;
      }
      if currentUIType == Dialogue || currentUIType == Advice {
        if view.isNumberChoice {
          ghost var ax := AxisStep(Snapshot(), f.h, inputThreshold, ChangeNumberValue(if f.h > 0.0 then 1 else -1));
          if Abs(f.h) > inputThreshold && readyToMove {
            calls := [ChangeNumberValue(if f.h > 0.0 then 1 else -1)];
            readyToMove := false;
          }
          if Abs(f.h) <= inputThreshold && !readyToMove {
            readyToMove := true;
          }
          assert (Snapshot(), calls) == ax;
          if Confirm(f) {
            calls := calls + [SelectNumberChoice];
          }
        } else if view.isShowingChoice {
          ghost var ax := AxisStep(Snapshot(), f.v, inputThreshold, MoveChoiceSelection(if f.v > 0.0 then -1 else 1));
          if Abs(f.v) > inputThreshold && readyToMove {
            calls := [MoveChoiceSelection(if f.v > 0.0 then -1 else 1)];
            readyToMove := false;
          }
          if Abs(f.v) <= inputThreshold && !readyToMove {
            readyToMove := true;
          }
          assert (Snapshot(), calls) == ax;
          if Confirm(f) {
            calls := calls + [SelectChoice];
          }
        } else if Confirm(f) {
          calls := [AdvanceDialogue];
        }
      } else if currentUIType == StageSelect {
        if Deflected(f, inputThreshold) && readyToMove {
          readyToMove := false;
        }
        if !Deflected(f, inputThreshold) && !readyToMove {
          readyToMove := true;
        }
      } else if currentUIType == GameOver {
        if Confirm(f) {
          calls := [RestartStage];
        }
      }
    }
  }
}
