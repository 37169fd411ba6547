/** The proximity latch of the early `Goal` component (`Managers/Goal.cs`):
    every frame it checks whether the player stands within Manhattan distance
    one of the goal and logs the clear message once per stay in range. */
module GoalLatch {
  import opened Common
  import opened Grid

  /** The two flags `isInGoal` and `sendLog`. */
  datatype Latch = Latch(isInGoal: bool, sendLog: bool)

  /** What one `Update` does besides changing the flags: nothing, the clear
      message, or a `NullReferenceException` (no player was found at `Start`). */
  datatype FrameOut = Quiet | Logged | Threw

  /** Both flags start false. */
  const Initial: Latch := Latch(false, false)

  /** `CheckPlayerGoal`'s test on the transforms' x and y. */
  predicate InRange(player: Vec2, goal: Vec2)
  {
    Abs(player.x - goal.x) + Abs(player.y - goal.y) <= 1.0
  }

  /** `CheckPlayerGoal`: in range sets `isInGoal`; out of range clears both flags. */
  function Proximity(l: Latch, inRange: bool): Latch
  {
    if inRange then l.(isInGoal := true) else Latch(false, false)
  }

  /** `CheckIsGoal`: the message is logged when in the goal and not yet logged. */
  function ClearLog(l: Latch): (Latch, bool)
  {
    if l.isInGoal && !l.sendLog then (l.(sendLog := true), true) else (l, false)
  }

  /** One `Update`, given the player's position (`None` when no player was found). */
  function Step(l: Latch, player: Option<Vec2>, goal: Vec2): (Latch, FrameOut)
  {
    match player
    case None => (l, Threw)
    case Some(p) =>
      var (l2, logged) := ClearLog(Proximity(l, InRange(p, goal)));
      (l2, if logged then Logged else Quiet)
  }

  /** The flags and messages over a run of frames with the player present. */
  function Run(l: Latch, path: seq<Vec2>, goal: Vec2): (r: (Latch, seq<bool>))
    ensures |r.1| == |path|
    decreases |path|
  {
    if path == [] then (l, [])
    else
      var (l1, out) := Step(l, Some(path[0]), goal);
      var (l2, rest) := Run(l1, path[1..], goal);
      (l2, [out == Logged] + rest)
  }

  /** Reachable flags: both set or both clear. */
  predicate Settled(l: Latch)
  {
    l.isInGoal == l.sendLog
  }

  /** After a frame with the player present, `isInGoal` holds exactly when
      the player is within distance one (standing on the goal included), and
      so does `sendLog`; the message is logged exactly on entering the range. */
  lemma StepLatches(l: Latch, p: Vec2, goal: Vec2)
    requires Settled(l)
    ensures var (l', out) := Step(l, Some(p), goal);
      && l'.isInGoal == InRange(p, goal) && l'.sendLog == InRange(p, goal)
      && (out == Logged <==> InRange(p, goal) && !l.isInGoal)
      && out != Threw
  {
  }

  /** Leaving the range clears `sendLog`, whatever the flags were. */
  lemma LeavingClearsLog(l: Latch, p: Vec2, goal: Vec2)
    requires !InRange(p, goal)
    ensures Step(l, Some(p), goal) == (Latch(false, false), Quiet)
  {
  }

  /** Standing on the goal, or on one of its four neighbours, is in range. */
  lemma OnOrBesideGoal(goal: Vec2, dx: real, dy: real)
    requires (dx == 0.0 && (dy == 0.0 || dy == 1.0 || dy == -1.0)) || (dy == 0.0 && (dx == 1.0 || dx == -1.0))
    ensures InRange(Vec2(goal.x + dx, goal.y + dy), goal)
  {
  }

  /** Without a player every frame throws before changing anything. */
  lemma NoPlayerThrows(l: Latch, goal: Vec2)
    ensures Step(l, None, goal) == (l, Threw)
  {
  }

  /** Message `k` is logged exactly when the player is in range at frame `k`
      and was not the frame before (`wasIn` standing for the frame before
      the first). */
  predicate LogsOnEntry(logs: seq<bool>, wasIn: bool, path: seq<Vec2>, goal: Vec2)
  {
    && |logs| == |path|
    && (path != [] ==> (logs[0] <==> InRange(path[0], goal) && !wasIn))
    && forall k :: 1 <= k < |path| ==> (logs[k] <==> InRange(path[k], goal) && !InRange(path[k - 1], goal))
  }

  /** From settled flags, a run logs the message exactly on the frames where
      the player enters the range: one message per continuous stay in range.
      The flags stay settled and end with `isInGoal` for the last frame. */
  lemma {:induction false} OncePerStay(l: Latch, path: seq<Vec2>, goal: Vec2)
    requires Settled(l)
    ensures LogsOnEntry(Run(l, path, goal).1, l.isInGoal, path, goal)
    ensures Settled(Run(l, path, goal).0)
    ensures path != [] ==> Run(l, path, goal).0.isInGoal == InRange(path[|path| - 1], goal)
    decreases |path|
  {
    if path != [] {
      StepLatches(l, path[0], goal);
      var l1 := Step(l, Some(path[0]), goal).0;
      var tail := path[1..];
      OncePerStay(l1, tail, goal);
      var logs := Run(l, path, goal).1;
      var rest := Run(l1, tail, goal).1;
      assert logs == [Step(l, Some(path[0]), goal).1 == Logged] + rest;
      if |path| > 1 {
        assert tail[|tail| - 1] == path[|path| - 1];
      }
      forall k | 1 <= k < |path|
        ensures logs[k] <==> InRange(path[k], goal) && !InRange(path[k - 1], goal)
      {
        assert logs[k] == rest[k - 1];
        assert tail[k - 1] == path[k];
        if k > 1 {
          assert tail[k - 2] == path[k - 1];
        }
      }
      assert LogsOnEntry(logs, l.isInGoal, path, goal);
    }
  }

  class Goal
  {
    /** The goal's transform position. */
    const position: Vec2
    var isInGoal: bool
    var sendLog: bool

    function Current(): Latch
      reads this
    {
      Latch(isInGoal, sendLog)
    }

    /** `Start`: both flags false. */
    constructor (position: Vec2)
      ensures this.position == position && Current() == Initial
    {
      this.position := position;
      isInGoal := false;
      sendLog := false;
    }

    /** `Update` with the player's position this frame (`None` when
        `FindWithTag("Player")` found nothing at `Start`). */
    method Update(player: Option<Vec2>) returns (out: FrameOut)
      modifies this
      ensures (Current(), out) == Step(old(Current()), player, position)
    {
      if player.None? {
        return Threw;
      }
      CheckPlayerGoal(player.value);
      var logged := CheckIsGoal();
      out := if logged then Logged else Quiet;
    }

    method CheckPlayerGoal(playerPos: Vec2)
      modifies this
      ensures Current() == Proximity(old(Current()), InRange(playerPos, position))
    {
      var goalDistance := Abs(playerPos.x - position.x) + Abs(playerPos.y - position.y);
      if goalDistance <= 1.0 {
        isInGoal := true;
      } else {
        isInGoal := false;
        sendLog := false;
      }
    }

    /** Returns whether the clear message was logged. */
    method CheckIsGoal() returns (logged: bool)
      modifies this
      ensures (Current(), logged) == ClearLog(old(Current()))
    {
      logged := false;
      if isInGoal && !sendLog {
        logged := true;
        sendLog := true;
      }
    }
  }
}
