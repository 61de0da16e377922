/**
 * The game's mode state machine (game.py). Modes are numbers in bands:
 * attract 100-199, tile cascade 200-299 and gameplay 300-399, where the last
 * digit of a gameplay mode is the step of the round (0 decide, 1/2 reveal
 * left/right, 3 win left, 4 lose left). On entry to a mode its install block
 * runs on the first update only; every update then polls elapsed time and
 * the pressed keys.
 *
 * The sound player, the grid's rule calls and the installed rules are
 * recorded as events in a log. The clock, the keyboard and the random tile
 * draw are inputs.
 */
module GameModes {
  import SegmentGrid

  // ---------------------------------------------------------------------
  // Constants
  // ---------------------------------------------------------------------

  const KEY_START: string := "space"
  const KEY_BOXES: seq<string> := ["a", "b", "c", "d", "e", "f", "g", "h", "i", "j"]

  /** Seconds between the cascade's rows; also the spacing of its sound cues. */
  const CASCADE_TIME: real := 0.8

  /** The four grid segments that make up each of the ten boxes. */
  const BOXES: seq<seq<int>> := [
    [0, 12, 2, 13], [1, 13, 3, 14], [2, 15, 4, 16], [3, 16, 5, 17], [4, 18, 6, 19],
    [5, 19, 7, 20], [6, 21, 8, 22], [7, 22, 9, 23], [8, 24, 10, 25], [9, 25, 11, 26]]

  /**
   * Box b is segments b and b + 2 of the long strip with the two crossing
   * segments 12 + 3(b/2) + b%2 and the one after it; all are grid segments
   * (below 27) of the registry, never the railings 27 and 28.
   */
  lemma BoxesShape(b: int)
    requires 0 <= b < |BOXES|
    ensures |BOXES| == 10 && |BOXES[b]| == 4
    ensures BOXES[b] == [b, 12 + 3 * (b / 2) + b % 2, b + 2, 13 + 3 * (b / 2) + b % 2]
    ensures forall j :: 0 <= j < 4 ==> 0 <= BOXES[b][j] < 27 < SegmentGrid.SEG_COUNT
  {
  }

  /** The modes an update can ever lead to from the initial mode 100. */
  const REACHABLE: set<int> := {100, 101, 102, 200, 300, 301, 302, 303, 304, 305, 306, 310}


  // ---------------------------------------------------------------------
  // Events and state
  // ---------------------------------------------------------------------

  datatype Clip = Undertale | FinalFantasy

  /** A call the game makes on a collaborator. */
  datatype Event =
    | PlayClip(clip: Clip)                             // sound_player.play(clip)
    | StopSound                                        // sound_player.stop()
    | CorrectCue                                       // sound_player.correct()
    | ShatterCue                                       // sound_player.shatter()
    | ScreamCue                                        // sound_player.scream()
    | ClearRules(clearGrid: bool, clearRailings: bool) // grid.clear_rules(...)
    | InstallRules(mode: int)                          // the rules a mode's install block sets

  /** The fields of a Game that update() reads and writes. */
  datatype GameState = GameState(
    mode: int,
    modeInitialized: bool,
    newMode: bool,
    startTime: real,
    correctTiles: seq<int>,
    undertaleCount: int,
    startedScream: bool)

  /** The state after a call, with the calls on collaborators it made, in order. */
  datatype Step = Step(state: GameState, events: seq<Event>)

  /** Five tiles, each 0 (left correct) or 1 (right correct). */
  predicate ValidTiles(t: seq<int>)
  {
    |t| == 5 && forall i :: 0 <= i < |t| ==> t[i] == 0 || t[i] == 1
  }

  /** What every update keeps: valid tiles, a cascade count within 0..5, a reachable mode. */
  predicate Inv(s: GameState)
  {
    && ValidTiles(s.correctTiles)
    && 0 <= s.undertaleCount <= 5
    && s.mode in REACHABLE
    && (s.newMode ==> !s.modeInitialized)
  }

  /** gen_correct_tiles: five draws of randint(0, 1); coin(i) is the outcome of the i-th draw. */
  function GenCorrectTiles(coin: nat -> bool): (r: seq<int>)
    ensures ValidTiles(r)
  {
    seq(5, i requires 0 <= i < 5 => if coin(i) then 1 else 0)
  }

  /** Every valid tile assignment is one that gen_correct_tiles can produce. */
  lemma GenCorrectTilesOnto(t: seq<int>)
    requires ValidTiles(t)
    ensures exists coin: nat -> bool :: GenCorrectTiles(coin) == t
  {
    var coin := (i: nat) => i < |t| && t[i] == 1;
    assert GenCorrectTiles(coin) == t;
  }

  /** The number of set_mode calls in a list of events: each makes exactly one clear_rules call. */
  function ModeChanges(es: seq<Event>): nat
  {
    if es == [] then 0 else (if es[0].ClearRules? then 1 else 0) + ModeChanges(es[1..])
  }

  lemma {:induction false} ModeChangesAppend(a: seq<Event>, b: seq<Event>)
    ensures ModeChanges(a + b) == ModeChanges(a) + ModeChanges(b)
  {
    if a == [] {
      assert a + b == b;
    } else {
      assert (a + b)[1..] == a[1..] + b;
      ModeChangesAppend(a[1..], b);
    }
  }

  /** A list of events counts no mode change exactly when it holds no clear_rules call. */
  lemma {:induction false} ModeChangesZero(es: seq<Event>)
    ensures ModeChanges(es) == 0 <==> NoClear(es)
  {
    if es != [] {
      ModeChangesZero(es[1..]);
      assert forall i :: 1 <= i < |es| ==> es[i] == es[1..][i - 1];
    }
  }

  predicate NoClear(es: seq<Event>)
  {
    forall i :: 0 <= i < |es| ==> !es[i].ClearRules?
  }

  // ---------------------------------------------------------------------
  // The transition function
  // ---------------------------------------------------------------------

  /** The game as its constructor leaves it. */
  function Initial(coin: nat -> bool): GameState
  {
    GameState(100, false, false, 0.0, GenCorrectTiles(coin), 0, false)
  }

  /** set_mode(m, clear_grid, clear_railings) at time now. */
  function SetModeStep(s: GameState, m: int, now: real, clearGrid: bool := false, clearRailings: bool := false): Step
  {
    Step(s.(mode := m, startTime := now, modeInitialized := false, newMode := true), [ClearRules(clearGrid, clearRailings)])
  }

  /** reset_game: fresh tiles, cascade count 0, scream not started. */
  function Reset(s: GameState, coin: nat -> bool): GameState
  {
    s.(correctTiles := GenCorrectTiles(coin), undertaleCount := 0, startedScream := false)
  }

  /** Events made before a step. */
  function After(pre: seq<Event>, st: Step): Step
  {
    Step(st.state, pre + st.events)
  }

  /** A mode's install block: its cues, then its rules, only while the mode is not initialised. */
  function InstallOnce(s: GameState, cues: seq<Event>): seq<Event>
  {
    if s.modeInitialized then [] else cues + [InstallRules(s.mode)]
  }

  /** Modes 100-199. */
  function Attract(s: GameState, elapsed: real, pressed: set<string>, now: real): Step
  {
    if KEY_START in pressed then
      var st := SetModeStep(s, 200, now, true, true);
      st.(state := st.state.(undertaleCount := 0))
    else if s.mode == 100 then
      After(InstallOnce(s, []), SetModeStep(s, 101, now))
    else if s.mode == 101 then
      var i := InstallOnce(s, []);
      if elapsed > 10.0 then After(i, SetModeStep(s, 102, now)) else Step(s, i)
    else if s.mode == 102 then
      var i := InstallOnce(s, []);
      if elapsed > 10.0 then After(i, SetModeStep(s, 101, now)) else Step(s, i)
    else
      Step(s, [])
  }

  /** Modes 200-299. */
  function Cascade(s: GameState, elapsed: real, now: real): Step
  {
    var i := InstallOnce(s, []);
    var cue := s.undertaleCount < 5 && elapsed > (s.undertaleCount as real) * CASCADE_TIME;
    var u := if cue then s.(undertaleCount := s.undertaleCount + 1) else s;
    var sound := if cue then [PlayClip(Undertale)] else [];
    if elapsed > 7.0 then After(i + sound, SetModeStep(u, 300, now)) else Step(u, i + sound)
  }

  /** Gameplay step 0: wait for the player to step on the left ('a') or right ('b') box. */
  function Decide(s: GameState, pressed: set<string>, now: real): Step
  {
    var i := InstallOnce(s, [PlayClip(FinalFantasy)]);
    if KEY_BOXES[0] in pressed then After(i, SetModeStep(s, 301, now, true))
    else if KEY_BOXES[1] in pressed then After(i, SetModeStep(s, 302, now, true))
    else Step(s, i)
  }

  /** Gameplay steps 1 and 2: blink the chosen box, then go to win or lose by the first row's tile. */
  function Reveal(s: GameState, elapsed: real, now: real, win: int, lose: int): Step
    requires |s.correctTiles| > 0
  {
    var i := InstallOnce(s, [StopSound]);
    if elapsed > 2.0 then After(i, SetModeStep(s, if s.correctTiles[0] == 0 then win else lose, now)) else Step(s, i)
  }

  /** Gameplay step 3: celebrate, then move on by 7. */
  function Won(s: GameState, elapsed: real, now: real): Step
  {
    var i := InstallOnce(s, [CorrectCue]);
    if elapsed > 3.5 then After(i, SetModeStep(s, s.mode + 7, now)) else Step(s, i)
  }

  /** Gameplay step 4: shatter, scream once after half a second, and after 5 seconds start over. */
  function Lost(s: GameState, elapsed: real, now: real, coin: nat -> bool): Step
  {
    var i := InstallOnce(s, [ShatterCue]);
    var cue := elapsed > 0.5 && !s.startedScream;
    var u := if cue then s.(startedScream := true) else s;
    var scream := if cue then [ScreamCue] else [];
    if elapsed > 5.0 then
      var st := After(i + scream, SetModeStep(u, 100, now, true, true));
      st.(state := Reset(st.state, coin))
    else
      Step(u, i + scream)
  }

  /** Modes 300-399, dispatched on the last digit. */
  function Gameplay(s: GameState, elapsed: real, pressed: set<string>, now: real, coin: nat -> bool): Step
    requires |s.correctTiles| > 0
  {
    var step := s.mode % 10;
    if step == 0 then Decide(s, pressed, now)
    else if step == 1 then Reveal(s, elapsed, now, 303, 304)
    else if step == 2 then Reveal(s, elapsed, now, 305, 306)
    else if step == 3 then Won(s, elapsed, now)
    else if step == 4 then Lost(s, elapsed, now, coin)
    else Step(s, [])
  }

  /** update(), before its last statement. */
  function Dispatch(s: GameState, now: real, pressed: set<string>, coin: nat -> bool): Step
    requires |s.correctTiles| > 0
  {
    var elapsed := now - s.startTime;
    var s1 := s.(newMode := false);
    if s1.mode <= 99 then Step(s1, [InstallRules(s1.mode)])
    else if s1.mode <= 199 then Attract(s1, elapsed, pressed, now)
    else if s1.mode <= 299 then Cascade(s1, elapsed, now)
    else if s1.mode <= 399 then Gameplay(s1, elapsed, pressed, now, coin)
    else Step(s1, [])
  }

  /** The last statement of update(): a first update that changed no mode finishes initialisation. */
  function Settle(t: GameState): GameState
  {
    if !t.modeInitialized && !t.newMode then t.(modeInitialized := true) else t
  }

  /** update(): one frame at time now with the keys held in pressed. */
  function Next(s: GameState, now: real, pressed: set<string>, coin: nat -> bool): Step
    requires |s.correctTiles| > 0
  {
    var st := Dispatch(s, now, pressed, coin);
    Step(Settle(st.state), st.events)
  }

  // ---------------------------------------------------------------------
  // Every branch of update() calls set_mode at most once, and last
  // ---------------------------------------------------------------------

  /**
   * What one branch does to a state whose new_mode is off: either no
   * set_mode ran, and mode, clock and flags are as they were and the events
   * hold no clear_rules; or set_mode ran once, last, and left the mode
   * pending initialisation with its clock at now.
   */
  predicate StepShape(s: GameState, st: Step, now: real)
  {
    var e := st.events;
    var r := st.state;
    if r.newMode then
      !r.modeInitialized && r.startTime == now && |e| > 0 && e[|e| - 1].ClearRules? && NoClear(e[..|e| - 1])
    else
      r.modeInitialized == s.modeInitialized && r.mode == s.mode && r.startTime == s.startTime && NoClear(e)
  }

  lemma InstallOnceNoClear(s: GameState, cues: seq<Event>)
    requires NoClear(cues)
    ensures NoClear(InstallOnce(s, cues))
  {
  }

  lemma SetModeShape(s: GameState, pre: seq<Event>, u: GameState, m: int, now: real, g: bool, r: bool)
    requires NoClear(pre)
    ensures StepShape(s, After(pre, SetModeStep(u, m, now, g, r)), now)
  {
    assert (pre + [ClearRules(g, r)])[..|pre|] == pre;
  }

  lemma AttractShape(s: GameState, elapsed: real, pressed: set<string>, now: real)
    requires !s.newMode
    ensures StepShape(s, Attract(s, elapsed, pressed, now), now)
  {
    InstallOnceNoClear(s, []);
    if KEY_START in pressed {
      SetModeShape(s, [], s, 200, now, true, true);
    } else if s.mode == 100 || s.mode == 101 || s.mode == 102 {
      SetModeShape(s, InstallOnce(s, []), s, if s.mode == 101 then 102 else 101, now, false, false);
    }
  }

  lemma CascadeShape(s: GameState, elapsed: real, now: real)
    requires !s.newMode
    ensures StepShape(s, Cascade(s, elapsed, now), now)
  {
    var i := InstallOnce(s, []);
    InstallOnceNoClear(s, []);
    var cue := s.undertaleCount < 5 && elapsed > (s.undertaleCount as real) * CASCADE_TIME;
    var u := if cue then s.(undertaleCount := s.undertaleCount + 1) else s;
    var sound := if cue then [PlayClip(Undertale)] else [];
    assert NoClear(i + sound);
    SetModeShape(s, i + sound, u, 300, now, false, false);
  }

  lemma DecideShape(s: GameState, pressed: set<string>, now: real)
    requires !s.newMode
    ensures StepShape(s, Decide(s, pressed, now), now)
  {
    var i := InstallOnce(s, [PlayClip(FinalFantasy)]);
    InstallOnceNoClear(s, [PlayClip(FinalFantasy)]);
    SetModeShape(s, i, s, 301, now, true, false);
    SetModeShape(s, i, s, 302, now, true, false);
  }

  lemma RevealShape(s: GameState, elapsed: real, now: real, win: int, lose: int)
    requires |s.correctTiles| > 0 && !s.newMode
    ensures StepShape(s, Reveal(s, elapsed, now, win, lose), now)
  {
    InstallOnceNoClear(s, [StopSound]);
    SetModeShape(s, InstallOnce(s, [StopSound]), s, if s.correctTiles[0] == 0 then win else lose, now, false, false);
  }

  lemma WonShape(s: GameState, elapsed: real, now: real)
    requires !s.newMode
    ensures StepShape(s, Won(s, elapsed, now), now)
  {
    InstallOnceNoClear(s, [CorrectCue]);
    SetModeShape(s, InstallOnce(s, [CorrectCue]), s, s.mode + 7, now, false, false);
  }

  lemma LostShape(s: GameState, elapsed: real, now: real, coin: nat -> bool)
    requires !s.newMode
    ensures StepShape(s, Lost(s, elapsed, now, coin), now)
  {
    var i := InstallOnce(s, [ShatterCue]);
    InstallOnceNoClear(s, [ShatterCue]);
    var cue := elapsed > 0.5 && !s.startedScream;
    var u := if cue then s.(startedScream := true) else s;
    var scream := if cue then [ScreamCue] else [];
    assert NoClear(i + scream);
    if elapsed > 5.0 {
      SetModeShape(s, i + scream, u, 100, now, true, true);
    }
  }

  lemma GameplayShape(s: GameState, elapsed: real, pressed: set<string>, now: real, coin: nat -> bool)
    requires |s.correctTiles| > 0 && !s.newMode
    ensures StepShape(s, Gameplay(s, elapsed, pressed, now, coin), now)
  {
    var step := s.mode % 10;
    if step == 0 {
      DecideShape(s, pressed, now);
    } else if step == 1 {
      RevealShape(s, elapsed, now, 303, 304);
    } else if step == 2 {
      RevealShape(s, elapsed, now, 305, 306);
    } else if step == 3 {
      WonShape(s, elapsed, now);
    } else if step == 4 {
      LostShape(s, elapsed, now, coin);
    }
  }

  /** Every branch of update() has that shape. */
  lemma DispatchShape(s: GameState, now: real, pressed: set<string>, coin: nat -> bool)
    requires |s.correctTiles| > 0
    ensures StepShape(s.(newMode := false), Dispatch(s, now, pressed, coin), now)
  {
    var s1 := s.(newMode := false);
    var elapsed := now - s.startTime;
    if s1.mode <= 99 {
    } else if s1.mode <= 199 {
      AttractShape(s1, elapsed, pressed, now);
    } else if s1.mode <= 299 {
      CascadeShape(s1, elapsed, now);
    } else if s1.mode <= 399 {
      GameplayShape(s1, elapsed, pressed, now, coin);
    }
  }

  // ---------------------------------------------------------------------
  // Properties of one update
  // ---------------------------------------------------------------------

  /**
   * After an update the mode is initialised exactly when no set_mode ran
   * during it; at most one ran; and new_mode is the opposite flag. A change
   * of mode always goes through set_mode, which restarts the clock.
   */
  lemma InitializedIffNoModeChange(s: GameState, now: real, pressed: set<string>, coin: nat -> bool)
    requires |s.correctTiles| > 0
    ensures var st := Next(s, now, pressed, coin);
      && ModeChanges(st.events) <= 1
      && (st.state.modeInitialized <==> ModeChanges(st.events) == 0)
      && (st.state.newMode <==> !st.state.modeInitialized)
      && (ModeChanges(st.events) == 1 ==> st.state.startTime == now)
      && (st.state.mode != s.mode ==> ModeChanges(st.events) == 1)
  {
    DispatchShape(s, now, pressed, coin);
    var e := Dispatch(s, now, pressed, coin).events;
    if Dispatch(s, now, pressed, coin).state.newMode {
      var pre := e[..|e| - 1];
      assert e == pre + [e[|e| - 1]];
      ModeChangesAppend(pre, [e[|e| - 1]]);
      ModeChangesZero(pre);
      assert [e[|e| - 1]][1..] == [];
    } else {
      ModeChangesZero(e);
    }
  }

  /** The modes whose branch has an install block. */
  predicate HasInstallBlock(m: int)
  {
    m == 100 || m == 101 || m == 102 || 200 <= m <= 299 || (300 <= m <= 399 && m % 10 <= 4)
  }

  /** On the first update after entry the install block runs, unless the start key ends attract first. */
  lemma InstallOnFirstUpdate(s: GameState, now: real, pressed: set<string>, coin: nat -> bool)
    requires |s.correctTiles| > 0
    requires !s.modeInitialized && HasInstallBlock(s.mode)
    requires !(s.mode <= 199 && KEY_START in pressed)
    ensures InstallRules(s.mode) in Next(s, now, pressed, coin).events
  {
  }

  /** The install block runs only while the mode is not initialised (the test modes below 100 install every frame). */
  lemma InstallOnlyWhenUninitialized(s: GameState, now: real, pressed: set<string>, coin: nat -> bool)
    requires |s.correctTiles| > 0
    requires s.mode >= 100 && s.modeInitialized
    ensures var e := Next(s, now, pressed, coin).events;
      forall i :: 0 <= i < |e| ==> !e[i].InstallRules?
  {
    var s1 := s.(newMode := false);
    var elapsed := now - s.startTime;
    var e := Next(s, now, pressed, coin).events;
    if s.mode <= 199 {
      assert e == Attract(s1, elapsed, pressed, now).events;
    } else if s.mode <= 299 {
      assert e == Cascade(s1, elapsed, now).events;
    } else if s.mode <= 399 {
      assert e == Gameplay(s1, elapsed, pressed, now, coin).events;
    }
  }

  /** Install once, then poll: an update that changed no mode is followed by one that installs nothing. */
  lemma InstallOncePerEntry(s: GameState, now1: real, pressed1: set<string>, now2: real, pressed2: set<string>, coin: nat -> bool)
    requires |s.correctTiles| > 0 && s.mode >= 100
    requires ModeChanges(Next(s, now1, pressed1, coin).events) == 0
    ensures var t := Next(s, now1, pressed1, coin).state;
      |t.correctTiles| > 0 &&
      var e := Next(t, now2, pressed2, coin).events;
      forall i :: 0 <= i < |e| ==> !e[i].InstallRules?
  {
    InitializedIffNoModeChange(s, now1, pressed1, coin);
    var t := Next(s, now1, pressed1, coin).state;
    assert t.mode == s.mode && t.modeInitialized;
    InstallOnlyWhenUninitialized(t, now2, pressed2, coin);
  }

  /** In any attract mode the start key wins: mode 200, both clears, cascade count 0. */
  lemma AttractStartKey(s: GameState, now: real, pressed: set<string>, coin: nat -> bool)
    requires |s.correctTiles| > 0
    requires 100 <= s.mode <= 199 && KEY_START in pressed
    ensures var st := Next(s, now, pressed, coin);
      && st.state.mode == 200 && st.state.undertaleCount == 0 && st.state.startTime == now
      && !st.state.modeInitialized && st.state.newMode
      && st.events == [ClearRules(true, true)]
  {
  }

  /**
   * Without the start key, 100 moves to 101 in the same update, 101 and 102
   * alternate once more than 10 seconds have passed, and the other attract
   * modes stay put.
   */
  lemma AttractCycle(s: GameState, now: real, pressed: set<string>, coin: nat -> bool)
    requires |s.correctTiles| > 0
    requires 100 <= s.mode <= 199 && KEY_START !in pressed
    ensures var st := Next(s, now, pressed, coin);
      && (s.mode == 100 ==>
            && st.state.mode == 101
            && st.events == (if s.modeInitialized then [] else [InstallRules(100)]) + [ClearRules(false, false)])
      && (s.mode == 101 ==> st.state.mode == if now - s.startTime > 10.0 then 102 else 101)
      && (s.mode == 102 ==> st.state.mode == if now - s.startTime > 10.0 then 101 else 102)
      && (103 <= s.mode ==> st == Step(s.(newMode := false, modeInitialized := true), []))
  {
  }

  /**
   * In the cascade the count of sound cues rises by at most one per update,
   * exactly when it is below 5 and more than count * CASCADE_TIME seconds
   * have passed, and with a cue each time; after 7 seconds the game moves
   * to 300.
   */
  lemma CascadeStep(s: GameState, now: real, pressed: set<string>, coin: nat -> bool)
    requires |s.correctTiles| > 0
    requires 200 <= s.mode <= 299
    ensures var st := Next(s, now, pressed, coin);
      var elapsed := now - s.startTime;
      var t := st.state;
      && s.undertaleCount <= t.undertaleCount <= s.undertaleCount + 1
      && (s.undertaleCount <= 5 ==> t.undertaleCount <= 5)
      && (t.undertaleCount == s.undertaleCount + 1 <==>
            s.undertaleCount < 5 && elapsed > (s.undertaleCount as real) * CASCADE_TIME)
      && (PlayClip(Undertale) in st.events <==> t.undertaleCount == s.undertaleCount + 1)
      && t.mode == if elapsed > 7.0 then 300 else s.mode
  {
  }

  /** Decide step: key 'a' leads to 301, else key 'b' to 302, each clearing the grid only; otherwise the mode stays. */
  lemma DecideStep(s: GameState, now: real, pressed: set<string>, coin: nat -> bool)
    requires |s.correctTiles| > 0
    requires 300 <= s.mode <= 399 && s.mode % 10 == 0
    ensures var st := Next(s, now, pressed, coin);
      && st.state.mode == (if "a" in pressed then 301 else if "b" in pressed then 302 else s.mode)
      && (st.state.mode != s.mode ==> st.events[|st.events| - 1] == ClearRules(true, false))
  {
  }

  /**
   * Reveal steps: after 2 seconds, step 1 (left box) leads to 303 or 304 and
   * step 2 (right box) to 305 or 306, the odd (winning) one exactly when the
   * first row's left tile is correct; before that the mode stays.
   */
  lemma RevealStep(s: GameState, now: real, pressed: set<string>, coin: nat -> bool)
    requires |s.correctTiles| > 0
    requires 300 <= s.mode <= 399 && (s.mode % 10 == 1 || s.mode % 10 == 2)
    ensures var t := Next(s, now, pressed, coin).state;
      && (now - s.startTime <= 2.0 ==> t.mode == s.mode)
      && (now - s.startTime > 2.0 ==>
            && (s.mode % 10 == 1 ==> t.mode == 303 || t.mode == 304)
            && (s.mode % 10 == 2 ==> t.mode == 305 || t.mode == 306)
            && (t.mode % 2 == 1 <==> s.correctTiles[0] == 0))
  {
  }

  /** Win step: after 3.5 seconds the mode advances by 7, to the decide step of the next ten. */
  lemma WinStep(s: GameState, now: real, pressed: set<string>, coin: nat -> bool)
    requires |s.correctTiles| > 0
    requires 300 <= s.mode <= 399 && s.mode % 10 == 3
    ensures var t := Next(s, now, pressed, coin).state;
      && t.mode == (if now - s.startTime > 3.5 then s.mode + 7 else s.mode)
      && (now - s.startTime > 3.5 ==> t.mode % 10 == 0)
  {
  }

  /**
   * Lose step: after 5 seconds the game returns to attract mode 100 with
   * both clears and reset_game: fresh tiles, count 0, scream not started;
   * before that the mode stays.
   */
  lemma LoseStep(s: GameState, now: real, pressed: set<string>, coin: nat -> bool)
    requires |s.correctTiles| > 0
    requires 300 <= s.mode <= 399 && s.mode % 10 == 4
    ensures var st := Next(s, now, pressed, coin);
      && (now - s.startTime <= 5.0 ==> st.state.mode == s.mode)
      && (now - s.startTime > 5.0 ==>
            && st.state.mode == 100 && st.state.startTime == now
            && st.state.undertaleCount == 0 && !st.state.startedScream && st.state.correctTiles == GenCorrectTiles(coin)
            && |st.events| > 0 && st.events[|st.events| - 1] == ClearRules(true, true))
  {
  }

  /** Gameplay steps 5 to 9 and modes from 400 up have no branch: an update only marks the mode initialised. */
  lemma DeadEnds(s: GameState, now: real, pressed: set<string>, coin: nat -> bool)
    requires |s.correctTiles| > 0
    requires (300 <= s.mode <= 399 && s.mode % 10 >= 5) || s.mode >= 400
    ensures Next(s, now, pressed, coin) == Step(s.(newMode := false, modeInitialized := true), [])
  {
  }

  /**
   * In a lose step the scream cue sounds exactly when half a second has
   * passed and it has not sounded yet; the flag then stays on until the
   * reset after 5 seconds turns it off.
   */
  lemma ScreamLatch(s: GameState, now: real, pressed: set<string>, coin: nat -> bool)
    requires |s.correctTiles| > 0
    requires 300 <= s.mode <= 399 && s.mode % 10 == 4
    ensures var st := Next(s, now, pressed, coin);
      var elapsed := now - s.startTime;
      && (ScreamCue in st.events <==> !s.startedScream && elapsed > 0.5)
      && st.state.startedScream == ((s.startedScream || elapsed > 0.5) && elapsed <= 5.0)
  {
  }

  /** Outside the lose step the scream flag never changes and the scream cue never sounds. */
  lemma NoScreamOutsideLose(s: GameState, now: real, pressed: set<string>, coin: nat -> bool)
    requires |s.correctTiles| > 0
    requires !(300 <= s.mode <= 399 && s.mode % 10 == 4)
    ensures var st := Next(s, now, pressed, coin);
      st.state.startedScream == s.startedScream && ScreamCue !in st.events
  {
  }

  /** The parts of the invariant a single update keeps without looking at the mode. */
  lemma InvFlags(s: GameState, now: real, pressed: set<string>, coin: nat -> bool)
    requires Inv(s)
    requires var t := Next(s, now, pressed, coin).state;
      && t.mode in REACHABLE && 0 <= t.undertaleCount <= 5
      && (t.correctTiles == s.correctTiles || t.correctTiles == GenCorrectTiles(coin))
    ensures Inv(Next(s, now, pressed, coin).state)
  {
    InitializedIffNoModeChange(s, now, pressed, coin);
  }

  lemma InvAttract(s: GameState, now: real, pressed: set<string>, coin: nat -> bool)
    requires Inv(s) && s.mode <= 199
    ensures Inv(Next(s, now, pressed, coin).state)
  {
    if KEY_START in pressed {
      AttractStartKey(s, now, pressed, coin);
    } else {
      AttractCycle(s, now, pressed, coin);
    }
    InvFlags(s, now, pressed, coin);
  }

  lemma InvCascade(s: GameState, now: real, pressed: set<string>, coin: nat -> bool)
    requires Inv(s) && 200 <= s.mode <= 299
    ensures Inv(Next(s, now, pressed, coin).state)
  {
    CascadeStep(s, now, pressed, coin);
    InvFlags(s, now, pressed, coin);
  }

  lemma InvChoose(s: GameState, now: real, pressed: set<string>, coin: nat -> bool)
    requires Inv(s) && 300 <= s.mode && s.mode % 10 <= 2
    ensures Inv(Next(s, now, pressed, coin).state)
  {
    if s.mode % 10 == 0 {
      DecideStep(s, now, pressed, coin);
    } else {
      RevealStep(s, now, pressed, coin);
    }
    InvFlags(s, now, pressed, coin);
  }

  lemma InvOutcome(s: GameState, now: real, pressed: set<string>, coin: nat -> bool)
    requires Inv(s) && 300 <= s.mode && s.mode % 10 >= 3
    ensures Inv(Next(s, now, pressed, coin).state)
  {
    var step := s.mode % 10;
    if step == 3 {
      WinStep(s, now, pressed, coin);
    } else if step == 4 {
      LoseStep(s, now, pressed, coin);
    } else {
      DeadEnds(s, now, pressed, coin);
    }
    InvFlags(s, now, pressed, coin);
  }

  /** An update keeps the state consistent. */
  lemma NextPreservesInv(s: GameState, now: real, pressed: set<string>, coin: nat -> bool)
    requires Inv(s)
    ensures Inv(Next(s, now, pressed, coin).state)
  {
    if s.mode <= 199 {
      InvAttract(s, now, pressed, coin);
    } else if s.mode <= 299 {
      InvCascade(s, now, pressed, coin);
    } else if s.mode % 10 <= 2 {
      InvChoose(s, now, pressed, coin);
    } else {
      InvOutcome(s, now, pressed, coin);
    }
  }

  // ---------------------------------------------------------------------
  // The game object
  // ---------------------------------------------------------------------

  /** All game logic: the current mode, its flags, the round's tiles, and the log of calls made so far. */
  class Game {
    var mode: int
    var modeInitialized: bool
    var newMode: bool
    var startTime: real
    var correctTiles: seq<int>
    var undertaleCount: int
    var startedScream: bool
    var log: seq<Event>

    function State(): GameState
      reads this
    {
      GameState(mode, modeInitialized, newMode, startTime, correctTiles, undertaleCount, startedScream)
    }

    predicate Valid()
      reads this
    {
      Inv(State())
    }

    /** Game(control, grid): mode 100, not initialised, clock at 0, fresh tiles, no calls yet. */
    constructor (coin: nat -> bool)
      ensures State() == Initial(coin) && log == [] && Valid()
    {
      mode := 100;
      modeInitialized := false;
      newMode := false;
      startTime := 0.0;
      correctTiles := GenCorrectTiles(coin);
      undertaleCount := 0;
      startedScream := false;
      log := [];
    }

    /** update(): the frame at time now, with the keys in pressed; coin feeds reset_game's draw. */
    method Update(now: real, pressed: set<string>, coin: nat -> bool)
      requires Valid()
      modifies this
      ensures var st := Next(old(State()), now, pressed, coin);
        State() == st.state && log == old(log) + st.events
      ensures Valid()
    {
      NextPreservesInv(State(), now, pressed, coin);
      ghost var s0 := State();
      var elapsed := now - startTime;
      newMode := false;

      if mode <= 99 {
        log := log + [InstallRules(mode)];
      } else if mode <= 199 {
        UpdateAttract(elapsed, pressed, now);
      } else if mode <= 299 {
        UpdateCascade(elapsed, now);
      } else if mode <= 399 {
        UpdateGameplay(elapsed, pressed, now, coin);
      }
      assert State() == Dispatch(s0, now, pressed, coin).state;

      // Once a mode's first update ran without a mode change, its install block is done.
      if !modeInitialized && !newMode {
        modeInitialized := true;
      }
    }

    /** The attract branch of update(). */
    method UpdateAttract(elapsed: real, pressed: set<string>, now: real)
      modifies this
      ensures var st := Attract(old(State()), elapsed, pressed, now);
        State() == st.state && log == old(log) + st.events
    {
      if KEY_START in pressed {
        SetMode(200, now, true, true);
        undertaleCount := 0;
      } else if mode == 100 {
        Install([]);
        SetMode(101, now);
      } else if mode == 101 {
        Install([]);
        if elapsed > 10.0 {
          SetMode(102, now);
        }
      } else if mode == 102 {
        Install([]);
        if elapsed > 10.0 {
          SetMode(101, now);
        }
      }
    }

    /** The cascade branch of update(). */
    method UpdateCascade(elapsed: real, now: real)
      modifies this
      ensures var st := Cascade(old(State()), elapsed, now);
        State() == st.state && log == old(log) + st.events
    {
      Install([]);
      if undertaleCount < 5 && elapsed > (undertaleCount as real) * CASCADE_TIME {
        log := log + [PlayClip(Undertale)];
        undertaleCount := undertaleCount + 1;
      }
      if elapsed > 7.0 {
        SetMode(300, now);
      }
    }

    /** The gameplay branch of update(). */
    method UpdateGameplay(elapsed: real, pressed: set<string>, now: real, coin: nat -> bool)
      requires |correctTiles| > 0
      modifies this
      ensures var st := Gameplay(old(State()), elapsed, pressed, now, coin);
        State() == st.state && log == old(log) + st.events
    {
      // The source reads the third decimal digit; for a three-digit mode that is mode % 10.
      var step := mode % 10;
      if step == 0 {
        UpdateDecide(pressed, now);
      } else if step == 1 {
        UpdateReveal(elapsed, now, 303, 304);
      } else if step == 2 {
        UpdateReveal(elapsed, now, 305, 306);
      } else if step == 3 {
        UpdateWon(elapsed, now);
      } else if step == 4 {
        UpdateLost(elapsed, now, coin);
      }
    }

    /** Gameplay step 0 of update(). */
    method UpdateDecide(pressed: set<string>, now: real)
      modifies this
      ensures var st := Decide(old(State()), pressed, now);
        State() == st.state && log == old(log) + st.events
    {
      Install([PlayClip(FinalFantasy)]);
      if KEY_BOXES[0] in pressed {
        SetMode(301, now, true);
      } else if KEY_BOXES[1] in pressed {
        SetMode(302, now, true);
      }
    }

    /** Gameplay steps 1 and 2 of update(). */
    method UpdateReveal(elapsed: real, now: real, win: int, lose: int)
      requires |correctTiles| > 0
      modifies this
      ensures var st := Reveal(old(State()), elapsed, now, win, lose);
        State() == st.state && log == old(log) + st.events
    {
      Install([StopSound]);
      if elapsed > 2.0 {
        if correctTiles[0] == 0 {
          SetMode(win, now);
        } else {
          SetMode(lose, now);
        }
      }
    }

    /** Gameplay step 3 of update(). */
    method UpdateWon(elapsed: real, now: real)
      modifies this
      ensures var st := Won(old(State()), elapsed, now);
        State() == st.state && log == old(log) + st.events
    {
      Install([CorrectCue]);
      if elapsed > 3.5 {
        SetMode(mode + 7, now);
      }
    }

    /** Gameplay step 4 of update(). */
    method UpdateLost(elapsed: real, now: real, coin: nat -> bool)
      modifies this
      ensures var st := Lost(old(State()), elapsed, now, coin);
        State() == st.state && log == old(log) + st.events
    {
      Install([ShatterCue]);
      if elapsed > 0.5 && !startedScream {
        log := log + [ScreamCue];
        startedScream := true;
      }
      if elapsed > 5.0 {
        SetMode(100, now, true, true);
        ResetGame(coin);
      }
    }

    /** A mode's install block: its cues and its rules, only while the mode is not initialised. */
    method Install(cues: seq<Event>)
      modifies this
      ensures State() == old(State()) && log == old(log) + InstallOnce(old(State()), cues)
    {
      if !modeInitialized {
        log := log + (cues + [InstallRules(mode)]);
      }
    }

    /** set_mode: the new mode, the clock restarted at now, initialisation pending, and one clear_rules call. */
    method SetMode(m: int, now: real, clearGrid: bool := false, clearRailings: bool := false)
      modifies this
      ensures var st := SetModeStep(old(State()), m, now, clearGrid, clearRailings);
        State() == st.state && log == old(log) + st.events
    {
      mode := m;
      startTime := now;
      modeInitialized := false;
      newMode := true;
      log := log + [ClearRules(clearGrid, clearRailings)];
    }

    /** reset_game: fresh tiles, count 0, scream not started; nothing else changes. */
    method ResetGame(coin: nat -> bool)
      modifies this
      ensures State() == Reset(old(State()), coin) && log == old(log)
    {
      correctTiles := GenCorrectTiles(coin);
      undertaleCount := 0;
      startedScream := false;
    }
  }
}
