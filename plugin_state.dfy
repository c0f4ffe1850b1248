// The state of the checkpoint plugin (CheckpointPlugin.cpp) as one value,
// and each handler of the plugin as a function from the state before to the
// state after.  The class CheckpointPlugin (plugin.dfy) keeps these fields
// and its methods are proved to perform exactly these steps.  What the
// handlers ask of the host (whether freeplay is running, the paused flag,
// the controller input, a fresh sample of the scene, the clipboard text) is
// passed in; what they do to the host (apply) is not modelled.
module PluginState {
  import opened Wrappers
  import opened State
  import opened Pod
  import StateCodec
  import SaveFile
  import Base64
  import Clipboard
  import opened Rewind

  /** The plugin's rewindState record. */
  datatype RewindState = RewindState(virtualTimeOffset: real, holdingFor: real, atCheckpoint: bool,
                                     justDeletedCheckpoint: bool, justLoadedQuickCheckpoint: bool,
                                     deleting: bool, buttonsDown: int)

  /** The boolean cvars: cpt_clean_history, cpt_reset_on_goal,
      cpt_reset_on_ball_ground, cpt_next_instead_of_reset and
      cpt_next_prev_when_frozen. */
  datatype Settings = Settings(deleteFutureHistory: bool, resetOnGoal: bool, resetOnBallGround: bool,
                               nextInsteadOfReset: bool, ignorePNNotFrozen: bool)

  /** What a notifier asks of the game before acting. */
  datatype Host = Host(inFreeplay: bool, paused: bool, inReplay: bool)

  /** What OnPreAsync reads from the game on one tick: the clock, the
      controller, the scene as GameState(ServerWrapper) would sample it, and
      the facts record() tests about the ball and the car.  The ball's height
      `ballZ` is read before the frozen ball is re-applied, and the sample
      after, so the two may differ. */
  datatype TickInput = TickInput(now: real, input: Input, sample: GameState, inFreeplay: bool,
                                 hasBall: bool, hasCar: bool, ballInGoal: bool, ballZ: real, ballRadius: real,
                                 carDoubleJumped: bool, wheelContacts: int)

  /** Every field of the plugin, and the contents of the save file.
      `faulted` is set once a handler has thrown (history.at out of range) or
      erased from past the end of the history (undefined behaviour); the
      faulting step leaves the other fields as they were at that point, and
      later steps run on the fields as they stand. */
  datatype Scene = Scene(history: seq<GameState>, latest: GameState, checkpoints: seq<GameState>,
                         curCheckpoint: nat, rewindMode: bool, rewindState: RewindState,
                         dodgeExpiration: real, hasQuickCheckpoint: bool, quickCheckpoint: GameState,
                         lastRecordTime: real, lastRewindTime: real, freezeBall: bool,
                         playingFromCheckpoint: bool, snapshotInterval: real, historyTime: int,
                         maxHistory: int, file: seq<Word>, faulted: bool)

  // ---------------------------------------------------------------------
  // History configuration.

  /** int(x): truncation toward zero. */
  function Trunc(x: real): int {
    if x >= 0.0 then x.Floor else -((-x).Floor)
  }

  /** maxHistory = int(historyTime / snapshotInterval). */
  function HistoryCap(historyTime: int, interval: real): int
    requires 0.0 < interval
  {
    Trunc(historyTime as real / interval)
  }

  /** And at most 12000 samples (120 seconds at 0.01 s). */
  lemma HistoryCapAtMost(historyTime: int, interval: real)
    requires historyTime <= 120 && 0.01 <= interval
    ensures HistoryCap(historyTime, interval) <= 12000
  {
    var q := historyTime as real / interval;
    assert (12000.0 - q) * interval == 12000.0 * interval - historyTime as real;
    NonNegQuotient(12000.0 - q, interval);
  }

  /** With the cvars' ranges (at least 10 seconds, an interval of at most
      0.1 s) the cap is at least 100 samples. */
  lemma HistoryCapBound(historyTime: int, interval: real)
    requires 10 <= historyTime && 0.0 < interval <= 0.1
    ensures 100 <= HistoryCap(historyTime, interval)
  {
    var q := historyTime as real / interval;
    assert (q - 100.0) * interval == historyTime as real - 100.0 * interval;
    NonNegQuotient(q - 100.0, interval);
  }

  /** The invariant the handlers keep: the interval and length within the
      cvars' ranges, the history within its cap of at least 100 samples,
      the checkpoint cursor on a checkpoint (0 when there are none), a
      checkpoint to be at when atCheckpoint, and the playhead at or before the
      present. */
  ghost predicate Valid(s: Scene) {
    && 0.01 <= s.snapshotInterval <= 0.1
    && 10 <= s.historyTime <= 120
    && 100 <= s.maxHistory <= 12000 && |s.history| <= s.maxHistory
    && (if |s.checkpoints| == 0 then s.curCheckpoint == 0 else s.curCheckpoint < |s.checkpoints|)
    && (s.rewindState.atCheckpoint ==> |s.checkpoints| > 0)
    && s.rewindState.virtualTimeOffset <= 0.0
  }

  /** The plugin as constructed: the field initialisers and the globals
      snapshotInterval = 0.010, historyTime = 30, maxHistory derived from them;
      `file` is what the save file holds. */
  function Initial(file: seq<Word>): (s: Scene)
    ensures Valid(s) && s.maxHistory == 3000
  {
    assert 30.0 / 0.01 == 3000.0;
    HistoryCapBound(30, 0.01);
    HistoryCapAtMost(30, 0.01);
    Scene([], DefaultGame(), [], 0, false, RewindState(0.0, 0.0, false, false, false, false, 0), 0.0,
          false, DefaultGame(), 0.0, 0.0, false, false, 0.01, 30, HistoryCap(30, 0.01), file, false)
  }

  /** The cpt_snapshot_interval handler: n hundredths of a second; the
      history is emptied, rewind mode left and the dodge timer cleared. */
  function IntervalChanged(s: Scene, n: int): Scene
    requires Valid(s) && 1 <= n <= 10
  {
    var interval := n as real / 100.0;
    s.(snapshotInterval := interval, maxHistory := HistoryCap(s.historyTime, interval), history := [],
       rewindMode := false, dodgeExpiration := 0.0)
  }

  /** The cpt_history_length handler: t seconds; only the most recent
      samples that fit the new cap are kept. */
  function HistoryLengthChanged(s: Scene, t: int): Scene
    requires Valid(s) && 10 <= t <= 120
  {
    var cap := HistoryCap(t, s.snapshotInterval);
    s.(historyTime := t, maxHistory := cap, history := Trimmed(s.history, cap))
  }

  /** onLoad: the save file loaded, then the snapshot interval and the
      history length set to their cvars' values. */
  function Started(s: Scene, interval: int, length: int): Scene
    requires Valid(s) && 1 <= interval <= 10 && 10 <= length <= 120
  {
    ConfigKeepsValid(s, interval, length);
    var s1 := LoadedFile(s);
    ConfigKeepsValid(s1, interval, length);
    var s2 := IntervalChanged(s1, interval);
    ConfigKeepsValid(s2, interval, length);
    HistoryLengthChanged(s2, length)
  }

  // ---------------------------------------------------------------------
  // The save file.

  /** saveCheckpointFile. */
  function Saved(s: Scene): Scene {
    s.(file := SaveFile.FileWords(s.checkpoints))
  }

  /** loadCheckpointFile: the records of the file appended to the checkpoints. */
  function LoadedFile(s: Scene): Scene {
    s.(checkpoints := s.checkpoints + SaveFile.FileRecords(s.file, StateCodec.TakeGame))
  }

  // ---------------------------------------------------------------------
  // Loading states.

  /** The rewindState loadGameState leaves: no offset, no hold, not at a
      checkpoint, no pending delete, and every button taken as down. */
  const AfterLoad: RewindState := RewindState(0.0, 0.0, false, false, false, false, 0x7f)

  /** loadGameState: `g` becomes the frozen scene in rewind mode. */
  function LoadState(s: Scene, g: GameState): Scene {
    s.(latest := g, rewindState := AfterLoad, rewindMode := true, freezeBall := false,
       hasQuickCheckpoint := false, playingFromCheckpoint := true)
  }

  /** loadCurCheckpoint. */
  function LoadCur(s: Scene): Scene
    requires s.curCheckpoint < |s.checkpoints|
  {
    var t := LoadState(s, s.checkpoints[s.curCheckpoint]);
    t.(rewindState := t.rewindState.(atCheckpoint := true))
  }

  /** loadLatestCheckpoint: the quick checkpoint if there is one, else the
      current checkpoint, else only the playhead is reset. */
  function LoadLatest(s: Scene): Scene
    requires Valid(s)
  {
    if s.hasQuickCheckpoint then
      var t := LoadState(s, s.quickCheckpoint);
      t.(hasQuickCheckpoint := true, rewindState := t.rewindState.(justLoadedQuickCheckpoint := true))
    else if |s.checkpoints| > 0 then LoadCur(s)
    else s.(rewindState := s.rewindState.(virtualTimeOffset := 0.0, holdingFor := 0.0))
  }

  function Last(h: seq<GameState>): GameState
    requires |h| > 0
  {
    h[|h| - 1]
  }

  // ---------------------------------------------------------------------
  // The notifiers and hooks.

  /** The Countdown.BeginState hook: a freeplay reset. */
  function Countdown(s: Scene): Scene {
    s.(playingFromCheckpoint := false, rewindMode := false, dodgeExpiration := 0.0)
  }

  /** The OnHitGoal hook. */
  function HitGoal(s: Scene, settings: Settings, inFreeplay: bool): Scene
    requires Valid(s)
  {
    if !inFreeplay || s.rewindMode || !s.playingFromCheckpoint || !settings.resetOnGoal then s
    else LoadLatest(s)
  }

  /** cpt_freeze: rewind mode at the most recent sample. */
  function Freeze(s: Scene, h: Host): Scene {
    if !h.inFreeplay || h.paused || |s.history| == 0 || s.rewindMode then s
    else LoadState(s, Last(s.history))
  }

  /** cpt_do_checkpoint.  In a replay, the watched player's state (`replay`,
      None when it cannot be found) is added.  In freeplay outside rewind
      mode the latest checkpoint is loaded.  In rewind mode at a checkpoint
      the first press arms the delete and the second erases that checkpoint;
      elsewhere the frozen scene is added as the last checkpoint. */
  function DoCheckpoint(s: Scene, h: Host, replay: Option<GameState>): Scene
    requires Valid(s)
  {
    if h.inReplay then
      if replay.None? then s else Saved(s.(checkpoints := s.checkpoints + [replay.value]))
    else if !h.inFreeplay || h.paused then s
    else if !s.rewindMode then LoadLatest(s)
    else
      var t := s.(hasQuickCheckpoint := false);
      if t.rewindState.atCheckpoint then
        if !t.rewindState.deleting then t.(rewindState := t.rewindState.(deleting := true))
        else Saved(Deleted(t))
      else
        Saved(t.(curCheckpoint := |t.checkpoints|, checkpoints := t.checkpoints + [t.latest],
                 rewindState := t.rewindState.(atCheckpoint := true, justDeletedCheckpoint := false)))
  }

  /** The second press at a checkpoint: the current checkpoint is erased and
      the cursor stays where it was, or moves to the new last checkpoint. */
  function Deleted(s: Scene): Scene
    requires s.curCheckpoint < |s.checkpoints|
  {
    var cps := Erase(s.checkpoints, s.curCheckpoint);
    s.(checkpoints := cps, curCheckpoint := CursorAfterDelete(s.curCheckpoint, |cps|),
       rewindState := s.rewindState.(deleting := false, atCheckpoint := false, justDeletedCheckpoint := true))
  }

  /** Whether cpt_prev_checkpoint / cpt_next_checkpoint act at all. */
  predicate Navigates(s: Scene, settings: Settings, h: Host) {
    h.inFreeplay && !h.paused && |s.checkpoints| > 0 && !(settings.ignorePNNotFrozen && !s.rewindMode)
  }

  /** cpt_prev_checkpoint: one back with wrap-around, except right after a
      delete, when the cursor stays; then that checkpoint is loaded. */
  function Prev(s: Scene, settings: Settings, h: Host): Scene
    requires Valid(s)
  {
    if !Navigates(s, settings, h) then s
    else if s.rewindState.justDeletedCheckpoint then LoadCur(s)
    else LoadCur(s.(curCheckpoint := PrevIndex(s.curCheckpoint, |s.checkpoints|)))
  }

  /** cpt_next_checkpoint: one forward with wrap-around, then load. */
  function Next(s: Scene, settings: Settings, h: Host): Scene
    requires Valid(s)
  {
    if !Navigates(s, settings, h) then s
    else LoadCur(s.(curCheckpoint := NextIndex(s.curCheckpoint, |s.checkpoints|)))
  }

  /** cpt_freeze_ball.  In rewind mode it only asks to leave rewind mode with
      the ball frozen.  With the ball frozen it takes the current car into the
      frozen scene and makes that the quick checkpoint.  Otherwise it freezes
      the most recent sample. */
  function FreezeBall(s: Scene, settings: Settings, h: Host): Scene {
    if !h.inFreeplay || h.paused || |s.history| == 0 then s
    else if s.rewindMode then s.(freezeBall := true)
    else if s.freezeBall then
      var l := s.latest.(car := Last(s.history).car);
      s.(freezeBall := false, latest := l, quickCheckpoint := l, hasQuickCheckpoint := true)
    else if settings.ignorePNNotFrozen then s
    else s.(latest := Last(s.history), freezeBall := true)
  }

  /** The state cpt_copy puts on the clipboard: the watched player's state in
      a replay, else the frozen scene, the quick checkpoint or the current
      checkpoint, in that order of preference; None when there is nothing. */
  function CopySource(s: Scene, inReplay: bool, replay: Option<GameState>): Option<GameState>
    requires Valid(s)
  {
    if inReplay then replay
    else if s.rewindMode then Some(s.latest)
    else if s.hasQuickCheckpoint then Some(s.quickCheckpoint)
    else if |s.checkpoints| > 0 then Some(s.checkpoints[s.curCheckpoint])
    else None
  }

  /** The text cpt_copy writes to the clipboard. */
  function CopyText(s: Scene, inReplay: bool, replay: Option<GameState>,
                    pack: seq<Word> -> seq<Base64.byte>): Option<string>
    requires Valid(s)
  {
    match CopySource(s, inReplay, replay)
    case None => None
    case Some(g) => Some(Clipboard.Frame(StateCodec.Text(g, pack)))
  }

  /** cpt_paste: a well-framed clipboard text (`clip`, None when the
      clipboard cannot be read) becomes the quick checkpoint and is loaded. */
  function Paste(s: Scene, h: Host, clip: Option<string>, unpack: seq<Base64.byte> -> seq<Word>): Scene {
    if !h.inFreeplay || h.paused || clip.None? then s
    else match Clipboard.Unframe(clip.value)
      case None => s
      case Some(payload) => QuickLoaded(s, StateCodec.FromText(payload, unpack))
  }

  /** cpt_paste on a well-framed text: the state read from it becomes the
      quick checkpoint and is loaded. */
  function QuickLoaded(s: Scene, g: GameState): Scene {
    var t := LoadState(s.(quickCheckpoint := g), g);
    t.(hasQuickCheckpoint := true, rewindState := t.rewindState.(justLoadedQuickCheckpoint := true))
  }

  // ---------------------------------------------------------------------
  // The tick: rewind() in rewind mode, record() otherwise.

  /** rewind(): one tick of rewind mode.  Ticks are taken at most every 0.03 s
      of game time and at least 0.01 s apart; a clock that went back only
      resets the tick time.  A control pressed beyond those held on the
      previous tick, more than 0.1 s after the last sample, leaves rewind mode
      (taking a quick checkpoint, and cutting the history after the playhead if
      so set, unless at a checkpoint).  Otherwise the stick moves the playhead,
      faster the longer it is held, and the scene shown becomes the sample
      under the playhead, blended with the next one between two samples.  On an
      empty history that read throws (see RewindThrows). */
  function RewindTick(s: Scene, settings: Settings, now: real, ci: Input,
                      slerp: (Rot, Rot, real) -> Rot): Scene
    requires Valid(s)
  {
    var elapsed := RewindElapsed(now, s.lastRewindTime);
    if elapsed < 0.0 then s.(lastRewindTime := now)
    else if elapsed < 0.01 then s
    else
      var s1 := s.(lastRewindTime := now);
      var rs := s.rewindState;
      var mask := ButtonMask(ci, rs.atCheckpoint || rs.justLoadedQuickCheckpoint);
      if mask != 0 then Pressing(s1, settings, now, mask)
      else
        var s2 := s1.(rewindState := rs.(buttonsDown := 0));
        if Abs(ci.steer) < 0.05 then s2 else Steering(s2, ci.steer, elapsed, slerp)
  }

  /** A taken tick with some control pressed: rewind mode is left when
      ShouldExit says so, and the mask is stored. */
  function Pressing(s: Scene, settings: Settings, now: real, mask: int): Scene
    requires Valid(s)
  {
    var rs := s.rewindState;
    var s1 := if ShouldExit(mask, rs.buttonsDown, now, s.lastRecordTime) then Resumed(s, settings, now) else s;
    s1.(rewindState := rs.(buttonsDown := mask))
  }

  /** Leaving rewind mode: recording resumes from `now`, the dodge timer is
      set from the car shown, and away from a checkpoint a quick checkpoint
      is taken. */
  function Resumed(s: Scene, settings: Settings, now: real): Scene
    requires Valid(s)
  {
    var s1 := s.(rewindMode := false, lastRecordTime := now,
                 dodgeExpiration := DodgeExpiration(s.latest.car, now));
    if s.rewindState.atCheckpoint then s1 else QuickTaken(s1, settings)
  }

  /** The scene shown becomes the quick checkpoint, and with
      cpt_clean_history the samples after the playhead are dropped. */
  function QuickTaken(s: Scene, settings: Settings): Scene
    requires Valid(s)
  {
    var s1 := s.(hasQuickCheckpoint := true, quickCheckpoint := s.latest);
    if !settings.deleteFutureHistory then s1
    else if |s.history| == 0 then s1.(faulted := true)
    else s1.(history := s.history[..CutIndex(s)])
  }

  /** A taken tick with nothing pressed and the stick out of its dead zone:
      the playhead moves and the scene under it is shown. */
  function Steering(s: Scene, steer: real, elapsed: real, slerp: (Rot, Rot, real) -> Rot): Scene
    requires Valid(s)
  {
    var rs := s.rewindState;
    var hold := NextHold(rs.holdingFor, steer, elapsed);
    var offset := NextOffset(rs.virtualTimeOffset, Factor(hold), elapsed, steer,
                             s.snapshotInterval, |s.history|);
    var s1 := s.(rewindState := rs.(deleting := false, holdingFor := hold, virtualTimeOffset := offset));
    if |s.history| == 0 then s1.(faulted := true)
    else s1.(latest := Shown(s.history, offset, s.snapshotInterval, slerp))
  }

  /** The stick step as evidently intended: on an empty history no sample is
      read, so nothing throws and the scene is kept. */
  function SteeringIntended(s: Scene, steer: real, elapsed: real, slerp: (Rot, Rot, real) -> Rot): Scene
    requires Valid(s)
  {
    var r := Steering(s, steer, elapsed, slerp);
    if |s.history| == 0 then r.(faulted := s.faulted) else r
  }

  /** Whether a rewind tick reaches the stick step on an empty history, where
      history.at throws. */
  predicate RewindThrows(s: Scene, now: real, ci: Input) {
    TickTaken(s, now) && TickMask(s, ci) == 0 && Abs(ci.steer) >= 0.05 && |s.history| == 0
  }

  /** Where leaving rewind mode cuts a non-empty history, as written (with
      the size_t wrap-around). */
  function CutIndex(s: Scene): (i: nat)
    requires Valid(s) && |s.history| > 0
    ensures i < |s.history|
  {
    TruncateAsWrittenInRange(s.rewindState.virtualTimeOffset, s.snapshotInterval, |s.history|);
    TruncateIndexAsWritten(s.rewindState.virtualTimeOffset, s.snapshotInterval, |s.history|)
  }

  /** The scene under the playhead: the sample at the played index, blended
      with the next one when the index is below the last. */
  function Shown(history: seq<GameState>, offset: real, interval: real, slerp: (Rot, Rot, real) -> Rot): GameState
    requires 0.0 < interval && |history| > 0
  {
    var current := PlayheadIndex(offset, interval, |history|);
    PlayheadValid(offset, interval, |history|);
    if current < SizeT(|history| - 1) then
      BlendGame(history[current], history[current + 1], AdvancePct(offset, interval), slerp)
    else history[current]
  }

  /** Whether record() sees a reset condition: playing from a checkpoint with
      a reset setting on, and the ball in a goal or near the ground. */
  predicate ResetDue(s: Scene, settings: Settings, t: TickInput) {
    s.playingFromCheckpoint && (settings.resetOnGoal || settings.resetOnBallGround)
    && ((settings.resetOnGoal && t.ballInGoal)
        || (settings.resetOnBallGround && t.ballZ < t.ballRadius + 5.0))
  }

  /** record(): once an interval has passed, either the reset of a
      checkpoint run (to the next checkpoint, or to the latest one), or a new
      sample appended to the history, dropping the oldest at capacity.  The
      dodge timer is cleared once it runs out or the car has double-jumped or
      has all four wheels down. */
  function Record(s: Scene, settings: Settings, t: TickInput): Scene
    requires Valid(s)
  {
    if !RecordDue(t.now, s.lastRecordTime, s.snapshotInterval) then s
    else if s.playingFromCheckpoint && (settings.resetOnGoal || settings.resetOnBallGround) && !t.hasBall then s
    else if ResetDue(s, settings, t) then ResetRun(s, settings)
    else Sampled(s, t)
  }

  /** The end of a checkpoint run: the next checkpoint when so set (and no
      quick checkpoint is held), the latest one otherwise. */
  function ResetRun(s: Scene, settings: Settings): Scene
    requires Valid(s)
  {
    if settings.nextInsteadOfReset && !s.hasQuickCheckpoint && |s.checkpoints| > 0 then
      LoadCur(s.(curCheckpoint := NextIndex(s.curCheckpoint, |s.checkpoints|)))
    else LoadLatest(s)
  }

  /** A sample taken: the record time, the dodge timer, and the history
      with the new sample pushed. */
  function Sampled(s: Scene, t: TickInput): Scene
    requires 0 <= s.maxHistory
  {
    var clear := s.dodgeExpiration != 0.0
                 && (t.now > s.dodgeExpiration || t.carDoubleJumped || t.wheelContacts == 4);
    s.(lastRecordTime := t.now, dodgeExpiration := if clear then 0.0 else s.dodgeExpiration,
       history := Pushed(s.history, t.sample, s.maxHistory))
  }

  /** OnPreAsync: nothing outside freeplay or without a ball and a car; in
      rewind mode a rewind tick, after which a frozen ball ends rewind mode;
      otherwise a record tick. */
  function Tick(s: Scene, settings: Settings, t: TickInput, slerp: (Rot, Rot, real) -> Rot): Scene
    requires Valid(s)
  {
    if !t.inFreeplay || !t.hasBall || !t.hasCar then s
    else if s.rewindMode then
      var r := RewindTick(s, settings, t.now, t.input, slerp);
      if RewindThrows(s, t.now, t.input) then r
      else if r.freezeBall then r.(rewindMode := false) else r
    else Record(s, settings, t)
  }

  // ---------------------------------------------------------------------
  // The invariant.

  /** The configuration handlers, the save file and the freeplay reset keep
      the invariant. */
  lemma ConfigKeepsValid(s: Scene, n: int, t: int)
    requires Valid(s)
    ensures 1 <= n <= 10 ==> Valid(IntervalChanged(s, n))
    ensures 10 <= t <= 120 ==> Valid(HistoryLengthChanged(s, t))
    ensures Valid(Saved(s)) && Valid(LoadedFile(s)) && Valid(Countdown(s))
  {
    if 1 <= n <= 10 {
      HistoryCapBound(s.historyTime, n as real / 100.0);
      HistoryCapAtMost(s.historyTime, n as real / 100.0);
    }
    if 10 <= t <= 120 {
      HistoryCapBound(t, s.snapshotInterval);
      HistoryCapAtMost(t, s.snapshotInterval);
      TrimmedRule(s.history, HistoryCap(t, s.snapshotInterval));
    }
  }

  /** So do the loads. */
  lemma LoadsKeepValid(s: Scene, g: GameState)
    requires Valid(s)
    ensures Valid(LoadState(s, g)) && Valid(LoadLatest(s))
    ensures |s.checkpoints| > 0 ==> Valid(LoadCur(s))
  {
  }

  /** So do the hooks and the notifiers that only load or freeze. */
  lemma HitGoalKeepsValid(s: Scene, settings: Settings, inFreeplay: bool)
    requires Valid(s)
    ensures Valid(HitGoal(s, settings, inFreeplay))
  {
  }

  lemma FreezeKeepsValid(s: Scene, h: Host)
    requires Valid(s)
    ensures Valid(Freeze(s, h))
  {
  }

  lemma FreezeBallKeepsValid(s: Scene, settings: Settings, h: Host)
    requires Valid(s)
    ensures Valid(FreezeBall(s, settings, h))
  {
  }

  lemma PasteKeepsValid(s: Scene, h: Host, clip: Option<string>, unpack: seq<Base64.byte> -> seq<Word>)
    requires Valid(s)
    ensures Valid(Paste(s, h, clip, unpack))
  {
  }

  /** So does cpt_do_checkpoint: a delete leaves the cursor on a checkpoint. */
  lemma DoCheckpointKeepsValid(s: Scene, h: Host, replay: Option<GameState>)
    requires Valid(s)
    ensures Valid(DoCheckpoint(s, h, replay))
  {
    if h.inFreeplay && !h.paused && !h.inReplay && s.rewindMode && s.rewindState.atCheckpoint
       && s.rewindState.deleting {
      var cps := Erase(s.checkpoints, s.curCheckpoint);
      if |cps| > 0 {
        SizeTAtMost(|cps| - 1);
      }
    }
  }

  /** So do prev and next. */
  lemma NavigationKeepsValid(s: Scene, settings: Settings, h: Host)
    requires Valid(s)
    ensures Valid(Prev(s, settings, h)) && Valid(Next(s, settings, h))
  {
    if Navigates(s, settings, h) {
      NextPrevInverse(s.curCheckpoint, |s.checkpoints|);
    }
  }

  /** And so does every tick: the playhead stays at or before the present,
      and the history within its cap. */
  lemma RewindKeepsValid(s: Scene, settings: Settings, now: real, ci: Input, slerp: (Rot, Rot, real) -> Rot)
    requires Valid(s)
    ensures Valid(RewindTick(s, settings, now, ci, slerp))
  {
    var elapsed := RewindElapsed(now, s.lastRewindTime);
    var s1 := s.(lastRewindTime := now);
    if elapsed < 0.0 {
      assert RewindTick(s, settings, now, ci, slerp) == s1;
    } else if 0.01 <= elapsed {
      var rs := s.rewindState;
      var mask := ButtonMask(ci, rs.atCheckpoint || rs.justLoadedQuickCheckpoint);
      var s2 := s1.(rewindState := rs.(buttonsDown := 0));
      if mask != 0 {
        assert RewindTick(s, settings, now, ci, slerp) == Pressing(s1, settings, now, mask);
        PressingKeepsValid(s1, settings, now, mask);
      } else if Abs(ci.steer) >= 0.05 {
        assert RewindTick(s, settings, now, ci, slerp) == Steering(s2, ci.steer, elapsed, slerp);
        SteeringKeepsValid(s2, ci.steer, elapsed, slerp);
      } else {
        assert RewindTick(s, settings, now, ci, slerp) == s2;
      }
    }
  }

  lemma PressingKeepsValid(s: Scene, settings: Settings, now: real, mask: int)
    requires Valid(s)
    ensures Valid(Pressing(s, settings, now, mask))
  {
  }

  lemma SteeringKeepsValid(s: Scene, steer: real, elapsed: real, slerp: (Rot, Rot, real) -> Rot)
    requires Valid(s)
    ensures Valid(Steering(s, steer, elapsed, slerp))
  {
  }

  lemma RecordKeepsValid(s: Scene, settings: Settings, t: TickInput)
    requires Valid(s)
    ensures Valid(Record(s, settings, t))
  {
    if RecordDue(t.now, s.lastRecordTime, s.snapshotInterval) {
      PushedRule(s.history, t.sample, s.maxHistory);
      if |s.checkpoints| > 0 {
        NextPrevInverse(s.curCheckpoint, |s.checkpoints|);
      }
    }
  }

  lemma TickKeepsValid(s: Scene, settings: Settings, t: TickInput, slerp: (Rot, Rot, real) -> Rot)
    requires Valid(s)
    ensures Valid(Tick(s, settings, t, slerp))
  {
    RewindKeepsValid(s, settings, t.now, t.input, slerp);
    RecordKeepsValid(s, settings, t);
  }

  // ---------------------------------------------------------------------
  // cpt_do_checkpoint.

  /** In freeplay and rewind mode, at a checkpoint. */
  predicate AtCheckpointInRewind(s: Scene, h: Host) {
    h.inFreeplay && !h.paused && !h.inReplay && s.rewindMode && s.rewindState.atCheckpoint
  }

  /** The first press at a checkpoint only arms the delete: the checkpoints,
      the cursor and the file are untouched. */
  lemma DeleteFirstPress(s: Scene, h: Host, replay: Option<GameState>)
    requires Valid(s) && AtCheckpointInRewind(s, h) && !s.rewindState.deleting
    ensures var r := DoCheckpoint(s, h, replay);
            r.checkpoints == s.checkpoints && r.curCheckpoint == s.curCheckpoint && r.file == s.file
            && r.rewindState.deleting && r.rewindState.atCheckpoint && !r.hasQuickCheckpoint
  {
  }

  /** The second press erases exactly the checkpoint at the cursor, keeps the
      cursor on a checkpoint (std::min(cursor, size - 1) while any are left),
      disarms the delete, leaves the checkpoint and marks it just deleted, and
      saves the file. */
  lemma DeleteSecondPress(s: Scene, h: Host, replay: Option<GameState>)
    requires Valid(s) && AtCheckpointInRewind(s, h) && s.rewindState.deleting
    requires |s.checkpoints| < SizeTModulus
    ensures var r, i := DoCheckpoint(s, h, replay), s.curCheckpoint;
            |r.checkpoints| == |s.checkpoints| - 1
            && (forall k :: 0 <= k < i ==> r.checkpoints[k] == s.checkpoints[k])
            && (forall k :: i <= k < |r.checkpoints| ==> r.checkpoints[k] == s.checkpoints[k + 1])
            && (|r.checkpoints| > 0 ==> r.curCheckpoint == MinInt(i, |r.checkpoints| - 1))
            && !r.rewindState.deleting && !r.rewindState.atCheckpoint && r.rewindState.justDeletedCheckpoint
            && r.file == SaveFile.FileWords(r.checkpoints)
  {
    EraseRule(s.checkpoints, s.curCheckpoint);
    CursorAfterDeleteInRange(s.curCheckpoint, |s.checkpoints| - 1);
  }

  /** Away from a checkpoint a press adds the frozen scene as the last
      checkpoint, puts the cursor on it and saves the file. */
  lemma AddCheckpoint(s: Scene, h: Host, replay: Option<GameState>)
    requires Valid(s) && h.inFreeplay && !h.paused && !h.inReplay && s.rewindMode
    requires !s.rewindState.atCheckpoint
    ensures var r := DoCheckpoint(s, h, replay);
            r.checkpoints == s.checkpoints + [s.latest] && |r.checkpoints| == |s.checkpoints| + 1
            && r.curCheckpoint == |r.checkpoints| - 1 && r.checkpoints[r.curCheckpoint] == s.latest
            && r.rewindState.atCheckpoint && !r.rewindState.justDeletedCheckpoint
            && r.file == SaveFile.FileWords(r.checkpoints)
  {
  }

  /** Outside rewind mode a press loads the latest checkpoint, and in a
      replay it adds the watched player's state. */
  lemma DoCheckpointElsewhere(s: Scene, h: Host, replay: Option<GameState>)
    requires Valid(s)
    ensures h.inReplay && replay.Some? ==> DoCheckpoint(s, h, replay).checkpoints == s.checkpoints + [replay.value]
    ensures h.inReplay && replay.None? ==> DoCheckpoint(s, h, replay) == s
    ensures !h.inReplay && h.inFreeplay && !h.paused && !s.rewindMode ==> DoCheckpoint(s, h, replay) == LoadLatest(s)
    ensures !h.inReplay && (!h.inFreeplay || h.paused) ==> DoCheckpoint(s, h, replay) == s
  {
  }

  // ---------------------------------------------------------------------
  // Navigation.

  /** Prev and next do nothing without checkpoints (or outside freeplay, or
      outside rewind mode when so set).  Otherwise next moves one forward
      with wrap-around, prev one back with wrap-around unless a checkpoint was
      just deleted, and either loads the checkpoint at the cursor, which marks
      it as the one the scene is at. */
  lemma NavigateRule(s: Scene, settings: Settings, h: Host)
    requires Valid(s)
    ensures !Navigates(s, settings, h) ==> Prev(s, settings, h) == s && Next(s, settings, h) == s
    ensures Navigates(s, settings, h) ==>
            var n, p := Next(s, settings, h), Prev(s, settings, h);
            n.curCheckpoint == NextIndex(s.curCheckpoint, |s.checkpoints|)
            && p.curCheckpoint == (if s.rewindState.justDeletedCheckpoint then s.curCheckpoint
                                   else PrevIndex(s.curCheckpoint, |s.checkpoints|))
            && n.checkpoints == s.checkpoints && p.checkpoints == s.checkpoints
            && n.latest == s.checkpoints[n.curCheckpoint] && p.latest == s.checkpoints[p.curCheckpoint]
            && n.rewindMode && n.rewindState.atCheckpoint && !n.rewindState.justDeletedCheckpoint
            && p.rewindMode && p.rewindState.atCheckpoint && !p.rewindState.justDeletedCheckpoint
  {
    if Navigates(s, settings, h) {
      NextPrevInverse(s.curCheckpoint, |s.checkpoints|);
    }
  }

  /** Next and then prev come back to the checkpoint the cursor was on. */
  lemma NextThenPrev(s: Scene, settings: Settings, h: Host)
    requires Valid(s) && Navigates(s, settings, h)
    ensures Valid(Next(s, settings, h))
    ensures Prev(Next(s, settings, h), settings, h).curCheckpoint == s.curCheckpoint
  {
    NextPrevInverse(s.curCheckpoint, |s.checkpoints|);
    NavigationKeepsValid(s, settings, h);
  }

  /** `k` presses of next. */
  function NextPresses(s: Scene, settings: Settings, h: Host, k: nat): (r: Scene)
    requires Valid(s)
    ensures Valid(r)
  {
    if k == 0 then s
    else
      var p := NextPresses(s, settings, h, k - 1);
      NavigationKeepsValid(p, settings, h);
      Next(p, settings, h)
  }

  /** `k` presses of next move the cursor `k` places round the checkpoints ... */
  lemma {:induction false} NextPressesRotate(s: Scene, settings: Settings, h: Host, k: nat)
    requires Valid(s) && Navigates(s, settings, h)
    ensures var r := NextPresses(s, settings, h, k);
            r.checkpoints == s.checkpoints && Navigates(r, settings, h)
            && r.curCheckpoint == NextTimes(s.curCheckpoint, |s.checkpoints|, k)
  {
    if k > 0 {
      NextPressesRotate(s, settings, h, k - 1);
      NavigateRule(NextPresses(s, settings, h, k - 1), settings, h);
    }
  }

  /** ... so as many presses as there are checkpoints come back to the start. */
  lemma NextPressesReturn(s: Scene, settings: Settings, h: Host)
    requires Valid(s) && Navigates(s, settings, h)
    ensures NextPresses(s, settings, h, |s.checkpoints|).curCheckpoint == s.curCheckpoint
  {
    NextPressesRotate(s, settings, h, |s.checkpoints|);
    NextRoundTrip(s.curCheckpoint, |s.checkpoints|);
  }

  /** Prev right after deleting the checkpoint at i loads the checkpoint that
      followed it, or the one before it when the last one was deleted. */
  lemma PrevAfterDelete(s: Scene, settings: Settings, h: Host, replay: Option<GameState>)
    requires Valid(s) && AtCheckpointInRewind(s, h) && s.rewindState.deleting
    requires |s.checkpoints| < SizeTModulus
    ensures var d := DoCheckpoint(s, h, replay);
            var p, i := Prev(d, settings, h), s.curCheckpoint;
            Valid(d)
            && (i < |s.checkpoints| - 1 ==> p.latest == s.checkpoints[i + 1])
            && (0 < i == |s.checkpoints| - 1 ==> p.latest == s.checkpoints[i - 1])
            && (|s.checkpoints| == 1 ==> p == d)
  {
    DoCheckpointKeepsValid(s, h, replay);
    CursorShowsAfterErase(s.checkpoints, s.curCheckpoint);
  }

  // ---------------------------------------------------------------------
  // record() and the history configuration.

  /** A record tick before an interval has passed changes nothing; a
      clock that went back counts as a full interval.  Once due, and with no
      reset of a checkpoint run, the sample is appended and the oldest one
      dropped at capacity, so the history stays within its cap and keeps its
      order. */
  lemma RecordRule(s: Scene, settings: Settings, t: TickInput)
    requires Valid(s)
    ensures !RecordDue(t.now, s.lastRecordTime, s.snapshotInterval) ==> Record(s, settings, t) == s
    ensures t.now < s.lastRecordTime ==> RecordDue(t.now, s.lastRecordTime, s.snapshotInterval)
    ensures RecordDue(t.now, s.lastRecordTime, s.snapshotInterval) && !ResetDue(s, settings, t)
            && (t.hasBall || !s.playingFromCheckpoint)
            ==> var r := Record(s, settings, t);
                |r.history| <= r.maxHistory && r.history[|r.history| - 1] == t.sample
                && r.lastRecordTime == t.now && r.checkpoints == s.checkpoints
                && (|s.history| < s.maxHistory ==> r.history == s.history + [t.sample])
                && (|s.history| == s.maxHistory ==> |r.history| == s.maxHistory
                                                    && r.history[..s.maxHistory - 1] == s.history[1..])
  {
    RecordDueRule(t.now, s.lastRecordTime, s.snapshotInterval);
    PushedRule(s.history, t.sample, s.maxHistory);
  }

  /** A reset of a checkpoint run loads the next checkpoint when so set (and
      no quick checkpoint is held), and otherwise the latest one. */
  lemma RecordResets(s: Scene, settings: Settings, t: TickInput)
    requires Valid(s) && RecordDue(t.now, s.lastRecordTime, s.snapshotInterval) && ResetDue(s, settings, t)
    requires t.hasBall
    ensures var r := Record(s, settings, t);
            r.history == s.history
            && (settings.nextInsteadOfReset && !s.hasQuickCheckpoint && |s.checkpoints| > 0
                ==> r.curCheckpoint == NextIndex(s.curCheckpoint, |s.checkpoints|)
                    && r.latest == s.checkpoints[r.curCheckpoint])
            && (!(settings.nextInsteadOfReset && !s.hasQuickCheckpoint && |s.checkpoints| > 0)
                ==> r == LoadLatest(s))
  {
    if |s.checkpoints| > 0 {
      NextPrevInverse(s.curCheckpoint, |s.checkpoints|);
    }
  }

  /** Changing the interval empties the history, leaves rewind mode and
      clears the dodge timer; changing the length keeps only the most recent
      samples that fit, in order. */
  lemma ConfigRule(s: Scene, n: int, t: int)
    requires Valid(s)
    ensures 1 <= n <= 10 ==>
            var r := IntervalChanged(s, n);
            r.history == [] && !r.rewindMode && r.dodgeExpiration == 0.0 && r.snapshotInterval == n as real / 100.0
            && r.checkpoints == s.checkpoints
    ensures 10 <= t <= 120 ==>
            var r := HistoryLengthChanged(s, t);
            |r.history| == MinInt(|s.history|, r.maxHistory)
            && r.history == s.history[|s.history| - |r.history|..] && r.historyTime == t
  {
    if 10 <= t <= 120 {
      TrimmedRule(s.history, HistoryCap(t, s.snapshotInterval));
    }
  }

  // ---------------------------------------------------------------------
  // rewind().

  /** A rewind tick that is taken (at least 0.01 s after the last one). */
  predicate TickTaken(s: Scene, now: real) {
    RewindElapsed(now, s.lastRewindTime) >= 0.01
  }

  function TickMask(s: Scene, ci: Input): int {
    ButtonMask(ci, s.rewindState.atCheckpoint || s.rewindState.justLoadedQuickCheckpoint)
  }

  /** Rewind mode ends exactly on a taken tick whose mask exceeds the
      previous one, more than 0.1 s after the last sample; every taken tick
      stores its mask.  On leaving, a quick checkpoint of the frozen scene is
      taken exactly when not at a checkpoint, and the history is cut only
      then. */
  lemma RewindExit(s: Scene, settings: Settings, now: real, ci: Input, slerp: (Rot, Rot, real) -> Rot)
    requires Valid(s) && s.rewindMode
    ensures var r, exit := RewindTick(s, settings, now, ci, slerp),
                           TickTaken(s, now) && ShouldExit(TickMask(s, ci), s.rewindState.buttonsDown, now, s.lastRecordTime);
            (!r.rewindMode <==> exit)
            && (TickTaken(s, now) ==> r.rewindState.buttonsDown == TickMask(s, ci))
            && (exit && !s.rewindState.atCheckpoint ==> r.hasQuickCheckpoint && r.quickCheckpoint == s.latest)
            && (exit && s.rewindState.atCheckpoint
                ==> r.hasQuickCheckpoint == s.hasQuickCheckpoint && r.quickCheckpoint == s.quickCheckpoint
                    && r.history == s.history)
            && (exit ==> r.lastRecordTime == now && r.dodgeExpiration == DodgeExpiration(s.latest.car, now))
            && (!exit ==> r.history == s.history && r.hasQuickCheckpoint == s.hasQuickCheckpoint)
  {
    var mask := TickMask(s, ci);
    if TickTaken(s, now) {
      MaskRange(ci, s.rewindState.atCheckpoint || s.rewindState.justLoadedQuickCheckpoint);
      if mask != 0 {
        PressingRule(s.(lastRewindTime := now), settings, now, mask);
      } else {
        assert !ShouldExit(mask, s.rewindState.buttonsDown, now, s.lastRecordTime);
      }
    }
  }

  /** A press leaves rewind mode exactly when ShouldExit says so, and stores
      its mask; leaving takes a quick checkpoint only away from a checkpoint. */
  lemma PressingRule(s: Scene, settings: Settings, now: real, mask: int)
    requires Valid(s) && s.rewindMode
    ensures var r, exit := Pressing(s, settings, now, mask),
                           ShouldExit(mask, s.rewindState.buttonsDown, now, s.lastRecordTime);
            (!r.rewindMode <==> exit)
            && r.rewindState.buttonsDown == mask
            && (exit && !s.rewindState.atCheckpoint ==> r.hasQuickCheckpoint && r.quickCheckpoint == s.latest)
            && (exit && s.rewindState.atCheckpoint
                ==> r.hasQuickCheckpoint == s.hasQuickCheckpoint && r.quickCheckpoint == s.quickCheckpoint
                    && r.history == s.history)
            && (exit ==> r.lastRecordTime == now && r.dodgeExpiration == DodgeExpiration(s.latest.car, now))
            && (!exit ==> r.history == s.history && r.hasQuickCheckpoint == s.hasQuickCheckpoint)
  {
  }

  /** With nothing pressed and the stick within its dead zone a tick keeps
      the playhead and the scene. */
  lemma RewindIdle(s: Scene, settings: Settings, now: real, ci: Input, slerp: (Rot, Rot, real) -> Rot)
    requires Valid(s) && TickMask(s, ci) == 0 && Abs(ci.steer) < 0.05
    ensures var r := RewindTick(s, settings, now, ci, slerp);
            r.latest == s.latest && r.rewindState.virtualTimeOffset == s.rewindState.virtualTimeOffset
            && r.rewindState.holdingFor == s.rewindState.holdingFor && r.history == s.history
  {
  }

  /** Otherwise a taken tick with nothing pressed is the stick step (see
      SteeringRule), after the tick time and the empty mask are stored. */
  lemma RewindSteers(s: Scene, settings: Settings, now: real, ci: Input, slerp: (Rot, Rot, real) -> Rot)
    requires Valid(s) && TickTaken(s, now) && TickMask(s, ci) == 0 && Abs(ci.steer) >= 0.05
    ensures Valid(s.(lastRewindTime := now, rewindState := s.rewindState.(buttonsDown := 0)))
    ensures RewindTick(s, settings, now, ci, slerp)
            == Steering(s.(lastRewindTime := now, rewindState := s.rewindState.(buttonsDown := 0)), ci.steer,
                        RewindElapsed(now, s.lastRewindTime), slerp)
  {
  }

  /** The stick moves the playhead within the recorded history, and the scene
      under it is shown. */
  lemma SteeringRule(s: Scene, steer: real, elapsed: real, slerp: (Rot, Rot, real) -> Rot)
    requires Valid(s) && 0 < |s.history|
    ensures var r := Steering(s, steer, elapsed, slerp);
            var o := r.rewindState.virtualTimeOffset;
            -s.snapshotInterval * |s.history| as real <= o <= 0.0
            && r.latest == Shown(s.history, o, s.snapshotInterval, slerp)
            && r.history == s.history && r.rewindMode == s.rewindMode
            && 1.0 <= Factor(r.rewindState.holdingFor) <= 10.0 && !r.rewindState.deleting
  {
    var rs := s.rewindState;
    var hold := NextHold(rs.holdingFor, steer, elapsed);
    var o := NextOffset(rs.virtualTimeOffset, Factor(hold), elapsed, steer, s.snapshotInterval, |s.history|);
    var lo := -s.snapshotInterval * |s.history| as real;
    assert lo <= o <= 0.0;
    var s1 := s.(rewindState := rs.(deleting := false, holdingFor := hold, virtualTimeOffset := o));
    assert Steering(s, steer, elapsed, slerp) == s1.(latest := Shown(s.history, o, s.snapshotInterval, slerp));
  }

  /** On an empty history the stick step throws: the playhead has been
      pinned at the present and the delete disarmed, and the scene shown is
      not replaced. */
  lemma SteeringFaultsOnEmptyHistory(s: Scene, steer: real, elapsed: real, slerp: (Rot, Rot, real) -> Rot)
    requires Valid(s) && |s.history| == 0
    ensures var r := Steering(s, steer, elapsed, slerp);
            r.faulted && r.latest == s.latest && r.history == [] && r.rewindState.virtualTimeOffset == 0.0
            && !r.rewindState.deleting
  {
    var o := Steering(s, steer, elapsed, slerp).rewindState.virtualTimeOffset;
    assert -s.snapshotInterval * 0.0 <= o <= 0.0;
  }

  /** The intended stick step never faults: on an empty history it pins the
      playhead at the present and keeps the scene, and otherwise it is the
      program's step. */
  lemma SteeringIntendedRule(s: Scene, steer: real, elapsed: real, slerp: (Rot, Rot, real) -> Rot)
    requires Valid(s)
    ensures var r := SteeringIntended(s, steer, elapsed, slerp);
            Valid(r) && r.faulted == s.faulted && r.history == s.history
            && (|s.history| == 0 ==> r.latest == s.latest && r.rewindState.virtualTimeOffset == 0.0)
            && (|s.history| > 0 ==> r == Steering(s, steer, elapsed, slerp))
  {
    if |s.history| == 0 {
      SteeringFaultsOnEmptyHistory(s, steer, elapsed, slerp);
    } else {
      SteeringRule(s, steer, elapsed, slerp);
    }
  }

  /** Leaving rewind mode away from a checkpoint takes the scene shown as the
      quick checkpoint.  With cpt_clean_history a non-empty history is cut at
      the written index, which always drops at least the newest sample; an
      empty one is erased from past its end. */
  lemma QuickTakenRule(s: Scene, settings: Settings)
    requires Valid(s)
    ensures var r := QuickTaken(s, settings);
            r.hasQuickCheckpoint && r.quickCheckpoint == s.latest
            && (r.faulted <==> s.faulted || (settings.deleteFutureHistory && |s.history| == 0))
            && (!settings.deleteFutureHistory || |s.history| == 0 ==> r.history == s.history)
            && (settings.deleteFutureHistory && |s.history| > 0
                ==> r.history == s.history[..TruncateIndexAsWritten(s.rewindState.virtualTimeOffset,
                                                                    s.snapshotInterval, |s.history|)]
                    && |r.history| < |s.history|)
  {
  }

  /** With the playhead at the oldest sample the cut keeps every sample but
      the newest, where none was meant to be kept. */
  lemma CutAtOldestSample(s: Scene, settings: Settings)
    requires Valid(s) && settings.deleteFutureHistory && |s.history| > 0
    requires Ceil(s.rewindState.virtualTimeOffset / s.snapshotInterval) == -|s.history|
    ensures QuickTaken(s, settings).history == s.history[..|s.history| - 1]
    ensures TruncateIndex(s.rewindState.virtualTimeOffset, s.snapshotInterval, |s.history|) == 0
  {
    TruncateAsWrittenAtOldest(s.rewindState.virtualTimeOffset, s.snapshotInterval, |s.history|);
  }

  /** On an empty history the cut is erased from past the end: the plugin
      faults, though the quick checkpoint has been taken. */
  lemma CutOnEmptyHistory(s: Scene, settings: Settings)
    requires Valid(s) && settings.deleteFutureHistory && |s.history| == 0
    requires -SizeTModulus + 1 < Ceil(s.rewindState.virtualTimeOffset / s.snapshotInterval)
    ensures TruncateIndexAsWritten(s.rewindState.virtualTimeOffset, s.snapshotInterval, 0) > 0
    ensures var r := QuickTaken(s, settings);
            r.faulted && r.history == [] && r.hasQuickCheckpoint && r.quickCheckpoint == s.latest
  {
    var x := s.rewindState.virtualTimeOffset / s.snapshotInterval;
    assert x * s.snapshotInterval == s.rewindState.virtualTimeOffset;
    if x > 0.0 {
      NonNegQuotient(-x, s.snapshotInterval);
    }
    TruncateAsWrittenOnEmpty(s.rewindState.virtualTimeOffset, s.snapshotInterval);
  }

  /** A way to reach the throw of the stick step: a new interval empties the
      history, cpt_do_checkpoint loads the current checkpoint into rewind mode,
      two more presses arm and erase it (so steering no longer counts as a
      press), and then the stick alone is moved on a taken tick. */
  lemma DeleteThenSteerThrows(s: Scene, n: int, h: Host, now: real, steer: real)
    requires Valid(s) && 1 <= n <= 10 && !s.rewindMode && !s.hasQuickCheckpoint && |s.checkpoints| > 0
    requires h.inFreeplay && !h.paused && !h.inReplay
    requires Abs(steer) >= 0.05 && TickTaken(s, now)
    ensures var s1 := IntervalChanged(s, n);
            Valid(s1) && var s2 := DoCheckpoint(s1, h, None);
            Valid(s2) && var s3 := DoCheckpoint(s2, h, None);
            Valid(s3) && var s4 := DoCheckpoint(s3, h, None);
            s4.rewindMode && s4.history == [] && !s4.rewindState.atCheckpoint
            && RewindThrows(s4, now, Input(0.0, 0.0, steer, false, false, false, false))
  {
    ConfigKeepsValid(s, n, 10);
    var s1 := IntervalChanged(s, n);
    DoCheckpointKeepsValid(s1, h, None);
    var s2 := DoCheckpoint(s1, h, None);
    DoCheckpointKeepsValid(s2, h, None);
    var s3 := DoCheckpoint(s2, h, None);
    assert s3.rewindState.deleting && s3.rewindState.atCheckpoint;
  }

  /** A way to reach the erase past the end: with a quick checkpoint, a new
      interval empties the history and cpt_do_checkpoint loads the quick
      checkpoint into rewind mode; a tick with every control released stores
      an empty mask, and a later press, more than 0.1 s after the last
      sample, leaves rewind mode away from a checkpoint and cuts the empty
      history under cpt_clean_history. */
  lemma QuickLoadThenPressFaults(s: Scene, settings: Settings, n: int, h: Host, t1: real, t2: real,
                                 slerp: (Rot, Rot, real) -> Rot)
    requires Valid(s) && 1 <= n <= 10 && !s.rewindMode && s.hasQuickCheckpoint && settings.deleteFutureHistory
    requires h.inFreeplay && !h.paused && !h.inReplay
    requires TickTaken(s, t1) && RewindElapsed(t2, t1) >= 0.01 && t2 - s.lastRecordTime > 0.1
    ensures var s1 := IntervalChanged(s, n);
            Valid(s1) && var s2 := DoCheckpoint(s1, h, None);
            Valid(s2) && var s3 := RewindTick(s2, settings, t1, Input(0.0, 0.0, 0.0, false, false, false, false), slerp);
            Valid(s3) && var s4 := RewindTick(s3, settings, t2, Input(0.0, 0.0, 0.0, false, true, false, false), slerp);
            s4.faulted && !s4.rewindMode && s4.history == [] && s4.hasQuickCheckpoint
  {
    ConfigKeepsValid(s, n, 10);
    var s1 := IntervalChanged(s, n);
    DoCheckpointKeepsValid(s1, h, None);
    var s2 := DoCheckpoint(s1, h, None);
    var idle := Input(0.0, 0.0, 0.0, false, false, false, false);
    RewindKeepsValid(s2, settings, t1, idle, slerp);
    var s3 := RewindTick(s2, settings, t1, idle, slerp);
    assert s3.rewindState.buttonsDown == 0 && s3.lastRewindTime == t1 && !s3.rewindState.atCheckpoint;
  }

  /** The scene under a playhead within the history is the sample
      clamp(size + floor(offset / interval), 0, size - 1), blended with the
      next one when that index is below the last. */
  lemma ShownRule(history: seq<GameState>, offset: real, interval: real, slerp: (Rot, Rot, real) -> Rot)
    requires 0.0 < interval && 0 < |history| < SizeTModulus
    requires -interval * |history| as real <= offset <= 0.0
    ensures var n := |history|;
            var k := ClampInt(n + Floor(offset / interval), 0, n - 1);
            0 <= k < n
            && (k < n - 1 ==> Shown(history, offset, interval, slerp)
                              == BlendGame(history[k], history[k + 1], AdvancePct(offset, interval), slerp))
            && (k == n - 1 ==> Shown(history, offset, interval, slerp) == history[n - 1])
  {
    PlayheadInRange(offset, interval, |history|);
    SizeTOf(|history| - 1, 0, |history| - 1);
  }

  /** The tick after a load never ends rewind mode: the load takes every
      control as already held. */
  lemma NoExitAfterLoadTick(s: Scene, g: GameState, settings: Settings, now: real, ci: Input,
                            slerp: (Rot, Rot, real) -> Rot)
    requires Valid(s)
    ensures Valid(LoadState(s, g)) && RewindTick(LoadState(s, g), settings, now, ci, slerp).rewindMode
  {
    var l := LoadState(s, g);
    MaskRange(ci, l.rewindState.atCheckpoint || l.rewindState.justLoadedQuickCheckpoint);
  }

  /** A frozen ball ends rewind mode on the next tick in freeplay. */
  lemma FrozenBallEndsRewind(s: Scene, settings: Settings, t: TickInput, slerp: (Rot, Rot, real) -> Rot)
    requires Valid(s) && s.rewindMode && s.freezeBall && t.inFreeplay && t.hasBall && t.hasCar
    ensures !RewindThrows(s, t.now, t.input)
            ==> !Tick(s, settings, t, slerp).rewindMode && Tick(s, settings, t, slerp).freezeBall
    ensures RewindThrows(s, t.now, t.input)
            ==> Tick(s, settings, t, slerp).rewindMode && Tick(s, settings, t, slerp).faulted
  {
  }

  // ---------------------------------------------------------------------
  // Copy, paste and the save file.

  /** cpt_copy has something to copy exactly in a replay with the watched
      player found, or outside a replay in rewind mode, with a quick
      checkpoint, or with any checkpoint. */
  lemma CopyWhen(s: Scene, inReplay: bool, replay: Option<GameState>, pack: seq<Word> -> seq<Base64.byte>)
    requires Valid(s)
    ensures CopyText(s, inReplay, replay, pack).Some?
            <==> (inReplay && replay.Some?)
                 || (!inReplay && (s.rewindMode || s.hasQuickCheckpoint || |s.checkpoints| > 0))
  {
  }

  /** Pasting what was copied loads it, as far as it was written, as the
      quick checkpoint, whenever the host's byte packing can be undone. */
  lemma CopyThenPaste(s: Scene, inReplay: bool, replay: Option<GameState>, other: Scene, h: Host,
                      pack: seq<Word> -> seq<Base64.byte>, unpack: seq<Base64.byte> -> seq<Word>)
    requires Valid(s) && h.inFreeplay && !h.paused
    requires CopySource(s, inReplay, replay).Some?
    requires var g := CopySource(s, inReplay, replay).value;
             unpack(pack(StateCodec.GameWords(g))) == StateCodec.GameWords(g)
    ensures var g, p := CopySource(s, inReplay, replay).value, Paste(other, h, CopyText(s, inReplay, replay, pack), unpack);
            p.quickCheckpoint == StateCodec.Loaded(g) && p.latest == StateCodec.Loaded(g)
            && p.hasQuickCheckpoint && p.rewindMode && p.rewindState.justLoadedQuickCheckpoint
            && p.checkpoints == other.checkpoints
  {
    var g := CopySource(s, inReplay, replay).value;
    Clipboard.UnframeFrame(StateCodec.Text(g, pack));
    StateCodec.TextRoundTrip(g, pack, unpack);
  }

  /** A clipboard text that is not a frame, or an unreadable clipboard,
      changes nothing. */
  lemma PasteRejects(s: Scene, h: Host, clip: Option<string>, unpack: seq<Base64.byte> -> seq<Word>)
    requires clip.None? || Clipboard.Unframe(clip.value).None?
    ensures Paste(s, h, clip, unpack) == s
  {
  }

  /** A plugin that loads the file another one saved gets that one's
      checkpoints, as far as they were written, after its own. */
  lemma SaveThenLoad(s: Scene, other: Scene)
    ensures LoadedFile(other.(file := Saved(s).file)).checkpoints
            == other.checkpoints + SaveFile.LoadedAll(s.checkpoints)
  {
    SaveFile.FileRoundTrip(s.checkpoints);
  }

  /** A file of another version adds nothing. */
  lemma LoadWrongVersion(s: Scene)
    requires |s.file| == 0 || s.file[0] != Int(SaveFile.Version)
    ensures LoadedFile(s) == s
  {
    SaveFile.WrongVersion(s.file);
    assert s.checkpoints + [] == s.checkpoints;
  }
}
