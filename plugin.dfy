// The plugin object of CheckpointPlugin.cpp: its fields (and the globals
// snapshotInterval, historyTime and maxHistory, and the save file on disk),
// updated in place by its handlers.  View() reads them as a PluginState.Scene,
// and each method is proved to take the scene from its old value to the one
// the matching step function of PluginState gives, keeping Valid.
module Plugin {
  import opened Wrappers
  import opened State
  import opened Pod
  import StateCodec
  import SaveFile
  import Base64
  import Clipboard
  import opened Rewind
  import opened PluginState

  class CheckpointPlugin {
    var settings: Settings
    var history: seq<GameState>
    var latest: GameState
    var checkpoints: seq<GameState>
    var curCheckpoint: nat
    var rewindMode: bool
    var rewindState: RewindState
    var dodgeExpiration: real
    var hasQuickCheckpoint: bool
    var quickCheckpoint: GameState
    var lastRecordTime: real
    var lastRewindTime: real
    var freezeBall: bool
    var playingFromCheckpoint: bool
    var snapshotInterval: real
    var historyTime: int
    var maxHistory: int
    /** What freeplaycheckpoint.data holds. */
    var file: seq<Word>
    /** Whether a handler has thrown or erased past the end of the history. */
    var faulted: bool

    ghost function View(): Scene
      reads this
    {
      Scene(history, latest, checkpoints, curCheckpoint, rewindMode, rewindState, dodgeExpiration,
            hasQuickCheckpoint, quickCheckpoint, lastRecordTime, lastRewindTime, freezeBall,
            playingFromCheckpoint, snapshotInterval, historyTime, maxHistory, file, faulted)
    }

    ghost predicate Valid()
      reads this
    {
      PluginState.Valid(View())
    }

    /** The plugin as constructed, over the save file `file`, with every
        boolean setting off. */
    constructor (file: seq<Word>)
      ensures View() == Initial(file) && Valid()
      ensures settings == Settings(false, false, false, false, false)
    {
      settings := Settings(false, false, false, false, false);
      history := [];
      latest := DefaultGame();
      checkpoints := [];
      curCheckpoint := 0;
      rewindMode := false;
      rewindState := RewindState(0.0, 0.0, false, false, false, false, 0);
      dodgeExpiration := 0.0;
      hasQuickCheckpoint := false;
      quickCheckpoint := DefaultGame();
      lastRecordTime := 0.0;
      lastRewindTime := 0.0;
      freezeBall := false;
      playingFromCheckpoint := false;
      snapshotInterval := 0.01;
      historyTime := 30;
      maxHistory := HistoryCap(30, 0.01);
      this.file := file;
      faulted := false;
      new;
      assert View() == Initial(file);
    }

    /** onLoad: the save file is loaded, then the two history cvars notify
        their handlers with their values `interval` and `length`. */
    method OnLoad(interval: int, length: int)
      requires Valid() && 1 <= interval <= 10 && 10 <= length <= 120
      modifies this
      ensures View() == Started(old(View()), interval, length)
      ensures Valid() && settings == old(settings)
    {
      LoadCheckpointFile();
      OnSnapshotInterval(interval);
      OnHistoryLength(length);
    }

    /** A boolean cvar's handler (boolvar): the setting takes the new value. */
    method SetSettings(s: Settings)
      modifies this
      ensures settings == s && View() == old(View())
    {
      settings := s;
    }

    /** The cpt_snapshot_interval handler. */
    method OnSnapshotInterval(n: int)
      requires Valid() && 1 <= n <= 10
      modifies this
      ensures View() == IntervalChanged(old(View()), n) && Valid() && settings == old(settings)
    {
      ConfigKeepsValid(View(), n, historyTime);
      SetSnapshotInterval(n as real / 100.0);
      SetMaxHistory(Trunc(historyTime as real / snapshotInterval));
      SetHistory([]);
      SetRewindMode(false);
      SetDodgeExpiration(0.0);
    }

    /** The cpt_history_length handler: the oldest samples past the new cap
        are erased. */
    method OnHistoryLength(t: int)
      requires Valid() && 10 <= t <= 120
      modifies this
      ensures View() == PluginState.HistoryLengthChanged(old(View()), t) && Valid() && settings == old(settings)
    {
      ConfigKeepsValid(View(), 1, t);
      SetHistoryTime(t);
      SetMaxHistory(Trunc(historyTime as real / snapshotInterval));
      if |history| > maxHistory {
        SetHistory(history[|history| - maxHistory..]);
      }
    }

    /** saveCheckpointFile. */
    method SaveCheckpointFile()
      modifies this
      ensures View() == Saved(old(View())) && settings == old(settings)
    {
      var out := new OutStream();
      SaveFile.WriteCheckpoints(out, checkpoints);
      file := out.words;
    }

    /** loadCheckpointFile. */
    method LoadCheckpointFile()
      requires Valid()
      modifies this
      ensures View() == LoadedFile(old(View())) && Valid() && settings == old(settings)
    {
      var inp := new InStream(file);
      var records := SaveFile.ReadCheckpoints(inp);
      checkpoints := checkpoints + records;
    }

    /** loadGameState; applying the state to the game is not modelled. */
    method LoadGameState(g: GameState)
      modifies this
      ensures View() == LoadState(old(View()), g) && settings == old(settings)
    {
      SetLatest(g);
      SetRewindState(AfterLoad);
      SetRewindMode(true);
      SetFreezeBall(false);
      SetHasQuickCheckpoint(false);
      SetPlayingFromCheckpoint(true);
    }

    /** loadCurCheckpoint. */
    method LoadCurCheckpoint()
      requires curCheckpoint < |checkpoints|
      modifies this
      ensures View() == LoadCur(old(View())) && settings == old(settings)
    {
      LoadGameState(checkpoints[curCheckpoint]);
      SetRewindState(rewindState.(atCheckpoint := true));
    }

    /** loadLatestCheckpoint. */
    method LoadLatestCheckpoint()
      requires Valid()
      modifies this
      ensures View() == LoadLatest(old(View())) && Valid() && settings == old(settings)
    {
      LoadsKeepValid(View(), quickCheckpoint);
      if hasQuickCheckpoint {
        LoadGameState(quickCheckpoint);
        SetHasQuickCheckpoint(true);
        SetRewindState(rewindState.(justLoadedQuickCheckpoint := true));
        return;
      }
      if |checkpoints| > 0 {
        LoadCurCheckpoint();
        return;
      }
      SetRewindState(rewindState.(virtualTimeOffset := 0.0, holdingFor := 0.0));
    }

    /** The Countdown.BeginState hook. */
    method OnCountdown()
      requires Valid()
      modifies this
      ensures View() == Countdown(old(View())) && Valid() && settings == old(settings)
    {
      ConfigKeepsValid(View(), 0, 0);
      SetPlayingFromCheckpoint(false);
      SetRewindMode(false);
      SetDodgeExpiration(0.0);
    }

    /** The OnHitGoal hook. */
    method OnHitGoal(inFreeplay: bool)
      requires Valid()
      modifies this
      ensures View() == HitGoal(old(View()), settings, inFreeplay) && Valid() && settings == old(settings)
    {
      if !inFreeplay || rewindMode || !playingFromCheckpoint || !settings.resetOnGoal {
        return;
      }
      LoadLatestCheckpoint();
    }

    /** cpt_freeze. */
    method Freeze(h: Host)
      requires Valid()
      modifies this
      ensures View() == PluginState.Freeze(old(View()), h) && Valid() && settings == old(settings)
    {
      FreezeKeepsValid(View(), h);
      if !h.inFreeplay || h.paused || |history| == 0 || rewindMode {
        return;
      }
      SetLatest(history[|history| - 1]);
      LoadGameState(latest);
    }

    /** cpt_do_checkpoint; `replay` is what getReplayGameState finds. */
    method DoCheckpoint(h: Host, replay: Option<GameState>)
      requires Valid()
      modifies this
      ensures View() == PluginState.DoCheckpoint(old(View()), h, replay) && Valid() && settings == old(settings)
    {
      DoCheckpointKeepsValid(View(), h, replay);
      if h.inReplay {
        if replay.None? {
          return;
        }
        SetCheckpoints(checkpoints + [replay.value]);
        SaveCheckpointFile();
        return;
      }
      if !h.inFreeplay || h.paused {
        return;
      }
      if !rewindMode {
        LoadLatestCheckpoint();
        return;
      }
      SetHasQuickCheckpoint(false);
      if rewindState.atCheckpoint {
        if !rewindState.deleting {
          SetRewindState(rewindState.(deleting := true));
          return;
        }
        DeleteCurCheckpoint();
        SaveCheckpointFile();
        return;
      }
      SetCurCheckpoint(|checkpoints|);
      SetCheckpoints(checkpoints + [latest]);
      SetRewindState(rewindState.(atCheckpoint := true, justDeletedCheckpoint := false));
      SaveCheckpointFile();
    }

    /** The second press at a checkpoint: it is erased, the cursor stays on
        the checkpoint that took its place (or the new last one). */
    method DeleteCurCheckpoint()
      requires curCheckpoint < |checkpoints|
      modifies this
      ensures View() == Deleted(old(View())) && settings == old(settings)
    {
      SetRewindState(rewindState.(deleting := false));
      SetCheckpoints(checkpoints[..curCheckpoint] + checkpoints[curCheckpoint + 1..]);
      SetCurCheckpoint(MinInt(curCheckpoint, SizeT(|checkpoints| - 1)));
      SetRewindState(rewindState.(atCheckpoint := false, justDeletedCheckpoint := true));
    }

    /** cpt_prev_checkpoint. */
    method PrevCheckpoint(h: Host)
      requires Valid()
      modifies this
      ensures View() == Prev(old(View()), settings, h) && Valid() && settings == old(settings)
    {
      NavigationKeepsValid(View(), settings, h);
      if !h.inFreeplay || h.paused || |checkpoints| == 0 {
        return;
      }
      if settings.ignorePNNotFrozen && !rewindMode {
        return;
      }
      if !rewindState.justDeletedCheckpoint {
        if curCheckpoint == 0 {
          curCheckpoint := |checkpoints| - 1;
        } else {
          curCheckpoint := curCheckpoint - 1;
        }
        assert curCheckpoint == PrevIndex(old(curCheckpoint), |checkpoints|);
      }
      LoadCurCheckpoint();
    }

    /** cpt_next_checkpoint. */
    method NextCheckpoint(h: Host)
      requires Valid()
      modifies this
      ensures View() == Next(old(View()), settings, h) && Valid() && settings == old(settings)
    {
      NavigationKeepsValid(View(), settings, h);
      if !h.inFreeplay || h.paused || |checkpoints| == 0 {
        return;
      }
      if settings.ignorePNNotFrozen && !rewindMode {
        return;
      }
      curCheckpoint := curCheckpoint + 1;
      if curCheckpoint == |checkpoints| {
        curCheckpoint := 0;
      }
      assert curCheckpoint == NextIndex(old(curCheckpoint), |checkpoints|);
      LoadCurCheckpoint();
    }

    /** cpt_freeze_ball; applying the frozen scene to the game is not
        modelled. */
    method FreezeTheBall(h: Host)
      requires Valid()
      modifies this
      ensures View() == PluginState.FreezeBall(old(View()), settings, h) && Valid() && settings == old(settings)
    {
      FreezeBallKeepsValid(View(), settings, h);
      if !h.inFreeplay || h.paused || |history| == 0 {
        return;
      }
      if rewindMode {
        SetFreezeBall(true);
        return;
      }
      if freezeBall {
        SetFreezeBall(false);
        SetLatest(latest.(car := history[|history| - 1].car));
        SetQuickCheckpoint(latest);
        SetHasQuickCheckpoint(true);
        return;
      }
      if settings.ignorePNNotFrozen {
        return;
      }
      SetLatest(history[|history| - 1]);
      SetFreezeBall(true);
    }

    /** cpt_copy: the text put on the clipboard, None when there is nothing
        to copy.  The plugin itself is left as it was. */
    method Copy(inReplay: bool, replay: Option<GameState>, pack: seq<Word> -> seq<Base64.byte>)
      returns (output: Option<string>)
      requires Valid()
      ensures output == CopyText(View(), inReplay, replay, pack)
    {
      var source: GameState;
      if inReplay {
        if replay.None? {
          return None;
        }
        source := replay.value;
      } else if rewindMode {
        source := latest;
      } else if hasQuickCheckpoint {
        source := quickCheckpoint;
      } else if |checkpoints| > 0 {
        source := checkpoints[curCheckpoint];
      } else {
        return None;
      }
      var text := StateCodec.ToString(source, pack);
      output := Some(Clipboard.Magic + text + ".");
    }

    /** cpt_paste; `clip` is the clipboard text, None when it cannot be read. */
    method Paste(h: Host, clip: Option<string>, unpack: seq<Base64.byte> -> seq<Word>)
      requires Valid()
      modifies this
      ensures View() == PluginState.Paste(old(View()), h, clip, unpack) && Valid() && settings == old(settings)
    {
      PasteKeepsValid(View(), h, clip, unpack);
      if !h.inFreeplay || h.paused || clip.None? {
        return;
      }
      var input := clip.value;
      if Clipboard.Prefix4(input) != Clipboard.Magic || input[|input| - 1] != '.' {
        return;
      }
      assert Clipboard.Unframe(input) == Some(input[4..|input| - 1]);
      var g := StateCodec.ParseString(input[4..|input| - 1], unpack);
      LoadQuickCheckpoint(g);
    }

    /** The end of cpt_paste: `g` becomes the quick checkpoint and is loaded. */
    method LoadQuickCheckpoint(g: GameState)
      modifies this
      ensures View() == QuickLoaded(old(View()), g) && settings == old(settings)
    {
      SetQuickCheckpoint(g);
      LoadGameState(g);
      SetHasQuickCheckpoint(true);
      SetRewindState(rewindState.(justLoadedQuickCheckpoint := true));
    }

    // -------------------------------------------------------------------
    // The tick.

    /** OnPreAsync: `t` is what the tick reads from the game. */
    method OnPreAsync(t: TickInput, slerp: (Rot, Rot, real) -> Rot)
      requires Valid()
      modifies this
      ensures View() == Tick(old(View()), settings, t, slerp) && Valid() && settings == old(settings)
    {
      TickKeepsValid(View(), settings, t, slerp);
      if !t.inFreeplay || !t.hasBall || !t.hasCar {
        return;
      }
      if rewindMode {
        var threw := RewindStep(t.now, t.input, slerp);
        if !threw && freezeBall {
          SetRewindMode(false);
        }
      } else {
        RecordStep(t);
      }
    }

    /** rewind(): one tick of rewind mode at game time `now` with controller
        input `ci`. */
    method RewindStep(now: real, ci: Input, slerp: (Rot, Rot, real) -> Rot) returns (threw: bool)
      requires Valid()
      modifies this
      ensures View() == RewindTick(old(View()), settings, now, ci, slerp) && settings == old(settings)
      ensures threw == RewindThrows(old(View()), now, ci)
    {
      threw := false;
      var elapsed := MinReal(now - lastRewindTime, 0.03);
      if elapsed < 0.0 {
        SetLastRewindTime(now);
        return;
      }
      if elapsed < 0.01 {
        return;
      }
      var rs := rewindState;
      SetLastRewindTime(now);
      var buttonsDown := ButtonMask(ci, rs.atCheckpoint || rs.justLoadedQuickCheckpoint);
      if buttonsDown != 0 {
        Press(now, buttonsDown);
        return;
      }
      SetRewindState(rs.(buttonsDown := buttonsDown));
      if Abs(ci.steer) < 0.05 {
        return;
      }
      threw := |history| == 0;
      Steer(ci.steer, elapsed, slerp);
    }

    /** The branch of rewind() for a non-zero mask: rewind mode is left on a
        new press more than 0.1 s after the last sample. */
    method Press(now: real, mask: int)
      requires Valid() && mask != 0
      modifies this
      ensures View() == Pressing(old(View()), settings, now, mask) && settings == old(settings)
    {
      var rs := rewindState;
      if mask > rs.buttonsDown && now - lastRecordTime > 0.1 {
        Resume(now);
      }
      SetRewindState(rs.(buttonsDown := mask));
    }

    /** Leaving rewind mode at `now`. */
    method Resume(now: real)
      requires Valid()
      modifies this
      ensures View() == Resumed(old(View()), settings, now) && settings == old(settings)
    {
      var atCheckpoint, car := rewindState.atCheckpoint, latest.car;
      SetRewindMode(false);
      SetLastRecordTime(now);
      SetDodgeExpiration(DodgeExpiration(car, now));
      if !atCheckpoint {
        TakeQuickCheckpoint();
      }
    }

    /** The quick checkpoint taken on leaving rewind mode away from a
        checkpoint. */
    method TakeQuickCheckpoint()
      requires Valid()
      modifies this
      ensures View() == QuickTaken(old(View()), settings) && settings == old(settings)
    {
      var latest, history, offset, interval := latest, history, rewindState.virtualTimeOffset, snapshotInterval;
      SetHasQuickCheckpoint(true);
      SetQuickCheckpoint(latest);
      if settings.deleteFutureHistory {
        if |history| == 0 {
          SetFaulted(true);
          return;
        }
        var current := TruncateIndexAsWritten(offset, interval, |history|);
        TruncateAsWrittenInRange(offset, interval, |history|);
        SetHistory(history[..current]);
      }
    }

    /** The branch of rewind() for the stick: the hold time, the playhead and
        the scene shown. */
    method Steer(steer: real, elapsed: real, slerp: (Rot, Rot, real) -> Rot)
      requires Valid()
      modifies this
      ensures View() == Steering(old(View()), steer, elapsed, slerp) && settings == old(settings)
    {
      var rs, history, interval := rewindState, history, snapshotInterval;
      var hold, offset := MovePlayhead(rs.holdingFor, rs.virtualTimeOffset, steer, elapsed, interval, |history|);
      SetRewindState(rs.(deleting := false, holdingFor := hold, virtualTimeOffset := offset));
      if |history| == 0 {
        SetFaulted(true);
        return;
      }
      var g := SceneAt(history, offset, interval, slerp);
      SetLatest(g);
    }

    /** record(): `t` is what the tick reads from the game. */
    method RecordStep(t: TickInput)
      requires Valid()
      modifies this
      ensures View() == Record(old(View()), settings, t) && Valid() && settings == old(settings)
    {
      RecordKeepsValid(View(), settings, t);
      var elapsed := t.now - lastRecordTime;
      if elapsed < 0.0 {
        elapsed := snapshotInterval;
      }
      if elapsed < snapshotInterval {
        return;
      }
      if playingFromCheckpoint && (settings.resetOnGoal || settings.resetOnBallGround) {
        if !t.hasBall {
          return;
        }
        if (settings.resetOnGoal && t.ballInGoal)
           || (settings.resetOnBallGround && t.ballZ < t.ballRadius + 5.0) {
          EndRun();
          return;
        }
      }
      TakeSample(t);
    }

    /** The reset at the end of a checkpoint run in record(). */
    method EndRun()
      requires Valid()
      modifies this
      ensures View() == ResetRun(old(View()), settings) && settings == old(settings)
    {
      if settings.nextInsteadOfReset && !hasQuickCheckpoint && |checkpoints| > 0 {
        SetCurCheckpoint(NextIndex(curCheckpoint, |checkpoints|));
        LoadCurCheckpoint();
        return;
      }
      LoadLatestCheckpoint();
    }

    /** The end of record(): the sample `t.sample` is pushed onto the history,
        the oldest erased first at capacity. */
    method TakeSample(t: TickInput)
      requires 0 <= maxHistory
      modifies this
      ensures View() == Sampled(old(View()), t) && settings == old(settings)
    {
      lastRecordTime := t.now;
      if dodgeExpiration != 0.0 && (t.now > dodgeExpiration || t.carDoubleJumped || t.wheelContacts == 4) {
        dodgeExpiration := 0.0;
      }
      if |history| == maxHistory && maxHistory > 0 {
        history := history[1..];
      }
      history := history + [t.sample];
    }

    // -------------------------------------------------------------------
    // Field writes: each changes its one field and nothing else.

    method SetFaulted(v: bool)
      modifies this
      ensures View() == old(View()).(faulted := v) && settings == old(settings)
    {
      faulted := v;
    }

    method SetHistory(v: seq<GameState>)
      modifies this
      ensures View() == old(View()).(history := v) && settings == old(settings)
    {
      history := v;
    }

    method SetLatest(v: GameState)
      modifies this
      ensures View() == old(View()).(latest := v) && settings == old(settings)
    {
      latest := v;
    }

    method SetCheckpoints(v: seq<GameState>)
      modifies this
      ensures View() == old(View()).(checkpoints := v) && settings == old(settings)
    {
      checkpoints := v;
    }

    method SetCurCheckpoint(v: nat)
      modifies this
      ensures View() == old(View()).(curCheckpoint := v) && settings == old(settings)
    {
      curCheckpoint := v;
    }

    method SetRewindMode(v: bool)
      modifies this
      ensures View() == old(View()).(rewindMode := v) && settings == old(settings)
    {
      rewindMode := v;
    }

    method SetRewindState(v: RewindState)
      modifies this
      ensures View() == old(View()).(rewindState := v) && settings == old(settings)
    {
      rewindState := v;
    }

    method SetDodgeExpiration(v: real)
      modifies this
      ensures View() == old(View()).(dodgeExpiration := v) && settings == old(settings)
    {
      dodgeExpiration := v;
    }

    method SetHasQuickCheckpoint(v: bool)
      modifies this
      ensures View() == old(View()).(hasQuickCheckpoint := v) && settings == old(settings)
    {
      hasQuickCheckpoint := v;
    }

    method SetQuickCheckpoint(v: GameState)
      modifies this
      ensures View() == old(View()).(quickCheckpoint := v) && settings == old(settings)
    {
      quickCheckpoint := v;
    }

    method SetLastRecordTime(v: real)
      modifies this
      ensures View() == old(View()).(lastRecordTime := v) && settings == old(settings)
    {
      lastRecordTime := v;
    }

    method SetLastRewindTime(v: real)
      modifies this
      ensures View() == old(View()).(lastRewindTime := v) && settings == old(settings)
    {
      lastRewindTime := v;
    }

    method SetFreezeBall(v: bool)
      modifies this
      ensures View() == old(View()).(freezeBall := v) && settings == old(settings)
    {
      freezeBall := v;
    }

    method SetPlayingFromCheckpoint(v: bool)
      modifies this
      ensures View() == old(View()).(playingFromCheckpoint := v) && settings == old(settings)
    {
      playingFromCheckpoint := v;
    }

    method SetSnapshotInterval(v: real)
      modifies this
      ensures View() == old(View()).(snapshotInterval := v) && settings == old(settings)
    {
      snapshotInterval := v;
    }

    method SetHistoryTime(v: int)
      modifies this
      ensures View() == old(View()).(historyTime := v) && settings == old(settings)
    {
      historyTime := v;
    }

    method SetMaxHistory(v: int)
      modifies this
      ensures View() == old(View()).(maxHistory := v) && settings == old(settings)
    {
      maxHistory := v;
    }
  }

  /** The stick step of rewind(): the hold time grows while the stick stays
      past 0.95 in one direction, the speed-up is twice the hold time within
      [1, 10], and the playhead moves by speed-up * elapsed * steer, kept
      within the history. This is the imperative form of `Rewind.NextHold`,
      `Rewind.Factor` and `Rewind.NextOffset`, and is proved to agree with them. */
  method MovePlayhead(holdingFor: real, virtualTimeOffset: real, steer: real, elapsed: real,
                      interval: real, size: nat)
    returns (hold: real, offset: real)
    requires 0.0 < interval
    ensures hold == NextHold(holdingFor, steer, elapsed)
    ensures offset == NextOffset(virtualTimeOffset, Factor(hold), elapsed, steer, interval, size)
  {
    if steer < -0.95 && holdingFor <= 0.0 {
      hold := holdingFor - elapsed;
    } else if steer > 0.95 && holdingFor >= 0.0 {
      hold := holdingFor + elapsed;
    } else {
      hold := 0.0;
    }
    var factor := Clamp(Abs(hold) * 2.0, 1.0, 10.0);
    assert factor == Factor(hold);
    var deltaElapsed := factor * elapsed * steer;
    assert deltaElapsed == Factor(hold) * elapsed * steer;
    offset := Clamp(virtualTimeOffset + deltaElapsed, -interval * size as real, 0.0);
  }

  /** The scene under the playhead: the sample at the played index, blended
      with the next one (by advancePct) when the index is below the last.
      This is the imperative form of `PluginState.Shown`, and is proved to
      agree with it. */
  method SceneAt(history: seq<GameState>, offset: real, interval: real, slerp: (Rot, Rot, real) -> Rot)
    returns (g: GameState)
    requires 0.0 < interval && |history| > 0
    ensures g == Shown(history, offset, interval, slerp)
  {
    var current := PlayheadIndex(offset, interval, |history|);
    PlayheadValid(offset, interval, |history|);
    if current < SizeT(|history| - 1) {
      var historyOffset := offset / interval;
      var advancePct := 1.0 - (historyOffset - Floor(historyOffset) as real);
      return BlendGame(history[current], history[current + 1], advancePct, slerp);
    }
    return history[current];
  }
}
