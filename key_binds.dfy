// The bind edits of bindings.cpp on the host's bind table: addBind,
// removeBind, applyBindKeys, removeBindKeys and captureBindKey.
module KeyBinds {
  import opened Wrappers
  import opened Bindings

  /** getBindStringForKey: "" for a key with no bind. */
  function BindOf(binds: map<string, string>, key: string): string {
    if key in binds then binds[key] else ""
  }

  /** addBind's command list: `cmd` appended, trimmed, unless present. */
  function Added(cmds: seq<string>, cmd: string): (r: seq<string>)
    ensures |r| > 0
  {
    if cmd in cmds then cmds else cmds + [Trim(cmd)]
  }

  /** The bind string addBind writes for a key bound to `bind`. */
  function Rebound(bind: string, cmd: string): string {
    Join(Added(Commands(bind), cmd))
  }

  /** addBind's tokenizing loop and join. */
  method AddedBind(bind: string, cmd: string) returns (s: string)
    ensures s == Rebound(bind, cmd)
  {
    var cmds := Tokenize(bind, None);
    WithoutNone(Commands(bind));
    if cmd !in cmds {
      cmds := cmds + [Trim(cmd)];
    }
    s := JoinCommands(cmds);
  }

  /** addBind: the key bound to the join of its commands and `cmd`. */
  function Bound(binds: map<string, string>, key: string, cmd: string): map<string, string> {
    binds[key := Rebound(BindOf(binds, key), cmd)]
  }

  /** removeBind: the key bound to the join of its other commands, or
      unbound when none is left. */
  function Unbound(binds: map<string, string>, key: string, cmd: string): map<string, string> {
    var kept := Without(Commands(BindOf(binds, key)), Some(cmd));
    if |kept| == 0 then binds - {key} else binds[key := Join(kept)]
  }

  /** After addBind the key's commands are its old ones in order, then `cmd`
      if it was not among them; no other key changes. */
  lemma BoundRule(binds: map<string, string>, key: string, cmd: string)
    requires Clean(cmd)
    ensures Commands(BindOf(Bound(binds, key, cmd), key)) == Added(Commands(BindOf(binds, key)), cmd)
    ensures forall k :: k != key ==> BindOf(Bound(binds, key, cmd), k) == BindOf(binds, k)
  {
    var cs := Commands(BindOf(binds, key));
    CommandsClean(BindOf(binds, key));
    AddedClean(cs, cmd);
    CommandsOfJoin(Added(cs, cmd));
  }

  /** Adding a clean command to clean ones keeps them clean and holds it. */
  lemma AddedClean(cs: seq<string>, cmd: string)
    requires Clean(cmd) && forall k :: 0 <= k < |cs| ==> Clean(cs[k])
    ensures cmd in Added(cs, cmd)
    ensures forall k :: 0 <= k < |Added(cs, cmd)| ==> Clean(Added(cs, cmd)[k])
  {
    TrimmedIsFixed(cmd);
    assert (cs + [cmd])[|cs|] == cmd;
  }

  /** Rebinding a clean command to the string its first binding wrote
      writes the same string. */
  lemma ReboundIdempotent(bind: string, cmd: string)
    requires Clean(cmd)
    ensures Rebound(Rebound(bind, cmd), cmd) == Rebound(bind, cmd)
  {
    var cs := Commands(bind);
    CommandsClean(bind);
    AddedClean(cs, cmd);
    CommandsOfJoin(Added(cs, cmd));
  }

  /** Binding the same command twice leaves the table as once did. */
  lemma BoundIdempotent(binds: map<string, string>, key: string, cmd: string)
    requires Clean(cmd)
    ensures Bound(Bound(binds, key, cmd), key, cmd) == Bound(binds, key, cmd)
  {
    ReboundIdempotent(BindOf(binds, key), cmd);
    assert BindOf(Bound(binds, key, cmd), key) == Rebound(BindOf(binds, key), cmd);
  }

  /** After removeBind the key's commands are its old ones other than
      `cmd`, in order, so `cmd` is gone; the key is unbound exactly when none
      is left; no other key changes. */
  lemma UnboundRule(binds: map<string, string>, key: string, cmd: string)
    ensures var kept := Without(Commands(BindOf(binds, key)), Some(cmd));
            Commands(BindOf(Unbound(binds, key, cmd), key)) == kept
            && cmd !in Commands(BindOf(Unbound(binds, key, cmd), key))
            && (key !in Unbound(binds, key, cmd) <==> |kept| == 0)
    ensures forall k :: k != key ==> BindOf(Unbound(binds, key, cmd), k) == BindOf(binds, k)
  {
    var cs := Commands(BindOf(binds, key));
    var kept := Without(cs, Some(cmd));
    var after := Unbound(binds, key, cmd);
    if |kept| > 0 {
      CommandsClean(BindOf(binds, key));
      WithoutClean(cs, Some(cmd));
      assert BindOf(after, key) == Join(kept);
      CommandsOfJoin(kept);
    } else {
      assert BindOf(after, key) == "";
      CommandsOfEmpty();
    }
  }

  /** Binding then unbinding a command leaves the key's other commands. */
  lemma BindThenUnbind(binds: map<string, string>, key: string, cmd: string)
    requires Clean(cmd)
    ensures Commands(BindOf(Unbound(Bound(binds, key, cmd), key, cmd), key))
            == Without(Commands(BindOf(binds, key)), Some(cmd))
  {
    BoundRule(binds, key, cmd);
    UnboundRule(Bound(binds, key, cmd), key, cmd);
    WithoutAdded(Commands(BindOf(binds, key)), cmd);
  }

  /** Removing a command just added leaves what it was added to, less
      that command. */
  lemma WithoutAdded(cs: seq<string>, cmd: string)
    requires Clean(cmd)
    ensures Without(Added(cs, cmd), Some(cmd)) == Without(cs, Some(cmd))
  {
    TrimmedIsFixed(cmd);
    if cmd !in cs {
      assert (cs + [cmd])[..|cs|] == cs;
      assert Without(cs + [cmd], Some(cmd)) == Without(cs, Some(cmd)) + [];
    }
  }

  /** KEY_LIST: the controller buttons captureBindKey looks at, in order. */
  const KeyList: seq<string> := [
    "XboxTypeS_A", "XboxTypeS_B", "XboxTypeS_X", "XboxTypeS_Y", "XboxTypeS_RightShoulder", "XboxTypeS_RightTrigger",
    "XboxTypeS_RightThumbStick", "XboxTypeS_LeftShoulder", "XboxTypeS_LeftTrigger", "XboxTypeS_LeftThumbStick",
    "XboxTypeS_Start", "XboxTypeS_Back", "XboxTypeS_DPad_Up", "XboxTypeS_DPad_Left", "XboxTypeS_DPad_Right",
    "XboxTypeS_DPad_Down"]

  /** The first key of `keys` that is pressed, if any. */
  function FirstPressed(keys: seq<string>, pressed: string -> bool): Option<string> {
    if |keys| == 0 then None
    else if pressed(keys[0]) then Some(keys[0])
    else FirstPressed(keys[1..], pressed)
  }

  /** FirstPressed gives a pressed key with none pressed before it, and None
      only when none is pressed. */
  lemma {:induction false} FirstPressedRule(keys: seq<string>, pressed: string -> bool)
    ensures match FirstPressed(keys, pressed)
            case None => forall k :: 0 <= k < |keys| ==> !pressed(keys[k])
            case Some(key) => exists i :: 0 <= i < |keys| && keys[i] == key && pressed(key)
                                          && forall j :: 0 <= j < i ==> !pressed(keys[j])
  {
    if |keys| > 0 && !pressed(keys[0]) {
      FirstPressedRule(keys[1..], pressed);
      match FirstPressed(keys[1..], pressed)
      case None =>
      case Some(key) =>
        var i :| 0 <= i < |keys[1..]| && keys[1..][i] == key && pressed(key)
                 && forall j :: 0 <= j < i ==> !pressed(keys[1..][j]);
        assert keys[i + 1] == key;
        assert forall j :: 0 <= j < i + 1 ==> !pressed(keys[j]) by {
          forall j | 0 <= j < i + 1
            ensures !pressed(keys[j])
          {
            if j > 0 {
              assert keys[j] == keys[1..][j - 1];
            }
          }
        }
    }
  }

  /** The four commands with a key cvar, as applyBindKeys and
      removeBindKeys go through them. */
  const Commanded: seq<string> := ["cpt_freeze", "cpt_do_checkpoint", "cpt_prev_checkpoint", "cpt_next_checkpoint"]

  /** The cvar naming a command's key. */
  function KeyCvar(cmd: string): string {
    cmd + "_key"
  }

  /** Every command of `cmds` has a key cvar. */
  predicate HasKeys(cvars: map<string, string>, cmds: seq<string>) {
    forall c :: c in cmds ==> KeyCvar(c) in cvars
  }

  lemma KeysKept(before: map<string, string>, after: map<string, string>, cmds: seq<string>)
    requires HasKeys(before, cmds) && after.Keys == before.Keys
    ensures HasKeys(after, cmds)
  {
  }

  /** applyBindKeys and removeBindKeys: `step` applied to each of the
      first `n` commands and its cvar's key, in order. */
  function ForEachCommand(step: (map<string, string>, string, string) -> map<string, string>,
                          binds: map<string, string>, cvars: map<string, string>, cmds: seq<string>, n: nat): map<string, string>
    requires n <= |cmds| && HasKeys(cvars, cmds)
  {
    if n == 0 then binds
    else step(ForEachCommand(step, binds, cvars, cmds, n - 1), cvars[KeyCvar(cmds[n - 1])], cmds[n - 1])
  }

  /** `step`, applied to one of `cmds`, keeps every fact `has` holds. */
  ghost predicate Keeps(step: (map<string, string>, string, string) -> map<string, string>,
                        has: (map<string, string>, string, string) -> bool, cmds: seq<string>)
  {
    forall b, key, i, other, c | 0 <= i < |cmds| && has(b, other, c) :: has(step(b, key, cmds[i]), other, c)
  }

  /** `step`, applied to one of `cmds` and a key, makes `has` hold of them. */
  ghost predicate Adds(step: (map<string, string>, string, string) -> map<string, string>,
                       has: (map<string, string>, string, string) -> bool, cmds: seq<string>)
  {
    forall b, key, i | 0 <= i < |cmds| :: has(step(b, key, cmds[i]), key, cmds[i])
  }

  /** A step that adds and keeps leaves each of the first `n` commands in
      place: the later steps do not undo the earlier. */
  lemma {:induction false} ForEachHolds(step: (map<string, string>, string, string) -> map<string, string>,
                                        has: (map<string, string>, string, string) -> bool,
                                        binds: map<string, string>, cvars: map<string, string>, cmds: seq<string>, n: nat, k: nat)
    requires Keeps(step, has, cmds) && Adds(step, has, cmds)
    requires k < n <= |cmds| && HasKeys(cvars, cmds)
    ensures has(ForEachCommand(step, binds, cvars, cmds, n), cvars[KeyCvar(cmds[k])], cmds[k])
  {
    var prev := ForEachCommand(step, binds, cvars, cmds, n - 1);
    if k < n - 1 {
      ForEachHolds(step, has, binds, cvars, cmds, n - 1, k);
      assert has(prev, cvars[KeyCvar(cmds[k])], cmds[k]);
    }
  }

  /** A name of lower-case letters and '_'. */
  predicate Name(c: string) {
    |c| > 0 && forall i :: 0 <= i < |c| ==> 'a' <= c[i] <= 'z' || c[i] == '_'
  }

  lemma NameClean(c: string)
    requires Name(c)
    ensures Clean(c)
  {
  }

  /** Each of the four commands is clean. */
  lemma CommandedClean()
    ensures forall k :: 0 <= k < |Commanded| ==> Clean(Commanded[k])
  {
    forall k | 0 <= k < |Commanded|
      ensures Clean(Commanded[k])
    {
      CommandedName(k);
      NameClean(Commanded[k]);
    }
  }

  lemma CommandedName(k: nat)
    requires k < |Commanded|
    ensures Name(Commanded[k])
  {
  }

  /** Binding a command keeps every command any key had, and adds it to
      its key. */
  lemma BoundKeeps(binds: map<string, string>, key: string, cmd: string, other: string, c: string)
    requires Clean(cmd)
    ensures c in Commands(BindOf(binds, other)) ==> c in Commands(BindOf(Bound(binds, key, cmd), other))
    ensures cmd in Commands(BindOf(Bound(binds, key, cmd), key))
  {
    BoundRule(binds, key, cmd);
    CommandsClean(BindOf(binds, key));
    AddedClean(Commands(BindOf(binds, key)), cmd);
  }

  /** Unbinding a command adds no command to any key, and leaves it off
      its key. */
  lemma UnboundKeeps(binds: map<string, string>, key: string, cmd: string, other: string, c: string)
    ensures c !in Commands(BindOf(binds, other)) ==> c !in Commands(BindOf(Unbound(binds, key, cmd), other))
    ensures cmd !in Commands(BindOf(Unbound(binds, key, cmd), key))
  {
    UnboundRule(binds, key, cmd);
    WithoutKeeps(Commands(BindOf(binds, key)), Some(cmd), c);
  }

  /** After applyBindKeys each command is among the commands of its cvar's
      key. */
  lemma AllBoundHolds(binds: map<string, string>, cvars: map<string, string>, cmds: seq<string>, n: nat)
    requires n <= |cmds| && HasKeys(cvars, cmds) && forall k :: 0 <= k < |cmds| ==> Clean(cmds[k])
    ensures forall k :: 0 <= k < n ==>
              cmds[k] in Commands(BindOf(ForEachCommand(Bound, binds, cvars, cmds, n), cvars[KeyCvar(cmds[k])]))
  {
    var has := (b: map<string, string>, key: string, c: string) => c in Commands(BindOf(b, key));
    forall b, key, i, other, c | 0 <= i < |cmds| && has(b, other, c)
      ensures has(Bound(b, key, cmds[i]), other, c)
    {
      BoundKeeps(b, key, cmds[i], other, c);
    }
    forall b, key, i | 0 <= i < |cmds|
      ensures has(Bound(b, key, cmds[i]), key, cmds[i])
    {
      BoundKeeps(b, key, cmds[i], key, cmds[i]);
    }
    forall k | 0 <= k < n
      ensures has(ForEachCommand(Bound, binds, cvars, cmds, n), cvars[KeyCvar(cmds[k])], cmds[k])
    {
      ForEachHolds(Bound, has, binds, cvars, cmds, n, k);
    }
  }

  /** After removeBindKeys no command is among the commands of its cvar's
      key. */
  lemma AllUnboundHolds(binds: map<string, string>, cvars: map<string, string>, cmds: seq<string>, n: nat)
    requires n <= |cmds| && HasKeys(cvars, cmds)
    ensures forall k :: 0 <= k < n ==>
              cmds[k] !in Commands(BindOf(ForEachCommand(Unbound, binds, cvars, cmds, n), cvars[KeyCvar(cmds[k])]))
  {
    var has := (b: map<string, string>, key: string, c: string) => c !in Commands(BindOf(b, key));
    forall b, key, i, other, c | 0 <= i < |cmds| && has(b, other, c)
      ensures has(Unbound(b, key, cmds[i]), other, c)
    {
      UnboundKeeps(b, key, cmds[i], other, c);
    }
    forall b, key, i | 0 <= i < |cmds|
      ensures has(Unbound(b, key, cmds[i]), key, cmds[i])
    {
      UnboundKeeps(b, key, cmds[i], key, cmds[i]);
    }
    forall k | 0 <= k < n
      ensures has(ForEachCommand(Unbound, binds, cvars, cmds, n), cvars[KeyCvar(cmds[k])], cmds[k])
    {
      ForEachHolds(Unbound, has, binds, cvars, cmds, n, k);
    }
  }

  /** The host's bind table and the plugin's string cvars. */
  class BindTable {
    var binds: map<string, string>
    var cvars: map<string, string>

    /** The four key cvars registered by onLoad. */
    predicate Registered()
      reads this
    {
      HasKeys(cvars, Commanded)
    }

    constructor (binds: map<string, string>, cvars: map<string, string>)
      ensures this.binds == binds && this.cvars == cvars
    {
      this.binds := binds;
      this.cvars := cvars;
    }

    /** addBind(key, cmd). */
    method AddBind(key: string, cmd: string)
      modifies this
      ensures binds == Bound(old(binds), key, cmd) && cvars == old(cvars)
    {
      var table := binds;
      var s := AddedBind(BindOf(table, key), cmd);
      binds := table[key := s];
    }

    /** removeBind(key, cmd); `unbind key` when nothing is left. */
    method RemoveBind(key: string, cmd: string)
      modifies this
      ensures binds == Unbound(old(binds), key, cmd) && cvars == old(cvars)
    {
      var table := binds;
      var cmds := Tokenize(BindOf(table, key), Some(cmd));
      if |cmds| == 0 {
        binds := table - {key};
        return;
      }
      var s := JoinCommands(cmds);
      binds := table[key := s];
    }

    /** applyBindKeys. */
    method ApplyBindKeys()
      requires Registered()
      modifies this
      ensures cvars == old(cvars) && binds == ForEachCommand(Bound, old(binds), old(cvars), Commanded, |Commanded|)
    {
      for i := 0 to |Commanded|
        invariant cvars == old(cvars) && binds == ForEachCommand(Bound, old(binds), cvars, Commanded, i)
      {
        AddBind(cvars[KeyCvar(Commanded[i])], Commanded[i]);
      }
    }

    /** removeBindKeys. */
    method RemoveBindKeys()
      requires Registered()
      modifies this
      ensures cvars == old(cvars) && binds == ForEachCommand(Unbound, old(binds), old(cvars), Commanded, |Commanded|)
    {
      for i := 0 to |Commanded|
        invariant cvars == old(cvars) && binds == ForEachCommand(Unbound, old(binds), cvars, Commanded, i)
      {
        RemoveBind(cvars[KeyCvar(Commanded[i])], Commanded[i]);
      }
    }

    /** captureBindKey(params); `pressed` says which keys are down. */
    method CaptureBindKey(params: seq<string>, pressed: string -> bool)
      requires Registered()
      modifies this
      ensures Registered()
      ensures cvars == Captured(old(cvars), params, pressed)
      ensures !Capturing(old(cvars), params) ==> binds == old(binds)
      ensures Capturing(old(cvars), params) ==>
                binds == ForEachCommand(Bound, Unbound(old(binds), old(cvars)[KeyCvar(params[1])], params[1]), cvars, Commanded, |Commanded|)
    {
      if |params| != 2 {
        return;
      }
      var command := params[|params| - 1];
      assert command == params[1];
      var name := KeyCvar(command);
      if name !in cvars {
        return;
      }
      var oldKey := cvars[name];
      RemoveBind(oldKey, command);
      assert binds == Unbound(old(binds), old(cvars)[KeyCvar(params[1])], params[1]);
      SetFirstPressed(name, pressed);
      assert cvars == Captured(old(cvars), params, pressed);
      KeysKept(old(cvars), cvars, Commanded);
      ApplyBindKeys();
    }

    /** captureBindKey's loop: the cvar `name` set to the first key of
        KEY_LIST that is pressed, if any. */
    method SetFirstPressed(name: string, pressed: string -> bool)
      modifies this
      ensures binds == old(binds)
      ensures cvars == match FirstPressed(KeyList, pressed)
                       case None => old(cvars)
                       case Some(key) => old(cvars)[name := key]
    {
      for i := 0 to |KeyList|
        invariant binds == old(binds) && cvars == old(cvars)
        invariant FirstPressed(KeyList, pressed) == FirstPressed(KeyList[i..], pressed)
      {
        if pressed(KeyList[i]) {
          cvars := cvars[name := KeyList[i]];
          break;
        }
        assert KeyList[i..][1..] == KeyList[i + 1..];
      }
    }
  }

  /** Whether captureBindKey acts: one argument after the command name,
      naming a command with a key cvar. */
  predicate Capturing(cvars: map<string, string>, params: seq<string>) {
    |params| == 2 && KeyCvar(params[1]) in cvars
  }

  /** The cvars after captureBindKey: the command's key cvar set to the first
      pressed key, unchanged when none is pressed. */
  function Captured(cvars: map<string, string>, params: seq<string>, pressed: string -> bool): (r: map<string, string>)
    ensures r.Keys == cvars.Keys
  {
    if !Capturing(cvars, params) then cvars
    else match FirstPressed(KeyList, pressed)
      case None => cvars
      case Some(key) => cvars[KeyCvar(params[1]) := key]
  }
}
