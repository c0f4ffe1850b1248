# FreeplayCheckpoint, modelled in Dafny

FreeplayCheckpoint is a BakkesMod plugin for Rocket League freeplay.

- **Recording.** While the player drives, it records the scene every few hundredths of a second. A scene is the ball, the car, the boost, whether a dodge is left, and the time of the last jump. The recordings go into a bounded history.
- **Rewind mode.** A key freezes the game into rewind mode. The stick then moves a playhead back and forth through the history, and the scene under the playhead is shown, blended between two samples. Pressing any other control resumes play from there.
- **Checkpoints.** Scenes can be kept as checkpoints: added, deleted with two presses, and stepped through with wrap-around. They are saved to a binary file and can be copied to and pasted from the clipboard as base64 text.
- **Key bindings.** The plugin edits the host's key bindings, which are `;`-separated command strings, to bind its four commands.

The model covers that core:

- the checkpoint store and the rewind controller of `CheckpointPlugin.cpp`;
- the snapshot records, their two serialised layouts and base64 of `state.cpp` and `utils.h`;
- the bind-string editing of `bindings.cpp`.

**Modules, by source file:**

- **`State`** (`state.cpp`): the snapshot records, their default, blend and mirror constructors, and how a car is read from and written to the host. The host's car and game are plain values (`HostCar`, `HostGame`).
- **`Pod`** (`utils.h`, and the same helpers in `state.cpp`): the binary stream as a sequence of tagged words.
  - `OutStream` is a class that only appends.
  - `InStream` is a class with a read position and a sticky failure flag.
  - `readVec`, `writeVec`, `readRot` and `writeRot` are methods over these.
- **`StateCodec`** (`state.cpp`): the 27-word record of `GameState::write`, its stream and string readers, and `toString`.
- **`FlatState`** (`utils.h`): the older flat `GameState`. The model proves it emits the same words and reads them the same way as the nested one.
- **`Base64`** and **`Base64Arith`** (`state.cpp`): `base64enc` and `base64dec` as loops over an accumulator, each proved equal to a recursive specification, and the round trip proved of that specification.
- **`Bindings`** and **`KeyBinds`** (`bindings.cpp`): the `strtok`/`trim` loop, the join, and `addBind`, `removeBind`, `applyBindKeys`, `removeBindKeys` and `captureBindKey`. The host's bind table and string cvars are the fields of the class `BindTable`.
- **`Rewind`** (`CheckpointPlugin.cpp`): the arithmetic of the controller. This is cursor wrap-around, the history ring, the input mask, the hold factor, the clamped playhead and the index it selects. `size_t` arithmetic is written out modulo 2^64.
- **`PluginState`** (`CheckpointPlugin.cpp`): every handler as a function from the plugin's fields to their new values, and the invariant `Valid` they all keep. Where a handler throws or erases past the end of the history, its step sets the flag `faulted` (see "Faults" below); the intended steps, which do not fault, are stated beside them.
- **`Plugin`** (`CheckpointPlugin.cpp`): the class `CheckpointPlugin`. Its fields are updated in place by one method per handler, and each method is proved to perform its `PluginState` step.
- **`SaveFile`** (`CheckpointPlugin.cpp`): the save file's layout: the version, the count, then the records.
- **`Clipboard`** (`CheckpointPlugin.cpp`): the `cpv1`…`.` text frame.

**Number representation:**

- Floats are exact reals.
- A rotator's components are integers.
- Whatever the host decides (freeplay or not, paused, the controller, a fresh sample, the clipboard text, which keys are pressed) is a parameter.

## Model

| member | source | states |
|---|---|---|
| State.DefaultActor | state.cpp:36-41 | the default actor has zero location, velocity, rotation and angular velocity |
| State.DefaultCar | state.cpp:97-103 | the default car has the default body, no boost, no dodge, lastJumped 0 and is not boosting |
| State.DefaultGame | state.cpp:174-178 | the default game has the default ball and car and the clock -1 |
| State.MixBetween | state.cpp:49-52 | a blend with weight in [0,1] lies between its two ends; weight 1 gives lh and 0 gives rh |
| State.MixVecEnds | state.cpp:49-62 | a vector blend at weight 1 is lh's vector and at weight 0 rh's |
| State.BlendEnds | state.cpp:123-126 | at weight 1 the car blend has lh's location, velocity, angular velocity and boost; at 0 rh's |
| State.BlendDodge | state.cpp:127-137 | the dodge rule: a -1 on either side gives -1 with a dodge; rh before lh gives 0 with a dodge; otherwise the jump time is blended with the body's weight, so it lies between the two, and the dodge is kept iff it is below 1.2; boosting is lh's |
| State.BlendTime | state.cpp:238-246 | the blended clock does not depend on the weight and is symmetric in the two sides; it is -1 when either side is -1, and otherwise the midpoint of the two clocks |
| State.MirrorFlipsOnly | state.cpp:83-88 | mirroring negates exactly location.X, velocity.X, angVelocity.Y and angVelocity.Z and keeps the other components |
| State.MirrorTwice | state.cpp:265-270 | mirroring twice restores every flipped field and the car's boost, dodge and jump time, and leaves the clock -1; with an involutive rotation mirror it restores the whole state |
| State.CarFromHostAt | state.cpp:113-121 | the car read with a given jump time keeps the body and that time, has a dodge iff it has not double-jumped and the time is below 1.2, and reads boost 0 and not boosting without a boost component |
| State.CarFromHostRule | state.cpp:104-112 | the jump time is -1 unless the car jumped and has a jump component, in which case it is that component's time; the dodge and boost follow the same derivation |
| State.ApplyThenRead | state.cpp:155-166 | reading back an applied car keeps its body and dodge, reads -1 as the jump time of a car with a dodge, and with a boost component keeps the boost and sets boosting to showBoost and boosting |
| State.GameFromHost | state.cpp:209-218 | the state read from the host has its ball, the car as CarFromHost reads it, and the clock only in custom training (-1 otherwise) |
| State.GameFromCarBall | state.cpp:231-235 | a replay state has the given ball, the car as read, and no clock |
| State.ApplyGameThenRead | state.cpp:248-263 | when the apply is not refused and the car has a boost component, reading the game back gives the ball, the car body, the dodge and the boost |
| State.ApplyGameRefused | state.cpp:248-263 | the apply leaves the host untouched without a ball or a car, or for a clockless state in custom training; otherwise it sets the ball and a jump flag that says whether the dodge is used |
| Pod.TakeWord | utils.h:15-18 | a read yields a word of the expected kind and never changes the stream's data |
| Pod.TakeWordsKinds | utils.h:15-18 | a run of reads yields words of the kinds expected |
| Pod.TakeWordsRoundTrip | utils.h:10-18 | reading where words were written gives them back and advances past them |
| Pod.TakeWordsAtEnd | utils.h:15-18 | reading a failed or exhausted stream leaves every value as it was and marks the stream failed |
| Pod.VecRoundTrip | utils.h:19-28 | a vector is read back as written, X, Y, Z, three words on |
| Pod.RotRoundTrip | utils.h:29-38 | a rotator is read back as written, Pitch, Yaw, Roll, three words on |
| Pod.TakeVecAtEnd | utils.h:19-23 | a vector read from a failed stream keeps its prior value |
| Pod.TakeRotAtEnd | utils.h:29-33 | a rotator read from a failed stream keeps its prior value |
| Pod.OutStream.WriteFloat | utils.h:10-13 | writePOD appends exactly one float word |
| Pod.OutStream.WriteInt | utils.h:10-13 | writePOD appends exactly one integer word |
| Pod.OutStream.WriteBool | utils.h:10-13 | writePOD appends exactly one boolean word |
| Pod.InStream.ReadFloat | utils.h:15-18 | readPOD performs the stream's TakeFloat step |
| Pod.InStream.ReadInt | utils.h:15-18 | readPOD performs the stream's TakeInt step |
| Pod.InStream.ReadBool | utils.h:15-18 | readPOD performs the stream's TakeBool step |
| Pod.WriteVec | utils.h:24-28 | writeVec appends X, Y, Z |
| Pod.WriteRot | utils.h:34-38 | writeRot appends Pitch, Yaw, Roll |
| Pod.ReadVec | utils.h:19-23 | readVec performs TakeVec on the stream |
| Pod.ReadRot | utils.h:29-33 | readRot performs TakeRot on the stream |
| StateCodec.GameWords | state.cpp:195-207 | a record is 27 words |
| StateCodec.LayoutsRead | state.cpp:180-207 | each layout read as written gives the actor, the car with boosting false, and the game with the clock -1 |
| StateCodec.ActorRoundTrip | state.cpp:64-75 | an actor is read back as written, 12 words on |
| StateCodec.CarRoundTrip | state.cpp:140-153 | a car is read back as written except that boosting reads false, 15 words on |
| StateCodec.GameRoundTrip | state.cpp:180-207 | a game is read back with every field as written and the clock -1, 27 words on |
| StateCodec.GameReadBack | state.cpp:180-207 | a stream that starts with a written record reads it back whatever follows |
| StateCodec.GameFromNothing | state.cpp:180-193 | a game read from a failed or exhausted stream is the default one |
| StateCodec.WriteActor | state.cpp:70-75 | ActorState::write appends the actor's 12 words |
| StateCodec.ReadActor | state.cpp:64-69 | ActorState(istream) performs TakeActor |
| StateCodec.WriteCar | state.cpp:148-153 | CarState::write appends the car's 15 words |
| StateCodec.ReadCar | state.cpp:140-146 | CarState(istream) performs TakeCar |
| StateCodec.WriteGame | state.cpp:195-207 | GameState::write appends the interleaved 27-word record |
| StateCodec.ReadGame | state.cpp:180-193 | GameState(istream) performs TakeGame |
| StateCodec.ToString | state.cpp:334-338 | toString is base64 of the packed record |
| StateCodec.ParseString | state.cpp:317-332 | the string constructor reads a record from the base64-decoded text |
| StateCodec.TextRoundTrip | state.cpp:317-338 | parsing what toString produced restores every field, with the clock -1, when the packing can be undone |
| FlatState.DefaultFlat | utils.h:55-67 | the default flat state has zero vectors and rotators, boost 0, no dodge and lastJumped 0 |
| FlatState.FlatNestedCorrespond | utils.h:41-67 | the flat and nested records carry the same fields, and their defaults correspond |
| FlatState.SameLayout | utils.h:82-94 | the flat write emits the same words as the nested write |
| FlatState.ReadersAgree | utils.h:68-80 | on any stream, the flat and nested readers read the same fields and stop at the same place |
| FlatState.FlatRoundTrip | utils.h:68-94 | reading back what write emitted gives the same flat state |
| FlatState.WriteFlat | utils.h:82-94 | write appends the flat record's 27 words |
| FlatState.ReadFlat | utils.h:68-80 | the stream constructor performs TakeFlat |
| FlatState.FlatFromServer | utils.h:96-113 | lastJumped is -1 without a jump or a jump component, the dodge is kept iff not double-jumped and lastJumped is below 1.2, and boost reads 0 without a boost component |
| FlatState.FromServerAgrees | utils.h:96-113 | the flat and nested revisions read the host alike |
| FlatState.ApplyFlatThenRead | utils.h:115-132 | apply sets both jump flags to not hasDodge and writes boost only with a boost component; reading back keeps the location, velocity, rotation and angular velocity of the ball and of the car, and the dodge |
| Base64.IndexOf | state.cpp:277 | a character's alphabet index is -1 or within 0..63 |
| Base64.IndexOfLetter | state.cpp:300-301 | the table maps the i-th letter back to i, and every letter is 7-bit |
| Base64.LetterOfIndex | state.cpp:300-301 | a character with an index is the letter at that index |
| Base64.NotAlpha | state.cpp:305-306 | '=' and non-ASCII bytes are outside the alphabet |
| Base64.TableComplete | state.cpp:300-301 | the finished table agrees with the alphabet on all 256 bytes |
| Base64.DecodeTable | state.cpp:300-301 | the decoding table has 256 entries, each the byte's alphabet index or -1 |
| Base64.EncodingLength | state.cpp:279-295 | the encoding of n bytes has 4·ceil(n/3) characters |
| Base64.EncodingShape | state.cpp:279-295 | the encoding is (8n+5)/6 alphabet characters followed only by '=', a multiple of four in all |
| Base64.EncodingPrefix | state.cpp:279-295 | decoding stops exactly where the padding starts |
| Base64.EncodingAppend | state.cpp:284-291 | whole 3-byte groups encode independently |
| Base64.QuantumDecodes | state.cpp:279-315 | each 3-byte group's four characters decode back to the three bytes |
| Base64.DecodedLength | state.cpp:303-313 | p alphabet characters decode to floor(6p/8) bytes |
| Base64.DecodedAppend | state.cpp:303-313 | each further character adds the byte that completes, if any |
| Base64.AlphaPrefixLen | state.cpp:305-306 | the decoder reads up to the first non-alphabet character and no further |
| Base64.DecodingStops | state.cpp:305-306 | whatever follows the first non-alphabet character is ignored |
| Base64.RoundTrip | state.cpp:279-315 | decoding the encoding of any byte string gives it back |
| Base64.EmitSextets | state.cpp:287-290 | the inner loop emits the complete sextets of the accumulator |
| Base64.PadTo4 | state.cpp:293 | padding appends '=' up to a multiple of four |
| Base64.Encode | state.cpp:279-295 | base64enc computes the encoding |
| Base64.EmitByte | state.cpp:309-312 | a byte is pushed once eight bits are pending |
| Base64.Decode | state.cpp:297-315 | base64dec computes the decoding |
| Bindings.TrimRule | bindings.cpp:63-64 | trim takes a substring that strips only whitespace and leaves none at either end, and is idempotent |
| Bindings.KeptRule | bindings.cpp:63-67 | a token without ';' yields at most one non-empty trimmed command, and a clean one is kept as is |
| Bindings.CommandsClean | bindings.cpp:59-68 | every command read from a bind string is trimmed, non-empty and free of ';' |
| Bindings.CommandsOfEmpty | bindings.cpp:59-68 | an empty bind string holds no commands |
| Bindings.CommandsOfJoin | bindings.cpp:72-75 | splitting the join of clean commands gives them back in order |
| Bindings.JoinEnds | bindings.cpp:72-75 | the joined string is non-empty and has no leading or trailing ';' |
| Bindings.Tokenize | bindings.cpp:59-68 | the strtok loop yields the string's commands in order, less the ones equal to the command dropped |
| Bindings.Without | bindings.cpp:88 | no remaining command equals the one dropped |
| Bindings.WithoutClean | bindings.cpp:82-92 | what removeBind keeps of clean commands is clean, so it can be joined and split again |
| Bindings.WithoutKeeps | bindings.cpp:82-92 | filtering adds no command |
| Bindings.WithoutAppend | bindings.cpp:82-92 | filtering works token by token, in order |
| Bindings.WithoutNone | bindings.cpp:59-68 | dropping nothing keeps every command |
| Bindings.JoinCommands | bindings.cpp:72-75 | the stringstream join computes Join |
| KeyBinds.Added | bindings.cpp:69-71 | the list to join is never empty, so its last element exists |
| KeyBinds.AddedBind | bindings.cpp:59-75 | addBind's loop, dedupe and join produce the rebound string |
| KeyBinds.BoundRule | bindings.cpp:55-76 | after addBind the key's commands are its old ones in order, then cmd if absent; no other key changes |
| KeyBinds.AddedClean | bindings.cpp:69-71 | the new list holds cmd and stays clean |
| KeyBinds.ReboundIdempotent | bindings.cpp:69-75 | re-adding a clean command to the string it produced produces the same string |
| KeyBinds.BoundIdempotent | bindings.cpp:55-76 | binding the same clean command twice leaves the table as binding it once |
| KeyBinds.UnboundRule | bindings.cpp:78-102 | after removeBind the key's commands are its others in order and cmd is gone; the key is unbound iff none is left; no other key changes |
| KeyBinds.BindThenUnbind | bindings.cpp:55-102 | binding then unbinding a command leaves the key's other commands |
| KeyBinds.BoundKeeps | bindings.cpp:55-76 | binding keeps every command any key had, and adds cmd to its key |
| KeyBinds.UnboundKeeps | bindings.cpp:78-102 | unbinding adds no command to any key and leaves cmd off its key |
| KeyBinds.FirstPressedRule | bindings.cpp:45-51 | the capture picks a pressed key with none pressed before it in KEY_LIST, and none only when no key is pressed |
| KeyBinds.ForEachHolds | bindings.cpp:13-25 | in a run of steps that each add and keep a fact, a later step does not undo an earlier |
| KeyBinds.AllBoundHolds | bindings.cpp:20-25 | after applyBindKeys each of the four commands is bound to its cvar's key |
| KeyBinds.AllUnboundHolds | bindings.cpp:13-18 | after removeBindKeys none of the four commands is bound to its cvar's key |
| KeyBinds.CommandedClean | bindings.cpp:13-25 | the four plugin commands are clean |
| KeyBinds.Captured | bindings.cpp:32-53 | the capture never adds or removes a cvar |
| KeyBinds.BindTable.AddBind | bindings.cpp:55-76 | addBind rebinds the key and leaves the cvars |
| KeyBinds.BindTable.RemoveBind | bindings.cpp:78-102 | removeBind sets the filtered join, or unbinds the key when nothing is left |
| KeyBinds.BindTable.ApplyBindKeys | bindings.cpp:20-25 | applyBindKeys adds the four commands in order |
| KeyBinds.BindTable.RemoveBindKeys | bindings.cpp:13-18 | removeBindKeys removes the four commands in order |
| KeyBinds.BindTable.SetFirstPressed | bindings.cpp:45-51 | the loop sets the cvar to the first pressed key, unchanged when none is |
| KeyBinds.BindTable.CaptureBindKey | bindings.cpp:32-53 | nothing changes without exactly two params naming a known cvar; otherwise the command is unbound from its old key, the cvar captured, and the keys reapplied |
| Rewind.NextPrevInverse | CheckpointPlugin.cpp:197-229 | next and prev stay among the checkpoints and undo each other |
| Rewind.NextTimesIsRotation | CheckpointPlugin.cpp:217-229 | k presses of next move the cursor k places modulo the count |
| Rewind.NextRoundTrip | CheckpointPlugin.cpp:217-229 | n presses of next on n checkpoints return to the start |
| Rewind.CursorAfterDeleteInRange | CheckpointPlugin.cpp:180-181 | after a delete, std::min(cursor, size-1) is in range while checkpoints remain, and the cursor stays put when none do |
| Rewind.EraseRule | CheckpointPlugin.cpp:180 | erase removes exactly the element at the cursor, shifting the rest down by one |
| Rewind.CursorShowsAfterErase | CheckpointPlugin.cpp:180-181 | after the erase the cursor shows the checkpoint that followed, or the one before when the last was erased |
| Rewind.RecordDueRule | CheckpointPlugin.cpp:492-499 | a sample is due once an interval has passed, and always when the clock went back |
| Rewind.PushedRule | CheckpointPlugin.cpp:542-545 | the history never outgrows its cap, ends with the sample, and at capacity drops exactly the oldest |
| Rewind.TrimmedRule | CheckpointPlugin.cpp:114-116 | shortening keeps only the most recent cap samples, in order |
| Rewind.MaskRange | CheckpointPlugin.cpp:429-435 | the mask lies in [0, 0x7f] and is zero iff no control is pressed |
| Rewind.MaskMonotone | CheckpointPlugin.cpp:429-435 | pressing more controls never lowers the mask, and a new one raises it |
| Rewind.NoExitAfterLoad | CheckpointPlugin.cpp:429-438 | with 0x7f as the previous mask no tick's mask can end rewind mode |
| Rewind.NextHoldRule | CheckpointPlugin.cpp:465-471 | the hold grows by the elapsed time while the stick stays past 0.95 in one direction, and resets to 0 otherwise |
| Rewind.Factor | CheckpointPlugin.cpp:472 | the speed-up lies in [1, 10] and is twice the hold time when that is in range |
| Rewind.NextOffset | CheckpointPlugin.cpp:477-478 | the playhead offset stays within [-interval·size, 0] |
| Rewind.PlayheadInRange | CheckpointPlugin.cpp:479-481 | the played index is clamp(size + floor(offset/interval), 0, size-1), a valid index |
| Rewind.PlayheadValid | CheckpointPlugin.cpp:480-482 | on a non-empty history the played index and, when it is below the last, the next one are valid |
| Rewind.AdvancePct | CheckpointPlugin.cpp:483 | the blend weight lies in (0, 1] |
| Rewind.TruncateAtOldestSample | CheckpointPlugin.cpp:448-451 | at the oldest sample the written cut keeps two of three samples where none is intended |
| Rewind.TruncateInRange | CheckpointPlugin.cpp:448-451 | the intended cut lies within the history |
| Rewind.TruncateIndexRule | CheckpointPlugin.cpp:448-451 | the intended cut is a valid index, and agrees with the written one whenever the playhead is past the oldest sample |
| Rewind.TruncateAsWrittenInRange | CheckpointPlugin.cpp:448-451 | on a non-empty history the written cut is a valid index |
| Rewind.TruncateAsWrittenAtOldest | CheckpointPlugin.cpp:448-451 | with the playhead at the oldest sample the written sum wraps and the clamp gives size - 1, keeping all samples but the newest |
| Rewind.TruncateAsWrittenOnEmpty | CheckpointPlugin.cpp:448-451 | on an empty history the written cut is SIZE_MAX plus ceil(offset/interval), past the end of the vector |
| Rewind.PlayheadOnEmptyHistory | CheckpointPlugin.cpp:480-487 | on an empty history the written index is 0 and the test `current < size - 1` passes in size_t, so the first access is history.at(0) on an empty vector |
| PluginState.Initial | CheckpointPlugin.cpp:26-28 | the plugin starts valid with a cap of 3000 samples |
| PluginState.HistoryCapBound | CheckpointPlugin.cpp:98-116 | within the cvars' ranges the cap is at least 100 samples |
| PluginState.HistoryCapAtMost | CheckpointPlugin.cpp:98-116 | within the cvars' ranges the cap is at most 12000 samples, so size_t arithmetic on the history does not wrap |
| PluginState.ConfigKeepsValid | CheckpointPlugin.cpp:100-116 | the interval and length handlers, the save file and the freeplay reset keep the invariant |
| PluginState.ConfigRule | CheckpointPlugin.cpp:100-116 | a new interval empties the history, leaves rewind mode and clears the dodge timer; a new length keeps the most recent samples that fit, in order |
| PluginState.LoadsKeepValid | CheckpointPlugin.cpp:349-388 | loading a state, the latest checkpoint or the current one keeps the invariant |
| PluginState.HitGoalKeepsValid | CheckpointPlugin.cpp:134-140 | the goal hook keeps the invariant |
| PluginState.FreezeKeepsValid | CheckpointPlugin.cpp:143-149 | cpt_freeze keeps the invariant |
| PluginState.FreezeBallKeepsValid | CheckpointPlugin.cpp:231-253 | cpt_freeze_ball keeps the invariant |
| PluginState.PasteKeepsValid | CheckpointPlugin.cpp:300-327 | cpt_paste keeps the invariant |
| PluginState.DoCheckpointKeepsValid | CheckpointPlugin.cpp:154-194 | cpt_do_checkpoint keeps the cursor on a checkpoint, also across a delete |
| PluginState.NavigationKeepsValid | CheckpointPlugin.cpp:197-229 | prev and next keep the invariant |
| PluginState.RewindKeepsValid | CheckpointPlugin.cpp:416-488 | a rewind tick keeps the playhead at or before the present and the history within its cap |
| PluginState.PressingKeepsValid | CheckpointPlugin.cpp:437-457 | a tick with a control pressed keeps the invariant, also when it cuts the history |
| PluginState.SteeringKeepsValid | CheckpointPlugin.cpp:461-487 | the stick step keeps the invariant |
| PluginState.RecordKeepsValid | CheckpointPlugin.cpp:490-546 | a record tick keeps the history within its cap |
| PluginState.TickKeepsValid | CheckpointPlugin.cpp:390-414 | every OnPreAsync tick keeps the invariant |
| PluginState.DeleteFirstPress | CheckpointPlugin.cpp:173-177 | the first press at a checkpoint only arms the delete: checkpoints, cursor and file are unchanged |
| PluginState.DeleteSecondPress | CheckpointPlugin.cpp:178-185 | the second press erases exactly the checkpoint at the cursor, sets the cursor to min(cursor, size-1), disarms the delete, clears atCheckpoint, sets justDeletedCheckpoint and saves |
| PluginState.AddCheckpoint | CheckpointPlugin.cpp:188-193 | away from a checkpoint a press appends the frozen scene, points the cursor at it, sets atCheckpoint, clears justDeletedCheckpoint and saves; the count grows by one |
| PluginState.DoCheckpointElsewhere | CheckpointPlugin.cpp:155-171 | in a replay the watched state is appended, or nothing happens without one; outside rewind mode the latest checkpoint loads; outside freeplay or paused nothing happens |
| PluginState.NavigateRule | CheckpointPlugin.cpp:197-229 | prev and next do nothing without checkpoints or when gated; otherwise next wraps forward, prev wraps back unless a checkpoint was just deleted, and both load the checkpoint at the cursor, setting atCheckpoint and clearing justDeletedCheckpoint |
| PluginState.NextThenPrev | CheckpointPlugin.cpp:197-229 | next then prev returns to the same checkpoint |
| PluginState.NextPressesRotate | CheckpointPlugin.cpp:217-229 | k presses of next move the cursor k places round the checkpoints |
| PluginState.NextPressesReturn | CheckpointPlugin.cpp:217-229 | as many presses of next as there are checkpoints return to the start |
| PluginState.PrevAfterDelete | CheckpointPlugin.cpp:173-214 | prev right after a delete loads the checkpoint that followed the deleted one, or the one before it when the last was deleted |
| PluginState.RecordRule | CheckpointPlugin.cpp:490-546 | a tick before an interval has passed changes nothing, and a clock that went back counts as due; a due sample is appended, dropping exactly the oldest at capacity |
| PluginState.RecordResets | CheckpointPlugin.cpp:501-520 | a reset of a checkpoint run loads the next checkpoint when so set and no quick checkpoint is held, and the latest one otherwise |
| PluginState.RewindExit | CheckpointPlugin.cpp:429-458 | rewind mode ends exactly on a taken tick whose mask exceeds the previous one more than 0.1 s after the last sample; every taken tick stores its mask; a quick checkpoint is taken only away from a checkpoint |
| PluginState.PressingRule | CheckpointPlugin.cpp:437-457 | a press leaves rewind mode exactly when the mask rises late enough, and stores the mask |
| PluginState.RewindIdle | CheckpointPlugin.cpp:458-463 | with nothing pressed and the stick within 0.05, the playhead, the hold and the scene are unchanged |
| PluginState.RewindSteers | CheckpointPlugin.cpp:458-464 | with nothing pressed and the stick out of its dead zone, the tick is the stick step |
| PluginState.SteeringRule | CheckpointPlugin.cpp:461-487 | the stick keeps the offset within the history, sets a factor in [1,10], clears the delete, and shows the scene under the playhead |
| PluginState.SteeringFaultsOnEmptyHistory | CheckpointPlugin.cpp:461-487 | on an empty history the stick step faults (history.at throws) after pinning the playhead at 0 and disarming the delete; the scene shown is not replaced |
| PluginState.SteeringIntendedRule | CheckpointPlugin.cpp:461-487 | the intended stick step never faults: on an empty history it pins the playhead and keeps the scene, and otherwise it is the program's step |
| PluginState.ShownRule | CheckpointPlugin.cpp:479-487 | the scene shown is sample clamp(size + floor(offset/interval), 0, size-1), blended with the next one when that is not the last |
| PluginState.CutIndex | CheckpointPlugin.cpp:448-451 | on a non-empty history the written cut is a valid index, so the erase stays within the vector |
| PluginState.QuickTakenRule | CheckpointPlugin.cpp:443-452 | leaving away from a checkpoint takes the scene shown as the quick checkpoint; with cpt_clean_history a non-empty history is cut at the written index, dropping at least the newest sample, and an empty one faults |
| PluginState.CutAtOldestSample | CheckpointPlugin.cpp:448-451 | with the playhead at the oldest sample the handler keeps every sample but the newest, where the intended cut keeps none |
| PluginState.CutOnEmptyHistory | CheckpointPlugin.cpp:448-451 | on an empty history the cut lies past the end, and the handler faults after taking the quick checkpoint |
| PluginState.DeleteThenSteerThrows | CheckpointPlugin.cpp:153-189 | a new interval, a load by cpt_do_checkpoint and a delete of the loaded checkpoint leave the plugin in rewind mode with an empty history, away from a checkpoint, where moving the stick alone reaches the throwing read |
| PluginState.QuickLoadThenPressFaults | CheckpointPlugin.cpp:416-458 | a new interval, a load of the quick checkpoint, a tick with the controls released and a later press leave rewind mode with the erase on an empty history |
| PluginState.NoExitAfterLoadTick | CheckpointPlugin.cpp:372-388 | the tick after a load never ends rewind mode |
| PluginState.FrozenBallEndsRewind | CheckpointPlugin.cpp:400-404 | a frozen ball ends rewind mode on the next tick, unless rewind() throws, in which case the tick faults and rewind mode stays |
| PluginState.CopyWhen | CheckpointPlugin.cpp:255-275 | cpt_copy has something to copy exactly in a replay with the player found, or in rewind mode, with a quick checkpoint, or with any checkpoint |
| PluginState.CopyThenPaste | CheckpointPlugin.cpp:255-327 | pasting what was copied loads it as the quick checkpoint and leaves the checkpoints alone |
| PluginState.PasteRejects | CheckpointPlugin.cpp:319-322 | a malformed or unreadable clipboard changes nothing |
| PluginState.SaveThenLoad | CheckpointPlugin.cpp:613-640 | loading a saved file appends the saved checkpoints in order |
| PluginState.LoadWrongVersion | CheckpointPlugin.cpp:613-621 | a file of another version adds nothing |
| Plugin.CheckpointPlugin.constructor | CheckpointPlugin.cpp:26-28 | a fresh plugin is in its initial, valid state with every setting off |
| Plugin.CheckpointPlugin.OnLoad | CheckpointPlugin.cpp:84-118 | onLoad loads the file, then applies the interval and length cvars, keeping the invariant |
| Plugin.CheckpointPlugin.SetSettings | CheckpointPlugin.cpp:36-42 | a boolean cvar's handler sets its flag and nothing else |
| Plugin.CheckpointPlugin.OnSnapshotInterval | CheckpointPlugin.cpp:100-106 | the interval handler performs IntervalChanged and keeps the invariant |
| Plugin.CheckpointPlugin.OnHistoryLength | CheckpointPlugin.cpp:111-117 | the length handler performs HistoryLengthChanged and keeps the invariant |
| Plugin.CheckpointPlugin.SaveCheckpointFile | CheckpointPlugin.cpp:630-640 | the file afterwards holds the checkpoints' layout |
| Plugin.CheckpointPlugin.LoadCheckpointFile | CheckpointPlugin.cpp:613-628 | loading appends the file's records and keeps the invariant |
| Plugin.CheckpointPlugin.LoadGameState | CheckpointPlugin.cpp:372-388 | loadGameState resets the flags as LoadState says |
| Plugin.CheckpointPlugin.LoadCurCheckpoint | CheckpointPlugin.cpp:367-370 | loadCurCheckpoint performs LoadCur |
| Plugin.CheckpointPlugin.LoadLatestCheckpoint | CheckpointPlugin.cpp:349-365 | loadLatestCheckpoint performs LoadLatest and keeps the invariant |
| Plugin.CheckpointPlugin.OnCountdown | CheckpointPlugin.cpp:127-132 | the reset hook performs Countdown |
| Plugin.CheckpointPlugin.OnHitGoal | CheckpointPlugin.cpp:134-140 | the goal hook performs HitGoal |
| Plugin.CheckpointPlugin.Freeze | CheckpointPlugin.cpp:143-149 | cpt_freeze performs Freeze |
| Plugin.CheckpointPlugin.DoCheckpoint | CheckpointPlugin.cpp:154-194 | cpt_do_checkpoint performs DoCheckpoint and keeps the invariant |
| Plugin.CheckpointPlugin.DeleteCurCheckpoint | CheckpointPlugin.cpp:178-185 | the erase and cursor update perform Deleted |
| Plugin.CheckpointPlugin.PrevCheckpoint | CheckpointPlugin.cpp:197-214 | cpt_prev_checkpoint performs Prev and keeps the invariant |
| Plugin.CheckpointPlugin.NextCheckpoint | CheckpointPlugin.cpp:217-229 | cpt_next_checkpoint performs Next and keeps the invariant |
| Plugin.CheckpointPlugin.FreezeTheBall | CheckpointPlugin.cpp:231-253 | cpt_freeze_ball performs FreezeBall |
| Plugin.CheckpointPlugin.Copy | CheckpointPlugin.cpp:255-276 | cpt_copy produces the framed text of the preferred state, or nothing |
| Plugin.CheckpointPlugin.Paste | CheckpointPlugin.cpp:300-327 | cpt_paste performs Paste and keeps the invariant |
| Plugin.CheckpointPlugin.LoadQuickCheckpoint | CheckpointPlugin.cpp:323-326 | the pasted state becomes the loaded quick checkpoint |
| Plugin.CheckpointPlugin.OnPreAsync | CheckpointPlugin.cpp:390-414 | a tick performs Tick, skipping the frozen-ball check when rewind() throws, and keeps the invariant |
| Plugin.CheckpointPlugin.RewindStep | CheckpointPlugin.cpp:416-488 | rewind() performs RewindTick, and reports whether it threw |
| Plugin.CheckpointPlugin.Press | CheckpointPlugin.cpp:437-457 | the pressed-control branch performs Pressing |
| Plugin.CheckpointPlugin.Resume | CheckpointPlugin.cpp:438-453 | leaving rewind mode performs Resumed |
| Plugin.CheckpointPlugin.TakeQuickCheckpoint | CheckpointPlugin.cpp:443-452 | the quick checkpoint and the history cut at the written index perform QuickTaken, faulting on an empty history |
| Plugin.CheckpointPlugin.Steer | CheckpointPlugin.cpp:461-487 | the stick branch performs Steering, faulting on an empty history |
| Plugin.CheckpointPlugin.RecordStep | CheckpointPlugin.cpp:490-546 | record() performs Record and keeps the invariant |
| Plugin.CheckpointPlugin.EndRun | CheckpointPlugin.cpp:508-520 | the reset of a checkpoint run performs ResetRun |
| Plugin.CheckpointPlugin.TakeSample | CheckpointPlugin.cpp:523-545 | the end of record() performs Sampled |
| Plugin.MovePlayhead | CheckpointPlugin.cpp:464-478 | the hold and the offset are NextHold and NextOffset with Factor |
| Plugin.SceneAt | CheckpointPlugin.cpp:479-487 | the scene shown is Shown of the history |
| SaveFile.AllWords | CheckpointPlugin.cpp:636-638 | the records take 27 words per checkpoint |
| SaveFile.LoadedAll | CheckpointPlugin.cpp:624-626 | loading gives back each checkpoint as read from a stream |
| SaveFile.RecordsReadBack | CheckpointPlugin.cpp:624-626 | records read back one by one are read back as a run |
| SaveFile.RecordsRoundTrip | CheckpointPlugin.cpp:624-626 | reading records where they were written gives them back |
| SaveFile.FileRoundTrip | CheckpointPlugin.cpp:613-640 | a saved file loads back every checkpoint, in order |
| SaveFile.FileHeader | CheckpointPlugin.cpp:615-623 | a saved file's header passes the version check and gives the count |
| SaveFile.HeaderRead | CheckpointPlugin.cpp:615-626 | a file starting with the version and a count reads that many records from word 2 |
| SaveFile.FileBody | CheckpointPlugin.cpp:630-638 | the records of a saved file start after the two header words |
| SaveFile.WrongVersion | CheckpointPlugin.cpp:615-621 | a file whose first word is not version 1 loads nothing |
| SaveFile.RecordsCount | CheckpointPlugin.cpp:622-626 | loading appends exactly count records, none for a count of zero or less |
| SaveFile.RecordsPastEnd | CheckpointPlugin.cpp:624-626 | once the stream has failed, every further record is the default state |
| SaveFile.LoadPastEnd | CheckpointPlugin.cpp:624-626 | a failed stream loads only default states |
| SaveFile.WriteGames | CheckpointPlugin.cpp:636-638 | the loop writes every checkpoint's record in order |
| SaveFile.WriteCheckpoints | CheckpointPlugin.cpp:630-640 | the file written is version, count, then the records |
| SaveFile.ReadCheckpoints | CheckpointPlugin.cpp:613-628 | loadCheckpointFile reads the file's records |
| SaveFile.AppendRecord | CheckpointPlugin.cpp:624-626 | one loop pass reads one more record |
| SaveFile.ReadRecords | CheckpointPlugin.cpp:622-626 | the loop reads count records in turn |
| Clipboard.Frame | CheckpointPlugin.cpp:276 | the frame adds five characters around the payload |
| Clipboard.UnframeFrame | CheckpointPlugin.cpp:319-323 | unframing a framed payload gives it back |
| Clipboard.UnframeOnlyFrames | CheckpointPlugin.cpp:319-323 | a text is accepted with a payload exactly when it is that payload's frame |
| Clipboard.UnframeRejects | CheckpointPlugin.cpp:319-322 | text shorter than five characters, without cpv1, or without the final '.' is rejected |

## Left out

- Floating point: floats are exact reals, so rounding is not modelled. `MAX_DODGE_TIME` is exactly 1.2, and the thresholds 0.01, 0.03, 0.05, 0.1 and 0.95 are exact.
- Integer widths: ints are unbounded, except where `size_t` wraps in the rewind controller, which is written out modulo 2^64. The lemmas about the cursor and the playhead assume fewer than 2^64 samples or checkpoints. The int32 count in the save file is not truncated.
- Byte packing: the bytes of each word (readPOD/writePOD's IEEE and integer encodings) are not modelled. The stream is a sequence of tagged words. The string constructor and `toString` take the packing as a pair of functions (`pack` and `unpack`), and the text round trip assumes `unpack` undoes `pack` on a record.
- Stream reads: a read past the end, or of the wrong kind, keeps the value it would have overwritten and fails the stream from then on. Partial reads of a word are not modelled.
- Uninitialised reads:
  - The version word read from a missing or empty save file is taken as 0, which fails the version check.
  - The count word (`int32_t numSaves`, CheckpointPlugin.cpp:622-623), when it cannot be read, is taken as 0, so no record is loaded. The program leaves it uninitialised.
  - The fields of the flat stream constructor start from the default state.
  - The plugin's starting values of `rewindState` (including `buttonsDown` 0), `lastRewindTime`, `freezeBall` and `playingFromCheckpoint` are taken as zero or false. The header CheckpointPlugin.h:28-45 is of an older revision and does not declare them.
- Rotations: the `CustomRotator` interpolation (state.cpp:57-60) and the quaternion half of `mirror` (state.cpp:89-93) are function parameters (`slerp`, `mirrorRot`).
- GameState(gameWrapper, lastJumpedTime) (state.cpp:220-229): only its car part, `CarFromHostAt`, is modelled. Its clock follows the same rule as `GameFromHost`.
- Host effects:
  - The effects on the game of `apply` inside the plugin's handlers are not modelled: loading a state, the per-tick apply of the frozen scene, the ball re-applied while the ball is frozen, and `SetbJumped` when the dodge timer runs out.
  - `State` and `FlatState` model `apply` on host values.
  - `applyVariance` and geometry.cpp (random draws and trigonometry) are not part of this model.
- Host queries are parameters:
  - the freeplay, paused and replay flags;
  - the controller input, the clock and the sample of the scene;
  - goal and ground detection: the ball's height that record() tests (`ballZ`) is a parameter of its own, read before the frozen ball is re-applied, while the sample is taken after;
  - `getReplayGameState` (`replay`), the clipboard text (`clip`) and `IsKeyPressed` (`pressed`).
- Win32 clipboard calls (CheckpointPlugin.cpp:277-297 and 304-317): only the text frame is modelled. The copied text is the output of `Copy`.
- Faults: where the program throws (`history.at` out of range, CheckpointPlugin.cpp:484 and 487) or erases from past the end of the history (undefined behaviour, CheckpointPlugin.cpp:448-451 on an empty history), the model sets the plugin's `faulted` flag. The fields keep the values they had at that point. What the host does with the exception, and what the erase does to the vector, are not modelled. Later handlers run on the fields as they stand.
- Render and show (CheckpointPlugin.cpp:548-606): these only draw. This includes the debug display's own index computation.
- Registration: cvar and notifier registration, hooks, logging, `registerVarianceCVars` and SettingsFile.cpp are not part of this model. The bind cvars are the string map `cvars` of `BindTable`, and `unbind key` is the key's removal from the bind table.
- trim: `trim` comes from `utils/parser.h`, which is not part of this model. It is taken to strip C-locale `isspace` characters from both ends. `strtok` is taken to split at every ';', skipping empty tokens, and the text is taken to contain no NUL.
- Plugin.CheckpointPlugin.RewindStep: it and the other helper methods of one handler (Press, Resume, TakeQuickCheckpoint, Steer, EndRun, TakeSample, LoadGameState, LoadCurCheckpoint, DeleteCurCheckpoint, LoadQuickCheckpoint, SaveCheckpointFile) state the new state but not `Valid`. `Valid` is proved of the step functions, for example by `PluginState.TickKeepsValid`, and the handler methods restate it.

## Findings

The handlers follow the program as written. Each corrected definition is stated beside them, with its intended property proved.

| source | as written | input that shows it | evidently intended | confidence | as-written member | corrected member |
|---|---|---|---|---|---|---|
| CheckpointPlugin.cpp:448-451 | the cut index is `size - 1 + size_t(ceil(offset / interval))`, clamped in `size_t`; when the playhead is at the oldest sample the sum wraps below zero, and the clamp then gives `size - 1` | cpt_clean_history on, three samples, interval 0.01, offset -0.03, leaving rewind mode away from a checkpoint: the cut keeps two samples | the history after the playhead is deleted, which keeps none of them | not executed | PluginState.CutAtOldestSample | Rewind.TruncateIndexRule |
| CheckpointPlugin.cpp:480-487 | on an empty history the stick step calls `history.at(current)`, which throws std::out_of_range (at line 484, since `0 < size - 1` holds in `size_t`, and at line 487 otherwise) | with checkpoints and no quick checkpoint, outside rewind mode: the interval is changed (emptying the history); cpt_do_checkpoint loads the current checkpoint into rewind mode; two more presses arm and erase it, so the stick no longer counts as a press; then the stick alone is moved | no sample is read from an empty history, and the scene is kept | not executed | PluginState.SteeringFaultsOnEmptyHistory | PluginState.SteeringIntendedRule |
| CheckpointPlugin.cpp:448-451 | on an empty history `size - 1` is SIZE_MAX, so the cut index lies past the end and `history.erase(history.begin() + current, history.end())` is undefined | with a quick checkpoint and cpt_clean_history on, outside rewind mode: the interval is changed (emptying the history); cpt_do_checkpoint loads the quick checkpoint into rewind mode, away from a checkpoint; a tick with every control released stores an empty mask; then jump is pressed more than 0.1 s after the last sample | nothing is erased from an empty history | not executed | PluginState.CutOnEmptyHistory | Rewind.TruncateInRange |
