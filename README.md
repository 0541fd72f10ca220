# EEG robot arm: headset bridge and robot bookkeeping in Dafny

This project models the sequential core of the EEG-controlled robot arm. A NeuroSky
MindWave headset streams JSON lines through the ThinkGear Connector. A Kotlin
recorder classifies and fans out those lines. A Python script turns attention and
blinks into commands for a Universal Robots arm.

- `headset.dfy` (module `Headset`) models `HeadsetData.from`. It picks the packet
  record for a JSON line by plain, case-sensitive substring tests in a fixed order
  (`status`, `eSense`, `blink`, `mental`, `familiarity`, `raw`) and rejects a line
  with none of them. Jackson's `readValue` is a parameter: a function that returns a
  record of the requested type or fails.
- `headset_reader.dfy` (module `HeadsetReading`) models `HeadsetReader` as a class.
  - The input is a sequence of lines with a read cursor.
  - The handshake skips lines Jackson cannot parse and discards the first line that
    decodes. Any other exception escapes.
  - The read loop decodes every later line and calls each registered handler once.
    A per-token log records those calls.
  - `subscribe` and `unsubscribe` update the token-to-handler map in place.
- `ur_robot.dfy` (module `URRobotModel`) models `URRobot`.
  - The six move counters and their caps. Each move raises its own counter and
    lowers the opposite one.
  - The counter reset and the magnet switch.
  - `next_position`, the strict box check in mm and `recalculate_position`.
  - The TCP position, read over Modbus in the source, is a parameter of each move.
    The scripts sent to the arm are logged in a sequence.
- `mindwave_move.dfy` (module `MindwaveMove`) models the main loop of
  `simple_mindwave_move.py`: double-blink detection, the validity rule and the
  decision table over a state record. Each input is one packet together with the
  clock reading and the `cut_off` flag at that moment.
- `wrappers.dfy` and `seq_lemmas.dfy` hold the Option/Result types and two
  sequence lemmas.

Proved properties include:

- The classifier's priority order. It is case-sensitive and rejects a line that
  holds none of the keys.
- The handshake stops at the first parsable line, and an unrecognised line there
  ends the reader.
- Every packet of the read loop reaches every subscribed handler, in order, and a
  line that fails to decode ends the loop.
- The robot's counters stay balanced and within their caps after any series of
  moves and resets.
- `recalculate_position` brings an axis that was strictly outside the box exactly
  onto its bound, where the strict check refuses it. It returns an axis that was in
  range in mm, not as a displacement in m. For the six steps the robot takes, a
  step refused by the first box check is therefore refused after recalculation
  too, so a move is made exactly when its counter is below the cap and its own step
  stays in the box.
- The motion never leaves DOWN, the arm never moves down, and it never moves while
  cut off.

The read loop does not catch the exception from `HeadsetData::from`: a line that
fails to decode ends the loop and `socket.use` closes the socket
(`FailedLineEndsStream`, `HeadsetReader.ReadNext`).

## Model

| member | source | states |
|---|---|---|
| Headset.Contains | mindwave-recorder/src/main/kotlin/com/nhlstenden/mindwave/HeadsetData.kt:12-17 | Kotlin's `key in line` holds exactly when the key occurs at some index of the line |
| Headset.Classify | mindwave-recorder/src/main/kotlin/com/nhlstenden/mindwave/HeadsetData.kt:11-19 | the chosen branch's key occurs in the line and no key tested earlier does; no branch is chosen exactly when none of the six keys occurs |
| Headset.From | mindwave-recorder/src/main/kotlin/com/nhlstenden/mindwave/HeadsetData.kt:11-19 | the "unrecognized" error comes exactly from lines with no key; a decoded record is of the selected branch's type; otherwise the result is the mapper's answer for that branch |
| Headset.StatusFirst | mindwave-recorder/src/main/kotlin/com/nhlstenden/mindwave/HeadsetData.kt:12 | any line containing `status` is decoded as a StatusReport, whatever else it holds |
| Headset.ClassifyFirstKey | mindwave-recorder/src/main/kotlin/com/nhlstenden/mindwave/HeadsetData.kt:12-17 | converse of the priority rule: a key that occurs with no earlier key occurring selects its branch |
| Headset.FromYieldsSelectedVariant | mindwave-recorder/src/main/kotlin/com/nhlstenden/mindwave/HeadsetData.kt:11-19 | a decoded record has exactly one type, and it is the one the line selects |
| Headset.ContainsPrefix | mindwave-recorder/src/main/kotlin/com/nhlstenden/mindwave/HeadsetData.kt:14 | a line containing a field name contains every prefix of it |
| Headset.KeyCharacterInLine | mindwave-recorder/src/main/kotlin/com/nhlstenden/mindwave/HeadsetData.kt:12-17 | each character of a contained key occurs in the line |
| Headset.AbsentByCharacter | mindwave-recorder/src/main/kotlin/com/nhlstenden/mindwave/HeadsetData.kt:12-17 | a key with a character missing from the line is not contained in it |
| Headset.BlinkStrengthSelectsBlink | mindwave-recorder/src/main/kotlin/com/nhlstenden/mindwave/HeadsetData.kt:14 | a line with `blinkStrength` and no lower-case `s` (so neither `status` nor `eSense`) selects BlinkStrength through `blink` |
| Headset.MentalEffortSelectsMental | mindwave-recorder/src/main/kotlin/com/nhlstenden/mindwave/HeadsetData.kt:15 | a line with `mentalEffort` and no `s` or `b` (so none of the three earlier keys) selects MentalEffort through `mental` |
| Headset.FamiliaritySelectsFamiliarity | mindwave-recorder/src/main/kotlin/com/nhlstenden/mindwave/HeadsetData.kt:16 | a line with `familiarity` and no `s`, `b` or `e` (so none of the four earlier keys) selects Familiarity |
| Headset.RawEegSelectsRaw | mindwave-recorder/src/main/kotlin/com/nhlstenden/mindwave/HeadsetData.kt:17 | a line with `rawEeg` and no `s`, `b`, `m` or `f` (so none of the five earlier keys) selects RawData through `raw` |
| Headset.GeneralDataSelectsESense | mindwave-recorder/src/main/kotlin/com/nhlstenden/mindwave/HeadsetData.kt:13 | a line with `eSense` built from GeneralData's field names (none contains `u`) selects the eSense branch |
| Headset.StatusLineIsStatusReport | mindwave-recorder/src/main/kotlin/com/nhlstenden/mindwave/HeadsetData.kt:12 | the bridge's status line selects StatusReport |
| Headset.NoKeyLetterIsUnrecognized | mindwave-recorder/src/main/kotlin/com/nhlstenden/mindwave/HeadsetData.kt:18 | a line without the first letter of any key is rejected as unrecognised and yields no record |
| Headset.UpperCaseKeyIsUnrecognized | mindwave-recorder/src/main/kotlin/com/nhlstenden/mindwave/HeadsetData.kt:12-18 | matching is case-sensitive: a line with only `STATUS` is rejected |
| HeadsetReading.HandshakeFrom | mindwave-recorder/src/main/kotlin/com/nhlstenden/mindwave/HeadsetReader.kt:39-47 | on success every skipped line was a JSON parse error and the last consumed line decodes; the input runs out exactly when every remaining line is a parse error; any other failure carries a non-parse error |
| HeadsetReading.Handshake | mindwave-recorder/src/main/kotlin/com/nhlstenden/mindwave/HeadsetReader.kt:39-47 | the `while (true)` loop computes the handshake outcome above |
| HeadsetReading.HandshakeStopsAtFirstParsable | mindwave-recorder/src/main/kotlin/com/nhlstenden/mindwave/HeadsetReader.kt:40-47 | after parse errors only, the handshake ends at the first other line: just after it if it decodes, with its exception otherwise |
| HeadsetReading.UnrecognizedLineFailsHandshake | mindwave-recorder/src/main/kotlin/com/nhlstenden/mindwave/HeadsetReader.kt:40-47 | an unrecognised line met during the handshake ends the reader with the uncaught IllegalArgumentException |
| HeadsetReading.StreamFrom | mindwave-recorder/src/main/kotlin/com/nhlstenden/mindwave/HeadsetReader.kt:53-61 | the packets are the decoded lines in order; the loop ends normally exactly at the end of input, otherwise at a line whose decode failed, with that error |
| HeadsetReading.StreamFromStep | mindwave-recorder/src/main/kotlin/com/nhlstenden/mindwave/HeadsetReader.kt:54-55 | a decoded line puts its packet before the rest of the stream; a failed one ends it |
| HeadsetReading.FailedLineEndsStream | mindwave-recorder/src/main/kotlin/com/nhlstenden/mindwave/HeadsetReader.kt:53-61 | no packet after a failing line is delivered, and reaching it stops the loop with its error |
| HeadsetReading.Delivered | mindwave-recorder/src/main/kotlin/com/nhlstenden/mindwave/HeadsetReader.kt:58 | handing a packet to the handlers keeps the set of logged tokens |
| HeadsetReading.HeadsetReader.constructor | mindwave-recorder/src/main/kotlin/com/nhlstenden/mindwave/HeadsetReader.kt:39-54 | the registry starts empty; the reader is streaming from the line after the handshake line, or stopped with the handshake's error |
| HeadsetReading.HeadsetReader.Subscribe | mindwave-recorder/src/main/kotlin/com/nhlstenden/mindwave/HeadsetReader.kt:67-69 | the returned token was not in use, and the registry is the old one plus token to handler |
| HeadsetReading.HeadsetReader.Unsubscribe | mindwave-recorder/src/main/kotlin/com/nhlstenden/mindwave/HeadsetReader.kt:72-74 | only the token is removed; an absent token leaves the registry unchanged |
| HeadsetReading.HeadsetReader.FanOut | mindwave-recorder/src/main/kotlin/com/nhlstenden/mindwave/HeadsetReader.kt:58 | each registered handler is called once with the packet, and nothing else is logged |
| HeadsetReading.HeadsetReader.ReadNext | mindwave-recorder/src/main/kotlin/com/nhlstenden/mindwave/HeadsetReader.kt:54-58 | one loop step: end of input stops normally; a decoded line is delivered to every subscriber; a failed line stops the reader with its error and delivers nothing |
| HeadsetReading.HeadsetReader.Run | mindwave-recorder/src/main/kotlin/com/nhlstenden/mindwave/HeadsetReader.kt:53-61 | the reader stops as the stream outcome says, and every subscriber's log grows by exactly the stream's packets, in order |
| HeadsetReading.Open | mindwave-recorder/src/main/kotlin/com/nhlstenden/mindwave/HeadsetReader.kt:39-55 | a new reader decodes with `HeadsetData::from`, starts with an empty registry and is in the state the handshake leaves |
| HeadsetReading.SubscribeThenUnsubscribe | mindwave-recorder/src/main/kotlin/com/nhlstenden/mindwave/HeadsetReader.kt:67-74 | subscribing and then unsubscribing the returned token restores the registry |
| URRobotModel.NextPosition | UR-Interface-0.1.0/Robot/UR/URRobot.py:307-319 | the next position, scaled back to mm, is the current position plus the displacement in mm |
| URRobotModel.IsWithinBoundaries | UR-Interface-0.1.0/Robot/UR/URRobot.py:321-338 | returns 0 or 1, and 1 exactly when the reached position is strictly inside the box on all three axes |
| URRobotModel.BoundIsOutside | UR-Interface-0.1.0/Robot/UR/URRobot.py:333 | a move that ends exactly on a bound is refused |
| URRobotModel.RecalculateAxis | UR-Interface-0.1.0/Robot/UR/URRobot.py:352-363 | below the minimum the result reaches the minimum; above the maximum it reaches the maximum; in range it is the next coordinate in mm |
| URRobotModel.RecalculatePosition | UR-Interface-0.1.0/Robot/UR/URRobot.py:340-365 | per axis: a coordinate the move takes below the minimum (above the maximum) is replaced by the displacement that reaches the minimum (maximum); a coordinate in range comes back as the coordinate itself, in mm |
| URRobotModel.RecalculatedMoveStillRefused | UR-Interface-0.1.0/Robot/UR/URRobot.py:340-365 | if any axis of the move falls outside its range, the recalculated move is still refused by the box check |
| URRobotModel.StepOutsideStaysRefused | UR-Interface-0.1.0/Robot/UR/URRobot.py:165-168 | for each of the six steps, a step refused by the first box check is still refused after recalculation |
| URRobotModel.MayMoveIffStepInside | UR-Interface-0.1.0/Robot/UR/URRobot.py:165-168 | a move is made exactly when its counter is below the cap and its own step ends inside the box |
| URRobotModel.Moved | UR-Interface-0.1.0/Robot/UR/URRobot.py:168-171 | a move raises its own counter by one, lowers the opposite one by one and leaves the other four alone |
| URRobotModel.MovedKeepsInvariants | UR-Interface-0.1.0/Robot/UR/URRobot.py:160-260 | a move below its cap keeps opposite counters summing to zero and every counter within its caps |
| URRobotModel.ApplyKeepsInvariants | UR-Interface-0.1.0/Robot/UR/URRobot.py:160-284 | a guarded move or a reset keeps the counters balanced and within their caps |
| URRobotModel.ReplayKeepsInvariants | UR-Interface-0.1.0/Robot/UR/URRobot.py:160-284 | any sequence of moves and resets keeps the counters balanced and within their caps |
| URRobotModel.ReachableCounterBounds | UR-Interface-0.1.0/Robot/UR/URRobot.py:23-284 | from the initial counters: right, left, forward and backward stay in [-3, 3], up in [-3, 2], down in [-2, 3] |
| URRobotModel.RefreshIsIdempotent | UR-Interface-0.1.0/Robot/UR/URRobot.py:272-284 | the reset zeroes all counters, and resetting twice equals resetting once |
| URRobotModel.MagnetNeverReleasedAsWritten | UR-Interface-0.1.0/Robot/UR/URRobot.py:262-270 | as written, every call from the initial state switches the magnet on |
| URRobotModel.ToggledMagnetAlternates | UR-Interface-0.1.0/Robot/UR/URRobot.py:262-270 | with the flag updated, successive calls alternate on and off |
| URRobotModel.URRobot.constructor | UR-Interface-0.1.0/Robot/UR/URRobot.py:23-31 | all six counters and the magnet flag start at 0 |
| URRobotModel.URRobot.Move | UR-Interface-0.1.0/Robot/UR/URRobot.py:160-260 | the counters change exactly as a guarded move says; the arm is sent the (recalculated) translation if the move is allowed, a stop otherwise |
| URRobotModel.URRobot.MoveRight | UR-Interface-0.1.0/Robot/UR/URRobot.py:165-175 | `move_right` is the shared move with cap 3 and step 0.10 m along x |
| URRobotModel.URRobot.MoveLeft | UR-Interface-0.1.0/Robot/UR/URRobot.py:182-192 | `move_left` is the shared move with cap 3 and step -0.10 m along x |
| URRobotModel.URRobot.MoveUp | UR-Interface-0.1.0/Robot/UR/URRobot.py:199-209 | `move_up` is the shared move with cap 2 |
| URRobotModel.URRobot.MoveDown | UR-Interface-0.1.0/Robot/UR/URRobot.py:216-226 | `move_down` is the shared move with cap 3 |
| URRobotModel.URRobot.MoveForward | UR-Interface-0.1.0/Robot/UR/URRobot.py:233-243 | `move_forward` is the shared move with cap 3 |
| URRobotModel.URRobot.MoveBackward | UR-Interface-0.1.0/Robot/UR/URRobot.py:250-260 | `move_backward` is the shared move with cap 3 |
| URRobotModel.URRobot.ChangeMagnetState | UR-Interface-0.1.0/Robot/UR/URRobot.py:262-270 | as written: sends the switch for the current flag and leaves the flag unchanged |
| URRobotModel.URRobot.ToggleMagnet | UR-Interface-0.1.0/Robot/UR/URRobot.py:262-270 | as documented: sends the switch and flips the flag |
| URRobotModel.URRobot.ChangeMagnetStateTimes | UR-Interface-0.1.0/Robot/UR/URRobot.py:262-270 | n successive calls of the written method send exactly the as-written command sequence for the unchanged flag |
| URRobotModel.URRobot.ToggleMagnetTimes | UR-Interface-0.1.0/Robot/UR/URRobot.py:262-270 | n successive switches that flip the flag send the toggled command sequence and leave the flag flipped n times |
| URRobotModel.MagnetTwiceAsWritten | UR-Interface-0.1.0/Robot/UR/URRobot.py:262-270 | two calls on a fresh robot, as written, both switch the magnet on |
| URRobotModel.MagnetTwiceToggled | UR-Interface-0.1.0/Robot/UR/URRobot.py:262-270 | two switches on a fresh robot with the flag flipped switch the magnet on, then off |
| URRobotModel.URRobot.RefreshMovementCount | UR-Interface-0.1.0/Robot/UR/URRobot.py:272-284 | all six counters return to 0; the magnet flag and the log are untouched |
| MindwaveMove.Decide | UR-Interface-0.1.0/simple_mindwave_move.py:96-111 | the arm moves up exactly when valid, not cut off, heading down and attention >= 60; otherwise it stops; it never moves down |
| MindwaveMove.Choose | UR-Interface-0.1.0/simple_mindwave_move.py:96-111 | the imperative decision moves up exactly when valid, not cut off, heading down and attention >= 60, and stops otherwise |
| MindwaveMove.Step | UR-Interface-0.1.0/simple_mindwave_move.py:78-111 | motion is unchanged; validity follows the eSense reading; the magnet switches exactly on a strong blink within 1 s of the last; the stop timer is refreshed exactly on an eSense packet; the last command is the decision on the new state |
| MindwaveMove.HandleLine | UR-Interface-0.1.0/simple_mindwave_move.py:78-111 | the imperative loop body computes the step above |
| MindwaveMove.MainLoop | UR-Interface-0.1.0/simple_mindwave_move.py:66-121 | from the initial variables, the loop computes the run of steps over all packets |
| MindwaveMove.MotionStaysDown | UR-Interface-0.1.0/simple_mindwave_move.py:113-119 | motion stays DOWN and `move_down` is never issued |
| MindwaveMove.ValidityFollowsLastESense | UR-Interface-0.1.0/simple_mindwave_move.py:88-94 | attention, meditation and validity come from the latest eSense reading; valid exactly when their sum is positive |
| MindwaveMove.CutOffNeverMovesUp | UR-Interface-0.1.0/simple_mindwave_move.py:96-111 | while cut off, the arm is never moved |
| MindwaveMove.AttentionMovesUp | UR-Interface-0.1.0/simple_mindwave_move.py:96-101 | a valid reading with attention >= 60, not cut off, moves the arm up |
| MindwaveMove.DoubleBlinkForgetsBlink | UR-Interface-0.1.0/simple_mindwave_move.py:78-85 | a second strong blink within 1 s switches the magnet and resets the stored time, so the next strong blink only starts a new pair |
| MindwaveMove.SingleBlinkRemembered | UR-Interface-0.1.0/simple_mindwave_move.py:81-85 | a strong blink 1 s or more after the last stores its time and switches nothing |
| MindwaveMove.WeakBlinkIgnored | UR-Interface-0.1.0/simple_mindwave_move.py:78 | a blink of strength 30 or less, or none, keeps the stored time and switches nothing |
| MindwaveMove.AsWrittenOnlyStops | UR-Interface-0.1.0/simple_mindwave_move.py:78-111 | as written, the state never changes and every packet only stops the arm |
| MindwaveMove.AttentivePacketIgnoredAsWritten | UR-Interface-0.1.0/simple_mindwave_move.py:78-111 | a packet with attention 80: the written loop stops the arm, the intended one refreshes the timer and moves up |
| MindwaveMove.CutOffLatchesAsWritten | UR-Interface-0.1.0/simple_mindwave_move.py:35-51 | as written, once the timer has fired the flag stays set whatever follows |
| MindwaveMove.CutOffClearedByRefresh | UR-Interface-0.1.0/simple_mindwave_move.py:35-51 | with the flag declared global, a refresh as the last event leaves the arm free to move |

## Left out

- Sockets and I/O: the connection to the ThinkGear Connector, the JSON-mode request and the wait for the connection; the robot's secondary port, Modbus, URScript encoding and `_send_script`; the headset socket in the script. Input lines are a sequence, and commands to the arm are logged values.
- Concurrency: the coroutine running the read loop, the per-packet `launch` and the synchronised map are not modelled. Delivery is sequential, so a subscription made during delivery is not modelled either. The `threading.Timer` behind `cut_off` is replaced by the flag as an input to each step.
- Jackson's `readValue` is a parameter: a function that returns a record of the requested type or fails with a parse or mapping error. Field-level JSON decoding is not part of this model.
- Kotlin's `Int` width and `Double` fields are modelled as unbounded `int` and `real`. Python floats are modelled as exact `real`s, so rounding in the mm/m conversions is not captured.
- URRobotModel.URRobot.Move: takes one TCP position per move. The source reads it over Modbus on every check, and the arm does not move between those reads.
- `time.sleep`, `print`, `reset_position`, `translate`, `movel`, the `draw_*` sequences, `move_to_pose` and the rest of `URRobot.py` are not part of this model. The robot module methods that only send scripts are not part of it either.
- The loop of `simple_mindwave_move.py` takes only parsed packets. A line that `json.loads` rejects hits the `continue` at line 75 and skips the `readline` at line 121, so the loop never advances. This non-advancing loop is not modelled.
- The script's commands go to `URRobot`, but `MindwaveMove` only records them as effects. The composition of the two models is not stated.
- HeadsetReading.HeadsetReader.Run: does not state that the logs of tokens unsubscribed before the run stay unchanged. It states delivery only for the tokens still subscribed.
- HeadsetReading.HandshakeFrom: states success and end of input in terms of parse errors. It does not also state, as an existential, which line raised the escaping exception. `HandshakeStopsAtFirstParsable` gives that line when it is known.
- RecorderApp, ConsoleLog and RecordingConfig are not part of this model. They are UI, console output and a configuration record.

## Findings

| source | as written | input that shows it | evidently intended | confidence | as-written member | corrected member |
|---|---|---|---|---|---|---|
| UR-Interface-0.1.0/simple_mindwave_move.py:78-94 | `hasattr(packet, 'blinkStrength')` and `hasattr(packet, 'eSense')` test for attributes of the dict that `json.loads` returns, so both are always false | the packet `{"eSense": {"attention": 80, "meditation": 20}}`: the arm is stopped, `valid` stays false and the stop timer is never refreshed | key lookups (`'eSense' in packet`, `packet['eSense']['attention']`), so blinks and eSense readings drive the arm | not executed | MindwaveMove.AsWrittenOnlyStops, MindwaveMove.AttentivePacketIgnoredAsWritten | MindwaveMove.Step, MindwaveMove.AttentionMovesUp |
| UR-Interface-0.1.0/simple_mindwave_move.py:51 | `cut_off = False` in `refresh_stop_task` assigns a local; only `stopTask` is declared global | latent as written: `refresh_stop_task` is called only at line 89, inside the dead `hasattr` branch of line 88, so the timer never starts and `cut_off` stays false. Once lines 78 and 88 are fixed: the timer fires once (the global flag becomes true), then eSense packets keep arriving, the flag stays true and the arm never moves again | declare `cut_off` global, so a fresh packet clears the cut-off | not executed | MindwaveMove.CutOffLatchesAsWritten | MindwaveMove.CutOffClearedByRefresh |
| UR-Interface-0.1.0/Robot/UR/URRobot.py:262-270 | `change_magnet_state` sends the switch command but never assigns `is_magnet_active` | two calls from the initial state: both send `set_io(8, True)`, so a double blink can never release the magnet | flip `is_magnet_active` after each switch | not executed | URRobotModel.MagnetTwiceAsWritten, URRobotModel.URRobot.ChangeMagnetStateTimes, URRobotModel.MagnetNeverReleasedAsWritten | URRobotModel.MagnetTwiceToggled, URRobotModel.URRobot.ToggleMagnetTimes, URRobotModel.ToggledMagnetAlternates |
