# ego robot controllers — a Dafny model

ego is a small robot made of three devices that talk over WiFi: the drive
unit (`ego_motion`), which decides on a driving intent from its own buttons
and the remote's presses and drives two continuous-rotation servos and six
traffic LEDs; the handheld remote (`ego_remote`), which shows a screen for the
current intent, publishes its joystick and its button presses and dims its
screen when idle; and the ranging unit (`ego_ranger`), which measures the
distance ahead, publishes it and shows it as a traffic-light colour. They
exchange one-byte intents and presses, a three-byte joystick reading and a
two-byte range through Plankton, a last-value-wins publish/subscribe layer over
broadcast datagrams.

Every program is written as synchronous activities that are ticked in a fixed
order. This model represents each activity as an immutable state record and a
pure tick function; a device's `Main` is a tick function over all of its
children, and runs over several ticks are recursive functions over input
streams. Hardware readings (buttons already recognised as presses, the
joystick, the distance sensor, the network's readiness and the datagrams that
arrived) are tick inputs; servo commands, status LED colours, screen
brightness writes and sent datagrams are tick outputs.

Modules, one per component:

- `Common` — machine integer types with C++ truncation, the intent, press and
  topic constants and their byte encodings (`ego_common.h`).
- `Activity` — the tick conventions shared by all activities, `Delay`, and the
  change-only publisher pattern with its reference definition (`Dedup`).
- `Plankton` — the subscription table, `subscribe`, `poll`, `read`, `publish`
  and the datagram framing (`plankton.h`).
- `Dimmer` — the remote's screen dimmer (`pa_stickc.cpp`).
- `Ranger` — the ranging unit (`ego_ranger/src/main.cpp`).
- `Remote` — the remote's intent detector, stop-button override, screens and
  main group (`ego_remote/src/main.cpp`).
- `Intention`, `Actuation`, `Lights`, `Drive`, `Control`, `Motion` — the drive
  unit's intent arbitration, servo pulse arithmetic, traffic lights, driving
  rules, Controller and Main (`ego_motion/src/main.cpp`).

The scheduling library's semantics are fixed as conventions, stated at the
top of `activity.dfy`: `await` tests its condition at once and on every later
tick; `when_abort` and `when_reset` do not test their condition on the tick
they are entered; `halt` suspends for ever; `co` ticks its children in
declaration order and completes when all strong children have completed,
abandoning weak ones; `Delay(n)` completes n ticks after it is entered; and
entering an activity again keeps its locals (RangeIndicator's last level and
RunAuto's rotation direction survive a restart). Two of these are forced by the
code rather than by the library's own description: the first-tick rule for
aborts (otherwise one SHORT press would bounce ModeController between its two
aborts for ever within one tick), and `halt` never completing (a halted activity
is sometimes described as terminating, but the remote's ErrorScreen and the
dimmer's DimDownController rely on it staying suspended).

## Model

| member | source | states |
|---|---|---|
| Common.ToUint16 | ego_motion/src/main.cpp:250 | conversion to `uint16_t` keeps the value modulo 2^16 and is the identity on 0..65535 |
| Common.ToInt16 | ego_motion/src/main.cpp:251 | conversion to `int16_t` is two's complement: equal modulo 2^16 and the identity on -32768..32767 |
| Common.ToInt8 | ego_motion/src/main.cpp:353-354 | reading a byte as `int8_t` gives back the byte when converted to `uint8_t` |
| Common.Int8ByteRoundTrip | ego_remote/src/main.cpp:113-114 | an `int8_t` axis stored in a byte and read back as `int8_t` is unchanged |
| Common.IntentOfByte | ego_libs/ego_common/ego_common.h:11-16 | a byte decodes to an intent exactly when it is below 4, and the decoded intent encodes back to that byte |
| Common.IntentByteRoundTrip | ego_libs/ego_common/ego_common.h:11-16 | every intent survives its one-byte encoding |
| Common.PressOfByte | ego_motion/src/main.cpp:68 | a byte decodes to a press exactly when it is below 4, and the decoded press encodes back to that byte |
| Common.PressByteRoundTrip | ego_remote/src/main.cpp:71 | every press survives its one-byte encoding |
| Common.Uint16BytesRoundTrip | ego_ranger/src/main.cpp:55 | a range published as two bytes is read back by the drive unit as the same 16-bit value |
| Common.JoystickRoundTrip | ego_remote/src/main.cpp:112-116 | the drive unit's reading of the three-byte joystick payload recovers both axes |
| Activity.DelayLasts | ego_motion/src/main.cpp:296-299 | `Delay(n)` is still counting n−k ticks after k < n ticks and has elapsed from tick n on |
| Activity.PublishTick | ego_motion/src/main.cpp:91-97 | a change-only publisher sends on its first tick and afterwards exactly when the value differs from the last one sent, and then holds the new value |
| Activity.PublishOnChange | ego_ranger/src/main.cpp:52-59 | over a stream, the publisher sends in tick 0 and in exactly those ticks whose value differs from the previous tick's |
| Activity.PublishedIsDedup | ego_remote/src/main.cpp:68-75 | the sequence of values a change-only publisher sends equals the input stream with consecutive duplicates removed |
| Plankton.TopicRoundTrip | ego_libs/plankton/plankton.h:60-61 | the four topic bytes a publisher writes are read back by poll as the same topic |
| Plankton.Publish | ego_libs/plankton/plankton.h:24-34 | nothing is sent when the network is not ready; otherwise the datagram is the 4-byte topic followed by exactly the payload |
| Plankton.Subscribe | ego_libs/plankton/plankton.h:38-46 | a new topic gets an empty entry and reports true; an existing subscription reports false and leaves the table as it is; other entries are untouched |
| Plankton.Read | ego_libs/plankton/plankton.h:77-89 | fails without changing the destination when not ready or not subscribed; otherwise copies min(stored, requested) bytes and leaves the rest of the destination |
| Plankton.PollLoop | ego_libs/plankton/plankton.h:53-74 | the receive loop keeps the table's topics, never clears an earlier new-data report and consumes at least one queued datagram; its full result is stated by `Plankton.PollLoopMeetsSpec` |
| Plankton.PollLoopMeetsSpec | ego_libs/plankton/plankton.h:53-74 | the receive loop stores, for every subscribed topic, the payload of its last datagram before the first datagram of at most 4 bytes, skips unsubscribed topics, and reports whether anything was stored |
| Plankton.Poll | ego_libs/plankton/plankton.h:48-75 | poll changes nothing and reports false when not ready; otherwise it meets the receive loop's specification |
| Plankton.PublishThenPoll | ego_libs/plankton/plankton.h:55-73 | a published datagram polled by a subscriber stores exactly its payload and reports new data |
| Plankton.EmptyPayloadEndsPoll | ego_libs/plankton/plankton.h:55-58 | a datagram with an empty payload ends the poll: nothing is stored and later datagrams stay queued |
| Plankton.LastValueWins | ego_libs/plankton/plankton.h:69-71 | of two payloads for one topic polled together only the second is visible to a later read |
| Plankton.TableOnlyGrows | ego_libs/plankton/plankton.h:100 | after any sequence of calls the table's topics are the initial ones plus every subscribed topic: entries are never lost |
| Dimmer.DimDownSchedule | ego_libs/pa_stickc/pa_stickc.cpp:9-15 | the dim-down writes maxBrightness, maxBrightness−1, …, 7, one step every stepPeriod ticks, then halts; with maxBrightness < 7 it writes nothing |
| Dimmer.DimDownAtOnce | ego_libs/pa_stickc/pa_stickc.cpp:10-13 | with a zero step period all brightness steps down to 7 are written in the tick the dim-down starts |
| Dimmer.DimmTick | ego_libs/pa_stickc/pa_stickc.cpp:17-26 | a wakeup while dimming writes the maximum brightness and swallows one tick; a wakeup during the countdown restarts it from the full period; dimming is entered with isDimmed set; the tick after a wake clears isDimmed and counts down again; no brightness is written while counting down |
| Dimmer.PressCopy | ego_libs/pa_stickc/pa_stickc.cpp:28-32 | the press is NO whenever the screen is dimmed and the raw press otherwise |
| Dimmer.DimmerTick | ego_libs/pa_stickc/pa_stickc.cpp:34-39 | the wakeup is a press or the other wakeup signal, and the press copy sees the isDimmed written by the controller in the same tick |
| Dimmer.DimmerKeepsInv | ego_libs/pa_stickc/pa_stickc.cpp:17-26 | isDimmed is false exactly while counting down and true while dimming and on the tick after a wakeup, in every reachable state |
| Dimmer.WakeupRestartsCountdown | ego_libs/pa_stickc/pa_stickc.cpp:19 | a wakeup during the countdown restarts it from the full awake period and lets the press through |
| Dimmer.DimsAfterQuietPeriod | ego_libs/pa_stickc/pa_stickc.cpp:19-20 | the screen is dimmed after exactly awakePeriod ticks without wakeup and not before |
| Dimmer.WakeSwallowsPress | ego_libs/pa_stickc/pa_stickc.cpp:21-24 | a wakeup while dimmed restores full brightness and masks the waking press; on the next tick isDimmed is cleared and presses pass |
| Ranger.CalcLevel | ego_ranger/src/main.cpp:25-35 | the level is never UNDEF and is FAR exactly above 1000 mm, MEDIUM exactly for 301..1000 mm and NEAR exactly up to 300 mm |
| Ranger.CalcLevelMonotone | ego_ranger/src/main.cpp:25-35 | a larger range never yields a nearer level |
| Ranger.UndefRangeIsFar | ego_libs/pa_ranging/pa_ranging.h:13 | the sensor's "no measurement" value 65535 is shown as FAR |
| Ranger.IndicatorTick | ego_ranger/src/main.cpp:37-50 | the LED is set exactly when the level differs from the recorded one, to the level's colour, and the level is recorded |
| Ranger.IndicatorOnLevelChange | ego_ranger/src/main.cpp:37-50 | over a stream, the LED is written in exactly the ticks whose level differs from the previous tick's (or from the initial level in tick 0) |
| Ranger.RangingTick | ego_ranger/src/main.cpp:63-70 | in one tick the measurement is both published on change and shown by the indicator |
| Ranger.RangingPublishes | ego_ranger/src/main.cpp:63-70 | over a whole ranging phase, RangeController publishes exactly what RangePublisher alone would on the same measurements |
| Ranger.RangePublisherDedups | ego_ranger/src/main.cpp:52-59 | the ranges RangeController publishes during a ranging phase are its measurements with consecutive duplicates removed |
| Ranger.ModeTick | ego_ranger/src/main.cpp:72-79 | the sensor is started exactly when ranging is entered and stopped exactly when it is left for the blink; entering ranging publishes this tick's range; the blinking mode publishes and shows nothing; while ranging goes on it publishes what RangeController does |
| Ranger.ModeToggle | ego_ranger/src/main.cpp:72-79 | each SHORT press switches between ranging and blinking, other presses change nothing; the sensor is stopped exactly when ranging is left and started exactly when it is entered |
| Ranger.ModeParity | ego_ranger/src/main.cpp:72-79 | after any run the mode is the starting one exactly when an even number of SHORT presses occurred |
| Ranger.MainSequencing | ego_ranger/src/main.cpp:81-99 | with a failed setup only the error blink runs; otherwise ModeController runs exactly from the tick the connection is made |
| Ranger.FirstConnectedTick | ego_ranger/src/main.cpp:89-98 | in the tick the connector completes, the sensor is started, the first range is published and its level shown |
| Remote.DetectTick | ego_remote/src/main.cpp:56-66 | the change flag is set exactly when a previous intent exists and differs from the current one, which is then recorded |
| Remote.DetectsChanges | ego_remote/src/main.cpp:56-66 | the detector reports false on its first tick and afterwards exactly on the ticks whose intent differs from the previous tick's |
| Remote.CombinePress | ego_remote/src/main.cpp:77-83 | the stop button forces SHORT unless the robot is already stopped; otherwise the press passes unchanged |
| Remote.ReceiveIntent | ego_remote/src/main.cpp:49-54 | after Receiver's poll, IntentSubscriber subscribes in its first tick and takes the stored intent byte when ready; it keeps the intent when not ready, when nothing is stored or when the byte is not an intent |
| Remote.SendJoystick | ego_remote/src/main.cpp:111-116 | a joystick triple to publish is sent exactly when the socket is ready, framed with the JOYSTICK topic |
| Remote.SendPress | ego_remote/src/main.cpp:68-75 | the press is sent, framed with the PRESS topic, exactly when the socket is ready and it differs from the last press published, and is then held |
| Remote.ScreenTick | ego_remote/src/main.cpp:219-234 | the screen shown always matches the current intent, a screen is entered exactly on the first tick and on an intent change, and the manual screen publishes (x, y, false) on entry and exactly when the joystick changed |
| Remote.GroupTick | ego_remote/src/main.cpp:254-265 | after a tick the group holds the intent IntentSubscriber read, shows that intent's screen (entered exactly when the intent changed), records it for the change detector and holds the press published; nothing is sent when not ready, at most two datagrams otherwise, and a changed press is the tick's last datagram |
| Remote.StopButtonWins | ego_remote/src/main.cpp:261-264 | a stop-button press while the robot is not stopped overrides the dimmer's masked press and is published as SHORT in the same tick unless SHORT was the last press sent |
| Remote.PressPipelineOrder | ego_remote/src/main.cpp:259-264 | the press handed to PressPublisher is the dimmer's masking of this tick's raw press, woken by this tick's intent change, with the stop button applied on top |
| Remote.FailedSetupHalts | ego_remote/src/main.cpp:245-247 | with a failed setup the error screen halts: the connector and the main group are never reached and nothing is ever sent |
| Intention.LocalIntent | ego_motion/src/main.cpp:32-49 | the red button overrides the main button, which overrides the blue button; without presses the intent is kept |
| Intention.ComputeIntent | ego_motion/src/main.cpp:30-63 | the remote's press is applied last: SHORT toggles STOP to START_MANU and everything else to STOP, LONG gives QUIT, DOUBLE gives START_AUTO |
| Intention.NoPressKeepsIntent | ego_motion/src/main.cpp:30-63 | with no press anywhere the intent is unchanged |
| Intention.MainShortStops | ego_motion/src/main.cpp:38-50 | a SHORT of the main button without red or remote press gives STOP whatever the previous intent and the blue press |
| Intention.BlueDoubleStartsAuto | ego_motion/src/main.cpp:36 | a DOUBLE of the blue button alone gives START_AUTO |
| Intention.RemoteShortToggles | ego_motion/src/main.cpp:52-58 | two remote SHORT presses in a row toggle between STOP and START_MANU |
| Intention.RecognizeTick | ego_motion/src/main.cpp:65-70 | PressSubscriber subscribes once, reads the remote's press byte when ready and keeps its press when not ready, when nothing was received or when the byte is not a press, and the intent computer uses the press read in this tick |
| Intention.RemotePressArrives | ego_motion/src/main.cpp:68 | a press published by the remote and received by the drive unit is the press the intent computer applies |
| Intention.IntentPublishTick | ego_motion/src/main.cpp:91-97 | the intent is published as one framed byte on entry and exactly when it differs from the last one published |
| Intention.IntentsPublishedOnChange | ego_motion/src/main.cpp:91-97 | with the network ready, the datagrams sent are the frames of the intent stream with consecutive duplicates removed |
| Actuation.InvertPulse | ego_motion/src/main.cpp:243-246 | the mirrored pulse is 3000 − p modulo 2^16, exactly 3000 − p for p ≤ 3000 |
| Actuation.InvertInvolution | ego_motion/src/main.cpp:243-246 | mirroring a pulse twice gives it back, for every 16-bit pulse |
| Actuation.Guard | ego_motion/src/main.cpp:260-262 | the guarded pulse lies in 500..2500, is the identity there, and clamps to the nearer bound outside |
| Actuation.BasePulse | ego_motion/src/main.cpp:250 | 1500 + 4y lies in 988..2008 and never wraps for an int8 y |
| Actuation.PotFactor | ego_motion/src/main.cpp:251-254 | the turning term is TARA + 2x, negated when driving backward (y < −10), wrapped to int16 as the `int16_t` assignment and negation do, and exact whenever nothing wraps |
| Actuation.Pulses | ego_motion/src/main.cpp:248-258 | modulo 2^16 the left pulse is base + turn and the right pulse is the mirror of base − turn |
| Actuation.MirroredServos | ego_motion/src/main.cpp:248-258 | for a trim within ±700 the forward part moves the two pulses in opposite directions and the turning part in the same direction, without wrap-around |
| Actuation.StandStill | ego_motion/src/main.cpp:248-258 | at speed zero both servos get the neutral pulse shifted by the trim |
| Actuation.ServoTick | ego_motion/src/main.cpp:264-274 | both guarded pulses are sent on entry and whenever either pulse changed, nothing otherwise; every pulse sent is within 500..2500 |
| Actuation.ActuatorTick | ego_motion/src/main.cpp:276-281 | the servo sees the pulses computed for this tick's speed, and a fresh actuator sends them at once |
| Lights.LongDirOf | ego_motion/src/main.cpp:204-210 | FORWARD exactly for y > 10, BACKWARD exactly for y < −10, STOP otherwise |
| Lights.LatDirOf | ego_motion/src/main.cpp:211-217 | RIGHT exactly for x > 20, LEFT exactly for x < −20, CENTER otherwise |
| Lights.BlinkTick | ego_motion/src/main.cpp:127-135 | a blinking light flips exactly when its 5-tick delay elapses, and a new delay starts |
| Lights.BlinkPeriod | ego_motion/src/main.cpp:127-135 | a blinking light is lit in the first 5 of every 10 ticks after its start |
| Lights.StopBlinker | ego_motion/src/main.cpp:151-155 | the four side LEDs are dark and the centre LEDs untouched |
| Lights.StopMainLights | ego_motion/src/main.cpp:188-192 | both centre LEDs are dark and all others untouched |
| Lights.StopLights | ego_motion/src/main.cpp:234-237 | every traffic LED is dark |
| Lights.EnterShows | ego_motion/src/main.cpp:221-228 | entering the lights with dark LEDs shows the speed's directions at once |
| Lights.TickShows | ego_motion/src/main.cpp:157-200 | every tick keeps the LEDs showing the current speed's directions: the turning side blinks yellow, the other side is dark, forward and backward show white and (blinking) red |
| Drive.RotateSpeed | ego_motion/src/main.cpp:308-312 | rotation is in place, at x = 100 clockwise and x = −100 counter-clockwise |
| Drive.EnterAuto | ego_motion/src/main.cpp:314-320 | RunAuto sets the LED blue and starts forward at (0, 80) if the range exceeds 300 mm, else rotates |
| Drive.AutoSpeedFollowsRange | ego_motion/src/main.cpp:314-322 | in every tick the autonomous speed is (0, 80) above 300 mm and a rotation otherwise; rotating never changes the direction |
| Drive.RotationFlipsAfter50 | ego_motion/src/main.cpp:296-306 | driving forward on a free way flips the rotation direction exactly once, 50 ticks after the forward drive began |
| Drive.ManualSpeed | ego_motion/src/main.cpp:324-329 | the manual rule copies the joystick speed; the guarded rule holds the robot instead while an obstacle is ahead |
| Drive.EnterRun | ego_motion/src/main.cpp:331-337 | Run chooses the manual rule exactly for START_MANU and the autonomous one otherwise |
| Drive.RunTick | ego_motion/src/main.cpp:331-337 | the manual rule ends exactly when the intent leaves START_MANU (or, as written, on an obstacle), the autonomous one exactly when it leaves START_AUTO |
| Drive.GuardedNeverDrivesIntoObstacle | ego_motion/src/main.cpp:333 | with the guarded rule, a manual drive never asks for forward speed while the range is below 80 mm |
| Control.ReadJoystick | ego_motion/src/main.cpp:348-356 | the joystick speed is the first two stored payload bytes read as int8 |
| Control.ReadRange | ego_motion/src/main.cpp:341-346 | the range is the two stored bytes as a 16-bit value; a 1-byte entry replaces only its low byte; it is kept when the socket is not ready, the topic is not subscribed or nothing is stored yet |
| Control.EnterSession | ego_motion/src/main.cpp:378-385 | a session subscribes both topics and starts the rule of the current intent |
| Control.AwaitIntent | ego_motion/src/main.cpp:372-377 | the wait keeps waiting on STOP, ends the Controller on QUIT, and starts a session on START_MANU or START_AUTO without delay |
| Control.SessionTick | ego_motion/src/main.cpp:378-390 | after a session tick the Controller drives for a driving intent, waits for STOP and is done for QUIT |
| Control.WaitsWhileStopped | ego_motion/src/main.cpp:373 | while the intent is STOP the Controller waits and does nothing |
| Control.SessionFollowsIntent | ego_motion/src/main.cpp:365-391 | after every tick a session runs exactly for START_MANU or START_AUTO, with the manual rule exactly for START_MANU, and the Controller is done exactly on QUIT |
| Control.SessionEndResetsServos | ego_motion/src/main.cpp:283-286 | when a session ends by STOP or QUIT both servos get 1500, all lights are dark, the status LED turns red, and these are the tick's last servo commands |
| Control.SessionEndStops | ego_motion/src/main.cpp:378-389 | however a session ends, the tick sends the session's own servo commands, then 1500 to both servos, and turns the status LED red; a session that goes on sends only its own commands |
| Control.CtlTick | ego_motion/src/main.cpp:365-391 | the Controller's first tick sets the status LED red first; once done it stays done and silent; otherwise it ends exactly on QUIT; it never returns to its start and only adds subscriptions |
| Control.DoneIsFinal | ego_motion/src/main.cpp:375-377 | once QUIT ended the Controller it stays ended and does nothing |
| Control.AutoSessionSpeed | ego_motion/src/main.cpp:378-385 | in the autonomous mode the session's speed follows this tick's range |
| Control.ObstacleAbortUndone | ego_motion/src/main.cpp:331-337 | as written, an obstacle abort in manual mode is undone in the same tick and the servos end up driving forward towards the obstacle |
| Control.GuardedSessionHolds | ego_motion/src/main.cpp:333 | with the guarded rule the Controller never commands a forward manual speed while the range is below 80 mm |
| Motion.GroupTick | ego_motion/src/main.cpp:405-410 | for either manual rule (`Drive.AsWritten` is the program as written), the main group ends exactly when the Controller ends, sends the Controller's servo commands and LED colours, and publishes the intent computed in a tick in that same tick |
| Motion.WaitsForConnection | ego_motion/src/main.cpp:399-402 | nothing happens before the connection is up |
| Motion.LongPressRecognized | ego_motion/src/main.cpp:38-61 | with the socket ready, no red press and the remote's stored press NO after this tick's poll, a LONG press of the main button makes the tick's intent QUIT, whatever other datagrams arrived |
| Motion.QuitEndsGroup | ego_motion/src/main.cpp:375-377 | a QUIT intent during a session stops the servos, publishes QUIT and ends the main group in the same tick |
| Motion.LongPressQuits | ego_motion/src/main.cpp:405-410 | with no red or remote press, during a session and with the socket ready, a LONG press of the main button stops the servos, publishes QUIT and ends the main group in the same tick |
| Motion.FinishedIsFinal | ego_motion/src/main.cpp:409-413 | after the Controller has ended, the main group does nothing more |
| Motion.GuardedDeviceHolds | ego_motion/src/main.cpp:333 | the whole device with the corrected manual rule never leaves a manual session asking for forward speed while the range is below 80 mm |

## Left out

- Hardware I/O is not modelled: LED strips, servo writes, screen drawing, screen brightness registers and the I2C joystick and distance sensor appear only as tick inputs and outputs.
- The button recognisers (PressRecognizer, PressRecognizer2, ButtonUpdater, RaisingEdgeDetector) are library code that is not part of this model; their recognised presses and edges are tick inputs.
- BlinkLED, `setLED`/`clearLED` and `TARA` are library code that is not part of this model: the status LED colours set are outputs, blink patterns (connecting, error, QUIT, the ranger's white blink) are not modelled, and `TARA` is a parameter.
- The Connector (WiFi association) is an input `connected`; the Receiver's poll is modelled through `Plankton.Poll`; the AccessPoint is not used by the three devices.
- The UDP socket is a queue of datagrams plus the `isReady` flag; `beginPacket`/`endPacket` failures are not modelled, so a publish when ready always sends.
- The host byte order of the topic field and of the range is fixed as little-endian.
- Logging (Logger, JoystickLogger, Serial), `setup()`, `loop()` and the FreeRTOS tick timing are left out.
- A received intent or press byte outside the enum leaves the subscriber's variable as it was; the source would store an out-of-range enum value, and on the remote such an intent matches none of MainScreen's four branches, so its `while (true)` (ego_remote/src/main.cpp:220-233) would spin without yielding and hang the device within that tick.
- JoystickSubscriber reads into an uninitialised stack buffer; its contents are a tick input.
- ConnectorScreen and QuitScreen are reduced to which screen is shown.
- Actuation.MirroredServos: stated only for a trim within ±700, where nothing wraps; for other trims `Actuation.Pulses` states the pulses modulo 2^16.
- The byte values of Press (NO = 0, SHORT = 1, LONG = 2, DOUBLE = 3) are taken as declared in the order of the enum; the header that declares Press is not part of this model.
- Ranger.RangingTick: its `published` output is what RangePublisher records, whether or not the socket is ready; a publish while not ready sends nothing but still counts as published.
- Ranger.MainSequencing: BlinkLED is assumed never to complete, so the failed-setup branch blinks forever; BlinkLED is not part of this model. `Ranger.ModeTick` and `Ranger.ModeToggle` rest on the same assumption.
- Ranger.ModeTick: the white blink is assumed never to complete, so without a SHORT press the controller stays in the blinking mode; if `BlinkLED(White, 5, 10)` completed, ModeController would loop back into RangeController with no press (ego_ranger/src/main.cpp:74-78). Ranger.ModeToggle relies on this.
- Ranger.Connect: the `clearLED()` after the connector (ego_ranger/src/main.cpp:93) is not emitted; RangeIndicator starts at UNDEF and so sets a colour in the same tick, so the LED's final colour is unaffected.

## Findings

| source | as written | input that shows it | evidently intended | confidence | as-written member | corrected member |
|---|---|---|---|---|---|---|
| ego_motion/src/main.cpp:331-337 | Run's manual branch aborts RunManual when the joystick pushes forward (y > 10) and the range is below 80 mm; the Controller then stops the servos, but its await at line 373 passes at once because the intent is still START_MANU, a new session starts in the same tick and RunManual copies the forward joystick again | intent START_MANU, joystick (0, 50), range 50 mm, TARA 0: the tick's last servo commands are pulse 1700 on channel 1 and 1300 on channel 3 | the robot does not drive towards an obstacle closer than 80 mm | not executed; medium — depends on the abort timing of the scheduling library, which is not part of this model | Control.ObstacleAbortUndone | Control.GuardedSessionHolds |

The corrected rule (`Drive.ManualRule.Guarded`, proved by
`Drive.GuardedNeverDrivesIntoObstacle`) keeps the manual session running and
holds the robot at speed (0, 0) while the joystick pushes towards an obstacle
closer than 80 mm. `Motion` takes the manual rule as a parameter: with
`Drive.AsWritten` it is the program as written, with `Drive.Guarded` the
corrected one (`Motion.GuardedDeviceHolds`).
