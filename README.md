# Hand controller: a verified model

The hand controller plays a game with one hand in front of a camera. A hand
detector reports each hand's 21 landmarks and a handedness label. For every
camera frame, `process_frame` does three things:

- it runs a single pass over the landmarks to build a few features: a box
  around the hand without its wrist, two extremes that each leave out one
  fingertip, and some single coordinates;
- it runs a fixed sequence of blocks: Forward (`w`), Run (a tap of `ctrl`),
  Left (`a`), Right (`d`), Backward (`s`) and Jump (`space`). The direction
  blocks also press or release the shared `shift` key for crouching;
- it builds a status label.

Two flags carry over between frames:

- `ctrlFlag`, the sprint latch, makes the sprint tap fire on an edge;
- `inScreen`, the hand-present flag, arms a fail-safe that releases every key
  when the hand leaves the picture.

The project has four modules:

- `Landmarks` (landmarks.dfy): points, hands, the feature record and the
  landmark pass. The pass is a fold (`Extract`), and the method
  `ExtractFeatures` runs it with the source's nested loops. Lemmas state what
  the features mean: the box bounds every landmark but the wrist, each
  extreme is attained, and the single points come from the last Left hand.
- `Gestures` (gestures.dfy): the conditions each block tests and the status
  label. The label is defined once by priority (`Primary`, `Label`) and once
  as the blocks build it by overwriting (`BlockOrderLabel`). The two are
  proved equal.
- `Keyboard` (keyboard.dfy): the seven keys, press and release events, and
  `Apply`, which replays a log of events onto the set of keys held down.
  `DownAfter` is an independent reference reading of a log.
- `HandController` (controller.dfy):
  - `Step`, the pure specification of one frame: the next state, whether an
    image is returned, the label and the key events;
  - `Run` and `RunEvents`, which extend `Step` to a sequence of frames;
  - the class `Controller`, whose `ProcessFrame` updates `held`, `ctrlFlag`
    and `inScreen` in place through `PressKey` and `ReleaseKey`, block by
    block as the source does. Its contract ties the new state, the events
    issued and the label to `Step`.

The model keeps four behaviours of the code that are easy to miss:

- `minYwithout8` and `maxXwithout4` include the wrist (landmark 0).
- The sprint latch is cleared only by a Forward frame whose index tip is not
  raised above the rest of the hand: some other landmark lies strictly above
  it (`y8 > minYwithout8`). It is not cleared when Forward stops.
- The no-hands fail-safe releases every key and clears `inScreen`, but it
  leaves `ctrlFlag` as it was. After the hand returns, a sprint does not tap
  ctrl until a Forward frame has cleared the latch.
- `shift` is left alone when no direction block fires.

## Model

| member | source | states |
|---|---|---|
| Landmarks.ExtractFeatures | hand_controller.py:38-96 | The hand loop and the landmark loop compute exactly the fold `Extract`. `isLeft` is true iff every hand is labelled Left. Non-Left hands are skipped and Left hands merge into the same accumulators. |
| Landmarks.VisitLandmarks | hand_controller.py:72-96 | The loop over one hand's landmarks computes exactly the fold `VisitHand` over all 21 landmarks. |
| Landmarks.ExtractExtremes | hand_controller.py:84-93 | Each of the six accumulators is on the right side of every landmark it ranges over, across every Left hand of the frame. |
| Landmarks.ExtractBounds | hand_controller.py:84-93 | Landmarks 1..20 of every Left hand lie inside the box. `minYwithout8` is at most the y of every landmark but 8, wrist included. `maxXwithout4` is at least the x of every landmark but 4, wrist included. |
| Landmarks.ExtractAttained | hand_controller.py:38-93 | With a Left hand present, each accumulator equals the coordinate of some landmark it ranges over, so the ±10^9 sentinel never survives. |
| Landmarks.ExtractSinglePoints | hand_controller.py:80-96 | `x0, y0, y8, x4, y13, y14, y20` are the coordinates of the last Left hand in the frame. |
| Gestures.BlockOrderIsPriority | hand_controller.py:111-173 | Overwriting the label in block order (Forward, Run, Left, Right, Backward) gives the label of the last block that fires. The label is non-empty iff some direction holds. |
| Gestures.LabelCases | hand_controller.py:111-183 | The label is "" iff neither a direction nor the jump holds. It is "Jump" iff only the jump holds. It is never the bare "Shift". |
| Gestures.LeftJumpExclusive | hand_controller.py:133-183 | For a frame of Left hands, the Left condition and the Jump condition never hold together, so "Left Jump" and "Left + Shift Jump" are never shown. |
| Gestures.OppositeTiltsExclusive | hand_controller.py:104-163 | For a frame of Left hands, Forward and Backward never hold together, and neither do Left and Right. |
| Keyboard.ReleaseAllInOrder | hand_controller.py:7 | The fail-safe's events release the seven keys of `all_keys`, in that order. |
| Keyboard.ApplyDownAfter | hand_controller.py:104-185 | Replaying a log agrees with the reference reading: a key is down iff its last event is a press, or it was down and the log never mentions it. |
| Keyboard.ApplyAppend | hand_controller.py:104-185 | Replaying two logs in turn equals replaying their concatenation. |
| Keyboard.ApplyIdempotent | hand_controller.py:104-185 | Replaying a frame's presses and releases a second time changes nothing. |
| Keyboard.ReleaseAllEmpties | hand_controller.py:189-192 | After releasing every key in `all_keys`, no key is down, whatever was down before. |
| HandController.ForwardBlockKeys | hand_controller.py:104-121 | After the Forward block, w is down iff Forward holds. If Forward holds, shift follows `y20 < y13`. Every other key is unchanged. |
| HandController.RunBlockKeys | hand_controller.py:124-129 | The Run block changes only ctrl, and leaves it up when it taps. |
| HandController.SideBlockKeys | hand_controller.py:133-175 | After a Left, Right or Backward block, its key is down iff the block fires. If it fires, shift follows the block's crouch test. Every other key is unchanged. |
| HandController.JumpBlockKeys | hand_controller.py:178-185 | After the Jump block, space is down iff `x4 > maxXwithout4`. Every other key is unchanged. |
| HandController.FrontBlocksKeys | hand_controller.py:104-129 | After the Forward and Run blocks, w is down iff Forward holds. If Forward holds, shift follows `y20 < y13`. Ctrl is down only if it was and no tap happened. Every other key is unchanged. |
| HandController.TiltBlocksKeys | hand_controller.py:133-185 | After the Left, Right, Backward and Jump blocks, a, d, s and space are each down iff their condition holds. Shift is decided by Backward if it fires, else by Left or Right. Every other key is unchanged. |
| HandController.LeftFrameKeys | hand_controller.py:103-185 | After a frame of Left hands: w, a, d, s and space are each down iff their condition holds. Shift is decided by the last direction block that fires, and kept when none fires. Ctrl is down only if it already was and no tap happened. |
| HandController.OppositeKeysExclusive | hand_controller.py:104-175 | After a frame of Left hands, w and s are never both down, and neither are a and d. |
| HandController.OnlyRunTouchesCtrl | hand_controller.py:103-185 | Of the frame's blocks, only the Run block presses or releases ctrl. |
| HandController.CtrlEvents | hand_controller.py:123-129 | A frame of Left hands presses ctrl once and releases it once iff the sprint condition holds and the latch is unset. Otherwise it issues no ctrl event. |
| HandController.LatchClearsOnlyWhen | hand_controller.py:104-109 | A set latch becomes unset only in a frame of Left hands where Forward holds and `y8 > minYwithout8`. No other frame clears it, including the fail-safe. |
| HandController.LatchClearRepress | hand_controller.py:104-110 | In the frame that clears a set latch, the first events are a release of w and then a press of w, and w ends down. |
| HandController.LatchLevelIndex | hand_controller.py:104-129 | With `y8 == minYwithout8`, the latch is kept and ctrl is not pressed. |
| HandController.StepPreservesConsistent | hand_controller.py:100-193 | Every frame keeps ctrl up and keeps the keyboard empty while no hand is present. The new key set is the old one replayed with the frame's events. |
| HandController.NoHandsFrame | hand_controller.py:188-193 | A frame with no hands while a hand was present releases all seven keys and leaves none down. It clears `inScreen`, keeps `ctrlFlag` and shows "". While no hand was present, it changes nothing. |
| HandController.NoCameraFrame | hand_controller.py:26-31 | Without a camera image, no image is returned, the label is "", and nothing changes. |
| HandController.OtherHandFrame | hand_controller.py:49-101 | A frame with a hand not labelled Left issues no key event and shows "". It keeps the keys and the latch, and sets `inScreen`. |
| HandController.SprintStep | hand_controller.py:123-129 | One sprint frame taps ctrl once iff the latch was unset, and leaves the latch set. |
| HandController.SprintTapsOnce | hand_controller.py:123-130 | Over any run of sprint frames, ctrl is pressed once and released once if the latch started unset, and never if it started set. The latch ends set. |
| HandController.EndsWithNoHands | hand_controller.py:188-193 | From a consistent state, any sequence of frames that ends with a frame without hands leaves no key down. |
| HandController.Controller.constructor | hand_controller.py:13-14 | The controller starts with no key down, an empty log, the latch unset and no hand present. |
| HandController.Controller.PressKey | hand_controller.py:110 | Pressing a key adds it to the keys down and logs the press. The flags are unchanged. |
| HandController.Controller.ReleaseKey | hand_controller.py:121 | Releasing a key removes it from the keys down and logs the release. The flags are unchanged. |
| HandController.Controller.CrouchKeys | hand_controller.py:112-119 | Shift is pressed iff the crouch test holds, and released otherwise. The label becomes the block's name, with " + Shift" when crouching. Every block passes a non-empty name, so the `text = "Shift"` branches are dead. |
| HandController.Controller.ClearLatch | hand_controller.py:105-109 | With the index tip not raised above the rest of the hand (some other landmark lies strictly above it: `y8 > minYwithout8`), w is released if the latch was set, and the latch is cleared. Otherwise nothing happens. |
| HandController.Controller.ForwardKeys | hand_controller.py:103-121 | Issues exactly `ForwardBlock` for the latch it found. It clears the latch iff Forward holds and `y8 > minYwithout8`. If Forward holds, the label becomes "Forward", with " + Shift" when crouching. |
| HandController.Controller.RunKeys | hand_controller.py:123-130 | Issues exactly `RunBlock` for the latch it found and sets the latch on a sprint. On a sprint the label becomes "Run". |
| HandController.Controller.SideKeys | hand_controller.py:132-175 | Issues exactly `SideBlock`. When the block fires, the label becomes its name, with " + Shift" when crouching. |
| HandController.Controller.JumpKeys | hand_controller.py:177-185 | Issues exactly `JumpBlock`. If the thumb is out, it appends " Jump" to the label, or sets it to "Jump" when the label is empty. |
| HandController.Controller.ReleaseEveryKey | hand_controller.py:189-192 | The loop over `all_keys` issues exactly the seven releases, in order, and keeps both flags. |
| HandController.Controller.FrontKeys | hand_controller.py:103-130 | The Forward and Run blocks together issue their events, move the latch to `LatchAfter` and leave the label of the last of them that fired. |
| HandController.Controller.TiltKeys | hand_controller.py:132-175 | The Left, Right and Backward blocks together issue their events and overwrite the label in that order. |
| HandController.Controller.LeftHandKeys | hand_controller.py:103-185 | All six blocks issue `FrameEvents`, move the latch to `LatchAfter` and leave the label `Label`. |
| HandController.Controller.ProcessFrame | hand_controller.py:24-195 | One frame updates the keys down, the latch and the presence flag as `Step` says. It appends `Step`'s events to the log and returns `Step`'s image flag and label. It keeps ctrl up, and keeps the keyboard empty while no hand is present. |

## Left out

- The graphical interface in `ui.py` is not part of this model: the Qt widgets, camera enumeration, the capture thread and its lock, and the refresh timer. It is GUI and concurrency plumbing.
- Camera handling and image processing are not modelled: `set_camera`, `camera.read`, `cv2.flip`, colour conversion and the hand detector itself. A frame is modelled directly as the detector's output (`NoFrame`, or a sequence of hands). A missing camera and a failed read are both `NoFrame`.
- Image scaling is not modelled. The landmarks' floating-point scaling to pixels (`int(landmark.x * width)`) is left out, and hands carry integer pixel coordinates.
- Drawing is not modelled: the hand skeleton and the landmark numbers. The returned image is reduced to a flag saying whether one is returned.
- The `time.sleep(0.1)` pauses are not modelled. Only the order of the key events is kept.
- The `keyboard` library is replaced by a set of keys held down and a log of press and release events. Pressing a held key or releasing a free one changes nothing.
- Hands are modelled with exactly 21 landmarks each, the number the detector always reports.
- Landmarks.ExtractAttained: requires every coordinate to lie strictly between the ±10^9 sentinels. Pixel coordinates of a camera image always do.
- HandController.SprintTapsOnce: is stated for runs made only of sprint frames. Frames of other kinds are covered one at a time by `CtrlEvents`, `LatchClearsOnlyWhen` and `NoHandsFrame`.
