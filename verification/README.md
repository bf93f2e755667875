# Posture monitor model

A Dafny model of the posture-evaluation logic of a browser posture trainer
(`camera.js`). The page watches a webcam and asks a pose model for body keypoints.
A calibration click records the mean height of the two shoulders as the "good
posture" baseline. While tracking is on, each animation frame compares the live
mean shoulder height with that baseline. A slouching frame shows a "bad" status
and plays a warning sound. It also calls the desktop-notification routine, but at
most once every 3000 ms.

The model drops the DOM, canvas, audio and pose-model calls. What remains is a
small state machine over one immutable record:

- `Pose` models the keypoint list and the `find`-by-part-name lookup of the two
  shoulders.
- `Pulse` models the pulsing point-size animation (`pointScale` / `increasing`).
- `Monitor` holds the state record `State`, the initial values `Init` and one pure
  function per handler:
  - `Press` is the start/stop button.
  - `Calibrate` is the calibrate button.
  - `Step` is one `detectPose` frame.
- `Session` runs sequences of events through those functions. It states the
  properties that only show over many steps.

Inputs from outside are parameters:

- The pose model's output is a keypoint list (`Pose.Keypoints`), or the shoulder
  pair already extracted from it (`Option<Shoulders>`).
- `Date.now()` is the `now: int` argument of `Step`.

Coordinates and the animation scale are Dafny `real`s.

Behaviour of camera.js worth stating explicitly:

- `goodPostureShoulderY` is a plain number that starts at 0. Before any
  calibration, a frame is bad exactly when its mean shoulder height exceeds 10
  (`Monitor.UncalibratedThreshold`).
- The cooldown test is strict: `now - lastNotificationTime > 3000`. A bad frame
  exactly 3000 ms after the last notification does not notify
  (`Monitor.CooldownBoundary`).
- `lastNotificationTime` starts at 0. So the first notification of a session
  needs `now > 3000` (`Session.FirstNotificationAfterCooldown`).
- The warning sound plays on every bad frame. Only the notification call is
  rate-limited, and with it `lastNotificationTime`.
- A calibration whose pose lacks a shoulder shows no message and leaves the
  baseline as it was.
- One button toggles tracking. Each press flips it (`Monitor.PressTwice`).
- `showNotification` shows something only when `notificationPermission` is set.
  Nothing ever sets it, because the permission request in `handleStartButton` is
  commented out. So no notification is ever displayed
  (`Session.NoNotificationFromInit`). The notification slot and its timestamp
  still run.

## Model

| member | source | states |
|---|---|---|
| `Pose.Find` | camera.js:232-233 | `keypoints.find` returns `None` exactly when no keypoint has the part name; otherwise it returns the first keypoint with that name |
| `Pose.FindShoulders` | camera.js:232-235 | both shoulders are found exactly when the pose lists a `leftShoulder` and a `rightShoulder` keypoint; the pair returned carries those names, comes from the pose, and holds the first keypoint of each name, as `find` returns it |
| `Pulse.Advance` | camera.js:211-219 | a rising scale grows by 0.03 and turns to falling exactly when it reaches 1.2; a falling scale shrinks by 0.03 and turns to rising exactly when it reaches 0.8; the oscillator invariant is preserved |
| `Pulse.IterateBounded` | camera.js:211-219 | from any state satisfying the invariant, any number of animation steps keeps it, so the scale stays strictly between 0.77 and 1.23 |
| `Pulse.FromInitBounded` | camera.js:19-20 | from `pointScale = 1`, `increasing = true`, the scale stays strictly between 0.77 and 1.23 forever |
| `Monitor.Press` | camera.js:271-283 | the start button flips `isTracking` and changes no other state |
| `Monitor.PressTwice` | camera.js:271-283 | two presses restore the original state |
| `Monitor.Calibrate` | camera.js:295-308 | with both shoulders, the baseline becomes their mean y and is reported; with either missing, the state is unchanged and nothing is reported; calibration never changes anything but the baseline |
| `Monitor.CalibrateOverwrites` | camera.js:298-299 | a later successful calibration replaces any earlier baseline outright; a failed one keeps the earlier baseline |
| `Monitor.Step` | camera.js:224-262 | idle or shoulder-less frames change nothing and show nothing; otherwise status is Bad exactly when mean y > baseline + 10 and Good otherwise, the sound plays exactly on Bad frames, the notification fires exactly on Bad frames more than 3000 ms after the last one, `lastNotificationTime` moves to `now` exactly then, the pulse advances once, and tracking and baseline are untouched |
| `Monitor.CalibratedPoseIsGood` | camera.js:251 | a frame showing the calibrated pose again is Good, with no sound and no notification |
| `Monitor.UncalibratedThreshold` | camera.js:3 | before any calibration, a frame is Bad exactly when its mean shoulder y exceeds 10 |
| `Monitor.CooldownBoundary` | camera.js:255-259 | a bad frame exactly 3000 ms after the last notification sounds but does not notify, and keeps the timestamp; at 3001 ms it notifies |
| `Session.ApplyNotification` | camera.js:255-259 | an event notifies only if it is a frame past the cooldown, and then records its own time; otherwise `lastNotificationTime` is unchanged |
| `Session.NotificationsSpaced` | camera.js:253-259 | over any run, consecutive notification calls are more than 3000 ms apart, the first more than 3000 ms after the starting timestamp, and the final `lastNotificationTime` is the time of the last call |
| `Session.FirstNotificationAfterCooldown` | camera.js:221-222 | from page load, the first notification call happens at a time greater than 3000 |
| `Session.PermissionNeverGranted` | camera.js:168-176 | no event grants the notification permission, so a run without it never displays a notification |
| `Session.NoNotificationFromInit` | camera.js:271-277 | from page load, no event ever displays a desktop notification |
| `Session.RunKeepsPulseInv` | camera.js:247 | any run of events keeps the pulse invariant and the scale strictly between 0.77 and 1.23 |
| `Session.IdleFramesInert` | camera.js:224-225 | while tracking is off, any number of frames leaves the state unchanged and shows nothing |
| `Session.MissingShoulderFrameInert` | camera.js:235 | a frame whose pose lacks either shoulder changes nothing and shows nothing |

## Left out

- Pose inference: loading PoseNet and running `estimateSinglePose`. This is a foreign library, so its result is an input of the model.
- Pose-model failures: inside `detectPose`, a thrown estimation is caught and has the same effect as a pose without shoulders. Inside `handleCalibration`, the error message it shows is not modelled.
- Camera acquisition (`setupCamera`). This is WebRTC I/O.
- Canvas drawing (`drawPoint`, `drawLine`, `clearRect`). This is UI. Only the `pointScale` update is modelled.
- Audio synthesis (`playWarningSound`) and the Notification API (`showNotification`, `requestNotificationPermission`). These are browser I/O. They appear only as the boolean outputs `sound`, `notify` and `notificationShown`.
- Status-message texts, the messages shown on calibration and on stopping, theming, hover effects and the page-load wiring, including the doubled `init()` call. These are DOM and storage plumbing.
- Scheduling: `requestAnimationFrame` re-scheduling, `async`/`await`, and the `detectPose` call made right after tracking starts. A session is a plain sequence of events in which that first frame is an ordinary `Frame` event. Each frame is one atomic step here. In camera.js, however, `detectPose` tests `isTracking` (line 225) before it awaits the pose (line 228), and it evaluates the pose (lines 232-262) after the await. A detection already waiting for its pose when Stop is pressed still shows a status, plays the sound and may notify. `Session.IdleFramesInert` covers only frames that start while tracking is off.
- IEEE-754 rounding: coordinates, the shoulder mean and the 0.03 animation steps are exact reals. Under floating point the scale sequence differs in its last digits.
