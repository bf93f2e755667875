/**
 The posture monitor of camera.js with the DOM, canvas, audio and pose-model calls
 stripped away: one immutable state record holding the module-level variables the
 logic reads and writes, and one pure function per event handler.
 */
module Monitor {
  import opened Wrappers
  import opened Pose
  import Pulse

  /** Slack added to the calibrated height before a frame counts as bad (camera.js:251). */
  const Margin: real := 10.0

  /** `NOTIFICATION_COOLDOWN`, in milliseconds (camera.js:222). */
  const NotificationCooldown: int := 3000

  /** The module-level variables of camera.js that the posture logic uses:
      `isTracking` (line 1), `goodPostureShoulderY` (line 3), `notificationPermission`
      (line 4), `pointScale`/`increasing` (lines 19-20) and `lastNotificationTime`
      (line 221). The baseline is a plain number, 0 until the first calibration. */
  datatype State = State(
    tracking: bool,
    baseline: real,
    notificationPermission: bool,
    pulse: Pulse.Anim,
    lastNotificationTime: int)

  /** The values the variables hold when the page loads. */
  const Init: State := State(false, 0.0, false, Pulse.Init, 0)

  /** The posture message a detection frame puts in the status box, if any. */
  datatype Status = NoStatus | Good | Bad

  /** What one detection frame does outside the state: the status message, whether
      `playWarningSound` is called, whether `showNotification` is called, and whether that
      call actually shows a desktop notification (it does only with permission). */
  datatype Output = Output(status: Status, sound: bool, notify: bool, notificationShown: bool)

  /** A frame that does nothing visible. */
  const Quiet: Output := Output(NoStatus, false, false, false)

  /** What a calibration reports: the new baseline, or nothing at all when a shoulder is
      missing (the source shows no message in that case). */
  datatype Calibration = Calibrated(baseline: real) | NotCalibrated

  /** The posture test of camera.js:251: strictly more than `Margin` below the baseline
      (image y grows downwards). */
  predicate Slouching(baseline: real, y: real) {
    y > baseline + Margin
  }

  /** The cooldown test of camera.js:256: strictly more than 3000 ms since the last notification. */
  predicate CooldownElapsed(last: int, now: int) {
    now - last > NotificationCooldown
  }

  /** `handleStartButton` (camera.js:271-283): the one button toggles tracking and nothing else. */
  function Press(s: State): (t: State)
    ensures t.tracking != s.tracking
    ensures t.baseline == s.baseline && t.lastNotificationTime == s.lastNotificationTime
    ensures t.pulse == s.pulse && t.notificationPermission == s.notificationPermission
  {
    s.(tracking := !s.tracking)
  }

  /** `handleCalibration` (camera.js:286-315), given the shoulders found in the pose
      (`None` when either is missing). */
  function Calibrate(s: State, shoulders: Option<Shoulders>): (r: (State, Calibration))
    ensures shoulders.Some? ==>
      r.0.baseline == MeanY(shoulders.value) && r.1 == Calibrated(r.0.baseline)
    ensures shoulders.None? ==> r.0 == s && r.1 == NotCalibrated
    // only the baseline ever changes
    ensures r.0 == s.(baseline := r.0.baseline)
  {
    match shoulders
    case None => (s, NotCalibrated)
    case Some(sh) =>
      var y := MeanY(sh);
      (s.(baseline := y), Calibrated(y))
  }

  /** One run of `detectPose` (camera.js:224-269) at time `now` (the value `Date.now()`
      would return), given the shoulders found in the pose. */
  function Step(s: State, shoulders: Option<Shoulders>, now: int): (r: (State, Output))
    // idle, or a pose without both shoulders: nothing happens at all
    ensures !s.tracking || shoulders.None? ==> r == (s, Quiet)
    ensures s.tracking && shoulders.Some? ==>
      var y := MeanY(shoulders.value);
      var (t, out) := r;
      // a status is always shown, and it is Bad exactly on a slouching frame
      && (out.status == Bad <==> y > s.baseline + Margin)
      && (out.status == Good <==> y <= s.baseline + Margin)
      // the warning sound plays on every bad frame, cooldown or not
      && (out.sound <==> out.status == Bad)
      // the notification slot fires on a bad frame only once the cooldown has passed
      && (out.notify <==> out.status == Bad && now - s.lastNotificationTime > NotificationCooldown)
      && (out.notificationShown <==> out.notify && s.notificationPermission)
      && t.lastNotificationTime == (if out.notify then now else s.lastNotificationTime)
      // the points pulse once per evaluated frame
      && t.pulse == Pulse.Advance(s.pulse)
      && t.tracking == s.tracking && t.baseline == s.baseline
      && t.notificationPermission == s.notificationPermission
  {
    if !s.tracking then (s, Quiet)
    else match shoulders
      case None => (s, Quiet)
      case Some(sh) =>
        var y := MeanY(sh);
        var s1 := s.(pulse := Pulse.Advance(s.pulse));
        if Slouching(s1.baseline, y) then
          var notify := CooldownElapsed(s1.lastNotificationTime, now);
          var s2 := if notify then s1.(lastNotificationTime := now) else s1;
          (s2, Output(Bad, true, notify, notify && s1.notificationPermission))
        else
          (s1, Output(Good, false, false, false))
  }

  /** Two presses of the start button restore the original state. */
  lemma PressTwice(s: State)
    ensures Press(Press(s)) == s
  {
  }

  /** Calibration keeps no history: a later successful calibration wins outright, and a
      failed one leaves the earlier baseline in place. */
  lemma CalibrateOverwrites(s: State, first: Option<Shoulders>, second: Option<Shoulders>)
    ensures second.Some? ==>
      Calibrate(Calibrate(s, first).0, second) == Calibrate(s, second)
    ensures second.None? ==>
      Calibrate(Calibrate(s, first).0, second).0 == Calibrate(s, first).0
  {
  }

  /** A frame showing the very pose that was calibrated is good: its mean height equals
      the baseline, which is not more than `Margin` above it. No sound, no notification. */
  lemma CalibratedPoseIsGood(s: State, sh: Shoulders, now: int)
    requires s.tracking
    ensures
      var c := Calibrate(s, Some(sh)).0;
      var (t, out) := Step(c, Some(sh), now);
      out == Output(Good, false, false, false) && t.lastNotificationTime == s.lastNotificationTime
  {
  }

  /** Before any calibration the baseline is 0, so a frame is bad exactly when the mean
      shoulder height exceeds 10. */
  lemma UncalibratedThreshold(sh: Shoulders, now: int)
    ensures (Step(Press(Init), Some(sh), now).1.status == Bad) <==> MeanY(sh) > 10.0
  {
  }

  /** The cooldown is strict: a bad frame exactly 3000 ms after the last notification
      sounds the warning but does not notify; one millisecond later it notifies. */
  lemma CooldownBoundary(s: State, sh: Shoulders)
    requires s.tracking && MeanY(sh) > s.baseline + Margin
    ensures Step(s, Some(sh), s.lastNotificationTime + 3000).1 == Output(Bad, true, false, false)
    ensures Step(s, Some(sh), s.lastNotificationTime + 3000).0.lastNotificationTime
      == s.lastNotificationTime
    ensures Step(s, Some(sh), s.lastNotificationTime + 3001).1.notify
  {
  }
}
