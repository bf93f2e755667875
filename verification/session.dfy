/**
 Sequences of user and frame events driving the monitor, and the properties that
 only show over many steps: the bounded pulse, the spacing of notifications, and
 the notification permission that nothing ever grants.
 */
module Session {
  import opened Wrappers
  import opened Pose
  import Pulse
  import opened Monitor

  /** A click on the start button, a click on the calibrate button with the pose the
      model returned for it, or one `detectPose` frame with its pose and `Date.now()`. */
  datatype Event = PressStart | CalibrateOn(pose: Keypoints) | Frame(pose: Keypoints, now: int)

  /** One event applied to the state; clicks produce no posture output. */
  function Apply(s: State, e: Event): (State, Output)
  {
    match e
    case PressStart => (Press(s), Quiet)
    case CalibrateOn(p) => (Calibrate(s, FindShoulders(p)).0, Quiet)
    case Frame(p, now) => Step(s, FindShoulders(p), now)
  }

  /** The state after all of `evs`, in order. */
  function Run(s: State, evs: seq<Event>): State
    decreases |evs|
  {
    if |evs| == 0 then s else Run(Apply(s, evs[0]).0, evs[1..])
  }

  /** The output of every event of `evs`, in order. */
  function Outputs(s: State, evs: seq<Event>): (outs: seq<Output>)
    ensures |outs| == |evs|
    decreases |evs|
  {
    if |evs| == 0 then []
    else
      var (t, out) := Apply(s, evs[0]);
      [out] + Outputs(t, evs[1..])
  }

  /** The times at which `showNotification` was called during `evs`, in order. */
  function NotifyTimes(s: State, evs: seq<Event>): seq<int>
    decreases |evs|
  {
    if |evs| == 0 then []
    else
      var (t, out) := Apply(s, evs[0]);
      (if out.notify then [evs[0].now] else []) + NotifyTimes(t, evs[1..])
  }

  /** Each time in `ts` lies more than the cooldown after the one before it, and the
      first more than the cooldown after `last`. */
  predicate SpacedAfter(last: int, ts: seq<int>) {
    && (|ts| > 0 ==> ts[0] - last > NotificationCooldown)
    && forall i :: 0 < i < |ts| ==> ts[i] - ts[i - 1] > NotificationCooldown
  }

  /** One event notifies only on a frame past the cooldown, and then records its time;
      any other event leaves `lastNotificationTime` alone. */
  lemma ApplyNotification(s: State, e: Event)
    ensures var (t, out) := Apply(s, e);
      if out.notify then
        e.Frame? && t.lastNotificationTime == e.now
        && e.now - s.lastNotificationTime > NotificationCooldown
      else t.lastNotificationTime == s.lastNotificationTime
  {
  }

  /** A run unfolds into its first event followed by the rest. */
  lemma RunUnfold(s: State, evs: seq<Event>)
    requires |evs| > 0
    ensures var (t, out) := Apply(s, evs[0]);
      && Run(s, evs) == Run(t, evs[1..])
      && NotifyTimes(s, evs) == (if out.notify then [evs[0].now] else []) + NotifyTimes(t, evs[1..])
  {
  }

  /** Notifications are rate-limited over any run, whatever order the clock values come
      in: consecutive `showNotification` calls are more than 3000 ms apart, and
      `lastNotificationTime` ends up as the time of the last one. */
  lemma {:induction false} NotificationsSpaced(s: State, evs: seq<Event>)
    ensures SpacedAfter(s.lastNotificationTime, NotifyTimes(s, evs))
    ensures var ts := NotifyTimes(s, evs);
      Run(s, evs).lastNotificationTime == (if |ts| == 0 then s.lastNotificationTime else ts[|ts| - 1])
    decreases |evs|
  {
    if |evs| > 0 {
      var (t, out) := Apply(s, evs[0]);
      ApplyNotification(s, evs[0]);
      RunUnfold(s, evs);
      NotificationsSpaced(t, evs[1..]);
    }
  }

  /** Starting from page load the first notification can only come after time 3000,
      since `lastNotificationTime` starts at 0 rather than "never". */
  lemma FirstNotificationAfterCooldown(evs: seq<Event>)
    ensures var ts := NotifyTimes(Init, evs);
      |ts| > 0 ==> ts[0] > NotificationCooldown
  {
    NotificationsSpaced(Init, evs);
  }

  /** No event changes the notification permission, so a session without it never shows
      a notification, although `showNotification` may be called. */
  lemma {:induction false} PermissionNeverGranted(s: State, evs: seq<Event>)
    requires !s.notificationPermission
    ensures !Run(s, evs).notificationPermission
    ensures forall i :: 0 <= i < |evs| ==> !Outputs(s, evs)[i].notificationShown
    decreases |evs|
  {
    if |evs| > 0 {
      var (t, out) := Apply(s, evs[0]);
      PermissionNeverGranted(t, evs[1..]);
      assert Outputs(s, evs) == [out] + Outputs(t, evs[1..]);
    }
  }

  /** From page load, no desktop notification is ever shown: the permission request is
      commented out in `handleStartButton` (camera.js:276). */
  lemma NoNotificationFromInit(evs: seq<Event>)
    ensures forall i :: 0 <= i < |evs| ==> !Outputs(Init, evs)[i].notificationShown
  {
    PermissionNeverGranted(Init, evs);
  }

  /** The pulse invariant holds after any run that starts in it. */
  lemma {:induction false} RunKeepsPulseInv(s: State, evs: seq<Event>)
    requires Pulse.Inv(s.pulse)
    ensures Pulse.Inv(Run(s, evs).pulse)
    ensures 0.77 < Run(s, evs).pulse.scale < 1.23
    decreases |evs|
  {
    if |evs| > 0 {
      RunKeepsPulseInv(Apply(s, evs[0]).0, evs[1..]);
    }
  }

  /** While tracking is off, frames change nothing and show nothing: `detectPose`
      returns at its first line (camera.js:225). */
  lemma {:induction false} IdleFramesInert(s: State, evs: seq<Event>)
    requires !s.tracking
    requires forall i :: 0 <= i < |evs| ==> evs[i].Frame?
    ensures Run(s, evs) == s
    ensures forall i :: 0 <= i < |evs| ==> Outputs(s, evs)[i] == Quiet
    decreases |evs|
  {
    if |evs| > 0 {
      IdleFramesInert(s, evs[1..]);
      assert Outputs(s, evs) == [Quiet] + Outputs(s, evs[1..]);
    }
  }

  /** A frame whose pose lacks either shoulder keypoint changes nothing and shows nothing,
      even while tracking (camera.js:235). */
  lemma MissingShoulderFrameInert(s: State, kps: Keypoints, now: int)
    requires !HasPart(kps, LeftShoulder) || !HasPart(kps, RightShoulder)
    ensures Apply(s, Frame(kps, now)) == (s, Quiet)
  {
  }
}
