/** AudioPlayerManager: play/pause toggling, the artwork rotation that runs
    while the track plays, seeking by a click on the progress bar, and the
    "MM:SS" time labels.

    Timers become explicit calls: `now` is the value `Date.now()` would
    return (milliseconds), and `RotationTick` is one firing of the 50 ms
    rotation interval. The audio element's `paused` flag, `currentTime` and
    `duration` are fields of the manager. */
module Audio {
  import opened Decimal

  /** A JavaScript number as `formatTime` receives it: NaN (no duration yet)
      or a finite value. */
  datatype Number = NaN | Finite(value: real)

  /*** formatTime ***/

  /** `Math.floor(seconds / 60)` for a non-negative number of seconds. */
  function Minutes(s: real): (m: nat)
    requires s >= 0.0
    ensures m as real * 60.0 <= s < (m as real + 1.0) * 60.0
  {
    (s / 60.0).Floor
  }

  /** Rounding toward zero, as the `%` operator uses it. */
  function Trunc(r: real): int {
    if r >= 0.0 then r.Floor else -((-r).Floor)
  }

  /** JavaScript's `a % b`: the remainder takes the sign of the dividend. */
  function JsRemainder(a: real, b: real): real
    requires b != 0.0
  {
    a - b * Trunc(a / b) as real
  }

  /** `seconds % 60` for any finite number: the truncated quotient times 60
      plus the remainder gives the dividend back, and the remainder has the
      dividend's sign and is smaller in size than 60. */
  lemma JsRemainderSign(a: real)
    ensures 60.0 * Trunc(a / 60.0) as real + JsRemainder(a, 60.0) == a
    ensures a >= 0.0 ==> 0.0 <= JsRemainder(a, 60.0) < 60.0
    ensures a < 0.0 ==> -60.0 < JsRemainder(a, 60.0) <= 0.0
  {
  }

  /** `Math.floor(seconds % 60)` for a non-negative number of seconds: the
      whole seconds past the last full minute. */
  function RemainingSeconds(s: real): (r: nat)
    requires s >= 0.0
    ensures r < 60
    ensures Minutes(s) * 60 + r == s.Floor
  {
    JsRemainder(s, 60.0).Floor
  }

  /** formatTime: "00:00" for NaN, otherwise zero-padded minutes (not capped
      at 99) and seconds around a colon. */
  function FormatTime(seconds: Number): string
    requires seconds.Finite? ==> seconds.value >= 0.0
  {
    match seconds
    case NaN => "00:00"
    case Finite(s) => Pad2(Minutes(s)) + ":" + Pad2(RemainingSeconds(s))
  }

  /** Below 100 minutes the label is exactly five characters: the tens and
      units digit of the whole minutes, a colon, and the tens and units
      digit of the whole seconds past that minute. */
  lemma FormatTimeFields(s: real)
    requires 0.0 <= s < 6000.0
    ensures var m, sec := Minutes(s), RemainingSeconds(s);
      m < 100 && m * 60 + sec == s.Floor
      && FormatTime(Finite(s))
        == [DigitChar(m / 10), DigitChar(m % 10), ':', DigitChar(sec / 10), DigitChar(sec % 10)]
  {
    var m, sec := Minutes(s), RemainingSeconds(s);
    var a, b := Pad2(m), Pad2(sec);
    assert a == [DigitChar(m / 10), DigitChar(m % 10)] by {
      Pad2Field(m);
    }
    assert b == [DigitChar(sec / 10), DigitChar(sec % 10)] by {
      Pad2Field(sec);
    }
    JoinLabel(a, b);
  }

  /** padStart never truncates: from 100 minutes on the minute field is the
      plain decimal rendering, three or more digits wide, still followed by
      a colon and two second digits. */
  lemma FormatTimeUncapped(s: real)
    requires s >= 6000.0
    ensures var m, sec := Minutes(s), RemainingSeconds(s);
      m >= 100 && |NatToString(m)| >= 3
      && FormatTime(Finite(s)) == NatToString(m) + [':', DigitChar(sec / 10), DigitChar(sec % 10)]
  {
    var m, sec := Minutes(s), RemainingSeconds(s);
    var a, b := Pad2(m), Pad2(sec);
    assert a == NatToString(m) && |a| >= 3 by {
      Pad2Shape(m);
      NatToStringTwoDigits(m);
    }
    assert b == [DigitChar(sec / 10), DigitChar(sec % 10)] by {
      Pad2Field(sec);
    }
    JoinSeconds(a, b);
  }

  /** Two two-character fields around a colon. */
  lemma JoinLabel(a: string, b: string)
    requires |a| == 2 && |b| == 2
    ensures a + ":" + b == [a[0], a[1], ':', b[0], b[1]]
  {
  }

  /** A minute field of any width, a colon and a two-character field. */
  lemma JoinSeconds(a: string, b: string)
    requires |b| == 2
    ensures a + ":" + b == a + [':', b[0], b[1]]
  {
  }

  lemma FormatTimeExamples()
    ensures FormatTime(NaN) == "00:00"
    ensures FormatTime(Finite(0.0)) == "00:00"
    ensures FormatTime(Finite(125.0)) == "02:05"
    ensures FormatTime(Finite(59.9)) == "00:59"
  {
    assert FormatTime(Finite(0.0)) == "00:00" by {
      assert Minutes(0.0) == 0 && RemainingSeconds(0.0) == 0;
      FormatTimeFields(0.0);
      assert DigitChar(0) == '0';
    }
    assert FormatTime(Finite(125.0)) == "02:05" by {
      assert Minutes(125.0) == 2 && RemainingSeconds(125.0) == 5;
      FormatTimeFields(125.0);
      assert DigitChar(0) == '0' && DigitChar(2) == '2' && DigitChar(5) == '5';
    }
    assert FormatTime(Finite(59.9)) == "00:59" by {
      assert Minutes(59.9) == 0 && RemainingSeconds(59.9) == 59;
      FormatTimeFields(59.9);
      assert DigitChar(0) == '0' && DigitChar(5) == '5' && DigitChar(9) == '9';
    }
  }

  /*** handleProgressClick ***/

  /** The position a click sets: the click's horizontal fraction of the bar
      times the track's duration. A bar that can be clicked has a positive
      width. */
  function SeekPosition(clientX: real, left: real, width: real, duration: real): real
    requires width > 0.0
  {
    (clientX - left) / width * duration
  }

  /** Clicking the left edge seeks to 0, the right edge to the end, and any
      point of the bar to a position inside the track. */
  lemma SeekWithinTrack(clientX: real, left: real, width: real, duration: real)
    requires width > 0.0 && duration >= 0.0
    ensures clientX == left ==> SeekPosition(clientX, left, width, duration) == 0.0
    ensures clientX == left + width ==> SeekPosition(clientX, left, width, duration) == duration
    ensures left <= clientX <= left + width ==>
      0.0 <= SeekPosition(clientX, left, width, duration) <= duration
  {
    var f := (clientX - left) / width;
    if left <= clientX <= left + width {
      assert 0.0 <= f <= 1.0;
      assert f * duration <= 1.0 * duration;
    }
  }

  /*** Rotation ***/

  /** The angle `ms` milliseconds after a rotation began at `base` degrees:
      360 degrees every 20 seconds. */
  function RotationAngle(base: real, ms: real): real {
    base + (ms / 20000.0) * 360.0
  }

  lemma RotationAngleProperties(base: real, e1: real, e2: real)
    ensures RotationAngle(base, 0.0) == base
    ensures RotationAngle(base, e1 + 20000.0) == RotationAngle(base, e1) + 360.0
    ensures e1 <= e2 ==> RotationAngle(base, e1) <= RotationAngle(base, e2)
  {
  }

  /** The manager's rotation and playback state; `rotationBase` and
      `rotationStart` are the angle and the time captured by the last
      `startRotation`. */
  datatype Player = Player(
    paused: bool,
    isRotating: bool,
    currentRotation: real,
    rotationBase: real,
    rotationStart: real)

  /** startRotation: a no-op while already rotating. */
  function AfterStartRotation(p: Player, now: real): Player {
    if p.isRotating then p
    else p.(isRotating := true, rotationBase := p.currentRotation, rotationStart := now)
  }

  /** stopRotation: a no-op while not rotating; the angle is kept. */
  function AfterStopRotation(p: Player): Player {
    if !p.isRotating then p else p.(isRotating := false)
  }

  /** One firing of the rotation interval: the angle is recomputed from the
      elapsed time, not accumulated. */
  function AfterTick(p: Player, now: real): Player
    requires p.isRotating
  {
    p.(currentRotation := RotationAngle(p.rotationBase, now - p.rotationStart))
  }

  /** playAudio when `play()` succeeds: the track plays, then startRotation. */
  function AfterPlay(p: Player, now: real): Player {
    AfterStartRotation(p.(paused := false), now)
  }

  /** pauseAudio: the track pauses, then stopRotation. */
  function AfterPause(p: Player): Player {
    AfterStopRotation(p.(paused := true))
  }

  function AfterToggle(p: Player, now: real): Player {
    if p.paused then AfterPlay(p, now) else AfterPause(p)
  }

  /** The rotation runs exactly while the track plays. */
  predicate Synced(p: Player) {
    p.isRotating == !p.paused
  }

  /** Both guards make the calls idempotent, and neither start nor stop
      touches the angle: it never jumps back to 0. */
  lemma RotationGuards(p: Player, t1: real, t2: real)
    ensures AfterStartRotation(AfterStartRotation(p, t1), t2) == AfterStartRotation(p, t1)
    ensures AfterStopRotation(AfterStopRotation(p)) == AfterStopRotation(p)
    ensures AfterStartRotation(p, t1).isRotating && !AfterStopRotation(p).isRotating
    ensures AfterStartRotation(p, t1).currentRotation == p.currentRotation
    ensures AfterStopRotation(p).currentRotation == p.currentRotation
    ensures p.isRotating ==> AfterStartRotation(p, t1) == p
    ensures !p.isRotating ==> AfterStopRotation(p) == p
  {
  }

  /** togglePlayback plays and starts rotating when paused, pauses and stops
      rotating otherwise; toggling twice restores paused, rotating and the
      angle. */
  lemma ToggleBehaviour(p: Player, t1: real, t2: real)
    requires Synced(p)
    ensures var q := AfterToggle(p, t1);
      Synced(q) && q.paused == !p.paused && q.currentRotation == p.currentRotation
    ensures var q := AfterToggle(AfterToggle(p, t1), t2);
      q.paused == p.paused && q.isRotating == p.isRotating && q.currentRotation == p.currentRotation
  {
  }

  /** togglePlayback when the `play()` promise rejects (playback not
      allowed, or a source that failed to load): `paused` stays set, yet
      playAudio still starts the rotation. */
  function AfterRejectedToggle(p: Player, now: real): Player {
    if p.paused then AfterStartRotation(p, now) else AfterPause(p)
  }

  /** A rejected `play()` leaves the artwork spinning over a paused track,
      and from there every click whose `play()` rejects again changes
      nothing: the rotation cannot be stopped by the button. */
  lemma RejectedPlayDesyncs(p: Player, t1: real, t2: real)
    requires Synced(p) && p.paused
    ensures var q := AfterRejectedToggle(p, t1);
      q.paused && q.isRotating && !Synced(q) && AfterRejectedToggle(q, t2) == q
  {
  }

  /** The element pausing itself at the end of the track: `paused` is set,
      and nothing in the manager stops the rotation. */
  function AfterMediaEnded(p: Player): Player {
    p.(paused := true)
  }

  /** After the track ends by itself the artwork keeps spinning over a
      paused track until the next click, which plays again and so stays
      rotating. */
  lemma EndedKeepsSpinning(p: Player, t: real)
    requires Synced(p) && !p.paused
    ensures var q := AfterMediaEnded(p);
      q.paused && q.isRotating && !Synced(q)
      && Synced(AfterToggle(q, t)) && AfterToggle(q, t).isRotating
  {
  }

  /** What reaches the manager: a click on the play button or a firing of
      the rotation interval (which only exists while rotating). */
  datatype AudioEvent = Click(now: real) | Tick(now: real)

  function Step(p: Player, e: AudioEvent): Player {
    match e
    case Click(t) => AfterToggle(p, t)
    case Tick(t) => if p.isRotating then AfterTick(p, t) else p
  }

  function Run(p: Player, events: seq<AudioEvent>): Player
    decreases |events|
  {
    if events == [] then p else Run(Step(p, events[0]), events[1..])
  }

  lemma {:induction false} RunKeepsSynced(p: Player, events: seq<AudioEvent>)
    requires Synced(p)
    ensures Synced(Run(p, events))
    decreases |events|
  {
    if events != [] {
      RunKeepsSynced(Step(p, events[0]), events[1..]);
    }
  }

  /** Without a click nothing restarts the rotation, so a stopped angle stays
      where it is. */
  lemma {:induction false} FrozenWhileStopped(p: Player, events: seq<AudioEvent>)
    requires !p.isRotating
    requires forall i :: 0 <= i < |events| ==> events[i].Tick?
    ensures Run(p, events) == p
    decreases |events|
  {
    if events != [] {
      FrozenWhileStopped(Step(p, events[0]), events[1..]);
    }
  }

  /** Event times that never go back and start at or after `t`. */
  predicate Chronological(t: real, events: seq<AudioEvent>)
    decreases |events|
  {
    events == [] || (t <= events[0].now && Chronological(events[0].now, events[1..]))
  }

  /** While rotating, the shown angle lies between the start angle and the
      angle the formula gives at the last time seen, `t`. */
  predicate AngleBounded(p: Player, t: real) {
    p.isRotating ==>
      p.rotationStart <= t
      && p.rotationBase <= p.currentRotation <= RotationAngle(p.rotationBase, t - p.rotationStart)
  }

  lemma StepAngle(p: Player, t: real, e: AudioEvent)
    requires AngleBounded(p, t) && t <= e.now
    ensures AngleBounded(Step(p, e), e.now)
    ensures p.currentRotation <= Step(p, e).currentRotation
  {
    RotationAngleProperties(p.rotationBase, t - p.rotationStart, e.now - p.rotationStart);
  }

  /** With a clock that does not go back, the angle is monotone over any
      sequence of clicks and interval firings. */
  lemma {:induction false} AngleNeverDecreases(p: Player, t: real, events: seq<AudioEvent>)
    requires AngleBounded(p, t) && Chronological(t, events)
    ensures p.currentRotation <= Run(p, events).currentRotation
    decreases |events|
  {
    if events != [] {
      StepAngle(p, t, events[0]);
      AngleNeverDecreases(Step(p, events[0]), events[0].now, events[1..]);
    }
  }

  /** The manager after `AudioPlayerManager.init`, with the audio element's
      own state as fields. */
  class AudioPlayerManager {
    var paused: bool
    var isRotating: bool
    var currentRotation: real
    var rotationBase: real
    var rotationStart: real
    var intervalActive: bool
    var currentTime: real
    var duration: real

    /** A rotation interval is registered exactly while rotating. */
    ghost predicate Valid()
      reads this
    {
      intervalActive == isRotating
    }

    function State(): Player
      reads this
    {
      Player(paused, isRotating, currentRotation, rotationBase, rotationStart)
    }

    constructor (paused: bool, duration: real)
      ensures Valid()
      ensures State() == Player(paused, false, 0.0, 0.0, 0.0)
      ensures this.duration == duration && currentTime == 0.0
    {
      this.paused := paused;
      isRotating := false;
      currentRotation := 0.0;
      rotationBase := 0.0;
      rotationStart := 0.0;
      intervalActive := false;
      currentTime := 0.0;
      this.duration := duration;
    }

    method StartRotation(now: real)
      requires Valid()
      modifies this
      ensures Valid() && State() == AfterStartRotation(old(State()), now)
      ensures currentTime == old(currentTime) && duration == old(duration)
    {
      if isRotating {
        return;
      }
      isRotating := true;
      rotationStart := now;
      rotationBase := currentRotation;
      intervalActive := true;
    }

    method StopRotation()
      requires Valid()
      modifies this
      ensures Valid() && State() == AfterStopRotation(old(State()))
      ensures currentTime == old(currentTime) && duration == old(duration)
    {
      if !isRotating {
        return;
      }
      isRotating := false;
      if intervalActive {
        intervalActive := false;
      }
    }

    /** One firing of the registered rotation interval. */
    method RotationTick(now: real)
      requires Valid() && intervalActive
      modifies this
      ensures Valid() && State() == AfterTick(old(State()), now)
      ensures currentTime == old(currentTime) && duration == old(duration)
    {
      var elapsed := now - rotationStart;
      currentRotation := rotationBase + (elapsed / 20000.0) * 360.0;
    }

    method PlayAudio(now: real)
      requires Valid()
      modifies this
      ensures Valid() && State() == AfterPlay(old(State()), now)
      ensures currentTime == old(currentTime) && duration == old(duration)
    {
      paused := false;
      StartRotation(now);
    }

    method PauseAudio()
      requires Valid()
      modifies this
      ensures Valid() && State() == AfterPause(old(State()))
      ensures currentTime == old(currentTime) && duration == old(duration)
    {
      paused := true;
      StopRotation();
    }

    method TogglePlayback(now: real)
      requires Valid()
      modifies this
      ensures Valid() && State() == AfterToggle(old(State()), now)
      ensures currentTime == old(currentTime) && duration == old(duration)
    {
      if paused {
        PlayAudio(now);
      } else {
        PauseAudio();
      }
    }

    method HandleProgressClick(clientX: real, left: real, width: real)
      requires Valid() && width > 0.0
      modifies this`currentTime
      ensures Valid() && State() == old(State())
      ensures currentTime == SeekPosition(clientX, left, width, duration)
    {
      var clickPosition := (clientX - left) / width;
      currentTime := clickPosition * duration;
    }
  }
}
