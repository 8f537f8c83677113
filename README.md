# Homepage controller core in Dafny

This project models the stateful and formatting core of `ccql.js`, the
controller of a personal homepage. The file sets up a loading screen, a live
clock, an audio player with spinning album art, a decorative meteor animation
and a mobile layout switch. Most of it is DOM and timer glue. The model keeps
the parts whose behaviour can be stated exactly:

- **Loading** (`loading.dfy`, `LoadingManager`): image and audio readiness
  signals, the DOM-ready signal and a forced timeout race each other. The
  `isLoaded` flag settles the race, so the completion action runs at most
  once. Each deferred timer check is a method of the class `LoadingManager`.
  The pure function `Step` describes the same transition on a `LoadState`
  value, and `Run` folds it over any sequence of events.
- **Meteors** (`meteors.dfy`, `MeteorEffectManager`): `createMeteor` is a
  counter with a ceiling of `MAX_METEORS = 8`. Each meteor's `animationend`
  handler detaches it and counts it out. The container is a sequence of
  meteor ids.
- **Audio** (`audio.dfy`, `AudioPlayerManager`): play/pause toggling, the
  artwork rotation, seeking by a click on the progress bar, and `formatTime`.
  The rotation angle is recomputed from elapsed time at 360 degrees per
  20 seconds. Angles and times are `real`.
- **Clock** (`datetime.dfy`, `DateTimeManager`): the "HH:MM" and
  "MM月DD日" strings.
- **Layout** (`layout.dfy`, `LayoutManager.adjustLayout`): `mobile-view` is
  on the body exactly when the viewport is narrower than 768 pixels.
- **Decimal** (`decimal.dfy`): the JavaScript built-ins the formatters use.
  These are `String(n)` / `n.toString()` for non-negative integers and
  `padStart` with a one-character filler. The module also has a decimal
  reader, so the formatted fields can be read back.

Timers, events and the clock become explicit inputs. A `setTimeout` or
`setInterval` callback is an event passed to the class as a method call or
to `Run` as an element of a sequence. `Date.now()` is a `now` parameter in
milliseconds. The fields of the `Date` object and `window.innerWidth` are
also parameters.

Only the check that `handleResourceLoaded` schedules (ccql.js:97-103) tests
`document.readyState`; the DOM-ready check (ccql.js:105-111) and the timeout
(ccql.js:88-95) test only `isLoaded`.

## Model

| member | source | states |
|---|---|---|
| Decimal.NatToString | ccql.js:172-173 | `String(n)` is a canonical numeral: at least one digit, digits only, no leading zero unless it is "0"; it is one character long exactly when n < 10 |
| Decimal.ParseNatToString | ccql.js:310 | reading the rendering of n back as a decimal gives n |
| Decimal.NatToStringParse | ccql.js:310 | every canonical numeral is the rendering of its own value, so rendering and reading are inverse bijections |
| Decimal.NatToStringInjective | ccql.js:310 | different numbers render as different strings |
| Decimal.PadStart | ccql.js:172 | `padStart` returns a string of length max(\|s\|, width) that ends with s, with the filler only in front of it |
| Decimal.PadStartFits | ccql.js:172 | `padStart` returns a string that is already at least `width` long unchanged |
| Decimal.PadStartOneShort | ccql.js:172 | a string one character short of `width` gains exactly one filler in front |
| Decimal.TwoDigitRendering | ccql.js:172-173 | `String(n)` for 10 <= n < 100 is its tens digit followed by its units digit |
| Decimal.ParseLeadingZero | ccql.js:172 | a leading '0' does not change the value a numeral reads as |
| Decimal.NatToStringSnoc | ccql.js:310 | `String(n)` writes the most significant digit first: for q >= 1, rendering 10q + d is rendering q followed by the digit d |
| Decimal.Pad2Shape | ccql.js:171-181 | `String(n).padStart(2,'0')` gives one leading zero for 0-9 and leaves values from 10 up unchanged (never truncates); the field is at least 2 digits and reads back as n |
| Decimal.Pad2Field | ccql.js:171-181 | for n < 100 the padded field is exactly two characters: the tens digit of n, then its units digit |
| Decimal.Pad2 | ccql.js:172-173 | `String(n).padStart(2, '0')`; Pad2Shape and Pad2Field state its shape: a leading zero below 10, unchanged from 10 up, the tens and units digit below 100, and it reads back as n |
| DateTime.FormatClock | ccql.js:171-175 | updateTimeDisplay's "HH:MM"; FormatClockFields gives its five characters for calendar values, ClockExampleMorning and ClockExampleMidnight concrete strings |
| DateTime.FormatDate | ccql.js:177-181 | updateDateDisplay's "MM月DD日" with the month index plus one; FormatDateFields gives its six characters, DateExampleNewYear and DateExampleSeptember concrete strings |
| DateTime.FormatClockFields | ccql.js:171-175 | a clock time (hours < 24, minutes < 60) is exactly the five characters: tens and units digit of the hours, ':', tens and units digit of the minutes (so a value below 10 has a leading zero) |
| DateTime.FormatDateFields | ccql.js:177-181 | a date is exactly the six characters: tens and units digit of getMonth()+1, 月, tens and units digit of the day, 日 |
| DateTime.ClockExampleMorning | ccql.js:171-175 | 9:05 shows as "09:05" |
| DateTime.ClockExampleMidnight | ccql.js:171-175 | 0:00 shows as "00:00" |
| DateTime.DateExampleNewYear | ccql.js:177-181 | month index 0, day 1 shows as "01月01日" |
| DateTime.DateExampleSeptember | ccql.js:177-181 | month index 8, day 5 shows as "09月05日" |
| Layout.IsMobileView | ccql.js:383 | the mobile layout is for widths below 768; BreakpointExamples pins the breakpoint to the desktop side |
| Layout.AdjustLayout | ccql.js:382-390 | `mobile-view` is in the class list afterwards exactly when width < 768, and no other class changes |
| Layout.AdjustLayoutLastWins | ccql.js:382-390 | after two calls only the second width matters |
| Layout.AdjustLayoutIdempotent | ccql.js:382-390 | repeating the call at the same width changes nothing |
| Layout.BreakpointExamples | ccql.js:383 | width 767 gives the mobile layout, 768 the desktop layout |
| Audio.Minutes | ccql.js:307 | `Math.floor(seconds / 60)`: the m with 60m <= s < 60(m+1) |
| Audio.Trunc | ccql.js:308 | the rounding toward zero that `%` is defined with; JsRemainderSign and RemainingSeconds state what the remainder built on it gives |
| Audio.JsRemainder | ccql.js:308 | JavaScript's `a % b`, whose quotient is rounded toward zero; JsRemainderSign and RemainingSeconds prove its sign, size and reconstruction |
| Audio.JsRemainderSign | ccql.js:308 | for `seconds % 60` on any finite number, truncated quotient times 60 plus the remainder gives the dividend back, and the remainder has the dividend's sign and is smaller in size than 60 |
| Audio.RemainingSeconds | ccql.js:308 | `Math.floor(seconds % 60)` is below 60, and minutes·60 plus it gives the whole seconds of the input |
| Audio.FormatTime | ccql.js:304-311 | formatTime: "00:00" for NaN, otherwise the padded minutes and seconds around ':'; FormatTimeFields and FormatTimeUncapped give its characters below and from 100 minutes, FormatTimeExamples concrete labels |
| Audio.FormatTimeFields | ccql.js:304-311 | below 6000 seconds the label is exactly five characters: tens and units digit of floor(s/60), ':', tens and units digit of the seconds past that minute, where minutes·60 + seconds = floor(s) |
| Audio.FormatTimeUncapped | ccql.js:304-311 | from 6000 seconds on, the minute field is not capped at 99: it is the plain decimal rendering of floor(s/60), 3 or more digits wide, followed by ':' and the two second digits |
| Audio.FormatTimeExamples | ccql.js:304-311 | NaN gives "00:00", 0 gives "00:00", 125 gives "02:05", 59.9 gives "00:59" |
| Audio.SeekPosition | ccql.js:298-302 | the click's horizontal fraction of the bar times the duration; SeekWithinTrack proves the edges and clicks on the bar land inside the track |
| Audio.SeekWithinTrack | ccql.js:298-302 | a click at the bar's left edge seeks to 0, at its right edge to the duration, and anywhere on the bar to a position within the track |
| Audio.RotationAngle | ccql.js:261-263 | start angle plus elapsed/20000·360; RotationAngleProperties proves it starts at the base angle, gains 360 degrees per 20000 ms and is monotone |
| Audio.RotationAngleProperties | ccql.js:261-263 | the angle equals the start angle when no time has elapsed, grows by 360 degrees every 20000 ms, and never decreases as elapsed time grows |
| Audio.AfterStartRotation | ccql.js:253-266 | startRotation on values: a no-op while rotating, otherwise it records the angle and the time; RotationGuards proves it idempotent and angle-preserving |
| Audio.AfterStopRotation | ccql.js:269-280 | stopRotation on values: a no-op while stopped, otherwise it stops and keeps the angle; RotationGuards proves it idempotent and angle-preserving |
| Audio.AfterTick | ccql.js:260-265 | one firing of the rotation interval recomputes the angle from the elapsed time; StepAngle and AngleNeverDecreases prove the angle never decreases with a clock that does not go back |
| Audio.AfterToggle | ccql.js:225-245 | togglePlayback on values: play when paused, pause otherwise; ToggleBehaviour and RunKeepsSynced prove it keeps rotating equal to playing |
| Audio.AfterPlay | ccql.js:233-239 | playAudio on values when `play()` succeeds: paused cleared, then startRotation; ToggleBehaviour and RunKeepsSynced prove the result rotates exactly while playing |
| Audio.AfterPause | ccql.js:241-245 | pauseAudio on values: paused set, then stopRotation; ToggleBehaviour and RunKeepsSynced prove the result is stopped and keeps its angle |
| Audio.RotationGuards | ccql.js:253-280 | startRotation and stopRotation are idempotent, they do nothing when already rotating or already stopped, and neither changes the angle |
| Audio.ToggleBehaviour | ccql.js:225-245 | from a state where rotating means playing, a toggle whose `play()` succeeds flips paused and keeps the two in step; toggling twice restores paused, rotating and the angle |
| Audio.AfterRejectedToggle | ccql.js:225-239 | togglePlayback when `play()` rejects: `paused` stays set and the rotation starts anyway |
| Audio.AfterMediaEnded | ccql.js:225-231 | the element pausing itself at the end of the track, which the next togglePlayback reads as paused; EndedKeepsSpinning proves the rotation keeps running until that click |
| Audio.RejectedPlayDesyncs | ccql.js:225-254 | after a rejected `play()` the artwork spins over a paused track, and further clicks whose `play()` rejects change nothing, so the button cannot stop the rotation |
| Audio.EndedKeepsSpinning | ccql.js:225-254 | when the element pauses itself at the end of the track, the rotation keeps running over a paused track until a click plays again |
| Audio.Step | ccql.js:253-280 | one click or one rotation-interval firing; a firing does nothing once stopRotation has cleared the interval; FrozenWhileStopped, RunKeepsSynced and AngleNeverDecreases lift it to any sequence |
| Audio.RunKeepsSynced | ccql.js:225-245 | over any sequence of clicks and interval firings in which `play()` succeeds, the artwork rotates exactly while the track plays |
| Audio.FrozenWhileStopped | ccql.js:269-280 | while stopped, interval firings without a click leave the whole state, the angle included, unchanged |
| Audio.AngleNeverDecreases | ccql.js:257-264 | over any sequence of clicks and interval firings with a clock that does not go back, the angle never decreases |
| Audio.AudioPlayerManager.constructor | ccql.js:186-194 | init starts not rotating, at angle 0, with no rotation interval |
| Audio.AudioPlayerManager.StartRotation | ccql.js:253-266 | the new state is AfterStartRotation of the old: a no-op while rotating, otherwise it records now and the current angle and registers the interval |
| Audio.AudioPlayerManager.StopRotation | ccql.js:269-280 | the new state is AfterStopRotation of the old: a no-op while stopped, otherwise it clears the interval and keeps the angle |
| Audio.AudioPlayerManager.RotationTick | ccql.js:260-265 | an interval firing sets the angle to the start angle plus elapsed/20000·360 |
| Audio.AudioPlayerManager.PlayAudio | ccql.js:233-239 | clears paused and starts the rotation |
| Audio.AudioPlayerManager.PauseAudio | ccql.js:241-245 | sets paused and stops the rotation |
| Audio.AudioPlayerManager.TogglePlayback | ccql.js:225-231 | plays when paused and pauses otherwise; the new state is AfterToggle of the old |
| Audio.AudioPlayerManager.HandleProgressClick | ccql.js:298-302 | sets currentTime to the click's fraction of the bar times the duration |
| Meteors.Initial | ccql.js:316-318 | the starting field has no meteors and meets the invariant |
| Meteors.Remove | ccql.js:334 | `meteor.remove()` on the container; RemoveCounts and RemoveKeepsOrder state what it removes and what it keeps |
| Meteors.FirstIndex | ccql.js:334 | the position of a meteor in the container: it holds the meteor and no earlier position does |
| Meteors.RemoveCounts | ccql.js:334 | detaching a meteor removes exactly one occurrence from the container (as multisets), shortening it by one, and leaves the container as it was if the meteor is not there |
| Meteors.RemoveKeepsOrder | ccql.js:334 | detaching cuts out exactly the meteor's position and keeps the other meteors in their order |
| Meteors.RemoveKeepsDistinct | ccql.js:334 | on a container without duplicates, removal leaves no copy of the meteor and no duplicates |
| Meteors.Create | ccql.js:326-331 | createMeteor on values: nothing at the ceiling, otherwise one more meteor appended and counted; CreateKeepsConsistent proves the invariant kept |
| Meteors.AnimationEnd | ccql.js:333-336 | the `animationend` handler on values: detach the meteor and count it out; AnimationEndKeepsConsistent proves the invariant kept |
| Meteors.CreateKeepsConsistent | ccql.js:326-331 | createMeteor keeps the invariant; at the ceiling nothing changes, otherwise the counter goes up by exactly one and one new meteor is appended |
| Meteors.AnimationEndKeepsConsistent | ccql.js:333-336 | animationend keeps the invariant, decrements the counter and removes exactly that meteor |
| Meteors.Step | ccql.js:322-337 | one firing of the creation interval or one `animationend` of an attached meteor; RunKeepsConsistent proves any sequence of them keeps the counter bounded and equal to the number of attached meteors |
| Meteors.RunKeepsConsistent | ccql.js:326-337 | across any sequence of creations and animation ends of attached meteors, 0 <= activeMeteors <= 8 and activeMeteors equals the number of attached meteors |
| Meteors.MeteorEffectManager.constructor | ccql.js:316-318 | init starts with the counter at 0 and an empty container |
| Meteors.MeteorEffectManager.CreateMeteor | ccql.js:326-331 | at the ceiling nothing changes; otherwise activeMeteors goes up by one and one meteor is appended to the container |
| Meteors.MeteorEffectManager.OnAnimationEnd | ccql.js:333-336 | the meteor is removed from the container and activeMeteors goes down by one |
| Loading.Complete | ccql.js:113-120 | completeLoadingProcess on values; CompleteIsGuarded proves it a no-op once loaded and one completion otherwise |
| Loading.Step | ccql.js:81-111 | one signal or deferred check on values; StepCompletes gives exactly when it completes loading, RunKeepsCounted and CompletesIff lift that to any sequence |
| Loading.CompleteIsGuarded | ccql.js:113-120 | completeLoadingProcess leaves the state unchanged once loaded; otherwise it sets the flag and runs the completion action exactly once |
| Loading.StepCompletes | ccql.js:97-111 | a deferred check runs the completion action exactly when loading is not yet complete and, for a resource check only, the document is complete |
| Loading.RunKeepsCounted | ccql.js:113-120 | over any interleaving of resource, DOM-ready and timeout events, the completion action runs at most once, and it has run exactly when loading is complete |
| Loading.LoadedIsFinal | ccql.js:113-120 | once loaded, no later event changes the flag or the count |
| Loading.TimeoutCompletes | ccql.js:88-95 | if the timeout fires, loading ends complete with the completion action run exactly once |
| Loading.CompletesIff | ccql.js:88-111 | loading ends complete exactly when it was already complete or some check fired while its condition held |
| Loading.LoadingManager.constructor | ccql.js:34-47 | a new manager starts with the flag clear and no completion, whatever the ready state |
| Loading.LoadingManager.DocumentBecameComplete | ccql.js:81-85 | the document becoming complete only records that fact |
| Loading.LoadingManager.ResourceCheckFired | ccql.js:97-103 | the resource check completes loading only when the document is complete and loading is not; the count grows by one exactly then |
| Loading.LoadingManager.DomReadyCheckFired | ccql.js:105-111 | the DOM-ready check completes loading if it is not complete yet |
| Loading.LoadingManager.TimeoutFired | ccql.js:88-95 | after the timeout, loading is complete and the completion action has run exactly once |
| Loading.LoadingManager.CompleteLoadingProcess | ccql.js:113-120 | once loaded nothing changes; otherwise it sets the flag and runs the completion action |
| Loading.LoadingManager.AnimateLoadingCompletion | ccql.js:122-131 | records one run of the completion action |

## Left out

- DOM access is not modelled: element lookups, CSS text, icon paths, song and artist labels, and the `loading`/`hidden` classes on the loading screen and body. Their side effects have no property to state here (ccql.js:11-31, 49-52, 124-125, 133-138, 217-223, 247-250, 283-285).
- Timer scheduling (`setTimeout`, `setInterval`, `clearInterval`) and its delays of 500, 1000 and 5000 ms are replaced by explicit events. The intervals at ccql.js:162 and 323 run forever and have no end state; the rotation interval of ccql.js:260 is tracked by `intervalActive`.
- The source registers listeners in `preloadCriticalResources` and `setupLoadingEvents` (ccql.js:60-86). The model does not track that registration; it admits any order of the checks those listeners lead to.
- The hand-off after completion is not modelled: the reveal, `initializeApplication` and the removal of the overlay (ccql.js:122-155). `AnimateLoadingCompletion` only counts that the action ran.
- `Date.now()`, `new Date()` and `Math.random()` are left out. Times and clock fields are parameters, and the randomized meteor geometry of `createMeteorElement` (ccql.js:339-373) is not modelled.
- Audio.AudioPlayerManager.PlayAudio: the method takes `play()` as succeeding and clearing `paused`. When the `play()` promise rejects (playback not allowed, or a source that failed to load, the case ccql.js:76 expects), `paused` stays set while `playAudio` still starts the rotation (ccql.js:233-239); `AfterRejectedToggle` and `RejectedPlayDesyncs` state that path on values, and the class has no method for it.
- Audio.RunKeepsSynced: the property holds only while `play()` succeeds and only the button pauses the element. In the source the rotation keeps running after a rejected `play()` (no click stops it while `play()` keeps rejecting, `RejectedPlayDesyncs`) and after the element pauses itself at the end of a track that does not loop, until the next click (`EndedKeepsSpinning`). Whether the element loops is set in the HTML page, which is not part of this model.
- Media events are not modelled as events of the run: `waiting`/`canplay` on the album art and `loadedmetadata` (ccql.js:196-214), and the element's own end of playback.
- `updateProgress` is left out. Its percentage is a floating-point division over browser state (ccql.js:287-296), and its label uses `formatTime`, which is modelled.
- Audio.FormatTime: Infinity and negative inputs are outside the model's domain. JavaScript would show them as "Infinity:NaN" or as negative fields.
- Audio.FormatTime: minute counts above 2^53 are not modelled exactly. JavaScript renders the nearest double, so 2^60 shows as "1152921504606847000", and from 10^21 on it writes exponent notation; the model renders the exact integer. This follows from the exact `real` arithmetic of Audio.Minutes.
- Audio.Minutes: division and `Math.floor` are exact on `real`. Floating-point rounding of `seconds / 60` is not modelled.
- Audio.RotationAngle: the angle is an exact `real`, without double-precision rounding.
- Audio.SeekPosition: the model requires a bar of positive width and a finite duration. A click before the metadata has loaded (NaN duration) is not modelled, nor a streamed source with an infinite duration, where the product is infinite and setting `currentTime` throws a TypeError.
- Audio.AudioPlayerManager.HandleProgressClick: same limits as Audio.SeekPosition.
- Layout.AdjustLayout: `innerWidth` is an integer number of CSS pixels.
- The top-level `adjustLayout` function (ccql.js:399-432) is left out. It is never registered; `LayoutManager.adjustLayout` is the one wired to `resize`.
- The unused `AppState.activeMeteors` and `AppState.isPlaying` fields (ccql.js:37-38) are left out.
- Console logging is left out.
