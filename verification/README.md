# PiP decision layer of PIP-mode-with-Compose, in Dafny

This project models the decision layer of a Jetpack Compose video screen that
supports picture-in-picture (PiP). The layer is a set of pure functions:

- **RemoteActions**: the catalog of the three remote actions (seek back, play or
  pause, seek forward). Each action is a descriptor tuple (icon, label, request
  code, control type).
- **Router**: the broadcast receiver's `onReceive`. It turns a control signal into
  one command on the player (`playWhenReady`, or `seekTo` with 64-bit `Long`
  wrap-around), or into no command.
- **PipParams**: the legacy user-leave handler (`enterPictureInPictureMode`) and
  the declarative geometry callback (`setPictureInPictureParams`). Both are
  modelled as the `PictureInPictureParams` they build.
- **Gates**: the SDK-level gates for each strategy, for the receiver and for
  auto-enter. Also the PiP-mode observer, the global `shouldEnterPipMode`
  eligibility flag, and the controller visibility.
- **Coordinator**: the strategies and the PiP-mode observer with their SDK
  gates applied, each first looking up the activity of its context, which may
  fail. The eligibility flag and source rectangle are the ones each handler is
  given. LegacySession shows which ones the screen actually hands the legacy
  handler.
- **LegacySession**: the legacy handler over the lifetime of one mounted screen
  (see Findings).
- **ContextChain**: `Context.findActivity`, over a context datatype
  `Plain | Wrapper(isActivity, base)`. It is given both as a recursive search and
  as the source's loop.

The following are inputs to the functions:
- the SDK level;
- the player's `isPlaying`, `videoSize` and `currentPosition`;
- the OS-reported PiP mode;
- the window bounds.

Three facts about the code shape the model:
- Control code 4 is seek-forward and 5 is seek-back (`VideoScreen.kt:46-47`).
- Seek-back is not clamped at zero.
- Both PiP strategies run on SDK levels [O, S).

## Model

| member | source | states |
|---|---|---|
| Platform.WrapLong | app/src/main/java/com/example/pipmodecompose/VideoScreen.kt:228-229 | `Long` arithmetic of the seek targets: exact inside the `Long` range, wrapped by 2^64 just outside it |
| Signals.GetIntExtra | app/src/main/java/com/example/pipmodecompose/VideoScreen.kt:225 | a value other than the default 0 is the `Int` stored under the key; a missing or non-`Int` extra reads as the default |
| Signals.ControlIntent | app/src/main/java/com/example/pipmodecompose/VideoScreen.kt:150-151 | the broadcast of a remote action has action `ActionStopwatchControl` and reads back its control type under `control_type` |
| RemoteActions.ListOfRemoteActions | app/src/main/java/com/example/pipmodecompose/VideoScreen.kt:246-268 | exactly three descriptors: (10, 5) seek back, then play-or-pause, then (9, 4) seek forward; the three request codes are pairwise distinct |
| RemoteActions.SeekActionsIndependentOfPlaying | app/src/main/java/com/example/pipmodecompose/VideoScreen.kt:247-266 | the first and last descriptors are the same whatever `isPlaying` is |
| RemoteActions.RequestCodeIdentifiesAction | app/src/main/java/com/example/pipmodecompose/VideoScreen.kt:137-154 | across any two recomputations of the catalog, equal request codes mean equal descriptors |
| Router.OnReceive | app/src/main/java/com/example/pipmodecompose/VideoScreen.kt:221-231 | no command iff the signal is out of scope or its code is not in {1,2,4,5}; codes 1 and 2 set `playWhenReady` (true for 1, false for 2); a seek from code 5 is undone by one forward step and one from code 4 by one backward step |
| Router.SeekBackTarget | app/src/main/java/com/example/pipmodecompose/VideoScreen.kt:228 | seeking back issues a seek whose target, moved forward by 10000 ms, is the current position |
| Router.SeekForwardTarget | app/src/main/java/com/example/pipmodecompose/VideoScreen.kt:229 | seeking forward issues a seek whose target, moved back by 10000 ms, is the current position |
| Router.Receive | app/src/main/java/com/example/pipmodecompose/VideoScreen.kt:225-230 | one signal changes at most one of `playWhenReady` and the position |
| Router.UnrecognizedSignalsAreIgnored | app/src/main/java/com/example/pipmodecompose/VideoScreen.kt:222-230 | a null intent, a foreign action, a missing extra or an unknown code leaves the player unchanged |
| Router.PlayPauseIdempotent | app/src/main/java/com/example/pipmodecompose/VideoScreen.kt:226-227 | play sets `playWhenReady` true and pause sets it false; neither seeks, and applying either twice is the same as once |
| Router.SeeksKeepPlayWhenReady | app/src/main/java/com/example/pipmodecompose/VideoScreen.kt:228-229 | seeks keep `playWhenReady`; away from the `Long` bounds, back lands at position − 10000 and forward at position + 10000 |
| Router.SeekBackNotClamped | app/src/main/java/com/example/pipmodecompose/VideoScreen.kt:228 | seeking back from 5000 ms issues a seek to −5000 ms: the target is not clamped at zero |
| Router.SeekBackThenForward | app/src/main/java/com/example/pipmodecompose/VideoScreen.kt:228-229 | the forward seek target taken from the back seek target is the starting position, for every `Long` position |
| Router.CatalogActionsAreRouted | app/src/main/java/com/example/pipmodecompose/VideoScreen.kt:137-154 | every catalog action's broadcast is recognized by the receiver; the middle one sets `playWhenReady` to `!isPlaying`; the outer ones seek back and forward |
| PipParams.OnUserLeave | app/src/main/java/com/example/pipmodecompose/VideoScreen.kt:115-125 | one enter-PiP call iff eligible and the size is not UNKNOWN, otherwise none; the call carries the given rect, width:height, the catalog for `isPlaying`, and no auto-enter |
| PipParams.OnGloballyPositioned | app/src/main/java/com/example/pipmodecompose/VideoScreen.kt:165-185 | actions always set; hint (the callback's bounds) and aspect ratio set iff eligible and size known; auto-enter set iff SDK ≥ S, and then equal to eligibility |
| PipParams.DeclarativeMatchesLegacy | app/src/main/java/com/example/pipmodecompose/VideoScreen.kt:115-185 | the declarative params carry a hint iff the legacy handler would enter; then the two agree on everything except auto-enter |
| PipParams.EligibilityFlipAddsHint | app/src/main/java/com/example/pipmodecompose/VideoScreen.kt:167-182 | with a known size, callbacks while ineligible carry the same actions and no hint; once eligible the hint is the new bounds and, from S on, auto-enter is true |
| Gates.StrategiesOverlapBeforeS | app/src/main/java/com/example/pipmodecompose/VideoScreen.kt:111-180 | both strategies are active exactly on [O, S); neither is below O; from S on only the declarative one, with auto-enter |
| Gates.IsInPipMode | app/src/main/java/com/example/pipmodecompose/VideoScreen.kt:197-211 | false below O; from O on the OS value read at subscription until a change arrives, then the last change |
| Gates.LatestModeWins | app/src/main/java/com/example/pipmodecompose/VideoScreen.kt:200-203 | folding mode changes over the initial value yields the last change, or the initial value if there was none |
| Gates.EligibilityIsLatestWrite | app/src/main/java/com/example/pipmodecompose/VideoScreen.kt:73-84 | after any sequence of events, the flag is the value written by the most recent one, or the initial value if there was none |
| Gates.DisposeResetsEligibility | app/src/main/java/com/example/pipmodecompose/VideoScreen.kt:74-78 | after a dispose followed only by disposes, the flag is false |
| Gates.ReceiverLiveOnlyInPip | app/src/main/java/com/example/pipmodecompose/VideoScreen.kt:213-217 | the receiver is live iff SDK ≥ O and the observed mode is PiP |
| Gates.ControllerHiddenInPip | app/src/main/java/com/example/pipmodecompose/VideoScreen.kt:270-288 | the controller is shown iff SDK ≥ O (a player view is composed only there, lines 132 and 188) and the observed mode is not PiP; so never while the receiver is live |
| Coordinator.UserLeaveHint | app/src/main/java/com/example/pipmodecompose/VideoScreen.kt:111-127 | given the flag and rect the handler sees: outside [O, S) no call; on [O, S) failure iff the context has no activity, otherwise exactly the legacy handler's calls (one iff eligible and sized) |
| Coordinator.GeometryChanged | app/src/main/java/com/example/pipmodecompose/VideoScreen.kt:162-186 | below O no submission; from O on failure iff the context has no activity, otherwise exactly one submission of the declarative builder's params, with the catalog for `isPlaying` |
| Coordinator.BothStrategiesRunBeforeS | app/src/main/java/com/example/pipmodecompose/VideoScreen.kt:111-185 | given the same flag and rect to both handlers and a context with an activity: on [O, S) a leave enters once and a geometry callback submits once, with the same params; from S on only the submission, with auto-enter true; below O nothing |
| Coordinator.ObservePipMode | app/src/main/java/com/example/pipmodecompose/VideoScreen.kt:197-211 | false below O without a lookup; from O on failure iff the context has no activity, otherwise the subscription value until a change arrives, then the last change |
| Coordinator.NoActivityFailsFromO | app/src/main/java/com/example/pipmodecompose/VideoScreen.kt:114-199 | with no activity on the context chain, from O on the geometry callback and the PiP-mode observer fail, and on [O, S) so does the legacy effect |
| LegacySession.LeaveUsesLatestState | app/src/main/java/com/example/pipmodecompose/VideoScreen.kt:113-126 | corrected handler: a leave adds one call iff the latest playing change (or the flag at mount) is true and the size is known, hinting the latest bounds |
| LegacySession.AsWrittenHandlerIsFrozen | app/src/main/java/com/example/pipmodecompose/VideoScreen.kt:113-126 | as written, the handler's captured values never change; every call hints the captured rect; a handler that captured `false` never enters |
| LegacySession.StaleEligibilityCounterexample | app/src/main/java/com/example/pipmodecompose/VideoScreen.kt:113-116 | mounted idle, then playing, then a leave at 1920x1080: no call as written, one call corrected |
| LegacySession.StaleRectCounterexample | app/src/main/java/com/example/pipmodecompose/VideoScreen.kt:85-89 | after bounds (0,0,1080,608) are reported, the call hints `Rect()` as written and the bounds when corrected |
| ContextChain.Chain | app/src/main/java/com/example/pipmodecompose/Utils.kt:8-12 | the chain starts at the receiver, links each wrapper to its `baseContext`, and ends at the first non-wrapper |
| ContextChain.FirstActivityIndex | app/src/main/java/com/example/pipmodecompose/Utils.kt:9-10 | the reference search returns the index of the first activity, or none when there is no activity |
| ContextChain.FindActivity | app/src/main/java/com/example/pipmodecompose/Utils.kt:7-13 | a returned context is an activity; failure is IllegalState; a non-wrapper receiver fails at once |
| ContextChain.FindActivityIsFirstOnChain | app/src/main/java/com/example/pipmodecompose/Utils.kt:8-13 | the result is the first activity on the `baseContext` chain, counting the receiver, and failure happens exactly when the chain has none |
| ContextChain.FindActivityLoop | app/src/main/java/com/example/pipmodecompose/Utils.kt:7-13 | the `while` loop returns what the search does, only visits nodes on the chain, and terminates because the chain depth decreases |

## Findings

| source | as written | input that shows it | evidently intended | confidence | as-written member | corrected member |
|---|---|---|---|---|---|---|
| app/src/main/java/com/example/pipmodecompose/VideoScreen.kt:113-116 | `DisposableEffect(context)` builds `onUserLeaveBehavior` once and keys it on `context`, so the closure reads the `shouldEnterPipMode` value from when the effect started | mount while not yet playing, then `onIsPlayingChanged(true)`, then a user-leave hint with a 1920x1080 video | enter PiP when the player is playing at leave time | medium, not executed | LegacySession.StaleEligibilityCounterexample | LegacySession.LeaveUsesLatestState |
| app/src/main/java/com/example/pipmodecompose/VideoScreen.kt:85-89 | the `onGloballyPositioned` modifier is built but never attached, so `sourceRect` keeps `Rect()`; the closure also holds the rect from mount | a layout at (0,0,1080,608), then a leave while eligible | hint the player's latest bounds | high, not executed | LegacySession.StaleRectCounterexample | LegacySession.LeaveUsesLatestState |

## Left out

- ExoPlayer construction, media loading, `prepare`, `release` and position persistence (`VideoScreen.kt:64-79`, except the flag reset at line 77). They belong to the player library, which is not part of this model.
- Compose recomposition, `DisposableEffect` registration and removal of listeners and receivers, and `AndroidView`/`PlayerView`. These are UI framework lifecycle. One exception: LegacySession keeps the closure capture, because it decides what the legacy handler reads. The listener added at `VideoScreen.kt:80` on every recomposition is a framework artefact and is not modelled.
- Both composables render a `Media3AndroidView`, so two player views exist on [O, S). This is view plumbing and is not modelled.
- Below O no player view is composed at all, so there is no controller. Gates.ControllerShown states that; the model does not go further into the view tree.
- `PendingIntent` flags, `Icon` and string resources: descriptors stand in for them. A label is used both as title and as content description.
- PipParams.OnUserLeave: keeps the (width, height) pair passed to `Rational`. The reduction to lowest terms that `Rational` applies is platform code and is not modelled.
- PipParams.OnGloballyPositioned: keeps the unreduced (width, height) pair too, for the same reason.
- ContextChain.FindActivity: a wrapper's `baseContext` is never null and the chain is finite and acyclic, because the datatype is inductive. A null base or a cyclic chain, on which the source's loop would not end, is not modelled.
- The legacy strategy looks up the activity once, when its effect starts (`VideoScreen.kt:114`). Coordinator.UserLeaveHint folds that lookup into each leave hint, since only its failure matters.
- `boundsInWindow().toAndroidRectF().toRect()` float-to-int geometry: the rect is an input.
- `VideoSize` is modelled as (width, height), with `UNKNOWN` as 0x0. Media3's rotation and pixel-ratio fields are not part of this model.
- Router.Receive: a seek sets the position to the requested target. Clamping the target into the media's range is done by the player library, which is not part of this model.
- The OS's validation of submitted parameters (for example, rejecting extreme aspect ratios) and the moment the OS auto-enters PiP are platform behaviour.
- The exported receiver's security semantics and OS broadcast delivery are platform I/O. `onReceive` gets its intent as an input.
- `MainActivity.kt`: activity bootstrapping with a fixed URL and no decision logic.
