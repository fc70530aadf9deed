/** The screen's gates and flags: which strategy is composed at which SDK
    level, the PiP-mode observer, the eligibility flag, when the receiver
    is live and whether the player controller is shown. */
module Gates {
  import opened Platform

  /** `PipListenerPreAPI12` installs its user-leave handler on [O, S). */
  predicate LegacyStrategyActive(sdk: int)
  {
    VERSION_O <= sdk < VERSION_S
  }

  /** `PiPBuilderAfterApi12` installs its geometry callback from O on. */
  predicate DeclarativeStrategyActive(sdk: int)
  {
    sdk >= VERSION_O
  }

  /** The declarative builder calls `setAutoEnterEnabled` from S on. */
  predicate AutoEnterConfigured(sdk: int)
  {
    sdk >= VERSION_S
  }

  /** Both strategies run exactly on [O, S); below O neither does, and from
      S on only the declarative one with auto-enter. */
  lemma StrategiesOverlapBeforeS(sdk: int)
    ensures LegacyStrategyActive(sdk) && DeclarativeStrategyActive(sdk) <==> VERSION_O <= sdk < VERSION_S
    ensures LegacyStrategyActive(sdk) ==> DeclarativeStrategyActive(sdk) && !AutoEnterConfigured(sdk)
    ensures sdk < VERSION_O ==> !LegacyStrategyActive(sdk) && !DeclarativeStrategyActive(sdk)
    ensures AutoEnterConfigured(sdk) ==> DeclarativeStrategyActive(sdk) && !LegacyStrategyActive(sdk)
  {
  }

  /** The flag `rememberIsInPipMode` holds after the OS-reported state
      `initial` at subscription and the mode changes `changes`, in order. */
  function ObservedPipMode(initial: bool, changes: seq<bool>): bool
    decreases |changes|
  {
    if |changes| == 0 then initial else ObservedPipMode(changes[0], changes[1..])
  }

  /** `rememberIsInPipMode()`: false below O; from O on the most recent
      mode the OS reported, starting from the value it reported at
      subscription. */
  function IsInPipMode(sdk: int, initial: bool, changes: seq<bool>): (inPip: bool)
    ensures sdk < VERSION_O ==> !inPip
    ensures sdk >= VERSION_O && |changes| == 0 ==> inPip == initial
    ensures sdk >= VERSION_O && |changes| > 0 ==> inPip == changes[|changes| - 1]
  {
    if sdk < VERSION_O then false
    else
      LatestModeWins(initial, changes);
      ObservedPipMode(initial, changes)
  }

  /** Each mode change overwrites the previous one: the observed flag is the
      last change delivered, or the initial value if none was. */
  lemma {:induction false} LatestModeWins(initial: bool, changes: seq<bool>)
    ensures ObservedPipMode(initial, changes) == if |changes| == 0 then initial else changes[|changes| - 1]
    decreases |changes|
  {
    if |changes| > 0 {
      LatestModeWins(changes[0], changes[1..]);
    }
  }

  /** The events that write the global `shouldEnterPipMode` flag. */
  datatype EligibilityEvent = IsPlayingChanged(isPlaying: bool) | Disposed

  /** One write: `onIsPlayingChanged` stores the playing state, `onDispose`
      resets the flag to false. */
  function EligibilityStep(flag: bool, e: EligibilityEvent): bool
  {
    match e
    case IsPlayingChanged(b) => b
    case Disposed => false
  }

  /** The flag after `events`, delivered in order, starting from `flag`. */
  function EligibilityAfter(flag: bool, events: seq<EligibilityEvent>): bool
    decreases |events|
  {
    if |events| == 0 then flag else EligibilityAfter(EligibilityStep(flag, events[0]), events[1..])
  }

  /** The eligibility flag is the value of the most recent event: the last
      `onIsPlayingChanged` value unless a dispose came after it. */
  lemma {:induction false} EligibilityIsLatestWrite(flag: bool, events: seq<EligibilityEvent>)
    ensures |events| == 0 ==> EligibilityAfter(flag, events) == flag
    ensures |events| > 0 ==> EligibilityAfter(flag, events) == EligibilityStep(flag, events[|events| - 1])
    decreases |events|
  {
    if |events| > 0 {
      EligibilityIsLatestWrite(EligibilityStep(flag, events[0]), events[1..]);
    }
  }

  /** Whatever happened before, after a dispose the flag is false until the
      next `onIsPlayingChanged`. */
  lemma {:induction false} DisposeResetsEligibility(flag: bool, before: seq<EligibilityEvent>, after: seq<EligibilityEvent>)
    requires forall i :: 0 <= i < |after| ==> after[i].Disposed?
    ensures !EligibilityAfter(flag, before + [Disposed] + after)
  {
    var events := before + [Disposed] + after;
    EligibilityIsLatestWrite(flag, events);
    assert events[|events| - 1].Disposed? by {
      if |after| > 0 {
        assert events[|events| - 1] == after[|after| - 1];
      }
    }
  }

  /** `PlayerBroadcastReceiver` is composed from O on and registers its
      receiver only while in PiP mode. */
  predicate ReceiverLive(sdk: int, inPip: bool)
  {
    sdk >= VERSION_O && inPip
  }

  /** `playerView.useController = isInPipMode.not()`. */
  predicate UseController(inPip: bool)
  {
    !inPip
  }

  /** `Media3AndroidView`, the only place `useController` is set, is composed
      only by the two strategies, so only from O on. */
  predicate PlayerViewComposed(sdk: int)
  {
    LegacyStrategyActive(sdk) || DeclarativeStrategyActive(sdk)
  }

  /** The controller is on screen when a player view is composed and it
      uses its controller. */
  predicate ControllerShown(sdk: int, inPip: bool)
  {
    PlayerViewComposed(sdk) && UseController(inPip)
  }

  /** The receiver is live only from O on and only while the observed
      mode is PiP; below O it never is. */
  lemma ReceiverLiveOnlyInPip(sdk: int, initial: bool, changes: seq<bool>)
    ensures ReceiverLive(sdk, IsInPipMode(sdk, initial, changes))
            <==> sdk >= VERSION_O && (if |changes| == 0 then initial else changes[|changes| - 1])
    ensures sdk < VERSION_O ==> !ReceiverLive(sdk, IsInPipMode(sdk, initial, changes))
  {
  }

  /** The controller is shown exactly from O on while the observed mode is
      not PiP: never while the receiver is live, and never below O, where no
      player view is composed. */
  lemma ControllerHiddenInPip(sdk: int, initial: bool, changes: seq<bool>)
    ensures ControllerShown(sdk, IsInPipMode(sdk, initial, changes))
            <==> sdk >= VERSION_O && !(if |changes| == 0 then initial else changes[|changes| - 1])
    ensures !(ReceiverLive(sdk, IsInPipMode(sdk, initial, changes)) && ControllerShown(sdk, IsInPipMode(sdk, initial, changes)))
    ensures sdk < VERSION_O ==> !ControllerShown(sdk, IsInPipMode(sdk, initial, changes))
  {
  }
}
