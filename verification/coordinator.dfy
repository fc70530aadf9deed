/** The strategies and the PiP-mode observer with their SDK gates applied,
    each first looking up the activity of its context as the screen does.
    The eligibility flag and rectangle are the ones each handler is given;
    `LegacySession` says which ones the screen actually hands the legacy
    handler. */
module Coordinator {
  import opened Wrappers
  import opened Platform
  import opened PipParams
  import Gates
  import ContextChain
  import RemoteActions

  /** The `enterPictureInPictureMode` calls a user-leave hint produces at
      `sdk`: only the legacy strategy listens for it, and its effect first
      looks up the activity, failing when there is none. */
  function UserLeaveHint(sdk: int, context: ContextChain.Context, eligible: bool, player: PlayerSnapshot, sourceRect: Rect)
    : (r: Result<seq<Params>, ContextChain.FindError>)
    ensures !Gates.LegacyStrategyActive(sdk) ==> r == Success([])
    ensures Gates.LegacyStrategyActive(sdk) ==> (r.Failure? <==> ContextChain.FindActivity(context).Failure?)
    ensures r.Success? ==> |r.value| <= 1
    ensures r.Success? ==> (|r.value| == 1 <==> Gates.LegacyStrategyActive(sdk) && ShouldOfferPip(eligible, player))
    ensures Gates.LegacyStrategyActive(sdk) && r.Success? ==> r.value == OnUserLeave(eligible, player, sourceRect)
  {
    if !Gates.LegacyStrategyActive(sdk) then Success([])
    else match ContextChain.FindActivity(context)
      case Failure(e) => Failure(e)
      case Success(_) => Success(OnUserLeave(eligible, player, sourceRect))
  }

  /** The `setPictureInPictureParams` submissions one geometry callback
      produces at `sdk`: from O on the callback looks up the activity and
      submits the declarative parameters once; below O there is no callback. */
  function GeometryChanged(sdk: int, context: ContextChain.Context, eligible: bool, player: PlayerSnapshot, bounds: Rect)
    : (r: Result<seq<Params>, ContextChain.FindError>)
    ensures !Gates.DeclarativeStrategyActive(sdk) ==> r == Success([])
    ensures Gates.DeclarativeStrategyActive(sdk) ==> (r.Failure? <==> ContextChain.FindActivity(context).Failure?)
    ensures Gates.DeclarativeStrategyActive(sdk) && r.Success? ==> r.value == [OnGloballyPositioned(sdk, eligible, player, bounds)]
    ensures r.Success? ==> forall p :: p in r.value ==> p.actions == Some(RemoteActions.ListOfRemoteActions(player.isPlaying))
  {
    if !Gates.DeclarativeStrategyActive(sdk) then Success([])
    else match ContextChain.FindActivity(context)
      case Failure(e) => Failure(e)
      case Success(_) => Success([OnGloballyPositioned(sdk, eligible, player, bounds)])
  }

  /** `rememberIsInPipMode()` with its lookup: false below O without any
      lookup; from O on it fails when there is no activity and otherwise
      observes the mode reported at subscription and then each change. */
  function ObservePipMode(sdk: int, context: ContextChain.Context, initial: bool, changes: seq<bool>)
    : (r: Result<bool, ContextChain.FindError>)
    ensures sdk < VERSION_O ==> r == Success(false)
    ensures sdk >= VERSION_O ==> (r.Failure? <==> ContextChain.FindActivity(context).Failure?)
    ensures sdk >= VERSION_O && r.Success? ==>
              r.value == if |changes| == 0 then initial else changes[|changes| - 1]
  {
    if sdk < VERSION_O then Success(false)
    else match ContextChain.FindActivity(context)
      case Failure(e) => Failure(e)
      case Success(_) => Success(Gates.IsInPipMode(sdk, initial, changes))
  }

  /** Given the same flag and rectangle to both handlers and a context with
      an activity: on [O, S) both strategies run, a leave enters once and a
      geometry callback submits once, with the same parameters; from S on
      only the submission, with auto-enter; below O nothing. */
  lemma BothStrategiesRunBeforeS(sdk: int, context: ContextChain.Context, eligible: bool, player: PlayerSnapshot, rect: Rect)
    requires ShouldOfferPip(eligible, player)
    requires ContextChain.FindActivity(context).Success?
    ensures VERSION_O <= sdk < VERSION_S ==>
              && UserLeaveHint(sdk, context, eligible, player, rect).Success?
              && GeometryChanged(sdk, context, eligible, player, rect).Success?
              && |UserLeaveHint(sdk, context, eligible, player, rect).value| == 1
              && UserLeaveHint(sdk, context, eligible, player, rect).value
                 == GeometryChanged(sdk, context, eligible, player, rect).value
    ensures sdk >= VERSION_S ==>
              && UserLeaveHint(sdk, context, eligible, player, rect) == Success([])
              && GeometryChanged(sdk, context, eligible, player, rect).Success?
              && GeometryChanged(sdk, context, eligible, player, rect).value[0].autoEnterEnabled == Some(true)
    ensures sdk < VERSION_O ==>
              && UserLeaveHint(sdk, context, eligible, player, rect) == Success([])
              && GeometryChanged(sdk, context, eligible, player, rect) == Success([])
  {
    DeclarativeMatchesLegacy(sdk, eligible, player, rect);
  }

  /** Without an activity on the context chain, every lookup the screen
      makes from O on fails, so on [O, S) neither strategy submits anything. */
  lemma NoActivityFailsFromO(sdk: int, context: ContextChain.Context, eligible: bool, player: PlayerSnapshot, rect: Rect, initial: bool, changes: seq<bool>)
    requires ContextChain.FindActivity(context).Failure?
    ensures sdk >= VERSION_O ==> GeometryChanged(sdk, context, eligible, player, rect).Failure?
    ensures sdk >= VERSION_O ==> ObservePipMode(sdk, context, initial, changes).Failure?
    ensures VERSION_O <= sdk < VERSION_S ==> UserLeaveHint(sdk, context, eligible, player, rect).Failure?
  {
  }
}
