/** The two ways the screen hands picture-in-picture parameters to the OS:
    the legacy one-shot "enter now" on user leave, and the declarative
    parameters re-submitted on every geometry callback. */
module PipParams {
  import opened Wrappers
  import opened Platform
  import RemoteActions

  /** `PictureInPictureParams`: every field is unset until its setter runs. */
  datatype Params = Params(
    actions: Option<seq<RemoteActions.Descriptor>>,
    sourceRectHint: Option<Rect>,
    aspectRatio: Option<Ratio>,
    autoEnterEnabled: Option<bool>)

  /** `PictureInPictureParams.Builder()` before any setter. */
  const NEW_BUILDER: Params := Params(None, None, None, None)

  /** The aspect ratio `Rational(videoSize.width, videoSize.height)`. */
  function AspectRatioOf(size: VideoSize): Ratio
  {
    Ratio(size.width, size.height)
  }

  /** Whether a strategy may offer PiP geometry: the player is eligible and
      its video size is known. */
  predicate ShouldOfferPip(eligible: bool, player: PlayerSnapshot)
  {
    eligible && SizeKnown(player.videoSize)
  }

  /** `onUserLeaveBehavior`: the `enterPictureInPictureMode` calls one
      user-leave hint produces, given the eligibility and source rectangle
      the handler sees. */
  function OnUserLeave(eligible: bool, player: PlayerSnapshot, sourceRect: Rect): (calls: seq<Params>)
    ensures |calls| <= 1
    ensures |calls| == 1 <==> eligible && player.videoSize != UNKNOWN_VIDEO_SIZE
    ensures forall p :: p in calls ==>
              && p.sourceRectHint == Some(sourceRect)
              && p.aspectRatio == Some(Ratio(player.videoSize.width, player.videoSize.height))
              && p.actions == Some(RemoteActions.ListOfRemoteActions(player.isPlaying))
              && p.autoEnterEnabled.None?
  {
    if ShouldOfferPip(eligible, player) then
      var params := NEW_BUILDER.(sourceRectHint := Some(sourceRect))
                               .(aspectRatio := Some(AspectRatioOf(player.videoSize)))
                               .(actions := Some(RemoteActions.ListOfRemoteActions(player.isPlaying)));
      [params]
    else []
  }

  /** The `onGloballyPositioned` callback of the declarative strategy: the
      parameters passed to `setPictureInPictureParams` for one geometry
      callback reporting `bounds`. */
  function OnGloballyPositioned(sdk: int, eligible: bool, player: PlayerSnapshot, bounds: Rect): (p: Params)
    ensures p.actions == Some(RemoteActions.ListOfRemoteActions(player.isPlaying))
    ensures p.sourceRectHint.Some? <==> eligible && player.videoSize != UNKNOWN_VIDEO_SIZE
    ensures p.sourceRectHint.Some? ==> p.sourceRectHint.value == bounds
    ensures p.aspectRatio.Some? <==> p.sourceRectHint.Some?
    ensures p.aspectRatio.Some? ==> p.aspectRatio.value == Ratio(player.videoSize.width, player.videoSize.height)
    ensures p.autoEnterEnabled.Some? <==> sdk >= VERSION_S
    ensures p.autoEnterEnabled.Some? ==> p.autoEnterEnabled.value == eligible
  {
    var withActions := NEW_BUILDER.(actions := Some(RemoteActions.ListOfRemoteActions(player.isPlaying)));
    var withGeometry :=
      if ShouldOfferPip(eligible, player) then
        withActions.(sourceRectHint := Some(bounds)).(aspectRatio := Some(AspectRatioOf(player.videoSize)))
      else withActions;
    if sdk >= VERSION_S then withGeometry.(autoEnterEnabled := Some(eligible)) else withGeometry
  }

  /** The declarative parameters carry geometry exactly when the legacy
      handler would enter PiP with the same inputs, and then they agree with
      the legacy call on everything except auto-enter. */
  lemma DeclarativeMatchesLegacy(sdk: int, eligible: bool, player: PlayerSnapshot, rect: Rect)
    ensures OnGloballyPositioned(sdk, eligible, player, rect).sourceRectHint.Some?
            <==> |OnUserLeave(eligible, player, rect)| == 1
    ensures |OnUserLeave(eligible, player, rect)| == 1 ==>
              OnUserLeave(eligible, player, rect)[0]
              == OnGloballyPositioned(sdk, eligible, player, rect).(autoEnterEnabled := None)
  {
  }

  /** Two geometry callbacks while not eligible both submit the catalog and
      no hint; once eligibility turns true the next submission has the hint
      and, from S on, auto-enter on. */
  lemma EligibilityFlipAddsHint(sdk: int, player: PlayerSnapshot, r1: Rect, r2: Rect)
    requires SizeKnown(player.videoSize)
    ensures OnGloballyPositioned(sdk, false, player, r1).sourceRectHint.None?
    ensures OnGloballyPositioned(sdk, false, player, r1).actions == OnGloballyPositioned(sdk, true, player, r2).actions
    ensures OnGloballyPositioned(sdk, true, player, r2).sourceRectHint == Some(r2)
    ensures sdk >= VERSION_S ==> OnGloballyPositioned(sdk, true, player, r2).autoEnterEnabled == Some(true)
  {
  }
}
