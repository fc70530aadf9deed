/** The control-signal router: the `onReceive` of the broadcast receiver
    registered while the screen is in PiP mode. */
module Router {
  import opened Wrappers
  import opened Platform
  import opened Signals
  import RemoteActions

  /** The offset, in milliseconds, of one seek step. */
  const SEEK_STEP_MS: int := 10000

  /** The player state the receiver reads and writes. */
  datatype Player = Player(playWhenReady: bool, currentPosition: Long)

  /** The one call the receiver makes on the player for a signal. */
  datatype Command = Ignore | SetPlayWhenReady(value: bool) | SeekTo(positionMs: Long)

  /** The control code a signal carries, read as `getIntExtra(EXTRA_CONTROL_TYPE, 0)`
      from an intent in the app's scope; `None` for a signal outside the scope. */
  function ScopedCode(intent: Option<Intent>): Option<int>
  {
    if intent.None? || intent.value.action != Some(ACTION_STOPWATCH_CONTROL) then None
    else Some(GetIntExtra(intent.value, EXTRA_CONTROL_TYPE, 0))
  }

  /** The signals the receiver acts upon: in scope, with one of the four codes. */
  predicate Recognized(intent: Option<Intent>)
  {
    var code := ScopedCode(intent);
    code.Some? && code.value in {CONTROL_TYPE_PLAY, CONTROL_TYPE_PAUSE, CONTROL_SEEK_BACK, CONTROL_SEEK_FORWARD}
  }

  /** `onReceive(context, intent)`: the command issued for a signal. */
  function OnReceive(intent: Option<Intent>, player: Player): (c: Command)
    ensures c.Ignore? <==> !Recognized(intent)
    ensures c.SetPlayWhenReady? <==> ScopedCode(intent) in {Some(CONTROL_TYPE_PLAY), Some(CONTROL_TYPE_PAUSE)}
    ensures c.SetPlayWhenReady? ==> (c.value <==> ScopedCode(intent) == Some(CONTROL_TYPE_PLAY))
    ensures c.SeekTo? && ScopedCode(intent) == Some(CONTROL_SEEK_BACK) ==>
              WrapLong(c.positionMs + SEEK_STEP_MS) == player.currentPosition
    ensures c.SeekTo? && ScopedCode(intent) == Some(CONTROL_SEEK_FORWARD) ==>
              WrapLong(c.positionMs - SEEK_STEP_MS) == player.currentPosition
  {
    match ScopedCode(intent)
    case None => Ignore
    case Some(code) =>
      if code == CONTROL_TYPE_PLAY then SetPlayWhenReady(true)
      else if code == CONTROL_TYPE_PAUSE then SetPlayWhenReady(false)
      else if code == CONTROL_SEEK_BACK then
        SeekBackTarget(player.currentPosition)
      else if code == CONTROL_SEEK_FORWARD then
        SeekForwardTarget(player.currentPosition)
      else Ignore
  }

  /** `player.seekTo(player.currentPosition - 10000)` in `Long` arithmetic;
      forward seeking by one step undoes it. */
  function SeekBackTarget(position: Long): (c: Command)
    ensures c.SeekTo? && WrapLong(c.positionMs + SEEK_STEP_MS) == position
  {
    SeekTo(WrapLong(position - SEEK_STEP_MS))
  }

  /** `player.seekTo(player.currentPosition + 10000)` in `Long` arithmetic;
      backward seeking by one step undoes it. */
  function SeekForwardTarget(position: Long): (c: Command)
    ensures c.SeekTo? && WrapLong(c.positionMs - SEEK_STEP_MS) == position
  {
    SeekTo(WrapLong(position + SEEK_STEP_MS))
  }

  /** The player after it carries out a command. */
  function Apply(player: Player, c: Command): Player
  {
    match c
    case Ignore => player
    case SetPlayWhenReady(v) => player.(playWhenReady := v)
    case SeekTo(t) => player.(currentPosition := t)
  }

  /** A signal delivered to the receiver, from the player's point of view. */
  function Receive(intent: Option<Intent>, player: Player): (after: Player)
    ensures after.playWhenReady == player.playWhenReady || after.currentPosition == player.currentPosition
  {
    Apply(player, OnReceive(intent, player))
  }

  /** Signals outside the scope, without the extra, or with an unknown code
      leave the player as it was. */
  lemma UnrecognizedSignalsAreIgnored(intent: Option<Intent>, player: Player)
    ensures !Recognized(intent) ==> Receive(intent, player) == player
    ensures intent.None? ==> Receive(intent, player) == player
    ensures intent.Some? && intent.value.action != Some(ACTION_STOPWATCH_CONTROL) ==> Receive(intent, player) == player
    ensures intent.Some? && EXTRA_CONTROL_TYPE !in intent.value.extras ==> Receive(intent, player) == player
  {
  }

  /** Play and pause set `playWhenReady`, never seek, and applying one twice
      is the same as applying it once. */
  lemma PlayPauseIdempotent(intent: Option<Intent>, player: Player)
    requires ScopedCode(intent) in {Some(CONTROL_TYPE_PLAY), Some(CONTROL_TYPE_PAUSE)}
    ensures Receive(intent, player).playWhenReady == (ScopedCode(intent) == Some(CONTROL_TYPE_PLAY))
    ensures Receive(intent, player).currentPosition == player.currentPosition
    ensures Receive(intent, Receive(intent, player)) == Receive(intent, player)
  {
  }

  /** Seeks move the position by one step and keep `playWhenReady`. */
  lemma SeeksKeepPlayWhenReady(intent: Option<Intent>, player: Player)
    requires ScopedCode(intent) in {Some(CONTROL_SEEK_BACK), Some(CONTROL_SEEK_FORWARD)}
    ensures Receive(intent, player).playWhenReady == player.playWhenReady
    ensures ScopedCode(intent) == Some(CONTROL_SEEK_BACK) && player.currentPosition >= LONG_MIN + SEEK_STEP_MS
            ==> Receive(intent, player).currentPosition == player.currentPosition - SEEK_STEP_MS
    ensures ScopedCode(intent) == Some(CONTROL_SEEK_FORWARD) && player.currentPosition <= LONG_MAX - SEEK_STEP_MS
            ==> Receive(intent, player).currentPosition == player.currentPosition + SEEK_STEP_MS
  {
  }

  /** Seeking back is not clamped at zero: from 5 s it seeks to -5 s. */
  lemma SeekBackNotClamped()
    ensures Receive(Some(ControlIntent(CONTROL_SEEK_BACK)), Player(true, 5000)) == Player(true, -5000)
  {
  }

  /** A seek back followed by a seek forward returns to the starting
      position, for every `Long` position. */
  lemma SeekBackThenForward(player: Player)
    ensures Receive(Some(ControlIntent(CONTROL_SEEK_FORWARD)), Receive(Some(ControlIntent(CONTROL_SEEK_BACK)), player)) == player
  {
  }

  /** Each action of the catalog, when tapped, is recognized by the receiver;
      the middle one flips what the catalog was built for, and the outer ones
      seek. */
  lemma CatalogActionsAreRouted(isPlaying: bool, player: Player)
    ensures forall d :: d in RemoteActions.ListOfRemoteActions(isPlaying) ==> Recognized(Some(RemoteActions.Broadcast(d)))
    ensures Receive(Some(RemoteActions.Broadcast(RemoteActions.ListOfRemoteActions(isPlaying)[1])), player).playWhenReady == !isPlaying
    ensures OnReceive(Some(RemoteActions.Broadcast(RemoteActions.ListOfRemoteActions(isPlaying)[0])), player)
            == SeekBackTarget(player.currentPosition)
    ensures OnReceive(Some(RemoteActions.Broadcast(RemoteActions.ListOfRemoteActions(isPlaying)[2])), player)
            == SeekForwardTarget(player.currentPosition)
  {
  }
}
