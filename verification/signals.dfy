/** The broadcast envelope shared by the remote actions and the receiver:
    the action scope, the extra's key, and the control and request codes. */
module Signals {
  import opened Wrappers

  const ACTION_STOPWATCH_CONTROL: string := "ActionStopwatchControl"
  const EXTRA_CONTROL_TYPE: string := "control_type"

  const CONTROL_TYPE_PLAY: int := 1
  const CONTROL_TYPE_PAUSE: int := 2
  const CONTROL_SEEK_FORWARD: int := 4
  const CONTROL_SEEK_BACK: int := 5

  const REQUEST_PLAY: int := 6
  const REQUEST_PAUSE: int := 7
  const REQUEST_SEEK_FORWARD: int := 9
  const REQUEST_SEEK_BACK: int := 10

  /** A value stored in an intent's extras bundle: an `Int`, or anything else. */
  datatype ExtraValue = IntExtra(i: int) | OtherExtra

  /** An `Intent` as far as the receiver looks at it: its (nullable) action
      and its extras. */
  datatype Intent = Intent(action: Option<string>, extras: map<string, ExtraValue>)

  /** `Intent.getIntExtra(name, default)`: the stored `Int`, or the default
      when the key is missing or holds a value of another type. */
  function GetIntExtra(intent: Intent, name: string, default: int): (r: int)
    ensures r != default ==> name in intent.extras && intent.extras[name] == IntExtra(r)
    ensures name in intent.extras && intent.extras[name].IntExtra? ==> r == intent.extras[name].i
  {
    if name in intent.extras && intent.extras[name].IntExtra? then intent.extras[name].i
    else default
  }

  /** `Intent(ACTION_STOPWATCH_CONTROL).putExtra(EXTRA_CONTROL_TYPE, controlType)`:
      the broadcast a remote action fires. */
  function ControlIntent(controlType: int): (intent: Intent)
    ensures intent.action == Some(ACTION_STOPWATCH_CONTROL)
    ensures GetIntExtra(intent, EXTRA_CONTROL_TYPE, 0) == controlType
  {
    Intent(Some(ACTION_STOPWATCH_CONTROL), map[EXTRA_CONTROL_TYPE := IntExtra(controlType)])
  }
}
