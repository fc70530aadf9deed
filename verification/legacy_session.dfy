/** The legacy strategy over the lifetime of one mounted screen on [O, S):
    which eligibility flag and source rectangle the user-leave handler reads
    when the hint arrives.

    Two versions. `AsWritten` keeps what the screen does: the handler closure
    is built once, when its effect starts, so it keeps the eligibility flag
    and the rectangle of that moment; and the positioning modifier that
    should store the player's bounds is built but never attached, so the
    stored rectangle never leaves `Rect()`. The corrected version reads the
    current flag and the latest bounds, which is what the handler is there
    for. */
module LegacySession {
  import opened Wrappers
  import opened Platform
  import opened PipParams

  /** What the user-leave handler can read: the eligibility flag and the
      stored source rectangle. */
  datatype Screen = Screen(eligible: bool, sourceRect: Rect)

  /** Events reaching a mounted screen. */
  datatype Event =
    | PlayingChanged(isPlaying: bool)
    | Positioned(bounds: Rect)
    | UserLeave(player: PlayerSnapshot)

  /** A screen just mounted: the global flag as found, the rectangle fresh. */
  function Mount(eligible: bool): Screen
  {
    Screen(eligible, EMPTY_RECT)
  }

  // ----- corrected: the handler reads the latest state -----

  /** One event: the new screen state and the enter-PiP calls it made. */
  function Step(s: Screen, e: Event): (Screen, seq<Params>)
  {
    match e
    case PlayingChanged(b) => (s.(eligible := b), [])
    case Positioned(r) => (s.(sourceRect := r), [])
    case UserLeave(p) => (s, OnUserLeave(s.eligible, p, s.sourceRect))
  }

  /** Events in order: the final state and all enter-PiP calls made. */
  function Run(s: Screen, events: seq<Event>): (Screen, seq<Params>)
    decreases |events|
  {
    if |events| == 0 then (s, [])
    else
      var (s1, out1) := Step(s, events[0]);
      var (s2, out2) := Run(s1, events[1..]);
      (s2, out1 + out2)
  }

  /** The eligibility set by the most recent playing change, or `initial`. */
  function LatestEligible(initial: bool, events: seq<Event>): bool
    decreases |events|
  {
    if |events| == 0 then initial
    else if events[|events| - 1].PlayingChanged? then events[|events| - 1].isPlaying
    else LatestEligible(initial, events[..|events| - 1])
  }

  /** The bounds of the most recent positioning callback, or `initial`. */
  function LatestBounds(initial: Rect, events: seq<Event>): Rect
    decreases |events|
  {
    if |events| == 0 then initial
    else if events[|events| - 1].Positioned? then events[|events| - 1].bounds
    else LatestBounds(initial, events[..|events| - 1])
  }

  /** Running one more event is running the prefix, then stepping. */
  lemma {:induction false} RunSnoc(s: Screen, events: seq<Event>, e: Event)
    ensures Run(s, events + [e]).0 == Step(Run(s, events).0, e).0
    ensures Run(s, events + [e]).1 == Run(s, events).1 + Step(Run(s, events).0, e).1
    decreases |events|
  {
    if |events| == 0 {
      assert events + [e] == [e];
    } else {
      assert (events + [e])[1..] == events[1..] + [e];
      RunSnoc(Step(s, events[0]).0, events[1..], e);
    }
  }

  /** The state after any events holds the latest eligibility and the latest
      bounds. */
  lemma {:induction false} RunKeepsLatest(s: Screen, events: seq<Event>)
    ensures Run(s, events).0 == Screen(LatestEligible(s.eligible, events), LatestBounds(s.sourceRect, events))
    decreases |events|
  {
    if |events| > 0 {
      var prefix := events[..|events| - 1];
      var e := events[|events| - 1];
      assert prefix + [e] == events;
      RunSnoc(s, prefix, e);
      RunKeepsLatest(s, prefix);
    }
  }

  /** A user-leave hint enters PiP exactly when the latest playing change
      (or the flag found at mount) is true and the size is known, with the
      latest bounds as hint. */
  lemma LeaveUsesLatestState(eligible: bool, before: seq<Event>, player: PlayerSnapshot)
    ensures Run(Mount(eligible), before + [UserLeave(player)]).1
            == Run(Mount(eligible), before).1
               + OnUserLeave(LatestEligible(eligible, before), player, LatestBounds(EMPTY_RECT, before))
    ensures |Run(Mount(eligible), before + [UserLeave(player)]).1| == |Run(Mount(eligible), before).1| + 1
            <==> LatestEligible(eligible, before) && SizeKnown(player.videoSize)
  {
    RunSnoc(Mount(eligible), before, UserLeave(player));
    RunKeepsLatest(Mount(eligible), before);
  }

  // ----- as written: the handler reads what it captured at mount -----

  /** The screen together with the values the handler closure captured. */
  datatype Captured = Captured(current: Screen, closure: Screen)

  function MountAsWritten(eligible: bool): Captured
  {
    Captured(Mount(eligible), Mount(eligible))
  }

  /** One event as the screen handles it: the flag changes, positioning is
      lost, and the handler reads its captured values. */
  function StepAsWritten(s: Captured, e: Event): (Captured, seq<Params>)
  {
    match e
    case PlayingChanged(b) => (s.(current := s.current.(eligible := b)), [])
    case Positioned(_) => (s, [])
    case UserLeave(p) => (s, OnUserLeave(s.closure.eligible, p, s.closure.sourceRect))
  }

  function RunAsWritten(s: Captured, events: seq<Event>): (Captured, seq<Params>)
    decreases |events|
  {
    if |events| == 0 then (s, [])
    else
      var (s1, out1) := StepAsWritten(s, events[0]);
      var (s2, out2) := RunAsWritten(s1, events[1..]);
      (s2, out1 + out2)
  }

  /** As written, the captured values never change, every call carries the
      captured rectangle, and a handler that captured `false` never enters
      PiP whatever happens afterwards. */
  lemma {:induction false} AsWrittenHandlerIsFrozen(s: Captured, events: seq<Event>)
    ensures RunAsWritten(s, events).0.closure == s.closure
    ensures RunAsWritten(s, events).0.current.sourceRect == s.current.sourceRect
    ensures forall p :: p in RunAsWritten(s, events).1 ==> p.sourceRectHint == Some(s.closure.sourceRect)
    ensures !s.closure.eligible ==> RunAsWritten(s, events).1 == []
    decreases |events|
  {
    if |events| > 0 {
      AsWrittenHandlerIsFrozen(StepAsWritten(s, events[0]).0, events[1..]);
    }
  }

  /** Mounted before playback starts, then playing, then left with a known
      size: the screen as written makes no enter-PiP call, while the handler
      reading the current flag makes one. */
  lemma StaleEligibilityCounterexample()
    ensures var events := [PlayingChanged(true), UserLeave(PlayerSnapshot(true, VideoSize(1920, 1080)))];
            && RunAsWritten(MountAsWritten(false), events).1 == []
            && |Run(Mount(false), events).1| == 1
  {
  }

  /** After the player is laid out at (0, 0, 1080, 608), the call the screen
      as written makes hints `Rect()`, while the corrected one hints the
      player's bounds. */
  lemma StaleRectCounterexample()
    ensures var bounds := Rect(0, 0, 1080, 608);
            var events := [Positioned(bounds), UserLeave(PlayerSnapshot(true, VideoSize(1920, 1080)))];
            && |RunAsWritten(MountAsWritten(true), events).1| == 1
            && RunAsWritten(MountAsWritten(true), events).1[0].sourceRectHint == Some(EMPTY_RECT)
            && |Run(Mount(true), events).1| == 1
            && Run(Mount(true), events).1[0].sourceRectHint == Some(bounds)
  {
    var bounds := Rect(0, 0, 1080, 608);
    var leave := UserLeave(PlayerSnapshot(true, VideoSize(1920, 1080)));
    var events := [Positioned(bounds), leave];
    assert events[1..] == [leave];
    assert RunAsWritten(MountAsWritten(true), events).1 == RunAsWritten(MountAsWritten(true), [leave]).1;
    assert Run(Mount(true), events).1 == Run(Screen(true, bounds), [leave]).1;
  }
}
