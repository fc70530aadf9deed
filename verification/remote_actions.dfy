/** The remote-action catalog: the three transport controls shown around the
    PiP window, each as a descriptor tuple. */
module RemoteActions {
  import opened Signals

  /** The drawable resources the actions use. */
  datatype Icon = IcSeekBack | IcPlay | IcPause | IcSeekForward

  /** The string resources the actions use, both as title and as content
      description. */
  datatype Label = SeekBackLabel | PlayLabel | PauseLabel | SeekForwardLabel

  /** A `RemoteAction`: icon, label, and the pending broadcast identified by
      its request code and carrying its control type. */
  datatype Descriptor = Descriptor(icon: Icon, title: Label, requestCode: int, controlType: int)

  /** The broadcast a descriptor's pending intent delivers when tapped. */
  function Broadcast(d: Descriptor): Intent
  {
    ControlIntent(d.controlType)
  }

  const SeekBackAction: Descriptor := Descriptor(IcSeekBack, SeekBackLabel, REQUEST_SEEK_BACK, CONTROL_SEEK_BACK)
  const SeekForwardAction: Descriptor := Descriptor(IcSeekForward, SeekForwardLabel, REQUEST_SEEK_FORWARD, CONTROL_SEEK_FORWARD)

  /** The middle, play-or-pause action: it offers to pause what is playing
      and to play what is not. */
  function PlayPauseAction(isPlaying: bool): Descriptor
  {
    Descriptor(
      if isPlaying then IcPause else IcPlay,
      if isPlaying then PauseLabel else PlayLabel,
      if isPlaying then REQUEST_PAUSE else REQUEST_PLAY,
      if isPlaying then CONTROL_TYPE_PAUSE else CONTROL_TYPE_PLAY)
  }

  /** `listOfRemoteActions(isPlaying, context)`: seek-back, play-or-pause,
      seek-forward, in the order the PiP chrome lays them out. */
  function ListOfRemoteActions(isPlaying: bool): (actions: seq<Descriptor>)
    ensures |actions| == 3
    ensures actions[0].requestCode == REQUEST_SEEK_BACK && actions[0].controlType == CONTROL_SEEK_BACK
    ensures actions[2].requestCode == REQUEST_SEEK_FORWARD && actions[2].controlType == CONTROL_SEEK_FORWARD
    ensures isPlaying ==> actions[1].requestCode == REQUEST_PAUSE && actions[1].controlType == CONTROL_TYPE_PAUSE
    ensures !isPlaying ==> actions[1].requestCode == REQUEST_PLAY && actions[1].controlType == CONTROL_TYPE_PLAY
    ensures forall i, j :: 0 <= i < j < |actions| ==> actions[i].requestCode != actions[j].requestCode
  {
    [SeekBackAction, PlayPauseAction(isPlaying), SeekForwardAction]
  }

  /** The seek actions do not depend on the playing state: recomputing the
      catalog leaves them as they were. */
  lemma SeekActionsIndependentOfPlaying(a: bool, b: bool)
    ensures ListOfRemoteActions(a)[0] == ListOfRemoteActions(b)[0]
    ensures ListOfRemoteActions(a)[2] == ListOfRemoteActions(b)[2]
  {
  }

  /** A request code names one action across every recomputation of the
      catalog, so the OS can replace a pending intent in place. */
  lemma RequestCodeIdentifiesAction(a: bool, b: bool, i: nat, j: nat)
    requires i < 3 && j < 3
    ensures ListOfRemoteActions(a)[i].requestCode == ListOfRemoteActions(b)[j].requestCode
            ==> ListOfRemoteActions(a)[i] == ListOfRemoteActions(b)[j]
  {
  }
}
