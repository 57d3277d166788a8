/**
 * The tile of a remote participant's stream (`RemoteStreamComponent`): it
 * decodes the nickname the participant shares, turns the peer connection's
 * state into a status line, tracks whether the stream is subscribed and whether
 * a snapshot is being taken, and mirrors whether the stream's audio and video
 * are on.
 */
module RemoteStream {
  import opened Wrappers
  import JsString
  import JsObject
  import opened MediaStreamHelper

  /** The prefix that marks participant data carrying a nickname. */
  const NICKNAME_PREFIX: string := "n|"

  /**
   * `on_participantData`: data that starts with `n|` is a nickname, the rest of
   * the data after that prefix; any other data leaves `current` as it is.
   */
  function DecodeNickname(data: string, current: string): (r: string)
    ensures JsString.StartsWith(data, NICKNAME_PREFIX) ==> r == data[|NICKNAME_PREFIX|..]
    ensures !JsString.StartsWith(data, NICKNAME_PREFIX) ==> r == current
  {
    if JsString.StartsWith(data, NICKNAME_PREFIX) then JsString.Replace(data, NICKNAME_PREFIX, "") else current
  }

  /** The values of `RTCPeerConnectionState`, section 4.3.3 of W3C WebRTC 1.0. */
  const PEER_CONNECTION_STATES: set<string> := {"new", "connecting", "connected", "disconnected", "closed", "failed"}

  /** The status line shown for a peer connection state; anything unknown reads "Unknown". */
  function StatusOf(state: string): (status: string)
    ensures state == "new" || state == "connecting" <==> status == "Connecting…"
    ensures state == "connected" <==> status == "Online"
    ensures state == "disconnected" <==> status == "Disconnecting…"
    ensures state == "closed" <==> status == "Offline"
    ensures state == "failed" <==> status == "Error"
    ensures state !in PEER_CONNECTION_STATES <==> status == "Unknown"
  {
    match state
    case "new" => "Connecting…"
    case "connecting" => "Connecting…"
    case "connected" => "Online"
    case "disconnected" => "Disconnecting…"
    case "closed" => "Offline"
    case "failed" => "Error"
    case _ => "Unknown"
  }

  /** Two known states share a status only when both are the start-up states `new` and `connecting`. */
  lemma StatusSeparatesStates(a: string, b: string)
    requires a in PEER_CONNECTION_STATES && b in PEER_CONNECTION_STATES
    requires StatusOf(a) == StatusOf(b)
    ensures a == b || ({a, b} == {"new", "connecting"})
  {
  }

  datatype SubscriptionRequest = Subscribe | Unsubscribe

  class RemoteStreamView {
    var nickname: string
    var onlineStatus: string
    /** Every notification recorded, oldest first. */
    var notifications: seq<string>
    var subscribed: bool
    /** The requests sent to the remote stream, oldest first. */
    var requests: seq<SubscriptionRequest>
    var snapshotInPrgs: bool
    /** Every snapshot data URL emitted through `onSnapshot`, oldest first. */
    var snapshots: seq<string>
    var mediaStream: Option<MediaStream>
    var audioEnabled: bool
    var videoEnabled: bool
    var videoStyle: map<string, string>
    var mirror: bool

    constructor ()
      ensures nickname == "" && onlineStatus == "" && notifications == []
      ensures subscribed && requests == []
      ensures !snapshotInPrgs && snapshots == []
      ensures mediaStream == None && !audioEnabled && !videoEnabled
      ensures videoStyle == map[] && !mirror
    {
      nickname, onlineStatus, notifications := "", "", [];
      subscribed, requests := true, [];
      snapshotInPrgs, snapshots := false, [];
      mediaStream, audioEnabled, videoEnabled := None, false, false;
      videoStyle, mirror := map[], false;
    }

    method OnParticipantData(data: string)
      modifies this`nickname
      ensures nickname == DecodeNickname(data, old(nickname))
    {
      nickname := DecodeNickname(data, nickname);
    }

    /** `setOnlineStatus`: stores the status and records exactly one notification about it. */
    method SetOnlineStatus(status: string)
      modifies this`onlineStatus, this`notifications
      ensures onlineStatus == status
      ensures notifications == old(notifications) + ["peer is " + status]
    {
      onlineStatus := status;
      notifications := notifications + ["peer is " + status];
    }

    /** The `connectionstatechange` listener. */
    method OnConnectionStateChanged(state: string)
      modifies this`onlineStatus, this`notifications
      ensures onlineStatus == StatusOf(state)
      ensures notifications == old(notifications) + ["peer is " + StatusOf(state)]
    {
      SetOnlineStatus(StatusOf(state));
    }

    /** The `videoStyle` input: the given properties win, the others stay. */
    method SetVideoStyle(style: map<string, string>)
      modifies this`videoStyle
      ensures videoStyle.Keys == old(videoStyle).Keys + style.Keys
      ensures forall k :: k in style ==> videoStyle[k] == style[k]
      ensures forall k :: k in old(videoStyle) && k !in style ==> videoStyle[k] == old(videoStyle)[k]
    {
      videoStyle := JsObject.Spread(videoStyle, style);
    }

    method SetMirror(value: bool)
      modifies this`mirror
      ensures mirror == value
    {
      mirror := value;
    }

    /** `doUpdateStates`: without a stream both flags are off. */
    method DoUpdateStates()
      modifies this`audioEnabled, this`videoEnabled
      ensures audioEnabled <==> mediaStream.Some? && KindEnabled(mediaStream.value, Audio)
      ensures videoEnabled <==> mediaStream.Some? && KindEnabled(mediaStream.value, Video)
    {
      match mediaStream {
        case None =>
          audioEnabled := false;
          videoEnabled := false;
        case Some(s) =>
          audioEnabled := IsAudioEnabled(s);
          videoEnabled := IsVideoEnabled(s);
      }
    }

    /** The `mediaStream` setter. */
    method SetMediaStream(s: Option<MediaStream>)
      modifies this`mediaStream, this`audioEnabled, this`videoEnabled
      ensures mediaStream == s
      ensures audioEnabled <==> s.Some? && KindEnabled(s.value, Audio)
      ensures videoEnabled <==> s.Some? && KindEnabled(s.value, Video)
    {
      mediaStream := s;
      DoUpdateStates();
    }

    /**
     * The `addtrack` / `removetrack` listeners: the current stream now lists
     * `tracks`, and the flags are recomputed from it.
     */
    method OnTrackListChanged(tracks: seq<Track>)
      modifies this`mediaStream, this`audioEnabled, this`videoEnabled
      ensures mediaStream == if old(mediaStream).Some? then Some(MediaStream(tracks)) else None
      ensures audioEnabled <==> mediaStream.Some? && KindEnabled(mediaStream.value, Audio)
      ensures videoEnabled <==> mediaStream.Some? && KindEnabled(mediaStream.value, Video)
    {
      if mediaStream.Some? {
        mediaStream := Some(MediaStream(tracks));
      }
      DoUpdateStates();
    }

    /** `snapshot`: a snapshot is in progress until it arrives or its channel closes or fails. */
    method StartSnapshot()
      modifies this`snapshotInPrgs
      ensures snapshotInPrgs
    {
      snapshotInPrgs := true;
    }

    /** The whole snapshot has been received: it is emitted and the snapshot is over. */
    method OnSnapshotReceived(dataUrl: string)
      modifies this`snapshotInPrgs, this`snapshots
      ensures !snapshotInPrgs
      ensures snapshots == old(snapshots) + [dataUrl]
    {
      snapshots := snapshots + [dataUrl];
      snapshotInPrgs := false;
    }

    /** `onclose` / `onerror` of the snapshot channel. */
    method OnSnapshotChannelClosed()
      modifies this`snapshotInPrgs
      ensures !snapshotInPrgs
    {
      snapshotInPrgs := false;
    }

    /**
     * `toggleSubscribe`: a subscribed stream is unsubscribed; otherwise a
     * subscription is requested and `subscribed` takes the truthiness of what
     * the request returns, `subscribeResult`.
     */
    method ToggleSubscribe(subscribeResult: bool)
      modifies this`subscribed, this`requests
      ensures old(subscribed) ==> !subscribed && requests == old(requests) + [Unsubscribe]
      ensures !old(subscribed) ==> subscribed == subscribeResult && requests == old(requests) + [Subscribe]
    {
      if subscribed {
        requests := requests + [Unsubscribe];
        subscribed := false;
      } else {
        requests := requests + [Subscribe];
        subscribed := subscribeResult;
      }
    }
  }
}
