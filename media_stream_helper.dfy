/**
 * `MediaStreamHelper`: switching the audio or the video tracks of a media
 * stream on and off, asking whether any of them is on, and the summary of the
 * first track of each kind that is shared with the peers.
 */
module MediaStreamHelper {
  import opened Wrappers

  datatype Kind = Audio | Video

  /** The two capability maxima the application reads; `None` when the browser reports none. */
  datatype Capabilities = Capabilities(heightMax: Option<real>, frameRateMax: Option<real>)

  const NO_CAPABILITIES := Capabilities(None, None)

  /** Constraints and settings, as the flat records the peers exchange. */
  type Record = map<string, string>

  /**
   * A `MediaStreamTrack`. Its kind and what its getters report never change;
   * a getter the browser does not provide is `None`. Only `enabled` is updated.
   */
  class Track {
    const kind: Kind
    const capabilities: Option<Capabilities>
    const constraints: Option<Record>
    const settings: Option<Record>
    var enabled: bool

    constructor (kind: Kind, capabilities: Option<Capabilities>, constraints: Option<Record>,
                 settings: Option<Record>, enabled: bool)
      ensures this.kind == kind && this.capabilities == capabilities
      ensures this.constraints == constraints && this.settings == settings
      ensures this.enabled == enabled
    {
      this.kind := kind;
      this.capabilities := capabilities;
      this.constraints := constraints;
      this.settings := settings;
      this.enabled := enabled;
    }
  }

  /** A `MediaStream` is its list of tracks, in the order the browser lists them. */
  datatype MediaStream = MediaStream(tracks: seq<Track>)

  /** `getAudioTracks()` / `getVideoTracks()`: the tracks of one kind, in stream order. */
  function TracksOf(tracks: seq<Track>, kind: Kind): (r: seq<Track>)
    ensures forall i :: 0 <= i < |r| ==> r[i].kind == kind && r[i] in tracks
    ensures forall i :: 0 <= i < |tracks| && tracks[i].kind == kind ==> tracks[i] in r
    ensures |r| <= |tracks|
  {
    if tracks == [] then []
    else (if tracks[0].kind == kind then [tracks[0]] else []) + TracksOf(tracks[1..], kind)
  }

  ghost predicate HasKind(s: MediaStream, kind: Kind)
  {
    exists i :: 0 <= i < |s.tracks| && s.tracks[i].kind == kind
  }

  /** Some track of the kind is enabled. */
  ghost predicate KindEnabled(s: MediaStream, kind: Kind)
    reads s.tracks
  {
    exists i :: 0 <= i < |s.tracks| && s.tracks[i].kind == kind && s.tracks[i].enabled
  }

  /**
   * The `forEach` of `enableAudio`, `disableAudio`, `enableVideo` and
   * `disableVideo`: every track of the kind gets `enabled == value`; tracks of
   * the other kind keep their state. The new state depends only on `kind` and
   * `value`, so a second identical call changes nothing.
   */
  method SetEnabled(s: MediaStream, kind: Kind, value: bool)
    modifies set t | t in s.tracks && t.kind == kind
    ensures forall t :: t in s.tracks && t.kind == kind ==> t.enabled == value
    ensures forall t :: t in s.tracks && t.kind != kind ==> t.enabled == old(t.enabled)
    ensures KindEnabled(s, kind) <==> value && HasKind(s, kind)
  {
    var ts := TracksOf(s.tracks, kind);
    for i := 0 to |ts|
      invariant forall j :: 0 <= j < i ==> ts[j].enabled == value
      invariant forall t :: t in s.tracks && t.kind != kind ==> t.enabled == old(t.enabled)
    {
      ts[i].enabled := value;
    }
    if value && HasKind(s, kind) {
      var i :| 0 <= i < |s.tracks| && s.tracks[i].kind == kind;
      assert s.tracks[i].enabled;
    }
  }

  method DisableAudio(s: MediaStream)
    modifies set t | t in s.tracks && t.kind == Audio
    ensures forall t :: t in s.tracks && t.kind == Audio ==> !t.enabled
    ensures forall t :: t in s.tracks && t.kind == Video ==> t.enabled == old(t.enabled)
    ensures !KindEnabled(s, Audio)
  {
    SetEnabled(s, Audio, false);
  }

  method EnableAudio(s: MediaStream)
    modifies set t | t in s.tracks && t.kind == Audio
    ensures forall t :: t in s.tracks && t.kind == Audio ==> t.enabled
    ensures forall t :: t in s.tracks && t.kind == Video ==> t.enabled == old(t.enabled)
    ensures KindEnabled(s, Audio) <==> HasKind(s, Audio)
  {
    SetEnabled(s, Audio, true);
  }

  method DisableVideo(s: MediaStream)
    modifies set t | t in s.tracks && t.kind == Video
    ensures forall t :: t in s.tracks && t.kind == Video ==> !t.enabled
    ensures forall t :: t in s.tracks && t.kind == Audio ==> t.enabled == old(t.enabled)
    ensures !KindEnabled(s, Video)
  {
    SetEnabled(s, Video, false);
  }

  method EnableVideo(s: MediaStream)
    modifies set t | t in s.tracks && t.kind == Video
    ensures forall t :: t in s.tracks && t.kind == Video ==> t.enabled
    ensures forall t :: t in s.tracks && t.kind == Audio ==> t.enabled == old(t.enabled)
    ensures KindEnabled(s, Video) <==> HasKind(s, Video)
  {
    SetEnabled(s, Video, true);
  }

  /** `isAudioEnabled` / `isVideoEnabled`: the first enabled track of the kind answers true. */
  method IsEnabled(s: MediaStream, kind: Kind) returns (r: bool)
    ensures r <==> KindEnabled(s, kind)
  {
    var ts := TracksOf(s.tracks, kind);
    for i := 0 to |ts|
      invariant forall j :: 0 <= j < i ==> !ts[j].enabled
    {
      if ts[i].enabled {
        return true;
      }
    }
    return false;
  }

  method IsAudioEnabled(s: MediaStream) returns (r: bool)
    ensures r <==> KindEnabled(s, Audio)
  {
    r := IsEnabled(s, Audio);
  }

  method IsVideoEnabled(s: MediaStream) returns (r: bool)
    ensures r <==> KindEnabled(s, Video)
  {
    r := IsEnabled(s, Video);
  }

  /** What is shared about one track: each getter's report, or an empty one when it is missing. */
  datatype TrackInfo = TrackInfo(capabilities: Capabilities, constraints: Record, settings: Record)

  /** `audio` / `video` is `None` where the result object holds `undefined`. */
  datatype MediaStreamInfo = MediaStreamInfo(audio: Option<TrackInfo>, video: Option<TrackInfo>)

  function InfoOf(t: Track): (info: TrackInfo)
    ensures t.capabilities.None? ==> info.capabilities == NO_CAPABILITIES
    ensures t.capabilities.Some? ==> info.capabilities == t.capabilities.value
    ensures t.constraints.None? ==> info.constraints == map[]
    ensures t.constraints.Some? ==> info.constraints == t.constraints.value
    ensures t.settings.None? ==> info.settings == map[]
    ensures t.settings.Some? ==> info.settings == t.settings.value
  {
    TrackInfo(
      match t.capabilities case Some(c) => c case None => NO_CAPABILITIES,
      match t.constraints case Some(c) => c case None => map[],
      match t.settings case Some(c) => c case None => map[])
  }

  /** The first track of the kind is the one at an index before which there is none of it. */
  predicate FirstOfKindAt(tracks: seq<Track>, kind: Kind, i: nat)
  {
    i < |tracks| && tracks[i].kind == kind && forall j :: 0 <= j < i ==> tracks[j].kind != kind
  }

  /** The info of `getAudioTracks()[0]` (or of the video one), `None` when there is none. */
  function FirstInfo(tracks: seq<Track>, kind: Kind): (r: Option<TrackInfo>)
    ensures r.None? <==> forall i :: 0 <= i < |tracks| ==> tracks[i].kind != kind
    ensures r.Some? ==> exists i: nat :: FirstOfKindAt(tracks, kind, i) && r.value == InfoOf(tracks[i])
  {
    if tracks == [] then None
    else if tracks[0].kind == kind then Some(InfoOf(tracks[0]))
    else
      var r := FirstInfo(tracks[1..], kind);
      assert r.Some? ==> exists i: nat :: FirstOfKindAt(tracks, kind, i) && r.value == InfoOf(tracks[i]) by {
        if r.Some? {
          var i: nat :| FirstOfKindAt(tracks[1..], kind, i) && r.value == InfoOf(tracks[1..][i]);
          assert FirstOfKindAt(tracks, kind, i + 1);
        }
      }
      r
  }

  /**
   * `getMediaStreamInfo`: each kind is reported exactly when the stream has a
   * track of it, and only the first such track is looked at.
   */
  function GetMediaStreamInfo(s: MediaStream): (r: MediaStreamInfo)
    ensures r.audio.None? <==> !HasKind(s, Audio)
    ensures r.video.None? <==> !HasKind(s, Video)
    ensures r.audio.Some? ==> exists i: nat :: FirstOfKindAt(s.tracks, Audio, i) && r.audio.value == InfoOf(s.tracks[i])
    ensures r.video.Some? ==> exists i: nat :: FirstOfKindAt(s.tracks, Video, i) && r.video.value == InfoOf(s.tracks[i])
  {
    MediaStreamInfo(FirstInfo(s.tracks, Audio), FirstInfo(s.tracks, Video))
  }
}
