/**
 * The video tile (`StreamVideoComponent`): it measures the `<video>` element and
 * the native frame into a `VideoInfo` snapshot, emits that snapshot on every
 * element resize and on every `resize` event of the video, and keeps the style,
 * audio sink id and display flags its parent sets.
 */
module StreamVideo {
  import opened Wrappers
  import JsObject

  /** The size of one box: the element on screen or the native video frame. */
  datatype Box = Box(aspectRatio: real, height: real, width: real)

  datatype VideoInfo = VideoInfo(element: Box, video: Box)

  /** A box with a positive size whose aspect ratio is its width over its height. */
  predicate Consistent(b: Box)
  {
    b.width > 0.0 && b.height > 0.0 && b.aspectRatio == b.width / b.height
  }

  predicate ConsistentInfo(info: VideoInfo)
  {
    Consistent(info.element) && Consistent(info.video)
  }

  /**
   * `getInfos`: the element's client size and the video's intrinsic size, each
   * with its aspect ratio. Sizes are whole pixels; the heights are divisors.
   */
  function GetInfos(clientWidth: nat, clientHeight: nat, videoWidth: nat, videoHeight: nat): (info: VideoInfo)
    requires clientHeight > 0 && videoHeight > 0
    ensures info.element.width == clientWidth as real && info.element.height == clientHeight as real
    ensures info.video.width == videoWidth as real && info.video.height == videoHeight as real
    ensures info.element.aspectRatio * info.element.height == info.element.width
    ensures info.video.aspectRatio * info.video.height == info.video.width
  {
    VideoInfo(
      Box(clientWidth as real / clientHeight as real, clientHeight as real, clientWidth as real),
      Box(videoWidth as real / videoHeight as real, videoHeight as real, videoWidth as real))
  }

  /** Every snapshot of a displayed video (both sizes positive) is consistent. */
  lemma GetInfosConsistent(clientWidth: nat, clientHeight: nat, videoWidth: nat, videoHeight: nat)
    requires clientWidth > 0 && clientHeight > 0 && videoWidth > 0 && videoHeight > 0
    ensures ConsistentInfo(GetInfos(clientWidth, clientHeight, videoWidth, videoHeight))
  {
  }

  type Style = map<string, string>

  const VIDEO_ROUNDED_CORNERS: Style := map["borderRadius" := "4px", "overflow" := "hidden"]

  /** The style a tile starts with: inherited size and rounded corners. */
  function DefaultStyle(): (s: Style)
    ensures s.Keys == {"height", "width", "borderRadius", "overflow"}
    ensures s["height"] == "inherit" && s["width"] == "inherit"
    ensures s["borderRadius"] == "4px" && s["overflow"] == "hidden"
  {
    JsObject.Spread(map["height" := "inherit", "width" := "inherit"], VIDEO_ROUNDED_CORNERS)
  }

  /** The sizes the browser reports when a measurement is taken. */
  datatype Measurement = Measurement(clientWidth: nat, clientHeight: nat, videoWidth: nat, videoHeight: nat)

  class StreamVideoView {
    var videoStyle: Style
    var sinkId: Option<string>
    var muted: bool
    var mirror: bool
    var fullscreen: bool
    /** Every `VideoInfo` emitted through `onInfo`, oldest first. */
    var emitted: seq<VideoInfo>

    constructor ()
      ensures videoStyle == DefaultStyle() && sinkId == None && emitted == []
      ensures !muted && !mirror && !fullscreen
    {
      videoStyle := DefaultStyle();
      sinkId := None;
      muted, mirror, fullscreen := false, false, false;
      emitted := [];
    }

    /** The `videoStyle` input: the given properties win, the others stay. */
    method SetVideoStyle(style: Style)
      modifies this`videoStyle
      ensures videoStyle.Keys == old(videoStyle).Keys + style.Keys
      ensures forall k :: k in style ==> videoStyle[k] == style[k]
      ensures forall k :: k in old(videoStyle) && k !in style ==> videoStyle[k] == old(videoStyle)[k]
    {
      videoStyle := JsObject.Spread(videoStyle, style);
    }

    /** The `sinkId` input: an empty id is ignored. */
    method SetSinkId(id: string)
      modifies this`sinkId
      ensures id == "" ==> sinkId == old(sinkId)
      ensures id != "" ==> sinkId == Some(id)
    {
      if id != "" {
        sinkId := Some(id);
      }
    }

    method SetMuted(value: bool)
      modifies this`muted
      ensures muted == value
    {
      muted := value;
    }

    method SetMirror(value: bool)
      modifies this`mirror
      ensures mirror == value
    {
      mirror := value;
    }

    method SetFullscreen(value: bool)
      modifies this`fullscreen
      ensures fullscreen == value
    {
      fullscreen := value;
    }

    /** The ResizeObserver callback on the host or the video element. */
    method OnElementResize(m: Measurement)
      requires m.clientHeight > 0 && m.videoHeight > 0
      modifies this`emitted
      ensures emitted == old(emitted) + [GetInfos(m.clientWidth, m.clientHeight, m.videoWidth, m.videoHeight)]
    {
      var infos := GetInfos(m.clientWidth, m.clientHeight, m.videoWidth, m.videoHeight);
      emitted := emitted + [infos];
    }

    /** The `resize` listener of the video element: the same snapshot as a resize of the element. */
    method OnVideoResize(m: Measurement)
      requires m.clientHeight > 0 && m.videoHeight > 0
      modifies this`emitted
      ensures emitted == old(emitted) + [GetInfos(m.clientWidth, m.clientHeight, m.videoWidth, m.videoHeight)]
    {
      var infos := GetInfos(m.clientWidth, m.clientHeight, m.videoWidth, m.videoHeight);
      emitted := emitted + [infos];
    }
  }
}
