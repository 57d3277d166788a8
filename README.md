# ephemeral-video: shared pointer, stream tiles and room page in Dafny

ephemeral-video is an Angular web application for short-lived video rooms
built on WebRTC. This project models the parts of it that compute or keep
state:

- **The controlled stream.** This is the shared pointer drawn over a video.
  A local pointer position, in element pixels, is carried into the video's
  native pixels. The video is shown "cover", so one axis is cropped evenly on
  both sides. The position then goes out on every open outbound data channel,
  with the nickname on every tenth move. A position received on an inbound
  channel is brought back into element pixels, clamped on the cropped axis,
  and merged over that channel's previous pointer.
- **The video tile.** It measures the element and the native frame into a
  `VideoInfo` snapshot. It also keeps the style, the audio sink id and the
  display flags its parent sets.
- **The remote stream tile.** It decodes the nickname a participant shares.
  It turns the peer connection state into a status line. It tracks the
  subscription, a snapshot in progress, and whether audio and video are on.
- **`MediaStreamHelper`.** It switches the tracks of one kind on or off and
  asks whether any of them is on. It summarises the first track of each kind.
- **The home page.** It keeps the book of remote participants and their
  streams, and the settings data channels. It caps the offered resolutions
  and frame rates to the camera's maxima. It builds the room url from the
  page location, and the file name of a saved snapshot. It selects a stream.
- **The `remove` and `filterOut` pipes.**
- **The global log level.**

JavaScript built-ins the code relies on are modelled for the argument forms
the code uses:

- `JsString`: `indexOf` and `lastIndexOf` of one character, `split` and
  `join` with a one-character separator, the first-occurrence `replace` with a
  string pattern, `slice` with non-negative bounds, the global replacement of
  one character by another, and `startsWith`.
- `JsMap`: a `Map` with its insertion order, as a sequence of pairs.
  `JsMap.Delete` removes every entry with the key. That equals `Map.delete`
  when keys are unique (`JsMap.UniqueKeys`), which `JsMap.Set` preserves.
- `JsObject`: object spread.
- `ControlledStream.Round`: `Math.round`.

A data channel is a number. What is sent on channels is an append-only log
of (channel, message) pairs, described by `DataChannels.Broadcast`.

Components whose fields change in place are classes with `modifies` clauses.
Their handlers are methods whose `ensures` state the whole new state.
Geometry, naming and parsing are functions, with lemmas relating them.

## Model

| member | source | states |
|---|---|---|
| `PointerGeometry.CoverOf` | src/app/controlled-stream/controlled-stream.component.ts:231-257 | The video crops the element's width exactly when the element's aspect ratio is at most the video's. The scale factor is never zero. |
| `PointerGeometry.Clamp` | src/app/controlled-stream/controlled-stream.component.ts:47-58 | `Math.min(Math.max(0, x), hi)` is never above the bound. It is `x` when `x` lies between 0 and the bound, 0 when `x` is negative, and the bound when `x` exceeds it. |
| `PointerGeometry.Forward` | src/app/controlled-stream/controlled-stream.component.ts:231-257 | The move handler scales the filled axis by the video-to-element factor. On the cropped axis it scales the distance from the element's centre into a distance from the video's centre. |
| `PointerGeometry.Reverse` | src/app/controlled-stream/controlled-stream.component.ts:41-62 | The message handler scales the filled axis back by the element-to-video factor. On the cropped axis it carries the distance from the video's centre back to the element's centre and clamps the result into the element. |
| `PointerGeometry.CoverFits` | src/app/controlled-stream/controlled-stream.component.ts:41-62 | For consistent sizes the cover fits exactly. The factor is positive and the crop offset is not negative. The filled length, scaled, is the video's length. The cropped length plus both crops, scaled, is the video's other length. |
| `PointerGeometry.ForwardInRange` | src/app/controlled-stream/controlled-stream.component.ts:231-257 | Every point inside the element is sent as a point inside the native video frame. |
| `PointerGeometry.RoundTrip` | src/app/controlled-stream/controlled-stream.component.ts:41-62 | A point of the element sent, then received with the same sizes, comes back unchanged: the message handler inverts the move handler. |
| `PointerGeometry.ReverseClampsCroppedAxis` | src/app/controlled-stream/controlled-stream.component.ts:41-62 | A received point always lands inside the element on the cropped axis. The other axis is only rescaled and is not clamped. |
| `PointerGeometry.VisibleRoundTrip` | src/app/controlled-stream/controlled-stream.component.ts:41-62 | A received point that needs no clamping, sent again, gives back the received video position. |
| `PointerGeometry.ForwardCentre` | src/app/controlled-stream/controlled-stream.component.ts:231-245 | A 320x240 element over a 1280x720 video crops the width with factor 3 and offset 160/3. The element's centre maps to the video's centre. |
| `ControlledStream.Round` | src/app/controlled-stream/controlled-stream.component.ts:214-216 | `Math.round` gives the integer within half a unit, halves rounded up. |
| `ControlledStream.LocalPosition` | src/app/controlled-stream/controlled-stream.component.ts:213-216 | The position within the element is off the exact offset from the bounding box by less than half a pixel on each axis. |
| `ControlledStream.Target` | src/app/controlled-stream/controlled-stream.component.ts:51-61 | The object built from a received position has exactly the fields `left` and `top`, holding that position. |
| `ControlledStream.FrameFor` | src/app/controlled-stream/controlled-stream.component.ts:259-262 | The frame carries the video position. It carries the nickname exactly when the move counter is a multiple of ten. |
| `ControlledStream.OneNicknameInTen` | src/app/controlled-stream/controlled-stream.component.ts:229-262 | Out of any ten consecutive moves, exactly one frame carries the nickname. |
| `ControlledStream.ControlledStreamView.constructor` | src/app/controlled-stream/controlled-stream.component.ts:145-162 | Starts with no pointers and no channels, over a 1x1 element and a 1x1 video. |
| `ControlledStream.ControlledStreamView.OnInfo` | src/app/controlled-stream/controlled-stream.component.ts:164-169 | The reported sizes replace the stored ones. |
| `ControlledStream.ControlledStreamView.OnMessage` | src/app/controlled-stream/controlled-stream.component.ts:35-72 | The channel's pointer becomes the reversed position merged over its previous pointer. Every other channel is unchanged. A new channel is appended last in the map's order. The rendered list is the map's values in that order. One entry per channel, each holding a position, is preserved. |
| `ControlledStream.ControlledStreamView.OnInboundClose` | src/app/controlled-stream/controlled-stream.component.ts:77-82 | The channel's pointer is deleted. The others are unchanged. The invariant is preserved. |
| `ControlledStream.ControlledStreamView.OnInboundError` | src/app/controlled-stream/controlled-stream.component.ts:73-76 | Same clean-up as close. |
| `ControlledStream.ControlledStreamView.OnPointerEnterChannel` | src/app/controlled-stream/controlled-stream.component.ts:171-181 | The new outbound channel is added to the outbound set. |
| `ControlledStream.ControlledStreamView.OnOutboundOpen` | src/app/controlled-stream/controlled-stream.component.ts:183-185 | An opened outbound channel joins the open set. |
| `ControlledStream.ControlledStreamView.OnOutboundClose` | src/app/controlled-stream/controlled-stream.component.ts:186-192 | A closed outbound channel leaves both sets. |
| `ControlledStream.ControlledStreamView.OnOutboundError` | src/app/controlled-stream/controlled-stream.component.ts:193-199 | A failed outbound channel leaves both sets. |
| `ControlledStream.ControlledStreamView.OnPointerMove` | src/app/controlled-stream/controlled-stream.component.ts:205-272 | The move counter grows by one. Exactly one frame goes to each open channel and to nothing else; earlier sends are untouched. The frame is the local position carried into video pixels, with the nickname on every tenth move. |
| `ControlledStream.ControlledStreamView.OnPointerLeave` | src/app/controlled-stream/controlled-stream.component.ts:274-284 | Every outbound channel is asked to close. Both channel sets become empty. |
| `DataChannels.SendAll` | src/app/controlled-stream/controlled-stream.component.ts:268-270 | The log grows by one entry per channel of the set, each carrying the message, on pairwise distinct channels that are exactly the set. The old log is its prefix. |
| `DataChannels.BroadcastStep` | src/app/home/home.component.ts:383-387 | Sending on one more channel outside the set extends a broadcast to that channel. |
| `DataChannels.SentOnAppend` | src/app/controlled-stream/controlled-stream.component.ts:268-270 | Appending one send adds exactly its channel to the channels written to. |
| `JsMap.Get` | src/app/controlled-stream/controlled-stream.component.ts:37 | `Map.get` finds a value exactly when the key is present, and the value is stored under that key. |
| `JsMap.SetGet` | src/app/controlled-stream/controlled-stream.component.ts:64 | After `Map.set`, the key reads the new value and every other key reads what it read before. |
| `JsMap.SetKeys` | src/app/controlled-stream/controlled-stream.component.ts:64 | `Map.set` keeps the key order. A new key goes last. |
| `JsMap.SetUnique` | src/app/controlled-stream/controlled-stream.component.ts:64 | `Map.set` keeps every key once. |
| `JsMap.Delete` | src/app/controlled-stream/controlled-stream.component.ts:75 | `Map.delete` leaves the key absent and every other key unchanged. It is a no-op on an absent key and keeps keys unique. |
| `JsMap.DeleteIdempotent` | src/app/controlled-stream/controlled-stream.component.ts:81 | Deleting twice is deleting once: the close handler after the error handler changes nothing. |
| `JsMap.ValuesOfKeys` | src/app/controlled-stream/controlled-stream.component.ts:67 | With unique keys, the i-th value listed is the value stored under the i-th key. |
| `JsObject.Spread` | src/app/controlled-stream/controlled-stream.component.ts:64 | The keys are those of both objects. The patch wins where both have a key; the base is kept elsewhere. |
| `StreamVideo.GetInfos` | src/app/stream-video/stream-video.component.ts:101-112 | The snapshot copies the element and video sizes. Each aspect ratio times its height is its width. |
| `StreamVideo.GetInfosConsistent` | src/app/stream-video/stream-video.component.ts:101-112 | The snapshot of a displayed video (all sizes positive) is consistent, which is what the pointer geometry needs. |
| `StreamVideo.DefaultStyle` | src/app/stream-video/stream-video.component.ts:44-55 | The initial style has exactly the keys `height`, `width`, `borderRadius` and `overflow`. Height and width are `inherit`. The rounded corners of `VIDEO_ROUNDED_CORNERS` (line 5) give `borderRadius` `4px` and `overflow` `hidden`. |
| `StreamVideo.StreamVideoView.constructor` | src/app/stream-video/stream-video.component.ts:44-55 | The tile starts with the default style, no sink id, nothing emitted and every flag off. |
| `StreamVideo.StreamVideoView.SetVideoStyle` | src/app/stream-video/stream-video.component.ts:44-55 | The given properties win. The other properties stay. |
| `StreamVideo.StreamVideoView.SetSinkId` | src/app/stream-video/stream-video.component.ts:72-80 | An empty sink id is ignored. Any other id is stored. |
| `StreamVideo.StreamVideoView.SetMuted` | src/app/stream-video/stream-video.component.ts:57-60 | The muted flag takes the value. |
| `StreamVideo.StreamVideoView.SetMirror` | src/app/stream-video/stream-video.component.ts:62-65 | The mirror flag takes the value. |
| `StreamVideo.StreamVideoView.SetFullscreen` | src/app/stream-video/stream-video.component.ts:67-70 | The fullscreen flag takes the value. |
| `StreamVideo.StreamVideoView.OnElementResize` | src/app/stream-video/stream-video.component.ts:118-140 | A resize emits exactly one snapshot of the measured sizes. |
| `StreamVideo.StreamVideoView.OnVideoResize` | src/app/stream-video/stream-video.component.ts:144-155 | A resize of the video emits exactly one snapshot of the measured sizes. |
| `MediaStreamHelper.TracksOf` | src/app/MediaStreamHelper.ts:23-49 | Lists only tracks of the kind, all of them, each taken from the stream. |
| `MediaStreamHelper.SetEnabled` | src/app/MediaStreamHelper.ts:23-43 | Every track of the kind takes the value. Tracks of the other kind keep theirs. Afterwards some track of the kind is on exactly when the value is true and the stream has such a track. |
| `MediaStreamHelper.DisableAudio` | src/app/MediaStreamHelper.ts:23-25 | No audio track is on afterwards. Video tracks are untouched. |
| `MediaStreamHelper.EnableAudio` | src/app/MediaStreamHelper.ts:26-28 | Every audio track is on. Video tracks are untouched. |
| `MediaStreamHelper.DisableVideo` | src/app/MediaStreamHelper.ts:38-40 | No video track is on afterwards. Audio tracks are untouched. |
| `MediaStreamHelper.EnableVideo` | src/app/MediaStreamHelper.ts:41-43 | Every video track is on. Audio tracks are untouched. |
| `MediaStreamHelper.IsEnabled` | src/app/MediaStreamHelper.ts:29-49 | True exactly when some track of the kind is enabled. |
| `MediaStreamHelper.IsAudioEnabled` | src/app/MediaStreamHelper.ts:29-34 | True exactly when some audio track is enabled. |
| `MediaStreamHelper.IsVideoEnabled` | src/app/MediaStreamHelper.ts:44-49 | True exactly when some video track is enabled. |
| `MediaStreamHelper.InfoOf` | src/app/MediaStreamHelper.ts:51-68 | Each getter's report is shared as is. A missing getter is shared as an empty report. |
| `MediaStreamHelper.FirstInfo` | src/app/MediaStreamHelper.ts:51-68 | Absent exactly when there is no track of the kind. Otherwise it is the info of the first track of the kind. |
| `MediaStreamHelper.GetMediaStreamInfo` | src/app/MediaStreamHelper.ts:51-68 | Audio (video) is reported exactly when the stream has an audio (video) track, and is the info of the first such track. |
| `RemoteStream.DecodeNickname` | src/app/remote-stream/remote-stream.component.ts:52-56 | Data starting with `n|` yields the rest after the prefix. Other data keeps the current nickname. |
| `RemoteStream.StatusOf` | src/app/remote-stream/remote-stream.component.ts:91-114 | Each connection state has its status line, in both directions. Exactly the states outside the WebRTC enumeration read "Unknown". |
| `RemoteStream.StatusSeparatesStates` | src/app/remote-stream/remote-stream.component.ts:91-114 | Two known states share a status only when they are `new` and `connecting`. |
| `RemoteStream.RemoteStreamView.constructor` | src/app/remote-stream/remote-stream.component.ts:36-50 | The tile starts subscribed, with no stream, no snapshot and both flags off. |
| `RemoteStream.RemoteStreamView.OnParticipantData` | src/app/remote-stream/remote-stream.component.ts:52-56 | The nickname is what decoding the data gives. |
| `RemoteStream.RemoteStreamView.SetOnlineStatus` | src/app/remote-stream/remote-stream.component.ts:58-62 | The status is stored and exactly one notification about it is recorded. |
| `RemoteStream.RemoteStreamView.OnConnectionStateChanged` | src/app/remote-stream/remote-stream.component.ts:91-114 | The status becomes the status line of the new state, with one notification. |
| `RemoteStream.RemoteStreamView.SetVideoStyle` | src/app/remote-stream/remote-stream.component.ts:123-126 | The given properties win. The other properties stay. |
| `RemoteStream.RemoteStreamView.SetMirror` | src/app/remote-stream/remote-stream.component.ts:128-131 | The mirror flag takes the value. |
| `RemoteStream.RemoteStreamView.DoUpdateStates` | src/app/remote-stream/remote-stream.component.ts:139-142 | Each flag is on exactly when there is a stream with an enabled track of that kind. |
| `RemoteStream.RemoteStreamView.SetMediaStream` | src/app/remote-stream/remote-stream.component.ts:144-171 | The stream is stored. Both flags agree with its tracks. |
| `RemoteStream.RemoteStreamView.OnTrackListChanged` | src/app/remote-stream/remote-stream.component.ts:149-169 | After a track is added or removed, both flags agree with the stream's new track list. |
| `RemoteStream.RemoteStreamView.StartSnapshot` | src/app/remote-stream/remote-stream.component.ts:191-205 | A snapshot is in progress. |
| `RemoteStream.RemoteStreamView.OnSnapshotReceived` | src/app/remote-stream/remote-stream.component.ts:206-210 | The data URL is emitted once and the snapshot is over. |
| `RemoteStream.RemoteStreamView.OnSnapshotChannelClosed` | src/app/remote-stream/remote-stream.component.ts:212-220 | A closed or failed snapshot channel ends the snapshot. |
| `RemoteStream.RemoteStreamView.ToggleSubscribe` | src/app/remote-stream/remote-stream.component.ts:224-232 | A subscribed stream is unsubscribed, with one request. Otherwise one subscription is requested and `subscribed` takes the request's result. |
| `Home.EncodeNickname` | src/app/home/home.component.ts:79-83 | The shared data starts with the nickname prefix and holds exactly the nickname after it. |
| `Home.NicknameRoundTrip` | src/app/home/home.component.ts:80 | Decoding what the page shares gives back the nickname, whatever the tile showed before. |
| `Home.AtMostKeeps` | src/app/home/home.component.ts:451 | The filter keeps exactly the listed values up to the maximum and is never longer than the list. |
| `Home.CapToMax` | src/app/home/home.component.ts:448-456 | The capped list is computed: the filter, then the maximum pushed when the last value kept (or -1) is below it. |
| `Home.LastOrMinusOne` | src/app/home/home.component.ts:452 | The value read is never 0. It is the last entry whenever that entry exists and is not 0; otherwise it is -1. |
| `Home.Capped` | src/app/home/home.component.ts:448-456 | The offered list is the filtered list, followed by at most one more entry, which is the maximum. |
| `Home.HeightMax` | src/app/home/home.component.ts:448-450 | The height maximum is read from the video information. Without video information there is none. |
| `Home.FrameRateMax` | src/app/home/home.component.ts:457-458 | The frame-rate maximum is read from the video information. Without video information there is none. |
| `Home.VideoMaximaOfStream` | src/app/home/home.component.ts:446-458 | For a stream without a video track both maxima are absent. Otherwise they are the capabilities of the stream's first video track. |
| `Home.CappedBounded` | src/app/home/home.component.ts:448-464 | Nothing offered exceeds the maximum. Everything offered is listed or is the maximum. Every listed value up to the maximum is offered. |
| `Home.CappedEndsWithMax` | src/app/home/home.component.ts:452-455 | For a maximum above -1 the offered list ends with the maximum. |
| `Home.AtMostIncreasing` | src/app/home/home.component.ts:451 | Filtering an increasing list keeps it increasing. |
| `Home.AppendIncreasing` | src/app/home/home.component.ts:454 | Pushing a value above the last keeps an increasing list increasing. |
| `Home.CappedIncreasing` | src/app/home/home.component.ts:448-464 | The offered resolutions and frame rates stay strictly increasing. |
| `Home.AtMostDropsAbove` | src/app/home/home.component.ts:451 | Trailing values above the maximum are all dropped by the filter. |
| `Home.AtMostSnoc` | src/app/home/home.component.ts:451 | Filtering a list with one more value keeps that value exactly when it is at most the maximum. |
| `Home.AtMostResolutions` | src/app/constants.ts:9 | For a maximum from 720 up to 1200, the listed resolutions kept are 480 and 720, and 1080 from 1080 on. |
| `Home.AtMostFrameRates` | src/app/constants.ts:11 | For a maximum from 30 up to 60, the listed frame rates kept are 24 and 30. |
| `Home.CappedResolutionsAt1080` | src/app/home/home.component.ts:448-456 | A 1080-line camera is offered 480, 720 and 1080. |
| `Home.CappedResolutionsAt1000` | src/app/home/home.component.ts:448-456 | A 1000-line camera is offered 480, 720 and its own 1000. |
| `Home.CappedFrameRatesAt30` | src/app/home/home.component.ts:457-464 | A 30 fps camera is offered 24 and 30 fps. |
| `Home.BaseUrl` | src/app/home/home.component.ts:204-216 | On a conversation page the base url is the origin plus the path before its last `/`. Otherwise it is the page url without one trailing slash. |
| `Home.TrimTrailingSlash` | src/app/home/home.component.ts:215 | `replace(/\/$/, "")` removes one trailing `/` when there is one and leaves any other string unchanged. |
| `Home.RoomUrl` | src/app/home/home.component.ts:327 | For a conversation id without `/`, the room url's last `/` sits right after the base url, which is its prefix, and the id follows it. |
| `Home.RoomUrlOfConversationPage` | src/app/home/home.component.ts:204-216 | On the page of a conversation, the room url built from the base url is the page's own url. |
| `Home.SnapshotType` | src/app/home/home.component.ts:613 | The file type is `undefined` or holds no `/` or `;`. It is `undefined` when the part before the first `;` has no `/`. |
| `Home.SplitPartHasNoSeparator` | src/app/home/home.component.ts:613 | No piece of the head split on `/` holds the `;` separator. |
| `Home.SnapshotTypeOfDataUrl` | src/app/home/home.component.ts:613 | A data URL written as section 3 of RFC 2397 gives its media subtype as the file type. |
| `Home.SnapshotName` | src/app/home/home.component.ts:616 | The file name starts with `snapshot_` and ends with `.` and the file type. |
| `Home.SnapshotNameOfIsoTime` | src/app/home/home.component.ts:612-616 | For an ISO time and a data URL, the name is `snapshot_<date>_<hh>-<mm>-<ss>.<subtype>`. |
| `Home.IsoTimeSlices` | src/app/home/home.component.ts:616 | Slices 0-10 and 11-19 of an ISO time are its date and its time of day. |
| `Home.TimeOfDayDashed` | src/app/home/home.component.ts:616 | Replacing every `:` of `hh:mm:ss` gives `hh-mm-ss`. |
| `Home.HomeView.constructor` | src/app/home/home.component.ts:99-127 | The page starts with no participants, streams or channels, and the full resolution and frame-rate lists. |
| `Home.HomeView.DoStoreRemoteStreamByParticipant` | src/app/home/home.component.ts:789-795 | The stream joins its participant's set, created if missing, and the known streams. Other participants are unchanged. The book stays consistent when no other participant lists the stream. |
| `Home.HomeView.DoRemoveMediaStream` | src/app/home/home.component.ts:797-803 | The stream leaves its participant's set, which stays in the map, and the known streams. Removing an absent stream changes nothing. |
| `Home.HomeView.DoRemoveRemoteParticipant` | src/app/home/home.component.ts:805-813 | The participant, its entry and exactly its streams are removed. The book stays consistent. |
| `Home.HomeView.OnParticipantAdded` | src/app/home/home.component.ts:247-254 | The newcomer is recorded. It is sent the nickname only once we have joined. |
| `Home.HomeView.OnParticipantRemoved` | src/app/home/home.component.ts:291-303 | The same removal as `DoRemoveRemoteParticipant`. |
| `Home.HomeView.OnJoined` | src/app/home/home.component.ts:314-317 | On joining, the nickname is shared once with everyone. |
| `Home.HomeView.SetNickname` | src/app/home/home.component.ts:79-83 | The nickname is stored. It is shared with everyone once joined. |
| `Home.HomeView.OnStreamPublished` | src/app/home/home.component.ts:256-276 | The stream is stored under its participant and the communication has started. |
| `Home.HomeView.OnStreamUnpublished` | src/app/home/home.component.ts:277-289 | The stream is removed. Its settings channel, if any, is closed and forgotten. |
| `Home.HomeView.OnRemoteSettingsOpen` | src/app/home/home.component.ts:355-361 | The opened settings channel is kept for the remote stream. |
| `Home.HomeView.OnRemoteSettingsMessage` | src/app/home/home.component.ts:362-368 | The received information replaces what was known of the remote stream. |
| `Home.HomeView.OnRemoteSettingsClose` | src/app/home/home.component.ts:369-375 | Both the channel and the stream's information are forgotten. |
| `Home.HomeView.NotifyMediaStreamInfoChanged` | src/app/home/home.component.ts:383-387 | The information goes out exactly once on every settings channel of the stream, and nowhere else. |
| `Home.HomeView.SettingsChannels` | src/app/home/home.component.ts:383-387 | A channel is among a local stream's settings channels exactly when the stream has an entry and the channel is in it; a stream without an entry has none (`?.`). |
| `Home.HomeView.UpdateMediaStreamInfo` | src/app/home/home.component.ts:389-393 | The stream's information is recomputed, stored and pushed once to each of its channels. |
| `Home.HomeView.OnLocalSettingsOpen` | src/app/home/home.component.ts:702-715 | The channel joins the stream's set, created if missing. The current information goes to every channel of the set, the new one included. |
| `Home.HomeView.OnLocalSettingsClose` | src/app/home/home.component.ts:728-733 | The channel leaves the stream's set, if there is one. |
| `Home.HomeView.OnUserMedia` | src/app/home/home.component.ts:448-464 | Each list is capped at the reported maximum when one is reported and nonzero. Otherwise it is left as it was. |
| `Home.HomeView.Select` | src/app/home/home.component.ts:338-347 | A local stream or a remote one (or nothing) is selected, never both. |
| `Home.HomeView.OnConversationReady` | src/app/home/home.component.ts:327 | The room url is the base url followed by the conversation id. |
| `Home.HomeView.OnSnapshot` | src/app/home/home.component.ts:608-616 | The data URL is saved once, under its snapshot name. |
| `JsString.IndexOfOrLength` | src/app/home/home.component.ts:613 | The first position of the character, or the length when it is absent. |
| `JsString.LastIndexOf` | src/app/home/home.component.ts:208-212 | The last position of the character, or -1 when it is absent. |
| `JsString.Split` | src/app/home/home.component.ts:208 | There is at least one part. There is exactly one when the separator is absent. No part holds the separator. |
| `JsString.SplitAtFirst` | src/app/home/home.component.ts:613 | Splitting at a first separator gives the text before it, then the split of the rest. |
| `JsString.SplitPartAvoids` | src/app/home/home.component.ts:613 | No part of a split holds a character the string lacks. |
| `JsString.JoinSplit` | src/app/home/home.component.ts:208-212 | Joining a split with the same separator gives the string back. |
| `JsString.JoinWithoutLastPart` | src/app/home/home.component.ts:208-212 | Splitting, dropping the last part and joining leaves the text before the last separator, or the empty string when there is none. |
| `JsString.InitParts` | src/app/home/home.component.ts:208-210 | Dropping the last part leaves one part fewer, none holding the separator, and no part at all when the path has no separator. |
| `JsString.Find` | src/app/remote-stream/remote-stream.component.ts:54 | The first position where the pattern occurs, or none when it never occurs. |
| `JsString.Replace` | src/app/remote-stream/remote-stream.component.ts:54 | The first occurrence of the pattern, and only it, is replaced. A string starting with the pattern has that prefix replaced. A string without the pattern is unchanged. |
| `JsString.Slice` | src/app/home/home.component.ts:616 | Within bounds, `slice` is the substring. An end past the length is clamped to the length. A start at or past the end, or at or past the length, gives the empty string. It is never longer than the string. |
| `JsString.ReplaceAllChar` | src/app/home/home.component.ts:616 | Every occurrence of the character is replaced and nothing else changes. |
| `JsString.ReplaceAllCharConcat` | src/app/home/home.component.ts:616 | The global replace distributes over concatenation. |
| `JsString.ReplaceAllCharAbsent` | src/app/home/home.component.ts:616 | A string without the character is unchanged by the global replace. |
| `RemovePipe.Without` | src/app/remove.pipe.ts:9-21 | The result is within the set, lacks the item and keeps every other member. |
| `RemovePipe.Transform` | src/app/remove.pipe.ts:9-21 | A missing set or a falsy item gives the input back. Otherwise the result is the set without the item. |
| `RemovePipe.WithoutSize` | src/app/remove.pipe.ts:13-19 | The result is one smaller exactly when the item was there. Otherwise it is the set itself. |
| `RemovePipe.WithoutIdempotent` | src/app/remove.pipe.ts:13-19 | Removing the same item twice is removing it once. |
| `FilterOutPipe.Without` | src/app/filter-out.pipe.ts:9-15 | The record keeps exactly the keys not named, with their values. |
| `FilterOutPipe.Transform` | src/app/filter-out.pipe.ts:9-15 | The copy loses every named key and keeps the others' values. A missing record gives the empty record. |
| `FilterOutPipe.ArgsAsSet` | src/app/filter-out.pipe.ts:11-13 | Only which keys are named matters, not their order or repetition. |
| `FilterOutPipe.WithoutIdempotent` | src/app/filter-out.pipe.ts:11-13 | Filtering again with the same keys changes nothing. |
| `LogLevel.LevelFor` | src/logLevel.ts:19-36 | Each of the four level names selects its own entry. Anything else, `null` included, selects `info`. |
| `LogLevel.TableOrdered` | src/logLevel.ts:10-13 | Each level enables everything less verbose than itself. |
| `LogLevel.LevelForOwnName` | src/logLevel.ts:19-36 | Naming the level in force selects it again. |
| `LogLevel.Globals.SetLogLevel` | src/logLevel.ts:19-36 | The global level becomes the entry for the argument. It depends on the argument alone, so a repeated call changes nothing. |

## Left out

- Rendering, Angular change detection and zones, routing, dialogs, local storage and logging are not modelled.
- WebRTC, the conversation service, `getUserMedia`, `applyConstraints` and data-channel creation are not modelled. Their outcomes are method parameters: a new channel, a measurement, a track list, a subscription result, a stream's information.
- Data channels, participants and streams are plain numbers. Object identity beyond that is not modelled.
- JSON encoding of the frames is not modelled. The frame is sent as a value.
- The order in which a `Set` of channels is walked by `forEach` is not modelled. `DataChannels.Broadcast` states which channels get the message, once each, in some order.
- The date in a snapshot name comes from a clock. It is the parameter `isoTime`.
- Reading the snapshot from the canvas, chunking it over a data channel, and `saveAs` itself are not modelled. The snapshot channel is reduced to its `snapshotInPrgs` flag and the emitted data URL.
- `round2` in the pointer-move handler is never called, so it is not modelled. Numbers are exact reals, not IEEE doubles.
- The incoming frame's optional nickname is parsed but dropped by the message handler, which keeps only `left` and `top`. The model drops it the same way.
- The `Pointer` type the code declares names its fields differently from the objects it builds. The model follows the objects the code builds (`left`, `top`).
- The `ResizeObserver` on the tile's labels and controls, which only sets minimum sizes, is not modelled.
- The remote settings channel's `onerror` handler only logs, so it is not modelled.
- The local settings channel's `onmessage` handler, which applies constraints to a track, is not modelled.
- The log level and the global nickname are plain values. Their effect on console output is not modelled.
- `RemovePipe.Transform`: a falsy item is modelled as a missing item (`None`). A present item equal to `0` or `""`, which JavaScript also treats as falsy, is not singled out.
- `PointerGeometry.CoverOf`, `PointerGeometry.Forward`, `PointerGeometry.Reverse`, `ControlledStream.ControlledStreamView.OnMessage` and `ControlledStream.ControlledStreamView.OnPointerMove` require nonzero sizes. When a length on the axis the video fills is zero (element or video), the code divides by zero and JavaScript computes `NaN` or `Infinity`, which are not modelled. A zero length only on the cropped axis stays finite in JavaScript: a zero element width with nonzero heights crops the width, and `left` clamps to 0. The model excludes that case too.
- `PointerGeometry.RoundTrip` and `PointerGeometry.ForwardInRange` are stated for points inside the element. Outside it, clamping breaks the round trip, as the code intends. `PointerGeometry.ForwardInRange`, `PointerGeometry.CoverFits` and `PointerGeometry.ReverseClampsCroppedAxis` also require positive sizes with matching aspect ratios, which is what `StreamVideo.GetInfos` reports for a displayed video.
- `ControlledStream.ControlledStreamView.OnInfo` stores the reported sizes only. It does not build the `videoSize` text (`<width>x<height>@<frame rate or ?>i/s`) or record the notification that carries it (controlled-stream.component.ts:166-167), because formatting numbers as text is not modelled. The `TypeError` thrown when the stream has no video track comes after the sizes are stored, so the modelled state is the same.
- `StreamVideo.StreamVideoView.SetSinkId` stores the sink id but does not model the call that hands it to the `<video>` element (`setSinkId`, stream-video.component.ts:77). Audio output routing is a browser effect.
- `ControlledStream.LocalPosition` measures the pointer against the host element's bounding box (controlled-stream.component.ts:214). The element size in `VideoInfo` is the `<video>` element's client size (stream-video.component.ts:104-105). The model treats the two boxes as one, as the code does; a difference between them (borders, padding) is not modelled.
- `StreamVideo.GetInfos`, `StreamVideo.StreamVideoView.OnElementResize` and `StreamVideo.StreamVideoView.OnVideoResize` require positive heights. A zero height gives `NaN` or `Infinity` in JavaScript.
- `Home.HomeView.DoStoreRemoteStreamByParticipant`, `Home.HomeView.DoRemoveMediaStream` and `Home.HomeView.OnStreamUnpublished` preserve the book's consistency only when no other participant lists the stream. The code does not check this.
- `Home.CappedIncreasing` requires a nonzero maximum. The page never caps with 0, because a zero maximum is falsy and skipped.
- `Home.CappedEndsWithMax` requires a maximum above -1. Below that, `last < max` can fail and the maximum is not pushed.
- `MediaStreamHelper.SetEnabled` and the four enable/disable methods state the new state as a function of the kind and the value alone. Idempotence follows from that; there is no separate lemma.
