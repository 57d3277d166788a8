/**
 * The home page (`HomeComponent`): who is in the conversation and which
 * streams they publish, the settings channels that carry each stream's media
 * information, the choice of resolutions and frame rates offered for the
 * camera, the room url, snapshot file names, the selected stream and the
 * nickname shared with the other participants.
 */
module Home {
  import opened Wrappers
  import JsString
  import opened DataChannels
  import opened MediaStreamHelper
  import RemoteStream

  // ---------------------------------------------------------------------------
  // Nickname sharing

  /** The participant data that carries a nickname. */
  function EncodeNickname(nickname: string): (data: string)
    ensures JsString.StartsWith(data, RemoteStream.NICKNAME_PREFIX)
    ensures |data| == |RemoteStream.NICKNAME_PREFIX| + |nickname|
    ensures data[|RemoteStream.NICKNAME_PREFIX|..] == nickname
  {
    RemoteStream.NICKNAME_PREFIX + nickname
  }

  /**
   * What a remote tile decodes is exactly the nickname that was shared, even
   * when the nickname itself holds `n|`, and whatever it showed before.
   */
  lemma NicknameRoundTrip(nickname: string, shown: string)
    ensures RemoteStream.DecodeNickname(EncodeNickname(nickname), shown) == nickname
  {
    assert EncodeNickname(nickname)[|RemoteStream.NICKNAME_PREFIX|..] == nickname;
  }

  // ---------------------------------------------------------------------------
  // Resolutions and frame rates offered for the camera

  const RESOLUTIONS: seq<real> := [480.0, 720.0, 1080.0, 1200.0, 1440.0, 2160.0, 4320.0]
  const FRAME_RATES: seq<real> := [24.0, 30.0, 60.0]

  predicate StrictlyIncreasing(list: seq<real>)
  {
    forall i, j :: 0 <= i < j < |list| ==> list[i] < list[j]
  }

  /** `list.filter((r) => r <= max)`: the entries up to `max`, in their order. */
  function AtMost(list: seq<real>, max: real): seq<real>
  {
    if list == [] then []
    else AtMost(list[..|list| - 1], max) + (if list[|list| - 1] <= max then [list[|list| - 1]] else [])
  }

  /** The filter keeps exactly the listed entries up to `max`, and no more entries than the list has. */
  lemma {:induction false} AtMostKeeps(list: seq<real>, max: real)
    ensures |AtMost(list, max)| <= |list|
    ensures forall x :: x in AtMost(list, max) <==> x in list && x <= max
  {
    if list != [] {
      var init := list[..|list| - 1];
      var last := list[|list| - 1];
      AtMostKeeps(init, max);
      assert list == init + [last];
      forall x | x in list
        ensures x in init || x == last
      {
        var i :| 0 <= i < |list| && list[i] == x;
        if i < |init| {
          assert init[i] == x;
        }
      }
    }
  }

  /** `list.slice(-1)[0] || -1`: the last entry, read as -1 when there is none or it is 0. */
  function LastOrMinusOne(list: seq<real>): (r: real)
    ensures r != 0.0
    ensures r != -1.0 ==> |list| > 0 && r == list[|list| - 1]
    ensures |list| > 0 && list[|list| - 1] != 0.0 ==> r == list[|list| - 1]
  {
    if list != [] && list[|list| - 1] != 0.0 then list[|list| - 1] else -1.0
  }

  /** The list offered for a device whose capability maximum is `max`: the filtered list, then possibly `max`. */
  function Capped(list: seq<real>, max: real): (r: seq<real>)
    ensures var kept := AtMost(list, max);
            |kept| <= |r| <= |kept| + 1 && r[..|kept|] == kept && (|r| > |kept| ==> r[|kept|] == max)
  {
    var kept := AtMost(list, max);
    if LastOrMinusOne(kept) < max then kept + [max] else kept
  }

  /**
   * The capping of `getUserMedia`'s success handler: filter the list against
   * the maximum, then push the maximum unless the list already ends with it.
   */
  method CapToMax(list: seq<real>, max: real) returns (r: seq<real>)
    ensures r == Capped(list, max)
  {
    r := [];
    for i := 0 to |list|
      invariant r == AtMost(list[..i], max)
    {
      assert list[..i + 1][..i] == list[..i];
      if list[i] <= max {
        r := r + [list[i]];
      }
    }
    assert list[..|list|] == list;
    var last := if |r| > 0 && r[|r| - 1] != 0.0 then r[|r| - 1] else -1.0;
    if last < max {
      r := r + [max];
    }
  }

  /** Nothing offered exceeds the maximum, and everything offered is a listed value or the maximum. */
  lemma CappedBounded(list: seq<real>, max: real)
    ensures forall x :: x in Capped(list, max) ==> x <= max
    ensures forall x :: x in Capped(list, max) ==> x in list || x == max
    ensures forall x :: x in list && x <= max ==> x in Capped(list, max)
  {
    AtMostKeeps(list, max);
  }

  /** For any maximum above -1 the offered list ends with the maximum itself. */
  lemma CappedEndsWithMax(list: seq<real>, max: real)
    requires max > -1.0
    ensures |Capped(list, max)| > 0 && Capped(list, max)[|Capped(list, max)| - 1] == max
  {
    AtMostKeeps(list, max);
    var kept := AtMost(list, max);
    if kept != [] && kept[|kept| - 1] != 0.0 {
      assert kept[|kept| - 1] in kept;
    }
  }

  lemma {:induction false} AtMostIncreasing(list: seq<real>, max: real)
    requires StrictlyIncreasing(list)
    ensures StrictlyIncreasing(AtMost(list, max))
  {
    if list != [] {
      var init := list[..|list| - 1];
      var x := list[|list| - 1];
      assert StrictlyIncreasing(init);
      AtMostIncreasing(init, max);
      AtMostKeeps(init, max);
      var k := AtMost(init, max);
      if x <= max && k != [] {
        assert k[|k| - 1] in k;
        var i :| 0 <= i < |init| && init[i] == k[|k| - 1];
        assert init[i] == list[i];
        AppendIncreasing(k, x);
      }
    }
  }

  /** A value above the last entry of an increasing list extends it increasingly. */
  lemma AppendIncreasing(list: seq<real>, x: real)
    requires StrictlyIncreasing(list)
    requires list == [] || list[|list| - 1] < x
    ensures StrictlyIncreasing(list + [x])
  {
    var l := list + [x];
    forall i, j | 0 <= i < j < |l|
      ensures l[i] < l[j]
    {
      if j == |list| && i < |list| - 1 {
        assert list[i] < list[|list| - 1];
      }
    }
  }

  /**
   * An increasing list stays increasing, so the maximum is never offered
   * twice; a maximum of 0 is excluded, as the caller never caps against it.
   */
  lemma CappedIncreasing(list: seq<real>, max: real)
    requires StrictlyIncreasing(list) && max != 0.0
    ensures StrictlyIncreasing(Capped(list, max))
  {
    AtMostIncreasing(list, max);
    AtMostKeeps(list, max);
    var kept := AtMost(list, max);
    if LastOrMinusOne(kept) < max {
      if kept != [] {
        assert kept[|kept| - 1] in kept;
      }
      AppendIncreasing(kept, max);
    }
  }

  /** A 1080p camera is offered the listed resolutions up to 1080. */
  lemma CappedResolutionsAt1080()
    ensures Capped(RESOLUTIONS, 1080.0) == [480.0, 720.0, 1080.0]
  {
    AtMostResolutions(1080.0);
  }

  /** A camera of 1000 lines is offered the listed resolutions below it, then 1000. */
  lemma CappedResolutionsAt1000()
    ensures Capped(RESOLUTIONS, 1000.0) == [480.0, 720.0, 1000.0]
  {
    AtMostResolutions(1000.0);
  }

  /** A 30 fps camera is offered 24 and 30 fps. */
  lemma CappedFrameRatesAt30()
    ensures Capped(FRAME_RATES, 30.0) == [24.0, 30.0]
  {
    AtMostFrameRates(30.0);
  }

  /** The frame rates up to a maximum between 30 and 60. */
  lemma AtMostFrameRates(max: real)
    requires 30.0 <= max < 60.0
    ensures AtMost(FRAME_RATES, max) == [24.0, 30.0]
  {
    var l0: seq<real> := [];
    var l1 := l0 + [24.0];
    var l2 := l1 + [30.0];
    var l3 := l2 + [60.0];
    AtMostSnoc(l0, 24.0, max);
    AtMostSnoc(l1, 30.0, max);
    AtMostSnoc(l2, 60.0, max);
    assert l3 == FRAME_RATES;
  }

  /** The resolutions up to a maximum between 720 and 1200. */
  lemma AtMostResolutions(max: real)
    requires 720.0 <= max < 1200.0
    ensures AtMost(RESOLUTIONS, max) == [480.0, 720.0] + if 1080.0 <= max then [1080.0] else []
  {
    var l0: seq<real> := [];
    var l1 := l0 + [480.0];
    var l2 := l1 + [720.0];
    var l3 := l2 + [1080.0];
    AtMostSnoc(l0, 480.0, max);
    AtMostSnoc(l1, 720.0, max);
    AtMostSnoc(l2, 1080.0, max);
    assert RESOLUTIONS == l3 + [1200.0, 1440.0, 2160.0, 4320.0];
    AtMostDropsAbove(l3, [1200.0, 1440.0, 2160.0, 4320.0], max);
  }

  /** Entries above the maximum at the end of the list are all filtered out. */
  lemma {:induction false} AtMostDropsAbove(init: seq<real>, tail: seq<real>, max: real)
    requires forall i :: 0 <= i < |tail| ==> tail[i] > max
    ensures AtMost(init + tail, max) == AtMost(init, max)
    decreases |tail|
  {
    if tail == [] {
      assert init + tail == init;
    } else {
      var front := tail[..|tail| - 1];
      assert init + tail == (init + front) + [tail[|tail| - 1]];
      AtMostSnoc(init + front, tail[|tail| - 1], max);
      AtMostDropsAbove(init, front, max);
    }
  }

  lemma AtMostSnoc(init: seq<real>, x: real, max: real)
    ensures AtMost(init + [x], max) == AtMost(init, max) + if x <= max then [x] else []
  {
    assert (init + [x])[..|init|] == init;
  }

  /** `info.video?.capabilities?.height?.max`: undefined when the info has no video. */
  function HeightMax(info: MediaStreamInfo): (r: Option<real>)
    ensures info.video.None? ==> r.None?
    ensures r.Some? ==> info.video.Some? && info.video.value.capabilities.heightMax == r
  {
    if info.video.Some? then info.video.value.capabilities.heightMax else None
  }

  /** `info.video?.capabilities?.frameRate?.max`: undefined when the info has no video. */
  function FrameRateMax(info: MediaStreamInfo): (r: Option<real>)
    ensures info.video.None? ==> r.None?
    ensures r.Some? ==> info.video.Some? && info.video.value.capabilities.frameRateMax == r
  {
    if info.video.Some? then info.video.value.capabilities.frameRateMax else None
  }

  /**
   * The maxima the capping reads are those of the stream's first video track,
   * and there are none when the stream has no video track.
   */
  lemma VideoMaximaOfStream(s: MediaStream)
    ensures !HasKind(s, Video) ==> HeightMax(GetMediaStreamInfo(s)).None? && FrameRateMax(GetMediaStreamInfo(s)).None?
    ensures HasKind(s, Video) ==>
              exists i: nat :: FirstOfKindAt(s.tracks, Video, i) &&
                HeightMax(GetMediaStreamInfo(s)) == InfoOf(s.tracks[i]).capabilities.heightMax &&
                FrameRateMax(GetMediaStreamInfo(s)) == InfoOf(s.tracks[i]).capabilities.frameRateMax
  {
    var info := GetMediaStreamInfo(s);
    if HasKind(s, Video) {
      var i: nat :| FirstOfKindAt(s.tracks, Video, i) && info.video.value == InfoOf(s.tracks[i]);
      assert HeightMax(info) == InfoOf(s.tracks[i]).capabilities.heightMax;
    }
  }

  /** A number that JavaScript reads as true: present and not 0. */
  predicate Truthy(x: Option<real>)
  {
    x.Some? && x.value != 0.0
  }

  // ---------------------------------------------------------------------------
  // Room url

  /** The parts of `window.location` the page reads. */
  datatype Location = Location(origin: string, pathname: string, href: string)

  /** A route parameter that JavaScript reads as true: present and not empty. */
  predicate IsSet(id: Option<string>)
  {
    id.Some? && id.value != ""
  }

  /** `href.replace(/\/$/, "")`: one trailing slash is dropped. */
  function TrimTrailingSlash(s: string): (r: string)
    ensures s == r || s == r + "/"
    ensures s != [] && s[|s| - 1] == '/' ==> s == r + "/"
    ensures s == [] || s[|s| - 1] != '/' ==> r == s
  {
    if s != [] && s[|s| - 1] == '/' then s[..|s| - 1] else s
  }

  /**
   * The base url: on a conversation page (`/path/to/<id>`) the origin followed
   * by the path without its last segment, elsewhere the whole href without one
   * trailing slash.
   */
  function BaseUrl(loc: Location, conversationId: Option<string>): (r: string)
    ensures IsSet(conversationId) ==>
              var i := JsString.LastIndexOf(loc.pathname, '/');
              r == loc.origin + (if i < 0 then "" else loc.pathname[..i])
    ensures !IsSet(conversationId) ==> loc.href == r || loc.href == r + "/"
    ensures !IsSet(conversationId) && loc.href != [] && loc.href[|loc.href| - 1] == '/' ==>
              r == loc.href[..|loc.href| - 1]
  {
    if IsSet(conversationId) then
      JsString.JoinWithoutLastPart(loc.pathname, '/');
      loc.origin + JsString.Join(JsString.InitParts(loc.pathname, '/'), '/')
    else
      var r := TrimTrailingSlash(loc.href);
      assert loc.href != [] && loc.href[|loc.href| - 1] == '/' ==> loc.href == r + "/";
      r
  }

  /**
   * The url of the room, as shared with the participants: for an id without
   * `/`, its last `/` separates the base url from the id.
   */
  function RoomUrl(baseUrl: string, conversationId: string): (r: string)
    ensures '/' !in conversationId ==>
              JsString.LastIndexOf(r, '/') == |baseUrl| && r[..|baseUrl|] == baseUrl && r[|baseUrl| + 1..] == conversationId
  {
    var r := baseUrl + "/" + conversationId;
    assert '/' !in conversationId ==> JsString.LastIndexOf(r, '/') == |baseUrl| by {
      if '/' !in conversationId {
        forall j | |baseUrl| < j < |r| ensures r[j] != '/' {
          assert r[j] == conversationId[j - |baseUrl| - 1];
        }
        JsString.LastIndexOfUnique(r, '/', |baseUrl|);
      }
    }
    r
  }

  /** On the page of a conversation the room url is the page's own url. */
  lemma {:induction false} RoomUrlOfConversationPage(origin: string, prefix: string, id: string, href: string)
    requires id != "" && '/' !in id
    ensures RoomUrl(BaseUrl(Location(origin, prefix + "/" + id, href), Some(id)), id) == origin + prefix + "/" + id
  {
    var pathname := prefix + "/" + id;
    forall j | |prefix| < j < |pathname| ensures pathname[j] != '/' {
      assert pathname[j] == id[j - |prefix| - 1];
    }
    JsString.LastIndexOfUnique(pathname, '/', |prefix|);
    assert pathname[..|prefix|] == prefix;
  }

  // ---------------------------------------------------------------------------
  // Snapshot file names

  /**
   * The file type of a snapshot: between the first `/` and the first `;` of
   * the data URL (`image/png;base64,...` gives `png`); "undefined" when the
   * media type before the first `;` has no `/`.
   */
  function SnapshotType(dataUrl: string): (t: string)
    ensures t == "undefined" || ('/' !in t && ';' !in t)
    ensures '/' !in JsString.Split(dataUrl, ';')[0] ==> t == "undefined"
  {
    var head := JsString.Split(dataUrl, ';')[0];
    var parts := JsString.Split(head, '/');
    if |parts| > 1 then
      SplitPartHasNoSeparator(head, ';', dataUrl, parts[1]);
      parts[1]
    else "undefined"
  }

  lemma SplitPartHasNoSeparator(head: string, sep: char, s: string, part: string)
    requires head == JsString.Split(s, sep)[0]
    requires part in JsString.Split(head, '/')
    ensures sep !in part
  {
    var parts := JsString.Split(head, '/');
    var k :| 0 <= k < |parts| && parts[k] == part;
    JsString.SplitPartAvoids(head, '/', k, sep);
  }

  /** A data URL as section 3 of RFC 2397 writes it, `data:<type>/<subtype>;...`, gives its subtype. */
  lemma SnapshotTypeOfDataUrl(mediaType: string, subtype: string, rest: string)
    requires '/' !in mediaType && ';' !in mediaType
    requires '/' !in subtype && ';' !in subtype
    ensures SnapshotType("data:" + mediaType + "/" + subtype + ";" + rest) == subtype
  {
    var scheme := "data:" + mediaType;
    var head := scheme + ['/'] + subtype;
    assert '/' !in scheme && ';' !in scheme;
    assert ';' !in head;
    assert "data:" + mediaType + "/" + subtype + ";" + rest == head + [';'] + rest;
    JsString.SplitAtFirst(head, ';', rest);
    JsString.SplitAtFirst(scheme, '/', subtype);
    assert JsString.Split(subtype, '/') == [subtype];
  }

  /**
   * `onSnapshot`'s file name: `snapshot_`, the date of the ISO time, `_`, its
   * time of day with `-` for `:`, then `.` and the type of the data URL.
   */
  function SnapshotName(dataUrl: string, isoTime: string): (name: string)
    ensures JsString.StartsWith(name, "snapshot_")
    ensures var t := "." + SnapshotType(dataUrl); |t| <= |name| && name[|name| - |t|..] == t
  {
    var stem := "snapshot_" + (JsString.Slice(isoTime, 0, 10) + "_"
                  + JsString.ReplaceAllChar(JsString.Slice(isoTime, 11, 19), ':', '-'));
    var t := "." + SnapshotType(dataUrl);
    assert (stem + t)[..9] == "snapshot_";
    assert (stem + t)[|stem|..] == t;
    stem + t
  }

  /**
   * For a data URL `data:<type>/<subtype>;...` and a time as `Date.toJSON`
   * writes it, `<date>T<hh>:<mm>:<ss>.<fraction>Z`, the name is
   * `snapshot_<date>_<hh>-<mm>-<ss>.<subtype>`.
   */
  lemma {:induction false} SnapshotNameOfIsoTime(mediaType: string, subtype: string, data: string,
                                                  date: string, hh: string, mm: string, ss: string, fraction: string)
    requires '/' !in mediaType && ';' !in mediaType
    requires '/' !in subtype && ';' !in subtype
    requires |date| == 10 && |hh| == 2 && |mm| == 2 && |ss| == 2
    requires ':' !in hh && ':' !in mm && ':' !in ss
    ensures SnapshotName("data:" + mediaType + "/" + subtype + ";" + data, date + "T" + hh + ":" + mm + ":" + ss + fraction)
            == "snapshot_" + (date + "_" + (hh + "-" + mm + "-" + ss)) + ("." + subtype)
  {
    var iso := date + "T" + hh + ":" + mm + ":" + ss + fraction;
    var dataUrl := "data:" + mediaType + "/" + subtype + ";" + data;
    SnapshotTypeOfDataUrl(mediaType, subtype, data);
    IsoTimeSlices(date, hh, mm, ss, fraction);
    TimeOfDayDashed(hh, mm, ss);
    assert SnapshotName(dataUrl, iso) == "snapshot_" + (iso[..10] + "_"
             + JsString.ReplaceAllChar(iso[11..19], ':', '-')) + ("." + SnapshotType(dataUrl));
  }

  lemma IsoTimeSlices(date: string, hh: string, mm: string, ss: string, fraction: string)
    requires |date| == 10 && |hh| == 2 && |mm| == 2 && |ss| == 2
    ensures var iso := date + "T" + hh + ":" + mm + ":" + ss + fraction;
            |iso| >= 19 && iso[..10] == date && iso[11..19] == hh + ":" + mm + ":" + ss
  {
  }

  lemma TimeOfDayDashed(hh: string, mm: string, ss: string)
    requires ':' !in hh && ':' !in mm && ':' !in ss
    ensures JsString.ReplaceAllChar(hh + ":" + mm + ":" + ss, ':', '-') == hh + "-" + mm + "-" + ss
  {
    JsString.ReplaceAllCharAbsent(hh, ':', '-');
    JsString.ReplaceAllCharAbsent(mm, ':', '-');
    JsString.ReplaceAllCharAbsent(ss, ':', '-');
    assert JsString.ReplaceAllChar(":", ':', '-') == "-";
    JsString.ReplaceAllCharConcat(hh, ":", ':', '-');
    JsString.ReplaceAllCharConcat(hh + ":", mm, ':', '-');
    JsString.ReplaceAllCharConcat(hh + ":" + mm, ":", ':', '-');
    JsString.ReplaceAllCharConcat(hh + ":" + mm + ":", ss, ':', '-');
  }

  // ---------------------------------------------------------------------------
  // The page's state

  type ParticipantId = nat
  type RemoteStreamId = nat
  type LocalStreamId = nat

  datatype StreamRef = Local(local: LocalStreamId) | Remote(remote: RemoteStreamId)

  /** One `shareData` call: the data, and the participant it is addressed to (`None`: everyone). */
  datatype Shared = Shared(data: string, to: Option<ParticipantId>)

  class HomeView {
    var remoteParticipants: set<ParticipantId>
    var remoteStreamsByParticipant: map<ParticipantId, set<RemoteStreamId>>
    var remoteStreams: set<RemoteStreamId>
    var mediaStreamInfos: map<StreamRef, MediaStreamInfo>
    var settingsDataChannelsByLocalStreams: map<LocalStreamId, set<Channel>>
    var settingsDataChannelByRemoteStreams: map<RemoteStreamId, Channel>
    /** Every media-stream information sent on a settings channel, oldest first. */
    var settingsSent: seq<(Channel, MediaStreamInfo)>
    /** Every settings channel `close()` was called on. */
    var closeRequested: set<Channel>
    var selectedStream: Option<LocalStreamId>
    var selectedRemoteStream: Option<RemoteStreamId>
    var resolutions: seq<real>
    var frameRates: seq<real>
    var nickname: string
    /** Whether the local participant has joined (`localParticipant` is set). */
    var joined: bool
    var sharedData: seq<Shared>
    var communicationStarted: bool
    var url: Option<string>
    /** Every snapshot handed to `saveAs`: the data URL and the file name. */
    var savedSnapshots: seq<(string, string)>

    /**
     * Every stream listed under a participant is a known remote stream, and
     * no stream is listed under two participants.
     */
    ghost predicate Valid()
      reads this
    {
      (forall p, s :: p in remoteStreamsByParticipant && s in remoteStreamsByParticipant[p] ==> s in remoteStreams) &&
      (forall p, q, s ::
         p in remoteStreamsByParticipant && q in remoteStreamsByParticipant &&
         s in remoteStreamsByParticipant[p] && s in remoteStreamsByParticipant[q]
         ==> p == q)
    }

    constructor (nickname: string)
      ensures Valid()
      ensures remoteParticipants == {} && remoteStreamsByParticipant == map[] && remoteStreams == {}
      ensures mediaStreamInfos == map[]
      ensures settingsDataChannelsByLocalStreams == map[] && settingsDataChannelByRemoteStreams == map[]
      ensures settingsSent == [] && closeRequested == {}
      ensures selectedStream == None && selectedRemoteStream == None
      ensures resolutions == RESOLUTIONS && frameRates == FRAME_RATES
      ensures this.nickname == nickname && !joined && sharedData == []
      ensures !communicationStarted && url == None && savedSnapshots == []
    {
      remoteParticipants, remoteStreamsByParticipant, remoteStreams := {}, map[], {};
      mediaStreamInfos := map[];
      settingsDataChannelsByLocalStreams, settingsDataChannelByRemoteStreams := map[], map[];
      settingsSent, closeRequested := [], {};
      selectedStream, selectedRemoteStream := None, None;
      resolutions, frameRates := RESOLUTIONS, FRAME_RATES;
      this.nickname, joined, sharedData := nickname, false, [];
      communicationStarted, url, savedSnapshots := false, None, [];
    }

    /** `doStoreRemoteStreamByParticipant`: the participant's set is created when missing. */
    method DoStoreRemoteStreamByParticipant(p: ParticipantId, s: RemoteStreamId)
      modifies this`remoteStreamsByParticipant, this`remoteStreams
      ensures p in remoteStreamsByParticipant
      ensures remoteStreamsByParticipant[p] ==
                (if p in old(remoteStreamsByParticipant) then old(remoteStreamsByParticipant)[p] else {}) + {s}
      ensures forall q :: q != p ==> (q in remoteStreamsByParticipant <==> q in old(remoteStreamsByParticipant))
      ensures forall q :: q != p && q in remoteStreamsByParticipant ==>
                remoteStreamsByParticipant[q] == old(remoteStreamsByParticipant)[q]
      ensures remoteStreams == old(remoteStreams) + {s}
      ensures old(Valid()) && (forall q :: q in old(remoteStreamsByParticipant) && q != p ==> s !in old(remoteStreamsByParticipant)[q])
              ==> Valid()
    {
      if p !in remoteStreamsByParticipant {
        remoteStreamsByParticipant := remoteStreamsByParticipant[p := {}];
      }
      remoteStreamsByParticipant := remoteStreamsByParticipant[p := remoteStreamsByParticipant[p] + {s}];
      remoteStreams := remoteStreams + {s};
    }

    /** `doRemoveMediaStream`: the participant's (possibly empty) set stays in the map. */
    method DoRemoveMediaStream(p: ParticipantId, s: RemoteStreamId)
      modifies this`remoteStreamsByParticipant, this`remoteStreams
      ensures remoteStreamsByParticipant ==
                if p in old(remoteStreamsByParticipant)
                then old(remoteStreamsByParticipant)[p := old(remoteStreamsByParticipant)[p] - {s}]
                else old(remoteStreamsByParticipant)
      ensures remoteStreams == old(remoteStreams) - {s}
      ensures s !in old(remoteStreams) && (p in old(remoteStreamsByParticipant) ==> s !in old(remoteStreamsByParticipant)[p])
              ==> remoteStreamsByParticipant == old(remoteStreamsByParticipant) && remoteStreams == old(remoteStreams)
      ensures old(Valid()) && (forall q :: q in old(remoteStreamsByParticipant) && q != p ==> s !in old(remoteStreamsByParticipant)[q])
              ==> Valid()
    {
      if p in remoteStreamsByParticipant {
        assert s !in remoteStreamsByParticipant[p] ==> remoteStreamsByParticipant[p] - {s} == remoteStreamsByParticipant[p];
        remoteStreamsByParticipant := remoteStreamsByParticipant[p := remoteStreamsByParticipant[p] - {s}];
      }
      assert s !in old(remoteStreams) ==> remoteStreams - {s} == remoteStreams;
      remoteStreams := remoteStreams - {s};
    }

    /** `doRemoveRemoteParticipant`: the participant, its entry and each of its streams go. */
    method DoRemoveRemoteParticipant(p: ParticipantId)
      modifies this`remoteParticipants, this`remoteStreamsByParticipant, this`remoteStreams
      ensures remoteParticipants == old(remoteParticipants) - {p}
      ensures remoteStreamsByParticipant == old(remoteStreamsByParticipant) - {p}
      ensures remoteStreams == old(remoteStreams) -
                (if p in old(remoteStreamsByParticipant) then old(remoteStreamsByParticipant)[p] else {})
      ensures old(Valid()) ==> Valid()
    {
      remoteParticipants := remoteParticipants - {p};
      var streams := if p in remoteStreamsByParticipant then remoteStreamsByParticipant[p] else {};
      remoteStreamsByParticipant := remoteStreamsByParticipant - {p};
      var rest := streams;
      while rest != {}
        invariant rest <= streams
        invariant remoteParticipants == old(remoteParticipants) - {p}
        invariant remoteStreamsByParticipant == old(remoteStreamsByParticipant) - {p}
        invariant remoteStreams == old(remoteStreams) - (streams - rest)
        decreases |rest|
      {
        var s :| s in rest;
        remoteStreams := remoteStreams - {s};
        rest := rest - {s};
      }
    }

    /** `onParticipantAdded`: the newcomer is recorded and sent our nickname once we have joined. */
    method OnParticipantAdded(p: ParticipantId)
      modifies this`remoteParticipants, this`sharedData
      ensures remoteParticipants == old(remoteParticipants) + {p}
      ensures sharedData == old(sharedData) + if joined then [Shared(EncodeNickname(nickname), Some(p))] else []
    {
      remoteParticipants := remoteParticipants + {p};
      if joined {
        sharedData := sharedData + [Shared(EncodeNickname(nickname), Some(p))];
      }
    }

    /** `onParticipantRemoved` for a remote participant. */
    method OnParticipantRemoved(p: ParticipantId)
      modifies this`remoteParticipants, this`remoteStreamsByParticipant, this`remoteStreams
      ensures remoteParticipants == old(remoteParticipants) - {p}
      ensures remoteStreamsByParticipant == old(remoteStreamsByParticipant) - {p}
      ensures remoteStreams == old(remoteStreams) -
                (if p in old(remoteStreamsByParticipant) then old(remoteStreamsByParticipant)[p] else {})
      ensures old(Valid()) ==> Valid()
    {
      DoRemoveRemoteParticipant(p);
    }

    /** The local participant has joined: our nickname goes to everyone. */
    method OnJoined()
      modifies this`joined, this`sharedData
      ensures joined
      ensures sharedData == old(sharedData) + [Shared(EncodeNickname(nickname), None)]
    {
      joined := true;
      sharedData := sharedData + [Shared(EncodeNickname(nickname), None)];
    }

    /** The `nickname` setter: shared with everyone once joined, and stored. */
    method SetNickname(value: string)
      modifies this`nickname, this`sharedData
      ensures nickname == value
      ensures sharedData == old(sharedData) + if joined then [Shared(EncodeNickname(value), None)] else []
    {
      if joined {
        sharedData := sharedData + [Shared(EncodeNickname(value), None)];
      }
      nickname := value;
    }

    /** `onStreamPublished`: the stream is stored and the communication has started. */
    method OnStreamPublished(p: ParticipantId, s: RemoteStreamId)
      modifies this`remoteStreamsByParticipant, this`remoteStreams, this`communicationStarted
      ensures p in remoteStreamsByParticipant
      ensures remoteStreamsByParticipant[p] ==
                (if p in old(remoteStreamsByParticipant) then old(remoteStreamsByParticipant)[p] else {}) + {s}
      ensures forall q :: q != p ==> (q in remoteStreamsByParticipant <==> q in old(remoteStreamsByParticipant))
      ensures forall q :: q != p && q in remoteStreamsByParticipant ==>
                remoteStreamsByParticipant[q] == old(remoteStreamsByParticipant)[q]
      ensures remoteStreams == old(remoteStreams) + {s}
      ensures communicationStarted
    {
      DoStoreRemoteStreamByParticipant(p, s);
      communicationStarted := true;
    }

    /** `onStreamUnpublished`: the stream is removed and its settings channel, if any, closed and forgotten. */
    method OnStreamUnpublished(p: ParticipantId, s: RemoteStreamId)
      modifies this`remoteStreamsByParticipant, this`remoteStreams
      modifies this`settingsDataChannelByRemoteStreams, this`closeRequested
      ensures remoteStreamsByParticipant ==
                if p in old(remoteStreamsByParticipant)
                then old(remoteStreamsByParticipant)[p := old(remoteStreamsByParticipant)[p] - {s}]
                else old(remoteStreamsByParticipant)
      ensures remoteStreams == old(remoteStreams) - {s}
      ensures closeRequested == old(closeRequested) +
                if s in old(settingsDataChannelByRemoteStreams) then {old(settingsDataChannelByRemoteStreams)[s]} else {}
      ensures settingsDataChannelByRemoteStreams == old(settingsDataChannelByRemoteStreams) - {s}
      ensures old(Valid()) && (forall q :: q in old(remoteStreamsByParticipant) && q != p ==> s !in old(remoteStreamsByParticipant)[q])
              ==> Valid()
    {
      DoRemoveMediaStream(p, s);
      if s in settingsDataChannelByRemoteStreams {
        closeRequested := closeRequested + {settingsDataChannelByRemoteStreams[s]};
      }
      settingsDataChannelByRemoteStreams := settingsDataChannelByRemoteStreams - {s};
    }

    /** `onopen` of the settings channel to a remote stream: kept for later messages. */
    method OnRemoteSettingsOpen(s: RemoteStreamId, ch: Channel)
      modifies this`settingsDataChannelByRemoteStreams
      ensures settingsDataChannelByRemoteStreams == old(settingsDataChannelByRemoteStreams)[s := ch]
    {
      settingsDataChannelByRemoteStreams := settingsDataChannelByRemoteStreams[s := ch];
    }

    /** `onmessage` of that channel: the remote stream's information replaces what was known. */
    method OnRemoteSettingsMessage(s: RemoteStreamId, info: MediaStreamInfo)
      modifies this`mediaStreamInfos
      ensures mediaStreamInfos == old(mediaStreamInfos)[Remote(s) := info]
    {
      mediaStreamInfos := mediaStreamInfos[Remote(s) := info];
    }

    /** `onclose` of that channel: both the channel and the information are forgotten. */
    method OnRemoteSettingsClose(s: RemoteStreamId)
      modifies this`settingsDataChannelByRemoteStreams, this`mediaStreamInfos
      ensures settingsDataChannelByRemoteStreams == old(settingsDataChannelByRemoteStreams) - {s}
      ensures mediaStreamInfos == old(mediaStreamInfos) - {Remote(s)}
    {
      settingsDataChannelByRemoteStreams := settingsDataChannelByRemoteStreams - {s};
      mediaStreamInfos := mediaStreamInfos - {Remote(s)};
    }

    /** The settings channels of a local stream; none when the stream has no set. */
    function SettingsChannels(ls: LocalStreamId): (r: set<Channel>)
      reads this
      ensures forall ch :: ch in r <==> ls in settingsDataChannelsByLocalStreams && ch in settingsDataChannelsByLocalStreams[ls]
    {
      if ls in settingsDataChannelsByLocalStreams then settingsDataChannelsByLocalStreams[ls] else {}
    }

    /** `notifyMediaStreamInfoChanged`: the information goes out once on every settings channel of the stream. */
    method NotifyMediaStreamInfoChanged(ls: LocalStreamId, info: MediaStreamInfo)
      modifies this`settingsSent
      ensures Broadcast(old(settingsSent), settingsSent, SettingsChannels(ls), info)
    {
      settingsSent := SendAll(settingsSent, SettingsChannels(ls), info);
    }

    /** `updateMediaStreamInfo`: the local stream's information is recomputed, stored and pushed. */
    method UpdateMediaStreamInfo(ls: LocalStreamId, stream: MediaStream)
      modifies this`mediaStreamInfos, this`settingsSent
      ensures mediaStreamInfos == old(mediaStreamInfos)[Local(ls) := GetMediaStreamInfo(stream)]
      ensures Broadcast(old(settingsSent), settingsSent, SettingsChannels(ls), GetMediaStreamInfo(stream))
    {
      var info := GetMediaStreamInfo(stream);
      mediaStreamInfos := mediaStreamInfos[Local(ls) := info];
      NotifyMediaStreamInfoChanged(ls, info);
    }

    /** `onopen` of a subscriber's settings channel: the channel joins the stream's set and gets the information at once. */
    method OnLocalSettingsOpen(ls: LocalStreamId, ch: Channel, stream: MediaStream)
      modifies this`settingsDataChannelsByLocalStreams, this`mediaStreamInfos, this`settingsSent
      ensures ls in settingsDataChannelsByLocalStreams
      ensures settingsDataChannelsByLocalStreams == old(settingsDataChannelsByLocalStreams)[ls :=
                (if ls in old(settingsDataChannelsByLocalStreams) then old(settingsDataChannelsByLocalStreams)[ls] else {}) + {ch}]
      ensures mediaStreamInfos == old(mediaStreamInfos)[Local(ls) := GetMediaStreamInfo(stream)]
      ensures Broadcast(old(settingsSent), settingsSent, settingsDataChannelsByLocalStreams[ls], GetMediaStreamInfo(stream))
    {
      if ls !in settingsDataChannelsByLocalStreams {
        settingsDataChannelsByLocalStreams := settingsDataChannelsByLocalStreams[ls := {}];
      }
      settingsDataChannelsByLocalStreams := settingsDataChannelsByLocalStreams[ls := settingsDataChannelsByLocalStreams[ls] + {ch}];
      UpdateMediaStreamInfo(ls, stream);
    }

    /** `onclose` of a subscriber's settings channel: it leaves the stream's set, if there is one. */
    method OnLocalSettingsClose(ls: LocalStreamId, ch: Channel)
      modifies this`settingsDataChannelsByLocalStreams
      ensures settingsDataChannelsByLocalStreams ==
                if ls in old(settingsDataChannelsByLocalStreams)
                then old(settingsDataChannelsByLocalStreams)[ls := old(settingsDataChannelsByLocalStreams)[ls] - {ch}]
                else old(settingsDataChannelsByLocalStreams)
    {
      if ls in settingsDataChannelsByLocalStreams {
        settingsDataChannelsByLocalStreams := settingsDataChannelsByLocalStreams[ls := settingsDataChannelsByLocalStreams[ls] - {ch}];
      }
    }

    /**
     * The capping in `getUserMedia`'s success handler: each list is capped
     * against its reported maximum, and left as it is when none is reported.
     */
    method OnUserMedia(info: MediaStreamInfo)
      modifies this`resolutions, this`frameRates
      ensures Truthy(HeightMax(info)) ==> resolutions == Capped(RESOLUTIONS, HeightMax(info).value)
      ensures !Truthy(HeightMax(info)) ==> resolutions == old(resolutions)
      ensures Truthy(FrameRateMax(info)) ==> frameRates == Capped(FRAME_RATES, FrameRateMax(info).value)
      ensures !Truthy(FrameRateMax(info)) ==> frameRates == old(frameRates)
    {
      var maxH := HeightMax(info);
      if maxH.Some? && maxH.value != 0.0 {
        resolutions := CapToMax(RESOLUTIONS, maxH.value);
      }
      var max := FrameRateMax(info);
      if max.Some? && max.value != 0.0 {
        frameRates := CapToMax(FRAME_RATES, max.value);
      }
    }

    /** `select`: a local stream, or else a remote one (or nothing); never both. */
    method Select(stream: Option<StreamRef>)
      modifies this`selectedStream, this`selectedRemoteStream
      ensures stream.Some? && stream.value.Local? ==>
                selectedStream == Some(stream.value.local) && selectedRemoteStream == None
      ensures stream.Some? && stream.value.Remote? ==>
                selectedStream == None && selectedRemoteStream == Some(stream.value.remote)
      ensures stream.None? ==> selectedStream == None && selectedRemoteStream == None
      ensures selectedStream.None? || selectedRemoteStream.None?
    {
      if stream.Some? && stream.value.Local? {
        selectedRemoteStream := None;
        selectedStream := Some(stream.value.local);
      } else {
        selectedRemoteStream := if stream.Some? then Some(stream.value.remote) else None;
        selectedStream := None;
      }
    }

    /** The room is ready: its url is the base url followed by the conversation's id. */
    method OnConversationReady(loc: Location, routeId: Option<string>, conversationId: string)
      modifies this`url
      ensures url == Some(RoomUrl(BaseUrl(loc, routeId), conversationId))
    {
      url := Some(RoomUrl(BaseUrl(loc, routeId), conversationId));
    }

    /** `onSnapshot`: the data URL is saved under its snapshot name. */
    method OnSnapshot(dataUrl: string, isoTime: string)
      modifies this`savedSnapshots
      ensures savedSnapshots == old(savedSnapshots) + [(dataUrl, SnapshotName(dataUrl, isoTime))]
    {
      savedSnapshots := savedSnapshots + [(dataUrl, SnapshotName(dataUrl, isoTime))];
    }
  }
}
