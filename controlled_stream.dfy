/**
 * The controlled stream (`ControlledStreamComponent`): the shared pointer over
 * a video. Every peer that points at the video opens an outbound data channel
 * to us on the `pointer` path and sends its position in native video pixels;
 * we keep the latest position per inbound channel, brought back into element
 * pixels. When we point ourselves, our position goes out on every open
 * outbound channel, with our nickname on every tenth frame.
 */
module ControlledStream {
  import opened Wrappers
  import JsMap
  import JsObject
  import opened StreamVideo
  import opened PointerGeometry
  import opened DataChannels

  /** A received pointer as the component stores it: an object of numeric fields. */
  type Pointer = map<string, real>

  /** The object sent on an outbound channel: a position and, sometimes, a nickname. */
  datatype Frame = Frame(left: real, top: real, nickname: Option<string>)

  /** A stored pointer holds exactly the two fields the message handler writes. */
  predicate PositionOnly(p: Pointer)
  {
    p.Keys == {"left", "top"}
  }

  /** The `{ left, top }` object built from a reversed position. */
  function Target(p: Point): (t: Pointer)
    ensures PositionOnly(t) && t["left"] == p.left && t["top"] == p.top
  {
    map["left" := p.left, "top" := p.top]
  }

  /** `Math.round`: the nearest integer, halves rounded up. */
  function Round(x: real): (r: int)
    ensures r as real - 0.5 <= x < r as real + 0.5
  {
    (x + 0.5).Floor
  }

  /**
   * The pointer's position within the element: client coordinates minus the
   * rounded corner of the element's bounding box. It is off the exact offset
   * by less than half a pixel on each axis.
   */
  function LocalPosition(clientX: real, clientY: real, rectLeft: real, rectTop: real): (p: Point)
    ensures -0.5 <= p.left - (clientX - rectLeft) < 0.5
    ensures -0.5 <= p.top - (clientY - rectTop) < 0.5
  {
    Point(clientX - Round(rectLeft) as real, clientY - Round(rectTop) as real)
  }

  /** The frame for the `counter`-th move at video position `v`: the nickname rides on every tenth. */
  function FrameFor(counter: nat, v: Point, nickname: string): (f: Frame)
    ensures f.left == v.left && f.top == v.top
    ensures f.nickname.Some? <==> counter % 10 == 0
    ensures f.nickname.Some? ==> f.nickname.value == nickname
  {
    Frame(v.left, v.top, if counter % 10 == 0 then Some(nickname) else None)
  }

  /** Out of any ten consecutive moves exactly one carries the nickname. */
  lemma {:induction false} OneNicknameInTen(start: nat, v: Point, nickname: string)
    ensures |set k | start <= k < start + 10 && FrameFor(k, v, nickname).nickname.Some?| == 1
  {
    var m := start + (10 - start % 10) % 10;
    assert m % 10 == 0;
    var s := set k | start <= k < start + 10 && FrameFor(k, v, nickname).nickname.Some?;
    forall k | k in s ensures k == m {
      assert k % 10 == 0;
    }
    assert m in s;
    assert s == {m};
  }

  class ControlledStreamView {
    /** Inbound channel to its peer's pointer, in the order the channels first spoke. */
    var pointerChannels: seq<(Channel, Pointer)>
    /** What the template renders: the pointers as of the last message. */
    var pointers: seq<Pointer>
    var videoInfo: VideoInfo
    var outboundDataChannels: set<Channel>
    var openDataChannels: set<Channel>
    var moveCounter: nat
    /** Every frame handed to `send`, with the channel it went out on. */
    var sent: seq<(Channel, Frame)>
    /** Every outbound channel `close()` was called on. */
    var closeRequested: set<Channel>

    /** One entry per channel, and each entry holds exactly a position. */
    ghost predicate Valid()
      reads this
    {
      JsMap.UniqueKeys(pointerChannels) &&
      forall c :: JsMap.Get(pointerChannels, c).Some? ==> PositionOnly(JsMap.Get(pointerChannels, c).value)
    }

    /** The initial state: no pointers, no channels, and a 1x1 element over a 1x1 video. */
    constructor ()
      ensures Valid()
      ensures pointerChannels == [] && pointers == []
      ensures videoInfo == VideoInfo(Box(1.0, 1.0, 1.0), Box(1.0, 1.0, 1.0))
      ensures outboundDataChannels == {} && openDataChannels == {} && moveCounter == 0
      ensures sent == [] && closeRequested == {}
    {
      pointerChannels := [];
      pointers := [];
      videoInfo := VideoInfo(Box(1.0, 1.0, 1.0), Box(1.0, 1.0, 1.0));
      outboundDataChannels := {};
      openDataChannels := {};
      moveCounter := 0;
      sent := [];
      closeRequested := {};
    }

    /** `onInfo`: the video tile reports new sizes. */
    method OnInfo(info: VideoInfo)
      modifies this`videoInfo
      ensures videoInfo == info
    {
      videoInfo := info;
    }

    /**
     * The `message` listener of an inbound channel: the received video position
     * is brought back into the element and merged over the channel's previous
     * pointer; the rendered list is refreshed from the map.
     */
    method OnMessage(ch: Channel, data: Point)
      requires Valid() && NonDegenerate(videoInfo)
      modifies this`pointerChannels, this`pointers
      ensures Valid()
      ensures var target := Reverse(videoInfo, data);
              var prev := JsMap.Get(old(pointerChannels), ch);
              var p := JsMap.Get(pointerChannels, ch);
              p.Some? && p.value["left"] == target.left && p.value["top"] == target.top &&
              (prev.Some? ==> p.value.Keys == prev.value.Keys + {"left", "top"} &&
                              forall k :: k in prev.value && k !in {"left", "top"} ==> p.value[k] == prev.value[k])
      ensures forall c :: c != ch ==> JsMap.Get(pointerChannels, c) == JsMap.Get(old(pointerChannels), c)
      ensures JsMap.Keys(pointerChannels) ==
              if ch in JsMap.Keys(old(pointerChannels)) then JsMap.Keys(old(pointerChannels))
              else JsMap.Keys(old(pointerChannels)) + [ch]
      ensures pointers == JsMap.Values(pointerChannels)
    {
      var before := pointerChannels;
      var prev := JsMap.Get(before, ch);
      var target := Target(Reverse(videoInfo, data));
      var base: Pointer := if prev.Some? then prev.value else map[];
      var merged := JsObject.Spread(base, target);
      pointerChannels := JsMap.Set(before, ch, merged);
      pointers := JsMap.Values(pointerChannels);
      forall c
        ensures JsMap.Get(pointerChannels, c) == if c == ch then Some(merged) else JsMap.Get(before, c)
      {
        JsMap.SetGet(before, ch, merged, c);
      }
      JsMap.SetKeys(before, ch, merged);
      JsMap.SetUnique(before, ch, merged);
    }

    /** The `close` listener of an inbound channel: its pointer goes; the rendered list is left as it was. */
    method OnInboundClose(ch: Channel)
      requires Valid()
      modifies this`pointerChannels
      ensures Valid()
      ensures pointerChannels == JsMap.Delete(old(pointerChannels), ch)
      ensures JsMap.Get(pointerChannels, ch) == None
      ensures forall c :: c != ch ==> JsMap.Get(pointerChannels, c) == JsMap.Get(old(pointerChannels), c)
    {
      pointerChannels := JsMap.Delete(pointerChannels, ch);
    }

    /** The `error` listener of an inbound channel: the same clean-up as `close`. */
    method OnInboundError(ch: Channel)
      requires Valid()
      modifies this`pointerChannels
      ensures Valid()
      ensures pointerChannels == JsMap.Delete(old(pointerChannels), ch)
      ensures JsMap.Get(pointerChannels, ch) == None
      ensures forall c :: c != ch ==> JsMap.Get(pointerChannels, c) == JsMap.Get(old(pointerChannels), c)
    {
      pointerChannels := JsMap.Delete(pointerChannels, ch);
    }

    /** The `broadcast` callback of `onPointerEnter`: a new outbound channel is stored. */
    method OnPointerEnterChannel(ch: Channel)
      modifies this`outboundDataChannels
      ensures outboundDataChannels == old(outboundDataChannels) + {ch}
    {
      outboundDataChannels := outboundDataChannels + {ch};
    }

    /** `onopen` of an outbound channel. */
    method OnOutboundOpen(ch: Channel)
      modifies this`openDataChannels
      ensures openDataChannels == old(openDataChannels) + {ch}
    {
      openDataChannels := openDataChannels + {ch};
    }

    /** `onclose` of an outbound channel: it leaves both sets. */
    method OnOutboundClose(ch: Channel)
      modifies this`outboundDataChannels, this`openDataChannels
      ensures outboundDataChannels == old(outboundDataChannels) - {ch}
      ensures openDataChannels == old(openDataChannels) - {ch}
    {
      outboundDataChannels := outboundDataChannels - {ch};
      openDataChannels := openDataChannels - {ch};
    }

    /** `onerror` of an outbound channel: the same clean-up as `onclose`. */
    method OnOutboundError(ch: Channel)
      modifies this`outboundDataChannels, this`openDataChannels
      ensures outboundDataChannels == old(outboundDataChannels) - {ch}
      ensures openDataChannels == old(openDataChannels) - {ch}
    {
      outboundDataChannels := outboundDataChannels - {ch};
      openDataChannels := openDataChannels - {ch};
    }

    /**
     * `onPointerMove`: the move is counted, the local position is carried into
     * the video frame and the resulting frame is sent once on every open channel.
     * `nickname` is the session's nickname.
     */
    method OnPointerMove(clientX: real, clientY: real, rectLeft: real, rectTop: real, nickname: string)
      requires NonDegenerate(videoInfo)
      modifies this`moveCounter, this`sent
      ensures moveCounter == old(moveCounter) + 1
      ensures Broadcast(old(sent), sent, openDataChannels,
                        FrameFor(moveCounter, Forward(videoInfo, LocalPosition(clientX, clientY, rectLeft, rectTop)), nickname))
    {
      moveCounter := moveCounter + 1;
      var local := LocalPosition(clientX, clientY, rectLeft, rectTop);
      sent := SendAll(sent, openDataChannels, FrameFor(moveCounter, Forward(videoInfo, local), nickname));
    }

    /** `onPointerLeave`: every outbound channel is closed and both sets are emptied. */
    method OnPointerLeave()
      modifies this`closeRequested, this`outboundDataChannels, this`openDataChannels
      ensures closeRequested == old(closeRequested) + old(outboundDataChannels)
      ensures outboundDataChannels == {} && openDataChannels == {}
    {
      var rest := outboundDataChannels;
      while rest != {}
        invariant outboundDataChannels == old(outboundDataChannels)
        invariant rest <= outboundDataChannels
        invariant closeRequested == old(closeRequested) + (outboundDataChannels - rest)
        decreases |rest|
      {
        var ch :| ch in rest;
        closeRequested := closeRequested + {ch};
        rest := rest - {ch};
      }
      openDataChannels := {};
      outboundDataChannels := {};
    }
  }
}
