/**
 * Data channels as the components see them: objects known by identity, and a
 * log of the messages sent on them, oldest first.
 */
module DataChannels {
  /** A data channel, known by identity only. */
  type Channel = nat

  /** The channels that received a message at or after position `from` of the log. */
  ghost function SentOn<M>(sent: seq<(Channel, M)>, from: nat): set<Channel>
  {
    set i | from <= i < |sent| :: sent[i].0
  }

  lemma SentOnAppend<M>(sent: seq<(Channel, M)>, from: nat, e: (Channel, M))
    requires from <= |sent|
    ensures SentOn(sent + [e], from) == SentOn(sent, from) + {e.0}
  {
    var s' := sent + [e];
    assert forall i :: from <= i < |sent| ==> s'[i] == sent[i];
    assert s'[|sent|] == e;
  }

  /**
   * `after` is the log `before` followed by the message `m` sent on every
   * channel of `chans`: as many new entries as channels, each carrying `m`,
   * no channel twice, and together they reach every channel of `chans` and no
   * other.
   */
  ghost predicate Broadcast<M>(before: seq<(Channel, M)>, after: seq<(Channel, M)>, chans: set<Channel>, m: M)
  {
    |after| == |before| + |chans| &&
    after[..|before|] == before &&
    (forall i :: |before| <= i < |after| ==> after[i].1 == m) &&
    (forall i, j :: |before| <= i < j < |after| ==> after[i].0 != after[j].0) &&
    SentOn(after, |before|) == chans
  }

  /** Sending on no channel leaves the log as it is. */
  lemma BroadcastNothing<M>(log: seq<(Channel, M)>, m: M)
    ensures Broadcast(log, log, {}, m)
  {
    assert log[..|log|] == log;
    assert SentOn(log, |log|) == {};
  }

  /** Sending on one more channel extends a broadcast to it. */
  lemma BroadcastStep<M>(before: seq<(Channel, M)>, after: seq<(Channel, M)>, chans: set<Channel>, m: M, ch: Channel)
    requires Broadcast(before, after, chans, m) && ch !in chans
    ensures Broadcast(before, after + [(ch, m)], chans + {ch}, m)
  {
    var after' := after + [(ch, m)];
    assert after'[..|before|] == after[..|before|];
    forall i | |before| <= i < |after|
      ensures after'[i].0 != ch
    {
      assert after[i].0 in SentOn(after, |before|);
    }
    SentOnAppend(after, |before|, (ch, m));
  }

  /**
   * `channels.forEach((dc) => dc.send(m))`: the log after sending `m` once on
   * every channel of `chans`, in some order of the set.
   */
  method SendAll<M>(log: seq<(Channel, M)>, chans: set<Channel>, m: M) returns (out: seq<(Channel, M)>)
    ensures Broadcast(log, out, chans, m)
  {
    out := log;
    var rest := chans;
    ghost var done: set<Channel> := {};
    BroadcastNothing(log, m);
    while rest != {}
      invariant done + rest == chans && done !! rest
      invariant Broadcast(log, out, done, m)
      decreases |rest|
    {
      var ch :| ch in rest;
      BroadcastStep(log, out, done, m, ch);
      out := out + [(ch, m)];
      rest := rest - {ch};
      done := done + {ch};
    }
  }
}
