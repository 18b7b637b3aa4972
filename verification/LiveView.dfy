/** The hub of internal/tasks/hub.go, the event stream and the log view of the browser
    together. */
module LiveView {
  import opened Progress
  import opened TaskHub
  import opened EventStream
  import opened Sse

  /** What a subscriber that joined after `joined` frames is sent: the snapshot, then the
      frames. */
  function SentFrom(initial: Snapshot, log: seq<Frame>, joined: nat): seq<Frame>
    requires joined <= |log|
  {
    [StateFrame(Fold(initial, log[..joined]))] + log[joined..]
  }

  /** After its first frames a subscriber knows the state as of that moment. */
  lemma FoldOfSent(initial: Snapshot, log: seq<Frame>, joined: nat, n: nat)
    requires joined <= |log| && 1 <= n <= 1 + |log| - joined
    ensures Fold(initial, SentFrom(initial, log, joined)[..n]) == Fold(initial, log[..joined + n - 1])
  {
    var snapshot := Fold(initial, log[..joined]);
    var more := log[joined..joined + n - 1];
    assert SentFrom(initial, log, joined)[..n] == [StateFrame(snapshot)] + more;
    FoldAppend(initial, [StateFrame(snapshot)], more);
    assert [StateFrame(snapshot)][..0] == [];
    FoldAppend(initial, log[..joined], more);
    assert log[..joined] + more == log[..joined + n - 1];
  }

  /** A log whose snapshots keep their events reaches every subscriber that way. */
  lemma SentGrows(initial: Snapshot, log: seq<Frame>, joined: nat)
    requires joined <= |log| && initial.events == [] && Growing(log, initial)
    ensures Growing(SentFrom(initial, log, joined), initial)
  {
    var sent := SentFrom(initial, log, joined);
    forall i | 0 <= i < |sent| && sent[i].StateFrame?
      ensures Fold(initial, sent[..i]).events <= sent[i].snapshot.events
    {
      if i > 0 {
        FoldOfSent(initial, log, joined, i);
        assert sent[i] == log[joined + i - 1];
      }
    }
  }

  lemma GrowingPrefix(frames: seq<Frame>, from: Snapshot, n: nat)
    requires n <= |frames| && Growing(frames, from)
    ensures Growing(frames[..n], from)
  {
    forall i | 0 <= i < n
      ensures frames[..n][..i] == frames[..i]
    {
    }
  }

  /** All that was ever sent to a subscriber begins what it would be sent by now. */
  lemma SentIsFrom(hub: Hub, sub: Subscription)
    requires hub.Valid() && sub in hub.All
    ensures sub.joined <= |hub.log| && sub.received <= sub.Sent() <= SentFrom(hub.initial, hub.log, sub.joined)
    ensures sub in hub.subs ==> sub.Sent() == SentFrom(hub.initial, hub.log, sub.joined)
  {
    assert Served(hub.initial, hub.log, sub.Sent(), sub.joined, sub.upTo);
    assert hub.log[sub.joined..sub.upTo] <= hub.log[sub.joined..];
  }

  /** What the log view shows once the first `n` frames have reached it. */
  lemma PrefixShowsTail(initial: Snapshot, log: seq<Frame>, joined: nat, n: nat, max: nat)
    requires joined <= |log| && initial.events == [] && Growing(log, initial) && max >= 1
    requires 1 <= n <= |SentFrom(initial, log, joined)|
    ensures View(SentFrom(initial, log, joined)[..n], max) == Last(Fold(initial, log[..joined + n - 1]).events, max)
  {
    SentGrows(initial, log, joined);
    GrowingPrefix(SentFrom(initial, log, joined), initial, n);
    TailOfGrowing(SentFrom(initial, log, joined)[..n], initial, max);
    FoldOfSent(initial, log, joined, n);
  }

  /** The view shows the tail of the events as they were when the last of the frames
      `handled` was published. */
  ghost predicate ShowsTail(initial: Snapshot, log: seq<Frame>, joined: nat, handled: seq<Frame>, max: nat) {
    handled != [] ==>
      && joined + |handled| - 1 <= |log|
      && View(handled, max) == Last(Fold(initial, log[..joined + |handled| - 1]).events, max)
  }

  /** Whatever part of the written text has arrived and however it was cut: the log view
      of a subscriber, live or dropped, is the tail of the hub's events as they were when
      the last frame that reached the browser was published. */
  lemma ViewIsHubTail(hub: Hub, sub: Subscription, signals: seq<Signal>, codec: Codec,
                      chunks: seq<string>, missing: string, max: nat)
    requires hub.Valid() && sub in hub.All && sub.received == DeliveredFrames(signals)
    requires codec.Sound() && Concat(chunks) + missing == Texts(Items(signals, 0, codec))
    requires max >= 1 && Growing(hub.log, hub.initial)
    ensures var handled := Handled(Feed("", chunks), codec);
            handled <= sub.received && ShowsTail(hub.initial, hub.log, sub.joined, handled, max)
  {
    SentIsFrom(hub, sub);
    ReceivedShowsTail(hub.initial, hub.log, sub.joined, sub.received, signals, codec, chunks, missing, max);
  }

  lemma ReceivedShowsTail(initial: Snapshot, log: seq<Frame>, joined: nat, received: seq<Frame>,
                          signals: seq<Signal>, codec: Codec, chunks: seq<string>, missing: string, max: nat)
    requires joined <= |log| && received <= SentFrom(initial, log, joined) && received == DeliveredFrames(signals)
    requires codec.Sound() && Concat(chunks) + missing == Texts(Items(signals, 0, codec))
    requires max >= 1 && initial.events == [] && Growing(log, initial)
    ensures var handled := Handled(Feed("", chunks), codec);
            handled <= received && ShowsTail(initial, log, joined, handled, max)
  {
    StreamPrefixDelivers(signals, codec, chunks, missing);
    BeginningShowsTail(initial, log, joined, Handled(Feed("", chunks), codec), received, max);
  }

  lemma BeginningShowsTail(initial: Snapshot, log: seq<Frame>, joined: nat, handled: seq<Frame>,
                           received: seq<Frame>, max: nat)
    requires joined <= |log| && handled <= received <= SentFrom(initial, log, joined)
    requires max >= 1 && initial.events == [] && Growing(log, initial)
    ensures ShowsTail(initial, log, joined, handled, max)
  {
    if handled != [] {
      assert handled == SentFrom(initial, log, joined)[..|handled|];
      PrefixShowsTail(initial, log, joined, |handled|, max);
    }
  }

  /** Once a live subscriber's channel is drained and the text has arrived, the view is the
      tail of the operation's events. */
  lemma ViewIsCurrent(hub: Hub, sub: Subscription, signals: seq<Signal>, codec: Codec, chunks: seq<string>, max: nat)
    requires hub.Valid() && sub in hub.subs && sub.queue == [] && sub.received == DeliveredFrames(signals)
    requires codec.Sound() && Concat(chunks) == Texts(Items(signals, 0, codec))
    requires max >= 1 && Growing(hub.log, hub.initial)
    ensures View(Handled(Feed("", chunks), codec), max) == Last(hub.state.events, max)
  {
    SentIsFrom(hub, sub);
    assert sub.Sent() == sub.received;
    StreamDeliversFrames(signals, codec, chunks);
    AllShowsTail(hub.initial, hub.log, sub.joined, max);
  }

  lemma AllShowsTail(initial: Snapshot, log: seq<Frame>, joined: nat, max: nat)
    requires joined <= |log| && max >= 1 && initial.events == [] && Growing(log, initial)
    ensures View(SentFrom(initial, log, joined), max) == Last(Fold(initial, log).events, max)
  {
    var sent := SentFrom(initial, log, joined);
    PrefixShowsTail(initial, log, joined, |sent|, max);
    assert sent[..|sent|] == sent && log[..|log|] == log;
  }
}
