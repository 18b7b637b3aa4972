/** The per-task publish/subscribe hub of internal/tasks/hub.go. Each method is one
    critical section under the hub's mutex, so any interleaving of goroutines is some
    sequence of these calls; `Valid` is what every one of them keeps. */
module TaskHub {
  import opened Progress

  const SUBSCRIBER_BUFFER := 256

  /** The snapshot every hub starts with. */
  type NewTask = s: Snapshot | s == Initial(s.taskId) witness Initial(0)

  /** A subscriber's buffered channel. */
  class Subscription {
    var queue: seq<Frame>
    var open: bool
    /** Frames the reader has taken off the channel. */
    ghost var received: seq<Frame>
    /** How many frames the hub had published when the subscriber joined, and up to
        which published frame it was served. */
    ghost var joined: nat
    ghost var upTo: nat

    constructor (ghost at: nat)
      ensures queue == [] && open && received == [] && joined == upTo == at
    {
      queue, open := [], true;
      received, joined, upTo := [], at, at;
    }

    /** The non-blocking send: refused when the buffer is full. */
    method TrySend(f: Frame) returns (sent: bool)
      requires open
      modifies `queue, `upTo
      ensures sent <==> |old(queue)| < SUBSCRIBER_BUFFER
      ensures queue == if sent then old(queue) + [f] else old(queue)
      ensures upTo == if sent then old(upTo) + 1 else old(upTo)
    {
      sent := |queue| < SUBSCRIBER_BUFFER;
      if sent {
        queue := queue + [f];
        upTo := upTo + 1;
      }
    }

    /** Closing a closed channel panics. */
    method Close()
      requires open
      modifies `open
      ensures !open
    {
      open := false;
    }

    /** Every frame ever put on the channel. */
    ghost function Sent(): seq<Frame>
      reads this
    {
      received + queue
    }
  }

  /** What a subscriber has been sent: the snapshot at the moment it joined, then every
      frame published while it was subscribed, without a gap. */
  ghost predicate Served(initial: Snapshot, log: seq<Frame>, sent: seq<Frame>, joined: nat, upTo: nat) {
    && joined <= upTo <= |log|
    && sent == [StateFrame(Fold(initial, log[..joined]))] + log[joined..upTo]
  }

  /** Appending a frame changes nothing a subscriber was already sent. */
  lemma ServedExtends(initial: Snapshot, log: seq<Frame>, f: Frame, sent: seq<Frame>, joined: nat, upTo: nat)
    requires Served(initial, log, sent, joined, upTo)
    ensures Served(initial, log + [f], sent, joined, upTo)
    ensures upTo == |log| ==> Served(initial, log + [f], sent + [f], joined, upTo + 1)
  {
    assert (log + [f])[..joined] == log[..joined];
    assert (log + [f])[joined..upTo] == log[joined..upTo];
    if upTo == |log| {
      assert (log + [f])[joined..upTo + 1] == log[joined..upTo] + [f];
    }
  }

  lemma FrontMoved(received: seq<Frame>, queue: seq<Frame>)
    requires queue != []
    ensures (received + [queue[0]]) + queue[1..] == received + queue
  {
  }

  class Hub {
    var state: Snapshot
    var subs: set<Subscription>
    var closed: bool
    /** Whether `closeCh` is closed, and the teardown goroutines still waiting. */
    var closeSignaled: bool
    var teardowns: nat

    ghost const initial: NewTask
    /** Every frame published, in order, and every subscriber there ever was. */
    ghost var log: seq<Frame>
    ghost var All: set<Subscription>

    ghost predicate SubsValid()
      reads this, All
    {
      && subs <= All
      && (closed ==> subs == {})
      && forall s :: s in All ==>
           && Served(initial, log, s.Sent(), s.joined, s.upTo) && |s.queue| <= SUBSCRIBER_BUFFER
           && (s.open <==> s in subs) && (s in subs ==> s.upTo == |log|)
    }

    ghost predicate Valid()
      reads this, All
    {
      SubsValid() && state == Fold(initial, log)
    }

    constructor (taskId: TaskId)
      ensures Valid() && fresh(this) && All == {} && log == []
      ensures state == Initial(taskId) && !closed && !closeSignaled && teardowns == 0
      ensures state.taskId == taskId && state.state.Running? && state.current.None? && state.total.None?
      ensures state.currentStep == state.detail == state.failureNote == ""
      ensures state.hostStatuses == [] && state.summary == [] && state.events == []
    {
      state := Initial(taskId);
      subs, closed, closeSignaled, teardowns := {}, false, false, 0;
      initial := Initial(taskId);
      log, All := [], {};
    }

    method Subscribe() returns (s: Subscription)
      requires Valid()
      modifies this`subs, this`All
      ensures Valid() && fresh(s)
      ensures closed ==> !s.open && s.queue == [] && subs == old(subs) && All == old(All)
      ensures !closed ==>
                && subs == old(subs) + {s} && All == old(All) + {s}
                && s.queue == [StateFrame(state)] && s.received == []
    {
      s := new Subscription(|log|);
      if closed {
        s.Close();
        return;
      }
      subs := subs + {s};
      All := All + {s};
      s.queue := [StateFrame(state)];
      assert log[..|log|] == log;
    }

    /** The function `Subscribe` hands out; safe to call any number of times. */
    method Unsubscribe(s: Subscription)
      requires Valid() && s in All
      modifies this`subs, s`open
      ensures Valid() && s !in subs && !s.open
      ensures subs == old(subs) - {s}
      ensures s !in old(subs) ==> s.open == old(s.open)
    {
      if s !in subs {
        return;
      }
      subs := subs - {s};
      s.Close();
    }

    /** The reader takes the next frame; `none` on an empty channel. */
    method Receive(s: Subscription) returns (none: bool, f: Frame)
      requires Valid() && s in All
      modifies s`queue, s`received
      ensures Valid()
      ensures none <==> old(s.queue) == []
      ensures !none ==> f == old(s.queue)[0] && s.queue == old(s.queue)[1..] && s.received == old(s.received) + [f]
      ensures none ==> s.queue == old(s.queue) && s.received == old(s.received)
    {
      none := s.queue == [];
      f := EventFrame(Event(0, "", ""));
      if !none {
        f := s.queue[0];
        s.queue := s.queue[1..];
        s.received := s.received + [f];
        FrontMoved(old(s.received), old(s.queue));
      }
    }

    /** The loop of `fanout`: hands `f` to every subscriber and drops those whose buffer
        is full. */
    method Deliver(f: Frame)
      requires forall s :: s in subs ==> s.open
      modifies this`subs, subs
      ensures subs == set s | s in old(subs) && |old(s.queue)| < SUBSCRIBER_BUFFER
      ensures forall s :: s in old(subs) ==>
                && s.received == old(s.received) && s.joined == old(s.joined)
                && if |old(s.queue)| < SUBSCRIBER_BUFFER
                   then s.queue == old(s.queue) + [f] && s.upTo == old(s.upTo) + 1 && s.open
                   else s.queue == old(s.queue) && s.upTo == old(s.upTo) && !s.open
    {
      var todo := subs;
      while todo != {}
        invariant todo <= subs <= old(subs)
        invariant forall s :: s in todo ==> s.queue == old(s.queue) && s.upTo == old(s.upTo) && s.open
        invariant forall s :: s in old(subs) - todo ==>
                    if |old(s.queue)| < SUBSCRIBER_BUFFER
                    then s in subs && s.queue == old(s.queue) + [f] && s.upTo == old(s.upTo) + 1 && s.open
                    else s !in subs && s.queue == old(s.queue) && s.upTo == old(s.upTo) && !s.open
        invariant forall s :: s in old(subs) ==> s.received == old(s.received) && s.joined == old(s.joined)
        decreases todo
      {
        var s :| s in todo;
        todo := todo - {s};
        var sent := s.TrySend(f);
        if !sent {
          subs := subs - {s};
          s.Close();
        }
      }
    }

    /** `fanout`. A dropped subscriber was served up to the frame before `f`. */
    method Fanout(f: Frame)
      requires SubsValid() && !closed
      modifies this`subs, this`log, subs
      ensures SubsValid() && log == old(log) + [f]
      ensures forall s :: s in old(subs) ==> s.upTo == |if s in subs then log else old(log)|
      ensures subs == set s | s in old(subs) && |old(s.queue)| < SUBSCRIBER_BUFFER
      ensures forall s :: s in old(subs) ==>
                s.queue == (if s in subs then old(s.queue) + [f] else old(s.queue)) && s.received == old(s.received)
    {
      log := log + [f];
      Deliver(f);
      forall s | s in All
        ensures Served(initial, log, s.Sent(), s.joined, s.upTo)
      {
        ServedExtends(initial, old(log), f, old(s.Sent()), s.joined, old(s.upTo));
        assert s.received + (old(s.queue) + [f]) == old(s.Sent()) + [f];
      }
    }

    /** So what a dropped subscriber was sent folds to the state just before the frame that
        found its buffer full. */
    lemma DroppedReplay(s: Subscription, before: seq<Frame>, f: Frame)
      requires Valid() && s in All && log == before + [f] && s.upTo == |before|
      ensures s.Sent() != [] && s.Sent()[0].StateFrame?
      ensures Fold(s.Sent()[0].snapshot, s.Sent()[1..]) == Fold(initial, before)
    {
      Replay(s);
      assert log[..|before|] == before;
    }

    /** `PublishState`: a replaced snapshot. */
    method PublishState(next: Snapshot)
      requires Valid()
      modifies this`state, this`subs, this`log, subs
      ensures Valid()
      ensures log == if closed then old(log) else old(log) + [StateFrame(next)]
      ensures closed ==> state == old(state) && subs == old(subs)
      ensures !closed ==> state == next
    {
      if closed {
        return;
      }
      state := next;
      Fanout(StateFrame(state));
      assert log[..|log| - 1] == old(log);
    }

    /** `MutateState`: an in-place change of the snapshot. */
    method MutateState(fn: Snapshot -> Snapshot)
      requires Valid()
      modifies this`state, this`subs, this`log, subs
      ensures Valid()
      ensures log == if closed then old(log) else old(log) + [StateFrame(fn(old(state)))]
      ensures closed ==> state == old(state) && subs == old(subs)
      ensures !closed ==> state == fn(old(state))
    {
      if closed {
        return;
      }
      state := fn(state);
      Fanout(StateFrame(state));
      assert log[..|log| - 1] == old(log);
    }

    /** `PublishEvent`; `now` stamps an event that has no time. */
    method PublishEvent(event: Event, now: nat)
      requires Valid()
      modifies this`state, this`subs, this`log, subs
      ensures Valid()
      ensures var e := if event.ts == 0 then event.(ts := now) else event;
              log == if closed then old(log) else old(log) + [EventFrame(e)]
      ensures var e := if event.ts == 0 then event.(ts := now) else event;
              state == if closed then old(state) else old(state).(events := old(state).events + [e])
      ensures closed ==> subs == old(subs)
    {
      if closed {
        return;
      }
      var e := event;
      if e.ts == 0 {
        e := e.(ts := now);
      }
      state := state.(events := state.events + [e]);
      Fanout(EventFrame(e));
      assert log[..|log| - 1] == old(log);
    }

    /** `CloseAfterTerminal`: publishes the final snapshot and leaves a teardown waiting.
        It is a no-op exactly when the hub is closed: a second call inside the grace
        period publishes again and leaves a second teardown. */
    method CloseAfterTerminal(final: Snapshot)
      requires Valid()
      modifies this`state, this`subs, this`log, this`teardowns, subs
      ensures Valid()
      ensures log == if closed then old(log) else old(log) + [StateFrame(final)]
      ensures teardowns == if closed then old(teardowns) else old(teardowns) + 1
      ensures closed ==> state == old(state) && subs == old(subs)
      ensures !closed ==> state == final
    {
      if closed {
        return;
      }
      state := final;
      Fanout(StateFrame(state));
      assert log[..|log| - 1] == old(log);
      teardowns := teardowns + 1;
    }

    /** A teardown goroutine: its timer fired, or `closeCh` was closed. */
    method Teardown()
      requires Valid() && teardowns > 0
      modifies this`subs, this`closed, this`teardowns, subs
      ensures Valid() && closed && teardowns == old(teardowns) - 1
      ensures forall s :: s in All ==> !s.open && s.Sent() == old(s.Sent())
    {
      teardowns := teardowns - 1;
      CloseAll();
    }

    /** `Shutdown`: a second call would close `closeCh` twice. */
    method Shutdown()
      requires Valid() && !closeSignaled
      modifies this`subs, this`closed, this`closeSignaled, subs
      ensures Valid() && closed && closeSignaled
      ensures forall s :: s in All ==> !s.open && s.Sent() == old(s.Sent())
    {
      closeSignaled := true;
      CloseAll();
    }

    /** `shutdown`: closes each remaining channel once. */
    method CloseAll()
      requires Valid()
      modifies this`subs, this`closed, subs
      ensures Valid() && closed && subs == {}
      ensures forall s :: s in All ==> !s.open && s.Sent() == old(s.Sent())
    {
      if closed {
        return;
      }
      closed := true;
      var todo := subs;
      while todo != {}
        invariant todo <= subs == old(subs) && closed
        invariant forall s :: s in todo ==> s.open
        invariant forall s :: s in old(subs) - todo ==> !s.open
        invariant forall s :: s in old(subs) ==>
                    s.queue == old(s.queue) && s.received == old(s.received)
                    && s.joined == old(s.joined) && s.upTo == old(s.upTo)
        decreases todo
      {
        var s :| s in todo;
        todo := todo - {s};
        s.Close();
      }
      subs := {};
      forall s | s in All
        ensures !s.open && Served(initial, log, s.Sent(), s.joined, s.upTo) && |s.queue| <= SUBSCRIBER_BUFFER
      {
        assert old(Served(initial, log, s.Sent(), s.joined, s.upTo));
        assert s.Sent() == old(s.Sent());
      }
    }

    /** A live subscriber that folds everything it was sent, from the snapshot it was sent
        first, has the hub's current state. */
    lemma LiveReplay(s: Subscription)
      requires Valid() && s in subs
      ensures s.Sent() != [] && s.Sent()[0].StateFrame?
      ensures Fold(s.Sent()[0].snapshot, s.Sent()[1..]) == state
    {
      Replay(s);
      assert log[..|log|] == log;
    }

    /** Any subscriber, live or dropped, saw a gapless run of frames whose fold is the
        state after the last frame it was served. */
    lemma Replay(s: Subscription)
      requires Valid() && s in All
      ensures s.Sent() != [] && s.Sent()[0].StateFrame?
      ensures s.Sent()[1..] == log[s.joined..s.upTo]
      ensures Fold(s.Sent()[0].snapshot, s.Sent()[1..]) == Fold(initial, log[..s.upTo])
    {
      assert log[..s.upTo] == log[..s.joined] + log[s.joined..s.upTo];
      FoldAppend(initial, log[..s.joined], log[s.joined..s.upTo]);
    }
  }
}
