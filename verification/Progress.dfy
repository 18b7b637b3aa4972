/** The progress snapshot of a running operation and the frames that update it
    (internal/tasks/types.go, internal/tasks/hub.go:13-19). */
module Progress {
  import opened Text

  /** Task ids are ULIDs, which sort by value; numbers stand for them. */
  type TaskId = nat

  datatype OpState = Running | Succeeded | Failed | Canceled
  {
    /** `OperationState.IsTerminal`. */
    predicate IsTerminal() {
      !Running?
    }
  }

  datatype HostStatus = HostStatus(hostId: string, hostname: string, state: string, detail: string)

  datatype Event = Event(ts: nat, level: string, text: string)

  datatype Snapshot = Snapshot(
    taskId: TaskId,
    state: OpState,
    currentStep: string,
    current: Option<int>,
    total: Option<int>,
    detail: string,
    failureNote: string,
    hostStatuses: seq<HostStatus>,
    summary: seq<(string, string)>,
    events: seq<Event>)

  function Initial(taskId: TaskId): Snapshot {
    Snapshot(taskId, Running, "", None, None, "", "", [], [], [])
  }

  /** A frame replaces the snapshot or appends one event to it. */
  datatype Frame = StateFrame(snapshot: Snapshot) | EventFrame(event: Event)

  function Apply(s: Snapshot, f: Frame): Snapshot {
    match f
    case StateFrame(t) => t
    case EventFrame(e) => s.(events := s.events + [e])
  }

  function Fold(s: Snapshot, frames: seq<Frame>): Snapshot {
    if frames == [] then s
    else Apply(Fold(s, frames[..|frames| - 1]), frames[|frames| - 1])
  }

  lemma {:induction false} FoldAppend(s: Snapshot, a: seq<Frame>, b: seq<Frame>)
    ensures Fold(s, a + b) == Fold(Fold(s, a), b)
  {
    if b == [] {
      assert a + b == a;
    } else {
      assert (a + b)[..|a + b| - 1] == a + b[..|b| - 1];
      FoldAppend(s, a, b[..|b| - 1]);
    }
  }
}
