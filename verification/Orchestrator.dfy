/** The operation manager (internal/tasks/orchestrator.go, recovery.go) as a step relation.
    Each step is one atomic action of one goroutine: a mutex operation, a store
    transaction, or a critical section of a hub. Any interleaving of dispatches, runs,
    cancellations, shutdowns and crashes is some list of steps. */
module Orchestrator {
  import opened Text
  import opened Progress
  import opened History

  /** Where a dispatch, and the run it spawns, has got to between taking the cluster's
      lock and releasing it. */
  datatype Pc =
    | Locked
    | Drawn(id: TaskId)
    | Inserted(id: TaskId)
    | Executing(id: TaskId)
    | Returned(id: TaskId, err: Option<string>)
    | Snapped(id: TaskId, err: Option<string>, snap: Snapshot)
    | Decided(id: TaskId, final: Snapshot)
    | Recorded(id: TaskId, final: Snapshot)
    | Closed(id: TaskId)
    | Swept(id: TaskId)
  {
    /** The row was inserted and its final update was not attempted yet. */
    predicate Unsettled() {
      Inserted? || Executing? || Returned? || Snapped? || Decided?
    }

    /** The run is registered and its hub was not closed by the run yet. */
    predicate Registered() {
      Executing? || Returned? || Snapped? || Decided? || Recorded?
    }
  }

  datatype Thread = Thread(cluster: Cluster, pc: Pc)

  /** A `runState`: the hub's snapshot and `closed` flag, whether `closeCh` was closed,
      whether the context is canceled, and whether a canceller, or the manager's shutdown,
      is about to act. `final` is what the run called CloseAfterTerminal with, once it did. */
  datatype RunInfo = RunInfo(
    hub: Snapshot, closed: bool, signaled: bool, stopping: bool, shutting: bool, canceled: bool,
    final: Option<Snapshot>)

  datatype Phase = Down | Recovering(todo: set<TaskId>) | Up

  /** `rows` survives a crash, everything above it does not. The rest is bookkeeping:
      the ids drawn so far and by which thread, the ids that ever had a row, and whether
      every update of an existing row succeeded since the process came up. */
  datatype State = State(
    phase: Phase,
    locks: set<Cluster>,
    threads: map<nat, Thread>,
    runs: map<TaskId, RunInfo>,
    rows: Rows,
    drawn: map<TaskId, nat>,
    everRows: set<TaskId>,
    recorded: bool)

  const INITIAL := State(Down, {}, map[], map[], map[], map[], {}, true)

  /** The actions of one dispatch and of the run it spawns, in program order. */
  datatype Action =
    | NoId
    | DrawId(id: TaskId)
    | InsertFails
    | InsertRow(at: nat)
    | Spawn
    | Return(err: Option<string>)
    | Panic(value: string)
    | Snap
    | Decide
    | UpdateRow
    | UpdateFails
    | CloseHub
    | SweepRows(kept: set<TaskId>)
    | SweepFails
    | Unlock

  /** What others do to a registered run: the executor and what it leaves running publish
      frames, callers cancel, the grace period ends, the manager shuts down, which cancels
      the run and then shuts its hub. */
  datatype RunEvent =
    | Publish(frame: Frame)
    | CheckCancel
    | FireCancel
    | TearDown
    | RemoveRun
    | ShutRun
    | ShutHub

  datatype Step =
    | TakeLock(t: nat, cluster: Cluster)
    | Act(t: nat, id: TaskId, action: Action)
    | OnRun(id: TaskId, event: RunEvent)
    | RecordImmediate(id: TaskId, row: Row)
    | Clear(before: nat)
    | Crash
    | Boot
    | RecoverRow(id: TaskId)
    | RecoverFails
    | Serve

  /** `id` is the task id drawn by thread `t`, once it has one. */
  ghost predicate CanAct(s: State, t: nat, id: TaskId, action: Action) {
    && s.phase.Up? && t in s.threads
    && var pc := s.threads[t].pc;
       && (!pc.Locked? ==> pc.id == id)
       && match action
          case NoId => pc.Locked?
          // Fresh ids are what ULIDs are assumed to give.
          case DrawId(newId) => pc.Locked? && newId !in s.drawn
          case InsertFails => pc.Drawn?
          case InsertRow(at) => pc.Drawn? && id !in s.rows
          case Spawn => pc.Inserted?
          case Return(err) => pc.Executing?
          case Panic(value) => pc.Executing?
          case Snap => pc.Returned? && id in s.runs
          case Decide => pc.Snapped? && id in s.runs
          case UpdateRow => pc.Decided? && id in s.rows
          case UpdateFails => pc.Decided?
          case CloseHub => pc.Recorded? && id in s.runs
          case SweepRows(kept) => pc.Closed? && SweptTo(s.rows, kept)
          case SweepFails => pc.Closed?
          case Unlock => pc.Swept?
  }

  ghost predicate Guard(s: State, step: Step) {
    match step
    case TakeLock(t, c) => s.phase.Up? && t !in s.threads && c !in s.locks
    case Act(t, id, action) => CanAct(s, t, id, action)
    case OnRun(id, event) =>
      && s.phase.Up? && id in s.runs
      && (event.CheckCancel? ==> !s.runs[id].hub.state.IsTerminal())
      && (event.FireCancel? ==> s.runs[id].stopping)
      && (event.TearDown? || event.RemoveRun? ==> s.runs[id].final.Some?)
      && (event.ShutHub? ==> s.runs[id].shutting && !s.runs[id].signaled)
    case RecordImmediate(id, row) => s.phase.Up? && id !in s.drawn
    case Clear(before) => s.phase.Up?
    case Crash => true
    case Boot => s.phase.Down?
    case RecoverRow(id) => s.phase.Recovering? && id in s.phase.todo && id in s.rows
    case RecoverFails => s.phase.Recovering?
    case Serve => s.phase.Recovering? && s.phase.todo == {}
  }

  /** The `switch` of `executeRun` that settles a run's final snapshot. */
  function Outcome(snap: Snapshot, id: TaskId, canceled: bool, err: Option<string>): Snapshot {
    var s := snap.(taskId := id);
    if canceled then
      s.(state := Canceled, failureNote := if s.failureNote == "" then "canceled" else s.failureNote)
    else if err.Some? then
      s.(state := Failed, failureNote := if s.failureNote == "" then err.value else s.failureNote)
    else
      s.(state := Succeeded)
  }

  /** The mutator of `executeRun`'s history update. */
  function FinalRow(r: Row, final: Snapshot): Row {
    r.(status := final.state, failureNote := final.failureNote, result := Some(ResultOf(final)))
  }

  function Move(s: State, t: nat, pc: Pc): State
    requires t in s.threads
  {
    s.(threads := s.threads[t := s.threads[t].(pc := pc)])
  }

  function Release(s: State, t: nat): State
    requires t in s.threads
  {
    s.(threads := s.threads - {t}, locks := s.locks - {s.threads[t].cluster})
  }

  ghost function DoAct(s: State, t: nat, id: TaskId, action: Action): State
    requires CanAct(s, t, id, action)
  {
    var pc := s.threads[t].pc;
    match action
    case NoId => Release(s, t)
    case DrawId(newId) => Move(s.(drawn := s.drawn[newId := t]), t, Drawn(newId))
    case InsertFails => Release(s, t)
    case InsertRow(at) =>
      Move(s.(rows := s.rows[id := Row(s.threads[t].cluster, at, Running, "", None)],
              everRows := s.everRows + {id}), t, Inserted(id))
    case Spawn =>
      Move(s.(runs := s.runs[id := Started(id)]), t, Executing(id))
    case Return(err) => Move(s, t, Returned(id, err))
    case Panic(value) => Move(s, t, Returned(id, Some("executor panicked: " + value)))
    case Snap => Move(s, t, Snapped(id, pc.err, s.runs[id].hub))
    case Decide => Move(s, t, Decided(id, Outcome(pc.snap, id, s.runs[id].canceled, pc.err)))
    case UpdateRow => Move(s.(rows := s.rows[id := FinalRow(s.rows[id], pc.final)]), t, Recorded(id, pc.final))
    case UpdateFails => Move(s.(recorded := s.recorded && id !in s.rows), t, Recorded(id, pc.final))
    case CloseHub => Move(s.(runs := s.runs[id := HubClosed(s.runs[id], pc.final)]), t, Closed(id))
    case SweepRows(kept) => Move(s.(rows := Restrict(s.rows, kept)), t, Swept(id))
    case SweepFails => Move(s, t, Swept(id))
    case Unlock => Release(s, t)
  }

  function Started(id: TaskId): RunInfo {
    RunInfo(Initial(id), false, false, false, false, false, None)
  }

  /** `CloseAfterTerminal`, a no-op on a closed hub. */
  function HubClosed(r: RunInfo, final: Snapshot): RunInfo {
    r.(final := Some(final), hub := if r.closed then r.hub else final)
  }

  function Told(r: RunInfo, event: RunEvent): RunInfo {
    match event
    case Publish(f) => if r.closed then r else r.(hub := Apply(r.hub, f))
    case CheckCancel => r.(stopping := true)
    case FireCancel => r.(canceled := true)
    case TearDown => r.(closed := true)
    case RemoveRun => r
    case ShutRun => r.(shutting := true, canceled := true)
    case ShutHub => r.(signaled := true, closed := true)
  }

  ghost function Do(s: State, step: Step): State
    requires Guard(s, step)
  {
    match step
    case TakeLock(t, c) => s.(locks := s.locks + {c}, threads := s.threads[t := Thread(c, Locked)])
    case Act(t, id, action) => DoAct(s, t, id, action)
    case OnRun(id, event) =>
      s.(runs := if event.RemoveRun? then s.runs - {id} else s.runs[id := Told(s.runs[id], event)])
    case RecordImmediate(id, row) =>
      var row' := if row.status.IsTerminal() then row else row.(status := Succeeded);
      s.(rows := s.rows[id := row'], drawn := s.drawn[id := 0], everRows := s.everRows + {id})
    case Clear(before) =>
      s.(rows := Restrict(s.rows, NotOlder(s.rows, before)))
    case Crash => s.(phase := Down, locks := {}, threads := map[], runs := map[])
    case Boot => s.(phase := Recovering(RunningIds(s.rows)))
    case RecoverRow(id) =>
      s.(rows := s.rows[id := RecoveredRow(s.rows[id])], phase := Recovering(s.phase.todo - {id}))
    case RecoverFails => s.(phase := Down)
    case Serve => s.(phase := Up, recorded := true)
  }

  ghost function RunningIds(rows: Rows): set<TaskId> {
    set id | id in rows && rows[id].status.Running?
  }

  // ----- Invariants -----

  /** A lock is held exactly while one thread, and no more than one, is in flight on the
      cluster. */
  ghost predicate LocksOk(locks: set<Cluster>, threads: map<nat, Thread>) {
    && locks == (set t | t in threads :: threads[t].cluster)
    && forall t, u :: t in threads && u in threads && threads[t].cluster == threads[u].cluster ==> t == u
  }

  /** Rows and runs belong to drawn ids; nothing runs while the process is down. */
  ghost predicate GlobalOk(s: State) {
    && s.rows.Keys <= s.everRows <= s.drawn.Keys
    && s.runs.Keys <= s.everRows
    && (!s.phase.Up? ==> s.threads == map[] && s.runs == map[] && s.locks == {})
    && (s.phase.Recovering? ==> s.phase.todo <= RunningIds(s.rows))
  }

  ghost predicate Agrees(r: Row, final: Snapshot) {
    r.status == final.state && r.failureNote == final.failureNote && r.result == Some(ResultOf(final))
  }

  /** A thread's id is its own. Until the thread's update the row is running and names its
      cluster; afterwards it is still running, or agrees with the run's final snapshot. */
  ghost predicate ThreadOk(s: State, t: nat)
    requires t in s.threads
  {
    var th := s.threads[t];
    !th.pc.Locked? ==>
      && th.pc.id in s.drawn && s.drawn[th.pc.id] == t
      && (th.pc.Drawn? <==> th.pc.id !in s.everRows)
      && (th.pc.Inserted? ==> th.pc.id !in s.runs)
      && (th.pc.Registered() ==> th.pc.id in s.runs && s.runs[th.pc.id].final.None?)
      && (th.pc.Unsettled() && th.pc.id in s.rows ==>
            s.rows[th.pc.id].status.Running? && s.rows[th.pc.id].cluster == th.cluster)
      && (th.pc.Decided? || th.pc.Recorded? ==> th.pc.final.state.IsTerminal() && th.pc.final.taskId == th.pc.id)
      && (th.pc.Recorded? && th.pc.id in s.rows ==>
            s.rows[th.pc.id].status.Running? || Agrees(s.rows[th.pc.id], th.pc.final))
  }

  /** What a run closed its hub with is terminal and its own; its row, unless still running,
      holds exactly that. */
  ghost predicate RunOk(s: State, id: TaskId)
    requires id in s.runs
  {
    s.runs[id].final.Some? ==>
      && s.runs[id].final.value.taskId == id && s.runs[id].final.value.state.IsTerminal()
      && (id in s.rows && !s.rows[id].status.Running? ==> Agrees(s.rows[id], s.runs[id].final.value))
  }

  ghost predicate Live(s: State, id: TaskId) {
    && id in s.drawn && s.drawn[id] in s.threads
    && s.threads[s.drawn[id]].pc.Unsettled() && s.threads[s.drawn[id]].pc.id == id
  }

  ghost predicate RunningRow(s: State, id: TaskId) {
    id in s.rows && s.rows[id].status.Running?
  }

  /** A running row has its live thread, unless an update failed; while recovery is under
      way it is still on the list. */
  ghost predicate RowOk(s: State, id: TaskId) {
    RunningRow(s, id) ==>
      match s.phase
      case Up => s.recorded ==> Live(s, id)
      case Recovering(todo) => id in todo
      case Down => true
  }

  ghost predicate Inv(s: State) {
    && LocksOk(s.locks, s.threads)
    && GlobalOk(s)
    && (forall t :: t in s.threads ==> ThreadOk(s, t))
    && (forall id :: id in s.runs ==> RunOk(s, id))
    && (forall id :: id in s.rows ==> RowOk(s, id))
  }

  // ----- What one action leaves alone -----

  lemma BystanderStays(s: State, t: nat, id: TaskId, action: Action, other: nat)
    requires CanAct(s, t, id, action) && other != t
    ensures other in DoAct(s, t, id, action).threads <==> other in s.threads
    ensures other in s.threads ==> DoAct(s, t, id, action).threads[other] == s.threads[other]
  {
    if !Releases(action) {
      Stays(s, t, id, action);
    }
  }

  /** Nothing about `id` changes, except that its row may be deleted. */
  ghost predicate Left(s: State, s': State, id: TaskId) {
    && s'.phase == s.phase && (s'.recorded ==> s.recorded)
    && (id in s'.runs <==> id in s.runs) && (id in s.runs ==> s'.runs[id] == s.runs[id])
    && (id in s'.rows ==> id in s.rows && s'.rows[id] == s.rows[id])
    && (id in s'.everRows <==> id in s.everRows)
    && (id in s.drawn ==> id in s'.drawn && s'.drawn[id] == s.drawn[id])
  }

  /** A thread's actions concern its own id only. */
  lemma OthersLeft(s: State, t: nat, id: TaskId, action: Action, other: TaskId)
    requires CanAct(s, t, id, action) && (s.threads[t].pc.Locked? || other != id)
    ensures Left(s, DoAct(s, t, id, action), other)
  {
  }

  lemma ActIsStep(s: State, step: Step)
    requires Guard(s, step) && step.Act?
    ensures Do(s, step) == DoAct(s, step.t, step.id, step.action)
  {
  }

  // ----- Every step keeps them -----

  /** What is known about the acting thread. */
  ghost predicate ActorOk(s: State, step: Step) {
    step.Act? && step.t in s.threads ==> ThreadOk(s, step.t)
  }

  lemma LocksKept(s: State, step: Step)
    requires LocksOk(s.locks, s.threads) && Guard(s, step)
    ensures LocksOk(Do(s, step).locks, Do(s, step).threads)
  {
    if step.TakeLock? {
      LockTaken(s.locks, s.threads, step.t, step.cluster);
    } else if step.Act? {
      var s' := DoAct(s, step.t, step.id, step.action);
      if Releases(step.action) {
        LockReleased(s.locks, s.threads, step.t);
      } else {
        Stays(s, step.t, step.id, step.action);
        SameClusters(s.locks, s.threads, s'.threads);
      }
    }
  }

  lemma Stays(s: State, t: nat, id: TaskId, action: Action)
    requires CanAct(s, t, id, action) && !Releases(action)
    ensures var s' := DoAct(s, t, id, action);
            s'.locks == s.locks && s'.threads.Keys == s.threads.Keys && s'.threads[t].cluster == s.threads[t].cluster
            && forall u :: u in s.threads && u != t ==> s'.threads[u] == s.threads[u]
  {
  }

  predicate Releases(action: Action) {
    action.NoId? || action.InsertFails? || action.Unlock?
  }

  lemma LockTaken(locks: set<Cluster>, threads: map<nat, Thread>, t: nat, c: Cluster)
    requires LocksOk(locks, threads) && t !in threads && c !in locks
    ensures LocksOk(locks + {c}, threads[t := Thread(c, Locked)])
  {
    var threads' := threads[t := Thread(c, Locked)];
    assert threads'[t].cluster == c;
    assert forall u :: u in threads ==> threads'[u].cluster == threads[u].cluster && threads[u].cluster in locks;
  }

  lemma LockReleased(locks: set<Cluster>, threads: map<nat, Thread>, t: nat)
    requires LocksOk(locks, threads) && t in threads
    ensures LocksOk(locks - {threads[t].cluster}, threads - {t})
  {
    var threads' := threads - {t};
    forall c | c in locks && c != threads[t].cluster
      ensures c in set u | u in threads' :: threads'[u].cluster
    {
      var u :| u in threads && threads[u].cluster == c;
      assert u in threads';
    }
    assert forall u :: u in threads' ==> threads[u].cluster in locks;
  }

  lemma SameClusters(locks: set<Cluster>, threads: map<nat, Thread>, threads': map<nat, Thread>)
    requires LocksOk(locks, threads) && threads'.Keys == threads.Keys
    requires forall t :: t in threads ==> threads'[t].cluster == threads[t].cluster
    ensures LocksOk(locks, threads')
  {
    assert forall t :: t in threads' ==> threads[t].cluster in locks;
    forall c | c in locks
      ensures c in set u | u in threads' :: threads'[u].cluster
    {
      var u :| u in threads && threads[u].cluster == c;
      assert u in threads' && threads'[u].cluster == c;
    }
  }

  lemma GlobalKept(s: State, step: Step)
    requires GlobalOk(s) && ActorOk(s, step) && Guard(s, step)
    ensures GlobalOk(Do(s, step))
  {
    if step.Act? {
      GlobalKeptByAct(s, step.t, step.id, step.action);
    }
  }

  lemma GlobalKeptByAct(s: State, t: nat, id: TaskId, action: Action)
    requires GlobalOk(s) && CanAct(s, t, id, action) && ThreadOk(s, t)
    ensures GlobalOk(DoAct(s, t, id, action))
  {
  }

  lemma ThreadKept(s: State, step: Step, t: nat)
    requires GlobalOk(s) && ActorOk(s, step) && Guard(s, step)
    requires t in s.threads ==> ThreadOk(s, t)
    requires t in Do(s, step).threads
    ensures ThreadOk(Do(s, step), t)
  {
    if step.Act? {
      ActIsStep(s, step);
      ThreadKeptByAct(s, step.t, step.id, step.action, t);
    } else {
      ThreadUnmoved(s, step, t);
    }
  }

  lemma ThreadKeptByAct(s: State, t: nat, id: TaskId, action: Action, other: nat)
    requires GlobalOk(s) && CanAct(s, t, id, action) && ThreadOk(s, t)
    requires other in s.threads ==> ThreadOk(s, other)
    requires other in DoAct(s, t, id, action).threads
    ensures ThreadOk(DoAct(s, t, id, action), other)
  {
    if other != t {
      BystanderStays(s, t, id, action, other);
      BystanderKept(s, t, id, action, other);
    } else if Releases(action) {
      assert false;
    } else {
      ActorKept(s, t, id, action);
    }
  }

  lemma ThreadUnmoved(s: State, step: Step, t: nat)
    requires GlobalOk(s) && Guard(s, step) && !step.Act?
    requires t in s.threads ==> ThreadOk(s, t)
    requires t in Do(s, step).threads
    ensures ThreadOk(Do(s, step), t)
  {
  }

  lemma ActorKept(s: State, t: nat, id: TaskId, action: Action)
    requires GlobalOk(s) && CanAct(s, t, id, action) && ThreadOk(s, t)
    requires !Releases(action)
    ensures t in DoAct(s, t, id, action).threads && ThreadOk(DoAct(s, t, id, action), t)
  {
    if Begins(action) {
      ActorBegins(s, t, id, action);
    } else {
      ActorEnds(s, t, id, action);
    }
  }

  predicate Begins(action: Action) {
    action.DrawId? || action.InsertRow? || action.Spawn? || action.Return? || action.Panic?
  }

  lemma ActorBegins(s: State, t: nat, id: TaskId, action: Action)
    requires GlobalOk(s) && CanAct(s, t, id, action) && ThreadOk(s, t)
    requires Begins(action)
    ensures t in DoAct(s, t, id, action).threads && ThreadOk(DoAct(s, t, id, action), t)
  {
  }

  lemma ActorEnds(s: State, t: nat, id: TaskId, action: Action)
    requires CanAct(s, t, id, action) && ThreadOk(s, t)
    requires !Begins(action) && !Releases(action)
    ensures t in DoAct(s, t, id, action).threads && ThreadOk(DoAct(s, t, id, action), t)
  {
  }

  lemma BystanderKept(s: State, t: nat, id: TaskId, action: Action, other: nat)
    requires GlobalOk(s) && CanAct(s, t, id, action) && ThreadOk(s, t)
    requires other in s.threads && ThreadOk(s, other) && other != t
    ensures other in DoAct(s, t, id, action).threads && ThreadOk(DoAct(s, t, id, action), other)
  {
    BystanderStays(s, t, id, action, other);
    if !s.threads[other].pc.Locked? {
      OthersLeft(s, t, id, action, s.threads[other].pc.id);
    }
    ThreadLeft(s, DoAct(s, t, id, action), other);
  }

  lemma ThreadLeft(s: State, s': State, t: nat)
    requires t in s.threads && ThreadOk(s, t) && t in s'.threads && s'.threads[t] == s.threads[t]
    requires !s.threads[t].pc.Locked? ==> Left(s, s', s.threads[t].pc.id)
    ensures ThreadOk(s', t)
  {
  }

  lemma RunKept(s: State, step: Step, id: TaskId)
    requires GlobalOk(s) && ActorOk(s, step) && Guard(s, step)
    requires id in s.runs ==> RunOk(s, id)
    requires id in Do(s, step).runs
    ensures RunOk(Do(s, step), id)
  {
    if step.Act? {
      RunKeptByAct(s, step.t, step.id, step.action, id);
    }
  }

  lemma RunKeptByAct(s: State, t: nat, id: TaskId, action: Action, run: TaskId)
    requires GlobalOk(s) && CanAct(s, t, id, action) && ThreadOk(s, t)
    requires run in s.runs ==> RunOk(s, run)
    requires run in DoAct(s, t, id, action).runs
    ensures RunOk(DoAct(s, t, id, action), run)
  {
    if s.threads[t].pc.Locked? || run != id {
      OthersLeft(s, t, id, action, run);
      RunLeft(s, DoAct(s, t, id, action), run);
    } else {
      OwnRunKept(s, t, id, action);
    }
  }

  lemma RunLeft(s: State, s': State, id: TaskId)
    requires id in s.runs && RunOk(s, id) && Left(s, s', id)
    ensures RunOk(s', id)
  {
  }

  lemma OwnRunKept(s: State, t: nat, id: TaskId, action: Action)
    requires CanAct(s, t, id, action) && ThreadOk(s, t) && !s.threads[t].pc.Locked?
    requires id in s.runs ==> RunOk(s, id)
    requires id in DoAct(s, t, id, action).runs
    ensures RunOk(DoAct(s, t, id, action), id)
  {
  }

  lemma RowKept(s: State, step: Step, id: TaskId)
    requires GlobalOk(s) && ActorOk(s, step) && Guard(s, step) && RowOk(s, id)
    ensures RowOk(Do(s, step), id)
  {
    if step.Act? {
      RowKeptByAct(s, step.t, step.id, step.action, id);
    }
  }

  lemma RowKeptByAct(s: State, t: nat, id: TaskId, action: Action, row: TaskId)
    requires GlobalOk(s) && CanAct(s, t, id, action) && ThreadOk(s, t) && RowOk(s, row)
    ensures RowOk(DoAct(s, t, id, action), row)
  {
    if s.threads[t].pc.Locked? || row != id {
      OthersLeft(s, t, id, action, row);
      if row in s.drawn && s.drawn[row] != t {
        BystanderStays(s, t, id, action, s.drawn[row]);
      }
      RowLeft(s, DoAct(s, t, id, action), row);
    } else {
      OwnRowKept(s, t, id, action);
    }
  }

  lemma RowLeft(s: State, s': State, id: TaskId)
    requires RowOk(s, id) && Left(s, s', id)
    requires Live(s, id) ==> s.drawn[id] in s'.threads && s'.threads[s.drawn[id]] == s.threads[s.drawn[id]]
    ensures RowOk(s', id)
  {
  }

  lemma OwnRowKept(s: State, t: nat, id: TaskId, action: Action)
    requires CanAct(s, t, id, action) && ThreadOk(s, t) && RowOk(s, id) && !s.threads[t].pc.Locked?
    ensures RowOk(DoAct(s, t, id, action), id)
  {
  }

  /** Every step keeps the invariant. */
  lemma Kept(s: State, step: Step)
    requires Inv(s) && Guard(s, step)
    ensures Inv(Do(s, step))
  {
    var s' := Do(s, step);
    LocksKept(s, step);
    GlobalKept(s, step);
    forall t | t in s'.threads
      ensures ThreadOk(s', t)
    {
      ThreadKept(s, step, t);
    }
    forall id | id in s'.runs
      ensures RunOk(s', id)
    {
      RunKept(s, step, id);
    }
    forall id | id in s'.rows
      ensures RowOk(s', id)
    {
      RowKept(s, step, id);
    }
  }

  // ----- Whole runs -----

  ghost predicate CanRun(s: State, steps: seq<Step>)
    decreases |steps|, 0
  {
    steps == [] ||
    (CanRun(s, steps[..|steps| - 1]) && Guard(After(s, steps[..|steps| - 1]), steps[|steps| - 1]))
  }

  ghost function After(s: State, steps: seq<Step>): State
    requires CanRun(s, steps)
    decreases |steps|, 1
  {
    if steps == [] then s else Do(After(s, steps[..|steps| - 1]), steps[|steps| - 1])
  }

  lemma {:induction false} InvAlways(s: State, steps: seq<Step>)
    requires Inv(s) && CanRun(s, steps)
    ensures Inv(After(s, steps))
    decreases |steps|
  {
    if steps != [] {
      InvAlways(s, steps[..|steps| - 1]);
      Kept(After(s, steps[..|steps| - 1]), steps[|steps| - 1]);
    }
  }

  /** In every interleaving from an empty store: a cluster's lock is held exactly while
      one dispatch or run of it is in flight, and, while updates succeed, no cluster has
      two running rows and each running row has its live run. */
  lemma OneOperationPerCluster(steps: seq<Step>)
    requires CanRun(INITIAL, steps)
    ensures var s := After(INITIAL, steps);
            && LocksOk(s.locks, s.threads)
            && (s.phase.Up? && s.recorded ==>
                  forall a, b :: RunningRow(s, a) && RunningRow(s, b) && s.rows[a].cluster == s.rows[b].cluster ==>
                    a == b)
            && (s.phase.Up? && s.recorded ==>
                  forall a :: RunningRow(s, a) ==> Live(s, a) && s.rows[a].cluster in s.locks)
  {
    assert Inv(INITIAL);
    InvAlways(INITIAL, steps);
    var s := After(INITIAL, steps);
    if s.phase.Up? && s.recorded {
      forall a | RunningRow(s, a)
        ensures Live(s, a) && s.rows[a].cluster == s.threads[s.drawn[a]].cluster
        ensures s.rows[a].cluster in s.locks
      {
        assert RowOk(s, a) && ThreadOk(s, s.drawn[a]);
      }
    }
  }

  /** One step never changes a finished row and never brings a deleted one back. */
  lemma RowSettled(s: State, step: Step, id: TaskId)
    requires Inv(s) && Guard(s, step)
    ensures id in s.rows && s.rows[id].status.IsTerminal() && id in Do(s, step).rows ==>
              Do(s, step).rows[id] == s.rows[id]
    ensures id in s.everRows && id !in s.rows ==> id !in Do(s, step).rows
    ensures s.everRows <= Do(s, step).everRows
  {
    if step.Act? {
      RowSettledByAct(s, step.t, step.id, step.action, id);
    }
  }

  lemma RowSettledByAct(s: State, t: nat, id: TaskId, action: Action, row: TaskId)
    requires CanAct(s, t, id, action) && ThreadOk(s, t)
    ensures var s' := DoAct(s, t, id, action);
            && (row in s.rows && s.rows[row].status.IsTerminal() && row in s'.rows ==> s'.rows[row] == s.rows[row])
            && (row in s.everRows && row !in s.rows ==> row !in s'.rows)
            && s.everRows <= s'.everRows
  {
  }

  /** Nothing that happens to a row changes whose it is and when it began. */
  lemma HeaderKept(s: State, step: Step, id: TaskId)
    requires Inv(s) && Guard(s, step) && id in s.rows && id in Do(s, step).rows
    ensures Do(s, step).rows[id].cluster == s.rows[id].cluster && Do(s, step).rows[id].at == s.rows[id].at
  {
    if step.Act? {
      ActIsStep(s, step);
      HeaderKeptByAct(s, step.t, step.id, step.action, id);
    }
  }

  lemma HeaderKeptByAct(s: State, t: nat, id: TaskId, action: Action, row: TaskId)
    requires CanAct(s, t, id, action) && ThreadOk(s, t) && row in s.rows && row in DoAct(s, t, id, action).rows
    ensures var r := DoAct(s, t, id, action).rows[row]; r.cluster == s.rows[row].cluster && r.at == s.rows[row].at
  {
    if s.threads[t].pc.Locked? || row != id {
      OthersLeft(s, t, id, action, row);
    }
  }

  /** A row keeps them in every run of steps, as long as it is there. */
  lemma {:induction false} HeadersStay(s: State, steps: seq<Step>, id: TaskId)
    requires Inv(s) && CanRun(s, steps) && id in s.rows
    ensures id in After(s, steps).everRows
    ensures id in After(s, steps).rows ==>
              var r := After(s, steps).rows[id]; r.cluster == s.rows[id].cluster && r.at == s.rows[id].at
    decreases |steps|
  {
    if steps != [] {
      var before, step := steps[..|steps| - 1], steps[|steps| - 1];
      HeadersStay(s, before, id);
      InvAlways(s, before);
      RowSettled(After(s, before), step, id);
      if id in After(s, before).rows && id in After(s, steps).rows {
        HeaderKept(After(s, before), step, id);
      }
    }
  }

  /** Whatever happens afterwards, crashes included, a finished row stays exactly as it
      is until it is deleted, and a deleted row never returns. */
  lemma {:induction false} SettledForever(s: State, steps: seq<Step>, id: TaskId)
    requires Inv(s) && CanRun(s, steps) && id in s.everRows
    requires id in s.rows ==> s.rows[id].status.IsTerminal()
    ensures id in After(s, steps).everRows
    ensures id in After(s, steps).rows ==> id in s.rows && After(s, steps).rows[id] == s.rows[id]
    decreases |steps|
  {
    if steps != [] {
      SettledForever(s, steps[..|steps| - 1], id);
      InvAlways(s, steps[..|steps| - 1]);
      RowSettled(After(s, steps[..|steps| - 1]), steps[|steps| - 1], id);
    }
  }

  // ----- Recovery -----

  /** Appending steps to a run. */
  lemma OneMore(s: State, steps: seq<Step>, step: Step)
    requires CanRun(s, steps) && Guard(After(s, steps), step)
    ensures CanRun(s, steps + [step]) && After(s, steps + [step]) == Do(After(s, steps), step)
  {
    assert (steps + [step])[..|steps|] == steps;
  }

  lemma {:induction false} PrefixRuns(s: State, steps: seq<Step>, n: nat)
    requires CanRun(s, steps) && n <= |steps|
    ensures CanRun(s, steps[..n])
    decreases |steps|
  {
    if n == |steps| {
      assert steps[..n] == steps;
    } else {
      PrefixRuns(s, steps[..|steps| - 1], n);
      assert steps[..|steps| - 1][..n] == steps[..n];
    }
  }

  /** `now` is `was` with its running rows failed, except those still on the list. */
  ghost predicate Repaired(was: Rows, now: Rows, todo: set<TaskId>) {
    && now.Keys == was.Keys
    && forall id :: id in was ==>
         now[id] == if was[id].status.Running? && id !in todo then RecoveredRow(was[id]) else was[id]
  }

  lemma RepairOne(was: Rows, now: Rows, todo: set<TaskId>, id: TaskId)
    requires Repaired(was, now, todo) && todo <= RunningIds(was) && id in todo
    ensures id in now && Repaired(was, now[id := RecoveredRow(now[id])], todo - {id})
  {
  }

  /** A crash at any moment can be recovered from: the restarted process serves again with
      every running row failed, with the recovery note, and all other rows untouched. */
  lemma Recovers(s: State) returns (steps: seq<Step>)
    ensures CanRun(s, steps)
    ensures var s' := After(s, steps);
            s'.phase.Up? && s'.recorded && s'.threads == map[] && s'.locks == {} && Repaired(s.rows, s'.rows, {})
  {
    steps := [Crash];
    OneMore(s, [], Crash);
    assert [] + [Crash] == [Crash];
    OneMore(s, steps, Boot);
    steps := RecoverAll(s, steps + [Boot], RunningIds(s.rows));
    OneMore(s, steps, Serve);
    steps := steps + [Serve];
  }

  /** Whatever else happens, crashes during recovery included: when a process that crashed
      first serves again, every row that was running was failed by recovery and every other
      row is untouched. */
  lemma RepairedWheneverUp(s: State, steps: seq<Step>)
    requires CanRun(s, steps) && steps != [] && steps[0] == Crash && After(s, steps).phase.Up?
    requires forall k :: 0 < k < |steps| && CanRun(s, steps[..k]) ==> !After(s, steps[..k]).phase.Up?
    ensures var now := After(s, steps);
            now.recorded && now.threads == map[] && now.locks == {} && Repaired(s.rows, now.rows, {})
    ensures var now := After(s, steps);
            && now.rows.Keys == s.rows.Keys
            && forall id :: id in s.rows ==>
                 now.rows[id] == if s.rows[id].status.Running?
                                 then Row(s.rows[id].cluster, s.rows[id].at, Failed, "bm process restarted mid-op",
                                          Some(Result(Failed, "", [], [], "bm process restarted mid-op")))
                                 else s.rows[id]
  {
    var n := |steps| - 1;
    if n > 0 {
      PrefixRuns(s, steps, n);
      InBetween(s, steps, n);
      RepairKept(s.rows, After(s, steps[..n]), steps[n]);
    }
  }

  /** The rows `was` at the crash are repaired but for those still to be listed, or still on
      the list. */
  ghost predicate Repairing(was: Rows, now: State) {
    && now.threads == map[] && now.locks == {}
    && match now.phase
       case Down => Repaired(was, now.rows, RunningIds(now.rows))
       case Recovering(todo) => todo <= RunningIds(now.rows) && Repaired(was, now.rows, todo)
       case Up => Repaired(was, now.rows, {})
  }

  lemma RepairKept(was: Rows, s: State, step: Step)
    requires Repairing(was, s) && !s.phase.Up? && Guard(s, step)
    ensures Repairing(was, Do(s, step))
    ensures Do(s, step).phase.Up? ==> Do(s, step).recorded
  {
  }

  lemma {:induction false} InBetween(s: State, steps: seq<Step>, n: nat)
    requires steps != [] && steps[0] == Crash && 0 < n < |steps| && CanRun(s, steps[..n])
    requires forall k :: 0 < k < |steps| && CanRun(s, steps[..k]) ==> !After(s, steps[..k]).phase.Up?
    ensures Repairing(s.rows, After(s, steps[..n]))
  {
    assert steps[..n][..n - 1] == steps[..n - 1];
    if n > 1 {
      InBetween(s, steps, n - 1);
      RepairKept(s.rows, After(s, steps[..n - 1]), steps[n - 1]);
    }
  }

  /** The loop of `RecoverInFlight` over the rows still on its list. */
  lemma {:induction false} RecoverAll(s: State, before: seq<Step>, todo: set<TaskId>) returns (steps: seq<Step>)
    requires CanRun(s, before) && todo <= RunningIds(s.rows)
    requires var now := After(s, before);
             && now.phase == Recovering(todo) && now.threads == map[] && now.locks == {}
             && Repaired(s.rows, now.rows, todo)
    ensures CanRun(s, steps)
    ensures var now := After(s, steps);
            now.phase == Recovering({}) && now.threads == map[] && now.locks == {} && Repaired(s.rows, now.rows, {})
    decreases todo
  {
    steps := before;
    if todo != {} {
      var id :| id in todo;
      RepairOne(s.rows, After(s, before).rows, todo, id);
      OneMore(s, before, RecoverRow(id));
      steps := RecoverAll(s, before + [RecoverRow(id)], todo - {id});
    }
  }

  // ----- What a row's status says about its run -----

  /** Ids seen so far: asked to stop, returned nil, returned an error or panicked, recorded
      without a run. */
  datatype Evidence = Evidence(asked: set<TaskId>, nils: set<TaskId>, wrong: set<TaskId>, direct: set<TaskId>)

  ghost function Noted(e: Evidence, step: Step): Evidence {
    match step
    case OnRun(id, FireCancel) => e.(asked := e.asked + {id})
    case OnRun(id, ShutRun) => e.(asked := e.asked + {id})
    case Act(_, id, Return(None)) => e.(nils := e.nils + {id})
    case Act(_, id, Return(Some(_))) => e.(wrong := e.wrong + {id})
    case Act(_, id, Panic(_)) => e.(wrong := e.wrong + {id})
    case RecordImmediate(id, _) => e.(direct := e.direct + {id})
    case _ => e
  }

  ghost function EvidenceOf(steps: seq<Step>): Evidence {
    if steps == [] then Evidence({}, {}, {}, {})
    else Noted(EvidenceOf(steps[..|steps| - 1]), steps[|steps| - 1])
  }

  ghost predicate Explained(s: State, e: Evidence) {
    && (forall id :: id in s.runs && s.runs[id].canceled ==> id in e.asked)
    && (forall t :: t in s.threads ==> PcExplained(s.threads[t].pc, e))
    && (forall id :: id in s.rows ==> RowExplained(s, id, e))
  }

  ghost predicate PcExplained(pc: Pc, e: Evidence) {
    && (pc.Returned? || pc.Snapped? ==> if pc.err.None? then pc.id in e.nils else pc.id in e.wrong)
    && (pc.Decided? || pc.Recorded? ==>
          && (pc.final.state.Canceled? ==> pc.id in e.asked && pc.final.failureNote != "")
          && (pc.final.state.Succeeded? ==> pc.id in e.nils)
          && (pc.final.state.Failed? ==> pc.id in e.wrong))
  }

  /** `step` is already noted. */
  ghost predicate IsNoted(step: Step, e: Evidence) {
    && (step.OnRun? && (step.event.FireCancel? || step.event.ShutRun?) ==> step.id in e.asked)
    && (step.Act? && step.action == Return(None) ==> step.id in e.nils)
    && (step.Act? && (step.action.Panic? || (step.action.Return? && step.action.err.Some?)) ==> step.id in e.wrong)
    && (step.RecordImmediate? ==> step.id in e.direct)
  }

  lemma PcExplainedKept(s: State, step: Step, e: Evidence, t: nat)
    requires Guard(s, step) && IsNoted(step, e) && t in Do(s, step).threads
    requires t in s.threads ==> PcExplained(s.threads[t].pc, e)
    requires step.Act? && step.id in s.runs && s.runs[step.id].canceled ==> step.id in e.asked
    ensures PcExplained(Do(s, step).threads[t].pc, e)
  {
    if step.Act? {
      if step.t == t {
        PcExplainedByAct(s, t, step.id, step.action, e);
      } else {
        BystanderStays(s, step.t, step.id, step.action, t);
      }
    } else {
      assert t in s.threads ==> Do(s, step).threads[t] == s.threads[t];
    }
  }

  lemma PcExplainedByAct(s: State, t: nat, id: TaskId, action: Action, e: Evidence)
    requires CanAct(s, t, id, action) && PcExplained(s.threads[t].pc, e)
    requires action == Return(None) ==> id in e.nils
    requires action.Panic? || (action.Return? && action.err.Some?) ==> id in e.wrong
    requires id in s.runs && s.runs[id].canceled ==> id in e.asked
    requires t in DoAct(s, t, id, action).threads
    ensures PcExplained(DoAct(s, t, id, action).threads[t].pc, e)
  {
  }

  lemma RunExplainedKept(s: State, step: Step, e: Evidence, id: TaskId)
    requires Guard(s, step) && IsNoted(step, e) && id in Do(s, step).runs
    requires id in s.runs && s.runs[id].canceled ==> id in e.asked
    ensures Do(s, step).runs[id].canceled ==> id in e.asked
  {
    if step.Act? {
      ActIsStep(s, step);
      CanceledStays(s, step.t, step.id, step.action, id);
    }
  }

  lemma CanceledStays(s: State, t: nat, id: TaskId, action: Action, run: TaskId)
    requires CanAct(s, t, id, action) && run in DoAct(s, t, id, action).runs
    ensures DoAct(s, t, id, action).runs[run].canceled ==> run in s.runs && s.runs[run].canceled
  {
    if s.threads[t].pc.Locked? || run != id {
      OthersLeft(s, t, id, action, run);
    }
  }

  ghost predicate RowExplained(s: State, id: TaskId, e: Evidence) {
    id in s.rows && id !in e.direct ==>
      && (s.rows[id].status.Canceled? ==> id in e.asked && s.rows[id].failureNote != "")
      && (s.rows[id].status.Succeeded? ==> id in e.nils)
      && (s.rows[id].status.Failed? ==> id in e.wrong || s.rows[id].failureNote == RECOVER_NOTE)
  }

  lemma RowExplainedKept(s: State, step: Step, e: Evidence, id: TaskId)
    requires Guard(s, step) && IsNoted(step, e) && RowExplained(s, id, e)
    requires step.Act? && step.t in s.threads ==> PcExplained(s.threads[step.t].pc, e)
    ensures RowExplained(Do(s, step), id, e)
  {
    if step.Act? {
      ActIsStep(s, step);
      RowExplainedByAct(s, step.t, step.id, step.action, id, e);
    }
  }

  lemma RowExplainedByAct(s: State, t: nat, id: TaskId, action: Action, row: TaskId, e: Evidence)
    requires CanAct(s, t, id, action) && RowExplained(s, row, e) && PcExplained(s.threads[t].pc, e)
    ensures RowExplained(DoAct(s, t, id, action), row, e)
  {
    if s.threads[t].pc.Locked? || row != id {
      OthersLeft(s, t, id, action, row);
    } else {
      OwnRowExplained(s, t, id, action, e);
    }
  }

  lemma OwnRowExplained(s: State, t: nat, id: TaskId, action: Action, e: Evidence)
    requires CanAct(s, t, id, action) && RowExplained(s, id, e) && PcExplained(s.threads[t].pc, e)
    requires !s.threads[t].pc.Locked?
    ensures RowExplained(DoAct(s, t, id, action), id, e)
  {
  }

  /** A row reads `canceled`, always with a note, only when that run was asked to stop, by a
      cancellation or the manager's shutdown; `succeeded` only when its executor returned
      without error; `failed` only when it returned one or panicked, or by recovery. */
  lemma {:induction false} StatusExplained(steps: seq<Step>)
    requires CanRun(INITIAL, steps)
    ensures Explained(After(INITIAL, steps), EvidenceOf(steps))
    decreases |steps|
  {
    if steps != [] {
      var before, step := steps[..|steps| - 1], steps[|steps| - 1];
      StatusExplained(before);
      ExplainedKept(After(INITIAL, before), step, EvidenceOf(steps));
    }
  }

  lemma ExplainedKept(s: State, step: Step, e: Evidence)
    requires Guard(s, step) && IsNoted(step, e) && Explained(s, e)
    ensures Explained(Do(s, step), e)
  {
    var s' := Do(s, step);
    forall id | id in s'.runs
      ensures s'.runs[id].canceled ==> id in e.asked
    {
      RunExplainedKept(s, step, e, id);
    }
    forall t | t in s'.threads
      ensures PcExplained(s'.threads[t].pc, e)
    {
      PcExplainedKept(s, step, e, t);
    }
    forall id | id in s'.rows
      ensures RowExplained(s', id, e)
    {
      RowExplainedKept(s, step, e, id);
    }
  }

  // ----- Locks are given back -----

  /** Actions left before the lock is released, at most. */
  function ActionsLeft(pc: Pc): nat {
    match pc
    case Locked => 10
    case Drawn(_) => 9
    case Inserted(_) => 8
    case Executing(_) => 7
    case Returned(_, _) => 6
    case Snapped(_, _, _) => 5
    case Decided(_, _) => 4
    case Recorded(_, _) => 3
    case Closed(_) => 2
    case Swept(_) => 1
  }

  /** The holder of a lock always has a next action, whatever fails around it. */
  lemma NeverStuck(s: State, t: nat) returns (id: TaskId, action: Action)
    requires Inv(s) && s.phase.Up? && t in s.threads
    ensures CanAct(s, t, id, action)
  {
    assert ThreadOk(s, t);
    var pc := s.threads[t].pc;
    id := if pc.Locked? then 0 else pc.id;
    action := match pc
              case Locked => NoId
              case Drawn(_) => InsertFails
              case Inserted(_) => Spawn
              case Executing(_) => Return(None)
              case Returned(_, _) => Snap
              case Snapped(_, _, _) => Decide
              case Decided(_, _) => UpdateFails
              case Recorded(_, _) => CloseHub
              case Closed(_) => SweepFails
              case Swept(_) => Unlock;
  }

  /** Every action of the holder releases the lock or leaves fewer to go, and nobody
      else's steps, but a crash, touch it. */
  lemma ActionsCount(s: State, step: Step, t: nat)
    requires Inv(s) && Guard(s, step) && t in s.threads
    ensures step.Act? && step.t == t ==> Advanced(s, Do(s, step), t, Releases(step.action))
    ensures !(step.Act? && step.t == t) && !step.Crash? ==>
              t in Do(s, step).threads && Do(s, step).threads[t] == s.threads[t]
  {
    assert ThreadOk(s, t);
    if step.Act? {
      if step.t == t {
        ActAdvances(s, t, step.id, step.action);
      } else {
        BystanderStays(s, step.t, step.id, step.action, t);
      }
    }
  }

  ghost predicate Advanced(s: State, s': State, t: nat, released: bool)
    requires t in s.threads
  {
    if released then t !in s'.threads && s.threads[t].cluster !in s'.locks
    else t in s'.threads && ActionsLeft(s'.threads[t].pc) < ActionsLeft(s.threads[t].pc)
  }

  lemma ActAdvances(s: State, t: nat, id: TaskId, action: Action)
    requires CanAct(s, t, id, action)
    ensures Advanced(s, DoAct(s, t, id, action), t, Releases(action))
  {
  }

  /** `t` is in flight before, during and after `steps`. */
  ghost predicate Holds(s: State, steps: seq<Step>, t: nat)
    requires CanRun(s, steps)
    decreases |steps|
  {
    t in After(s, steps).threads && (steps != [] ==> Holds(s, steps[..|steps| - 1], t))
  }

  function ActsOf(steps: seq<Step>, t: nat): nat {
    if steps == [] then 0
    else
      var last := steps[|steps| - 1];
      ActsOf(steps[..|steps| - 1], t) + if last.Act? && last.t == t then 1 else 0
  }

  /** Over any stretch of steps during which it keeps its lock, the holder does no more
      actions than it has left, less one, whatever the others do meanwhile: nine from when
      it took the lock, so its tenth gives the lock back. */
  lemma {:induction false} HeldForTenActions(s: State, steps: seq<Step>, t: nat)
    requires Inv(s) && CanRun(s, steps) && Holds(s, steps, t)
    ensures t in s.threads
    ensures ActsOf(steps, t) + ActionsLeft(After(s, steps).threads[t].pc) <= ActionsLeft(s.threads[t].pc) <= 10
    decreases |steps|
  {
    if steps != [] {
      var before, step := steps[..|steps| - 1], steps[|steps| - 1];
      HeldForTenActions(s, before, t);
      InvAlways(s, before);
      ActionsCount(After(s, before), step, t);
    }
  }
}
