/** What a run's row and final snapshot say, by the steps of the run alone
    (internal/tasks/orchestrator.go:116-158): who asked it to stop before its outcome was
    decided, what its executor returned, and which snapshot was taken then. */
module Settling {
  import opened Text
  import opened Progress
  import opened History
  import opened Orchestrator
  import opened Agreement

  /** A cancellation that fires, or the manager's shutdown, cancels the run's context. */
  predicate IsAsk(step: Step, id: TaskId) {
    step == OnRun(id, FireCancel) || step == OnRun(id, ShutRun)
  }

  predicate Asked(steps: seq<Step>, id: TaskId) {
    exists k :: 0 <= k < |steps| && IsAsk(steps[k], id)
  }

  /** The run looks at its context. */
  predicate IsDecide(step: Step, id: TaskId) {
    step.Act? && step.id == id && step.action.Decide?
  }

  /** It was canceled by the time it looked. */
  predicate AskedFirst(steps: seq<Step>, id: TaskId) {
    exists d :: 0 <= d < |steps| && IsDecide(steps[d], id) && Asked(steps[..d], id)
  }

  /** The error its executor ended with, `None` for nil. */
  function EndedWith(step: Step, id: TaskId): Option<Option<string>> {
    if step.Act? && step.id == id && step.action.Return? then Some(step.action.err)
    else if step.Act? && step.id == id && step.action.Panic? then Some(Some("executor panicked: " + step.action.value))
    else None
  }

  function EndOf(steps: seq<Step>, id: TaskId): Option<Option<string>> {
    if steps == [] then None
    else
      var step := steps[|steps| - 1];
      if EndedWith(step, id).Some? then EndedWith(step, id) else EndOf(steps[..|steps| - 1], id)
  }

  predicate IsSnap(step: Step, id: TaskId) {
    step.Act? && step.id == id && step.action.Snap?
  }

  /** The hub's snapshot when the run asked for it. */
  ghost function TakenOf(steps: seq<Step>, id: TaskId): Option<Snapshot>
    requires CanRun(INITIAL, steps)
    decreases |steps|
  {
    if steps == [] then None
    else
      var before, step := steps[..|steps| - 1], steps[|steps| - 1];
      var s := After(INITIAL, before);
      if IsSnap(step, id) && id in s.runs then Some(s.runs[id].hub) else TakenOf(before, id)
  }

  predicate IsDirect(step: Step, id: TaskId) {
    step.RecordImmediate? && step.id == id
  }

  predicate Direct(steps: seq<Step>, id: TaskId) {
    exists k :: 0 <= k < |steps| && IsDirect(steps[k], id)
  }

  // ----- What is settled

  /** A run canceled before it looked is canceled whatever it returned, otherwise failed if
      it returned an error or panicked, otherwise succeeded. */
  predicate Verdict(state: OpState, asked: bool, err: Option<string>) {
    && (state.Canceled? <==> asked)
    && (state.Failed? <==> !asked && err.Some?)
    && (state.Succeeded? <==> !asked && err.None?)
  }

  /** The note the executor left, else the reason. */
  predicate NoteIs(note: string, left: string, asked: bool, err: Option<string>) {
    && (left != "" ==> note == left)
    && (left == "" && asked ==> note == "canceled")
    && (left == "" && !asked && err.Some? ==> note == err.value)
    && (left == "" && !asked && err.None? ==> note == "")
  }

  /** The final snapshot: everything else is as it was taken. */
  predicate Settles(final: Snapshot, id: TaskId, asked: bool, err: Option<string>, taken: Snapshot) {
    && final.taskId == id && Verdict(final.state, asked, err)
    && NoteIs(final.failureNote, taken.failureNote, asked, err)
    && final.detail == taken.detail && final.summary == taken.summary && final.hostStatuses == taken.hostStatuses
    && final.events == taken.events && final.currentStep == taken.currentStep
    && final.current == taken.current && final.total == taken.total
  }

  predicate RowSettles(r: Row, asked: bool, err: Option<string>, taken: Snapshot) {
    && Verdict(r.status, asked, err)
    && NoteIs(r.failureNote, taken.failureNote, asked, err)
    && r.result == Some(Result(r.status, taken.detail, taken.summary, taken.hostStatuses, r.failureNote))
  }

  /** Recovery says nothing of how far the run had got. */
  predicate IsRecovered(r: Row) {
    && r.status.Failed? && r.failureNote == "bm process restarted mid-op"
    && r.result == Some(Result(Failed, "", [], [], "bm process restarted mid-op"))
  }

  /** The run did not look at its context yet. */
  predicate Undecided(pc: Pc) {
    pc.Drawn? || pc.Inserted? || pc.Executing? || pc.Returned? || pc.Snapped?
  }

  predicate PcSettles(pc: Pc, first: bool, end: Option<Option<string>>, taken: Option<Snapshot>) {
    && (Undecided(pc) ==> !first)
    && (pc.Returned? ==> end == Some(pc.err))
    && (pc.Snapped? ==> end == Some(pc.err) && taken == Some(pc.snap))
    && (pc.Decided? || pc.Recorded? ==>
          end.Some? && taken.Some? && Settles(pc.final, pc.id, first, end.value, taken.value))
  }

  /** What the steps so far say of `id`, in a state. */
  ghost predicate Told(s: State, id: TaskId, asked: bool, first: bool, end: Option<Option<string>>,
                       taken: Option<Snapshot>, direct: bool) {
    && (asked || first || direct ==> id in s.drawn)
    && (forall t :: t in s.threads && !s.threads[t].pc.Locked? && s.threads[t].pc.id == id ==>
          && PcSettles(s.threads[t].pc, first, end, taken)
          && (s.threads[t].pc.Drawn? || s.threads[t].pc.Inserted? ==> !asked))
    && (id in s.runs ==>
          && (s.runs[id].canceled <==> asked)
          && (s.runs[id].final.Some? ==>
                end.Some? && taken.Some? && Settles(s.runs[id].final.value, id, first, end.value, taken.value)))
    && (id in s.rows && !s.rows[id].status.Running? && !direct ==>
          IsRecovered(s.rows[id]) ||
          (end.Some? && taken.Some? && RowSettles(s.rows[id], first, end.value, taken.value)))
  }

  // ----- Every step keeps it

  function EndNext(end: Option<Option<string>>, step: Step, id: TaskId): Option<Option<string>> {
    if EndedWith(step, id).Some? then EndedWith(step, id) else end
  }

  function TakenNext(taken: Option<Snapshot>, s: State, step: Step, id: TaskId): Option<Snapshot> {
    if IsSnap(step, id) && id in s.runs then Some(s.runs[id].hub) else taken
  }

  lemma ToldKept(s: State, step: Step, id: TaskId, asked: bool, first: bool, end: Option<Option<string>>,
                 taken: Option<Snapshot>, direct: bool)
    requires Inv(s) && Guard(s, step) && Told(s, id, asked, first, end, taken, direct)
    ensures Told(Do(s, step), id, asked || IsAsk(step, id), first || (IsDecide(step, id) && asked),
                 EndNext(end, step, id), TakenNext(taken, s, step, id), direct || IsDirect(step, id))
  {
    if id in s.runs {
      RunningIsBegun(s, id);
    }
    if step.Act? {
      ActIsStep(s, step);
      ToldByAct(s, step.t, step.id, step.action, id, asked, first, end, taken, direct);
    } else if step.OnRun? {
      ToldOnRun(s, step.id, step.event, id, asked, first, end, taken, direct);
    } else {
      ToldByRest(s, step, id, asked, first, end, taken, direct);
    }
  }

  lemma ToldByAct(s: State, t: nat, actor: TaskId, action: Action, id: TaskId, asked: bool, first: bool,
                  end: Option<Option<string>>, taken: Option<Snapshot>, direct: bool)
    requires Inv(s) && CanAct(s, t, actor, action) && Told(s, id, asked, first, end, taken, direct)
    ensures var step := Act(t, actor, action);
            Told(DoAct(s, t, actor, action), id, asked, first || (IsDecide(step, id) && asked),
                 EndNext(end, step, id), TakenNext(taken, s, step, id), direct)
  {
    assert ThreadOk(s, t);
    if s.threads[t].pc.Locked? || actor != id {
      LockedStarts(s, t, actor, action, id, end, taken);
      ToldByOther(s, t, actor, action, id, asked, first, end, taken, direct);
    } else {
      OnlyHolder(s, t, id);
      ToldByOwn(s, t, id, action, asked, first, end, taken, direct);
    }
  }

  /** An action of another run, or before an id was drawn, says nothing of `id`. */
  lemma LockedStarts(s: State, t: nat, actor: TaskId, action: Action, id: TaskId, end: Option<Option<string>>,
                     taken: Option<Snapshot>)
    requires CanAct(s, t, actor, action) && (s.threads[t].pc.Locked? || actor != id)
    ensures var step := Act(t, actor, action);
            !IsDecide(step, id) && EndNext(end, step, id) == end && TakenNext(taken, s, step, id) == taken
  {
  }

  /** A thread that has an id is the only one with it. */
  lemma OnlyHolder(s: State, t: nat, id: TaskId)
    requires Inv(s) && t in s.threads && !s.threads[t].pc.Locked? && s.threads[t].pc.id == id
    ensures forall u :: u in s.threads && !s.threads[u].pc.Locked? && s.threads[u].pc.id == id ==> u == t
  {
    assert ThreadOk(s, t);
    forall u | u in s.threads && !s.threads[u].pc.Locked? && s.threads[u].pc.id == id
      ensures u == t
    {
      assert ThreadOk(s, u);
    }
  }

  lemma ToldByOther(s: State, t: nat, actor: TaskId, action: Action, id: TaskId, asked: bool, first: bool,
                    end: Option<Option<string>>, taken: Option<Snapshot>, direct: bool)
    requires CanAct(s, t, actor, action) && Told(s, id, asked, first, end, taken, direct)
    requires s.threads[t].pc.Locked? || actor != id
    ensures Told(DoAct(s, t, actor, action), id, asked, first, end, taken, direct)
  {
    var s' := DoAct(s, t, actor, action);
    OthersLeft(s, t, actor, action, id);
    forall u | u in s'.threads && !s'.threads[u].pc.Locked? && s'.threads[u].pc.id == id
      ensures PcSettles(s'.threads[u].pc, first, end, taken)
      ensures s'.threads[u].pc.Drawn? || s'.threads[u].pc.Inserted? ==> !asked
    {
      if u != t {
        BystanderStays(s, t, actor, action, u);
      }
    }
  }

  lemma ToldByOwn(s: State, t: nat, id: TaskId, action: Action, asked: bool, first: bool,
                  end: Option<Option<string>>, taken: Option<Snapshot>, direct: bool)
    requires CanAct(s, t, id, action) && !s.threads[t].pc.Locked? && ThreadOk(s, t)
    requires Told(s, id, asked, first, end, taken, direct)
    requires forall u :: u in s.threads && !s.threads[u].pc.Locked? && s.threads[u].pc.id == id ==> u == t
    ensures var step := Act(t, id, action);
            Told(DoAct(s, t, id, action), id, asked, first || (IsDecide(step, id) && asked),
                 EndNext(end, step, id), TakenNext(taken, s, step, id), direct)
  {
    var s' := DoAct(s, t, id, action);
    var step := Act(t, id, action);
    var first', end', taken' := first || (IsDecide(step, id) && asked), EndNext(end, step, id),
                                TakenNext(taken, s, step, id);
    OwnPcTold(s, t, id, action, asked, first, end, taken, direct);
    OwnRunTold(s, t, id, action, asked, first, end, taken, direct);
    OwnRowTold(s, t, id, action, asked, first, end, taken, direct);
    forall u | u in s'.threads && !s'.threads[u].pc.Locked? && s'.threads[u].pc.id == id
      ensures u == t
    {
      if u != t {
        BystanderStays(s, t, id, action, u);
      }
    }
  }

  lemma OwnPcTold(s: State, t: nat, id: TaskId, action: Action, asked: bool, first: bool,
                  end: Option<Option<string>>, taken: Option<Snapshot>, direct: bool)
    requires CanAct(s, t, id, action) && !s.threads[t].pc.Locked?
    requires Told(s, id, asked, first, end, taken, direct) && ThreadOk(s, t)
    ensures var step := Act(t, id, action); var s' := DoAct(s, t, id, action);
            t in s'.threads ==>
              && PcSettles(s'.threads[t].pc, first || (IsDecide(step, id) && asked),
                           EndNext(end, step, id), TakenNext(taken, s, step, id))
              && (s'.threads[t].pc.Drawn? || s'.threads[t].pc.Inserted? ==> !asked)
  {
    if action.Decide? {
      OutcomeSettles(s.threads[t].pc.snap, id, asked, s.threads[t].pc.err);
    }
  }

  lemma OutcomeSettles(snap: Snapshot, id: TaskId, canceled: bool, err: Option<string>)
    ensures Settles(Outcome(snap, id, canceled, err), id, canceled, err, snap)
  {
  }

  lemma OwnRunTold(s: State, t: nat, id: TaskId, action: Action, asked: bool, first: bool,
                   end: Option<Option<string>>, taken: Option<Snapshot>, direct: bool)
    requires CanAct(s, t, id, action) && !s.threads[t].pc.Locked? && ThreadOk(s, t)
    requires Told(s, id, asked, first, end, taken, direct)
    ensures var step := Act(t, id, action); var s' := DoAct(s, t, id, action);
            var end', taken' := EndNext(end, step, id), TakenNext(taken, s, step, id);
            id in s'.runs ==>
              && (s'.runs[id].canceled <==> asked)
              && (s'.runs[id].final.Some? ==>
                    end'.Some? && taken'.Some? &&
                    Settles(s'.runs[id].final.value, id, first || (IsDecide(step, id) && asked),
                            end'.value, taken'.value))
  {
  }

  lemma OwnRowTold(s: State, t: nat, id: TaskId, action: Action, asked: bool, first: bool,
                   end: Option<Option<string>>, taken: Option<Snapshot>, direct: bool)
    requires CanAct(s, t, id, action) && !s.threads[t].pc.Locked? && ThreadOk(s, t)
    requires Told(s, id, asked, first, end, taken, direct)
    ensures var step := Act(t, id, action); var s' := DoAct(s, t, id, action);
            var end', taken' := EndNext(end, step, id), TakenNext(taken, s, step, id);
            id in s'.rows && !s'.rows[id].status.Running? && !direct ==>
              IsRecovered(s'.rows[id]) ||
              (end'.Some? && taken'.Some? &&
               RowSettles(s'.rows[id], first || (IsDecide(step, id) && asked), end'.value, taken'.value))
  {
  }

  lemma ToldOnRun(s: State, on: TaskId, event: RunEvent, id: TaskId, asked: bool, first: bool,
                  end: Option<Option<string>>, taken: Option<Snapshot>, direct: bool)
    requires Guard(s, OnRun(on, event)) && Told(s, id, asked, first, end, taken, direct)
    requires id in s.runs ==> Begun(s, id)
    ensures var step := OnRun(on, event);
            Told(Do(s, step), id, asked || IsAsk(step, id), first, end, taken, direct)
  {
  }

  lemma ToldByRest(s: State, step: Step, id: TaskId, asked: bool, first: bool,
                   end: Option<Option<string>>, taken: Option<Snapshot>, direct: bool)
    requires Guard(s, step) && !step.Act? && !step.OnRun? && Told(s, id, asked, first, end, taken, direct)
    requires GlobalOk(s)
    ensures Told(Do(s, step), id, asked, first, end, taken, direct || IsDirect(step, id))
  {
  }

  // ----- Whole runs

  lemma AskedSnoc(before: seq<Step>, step: Step, id: TaskId)
    ensures Asked(before + [step], id) <==> Asked(before, id) || IsAsk(step, id)
  {
    var steps := before + [step];
    if Asked(before, id) {
      var k :| 0 <= k < |before| && IsAsk(before[k], id);
      assert IsAsk(steps[k], id);
    }
    assert steps[|before|] == step;
  }

  lemma DirectSnoc(before: seq<Step>, step: Step, id: TaskId)
    ensures Direct(before + [step], id) <==> Direct(before, id) || IsDirect(step, id)
  {
    var steps := before + [step];
    if Direct(before, id) {
      var k :| 0 <= k < |before| && IsDirect(before[k], id);
      assert IsDirect(steps[k], id);
    }
    assert steps[|before|] == step;
  }

  lemma AskedFirstSnoc(before: seq<Step>, step: Step, id: TaskId)
    ensures AskedFirst(before + [step], id) <==> AskedFirst(before, id) || (IsDecide(step, id) && Asked(before, id))
  {
    var steps := before + [step];
    assert steps[..|before|] == before && steps[|before|] == step;
    if AskedFirst(before, id) {
      var d :| 0 <= d < |before| && IsDecide(before[d], id) && Asked(before[..d], id);
      assert steps[d] == before[d] && steps[..d] == before[..d];
    }
    if AskedFirst(steps, id) {
      var d :| 0 <= d < |steps| && IsDecide(steps[d], id) && Asked(steps[..d], id);
      if d < |before| {
        assert steps[d] == before[d] && steps[..d] == before[..d];
      }
    }
  }

  lemma {:induction false} ToldAlways(steps: seq<Step>, id: TaskId)
    requires CanRun(INITIAL, steps)
    ensures Told(After(INITIAL, steps), id, Asked(steps, id), AskedFirst(steps, id), EndOf(steps, id),
                 TakenOf(steps, id), Direct(steps, id))
    decreases |steps|
  {
    if steps != [] {
      var before, step := steps[..|steps| - 1], steps[|steps| - 1];
      ToldAlways(before, id);
      InvAlways(INITIAL, before);
      ToldKept(After(INITIAL, before), step, id, Asked(before, id), AskedFirst(before, id), EndOf(before, id),
               TakenOf(before, id), Direct(before, id));
      assert before + [step] == steps;
      AskedSnoc(before, step, id);
      AskedFirstSnoc(before, step, id);
      DirectSnoc(before, step, id);
    }
  }

  /** In every run of steps: a settled row that was not recorded directly was failed by
      recovery, or says exactly this. It reads canceled if and only if a cancellation fired or
      the manager shut down before the run looked, whatever its executor returned; otherwise
      failed if and only if the executor returned an error or panicked; otherwise succeeded.
      Its note is the one the executor left, else the reason, and its result repeats both
      with the detail, summary and host statuses of the snapshot the run took. */
  lemma RowsTell(steps: seq<Step>, id: TaskId)
    requires CanRun(INITIAL, steps)
    requires var s := After(INITIAL, steps);
             id in s.rows && s.rows[id].status.IsTerminal() && !Direct(steps, id) && !IsRecovered(s.rows[id])
    ensures EndOf(steps, id).Some? && TakenOf(steps, id).Some?
    ensures RowSettles(After(INITIAL, steps).rows[id], AskedFirst(steps, id), EndOf(steps, id).value,
                       TakenOf(steps, id).value)
  {
    ToldAlways(steps, id);
  }

  /** What a run closes its hub with is its snapshot with this verdict and note. */
  lemma FinalsTell(steps: seq<Step>, id: TaskId)
    requires CanRun(INITIAL, steps)
    requires id in After(INITIAL, steps).runs && After(INITIAL, steps).runs[id].final.Some?
    ensures EndOf(steps, id).Some? && TakenOf(steps, id).Some?
    ensures Settles(After(INITIAL, steps).runs[id].final.value, id, AskedFirst(steps, id), EndOf(steps, id).value,
                    TakenOf(steps, id).value)
  {
    ToldAlways(steps, id);
  }

  // ----- Rows recorded directly, and requests that go through

  /** A row recorded without a run reads finished for good: as it was given, and succeeded if
      it was given unfinished. */
  lemma {:induction false} DirectRowTells(steps: seq<Step>, k: nat, id: TaskId, row: Row)
    requires CanRun(INITIAL, steps) && k < |steps| && steps[k] == RecordImmediate(id, row)
    ensures id in After(INITIAL, steps).everRows
    ensures id in After(INITIAL, steps).rows ==>
              After(INITIAL, steps).rows[id] ==
              if row.status.IsTerminal() then row else Row(row.cluster, row.at, Succeeded, row.failureNote, row.result)
    decreases |steps|
  {
    var front := steps[..|steps| - 1];
    InvAlways(INITIAL, front);
    if k < |front| {
      DirectRowTells(front, k, id, row);
      RowSettled(After(INITIAL, front), steps[|steps| - 1], id);
    }
  }

  /** An accepted cancellation can fire and then the run is canceled; a manager that shuts
      down cancels the run and can then close its hub. */
  lemma RequestsGoThrough(s: State, id: TaskId)
    requires s.phase.Up? && id in s.runs
    ensures !s.runs[id].hub.state.IsTerminal() ==>
              && Guard(Do(s, OnRun(id, CheckCancel)), OnRun(id, FireCancel))
              && Do(Do(s, OnRun(id, CheckCancel)), OnRun(id, FireCancel)).runs[id].canceled
    ensures !s.runs[id].signaled ==>
              && Do(s, OnRun(id, ShutRun)).runs[id].canceled
              && Guard(Do(s, OnRun(id, ShutRun)), OnRun(id, ShutHub))
              && Do(Do(s, OnRun(id, ShutRun)), OnRun(id, ShutHub)).runs[id].closed
  {
  }
}
