/** Whether a finished run's stored row and its hub's last snapshot say the same
    (internal/tasks/orchestrator.go:128-158, 248-259, internal/tasks/hub.go:100-178).
    `CloseAfterTerminal` leaves the hub open for a grace period, in which publishers that
    outlive their executor can still change the snapshot, and does nothing on a hub the
    manager's shutdown has shut, so the answer depends on the steps taken. */
module Agreement {
  import opened Text
  import opened Progress
  import opened History
  import opened Orchestrator

  // ----- What the steps put into a run's hub -----

  /** The last full snapshot a hub took: none, one that was published, or the one its run
      closed it with. */
  datatype Last = Nothing | Published(shown: Snapshot) | Final

  datatype Screen = Screen(open: bool, last: Last)

  function ShownNext(c: Screen, step: Step, id: TaskId): Screen {
    if step.Act? && step.id == id && step.action.Spawn? then Screen(true, Published(Initial(id)))
    else if IsClose(step, id) then (if c.open then Screen(true, Final) else c)
    else if PublishesState(step, id) then
      (if c.open then Screen(true, Published(step.event.frame.snapshot)) else c)
    else if step.OnRun? && step.id == id && (step.event.TearDown? || step.event.ShutHub?) then
      Screen(false, c.last)
    else c
  }

  function Shown(steps: seq<Step>, id: TaskId): Screen {
    if steps == [] then Screen(false, Nothing)
    else ShownNext(Shown(steps[..|steps| - 1], id), steps[|steps| - 1], id)
  }

  /** The run calls `CloseAfterTerminal`. */
  predicate IsClose(step: Step, id: TaskId) {
    step.Act? && step.id == id && step.action.CloseHub?
  }

  predicate PublishesState(step: Step, id: TaskId) {
    step.OnRun? && step.id == id && step.event.Publish? && step.event.frame.StateFrame?
  }

  /** The manager's shutdown shuts the run's hub. */
  predicate IsShut(step: Step, id: TaskId) {
    step == OnRun(id, ShutHub)
  }

  predicate Closes(steps: seq<Step>, id: TaskId) {
    exists k :: 0 <= k < |steps| && IsClose(steps[k], id)
  }

  /** `a` and `b` differ in their events at most. */
  predicate SameBar(a: Snapshot, b: Snapshot) {
    a.(events := []) == b.(events := [])
  }

  /** The hub of a registered run is what the steps put there, later events aside. */
  ghost predicate Shows(s: State, id: TaskId, c: Screen) {
    id in s.runs ==>
      var r := s.runs[id];
      && c.open == !r.closed
      && match c.last
         case Nothing => false
         case Published(t) => SameBar(r.hub, t)
         case Final => r.final.Some? && SameBar(r.hub, r.final.value)
  }

  lemma ShowsKept(s: State, step: Step, id: TaskId, c: Screen)
    requires Inv(s) && Guard(s, step) && Shows(s, id, c)
    ensures Shows(Do(s, step), id, ShownNext(c, step, id))
  {
    if step.Act? {
      ActIsStep(s, step);
      if s.threads[step.t].pc.Locked? || step.id != id {
        OthersLeft(s, step.t, step.id, step.action, id);
      } else {
        assert ThreadOk(s, step.t);
        ShowsKeptByOwn(s, step.t, id, step.action, c);
      }
    } else if step.OnRun? {
      ShowsKeptOnRun(s, step.id, step.event, id, c);
    }
  }

  lemma ShowsKeptOnRun(s: State, on: TaskId, event: RunEvent, id: TaskId, c: Screen)
    requires Guard(s, OnRun(on, event)) && Shows(s, id, c)
    ensures Shows(Do(s, OnRun(on, event)), id, ShownNext(c, OnRun(on, event), id))
  {
  }

  lemma ShowsKeptByOwn(s: State, t: nat, id: TaskId, action: Action, c: Screen)
    requires CanAct(s, t, id, action) && ThreadOk(s, t) && Shows(s, id, c)
    ensures Shows(DoAct(s, t, id, action), id, ShownNext(c, Act(t, id, action), id))
  {
  }

  lemma {:induction false} ShowsAlways(steps: seq<Step>, id: TaskId)
    requires CanRun(INITIAL, steps)
    ensures Shows(After(INITIAL, steps), id, Shown(steps, id))
    decreases |steps|
  {
    if steps != [] {
      var before, step := steps[..|steps| - 1], steps[|steps| - 1];
      ShowsAlways(before, id);
      InvAlways(INITIAL, before);
      ShowsKept(After(INITIAL, before), step, id, Shown(before, id));
    }
  }

  // ----- When the last snapshot is the final one -----

  /** The hub is shut, after its grace period or by the manager. */
  predicate IsTear(step: Step, id: TaskId) {
    step == OnRun(id, TearDown) || IsShut(step, id)
  }

  predicate Torn(steps: seq<Step>, id: TaskId) {
    exists k :: 0 <= k < |steps| && IsTear(steps[k], id)
  }

  /** `step` replaces the snapshot of a hub that its run closed and that is still open. */
  predicate IsLate(before: seq<Step>, step: Step, id: TaskId) {
    PublishesState(step, id) && Closes(before, id) && !Torn(before, id)
  }

  /** After `before`, `step` shuts the hub that its run did not close yet, or replaces the
      snapshot that its run closed the still open hub with. */
  predicate Disturbs(before: seq<Step>, step: Step, id: TaskId) {
    || (IsShut(step, id) && !Closes(before, id))
    || IsLate(before, step, id)
  }

  predicate Disturbed(steps: seq<Step>, id: TaskId) {
    exists k :: 0 <= k < |steps| && Disturbs(steps[..k], steps[k], id)
  }

  lemma ClosesSnoc(before: seq<Step>, step: Step, id: TaskId)
    ensures Closes(before + [step], id) <==> Closes(before, id) || IsClose(step, id)
  {
    var steps := before + [step];
    if Closes(before, id) {
      var k :| 0 <= k < |before| && IsClose(before[k], id);
      assert IsClose(steps[k], id);
    }
    assert steps[|before|] == step;
  }

  lemma TornSnoc(before: seq<Step>, step: Step, id: TaskId)
    ensures Torn(before + [step], id) <==> Torn(before, id) || IsTear(step, id)
  {
    var steps := before + [step];
    if Torn(before, id) {
      var k :| 0 <= k < |before| && IsTear(before[k], id);
      assert IsTear(steps[k], id);
    }
    assert steps[|before|] == step;
  }

  lemma DisturbedSnoc(before: seq<Step>, step: Step, id: TaskId)
    ensures Disturbed(before + [step], id) <==> Disturbed(before, id) || Disturbs(before, step, id)
  {
    var steps := before + [step];
    assert steps[..|before|] == before && steps[|before|] == step;
    if Disturbed(before, id) {
      var k :| 0 <= k < |before| && Disturbs(before[..k], before[k], id);
      assert steps[..k] == before[..k];
      assert Disturbs(steps[..k], steps[k], id);
    }
    if Disturbed(steps, id) {
      var k :| 0 <= k < |steps| && Disturbs(steps[..k], steps[k], id);
      if k < |before| {
        assert steps[..k] == before[..k];
        assert Disturbs(before[..k], before[k], id);
      }
    }
  }

  /** `id` was drawn and is not about to be spawned, now or ever again. */
  ghost predicate Begun(s: State, id: TaskId) {
    && id in s.drawn
    && forall t :: t in s.threads && (s.threads[t].pc.Drawn? || s.threads[t].pc.Inserted?) ==> s.threads[t].pc.id != id
  }

  lemma RunningIsBegun(s: State, id: TaskId)
    requires Inv(s) && id in s.runs
    ensures Begun(s, id)
  {
    forall t | t in s.threads && (s.threads[t].pc.Drawn? || s.threads[t].pc.Inserted?)
      ensures s.threads[t].pc.id != id
    {
      assert ThreadOk(s, t);
    }
  }

  lemma BegunKeptByAct(s: State, t: nat, id: TaskId, action: Action, run: TaskId)
    requires CanAct(s, t, id, action) && Begun(s, run)
    ensures Begun(DoAct(s, t, id, action), run)
  {
    var s' := DoAct(s, t, id, action);
    forall u | u in s'.threads && (s'.threads[u].pc.Drawn? || s'.threads[u].pc.Inserted?)
      ensures s'.threads[u].pc.id != run
    {
      if u != t {
        BystanderStays(s, t, id, action, u);
      }
    }
  }

  /** What it means for the hub of `id` that its run closed it, that it was torn down, that
      it was disturbed. */
  ghost predicate Accounted(s: State, id: TaskId, c: Screen, closes: bool, torn: bool, disturbed: bool) {
    && (disturbed ==> closes || torn)
    && (closes || torn ==> Begun(s, id))
    && (id in s.runs ==>
          && (s.runs[id].final.Some? <==> closes)
          && c.open == !torn
          && !c.last.Nothing?
          && (closes ==> (c.last.Final? <==> !disturbed))
          && (!closes ==> c.last.Published? && (disturbed <==> torn)))
  }

  lemma AccountedKept(
      s: State, step: Step, id: TaskId, c: Screen, closes: bool, torn: bool, disturbed: bool)
    requires Inv(s) && Guard(s, step) && Accounted(s, id, c, closes, torn, disturbed)
    ensures Accounted(Do(s, step), id, ShownNext(c, step, id), closes || IsClose(step, id), torn || IsTear(step, id),
                      disturbed || (IsShut(step, id) && !closes) || (PublishesState(step, id) && closes && !torn))
  {
    if id in s.runs {
      RunningIsBegun(s, id);
    }
    if step.Act? {
      ActIsStep(s, step);
      assert ThreadOk(s, step.t);
      AccountedKeptByAct(s, step.t, step.id, step.action, id, c, closes, torn, disturbed);
    } else if step.OnRun? {
      AccountedKeptOnRun(s, step.id, step.event, id, c, closes, torn, disturbed);
    }
  }

  lemma AccountedKeptByAct(s: State, t: nat, id: TaskId, action: Action, run: TaskId,
                           c: Screen, closes: bool, torn: bool, disturbed: bool)
    requires CanAct(s, t, id, action) && ThreadOk(s, t) && Accounted(s, run, c, closes, torn, disturbed)
    requires run in s.runs ==> Begun(s, run)
    ensures Accounted(DoAct(s, t, id, action), run, ShownNext(c, Act(t, id, action), run),
                      closes || IsClose(Act(t, id, action), run), torn, disturbed)
  {
    if Begun(s, run) {
      BegunKeptByAct(s, t, id, action, run);
    }
    if s.threads[t].pc.Locked? || id != run {
      OthersLeft(s, t, id, action, run);
    } else {
      AccountedKeptByOwn(s, t, run, action, c, closes, torn, disturbed);
    }
  }

  lemma AccountedKeptOnRun(
      s: State, on: TaskId, event: RunEvent, id: TaskId, c: Screen, closes: bool, torn: bool, disturbed: bool)
    requires Guard(s, OnRun(on, event)) && Accounted(s, id, c, closes, torn, disturbed)
    requires id in s.runs ==> Begun(s, id)
    ensures var step := OnRun(on, event);
            Accounted(Do(s, step), id, ShownNext(c, step, id), closes, torn || IsTear(step, id),
                      disturbed || (IsShut(step, id) && !closes) || (PublishesState(step, id) && closes && !torn))
  {
  }

  lemma AccountedKeptByOwn(
      s: State, t: nat, id: TaskId, action: Action, c: Screen, closes: bool, torn: bool, disturbed: bool)
    requires CanAct(s, t, id, action) && ThreadOk(s, t) && Accounted(s, id, c, closes, torn, disturbed)
    requires !s.threads[t].pc.Locked?
    requires Begun(s, id) || id in s.runs ==> Begun(DoAct(s, t, id, action), id)
    ensures Accounted(DoAct(s, t, id, action), id, ShownNext(c, Act(t, id, action), id),
                      closes || action.CloseHub?, torn, disturbed)
  {
  }

  lemma {:induction false} AccountedAlways(steps: seq<Step>, id: TaskId)
    requires CanRun(INITIAL, steps)
    ensures Accounted(After(INITIAL, steps), id, Shown(steps, id),
                      Closes(steps, id), Torn(steps, id), Disturbed(steps, id))
    decreases |steps|
  {
    if steps != [] {
      var before, step := steps[..|steps| - 1], steps[|steps| - 1];
      AccountedAlways(before, id);
      InvAlways(INITIAL, before);
      AccountedKept(After(INITIAL, before), step, id, Shown(before, id),
                    Closes(before, id), Torn(before, id), Disturbed(before, id));
      assert before + [step] == steps;
      ClosesSnoc(before, step, id);
      TornSnoc(before, step, id);
      DisturbedSnoc(before, step, id);
    }
  }

  // ----- Agreement -----

  /** A run that closed its hub and whose row is settled. */
  ghost predicate Finished(steps: seq<Step>, id: TaskId)
    requires CanRun(INITIAL, steps)
  {
    var s := After(INITIAL, steps);
    id in s.runs && Closes(steps, id) && id in s.rows && s.rows[id].status.IsTerminal()
  }

  ghost predicate AgreesWithHub(s: State, id: TaskId)
    requires id in s.runs && id in s.rows
  {
    Agrees(s.rows[id], s.runs[id].hub)
  }

  /** A finished run's row holds what its run closed the hub with, so it agrees with the hub
      exactly when that is still the last snapshot there, or the last one published has the
      stored result. */
  lemma AgreesExactly(steps: seq<Step>, id: TaskId)
    requires CanRun(INITIAL, steps) && Finished(steps, id)
    ensures var s := After(INITIAL, steps); var last := Shown(steps, id).last;
            && !last.Nothing?
            && (AgreesWithHub(s, id) <==>
                  last.Final? || s.rows[id].result == Some(ResultOf(last.shown)))
            && (last.Final? ==> s.runs[id].hub.taskId == id && s.runs[id].hub.state.IsTerminal())
  {
    assert Inv(INITIAL);
    InvAlways(INITIAL, steps);
    ShowsAlways(steps, id);
    AccountedAlways(steps, id);
    var s := After(INITIAL, steps);
    assert RunOk(s, id);
  }

  predicate ShutEarly(steps: seq<Step>, id: TaskId) {
    exists k :: 0 <= k < |steps| && IsShut(steps[k], id) && !Closes(steps[..k], id)
  }

  /** The finished run's row holds the state, note and result of its hub's last snapshot if
      the manager did not shut the hub before the run closed it and every state published
      after that has the stored result. */
  lemma StoredResultIsFinalSnapshot(steps: seq<Step>, id: TaskId)
    requires CanRun(INITIAL, steps) && Finished(steps, id) && !ShutEarly(steps, id)
    requires forall k :: 0 <= k < |steps| && PublishesState(steps[k], id) && Closes(steps[..k], id) ==>
               After(INITIAL, steps).rows[id].result == Some(ResultOf(steps[k].event.frame.snapshot))
    ensures AgreesWithHub(After(INITIAL, steps), id)
  {
    StoredResult(steps, id);
    AgreesExactly(steps, id);
    LateResult(steps, id, After(INITIAL, steps).rows[id].result.value);
  }

  lemma StoredResult(steps: seq<Step>, id: TaskId)
    requires CanRun(INITIAL, steps) && Finished(steps, id)
    ensures var s := After(INITIAL, steps);
            s.runs[id].final.Some? && Agrees(s.rows[id], s.runs[id].final.value) && s.rows[id].result.Some?
  {
    InvAlways(INITIAL, steps);
    AccountedAlways(steps, id);
    assert RunOk(After(INITIAL, steps), id);
  }

  predicate HasResult(last: Last, r: Result) {
    last.Final? || (last.Published? && ResultOf(last.shown) == r)
  }

  lemma HasResultKept(s: State, step: Step, id: TaskId, c: Screen, closes: bool, torn: bool, disturbed: bool, r: Result)
    requires Inv(s) && Guard(s, step) && Accounted(s, id, c, closes, torn, disturbed)
    requires id in s.runs ==> (torn ==> closes) && (closes ==> HasResult(c.last, r))
    requires closes && PublishesState(step, id) ==> ResultOf(step.event.frame.snapshot) == r
    ensures id in Do(s, step).runs && (closes || IsClose(step, id)) ==> HasResult(ShownNext(c, step, id).last, r)
  {
    if step.Act? {
      ActIsStep(s, step);
      assert ThreadOk(s, step.t);
      if s.threads[step.t].pc.Locked? || step.id != id {
        OthersLeft(s, step.t, step.id, step.action, id);
      }
    }
  }

  /** Without an early shutdown a hub is torn down only after its run closed it. */
  lemma TornAfterClose(steps: seq<Step>, id: TaskId)
    requires CanRun(INITIAL, steps) && !ShutEarly(steps, id)
    ensures id in After(INITIAL, steps).runs && Torn(steps, id) ==> Closes(steps, id)
  {
    AccountedAlways(steps, id);
    if id in After(INITIAL, steps).runs && Torn(steps, id) && !Closes(steps, id) {
      var k :| 0 <= k < |steps| && Disturbs(steps[..k], steps[k], id);
      if Closes(steps[..k], id) {
        ClosesPrefix(steps, k, id);
      }
    }
  }

  lemma ClosesPrefix(steps: seq<Step>, n: nat, id: TaskId)
    requires n <= |steps| && Closes(steps[..n], id)
    ensures Closes(steps, id)
  {
    var k :| 0 <= k < n && IsClose(steps[..n][k], id);
    assert IsClose(steps[k], id);
  }

  lemma ShutEarlyPrefix(steps: seq<Step>, n: nat, id: TaskId)
    requires n <= |steps| && ShutEarly(steps[..n], id)
    ensures ShutEarly(steps, id)
  {
    var k :| 0 <= k < n && IsShut(steps[..n][k], id) && !Closes(steps[..n][..k], id);
    assert steps[..n][..k] == steps[..k] && steps[..n][k] == steps[k];
  }

  /** Every state published after the close has the result `r`. */
  predicate LateResultsAre(steps: seq<Step>, id: TaskId, r: Result) {
    forall k :: 0 <= k < |steps| && PublishesState(steps[k], id) && Closes(steps[..k], id) ==>
      ResultOf(steps[k].event.frame.snapshot) == r
  }

  lemma {:induction false} LateResult(steps: seq<Step>, id: TaskId, r: Result)
    requires CanRun(INITIAL, steps) && !ShutEarly(steps, id) && LateResultsAre(steps, id, r)
    ensures id in After(INITIAL, steps).runs && Closes(steps, id) ==> HasResult(Shown(steps, id).last, r)
    decreases |steps|
  {
    if steps != [] {
      var before, step := steps[..|steps| - 1], steps[|steps| - 1];
      if ShutEarly(before, id) {
        ShutEarlyPrefix(steps, |steps| - 1, id);
      }
      LatePrefix(steps, |steps| - 1, id, r);
      LateResult(before, id, r);
      InvAlways(INITIAL, before);
      AccountedAlways(before, id);
      TornAfterClose(before, id);
      HasResultKept(After(INITIAL, before), step, id, Shown(before, id),
                    Closes(before, id), Torn(before, id), Disturbed(before, id), r);
      assert before + [step] == steps;
      ClosesSnoc(before, step, id);
    }
  }

  lemma LatePrefix(steps: seq<Step>, n: nat, id: TaskId, r: Result)
    requires n <= |steps| && LateResultsAre(steps, id, r)
    ensures LateResultsAre(steps[..n], id, r)
  {
    forall k | 0 <= k < n
      ensures steps[..n][k] == steps[k] && steps[..n][..k] == steps[..k]
    {
    }
  }

  // ----- What a late publisher may change

  /** The last state published between the close and the tear-down, if there was one. */
  function LastLate(steps: seq<Step>, id: TaskId): Option<Snapshot> {
    if steps == [] then None
    else
      var before, step := steps[..|steps| - 1], steps[|steps| - 1];
      if IsLate(before, step, id) then Some(step.event.frame.snapshot) else LastLate(before, id)
  }

  /** After the close, the hub shows the final snapshot or the last late one. */
  ghost predicate LateShown(s: State, id: TaskId, c: Screen, closes: bool, late: Option<Snapshot>) {
    && (!closes ==> late.None?)
    && (id in s.runs && closes ==> c.last == if late.Some? then Published(late.value) else Final)
  }

  lemma LateShownKept(s: State, step: Step, id: TaskId, c: Screen, closes: bool, torn: bool, disturbed: bool,
                      late: Option<Snapshot>)
    requires Inv(s) && Guard(s, step) && Accounted(s, id, c, closes, torn, disturbed)
    requires id in s.runs ==> (torn ==> closes)
    requires LateShown(s, id, c, closes, late)
    ensures LateShown(Do(s, step), id, ShownNext(c, step, id), closes || IsClose(step, id),
                      if PublishesState(step, id) && closes && !torn then Some(step.event.frame.snapshot) else late)
  {
    if step.Act? {
      ActIsStep(s, step);
      assert ThreadOk(s, step.t);
      if s.threads[step.t].pc.Locked? || step.id != id {
        OthersLeft(s, step.t, step.id, step.action, id);
      }
    }
  }

  lemma {:induction false} LateShownAlways(steps: seq<Step>, id: TaskId)
    requires CanRun(INITIAL, steps) && !ShutEarly(steps, id)
    ensures LateShown(After(INITIAL, steps), id, Shown(steps, id), Closes(steps, id), LastLate(steps, id))
    decreases |steps|
  {
    if steps != [] {
      var before, step := steps[..|steps| - 1], steps[|steps| - 1];
      if ShutEarly(before, id) {
        ShutEarlyPrefix(steps, |steps| - 1, id);
      }
      LateShownAlways(before, id);
      InvAlways(INITIAL, before);
      AccountedAlways(before, id);
      TornAfterClose(before, id);
      LateShownKept(After(INITIAL, before), step, id, Shown(before, id),
                    Closes(before, id), Torn(before, id), Disturbed(before, id), LastLate(before, id));
      assert before + [step] == steps;
      ClosesSnoc(before, step, id);
    }
  }

  // ----- Executors that leave the outcome to the manager

  /** Publishing `step` keeps the operation's state, as an in-place change of any other field
      of the snapshot does. */
  ghost predicate KeepsState(s: State, step: Step, id: TaskId) {
    PublishesState(step, id) && id in s.runs && !s.runs[id].closed ==>
      step.event.frame.snapshot.state == s.runs[id].hub.state
  }

  /** No publisher of the run sets the operation's state, also after its executor returned.
      Executors publish through `MutateState`, with functions that never assign it. */
  ghost predicate NeverSetsState(steps: seq<Step>, id: TaskId) {
    forall k :: 0 <= k < |steps| && CanRun(INITIAL, steps[..k]) ==>
      KeepsState(After(INITIAL, steps[..k]), steps[k], id)
  }

  lemma NeverSetsPrefix(steps: seq<Step>, n: nat, id: TaskId)
    requires n <= |steps| && NeverSetsState(steps, id)
    ensures NeverSetsState(steps[..n], id)
  {
    forall k | 0 <= k < n && CanRun(INITIAL, steps[..n][..k])
      ensures KeepsState(After(INITIAL, steps[..n][..k]), steps[..n][k], id)
    {
      assert steps[..n][..k] == steps[..k] && steps[..n][k] == steps[k];
    }
  }

  lemma LastKeepsState(steps: seq<Step>, id: TaskId)
    requires CanRun(INITIAL, steps) && NeverSetsState(steps, id) && steps != []
    ensures KeepsState(After(INITIAL, steps[..|steps| - 1]), steps[|steps| - 1], id)
  {
  }

  /** The hub reads running until its run closes it, and for good when it was shut before;
      afterwards it reads what the run settled on. */
  ghost predicate StateShown(s: State, id: TaskId, closes: bool, early: bool) {
    && (closes || early ==> Begun(s, id))
    && (id in s.runs ==>
          var r := s.runs[id];
          && (r.final.Some? <==> closes)
          && (early ==> r.closed && r.hub.state.Running?)
          && (!closes ==> r.hub.state.Running? && (r.closed <==> early))
          && (closes && !early ==> r.hub.state == r.final.value.state))
  }

  lemma StateShownKept(s: State, step: Step, id: TaskId, closes: bool, early: bool)
    requires Inv(s) && Guard(s, step) && StateShown(s, id, closes, early) && KeepsState(s, step, id)
    ensures StateShown(Do(s, step), id, closes || IsClose(step, id), early || (IsShut(step, id) && !closes))
  {
    if id in s.runs {
      RunningIsBegun(s, id);
    }
    if step.Act? {
      ActIsStep(s, step);
      assert ThreadOk(s, step.t);
      StateShownByAct(s, step.t, step.id, step.action, id, closes, early);
    } else if step.OnRun? {
      StateShownOnRun(s, step.id, step.event, id, closes, early);
    }
  }

  lemma StateShownByAct(s: State, t: nat, id: TaskId, action: Action, run: TaskId, closes: bool, early: bool)
    requires CanAct(s, t, id, action) && ThreadOk(s, t) && StateShown(s, run, closes, early)
    requires run in s.runs ==> Begun(s, run)
    ensures StateShown(DoAct(s, t, id, action), run, closes || IsClose(Act(t, id, action), run), early)
  {
    if Begun(s, run) {
      BegunKeptByAct(s, t, id, action, run);
    }
    if s.threads[t].pc.Locked? || id != run {
      OthersLeft(s, t, id, action, run);
    }
  }

  lemma StateShownOnRun(s: State, on: TaskId, event: RunEvent, id: TaskId, closes: bool, early: bool)
    requires Guard(s, OnRun(on, event)) && StateShown(s, id, closes, early)
    requires KeepsState(s, OnRun(on, event), id) && (id in s.runs ==> Begun(s, id))
    ensures var step := OnRun(on, event);
            StateShown(Do(s, step), id, closes, early || (IsShut(step, id) && !closes))
  {
  }

  lemma ShutEarlySnoc(before: seq<Step>, step: Step, id: TaskId)
    ensures ShutEarly(before + [step], id) <==> ShutEarly(before, id) || (IsShut(step, id) && !Closes(before, id))
  {
    var steps := before + [step];
    assert steps[..|before|] == before && steps[|before|] == step;
    if ShutEarly(before, id) {
      ShutEarlyPrefix(steps, |before|, id);
    }
    if ShutEarly(steps, id) {
      var k :| 0 <= k < |steps| && IsShut(steps[k], id) && !Closes(steps[..k], id);
      if k < |before| {
        assert steps[..k] == before[..k] && steps[k] == before[k];
      }
    }
  }

  lemma {:induction false} StateShownAlways(steps: seq<Step>, id: TaskId)
    requires CanRun(INITIAL, steps) && NeverSetsState(steps, id)
    ensures StateShown(After(INITIAL, steps), id, Closes(steps, id), ShutEarly(steps, id))
    decreases |steps|
  {
    if steps != [] {
      var before, step := steps[..|steps| - 1], steps[|steps| - 1];
      NeverSetsPrefix(steps, |steps| - 1, id);
      LastKeepsState(steps, id);
      StateShownAlways(before, id);
      StateShownNext(before, step, id);
      assert before + [step] == steps;
    }
  }

  lemma StateShownNext(before: seq<Step>, step: Step, id: TaskId)
    requires CanRun(INITIAL, before) && Guard(After(INITIAL, before), step)
    requires StateShown(After(INITIAL, before), id, Closes(before, id), ShutEarly(before, id))
    requires KeepsState(After(INITIAL, before), step, id)
    ensures StateShown(Do(After(INITIAL, before), step), id,
                       Closes(before + [step], id), ShutEarly(before + [step], id))
  {
    InvAlways(INITIAL, before);
    StateShownKept(After(INITIAL, before), step, id, Closes(before, id), ShutEarly(before, id));
    ClosesSnoc(before, step, id);
    ShutEarlySnoc(before, step, id);
  }

  /** `t` has the stored detail, summary, host statuses and note. */
  predicate SameReport(stored: Option<Result>, t: Snapshot) {
    stored.Some? && ResultOf(t).(state := stored.value.state) == stored.value
  }

  /** For an executor whose publishers never set the state, whether they stop when it returns
      or not: a finished run's row agrees with its hub if and only if no shutdown of the
      manager shut the hub before the run closed it, and the last state published between
      that close and the tear-down, if any, has the stored detail, summary, host statuses
      and note. */
  lemma AgreesUnlessShutOrChanged(steps: seq<Step>, id: TaskId)
    requires CanRun(INITIAL, steps) && Finished(steps, id) && NeverSetsState(steps, id)
    ensures var s := After(INITIAL, steps); var late := LastLate(steps, id);
            AgreesWithHub(s, id) <==>
            !ShutEarly(steps, id) && (late.Some? ==> SameReport(s.rows[id].result, late.value))
  {
    StoredResult(steps, id);
    StateShownAlways(steps, id);
    InvAlways(INITIAL, steps);
    assert RunOk(After(INITIAL, steps), id);
    if !ShutEarly(steps, id) {
      ShowsAlways(steps, id);
      LateShownAlways(steps, id);
    }
  }

  // ----- Executors that stop publishing when they return -----

  predicate IsReturn(step: Step, id: TaskId) {
    step.Act? && step.id == id && (step.action.Return? || step.action.Panic?)
  }

  predicate Returns(steps: seq<Step>, id: TaskId) {
    exists k :: 0 <= k < |steps| && IsReturn(steps[k], id)
  }

  predicate QuietAfterReturn(steps: seq<Step>, id: TaskId) {
    forall k :: 0 <= k < |steps| && PublishesState(steps[k], id) ==> !Returns(steps[..k], id)
  }

  predicate PastReturn(pc: Pc) {
    pc.Returned? || pc.Snapped? || pc.Decided? || pc.Recorded? || pc.Closed? || pc.Swept?
  }

  lemma ReturnsSnoc(before: seq<Step>, step: Step, id: TaskId)
    ensures Returns(before + [step], id) <==> Returns(before, id) || IsReturn(step, id)
  {
    var steps := before + [step];
    if Returns(before, id) {
      var k :| 0 <= k < |before| && IsReturn(before[k], id);
      assert IsReturn(steps[k], id);
    }
    assert steps[|before|] == step;
  }

  /** A run closes its hub only after its executor returned. */
  lemma {:induction false} ReturnsFirst(steps: seq<Step>, t: nat, id: TaskId)
    requires CanRun(INITIAL, steps)
    ensures t in After(INITIAL, steps).threads && PastReturn(After(INITIAL, steps).threads[t].pc) ==>
              Returns(steps, After(INITIAL, steps).threads[t].pc.id)
    ensures Closes(steps, id) ==> Returns(steps, id)
    decreases |steps|
  {
    if steps != [] {
      var before, step := steps[..|steps| - 1], steps[|steps| - 1];
      var s := After(INITIAL, before);
      ReturnsFirst(before, t, id);
      assert before + [step] == steps;
      ClosesSnoc(before, step, id);
      ReturnsSnoc(before, step, id);
      if IsClose(step, id) {
        ReturnsFirst(before, step.t, id);
      }
      if t in Do(s, step).threads && PastReturn(Do(s, step).threads[t].pc) {
        ReturnsSnoc(before, step, Do(s, step).threads[t].pc.id);
        if step.Act? {
          ActIsStep(s, step);
          if step.t == t {
            OwnReturn(s, t, step.id, step.action);
          } else {
            BystanderStays(s, step.t, step.id, step.action, t);
          }
        }
      }
    }
  }

  lemma OwnReturn(s: State, t: nat, id: TaskId, action: Action)
    requires CanAct(s, t, id, action)
    requires t in DoAct(s, t, id, action).threads && PastReturn(DoAct(s, t, id, action).threads[t].pc)
    ensures DoAct(s, t, id, action).threads[t].pc.id == id && !s.threads[t].pc.Locked? && s.threads[t].pc.id == id
    ensures PastReturn(s.threads[t].pc) || action.Return? || action.Panic?
  {
  }

  /** Whatever states an executor publishes, if it publishes none once it has returned or
      panicked and the manager does not shut the hub before the run closed it, row and hub
      agree. */
  lemma QuietAgrees(steps: seq<Step>, id: TaskId)
    requires CanRun(INITIAL, steps) && Finished(steps, id)
    requires QuietAfterReturn(steps, id) && !ShutEarly(steps, id)
    ensures AgreesWithHub(After(INITIAL, steps), id)
  {
    forall k | 0 <= k < |steps| && PublishesState(steps[k], id)
      ensures !Closes(steps[..k], id)
    {
      PrefixRuns(INITIAL, steps, k);
      ReturnsFirst(steps[..k], 0, id);
    }
    StoredResultIsFinalSnapshot(steps, id);
  }

  /** If moreover it never sets the state, they agree if and only if the manager does not shut
      the hub before the run closed it. */
  lemma QuietAgreesUnlessShut(steps: seq<Step>, id: TaskId)
    requires CanRun(INITIAL, steps) && Finished(steps, id)
    requires NeverSetsState(steps, id) && QuietAfterReturn(steps, id)
    ensures AgreesWithHub(After(INITIAL, steps), id) <==> !ShutEarly(steps, id)
  {
    AgreesUnlessShutOrChanged(steps, id);
    if !ShutEarly(steps, id) {
      QuietAgrees(steps, id);
    }
  }

  // ----- Runs on which they differ -----

  /** A serving process in which thread 1 alone is in flight, with task 7. */
  function Alone(c: Cluster, pc: Pc, r: RunInfo, row: Row): State {
    State(Up, {c}, map[1 := Thread(c, pc)], map[7 := r], map[7 := row], map[7 := 1], {7}, true)
  }

  /** From boot until task 7 was spawned, and from its executor's return until its hub was
      closed. */
  function Starting(c: Cluster): seq<Step> {
    [Boot, Serve, TakeLock(1, c), Act(1, 0, DrawId(7)), Act(1, 7, InsertRow(0)), Act(1, 7, Spawn)]
  }

  const ENDING := [
    Act(1, 7, Return(None)), Act(1, 7, Snap), Act(1, 7, Decide), Act(1, 7, UpdateRow), Act(1, 7, CloseHub)]

  /** `steps` can be taken from the start and lead to `s`. */
  ghost predicate Leads(steps: seq<Step>, s: State) {
    CanRun(INITIAL, steps) && After(INITIAL, steps) == s
  }

  lemma LeadsOn(steps: seq<Step>, s: State, step: Step)
    requires Leads(steps, s) && Guard(s, step)
    ensures Leads(steps + [step], Do(s, step))
  {
    OneMore(INITIAL, steps, step);
  }

  /** The process serves, and thread 1 holds the lock. */
  function Held(c: Cluster): State {
    State(Up, {c}, map[1 := Thread(c, Locked)], map[], map[], map[], {}, true)
  }

  /** Thread 1 has its id, and then its row. */
  function Given(c: Cluster): State {
    State(Up, {c}, map[1 := Thread(c, Drawn(7))], map[], map[], map[7 := 1], {}, true)
  }

  function Entered(c: Cluster): State {
    State(Up, {c}, map[1 := Thread(c, Inserted(7))], map[], map[7 := Row(c, 0, Running, "", None)],
          map[7 := 1], {7}, true)
  }

  lemma BootServes(c: Cluster)
    ensures Leads(Starting(c)[..3], Held(c))
  {
    var listed := INITIAL.(phase := Recovering({}));
    assert RunningIds(map[]) == {};
    LeadsOn([], INITIAL, Boot);
    LeadsOn([Boot], listed, Serve);
    LeadsOn([Boot, Serve], listed.(phase := Up), TakeLock(1, c));
    assert [] + [Boot] == [Boot];
    assert [Boot] + [Serve] == [Boot, Serve];
    assert [Boot, Serve] + [TakeLock(1, c)] == Starting(c)[..3];
  }

  /** What thread 1 does, one by one. */
  lemma AloneDraws(c: Cluster)
    ensures var step := Act(1, 0, DrawId(7)); Guard(Held(c), step) && Do(Held(c), step) == Given(c)
  {
  }

  lemma AloneInserts(c: Cluster)
    ensures var step := Act(1, 7, InsertRow(0)); Guard(Given(c), step) && Do(Given(c), step) == Entered(c)
  {
  }

  lemma AloneSpawns(c: Cluster)
    ensures var step := Act(1, 7, Spawn);
            && Guard(Entered(c), step)
            && Do(Entered(c), step) == Alone(c, Executing(7), Started(7), Row(c, 0, Running, "", None))
  {
  }

  lemma AloneReturns(c: Cluster, r: RunInfo, row: Row)
    ensures var s, step := Alone(c, Executing(7), r, row), Act(1, 7, Return(None));
            Guard(s, step) && Do(s, step) == Alone(c, Returned(7, None), r, row)
  {
  }

  lemma AloneSnaps(c: Cluster, r: RunInfo, row: Row)
    ensures var s, step := Alone(c, Returned(7, None), r, row), Act(1, 7, Snap);
            Guard(s, step) && Do(s, step) == Alone(c, Snapped(7, None, r.hub), r, row)
  {
  }

  lemma AloneDecides(c: Cluster, r: RunInfo, row: Row, snap: Snapshot)
    ensures var s, step := Alone(c, Snapped(7, None, snap), r, row), Act(1, 7, Decide);
            && Guard(s, step)
            && Do(s, step) == Alone(c, Decided(7, Outcome(snap, 7, r.canceled, None)), r, row)
  {
  }

  lemma AloneRecords(c: Cluster, r: RunInfo, row: Row, final: Snapshot)
    ensures var s, step := Alone(c, Decided(7, final), r, row), Act(1, 7, UpdateRow);
            Guard(s, step) && Do(s, step) == Alone(c, Recorded(7, final), r, FinalRow(row, final))
  {
  }

  lemma AloneCloses(c: Cluster, r: RunInfo, row: Row, final: Snapshot)
    ensures var s, step := Alone(c, Recorded(7, final), r, row), Act(1, 7, CloseHub);
            Guard(s, step) && Do(s, step) == Alone(c, Closed(7), HubClosed(r, final), row)
  {
  }

  lemma AloneTold(c: Cluster, pc: Pc, r: RunInfo, row: Row, event: RunEvent)
    requires event.Publish? || event.ShutRun? || (event.ShutHub? && r.shutting && !r.signaled)
    ensures var s, step := Alone(c, pc, r, row), OnRun(7, event);
            Guard(s, step) && Do(s, step) == Alone(c, pc, Told(r, event), row)
  {
  }

  lemma Spawned(c: Cluster)
    ensures Leads(Starting(c), Alone(c, Executing(7), Started(7), Row(c, 0, Running, "", None)))
  {
    BootServes(c);
    AloneDraws(c);
    LeadsOn(Starting(c)[..3], Held(c), Act(1, 0, DrawId(7)));
    AloneInserts(c);
    assert Starting(c)[..3] + [Act(1, 0, DrawId(7))] == Starting(c)[..4];
    LeadsOn(Starting(c)[..4], Given(c), Act(1, 7, InsertRow(0)));
    AloneSpawns(c);
    assert Starting(c)[..4] + [Act(1, 7, InsertRow(0))] == Starting(c)[..5];
    LeadsOn(Starting(c)[..5], Entered(c), Act(1, 7, Spawn));
    assert Starting(c)[..5] + [Act(1, 7, Spawn)] == Starting(c);
  }

  /** The executor of task 7 returns, the outcome is recorded, the hub closed with it. */
  lemma Ended(before: seq<Step>, c: Cluster, r: RunInfo, row: Row)
    requires Leads(before, Alone(c, Executing(7), r, row))
    ensures var final := Outcome(r.hub, 7, r.canceled, None);
            Leads(before + ENDING, Alone(c, Closed(7), HubClosed(r, final), FinalRow(row, final)))
  {
    var final := Outcome(r.hub, 7, r.canceled, None);
    AloneReturns(c, r, row);
    LeadsOn(before, Alone(c, Executing(7), r, row), ENDING[0]);
    AloneSnaps(c, r, row);
    LeadsOn(before + [ENDING[0]], Alone(c, Returned(7, None), r, row), ENDING[1]);
    AloneDecides(c, r, row, r.hub);
    Chained(before, ENDING, 1);
    LeadsOn(before + ENDING[..2], Alone(c, Snapped(7, None, r.hub), r, row), ENDING[2]);
    AloneRecords(c, r, row, final);
    Chained(before, ENDING, 2);
    LeadsOn(before + ENDING[..3], Alone(c, Decided(7, final), r, row), ENDING[3]);
    AloneCloses(c, r, FinalRow(row, final), final);
    Chained(before, ENDING, 3);
    LeadsOn(before + ENDING[..4], Alone(c, Recorded(7, final), r, FinalRow(row, final)), ENDING[4]);
    Chained(before, ENDING, 4);
  }

  lemma Chained(before: seq<Step>, more: seq<Step>, k: nat)
    requires k < |more|
    ensures before + more[..k] + [more[k]] == before + more[..k + 1]
    ensures k + 1 == |more| ==> before + more[..k + 1] == before + more
    ensures k == 1 ==> before + more[..k] == before + [more[0]]
  {
  }

  lemma EndsClosed(before: seq<Step>)
    ensures Closes(before + ENDING, 7)
  {
    assert IsClose((before + ENDING)[|before| + 4], 7);
  }

  const SHUTTING := [OnRun(7, ShutRun), OnRun(7, ShutHub)]

  lemma Shut(before: seq<Step>, c: Cluster, r: RunInfo, row: Row)
    requires Leads(before, Alone(c, Executing(7), r, row)) && !r.signaled
    ensures Leads(before + SHUTTING, Alone(c, Executing(7), Told(Told(r, ShutRun), ShutHub), row))
  {
    AloneTold(c, Executing(7), r, row, ShutRun);
    LeadsOn(before, Alone(c, Executing(7), r, row), SHUTTING[0]);
    AloneTold(c, Executing(7), Told(r, ShutRun), row, ShutHub);
    LeadsOn(before + [SHUTTING[0]], Alone(c, Executing(7), Told(r, ShutRun), row), SHUTTING[1]);
    assert before + [SHUTTING[0]] + [SHUTTING[1]] == before + SHUTTING;
  }

  /** The manager shuts down while a task runs. Nothing is ever published and every update
      succeeds, yet in the end the row reads canceled and the hub running. */
  lemma ShutdownDisagrees(c: Cluster)
    ensures var steps := Starting(c) + SHUTTING + ENDING;
            && CanRun(INITIAL, steps) && Finished(steps, 7) && After(INITIAL, steps).recorded
            && After(INITIAL, steps).rows[7].status.Canceled? && After(INITIAL, steps).runs[7].hub.state.Running?
            && !AgreesWithHub(After(INITIAL, steps), 7)
  {
    Spawned(c);
    Shut(Starting(c), c, Started(7), Row(c, 0, Running, "", None));
    Ended(Starting(c) + SHUTTING, c, Told(Told(Started(7), ShutRun), ShutHub), Row(c, 0, Running, "", None));
    EndsClosed(Starting(c) + SHUTTING);
  }

  const HOST := HostStatus("h", "host", "running", "installing")
  const SEEDED := Initial(7).(hostStatuses := [HOST])
  const SETTLED := SEEDED.(state := Succeeded)
  const LATER := SETTLED.(hostStatuses := [HOST.(state := "succeeded", detail := "installed")])

  function Publishing(t: Snapshot): Step {
    OnRun(7, Publish(StateFrame(t)))
  }

  function LateRun(c: Cluster): seq<Step> {
    Starting(c) + [Publishing(SEEDED)] + ENDING + [Publishing(LATER)]
  }

  /** A goroutine that drains its step events and is not waited for (internal/deploy/
      executor.go:101-121) updates a host's status after the run closed its hub: row and hub
      both read succeeded, and differ in the host statuses. */
  lemma LatePublishDisagrees(c: Cluster)
    ensures var steps := LateRun(c);
            && CanRun(INITIAL, steps) && Finished(steps, 7) && After(INITIAL, steps).recorded
            && After(INITIAL, steps).rows[7].status.Succeeded? && After(INITIAL, steps).runs[7].hub.state.Succeeded?
            && After(INITIAL, steps).rows[7].result.Some?
            && After(INITIAL, steps).rows[7].result.value.hostStatuses == [HOST]
            && After(INITIAL, steps).runs[7].hub.hostStatuses == LATER.hostStatuses != [HOST]
            && !AgreesWithHub(After(INITIAL, steps), 7)
  {
    var row := Row(c, 0, Running, "", None);
    var r := Told(Started(7), Publish(StateFrame(SEEDED)));
    var seeding := Starting(c) + [Publishing(SEEDED)];
    SeededRunEnds(c);
    LatePublished(seeding + ENDING, c, HubClosed(r, SETTLED), FinalRow(row, SETTLED));
    EndsClosed(seeding);
    ClosesSnoc(seeding + ENDING, Publishing(LATER), 7);
  }

  lemma LatePublished(before: seq<Step>, c: Cluster, r: RunInfo, row: Row)
    requires Leads(before, Alone(c, Closed(7), r, row)) && !r.closed
    ensures Leads(before + [Publishing(LATER)], Alone(c, Closed(7), r.(hub := LATER), row))
  {
    AloneTold(c, Closed(7), r, row, Publish(StateFrame(LATER)));
    LeadsOn(before, Alone(c, Closed(7), r, row), Publishing(LATER));
  }

  /** In that run no publisher sets the state. */
  lemma LateRunNeverSetsState(c: Cluster)
    ensures NeverSetsState(LateRun(c), 7)
  {
    var steps, seeding := LateRun(c), Starting(c) + [Publishing(SEEDED)];
    LatePublishes(c);
    forall k | 0 <= k < |steps| && CanRun(INITIAL, steps[..k])
      ensures KeepsState(After(INITIAL, steps[..k]), steps[k], 7)
    {
      if k == 6 {
        assert steps[..k] == Starting(c);
        Spawned(c);
      } else if k == 12 {
        assert steps[..k] == seeding + ENDING;
        SeededRunEnds(c);
      }
    }
  }

  lemma LatePublishes(c: Cluster)
    ensures |LateRun(c)| == 13
    ensures forall k :: 0 <= k < 13 && k != 6 && k != 12 ==> !PublishesState(LateRun(c)[k], 7)
    ensures LateRun(c)[6] == Publishing(SEEDED) && LateRun(c)[12] == Publishing(LATER)
  {
  }

  lemma SeededRunEnds(c: Cluster)
    ensures var row := Row(c, 0, Running, "", None);
            var r := Told(Started(7), Publish(StateFrame(SEEDED)));
            Leads(Starting(c) + [Publishing(SEEDED)] + ENDING,
                  Alone(c, Closed(7), HubClosed(r, SETTLED), FinalRow(row, SETTLED)))
  {
    var row := Row(c, 0, Running, "", None);
    var r := Told(Started(7), Publish(StateFrame(SEEDED)));
    Spawned(c);
    AloneTold(c, Executing(7), Started(7), row, Publish(StateFrame(SEEDED)));
    LeadsOn(Starting(c), Alone(c, Executing(7), Started(7), row), Publishing(SEEDED));
    Ended(Starting(c) + [Publishing(SEEDED)], c, r, row);
    assert Outcome(SEEDED, 7, false, None) == SETTLED;
  }
}
