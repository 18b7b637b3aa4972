/** What a cutover returns (internal/migration/executor.go:140-202), read off the steps that
    were taken: which of them failed decides how the run ends, and nothing else does. */
module CutoverVerdict {
  import opened Text
  import opened HostOps
  import opened Cutover

  /** Some host failed a step of the phase. */
  predicate SomeFailed(log: seq<Entry>, p: Phase) {
    exists k :: 0 <= k < |log| && log[k].phase == p && !log[k].ok
  }

  predicate SomeFailing(workers: seq<Worker>) {
    exists i :: 0 <= i < |workers| && workers[i].Failing?
  }

  /** What the verification answered, if it was asked. */
  function Verified(steps: seq<Step>): Option<bool> {
    if steps == [] then None
    else
      var last := steps[|steps| - 1];
      if last.Verify? then Some(last.ok) else Verified(steps[..|steps| - 1])
  }

  /** Whether the flipped engine was stored, if that was tried. */
  function Committed(steps: seq<Step>): Option<bool> {
    if steps == [] then None
    else
      var last := steps[|steps| - 1];
      if last.Commit? then Some(last.ok) else Committed(steps[..|steps| - 1])
  }

  /** What failed so far: a step of each phase, the verification, the commit. */
  datatype Facts = Facts(pre: bool, switch: bool, stop: bool, start: bool, verified: Option<bool>,
                         committed: Option<bool>)

  function FactsOf(log: seq<Entry>, verified: Option<bool>, committed: Option<bool>): Facts {
    Facts(SomeFailed(log, PreStage), SomeFailed(log, Switch), SomeFailed(log, StopBuckit), SomeFailed(log, StartMinio),
          verified, committed)
  }

  /** The run is at `pc` because of what failed before; what may fail while it is there is
      left open. */
  predicate PcTold(pc: Pc, f: Facts) {
    match pc
    case PreStaging => !f.switch && !f.stop && !f.start && f.verified.None? && f.committed.None?
    case Switching => !f.pre && !f.stop && !f.start && f.verified.None? && f.committed.None?
    case Verifying => !f.pre && !f.switch && !f.stop && !f.start && f.verified.None? && f.committed.None?
    case Committing => !f.pre && !f.switch && !f.stop && !f.start && f.verified == Some(true) && f.committed.None?
    case Stopping => BackOut(f) && !f.start
    case Starting(stopOk) => BackOut(f) && (stopOk <==> !f.stop)
    case Done(o) =>
      match o
      case PreStageFailed => f.pre && !f.switch && !f.stop && !f.start && f.verified.None? && f.committed.None?
      case Migrated =>
        !f.pre && !f.switch && !f.stop && !f.start && f.verified == Some(true) && f.committed == Some(true)
      case CommitFailed =>
        !f.pre && !f.switch && !f.stop && !f.start && f.verified == Some(true) && f.committed == Some(false)
      case RolledBack(stopOk, startOk) => BackOut(f) && (stopOk <==> !f.stop) && (startOk <==> !f.start)
  }

  /** Pre-staged, and then a switch failed or the verification did. */
  predicate BackOut(f: Facts) {
    !f.pre && f.committed.None? && if f.switch then f.verified.None? else f.verified == Some(false)
  }

  ghost predicate Told(s: State, verified: Option<bool>, committed: Option<bool>) {
    && PcTold(s.pc, FactsOf(s.log, verified, committed))
    && (s.pc.InFan() ==>
          && s.fan.phase == s.pc.FanPhase()
          && (SomeFailed(s.log, s.pc.FanPhase()) <==> s.fan.failed || SomeFailing(s.fan.workers)))
  }

  lemma FailedSnoc(log: seq<Entry>, e: Entry, p: Phase)
    ensures SomeFailed(log + [e], p) <==> SomeFailed(log, p) || (e.phase == p && !e.ok)
  {
    var log' := log + [e];
    if SomeFailed(log, p) {
      var k :| 0 <= k < |log| && log[k].phase == p && !log[k].ok;
      assert log'[k] == log[k];
    }
    if e.phase == p && !e.ok {
      assert log'[|log|] == e;
    }
  }

  lemma MoveTold(s: State, i: nat, ok: bool, after: Host, verified: Option<bool>, committed: Option<bool>)
    requires Told(s, verified, committed) && Guard(s, Move(i, ok, after))
    ensures Told(Do(s, Move(i, ok, after)), verified, committed)
  {
    var s' := Do(s, Move(i, ok, after));
    var e := s'.log[|s.log|];
    assert s'.log == s.log + [e] && e.phase == s.fan.phase && e.ok == ok;
    FailedSnoc(s.log, e, PreStage);
    FailedSnoc(s.log, e, Switch);
    FailedSnoc(s.log, e, StopBuckit);
    FailedSnoc(s.log, e, StartMinio);
    FailingAfter(s.fan.workers, i, s'.fan.workers[i]);
  }

  lemma FailingAfter(workers: seq<Worker>, i: nat, w: Worker)
    requires i < |workers| && workers[i].At?
    ensures SomeFailing(workers[i := w]) <==> SomeFailing(workers) || w.Failing?
  {
    if SomeFailing(workers) {
      var j :| 0 <= j < |workers| && workers[j].Failing?;
      assert workers[i := w][j].Failing?;
    }
    if w.Failing? {
      assert workers[i := w][i].Failing?;
    }
  }

  function Fact(f: Facts, p: Phase): bool {
    match p
    case PreStage => f.pre
    case Switch => f.switch
    case StopBuckit => f.stop
    case StartMinio => f.start
  }

  lemma PcPassesBarrier(pc: Pc, f: Facts)
    requires pc.InFan() && PcTold(pc, f)
    ensures var next := AfterFan(pc, Fact(f, pc.FanPhase()));
            PcTold(next, f) && (next.InFan() ==> !Fact(f, next.FanPhase()))
  {
  }

  lemma PcPassesVerdict(pc: Pc, step: Step, f: Facts)
    requires PcTold(pc, f) && ((step.Verify? && pc.Verifying?) || (step.Commit? && pc.Committing?))
    ensures var next := AfterVerdict(step);
            && PcTold(next, if step.Verify? then f.(verified := Some(step.ok)) else f.(committed := Some(step.ok)))
            && (next.InFan() ==> !Fact(f, next.FanPhase()))
  {
  }

  /** A phase that begins has a fan-out in which nothing failed. */
  lemma Entered(s: State, next: Pc, verified: Option<bool>, committed: Option<bool>)
    requires PcTold(next, FactsOf(s.log, verified, committed))
    requires next.InFan() ==> !SomeFailed(s.log, next.FanPhase())
    ensures Told(Enter(s, next), verified, committed)
  {
    assert Enter(s, next).log == s.log && Enter(s, next).pc == next;
    if next.InFan() {
      assert !SomeFailing(NewFan(next.FanPhase(), |s.targets|).workers);
    }
  }

  lemma BarrierTold(s: State, verified: Option<bool>, committed: Option<bool>)
    requires Told(s, verified, committed) && Guard(s, Barrier)
    ensures Told(Do(s, Barrier), verified, committed)
  {
    assert !SomeFailing(s.fan.workers);
    var f := FactsOf(s.log, verified, committed);
    assert s.fan.failed == Fact(f, s.pc.FanPhase());
    PcPassesBarrier(s.pc, f);
    Entered(s, AfterFan(s.pc, s.fan.failed), verified, committed);
  }

  lemma ReturnTold(s: State, i: nat, verified: Option<bool>, committed: Option<bool>)
    requires Told(s, verified, committed) && Guard(s, Return(i))
    ensures Told(Do(s, Return(i)), verified, committed)
  {
    assert SomeFailing(s.fan.workers);
  }

  lemma VerdictTold(s: State, step: Step, verified: Option<bool>, committed: Option<bool>)
    requires Told(s, verified, committed) && Guard(s, step) && (step.Verify? || step.Commit?)
    ensures Told(Do(s, step), if step.Verify? then Some(step.ok) else verified,
                 if step.Commit? then Some(step.ok) else committed)
  {
    var verified' := if step.Verify? then Some(step.ok) else verified;
    var committed' := if step.Commit? then Some(step.ok) else committed;
    PcPassesVerdict(s.pc, step, FactsOf(s.log, verified, committed));
    Entered(s, AfterVerdict(step), verified', committed');
  }

  lemma StepTold(s: State, step: Step, verified: Option<bool>, committed: Option<bool>)
    requires Told(s, verified, committed) && Guard(s, step)
    ensures Told(Do(s, step), if step.Verify? then Some(step.ok) else verified,
                 if step.Commit? then Some(step.ok) else committed)
  {
    if step.Move? {
      MoveTold(s, step.i, step.ok, step.after, verified, committed);
    } else if step.Barrier? {
      BarrierTold(s, verified, committed);
    } else if step.Return? {
      ReturnTold(s, step.i, verified, committed);
    } else if !step.Cancel? {
      VerdictTold(s, step, verified, committed);
    }
  }

  lemma {:induction false} ToldAlways(targets: seq<HostId>, found: map<HostId, Host>, canceled: bool, steps: seq<Step>)
    requires Startable(targets, found) && CanRun(Init(targets, found, canceled), steps)
    ensures Told(AfterSteps(Init(targets, found, canceled), steps), Verified(steps), Committed(steps))
    decreases |steps|
  {
    if steps != [] {
      var front := steps[..|steps| - 1];
      ToldAlways(targets, found, canceled, front);
      var s := AfterSteps(Init(targets, found, canceled), front);
      StepTold(s, steps[|steps| - 1], Verified(front), Committed(front));
    }
  }

  /** How a finished run ends is decided by what failed: a pre-stage step; else a switch step
      or the verification, and then each of the two rollback flags by its own phase; else the
      commit. With nothing failed the cluster is migrated. */
  lemma OutcomeExactly(targets: seq<HostId>, found: map<HostId, Host>, canceled: bool, steps: seq<Step>)
    requires Startable(targets, found) && CanRun(Init(targets, found, canceled), steps)
    requires AfterSteps(Init(targets, found, canceled), steps).pc.Done?
    ensures var s := AfterSteps(Init(targets, found, canceled), steps);
            s.pc.outcome ==
            if SomeFailed(s.log, PreStage) then PreStageFailed
            else if SomeFailed(s.log, Switch) || Verified(steps) == Some(false)
            then RolledBack(!SomeFailed(s.log, StopBuckit), !SomeFailed(s.log, StartMinio))
            else if Committed(steps) == Some(true) then Migrated
            else CommitFailed
  {
    ToldAlways(targets, found, canceled, steps);
  }

  // ----- A run in which nothing fails goes through

  /** What a step that succeeds makes of a host at the least. */
  function Best(op: Op, h: Host): Host {
    match op
    case Install => h.(buckitInstalled := true)
    case WriteDropIn => h.(dropIn := h.dropIn || h.unitsDiffer)
    case StopMinio => h.(minioRunning := false)
    case SwapUnits => h.(minioEnabled := false, buckitRunning := true, buckitEnabled := true)
    case DisableBuckit => h.(buckitRunning := false, buckitEnabled := false)
    case Uninstall => h.(buckitInstalled := false)
    case RemoveDropIn => h.(dropIn := false)
    case EnableMinio => h.(minioRunning := true, minioEnabled := true)
    case _ => h
  }

  predicate WentWell(step: Step) {
    match step
    case Move(_, ok, _) => ok
    case Verify(ok) => ok
    case Commit(ok) => ok
    case Barrier => true
    case _ => false
  }

  ghost predicate NothingFailed(s: State) {
    && !s.canceled
    && (s.pc.InFan() ==> !s.fan.failed && !SomeFailing(s.fan.workers))
  }

  /** While nothing failed and nobody canceled, some step can be taken that succeeds, and
      nothing has failed after it: the run cannot be forced back. */
  lemma CanSucceed(s: State) returns (step: Step)
    requires HostsInv(s) && !s.pc.Done? && NothingFailed(s)
    ensures Guard(s, step) && WentWell(step) && NothingFailed(Do(s, step))
  {
    if s.pc.Verifying? {
      step := Verify(true);
    } else if s.pc.Committing? {
      step := Commit(true);
    } else if AllEnded(s.fan) {
      step := Barrier;
    } else {
      var i :| 0 <= i < |s.fan.workers| && !s.fan.workers[i].Through();
      var op := Script(s.fan.phase)[s.fan.workers[i].next];
      step := Move(i, true, Best(op, s.hosts[s.targets[i]]));
      FailingAfter(s.fan.workers, i, Do(s, step).fan.workers[i]);
    }
  }

  // ----- A canceled run begins nothing

  /** A run is canceled exactly when it began so or somebody canceled it. */
  lemma {:induction false} CanceledExactly(targets: seq<HostId>, found: map<HostId, Host>, canceled: bool,
                                           steps: seq<Step>)
    requires Startable(targets, found) && CanRun(Init(targets, found, canceled), steps)
    ensures AfterSteps(Init(targets, found, canceled), steps).canceled <==> canceled || Cancel in steps
    decreases |steps|
  {
    if steps != [] {
      CanceledExactly(targets, found, canceled, steps[..|steps| - 1]);
      CancelKept(AfterSteps(Init(targets, found, canceled), steps[..|steps| - 1]), steps[|steps| - 1]);
    }
  }

  lemma CancelKept(s: State, step: Step)
    requires Guard(s, step)
    ensures Do(s, step).canceled <==> s.canceled || step == Cancel
  {
    if step.Barrier? {
      EnterKeepsCanceled(s, AfterFan(s.pc, s.fan.failed));
    } else if step.Verify? || step.Commit? {
      EnterKeepsCanceled(s, AfterVerdict(step));
    }
  }

  lemma EnterKeepsCanceled(s: State, next: Pc)
    ensures Enter(s, next).canceled == s.canceled
  {
  }

  /** Once the run is canceled every look at its context fails, and so the first step of each
      host that was not yet being pre-staged or switched. */
  lemma CancelStops(targets: seq<HostId>, found: map<HostId, Host>, canceled: bool, steps: seq<Step>)
    requires Startable(targets, found) && CanRun(Init(targets, found, canceled), steps) && steps != []
    requires steps[|steps| - 1].Move? && (canceled || Cancel in steps[..|steps| - 1])
    ensures var log := AfterSteps(Init(targets, found, canceled), steps).log;
            |log| > 0 && (log[|log| - 1].op.CheckContext? ==> !log[|log| - 1].ok)
  {
    CanceledExactly(targets, found, canceled, steps[..|steps| - 1]);
  }
}
