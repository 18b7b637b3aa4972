/** The operator's rollback to MinIO (internal/migration/rollback.go:68-213) as a step
    relation: a serial probe of every host, then the two parallel phases over the hosts that
    may run Buckit, then the engine revert. */
module Rollback {
  import opened HostOps

  datatype Outcome = Canceled | StopFailed | StartFailed | RevertFailed | Complete

  datatype Pc =
    | Probing(next: nat)
    | Stopping | Starting | Reverting
    | Done(outcome: Outcome)
  {
    predicate InFan() {
      Stopping? || Starting?
    }

    function FanPhase(): Phase {
      if Stopping? then StopBuckit else StartMinio
    }
  }

  /** `all` are the requested hosts, `targets` those found running Buckit or not answering;
      `found` and `before` are the hosts as the run and the current phase found them. */
  datatype State = State(
    all: seq<HostId>,
    targets: seq<HostId>,
    found: map<HostId, Host>,
    before: map<HostId, Host>,
    hosts: map<HostId, Host>,
    pc: Pc,
    fan: Fan,
    canceled: bool,
    reverted: bool)

  ghost predicate Startable(all: seq<HostId>, found: map<HostId, Host>) {
    && (forall i :: 0 <= i < |all| ==> all[i] in found)
    && (forall i, j :: 0 <= i < j < |all| ==> all[i] != all[j])
  }

  function Init(all: seq<HostId>, found: map<HostId, Host>, canceled: bool): State {
    State(all, [], found, found, found, Probing(0), NewFan(StopBuckit, 0), canceled, false)
  }

  datatype Answer = Active | Inactive | NoAnswer

  datatype Step =
    | Probe(answer: Answer)
    | SeeCanceled
    | EndProbing
    | Move(i: nat, ok: bool, after: Host)
    | Return(i: nat)
    | Barrier
    | Revert(ok: bool)
    | Cancel

  predicate Guard(s: State, step: Step) {
    match step
    // `systemctl is-active` tells the truth when it answers.
    case Probe(a) =>
      && s.pc.Probing? && s.pc.next < |s.all| && !s.canceled && s.all[s.pc.next] in s.hosts
      && (a.Active? ==> s.hosts[s.all[s.pc.next]].buckitRunning)
      && (a.Inactive? ==> !s.hosts[s.all[s.pc.next]].buckitRunning)
    case SeeCanceled => s.pc.Probing? && s.pc.next < |s.all| && s.canceled
    case EndProbing => s.pc.Probing? && s.pc.next == |s.all|
    case Move(i, ok, after) =>
      && s.pc.InFan() && i < |s.targets| && s.targets[i] in s.hosts
      && CanWork(s.fan, i, s.canceled, ok, s.hosts[s.targets[i]], after)
    case Return(i) => s.pc.InFan() && i < |s.fan.workers| && s.fan.workers[i].Failing?
    case Barrier => s.pc.InFan() && AllEnded(s.fan)
    case Revert(ok) => s.pc.Reverting?
    case Cancel => !s.canceled && !s.pc.Done?
  }

  function Enter(s: State, pc: Pc): State {
    if pc.InFan() then s.(pc := pc, before := s.hosts, fan := NewFan(pc.FanPhase(), |s.targets|))
    else s.(pc := pc)
  }

  function AfterFan(pc: Pc, failed: bool): Pc {
    if pc.Stopping? then (if failed then Done(StopFailed) else Starting)
    else if failed then Done(StartFailed) else Reverting
  }

  function Do(s: State, step: Step): State
    requires Guard(s, step)
  {
    match step
    case Probe(a) =>
      s.(pc := Probing(s.pc.next + 1), targets := if a.Inactive? then s.targets else s.targets + [s.all[s.pc.next]])
    case SeeCanceled => s.(pc := Done(Canceled))
    // With no target nothing is done and the engine is left alone.
    case EndProbing => Enter(s, if s.targets == [] then Done(Complete) else Stopping)
    case Move(i, ok, after) => s.(hosts := s.hosts[s.targets[i] := after], fan := Work(s.fan, i, ok))
    case Return(i) => s.(fan := Settle(s.fan, i))
    case Barrier => Enter(s, AfterFan(s.pc, s.fan.failed))
    case Revert(ok) => s.(pc := Done(if ok then Complete else RevertFailed), reverted := ok)
    case Cancel => s.(canceled := true)
  }

  // ----- Invariant

  /** The requested hosts before the `k`th are targets or ran no Buckit. */
  ghost predicate Sorted(s: State, k: nat) {
    forall i :: 0 <= i < |s.all| && i < k ==>
      s.all[i] in s.targets || (s.all[i] in s.found && !s.found[s.all[i]].buckitRunning)
  }

  ghost predicate Framed(s: State) {
    && Startable(s.all, s.found)
    && s.hosts.Keys == s.found.Keys == s.before.Keys
    && (forall h :: h in s.found && h !in s.targets ==> s.hosts[h] == s.found[h])
    && (forall i :: 0 <= i < |s.targets| ==> s.targets[i] in s.found)
    && (forall i, j :: 0 <= i < j < |s.targets| ==> s.targets[i] != s.targets[j])
    && (forall i :: 0 <= i < |s.targets| ==> s.targets[i] in s.all)
    && match s.pc
       case Probing(k) =>
         k <= |s.all| && s.hosts == s.found && Sorted(s, k)
         && forall i, j :: k <= i < |s.all| && 0 <= j < |s.targets| ==> s.all[i] != s.targets[j]
       case Done(Canceled) => s.hosts == s.found
       case _ => Sorted(s, |s.all|)
  }

  predicate FanOk(s: State) {
    s.pc.InFan() ==>
      && s.fan.phase == s.pc.FanPhase() && |s.fan.workers| == |s.targets|
      && forall i :: 0 <= i < |s.fan.workers| ==>
           && (s.fan.workers[i].Failed? ==> s.fan.failed)
           && (s.fan.workers[i].At? ==> s.fan.workers[i].next < |Script(s.fan.phase)|)
  }

  predicate Restored(h: Host) {
    h.OnMinio() && h.OffBuckit() && !h.dropIn
  }

  /** What is known about one target at each point of the run. */
  predicate TargetOk(pc: Pc, w: Worker, before: Host, now: Host) {
    match pc
    case Probing(_) => true
    case Stopping => WorkerOk(StopBuckit, w, before, now)
    case Starting => before.OffBuckit() && !before.dropIn && WorkerOk(StartMinio, w, before, now)
    case Reverting => Restored(now)
    case Done(o) =>
      match o
      case Canceled => true
      case StopFailed => true
      case StartFailed => now.OffBuckit()
      case RevertFailed => Restored(now)
      case Complete => Restored(now)
  }

  ghost predicate Inv(s: State) {
    && Framed(s) && FanOk(s)
    && (s.targets == [] ==> s.pc.Probing? || s.pc == Done(Canceled) || s.pc == Done(Complete))
    && (s.reverted <==> s.pc == Done(Complete) && s.targets != [])
    && forall i :: 0 <= i < |s.targets| ==>
         TargetOk(s.pc, if s.pc.InFan() then s.fan.workers[i] else Finished,
                  s.before[s.targets[i]], s.hosts[s.targets[i]])
  }

  lemma MoveKeeps(s: State, i: nat, ok: bool, after: Host)
    requires Inv(s) && Guard(s, Move(i, ok, after))
    ensures Inv(Do(s, Move(i, ok, after)))
  {
    var s' := Do(s, Move(i, ok, after));
    FrameAfterMove(s, i, ok, after);
    forall j | 0 <= j < |s.targets|
      ensures TargetOk(s.pc, s'.fan.workers[j], s.before[s.targets[j]], s'.hosts[s.targets[j]])
    {
      if j == i {
        TargetMoves(s.pc, s.fan, i, ok, s.before[s.targets[i]], s.hosts[s.targets[i]], after);
      } else {
        assert s.targets[j] != s.targets[i];
      }
    }
  }

  lemma FrameAfterMove(s: State, i: nat, ok: bool, after: Host)
    requires Framed(s) && FanOk(s) && Guard(s, Move(i, ok, after))
    ensures Framed(Do(s, Move(i, ok, after))) && FanOk(Do(s, Move(i, ok, after)))
  {
  }

  lemma TargetMoves(pc: Pc, fan: Fan, i: nat, ok: bool, before: Host, now: Host, after: Host)
    requires pc.InFan() && fan.phase == pc.FanPhase() && i < |fan.workers| && fan.workers[i].At?
    requires fan.workers[i].next < |Script(fan.phase)|
    requires Effect(Script(fan.phase)[fan.workers[i].next], ok, now, after)
    requires TargetOk(pc, fan.workers[i], before, now)
    ensures TargetOk(pc, Advanced(fan, i, ok), before, after)
  {
    WorkKeeps(fan.phase, fan.workers[i].next, ok, before, now, after);
  }

  lemma TargetPassesBarrier(pc: Pc, failed: bool, w: Worker, before: Host, now: Host)
    requires pc.InFan() && TargetOk(pc, w, before, now) && w.Through() && (w.Failed? ==> failed)
    ensures var next := AfterFan(pc, failed);
            TargetOk(next, if next.InFan() then At(0) else Finished, if next.InFan() then now else before, now)
  {
  }

  lemma ReturnKeeps(s: State, i: nat)
    requires Inv(s) && Guard(s, Return(i))
    ensures Inv(Do(s, Return(i)))
  {
    var s' := Do(s, Return(i));
    SameFrame(s, s');
    forall j | 0 <= j < |s.targets|
      ensures TargetOk(s.pc, s'.fan.workers[j], s.before[s.targets[j]], s.hosts[s.targets[j]])
    {
      assert TargetOk(s.pc, s.fan.workers[j], s.before[s.targets[j]], s.hosts[s.targets[j]]);
    }
  }

  lemma SameFrame(s: State, s': State)
    requires Framed(s) && s'.(fan := s.fan) == s
    ensures Framed(s')
  {
  }

  lemma BarrierKeeps(s: State)
    requires Inv(s) && Guard(s, Barrier)
    ensures Inv(Do(s, Barrier))
  {
    forall i | 0 <= i < |s.targets|
      ensures var next, h := AfterFan(s.pc, s.fan.failed), s.targets[i];
              TargetOk(next, if next.InFan() then At(0) else Finished,
                       if next.InFan() then s.hosts[h] else s.before[h], s.hosts[h])
    {
      var h := s.targets[i];
      TargetPassesBarrier(s.pc, s.fan.failed, s.fan.workers[i], s.before[h], s.hosts[h]);
    }
  }

  lemma ProbeKeeps(s: State, a: Answer)
    requires Inv(s) && Guard(s, Probe(a))
    ensures Inv(Do(s, Probe(a)))
  {
    ProbeSorts(s, a);
  }

  lemma ProbeSorts(s: State, a: Answer)
    requires Framed(s) && Guard(s, Probe(a))
    ensures Framed(Do(s, Probe(a)))
  {
    SortedOneMore(s, a);
    TargetsOneMore(s, a);
  }

  /** The targets stay distinct requested hosts, apart from those still to be probed. */
  lemma TargetsOneMore(s: State, a: Answer)
    requires Framed(s) && Guard(s, Probe(a))
    ensures var targets := Do(s, Probe(a)).targets;
            && (forall i :: 0 <= i < |targets| ==> targets[i] in s.found && targets[i] in s.all)
            && (forall i, j :: 0 <= i < j < |targets| ==> targets[i] != targets[j])
            && (forall i, j :: s.pc.next < i < |s.all| && 0 <= j < |targets| ==> s.all[i] != targets[j])
            && (forall h :: h in s.targets ==> h in targets)
  {
  }

  lemma SortedOneMore(s: State, a: Answer)
    requires Framed(s) && Guard(s, Probe(a))
    ensures Sorted(Do(s, Probe(a)), s.pc.next + 1)
  {
    var s' := Do(s, Probe(a));
    forall i | 0 <= i < |s.all| && i <= s.pc.next
      ensures s.all[i] in s'.targets || !s.found[s.all[i]].buckitRunning
    {
      if i == s.pc.next && !a.Inactive? {
        assert s'.targets[|s.targets|] == s.all[i];
      }
    }
  }

  lemma StepKeeps(s: State, step: Step)
    requires Inv(s) && Guard(s, step)
    ensures Inv(Do(s, step)) && Do(s, step).all == s.all && Do(s, step).found == s.found
  {
    if step.Move? {
      MoveKeeps(s, step.i, step.ok, step.after);
    } else if step.Return? {
      ReturnKeeps(s, step.i);
    } else if step.Barrier? {
      BarrierKeeps(s);
    } else if step.Probe? {
      ProbeKeeps(s, step.answer);
    } else if step.EndProbing? {
      EndProbingKeeps(s);
    } else if step.Revert? {
      RevertKeeps(s, step.ok);
    } else {
      CancelKeeps(s, step);
    }
    SameRun(s, step);
  }

  lemma SameRun(s: State, step: Step)
    requires Guard(s, step)
    ensures Do(s, step).all == s.all && Do(s, step).found == s.found
  {
    if step.EndProbing? {
      EnterSame(s, if s.targets == [] then Done(Complete) else Stopping);
    } else if step.Barrier? {
      EnterSame(s, AfterFan(s.pc, s.fan.failed));
    }
  }

  lemma EnterSame(s: State, next: Pc)
    ensures Enter(s, next).all == s.all && Enter(s, next).found == s.found
    ensures Enter(s, next).targets == s.targets && Enter(s, next).pc == next
  {
  }

  lemma CancelKeeps(s: State, step: Step)
    requires Inv(s) && Guard(s, step) && (step.Cancel? || step.SeeCanceled?)
    ensures Inv(Do(s, step))
  {
  }

  lemma EndProbingKeeps(s: State)
    requires Inv(s) && Guard(s, EndProbing)
    ensures Inv(Do(s, EndProbing))
  {
  }

  lemma RevertKeeps(s: State, ok: bool)
    requires Inv(s) && Guard(s, Revert(ok))
    ensures Inv(Do(s, Revert(ok)))
  {
  }

  // ----- Whole runs

  ghost predicate CanRun(s: State, steps: seq<Step>)
    decreases |steps|, 0
  {
    steps == [] ||
    (CanRun(s, steps[..|steps| - 1]) && Guard(AfterSteps(s, steps[..|steps| - 1]), steps[|steps| - 1]))
  }

  ghost function AfterSteps(s: State, steps: seq<Step>): State
    requires CanRun(s, steps)
    decreases |steps|, 1
  {
    if steps == [] then s else Do(AfterSteps(s, steps[..|steps| - 1]), steps[|steps| - 1])
  }

  lemma {:induction false} InvAlways(all: seq<HostId>, found: map<HostId, Host>, canceled: bool, steps: seq<Step>)
    requires Startable(all, found) && CanRun(Init(all, found, canceled), steps)
    ensures var s := AfterSteps(Init(all, found, canceled), steps);
            s.all == all && s.found == found && Inv(s)
    decreases |steps|
  {
    if steps != [] {
      var front := steps[..|steps| - 1];
      InvAlways(all, found, canceled, front);
      StepKeeps(AfterSteps(Init(all, found, canceled), front), steps[|steps| - 1]);
    }
  }

  /** None of the requested hosts runs Buckit. */
  predicate NoBuckit(s: State) {
    forall i :: 0 <= i < |s.all| ==> s.all[i] in s.hosts && !s.hosts[s.all[i]].buckitRunning
  }

  lemma NoBuckitWhileOff(s: State)
    requires Inv(s) && !s.pc.Probing? && s.pc != Done(Canceled)
    requires forall i :: 0 <= i < |s.targets| ==> !s.hosts[s.targets[i]].buckitRunning
    ensures NoBuckit(s)
  {
    forall i | 0 <= i < |s.all|
      ensures !s.hosts[s.all[i]].buckitRunning
    {
      if s.all[i] in s.targets {
        var j :| 0 <= j < |s.targets| && s.targets[j] == s.all[i];
      }
    }
  }

  /** In every run, when a step starts MinIO on a host, none of the requested hosts runs
      Buckit. */
  lemma MinioStartsAfterBuckitStops(all: seq<HostId>, found: map<HostId, Host>, canceled: bool,
                                    steps: seq<Step>, h: HostId)
    requires Startable(all, found) && CanRun(Init(all, found, canceled), steps) && steps != []
    requires var front := steps[..|steps| - 1];
             var s := AfterSteps(Init(all, found, canceled), front);
             h in s.hosts && !s.hosts[h].minioRunning
    requires var s' := AfterSteps(Init(all, found, canceled), steps);
             h in s'.hosts && s'.hosts[h].minioRunning
    ensures NoBuckit(AfterSteps(Init(all, found, canceled), steps[..|steps| - 1]))
  {
    var front := steps[..|steps| - 1];
    InvAlways(all, found, canceled, front);
    var s := AfterSteps(Init(all, found, canceled), front);
    OnlyStartingStarts(s, steps[|steps| - 1], h);
    NoBuckitInStarting(s);
  }

  lemma OnlyStartingStarts(s: State, step: Step, h: HostId)
    requires Inv(s) && Guard(s, step) && h in s.hosts && !s.hosts[h].minioRunning
    requires h in Do(s, step).hosts && Do(s, step).hosts[h].minioRunning
    ensures s.pc.Starting?
  {
    assert step.Move? && s.targets[step.i] == h;
    if s.pc.Stopping? {
      StopLeavesMinio(s.fan.workers[step.i].next, step.ok, s.hosts[h], step.after);
    }
  }

  lemma StopLeavesMinio(n: nat, ok: bool, h: Host, h': Host)
    requires n < |Script(StopBuckit)| && Effect(Script(StopBuckit)[n], ok, h, h')
    ensures h'.minioRunning == h.minioRunning
  {
  }

  lemma NoBuckitInStarting(s: State)
    requires Inv(s) && s.pc.Starting?
    ensures NoBuckit(s)
  {
    forall i | 0 <= i < |s.targets|
      ensures !s.hosts[s.targets[i]].buckitRunning
    {
      assert TargetOk(s.pc, s.fan.workers[i], s.before[s.targets[i]], s.hosts[s.targets[i]]);
    }
    NoBuckitWhileOff(s);
  }

  /** When the rollback returns nil every target is back on MinIO without Buckit or its
      drop-in, and no requested host runs Buckit; the engine is reverted exactly when there
      was a target, and never when the rollback fails. Other hosts are never touched, and
      a run canceled while probing touched none. */
  lemma Results(all: seq<HostId>, found: map<HostId, Host>, canceled: bool, steps: seq<Step>)
    requires Startable(all, found) && CanRun(Init(all, found, canceled), steps)
    ensures var s := AfterSteps(Init(all, found, canceled), steps);
            && (forall h :: h in found && (h !in all || h !in s.targets) ==> h in s.hosts && s.hosts[h] == found[h])
            && (s.reverted <==> s.pc == Done(Complete) && s.targets != [])
            && (s.pc == Done(Canceled) ==> s.hosts == found)
            && (s.pc == Done(Complete) || s.pc == Done(RevertFailed) ==>
                  && NoBuckit(s)
                  && forall i :: 0 <= i < |s.targets| ==> s.targets[i] in s.hosts && Restored(s.hosts[s.targets[i]]))
  {
    InvAlways(all, found, canceled, steps);
    var s := AfterSteps(Init(all, found, canceled), steps);
    if s.pc == Done(Complete) || s.pc == Done(RevertFailed) {
      forall i | 0 <= i < |s.targets|
        ensures Restored(s.hosts[s.targets[i]])
      {
        assert TargetOk(s.pc, Finished, s.before[s.targets[i]], s.hosts[s.targets[i]]);
      }
      NoBuckitWhileOff(s);
    }
  }

  // ----- Who becomes a target

  /** The answers of the probe, in order: the `k`th is about the `k`th requested host. */
  function Answers(steps: seq<Step>): seq<Answer> {
    if steps == [] then []
    else
      var step := steps[|steps| - 1];
      Answers(steps[..|steps| - 1]) + if step.Probe? then [step.answer] else []
  }

  /** The targets are the requested hosts whose probe found Buckit active or got no answer. */
  ghost predicate Answered(s: State, answers: seq<Answer>) {
    && |answers| <= |s.all|
    && (s.pc.Probing? ==> s.pc.next == |answers|)
    && (s.pc == Done(Canceled) ==> |answers| < |s.all|)
    && (!s.pc.Probing? && s.pc != Done(Canceled) ==> |answers| == |s.all|)
    && (forall k :: 0 <= k < |answers| ==> (s.all[k] in s.targets <==> answers[k].Active? || answers[k].NoAnswer?))
    && (forall h :: h in s.targets ==> h in s.all[..|answers|])
  }

  lemma AnsweredKept(s: State, step: Step, answers: seq<Answer>)
    requires Framed(s) && Guard(s, step) && Answered(s, answers)
    ensures Answered(Do(s, step), answers + if step.Probe? then [step.answer] else [])
  {
    if step.Probe? {
      ProbeAnswered(s, step.answer, answers);
    } else {
      assert answers + [] == answers;
      OnlyProbesChoose(s, step);
    }
  }

  /** Past the probe, or canceled in it, the targets are settled. */
  lemma OnlyProbesChoose(s: State, step: Step)
    requires Guard(s, step) && !step.Probe?
    ensures Do(s, step).all == s.all && Do(s, step).targets == s.targets
    ensures Do(s, step).pc == s.pc || Do(s, step).pc == Done(Canceled) || !Do(s, step).pc.Probing?
    ensures s.pc.Probing? && !Do(s, step).pc.Probing? && Do(s, step).pc != Done(Canceled) ==> s.pc.next == |s.all|
    ensures Do(s, step).pc == Done(Canceled) ==> s.pc == Do(s, step).pc || (s.pc.Probing? && s.pc.next < |s.all|)
    ensures s.pc == Done(Canceled) ==> Do(s, step).pc == s.pc
  {
    if step.EndProbing? {
      EnterSame(s, if s.targets == [] then Done(Complete) else Stopping);
    } else if step.Barrier? {
      EnterSame(s, AfterFan(s.pc, s.fan.failed));
    }
  }

  lemma ProbeAnswered(s: State, a: Answer, answers: seq<Answer>)
    requires Framed(s) && Guard(s, Probe(a)) && Answered(s, answers)
    ensures Answered(Do(s, Probe(a)), answers + [a])
  {
    var n := |answers|;
    assert s.all[n] !in s.targets;
    assert forall k :: 0 <= k < n ==> s.all[k] != s.all[n];
    ChoiceAnswered(s.all, s.targets, answers, a, s.all[n]);
  }

  /** One more host is asked, and chosen unless it is inactive. */
  lemma ChoiceAnswered(all: seq<HostId>, targets: seq<HostId>, answers: seq<Answer>, a: Answer, h: HostId)
    requires |answers| < |all| && all[|answers|] == h && h !in targets
    requires forall k :: 0 <= k < |answers| ==> all[k] != h
    requires forall k :: 0 <= k < |answers| ==> (all[k] in targets <==> answers[k].Active? || answers[k].NoAnswer?)
    requires forall x :: x in targets ==> x in all[..|answers|]
    ensures var targets', answers' := if a.Inactive? then targets else targets + [h], answers + [a];
            && (forall k :: 0 <= k < |answers'| ==>
                  (all[k] in targets' <==> answers'[k].Active? || answers'[k].NoAnswer?))
            && forall x :: x in targets' ==> x in all[..|answers'|]
  {
    var n := |answers|;
    assert all[..n + 1] == all[..n] + [h];
    assert forall x :: x in targets + [h] <==> x in targets || x == h;
  }

  /** In every run, by its probe steps alone: a requested host is a target exactly when its
      probe found Buckit active or got no answer; one that answered `inactive` stays as it
      was found. */
  lemma {:induction false} TargetsExactly(all: seq<HostId>, found: map<HostId, Host>, canceled: bool, steps: seq<Step>)
    requires Startable(all, found) && CanRun(Init(all, found, canceled), steps)
    ensures var s := AfterSteps(Init(all, found, canceled), steps); var answers := Answers(steps);
            && s.all == all && Answered(s, answers)
            && forall k :: 0 <= k < |answers| && answers[k].Inactive? ==>
                 all[k] in s.hosts && s.hosts[all[k]] == found[all[k]]
    decreases |steps|
  {
    var s0 := Init(all, found, canceled);
    InvAlways(all, found, canceled, steps);
    if steps != [] {
      var front := steps[..|steps| - 1];
      TargetsExactly(all, found, canceled, front);
      InvAlways(all, found, canceled, front);
      AnsweredKept(AfterSteps(s0, front), steps[|steps| - 1], Answers(front));
    }
  }

  /** When every host answered `inactive`, there is nothing to do: the run ends complete with
      no host changed and the engine as it was. */
  lemma NothingToDo(all: seq<HostId>, found: map<HostId, Host>, canceled: bool, steps: seq<Step>)
    requires Startable(all, found) && CanRun(Init(all, found, canceled), steps)
    requires forall k :: 0 <= k < |Answers(steps)| ==> Answers(steps)[k].Inactive?
    ensures var s := AfterSteps(Init(all, found, canceled), steps);
            && s.hosts == found && !s.reverted
            && (s.pc.Probing? || s.pc == Done(Canceled) || s.pc == Done(Complete))
  {
    InvAlways(all, found, canceled, steps);
    TargetsExactly(all, found, canceled, steps);
    var s := AfterSteps(Init(all, found, canceled), steps);
    if s.targets != [] {
      SomeAnswer(s, Answers(steps));
    }
  }

  lemma SomeAnswer(s: State, answers: seq<Answer>)
    requires Answered(s, answers) && s.targets != []
    ensures exists k :: 0 <= k < |answers| && !answers[k].Inactive?
  {
    var h := s.targets[0];
    assert h in s.targets && h in s.all[..|answers|];
    var k :| 0 <= k < |answers| && s.all[k] == h;
    assert !answers[k].Inactive?;
  }

  // ----- How it ends

  /** How many barriers were passed: none while Buckit is stopped, one while MinIO is started. */
  function Barriers(steps: seq<Step>): nat {
    if steps == [] then 0
    else Barriers(steps[..|steps| - 1]) + if steps[|steps| - 1].Barrier? then 1 else 0
  }

  /** Some host failed a step after exactly `n` barriers. */
  predicate FailedAfter(steps: seq<Step>, n: nat) {
    exists k :: 0 <= k < |steps| && IsFailure(steps[k]) && Barriers(steps[..k]) == n
  }

  predicate IsFailure(step: Step) {
    step.Move? && !step.ok
  }

  predicate SomeFailing(workers: seq<Worker>) {
    exists i :: 0 <= i < |workers| && workers[i].Failing?
  }

  /** What a run did so far: barriers passed, failures before and after the first, whether it
      saw that it was canceled, and whether the engine was reverted. */
  datatype Facts = Facts(barriers: nat, stop: bool, start: bool, gaveUp: bool, reverted: bool)

  function FactsOf(steps: seq<Step>): Facts {
    Facts(Barriers(steps), FailedAfter(steps, 0), FailedAfter(steps, 1), SeeCanceled in steps, Revert(true) in steps)
  }

  /** The run is at `pc` because of these facts; what may still fail there is left open. */
  predicate PcTold(pc: Pc, f: Facts, targets: bool) {
    match pc
    case Probing(_) => f.barriers == 0 && !f.stop && !f.start && !f.gaveUp && !f.reverted
    case Stopping => f.barriers == 0 && !f.start && !f.gaveUp && !f.reverted
    case Starting => f.barriers == 1 && !f.stop && !f.gaveUp && !f.reverted
    case Reverting => !f.stop && !f.start && !f.gaveUp && !f.reverted
    case Done(o) =>
      && (o.Canceled? <==> f.gaveUp)
      && match o
         case Canceled => !f.stop && !f.start
         case StopFailed => f.stop
         case StartFailed => !f.stop && f.start
         case RevertFailed => !f.stop && !f.start && !f.reverted
         case Complete => !f.stop && !f.start && (targets ==> f.reverted)
  }

  ghost predicate Told(s: State, steps: seq<Step>) {
    && PcTold(s.pc, FactsOf(steps), s.targets != [])
    && (s.pc.InFan() ==>
          (FailedAfter(steps, Barriers(steps)) <==> s.fan.failed || SomeFailing(s.fan.workers)))
  }

  lemma FailedSnoc(steps: seq<Step>, step: Step, n: nat)
    ensures FailedAfter(steps + [step], n) <==>
            FailedAfter(steps, n) || (IsFailure(step) && Barriers(steps) == n)
    ensures Barriers(steps + [step]) == Barriers(steps) + if step.Barrier? then 1 else 0
  {
    var all := steps + [step];
    assert all[..|all| - 1] == steps;
    if FailedAfter(steps, n) {
      var k :| 0 <= k < |steps| && IsFailure(steps[k]) && Barriers(steps[..k]) == n;
      assert all[k] == steps[k] && all[..k] == steps[..k];
    }
    if IsFailure(step) && Barriers(steps) == n {
      assert all[|steps|] == step;
    }
    if FailedAfter(all, n) {
      var k :| 0 <= k < |all| && IsFailure(all[k]) && Barriers(all[..k]) == n;
      assert all[..k] == steps[..k];
    }
  }

  lemma FailingAfter(workers: seq<Worker>, i: nat, w: Worker)
    requires i < |workers| && workers[i].At?
    ensures SomeFailing(workers[i := w]) <==> SomeFailing(workers) || w.Failing?
  {
    if SomeFailing(workers) {
      var j :| 0 <= j < |workers| && workers[j].Failing?;
      assert workers[i := w][j].Failing?;
    }
    if w.Failing? {
      assert workers[i := w][i].Failing?;
    }
  }

  lemma MoveTold(s: State, steps: seq<Step>, i: nat, ok: bool, after: Host)
    requires Told(s, steps) && Guard(s, Move(i, ok, after))
    ensures Told(Do(s, Move(i, ok, after)), steps + [Move(i, ok, after)])
  {
    FailedSnoc(steps, Move(i, ok, after), 0);
    FailedSnoc(steps, Move(i, ok, after), 1);
    FailingAfter(s.fan.workers, i, Do(s, Move(i, ok, after)).fan.workers[i]);
  }

  lemma BarrierTold(s: State, steps: seq<Step>)
    requires Told(s, steps) && Guard(s, Barrier)
    ensures Told(Do(s, Barrier), steps + [Barrier])
  {
    FailedSnoc(steps, Barrier, 0);
    FailedSnoc(steps, Barrier, 1);
    assert !SomeFailing(s.fan.workers);
    EnterSame(s, AfterFan(s.pc, s.fan.failed));
    assert !SomeFailing(NewFan(StartMinio, |s.targets|).workers);
  }

  lemma EndProbingTold(s: State, steps: seq<Step>)
    requires Told(s, steps) && Guard(s, EndProbing)
    ensures Told(Do(s, EndProbing), steps + [EndProbing])
  {
    FailedSnoc(steps, EndProbing, 0);
    FailedSnoc(steps, EndProbing, 1);
    assert !SomeFailing(NewFan(StopBuckit, |s.targets|).workers);
  }

  lemma OtherTold(s: State, steps: seq<Step>, step: Step)
    requires Told(s, steps) && Guard(s, step) && !step.Move? && !step.Barrier? && !step.EndProbing?
    ensures Told(Do(s, step), steps + [step])
  {
    FailedSnoc(steps, step, 0);
    FailedSnoc(steps, step, 1);
    if step.Return? {
      assert SomeFailing(s.fan.workers);
    }
  }

  lemma {:induction false} ToldAlways(all: seq<HostId>, found: map<HostId, Host>, canceled: bool, steps: seq<Step>)
    requires Startable(all, found) && CanRun(Init(all, found, canceled), steps)
    ensures Told(AfterSteps(Init(all, found, canceled), steps), steps)
    decreases |steps|
  {
    if steps != [] {
      var front, step := steps[..|steps| - 1], steps[|steps| - 1];
      ToldAlways(all, found, canceled, front);
      var s := AfterSteps(Init(all, found, canceled), front);
      assert front + [step] == steps;
      if step.Move? {
        MoveTold(s, front, step.i, step.ok, step.after);
      } else if step.Barrier? {
        BarrierTold(s, front);
      } else if step.EndProbing? {
        EndProbingTold(s, front);
      } else {
        OtherTold(s, front, step);
      }
    }
  }

  /** How a finished rollback ends is decided by its steps: it was seen canceled while probing;
      there was nothing to do; a host failed to stop Buckit, or to start MinIO; or the revert
      of the engine decides. */
  lemma OutcomeExactly(all: seq<HostId>, found: map<HostId, Host>, canceled: bool, steps: seq<Step>)
    requires Startable(all, found) && CanRun(Init(all, found, canceled), steps)
    requires AfterSteps(Init(all, found, canceled), steps).pc.Done?
    ensures var s := AfterSteps(Init(all, found, canceled), steps);
            s.pc.outcome ==
            if SeeCanceled in steps then Canceled
            else if s.targets == [] then Complete
            else if FailedAfter(steps, 0) then StopFailed
            else if FailedAfter(steps, 1) then StartFailed
            else if Revert(true) in steps then Complete
            else RevertFailed
  {
    ToldAlways(all, found, canceled, steps);
    InvAlways(all, found, canceled, steps);
  }

  /** A run is canceled exactly when it began so or somebody canceled it. */
  lemma {:induction false} CanceledExactly(all: seq<HostId>, found: map<HostId, Host>, canceled: bool, steps: seq<Step>)
    requires Startable(all, found) && CanRun(Init(all, found, canceled), steps)
    ensures AfterSteps(Init(all, found, canceled), steps).canceled <==> canceled || Cancel in steps
    decreases |steps|
  {
    if steps != [] {
      CanceledExactly(all, found, canceled, steps[..|steps| - 1]);
      CancelKept(AfterSteps(Init(all, found, canceled), steps[..|steps| - 1]), steps[|steps| - 1]);
    }
  }

  lemma CancelKept(s: State, step: Step)
    requires Guard(s, step)
    ensures Do(s, step).canceled <==> s.canceled || step == Cancel
  {
  }

  /** No host is asked any more once the run is canceled. */
  lemma NoProbeAfterCancel(all: seq<HostId>, found: map<HostId, Host>, canceled: bool, steps: seq<Step>)
    requires Startable(all, found) && CanRun(Init(all, found, canceled), steps) && steps != []
    requires canceled || Cancel in steps[..|steps| - 1]
    ensures !steps[|steps| - 1].Probe?
  {
    CanceledExactly(all, found, canceled, steps[..|steps| - 1]);
  }
}
