/** The MinIO to Buckit cutover (internal/migration/executor.go:140-202, 278-375) as a step
    relation: hosts interleave freely inside a fan-out, every remote step may fail, and the
    run may be canceled at any time. */
module Cutover {
  import opened HostOps

  datatype Outcome =
    | PreStageFailed
    | Migrated
    | CommitFailed
    | RolledBack(stopOk: bool, startOk: bool)

  datatype Pc =
    | PreStaging | Switching | Verifying | Committing
    | Stopping | Starting(stopOk: bool)
    | Done(outcome: Outcome)
  {
    predicate InFan() {
      PreStaging? || Switching? || Stopping? || Starting?
    }

    function FanPhase(): Phase
      requires InFan()
    {
      match this
      case PreStaging => PreStage
      case Switching => Switch
      case Stopping => StopBuckit
      case Starting(_) => StartMinio
    }
  }

  /** One remote step that was taken. */
  datatype Entry = Entry(phase: Phase, worker: nat, op: Op, ok: bool)

  /** `targets` are the attempted hosts; `found` and `before` are all hosts as the run and
      the current phase found them; `flipped` is whether the cluster row was stored with
      the new engine. `log` lists the steps taken and `ended` says at which of them a
      worker of a phase was through. */
  datatype State = State(
    targets: seq<HostId>,
    found: map<HostId, Host>,
    before: map<HostId, Host>,
    hosts: map<HostId, Host>,
    pc: Pc,
    fan: Fan,
    canceled: bool,
    flipped: bool,
    log: seq<Entry>,
    ended: map<(Phase, nat), nat>)

  ghost predicate Startable(targets: seq<HostId>, found: map<HostId, Host>) {
    && (forall i :: 0 <= i < |targets| ==> targets[i] in found)
    && (forall i, j :: 0 <= i < j < |targets| ==> targets[i] != targets[j])
  }

  function Init(targets: seq<HostId>, found: map<HostId, Host>, canceled: bool): State {
    State(targets, found, found, found, PreStaging, NewFan(PreStage, |targets|), canceled, false, [], map[])
  }

  datatype Step =
    | Move(i: nat, ok: bool, after: Host)
    | Return(i: nat)
    | Barrier
    | Verify(ok: bool)
    | Commit(ok: bool)
    | Cancel

  predicate Guard(s: State, step: Step) {
    match step
    case Move(i, ok, after) =>
      && s.pc.InFan() && i < |s.targets| && s.targets[i] in s.hosts
      && CanWork(s.fan, i, s.canceled, ok, s.hosts[s.targets[i]], after)
    case Return(i) => s.pc.InFan() && i < |s.fan.workers| && s.fan.workers[i].Failing?
    case Barrier => s.pc.InFan() && AllEnded(s.fan)
    case Verify(ok) => s.pc.Verifying?
    case Commit(ok) => s.pc.Committing?
    case Cancel => !s.canceled && !s.pc.Done?
  }

  function Enter(s: State, pc: Pc): State {
    if pc.InFan() then s.(pc := pc, before := s.hosts, fan := NewFan(pc.FanPhase(), |s.targets|))
    else s.(pc := pc)
  }

  /** Where the run goes once every worker of a fan-out is through. */
  function AfterFan(pc: Pc, failed: bool): Pc
    requires pc.InFan()
  {
    match pc
    case PreStaging => if failed then Done(PreStageFailed) else Switching
    case Switching => if failed then Stopping else Verifying
    case Stopping => Starting(!failed)
    case Starting(stopOk) => Done(RolledBack(stopOk, !failed))
  }

  /** A verdict of the verification or the commit. */
  function AfterVerdict(step: Step): Pc
    requires step.Verify? || step.Commit?
  {
    if step.Verify? then (if step.ok then Committing else Stopping)
    else Done(if step.ok then Migrated else CommitFailed)
  }

  function Do(s: State, step: Step): State
    requires Guard(s, step)
  {
    match step
    case Move(i, ok, after) =>
      var fan := Work(s.fan, i, ok);
      s.(hosts := s.hosts[s.targets[i] := after],
         fan := fan,
         log := s.log + [Entry(s.fan.phase, i, Script(s.fan.phase)[s.fan.workers[i].next], ok)],
         ended := if fan.workers[i].At? then s.ended else s.ended[(s.fan.phase, i) := |s.log|])
    case Return(i) => s.(fan := Settle(s.fan, i))
    case Barrier => Enter(s, AfterFan(s.pc, s.fan.failed))
    case Verify(ok) => Enter(s, AfterVerdict(step))
    case Commit(ok) => Enter(s, AfterVerdict(step)).(flipped := ok)
    case Cancel => s.(canceled := true)
  }

  // ----- Invariant

  ghost predicate Framed(s: State) {
    && Startable(s.targets, s.found)
    && s.hosts.Keys == s.found.Keys == s.before.Keys
    && (forall h :: h in s.found && h !in s.targets ==> s.hosts[h] == s.found[h])
    && (s.flipped <==> s.pc == Done(Migrated))
  }

  predicate FanOk(s: State) {
    s.pc.InFan() ==>
      && s.fan.phase == s.pc.FanPhase() && |s.fan.workers| == |s.targets|
      && forall i :: 0 <= i < |s.fan.workers| ==>
           && (s.fan.workers[i].Failed? ==> s.fan.failed)
           && (s.fan.workers[i].At? ==> s.fan.workers[i].next < |Script(s.fan.phase)|)
  }

  /** What is known about one attempted host at each point of the run. */
  predicate TargetOk(pc: Pc, w: Worker, found: Host, before: Host, now: Host) {
    match pc
    case PreStaging => before == found && WorkerOk(PreStage, w, before, now)
    case Switching => SameServices(found, before) && before.Staged() && WorkerOk(Switch, w, before, now)
    case Verifying => now.OnBuckit() && now.Staged()
    case Committing => now.OnBuckit() && now.Staged()
    case Stopping => WorkerOk(StopBuckit, w, before, now)
    case Starting(stopOk) =>
      (stopOk ==> before.OffBuckit() && !before.dropIn) && WorkerOk(StartMinio, w, before, now)
    case Done(o) =>
      match o
      case PreStageFailed => SameServices(found, now)
      case Migrated => now.OnBuckit() && now.Staged()
      case CommitFailed => now.OnBuckit() && now.Staged()
      case RolledBack(stopOk, startOk) =>
        (startOk ==> now.OnMinio()) && (stopOk ==> now.OffBuckit() && !now.dropIn)
  }

  predicate TargetsOk(s: State)
    requires s.pc.InFan() ==> |s.fan.workers| == |s.targets|
    requires forall i :: 0 <= i < |s.targets| ==>
               s.targets[i] in s.hosts && s.targets[i] in s.found && s.targets[i] in s.before
  {
    forall i :: 0 <= i < |s.targets| ==>
      TargetOk(s.pc, if s.pc.InFan() then s.fan.workers[i] else Finished,
               s.found[s.targets[i]], s.before[s.targets[i]], s.hosts[s.targets[i]])
  }

  ghost predicate HostsInv(s: State) {
    Framed(s) && FanOk(s) && TargetsOk(s)
  }

  lemma MoveKeeps(s: State, i: nat, ok: bool, after: Host)
    requires HostsInv(s) && Guard(s, Move(i, ok, after))
    ensures HostsInv(Do(s, Move(i, ok, after)))
  {
    var s' := Do(s, Move(i, ok, after));
    FrameAfterMove(s, i, ok, after);
    forall j | 0 <= j < |s.targets|
      ensures TargetOk(s.pc, s'.fan.workers[j], s.found[s.targets[j]], s.before[s.targets[j]], s'.hosts[s.targets[j]])
    {
      TargetAfterMove(s, i, ok, after, j);
    }
  }

  lemma FrameAfterMove(s: State, i: nat, ok: bool, after: Host)
    requires Framed(s) && FanOk(s) && Guard(s, Move(i, ok, after))
    ensures Framed(Do(s, Move(i, ok, after))) && FanOk(Do(s, Move(i, ok, after)))
  {
  }

  lemma TargetAfterMove(s: State, i: nat, ok: bool, after: Host, j: nat)
    requires HostsInv(s) && Guard(s, Move(i, ok, after)) && j < |s.targets|
    ensures TargetOk(s.pc, Work(s.fan, i, ok).workers[j], s.found[s.targets[j]], s.before[s.targets[j]],
                     if j == i then after else s.hosts[s.targets[j]])
    ensures j != i ==> s.targets[j] != s.targets[i]
  {
    var h := s.targets[j];
    assert TargetOk(s.pc, s.fan.workers[j], s.found[h], s.before[h], s.hosts[h]);
    if j == i {
      TargetMoves(s.pc, s.fan, i, ok, s.found[h], s.before[h], s.hosts[h], after);
    } else {
      assert Work(s.fan, i, ok).workers[j] == s.fan.workers[j];
    }
  }

  lemma TargetMoves(pc: Pc, fan: Fan, i: nat, ok: bool, found: Host, before: Host, now: Host, after: Host)
    requires pc.InFan() && fan.phase == pc.FanPhase() && i < |fan.workers| && fan.workers[i].At?
    requires fan.workers[i].next < |Script(fan.phase)|
    requires Effect(Script(fan.phase)[fan.workers[i].next], ok, now, after)
    requires TargetOk(pc, fan.workers[i], found, before, now)
    ensures TargetOk(pc, Advanced(fan, i, ok), found, before, after)
  {
    WorkKeeps(fan.phase, fan.workers[i].next, ok, before, now, after);
  }

  lemma TargetPassesBarrier(pc: Pc, failed: bool, w: Worker, found: Host, before: Host, now: Host)
    requires pc.InFan() && TargetOk(pc, w, found, before, now) && w.Through() && (w.Failed? ==> failed)
    ensures var next := AfterFan(pc, failed);
            TargetOk(next, if next.InFan() then At(0) else Finished, found, if next.InFan() then now else before, now)
  {
  }

  lemma ReturnKeeps(s: State, i: nat)
    requires HostsInv(s) && Guard(s, Return(i))
    ensures HostsInv(Do(s, Return(i)))
  {
    var s' := Do(s, Return(i));
    forall j | 0 <= j < |s.targets|
      ensures TargetOk(s.pc, s'.fan.workers[j], s.found[s.targets[j]], s.before[s.targets[j]], s.hosts[s.targets[j]])
    {
      assert TargetOk(s.pc, s.fan.workers[j], s.found[s.targets[j]], s.before[s.targets[j]], s.hosts[s.targets[j]]);
    }
  }

  lemma BarrierKeeps(s: State)
    requires HostsInv(s) && Guard(s, Barrier)
    ensures HostsInv(Do(s, Barrier))
  {
    forall i | 0 <= i < |s.targets|
      ensures var next, h := AfterFan(s.pc, s.fan.failed), s.targets[i];
              TargetOk(next, if next.InFan() then At(0) else Finished,
                       s.found[h], if next.InFan() then s.hosts[h] else s.before[h], s.hosts[h])
    {
      var h := s.targets[i];
      TargetPassesBarrier(s.pc, s.fan.failed, s.fan.workers[i], s.found[h], s.before[h], s.hosts[h]);
    }
  }

  lemma HostsKept(s: State, step: Step)
    requires HostsInv(s) && Guard(s, step)
    ensures HostsInv(Do(s, step))
  {
    if step.Move? {
      MoveKeeps(s, step.i, step.ok, step.after);
    } else if step.Return? {
      ReturnKeeps(s, step.i);
    } else if step.Barrier? {
      BarrierKeeps(s);
    } else if !step.Cancel? {
      VerdictKeeps(s, step);
    }
  }

  lemma VerdictKeeps(s: State, step: Step)
    requires HostsInv(s) && Guard(s, step) && (step.Verify? || step.Commit?)
    ensures HostsInv(Do(s, step))
  {
    VerdictEnters(s, AfterVerdict(step));
  }

  lemma VerdictEnters(s: State, next: Pc)
    requires HostsInv(s) && (s.pc.Verifying? || s.pc.Committing?)
    requires next == Committing || next == Stopping || next == Done(Migrated) || next == Done(CommitFailed)
    ensures HostsInv(Enter(s, next).(flipped := next == Done(Migrated)))
  {
    forall i | 0 <= i < |s.targets|
      ensures ReadyFor(s, next, s.targets[i])
    {
      var h := s.targets[i];
      assert TargetOk(s.pc, Finished, s.found[h], s.before[h], s.hosts[h]);
      VerdictOnTarget(s.pc, next, s.found[h], s.before[h], s.hosts[h]);
    }
    EnterKeeps(s, next);
  }

  /** What must be known about an attempted host when the run goes to `next`. */
  predicate ReadyFor(s: State, next: Pc, h: HostId) {
    && h in s.found && h in s.before && h in s.hosts
    && TargetOk(next, if next.InFan() then At(0) else Finished,
                s.found[h], if next.InFan() then s.hosts[h] else s.before[h], s.hosts[h])
  }

  lemma EnterKeeps(s: State, next: Pc)
    requires Framed(s) && forall i :: 0 <= i < |s.targets| ==> ReadyFor(s, next, s.targets[i])
    ensures HostsInv(Enter(s, next).(flipped := next == Done(Migrated)))
  {
    FrameAfterEnter(s, next);
    FanAfterEnter(s, next, next == Done(Migrated));
    TargetsAfterEnter(s, next, next == Done(Migrated));
  }

  lemma TargetsAfterEnter(s: State, next: Pc, flipped: bool)
    requires Framed(s) && forall i :: 0 <= i < |s.targets| ==> ReadyFor(s, next, s.targets[i])
    ensures TargetsOk(Enter(s, next).(flipped := flipped))
  {
    forall i | 0 <= i < |s.targets|
      ensures ReadyFor(s, next, s.targets[i])
    {
    }
  }

  lemma FrameAfterEnter(s: State, next: Pc)
    requires Framed(s)
    ensures Framed(Enter(s, next).(flipped := next == Done(Migrated)))
  {
    EnterSame(s, next);
    SameFrame(s, Enter(s, next).(flipped := next == Done(Migrated)));
  }

  lemma SameFrame(s: State, s': State)
    requires Framed(s) && s'.targets == s.targets && s'.found == s.found && s'.hosts == s.hosts
    requires (s'.before == s.before || s'.before == s.hosts) && (s'.flipped <==> s'.pc == Done(Migrated))
    ensures Framed(s')
  {
  }

  lemma FanAfterEnter(s: State, next: Pc, flipped: bool)
    ensures FanOk(Enter(s, next).(flipped := flipped))
  {
  }

  lemma VerdictOnTarget(pc: Pc, next: Pc, found: Host, before: Host, now: Host)
    requires pc.Verifying? || pc.Committing?
    requires next == Committing || next == Stopping || next == Done(Migrated) || next == Done(CommitFailed)
    requires TargetOk(pc, Finished, found, before, now)
    ensures TargetOk(next, if next.InFan() then At(0) else Finished, found, if next.InFan() then now else before, now)
  {
  }

  // ----- Barriers, as the log shows them

  /** The phases a run at `pc` may have gone through. */
  predicate Reached(pc: Pc, p: Phase) {
    match p
    case PreStage => true
    case Switch => !pc.PreStaging? && pc != Done(PreStageFailed)
    case StopBuckit => pc.Stopping? || pc.Starting? || (pc.Done? && pc.outcome.RolledBack?)
    case StartMinio => pc.Starting? || (pc.Done? && pc.outcome.RolledBack?)
  }

  /** The phases whose every worker is through at `pc`. */
  predicate Passed(pc: Pc, p: Phase) {
    match p
    case PreStage => pc != PreStaging
    case Switch => !pc.PreStaging? && !pc.Switching? && pc != Done(PreStageFailed)
    case StopBuckit => pc.Starting? || (pc.Done? && pc.outcome.RolledBack?)
    case StartMinio => pc.Done? && pc.outcome.RolledBack?
  }

  /** The phases whose every worker is through successfully at `pc`. */
  predicate PassedOk(pc: Pc, p: Phase) {
    match p
    case PreStage => Reached(pc, Switch)
    case Switch => pc.Verifying? || pc.Committing? || pc == Done(Migrated) || pc == Done(CommitFailed)
    case StopBuckit => pc == Starting(true) || (pc.Done? && pc.outcome.RolledBack? && pc.outcome.stopOk)
    case StartMinio => pc.Done? && pc.outcome.RolledBack? && pc.outcome.startOk
  }

  type Log = seq<Entry>
  type Ends = map<(Phase, nat), nat>

  /** Worker `i` of phase `p` was through at some step before the `k`th, successfully
      unless `anyhow`. */
  predicate EndedBy(log: Log, ended: Ends, p: Phase, i: nat, k: nat, anyhow: bool) {
    && (p, i) in ended && ended[(p, i)] < k && ended[(p, i)] < |log|
    && var e := log[ended[(p, i)]];
       e.phase == p && e.worker == i && (e.ok || anyhow) && (e.ok ==> e.op == Script(p)[|Script(p)| - 1])
  }

  /** No step of Switch comes before the end of every successful PreStage, and no step of
      StartMinio before the end of every StopBuckit. */
  predicate Ordered(log: Log, ended: Ends, n: nat) {
    && (forall k, i :: 0 <= k < |log| && 0 <= i < n && log[k].phase == Switch ==>
          EndedBy(log, ended, PreStage, i, k, false))
    && (forall k, i :: 0 <= k < |log| && 0 <= i < n && log[k].phase == StartMinio ==>
          EndedBy(log, ended, StopBuckit, i, k, true))
  }

  predicate HistoryOk(pc: Pc, n: nat, log: Log, ended: Ends) {
    && (forall k :: 0 <= k < |log| ==> Reached(pc, log[k].phase))
    && (forall key :: key in ended ==> Reached(pc, key.0))
    && Ordered(log, ended, n)
    && (forall p: Phase, i {:trigger EndedBy(log, ended, p, i, |log|, true)} :: 0 <= i < n && Passed(pc, p) ==>
          EndedBy(log, ended, p, i, |log|, true))
    && (forall p: Phase, i {:trigger EndedBy(log, ended, p, i, |log|, false)} :: 0 <= i < n && PassedOk(pc, p) ==>
          EndedBy(log, ended, p, i, |log|, false))
  }

  predicate WorkerLogged(p: Phase, w: Worker, log: Log, ended: Ends, i: nat) {
    match w
    case At(_) => (p, i) !in ended
    case Finished => EndedBy(log, ended, p, i, |log|, false)
    case _ => EndedBy(log, ended, p, i, |log|, true)
  }

  predicate LogOk(s: State) {
    && HistoryOk(s.pc, |s.targets|, s.log, s.ended)
    && (s.pc.InFan() ==> forall i :: 0 <= i < |s.fan.workers| ==>
                           WorkerLogged(s.fan.phase, s.fan.workers[i], s.log, s.ended, i))
  }

  /** Later steps of other workers do not change when a worker was through. */
  lemma EndedStays(log: Log, ended: Ends, log': Log, ended': Ends, p: Phase, i: nat, k: nat, k': nat, anyhow: bool)
    requires EndedBy(log, ended, p, i, k, anyhow) && k <= k'
    requires log <= log' && (p, i) in ended' && ended'[(p, i)] == ended[(p, i)]
    ensures EndedBy(log', ended', p, i, k', anyhow) && EndedBy(log', ended', p, i, k', true)
  {
  }

  lemma OrderKept(pc: Pc, n: nat, log: Log, ended: Ends, e: Entry, ended': Ends)
    requires HistoryOk(pc, n, log, ended) && pc.InFan() && e.phase == pc.FanPhase()
    requires forall key :: key in ended ==> key in ended' && ended'[key] == ended[key]
    ensures Ordered(log + [e], ended', n)
  {
    var log' := log + [e];
    forall k, i | 0 <= k < |log'| && 0 <= i < n && log'[k].phase == Switch
      ensures EndedBy(log', ended', PreStage, i, k, false)
    {
      EndedStays(log, ended, log', ended', PreStage, i, k, k, false);
    }
    forall k, i | 0 <= k < |log'| && 0 <= i < n && log'[k].phase == StartMinio
      ensures EndedBy(log', ended', StopBuckit, i, k, true)
    {
      EndedStays(log, ended, log', ended', StopBuckit, i, k, k, true);
    }
  }

  lemma HistoryKept(pc: Pc, n: nat, log: Log, ended: Ends, e: Entry, ended': Ends)
    requires HistoryOk(pc, n, log, ended) && pc.InFan() && e.phase == pc.FanPhase()
    requires forall key :: key in ended ==> key in ended' && ended'[key] == ended[key]
    requires forall key :: key in ended' ==> key in ended || key.0 == e.phase
    ensures HistoryOk(pc, n, log + [e], ended')
  {
    var log' := log + [e];
    OrderKept(pc, n, log, ended, e, ended');
    forall p: Phase, i: nat {:trigger EndedBy(log', ended', p, i, |log'|, true)} | i < n && Passed(pc, p)
      ensures EndedBy(log', ended', p, i, |log'|, true)
    {
      EndedStays(log, ended, log', ended', p, i, |log|, |log'|, true);
    }
    forall p: Phase, i: nat {:trigger EndedBy(log', ended', p, i, |log'|, false)} | i < n && PassedOk(pc, p)
      ensures EndedBy(log', ended', p, i, |log'|, false)
    {
      EndedStays(log, ended, log', ended', p, i, |log|, |log'|, false);
    }
  }

  lemma LogKeptByMove(s: State, i: nat, ok: bool, after: Host)
    requires FanOk(s) && LogOk(s) && Guard(s, Move(i, ok, after))
    ensures LogOk(Do(s, Move(i, ok, after)))
  {
    var s' := Do(s, Move(i, ok, after));
    assert WorkerLogged(s.fan.phase, s.fan.workers[i], s.log, s.ended, i);
    HistoryKept(s.pc, |s.targets|, s.log, s.ended, s'.log[|s.log|], s'.ended);
    forall j | 0 <= j < |s.fan.workers|
      ensures WorkerLogged(s.fan.phase, s'.fan.workers[j], s'.log, s'.ended, j)
    {
      if j != i {
        assert WorkerLogged(s.fan.phase, s.fan.workers[j], s.log, s.ended, j);
        if !s.fan.workers[j].At? {
          EndedStays(s.log, s.ended, s'.log, s'.ended, s.fan.phase, j, |s.log|, |s'.log|, !s.fan.workers[j].Finished?);
        }
      }
    }
  }

  lemma LogKeptByReturn(s: State, i: nat)
    requires FanOk(s) && LogOk(s) && Guard(s, Return(i))
    ensures LogOk(Do(s, Return(i)))
  {
    var s' := Do(s, Return(i));
    forall j | 0 <= j < |s.fan.workers|
      ensures WorkerLogged(s.fan.phase, s'.fan.workers[j], s.log, s.ended, j)
    {
      assert WorkerLogged(s.fan.phase, s.fan.workers[j], s.log, s.ended, j);
    }
  }

  /** Every phase `next` counts as passed was passed before, or is the fan-out just ended. */
  predicate Succeeds(pc: Pc, next: Pc, failed: bool) {
    || (pc.InFan() && next == AfterFan(pc, failed))
    || (pc.Verifying? && (next == Committing || next == Stopping))
    || (pc.Committing? && (next == Done(Migrated) || next == Done(CommitFailed)))
  }

  lemma HistoryEnters(pc: Pc, next: Pc, failed: bool, n: nat, log: Log, ended: Ends)
    requires Succeeds(pc, next, failed) && HistoryOk(pc, n, log, ended)
    requires pc.InFan() ==> forall i :: 0 <= i < n ==> EndedBy(log, ended, pc.FanPhase(), i, |log|, true)
    requires pc.InFan() && !failed ==>
               forall i :: 0 <= i < n ==> EndedBy(log, ended, pc.FanPhase(), i, |log|, false)
    ensures HistoryOk(next, n, log, ended)
    ensures next.InFan() ==> forall i :: 0 <= i < n ==> (next.FanPhase(), i) !in ended
  {
    forall p: Phase, i: nat {:trigger EndedBy(log, ended, p, i, |log|, true)} | i < n && Passed(next, p)
      ensures EndedBy(log, ended, p, i, |log|, true)
    {
      if !Passed(pc, p) {
        assert pc.InFan() && p == pc.FanPhase();
      }
    }
    forall p: Phase, i: nat {:trigger EndedBy(log, ended, p, i, |log|, false)} | i < n && PassedOk(next, p)
      ensures EndedBy(log, ended, p, i, |log|, false)
    {
      if !PassedOk(pc, p) {
        assert pc.InFan() && p == pc.FanPhase() && !failed;
      }
    }
  }

  lemma LogKeptByBarrier(s: State)
    requires FanOk(s) && LogOk(s) && Guard(s, Barrier)
    ensures LogOk(Do(s, Barrier))
  {
    forall i | 0 <= i < |s.targets|
      ensures EndedBy(s.log, s.ended, s.fan.phase, i, |s.log|, true)
      ensures !s.fan.failed ==> EndedBy(s.log, s.ended, s.fan.phase, i, |s.log|, false)
    {
      assert WorkerLogged(s.fan.phase, s.fan.workers[i], s.log, s.ended, i);
    }
    HistoryEnters(s.pc, AfterFan(s.pc, s.fan.failed), s.fan.failed, |s.targets|, s.log, s.ended);
  }

  lemma LogKept(s: State, step: Step)
    requires FanOk(s) && LogOk(s) && Guard(s, step)
    ensures LogOk(Do(s, step))
  {
    if step.Move? {
      LogKeptByMove(s, step.i, step.ok, step.after);
    } else if step.Return? {
      LogKeptByReturn(s, step.i);
    } else if step.Barrier? {
      LogKeptByBarrier(s);
    } else if !step.Cancel? {
      LogKeptByVerdict(s, step);
    }
  }

  lemma LogKeptByVerdict(s: State, step: Step)
    requires FanOk(s) && LogOk(s) && Guard(s, step) && (step.Verify? || step.Commit?)
    ensures LogOk(Do(s, step))
  {
    HistoryEnters(s.pc, AfterVerdict(step), false, |s.targets|, s.log, s.ended);
  }

  ghost predicate Inv(s: State) {
    HostsInv(s) && LogOk(s)
  }

  // ----- Whole runs

  ghost predicate CanRun(s: State, steps: seq<Step>)
    decreases |steps|, 0
  {
    steps == [] ||
    (CanRun(s, steps[..|steps| - 1]) && Guard(AfterSteps(s, steps[..|steps| - 1]), steps[|steps| - 1]))
  }

  ghost function AfterSteps(s: State, steps: seq<Step>): State
    requires CanRun(s, steps)
    decreases |steps|, 1
  {
    if steps == [] then s else Do(AfterSteps(s, steps[..|steps| - 1]), steps[|steps| - 1])
  }

  lemma {:induction false} InvAlways(targets: seq<HostId>, found: map<HostId, Host>, canceled: bool, steps: seq<Step>)
    requires Startable(targets, found) && CanRun(Init(targets, found, canceled), steps)
    ensures var s := AfterSteps(Init(targets, found, canceled), steps);
            s.targets == targets && s.found == found && Inv(s)
    decreases |steps|
  {
    var s0 := Init(targets, found, canceled);
    if steps == [] {
      InvAtStart(targets, found, canceled);
    } else {
      var front := steps[..|steps| - 1];
      InvAlways(targets, found, canceled, front);
      StepKeeps(AfterSteps(s0, front), steps[|steps| - 1]);
    }
  }

  lemma InvAtStart(targets: seq<HostId>, found: map<HostId, Host>, canceled: bool)
    requires Startable(targets, found)
    ensures Inv(Init(targets, found, canceled))
  {
  }

  lemma StepKeeps(s: State, step: Step)
    requires Inv(s) && Guard(s, step)
    ensures Inv(Do(s, step)) && Do(s, step).targets == s.targets && Do(s, step).found == s.found
  {
    HostsKept(s, step);
    LogKept(s, step);
    SameRun(s, step);
  }

  lemma SameRun(s: State, step: Step)
    requires Guard(s, step)
    ensures Do(s, step).targets == s.targets && Do(s, step).found == s.found
  {
    if step.Barrier? {
      EnterSame(s, AfterFan(s.pc, s.fan.failed));
    } else if step.Verify? || step.Commit? {
      EnterSame(s, AfterVerdict(step));
    }
  }

  lemma EnterSame(s: State, next: Pc)
    ensures Enter(s, next).targets == s.targets && Enter(s, next).found == s.found && Enter(s, next).pc == next
    ensures Enter(s, next).hosts == s.hosts && (Enter(s, next).before == if next.InFan() then s.hosts else s.before)
  {
    if next.InFan() {
      assert Enter(s, next) == s.(pc := next, before := s.hosts, fan := NewFan(next.FanPhase(), |s.targets|));
    }
  }

  /** The run stopped some MinIO, or tried to. */
  predicate DowntimeBegan(s: State) {
    exists k :: 0 <= k < |s.log| && s.log[k].phase == Switch && s.log[k].op == StopMinio
  }

  /** Every worker of both rollback fan-outs is through, the stops before the starts. */
  predicate RollbackRan(s: State) {
    && (forall i :: 0 <= i < |s.targets| ==> EndedBy(s.log, s.ended, StopBuckit, i, |s.log|, true))
    && (forall i :: 0 <= i < |s.targets| ==> EndedBy(s.log, s.ended, StartMinio, i, |s.log|, true))
  }

  ghost predicate EachTarget(s: State, p: Host -> bool) {
    forall i :: 0 <= i < |s.targets| ==> s.targets[i] in s.hosts && p(s.hosts[s.targets[i]])
  }

  /** The cutover never ends mid-downtime. A run that began the downtime ends with every
      attempted host switched to Buckit, with its package and any drop-in it needs, or after
      both rollback fan-outs: then MinIO is back on all of them if the second succeeded, and
      Buckit off if the first did. It returns nil exactly when the engine flip was stored; a
      rollback never flips, and a failed commit leaves the hosts on Buckit without one. */
  lemma NeverEndsMidDowntime(targets: seq<HostId>, found: map<HostId, Host>, canceled: bool, steps: seq<Step>)
    requires Startable(targets, found) && CanRun(Init(targets, found, canceled), steps)
    requires AfterSteps(Init(targets, found, canceled), steps).pc.Done?
    ensures var s := AfterSteps(Init(targets, found, canceled), steps);
            && (s.flipped <==> s.pc.outcome == Migrated)
            && match s.pc.outcome
               case PreStageFailed => !DowntimeBegan(s)
               case Migrated => EachTarget(s, (h: Host) => h.OnBuckit() && h.Staged())
               case CommitFailed => EachTarget(s, (h: Host) => h.OnBuckit() && h.Staged())
               case RolledBack(stopOk, startOk) =>
                 && RollbackRan(s)
                 && (startOk ==> EachTarget(s, (h: Host) => h.OnMinio()))
                 && (stopOk ==> EachTarget(s, (h: Host) => h.OffBuckit() && !h.dropIn))
  {
    InvAlways(targets, found, canceled, steps);
    var s := AfterSteps(Init(targets, found, canceled), steps);
    forall i | 0 <= i < |s.targets|
      ensures TargetOk(s.pc, Finished, s.found[s.targets[i]], s.before[s.targets[i]], s.hosts[s.targets[i]])
    {
    }
  }

  /** At every moment of every run: hosts outside the attempted ones are as the run found
      them; before the pre-stage barrier falls, and for good when a pre-stage fails, all
      services everywhere are as found; no Switch step precedes the end of any pre-stage
      and no StartMinio step the end of any StopBuckit; and once every StopBuckit
      succeeded, no attempted host runs Buckit while MinIO is started. */
  lemma BarriersHold(targets: seq<HostId>, found: map<HostId, Host>, canceled: bool, steps: seq<Step>)
    requires Startable(targets, found) && CanRun(Init(targets, found, canceled), steps)
    ensures var s := AfterSteps(Init(targets, found, canceled), steps);
            && s.hosts.Keys == found.Keys
            && (forall h :: h in found && h !in targets ==> s.hosts[h] == found[h])
            && (s.pc == PreStaging || s.pc == Done(PreStageFailed) ==>
                  !s.flipped && forall h :: h in found ==> SameServices(found[h], s.hosts[h]))
            && Ordered(s.log, s.ended, |targets|)
            && (s.pc == Starting(true) ==> EachTarget(s, (h: Host) => h.OffBuckit()))
  {
    InvAlways(targets, found, canceled, steps);
    var s := AfterSteps(Init(targets, found, canceled), steps);
    if s.pc == PreStaging || s.pc == Done(PreStageFailed) {
      UntouchedBefore(s);
    } else if s.pc == Starting(true) {
      BuckitOffInStarting(s);
    }
  }

  lemma UntouchedBefore(s: State)
    requires HostsInv(s) && (s.pc == PreStaging || s.pc == Done(PreStageFailed))
    ensures !s.flipped && forall h :: h in s.found ==> SameServices(s.found[h], s.hosts[h])
  {
    forall h | h in s.found
      ensures SameServices(s.found[h], s.hosts[h])
    {
      if h in s.targets {
        var i :| 0 <= i < |s.targets| && s.targets[i] == h;
        assert TargetOk(s.pc, if s.pc.InFan() then s.fan.workers[i] else Finished,
                        s.found[h], s.before[h], s.hosts[h]);
      }
    }
  }

  lemma BuckitOffInStarting(s: State)
    requires HostsInv(s) && s.pc == Starting(true)
    ensures EachTarget(s, (h: Host) => h.OffBuckit())
  {
    forall i | 0 <= i < |s.targets|
      ensures s.hosts[s.targets[i]].OffBuckit()
    {
      var h := s.targets[i];
      assert TargetOk(s.pc, s.fan.workers[i], s.found[h], s.before[h], s.hosts[h]);
    }
  }

  predicate PastVerification(pc: Pc) {
    pc == Committing || pc == Done(Migrated) || pc == Done(CommitFailed)
  }

  lemma VerdictNeeded(s: State, step: Step)
    requires Guard(s, step)
    ensures PastVerification(Do(s, step).pc) ==> PastVerification(s.pc) || step == Verify(true)
    ensures Do(s, step).pc == Done(Migrated) ==> s.pc == Done(Migrated) || step == Commit(true)
  {
    if step.Barrier? {
      EnterSame(s, AfterFan(s.pc, s.fan.failed));
    } else if step.Verify? || step.Commit? {
      EnterSame(s, AfterVerdict(step));
    }
  }

  /** A run that got past verification had a successful verdict of it, and one that migrated
      a successful commit. */
  lemma {:induction false} OnlyVerifiedCommits(s0: State, steps: seq<Step>)
    requires CanRun(s0, steps) && s0.pc == PreStaging
    ensures PastVerification(AfterSteps(s0, steps).pc) ==> Verify(true) in steps
    ensures AfterSteps(s0, steps).pc == Done(Migrated) ==> Commit(true) in steps
    decreases |steps|
  {
    if steps != [] {
      var front, step := steps[..|steps| - 1], steps[|steps| - 1];
      OnlyVerifiedCommits(s0, front);
      VerdictNeeded(AfterSteps(s0, front), step);
      LastOfSteps(steps, front, step);
    }
  }

  lemma LastOfSteps(steps: seq<Step>, front: seq<Step>, step: Step)
    requires steps != [] && front == steps[..|steps| - 1] && step == steps[|steps| - 1]
    ensures step in steps && forall x :: x in front ==> x in steps
  {
  }

  // ----- Every host follows the scripts

  /** The steps worker `i` took in phase `p`, in order. */
  function Taken(log: Log, p: Phase, i: nat): Log {
    if log == [] then []
    else
      var e := log[|log| - 1];
      Taken(log[..|log| - 1], p, i) + if e.phase == p && e.worker == i then [e] else []
  }

  /** The steps taken begin the script, and each but the last succeeded. */
  predicate Follows(taken: Log, script: seq<Op>) {
    && |taken| <= |script|
    && (forall k :: 0 <= k < |taken| ==> taken[k].op == script[k])
    && (forall k :: 0 <= k < |taken| - 1 ==> taken[k].ok)
  }

  /** Where a worker is, by the steps it took. */
  predicate Stands(w: Worker, taken: Log, script: seq<Op>) {
    && Follows(taken, script)
    && (w.At? ==> |taken| == w.next && (taken != [] ==> taken[|taken| - 1].ok))
    && (w.Finished? ==> |taken| == |script| && (taken != [] ==> taken[|taken| - 1].ok))
  }

  lemma TakenSnoc(log: Log, e: Entry, p: Phase, i: nat)
    ensures Taken(log + [e], p, i) == if e.phase == p && e.worker == i then Taken(log, p, i) + [e] else Taken(log, p, i)
  {
    assert (log + [e])[..|log|] == log;
    assert Taken(log, p, i) + [] == Taken(log, p, i);
  }

  lemma {:induction false} NothingTaken(log: Log, p: Phase, i: nat)
    requires forall k :: 0 <= k < |log| ==> log[k].phase != p
    ensures Taken(log, p, i) == []
  {
    if log != [] {
      NothingTaken(log[..|log| - 1], p, i);
    }
  }

  ghost predicate ScriptsOk(s: State) {
    && (forall p: Phase, i: nat {:trigger Taken(s.log, p, i)} :: Follows(Taken(s.log, p, i), Script(p)))
    && (s.pc.InFan() ==> forall i :: 0 <= i < |s.fan.workers| ==>
                           Stands(s.fan.workers[i], Taken(s.log, s.fan.phase, i), Script(s.fan.phase)))
  }

  lemma StandsAfter(p: Phase, w: Worker, taken: Log, e: Entry)
    requires Stands(w, taken, Script(p)) && w.At? && w.next < |Script(p)| && e.op == Script(p)[w.next]
    ensures Stands(After(p, w.next, e.ok), taken + [e], Script(p))
  {
    StandsOnScript(Script(p), w, taken, e, After(p, w.next, e.ok));
  }

  lemma StandsOnScript(script: seq<Op>, w: Worker, taken: Log, e: Entry, w': Worker)
    requires Stands(w, taken, script) && w.At? && w.next < |script| && e.op == script[w.next]
    requires w' == if !e.ok then Failing else if w.next + 1 == |script| then Finished else At(w.next + 1)
    ensures Stands(w', taken + [e], script)
  {
  }

  lemma ScriptsKeptByMove(s: State, i: nat, ok: bool, after: Host)
    requires FanOk(s) && ScriptsOk(s) && Guard(s, Move(i, ok, after))
    ensures ScriptsOk(Do(s, Move(i, ok, after)))
  {
    var s' := Do(s, Move(i, ok, after));
    var e := s'.log[|s.log|];
    StandsAfter(s.fan.phase, s.fan.workers[i], Taken(s.log, s.fan.phase, i), e);
    forall p: Phase, j: nat {:trigger Taken(s'.log, p, j)}
      ensures Follows(Taken(s'.log, p, j), Script(p))
    {
      TakenSnoc(s.log, e, p, j);
    }
    forall j: nat | j < |s.fan.workers|
      ensures Stands(s'.fan.workers[j], Taken(s'.log, s.fan.phase, j), Script(s.fan.phase))
    {
      TakenSnoc(s.log, e, s.fan.phase, j);
    }
  }

  lemma ScriptsKeptByReturn(s: State, i: nat)
    requires FanOk(s) && ScriptsOk(s) && Guard(s, Return(i))
    ensures ScriptsOk(Do(s, Return(i)))
  {
    var s' := Do(s, Return(i));
    forall j: nat | j < |s.fan.workers|
      ensures Stands(s'.fan.workers[j], Taken(s'.log, s.fan.phase, j), Script(s.fan.phase))
    {
      assert Stands(s.fan.workers[j], Taken(s.log, s.fan.phase, j), Script(s.fan.phase));
    }
  }

  lemma ScriptsKeptByEnter(s: State, next: Pc)
    requires ScriptsOk(s) && (next.InFan() ==> forall k :: 0 <= k < |s.log| ==> s.log[k].phase != next.FanPhase())
    ensures ScriptsOk(Enter(s, next))
  {
    var s' := Enter(s, next);
    if next.InFan() {
      forall i: nat | i < |s'.fan.workers|
        ensures Stands(s'.fan.workers[i], Taken(s.log, next.FanPhase(), i), Script(next.FanPhase()))
      {
        NothingTaken(s.log, next.FanPhase(), i);
      }
    }
  }

  lemma NewPhase(s: State, next: Pc)
    requires LogOk(s) && next.InFan()
    requires (s.pc.InFan() && next == AfterFan(s.pc, s.fan.failed)) || (s.pc.Verifying? && next == Stopping)
    ensures forall k :: 0 <= k < |s.log| ==> s.log[k].phase != next.FanPhase()
  {
    assert !Reached(s.pc, next.FanPhase());
  }

  lemma ScriptsKept(s: State, step: Step)
    requires FanOk(s) && LogOk(s) && ScriptsOk(s) && Guard(s, step)
    ensures ScriptsOk(Do(s, step))
  {
    if step.Move? {
      ScriptsKeptByMove(s, step.i, step.ok, step.after);
    } else if step.Return? {
      ScriptsKeptByReturn(s, step.i);
    } else if step.Barrier? {
      var next := AfterFan(s.pc, s.fan.failed);
      if next.InFan() {
        NewPhase(s, next);
      }
      ScriptsKeptByEnter(s, next);
    } else if !step.Cancel? {
      var next := AfterVerdict(step);
      if next.InFan() {
        NewPhase(s, next);
      }
      ScriptsKeptByEnter(s, next);
    }
  }

  /** In every run each host takes, in each phase, the steps of its script in order and
      stops at the first that fails; so nothing is installed before its checksum was
      verified, and Buckit is enabled only after MinIO was stopped. */
  lemma {:induction false} ScriptsFollowed(targets: seq<HostId>, found: map<HostId, Host>, canceled: bool,
                                           steps: seq<Step>)
    requires Startable(targets, found) && CanRun(Init(targets, found, canceled), steps)
    ensures var s := AfterSteps(Init(targets, found, canceled), steps);
            && ScriptsOk(s)
            && forall i: nat ::
                 && SucceededBefore(Taken(s.log, PreStage, i), VerifyChecksum, Install)
                 && SucceededBefore(Taken(s.log, Switch, i), StopMinio, SwapUnits)
    decreases |steps|
  {
    var s0 := Init(targets, found, canceled);
    if steps != [] {
      var front := steps[..|steps| - 1];
      ScriptsFollowed(targets, found, canceled, front);
      InvAlways(targets, found, canceled, front);
      ScriptsKept(AfterSteps(s0, front), steps[|steps| - 1]);
    }
    var s := AfterSteps(s0, steps);
    forall i: nat
      ensures SucceededBefore(Taken(s.log, PreStage, i), VerifyChecksum, Install)
      ensures SucceededBefore(Taken(s.log, Switch, i), StopMinio, SwapUnits)
    {
      VerifiedBeforeInstall(Taken(s.log, PreStage, i));
      StoppedBeforeSwap(Taken(s.log, Switch, i));
    }
  }

  /** Whenever `later` was taken, `earlier` was taken just before it and succeeded. */
  predicate SucceededBefore(taken: Log, earlier: Op, later: Op) {
    forall k :: 0 <= k < |taken| && taken[k].op == later ==> k > 0 && taken[k - 1].op == earlier && taken[k - 1].ok
  }

  lemma VerifiedBeforeInstall(taken: Log)
    requires Follows(taken, Script(PreStage))
    ensures SucceededBefore(taken, VerifyChecksum, Install)
  {
    forall k | 0 <= k < |taken| && taken[k].op == Install
      ensures k == 9
    {
      assert Script(PreStage)[k] == Install;
    }
  }

  lemma StoppedBeforeSwap(taken: Log)
    requires Follows(taken, Script(Switch))
    ensures SucceededBefore(taken, StopMinio, SwapUnits)
  {
    forall k | 0 <= k < |taken| && taken[k].op == SwapUnits
      ensures k == 3
    {
      assert Script(Switch)[k] == SwapUnits;
    }
  }

  // ----- The steps by name

  lemma {:induction false} TakenPrefix(log: Log, k: nat, p: Phase, i: nat)
    requires k <= |log|
    ensures Taken(log[..k], p, i) <= Taken(log, p, i)
  {
    if k == |log| {
      assert log[..k] == log;
    } else {
      TakenPrefix(log[..|log| - 1], k, p, i);
      assert log[..|log| - 1][..k] == log[..k];
    }
  }

  /** By the end of `log`, worker `i` took exactly these steps in phase `p`, and each of
      them succeeded. */
  predicate Took(log: Log, p: Phase, i: nat, ops: seq<Op>) {
    var taken := Taken(log, p, i);
    |taken| == |ops| && forall k :: 0 <= k < |ops| ==> taken[k].op == ops[k] && taken[k].ok
  }

  /** A worker that was through successfully took its whole script. */
  lemma EndedTook(log: Log, ended: Ends, p: Phase, i: nat, k: nat)
    requires EndedBy(log, ended, p, i, k, false) && k <= |log| && Follows(Taken(log, p, i), Script(p))
    ensures Took(log[..k], p, i, Script(p))
  {
    var at := ended[(p, i)];
    TakenPrefix(log, k, p, i);
    LastIsTaken(log[..k], p, i, at);
    LastOpOnce(p);
    WholeScript(Taken(log, p, i), Taken(log[..k], p, i), log[at], Script(p));
  }

  lemma LastIsTaken(log: Log, p: Phase, i: nat, at: nat)
    requires at < |log| && log[at].phase == p && log[at].worker == i
    ensures log[at] in Taken(log, p, i)
  {
    assert log[..at + 1] == log[..at] + [log[at]];
    TakenSnoc(log[..at], log[at], p, i);
    TakenPrefix(log, at + 1, p, i);
    var taken := Taken(log[..at + 1], p, i);
    assert taken[|taken| - 1] == log[at] == Taken(log, p, i)[|taken| - 1];
  }

  /** A beginning of the steps that holds a successful last step is the whole script. */
  lemma WholeScript(all: Log, taken: Log, e: Entry, script: seq<Op>)
    requires Follows(all, script) && taken <= all && e in taken && e.ok && script != [] && e.op == script[|script| - 1]
    requires forall n :: 0 <= n < |script| - 1 ==> script[n] != script[|script| - 1]
    ensures |taken| == |script| && forall k :: 0 <= k < |script| ==> taken[k].op == script[k] && taken[k].ok
  {
    var n :| 0 <= n < |taken| && taken[n] == e;
    assert all[n] == e && all[n].op == script[n];
    assert n == |script| - 1;
  }

  lemma LastOpOnce(p: Phase)
    ensures forall n :: 0 <= n < |Script(p)| - 1 ==> Script(p)[n] != Script(p)[|Script(p)| - 1]
  {
  }

  /** At every moment of every run: before any step of a switch, every attempted host went
      through the whole pre-stage, drop-in included; a run that got past the switch stopped
      MinIO and swapped the units on all of them; after a clean stop phase Buckit was
      disabled, uninstalled and its drop-in removed, in this order; and after a clean start
      phase MinIO was enabled and seen live. */
  lemma StepsByName(targets: seq<HostId>, found: map<HostId, Host>, canceled: bool, steps: seq<Step>, i: nat)
    requires Startable(targets, found) && CanRun(Init(targets, found, canceled), steps) && i < |targets|
    ensures var s := AfterSteps(Init(targets, found, canceled), steps);
            && (forall k :: 0 <= k < |s.log| && s.log[k].phase == Switch ==>
                  Took(s.log[..k], PreStage, i,
                       [CheckContext, Dial, ProbeMinio, DetectManager, DetectArch, ResolveArtifact, FetchChecksum,
                        Download, VerifyChecksum, Install, ProbeBuckit, WriteDropIn]))
            && (s.pc == Verifying || s.pc == Committing || s.pc == Done(Migrated) || s.pc == Done(CommitFailed) ==>
                  Took(s.log, Switch, i, [CheckContext, Dial, StopMinio, SwapUnits]))
            && (s.pc == Starting(true) || (s.pc.Done? && s.pc.outcome.RolledBack? && s.pc.outcome.stopOk) ==>
                  Took(s.log, StopBuckit, i, [Dial, DisableBuckit, Uninstall, RemoveDropIn]))
            && (s.pc.Done? && s.pc.outcome.RolledBack? && s.pc.outcome.startOk ==>
                  Took(s.log, StartMinio, i, [Dial, EnableMinio, WaitMinioLive]))
  {
    var s := AfterSteps(Init(targets, found, canceled), steps);
    InvAlways(targets, found, canceled, steps);
    ScriptsFollowed(targets, found, canceled, steps);
    PreStagedFirst(s, i);
    PassedTook(s, Switch, i);
    PassedTook(s, StopBuckit, i);
    PassedTook(s, StartMinio, i);
  }

  lemma PreStagedFirst(s: State, i: nat)
    requires LogOk(s) && ScriptsOk(s) && i < |s.targets|
    ensures forall k :: 0 <= k < |s.log| && s.log[k].phase == Switch ==>
              Took(s.log[..k], PreStage, i, Script(PreStage))
  {
    forall k | 0 <= k < |s.log| && s.log[k].phase == Switch
      ensures Took(s.log[..k], PreStage, i, Script(PreStage))
    {
      EndedTook(s.log, s.ended, PreStage, i, k);
    }
  }

  lemma PassedTook(s: State, p: Phase, i: nat)
    requires LogOk(s) && ScriptsOk(s) && i < |s.targets|
    ensures PassedOk(s.pc, p) ==> Took(s.log, p, i, Script(p))
  {
    if PassedOk(s.pc, p) {
      assert EndedBy(s.log, s.ended, p, i, |s.log|, false);
      EndedTook(s.log, s.ended, p, i, |s.log|);
      assert s.log[..|s.log|] == s.log;
    }
  }

  // ----- Every run ends

  function PhasesLeft(pc: Pc): nat {
    match pc
    case PreStaging => 6
    case Switching => 5
    case Verifying => 4
    case Committing => 3
    case Stopping => 2
    case Starting(_) => 1
    case Done(_) => 0
  }

  function Measure(s: State): nat {
    PhasesLeft(s.pc) * (13 * |s.targets| + 1)
    + (if s.pc.InFan() then StepsLeft(s.fan.phase, s.fan.workers) else 0)
    + if s.canceled then 0 else 1
  }

  lemma StepShrinks(s: State, step: Step)
    requires FanOk(s) && Guard(s, step)
    ensures Measure(Do(s, step)) < Measure(s)
  {
    if step.Move? {
      MoveShrinks(s, step.i, step.ok, step.after);
    } else if step.Return? {
      FewerLeft(s.fan.phase, s.fan.workers, step.i, Failed);
    } else if step.Barrier? {
      EnterShrinks(s, AfterFan(s.pc, s.fan.failed));
    } else if !step.Cancel? {
      EnterShrinks(s, AfterVerdict(step));
    }
  }

  lemma MoveShrinks(s: State, i: nat, ok: bool, after: Host)
    requires FanOk(s) && Guard(s, Move(i, ok, after))
    ensures Measure(Do(s, Move(i, ok, after))) < Measure(s)
  {
    FewerLeft(s.fan.phase, s.fan.workers, i, Advanced(s.fan, i, ok));
  }

  lemma EnterShrinks(s: State, next: Pc)
    requires PhasesLeft(next) < PhasesLeft(s.pc)
    ensures Measure(Enter(s, next)) < Measure(s)
  {
    Drop(PhasesLeft(s.pc), PhasesLeft(next), 13 * |s.targets| + 1);
    if next.InFan() {
      MostLeft(next.FanPhase(), NewFan(next.FanPhase(), |s.targets|).workers);
    }
  }

  lemma Drop(a: nat, b: nat, n: nat)
    requires b < a
    ensures b * n + n <= a * n
  {
    assert (b + 1) * n <= a * n;
  }

  /** A run takes no more steps than its first measure, and until it is done it can always
      take another. */
  lemma {:induction false} RunsEnd(targets: seq<HostId>, found: map<HostId, Host>, canceled: bool, steps: seq<Step>)
    requires Startable(targets, found) && CanRun(Init(targets, found, canceled), steps)
    ensures var s0 := Init(targets, found, canceled);
            |steps| + Measure(AfterSteps(s0, steps)) <= Measure(s0)
    decreases |steps|
  {
    if steps != [] {
      var front := steps[..|steps| - 1];
      RunsEnd(targets, found, canceled, front);
      InvAlways(targets, found, canceled, front);
      StepShrinks(AfterSteps(Init(targets, found, canceled), front), steps[|steps| - 1]);
    }
  }

  lemma NeverStuck(s: State) returns (step: Step)
    requires HostsInv(s) && !s.pc.Done?
    ensures Guard(s, step)
  {
    if s.pc.Verifying? {
      step := Verify(false);
    } else if s.pc.Committing? {
      step := Commit(false);
    } else if AllEnded(s.fan) {
      step := Barrier;
    } else {
      var i :| 0 <= i < |s.fan.workers| && !s.fan.workers[i].Through();
      if s.fan.workers[i].Failing? {
        step := Return(i);
      } else {
        var h := s.hosts[s.targets[i]];
        var op := Script(s.fan.phase)[s.fan.workers[i].next];
        step := Move(i, op.CheckContext? && !s.canceled && !s.fan.failed, h);
      }
    }
  }
}
