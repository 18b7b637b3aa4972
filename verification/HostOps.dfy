/** What the migration does to one host, step by step (internal/migration/installer.go),
    and the parallel fan-out of one phase over many hosts (executor.go:278-294). A remote
    step may fail at any time; whatever it did by then is its whole effect. */
module HostOps {

  type HostId = string

  /** The two services of a host, the Buckit package and its systemd drop-in. `unitsDiffer`
      says whether a drop-in is needed: the one rendered from the two units is not empty. */
  datatype Host = Host(
    minioRunning: bool, minioEnabled: bool,
    buckitInstalled: bool, buckitRunning: bool, buckitEnabled: bool,
    dropIn: bool, unitsDiffer: bool)
  {
    /** Buckit would start with the identity and files of MinIO. */
    predicate Staged() {
      buckitInstalled && (unitsDiffer ==> dropIn)
    }

    predicate OnMinio() {
      minioRunning && minioEnabled
    }

    predicate OnBuckit() {
      buckitRunning && buckitEnabled && !minioRunning && !minioEnabled
    }

    predicate OffBuckit() {
      !buckitRunning && !buckitEnabled
    }
  }

  predicate SameServices(a: Host, b: Host) {
    && a.minioRunning == b.minioRunning && a.minioEnabled == b.minioEnabled
    && a.buckitRunning == b.buckitRunning && a.buckitEnabled == b.buckitEnabled
  }

  datatype Op =
    | CheckContext | Dial
    | ProbeMinio | DetectManager | DetectArch | ResolveArtifact | FetchChecksum | Download | VerifyChecksum
    | Install | ProbeBuckit | WriteDropIn
    | StopMinio | SwapUnits
    | DisableBuckit | Uninstall | RemoveDropIn
    | EnableMinio | WaitMinioLive

  datatype Phase = PreStage | Switch | StopBuckit | StartMinio

  function Script(p: Phase): seq<Op> {
    match p
    case PreStage => [CheckContext, Dial, ProbeMinio, DetectManager, DetectArch, ResolveArtifact, FetchChecksum,
                      Download, VerifyChecksum, Install, ProbeBuckit, WriteDropIn]
    case Switch => [CheckContext, Dial, StopMinio, SwapUnits]
    case StopBuckit => [Dial, DisableBuckit, Uninstall, RemoveDropIn]
    case StartMinio => [Dial, EnableMinio, WaitMinioLive]
  }

  /** What a step may do. A step that reports success took effect, also where its command
      ends in `|| true`; a failed one may have done any part of it. A start that times out
      may stop the service it started. */
  predicate Effect(op: Op, ok: bool, h: Host, h': Host) {
    match op
    // The package brings Buckit's unit.
    case Install =>
      && h' == h.(buckitInstalled := h'.buckitInstalled, unitsDiffer := h'.unitsDiffer)
      && (h.buckitInstalled || ok ==> h'.buckitInstalled)
    // Skipped, successfully, when the units agree and the body is empty.
    case WriteDropIn =>
      h' == h.(dropIn := h'.dropIn) && (h.dropIn || (ok && h.unitsDiffer) ==> h'.dropIn)
    case StopMinio =>
      h' == h.(minioRunning := h'.minioRunning) && (h'.minioRunning ==> h.minioRunning && !ok)
    case SwapUnits =>
      && h' == h.(minioEnabled := h'.minioEnabled, buckitRunning := h'.buckitRunning, buckitEnabled := h'.buckitEnabled)
      && (h'.minioEnabled ==> h.minioEnabled) && (h.buckitEnabled ==> h'.buckitEnabled)
      && (ok ==> !h'.minioEnabled && h'.buckitRunning && h'.buckitEnabled)
    case DisableBuckit =>
      && h' == h.(buckitRunning := h'.buckitRunning, buckitEnabled := h'.buckitEnabled)
      && (h'.buckitRunning ==> h.buckitRunning && !ok) && (h'.buckitEnabled ==> h.buckitEnabled && !ok)
    // Skipped, successfully, when no package manager is found.
    case Uninstall =>
      && h' == h.(buckitInstalled := h'.buckitInstalled, unitsDiffer := h'.unitsDiffer)
      && (h'.buckitInstalled ==> h.buckitInstalled)
    case RemoveDropIn => h' == h.(dropIn := h'.dropIn) && (h'.dropIn ==> h.dropIn && !ok)
    case EnableMinio =>
      && h' == h.(minioRunning := h'.minioRunning, minioEnabled := h'.minioEnabled)
      && (h.minioEnabled || ok ==> h'.minioEnabled) && (ok ==> h'.minioRunning)
    case _ => h' == h
  }

  // ----- One phase on every target, in parallel

  /** A worker whose step failed is `Failing` until its goroutine has returned the error. */
  datatype Worker = At(next: nat) | Finished | Failing | Failed
  {
    predicate Through() {
      Finished? || Failed?
    }
  }

  /** `failed` is set by the first worker that returns an error; it cancels the fan-out's
      context, so until then other workers still pass its check. */
  datatype Fan = Fan(phase: Phase, workers: seq<Worker>, failed: bool)

  function NewFan(p: Phase, n: nat): (f: Fan)
    ensures f.phase == p && !f.failed && |f.workers| == n && forall i :: 0 <= i < n ==> f.workers[i] == At(0)
  {
    Fan(p, seq(n, _ => At(0)), false)
  }

  /** Worker `i` can take its next step on host `h` with this outcome. */
  predicate CanWork(fan: Fan, i: nat, canceled: bool, ok: bool, h: Host, h': Host) {
    && i < |fan.workers| && fan.workers[i].At? && fan.workers[i].next < |Script(fan.phase)|
    && var op := Script(fan.phase)[fan.workers[i].next];
       Effect(op, ok, h, h') && (op.CheckContext? ==> (ok <==> !canceled && !fan.failed))
  }

  function After(p: Phase, n: nat, ok: bool): Worker {
    if !ok then Failing else if n + 1 == |Script(p)| then Finished else At(n + 1)
  }

  function Advanced(fan: Fan, i: nat, ok: bool): Worker
    requires i < |fan.workers| && fan.workers[i].At?
  {
    After(fan.phase, fan.workers[i].next, ok)
  }

  function Work(fan: Fan, i: nat, ok: bool): Fan
    requires i < |fan.workers| && fan.workers[i].At?
  {
    fan.(workers := fan.workers[i := Advanced(fan, i, ok)])
  }

  /** Worker `i`'s goroutine returns its error. */
  function Settle(fan: Fan, i: nat): Fan
    requires i < |fan.workers|
  {
    fan.(workers := fan.workers[i := Failed], failed := true)
  }

  /** `g.Wait()` returns: every worker is through. */
  predicate AllEnded(fan: Fan) {
    forall i :: 0 <= i < |fan.workers| ==> fan.workers[i].Through()
  }

  /** How a host stands to what it was when the phase began. */
  predicate WorkerOk(p: Phase, w: Worker, was: Host, now: Host) {
    match p
    case PreStage => PreStageOk(w, was, now)
    case Switch => SwitchOk(w, was, now)
    case StopBuckit => StopBuckitOk(w, was, now)
    case StartMinio => StartMinioOk(w, was, now)
  }

  predicate PreStageOk(w: Worker, was: Host, now: Host) {
    SameServices(was, now) && (w.At? && w.next > 9 ==> now.buckitInstalled) && (w.Finished? ==> now.Staged())
  }

  predicate SwitchOk(w: Worker, was: Host, now: Host) {
    && now.buckitInstalled == was.buckitInstalled && now.dropIn == was.dropIn && now.unitsDiffer == was.unitsDiffer
    && (now.minioRunning ==> was.minioRunning)
    && (w.At? && w.next <= 2 ==> now == was)
    && (w.At? && w.next > 2 ==> now == was.(minioRunning := false))
    && (w.Finished? ==> now.OnBuckit())
  }

  predicate StopBuckitOk(w: Worker, was: Host, now: Host) {
    && now.minioRunning == was.minioRunning && now.minioEnabled == was.minioEnabled
    && (now.buckitRunning ==> was.buckitRunning) && (now.buckitEnabled ==> was.buckitEnabled)
    && (w.At? && w.next > 1 ==> now.OffBuckit())
    && (w.Finished? ==> now.OffBuckit() && !now.dropIn)
  }

  predicate StartMinioOk(w: Worker, was: Host, now: Host) {
    && now == was.(minioRunning := now.minioRunning, minioEnabled := now.minioEnabled)
    && (w.At? && w.next > 1 ==> now.OnMinio())
    && (w.Finished? ==> now.OnMinio())
  }

  lemma WorkKeeps(p: Phase, n: nat, ok: bool, was: Host, h: Host, h': Host)
    requires n < |Script(p)| && Effect(Script(p)[n], ok, h, h') && WorkerOk(p, At(n), was, h)
    ensures WorkerOk(p, After(p, n, ok), was, h')
  {
    if p == PreStage {
      PreStageEffect(n, ok, was, h, h');
    } else if p == Switch {
      SwitchEffect(n, ok, was, h, h');
    } else if p == StopBuckit {
      StopBuckitEffect(n, ok, was, h, h');
    } else {
      StartMinioEffect(n, ok, was, h, h');
    }
  }

  lemma PreStageEffect(n: nat, ok: bool, was: Host, h: Host, h': Host)
    requires n < |Script(PreStage)| && Effect(Script(PreStage)[n], ok, h, h') && PreStageOk(At(n), was, h)
    ensures PreStageOk(After(PreStage, n, ok), was, h')
  {
    assert n != 9 && n != 11 ==> h' == h;
  }

  lemma SwitchEffect(n: nat, ok: bool, was: Host, h: Host, h': Host)
    requires n < |Script(Switch)| && Effect(Script(Switch)[n], ok, h, h') && SwitchOk(At(n), was, h)
    ensures SwitchOk(After(Switch, n, ok), was, h')
  {
    if n == 2 {
      StopEffect(ok, was, h, h');
    } else if n == 3 {
      SwapEffect(ok, was, h, h');
    } else {
      assert h' == h;
      DialEffect(n, ok, was, h);
    }
  }

  lemma DialEffect(n: nat, ok: bool, was: Host, h: Host)
    requires n <= 1 && SwitchOk(At(n), was, h)
    ensures SwitchOk(After(Switch, n, ok), was, h)
  {
  }

  lemma StopEffect(ok: bool, was: Host, h: Host, h': Host)
    requires Effect(StopMinio, ok, h, h') && SwitchOk(At(2), was, h)
    ensures SwitchOk(After(Switch, 2, ok), was, h')
  {
  }

  lemma SwapEffect(ok: bool, was: Host, h: Host, h': Host)
    requires Effect(SwapUnits, ok, h, h') && SwitchOk(At(3), was, h)
    ensures SwitchOk(After(Switch, 3, ok), was, h')
  {
  }

  lemma StopBuckitEffect(n: nat, ok: bool, was: Host, h: Host, h': Host)
    requires n < |Script(StopBuckit)| && Effect(Script(StopBuckit)[n], ok, h, h') && StopBuckitOk(At(n), was, h)
    ensures StopBuckitOk(After(StopBuckit, n, ok), was, h')
  {
    assert n == 0 ==> h' == h;
  }

  lemma StartMinioEffect(n: nat, ok: bool, was: Host, h: Host, h': Host)
    requires n < |Script(StartMinio)| && Effect(Script(StartMinio)[n], ok, h, h') && StartMinioOk(At(n), was, h)
    ensures StartMinioOk(After(StartMinio, n, ok), was, h')
  {
    assert n != 1 ==> h' == h;
  }

  /** Steps still to take, over all workers, returning an error included. */
  function StepsLeft(phase: Phase, workers: seq<Worker>): nat {
    if workers == [] then 0
    else StepsLeft(phase, workers[..|workers| - 1]) + WorkerLeft(phase, workers[|workers| - 1])
  }

  function WorkerLeft(phase: Phase, w: Worker): nat {
    if w.At? && w.next < |Script(phase)| then |Script(phase)| - w.next + 1
    else if w.Failing? then 1
    else 0
  }

  lemma {:induction false} FewerLeft(phase: Phase, workers: seq<Worker>, i: nat, w: Worker)
    requires i < |workers| && WorkerLeft(phase, w) < WorkerLeft(phase, workers[i])
    ensures StepsLeft(phase, workers[i := w]) < StepsLeft(phase, workers)
  {
    var n := |workers| - 1;
    if i < n {
      FewerLeft(phase, workers[..n], i, w);
      assert workers[i := w][..n] == workers[..n][i := w];
    } else {
      assert workers[i := w][..n] == workers[..n];
    }
  }

  lemma {:induction false} MostLeft(phase: Phase, workers: seq<Worker>)
    ensures StepsLeft(phase, workers) <= 13 * |workers|
  {
    if workers != [] {
      MostLeft(phase, workers[..|workers| - 1]);
    }
  }
}
