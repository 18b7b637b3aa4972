/** The multi-node write, rollback and restart protocol of rotate_root_creds
    (internal/operations/rotate_root_creds.go:44-501). Every remote step may fail, and a
    failed write may leave anything in the file it was writing. */
module RotationFleet {
  import opened Text
  import opened EnvFile
  import opened Credentials

  type Node = nat

  // ----- What a here-document stores

  const MARKER := "BMCFG"

  function Ended(body: string): string {
    if HasSuffix(body, "\n") then body else body + "\n"
  }

  function UpToMarker(lines: seq<string>): seq<string> {
    if lines == [] || lines[0] == MARKER then [] else [lines[0]] + UpToMarker(lines[1..])
  }

  /** The shell stores the lines before the first one that is the marker. */
  function HereDoc(body: string): string {
    Unlines(UpToMarker(Lines(Ended(body))))
  }

  predicate MarkerFree(body: string) {
    MARKER !in Lines(Ended(body))
  }

  lemma {:induction false} UpToMarkerAll(lines: seq<string>)
    ensures UpToMarker(lines) == lines <==> MARKER !in lines
    ensures |UpToMarker(lines)| <= |lines|
  {
    if lines != [] {
      UpToMarkerAll(lines[1..]);
      assert lines == [lines[0]] + lines[1..];
      if lines[0] != MARKER && UpToMarker(lines) == lines {
        assert UpToMarker(lines)[1..] == UpToMarker(lines[1..]);
      }
    }
  }

  /** A body is stored whole, with a final newline, exactly when no line is the marker. */
  lemma HereDocStoresBody(body: string)
    ensures HereDoc(body) == Ended(body) <==> MarkerFree(body)
  {
    var lines := Lines(Ended(body));
    UnlinesLines(Ended(body));
    assert WithFinalNewline(Ended(body)) == Ended(body);
    UpToMarkerAll(lines);
    if HereDoc(body) == Ended(body) {
      assert forall l :: l in UpToMarker(lines) ==> '\n' !in l by {
        UpToMarkerMembers(lines);
      }
      LinesUnlines(UpToMarker(lines));
    }
  }

  lemma {:induction false} UpToMarkerMembers(lines: seq<string>)
    ensures forall l :: l in UpToMarker(lines) ==> l in lines
  {
    if lines != [] {
      UpToMarkerMembers(lines[1..]);
    }
  }

  // ----- Plans and the states of a node's files

  datatype Planned = Planned(node: Node, t: Target)

  function Backup(path: string, task: string): string {
    path + ".bm-" + task + ".bak"
  }

  function Touched(t: Target, task: string): set<string> {
    {PRIMARY, t.secondaryPath, Backup(PRIMARY, task), Backup(t.secondaryPath, task)}
  }

  /** No text the phase may write holds a line that ends its here-document early. */
  predicate Clean(t: Target) {
    MarkerFree(t.primaryText) && MarkerFree(t.secondaryText)
    && MarkerFree(t.newPrimaryText) && MarkerFree(t.newSecondaryText)
  }

  /** Two names of one file were read with one text. */
  predicate Coherent(t: Target) {
    t.secondaryPath == PRIMARY ==> t.secondaryExists && t.secondaryText == t.primaryText
  }

  predicate IsWritten(d: Disk, t: Target) {
    && PRIMARY in d && d[PRIMARY] == Ended(t.newPrimaryText)
    && t.secondaryPath in d && (t.secondaryPath != PRIMARY ==> d[t.secondaryPath] == Ended(t.newSecondaryText))
  }

  /** Both files hold the text they had when the target was planned, up to a final newline. */
  predicate IsRestored(d: Disk, t: Target) {
    && PRIMARY in d && d[PRIMARY] == Ended(t.primaryText)
    && (t.secondaryPath in d <==> t.secondaryExists)
    && (t.secondaryExists ==> d[t.secondaryPath] == Ended(t.secondaryText))
  }

  /** The two file sets agree on every path outside `paths`. */
  ghost predicate SameExcept(a: Disk, b: Disk, paths: set<string>) {
    forall p :: p !in paths ==> (p in a <==> p in b) && (p in a && p in b ==> a[p] == b[p])
  }

  /** No planned file has the name of a backup this task takes. */
  predicate Apart(t: Target, task: string) {
    t.secondaryPath != Backup(PRIMARY, task)
  }

  predicate AllApart(ps: seq<Planned>, task: string) {
    forall i :: 0 <= i < |ps| ==> Apart(ps[i].t, task)
  }

  /** Both files, as they were, are found in their backups. */
  predicate BackedUp(was: Disk, now: Disk, t: Target, task: string) {
    && PRIMARY in was && Backup(PRIMARY, task) in now && now[Backup(PRIMARY, task)] == was[PRIMARY]
    && (t.secondaryExists ==>
          && t.secondaryPath in was && Backup(t.secondaryPath, task) in now
          && now[Backup(t.secondaryPath, task)] == was[t.secondaryPath])
  }

  /** The same for the first `i` nodes of a plan. */
  predicate Copied(ps: seq<Planned>, i: nat, task: string, was: map<Node, Disk>, now: map<Node, Disk>)
    requires i <= |ps|
  {
    forall j :: 0 <= j < i ==>
      ps[j].node in was && ps[j].node in now && BackedUp(was[ps[j].node], now[ps[j].node], ps[j].t, task)
  }

  /** The backups hold the texts a target starts from, up to a final newline. */
  predicate HoldsStart(d: Disk, t: Target, task: string) {
    && Backup(PRIMARY, task) in d && Ended(d[Backup(PRIMARY, task)]) == Ended(t.primaryText)
    && (t.secondaryExists ==>
          && Backup(t.secondaryPath, task) in d
          && Ended(d[Backup(t.secondaryPath, task)]) == Ended(t.secondaryText))
  }

  predicate AllHoldStart(ps: seq<Planned>, disks: map<Node, Disk>, task: string) {
    forall i :: 0 <= i < |ps| ==> ps[i].node in disks && HoldsStart(disks[ps[i].node], ps[i].t, task)
  }

  lemma BackupNames(path: string, task: string)
    ensures Backup(path, task) != PRIMARY && Backup(path, task) != path
    ensures path != PRIMARY ==> Backup(path, task) != Backup(PRIMARY, task)
  {
    var b := Backup(path, task);
    assert |b| >= 8 && b[|b| - 1] == 'k' && PRIMARY[|PRIMARY| - 1] == 'o';
    if b == Backup(PRIMARY, task) {
      assert b[..|b| - |task| - 8] == path && Backup(PRIMARY, task)[..|b| - |task| - 8] == PRIMARY;
    }
  }

  /** Writing the two files leaves their backups. */
  lemma BackupsStay(was: Disk, mid: Disk, now: Disk, t: Target, task: string)
    requires BackedUp(was, mid, t, task) && Apart(t, task) && SameExcept(mid, now, {PRIMARY, t.secondaryPath})
    ensures BackedUp(was, now, t, task)
  {
    BackupNames(PRIMARY, task);
    BackupNames(t.secondaryPath, task);
  }

  lemma CopiedNext(ps: seq<Planned>, i: nat, task: string, was: map<Node, Disk>, mid: map<Node, Disk>,
                   now: map<Node, Disk>)
    requires i < |ps| && Distinct(ps) && Copied(ps, i, task, was, mid)
    requires ps[i].node in was && ps[i].node in mid && ps[i].node in now && now == mid[ps[i].node := now[ps[i].node]]
    ensures Copied(ps, i, task, was, now)
    ensures BackedUp(was[ps[i].node], now[ps[i].node], ps[i].t, task) ==> Copied(ps, i + 1, task, was, now)
  {
    assert forall j :: 0 <= j < |ps| && j != i ==> ps[j].node != ps[i].node;
  }

  /** In planned nodes only the two files change. */
  ghost predicate OnlyFiles(ps: seq<Planned>, was: map<Node, Disk>, now: map<Node, Disk>) {
    forall i :: 0 <= i < |ps| && ps[i].node in was && ps[i].node in now ==>
      SameExcept(was[ps[i].node], now[ps[i].node], {PRIMARY, ps[i].t.secondaryPath})
  }

  lemma OnlyFilesNext(ps: seq<Planned>, i: nat, was: map<Node, Disk>, mid: map<Node, Disk>, now: map<Node, Disk>)
    requires i < |ps| && Distinct(ps) && OnlyFiles(ps, was, mid) && was.Keys == mid.Keys
    requires ps[i].node in mid && ps[i].node in now && now == mid[ps[i].node := now[ps[i].node]]
    requires SameExcept(mid[ps[i].node], now[ps[i].node], {PRIMARY, ps[i].t.secondaryPath})
    ensures OnlyFiles(ps, was, now)
  {
    assert forall j :: 0 <= j < |ps| && j != i ==> ps[j].node != ps[i].node;
  }

  lemma CopiesStay(ps: seq<Planned>, i: nat, task: string, was: map<Node, Disk>, mid: map<Node, Disk>,
                   now: map<Node, Disk>)
    requires i <= |ps| && Copied(ps, i, task, was, mid) && AllApart(ps, task) && OnlyFiles(ps, mid, now)
    requires mid.Keys == now.Keys
    ensures Copied(ps, i, task, was, now)
  {
    forall j | 0 <= j < i
      ensures BackedUp(was[ps[j].node], now[ps[j].node], ps[j].t, task)
    {
      BackupsStay(was[ps[j].node], mid[ps[j].node], now[ps[j].node], ps[j].t, task);
    }
  }

  lemma CopyOfStart(was: Disk, now: Disk, t: Target, task: string)
    requires AtStart(was, t) && BackedUp(was, now, t, task)
    ensures HoldsStart(now, t, task)
  {
  }

  predicate Distinct(ps: seq<Planned>) {
    forall i, j :: 0 <= i < j < |ps| ==> ps[i].node != ps[j].node
  }

  predicate AllClean(ps: seq<Planned>) {
    forall i :: 0 <= i < |ps| ==> Clean(ps[i].t)
  }

  predicate AllIn(ps: seq<Planned>, disks: map<Node, Disk>) {
    forall i :: 0 <= i < |ps| ==> ps[i].node in disks && Coherent(ps[i].t)
  }

  /** Nodes outside the plan do not change. */
  ghost predicate OthersUntouched(ps: seq<Planned>, was: map<Node, Disk>, now: map<Node, Disk>) {
    && was.Keys == now.Keys
    && forall n :: n in was && (forall i :: 0 <= i < |ps| ==> ps[i].node != n) ==> now[n] == was[n]
  }

  /** In planned nodes only the files of their plan change. */
  ghost predicate FilesKept(ps: seq<Planned>, task: string, was: map<Node, Disk>, now: map<Node, Disk>) {
    forall i :: 0 <= i < |ps| && ps[i].node in was && ps[i].node in now ==>
      SameExcept(was[ps[i].node], now[ps[i].node], Touched(ps[i].t, task))
  }

  datatype PhaseResult =
    | AllWritten
    | WriteFailed(at: nat, restored: bool)
    | Canceled(at: nat)

  /** How a rotation ends. `Reached`: every password write succeeded. */
  datatype Outcome =
    | Refused
    | NormalizationFailed(restored: bool)
    | NormalizationCanceled(at: nat)
    | NormalizationNotLoaded(done: nat, recovered: bool)
    | PasswordFailed(restored: bool)
    | PasswordCanceled(at: nat)
    | Reached(saved: bool, verified: bool)
  {
    /** The password phase began. */
    predicate InPassword() {
      PasswordFailed? || PasswordCanceled? || Reached?
    }
  }

  /** Both files hold the planned texts, up to a final newline. */
  predicate AtStart(d: Disk, t: Target) {
    && PRIMARY in d && Ended(d[PRIMARY]) == Ended(t.primaryText)
    && (t.secondaryPath in d <==> t.secondaryExists)
    && (t.secondaryExists ==> Ended(d[t.secondaryPath]) == Ended(t.secondaryText))
  }

  predicate AllAtStart(ps: seq<Planned>, disks: map<Node, Disk>) {
    forall i :: 0 <= i < |ps| ==> ps[i].node in disks && AtStart(disks[ps[i].node], ps[i].t)
  }

  predicate AllWrittenIn(ps: seq<Planned>, disks: map<Node, Disk>) {
    forall i :: 0 <= i < |ps| ==> ps[i].node in disks && IsWritten(disks[ps[i].node], ps[i].t)
  }

  /** The first `at` nodes are written, the others are at their start. */
  predicate SplitAt(ps: seq<Planned>, at: nat, disks: map<Node, Disk>) {
    && at < |ps|
    && (forall i :: 0 <= i < at ==> ps[i].node in disks && IsWritten(disks[ps[i].node], ps[i].t))
    && (forall i :: at <= i < |ps| ==> ps[i].node in disks && AtStart(disks[ps[i].node], ps[i].t))
  }

  /** `p` with another text to write to the secondary file. */
  predicate Rewrites(p: Planned, q: Planned) {
    q == p.(t := p.t.(newSecondaryText := q.t.newSecondaryText))
  }

  /** `normal` holds exactly the plans that need normalisation, in order: the `k`-th one
      rewrites plan `idx[k]`. */
  predicate NormalOf(plans: seq<Planned>, normal: seq<Planned>, idx: seq<nat>) {
    && |idx| == |normal|
    && (forall k, l :: 0 <= k < l < |idx| ==> idx[k] < idx[l])
    && (forall k :: 0 <= k < |idx| ==>
          idx[k] < |plans| && plans[idx[k]].t.needsNormalization && Rewrites(plans[idx[k]], normal[k]))
    && (forall i :: 0 <= i < |plans| && plans[i].t.needsNormalization ==> i in idx)
  }

  /** A password target starts from what the normalisation wrote, or from the plan itself. */
  predicate TargetsOf(plans: seq<Planned>, normal: seq<Planned>, idx: seq<nat>, targets: seq<Planned>)
    requires NormalOf(plans, normal, idx)
  {
    && |targets| == |plans|
    && (forall i :: 0 <= i < |plans| ==>
          targets[i].node == plans[i].node && targets[i].t.secondaryPath == plans[i].t.secondaryPath)
    && (forall i :: 0 <= i < |plans| && !plans[i].t.needsNormalization ==> Rewrites(plans[i], targets[i]))
    && (forall k :: 0 <= k < |idx| ==>
          && targets[idx[k]].t.secondaryExists
          && targets[idx[k]].t.primaryText == normal[k].t.newPrimaryText
          && targets[idx[k]].t.secondaryText == normal[k].t.newSecondaryText)
  }

  /** What each outcome says about the files of every planned node. */
  ghost predicate Explains(outcome: Outcome, plans: seq<Planned>, normal: seq<Planned>, targets: seq<Planned>,
                           was: map<Node, Disk>, now: map<Node, Disk>)
    requires forall i :: 0 <= i < |plans| ==> plans[i].node in was && plans[i].node in now
    requires forall k :: 0 <= k < |normal| ==> normal[k].node in was && normal[k].node in now
    requires forall i :: 0 <= i < |targets| ==> targets[i].node in was && targets[i].node in now
  {
    match outcome
    case Refused => now == was
    case NormalizationFailed(restored) =>
      restored ==> AllAtStart(plans, now)
    case NormalizationCanceled(at) =>
      && at < |normal|
      && (forall k :: 0 <= k < at ==> IsWritten(now[normal[k].node], normal[k].t))
      && (forall k :: at <= k < |normal| ==> now[normal[k].node] == was[normal[k].node])
    case NormalizationNotLoaded(done, recovered) =>
      && done < |normal|
      && (recovered ==> forall k :: 0 <= k <= done ==> IsRestored(now[normal[k].node], normal[k].t))
      && (forall k :: done < k < |normal| ==> IsWritten(now[normal[k].node], normal[k].t))
    case _ => PasswordExplained(outcome, targets, now)
  }

  lemma PasswordExplains(outcome: Outcome, plans: seq<Planned>, normal: seq<Planned>, targets: seq<Planned>,
                         was: map<Node, Disk>, now: map<Node, Disk>)
    requires forall i :: 0 <= i < |plans| ==> plans[i].node in was && plans[i].node in now
    requires forall k :: 0 <= k < |normal| ==> normal[k].node in was && normal[k].node in now
    requires forall i :: 0 <= i < |targets| ==> targets[i].node in was && targets[i].node in now
    requires outcome.InPassword() && PasswordExplained(outcome, targets, now)
    ensures Explains(outcome, plans, normal, targets, was, now)
  {
  }

  lemma ReachedExplains(outcome: Outcome, plans: seq<Planned>, normal: seq<Planned>, targets: seq<Planned>,
                        was: map<Node, Disk>, now: map<Node, Disk>)
    requires forall i :: 0 <= i < |plans| ==> plans[i].node in was && plans[i].node in now
    requires forall k :: 0 <= k < |normal| ==> normal[k].node in was && normal[k].node in now
    requires forall i :: 0 <= i < |targets| ==> targets[i].node in was && targets[i].node in now
    requires outcome.Reached? && Explains(outcome, plans, normal, targets, was, now)
    ensures AllWrittenIn(targets, now)
  {
  }

  predicate PasswordExplained(outcome: Outcome, targets: seq<Planned>, now: map<Node, Disk>)
    requires outcome.InPassword()
  {
    match outcome
    case PasswordFailed(restored) => restored ==> AllAtStart(targets, now)
    case PasswordCanceled(at) => SplitAt(targets, at, now)
    case Reached(_, _) => AllWrittenIn(targets, now)
  }

  /** A restart of a node's service, and whether the node came back healthy. */
  datatype Restart = Restart(node: Node, ok: bool)

  /** All of `ps` restarted, in order, and came back. */
  function Restarted(ps: seq<Planned>): seq<Restart> {
    seq(|ps|, k requires 0 <= k < |ps| => Restart(ps[k].node, true))
  }

  /** The nodes `i` to `count` restarted, last one first, and came back. */
  function RestartedBack(ps: seq<Planned>, count: nat, i: nat): seq<Restart>
    requires i <= count <= |ps|
  {
    seq(count - i, k requires 0 <= k < count - i => Restart(ps[count - 1 - k].node, true))
  }

  class Fleet {
    var disks: map<Node, Disk>
    /** The root password the manager stores for the cluster. */
    var stored: string
    /** Every restart of a node's service there was, every attempt to save a password, and
        every restart of the whole cluster. */
    ghost var restarts: seq<Restart>
    ghost var saves: seq<bool>
    ghost var reloads: seq<bool>

    constructor (disks: map<Node, Disk>, stored: string)
      ensures this.disks == disks && this.stored == stored
    {
      this.disks := disks;
      this.stored := stored;
    }

    // ----- Remote steps

    /** `writeRemoteFile`: a here-document piped to `tee`. */
    method WriteRemoteFile(n: Node, path: string, body: string) returns (ok: bool)
      requires n in disks
      modifies this`disks
      ensures n in disks && disks == old(disks)[n := disks[n]]
      ensures MarkerFree(body) ==> SameExcept(old(disks)[n], disks[n], {path})
      ensures MarkerFree(body) && ok ==> path in disks[n] && disks[n][path] == Ended(body)
    {
      ok := *;
      var d := disks[n];
      if MarkerFree(body) {
        if ok {
          HereDocStoresBody(body);
          d := d[path := HereDoc(body)];
        } else if * {
          var partial: string := *;
          d := d[path := partial];
        }
      } else {
        // What follows the marker line is run by the shell.
        d := *;
      }
      disks := disks[n := d];
    }

    /** `rm -f`. */
    method RemoveRemoteFile(n: Node, path: string) returns (ok: bool)
      requires n in disks
      modifies this`disks
      ensures n in disks && disks == old(disks)[n := disks[n]]
      ensures SameExcept(old(disks)[n], disks[n], {path})
      ensures ok ==> path !in disks[n]
    {
      ok := *;
      var removed: bool := *;
      if ok || removed {
        disks := disks[n := disks[n] - {path}];
      }
    }

    /** `cp`: fails on a missing source. */
    method BackupRemoteFile(n: Node, src: string, dst: string) returns (ok: bool)
      requires n in disks
      modifies this`disks
      ensures n in disks && disks == old(disks)[n := disks[n]]
      ensures SameExcept(old(disks)[n], disks[n], {dst})
      ensures ok ==> src in old(disks)[n] && dst in disks[n] && disks[n][dst] == old(disks)[n][src]
    {
      if src !in disks[n] {
        return false;
      }
      ok := *;
      var copied := disks[n][src];
      var created := true;
      if !ok {
        copied, created := *, *;
      }
      if created {
        disks := disks[n := disks[n][dst := copied]];
      }
    }

    /** A step that changes no file: `chown`/`chmod`, `systemctl restart`, a health poll. */
    method OtherStep() returns (ok: bool) {
      ok := *;
    }

    /** `systemctl restart`, then the health poll. */
    method RestartNode(n: Node) returns (ok: bool)
      modifies this`restarts
      ensures restarts == old(restarts) + [Restart(n, ok)]
    {
      ok := OtherStep();
      if ok {
        ok := OtherStep();
      }
      restarts := restarts + [Restart(n, ok)];
    }

    /** One attempt to store a new password for the cluster. */
    method SavePassword(password: string) returns (ok: bool)
      modifies this`stored, this`saves
      ensures stored == if ok then password else old(stored)
      ensures saves == old(saves) + [ok]
    {
      ok := OtherStep();
      if ok {
        stored := password;
      }
      saves := saves + [ok];
    }

    /** `ServiceRestart` of the admin API. */
    method ServiceRestart() returns (ok: bool)
      modifies this`reloads
      ensures reloads == old(reloads) + [ok]
    {
      ok := OtherStep();
      reloads := reloads + [ok];
    }

    // ----- One node

    /** The copies `applyRotateRootCredsTarget` takes first. */
    method BackUpFiles(p: Planned, task: string) returns (ok: bool)
      requires p.node in disks
      modifies this`disks
      ensures p.node in disks && disks == old(disks)[p.node := disks[p.node]]
      ensures SameExcept(old(disks)[p.node], disks[p.node],
                         {Backup(PRIMARY, task), Backup(p.t.secondaryPath, task)})
      ensures ok && Apart(p.t, task) ==> BackedUp(old(disks)[p.node], disks[p.node], p.t, task)
    {
      BackupNames(PRIMARY, task);
      BackupNames(p.t.secondaryPath, task);
      ok := BackupRemoteFile(p.node, PRIMARY, Backup(PRIMARY, task));
      if ok && p.t.secondaryExists {
        ok := BackupRemoteFile(p.node, p.t.secondaryPath, Backup(p.t.secondaryPath, task));
      }
    }

    /** The secondary file, its ownership, then the primary file. */
    method WriteFiles(p: Planned) returns (ok: bool)
      requires p.node in disks
      modifies this`disks
      ensures p.node in disks && disks == old(disks)[p.node := disks[p.node]]
      ensures Clean(p.t) ==> SameExcept(old(disks)[p.node], disks[p.node], {PRIMARY, p.t.secondaryPath})
      ensures Clean(p.t) && ok ==> IsWritten(disks[p.node], p.t)
    {
      ok := WriteRemoteFile(p.node, p.t.secondaryPath, p.t.newSecondaryText);
      if !ok { return; }
      ok := OtherStep();
      if !ok { return; }
      ok := WriteRemoteFile(p.node, PRIMARY, p.t.newPrimaryText);
    }

    /** `applyRotateRootCredsTarget`. */
    method Apply(p: Planned, task: string) returns (ok: bool)
      requires p.node in disks
      modifies this`disks
      ensures p.node in disks && disks == old(disks)[p.node := disks[p.node]]
      ensures Clean(p.t) ==> SameExcept(old(disks)[p.node], disks[p.node], Touched(p.t, task))
      ensures Clean(p.t) && ok ==> IsWritten(disks[p.node], p.t)
      ensures Clean(p.t) && Apart(p.t, task) ==>
                || BackedUp(old(disks)[p.node], disks[p.node], p.t, task)
                || (!ok && SameExcept(old(disks)[p.node], disks[p.node],
                                      {Backup(PRIMARY, task), Backup(p.t.secondaryPath, task)}))
    {
      ok := BackUpFiles(p, task);
      if ok {
        ghost var copied := disks[p.node];
        ok := WriteFiles(p);
        if Clean(p.t) && Apart(p.t, task) {
          BackupsStay(old(disks)[p.node], copied, disks[p.node], p.t, task);
        }
      }
    }

    /** `restoreRotateRootCredTarget`. */
    method Restore(p: Planned) returns (ok: bool)
      requires p.node in disks && Coherent(p.t)
      modifies this`disks
      ensures p.node in disks && disks == old(disks)[p.node := disks[p.node]]
      ensures Clean(p.t) ==>
                SameExcept(old(disks)[p.node], disks[p.node], {PRIMARY, p.t.secondaryPath})
      ensures Clean(p.t) && ok ==> IsRestored(disks[p.node], p.t)
    {
      ok := WriteRemoteFile(p.node, PRIMARY, p.t.primaryText);
      if !ok { return; }
      if p.t.secondaryExists {
        ok := WriteRemoteFile(p.node, p.t.secondaryPath, p.t.secondaryText);
        if !ok { return; }
        ok := OtherStep();
      } else {
        ok := RemoveRemoteFile(p.node, p.t.secondaryPath);
      }
    }

    // ----- All nodes

    /** `rollbackRotateRootCredTargets` on the first `count` plans: a failed restore does
        not stop the others. */
    method Rollback(ps: seq<Planned>, count: nat, task: string) returns (restored: bool)
      requires count <= |ps| && Distinct(ps) && AllIn(ps, disks)
      modifies this`disks
      ensures OthersUntouched(ps, old(disks), disks)
      ensures AllClean(ps) ==> FilesKept(ps, task, old(disks), disks) && OnlyFiles(ps, old(disks), disks)
      ensures AllClean(ps) && restored ==>
                forall i :: 0 <= i < count ==> IsRestored(disks[ps[i].node], ps[i].t)
      ensures forall i :: count <= i < |ps| ==> disks[ps[i].node] == old(disks)[ps[i].node]
    {
      restored := true;
      for i := 0 to count
        invariant OthersUntouched(ps, old(disks), disks)
        invariant AllClean(ps) ==> FilesKept(ps, task, old(disks), disks) && OnlyFiles(ps, old(disks), disks)
        invariant AllClean(ps) && restored ==>
                    forall j :: 0 <= j < i ==> IsRestored(disks[ps[j].node], ps[j].t)
        invariant forall j :: i <= j < |ps| ==> disks[ps[j].node] == old(disks)[ps[j].node]
      {
        ghost var was := disks;
        var ok := Restore(ps[i]);
        restored := restored && ok;
        if AllClean(ps) {
          RestoreWithinPlan(was[ps[i].node], disks[ps[i].node], ps[i].t, task);
          OnlyFilesNext(ps, i, old(disks), was, disks);
        }
        StepFrame(ps, i, task, old(disks), was, disks);
      }
    }

    /** The rollback of the nodes up to the one whose write failed. */
    method GiveUp(ps: seq<Planned>, i: nat, task: string, ghost was: map<Node, Disk>) returns (restored: bool)
      requires i < |ps| && Distinct(ps) && AllIn(ps, disks) && was.Keys == disks.Keys
      requires OthersUntouched(ps, was, disks)
      modifies this`disks
      ensures OthersUntouched(ps, was, disks)
      ensures AllClean(ps) && FilesKept(ps, task, was, old(disks)) ==> FilesKept(ps, task, was, disks)
      ensures AllClean(ps) && restored ==> forall j :: 0 <= j <= i ==> IsRestored(disks[ps[j].node], ps[j].t)
      ensures forall j :: i < j < |ps| ==> disks[ps[j].node] == old(disks)[ps[j].node]
      ensures AllClean(ps) && AllApart(ps, task) && Copied(ps, i, task, was, old(disks)) ==>
                Copied(ps, i, task, was, disks)
    {
      restored := Rollback(ps, i + 1, task);
      if AllClean(ps) && FilesKept(ps, task, was, old(disks)) {
        FilesKeptTrans(ps, task, was, old(disks), disks);
      }
      if AllClean(ps) && AllApart(ps, task) && Copied(ps, i, task, was, old(disks)) {
        CopiesStay(ps, i, task, was, old(disks), disks);
      }
    }

    /** One write phase (normalisation or password): the loop over the planned nodes. */
    method WritePhase(ps: seq<Planned>, task: string) returns (r: PhaseResult)
      requires Distinct(ps) && AllIn(ps, disks)
      modifies this`disks
      ensures OthersUntouched(ps, old(disks), disks)
      ensures AllClean(ps) ==> FilesKept(ps, task, old(disks), disks)
      ensures AllClean(ps) && r.AllWritten? ==>
                forall i :: 0 <= i < |ps| ==> IsWritten(disks[ps[i].node], ps[i].t)
      ensures r.WriteFailed? ==>
                && r.at < |ps|
                && (forall i :: r.at < i < |ps| ==> disks[ps[i].node] == old(disks)[ps[i].node])
                && (AllClean(ps) && r.restored ==>
                      forall i :: 0 <= i <= r.at ==> IsRestored(disks[ps[i].node], ps[i].t))
      ensures r.Canceled? ==>
                && r.at < |ps|
                && (forall i :: r.at <= i < |ps| ==> disks[ps[i].node] == old(disks)[ps[i].node])
                && (AllClean(ps) ==> forall i :: 0 <= i < r.at ==> IsWritten(disks[ps[i].node], ps[i].t))
      ensures AllClean(ps) && AllApart(ps, task) ==>
                Copied(ps, if r.AllWritten? then |ps| else r.at, task, old(disks), disks)
    {
      for i := 0 to |ps|
        invariant Wrote(ps, i, task, old(disks), disks)
        invariant AllClean(ps) && AllApart(ps, task) ==> Copied(ps, i, task, old(disks), disks)
      {
        var canceled: bool := *;
        if canceled {
          return Canceled(i);
        }
        ghost var was := disks;
        var ok := Apply(ps[i], task);
        if AllClean(ps) && AllApart(ps, task) {
          CopiedNext(ps, i, task, old(disks), was, disks);
        }
        if ok {
          WroteNext(ps, i, task, old(disks), was, disks);
        } else {
          StepFrame(ps, i, task, old(disks), was, disks);
          var restored := GiveUp(ps, i, task, old(disks));
          return WriteFailed(i, restored);
        }
      }
      return AllWritten;
    }

    /** `rollingRestartTargets`: how many nodes, in order, restarted and became healthy. It
        stops at the first one that does not, or when it is canceled. */
    method RollingRestart(ps: seq<Planned>) returns (done: nat, canceled: bool)
      modifies this`restarts
      ensures done <= |ps| && (canceled ==> done < |ps|)
      ensures restarts == old(restarts) + Restarted(ps[..done])
                          + if done < |ps| && !canceled then [Restart(ps[done].node, false)] else []
    {
      done := 0;
      while done < |ps|
        invariant done <= |ps| && restarts == old(restarts) + Restarted(ps[..done])
      {
        canceled := *;
        if canceled { return; }
        var ok := RestartNode(ps[done].node);
        if !ok { return; }
        RestartedNext(ps, done);
        done := done + 1;
      }
      canceled := false;
    }

    /** `rollbackRotateRootCredTargetsWithRestart` on the first `count` plans: last one
        first, stopping at the first failure. */
    method RollbackWithRestart(ps: seq<Planned>, count: nat, task: string) returns (recovered: bool)
      requires count <= |ps| && Distinct(ps) && AllIn(ps, disks)
      modifies this`disks, this`restarts
      ensures recovered ==> restarts == old(restarts) + RestartedBack(ps, count, 0)
      ensures OthersUntouched(ps, old(disks), disks)
      ensures AllClean(ps) ==> FilesKept(ps, task, old(disks), disks)
      ensures AllClean(ps) && recovered ==>
                forall i :: 0 <= i < count ==> IsRestored(disks[ps[i].node], ps[i].t)
      ensures forall i :: count <= i < |ps| ==> disks[ps[i].node] == old(disks)[ps[i].node]
    {
      var i := count;
      while i > 0
        invariant 0 <= i <= count && Undone(ps, i, count, task, old(disks), disks)
        invariant restarts == old(restarts) + RestartedBack(ps, count, i)
      {
        var recovering := RecoverNode(ps, i - 1, count, task, old(disks));
        if !recovering {
          return false;
        }
        i := i - 1;
        BackNext(old(restarts), ps, count, i, restarts);
      }
      return true;
    }

    /** One node of it: both files back, and a restart that loads them. */
    method RecoverNode(ps: seq<Planned>, i: nat, ghost count: nat, task: string, ghost was: map<Node, Disk>)
      returns (ok: bool)
      requires i < count <= |ps| && Distinct(ps) && Undone(ps, i + 1, count, task, was, disks)
      requires ps[i].node in disks && Coherent(ps[i].t)
      modifies this`disks, this`restarts
      ensures Undone(ps, i + 1, count, task, was, disks)
      ensures ok ==> Undone(ps, i, count, task, was, disks)
      ensures ok ==> restarts == old(restarts) + [Restart(ps[i].node, true)]
    {
      ok := Restore(ps[i]);
      UndoneNext(ps, i, count, task, was, old(disks), disks, ok);
      if ok {
        ok := RestartNode(ps[i].node);
      }
    }

    /** The normalisation phase and the restart that loads it. */
    method NormalizePhase(ghost plans: seq<Planned>, normal: seq<Planned>, ghost idx: seq<nat>,
                          ghost targets: seq<Planned>, task: string)
      returns (stopped: bool, outcome: Outcome)
      requires Distinct(plans) && Distinct(normal) && AllIn(normal, disks) && AllAtStart(plans, disks)
      requires forall k :: 0 <= k < |normal| ==> normal[k].t.secondaryPath != PRIMARY
      requires NormalOf(plans, normal, idx) && TargetsOf(plans, normal, idx, targets)
      modifies this`disks, this`restarts
      ensures !stopped ==> restarts == old(restarts) + Restarted(normal)
      ensures OthersUntouched(normal, old(disks), disks)
      ensures stopped ==>
                outcome.NormalizationFailed? || outcome.NormalizationCanceled? || outcome.NormalizationNotLoaded?
      ensures AllClean(normal) ==> FilesKept(normal, task, old(disks), disks)
      ensures AllClean(normal) && stopped ==> Explains(outcome, plans, normal, targets, old(disks), disks)
      ensures AllClean(normal) && !stopped ==> AllAtStart(targets, disks)
    {
      stopped, outcome := false, Refused;
      var r := AllWritten;
      if |normal| > 0 {
        r := WritePhase(normal, task);
      }
      match r {
        case WriteFailed(at, restored) =>
          if AllClean(normal) && restored {
            BackAtStart(plans, normal, idx, at, old(disks), disks);
          }
          return true, NormalizationFailed(restored);
        case Canceled(at) => return true, NormalizationCanceled(at);
        case AllWritten =>
      }
      stopped, outcome := LoadNormalized(plans, normal, idx, targets, task, old(disks));
      if AllClean(normal) && !stopped {
        StartOfPassword(plans, normal, idx, targets, old(disks), disks);
      }
    }

    /** The restart that loads the normalised files, and its recovery. */
    method LoadNormalized(ghost plans: seq<Planned>, normal: seq<Planned>, ghost idx: seq<nat>,
                          ghost targets: seq<Planned>, task: string, ghost was: map<Node, Disk>)
      returns (stopped: bool, outcome: Outcome)
      requires Distinct(normal) && AllIn(normal, was) && AllIn(normal, disks)
      requires NormalOf(plans, normal, idx) && TargetsOf(plans, normal, idx, targets)
      requires Wrote(normal, |normal|, task, was, disks)
      requires forall i :: 0 <= i < |plans| ==> plans[i].node in was
      modifies this`disks, this`restarts
      ensures OthersUntouched(normal, was, disks)
      ensures AllClean(normal) ==> FilesKept(normal, task, was, disks)
      ensures stopped ==> outcome.NormalizationNotLoaded?
      ensures AllClean(normal) && stopped ==> Explains(outcome, plans, normal, targets, was, disks)
      ensures !stopped ==> disks == old(disks) && restarts == old(restarts) + Restarted(normal)
    {
      var done, canceled := RollingRestart(normal);
      stopped, outcome := done < |normal|, Refused;
      if stopped {
        var recovered := RollbackWithRestart(normal, done + 1, task);
        outcome := NormalizationNotLoaded(done, recovered);
        if AllClean(normal) {
          FilesKeptTrans(normal, task, was, old(disks), disks);
        }
      } else {
        assert normal[..done] == normal;
      }
    }

    /** The password phase. `clean` says that no text ends its here-document early. */
    method PasswordPhase(targets: seq<Planned>, ghost clean: bool, task: string) returns (outcome: Outcome)
      requires Distinct(targets) && AllIn(targets, disks)
      requires clean ==> AllClean(targets) && AllAtStart(targets, disks)
      modifies this`disks
      ensures OthersUntouched(targets, old(disks), disks)
      ensures outcome.PasswordFailed? || outcome.PasswordCanceled? || outcome == Reached(false, false)
      ensures clean ==> FilesKept(targets, task, old(disks), disks)
      ensures clean ==> PasswordExplained(outcome, targets, disks)
      ensures clean && AllApart(targets, task) && outcome.Reached? ==> AllHoldStart(targets, disks, task)
    {
      var r := WritePhase(targets, task);
      match r {
        case WriteFailed(at, restored) =>
          outcome := PasswordFailed(restored);
          if clean && restored {
            forall i | 0 <= i <= at
              ensures AtStart(disks[targets[i].node], targets[i].t)
            {
              RestoredIsStart(disks[targets[i].node], targets[i].t);
            }
          }
        case Canceled(at) => outcome := PasswordCanceled(at);
        case AllWritten =>
          outcome := Reached(false, false);
          if clean && AllApart(targets, task) {
            CopiesOfStart(targets, task, old(disks), disks);
          }
      }
    }

    /** The two write phases, in order. */
    method WriteAll(ghost plans: seq<Planned>, normal: seq<Planned>, ghost idx: seq<nat>, targets: seq<Planned>,
                    ghost clean: bool, task: string)
      returns (outcome: Outcome)
      requires Distinct(plans) && Distinct(normal) && Distinct(targets)
      requires AllIn(plans, disks) && AllAtStart(plans, disks)
      requires AllIn(normal, disks) && NormalOf(plans, normal, idx)
      requires forall k :: 0 <= k < |normal| ==> normal[k].t.secondaryPath != PRIMARY
      requires AllIn(targets, disks) && TargetsOf(plans, normal, idx, targets)
      requires clean ==> AllClean(normal) && AllClean(targets)
      modifies this`disks, this`restarts
      ensures outcome.InPassword() ==> restarts == old(restarts) + Restarted(normal)
      ensures OthersUntouched(plans, old(disks), disks)
      ensures !outcome.Refused? && (outcome.Reached? ==> outcome == Reached(false, false))
      ensures clean ==> FilesKept(plans, task, old(disks), disks)
      ensures clean ==> Explains(outcome, plans, normal, targets, old(disks), disks)
      ensures clean && AllApart(targets, task) && outcome.Reached? ==> AllHoldStart(targets, disks, task)
    {
      var stopped, early := NormalizePhase(plans, normal, idx, targets, task);
      if stopped {
        NormalFrame(plans, normal, idx, task, old(disks), disks);
        return early;
      }
      ghost var mid := disks;
      outcome := PasswordPhase(targets, clean, task);
      BothFrames(plans, normal, idx, targets, task, old(disks), mid, disks);
      if clean {
        PasswordExplains(outcome, plans, normal, targets, old(disks), disks);
      }
    }
  }

  lemma RestoreWithinPlan(a: Disk, b: Disk, t: Target, task: string)
    requires SameExcept(a, b, {PRIMARY, t.secondaryPath})
    ensures SameExcept(a, b, Touched(t, task))
  {
  }

  lemma CopiesOfStart(ps: seq<Planned>, task: string, was: map<Node, Disk>, now: map<Node, Disk>)
    requires AllAtStart(ps, was) && Copied(ps, |ps|, task, was, now)
    ensures AllHoldStart(ps, now, task)
  {
    forall i | 0 <= i < |ps|
      ensures HoldsStart(now[ps[i].node], ps[i].t, task)
    {
      CopyOfStart(was[ps[i].node], now[ps[i].node], ps[i].t, task);
    }
  }

  lemma EndedTwice(body: string)
    ensures Ended(Ended(body)) == Ended(body)
  {
    if !HasSuffix(body, "\n") {
      var e := body + "\n";
      assert e[|e| - 1..] == "\n";
    }
  }

  lemma RestoredIsStart(d: Disk, t: Target)
    requires IsRestored(d, t)
    ensures AtStart(d, t)
  {
    EndedTwice(t.primaryText);
    EndedTwice(t.secondaryText);
  }

  /** Texts just written are the starting texts of a target planned from them. */
  lemma WrittenIsStart(d: Disk, written: Target, start: Target)
    requires IsWritten(d, written) && start.secondaryExists
    requires start.secondaryPath == written.secondaryPath != PRIMARY
    requires start.primaryText == written.newPrimaryText && start.secondaryText == written.newSecondaryText
    ensures AtStart(d, start)
  {
    EndedTwice(written.newPrimaryText);
    EndedTwice(written.newSecondaryText);
  }

  lemma RestartedNext(ps: seq<Planned>, k: nat)
    requires k < |ps|
    ensures Restarted(ps[..k + 1]) == Restarted(ps[..k]) + [Restart(ps[k].node, true)]
  {
    assert ps[..k + 1][..k] == ps[..k];
  }

  /** A phase through its first `i` nodes. */
  ghost predicate Wrote(ps: seq<Planned>, i: nat, task: string, was: map<Node, Disk>, now: map<Node, Disk>)
    requires i <= |ps|
  {
    && OthersUntouched(ps, was, now)
    && (AllClean(ps) ==>
          && FilesKept(ps, task, was, now)
          && forall j :: 0 <= j < i ==> ps[j].node in now && IsWritten(now[ps[j].node], ps[j].t))
    && (forall j :: i <= j < |ps| ==> ps[j].node in was && ps[j].node in now && now[ps[j].node] == was[ps[j].node])
  }

  lemma WroteNext(ps: seq<Planned>, i: nat, task: string, was: map<Node, Disk>, mid: map<Node, Disk>,
                  now: map<Node, Disk>)
    requires i < |ps| && Distinct(ps) && Wrote(ps, i, task, was, mid)
    requires ps[i].node in now && now == mid[ps[i].node := now[ps[i].node]]
    requires Clean(ps[i].t) ==>
               && SameExcept(mid[ps[i].node], now[ps[i].node], Touched(ps[i].t, task))
               && IsWritten(now[ps[i].node], ps[i].t)
    ensures Wrote(ps, i + 1, task, was, now)
  {
    StepFrame(ps, i, task, was, mid, now);
  }

  lemma BackNext(before: seq<Restart>, ps: seq<Planned>, count: nat, i: nat, after: seq<Restart>)
    requires i < count <= |ps|
    requires after == before + RestartedBack(ps, count, i + 1) + [Restart(ps[i].node, true)]
    ensures after == before + RestartedBack(ps, count, i)
  {
    assert RestartedBack(ps, count, i + 1) + [Restart(ps[i].node, true)] == RestartedBack(ps, count, i);
    Assoc(before, RestartedBack(ps, count, i + 1), [Restart(ps[i].node, true)]);
  }

  /** A rollback of the first `count` nodes that went back to the `i`th. */
  ghost predicate Undone(ps: seq<Planned>, i: nat, count: nat, task: string, was: map<Node, Disk>,
                         now: map<Node, Disk>)
    requires i <= count <= |ps|
  {
    && OthersUntouched(ps, was, now)
    && (AllClean(ps) ==>
          && FilesKept(ps, task, was, now)
          && forall j :: i <= j < count ==> ps[j].node in now && IsRestored(now[ps[j].node], ps[j].t))
    && (forall j :: 0 <= j < count ==> ps[j].node in now)
    && (forall j :: count <= j < |ps| ==> ps[j].node in was && ps[j].node in now && now[ps[j].node] == was[ps[j].node])
  }

  lemma UndoneNext(ps: seq<Planned>, i: nat, count: nat, task: string, was: map<Node, Disk>, mid: map<Node, Disk>,
                   now: map<Node, Disk>, ok: bool)
    requires i < count <= |ps| && Distinct(ps) && Undone(ps, i + 1, count, task, was, mid)
    requires ps[i].node in now && now == mid[ps[i].node := now[ps[i].node]]
    requires Clean(ps[i].t) ==> SameExcept(mid[ps[i].node], now[ps[i].node], {PRIMARY, ps[i].t.secondaryPath})
    requires Clean(ps[i].t) && ok ==> IsRestored(now[ps[i].node], ps[i].t)
    ensures Undone(ps, i + 1, count, task, was, now)
    ensures ok ==> Undone(ps, i, count, task, was, now)
  {
    if AllClean(ps) {
      RestoreWithinPlan(mid[ps[i].node], now[ps[i].node], ps[i].t, task);
    }
    StepFrame(ps, i, task, was, mid, now);
  }

  /** A step at one planned node, seen from the whole plan. */
  lemma StepFrame(ps: seq<Planned>, i: nat, task: string, was: map<Node, Disk>, mid: map<Node, Disk>,
                  now: map<Node, Disk>)
    requires i < |ps| && Distinct(ps)
    requires ps[i].node in mid && ps[i].node in now && now == mid[ps[i].node := now[ps[i].node]]
    ensures OthersUntouched(ps, was, mid) ==> OthersUntouched(ps, was, now)
    ensures FilesKept(ps, task, was, mid) && SameExcept(mid[ps[i].node], now[ps[i].node], Touched(ps[i].t, task)) ==>
              FilesKept(ps, task, was, now)
    ensures forall j :: 0 <= j < |ps| && j != i && ps[j].node in mid ==> now[ps[j].node] == mid[ps[j].node]
  {
    assert forall j :: 0 <= j < |ps| && j != i ==> ps[j].node != ps[i].node;
  }

  lemma FilesKeptTrans(ps: seq<Planned>, task: string, a: map<Node, Disk>, b: map<Node, Disk>, c: map<Node, Disk>)
    requires a.Keys == b.Keys == c.Keys
    requires FilesKept(ps, task, a, b) && FilesKept(ps, task, b, c)
    ensures FilesKept(ps, task, a, c)
  {
  }

  // ----- From one phase's list to the whole plan

  /** After a rollback of the first `at + 1` normalised nodes, every plan is at its start. */
  lemma BackAtStart(plans: seq<Planned>, normal: seq<Planned>, idx: seq<nat>, at: nat, was: map<Node, Disk>,
                    now: map<Node, Disk>)
    requires NormalOf(plans, normal, idx) && AllAtStart(plans, was) && Distinct(plans)
    requires AllIn(normal, was) && OthersUntouched(normal, was, now) && at < |normal|
    requires forall k :: 0 <= k <= at ==> normal[k].node in now && IsRestored(now[normal[k].node], normal[k].t)
    requires forall k :: at < k < |normal| ==> normal[k].node in now && now[normal[k].node] == was[normal[k].node]
    ensures AllAtStart(plans, now)
  {
    forall i | 0 <= i < |plans|
      ensures plans[i].node in now && AtStart(now[plans[i].node], plans[i].t)
    {
      PlanBackAtStart(plans, normal, idx, at, was, now, i);
    }
  }

  lemma PlanBackAtStart(plans: seq<Planned>, normal: seq<Planned>, idx: seq<nat>, at: nat, was: map<Node, Disk>,
                        now: map<Node, Disk>, i: nat)
    requires NormalOf(plans, normal, idx) && AllAtStart(plans, was) && Distinct(plans) && i < |plans|
    requires OthersUntouched(normal, was, now) && at < |normal|
    requires forall k :: 0 <= k <= at ==> normal[k].node in now && IsRestored(now[normal[k].node], normal[k].t)
    requires forall k :: at < k < |normal| ==> normal[k].node in now && now[normal[k].node] == was[normal[k].node]
    ensures plans[i].node in now && AtStart(now[plans[i].node], plans[i].t)
  {
    if plans[i].t.needsNormalization {
      var k :| 0 <= k < |idx| && idx[k] == i;
      if k <= at {
        RestoredIsStart(now[normal[k].node], normal[k].t);
      }
    } else {
      NotNormal(plans, normal, idx, i);
    }
  }

  lemma NotNormal(plans: seq<Planned>, normal: seq<Planned>, idx: seq<nat>, i: nat)
    requires NormalOf(plans, normal, idx) && Distinct(plans) && i < |plans| && !plans[i].t.needsNormalization
    ensures forall k :: 0 <= k < |normal| ==> normal[k].node != plans[i].node
  {
    forall k | 0 <= k < |normal|
      ensures normal[k].node != plans[i].node
    {
      assert idx[k] != i && normal[k].node == plans[idx[k]].node;
    }
  }

  /** When the normalisation is through, every target of the password phase is at its start. */
  lemma StartOfPassword(plans: seq<Planned>, normal: seq<Planned>, idx: seq<nat>, targets: seq<Planned>,
                        was: map<Node, Disk>, now: map<Node, Disk>)
    requires NormalOf(plans, normal, idx) && TargetsOf(plans, normal, idx, targets)
    requires AllAtStart(plans, was) && Distinct(plans)
    requires AllIn(normal, was) && OthersUntouched(normal, was, now)
    requires forall k :: 0 <= k < |normal| ==> normal[k].node in now && IsWritten(now[normal[k].node], normal[k].t)
    requires forall k :: 0 <= k < |normal| ==> normal[k].t.secondaryPath != PRIMARY
    ensures AllAtStart(targets, now)
  {
    forall i | 0 <= i < |targets|
      ensures targets[i].node in now && AtStart(now[targets[i].node], targets[i].t)
    {
      if plans[i].t.needsNormalization {
        var k :| 0 <= k < |idx| && idx[k] == i;
        WrittenIsStart(now[normal[k].node], normal[k].t, targets[i].t);
      } else {
        NotNormal(plans, normal, idx, i);
      }
    }
  }

  /** What the normalisation phase leaves alone, seen from the whole plan. */
  lemma NormalFrame(plans: seq<Planned>, normal: seq<Planned>, idx: seq<nat>, task: string, was: map<Node, Disk>,
                    now: map<Node, Disk>)
    requires NormalOf(plans, normal, idx) && Distinct(plans) && OthersUntouched(normal, was, now)
    ensures OthersUntouched(plans, was, now)
    ensures FilesKept(normal, task, was, now) ==> FilesKept(plans, task, was, now)
  {
    forall n | n in was && forall i :: 0 <= i < |plans| ==> plans[i].node != n
      ensures now[n] == was[n]
    {
      assert forall k :: 0 <= k < |normal| ==> normal[k].node != n;
    }
    if FilesKept(normal, task, was, now) {
      forall i | 0 <= i < |plans| && plans[i].node in was && plans[i].node in now
        ensures SameExcept(was[plans[i].node], now[plans[i].node], Touched(plans[i].t, task))
      {
        if plans[i].t.needsNormalization {
          var k :| 0 <= k < |idx| && idx[k] == i;
        } else {
          NotNormal(plans, normal, idx, i);
        }
      }
    }
  }

  lemma BothFrames(plans: seq<Planned>, normal: seq<Planned>, idx: seq<nat>, targets: seq<Planned>, task: string,
                   was: map<Node, Disk>, mid: map<Node, Disk>, now: map<Node, Disk>)
    requires NormalOf(plans, normal, idx) && TargetsOf(plans, normal, idx, targets) && Distinct(plans)
    requires OthersUntouched(normal, was, mid) && OthersUntouched(targets, mid, now)
    ensures OthersUntouched(plans, was, now)
    ensures FilesKept(normal, task, was, mid) && FilesKept(targets, task, mid, now) ==> FilesKept(plans, task, was, now)
  {
    NormalFrame(plans, normal, idx, task, was, mid);
    TargetsFrame(plans, normal, idx, targets, task, mid, now);
    if FilesKept(normal, task, was, mid) && FilesKept(targets, task, mid, now) {
      FilesKeptTrans(plans, task, was, mid, now);
    }
  }

  lemma TargetsFrame(plans: seq<Planned>, normal: seq<Planned>, idx: seq<nat>, targets: seq<Planned>, task: string,
                     was: map<Node, Disk>, now: map<Node, Disk>)
    requires NormalOf(plans, normal, idx) && TargetsOf(plans, normal, idx, targets)
    requires OthersUntouched(targets, was, now)
    ensures OthersUntouched(plans, was, now)
    ensures FilesKept(targets, task, was, now) ==> FilesKept(plans, task, was, now)
  {
    forall n | n in was && forall i :: 0 <= i < |plans| ==> plans[i].node != n
      ensures now[n] == was[n]
    {
      assert forall i :: 0 <= i < |targets| ==> targets[i].node == plans[i].node;
    }
    if FilesKept(targets, task, was, now) {
      forall i | 0 <= i < |plans| && plans[i].node in was && plans[i].node in now
        ensures SameExcept(was[plans[i].node], now[plans[i].node], Touched(plans[i].t, task))
      {
        assert Touched(targets[i].t, task) == Touched(plans[i].t, task);
      }
    }
  }
}
