/** The whole of rotate_root_creds (internal/operations/rotate_root_creds.go:44-367): which
    texts are planned for each node, and what the files mean when the run ends. */
module Rotation {
  import opened Text
  import opened EnvFile
  import opened Credentials
  import opened RotationFleet

  /** From 8 to 40 printable ASCII characters, none of them a space. */
  predicate ValidPassword(p: string) {
    8 <= |p| <= 40 && forall c :: c in p ==> '!' <= c <= '~'
  }

  method ValidateRootPassword(password: string) returns (ok: bool)
    ensures ok <==> 8 <= |password| <= 40 && forall i :: 0 <= i < |password| ==> 0x21 <= password[i] as int <= 0x7e
    ensures ok <==> ValidPassword(password)
  {
    if |password| < 8 || |password| > 40 {
      return false;
    }
    for n := 0 to |password|
      invariant forall i :: 0 <= i < n ==> 0x21 <= password[i] as int <= 0x7e
    {
      if password[n] as int < 0x21 || password[n] as int > 0x7e {
        assert password[n] in password;
        return false;
      }
    }
    return true;
  }

  /** No line of a node's primary or secondary env file ends a here-document early. */
  predicate CleanNode(d: Disk) {
    PRIMARY in d ==>
      && MarkerFree(d[PRIMARY])
      && var path := SecondaryPath(Parse(d[PRIMARY])); path in d ==> MarkerFree(d[path])
  }

  predicate CleanFleet(plans: seq<Planned>, disks: map<Node, Disk>) {
    forall i :: 0 <= i < |plans| ==> plans[i].node in disks && CleanNode(disks[plans[i].node])
  }

  ghost predicate IsPlan(p: Planned, disks: map<Node, Disk>, adminUser: string) {
    p.node in disks && Plan(disks[p.node], adminUser) == Some(p.t)
  }

  ghost predicate PlannedFrom(plans: seq<Planned>, disks: map<Node, Disk>, adminUser: string) {
    forall i :: 0 <= i < |plans| ==> IsPlan(plans[i], disks, adminUser)
  }

  function NormalizeTarget(t: Target): Target {
    t.WithPassword(t.password)
  }

  /** The plans that need normalisation, in order, with the texts the phase writes. */
  function ToNormalize(plans: seq<Planned>): seq<Planned> {
    if plans == [] then []
    else
      var last := plans[|plans| - 1];
      ToNormalize(plans[..|plans| - 1])
      + if last.t.needsNormalization then [Planned(last.node, NormalizeTarget(last.t))] else []
  }

  /** A plan as the password phase starts: the normalised texts are the current ones. */
  function StartTarget(t: Target): Target {
    if t.needsNormalization then
      t.(primaryText := t.newPrimaryText,
         secondaryText := NormalizeTarget(t).newSecondaryText,
         secondaryExists := true,
         needsNormalization := false)
    else t
  }

  /** What the password phase writes; its old texts are those of `StartTarget`. */
  function PasswordTarget(t: Target, newPassword: string): Target {
    StartTarget(t).WithPassword(newPassword)
  }

  function PasswordTargets(plans: seq<Planned>, newPassword: string): (ts: seq<Planned>)
    ensures |ts| == |plans|
    ensures forall i :: 0 <= i < |ts| ==>
              ts[i] == Planned(plans[i].node, PasswordTarget(plans[i].t, newPassword))
  {
    seq(|plans|, i requires 0 <= i < |plans| => Planned(plans[i].node, PasswordTarget(plans[i].t, newPassword)))
  }

  // ----- The lists the two write phases run over

  lemma PlanFacts(d: Disk, adminUser: string)
    requires Plan(d, adminUser).Some?
    ensures var t := Plan(d, adminUser).value;
            Coherent(t) && AtStart(d, t) && (t.needsNormalization ==> t.secondaryPath == DEFAULT_SECONDARY)
  {
  }

  function NormalIndices(plans: seq<Planned>): seq<nat> {
    if plans == [] then []
    else
      NormalIndices(plans[..|plans| - 1])
      + if plans[|plans| - 1].t.needsNormalization then [|plans| - 1] else []
  }

  lemma {:induction false} ToNormalizeIsNormal(plans: seq<Planned>)
    ensures NormalOf(plans, ToNormalize(plans), NormalIndices(plans))
  {
    if plans != [] {
      var front := plans[..|plans| - 1];
      ToNormalizeIsNormal(front);
      var last := plans[|plans| - 1];
      SplitLast(plans);
      NormalSnoc(front, last, ToNormalize(front), NormalIndices(front));
      if !last.t.needsNormalization {
        assert ToNormalize(front) + [] == ToNormalize(front) && NormalIndices(front) + [] == NormalIndices(front);
      }
    }
  }

  lemma NormalSnoc(plans: seq<Planned>, last: Planned, normal: seq<Planned>, idx: seq<nat>)
    requires NormalOf(plans, normal, idx)
    ensures last.t.needsNormalization ==>
              NormalOf(plans + [last], normal + [Planned(last.node, NormalizeTarget(last.t))], idx + [|plans|])
    ensures !last.t.needsNormalization ==> NormalOf(plans + [last], normal, idx)
  {
    if last.t.needsNormalization {
      NormalAdded(plans, last, normal, idx, Planned(last.node, NormalizeTarget(last.t)));
    } else {
      assert forall i :: 0 <= i < |plans| ==> (plans + [last])[i] == plans[i];
    }
  }

  lemma NormalAdded(plans: seq<Planned>, last: Planned, normal: seq<Planned>, idx: seq<nat>, added: Planned)
    requires NormalOf(plans, normal, idx) && last.t.needsNormalization && Rewrites(last, added)
    ensures NormalOf(plans + [last], normal + [added], idx + [|plans|])
  {
    var plans', idx', normal' := plans + [last], idx + [|plans|], normal + [added];
    forall i | 0 <= i < |plans'| && plans'[i].t.needsNormalization
      ensures i in idx'
    {
      IndexAdded(plans, last, normal, idx, i);
    }
    forall k | 0 <= k < |idx'|
      ensures idx'[k] < |plans'| && plans'[idx'[k]].t.needsNormalization && Rewrites(plans'[idx'[k]], normal'[k])
    {
      if k < |idx| {
        assert idx'[k] == idx[k] && normal'[k] == normal[k] && plans'[idx[k]] == plans[idx[k]];
      }
    }
  }

  lemma IndexAdded(plans: seq<Planned>, last: Planned, normal: seq<Planned>, idx: seq<nat>, i: nat)
    requires NormalOf(plans, normal, idx) && i <= |plans| && (plans + [last])[i].t.needsNormalization
    ensures i in idx + [|plans|]
  {
    if i < |plans| {
      assert plans[i] == (plans + [last])[i] && i in idx;
    }
  }

  lemma {:induction false} NormalTexts(plans: seq<Planned>, k: nat)
    requires NormalOf(plans, ToNormalize(plans), NormalIndices(plans)) && k < |NormalIndices(plans)|
    ensures ToNormalize(plans)[k] ==
            Planned(plans[NormalIndices(plans)[k]].node, NormalizeTarget(plans[NormalIndices(plans)[k]].t))
  {
    var front := plans[..|plans| - 1];
    ToNormalizeIsNormal(front);
    if k < |NormalIndices(front)| {
      NormalTexts(front, k);
      assert NormalIndices(plans)[k] == NormalIndices(front)[k] && ToNormalize(plans)[k] == ToNormalize(front)[k];
    }
  }

  // ----- No planned text ends its here-document early

  predicate NoMarker(f: File) {
    forall i :: 0 <= i < |f| ==> f[i].raw != MARKER
  }

  lemma LinesOfEnded(text: string)
    requires text != ""
    ensures Lines(Ended(text)) == Lines(text)
  {
    UnlinesLines(text);
    LinesUnlines(Lines(text));
  }

  lemma ParsedHasNoMarker(text: string)
    requires MarkerFree(text)
    ensures NoMarker(Parse(text)) && NoMarker(FromText(text))
  {
    if text == "" {
      assert Lines(text) == [];
    } else {
      LinesOfEnded(text);
      var lines := Lines(text);
      assert forall i :: 0 <= i < |lines| ==> lines[i] in lines;
      assert NoMarker(ParseLines(lines));
    }
  }

  lemma {:induction false} RemoveHasNoMarker(f: File, key: string)
    requires NoMarker(f)
    ensures NoMarker(Remove(f, key))
  {
    if f != [] {
      RemoveHasNoMarker(f[1..], key);
    }
  }

  lemma {:induction false} SetHasNoMarker(f: File, key: string, value: string)
    requires NoMarker(f) && |key| > |MARKER|
    ensures NoMarker(Set(f, key, value))
  {
    assert NewLine(key, value).raw != MARKER;
    if f != [] {
      RemoveHasNoMarker(f[1..], key);
      if !Assigns(f[0], key) {
        SetHasNoMarker(f[1..], key, value);
      }
    }
  }

  /** A non-empty file prints to a text that ends in a newline and holds its lines. */
  lemma RenderedText(f: File)
    requires f != [] && Faithful(f)
    ensures Ended(Render(f)) == Render(f)
    ensures NoMarker(f) ==> MarkerFree(Render(f))
  {
    UnlinesJoin(Raws(f));
    LinesUnlines(Raws(f));
  }

  lemma NewPrimaryText(text: string, path: string)
    requires path != "" && '\n' !in path
    ensures var f := NextPrimary(Parse(text), path);
            && Parse(Render(f)) == f && Faithful(f)
            && Ended(Render(f)) == Render(f)
            && (MarkerFree(text) ==> MarkerFree(Render(f)))
  {
    var g := NextPrimary(Parse(text), path);
    PrimaryParses(text, path);
    NextPrimaryGets(Parse(text), path);
    ParseIsFaithful(Render(g));
    if MarkerFree(text) {
      ParsedHasNoMarker(text);
      var f := Set(Parse(text), CONFIG_KEY, path);
      SetHasNoMarker(Parse(text), CONFIG_KEY, path);
      RemoveHasNoMarker(f, USER_KEY);
      RemoveHasNoMarker(Remove(f, USER_KEY), PASSWORD_KEY);
      RemoveHasNoMarker(Remove(Remove(f, USER_KEY), PASSWORD_KEY), OLD_USER_KEY);
      RemoveHasNoMarker(Remove(Remove(Remove(f, USER_KEY), PASSWORD_KEY), OLD_USER_KEY), OLD_PASSWORD_KEY);
    }
    RenderedText(g);
  }

  lemma NewSecondaryText(text: string, user: string, pw: string)
    requires user != "" && '\n' !in user && '\n' !in pw
    ensures var f := NextSecondary(FromText(text), user, pw);
            && Parse(Render(f)) == f
            && Ended(Render(f)) == Render(f)
            && (MarkerFree(text) ==> MarkerFree(Render(f)))
  {
    var f := FromText(text);
    var g := NextSecondary(f, user, pw);
    SecondaryParses(text, user, pw);
    NextSecondaryGets(f, user, pw);
    ParseIsFaithful(Render(g));
    if MarkerFree(text) {
      ParsedHasNoMarker(text);
      SetHasNoMarker(f, USER_KEY, user);
      SetHasNoMarker(Set(f, USER_KEY, user), PASSWORD_KEY, pw);
      var h := Set(Set(f, USER_KEY, user), PASSWORD_KEY, pw);
      RemoveHasNoMarker(h, OLD_USER_KEY);
      RemoveHasNoMarker(Remove(h, OLD_USER_KEY), OLD_PASSWORD_KEY);
    }
    RenderedText(g);
  }

  lemma EmptyIsMarkerFree()
    ensures MarkerFree("")
  {
    var e := Ended("");
    assert e == "\n" && e[1..] == "";
    assert Split(e, '\n') == ["", ""];
  }

  lemma PlanIsClean(d: Disk, adminUser: string, pw: string)
    requires Plan(d, adminUser).Some? && '\n' !in pw
    requires CleanNode(d)
    ensures var t := Plan(d, adminUser).value;
            Clean(NormalizeTarget(t)) && Clean(PasswordTarget(t, pw))
  {
    var t := Plan(d, adminUser).value;
    CredsAreStorable(d);
    SecondaryPathIsStorable(d);
    EmptyIsMarkerFree();
    NewPrimaryText(d[PRIMARY], t.secondaryPath);
    NewSecondaryText(t.secondaryText, t.user, t.password);
    NewSecondaryText(StartTarget(t).secondaryText, t.user, pw);
  }

  lemma NormalLink(plans: seq<Planned>, disks: map<Node, Disk>, adminUser: string)
    requires Distinct(plans) && PlannedFrom(plans, disks, adminUser)
    ensures var normal := ToNormalize(plans);
            && Distinct(normal) && AllIn(normal, disks)
            && (forall k :: 0 <= k < |normal| ==> normal[k].t.secondaryPath != PRIMARY)
            && NormalOf(plans, normal, NormalIndices(plans))
  {
    var normal, idx := ToNormalize(plans), NormalIndices(plans);
    ToNormalizeIsNormal(plans);
    forall k | 0 <= k < |normal|
      ensures normal[k].node in disks && normal[k].t.secondaryPath != PRIMARY
    {
      PlanFacts(disks[plans[idx[k]].node], adminUser);
    }
    forall k, l | 0 <= k < l < |normal|
      ensures normal[k].node != normal[l].node
    {
      assert idx[k] < idx[l];
    }
  }

  lemma PlansLink(plans: seq<Planned>, disks: map<Node, Disk>, adminUser: string)
    requires PlannedFrom(plans, disks, adminUser)
    ensures AllIn(plans, disks) && AllAtStart(plans, disks)
  {
    forall i | 0 <= i < |plans|
      ensures Coherent(plans[i].t) && AtStart(disks[plans[i].node], plans[i].t)
    {
      PlanFacts(disks[plans[i].node], adminUser);
    }
  }

  lemma TargetsLink(plans: seq<Planned>, disks: map<Node, Disk>, adminUser: string, newPassword: string)
    requires Distinct(plans) && PlannedFrom(plans, disks, adminUser)
    ensures var targets := PasswordTargets(plans, newPassword); Distinct(targets) && AllIn(targets, disks)
  {
    forall i | 0 <= i < |plans|
      ensures Coherent(PasswordTarget(plans[i].t, newPassword))
    {
      PlanFacts(disks[plans[i].node], adminUser);
    }
  }

  lemma TargetsFollow(plans: seq<Planned>, newPassword: string)
    requires NormalOf(plans, ToNormalize(plans), NormalIndices(plans))
    ensures TargetsOf(plans, ToNormalize(plans), NormalIndices(plans), PasswordTargets(plans, newPassword))
  {
    var idx := NormalIndices(plans);
    forall k | 0 <= k < |idx|
      ensures ToNormalize(plans)[k] == Planned(plans[idx[k]].node, NormalizeTarget(plans[idx[k]].t))
    {
      NormalTexts(plans, k);
    }
  }

  lemma PlansAreClean(plans: seq<Planned>, disks: map<Node, Disk>, adminUser: string, newPassword: string)
    requires PlannedFrom(plans, disks, adminUser) && CleanFleet(plans, disks) && '\n' !in newPassword
    ensures AllClean(ToNormalize(plans)) && AllClean(PasswordTargets(plans, newPassword))
  {
    var normal := ToNormalize(plans);
    ToNormalizeIsNormal(plans);
    forall i | 0 <= i < |plans|
      ensures Clean(NormalizeTarget(plans[i].t)) && Clean(PasswordTarget(plans[i].t, newPassword))
    {
      PlanIsClean(disks[plans[i].node], adminUser, newPassword);
    }
    forall k | 0 <= k < |normal|
      ensures Clean(normal[k].t)
    {
      NormalTexts(plans, k);
    }
  }

  // ----- What the rotation means

  lemma BlankTextAssignsNothing(text: string, key: string)
    requires TrimSpace(text) == ""
    ensures Get(Parse(text), key) == ""
  {
    var f := Parse(text);
    forall i | 0 <= i < |f|
      ensures f[i].Verbatim?
    {
      assert Lines(text)[i] in Split(text, '\n');
      BlankPieceIsVerbatim(text, Lines(text)[i]);
    }
    VerbatimAssignsNothing(f, key);
  }

  lemma BlankPieceIsVerbatim(text: string, raw: string)
    requires TrimSpace(text) == "" && raw in Split(text, '\n')
    ensures ParseLine(raw).Verbatim?
  {
    TrimsToNothing(text);
    var s := SkipBlanks(raw);
    if s != "" {
      SkipBlanksChars(raw, s[0]);
      SplitChars(text, '\n', raw, s[0]);
      assert IsSpace(s[0]);
    }
    NoKeyIsVerbatim(raw);
  }

  lemma NoKeyIsVerbatim(raw: string)
    requires var s := SkipBlanks(raw); s == "" || IsSpace(s[0])
    ensures ParseLine(raw).Verbatim?
  {
    var s := SkipBlanks(raw);
    if s != "" {
      assert !IsKeyChar(s[0]) && s[0] != 'e';
      assert !HasPrefix(s, "export");
    }
  }

  lemma {:induction false} SkipBlanksChars(s: string, c: char)
    requires c in SkipBlanks(s)
    ensures c in s
  {
    if s != "" && IsBlank(s[0]) {
      SkipBlanksChars(s[1..], c);
    }
  }

  lemma {:induction false} VerbatimAssignsNothing(f: File, key: string)
    requires forall i :: 0 <= i < |f| ==> f[i].Verbatim?
    ensures Assigned(f, key) == []
  {
    if f != [] {
      VerbatimAssignsNothing(f[1..], key);
    }
  }

  /** The comment lines and other assignments of both files survive a run that normalises
      and then writes the password, in order. A secondary file of blank lines is emptied. */
  lemma PasswordWriteKeepsOthers(d: Disk, adminUser: string, newPassword: string, d': Disk)
    requires Plan(d, adminUser).Some? && Storable(newPassword)
    requires IsWritten(d', PasswordTarget(Plan(d, adminUser).value, newPassword))
    ensures var t := Plan(d, adminUser).value;
            var keys := {USER_KEY, PASSWORD_KEY, OLD_USER_KEY, OLD_PASSWORD_KEY};
            && Others(Parse(d'[PRIMARY]), keys + {CONFIG_KEY}) == Others(Parse(d[PRIMARY]), keys + {CONFIG_KEY})
            && (t.secondaryPath != PRIMARY ==>
                  Others(Parse(d'[t.secondaryPath]), keys) ==
                  if t.secondaryPath in d && TrimSpace(d[t.secondaryPath]) != ""
                  then Others(Parse(d[t.secondaryPath]), keys) else [])
  {
    var t := Plan(d, adminUser).value;
    var keys := {USER_KEY, PASSWORD_KEY, OLD_USER_KEY, OLD_PASSWORD_KEY};
    assert keys + {CONFIG_KEY} == {CONFIG_KEY, USER_KEY, PASSWORD_KEY, OLD_USER_KEY, OLD_PASSWORD_KEY};
    var start := StartTarget(t).secondaryText;
    CredsAreStorable(d);
    SecondaryPathIsStorable(d);
    NewPrimaryText(d[PRIMARY], t.secondaryPath);
    NewSecondaryText(start, t.user, newPassword);
    RewriteKeepsOthers(Parse(d[PRIMARY]), t.secondaryPath, FromText(start), t.user, newPassword);
    TrimSpaceTrims("");
    if t.needsNormalization {
      NormalizedKeepsOthers(t.secondaryText, t.user, t.password);
    }
  }

  /** The password write starts from the normalised secondary text, which parses to the
      normalised file. */
  lemma NormalizedKeepsOthers(text: string, user: string, pw: string)
    requires Storable(user) && Storable(pw)
    ensures var keys := {USER_KEY, PASSWORD_KEY, OLD_USER_KEY, OLD_PASSWORD_KEY};
            Others(FromText(Render(NextSecondary(FromText(text), user, pw))), keys) == Others(FromText(text), keys)
  {
    var start := Render(NextSecondary(FromText(text), user, pw));
    NewSecondaryText(text, user, pw);
    RewriteKeepsOthers([], "", FromText(text), user, pw);
    NextSecondaryGets(FromText(text), user, pw);
    if TrimSpace(start) == "" {
      BlankTextAssignsNothing(start, USER_KEY);
      assert false;
    }
  }

  lemma OneFilePlans(f: File, user: string, pw: string)
    requires Faithful(f) && Storable(user) && Storable(pw) && !Indirect(f)
    requires Get(f, CONFIG_KEY) == PRIMARY && Get(f, USER_KEY) == user && Get(f, PASSWORD_KEY) == pw
    ensures var plan := Plan(map[PRIMARY := Render(f)], user);
            plan.Some? && plan.value.secondaryPath == PRIMARY
  {
    ParseRender(f);
    OneFileReads(f, user, pw);
    var d := map[PRIMARY := Render(f)];
    assert CredsOf(d) == Some((user, pw));
  }

  lemma OneFileReads(f: File, user: string, pw: string)
    requires Storable(user) && Storable(pw)
    requires Get(f, CONFIG_KEY) == PRIMARY && Get(f, USER_KEY) == user && Get(f, PASSWORD_KEY) == pw
    ensures RuntimeConfigPath(f) == SecondaryPath(f) == PRIMARY && RootCreds(f) == Some((user, pw))
  {
    TrimSpaceTrims(PRIMARY);
    TrimSpaceTrims(user);
    TrimSpaceTrims(pw);
  }

  /** For every user and password some node passes the preflight with the primary file
      named as its own secondary: the exception above is not empty. */
  lemma OneFileExists(user: string, pw: string) returns (d: Disk)
    requires Storable(user) && Storable(pw)
    ensures Plan(d, user).Some? && Plan(d, user).value.secondaryPath == PRIMARY
  {
    var g := CredsLines(user, pw);
    CredsLinesFacts(user, pw);
    var f := Set(g, CONFIG_KEY, PRIMARY);
    KeysAreKeys();
    SetKeepsFaithful(g, CONFIG_KEY, PRIMARY);
    ConfigAdded(g, PRIMARY);
    OneFilePlans(f, user, pw);
    d := map[PRIMARY := Render(f)];
  }

  /** A file with credentials only. */
  function CredsLines(user: string, pw: string): File {
    [NewLine(USER_KEY, user), NewLine(PASSWORD_KEY, pw)]
  }

  lemma CredsLinesGet(user: string, pw: string, key: string)
    ensures Get(CredsLines(user, pw), key) ==
            if key == PASSWORD_KEY then pw else if key == USER_KEY then user else ""
  {
    var a, b := NewLine(USER_KEY, user), NewLine(PASSWORD_KEY, pw);
    KeysDiffer();
    assert [a, b][1..] == [b] && [b][1..] == [];
    assert Assigned([b], key) == if key == PASSWORD_KEY then [pw] else [];
  }

  lemma CredsLinesFacts(user: string, pw: string)
    requires Storable(user) && Storable(pw)
    ensures var g := CredsLines(user, pw);
            && Faithful(g) && !Indirect(g) && Get(g, CONFIG_KEY) == ""
            && Get(g, USER_KEY) == user && Get(g, PASSWORD_KEY) == pw
  {
    KeysAreKeys();
    KeysDiffer();
    NewLineIsFaithful(USER_KEY, user);
    NewLineIsFaithful(PASSWORD_KEY, pw);
    CredsLinesGet(user, pw, USER_KEY);
    CredsLinesGet(user, pw, PASSWORD_KEY);
    NoOtherKeys(user, pw);
  }

  lemma NoOtherKeys(user: string, pw: string)
    ensures !Indirect(CredsLines(user, pw)) && Get(CredsLines(user, pw), CONFIG_KEY) == ""
  {
    KeysDiffer();
    CredsLinesGet(user, pw, CONFIG_KEY);
    CredsLinesGet(user, pw, USER_FILE_KEY);
    CredsLinesGet(user, pw, PASSWORD_FILE_KEY);
  }

  lemma ConfigAdded(g: File, path: string)
    ensures var f := Set(g, CONFIG_KEY, path);
            && Get(f, CONFIG_KEY) == path
            && forall k :: k in {USER_KEY, PASSWORD_KEY, USER_FILE_KEY, PASSWORD_FILE_KEY} ==> Get(f, k) == Get(g, k)
  {
    KeysDiffer();
    forall k | k in {USER_KEY, PASSWORD_KEY, USER_FILE_KEY, PASSWORD_FILE_KEY}
      ensures Get(Set(g, CONFIG_KEY, path), k) == Get(g, k)
    {
      MapLaws(g, CONFIG_KEY, path, k);
    }
    MapLaws(g, CONFIG_KEY, path, USER_KEY);
  }

  // ----- A file that ends its own here-document

  lemma MarkerIsVerbatim()
    ensures FaithfulLine(Verbatim(MARKER))
  {
  }

  /** A line that assigns nothing stays where it is in both rewrites. */
  lemma CommentStays(raw: string, f: File, path: string)
    ensures NextPrimary([Verbatim(raw)] + f, path) == [Verbatim(raw)] + NextPrimary(f, path)
  {
    var c := [Verbatim(raw)];
    var s := Set(f, CONFIG_KEY, path);
    SetAfterComment(raw, f, CONFIG_KEY, path);
    RemoveAfterComment(raw, s, USER_KEY);
    RemoveAfterComment(raw, Remove(s, USER_KEY), PASSWORD_KEY);
    RemoveAfterComment(raw, Remove(Remove(s, USER_KEY), PASSWORD_KEY), OLD_USER_KEY);
    RemoveAfterComment(raw, Remove(Remove(Remove(s, USER_KEY), PASSWORD_KEY), OLD_USER_KEY), OLD_PASSWORD_KEY);
  }

  lemma SetAfterComment(raw: string, f: File, key: string, value: string)
    ensures Set([Verbatim(raw)] + f, key, value) == [Verbatim(raw)] + Set(f, key, value)
  {
    assert ([Verbatim(raw)] + f)[1..] == f;
  }

  lemma RemoveAfterComment(raw: string, f: File, key: string)
    ensures Remove([Verbatim(raw)] + f, key) == [Verbatim(raw)] + Remove(f, key)
  {
    assert ([Verbatim(raw)] + f)[1..] == f;
  }

  lemma GetAfterComment(raw: string, f: File, key: string)
    ensures Get([Verbatim(raw)] + f, key) == Get(f, key)
  {
    assert ([Verbatim(raw)] + f)[1..] == f;
    assert [] + Assigned(f, key) == Assigned(f, key);
  }

  /** For every user and password some node passes the preflight although its primary file
      begins with the marker line; the shell would store none of its new text. */
  lemma MarkedFileExists(user: string, pw: string) returns (d: Disk)
    requires Storable(user) && Storable(pw)
    ensures Plan(d, user).Some?
    ensures HereDoc(Plan(d, user).value.newPrimaryText) == "" != Ended(Plan(d, user).value.newPrimaryText)
  {
    var f := [Verbatim(MARKER)] + CredsLines(user, pw);
    MarkedFileReads(user, pw);
    d := map[PRIMARY := Render(f)];
    LegacyFilePlans(f, user, pw);
    MarkedPrimaryIsCut(CredsLines(user, pw), f);
  }

  lemma MarkedPrimaryIsCut(g: File, f: File)
    requires f == [Verbatim(MARKER)] + g && Parse(Render(f)) == f
    ensures var text := Render(NextPrimary(f, DEFAULT_SECONDARY)); HereDoc(text) == "" != Ended(text)
  {
    DefaultIsStorable();
    NewPrimaryText(Render(f), DEFAULT_SECONDARY);
    CommentStays(MARKER, g, DEFAULT_SECONDARY);
    MarkedTextIsCut(NextPrimary(f, DEFAULT_SECONDARY));
  }

  /** `f` holds the credentials and names no secondary file. */
  predicate IsLegacy(f: File, user: string, pw: string) {
    && Parse(Render(f)) == f && !Indirect(f)
    && Get(f, CONFIG_KEY) == "" && Get(f, USER_KEY) == user && Get(f, PASSWORD_KEY) == pw
  }

  lemma MarkedFileReads(user: string, pw: string)
    requires Storable(user) && Storable(pw)
    ensures IsLegacy([Verbatim(MARKER)] + CredsLines(user, pw), user, pw)
  {
    var g := CredsLines(user, pw);
    CredsLinesFacts(user, pw);
    MarkerIsVerbatim();
    ParseRender([Verbatim(MARKER)] + g);
    forall k
      ensures Get([Verbatim(MARKER)] + g, k) == Get(g, k)
    {
      GetAfterComment(MARKER, g, k);
    }
  }

  lemma LegacyFilePlans(f: File, user: string, pw: string)
    requires IsLegacy(f, user, pw) && Storable(user) && Storable(pw)
    ensures var plan := Plan(map[PRIMARY := Render(f)], user);
            plan.Some? && plan.value.newPrimaryText == Render(NextPrimary(f, DEFAULT_SECONDARY))
  {
    TrimSpaceTrims("");
    TrimSpaceTrims(user);
    TrimSpaceTrims(pw);
    assert Get([], USER_FILE_KEY) == "" && Get([], PASSWORD_FILE_KEY) == "";
  }

  lemma MarkedTextIsCut(f: File)
    requires Faithful(f) && f != [] && f[0] == Verbatim(MARKER)
    ensures HereDoc(Render(f)) == "" != Ended(Render(f))
  {
    RenderedText(f);
    LinesUnlines(Raws(f));
    assert Raws(f)[0] == MARKER;
  }

  /** Every planned node resolves to the new password, unless its two files are one. */
  predicate AllResolve(plans: seq<Planned>, disks: map<Node, Disk>, adminUser: string, newPassword: string) {
    forall i :: 0 <= i < |plans| ==>
      && plans[i].node in disks
      && (CredsOf(disks[plans[i].node]) == Some((adminUser, newPassword)) <==> plans[i].t.secondaryPath != PRIMARY)
  }

  /** `Explains` for the lists a run builds from its plans. */
  ghost predicate Explained(outcome: Outcome, plans: seq<Planned>, newPassword: string, was: map<Node, Disk>,
                            now: map<Node, Disk>)
    requires was.Keys == now.Keys && forall i :: 0 <= i < |plans| ==> plans[i].node in was
  {
    ToNormalizeIsNormal(plans);
    Explains(outcome, plans, ToNormalize(plans), PasswordTargets(plans, newPassword), was, now)
  }

  /** Normalisation alone keeps what the node resolves to. */
  lemma NormalizationKeepsCreds(d: Disk, adminUser: string, d': Disk)
    requires Plan(d, adminUser).Some? && Plan(d, adminUser).value.needsNormalization
    requires IsWritten(d', NormalizeTarget(Plan(d, adminUser).value))
    ensures CredsOf(d') == CredsOf(d)
  {
    var t := Plan(d, adminUser).value;
    CredsAreStorable(d);
    SecondaryPathIsStorable(d);
    PlannedSecondaryIsDirect(d, adminUser);
    NewPrimaryText(d[PRIMARY], t.secondaryPath);
    NewSecondaryText(t.secondaryText, t.user, t.password);
    WrittenResolves(d, adminUser, t.secondaryText, t.password, d');
  }

  /** After the password write a node resolves to the new password, exactly when its
      secondary file is not its primary file. */
  lemma PasswordWriteResolves(d: Disk, adminUser: string, newPassword: string, d': Disk)
    requires Plan(d, adminUser).Some? && Storable(newPassword)
    requires IsWritten(d', PasswordTarget(Plan(d, adminUser).value, newPassword))
    ensures CredsOf(d') == Some((adminUser, newPassword)) <==> Plan(d, adminUser).value.secondaryPath != PRIMARY
  {
    var t := Plan(d, adminUser).value;
    var start := StartTarget(t).secondaryText;
    CredsAreStorable(d);
    SecondaryPathIsStorable(d);
    PlannedSecondaryIsDirect(d, adminUser);
    RewrittenSecondaryIsDirect(t.secondaryText, t.user, t.password);
    NewPrimaryText(d[PRIMARY], t.secondaryPath);
    NewSecondaryText(start, t.user, newPassword);
    WrittenResolves(d, adminUser, start, newPassword, d');
  }

  lemma RotationMeaning(plans: seq<Planned>, was: map<Node, Disk>, now: map<Node, Disk>, adminUser: string,
                        newPassword: string)
    requires PlannedFrom(plans, was, adminUser) && ValidPassword(newPassword)
    requires AllWrittenIn(PasswordTargets(plans, newPassword), now)
    ensures AllResolve(plans, now, adminUser, newPassword)
  {
    assert newPassword[0] in newPassword && newPassword[|newPassword| - 1] in newPassword;
    assert Storable(newPassword);
    var targets := PasswordTargets(plans, newPassword);
    forall i | 0 <= i < |plans|
      ensures plans[i].node in now
      ensures CredsOf(now[plans[i].node]) == Some((adminUser, newPassword)) <==> plans[i].t.secondaryPath != PRIMARY
    {
      assert IsWritten(now[targets[i].node], targets[i].t);
      PasswordWriteResolves(was[plans[i].node], adminUser, newPassword, now[plans[i].node]);
    }
  }

  lemma PlannedSnoc(plans: seq<Planned>, n: Node, t: Target, disks: map<Node, Disk>, adminUser: string)
    requires PlannedFrom(plans, disks, adminUser) && n in disks && Plan(disks[n], adminUser) == Some(t)
    ensures PlannedFrom(plans + [Planned(n, t)], disks, adminUser)
    ensures NodesOf(plans + [Planned(n, t)]) == NodesOf(plans) + [n]
  {
    NodesSnoc(plans, Planned(n, t));
  }

  lemma NodesSnoc(plans: seq<Planned>, p: Planned)
    ensures NodesOf(plans + [p]) == NodesOf(plans) + [p.node]
  {
  }

  function NodesOf(plans: seq<Planned>): seq<Node> {
    seq(|plans|, i requires 0 <= i < |plans| => plans[i].node)
  }

  /** The nodes on which the unit is installed, in order. */
  function WithUnit(nodes: seq<Node>, installed: set<Node>): seq<Node> {
    if nodes == [] then []
    else
      var last := nodes[|nodes| - 1];
      WithUnit(nodes[..|nodes| - 1], installed) + if last in installed then [last] else []
  }

  /** Exactly the nodes with the unit; those of a first part stand before those of the rest. */
  lemma {:induction false} WithUnitExactly(nodes: seq<Node>, more: seq<Node>, installed: set<Node>)
    ensures forall n :: n in WithUnit(nodes, installed) <==> n in nodes && n in installed
    ensures WithUnit(nodes + more, installed) == WithUnit(nodes, installed) + WithUnit(more, installed)
    decreases |nodes| + |more|
  {
    if more != [] {
      var front := more[..|more| - 1];
      WithUnitExactly(nodes, front, installed);
      assert (nodes + more)[..|nodes + more| - 1] == nodes + front;
    } else if nodes != [] {
      var front := nodes[..|nodes| - 1];
      WithUnitExactly(front, [], installed);
      assert nodes == front + [nodes[|nodes| - 1]] && nodes + [] == nodes;
    } else {
      assert nodes + more == [];
    }
  }

  lemma WithUnitNext(nodes: seq<Node>, installed: set<Node>, i: nat)
    requires i < |nodes|
    ensures WithUnit(nodes[..i + 1], installed) ==
            WithUnit(nodes[..i], installed) + if nodes[i] in installed then [nodes[i]] else []
  {
    assert nodes[..i + 1][..i] == nodes[..i];
  }

  lemma {:induction false} WithUnitDistinct(nodes: seq<Node>, installed: set<Node>)
    requires forall i, j :: 0 <= i < j < |nodes| ==> nodes[i] != nodes[j]
    ensures var ns := WithUnit(nodes, installed);
            && (forall i, j :: 0 <= i < j < |ns| ==> ns[i] != ns[j])
            && (forall n :: n in ns <==> n in nodes && n in installed)
  {
    if nodes != [] {
      WithUnitDistinct(nodes[..|nodes| - 1], installed);
      SplitLast(nodes);
    }
  }

  lemma PlansAreDistinct(plans: seq<Planned>, nodes: seq<Node>, installed: set<Node>)
    requires forall i, j :: 0 <= i < j < |nodes| ==> nodes[i] != nodes[j]
    requires NodesOf(plans) == WithUnit(nodes, installed)
    ensures Distinct(plans) && forall i :: 0 <= i < |plans| ==> plans[i].node in nodes
  {
    WithUnitDistinct(nodes, installed);
    forall i | 0 <= i < |plans|
      ensures NodesOf(plans)[i] == plans[i].node
    {
    }
  }

  /** The preflight: one plan for each node with the unit installed, in node order. */
  method PlanNodes(fleet: Fleet, nodes: seq<Node>, installed: set<Node>, adminUser: string)
    returns (ok: bool, plans: seq<Planned>)
    requires forall i :: 0 <= i < |nodes| ==> nodes[i] in fleet.disks
    requires forall i, j :: 0 <= i < j < |nodes| ==> nodes[i] != nodes[j]
    ensures ok ==> NodesOf(plans) == WithUnit(nodes, installed) && Distinct(plans)
    ensures ok ==> PlannedFrom(plans, fleet.disks, adminUser)
    ensures !ok ==> plans == []
  {
    plans := [];
    for i := 0 to |nodes|
      invariant PlannedFrom(plans, fleet.disks, adminUser)
      invariant NodesOf(plans) == WithUnit(nodes[..i], installed)
    {
      var probed := fleet.OtherStep();
      if !probed { return false, []; }
      WithUnitNext(nodes, installed, i);
      if nodes[i] in installed {
        var read := fleet.OtherStep();
        var plan := Plan(fleet.disks[nodes[i]], adminUser);
        if !read || plan.None? { return false, []; }
        PlannedSnoc(plans, nodes[i], plan.value, fleet.disks, adminUser);
        plans := plans + [Planned(nodes[i], plan.value)];
      }
    }
    assert nodes[..|nodes|] == nodes;
    PlansAreDistinct(plans, nodes, installed);
    ok := true;
  }

  /** Everything `Execute` checks before it writes. */
  method Preflight(fleet: Fleet, nodes: seq<Node>, installed: set<Node>, adminUser: string, newPassword: string)
    returns (ok: bool, plans: seq<Planned>)
    requires forall i :: 0 <= i < |nodes| ==> nodes[i] in fleet.disks
    requires forall i, j :: 0 <= i < j < |nodes| ==> nodes[i] != nodes[j]
    ensures ok ==> NodesOf(plans) == WithUnit(nodes, installed) && Distinct(plans)
    ensures ok ==> PlannedFrom(plans, fleet.disks, adminUser)
    ensures ok ==> ValidPassword(newPassword) && exists i :: 0 <= i < |plans| && plans[i].t.password != newPassword
    ensures !ok ==> plans == []
  {
    plans := [];
    ok := ValidateRootPassword(newPassword);
    if ok {
      ok := fleet.OtherStep();
    }
    if ok {
      ok, plans := PlanNodes(fleet, nodes, installed, adminUser);
    }
    // Refused when no host has the unit, or every host already has this password.
    if ok && forall i :: 0 <= i < |plans| ==> plans[i].t.password == newPassword {
      ok, plans := false, [];
    }
  }

  /** What a run that ended this way did to the files: nodes outside the plans and files
      outside each plan are untouched, every planned file is as the outcome says, and once
      the password phase is through, a node resolves to the new password exactly when its
      secondary file is not its primary file. */
  ghost predicate Accounts(outcome: Outcome, plans: seq<Planned>, adminUser: string, newPassword: string, task: string,
                           was: map<Node, Disk>, now: map<Node, Disk>) {
    && Distinct(plans) && PlannedFrom(plans, was, adminUser)
    && OthersUntouched(plans, was, now)
    && (CleanFleet(plans, was) ==>
          && FilesKept(plans, task, was, now)
          && Explained(outcome, plans, newPassword, was, now)
          && (outcome.Reached? ==> AllResolve(plans, now, adminUser, newPassword))
          && (outcome.Reached? && AllApart(plans, task) ==>
                AllHoldStart(PasswordTargets(plans, newPassword), now, task)))
  }

  lemma WritesAccount(outcome: Outcome, plans: seq<Planned>, adminUser: string, newPassword: string, task: string,
                      was: map<Node, Disk>, now: map<Node, Disk>)
    requires Distinct(plans) && PlannedFrom(plans, was, adminUser) && ValidPassword(newPassword)
    requires OthersUntouched(plans, was, now)
    requires CleanFleet(plans, was) ==>
               && FilesKept(plans, task, was, now) && Explained(outcome, plans, newPassword, was, now)
               && (outcome.Reached? && AllApart(plans, task) ==>
                     AllHoldStart(PasswordTargets(plans, newPassword), now, task))
    ensures Accounts(outcome, plans, adminUser, newPassword, task, was, now)
  {
    if CleanFleet(plans, was) && outcome.Reached? {
      ReachedWritten(outcome, plans, newPassword, was, now);
      RotationMeaning(plans, was, now, adminUser, newPassword);
    }
  }

  lemma ReachedWritten(outcome: Outcome, plans: seq<Planned>, newPassword: string, was: map<Node, Disk>,
                       now: map<Node, Disk>)
    requires was.Keys == now.Keys && forall i :: 0 <= i < |plans| ==> plans[i].node in was
    requires outcome.Reached? && Explained(outcome, plans, newPassword, was, now)
    ensures AllWrittenIn(PasswordTargets(plans, newPassword), now)
  {
    NormalNodes(plans);
    ReachedExplains(outcome, plans, ToNormalize(plans), PasswordTargets(plans, newPassword), was, now);
  }

  lemma NormalNodes(plans: seq<Planned>)
    ensures forall k :: 0 <= k < |ToNormalize(plans)| ==>
              exists i :: 0 <= i < |plans| && plans[i].node == ToNormalize(plans)[k].node
  {
    ToNormalizeIsNormal(plans);
    forall k | 0 <= k < |ToNormalize(plans)|
      ensures exists i :: 0 <= i < |plans| && plans[i].node == ToNormalize(plans)[k].node
    {
      assert plans[NormalIndices(plans)[k]].node == ToNormalize(plans)[k].node;
    }
  }

  /** The write phases for a set of plans. */
  method WritePlans(fleet: Fleet, plans: seq<Planned>, adminUser: string, newPassword: string, task: string)
    returns (outcome: Outcome)
    requires Distinct(plans) && PlannedFrom(plans, fleet.disks, adminUser) && ValidPassword(newPassword)
    modifies fleet`disks, fleet`restarts
    ensures Accounts(outcome, plans, adminUser, newPassword, task, old(fleet.disks), fleet.disks)
    ensures !outcome.Refused? && (outcome.Reached? ==> outcome == Reached(false, false))
    ensures outcome.InPassword() ==> fleet.restarts == old(fleet.restarts) + Restarted(ToNormalize(plans))
  {
    assert '\n' !in newPassword;
    NormalLink(plans, fleet.disks, adminUser);
    PlansLink(plans, fleet.disks, adminUser);
    TargetsLink(plans, fleet.disks, adminUser, newPassword);
    TargetsFollow(plans, newPassword);
    ghost var clean := CleanFleet(plans, fleet.disks);
    if clean {
      PlansAreClean(plans, fleet.disks, adminUser, newPassword);
    }
    outcome := fleet.WriteAll(plans, ToNormalize(plans), NormalIndices(plans), PasswordTargets(plans, newPassword),
                              clean, task);
    assert AllApart(plans, task) ==> AllApart(PasswordTargets(plans, newPassword), task);
    WritesAccount(outcome, plans, adminUser, newPassword, task, old(fleet.disks), fleet.disks);
  }

  /** How storing the new password ended, after how many failed attempts. */
  datatype Saving = NotRestarted | Saved(failed: nat) | SaveCanceled(failed: nat) | GaveUp

  const SAVE_ATTEMPTS := 5

  function Failures(n: nat): seq<bool> {
    seq(n, _ => false)
  }

  /** The attempts it made. */
  function Attempts(s: Saving): seq<bool> {
    match s
    case NotRestarted => []
    case Saved(failed) => Failures(failed) + [true]
    case SaveCanceled(failed) => Failures(failed)
    case GaveUp => Failures(SAVE_ATTEMPTS)
  }

  /** `ServiceRestart`, then up to five attempts to save the password, then the health wait.
      It gives up only after five failures; a cancellation is seen between attempts. */
  method Finish(fleet: Fleet, newPassword: string) returns (saving: Saving, verified: bool)
    modifies fleet`stored, fleet`saves, fleet`reloads
    ensures fleet.reloads == old(fleet.reloads) + [!saving.NotRestarted?]
    ensures fleet.stored == if saving.Saved? then newPassword else old(fleet.stored)
    ensures fleet.saves == old(fleet.saves) + Attempts(saving)
    ensures saving.Saved? || saving.SaveCanceled? ==> saving.failed < 5
    ensures saving.GaveUp? ==> fleet.saves == old(fleet.saves) + [false, false, false, false, false]
    ensures verified ==> saving.Saved?
  {
    saving, verified := NotRestarted, false;
    var restarted := fleet.ServiceRestart();
    if !restarted { return; }
    for attempt := 0 to SAVE_ATTEMPTS
      invariant fleet.stored == old(fleet.stored) && fleet.saves == old(fleet.saves) + Failures(attempt)
      invariant fleet.reloads == old(fleet.reloads) + [true]
    {
      var canceled: bool := *;
      if canceled { return SaveCanceled(attempt), false; }
      var saved := fleet.SavePassword(newPassword);
      if saved {
        verified := fleet.OtherStep();
        return Saved(attempt), verified;
      }
      assert Failures(attempt + 1) == Failures(attempt) + [false];
    }
    saving := GaveUp;
  }

  /** The whole rotation.

      A failed password write whose rollback restored every touched node leaves both
      files of every planned node as the phase found them, up to a final newline; once
      the phase is through, a node resolves to the new password exactly when its
      secondary file is not its primary file. */
  method Execute(fleet: Fleet, nodes: seq<Node>, installed: set<Node>, adminUser: string, newPassword: string,
                 task: string)
    returns (outcome: Outcome, plans: seq<Planned>)
    requires forall i :: 0 <= i < |nodes| ==> nodes[i] in fleet.disks
    requires forall i, j :: 0 <= i < j < |nodes| ==> nodes[i] != nodes[j]
    modifies fleet
    ensures Accounts(outcome, plans, adminUser, newPassword, task, old(fleet.disks), fleet.disks)
    ensures outcome.Refused? ==> fleet.disks == old(fleet.disks) && fleet.restarts == old(fleet.restarts)
    ensures !ValidPassword(newPassword) ==> outcome.Refused?
    ensures NodesOf(plans) == if outcome.Refused? then [] else WithUnit(nodes, installed)
    ensures outcome.InPassword() ==> fleet.restarts == old(fleet.restarts) + Restarted(ToNormalize(plans))
    ensures fleet.stored == if outcome.Reached? && outcome.saved then newPassword else old(fleet.stored)
    ensures outcome.Reached? && outcome.verified ==> outcome.saved
    ensures LoadedFirst(outcome, old(fleet.reloads), fleet.reloads)
  {
    var ok;
    ok, plans := Preflight(fleet, nodes, installed, adminUser, newPassword);
    if !ok {
      RefusedAccounts(adminUser, newPassword, task, fleet.disks);
      return Refused, [];
    }
    outcome := WriteAndFinish(fleet, plans, adminUser, newPassword, task);
  }

  /** The cluster is restarted once, after every password was written, and the new password
      is saved only when that succeeded. */
  predicate LoadedFirst(outcome: Outcome, was: seq<bool>, now: seq<bool>) {
    if outcome.Reached? then now == was + [true] || (now == was + [false] && !outcome.saved) else now == was
  }

  /** What follows the preflight. */
  method WriteAndFinish(fleet: Fleet, plans: seq<Planned>, adminUser: string, newPassword: string, task: string)
    returns (outcome: Outcome)
    requires Distinct(plans) && PlannedFrom(plans, fleet.disks, adminUser) && ValidPassword(newPassword)
    modifies fleet
    ensures Accounts(outcome, plans, adminUser, newPassword, task, old(fleet.disks), fleet.disks)
    ensures !outcome.Refused?
    ensures outcome.InPassword() ==> fleet.restarts == old(fleet.restarts) + Restarted(ToNormalize(plans))
    ensures fleet.stored == if outcome.Reached? && outcome.saved then newPassword else old(fleet.stored)
    ensures outcome.Reached? && outcome.verified ==> outcome.saved
    ensures LoadedFirst(outcome, old(fleet.reloads), fleet.reloads)
  {
    outcome := WritePlans(fleet, plans, adminUser, newPassword, task);
    if outcome.Reached? {
      var saving, verified := Finish(fleet, newPassword);
      ReachedAccounts(outcome, plans, adminUser, newPassword, task, old(fleet.disks), fleet.disks,
                      saving.Saved?, verified);
      outcome := Reached(saving.Saved?, verified);
    }
  }

  lemma RefusedAccounts(adminUser: string, newPassword: string, task: string, disks: map<Node, Disk>)
    ensures Accounts(Refused, [], adminUser, newPassword, task, disks, disks)
  {
  }

  /** Saving the password changes no file. */
  lemma ReachedAccounts(outcome: Outcome, plans: seq<Planned>, adminUser: string, newPassword: string, task: string,
                        was: map<Node, Disk>, now: map<Node, Disk>, saved: bool, verified: bool)
    requires outcome.Reached? && Accounts(outcome, plans, adminUser, newPassword, task, was, now)
    ensures Accounts(Reached(saved, verified), plans, adminUser, newPassword, task, was, now)
  {
  }
}
