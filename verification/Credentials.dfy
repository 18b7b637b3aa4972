/** Root credentials in a node's two env files: how they are resolved, and what the
    rewritten files of internal/operations/rotate_root_creds.go:289-395 resolve to. */
module Credentials {
  import opened Text
  import opened EnvFile

  /** The files of one node, by path. */
  type Disk = map<string, string>
  type Creds = (string, string)

  const PRIMARY := "/etc/default/minio"
  const DEFAULT_SECONDARY := "/etc/minio/config.env"

  const CONFIG_KEY := "MINIO_CONFIG_ENV_FILE"
  const USER_KEY := "MINIO_ROOT_USER"
  const PASSWORD_KEY := "MINIO_ROOT_PASSWORD"
  const OLD_USER_KEY := "MINIO_ROOT_USER_OLD"
  const OLD_PASSWORD_KEY := "MINIO_ROOT_PASSWORD_OLD"
  const USER_FILE_KEY := "MINIO_ROOT_USER_FILE"
  const PASSWORD_FILE_KEY := "MINIO_ROOT_PASSWORD_FILE"

  /** `envFile.rootCreds`. */
  function RootCreds(f: File): Option<Creds> {
    var user := TrimSpace(Get(f, USER_KEY));
    var password := TrimSpace(Get(f, PASSWORD_KEY));
    if user == "" || password == "" then None else Some((user, password))
  }

  /** `resolveCurrentRootCreds`. */
  function ResolveCurrent(primary: File, secondary: File, useSecondary: bool): Option<Creds> {
    if useSecondary && RootCreds(secondary).Some? then RootCreds(secondary)
    else if RootCreds(primary).Some? then RootCreds(primary)
    else if !useSecondary then None
    else RootCreds(secondary)
  }

  predicate Indirect(f: File) {
    Get(f, USER_FILE_KEY) != "" || Get(f, PASSWORD_FILE_KEY) != ""
  }

  function RuntimeConfigPath(primary: File): string {
    TrimSpace(Get(primary, CONFIG_KEY))
  }

  function SecondaryPath(primary: File): string {
    if RuntimeConfigPath(primary) != "" then RuntimeConfigPath(primary) else DEFAULT_SECONDARY
  }

  function FileAt(d: Disk, path: string): File {
    if path in d then Parse(d[path]) else []
  }

  /** What a node's files resolve to, with every refusal of the preflight as `None`. */
  function CredsOf(d: Disk): Option<Creds> {
    if PRIMARY !in d then None
    else
      var primary := Parse(d[PRIMARY]);
      var secondary := FileAt(d, SecondaryPath(primary));
      if Indirect(primary) || Indirect(secondary) then None
      else ResolveCurrent(primary, secondary, RuntimeConfigPath(primary) != "")
  }

  function NextPrimary(primary: File, configPath: string): File {
    Remove(Remove(Remove(Remove(
      Set(primary, CONFIG_KEY, configPath), USER_KEY), PASSWORD_KEY), OLD_USER_KEY), OLD_PASSWORD_KEY)
  }

  /** `newEnvFileFromText`. */
  function FromText(text: string): File {
    if TrimSpace(text) == "" then [] else Parse(text)
  }

  function NextSecondary(secondary: File, user: string, password: string): File {
    Remove(Remove(
      Set(Set(secondary, USER_KEY, user), PASSWORD_KEY, password), OLD_USER_KEY), OLD_PASSWORD_KEY)
  }

  /** `rotateRootCredsTarget`: what is planned for one node. `primaryExists` is always true. */
  datatype Target = Target(
    secondaryPath: string,
    primaryText: string,
    secondaryText: string,
    secondaryExists: bool,
    newPrimaryText: string,
    newSecondaryText: string,
    user: string,
    password: string,
    needsNormalization: bool)
  {
    /** `withPassword`. */
    function WithPassword(pw: string): Target {
      this.(newSecondaryText := Render(NextSecondary(FromText(secondaryText), user, pw)))
    }
  }

  /** `resolveRotateRootCredsTarget` when every remote read succeeds. */
  function Plan(d: Disk, adminUser: string): Option<Target> {
    match CredsOf(d)
    case None => None
    case Some(creds) =>
      if creds.0 != adminUser then None
      else
        var primary := Parse(d[PRIMARY]);
        var path := SecondaryPath(primary);
        Some(Target(path, d[PRIMARY], if path in d then d[path] else "", path in d,
                    Render(NextPrimary(primary, path)), "", creds.0, creds.1,
                    RuntimeConfigPath(primary) == ""))
  }

  // ----- Keys

  lemma KeysAreKeys()
    ensures IsKey(CONFIG_KEY) && IsKey(USER_KEY) && IsKey(PASSWORD_KEY)
  {
  }

  lemma KeysDiffer()
    ensures USER_KEY != PASSWORD_KEY && USER_KEY != OLD_USER_KEY && USER_KEY != OLD_PASSWORD_KEY
    ensures PASSWORD_KEY != OLD_USER_KEY && PASSWORD_KEY != OLD_PASSWORD_KEY
    ensures OLD_USER_KEY != OLD_PASSWORD_KEY
    ensures CONFIG_KEY !in {USER_KEY, PASSWORD_KEY, OLD_USER_KEY, OLD_PASSWORD_KEY}
    ensures USER_FILE_KEY !in {CONFIG_KEY, USER_KEY, PASSWORD_KEY, OLD_USER_KEY, OLD_PASSWORD_KEY}
    ensures PASSWORD_FILE_KEY !in {CONFIG_KEY, USER_KEY, PASSWORD_KEY, OLD_USER_KEY, OLD_PASSWORD_KEY}
  {
    assert PASSWORD_KEY[11] == 'P' && OLD_USER_KEY[11] == 'U';
  }

  // ----- Reading a rewritten file back

  lemma NextPrimaryGets(f: File, path: string)
    ensures var g := NextPrimary(f, path);
            && Get(g, CONFIG_KEY) == path
            && Get(g, USER_KEY) == ""
            && Get(g, USER_FILE_KEY) == Get(f, USER_FILE_KEY)
            && Get(g, PASSWORD_FILE_KEY) == Get(f, PASSWORD_FILE_KEY)
  {
    KeysDiffer();
    var g0 := Set(f, CONFIG_KEY, path);
    var g1 := Remove(g0, USER_KEY);
    var g2 := Remove(g1, PASSWORD_KEY);
    var g3 := Remove(g2, OLD_USER_KEY);
    forall k | k in {CONFIG_KEY, USER_KEY, USER_FILE_KEY, PASSWORD_FILE_KEY}
      ensures Get(NextPrimary(f, path), k) == Get(g1, k)
    {
      MapLaws(g1, PASSWORD_KEY, "", k);
      MapLaws(g2, OLD_USER_KEY, "", k);
      MapLaws(g3, OLD_PASSWORD_KEY, "", k);
    }
    forall k | k in {CONFIG_KEY, USER_FILE_KEY, PASSWORD_FILE_KEY}
      ensures Get(g1, k) == Get(g0, k)
    {
      MapLaws(g0, USER_KEY, "", k);
    }
    MapLaws(g0, USER_KEY, "", CONFIG_KEY);
    MapLaws(f, CONFIG_KEY, path, USER_FILE_KEY);
    MapLaws(f, CONFIG_KEY, path, PASSWORD_FILE_KEY);
  }

  lemma NextSecondaryGets(f: File, user: string, password: string)
    ensures var g := NextSecondary(f, user, password);
            && Get(g, USER_KEY) == user
            && Get(g, PASSWORD_KEY) == password
            && Get(g, USER_FILE_KEY) == Get(f, USER_FILE_KEY)
            && Get(g, PASSWORD_FILE_KEY) == Get(f, PASSWORD_FILE_KEY)
  {
    KeysDiffer();
    var g0 := Set(f, USER_KEY, user);
    var g1 := Set(g0, PASSWORD_KEY, password);
    var g2 := Remove(g1, OLD_USER_KEY);
    forall k | k in {USER_KEY, PASSWORD_KEY, USER_FILE_KEY, PASSWORD_FILE_KEY}
      ensures Get(NextSecondary(f, user, password), k) == Get(g1, k)
    {
      MapLaws(g1, OLD_USER_KEY, "", k);
      MapLaws(g2, OLD_PASSWORD_KEY, "", k);
    }
    forall k | k in {USER_KEY, USER_FILE_KEY, PASSWORD_FILE_KEY}
      ensures Get(g1, k) == Get(g0, k)
    {
      MapLaws(g0, PASSWORD_KEY, password, k);
    }
    MapLaws(g0, PASSWORD_KEY, password, USER_KEY);
    MapLaws(f, USER_KEY, user, USER_FILE_KEY);
    MapLaws(f, USER_KEY, user, PASSWORD_FILE_KEY);
  }

  /** What every key is assigned in the new primary: the secondary's path once, no
      credentials, neither present nor old, and all else as before. */
  lemma NextPrimaryAssigns(f: File, path: string, key: string)
    ensures Assigned(NextPrimary(f, path), key) ==
            if key == "MINIO_CONFIG_ENV_FILE" then [path]
            else if key in {"MINIO_ROOT_USER", "MINIO_ROOT_PASSWORD", "MINIO_ROOT_USER_OLD", "MINIO_ROOT_PASSWORD_OLD"}
            then []
            else Assigned(f, key)
  {
    KeysDiffer();
    var g0 := Set(f, CONFIG_KEY, path);
    var g1 := Remove(g0, USER_KEY);
    var g2 := Remove(g1, PASSWORD_KEY);
    SetAssigned(f, CONFIG_KEY, path, key);
    RemoveAssigned(g0, USER_KEY, key);
    RemoveAssigned(g1, PASSWORD_KEY, key);
    RemoveAssigned(g2, OLD_USER_KEY, key);
    RemoveAssigned(Remove(g2, OLD_USER_KEY), OLD_PASSWORD_KEY, key);
  }

  /** And in the new secondary: user and password once, no old ones, all else as before. */
  lemma NextSecondaryAssigns(f: File, user: string, password: string, key: string)
    ensures Assigned(NextSecondary(f, user, password), key) ==
            if key == "MINIO_ROOT_USER" then [user]
            else if key == "MINIO_ROOT_PASSWORD" then [password]
            else if key in {"MINIO_ROOT_USER_OLD", "MINIO_ROOT_PASSWORD_OLD"} then []
            else Assigned(f, key)
  {
    KeysDiffer();
    var g0 := Set(f, USER_KEY, user);
    var g1 := Set(g0, PASSWORD_KEY, password);
    SetAssigned(f, USER_KEY, user, key);
    SetAssigned(g0, PASSWORD_KEY, password, key);
    RemoveAssigned(g1, OLD_USER_KEY, key);
    RemoveAssigned(Remove(g1, OLD_USER_KEY), OLD_PASSWORD_KEY, key);
  }

  lemma {:induction false} ReplaceAllKeepsOut(s: string, old_: string, new_: string, c: char)
    requires old_ != "" && c !in s && c !in new_
    ensures c !in ReplaceAll(s, old_, new_)
  {
    if |s| >= |old_| {
      if s[..|old_|] == old_ {
        ReplaceAllKeepsOut(s[|old_|..], old_, new_, c);
      } else {
        ReplaceAllKeepsOut(s[1..], old_, new_, c);
      }
    }
  }

  lemma ParseValueKeepsOut(v: string, c: char)
    requires c !in v && c != '"' && c != '\\'
    ensures c !in ParseValue(v)
  {
    TrimSpaceKeepsOut(v, c);
    if |v| >= 2 {
      var inner := v[1..|v| - 1];
      ReplaceAllKeepsOut(inner, "\\\"", "\"", c);
      ReplaceAllKeepsOut(ReplaceAll(inner, "\\\"", "\""), "\\\\", "\\", c);
    }
  }

  lemma {:induction false} SkipBlanksKeepsOut(s: string, c: char)
    requires c !in s
    ensures c !in SkipBlanks(s)
  {
    if s != "" && IsBlank(s[0]) {
      SkipBlanksKeepsOut(s[1..], c);
    }
  }

  lemma LineValueHasNoNewline(line: Line)
    requires FaithfulLine(line) && line.Assign?
    ensures '\n' !in line.value
  {
    var s := SkipBlanks(line.raw);
    SkipBlanksKeepsOut(line.raw, '\n');
    if |s| > 6 {
      SkipBlanksKeepsOut(s[6..], '\n');
    }
    var m := MatchAssign(line.raw).value;
    assert '\n' !in m.1;
    TrimSpaceKeepsOut(m.1, '\n');
    ParseValueKeepsOut(TrimSpace(m.1), '\n');
  }

  lemma {:induction false} AssignedHasNoNewline(f: File, key: string)
    requires Faithful(f)
    ensures forall i :: 0 <= i < |Assigned(f, key)| ==> '\n' !in Assigned(f, key)[i]
  {
    if f != [] {
      AssignedHasNoNewline(f[1..], key);
      if Assigns(f[0], key) {
        LineValueHasNoNewline(f[0]);
      }
    }
  }

  /** A value read from a parsed file, trimmed, can be written back on one line. */
  lemma ReadValueHasNoNewline(text: string, key: string)
    ensures '\n' !in TrimSpace(Get(Parse(text), key))
    ensures Trimmed(TrimSpace(Get(Parse(text), key)))
  {
    ParseIsFaithful(text);
    AssignedHasNoNewline(Parse(text), key);
    TrimSpaceKeepsOut(Get(Parse(text), key), '\n');
    TrimSpaceTrims(Get(Parse(text), key));
  }

  /** A user or password that survives a write to an env file and a trimmed read. */
  predicate Storable(s: string) {
    s != "" && Trimmed(s) && '\n' !in s
  }

  lemma CredsAreStorable(d: Disk)
    requires CredsOf(d).Some?
    ensures Storable(CredsOf(d).value.0) && Storable(CredsOf(d).value.1)
  {
    var primary := Parse(d[PRIMARY]);
    ReadValueHasNoNewline(d[PRIMARY], USER_KEY);
    ReadValueHasNoNewline(d[PRIMARY], PASSWORD_KEY);
    var path := SecondaryPath(primary);
    if path in d {
      ReadValueHasNoNewline(d[path], USER_KEY);
      ReadValueHasNoNewline(d[path], PASSWORD_KEY);
    } else {
      assert Get([], USER_KEY) == "";
    }
  }

  lemma SecondaryPathIsStorable(d: Disk)
    requires PRIMARY in d
    ensures Storable(SecondaryPath(Parse(d[PRIMARY])))
  {
    ReadValueHasNoNewline(d[PRIMARY], CONFIG_KEY);
    DefaultIsStorable();
  }

  lemma DefaultIsStorable()
    ensures Storable(DEFAULT_SECONDARY)
  {
  }

  // ----- The new texts parse back to the edited files: printing loses nothing

  lemma PrimaryParses(text: string, path: string)
    requires '\n' !in path
    ensures Parse(Render(NextPrimary(Parse(text), path))) == NextPrimary(Parse(text), path)
  {
    ParseIsFaithful(text);
    KeysAreKeys();
    var f := Set(Parse(text), CONFIG_KEY, path);
    SetKeepsFaithful(Parse(text), CONFIG_KEY, path);
    RemoveKeepsFaithful(f, USER_KEY);
    RemoveKeepsFaithful(Remove(f, USER_KEY), PASSWORD_KEY);
    RemoveKeepsFaithful(Remove(Remove(f, USER_KEY), PASSWORD_KEY), OLD_USER_KEY);
    RemoveKeepsFaithful(Remove(Remove(Remove(f, USER_KEY), PASSWORD_KEY), OLD_USER_KEY), OLD_PASSWORD_KEY);
    ParseRender(NextPrimary(Parse(text), path));
  }

  lemma SecondaryParses(text: string, user: string, pw: string)
    requires '\n' !in user && '\n' !in pw
    ensures Parse(Render(NextSecondary(FromText(text), user, pw))) == NextSecondary(FromText(text), user, pw)
  {
    ParseIsFaithful(text);
    KeysAreKeys();
    var f := FromText(text);
    SetKeepsFaithful(f, USER_KEY, user);
    SetKeepsFaithful(Set(f, USER_KEY, user), PASSWORD_KEY, pw);
    var g := Set(Set(f, USER_KEY, user), PASSWORD_KEY, pw);
    RemoveKeepsFaithful(g, OLD_USER_KEY);
    RemoveKeepsFaithful(Remove(g, OLD_USER_KEY), OLD_PASSWORD_KEY);
    ParseRender(NextSecondary(f, user, pw));
  }

  /** The new primary file names the secondary and holds no credentials of its own. */
  lemma NewPrimaryReads(text: string, path: string)
    requires Storable(path) && !Indirect(Parse(text))
    ensures var f := Parse(Render(NextPrimary(Parse(text), path)));
            && RuntimeConfigPath(f) == path && SecondaryPath(f) == path
            && !Indirect(f) && RootCreds(f) == None
  {
    PrimaryParses(text, path);
    NextPrimaryGets(Parse(text), path);
    TrimSpaceTrims(path);
    TrimSpaceTrims("");
  }

  lemma NewSecondaryReads(text: string, user: string, pw: string)
    requires Storable(user) && Storable(pw) && !Indirect(FromText(text))
    ensures var f := Parse(Render(NextSecondary(FromText(text), user, pw)));
            !Indirect(f) && RootCreds(f) == Some((user, pw))
  {
    SecondaryParses(text, user, pw);
    NextSecondaryGets(FromText(text), user, pw);
    TrimSpaceTrims(user);
    TrimSpaceTrims(pw);
  }

  /** After the writes the node resolves to its user and the given password, exactly when
      the secondary file is not the primary file itself (the primary is written last).
      `secondaryText` is what the secondary held, as read or as normalised. */
  lemma WrittenResolves(d: Disk, adminUser: string, secondaryText: string, pw: string, d': Disk)
    requires Plan(d, adminUser).Some? && Storable(pw) && !Indirect(FromText(secondaryText))
    requires var t := Plan(d, adminUser).value;
             && PRIMARY in d' && d'[PRIMARY] == t.newPrimaryText
             && t.secondaryPath in d'
             && (t.secondaryPath != PRIMARY ==>
                   d'[t.secondaryPath] == t.(secondaryText := secondaryText).WithPassword(pw).newSecondaryText)
    ensures CredsOf(d') == Some((adminUser, pw)) <==> Plan(d, adminUser).value.secondaryPath != PRIMARY
  {
    var t := Plan(d, adminUser).value;
    CredsAreStorable(d);
    SecondaryPathIsStorable(d);
    NewPrimaryReads(d[PRIMARY], t.secondaryPath);
    if t.secondaryPath != PRIMARY {
      NewSecondaryReads(secondaryText, t.user, pw);
    }
  }

  lemma PlannedSecondaryIsDirect(d: Disk, adminUser: string)
    requires Plan(d, adminUser).Some?
    ensures !Indirect(FromText(Plan(d, adminUser).value.secondaryText))
  {
    assert Get([], USER_FILE_KEY) == "" && Get([], PASSWORD_FILE_KEY) == "";
  }

  lemma RewrittenSecondaryIsDirect(secondaryText: string, user: string, pw: string)
    requires !Indirect(FromText(secondaryText)) && '\n' !in user && '\n' !in pw
    ensures !Indirect(FromText(Render(NextSecondary(FromText(secondaryText), user, pw))))
  {
    SecondaryParses(secondaryText, user, pw);
    NextSecondaryGets(FromText(secondaryText), user, pw);
    assert Get([], USER_FILE_KEY) == "" && Get([], PASSWORD_FILE_KEY) == "";
  }

  // ----- What a rewrite leaves alone

  /** The lines that assign none of `keys`, in order: comments and other assignments. */
  function Others(f: File, keys: set<string>): File {
    if f == [] then []
    else (if f[0].Assign? && f[0].key in keys then [] else [f[0]]) + Others(f[1..], keys)
  }

  lemma {:induction false} OthersAfterRemove(f: File, key: string, keys: set<string>)
    requires key in keys
    ensures Others(Remove(f, key), keys) == Others(f, keys)
  {
    if f != [] {
      OthersAfterRemove(f[1..], key, keys);
      RemoveUnfolds(f, key);
    }
  }

  lemma {:induction false} OthersAfterSet(f: File, key: string, value: string, keys: set<string>)
    requires key in keys
    ensures Others(Set(f, key, value), keys) == Others(f, keys)
  {
    if f != [] {
      if Assigns(f[0], key) {
        OthersAfterRemove(f[1..], key, keys);
        assert Set(f, key, value)[1..] == Remove(f[1..], key);
      } else {
        OthersAfterSet(f[1..], key, value, keys);
        assert Set(f, key, value)[1..] == Set(f[1..], key, value);
      }
    }
  }

  /** Both rewrites keep every comment and every assignment of another key, in order. */
  lemma RewriteKeepsOthers(primary: File, path: string, secondary: File, user: string, pw: string)
    ensures var keys := {CONFIG_KEY, USER_KEY, PASSWORD_KEY, OLD_USER_KEY, OLD_PASSWORD_KEY};
            Others(NextPrimary(primary, path), keys) == Others(primary, keys)
    ensures var keys := {USER_KEY, PASSWORD_KEY, OLD_USER_KEY, OLD_PASSWORD_KEY};
            Others(NextSecondary(secondary, user, pw), keys) == Others(secondary, keys)
  {
    var ks := {CONFIG_KEY, USER_KEY, PASSWORD_KEY, OLD_USER_KEY, OLD_PASSWORD_KEY};
    var p := Set(primary, CONFIG_KEY, path);
    OthersAfterSet(primary, CONFIG_KEY, path, ks);
    OthersAfterRemove(p, USER_KEY, ks);
    OthersAfterRemove(Remove(p, USER_KEY), PASSWORD_KEY, ks);
    OthersAfterRemove(Remove(Remove(p, USER_KEY), PASSWORD_KEY), OLD_USER_KEY, ks);
    OthersAfterRemove(Remove(Remove(Remove(p, USER_KEY), PASSWORD_KEY), OLD_USER_KEY), OLD_PASSWORD_KEY, ks);
    var ks' := {USER_KEY, PASSWORD_KEY, OLD_USER_KEY, OLD_PASSWORD_KEY};
    var s := Set(secondary, USER_KEY, user);
    var s' := Set(s, PASSWORD_KEY, pw);
    OthersAfterSet(secondary, USER_KEY, user, ks');
    OthersAfterSet(s, PASSWORD_KEY, pw, ks');
    OthersAfterRemove(s', OLD_USER_KEY, ks');
    OthersAfterRemove(Remove(s', OLD_USER_KEY), OLD_PASSWORD_KEY, ks');
  }

  // ----- Which credentials a node resolves to, in words

  /** The values of user and password, trimmed, when neither is blank. */
  predicate Names(f: File, c: Creds) {
    && c.0 != "" && TrimSpace(Get(f, "MINIO_ROOT_USER")) == c.0
    && c.1 != "" && TrimSpace(Get(f, "MINIO_ROOT_PASSWORD")) == c.1
  }

  predicate NamesNone(f: File) {
    TrimSpace(Get(f, "MINIO_ROOT_USER")) == "" || TrimSpace(Get(f, "MINIO_ROOT_PASSWORD")) == ""
  }

  predicate NamesFiles(f: File) {
    Get(f, "MINIO_ROOT_USER_FILE") != "" || Get(f, "MINIO_ROOT_PASSWORD_FILE") != ""
  }

  /** The parsed file, empty when there is none. */
  predicate FileIs(d: Disk, path: string, f: File) {
    f == if path in d then Parse(d[path]) else []
  }

  /** A primary file that names a secondary one yields to it; one that does not decides alone,
      but files of credentials are refused in the usual secondary too. */
  lemma ResolvedInWords(d: Disk, primary: File, path: string, secondary: File, c: Creds)
    requires "/etc/default/minio" in d && primary == Parse(d["/etc/default/minio"])
    requires path == TrimSpace(Get(primary, "MINIO_CONFIG_ENV_FILE"))
    requires FileIs(d, if path == "" then "/etc/minio/config.env" else path, secondary)
    ensures CredsOf(d) == Some(c) <==>
            && !NamesFiles(primary) && !NamesFiles(secondary)
            && if path == "" then Names(primary, c)
               else Names(secondary, c) || (NamesNone(secondary) && Names(primary, c))
    ensures forall user :: Plan(d, user).Some? <==> CredsOf(d).Some? && CredsOf(d).value.0 == user
  {
  }
}
