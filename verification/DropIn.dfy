/** The systemd drop-in that gives Buckit's unit the identity of the MinIO unit
    (internal/migration/installer.go:253-288), and the parser of the unit properties it is
    rendered from (internal/deploy/unit_props.go:66-105). */
module DropIn {
  import opened Text

  /** Empty strings are unset. */
  datatype UnitProps = UnitProps(user: string, group: string, files: seq<string>)

  const NO_PROPS := UnitProps("", "", [])

  // ----- Reading `systemctl show`

  /** Where `" ("` occurs last, or -1. */
  function LastAnnotation(v: string): int {
    if |v| < 2 then -1
    else if v[|v| - 2..] == " (" then |v| - 2
    else LastAnnotation(v[..|v| - 1])
  }

  lemma {:induction false} LastAnnotationBounds(v: string)
    ensures -1 <= LastAnnotation(v) <= |v|
  {
    if |v| >= 2 {
      LastAnnotationBounds(v[..|v| - 1]);
    }
  }

  function After(line: string, key: string): string
    requires HasPrefix(line, key)
  {
    TrimSpace(line[|key|..])
  }

  function WithoutDash(v: string): string {
    if HasPrefix(v, "-") then v[1..] else v
  }

  /** `parseEnvironmentFileValue`. */
  function FilePath(v: string): string {
    LastAnnotationBounds(v);
    var at := LastAnnotation(v);
    TrimSpace(WithoutDash(TrimSpace(if at >= 0 then v[..at] else v)))
  }

  function AddFile(props: UnitProps, path: string): UnitProps {
    if path == "" then props else props.(files := props.files + [path])
  }

  function ReadLine(props: UnitProps, raw: string): UnitProps {
    var line := TrimSpace(raw);
    if HasPrefix(line, "User=") then props.(user := After(line, "User="))
    else if HasPrefix(line, "Group=") then props.(group := After(line, "Group="))
    else if HasPrefix(line, "EnvironmentFiles=") then AddFile(props, FilePath(After(line, "EnvironmentFiles=")))
    else if HasPrefix(line, "EnvironmentFile=") then AddFile(props, FilePath(After(line, "EnvironmentFile=")))
    else props
  }

  function ReadLines(lines: seq<string>): UnitProps {
    if lines == [] then NO_PROPS else ReadLine(ReadLines(lines[..|lines| - 1]), lines[|lines| - 1])
  }

  method ParseUnitProps(out: string) returns (props: UnitProps)
    ensures props == ReadLines(Split(out, '\n'))
  {
    props := NO_PROPS;
    var lines := Split(out, '\n');
    for i := 0 to |lines|
      invariant props == ReadLines(lines[..i])
    {
      assert lines[..i + 1][..i] == lines[..i];
      props := ReadLine(props, lines[i]);
    }
    assert lines[..|lines|] == lines;
  }

  /** A value that stands on one line of a unit file as it is. */
  predicate OneLine(v: string) {
    Trimmed(v) && '\n' !in v
  }

  predicate Clean(props: UnitProps) {
    && OneLine(props.user) && OneLine(props.group)
    && forall i :: 0 <= i < |props.files| ==> OneLine(props.files[i]) && props.files[i] != ""
  }

  lemma TrimmedOneLine(v: string)
    requires '\n' !in v
    ensures OneLine(TrimSpace(v))
  {
    TrimSpaceTrims(v);
    TrimSpaceKeepsOut(v, '\n');
  }

  lemma FilePathOneLine(v: string)
    requires '\n' !in v
    ensures OneLine(FilePath(v))
  {
    LastAnnotationBounds(v);
    var at := LastAnnotation(v);
    var cut := if at >= 0 then v[..at] else v;
    TrimSpaceKeepsOut(cut, '\n');
    TrimmedOneLine(WithoutDash(TrimSpace(cut)));
  }

  lemma {:induction false} ReadIsClean(lines: seq<string>)
    requires forall i :: 0 <= i < |lines| ==> '\n' !in lines[i]
    ensures Clean(ReadLines(lines))
  {
    if lines != [] {
      ReadIsClean(lines[..|lines| - 1]);
      LineIsClean(ReadLines(lines[..|lines| - 1]), lines[|lines| - 1]);
    }
  }

  lemma LineIsClean(props: UnitProps, raw: string)
    requires Clean(props) && '\n' !in raw
    ensures Clean(ReadLine(props, raw))
  {
    var line := TrimSpace(raw);
    TrimSpaceKeepsOut(raw, '\n');
    if HasPrefix(line, "User=") {
      TrimmedOneLine(line[5..]);
    } else if HasPrefix(line, "Group=") {
      TrimmedOneLine(line[6..]);
    } else if HasPrefix(line, "EnvironmentFiles=") {
      TrimSpaceKeepsOut(line[17..], '\n');
      FilePathOneLine(After(line, "EnvironmentFiles="));
    } else if HasPrefix(line, "EnvironmentFile=") {
      TrimSpaceKeepsOut(line[16..], '\n');
      FilePathOneLine(After(line, "EnvironmentFile="));
    }
  }

  // ----- Replies as systemd writes them

  /** A line of a reply, with white space where the reader ignores it. */
  function Shown(lead: string, key: string, pad: string, value: string, tail: string): string {
    lead + (key + (pad + (value + tail)))
  }

  predicate Spacing(lead: string, pad: string, tail: string) {
    Spaces(lead) && Spaces(pad) && Spaces(tail)
  }

  lemma ShownTrims(lead: string, key: string, pad: string, value: string, tail: string)
    requires Spacing(lead, pad, tail) && Trimmed(value) && key != "" && Trimmed(key)
    ensures var line := TrimSpace(Shown(lead, key, pad, value, tail));
            HasPrefix(line, key) && After(line, key) == value
  {
    if value == "" {
      assert pad + ("" + tail) == pad + tail;
      assert lead + (key + (pad + tail)) == lead + (key + (pad + tail));
      PaddingTrimmed(lead, key, pad + tail);
      assert key[|key|..] == "";
      PaddingTrimmed("", "", "");
    } else {
      var body := key + (pad + value);
      assert body[|body| - 1] == value[|value| - 1] && body[0] == key[0];
      assert Shown(lead, key, pad, value, tail) == lead + (body + tail);
      PaddingTrimmed(lead, body, tail);
      assert body[|key|..] == pad + (value + "");
      PaddingTrimmed(pad, value, "");
    }
  }

  /** `User=` sets the user and nothing else. */
  lemma UserIsRead(props: UnitProps, lead: string, pad: string, value: string, tail: string)
    requires Spacing(lead, pad, tail) && Trimmed(value)
    ensures ReadLine(props, Shown(lead, "User=", pad, value, tail)) == UnitProps(value, props.group, props.files)
  {
    ShownTrims(lead, "User=", pad, value, tail);
  }

  /** `Group=` sets the group and nothing else. */
  lemma GroupIsRead(props: UnitProps, lead: string, pad: string, value: string, tail: string)
    requires Spacing(lead, pad, tail) && Trimmed(value)
    ensures ReadLine(props, Shown(lead, "Group=", pad, value, tail)) == UnitProps(props.user, value, props.files)
  {
    ShownTrims(lead, "Group=", pad, value, tail);
    var line := TrimSpace(Shown(lead, "Group=", pad, value, tail));
    assert line[..6] == "Group=" && line[0] == line[..6][0];
  }

  predicate PlainPath(path: string) {
    path != "" && Trimmed(path) && path[0] != '-' && LastAnnotation(path) < 0
  }

  /** A path, as it is, behind the marker that ignores its absence, or before a note. */
  ghost predicate NamesFile(value: string, path: string) {
    && PlainPath(path)
    && (value == path || value == "-" + path ||
        exists note :: value == path + (" (" + note) && Trimmed(value) && LastAnnotation("(" + note) < 0)
  }

  lemma {:induction false} AnnotationAfter(path: string, note: string)
    requires LastAnnotation(path) < 0 && LastAnnotation("(" + note) < 0
    ensures LastAnnotation(path + (" (" + note)) == |path|
  {
    var v := path + (" (" + note);
    if note == "" {
      assert v[|v| - 2..] == " (";
    } else {
      var front, s := note[..|note| - 1], "(" + note;
      NoAnnotationStep(s);
      assert s[..|s| - 1] == "(" + front;
      AnnotationAfter(path, front);
      assert v[..|v| - 1] == path + (" (" + front);
      assert v[|v| - 2] == s[|s| - 2] && v[|v| - 1] == s[|s| - 1];
      SameEnd(v, s);
    }
  }

  lemma NoAnnotationStep(s: string)
    requires |s| >= 2 && LastAnnotation(s) < 0
    ensures s[|s| - 2..] != " (" && LastAnnotation(s[..|s| - 1]) < 0
  {
  }

  lemma SameEnd(v: string, s: string)
    requires |v| >= 2 && |s| >= 2 && v[|v| - 2] == s[|s| - 2] && v[|v| - 1] == s[|s| - 1]
    ensures v[|v| - 2..] == s[|s| - 2..]
  {
  }

  lemma DashHasNoAnnotation(path: string)
    requires LastAnnotation(path) < 0 && path != ""
    ensures LastAnnotation("-" + path) < 0
  {
    DashPrefix(path, "-");
  }

  lemma {:induction false} DashPrefix(path: string, dash: string)
    requires LastAnnotation(path) < 0 && dash == "-"
    ensures LastAnnotation(dash + path) < 0
  {
    var v := dash + path;
    if |path| >= 2 {
      assert v[|v| - 2..] == path[|path| - 2..] && v[..|v| - 1] == dash + path[..|path| - 1];
      DashPrefix(path[..|path| - 1], dash);
    } else if |path| == 1 {
      assert v[|v| - 2..][0] == '-' && v[..1] == dash;
    }
  }

  lemma FileIsRead(value: string, path: string)
    requires NamesFile(value, path)
    ensures FilePath(value) == path
  {
    if value == path {
      TrimSpaceTrims(path);
    } else if value == "-" + path {
      DashedIsRead(value, path);
    } else {
      var note :| value == path + (" (" + note) && Trimmed(value) && LastAnnotation("(" + note) < 0;
      NotedIsRead(value, path, note);
    }
  }

  lemma DashedIsRead(value: string, path: string)
    requires PlainPath(path) && value == "-" + path
    ensures FilePath(value) == path
  {
    DashHasNoAnnotation(path);
    assert value[0] == '-' && value[|value| - 1] == path[|path| - 1] && value[..1] == "-" && value[1..] == path;
    TrimSpaceTrims(value);
    TrimSpaceTrims(path);
  }

  lemma NotedIsRead(value: string, path: string, note: string)
    requires PlainPath(path) && value == path + (" (" + note) && LastAnnotation("(" + note) < 0
    ensures FilePath(value) == path
  {
    AnnotationAfter(path, note);
    TrimSpaceTrims(path);
    assert value[..|path|] == path && path[..1][0] == path[0];
  }

  /** Both spellings add one file at the end and change nothing else. */
  lemma FilesAreRead(props: UnitProps, key: string, lead: string, pad: string, value: string, tail: string,
                     path: string)
    requires key == "EnvironmentFiles=" || key == "EnvironmentFile="
    requires Spacing(lead, pad, tail) && Trimmed(value) && NamesFile(value, path)
    ensures ReadLine(props, Shown(lead, key, pad, value, tail)) ==
            UnitProps(props.user, props.group, props.files + [path])
  {
    FileKeyTrimmed(key);
    ShownTrims(lead, key, pad, value, tail);
    FileIsRead(value, path);
    if key == "EnvironmentFiles=" {
      PluralAdds(props, Shown(lead, key, pad, value, tail));
    } else {
      SingularAdds(props, Shown(lead, key, pad, value, tail));
    }
  }

  lemma PluralAdds(props: UnitProps, raw: string)
    requires HasPrefix(TrimSpace(raw), "EnvironmentFiles=")
    ensures ReadLine(props, raw) == AddFile(props, FilePath(After(TrimSpace(raw), "EnvironmentFiles=")))
  {
    OtherPrefix(TrimSpace(raw), "EnvironmentFiles=", "User=", 0);
    OtherPrefix(TrimSpace(raw), "EnvironmentFiles=", "Group=", 0);
  }

  lemma OtherPrefix(line: string, p: string, q: string, k: nat)
    requires HasPrefix(line, p) && k < |p| && k < |q| && p[k] != q[k]
    ensures !HasPrefix(line, q)
  {
    assert line[..|p|][k] == line[k] == p[k];
    assert |q| <= |line| ==> line[..|q|][k] == line[k];
  }

  lemma SingularAdds(props: UnitProps, raw: string)
    requires HasPrefix(TrimSpace(raw), "EnvironmentFile=")
    ensures ReadLine(props, raw) == AddFile(props, FilePath(After(TrimSpace(raw), "EnvironmentFile=")))
  {
    OtherPrefix(TrimSpace(raw), "EnvironmentFile=", "User=", 0);
    OtherPrefix(TrimSpace(raw), "EnvironmentFile=", "Group=", 0);
    OtherPrefix(TrimSpace(raw), "EnvironmentFile=", "EnvironmentFiles=", 15);
  }

  lemma FileKeyTrimmed(key: string)
    requires key == "EnvironmentFiles=" || key == "EnvironmentFile="
    ensures key != "" && Trimmed(key) && key[0] == 'E'
  {
  }

  /** What `systemctl show` prints behind a path: ` (ignore_errors=yes)`. */
  const NOTE := "ignore_errors=yes)"

  /** The lines it prints for files. */
  function FilesShown(paths: seq<string>): seq<string> {
    if paths == [] then []
    else FilesShown(paths[..|paths| - 1]) + ["EnvironmentFiles=" + (paths[|paths| - 1] + (" (" + NOTE))]
  }

  predicate ShownPaths(paths: seq<string>) {
    forall i :: 0 <= i < |paths| ==> PlainPath(paths[i])
  }

  lemma ShownPathIsRead(props: UnitProps, path: string)
    requires PlainPath(path)
    ensures ReadLine(props, "EnvironmentFiles=" + (path + (" (" + NOTE))) ==
            UnitProps(props.user, props.group, props.files + [path])
  {
    var value := path + (" (" + NOTE);
    NoteIsPlain(path, value);
    NothingAround("EnvironmentFiles=", value);
    FilesAreRead(props, "EnvironmentFiles=", "", "", value, "", path);
  }

  lemma NothingAround(key: string, value: string)
    ensures Shown("", key, "", value, "") == key + value
  {
    assert value + "" == value && "" + value == value && "" + (key + value) == key + value;
  }

  lemma NoteIsPlain(path: string, value: string)
    requires PlainPath(path) && value == path + (" (" + NOTE)
    ensures Trimmed(value) && NamesFile(value, path)
  {
    NoSpaceNoAnnotation("(" + NOTE);
    assert value[|value| - 1] == NOTE[|NOTE| - 1] == ')' && value[0] == path[0];
  }

  lemma {:induction false} NoSpaceNoAnnotation(v: string)
    requires ' ' !in v
    ensures LastAnnotation(v) < 0
  {
    if |v| >= 2 {
      assert v[|v| - 2..][0] == v[|v| - 2];
      NoSpaceNoAnnotation(v[..|v| - 1]);
    }
  }

  lemma ReadSnoc(lines: seq<string>, line: string)
    ensures ReadLines(lines + [line]) == ReadLine(ReadLines(lines), line)
  {
    assert (lines + [line])[..|lines|] == lines;
  }

  lemma {:induction false} FilesShownRead(before: seq<string>, paths: seq<string>, p: UnitProps)
    requires ShownPaths(paths) && ReadLines(before) == p
    ensures ReadLines(before + FilesShown(paths)) == UnitProps(p.user, p.group, p.files + paths)
  {
    if paths == [] {
      assert before + [] == before && p.files + [] == p.files;
    } else {
      var front, last := paths[..|paths| - 1], paths[|paths| - 1];
      var line := "EnvironmentFiles=" + (last + (" (" + NOTE));
      FilesShownRead(before, front, p);
      Assoc(before, FilesShown(front), [line]);
      ReadSnoc(before + FilesShown(front), line);
      ShownPathIsRead(UnitProps(p.user, p.group, p.files + front), last);
      Assoc(p.files, front, [last]);
      SplitLast(paths);
    }
  }

  lemma HeadIsRead(user: string, group: string)
    requires Trimmed(user) && Trimmed(group)
    ensures ReadLines(["User=" + user, "Group=" + group]) == UnitProps(user, group, [])
  {
    var u, g := "User=" + user, "Group=" + group;
    NothingAround("User=", user);
    NothingAround("Group=", group);
    UserIsRead(NO_PROPS, "", "", user, "");
    GroupIsRead(UnitProps(user, "", []), "", "", group, "");
    ReadSnoc([], u);
    ReadSnoc([u], g);
    assert [] + [u] == [u] && [u] + [g] == [u, g];
  }

  /** A reply is read as it is meant: user, group, and the files in their order. */
  lemma ReplyIsRead(user: string, group: string, paths: seq<string>)
    requires Trimmed(user) && Trimmed(group) && ShownPaths(paths)
    ensures ReadLines(["User=" + user, "Group=" + group] + FilesShown(paths)) == UnitProps(user, group, paths)
  {
    HeadIsRead(user, group);
    FilesShownRead(["User=" + user, "Group=" + group], paths, UnitProps(user, group, []));
    assert [] + paths == paths;
  }

  // ----- The drop-in

  const FALLBACK_USER := "minio-user"
  const FALLBACK_GROUP := "minio-user"
  const FALLBACK_FILE := "/etc/default/minio"
  const HEADER_START := "# Written by bm during "
  const HEADER_MIDDLE := "MinIO \U{2192} Buckit cutover. "
  const HEADER_END := "Removed on rollback."
  const HEADER := HEADER_START + (HEADER_MIDDLE + HEADER_END)
  const SECTION := "[Service]"

  function OrDefault(v: string, fallback: string): string {
    if v == "" then fallback else v
  }

  /** The identity the old unit stands for: what it leaves out has the conventional value. */
  function Wanted(was: UnitProps): UnitProps {
    UnitProps(OrDefault(was.user, FALLBACK_USER), OrDefault(was.group, FALLBACK_GROUP),
              if was.files == [] then [FALLBACK_FILE] else was.files)
  }

  function FileLines(files: seq<string>): seq<string> {
    if files == [] then [] else FileLines(files[..|files| - 1]) + ["EnvironmentFile=-" + files[|files| - 1]]
  }

  function DropInLines(was: UnitProps, now: UnitProps): seq<string> {
    var w := Wanted(was);
    (if w.user != OrDefault(now.user, "root") then ["User=" + w.user] else [])
    + (if w.group != OrDefault(now.group, "root") then ["Group=" + w.group] else [])
    + (if w.files != now.files then ["EnvironmentFile="] + FileLines(w.files) else [])
  }

  function DropInText(was: UnitProps, now: UnitProps): string {
    var lines := DropInLines(was, now);
    if lines == [] then "" else HEADER + "\n" + (SECTION + "\n" + (Join(lines, "\n") + "\n"))
  }

  /** The reset, then the files one by one. */
  method RenderFiles(files: seq<string>) returns (lines: seq<string>)
    ensures lines == ["EnvironmentFile="] + FileLines(files)
  {
    lines := ["EnvironmentFile="];
    for i := 0 to |files|
      invariant lines == ["EnvironmentFile="] + FileLines(files[..i])
    {
      assert files[..i + 1][..i] == files[..i];
      lines := lines + ["EnvironmentFile=-" + files[i]];
    }
    assert files[..|files|] == files;
  }

  /** `renderDropIn`. */
  method RenderDropIn(was: UnitProps, now: UnitProps) returns (body: string)
    ensures body == DropInText(was, now)
  {
    var w := Wanted(was);
    var lines: seq<string> := [];
    if w.user != OrDefault(now.user, "root") {
      lines := lines + ["User=" + w.user];
    }
    if w.group != OrDefault(now.group, "root") {
      lines := lines + ["Group=" + w.group];
    }
    if w.files != now.files {
      var files := RenderFiles(w.files);
      lines := lines + files;
    }
    assert lines == DropInLines(was, now);
    if |lines| == 0 {
      return "";
    }
    body := HEADER + "\n" + (SECTION + "\n" + (Join(lines, "\n") + "\n"));
  }

  // ----- What systemd makes of it

  /** One line of a drop-in's `[Service]` section on top of a unit: a scalar replaces, a
      list appends, an empty list value resets (systemd.exec(5), systemd.unit(5)). */
  function ApplyLine(unit: UnitProps, raw: string): UnitProps {
    var line := TrimSpace(raw);
    if HasPrefix(line, "User=") then unit.(user := After(line, "User="))
    else if HasPrefix(line, "Group=") then unit.(group := After(line, "Group="))
    else if HasPrefix(line, "EnvironmentFile=") then
      var v := After(line, "EnvironmentFile=");
      if v == "" then unit.(files := []) else unit.(files := unit.files + [WithoutDash(v)])
    else unit
  }

  function ApplyLines(unit: UnitProps, lines: seq<string>): UnitProps {
    if lines == [] then unit else ApplyLine(ApplyLines(unit, lines[..|lines| - 1]), lines[|lines| - 1])
  }

  function FindSection(lines: seq<string>): nat {
    if lines == [] then 0 else if TrimSpace(lines[0]) == SECTION then 1 else 1 + FindSection(lines[1..])
  }

  lemma {:induction false} FindSectionBounds(lines: seq<string>)
    ensures FindSection(lines) <= |lines|
  {
    if lines != [] {
      FindSectionBounds(lines[1..]);
    }
  }

  /** A unit with a drop-in; only what follows the section header counts. */
  function Merged(unit: UnitProps, body: string): UnitProps {
    FindSectionBounds(Lines(body));
    ApplyLines(unit, Lines(body)[FindSection(Lines(body))..])
  }

  /** Who the service runs as: root when no user is set, the user's own group when no group
      is (systemd.exec(5)). */
  function EffectiveUser(unit: UnitProps): string {
    OrDefault(unit.user, "root")
  }

  function EffectiveGroup(unit: UnitProps, ownGroup: string -> string): string {
    OrDefault(unit.group, ownGroup(EffectiveUser(unit)))
  }

  lemma KeyedLine(key: string, v: string)
    requires key in {"User=", "Group=", "EnvironmentFile="} && OneLine(v)
    ensures TrimSpace(key + v) == key + v && HasPrefix(key + v, key) && After(key + v, key) == v
  {
    var line := key + v;
    assert line[0] == key[0] && line[|line| - 1] == if v == "" then '=' else v[|v| - 1];
    TrimSpaceTrims(line);
    TrimSpaceTrims(v);
    assert line[..|key|] == key && line[|key|..] == v;
  }

  lemma NotOtherKey(a: string, v: string, b: string)
    requires a in {"Group=", "EnvironmentFile="} && b in {"User=", "Group="} && a != b
    ensures !HasPrefix(a + v, b)
  {
    assert (a + v)[0] == a[0];
    assert |a + v| >= |b| ==> (a + v)[..|b|][0] == a[0];
  }

  lemma UserLine(unit: UnitProps, v: string)
    requires OneLine(v)
    ensures ApplyLine(unit, "User=" + v) == unit.(user := v)
  {
    KeyedLine("User=", v);
  }

  lemma GroupLine(unit: UnitProps, v: string)
    requires OneLine(v)
    ensures ApplyLine(unit, "Group=" + v) == unit.(group := v)
  {
    KeyedLine("Group=", v);
    NotOtherKey("Group=", v, "User=");
  }

  lemma FileLine(unit: UnitProps, v: string)
    requires OneLine(v)
    ensures ApplyLine(unit, "EnvironmentFile=" + v) ==
            if v == "" then unit.(files := []) else unit.(files := unit.files + [WithoutDash(v)])
  {
    KeyedLine("EnvironmentFile=", v);
    NotOtherKey("EnvironmentFile=", v, "User=");
    NotOtherKey("EnvironmentFile=", v, "Group=");
  }

  lemma {:induction false} ApplyAppend(unit: UnitProps, a: seq<string>, b: seq<string>)
    ensures ApplyLines(unit, a + b) == ApplyLines(ApplyLines(unit, a), b)
  {
    if b == [] {
      assert a + b == a;
    } else {
      assert (a + b)[..|a + b| - 1] == a + b[..|b| - 1];
      ApplyAppend(unit, a, b[..|b| - 1]);
    }
  }

  lemma ApplyOne(unit: UnitProps, line: string)
    ensures ApplyLines(unit, [line]) == ApplyLine(unit, line)
  {
    assert [line][..0] == [];
  }

  lemma {:induction false} ApplyFiles(unit: UnitProps, files: seq<string>)
    requires forall i :: 0 <= i < |files| ==> OneLine(files[i]) && files[i] != ""
    ensures ApplyLines(unit, FileLines(files)) == unit.(files := unit.files + files)
  {
    if files == [] {
      assert unit.files + files == unit.files;
    } else {
      var front, last := files[..|files| - 1], files[|files| - 1];
      ApplyFiles(unit, front);
      ApplyAppend(unit, FileLines(front), ["EnvironmentFile=-" + last]);
      ApplyFile(ApplyLines(unit, FileLines(front)), last);
      SplitLast(files);
      Assoc(unit.files, front, [last]);
    }
  }

  lemma ApplyFile(unit: UnitProps, path: string)
    requires OneLine(path) && path != ""
    ensures ApplyLines(unit, ["EnvironmentFile=-" + path]) == unit.(files := unit.files + [path])
  {
    DashedLine(path);
    ApplyOne(unit, "EnvironmentFile=-" + path);
    FileLine(unit, "-" + path);
    assert "EnvironmentFile=-" + path == "EnvironmentFile=" + ("-" + path);
  }

  lemma DashedLine(v: string)
    requires OneLine(v) && v != ""
    ensures OneLine("-" + v) && "-" + v != "" && WithoutDash("-" + v) == v
  {
    var d := "-" + v;
    assert d[..1] == "-" && d[1..] == v;
  }

  lemma WantedIsClean(was: UnitProps)
    requires Clean(was)
    ensures Clean(Wanted(was)) && Wanted(was).user != "" && Wanted(was).group != "" && Wanted(was).files != []
  {
  }

  /** The lines leave a unit with the wanted user, group and files, each written only when
      it differed. */
  lemma LinesApply(was: UnitProps, now: UnitProps)
    requires Clean(was)
    ensures var w := Wanted(was);
            ApplyLines(now, DropInLines(was, now)) ==
            UnitProps(if w.user != OrDefault(now.user, "root") then w.user else now.user,
                      if w.group != OrDefault(now.group, "root") then w.group else now.group,
                      w.files)
  {
    var w := Wanted(was);
    WantedIsClean(was);
    var a := if w.user != OrDefault(now.user, "root") then ["User=" + w.user] else [];
    var b := if w.group != OrDefault(now.group, "root") then ["Group=" + w.group] else [];
    var c := if w.files != now.files then ["EnvironmentFile="] + FileLines(w.files) else [];
    var afterA := ApplyLines(now, a);
    var afterB := ApplyLines(afterA, b);
    ApplyAppend(now, a + b, c);
    ApplyAppend(now, a, b);
    if a != [] {
      ApplyOne(now, "User=" + w.user);
      UserLine(now, w.user);
    }
    if b != [] {
      ApplyOne(afterA, "Group=" + w.group);
      GroupLine(afterA, w.group);
    }
    if c != [] {
      FilesReplace(afterB, w.files);
    }
  }

  lemma FilesReplace(unit: UnitProps, files: seq<string>)
    requires forall i :: 0 <= i < |files| ==> OneLine(files[i]) && files[i] != ""
    ensures ApplyLines(unit, ["EnvironmentFile="] + FileLines(files)) == unit.(files := files)
  {
    ApplyAppend(unit, ["EnvironmentFile="], FileLines(files));
    ApplyOne(unit, "EnvironmentFile=");
    FileLine(unit, "");
    assert "EnvironmentFile=" + "" == "EnvironmentFile=";
    ApplyFiles(unit.(files := []), files);
    assert [] + files == files;
  }

  lemma {:induction false} FileLinesOneLine(files: seq<string>)
    requires forall i :: 0 <= i < |files| ==> '\n' !in files[i]
    ensures forall l :: l in FileLines(files) ==> '\n' !in l
  {
    if files != [] {
      FileLinesOneLine(files[..|files| - 1]);
    }
  }

  lemma DropInLinesOneLine(was: UnitProps, now: UnitProps)
    requires Clean(was)
    ensures forall l :: l in DropInLines(was, now) ==> '\n' !in l
  {
    WantedIsClean(was);
    FileLinesOneLine(Wanted(was).files);
  }

  /** A body splits back into its two leading lines and the rest. */
  lemma BodySplits(h: string, s: string, lines: seq<string>)
    requires lines != [] && '\n' !in h && '\n' !in s && forall l :: l in lines ==> '\n' !in l
    ensures Lines(h + "\n" + (s + "\n" + (Join(lines, "\n") + "\n"))) == [h, s] + lines
  {
    UnlinesJoin(lines);
    UnlinesTwo(h, s, lines);
    LinesUnlines([h, s] + lines);
  }

  lemma UnlinesTwo(a: string, b: string, lines: seq<string>)
    ensures Unlines([a, b] + lines) == a + "\n" + (b + "\n" + Unlines(lines))
  {
    assert ([a, b] + lines)[1..] == [b] + lines && ([b] + lines)[1..] == lines;
  }

  /** A comment is not the section header. */
  lemma SectionSecond(h: string, lines: seq<string>)
    requires h != "" && h[0] == '#'
    ensures var all := [h, SECTION] + lines;
            FindSection(all) == 2 && all[2..] == lines
  {
    var all := [h, SECTION] + lines;
    assert all[1..] == [SECTION] + lines;
    TrimRightKeepsFirst(h);
    TrimRightIsPrefix(h);
    assert TrimSpace(h)[0] == h[..|TrimSpace(h)|][0] == '#';
    TrimSpaceTrims(SECTION);
  }

  lemma HeaderLines()
    ensures '\n' !in HEADER && '\n' !in SECTION && HEADER != "" && HEADER[0] == '#'
  {
    StartOfHeader();
    assert '\n' !in HEADER_MIDDLE;
    assert '\n' !in HEADER_END;
  }

  lemma StartOfHeader()
    ensures '\n' !in HEADER_START && HEADER_START != "" && HEADER_START[0] == '#'
  {
  }

  /** systemd applies exactly the lines of the body, behind the section header. */
  lemma BodyLines(was: UnitProps, now: UnitProps)
    requires Clean(was)
    ensures Merged(now, DropInText(was, now)) == ApplyLines(now, DropInLines(was, now))
  {
    var lines := DropInLines(was, now);
    if lines == [] {
      assert Lines("") == [];
    } else {
      HeaderLines();
      DropInLinesOneLine(was, now);
      BodySplits(HEADER, SECTION, lines);
      SectionSecond(HEADER, lines);
    }
  }

  /** Buckit's unit with the drop-in runs as the old unit's user, in its group and with its
      environment files, missing ones read as their fallbacks. The group holds exactly when
      it is written or was already right: the code takes an unset group for root, but
      systemd uses the user's own group. */
  lemma IdentityPreserved(was: UnitProps, now: UnitProps, ownGroup: string -> string)
    requires Clean(was)
    ensures var m := Merged(now, DropInText(was, now));
            && EffectiveUser(m) == Wanted(was).user
            && m.files == Wanted(was).files
            && (EffectiveGroup(m, ownGroup) == Wanted(was).group <==>
                  now.group != "" || Wanted(was).group != "root" || ownGroup(Wanted(was).user) == "root")
  {
    BodyLines(was, now);
    LinesApply(was, now);
    WantedIsClean(was);
  }

  /** The group is lost whenever the old unit runs in group root, Buckit's unit sets none and
      the user's own group is another. */
  lemma GroupLost(was: UnitProps, now: UnitProps, ownGroup: string -> string)
    requires Clean(was) && was.group == "root" && now.group == "" && ownGroup(Wanted(was).user) != "root"
    ensures Wanted(was).group == "root" != EffectiveGroup(Merged(now, DropInText(was, now)), ownGroup)
  {
    IdentityPreserved(was, now, ownGroup);
  }

  /** A unit of user `minio` in group root, next to Buckit's unit that sets nothing. */
  lemma GroupLostExample(ownGroup: string -> string)
    requires ownGroup("minio") == "minio"
    ensures var was := UnitProps("minio", "root", []);
            && Clean(was)
            && Wanted(was).group == "root" != EffectiveGroup(Merged(NO_PROPS, DropInText(was, NO_PROPS)), ownGroup)
  {
    var was := UnitProps("minio", "root", []);
    TrimSpaceTrims("minio");
    TrimSpaceTrims("root");
    GroupLost(was, NO_PROPS, ownGroup);
  }

  /** Buckit's unit already runs as the old unit is meant to. */
  ghost predicate Agreed(was: UnitProps, now: UnitProps, ownGroup: string -> string) {
    var w := Wanted(was);
    EffectiveUser(now) == w.user && EffectiveGroup(now, ownGroup) == w.group && now.files == w.files
  }

  /** The code reads an unset group as root, systemd as the user's own group, and exactly one
      of them makes the units agree. */
  predicate GroupsDisagree(was: UnitProps, now: UnitProps, ownGroup: string -> string) {
    var w := Wanted(was);
    now.group == "" && ((w.group == "root") != (ownGroup(w.user) == w.group))
  }

  /** Nothing is written exactly when the units already agree, but for units that agree in
      user and files and whose groups the code and systemd judge differently: there it is
      the other way round. */
  lemma EmptyIffAgreed(was: UnitProps, now: UnitProps, ownGroup: string -> string)
    ensures (DropInText(was, now) == "" <==> Agreed(was, now, ownGroup)) <==>
            !(EffectiveUser(now) == Wanted(was).user && now.files == Wanted(was).files &&
              GroupsDisagree(was, now, ownGroup))
  {
    EmptyByGuards(was, now);
  }

  /** By the code's own reading, in which what is unset is root. */
  lemma EmptyByGuards(was: UnitProps, now: UnitProps)
    ensures DropInText(was, now) == "" <==>
            UnitProps(OrDefault(now.user, "root"), OrDefault(now.group, "root"), now.files) == Wanted(was)
  {
  }

  /** Nothing is written, and the group differs. */
  lemma EmptyThoughGroupsDiffer(ownGroup: string -> string)
    requires ownGroup("minio") == "minio"
    ensures var was, now := UnitProps("minio", "root", ["/e"]), UnitProps("minio", "", ["/e"]);
            DropInText(was, now) == "" && !Agreed(was, now, ownGroup)
  {
    EmptyByGuards(UnitProps("minio", "root", ["/e"]), UnitProps("minio", "", ["/e"]));
  }

  /** A drop-in is written, and the units agree without it. */
  lemma WrittenThoughAgreed(ownGroup: string -> string)
    requires ownGroup("minio") == "minio"
    ensures var was, now := UnitProps("minio", "minio", ["/e"]), UnitProps("minio", "", ["/e"]);
            DropInText(was, now) != "" && Agreed(was, now, ownGroup)
  {
    EmptyByGuards(UnitProps("minio", "minio", ["/e"]), UnitProps("minio", "", ["/e"]));
  }

  /** What `IdentityPreserved` says, for any two replies of `systemctl show`, whatever they contain. */
  lemma ShownIdentityPreserved(shownOld: string, shownNew: string, ownGroup: string -> string)
    ensures var was, now := ReadLines(Split(shownOld, '\n')), ReadLines(Split(shownNew, '\n'));
            var m := Merged(now, DropInText(was, now));
            && EffectiveUser(m) == Wanted(was).user
            && m.files == Wanted(was).files
            && (EffectiveGroup(m, ownGroup) == Wanted(was).group <==>
                  now.group != "" || Wanted(was).group != "root" || ownGroup(Wanted(was).user) == "root")
  {
    JoinSplit(shownOld, '\n');
    ReadIsClean(Split(shownOld, '\n'));
    IdentityPreserved(ReadLines(Split(shownOld, '\n')), ReadLines(Split(shownNew, '\n')), ownGroup);
  }
}
