/** The line-preserving env-file editor of internal/operations/rotate_root_creds.go:
    parse, edit and print `KEY=value` files without disturbing other lines.

    Each Go loop is a method; the function it is proved equal to carries the lemmas. */
module EnvFile {
  import opened Text

  /** A line: an assignment with its decoded value, or anything else kept verbatim. */
  datatype Line =
    | Verbatim(raw: string)
    | Assign(raw: string, key: string, value: string)

  type File = seq<Line>

  // ----- The assignment pattern  ^\s*(?:export\s+)?([A-Za-z_][A-Za-z0-9_]*)=(.*)$

  /** `\s` of RE2. */
  predicate IsBlank(c: char) {
    c == '\t' || c == '\n' || c == '\U{000C}' || c == '\r' || c == ' '
  }

  predicate IsKeyStart(c: char) {
    'A' <= c <= 'Z' || 'a' <= c <= 'z' || c == '_'
  }

  predicate IsKeyChar(c: char) {
    IsKeyStart(c) || '0' <= c <= '9'
  }

  predicate IsKey(k: string) {
    k != "" && IsKeyStart(k[0]) && forall c :: c in k ==> IsKeyChar(c)
  }

  function SkipBlanks(s: string): string {
    if s != "" && IsBlank(s[0]) then SkipBlanks(s[1..]) else s
  }

  /** The longest run of key characters at the start of `s`. */
  function KeyRun(s: string): string {
    if s != "" && IsKeyChar(s[0]) then [s[0]] + KeyRun(s[1..]) else ""
  }

  /** The two groups of the pattern at a point where only `key=rest` is left to match. */
  function MatchKey(s: string): Option<(string, string)> {
    var k := KeyRun(s);
    if IsKey(k) && |k| < |s| && s[|k|] == '=' then Some((k, s[|k| + 1..])) else None
  }

  /** `envAssignPattern.FindStringSubmatch`. The optional `export` group is taken exactly
      when `export` is followed by a blank: a key cannot contain one. */
  function MatchAssign(raw: string): Option<(string, string)> {
    var s := SkipBlanks(raw);
    if HasPrefix(s, "export") && |s| > 6 && IsBlank(s[6])
    then MatchKey(SkipBlanks(s[6..]))
    else MatchKey(s)
  }

  // ----- Values

  function Escape(value: string): string {
    ReplaceAll(ReplaceAll(value, "\\", "\\\\"), "\"", "\\\"")
  }

  function Unescape(v: string): string {
    ReplaceAll(ReplaceAll(v, "\\\"", "\""), "\\\\", "\\")
  }

  function ParseValue(v: string): string {
    if |v| >= 2 && v[0] == '"' && v[|v| - 1] == '"' then Unescape(v[1..|v| - 1])
    else if |v| >= 2 && v[0] == '\'' && v[|v| - 1] == '\'' then v[1..|v| - 1]
    else TrimSpace(v)
  }

  function Quoted(value: string): string {
    "\"" + Escape(value) + "\""
  }

  function FormatAssign(key: string, value: string): string {
    key + ("=" + Quoted(value))
  }

  function ParseLine(raw: string): Line {
    match MatchAssign(raw)
    case None => Verbatim(raw)
    case Some(m) => Assign(raw, m.0, ParseValue(TrimSpace(m.1)))
  }

  // ----- Specification functions

  function ParseLines(raws: seq<string>): (f: File)
    ensures |f| == |raws|
    ensures forall i :: 0 <= i < |f| ==> f[i] == ParseLine(raws[i])
  {
    seq(|raws|, i requires 0 <= i < |raws| => ParseLine(raws[i]))
  }

  function Parse(text: string): File {
    ParseLines(Lines(text))
  }

  function Raws(f: File): (raws: seq<string>)
    ensures |raws| == |f|
    ensures forall i :: 0 <= i < |f| ==> raws[i] == f[i].raw
  {
    seq(|f|, i requires 0 <= i < |f| => f[i].raw)
  }

  function Render(f: File): string {
    Unlines(Raws(f))
  }

  predicate Assigns(line: Line, key: string) {
    line.Assign? && line.key == key
  }

  /** The values `key` is assigned, in order. */
  function Assigned(f: File, key: string): seq<string> {
    if f == [] then []
    else (if Assigns(f[0], key) then [f[0].value] else []) + Assigned(f[1..], key)
  }

  /** The value of the last assignment of `key`; empty when there is none. */
  function Get(f: File, key: string): string {
    var values := Assigned(f, key);
    if values == [] then "" else values[|values| - 1]
  }

  /** The file without the lines that assign `key`, the others in order. */
  function Remove(f: File, key: string): File {
    if f == [] then []
    else (if Assigns(f[0], key) then [] else [f[0]]) + Remove(f[1..], key)
  }

  function NewLine(key: string, value: string): Line {
    Assign(FormatAssign(key, value), key, value)
  }

  /** The first assignment of `key` rewritten, later ones dropped; appended when new. */
  function Set(f: File, key: string, value: string): File {
    if f == [] then [NewLine(key, value)]
    else if Assigns(f[0], key) then [NewLine(key, value)] + Remove(f[1..], key)
    else [f[0]] + Set(f[1..], key, value)
  }

  // ----- The loops of the source

  method ParseEnvFile(text: string) returns (f: File)
    ensures f == Parse(text)
  {
    var lines := Split(text, '\n');
    if |lines| > 0 && lines[|lines| - 1] == "" {
      lines := lines[..|lines| - 1];
    }
    f := [];
    for i := 0 to |lines|
      invariant f == ParseLines(lines[..i])
    {
      f := f + [ParseLine(lines[i])];
    }
    assert lines[..|lines|] == lines;
  }

  method GetKey(f: File, key: string) returns (v: string)
    ensures v == Get(f, key)
  {
    var i := |f|;
    while i > 0
      invariant 0 <= i <= |f|
      invariant Assigned(f[i..], key) == []
    {
      i := i - 1;
      assert f[i..][1..] == f[i + 1..];
      if Assigns(f[i], key) {
        AssignedAppend(f[..i], f[i..], key);
        assert f[..i] + f[i..] == f;
        return f[i].value;
      }
    }
    assert f[0..] == f;
    return "";
  }

  lemma RemoveSnoc(done: File, f: File, key: string)
    requires f != []
    ensures done + Remove(f, key) ==
            (if Assigns(f[0], key) then done else done + [f[0]]) + Remove(f[1..], key)
  {
  }

  lemma SetSnoc(done: File, f: File, key: string, value: string)
    requires f != []
    ensures done + Set(f, key, value) ==
            if Assigns(f[0], key) then (done + [NewLine(key, value)]) + Remove(f[1..], key)
            else (done + [f[0]]) + Set(f[1..], key, value)
  {
  }

  method SetKey(f: File, key: string, value: string) returns (next: File)
    ensures next == Set(f, key, value)
  {
    next := [];
    var replaced := false;
    for i := 0 to |f|
      invariant !replaced ==> next + Set(f[i..], key, value) == Set(f, key, value)
      invariant replaced ==> next + Remove(f[i..], key) == Set(f, key, value)
    {
      assert f[i..][1..] == f[i + 1..];
      RemoveSnoc(next, f[i..], key);
      SetSnoc(next, f[i..], key, value);
      if Assigns(f[i], key) {
        if !replaced {
          next := next + [NewLine(key, value)];
          replaced := true;
        }
      } else {
        next := next + [f[i]];
      }
    }
    if !replaced {
      next := next + [NewLine(key, value)];
    }
  }

  method RemoveKey(f: File, key: string) returns (next: File)
    ensures next == Remove(f, key)
  {
    next := [];
    for i := 0 to |f|
      invariant next + Remove(f[i..], key) == Remove(f, key)
    {
      assert f[i..][1..] == f[i + 1..];
      RemoveSnoc(next, f[i..], key);
      if !Assigns(f[i], key) {
        next := next + [f[i]];
      }
    }
  }

  method RenderFile(f: File) returns (text: string)
    ensures text == Render(f)
  {
    text := "";
    for i := 0 to |f|
      invariant text == Unlines(Raws(f)[..i])
    {
      UnlinesAppend(Raws(f)[..i], [f[i].raw]);
      assert Raws(f)[..i + 1] == Raws(f)[..i] + [f[i].raw];
      assert Unlines([f[i].raw]) == f[i].raw + "\n" by {
        assert [f[i].raw][1..] == [];
      }
      text := text + f[i].raw + "\n";
    }
    assert Raws(f)[..|f|] == Raws(f);
  }

  // ----- Escaping is undone by the two sequential replacements

  /** Only the backslashes doubled: what is left after the first replacement. */
  function DoubleBackslashes(s: string): string {
    if s == "" then ""
    else (if s[0] == '\\' then "\\\\" else [s[0]]) + DoubleBackslashes(s[1..])
  }

  /** `Escape`, one character at a time. */
  function EscapeEach(s: string): string {
    if s == "" then ""
    else (if s[0] == '\\' then "\\\\" else if s[0] == '"' then "\\\"" else [s[0]]) + EscapeEach(s[1..])
  }

  lemma {:induction false} ReplaceBackslashes(s: string)
    ensures ReplaceAll(s, "\\", "\\\\") == DoubleBackslashes(s)
  {
    if s != "" {
      ReplaceBackslashes(s[1..]);
      assert s[..1] == [s[0]];
    }
  }

  lemma {:induction false} EscapeIsEach(s: string)
    ensures Escape(s) == EscapeEach(s)
  {
    ReplaceBackslashes(s);
    EscapeQuotes(s);
  }

  lemma {:induction false} EscapeQuotes(s: string)
    ensures ReplaceAll(DoubleBackslashes(s), "\"", "\\\"") == EscapeEach(s)
  {
    if s != "" {
      EscapeQuotes(s[1..]);
      var t := DoubleBackslashes(s[1..]);
      if s[0] == '\\' {
        var d := "\\\\" + t;
        assert d[..1] == "\\" && d[1..] == "\\" + t;
        assert ("\\" + t)[..1] == "\\" && ("\\" + t)[1..] == t;
      } else {
        var d := [s[0]] + t;
        assert d[..1] == [s[0]] && d[1..] == t;
      }
    }
  }

  lemma {:induction false} UnescapeQuotes(s: string)
    ensures ReplaceAll(EscapeEach(s), "\\\"", "\"") == DoubleBackslashes(s)
    ensures EscapeEach(s) != "" ==> EscapeEach(s)[0] != '"'
  {
    if s != "" {
      UnescapeQuotes(s[1..]);
      var e := EscapeEach(s[1..]);
      if s[0] == '\\' {
        // Neither backslash meets a quote: escaped text does not begin with one.
        ReplaceSkips('\\', "\\" + e);
        ReplaceSkips('\\', e);
        Assoc("\\", "\\", e);
        Assoc("\\", "\\", DoubleBackslashes(s[1..]));
      } else if s[0] == '"' {
        ReplaceMatches(e);
      } else {
        ReplaceSkips(s[0], e);
      }
    }
  }

  lemma ReplaceMatches(rest: string)
    ensures ReplaceAll("\\\"" + rest, "\\\"", "\"") == "\"" + ReplaceAll(rest, "\\\"", "\"")
  {
    CutAppend("\\\"", rest, 2);
  }

  /** The first replacement passes over a character that does not start `\"`. */
  lemma ReplaceSkips(c: char, rest: string)
    requires c != '\\' || rest == "" || rest[0] != '"'
    ensures ReplaceAll([c] + rest, "\\\"", "\"") == [c] + ReplaceAll(rest, "\\\"", "\"")
  {
    var s := [c] + rest;
    assert s[1..] == rest;
    if |s| >= 2 {
      assert s[..2][0] == c && s[..2][1] == rest[0];
    }
  }

  lemma {:induction false} UnescapeBackslashes(s: string)
    ensures ReplaceAll(DoubleBackslashes(s), "\\\\", "\\") == s
  {
    if s != "" {
      UnescapeBackslashes(s[1..]);
      var t := DoubleBackslashes(s[1..]);
      var d := DoubleBackslashes(s);
      if s[0] == '\\' {
        assert d == "\\\\" + t && d[..2] == "\\\\" && d[2..] == t;
      } else {
        assert d == [s[0]] + t && d[1..] == t;
      }
      assert [s[0]] + s[1..] == s;
    }
  }

  /** Every string survives escaping and the two-pass unescaping. */
  lemma UnescapeInvertsEscape(s: string)
    ensures Unescape(Escape(s)) == s
  {
    EscapeIsEach(s);
    UnescapeQuotes(s);
    UnescapeBackslashes(s);
  }

  lemma {:induction false} EscapeKeepsOut(s: string, c: char)
    requires c !in s && c != '\\' && c != '"'
    ensures c !in Escape(s)
  {
    EscapeIsEach(s);
    EscapeEachKeepsOut(s, c);
  }

  lemma {:induction false} EscapeEachKeepsOut(s: string, c: char)
    requires c !in s && c != '\\' && c != '"'
    ensures c !in EscapeEach(s)
  {
    if s != "" {
      EscapeEachKeepsOut(s[1..], c);
    }
  }

  // ----- Round trips

  lemma {:induction false} KeyRunStops(k: string, rest: string)
    requires forall c :: c in k ==> IsKeyChar(c)
    requires rest != "" && !IsKeyChar(rest[0])
    ensures KeyRun(k + rest) == k
  {
    if k == "" {
      assert k + rest == rest;
    } else {
      assert (k + rest)[1..] == k[1..] + rest;
      KeyRunStops(k[1..], rest);
      assert k == [k[0]] + k[1..];
    }
  }

  lemma FormattedLineMatches(key: string, rest: string)
    requires IsKey(key)
    ensures MatchAssign(key + ("=" + rest)) == Some((key, rest))
  {
    var tail := "=" + rest;
    var raw := key + tail;
    assert raw[0] == key[0];
    KeyRunStops(key, tail);
    assert raw[|key|] == '=' && raw[|key| + 1..] == rest;
    if HasPrefix(raw, "export") && |raw| > 6 {
      // The next character belongs to the key or is the '='.
      var e := raw[..6];
      assert e == "export" && forall i :: 0 <= i < 6 ==> e[i] == raw[i] != '=';
      assert |key| >= 6;
      assert |key| > 6 ==> raw[6] == key[6] && key[6] in key;
      assert !IsBlank(raw[6]);
    }
  }

  lemma QuotedValueParses(value: string)
    ensures ParseValue(TrimSpace(Quoted(value))) == value
  {
    var e := Escape(value);
    var quoted := Quoted(value);
    TrimSpaceTrims(quoted);
    assert quoted[1..|quoted| - 1] == e;
    UnescapeInvertsEscape(value);
  }

  lemma ParseMatched(raw: string, key: string, rest: string)
    requires MatchAssign(raw) == Some((key, rest))
    ensures ParseLine(raw) == Assign(raw, key, ParseValue(TrimSpace(rest)))
  {
  }

  /** What `set` prints for a key and a value is read back as that key and value. */
  lemma FormattedLineParses(key: string, value: string)
    requires IsKey(key)
    ensures ParseLine(FormatAssign(key, value)) == NewLine(key, value)
  {
    FormattedLineMatches(key, Quoted(value));
    QuotedValueParses(value);
    ParseMatched(FormatAssign(key, value), key, Quoted(value));
  }

  /** A file each of whose lines is what parsing its own text gives. */
  predicate FaithfulLine(l: Line) {
    ParseLine(l.raw) == l && '\n' !in l.raw
  }

  predicate Faithful(f: File) {
    forall i :: 0 <= i < |f| ==> FaithfulLine(f[i])
  }

  lemma ParseIsFaithful(text: string)
    ensures Faithful(Parse(text))
  {
    UnlinesLines(text);
  }

  lemma FaithfulCons(line: Line, f: File)
    requires FaithfulLine(line) && Faithful(f)
    ensures Faithful([line] + f)
  {
  }

  lemma {:induction false} RemoveKeepsFaithful(f: File, key: string)
    requires Faithful(f)
    ensures Faithful(Remove(f, key))
  {
    if f != [] {
      RemoveKeepsFaithful(f[1..], key);
    }
  }

  lemma NewLineIsFaithful(key: string, value: string)
    requires IsKey(key) && '\n' !in value
    ensures FaithfulLine(NewLine(key, value))
  {
    FormattedLineParses(key, value);
    EscapeKeepsOut(value, '\n');
    assert !IsKeyChar('\n');
    assert '\n' !in Quoted(value);
    assert '\n' !in "=" + Quoted(value);
  }

  lemma {:induction false} SetKeepsFaithful(f: File, key: string, value: string)
    requires Faithful(f) && IsKey(key) && '\n' !in value
    ensures Faithful(Set(f, key, value))
  {
    NewLineIsFaithful(key, value);
    var line := NewLine(key, value);
    if f == [] {
      FaithfulCons(line, []);
    } else if Assigns(f[0], key) {
      RemoveKeepsFaithful(f[1..], key);
      FaithfulCons(line, Remove(f[1..], key));
    } else {
      SetKeepsFaithful(f[1..], key, value);
      FaithfulCons(f[0], Set(f[1..], key, value));
    }
  }

  /** Parsing then printing gives the text back, with a final newline. */
  lemma RenderParse(text: string)
    ensures Render(Parse(text)) == WithFinalNewline(text)
  {
    UnlinesLines(text);
    var f := Parse(text);
    assert Raws(f) == Lines(text) by {
      forall i | 0 <= i < |f| ensures Raws(f)[i] == Lines(text)[i] {
        assert ParseLine(Lines(text)[i]).raw == Lines(text)[i];
      }
    }
  }

  /** Printing then parsing a faithful file gives the file back. */
  lemma ParseRender(f: File)
    requires Faithful(f)
    ensures Parse(Render(f)) == f
  {
    assert forall i :: 0 <= i < |f| ==> f[i] in f;
    LinesUnlines(Raws(f));
  }

  /** An edit, as a program applies it. */
  datatype Edit = SetTo(key: string, value: string) | Drop(key: string)

  function Edited(f: File, edits: seq<Edit>): File
    decreases edits
  {
    if edits == [] then f
    else
      var g := match edits[0]
               case SetTo(k, v) => Set(f, k, v)
               case Drop(k) => Remove(f, k);
      Edited(g, edits[1..])
  }

  /** After any edits of a parsed file, printing and re-parsing changes nothing. */
  lemma {:induction false} EditsRoundTrip(f: File, edits: seq<Edit>)
    requires Faithful(f)
    requires forall e :: e in edits && e.SetTo? ==> IsKey(e.key) && '\n' !in e.value
    ensures Faithful(Edited(f, edits))
    ensures Parse(Render(Edited(f, edits))) == Edited(f, edits)
    decreases edits
  {
    if edits == [] {
      ParseRender(f);
    } else {
      match edits[0] {
        case SetTo(k, v) =>
          SetKeepsFaithful(f, k, v);
          EditsRoundTrip(Set(f, k, v), edits[1..]);
        case Drop(k) =>
          RemoveKeepsFaithful(f, k);
          EditsRoundTrip(Remove(f, k), edits[1..]);
      }
    }
  }

  // ----- Map laws, whatever duplicates the file holds

  lemma {:induction false} AssignedAppend(a: File, b: File, key: string)
    ensures Assigned(a + b, key) == Assigned(a, key) + Assigned(b, key)
  {
    if a == [] {
      assert a + b == b;
    } else {
      assert (a + b)[1..] == a[1..] + b;
      AssignedAppend(a[1..], b, key);
    }
  }

  lemma RemoveUnfolds(f: File, key: string)
    requires f != []
    ensures Assigns(f[0], key) ==> Remove(f, key) == Remove(f[1..], key)
    ensures !Assigns(f[0], key) ==>
              var r := Remove(f, key);
              r != [] && r[0] == f[0] && r[1..] == Remove(f[1..], key)
  {
    var rest := Remove(f[1..], key);
    assert ([f[0]] + rest)[1..] == rest && [] + rest == rest;
  }

  lemma {:induction false} RemoveAssigned(f: File, key: string, other: string)
    ensures Assigned(Remove(f, key), other) == if other == key then [] else Assigned(f, other)
  {
    if f != [] {
      RemoveAssigned(f[1..], key, other);
      RemoveUnfolds(f, key);
    }
  }

  lemma {:induction false} SetAssigned(f: File, key: string, value: string, other: string)
    ensures Assigned(Set(f, key, value), other) == if other == key then [value] else Assigned(f, other)
  {
    if f != [] {
      var rest := Remove(f[1..], key);
      if Assigns(f[0], key) {
        RemoveAssigned(f[1..], key, other);
        assert ([NewLine(key, value)] + rest)[1..] == rest;
      } else {
        SetAssigned(f[1..], key, value, other);
        assert Set(f, key, value)[1..] == Set(f[1..], key, value);
      }
    }
  }

  /** Reading after writing or removing a key, and reading any other key. */
  lemma MapLaws(f: File, key: string, value: string, other: string)
    requires other != key
    ensures Get(Set(f, key, value), key) == value
    ensures Get(Set(f, key, value), other) == Get(f, other)
    ensures Get(Remove(f, key), key) == ""
    ensures Get(Remove(f, key), other) == Get(f, other)
  {
    SetAssigned(f, key, value, key);
    SetAssigned(f, key, value, other);
    RemoveAssigned(f, key, key);
    RemoveAssigned(f, key, other);
  }

  /** Writing a key leaves every line that does not assign it, in order. */
  lemma {:induction false} SetKeepsOtherLines(f: File, key: string, value: string)
    ensures Remove(Set(f, key, value), key) == Remove(f, key)
  {
    if f != [] {
      if Assigns(f[0], key) {
        RemoveTwice(f[1..], key);
        assert Set(f, key, value)[1..] == Remove(f[1..], key);
      } else {
        SetKeepsOtherLines(f[1..], key, value);
        assert Set(f, key, value)[1..] == Set(f[1..], key, value);
      }
    }
  }

  lemma {:induction false} RemoveTwice(f: File, key: string)
    ensures Remove(Remove(f, key), key) == Remove(f, key)
  {
    if f != [] {
      RemoveTwice(f[1..], key);
      RemoveUnfolds(f, key);
    }
  }
}
