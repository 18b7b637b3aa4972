/** The deploy side's env-file printer (internal/deploy/install.go:395-434) and the redeploy
    side's reader (internal/operations/orchestrated.go:1236-1263). */
module ConfigEnv {
  import opened Text

  /** What `%q` does with characters: which ones `strconv.IsPrint` accepts, and how it
      writes the others. */
  datatype Runes = Runes(printable: char -> bool, escape: char -> string)
  {
    ghost predicate Sound() {
      && !printable('\n')
      && (forall c :: !printable(c) ==> '\n' !in escape(c))
    }
  }

  function QuoteRunes(v: string, runes: Runes): string {
    if v == "" then ""
    else
      (if v[0] == '"' then "\\\"" else if v[0] == '\\' then "\\\\"
       else if runes.printable(v[0]) then [v[0]] else runes.escape(v[0]))
      + QuoteRunes(v[1..], runes)
  }

  /** `formatEnv` without its newline. */
  function FormatEnv(key: string, value: string, runes: Runes): string {
    key + ("=" + ("\"" + (QuoteRunes(value, runes) + "\"")))
  }

  type Pair = (string, string)

  function EnvLines(pairs: seq<Pair>, runes: Runes): seq<string> {
    if pairs == [] then []
    else EnvLines(pairs[..|pairs| - 1], runes) + [FormatEnv(pairs[|pairs| - 1].0, pairs[|pairs| - 1].1, runes)]
  }

  /** The body `renderConfigEnv` builds from its assignments. */
  function RenderPairs(pairs: seq<Pair>, runes: Runes): string {
    Unlines(EnvLines(pairs, runes))
  }

  function IndexOf(s: string, c: char): int {
    if s == "" then -1
    else if s[0] == c then 0
    else
      var i := IndexOf(s[1..], c);
      if i < 0 then -1 else i + 1
  }

  lemma {:induction false} IndexOfBounds(s: string, c: char)
    ensures -1 <= IndexOf(s, c) < |s|
    ensures IndexOf(s, c) >= 0 ==> s[IndexOf(s, c)] == c && c !in s[..IndexOf(s, c)]
    ensures IndexOf(s, c) < 0 ==> c !in s
  {
    if s != "" {
      IndexOfBounds(s[1..], c);
      var i := IndexOf(s[1..], c);
      if s[0] != c && i >= 0 {
        assert s[..i + 1] == [s[0]] + s[1..][..i];
      }
    }
  }

  lemma {:induction false} IndexOfAfter(a: string, c: char, b: string)
    requires c !in a
    ensures IndexOf(a + ([c] + b), c) == |a|
  {
    if a == "" {
      assert a + ([c] + b) == [c] + b;
    } else {
      assert (a + ([c] + b))[1..] == a[1..] + ([c] + b);
      IndexOfAfter(a[1..], c, b);
    }
  }

  lemma SplitAt(a: string, c: char, b: string)
    requires c !in a
    ensures var s := a + ([c] + b);
            IndexOf(s, c) == |a| && s[..|a|] == a && s[|a| + 1..] == b
  {
    IndexOfAfter(a, c, b);
  }

  /** The value of an assignment, without its quotes or its comment. */
  function ValueText(v: string): string {
    if v != "" && (v[0] == '"' || v[0] == '\'') then
      IndexOfBounds(v[1..], v[0]);
      var end := IndexOf(v[1..], v[0]);
      if end >= 0 then v[1..1 + end] else v[1..]
    else
      IndexOfBounds(v, '#');
      var hash := IndexOf(v, '#');
      TrimSpace(if hash >= 0 then v[..hash] else v)
  }

  function TrimPrefix(s: string, p: string): string {
    if HasPrefix(s, p) then s[|p|..] else s
  }

  /** What one line assigns to `name`. */
  function AssignedValue(raw: string, name: string): Option<string> {
    var line := TrimSpace(TrimPrefix(TrimSpace(raw), "export "));
    if HasPrefix(line, name + "=") then Some(ValueText(line[|name| + 1..])) else None
  }

  /** The last assignment wins. */
  function LastValue(lines: seq<string>, name: string): string {
    if lines == [] then ""
    else
      var v := AssignedValue(lines[|lines| - 1], name);
      if v.Some? then v.value else LastValue(lines[..|lines| - 1], name)
  }

  /** `extractEnvVar`. */
  method ExtractEnvVar(body: string, name: string) returns (found: string)
    ensures found == LastValue(Split(body, '\n'), name)
  {
    found := "";
    var lines := Split(body, '\n');
    for i := 0 to |lines|
      invariant found == LastValue(lines[..i], name)
    {
      assert lines[..i + 1][..i] == lines[..i];
      var v := AssignedValue(lines[i], name);
      if v.Some? {
        found := v.value;
      }
    }
    assert lines[..|lines|] == lines;
  }

  // ----- Reading back what was printed

  predicate IsIdentifier(k: string) {
    k != "" && forall i :: 0 <= i < |k| ==> ('A' <= k[i] <= 'Z' || k[i] == '_')
  }

  /** A value that `%q` only puts quotes around. */
  predicate Plain(v: string, runes: Runes) {
    forall i :: 0 <= i < |v| ==> runes.printable(v[i]) && v[i] != '"' && v[i] != '\\'
  }

  lemma {:induction false} PlainQuoted(v: string, runes: Runes)
    requires Plain(v, runes)
    ensures QuoteRunes(v, runes) == v
  {
    if v != "" {
      PlainQuoted(v[1..], runes);
      assert [v[0]] + v[1..] == v;
    }
  }

  lemma {:induction false} QuotedIsOneLine(v: string, runes: Runes)
    requires runes.Sound()
    ensures '\n' !in QuoteRunes(v, runes)
  {
    if v != "" {
      QuotedIsOneLine(v[1..], runes);
    }
  }

  lemma FormattedIsOneLine(key: string, value: string, runes: Runes)
    requires runes.Sound() && IsIdentifier(key)
    ensures '\n' !in FormatEnv(key, value, runes)
  {
    QuotedIsOneLine(value, runes);
  }

  /** Trimming and the `export` prefix leave a printed line alone. */
  lemma FormattedStays(key: string, value: string, runes: Runes)
    requires IsIdentifier(key)
    ensures var line := FormatEnv(key, value, runes);
            TrimSpace(TrimPrefix(TrimSpace(line), "export ")) == line
  {
    var line := FormatEnv(key, value, runes);
    assert line[0] == key[0] && line[|line| - 1] == '"';
    TrimSpaceTrims(line);
    assert !HasPrefix(line, "export ") by {
      assert |line| >= 7 ==> line[..7][0] == line[0];
    }
  }

  lemma KeyPrefix(key: string, name: string, rest: string)
    requires IsIdentifier(key) && IsIdentifier(name)
    ensures HasPrefix(key + ("=" + rest), name + "=") <==> key == name
  {
    var line, p := key + ("=" + rest), name + "=";
    if key == name {
      assert line == p + rest && line[..|p|] == p;
    }
    assert |name| < |key| ==> line[|name|] == key[|name|] != p[|name|];
    assert |key| < |name| ==> p[|key|] == name[|key|] != line[|key|];
    if HasPrefix(line, p) {
      forall i | 0 <= i < |p|
        ensures line[i] == p[i]
      {
        assert line[..|p|][i] == p[i];
      }
      if |name| == |key| {
        assert forall i :: 0 <= i < |key| ==> key[i] == line[i] == p[i] == name[i];
      }
    }
  }

  lemma QuotedTextRead(v: string)
    requires '"' !in v
    ensures ValueText("\"" + (v + "\"")) == v
  {
    var q := "\"" + (v + "\"");
    assert q[1..] == v + ['"'];
    IndexOfAfter(v, '"', "");
    assert v + (['"'] + "") == v + ['"'];
    assert q[1..1 + |v|] == v;
  }

  /** A printed line assigns exactly its own key, and gives a plain value back. */
  lemma FormattedAssigns(key: string, value: string, runes: Runes, name: string)
    requires IsIdentifier(key) && IsIdentifier(name)
    ensures key != name ==> AssignedValue(FormatEnv(key, value, runes), name) == None
    ensures key == name && Plain(value, runes) ==> AssignedValue(FormatEnv(key, value, runes), name) == Some(value)
  {
    var quoted := "\"" + (QuoteRunes(value, runes) + "\"");
    FormattedStays(key, value, runes);
    KeyPrefix(key, name, quoted);
    if key == name && Plain(value, runes) {
      PlainQuoted(value, runes);
      QuotedTextRead(value);
      assert (key + ("=" + quoted))[|name| + 1..] == quoted;
    }
  }

  /** The last value a list of assignments gives `name`. */
  function LastPair(pairs: seq<Pair>, name: string): string {
    if pairs == [] then ""
    else if pairs[|pairs| - 1].0 == name then pairs[|pairs| - 1].1
    else LastPair(pairs[..|pairs| - 1], name)
  }

  lemma {:induction false} LinesAreOneLine(pairs: seq<Pair>, runes: Runes)
    requires runes.Sound() && forall i :: 0 <= i < |pairs| ==> IsIdentifier(pairs[i].0)
    ensures forall l :: l in EnvLines(pairs, runes) ==> '\n' !in l
  {
    if pairs != [] {
      LinesAreOneLine(pairs[..|pairs| - 1], runes);
      FormattedIsOneLine(pairs[|pairs| - 1].0, pairs[|pairs| - 1].1, runes);
    }
  }

  lemma {:induction false} LinesAssign(pairs: seq<Pair>, runes: Runes, name: string)
    requires IsIdentifier(name) && forall i :: 0 <= i < |pairs| ==> IsIdentifier(pairs[i].0)
    requires forall i :: 0 <= i < |pairs| && pairs[i].0 == name ==> Plain(pairs[i].1, runes)
    ensures LastValue(EnvLines(pairs, runes), name) == LastPair(pairs, name)
  {
    if pairs != [] {
      var front, last := pairs[..|pairs| - 1], pairs[|pairs| - 1];
      LinesAssign(front, runes, name);
      FormattedAssigns(last.0, last.1, runes, name);
      LastValueSnoc(EnvLines(front, runes), FormatEnv(last.0, last.1, runes), name);
    }
  }

  lemma LastValueSnoc(lines: seq<string>, line: string, name: string)
    ensures LastValue(lines + [line], name) ==
            var v := AssignedValue(line, name); if v.Some? then v.value else LastValue(lines, name)
  {
    assert (lines + [line])[..|lines|] == lines;
  }

  lemma BlankAssignsNothing(name: string)
    ensures AssignedValue("", name) == None
  {
    TrimSpaceTrims("");
  }

  /** The reader gets back the value last printed for a key, whatever the other keys hold. */
  lemma ExtractsWhatWasPrinted(pairs: seq<Pair>, runes: Runes, name: string)
    requires runes.Sound() && IsIdentifier(name)
    requires forall i :: 0 <= i < |pairs| ==> IsIdentifier(pairs[i].0)
    requires forall i :: 0 <= i < |pairs| && pairs[i].0 == name ==> Plain(pairs[i].1, runes)
    ensures LastValue(Split(RenderPairs(pairs, runes), '\n'), name) == LastPair(pairs, name)
  {
    var lines := EnvLines(pairs, runes);
    LinesAreOneLine(pairs, runes);
    SplitUnlines(lines);
    LastValueSnoc(lines, "", name);
    BlankAssignsNothing(name);
    LinesAssign(pairs, runes, name);
  }
}
