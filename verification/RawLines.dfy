/** How the env-file reader of internal/operations/rotate_root_creds.go:675-732 reads what is
    written in a file, stated on the text of its lines. */
module RawLines {
  import opened Text
  import opened EnvFile
  import opened Credentials

  /** Nothing but what `\s` matches. */
  predicate Blanks(s: string) {
    forall i :: 0 <= i < |s| ==> s[i] in {'\t', '\n', '\U{000C}', '\r', ' '}
  }

  predicate Digit(c: char) {
    c in {'0', '1', '2', '3', '4', '5', '6', '7', '8', '9'}
  }

  predicate Letter(c: char) {
    c in {'A', 'B', 'C', 'D', 'E', 'F', 'G', 'H', 'I', 'J', 'K', 'L', 'M', 'N', 'O', 'P', 'Q', 'R', 'S',
          'T', 'U', 'V', 'W', 'X', 'Y', 'Z', 'a', 'b', 'c', 'd', 'e', 'f', 'g', 'h', 'i', 'j', 'k', 'l',
          'm', 'n', 'o', 'p', 'q', 'r', 's', 't', 'u', 'v', 'w', 'x', 'y', 'z', '_'}
  }

  lemma KeyCharsByName(c: char)
    ensures IsKeyStart(c) <==> Letter(c)
    ensures IsKeyChar(c) <==> IsKeyStart(c) || Digit(c)
    ensures Digit(c) ==> !IsKeyStart(c)
  {
  }

  /** A key is a word of letters, digits and underscores that begins with no digit. */
  lemma KeysByName(k: string)
    ensures IsKey(k) <==> k != "" && !Digit(k[0]) && forall i :: 0 <= i < |k| ==> Letter(k[i]) || Digit(k[i])
  {
    forall i | 0 <= i < |k|
      ensures IsKeyChar(k[i]) <==> Letter(k[i]) || Digit(k[i])
      ensures IsKeyStart(k[i]) <==> Letter(k[i])
      ensures Digit(k[i]) ==> !IsKeyStart(k[i])
    {
      KeyCharsByName(k[i]);
    }
  }

  /** An assignment as a person may write it, with `export` in front when `gap` is not empty. */
  function Spelled(lead: string, gap: string, key: string, pad: string, body: string, tail: string): string {
    lead + ((if gap != "" then "export" + gap else "") + (key + ("=" + (pad + (body + tail)))))
  }

  /** White space where the format allows it. */
  predicate Spacing(lead: string, gap: string, pad: string, tail: string) {
    Blanks(lead) && Blanks(gap) && Spaces(pad) && Spaces(tail)
  }

  predicate Enclosed(s: string, q: char) {
    |s| >= 2 && s[0] == q && s[|s| - 1] == q
  }

  /** What is written stands for `value`: it is the value, or the value between quotes. */
  predicate StandsFor(body: string, value: string) {
    || (body == value && Trimmed(value) && !Enclosed(value, '"') && !Enclosed(value, '\''))
    || body == "'" + (value + "'")
    || (body == "\"" + (value + "\"") && '"' !in value && '\\' !in value)
  }

  // ----- One line

  lemma {:induction false} BlanksSkipped(lead: string, rest: string)
    requires Blanks(lead) && (rest == "" || !IsBlank(rest[0]))
    ensures SkipBlanks(lead + rest) == rest
  {
    if lead == "" {
      assert lead + rest == rest;
    } else {
      assert (lead + rest)[1..] == lead[1..] + rest && (lead + rest)[0] == lead[0];
      BlanksSkipped(lead[1..], rest);
    }
  }

  lemma KeyIsNotBlank(key: string, rest: string)
    requires IsKey(key)
    ensures (key + rest)[0] == key[0] && !IsBlank(key[0])
  {
  }

  lemma SpelledMatches(lead: string, gap: string, key: string, rest: string)
    requires Blanks(lead) && Blanks(gap) && IsKey(key)
    ensures MatchAssign(lead + ((if gap != "" then "export" + gap else "") + (key + ("=" + rest)))) == Some((key, rest))
  {
    var line := key + ("=" + rest);
    KeyIsNotBlank(key, "=" + rest);
    if gap == "" {
      assert "" + line == line;
      PlainMatches(lead, line, key, rest);
    } else {
      ExportMatches(lead, gap, line, key, rest);
    }
  }

  lemma PlainMatches(lead: string, line: string, key: string, rest: string)
    requires Blanks(lead) && IsKey(key) && line == key + ("=" + rest) && !IsBlank(line[0])
    ensures MatchAssign(lead + line) == Some((key, rest))
  {
    FormattedLineMatches(key, rest);
    BlanksSkipped(lead, line);
    BlanksSkipped("", line);
    assert "" + line == line;
  }

  lemma ExportMatches(lead: string, gap: string, line: string, key: string, rest: string)
    requires Blanks(lead) && Blanks(gap) && gap != "" && IsKey(key) && line == key + ("=" + rest) && !IsBlank(line[0])
    ensures MatchAssign(lead + (("export" + gap) + line)) == Some((key, rest))
  {
    var s := ("export" + gap) + line;
    assert s[0] == 'e' && s[..6] == "export";
    assert s[6..] == gap + line && s[6] == gap[0];
    BlanksSkipped(lead, s);
    BlanksSkipped(gap, line);
    MatchesOnce(line, key, rest);
  }

  lemma MatchesOnce(line: string, key: string, rest: string)
    requires IsKey(key) && line == key + ("=" + rest)
    ensures MatchKey(line) == Some((key, rest))
  {
    KeyRunStops(key, "=" + rest);
    assert line[|key|] == '=' && line[|key| + 1..] == rest;
  }

  // ----- The assignment pattern, exactly

  /** The line splits as the pattern says, with these two groups. */
  ghost predicate Matches(raw: string, key: string, rest: string) {
    IsKey(key) && exists lead, gap :: SplitsAs(raw, lead, gap, key, rest)
  }

  predicate SplitsAs(raw: string, lead: string, gap: string, key: string, rest: string) {
    Blanks(lead) && Blanks(gap) && raw == lead + ((if gap != "" then "export" + gap else "") + (key + ("=" + rest)))
  }

  lemma {:induction false} SkippedBlanks(s: string) returns (lead: string)
    ensures Blanks(lead) && s == lead + SkipBlanks(s)
  {
    if s != "" && IsBlank(s[0]) {
      lead := SkippedBlanks(s[1..]);
      Assoc([s[0]], lead, SkipBlanks(s));
      lead := [s[0]] + lead;
    } else {
      lead := "";
    }
  }

  lemma {:induction false} KeyRunIsPrefix(s: string)
    ensures HasPrefix(s, KeyRun(s))
  {
    if s != "" && IsKeyChar(s[0]) {
      KeyRunIsPrefix(s[1..]);
      assert s == [s[0]] + s[1..];
    }
  }

  lemma MatchedKey(s: string, key: string, rest: string)
    requires MatchKey(s) == Some((key, rest))
    ensures IsKey(key) && s == key + ("=" + rest)
  {
    KeyRunIsPrefix(s);
    assert s[|key|..] == [s[|key|]] + s[|key| + 1..];
  }

  lemma ExportedSplits(raw: string, lead: string, gap: string, line: string)
    requires Blanks(lead) && Blanks(gap) && gap != ""
    requires |raw| >= |lead| + 6 && raw[..|lead|] == lead && raw[|lead|..][..6] == "export"
    requires raw[|lead|..][6..] == gap + line
    ensures raw == lead + (("export" + gap) + line)
  {
    var s := raw[|lead|..];
    assert raw == lead + s;
    assert s == "export" + s[6..];
    Assoc("export", gap, line);
  }

  /** Taking the blanks, `export` and the key from the left finds the two groups of the
      pattern if and only if the line splits that way at all. */
  lemma MatchesExactly(raw: string, key: string, rest: string)
    ensures MatchAssign(raw) == Some((key, rest)) <==> Matches(raw, key, rest)
  {
    if Matches(raw, key, rest) {
      var lead, gap :| SplitsAs(raw, lead, gap, key, rest);
      SpelledMatches(lead, gap, key, rest);
    }
    if MatchAssign(raw) == Some((key, rest)) {
      var s := SkipBlanks(raw);
      var lead := SkippedBlanks(raw);
      if HasPrefix(s, "export") && |s| > 6 && IsBlank(s[6]) {
        var gap := SkippedBlanks(s[6..]);
        MatchedKey(SkipBlanks(s[6..]), key, rest);
        KeyIsNotBlank(key, "=" + rest);
        ExportedSplits(raw, lead, gap, key + ("=" + rest));
        assert SplitsAs(raw, lead, gap, key, rest);
      } else {
        MatchedKey(s, key, rest);
        assert SplitsAs(raw, lead, "", key, rest);
      }
    }
  }

  /** A line assigns a key exactly when it matches with it. */
  lemma AssignsExactly(raw: string, key: string)
    ensures Assigns(ParseLine(raw), key) <==> exists rest :: Matches(raw, key, rest)
    ensures ParseLine(raw).raw == raw
  {
    if Assigns(ParseLine(raw), key) {
      MatchesExactly(raw, key, MatchAssign(raw).value.1);
    }
    if rest :| Matches(raw, key, rest) {
      MatchesExactly(raw, key, rest);
    }
  }

  // ----- Values

  lemma BodyReads(body: string, value: string)
    requires StandsFor(body, value)
    ensures Trimmed(body) && ParseValue(body) == value
  {
    if body == value && Trimmed(value) && !Enclosed(value, '"') && !Enclosed(value, '\'') {
      TrimSpaceTrims(value);
    } else if body == "'" + (value + "'") {
      assert body[1..|body| - 1] == value;
    } else {
      assert body[1..|body| - 1] == value;
      NothingToUnescape(value);
    }
  }

  lemma NothingToUnescape(value: string)
    requires '"' !in value && '\\' !in value
    ensures Unescape(value) == value
  {
    ReplaceAbsent(value, "\\\"", "\"", '\\');
    ReplaceAbsent(value, "\\\\", "\\", '\\');
  }

  lemma {:induction false} ReplaceAbsent(s: string, old_: string, new_: string, c: char)
    requires old_ != "" && old_[0] == c && c !in s
    ensures ReplaceAll(s, old_, new_) == s
  {
    if |s| >= |old_| {
      assert s[..|old_|][0] == s[0] && s[0] in s;
      ReplaceAbsent(s[1..], old_, new_, c);
      assert s == [s[0]] + s[1..];
    }
  }

  /** A spelled line assigns its key the value that is written. */
  lemma SpelledReads(lead: string, gap: string, key: string, pad: string, body: string, tail: string, value: string)
    requires Spacing(lead, gap, pad, tail) && IsKey(key) && StandsFor(body, value)
    ensures var raw := Spelled(lead, gap, key, pad, body, tail); ParseLine(raw) == Assign(raw, key, value)
  {
    BodyReads(body, value);
    SpelledMatches(lead, gap, key, pad + (body + tail));
    PaddingTrimmed(pad, body, tail);
  }

  /** A line that begins, blanks aside, with no letter and no underscore is left alone:
      comments, empty lines, and keys that begin with a digit. */
  lemma OtherLineIsKept(lead: string, rest: string)
    requires Blanks(lead) && (rest == "" || (!IsBlank(rest[0]) && !IsKeyStart(rest[0])))
    ensures ParseLine(lead + rest) == Verbatim(lead + rest)
  {
    BlanksSkipped(lead, rest);
    assert !HasPrefix(rest, "export");
    assert rest != "" && IsKeyChar(rest[0]) ==> KeyRun(rest)[0] == rest[0];
  }

  // ----- The last line counts

  /** `key` and an equals sign stand somewhere in the line. */
  predicate Mentions(line: string, key: string) {
    exists i :: 0 <= i <= |line| && HasPrefix(line[i..], key + "=")
  }

  lemma {:induction false} SkipBlanksIsSuffix(s: string) returns (i: nat)
    ensures i <= |s| && SkipBlanks(s) == s[i..]
  {
    if s != "" && IsBlank(s[0]) {
      i := SkipBlanksIsSuffix(s[1..]);
      assert s[1..][i..] == s[i + 1..];
      i := i + 1;
    } else {
      i := 0;
    }
  }

  lemma MatchMentions(s: string, key: string)
    requires MatchKey(s).Some? && MatchKey(s).value.0 == key
    ensures HasPrefix(s, key + "=")
  {
    KeyRunIsPrefix(s);
    assert s[..|key| + 1] == s[..|key|] + [s[|key|]];
  }

  lemma AssignedIsMentioned(line: string, key: string)
    requires Assigns(ParseLine(line), key)
    ensures Mentions(line, key)
  {
    var i := SkipBlanksIsSuffix(line);
    var s := line[i..];
    if HasPrefix(s, "export") && |s| > 6 && IsBlank(s[6]) {
      var j := SkipBlanksIsSuffix(s[6..]);
      assert s[6..][j..] == line[i + 6 + j..];
      MatchMentions(line[i + 6 + j..], key);
    } else {
      MatchMentions(s, key);
    }
  }

  lemma {:induction false} NothingAssigned(lines: seq<string>, key: string)
    requires forall i :: 0 <= i < |lines| ==> !Mentions(lines[i], key)
    ensures Assigned(ParseLines(lines), key) == []
  {
    if lines != [] {
      if Assigns(ParseLine(lines[0]), key) {
        AssignedIsMentioned(lines[0], key);
      }
      assert ParseLines(lines)[1..] == ParseLines(lines[1..]);
      NothingAssigned(lines[1..], key);
    }
  }

  /** `line` is the last in `lines` to mention `key`. */
  predicate LastMention(lines: seq<string>, at: nat, key: string) {
    at < |lines| && forall i :: at < i < |lines| ==> !Mentions(lines[i], key)
  }

  /** Reading a file by key gives the value written in the last line that spells the key. */
  lemma LastSpelledReads(text: string, at: nat, lead: string, gap: string, key: string, pad: string, body: string,
                         tail: string, value: string)
    requires LastMention(Lines(text), at, key) && Lines(text)[at] == Spelled(lead, gap, key, pad, body, tail)
    requires Spacing(lead, gap, pad, tail) && IsKey(key) && StandsFor(body, value)
    ensures Get(Parse(text), key) == value
  {
    var lines := Lines(text);
    SpelledReads(lead, gap, key, pad, body, tail, value);
    LastAssigned(lines, at, key, value);
  }

  lemma LastAssigned(lines: seq<string>, at: nat, key: string, value: string)
    requires LastMention(lines, at, key) && ParseLine(lines[at]) == Assign(lines[at], key, value)
    ensures Get(ParseLines(lines), key) == value
  {
    var before, after := lines[..at], lines[at + 1..];
    assert ParseLines(lines) == (ParseLines(before) + [ParseLine(lines[at])]) + ParseLines(after);
    NothingAssigned(after, key);
    AssignedAppend(ParseLines(before) + [ParseLine(lines[at])], ParseLines(after), key);
    AssignedAppend(ParseLines(before), [ParseLine(lines[at])], key);
    assert [ParseLine(lines[at])][1..] == [];
  }

  /** A key that no line mentions is not set. */
  lemma UnmentionedIsUnset(text: string, key: string)
    requires forall i :: 0 <= i < |Lines(text)| ==> !Mentions(Lines(text)[i], key)
    ensures Get(Parse(text), key) == ""
  {
    NothingAssigned(Lines(text), key);
  }

  // ----- A node as it was set up by hand

  /** The last line of `text` to mention `key` spells `value`. */
  ghost predicate Says(text: string, key: string, value: string) {
    exists at: nat, lead, gap, pad, body, tail ::
      && LastMention(Lines(text), at, key) && Lines(text)[at] == Spelled(lead, gap, key, pad, body, tail)
      && Spacing(lead, gap, pad, tail) && StandsFor(body, value)
  }

  ghost predicate Silent(text: string, key: string) {
    forall i :: 0 <= i < |Lines(text)| ==> !Mentions(Lines(text)[i], key)
  }

  lemma SaysReads(text: string, key: string, value: string)
    requires IsKey(key) && Says(text, key, value)
    ensures Get(Parse(text), key) == value
  {
    var at: nat, lead, gap, pad, body, tail :|
      && LastMention(Lines(text), at, key) && Lines(text)[at] == Spelled(lead, gap, key, pad, body, tail)
      && Spacing(lead, gap, pad, tail) && StandsFor(body, value);
    LastSpelledReads(text, at, lead, gap, key, pad, body, tail, value);
  }

  /** A node whose primary file spells a user and a password, however they are quoted, and
      mentions neither a secondary file nor the `_FILE` keys, is planned with exactly them,
      to be normalised. */
  lemma LegacyNodeIsPlanned(d: Disk, user: string, pw: string)
    requires PRIMARY in d && DEFAULT_SECONDARY !in d && Storable(user) && Storable(pw)
    requires Says(d[PRIMARY], "MINIO_ROOT_USER", user) && Says(d[PRIMARY], "MINIO_ROOT_PASSWORD", pw)
    requires Silent(d[PRIMARY], "MINIO_CONFIG_ENV_FILE")
    requires Silent(d[PRIMARY], "MINIO_ROOT_USER_FILE") && Silent(d[PRIMARY], "MINIO_ROOT_PASSWORD_FILE")
    ensures CredsOf(d) == Some((user, pw))
    ensures var plan := Plan(d, user);
            plan.Some? && plan.value.user == user && plan.value.password == pw && plan.value.needsNormalization
            && plan.value.secondaryPath == "/etc/minio/config.env"
  {
    KeysAreKeys();
    SaysReads(d[PRIMARY], USER_KEY, user);
    SaysReads(d[PRIMARY], PASSWORD_KEY, pw);
    UnmentionedIsUnset(d[PRIMARY], CONFIG_KEY);
    UnmentionedIsUnset(d[PRIMARY], USER_FILE_KEY);
    UnmentionedIsUnset(d[PRIMARY], PASSWORD_FILE_KEY);
    TrimSpaceTrims("");
    TrimSpaceTrims(user);
    TrimSpaceTrims(pw);
    assert Get([], USER_FILE_KEY) == "" && Get([], PASSWORD_FILE_KEY) == "";
  }
}
