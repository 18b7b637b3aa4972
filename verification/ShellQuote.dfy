/** `sudoBash` and `shellQuote` (internal/operations/orchestrated.go:1465-1489) against the
    quoting rules of the POSIX shell (section 2.2 of XCU Shell Command Language). */
module ShellQuote {
  import opened Text

  // ----- The shell's side: a command line of words

  predicate Blank(c: char) {
    c == ' ' || c == '\t'
  }

  /** Characters this lexer does not take unquoted, besides quotes and blanks: operators,
      expansions, comments and newline. */
  predicate Special(c: char) {
    c in {'\n', '|', '&', ';', '<', '>', '(', ')', '$', '`', '"', '*', '?', '[', '#', '~', '=', '%', '{', '}', '!'}
  }

  /** The words read so far, and the one being read, if any. */
  datatype Reading = Reading(words: seq<string>, current: Option<string>)
  {
    function Add(c: char): Reading {
      Reading(words, Some((if current.Some? then current.value else "") + [c]))
    }

    function Extend(s: string): Reading {
      Reading(words, Some((if current.Some? then current.value else "") + s))
    }

    function Open(): Reading {
      Reading(words, Some(if current.Some? then current.value else ""))
    }

    function Close(): Reading {
      if current.Some? then Reading(words + [current.value], None) else this
    }
  }

  /** Sections 2.2.1 and 2.2.2: a backslash outside quotes keeps the next character, single
      quotes keep everything up to the next one. `None` when a quote is left open or a
      character is special. */
  function Lex(s: string, r: Reading, quoted: bool): Option<seq<string>> {
    if s == "" then (if quoted then None else Some(r.Close().words))
    else if quoted then (if s[0] == '\'' then Lex(s[1..], r, false) else Lex(s[1..], r.Add(s[0]), true))
    else if s[0] == '\'' then Lex(s[1..], r.Open(), true)
    else if s[0] == '\\' then (if |s| == 1 || s[1] == '\n' then None else Lex(s[2..], r.Add(s[1]), false))
    else if Blank(s[0]) then Lex(s[1..], r.Close(), false)
    else if Special(s[0]) then None
    else Lex(s[1..], r.Add(s[0]), false)
  }

  function Words(line: string): Option<seq<string>> {
    Lex(line, Reading([], None), false)
  }

  // ----- The program's side

  const QUOTED_QUOTE := "'\\''"

  function ReplaceSingleQuotes(s: string): string {
    if s == "" then "" else (if s[0] == '\'' then QUOTED_QUOTE else [s[0]]) + ReplaceSingleQuotes(s[1..])
  }

  method ReplaceQuotes(s: string) returns (out: string)
    ensures out == ReplaceSingleQuotes(s)
  {
    out := "";
    for i := 0 to |s|
      invariant out + ReplaceSingleQuotes(s[i..]) == ReplaceSingleQuotes(s)
    {
      assert s[i..][1..] == s[i + 1..];
      var piece := if s[i] == '\'' then QUOTED_QUOTE else [s[i]];
      Assoc(out, piece, ReplaceSingleQuotes(s[i + 1..]));
      out := out + piece;
    }
  }

  function ShellQuoted(s: string): string {
    if s == "" then "''" else "'" + (ReplaceSingleQuotes(s) + "'")
  }

  const SUDO := "sudo -n bash -c "

  function SudoBash(user: string, cmd: string): string {
    if user == "root" then cmd else SUDO + ShellQuoted(cmd)
  }

  // ----- Quoting is undone by the shell

  lemma {:induction false} LexQuotedBody(s: string, rest: string, r: Reading)
    requires r.current.Some?
    ensures Lex(ReplaceSingleQuotes(s) + ("'" + rest), r, true) ==
            Lex(rest, Reading(r.words, Some(r.current.value + s)), false)
  {
    var tail := "'" + rest;
    if s == "" {
      assert ReplaceSingleQuotes(s) + tail == tail && tail[1..] == rest;
      assert r.current.value + s == r.current.value;
    } else {
      var more := ReplaceSingleQuotes(s[1..]) + tail;
      var r' := Reading(r.words, Some(r.current.value + [s[0]]));
      LexQuotedBody(s[1..], rest, r');
      Assoc(r.current.value, [s[0]], s[1..]);
      assert [s[0]] + s[1..] == s;
      if s[0] == '\'' {
        Assoc(QUOTED_QUOTE, ReplaceSingleQuotes(s[1..]), tail);
        LexEscapedQuote(more, r);
      } else {
        Assoc([s[0]], ReplaceSingleQuotes(s[1..]), tail);
        assert ([s[0]] + more)[1..] == more;
      }
    }
  }

  lemma LexClosing(rest: string, r: Reading)
    ensures Lex("'" + rest, r, true) == Lex(rest, r, false)
  {
    assert ("'" + rest)[1..] == rest;
  }

  lemma LexOpening(rest: string, r: Reading)
    ensures Lex("'" + rest, r, false) == Lex(rest, r.Open(), true)
  {
    assert ("'" + rest)[1..] == rest;
  }

  lemma LexEscape(c: char, rest: string, r: Reading)
    requires c != '\n'
    ensures Lex(['\\', c] + rest, r, false) == Lex(rest, r.Add(c), false)
  {
    assert (['\\', c] + rest)[2..] == rest;
  }

  /** Leaving the quotes, an escaped quote, entering the quotes again. */
  lemma LexEscapedQuote(more: string, r: Reading)
    requires r.current.Some?
    ensures Lex(QUOTED_QUOTE + more, r, true) == Lex(more, Reading(r.words, Some(r.current.value + "'")), true)
  {
    QuotedQuoteSplits(more);
    LexClosing(['\\', '\''] + ("'" + more), r);
    LexEscape('\'', "'" + more, r);
    LexOpening(more, r.Add('\''));
  }

  lemma QuotedQuoteSplits(more: string)
    ensures QUOTED_QUOTE + more == "'" + (['\\', '\''] + ("'" + more))
  {
  }

  /** Wherever a quoted string stands on a line, it is one word or the end of one, and
      means exactly the string. */
  lemma LexQuoted(s: string, rest: string, r: Reading)
    ensures Lex(ShellQuoted(s) + rest, r, false) ==
            Lex(rest, r.Extend(s), false)
  {
    var body := ReplaceSingleQuotes(s);
    var line := ShellQuoted(s) + rest;
    assert line[0] == '\'';
    assert line[1..] == body + ("'" + rest) by {
      if s == "" {
        assert line == "'" + ("'" + rest) && body + ("'" + rest) == "'" + rest;
      } else {
        Assoc("'", body + "'", rest);
        Assoc(body, "'", rest);
      }
    }
    LexQuotedBody(s, rest, r.Open());
  }

  function QuotedLine(args: seq<string>): string {
    if args == [] then ""
    else if |args| == 1 then ShellQuoted(args[0])
    else ShellQuoted(args[0]) + (" " + QuotedLine(args[1..]))
  }

  lemma {:induction false} LexQuotedLine(args: seq<string>, words: seq<string>)
    ensures Lex(QuotedLine(args), Reading(words, None), false) == Some(words + args)
  {
    if args == [] {
      assert words + args == words;
    } else {
      var first := args[0];
      assert "" + first == first;
      if |args| == 1 {
        assert ShellQuoted(first) + "" == ShellQuoted(first);
        LexQuoted(first, "", Reading(words, None));
        assert words + [first] == words + args;
      } else {
        var rest := QuotedLine(args[1..]);
        LexQuoted(first, " " + rest, Reading(words, None));
        assert (" " + rest)[1..] == rest;
        LexQuotedLine(args[1..], words + [first]);
        assert [first] + args[1..] == args;
        Assoc(words, [first], args[1..]);
      }
    }
  }

  /** A line of quoted words is split by the shell into exactly those words, whatever
      characters they hold. */
  lemma QuotedLineReads(args: seq<string>)
    ensures Words(QuotedLine(args)) == Some(args)
  {
    LexQuotedLine(args, []);
    assert [] + args == args;
  }

  lemma {:induction false} LexPlainWord(w: string, rest: string, r: Reading)
    requires forall i :: 0 <= i < |w| ==> !Blank(w[i]) && !Special(w[i]) && w[i] != '\'' && w[i] != '\\'
    ensures Lex(w + (" " + rest), r, false) ==
            Lex(rest, (if w == "" then r else r.Extend(w)).Close(), false)
  {
    var tail := " " + rest;
    if w == "" {
      assert w + tail == tail && tail[1..] == rest;
    } else {
      assert (w + tail)[1..] == w[1..] + tail;
      LexPlainWord(w[1..], rest, r.Add(w[0]));
      var before := if r.current.Some? then r.current.value else "";
      Assoc(before, [w[0]], w[1..]);
      assert [w[0]] + w[1..] == w;
      if w[1..] == "" {
        assert before + [w[0]] == before + w;
      }
    }
  }

  lemma LexSudo(rest: string)
    ensures Words(SUDO + rest) == Lex(rest, Reading(["sudo", "-n", "bash", "-c"], None), false)
  {
    SudoSplits(rest);
    LexWord("sudo", "-n" + (" " + ("bash" + (" " + ("-c" + (" " + rest))))), []);
    LexWord("-n", "bash" + (" " + ("-c" + (" " + rest))), ["sudo"]);
    LexWord("bash", "-c" + (" " + rest), ["sudo", "-n"]);
    LexWord("-c", rest, ["sudo", "-n", "bash"]);
    SudoWords();
  }

  lemma SudoWords()
    ensures [] + ["sudo"] == ["sudo"] && ["sudo"] + ["-n"] == ["sudo", "-n"]
    ensures ["sudo", "-n"] + ["bash"] == ["sudo", "-n", "bash"]
    ensures ["sudo", "-n", "bash"] + ["-c"] == ["sudo", "-n", "bash", "-c"]
  {
  }

  lemma SudoSplits(rest: string)
    ensures SUDO + rest == "sudo" + (" " + ("-n" + (" " + ("bash" + (" " + ("-c" + (" " + rest)))))))
  {
  }

  lemma LexWord(w: string, rest: string, words: seq<string>)
    requires w != "" && forall i :: 0 <= i < |w| ==> !Blank(w[i]) && !Special(w[i]) && w[i] != '\'' && w[i] != '\\'
    ensures Lex(w + (" " + rest), Reading(words, None), false) == Lex(rest, Reading(words + [w], None), false)
  {
    LexPlainWord(w, rest, Reading(words, None));
    assert "" + w == w;
  }

  /** Through sudo the inner shell gets the command as one word, unchanged; so a command
      line of quoted words reaches it as those words, two levels down. */
  lemma SudoBashNests(user: string, args: seq<string>)
    requires user != "root"
    ensures Words(SudoBash(user, QuotedLine(args))) == Some(["sudo", "-n", "bash", "-c", QuotedLine(args)])
    ensures Words(QuotedLine(args)) == Some(args)
  {
    SudoBashPasses(user, QuotedLine(args));
    QuotedLineReads(args);
  }

  lemma SudoBashPasses(user: string, cmd: string)
    requires user != "root"
    ensures Words(SudoBash(user, cmd)) == Some(["sudo", "-n", "bash", "-c", cmd])
  {
    var line := ["sudo", "-n", "bash", "-c"];
    LexSudo(ShellQuoted(cmd));
    assert ShellQuoted(cmd) + "" == ShellQuoted(cmd);
    LexQuoted(cmd, "", Reading(line, None));
    assert "" + cmd == cmd && line + [cmd] == ["sudo", "-n", "bash", "-c", cmd];
  }
}
