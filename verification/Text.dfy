/** The string functions of Go's `strings` package (and one of JavaScript's)
    that the modelled code calls, on strings of Unicode code points. */
module Text {

  datatype Option<+T> = None | Some(value: T)

  /** Concatenation associates; the verifier is told where. */
  lemma Assoc<T>(a: seq<T>, b: seq<T>, c: seq<T>)
    ensures (a + b) + c == a + (b + c)
  {
  }

  lemma CutAppend<T>(x: seq<T>, y: seq<T>, k: nat)
    requires k <= |x|
    ensures (x + y)[..k] == x[..k] && (x + y)[k..] == x[k..] + y
  {
  }

  lemma SplitLast<T>(s: seq<T>)
    requires s != []
    ensures s == s[..|s| - 1] + [s[|s| - 1]]
  {
  }

  predicate HasPrefix(s: string, p: string) {
    |p| <= |s| && s[..|p|] == p
  }

  predicate HasSuffix(s: string, p: string) {
    |p| <= |s| && s[|s| - |p|..] == p
  }

  /** `unicode.IsSpace`. */
  predicate IsSpace(c: char) {
    || '\t' <= c <= '\r' || c == ' '
    || c == '\U{0085}' || c == '\U{00A0}' || c == '\U{1680}'
    || '\U{2000}' <= c <= '\U{200A}'
    || c == '\U{2028}' || c == '\U{2029}' || c == '\U{202F}' || c == '\U{205F}' || c == '\U{3000}'
  }

  function TrimLeft(s: string): string {
    if s != "" && IsSpace(s[0]) then TrimLeft(s[1..]) else s
  }

  function TrimRight(s: string): string {
    if s != "" && IsSpace(s[|s| - 1]) then TrimRight(s[..|s| - 1]) else s
  }

  lemma {:induction false} TrimLeftIsSuffix(s: string)
    ensures var r := TrimLeft(s);
            HasSuffix(s, r) && (r == "" || !IsSpace(r[0]))
  {
    if s != "" && IsSpace(s[0]) {
      TrimLeftIsSuffix(s[1..]);
      var r := TrimLeft(s[1..]);
      assert s[|s| - |r|..] == s[1..][|s| - 1 - |r|..];
    }
  }

  lemma {:induction false} TrimRightIsPrefix(s: string)
    ensures var r := TrimRight(s);
            HasPrefix(s, r) && (r == "" || !IsSpace(r[|r| - 1]))
  {
    if s != "" && IsSpace(s[|s| - 1]) {
      TrimRightIsPrefix(s[..|s| - 1]);
    }
  }

  /** `strings.TrimSpace`. */
  function TrimSpace(s: string): string {
    TrimRight(TrimLeft(s))
  }

  predicate Trimmed(s: string) {
    s == "" || (!IsSpace(s[0]) && !IsSpace(s[|s| - 1]))
  }

  lemma TrimSpaceTrims(s: string)
    ensures Trimmed(TrimSpace(s))
    ensures Trimmed(s) ==> TrimSpace(s) == s
  {
    var l := TrimLeft(s);
    var r := TrimRight(l);
    TrimLeftIsSuffix(s);
    TrimRightIsPrefix(l);
    if r != "" {
      assert r[0] == l[0];
    }
  }

  lemma {:induction false} TrimSpaceKeepsOut(s: string, c: char)
    requires c !in s
    ensures c !in TrimSpace(s)
  {
    var l := TrimLeft(s);
    var r := TrimRight(l);
    TrimLeftIsSuffix(s);
    TrimRightIsPrefix(l);
    assert forall i :: 0 <= i < |l| ==> l[i] == s[|s| - |l| + i];
    assert forall i :: 0 <= i < |r| ==> r[i] == l[i];
  }

  lemma {:induction false} TrimsToNothing(s: string)
    requires TrimSpace(s) == ""
    ensures forall i :: 0 <= i < |s| ==> IsSpace(s[i])
  {
    if s != "" {
      var l := TrimLeft(s);
      if l != "" {
        TrimLeftIsSuffix(s);
        TrimRightKeepsFirst(l);
        assert false;
      }
      TrimLeftToNothing(s);
    }
  }

  lemma {:induction false} TrimRightKeepsFirst(s: string)
    requires s != "" && !IsSpace(s[0])
    ensures TrimRight(s) != ""
  {
    if IsSpace(s[|s| - 1]) {
      TrimRightKeepsFirst(s[..|s| - 1]);
    }
  }

  lemma {:induction false} TrimLeftToNothing(s: string)
    requires TrimLeft(s) == ""
    ensures forall i :: 0 <= i < |s| ==> IsSpace(s[i])
  {
    if s != "" {
      TrimLeftToNothing(s[1..]);
      assert forall i :: 1 <= i < |s| ==> s[i] == s[1..][i - 1];
    }
  }

  predicate Spaces(s: string) {
    forall i :: 0 <= i < |s| ==> IsSpace(s[i])
  }

  lemma {:induction false} LeftSpacesTrimmed(pad: string, rest: string)
    requires Spaces(pad) && (rest == "" || !IsSpace(rest[0]))
    ensures TrimLeft(pad + rest) == rest
  {
    if pad == "" {
      assert pad + rest == rest;
    } else {
      assert (pad + rest)[1..] == pad[1..] + rest && (pad + rest)[0] == pad[0];
      LeftSpacesTrimmed(pad[1..], rest);
    }
  }

  lemma {:induction false} RightSpacesTrimmed(body: string, tail: string)
    requires Spaces(tail) && (body == "" || !IsSpace(body[|body| - 1]))
    ensures TrimRight(body + tail) == body
  {
    if tail == "" {
      assert body + tail == body;
    } else {
      var front := tail[..|tail| - 1];
      assert (body + tail)[..|body + tail| - 1] == body + front && (body + tail)[|body + tail| - 1] == tail[|tail| - 1];
      RightSpacesTrimmed(body, front);
    }
  }

  lemma PaddingTrimmed(pad: string, body: string, tail: string)
    requires Spaces(pad) && Spaces(tail) && Trimmed(body)
    ensures TrimSpace(pad + (body + tail)) == body
  {
    if body == "" {
      assert pad + (body + tail) == (pad + tail) + "";
      LeftSpacesTrimmed(pad + tail, "");
    } else {
      assert (body + tail)[0] == body[0];
      LeftSpacesTrimmed(pad, body + tail);
      RightSpacesTrimmed(body, tail);
    }
  }

  /** `strings.Split` on a one-character separator. */
  function Split(s: string, sep: char): (parts: seq<string>)
    ensures |parts| > 0
  {
    if s == "" then [""]
    else
      var rest := Split(s[1..], sep);
      if s[0] == sep then [""] + rest else [[s[0]] + rest[0]] + rest[1..]
  }

  lemma {:induction false} SplitCons(a: string, sep: char, b: string)
    requires sep !in a
    ensures Split(a + [sep] + b, sep) == [a] + Split(b, sep)
  {
    var s := a + [sep] + b;
    if a == "" {
      assert s == [sep] + b && s[1..] == b;
    } else {
      assert s[1..] == a[1..] + [sep] + b && s[0] == a[0] != sep;
      assert a == [a[0]] + a[1..];
      SplitCons(a[1..], sep, b);
    }
  }

  lemma {:induction false} SplitNone(s: string, sep: char)
    requires sep !in s
    ensures Split(s, sep) == [s]
  {
    if s != "" {
      SplitNone(s[1..], sep);
      assert s == [s[0]] + s[1..];
    }
  }

  lemma {:induction false} SplitChars(s: string, sep: char, p: string, c: char)
    requires p in Split(s, sep) && c in p
    ensures c in s
  {
    if s != "" {
      var rest := Split(s[1..], sep);
      if p in rest {
        SplitChars(s[1..], sep, p, c);
      } else if s[0] != sep && c != s[0] {
        assert p == [s[0]] + rest[0];
        SplitChars(s[1..], sep, rest[0], c);
      }
    }
  }

  /** `strings.Join`. */
  function Join(parts: seq<string>, sep: string): string {
    if parts == [] then ""
    else if |parts| == 1 then parts[0]
    else parts[0] + sep + Join(parts[1..], sep)
  }

  lemma {:induction false} JoinSplit(s: string, sep: char)
    ensures Join(Split(s, sep), [sep]) == s
    ensures forall p :: p in Split(s, sep) ==> sep !in p
  {
    if s != "" {
      JoinSplit(s[1..], sep);
      var rest := Split(s[1..], sep);
      if s[0] != sep && |rest| > 1 {
        assert ([[s[0]] + rest[0]] + rest[1..])[1..] == rest[1..];
      }
    }
  }

  /** `strings.ReplaceAll` with a non-empty pattern. */
  function ReplaceAll(s: string, old_: string, new_: string): string
    requires old_ != ""
  {
    if |s| < |old_| then s
    else if s[..|old_|] == old_ then new_ + ReplaceAll(s[|old_|..], old_, new_)
    else [s[0]] + ReplaceAll(s[1..], old_, new_)
  }

  /** Every line followed by a newline. */
  function Unlines(lines: seq<string>): string {
    if lines == [] then "" else lines[0] + "\n" + Unlines(lines[1..])
  }

  lemma {:induction false} SplitUnlines(lines: seq<string>)
    requires forall l :: l in lines ==> '\n' !in l
    ensures Split(Unlines(lines), '\n') == lines + [""]
  {
    if lines == [] {
    } else {
      assert lines[0] + "\n" + Unlines(lines[1..]) == lines[0] + ['\n'] + Unlines(lines[1..]);
      SplitCons(lines[0], '\n', Unlines(lines[1..]));
      SplitUnlines(lines[1..]);
      assert lines == [lines[0]] + lines[1..];
    }
  }

  lemma {:induction false} UnlinesAppend(a: seq<string>, b: seq<string>)
    ensures Unlines(a + b) == Unlines(a) + Unlines(b)
  {
    if a == [] {
      assert a + b == b;
    } else {
      assert (a + b)[1..] == a[1..] + b;
      UnlinesAppend(a[1..], b);
    }
  }

  lemma {:induction false} UnlinesJoin(lines: seq<string>)
    requires lines != []
    ensures Unlines(lines) == Join(lines, "\n") + "\n"
  {
    if |lines| > 1 {
      UnlinesJoin(lines[1..]);
    }
  }

  /** The text with a final newline added when it has none; the empty text stays empty. */
  function WithFinalNewline(t: string): string {
    if t == "" || t[|t| - 1] == '\n' then t else t + "\n"
  }

  /** The lines of a text, without the empty piece after a final newline. */
  function Lines(t: string): seq<string> {
    var parts := Split(t, '\n');
    if parts[|parts| - 1] == "" then parts[..|parts| - 1] else parts
  }

  lemma {:induction false} LastOfSplit(t: string)
    ensures var parts := Split(t, '\n');
            parts[|parts| - 1] == "" <==> t == "" || t[|t| - 1] == '\n'
  {
    if t != "" {
      LastOfSplit(t[1..]);
    }
  }

  lemma SameBeforeNewline(u: string, t: string)
    requires u + "\n" == t + "\n"
    ensures u == t
  {
    assert u == (u + "\n")[..|u|] && t == (t + "\n")[..|t|];
  }

  /** Dropping a last empty piece drops one newline. */
  lemma UnlinesFront(front: seq<string>)
    ensures Unlines(front + [""]) == Unlines(front) + "\n"
  {
    UnlinesAppend(front, [""]);
    assert Unlines([""]) == "\n" by {
      assert [""][1..] == [];
    }
  }

  lemma {:induction false} UnlinesLines(t: string)
    ensures Unlines(Lines(t)) == WithFinalNewline(t)
    ensures forall l :: l in Lines(t) ==> '\n' !in l
  {
    var parts := Split(t, '\n');
    assert Unlines(parts) == t + "\n" by {
      UnlinesJoin(parts);
      JoinSplit(t, '\n');
    }
    LastOfSplit(t);
    if parts[|parts| - 1] == "" {
      var front := parts[..|parts| - 1];
      assert parts == front + [""];
      UnlinesFront(front);
      SameBeforeNewline(Unlines(front), t);
    }
    JoinSplit(t, '\n');
  }

  lemma LinesUnlines(lines: seq<string>)
    requires forall l :: l in lines ==> '\n' !in l
    ensures Lines(Unlines(lines)) == lines
  {
    SplitUnlines(lines);
  }
}
