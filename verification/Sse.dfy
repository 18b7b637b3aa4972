/** The event stream between server and browser: `writeSSE` and `streamOperation` of
    internal/api/sse.go, and the chunked parser of web/src/api/sse.ts. */
module Sse {
  import opened Text
  import opened Decimal

  datatype SseFrame = SseFrame(id: Option<string>, event: Option<string>, data: string)

  // ----- The parser

  /** `replace(/\r\n/g, "\n")`. */
  function Normalize(s: string): string {
    if |s| < 2 then s
    else if s[0] == '\r' && s[1] == '\n' then "\n" + Normalize(s[2..])
    else [s[0]] + Normalize(s[1..])
  }

  /** `indexOf("\n\n")`. */
  function BlankLine(s: string): int {
    if |s| < 2 then -1
    else if s[0] == '\n' && s[1] == '\n' then 0
    else
      var i := BlankLine(s[1..]);
      if i < 0 then -1 else i + 1
  }

  lemma {:induction false} BlankLineBounds(s: string)
    ensures -1 <= BlankLine(s) <= |s| - 2 || BlankLine(s) == -1
    ensures BlankLine(s) >= 0 ==> s[BlankLine(s)] == '\n' && s[BlankLine(s) + 1] == '\n'
  {
    if |s| >= 2 {
      BlankLineBounds(s[1..]);
    }
  }

  /** `indexOf(":")`. */
  function Colon(line: string): int {
    if line == "" then -1
    else if line[0] == ':' then 0
    else
      var i := Colon(line[1..]);
      if i < 0 then -1 else i + 1
  }

  lemma {:induction false} ColonBounds(line: string)
    ensures -1 <= Colon(line) < |line|
    ensures forall i :: 0 <= i < Colon(line) ==> line[i] != ':'
  {
    if line != "" {
      ColonBounds(line[1..]);
    }
  }

  datatype Fields = Fields(id: Option<string>, event: Option<string>, dataLines: seq<string>)

  const NO_FIELDS := Fields(None, None, [])

  /** One line of a block: the body of the loop in `parseFrame`. */
  function ParseLine(f: Fields, line: string): Fields {
    if line == "" || line[0] == ':' then f
    else
      ColonBounds(line);
      var colon := Colon(line);
      var field := if colon >= 0 then line[..colon] else line;
      var value := if colon >= 0 then line[colon + 1..] else "";
      var v := if value != "" && value[0] == ' ' then value[1..] else value;
      if field == "id" then f.(id := Some(v))
      else if field == "event" then f.(event := Some(v))
      else if field == "data" then f.(dataLines := f.dataLines + [v])
      else f
  }

  lemma {:induction false} ColonAfter(name: string, rest: string)
    requires ':' !in name
    ensures Colon(name + ":" + rest) == |name|
  {
    if name == "" {
      assert name + ":" + rest == ":" + rest;
    } else {
      assert (name + ":" + rest)[1..] == name[1..] + ":" + rest;
      ColonAfter(name[1..], rest);
    }
  }

  lemma {:induction false} NoColon(line: string)
    requires ':' !in line
    ensures Colon(line) == -1
  {
    if line != "" {
      NoColon(line[1..]);
    }
  }

  /** Every way to write a field: with a colon, with a colon and a blank that does not belong
      to the value, or by its name alone when the value is empty. Fields of other names are
      ignored. */
  lemma LineReads(f: Fields, name: string, sep: string, value: string)
    requires name != "" && ':' !in name
    requires sep == ": " || (sep == ":" && (value == "" || value[0] != ' ')) || (sep == "" && value == "")
    ensures ParseLine(f, name + sep + value) ==
            if name == "id" then Fields(Some(value), f.event, f.dataLines)
            else if name == "event" then Fields(f.id, Some(value), f.dataLines)
            else if name == "data" then Fields(f.id, f.event, f.dataLines + [value])
            else f
  {
    var line := name + sep + value;
    if sep == "" {
      assert line == name;
      NoColon(name);
    } else {
      var rest := sep[1..] + value;
      assert line == name + ":" + rest;
      ColonAfter(name, rest);
      assert line[..|name|] == name && line[|name| + 1..] == rest;
      assert rest == value || (rest[0] == ' ' && rest[1..] == value);
    }
  }

  function ParseLines(f: Fields, lines: seq<string>): Fields
    decreases lines
  {
    if lines == [] then f else ParseLines(ParseLine(f, lines[0]), lines[1..])
  }

  function Finish(f: Fields): Option<SseFrame> {
    if f.dataLines == [] then None else Some(SseFrame(f.id, f.event, Join(f.dataLines, "\n")))
  }

  function FrameOf(raw: string): Option<SseFrame> {
    Finish(ParseLines(NO_FIELDS, Split(raw, '\n')))
  }

  function AsSeq(f: Option<SseFrame>): seq<SseFrame> {
    if f.Some? then [f.value] else []
  }

  /** The frames of the complete blocks at the front of `buf`. */
  function Frames(buf: string): seq<SseFrame>
    decreases |buf|
  {
    BlankLineBounds(buf);
    var i := BlankLine(buf);
    if i < 0 then [] else AsSeq(FrameOf(buf[..i])) + Frames(buf[i + 2..])
  }

  /** What is left of `buf` when no complete block remains. */
  function Rest(buf: string): string
    decreases |buf|
  {
    BlankLineBounds(buf);
    var i := BlankLine(buf);
    if i < 0 then buf else Rest(buf[i + 2..])
  }

  /** The frames yielded for the chunks still to come, with `buf` held back so far. */
  function Feed(buf: string, chunks: seq<string>): seq<SseFrame>
    decreases chunks
  {
    if chunks == [] then []
    else
      var text := Normalize(buf + chunks[0]);
      Frames(text) + Feed(Rest(text), chunks[1..])
  }

  method ParseFrame(raw: string) returns (frame: Option<SseFrame>)
    ensures frame == FrameOf(raw)
  {
    var lines := Split(raw, '\n');
    var f := NO_FIELDS;
    for i := 0 to |lines|
      invariant ParseLines(f, lines[i..]) == ParseLines(NO_FIELDS, lines)
    {
      assert lines[i..][1..] == lines[i + 1..];
      f := ParseLine(f, lines[i]);
    }
    frame := Finish(f);
  }

  lemma Yielded(frames: seq<SseFrame>, frame: Option<SseFrame>, later: seq<SseFrame>)
    ensures frames + (AsSeq(frame) + later) == (if frame.Some? then frames + [frame.value] else frames) + later
  {
  }

  /** The inner loop of `sseStream`, which takes the complete blocks off the buffer. */
  method TakeBlocks(buf: string) returns (frames: seq<SseFrame>, rest: string)
    ensures frames == Frames(buf) && rest == Rest(buf)
  {
    frames, rest := [], buf;
    var idx := BlankLine(rest);
    while idx >= 0
      invariant idx == BlankLine(rest)
      invariant frames + Frames(rest) == Frames(buf) && Rest(rest) == Rest(buf)
      decreases |rest|
    {
      BlankLineBounds(rest);
      var raw := rest[..idx];
      ghost var later := Frames(rest[idx + 2..]);
      rest := rest[idx + 2..];
      var frame := ParseFrame(raw);
      Yielded(frames, frame, later);
      if frame.Some? {
        frames := frames + [frame.value];
      }
      idx := BlankLine(rest);
    }
  }

  /** `sseStream`: the read loop over the chunks. */
  method SseStream(chunks: seq<string>) returns (frames: seq<SseFrame>)
    ensures frames == Feed("", chunks)
  {
    frames := [];
    var buf := "";
    for i := 0 to |chunks|
      invariant frames + Feed(buf, chunks[i..]) == Feed("", chunks)
    {
      FeedUnfolds(frames, buf, chunks[i..]);
      assert chunks[i..][1..] == chunks[i + 1..];
      var blocks;
      blocks, buf := TakeBlocks(Normalize(buf + chunks[i]));
      frames := frames + blocks;
    }
  }

  // ----- Chunking does not matter

  function Concat(parts: seq<string>): string {
    if parts == [] then "" else parts[0] + Concat(parts[1..])
  }

  /** No carriage return is followed by a CR LF pair. */
  predicate NoCrCrLf(s: string) {
    |s| < 3 || (!(s[0] == '\r' && s[1] == '\r' && s[2] == '\n') && NoCrCrLf(s[1..]))
  }

  lemma {:induction false} NoCrCrLfPrefix(a: string, b: string)
    requires NoCrCrLf(a + b)
    ensures NoCrCrLf(a)
  {
    if |a| >= 3 {
      assert (a + b)[1..] == a[1..] + b;
      NoCrCrLfPrefix(a[1..], b);
    }
  }

  /** No CR LF pair at all. */
  predicate NoCrLf(s: string) {
    |s| < 2 || (!(s[0] == '\r' && s[1] == '\n') && NoCrLf(s[1..]))
  }

  lemma {:induction false} NoCrLfPrefix(a: string, b: string)
    requires NoCrLf(a + b)
    ensures NoCrLf(a)
  {
    if |a| >= 2 {
      assert (a + b)[1..] == a[1..] + b;
      NoCrLfPrefix(a[1..], b);
    }
  }

  lemma {:induction false} NormalizeCons(c: char, s: string)
    requires c != '\r' || s == "" || s[0] != '\n'
    ensures Normalize([c] + s) == [c] + Normalize(s)
  {
    assert ([c] + s)[1..] == s;
  }

  lemma NormalizePair(s: string)
    ensures Normalize("\r\n" + s) == "\n" + Normalize(s)
  {
    assert ("\r\n" + s)[2..] == s;
  }

  lemma TwicePair(r: string, b: string)
    requires Normalize(r + b) == Normalize(Normalize(r) + b)
    ensures Normalize("\r\n" + (r + b)) == Normalize(Normalize("\r\n" + r) + b)
  {
    NormalizePair(r);
    NormalizePair(r + b);
    NormalizeCons('\n', Normalize(r) + b);
    assert Normalize("\r\n" + r) + b == ['\n'] + (Normalize(r) + b);
  }

  lemma TwiceCons(c: char, r: string, b: string)
    requires Normalize(r + b) == Normalize(Normalize(r) + b)
    requires r != "" && (c != '\r' || (r[0] != '\n' && Normalize(r)[0] != '\n'))
    ensures Normalize([c] + (r + b)) == Normalize(Normalize([c] + r) + b)
  {
    NormalizeFirst(r);
    NormalizeCons(c, r);
    NormalizeCons(c, r + b);
    NormalizeCons(c, Normalize(r) + b);
    assert Normalize([c] + r) + b == [c] + (Normalize(r) + b);
  }

  /** Normalising a prefix first changes nothing. */
  lemma {:induction false} NormalizeTwice(a: string, b: string)
    requires NoCrCrLf(a + b)
    ensures Normalize(a + b) == Normalize(Normalize(a) + b)
  {
    if |a| >= 2 {
      var t := a + b;
      if a[0] == '\r' && a[1] == '\n' {
        var r := a[2..];
        assert a == "\r\n" + r && t == "\r\n" + (r + b) && t[1..][1..] == r + b;
        NormalizeTwice(r, b);
        TwicePair(r, b);
      } else {
        var r := a[1..];
        assert a == [a[0]] + r && t == [a[0]] + (r + b) && t[1..] == r + b;
        NormalizeTwice(r, b);
        NormalizeFirst(r);
        assert |a| > 2 ==> t[2] == a[2];
        TwiceCons(a[0], r, b);
      }
    }
  }

  lemma NormalizeFirst(s: string)
    requires s != ""
    ensures Normalize(s) != ""
    ensures Normalize(s)[0] == '\n' <==> s[0] == '\n' || (|s| > 1 && s[0] == '\r' && s[1] == '\n')
  {
  }

  /** Text without CR LF is left alone. */
  lemma {:induction false} NormalizeFixed(s: string)
    requires NoCrLf(s)
    ensures Normalize(s) == s
  {
    if |s| >= 2 {
      NormalizeFixed(s[1..]);
      assert s == [s[0]] + s[1..];
    }
  }

  lemma {:induction false} NormalizeHasNoCrLf(s: string)
    requires NoCrCrLf(s)
    ensures NoCrLf(Normalize(s))
  {
    if |s| >= 2 {
      if s[0] == '\r' && s[1] == '\n' {
        var m := Normalize(s[2..]);
        NormalizeHasNoCrLf(s[2..]);
        assert Normalize(s) == ['\n'] + m && (['\n'] + m)[1..] == m;
      } else {
        var m := Normalize(s[1..]);
        NormalizeHasNoCrLf(s[1..]);
        NormalizeFirst(s[1..]);
        assert Normalize(s) == [s[0]] + m && ([s[0]] + m)[1..] == m;
      }
    }
  }

  lemma {:induction false} BlankLinePrefix(x: string, y: string)
    requires BlankLine(x) >= 0
    ensures BlankLine(x + y) == BlankLine(x)
  {
    if !(x[0] == '\n' && x[1] == '\n') {
      assert (x + y)[1..] == x[1..] + y;
      BlankLinePrefix(x[1..], y);
    }
  }

  /** Draining a text and then what is left with more text drains the whole. */
  lemma {:induction false} DrainAppend(x: string, y: string)
    ensures Frames(x + y) == Frames(x) + Frames(Rest(x) + y)
    ensures Rest(x + y) == Rest(Rest(x) + y)
    decreases |x|
  {
    var i := BlankLine(x);
    if i >= 0 {
      BlankLineBounds(x);
      BlankLinePrefix(x, y);
      CutAppend(x, y, i);
      CutAppend(x, y, i + 2);
      DrainAppend(x[i + 2..], y);
      Assoc(AsSeq(FrameOf(x[..i])), Frames(x[i + 2..]), Frames(Rest(x[i + 2..]) + y));
    }
  }

  /** The part of the text that is drained. */
  function Drained(x: string): string
    decreases |x|
  {
    BlankLineBounds(x);
    var i := BlankLine(x);
    if i < 0 then "" else x[..i + 2] + Drained(x[i + 2..])
  }

  /** What is drained ends with a line feed, or nothing is. */
  lemma {:induction false} DrainSuffix(x: string)
    ensures x == Drained(x) + Rest(x)
    ensures Drained(x) == "" || Drained(x)[|Drained(x)| - 1] == '\n'
    ensures Frames(Drained(x)) == Frames(x) && Rest(Drained(x)) == ""
    decreases |x|
  {
    var i := BlankLine(x);
    if i >= 0 {
      BlankLineBounds(x);
      var head, t := x[..i + 2], x[i + 2..];
      DrainSuffix(t);
      assert x == head + t;
      DrainBlock(x, i, Drained(t));
    }
  }

  lemma DrainBlock(x: string, i: nat, q: string)
    requires BlankLine(x) == i && i + 2 <= |x|
    ensures Frames(x[..i + 2] + q) == AsSeq(FrameOf(x[..i])) + Frames(q)
    ensures Rest(x[..i + 2] + q) == Rest(q)
  {
    var head := x[..i + 2];
    BlankLineFirst(x, i);
    BlankLinePrefix(head, q);
    CutAppend(head, q, i);
    CutAppend(head, q, i + 2);
    assert head[..i] == x[..i];
  }

  lemma {:induction false} BlankLineFirst(x: string, i: nat)
    requires BlankLine(x) == i && i + 2 <= |x|
    ensures BlankLine(x[..i + 2]) == i
  {
    if i > 0 {
      assert x[..i + 2][1..] == x[1..][..i + 1];
      BlankLineFirst(x[1..], i - 1);
    }
  }

  lemma {:induction false} NormalizeSplit(p: string, q: string)
    requires p == "" || p[|p| - 1] == '\n'
    ensures Normalize(p + q) == Normalize(p) + Normalize(q)
  {
    if p == "" {
      assert p + q == q && Normalize(p) == "";
    } else if |p| == 1 {
      NormalizeCons(p[0], q);
      assert p == [p[0]];
    } else {
      var k := if p[0] == '\r' && p[1] == '\n' then 2 else 1;
      assert (p + q)[k..] == p[k..] + q;
      NormalizeSplit(p[k..], q);
    }
  }

  lemma FeedNormalized(n: string, c: string)
    requires NoCrLf(n)
    ensures Frames(Normalize(n + c)) == Frames(n) + Frames(Normalize(Rest(n) + c))
    ensures Rest(Normalize(n + c)) == Rest(Normalize(Rest(n) + c))
  {
    var p, m := Drained(n), Normalize(Rest(n) + c);
    NormalizedDrained(n, c);
    DrainSuffix(n);
    DrainAppend(p, m);
    assert "" + m == m;
  }

  lemma NormalizedDrained(n: string, c: string)
    requires NoCrLf(n)
    ensures Normalize(n + c) == Drained(n) + Normalize(Rest(n) + c)
  {
    var held, p := Rest(n), Drained(n);
    DrainSuffix(n);
    NoCrLfPrefix(p, held);
    NormalizeFixed(p);
    Assoc(p, held, c);
    NormalizeSplit(p, held + c);
  }

  /** One more chunk: feeding it to the held-back buffer continues the drained text. */
  lemma FeedStep(a: string, c: string)
    requires NoCrCrLf(a + c)
    ensures var held := Rest(Normalize(a));
            && Frames(Normalize(a + c)) == Frames(Normalize(a)) + Frames(Normalize(held + c))
            && Rest(Normalize(a + c)) == Rest(Normalize(held + c))
  {
    NoCrCrLfPrefix(a, c);
    NormalizeHasNoCrLf(a);
    NormalizeTwice(a, c);
    FeedNormalized(Normalize(a), c);
  }

  lemma FeedUnfolds(frames: seq<SseFrame>, held: string, chunks: seq<string>)
    requires chunks != []
    ensures var text := Normalize(held + chunks[0]);
            frames + Feed(held, chunks) == (frames + Frames(text)) + Feed(Rest(text), chunks[1..])
  {
    var text := Normalize(held + chunks[0]);
    Assoc(frames, Frames(text), Feed(Rest(text), chunks[1..]));
  }

  /** After the chunks that make up `a`, the others continue it. */
  lemma {:induction false} FeedContinues(a: string, all: string, frames: seq<SseFrame>, held: string,
                                         chunks: seq<string>)
    requires NoCrCrLf(all) && all == a + Concat(chunks)
    requires frames == Frames(Normalize(a)) && held == Rest(Normalize(a))
    ensures frames + Feed(held, chunks) == Frames(Normalize(all))
    decreases chunks
  {
    if chunks == [] {
      assert all == a;
    } else {
      var c, cs := chunks[0], chunks[1..];
      var next := a + c;
      assert all == next + Concat(cs);
      NoCrCrLfPrefix(next, Concat(cs));
      FeedStep(a, c);
      FeedUnfolds(frames, held, chunks);
      FeedContinues(next, all, frames + Frames(Normalize(held + c)), Rest(Normalize(held + c)), cs);
    }
  }

  /** However the text is cut into chunks, the frames are those of the whole text. */
  lemma ChunkingIndependent(chunks: seq<string>)
    requires NoCrCrLf(Concat(chunks))
    ensures Feed("", chunks) == Frames(Normalize(Concat(chunks)))
  {
    assert "" + Concat(chunks) == Concat(chunks);
    assert Normalize("") == "" && Rest("") == "" && Frames("") == [];
    FeedContinues("", Concat(chunks), [], "", chunks);
  }

  // ----- What the parser sees, for any text

  /** The text the parser has drained and still holds, after `chunks`. */
  function Seen(held: string, chunks: seq<string>): string
    decreases chunks
  {
    if chunks == [] then held
    else
      var text := Normalize(held + chunks[0]);
      Drained(text) + Seen(Rest(text), chunks[1..])
  }

  /** The frames are those of the text seen. */
  lemma {:induction false} FramesOfSeen(held: string, chunks: seq<string>)
    requires BlankLine(held) < 0
    ensures Feed(held, chunks) == Frames(Seen(held, chunks))
    decreases chunks
  {
    if chunks != [] {
      var text := Normalize(held + chunks[0]);
      var later := Seen(Rest(text), chunks[1..]);
      RestHasNoBlankLine(text);
      FramesOfSeen(Rest(text), chunks[1..]);
      DrainSuffix(text);
      DrainAppend(Drained(text), later);
      assert "" + later == later;
    }
  }

  lemma {:induction false} RestHasNoBlankLine(x: string)
    ensures BlankLine(Rest(x)) < 0
    decreases |x|
  {
    BlankLineBounds(x);
    if BlankLine(x) >= 0 {
      RestHasNoBlankLine(x[BlankLine(x) + 2..]);
    }
  }

  lemma SeenStep(a: string, c: string)
    requires NoCrCrLf(a + c)
    ensures Normalize(a + c) == Drained(Normalize(a)) + Normalize(Rest(Normalize(a)) + c)
  {
    NoCrCrLfPrefix(a, c);
    NormalizeHasNoCrLf(a);
    NormalizeTwice(a, c);
    NormalizedDrained(Normalize(a), c);
  }

  lemma {:induction false} SeenContinues(a: string, all: string, chunks: seq<string>)
    requires NoCrCrLf(all) && all == a + Concat(chunks)
    ensures Drained(Normalize(a)) + Seen(Rest(Normalize(a)), chunks) == Normalize(all)
    decreases chunks
  {
    if chunks == [] {
      assert all == a;
      DrainSuffix(Normalize(a));
    } else {
      var c, cs := chunks[0], chunks[1..];
      var next, text := a + c, Normalize(Rest(Normalize(a)) + c);
      assert all == next + Concat(cs);
      NoCrCrLfPrefix(next, Concat(cs));
      SeenStep(a, c);
      SeenContinues(next, all, cs);
      DrainOfSum(Normalize(a), text);
      Assoc(Drained(Normalize(a)), Drained(text), Seen(Rest(text), cs));
    }
  }

  /** Draining a drained text and more. */
  lemma DrainOfSum(x: string, y: string)
    ensures Drained(Drained(x) + y) == Drained(x) + Drained(y) && Rest(Drained(x) + y) == Rest(y)
  {
    DrainSuffix(x);
    DrainAppend(Drained(x), y);
    assert "" + y == y;
    DrainSuffix(Drained(x) + y);
    DrainSuffix(y);
    Assoc(Drained(x), Drained(y), Rest(y));
    SameFront(Drained(Drained(x) + y), Drained(x) + Drained(y), Rest(y));
  }

  lemma SameFront(a: string, b: string, c: string)
    requires a + c == b + c
    ensures a == b
  {
    assert |a| == |b|;
    assert (a + c)[..|a|] == a && (b + c)[..|b|] == b;
  }

  /** Where a CR stands before a CR LF pair. */
  predicate CrCrLfAt(s: string, i: nat) {
    i + 3 <= |s| && s[i] == '\r' && s[i + 1] == '\r' && s[i + 2] == '\n'
  }

  lemma {:induction false} FindCrCrLf(s: string) returns (i: nat)
    requires !NoCrCrLf(s)
    ensures CrCrLfAt(s, i)
  {
    if s[0] == '\r' && s[1] == '\r' && s[2] == '\n' {
      i := 0;
    } else {
      i := FindCrCrLf(s[1..]);
      i := i + 1;
    }
  }

  /** A prefix cut behind CR CR LF still ends in CR LF when it is normalised. */
  lemma {:induction false} CutKeepsCrLf(p: string, cut: string)
    requires cut == "\r\r\n"
    ensures HasSuffix(Normalize(p + cut), "\r\n")
  {
    if p == "" {
      CutAlone();
      assert p + cut == cut;
    } else {
      CutFollows(p, cut);
      var k := if |p| >= 2 && p[0] == '\r' && p[1] == '\n' then 2 else 1;
      CutKeepsCrLf(p[k..], cut);
      SuffixOfCons(if k == 2 then '\n' else p[0], Normalize(p[k..] + cut), "\r\n");
    }
  }

  lemma CutAlone()
    ensures HasSuffix(Normalize("\r\r\n"), "\r\n")
  {
    assert "\r\r\n"[1..] == "\r\n" && "\r\n"[2..] == "";
    assert Normalize("\r\n") == "\n" + "" == "\n";
    assert Normalize("\r\r\n") == ['\r'] + "\n" == "\r\n";
  }

  lemma CutFollows(p: string, cut: string)
    requires p != "" && |cut| >= 2 && cut[0] == '\r'
    ensures var k := if |p| >= 2 && p[0] == '\r' && p[1] == '\n' then 2 else 1;
            Normalize(p + cut) == [if k == 2 then '\n' else p[0]] + Normalize(p[k..] + cut)
  {
    var s := p + cut;
    var k := if |p| >= 2 && p[0] == '\r' && p[1] == '\n' then 2 else 1;
    assert s[k..] == p[k..] + cut && s[0] == p[0] && s[1] == if |p| == 1 then '\r' else p[1];
  }

  lemma SuffixOfCons(c: char, s: string, q: string)
    requires HasSuffix(s, q)
    ensures HasSuffix([c] + s, q)
  {
    assert ([c] + s)[|[c] + s| - |q|..] == s[|s| - |q|..];
  }

  /** The line end stays in the part that is held back. */
  lemma {:induction false} RestKeepsCrLf(x: string)
    requires HasSuffix(x, "\r\n")
    ensures HasSuffix(Rest(x), "\r\n")
    decreases |x|
  {
    BlankLineBounds(x);
    var i := BlankLine(x);
    if i >= 0 {
      assert x[|x| - 2..][0] == x[|x| - 2] == '\r';
      assert i + 2 != |x| && i + 2 != |x| - 1;
      assert x[i + 2..][|x| - i - 4..] == x[|x| - 2..];
      RestKeepsCrLf(x[i + 2..]);
    }
  }

  lemma {:induction false} NormalizeShrinks(p: string)
    ensures |Normalize(p + "\r\n")| < |p| + 2
  {
    var cut := "\r\n";
    if p == "" {
      assert p + cut == cut && cut[2..] == "" && Normalize(cut) == "\n" + "";
    } else {
      CutFollows(p, cut);
      var k := if |p| >= 2 && p[0] == '\r' && p[1] == '\n' then 2 else 1;
      NormalizeShrinks(p[k..]);
    }
  }

  /** Cut right behind it, the parser sees a shorter text. */
  lemma CutSeesLess(p: string, rest: string)
    ensures |Seen("", [p + "\r\r\n", rest])| < |Normalize((p + "\r\r\n") + rest)|
  {
    var a := p + "\r\r\n";
    var x := Normalize(a);
    CutKeepsCrLf(p, "\r\r\n");
    RestKeepsCrLf(x);
    var held := Rest(x)[..|Rest(x)| - 2];
    assert Rest(x) == held + "\r\n";
    NormalizeShrinks(held);
    EndsWithLf(a);
    EndsWithLf(Rest(x));
    NormalizeSplit(a, rest);
    NormalizeSplit(Rest(x), rest);
    DrainSuffix(x);
    SeenTwo(a, rest);
  }

  lemma EndsWithLf(s: string)
    requires HasSuffix(s, "\r\n") || HasSuffix(s, "\r\r\n")
    ensures s != "" && s[|s| - 1] == '\n'
  {
    if HasSuffix(s, "\r\n") {
      assert s[|s| - 2..][1] == s[|s| - 1];
    } else {
      assert s[|s| - 3..][2] == s[|s| - 1];
    }
  }

  lemma SeenTwo(a: string, b: string)
    ensures Seen("", [a, b]) == Drained(Normalize(a)) + Normalize(Rest(Normalize(a)) + b)
  {
    var held := Rest(Normalize(a));
    var text := Normalize(held + b);
    assert "" + a == a && [a, b][1..] == [b] && [b][1..] == [];
    DrainSuffix(text);
    assert Seen(held, [b]) == Drained(text) + Rest(text);
  }

  ghost predicate SeenWhole(text: string) {
    forall chunks :: Concat(chunks) == text ==> Seen("", chunks) == Normalize(text)
  }

  /** For any text: the parser sees the normalised text however it is cut, if and only if no
      CR stands before a CR LF pair. */
  lemma SeenWholeExactly(text: string)
    ensures SeenWhole(text) <==> NoCrCrLf(text)
  {
    if NoCrCrLf(text) {
      forall chunks | Concat(chunks) == text
        ensures Seen("", chunks) == Normalize(text)
      {
        assert "" + Concat(chunks) == text && Normalize("") == "" && Rest("") == "" && Drained("") == "";
        SeenContinues("", text, chunks);
        assert "" + Seen("", chunks) == Seen("", chunks);
      }
    } else {
      var i := FindCrCrLf(text);
      var p, rest := text[..i], text[i + 3..];
      assert p + "\r\r\n" == text[..i + 3];
      assert text == (p + "\r\r\n") + rest;
      ConcatTwo(p + "\r\r\n", rest);
      CutSeesLess(p, rest);
      assert Concat([p + "\r\r\n", rest]) == text;
    }
  }

  lemma ConcatTwo(a: string, b: string)
    ensures Concat([a, b]) == a + b
  {
    assert [a, b][1..] == [b] && [b][1..] == [];
    assert Concat([b]) == b + "" == b;
  }
}
