/** From hub frames to what the browser shows: `streamOperation` and `writeSSE`
    (internal/api/sse.go), `subscribeOperationEvents` (web/src/api/sse.ts) and the tail
    buffer of web/src/components/TaskLogStream.tsx. */
module EventStream {
  import opened Text
  import opened Decimal
  import opened Progress
  import opened Sse

  // ----- The server

  /** JSON encoding and decoding, left abstract. */
  datatype Codec = Codec(
    encodeState: Snapshot -> string,
    encodeEvent: Event -> string,
    decodeState: string -> Option<Snapshot>,
    decodeEvent: string -> Option<Event>)
  {
    /** Encoded text is on one line and decodes to the value it was made from. */
    ghost predicate Sound() {
      && (forall s :: OneLine(encodeState(s)) && decodeState(encodeState(s)) == Some(s))
      && (forall e :: OneLine(encodeEvent(e)) && decodeEvent(encodeEvent(e)) == Some(e))
    }
  }

  predicate OneLine(s: string) {
    '\n' !in s && '\r' !in s
  }

  datatype Item = Keepalive | Message(id: nat, event: string, data: string)

  /** What the server's loop selects on. */
  datatype Signal = Heartbeat | Delivered(frame: Frame) | ChannelClosed | ClientGone

  const END_KEY := "{\"reason\":"
  const END_VALUE := "\"hub_closed\"}"
  const END := END_KEY + END_VALUE

  function MessageOf(id: nat, f: Frame, codec: Codec): Item {
    match f
    case StateFrame(s) => Message(id, "state", codec.encodeState(s))
    case EventFrame(e) => Message(id, "log", codec.encodeEvent(e))
  }

  /** The items the server writes after `id` frames. */
  function Items(signals: seq<Signal>, id: nat, codec: Codec): seq<Item> {
    if signals == [] then []
    else match signals[0]
      case Heartbeat => [Keepalive] + Items(signals[1..], id, codec)
      case Delivered(f) => [MessageOf(id + 1, f, codec)] + Items(signals[1..], id + 1, codec)
      case ChannelClosed => [Message(id, "end", END)]
      case ClientGone => []
  }

  /** `writeSSE`, and the keepalive comment. */
  function ItemText(item: Item): string {
    match item
    case Keepalive => ": keepalive" + "\n\n"
    case Message(id, event, data) =>
      ("id: " + Itoa(id)) + "\n" + (("event: " + event) + "\n" + (("data: " + data) + "\n\n"))
  }

  function Texts(items: seq<Item>): string {
    if items == [] then "" else ItemText(items[0]) + Texts(items[1..])
  }

  lemma TextsCons(signals: seq<Signal>, id: nat, codec: Codec)
    requires signals != []
    ensures Texts(Items(signals, id, codec)) ==
            match signals[0]
            case ClientGone => ""
            case ChannelClosed => ItemText(Message(id, "end", END))
            case Heartbeat => ItemText(Keepalive) + Texts(Items(signals[1..], id, codec))
            case Delivered(f) => ItemText(MessageOf(id + 1, f, codec)) + Texts(Items(signals[1..], id + 1, codec))
  {
    if signals[0].ChannelClosed? {
      assert [Message(id, "end", END)][1..] == [];
    }
  }

  method StreamOperation(signals: seq<Signal>, codec: Codec) returns (text: string)
    ensures text == Texts(Items(signals, 0, codec))
  {
    text := "";
    var eventID := 0;
    for i := 0 to |signals|
      invariant text + Texts(Items(signals[i..], eventID, codec)) == Texts(Items(signals, 0, codec))
    {
      TextsCons(signals[i..], eventID, codec);
      assert signals[i..][1..] == signals[i + 1..];
      match signals[i] {
        case ClientGone => return;
        case ChannelClosed =>
          text := text + ItemText(Message(eventID, "end", END));
          return;
        case Heartbeat =>
          text := text + ItemText(Keepalive);
        case Delivered(f) =>
          eventID := eventID + 1;
          text := text + ItemText(MessageOf(eventID, f, codec));
      }
    }
  }

  // ----- The browser

  /** The frames handed to `onProgress` and `onEvent`, up to the `end` frame. */
  function Handled(frames: seq<SseFrame>, codec: Codec): seq<Frame> {
    if frames == [] then []
    else
      var f := frames[0];
      if f.event == Some("state") then
        var s := codec.decodeState(f.data);
        (if s.Some? then [StateFrame(s.value)] else []) + Handled(frames[1..], codec)
      else if f.event == Some("log") then
        var e := codec.decodeEvent(f.data);
        (if e.Some? then [EventFrame(e.value)] else []) + Handled(frames[1..], codec)
      else if f.event == Some("end") then []
      else Handled(frames[1..], codec)
  }

  /** The hub frames the server took before the stream ended. */
  function DeliveredFrames(signals: seq<Signal>): seq<Frame> {
    if signals == [] then []
    else match signals[0]
      case Heartbeat => DeliveredFrames(signals[1..])
      case Delivered(f) => [f] + DeliveredFrames(signals[1..])
      case ChannelClosed => []
      case ClientGone => []
  }

  // ----- Round trip of one item

  function ItemFrames(item: Item): seq<SseFrame> {
    match item
    case Keepalive => []
    case Message(id, event, data) => [SseFrame(Some(Itoa(id)), Some(event), data)]
  }

  function AllFrames(items: seq<Item>): seq<SseFrame> {
    if items == [] then [] else ItemFrames(items[0]) + AllFrames(items[1..])
  }

  predicate Plain(item: Item) {
    item.Message? ==> OneLine(item.event) && OneLine(item.data)
  }

  predicate AllPlain(items: seq<Item>) {
    forall i :: 0 <= i < |items| ==> Plain(items[i])
  }

  lemma {:induction false} BlankLineSkips(line: string, t: string)
    requires line != "" && '\n' !in line && t != "" && t[0] != '\n'
    ensures BlankLine(line + "\n" + t) == if BlankLine(t) < 0 then -1 else |line| + 1 + BlankLine(t)
  {
    var s := line + "\n" + t;
    assert s[0] == line[0] && line[0] in line;
    if |line| == 1 {
      var r := s[1..];
      assert r == "\n" + t && r[1..] == t;
    } else {
      assert s[1..] == line[1..] + "\n" + t;
      BlankLineSkips(line[1..], t);
    }
  }

  lemma {:induction false} BlankLineEnds(line: string, rest: string)
    requires line != "" && '\n' !in line
    ensures BlankLine(line + "\n\n" + rest) == |line|
  {
    var s := line + "\n\n" + rest;
    assert s[0] == line[0] && line[0] in line;
    if |line| == 1 {
      assert s[1..] == "\n\n" + rest;
    } else {
      assert s[1..] == line[1..] + "\n\n" + rest;
      BlankLineEnds(line[1..], rest);
    }
  }

  lemma {:induction false} NormalizeBehind(p: string, q: string)
    requires '\r' !in p
    ensures Normalize(p + q) == p + Normalize(q)
  {
    if p == "" {
      assert p + q == q;
    } else {
      assert (p + q)[1..] == p[1..] + q;
      NormalizeBehind(p[1..], q);
      NormalizeCons(p[0], p[1..] + q);
      assert p == [p[0]] + p[1..] && p + q == [p[0]] + (p[1..] + q);
    }
  }

  lemma {:induction false} OneLineHasNoBlank(p: string)
    requires '\n' !in p
    ensures BlankLine(p + "\r\n") == -1
  {
    if p != "" {
      assert (p + "\r\n")[1..] == p[1..] + "\r\n";
      OneLineHasNoBlank(p[1..]);
    }
  }

  lemma DataParses(v: string)
    requires '\n' !in v
    ensures FrameOf("data: " + v) == Some(SseFrame(None, None, v))
  {
    var l := "data: " + v;
    SplitNone(l, '\n');
    assert "data" + ": " == "data: ";
    FieldLine(NO_FIELDS, "data", v);
    var f := ParseLine(NO_FIELDS, l);
    assert [l][1..] == [] && f.dataLines == [v];
    assert ParseLines(NO_FIELDS, [l]) == ParseLines(f, []) == f;
  }

  lemma LineEnds(line: string)
    requires line != "" && '\n' !in line
    ensures Frames(line + "\n\n") == AsSeq(FrameOf(line))
  {
    BlankLineEnds(line, "");
    assert line + "\n\n" + "" == line + "\n\n";
    BlockParses(line, "");
    assert AsSeq(FrameOf(line)) + [] == AsSeq(FrameOf(line));
  }

  /** Where a CR stands before a CR LF pair the cut does matter: the same text gives a value
      with a CR, or without it when it is cut behind the pair. */
  lemma CutChangesFrames(v: string)
    requires OneLine(v)
    ensures var head := "data: " + v + "\r\r\n";
            && Feed("", [head + "\n"]) == [SseFrame(None, None, v + "\r")]
            && Feed("", [head, "\n"]) == [SseFrame(None, None, v)]
  {
    var p := "data: " + v;
    UncutFrames(v, p);
    CutFrames(v, p);
  }

  lemma UncutFrames(v: string, p: string)
    requires OneLine(v) && p == "data: " + v
    ensures Feed("", [p + "\r\r\n" + "\n"]) == [SseFrame(None, None, v + "\r")]
  {
    var text := p + "\r\r\n" + "\n";
    Assoc(p, "\r\r\n", "\n");
    NormalizeBehind(p, "\r\r\n\n");
    CrStays();
    assert "\r\r\n" + "\n" == "\r\r\n\n" && "\r" + "\n\n" == "\r\n\n";
    Assoc(p, "\r", "\n\n");
    Assoc("data: ", v, "\r");
    LineEnds(p + "\r");
    DataParses(v + "\r");
    assert "" + text == text && [text][1..] == [];
  }

  lemma CrStays()
    ensures Normalize("\r\r\n\n") == "\r\n\n" && Normalize("\r\n\n") == "\n\n" && Normalize("\r\r\n") == "\r\n"
  {
    NormalizePair("\n");
    assert "\r\n" + "\n" == "\r\n\n" && "\n" + "\n" == "\n\n";
    NormalizeCons('\r', "\r\n\n");
    NormalizePair("");
    assert "\r\n" + "" == "\r\n" && "\n" + "" == "\n";
    NormalizeCons('\r', "\r\n");
    assert ['\r'] + "\r\n\n" == "\r\r\n\n" && ['\r'] + "\n\n" == "\r\n\n";
    assert ['\r'] + "\r\n" == "\r\r\n" && ['\r'] + "\n" == "\r\n";
  }

  lemma CutFrames(v: string, p: string)
    requires OneLine(v) && p == "data: " + v
    ensures Feed("", [p + "\r\r\n", "\n"]) == [SseFrame(None, None, v)]
  {
    var head, held := p + "\r\r\n", p + "\r\n";
    CrStays();
    NormalizeBehind(p, "\r\r\n");
    OneLineHasNoBlank(p);
    assert held + "\n" == p + "\r\n\n";
    NormalizeBehind(p, "\r\n\n");
    LineEnds(p);
    DataParses(v);
    assert "" + head == head && [head, "\n"][1..] == ["\n"] && ["\n"][1..] == [];
    assert Feed(held, ["\n"]) == Frames(p + "\n\n") + [];
  }

  /** A line `name: value` sets the field, whatever the value. */
  lemma FieldLine(f: Fields, name: string, value: string)
    requires name in {"id", "event", "data"}
    ensures ParseLine(f, (name + ": ") + value) ==
            if name == "id" then f.(id := Some(value))
            else if name == "event" then f.(event := Some(value))
            else f.(dataLines := f.dataLines + [value])
  {
    assert ':' !in name by {
      assert ':' !in "id" && ':' !in "event" && ':' !in "data";
    }
    LineReads(f, name, ": ", value);
  }

  function DataLines(lines: seq<string>): seq<string> {
    if lines == [] then [] else ["data: " + lines[0]] + DataLines(lines[1..])
  }

  lemma {:induction false} DataGathered(f: Fields, lines: seq<string>)
    ensures ParseLines(f, DataLines(lines)) == Fields(f.id, f.event, f.dataLines + lines)
    decreases |lines|
  {
    if lines == [] {
      assert f.dataLines + [] == f.dataLines;
    } else {
      FieldLine(f, "data", lines[0]);
      assert ("data" + ": ") + lines[0] == "data: " + lines[0];
      DataGathered(f.(dataLines := f.dataLines + [lines[0]]), lines[1..]);
      Assoc(f.dataLines, [lines[0]], lines[1..]);
      assert [lines[0]] + lines[1..] == lines;
    }
  }

  lemma {:induction false} DataBlockSplits(lines: seq<string>)
    requires lines != [] && forall i :: 0 <= i < |lines| ==> '\n' !in lines[i]
    ensures Split(Join(DataLines(lines), "\n"), '\n') == DataLines(lines)
  {
    var head, rest := "data: " + lines[0], DataLines(lines[1..]);
    if rest == [] {
      SplitNone(head, '\n');
    } else {
      DataBlockSplits(lines[1..]);
      SplitCons(head, '\n', Join(rest, "\n"));
    }
  }

  /** A text of any number of lines, written as one data line for each, reads as the text. */
  lemma LinesOfDataRead(text: string)
    ensures FrameOf(Join(DataLines(Split(text, '\n')), "\n")) == Some(SseFrame(None, None, text))
  {
    var lines := Split(text, '\n');
    JoinSplit(text, '\n');
    assert ['\n'] == "\n";
    DataBlockSplits(lines);
    DataGathered(NO_FIELDS, lines);
    assert [] + lines == lines;
  }

  lemma ItoaOneLine(n: nat)
    ensures OneLine(Itoa(n))
  {
    ItoaDigits(n);
  }

  lemma MessageParses(id: nat, event: string, data: string)
    requires OneLine(event) && OneLine(data)
    ensures var body := ("id: " + Itoa(id)) + "\n" + (("event: " + event) + "\n" + ("data: " + data));
            FrameOf(body) == Some(SseFrame(Some(Itoa(id)), Some(event), data))
  {
    var l1, l2, l3 := "id: " + Itoa(id), "event: " + event, "data: " + data;
    ItoaOneLine(id);
    SplitCons(l1, '\n', l2 + "\n" + l3);
    SplitCons(l2, '\n', l3);
    SplitNone(l3, '\n');
    var lines := [l1, l2, l3];
    assert Split(l1 + "\n" + (l2 + "\n" + l3), '\n') == lines;
    assert "id" + ": " == "id: " && "event" + ": " == "event: " && "data" + ": " == "data: ";
    FieldLine(NO_FIELDS, "id", Itoa(id));
    var f1 := ParseLine(NO_FIELDS, l1);
    FieldLine(f1, "event", event);
    var f2 := ParseLine(f1, l2);
    FieldLine(f2, "data", data);
    var f3 := ParseLine(f2, l3);
    assert lines[1..] == [l2, l3] && [l2, l3][1..] == [l3] && [l3][1..] == [];
    assert ParseLines(NO_FIELDS, lines) == ParseLines(f1, [l2, l3]) == ParseLines(f2, [l3]) == ParseLines(f3, []) == f3;
    assert f3.dataLines == [data];
  }

  lemma KeepaliveParses(rest: string)
    ensures var s := ItemText(Keepalive) + rest;
            Frames(s) == Frames(rest) && Rest(s) == Rest(rest)
  {
    var line := ": keepalive";
    CommentIsNothing();
    BlankLineEnds(line, rest);
    BlockParses(line, rest);
    assert [] + Frames(rest) == Frames(rest);
  }

  lemma CommentIsNothing()
    ensures '\n' !in ": keepalive" && FrameOf(": keepalive") == None
  {
    var line := ": keepalive";
    SplitNone(line, '\n');
    assert [line][1..] == [];
  }

  /** The first blank line of a message is the one that ends it. */
  lemma MessageEnds(l1: string, l2: string, l3: string, rest: string)
    requires l1 != "" && l2 != "" && l3 != "" && '\n' !in l1 && '\n' !in l2 && '\n' !in l3
    ensures var body := l1 + "\n" + (l2 + "\n" + l3);
            BlankLine(body + "\n\n" + rest) == |body|
  {
    var t3 := l3 + "\n\n" + rest;
    var t2 := l2 + "\n" + t3;
    assert l2[0] in l2 && l3[0] in l3;
    BlankLineEnds(l3, rest);
    BlankLineSkips(l2, t3);
    BlankLineSkips(l1, t2);
    assert (l1 + "\n" + (l2 + "\n" + l3)) + "\n\n" + rest == l1 + "\n" + t2;
  }

  lemma BlockParses(body: string, rest: string)
    requires BlankLine(body + "\n\n" + rest) == |body|
    ensures var s := body + "\n\n" + rest;
            Frames(s) == AsSeq(FrameOf(body)) + Frames(rest) && Rest(s) == Rest(rest)
  {
    var s := body + "\n\n" + rest;
    assert s[..|body|] == body && s[|body| + 2..] == rest;
  }

  lemma ItemParses(item: Item, rest: string)
    requires Plain(item)
    ensures Frames(ItemText(item) + rest) == ItemFrames(item) + Frames(rest)
    ensures Rest(ItemText(item) + rest) == Rest(rest)
  {
    match item {
      case Keepalive =>
        KeepaliveParses(rest);
      case Message(id, event, data) =>
        var l1, l2, l3 := "id: " + Itoa(id), "event: " + event, "data: " + data;
        ItoaOneLine(id);
        MessageEnds(l1, l2, l3, rest);
        var body := l1 + "\n" + (l2 + "\n" + l3);
        assert ItemText(item) + rest == body + "\n\n" + rest;
        BlockParses(body, rest);
        MessageParses(id, event, data);
    }
  }

  lemma {:induction false} ItemsParse(items: seq<Item>)
    requires AllPlain(items)
    ensures Frames(Texts(items)) == AllFrames(items)
  {
    if items == [] {
      assert BlankLine("") == -1;
    } else {
      ItemParses(items[0], Texts(items[1..]));
      ItemsParse(items[1..]);
    }
  }

  lemma {:induction false} NoCrNoPairs(s: string)
    requires '\r' !in s
    ensures NoCrCrLf(s) && NoCrLf(s)
  {
    if s != "" {
      NoCrNoPairs(s[1..]);
    }
  }

  lemma ItemHasNoCr(item: Item)
    requires Plain(item)
    ensures '\r' !in ItemText(item)
  {
    if item.Message? {
      ItoaOneLine(item.id);
    }
  }

  lemma {:induction false} TextsHaveNoCr(items: seq<Item>)
    requires AllPlain(items)
    ensures '\r' !in Texts(items)
  {
    if items != [] {
      TextsHaveNoCr(items[1..]);
      ItemHasNoCr(items[0]);
    }
  }

  /** Any cut of the written text into chunks yields exactly the written messages, in
      order, with their identifiers; keepalives yield nothing. */
  lemma ParsedAsWritten(items: seq<Item>, chunks: seq<string>)
    requires AllPlain(items)
    requires Concat(chunks) == Texts(items)
    ensures Feed("", chunks) == AllFrames(items)
  {
    TextsHaveNoCr(items);
    NoCrNoPairs(Texts(items));
    ChunkingIndependent(chunks);
    NormalizeFixed(Texts(items));
    ItemsParse(items);
  }

  lemma PlainCons(item: Item, items: seq<Item>)
    requires Plain(item) && AllPlain(items)
    ensures AllPlain([item] + items)
  {
  }

  lemma MessageIsPlain(id: nat, f: Frame, codec: Codec)
    requires codec.Sound()
    ensures Plain(MessageOf(id, f, codec))
  {
    assert OneLine("state") && OneLine("log");
  }

  lemma EndIsPlain(id: nat)
    ensures AllPlain([Message(id, "end", END)])
  {
    assert OneLine("end") && OneLine(END_KEY) && OneLine(END_VALUE);
  }

  lemma {:induction false} ItemsArePlain(signals: seq<Signal>, id: nat, codec: Codec)
    requires codec.Sound()
    ensures AllPlain(Items(signals, id, codec))
  {
    if signals != [] {
      match signals[0] {
        case Heartbeat =>
          ItemsArePlain(signals[1..], id, codec);
          PlainCons(Keepalive, Items(signals[1..], id, codec));
        case Delivered(f) =>
          ItemsArePlain(signals[1..], id + 1, codec);
          MessageIsPlain(id + 1, f, codec);
          PlainCons(MessageOf(id + 1, f, codec), Items(signals[1..], id + 1, codec));
        case ChannelClosed =>
          EndIsPlain(id);
        case ClientGone =>
      }
    }
  }

  lemma HandledMessage(id: nat, f: Frame, codec: Codec, rest: seq<SseFrame>)
    requires codec.Sound()
    ensures Handled(ItemFrames(MessageOf(id, f, codec)) + rest, codec) == [f] + Handled(rest, codec)
  {
    var frames := ItemFrames(MessageOf(id, f, codec)) + rest;
    assert frames[1..] == rest;
    match f {
      case StateFrame(s) => assert codec.decodeState(codec.encodeState(s)) == Some(s);
      case EventFrame(e) => assert codec.decodeEvent(codec.encodeEvent(e)) == Some(e);
    }
  }

  lemma {:induction false} HandledAsDelivered(signals: seq<Signal>, id: nat, codec: Codec)
    requires codec.Sound()
    ensures Handled(AllFrames(Items(signals, id, codec)), codec) == DeliveredFrames(signals)
  {
    if signals != [] {
      AllFramesCons(signals, id, codec);
      match signals[0] {
        case Heartbeat =>
          HandledAsDelivered(signals[1..], id, codec);
          var rest := AllFrames(Items(signals[1..], id, codec));
          assert [] + rest == rest;
        case Delivered(f) =>
          HandledMessage(id + 1, f, codec, AllFrames(Items(signals[1..], id + 1, codec)));
          HandledAsDelivered(signals[1..], id + 1, codec);
        case ChannelClosed =>
        case ClientGone =>
      }
    }
  }

  lemma AllFramesCons(signals: seq<Signal>, id: nat, codec: Codec)
    requires signals != []
    ensures var items := Items(signals, id, codec);
            items != [] ==> AllFrames(items) == ItemFrames(items[0]) + AllFrames(items[1..])
    ensures var items := Items(signals, id, codec);
            match signals[0]
            case Heartbeat => items[0] == Keepalive && items[1..] == Items(signals[1..], id, codec)
            case Delivered(f) =>
              items[0] == MessageOf(id + 1, f, codec) && items[1..] == Items(signals[1..], id + 1, codec)
            case ChannelClosed => items == [Message(id, "end", END)] && items[1..] == []
            case ClientGone => items == []
  {
  }

  /** The browser's handlers are called with exactly the hub frames the server took from
      the channel, in order, however the network cut the stream. */
  lemma StreamDeliversFrames(signals: seq<Signal>, codec: Codec, chunks: seq<string>)
    requires codec.Sound() && Concat(chunks) == Texts(Items(signals, 0, codec))
    ensures Handled(Feed("", chunks), codec) == DeliveredFrames(signals)
  {
    ItemsArePlain(signals, 0, codec);
    ParsedAsWritten(Items(signals, 0, codec), chunks);
    HandledAsDelivered(signals, 0, codec);
  }

  /** When only a beginning of the text has arrived, cut anywhere, they are called with a
      beginning of those frames. */
  lemma StreamPrefixDelivers(signals: seq<Signal>, codec: Codec, chunks: seq<string>, missing: string)
    requires codec.Sound() && Concat(chunks) + missing == Texts(Items(signals, 0, codec))
    ensures Handled(Feed("", chunks), codec) <= DeliveredFrames(signals)
  {
    ItemsArePlain(signals, 0, codec);
    PrefixParses(Items(signals, 0, codec), chunks, missing);
    HandledPrefix(Feed("", chunks), Frames(Rest(Concat(chunks)) + missing), codec);
    HandledAsDelivered(signals, 0, codec);
  }

  lemma PrefixParses(items: seq<Item>, chunks: seq<string>, missing: string)
    requires AllPlain(items) && Concat(chunks) + missing == Texts(items)
    ensures AllFrames(items) == Feed("", chunks) + Frames(Rest(Concat(chunks)) + missing)
  {
    var x := Concat(chunks);
    PrefixHasNoCr(items, x, missing);
    NoCrNoPairs(x);
    ChunkingIndependent(chunks);
    NormalizeFixed(x);
    ItemsParse(items);
    DrainAppend(x, missing);
  }

  lemma PrefixHasNoCr(items: seq<Item>, x: string, missing: string)
    requires AllPlain(items) && x + missing == Texts(items)
    ensures '\r' !in x
  {
    TextsHaveNoCr(items);
    forall i | 0 <= i < |x|
      ensures x[i] != '\r'
    {
      assert (x + missing)[i] == x[i];
    }
  }

  lemma {:induction false} HandledPrefix(a: seq<SseFrame>, b: seq<SseFrame>, codec: Codec)
    ensures Handled(a, codec) <= Handled(a + b, codec)
  {
    if a != [] {
      HandledPrefix(a[1..], b, codec);
      assert (a + b)[1..] == a[1..] + b;
    }
  }

  /** The end frame ends the delivery, whatever follows. */
  lemma {:induction false} EndEnds(a: seq<SseFrame>, end: SseFrame, b: seq<SseFrame>, codec: Codec)
    requires end.event == Some("end")
    ensures Handled(a + ([end] + b), codec) == Handled(a, codec)
  {
    if a == [] {
      assert a + ([end] + b) == [end] + b && ([end] + b)[0] == end;
    } else {
      assert (a + ([end] + b))[1..] == a[1..] + ([end] + b);
      EndEnds(a[1..], end, b, codec);
    }
  }

  /** A frame of another event, or with text that does not decode, is left out. */
  lemma {:induction false} OtherLeftOut(a: seq<SseFrame>, f: SseFrame, b: seq<SseFrame>, codec: Codec)
    requires f.event != Some("end")
    requires f.event == Some("state") ==> codec.decodeState(f.data).None?
    requires f.event == Some("log") ==> codec.decodeEvent(f.data).None?
    ensures Handled(a + ([f] + b), codec) == Handled(a + b, codec)
  {
    if a == [] {
      assert a + ([f] + b) == [f] + b && ([f] + b)[1..] == b && a + b == b;
    } else {
      assert (a + ([f] + b))[1..] == a[1..] + ([f] + b) && (a + b)[1..] == a[1..] + b;
      OtherLeftOut(a[1..], f, b, codec);
    }
  }

  // ----- The tail buffer

  /** `slice(-max)`, which is the whole list for 0. */
  function Last<T>(xs: seq<T>, max: nat): seq<T> {
    if max == 0 || |xs| <= max then xs else xs[|xs| - max..]
  }

  /** One call of `applySnapshotEvents` or `onEvent` while the view is not paused. */
  function Shown(lines: seq<Event>, f: Frame, max: nat): seq<Event> {
    match f
    case StateFrame(s) => if s.events == [] then lines else Last(s.events, max)
    case EventFrame(e) =>
      var next := lines + [e];
      if |next| > max then next[|next| - max..] else next
  }

  function View(frames: seq<Frame>, max: nat): seq<Event> {
    if frames == [] then []
    else Shown(View(frames[..|frames| - 1], max), frames[|frames| - 1], max)
  }

  function AsFrames(events: seq<Event>): seq<Frame> {
    if events == [] then [] else AsFrames(events[..|events| - 1]) + [EventFrame(events[|events| - 1])]
  }

  lemma LastOfLonger(xs: seq<Event>, e: Event, max: nat)
    requires max >= 1
    ensures var next := Last(xs, max) + [e];
            Last(xs + [e], max) == if |next| > max then next[|next| - max..] else next
  {
  }

  lemma {:induction false} ViewAfterEvents(pre: seq<Frame>, events: seq<Event>, max: nat)
    requires max >= 1 && |View(pre, max)| <= max
    ensures View(pre + AsFrames(events), max) == Last(View(pre, max) + events, max)
  {
    if events == [] {
      assert pre + [] == pre && View(pre, max) + [] == View(pre, max);
    } else {
      var front := events[..|events| - 1];
      var e := events[|events| - 1];
      ViewAfterEvents(pre, front, max);
      ViewStep(pre + AsFrames(front), View(pre, max) + front, e, max);
      SplitLast(events);
      Assoc(View(pre, max), front, [e]);
      Assoc(pre, AsFrames(front), [EventFrame(e)]);
    }
  }

  lemma ViewStep(frames: seq<Frame>, events: seq<Event>, e: Event, max: nat)
    requires max >= 1 && View(frames, max) == Last(events, max)
    ensures View(frames + [EventFrame(e)], max) == Last(events + [e], max)
  {
    ViewSnoc(frames, EventFrame(e), max);
    ShownKeepsTail(events, EventFrame(e), events + [e], max);
  }

  /** One frame turns the tail of the old events into the tail of the new ones. */
  lemma ShownKeepsTail(was: seq<Event>, f: Frame, now: seq<Event>, max: nat)
    requires max >= 1
    requires match f case StateFrame(s) => was <= now == s.events case EventFrame(e) => now == was + [e]
    ensures Shown(Last(was, max), f, max) == Last(now, max)
  {
    if f.EventFrame? {
      LastOfLonger(was, f.event, max);
    }
  }

  lemma ViewSnoc(frames: seq<Frame>, f: Frame, max: nat)
    ensures View(frames + [f], max) == Shown(View(frames, max), f, max)
  {
    assert (frames + [f])[..|frames|] == frames;
  }

  lemma {:induction false} ViewIsShort(frames: seq<Frame>, max: nat)
    requires max >= 1
    ensures |View(frames, max)| <= max
  {
    if frames != [] {
      ViewIsShort(frames[..|frames| - 1], max);
    }
  }

  /** After a snapshot and the events that follow it, the view is the tail of the
      operation's events exactly when the snapshot carried events, or nothing was shown
      before it, or enough events followed to push out what was shown. */
  lemma TailExact(pre: seq<Frame>, s: Snapshot, events: seq<Event>, max: nat)
    requires max >= 1
    ensures var frames := pre + [StateFrame(s)] + AsFrames(events);
            View(frames, max) == Last(s.events + events, max)
            <==> s.events != [] || View(pre, max) == [] || |events| >= max
  {
    var mid := pre + [StateFrame(s)];
    assert mid[..|mid| - 1] == pre;
    ViewIsShort(pre, max);
    ViewIsShort(mid, max);
    ViewAfterEvents(mid, events, max);
    TailOfTails(s.events, View(pre, max), events, max);
  }

  /** A snapshot without events does leave lines in view that are no events of it. */
  lemma StaleLines(e: Event, max: nat)
    requires max >= 1
    ensures var frames := [EventFrame(e)] + [StateFrame(Initial(0))];
            View(frames, max) == [e] && Last(Fold(Initial(0), frames).events, max) == []
  {
    var first := [EventFrame(e)];
    ViewAfterEvents([], [e], max);
    assert AsFrames([e]) == [] + [EventFrame(e)] && [] + first == first && [] + [e] == [e];
    ViewSnoc(first, StateFrame(Initial(0)), max);
    assert (first + [StateFrame(Initial(0))])[..1] == first;
  }

  lemma TailOfTails(snapshot: seq<Event>, shown: seq<Event>, events: seq<Event>, max: nat)
    requires max >= 1 && |shown| <= max
    ensures var base := if snapshot == [] then shown else Last(snapshot, max);
            Last(base + events, max) == Last(snapshot + events, max)
            <==> snapshot != [] || shown == [] || |events| >= max
  {
    if snapshot == [] {
      assert snapshot + events == events;
      StaleTail(shown, events, max);
    } else {
      LastOfLast(snapshot, events, max);
    }
  }

  lemma LastOfLast(xs: seq<Event>, ys: seq<Event>, max: nat)
    requires max >= 1
    ensures Last(Last(xs, max) + ys, max) == Last(xs + ys, max)
  {
    if |xs| > max {
      CutAppend(xs, ys, |xs| - max);
      LastFrom(xs + ys, |xs| - max, max);
    }
  }

  lemma LastFrom(all: seq<Event>, k: nat, max: nat)
    requires max >= 1 && k + max <= |all|
    ensures Last(all[k..], max) == Last(all, max)
  {
    assert all[k..][|all| - k - max..] == all[|all| - max..];
  }

  lemma StaleTail(shown: seq<Event>, events: seq<Event>, max: nat)
    requires max >= 1 && |shown| <= max
    ensures Last(shown + events, max) == Last(events, max) <==> shown == [] || |events| >= max
  {
    if shown == [] {
      assert shown + events == events;
    } else if |events| < max {
      assert |Last(shown + events, max)| > |Last(events, max)|;
    }
  }

  /** Every snapshot keeps the events there were, and may add some. */
  predicate Growing(frames: seq<Frame>, from: Snapshot) {
    forall i :: 0 <= i < |frames| && frames[i].StateFrame? ==>
      Fold(from, frames[..i]).events <= frames[i].snapshot.events
  }

  /** On a stream whose event list never shrinks the view is always the tail. */
  lemma {:induction false} TailOfGrowing(frames: seq<Frame>, from: Snapshot, max: nat)
    requires max >= 1 && Growing(frames, from) && from.events == []
    ensures View(frames, max) == Last(Fold(from, frames).events, max)
  {
    if frames != [] {
      var front := frames[..|frames| - 1];
      var f := frames[|frames| - 1];
      assert Growing(front, from) by {
        assert forall i :: 0 <= i <= |front| ==> frames[..i] == front[..i];
      }
      TailOfGrowing(front, from, max);
      assert frames[..|front|] == front;
      ShownKeepsTail(Fold(from, front).events, f, Fold(from, frames).events, max);
    }
  }

  /** Server, network, parser and view together. */
  lemma BrowserShowsTail(signals: seq<Signal>, codec: Codec, chunks: seq<string>, from: Snapshot, max: nat)
    requires codec.Sound() && Concat(chunks) == Texts(Items(signals, 0, codec))
    requires max >= 1 && from.events == [] && Growing(DeliveredFrames(signals), from)
    ensures View(Handled(Feed("", chunks), codec), max) == Last(Fold(from, DeliveredFrames(signals)).events, max)
  {
    StreamDeliversFrames(signals, codec, chunks);
    TailOfGrowing(DeliveredFrames(signals), from, max);
  }
}
