/** Reading a stream of server-sent events: the buffer loop that cuts text at blank lines,
    and the client loop over arriving chunks (a subset of the WHATWG HTML Standard,
    sections 9.2.5 and 9.2.6). */
module EventStream {
  import opened Outcomes

  const BLANK_LINE: string := "\n\n"

  // ---------- Cutting at blank lines ----------

  /** Where the first blank line starts, or -1. */
  function Boundary(s: string): (r: int)
    ensures -1 <= r && (r >= 0 ==> r + 2 <= |s|)
  {
    if |s| < 2 then -1
    else if s[0] == '\n' && s[1] == '\n' then 0
    else
      var r := Boundary(s[1..]);
      if r < 0 then -1 else r + 1
  }

  datatype Split = Split(blocks: seq<string>, remainder: string)

  function Blocks(text: string): Split
    decreases |text|
  {
    var at := Boundary(text);
    if at < 0 then Split([], text)
    else
      var rest := Blocks(text[at + 2..]);
      Split([text[..at]] + rest.blocks, rest.remainder)
  }

  function Joined(blocks: seq<string>): string {
    if blocks == [] then "" else blocks[0] + BLANK_LINE + Joined(blocks[1..])
  }

  /** What cutting means: the pieces make up the text, no block contains or completes a
      blank line early, and none is left in the remainder. */
  predicate IsSplit(text: string, s: Split) {
    && Joined(s.blocks) + s.remainder == text
    && (forall b :: b in s.blocks ==> Boundary(b + BLANK_LINE) == |b|)
    && Boundary(s.remainder) < 0
  }

  /** The first blank line of a text stays the first when more follows it. */
  lemma {:induction false} BoundaryStays(a: string, b: string)
    requires Boundary(a) >= 0
    ensures Boundary(a + b) == Boundary(a)
    decreases |a|
  {
    if !(a[0] == '\n' && a[1] == '\n') {
      BoundaryStays(a[1..], b);
      assert (a + b)[1..] == a[1..] + b;
    }
  }

  lemma {:induction false} BoundaryIsBlank(a: string)
    requires Boundary(a) >= 0
    ensures var at := Boundary(a); a[at] == a[at + 1] == '\n'
    decreases |a|
  {
    if !(a[0] == '\n' && a[1] == '\n') {
      BoundaryIsBlank(a[1..]);
    }
  }

  lemma {:induction false} BoundaryIsFirst(a: string)
    requires Boundary(a) >= 0
    ensures Boundary(a[..Boundary(a) + 2]) == Boundary(a)
    decreases |a|
  {
    if !(a[0] == '\n' && a[1] == '\n') {
      BoundaryIsFirst(a[1..]);
      assert a[..Boundary(a) + 2][1..] == a[1..][..Boundary(a) + 1];
    }
  }

  lemma BoundaryCuts(a: string)
    requires Boundary(a) >= 0
    ensures var at := Boundary(a); a == a[..at] + BLANK_LINE + a[at + 2..] && Boundary(a[..at] + BLANK_LINE) == at
  {
    hide Boundary;
    BoundaryIsBlank(a);
    BoundaryIsFirst(a);
    var at := Boundary(a);
    assert a[..at + 2] == a[..at] + BLANK_LINE;
    assert a == a[..at + 2] + a[at + 2..];
  }

  lemma {:induction false} BlocksIsSplit(text: string)
    ensures IsSplit(text, Blocks(text))
    decreases |text|
  {
    var at := Boundary(text);
    if at >= 0 {
      BoundaryCuts(text);
      var rest := Blocks(text[at + 2..]);
      BlocksIsSplit(text[at + 2..]);
      var s := Blocks(text);
      assert s.blocks[0] == text[..at] && s.blocks[1..] == rest.blocks;
      Enclosed(text[..at], Joined(rest.blocks), rest.remainder);
    }
  }

  lemma Enclosed(a: string, b: string, c: string)
    ensures a + BLANK_LINE + b + c == a + BLANK_LINE + (b + c)
  {
  }

  /** There is only one way to cut a text. */
  lemma {:induction false} SplitIsUnique(text: string, s: Split)
    requires IsSplit(text, s)
    ensures s == Blocks(text)
    decreases |s.blocks|
  {
    hide Boundary;
    if s.blocks == [] {
      assert text == s.remainder;
    } else {
      var rest := Split(s.blocks[1..], s.remainder);
      FirstPiece(text, s);
      SplitIsUnique(text[|s.blocks[0]| + 2..], rest);
    }
  }

  lemma FirstPiece(text: string, s: Split)
    requires IsSplit(text, s) && s.blocks != []
    ensures var b, rest := s.blocks[0], Split(s.blocks[1..], s.remainder);
            && |b| + 2 <= |text| && Boundary(text) == |b| && text[..|b|] == b && IsSplit(text[|b| + 2..], rest)
  {
    hide Boundary;
    var b, rest := s.blocks[0], Split(s.blocks[1..], s.remainder);
    Enclosed(b, Joined(rest.blocks), rest.remainder);
    BoundaryStays(b + BLANK_LINE, Joined(rest.blocks) + rest.remainder);
    assert text[..|b|] == b && text[|b| + 2..] == Joined(rest.blocks) + rest.remainder;
  }

  /** Cutting what has arrived, and later the remainder with the rest, is cutting it all. */
  lemma {:induction false} BlocksIncremental(a: string, b: string)
    ensures var first := Blocks(a); var second := Blocks(first.remainder + b);
            Blocks(a + b) == Split(first.blocks + second.blocks, second.remainder)
    decreases |a|
  {
    hide Boundary;
    var at := Boundary(a);
    if at < 0 {
      assert Blocks(a).blocks + Blocks(a + b).blocks == Blocks(a + b).blocks;
    } else {
      CutFirst(a, b);
      BlocksIncremental(a[at + 2..], b);
      var first := Blocks(a[at + 2..]);
      Associate([a[..at]], first.blocks, Blocks(first.remainder + b).blocks);
    }
  }

  lemma CutFirst(a: string, b: string)
    requires Boundary(a) >= 0
    ensures var at := Boundary(a); var first, both := Blocks(a[at + 2..]), Blocks(a[at + 2..] + b);
            && Blocks(a) == Split([a[..at]] + first.blocks, first.remainder)
            && Blocks(a + b) == Split([a[..at]] + both.blocks, both.remainder)
  {
    var at := Boundary(a);
    BoundaryStays(a, b);
    assert (a + b)[..at] == a[..at] && (a + b)[at + 2..] == a[at + 2..] + b;
  }

  lemma Associate(a: seq<string>, b: seq<string>, c: seq<string>)
    ensures a + b + c == a + (b + c)
  {
  }

  // ---------- One block ----------

  predicate IsSpace(c: char) {
    || c in " \t\n\r\U{B}\U{C}\U{A0}\U{1680}\U{2028}\U{2029}\U{202F}\U{205F}\U{3000}\U{FEFF}"
    || '\U{2000}' <= c <= '\U{200A}'
  }

  function TrimStart(s: string): string {
    if s != "" && IsSpace(s[0]) then TrimStart(s[1..]) else s
  }

  function TrimEnd(s: string): string {
    if s != "" && IsSpace(s[|s| - 1]) then TrimEnd(s[..|s| - 1]) else s
  }

  function Trim(s: string): string {
    TrimEnd(TrimStart(s))
  }

  function Newline(s: string): (r: int)
    ensures -1 <= r < |s| && (r >= 0 ==> s[r] == '\n')
    ensures forall i :: 0 <= i < |s| && (r < 0 || i < r) ==> s[i] != '\n'
  {
    if s == "" then -1
    else if s[0] == '\n' then 0
    else
      var r := Newline(s[1..]);
      if r < 0 then -1 else r + 1
  }

  /** The lines of a block; a carriage return before the line feed belongs to the break. */
  function Lines(s: string): seq<string>
    decreases |s|
  {
    var at := Newline(s);
    if at < 0 then [s]
    else [if at > 0 && s[at - 1] == '\r' then s[..at - 1] else s[..at]] + Lines(s[at + 1..])
  }

  function DataLines(lines: seq<string>): seq<string> {
    if lines == [] then []
    else (if "data:" <= lines[0] then [Trim(lines[0][5..])] else []) + DataLines(lines[1..])
  }

  function JoinLines(lines: seq<string>): string {
    if lines == [] then "" else if |lines| == 1 then lines[0] else lines[0] + "\n" + JoinLines(lines[1..])
  }

  function DataOf(block: string): string {
    JoinLines(DataLines(Lines(block)))
  }

  /** What decoding the data of a block yields; malformed data throws. */
  datatype Decoded = Ignored | Event(event: string) | Malformed

  function Interpret(block: string, decode: string -> Decoded): Decoded {
    var data := DataOf(block);
    if data == "" || data == "[DONE]" then Ignored else decode(data)
  }

  /** The events of consecutive blocks, up to the first malformed one. */
  datatype Outcome = Outcome(events: seq<string>, failed: bool)

  function Events(blocks: seq<string>, decode: string -> Decoded): Outcome {
    if blocks == [] then Outcome([], false)
    else
      var rest := Events(blocks[1..], decode);
      match Interpret(blocks[0], decode)
      case Malformed => Outcome([], true)
      case Ignored => rest
      case Event(e) => Outcome([e] + rest.events, rest.failed)
  }

  lemma {:induction false} EventsConcat(a: seq<string>, b: seq<string>, decode: string -> Decoded)
    ensures var first, second := Events(a, decode), Events(b, decode);
            Events(a + b, decode) ==
            if first.failed then first else Outcome(first.events + second.events, second.failed)
  {
    hide Interpret;
    if a == [] {
      assert a + b == b;
    } else {
      EventsConcat(a[1..], b, decode);
      assert (a + b)[1..] == a[1..] + b && (a + b)[0] == a[0];
      var e := if Interpret(a[0], decode).Event? then [Interpret(a[0], decode).event] else [];
      var rest, second := Events(a[1..], decode).events, Events(b, decode).events;
      Associate(e, rest, second);
    }
  }

  // ---------- The client loop ----------

  function Concat(chunks: seq<string>): string {
    if chunks == [] then "" else chunks[0] + Concat(chunks[1..])
  }

  /** What reaches the listener: a buffer with a malformed block delivers nothing of itself
      and ends the stream; at the end the rest is read as if a blank line followed. */
  function Feed(chunks: seq<string>, buffer: string, decode: string -> Decoded): Outcome {
    var split := Blocks(if chunks == [] then buffer + BLANK_LINE else buffer + chunks[0]);
    var now := Events(split.blocks, decode);
    if now.failed then Outcome([], true)
    else if chunks == [] then now
    else
      var later := Feed(chunks[1..], split.remainder, decode);
      Outcome(now.events + later.events, later.failed)
  }

  function Whole(text: string, decode: string -> Decoded): Outcome {
    Events(Blocks(text + BLANK_LINE).blocks, decode)
  }

  /** However a text is chunked, the stream fails exactly when the whole text does, delivers
      a prefix of its events, and all of them when nothing is malformed. */
  lemma {:induction false} ChunkingIsInvisible(chunks: seq<string>, buffer: string, decode: string -> Decoded)
    ensures var fed, whole := Feed(chunks, buffer, decode), Whole(buffer + Concat(chunks), decode);
            && fed.failed == whole.failed
            && fed.events <= whole.events
            && (!whole.failed ==> fed == whole)
    decreases |chunks|
  {
    hide Events, Blocks;
    if chunks == [] {
      assert buffer + Concat(chunks) == buffer;
    } else {
      var seen, later := buffer + chunks[0], Concat(chunks[1..]);
      assert buffer + Concat(chunks) == seen + later;
      var split := Blocks(seen);
      ChunkingIsInvisible(chunks[1..], split.remainder, decode);
      BlocksIncremental(seen, later + BLANK_LINE);
      assert seen + later + BLANK_LINE == seen + (later + BLANK_LINE);
      assert split.remainder + later + BLANK_LINE == split.remainder + (later + BLANK_LINE);
      EventsConcat(split.blocks, Blocks(split.remainder + later + BLANK_LINE).blocks, decode);
    }
  }

  /** At the end of the stream at most one block can be unfinished. */
  lemma {:induction false} TailBoundary(tail: string)
    requires Boundary(tail) < 0
    ensures |tail| - 1 <= Boundary(tail + BLANK_LINE)
    decreases |tail|
  {
    var text := tail + BLANK_LINE;
    if tail != [] {
      assert text[1..] == tail[1..] + BLANK_LINE;
      TailBoundary(tail[1..]);
    }
  }

  lemma TailIsOneBlock(tail: string, decode: string -> Decoded)
    requires Boundary(tail) < 0
    ensures var end := Events(Blocks(tail + BLANK_LINE).blocks, decode); end.failed ==> end.events == []
  {
    TailBoundary(tail);
    hide Interpret;
    var text := tail + BLANK_LINE;
    var at := Boundary(text);
    if at >= 0 {
      assert |text[at + 2..]| <= 1;
      assert Blocks(text).blocks == [text[..at]] + [] == [text[..at]];
      assert [text[..at]][1..] == [];
    }
  }

  /** When no finished block is malformed, every chunking delivers what the whole text does,
      an unfinished malformed block at the end included. */
  lemma {:induction false} FinishedBlocksDecide(chunks: seq<string>, buffer: string, decode: string -> Decoded)
    requires Boundary(buffer) < 0 && !Events(Blocks(buffer + Concat(chunks)).blocks, decode).failed
    ensures Feed(chunks, buffer, decode) == Whole(buffer + Concat(chunks), decode)
    decreases |chunks|
  {
    hide Events, Blocks, Boundary;
    if chunks == [] {
      assert buffer + Concat(chunks) == buffer;
      TailIsOneBlock(buffer, decode);
    } else {
      var seen, later := buffer + chunks[0], Concat(chunks[1..]);
      assert buffer + Concat(chunks) == seen + later;
      var split := Blocks(seen);
      BlocksIsSplit(seen);
      BlocksIncremental(seen, later);
      EventsConcat(split.blocks, Blocks(split.remainder + later).blocks, decode);
      FinishedBlocksDecide(chunks[1..], split.remainder, decode);
      BlocksIncremental(seen, later + BLANK_LINE);
      assert seen + later + BLANK_LINE == seen + (later + BLANK_LINE);
      assert split.remainder + later + BLANK_LINE == split.remainder + (later + BLANK_LINE);
      EventsConcat(split.blocks, Blocks(split.remainder + later + BLANK_LINE).blocks, decode);
    }
  }

  /** One chunk already shows a malformed finished block that has events before it. */
  lemma OneChunkLosesEvents(text: string, decode: string -> Decoded)
    requires Events(Blocks(text).blocks, decode).failed
    ensures Feed([text], "", decode) == Outcome([], true)
  {
    assert "" + [text][0] == text;
  }

  /** So chunking is invisible for a text exactly when none of its finished blocks is
      malformed, or there is no event before the malformed one anyway. */
  lemma ChunkingMatters(text: string, decode: string -> Decoded)
    ensures (forall chunks: seq<string> :: Concat(chunks) == text ==> Feed(chunks, "", decode) == Whole(text, decode)) <==>
            !Events(Blocks(text).blocks, decode).failed || Whole(text, decode).events == []
  {
    hide Events, Blocks, Feed, Whole;
    if !Events(Blocks(text).blocks, decode).failed || Whole(text, decode).events == [] {
      forall chunks: seq<string> | Concat(chunks) == text ensures Feed(chunks, "", decode) == Whole(text, decode) {
        assert "" + Concat(chunks) == text;
        if !Events(Blocks(text).blocks, decode).failed {
          FinishedBlocksDecide(chunks, "", decode);
        } else {
          ChunkingIsInvisible(chunks, "", decode);
        }
      }
    } else {
      OneChunkLosesEvents(text, decode);
      assert Concat([text]) == text;
    }
  }

  // ---------- The server's encoding ----------

  function Frame(payload: string): string {
    "data: " + payload + BLANK_LINE
  }

  function Frames(payloads: seq<string>): string {
    if payloads == [] then "" else Frame(payloads[0]) + Frames(payloads[1..])
  }

  /** Serialized JSON: one line, nothing to trim, and not the end marker. */
  predicate Plain(payload: string) {
    && payload != "" && payload != "[DONE]"
    && !IsSpace(payload[0]) && !IsSpace(payload[|payload| - 1])
    && '\n' !in payload && '\r' !in payload
  }

  lemma {:induction false} NoBoundary(s: string)
    requires '\n' !in s
    ensures Boundary(s + BLANK_LINE) == |s| && Newline(s) < 0
    decreases |s|
  {
    if s == "" {
      assert s + BLANK_LINE == BLANK_LINE;
    } else {
      assert s[0] in s && forall c :: c in s[1..] ==> c in s;
      NoBoundary(s[1..]);
      assert (s + BLANK_LINE)[1..] == s[1..] + BLANK_LINE;
    }
  }

  lemma FrameBlock(payload: string, decode: string -> Decoded)
    requires Plain(payload)
    ensures DataOf("data: " + payload) == payload && Interpret("data: " + payload, decode) == decode(payload)
  {
    var line := "data: " + payload;
    NoBoundary(line);
    assert Lines(line) == [line];
    assert line[5..] == " " + payload && "data:" <= line;
    assert (" " + payload)[1..] == payload;
    assert TrimStart(payload) == payload && TrimStart(" " + payload) == payload;
    assert Trim(line[5..]) == payload;
    assert DataLines([line]) == [payload];
  }

  lemma {:induction false} FramesSplit(payloads: seq<string>, decode: string -> Decoded)
    requires forall p :: p in payloads ==> Plain(p)
    ensures Boundary(Frames(payloads) + BLANK_LINE) >= 0
    ensures Whole(Frames(payloads), decode) == Decodings(payloads, decode)
  {
    if payloads == [] {
      EndIsIgnored(decode);
      assert "" + BLANK_LINE == BLANK_LINE;
    } else {
      var line, rest := "data: " + payloads[0], Frames(payloads[1..]) + BLANK_LINE;
      assert payloads[0] in payloads;
      assert Frames(payloads) + BLANK_LINE == line + BLANK_LINE + rest;
      NoBoundary(line);
      BoundaryStays(line + BLANK_LINE, rest);
      var text := line + BLANK_LINE + rest;
      assert text[..|line|] == line && text[|line| + 2..] == rest;
      FramesSplit(payloads[1..], decode);
      FrameBlock(payloads[0], decode);
      var blocks := Blocks(text).blocks;
      assert blocks[0] == line && blocks[1..] == Blocks(rest).blocks;
      hide Interpret, Boundary;
    }
  }

  lemma EndIsIgnored(decode: string -> Decoded)
    ensures Blocks(BLANK_LINE) == Split([""], "") && Interpret("", decode) == Ignored
    ensures Whole("", decode) == Outcome([], false)
  {
    assert BLANK_LINE[..0] == "" && BLANK_LINE[2..] == "";
    assert Blocks("") == Split([], "");
    NoData();
    hide DataOf, Blocks;
    assert "" + BLANK_LINE == BLANK_LINE;
    assert [""][1..] == [];
  }

  lemma NoData()
    ensures DataOf("") == ""
  {
    assert Lines("") == [""];
    assert DataLines([""]) == [];
  }

  /** The payloads decoded one after the other, up to a malformed one. */
  function Decodings(payloads: seq<string>, decode: string -> Decoded): Outcome {
    if payloads == [] then Outcome([], false)
    else
      var rest := Decodings(payloads[1..], decode);
      match decode(payloads[0])
      case Malformed => Outcome([], true)
      case Ignored => rest
      case Event(e) => Outcome([e] + rest.events, rest.failed)
  }

  /** End to end: whatever chunks the network makes of the server's frames, the listener
      gets the decoded payloads, each once and in order. */
  lemma FramesRoundTrip(payloads: seq<string>, chunks: seq<string>, decode: string -> Decoded)
    requires forall p :: p in payloads ==> Plain(p)
    requires Concat(chunks) == Frames(payloads) && !Decodings(payloads, decode).failed
    ensures Feed(chunks, "", decode) == Decodings(payloads, decode)
  {
    FramesSplit(payloads, decode);
    assert "" + Concat(chunks) == Concat(chunks);
    ChunkingIsInvisible(chunks, "", decode);
  }

  /** A malformed block does make chunking visible: it takes with it the events before it in
      the same chunk, but not those of earlier chunks. */
  lemma MalformedHidesItsChunk(good: string, bad: string, decode: string -> Decoded)
    requires Plain(good) && Plain(bad) && decode(good).Event? && decode(bad) == Malformed
    ensures Feed([Frame(good) + Frame(bad)], "", decode) == Outcome([], true)
    ensures Feed([Frame(good), Frame(bad)], "", decode) == Outcome([decode(good).event], true)
  {
    FrameAlone(good, decode);
    FrameAlone(bad, decode);
    FrameBlock(good, decode);
    FrameBlock(bad, decode);
    BlocksIncremental(Frame(good), Frame(bad));
    var g, b := "data: " + good, "data: " + bad;
    assert "" + (Frame(good) + Frame(bad)) == Frame(good) + Frame(bad) && "" + Frame(bad) == Frame(bad) && "" + Frame(good) == Frame(good);
    assert Blocks(Frame(good) + Frame(bad)).blocks == [g] + [b] == [g, b];
    assert [g, b][1..] == [b] && [b][1..] == [] && [g][1..] == [];
    assert Events([b], decode) == Outcome([], true);
    assert Events([g], decode) == Outcome([decode(good).event], false);
    EventsConcat([g], [b], decode);
    assert [Frame(good), Frame(bad)][1..] == [Frame(bad)];
    assert Feed([Frame(bad)], "", decode) == Outcome([], true);
    hide Events, Blocks, Interpret;
    assert [decode(good).event] + [] == [decode(good).event];
  }

  lemma FrameAlone(payload: string, decode: string -> Decoded)
    requires Plain(payload)
    ensures Blocks(Frame(payload)) == Split(["data: " + payload], "")
  {
    var line := "data: " + payload;
    NoBoundary(line);
    var text := line + BLANK_LINE;
    assert text[..|line|] == line && text[|line| + 2..] == "";
    assert Blocks("") == Split([], "");
    assert [line] + [] == [line];
  }

  // ---------- What a block says ----------

  predicate Blank(s: string) {
    forall c :: c in s ==> IsSpace(c)
  }

  /** The characters that trimming removes, by code point. */
  lemma SpacesAre(c: char)
    ensures IsSpace(c) <==>
            c as int in {9, 10, 11, 12, 13, 32, 0xA0, 0x1680, 0x2028, 0x2029, 0x202F, 0x205F, 0x3000, 0xFEFF} || 0x2000 <= c as int <= 0x200A
  {
  }

  /** Nothing to trim at either end. */
  predicate Tight(s: string) {
    s != "" ==> !IsSpace(s[0]) && !IsSpace(s[|s| - 1])
  }

  lemma {:induction false} TrimStartDrops(blank: string, s: string)
    requires Blank(blank) && (s != "" ==> !IsSpace(s[0]))
    ensures TrimStart(blank + s) == s
    decreases |blank|
  {
    hide IsSpace;
    if blank == "" {
      assert blank + s == s;
    } else {
      assert (blank + s)[1..] == blank[1..] + s && (blank + s)[0] == blank[0];
      TrimStartDrops(blank[1..], s);
    }
  }

  lemma {:induction false} TrimEndDrops(s: string, blank: string)
    requires Blank(blank) && (s != "" ==> !IsSpace(s[|s| - 1]))
    ensures TrimEnd(s + blank) == s
    decreases |blank|
  {
    hide IsSpace;
    if blank == "" {
      assert s + blank == s;
    } else {
      var rest := blank[..|blank| - 1];
      assert (s + blank)[..|s + blank| - 1] == s + rest && (s + blank)[|s + blank| - 1] == blank[|blank| - 1];
      TrimEndDrops(s, rest);
    }
  }

  /** Trimming gives the tight text between blank ends. */
  lemma TrimIsExact(before: string, s: string, after: string)
    requires Blank(before) && Tight(s) && Blank(after)
    ensures Trim(before + s + after) == s
  {
    hide IsSpace, Blank;
    if s == "" {
      assert before + s + after == before + after + "";
      BlankConcat(before, after);
      TrimStartDrops(before + after, "");
    } else {
      assert before + s + after == before + (s + after) && (s + after)[0] == s[0];
      TrimStartDrops(before, s + after);
      TrimEndDrops(s, after);
    }
  }

  lemma BlankConcat(a: string, b: string)
    requires Blank(a) && Blank(b)
    ensures Blank(a + b)
  {
    hide IsSpace;
  }

  /** Lines with their breaks, each a line feed with or without a carriage return. */
  function Broken(lines: seq<string>, cr: seq<bool>): string
    requires |lines| == |cr| + 1
    decreases lines
  {
    if cr == [] then lines[0]
    else lines[0] + (if cr[0] then "\r\n" else "\n") + Broken(lines[1..], cr[1..])
  }

  predicate IsLine(s: string) {
    '\n' !in s && (s != "" ==> s[|s| - 1] != '\r')
  }

  lemma {:induction false} FirstBreak(line: string, rest: string)
    requires '\n' !in line
    ensures Newline(line + "\n" + rest) == |line|
    decreases |line|
  {
    var s := line + "\n" + rest;
    if line == "" {
      assert s[0] == '\n';
    } else {
      assert s[0] == line[0] && line[0] in line && s[1..] == line[1..] + "\n" + rest;
      assert forall c :: c in line[1..] ==> c in line;
      FirstBreak(line[1..], rest);
    }
  }

  lemma {:induction false} LinesReadBack(lines: seq<string>, cr: seq<bool>)
    requires |lines| == |cr| + 1 && forall l :: l in lines ==> IsLine(l)
    ensures Lines(Broken(lines, cr)) == lines
    decreases lines
  {
    hide Newline;
    assert lines[0] in lines;
    if cr == [] {
      OneLine(lines[0]);
      assert lines == [lines[0]];
    } else {
      assert forall l :: l in lines[1..] ==> l in lines;
      LinesReadBack(lines[1..], cr[1..]);
      hide IsLine, Lines, Broken;
      BrokenFront(lines, cr);
      FirstLine(lines[0], cr[0], Broken(lines[1..], cr[1..]));
      assert lines == [lines[0]] + lines[1..];
    }
  }

  lemma BrokenFront(lines: seq<string>, cr: seq<bool>)
    requires |lines| == |cr| + 1 && cr != []
    ensures Broken(lines, cr) == (if cr[0] then lines[0] + "\r" else lines[0]) + "\n" + Broken(lines[1..], cr[1..])
  {
    assert "\r\n" == "\r" + "\n";
  }

  lemma OneLine(line: string)
    requires IsLine(line)
    ensures Lines(line) == [line]
  {
  }

  lemma FirstLine(line: string, cr: bool, rest: string)
    requires IsLine(line)
    ensures Lines((if cr then line + "\r" else line) + "\n" + rest) == [line] + Lines(rest)
  {
    hide Newline;
    var cut := if cr then line + "\r" else line;
    var s := cut + "\n" + rest;
    FirstBreak(cut, rest);
    assert s[|cut| + 1..] == rest && s[..|cut|] == cut;
    if cr {
      assert s[|cut| - 1] == '\r' && s[..|cut| - 1] == line;
    } else if line != "" {
      assert s[|cut| - 1] == line[|line| - 1];
    }
  }

  /** One line of a block: a data field, padded or not, or any other line. */
  datatype Field = Data(before: string, value: string, after: string) | Other(line: string)

  function Written(field: Field): string {
    match field
    case Data(before, value, after) => "data:" + before + value + after
    case Other(line) => line
  }

  predicate FieldOk(field: Field) {
    IsLine(Written(field)) &&
    match field
    case Data(before, value, after) => Blank(before) && Tight(value) && Blank(after)
    case Other(line) => |line| < 5 || line[..5] != "data:"
  }

  function AllWritten(fields: seq<Field>): (r: seq<string>)
    ensures |r| == |fields| && forall i :: 0 <= i < |fields| ==> r[i] == Written(fields[i])
  {
    seq(|fields|, i requires 0 <= i < |fields| => Written(fields[i]))
  }

  function Values(fields: seq<Field>): seq<string> {
    if fields == [] then []
    else (if fields[0].Data? then [fields[0].value] else []) + Values(fields[1..])
  }

  lemma DataLineIsValue(field: Field)
    requires FieldOk(field)
    ensures "data:" <= Written(field) <==> field.Data?
    ensures field.Data? ==> Trim(Written(field)[5..]) == field.value
  {
    hide IsSpace, IsLine, Blank, Tight;
    match field
    case Data(before, value, after) =>
      assert Written(field) == "data:" + (before + value + after);
      assert Written(field)[5..] == before + value + after;
      TrimIsExact(before, value, after);
    case Other(line) =>
  }

  lemma {:induction false} DataLinesAreValues(fields: seq<Field>)
    requires forall f :: f in fields ==> FieldOk(f)
    ensures DataLines(AllWritten(fields)) == Values(fields)
  {
    hide FieldOk, Written, Trim;
    if fields != [] {
      assert fields[0] in fields && forall f :: f in fields[1..] ==> f in fields;
      DataLinesAreValues(fields[1..]);
      DataLineIsValue(fields[0]);
      assert AllWritten(fields)[1..] == AllWritten(fields[1..]);
    }
  }

  lemma {:induction false} JoiningIsBreaking(values: seq<string>, breaks: seq<bool>)
    requires |values| == |breaks| + 1 && forall i :: 0 <= i < |breaks| ==> !breaks[i]
    ensures JoinLines(values) == Broken(values, breaks)
    decreases values
  {
    if breaks != [] {
      JoiningIsBreaking(values[1..], breaks[1..]);
      assert |values| > 1 && !breaks[0];
    }
  }

  lemma AllAreLines(fields: seq<Field>)
    requires forall f :: f in fields ==> FieldOk(f)
    ensures forall l :: l in AllWritten(fields) ==> IsLine(l)
  {
    forall i | 0 <= i < |fields| ensures IsLine(AllWritten(fields)[i]) {
      assert FieldOk(fields[i]);
    }
  }

  /** A block means its data fields, trimmed, one to a line; other lines, and carriage
      cr before the breaks, mean nothing. No data at all, or the end marker, is
      ignored. */
  lemma BlockMeansItsData(fields: seq<Field>, cr: seq<bool>, decode: string -> Decoded)
    requires |fields| == |cr| + 1 && forall f :: f in fields ==> FieldOk(f)
    ensures var data := if Values(fields) == [] then "" else Broken(Values(fields), seq(|Values(fields)| - 1, _ => false));
            Interpret(Broken(AllWritten(fields), cr), decode) == if data in {"", "[DONE]"} then Ignored else decode(data)
  {
    hide FieldOk, Written, IsLine;
    AllAreLines(fields);
    LinesReadBack(AllWritten(fields), cr);
    DataLinesAreValues(fields);
    if Values(fields) != [] {
      JoiningIsBreaking(Values(fields), seq(|Values(fields)| - 1, _ => false));
    }
    hide DataLines, Lines, JoinLines, Broken;
  }

  // ---------- The loops themselves ----------

  lemma FirstBlock(text: string, decode: string -> Decoded)
    requires Boundary(text) >= 0
    ensures var raw, tail := text[..Boundary(text)], text[Boundary(text) + 2..];
            && Blocks(text).remainder == Blocks(tail).remainder
            && var whole, rest := Events(Blocks(text).blocks, decode), Events(Blocks(tail).blocks, decode);
               match Interpret(raw, decode)
               case Malformed => whole == Outcome([], true)
               case Ignored => whole == rest
               case Event(e) => whole == Outcome([e] + rest.events, rest.failed)
  {
    hide Interpret;
    var raw, tail := text[..Boundary(text)], Blocks(text[Boundary(text) + 2..]);
    assert ([raw] + tail.blocks)[1..] == tail.blocks;
  }

  /** parseAvatarGenerationSseBuffer. */
  method ParseBuffer(text: string, decode: string -> Decoded) returns (outcome: Outcome, remainder: string)
    ensures outcome == Events(Blocks(text).blocks, decode)
    ensures !outcome.failed ==> remainder == Blocks(text).remainder && Boundary(remainder) < 0
  {
    NoBlocks(decode);
    var events: seq<string> := [];
    remainder := text;
    ghost var whole := Events(Blocks(text).blocks, decode);
    var boundary := Boundary(remainder);
    while boundary >= 0
      invariant boundary == Boundary(remainder) && Blocks(text).remainder == Blocks(remainder).remainder
      invariant var rest := Events(Blocks(remainder).blocks, decode);
                whole.events == events + rest.events && whole.failed == rest.failed
      decreases |remainder|
    {
      hide Interpret, Blocks, Events, Boundary;
      FirstBlock(remainder, decode);
      var raw := remainder[..boundary];
      remainder := remainder[boundary + 2..];
      match Interpret(raw, decode) {
        case Malformed =>
          return Outcome(events, true), remainder;
        case Ignored =>
        case Event(e) =>
          Associate(events, [e], Events(Blocks(remainder).blocks, decode).events);
          events := events + [e];
      }
      boundary := Boundary(remainder);
    }
    outcome := Outcome(events, false);
  }

  lemma NoBlocks(decode: string -> Decoded)
    ensures forall text: string ::
              Boundary(text) < 0 ==> Blocks(text) == Split([], text) && Events(Blocks(text).blocks, decode) == Outcome([], false)
  {
  }

  /** readAvatarGenerationEventStream over the decoded chunks; `delivered` is what the
      listener was called with, whether or not the stream then failed. */
  method ReadStream(chunks: seq<string>, decode: string -> Decoded) returns (delivered: seq<string>, failed: bool)
    ensures Outcome(delivered, failed) == Feed(chunks, "", decode)
    ensures failed == Whole(Concat(chunks), decode).failed
    ensures !failed ==> delivered == Whole(Concat(chunks), decode).events
  {
    ChunkingIsInvisible(chunks, "", decode);
    assert "" + Concat(chunks) == Concat(chunks);
    delivered, failed := [], false;
    var buffer, i := "", 0;
    while i < |chunks|
      invariant i <= |chunks|
      invariant var whole, rest := Feed(chunks, "", decode), Feed(chunks[i..], buffer, decode);
                whole.events == delivered + rest.events && whole.failed == rest.failed
    {
      hide Events, Blocks, Whole;
      assert chunks[i..][1..] == chunks[i + 1..];
      var parsed, remainder := ParseBuffer(buffer + chunks[i], decode);
      if parsed.failed {
        return delivered, true;
      }
      Associate(delivered, parsed.events, Feed(chunks[i + 1..], remainder, decode).events);
      buffer, delivered, i := remainder, delivered + parsed.events, i + 1;
    }
    var parsed, _ := ParseBuffer(buffer + BLANK_LINE, decode);
    if parsed.failed {
      return delivered, true;
    }
    delivered := delivered + parsed.events;
  }
}
