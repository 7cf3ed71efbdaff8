/** The incremental reader of a server-sent event stream, and the gateway that writes it. The wire format is a
    simplified form of section 9.2.6 of the WHATWG HTML Living Standard. */
module Stream {
  import opened Common

  // --- cutting a buffer into frames -------------------------------------------------------------------

  const BLANK := "\n\n"

  predicate IsBlank(text: string, i: nat) {
    i + 2 <= |text| && text[i] == '\n' && text[i + 1] == '\n'
  }

  /** Where the next blank line starts, searching from a position that may lie past the end. */
  function NextEnd(text: string, from: nat): (end: Option<nat>)
    ensures end.Some? ==> from <= end.value && end.value + 2 <= |text|
    decreases |text| - from
  {
    if from + 2 > |text| then None
    else if IsBlank(text, from) then Some(from)
    else NextEnd(text, from + 1)
  }

  /** The first is found and none before it missed. */
  lemma {:induction false} NextEndIs(text: string, from: nat, e: nat)
    requires from <= e && IsBlank(text, e) && forall i :: from <= i < e ==> !IsBlank(text, i)
    ensures NextEnd(text, from) == Some(e)
    decreases e - from
  {
    if from < e {
      NextEndIs(text, from + 1, e);
    }
  }

  lemma {:induction false} NoEnd(text: string, from: nat)
    requires forall i :: from <= i ==> !IsBlank(text, i)
    ensures NextEnd(text, from) == None
    decreases |text| - from
  {
    if from + 2 <= |text| {
      NoEnd(text, from + 1);
    }
  }

  /** Frames, and the position after the last of them. */
  datatype Pieces = Pieces(frames: seq<string>, end: nat)

  /** Every complete frame from a position on, in order. */
  function Cut(text: string, from: nat): (p: Pieces)
    ensures from <= p.end && (from <= |text| ==> p.end <= |text|)
    decreases |text| - from
  {
    match NextEnd(text, from)
    case None => Pieces([], from)
    case Some(e) =>
      var rest := Cut(text, e + 2);
      Pieces([text[from..e]] + rest.frames, rest.end)
  }

  lemma {:induction false} EndStays(text: string, longer: string, from: nat)
    requires text <= longer && NextEnd(text, from).Some?
    ensures NextEnd(longer, from) == NextEnd(text, from)
    decreases |text| - from
  {
    assert longer[from] == text[from] && longer[from + 1] == text[from + 1];
    if !IsBlank(text, from) {
      EndStays(text, longer, from + 1);
    }
  }

  function Joined(a: Pieces, b: Pieces): Pieces {
    Pieces(a.frames + b.frames, b.end)
  }

  lemma JoinedAfter(frame: string, a: Pieces, b: Pieces)
    ensures [frame] + Joined(a, b).frames == ([frame] + a.frames) + b.frames
  {
  }

  /** Cutting what has arrived so far and later what came after it cuts the same frames as cutting it all. */
  lemma {:induction false} CutInTwo(text: string, longer: string, from: nat)
    requires text <= longer && from <= |text|
    ensures Cut(longer, from) == Joined(Cut(text, from), Cut(longer, Cut(text, from).end))
    decreases |text| - from
  {
    if NextEnd(text, from).None? {
      assert [] + Cut(longer, from).frames == Cut(longer, from).frames;
    } else {
      EndStays(text, longer, from);
      var e := NextEnd(text, from).value;
      CutInTwo(text, longer, e + 2);
      assert longer[from..e] == text[from..e];
      JoinedAfter(text[from..e], Cut(text, e + 2), Cut(longer, Cut(text, e + 2).end));
    }
  }

  /** Nothing is left to cut once everything complete has been taken. */
  lemma {:induction false} CutLeavesNoFrame(text: string, from: nat)
    ensures NextEnd(text, Cut(text, from).end).None?
    decreases |text| - from
  {
    if NextEnd(text, from).Some? {
      CutLeavesNoFrame(text, NextEnd(text, from).value + 2);
    }
  }

  // --- progress events --------------------------------------------------------------------------------

  /** Each is everything received so far. */
  predicate Growing(buffers: seq<string>) {
    forall k :: 0 < k < |buffers| ==> buffers[k - 1] <= buffers[k]
  }

  /** One drain after another, each from where the last one stopped. */
  function DrainEach(buffers: seq<string>): Pieces {
    if buffers == [] then Pieces([], 0)
    else
      var n := |buffers| - 1;
      var before := DrainEach(buffers[..n]);
      Joined(before, Cut(buffers[n], before.end))
  }

  /** However the response is split into progress events, the frames delivered are those of one drain of the
      whole text, in order and without repeats. */
  lemma {:induction false} ChunksDoNotMatter(buffers: seq<string>)
    requires Growing(buffers) && buffers != []
    ensures DrainEach(buffers) == Cut(buffers[|buffers| - 1], 0)
  {
    var n := |buffers| - 1;
    if n == 0 {
      assert DrainEach(buffers[..0]) == Pieces([], 0);
      assert [] + Cut(buffers[0], 0).frames == Cut(buffers[0], 0).frames;
    } else {
      ChunksDoNotMatter(buffers[..n]);
      assert buffers[..n][n - 1] == buffers[n - 1] <= buffers[n];
      CutInTwo(buffers[n - 1], buffers[n], 0);
    }
  }

  // --- one frame ----------------------------------------------------------------------------------------

  /** What the language trims from the start of a string. */
  predicate IsSpace(c: char) {
    var k := c as int;
    || 0x09 <= k <= 0x0D || k == 0x20 || k == 0xA0 || k == 0x1680 || 0x2000 <= k <= 0x200A
    || k == 0x2028 || k == 0x2029 || k == 0x202F || k == 0x205F || k == 0x3000 || k == 0xFEFF
  }

  function TrimStart(s: string): string {
    if s != [] && IsSpace(s[0]) then TrimStart(s[1..]) else s
  }

  function Lines(s: string): (ls: seq<string>)
    ensures ls != []
  {
    if s == [] then [""]
    else if s[0] == '\n' then [""] + Lines(s[1..])
    else
      var rest := Lines(s[1..]);
      [[s[0]] + rest[0]] + rest[1..]
  }

  predicate IsData(line: string) {
    "data:" <= line
  }

  /** A line that carries data adds it, less its leading space; any other line adds nothing. */
  function Data(lines: seq<string>): string {
    if lines == [] then ""
    else
      var last := lines[|lines| - 1];
      Data(lines[..|lines| - 1]) + if IsData(last) then TrimStart(last[5..]) else ""
  }

  /** What the JSON parser makes of a text, if anything. */
  type Decoder<!E> = string -> Option<E>

  function Parse<E>(frame: string, decode: Decoder<E>): Option<E> {
    var data := Data(Lines(frame));
    if data == "" then None else decode(data)
  }

  function Events<E>(frames: seq<string>, decode: Decoder<E>): seq<E> {
    if frames == [] then []
    else
      (match Parse(frames[0], decode) case None => [] case Some(e) => [e]) + Events(frames[1..], decode)
  }

  lemma {:induction false} EventsConcat<E>(a: seq<string>, b: seq<string>, decode: Decoder<E>)
    ensures Events(a + b, decode) == Events(a, decode) + Events(b, decode)
  {
    if a == [] {
      assert a + b == b;
    } else {
      assert (a + b)[1..] == a[1..] + b;
      EventsConcat(a[1..], b, decode);
    }
  }

  lemma {:induction false} DataConcat(a: seq<string>, b: seq<string>)
    ensures Data(a + b) == Data(a) + Data(b)
  {
    if b == [] {
      assert a + b == a;
    } else {
      var n := |b| - 1;
      assert (a + b)[..|a| + n] == a + b[..n];
      DataConcat(a, b[..n]);
    }
  }

  /** Comments, blank lines and the other fields make no difference wherever they stand. */
  lemma OtherLinesAreIgnored(before: seq<string>, line: string, after: seq<string>)
    requires !IsData(line)
    ensures Data(before + [line] + after) == Data(before + after)
  {
    DataConcat(before + [line], after);
    DataConcat(before, [line]);
    DataConcat(before, after);
    assert Data([line]) == "" by {
      assert [line][..0] == [];
    }
  }

  // --- the gateway ----------------------------------------------------------------------------------------

  datatype Item = Heartbeat | Subscribed | Event(id: string, kind: string, payload: string)

  /** What the gateway writes of each, short of the blank line that ends it. */
  function FrameOf(item: Item): string {
    match item
    case Heartbeat => ": keep-alive"
    case Subscribed => ": subscribed"
    case Event(id, kind, payload) =>
      if id != "" then "id: " + id + "\n" + BodyOf(kind, payload) else BodyOf(kind, payload)
  }

  function BodyOf(kind: string, payload: string): string {
    "event: " + kind + "\n" + ("data: " + payload)
  }

  function Wire(items: seq<Item>): string {
    if items == [] then "" else FrameOf(items[0]) + BLANK + Wire(items[1..])
  }

  predicate OneLine(s: string) {
    forall i :: 0 <= i < |s| ==> s[i] != '\n'
  }

  /** An encoded envelope is a JSON object on one line; identifiers and types hold no line break. */
  predicate Writable(item: Item) {
    item.Event? ==>
      && OneLine(item.id) && OneLine(item.kind) && OneLine(item.payload)
      && item.payload != "" && !IsSpace(item.payload[0])
  }

  /** Any JSON text on one line is writable: none begins with what the reader trims, and what it trims is not
      part of the text. */
  lemma JsonIsWritable(id: string, kind: string, payload: string)
    requires OneLine(id) && OneLine(kind) && OneLine(payload)
    requires payload != "" && payload[0] in "{[\"-0123456789tfn"
    ensures Writable(Event(id, kind, payload))
    ensures TrimStart(" " + payload) == TrimStart("\t" + payload) == payload
  {
    assert (" " + payload)[1..] == payload && ("\t" + payload)[1..] == payload;
    assert TrimStart(payload) == payload;
  }

  /** No blank line inside it, and no line break at its end. */
  predicate Solid(frame: string) {
    forall i :: 0 <= i < |frame| && frame[i] == '\n' ==> i + 1 < |frame| && frame[i + 1] != '\n'
  }

  lemma SolidFrameEnds(frame: string, rest: string)
    requires Solid(frame)
    ensures NextEnd(frame + BLANK + rest, 0) == Some(|frame|)
  {
    var text := frame + BLANK + rest;
    var n := |frame|;
    forall i | 0 <= i < n ensures !IsBlank(text, i) {
      assert text[i] == frame[i];
      if frame[i] == '\n' {
        assert text[i + 1] == frame[i + 1];
      }
    }
    assert text[n] == BLANK[0] && text[n + 1] == BLANK[1];
    NextEndIs(text, 0, n);
  }

  /** What stands before a position makes no difference to what is found after it. */
  lemma {:induction false} EndShifts(before: string, text: string, from: nat)
    ensures NextEnd(before + text, |before| + from) ==
            match NextEnd(text, from) case None => None case Some(e) => Some(|before| + e)
    decreases |text| - from
  {
    if from + 2 <= |text| {
      var all := before + text;
      assert all[|before| + from] == text[from] && all[|before| + from + 1] == text[from + 1];
      if !IsBlank(text, from) {
        EndShifts(before, text, from + 1);
      }
    }
  }

  lemma {:induction false} CutShifts(before: string, text: string, from: nat)
    requires from <= |text|
    ensures Cut(before + text, |before| + from) == Pieces(Cut(text, from).frames, |before| + Cut(text, from).end)
    decreases |text| - from
  {
    EndShifts(before, text, from);
    if NextEnd(text, from).Some? {
      var e := NextEnd(text, from).value;
      CutShifts(before, text, e + 2);
      assert (before + text)[|before| + from..|before| + e] == text[from..e];
    }
  }

  lemma CutHere(text: string, from: nat, e: nat)
    requires NextEnd(text, from) == Some(e)
    ensures Cut(text, from) == Pieces([text[from..e]] + Cut(text, e + 2).frames, Cut(text, e + 2).end)
  {
  }

  lemma FrameStandsFirst(frame: string, rest: string)
    ensures (frame + BLANK + rest)[0..|frame|] == frame && |frame + BLANK| == |frame| + 2
  {
  }

  lemma SolidFrameIsCut(frame: string, rest: string)
    requires Solid(frame)
    ensures Cut(frame + BLANK + rest, 0) ==
            Pieces([frame] + Cut(rest, 0).frames, |frame| + 2 + Cut(rest, 0).end)
  {
    FrameStandsFirst(frame, rest);
    SolidFrameEnds(frame, rest);
    CutHere(frame + BLANK + rest, 0, |frame|);
    CutShifts(frame + BLANK, rest, 0);
  }

  lemma JoinedIsSolid(line: string, rest: string)
    requires OneLine(line) && Solid(rest) && rest != "" && rest[0] != '\n'
    ensures Solid(line + "\n" + rest)
  {
  }

  lemma {:induction false} LinesOfOne(line: string)
    requires OneLine(line)
    ensures Lines(line) == [line]
  {
    if line != [] {
      LinesOfOne(line[1..]);
      assert [line[0]] + line[1..] == line;
    }
  }

  lemma {:induction false} LinesJoined(line: string, rest: string)
    requires OneLine(line)
    ensures Lines(line + "\n" + rest) == [line] + Lines(rest)
  {
    var s := line + "\n" + rest;
    if line == [] {
      assert s[1..] == rest;
    } else {
      LinesJoined(line[1..], rest);
      assert s[1..] == line[1..] + "\n" + rest;
      assert [line[0]] + line[1..] == line;
    }
  }

  lemma OneDataLine(payload: string)
    requires payload != "" && !IsSpace(payload[0])
    ensures Data(["data: " + payload]) == payload
  {
    var line: string := "data: " + payload;
    assert IsData(line) && line[5..] == " " + payload;
    assert (" " + payload)[1..] == payload;
    var lines: seq<string> := [line];
    assert lines[..0] == [];
    assert Data(lines) == "" + TrimStart(" " + payload);
    assert TrimStart(" " + payload) == TrimStart(payload) == payload;
  }

  lemma CommentReadsBack(line: string)
    requires OneLine(line) && !IsData(line)
    ensures Solid(line) && Data(Lines(line)) == ""
  {
    LinesOfOne(line);
    var lines: seq<string> := [line];
    assert lines[..0] == [];
  }

  lemma FirstLineIsIgnored(line: string, rest: seq<string>)
    requires !IsData(line)
    ensures Data([line] + rest) == Data(rest)
  {
    OtherLinesAreIgnored([], line, rest);
    assert [] + [line] + rest == [line] + rest && [] + rest == rest;
  }

  lemma BodyReadsBack(kind: string, payload: string)
    requires OneLine(kind) && OneLine(payload) && payload != "" && !IsSpace(payload[0])
    ensures Solid(BodyOf(kind, payload)) && Data(Lines(BodyOf(kind, payload))) == payload
  {
    var b, c := "event: " + kind, "data: " + payload;
    assert OneLine(b) && OneLine(c);
    LinesOfOne(c);
    LinesJoined(b, c);
    JoinedIsSolid(b, c);
    OneDataLine(payload);
    assert !IsData(b) by { assert b[0] == 'e'; }
    FirstLineIsIgnored(b, [c]);
  }

  lemma PrefacedReadsBack(id: string, body: string)
    requires OneLine(id) && Solid(body) && body != "" && body[0] != '\n'
    ensures var frame := "id: " + id + "\n" + body;
            Solid(frame) && Data(Lines(frame)) == Data(Lines(body))
  {
    var a := "id: " + id;
    assert OneLine(a);
    LinesJoined(a, body);
    JoinedIsSolid(a, body);
    assert !IsData(a) by { assert a[0] == 'i'; }
    FirstLineIsIgnored(a, Lines(body));
  }

  /** The gateway's frame parses back to exactly the payload it carries; a comment parses to nothing. */
  lemma FrameReadsBack(item: Item)
    requires Writable(item)
    ensures Solid(FrameOf(item))
    ensures Data(Lines(FrameOf(item))) == if item.Event? then item.payload else ""
  {
    match item
    case Event(id, kind, payload) =>
      BodyReadsBack(kind, payload);
      assert BodyOf(kind, payload)[0] == 'e';
      if id != "" {
        PrefacedReadsBack(id, BodyOf(kind, payload));
      }
    case _ =>
      assert FrameOf(item)[0] == ':';
      CommentReadsBack(FrameOf(item));
  }

  /** What a subscriber should see: the events whose payload decodes, in order. */
  function Sent<E>(items: seq<Item>, decode: Decoder<E>): seq<E> {
    if items == [] then []
    else
      (if items[0].Event? then match decode(items[0].payload) case None => [] case Some(e) => [e] else [])
      + Sent(items[1..], decode)
  }

  function FramesOf(items: seq<Item>): seq<string> {
    if items == [] then [] else [FrameOf(items[0])] + FramesOf(items[1..])
  }

  /** Every frame the gateway writes is cut out again, and nothing is left over. */
  lemma {:induction false} WireIsCut(items: seq<Item>)
    requires forall k :: 0 <= k < |items| ==> Writable(items[k])
    ensures Cut(Wire(items), 0) == Pieces(FramesOf(items), |Wire(items)|)
  {
    if items != [] {
      FrameReadsBack(items[0]);
      SolidFrameIsCut(FrameOf(items[0]), Wire(items[1..]));
      WireIsCut(items[1..]);
      assert Wire(items) == FrameOf(items[0]) + BLANK + Wire(items[1..]);
    }
  }

  lemma {:induction false} FramesReadBack<E>(items: seq<Item>, decode: Decoder<E>)
    requires forall k :: 0 <= k < |items| ==> Writable(items[k])
    ensures Events(FramesOf(items), decode) == Sent(items, decode)
  {
    if items != [] {
      FrameReadsBack(items[0]);
      FramesReadBack(items[1..], decode);
      assert FramesOf(items)[1..] == FramesOf(items[1..]);
    }
  }

  /** From the gateway to the app: whatever is written, with whatever heartbeats, arrives as the same events in
      the same order, however the bytes are split on the way. */
  lemma DeliveryIsExact<E>(items: seq<Item>, buffers: seq<string>, decode: Decoder<E>)
    requires forall k :: 0 <= k < |items| ==> Writable(items[k])
    requires Growing(buffers) && buffers != [] && buffers[|buffers| - 1] == Wire(items)
    ensures Events(DrainEach(buffers).frames, decode) == Sent(items, decode)
  {
    ChunksDoNotMatter(buffers);
    WireIsCut(items);
    FramesReadBack(items, decode);
  }
}
