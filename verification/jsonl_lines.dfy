/**
 Assembling JSONL records from file chunks (AgentSourceCore/src/jsonl-lines.ts). Decoding one
 line - UTF-8, trimming, `JSON.parse` and the object test - is a parameter.
 */
module JsonlLines {
  import opened Wrappers

  type Byte = x: int | 0 <= x < 256

  const NEWLINE: Byte := 0x0a
  const MAX_RECORD_BYTES := 64 * 1024 * 1024

  datatype Decoded<+R> = Blank | Invalid | Object(record: R)

  /** What the caller observes: a yielded record, or a report through `onInvalidRecord`. */
  datatype Event<+R> = Record(record: R) | Dropped(reason: string)

  /** The lines of a text: its newline-separated pieces, the last one after the last newline. */
  function Lines(bytes: seq<Byte>): (lines: seq<seq<Byte>>)
    ensures lines != []
  {
    if bytes == [] then [[]]
    else
      var front := Lines(bytes[..|bytes| - 1]);
      if Wrappers.Last(bytes) == NEWLINE then front + [[]]
      else front[..|front| - 1] + [Wrappers.Last(front) + [Wrappers.Last(bytes)]]
  }

  function EventsOfLine<R>(line: seq<Byte>, decode: seq<Byte> -> Decoded<R>): seq<Event<R>> {
    if |line| > MAX_RECORD_BYTES then [Dropped("source_record_over_limit")]
    else match decode(line)
      case Blank => []
      case Invalid => [Dropped("source_record_invalid")]
      case Object(record) => [Record(record)]
  }

  function EventsOfLines<R>(lines: seq<seq<Byte>>, decode: seq<Byte> -> Decoded<R>): seq<Event<R>> {
    if lines == [] then []
    else EventsOfLines(lines[..|lines| - 1], decode) + EventsOfLine(Wrappers.Last(lines), decode)
  }

  /** The record under construction, as segments of the chunks it was found in. */
  class LineAssembler<R> {
    const decode: seq<Byte> -> Decoded<R>
    var segments: seq<seq<Byte>>
    var recordBytes: nat
    var overLimit: bool
    ghost var line: seq<Byte>

    /** The segments are the line read so far, and at most the limit is ever buffered. */
    ghost predicate Valid()
      reads this
    {
      && (overLimit || recordBytes == |Flatten(segments)|)
      && |Flatten(segments)| <= MAX_RECORD_BYTES
      && overLimit == (|line| > MAX_RECORD_BYTES)
      && (if overLimit then segments == [] else Flatten(segments) == line)
    }

    constructor (decode: seq<Byte> -> Decoded<R>)
      ensures Valid() && line == [] && this.decode == decode
    {
      this.decode := decode;
      segments, recordBytes, overLimit, line := [], 0, false, [];
    }

    method Append(segment: seq<Byte>)
      requires Valid()
      modifies this
      ensures Valid() && line == old(line) + segment
    {
      line := line + segment;
      if overLimit || segment == [] { return; }
      recordBytes := recordBytes + |segment|;
      if recordBytes > MAX_RECORD_BYTES {
        segments := [];
        overLimit := true;
        return;
      }
      FlattenSnoc(segments, segment);
      segments := segments + [segment];
    }

    method Reset()
      modifies this
      ensures Valid() && line == []
    {
      segments, recordBytes, overLimit, line := [], 0, false, [];
    }

    method ParseSegments() returns (events: seq<Event<R>>)
      requires Valid()
      ensures events == EventsOfLine(line, decode)
    {
      if overLimit { return [Dropped("source_record_over_limit")]; }
      var text := if |segments| == 1 then segments[0] else Flatten(segments);
      assert |segments| == 1 ==> segments[0] + Flatten(segments[1..]) == segments[0];
      match decode(text)
      case Blank => return [];
      case Invalid => return [Dropped("source_record_invalid")];
      case Object(record) => return [Record(record)];
    }
  }

  function IndexOfNewline(buffer: seq<Byte>, start: nat): (index: nat)
    requires start <= |buffer|
    ensures start <= index <= |buffer|
    ensures NEWLINE !in buffer[start..index]
    ensures index < |buffer| ==> buffer[index] == NEWLINE
    decreases |buffer| - start
  {
    if start == |buffer| || buffer[start] == NEWLINE then start
    else
      var index := IndexOfNewline(buffer, start + 1);
      assert buffer[start..index] == [buffer[start]] + buffer[start + 1..index];
      index
  }

  lemma LinesByte(bytes: seq<Byte>, byte: Byte)
    ensures var lines := Lines(bytes);
            Lines(bytes + [byte])
            == if byte == NEWLINE then lines + [[]] else lines[..|lines| - 1] + [Wrappers.Last(lines) + [byte]]
  {
  }

  /** Appending a stretch without newlines extends the last line. */
  lemma {:induction false} LinesAppend(bytes: seq<Byte>, segment: seq<Byte>)
    requires NEWLINE !in segment
    ensures var lines := Lines(bytes);
            Lines(bytes + segment) == lines[..|lines| - 1] + [Wrappers.Last(lines) + segment]
  {
    hide Lines;
    var lines := Lines(bytes);
    if segment == [] {
      assert bytes + segment == bytes && Wrappers.Last(lines) + segment == Wrappers.Last(lines);
    } else {
      var front, last := segment[..|segment| - 1], Wrappers.Last(segment);
      assert segment == front + [last];
      LinesAppend(bytes, front);
      LinesByte(bytes + front, last);
      assert bytes + segment == bytes + front + [last];
      assert Wrappers.Last(lines) + front + [last] == Wrappers.Last(lines) + segment;
    }
  }

  /** What has been reported, and what is under construction, after reading `bytes`. */
  ghost predicate ReadSoFar<R>(bytes: seq<Byte>, events: seq<Event<R>>, line: seq<Byte>,
      decode: seq<Byte> -> Decoded<R>) {
    var lines := Lines(bytes);
    events == EventsOfLines(lines[..|lines| - 1], decode) && line == Wrappers.Last(lines)
  }

  lemma ReadSegment<R>(bytes: seq<Byte>, segment: seq<Byte>, events: seq<Event<R>>, line: seq<Byte>,
      decode: seq<Byte> -> Decoded<R>)
    requires ReadSoFar(bytes, events, line, decode) && NEWLINE !in segment
    ensures ReadSoFar(bytes + segment, events, line + segment, decode)
  {
    LinesAppend(bytes, segment);
    var lines := Lines(bytes);
    assert (lines[..|lines| - 1] + [line + segment])[..|lines| - 1] == lines[..|lines| - 1];
  }

  lemma ReadNewline<R>(bytes: seq<Byte>, events: seq<Event<R>>, line: seq<Byte>, decode: seq<Byte> -> Decoded<R>)
    requires ReadSoFar(bytes, events, line, decode)
    ensures ReadSoFar(bytes + [NEWLINE], events + EventsOfLine(line, decode), [], decode)
  {
  }

  lemma ReadAll<R>(bytes: seq<Byte>, events: seq<Event<R>>, line: seq<Byte>, decode: seq<Byte> -> Decoded<R>)
    requires ReadSoFar(bytes, events, line, decode)
    ensures events + EventsOfLine(line, decode) == EventsOfLines(Lines(bytes), decode)
  {
  }

  method ReadChunk<R>(assembler: LineAssembler<R>, buffer: seq<Byte>, ghost bytes: seq<Byte>, before: seq<Event<R>>)
    returns (events: seq<Event<R>>)
    requires assembler.Valid() && ReadSoFar(bytes, before, assembler.line, assembler.decode)
    modifies assembler
    ensures assembler.Valid() && ReadSoFar(bytes + buffer, events, assembler.line, assembler.decode)
  {
    hide ReadSoFar, EventsOfLine;
    var start := 0;
    events := before;
    ghost var seen := bytes;
    while start <= |buffer|
      invariant 0 <= start <= |buffer| && seen == bytes + buffer[..start]
      invariant assembler.Valid() && ReadSoFar(seen, events, assembler.line, assembler.decode)
      decreases |buffer| - start
    {
      var newline := IndexOfNewline(buffer, start);
      ReadSegment(seen, buffer[start..newline], events, assembler.line, assembler.decode);
      assembler.Append(buffer[start..newline]);
      seen := seen + buffer[start..newline];
      assert buffer[..start] + buffer[start..newline] == buffer[..newline];
      assert seen == bytes + buffer[..newline];
      if newline == |buffer| {
        assert buffer[..newline] == buffer;
        break;
      }
      ReadNewline(seen, events, assembler.line, assembler.decode);
      var parsed := assembler.ParseSegments();
      assembler.Reset();
      events := events + parsed;
      seen := seen + [NEWLINE];
      assert buffer[..newline] + [NEWLINE] == buffer[..newline + 1];
      start := newline + 1;
    }
  }

  /** However the file is cut into chunks, the events are those of its lines, in order. */
  method ReadJsonlObjects<R>(chunks: seq<seq<Byte>>, decode: seq<Byte> -> Decoded<R>) returns (events: seq<Event<R>>)
    ensures events == EventsOfLines(Lines(Flatten(chunks)), decode)
  {
    hide ReadSoFar, EventsOfLine, EventsOfLines, Lines;
    var assembler := new LineAssembler(decode);
    events := [];
    ReadNothing(decode);
    for i := 0 to |chunks|
      invariant assembler.Valid() && ReadSoFar(Flatten(chunks[..i]), events, assembler.line, decode)
    {
      events := ReadChunk(assembler, chunks[i], Flatten(chunks[..i]), events);
      FlattenSnoc(chunks[..i], chunks[i]);
      assert chunks[..i + 1] == chunks[..i] + [chunks[i]];
    }
    assert chunks[..|chunks|] == chunks;
    ReadAll(Flatten(chunks), events, assembler.line, decode);
    var parsed := assembler.ParseSegments();
    events := events + parsed;
  }

  lemma ReadNothing<R>(decode: seq<Byte> -> Decoded<R>)
    ensures ReadSoFar([], [], [], decode)
  {
  }

  /** The specification is the file itself: joining the lines with newlines gives the bytes back. */
  function Join(lines: seq<seq<Byte>>): seq<Byte> {
    if lines == [] then []
    else if |lines| == 1 then lines[0]
    else Join(lines[..|lines| - 1]) + [NEWLINE] + Wrappers.Last(lines)
  }

  ghost predicate FreeOfNewlines(lines: seq<seq<Byte>>) {
    forall i | 0 <= i < |lines| :: NEWLINE !in lines[i]
  }

  lemma JoinNothing()
    ensures Join(Lines([])) == [] && FreeOfNewlines(Lines([]))
  {
  }

  lemma {:induction false} LinesPartitionTheFile(bytes: seq<Byte>)
    ensures Join(Lines(bytes)) == bytes && FreeOfNewlines(Lines(bytes))
  {
    hide Join, Lines;
    if bytes == [] {
      JoinNothing();
    } else {
      var front, last := bytes[..|bytes| - 1], Wrappers.Last(bytes);
      LinesPartitionTheFile(front);
      assert bytes == front + [last];
      var lines := Lines(front);
      LinesByte(front, last);
      JoinSnoc(lines, []);
      JoinLast(lines[..|lines| - 1], Wrappers.Last(lines), last);
      assert lines == lines[..|lines| - 1] + [Wrappers.Last(lines)];
    }
  }

  lemma JoinSnoc(lines: seq<seq<Byte>>, line: seq<Byte>)
    ensures lines != [] ==> Join(lines + [line]) == Join(lines) + [NEWLINE] + line
  {
  }

  lemma JoinLast(front: seq<seq<Byte>>, last: seq<Byte>, byte: Byte)
    ensures Join(front + [last + [byte]]) == Join(front + [last]) + [byte]
  {
  }

  predicate Fits(line: seq<Byte>) {
    |line| <= MAX_RECORD_BYTES
  }

  function Report<R>(line: seq<Byte>, decode: seq<Byte> -> Decoded<R>): Event<R> {
    if !Fits(line) then Dropped("source_record_over_limit")
    else if decode(line).Object? then Record(decode(line).record)
    else Dropped("source_record_invalid")
  }

  predicate Skipped<R>(line: seq<Byte>, decode: seq<Byte> -> Decoded<R>) {
    Fits(line) && decode(line).Blank?
  }

  lemma LineReports<R>(line: seq<Byte>, decode: seq<Byte> -> Decoded<R>)
    ensures EventsOfLine(line, decode) == if Skipped(line, decode) then [] else [Report(line, decode)]
  {
  }

  lemma KeptLast<R>(lines: seq<seq<Byte>>, decode: seq<Byte> -> Decoded<R>)
    requires lines != []
    ensures var n := |lines| - 1;
            Kept(lines, decode) == Kept(lines[..n], decode) + if Skipped(lines[n], decode) then [] else [n]
  {
  }

  /** What the kept lines report, one by one. */
  ghost predicate Reports<R>(
    lines: seq<seq<Byte>>, decode: seq<Byte> -> Decoded<R>, kept: seq<nat>, events: seq<Event<R>>)
  {
    && |events| == |kept|
    && forall k | 0 <= k < |kept| :: kept[k] < |lines| && events[k] == Report(lines[kept[k]], decode)
  }

  lemma ReportsOneMore<R>(
    lines: seq<seq<Byte>>, line: seq<Byte>, decode: seq<Byte> -> Decoded<R>, kept: seq<nat>, events: seq<Event<R>>)
    requires Reports(lines, decode, kept, events)
    ensures Reports(lines + [line], decode, kept, events)
    ensures Reports(lines + [line], decode, kept + [|lines|], events + [Report(line, decode)])
  {
    hide Report;
  }

  /** Exactly the object lines within the limit are yielded, each once; every other non-blank line is reported once. */
  lemma {:induction false} EveryLineAccountedFor<R>(lines: seq<seq<Byte>>, decode: seq<Byte> -> Decoded<R>)
    ensures Reports(lines, decode, Kept(lines, decode), EventsOfLines(lines, decode))
  {
    hide Reports, Report, Skipped, Kept, EventsOfLine;
    if lines == [] {
      NothingReported(decode);
    } else {
      var front, last := lines[..|lines| - 1], Wrappers.Last(lines);
      EveryLineAccountedFor(front, decode);
      LineReports(last, decode);
      KeptLast(lines, decode);
      ReportsOneMore(front, last, decode, Kept(front, decode), EventsOfLines(front, decode));
      assert lines == front + [last];
      assert Kept(front, decode) + [] == Kept(front, decode);
      assert EventsOfLines(front, decode) + [] == EventsOfLines(front, decode);
    }
  }

  lemma NothingReported<R>(decode: seq<Byte> -> Decoded<R>)
    ensures Reports([], decode, Kept([], decode), EventsOfLines([], decode))
  {
  }

  /** The positions, in increasing order, of the lines that are over the limit or not blank. */
  function Kept<R>(lines: seq<seq<Byte>>, decode: seq<Byte> -> Decoded<R>): (kept: seq<nat>)
    ensures forall k | 0 <= k < |kept| :: kept[k] < |lines| && !Skipped(lines[kept[k]], decode)
    ensures forall j, k | 0 <= j < k < |kept| :: kept[j] < kept[k]
    ensures forall i: nat | i < |lines| && !Skipped(lines[i], decode) :: i in kept
  {
    if lines == [] then []
    else
      var n := |lines| - 1;
      var front := Kept(lines[..n], decode);
      if Skipped(lines[n], decode) then front else front + [n]
  }
}
