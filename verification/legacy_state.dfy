/**
 Reading the agent-source state without its legacy id arrays (`readStateWithoutLegacyIds`,
 Memory/src/agent-source/runtime.ts). The file is rewritten in one pass by a character machine
 that never holds more than one chunk; what it computes is stated on JSON texts, as a tree with
 its white space (sections 2 to 7 of RFC 8259).
 */
module LegacyState {
  import opened Wrappers
  import opened Text

  const KEY := "importedRequestIds"
  const QUOTED_KEY := "\"importedRequestIds\""

  // ---------------------------------------------------------------------------------------
  // JSON texts
  // ---------------------------------------------------------------------------------------

  /** One character of a string, or a backslash and the character after it. */
  datatype Unit = Plain(c: char) | Escape(c: char)

  datatype Value =
    | Literal(text: string)
    | Str(units: seq<Unit>)
    | Arr(pad: string, elements: Elements)
    | Obj(pad: string, members: Members)

  datatype Elements = NoElements | Elements(before: string, value: Value, after: string, rest: Elements)

  datatype Members =
    | NoMembers
    | Members(before: string, key: seq<Unit>, gap: string, lead: string, value: Value, after: string, rest: Members)

  datatype Document = Document(before: string, value: Value, after: string)

  predicate Space(text: string) {
    forall c | c in text :: c in {' ', '\t', '\n', '\r'}
  }

  predicate LiteralChar(c: char) {
    c !in {'"', '[', ']', '{', '}', ':', ',', '\\'} && !IsSpace(c)
  }

  ghost predicate WellFormed(v: Value) {
    match v
    case Literal(text) => text != "" && forall c | c in text :: LiteralChar(c)
    case Str(units) => WellFormedUnits(units)
    case Arr(pad, elements) => Space(pad) && WellFormedElements(elements)
    case Obj(pad, members) => Space(pad) && WellFormedMembers(members)
  }

  ghost predicate WellFormedUnits(units: seq<Unit>) {
    forall u | u in units :: u.Plain? ==> u.c != '"' && u.c != '\\'
  }

  ghost predicate WellFormedElements(e: Elements) {
    e.Elements? ==> Space(e.before) && WellFormed(e.value) && Space(e.after) && WellFormedElements(e.rest)
  }

  ghost predicate WellFormedMembers(m: Members) {
    m.Members? ==>
      && Space(m.before) && WellFormedUnits(m.key) && Space(m.gap) && Space(m.lead)
      && WellFormed(m.value) && Space(m.after) && WellFormedMembers(m.rest)
  }

  function PrintUnits(units: seq<Unit>): string {
    if units == [] then ""
    else (if units[0].Plain? then [units[0].c] else ['\\', units[0].c]) + PrintUnits(units[1..])
  }

  function Print(v: Value): string {
    match v
    case Literal(text) => text
    case Str(units) => "\"" + PrintUnits(units) + "\""
    case Arr(pad, elements) => "[" + (if elements.NoElements? then pad else PrintElements(elements)) + "]"
    case Obj(pad, members) => "{" + (if members.NoMembers? then pad else PrintMembers(members)) + "}"
  }

  function PrintElements(e: Elements): string
    requires e.Elements?
  {
    e.before + Print(e.value) + e.after + (if e.rest.NoElements? then "" else "," + PrintElements(e.rest))
  }

  function PrintMembers(m: Members): string
    requires m.Members?
  {
    m.before + "\"" + PrintUnits(m.key) + "\"" + m.gap + ":" + m.lead + Print(m.value) + m.after
    + (if m.rest.NoMembers? then "" else "," + PrintMembers(m.rest))
  }

  function PrintDocument(d: Document): string {
    d.before + Print(d.value) + d.after
  }

  /** A string with its escape pairs dropped, which is how the machine reads keys. */
  function DropEscapes(units: seq<Unit>): string {
    if units == [] then ""
    else DropEscapes(units[..|units| - 1]) + (if Last(units).Plain? then [Last(units).c] else [])
  }

  predicate ReadsAsKey(units: seq<Unit>) {
    DropEscapes(units) == KEY
  }

  /** The value with every array under such a key emptied; `under` says that the value itself is under one. */
  function Erase(v: Value, under: bool): Value {
    match v
    case Literal(_) => v
    case Str(_) => v
    case Arr(pad, elements) => if under then Arr("", NoElements) else Arr(pad, EraseElements(elements))
    case Obj(pad, members) => Obj(pad, EraseMembers(members))
  }

  function EraseElements(e: Elements): Elements {
    if e.NoElements? then e else Elements(e.before, Erase(e.value, false), e.after, EraseElements(e.rest))
  }

  function EraseMembers(m: Members): Members {
    if m.NoMembers? then m
    else m.(value := Erase(m.value, ReadsAsKey(m.key)), rest := EraseMembers(m.rest))
  }

  // ---------------------------------------------------------------------------------------
  // The machine
  // ---------------------------------------------------------------------------------------

  datatype Machine = Machine(
    inString: bool, escaped: bool, pending: bool, skipDepth: int, skipString: bool, skipEscaped: bool, key: string)

  const START := Machine(false, false, false, 0, false, false, "")

  function Step(m: Machine, c: char): (Machine, string) {
    if m.skipDepth > 0 then
      (if m.skipString then
         (if m.skipEscaped then m.(skipEscaped := false)
          else if c == '\\' then m.(skipEscaped := true)
          else if c == '"' then m.(skipString := false)
          else m)
       else if c == '"' then m.(skipString := true)
       else if c == '[' then m.(skipDepth := m.skipDepth + 1)
       else if c == ']' then m.(skipDepth := m.skipDepth - 1)
       else m, "")
    else if m.inString then
      (if m.escaped then m.(escaped := false)
       else if c == '\\' then m.(escaped := true)
       else if c == '"' then m.(inString := false, key := m.key + [c])
       else if |m.key| < 32 then m.(key := m.key + [c])
       else m, [c])
    else if c == '"' then (m.(inString := true, key := "\""), [c])
    else if m.pending then
      if IsSpace(c) then (m, [c])
      else if c == '[' then (m.(pending := false, skipDepth := 1, skipString := false, skipEscaped := false), "[]")
      else (m.(pending := false), [c])
    else
      (m.(pending := c == ':' && m.key == QUOTED_KEY, key := if IsSpace(c) then m.key else ""), [c])
  }

  function Run(m: Machine, text: string): (Machine, string)
    decreases |text|
  {
    if text == "" then (m, "")
    else
      var (middle, out) := Step(m, text[0]);
      var (after, more) := Run(middle, text[1..]);
      (after, out + more)
  }

  class LegacyIdEraser {
    var inString: bool
    var escaped: bool
    var pendingLegacyArray: bool
    var skipDepth: int
    var skipString: bool
    var skipEscaped: bool
    var keyBuffer: string

    function View(): Machine
      reads this
    {
      Machine(inString, escaped, pendingLegacyArray, skipDepth, skipString, skipEscaped, keyBuffer)
    }

    constructor ()
      ensures View() == START
    {
      inString, escaped, pendingLegacyArray, skipString, skipEscaped := false, false, false, false, false;
      skipDepth, keyBuffer := 0, "";
    }

    method RewriteChar(c: char, emitted: string) returns (after: string)
      modifies this
      ensures (View(), after) == (Step(old(View()), c).0, emitted + Step(old(View()), c).1)
    {
      after := emitted;
      assert emitted + "" == emitted;
      if skipDepth > 0 {
        if skipString {
          if skipEscaped { skipEscaped := false; }
          else if c == '\\' { skipEscaped := true; }
          else if c == '"' { skipString := false; }
        } else if c == '"' { skipString := true; }
        else if c == '[' { skipDepth := skipDepth + 1; }
        else if c == ']' { skipDepth := skipDepth - 1; }
        return;
      }
      if inString {
        after := after + [c];
        if escaped { escaped := false; }
        else if c == '\\' { escaped := true; }
        else if c == '"' {
          inString := false;
          keyBuffer := keyBuffer + [c];
        } else if |keyBuffer| < 32 { keyBuffer := keyBuffer + [c]; }
        return;
      }
      if c == '"' {
        inString := true;
        keyBuffer := "\"";
        after := after + [c];
        return;
      }
      if pendingLegacyArray {
        after := after + [c];
        if IsSpace(c) { return; }
        if c == '[' {
          after := after[..|after| - 1] + "[]";
          pendingLegacyArray := false;
          skipDepth := 1;
          skipString := false;
          skipEscaped := false;
        } else {
          pendingLegacyArray := false;
        }
        return;
      }
      after := after + [c];
      if c == ':' && keyBuffer == QUOTED_KEY { pendingLegacyArray := true; }
      if !IsSpace(c) { keyBuffer := ""; }
    }

    method RewriteChunk(text: string) returns (emitted: string)
      modifies this
      ensures (View(), emitted) == Run(old(View()), text)
    {
      hide Step;
      emitted := "";
      RunNothing(View());
      for index := 0 to |text|
        invariant (View(), emitted) == Run(old(View()), text[..index])
      {
        RunSnoc(old(View()), text[..index], text[index]);
        assert text[..index + 1] == text[..index] + [text[index]];
        emitted := RewriteChar(text[index], emitted);
      }
      assert text[..|text|] == text;
    }
  }

  lemma RunNothing(m: Machine)
    ensures Run(m, "") == (m, "")
  {
  }

  lemma {:induction false} RunAppend(m: Machine, first: string, second: string)
    ensures var (middle, out) := Run(m, first);
            var (after, more) := Run(middle, second);
            Run(m, first + second) == (after, out + more)
    decreases |first|
  {
    hide Step;
    if first == "" {
      assert first + second == second;
      assert "" + Run(m, second).1 == Run(m, second).1;
    } else {
      var (middle, out) := Step(m, first[0]);
      RunAppend(middle, first[1..], second);
      assert (first + second)[1..] == first[1..] + second;
      var (next, some) := Run(middle, first[1..]);
      assert out + (some + Run(next, second).1) == out + some + Run(next, second).1;
    }
  }

  lemma RunChar(m: Machine, c: char)
    ensures Run(m, [c]) == Step(m, c)
  {
    hide Step;
    assert Step(m, c).1 + "" == Step(m, c).1;
  }

  lemma RunSnoc(m: Machine, text: string, c: char)
    ensures var (middle, out) := Run(m, text);
            Run(m, text + [c]) == (Step(middle, c).0, out + Step(middle, c).1)
  {
    hide Step;
    RunAppend(m, text, [c]);
    RunChar(Run(m, text).0, c);
  }

  /** `readStateWithoutLegacyIds`, from the chunks it reads to the text it returns. */
  method RewriteState(chunks: seq<string>) returns (output: string)
    ensures output == Run(START, Flatten(chunks)).1
  {
    hide Run;
    var eraser := new LegacyIdEraser();
    output := "";
    RunNothing(START);
    for i := 0 to |chunks|
      invariant (eraser.View(), output) == Run(START, Flatten(chunks[..i]))
    {
      FlattenSnoc(chunks[..i], chunks[i]);
      RunAppend(START, Flatten(chunks[..i]), chunks[i]);
      assert chunks[..i + 1] == chunks[..i] + [chunks[i]];
      var emitted := eraser.RewriteChunk(chunks[i]);
      assert output + "" == output;
      if emitted != "" {
        output := output + emitted;
      }
    }
    assert chunks[..|chunks|] == chunks;
  }

  // ---------------------------------------------------------------------------------------
  // Skipping
  // ---------------------------------------------------------------------------------------

  predicate Skipping(m: Machine) {
    m.skipDepth > 0 && !m.skipString && !m.skipEscaped
  }

  /** Inert text: nothing that starts a string or changes the depth. */
  lemma {:induction false} SkipInert(m: Machine, text: string)
    requires Skipping(m) && forall c | c in text :: c !in {'"', '[', ']'}
    ensures Run(m, text) == (m, "")
  {
    if text != "" {
      assert "" + "" == "" && text[0] in text && forall c | c in text[1..] :: c in text;
      SkipInert(m, text[1..]);
    }
  }

  lemma {:induction false} SkipUnits(m: Machine, units: seq<Unit>)
    requires m.skipDepth > 0 && m.skipString && !m.skipEscaped && WellFormedUnits(units)
    ensures Run(m, PrintUnits(units)) == (m, "")
  {
    if units != [] {
      assert units[0] in units;
      SkipUnits(m, units[1..]);
      var head := if units[0].Plain? then [units[0].c] else ['\\', units[0].c];
      RunAppend(m, head, PrintUnits(units[1..]));
      if units[0].Plain? {
        RunChar(m, units[0].c);
      } else {
        RunChar(m, '\\');
        RunSnoc(m, ['\\'], units[0].c);
        assert head == ['\\'] + [units[0].c];
      }
    }
  }

  lemma SkipString(m: Machine, units: seq<Unit>)
    requires Skipping(m) && WellFormedUnits(units)
    ensures Run(m, "\"" + PrintUnits(units) + "\"") == (m, "")
  {
    var inside := m.(skipString := true);
    RunChar(m, '"');
    SkipUnits(inside, units);
    RunAppend(m, "\"", PrintUnits(units));
    RunSnoc(m, "\"" + PrintUnits(units), '"');
  }

  /** Whatever an array contains - strings with brackets and quotes, nested arrays - the skip ends where it began. */
  lemma {:induction false} SkipValue(m: Machine, v: Value)
    requires Skipping(m) && WellFormed(v)
    ensures Run(m, Print(v)) == (m, "")
    decreases v
  {
    match v
    case Literal(text) => SkipInert(m, text);
    case Str(units) => SkipString(m, units);
    case Arr(pad, elements) =>
      var deeper := m.(skipDepth := m.skipDepth + 1);
      var body := if elements.NoElements? then pad else PrintElements(elements);
      if elements.NoElements? { SkipInert(deeper, pad); } else { SkipElements(deeper, elements); }
      SkipBracket(m, body);
    case Obj(pad, members) =>
      var body := if members.NoMembers? then pad else PrintMembers(members);
      if members.NoMembers? { SkipInert(m, pad); } else { SkipMembers(m, members); }
      SkipInert(m, "{");
      SkipInert(m, "}");
      RunAppend(m, "{", body);
      RunAppend(m, "{" + body, "}");
  }

  lemma SkipBracket(m: Machine, body: string)
    requires Skipping(m) && Run(m.(skipDepth := m.skipDepth + 1), body) == (m.(skipDepth := m.skipDepth + 1), "")
    ensures Run(m, "[" + body + "]") == (m, "")
  {
    hide Run;
    assert "" + "" == "";
    RunChar(m, '[');
    RunAppend(m, "[", body);
    RunSnoc(m, "[" + body, ']');
  }

  lemma {:induction false} SkipElements(m: Machine, e: Elements)
    requires Skipping(m) && e.Elements? && WellFormedElements(e)
    ensures Run(m, PrintElements(e)) == (m, "")
    decreases e
  {
    hide Run, Step, Print;
    assert "" + "" == "";
    SkipInert(m, e.before);
    SkipValue(m, e.value);
    SkipInert(m, e.after);
    RunAppend(m, e.before, Print(e.value));
    RunAppend(m, e.before + Print(e.value), e.after);
    var front := e.before + Print(e.value) + e.after;
    if e.rest.Elements? {
      SkipInert(m, ",");
      SkipElements(m, e.rest);
      RunAppend(m, ",", PrintElements(e.rest));
      RunAppend(m, front, "," + PrintElements(e.rest));
    } else {
      assert front + "" == front;
    }
  }

  lemma {:induction false} SkipMembers(m: Machine, s: Members)
    requires Skipping(m) && s.Members? && WellFormedMembers(s)
    ensures Run(m, PrintMembers(s)) == (m, "")
    decreases s
  {
    hide Run, Step, Print;
    assert "" + "" == "";
    var name := "\"" + PrintUnits(s.key) + "\"";
    SkipInert(m, s.before);
    SkipString(m, s.key);
    SkipInert(m, s.gap);
    SkipInert(m, ":");
    SkipInert(m, s.lead);
    SkipValue(m, s.value);
    SkipInert(m, s.after);
    RunAppend(m, s.before, name);
    RunAppend(m, s.before + name, s.gap);
    RunAppend(m, s.before + name + s.gap, ":");
    RunAppend(m, s.before + name + s.gap + ":", s.lead);
    RunAppend(m, s.before + name + s.gap + ":" + s.lead, Print(s.value));
    RunAppend(m, s.before + name + s.gap + ":" + s.lead + Print(s.value), s.after);
    var front := s.before + name + s.gap + ":" + s.lead + Print(s.value) + s.after;
    assert front == s.before + "\"" + PrintUnits(s.key) + "\"" + s.gap + ":" + s.lead + Print(s.value) + s.after;
    if s.rest.Members? {
      SkipInert(m, ",");
      SkipMembers(m, s.rest);
      RunAppend(m, ",", PrintMembers(s.rest));
      RunAppend(m, front, "," + PrintMembers(s.rest));
    } else {
      assert front + "" == front;
    }
  }

  // ---------------------------------------------------------------------------------------
  // Copying
  // ---------------------------------------------------------------------------------------

  /** Outside strings and skipped arrays. */
  predicate Between(m: Machine) {
    !m.inString && !m.escaped && m.skipDepth == 0
  }

  lemma {:induction false} CopySpace(m: Machine, text: string)
    requires Between(m) && Space(text)
    ensures Run(m, text) == (m, text)
  {
    if text != "" {
      assert text[0] in text && forall c | c in text[1..] :: c in text;
      CopySpace(m, text[1..]);
      assert [text[0]] + text[1..] == text;
    }
  }

  /** A character that is neither space nor a quote, and no array to erase: copied, nothing is pending after it. */
  lemma CopyMark(m: Machine, c: char)
    requires Between(m) && !IsSpace(c) && c != '"' && c != ':' && (m.pending ==> c != '[')
    ensures var (after, out) := Run(m, [c]);
            out == [c] && Between(after) && !after.pending
  {
  }

  lemma {:induction false} CopyLiteral(m: Machine, text: string)
    requires Between(m) && text != "" && forall c | c in text :: LiteralChar(c)
    ensures var (after, out) := Run(m, text);
            out == text && Between(after) && !after.pending
  {
    var front, last := text[..|text| - 1], Last(text);
    assert text == front + [last] && last in text;
    if front == "" {
      CopyMark(m, last);
      assert text == [last];
    } else {
      CopyLiteral(m, front);
      RunAppend(m, front, [last]);
      hide Run;
      CopyMark(Run(m, front).0, last);
    }
  }

  /** The key buffer after some more units of a string. */
  function Buffered(key: string, units: seq<Unit>): string {
    if units == [] then key
    else
      var before := Buffered(key, units[..|units| - 1]);
      if Last(units).Plain? && |before| < 32 then before + [Last(units).c] else before
  }

  lemma {:induction false} CopyUnits(m: Machine, units: seq<Unit>)
    requires m.skipDepth == 0 && m.inString && !m.escaped && WellFormedUnits(units)
    ensures Run(m, PrintUnits(units)) == (m.(key := Buffered(m.key, units)), PrintUnits(units))
  {
    if units != [] {
      var front, last := units[..|units| - 1], Last(units);
      assert units == front + [last] && last in units;
      CopyUnits(m, front);
      PrintUnitsSnoc(front, last);
      var inside := m.(key := Buffered(m.key, front));
      if last.Plain? {
        RunSnoc(m, PrintUnits(front), last.c);
      } else {
        RunSnoc(m, PrintUnits(front), '\\');
        RunSnoc(m, PrintUnits(front) + ['\\'], last.c);
        assert PrintUnits(front) + ['\\'] + [last.c] == PrintUnits(front) + ['\\', last.c];
      }
    }
  }

  lemma PrintUnitsSnoc(front: seq<Unit>, last: Unit)
    ensures PrintUnits(front + [last]) == PrintUnits(front) + if last.Plain? then [last.c] else ['\\', last.c]
  {
    if front == [] {
      assert front + [last] == [last];
      assert PrintUnits([last][1..]) == "";
    } else {
      assert (front + [last])[1..] == front[1..] + [last];
      PrintUnitsSnoc(front[1..], last);
    }
  }

  lemma CopyString(m: Machine, units: seq<Unit>)
    requires Between(m) && WellFormedUnits(units)
    ensures var text := "\"" + PrintUnits(units) + "\"";
            Run(m, text) == (m.(key := Buffered("\"", units) + "\""), text)
  {
    var inside := m.(inString := true, key := "\"");
    RunChar(m, '"');
    CopyUnits(inside, units);
    RunAppend(m, "\"", PrintUnits(units));
    RunSnoc(m, "\"" + PrintUnits(units), '"');
  }

  /** The bounded buffer recognises exactly the keys that read as the legacy key. */
  lemma BufferReadsKey(units: seq<Unit>)
    ensures Buffered("\"", units) + "\"" == QUOTED_KEY <==> ReadsAsKey(units)
  {
    hide Buffered, DropEscapes;
    BufferedText(units);
    QuotedKey(DropEscapes(units));
    assert |QUOTED_KEY| == 20;
  }

  lemma QuotedKey(text: string)
    ensures "\"" + text + "\"" == QUOTED_KEY <==> text == KEY
  {
    var quoted := "\"" + text + "\"";
    assert quoted[1..|quoted| - 1] == text;
    assert QUOTED_KEY[1..|QUOTED_KEY| - 1] == KEY;
    assert "\"" + KEY + "\"" == QUOTED_KEY;
  }

  lemma {:induction false} BufferedText(units: seq<Unit>)
    ensures var text := "\"" + DropEscapes(units);
            Buffered("\"", units) == if |text| <= 32 then text else text[..32]
  {
    if units != [] {
      BufferedText(units[..|units| - 1]);
    }
  }

  lemma {:induction false} CopyValue(m: Machine, v: Value)
    requires Between(m) && WellFormed(v)
    ensures var (after, out) := Run(m, Print(v));
            out == Print(Erase(v, m.pending)) && Between(after) && (after.pending ==> m.pending)
    decreases v
  {
    match v
    case Literal(text) => CopyLiteral(m, text);
    case Str(units) => CopyString(m, units);
    case Arr(pad, elements) =>
      if m.pending { EraseArray(m, pad, elements); } else { CopyArray(m, pad, elements); }
    case Obj(pad, members) => CopyObject(m, pad, members);
  }

  lemma EraseArray(m: Machine, pad: string, elements: Elements)
    requires Between(m) && m.pending && Space(pad) && WellFormedElements(elements)
    ensures var (after, out) := Run(m, Print(Arr(pad, elements)));
            out == "[]" && Between(after) && !after.pending
  {
    hide Run;
    var body := if elements.NoElements? then pad else PrintElements(elements);
    var inside := m.(pending := false, skipDepth := 1, skipString := false, skipEscaped := false);
    RunChar(m, '[');
    if elements.NoElements? { SkipInert(inside, pad); } else { SkipElements(inside, elements); }
    RunAppend(m, "[", body);
    RunSnoc(m, "[" + body, ']');
  }

  lemma {:induction false} CopyArray(m: Machine, pad: string, elements: Elements)
    requires Between(m) && !m.pending && Space(pad) && WellFormedElements(elements)
    ensures var (after, out) := Run(m, Print(Arr(pad, elements)));
            out == Print(Arr(pad, EraseElements(elements))) && Between(after) && !after.pending
    decreases elements, 1
  {
    hide Run, Step;
    var body := if elements.NoElements? then pad else PrintElements(elements);
    CopyMark(m, '[');
    var inside := Run(m, "[").0;
    if elements.NoElements? { CopySpace(inside, pad); } else { CopyElements(inside, elements); }
    RunAppend(m, "[", body);
    CopyMark(Run(inside, body).0, ']');
    RunAppend(m, "[" + body, "]");
  }

  lemma {:induction false} CopyElements(m: Machine, e: Elements)
    requires Between(m) && !m.pending && e.Elements? && WellFormedElements(e)
    ensures var (after, out) := Run(m, PrintElements(e));
            out == PrintElements(EraseElements(e)) && Between(after) && !after.pending
    decreases e, 0
  {
    hide Run, Step, Print, Erase;
    CopySpace(m, e.before);
    CopyValue(m, e.value);
    var valued := Run(m, Print(e.value)).0;
    CopySpace(valued, e.after);
    RunAppend(m, e.before, Print(e.value));
    RunAppend(m, e.before + Print(e.value), e.after);
    var front := e.before + Print(e.value) + e.after;
    var erased := e.before + Print(Erase(e.value, false)) + e.after;
    assert Run(m, front) == (valued, erased);
    if e.rest.Elements? {
      CopyMark(valued, ',');
      var next := Run(valued, ",").0;
      CopyElements(next, e.rest);
      RunAppend(valued, ",", PrintElements(e.rest));
      RunAppend(m, front, "," + PrintElements(e.rest));
      assert erased + ("," + PrintElements(EraseElements(e.rest))) == PrintElements(EraseElements(e));
    } else {
      assert front + "" == front && erased + "" == erased;
    }
  }

  lemma {:induction false} CopyObject(m: Machine, pad: string, members: Members)
    requires Between(m) && Space(pad) && WellFormedMembers(members)
    ensures var (after, out) := Run(m, Print(Obj(pad, members)));
            out == Print(Obj(pad, EraseMembers(members))) && Between(after) && !after.pending
    decreases members, 1
  {
    hide Run, Step;
    var body := if members.NoMembers? then pad else PrintMembers(members);
    CopyMark(m, '{');
    var inside := Run(m, "{").0;
    if members.NoMembers? { CopySpace(inside, pad); } else { CopyMembers(inside, members); }
    RunAppend(m, "{", body);
    CopyMark(Run(inside, body).0, '}');
    RunAppend(m, "{" + body, "}");
  }

  /** A key and its colon: what follows is pending exactly when the key reads as the legacy key. */
  lemma CopyName(m: Machine, s: Members)
    requires Between(m) && !m.pending && s.Members? && WellFormedMembers(s)
    ensures var text := s.before + "\"" + PrintUnits(s.key) + "\"" + s.gap + ":" + s.lead;
            var (after, out) := Run(m, text);
            out == text && Between(after) && after.pending == ReadsAsKey(s.key)
  {
    hide Run, WellFormed;
    var name := "\"" + PrintUnits(s.key) + "\"";
    CopySpace(m, s.before);
    CopyString(m, s.key);
    var named := m.(key := Buffered("\"", s.key) + "\"");
    CopySpace(named, s.gap);
    BufferReadsKey(s.key);
    RunChar(named, ':');
    var asked := Run(named, ":").0;
    CopySpace(asked, s.lead);
    RunAppend(m, s.before, name);
    RunAppend(m, s.before + name, s.gap);
    RunAppend(m, s.before + name + s.gap, ":");
    RunAppend(m, s.before + name + s.gap + ":", s.lead);
    assert s.before + name == s.before + "\"" + PrintUnits(s.key) + "\"";
  }

  lemma {:induction false} CopyMembers(m: Machine, s: Members)
    requires Between(m) && !m.pending && s.Members? && WellFormedMembers(s)
    ensures var (after, out) := Run(m, PrintMembers(s));
            out == PrintMembers(EraseMembers(s)) && Between(after)
    decreases s, 0
  {
    hide Run, Step, Print, Erase, ReadsAsKey;
    var name := s.before + "\"" + PrintUnits(s.key) + "\"" + s.gap + ":" + s.lead;
    CopyName(m, s);
    var asked := Run(m, name).0;
    CopyValue(asked, s.value);
    var valued := Run(asked, Print(s.value)).0;
    CopySpace(valued, s.after);
    RunAppend(m, name, Print(s.value));
    RunAppend(m, name + Print(s.value), s.after);
    var front := name + Print(s.value) + s.after;
    var erased := name + Print(Erase(s.value, ReadsAsKey(s.key))) + s.after;
    assert Run(m, front) == (valued, erased);
    if s.rest.Members? {
      CopyMark(valued, ',');
      var next := Run(valued, ",").0;
      CopyMembers(next, s.rest);
      RunAppend(valued, ",", PrintMembers(s.rest));
      RunAppend(m, front, "," + PrintMembers(s.rest));
      assert erased + ("," + PrintMembers(EraseMembers(s.rest))) == PrintMembers(EraseMembers(s));
    } else {
      assert front + "" == front && erased + "" == erased;
    }
  }

  // ---------------------------------------------------------------------------------------
  // Main results
  // ---------------------------------------------------------------------------------------

  /** Cut into any chunks, a JSON text comes out as the print of the erased value. */
  lemma RewriteErases(d: Document, chunks: seq<string>)
    requires Space(d.before) && WellFormed(d.value) && Space(d.after) && Flatten(chunks) == PrintDocument(d)
    ensures Run(START, Flatten(chunks)).1 == PrintDocument(d.(value := Erase(d.value, false)))
  {
    hide Run, Step, Print, Erase;
    CopySpace(START, d.before);
    CopyValue(START, d.value);
    CopySpace(Run(START, Print(d.value)).0, d.after);
    RunAppend(START, d.before, Print(d.value));
    RunAppend(START, d.before + Print(d.value), d.after);
  }

  /** No array with content under a key that reads as the legacy key. */
  predicate LegacyFree(v: Value, under: bool) {
    match v
    case Literal(_) => true
    case Str(_) => true
    case Arr(pad, elements) => if under then pad == "" && elements == NoElements else LegacyFreeElements(elements)
    case Obj(_, members) => LegacyFreeMembers(members)
  }

  predicate LegacyFreeElements(e: Elements) {
    e.Elements? ==> LegacyFree(e.value, false) && LegacyFreeElements(e.rest)
  }

  predicate LegacyFreeMembers(m: Members) {
    m.Members? ==> LegacyFree(m.value, ReadsAsKey(m.key)) && LegacyFreeMembers(m.rest)
  }

  /** What comes out is again a JSON text, free of legacy arrays; exactly a text that was free of them is unchanged. */
  lemma {:induction false} EraseIsExact(v: Value, under: bool)
    ensures WellFormed(v) ==> WellFormed(Erase(v, under))
    ensures LegacyFree(Erase(v, under), under)
    ensures Erase(v, under) == v <==> LegacyFree(v, under)
    decreases v
  {
    match v
    case Literal(_) =>
    case Str(_) =>
    case Arr(_, elements) => EraseElementsIsExact(elements);
    case Obj(_, members) => EraseMembersIsExact(members);
  }

  lemma {:induction false} EraseElementsIsExact(e: Elements)
    ensures WellFormedElements(e) ==> WellFormedElements(EraseElements(e))
    ensures LegacyFreeElements(EraseElements(e))
    ensures EraseElements(e) == e <==> LegacyFreeElements(e)
    decreases e
  {
    if e.Elements? {
      EraseIsExact(e.value, false);
      EraseElementsIsExact(e.rest);
    }
  }

  lemma {:induction false} EraseMembersIsExact(m: Members)
    ensures WellFormedMembers(m) ==> WellFormedMembers(EraseMembers(m))
    ensures LegacyFreeMembers(EraseMembers(m))
    ensures EraseMembers(m) == m <==> LegacyFreeMembers(m)
    decreases m
  {
    if m.Members? {
      EraseIsExact(m.value, ReadsAsKey(m.key));
      EraseMembersIsExact(m.rest);
    }
  }

  function PlainUnits(text: string): seq<Unit> {
    seq(|text|, i requires 0 <= i < |text| => Plain(text[i]))
  }

  lemma {:induction false} PlainKeysReadAsSpelled(text: string)
    ensures DropEscapes(PlainUnits(text)) == text
  {
    if text != "" {
      PlainKeysReadAsSpelled(text[..|text| - 1]);
      assert PlainUnits(text)[..|text| - 1] == PlainUnits(text[..|text| - 1]);
    }
  }

  // ---------------------------------------------------------------------------------------
  // Reading a key and decoding it
  // ---------------------------------------------------------------------------------------

  function HexDigit(c: char): Option<nat> {
    if '0' <= c <= '9' then Some(c as int - '0' as int)
    else if 'a' <= c <= 'f' then Some(c as int - 'a' as int + 10)
    else if 'A' <= c <= 'F' then Some(c as int - 'A' as int + 10)
    else None
  }

  /** None of them stands for a letter. */
  function SimpleEscape(c: char): (code: Option<nat>)
    ensures code.Some? ==> code.value < 65 || code.value == 92
  {
    match c
    case '"' => Some(0x22)
    case '\\' => Some(0x5c)
    case '/' => Some(0x2f)
    case 'b' => Some(0x08)
    case 'f' => Some(0x0c)
    case 'n' => Some(0x0a)
    case 'r' => Some(0x0d)
    case 't' => Some(0x09)
    case _ => None
  }

  /** The four digits after a `u`. */
  function CodeUnit(units: seq<Unit>): (code: Option<nat>)
    ensures code.Some? ==> |units| >= 4
  {
    if |units| < 4 || units[0].Escape? || units[1].Escape? || units[2].Escape? || units[3].Escape? then None
    else
      var a, b, c, d := HexDigit(units[0].c), HexDigit(units[1].c), HexDigit(units[2].c), HexDigit(units[3].c);
      if a.None? || b.None? || c.None? || d.None? then None
      else Some(((a.value * 16 + b.value) * 16 + c.value) * 16 + d.value)
  }

  function Prepend(code: nat, codes: Option<seq<nat>>): Option<seq<nat>> {
    if codes.None? then None else Some([code] + codes.value)
  }

  /** What a string stands for (section 7 of RFC 8259), as character codes; `None` for an escape that is none. */
  function Decode(units: seq<Unit>): Option<seq<nat>> {
    if units == [] then Some([])
    else if units[0].Plain? then Prepend(units[0].c as int, Decode(units[1..]))
    else if units[0].c == 'u' then
      var code := CodeUnit(units[1..]);
      if code.None? then None else Prepend(code.value, Decode(units[5..]))
    else
      var code := SimpleEscape(units[0].c);
      if code.None? then None else Prepend(code.value, Decode(units[1..]))
  }

  function Codes(text: string): seq<nat> {
    seq(|text|, i requires 0 <= i < |text| => text[i] as int)
  }

  predicate DecodesToKey(units: seq<Unit>) {
    Decode(units) == Some(Codes(KEY))
  }

  predicate NoEscapes(units: seq<Unit>) {
    forall u | u in units :: u.Plain?
  }

  predicate Letters(codes: seq<nat>) {
    forall c | c in codes :: 65 <= c <= 90 || 97 <= c <= 122
  }

  lemma {:induction false} DropFirst(units: seq<Unit>)
    requires units != []
    ensures DropEscapes(units) == (if units[0].Plain? then [units[0].c] else []) + DropEscapes(units[1..])
  {
    if |units| > 1 {
      var front := units[..|units| - 1];
      DropFirst(front);
      assert units[1..][..|units| - 2] == front[1..];
    } else {
      assert units[..0] == [] && units[1..] == [];
    }
  }

  lemma DropCodeUnit(units: seq<Unit>)
    requires |units| >= 5 && units[0].Escape? && CodeUnit(units[1..]).Some?
    ensures |DropEscapes(units)| == 4 + |DropEscapes(units[5..])|
  {
    DropFirst(units);
    DropFirst(units[1..]);
    DropFirst(units[2..]);
    DropFirst(units[3..]);
    DropFirst(units[4..]);
    assert units[1..][1..] == units[2..] && units[2..][1..] == units[3..] && units[3..][1..] == units[4..]
        && units[4..][1..] == units[5..];
  }

  /** A string that stands for letters has at least as many plain characters, and more if it has an escape. */
  lemma {:induction false} EscapedLettersAreLonger(units: seq<Unit>)
    requires Decode(units).Some? && Letters(Decode(units).value)
    ensures |DropEscapes(units)| >= |Decode(units).value|
    ensures |DropEscapes(units)| == |Decode(units).value| ==> NoEscapes(units)
  {
    hide CodeUnit, SimpleEscape, DropEscapes;
    if units != [] {
      var codes := Decode(units).value;
      assert codes[0] in codes && forall c | c in codes[1..] :: c in codes;
      if units[0].Escape? && units[0].c == 'u' {
        assert codes[1..] == Decode(units[5..]).value;
        DropCodeUnit(units);
        EscapedLettersAreLonger(units[5..]);
      } else {
        assert codes[1..] == Decode(units[1..]).value;
        DropFirst(units);
        EscapedLettersAreLonger(units[1..]);
        assert units == [units[0]] + units[1..];
      }
    }
  }

  lemma {:induction false} PlainDecodesAsSpelled(text: string)
    ensures Decode(PlainUnits(text)) == Some(Codes(text))
  {
    if text != "" {
      PlainDecodesAsSpelled(text[1..]);
      assert PlainUnits(text)[1..] == PlainUnits(text[1..]);
      assert Codes(text) == [text[0] as int] + Codes(text[1..]);
    } else {
      assert PlainUnits(text) == [] && Codes(text) == [];
    }
  }

  lemma NoEscapesIsSpelled(units: seq<Unit>)
    requires NoEscapes(units)
    ensures units == PlainUnits(DropEscapes(units))
  {
  }

  lemma CodesAreInjective(a: string, b: string)
    ensures Codes(a) == Codes(b) <==> a == b
  {
    if Codes(a) == Codes(b) {
      assert |a| == |Codes(a)| == |b|;
      forall i | 0 <= i < |a| ensures a[i] == b[i] {
        assert Codes(a)[i] == Codes(b)[i];
        assert (a[i] as int) as char == (b[i] as int) as char;
      }
    }
  }

  /**
   The machine takes a key for the legacy key and is right about it only if the key is spelled out.
   So it is right about every key without an escape; a key with an escape it gets wrong exactly when
   the plain characters alone spell the legacy key, or when the key stands for it.
   */
  lemma KeysAreReadExactly(units: seq<Unit>)
    ensures ReadsAsKey(units) && DecodesToKey(units) <==> units == PlainUnits(KEY)
    ensures (ReadsAsKey(units) <==> DecodesToKey(units))
        <==> NoEscapes(units) || (!ReadsAsKey(units) && !DecodesToKey(units))
  {
    hide Decode, DropEscapes;
    PlainKeysReadAsSpelled(KEY);
    PlainDecodesAsSpelled(KEY);
    if DecodesToKey(units) {
      KeyIsLetters();
      EscapedLettersAreLonger(units);
    }
    if NoEscapes(units) {
      NoEscapesIsSpelled(units);
      PlainDecodesAsSpelled(DropEscapes(units));
      CodesAreInjective(DropEscapes(units), KEY);
    }
  }

  lemma KeyIsLetters()
    ensures Letters(Codes(KEY)) && |Codes(KEY)| == |KEY|
  {
  }

  const SPELLED_WITH_ESCAPE := [Escape('u')] + PlainUnits("0069mportedRequestIds")

  /** Both happen: an escaped newline before the key is not noticed ... */
  lemma EscapedKeyIsTaken()
    ensures ReadsAsKey([Escape('n')] + PlainUnits(KEY)) && !DecodesToKey([Escape('n')] + PlainUnits(KEY))
  {
    hide Decode, DropEscapes;
    var units := [Escape('n')] + PlainUnits(KEY);
    DropLeadingEscape('n', PlainUnits(KEY));
    PlainKeysReadAsSpelled(KEY);
    KeysAreReadExactly(units);
    assert |units| == |PlainUnits(KEY)| + 1;
  }

  /** ... and the key with its first letter escaped is not recognised. */
  lemma EscapedKeyIsMissed()
    ensures DecodesToKey(SPELLED_WITH_ESCAPE) && !ReadsAsKey(SPELLED_WITH_ESCAPE)
  {
    hide Decode, DropEscapes;
    var rest := "mportedRequestIds";
    assert SPELLED_WITH_ESCAPE[5..] == PlainUnits(rest);
    DecodeCodeUnit(SPELLED_WITH_ESCAPE);
    PlainDecodesAsSpelled(rest);
    assert [0x69] + Codes(rest) == Codes(KEY);
    DropLeadingEscape('u', PlainUnits("0069mportedRequestIds"));
    PlainKeysReadAsSpelled("0069mportedRequestIds");
  }

  lemma DecodeCodeUnit(units: seq<Unit>)
    requires |units| >= 5 && units[0] == Escape('u') && CodeUnit(units[1..]).Some?
    ensures Decode(units) == Prepend(CodeUnit(units[1..]).value, Decode(units[5..]))
  {
  }

  lemma {:induction false} DropLeadingEscape(c: char, units: seq<Unit>)
    ensures DropEscapes([Escape(c)] + units) == DropEscapes(units)
  {
    var all := [Escape(c)] + units;
    if units == [] {
      assert all[..0] == [];
    } else {
      DropLeadingEscape(c, units[..|units| - 1]);
      assert all[..|all| - 1] == [Escape(c)] + units[..|units| - 1];
    }
  }
}
