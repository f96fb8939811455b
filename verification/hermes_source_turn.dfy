/**
 Reading Hermes sessions (AgentSourceCore/src/hermes-source-turn.ts). Hermes keeps its messages in
 a table that it compacts: active rows are archived and some are replayed under new ids. A turn
 is identified by the earliest copy of the user row that opened it.
 */
module HermesSourceTurn {
  import opened Wrappers
  import opened SourceTurns
  import opened Text

  datatype RowRole = UserRow | AssistantRow | ToolRow | OtherRow

  /** What a row says; it never changes. */
  datatype Entry = Entry(
    id: int, role: RowRole, content: Option<string>, toolCallId: Option<string>, toolCalls: Option<string>,
    toolName: Option<string>, timestamp: Option<Time>, finishReason: string, compressedSummary: bool)

  /** A row of the table: `active` is 1, 0 or null, `compacted` says whether the column is 1. */
  datatype HermesRow = HermesRow(entry: Entry, active: Option<int>, compacted: bool)

  datatype Session = Session(id: string, cwd: string)

  const PREFIX := "[PRIOR CONTEXT"

  datatype Identity = Identity(role: RowRole, timestamp: Option<Time>, content: string, toolCallId: string,
      toolCalls: string)

  function OrEmpty(text: Option<string>): string {
    if text.Some? then text.value else ""
  }

  function RowIdentity(e: Entry): Identity {
    Identity(e.role, e.timestamp, OrEmpty(e.content), OrEmpty(e.toolCallId), OrEmpty(e.toolCalls))
  }

  predicate IsCompressedSummary(e: Entry) {
    e.compressedSummary || PREFIX <= TrimStart(OrEmpty(e.content))
  }

  /** The lowest id among the rows with the same identity. */
  function FirstCopyId(rows: seq<HermesRow>, e: Entry): int {
    if rows == [] then e.id
    else
      var earliest := FirstCopyId(rows[..|rows| - 1], e);
      if Last(rows).entry.id < earliest && RowIdentity(Last(rows).entry) == RowIdentity(e) then Last(rows).entry.id
          else earliest
  }

  predicate HasActiveCopy(rows: seq<HermesRow>, e: Entry) {
    exists r | r in rows :: r.active == Some(1) && RowIdentity(r.entry) == RowIdentity(e)
  }

  predicate IsRetracted(rows: seq<HermesRow>, row: HermesRow) {
    row.active == Some(0) && !row.compacted && !HasActiveCopy(rows, row.entry)
  }

  // ---------------------------------------------------------------------------------------
  // Staging one turn
  // ---------------------------------------------------------------------------------------

  /** How tool calls are parsed from a row's JSON column. */
  type Parser = string -> seq<ToolCall>

  function Trimmed(e: Entry): string { Trim(OrEmpty(e.content)) }

  function ToolCallsOf(parse: Parser, e: Entry): seq<ToolCall> {
    if OrEmpty(e.toolCalls) == "" then [] else parse(e.toolCalls.value)
  }

  function UserTexts(rows: seq<Entry>): seq<string> {
    if rows == [] then []
    else (if rows[0].role == UserRow then [Trimmed(rows[0])] else []) + UserTexts(rows[1..])
  }

  predicate AnswerRow(e: Entry) {
    e.role == AssistantRow && Trimmed(e) != "" && !IsCompressedSummary(e)
  }

  function AnswerRows(rows: seq<Entry>): seq<Entry> {
    if rows == [] then []
    else (if AnswerRow(rows[0]) then [rows[0]] else []) + AnswerRows(rows[1..])
  }

  function Texts(rows: seq<Entry>): seq<string> {
    seq(|rows|, i requires 0 <= i < |rows| => Trimmed(rows[i]))
  }

  /** The last answer that stopped. */
  function Closing(answers: seq<Entry>): Option<Entry> {
    if answers == [] then None
    else if Last(answers).finishReason == "stop" then Some(Last(answers))
    else Closing(answers[..|answers| - 1])
  }

  function Calls(parse: Parser, rows: seq<Entry>): seq<ToolCall> {
    if rows == [] then []
    else (if rows[0].role == AssistantRow then ToolCallsOf(parse, rows[0]) else []) + Calls(parse, rows[1..])
  }

  function Results(rows: seq<Entry>): seq<ToolResult> {
    if rows == [] then []
    else
      (if rows[0].role == ToolRow
          then [ToolResult(rows[0].toolCallId, rows[0].content, Some("completed"), Some(true), None)] else [])
      + Results(rows[1..])
  }

  function CallMessages(env: Env, session: Session, e: Entry, calls: seq<ToolCall>): seq<RawMessage> {
    seq(|calls|, i requires 0 <= i < |calls| =>
      RawMessage(CallOf(Row(session.id, e.id), i), session.id, Tool, env.renderTool(calls[i]), TimeOf(e), e.id,
          NO_META))
  }

  function TimeOf(e: Entry): Time {
    if e.timestamp.Some? then e.timestamp.value else 0
  }

  function RowMessages(env: Env, parse: Parser, session: Session, e: Entry): seq<RawMessage> {
    var content := Trimmed(e);
    var base := RawMessage(Row(session.id, e.id), session.id, User, content, TimeOf(e), e.id, NO_META);
    match e.role
    case UserRow => if content != "" then [base] else []
    case ToolRow =>
      [base.(role := Tool,
          content := env.renderTool(ToolCall(if e.toolName.Some? then e.toolName.value else "tool", None,
                                                              ToolResult(e.toolCallId, Some(content), None, None,
                                                                  None))))]
    case AssistantRow =>
      CallMessages(env, session, e, ToolCallsOf(parse, e))
      + (if content != "" && !IsCompressedSummary(e) then [base.(role := Assistant)] else [])
    case OtherRow => []
  }

  function Messages(env: Env, parse: Parser, session: Session, rows: seq<Entry>): seq<RawMessage> {
    if rows == [] then [] else RowMessages(env, parse, session, rows[0]) + Messages(env, parse, session, rows[1..])
  }

  function TurnName(session: Session, id: int): string {
    session.id + ":" + Digits(id)
  }

  /** Decimal notation. */
  function Digits(n: int): string
    decreases if n < 0 then 1 - n else n
  {
    if n < 0 then "-" + Digits(-n)
    else if n < 10 then ["0123456789"[n]]
    else Digits(n / 10) + ["0123456789"[n % 10]]
  }

  /** What a turn is staged with: its evidence, or the reason why it is none. */
  function TurnInput(env: Env, parse: Parser, session: Session, id: int, rows: seq<Entry>): StageInput
    requires rows != []
  {
    var turnId := TurnName(session, id);
    var query := Join(NonEmpty(UserTexts(rows)), "\n\n");
    var answers := AnswerRows(rows);
    var answer := Join(Texts(answers), "\n\n");
    var closing := Closing(answers);
    var startedAt := rows[0].timestamp;
    var results := Results(rows);
    var reason :=
      if Blank(query) then "turn_content_incomplete"
      else if closing.None? then "turn_incomplete"
      else if startedAt.None? || closing.value.timestamp.None? then "timestamp_unresolved"
      else "";
    var turn := if reason != "" then None else Some(SourceTurn(
      "hermes", session.id, turnId, "default", startedAt.value, closing.value.timestamp.value, id,
      "assistant_stop:" + Digits(closing.value.id), env.redact(query), env.redact(answer), Succeeded,
      MapCalls(env.redactCall, PairedCalls(Calls(parse, rows), results)), MapResults(env.redactResult, results),
          session.cwd));
    StageInput(turnId, Some(id), startedAt, reason, turn)
  }

  function StageTurn(env: Env, parse: Parser, session: Session, id: int, rows: seq<Entry>): seq<RawMessage>
    requires rows != []
  {
    StageSourceTurnMessages(Messages(env, parse, session, rows), TurnInput(env, parse, session, id, rows))
  }

  // ---------------------------------------------------------------------------------------
  // Specification: a session as its original rows, each with whether the user took it back
  // ---------------------------------------------------------------------------------------

  datatype Seen = Seen(entry: Entry, retracted: bool)

  datatype Turn = Turn(id: int, rows: seq<Seen>)

  predicate Known(rows: seq<HermesRow>, e: Entry) {
    exists r | r in rows :: RowIdentity(r.entry) == RowIdentity(e)
  }

  /** The first copy of every row that is not a summary. */
  function Originals(rows: seq<HermesRow>): seq<HermesRow> {
    if rows == [] then []
    else
      var front, row := rows[..|rows| - 1], Last(rows);
      Originals(front) + if !Known(front, row.entry) && !IsCompressedSummary(row.entry) then [row] else []
  }

  function SeenRow(rows: seq<HermesRow>, row: HermesRow): Seen {
    Seen(row.entry, row.entry.role == UserRow && IsRetracted(rows, row))
  }

  function SeenRows(rows: seq<HermesRow>, originals: seq<HermesRow>): (seen: seq<Seen>)
    ensures |seen| == |originals|
  {
    seq(|originals|, i requires 0 <= i < |originals| => SeenRow(rows, originals[i]))
  }

  function View(rows: seq<HermesRow>): seq<Seen> {
    SeenRows(rows, Originals(rows))
  }

  /** A user row opens a turn; what precedes the first one belongs to none. */
  function Grown(turns: seq<Turn>, row: Seen): seq<Turn> {
    if row.entry.role == UserRow then turns + [Turn(row.entry.id, [row])]
    else if turns == [] then []
    else turns[..|turns| - 1] + [Last(turns).(rows := Last(turns).rows + [row])]
  }

  function Split(seen: seq<Seen>): (turns: seq<Turn>)
    ensures forall t | t in turns :: t.rows != []
  {
    if seen == [] then [] else Grown(Split(seen[..|seen| - 1]), Last(seen))
  }

  function Entries(seen: seq<Seen>): (entries: seq<Entry>)
    ensures |entries| == |seen|
  {
    seq(|seen|, i requires 0 <= i < |seen| => seen[i].entry)
  }

  function Emit(env: Env, parse: Parser, session: Session, turns: seq<Turn>): seq<RawMessage>
    requires forall t | t in turns :: t.rows != []
  {
    if turns == [] then []
    else
      Emit(env, parse, session, turns[..|turns| - 1])
      + if Last(turns).rows[0].retracted then []
          else StageTurn(env, parse, session, Last(turns).id, Entries(Last(turns).rows))
  }

  /** `readHermesSession` on the rows of one session. */
  function Staged(env: Env, parse: Parser, session: Session, rows: seq<HermesRow>): seq<RawMessage> {
    Emit(env, parse, session, Split(View(rows)))
  }

  ghost predicate Ordered(rows: seq<HermesRow>) {
    forall i, j | 0 <= i < j < |rows| :: rows[i].entry.id < rows[j].entry.id
  }

  // ---------------------------------------------------------------------------------------
  // The reader
  // ---------------------------------------------------------------------------------------

  method FindFirstCopy(rows: seq<HermesRow>, e: Entry) returns (earliest: int)
    ensures earliest == FirstCopyId(rows, e)
  {
    earliest := e.id;
    for i := 0 to |rows|
      invariant earliest == FirstCopyId(rows[..i], e)
    {
      assert rows[..i + 1][..i] == rows[..i];
      if rows[i].entry.id < earliest && RowIdentity(rows[i].entry) == RowIdentity(e) {
        earliest := rows[i].entry.id;
      }
    }
    assert rows[..|rows|] == rows;
  }

  lemma {:induction false} FirstCopyIsMinimal(rows: seq<HermesRow>, e: Entry)
    ensures var id := FirstCopyId(rows, e);
            && id <= e.id
            && (id == e.id || exists r :: r in rows && r.entry.id == id && RowIdentity(r.entry) == RowIdentity(e))
            && forall r | r in rows && RowIdentity(r.entry) == RowIdentity(e) :: id <= r.entry.id
  {
    if rows != [] {
      var front := rows[..|rows| - 1];
      FirstCopyIsMinimal(front, e);
      assert rows == front + [Last(rows)];
      assert forall r :: r in rows <==> r in front || r == Last(rows);
    }
  }

  /** In id order, a row is its own first copy exactly when no earlier row has its identity. */
  lemma OwnFirstCopy(rows: seq<HermesRow>, i: nat)
    requires Ordered(rows) && i < |rows|
    ensures FirstCopyId(rows, rows[i].entry) == rows[i].entry.id <==> !Known(rows[..i], rows[i].entry)
  {
    hide FirstCopyId, RowIdentity;
    if Known(rows[..i], rows[i].entry) {
      KnownHasFirstCopy(rows, i);
    } else {
      NewIsFirstCopy(rows, i);
    }
  }

  lemma KnownHasFirstCopy(rows: seq<HermesRow>, i: nat)
    requires Ordered(rows) && i < |rows| && Known(rows[..i], rows[i].entry)
    ensures FirstCopyId(rows, rows[i].entry) < rows[i].entry.id
  {
    hide FirstCopyId, RowIdentity;
    var e := rows[i].entry;
    var r :| r in rows[..i] && RowIdentity(r.entry) == RowIdentity(e);
    var j :| 0 <= j < i && rows[..i][j] == r;
    assert rows[j] == r && r.entry.id < e.id;
    FirstCopyIsMinimal(rows, e);
  }

  lemma NewIsFirstCopy(rows: seq<HermesRow>, i: nat)
    requires Ordered(rows) && i < |rows| && !Known(rows[..i], rows[i].entry)
    ensures FirstCopyId(rows, rows[i].entry) == rows[i].entry.id
  {
    hide FirstCopyId, RowIdentity;
    var e := rows[i].entry;
    forall j | 0 <= j < i ensures RowIdentity(rows[j].entry) != RowIdentity(e) {
      assert rows[j] in rows[..i];
    }
    forall r | r in rows && RowIdentity(r.entry) == RowIdentity(e) ensures e.id <= r.entry.id {
      var j :| 0 <= j < |rows| && rows[j] == r;
    }
    FirstCopyIsMinimal(rows, e);
  }

  lemma OriginalsSnoc(rows: seq<HermesRow>, i: nat)
    requires i < |rows|
    ensures Originals(rows[..i + 1])
            == Originals(rows[..i])
                + if !Known(rows[..i], rows[i].entry) && !IsCompressedSummary(rows[i].entry) then [rows[i]] else []
  {
    assert rows[..i + 1][..i] == rows[..i];
  }

  lemma SplitSnoc(seen: seq<Seen>, row: Seen)
    ensures Split(seen + [row]) == Grown(Split(seen), row)
  {
  }

  method ReadHermesSession(env: Env, parse: Parser, session: Session, rows: seq<HermesRow>)
      returns (staged: seq<RawMessage>)
    requires Ordered(rows)
    ensures staged == Staged(env, parse, session, rows)
  {
    hide Originals, FirstCopyId, Split, SeenRow, StageTurn;
    var originals: seq<HermesRow> := [];
    OriginalsOfNothing();
    for i := 0 to |rows|
      invariant originals == Originals(rows[..i])
    {
      OwnFirstCopy(rows, i);
      OriginalsSnoc(rows, i);
      var firstCopy := FindFirstCopy(rows, rows[i].entry);
      if firstCopy == rows[i].entry.id && !IsCompressedSummary(rows[i].entry) {
        originals := originals + [rows[i]];
      }
    }
    assert rows[..|rows|] == rows;

    var turns: seq<Turn> := [];
    for i := 0 to |originals|
      invariant turns == Split(View(rows)[..i])
    {
      var row := SeenRow(rows, originals[i]);
      SplitSnoc(View(rows)[..i], row);
      assert View(rows)[..i + 1] == View(rows)[..i] + [row];
      SeenRole(rows, originals[i]);
      ghost var before := turns;
      if originals[i].entry.role == UserRow {
        turns := turns + [Turn(originals[i].entry.id, [])];
      }
      if turns == [] { continue; }
      assert turns[..|turns| - 1] == if originals[i].entry.role == UserRow then before else before[..|before| - 1];
      assert [] + [row] == [row];
      var current := Last(turns);
      turns := turns[..|turns| - 1] + [current.(rows := current.rows + [row])];
    }
    assert View(rows)[..|originals|] == View(rows);

    staged := [];
    for i := 0 to |turns|
      invariant staged == Emit(env, parse, session, turns[..i])
    {
      assert turns[..i + 1][..i] == turns[..i];
      if turns[i].rows[0].retracted { continue; }
      staged := staged + StageTurn(env, parse, session, turns[i].id, Entries(turns[i].rows));
    }
    assert turns[..|turns|] == turns;
  }

  lemma OriginalsOfNothing()
    ensures Originals([]) == [] && Split([]) == []
  {
  }

  lemma SeenRole(rows: seq<HermesRow>, row: HermesRow)
    ensures SeenRow(rows, row).entry == row.entry
  {
  }
}
