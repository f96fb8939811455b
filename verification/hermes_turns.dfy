/**
 What a Hermes turn says, told from the rows of a session: the user row that opens it and the rows
 up to the next user row determine the turn that is staged, or the reason why none is.
 */
module HermesTurns {
  import opened Wrappers
  import opened SourceTurns
  import opened BlockSelection
  import opened Text
  import opened HermesSourceTurn
  import opened HermesCompaction

  type HermesSession = HermesSourceTurn.Session

  // ---------------------------------------------------------------------------------------
  // The rows of a turn
  // ---------------------------------------------------------------------------------------

  predicate NoUser(rows: seq<Seen>) {
    forall row | row in rows :: row.entry.role != UserRow
  }

  /** A user row opens a turn that lasts until the next user row. */
  lemma {:induction false} SplitApart(before: seq<Seen>, user: Seen, body: seq<Seen>, after: seq<Seen>)
    requires user.entry.role == UserRow && NoUser(body) && (after != [] ==> after[0].entry.role == UserRow)
    ensures Split(before + [user] + body + after)
        == Split(before) + [Turn(user.entry.id, [user] + body)] + Split(after)
  {
    hide Split;
    NothingSplits();
    if after != [] {
      var front, row := after[..|after| - 1], Last(after);
      SplitApart(before, user, body, front);
      assert before + [user] + body + after == before + [user] + body + front + [row] && after == front + [row];
      SplitSnoc(before + [user] + body + front, row);
      SplitSnoc(front, row);
      if front != [] {
        SplitsSomething(front);
      }
      GrowsApart(Split(before) + [Turn(user.entry.id, [user] + body)], Split(front), row);
    } else if body != [] {
      var front, row := body[..|body| - 1], Last(body);
      SplitApart(before, user, front, []);
      assert body == front + [row] && before + [user] + body + after == before + [user] + front + [row];
      assert before + [user] + front + [] == before + [user] + front;
      SplitSnoc(before + [user] + front, row);
      assert [user] + front + [row] == [user] + body;
      GrowsLast(Split(before), Turn(user.entry.id, [user] + front), row);
    } else {
      assert before + [user] + body + after == before + [user] && [user] + body == [user];
      SplitSnoc(before, user);
    }
  }

  lemma NothingSplits()
    ensures Split([]) == []
  {
  }

  lemma {:induction false} SplitsSomething(rows: seq<Seen>)
    requires rows != [] && rows[0].entry.role == UserRow
    ensures Split(rows) != []
  {
    if |rows| > 1 {
      SplitsSomething(rows[..|rows| - 1]);
    }
  }

  lemma GrowsApart(first: seq<Turn>, second: seq<Turn>, row: Seen)
    requires second != [] || row.entry.role == UserRow
    ensures Grown(first + second, row) == first + Grown(second, row)
  {
    if second != [] {
      assert (first + second)[..|first + second| - 1] == first + second[..|second| - 1];
    }
  }

  lemma GrowsLast(turns: seq<Turn>, last: Turn, row: Seen)
    requires row.entry.role != UserRow
    ensures Grown(turns + [last], row) + [] == turns + [last.(rows := last.rows + [row])] + []
    ensures Grown(turns + [last], row) == turns + [last.(rows := last.rows + [row])]
  {
  }

  // ---------------------------------------------------------------------------------------
  // Reading rows without a reader
  // ---------------------------------------------------------------------------------------

  function TextOf(e: Entry): string {
    Trim(if e.content.Some? then e.content.value else "")
  }

  /** The assistant rows that say something. */
  function Replies(rows: seq<Entry>): seq<Entry> {
    if rows == [] then []
    else
      Replies(rows[..|rows| - 1])
      + if Last(rows).role == AssistantRow && TextOf(Last(rows)) != "" then [Last(rows)] else []
  }

  function Said(rows: seq<Entry>): seq<string> {
    if rows == [] then [] else Said(rows[..|rows| - 1]) + [TextOf(Last(rows))]
  }

  /** The last of some rows that stopped. */
  function LastStopped(rows: seq<Entry>): Option<Entry> {
    if rows == [] then None
    else if Last(rows).finishReason == "stop" then Some(Last(rows))
    else LastStopped(rows[..|rows| - 1])
  }

  function CallsOfRow(parse: Parser, e: Entry): seq<ToolCall> {
    if e.toolCalls.Some? && e.toolCalls.value != "" then parse(e.toolCalls.value) else []
  }

  function CallsIn(parse: Parser, rows: seq<Entry>): seq<ToolCall> {
    if rows == [] then []
    else
      var last := Last(rows);
      CallsIn(parse, rows[..|rows| - 1])
      + if last.role == AssistantRow then CallsOfRow(parse, last) else []
  }

  function ResultsIn(rows: seq<Entry>): seq<ToolResult> {
    if rows == [] then []
    else
      var last := Last(rows);
      ResultsIn(rows[..|rows| - 1])
      + if last.role == ToolRow then
          [ToolResult(last.toolCallId, last.content, Some("completed"), Some(true), None)]
        else []
  }

  /** Why no turn is captured; "" when one is. */
  function WhyNot(user: Entry, body: seq<Entry>): string {
    var closing := LastStopped(Replies(body));
    if TextOf(user) == "" then "turn_content_incomplete"
    else if closing.None? then "turn_incomplete"
    else if user.timestamp.None? || closing.value.timestamp.None? then "timestamp_unresolved"
    else ""
  }

  /** The captured turn says what the rows say. */
  ghost predicate Tells(env: Env, parse: Parser, session: HermesSession, user: Entry, body: seq<Entry>,
      turn: SourceTurn) {
    var closing := LastStopped(Replies(body));
    && turn.source == "hermes" && turn.conversationId == session.id && turn.profileId == "default"
    && turn.turnId == session.id + ":" + Digits(user.id) && turn.sequence == user.id
    && turn.query == env.redact(TextOf(user))
    && turn.answer == env.redact(Join(Said(Replies(body)), "\n\n"))
    && turn.status == Succeeded
    && closing.Some? && Some(turn.startedAt) == user.timestamp && Some(turn.completedAt) == closing.value.timestamp
    && turn.completionEvidence == "assistant_stop:" + Digits(closing.value.id)
    && turn.toolCalls == MapCalls(env.redactCall, PairedCalls(CallsIn(parse, body), ResultsIn(body)))
    && turn.toolResults == MapResults(env.redactResult, ResultsIn(body))
    && turn.workspacePath == session.cwd
  }

  predicate PlainBody(body: seq<Entry>) {
    forall e | e in body :: e.role != UserRow && !IsCompressedSummary(e)
  }

  // ---------------------------------------------------------------------------------------
  // The reader's columns are these
  // ---------------------------------------------------------------------------------------

  lemma {:induction false} UserTextsOf(rows: seq<Entry>)
    requires forall e | e in rows :: e.role != UserRow
    ensures UserTexts(rows) == []
  {
    if rows != [] {
      UserTextsOf(rows[1..]);
    }
  }

  lemma {:induction false} AnswerRowsSnoc(rows: seq<Entry>, e: Entry)
    ensures AnswerRows(rows + [e]) == AnswerRows(rows) + if AnswerRow(e) then [e] else []
  {
    hide AnswerRow;
    if rows != [] {
      AnswerRowsSnoc(rows[1..], e);
      assert (rows + [e])[1..] == rows[1..] + [e];
    }
  }

  lemma {:induction false} CallsSnoc(parse: Parser, rows: seq<Entry>, e: Entry)
    ensures Calls(parse, rows + [e])
        == Calls(parse, rows) + if e.role == AssistantRow then ToolCallsOf(parse, e) else []
  {
    if rows == [] {
      assert [] + [e] == [e] && [e][1..] == [];
    } else {
      CallsSnoc(parse, rows[1..], e);
      assert (rows + [e])[1..] == rows[1..] + [e];
    }
  }

  lemma {:induction false} ResultsSnoc(rows: seq<Entry>, e: Entry)
    ensures Results(rows + [e]) == Results(rows)
        + if e.role == ToolRow then [ToolResult(e.toolCallId, e.content, Some("completed"), Some(true), None)] else []
  {
    if rows == [] {
      assert [] + [e] == [e] && [e][1..] == [];
    } else {
      ResultsSnoc(rows[1..], e);
      assert (rows + [e])[1..] == rows[1..] + [e];
    }
  }

  /** A user row and the rows of its turn. */
  lemma {:induction false} ColumnsAreTold(parse: Parser, user: Entry, body: seq<Entry>)
    requires user.role == UserRow && PlainBody(body)
    ensures var rows := [user] + body;
            && AnswerRows(rows) == Replies(body) && Calls(parse, rows) == CallsIn(parse, body)
            && Results(rows) == ResultsIn(body)
  {
    if body == [] {
      assert [user] + body == [user] && [user][1..] == [];
    } else {
      var front, last := body[..|body| - 1], Last(body);
      ColumnsAreTold(parse, user, front);
      assert [user] + body == [user] + front + [last] && last in body;
      AnswerRowsSnoc([user] + front, last);
      CallsSnoc(parse, [user] + front, last);
      ResultsSnoc([user] + front, last);
    }
  }

  lemma {:induction false} TextsAreSaid(rows: seq<Entry>)
    ensures Texts(rows) == Said(rows)
  {
    if rows != [] {
      TextsAreSaid(rows[..|rows| - 1]);
      assert Texts(rows) == Texts(rows[..|rows| - 1]) + [TextOf(Last(rows))];
    }
  }

  lemma {:induction false} ClosingIsLastStopped(rows: seq<Entry>)
    ensures Closing(rows) == LastStopped(rows)
  {
    if rows != [] {
      ClosingIsLastStopped(rows[..|rows| - 1]);
    }
  }

  lemma QueryIsTold(user: Entry, body: seq<Entry>)
    requires user.role == UserRow && PlainBody(body)
    ensures var query := Join(NonEmpty(UserTexts([user] + body)), "\n\n");
            query == TextOf(user) && (Blank(query) <==> TextOf(user) == "")
  {
    assert ([user] + body)[1..] == body;
    UserTextsOf(body);
    var i, j := TrimIsCore(OrEmpty(user.content));
    hide Trim;
    var text := TextOf(user);
    assert UserTexts([user] + body) == [text] + [] == [text];
    assert NonEmpty([text]) == (if text != "" then [text] else []) + NonEmpty([]);
  }

  // ---------------------------------------------------------------------------------------
  // The block of a turn
  // ---------------------------------------------------------------------------------------

  lemma TurnIsTold(env: Env, parse: Parser, session: HermesSession, user: Entry, body: seq<Entry>)
    requires user.role == UserRow && PlainBody(body)
    ensures var input := TurnInput(env, parse, session, user.id, [user] + body);
            && input == StageInput(session.id + ":" + Digits(user.id), Some(user.id), user.timestamp,
                 WhyNot(user, body), input.turn)
            && (input.turn.Some? <==> input.reason == "")
            && (input.turn.Some? ==> Tells(env, parse, session, user, body, input.turn.value))
  {
    ColumnsAreTold(parse, user, body);
    QueryIsTold(user, body);
    TextsAreSaid(Replies(body));
    ClosingIsLastStopped(Replies(body));
    hide MapCalls, MapResults, PairedCalls;
    hide AnswerRows, Calls, Results, Texts, Closing, Replies, CallsIn, ResultsIn, Said, LastStopped, UserTexts, Blank,
        TextOf, Join, NonEmpty, Digits, PlainBody;
  }

  lemma {:induction false} MessagesAreOfSession(env: Env, parse: Parser, session: HermesSession, rows: seq<Entry>)
    ensures var messages := Messages(env, parse, session, rows);
            UnstagedInput(messages) && Expected(messages, session.id)
  {
    if rows != [] {
      MessagesAreOfSession(env, parse, session, rows[1..]);
      RowIsOfSession(env, parse, session, rows[0]);
      hide RowMessages;
    }
  }

  lemma RowIsOfSession(env: Env, parse: Parser, session: HermesSession, e: Entry)
    ensures var messages := RowMessages(env, parse, session, e);
            UnstagedInput(messages) && Expected(messages, session.id)
  {
  }

  /** The calls in order, each under an id of its own, and then the text. */
  ghost predicate ShowsReply(env: Env, session: HermesSession, e: Entry, calls: seq<ToolCall>, said: string,
      own: seq<RawMessage>) {
    && |own| == |calls| + (if said == "" then 0 else 1)
    && (forall k | 0 <= k < |calls| :: own[k].role == Tool && own[k].content == env.renderTool(calls[k])
                                       && own[k].messageId == CallOf(Row(session.id, e.id), k))
    && (said != "" ==> Last(own).role == Assistant && Last(own).content == said
                       && Last(own).messageId == Row(session.id, e.id))
  }

  /** One message with that text, or none when there is no text. */
  ghost predicate ShowsText(session: HermesSession, e: Entry, role: Role, said: string, own: seq<RawMessage>) {
    if said == "" then own == []
    else |own| == 1 && own[0].role == role && own[0].content == said && own[0].messageId == Row(session.id, e.id)
  }

  /** The messages of a row say what the row says, at its time. */
  ghost predicate ShowsRow(env: Env, parse: Parser, session: HermesSession, e: Entry, own: seq<RawMessage>) {
    && (forall m | m in own :: m.conversationId == session.id && m.ordinal == e.id
                               && m.createdAt == if e.timestamp.Some? then e.timestamp.value else 0)
    && match e.role
       case UserRow => ShowsText(session, e, User, TextOf(e), own)
       case AssistantRow =>
         ShowsReply(env, session, e, CallsOfRow(parse, e), if IsCompressedSummary(e) then "" else TextOf(e), own)
       case ToolRow =>
         var name := if e.toolName.Some? then e.toolName.value else "tool";
         var result := ToolResult(e.toolCallId, Some(TextOf(e)), None, None, None);
         |own| == 1 && own[0].role == Tool && own[0].content == env.renderTool(ToolCall(name, None, result))
         && own[0].messageId == Row(session.id, e.id)
       case OtherRow => own == []
  }

  ghost predicate ShowsRows(env: Env, parse: Parser, session: HermesSession, rows: seq<Entry>,
      messages: seq<RawMessage>) {
    if rows == [] then messages == []
    else exists n | 0 <= n <= |messages| ::
      ShowsRow(env, parse, session, rows[0], messages[..n])
      && ShowsRows(env, parse, session, rows[1..], messages[n..])
  }

  lemma ReplyIsShown(env: Env, parse: Parser, session: HermesSession, e: Entry)
    requires e.role == AssistantRow
    ensures ShowsRow(env, parse, session, e, RowMessages(env, parse, session, e))
  {
    hide IsCompressedSummary, Trim;
    var calls := CallsOfRow(parse, e);
    assert ToolCallsOf(parse, e) == calls && Trimmed(e) == TextOf(e);
    var own := RowMessages(env, parse, session, e);
    assert CallMessages(env, session, e, calls) == own[..|calls|];
  }

  lemma RowIsShown(env: Env, parse: Parser, session: HermesSession, e: Entry)
    ensures ShowsRow(env, parse, session, e, RowMessages(env, parse, session, e))
  {
    if e.role == AssistantRow {
      hide *;
      ReplyIsShown(env, parse, session, e);
    } else {
      hide IsCompressedSummary, Trim;
    }
  }

  /** What is staged of a turn is what its rows say, row by row, and nothing else. */
  lemma {:induction false} MessagesShowRows(env: Env, parse: Parser, session: HermesSession, rows: seq<Entry>)
    ensures ShowsRows(env, parse, session, rows, Messages(env, parse, session, rows))
  {
    if rows != [] {
      MessagesShowRows(env, parse, session, rows[1..]);
      RowIsShown(env, parse, session, rows[0]);
      hide RowMessages, ShowsRow;
      var own, rest := RowMessages(env, parse, session, rows[0]), Messages(env, parse, session, rows[1..]);
      assert (own + rest)[..|own|] == own && (own + rest)[|own|..] == rest;
    }
  }

  // ---------------------------------------------------------------------------------------
  // Different turns have different names
  // ---------------------------------------------------------------------------------------

  /** Reading decimal notation. */
  function ValueOf(digits: string): int {
    if digits == "" then 0
    else if digits[0] == '-' then -Count(digits[1..])
    else Count(digits)
  }

  function Count(digits: string): int {
    if digits == "" then 0
    else 10 * Count(digits[..|digits| - 1]) + (digits[|digits| - 1] as int - '0' as int)
  }

  lemma {:induction false} DigitsCount(n: nat)
    ensures Digits(n) != "" && Digits(n)[0] != '-' && Count(Digits(n)) == n
  {
    if n < 10 {
      assert Digits(n)[..0] == [];
    } else {
      DigitsCount(n / 10);
      assert Digits(n)[..|Digits(n)| - 1] == Digits(n / 10);
    }
  }

  lemma DigitsReadBack(n: int)
    ensures ValueOf(Digits(n)) == n
  {
    DigitsCount(if n < 0 then -n else n);
    if n < 0 {
      assert Digits(n)[1..] == Digits(-n);
    }
  }

  lemma NamesDiffer(session: HermesSession, a: int, b: int)
    ensures TurnName(session, a) == TurnName(session, b) <==> a == b
  {
    DigitsReadBack(a);
    DigitsReadBack(b);
    hide Digits, ValueOf;
    var n := |session.id| + 1;
    assert TurnName(session, a)[n..] == Digits(a) && TurnName(session, b)[n..] == Digits(b);
  }

  // ---------------------------------------------------------------------------------------
  // The turn that is selected
  // ---------------------------------------------------------------------------------------

  lemma OtherTurnIsNew(env: Env, parse: Parser, session: HermesSession, t: Turn, id: int)
    requires t.rows != [] && t.id != id
    ensures IsNew(TurnOutput(env, parse, session, t), session.id, TurnName(session, id))
  {
    NamesDiffer(session, t.id, id);
    if !t.rows[0].retracted {
      var input := TurnInput(env, parse, session, t.id, Entries(t.rows));
      MessagesAreOfSession(env, parse, session, Entries(t.rows));
      StagedExpected(Messages(env, parse, session, Entries(t.rows)), input, session.id);
    }
  }

  lemma {:induction false} EmitAppend(env: Env, parse: Parser, session: HermesSession, a: seq<Turn>, b: seq<Turn>)
    requires (forall t | t in a :: t.rows != []) && forall t | t in b :: t.rows != []
    ensures forall t | t in a + b :: t.rows != []
    ensures Emit(env, parse, session, a + b) == Emit(env, parse, session, a) + Emit(env, parse, session, b)
  {
    hide TurnOutput, StageTurn, Emit;
    if b == [] {
      EmitNothing(env, parse, session);
      assert a + b == a;
    } else {
      var front, last := b[..|b| - 1], Last(b);
      assert a + b == a + front + [last] && b == front + [last];
      EmitAppend(env, parse, session, a, front);
      EmitSnoc(env, parse, session, a + front, last);
      EmitSnoc(env, parse, session, front, last);
    }
  }

  lemma EmitNothing(env: Env, parse: Parser, session: HermesSession)
    ensures Emit(env, parse, session, []) == []
  {
  }

  lemma {:induction false} OthersAreNew(env: Env, parse: Parser, session: HermesSession, turns: seq<Turn>, id: int)
    requires forall t | t in turns :: t.rows != [] && t.id != id
    ensures IsNew(Emit(env, parse, session, turns), session.id, TurnName(session, id))
  {
    hide TurnOutput, TurnName;
    if turns != [] {
      var front, last := turns[..|turns| - 1], Last(turns);
      assert turns == front + [last];
      OthersAreNew(env, parse, session, front, id);
      EmitSnoc(env, parse, session, front, last);
      OtherTurnIsNew(env, parse, session, last, id);
    }
  }

  lemma {:induction false} OriginalsArePlain(rows: seq<HermesRow>)
    ensures forall r | r in Originals(rows) :: !IsCompressedSummary(r.entry)
  {
    hide IsCompressedSummary, Known;
    if rows != [] {
      OriginalsArePlain(rows[..|rows| - 1]);
    }
  }

  lemma ViewIsPlain(rows: seq<HermesRow>)
    ensures forall s | s in View(rows) :: !IsCompressedSummary(s.entry)
  {
    OriginalsArePlain(rows);
    SeenNames(rows, Originals(rows));
    hide Originals, SeenRow, IsCompressedSummary;
    assert forall i | 0 <= i < |Originals(rows)| :: Originals(rows)[i] in Originals(rows);
  }

  /** Nothing of the turn would be shown. */
  predicate Empty(parse: Parser, user: Entry, body: seq<Entry>) {
    TextOf(user) == "" && Replies(body) == [] && CallsIn(parse, body) == [] && ResultsIn(body) == []
  }

  lemma {:induction false} MessagesSnoc(env: Env, parse: Parser, session: HermesSession, rows: seq<Entry>, e: Entry)
    ensures Messages(env, parse, session, rows + [e])
        == Messages(env, parse, session, rows) + RowMessages(env, parse, session, e)
  {
    hide RowMessages;
    if rows == [] {
      assert [] + [e] == [e] && [e][1..] == [];
      assert RowMessages(env, parse, session, e) + [] == [] + RowMessages(env, parse, session, e);
    } else {
      MessagesSnoc(env, parse, session, rows[1..], e);
      assert (rows + [e])[1..] == rows[1..] + [e];
    }
  }

  /** The row shows nothing. */
  predicate IsSilent(parse: Parser, e: Entry) {
    && !(e.role == AssistantRow && TextOf(e) != "") && e.role != ToolRow
    && (e.role == AssistantRow ==> ToolCallsOf(parse, e) == [])
  }

  lemma EmptySnoc(parse: Parser, user: Entry, body: seq<Entry>, e: Entry)
    ensures Empty(parse, user, body + [e]) <==> Empty(parse, user, body) && IsSilent(parse, e)
  {
    hide TextOf;
    assert (body + [e])[..|body|] == body;
  }

  lemma {:induction false} MessagesWhenEmpty(env: Env, parse: Parser, session: HermesSession, user: Entry,
      body: seq<Entry>)
    requires user.role == UserRow && PlainBody(body)
    ensures Messages(env, parse, session, [user] + body) == [] <==> Empty(parse, user, body)
  {
    if body == [] {
      assert [user] + body == [user] && [user][1..] == [];
    } else {
      hide Empty, IsSilent, Messages, RowMessages;
      var front, last := body[..|body| - 1], Last(body);
      assert [user] + body == [user] + front + [last] && body == front + [last] && last in body;
      assert PlainBody(front) by { assert forall e | e in front :: e in body; }
      MessagesWhenEmpty(env, parse, session, user, front);
      MessagesSnoc(env, parse, session, [user] + front, last);
      RowIsSilent(env, parse, session, last);
      EmptySnoc(parse, user, front, last);
    }
  }

  lemma RowIsSilent(env: Env, parse: Parser, session: HermesSession, e: Entry)
    requires e.role != UserRow && !IsCompressedSummary(e)
    ensures RowMessages(env, parse, session, e) == [] <==> IsSilent(parse, e)
  {
  }

  /**
   What is selected from a session for the turn that a user row opens: nothing when the user took it
   back, and otherwise the turn that its rows tell, or the reason why there is none.
   */
  lemma SessionTurnIsSelected(env: Env, parse: Parser, session: HermesSession, rows: seq<HermesRow>,
      before: seq<Seen>, user: Seen, body: seq<Seen>, after: seq<Seen>)
    requires Ordered(rows) && View(rows) == before + [user] + body + after && session.id != ""
    requires user.entry.role == UserRow && NoUser(body) && (after != [] ==> after[0].entry.role == UserRow)
    ensures var entries := Entries(body);
            var selection := Selected(Staged(env, parse, session, rows), session.id, TurnName(session, user.entry.id));
            if user.retracted || Empty(parse, user.entry, entries) then selection == Missing("identity_unresolved")
            else if WhyNot(user.entry, entries) != "" then selection == Missing(WhyNot(user.entry, entries))
            else selection.Found? && Tells(env, parse, session, user.entry, entries, selection.turn)
  {
    hide View, Split, StageTurn, TurnInput, Messages, Tells, WhyNot, Empty, Selected, StageSourceTurnMessages, IsNew,
        Digits;
    var id, entries := user.entry.id, Entries(body);
    var own := Turn(id, [user] + body);
    SplitApart(before, user, body, after);
    TurnsHaveOwnIds(rows);
    OtherIds(Split(before), own, Split(after));
    EmitAppend(env, parse, session, Split(before), [own]);
    EmitAppend(env, parse, session, Split(before) + [own], Split(after));
    OthersAreNew(env, parse, session, Split(before), id);
    OthersAreNew(env, parse, session, Split(after), id);
    var first, last := Emit(env, parse, session, Split(before)), Emit(env, parse, session, Split(after));
    EmitOne(env, parse, session, own);
    BodyIsPlain(rows, before, user, body, after);
    assert Entries([user] + body) == [user.entry] + entries;
    TurnIsTold(env, parse, session, user.entry, entries);
    MessagesAreOfSession(env, parse, session, [user.entry] + entries);
    MessagesWhenEmpty(env, parse, session, user.entry, entries);
    var messages, input := Messages(env, parse, session, [user.entry] + entries),
        TurnInput(env, parse, session, id, [user.entry] + entries);
    StagesTurn(env, parse, session, id, [user.entry] + entries);
    if user.retracted || messages == [] {
      NothingStaged(input);
      NewAppend(first, last, session.id, TurnName(session, id));
      assert first + [] + last == first + last;
      NoBlockIsSelected(first + last, session.id, TurnName(session, id));
    } else {
      if input.turn.Some? {
        TellsIdentity(env, parse, session, user.entry, entries, input.turn.value);
      }
      OnlyBlockIsSelected(first, messages, input, last, session.id);
    }
  }

  lemma StagesTurn(env: Env, parse: Parser, session: HermesSession, id: int, rows: seq<Entry>)
    requires rows != []
    ensures StageTurn(env, parse, session, id, rows)
        == StageSourceTurnMessages(Messages(env, parse, session, rows), TurnInput(env, parse, session, id, rows))
  {
  }

  lemma EmitOne(env: Env, parse: Parser, session: HermesSession, t: Turn)
    requires t.rows != []
    ensures Emit(env, parse, session, [t])
        == if t.rows[0].retracted then [] else StageTurn(env, parse, session, t.id, Entries(t.rows))
  {
    hide StageTurn;
    EmitSnoc(env, parse, session, [], t);
    assert [] + [t] == [t];
  }

  lemma OtherIds(before: seq<Turn>, own: Turn, after: seq<Turn>)
    requires IdsRise(before + [own] + after)
    ensures forall t | t in before || t in after :: t.id != own.id
  {
    var all := before + [own] + after;
    assert all[|before|] == own;
    assert forall i | 0 <= i < |before| :: all[i] == before[i];
    assert forall i | 0 <= i < |after| :: all[|before| + 1 + i] == after[i];
  }

  lemma BodyIsPlain(rows: seq<HermesRow>, before: seq<Seen>, user: Seen, body: seq<Seen>, after: seq<Seen>)
    requires View(rows) == before + [user] + body + after && NoUser(body)
    ensures PlainBody(Entries(body))
  {
    ViewIsPlain(rows);
    hide View, IsCompressedSummary;
    forall i | 0 <= i < |body| ensures body[i] in body && body[i] in View(rows) {
      assert (before + [user] + body + after)[|before| + 1 + i] == body[i];
    }
  }

  lemma TellsIdentity(env: Env, parse: Parser, session: HermesSession, user: Entry, body: seq<Entry>, turn: SourceTurn)
    requires Tells(env, parse, session, user, body, turn) && session.id != ""
    ensures Identified(turn)
  {
    hide Replies, Said, CallsIn, ResultsIn, LastStopped, TextOf, Digits;
  }
}
