/**
 A native OpenCode turn in the rows of the second generation: a user row, the assistant rows that
 follow it and the idle row that ends it - whatever came before and whatever comes after.
 */
module OpencodeRows {
  import opened Wrappers
  import opened SourceTurns
  import opened Text
  import opened OpencodeSourceTurn
  import opened OpencodeDatabaseSource
  import opened OpencodeIdentity
  import opened OpencodeTurns

  // ---------------------------------------------------------------------------------------
  // A log only adds to what it found
  // ---------------------------------------------------------------------------------------

  /** From a state in which nothing is open, rows add messages of their own and leave the others alone. */
  ghost predicate AddsTo(st: Feed, now: Feed, rows: seq<NativeRow>) {
    var n := |st.result|;
    && n <= |now.result| && now.result[..n] == st.result
    && (forall k | n <= k < |now.result| ::
          && now.result[k].id in Ids(rows)
          && (now.result[k].data.role == AssistantMessage ==> now.result[k].data.parentID in Ids(rows)))
    && (forall k | k in now.openAssistants :: n <= k < |now.result|)
    && (now.parentID == "" || now.parentID in Ids(rows))
    && (forall id | id !in Ids(rows) :: (id in now.parts <==> id in st.parts)
          && (id in st.parts ==> now.parts[id] == st.parts[id]))
  }

  lemma OneRowAdds(legacyIds: set<string>, st: Feed, now: Feed, rows: seq<NativeRow>, row: NativeRow)
    requires AddsTo(st, now, rows)
    ensures AddsTo(st, NativeStep(legacyIds, now, row), rows + [row])
  {
    IdsSnoc(rows, row);
    hide Ids, PartsOfItems, Otherwise;
  }

  lemma {:induction false} RowsAdd(legacyIds: set<string>, st: Feed, rows: seq<NativeRow>)
    requires st.openAssistants == [] && st.parentID == ""
    ensures AddsTo(st, NativeRun(legacyIds, st, rows), rows)
  {
    if rows != [] {
      hide AddsTo, NativeStep;
      var front := rows[..|rows| - 1];
      RowsAdd(legacyIds, st, front);
      OneRowAdds(legacyIds, st, NativeRun(legacyIds, st, front), front, Last(rows));
      assert rows == front + [Last(rows)];
    } else {
    }
  }

  // ---------------------------------------------------------------------------------------
  // The rows of a turn
  // ---------------------------------------------------------------------------------------

  /** A user row, what follows it, and the idle row that ends the turn. */
  datatype TurnRows = TurnRows(
    user: string, created: Option<Time>, text: string, body: seq<NativeRow>,
    idle: string, outcome: string, at: Option<Time>)

  function AllRows(turn: TurnRows): seq<NativeRow> {
    [NativeRow(turn.user, UserRow(turn.created, turn.text))] + turn.body
    + [NativeRow(turn.idle, IdleRow(turn.outcome, turn.at))]
  }

  predicate InsideTurn(row: NativeRow) {
    !row.content.UserRow? && !row.content.IdleRow?
  }

  /** The agent in force after some rows. */
  function AgentAfter(agent: string, body: seq<NativeRow>): string {
    if body == [] then agent
    else if Last(body).content.AgentSwitched? then Last(body).content.agent
    else AgentAfter(agent, body[..|body| - 1])
  }

  /** An assistant row with the agent that was in force, unless it names one. */
  datatype Answer = Answer(row: NativeRow, agent: string)

  function AnswersIn(agent: string, body: seq<NativeRow>): seq<Answer> {
    if body == [] then []
    else
      var front := body[..|body| - 1];
      AnswersIn(agent, front)
      + match Last(body).content
        case AssistantRow(data, _) =>
          [Answer(Last(body), if data.agent != "" then data.agent else AgentAfter(agent, front))]
        case _ => []
  }

  /** The answer as a message, when the turn is over: the idle row says when, and whether it failed. */
  predicate IsMessageOf(turn: TurnRows, answer: Answer, m: Message) {
    && answer.row.content.AssistantRow?
    && m.id == answer.row.id && m.data.role == AssistantMessage && m.data.parentID == turn.user
    && m.data.agent == answer.agent
    && m.data.nativeTurnCompleted && !m.data.nativeTurnPending && m.data.completed == turn.at
    && var data := answer.row.content.data;
       && (m.data.nativeFailed <==> data.nativeFailed || turn.outcome in {"failed", "interrupted"})
       && (m.data.aborted <==> data.aborted || turn.outcome == "interrupted")
       && m.data.created == data.created && m.data.finish == data.finish && m.data.summary == data.summary
       && m.data.structured == data.structured
  }

  /** The same while the turn is open. */
  predicate IsOpenMessageOf(user: string, answer: Answer, m: Message) {
    && answer.row.content.AssistantRow?
    && m.id == answer.row.id
    && m.data == answer.row.content.data.(nativeTurnPending := true, role := AssistantMessage, parentID := user,
         agent := answer.agent)
  }

  ghost predicate Holds(parts: map<string, seq<Part>>, answers: seq<Answer>) {
    forall k | 0 <= k < |answers| && answers[k].row.content.AssistantRow? ::
      answers[k].row.id in parts && parts[answers[k].row.id] == PartsOfItems(answers[k].row.content.items)
  }

  /** What the feed has of an open turn. */
  ghost predicate Collects(st: Feed, now: Feed, body: seq<NativeRow>) {
    var n, answers := |st.result|, AnswersIn(st.agent, body);
    && now.parentID == st.parentID && now.agent == AgentAfter(st.agent, body)
    && |now.result| == n + |answers| && now.result[..n] == st.result
    && (forall k | 0 <= k < |answers| :: IsOpenMessageOf(st.parentID, answers[k], now.result[n + k]))
    && (forall k :: k in now.openAssistants <==> n <= k < |now.result|)
    && Holds(now.parts, answers)
    && (forall id | id !in Ids(body) :: (id in now.parts <==> id in st.parts)
          && (id in st.parts ==> now.parts[id] == st.parts[id]))
  }

  lemma MoreAnswers(agent: string, body: seq<NativeRow>, row: NativeRow)
    ensures AgentAfter(agent, body + [row])
        == if row.content.AgentSwitched? then row.content.agent else AgentAfter(agent, body)
    ensures AnswersIn(agent, body + [row])
        == AnswersIn(agent, body)
           + match row.content
             case AssistantRow(data, _) =>
               [Answer(row, if data.agent != "" then data.agent else AgentAfter(agent, body))]
             case _ => []
  {
    assert (body + [row])[..|body|] == body;
    assert AnswersIn(agent, body) + [] == AnswersIn(agent, body);
  }

  /** An assistant row adds its message and stays open. */
  lemma AnswerCollects(legacyIds: set<string>, st: Feed, now: Feed, body: seq<NativeRow>, row: NativeRow)
    requires Collects(st, now, body) && row.content.AssistantRow? && row.id !in legacyIds && row.id !in Ids(body)
    requires st.parentID != ""
    ensures Collects(st, NativeStep(legacyIds, now, row), body + [row])
  {
    IdsSnoc(body, row);
    AnswersAreRows(st.agent, body);
    MoreAnswers(st.agent, body, row);
    hide Ids, PartsOfItems, AnswersIn, AgentAfter;
    var n, answers := |st.result|, AnswersIn(st.agent, body);
    var after := NativeStep(legacyIds, now, row);
    assert forall k | 0 <= k < |answers| :: answers[k] in answers && after.result[n + k] == now.result[n + k];
    assert after.result[..n] == now.result[..n];
  }

  lemma RowCollects(legacyIds: set<string>, st: Feed, now: Feed, body: seq<NativeRow>, row: NativeRow)
    requires Collects(st, now, body) && InsideTurn(row) && row.id !in legacyIds && row.id !in Ids(body)
    requires st.parentID != ""
    ensures Collects(st, NativeStep(legacyIds, now, row), body + [row])
  {
    if row.content.AssistantRow? {
      AnswerCollects(legacyIds, st, now, body, row);
    } else {
      IdsSnoc(body, row);
      MoreAnswers(st.agent, body, row);
      hide Ids, PartsOfItems, AnswersIn, AgentAfter, IsOpenMessageOf, Holds;
    }
  }

  lemma {:induction false} AnswersAreRows(agent: string, body: seq<NativeRow>)
    ensures forall a | a in AnswersIn(agent, body) :: a.row in body && a.row.id in Ids(body)
  {
    if body != [] {
      AnswersAreRows(agent, body[..|body| - 1]);
      assert body == body[..|body| - 1] + [Last(body)];
    }
  }

  lemma {:induction false} BodyCollects(legacyIds: set<string>, st: Feed, body: seq<NativeRow>)
    requires st.parentID != "" && st.openAssistants == [] && DistinctIds(body)
    requires forall row | row in body :: InsideTurn(row) && row.id !in legacyIds
    ensures Collects(st, NativeRun(legacyIds, st, body), body)
  {
    if body != [] {
      hide Collects, NativeStep;
      var front := body[..|body| - 1];
      BodyCollects(legacyIds, st, front);
      assert body == front + [Last(body)] && Last(body).id !in Ids(front);
      RowCollects(legacyIds, st, NativeRun(legacyIds, st, front), front, Last(body));
    } else {
      CollectsNothing(st);
    }
  }

  lemma CollectsNothing(st: Feed)
    requires st.openAssistants == []
    ensures Collects(st, st, [])
  {
  }

  /** The turn when it is over. */
  ghost predicate IsOver(st: Feed, now: Feed, turn: TurnRows) {
    var n, answers := |st.result|, AnswersIn(st.agent, turn.body);
    && now.parentID == "" && now.openAssistants == []
    && |now.result| == n + 1 + |answers| && now.result[..n] == st.result
    && now.result[n] == Message(turn.user, NO_DATA.(role := UserMessage, created := turn.created))
    && (forall k | 0 <= k < |answers| :: IsMessageOf(turn, answers[k], now.result[n + 1 + k]))
    && turn.user in now.parts && now.parts[turn.user] == [TextPart(turn.text)]
    && Holds(now.parts, answers)
  }

  /** Rows of one turn, each with an id of its own. */
  ghost predicate IsTurn(legacyIds: set<string>, turn: TurnRows) {
    && turn.user != "" && DistinctIds(AllRows(turn))
    && (forall row | row in turn.body :: InsideTurn(row))
    && forall row | row in AllRows(turn) :: row.id !in legacyIds
  }

  lemma TurnIsOver(legacyIds: set<string>, st: Feed, turn: TurnRows)
    requires IsTurn(legacyIds, turn)
    ensures IsOver(st, NativeRun(legacyIds, st, AllRows(turn)), turn)
  {
    hide PartsOfItems;
    var first, last := NativeRow(turn.user, UserRow(turn.created, turn.text)),
        NativeRow(turn.idle, IdleRow(turn.outcome, turn.at));
    var begun := NativeStep(legacyIds, st, first);
    TurnParts(legacyIds, turn);
    BodyCollects(legacyIds, begun, turn.body);
    NativeRunAppend(legacyIds, st, [first], turn.body);
    NativeRunAppend(legacyIds, st, [first] + turn.body, [last]);
    assert [first][..0] == [] && [last][..0] == [];
    assert NativeRun(legacyIds, st, [first]) == begun;
    var open := NativeRun(legacyIds, begun, turn.body);
    assert NativeRun(legacyIds, st, AllRows(turn)) == NativeStep(legacyIds, open, last);
    IdleEnds(legacyIds, st, begun, open, turn);
  }

  lemma TurnParts(legacyIds: set<string>, turn: TurnRows)
    requires IsTurn(legacyIds, turn)
    ensures DistinctIds(turn.body) && turn.user !in Ids(turn.body)
    ensures turn.user !in legacyIds && turn.idle !in legacyIds && forall row | row in turn.body :: row.id !in legacyIds
  {
    var rows := AllRows(turn);
    assert forall k | 0 <= k < |turn.body| :: rows[k + 1] == turn.body[k] && rows[k + 1] in rows;
    assert rows[0].id == turn.user && rows[0] in rows && rows[|rows| - 1].id == turn.idle && rows[|rows| - 1] in rows;
  }

  lemma IdleEnds(legacyIds: set<string>, st: Feed, begun: Feed, open: Feed, turn: TurnRows)
    requires turn.user !in legacyIds && turn.idle !in legacyIds && turn.user !in Ids(turn.body)
    requires begun == NativeStep(legacyIds, st, NativeRow(turn.user, UserRow(turn.created, turn.text)))
    requires Collects(begun, open, turn.body)
    ensures IsOver(st, NativeStep(legacyIds, open, NativeRow(turn.idle, IdleRow(turn.outcome, turn.at))), turn)
  {
    hide Ids, PartsOfItems, AnswersIn, AgentAfter;
    var n := |st.result|;
    assert begun.result[..n] == st.result && begun.result[n] == open.result[n];
    assert open.result[..n] == open.result[..n + 1][..n];
  }

  // ---------------------------------------------------------------------------------------
  // The turn in a whole session
  // ---------------------------------------------------------------------------------------

  function PartsOfAnswer(answer: Answer): seq<Part> {
    if answer.row.content.AssistantRow? then PartsOfItems(answer.row.content.items) else []
  }

  /** The assistant said something or used a tool. */
  predicate Counts(answer: Answer) {
    Words(PartsOfAnswer(answer)) != [] || Tools(PartsOfAnswer(answer)) != []
  }

  function RowSayings(answers: seq<Answer>): seq<string> {
    if answers == [] then []
    else
      var said := Say(PartsOfAnswer(Last(answers)));
      RowSayings(answers[..|answers| - 1]) + if said != "" then [said] else []
  }

  function RowTools(answers: seq<Answer>): seq<Part> {
    if answers == [] then [] else RowTools(answers[..|answers| - 1]) + Tools(PartsOfAnswer(Last(answers)))
  }

  function Counting(answers: seq<Answer>): seq<Answer> {
    if answers == [] then []
    else Counting(answers[..|answers| - 1]) + if Counts(Last(answers)) then [Last(answers)] else []
  }

  /** The messages are those of the answers, one by one. */
  ghost predicate AreMessagesOf(source: Source, turn: TurnRows, answers: seq<Answer>, messages: seq<Message>) {
    |messages| == |answers|
    && forall k | 0 <= k < |answers| ::
         IsMessageOf(turn, answers[k], messages[k]) && PartsOf(source, messages[k].id) == PartsOfAnswer(answers[k])
  }

  lemma OneMoreReply(source: Source, replies: seq<Message>, m: Message)
    ensures Sayings(source, replies + [m])
        == Sayings(source, replies) + if Say(PartsOf(source, m.id)) != "" then [Say(PartsOf(source, m.id))] else []
    ensures ToolsUsed(source, replies + [m]) == ToolsUsed(source, replies) + Tools(PartsOf(source, m.id))
    ensures replies + [] == replies
  {
    assert (replies + [m])[..|replies|] == replies;
  }

  lemma FrontMessages(source: Source, turn: TurnRows, answers: seq<Answer>, messages: seq<Message>)
    requires AreMessagesOf(source, turn, answers, messages) && answers != []
    ensures var n := |answers| - 1;
            && AreMessagesOf(source, turn, answers[..n], messages[..n])
            && IsMessageOf(turn, answers[n], messages[n])
            && PartsOf(source, messages[n].id) == PartsOfAnswer(answers[n])
  {
    hide IsMessageOf, PartsOfAnswer, PartsOf;
  }

  lemma {:induction false} RepliesAreAnswers(source: Source, turn: TurnRows, answers: seq<Answer>,
      messages: seq<Message>)
    requires AreMessagesOf(source, turn, answers, messages) && turn.user != ""
    ensures var replies := RepliesTo(source, messages, turn.user);
            && AreMessagesOf(source, turn, Counting(answers), replies)
            && Sayings(source, replies) == RowSayings(answers)
            && ToolsUsed(source, replies) == RowTools(answers)
  {
    hide Words, Tools, Say, PartsOf, PartsOfAnswer, IsMessageOf, Counts, Replies, Sayings, ToolsUsed;
    if answers == [] {
      NothingReplied(source);
    } else {
      var n := |answers| - 1;
      FrontMessages(source, turn, answers, messages);
      RepliesAreAnswers(source, turn, answers[..n], messages[..n]);
      AnswerReplies(source, turn, answers[n], messages[n]);
      SilentSaysNothing(answers[n]);
      OneMoreReply(source, RepliesTo(source, messages[..n], turn.user), messages[n]);
      assert RowTools(answers[..n]) + [] == RowTools(answers[..n]);
      assert RowSayings(answers[..n]) + [] == RowSayings(answers[..n]);
      assert Counting(answers[..n]) + [] == Counting(answers[..n]);
    }
  }

  lemma NothingReplied(source: Source)
    ensures Sayings(source, []) == [] && ToolsUsed(source, []) == []
  {
  }

  lemma SilentSaysNothing(answer: Answer)
    ensures !Counts(answer) ==> Say(PartsOfAnswer(answer)) == "" && Tools(PartsOfAnswer(answer)) == []
  {
  }

  lemma AnswerReplies(source: Source, turn: TurnRows, answer: Answer, m: Message)
    requires IsMessageOf(turn, answer, m) && turn.user != "" && PartsOf(source, m.id) == PartsOfAnswer(answer)
    ensures Replies(source, turn.user, m) <==> Counts(answer)
  {
    hide Words, Tools, PartsOfAnswer;
  }

  lemma {:induction false} RepliesAppend(source: Source, a: seq<Message>, b: seq<Message>, user: string)
    ensures RepliesTo(source, a + b, user) == RepliesTo(source, a, user) + RepliesTo(source, b, user)
  {
    hide Replies;
    if b == [] {
      assert a + b == a;
    } else {
      RepliesAppend(source, a, b[..|b| - 1], user);
      assert (a + b)[..|a + b| - 1] == a + b[..|b| - 1];
    }
  }

  lemma {:induction false} NoReplies(source: Source, messages: seq<Message>, user: string)
    requires forall m | m in messages :: !(m.data.role == AssistantMessage && m.data.parentID == user)
    ensures RepliesTo(source, messages, user) == []
  {
    if messages != [] {
      NoReplies(source, messages[..|messages| - 1], user);
      assert messages == messages[..|messages| - 1] + [Last(messages)];
    }
  }

  /** The turn among other rows, each with its own id; legacy messages refer to legacy messages only. */
  ghost predicate IsInLog(legacy: LegacyTables, before: seq<NativeRow>, turn: TurnRows, more: seq<NativeRow>) {
    var rows := before + AllRows(turn) + more;
    && Extends(legacy, rows, [])
    && IsTurn(LegacyIds(legacy.messages), turn)
  }

  lemma IdsOfLog(before: seq<NativeRow>, turn: TurnRows, more: seq<NativeRow>)
    requires DistinctIds(before + AllRows(turn) + more)
    ensures DistinctIds(AllRows(turn)) && turn.user in Ids(AllRows(turn))
    ensures turn.user !in Ids(before) && turn.user !in Ids(more)
    ensures forall row | row in turn.body :: row.id !in Ids(more)
  {
    var rows, own := before + AllRows(turn) + more, AllRows(turn);
    var b, n := |before|, |own|;
    assert forall k | 0 <= k < |before| :: rows[k] == before[k];
    assert forall k | 0 <= k < n :: rows[b + k] == own[k];
    assert forall k | 0 <= k < |more| :: rows[b + n + k] == more[k];
    assert own[0].id == turn.user && forall k | 0 <= k < |turn.body| :: own[k + 1] == turn.body[k];
    assert own[0] in own;
  }

  lemma SlotsAreNoReplies(legacy: LegacyTables, rows: seq<NativeRow>, user: string)
    requires Extends(legacy, rows, []) && user in Ids(rows) && user !in LegacyIds(legacy.messages)
    ensures forall m | m in LegacySlots(Migrated(legacy, Ids(rows)).messages, Ids(rows)) ::
              m.id != user && !(m.data.role == AssistantMessage && m.data.parentID == user)
  {
    assert rows + [] == rows;
    hide Ids;
    var shown := Migrated(legacy, Ids(rows)).messages;
    forall k | 0 <= k < |shown|
      ensures var m := LegacySlots(shown, Ids(rows))[k];
              m.id != user && !(m.data.role == AssistantMessage && m.data.parentID == user)
    {
      assert shown[k] in shown && shown[k] in legacy.messages;
    }
  }

  lemma InLogFacts(legacy: LegacyTables, before: seq<NativeRow>, turn: TurnRows, more: seq<NativeRow>)
    requires IsInLog(legacy, before, turn, more)
    ensures var rows := before + AllRows(turn) + more;
            var shown := Migrated(legacy, Ids(rows));
            && IsTurn(LegacyIds(shown.messages), turn)
            && turn.user !in Ids(before) && turn.user !in Ids(more)
            && (forall row | row in turn.body :: row.id !in Ids(more))
            && forall m | m in LegacySlots(shown.messages, Ids(rows)) ::
                 m.id != turn.user && !(m.data.role == AssistantMessage && m.data.parentID == turn.user)
  {
    var rows := before + AllRows(turn) + more;
    IdsOfLog(before, turn, more);
    IdsAppend(before, AllRows(turn));
    IdsAppend(before + AllRows(turn), more);
    assert AllRows(turn)[0] in AllRows(turn);
    SlotsAreNoReplies(legacy, rows, turn.user);
    var shown := Migrated(legacy, Ids(rows)).messages;
    assert forall m | m in shown :: m in legacy.messages;
    hide Ids, LegacySlots, DistinctIds;
  }

  /** The rows of a session with the turn in it, read by the adapter. */
  function SourceOf(legacy: LegacyTables, before: seq<NativeRow>, turn: TurnRows, more: seq<NativeRow>): Source {
    V2Source(legacy, before + AllRows(turn) + more)
  }

  /** The agent in force when the turn begins. */
  function AgentBefore(legacy: LegacyTables, before: seq<NativeRow>, turn: TurnRows, more: seq<NativeRow>): string {
    var ids := Ids(before + AllRows(turn) + more);
    var shown := Migrated(legacy, ids);
    NativeRun(LegacyIds(shown.messages), Start(shown, ids), before).agent
  }

  /** What the adapter makes of the rows of a turn: a user message and its replies, with their parts. */
  lemma TurnInSource(legacy: LegacyTables, before: seq<NativeRow>, turn: TurnRows, more: seq<NativeRow>)
      returns (i: nat)
    requires IsInLog(legacy, before, turn, more)
    ensures var source := SourceOf(legacy, before, turn, more);
            var answers := AnswersIn(AgentBefore(legacy, before, turn, more), turn.body);
            var replies := RepliesTo(source, source.messages, turn.user);
            && i < |source.messages|
            && source.messages[i] == Message(turn.user, NO_DATA.(role := UserMessage, created := turn.created))
            && PartsOf(source, turn.user) == [TextPart(turn.text)]
            && AreMessagesOf(source, turn, Counting(answers), replies)
            && Sayings(source, replies) == RowSayings(answers) && ToolsUsed(source, replies) == RowTools(answers)
            && OwnUserId(source.messages, i)
  {
    hide NativeStep, NativeRun, AnswersIn, Ids, LegacyIds, Migrated, Start, IsInLog, IsTurn, RepliesTo, AreMessagesOf,
        Counting, RowSayings, RowTools, Sayings, ToolsUsed, AddsTo, IsOver, OwnUserId;
    var rows := before + AllRows(turn) + more;
    var shown := Migrated(legacy, Ids(rows));
    var legacyIds, start := LegacyIds(shown.messages), Start(shown, Ids(rows));
    InLogFacts(legacy, before, turn, more);
    StartIsIdle(shown, Ids(rows));
    RowsAdd(legacyIds, start, before);
    var rest := NativeRun(legacyIds, start, before);
    TurnIsOver(legacyIds, rest, turn);
    var over := NativeRun(legacyIds, rest, AllRows(turn));
    OverIsIdle(rest, over, turn);
    RowsAdd(legacyIds, over, more);
    var now := NativeRun(legacyIds, over, more);
    NativeRunAppend(legacyIds, start, before, AllRows(turn));
    NativeRunAppend(legacyIds, start, before + AllRows(turn), more);
    i := |rest.result|;
    TurnHasUser(legacyIds, turn);
    RepliesOfTurn(start, before, rest, over, now, turn, more);
    OnlyUser(start, before, rest, over, now, turn, more);
  }

  /** No other user message of the session has its id. */
  lemma OnlyUser(start: Feed, before: seq<NativeRow>, rest: Feed, over: Feed, now: Feed, turn: TurnRows,
      more: seq<NativeRow>)
    requires AddsTo(start, rest, before) && IsOver(rest, over, turn) && AddsTo(over, now, more)
    requires forall m | m in start.result :: m.id != turn.user
    requires turn.user !in Ids(before) && turn.user !in Ids(more) && turn.user != ""
    ensures OwnUserId(now.result, |rest.result|)
  {
    hide Ids, AnswersIn, Holds;
    var n := |rest.result|;
    forall k | 0 <= k < |now.result| && k != n
      ensures now.result[k].data.role == UserMessage ==> now.result[k].id != turn.user
    {
      if k < |over.result| {
        assert now.result[..|over.result|][k] == over.result[k];
        if k < n {
          assert over.result[..n][k] == rest.result[k];
          if k < |start.result| {
            assert rest.result[..|start.result|][k] == start.result[k] && start.result[k] in start.result;
          }
        } else {
          assert IsMessageOf(turn, AnswersIn(rest.agent, turn.body)[k - n - 1], over.result[n + 1 + (k - n - 1)]);
        }
      }
    }
    assert now.result[..|over.result|][n] == over.result[n];
  }

  lemma TurnHasUser(legacyIds: set<string>, turn: TurnRows)
    requires IsTurn(legacyIds, turn)
    ensures turn.user != ""
  {
  }

  lemma OverIsIdle(rest: Feed, over: Feed, turn: TurnRows)
    requires IsOver(rest, over, turn)
    ensures over.parentID == "" && over.openAssistants == []
  {
  }

  lemma StartIsIdle(shown: LegacyTables, migrated: set<string>)
    ensures var st := Start(shown, migrated);
            st.parentID == "" && st.openAssistants == [] && st.result == LegacySlots(shown.messages, migrated)
  {
  }

  lemma RepliesOfTurn(start: Feed, before: seq<NativeRow>, rest: Feed, over: Feed, now: Feed, turn: TurnRows,
      more: seq<NativeRow>)
    requires AddsTo(start, rest, before) && IsOver(rest, over, turn) && AddsTo(over, now, more)
    requires forall m | m in start.result :: !(m.data.role == AssistantMessage && m.data.parentID == turn.user)
    requires turn.user !in Ids(before) && turn.user !in Ids(more) && turn.user != ""
    requires forall row | row in turn.body :: row.id !in Ids(more)
    ensures var source := Source(now.result, now.parts);
            var answers := AnswersIn(rest.agent, turn.body);
            var replies := RepliesTo(source, source.messages, turn.user);
            && |rest.result| < |now.result|
            && now.result[|rest.result|] == Message(turn.user, NO_DATA.(role := UserMessage, created := turn.created))
            && PartsOf(source, turn.user) == [TextPart(turn.text)]
            && AreMessagesOf(source, turn, Counting(answers), replies)
            && Sayings(source, replies) == RowSayings(answers) && ToolsUsed(source, replies) == RowTools(answers)
  {
    hide AnswersIn, Ids, RepliesTo, Counting, RowSayings, RowTools, Sayings, ToolsUsed, IsMessageOf, Words, Tools, Say;
    var source, answers := Source(now.result, now.parts), AnswersIn(rest.agent, turn.body);
    var n, m := |rest.result|, |answers|;
    var first, user, own, later := now.result[..n], now.result[n..n + 1], now.result[n + 1..n + 1 + m],
        now.result[n + 1 + m..];
    assert now.result == first + user + own + later;
    OwnMessages(rest, over, now, turn, more, answers, own);
    RepliesAreAnswers(source, turn, answers, own);
    NoneBefore(start, before, rest, turn.user);
    assert first == rest.result by { assert over.result[..n] == now.result[..n]; }
    NoReplies(source, first, turn.user);
    NoReplies(source, user, turn.user);
    NoReplies(source, later, turn.user);
    RepliesAppend(source, first, user, turn.user);
    RepliesAppend(source, first + user, own, turn.user);
    RepliesAppend(source, first + user + own, later, turn.user);
    var replies := RepliesTo(source, own, turn.user);
    assert [] + [] + replies + [] == replies;
  }

  lemma NoneBefore(start: Feed, before: seq<NativeRow>, rest: Feed, user: string)
    requires AddsTo(start, rest, before) && user !in Ids(before)
    requires forall m | m in start.result :: !(m.data.role == AssistantMessage && m.data.parentID == user)
    ensures forall m | m in rest.result :: !(m.data.role == AssistantMessage && m.data.parentID == user)
  {
    hide Ids;
    forall k | 0 <= k < |rest.result|
      ensures !(rest.result[k].data.role == AssistantMessage && rest.result[k].data.parentID == user)
    {
      if k < |start.result| {
        assert rest.result[k] == rest.result[..|start.result|][k] == start.result[k];
        assert start.result[k] in start.result;
      }
    }
  }

  lemma OwnMessages(rest: Feed, over: Feed, now: Feed, turn: TurnRows, more: seq<NativeRow>, answers: seq<Answer>,
      own: seq<Message>)
    requires IsOver(rest, over, turn) && AddsTo(over, now, more) && answers == AnswersIn(rest.agent, turn.body)
    requires own == now.result[|rest.result| + 1..|rest.result| + 1 + |answers|]
    requires forall row | row in turn.body :: row.id !in Ids(more)
    ensures AreMessagesOf(Source(now.result, now.parts), turn, answers, own)
  {
    AnswersAreRows(rest.agent, turn.body);
    hide AnswersIn, Ids;
    forall k | 0 <= k < |answers|
      ensures own[k] == over.result[|rest.result| + 1 + k] && answers[k] in answers
    {
      assert now.result[..|over.result|][|rest.result| + 1 + k] == over.result[|rest.result| + 1 + k];
    }
  }

  // ---------------------------------------------------------------------------------------
  // The turn that is captured
  // ---------------------------------------------------------------------------------------

  /** A stored item is the part it says; a failed tool's output is its error, if it has one. */
  lemma ItemSays(item: ContentItem)
    ensures item.PlainItem? ==> PartOf(item) == item.part
    ensures item.ToolItem? ==>
              var part := PartOf(item);
              && part.ToolPart? && part.callID == item.id && part.tool == item.name && part.status == item.status
              && part.input == item.input && part.error.None?
              && (part.providerExecuted <==> item.executed) && (part.interrupted <==> item.interrupted)
              && part.output == Some(if item.status == "error" && item.errorMessage != "" then item.errorMessage
                   else Join(item.texts, "\n"))
  {
  }

  /** What is captured of a native turn, in the words of its rows. */
  ghost predicate Captures(env: Env, session: Session, turn: TurnRows, answers: seq<Answer>, captured: SourceTurn) {
    var counting := Counting(answers);
    && captured.source == "opencode" && captured.conversationId == session.id && captured.turnId == turn.user
    && captured.query == env.redact(UnwrapUserRequest(turn.text))
    && captured.answer == env.redact(Join(RowSayings(answers), "\n\n"))
    && TellsTools(env, RowTools(answers), captured)
    && Some(captured.startedAt) == turn.created && (turn.at.Some? ==> Some(captured.completedAt) == turn.at)
    && counting != [] && Last(counting).row.content.AssistantRow?
    && (captured.status == Failed <==>
          turn.outcome in {"failed", "interrupted"} || Last(counting).row.content.data.nativeFailed)
    && captured.workspacePath == session.directory
  }

  /**
   The turn of a user row, its assistant rows and its idle row, in any log and with anything after
   it: what is captured is what these rows say, and nothing else.
   */
  lemma NativeTurnIsCaptured(env: Env, session: Session, legacy: LegacyTables, before: seq<NativeRow>, turn: TurnRows,
      more: seq<NativeRow>)
    requires IsInLog(legacy, before, turn, more)
    requires !session.subagent && session.id != "" && session.revertMessageId == ""
    ensures var source := SourceOf(legacy, before, turn, more);
            var answers := AnswersIn(AgentBefore(legacy, before, turn, more), turn.body);
            var user := Message(turn.user, NO_DATA.(role := UserMessage, created := turn.created));
            var replies := RepliesTo(source, source.messages, turn.user);
            var selection := Selected(Staged(env, session, source), session.id, turn.user);
            && (selection.Found? <==> !IsCompactionTurn(source, user, replies) && WhyNot(source, user, replies) == "")
            && (selection.Found? ==> Captures(env, session, turn, answers, selection.turn))
  {
    hide SourceOf, AgentBefore, IsInLog, AnswersIn, RepliesTo, Staged, Selected, IsCompactionTurn, WhyNot, OwnUserId,
        TellsTools, RowSayings, RowTools, UnwrapUserRequest, Counting;
    var source := SourceOf(legacy, before, turn, more);
    var i := TurnInSource(legacy, before, turn, more);
    SelectedTurnIsTold(env, session, source, i);
    OneText(turn.text);
    LastCounts(source, turn, Counting(AnswersIn(AgentBefore(legacy, before, turn, more), turn.body)),
        RepliesTo(source, source.messages, turn.user));
  }

  lemma OneText(text: string)
    ensures Say([TextPart(text)]) == text
  {
    assert [TextPart(text)][..0] == [];
    assert Words([]) == [] && Words([TextPart(text)]) == (if text == "" then [] else [] + [text]);
  }

  lemma LastCounts(source: Source, turn: TurnRows, counting: seq<Answer>, replies: seq<Message>)
    requires AreMessagesOf(source, turn, counting, replies)
    ensures counting == [] <==> replies == []
    ensures replies != [] ==> IsMessageOf(turn, Last(counting), Last(replies))
  {
    hide IsMessageOf;
  }
}