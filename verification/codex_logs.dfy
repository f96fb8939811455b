/**
 Short Codex logs: one that is captured by the hook and ingested by the scan, the same one with a
 quiet record that names another directory, so that the contents differ, and one that the two
 passes over staged messages cut differently, because it names no turn.
 */
module CodexLogs {
  import opened Wrappers
  import opened SourceTurns
  import opened BlockSelection
  import opened Text
  import opened CodexSourceTurn
  import opened CodexHookAndScan
  import opened CodexIngestion
  import CodexTurns
  import opened ScanStore
  import opened TurnCut
  import opened TurnPasses
  import opened StagedAgreement
  import JsonlLines

  function At(time: Time, record: Record): LogEvent {
    JsonlLines.Record(Entry(Some(time), record))
  }

  function Says(role: ItemRole, text: string, phase: string): Record {
    Response("", MessageItem(role, [ContentItem(text, "")]), "", phase)
  }

  lemma ReadsOn(env: Env, fileId: string, log: seq<LogEvent>, st: State, event: LogEvent)
    requires Run(env, fileId, INITIAL, log) == (st, []) && Step(env, fileId, st, event).1 == []
    ensures Run(env, fileId, INITIAL, log + [event]) == (Step(env, fileId, st, event).0, [])
    ensures [] + [event] == [event]
  {
    hide Step;
    var more := Step(env, fileId, st, event).1;
    assert (log + [event])[..|log|] == log && [] + more == [];
  }

  lemma OneItem(role: ItemRole, text: string)
    requires text != ""
    ensures ItemContent(role, [ContentItem(text, "")]) == text
  {
    var texts := seq(1, i requires 0 <= i < 1 => KeptText(role, [ContentItem(text, "")][i]));
    assert texts == [text] && NonEmpty(texts) == [text] + NonEmpty([]);
  }

  /** A sentence of the user or the assistant joins the open turn. */
  lemma SentenceJoins(env: Env, fileId: string, st: State, time: Time, role: ItemRole, text: string, phase: string)
    requires text != "" && role in {UserItem, AssistantItem}
    ensures var message := RawMessage(
              Line(fileId, st.lineNumber + 1), Otherwise(st.conversationId, fileId),
              if role == UserItem then User else Assistant, text, time, st.lineNumber + 1,
              Meta(st.turnId, Some(st.sequence), st.startedAt, None, "", None, "", phase));
            Step(env, fileId, st, At(time, Says(role, text, phase)))
            == (st.(lineNumber := st.lineNumber + 1, current := st.current + [message]), [])
  {
    OneItem(role, text);
    hide ItemContent;
  }

  // ---------------------------------------------------------------------------------------
  // Another directory
  // ---------------------------------------------------------------------------------------

  const BEGUN: seq<LogEvent> := [At(0, SessionMeta("s", "/a"))] + [At(1, TurnStart("t", "m", "/a"))]
  const ASKED: seq<LogEvent> := BEGUN + [At(2, Says(UserItem, "q", ""))]
  const ANSWERED: seq<LogEvent> := ASKED + [At(3, Says(AssistantItem, "r", FINAL_ANSWER))]
  const MOVED: seq<LogEvent> := [At(4, TurnStart("t", "", "/b"))]

  function Message(fileId: string, line: nat, role: Role, text: string, time: Time, phase: string): RawMessage {
    RawMessage(Line(fileId, line), "s", role, text, time, line,
        Meta("t", Some(2), Some(1), None, "", None, "", phase))
  }

  function AnsweredState(fileId: string): State {
    INITIAL.(conversationId := "s", workspacePath := "/a", turnId := "t", startedAt := Some(1), sequence := 2,
      lineNumber := 4, turnModel := "m",
      current := [Message(fileId, 3, User, "q", 2, "")] + [Message(fileId, 4, Assistant, "r", 3, FINAL_ANSWER)])
  }

  lemma BegunLog(env: Env, fileId: string)
    ensures Run(env, fileId, INITIAL, BEGUN) == (AnsweredState(fileId).(lineNumber := 2, current := []), [])
  {
    var session := At(0, SessionMeta("s", "/a"));
    ReadsOn(env, fileId, [], INITIAL, session);
    ReadsOn(env, fileId, [session], Step(env, fileId, INITIAL, session).0, At(1, TurnStart("t", "m", "/a")));
  }

  lemma AnsweredLog(env: Env, fileId: string)
    ensures Run(env, fileId, INITIAL, ANSWERED) == (AnsweredState(fileId), [])
  {
    hide Run, Step;
    var begun := AnsweredState(fileId).(lineNumber := 2, current := []);
    var q := Message(fileId, 3, User, "q", 2, "");
    BegunLog(env, fileId);
    SentenceJoins(env, fileId, begun, 2, UserItem, "q", "");
    ReadsOn(env, fileId, BEGUN, begun, At(2, Says(UserItem, "q", "")));
    assert [] + [q] == [q];
    var asked := begun.(lineNumber := 3, current := [q]);
    SentenceJoins(env, fileId, asked, 3, AssistantItem, "r", FINAL_ANSWER);
    ReadsOn(env, fileId, ASKED, asked, At(3, Says(AssistantItem, "r", FINAL_ANSWER)));
  }

  lemma TwoSentences(q: RawMessage, r: RawMessage)
    requires q.role == User && r.role == Assistant
    ensures Spoken([q] + [r]) == [q] + [r] && Query([q] + [r]) == q.content && Answer([q] + [r]) == r.content
  {
    Spoke([], q);
    Spoke([q], r);
    assert [] + [q] == [q];
    hide Spoken, Contents;
    assert Contents([q] + [r], User) == [] + [q.content] + [] == [q.content];
    assert Contents([q] + [r], Assistant) == [] + [] + [r.content] == [r.content];
  }

  lemma Spoke(messages: seq<RawMessage>, m: RawMessage)
    ensures Spoken([]) == [] && Contents([], User) == [] && Contents([], Assistant) == []
    ensures Spoken(messages + [m]) == Spoken(messages) + if m.role != System then [m] else []
    ensures Contents(messages + [m], User) == Contents(messages, User) + if m.role == User then [m.content] else []
    ensures Contents(messages + [m], Assistant)
        == Contents(messages, Assistant) + if m.role == Assistant then [m.content] else []
  {
  }

  lemma NothingMissing(st: State, at: Time)
    requires st.invalidReason == "" && st.conversationId != "" && st.turnId != "" && st.startedAt.Some?
    requires !Blank(Query(st.current)) && !Blank(Answer(st.current))
    ensures FinishReason(st, Stopped(at)) == ""
  {
  }

  lemma LettersAreNotBlank()
    ensures !Blank("q") && !Blank("r")
  {
    assert 'q' in "q" && 'r' in "r" && !IsSpace('q') && !IsSpace('r');
  }

  lemma AnsweredTurn(fileId: string)
    ensures var st := AnsweredState(fileId);
            StoppedOnAnswer(st, "s") && UnstagedInput(st.current)
                && FinishReason(st, Stopped(Last(Spoken(st.current)).createdAt)) == ""
  {
    hide Spoken, Query, Answer, FinishReason, Blank;
    var st := AnsweredState(fileId);
    TwoSentences(Message(fileId, 3, User, "q", 2, ""), Message(fileId, 4, Assistant, "r", 3, FINAL_ANSWER));
    LettersAreNotBlank();
    NothingMissing(st, 3);
  }

  lemma MovedIsQuiet(fileId: string)
    ensures (forall e | e in MOVED :: Quiet(AnsweredState(fileId), e)) && Directory("/a", MOVED) == "/b"
  {
    assert MOVED[..0] == [];
  }

  lemma HookFinds(env: Env, fileId: string)
    ensures Selected(Rollout(env, fileId, ANSWERED, Some(Stop("s", "t"))), "s", "t").Found?
  {
    hide Run, Rollout, Selected, FinishReason, FinishTurn, Decide, StageSourceTurnMessages, Observed, WithTurnId;
    var st := AnsweredState(fileId);
    AnsweredLog(env, fileId);
    AnsweredTurn(fileId);
    HookReads(env, fileId, ANSWERED, "s");
    InputShape(env, st, st.workspacePath);
    var input := Input(env, st, st.workspacePath);
    SelectBlock([], st.current, input, [], "s");
    NothingObserved("t");
    DecideAppended([], st.current, input);
    assert forall s: seq<RawMessage> :: s + [] == s && [] + s == s;
  }

  /** The hook and the scan both accept the turn, and capture different contents. */
  lemma MovedDirectoryChangesContent(env: Env, fileId: string, at: Time)
    ensures var hook := Selected(Rollout(env, fileId, ANSWERED, Some(Stop("s", "t"))), "s", "t");
            var scan := Selected(Rollout(env, fileId, ScanLog(ANSWERED, MOVED, "t", at, []), None), "s", "t");
            hook.Found? && scan.Found? && Canonical(hook.turn) != Canonical(scan.turn)
  {
    hide Run, Rollout, Selected, ScanLog, FinishReason, FinishTurn, Decide, StageSourceTurnMessages, Quiet, Observed,
        WithTurnId, ANSWERED;
    AnsweredLog(env, fileId);
    AnsweredTurn(fileId);
    HookFinds(env, fileId);
    NothingObserved("t");
    MovedIsQuiet(fileId);
    DirectoryDecidesContent(env, fileId, ANSWERED, MOVED, at, [], "s");
  }

  lemma NothingObserved(turnId: string)
    ensures WithTurnId([], turnId) == [] && Observed([]) == [] && !SomeUnfinished([])
  {
  }

  // ---------------------------------------------------------------------------------------
  // What is captured
  // ---------------------------------------------------------------------------------------

  const OPENED: seq<LogEvent> := [At(0, SessionMeta("s", "/a"))]
  const QUESTION: LogEvent := At(2, Says(UserItem, "q", ""))
  const REPLY: LogEvent := At(3, Says(AssistantItem, "r", FINAL_ANSWER))
  const TURN: CodexTurns.TurnLog := CodexTurns.TurnLog([], Some(1), "t", "m", "/a", [QUESTION] + [REPLY])

  lemma SaidOnce(role: ItemRole, text: string, time: Time, phase: string, other: ItemRole)
    requires text != ""
    ensures CodexTurns.SaidBy(other, At(time, Says(role, text, phase))) == if other == role then text else ""
  {
    var item := ContentItem(text, "");
    assert [item][..0] == [];
    assert CodexTurns.Typed(role, [item]) == CodexTurns.Typed(role, []) + [text] == [text];
  }

  lemma TextsOf(role: ItemRole, front: seq<LogEvent>, event: LogEvent)
    ensures CodexTurns.Texts(role, []) == []
    ensures CodexTurns.Texts(role, front + [event])
        == CodexTurns.Texts(role, front)
            + if CodexTurns.SaidBy(role, event) != "" then [CodexTurns.SaidBy(role, event)] else []
    ensures CodexTurns.LastSaid(front + [event])
        == if CodexTurns.Speaks(event) then Some(event) else CodexTurns.LastSaid(front)
  {
    hide CodexTurns.SaidBy, CodexTurns.Speaks;
    assert (front + [event])[..|front|] == front;
  }

  lemma TurnTells()
    ensures CodexTurns.Told(TURN) == [CodexTurns.Opening(TURN), QUESTION] + [REPLY]
    ensures CodexTurns.Asked(TURN) == "q" && CodexTurns.Replied(TURN) == "r"
    ensures CodexTurns.LastSaid(CodexTurns.Told(TURN)) == Some(REPLY) && CodexTurns.Answers(TURN)
  {
    var opening := CodexTurns.Opening(TURN);
    SaidOnce(UserItem, "q", 2, "", UserItem);
    SaidOnce(UserItem, "q", 2, "", AssistantItem);
    SaidOnce(AssistantItem, "r", 3, FINAL_ANSWER, UserItem);
    SaidOnce(AssistantItem, "r", 3, FINAL_ANSWER, AssistantItem);
    assert CodexTurns.Told(TURN) == [opening, QUESTION] + [REPLY];
    forall role | role in {UserItem, AssistantItem}
        ensures CodexTurns.Texts(role, CodexTurns.Told(TURN)) == [if role == UserItem then "q" else "r"] {
      TextsOf(role, [], opening);
      TextsOf(role, [opening], QUESTION);
      TextsOf(role, [opening, QUESTION], REPLY);
      assert [] + [opening] == [opening] && [opening] + [QUESTION] == [opening, QUESTION];
    }
    TextsOf(AssistantItem, [opening, QUESTION], REPLY);
  }

  lemma TurnIsSound()
    ensures CodexTurns.OfOneTurn(TURN, "s") && CodexTurns.ModelAfter("m", TURN.body) == "m"
    ensures CodexTurns.FlawAfter("t", CodexTurns.FlawAfter("", "", TURN.lead), TURN.body) == ""
    ensures CodexTurns.BeganAt(TURN) == Some(1)
  {
    NothingWrong([QUESTION], REPLY);
    NothingWrong([], QUESTION);
    assert [] + [QUESTION] == [QUESTION];
  }

  lemma NothingWrong(front: seq<LogEvent>, event: LogEvent)
    requires event.Record? && event.record.timestamp.Some? && event.record.record.Response?
        && event.record.record.turnId == ""
    ensures CodexTurns.ModelAfter("m", front + [event]) == CodexTurns.ModelAfter("m", front)
    ensures CodexTurns.FlawAfter("t", "", front + [event]) == CodexTurns.FlawAfter("t", "", front)
  {
    assert (front + [event])[..|front|] == front;
  }

  lemma OpenedLog(env: Env, fileId: string)
    ensures var (rest, out) := Run(env, fileId, INITIAL, OPENED);
            CodexTurns.AtRest(rest, "s") && out == [] && CodexTurns.Lines(OPENED) == 1
  {
    ReadsOn(env, fileId, [], INITIAL, OPENED[0]);
    assert OPENED[..0] == [];
  }

  /** The turn asks what the person asked and answers what was answered; only its record can fail it. */
  lemma AnsweredTurnSaysItsWords(env: Env, fileId: string, at: Time, failed: bool)
    requires CodexTurns.Renders(env)
    ensures var ends := At(at, TaskComplete("t", failed));
            var selection := Selected(Rollout(env, fileId, ANSWERED + [ends], None), "s", "t");
            && selection.Found? && selection.turn.query == env.redact("q") && selection.turn.answer == env.redact("r")
            && selection.turn.status == (if failed then Failed else Succeeded)
            && selection.turn.startedAt == 1 && selection.turn.completedAt == 3 && selection.turn.sequence == 2
  {
    hide Run, Rollout, Selected, CodexTurns.Told, CodexTurns.Texts, CodexTurns.LastSaid, CodexTurns.OfOneTurn,
        CodexTurns.FlawAfter, CodexTurns.ModelAfter, CodexTurns.Asked, CodexTurns.Replied, CodexTurns.Renders,
        CodexTurns.AtRest, CodexTurns.BeganAt, CodexTurns.Answers, Directory, CodexTurns.CallsIn, CodexTurns.ResultsIn,
        Blank;
    OpenedLog(env, fileId);
    TurnTells();
    TurnIsSound();
    LettersAreNotBlank();
    CodexTurns.CompletedTurnIsSelected(env, fileId, OPENED, TURN, "s", Some(at), failed, []);
    var ends := At(at, TaskComplete("t", failed));
    assert OPENED + CodexTurns.Told(TURN) + [ends] + [] == ANSWERED + [ends];
  }

  // ---------------------------------------------------------------------------------------
  // Captured and ingested
  // ---------------------------------------------------------------------------------------

  lemma CompletionIsRead(env: Env, fileId: string, at: Time)
    ensures var st := AnsweredState(fileId);
            Run(env, fileId, INITIAL, ANSWERED + [Completion("t", at)])
            == (Cleared(st.(lineNumber := 5)).(turnId := "", startedAt := None),
                StageSourceTurnMessages(Closing(fileId, st, at), Input(env, st, "/a")))
  {
    hide Run, Step, StageSourceTurnMessages, Input, EndsWithFinalAnswer, Closing, Completion, ANSWERED;
    var st, complete := AnsweredState(fileId), Completion("t", at);
    AnsweredLog(env, fileId);
    AnsweredTurn(fileId);
    assert st.current[|st.current|..] == [];
    CompletionStep(env, fileId, st, st, at);
    RunAppend(env, fileId, INITIAL, ANSWERED, [complete]);
    RunOne(env, fileId, st, complete);
    var staged := StageSourceTurnMessages(Closing(fileId, st, at), Input(env, st, "/a"));
    assert [] + staged == staged;
  }

  /** The completion record stages the open messages and its own, and nothing stays open. */
  lemma ClosedLog(env: Env, fileId: string, at: Time)
    ensures var st := AnsweredState(fileId);
            Rollout(env, fileId, ScanLog(ANSWERED, [], "t", at, []), None)
            == StageSourceTurnMessages(Closing(fileId, st, at), Input(env, st, "/a"))
  {
    hide Run, Step, StageSourceTurnMessages, Input, AtEnd, Closing, Completion, ANSWERED;
    var st := AnsweredState(fileId);
    AnsweredTurn(fileId);
    assert ScanLog(ANSWERED, [], "t", at, []) == ANSWERED + [Completion("t", at)];
    CompletionIsRead(env, fileId, at);
    NothingOpen(env, fileId, Cleared(st.(lineNumber := 5)).(turnId := "", startedAt := None));
    var staged := StageSourceTurnMessages(Closing(fileId, st, at), Input(env, st, "/a"));
    assert staged + [] == staged;
  }

  lemma ClosedMessages(env: Env, fileId: string, at: Time)
    ensures forall m | m in Rollout(env, fileId, ScanLog(ANSWERED, [], "t", at, []), None) ::
              m.conversationId == "s" && m.meta.turnId == "t" && m.meta.state.Some?
  {
    hide Rollout, ScanLog, StageSourceTurnMessages, ANSWERED, EndsWithFinalAnswer, FinishReason, FinishTurn;
    var st := AnsweredState(fileId);
    ClosedLog(env, fileId, at);
    AnsweredTurn(fileId);
    StagedShape(Closing(fileId, st, at), Input(env, st, "/a"));
  }

  lemma NothingOpen(env: Env, fileId: string, st: State)
    requires st.current == []
    ensures AtEnd(env, fileId, st, None) == []
  {
  }

  lemma {:induction false} OneTurnIsContiguous(messages: seq<ConversationMessage>, conversationId: string,
      turnId: string)
    requires forall m | m in messages :: OfTurn(m, conversationId, turnId)
    ensures Contiguous(messages)
  {
    if |messages| > 1 {
      OneTurnIsContiguous(messages[..|messages| - 1], conversationId, turnId);
      assert messages[|messages| - 2] in messages;
    }
  }

  lemma OneTurnIsOrderly(whole: seq<ConversationMessage>, events: seq<ScanStore.Event>, sourceId: string,
      conversationId: string, turnId: string)
    requires StagedWhole(whole, events, sourceId) && forall m | m in whole :: OfTurn(m, conversationId, turnId)
    ensures Orderly(Paged(whole, events, sourceId))
  {
    hide Paged, StagedWhole, Contiguous, DistinctMessages;
    StagedAndPaged(whole, events, sourceId);
    OneTurnIsContiguous(Paged(whole, events, sourceId), conversationId, turnId);
  }

  lemma OnePass(stream: seq<ConversationMessage>, sourceId: string)
    requires forall m | m in stream :: m.sourceId == sourceId
    ensures StagedWhole(stream, [Batch(|stream|)], sourceId)
  {
    var event: ScanStore.Event := Batch(|stream|);
    assert [event][..0] == [];
    assert RunEvents(stream, []) == World([], 0, 0, 0);
  }

  /** The hook captures the turn from the open log, and the scan ingests it from the closed one. */
  lemma AnsweredTurnIsIngested(env: Env, fileId: string, at: Time, printed: Printer, sourceId: string)
    requires PrintsLines(printed, fileId)
    ensures var hook := Selected(Rollout(env, fileId, ANSWERED, Some(Stop("s", "t"))), "s", "t");
            var stream := Rollout(env, fileId, ScanLog(ANSWERED, [], "t", at, []), None);
            var whole := ConvertedAll(printed, sourceId, stream);
            && hook.Found? && StagedWhole(whole, [Batch(|whole|)], sourceId)
            && exists g | IsGroup(whole, [Batch(|whole|)], sourceId, g, "s", "t") ::
                 && ShouldEmit(g) && SourceTurnFromMessages(MetasOf(g)).Some?
                 && Canonical(SourceTurnFromMessages(MetasOf(g)).value) == Canonical(hook.turn)
  {
    hide Run, Rollout, Selected, ScanLog, StageSourceTurnMessages, Paged, Orderly, StagedWhole, IsGroup, ShouldEmit,
        SourceTurnFromMessages, PrintsLines, Canonical;
    AnsweredLog(env, fileId);
    HookFinds(env, fileId);
    AnsweredTurn(fileId);
    ClosedMessages(env, fileId, at);
    var stream := Rollout(env, fileId, ScanLog(ANSWERED, [], "t", at, []), None);
    var whole := ConvertedAll(printed, sourceId, stream);
    assert forall i | 0 <= i < |stream| :: stream[i] in stream;
    OnePass(whole, sourceId);
    OneTurnIsOrderly(whole, [Batch(|whole|)], sourceId, "s", "t");
    assert Whole(printed, sourceId, [], stream, []) == whole;
    HookTurnIsIngested(env, fileId, ANSWERED, [], at, [], "s", printed, sourceId, [], [], [Batch(|whole|)], "s");
  }

  // ---------------------------------------------------------------------------------------
  // No turn ids
  // ---------------------------------------------------------------------------------------

  const SESSION: seq<LogEvent> := [At(0, SessionMeta("s", ""))]
  const ONCE: seq<LogEvent> := SESSION + [At(1, Says(UserItem, "q", ""))]
  const REPLIED: seq<LogEvent> := ONCE + [At(2, Says(AssistantItem, "r", ""))]
  const UNNAMED: seq<LogEvent> := REPLIED + [At(3, Says(UserItem, "p", ""))]

  function Unnamed(fileId: string, line: nat, role: Role, text: string, time: Time): RawMessage {
    RawMessage(Line(fileId, line), "s", role, text, time, line, Meta("", Some(0), None, None, "", None, "", ""))
  }

  function UnnamedState(fileId: string): State {
    INITIAL.(conversationId := "s", lineNumber := 4,
      current := [Unnamed(fileId, 2, User, "q", 1)] + [Unnamed(fileId, 3, Assistant, "r", 2)]
          + [Unnamed(fileId, 4, User, "p", 3)])
  }

  lemma UnnamedLog(env: Env, fileId: string)
    ensures Run(env, fileId, INITIAL, UNNAMED) == (UnnamedState(fileId), [])
  {
    var q, r := Unnamed(fileId, 2, User, "q", 1), Unnamed(fileId, 3, Assistant, "r", 2);
    var begun := INITIAL.(conversationId := "s", lineNumber := 1);
    ReadsOn(env, fileId, [], INITIAL, SESSION[0]);
    assert Step(env, fileId, INITIAL, SESSION[0]) == (begun, []);
    hide Run, Step;
    SentenceJoins(env, fileId, begun, 1, UserItem, "q", "");
    ReadsOn(env, fileId, SESSION, begun, At(1, Says(UserItem, "q", "")));
    assert [] + [q] == [q];
    var asked := begun.(lineNumber := 2, current := [q]);
    SentenceJoins(env, fileId, asked, 2, AssistantItem, "r", "");
    ReadsOn(env, fileId, ONCE, asked, At(2, Says(AssistantItem, "r", "")));
    var replied := begun.(lineNumber := 3, current := [q] + [r]);
    SentenceJoins(env, fileId, replied, 3, UserItem, "p", "");
    ReadsOn(env, fileId, REPLIED, replied, At(3, Says(UserItem, "p", "")));
  }

  function UnnamedInput(env: Env, fileId: string): StageInput {
    var st := UnnamedState(fileId);
    StageInput("", None, None, FinishReason(st, Open), FinishTurn(env, st, Open))
  }

  lemma UnnamedRollout(env: Env, fileId: string)
    ensures Rollout(env, fileId, UNNAMED, None)
        == StageSourceTurnMessages(UnnamedState(fileId).current, UnnamedInput(env, fileId))
  {
    hide Run, StageSourceTurnMessages, FinishTurn, FinishReason, Spoken, UNNAMED;
    UnnamedLog(env, fileId);
    var st := UnnamedState(fileId);
    SomethingSpoken(st.current);
    assert st.current + [] == st.current;
    var staged := StageSourceTurnMessages(st.current, UnnamedInput(env, fileId));
    assert [] + staged == staged;
  }

  /** Its messages are staged without a turn id, and the two passes cut them differently. */
  lemma UnnamedLogIsCutDifferently(env: Env, fileId: string, printed: Printer, sourceId: string)
    ensures var messages := ConvertedAll(printed, sourceId, Rollout(env, fileId, UNNAMED, None));
            && Uniform(messages) && !NoUnnamedUser(messages)
            && Cut(PrepareCuts, messages) != Cut(BeginsNextTurn, messages)
  {
    hide Rollout, Cut, StageSourceTurnMessages, UnnamedInput, UNNAMED, Uniform;
    UnnamedRollout(env, fileId);
    var plain, input := UnnamedState(fileId).current, UnnamedInput(env, fileId);
    StagedShape(plain, input);
    StagedRoles(plain, input);
    NoTurnId(env, fileId);
    var messages := ConvertedAll(printed, sourceId, StageSourceTurnMessages(plain, input));
    AllStaged(messages);
    assert UnnamedUser(messages[1], messages[2]);
    CutsAgreeExactly(messages);
  }

  lemma NoTurnId(env: Env, fileId: string)
    ensures UnnamedInput(env, fileId).turnId == ""
  {
  }

  lemma AllStaged(messages: seq<ConversationMessage>)
    requires forall i | 0 <= i < |messages| :: HasStagedTurn(messages[i])
    ensures Uniform(messages)
  {
  }

  lemma SomethingSpoken(messages: seq<RawMessage>)
    requires messages != [] && Last(messages).role != System
    ensures Spoken(messages) != []
  {
  }

  lemma StagedRoles(messages: seq<RawMessage>, input: StageInput)
    ensures var staged := StageSourceTurnMessages(messages, input);
            |staged| == |messages| && forall i | 0 <= i < |messages| :: staged[i].role == messages[i].role
  {
  }
}
