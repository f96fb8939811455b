/**
 What an OpenCode turn says, told from the rows of a session: the user's message and the parts of
 the assistant messages that answer it determine the turn that is staged, or the reason why none is.
 */
module OpencodeTurns {
  import opened Wrappers
  import opened SourceTurns
  import opened BlockSelection
  import opened Text
  import opened OpencodeSourceTurn

  // ---------------------------------------------------------------------------------------
  // Reading parts without a reader
  // ---------------------------------------------------------------------------------------

  /** The texts of a message, from the first that is not empty. */
  function Words(parts: seq<Part>): seq<string> {
    if parts == [] then []
    else
      var words := Words(parts[..|parts| - 1]);
      match Last(parts)
      case TextPart(text) => if text == "" && words == [] then [] else words + [text]
      case _ => words
  }

  function Say(parts: seq<Part>): string {
    Join(Words(parts), "\n")
  }

  function Tools(parts: seq<Part>): seq<Part> {
    if parts == [] then []
    else Tools(parts[..|parts| - 1]) + if Last(parts).ToolPart? then [Last(parts)] else []
  }

  predicate IsRunning(part: Part) {
    part.ToolPart? && part.status in {"pending", "running"}
  }

  predicate HasEnded(part: Part) {
    part.ToolPart? && part.status in {"completed", "error"}
  }

  /** A tool of the host whose result goes back to the model. */
  predicate IsOrdinary(part: Part) {
    part.ToolPart? && !part.providerExecuted && !(part.status == "error" && part.interrupted)
  }

  ghost predicate IsCallOf(call: ToolCall, part: Part)
    requires part.ToolPart?
  {
    && call.name == (if part.tool == "" then "tool" else part.tool) && call.input == part.input
    && call.data.id == (if part.callID == "" then None else Some(part.callID))
    && call.data.status == (if part.status == "" then None else Some(part.status))
    && call.data.output.None? && call.data.success.None? && call.data.error.None?
  }

  ghost predicate IsResultOf(result: ToolResult, part: Part)
    requires part.ToolPart?
  {
    && result.id == (if part.callID == "" then None else Some(part.callID))
    && result.output == (if part.output.Some? then part.output else part.error)
    && result.status == Some(part.status) && result.success == Some(part.status == "completed") && result.error.None?
  }

  /** The calls are those of the tool parts, one by one, and the results those of the ended ones. */
  ghost predicate AreCallsOf(calls: seq<ToolCall>, tools: seq<Part>) {
    |calls| == |tools| && forall i | 0 <= i < |tools| :: tools[i].ToolPart? && IsCallOf(calls[i], tools[i])
  }

  function Ended(tools: seq<Part>): seq<Part> {
    if tools == [] then []
    else Ended(tools[..|tools| - 1]) + if HasEnded(Last(tools)) then [Last(tools)] else []
  }

  ghost predicate AreResultsOf(results: seq<ToolResult>, tools: seq<Part>) {
    var ended := Ended(tools);
    |results| == |ended| && forall i | 0 <= i < |ended| :: ended[i].ToolPart? && IsResultOf(results[i], ended[i])
  }

  lemma {:induction false} EndedSnoc(tools: seq<Part>, tool: Part)
    ensures Ended(tools + [tool]) == Ended(tools) + if HasEnded(tool) then [tool] else []
  {
    assert (tools + [tool])[..|tools|] == tools;
  }

  lemma OnePart(c: Collected, part: Part)
    ensures var after := Collect(c, part);
            && (after.isCompaction <==> c.isCompaction || part == CompactionPart)
            && (after.pendingTool <==> c.pendingTool || IsRunning(part))
            && (after.hasOrdinaryTool <==> c.hasOrdinaryTool || IsOrdinary(part))
  {
  }

  lemma {:induction false} FlagsFromParts(parts: seq<Part>)
    ensures var c := CollectAll(parts);
            && (c.isCompaction <==> CompactionPart in parts)
            && (c.pendingTool <==> exists p | p in parts :: IsRunning(p))
            && (c.hasOrdinaryTool <==> exists p | p in parts :: IsOrdinary(p))
  {
    hide Collect, IsRunning, IsOrdinary;
    if parts != [] {
      var front, part := parts[..|parts| - 1], Last(parts);
      assert parts == front + [part];
      FlagsFromParts(front);
      OnePart(CollectAll(front), part);
      assert forall p :: p in parts <==> p in front || p == part;
    }
  }

  lemma {:induction false} TextFromParts(parts: seq<Part>)
    ensures CollectAll(parts).text == Say(parts) && (Say(parts) == "" <==> Words(parts) == [])
  {
    if parts != [] {
      TextFromParts(parts[..|parts| - 1]);
      if Last(parts).TextPart? {
        JoinSnoc(Words(parts[..|parts| - 1]), Last(parts).text, "\n");
      }
    }
  }

  /** A tool part adds its call, and its result when it has ended; other parts add neither. */
  lemma ToolCollected(c: Collected, part: Part)
    ensures var after := Collect(c, part);
            && (if !part.ToolPart? then after.toolCalls == c.toolCalls else
                  && after.toolCalls != [] && after.toolCalls[..|after.toolCalls| - 1] == c.toolCalls
                  && IsCallOf(Last(after.toolCalls), part))
            && (if !HasEnded(part) then after.toolResults == c.toolResults else
                  && after.toolResults != [] && after.toolResults[..|after.toolResults| - 1] == c.toolResults
                  && IsResultOf(Last(after.toolResults), part))
  {
    assert c.toolResults + [] == c.toolResults;
  }

  lemma CallsSnoc(calls: seq<ToolCall>, tools: seq<Part>, part: Part)
    requires calls != [] && AreCallsOf(calls[..|calls| - 1], tools) && part.ToolPart? && IsCallOf(Last(calls), part)
    ensures AreCallsOf(calls, tools + [part])
  {
    hide IsCallOf;
  }

  lemma ResultsSnoc(results: seq<ToolResult>, tools: seq<Part>, part: Part)
    requires results != [] && AreResultsOf(results[..|results| - 1], tools) && HasEnded(part)
        && IsResultOf(Last(results), part)
    ensures AreResultsOf(results, tools + [part])
  {
    EndedSnoc(tools, part);
    hide IsResultOf, Ended;
  }

  lemma ResultsSame(results: seq<ToolResult>, tools: seq<Part>, part: Part)
    requires AreResultsOf(results, tools) && !HasEnded(part)
    ensures AreResultsOf(results, tools + [part])
  {
    EndedSnoc(tools, part);
    assert Ended(tools) + [] == Ended(tools);
  }

  lemma {:induction false} ToolsFromParts(parts: seq<Part>)
    ensures var c := CollectAll(parts);
            AreCallsOf(c.toolCalls, Tools(parts)) && AreResultsOf(c.toolResults, Tools(parts))
  {
    hide Collect, IsCallOf, IsResultOf, AreCallsOf, AreResultsOf, HasEnded;
    if parts == [] {
      NoTools();
    } else {
      var front, part := parts[..|parts| - 1], Last(parts);
      ToolsFromParts(front);
      ToolCollected(CollectAll(front), part);
      var c := CollectAll(parts);
      assert Tools(front) + [] == Tools(front);
      if part.ToolPart? {
        CallsSnoc(c.toolCalls, Tools(front), part);
        if HasEnded(part) {
          ResultsSnoc(c.toolResults, Tools(front), part);
        } else {
          ResultsSame(c.toolResults, Tools(front), part);
        }
      } else {
        OnlyToolsEnd(part);
      }
    }
  }

  lemma NoTools()
    ensures AreCallsOf([], []) && AreResultsOf([], [])
  {
  }

  lemma OnlyToolsEnd(part: Part)
    ensures HasEnded(part) ==> part.ToolPart?
  {
  }

  // ---------------------------------------------------------------------------------------
  // What is visible, and what the user asked
  // ---------------------------------------------------------------------------------------

  /** The reverted message and everything after it are hidden, and nothing else. */
  lemma VisibleExactly(messages: seq<Message>, revertMessageId: string)
    ensures var visible := Visible(messages, revertMessageId);
            && visible <= messages
            && (revertMessageId != "" ==> forall m | m in visible :: m.id != revertMessageId)
            && (visible != messages ==> revertMessageId != "" && messages[|visible|].id == revertMessageId)
  {
  }

  ghost predicate Occurs(text: string, pattern: string, at: nat) {
    at + |pattern| <= |text| && text[at..at + |pattern|] == pattern
  }

  lemma IndexIsFirst(text: string, pattern: string, start: nat)
    ensures var found := IndexOf(text, pattern, start);
            && (found.Some? ==>
                  && start <= found.value && Occurs(text, pattern, found.value)
                  && forall k: nat | start <= k < found.value :: !Occurs(text, pattern, k))
            && (found.None? ==> forall k: nat | start <= k :: !Occurs(text, pattern, k))
    decreases |text| - start
  {
    if start + |pattern| <= |text| && text[start..start + |pattern|] != pattern {
      IndexIsFirst(text, pattern, start + 1);
    }
  }

  /** From the first opening tag to the next closing one. */
  ghost predicate IsBetween(text: string, open: string, close: string, i: nat, j: nat) {
    && |open| <= i <= j && Occurs(text, open, i - |open|) && Occurs(text, close, j)
    && (forall k: nat | k < i - |open| :: !Occurs(text, open, k))
    && forall k: nat | i <= k < j :: !Occurs(text, close, k)
  }

  /** Where the two searches lead. */
  lemma SearchIsBetween(text: string, open: string, close: string)
    ensures var opening := IndexOf(text, open, 0);
            var closing := if opening.Some? then IndexOf(text, close, opening.value + |open|) else None;
            if closing.Some? then IsBetween(text, open, close, opening.value + |open|, closing.value)
            else forall i: nat, j: nat :: !IsBetween(text, open, close, i, j)
  {
    IndexIsFirst(text, open, 0);
    var opening := IndexOf(text, open, 0);
    if opening.Some? {
      IndexIsFirst(text, close, opening.value + |open|);
    }
    hide IndexOf;
  }

  lemma OnlyOneBetween(text: string, open: string, close: string, i: nat, j: nat, i': nat, j': nat)
    requires IsBetween(text, open, close, i, j) && IsBetween(text, open, close, i', j')
    ensures i == i' && j == j'
  {
    hide Occurs;
  }

  ghost predicate IsRequest(text: string, i: nat, j: nat) {
    IsBetween(text, "<current_user_request>", "</current_user_request>", i, j)
  }

  /** The request is what stands between the tags when both are there, and everything otherwise. */
  lemma RequestIsUnwrapped(text: string)
    ensures forall i: nat, j: nat | IsRequest(text, i, j) :: j <= |text| && UnwrapUserRequest(text) == Trim(text[i..j])
    ensures (forall i: nat, j: nat :: !IsRequest(text, i, j)) ==> UnwrapUserRequest(text) == Trim(text)
  {
    hide Trim, IndexOf, Occurs;
    SearchIsBetween(text, OPEN_TAG, CLOSE_TAG);
    forall i: nat, j: nat | IsRequest(text, i, j)
      ensures j <= |text| && UnwrapUserRequest(text) == Trim(text[i..j])
    {
      BetweenFits(text, OPEN_TAG, CLOSE_TAG, i, j);
      var k := IndexOf(text, OPEN_TAG, 0).value + |OPEN_TAG|;
      OnlyOneBetween(text, OPEN_TAG, CLOSE_TAG, i, j, k, IndexOf(text, CLOSE_TAG, k).value);
    }
    var opening := IndexOf(text, OPEN_TAG, 0);
    if opening.Some? && IndexOf(text, CLOSE_TAG, opening.value + |OPEN_TAG|).Some? {
      assert IsRequest(text, opening.value + |OPEN_TAG|, IndexOf(text, CLOSE_TAG, opening.value + |OPEN_TAG|).value);
    }
  }

  lemma BetweenFits(text: string, open: string, close: string, i: nat, j: nat)
    requires IsBetween(text, open, close, i, j)
    ensures i <= j <= |text|
  {
  }

  // ---------------------------------------------------------------------------------------
  // The turn of one user message
  // ---------------------------------------------------------------------------------------

  /** The assistant said something or used a tool in answer to that user message. */
  predicate Replies(source: Source, user: string, m: Message) {
    && m.data.role == AssistantMessage && user != "" && m.data.parentID == user
    && (Words(PartsOf(source, m.id)) != [] || Tools(PartsOf(source, m.id)) != [])
  }

  function RepliesTo(source: Source, messages: seq<Message>, user: string): seq<Message> {
    if messages == [] then []
    else
      RepliesTo(source, messages[..|messages| - 1], user)
      + if Replies(source, user, Last(messages)) then [Last(messages)] else []
  }

  /** What the assistants said, message by message; those that only used tools say nothing. */
  function Sayings(source: Source, replies: seq<Message>): seq<string> {
    if replies == [] then []
    else
      var said := Say(PartsOf(source, Last(replies).id));
      Sayings(source, replies[..|replies| - 1]) + if said != "" then [said] else []
  }

  function Answer(source: Source, replies: seq<Message>): string {
    Join(Sayings(source, replies), "\n\n")
  }

  function Query(source: Source, user: Message): string {
    UnwrapUserRequest(Say(PartsOf(source, user.id)))
  }

  function ToolsUsed(source: Source, replies: seq<Message>): seq<Part> {
    if replies == [] then []
    else ToolsUsed(source, replies[..|replies| - 1]) + Tools(PartsOf(source, Last(replies).id))
  }

  predicate StillRuns(source: Source, replies: seq<Message>) {
    exists m | m in replies :: exists p | p in PartsOf(source, m.id) :: IsRunning(p)
  }

  /** The agent of the user message, or the first of the replies that is not the one for compaction. */
  function Profile(user: Message, replies: seq<Message>): string {
    if user.data.agent != "" then user.data.agent else FirstAgent(replies)
  }

  function FirstAgent(replies: seq<Message>): string {
    if replies == [] then ""
    else
      var agent := FirstAgent(replies[..|replies| - 1]);
      if agent != "" then agent else if Last(replies).data.agent == "compaction" then "" else Last(replies).data.agent
  }

  /** OpenCode goes on after this message. */
  predicate GoesOn(source: Source, last: Message) {
    || last.data.completed.None?
    || (!last.data.nativeTurnCompleted && !last.data.structured
        && (last.data.finish in {"", "tool-calls", "unknown"}
            || exists p | p in PartsOf(source, last.id) :: IsOrdinary(p)))
  }

  function EndedAt(last: Message): Option<Time> {
    if last.data.completed.Some? then last.data.completed else if last.data.aborted then last.data.created else None
  }

  /** Compaction is not a turn. */
  predicate IsCompactionTurn(source: Source, user: Message, replies: seq<Message>) {
    CompactionPart in PartsOf(source, user.id)
    || exists m | m in replies :: m.data.agent == "compaction" || m.data.summary
  }

  /** Why no turn is captured; "" when one is. */
  function WhyNot(source: Source, user: Message, replies: seq<Message>): string {
    if Blank(Query(source, user)) then "turn_content_incomplete"
    else if replies == [] || Last(replies).data.nativeTurnPending || StillRuns(source, replies)
        || (!Last(replies).data.aborted && GoesOn(source, Last(replies)))
        || (Blank(Answer(source, replies)) && Ended(ToolsUsed(source, replies)) == [])
    then "turn_incomplete"
    else if Profile(user, replies) == "" then "identity_unresolved"
    else if user.data.created.None? || EndedAt(Last(replies)).None? then "timestamp_unresolved"
    else ""
  }

  /** The captured turn says what the rows say. */
  ghost predicate Tells(env: Env, session: Session, source: Source, ordinal: nat, user: Message, replies: seq<Message>,
      turn: SourceTurn) {
    && turn.source == "opencode" && turn.conversationId == session.id && turn.turnId == user.id
    && turn.profileId == Profile(user, replies) && turn.sequence == ordinal
    && turn.query == env.redact(Query(source, user))
    && turn.answer == env.redact(Answer(source, replies))
    && replies != []
    && (turn.status == Failed <==> Last(replies).data.nativeFailed)
    && Some(turn.startedAt) == user.data.created && Some(turn.completedAt) == EndedAt(Last(replies))
    && turn.completionEvidence
       == (if Last(replies).data.aborted then "assistant_aborted:" else "assistant_completed:") + Last(replies).id
    && turn.workspacePath == session.directory
    && TellsTools(env, ToolsUsed(source, replies), turn)
  }

  ghost predicate TellsTools(env: Env, tools: seq<Part>, turn: SourceTurn) {
    exists calls, results ::
      && AreCallsOf(calls, tools) && AreResultsOf(results, tools)
      && turn.toolCalls == MapCalls(env.redactCall, PairedCalls(calls, results))
      && turn.toolResults == MapResults(env.redactResult, results)
  }

  // ---------------------------------------------------------------------------------------
  // The reader's assistants are the replies
  // ---------------------------------------------------------------------------------------

  ghost predicate AreReplies(source: Source, assistants: seq<OpencodeAssistant>, replies: seq<Message>) {
    |assistants| == |replies|
    && forall k | 0 <= k < |replies| ::
         && assistants[k].id == replies[k].id && assistants[k].data == replies[k].data
         && assistants[k].collected == CollectAll(PartsOf(source, replies[k].id))
  }

  lemma ReplyIsAssistant(source: Source, m: Message, user: string)
    ensures user != "" ==> (ChildOf(source, m, user) <==> Replies(source, user, m))
    ensures user == "" ==> !ChildOf(source, m, user) && !Replies(source, user, m)
    ensures ChildOf(source, m, user) ==>
              AssistantOf(source, m) == Some(OpencodeAssistant(m.id, m.data, CollectAll(PartsOf(source, m.id))))
  {
    var parts := PartsOf(source, m.id);
    TextFromParts(parts);
    ToolsFromParts(parts);
    FlagsFromParts(parts);
    RunningIsATool(parts);
    hide CollectAll, Words, Tools, Say;
  }

  lemma {:induction false} RunningIsATool(parts: seq<Part>)
    ensures (exists p | p in parts :: IsRunning(p)) ==> Tools(parts) != []
  {
    if parts != [] {
      RunningIsATool(parts[..|parts| - 1]);
      assert parts == parts[..|parts| - 1] + [Last(parts)];
    }
  }

  lemma {:induction false} AssistantsAreReplies(source: Source, messages: seq<Message>, user: string)
    ensures AreReplies(source, AssistantsOf(source, messages, user), RepliesTo(source, messages, user))
  {
    hide ChildOf, AssistantOf, Replies;
    if messages != [] {
      AssistantsAreReplies(source, messages[..|messages| - 1], user);
      ReplyIsAssistant(source, Last(messages), user);
    }
  }

  lemma {:induction false} TextsAreSayings(source: Source, assistants: seq<OpencodeAssistant>, replies: seq<Message>)
    requires AreReplies(source, assistants, replies)
    ensures NonEmpty(AllTexts(assistants)) == Sayings(source, replies)
  {
    if replies != [] {
      var n := |replies| - 1;
      TextsAreSayings(source, assistants[..n], replies[..n]);
      TextFromParts(PartsOf(source, replies[n].id));
      assert AllTexts(assistants) == AllTexts(assistants[..n]) + [assistants[n].collected.text];
      NonEmptySnoc(AllTexts(assistants[..n]), assistants[n].collected.text);
    }
  }

  lemma {:induction false} CallsAppend(assistants: seq<OpencodeAssistant>, last: OpencodeAssistant)
    ensures AllCalls(assistants + [last]) == AllCalls(assistants) + last.collected.toolCalls
    ensures AllResults(assistants + [last]) == AllResults(assistants) + last.collected.toolResults
  {
    if assistants == [] {
      assert [last][1..] == [] && [] + [last] == [last];
      assert last.collected.toolCalls + [] == last.collected.toolCalls;
      assert last.collected.toolResults + [] == last.collected.toolResults;
    } else {
      CallsAppend(assistants[1..], last);
      assert (assistants + [last])[1..] == assistants[1..] + [last];
    }
  }

  lemma CallsOfBoth(a: seq<ToolCall>, b: seq<ToolCall>, tools: seq<Part>, more: seq<Part>)
    requires AreCallsOf(a, tools) && AreCallsOf(b, more)
    ensures AreCallsOf(a + b, tools + more)
  {
    hide IsCallOf;
  }

  lemma {:induction false} EndedAppend(tools: seq<Part>, more: seq<Part>)
    ensures Ended(tools + more) == Ended(tools) + Ended(more)
  {
    if more == [] {
      assert tools + more == tools;
    } else {
      EndedAppend(tools, more[..|more| - 1]);
      EndedSnoc(tools + more[..|more| - 1], Last(more));
      assert tools + more == tools + more[..|more| - 1] + [Last(more)];
    }
  }

  lemma ResultsOfBoth(a: seq<ToolResult>, b: seq<ToolResult>, tools: seq<Part>, more: seq<Part>)
    requires AreResultsOf(a, tools) && AreResultsOf(b, more)
    ensures AreResultsOf(a + b, tools + more)
  {
    EndedAppend(tools, more);
    hide IsResultOf, Ended;
  }

  lemma {:induction false} ToolsAreUsed(source: Source, assistants: seq<OpencodeAssistant>, replies: seq<Message>)
    requires AreReplies(source, assistants, replies)
    ensures AreCallsOf(AllCalls(assistants), ToolsUsed(source, replies))
    ensures AreResultsOf(AllResults(assistants), ToolsUsed(source, replies))
  {
    hide AreCallsOf, AreResultsOf;
    if replies == [] {
      NoTools();
    } else {
      var n := |replies| - 1;
      ToolsAreUsed(source, assistants[..n], replies[..n]);
      ToolsFromParts(PartsOf(source, replies[n].id));
      CallsAppend(assistants[..n], assistants[n]);
      assert assistants == assistants[..n] + [assistants[n]];
      var c, more := assistants[n].collected, Tools(PartsOf(source, replies[n].id));
      CallsOfBoth(AllCalls(assistants[..n]), c.toolCalls, ToolsUsed(source, replies[..n]), more);
      ResultsOfBoth(AllResults(assistants[..n]), c.toolResults, ToolsUsed(source, replies[..n]), more);
    }
  }

  lemma {:induction false} ProfileSnoc(assistants: seq<OpencodeAssistant>, last: OpencodeAssistant)
    ensures ProfileId(assistants + [last])
        == if ProfileId(assistants) != "" then ProfileId(assistants)
           else if last.data.agent == "compaction" then "" else last.data.agent
  {
    if assistants == [] {
      assert [last][1..] == [] && [] + [last] == [last];
    } else {
      ProfileSnoc(assistants[1..], last);
      assert (assistants + [last])[1..] == assistants[1..] + [last];
    }
  }

  lemma {:induction false} ProfileIsFirstAgent(source: Source, assistants: seq<OpencodeAssistant>,
      replies: seq<Message>)
    requires AreReplies(source, assistants, replies)
    ensures ProfileId(assistants) == FirstAgent(replies)
  {
    if replies != [] {
      var n := |replies| - 1;
      ProfileIsFirstAgent(source, assistants[..n], replies[..n]);
      ProfileSnoc(assistants[..n], assistants[n]);
      assert assistants == assistants[..n] + [assistants[n]];
    }
  }

  lemma FlagsOfReplies(source: Source, assistants: seq<OpencodeAssistant>, replies: seq<Message>)
    requires AreReplies(source, assistants, replies)
    ensures (exists a | a in assistants :: a.collected.pendingTool) <==> StillRuns(source, replies)
    ensures (exists a | a in assistants :: IsCompaction(a))
        <==> exists m | m in replies :: m.data.agent == "compaction" || m.data.summary
    ensures replies != [] ==> (StillOpen(Last(assistants)) <==> GoesOn(source, Last(replies)))
  {
    forall k | 0 <= k < |replies|
      ensures assistants[k].collected.pendingTool <==> exists p | p in PartsOf(source, replies[k].id) :: IsRunning(p)
      ensures assistants[k].collected.hasOrdinaryTool
          <==> exists p | p in PartsOf(source, replies[k].id) :: IsOrdinary(p)
      ensures replies[k] in replies && assistants[k] in assistants
    {
      FlagsFromParts(PartsOf(source, replies[k].id));
    }
    hide CollectAll, IsRunning, IsOrdinary;
  }

  lemma ResultsEnded(results: seq<ToolResult>, tools: seq<Part>)
    requires AreResultsOf(results, tools)
    ensures results == [] <==> Ended(tools) == []
  {
  }

  // ---------------------------------------------------------------------------------------
  // The block of a user message
  // ---------------------------------------------------------------------------------------

  lemma ReasonIsTold(source: Source, user: Message, ordinal: nat, assistants: seq<OpencodeAssistant>,
      replies: seq<Message>)
    requires AreReplies(source, assistants, replies)
    ensures TurnReason(UserOf(source, user, ordinal), assistants) == WhyNot(source, user, replies)
  {
    TextFromParts(PartsOf(source, user.id));
    TextsAreSayings(source, assistants, replies);
    ToolsAreUsed(source, assistants, replies);
    ResultsEnded(AllResults(assistants), ToolsUsed(source, replies));
    ProfileIsFirstAgent(source, assistants, replies);
    FlagsOfReplies(source, assistants, replies);
    hide CollectAll, AllTexts, AllResults, ToolsUsed, Ended, Sayings, FirstAgent, ProfileId, GoesOn, StillOpen,
        StillRuns, Blank, UnwrapUserRequest, Say, Words, Tools, TurnReason, WhyNot, EndedAt, CompletedAt;
    LastReply(source, assistants, replies);
    ReasonByParts(source, user, UserOf(source, user, ordinal), assistants, replies);
  }

  lemma LastReply(source: Source, assistants: seq<OpencodeAssistant>, replies: seq<Message>)
    requires AreReplies(source, assistants, replies)
    ensures assistants == [] <==> replies == []
    ensures replies != [] ==> Last(assistants).id == Last(replies).id && Last(assistants).data == Last(replies).data
    ensures replies != [] ==> CompletedAt(assistants) == EndedAt(Last(replies))
  {
    hide CollectAll;
  }

  lemma ReasonByParts(source: Source, user: Message, asked: OpencodeUser, assistants: seq<OpencodeAssistant>,
      replies: seq<Message>)
    requires asked.query == Query(source, user) && asked.agent == user.data.agent
        && asked.startedAt == user.data.created
    requires Join(NonEmpty(AllTexts(assistants)), "\n\n") == Answer(source, replies)
    requires AllResults(assistants) == [] <==> Ended(ToolsUsed(source, replies)) == []
    requires ProfileId(assistants) == FirstAgent(replies)
    requires (exists a | a in assistants :: a.collected.pendingTool) <==> StillRuns(source, replies)
    requires assistants == [] <==> replies == []
    requires replies != [] ==>
               && Last(assistants).data == Last(replies).data && CompletedAt(assistants) == EndedAt(Last(replies))
               && (StillOpen(Last(assistants)) <==> GoesOn(source, Last(replies)))
    ensures TurnReason(asked, assistants) == WhyNot(source, user, replies)
  {
    hide AllTexts, AllResults, ToolsUsed, Ended, FirstAgent, ProfileId, GoesOn, StillOpen, StillRuns, Blank, Query,
        Answer, EndedAt, CompletedAt, Join, NonEmpty;
  }

  lemma TurnIsTold(env: Env, session: Session, source: Source, user: Message, ordinal: nat,
      assistants: seq<OpencodeAssistant>, replies: seq<Message>)
    requires AreReplies(source, assistants, replies)
    ensures var turn := TurnOf(env, session, UserOf(source, user, ordinal), assistants);
            && (turn.Some? <==> WhyNot(source, user, replies) == "")
            && (turn.Some? ==> Tells(env, session, source, ordinal, user, replies, turn.value))
  {
    ReasonIsTold(source, user, ordinal, assistants, replies);
    TextFromParts(PartsOf(source, user.id));
    TextsAreSayings(source, assistants, replies);
    ToolsAreUsed(source, assistants, replies);
    ProfileIsFirstAgent(source, assistants, replies);
    LastReply(source, assistants, replies);
    CapturedIsComplete(source, user, replies);
    hide CollectAll, AreReplies, AllTexts, AllResults, AllCalls, ToolsUsed, Sayings, FirstAgent, ProfileId,
        TurnReason, WhyNot, UnwrapUserRequest, Say, Words, Tools, AreCallsOf, AreResultsOf, EndedAt, CompletedAt,
        TellsTools;
    var turn := TurnOf(env, session, UserOf(source, user, ordinal), assistants);
    if turn.Some? {
      ToolsAreTold(env, assistants, ToolsUsed(source, replies), turn.value);
    }
  }

  lemma ToolsAreTold(env: Env, assistants: seq<OpencodeAssistant>, tools: seq<Part>, turn: SourceTurn)
    requires AreCallsOf(AllCalls(assistants), tools) && AreResultsOf(AllResults(assistants), tools)
    requires turn.toolCalls == MapCalls(env.redactCall, PairedCalls(AllCalls(assistants), AllResults(assistants)))
        && turn.toolResults == MapResults(env.redactResult, AllResults(assistants))
    ensures TellsTools(env, tools, turn)
  {
  }

  lemma CapturedIsComplete(source: Source, user: Message, replies: seq<Message>)
    ensures WhyNot(source, user, replies) == "" ==>
              replies != [] && user.data.created.Some? && EndedAt(Last(replies)).Some?
  {
  }

  /** What is staged for a user message is told by its parts and those of its replies. */
  lemma BlockIsTold(env: Env, session: Session, source: Source, i: nat)
      returns (messages: seq<RawMessage>, input: StageInput)
    requires i < |Visible(source.messages, session.revertMessageId)|
        && Visible(source.messages, session.revertMessageId)[i].data.role == UserMessage
    ensures var visible := Visible(source.messages, session.revertMessageId);
            var user := visible[i];
            var replies := RepliesTo(source, visible, user.id);
            && messages != [] && UnstagedInput(messages) && Expected(messages, session.id)
            && ShowsTurn(env, session, source, user, replies, messages)
            && input == StageInput(user.id, Some(i), user.data.created, WhyNot(source, user, replies), input.turn)
            && (input.turn.Some? <==> input.reason == "")
            && (input.turn.Some? ==> Tells(env, session, source, i, user, replies, input.turn.value))
            && BlockAt(env, session, source, i)
               == if IsCompactionTurn(source, user, replies) then [] else StageSourceTurnMessages(messages, input)
  {
    hide CollectAll, AssistantsOf, TurnReason, TurnOf, UserMessages, WhyNot, Tells, StageSourceTurnMessages, Visible,
        IsCompaction, AreReplies;
    var visible := Visible(source.messages, session.revertMessageId);
    var user := visible[i];
    var assistants, replies := AssistantsOf(source, visible, user.id), RepliesTo(source, visible, user.id);
    AssistantsAreReplies(source, visible, user.id);
    ReasonIsTold(source, user, i, assistants, replies);
    TurnIsTold(env, session, source, user, i, assistants, replies);
    FlagsOfReplies(source, assistants, replies);
    FlagsFromParts(PartsOf(source, user.id));
    var asked := UserOf(source, user, i);
    messages := UserMessages(env, session, asked, assistants);
    input := StageInput(user.id, Some(i), user.data.created, TurnReason(asked, assistants),
        TurnOf(env, session, asked, assistants));
    MessagesAreOfSession(env, session, asked, assistants);
    MessagesShowTurn(env, session, source, user, i, assistants, replies);
  }

  lemma MessagesAreOfSession(env: Env, session: Session, user: OpencodeUser, assistants: seq<OpencodeAssistant>)
    ensures var messages := UserMessages(env, session, user, assistants);
            messages != [] && UnstagedInput(messages) && Expected(messages, session.id)
  {
    AssistantMessagesAreOfSession(env, session, user.ordinal, assistants);
  }

  lemma {:induction false} AssistantMessagesAreOfSession(env: Env, session: Session, ordinal: nat,
      assistants: seq<OpencodeAssistant>)
    ensures forall m | m in AssistantMessages(env, session, ordinal, assistants) ::
        m.conversationId == session.id && m.meta.turn.None?
  {
    if assistants != [] {
      AssistantMessagesAreOfSession(env, session, ordinal, assistants[..|assistants| - 1]);
    }
  }

  /** The messages of one reply: its calls in order, then what it said, all when the reply ended. */
  ghost predicate ShowsReply(env: Env, session: Session, source: Source, reply: Message, own: seq<RawMessage>) {
    var tools, said := Tools(PartsOf(source, reply.id)), Say(PartsOf(source, reply.id));
    && |own| == |tools| + (if said == "" then 0 else 1)
    && (forall k | 0 <= k < |tools| ::
          && own[k].role == Tool && own[k].messageId == CallOf(Native(reply.id), k)
          && tools[k].ToolPart? && exists call :: IsCallOf(call, tools[k]) && own[k].content == env.renderTool(call))
    && (said != "" ==> Last(own).role == Assistant && Last(own).messageId == Native(reply.id)
                       && Last(own).content == said)
    && forall m | m in own :: m.conversationId == session.id && m.createdAt == ReplyTime(reply)
  }

  function ReplyTime(reply: Message): Time {
    if reply.data.completed.Some? then reply.data.completed.value
    else if reply.data.created.Some? then reply.data.created.value else 0
  }

  ghost predicate ShowsReplies(env: Env, session: Session, source: Source, replies: seq<Message>,
      messages: seq<RawMessage>) {
    if replies == [] then messages == []
    else exists n | 0 <= n <= |messages| ::
      && ShowsReplies(env, session, source, replies[..|replies| - 1], messages[..n])
      && ShowsReply(env, session, source, Last(replies), messages[n..])
  }

  lemma {:induction false} AssistantMessagesShow(env: Env, session: Session, source: Source, ordinal: nat,
      assistants: seq<OpencodeAssistant>, replies: seq<Message>)
    requires AreReplies(source, assistants, replies)
    ensures ShowsReplies(env, session, source, replies, AssistantMessages(env, session, ordinal, assistants))
  {
    hide ShowsReply, CollectAll;
    if replies != [] {
      var n := |replies| - 1;
      AssistantMessagesShow(env, session, source, ordinal, assistants[..n], replies[..n]);
      var own := OneAssistantShows(env, session, source, ordinal, assistants, replies[n]);
      var front := AssistantMessages(env, session, ordinal, assistants[..n]);
      assert (front + own)[..|front|] == front && (front + own)[|front|..] == own;
    }
  }

  lemma CallMessagesShow(env: Env, base: RawMessage, calls: seq<ToolCall>, tools: seq<Part>)
    requires AreCallsOf(calls, tools)
    ensures var own := CallMessages(env, base, calls);
            && |own| == |tools|
            && forall k | 0 <= k < |tools| ::
                 && own[k] == base.(messageId := CallOf(base.messageId, k), role := Tool, content := own[k].content)
                 && tools[k].ToolPart?
                 && exists call :: IsCallOf(call, tools[k]) && own[k].content == env.renderTool(call)
  {
    hide IsCallOf;
    forall k | 0 <= k < |tools|
      ensures exists call :: IsCallOf(call, tools[k])
                && CallMessages(env, base, calls)[k].content == env.renderTool(call) {
      assert IsCallOf(calls[k], tools[k]);
    }
  }

  /** The messages of one reply come last. */
  lemma OneAssistantShows(env: Env, session: Session, source: Source, ordinal: nat,
      assistants: seq<OpencodeAssistant>, reply: Message) returns (own: seq<RawMessage>)
    requires assistants != [] && Last(assistants).id == reply.id && Last(assistants).data == reply.data
    requires Last(assistants).collected == CollectAll(PartsOf(source, reply.id))
    ensures AssistantMessages(env, session, ordinal, assistants)
        == AssistantMessages(env, session, ordinal, assistants[..|assistants| - 1]) + own
    ensures ShowsReply(env, session, source, reply, own)
  {
    hide CollectAll, Say, Words, Tools, IsCallOf, AreCallsOf, AreResultsOf, CallMessages;
    TextFromParts(PartsOf(source, reply.id));
    ToolsFromParts(PartsOf(source, reply.id));
    var a := Last(assistants);
    var base := RawMessage(Native(a.id), session.id, Assistant, a.collected.text,
        TimeOr(a.data.completed, a.data.created), ordinal + |assistants|, NO_META);
    CallMessagesShow(env, base, a.collected.toolCalls, Tools(PartsOf(source, reply.id)));
    var calls := CallMessages(env, base, a.collected.toolCalls);
    own := calls + if a.collected.text != "" then [base] else [];
    var front := AssistantMessages(env, session, ordinal, assistants[..|assistants| - 1]);
    assert front + calls + (if a.collected.text != "" then [base] else []) == front + own;
  }

  ghost predicate ShowsTurn(env: Env, session: Session, source: Source, user: Message, replies: seq<Message>,
      messages: seq<RawMessage>) {
    && messages != [] && messages[0].role == User && messages[0].content == Query(source, user)
    && messages[0].messageId == Native(user.id)
    && messages[0].createdAt == (if user.data.created.Some? then user.data.created.value else 0)
    && ShowsReplies(env, session, source, replies, messages[1..])
  }

  /** What is staged of a turn: the user's words first, then what its replies did and said, and nothing else. */
  lemma MessagesShowTurn(env: Env, session: Session, source: Source, user: Message, ordinal: nat,
      assistants: seq<OpencodeAssistant>, replies: seq<Message>)
    requires AreReplies(source, assistants, replies)
    ensures ShowsTurn(env, session, source, user, replies,
              UserMessages(env, session, UserOf(source, user, ordinal), assistants))
  {
    AssistantMessagesShow(env, session, source, ordinal, assistants, replies);
    TextFromParts(PartsOf(source, user.id));
    hide ShowsReplies, CollectAll, AreReplies, UnwrapUserRequest, Say;
    var messages := UserMessages(env, session, UserOf(source, user, ordinal), assistants);
    assert messages[1..] == AssistantMessages(env, session, ordinal, assistants);
  }

  // ---------------------------------------------------------------------------------------
  // The turn that is selected
  // ---------------------------------------------------------------------------------------

  ghost predicate OwnUserId(messages: seq<Message>, i: nat) {
    i < |messages| && messages[i].id != ""
    && forall k | 0 <= k < |messages| && k != i && messages[k].data.role == UserMessage ::
         messages[k].id != messages[i].id
  }

  lemma OtherBlock(env: Env, session: Session, source: Source, i: nat, k: nat)
    requires OwnUserId(Visible(source.messages, session.revertMessageId), i) && k != i
    ensures var visible := Visible(source.messages, session.revertMessageId);
            IsNew(BlockAt(env, session, source, k), session.id, visible[i].id)
  {
    var visible := Visible(source.messages, session.revertMessageId);
    if k < |visible| && visible[k].data.role == UserMessage {
      hide StageSourceTurnMessages, BlockAt, WhyNot, Tells, IsCompactionTurn, Visible;
      var messages, input := BlockIsTold(env, session, source, k);
      StagedExpected(messages, input, session.id);
    }
  }

  lemma {:induction false} BlocksAround(env: Env, session: Session, source: Source, i: nat, n: nat)
      returns (later: seq<RawMessage>)
    requires OwnUserId(Visible(source.messages, session.revertMessageId), i) && i < n
    ensures var visible := Visible(source.messages, session.revertMessageId);
            && IsNew(Blocks(env, session, source, i), session.id, visible[i].id)
            && IsNew(later, session.id, visible[i].id)
            && Blocks(env, session, source, n)
               == Blocks(env, session, source, i) + BlockAt(env, session, source, i) + later
  {
    hide BlockAt, Visible;
    if n == i + 1 {
      BlocksBefore(env, session, source, i, i);
      later := [];
      NothingIsNew(session.id, Visible(source.messages, session.revertMessageId)[i].id);
    } else {
      later := BlocksAround(env, session, source, i, n - 1);
      OtherBlock(env, session, source, i, n - 1);
      later := later + BlockAt(env, session, source, n - 1);
    }
  }

  lemma NothingIsNew(conversationId: string, turnId: string)
    ensures IsNew([], conversationId, turnId)
  {
  }

  lemma {:induction false} BlocksBefore(env: Env, session: Session, source: Source, i: nat, n: nat)
    requires OwnUserId(Visible(source.messages, session.revertMessageId), i) && n <= i
    ensures IsNew(Blocks(env, session, source, n), session.id, Visible(source.messages, session.revertMessageId)[i].id)
  {
    hide BlockAt, Visible;
    if n > 0 {
      BlocksBefore(env, session, source, i, n - 1);
      OtherBlock(env, session, source, i, n - 1);
    }
  }

  /** The plugin and the scan select from a session what its rows say, or report why there is no turn. */
  lemma SelectedTurnIsTold(env: Env, session: Session, source: Source, i: nat)
    requires !session.subagent && session.id != ""
    requires OwnUserId(Visible(source.messages, session.revertMessageId), i)
    requires Visible(source.messages, session.revertMessageId)[i].data.role == UserMessage
    ensures var visible := Visible(source.messages, session.revertMessageId);
            var user := visible[i];
            var replies := RepliesTo(source, visible, user.id);
            var selection := Selected(Staged(env, session, source), session.id, user.id);
            if IsCompactionTurn(source, user, replies) then selection == Missing("identity_unresolved")
            else if WhyNot(source, user, replies) != "" then selection == Missing(WhyNot(source, user, replies))
            else selection.Found? && Tells(env, session, source, i, user, replies, selection.turn)
  {
    hide Blocks, BlockAt, Visible, WhyNot, Tells, IsCompactionTurn, StageSourceTurnMessages, Selected, IsNew;
    var visible := Visible(source.messages, session.revertMessageId);
    var messages, input := BlockIsTold(env, session, source, i);
    var later := BlocksAround(env, session, source, i, |visible|);
    var before := Blocks(env, session, source, i);
    if BlockAt(env, session, source, i) == [] {
      NewAppend(before, later, session.id, visible[i].id);
      assert before + [] + later == before + later;
      NoBlockIsSelected(before + later, session.id, visible[i].id);
      StagedShape(messages, input);
    } else {
      if input.turn.Some? {
        TellsIdentity(env, session, source, i, visible[i], RepliesTo(source, visible, visible[i].id), input.turn.value);
      }
      OnlyBlockIsSelected(before, messages, input, later, session.id);
    }
  }

  lemma TellsIdentity(env: Env, session: Session, source: Source, ordinal: nat, user: Message, replies: seq<Message>,
      turn: SourceTurn)
    requires Tells(env, session, source, ordinal, user, replies, turn) && user.id != "" && session.id != ""
    ensures Identified(turn)
  {
    hide Query, Answer, EndedAt, Profile, TellsTools;
  }
}
