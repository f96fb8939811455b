/**
 Reading one OpenCode session (AgentSourceCore/src/opencode-source-turn.ts): a turn is a user
 message and every assistant message whose parent it is. How the rows were stored is the
 business of the database adapter.
 */
module OpencodeSourceTurn {
  import opened Wrappers
  import opened SourceTurns
  import opened Text

  datatype MessageRole = UserMessage | AssistantMessage | OtherMessage

  /** `message.data`, its fields read with `text()`, `epochIso` and `=== true`. */
  datatype Data = Data(
    role: MessageRole, parentID: string, agent: string, created: Option<Time>, completed: Option<Time>,
    aborted: bool, finish: string, summary: bool, structured: bool,
    nativeTurnCompleted: bool, nativeTurnPending: bool, nativeFailed: bool)

  const NO_DATA := Data(OtherMessage, "", "", None, None, false, "", false, false, false, false, false)

  datatype Part =
    | CompactionPart
    | TextPart(text: string)
    | ToolPart(callID: string, tool: string, status: string, providerExecuted: bool, interrupted: bool,
               input: Option<Payload>, output: Option<Payload>, error: Option<Payload>)
    | OtherPart

  datatype Message = Message(id: string, data: Data)

  /** A session's messages in order, and the parts of each message. */
  datatype Source = Source(messages: seq<Message>, parts: map<string, seq<Part>>)

  datatype Session = Session(id: string, subagent: bool, directory: string, revertMessageId: string)

  datatype Collected = Collected(
    text: string, isCompaction: bool, pendingTool: bool, hasOrdinaryTool: bool,
    toolCalls: seq<ToolCall>, toolResults: seq<ToolResult>)

  datatype OpencodeAssistant = OpencodeAssistant(id: string, data: Data, collected: Collected)

  datatype OpencodeUser = OpencodeUser(id: string, ordinal: nat, query: string, startedAt: Option<Time>,
      isCompaction: bool, agent: string)

  // ---------------------------------------------------------------------------------------
  // Parts
  // ---------------------------------------------------------------------------------------

  function PartsOf(source: Source, id: string): seq<Part> {
    if id in source.parts then source.parts[id] else []
  }

  function OptionalText(text: string): Option<string> {
    if text == "" then None else Some(text)
  }

  function ToolName(part: Part): string
    requires part.ToolPart?
  {
    if part.tool != "" then part.tool else "tool"
  }

  function Collect(collected: Collected, part: Part): Collected {
    match part
    case CompactionPart => collected.(isCompaction := true)
    case TextPart(text) => collected.(text := if collected.text != "" then collected.text + "\n" + text else text)
    case ToolPart(callID, _, status, providerExecuted, interrupted, input, output, error) =>
      collected.(
        pendingTool := collected.pendingTool || status == "pending" || status == "running",
        hasOrdinaryTool := collected.hasOrdinaryTool || (!providerExecuted && !(status == "error" && interrupted)),
        toolCalls := collected.toolCalls
            + [ToolCall(ToolName(part), input,
            ToolResult(OptionalText(callID), None, OptionalText(status), None, None))],
        toolResults := collected.toolResults
          + if status == "completed" || status == "error"
            then [ToolResult(OptionalText(callID), Overlay(error, output), Some(status), Some(status == "completed"),
                None)] else [])
    case OtherPart => collected
  }

  const NOTHING := Collected("", false, false, false, [], [])

  function CollectAll(parts: seq<Part>): Collected {
    if parts == [] then NOTHING else Collect(CollectAll(parts[..|parts| - 1]), Last(parts))
  }

  method CollectParts(parts: seq<Part>) returns (collected: Collected)
    ensures collected == CollectAll(parts)
  {
    var text, isCompaction, pendingTool, hasOrdinaryTool := "", false, false, false;
    var toolCalls: seq<ToolCall>, toolResults: seq<ToolResult> := [], [];
    for i := 0 to |parts|
      invariant Collected(text, isCompaction, pendingTool, hasOrdinaryTool, toolCalls, toolResults)
          == CollectAll(parts[..i])
    {
      assert parts[..i + 1][..i] == parts[..i];
      var part := parts[i];
      match part
      case CompactionPart => isCompaction := true;
      case TextPart(value) => text := if text != "" then text + "\n" + value else value;
      case ToolPart(callID, _, status, providerExecuted, interrupted, input, output, error) =>
        if status == "pending" || status == "running" { pendingTool := true; }
        if !providerExecuted && !(status == "error" && interrupted) { hasOrdinaryTool := true; }
        toolCalls := toolCalls
            + [ToolCall(ToolName(part), input,
            ToolResult(OptionalText(callID), None, OptionalText(status), None, None))];
        assert toolResults + [] == toolResults;
        if status == "completed" || status == "error" {
          toolResults := toolResults
              + [ToolResult(OptionalText(callID), Overlay(error, output), Some(status), Some(status == "completed"),
              None)];
        }
      case OtherPart =>
    }
    assert parts[..|parts|] == parts;
    return Collected(text, isCompaction, pendingTool, hasOrdinaryTool, toolCalls, toolResults);
  }

  // ---------------------------------------------------------------------------------------
  // The user's words
  // ---------------------------------------------------------------------------------------

  const OPEN_TAG := "<current_user_request>"
  const CLOSE_TAG := "</current_user_request>"

  function IndexOf(text: string, pattern: string, start: nat): Option<nat>
    decreases |text| - start
  {
    if start + |pattern| > |text| then None
    else if text[start..start + |pattern|] == pattern then Some(start)
    else IndexOf(text, pattern, start + 1)
  }

  /** The text between the tags when both are there, otherwise all of it. */
  function UnwrapUserRequest(text: string): string {
    var opening := IndexOf(text, OPEN_TAG, 0);
    var closing := if opening.Some? then IndexOf(text, CLOSE_TAG, opening.value + |OPEN_TAG|) else None;
    if closing.Some? && opening.value + |OPEN_TAG| <= closing.value <= |text|
    then Trim(text[opening.value + |OPEN_TAG|..closing.value]) else Trim(text)
  }

  // ---------------------------------------------------------------------------------------
  // Specification: the block of one message
  // ---------------------------------------------------------------------------------------

  function FindId(messages: seq<Message>, id: string): (index: nat)
    ensures index <= |messages|
    ensures index < |messages| ==> messages[index].id == id
    ensures forall i | 0 <= i < index :: messages[i].id != id
  {
    if messages == [] || messages[0].id == id then 0 else 1 + FindId(messages[1..], id)
  }

  /** `visibleOpencodeMessages`: hides the reverted message and everything after it. */
  function Visible(messages: seq<Message>, revertMessageId: string): seq<Message> {
    if revertMessageId == "" then messages else messages[..FindId(messages, revertMessageId)]
  }

  /** An assistant with neither text nor a tool is idle bookkeeping. */
  function AssistantOf(source: Source, message: Message): Option<OpencodeAssistant> {
    var collected := CollectAll(PartsOf(source, message.id));
    if message.data.role != AssistantMessage || message.data.parentID == "" then None
    else if collected.text == "" && collected.toolCalls == [] && !collected.pendingTool then None
    else Some(OpencodeAssistant(message.id, message.data, collected))
  }

  predicate ChildOf(source: Source, message: Message, parent: string) {
    AssistantOf(source, message).Some? && message.data.parentID == parent
  }

  function AssistantsOf(source: Source, messages: seq<Message>, parent: string): seq<OpencodeAssistant> {
    if messages == [] then []
    else
      AssistantsOf(source, messages[..|messages| - 1], parent)
      + if ChildOf(source, Last(messages), parent) then [AssistantOf(source, Last(messages)).value] else []
  }

  function UserOf(source: Source, message: Message, ordinal: nat): OpencodeUser {
    var collected := CollectAll(PartsOf(source, message.id));
    OpencodeUser(message.id, ordinal, UnwrapUserRequest(collected.text), message.data.created, collected.isCompaction,
        message.data.agent)
  }

  predicate IsCompaction(a: OpencodeAssistant) {
    a.data.agent == "compaction" || a.data.summary
  }

  predicate StillOpen(last: OpencodeAssistant) {
    if last.data.completed.None? then true
    else if last.data.nativeTurnCompleted then false
    else if last.data.structured then false
    else if last.data.finish == "" || last.data.finish == "tool-calls" || last.data.finish == "unknown" then true
    else last.collected.hasOrdinaryTool
  }

  function ProfileId(assistants: seq<OpencodeAssistant>): string {
    if assistants == [] then ""
    else if assistants[0].data.agent != "" && assistants[0].data.agent != "compaction" then assistants[0].data.agent
    else ProfileId(assistants[1..])
  }

  function AllTexts(assistants: seq<OpencodeAssistant>): seq<string> {
    seq(|assistants|, i requires 0 <= i < |assistants| => assistants[i].collected.text)
  }

  function AllCalls(assistants: seq<OpencodeAssistant>): seq<ToolCall> {
    if assistants == [] then [] else assistants[0].collected.toolCalls + AllCalls(assistants[1..])
  }

  function AllResults(assistants: seq<OpencodeAssistant>): seq<ToolResult> {
    if assistants == [] then [] else assistants[0].collected.toolResults + AllResults(assistants[1..])
  }

  function CompletedAt(assistants: seq<OpencodeAssistant>): Option<Time> {
    if assistants == [] then None
    else
      var last := Last(assistants);
      if last.data.completed.Some? then last.data.completed
      else if last.data.aborted then last.data.created else None
  }

  function TurnReason(user: OpencodeUser, assistants: seq<OpencodeAssistant>): string {
    var answer := Join(NonEmpty(AllTexts(assistants)), "\n\n");
    var profileId := if user.agent != "" then user.agent else ProfileId(assistants);
    if Blank(user.query) then "turn_content_incomplete"
    else if assistants == [] || Last(assistants).data.nativeTurnPending then "turn_incomplete"
    else if exists a | a in assistants :: a.collected.pendingTool then "turn_incomplete"
    else if !Last(assistants).data.aborted && StillOpen(Last(assistants)) then "turn_incomplete"
    else if Blank(answer) && AllResults(assistants) == [] then "turn_incomplete"
    else if profileId == "" then "identity_unresolved"
    else if user.startedAt.None? || CompletedAt(assistants).None? then "timestamp_unresolved"
    else ""
  }

  function TurnOf(env: Env, session: Session, user: OpencodeUser,
      assistants: seq<OpencodeAssistant>): Option<SourceTurn> {
    if TurnReason(user, assistants) != "" then None
    else
      var last := Last(assistants);
      var results := AllResults(assistants);
      Some(SourceTurn(
        "opencode", session.id, user.id, if user.agent != "" then user.agent else ProfileId(assistants),
        user.startedAt.value, CompletedAt(assistants).value, user.ordinal,
        (if last.data.aborted then "assistant_aborted:" else "assistant_completed:") + last.id,
        env.redact(user.query), env.redact(Join(NonEmpty(AllTexts(assistants)), "\n\n")),
        if last.data.nativeFailed then Failed else Succeeded,
        MapCalls(env.redactCall, PairedCalls(AllCalls(assistants), results)), MapResults(env.redactResult, results),
        session.directory))
  }

  function TimeOr(time: Option<Time>, fallback: Option<Time>): Time {
    if time.Some? then time.value else if fallback.Some? then fallback.value else 0
  }

  function CallMessages(env: Env, base: RawMessage, calls: seq<ToolCall>): seq<RawMessage> {
    seq(|calls|, i requires 0 <= i < |calls| =>
      base.(messageId := CallOf(base.messageId, i), role := Tool, content := env.renderTool(calls[i])))
  }

  function AssistantMessages(env: Env, session: Session, ordinal: nat,
      assistants: seq<OpencodeAssistant>): seq<RawMessage> {
    if assistants == [] then []
    else
      var a := Last(assistants);
      var base := RawMessage(Native(a.id), session.id, Assistant, a.collected.text,
          TimeOr(a.data.completed, a.data.created),
                             ordinal + |assistants|, NO_META);
      AssistantMessages(env, session, ordinal, assistants[..|assistants| - 1])
      + CallMessages(env, base, a.collected.toolCalls) + if a.collected.text != "" then [base] else []
  }

  function UserMessages(env: Env, session: Session, user: OpencodeUser,
      assistants: seq<OpencodeAssistant>): seq<RawMessage> {
    [RawMessage(Native(user.id), session.id, User, user.query, TimeOr(user.startedAt, None), user.ordinal, NO_META)]
    + AssistantMessages(env, session, user.ordinal, assistants)
  }

  /** What is staged for one user message: nothing for a compaction. */
  function UserBlock(env: Env, session: Session, user: OpencodeUser,
      assistants: seq<OpencodeAssistant>): seq<RawMessage> {
    if user.isCompaction || exists a | a in assistants :: IsCompaction(a) then []
    else StageSourceTurnMessages(
           UserMessages(env, session, user, assistants),
           StageInput(user.id, Some(user.ordinal), user.startedAt, TurnReason(user, assistants),
               TurnOf(env, session, user, assistants)))
  }

  /** What is staged for the message at one position of the session. */
  function BlockAt(env: Env, session: Session, source: Source, i: nat): seq<RawMessage> {
    var messages := Visible(source.messages, session.revertMessageId);
    if i < |messages| && messages[i].data.role == UserMessage
    then UserBlock(env, session, UserOf(source, messages[i], i), AssistantsOf(source, messages, messages[i].id))
    else []
  }

  function Blocks(env: Env, session: Session, source: Source, n: nat): seq<RawMessage> {
    if n == 0 then [] else Blocks(env, session, source, n - 1) + BlockAt(env, session, source, n - 1)
  }

  /** `readOpencodeSession` */
  function Staged(env: Env, session: Session, source: Source): seq<RawMessage> {
    if session.subagent then [] else Blocks(env, session, source, |Visible(source.messages, session.revertMessageId)|)
  }

  // ---------------------------------------------------------------------------------------
  // The reader
  // ---------------------------------------------------------------------------------------

  ghost predicate Buckets(source: Source, messages: seq<Message>, byParent: map<string, seq<OpencodeAssistant>>) {
    forall parent :: AssistantsOf(source, messages, parent) == if parent in byParent then byParent[parent] else []
  }

  lemma AssistantsSnoc(source: Source, messages: seq<Message>, message: Message, parent: string)
    ensures AssistantsOf(source, messages + [message], parent)
            == AssistantsOf(source, messages, parent)
               + if ChildOf(source, message, parent) then [AssistantOf(source, message).value] else []
  {
  }

  lemma BucketsStep(source: Source, messages: seq<Message>, byParent: map<string, seq<OpencodeAssistant>>,
      message: Message)
    requires Buckets(source, messages, byParent)
    ensures var parent := message.data.parentID;
            var bucket := if parent in byParent then byParent[parent] else [];
            Buckets(source, messages + [message],
                    if ChildOf(source, message, parent)
                        then byParent[parent := bucket + [AssistantOf(source, message).value]] else byParent)
  {
  }

  function UsersOf(source: Source, messages: seq<Message>): seq<OpencodeUser> {
    if messages == [] then []
    else
      UsersOf(source, messages[..|messages| - 1])
      + if Last(messages).data.role == UserMessage then [UserOf(source, Last(messages), |messages| - 1)] else []
  }

  function UserBlocks(env: Env, session: Session, source: Source, messages: seq<Message>,
      users: seq<OpencodeUser>): seq<RawMessage> {
    if users == [] then []
    else
      UserBlocks(env, session, source, messages, users[..|users| - 1])
      + UserBlock(env, session, Last(users), AssistantsOf(source, messages, Last(users).id))
  }

  lemma UsersSnoc(source: Source, messages: seq<Message>, n: nat)
    requires n < |messages|
    ensures UsersOf(source, messages[..n + 1])
            == UsersOf(source, messages[..n])
                + if messages[n].data.role == UserMessage then [UserOf(source, messages[n], n)] else []
  {
    assert messages[..n + 1][..n] == messages[..n];
  }

  lemma UserBlocksSnoc(env: Env, session: Session, source: Source, messages: seq<Message>, users: seq<OpencodeUser>,
      user: OpencodeUser)
    ensures UserBlocks(env, session, source, messages, users + [user])
            == UserBlocks(env, session, source, messages, users)
                + UserBlock(env, session, user, AssistantsOf(source, messages, user.id))
  {
  }

  lemma {:induction false} UserBlocksAreBlocks(env: Env, session: Session, source: Source, n: nat)
    requires n <= |Visible(source.messages, session.revertMessageId)|
    ensures var messages := Visible(source.messages, session.revertMessageId);
            UserBlocks(env, session, source, messages, UsersOf(source, messages[..n]))
                == Blocks(env, session, source, n)
  {
    hide UserBlock, Visible, AssistantsOf, UsersOf, UserBlocks, CollectAll, UnwrapUserRequest;
    var messages := Visible(source.messages, session.revertMessageId);
    if n > 0 {
      UserBlocksAreBlocks(env, session, source, n - 1);
      UsersSnoc(source, messages, n - 1);
      var users := UsersOf(source, messages[..n - 1]);
      UserBlocksSnoc(env, session, source, messages, users, UserOf(source, messages[n - 1], n - 1));
      assert users + [] == users;
    } else {
      NoUsers(env, session, source, messages);
    }
  }

  lemma NoUsers(env: Env, session: Session, source: Source, messages: seq<Message>)
    ensures UserBlocks(env, session, source, messages, UsersOf(source, messages[..0])) == []
  {
  }

  method ReadOpencodeSession(env: Env, session: Session, source: Source) returns (staged: seq<RawMessage>)
    ensures staged == Staged(env, session, source)
  {
    hide Buckets, UserBlock, AssistantsOf, CollectAll, Blocks;
    if session.subagent { return []; }
    var messages := Visible(source.messages, session.revertMessageId);
    var assistantsByParent: map<string, seq<OpencodeAssistant>> := map[];
    var users: seq<OpencodeUser> := [];
    NoBuckets(source);
    for ordinal := 0 to |messages|
      invariant Buckets(source, messages[..ordinal], assistantsByParent)
      invariant users == UsersOf(source, messages[..ordinal])
    {
      var row := messages[ordinal];
      BucketsStep(source, messages[..ordinal], assistantsByParent, row);
      assert messages[..ordinal + 1] == messages[..ordinal] + [row]
          && messages[..ordinal + 1][..ordinal] == messages[..ordinal];
      if row.data.role == UserMessage {
        var collected := CollectParts(PartsOf(source, row.id));
        users := users + [OpencodeUser(row.id, ordinal, UnwrapUserRequest(collected.text), row.data.created,
            collected.isCompaction, row.data.agent)];
        continue;
      }
      assert users + [] == users;
      if row.data.role != AssistantMessage { continue; }
      var parentId := row.data.parentID;
      if parentId == "" { continue; }
      var collected := CollectParts(PartsOf(source, row.id));
      if collected.text == "" && collected.toolCalls == [] && !collected.pendingTool { continue; }
      var bucket := if parentId in assistantsByParent then assistantsByParent[parentId] else [];
      assistantsByParent := assistantsByParent[parentId := bucket + [OpencodeAssistant(row.id, row.data, collected)]];
    }
    assert messages[..|messages|] == messages;
    staged := [];
    for i := 0 to |users|
      invariant staged == UserBlocks(env, session, source, messages, users[..i])
    {
      assert users[..i + 1][..i] == users[..i];
      UseBuckets(source, messages, assistantsByParent, users[i].id);
      var assistants := if users[i].id in assistantsByParent then assistantsByParent[users[i].id] else [];
      staged := staged + UserBlock(env, session, users[i], assistants);
    }
    assert users[..|users|] == users;
    UserBlocksAreBlocks(env, session, source, |messages|);
  }

  lemma NoBuckets(source: Source)
    ensures Buckets(source, [], map[])
  {
  }

  lemma UseBuckets(source: Source, messages: seq<Message>, byParent: map<string, seq<OpencodeAssistant>>,
      parent: string)
    requires Buckets(source, messages, byParent)
    ensures AssistantsOf(source, messages, parent) == if parent in byParent then byParent[parent] else []
  {
  }
}
