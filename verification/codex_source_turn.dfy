/**
 Reading Codex rollouts (AgentSourceCore/src/codex-source-turn.ts). A rollout is an append-only
 log; the reader is one pass that collects the messages of the open turn and stages them when
 the turn ends. The hook reads the log as soon as Codex stops, the scan later, when a
 completion record has been appended.
 */
module CodexSourceTurn {
  import opened Wrappers
  import opened SourceTurns
  import opened Text
  import JsonlLines

  datatype ItemRole = UserItem | AssistantItem | DeveloperItem | SystemItem | OtherRole

  /** A content item with its label; "" when Codex gave it none. */
  datatype ContentItem = ContentItem(text: string, kind: string)

  datatype ResponseItem =
    | MessageItem(role: ItemRole, content: seq<ContentItem>)
    | CallItem(call: ToolCall)
    | OutputItem(result: ToolResult)
    | OtherItem

  /** One line of the log, its fields read the way `text()` reads them. */
  datatype Record =
    | SessionMeta(sessionId: string, cwd: string)
    | TurnStart(turnId: string, model: string, cwd: string)
    | TaskComplete(turnId: string, failed: bool)
    | TaskAborted
    | Response(turnId: string, item: ResponseItem, recordId: string, phase: string)
    | Other

  datatype Entry = Entry(timestamp: Option<Time>, record: Record)

  type Event = JsonlLines.Event<Entry>

  const INTERNAL_MODEL := "codex-auto-review"
  const FINAL_ANSWER := "final_answer"

  /** What `finish` was called with: nothing, a completion record, or the hook's stop evidence. */
  datatype Ending =
    | Open
    | Completed(at: Option<Time>, turnId: string, failed: bool)
    | Stopped(answeredAt: Time)

  datatype State = State(
    conversationId: string, workspacePath: string, current: seq<RawMessage>, turnId: string,
    startedAt: Option<Time>, sequence: nat, lineNumber: nat, invalidReason: string, turnModel: string,
    toolCalls: seq<ToolCall>, toolResults: seq<ToolResult>, toolNames: map<string, string>)

  const INITIAL := State("", "", [], "", None, 0, 0, "", "", [], [], map[])

  datatype Stop = Stop(conversationId: string, turnId: string)

  /** The conversation: what is left of the messages without system messages. */
  function Spoken(messages: seq<RawMessage>): seq<RawMessage> {
    if messages == [] then []
    else Spoken(messages[..|messages| - 1]) + (if Last(messages).role != System then [Last(messages)] else [])
  }

  function Contents(messages: seq<RawMessage>, role: Role): seq<string> {
    if messages == [] then []
    else
      Contents(messages[..|messages| - 1], role)
      + if Last(messages).role == role then [Last(messages).content] else []
  }

  /** The last message that is not a system message is an assistant's final answer. */
  predicate EndsWithFinalAnswer(messages: seq<RawMessage>) {
    var spoken := Spoken(messages);
    spoken != [] && Last(spoken).role == Assistant && Last(spoken).meta.phase == FINAL_ANSWER
  }

  // ---------------------------------------------------------------------------------------
  // Specification: the reader as a fold over the log
  // ---------------------------------------------------------------------------------------

  function Query(messages: seq<RawMessage>): string { Join(Contents(messages, User), "\n\n") }

  function Answer(messages: seq<RawMessage>): string { Join(Contents(messages, Assistant), "\n\n") }

  function CompletedAt(st: State, ending: Ending): Option<Time> {
    match ending
    case Open => None
    case Completed(at, _, _) => at
    case Stopped(answeredAt) => Some(answeredAt)
  }

  function FinishReason(st: State, ending: Ending): string {
    var completionId := if ending.Completed? then ending.turnId else if ending.Stopped? then st.turnId else "";
    if st.invalidReason != "" then st.invalidReason
    else if st.conversationId == "" || st.turnId == "" then "identity_unresolved"
    else if CompletedAt(st, ending).None? || completionId != st.turnId then "turn_incomplete"
    else if st.startedAt.None? then "timestamp_unresolved"
    else if Blank(Query(st.current)) || Blank(Answer(st.current)) then "turn_content_incomplete"
    else ""
  }

  function FinishTurn(env: Env, st: State, ending: Ending): Option<SourceTurn> {
    if FinishReason(st, ending) != "" then None
    else
      var final := EndsWithFinalAnswer(st.current);
      Some(SourceTurn(
        "codex", st.conversationId, st.turnId, "", st.startedAt.value,
        if final then Last(Spoken(st.current)).createdAt else CompletedAt(st, ending).value,
        st.sequence,
        if final then "final_answer:" + Otherwise(Last(Spoken(st.current)).meta.recordId, st.turnId)
            else "task_complete:" + st.turnId,
        env.redact(Query(st.current)), env.redact(Answer(st.current)),
        if ending.Completed? && ending.failed then Failed else Succeeded,
        MapCalls(env.redactCall, PairedCalls(st.toolCalls, st.toolResults)),
        MapResults(env.redactResult, st.toolResults),
        st.workspacePath))
  }

  function CompletionMessage(fileId: string, st: State, at: Time): RawMessage {
    RawMessage(Line(fileId, st.lineNumber), Otherwise(st.conversationId, fileId), System, "Codex task_complete", at,
        st.lineNumber,
               NO_META.(turnId := st.turnId, sequence := Some(st.sequence), startedAt := st.startedAt))
  }

  function Cleared(st: State): State {
    st.(current := [], toolCalls := [], toolResults := [], toolNames := map[], invalidReason := "")
  }

  function Finish(env: Env, fileId: string, st: State, ending: Ending): (State, seq<RawMessage>) {
    if st.current == [] then (st, [])
    else if st.turnModel == INTERNAL_MODEL then (Cleared(st), [])
    else if Spoken(st.current) == [] then (st.(current := [], invalidReason := ""), [])
    else
      var completion := if ending.Completed? && ending.at.Some? then [CompletionMessage(fileId, st, ending.at.value)]
          else [];
      var input := StageInput(st.turnId, None, None, FinishReason(st, ending), FinishTurn(env, st, ending));
      (Cleared(st), StageSourceTurnMessages(st.current + completion, input))
  }

  function KeptText(role: ItemRole, item: ContentItem): string {
    if role == UserItem && item.kind != "" && item.kind != "user.text" then "" else item.text
  }

  function ItemContent(role: ItemRole, content: seq<ContentItem>): string {
    Join(NonEmpty(seq(|content|, i requires 0 <= i < |content| => KeptText(role, content[i]))), "\n")
  }

  function Mismatch(st: State, turnId: string): string {
    if turnId != "" && turnId != st.turnId then "identity_conflict" else st.invalidReason
  }

  function Push(fileId: string, st: State, entry: Entry, role: Role, content: string): State
    requires entry.record.Response?
  {
    if content == "" then st
    else st.(
      invalidReason := if entry.timestamp.None? && role != System then "timestamp_unresolved" else st.invalidReason,
      current := st.current + [RawMessage(
        Line(fileId, st.lineNumber), Otherwise(st.conversationId, fileId), role, content,
        if entry.timestamp.Some? then entry.timestamp.value else 0, st.lineNumber,
        Meta(st.turnId, Some(st.sequence), st.startedAt, None, "", None, entry.record.recordId, entry.record.phase))])
  }

  function StepResponse(env: Env, fileId: string, before: State, entry: Entry): State
    requires entry.record.Response?
  {
    var st := before.(invalidReason := Mismatch(before, entry.record.turnId));
    match entry.record.item
    case MessageItem(role, content) =>
      if role == OtherRole then st
      else Push(fileId, st, entry, if role == UserItem then User else if role == AssistantItem then Assistant
          else System,
                ItemContent(role, content))
    case CallItem(call) =>
      var id := if call.data.id.Some? then call.data.id.value else "";
      Push(fileId, st.(toolCalls := st.toolCalls + [call], toolNames := if id != "" then st.toolNames[id := call.name]
          else st.toolNames),
           entry, Tool, env.renderTool(call))
    case OutputItem(result) =>
      var id := if result.id.Some? then result.id.value else "";
      var name := if id != "" && id in st.toolNames then st.toolNames[id] else "tool";
      Push(fileId, st.(toolResults := st.toolResults + [result]), entry, Tool,
          env.renderTool(ToolCall(name, None, result)))
    case OtherItem => st
  }

  predicate HasWork(st: State) {
    st.turnId != "" || exists m | m in st.current :: m.role == Assistant || m.role == Tool
  }

  function StartedAt(messages: seq<RawMessage>, timestamp: Option<Time>): Option<Time> {
    if messages == [] then timestamp
    else if messages[0].role == User then Some(messages[0].createdAt)
    else StartedAt(messages[1..], timestamp)
  }

  function StepSession(env: Env, fileId: string, st: State, sessionId: string, cwd: string): (State, seq<RawMessage>) {
    var replaced := st.conversationId != "" && sessionId != "" && sessionId != st.conversationId;
    var (after, out) := if replaced then Finish(env, fileId, st.(invalidReason := "identity_conflict"), Open)
        else (st, []);
    (after.(turnId := if replaced then "" else after.turnId,
            conversationId := Otherwise(sessionId, after.conversationId),
            workspacePath := Otherwise(cwd, after.workspacePath)), out)
  }

  function StepTurnStart(
    env: Env, fileId: string, st: State, turnId: string, model: string, cwd: string,
        timestamp: Option<Time>): (State, seq<RawMessage>)
  {
    var next := turnId != "" && turnId != st.turnId;
    var (after, out) := if next && HasWork(st) then Finish(env, fileId, st, Open) else (st, []);
    var begun := if next
                  then after.(turnId := turnId, turnModel := "", startedAt := StartedAt(after.current, timestamp),
                      sequence := after.lineNumber)
                  else after;
    (begun.(turnModel := Otherwise(model, begun.turnModel), workspacePath := Otherwise(cwd, begun.workspacePath)), out)
  }

  function StepComplete(env: Env, fileId: string, st: State, turnId: string, failed: bool,
      timestamp: Option<Time>): (State, seq<RawMessage>) {
    var checked := if turnId != st.turnId then st.(invalidReason := "identity_conflict") else st;
    var (after, out) := Finish(env, fileId, checked, Completed(timestamp, turnId, failed));
    (after.(turnId := "", startedAt := None), out)
  }

  function Step(env: Env, fileId: string, before: State, event: Event): (State, seq<RawMessage>) {
    if event.Dropped? then (before.(invalidReason := event.reason), [])
    else
      var st := before.(lineNumber := before.lineNumber + 1);
      var entry := event.record;
      match entry.record
      case SessionMeta(sessionId, cwd) => StepSession(env, fileId, st, sessionId, cwd)
      case TurnStart(turnId, model, cwd) => StepTurnStart(env, fileId, st, turnId, model, cwd, entry.timestamp)
      case TaskComplete(turnId, failed) => StepComplete(env, fileId, st, turnId, failed, entry.timestamp)
      case TaskAborted =>
        var (after, out) := Finish(env, fileId, st.(invalidReason := "turn_cancelled"), Open);
        (after.(turnId := "", startedAt := None), out)
      case Response(_, _, _, _) => (StepResponse(env, fileId, st, entry), [])
      case Other => (st, [])
  }

  function Run(env: Env, fileId: string, st: State, log: seq<Event>): (State, seq<RawMessage>) {
    if log == [] then (st, [])
    else
      var (middle, out) := Run(env, fileId, st, log[..|log| - 1]);
      var (after, more) := Step(env, fileId, middle, Last(log));
      (after, out + more)
  }

  predicate StopApplies(st: State, stop: Option<Stop>) {
    && stop.Some? && stop.value.turnId == st.turnId
    && (stop.value.conversationId == "" || stop.value.conversationId == st.conversationId)
    && EndsWithFinalAnswer(st.current)
  }

  function AtEnd(env: Env, fileId: string, st: State, stop: Option<Stop>): seq<RawMessage> {
    Finish(env, fileId, st, if StopApplies(st, stop) then Stopped(Last(Spoken(st.current)).createdAt) else Open).1
  }

  function Rollout(env: Env, fileId: string, log: seq<Event>, stop: Option<Stop>): seq<RawMessage> {
    var (st, out) := Run(env, fileId, INITIAL, log);
    out + AtEnd(env, fileId, st, stop)
  }

  // ---------------------------------------------------------------------------------------
  // The reader itself
  // ---------------------------------------------------------------------------------------

  class RolloutReader {
    const env: Env
    const fileId: string
    var conversationId: string
    var workspacePath: string
    var current: seq<RawMessage>
    var turnId: string
    var startedAt: Option<Time>
    var sequence: nat
    var lineNumber: nat
    var invalidReason: string
    var turnModel: string
    var toolCalls: seq<ToolCall>
    var toolResults: seq<ToolResult>
    var toolNames: map<string, string>

    function View(): State
      reads this
    {
      State(conversationId, workspacePath, current, turnId, startedAt, sequence, lineNumber, invalidReason, turnModel,
            toolCalls, toolResults, toolNames)
    }

    constructor (env: Env, fileId: string)
      ensures View() == INITIAL && this.env == env && this.fileId == fileId
    {
      this.env, this.fileId := env, fileId;
      conversationId, workspacePath, turnId, invalidReason, turnModel := "", "", "", "", "";
      current, toolCalls, toolResults, toolNames := [], [], [], map[];
      startedAt, sequence, lineNumber := None, 0, 0;
    }

    method Clear()
      modifies this
      ensures View() == Cleared(old(View()))
    {
      current := [];
      toolCalls := [];
      toolResults := [];
      toolNames := map[];
      invalidReason := "";
    }

    method FinishOpenTurn(ending: Ending) returns (output: seq<RawMessage>)
      modifies this
      ensures (View(), output) == Finish(env, fileId, old(View()), ending)
    {
      if current == [] { return []; }
      if turnModel == INTERNAL_MODEL {
        Clear();
        return [];
      }
      if Spoken(current) == [] {
        current := [];
        invalidReason := "";
        return [];
      }
      var query := Query(current);
      var answer := Answer(current);
      var completedAt := CompletedAt(View(), ending);
      var completionId := if ending.Completed? then ending.turnId else if ending.Stopped? then turnId else "";
      var reason := invalidReason;
      if reason == "" {
        if conversationId == "" || turnId == "" {
          reason := "identity_unresolved";
        } else if completedAt.None? || completionId != turnId {
          reason := "turn_incomplete";
        } else if startedAt.None? {
          reason := "timestamp_unresolved";
        } else if Blank(query) || Blank(answer) {
          reason := "turn_content_incomplete";
        }
      }
      var turn: Option<SourceTurn> := None;
      if reason == "" {
        var canonicalCompletedAt, evidence := completedAt.value, "task_complete:" + turnId;
        if EndsWithFinalAnswer(current) {
          var finalMessage := Last(Spoken(current));
          canonicalCompletedAt := finalMessage.createdAt;
          evidence := "final_answer:" + Otherwise(finalMessage.meta.recordId, turnId);
        }
        var paired := PairSourceToolCalls(toolCalls, toolResults);
        turn := Some(SourceTurn(
          "codex", conversationId, turnId, "", startedAt.value, canonicalCompletedAt, sequence, evidence,
          env.redact(query), env.redact(answer),
          if ending.Completed? && ending.failed then Failed else Succeeded,
          MapCalls(env.redactCall, paired), MapResults(env.redactResult, toolResults), workspacePath));
      }
      var messages := current;
      if ending.Completed? && ending.at.Some? {
        messages := messages + [CompletionMessage(fileId, View(), ending.at.value)];
      }
      assert current + [] == current;
      output := StageSourceTurnMessages(messages, StageInput(turnId, None, None, reason, turn));
      Clear();
    }

    method PushMessage(entry: Entry, role: Role, content: string)
      requires entry.record.Response?
      modifies this
      ensures View() == Push(fileId, old(View()), entry, role, content)
    {
      if content == "" { return; }
      if entry.timestamp.None? && role != System {
        invalidReason := "timestamp_unresolved";
      }
      current := current + [RawMessage(
        Line(fileId, lineNumber), Otherwise(conversationId, fileId), role, content,
        if entry.timestamp.Some? then entry.timestamp.value else 0, lineNumber,
        Meta(turnId, Some(sequence), startedAt, None, "", None, entry.record.recordId, entry.record.phase))];
    }

    method TakeResponse(entry: Entry)
      requires entry.record.Response?
      modifies this
      ensures View() == StepResponse(env, fileId, old(View()), entry)
    {
      hide Push, ItemContent, Otherwise;
      if entry.record.turnId != "" && entry.record.turnId != turnId {
        invalidReason := "identity_conflict";
      }
      match entry.record.item
      case MessageItem(role, content) =>
        if role == OtherRole { return; }
        PushMessage(entry, if role == UserItem then User else if role == AssistantItem then Assistant else System,
                    ItemContent(role, content));
      case CallItem(call) =>
        toolCalls := toolCalls + [call];
        if call.data.id.Some? && call.data.id.value != "" {
          toolNames := toolNames[call.data.id.value := call.name];
        }
        PushMessage(entry, Tool, env.renderTool(call));
      case OutputItem(result) =>
        toolResults := toolResults + [result];
        var name := if result.id.Some? && result.id.value != "" && result.id.value in toolNames
            then toolNames[result.id.value] else "tool";
        PushMessage(entry, Tool, env.renderTool(ToolCall(name, None, result)));
      case OtherItem =>
    }

    method TakeSession(sessionId: string, cwd: string) returns (output: seq<RawMessage>)
      modifies this
      ensures (View(), output) == StepSession(env, fileId, old(View()), sessionId, cwd)
    {
      hide Finish;
      output := [];
      if conversationId != "" && sessionId != "" && sessionId != conversationId {
        invalidReason := "identity_conflict";
        output := FinishOpenTurn(Open);
        turnId := "";
      }
      conversationId := Otherwise(sessionId, conversationId);
      workspacePath := Otherwise(cwd, workspacePath);
    }

    method TakeTurnStart(nextId: string, model: string, cwd: string, timestamp: Option<Time>)
        returns (output: seq<RawMessage>)
      modifies this
      ensures (View(), output) == StepTurnStart(env, fileId, old(View()), nextId, model, cwd, timestamp)
    {
      hide Finish, HasWork, StartedAt;
      output := [];
      if nextId != "" && nextId != turnId {
        if HasWork(View()) {
          output := FinishOpenTurn(Open);
        }
        turnId := nextId;
        turnModel := "";
        startedAt := StartedAt(current, timestamp);
        sequence := lineNumber;
      }
      turnModel := Otherwise(model, turnModel);
      workspacePath := Otherwise(cwd, workspacePath);
    }

    method TakeComplete(completeId: string, failed: bool, timestamp: Option<Time>) returns (output: seq<RawMessage>)
      modifies this
      ensures (View(), output) == StepComplete(env, fileId, old(View()), completeId, failed, timestamp)
    {
      hide Finish;
      if completeId != turnId {
        invalidReason := "identity_conflict";
      }
      output := FinishOpenTurn(Completed(timestamp, completeId, failed));
      turnId := "";
      startedAt := None;
    }

    method Take(event: Event) returns (output: seq<RawMessage>)
      modifies this
      ensures (View(), output) == Step(env, fileId, old(View()), event)
    {
      hide Finish, StepResponse, StepSession, StepTurnStart, StepComplete;
      output := [];
      if event.Dropped? {
        invalidReason := event.reason;
        return;
      }
      lineNumber := lineNumber + 1;
      var entry := event.record;
      match entry.record
      case SessionMeta(sessionId, cwd) =>
        output := TakeSession(sessionId, cwd);
      case TurnStart(nextId, model, cwd) =>
        output := TakeTurnStart(nextId, model, cwd, entry.timestamp);
      case TaskComplete(completeId, failed) =>
        output := TakeComplete(completeId, failed, entry.timestamp);
      case TaskAborted =>
        invalidReason := "turn_cancelled";
        output := FinishOpenTurn(Open);
        turnId := "";
        startedAt := None;
      case Response(_, _, _, _) =>
        TakeResponse(entry);
      case Other =>
    }
  }

  method ReadCodexRollout(env: Env, fileId: string, log: seq<Event>, stop: Option<Stop>)
      returns (staged: seq<RawMessage>)
    ensures staged == Rollout(env, fileId, log, stop)
  {
    hide Step, Finish;
    var reader := new RolloutReader(env, fileId);
    staged := [];
    for i := 0 to |log|
      invariant (reader.View(), staged) == Run(env, fileId, INITIAL, log[..i])
      invariant reader.env == env && reader.fileId == fileId
    {
      assert log[..i + 1][..i] == log[..i];
      var output := reader.Take(log[i]);
      staged := staged + output;
    }
    assert log[..|log|] == log;
    var ending := Open;
    if StopApplies(reader.View(), stop) {
      ending := Stopped(Last(Spoken(reader.current)).createdAt);
    }
    var output := reader.FinishOpenTurn(ending);
    staged := staged + output;
  }

  /** The hook: `readCodexSourceTurn`; "" stands for an expectation that was not given. */
  method ReadCodexSourceTurn(env: Env, fileId: string, log: seq<Event>, conversationId: string, turnId: string,
      stop: bool)
    returns (selection: Selection)
    ensures selection == Selected(Rollout(env, fileId, log, if stop && turnId != ""
        then Some(Stop(conversationId, turnId)) else None),
                                  conversationId, turnId)
  {
    hide Rollout, Selected;
    var staged := ReadCodexRollout(env, fileId, log, if stop && turnId != "" then Some(Stop(conversationId, turnId))
        else None);
    selection := SelectSourceTurn(staged, conversationId, turnId);
  }
}
