/**
 What a Codex turn says, told from the log alone: the records of a turn - the user's words, the
 answers, tool calls and results - and the record that ends it determine the turn that is staged,
 or the reason why none is.
 */
module CodexTurns {
  import opened Wrappers
  import opened SourceTurns
  import opened BlockSelection
  import opened Text
  import opened CodexSourceTurn
  import opened CodexHookAndScan
  import JsonlLines

  type LogEvent = CodexSourceTurn.Event

  // ---------------------------------------------------------------------------------------
  // Reading a log without a reader
  // ---------------------------------------------------------------------------------------

  /** A person's message keeps the items that Codex labelled as typed by the person, or not at all. */
  function Typed(role: ItemRole, content: seq<ContentItem>): seq<string> {
    if content == [] then []
    else
      var item := Last(content);
      Typed(role, content[..|content| - 1])
      + if item.text == "" || (role.UserItem? && item.kind !in {"", "user.text"}) then [] else [item.text]
  }

  /** What was said in a response item of that role; nothing when the item is something else. */
  function SaidBy(role: ItemRole, event: LogEvent): string {
    if event.Record? && event.record.record.Response? && event.record.record.item.MessageItem?
        && event.record.record.item.role == role
    then Join(Typed(role, event.record.record.item.content), "\n") else ""
  }

  function Texts(role: ItemRole, log: seq<LogEvent>): seq<string> {
    if log == [] then []
    else
      Texts(role, log[..|log| - 1]) + if SaidBy(role, Last(log)) != "" then [SaidBy(role, Last(log))] else []
  }

  function CallsIn(log: seq<LogEvent>): seq<ToolCall> {
    if log == [] then []
    else
      CallsIn(log[..|log| - 1])
      + match Last(log)
        case Record(Entry(_, Response(_, CallItem(call), _, _))) => [call]
        case _ => []
  }

  function ResultsIn(log: seq<LogEvent>): seq<ToolResult> {
    if log == [] then []
    else
      ResultsIn(log[..|log| - 1])
      + match Last(log)
        case Record(Entry(_, Response(_, OutputItem(result), _, _))) => [result]
        case _ => []
  }

  predicate IsTool(event: LogEvent) {
    event.Record? && event.record.record.Response?
    && (event.record.record.item.CallItem? || event.record.record.item.OutputItem?)
  }

  /** Part of the conversation: the person, the assistant or a tool says something. */
  predicate Speaks(event: LogEvent) {
    IsTool(event) || SaidBy(UserItem, event) != "" || SaidBy(AssistantItem, event) != ""
  }

  function LastSaid(log: seq<LogEvent>): Option<LogEvent> {
    if log == [] then None
    else if Speaks(Last(log)) then Some(Last(log))
    else LastSaid(log[..|log| - 1])
  }

  /** The assistant answered or used a tool. */
  predicate AnsweredIn(log: seq<LogEvent>) {
    exists e | e in log :: IsTool(e) || SaidBy(AssistantItem, e) != ""
  }

  function TimeOf(event: LogEvent): Option<Time> {
    if event.Record? then event.record.timestamp else None
  }

  function FirstAsked(log: seq<LogEvent>): Option<LogEvent> {
    if log == [] then None
    else
      var first := FirstAsked(log[..|log| - 1]);
      if first.Some? then first else if SaidBy(UserItem, Last(log)) != "" then Some(Last(log)) else None
  }

  function Lines(log: seq<LogEvent>): nat {
    if log == [] then 0 else Lines(log[..|log| - 1]) + if Last(log).Record? then 1 else 0
  }

  /** The last model that was named. */
  function ModelAfter(model: string, log: seq<LogEvent>): string {
    if log == [] then model
    else
      match Last(log)
      case Record(Entry(_, TurnStart(_, named, _))) =>
        if named != "" then named else ModelAfter(model, log[..|log| - 1])
      case _ => ModelAfter(model, log[..|log| - 1])
  }

  /** What is wrong with a record of the turn, if anything. */
  function Flaw(turnId: string, event: LogEvent): string {
    if event.Dropped? then event.reason
    else if Speaks(event) && TimeOf(event).None? then "timestamp_unresolved"
    else if event.record.record.Response? && event.record.record.turnId !in {"", turnId} then "identity_conflict"
    else ""
  }

  function FlawAfter(turnId: string, before: string, log: seq<LogEvent>): string {
    if log == [] then before
    else if Flaw(turnId, Last(log)) != "" then Flaw(turnId, Last(log))
    else FlawAfter(turnId, before, log[..|log| - 1])
  }

  /** A record that neither starts another turn, nor ends this one, nor is of another session. */
  predicate Within(sessionId: string, turnId: string, event: LogEvent) {
    if event.Dropped? then event.reason != ""
    else match event.record.record
      case SessionMeta(id, _) => id in {"", sessionId}
      case TurnStart(id, _, _) => id in {"", turnId}
      case TaskComplete(_, _) => false
      case TaskAborted => false
      case _ => true
  }

  // ---------------------------------------------------------------------------------------
  // The reader collects what the log says
  // ---------------------------------------------------------------------------------------

  /** Rendered tools are never empty: they begin with the tool's name. */
  ghost predicate Renders(env: Env) {
    forall call :: env.renderTool(call) != ""
  }

  lemma {:induction false} TypedIsKept(role: ItemRole, content: seq<ContentItem>)
    ensures var kept := seq(|content|, i requires 0 <= i < |content| => KeptText(role, content[i]));
            NonEmpty(kept) == Typed(role, content)
  {
    var kept := seq(|content|, i requires 0 <= i < |content| => KeptText(role, content[i]));
    if content != [] {
      var front := content[..|content| - 1];
      TypedIsKept(role, front);
      var before := seq(|front|, i requires 0 <= i < |front| => KeptText(role, front[i]));
      assert kept == before + [KeptText(role, Last(content))];
      NonEmptySnoc(before, KeptText(role, Last(content)));
    }
  }

  /** The message is the one of that record. */
  predicate Speaker(m: RawMessage, event: LogEvent)
    requires event.Record? && event.record.record.Response?
  {
    && m.createdAt == (if event.record.timestamp.Some? then event.record.timestamp.value else 0)
    && (m.role == Assistant <==> SaidBy(AssistantItem, event) != "") && (m.role == Tool <==> IsTool(event))
    && m.meta.phase == event.record.record.phase && m.meta.recordId == event.record.record.recordId
  }

  ghost predicate Collects(a: State, b: State, log: seq<LogEvent>) {
    && b.conversationId == a.conversationId && b.turnId == a.turnId && b.startedAt == a.startedAt
    && b.sequence == a.sequence && b.lineNumber == a.lineNumber + Lines(log)
    && b.workspacePath == Directory(a.workspacePath, log) && b.turnModel == ModelAfter(a.turnModel, log)
    && b.invalidReason == FlawAfter(a.turnId, a.invalidReason, log)
    && b.toolCalls == a.toolCalls + CallsIn(log) && b.toolResults == a.toolResults + ResultsIn(log)
    && CollectsMessages(a.current, b.current, log)
  }

  predicate Answered(messages: seq<RawMessage>) {
    exists m | m in messages :: m.role == Assistant || m.role == Tool
  }

  function FirstOf(before: Option<Time>, asked: Option<LogEvent>): Option<Time> {
    if before.Some? then before
    else if asked.None? then None
    else if TimeOf(asked.value).Some? then TimeOf(asked.value)
    else Some(0)
  }

  ghost predicate CollectsMessages(a: seq<RawMessage>, b: seq<RawMessage>, log: seq<LogEvent>) {
    && (UnstagedInput(a) ==> UnstagedInput(b))
    && StartedAt(b, None) == FirstOf(StartedAt(a, None), FirstAsked(log))
    && (Answered(b) <==> Answered(a) || AnsweredIn(log))
    && Contents(b, User) == Contents(a, User) + Texts(UserItem, log)
    && Contents(b, Assistant) == Contents(a, Assistant) + Texts(AssistantItem, log)
    && (match LastSaid(log)
        case None => Spoken(b) == Spoken(a)
        case Some(event) =>
          Spoken(b) != [] && event.Record? && event.record.record.Response? && Speaker(Last(Spoken(b)), event))
  }

  lemma CollectsNothing(a: State)
    ensures Collects(a, a, [])
  {
  }

  /** What one record contributes. */
  lemma OneRecord(turnId: string, event: LogEvent, before: string, path: string, model: string)
    ensures forall role :: Texts(role, [event]) == if SaidBy(role, event) != "" then [SaidBy(role, event)] else []
    ensures AnsweredIn([event]) <==> IsTool(event) || SaidBy(AssistantItem, event) != ""
    ensures LastSaid([event]) == if Speaks(event) then Some(event) else None
    ensures FirstAsked([event]) == if SaidBy(UserItem, event) != "" then Some(event) else None
    ensures FlawAfter(turnId, before, [event]) == if Flaw(turnId, event) != "" then Flaw(turnId, event) else before
    ensures Lines([event]) == if event.Record? then 1 else 0
    ensures !IsTool(event) ==> CallsIn([event]) == [] && ResultsIn([event]) == []
    ensures !(event.Record? && (event.record.record.SessionMeta? || event.record.record.TurnStart?)) ==>
              Directory(path, [event]) == path && ModelAfter(model, [event]) == model
  {
    assert [event][..0] == [];
  }

  lemma SilentRecord(messages: seq<RawMessage>, event: LogEvent)
    requires !Speaks(event)
    ensures CollectsMessages(messages, messages, [event])
  {
    OneRecord("", event, "", "", "");
    hide Texts, LastSaid, Contents, Spoken, StartedAt, FirstAsked, Answered, AnsweredIn;
    assert forall texts: seq<string> :: texts + [] == texts;
  }

  lemma {:induction false} StartSnoc(messages: seq<RawMessage>, m: RawMessage)
    ensures StartedAt(messages + [m], None)
        == if StartedAt(messages, None).Some? then StartedAt(messages, None)
           else if m.role == User then Some(m.createdAt) else None
  {
    if messages == [] {
      assert [m][1..] == [];
    } else {
      StartSnoc(messages[1..], m);
      assert (messages + [m])[1..] == messages[1..] + [m];
    }
  }

  /** A message joins the open ones. */
  lemma MessageJoins(messages: seq<RawMessage>, m: RawMessage)
    ensures Contents(messages + [m], User) == Contents(messages, User) + if m.role == User then [m.content] else []
    ensures Contents(messages + [m], Assistant)
        == Contents(messages, Assistant) + if m.role == Assistant then [m.content] else []
    ensures Spoken(messages + [m]) == if m.role != System then Spoken(messages) + [m] else Spoken(messages)
    ensures UnstagedInput(messages) && m.meta.turn.None? ==> UnstagedInput(messages + [m])
    ensures StartedAt(messages + [m], None)
        == if StartedAt(messages, None).Some? then StartedAt(messages, None)
           else if m.role == User then Some(m.createdAt) else None
    ensures Answered(messages + [m]) <==> Answered(messages) || m.role == Assistant || m.role == Tool
  {
    StartSnoc(messages, m);
    assert m in messages + [m];
    assert (messages + [m])[..|messages|] == messages;
    assert Spoken(messages) + [] == Spoken(messages);
  }

  lemma SpokenRecord(messages: seq<RawMessage>, m: RawMessage, event: LogEvent)
    requires event.Record? && event.record.record.Response? && m.meta.turn.None?
    requires if m.role == System then !Speaks(event) else
               && Speaks(event) && Speaker(m, event)
               && (if m.role == User then SaidBy(UserItem, event) == m.content != "" else SaidBy(UserItem, event) == "")
               && (m.role == Assistant ==> SaidBy(AssistantItem, event) == m.content)
    ensures CollectsMessages(messages, messages + [m], [event])
  {
    OneRecord("", event, "", "", "");
    MessageJoins(messages, m);
    hide Texts, LastSaid, Contents, Spoken, SaidBy, StartedAt, FirstAsked, Answered, AnsweredIn;
    assert forall texts: seq<string> :: texts + [] == texts;
  }

  lemma OtherRecordCollects(env: Env, fileId: string, st: State, event: LogEvent)
    requires Within(st.conversationId, st.turnId, event) && !(event.Record? && event.record.record.Response?)
    ensures var (after, out) := Step(env, fileId, st, event);
            && out == []
            && after == st.(lineNumber := st.lineNumber + Lines([event]),
                 workspacePath := Directory(st.workspacePath, [event]), turnModel := ModelAfter(st.turnModel, [event]),
                 invalidReason := FlawAfter(st.turnId, st.invalidReason, [event]))
  {
    OneRecord(st.turnId, event, st.invalidReason, st.workspacePath, st.turnModel);
    assert [event][..0] == [];
    hide Finish, StepResponse, HasWork, StartedAt, FlawAfter, Lines;
  }

  /** One record of the turn. */
  lemma StepCollects(env: Env, fileId: string, st: State, event: LogEvent)
    requires Renders(env) && Within(st.conversationId, st.turnId, event)
    ensures var (after, out) := Step(env, fileId, st, event);
            out == [] && Collects(st, after, [event])
  {
    hide CollectsMessages, Texts, LastSaid, FlawAfter, Lines, ModelAfter, Directory, CallsIn, ResultsIn;
    OneRecord(st.turnId, event, st.invalidReason, st.workspacePath, st.turnModel);
    if event.Record? && event.record.record.Response? {
      hide Within, StepResponse;
      ResponseCollects(env, fileId, st.(lineNumber := st.lineNumber + 1), event.record);
    } else {
      OtherRecordCollects(env, fileId, st, event);
      SilentRecord(st.current, event);
      hide Step, Within;
      assert st.toolCalls + [] == st.toolCalls && st.toolResults + [] == st.toolResults;
    }
  }

  lemma ResponseCollects(env: Env, fileId: string, st: State, entry: Entry)
    requires Renders(env) && entry.record.Response?
    ensures var after, log := StepResponse(env, fileId, st, entry), [JsonlLines.Record(entry)];
            && after == st.(invalidReason := after.invalidReason, toolCalls := after.toolCalls,
                 toolResults := after.toolResults, toolNames := after.toolNames, current := after.current)
            && after.invalidReason == FlawAfter(st.turnId, st.invalidReason, log)
            && after.toolCalls == st.toolCalls + CallsIn(log) && after.toolResults == st.toolResults + ResultsIn(log)
            && CollectsMessages(st.current, after.current, log)
  {
    var event := JsonlLines.Record(entry);
    OneRecord(st.turnId, event, st.invalidReason, "", "");
    hide CollectsMessages, FlawAfter, CallsIn, ResultsIn;
    match entry.record.item {
      case MessageItem(_, _) =>
        MessageCollects(env, fileId, st, entry);
        assert st.toolCalls + [] == st.toolCalls && st.toolResults + [] == st.toolResults;
      case CallItem(_) => ToolCollects(env, fileId, st, entry);
      case OutputItem(_) => ToolCollects(env, fileId, st, entry);
      case OtherItem =>
        SilentRecord(st.current, event);
        assert st.toolCalls + [] == st.toolCalls && st.toolResults + [] == st.toolResults;
    }
  }

  /** The text of a tool call, or of a result under the name of its call. */
  function Rendered(env: Env, st: State, item: ResponseItem): string
    requires item.CallItem? || item.OutputItem?
  {
    match item
    case CallItem(call) => env.renderTool(call)
    case OutputItem(result) =>
      var id := if result.id.Some? then result.id.value else "";
      env.renderTool(ToolCall(if id != "" && id in st.toolNames then st.toolNames[id] else "tool", None, result))
  }

  lemma ToolIsPushed(env: Env, fileId: string, st: State, entry: Entry)
    requires Renders(env) && entry.record.Response? && (entry.record.item.CallItem? || entry.record.item.OutputItem?)
    ensures var item, after := entry.record.item, StepResponse(env, fileId, st, entry);
            && after == st.(invalidReason := after.invalidReason, toolCalls := after.toolCalls,
                 toolResults := after.toolResults, toolNames := after.toolNames, current := after.current)
            && after.invalidReason == (if entry.timestamp.None? then "timestamp_unresolved"
                 else Mismatch(st, entry.record.turnId))
            && after.toolCalls == st.toolCalls + (if item.CallItem? then [item.call] else [])
            && after.toolResults == st.toolResults + (if item.OutputItem? then [item.result] else [])
            && after.current == st.current + [Pushed(fileId, st, entry, Tool, Rendered(env, st, item))]
  {
    hide Mismatch;
    assert Rendered(env, st, entry.record.item) != "";
    assert st.toolCalls + [] == st.toolCalls && st.toolResults + [] == st.toolResults;
  }

  lemma ToolRecord(turnId: string, entry: Entry)
    requires entry.record.Response? && (entry.record.item.CallItem? || entry.record.item.OutputItem?)
    ensures var event, item := JsonlLines.Record(entry), entry.record.item;
            && IsTool(event) && Speaks(event) && SaidBy(UserItem, event) == "" && SaidBy(AssistantItem, event) == ""
            && Flaw(turnId, event) == (if entry.timestamp.None? then "timestamp_unresolved"
                 else if entry.record.turnId !in {"", turnId} then "identity_conflict" else "")
            && CallsIn([event]) == (if item.CallItem? then [item.call] else [])
            && ResultsIn([event]) == (if item.OutputItem? then [item.result] else [])
  {
    assert [JsonlLines.Record(entry)][..0] == [];
  }

  lemma ToolCollects(env: Env, fileId: string, st: State, entry: Entry)
    requires Renders(env) && entry.record.Response? && (entry.record.item.CallItem? || entry.record.item.OutputItem?)
    ensures var after, log := StepResponse(env, fileId, st, entry), [JsonlLines.Record(entry)];
            && after == st.(invalidReason := after.invalidReason, toolCalls := after.toolCalls,
                 toolResults := after.toolResults, toolNames := after.toolNames, current := after.current)
            && after.invalidReason == FlawAfter(st.turnId, st.invalidReason, log)
            && after.toolCalls == st.toolCalls + CallsIn(log) && after.toolResults == st.toolResults + ResultsIn(log)
            && CollectsMessages(st.current, after.current, log)
  {
    hide StepResponse, CollectsMessages, FlawAfter, Flaw, Speaks, SaidBy, IsTool, CallsIn, ResultsIn, Rendered,
        Renders;
    var event := JsonlLines.Record(entry);
    OneRecord(st.turnId, event, st.invalidReason, "", "");
    ToolIsPushed(env, fileId, st, entry);
    ToolRecord(st.turnId, entry);
    SpokenRecord(st.current, Pushed(fileId, st, entry, Tool, Rendered(env, st, entry.record.item)), event);
  }

  lemma ContentIsSaid(role: ItemRole, content: seq<ContentItem>)
    ensures ItemContent(role, content) == Join(Typed(role, content), "\n")
  {
    TypedIsKept(role, content);
  }

  /** The message that a response item becomes. */
  function Pushed(fileId: string, st: State, entry: Entry, role: Role, content: string): RawMessage
    requires entry.record.Response?
  {
    RawMessage(Line(fileId, st.lineNumber), Otherwise(st.conversationId, fileId), role, content,
      if entry.timestamp.Some? then entry.timestamp.value else 0, st.lineNumber,
      Meta(st.turnId, Some(st.sequence), st.startedAt, None, "", None, entry.record.recordId, entry.record.phase))
  }

  function RoleOf(role: ItemRole): Role {
    match role
    case UserItem => User
    case AssistantItem => Assistant
    case _ => System
  }

  lemma MessageIsPushed(env: Env, fileId: string, st: State, entry: Entry)
    requires entry.record.Response? && entry.record.item.MessageItem?
    ensures var role, after := entry.record.item.role, StepResponse(env, fileId, st, entry);
            var content := ItemContent(role, entry.record.item.content);
            && after == st.(invalidReason := after.invalidReason, current := after.current)
            && after.current == st.current + (if role == OtherRole || content == "" then []
                 else [Pushed(fileId, st, entry, RoleOf(role), content)])
            && after.invalidReason == (if content != "" && entry.timestamp.None? && RoleOf(role) != System
                 then "timestamp_unresolved" else Mismatch(st, entry.record.turnId))
  {
    hide ItemContent, Mismatch;
    assert st.current + [] == st.current;
  }

  lemma MessageFlaw(turnId: string, entry: Entry)
    requires entry.record.Response? && entry.record.item.MessageItem?
    ensures var event, role := JsonlLines.Record(entry), entry.record.item.role;
            var content := ItemContent(role, entry.record.item.content);
            && (Speaks(event) <==> content != "" && RoleOf(role) != System)
            && Flaw(turnId, event) == (if Speaks(event) && entry.timestamp.None? then "timestamp_unresolved"
                 else if entry.record.turnId !in {"", turnId} then "identity_conflict" else "")
            && (SaidBy(UserItem, event) == if role == UserItem then content else "")
            && (SaidBy(AssistantItem, event) == if role == AssistantItem then content else "")
            && !IsTool(event)
  {
    ContentIsSaid(entry.record.item.role, entry.record.item.content);
    hide ItemContent, Typed, Join;
  }

  lemma MessageCollects(env: Env, fileId: string, st: State, entry: Entry)
    requires entry.record.Response? && entry.record.item.MessageItem?
    ensures var after, event := StepResponse(env, fileId, st, entry), JsonlLines.Record(entry);
            && after == st.(invalidReason := after.invalidReason, current := after.current)
            && after.invalidReason == (if Flaw(st.turnId, event) != "" then Flaw(st.turnId, event)
                 else st.invalidReason)
            && CollectsMessages(st.current, after.current, [event])
  {
    hide StepResponse, ItemContent, CollectsMessages, Flaw, Speaks, SaidBy, IsTool;
    var event, role := JsonlLines.Record(entry), entry.record.item.role;
    MessageIsPushed(env, fileId, st, entry);
    MessageFlaw(st.turnId, entry);
    var content := ItemContent(role, entry.record.item.content);
    if content == "" || role == OtherRole {
      SilentRecord(st.current, event);
      assert st.current + [] == st.current;
    } else {
      SpokenRecord(st.current, Pushed(fileId, st, entry, RoleOf(role), content), event);
    }
  }

  /** Then the next record. */
  lemma CollectsOneMore(a: State, b: State, c: State, log: seq<LogEvent>, event: LogEvent)
    requires Collects(a, b, log) && Collects(b, c, [event])
    ensures Collects(a, c, log + [event])
  {
    MoreRecords(log, event, a);
    OneRecord(b.turnId, event, b.invalidReason, b.workspacePath, b.turnModel);
    hide Texts, LastSaid, Contents, Spoken, StartedAt, FirstAsked, Answered, AnsweredIn, FlawAfter, Lines,
        ModelAfter, Directory, CallsIn, ResultsIn, Speaks, SaidBy, Flaw;
    assert a.toolCalls + (CallsIn(log) + CallsIn([event])) == a.toolCalls + CallsIn(log) + CallsIn([event]);
    assert a.toolResults + (ResultsIn(log) + ResultsIn([event])) == a.toolResults + ResultsIn(log) + ResultsIn([event]);
    assert forall x: seq<string>, y: seq<string>, z: seq<string> :: x + (y + z) == x + y + z;
  }

  lemma MoreAsked(log: seq<LogEvent>, event: LogEvent)
    ensures FirstAsked(log + [event]) == if FirstAsked(log).Some? then FirstAsked(log) else FirstAsked([event])
    ensures AnsweredIn(log + [event]) <==> AnsweredIn(log) || AnsweredIn([event])
  {
    assert (log + [event])[..|log|] == log && [event][..0] == [];
  }

  lemma MoreFlaws(turnId: string, before: string, model: string, log: seq<LogEvent>, event: LogEvent)
    ensures FlawAfter(turnId, before, log + [event]) == FlawAfter(turnId, FlawAfter(turnId, before, log), [event])
    ensures ModelAfter(model, log + [event]) == ModelAfter(ModelAfter(model, log), [event])
  {
    hide Flaw;
    assert (log + [event])[..|log|] == log && [event][..0] == [];
  }

  lemma MoreRecords(log: seq<LogEvent>, event: LogEvent, a: State)
    ensures forall role :: Texts(role, log + [event]) == Texts(role, log) + Texts(role, [event])
    ensures LastSaid(log + [event]) == if LastSaid([event]).Some? then LastSaid([event]) else LastSaid(log)
    ensures FirstAsked(log + [event]) == if FirstAsked(log).Some? then FirstAsked(log) else FirstAsked([event])
    ensures AnsweredIn(log + [event]) <==> AnsweredIn(log) || AnsweredIn([event])
    ensures FlawAfter(a.turnId, a.invalidReason, log + [event])
        == FlawAfter(a.turnId, FlawAfter(a.turnId, a.invalidReason, log), [event])
    ensures Lines(log + [event]) == Lines(log) + Lines([event])
    ensures ModelAfter(a.turnModel, log + [event]) == ModelAfter(ModelAfter(a.turnModel, log), [event])
    ensures Directory(a.workspacePath, log + [event]) == Directory(Directory(a.workspacePath, log), [event])
    ensures CallsIn(log + [event]) == CallsIn(log) + CallsIn([event])
    ensures ResultsIn(log + [event]) == ResultsIn(log) + ResultsIn([event])
  {
    hide Texts, LastSaid, FirstAsked, AnsweredIn, FlawAfter, Lines, ModelAfter, Directory, CallsIn, ResultsIn;
    forall role ensures Texts(role, log + [event]) == Texts(role, log) + Texts(role, [event]) {
      TextsAppend(role, log, [event]);
    }
    SaidAppend(log, [event]);
    LinesAppend(log, [event]);
    DirectoryAppend(a.workspacePath, log, [event]);
    CallsAppend(log, [event]);
    ResultsAppend(log, [event]);
    MoreAsked(log, event);
    MoreFlaws(a.turnId, a.invalidReason, a.turnModel, log, event);
  }

  lemma {:induction false} RunCollects(env: Env, fileId: string, st: State, log: seq<LogEvent>)
    requires Renders(env) && forall e | e in log :: Within(st.conversationId, st.turnId, e)
    ensures var (after, out) := Run(env, fileId, st, log);
            out == [] && Collects(st, after, log)
  {
    if log == [] {
      CollectsNothing(st);
    } else {
      hide Step, Within;
      var front, event := log[..|log| - 1], Last(log);
      assert log == front + [event];
      RunCollects(env, fileId, st, front);
      var middle := Run(env, fileId, st, front).0;
      StepCollects(env, fileId, middle, event);
      CollectsOneMore(st, middle, Step(env, fileId, middle, event).0, front, event);
    }
  }

  // ---------------------------------------------------------------------------------------
  // One message for each thing said
  // ---------------------------------------------------------------------------------------

  datatype Saying = Saying(line: int, role: Role, content: string, at: Time, recordId: string, phase: string)

  /** The name of the last call with that id; results without one are a "tool". */
  function NameOfCall(log: seq<LogEvent>, id: string): string {
    if log == [] || id == "" then "tool"
    else
      match Last(log)
      case Record(Entry(_, Response(_, CallItem(call), _, _))) =>
        if call.data.id == Some(id) then call.name else NameOfCall(log[..|log| - 1], id)
      case _ => NameOfCall(log[..|log| - 1], id)
  }

  function IdOf(result: ToolResult): string {
    if result.id.Some? then result.id.value else ""
  }

  /** What an item says, after the records of `log`. */
  function ItemSays(env: Env, log: seq<LogEvent>, item: ResponseItem): (Role, string) {
    match item
    case MessageItem(role, content) =>
      (RoleOf(role), if role == OtherRole then "" else Join(Typed(role, content), "\n"))
    case CallItem(call) => (Tool, env.renderTool(call))
    case OutputItem(result) => (Tool, env.renderTool(ToolCall(NameOfCall(log, IdOf(result)), None, result)))
    case OtherItem => (System, "")
  }

  function Sayings(env: Env, line: int, log: seq<LogEvent>): seq<Saying> {
    if log == [] then []
    else
      var front := log[..|log| - 1];
      Sayings(env, line, front)
      + match Last(log)
        case Record(Entry(at, Response(_, item, recordId, phase))) =>
          var (role, content) := ItemSays(env, front, item);
          if content == "" then []
          else [Saying(line + Lines(log), role, content, if at.Some? then at.value else 0, recordId, phase)]
        case _ => []
  }

  function Heard(messages: seq<RawMessage>): seq<Saying> {
    seq(|messages|, i requires 0 <= i < |messages| => SayingOf(messages[i]))
  }

  function SayingOf(m: RawMessage): Saying {
    Saying(m.ordinal, m.role, m.content, m.createdAt, m.meta.recordId, m.meta.phase)
  }

  /** The open messages are what `log` says, and the table of names is that of its calls. */
  ghost predicate Says(env: Env, line: int, log: seq<LogEvent>, st: State) {
    && st.lineNumber == line + Lines(log) && Heard(st.current) == Sayings(env, line, log)
    && forall id :: id != "" ==> (if id in st.toolNames then st.toolNames[id] else "tool") == NameOfCall(log, id)
  }

  lemma NameOfCallSnoc(log: seq<LogEvent>, event: LogEvent, id: string)
    ensures NameOfCall(log + [event], id)
        == match event
           case Record(Entry(_, Response(_, CallItem(call), _, _))) =>
             if id != "" && call.data.id == Some(id) then call.name else NameOfCall(log, id)
           case _ => NameOfCall(log, id)
  {
    assert (log + [event])[..|log|] == log;
  }

  lemma SayingsSnoc(env: Env, line: int, log: seq<LogEvent>, event: LogEvent)
    ensures Lines(log + [event]) == Lines(log) + if event.Record? then 1 else 0
    ensures Sayings(env, line, log + [event])
        == Sayings(env, line, log)
           + match event
             case Record(Entry(at, Response(_, item, recordId, phase))) =>
               var (role, content) := ItemSays(env, log, item);
               if content == "" then []
               else [Saying(line + Lines(log) + 1, role, content, if at.Some? then at.value else 0, recordId, phase)]
             case _ => []
  {
    assert (log + [event])[..|log|] == log;
  }

  lemma HeardSnoc(messages: seq<RawMessage>, m: RawMessage)
    ensures Heard(messages + [m]) == Heard(messages) + [SayingOf(m)]
  {
  }

  function NamesAfter(names: map<string, string>, item: ResponseItem): map<string, string> {
    match item
    case CallItem(call) =>
      if call.data.id.Some? && call.data.id.value != "" then names[call.data.id.value := call.name] else names
    case _ => names
  }

  lemma NamesFollow(names: map<string, string>, log: seq<LogEvent>, entry: Entry)
    requires entry.record.Response?
    requires forall id :: id != "" ==> (if id in names then names[id] else "tool") == NameOfCall(log, id)
    ensures var now := NamesAfter(names, entry.record.item);
            forall id :: id != "" ==>
              (if id in now then now[id] else "tool") == NameOfCall(log + [JsonlLines.Record(entry)], id)
  {
    forall id { NameOfCallSnoc(log, JsonlLines.Record(entry), id); }
    hide NameOfCall;
  }

  /** One more record, with the message it says, if it says anything. */
  lemma SaysMore(env: Env, line: int, log: seq<LogEvent>, st: State, entry: Entry, after: State, own: seq<RawMessage>)
    requires entry.record.Response? && Says(env, line, log, st)
    requires after.lineNumber == st.lineNumber + 1 && after.current == st.current + own
    requires after.toolNames == NamesAfter(st.toolNames, entry.record.item)
    requires var (role, content) := ItemSays(env, log, entry.record.item);
             if content == "" then own == []
             else
               && |own| == 1
               && SayingOf(own[0]) == Saying(st.lineNumber + 1, role, content,
                    if entry.timestamp.Some? then entry.timestamp.value else 0, entry.record.recordId,
                    entry.record.phase)
    ensures Says(env, line, log + [JsonlLines.Record(entry)], after)
  {
    SayingsSnoc(env, line, log, JsonlLines.Record(entry));
    NamesFollow(st.toolNames, log, entry);
    hide Sayings, Lines, NameOfCall, Heard, ItemSays, NamesAfter;
    if own == [] {
      assert st.current + own == st.current && Sayings(env, line, log) + [] == Sayings(env, line, log);
    } else {
      assert own == [own[0]];
      HeardSnoc(st.current, own[0]);
    }
  }

  /** A response item adds its saying. */
  lemma ResponseSays(env: Env, fileId: string, line: int, log: seq<LogEvent>, st: State, entry: Entry)
    requires Renders(env) && entry.record.Response? && Says(env, line, log, st)
    ensures Says(env, line, log + [JsonlLines.Record(entry)],
              StepResponse(env, fileId, st.(lineNumber := st.lineNumber + 1), entry))
  {
    hide Says, StepResponse, Renders;
    match entry.record.item {
      case MessageItem(_, _) => MessageSays(env, fileId, line, log, st, entry);
      case OtherItem => OtherSays(env, fileId, line, log, st, entry);
      case _ => ToolSays(env, fileId, line, log, st, entry);
    }
  }

  lemma OtherSays(env: Env, fileId: string, line: int, log: seq<LogEvent>, st: State, entry: Entry)
    requires entry.record.Response? && entry.record.item.OtherItem? && Says(env, line, log, st)
    ensures Says(env, line, log + [JsonlLines.Record(entry)],
              StepResponse(env, fileId, st.(lineNumber := st.lineNumber + 1), entry))
  {
    hide Says;
    SaysMore(env, line, log, st, entry, StepResponse(env, fileId, st.(lineNumber := st.lineNumber + 1), entry), []);
  }

  lemma MessageSays(env: Env, fileId: string, line: int, log: seq<LogEvent>, st: State, entry: Entry)
    requires entry.record.Response? && entry.record.item.MessageItem? && Says(env, line, log, st)
    ensures Says(env, line, log + [JsonlLines.Record(entry)],
              StepResponse(env, fileId, st.(lineNumber := st.lineNumber + 1), entry))
  {
    hide Says, StepResponse, ItemContent, Typed, Join;
    var now, role, content := st.(lineNumber := st.lineNumber + 1), entry.record.item.role, entry.record.item.content;
    MessageIsPushed(env, fileId, now, entry);
    ContentIsSaid(role, content);
    SaysMore(env, line, log, st, entry, StepResponse(env, fileId, now, entry),
      if role == OtherRole || ItemContent(role, content) == "" then []
      else [Pushed(fileId, now, entry, RoleOf(role), ItemContent(role, content))]);
  }

  lemma ToolSays(env: Env, fileId: string, line: int, log: seq<LogEvent>, st: State, entry: Entry)
    requires Renders(env) && entry.record.Response? && (entry.record.item.CallItem? || entry.record.item.OutputItem?)
    requires Says(env, line, log, st)
    ensures Says(env, line, log + [JsonlLines.Record(entry)],
              StepResponse(env, fileId, st.(lineNumber := st.lineNumber + 1), entry))
  {
    hide Says, StepResponse, Rendered, ItemSays, Renders;
    var now := st.(lineNumber := st.lineNumber + 1);
    ToolIsPushed(env, fileId, now, entry);
    ToolNamesStep(env, fileId, now, entry);
    ToolIsNamed(env, line, log, st, now, entry.record.item);
    SaysMore(env, line, log, st, entry, StepResponse(env, fileId, now, entry),
      [Pushed(fileId, now, entry, Tool, Rendered(env, now, entry.record.item))]);
  }

  /** The table gives a result the name of its call. */
  lemma ToolIsNamed(env: Env, line: int, log: seq<LogEvent>, st: State, now: State, item: ResponseItem)
    requires Renders(env) && Says(env, line, log, st) && now.toolNames == st.toolNames
    requires item.CallItem? || item.OutputItem?
    ensures ItemSays(env, log, item) == (Tool, Rendered(env, now, item)) && Rendered(env, now, item) != ""
  {
    hide Sayings, Heard, Lines;
  }

  lemma ToolNamesStep(env: Env, fileId: string, st: State, entry: Entry)
    requires entry.record.Response? && (entry.record.item.CallItem? || entry.record.item.OutputItem?)
    ensures StepResponse(env, fileId, st, entry).toolNames == NamesAfter(st.toolNames, entry.record.item)
  {
  }

  lemma {:induction false} RunSays(env: Env, fileId: string, line: int, history: seq<LogEvent>, st: State,
      log: seq<LogEvent>)
    requires Renders(env) && Says(env, line, history, st)
    requires forall e | e in log :: Within(st.conversationId, st.turnId, e)
    ensures Says(env, line, history + log, Run(env, fileId, st, log).0)
  {
    if log == [] {
      assert history + [] == history;
    } else {
      hide Step, Within, Says, Renders;
      var front, event := log[..|log| - 1], Last(log);
      assert log == front + [event] && history + log == history + front + [event];
      RunSays(env, fileId, line, history, st, front);
      RunCollects(env, fileId, st, front);
      RecordSays(env, fileId, line, history + front, Run(env, fileId, st, front).0, event);
    }
  }

  lemma RecordSays(env: Env, fileId: string, line: int, log: seq<LogEvent>, st: State, event: LogEvent)
    requires Renders(env) && Says(env, line, log, st) && Within(st.conversationId, st.turnId, event)
    ensures Says(env, line, log + [event], Step(env, fileId, st, event).0)
  {
    hide Says, Renders;
    if event.Record? && event.record.record.Response? {
      hide Within, StepResponse;
      ResponseSays(env, fileId, line, log, st, event.record);
    } else {
      hide Step;
      OtherRecordCollects(env, fileId, st, event);
      hide Within;
      LinesOfOne(event);
      NothingSays(env, line, log, st, event, Step(env, fileId, st, event).0);
    }
  }

  lemma LinesOfOne(event: LogEvent)
    ensures Lines([event]) == if event.Record? then 1 else 0
  {
    assert [event][..0] == [];
  }

  lemma NothingSays(env: Env, line: int, log: seq<LogEvent>, st: State, event: LogEvent, after: State)
    requires Says(env, line, log, st) && !(event.Record? && event.record.record.Response?)
    requires after.current == st.current && after.toolNames == st.toolNames
    requires after.lineNumber == st.lineNumber + if event.Record? then 1 else 0
    ensures Says(env, line, log + [event], after)
  {
    SayingsSnoc(env, line, log, event);
    forall id { NameOfCallSnoc(log, event, id); }
    hide Sayings, Lines, NameOfCall, Heard;
    assert Sayings(env, line, log) + [] == Sayings(env, line, log);
  }

  // ---------------------------------------------------------------------------------------
  // The records of one turn
  // ---------------------------------------------------------------------------------------

  /** What precedes the record that names the turn, that record, and what follows it. */
  datatype TurnLog = TurnLog(
    lead: seq<LogEvent>, begunAt: Option<Time>, turnId: string, model: string, cwd: string, body: seq<LogEvent>)

  function Opening(log: TurnLog): LogEvent {
    JsonlLines.Record(Entry(log.begunAt, TurnStart(log.turnId, log.model, log.cwd)))
  }

  function Told(log: TurnLog): seq<LogEvent> {
    log.lead + [Opening(log)] + log.body
  }

  /** All of one session and one turn; before the turn is named, only the person speaks. */
  ghost predicate OfOneTurn(log: TurnLog, sessionId: string) {
    && log.turnId != ""
    && (forall e | e in log.lead :: Within(sessionId, "", e)) && !AnsweredIn(log.lead)
    && forall e | e in log.body :: Within(sessionId, log.turnId, e)
  }

  /**
   How the turn ends: a record says so, another turn or another session begins, the hook knows that
   Codex stopped, or nothing more is known.
   */
  datatype Close =
    | Task(at: Option<Time>, turnId: string, failed: bool)
    | Abort(at: Option<Time>)
    | NextTurn(at: Option<Time>, nextId: string, model: string, cwd: string)
    | OtherSession(at: Option<Time>, nextSession: string, cwd: string)
    | StopKnown
    | Unknown

  /** What begins next is another turn, or another session. */
  predicate Replaces(close: Close, turnId: string, sessionId: string) {
    && (close.NextTurn? ==> close.nextId !in {"", turnId})
    && (close.OtherSession? ==> sessionId != "" && close.nextSession !in {"", sessionId})
  }

  /** The last thing said is a final answer. */
  predicate Answers(log: TurnLog) {
    var last := LastSaid(Told(log));
    && last.Some? && last.value.Record? && last.value.record.record.Response?
    && SaidBy(AssistantItem, last.value) != "" && last.value.record.record.phase == "final_answer"
  }

  function Asked(log: TurnLog): string {
    Join(Texts(UserItem, Told(log)), "\n\n")
  }

  function Replied(log: TurnLog): string {
    Join(Texts(AssistantItem, Told(log)), "\n\n")
  }

  /** The first question, if it came before the turn was named, or else that record. */
  function BeganAt(log: TurnLog): Option<Time> {
    if FirstAsked(log.lead).Some? then FirstOf(None, FirstAsked(log.lead)) else log.begunAt
  }

  function AnsweredAt(log: TurnLog): Option<Time> {
    var last := LastSaid(Told(log));
    if last.None? then None else if TimeOf(last.value).Some? then TimeOf(last.value) else Some(0)
  }

  function EndedAt(log: TurnLog, close: Close): Option<Time> {
    if close.Task? then close.at else if close.StopKnown? && Answers(log) then AnsweredAt(log) else None
  }

  /** Why no turn is captured; "" when one is. */
  function WhyNot(log: TurnLog, sessionId: string, close: Close): string {
    var flaw := FlawAfter(log.turnId, FlawAfter("", "", log.lead), log.body);
    if close.Task? && close.turnId != log.turnId then "identity_conflict"
    else if close.OtherSession? then "identity_conflict"
    else if close.Abort? then "turn_cancelled"
    else if flaw != "" then flaw
    else if sessionId == "" then "identity_unresolved"
    else if EndedAt(log, close).None? then "turn_incomplete"
    else if BeganAt(log).None? then "timestamp_unresolved"
    else if Blank(Asked(log)) || Blank(Replied(log)) then "turn_content_incomplete"
    else ""
  }

  /** The captured turn says what the log says. */
  ghost predicate Tells(env: Env, before: seq<LogEvent>, log: TurnLog, sessionId: string, close: Close,
      turn: SourceTurn) {
    && turn.source == "codex" && turn.conversationId == sessionId && turn.turnId == log.turnId && turn.profileId == ""
    && turn.query == env.redact(Asked(log))
    && turn.answer == env.redact(Replied(log))
    && (turn.status == Failed <==> close.Task? && close.failed)
    && Some(turn.startedAt) == BeganAt(log)
    && Some(turn.completedAt) == (if Answers(log) then AnsweredAt(log) else EndedAt(log, close))
    && turn.sequence == Lines(before) + Lines(log.lead) + 1
    && turn.completionEvidence == (if !Answers(log) then "task_complete:" + log.turnId
         else
           var id := LastSaid(Told(log)).value.record.record.recordId;
           "final_answer:" + if id != "" then id else log.turnId)
    && turn.toolCalls == MapCalls(env.redactCall, PairedCalls(CallsIn(Told(log)), ResultsIn(Told(log))))
    && turn.toolResults == MapResults(env.redactResult, ResultsIn(Told(log)))
    && turn.workspacePath == Directory("", before + Told(log))
  }

  /** Nothing is open: a session was named, or the last turn has ended. */
  predicate AtRest(st: State, sessionId: string) {
    && st.conversationId == sessionId && st.turnId == "" && st.current == [] && st.invalidReason == ""
    && st.toolCalls == [] && st.toolResults == [] && st.toolNames == map[]
  }

  /** Everything the reader knows of an open turn. */
  ghost predicate Knows(st: State, before: seq<LogEvent>, log: TurnLog, sessionId: string) {
    && st.conversationId == sessionId && st.turnId == log.turnId && UnstagedInput(st.current)
    && st.invalidReason == FlawAfter(log.turnId, FlawAfter("", "", log.lead), log.body)
    && st.startedAt == BeganAt(log) && st.sequence == Lines(before) + Lines(log.lead) + 1
    && st.workspacePath == Directory("", before + Told(log)) && st.turnModel == ModelAfter(log.model, log.body)
    && st.toolCalls == CallsIn(Told(log)) && st.toolResults == ResultsIn(Told(log))
    && Contents(st.current, User) == Texts(UserItem, Told(log))
    && Contents(st.current, Assistant) == Texts(AssistantItem, Told(log))
    && match LastSaid(Told(log))
       case None => Spoken(st.current) == []
       case Some(event) =>
         Spoken(st.current) != [] && event.Record? && event.record.record.Response?
         && Speaker(Last(Spoken(st.current)), event)
  }

  // ---------------------------------------------------------------------------------------
  // The open turn
  // ---------------------------------------------------------------------------------------

  lemma {:induction false} TextsAppend(role: ItemRole, first: seq<LogEvent>, second: seq<LogEvent>)
    ensures Texts(role, first + second) == Texts(role, first) + Texts(role, second)
  {
    if second == [] {
      assert first + second == first;
    } else {
      hide SaidBy;
      TextsAppend(role, first, second[..|second| - 1]);
      assert (first + second)[..|first + second| - 1] == first + second[..|second| - 1];
      assert Last(first + second) == Last(second) && first + second != [];
    }
  }

  lemma {:induction false} CallsAppend(first: seq<LogEvent>, second: seq<LogEvent>)
    ensures CallsIn(first + second) == CallsIn(first) + CallsIn(second)
  {
    if second == [] {
      assert first + second == first;
    } else {
      CallsAppend(first, second[..|second| - 1]);
      assert (first + second)[..|first + second| - 1] == first + second[..|second| - 1];
    }
  }

  lemma {:induction false} ResultsAppend(first: seq<LogEvent>, second: seq<LogEvent>)
    ensures ResultsIn(first + second) == ResultsIn(first) + ResultsIn(second)
  {
    if second == [] {
      assert first + second == first;
    } else {
      ResultsAppend(first, second[..|second| - 1]);
      assert (first + second)[..|first + second| - 1] == first + second[..|second| - 1];
    }
  }

  lemma {:induction false} LinesAppend(first: seq<LogEvent>, second: seq<LogEvent>)
    ensures Lines(first + second) == Lines(first) + Lines(second)
  {
    if second == [] {
      assert first + second == first;
    } else {
      LinesAppend(first, second[..|second| - 1]);
      assert (first + second)[..|first + second| - 1] == first + second[..|second| - 1];
    }
  }

  lemma {:induction false} SaidAppend(first: seq<LogEvent>, second: seq<LogEvent>)
    ensures LastSaid(first + second) == if LastSaid(second).Some? then LastSaid(second) else LastSaid(first)
  {
    if second == [] {
      assert first + second == first;
    } else {
      SaidAppend(first, second[..|second| - 1]);
      assert (first + second)[..|first + second| - 1] == first + second[..|second| - 1];
    }
  }

  lemma {:induction false} DirectoryAppend(path: string, first: seq<LogEvent>, second: seq<LogEvent>)
    ensures Directory(path, first + second) == Directory(Directory(path, first), second)
  {
    if second == [] {
      assert first + second == first;
    } else {
      DirectoryAppend(path, first, second[..|second| - 1]);
      assert (first + second)[..|first + second| - 1] == first + second[..|second| - 1];
    }
  }

  /** What a turn's records add up to; the one that names the turn adds a directory only. */
  lemma ToldRecords(before: seq<LogEvent>, log: TurnLog)
    ensures forall role :: Texts(role, Told(log)) == Texts(role, log.lead) + Texts(role, log.body)
    ensures LastSaid(Told(log)) == if LastSaid(log.body).Some? then LastSaid(log.body) else LastSaid(log.lead)
    ensures CallsIn(Told(log)) == CallsIn(log.lead) + CallsIn(log.body)
    ensures ResultsIn(Told(log)) == ResultsIn(log.lead) + ResultsIn(log.body)
    ensures Directory("", before + Told(log))
        == Directory(Otherwise(log.cwd, Directory(Directory("", before), log.lead)), log.body)
  {
    var opening := [Opening(log)];
    OneRecord("", Opening(log), "", "", "");
    assert opening[..0] == [];
    hide Texts, LastSaid, CallsIn, ResultsIn;
    forall role ensures Texts(role, Told(log)) == Texts(role, log.lead) + Texts(role, log.body) {
      TextsAppend(role, log.lead, opening);
      TextsAppend(role, log.lead + opening, log.body);
      assert Texts(role, log.lead) + [] == Texts(role, log.lead);
    }
    SaidAppend(log.lead, opening);
    SaidAppend(log.lead + opening, log.body);
    CallsAppend(log.lead, opening);
    CallsAppend(log.lead + opening, log.body);
    ResultsAppend(log.lead, opening);
    ResultsAppend(log.lead + opening, log.body);
    assert CallsIn(log.lead) + [] == CallsIn(log.lead) && ResultsIn(log.lead) + [] == ResultsIn(log.lead);
    DirectoryAppend("", before, Told(log));
    DirectoryAppend(Directory("", before), log.lead, opening);
    DirectoryAppend(Directory("", before), log.lead + opening, log.body);
  }

  /** The working directory and the line number need no turn. */
  lemma {:induction false} RunCounts(env: Env, fileId: string, log: seq<LogEvent>)
    ensures var st := Run(env, fileId, INITIAL, log).0;
            st.lineNumber == Lines(log) && st.workspacePath == Directory("", log)
  {
    if log != [] {
      hide Step;
      RunCounts(env, fileId, log[..|log| - 1]);
      StepCounts(env, fileId, Run(env, fileId, INITIAL, log[..|log| - 1]).0, Last(log));
      DirectorySnoc("", log);
      assert [Last(log)][..0] == [];
    }
  }

  lemma FinishKeepsPlace(env: Env, fileId: string, st: State, ending: Ending)
    ensures var after := Finish(env, fileId, st, ending).0;
            after.lineNumber == st.lineNumber && after.workspacePath == st.workspacePath
  {
  }

  lemma ResponseKeepsPlace(env: Env, fileId: string, st: State, entry: Entry)
    requires entry.record.Response?
    ensures var after := StepResponse(env, fileId, st, entry);
            after.lineNumber == st.lineNumber && after.workspacePath == st.workspacePath
  {
    hide ItemContent;
  }

  lemma StepCounts(env: Env, fileId: string, st: State, event: LogEvent)
    ensures var after := Step(env, fileId, st, event).0;
            && after.lineNumber == st.lineNumber + (if event.Record? then 1 else 0)
            && after.workspacePath == Directory(st.workspacePath, [event])
  {
    hide Finish, StepResponse, HasWork, StartedAt;
    assert [event][..0] == [];
    if event.Record? {
      var counted := st.(lineNumber := st.lineNumber + 1);
      match event.record.record {
        case SessionMeta(_, _) =>
          FinishKeepsPlace(env, fileId, counted.(invalidReason := "identity_conflict"), Open);
        case TurnStart(_, _, _) => FinishKeepsPlace(env, fileId, counted, Open);
        case TaskComplete(id, failed) =>
          var ending := Completed(event.record.timestamp, id, failed);
          FinishKeepsPlace(env, fileId, counted, ending);
          FinishKeepsPlace(env, fileId, counted.(invalidReason := "identity_conflict"), ending);
        case TaskAborted => FinishKeepsPlace(env, fileId, counted.(invalidReason := "turn_cancelled"), Open);
        case Response(_, _, _, _) => ResponseKeepsPlace(env, fileId, counted, event.record);
        case Other =>
      }
    }
  }

  /** The record that names the turn, after questions at most. */
  lemma OpeningNamesTurn(env: Env, fileId: string, st: State, log: TurnLog)
    requires st.turnId == "" && log.turnId != "" && !Answered(st.current)
    ensures Step(env, fileId, st, Opening(log))
        == (st.(lineNumber := st.lineNumber + 1, turnId := log.turnId, turnModel := log.model,
             startedAt := if StartedAt(st.current, None).Some? then StartedAt(st.current, None) else log.begunAt,
             sequence := st.lineNumber + 1, workspacePath := Otherwise(log.cwd, st.workspacePath)), [])
  {
    StartedOr(st.current, log.begunAt);
    hide Finish;
  }

  lemma {:induction false} StartedOr(messages: seq<RawMessage>, timestamp: Option<Time>)
    ensures StartedAt(messages, timestamp)
        == if StartedAt(messages, None).Some? then StartedAt(messages, None) else timestamp
  {
    if messages != [] && messages[0].role != User {
      StartedOr(messages[1..], timestamp);
    }
  }

  /** The reader passes through a lead, a record that stages nothing, and a body that stages nothing. */
  lemma ReadsThrough(env: Env, fileId: string, before: seq<LogEvent>, lead: seq<LogEvent>, event: LogEvent,
      body: seq<LogEvent>, rest: State, out: seq<RawMessage>, led: State, named: State, open: State)
    requires Run(env, fileId, INITIAL, before) == (rest, out) && Run(env, fileId, rest, lead) == (led, [])
    requires Step(env, fileId, led, event) == (named, []) && Run(env, fileId, named, body) == (open, [])
    ensures Run(env, fileId, INITIAL, before + (lead + [event] + body)) == (open, out)
  {
    hide Run, Step;
    RunAppend(env, fileId, INITIAL, before, lead);
    RunAppend(env, fileId, INITIAL, before + lead, [event]);
    RunOne(env, fileId, led, event);
    RunAppend(env, fileId, INITIAL, before + lead + [event], body);
    assert before + lead + [event] + body == before + (lead + [event] + body);
    assert out + [] == out;
  }

  /** Reading a turn up to where it ends leaves what the log says of it, and stages nothing yet. */
  lemma OpenTurn(env: Env, fileId: string, before: seq<LogEvent>, log: TurnLog, sessionId: string)
    requires Renders(env) && OfOneTurn(log, sessionId)
    requires AtRest(Run(env, fileId, INITIAL, before).0, sessionId)
    ensures var (st, out) := Run(env, fileId, INITIAL, before + Told(log));
            Knows(st, before, log, sessionId) && out == Run(env, fileId, INITIAL, before).1
  {
    hide Run, Step, Within, CollectsMessages, Answered, AnsweredIn, Knows, Renders;
    var (rest, out) := Run(env, fileId, INITIAL, before);
    RunCounts(env, fileId, before);
    RunCollects(env, fileId, rest, log.lead);
    var lead := Run(env, fileId, rest, log.lead).0;
    assert !Answered(lead.current) by { LeadUnanswered(rest.current, lead.current, log.lead); }
    OpeningNamesTurn(env, fileId, lead, log);
    var named := Step(env, fileId, lead, Opening(log)).0;
    RunCollects(env, fileId, named, log.body);
    var open := Run(env, fileId, named, log.body).0;
    ReadsThrough(env, fileId, before, log.lead, Opening(log), log.body, rest, out, lead, named, open);
    OpenKnows(before, log, sessionId, rest, lead, named, open);
  }

  /** The open messages are what the records of the turn say. */
  lemma OpenTurnSays(env: Env, fileId: string, before: seq<LogEvent>, log: TurnLog, sessionId: string)
    requires Renders(env) && OfOneTurn(log, sessionId)
    requires AtRest(Run(env, fileId, INITIAL, before).0, sessionId)
    ensures Says(env, Lines(before), Told(log), Run(env, fileId, INITIAL, before + Told(log)).0)
  {
    hide Run, Step, Within, CollectsMessages, Answered, AnsweredIn, Renders, Says;
    var (rest, out) := Run(env, fileId, INITIAL, before);
    var line := Lines(before);
    RunCounts(env, fileId, before);
    AtRestSays(env, rest, sessionId, line);
    RunCollects(env, fileId, rest, log.lead);
    RunSays(env, fileId, line, [], rest, log.lead);
    assert [] + log.lead == log.lead;
    var lead := Run(env, fileId, rest, log.lead).0;
    assert !Answered(lead.current) by { LeadUnanswered(rest.current, lead.current, log.lead); }
    OpeningNamesTurn(env, fileId, lead, log);
    var named := Step(env, fileId, lead, Opening(log)).0;
    NothingSays(env, line, log.lead, lead, Opening(log), named);
    RunCollects(env, fileId, named, log.body);
    RunSays(env, fileId, line, log.lead + [Opening(log)], named, log.body);
    var open := Run(env, fileId, named, log.body).0;
    ReadsThrough(env, fileId, before, log.lead, Opening(log), log.body, rest, out, lead, named, open);
  }

  lemma AtRestSays(env: Env, st: State, sessionId: string, line: int)
    requires AtRest(st, sessionId) && st.lineNumber == line
    ensures Says(env, line, [], st)
  {
  }

  lemma LeadUnanswered(a: seq<RawMessage>, b: seq<RawMessage>, lead: seq<LogEvent>)
    requires a == [] && CollectsMessages(a, b, lead) && !AnsweredIn(lead)
    ensures !Answered(b)
  {
  }

  lemma OpenKnows(before: seq<LogEvent>, log: TurnLog, sessionId: string, rest: State, lead: State, named: State,
      open: State)
    requires AtRest(rest, sessionId) && rest.lineNumber == Lines(before)
        && rest.workspacePath == Directory("", before)
    requires Collects(rest, lead, log.lead) && Collects(named, open, log.body)
    requires named == lead.(lineNumber := lead.lineNumber + 1, turnId := log.turnId, turnModel := log.model,
               startedAt := if StartedAt(lead.current, None).Some? then StartedAt(lead.current, None) else log.begunAt,
               sequence := lead.lineNumber + 1, workspacePath := Otherwise(log.cwd, lead.workspacePath))
    ensures Knows(open, before, log, sessionId)
  {
    ToldRecords(before, log);
    NothingSaid();
    hide Texts, LastSaid, Lines, Directory, CallsIn, ResultsIn, FlawAfter, ModelAfter, AnsweredIn, Answered,
        FirstAsked, Contents, Spoken, StartedAt, Told, UnstagedInput;
    assert forall x: seq<string> :: [] + x == x;
    assert [] + CallsIn(log.lead) == CallsIn(log.lead) && [] + ResultsIn(log.lead) == ResultsIn(log.lead);
  }

  lemma NothingSaid()
    ensures Contents([], User) == [] && Contents([], Assistant) == [] && Spoken([]) == [] && StartedAt([], None) == None
    ensures UnstagedInput([])
  {
  }

  // ---------------------------------------------------------------------------------------
  // The turn that is staged
  // ---------------------------------------------------------------------------------------

  /** What `finish` is called with, and on what. */
  function EndingOf(log: TurnLog, close: Close): Ending {
    match close
    case Task(at, id, failed) => Completed(at, id, failed)
    case StopKnown => if Answers(log) then Stopped(AnsweredAt(log).value) else Open
    case _ => Open
  }

  function AtClose(st: State, close: Close): State {
    match close
    case Task(_, id, _) =>
      st.(lineNumber := st.lineNumber + 1,
        invalidReason := if id != st.turnId then "identity_conflict" else st.invalidReason)
    case Abort(_) => st.(lineNumber := st.lineNumber + 1, invalidReason := "turn_cancelled")
    case NextTurn(_, _, _, _) => st.(lineNumber := st.lineNumber + 1)
    case OtherSession(_, _, _) => st.(lineNumber := st.lineNumber + 1, invalidReason := "identity_conflict")
    case _ => st
  }

  lemma FinalAnswerIsKnown(st: State, before: seq<LogEvent>, log: TurnLog, sessionId: string)
    requires Knows(st, before, log, sessionId)
    ensures EndsWithFinalAnswer(st.current) <==> Answers(log)
    ensures Answers(log) ==>
              && Some(Last(Spoken(st.current)).createdAt) == AnsweredAt(log)
              && Last(Spoken(st.current)).meta.recordId == LastSaid(Told(log)).value.record.record.recordId
  {
  }

  lemma ReasonIsTold(st: State, before: seq<LogEvent>, log: TurnLog, sessionId: string, close: Close)
    requires Knows(st, before, log, sessionId) && log.turnId != ""
    ensures FinishReason(AtClose(st, close), EndingOf(log, close)) == WhyNot(log, sessionId, close)
  {
    KnowsWords(st, before, log, sessionId);
    ClosingKeeps(st, close);
    EndingEnds(AtClose(st, close), log, close);
    hide Knows, FlawAfter, BeganAt, Asked, Replied, Query, Answer, EndedAt, AtClose, EndingOf, CompletedAt, Blank;
    ReasonByParts(AtClose(st, close), EndingOf(log, close),
      FlawAfter(log.turnId, FlawAfter("", "", log.lead), log.body), log, sessionId, close);
  }

  lemma ClosingKeeps(st: State, close: Close)
    ensures var closing := AtClose(st, close);
            && closing.conversationId == st.conversationId && closing.turnId == st.turnId
            && closing.startedAt == st.startedAt && closing.current == st.current
            && closing.invalidReason == (if close.Task? && close.turnId != st.turnId then "identity_conflict"
                 else if close.OtherSession? then "identity_conflict"
                 else if close.Abort? then "turn_cancelled" else st.invalidReason)
  {
  }

  lemma EndingEnds(st: State, log: TurnLog, close: Close)
    requires st.turnId == log.turnId
    ensures var ending := EndingOf(log, close);
            && (!close.Abort? ==> CompletedAt(st, ending) == EndedAt(log, close))
            && (ending.Completed? <==> close.Task?) && (ending.Completed? ==> ending.turnId == close.turnId)
            && (ending.Open? ==> CompletedAt(st, ending).None?)
  {
    hide LastSaid;
  }

  lemma ReasonByParts(st: State, ending: Ending, flaw: string, log: TurnLog, sessionId: string, close: Close)
    requires flaw == FlawAfter(log.turnId, FlawAfter("", "", log.lead), log.body)
    requires st.conversationId == sessionId && st.turnId == log.turnId != "" && st.startedAt == BeganAt(log)
    requires Query(st.current) == Asked(log) && Answer(st.current) == Replied(log)
    requires st.invalidReason == (if close.Task? && close.turnId != log.turnId then "identity_conflict"
               else if close.OtherSession? then "identity_conflict"
               else if close.Abort? then "turn_cancelled" else flaw)
    requires (!close.Abort? ==> CompletedAt(st, ending) == EndedAt(log, close))
               && (ending.Completed? <==> close.Task?) && (ending.Completed? ==> ending.turnId == close.turnId)
               && (ending.Open? ==> CompletedAt(st, ending).None?)
    ensures FinishReason(st, ending) == WhyNot(log, sessionId, close)
  {
    hide FlawAfter, BeganAt, Asked, Replied, Query, Answer, EndedAt, CompletedAt, Blank;
  }

  lemma KnowsWords(st: State, before: seq<LogEvent>, log: TurnLog, sessionId: string)
    requires Knows(st, before, log, sessionId)
    ensures st.conversationId == sessionId && st.turnId == log.turnId && st.startedAt == BeganAt(log)
    ensures st.invalidReason == FlawAfter(log.turnId, FlawAfter("", "", log.lead), log.body)
    ensures Query(st.current) == Asked(log) && Answer(st.current) == Replied(log)
  {
    hide FlawAfter, BeganAt, Texts, Contents, Spoken, LastSaid, Told;
  }

  lemma TurnIsTold(env: Env, st: State, before: seq<LogEvent>, log: TurnLog, sessionId: string, close: Close)
    requires Knows(st, before, log, sessionId) && log.turnId != ""
    ensures var turn := FinishTurn(env, AtClose(st, close), EndingOf(log, close));
            && (turn.Some? <==> WhyNot(log, sessionId, close) == "")
            && (turn.Some? ==> Tells(env, before, log, sessionId, close, turn.value))
  {
    hide FlawAfter, BeganAt, Texts, Contents, Spoken, LastSaid, Told, FinishReason, WhyNot, EndsWithFinalAnswer,
        Answers, AnsweredAt;
    ReasonIsTold(st, before, log, sessionId, close);
    FinalAnswerIsKnown(st, before, log, sessionId);
    BeganWhenCaptured(log, sessionId, close);
  }

  lemma BeganWhenCaptured(log: TurnLog, sessionId: string, close: Close)
    ensures WhyNot(log, sessionId, close) == "" ==>
              BeganAt(log).Some? && EndedAt(log, close).Some? && (close.Task? ==> close.turnId == log.turnId)
                  && (close.Task? || (close.StopKnown? && Answers(log)))
  {
  }

  /** The record that ends the turn, if there is one. */
  function Ending(close: Close): seq<LogEvent> {
    match close
    case Task(at, id, failed) => [JsonlLines.Record(Entry(at, TaskComplete(id, failed)))]
    case Abort(at) => [JsonlLines.Record(Entry(at, TaskAborted))]
    case NextTurn(at, nextId, model, cwd) => [JsonlLines.Record(Entry(at, TurnStart(nextId, model, cwd)))]
    case OtherSession(at, nextSession, cwd) => [JsonlLines.Record(Entry(at, SessionMeta(nextSession, cwd)))]
    case _ => []
  }

  /** What the reader has staged when the turn is over. */
  function StagedAt(env: Env, fileId: string, before: seq<LogEvent>, log: TurnLog, sessionId: string,
      close: Close): seq<RawMessage> {
    match close
    case StopKnown => Rollout(env, fileId, before + Told(log), Some(Stop(sessionId, log.turnId)))
    case Unknown => Rollout(env, fileId, before + Told(log), None)
    case _ => Run(env, fileId, INITIAL, before + Told(log) + Ending(close)).1
  }

  /** Codex talking to itself, or nobody saying anything. */
  predicate Silent(log: TurnLog) {
    LastSaid(Told(log)).None? || ModelAfter(log.model, log.body) == "codex-auto-review"
  }

  ghost predicate IsBlock(env: Env, before: seq<LogEvent>, log: TurnLog, sessionId: string, close: Close,
      messages: seq<RawMessage>, input: StageInput) {
    && messages != [] && UnstagedInput(messages)
    && Contents(messages, User) == Texts(UserItem, Told(log))
    && Contents(messages, Assistant) == Texts(AssistantItem, Told(log))
    && input == StageInput(log.turnId, None, None, WhyNot(log, sessionId, close), input.turn)
    && (input.turn.Some? <==> input.reason == "")
    && (input.turn.Some? ==> Tells(env, before, log, sessionId, close, input.turn.value))
  }

  lemma FinishStages(env: Env, fileId: string, st: State, before: seq<LogEvent>, log: TurnLog, sessionId: string,
      close: Close) returns (messages: seq<RawMessage>, input: StageInput)
    requires Knows(st, before, log, sessionId) && log.turnId != ""
    ensures IsBlock(env, before, log, sessionId, close, messages, input) || Silent(log)
    ensures Finish(env, fileId, AtClose(st, close), EndingOf(log, close)).1
        == if Silent(log) then [] else StageSourceTurnMessages(messages, input)
    ensures Expected(st.current, sessionId) && sessionId != "" ==> Expected(messages, sessionId)
    ensures messages == st.current + if close.Task? && close.at.Some?
        then [CompletionMessage(fileId, AtClose(st, close), close.at.value)] else []
  {
    hide StageSourceTurnMessages, FinishReason, FinishTurn, Tells, WhyNot, Told, ModelAfter, EndsWithFinalAnswer,
        FlawAfter, BeganAt, Texts, Contents, Directory, CallsIn, ResultsIn;
    var closing, ending := AtClose(st, close), EndingOf(log, close);
    ReasonIsTold(st, before, log, sessionId, close);
    TurnIsTold(env, st, before, log, sessionId, close);
    var completion := if ending.Completed? && ending.at.Some?
        then [CompletionMessage(fileId, closing, ending.at.value)] else [];
    messages := st.current + completion;
    SpokenPrefix(st.current, completion);
    input := StageInput(log.turnId, None, None, WhyNot(log, sessionId, close), FinishTurn(env, closing, ending));
    if st.current == [] {
      NothingSaid();
    }
  }

  /** A completion record leaves a message of its own. */
  function ClosingWords(before: seq<LogEvent>, log: TurnLog, close: Close): seq<Saying> {
    if close.Task? && close.at.Some?
    then [Saying(Lines(before) + Lines(Told(log)) + 1, System, "Codex task_complete", close.at.value, "", "")] else []
  }

  lemma ClosingIsHeard(env: Env, fileId: string, before: seq<LogEvent>, log: TurnLog, st: State, close: Close)
    requires Says(env, Lines(before), Told(log), st)
    ensures Heard(st.current + if close.Task? && close.at.Some?
              then [CompletionMessage(fileId, AtClose(st, close), close.at.value)] else [])
        == Sayings(env, Lines(before), Told(log)) + ClosingWords(before, log, close)
  {
    hide Sayings, Told;
    if close.Task? && close.at.Some? {
      HeardSnoc(st.current, CompletionMessage(fileId, AtClose(st, close), close.at.value));
    } else {
      assert st.current + [] == st.current && Sayings(env, Lines(before), Told(log)) + []
          == Sayings(env, Lines(before), Told(log));
    }
  }

  /** The records of a turn, and how it ends, decide what is staged for it. */
  lemma TurnIsCaptured(env: Env, fileId: string, before: seq<LogEvent>, log: TurnLog, sessionId: string, close: Close)
      returns (messages: seq<RawMessage>, input: StageInput)
    requires Renders(env) && OfOneTurn(log, sessionId)
    requires AtRest(Run(env, fileId, INITIAL, before).0, sessionId) && Replaces(close, log.turnId, sessionId)
    ensures IsBlock(env, before, log, sessionId, close, messages, input) || Silent(log)
    ensures StagedAt(env, fileId, before, log, sessionId, close)
        == Run(env, fileId, INITIAL, before).1 + if Silent(log) then [] else StageSourceTurnMessages(messages, input)
    ensures sessionId != "" ==> Expected(messages, sessionId)
    ensures Heard(messages) == Sayings(env, Lines(before), Told(log)) + ClosingWords(before, log, close)
  {
    hide StageSourceTurnMessages, Knows, Run, Finish, IsBlock, Silent, OfOneTurn, EndsWithFinalAnswer, Answers, Says,
        Told, Renders;
    OpenTurn(env, fileId, before, log, sessionId);
    var st := Run(env, fileId, INITIAL, before + Told(log)).0;
    assert log.turnId != "" by { NamedTurn(log, sessionId); }
    messages, input := FinishStages(env, fileId, st, before, log, sessionId, close);
    ClosesWith(env, fileId, st, before, log, sessionId, close);
    OpenTurnSays(env, fileId, before, log, sessionId);
    ClosingIsHeard(env, fileId, before, log, st, close);
    if sessionId != "" {
      OpenIsExpected(env, fileId, before, log, sessionId);
    }
  }

  lemma NamedTurn(log: TurnLog, sessionId: string)
    requires OfOneTurn(log, sessionId)
    ensures log.turnId != ""
  {
  }

  lemma ClosesWith(env: Env, fileId: string, st: State, before: seq<LogEvent>, log: TurnLog, sessionId: string,
      close: Close)
    requires st == Run(env, fileId, INITIAL, before + Told(log)).0 && Knows(st, before, log, sessionId)
    requires log.turnId != "" && Replaces(close, log.turnId, sessionId)
    ensures StagedAt(env, fileId, before, log, sessionId, close)
        == Run(env, fileId, INITIAL, before + Told(log)).1
           + Finish(env, fileId, AtClose(st, close), EndingOf(log, close)).1
  {
    hide Run, Finish, Told, Answers, AnsweredAt, EndsWithFinalAnswer;
    FinalAnswerIsKnown(st, before, log, sessionId);
    KnowsNames(st, before, log, sessionId);
    hide Knows;
    if !close.StopKnown? && !close.Unknown? {
      RunAppend(env, fileId, INITIAL, before + Told(log), Ending(close));
      RunOne(env, fileId, st, Ending(close)[0]);
      CloseFinishes(env, fileId, st, close, log, sessionId);
    }
  }

  /** The record that ends a turn finishes it. */
  lemma CloseFinishes(env: Env, fileId: string, st: State, close: Close, log: TurnLog, sessionId: string)
    requires st.conversationId == sessionId && st.turnId == log.turnId != "" && Replaces(close, log.turnId, sessionId)
    requires Ending(close) != []
    ensures Step(env, fileId, st, Ending(close)[0]).1
        == Finish(env, fileId, AtClose(st, close), EndingOf(log, close)).1
  {
    hide Finish, Told, Answers, AnsweredAt, StartedAt;
  }

  lemma KnowsNames(st: State, before: seq<LogEvent>, log: TurnLog, sessionId: string)
    requires Knows(st, before, log, sessionId)
    ensures st.conversationId == sessionId && st.turnId == log.turnId
  {
  }

  lemma OpenIsExpected(env: Env, fileId: string, before: seq<LogEvent>, log: TurnLog, sessionId: string)
    requires OfOneTurn(log, sessionId) && AtRest(Run(env, fileId, INITIAL, before).0, sessionId) && sessionId != ""
    ensures Expected(Run(env, fileId, INITIAL, before + Told(log)).0.current, sessionId)
  {
    hide Run, AnsweredIn;
    var rest, other := Run(env, fileId, INITIAL, before).0, log.turnId + "'";
    forall e | e in Told(log) ensures Later(sessionId, other, e) {
      assert other != log.turnId && other != "";
    }
    RunPast(env, fileId, sessionId, other, rest, Told(log));
    RunAppend(env, fileId, INITIAL, before, Told(log));
  }

  // ---------------------------------------------------------------------------------------
  // The turn that is selected
  // ---------------------------------------------------------------------------------------

  ghost predicate Selects(env: Env, before: seq<LogEvent>, log: TurnLog, sessionId: string, close: Close,
      selection: Selection) {
    if Silent(log) then selection == Missing("identity_unresolved")
    else if WhyNot(log, sessionId, close) != "" then selection == Missing(WhyNot(log, sessionId, close))
    else selection.Found? && Tells(env, before, log, sessionId, close, selection.turn)
  }

  lemma BlockIsSelected(env: Env, before: seq<LogEvent>, log: TurnLog, sessionId: string, close: Close,
      out: seq<RawMessage>, messages: seq<RawMessage>, input: StageInput, later: seq<RawMessage>)
    requires IsNew(out, sessionId, log.turnId) && IsNew(later, sessionId, log.turnId) && log.turnId != ""
        && sessionId != ""
    requires Silent(log) || IsBlock(env, before, log, sessionId, close, messages, input)
    requires Expected(messages, sessionId)
    ensures var block := if Silent(log) then [] else StageSourceTurnMessages(messages, input);
            Selects(env, before, log, sessionId, close, Selected(out + block + later, sessionId, log.turnId))
  {
    hide StageSourceTurnMessages, Tells, WhyNot, Silent, Selected;
    if Silent(log) {
      assert out + [] + later == out + later;
      NoBlockIsSelected(out + later, sessionId, log.turnId);
    } else {
      if input.turn.Some? {
        TellsIdentity(env, before, log, sessionId, close, input.turn.value);
      }
      OnlyBlockIsSelected(out, messages, input, later, sessionId);
    }
  }

  lemma TellsIdentity(env: Env, before: seq<LogEvent>, log: TurnLog, sessionId: string, close: Close, turn: SourceTurn)
    requires Tells(env, before, log, sessionId, close, turn) && log.turnId != "" && sessionId != ""
    ensures Identified(turn)
  {
    hide Texts, LastSaid, Directory, CallsIn, ResultsIn, Told, Answers;
  }

  /** The scan: a completion record ends the turn, and the log goes on. */
  lemma CompletedTurnIsSelected(env: Env, fileId: string, before: seq<LogEvent>, log: TurnLog, sessionId: string,
      at: Option<Time>, failed: bool, later: seq<LogEvent>)
    requires Renders(env) && OfOneTurn(log, sessionId) && sessionId != ""
    requires var (rest, out) := Run(env, fileId, INITIAL, before);
             AtRest(rest, sessionId) && IsNew(out, sessionId, log.turnId)
    requires forall e | e in later :: Later(sessionId, log.turnId, e)
    ensures var close := Task(at, log.turnId, failed);
            var ends := JsonlLines.Record(Entry(at, TaskComplete(log.turnId, failed)));
            var stream := Rollout(env, fileId, before + Told(log) + [ends] + later, None);
            Selects(env, before, log, sessionId, close, Selected(stream, sessionId, log.turnId))
  {
    hide Run, Rollout, StageSourceTurnMessages, Silent, IsBlock, OfOneTurn, Selects, IsNew, AtRest, Told, Later,
        Selected, Renders;
    var close := Task(at, log.turnId, failed);
    var whole := before + Told(log) + [JsonlLines.Record(Entry(at, TaskComplete(log.turnId, failed)))];
    var messages, input := TurnIsCaptured(env, fileId, before, log, sessionId, close);
    NamedTurn(log, sessionId);
    TaskCloses(env, fileId, before + Told(log), log.turnId, at, failed);
    TurnStaysNamed(env, fileId, before, log, sessionId);
    var others := LaterFollows(env, fileId, whole, later, sessionId, log.turnId);
    BlockIsSelected(env, before, log, sessionId, close, Run(env, fileId, INITIAL, before).1, messages, input, others);
  }

  /** What a log stages after a point at which nothing is open. */
  lemma LaterFollows(env: Env, fileId: string, log: seq<LogEvent>, later: seq<LogEvent>, sessionId: string,
      turnId: string) returns (others: seq<RawMessage>)
    requires turnId != "" && forall e | e in later :: Later(sessionId, turnId, e)
    requires var st := Run(env, fileId, INITIAL, log).0;
             st.turnId == "" && st.current == [] && st.conversationId == sessionId
    ensures IsNew(others, sessionId, turnId)
    ensures Rollout(env, fileId, log + later, None) == Run(env, fileId, INITIAL, log).1 + others
  {
    hide Run, AtEnd, Later;
    var closed := Run(env, fileId, INITIAL, log).0;
    ScanTail(env, fileId, closed, later, sessionId, turnId);
    RunAppend(env, fileId, INITIAL, log, later);
    var (last, more) := Run(env, fileId, closed, later);
    others := more + AtEnd(env, fileId, last, None);
    assert Run(env, fileId, INITIAL, log).1 + more + AtEnd(env, fileId, last, None)
        == Run(env, fileId, INITIAL, log).1 + others;
  }

  lemma TurnStaysNamed(env: Env, fileId: string, before: seq<LogEvent>, log: TurnLog, sessionId: string)
    requires Renders(env) && OfOneTurn(log, sessionId) && AtRest(Run(env, fileId, INITIAL, before).0, sessionId)
    ensures Run(env, fileId, INITIAL, before + Told(log)).0.conversationId == sessionId
  {
    hide Run, Knows;
    OpenTurn(env, fileId, before, log, sessionId);
    KnowsNames(Run(env, fileId, INITIAL, before + Told(log)).0, before, log, sessionId);
  }

  /** After a completion record nothing is open. */
  lemma TaskCloses(env: Env, fileId: string, log: seq<LogEvent>, turnId: string, at: Option<Time>, failed: bool)
    ensures var ends := JsonlLines.Record(Entry(at, TaskComplete(turnId, failed)));
            var closed := Run(env, fileId, INITIAL, log + [ends]).0;
            && closed.turnId == "" && closed.current == []
            && closed.conversationId == Run(env, fileId, INITIAL, log).0.conversationId
  {
    var ends := JsonlLines.Record(Entry(at, TaskComplete(turnId, failed)));
    RunAppend(env, fileId, INITIAL, log, [ends]);
    RunOne(env, fileId, Run(env, fileId, INITIAL, log).0, ends);
    hide Run;
  }

  /** The hook: the log stops, and what is known of the end is that Codex stopped. */
  lemma StoppedTurnIsSelected(env: Env, fileId: string, before: seq<LogEvent>, log: TurnLog, sessionId: string)
    requires Renders(env) && OfOneTurn(log, sessionId) && sessionId != ""
    requires var (rest, out) := Run(env, fileId, INITIAL, before);
             AtRest(rest, sessionId) && IsNew(out, sessionId, log.turnId)
    ensures var stream := Rollout(env, fileId, before + Told(log), Some(Stop(sessionId, log.turnId)));
            Selects(env, before, log, sessionId, StopKnown, Selected(stream, sessionId, log.turnId))
  {
    hide Run, Rollout, StageSourceTurnMessages, Silent, IsBlock, OfOneTurn, Selects;
    var messages, input := TurnIsCaptured(env, fileId, before, log, sessionId, StopKnown);
    NamedTurn(log, sessionId);
    var out := Run(env, fileId, INITIAL, before).1;
    BlockIsSelected(env, before, log, sessionId, StopKnown, out, messages, input, []);
    var block := if Silent(log) then [] else StageSourceTurnMessages(messages, input);
    assert out + block + [] == out + block;
  }
}