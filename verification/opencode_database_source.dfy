/**
 Both generations of the OpenCode database as one kind of source
 (AgentSourceCore/src/opencode-database-source.ts). The first generation stores messages and parts;
 the second stores session messages, keeps the old tables after migrating, and marks the end of a
 turn with an idle row.
 */
module OpencodeDatabaseSource {
  import opened Wrappers
  import opened SourceTurns
  import opened Text
  import opened OpencodeSourceTurn

  /** The first generation's tables, for one session and in order. */
  datatype LegacyTables = LegacyTables(messages: seq<Message>, parts: map<string, seq<Part>>)

  /** An item of an assistant's content. */
  datatype ContentItem =
    | ToolItem(id: string, name: string, executed: bool, status: string, interrupted: bool,
               input: Option<Payload>, texts: seq<string>, errorMessage: string)
    | PlainItem(part: Part)

  /** One row of `session_message`. */
  datatype NativeRow = NativeRow(id: string, content: RowContent)

  datatype RowContent =
    | AgentSwitched(agent: string)
    | UserRow(created: Option<Time>, text: string)
    | AssistantRow(data: Data, items: seq<ContentItem>)
    | IdleRow(outcome: string, at: Option<Time>)
    | OtherRow

  function LegacyParts(legacy: LegacyTables, id: string): seq<Part> {
    if id in legacy.parts then legacy.parts[id] else []
  }

  function V1Source(tables: LegacyTables): Source {
    Source(tables.messages, tables.parts)
  }

  function PartOf(item: ContentItem): Part {
    match item
    case PlainItem(part) => part
    case ToolItem(id, name, executed, status, interrupted, input, texts, errorMessage) =>
      var output := Join(texts, "\n");
      ToolPart(id, name, status, executed, interrupted, input,
          Some(if status == "error" then Otherwise(errorMessage, output) else output), None)
  }

  function PartsOfItems(items: seq<ContentItem>): seq<Part> {
    seq(|items|, i requires 0 <= i < |items| => PartOf(items[i]))
  }

  // ---------------------------------------------------------------------------------------
  // Specification
  // ---------------------------------------------------------------------------------------

  function Ids(rows: seq<NativeRow>): set<string> {
    set r | r in rows :: r.id
  }

  /** Who decides whether a legacy message is shown: an assistant's user, or the message itself. */
  function Owner(message: Message): string {
    if message.data.role == AssistantMessage then message.data.parentID else message.id
  }

  /** A legacy message keeps its slot; its content is shown only if its owner was migrated and still exists. */
  function LegacySlot(message: Message, migrated: set<string>): Message {
    if Owner(message) in migrated then message else Message(message.id, NO_DATA)
  }

  function LegacySlots(messages: seq<Message>, migrated: set<string>): (slots: seq<Message>)
    ensures |slots| == |messages|
  {
    seq(|messages|, i requires 0 <= i < |messages| => LegacySlot(messages[i], migrated))
  }

  function LegacyPartsShown(legacy: LegacyTables, messages: seq<Message>,
      migrated: set<string>): map<string, seq<Part>> {
    if messages == [] then map[]
    else
      var shown, last := LegacyPartsShown(legacy, messages[..|messages| - 1], migrated), Last(messages);
      if Owner(last) in migrated then shown[last.id := LegacyParts(legacy, last.id)] else shown
  }

  function LegacyIds(messages: seq<Message>): set<string> {
    set m | m in messages :: m.id
  }

  /** The legacy tables count only when one of their messages was migrated. */
  function Migrated(legacy: LegacyTables, migrated: set<string>): LegacyTables {
    if exists m | m in legacy.messages :: m.id in migrated then legacy else LegacyTables([], map[])
  }

  /** `openAssistants` are positions in `result`, whose assistants the next idle row closes. */
  datatype Feed = Feed(
    parentID: string, agent: string, openAssistants: seq<nat>, result: seq<Message>, parts: map<string, seq<Part>>)

  function Closed(data: Data, outcome: string, at: Option<Time>): Data {
    data.(
      nativeTurnCompleted := true, nativeTurnPending := false,
      nativeFailed := data.nativeFailed || outcome == "failed" || outcome == "interrupted",
      aborted := data.aborted || outcome == "interrupted",
      completed := at)
  }

  function CloseAll(result: seq<Message>, open: seq<nat>, outcome: string, at: Option<Time>): (closed: seq<Message>)
    ensures |closed| == |result|
  {
    seq(|result|, i requires 0 <= i < |result| => if i in open
        then result[i].(data := Closed(result[i].data, outcome, at)) else result[i])
  }

  const USER_DATA := NO_DATA.(role := UserMessage)

  function NativeStep(legacyIds: set<string>, st: Feed, row: NativeRow): Feed {
    if row.id in legacyIds then st
    else match row.content
      case AgentSwitched(agent) => st.(agent := agent)
      case UserRow(created, text) =>
        Feed(row.id, st.agent, [], st.result + [Message(row.id, USER_DATA.(created := created))],
            st.parts[row.id := [TextPart(text)]])
      case AssistantRow(data, items) =>
        if st.parentID == "" then st
        else
          var assistant := data.(nativeTurnPending := true, role := AssistantMessage, parentID := st.parentID,
              agent := Otherwise(data.agent, st.agent));
          st.(openAssistants := st.openAssistants + [|st.result|], result := st.result + [Message(row.id, assistant)],
              parts := st.parts[row.id := PartsOfItems(items)])
      case IdleRow(outcome, at) =>
        st.(result := CloseAll(st.result, st.openAssistants, outcome, at), parentID := "", openAssistants := [])
      case OtherRow => st
  }

  function NativeRun(legacyIds: set<string>, st: Feed, rows: seq<NativeRow>): Feed {
    if rows == [] then st else NativeStep(legacyIds, NativeRun(legacyIds, st, rows[..|rows| - 1]), Last(rows))
  }

  function Start(legacy: LegacyTables, migrated: set<string>): Feed {
    Feed("", "", [], LegacySlots(legacy.messages, migrated), LegacyPartsShown(legacy, legacy.messages, migrated))
  }

  /** The second generation as a source; `legacy` is empty when the old tables are gone. */
  function V2State(legacy: LegacyTables, rows: seq<NativeRow>): Feed {
    var shown := Migrated(legacy, Ids(rows));
    NativeRun(LegacyIds(shown.messages), Start(shown, Ids(rows)), rows)
  }

  function V2Source(legacy: LegacyTables, rows: seq<NativeRow>): Source {
    Source(V2State(legacy, rows).result, V2State(legacy, rows).parts)
  }

  // ---------------------------------------------------------------------------------------
  // The adapter
  // ---------------------------------------------------------------------------------------

  method ReadLegacy(legacy: LegacyTables, migratedIds: set<string>)
    returns (result: seq<Message>, currentParts: map<string, seq<Part>>, legacyIds: set<string>)
    ensures result == LegacySlots(legacy.messages, migratedIds)
    ensures currentParts == LegacyPartsShown(legacy, legacy.messages, migratedIds)
    ensures legacyIds == LegacyIds(legacy.messages)
  {
    result, currentParts, legacyIds := [], map[], {};
    for i := 0 to |legacy.messages|
      invariant result == LegacySlots(legacy.messages[..i], migratedIds)
      invariant currentParts == LegacyPartsShown(legacy, legacy.messages[..i], migratedIds)
      invariant legacyIds == LegacyIds(legacy.messages[..i])
    {
      var row := legacy.messages[i];
      assert legacy.messages[..i + 1] == legacy.messages[..i] + [row]
          && legacy.messages[..i + 1][..i] == legacy.messages[..i];
      legacyIds := legacyIds + {row.id};
      var visible := Owner(row) in migratedIds;
      result := result + [Message(row.id, if visible then row.data else NO_DATA)];
      if !visible { continue; }
      currentParts := currentParts[row.id := LegacyParts(legacy, row.id)];
    }
    assert legacy.messages[..|legacy.messages|] == legacy.messages;
  }

  /** `messages()` of the second generation; idle rows change assistants that are already in the result. */
  method ReadMessages(legacy: LegacyTables, rows: seq<NativeRow>)
    returns (result: seq<Message>, currentParts: map<string, seq<Part>>)
    ensures Source(result, currentParts) == V2Source(legacy, rows)
  {
    hide LegacySlots, LegacyPartsShown, PartsOfItems, Closed;
    var migratedIds := Ids(rows);
    var shown := if exists m | m in legacy.messages :: m.id in migratedIds then legacy else LegacyTables([], map[]);
    var legacyIds;
    result, currentParts, legacyIds := ReadLegacy(shown, migratedIds);
    var parentID, agent := "", "";
    var turnAssistants: seq<nat> := [];
    ghost var start := Start(shown, migratedIds);
    for i := 0 to |rows|
      invariant forall k | k in turnAssistants :: k < |result|
      invariant Feed(parentID, agent, turnAssistants, result, currentParts) == NativeRun(legacyIds, start, rows[..i])
    {
      var row := rows[i];
      assert rows[..i + 1][..i] == rows[..i];
      if row.id in legacyIds { continue; }
      match row.content
      case AgentSwitched(name) => agent := name;
      case UserRow(created, text) =>
        parentID := row.id;
        turnAssistants := [];
        result := result + [Message(row.id, USER_DATA.(created := created))];
        currentParts := currentParts[row.id := [TextPart(text)]];
      case AssistantRow(data, items) =>
        if parentID == "" { continue; }
        turnAssistants := turnAssistants + [|result|];
        result := result + [Message(row.id,
            data.(nativeTurnPending := true, role := AssistantMessage, parentID := parentID,
                                                  agent := Otherwise(data.agent, agent)))];
        currentParts := currentParts[row.id := PartsOfItems(items)];
      case IdleRow(outcome, at) =>
        result := CloseAssistants(result, turnAssistants, outcome, at);
        parentID := "";
        turnAssistants := [];
      case OtherRow =>
    }
    assert rows[..|rows|] == rows;
  }

  method CloseAssistants(messages: seq<Message>, turnAssistants: seq<nat>, outcome: string, at: Option<Time>)
    returns (result: seq<Message>)
    requires forall k | k in turnAssistants :: k < |messages|
    ensures result == CloseAll(messages, turnAssistants, outcome, at)
  {
    result := messages;
    for k := 0 to |turnAssistants|
      invariant result == CloseAll(messages, turnAssistants[..k], outcome, at)
    {
      var index := turnAssistants[k];
      assert turnAssistants[..k + 1] == turnAssistants[..k] + [index] && index in turnAssistants;
      result := result[index := messages[index].(data := Closed(messages[index].data, outcome, at))];
    }
    assert turnAssistants[..|turnAssistants|] == turnAssistants;
  }
}
