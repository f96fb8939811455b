/**
 The shared contract of all native readers (AgentSourceCore/src/source-turn.ts): pairing tool
 calls with results, staging the messages of one turn, and the two ways a turn is picked out
 of staged messages - by the scan, from a finished group, and by the hook, from the stream.

 Times are milliseconds. A text field holds "" where the source holds `undefined`, except
 where the difference is observable. A payload is the JSON text of an `unknown` value.
 */
module SourceTurns {
  import opened Wrappers

  type Time = int
  type Payload = string

  datatype Role = User | Assistant | Tool | System
  datatype Status = Succeeded | Failed

  datatype ToolResult = ToolResult(
    id: Option<string>, output: Option<Payload>, status: Option<string>,
    success: Option<bool>, error: Option<Payload>)

  /** A call carries the same optional fields as a result, and a name and an input of its own. */
  datatype ToolCall = ToolCall(name: string, input: Option<Payload>, data: ToolResult)

  datatype SourceTurn = SourceTurn(
    source: string, conversationId: string, turnId: string, profileId: string,
    startedAt: Time, completedAt: Time, sequence: int, completionEvidence: string,
    query: string, answer: string, status: Status,
    toolCalls: seq<ToolCall>, toolResults: seq<ToolResult>, workspacePath: string)

  /** Staged message ids are printed from their parts; only their identity matters here. */
  datatype MessageId =
    | Native(id: string)
    | Line(file: string, line: nat)
    | Row(session: string, row: int)
    | CallOf(message: MessageId, index: nat)

  datatype Meta = Meta(
    turnId: string, sequence: Option<int>, startedAt: Option<Time>,
    state: Option<string>, reason: string, turn: Option<SourceTurn>,
    recordId: string, phase: string)

  const NO_META := Meta("", None, None, None, "", None, "", "")

  datatype RawMessage = RawMessage(
    messageId: MessageId, conversationId: string, role: Role, content: string,
    createdAt: Time, ordinal: int, meta: Meta)

  /** Redaction and rendering are supplied by modules that are not modelled. */
  datatype Env = Env(
    redact: string -> string, redactCall: ToolCall -> ToolCall, redactResult: ToolResult -> ToolResult,
    renderTool: ToolCall -> string)

  function MapCalls(f: ToolCall -> ToolCall, calls: seq<ToolCall>): seq<ToolCall> {
    seq(|calls|, i requires 0 <= i < |calls| => f(calls[i]))
  }

  function MapResults(f: ToolResult -> ToolResult, results: seq<ToolResult>): seq<ToolResult> {
    seq(|results|, i requires 0 <= i < |results| => f(results[i]))
  }

  // ---------------------------------------------------------------------------------------
  // Pairing
  // ---------------------------------------------------------------------------------------

  predicate HasId(result: ToolResult, id: string) {
    id != "" && result.id == Some(id)
  }

  function Overlay<T>(under: Option<T>, over: Option<T>): Option<T> {
    if over.Some? then over else under
  }

  /** `{ ...call, ...result, name: call.name, input: call.input }` */
  function Merge(call: ToolCall, result: ToolResult): ToolCall {
    call.(data := ToolResult(
      Overlay(call.data.id, result.id), Overlay(call.data.output, result.output),
      Overlay(call.data.status, result.status), Overlay(call.data.success, result.success),
      Overlay(call.data.error, result.error)))
  }

  function ResultsFor(results: seq<ToolResult>, id: string): seq<ToolResult> {
    if results == [] then []
    else ResultsFor(results[..|results| - 1], id) + (if HasId(Last(results), id) then [Last(results)] else [])
  }

  function CallsFor(calls: seq<ToolCall>, id: string): seq<ToolCall> {
    if calls == [] then []
    else CallsFor(calls[..|calls| - 1], id) + (if HasId(Last(calls).data, id) then [Last(calls)] else [])
  }

  function PairedCall(call: ToolCall, calls: seq<ToolCall>, results: seq<ToolResult>): ToolCall {
    if call.data.id.Some? && |CallsFor(calls, call.data.id.value)| == 1
        && |ResultsFor(results, call.data.id.value)| == 1
    then Merge(call, ResultsFor(results, call.data.id.value)[0])
    else call
  }

  function PairedCalls(calls: seq<ToolCall>, results: seq<ToolResult>): seq<ToolCall> {
    seq(|calls|, i requires 0 <= i < |calls| => PairedCall(calls[i], calls, results))
  }

  /** The two tables built from the results say which ids occur, first where, and which occur again. */
  ghost predicate IndexesResults(byId: map<string, ToolResult>, duplicates: set<string>, results: seq<ToolResult>) {
    forall id ::
      && (id in byId <==> ResultsFor(results, id) != [])
      && (id in byId ==> byId[id] == ResultsFor(results, id)[0])
      && (id in duplicates <==> |ResultsFor(results, id)| > 1)
  }

  ghost predicate CountsCalls(counts: map<string, nat>, calls: seq<ToolCall>) {
    forall id :: (if id in counts then counts[id] else 0) == |CallsFor(calls, id)|
  }

  lemma ResultsForSnoc(results: seq<ToolResult>, result: ToolResult)
    ensures forall id ::
        ResultsFor(results + [result], id) == ResultsFor(results, id) + if HasId(result, id) then [result] else []
  {
  }

  lemma CallsForSnoc(calls: seq<ToolCall>, call: ToolCall)
    ensures forall id ::
        CallsFor(calls + [call], id) == CallsFor(calls, id) + if HasId(call.data, id) then [call] else []
  {
  }

  lemma IndexResult(byId: map<string, ToolResult>, duplicates: set<string>, results: seq<ToolResult>,
      result: ToolResult)
    requires IndexesResults(byId, duplicates, results)
    ensures var id := if result.id.Some? then result.id.value else "";
            IndexesResults(if id != "" && id !in byId then byId[id := result] else byId,
                           if id != "" && id in byId then duplicates + {id} else duplicates, results + [result])
  {
  }

  lemma CountCall(counts: map<string, nat>, calls: seq<ToolCall>, call: ToolCall)
    requires CountsCalls(counts, calls)
    ensures var id := if call.data.id.Some? then call.data.id.value else "";
            CountsCalls(if id != "" then counts[id := (if id in counts then counts[id] else 0) + 1]
                else counts, calls + [call])
  {
  }

  method PairSourceToolCalls(toolCalls: seq<ToolCall>, toolResults: seq<ToolResult>) returns (paired: seq<ToolCall>)
    ensures paired == PairedCalls(toolCalls, toolResults)
  {
    hide PairedCall, CountsCalls, IndexesResults;
    EmptyTables();
    var resultsById: map<string, ToolResult> := map[];
    var duplicateIds: set<string> := {};
    for i := 0 to |toolResults|
      invariant IndexesResults(resultsById, duplicateIds, toolResults[..i])
    {
      var result := toolResults[i];
      var id := if result.id.Some? then result.id.value else "";
      IndexResult(resultsById, duplicateIds, toolResults[..i], result);
      assert toolResults[..i + 1] == toolResults[..i] + [result];
      if id == "" { continue; }
      if id in resultsById {
        duplicateIds := duplicateIds + {id};
      } else {
        resultsById := resultsById[id := result];
      }
    }
    var callCounts: map<string, nat> := map[];
    for i := 0 to |toolCalls|
      invariant CountsCalls(callCounts, toolCalls[..i])
    {
      var call := toolCalls[i];
      var id := if call.data.id.Some? then call.data.id.value else "";
      CountCall(callCounts, toolCalls[..i], call);
      assert toolCalls[..i + 1] == toolCalls[..i] + [call];
      if id != "" {
        callCounts := callCounts[id := (if id in callCounts then callCounts[id] else 0) + 1];
      }
    }
    assert toolResults[..|toolResults|] == toolResults && toolCalls[..|toolCalls|] == toolCalls;
    paired := [];
    for i := 0 to |toolCalls|
      invariant |paired| == i && forall k ::
          0 <= k < i ==> paired[k] == PairedCall(toolCalls[k], toolCalls, toolResults)
    {
      var call := toolCalls[i];
      var id := if call.data.id.Some? then call.data.id.value else "";
      UseTables(resultsById, duplicateIds, callCounts, toolCalls, toolResults, call);
      if id != "" && id in callCounts && callCounts[id] == 1 && id !in duplicateIds && id in resultsById {
        paired := paired + [Merge(call, resultsById[id])];
      } else {
        paired := paired + [call];
      }
    }
  }

  lemma EmptyTables()
    ensures IndexesResults(map[], {}, []) && CountsCalls(map[], [])
  {
  }

  lemma UseTables(byId: map<string, ToolResult>, duplicates: set<string>, counts: map<string, nat>,
                  calls: seq<ToolCall>, results: seq<ToolResult>, call: ToolCall)
    requires IndexesResults(byId, duplicates, results) && CountsCalls(counts, calls)
    ensures var id := if call.data.id.Some? then call.data.id.value else "";
            PairedCall(call, calls, results)
            == if id != "" && id in counts && counts[id] == 1 && id !in duplicates && id in byId
                then Merge(call, byId[id]) else call
  {
    NoBlankIds(calls);
  }

  lemma NoBlankIds(calls: seq<ToolCall>)
    ensures CallsFor(calls, "") == []
  {
  }

  ghost predicate SoleResult(results: seq<ToolResult>, j: nat, id: string) {
    j < |results| && HasId(results[j], id) && forall k :: 0 <= k < |results| && k != j ==> !HasId(results[k], id)
  }

  ghost predicate SoleCall(calls: seq<ToolCall>, i: nat, id: string) {
    i < |calls| && HasId(calls[i].data, id) && forall k :: 0 <= k < |calls| && k != i ==> !HasId(calls[k].data, id)
  }

  lemma {:induction false} ResultsForMember(results: seq<ToolResult>, id: string)
    ensures forall r :: r in ResultsFor(results, id) <==> r in results && HasId(r, id)
  {
    if results != [] {
      ResultsForMember(results[..|results| - 1], id);
      assert results == results[..|results| - 1] + [Last(results)];
    }
  }

  lemma {:induction false} SoleResultFiltered(results: seq<ToolResult>, id: string, j: nat)
    requires j < |results| && HasId(results[j], id)
    ensures SoleResult(results, j, id) <==> |ResultsFor(results, id)| == 1
    ensures SoleResult(results, j, id) ==> ResultsFor(results, id) == [results[j]]
  {
    hide ResultsFor;
    var n := |results| - 1;
    var front := results[..n];
    assert results == front + [Last(results)];
    ResultsForSnoc(front, Last(results));
    ResultsForMember(front, id);
    FirstIsMember(ResultsFor(front, id));
    if j < n {
      SoleResultFiltered(front, id, j);
      SoleResultInFront(results, id, j);
      assert front[j] in ResultsFor(front, id);
    } else if exists k :: 0 <= k < n && HasId(results[k], id) {
      var k :| 0 <= k < n && HasId(results[k], id);
      assert front[k] in ResultsFor(front, id);
    }
  }

  lemma SoleResultInFront(results: seq<ToolResult>, id: string, j: nat)
    requires j < |results| - 1
    ensures SoleResult(results, j, id) <==> SoleResult(results[..|results| - 1], j, id) && !HasId(Last(results), id)
  {
    var front := results[..|results| - 1];
    if SoleResult(front, j, id) && !HasId(Last(results), id) {
      forall k | 0 <= k < |results| && k != j ensures !HasId(results[k], id) {
        if k < |front| { assert results[k] == front[k]; }
      }
    }
    if SoleResult(results, j, id) {
      forall k | 0 <= k < |front| && k != j ensures !HasId(front[k], id) {
        assert results[k] == front[k];
      }
    }
  }

  lemma {:induction false} CallsForMember(calls: seq<ToolCall>, id: string)
    ensures forall c :: c in CallsFor(calls, id) <==> c in calls && HasId(c.data, id)
  {
    if calls != [] {
      CallsForMember(calls[..|calls| - 1], id);
      assert calls == calls[..|calls| - 1] + [Last(calls)];
    }
  }

  lemma {:induction false} SoleCallFiltered(calls: seq<ToolCall>, id: string, i: nat)
    requires i < |calls| && HasId(calls[i].data, id)
    ensures SoleCall(calls, i, id) <==> |CallsFor(calls, id)| == 1
  {
    hide CallsFor;
    var n := |calls| - 1;
    var front := calls[..n];
    assert calls == front + [Last(calls)];
    CallsForSnoc(front, Last(calls));
    CallsForMember(front, id);
    FirstIsMember(CallsFor(front, id));
    if i < n {
      SoleCallFiltered(front, id, i);
      assert front[i] in CallsFor(front, id);
      assert SoleCall(calls, i, id) <==> SoleCall(front, i, id) && !HasId(Last(calls).data, id);
    } else if exists k :: 0 <= k < n && HasId(calls[k].data, id) {
      var k :| 0 <= k < n && HasId(calls[k].data, id);
      assert front[k] in CallsFor(front, id);
    }
  }

  /** Each field of the result that is there takes the place of the call's. */
  predicate Carries(paired: ToolCall, call: ToolCall, result: ToolResult) {
    && paired.name == call.name && paired.input == call.input
    && paired.data.output == (if result.output.Some? then result.output else call.data.output)
    && paired.data.error == (if result.error.Some? then result.error else call.data.error)
    && paired.data.status == (if result.status.Some? then result.status else call.data.status)
    && paired.data.success == (if result.success.Some? then result.success else call.data.success)
    && paired.data.id == call.data.id
  }

  /** A call takes a result exactly when its non-blank id occurs once on each side, and then that one. */
  lemma PairingIsById(calls: seq<ToolCall>, results: seq<ToolResult>, i: nat)
    requires i < |calls|
    ensures PairedCalls(calls, results)[i].name == calls[i].name
        && PairedCalls(calls, results)[i].input == calls[i].input
    ensures forall id, j: nat :: SoleCall(calls, i, id) && SoleResult(results, j, id)
                                 ==> Carries(PairedCalls(calls, results)[i], calls[i], results[j])
    ensures (forall id, j: nat :: !(SoleCall(calls, i, id) && SoleResult(results, j, id)))
            ==> PairedCalls(calls, results)[i] == calls[i]
  {
    if calls[i].data.id.Some? {
      var id := calls[i].data.id.value;
      if id == "" {
        NoBlankIds(calls);
      } else {
        SoleCallFiltered(calls, id, i);
        forall j: nat | j < |results| && HasId(results[j], id)
          ensures SoleResult(results, j, id) <==> |ResultsFor(results, id)| == 1
          ensures SoleResult(results, j, id) ==> ResultsFor(results, id) == [results[j]]
        {
          SoleResultFiltered(results, id, j);
        }
        if |ResultsFor(results, id)| == 1 {
          ResultsForMember(results, id);
          assert ResultsFor(results, id)[0] in results;
          var j: nat :| j < |results| && results[j] == ResultsFor(results, id)[0];
          assert SoleResult(results, j, id);
        }
      }
    }
  }

  lemma {:induction false} ResultsForCount(results: seq<ToolResult>, id: string, r: ToolResult)
    ensures multiset(ResultsFor(results, id))[r] == if HasId(r, id) then multiset(results)[r] else 0
  {
    if results != [] {
      var front, last := results[..|results| - 1], Last(results);
      ResultsForCount(front, id, r);
      assert ResultsFor(results, id) == ResultsFor(front, id) + if HasId(last, id) then [last] else [];
      hide *;
      assert results == front + [last];
    }
  }

  lemma {:induction false} CallsForCount(calls: seq<ToolCall>, id: string, c: ToolCall)
    ensures multiset(CallsFor(calls, id))[c] == if HasId(c.data, id) then multiset(calls)[c] else 0
  {
    if calls != [] {
      var front, last := calls[..|calls| - 1], Last(calls);
      CallsForCount(front, id, c);
      assert CallsFor(calls, id) == CallsFor(front, id) + if HasId(last.data, id) then [last] else [];
      hide *;
      assert calls == front + [last];
    }
  }

  lemma PairedCallIgnoresPosition(call: ToolCall, calls: seq<ToolCall>, calls': seq<ToolCall>,
      results: seq<ToolResult>, results': seq<ToolResult>)
    requires multiset(calls) == multiset(calls') && multiset(results) == multiset(results')
    ensures PairedCall(call, calls, results) == PairedCall(call, calls', results')
  {
    hide CallsFor, ResultsFor;
    if call.data.id.Some? {
      var id := call.data.id.value;
      forall r ensures multiset(ResultsFor(results, id))[r] == multiset(ResultsFor(results', id))[r] {
        ResultsForCount(results, id, r);
        ResultsForCount(results', id, r);
      }
      SameMultiset(ResultsFor(results, id), ResultsFor(results', id));
      forall c ensures multiset(CallsFor(calls, id))[c] == multiset(CallsFor(calls', id))[c] {
        CallsForCount(calls, id, c);
        CallsForCount(calls', id, c);
      }
      SameMultiset(CallsFor(calls, id), CallsFor(calls', id));
    }
  }

  /** Position is never used: reordering results changes nothing, reordering calls only reorders the output. */
  lemma PairingIgnoresPosition(calls: seq<ToolCall>, calls': seq<ToolCall>, results: seq<ToolResult>,
      results': seq<ToolResult>)
    requires multiset(calls) == multiset(calls') && multiset(results) == multiset(results')
    ensures forall i, j :: 0 <= i < |calls| && 0 <= j < |calls'| && calls[i] == calls'[j]
                           ==> PairedCalls(calls, results)[i] == PairedCalls(calls', results')[j]
    ensures PairedCalls(calls, results) == PairedCalls(calls, results')
  {
    forall c ensures PairedCall(c, calls, results) == PairedCall(c, calls', results')
        == PairedCall(c, calls, results') {
      PairedCallIgnoresPosition(c, calls, calls', results, results');
      PairedCallIgnoresPosition(c, calls, calls, results, results');
    }
  }

  // ---------------------------------------------------------------------------------------
  // Staging
  // ---------------------------------------------------------------------------------------

  datatype StageInput = StageInput(
    turnId: string, sequence: Option<int>, startedAt: Option<Time>, reason: string, turn: Option<SourceTurn>)

  const COMPLETE := "complete"

  function Stamp(message: RawMessage, input: StageInput): RawMessage {
    message.(meta := message.meta.(
      turnId := input.turnId,
      sequence := Overlay(message.meta.sequence, input.sequence),
      startedAt := Overlay(message.meta.startedAt, input.startedAt),
      state := Some(if input.reason != "" then input.reason else COMPLETE),
      reason := input.reason))
  }

  function StampAll(messages: seq<RawMessage>, input: StageInput): (staged: seq<RawMessage>)
    ensures |staged| == |messages|
  {
    seq(|messages|, i requires 0 <= i < |messages| => Stamp(messages[i], input))
  }

  /** Stamps the turn identity onto every message; the canonical turn goes on the last one when complete. */
  function StageSourceTurnMessages(messages: seq<RawMessage>, input: StageInput): seq<RawMessage> {
    var staged := StampAll(messages, input);
    if input.reason == "" && input.turn.Some? && staged != [] then
      staged[..|staged| - 1] + [Last(staged).(meta := Last(staged).meta.(turn := input.turn))]
    else staged
  }

  // ---------------------------------------------------------------------------------------
  // The scan's view of a group, and the hook's view of a stream
  // ---------------------------------------------------------------------------------------

  /** `canonicalTurnContent`: everything but the sequence. */
  function Canonical(turn: SourceTurn): SourceTurn {
    turn.(sequence := 0)
  }

  predicate Identified(turn: SourceTurn) {
    turn.source != "" && turn.conversationId != "" && turn.turnId != "" && turn.completionEvidence != ""
  }

  /** The state is present and says something other than complete. */
  predicate Unfinished(message: RawMessage) {
    message.meta.state.Some? && message.meta.state.value != "" && message.meta.state.value != COMPLETE
  }

  function AttachedTurns(messages: seq<RawMessage>): seq<SourceTurn> {
    if messages == [] then []
    else
      AttachedTurns(messages[..|messages| - 1])
      + if Last(messages).meta.turn.Some? then [Last(messages).meta.turn.value] else []
  }

  predicate SameContent(turns: seq<SourceTurn>) {
    forall t | t in turns :: Canonical(t) == Canonical(turns[0])
  }

  function SourceTurnFromMessages(messages: seq<RawMessage>): Option<SourceTurn> {
    var turns := AttachedTurns(messages);
    if exists m | m in messages :: Unfinished(m) then None
    else if turns == [] || !SameContent(turns) || !Identified(turns[0]) then None
    else Some(turns[0])
  }

  datatype Selection = Found(turn: SourceTurn) | Missing(reason: string)

  function WithTurnId(messages: seq<RawMessage>, turnId: string): seq<RawMessage> {
    if messages == [] then []
    else
      WithTurnId(messages[..|messages| - 1], turnId)
      + (if turnId == "" || Last(messages).meta.turnId == turnId then [Last(messages)] else [])
  }

  /** The messages at the end that carry the same turn id. */
  function FinalRun(messages: seq<RawMessage>): seq<RawMessage> {
    if messages == [] then []
    else
      var front := messages[..|messages| - 1];
      if front != [] && Last(front).meta.turnId == Last(messages).meta.turnId
      then FinalRun(front) + [Last(messages)]
      else [Last(messages)]
  }

  /** The turns the hook observes, one message at a time. */
  function Observed(messages: seq<RawMessage>): seq<SourceTurn> {
    if messages == [] then []
    else
      var turn := SourceTurnFromMessages([Last(messages)]);
      Observed(messages[..|messages| - 1]) + (if turn.Some? then [turn.value] else [])
  }

  function ReasonOf(message: RawMessage): string {
    if message.meta.reason != "" then message.meta.reason else "turn_incomplete"
  }

  function Decide(run: seq<RawMessage>): Selection {
    if run == [] then Missing("identity_unresolved")
    else if !SameContent(Observed(run)) then Missing("source_turn_content_conflict")
    else if exists m | m in run :: m.meta.state != Some(COMPLETE) then Missing(ReasonOf(Last(run)))
    else if Observed(run) == [] then Missing(ReasonOf(Last(run)))
    else Found(Last(Observed(run)))
  }

  predicate OtherConversation(message: RawMessage, conversationId: string) {
    conversationId != "" && message.conversationId != conversationId
  }

  /** What the hook reports for a stream; "" stands for an expectation that was not given. */
  function Selected(messages: seq<RawMessage>, conversationId: string, turnId: string): Selection {
    if exists m | m in messages :: OtherConversation(m, conversationId) then Missing("identity_conflict")
    else Decide(FinalRun(WithTurnId(messages, turnId)))
  }

  /** What the variables of the selection loop say about the current run of messages. */
  ghost predicate TracksRun(
    run: seq<RawMessage>, conflict: bool, unresolved: bool, observed: Option<SourceTurn>, latest: Option<SourceTurn>)
  {
    && conflict == !SameContent(Observed(run))
    && unresolved == (exists m | m in run :: m.meta.state != Some(COMPLETE))
    && observed == (if Observed(run) == [] then None else Some(Last(Observed(run))))
    && (!unresolved ==> latest == observed)
  }

  /** ... and about all messages seen so far. */
  ghost predicate Tracks(
    kept: seq<RawMessage>, latestTurnId: string, reason: string, conflict: bool, unresolved: bool,
    observed: Option<SourceTurn>, latest: Option<SourceTurn>)
  {
    && latestTurnId == (if kept == [] then "" else Last(kept).meta.turnId)
    && reason == (if kept == [] then "identity_unresolved" else ReasonOf(Last(kept)))
    && TracksRun(FinalRun(kept), conflict, unresolved, observed, latest)
  }

  lemma TracksRunStep(
    run: seq<RawMessage>, conflict: bool, unresolved: bool, observed: Option<SourceTurn>, latest: Option<SourceTurn>,
    message: RawMessage)
    requires TracksRun(run, conflict, unresolved, observed, latest)
    ensures var turn := SourceTurnFromMessages([message]);
            var finished := message.meta.state == Some(COMPLETE);
            TracksRun(run + [message],
                      conflict || (turn.Some? && observed.Some? && Canonical(observed.value) != Canonical(turn.value)),
                      unresolved || !finished,
                      if turn.Some? then turn else observed,
                      if turn.Some? then turn else if finished then latest else None)
  {
    hide SourceTurnFromMessages;
    var turn := SourceTurnFromMessages([message]);
    assert (run + [message])[..|run|] == run;
    assert Observed(run + [message]) == Observed(run) + if turn.Some? then [turn.value] else [];
    SameContentSnoc(Observed(run), turn);
    assert forall m | m in run + [message] :: m in run || m == message;
    assert message in run + [message];
    assert forall m | m in run :: m in run + [message];
  }

  lemma FinalRunSnoc(kept: seq<RawMessage>, message: RawMessage)
    ensures FinalRun(kept + [message])
            == (if kept != [] && Last(kept).meta.turnId == message.meta.turnId then FinalRun(kept) else []) + [message]
  {
    assert (kept + [message])[..|kept|] == kept;
  }

  lemma TracksStep(
    kept: seq<RawMessage>, latestTurnId: string, reason: string, conflict: bool, unresolved: bool,
    observed: Option<SourceTurn>, latest: Option<SourceTurn>, message: RawMessage)
    requires Tracks(kept, latestTurnId, reason, conflict, unresolved, observed, latest)
    ensures var same := message.meta.turnId == latestTurnId;
            var turn := SourceTurnFromMessages([message]);
            var finished := message.meta.state == Some(COMPLETE);
            Tracks(kept + [message], message.meta.turnId, ReasonOf(message),
                   (same && conflict) || (same && turn.Some? && observed.Some?
                       && Canonical(observed.value) != Canonical(turn.value)),
                   (same && unresolved) || !finished,
                   if turn.Some? then turn else if same then observed else None,
                   if turn.Some? then turn else if same && finished then latest else None)
  {
    FinalRunSnoc(kept, message);
    if message.meta.turnId == latestTurnId && kept != [] {
      TracksRunStep(FinalRun(kept), conflict, unresolved, observed, latest, message);
    } else {
      TracksRunStep([], false, false, None, None, message);
    }
  }

  lemma TracksNothing(turnId: string)
    ensures WithTurnId([], turnId) == [] && Tracks([], "", "identity_unresolved", false, false, None, None)
  {
  }

  lemma WithTurnIdSnoc(messages: seq<RawMessage>, message: RawMessage, turnId: string)
    ensures WithTurnId(messages + [message], turnId)
            == WithTurnId(messages, turnId) + if turnId == "" || message.meta.turnId == turnId then [message] else []
  {
    assert (messages + [message])[..|messages|] == messages;
  }

  lemma DecideFromTracks(
    kept: seq<RawMessage>, latestTurnId: string, reason: string, conflict: bool, unresolved: bool,
    observed: Option<SourceTurn>, latest: Option<SourceTurn>)
    requires Tracks(kept, latestTurnId, reason, conflict, unresolved, observed, latest)
    ensures Decide(FinalRun(kept))
            == if conflict then Missing("source_turn_content_conflict")
               else if unresolved then Missing(reason)
               else if latest.Some? then Found(latest.value) else Missing(reason)
  {
    assert kept != [] ==> FinalRun(kept) != [] && Last(FinalRun(kept)) == Last(kept);
  }

  method SelectSourceTurn(messages: seq<RawMessage>, conversationId: string, turnId: string)
      returns (selection: Selection)
    ensures selection == Selected(messages, conversationId, turnId)
  {
    hide Tracks, Decide, FinalRun, SourceTurnFromMessages, WithTurnId;
    TracksNothing(turnId);
    var latest: Option<SourceTurn> := None;
    var observed: Option<SourceTurn> := None;
    var conflict, unresolved := false, false;
    var reason := "identity_unresolved";
    var latestTurnId := "";
    ghost var kept: seq<RawMessage> := [];
    for i := 0 to |messages|
      invariant forall m | m in messages[..i] :: !OtherConversation(m, conversationId)
      invariant kept == WithTurnId(messages[..i], turnId)
      invariant Tracks(kept, latestTurnId, reason, conflict, unresolved, observed, latest)
    {
      var message := messages[i];
      assert messages[..i + 1] == messages[..i] + [message];
      WithTurnIdSnoc(messages[..i], message, turnId);
      if OtherConversation(message, conversationId) {
        assert message in messages;
        return Missing("identity_conflict");
      }
      if turnId != "" && message.meta.turnId != turnId { continue; }
      TracksStep(kept, latestTurnId, reason, conflict, unresolved, observed, latest, message);
      if message.meta.turnId != latestTurnId {
        latest := None;
        observed := None;
        conflict := false;
        unresolved := false;
      }
      latestTurnId := message.meta.turnId;
      reason := ReasonOf(message);
      if message.meta.state != Some(COMPLETE) {
        latest := None;
        unresolved := true;
      }
      var turn := SourceTurnFromMessages([message]);
      if turn.Some? {
        if observed.Some? && Canonical(observed.value) != Canonical(turn.value) {
          conflict := true;
        }
        observed := turn;
        latest := turn;
      }
      kept := kept + [message];
    }
    assert messages[..|messages|] == messages;
    DecideFromTracks(kept, latestTurnId, reason, conflict, unresolved, observed, latest);
    if conflict { return Missing("source_turn_content_conflict"); }
    if unresolved { return Missing(reason); }
    return if latest.Some? then Found(latest.value) else Missing(reason);
  }

  lemma SameContentSnoc(turns: seq<SourceTurn>, turn: Option<SourceTurn>)
    ensures turn.Some? ==>
              (SameContent(turns + [turn.value])
               <==> (SameContent(turns) && (turns != [] ==> Canonical(Last(turns)) == Canonical(turn.value))))
  {
    if turn.Some? && turns != [] {
      assert (turns + [turn.value])[0] == turns[0];
      assert Last(turns) in turns;
      assert turn.value in turns + [turn.value];
      assert forall t | t in turns :: t in turns + [turn.value];
    }
  }

  // ---------------------------------------------------------------------------------------
  // Hook and scan pick the same turn
  // ---------------------------------------------------------------------------------------

  lemma {:induction false} WithTurnIdKeeps(messages: seq<RawMessage>, turnId: string)
    ensures forall m | m in WithTurnId(messages, turnId) :: m in messages && (turnId != "" ==> m.meta.turnId == turnId)
  {
    if messages != [] {
      WithTurnIdKeeps(messages[..|messages| - 1], turnId);
      assert messages == messages[..|messages| - 1] + [Last(messages)];
    }
  }

  lemma {:induction false} FinalRunOfOneTurn(messages: seq<RawMessage>, turnId: string)
    requires forall m | m in messages :: m.meta.turnId == turnId
    ensures FinalRun(messages) == messages
  {
    if |messages| > 1 {
      assert messages == messages[..|messages| - 1] + [Last(messages)];
      FinalRunOfOneTurn(messages[..|messages| - 1], turnId);
      assert Last(messages[..|messages| - 1]) in messages;
    }
  }

  /** Every message says in which state its turn is, and attached turns carry an identity. */
  ghost predicate ProperlyStaged(messages: seq<RawMessage>) {
    forall m | m in messages ::
      m.meta.state.Some? && m.meta.state.value != "" && (m.meta.turn.Some? ==> Identified(m.meta.turn.value))
  }

  lemma {:induction false} ObservedAreAttached(messages: seq<RawMessage>)
    requires ProperlyStaged(messages) && forall m | m in messages :: m.meta.state == Some(COMPLETE)
    ensures Observed(messages) == AttachedTurns(messages)
    ensures forall t | t in AttachedTurns(messages) :: Identified(t)
  {
    if messages != [] {
      var m := Last(messages);
      ObservedAreAttached(messages[..|messages| - 1]);
      assert [m][..0] == [];
      assert AttachedTurns([m]) == AttachedTurns([]) + (if m.meta.turn.Some? then [m.meta.turn.value] else []);
    }
  }

  /**
   The hook accepts turn `turnId` exactly when no message belongs to another conversation and
   the scan accepts the group of that turn's messages, and then both have the same content.
   */
  lemma HookAgreesWithScan(messages: seq<RawMessage>, conversationId: string, turnId: string)
    requires turnId != "" && ProperlyStaged(WithTurnId(messages, turnId))
    ensures var hook := Selected(messages, conversationId, turnId);
            var scan := SourceTurnFromMessages(WithTurnId(messages, turnId));
            && (hook.Found? <==> scan.Some? && forall m | m in messages :: !OtherConversation(m, conversationId))
            && (hook.Found? ==> Canonical(hook.turn) == Canonical(scan.value))
  {
    WithTurnIdKeeps(messages, turnId);
    FinalRunOfOneTurn(WithTurnId(messages, turnId), turnId);
    DecideAgreesWithScan(WithTurnId(messages, turnId));
  }

  lemma DecideAgreesWithScan(run: seq<RawMessage>)
    requires ProperlyStaged(run)
    ensures Decide(run).Found? <==> SourceTurnFromMessages(run).Some?
    ensures Decide(run).Found? ==> Canonical(Decide(run).turn) == Canonical(SourceTurnFromMessages(run).value)
  {
    if forall m | m in run :: m.meta.state == Some(COMPLETE) {
      ObservedAreAttached(run);
      if AttachedTurns(run) != [] {
        assert AttachedTurns(run)[0] in AttachedTurns(run) && Last(AttachedTurns(run)) in AttachedTurns(run);
      }
    } else {
      var m :| m in run && m.meta.state != Some(COMPLETE);
      assert Unfinished(m);
    }
  }

  datatype Block = Block(messages: seq<RawMessage>, input: StageInput)

  function StagedStream(blocks: seq<Block>): seq<RawMessage> {
    if blocks == [] then []
    else StageSourceTurnMessages(blocks[0].messages, blocks[0].input) + StagedStream(blocks[1..])
  }

  ghost predicate UnstagedInput(messages: seq<RawMessage>) {
    forall m | m in messages :: m.meta.turn.None?
  }

  lemma StagedBlocksAreProper(blocks: seq<Block>)
    requires forall b | b in blocks ::
        UnstagedInput(b.messages) && (b.input.turn.Some? ==> Identified(b.input.turn.value))
    ensures ProperlyStaged(StagedStream(blocks))
  {
    if blocks != [] {
      assert blocks[0] in blocks;
      var input := blocks[0].input;
      var stamped := StampAll(blocks[0].messages, input);
      assert forall i | 0 <= i < |stamped| ::
          stamped[i] == Stamp(blocks[0].messages[i], input) && blocks[0].messages[i] in blocks[0].messages;
      assert ProperlyStaged(StageSourceTurnMessages(blocks[0].messages, input));
      StagedBlocksAreProper(blocks[1..]);
    }
  }

  /** The same for any sequence of blocks - repeated, conflicting or unfinished - that readers stage. */
  lemma HookAgreesWithScanOnBlocks(blocks: seq<Block>, conversationId: string, turnId: string)
    requires turnId != ""
    requires forall b | b in blocks ::
        UnstagedInput(b.messages) && (b.input.turn.Some? ==> Identified(b.input.turn.value))
    ensures var stream := StagedStream(blocks);
            var hook := Selected(stream, conversationId, turnId);
            var scan := SourceTurnFromMessages(WithTurnId(stream, turnId));
            && (hook.Found? <==> scan.Some? && forall m | m in stream :: !OtherConversation(m, conversationId))
            && (hook.Found? ==> Canonical(hook.turn) == Canonical(scan.value))
  {
    StagedBlocksAreProper(blocks);
    WithTurnIdKeeps(StagedStream(blocks), turnId);
    HookAgreesWithScan(StagedStream(blocks), conversationId, turnId);
  }

  /**
   In general the hook asks for one thing more than the scan: that every message of the turn is in
   state complete. A reader that stages says so on each message, or names what is wrong.
   */
  lemma HookNeedsCompleteStates(messages: seq<RawMessage>, conversationId: string, turnId: string)
    requires turnId != ""
    requires forall t | t in AttachedTurns(WithTurnId(messages, turnId)) :: Identified(t)
    ensures var group := WithTurnId(messages, turnId);
            Selected(messages, conversationId, turnId).Found?
            <==> && SourceTurnFromMessages(group).Some?
                 && (forall m | m in messages :: !OtherConversation(m, conversationId))
                 && forall m | m in group :: m.meta.state == Some(COMPLETE)
  {
    var group := WithTurnId(messages, turnId);
    WithTurnIdKeeps(messages, turnId);
    FinalRunOfOneTurn(group, turnId);
    if forall m | m in group :: m.meta.state == Some(COMPLETE) {
      AttachedMembers(group);
      DecideAgreesWithScan(group);
    }
  }

  // ---------------------------------------------------------------------------------------
  // The order of a group
  // ---------------------------------------------------------------------------------------

  lemma {:induction false} AttachedMembers(messages: seq<RawMessage>)
    ensures forall t :: t in AttachedTurns(messages) <==> exists m | m in messages :: m.meta.turn == Some(t)
  {
    if messages != [] {
      AttachedMembers(messages[..|messages| - 1]);
      assert messages == messages[..|messages| - 1] + [Last(messages)];
      assert forall m :: m in messages <==> m in messages[..|messages| - 1] || m == Last(messages);
    }
  }

  /** The two groups carry the same metadata, in any order and any number. */
  ghost predicate SameMetas(a: seq<RawMessage>, b: seq<RawMessage>) {
    && (forall m | m in a :: exists x | x in b :: x.meta == m.meta)
    && (forall m | m in b :: exists x | x in a :: x.meta == m.meta)
  }

  ghost predicate AnyUnfinished(messages: seq<RawMessage>) {
    exists m | m in messages :: Unfinished(m)
  }

  lemma AcceptedByTheScan(messages: seq<RawMessage>)
    ensures var turns := AttachedTurns(messages);
            SourceTurnFromMessages(messages)
            == if !AnyUnfinished(messages) && turns != [] && SameContent(turns) && Identified(turns[0])
                then Some(turns[0]) else None
  {
    hide AttachedTurns, SameContent, Unfinished;
  }

  lemma SameAttached(a: seq<RawMessage>, b: seq<RawMessage>)
    requires forall m | m in a :: exists x | x in b :: x.meta == m.meta
    ensures forall t | t in AttachedTurns(a) :: t in AttachedTurns(b)
    ensures AnyUnfinished(a) ==> AnyUnfinished(b)
  {
    AttachedMembers(a);
    AttachedMembers(b);
  }

  lemma SameSetSameContent(a: seq<SourceTurn>, b: seq<SourceTurn>)
    requires forall t :: t in a <==> t in b
    ensures a == [] <==> b == []
    ensures SameContent(a) <==> SameContent(b)
    ensures a != [] && SameContent(a) ==> Canonical(a[0]) == Canonical(b[0])
  {
    FirstIsMember(a);
    FirstIsMember(b);
  }

  /** Neither the order of a group nor anything but its metadata decides what the scan makes of it. */
  lemma GroupOrderDoesNotMatter(a: seq<RawMessage>, b: seq<RawMessage>)
    requires SameMetas(a, b)
    ensures SourceTurnFromMessages(a).Some? <==> SourceTurnFromMessages(b).Some?
    ensures SourceTurnFromMessages(a).Some? ==>
              Canonical(SourceTurnFromMessages(a).value) == Canonical(SourceTurnFromMessages(b).value)
  {
    hide AttachedTurns, AnyUnfinished, SameContent, SourceTurnFromMessages;
    SameAttached(a, b);
    SameAttached(b, a);
    SameSetSameContent(AttachedTurns(a), AttachedTurns(b));
    AcceptedByTheScan(a);
    AcceptedByTheScan(b);
  }

  // ---------------------------------------------------------------------------------------
  // Staging and selecting, told without the loops
  // ---------------------------------------------------------------------------------------

  /** Two turns have the same canonical content exactly when they differ in nothing but their sequence. */
  lemma CanonicalIsContent(a: SourceTurn, b: SourceTurn)
    ensures Canonical(a) == Canonical(b)
        <==> && a.source == b.source && a.conversationId == b.conversationId && a.turnId == b.turnId
             && a.profileId == b.profileId && a.startedAt == b.startedAt && a.completedAt == b.completedAt
             && a.completionEvidence == b.completionEvidence && a.query == b.query && a.answer == b.answer
             && a.status == b.status && a.toolCalls == b.toolCalls && a.toolResults == b.toolResults
             && a.workspacePath == b.workspacePath
  {
  }

  /** The same message, but for what staging says about its turn. */
  predicate SameMessage(a: RawMessage, b: RawMessage) {
    && a.messageId == b.messageId && a.conversationId == b.conversationId && a.role == b.role
    && a.content == b.content && a.createdAt == b.createdAt && a.ordinal == b.ordinal
    && a.meta.recordId == b.meta.recordId && a.meta.phase == b.meta.phase
  }

  /** Staging keeps the messages, says of each what state its turn is in, and puts a turn on the last one only. */
  lemma StagedMeans(messages: seq<RawMessage>, input: StageInput)
    requires UnstagedInput(messages)
    ensures var staged, complete := StageSourceTurnMessages(messages, input), input.reason == "";
            && |staged| == |messages|
            && forall i | 0 <= i < |staged| ::
                 && SameMessage(staged[i], messages[i])
                 && staged[i].meta.turnId == input.turnId && staged[i].meta.reason == input.reason
                 && staged[i].meta.state == Some(if complete then "complete" else input.reason)
                 && staged[i].meta.sequence
                    == (if input.sequence.Some? then input.sequence else messages[i].meta.sequence)
                 && staged[i].meta.startedAt
                    == (if input.startedAt.Some? then input.startedAt else messages[i].meta.startedAt)
                 && staged[i].meta.turn == if complete && i == |messages| - 1 then input.turn else None
  {
    assert forall i | 0 <= i < |messages| :: messages[i] in messages;
  }

  /** The message shows that turn to the hook. */
  predicate ShowsTurn(m: RawMessage, turn: SourceTurn) {
    && m.meta.turn == Some(turn) && Identified(turn)
    && (m.meta.state.None? || m.meta.state.value in {"", "complete"})
  }

  lemma {:induction false} ObservedAreShown(messages: seq<RawMessage>)
    ensures forall t :: t in Observed(messages) <==> exists m | m in messages :: ShowsTurn(m, t)
    ensures Observed(messages) != [] ==>
              exists i | 0 <= i < |messages| ::
                && ShowsTurn(messages[i], Last(Observed(messages)))
                && forall k, t | i < k < |messages| :: !ShowsTurn(messages[k], t)
  {
    if messages != [] {
      var front, last := messages[..|messages| - 1], Last(messages);
      ObservedAreShown(front);
      OneShown(last);
      assert messages == front + [last];
      assert forall m :: m in messages <==> m in front || m == last;
      hide SourceTurnFromMessages, ShowsTurn;
      assert forall i | 0 <= i < |front| :: messages[i] == front[i];
      assert messages[|messages| - 1] == last;
    }
  }

  lemma OneShown(m: RawMessage)
    ensures SourceTurnFromMessages([m]).Some? <==> exists t :: ShowsTurn(m, t)
    ensures SourceTurnFromMessages([m]).Some? ==> ShowsTurn(m, SourceTurnFromMessages([m]).value)
  {
    assert [m][..0] == [];
    assert AttachedTurns([m]) == [] + if m.meta.turn.Some? then [m.meta.turn.value] else [];
    hide AttachedTurns, Identified, Canonical;
    assert m in [m] && ((exists x | x in [m] :: Unfinished(x)) <==> Unfinished(m));
    if SourceTurnFromMessages([m]).Some? {
      assert ShowsTurn(m, m.meta.turn.value);
    } else {
      forall t ensures !ShowsTurn(m, t) {
        assert m.meta.turn == Some(t) ==> SameContent([t]);
      }
    }
  }

  /** Two messages show turns of different content. */
  ghost predicate Contradicts(messages: seq<RawMessage>) {
    exists a, b, t, u | a in messages && b in messages && ShowsTurn(a, t) && ShowsTurn(b, u) ::
      Canonical(t) != Canonical(u)
  }

  /** The turn is the one shown last. */
  ghost predicate ShownLast(messages: seq<RawMessage>, turn: SourceTurn) {
    exists i | 0 <= i < |messages| ::
      ShowsTurn(messages[i], turn) && forall k, t | i < k < |messages| :: !ShowsTurn(messages[k], t)
  }

  ghost predicate ShowsNone(messages: seq<RawMessage>) {
    forall m, t | m in messages :: !ShowsTurn(m, t)
  }

  predicate AllComplete(messages: seq<RawMessage>) {
    forall m | m in messages :: m.meta.state == Some("complete")
  }

  lemma DecideMeans(run: seq<RawMessage>)
    ensures if run == [] then Decide(run) == Missing("identity_unresolved")
            else if Contradicts(run) then Decide(run) == Missing("source_turn_content_conflict")
            else if AllComplete(run) && !ShowsNone(run) then Decide(run).Found? && ShownLast(run, Decide(run).turn)
            else
              Decide(run) == Missing(if Last(run).meta.reason != "" then Last(run).meta.reason else "turn_incomplete")
  {
    ObservedAreShown(run);
    ContradictsExactly(run);
    FirstIsMember(Observed(run));
    hide Observed, ShowsTurn, SameContent, Contradicts;
    if m, t :| m in run && ShowsTurn(m, t) {
      assert t in Observed(run);
    }
  }

  /**
   What the hook answers for a turn: a conflict of identity when any message is of another
   conversation; a conflict of content when two messages of the turn contradict each other; otherwise
   the turn that is shown last, if every message of the turn is complete and there is one; and else
   the reason that the last message of the turn gives.
   */
  lemma SelectionMeans(messages: seq<RawMessage>, conversationId: string, turnId: string)
    requires turnId != ""
    ensures var own, selection := WithTurnId(messages, turnId), Selected(messages, conversationId, turnId);
            if exists m | m in messages :: conversationId != "" && m.conversationId != conversationId then
              selection == Missing("identity_conflict")
            else if own == [] then selection == Missing("identity_unresolved")
            else if Contradicts(own) then selection == Missing("source_turn_content_conflict")
            else if AllComplete(own) && !ShowsNone(own) then selection.Found? && ShownLast(own, selection.turn)
            else
              selection == Missing(if Last(own).meta.reason != "" then Last(own).meta.reason else "turn_incomplete")
  {
    var own := WithTurnId(messages, turnId);
    WithTurnIdKeeps(messages, turnId);
    FinalRunOfOneTurn(own, turnId);
    DecideMeans(own);
    hide Decide, ShowsNone, ShownLast, AllComplete, WithTurnId, FinalRun, Contradicts;
  }

  lemma ContradictsExactly(messages: seq<RawMessage>)
    ensures Contradicts(messages) <==> !SameContent(Observed(messages))
  {
    ObservedAreShown(messages);
    FirstIsMember(Observed(messages));
    hide Observed, ShowsTurn;
    var turns := Observed(messages);
    if !SameContent(turns) {
      var t :| t in turns && Canonical(t) != Canonical(turns[0]);
      var a :| a in messages && ShowsTurn(a, t);
      var b :| b in messages && ShowsTurn(b, turns[0]);
    }
  }
}
