/**
 From the Codex log to the captured turn. The hook reads the log early; the scan reads it later,
 stages it among other files in interrupted passes, pages it back and cuts it. What the hook
 captured is what is ingested.
 */
module CodexIngestion {
  import opened Wrappers
  import opened SourceTurns
  import opened BlockSelection
  import opened Text
  import opened CodexSourceTurn
  import opened CodexHookAndScan
  import opened ScanStore
  import opened TurnCut
  import opened TurnPasses
  import opened StagedAgreement
  import JsonlLines

  type LogEvent = CodexSourceTurn.Event

  // ---------------------------------------------------------------------------------------
  // Every message has a line of its own
  // ---------------------------------------------------------------------------------------

  /** The messages come from different lines of the file, in the order of the lines. */
  ghost predicate LinesRise(fileId: string, messages: seq<RawMessage>, bound: nat) {
    && (forall m | m in messages :: m.messageId.Line? && m.messageId.file == fileId && m.messageId.line <= bound)
    && forall i, j | 0 <= i < j < |messages| :: messages[i].messageId.line < messages[j].messageId.line
  }

  lemma LinesAppend(fileId: string, messages: seq<RawMessage>, bound: nat, more: RawMessage, line: nat)
    requires LinesRise(fileId, messages, bound) && bound < line && more.messageId == Line(fileId, line)
    ensures LinesRise(fileId, messages + [more], line)
  {
    assert forall i | 0 <= i < |messages| :: messages[i] in messages;
  }

  lemma LinesOfPrefix(fileId: string, messages: seq<RawMessage>, more: seq<RawMessage>, bound: nat, line: nat)
    requires LinesRise(fileId, messages + more, bound) && bound <= line
    ensures LinesRise(fileId, messages, line) && LinesRise(fileId, messages + more, line)
    ensures messages + [] == messages
  {
    var all := messages + more;
    assert forall i | 0 <= i < |messages| :: all[i] == messages[i];
    assert forall m | m in messages :: m in all;
  }

  /** Staging stamps the messages and keeps their lines. */
  lemma LinesOfStaged(fileId: string, out: seq<RawMessage>, messages: seq<RawMessage>, input: StageInput, bound: nat)
    requires LinesRise(fileId, out + messages, bound)
    ensures LinesRise(fileId, out + StageSourceTurnMessages(messages, input), bound)
  {
    var plain, staged := out + messages, out + StageSourceTurnMessages(messages, input);
    StagedIds(messages, input);
    hide StageSourceTurnMessages;
    assert |staged| == |plain|;
    assert forall i | 0 <= i < |plain| :: staged[i].messageId == plain[i].messageId && plain[i] in plain;
  }

  lemma StagedIds(messages: seq<RawMessage>, input: StageInput)
    ensures var staged := StageSourceTurnMessages(messages, input);
            |staged| == |messages| && forall i | 0 <= i < |messages| :: staged[i].messageId == messages[i].messageId
  {
  }

  lemma FinishKeepsLines(env: Env, fileId: string, out: seq<RawMessage>, st: State, ending: Ending, bound: nat)
    requires LinesRise(fileId, out + st.current, bound) && bound < st.lineNumber
    ensures var (after, more) := Finish(env, fileId, st, ending);
            after.lineNumber == st.lineNumber && LinesRise(fileId, out + more + after.current, st.lineNumber)
  {
    hide StageSourceTurnMessages, FinishReason, FinishTurn, Spoken, LinesRise;
    LinesOfPrefix(fileId, out, st.current, bound, st.lineNumber);
    assert out + [] + st.current == out + st.current && out + [] + [] == out;
    if st.current != [] && st.turnModel != INTERNAL_MODEL && Spoken(st.current) != [] {
      var completion := if ending.Completed? && ending.at.Some? then [CompletionMessage(fileId, st, ending.at.value)]
          else [];
      if completion != [] {
        LinesAppend(fileId, out + st.current, bound, completion[0], st.lineNumber);
      }
      assert out + (st.current + completion) == out + st.current + completion;
      assert out + st.current + [] == out + st.current;
      var input := StageInput(st.turnId, None, None, FinishReason(st, ending), FinishTurn(env, st, ending));
      LinesOfStaged(fileId, out, st.current + completion, input, st.lineNumber);
      assert out + StageSourceTurnMessages(st.current + completion, input) + []
          == out + StageSourceTurnMessages(st.current + completion, input);
    }
  }

  lemma StepKeepsLines(env: Env, fileId: string, out: seq<RawMessage>, st: State, event: LogEvent)
    requires LinesRise(fileId, out + st.current, st.lineNumber)
    ensures var (after, more) := Step(env, fileId, st, event);
            LinesRise(fileId, out + more + after.current, after.lineNumber)
  {
    hide Finish, StepResponse, HasWork, StartedAt, LinesRise;
    var bound := st.lineNumber;
    LinesOfPrefix(fileId, out, st.current, bound, bound + 1);
    if event.Record? {
      var counted := st.(lineNumber := bound + 1);
      match event.record.record {
        case SessionMeta(_, _) =>
          FinishKeepsLines(env, fileId, out, counted.(invalidReason := "identity_conflict"), Open, bound);
        case TurnStart(_, _, _) => FinishKeepsLines(env, fileId, out, counted, Open, bound);
        case TaskComplete(id, failed) =>
          var ending := Completed(event.record.timestamp, id, failed);
          FinishKeepsLines(env, fileId, out, counted, ending, bound);
          FinishKeepsLines(env, fileId, out, counted.(invalidReason := "identity_conflict"), ending, bound);
        case TaskAborted =>
          FinishKeepsLines(env, fileId, out, counted.(invalidReason := "turn_cancelled"), Open, bound);
        case Response(_, _, _, _) => ResponseKeepsLines(env, fileId, out, counted, event.record, bound);
        case Other =>
      }
    }
  }

  lemma ResponseKeepsLines(env: Env, fileId: string, out: seq<RawMessage>, st: State, entry: Entry, bound: nat)
    requires LinesRise(fileId, out + st.current, bound) && bound < st.lineNumber && entry.record.Response?
    ensures var after := StepResponse(env, fileId, st, entry);
            after.lineNumber == st.lineNumber && LinesRise(fileId, out + [] + after.current, st.lineNumber)
  {
    hide LinesRise, ItemContent;
    var after := StepResponse(env, fileId, st, entry);
    LinesOfPrefix(fileId, out, st.current, bound, st.lineNumber);
    if |after.current| > |st.current| {
      LinesAppend(fileId, out + st.current, bound, Last(after.current), st.lineNumber);
      assert out + after.current == out + st.current + [Last(after.current)];
    }
  }

  // ---------------------------------------------------------------------------------------
  // Every message says in which state its turn is
  // ---------------------------------------------------------------------------------------

  lemma StagedIsProper(messages: seq<RawMessage>, input: StageInput)
    requires UnstagedInput(messages) && (input.turn.Some? ==> Identified(input.turn.value))
    ensures ProperlyStaged(StageSourceTurnMessages(messages, input))
  {
    hide Identified;
    assert forall i | 0 <= i < |messages| :: messages[i] in messages;
  }

  lemma FinishedIsIdentified(env: Env, st: State, ending: Ending)
    ensures FinishTurn(env, st, ending).Some? ==> Identified(FinishTurn(env, st, ending).value)
  {
  }

  lemma FinishedIsProper(env: Env, fileId: string, st: State, ending: Ending)
    requires UnstagedInput(st.current)
    ensures ProperlyStaged(Finish(env, fileId, st, ending).1)
    ensures Finish(env, fileId, st, ending).0.current in {st.current, []}
  {
    hide StageSourceTurnMessages, FinishTurn, FinishReason, Spoken, Identified;
    FinishedIsIdentified(env, st, ending);
    var completion := if ending.Completed? && ending.at.Some? then [CompletionMessage(fileId, st, ending.at.value)]
        else [];
    StagedIsProper(st.current + completion,
        StageInput(st.turnId, None, None, FinishReason(st, ending), FinishTurn(env, st, ending)));
  }

  lemma StepIsProper(env: Env, fileId: string, st: State, event: LogEvent)
    requires UnstagedInput(st.current)
    ensures ProperlyStaged(Step(env, fileId, st, event).1) && UnstagedInput(Step(env, fileId, st, event).0.current)
  {
    StepKeepsUnstaged(env, fileId, st, event);
    hide Finish, StepResponse, UnstagedInput, HasWork, StartedAt;
    forall s: State, e: Ending {:trigger Finish(env, fileId, s, e)} | s.current == st.current
      ensures ProperlyStaged(Finish(env, fileId, s, e).1)
    {
      FinishedIsProper(env, fileId, s, e);
    }
  }

  lemma {:induction false} RunIsOrderly(env: Env, fileId: string, log: seq<LogEvent>)
    ensures var (st, out) := Run(env, fileId, INITIAL, log);
            UnstagedInput(st.current) && ProperlyStaged(out) && LinesRise(fileId, out + st.current, st.lineNumber)
  {
    hide Step, UnstagedInput, LinesRise;
    if log == [] {
      NothingRead(fileId);
    } else {
      var front := log[..|log| - 1];
      var (st, out) := Run(env, fileId, INITIAL, front);
      RunIsOrderly(env, fileId, front);
      StepIsProper(env, fileId, st, Last(log));
      StepKeepsLines(env, fileId, out, st, Last(log));
      var more := Step(env, fileId, st, Last(log)).1;
      assert forall m | m in out + more :: m in out || m in more;
    }
  }

  lemma NothingRead(fileId: string)
    ensures UnstagedInput([]) && LinesRise(fileId, [] + [], 0)
  {
  }

  /** A whole rollout: properly staged, each message from a line of its own. */
  lemma RolloutIsOrderly(env: Env, fileId: string, log: seq<LogEvent>)
    ensures var stream := Rollout(env, fileId, log, None);
            ProperlyStaged(stream) && exists bound: nat :: LinesRise(fileId, stream, bound)
  {
    hide Run, Finish, LinesRise, UnstagedInput;
    var (st, out) := Run(env, fileId, INITIAL, log);
    RunIsOrderly(env, fileId, log);
    FinishedIsProper(env, fileId, st, Open);
    LinesOfPrefix(fileId, out, st.current, st.lineNumber, st.lineNumber + 1);
    FinishOpenKeepsLines(env, fileId, out, st);
    var more := AtEnd(env, fileId, st, None);
    assert forall m | m in out + more :: m in out || m in more;
  }

  /** At the end of the file no line is counted, and none is added. */
  lemma FinishOpenKeepsLines(env: Env, fileId: string, out: seq<RawMessage>, st: State)
    requires LinesRise(fileId, out + st.current, st.lineNumber)
    ensures LinesRise(fileId, out + AtEnd(env, fileId, st, None), st.lineNumber)
  {
    hide StageSourceTurnMessages, FinishReason, FinishTurn, Spoken, LinesRise;
    LinesOfPrefix(fileId, out, st.current, st.lineNumber, st.lineNumber);
    assert st.current + [] == st.current;
    LinesOfStaged(fileId, out, st.current,
        StageInput(st.turnId, None, None, FinishReason(st, Open), FinishTurn(env, st, Open)), st.lineNumber);
  }

  // ---------------------------------------------------------------------------------------
  // The hook's turn is the one that is ingested
  // ---------------------------------------------------------------------------------------

  /** Different lines of the file are printed as different message ids. */
  ghost predicate PrintsLines(printed: Printer, fileId: string) {
    forall a: nat, b: nat | printed(Line(fileId, a)) == printed(Line(fileId, b)) :: a == b
  }

  /** What else was staged has other message ids, and nothing of the turn. */
  ghost predicate Elsewhere(printed: Printer, sourceId: string, others: seq<ConversationMessage>,
      stream: seq<RawMessage>, conversationId: string, turnId: string) {
    forall x | x in others ::
      && !OfTurn(x, conversationId, turnId)
      && forall m | m in stream :: KeyOf(x) != KeyOf(Converted(printed, sourceId, m))
  }

  /** As far as the hook accepts them, the messages of the turn are of that conversation. */
  ghost predicate InConversation(stream: seq<RawMessage>, conversationId: string, turnId: string, expected: string) {
    forall m | m in stream && m.meta.turnId == turnId && !OtherConversation(m, expected) ::
      m.conversationId == conversationId
  }

  /** The file among everything that is staged. */
  function Whole(printed: Printer, sourceId: string, before: seq<ConversationMessage>, stream: seq<RawMessage>,
      after: seq<ConversationMessage>): seq<ConversationMessage> {
    before + ConvertedAll(printed, sourceId, stream) + after
  }

  lemma WholeMembers(printed: Printer, sourceId: string, before: seq<ConversationMessage>, stream: seq<RawMessage>,
      after: seq<ConversationMessage>)
    ensures var whole := Whole(printed, sourceId, before, stream, after);
            && (forall m | m in stream :: Converted(printed, sourceId, m) in whole)
            && forall x | x in whole ::
                 x in before + after || exists m | m in stream :: Converted(printed, sourceId, m) == x
  {
    var own := ConvertedAll(printed, sourceId, stream);
    forall m | m in stream ensures Converted(printed, sourceId, m) in own {
      var i :| 0 <= i < |stream| && stream[i] == m;
      assert own[i] == Converted(printed, sourceId, m);
    }
    forall x | x in own ensures exists m | m in stream :: Converted(printed, sourceId, m) == x {
      var i :| 0 <= i < |own| && own[i] == x;
      assert stream[i] in stream;
    }
  }

  lemma OwnLineOwnKey(printed: Printer, sourceId: string, fileId: string, stream: seq<RawMessage>, bound: nat,
      a: RawMessage, b: RawMessage)
    requires PrintsLines(printed, fileId) && LinesRise(fileId, stream, bound) && a in stream && b in stream
    requires KeyOf(Converted(printed, sourceId, a)) == KeyOf(Converted(printed, sourceId, b))
    ensures a == b
  {
    var i :| 0 <= i < |stream| && stream[i] == a;
    var j :| 0 <= j < |stream| && stream[j] == b;
    assert a.messageId == Line(fileId, a.messageId.line) && b.messageId == Line(fileId, b.messageId.line);
  }

  lemma RolloutAmongOthers(env: Env, printed: Printer, sourceId: string, fileId: string, log: seq<LogEvent>,
      before: seq<ConversationMessage>, after: seq<ConversationMessage>, conversationId: string, turnId: string,
      expected: string)
    requires PrintsLines(printed, fileId) && turnId != ""
    requires var stream := Rollout(env, fileId, log, None);
             && Elsewhere(printed, sourceId, before + after, stream, conversationId, turnId)
             && InConversation(stream, conversationId, turnId, expected)
    ensures var stream := Rollout(env, fileId, log, None);
            var whole := Whole(printed, sourceId, before, stream, after);
            && ReadsTurn(printed, sourceId, whole, stream, conversationId, turnId)
            && UnderOwnIds(printed, sourceId, whole, stream, conversationId, turnId, expected)
  {
    hide Rollout, LinesRise, PrintsLines, Converted, OfTurn, Whole;
    var stream := Rollout(env, fileId, log, None);
    var whole := Whole(printed, sourceId, before, stream, after);
    RolloutIsOrderly(env, fileId, log);
    var bound: nat :| LinesRise(fileId, stream, bound);
    WithTurnIdMembers(stream, turnId);
    WholeMembers(printed, sourceId, before, stream, after);
    forall m, x | m in stream && x in whole && KeyOf(x) == KeyOf(Converted(printed, sourceId, m))
      ensures x == Converted(printed, sourceId, m)
    {
      if x !in before + after {
        var y :| y in stream && Converted(printed, sourceId, y) == x;
        OwnLineOwnKey(printed, sourceId, fileId, stream, bound, y, m);
      }
    }
  }

  /**
   The turn the hook captures from the early log is the one the scan ingests from the later log: a
   group of it exists and is emitted, and a group of it is accepted exactly when the hook accepted the
   turn, with equal canonical content - whatever else is staged, and however often staging was cut short.
   */
  lemma HookTurnIsIngested(
    env: Env, fileId: string, log: seq<LogEvent>, quiet: seq<LogEvent>, at: Time, later: seq<LogEvent>,
    expected: string, printed: Printer, sourceId: string, before: seq<ConversationMessage>,
    after: seq<ConversationMessage>, events: seq<ScanStore.Event>, conversationId: string)
    requires var st := Run(env, fileId, INITIAL, log).0;
             && StoppedOnAnswer(st, expected) && (forall e | e in quiet :: Quiet(st, e))
             && Directory(st.workspacePath, quiet) == st.workspacePath
             && forall e | e in later :: Later(expected, st.turnId, e)
    requires var turnId := Run(env, fileId, INITIAL, log).0.turnId;
             var stream := Rollout(env, fileId, ScanLog(log, quiet, turnId, at, later), None);
             var whole := Whole(printed, sourceId, before, stream, after);
             && PrintsLines(printed, fileId)
             && Elsewhere(printed, sourceId, before + after, stream, conversationId, turnId)
             && InConversation(stream, conversationId, turnId, expected)
             && StagedWhole(whole, events, sourceId) && Orderly(Paged(whole, events, sourceId))
    ensures var turnId := Run(env, fileId, INITIAL, log).0.turnId;
            var hook := Selected(Rollout(env, fileId, log, Some(Stop(expected, turnId))), expected, turnId);
            var stream := Rollout(env, fileId, ScanLog(log, quiet, turnId, at, later), None);
            var whole := Whole(printed, sourceId, before, stream, after);
            && (hook.Found? ==>
                  exists g | IsGroup(whole, events, sourceId, g, conversationId, turnId) :: ShouldEmit(g))
            && forall g | IsGroup(whole, events, sourceId, g, conversationId, turnId) ::
                 var scan := SourceTurnFromMessages(MetasOf(g));
                 && (hook.Found? <==> scan.Some? && forall m | m in stream :: !OtherConversation(m, expected))
                 && (hook.Found? ==> Canonical(hook.turn) == Canonical(scan.value))
  {
    HookAndScanSelectTheSame(env, fileId, log, quiet, at, later, expected);
    hide Run, Rollout, ScanLog, Whole, Elsewhere, InConversation, StagedWhole, Orderly, Paged, Selected, IsGroup,
        SourceTurnFromMessages, ShouldEmit, StoppedOnAnswer;
    var st := Run(env, fileId, INITIAL, log).0;
    assert st.turnId != "" by { StoppedInATurn(st, expected); }
    var scanned := ScanLog(log, quiet, st.turnId, at, later);
    var stream := Rollout(env, fileId, scanned, None);
    var whole := Whole(printed, sourceId, before, stream, after);
    RolloutAmongOthers(env, printed, sourceId, fileId, scanned, before, after, conversationId, st.turnId, expected);
    if Selected(stream, expected, st.turnId).Found? {
      var g := HookTurnHasGroup(printed, sourceId, whole, events, stream, conversationId, st.turnId, expected);
    }
    forall g | IsGroup(whole, events, sourceId, g, conversationId, st.turnId)
      ensures var hook, scan := Selected(stream, expected, st.turnId), SourceTurnFromMessages(MetasOf(g));
              && (hook.Found? <==> scan.Some? && forall m | m in stream :: !OtherConversation(m, expected))
              && (hook.Found? ==> Canonical(hook.turn) == Canonical(scan.value))
    {
      HookAgreesWithIngestion(printed, sourceId, whole, events, stream, g, conversationId, st.turnId, expected);
    }
  }

  lemma StoppedInATurn(st: State, conversationId: string)
    requires StoppedOnAnswer(st, conversationId)
    ensures st.turnId != ""
  {
  }
}
