/**
 The hook and the scan rebuild the same Codex turn. The hook reads the log when Codex stops, at
 which point the turn has its final answer but no completion record; the scan reads a longer log
 that has the completion record and everything that came after it.
 */
module CodexHookAndScan {
  import opened Wrappers
  import opened SourceTurns
  import opened BlockSelection
  import opened CodexSourceTurn
  import opened Text
  import JsonlLines

  /** A record between the final answer and the completion record that is not part of the conversation. */
  predicate Quiet(st: State, event: Event) {
    && event.Record?
    && match event.record.record
       case SessionMeta(sessionId, _) => sessionId == "" || sessionId == st.conversationId
       case TurnStart(turnId, model, _) =>
         (turnId == "" || turnId == st.turnId)
             && (model == "" || (model == INTERNAL_MODEL <==> st.turnModel == INTERNAL_MODEL))
       case Response(turnId, item, _, _) =>
         && (turnId == "" || turnId == st.turnId)
         && match item {
              case MessageItem(role, content) =>
                role == DeveloperItem || role == SystemItem || role == OtherRole || ItemContent(role, content) == ""
              case CallItem(_) => false
              case OutputItem(_) => false
              case OtherItem => true
            }
       case TaskComplete(_, _) => false
       case TaskAborted => false
       case Other => true
  }

  /** The working directory after some records; each names one or leaves it alone. */
  function Directory(path: string, log: seq<Event>): string {
    if log == [] then path
    else
      var before := Directory(path, log[..|log| - 1]);
      var event := Last(log);
      if event.Record? && event.record.record.SessionMeta? then Otherwise(event.record.record.cwd, before)
      else if event.Record? && event.record.record.TurnStart? then Otherwise(event.record.record.cwd, before)
      else before
  }

  /** A record after the completion that neither re-opens the turn nor leaves the expected conversation. */
  predicate Later(conversationId: string, turnId: string, event: Event) {
    event.Record? ==>
      match event.record.record
      case SessionMeta(sessionId, _) => conversationId == "" || sessionId == "" || sessionId == conversationId
      case TurnStart(id, _, _) => id != turnId
      case _ => true
  }

  /** `b` is `a` with only system messages added and possibly another working directory. */
  ghost predicate Carries(fileId: string, a: State, b: State) {
    && b.conversationId == a.conversationId && b.turnId == a.turnId && b.startedAt == a.startedAt
        && b.sequence == a.sequence
    && b.invalidReason == a.invalidReason && b.toolCalls == a.toolCalls && b.toolResults == a.toolResults
    && (b.turnModel == INTERNAL_MODEL <==> a.turnModel == INTERNAL_MODEL)
    && a.current <= b.current
    && forall m | m in b.current[|a.current|..] ::
         m.role == System && m.conversationId == Otherwise(a.conversationId, fileId) && m.meta.turn.None?
  }

  lemma QuietStep(env: Env, fileId: string, a: State, b: State, event: Event)
    requires Carries(fileId, a, b) && Quiet(a, event)
    ensures var (after, out) := Step(env, fileId, b, event);
            out == [] && Carries(fileId, a, after) && after.workspacePath == Directory(b.workspacePath, [event])
  {
    hide Finish, StepResponse, Carries, HasWork, StartedAt;
    assert [event][..0] == [];
    CarriesOn(fileId, a, b);
    if event.record.record.Response? {
      QuietResponse(env, fileId, a, b.(lineNumber := b.lineNumber + 1), event.record);
    }
  }

  /** What `Carries` does not look at may change. */
  lemma CarriesOn(fileId: string, a: State, b: State)
    requires Carries(fileId, a, b)
    ensures b.conversationId == a.conversationId && b.turnId == a.turnId
        && (b.turnModel == INTERNAL_MODEL <==> a.turnModel == INTERNAL_MODEL)
    ensures forall line: nat, path, model | (model == INTERNAL_MODEL <==> a.turnModel == INTERNAL_MODEL) ::
              Carries(fileId, a, b.(lineNumber := line, workspacePath := path, turnModel := model))
  {
  }

  lemma QuietResponse(env: Env, fileId: string, a: State, b: State, entry: Entry)
    requires Carries(fileId, a, b) && Quiet(a, JsonlLines.Record(entry)) && entry.record.Response?
    ensures Carries(fileId, a, StepResponse(env, fileId, b, entry))
        && StepResponse(env, fileId, b, entry).workspacePath == b.workspacePath
  {
    hide ItemContent;
    var after := StepResponse(env, fileId, b, entry);
    var n := |a.current|;
    if |after.current| > |b.current| {
      assert after.current[n..] == b.current[n..] + [Last(after.current)];
    }
  }

  lemma DirectorySnoc(path: string, log: seq<Event>)
    ensures log != [] ==> Directory(path, log) == Directory(Directory(path, log[..|log| - 1]), [Last(log)])
  {
  }

  lemma {:induction false} QuietRun(env: Env, fileId: string, a: State, log: seq<Event>)
    requires forall e | e in log :: Quiet(a, e)
    ensures var (after, out) := Run(env, fileId, a, log);
            out == [] && Carries(fileId, a, after) && after.workspacePath == Directory(a.workspacePath, log)
  {
    if log == [] {
      assert a.current[|a.current|..] == [];
    } else {
      hide Step, Carries, Quiet;
      var front := log[..|log| - 1];
      assert log == front + [Last(log)];
      QuietRun(env, fileId, a, front);
      QuietStep(env, fileId, a, Run(env, fileId, a, front).0, Last(log));
      DirectorySnoc(a.workspacePath, log);
    }
  }

  lemma {:induction false} RunAppend(env: Env, fileId: string, st: State, first: seq<Event>, second: seq<Event>)
    ensures var (middle, out) := Run(env, fileId, st, first);
            var (after, more) := Run(env, fileId, middle, second);
            Run(env, fileId, st, first + second) == (after, out + more)
  {
    hide Step;
    var (middle, out) := Run(env, fileId, st, first);
    if second == [] {
      assert first + second == first && out + [] == out;
    } else {
      var front := second[..|second| - 1];
      RunAppend(env, fileId, st, first, front);
      assert (first + second)[..|first + second| - 1] == first + front;
      var (before, some) := Run(env, fileId, middle, front);
      var (after, more) := Step(env, fileId, before, Last(second));
      assert out + some + more == out + (some + more);
    }
  }

  // ---------------------------------------------------------------------------------------
  // The turn depends on the conversation only
  // ---------------------------------------------------------------------------------------

  lemma {:induction false} SpokenPrefix(messages: seq<RawMessage>, more: seq<RawMessage>)
    requires forall m | m in more :: m.role == System
    ensures Spoken(messages + more) == Spoken(messages)
    ensures Contents(messages + more, User) == Contents(messages, User)
    ensures Contents(messages + more, Assistant) == Contents(messages, Assistant)
  {
    if more == [] {
      assert messages + more == messages;
    } else {
      var front := more[..|more| - 1];
      assert more == front + [Last(more)];
      SpokenPrefix(messages, front);
      assert (messages + more)[..|messages + more| - 1] == messages + front;
    }
  }

  lemma SameTurn(env: Env, fileId: string, a: State, b: State, at: Time)
    requires Carries(fileId, a, b) && EndsWithFinalAnswer(a.current)
    ensures EndsWithFinalAnswer(b.current)
    ensures var stopped, completed := Stopped(Last(Spoken(a.current)).createdAt), Completed(Some(at), a.turnId, false);
            && FinishReason(b, completed) == FinishReason(a, stopped)
            && FinishTurn(env, a, stopped).Some? == FinishTurn(env, b, completed).Some?
            && (FinishTurn(env, a, stopped).Some? ==>
                  FinishTurn(env, b, completed).value
                      == FinishTurn(env, a, stopped).value.(workspacePath := b.workspacePath))
  {
    SpokenPrefix(a.current, b.current[|a.current|..]);
    assert b.current == a.current + b.current[|a.current|..];
  }

  // ---------------------------------------------------------------------------------------
  // What later records can add
  // ---------------------------------------------------------------------------------------

  /** The turn is closed, and what is open belongs to the expected conversation. */
  ghost predicate Past(fileId: string, conversationId: string, turnId: string, st: State) {
    && st.turnId != turnId
    && (conversationId != "" ==> st.conversationId == conversationId)
    && Expected(st.current, conversationId)
  }

  lemma FinishPast(env: Env, fileId: string, conversationId: string, turnId: string, st: State, ending: Ending)
    requires Past(fileId, conversationId, turnId, st)
    ensures var (after, out) := Finish(env, fileId, st, ending);
            Past(fileId, conversationId, turnId, after) && Expected(out, conversationId) && forall m | m in out ::
                m.meta.turnId != turnId
  {
    hide StageSourceTurnMessages, FinishReason, FinishTurn, Spoken;
    var completion := if ending.Completed? && ending.at.Some? then [CompletionMessage(fileId, st, ending.at.value)]
        else [];
    StagedExpected(st.current + completion,
        StageInput(st.turnId, None, None, FinishReason(st, ending), FinishTurn(env, st, ending)), conversationId);
    assert forall m | m in st.current + completion :: m in st.current || m in completion;
  }

  lemma StepPast(env: Env, fileId: string, conversationId: string, turnId: string, st: State, event: Event)
    requires turnId != "" && Past(fileId, conversationId, turnId, st) && Later(conversationId, turnId, event)
    ensures var (after, out) := Step(env, fileId, st, event);
            Past(fileId, conversationId, turnId, after) && Expected(out, conversationId) && forall m | m in out ::
                m.meta.turnId != turnId
  {
    hide Finish, ItemContent;
    if event.Record? {
      var counted := st.(lineNumber := st.lineNumber + 1);
      match event.record.record {
        case SessionMeta(_, _) => FinishPast(env, fileId, conversationId, turnId,
            counted.(invalidReason := "identity_conflict"), Open);
        case TurnStart(_, _, _) => FinishPast(env, fileId, conversationId, turnId, counted, Open);
        case TaskComplete(id, failed) =>
          FinishPast(env, fileId, conversationId, turnId, counted, Completed(event.record.timestamp, id, failed));
          FinishPast(env, fileId, conversationId, turnId, counted.(invalidReason := "identity_conflict"),
              Completed(event.record.timestamp, id, failed));
        case TaskAborted => FinishPast(env, fileId, conversationId, turnId,
            counted.(invalidReason := "turn_cancelled"), Open);
        case Response(_, _, _, _) =>
        case Other =>
      }
    }
  }

  lemma {:induction false} RunPast(env: Env, fileId: string, conversationId: string, turnId: string, st: State,
      log: seq<Event>)
    requires turnId != "" && Past(fileId, conversationId, turnId, st) && forall e | e in log ::
        Later(conversationId, turnId, e)
    ensures var (after, out) := Run(env, fileId, st, log);
            Past(fileId, conversationId, turnId, after) && Expected(out, conversationId) && forall m | m in out ::
                m.meta.turnId != turnId
  {
    hide Step, Past, Later;
    if log != [] {
      var front := log[..|log| - 1];
      assert log == front + [Last(log)];
      RunPast(env, fileId, conversationId, turnId, st, front);
      StepPast(env, fileId, conversationId, turnId, Run(env, fileId, st, front).0, Last(log));
    }
  }

  lemma {:induction false} RunKeepsUnstaged(env: Env, fileId: string, log: seq<Event>)
    ensures UnstagedInput(Run(env, fileId, INITIAL, log).0.current)
  {
    if log != [] {
      var front := log[..|log| - 1];
      RunKeepsUnstaged(env, fileId, front);
      StepKeepsUnstaged(env, fileId, Run(env, fileId, INITIAL, front).0, Last(log));
    }
  }

  lemma StepKeepsUnstaged(env: Env, fileId: string, st: State, event: Event)
    requires UnstagedInput(st.current)
    ensures UnstagedInput(Step(env, fileId, st, event).0.current)
  {
    assert forall s: State, e: Ending {:trigger Finish(env, fileId, s, e)} ::
        Finish(env, fileId, s, e).0.current in {s.current, []};
    hide Finish, ItemContent;
  }

  // ---------------------------------------------------------------------------------------
  // Main results
  // ---------------------------------------------------------------------------------------

  /** What the hook knows when Codex stops on a final answer. */
  ghost predicate StoppedOnAnswer(st: State, conversationId: string) {
    st.turnId != "" && EndsWithFinalAnswer(st.current) && (conversationId == "" || conversationId == st.conversationId)
  }

  function Completion(turnId: string, at: Time): Event {
    JsonlLines.Record(Entry(Some(at), TaskComplete(turnId, false)))
  }

  /** The longer log the scan reads. */
  function ScanLog(log: seq<Event>, quiet: seq<Event>, turnId: string, at: Time, later: seq<Event>): seq<Event> {
    log + quiet + [Completion(turnId, at)] + later
  }

  function Input(env: Env, st: State, workspacePath: string): StageInput
    requires EndsWithFinalAnswer(st.current)
  {
    var ending := Stopped(Last(Spoken(st.current)).createdAt);
    var turn := FinishTurn(env, st, ending);
    StageInput(st.turnId, None, None, FinishReason(st, ending),
               if turn.Some? then Some(turn.value.(workspacePath := workspacePath)) else None)
  }

  lemma HookReads(env: Env, fileId: string, log: seq<Event>, conversationId: string)
    requires StoppedOnAnswer(Run(env, fileId, INITIAL, log).0, conversationId)
    ensures var (st, out) := Run(env, fileId, INITIAL, log);
            Rollout(env, fileId, log, Some(Stop(conversationId, st.turnId)))
            == out + if st.turnModel == INTERNAL_MODEL then []
                else StageSourceTurnMessages(st.current, Input(env, st, st.workspacePath))
  {
    var (st, out) := Run(env, fileId, INITIAL, log);
    assert st.current + [] == st.current;
    hide Run, StageSourceTurnMessages, EndsWithFinalAnswer;
  }

  /** What the scan reads: the same prefix, the block of the turn, then other turns. */
  lemma ScanReads(env: Env, fileId: string, log: seq<Event>, quiet: seq<Event>, at: Time, later: seq<Event>,
      conversationId: string)
    returns (messages: seq<RawMessage>, others: seq<RawMessage>)
    requires var st := Run(env, fileId, INITIAL, log).0;
             && StoppedOnAnswer(st, conversationId) && (forall e | e in quiet :: Quiet(st, e))
             && forall e | e in later :: Later(conversationId, st.turnId, e)
    ensures var (st, out) := Run(env, fileId, INITIAL, log);
            && Rollout(env, fileId, ScanLog(log, quiet, st.turnId, at, later), None)
               == out + (if st.turnModel == INTERNAL_MODEL then []
                         else StageSourceTurnMessages(messages, Input(env, st, Directory(st.workspacePath, quiet))))
                             + others
            && messages != [] && UnstagedInput(messages)
            && (Expected(messages, conversationId) <==> Expected(st.current, conversationId))
            && Expected(others, conversationId) && forall m | m in others :: m.meta.turnId != st.turnId
  {
    hide Run, Step, AtEnd, StageSourceTurnMessages, Input, Quiet, Later;
    var (st, out) := Run(env, fileId, INITIAL, log);
    var complete := Completion(st.turnId, at);
    QuietRun(env, fileId, st, quiet);
    RunKeepsUnstaged(env, fileId, log);
    var quieted := Run(env, fileId, st, quiet).0;
    messages := Closing(fileId, quieted, at);
    var closed := Cleared(quieted.(lineNumber := quieted.lineNumber + 1)).(turnId := "", startedAt := None);
    CompletionStep(env, fileId, st, quieted, at);
    ClosingMessages(fileId, st, quieted, at, conversationId);
    var block := if st.turnModel == INTERNAL_MODEL then []
        else StageSourceTurnMessages(messages, Input(env, st, quieted.workspacePath));
    ScanTail(env, fileId, closed, later, conversationId, st.turnId);
    var (last, more) := Run(env, fileId, closed, later);
    others := more + AtEnd(env, fileId, last, None);
    RunAppend(env, fileId, INITIAL, log, quiet);
    RunAppend(env, fileId, INITIAL, log + quiet, [complete]);
    RunAppend(env, fileId, INITIAL, log + quiet + [complete], later);
    RunOne(env, fileId, quieted, complete);
    assert Run(env, fileId, INITIAL, ScanLog(log, quiet, st.turnId, at, later)) == (last, out + [] + block + more);
    assert out + [] + block + more + AtEnd(env, fileId, last, None) == out + block + others;
  }

  function Closing(fileId: string, quieted: State, at: Time): seq<RawMessage> {
    quieted.current + [CompletionMessage(fileId, quieted.(lineNumber := quieted.lineNumber + 1), at)]
  }

  /** The completion record stages the turn of the answer, and nothing stays open. */
  lemma CompletionStep(env: Env, fileId: string, st: State, quieted: State, at: Time)
    requires st.turnId != "" && EndsWithFinalAnswer(st.current) && Carries(fileId, st, quieted)
    ensures Step(env, fileId, quieted, Completion(st.turnId, at))
            == (Cleared(quieted.(lineNumber := quieted.lineNumber + 1)).(turnId := "", startedAt := None),
                if st.turnModel == INTERNAL_MODEL then []
                else StageSourceTurnMessages(Closing(fileId, quieted, at), Input(env, st, quieted.workspacePath)))
  {
    hide Finish, StageSourceTurnMessages, Input, EndsWithFinalAnswer;
    CompletionFinish(env, fileId, st, quieted.(lineNumber := quieted.lineNumber + 1), at);
  }

  lemma ClosingMessages(fileId: string, st: State, quieted: State, at: Time, conversationId: string)
    requires StoppedOnAnswer(st, conversationId) && UnstagedInput(st.current) && Carries(fileId, st, quieted)
    ensures UnstagedInput(Closing(fileId, quieted, at))
    ensures Expected(Closing(fileId, quieted, at), conversationId) <==> Expected(st.current, conversationId)
  {
  }

  lemma CompletionFinish(env: Env, fileId: string, st: State, counted: State, at: Time)
    requires st.turnId != "" && EndsWithFinalAnswer(st.current) && Carries(fileId, st, counted)
    ensures Finish(env, fileId, counted, Completed(Some(at), st.turnId, false))
            == (Cleared(counted),
                if st.turnModel == INTERNAL_MODEL then []
                else StageSourceTurnMessages(counted.current + [CompletionMessage(fileId, counted, at)],
                    Input(env, st, counted.workspacePath)))
  {
    hide StageSourceTurnMessages, FinishReason, FinishTurn;
    SameTurn(env, fileId, st, counted, at);
  }

  lemma RunOne(env: Env, fileId: string, st: State, event: Event)
    ensures Run(env, fileId, st, [event]) == Step(env, fileId, st, event)
  {
    assert [event][..0] == [];
    var out := Step(env, fileId, st, event).1;
    assert [] + out == out;
  }

  lemma ScanTail(env: Env, fileId: string, closed: State, later: seq<Event>, conversationId: string, turnId: string)
    requires turnId != "" && closed.turnId == "" && closed.current == []
    requires conversationId == "" || conversationId == closed.conversationId
    requires forall e | e in later :: Later(conversationId, turnId, e)
    ensures var (last, out) := Run(env, fileId, closed, later);
            var others := out + AtEnd(env, fileId, last, None);
            Expected(others, conversationId) && forall m | m in others :: m.meta.turnId != turnId
  {
    RunPast(env, fileId, conversationId, turnId, closed, later);
    var (last, out) := Run(env, fileId, closed, later);
    FinishPast(env, fileId, conversationId, turnId, last, Open);
    hide Run, Finish;
    var others := out + AtEnd(env, fileId, last, None);
    assert forall m | m in others :: m in out || m in AtEnd(env, fileId, last, None);
  }

  /**
   The hook's reading of a log that stops on a final answer and the scan's later reading select
   the same turn, or report the same reason, whatever the log was before and becomes after.
   */
  lemma HookAndScanSelectTheSame(
    env: Env, fileId: string, log: seq<Event>, quiet: seq<Event>, at: Time, later: seq<Event>, conversationId: string)
    requires var st := Run(env, fileId, INITIAL, log).0;
             && StoppedOnAnswer(st, conversationId) && (forall e | e in quiet :: Quiet(st, e))
             && Directory(st.workspacePath, quiet) == st.workspacePath
             && forall e | e in later :: Later(conversationId, st.turnId, e)
    ensures var st := Run(env, fileId, INITIAL, log).0;
            Selected(Rollout(env, fileId, log, Some(Stop(conversationId, st.turnId))), conversationId, st.turnId)
            == Selected(Rollout(env, fileId, ScanLog(log, quiet, st.turnId, at, later), None), conversationId,
                st.turnId)
  {
    var (st, out) := Run(env, fileId, INITIAL, log);
    HookReads(env, fileId, log, conversationId);
    var messages, others := ScanReads(env, fileId, log, quiet, at, later, conversationId);
    RunKeepsUnstaged(env, fileId, log);
    var input := Input(env, st, st.workspacePath);
    if st.turnModel == INTERNAL_MODEL {
      SelectBlock(out, [], input, [], conversationId);
      SelectBlock(out, [], input, others, conversationId);
      assert StageSourceTurnMessages([], input) == [];
    } else {
      SelectBlock(out, st.current, input, [], conversationId);
      SelectBlock(out, messages, input, others, conversationId);
      DecideBlock(WithTurnId(out, st.turnId), st.current, messages, input);
    }
    hide Run, Rollout, Selected, StageSourceTurnMessages, Input, ScanLog;
    assert forall s: seq<RawMessage> :: s + [] == s;
  }

  /** The turn that ends in the answer adds a turn of its own to what is selected. */
  predicate Contributes(env: Env, st: State)
    requires EndsWithFinalAnswer(st.current)
  {
    st.turnModel != INTERNAL_MODEL && Input(env, st, st.workspacePath).reason == ""
  }

  /**
   The working directory is the one thing a quiet record may change. When the hook accepts the turn
   of the answer, the scan accepts it with equal content exactly when the last directory named is
   the old one; with another directory the scan still accepts it unless the log had an earlier
   finished block of that turn, and then the contents differ. When the answer adds no turn of its
   own, both select the same earlier one.
   */
  lemma DirectoryDecidesContent(
    env: Env, fileId: string, log: seq<Event>, quiet: seq<Event>, at: Time, later: seq<Event>, conversationId: string)
    requires var (st, out) := Run(env, fileId, INITIAL, log);
             && StoppedOnAnswer(st, conversationId) && (forall e | e in quiet :: Quiet(st, e))
             && (forall e | e in later :: Later(conversationId, st.turnId, e))
             && Selected(Rollout(env, fileId, log, Some(Stop(conversationId, st.turnId))), conversationId,
                 st.turnId).Found?
    ensures var (st, out) := Run(env, fileId, INITIAL, log);
            var hook := Selected(Rollout(env, fileId, log, Some(Stop(conversationId, st.turnId))), conversationId,
                st.turnId);
            var scan := Selected(Rollout(env, fileId, ScanLog(log, quiet, st.turnId, at, later), None),
                conversationId, st.turnId);
            var same := Directory(st.workspacePath, quiet) == st.workspacePath;
            if Contributes(env, st) then
              && (scan.Found? && Canonical(scan.turn) == Canonical(hook.turn) <==> same)
              && (scan.Found? <==> same || Observed(WithTurnId(out, st.turnId)) == [])
            else scan == hook
  {
    hide Run, Rollout, Selected, StageSourceTurnMessages, ScanLog, Quiet, Later, Decide, WithTurnId, FinishTurn,
        Observed, Canonical;
    var (st, out) := Run(env, fileId, INITIAL, log);
    HookReads(env, fileId, log, conversationId);
    var messages, others := ScanReads(env, fileId, log, quiet, at, later, conversationId);
    RunKeepsUnstaged(env, fileId, log);
    var path := Directory(st.workspacePath, quiet);
    var input, input' := Input(env, st, st.workspacePath), Input(env, st, path);
    assert forall s: seq<RawMessage> :: s + [] == s && [] + s == s;
    InputShape(env, st, st.workspacePath);
    InputShape(env, st, path);
    if st.turnModel == INTERNAL_MODEL {
      SelectBlock(out, [], input, [], conversationId);
      SelectBlock(out, [], input, others, conversationId);
      NothingStaged(input);
    } else {
      SelectBlock(out, st.current, input, [], conversationId);
      SelectBlock(out, messages, input', others, conversationId);
      var pre := WithTurnId(out, st.turnId);
      if input.reason != "" {
        DecideBlock(pre, st.current, messages, input);
      } else {
        DecideAppended(pre, st.current, input);
        DecideAppended(pre, messages, input');
        OtherDirectory(Observed(pre), input.turn.value, input'.turn.value);
      }
    }
  }

  lemma InputShape(env: Env, st: State, workspacePath: string)
    requires EndsWithFinalAnswer(st.current)
    ensures var input, before := Input(env, st, workspacePath), Input(env, st, st.workspacePath);
            && input.turnId == st.turnId && input.reason == before.reason
            && (input.reason != "" ==> input == before)
            && (input.reason == "" ==>
                  && input.turn.Some? && before.turn.Some? && Identified(input.turn.value)
                  && input.turn.value == before.turn.value.(workspacePath := workspacePath)
                  && before.turn.value.workspacePath == st.workspacePath)
  {
  }

  /** Turns that agree with one turn agree with it in another directory only if there are none. */
  lemma OtherDirectory(turns: seq<SourceTurn>, turn: SourceTurn, moved: SourceTurn)
    requires moved == turn.(workspacePath := moved.workspacePath) && SameContent(turns + [turn])
    ensures Canonical(turn) == Canonical(moved) <==> turn.workspacePath == moved.workspacePath
    ensures SameContent(turns + [moved]) <==> turns == [] || turn.workspacePath == moved.workspacePath
  {
  }
}
