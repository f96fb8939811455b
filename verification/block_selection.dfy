/**
 Selecting a turn from a stream in which its messages were staged as one block: what the block was
 staged with decides, not where it stands or which messages it has.
 */
module BlockSelection {
  import opened Wrappers
  import opened SourceTurns

  ghost predicate Expected(messages: seq<RawMessage>, conversationId: string) {
    forall m | m in messages :: !OtherConversation(m, conversationId)
  }

  ghost predicate SomeUnfinished(messages: seq<RawMessage>) {
    exists m | m in messages :: m.meta.state != Some(COMPLETE)
  }

  /** What a staged block contributes to the turns the hook observes. */
  function Contribution(input: StageInput): seq<SourceTurn> {
    if input.reason == "" && input.turn.Some? && Identified(input.turn.value) then [input.turn.value] else []
  }

  lemma StagedShape(messages: seq<RawMessage>, input: StageInput)
    ensures var staged := StageSourceTurnMessages(messages, input);
            |staged| == |messages|
            && forall i | 0 <= i < |messages| ::
                 && staged[i].conversationId == messages[i].conversationId
                 && staged[i].meta.turnId == input.turnId && staged[i].meta.reason == input.reason
                 && staged[i].meta.state == Some(if input.reason != "" then input.reason else COMPLETE)
  {
  }

  lemma StagedEnds(messages: seq<RawMessage>, input: StageInput)
    requires messages != [] && UnstagedInput(messages)
    ensures var staged := StageSourceTurnMessages(messages, input);
            |staged| == |messages| && UnstagedInput(staged[..|staged| - 1])
            && Last(staged).meta.turn == if input.reason == "" then input.turn else None
  {
  }

  lemma NothingStaged(input: StageInput)
    ensures StageSourceTurnMessages([], input) == []
  {
  }

  lemma StagedExpected(messages: seq<RawMessage>, input: StageInput, conversationId: string)
    ensures Expected(StageSourceTurnMessages(messages, input), conversationId) <==> Expected(messages, conversationId)
    ensures forall m | m in StageSourceTurnMessages(messages, input) :: m.meta.turnId == input.turnId
  {
    StagedShape(messages, input);
    hide StageSourceTurnMessages;
    assert forall i | 0 <= i < |messages| ::
        messages[i] in messages
        && StageSourceTurnMessages(messages, input)[i] in StageSourceTurnMessages(messages, input);
  }

  lemma AttachedSingle(message: RawMessage)
    ensures AttachedTurns([message]) == if message.meta.turn.Some? then [message.meta.turn.value] else []
  {
  }

  lemma SingleTurn(message: RawMessage)
    ensures SourceTurnFromMessages([message])
            == if Unfinished(message) || message.meta.turn.None? || !Identified(message.meta.turn.value) then None
                else message.meta.turn
  {
    AttachedSingle(message);
  }

  lemma ObservedSnoc(messages: seq<RawMessage>)
    requires messages != []
    ensures var turn := SourceTurnFromMessages([Last(messages)]);
            Observed(messages) == Observed(messages[..|messages| - 1]) + if turn.Some? then [turn.value] else []
  {
  }

  lemma {:induction false} ObservedPlain(front: seq<RawMessage>, plain: seq<RawMessage>)
    requires UnstagedInput(plain)
    ensures Observed(front + plain) == Observed(front)
  {
    if plain == [] {
      assert front + plain == front;
    } else {
      var rest := plain[..|plain| - 1];
      assert plain == rest + [Last(plain)];
      ObservedPlain(front, rest);
      assert (front + plain)[..|front + plain| - 1] == front + rest;
      AttachedSingle(Last(plain));
    }
  }

  lemma ObservedBlock(front: seq<RawMessage>, messages: seq<RawMessage>, input: StageInput)
    requires messages != [] && UnstagedInput(messages)
    ensures Observed(front + StageSourceTurnMessages(messages, input)) == Observed(front) + Contribution(input)
  {
    hide StageSourceTurnMessages, Observed, SourceTurnFromMessages;
    StagedEnds(messages, input);
    StagedShape(messages, input);
    var staged := StageSourceTurnMessages(messages, input);
    var plain, last := staged[..|staged| - 1], Last(staged);
    ObservedPlain(front, plain);
    assert (front + staged)[..|front + staged| - 1] == front + plain && Last(front + staged) == last;
    SingleTurn(last);
    ObservedSnoc(front + staged);
  }

  lemma UnfinishedBlock(front: seq<RawMessage>, messages: seq<RawMessage>, input: StageInput)
    requires messages != []
    ensures SomeUnfinished(front + StageSourceTurnMessages(messages, input))
            <==> SomeUnfinished(front) || (input.reason != "" && input.reason != COMPLETE)
  {
    StagedShape(messages, input);
    hide StageSourceTurnMessages;
    var staged := StageSourceTurnMessages(messages, input);
    assert staged[0] in front + staged;
    assert forall m | m in front + staged :: m in front || m in staged;
    assert forall m | m in front :: m in front + staged;
  }

  lemma DecideByFacts(run: seq<RawMessage>, run': seq<RawMessage>)
    requires run != [] && run' != [] && ReasonOf(Last(run)) == ReasonOf(Last(run'))
    requires Observed(run) == Observed(run') && (SomeUnfinished(run) <==> SomeUnfinished(run'))
    ensures Decide(run) == Decide(run')
  {
  }

  /** Which messages a block has does not matter for the decision, only what it was staged with. */
  lemma DecideBlock(front: seq<RawMessage>, messages: seq<RawMessage>, messages': seq<RawMessage>, input: StageInput)
    requires messages != [] && UnstagedInput(messages) && messages' != [] && UnstagedInput(messages')
    ensures Decide(front + StageSourceTurnMessages(messages, input))
        == Decide(front + StageSourceTurnMessages(messages', input))
  {
    hide StageSourceTurnMessages, Observed, Contribution, SameContent, Decide, SomeUnfinished;
    var run, run' := front + StageSourceTurnMessages(messages, input),
        front + StageSourceTurnMessages(messages', input);
    ObservedBlock(front, messages, input);
    ObservedBlock(front, messages', input);
    UnfinishedBlock(front, messages, input);
    UnfinishedBlock(front, messages', input);
    StagedShape(messages, input);
    StagedShape(messages', input);
    DecideByFacts(run, run');
  }

  lemma DecideByCases(run: seq<RawMessage>)
    requires run != []
    ensures Decide(run).Found? <==> SameContent(Observed(run)) && !SomeUnfinished(run) && Observed(run) != []
    ensures Decide(run).Found? ==> Decide(run).turn == Last(Observed(run))
  {
  }

  /** Selecting from earlier messages of a turn and one finished block of it. */
  lemma DecideAppended(front: seq<RawMessage>, messages: seq<RawMessage>, input: StageInput)
    requires messages != [] && UnstagedInput(messages)
    requires input.reason == "" && input.turn.Some? && Identified(input.turn.value)
    ensures var selection := Decide(front + StageSourceTurnMessages(messages, input));
            && (selection.Found? <==> SameContent(Observed(front) + [input.turn.value]) && !SomeUnfinished(front))
            && (selection.Found? ==> selection.turn == input.turn.value)
  {
    hide StageSourceTurnMessages, Observed, SomeUnfinished, Decide, SameContent;
    ObservedBlock(front, messages, input);
    UnfinishedBlock(front, messages, input);
    StagedShape(messages, input);
    DecideByCases(front + StageSourceTurnMessages(messages, input));
  }

  lemma {:induction false} WithTurnIdAppend(first: seq<RawMessage>, second: seq<RawMessage>, turnId: string)
    ensures WithTurnId(first + second, turnId) == WithTurnId(first, turnId) + WithTurnId(second, turnId)
  {
    if second == [] {
      assert first + second == first;
    } else {
      var front := second[..|second| - 1];
      WithTurnIdAppend(first, front, turnId);
      assert (first + second)[..|first + second| - 1] == first + front;
    }
  }

  lemma {:induction false} WithTurnIdAll(messages: seq<RawMessage>, turnId: string)
    ensures (forall m | m in messages :: m.meta.turnId == turnId) ==> WithTurnId(messages, turnId) == messages
    ensures turnId != "" && (forall m | m in messages :: m.meta.turnId != turnId) ==> WithTurnId(messages, turnId) == []
  {
    if messages != [] {
      var front := messages[..|messages| - 1];
      assert messages == front + [Last(messages)];
      WithTurnIdAll(front, turnId);
    }
  }

  lemma ExpectedAppend(first: seq<RawMessage>, second: seq<RawMessage>, third: seq<RawMessage>, conversationId: string)
    ensures Expected(first + second + third, conversationId)
            <==> Expected(first, conversationId) && Expected(second, conversationId) && Expected(third, conversationId)
  {
  }

  /** Selecting from a prefix, a block of the turn, and messages of other turns of the conversation. */
  lemma SelectBlock(
    prefix: seq<RawMessage>, messages: seq<RawMessage>, input: StageInput, later: seq<RawMessage>,
    conversationId: string)
    requires input.turnId != ""
    requires Expected(later, conversationId) && forall m | m in later :: m.meta.turnId != input.turnId
    ensures var block := StageSourceTurnMessages(messages, input);
            Selected(prefix + block + later, conversationId, input.turnId)
            == if Expected(prefix, conversationId) && Expected(messages, conversationId)
               then Decide(WithTurnId(prefix, input.turnId) + block) else Missing("identity_conflict")
  {
    var turnId := input.turnId;
    var block := StageSourceTurnMessages(messages, input);
    StagedExpected(messages, input, conversationId);
    WithTurnIdAppend(prefix, block, turnId);
    WithTurnIdAppend(prefix + block, later, turnId);
    WithTurnIdAll(block, turnId);
    WithTurnIdAll(later, turnId);
    var run := WithTurnId(prefix, turnId) + block;
    assert WithTurnId(prefix + block + later, turnId) == run;
    WithTurnIdKeeps(prefix, turnId);
    FinalRunOfOneTurn(run, turnId);
    ExpectedAppend(prefix, block, later, conversationId);
    hide StageSourceTurnMessages, Decide;
  }

  /** Nothing of the turn, and nothing of another conversation. */
  ghost predicate IsNew(messages: seq<RawMessage>, conversationId: string, turnId: string) {
    Expected(messages, conversationId) && forall m | m in messages :: m.meta.turnId != turnId
  }

  lemma NewAppend(a: seq<RawMessage>, b: seq<RawMessage>, conversationId: string, turnId: string)
    requires IsNew(a, conversationId, turnId) && IsNew(b, conversationId, turnId)
    ensures IsNew(a + b, conversationId, turnId)
  {
  }

  lemma NothingDecided()
    ensures Decide([]) == Missing("identity_unresolved")
    ensures Observed([]) == [] && !SomeUnfinished([])
  {
  }

  lemma OneContent(turn: SourceTurn)
    ensures SameContent([turn])
  {
  }

  /** A block without a turn is reported with its reason. */
  lemma UnfinishedIsMissing(messages: seq<RawMessage>, input: StageInput)
    requires messages != [] && UnstagedInput(messages) && input.reason != "" && input.turn.None?
    ensures Decide(StageSourceTurnMessages(messages, input)) == Missing(input.reason)
  {
    var block := StageSourceTurnMessages(messages, input);
    ObservedBlock([], messages, input);
    StagedShape(messages, input);
    assert [] + block == block;
    hide StageSourceTurnMessages;
    assert Observed([]) == [];
    assert Last(block) in block;
  }

  /** The only block of a turn: its turn is selected, or its reason is given. */
  lemma OnlyBlockIsSelected(out: seq<RawMessage>, messages: seq<RawMessage>, input: StageInput, later: seq<RawMessage>,
      conversationId: string)
    requires input.turnId != ""
    requires IsNew(out, conversationId, input.turnId) && IsNew(later, conversationId, input.turnId)
    requires messages != [] && UnstagedInput(messages) && Expected(messages, conversationId)
    requires (input.reason == "" <==> input.turn.Some?) && (input.turn.Some? ==> Identified(input.turn.value))
    ensures Selected(out + StageSourceTurnMessages(messages, input) + later, conversationId, input.turnId)
        == if input.turn.Some? then Found(input.turn.value) else Missing(input.reason)
  {
    hide StageSourceTurnMessages, Selected, Decide, WithTurnId, Identified;
    WithTurnIdAll(out, input.turnId);
    SelectBlock(out, messages, input, later, conversationId);
    assert [] + StageSourceTurnMessages(messages, input) == StageSourceTurnMessages(messages, input);
    if input.reason == "" {
      DecideAppended([], messages, input);
      NothingDecided();
      OneContent(input.turn.value);
    } else {
      UnfinishedIsMissing(messages, input);
    }
  }

  /** Without a block there is nothing to select. */
  lemma NoBlockIsSelected(messages: seq<RawMessage>, conversationId: string, turnId: string)
    requires turnId != "" && IsNew(messages, conversationId, turnId)
    ensures Selected(messages, conversationId, turnId) == Missing("identity_unresolved")
  {
    WithTurnIdAll(messages, turnId);
  }
}
