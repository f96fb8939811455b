/**
 From the log to the captured turn: what a native reader staged reaches ingestion through a table
 that was written in interrupted passes, read back in another order and cut again. The scan makes
 of the group it ingests what the hook makes of the reader's stream.
 */
module StagedAgreement {
  import opened Wrappers
  import opened SourceTurns
  import opened Ordering
  import opened ScanStore
  import opened ScanPages
  import opened TurnCut
  import opened TurnPasses

  /** How message ids are printed. */
  type Printer = MessageId -> string

  function Converted(printed: Printer, sourceId: string, m: RawMessage): ConversationMessage {
    ConversationMessage(sourceId, m.conversationId, printed(m.messageId), m.role, m.content, m.createdAt, m.meta)
  }

  function ConvertedAll(printed: Printer, sourceId: string, stream: seq<RawMessage>): seq<ConversationMessage> {
    seq(|stream|, i requires 0 <= i < |stream| => Converted(printed, sourceId, stream[i]))
  }

  /** Of a message only the metadata counts for `sourceTurnFromMessages`. */
  function MetaOnly(m: ConversationMessage): RawMessage {
    RawMessage(Native(m.messageId), m.conversationId, m.role, m.content, m.createdAt, 0, m.meta)
  }

  function MetasOf(g: Turn): seq<RawMessage> {
    seq(|g|, i requires 0 <= i < |g| => MetaOnly(g[i]))
  }

  /** A pass has read the whole stream, after any interrupted ones. */
  ghost predicate StagedWhole(stream: seq<ConversationMessage>, events: seq<Event>, sourceId: string) {
    FromSource(stream, events, sourceId) && RunEvents(stream, events).at == |stream|
  }

  /** What the passes then read. */
  function Paged(stream: seq<ConversationMessage>, events: seq<Event>, sourceId: string): seq<ConversationMessage> {
    Messages(Sort(KeyLess, View(RunEvents(stream, events).rows, sourceId)))
  }

  lemma {:induction false} ContentIsMember(stream: seq<ConversationMessage>, key: Key)
    ensures Content(stream, key).Some? ==> Content(stream, key).value in stream
  {
    if stream != [] {
      ContentIsMember(stream[..|stream| - 1], key);
      assert stream == stream[..|stream| - 1] + [Last(stream)];
    }
  }

  lemma RowsCoverStream(stream: seq<ConversationMessage>, rows: seq<StagedRow>)
    requires Agrees(stream, |stream|, |stream|, rows)
    requires forall i | 0 <= i < |rows| :: Content(stream, KeyOf(rows[i].message)) == Some(rows[i].message)
    ensures forall x | x in Messages(rows) :: x in stream
    ensures forall m | m in stream :: exists x | x in Messages(rows) :: KeyOf(x) == KeyOf(m)
  {
    hide FirstKeys, Content, RowAgrees;
    assert stream[..|stream|] == stream;
    forall x | x in Messages(rows) ensures x in stream {
      var i :| 0 <= i < |rows| && Messages(rows)[i] == x;
      ContentIsMember(stream, KeyOf(x));
    }
    forall m | m in stream ensures exists x | x in Messages(rows) :: KeyOf(x) == KeyOf(m) {
      AppearsSomewhere(stream, KeyOf(m));
      var i :| 0 <= i < |rows| && Keys(rows)[i] == KeyOf(m);
      assert Messages(rows)[i] in Messages(rows);
    }
  }

  lemma PagedMembers(rows: seq<StagedRow>)
    ensures forall m :: m in Messages(Sort(KeyLess, rows)) <==> m in Messages(rows)
  {
    hide Sort, KeyLess;
    var sorted := Sort(KeyLess, rows);
    SortKeeps(KeyLess, rows);
    assert forall i | 0 <= i < |sorted| :: Messages(sorted)[i] == sorted[i].message && sorted[i] in rows;
    assert forall i | 0 <= i < |rows| :: Messages(rows)[i] == rows[i].message && rows[i] in sorted;
    forall m | m in Messages(sorted) ensures m in Messages(rows) {
      var i :| 0 <= i < |sorted| && Messages(sorted)[i] == m;
      var j :| 0 <= j < |rows| && rows[j] == sorted[i];
      assert Messages(rows)[j] == m;
    }
    forall m | m in Messages(rows) ensures m in Messages(sorted) {
      var i :| 0 <= i < |rows| && Messages(rows)[i] == m;
      var j :| 0 <= j < |sorted| && sorted[j] == rows[i];
      assert Messages(sorted)[j] == m;
    }
  }

  /**
   What is paged out of any interrupted staging of a stream comes from the stream, has each of its
   keys once, and ascends in time; a message whose key no other message has is among it.
   */
  lemma StagedAndPaged(stream: seq<ConversationMessage>, events: seq<Event>, sourceId: string)
    requires StagedWhole(stream, events, sourceId)
    ensures var paged := Paged(stream, events, sourceId);
            && (forall x | x in paged :: x in stream)
            && (forall m | m in stream :: exists x | x in paged :: KeyOf(x) == KeyOf(m))
            && (forall m | m in stream && Sole(stream, m) :: m in paged)
            && DistinctMessages(paged) && TimesAscend(paged)
  {
    hide View, RunEvents, StageAll, Sort, KeyLess, Agrees, Content, DistinctMessages, TimesAscend;
    var w := RunEvents(stream, events);
    var rows := View(w.rows, sourceId);
    StagingSurvivesInterruption(stream, events, sourceId);
    RunAgrees(stream, events, sourceId);
    AgreesBounds(stream, w.at, w.reached, rows);
    RowsCoverStream(stream, rows);
    PagedMembers(rows);
    ViewWellformed(w.rows, w.next, sourceId);
    ViewMembers(w.rows, sourceId);
    PagesAreOrdered(rows, w.next, sourceId);
  }

  /** No other message would be staged in its place. */
  ghost predicate Sole(stream: seq<ConversationMessage>, m: ConversationMessage) {
    forall x | x in stream && KeyOf(x) == KeyOf(m) :: x == m
  }

  lemma {:induction false} InSomeGroup(groups: seq<Turn>, m: ConversationMessage) returns (k: nat)
    requires m in Flatten(groups)
    ensures k < |groups| && m in groups[k]
  {
    if m in groups[0] {
      k := 0;
    } else {
      k := InSomeGroup(groups[1..], m);
      k := k + 1;
    }
  }

  /** Contiguous turn ids put all messages of a turn into one group. */
  lemma GroupIsWhole(messages: seq<ConversationMessage>, g: Turn, m: ConversationMessage)
    requires Orderly(messages) && g in Cut(BeginsNextTurn, messages)
    ensures g != [] && (NativeMessage(g[0]) && m in messages ==> (m in g <==> SameNativeTurn(g[0], m)))
  {
    hide Orderly, Cut, AddMessage, Flatten, Contiguous, NamesApart, DistinctMessages;
    var groups: seq<Turn> := Cut(BeginsNextTurn, messages);
    CutGroups(BeginsNextTurn, messages);
    assert GroupOf(messages, g) && g[0] in g;
    if NativeMessage(g[0]) && m in messages {
      CutIsPartition(BeginsNextTurn, messages);
      OrderlyIsUniform(messages);
      GroupsAreTurns(Ingesting, messages);
      var k := InSomeGroup(groups, m);
      assert GroupOf(messages, groups[k]) && groups[k][0] in messages && g[0] in messages && OneTurn(groups[k])
          && OneTurn(g);
      KeysAreDistinct(Ingesting, messages);
      var j :| 0 <= j < |groups| && groups[j] == g;
      if SameNativeTurn(g[0], m) {
        SameTurnSameKey(messages, groups[k], g, m);
        assert j == k;
      }
    }
  }

  lemma OrderlyIsUniform(messages: seq<ConversationMessage>)
    ensures Orderly(messages) ==> Uniform(messages)
  {
  }

  lemma SameTurnSameKey(messages: seq<ConversationMessage>, h: Turn, g: Turn, m: ConversationMessage)
    requires Uniform(messages) && GroupOf(messages, h) && OneTurn(h) && m in h && g != [] && SameNativeTurn(g[0], m)
    ensures GroupKey(h) == GroupKey(g)
  {
  }

  lemma {:induction false} WithTurnIdMembers(messages: seq<RawMessage>, turnId: string)
    requires turnId != ""
    ensures forall m :: m in WithTurnId(messages, turnId) <==> m in messages && m.meta.turnId == turnId
  {
    if messages != [] {
      WithTurnIdMembers(messages[..|messages| - 1], turnId);
      assert messages == messages[..|messages| - 1] + [Last(messages)];
    }
  }

  // ---------------------------------------------------------------------------------------
  // The hook's turn and the group that is ingested
  // ---------------------------------------------------------------------------------------

  /** The message neither spoils the turn nor contradicts it. */
  predicate AgreesWith(m: RawMessage, turn: SourceTurn) {
    !Unfinished(m) && (m.meta.turn.Some? ==> Canonical(m.meta.turn.value) == Canonical(turn))
  }

  /** Accepting some messages of a turn, and accepting all of them. */
  lemma AcceptedWithin(some: seq<RawMessage>, all: seq<RawMessage>)
    requires forall m | m in some :: exists x | x in all :: x.meta == m.meta
    ensures var a, b := SourceTurnFromMessages(some), SourceTurnFromMessages(all);
            && (a.Some? ==> (b.Some? <==> forall m | m in all :: AgreesWith(m, a.value)))
            && (b.Some? ==> (a.Some? <==> AttachedTurns(some) != []))
            && (a.Some? && b.Some? ==> Canonical(a.value) == Canonical(b.value))
  {
    hide AttachedTurns, SourceTurnFromMessages, Unfinished;
    AcceptedByTheScan(some);
    AcceptedByTheScan(all);
    SameAttached(some, all);
    AttachedMembers(some);
    AttachedMembers(all);
    FirstIsMember(AttachedTurns(some));
    FirstIsMember(AttachedTurns(all));
  }

  /** The messages of a turn of a conversation, as staged. */
  predicate OfTurn(m: ConversationMessage, conversationId: string, turnId: string) {
    NativeMessage(m) && m.conversationId == conversationId && m.meta.turnId == turnId
  }

  /** The reader's messages of the turn are all that were staged for it; `whole` may have other files. */
  ghost predicate ReadsTurn(printed: Printer, sourceId: string, whole: seq<ConversationMessage>,
      stream: seq<RawMessage>, conversationId: string, turnId: string) {
    && ProperlyStaged(WithTurnId(stream, turnId))
    && (forall m | m in stream :: Converted(printed, sourceId, m) in whole)
    && forall x | x in whole && OfTurn(x, conversationId, turnId) ::
         exists m | m in stream :: Converted(printed, sourceId, m) == x
  }

  ghost predicate IsGroup(whole: seq<ConversationMessage>, events: seq<Event>, sourceId: string, g: Turn,
      conversationId: string, turnId: string) {
    g != [] && g in Cut(BeginsNextTurn, Paged(whole, events, sourceId)) && OfTurn(g[0], conversationId, turnId)
  }

  lemma GroupMembers(whole: seq<ConversationMessage>, events: seq<Event>, sourceId: string, g: Turn,
      conversationId: string, turnId: string)
    requires StagedWhole(whole, events, sourceId) && Orderly(Paged(whole, events, sourceId))
    requires IsGroup(whole, events, sourceId, g, conversationId, turnId)
    ensures forall x | x in g :: x in whole && OfTurn(x, conversationId, turnId)
    ensures forall m | m in whole && Sole(whole, m) && OfTurn(m, conversationId, turnId) :: m in g
  {
    hide Paged, Orderly, Cut, StagedWhole, Sole, GroupOf, DistinctMessages, TimesAscend;
    var paged := Paged(whole, events, sourceId);
    StagedAndPaged(whole, events, sourceId);
    CutGroups(BeginsNextTurn, paged);
    forall x | x in g ensures x in whole && OfTurn(x, conversationId, turnId) {
      InItsGroup(paged, g, x);
      GroupIsWhole(paged, g, x);
    }
    forall m | m in whole && Sole(whole, m) && OfTurn(m, conversationId, turnId) ensures m in g {
      GroupIsWhole(paged, g, m);
    }
  }

  lemma InItsGroup(messages: seq<ConversationMessage>, g: Turn, x: ConversationMessage)
    requires GroupOf(messages, g) && x in g
    ensures x in messages
  {
  }

  lemma GroupMetas(printed: Printer, sourceId: string, whole: seq<ConversationMessage>, stream: seq<RawMessage>,
      g: Turn, conversationId: string, turnId: string)
    requires turnId != "" && ReadsTurn(printed, sourceId, whole, stream, conversationId, turnId)
    requires forall x | x in g :: x in whole && OfTurn(x, conversationId, turnId)
    ensures var group := WithTurnId(stream, turnId);
            && (forall m | m in MetasOf(g) :: exists x | x in group :: x.meta == m.meta)
            && (forall m | m in group && Converted(printed, sourceId, m) in g ::
                  exists x | x in MetasOf(g) :: x.meta == m.meta)
  {
    var group := WithTurnId(stream, turnId);
    WithTurnIdMembers(stream, turnId);
    hide ProperlyStaged, WithTurnId;
    forall m | m in MetasOf(g) ensures exists x | x in group :: x.meta == m.meta {
      var k :| 0 <= k < |g| && MetasOf(g)[k] == m;
      assert g[k] in g;
      var x :| x in stream && Converted(printed, sourceId, x) == g[k];
      assert x in group;
    }
    forall m | m in group && Converted(printed, sourceId, m) in g
      ensures exists x | x in MetasOf(g) :: x.meta == m.meta
    {
      var k :| 0 <= k < |g| && g[k] == Converted(printed, sourceId, m);
      assert MetasOf(g)[k] in MetasOf(g);
    }
  }

  /** A message of the reader's turn that another one was staged in place of, or that is of another conversation. */
  predicate Superseded(printed: Printer, sourceId: string, g: Turn, turnId: string, m: RawMessage) {
    m.meta.turnId == turnId && Converted(printed, sourceId, m) !in g
  }

  /**
   From a reader's stream to the ingested group, through interrupted staging, paging and cutting, and
   with messages staged again under their ids: when ingestion accepts the group, the hook accepts the
   turn exactly when no message is of another conversation and every superseded message agrees; when
   the hook accepts it, ingestion does exactly when a message that is left carries a turn; and what
   both accept has equal canonical content.
   */
  lemma HookAgreesExactly(printed: Printer, sourceId: string, whole: seq<ConversationMessage>,
      events: seq<Event>, stream: seq<RawMessage>, g: Turn, conversationId: string, turnId: string, expected: string)
    requires StagedWhole(whole, events, sourceId) && Orderly(Paged(whole, events, sourceId))
    requires turnId != "" && IsGroup(whole, events, sourceId, g, conversationId, turnId)
    requires ReadsTurn(printed, sourceId, whole, stream, conversationId, turnId)
    ensures var hook, scan := Selected(stream, expected, turnId), SourceTurnFromMessages(MetasOf(g));
            && (scan.Some? ==>
                  (hook.Found?
                   <==> && (forall m | m in stream :: !OtherConversation(m, expected))
                        && forall m | m in stream && Superseded(printed, sourceId, g, turnId, m) ::
                             AgreesWith(m, scan.value)))
            && (hook.Found? ==> (scan.Some? <==> exists x | x in g :: x.meta.turn.Some?))
            && (hook.Found? && scan.Some? ==> Canonical(hook.turn) == Canonical(scan.value))
  {
    hide Paged, Orderly, StagedWhole, IsGroup, OfTurn, Selected, SourceTurnFromMessages, ProperlyStaged, AgreesWith,
        Superseded, WithTurnId, MetasOf;
    var group, metas := WithTurnId(stream, turnId), MetasOf(g);
    GroupMembers(whole, events, sourceId, g, conversationId, turnId);
    GroupMetas(printed, sourceId, whole, stream, g, conversationId, turnId);
    AcceptedWithin(metas, group);
    HookAgreesWithScan(stream, expected, turnId);
    TurnIsAttached(g);
    if SourceTurnFromMessages(metas).Some? {
      SupersededDecide(printed, sourceId, stream, g, turnId, SourceTurnFromMessages(metas).value);
    }
  }

  /** Only the superseded messages can disagree with what ingestion made of the group. */
  lemma SupersededDecide(printed: Printer, sourceId: string, stream: seq<RawMessage>, g: Turn, turnId: string,
      turn: SourceTurn)
    requires turnId != "" && SourceTurnFromMessages(MetasOf(g)) == Some(turn)
    requires forall m | m in WithTurnId(stream, turnId) && Converted(printed, sourceId, m) in g ::
               exists x | x in MetasOf(g) :: x.meta == m.meta
    ensures (forall m | m in WithTurnId(stream, turnId) :: AgreesWith(m, turn))
        <==> forall m | m in stream && Superseded(printed, sourceId, g, turnId, m) :: AgreesWith(m, turn)
  {
    hide SourceTurnFromMessages, AgreesWith, MetasOf, Converted, WithTurnId;
    WithTurnIdMembers(stream, turnId);
    AcceptedWithin(MetasOf(g), MetasOf(g));
    forall m | m in WithTurnId(stream, turnId) && Converted(printed, sourceId, m) in g ensures AgreesWith(m, turn) {
      AgreesByMeta(MetasOf(g), m, turn);
    }
  }

  lemma AgreesByMeta(messages: seq<RawMessage>, m: RawMessage, turn: SourceTurn)
    requires (forall x | x in messages :: AgreesWith(x, turn)) && exists x | x in messages :: x.meta == m.meta
    ensures AgreesWith(m, turn)
  {
  }

  lemma TurnIsAttached(g: Turn)
    ensures AttachedTurns(MetasOf(g)) != [] <==> exists x | x in g :: x.meta.turn.Some?
  {
    var metas := MetasOf(g);
    AttachedMembers(metas);
    FirstIsMember(AttachedTurns(metas));
    hide AttachedTurns;
    assert forall k | 0 <= k < |g| :: metas[k].meta == g[k].meta && metas[k] in metas && g[k] in g;
  }


  /** Two complete messages of one turn under one id, with different contents. */
  predicate Contradict(first: RawMessage, second: RawMessage) {
    && first.messageId == second.messageId && first.conversationId == second.conversationId
    && first.meta.turnId == second.meta.turnId && first.meta.state == second.meta.state == Some(COMPLETE)
    && first.meta.turn.Some? && second.meta.turn.Some?
    && Identified(first.meta.turn.value) && Identified(second.meta.turn.value)
    && Canonical(first.meta.turn.value) != Canonical(second.meta.turn.value)
  }

  lemma BothAreDecided(first: RawMessage, second: RawMessage)
    requires first.meta.turnId == second.meta.turnId
    ensures FinalRun(WithTurnId([first, second], first.meta.turnId)) == [first, second]
  {
    assert [first, second][..1] == [first] && [first][..0] == [];
    assert WithTurnId([first], first.meta.turnId) == [first];
    assert WithTurnId([first, second], first.meta.turnId) == [first] + [second] == [first, second];
    hide WithTurnId, FinalRun;
    FinalRunOfOneTurn([first, second], first.meta.turnId);
  }

  lemma BothAreObserved(first: RawMessage, second: RawMessage)
    requires Contradict(first, second)
    ensures !SameContent(Observed([first, second]))
  {
    hide Observed, AttachedTurns, Identified;
    var both := [first, second];
    assert first in both && second in both;
    ObservedAreAttached(both);
    AttachedMembers(both);
    assert first.meta.turn.value in AttachedTurns(both) && second.meta.turn.value in AttachedTurns(both);
  }

  lemma HookSeesTheConflict(first: RawMessage, second: RawMessage)
    requires Contradict(first, second)
    ensures Selected([first, second], first.conversationId, first.meta.turnId)
        == Missing("source_turn_content_conflict")
  {
    hide Observed, SameContent, WithTurnId, FinalRun;
    BothAreDecided(first, second);
    BothAreObserved(first, second);
  }

  /** What that costs: a turn staged again with other content under the same id conflicts for the hook only. */
  lemma RestagedTurnConflictsInTheHookOnly(printed: Printer, sourceId: string, first: RawMessage, second: RawMessage)
    requires Contradict(first, second)
    ensures Selected([first, second], first.conversationId, first.meta.turnId)
        == Missing("source_turn_content_conflict")
    ensures var staged := Messages(StageAll([], 0, ConvertedAll(printed, sourceId, [first, second])));
            && staged == [Converted(printed, sourceId, second)]
            && SourceTurnFromMessages(MetasOf(staged)) == second.meta.turn
  {
    HookSeesTheConflict(first, second);
    var a, b := Converted(printed, sourceId, first), Converted(printed, sourceId, second);
    assert ConvertedAll(printed, sourceId, [first, second]) == [a, b];
    assert [a, b][..1] == [a] && [a][..0] == [];
    assert StageAll([], 0, [a]) == [StagedRow(a, 0)];
    assert StageAll([], 0, [a, b]) == [StagedRow(b, 0)];
    hide StageAll, Selected;
    AcceptedByTheScan([MetaOnly(b)]);
  }

  /** The turn's messages, as far as the hook accepts them, are of one conversation, each under its own id. */
  ghost predicate UnderOwnIds(printed: Printer, sourceId: string, whole: seq<ConversationMessage>,
      stream: seq<RawMessage>, conversationId: string, turnId: string, expected: string) {
    forall m | m in stream && m.meta.turnId == turnId && !OtherConversation(m, expected) ::
      m.conversationId == conversationId && Sole(whole, Converted(printed, sourceId, m))
  }

  lemma ReaderMessageStays(printed: Printer, sourceId: string, whole: seq<ConversationMessage>,
      stream: seq<RawMessage>, conversationId: string, turnId: string, expected: string, m: RawMessage)
    requires turnId != "" && ReadsTurn(printed, sourceId, whole, stream, conversationId, turnId)
    requires UnderOwnIds(printed, sourceId, whole, stream, conversationId, turnId, expected)
    requires m in stream && m.meta.turnId == turnId && !OtherConversation(m, expected)
    ensures var x := Converted(printed, sourceId, m);
            x in whole && Sole(whole, x) && OfTurn(x, conversationId, turnId)
  {
    WithTurnIdMembers(stream, turnId);
  }

  /**
   So where messages have their own ids, the group is accepted exactly when the hook accepts the turn,
   and with equal canonical content, however staging was interrupted and whatever else was staged.
   */
  lemma HookAgreesWithIngestion(printed: Printer, sourceId: string, whole: seq<ConversationMessage>,
      events: seq<Event>, stream: seq<RawMessage>, g: Turn, conversationId: string, turnId: string, expected: string)
    requires StagedWhole(whole, events, sourceId) && Orderly(Paged(whole, events, sourceId))
    requires turnId != "" && IsGroup(whole, events, sourceId, g, conversationId, turnId)
    requires ReadsTurn(printed, sourceId, whole, stream, conversationId, turnId)
    requires UnderOwnIds(printed, sourceId, whole, stream, conversationId, turnId, expected)
    ensures var hook, scan := Selected(stream, expected, turnId), SourceTurnFromMessages(MetasOf(g));
            && (hook.Found? <==> scan.Some? && forall m | m in stream :: !OtherConversation(m, expected))
            && (hook.Found? ==> Canonical(hook.turn) == Canonical(scan.value))
  {
    HookAgreesExactly(printed, sourceId, whole, events, stream, g, conversationId, turnId, expected);
    HookAgreesWithScan(stream, expected, turnId);
    hide Paged, Orderly, StagedWhole, Sole, IsGroup, Selected, SourceTurnFromMessages, UnderOwnIds, ReadsTurn,
        WithTurnId, OfTurn, Converted;
    GroupMembers(whole, events, sourceId, g, conversationId, turnId);
    if forall m | m in stream :: !OtherConversation(m, expected) {
      forall m | m in stream && m.meta.turnId == turnId ensures Converted(printed, sourceId, m) in g {
        ReaderMessageStays(printed, sourceId, whole, stream, conversationId, turnId, expected, m);
      }
      WithTurnIdMembers(stream, turnId);
      if SourceTurnFromMessages(WithTurnId(stream, turnId)).Some? {
        TurnSurvives(printed, sourceId, stream, g, turnId);
      }
    }
  }

  lemma TurnSurvives(printed: Printer, sourceId: string, stream: seq<RawMessage>, g: Turn, turnId: string)
    requires turnId != "" && SourceTurnFromMessages(WithTurnId(stream, turnId)).Some?
    requires forall m | m in stream && m.meta.turnId == turnId :: Converted(printed, sourceId, m) in g
    ensures exists x | x in g :: x.meta.turn.Some?
  {
    var group := WithTurnId(stream, turnId);
    WithTurnIdMembers(stream, turnId);
    AcceptedByTheScan(group);
    AttachedMembers(group);
    FirstIsMember(AttachedTurns(group));
    hide AttachedTurns, WithTurnId;
    var m :| m in group && m.meta.turn.Some?;
    assert Converted(printed, sourceId, m).meta.turn.Some?;
  }

  /** The words, the time and the metadata of a message, wherever it is stored. */
  predicate Shows(x: ConversationMessage, m: RawMessage) {
    && x.conversationId == m.conversationId && x.role == m.role && x.content == m.content
    && x.createdAt == m.createdAt && x.meta == m.meta
  }

  /** What the scan ingests as one turn is what the reader staged of it. */
  lemma GroupShowsMessages(printed: Printer, sourceId: string, whole: seq<ConversationMessage>,
      events: seq<Event>, stream: seq<RawMessage>, g: Turn, conversationId: string, turnId: string, expected: string)
    requires StagedWhole(whole, events, sourceId) && Orderly(Paged(whole, events, sourceId))
    requires turnId != "" && IsGroup(whole, events, sourceId, g, conversationId, turnId)
    requires ReadsTurn(printed, sourceId, whole, stream, conversationId, turnId)
    requires UnderOwnIds(printed, sourceId, whole, stream, conversationId, turnId, expected)
    requires forall m | m in stream :: !OtherConversation(m, expected)
    ensures forall m | m in stream && m.meta.turnId == turnId :: exists x | x in g :: Shows(x, m)
    ensures forall x | x in g :: exists m | m in stream :: m.meta.turnId == turnId && Shows(x, m)
  {
    hide Paged, Orderly, StagedWhole, Sole, IsGroup, UnderOwnIds, ProperlyStaged, WithTurnId;
    GroupMembers(whole, events, sourceId, g, conversationId, turnId);
    forall m | m in stream && m.meta.turnId == turnId ensures exists x | x in g :: Shows(x, m) {
      ReaderMessageStays(printed, sourceId, whole, stream, conversationId, turnId, expected, m);
      assert Shows(Converted(printed, sourceId, m), m);
    }
    forall x | x in g ensures exists m | m in stream :: m.meta.turnId == turnId && Shows(x, m) {
      var m :| m in stream && Converted(printed, sourceId, m) == x;
      assert Shows(x, m);
    }
  }

  /** A turn the hook accepts has a group in the scan, and ingestion emits it. */
  lemma HookTurnHasGroup(printed: Printer, sourceId: string, whole: seq<ConversationMessage>,
      events: seq<Event>, stream: seq<RawMessage>, conversationId: string, turnId: string, expected: string)
      returns (g: Turn)
    requires StagedWhole(whole, events, sourceId) && Orderly(Paged(whole, events, sourceId))
    requires turnId != "" && ReadsTurn(printed, sourceId, whole, stream, conversationId, turnId)
    requires UnderOwnIds(printed, sourceId, whole, stream, conversationId, turnId, expected)
    requires Selected(stream, expected, turnId).Found?
    ensures IsGroup(whole, events, sourceId, g, conversationId, turnId) && ShouldEmit(g)
  {
    hide Paged, Orderly, StagedWhole, Sole, Selected, SourceTurnFromMessages, UnderOwnIds, ProperlyStaged, Cut, GroupOf,
        DistinctMessages, TimesAscend;
    HookAgreesWithScan(stream, expected, turnId);
    hide ReadsTurn;
    var m := AcceptedHasMessage(stream, turnId);
    ReaderMessageStays(printed, sourceId, whole, stream, conversationId, turnId, expected, m);
    StagedAndPaged(whole, events, sourceId);
    var paged := Paged(whole, events, sourceId);
    CutIsPartition(BeginsNextTurn, paged);
    var k := InSomeGroup(Cut(BeginsNextTurn, paged), Converted(printed, sourceId, m));
    g := Cut(BeginsNextTurn, paged)[k];
    GroupOfMember(paged, g, Converted(printed, sourceId, m), conversationId, turnId);
  }

  lemma AcceptedHasMessage(stream: seq<RawMessage>, turnId: string) returns (m: RawMessage)
    requires turnId != "" && SourceTurnFromMessages(WithTurnId(stream, turnId)).Some?
    ensures m in stream && m.meta.turnId == turnId
  {
    WithTurnIdMembers(stream, turnId);
    m := WithTurnId(stream, turnId)[0];
    assert m in WithTurnId(stream, turnId);
  }

  lemma GroupOfMember(messages: seq<ConversationMessage>, g: Turn, x: ConversationMessage, conversationId: string,
      turnId: string)
    requires Orderly(messages) && g in Cut(BeginsNextTurn, messages) && x in g && OfTurn(x, conversationId, turnId)
    ensures g != [] && OfTurn(g[0], conversationId, turnId)
  {
    hide Cut, Contiguous, NamesApart, DistinctMessages;
    CutGroups(BeginsNextTurn, messages);
    GroupsAreTurns(Ingesting, messages);
    assert GroupOf(messages, g) && g[0] in g && OneTurn(g);
  }
}
