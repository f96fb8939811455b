/**
 Preparing and ingesting see the same turns: what one recorded about a turn is what the other
 finds, and exactly the turns at or after the watermark are ingested.
 */
module TurnPasses {
  import opened Wrappers
  import opened SourceTurns
  import opened Ordering
  import opened ScanStore
  import opened ScanPages
  import opened TurnCut
  import Text

  predicate NativeMessage(m: ConversationMessage) {
    HasStagedTurn(m) && m.meta.turnId != ""
  }

  predicate PlainMessage(m: ConversationMessage) {
    !HasStagedTurn(m) && m.meta.turnId == ""
  }

  /** Each conversation was read by a native reader, which may have found no turn id, or by none. */
  ghost predicate Uniform(messages: seq<ConversationMessage>) {
    && (forall m | m in messages :: HasStagedTurn(m) || PlainMessage(m))
    && (forall a, b | a in messages && b in messages && a.conversationId == b.conversationId ::
          HasStagedTurn(a) == HasStagedTurn(b))
  }

  /** A user message that a native reader staged without a turn id, after another message without one. */
  predicate UnnamedUser(before: ConversationMessage, m: ConversationMessage) {
    && before.conversationId == m.conversationId
    && before.meta.turnId == "" && m.meta.turnId == ""
    && HasStagedTurn(m) && m.role == User
  }

  ghost predicate NoUnnamedUser(messages: seq<ConversationMessage>) {
    forall i | 0 <= i < |messages| - 1 :: !UnnamedUser(messages[i], messages[i + 1])
  }

  /** A turn id is not the id of a message that has none, which would then stand for its turn. */
  ghost predicate NamesApart(messages: seq<ConversationMessage>) {
    forall a, b | a in messages && b in messages && a.conversationId == b.conversationId
                  && NativeMessage(a) && !NativeMessage(b) :: a.meta.turnId != b.messageId
  }

  predicate SameNativeTurn(a: ConversationMessage, b: ConversationMessage) {
    a.conversationId == b.conversationId && NativeMessage(a) && NativeMessage(b) && a.meta.turnId == b.meta.turnId
  }

  /** A turn id does not come back after another turn. */
  ghost predicate Contiguous(messages: seq<ConversationMessage>) {
    messages == []
    || (Contiguous(messages[..|messages| - 1])
        && ((exists m | m in messages[..|messages| - 1] :: SameNativeTurn(m, Last(messages)))
            ==> SameNativeTurn(messages[|messages| - 2], Last(messages))))
  }

  ghost predicate DistinctMessages(messages: seq<ConversationMessage>) {
    forall i, j | 0 <= i < j < |messages| ::
      messages[i].conversationId != messages[j].conversationId || messages[i].messageId != messages[j].messageId
  }

  ghost predicate TimesAscend(messages: seq<ConversationMessage>) {
    forall i, j | 0 <= i < j < |messages| && messages[i].conversationId == messages[j].conversationId ::
      messages[i].createdAt <= messages[j].createdAt
  }

  /** The stream a pass reads has these two properties for free. */
  lemma PagesAreOrdered(rows: seq<StagedRow>, next: nat, sourceId: string)
    requires Wellformed(rows, next) && forall r | r in rows :: r.message.sourceId == sourceId
    ensures var messages := Messages(Sort(KeyLess, rows));
            DistinctMessages(messages) && TimesAscend(messages)
  {
    hide Sort;
    var sorted := Sort(KeyLess, rows);
    RowsApart(rows, next);
    KeyIsStrict();
    SortAscends(KeyLess, rows);
    SortKeeps(KeyLess, rows);
    TextIsStrict();
    forall i, j | 0 <= i < j < |sorted|
      ensures sorted[i].message.conversationId != sorted[j].message.conversationId
          || sorted[i].message.messageId != sorted[j].message.messageId
      ensures sorted[i].message.conversationId == sorted[j].message.conversationId
          ==> sorted[i].message.createdAt <= sorted[j].message.createdAt
    {
      assert KeyLess(sorted[i], sorted[j]) && sorted[i] in rows && sorted[j] in rows && sorted[i] != sorted[j];
    }
  }

  // ---------------------------------------------------------------------------------------
  // The cut
  // ---------------------------------------------------------------------------------------

  type Rule = (ConversationMessage, ConversationMessage) -> bool

  lemma AddKeepsPartition(rule: Rule, groups: seq<Turn>, m: ConversationMessage)
    ensures Flatten(AddMessage(rule, groups, m)) == Flatten(groups) + [m]
  {
    FlattenSnoc(groups, [m]);
    if groups != [] {
      var closed, open := groups[..|groups| - 1], Last(groups);
      assert groups == closed + [open];
      FlattenSnoc(closed, open);
      FlattenSnoc(closed, open + [m]);
    }
  }

  /** Cutting loses nothing and reorders nothing. */
  lemma {:induction false} CutIsPartition(rule: Rule, messages: seq<ConversationMessage>)
    ensures Flatten(Cut(rule, messages)) == messages
  {
    hide AddMessage, Flatten;
    if messages != [] {
      CutIsPartition(rule, messages[..|messages| - 1]);
      AddKeepsPartition(rule, Cut(rule, messages[..|messages| - 1]), Last(messages));
    } else {
      FlattenNothing();
    }
  }

  lemma FlattenNothing()
    ensures Flatten<ConversationMessage>([]) == []
  {
  }

  ghost predicate GroupOf(messages: seq<ConversationMessage>, g: Turn) {
    g != [] && forall x | x in g :: x in messages && x.conversationId == g[0].conversationId
  }

  ghost predicate GroupsOf(messages: seq<ConversationMessage>, groups: seq<Turn>) {
    && (forall i | 0 <= i < |groups| :: GroupOf(messages, groups[i]))
    && (messages != [] ==> groups != [] && Last(groups) != [] && Last(Last(groups)) == Last(messages))
  }

  lemma AddKeepsGroups(rule: Rule, groups: seq<Turn>, front: seq<ConversationMessage>, m: ConversationMessage)
    requires GroupsOf(front, groups)
    ensures GroupsOf(front + [m], AddMessage(rule, groups, m))
  {
  }

  lemma {:induction false} CutGroups(rule: Rule, messages: seq<ConversationMessage>)
    ensures GroupsOf(messages, Cut(rule, messages))
    ensures forall g | g in Cut(rule, messages) :: GroupOf(messages, g)
  {
    hide AddMessage, GroupOf;
    if messages != [] {
      var front := messages[..|messages| - 1];
      CutGroups(rule, front);
      AddKeepsGroups(rule, Cut(rule, front), front, Last(messages));
      assert messages == front + [Last(messages)];
    }
  }

  /** The two passes and where each starts a turn. */
  datatype Pass = Preparing | Ingesting

  function RuleOf(pass: Pass): Rule {
    match pass
    case Preparing => PrepareCuts
    case Ingesting => BeginsNextTurn
  }

  lemma UniformFront(messages: seq<ConversationMessage>)
    requires messages != [] && Uniform(messages)
    ensures Uniform(messages[..|messages| - 1])
  {
  }

  /** All messages of a group have the turn id, or the lack of one, of its first message. */
  ghost predicate OneTurn(g: Turn) {
    g != [] ==> forall x | x in g :: x.meta.turnId == g[0].meta.turnId
  }

  lemma StaysOneTurn(pass: Pass, messages: seq<ConversationMessage>, open: Turn)
    requires messages != [] && Uniform(messages) && open != [] && OneTurn(open) && open[0] in messages[..|messages| - 1]
    requires open[0].conversationId == Last(messages).conversationId && !RuleOf(pass)(open[0], Last(messages))
    ensures OneTurn(open + [Last(messages)])
  {
  }

  lemma AddKeepsOneTurn(pass: Pass, messages: seq<ConversationMessage>, groups: seq<Turn>)
    requires messages != [] && Uniform(messages) && GroupsOf(messages[..|messages| - 1], groups)
    requires forall g | g in groups :: OneTurn(g)
    ensures forall g | g in AddMessage(RuleOf(pass), groups, Last(messages)) :: OneTurn(g)
  {
    hide GroupOf, RuleOf;
    if !StartsGroup(RuleOf(pass), groups, Last(messages)) {
      var open := Last(groups);
      assert groups == groups[..|groups| - 1] + [open] && open in groups;
      assert GroupOf(messages[..|messages| - 1], groups[|groups| - 1]);
      FirstOfGroup(messages[..|messages| - 1], open);
      StaysOneTurn(pass, messages, open);
    }
  }

  lemma {:induction false} GroupsAreTurns(pass: Pass, messages: seq<ConversationMessage>)
    requires Uniform(messages)
    ensures forall g | g in Cut(RuleOf(pass), messages) :: OneTurn(g)
  {
    hide Uniform, OneTurn, AddMessage, GroupsOf, RuleOf;
    if messages != [] {
      UniformFront(messages);
      GroupsAreTurns(pass, messages[..|messages| - 1]);
      CutGroups(RuleOf(pass), messages[..|messages| - 1]);
      AddKeepsOneTurn(pass, messages, Cut(RuleOf(pass), messages[..|messages| - 1]));
    }
  }

  /** The last group of a cut: what the passes compare the next message with. */
  lemma OpenGroup(pass: Pass, messages: seq<ConversationMessage>, n: nat) returns (open: Turn)
    requires Uniform(messages) && 0 < n < |messages|
    ensures open != [] && Cut(RuleOf(pass), messages[..n]) != [] && open == Last(Cut(RuleOf(pass), messages[..n]))
    ensures open[0] in messages && open[0].conversationId == messages[n - 1].conversationId
    ensures open[0].meta.turnId == messages[n - 1].meta.turnId
        && HasStagedTurn(open[0]) == HasStagedTurn(messages[n - 1])
  {
    hide RuleOf;
    var front := messages[..n];
    assert forall x | x in front :: x in messages;
    CutGroups(RuleOf(pass), front);
    GroupsAreTurns(pass, front);
    open := Last(Cut(RuleOf(pass), front));
    assert open in Cut(RuleOf(pass), front) && GroupOf(front, open);
    assert Last(open) == messages[n - 1] && Last(open) in open && open[0] in open;
    assert messages[n - 1] in messages;
  }

  /** The passes disagree on where a message belongs exactly at an unnamed user message. */
  lemma StartsDiffer(messages: seq<ConversationMessage>, n: nat)
    requires Uniform(messages) && n < |messages|
    requires Cut(PrepareCuts, messages[..n]) == Cut(BeginsNextTurn, messages[..n])
    ensures var groups := Cut(BeginsNextTurn, messages[..n]);
            StartsGroup(PrepareCuts, groups, messages[n]) != StartsGroup(BeginsNextTurn, groups, messages[n])
            <==> n > 0 && UnnamedUser(messages[n - 1], messages[n])
  {
    hide Cut;
    if n > 0 {
      var open := OpenGroup(Ingesting, messages, n);
      assert messages[n] in messages && messages[n - 1] in messages;
    } else {
      assert messages[..n] == [];
      NothingCut();
    }
  }

  lemma NothingCut()
    ensures Cut(BeginsNextTurn, []) == [] && Cut(PrepareCuts, []) == []
  {
  }

  ghost predicate NoneEmpty(groups: seq<Turn>) {
    forall i | 0 <= i < |groups| :: groups[i] != []
  }

  /** What a message was added to, and whether it started a group, can be read off the result. */
  lemma AddIsInjective(a: Rule, b: Rule, groups: seq<Turn>, groups': seq<Turn>, m: ConversationMessage)
    requires NoneEmpty(groups) && NoneEmpty(groups')
    ensures AddMessage(a, groups, m) == AddMessage(b, groups', m)
            <==> groups == groups' && StartsGroup(a, groups, m) == StartsGroup(b, groups', m)
  {
    hide StartsGroup;
    AddShows(a, groups, m);
    AddShows(b, groups', m);
  }

  function Undone(groups: seq<Turn>): seq<Turn> {
    if groups == [] || Last(groups) == [] then []
    else if |Last(groups)| == 1 then groups[..|groups| - 1]
    else groups[..|groups| - 1] + [Last(groups)[..|Last(groups)| - 1]]
  }

  lemma AddShows(rule: Rule, groups: seq<Turn>, m: ConversationMessage)
    requires NoneEmpty(groups)
    ensures var r := AddMessage(rule, groups, m);
            r != [] && Undone(r) == groups && (|Last(r)| == 1 <==> StartsGroup(rule, groups, m))
  {
  }

  lemma NoUnnamedFront(messages: seq<ConversationMessage>)
    requires messages != []
    ensures NoUnnamedUser(messages)
            <==> NoUnnamedUser(messages[..|messages| - 1])
                 && (|messages| > 1 ==> !UnnamedUser(messages[|messages| - 2], Last(messages)))
  {
  }

  /** The two passes cut a stream into the same turns exactly when it has no unnamed user message. */
  lemma {:induction false} CutsAgreeExactly(messages: seq<ConversationMessage>)
    requires Uniform(messages)
    ensures Cut(PrepareCuts, messages) == Cut(BeginsNextTurn, messages) <==> NoUnnamedUser(messages)
  {
    hide Uniform, StartsGroup, AddMessage, NoUnnamedUser, UnnamedUser, GroupOf;
    if messages == [] {
      NothingCut();
      NothingUnnamed();
    } else {
      var n := |messages| - 1;
      var front, m := messages[..n], Last(messages);
      UniformFront(messages);
      CutsAgreeExactly(front);
      NoUnnamedFront(messages);
      NonemptyGroups(PrepareCuts, front);
      NonemptyGroups(BeginsNextTurn, front);
      AddIsInjective(PrepareCuts, BeginsNextTurn, Cut(PrepareCuts, front), Cut(BeginsNextTurn, front), m);
      if Cut(PrepareCuts, front) == Cut(BeginsNextTurn, front) {
        StartsDiffer(messages, n);
      }
    }
  }

  lemma NothingUnnamed()
    ensures NoUnnamedUser([])
  {
  }

  lemma NonemptyGroups(rule: Rule, messages: seq<ConversationMessage>)
    ensures NoneEmpty(Cut(rule, messages))
  {
  }

  // ---------------------------------------------------------------------------------------
  // Keys
  // ---------------------------------------------------------------------------------------

  function KeyOfFirst(m: ConversationMessage): TurnKey {
    TurnKey(m.conversationId, if NativeMessage(m) then m.meta.turnId else m.messageId)
  }

  function GroupKey(g: Turn): TurnKey {
    if g == [] then TurnKey("", "") else KeyOfFirst(g[0])
  }

  ghost predicate DistinctKeys(groups: seq<Turn>) {
    && (forall i | 0 <= i < |groups| :: groups[i] != [])
    && forall i, j | 0 <= i < j < |groups| :: GroupKey(groups[i]) != GroupKey(groups[j])
  }

  /** What the passes may rely on: the reader's side, and the two properties of the paged order. */
  ghost predicate Orderly(messages: seq<ConversationMessage>) {
    Uniform(messages) && Contiguous(messages) && NamesApart(messages) && DistinctMessages(messages)
  }

  lemma OrderlyFront(messages: seq<ConversationMessage>)
    requires messages != [] && Orderly(messages)
    ensures Orderly(messages[..|messages| - 1])
  {
  }

  lemma {:induction false} KeysAreDistinct(pass: Pass, messages: seq<ConversationMessage>)
    requires Orderly(messages)
    ensures DistinctKeys(Cut(RuleOf(pass), messages))
  {
    hide AddMessage, StartsGroup, RuleOf, Orderly, GroupKey;
    if messages != [] {
      var front, m := messages[..|messages| - 1], Last(messages);
      OrderlyFront(messages);
      KeysAreDistinct(pass, front);
      var groups: seq<Turn> := Cut(RuleOf(pass), front);
      if StartsGroup(RuleOf(pass), groups, m) {
        forall g | g in groups && g != [] ensures GroupKey(g) != GroupKey([m]) {
          NewKey(pass, messages, g);
        }
      }
      AddKeepsDistinct(RuleOf(pass), groups, m);
    }
  }

  lemma AddKeepsDistinct(rule: Rule, groups: seq<Turn>, m: ConversationMessage)
    requires DistinctKeys(groups)
    requires StartsGroup(rule, groups, m) ==> forall g | g in groups && g != [] :: GroupKey(g) != GroupKey([m])
    ensures DistinctKeys(AddMessage(rule, groups, m))
  {
  }

  /** A message that starts a group starts one with a new key. */
  lemma NewKey(pass: Pass, messages: seq<ConversationMessage>, g: Turn)
    requires messages != [] && Orderly(messages)
    requires var groups := Cut(RuleOf(pass), messages[..|messages| - 1]);
             g in groups && g != [] && StartsGroup(RuleOf(pass), groups, Last(messages))
    ensures GroupKey(g) != GroupKey([Last(messages)])
  {
    hide Cut, Contiguous, NamesApart, DistinctMessages, StartsGroup, Uniform, GroupOf, GroupsOf, KeyOfFirst,
        SameNativeTurn, RuleOf;
    var front, m := messages[..|messages| - 1], Last(messages);
    CutGroups(RuleOf(pass), front);
    FirstOfGroup(front, g);
    NotContinued(pass, messages);
    NewMessage(messages, g[0]);
    assert messages == front + [m];
    DifferentKeys(messages, g[0], m);
    assert GroupKey(g) == KeyOfFirst(g[0]) && GroupKey([m]) == KeyOfFirst(m);
  }

  lemma DifferentKeys(messages: seq<ConversationMessage>, x: ConversationMessage, m: ConversationMessage)
    requires NamesApart(messages) && x in messages && m in messages
    requires !SameNativeTurn(x, m) && (x.conversationId != m.conversationId || x.messageId != m.messageId)
    ensures KeyOfFirst(x) != KeyOfFirst(m)
  {
  }

  lemma NewMessage(messages: seq<ConversationMessage>, x: ConversationMessage)
    requires messages != [] && DistinctMessages(messages) && x in messages[..|messages| - 1]
    ensures x.conversationId != Last(messages).conversationId || x.messageId != Last(messages).messageId
  {
  }

  lemma NotContinued(pass: Pass, messages: seq<ConversationMessage>)
    requires |messages| > 1 && Uniform(messages) && Contiguous(messages)
    requires StartsGroup(RuleOf(pass), Cut(RuleOf(pass), messages[..|messages| - 1]), Last(messages))
    ensures forall x | x in messages[..|messages| - 1] :: !SameNativeTurn(x, Last(messages))
  {
    hide Cut, Uniform, OneTurn, GroupOf;
    var open := OpenGroup(pass, messages, |messages| - 1);
    assert !SameNativeTurn(messages[|messages| - 2], Last(messages));
  }

  lemma FirstOfGroup(messages: seq<ConversationMessage>, g: Turn)
    requires GroupOf(messages, g)
    ensures messages != [] && g[0] in messages
  {
    assert g[0] in g;
  }

  // ---------------------------------------------------------------------------------------
  // Every turn is found
  // ---------------------------------------------------------------------------------------

  ghost predicate IsSaved(mode: Mode, since: Option<Time>, saved: map<TurnKey, PreparedTurn>, g: Turn) {
    g != [] && ShouldEmit(g) ==> GroupKey(g) in saved && saved[GroupKey(g)] == TurnMeta(mode, since, g)
  }

  /** Saving one more turn, with a key of its own. */
  lemma SaveKeepsOthers(mode: Mode, since: Option<Time>, saved: map<TurnKey, PreparedTurn>, last: Turn, g: Turn)
    requires last != [] && IsSaved(mode, since, saved, g) && GroupKey(g) != GroupKey(last)
    ensures IsSaved(mode, since, SaveTurn(mode, since, saved, last), g)
  {
  }

  lemma SaveSaves(mode: Mode, since: Option<Time>, saved: map<TurnKey, PreparedTurn>, last: Turn)
    requires last != []
    ensures IsSaved(mode, since, SaveTurn(mode, since, saved, last), last)
  {
  }

  lemma {:induction false} SavedTurns(mode: Mode, since: Option<Time>, table: map<TurnKey, PreparedTurn>,
      groups: seq<Turn>)
    requires DistinctKeys(groups)
    ensures forall g | g in groups :: IsSaved(mode, since, SaveTurns(mode, since, table, groups), g)
  {
    hide IsSaved, SaveTurn, GroupKey;
    if groups != [] {
      var front, last := groups[..|groups| - 1], Last(groups);
      assert groups == front + [last];
      assert forall g | g in front :: g in groups;
      SavedTurns(mode, since, table, front);
      var saved := SaveTurns(mode, since, table, front);
      SaveSaves(mode, since, saved, last);
      forall i | 0 <= i < |front| ensures IsSaved(mode, since, SaveTurn(mode, since, saved, last), front[i]) {
        assert groups[i] == front[i] && groups[|front|] == last && front[i] in front;
        SaveKeepsOthers(mode, since, saved, last, front[i]);
      }
    }
  }

  lemma EmittedKey(g: Turn)
    requires ShouldEmit(g)
    ensures StableIdentity(g) == Some(GroupKey(g))
  {
  }

  lemma {:induction false} EmittedAreGroups(groups: seq<Turn>)
    ensures forall g :: g in Emitted(groups) <==> g in groups && ShouldEmit(g)
  {
    if groups != [] {
      EmittedAreGroups(groups[..|groups| - 1]);
      assert groups == groups[..|groups| - 1] + [Last(groups)];
    }
  }

  /** Every turn that ingesting emits carries what preparing recorded about it. */
  lemma EveryTurnIsFound(
    mode: Mode, since: Option<Time>, table: map<TurnKey, PreparedTurn>, messages: seq<ConversationMessage>, turn: Turn)
    requires Orderly(messages) && NoUnnamedUser(messages)
    requires turn in Emitted(Cut(BeginsNextTurn, messages))
    ensures turn != [] && StableIdentity(turn).Some?
    ensures var saved := SaveTurns(mode, since, table, Cut(PrepareCuts, messages));
            var key := StableIdentity(turn).value;
            && key in saved && saved[key] == TurnMeta(mode, since, turn)
            && saved[key].firstMessageId == turn[0].messageId && saved[key].firstCreatedAt == turn[0].createdAt
            && saved[key].lastMessageId == Last(turn).messageId && saved[key].lastCreatedAt == Last(turn).createdAt
            && (saved[key].selected <==> mode != Incremental || since.None? || Last(turn).createdAt >= since.value)
  {
    hide Cut, SaveTurns, ShouldEmit, StableIdentity, NoUnnamedUser;
    var groups: seq<Turn> := Cut(BeginsNextTurn, messages);
    CutsAgreeExactly(messages);
    KeysAreDistinct(Ingesting, messages);
    EmittedAreGroups(groups);
    SavedTurns(mode, since, table, groups);
    assert IsSaved(mode, since, SaveTurns(mode, since, table, groups), turn);
    EmittedKey(turn);
  }

  // ---------------------------------------------------------------------------------------
  // Exactly the turns at or after the watermark
  // ---------------------------------------------------------------------------------------

  /** What ingesting looks up before it captures a turn. */
  predicate Looked(turns: map<TurnKey, PreparedTurn>, conversations: map<string, PreparedConversation>, turn: Turn)
    requires turn != [] && StableIdentity(turn).Some?
  {
    var conversationId, key := turn[0].conversationId, StableIdentity(turn).value;
    && !(conversationId in conversations && !conversations[conversationId].selected)
    && !(key in turns && !turns[key].selected)
  }

  ghost predicate Covers(mode: Mode, since: Option<Time>, saved: map<string, PreparedConversation>,
      m: ConversationMessage) {
    m.conversationId != "" ==>
      && m.conversationId in saved
      && saved[m.conversationId].lastCreatedAt >= m.createdAt
      && saved[m.conversationId].selected == SelectedAt(mode, since, saved[m.conversationId].lastCreatedAt)
  }

  ghost predicate OnlyChanges(before: map<string, PreparedConversation>, saved: map<string, PreparedConversation>,
      id: string) {
    forall c | c != id || c == "" :: (c in saved <==> c in before) && (c in saved ==> saved[c] == before[c])
  }

  function RecordOf(mode: Mode, since: Option<Time>, digest: Turn -> string, conversation: Turn,
      latest: ConversationMessage): PreparedConversation {
    PreparedConversation(latest.messageId, latest.createdAt, digest(conversation),
        SelectedAt(mode, since, latest.createdAt))
  }

  lemma {:induction false} SavedConversations(
    mode: Mode, since: Option<Time>, digest: Turn -> string,
    table: map<string, PreparedConversation>, messages: seq<ConversationMessage>)
    requires TimesAscend(messages)
    ensures var saved := SaveConversations(mode, since, digest, table, Cut(NeverCuts, messages));
            && (forall m | m in messages :: Covers(mode, since, saved, m))
            && ("" in saved ==> "" in table)
  {
    hide AddMessage, SaveConversations, SelectedAt, GroupsOf, GroupOf;
    if messages != [] {
      var front, m := messages[..|messages| - 1], Last(messages);
      assert messages == front + [m];
      SavedConversations(mode, since, digest, table, front);
      CutGroups(NeverCuts, front);
      SavedStep(mode, since, digest, table, front, Cut(NeverCuts, front), m);
      assert forall i | 0 <= i < |front| && front[i].conversationId == m.conversationId ::
          messages[i].createdAt <= messages[|front|].createdAt;
      assert Cut(NeverCuts, messages) == AddMessage(NeverCuts, Cut(NeverCuts, front), m);
      var before := SaveConversations(mode, since, digest, table, Cut(NeverCuts, front));
      var saved := SaveConversations(mode, since, digest, table, Cut(NeverCuts, messages));
      StillCovered(mode, since, before, saved, front, m);
    } else {
      NothingSaved(mode, since, digest, map[], table);
    }
  }

  lemma StillCovered(
    mode: Mode, since: Option<Time>, before: map<string, PreparedConversation>,
        saved: map<string, PreparedConversation>,
    front: seq<ConversationMessage>, m: ConversationMessage)
    requires forall x | x in front ::
        Covers(mode, since, before, x) && (x.conversationId == m.conversationId ==> x.createdAt <= m.createdAt)
    requires Covers(mode, since, saved, m)
        && (m.conversationId != "" ==> saved[m.conversationId].lastCreatedAt == m.createdAt)
    requires OnlyChanges(before, saved, m.conversationId)
    ensures forall x | x in front + [m] :: Covers(mode, since, saved, x)
  {
  }

  /** One more message changes the record of its own conversation only. */
  lemma SavedStep(
    mode: Mode, since: Option<Time>, digest: Turn -> string,
    table: map<string, PreparedConversation>, front: seq<ConversationMessage>, groups: seq<Turn>,
        m: ConversationMessage)
    requires GroupsOf(front, groups)
    ensures var before := SaveConversations(mode, since, digest, table, groups);
            var saved := SaveConversations(mode, since, digest, table, AddMessage(NeverCuts, groups, m));
            && (m.conversationId != "" ==>
                  m.conversationId in saved
                  && saved[m.conversationId]
                     == RecordOf(mode, since, digest, Last(AddMessage(NeverCuts, groups, m)), m))
            && OnlyChanges(before, saved, m.conversationId)
  {
    hide SelectedAt, GroupOf, SaveConversation, SaveConversations;
    var longer: seq<Turn> := AddMessage(NeverCuts, groups, m);
    SavedLast(mode, since, digest, map[], table, [], longer);
    SavedOne(mode, since, digest, SaveConversations(mode, since, digest, table, Closed(longer)), Last(longer));
    if StartsGroup(NeverCuts, groups, m) {
      assert Closed(longer) == groups;
    } else {
      SavedLast(mode, since, digest, map[], table, [], groups);
      SavedOne(mode, since, digest, SaveConversations(mode, since, digest, table, Closed(groups)), Last(groups));
      assert Closed(longer) == Closed(groups);
      assert Last(longer) == Last(groups) + [m] && Last(longer)[0] == Last(groups)[0];
    }
  }

  lemma SavedOne(
    mode: Mode, since: Option<Time>, digest: Turn -> string, table: map<string, PreparedConversation>,
        conversation: Turn)
    requires conversation != []
    ensures var saved, id := SaveConversation(mode, since, digest, table, conversation), conversation[0].conversationId;
            && (id != "" ==>
                  id in saved && saved[id] == RecordOf(mode, since, digest, conversation, Last(conversation)))
            && OnlyChanges(table, saved, id)
  {
  }

  // ---------------------------------------------------------------------------------------
  // What is recorded of a conversation
  // ---------------------------------------------------------------------------------------

  /** The messages from `i` to `n` are all of one conversation, and the run does not begin before `i`. */
  ghost predicate RunTo(messages: seq<ConversationMessage>, i: nat, n: nat) {
    && i <= n < |messages|
    && (forall k | i <= k <= n :: messages[k].conversationId == messages[n].conversationId)
    && (i > 0 ==> messages[i - 1].conversationId != messages[n].conversationId)
  }

  ghost predicate LastOfItsConversation(messages: seq<ConversationMessage>, n: nat) {
    n < |messages| && messages[n].conversationId != ""
    && forall k | n < k < |messages| :: messages[k].conversationId != messages[n].conversationId
  }

  /** The record names message `n`, its time, and the digest of the run that ends with it. */
  ghost predicate Names(mode: Mode, since: Option<Time>, digest: Turn -> string,
      messages: seq<ConversationMessage>, n: nat, record: PreparedConversation)
    requires n < |messages|
  {
    && record.lastMessageId == messages[n].messageId && record.lastCreatedAt == messages[n].createdAt
    && (record.selected <==> mode != Incremental || since.None? || messages[n].createdAt >= since.value)
    && exists i: nat :: RunTo(messages, i, n) && record.contentHash == digest(messages[i..n + 1])
  }

  lemma {:induction false} LastGroupIsRun(messages: seq<ConversationMessage>) returns (i: nat)
    requires messages != []
    ensures RunTo(messages, i, |messages| - 1)
    ensures Cut(NeverCuts, messages) != [] && Last(Cut(NeverCuts, messages)) == messages[i..]
  {
    var front, m := messages[..|messages| - 1], Last(messages);
    assert messages == front + [m];
    NothingCut();
    if front == [] {
      i := 0;
      assert messages == [m];
    } else {
      var before := LastGroupIsRun(front);
      i := RunGrows(front, m, before, Cut(NeverCuts, front));
    }
  }

  lemma RunGrows(front: seq<ConversationMessage>, m: ConversationMessage, before: nat, groups: seq<Turn>)
      returns (i: nat)
    requires front != [] && RunTo(front, before, |front| - 1) && groups != [] && Last(groups) == front[before..]
    ensures RunTo(front + [m], i, |front|)
    ensures var now := AddMessage(NeverCuts, groups, m); now != [] && Last(now) == (front + [m])[i..]
  {
    if front[before].conversationId == m.conversationId {
      i := before;
      assert (front + [m])[i..] == front[i..] + [m];
    } else {
      i := |front|;
      assert (front + [m])[i..] == [m];
    }
  }

  /** A conversation's record is that of its last message, whatever else was staged. */
  lemma {:induction false} ConversationIsRecorded(
    mode: Mode, since: Option<Time>, digest: Turn -> string,
    table: map<string, PreparedConversation>, messages: seq<ConversationMessage>, n: nat)
    requires LastOfItsConversation(messages, n)
    ensures var saved := SaveConversations(mode, since, digest, table, Cut(NeverCuts, messages));
            && messages[n].conversationId in saved
            && Names(mode, since, digest, messages, n, saved[messages[n].conversationId])
  {
    hide AddMessage, SaveConversations, GroupsOf, GroupOf, Names, RunTo, SelectedAt;
    var front, m := messages[..|messages| - 1], Last(messages);
    assert messages == front + [m];
    CutGroups(NeverCuts, front);
    SavedStep(mode, since, digest, table, front, Cut(NeverCuts, front), m);
    if n < |front| {
      ConversationIsRecorded(mode, since, digest, table, front, n);
      var saved := SaveConversations(mode, since, digest, table, Cut(NeverCuts, front));
      StillNamed(mode, since, digest, front, m, n, saved[front[n].conversationId]);
    } else {
      var i := LastGroupIsRun(messages);
      NewlyNamed(mode, since, digest, messages, i);
    }
  }

  lemma StillNamed(mode: Mode, since: Option<Time>, digest: Turn -> string, front: seq<ConversationMessage>,
      m: ConversationMessage, n: nat, record: PreparedConversation)
    requires n < |front| && Names(mode, since, digest, front, n, record)
    ensures Names(mode, since, digest, front + [m], n, record)
  {
    var i: nat :| RunTo(front, i, n) && record.contentHash == digest(front[i..n + 1]);
    assert (front + [m])[i..n + 1] == front[i..n + 1] && RunTo(front + [m], i, n);
  }

  lemma NewlyNamed(mode: Mode, since: Option<Time>, digest: Turn -> string, messages: seq<ConversationMessage>, i: nat)
    requires messages != [] && RunTo(messages, i, |messages| - 1)
    ensures Names(mode, since, digest, messages, |messages| - 1,
              RecordOf(mode, since, digest, messages[i..], Last(messages)))
  {
    assert messages[i..] == messages[i..|messages|];
  }

  /**
   A scan ingests exactly the turns whose last message is at or after the watermark - or every turn
   unless the scan is incremental - whether or not the content hash changed.
   */
  lemma IngestedExactlyFromWatermark(
    mode: Mode, since: Option<Time>, digest: Turn -> string, changed: bool,
    turns: map<TurnKey, PreparedTurn>, conversations: map<string, PreparedConversation>,
    messages: seq<ConversationMessage>, turn: Turn)
    requires Orderly(messages) && TimesAscend(messages) && NoUnnamedUser(messages)
    requires "" !in conversations && turn in Emitted(Cut(BeginsNextTurn, messages))
    ensures turn != [] && StableIdentity(turn).Some?
    ensures var saved := SaveConversations(mode, since, digest, conversations, Cut(NeverCuts, messages));
            Looked(SaveTurns(mode, since, turns, Cut(PrepareCuts, messages)), if changed then SelectAll(saved)
                else saved, turn)
            <==> SelectedAt(mode, since, Last(turn).createdAt)
  {
    hide Cut, SaveTurns, SaveConversations, StableIdentity, ShouldEmit;
    EveryTurnIsFound(mode, since, turns, messages, turn);
    SavedConversations(mode, since, digest, conversations, messages);
    CutGroups(BeginsNextTurn, messages);
    EmittedAreGroups(Cut(BeginsNextTurn, messages));
    assert GroupOf(messages, turn) && Last(turn) in turn;
    assert Covers(mode, since, SaveConversations(mode, since, digest, conversations, Cut(NeverCuts, messages)),
        Last(turn));
  }

  // ---------------------------------------------------------------------------------------
  // What is a turn, and what is emitted
  // ---------------------------------------------------------------------------------------

  /** Somebody in that role says something. */
  predicate Speaks(m: ConversationMessage, role: Role) {
    m.role == role && exists c | c in m.content :: !Text.IsSpace(c)
  }

  /**
   Ingesting emits the groups of its cut that a native reader staged, whatever their state, and of the
   others those that begin with words of the user and end with words of the assistant.
   */
  lemma EmittedExactly(messages: seq<ConversationMessage>, g: Turn)
    ensures g in Emitted(Cut(BeginsNextTurn, messages))
        <==> && g in Cut(BeginsNextTurn, messages) && g != []
             && (g[0].meta.state.Some? || (Speaks(g[0], User) && Speaks(Last(g), Assistant)))
  {
    hide Cut;
    EmittedAreGroups(Cut(BeginsNextTurn, messages));
  }

  /** The groups of conversations without a native reader: one question each, and it comes first. */
  ghost predicate AskedOnce(groups: seq<Turn>) {
    forall g: Turn | g in groups && g != [] && PlainMessage(g[0]) :: forall k | 0 < k < |g| :: g[k].role != User
  }

  /** A group of such a conversation begins with a question, or it is the first of the conversation. */
  ghost predicate BeginWithQuestions(groups: seq<Turn>) {
    forall i | 0 < i < |groups| && groups[i] != [] && groups[i - 1] != [] && PlainMessage(groups[i][0])
               && groups[i - 1][0].conversationId == groups[i][0].conversationId :: groups[i][0].role == User
  }

  /** Where the next message goes: a question of a conversation without a native reader starts a group. */
  lemma QuestionDecides(messages: seq<ConversationMessage>, open: Turn)
    requires messages != [] && Uniform(messages) && GroupOf(messages[..|messages| - 1], open)
    ensures var m := Last(messages);
            open[0].conversationId == m.conversationId ==>
              && (PlainMessage(open[0]) <==> PlainMessage(m))
              && (PlainMessage(m) ==> (BeginsNextTurn(open[0], m) <==> m.role == User))
  {
    assert open[0] in open;
    assert open[0] in messages && Last(messages) in messages;
  }

  lemma QuestionStarts(messages: seq<ConversationMessage>, groups: seq<Turn>)
    requires messages != [] && Uniform(messages) && GroupsOf(messages[..|messages| - 1], groups)
    requires AskedOnce(groups) && BeginWithQuestions(groups)
    ensures var now: seq<Turn> := AddMessage(BeginsNextTurn, groups, Last(messages));
            AskedOnce(now) && BeginWithQuestions(now)
  {
    var m := Last(messages);
    if groups != [] {
      QuestionDecides(messages, Last(groups));
      assert groups == groups[..|groups| - 1] + [Last(groups)];
    }
    hide GroupOf, GroupsOf, Uniform, PlainMessage, BeginsNextTurn;
    if StartsGroup(BeginsNextTurn, groups, m) {
      NewQuestion(groups, m);
    } else {
      SameQuestion(groups[..|groups| - 1], Last(groups), m);
    }
  }

  lemma NewQuestion(groups: seq<Turn>, m: ConversationMessage)
    requires AskedOnce(groups) && BeginWithQuestions(groups)
    requires groups == [] || Last(groups) == [] || Last(groups)[0].conversationId != m.conversationId
        || !PlainMessage(m) || m.role == User
    ensures AskedOnce(groups + [[m]]) && BeginWithQuestions(groups + [[m]])
  {
  }

  lemma SameQuestion(closed: seq<Turn>, open: Turn, m: ConversationMessage)
    requires AskedOnce(closed + [open]) && BeginWithQuestions(closed + [open])
    requires open != [] && (PlainMessage(open[0]) ==> m.role != User)
    ensures AskedOnce(closed + [open + [m]]) && BeginWithQuestions(closed + [open + [m]])
  {
    hide PlainMessage;
    SameHeads(closed, open, m);
    AskedNothingMore(closed, open, m);
  }

  /** The first messages of the groups stay. */
  lemma SameHeads(closed: seq<Turn>, open: Turn, m: ConversationMessage)
    requires open != [] && BeginWithQuestions(closed + [open])
    ensures BeginWithQuestions(closed + [open + [m]])
  {
    hide PlainMessage;
    var groups: seq<Turn>, now: seq<Turn> := closed + [open], closed + [open + [m]];
    assert forall i | 0 <= i < |now| ::
        (now[i] != [] <==> groups[i] != []) && (now[i] != [] ==> now[i][0] == groups[i][0]);
    forall i | 0 < i < |now| && now[i] != [] && now[i - 1] != [] && PlainMessage(now[i][0])
               && now[i - 1][0].conversationId == now[i][0].conversationId
      ensures now[i][0].role == User {
      assert groups[i] != [] && groups[i - 1] != [];
    }
  }

  lemma AskedNothingMore(closed: seq<Turn>, open: Turn, m: ConversationMessage)
    requires open != [] && AskedOnce(closed + [open]) && (PlainMessage(open[0]) ==> m.role != User)
    ensures AskedOnce(closed + [open + [m]])
  {
    hide PlainMessage;
    var groups: seq<Turn>, now: seq<Turn> := closed + [open], closed + [open + [m]];
    assert open in groups && (open + [m])[0] == open[0];
    forall g: Turn, k | g in now && g != [] && PlainMessage(g[0]) && 0 < k < |g| ensures g[k].role != User {
      if g in closed {
        assert g in groups;
      } else {
        assert g == open + [m];
      }
    }
  }

  /** Without a native reader every question of a conversation starts a turn, and nothing else does. */
  lemma {:induction false} PlainTurnsAreQuestions(messages: seq<ConversationMessage>)
    requires Uniform(messages)
    ensures AskedOnce(Cut(BeginsNextTurn, messages)) && BeginWithQuestions(Cut(BeginsNextTurn, messages))
  {
    hide AddMessage, Uniform, GroupsOf, AskedOnce, BeginWithQuestions;
    if messages == [] {
      NothingAsked();
    } else {
      UniformFront(messages);
      PlainTurnsAreQuestions(messages[..|messages| - 1]);
      CutGroups(BeginsNextTurn, messages[..|messages| - 1]);
      QuestionStarts(messages, Cut(BeginsNextTurn, messages[..|messages| - 1]));
    }
  }

  lemma NothingAsked()
    ensures AskedOnce([]) && BeginWithQuestions([])
  {
  }
}
