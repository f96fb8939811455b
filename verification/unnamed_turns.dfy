/**
 What becomes of a stream that the two passes cut differently: a native reader staged a user
 message without a turn id after another message without one. Preparing keeps both in one turn;
 ingesting starts a turn there, for which nothing was recorded.
 */
module UnnamedTurns {
  import opened Wrappers
  import opened SourceTurns
  import opened ScanStore
  import opened TurnCut
  import opened TurnPasses

  // ---------------------------------------------------------------------------------------
  // Where groups start
  // ---------------------------------------------------------------------------------------

  lemma AddKeepsFirsts(rule: Rule, groups: seq<Turn>, m: ConversationMessage)
    requires NoneEmpty(groups)
    ensures var now := AddMessage(rule, groups, m);
            && |groups| <= |now|
            && (forall i | 0 <= i < |groups| :: now[i] != [] && now[i][0] == groups[i][0])
            && (StartsGroup(rule, groups, m) ==> |now| == |groups| + 1 && now[|groups|] == [m])
            && (!StartsGroup(rule, groups, m) ==> |now| == |groups|)
  {
  }

  /** A message that starts a group is the first of one in the end. */
  lemma {:induction false} StartIsFirst(rule: Rule, messages: seq<ConversationMessage>, n: nat) returns (k: nat)
    requires n < |messages| && StartsGroup(rule, Cut(rule, messages[..n]), messages[n])
    ensures var groups := Cut(rule, messages); k < |groups| && groups[k] != [] && groups[k][0] == messages[n]
  {
    hide StartsGroup, AddMessage;
    var front := messages[..|messages| - 1];
    NonemptyGroups(rule, front);
    AddKeepsFirsts(rule, Cut(rule, front), Last(messages));
    if n == |front| {
      k := |Cut(rule, front)|;
    } else {
      assert front[..n] == messages[..n];
      k := StartIsFirst(rule, front, n);
    }
  }

  /** The first message of a group started it. */
  lemma {:induction false} FirstIsStart(rule: Rule, messages: seq<ConversationMessage>, k: nat) returns (n: nat)
    requires k < |Cut(rule, messages)|
    ensures Cut(rule, messages)[k] != [] && n < |messages| && Cut(rule, messages)[k][0] == messages[n]
    ensures StartsGroup(rule, Cut(rule, messages[..n]), messages[n])
  {
    hide StartsGroup, AddMessage;
    var front := messages[..|messages| - 1];
    NonemptyGroups(rule, front);
    AddKeepsFirsts(rule, Cut(rule, front), Last(messages));
    if k < |Cut(rule, front)| {
      n := FirstIsStart(rule, front, k);
      assert front[..n] == messages[..n];
    } else {
      n := |front|;
    }
  }

  lemma {:induction false} SavedKeys(mode: Mode, since: Option<Time>, table: map<TurnKey, PreparedTurn>,
      groups: seq<Turn>, key: TurnKey)
    requires key in SaveTurns(mode, since, table, groups) && key !in table
    ensures exists k :: 0 <= k < |groups| && groups[k] != [] && key == GroupKey(groups[k])
  {
    hide TurnMeta, ShouldEmit, GroupKey, StableIdentity;
    if groups != [] {
      var front, last := groups[..|groups| - 1], Last(groups);
      if ShouldEmit(last) {
        EmittedNonempty(last);
        EmittedKey(last);
      }
      if key in SaveTurns(mode, since, table, front) {
        SavedKeys(mode, since, table, front, key);
        var k :| 0 <= k < |front| && front[k] != [] && key == GroupKey(front[k]);
        assert groups[k] == front[k];
      } else {
        assert groups[|groups| - 1] == last;
      }
    }
  }

  lemma EmittedNonempty(turn: Turn)
    ensures ShouldEmit(turn) ==> turn != []
  {
  }

  // ---------------------------------------------------------------------------------------
  // An unnamed user message
  // ---------------------------------------------------------------------------------------

  ghost predicate UnnamedAt(messages: seq<ConversationMessage>, n: nat) {
    0 < n < |messages| && UnnamedUser(messages[n - 1], messages[n])
  }

  lemma UnnamedStarts(pass: Pass, messages: seq<ConversationMessage>, n: nat)
    requires Orderly(messages) && UnnamedAt(messages, n)
    ensures StartsGroup(RuleOf(pass), Cut(RuleOf(pass), messages[..n]), messages[n]) <==> pass == Ingesting
  {
  }

  /** Ingesting emits a turn that begins with it. */
  lemma UnnamedIsEmitted(messages: seq<ConversationMessage>, n: nat) returns (turn: Turn)
    requires Orderly(messages) && UnnamedAt(messages, n)
    ensures turn in Emitted(Cut(BeginsNextTurn, messages)) && turn != [] && turn[0] == messages[n]
    ensures StableIdentity(turn) == Some(KeyOfFirst(messages[n]))
  {
    hide Orderly, Cut, StartsGroup, StableIdentity;
    UnnamedStarts(Ingesting, messages, n);
    var k := StartIsFirst(BeginsNextTurn, messages, n);
    turn := Cut(BeginsNextTurn, messages)[k];
    EmittedAreGroups(Cut(BeginsNextTurn, messages));
    EmittedKey(turn);
  }

  /** Preparing records nothing under the identity of that turn. */
  lemma UnnamedHasNoRecord(mode: Mode, since: Option<Time>, table: map<TurnKey, PreparedTurn>,
      messages: seq<ConversationMessage>, n: nat)
    requires Orderly(messages) && UnnamedAt(messages, n) && KeyOfFirst(messages[n]) !in table
    ensures KeyOfFirst(messages[n]) !in SaveTurns(mode, since, table, Cut(PrepareCuts, messages))
  {
    hide Orderly, Cut, SaveTurns, StartsGroup, UnnamedUser;
    var groups: seq<Turn> := Cut(PrepareCuts, messages);
    var key := KeyOfFirst(messages[n]);
    if key in SaveTurns(mode, since, table, groups) {
      SavedKeys(mode, since, table, groups, key);
      var k :| 0 <= k < |groups| && groups[k] != [] && key == GroupKey(groups[k]);
      var at := FirstIsStart(PrepareCuts, messages, k);
      SameKeySameMessage(messages, n, at);
      UnnamedStarts(Preparing, messages, n);
    }
  }

  lemma SameKeySameMessage(messages: seq<ConversationMessage>, n: nat, at: nat)
    requires Orderly(messages) && UnnamedAt(messages, n) && at < |messages|
    requires KeyOfFirst(messages[at]) == KeyOfFirst(messages[n])
    ensures at == n
  {
  }

  // ---------------------------------------------------------------------------------------
  // Exactly when records and watermark decide
  // ---------------------------------------------------------------------------------------

  ghost predicate EveryTurnHasItsRecord(mode: Mode, since: Option<Time>, table: map<TurnKey, PreparedTurn>,
      messages: seq<ConversationMessage>) {
    var saved := SaveTurns(mode, since, table, Cut(PrepareCuts, messages));
    forall turn | turn in Emitted(Cut(BeginsNextTurn, messages)) ::
      && turn != [] && StableIdentity(turn).Some? && StableIdentity(turn).value in saved
      && saved[StableIdentity(turn).value] == TurnMeta(mode, since, turn)
  }

  lemma NamedOrUnnamed(messages: seq<ConversationMessage>) returns (n: nat)
    ensures NoUnnamedUser(messages) || UnnamedAt(messages, n)
  {
    hide UnnamedUser;
    n := 0;
    if !NoUnnamedUser(messages) {
      var i :| 0 <= i < |messages| - 1 && UnnamedUser(messages[i], messages[i + 1]);
      n := i + 1;
    }
  }

  lemma UnnamedIsNotNone(messages: seq<ConversationMessage>, n: nat)
    ensures UnnamedAt(messages, n) ==> !NoUnnamedUser(messages)
  {
  }

  /** Starting from empty tables, every ingested turn finds its own record exactly when no user message is unnamed. */
  lemma RecordsAreFoundExactly(mode: Mode, since: Option<Time>, messages: seq<ConversationMessage>)
    requires Orderly(messages)
    ensures EveryTurnHasItsRecord(mode, since, map[], messages) <==> NoUnnamedUser(messages)
  {
    hide Orderly, NoUnnamedUser, UnnamedAt, Cut, SaveTurns, StableIdentity;
    var n := NamedOrUnnamed(messages);
    UnnamedIsNotNone(messages, n);
    if UnnamedAt(messages, n) {
      var turn := UnnamedIsEmitted(messages, n);
      UnnamedHasNoRecord(mode, since, map[], messages, n);
    } else {
      forall turn | turn in Emitted(Cut(BeginsNextTurn, messages))
        ensures turn != [] && StableIdentity(turn).Some?
        ensures var saved := SaveTurns(mode, since, map[], Cut(PrepareCuts, messages));
                StableIdentity(turn).value in saved && saved[StableIdentity(turn).value] == TurnMeta(mode, since, turn)
      {
        EveryTurnIsFound(mode, since, map[], messages, turn);
      }
    }
  }

  /** The turn of an unnamed user message is ingested with its conversation, whatever the watermark says. */
  lemma UnnamedTurnIgnoresWatermark(
    mode: Mode, since: Option<Time>, table: map<TurnKey, PreparedTurn>,
        conversations: map<string, PreparedConversation>,
    messages: seq<ConversationMessage>, n: nat) returns (turn: Turn)
    requires Orderly(messages) && UnnamedAt(messages, n) && KeyOfFirst(messages[n]) !in table
    ensures turn in Emitted(Cut(BeginsNextTurn, messages)) && turn != [] && turn[0] == messages[n]
        && StableIdentity(turn).Some?
    ensures var id := messages[n].conversationId;
            Looked(SaveTurns(mode, since, table, Cut(PrepareCuts, messages)), conversations, turn)
            <==> (id in conversations ==> conversations[id].selected)
  {
    hide Orderly, Cut, SaveTurns, StableIdentity;
    turn := UnnamedIsEmitted(messages, n);
    UnnamedHasNoRecord(mode, since, table, messages, n);
  }

  /** Whether the watermark alone decides what an incremental scan ingests, when the content hash changed. */
  ghost predicate WatermarkDecides(digest: Turn -> string, messages: seq<ConversationMessage>) {
    forall turn, since | turn in Emitted(Cut(BeginsNextTurn, messages)) :: DecidesFor(digest, messages, turn, since)
  }

  ghost predicate DecidesFor(digest: Turn -> string, messages: seq<ConversationMessage>, turn: Turn,
      since: Option<Time>) {
    var conversations := SelectAll(SaveConversations(Incremental, since, digest, map[], Cut(NeverCuts, messages)));
    && turn != [] && StableIdentity(turn).Some?
    && (Looked(SaveTurns(Incremental, since, map[], Cut(PrepareCuts, messages)), conversations, turn)
        <==> SelectedAt(Incremental, since, Last(turn).createdAt))
  }

  lemma AllAreSelected(table: map<string, PreparedConversation>)
    ensures forall id | id in SelectAll(table) :: SelectAll(table)[id].selected
  {
  }

  /** For every turn and every watermark it decides exactly when no user message is unnamed. */
  lemma WatermarkDecidesExactly(digest: Turn -> string, messages: seq<ConversationMessage>)
    requires Orderly(messages) && TimesAscend(messages)
    ensures WatermarkDecides(digest, messages) <==> NoUnnamedUser(messages)
  {
    hide Orderly, TimesAscend, NoUnnamedUser, UnnamedAt, Cut, SaveTurns, SaveConversations, StableIdentity, SelectAll;
    var n := NamedOrUnnamed(messages);
    UnnamedIsNotNone(messages, n);
    if UnnamedAt(messages, n) {
      var turn := UnnamedIsEmitted(messages, n);
      var since := Some(Last(turn).createdAt + 1);
      var saved := SaveConversations(Incremental, since, digest, map[], Cut(NeverCuts, messages));
      AllAreSelected(saved);
      UnnamedHasNoRecord(Incremental, since, map[], messages, n);
      assert !DecidesFor(digest, messages, turn, since);
    } else {
      forall turn, since | turn in Emitted(Cut(BeginsNextTurn, messages))
          ensures DecidesFor(digest, messages, turn, since) {
        IngestedExactlyFromWatermark(Incremental, since, digest, true, map[], map[], messages, turn);
      }
    }
  }
}
