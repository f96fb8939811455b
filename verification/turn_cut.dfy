/**
 The two passes over a source's staged messages: preparing, which records for every turn whether
 it is selected (Memory/src/agent-source/runtime.ts `prepareStandaloneSource`), and ingesting,
 which cuts the stream again (AgentSourceCore/src/index.ts `orderedTurns`) and looks each turn up.
 */
module TurnCut {
  import opened Wrappers
  import opened SourceTurns
  import opened Text
  import opened Ordering
  import opened ScanStore
  import opened ScanPages

  datatype Mode = InitialSubset | Incremental | FullScan

  datatype PreparedTurn = PreparedTurn(
    firstMessageId: string, firstCreatedAt: Time, lastMessageId: string, lastCreatedAt: Time, selected: bool)

  datatype PreparedConversation = PreparedConversation(
    lastMessageId: string, lastCreatedAt: Time, contentHash: string, selected: bool)

  /** `(conversation_id, turn_id)`; the turn id is printed from both and the last part of `TurnKey`. */
  datatype TurnKey = TurnKey(conversationId: string, identity: string)

  type Turn = seq<ConversationMessage>

  // ---------------------------------------------------------------------------------------
  // Specification
  // ---------------------------------------------------------------------------------------

  /** Where preparing starts a turn inside a conversation. */
  predicate PrepareCuts(first: ConversationMessage, next: ConversationMessage) {
    if HasStagedTurn(next) then next.meta.turnId != first.meta.turnId else next.role == User
  }

  /** `beginsNextTurn` */
  predicate BeginsNextTurn(first: ConversationMessage, next: ConversationMessage) {
    if first.meta.turnId != "" || next.meta.turnId != "" then first.meta.turnId != next.meta.turnId
        else next.role == User
  }

  predicate NeverCuts(first: ConversationMessage, next: ConversationMessage) {
    false
  }

  predicate StartsGroup(rule: (ConversationMessage, ConversationMessage) -> bool, groups: seq<Turn>,
      m: ConversationMessage) {
    groups == [] || Last(groups) == [] || Last(groups)[0].conversationId != m.conversationId || rule(Last(groups)[0], m)
  }

  function AddMessage(rule: (ConversationMessage, ConversationMessage) -> bool, groups: seq<Turn>,
      m: ConversationMessage): seq<Turn> {
    if StartsGroup(rule, groups, m) then groups + [[m]] else groups[..|groups| - 1] + [Last(groups) + [m]]
  }

  function Cut(rule: (ConversationMessage, ConversationMessage) -> bool,
      messages: seq<ConversationMessage>): seq<Turn> {
    if messages == [] then [] else AddMessage(rule, Cut(rule, messages[..|messages| - 1]), Last(messages))
  }

  /** `isCompleteTurn` */
  predicate IsCompleteTurn(turn: Turn) {
    && turn != []
    && turn[0].role == User && !Blank(turn[0].content)
    && Last(turn).role == Assistant && !Blank(Last(turn).content)
  }

  /** `shouldEmitTurn` */
  predicate ShouldEmit(turn: Turn) {
    turn != [] && (HasStagedTurn(turn[0]) || IsCompleteTurn(turn))
  }

  function Emitted(groups: seq<Turn>): seq<Turn> {
    if groups == [] then []
    else Emitted(groups[..|groups| - 1]) + if ShouldEmit(Last(groups)) then [Last(groups)] else []
  }

  function FirstUser(turn: Turn): Option<string> {
    if turn == [] then None
    else if turn[0].role == User then Some(turn[0].messageId)
    else FirstUser(turn[1..])
  }

  /** `stableTurnIdentity`; a turn without native state and without a user message has none. */
  function StableIdentity(turn: Turn): Option<TurnKey>
    requires turn != []
  {
    if HasStagedTurn(turn[0])
    then Some(TurnKey(turn[0].conversationId, if turn[0].meta.turnId != "" then turn[0].meta.turnId
        else turn[0].messageId))
    else match FirstUser(turn)
         case None => None
         case Some(id) => Some(TurnKey(turn[0].conversationId, id))
  }

  predicate SelectedAt(mode: Mode, latestSeenAt: Option<Time>, at: Time) {
    mode != Incremental || latestSeenAt.None? || at >= latestSeenAt.value
  }

  function TurnMeta(mode: Mode, latestSeenAt: Option<Time>, turn: Turn): PreparedTurn
    requires turn != []
  {
    PreparedTurn(turn[0].messageId, turn[0].createdAt, Last(turn).messageId, Last(turn).createdAt,
                 SelectedAt(mode, latestSeenAt, Last(turn).createdAt))
  }

  function SaveTurn(mode: Mode, latestSeenAt: Option<Time>, table: map<TurnKey, PreparedTurn>,
      turn: Turn): map<TurnKey, PreparedTurn> {
    if ShouldEmit(turn) && StableIdentity(turn).Some?
    then table[StableIdentity(turn).value := TurnMeta(mode, latestSeenAt, turn)]
    else table
  }

  function SaveTurns(mode: Mode, latestSeenAt: Option<Time>, table: map<TurnKey, PreparedTurn>,
      groups: seq<Turn>): map<TurnKey, PreparedTurn> {
    if groups == [] then table
    else SaveTurn(mode, latestSeenAt, SaveTurns(mode, latestSeenAt, table, groups[..|groups| - 1]), Last(groups))
  }

  /** `digest` is the hash of the conversation's messages; a conversation without an id is not recorded. */
  function SaveConversation(
    mode: Mode, latestSeenAt: Option<Time>, digest: Turn -> string,
    table: map<string, PreparedConversation>, conversation: Turn): map<string, PreparedConversation>
  {
    if conversation == [] || conversation[0].conversationId == "" then table
    else
      var latest := Last(conversation);
      table[conversation[0].conversationId :=
        PreparedConversation(latest.messageId, latest.createdAt, digest(conversation),
            SelectedAt(mode, latestSeenAt, latest.createdAt))]
  }

  function SaveConversations(
    mode: Mode, latestSeenAt: Option<Time>, digest: Turn -> string,
    table: map<string, PreparedConversation>, conversations: seq<Turn>): map<string, PreparedConversation>
  {
    if conversations == [] then table
    else SaveConversation(mode, latestSeenAt, digest,
           SaveConversations(mode, latestSeenAt, digest, table, conversations[..|conversations| - 1]),
               Last(conversations))
  }

  function SelectAll(table: map<string, PreparedConversation>): map<string, PreparedConversation> {
    map c | c in table :: table[c].(selected := true)
  }

  // ---------------------------------------------------------------------------------------
  // The two passes
  // ---------------------------------------------------------------------------------------

  /** The open group of a pass is the last group of the cut so far. */
  ghost predicate Open(cut: seq<Turn>, current: Turn) {
    if cut == [] then current == [] else current != [] && Last(cut) == current
  }

  function Closed(cut: seq<Turn>): seq<Turn> {
    if cut == [] then [] else cut[..|cut| - 1]
  }

  lemma CutSnoc(rule: (ConversationMessage, ConversationMessage) -> bool, messages: seq<ConversationMessage>, n: nat)
    requires n < |messages|
    ensures Cut(rule, messages[..n + 1]) == AddMessage(rule, Cut(rule, messages[..n]), messages[n])
  {
    assert messages[..n + 1][..n] == messages[..n];
  }

  lemma EmittedLast(cut: seq<Turn>)
    ensures cut != [] ==> Emitted(cut) == Emitted(Closed(cut)) + if ShouldEmit(Last(cut)) then [Last(cut)] else []
  {
  }

  /** `orderedTurns` */
  method OrderedTurns(messages: seq<ConversationMessage>) returns (turns: seq<Turn>)
    ensures turns == Emitted(Cut(BeginsNextTurn, messages))
  {
    hide Cut, BeginsNextTurn, ShouldEmit, Emitted;
    turns := [];
    var current: Turn := [];
    var conversationId := "";
    NoTurns();
    for i := 0 to |messages|
      invariant Open(Cut(BeginsNextTurn, messages[..i]), current)
      invariant current != [] ==> current[0].conversationId == conversationId
      invariant turns == Emitted(Closed(Cut(BeginsNextTurn, messages[..i])))
    {
      var message := messages[i];
      ghost var cut := Cut(BeginsNextTurn, messages[..i]);
      CutSnoc(BeginsNextTurn, messages, i);
      EmittedLast(cut);
      assert cut != [] ==> cut == Closed(cut) + [current];
      if message.conversationId != conversationId {
        if ShouldEmit(current) { turns := turns + [current]; }
        current := [];
        conversationId := message.conversationId;
      }
      if current != [] && BeginsNextTurn(current[0], message) {
        if ShouldEmit(current) { turns := turns + [current]; }
        current := [];
      }
      current := current + [message];
      ghost var next := Cut(BeginsNextTurn, messages[..i + 1]);
      assert next != [] && Last(next) == current;
      assert if StartsGroup(BeginsNextTurn, cut, message) then Closed(next) == cut else Closed(next) == Closed(cut);
    }
    assert messages[..|messages|] == messages;
    EmittedLast(Cut(BeginsNextTurn, messages));
    if ShouldEmit(current) { turns := turns + [current]; }
  }

  lemma NoTurns()
    ensures Cut(BeginsNextTurn, []) == [] && Emitted([]) == [] && !ShouldEmit([])
  {
  }

  /** An emitted turn has an identity: its native id, or the id of its first message. */
  lemma EmittedHasIdentity(turn: Turn)
    requires ShouldEmit(turn)
    ensures StableIdentity(turn) == Some(TurnKey(turn[0].conversationId,
              if HasStagedTurn(turn[0]) && turn[0].meta.turnId != "" then turn[0].meta.turnId else turn[0].messageId))
  {
  }

  class Preparation {
    const mode: Mode
    const latestSeenAt: Option<Time>
    const digest: Turn -> string
    var turns: map<TurnKey, PreparedTurn>
    var conversations: map<string, PreparedConversation>

    constructor (mode: Mode, latestSeenAt: Option<Time>, digest: Turn -> string,
                 turns: map<TurnKey, PreparedTurn>, conversations: map<string, PreparedConversation>)
      ensures this.mode == mode && this.latestSeenAt == latestSeenAt && this.digest == digest
      ensures this.turns == turns && this.conversations == conversations
    {
      this.mode, this.latestSeenAt, this.digest, this.turns, this.conversations :=
          mode, latestSeenAt, digest, turns, conversations;
    }

    method FlushTurn(current: Turn)
      modifies `turns
      ensures turns == SaveTurn(mode, latestSeenAt, old(turns), current)
    {
      if current == [] || (!HasStagedTurn(current[0]) && !IsCompleteTurn(current)) { return; }
      EmittedHasIdentity(current);
      turns := turns[StableIdentity(current).value := TurnMeta(mode, latestSeenAt, current)];
    }

    method FlushConversation(conversation: Turn)
      modifies `conversations
      ensures conversations == SaveConversation(mode, latestSeenAt, digest, old(conversations), conversation)
    {
      if conversation == [] || conversation[0].conversationId == "" { return; }
      var latest := Last(conversation);
      conversations := conversations[conversation[0].conversationId :=
        PreparedConversation(latest.messageId, latest.createdAt, digest(conversation),
            SelectedAt(mode, latestSeenAt, latest.createdAt))];
    }

    /** `prepareStandaloneSource`; `hashed` is what went into the conversation's running hash. */
    method Prepare(messages: seq<ConversationMessage>, previousContentHash: Option<string>)
        returns (contentHash: string)
      modifies `turns, `conversations
      ensures contentHash == digest(messages)
      ensures turns == SaveTurns(mode, latestSeenAt, old(turns), Cut(PrepareCuts, messages))
      ensures var saved := SaveConversations(mode, latestSeenAt, digest, old(conversations), Cut(NeverCuts, messages));
              conversations == if mode == Incremental && previousContentHash != Some(contentHash)
                  then SelectAll(saved) else saved
    {
      hide Cut, PrepareCuts, SaveTurns, SaveTurn, SaveConversations, SaveConversation, SelectAll, ShouldEmit;
      ghost var turns0, conversations0 := turns, conversations;
      var currentConversation: Option<string> := None;
      var currentTurn: Turn, hashed: Turn := [], [];
      NothingSaved(mode, latestSeenAt, digest, turns, conversations);
      for i := 0 to |messages|
        invariant Open(Cut(PrepareCuts, messages[..i]), currentTurn)
        invariant Open(Cut(NeverCuts, messages[..i]), hashed)
        invariant currentTurn == [] <==> hashed == []
        invariant currentConversation.None? ==> hashed == []
        invariant hashed != []
            ==> currentConversation == Some(hashed[0].conversationId) == Some(currentTurn[0].conversationId)
        invariant turns == SaveTurns(mode, latestSeenAt, turns0, Closed(Cut(PrepareCuts, messages[..i])))
        invariant conversations
            == SaveConversations(mode, latestSeenAt, digest, conversations0, Closed(Cut(NeverCuts, messages[..i])))
      {
        var message := messages[i];
        ghost var cut, whole := Cut(PrepareCuts, messages[..i]), Cut(NeverCuts, messages[..i]);
        CutSnoc(PrepareCuts, messages, i);
        CutSnoc(NeverCuts, messages, i);
        SavedLast(mode, latestSeenAt, digest, turns0, conversations0, cut, whole);
        if currentConversation != Some(message.conversationId) {
          FlushTurn(currentTurn);
          FlushConversation(hashed);
          currentConversation := Some(message.conversationId);
          currentTurn := [];
          hashed := [];
        }
        if currentTurn != [] && PrepareCuts(currentTurn[0], message) {
          FlushTurn(currentTurn);
          currentTurn := [];
        }
        currentTurn := currentTurn + [message];
        hashed := hashed + [message];
        ghost var next, whole' := Cut(PrepareCuts, messages[..i + 1]), Cut(NeverCuts, messages[..i + 1]);
        assert if StartsGroup(PrepareCuts, cut, message) then Closed(next) == cut else Closed(next) == Closed(cut);
        assert if StartsGroup(NeverCuts, whole, message) then Closed(whole') == whole
            else Closed(whole') == Closed(whole);
      }
      assert messages[..|messages|] == messages;
      SavedLast(mode, latestSeenAt, digest, turns0, conversations0, Cut(PrepareCuts, messages),
          Cut(NeverCuts, messages));
      FlushTurn(currentTurn);
      FlushConversation(hashed);
      contentHash := digest(messages);
      if mode == Incremental && previousContentHash != Some(contentHash) {
        conversations := SelectAll(conversations);
      }
    }
  }

  lemma NothingSaved(mode: Mode, latestSeenAt: Option<Time>, digest: Turn -> string,
                     turns: map<TurnKey, PreparedTurn>, conversations: map<string, PreparedConversation>)
    ensures SaveTurns(mode, latestSeenAt, turns, []) == turns && SaveTurn(mode, latestSeenAt, turns, []) == turns
    ensures SaveConversations(mode, latestSeenAt, digest, conversations, []) == conversations
    ensures SaveConversation(mode, latestSeenAt, digest, conversations, []) == conversations
    ensures Cut(PrepareCuts, []) == [] && Cut(NeverCuts, []) == []
  {
  }

  lemma SavedLast(mode: Mode, latestSeenAt: Option<Time>, digest: Turn -> string,
                  turns: map<TurnKey, PreparedTurn>, conversations: map<string, PreparedConversation>, cut: seq<Turn>,
                      whole: seq<Turn>)
    ensures SaveTurns(mode, latestSeenAt, turns, cut)
            == SaveTurn(mode, latestSeenAt, SaveTurns(mode, latestSeenAt, turns, Closed(cut)), if cut == [] then []
                else Last(cut))
    ensures SaveConversations(mode, latestSeenAt, digest, conversations, whole)
            == SaveConversation(mode, latestSeenAt, digest,
                SaveConversations(mode, latestSeenAt, digest, conversations, Closed(whole)),
                                if whole == [] then [] else Last(whole))
  {
  }
}
