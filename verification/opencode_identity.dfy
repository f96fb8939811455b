/**
 What keeps an OpenCode turn the same turn: migrating the database does not change the turns that
 were already captured, and a native turn is closed by its idle row for good.
 */
module OpencodeIdentity {
  import opened Wrappers
  import opened SourceTurns
  import opened Text
  import opened OpencodeSourceTurn
  import opened OpencodeDatabaseSource

  // ---------------------------------------------------------------------------------------
  // When two sources give a user the same assistants
  // ---------------------------------------------------------------------------------------

  ghost predicate SameChild(a: Source, m: Message, b: Source, m': Message, parent: string) {
    && (ChildOf(a, m, parent) <==> ChildOf(b, m', parent))
    && (ChildOf(a, m, parent) ==> AssistantOf(a, m) == AssistantOf(b, m'))
  }

  lemma {:induction false} SameChildren(a: Source, messages: seq<Message>, b: Source, messages': seq<Message>,
      parent: string)
    requires |messages| == |messages'| && forall i | 0 <= i < |messages| ::
        SameChild(a, messages[i], b, messages'[i], parent)
    ensures AssistantsOf(a, messages, parent) == AssistantsOf(b, messages', parent)
  {
    hide ChildOf, AssistantOf;
    if messages != [] {
      SameChildren(a, messages[..|messages| - 1], b, messages'[..|messages| - 1], parent);
      assert SameChild(a, Last(messages), b, Last(messages'), parent);
    }
  }

  lemma {:induction false} NoMoreChildren(source: Source, messages: seq<Message>, more: seq<Message>, parent: string)
    requires forall m | m in more :: !ChildOf(source, m, parent)
    ensures AssistantsOf(source, messages + more, parent) == AssistantsOf(source, messages, parent)
  {
    hide ChildOf, AssistantOf, AssistantsOf;
    if more == [] {
      assert messages + more == messages;
    } else {
      var front := more[..|more| - 1];
      assert more == front + [Last(more)];
      NoMoreChildren(source, messages, front, parent);
      AssistantsSnoc(source, messages + front, Last(more), parent);
      assert messages + more == messages + front + [Last(more)];
    }
  }

  ghost predicate SameIds(messages: seq<Message>, messages': seq<Message>) {
    |messages| <= |messages'| && forall i | 0 <= i < |messages| :: messages'[i].id == messages[i].id
  }

  /** The revert point cuts a session and an extension of it at the same place, or cuts only the extension. */
  lemma VisibleExtension(messages: seq<Message>, messages': seq<Message>, revert: string)
    requires SameIds(messages, messages')
    ensures var n, n' := |Visible(messages, revert)|, |Visible(messages', revert)|;
            && n <= |messages| && n' <= |messages'|
            && Visible(messages, revert) == messages[..n] && Visible(messages', revert) == messages'[..n']
            && n <= n' && (n < |messages| ==> n' == n)
  {
  }

  /** Position `i` gives the same block when the user and its children look the same in both sources. */
  lemma SameBlock(env: Env, session: Session, a: Source, b: Source, i: nat)
    requires SameIds(a.messages, b.messages) && i < |a.messages| && a.messages[i] == b.messages[i]
    requires PartsOf(a, a.messages[i].id) == PartsOf(b, a.messages[i].id)
    requires var parent := a.messages[i].id;
             && (forall k | 0 <= k < |a.messages| :: SameChild(a, a.messages[k], b, b.messages[k], parent))
             && (forall k | |a.messages| <= k < |b.messages| :: !ChildOf(b, b.messages[k], parent))
    ensures BlockAt(env, session, a, i) == BlockAt(env, session, b, i)
  {
    hide UserBlock, ChildOf, AssistantOf, Visible;
    var visible, visible' := Visible(a.messages, session.revertMessageId), Visible(b.messages, session.revertMessageId);
    VisibleExtension(a.messages, b.messages, session.revertMessageId);
    var n := |visible|;
    if i < n {
      var parent := a.messages[i].id;
      SameChildren(a, visible, b, b.messages[..n], parent);
      assert forall m | m in visible'[n..] :: !ChildOf(b, m, parent);
      NoMoreChildren(b, b.messages[..n], visible'[n..], parent);
      assert b.messages[..n] + visible'[n..] == visible';
      assert visible[i] == visible'[i];
    }
  }

  // ---------------------------------------------------------------------------------------
  // What native rows leave alone
  // ---------------------------------------------------------------------------------------

  predicate IsUser(legacyIds: set<string>, row: NativeRow) {
    row.content.UserRow? && row.id !in legacyIds
  }

  /** Some user row, then an idle row before the next user row. */
  ghost predicate IdleAfter(legacyIds: set<string>, rows: seq<NativeRow>, user: string) {
    exists j, k | 0 <= j < k < |rows| :: IdleBetween(legacyIds, rows, user, j, k)
  }

  ghost predicate IdleBetween(legacyIds: set<string>, rows: seq<NativeRow>, user: string, j: int, k: int) {
    && 0 <= j < k < |rows| && rows[j].id == user && IsUser(legacyIds, rows[j])
    && rows[k].content.IdleRow? && forall x | j < x < k :: !IsUser(legacyIds, rows[x])
  }

  ghost predicate CurrentUser(legacyIds: set<string>, rows: seq<NativeRow>, user: string, j: int) {
    && 0 <= j < |rows| && rows[j].id == user && IsUser(legacyIds, rows[j])
    && forall x | j < x < |rows| :: !IsUser(legacyIds, rows[x])
  }

  ghost predicate HasCurrent(legacyIds: set<string>, rows: seq<NativeRow>, user: string) {
    exists j :: CurrentUser(legacyIds, rows, user, j)
  }

  /** A native message: pending while its user is current, closed only after an idle row of its user. */
  ghost predicate NativeMessage(legacyIds: set<string>, rows: seq<NativeRow>, parentID: string, open: seq<nat>,
      k: nat, m: Message) {
    && m.id in Ids(rows) - legacyIds
    && (m.data.role == UserMessage || m.data.role == AssistantMessage)
    && (m.data.role == AssistantMessage ==>
          && m.data.parentID in Ids(rows) - legacyIds
          && if parentID != "" && m.data.parentID == parentID
             then k in open && m.data.nativeTurnPending
             else !m.data.nativeTurnPending ==> IdleAfter(legacyIds, rows, m.data.parentID))
  }

  /** The state after `rows`; the first messages are the legacy slots. */
  ghost predicate Inv(start: Feed, legacyIds: set<string>, rows: seq<NativeRow>, st: Feed) {
    var n := |start.result|;
    && n <= |st.result| && st.result[..n] == start.result
    && (forall k | n <= k < |st.result| ::
        NativeMessage(legacyIds, rows, st.parentID, st.openAssistants, k, st.result[k]))
    && (forall id | id in legacyIds ::
        (id in st.parts <==> id in start.parts) && (id in st.parts ==> st.parts[id] == start.parts[id]))
    && (st.parentID != "" ==> HasCurrent(legacyIds, rows, st.parentID) && st.parentID in Ids(rows) - legacyIds)
    && (forall k | k in st.openAssistants ::
        n <= k < |st.result| && st.result[k].data.role == AssistantMessage && st.result[k].data.parentID == st.parentID)
    && (st.openAssistants != [] ==> st.parentID != "")
  }

  lemma IdsSnoc(rows: seq<NativeRow>, row: NativeRow)
    ensures Ids(rows + [row]) == Ids(rows) + {row.id}
  {
  }

  lemma IdleAfterMore(legacyIds: set<string>, rows: seq<NativeRow>, row: NativeRow, user: string)
    ensures IdleAfter(legacyIds, rows, user) ==> IdleAfter(legacyIds, rows + [row], user)
    ensures HasCurrent(legacyIds, rows, user) && !IsUser(legacyIds, row) ==> HasCurrent(legacyIds, rows + [row], user)
    ensures HasCurrent(legacyIds, rows, user) && row.content.IdleRow? ==> IdleAfter(legacyIds, rows + [row], user)
  {
    if IdleAfter(legacyIds, rows, user) {
      var j, k :| 0 <= j < k < |rows| && IdleBetween(legacyIds, rows, user, j, k);
      assert IdleBetween(legacyIds, rows + [row], user, j, k);
    }
    if HasCurrent(legacyIds, rows, user) {
      var j :| CurrentUser(legacyIds, rows, user, j);
      if !IsUser(legacyIds, row) {
        assert CurrentUser(legacyIds, rows + [row], user, j);
      }
      if row.content.IdleRow? {
        assert IdleBetween(legacyIds, rows + [row], user, j, |rows|);
      }
    }
  }

  lemma NewUser(legacyIds: set<string>, rows: seq<NativeRow>, row: NativeRow)
    requires IsUser(legacyIds, row)
    ensures HasCurrent(legacyIds, rows + [row], row.id)
  {
    assert CurrentUser(legacyIds, rows + [row], row.id, |rows|);
  }

  /** One message through one row: how its own status moves. */
  lemma MessageStep(legacyIds: set<string>, rows: seq<NativeRow>, st: Feed, row: NativeRow, k: nat)
    requires k < |st.result| && NativeMessage(legacyIds, rows, st.parentID, st.openAssistants, k, st.result[k])
    requires st.parentID != "" ==> HasCurrent(legacyIds, rows, st.parentID)
    requires k in st.openAssistants ==> st.parentID != "" && st.result[k].data.parentID == st.parentID
    requires row.id !in Ids(rows)
    ensures var now := NativeStep(legacyIds, st, row);
            k < |now.result| && NativeMessage(legacyIds, rows + [row], now.parentID, now.openAssistants, k,
                now.result[k])
  {
    hide Ids, IdleAfter, HasCurrent, PartsOfItems;
    IdsSnoc(rows, row);
    IdleAfterMore(legacyIds, rows, row, st.result[k].data.parentID);
  }

  /** A message that a row appends is of the current user, and open. */
  lemma NewMessage(legacyIds: set<string>, rows: seq<NativeRow>, st: Feed, row: NativeRow)
    requires st.parentID != "" ==> st.parentID in Ids(rows) - legacyIds
    ensures var now := NativeStep(legacyIds, st, row);
            |now.result| <= |st.result| + 1
            && (|now.result| > |st.result| ==> NativeMessage(legacyIds, rows + [row], now.parentID, now.openAssistants,
                |st.result|, now.result[|st.result|]))
  {
    hide Ids, IdleAfter, PartsOfItems, Otherwise;
    IdsSnoc(rows, row);
  }

  lemma StepKeepsInv(start: Feed, legacyIds: set<string>, rows: seq<NativeRow>, st: Feed, row: NativeRow)
    requires Inv(start, legacyIds, rows, st) && row.id !in Ids(rows)
    ensures Inv(start, legacyIds, rows + [row], NativeStep(legacyIds, st, row))
  {
    hide Ids, IdleAfter, HasCurrent, PartsOfItems, Otherwise, NativeMessage;
    var n := |start.result|;
    var now := NativeStep(legacyIds, st, row);
    IdsSnoc(rows, row);
    IdleAfterMore(legacyIds, rows, row, st.parentID);
    if IsUser(legacyIds, row) {
      NewUser(legacyIds, rows, row);
    }
    NewMessage(legacyIds, rows, st, row);
    forall k | n <= k < |st.result|
        ensures NativeMessage(legacyIds, rows + [row], now.parentID, now.openAssistants, k, now.result[k]) {
      MessageStep(legacyIds, rows, st, row, k);
    }
    SlotsStay(legacyIds, st, row, n);
  }

  /** A row appends or closes native messages; it never reaches the first ones. */
  lemma SlotsStay(legacyIds: set<string>, st: Feed, row: NativeRow, n: nat)
    requires n <= |st.result| && forall k | k in st.openAssistants :: n <= k < |st.result|
    ensures var now := NativeStep(legacyIds, st, row);
            |now.result| >= |st.result| && now.result[..n] == st.result[..n]
  {
  }

  ghost predicate DistinctIds(rows: seq<NativeRow>) {
    forall i, j | 0 <= i < j < |rows| :: rows[i].id != rows[j].id
  }

  lemma {:induction false} RunKeepsInv(start: Feed, legacyIds: set<string>, rows: seq<NativeRow>)
    requires start.parentID == "" && start.openAssistants == [] && DistinctIds(rows)
    ensures Inv(start, legacyIds, rows, NativeRun(legacyIds, start, rows))
  {
    if rows == [] {
      assert start.result[..|start.result|] == start.result;
    } else {
      hide Inv, NativeStep;
      var front := rows[..|rows| - 1];
      RunKeepsInv(start, legacyIds, front);
      assert rows == front + [Last(rows)];
      assert forall i | 0 <= i < |front| :: front[i].id != Last(rows).id;
      StepKeepsInv(start, legacyIds, front, NativeRun(legacyIds, start, front), Last(rows));
    }
  }

  // ---------------------------------------------------------------------------------------
  // Migration keeps identity
  // ---------------------------------------------------------------------------------------

  lemma {:induction false} ShownParts(legacy: LegacyTables, messages: seq<Message>, migrated: set<string>, m: Message)
    requires m in messages && Owner(m) in migrated
    ensures var shown := LegacyPartsShown(legacy, messages, migrated);
            m.id in shown && shown[m.id] == LegacyParts(legacy, m.id)
  {
    var front := messages[..|messages| - 1];
    assert messages == front + [Last(messages)];
    if m in front {
      ShownParts(legacy, front, migrated, m);
    }
  }

  lemma LegacySlotsHold(legacy: LegacyTables, rows: seq<NativeRow>)
    requires DistinctIds(rows)
    ensures var shown := Migrated(legacy, Ids(rows));
            Inv(Start(shown, Ids(rows)), LegacyIds(shown.messages), rows, V2State(legacy, rows))
  {
    var shown := Migrated(legacy, Ids(rows));
    RunKeepsInv(Start(shown, Ids(rows)), LegacyIds(shown.messages), rows);
  }

  /** A legacy message shows the same through both adapters as far as a migrated user is concerned. */
  lemma SameLegacyChild(legacy: LegacyTables, rows: seq<NativeRow>, k: nat, parent: string)
    requires DistinctIds(rows) && k < |legacy.messages| && parent in Ids(rows)
    requires Migrated(legacy, Ids(rows)) == legacy
    ensures var a, b := V1Source(legacy), V2Source(legacy, rows);
            k < |b.messages| && SameChild(a, a.messages[k], b, b.messages[k], parent)
  {
    hide Ids;
    var a, b := V1Source(legacy), V2Source(legacy, rows);
    LegacySlotsHold(legacy, rows);
    var m := legacy.messages[k];
    assert b.messages[k] == LegacySlot(m, Ids(rows));
    if m.data.role == AssistantMessage && m.data.parentID == parent {
      ShownParts(legacy, legacy.messages, Ids(rows), m);
      assert PartsOf(a, m.id) == PartsOf(b, m.id);
    }
    hide CollectAll;
  }

  /**
   Migrating to the second generation keeps every turn whose user row survives: the same block -
   id, sequence, text, tools, completion - whatever other rows were deleted and whatever native
   rows follow, under the same revert point.
   */
  lemma MigrationKeepsTurns(env: Env, session: Session, legacy: LegacyTables, rows: seq<NativeRow>, i: nat)
    requires DistinctIds(rows) && i < |legacy.messages|
    requires legacy.messages[i].data.role == UserMessage && legacy.messages[i].id in Ids(rows)
    ensures BlockAt(env, session, V2Source(legacy, rows), i) == BlockAt(env, session, V1Source(legacy), i)
  {
    var a, b := V1Source(legacy), V2Source(legacy, rows);
    var user := legacy.messages[i];
    assert user in legacy.messages;
    LegacySlotsHold(legacy, rows);
    forall k | 0 <= k < |legacy.messages|
      ensures k < |b.messages| && SameChild(a, a.messages[k], b, b.messages[k], user.id)
          && b.messages[k].id == a.messages[k].id
    {
      SameLegacyChild(legacy, rows, k, user.id);
      SlotAt(legacy, rows, k);
    }
    SlotAt(legacy, rows, i);
    ShownParts(legacy, legacy.messages, Ids(rows), user);
    assert user.id in LegacyIds(legacy.messages);
    hide AssistantOf, BlockAt, Ids;
    assert PartsOf(a, user.id) == PartsOf(b, user.id);
    SameBlock(env, session, a, b, i);
  }

  lemma SlotAt(legacy: LegacyTables, rows: seq<NativeRow>, k: nat)
    requires DistinctIds(rows) && k < |legacy.messages| && Migrated(legacy, Ids(rows)) == legacy
    ensures var b := V2Source(legacy, rows);
            k < |b.messages| && b.messages[k] == LegacySlot(legacy.messages[k], Ids(rows))
  {
    LegacySlotsHold(legacy, rows);
    hide Ids, LegacySlot;
    var b := V2Source(legacy, rows);
    assert b.messages[..|legacy.messages|][k] == b.messages[k];
  }

  // ---------------------------------------------------------------------------------------
  // An idle row closes a turn for good
  // ---------------------------------------------------------------------------------------

  /** Nothing that concerns `user` differs between `st` and the later `now`. */
  ghost predicate Frozen(st: Feed, now: Feed, user: string, known: set<string>) {
    && |st.result| <= |now.result| && now.parentID != user
    && (forall k | 0 <= k < |st.result| ::
          && now.result[k].id == st.result[k].id
          && now.result[k].data.role == st.result[k].data.role
              && now.result[k].data.parentID == st.result[k].data.parentID
          && (st.result[k].data.role != AssistantMessage || st.result[k].data.parentID == user
              ==> now.result[k] == st.result[k]))
    && (forall k | |st.result| <= k < |now.result| ::
        now.result[k].data.role == AssistantMessage ==> now.result[k].data.parentID != user)
    && (forall k | k in now.openAssistants && k < |now.result| ::
          now.result[k].data.role == AssistantMessage && now.result[k].data.parentID != user)
    && (forall id | id in known ::
        (id in now.parts <==> id in st.parts) && (id in st.parts ==> now.parts[id] == st.parts[id]))
  }

  lemma StepKeepsFrozen(legacyIds: set<string>, st: Feed, now: Feed, row: NativeRow, user: string, known: set<string>)
    requires Frozen(st, now, user, known) && row.id !in known && user in known && user != ""
    ensures Frozen(st, NativeStep(legacyIds, now, row), user, known)
  {
    hide PartsOfItems, Otherwise;
  }

  lemma {:induction false} RunKeepsFrozen(legacyIds: set<string>, st: Feed, more: seq<NativeRow>, user: string,
      known: set<string>)
    requires Frozen(st, st, user, known) && user in known && user != "" && forall r | r in more :: r.id !in known
    ensures Frozen(st, NativeRun(legacyIds, st, more), user, known)
  {
    hide Frozen, NativeStep;
    if more != [] {
      var front := more[..|more| - 1];
      assert more == front + [Last(more)];
      RunKeepsFrozen(legacyIds, st, front, user, known);
      StepKeepsFrozen(legacyIds, st, NativeRun(legacyIds, st, front), Last(more), user, known);
    }
  }

  lemma {:induction false} NativeRunAppend(legacyIds: set<string>, st: Feed, rows: seq<NativeRow>, more: seq<NativeRow>)
    ensures NativeRun(legacyIds, st, rows + more) == NativeRun(legacyIds, NativeRun(legacyIds, st, rows), more)
  {
    hide NativeStep;
    if more == [] {
      assert rows + more == rows;
    } else {
      NativeRunAppend(legacyIds, st, rows, more[..|more| - 1]);
      assert (rows + more)[..|rows + more| - 1] == rows + more[..|more| - 1];
    }
  }

  /** New rows have new ids, and legacy messages refer to legacy messages only. */
  ghost predicate Extends(legacy: LegacyTables, rows: seq<NativeRow>, more: seq<NativeRow>) {
    && DistinctIds(rows)
    && (forall r | r in more :: r.id !in Ids(rows) && r.id !in LegacyIds(legacy.messages))
    && (forall m | m in legacy.messages && Owner(m) in Ids(rows + more) :: Owner(m) in LegacyIds(legacy.messages))
  }

  lemma IdsAppend(rows: seq<NativeRow>, more: seq<NativeRow>)
    ensures Ids(rows + more) == Ids(rows) + Ids(more)
  {
  }

  lemma SameStart(legacy: LegacyTables, rows: seq<NativeRow>, more: seq<NativeRow>)
    requires Extends(legacy, rows, more)
    ensures Migrated(legacy, Ids(rows + more)) == Migrated(legacy, Ids(rows))
    ensures var shown := Migrated(legacy, Ids(rows));
            Start(shown, Ids(rows + more)) == Start(shown, Ids(rows))
  {
    IdsAppend(rows, more);
    assert forall r | r in more :: r.id !in LegacyIds(legacy.messages);
    assert forall m | m in legacy.messages :: m.id in LegacyIds(legacy.messages);
    forall m | m in legacy.messages
        ensures (m.id in Ids(rows + more) <==> m.id in Ids(rows))
        && (Owner(m) in Ids(rows + more) <==> Owner(m) in Ids(rows)) {
    }
    var shown := Migrated(legacy, Ids(rows));
    assert forall m | m in shown.messages :: m in legacy.messages;
    hide Ids, LegacyIds, Owner;
    SameShown(shown, shown.messages, Ids(rows), Ids(rows + more));
    forall i | 0 <= i < |shown.messages|
        ensures LegacySlot(shown.messages[i], Ids(rows + more)) == LegacySlot(shown.messages[i], Ids(rows)) {
      assert shown.messages[i] in shown.messages;
    }
  }

  lemma {:induction false} SameShown(legacy: LegacyTables, messages: seq<Message>, migrated: set<string>,
      migrated': set<string>)
    requires forall m | m in messages :: Owner(m) in migrated <==> Owner(m) in migrated'
    ensures LegacyPartsShown(legacy, messages, migrated) == LegacyPartsShown(legacy, messages, migrated')
  {
    if messages != [] {
      assert messages == messages[..|messages| - 1] + [Last(messages)];
      SameShown(legacy, messages[..|messages| - 1], migrated, migrated');
    }
  }

  predicate Complete(block: seq<RawMessage>) {
    block != [] && block[0].meta.state == Some(COMPLETE)
  }

  lemma {:induction false} AssistantsAreChildren(source: Source, messages: seq<Message>, parent: string)
    ensures forall a | a in AssistantsOf(source, messages, parent) ::
              exists m | m in messages :: ChildOf(source, m, parent) && m.data == a.data
  {
    hide AssistantOf, CollectAll;
    if messages != [] {
      var front := messages[..|messages| - 1];
      AssistantsAreChildren(source, front, parent);
      assert messages == front + [Last(messages)];
      assert forall m | m in front :: m in messages;
      ChildData(source, Last(messages), parent);
    }
  }

  lemma ChildData(source: Source, m: Message, parent: string)
    ensures ChildOf(source, m, parent)
        ==> AssistantOf(source, m).value.data == m.data && m.data.role == AssistantMessage && m.data.parentID == parent
  {
  }

  /** A complete turn has a last assistant, and that one is not pending. */
  lemma CompleteHasClosedAssistant(env: Env, session: Session, source: Source, i: nat) returns (last: Message)
    requires Complete(BlockAt(env, session, source, i))
    ensures i < |source.messages| && source.messages[i].data.role == UserMessage
    ensures last in source.messages && last.data.role == AssistantMessage && last.data.parentID == source.messages[i].id
    ensures last.data.parentID != "" && !last.data.nativeTurnPending
  {
    var messages := Visible(source.messages, session.revertMessageId);
    assert messages[i] == source.messages[i];
    var user, assistants := UserOf(source, messages[i], i), AssistantsOf(source, messages, messages[i].id);
    CompleteReason(env, session, user, assistants);
    AssistantsAreChildren(source, messages, messages[i].id);
    assert Last(assistants) in assistants;
    last :| last in messages && ChildOf(source, last, messages[i].id) && last.data == Last(assistants).data;
    ChildData(source, last, messages[i].id);
    assert last in source.messages;
  }

  lemma CompleteReason(env: Env, session: Session, user: OpencodeUser, assistants: seq<OpencodeAssistant>)
    requires Complete(UserBlock(env, session, user, assistants))
    ensures TurnReason(user, assistants) == "" && assistants != [] && !Last(assistants).data.nativeTurnPending
  {
    var messages := UserMessages(env, session, user, assistants);
    var input := StageInput(user.id, Some(user.ordinal), user.startedAt, TurnReason(user, assistants),
        TurnOf(env, session, user, assistants));
    assert StageSourceTurnMessages(messages, input)[0].meta.state
        == Some(if input.reason != "" then input.reason else COMPLETE);
  }

  ghost predicate NativePosition(legacy: LegacyTables, rows: seq<NativeRow>, i: nat) {
    |Migrated(legacy, Ids(rows)).messages| <= i
  }

  lemma SlotsBelongToLegacy(legacy: LegacyTables, rows: seq<NativeRow>, user: string)
    requires Extends(legacy, rows, []) && user in Ids(rows) - LegacyIds(Migrated(legacy, Ids(rows)).messages)
    ensures var st, n := V2State(legacy, rows), |Migrated(legacy, Ids(rows)).messages|;
            n <= |st.result| && forall k | 0 <= k < n ::
                st.result[k].data.role == AssistantMessage ==> st.result[k].data.parentID != user
  {
    var shown := Migrated(legacy, Ids(rows));
    var st, n := V2State(legacy, rows), |shown.messages|;
    LegacySlotsHold(legacy, rows);
    assert rows + [] == rows;
    forall k | 0 <= k < n ensures st.result[k].data.role == AssistantMessage ==> st.result[k].data.parentID != user {
      assert st.result[..n][k] == LegacySlot(shown.messages[k], Ids(rows));
      assert shown.messages[k] in shown.messages && shown.messages[k] in legacy.messages;
    }
  }

  /** The user of a complete native turn is no longer the one that rows would join. */
  lemma CompleteIsClosed(env: Env, session: Session, legacy: LegacyTables, rows: seq<NativeRow>, i: nat)
    requires Extends(legacy, rows, []) && NativePosition(legacy, rows, i)
    requires Complete(BlockAt(env, session, V2Source(legacy, rows), i))
    ensures var st := V2State(legacy, rows);
            var shown := Migrated(legacy, Ids(rows));
            && i < |st.result| && st.result[i].data.role == UserMessage && st.result[i].id != ""
                && st.result[i].id in Ids(rows)
            && st.parentID != st.result[i].id
            && IdleAfter(LegacyIds(shown.messages), rows, st.result[i].id)
  {
    hide BlockAt, IdleAfter, CurrentUser;
    var st := V2State(legacy, rows);
    var shown := Migrated(legacy, Ids(rows));
    var last := CompleteHasClosedAssistant(env, session, V2Source(legacy, rows), i);
    LegacySlotsHold(legacy, rows);
    var n := |shown.messages|;
    var k :| 0 <= k < |st.result| && st.result[k] == last;
    var user := st.result[i];
    assert user.id in Ids(rows) - LegacyIds(shown.messages);
    SlotsBelongToLegacy(legacy, rows, user.id);
    assert NativeMessage(LegacyIds(shown.messages), rows, st.parentID, st.openAssistants, k, last);
  }

  /**
   A native turn that is complete in a log is emitted unchanged from every extension of it, under
   the same revert point.
   */
  lemma CompleteTurnIsFrozen(env: Env, session: Session, legacy: LegacyTables, rows: seq<NativeRow>,
      more: seq<NativeRow>, i: nat)
    requires Extends(legacy, rows, more) && NativePosition(legacy, rows, i)
    requires Complete(BlockAt(env, session, V2Source(legacy, rows), i))
    ensures BlockAt(env, session, V2Source(legacy, rows + more), i) == BlockAt(env, session, V2Source(legacy, rows), i)
  {
    hide BlockAt, NativeStep, Inv, Frozen, IdleAfter, Start, LegacyIds, Owner;
    ExtendsNothing(legacy, rows, more);
    CompleteIsClosed(env, session, legacy, rows, i);
    SameStart(legacy, rows, more);
    var a, b := V2Source(legacy, rows), V2Source(legacy, rows + more);
    var shown := Migrated(legacy, Ids(rows));
    var legacyIds := LegacyIds(shown.messages);
    var st := V2State(legacy, rows);
    NativeRunAppend(legacyIds, Start(shown, Ids(rows)), rows, more);
    var now := NativeRun(legacyIds, st, more);
    assert b == Source(now.result, now.parts);
    var user := st.result[i].id;
    var known := Ids(rows) + LegacyIds(legacy.messages);
    LegacySlotsHold(legacy, rows);
    FrozenAtFirst(legacy, rows, user, known);
    RunKeepsFrozen(legacyIds, st, more, user, known);
    KnownIds(legacy, rows);
    FrozenBlock(env, session, st, now, known, i);
  }

  lemma ExtendsNothing(legacy: LegacyTables, rows: seq<NativeRow>, more: seq<NativeRow>)
    requires Extends(legacy, rows, more)
    ensures Extends(legacy, rows, [])
  {
  }

  lemma FrozenAtFirst(legacy: LegacyTables, rows: seq<NativeRow>, user: string, known: set<string>)
    requires DistinctIds(rows) && V2State(legacy, rows).parentID != user
    ensures Frozen(V2State(legacy, rows), V2State(legacy, rows), user, known)
  {
    LegacySlotsHold(legacy, rows);
    hide IdleAfter, Ids, LegacyIds, V2State;
  }

  lemma KnownIds(legacy: LegacyTables, rows: seq<NativeRow>)
    requires DistinctIds(rows)
    ensures forall k | 0 <= k < |V2State(legacy, rows).result| ::
        V2State(legacy, rows).result[k].id in Ids(rows) + LegacyIds(legacy.messages)
  {
    LegacySlotsHold(legacy, rows);
    var shown := Migrated(legacy, Ids(rows));
    var st, n := V2State(legacy, rows), |shown.messages|;
    forall k | 0 <= k < |st.result| ensures st.result[k].id in Ids(rows) + LegacyIds(legacy.messages) {
      if k < n {
        assert st.result[..n][k] == LegacySlot(shown.messages[k], Ids(rows));
        assert shown.messages[k] in legacy.messages;
      }
    }
  }

  lemma FrozenBlock(env: Env, session: Session, st: Feed, now: Feed, known: set<string>, i: nat)
    requires i < |st.result| && st.result[i].data.role == UserMessage
    requires Frozen(st, now, st.result[i].id, known)
    requires forall k | 0 <= k < |st.result| :: st.result[k].id in known
    ensures BlockAt(env, session, Source(now.result, now.parts), i)
        == BlockAt(env, session, Source(st.result, st.parts), i)
  {
    hide CollectAll, BlockAt;
    var a, b := Source(st.result, st.parts), Source(now.result, now.parts);
    var user := st.result[i].id;
    forall k | 0 <= k < |st.result| ensures SameChild(a, st.result[k], b, now.result[k], user) {
      assert st.result[k].id in known;
    }
    SameBlock(env, session, a, b, i);
  }

  /** Without an idle row after its user row a native turn is never complete. */
  lemma CompleteNeedsIdle(env: Env, session: Session, legacy: LegacyTables, rows: seq<NativeRow>, i: nat)
    requires Extends(legacy, rows, []) && NativePosition(legacy, rows, i)
    requires i < |V2Source(legacy, rows).messages|
    requires !IdleAfter(LegacyIds(Migrated(legacy, Ids(rows)).messages), rows, V2Source(legacy, rows).messages[i].id)
    ensures !Complete(BlockAt(env, session, V2Source(legacy, rows), i))
  {
    hide BlockAt, IdleAfter;
    if Complete(BlockAt(env, session, V2Source(legacy, rows), i)) {
      CompleteIsClosed(env, session, legacy, rows, i);
    }
  }

  /**
   After migration every legacy message keeps its place, so that ordinals stay; what the second
   generation deleted - a user message, or the answers to one - keeps nothing else and never comes back.
   */
  lemma DeletedHistoryStaysHidden(env: Env, session: Session, legacy: LegacyTables, rows: seq<NativeRow>, i: nat)
    requires DistinctIds(rows) && i < |legacy.messages| && exists m | m in legacy.messages :: m.id in Ids(rows)
    ensures var source := V2Source(legacy, rows);
            && i < |source.messages| && source.messages[i].id == legacy.messages[i].id
            && (Owner(legacy.messages[i]) in Ids(rows) ==> source.messages[i] == legacy.messages[i])
            && (Owner(legacy.messages[i]) !in Ids(rows) ==>
                  source.messages[i].data == NO_DATA && BlockAt(env, session, source, i) == []
                  && forall user :: !ChildOf(source, source.messages[i], user))
  {
    LegacySlotsHold(legacy, rows);
    var shown := Migrated(legacy, Ids(rows));
    assert shown == legacy;
    var source := V2Source(legacy, rows);
    assert source.messages[i] == LegacySlots(legacy.messages, Ids(rows))[i];
    hide V2State, Inv, Ids, CollectAll;
  }

  // ---------------------------------------------------------------------------------------
  // A complete turn
  // ---------------------------------------------------------------------------------------

  const ASKED: seq<NativeRow> := [NativeRow("u", UserRow(Some(1), "q"))]
  const ANSWERED: seq<NativeRow> :=
    ASKED + [NativeRow("a", AssistantRow(NO_DATA.(agent := "build", created := Some(2)), [PlainItem(TextPart("r"))]))]
  const IDLED: seq<NativeRow> := ANSWERED + [NativeRow("i", IdleRow("", Some(3)))]
  const NO_TABLES := LegacyTables([], map[])

  lemma NativeRunSnoc(legacyIds: set<string>, st: Feed, rows: seq<NativeRow>, row: NativeRow)
    ensures NativeRun(legacyIds, st, rows + [row]) == NativeStep(legacyIds, NativeRun(legacyIds, st, rows), row)
  {
  }

  const ANSWER_DATA := NO_DATA.(role := AssistantMessage, parentID := "u", agent := "build", created := Some(2),
      nativeTurnCompleted := true, completed := Some(3))
  const IDLED_SOURCE := Source([Message("u", USER_DATA.(created := Some(1))), Message("a", ANSWER_DATA)],
      map["u" := [TextPart("q")], "a" := [TextPart("r")]])

  /** What the adapter makes of a question, an answer and an idle row. */
  lemma IdledSource()
    ensures V2Source(NO_TABLES, IDLED) == IDLED_SOURCE
  {
    var start := Start(NO_TABLES, Ids(IDLED));
    NativeRunSnoc({}, start, [], ASKED[0]);
    NativeRunSnoc({}, start, ASKED, ANSWERED[1]);
    NativeRunSnoc({}, start, ANSWERED, IDLED[2]);
    assert [] + [ASKED[0]] == ASKED;
    assert LegacyIds([]) == {};
    var asked := NativeRun({}, start, ASKED);
    assert asked == Feed("u", "", [], [Message("u", USER_DATA.(created := Some(1)))], map["u" := [TextPart("q")]]);
    assert PartsOfItems([PlainItem(TextPart("r"))]) == [TextPart("r")];
  }

  const QUESTION := OpencodeUser("u", 0, "q", Some(1), false, "")
  const ANSWER := OpencodeAssistant("a", ANSWER_DATA, NOTHING.(text := "r"))

  lemma IdledTurn()
    ensures UserOf(IDLED_SOURCE, IDLED_SOURCE.messages[0], 0) == QUESTION
    ensures AssistantsOf(IDLED_SOURCE, IDLED_SOURCE.messages, "u") == [ANSWER]
  {
    var source := IDLED_SOURCE;
    var u, a := source.messages[0], source.messages[1];
    assert [TextPart("q")][..0] == [] && [TextPart("r")][..0] == [];
    assert CollectAll([TextPart("q")]) == NOTHING.(text := "q") && CollectAll([TextPart("r")]) == NOTHING.(text := "r");
    assert AssistantsOf(source, [], "u") == [];
    AssistantsSnoc(source, [], u, "u");
    AssistantsSnoc(source, [u], a, "u");
    assert [] + [u] == [u] && [u] + [a] == [u, a] == source.messages;
    assert UnwrapUserRequest("q") == "q";
  }

  lemma IdledReason()
    ensures TurnReason(QUESTION, [ANSWER]) == ""
  {
    assert !IsSpace('q') && !IsSpace('r') && 'q' in QUESTION.query;
    assert AllTexts([ANSWER]) == ["r"];
    assert NonEmpty(["r"]) == ["r"] + NonEmpty([]) == ["r"];
    assert 'r' in Join(NonEmpty(AllTexts([ANSWER])), "\n\n");
  }

  /** The idle row completes the turn. */
  lemma IdleCompletes(env: Env, session: Session)
    requires session.revertMessageId == ""
    ensures Extends(NO_TABLES, IDLED, []) && NativePosition(NO_TABLES, IDLED, 0)
    ensures Complete(BlockAt(env, session, V2Source(NO_TABLES, IDLED), 0))
  {
    hide V2Source, UserOf, AssistantsOf, TurnReason, TurnOf, UserMessages, StageSourceTurnMessages, Ids;
    IdledSource();
    IdledTurn();
    IdledReason();
    AskedFirst(env, session, QUESTION, [ANSWER]);
    FirstState(UserMessages(env, session, QUESTION, [ANSWER]),
        StageInput("u", Some(0), Some(1), "", TurnOf(env, session, QUESTION, [ANSWER])));
  }

  lemma AskedFirst(env: Env, session: Session, user: OpencodeUser, assistants: seq<OpencodeAssistant>)
    ensures UserMessages(env, session, user, assistants) != []
  {
  }

  lemma FirstState(messages: seq<RawMessage>, input: StageInput)
    requires messages != [] && input.reason == ""
    ensures Complete(StageSourceTurnMessages(messages, input))
  {
  }
}
