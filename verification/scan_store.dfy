/**
 The staged messages of one scan job (Memory/src/agent-source/scan-store.ts): staging, refreshing
 and counting. The table is a sequence of rows in the order they were inserted.
 */
module ScanStore {
  import opened Wrappers
  import opened SourceTurns

  datatype ConversationMessage = ConversationMessage(
    sourceId: string, conversationId: string, messageId: string,
    role: Role, content: string, createdAt: Time, meta: Meta)

  datatype StagedRow = StagedRow(message: ConversationMessage, ordinal: nat)

  datatype Key = Key(sourceId: string, conversationId: string, messageId: string)

  const MAX_RECORD_BYTES: nat := 64 * 1024 * 1024

  function KeyOf(m: ConversationMessage): Key {
    Key(m.sourceId, m.conversationId, m.messageId)
  }

  /** `hasStagedSourceTurn` */
  predicate HasStagedTurn(m: ConversationMessage) {
    m.meta.state.Some?
  }

  // ---------------------------------------------------------------------------------------
  // Specification
  // ---------------------------------------------------------------------------------------

  function Find(rows: seq<StagedRow>, key: Key): (i: nat)
    ensures i <= |rows|
    ensures i < |rows| ==> KeyOf(rows[i].message) == key
    ensures forall j | 0 <= j < i :: KeyOf(rows[j].message) != key
  {
    if rows == [] || KeyOf(rows[0].message) == key then 0 else 1 + Find(rows[1..], key)
  }

  /** A new key is inserted; a native turn's message replaces the one with its key, in place. */
  function StageOne(rows: seq<StagedRow>, next: nat, m: ConversationMessage): seq<StagedRow> {
    var i := Find(rows, KeyOf(m));
    if i == |rows| then rows + [StagedRow(m, next)]
    else if HasStagedTurn(m) then rows[i := StagedRow(m, rows[i].ordinal)]
    else rows
  }

  /** Every message takes an ordinal, inserted or not. */
  function StageAll(rows: seq<StagedRow>, next: nat, messages: seq<ConversationMessage>): seq<StagedRow> {
    if messages == [] then rows
    else StageOne(StageAll(rows, next, messages[..|messages| - 1]), next + |messages| - 1, Last(messages))
  }

  /** `SELECT ... WHERE source_id = ?` */
  function View(rows: seq<StagedRow>, sourceId: string): seq<StagedRow> {
    if rows == [] then []
    else View(rows[..|rows| - 1], sourceId) + if Last(rows).message.sourceId == sourceId then [Last(rows)] else []
  }

  ghost predicate Wellformed(rows: seq<StagedRow>, next: nat) {
    && (forall i, j | 0 <= i < j < |rows| ::
        KeyOf(rows[i].message) != KeyOf(rows[j].message) && rows[i].ordinal < rows[j].ordinal)
    && (forall i | 0 <= i < |rows| :: rows[i].ordinal < next)
  }

  lemma StageOneKeepsWellformed(rows: seq<StagedRow>, next: nat, m: ConversationMessage)
    requires Wellformed(rows, next)
    ensures Wellformed(StageOne(rows, next, m), next + 1)
  {
  }

  lemma {:induction false} StageAllKeepsWellformed(rows: seq<StagedRow>, next: nat, messages: seq<ConversationMessage>)
    requires Wellformed(rows, next)
    ensures Wellformed(StageAll(rows, next, messages), next + |messages|)
  {
    hide Wellformed, StageOne;
    if messages != [] {
      StageAllKeepsWellformed(rows, next, messages[..|messages| - 1]);
      StageOneKeepsWellformed(StageAll(rows, next, messages[..|messages| - 1]), next + |messages| - 1, Last(messages));
    }
  }

  // ---------------------------------------------------------------------------------------
  // Views
  // ---------------------------------------------------------------------------------------

  lemma ViewSnoc(rows: seq<StagedRow>, row: StagedRow, sourceId: string)
    ensures View(rows + [row], sourceId) == View(rows, sourceId)
        + if row.message.sourceId == sourceId then [row] else []
  {
  }

  lemma {:induction false} ViewMembers(rows: seq<StagedRow>, sourceId: string)
    ensures forall row :: row in View(rows, sourceId) <==> row in rows && row.message.sourceId == sourceId
  {
    if rows != [] {
      ViewMembers(rows[..|rows| - 1], sourceId);
      assert rows == rows[..|rows| - 1] + [Last(rows)];
    }
  }

  lemma {:induction false} ViewWellformed(rows: seq<StagedRow>, next: nat, sourceId: string)
    requires Wellformed(rows, next)
    ensures Wellformed(View(rows, sourceId), next)
  {
    hide Wellformed;
    if rows != [] {
      var front := rows[..|rows| - 1];
      WellformedSplit(rows, next);
      ViewWellformed(front, next, sourceId);
      ViewMembers(front, sourceId);
      WellformedSnoc(View(front, sourceId), next, Last(rows));
    } else {
      NoRowsWellformed(next);
    }
  }

  lemma NoRowsWellformed(next: nat)
    ensures Wellformed([], next)
  {
  }

  lemma WellformedSplit(rows: seq<StagedRow>, next: nat)
    requires rows != [] && Wellformed(rows, next)
    ensures Wellformed(rows[..|rows| - 1], next) && Last(rows).ordinal < next
    ensures forall r | r in rows[..|rows| - 1] ::
        KeyOf(r.message) != KeyOf(Last(rows).message) && r.ordinal < Last(rows).ordinal
  {
  }

  lemma WellformedSnoc(rows: seq<StagedRow>, next: nat, row: StagedRow)
    requires Wellformed(rows, next) && row.ordinal < next
    requires forall r | r in rows :: KeyOf(r.message) != KeyOf(row.message) && r.ordinal < row.ordinal
    ensures Wellformed(rows + [row], next) && rows + [] == rows
  {
  }

  lemma {:induction false} ViewAppend(rows: seq<StagedRow>, more: seq<StagedRow>, sourceId: string)
    ensures View(rows + more, sourceId) == View(rows, sourceId) + View(more, sourceId)
  {
    if more == [] {
      assert rows + more == rows;
    } else {
      var front := more[..|more| - 1];
      ViewAppend(rows, front, sourceId);
      ViewSnoc(rows + front, Last(more), sourceId);
      assert rows + more == rows + front + [Last(more)];
    }
  }

  lemma ViewSplit(rows: seq<StagedRow>, i: nat, row: StagedRow, sourceId: string)
    requires i < |rows|
    ensures View(rows[i := row], sourceId)
            == View(rows[..i], sourceId) + (if row.message.sourceId == sourceId then [row] else [])
                + View(rows[i + 1..], sourceId)
  {
    assert rows[i := row] == rows[..i] + [row] + rows[i + 1..];
    ViewAppend(rows[..i] + [row], rows[i + 1..], sourceId);
    ViewSnoc(rows[..i], row, sourceId);
  }

  /** Replacing a row in place replaces it in its source's view, and no other view changes. */
  lemma ViewReplace(rows: seq<StagedRow>, i: nat, row: StagedRow, sourceId: string)
    requires i < |rows| && row.message.sourceId == rows[i].message.sourceId
    ensures var at := |View(rows[..i], sourceId)|;
            if row.message.sourceId == sourceId
            then at < |View(rows, sourceId)| && View(rows, sourceId)[at] == rows[i]
                && View(rows[i := row], sourceId) == View(rows, sourceId)[at := row]
            else View(rows[i := row], sourceId) == View(rows, sourceId)
  {
    ViewSplit(rows, i, row, sourceId);
    ViewSplit(rows, i, rows[i], sourceId);
    assert rows[i := rows[i]] == rows;
  }

  lemma FindUnique(rows: seq<StagedRow>, key: Key, i: nat)
    requires i < |rows| && KeyOf(rows[i].message) == key
    requires forall a, b | 0 <= a < b < |rows| :: KeyOf(rows[a].message) != KeyOf(rows[b].message)
    ensures Find(rows, key) == i
  {
  }

  /** Staging a message is staging it in its own source's view. */
  lemma ViewStageOne(rows: seq<StagedRow>, next: nat, m: ConversationMessage, sourceId: string)
    requires Wellformed(rows, next)
    ensures View(StageOne(rows, next, m), sourceId)
            == if m.sourceId == sourceId then StageOne(View(rows, sourceId), next, m) else View(rows, sourceId)
  {
    var i := Find(rows, KeyOf(m));
    ViewMembers(rows, sourceId);
    if i == |rows| {
      ViewSnoc(rows, StagedRow(m, next), sourceId);
      var seen := View(rows, sourceId);
      var k := Find(seen, KeyOf(m));
      assert forall r | r in seen :: r in rows && KeyOf(r.message) != KeyOf(m);
      assert k == |seen|;
    } else {
      ViewReplace(rows, i, StagedRow(m, rows[i].ordinal), sourceId);
      if m.sourceId == sourceId {
        ViewWellformed(rows, next, sourceId);
        FindUnique(View(rows, sourceId), KeyOf(m), |View(rows[..i], sourceId)|);
      }
    }
  }

  // ---------------------------------------------------------------------------------------
  // The store
  // ---------------------------------------------------------------------------------------

  function CountOf(counts: map<string, nat>, sourceId: string): nat {
    if sourceId in counts then counts[sourceId] else 0
  }

  ghost predicate CountsRows(counts: map<string, nat>, rows: seq<StagedRow>) {
    forall sourceId :: CountOf(counts, sourceId) == |View(rows, sourceId)|
  }

  lemma CountOneMore(counts: map<string, nat>, rows: seq<StagedRow>, row: StagedRow)
    requires CountsRows(counts, rows)
    ensures CountsRows(counts[row.message.sourceId := CountOf(counts, row.message.sourceId) + 1], rows + [row])
  {
    forall sourceId ensures View(rows + [row], sourceId) == View(rows, sourceId)
        + if row.message.sourceId == sourceId then [row] else [] {
      ViewSnoc(rows, row, sourceId);
    }
  }

  lemma CountSame(counts: map<string, nat>, rows: seq<StagedRow>, next: nat, m: ConversationMessage)
    requires CountsRows(counts, rows) && Find(rows, KeyOf(m)) < |rows|
    ensures CountsRows(counts, StageOne(rows, next, m))
  {
    hide View, Find;
    var i := Find(rows, KeyOf(m));
    var row := StagedRow(m, rows[i].ordinal);
    forall sourceId ensures |View(rows[i := row], sourceId)| == |View(rows, sourceId)| {
      ViewReplace(rows, i, row, sourceId);
    }
  }

  method CountBySource(rows: seq<StagedRow>) returns (counts: map<string, nat>)
    ensures CountsRows(counts, rows)
  {
    counts := map[];
    for i := 0 to |rows|
      invariant CountsRows(counts, rows[..i])
    {
      CountOneMore(counts, rows[..i], rows[i]);
      assert rows[..i + 1] == rows[..i] + [rows[i]];
      counts := counts[rows[i].message.sourceId := CountOf(counts, rows[i].message.sourceId) + 1];
    }
    assert rows[..|rows|] == rows;
  }

  /** `MAX(ordinal) + 1` */
  function NextOrdinal(rows: seq<StagedRow>): nat {
    if rows == [] then 0
    else
      var front, last := NextOrdinal(rows[..|rows| - 1]), Last(rows).ordinal + 1;
      if front < last then last else front
  }

  lemma {:induction false} NextOrdinalIsFree(rows: seq<StagedRow>)
    ensures forall row | row in rows :: row.ordinal < NextOrdinal(rows)
  {
    if rows != [] {
      NextOrdinalIsFree(rows[..|rows| - 1]);
      assert rows == rows[..|rows| - 1] + [Last(rows)];
    }
  }

  /** One scan owns the table; `size` is the byte length of a message's JSON text. */
  class Store {
    const size: ConversationMessage -> nat
    var rows: seq<StagedRow>
    var ordinal: nat
    var messageCounts: Option<map<string, nat>>

    ghost predicate Valid()
      reads this
    {
      Wellformed(rows, ordinal) && (messageCounts.Some? ==> CountsRows(messageCounts.value, rows))
    }

    predicate Fits(m: ConversationMessage) {
      size(m) <= MAX_RECORD_BYTES
    }

    constructor Open(size: ConversationMessage -> nat, rows: seq<StagedRow>)
      requires Wellformed(rows, NextOrdinal(rows))
      ensures Valid() && this.size == size && this.rows == rows && ordinal == NextOrdinal(rows)
    {
      this.size := size;
      this.rows := rows;
      ordinal := NextOrdinal(rows);
      messageCounts := None;
    }

    /** `None` when the record is too large. */
    method Stage(m: ConversationMessage) returns (inserted: Option<bool>)
      requires Valid()
      modifies `rows, `ordinal, `messageCounts
      ensures Valid()
      ensures inserted.Some? <==> Fits(m)
      ensures inserted.None? ==> rows == old(rows) && ordinal == old(ordinal)
      ensures inserted.Some? ==> rows == StageOne(old(rows), old(ordinal), m) && ordinal == old(ordinal) + 1
      ensures inserted.Some? ==> |rows| == |old(rows)| + if inserted.value then 1 else 0
    {
      hide CountsRows, Wellformed;
      if !Fits(m) { return None; }
      StageOneKeepsWellformed(rows, ordinal, m);
      var i := Find(rows, KeyOf(m));
      var isNew := i == |rows|;
      if isNew {
        var row := StagedRow(m, ordinal);
        if messageCounts.Some? {
          CountOneMore(messageCounts.value, rows, row);
          messageCounts := Some(messageCounts.value[m.sourceId := CountOf(messageCounts.value, m.sourceId) + 1]);
        }
        rows := rows + [row];
      } else {
        if messageCounts.Some? {
          CountSame(messageCounts.value, rows, ordinal, m);
        }
        if HasStagedTurn(m) {
          rows := rows[i := StagedRow(m, rows[i].ordinal)];
        }
      }
      ordinal := ordinal + 1;
      return Some(isNew);
    }

    /** A transaction: either every message is staged, or none and the cached counts are dropped. */
    method StageBatch(messages: seq<ConversationMessage>) returns (staged: Option<nat>)
      requires Valid()
      modifies `rows, `ordinal, `messageCounts
      ensures Valid()
      ensures staged.Some? <==> forall m | m in messages :: Fits(m)
      ensures staged.Some?
          ==> rows == StageAll(old(rows), old(ordinal), messages) && ordinal == old(ordinal) + |messages|
      ensures staged.Some? ==> |rows| == |old(rows)| + staged.value
      ensures staged.None? ==> rows == old(rows) && ordinal >= old(ordinal) && messageCounts.None?
    {
      hide StageOne, CountsRows;
      var before, first := rows, ordinal;
      var count := 0;
      for i := 0 to |messages|
        invariant Valid() && ordinal == first + i
        invariant forall m | m in messages[..i] :: Fits(m)
        invariant rows == StageAll(before, first, messages[..i]) && |rows| == |before| + count
      {
        assert messages[..i + 1][..i] == messages[..i] && messages[..i + 1] == messages[..i] + [messages[i]];
        var inserted := Stage(messages[i]);
        if inserted.None? {
          rows := before;
          messageCounts := None;
          return None;
        }
        if inserted.value { count := count + 1; }
      }
      assert messages[..|messages|] == messages;
      return Some(count);
    }

    method Count(sourceId: string) returns (count: nat)
      requires Valid()
      modifies `messageCounts
      ensures Valid() && count == |View(rows, sourceId)|
    {
      if messageCounts.None? {
        var counts := CountBySource(rows);
        messageCounts := Some(counts);
      }
      count := CountOf(messageCounts.value, sourceId);
    }
  }

  // ---------------------------------------------------------------------------------------
  // Staging survives interruption
  // ---------------------------------------------------------------------------------------

  /** A row never moves: its key and its ordinal stay what they were. */
  lemma {:induction false} StagingKeepsPlaces(rows: seq<StagedRow>, next: nat, messages: seq<ConversationMessage>)
    ensures var staged := StageAll(rows, next, messages);
            |rows| <= |staged|
            && forall i | 0 <= i < |rows| ::
                staged[i].ordinal == rows[i].ordinal && KeyOf(staged[i].message) == KeyOf(rows[i].message)
  {
    if messages != [] {
      StagingKeepsPlaces(rows, next, messages[..|messages| - 1]);
    }
  }

  /** What a source can see of a job: its native stream is read from the start, again and again. */
  datatype Event =
    | Batch(n: nat)                              // the next messages of the pass are committed
    | RolledBack(taken: nat)                     // a batch fails after taking ordinals; the pass ends
    | Restarted                                  // the pass ends; the stream will be read again
    | Reopened                                   // a new process opens the table
    | OtherSource(messages: seq<ConversationMessage>)

  /** `at` messages of the stream were staged by this pass, `reached` by some pass. */
  datatype World = World(rows: seq<StagedRow>, next: nat, at: nat, reached: nat)

  function Take(stream: seq<ConversationMessage>, from: nat, n: nat): seq<ConversationMessage> {
    if |stream| <= from then [] else if |stream| <= from + n then stream[from..] else stream[from..from + n]
  }

  function Happen(stream: seq<ConversationMessage>, w: World, event: Event): World {
    match event
    case Batch(n) =>
      var batch := Take(stream, w.at, n);
      var at := w.at + |batch|;
      World(StageAll(w.rows, w.next, batch), w.next + |batch|, at, if w.reached < at then at else w.reached)
    case RolledBack(taken) => w.(next := w.next + taken, at := 0)
    case Restarted => w.(at := 0)
    case Reopened => w.(next := NextOrdinal(w.rows), at := 0)
    case OtherSource(messages) => w.(rows := StageAll(w.rows, w.next, messages), next := w.next + |messages|)
  }

  function RunEvents(stream: seq<ConversationMessage>, events: seq<Event>): World {
    if events == [] then World([], 0, 0, 0) else Happen(stream, RunEvents(stream, events[..|events| - 1]), Last(events))
  }

  predicate Appears(messages: seq<ConversationMessage>, key: Key) {
    exists m | m in messages :: KeyOf(m) == key
  }

  predicate Refreshed(messages: seq<ConversationMessage>, key: Key) {
    exists m | m in messages :: KeyOf(m) == key && HasStagedTurn(m)
  }

  /** The keys of a stream, each where it first appears. */
  function FirstKeys(messages: seq<ConversationMessage>): seq<Key> {
    if messages == [] then []
    else
      var keys := FirstKeys(messages[..|messages| - 1]);
      if KeyOf(Last(messages)) in keys then keys else keys + [KeyOf(Last(messages))]
  }

  /** The last native message with a key, or else the first message with it. */
  function Content(messages: seq<ConversationMessage>, key: Key): Option<ConversationMessage> {
    if messages == [] then None
    else
      var content := Content(messages[..|messages| - 1], key);
      if KeyOf(Last(messages)) == key && (content.None? || HasStagedTurn(Last(messages))) then Some(Last(messages))
          else content
  }

  function Keys(rows: seq<StagedRow>): seq<Key> {
    seq(|rows|, i requires 0 <= i < |rows| => KeyOf(rows[i].message))
  }

  function Messages(rows: seq<StagedRow>): seq<ConversationMessage> {
    seq(|rows|, i requires 0 <= i < |rows| => rows[i].message)
  }

  lemma {:induction false} AppearsSomewhere(messages: seq<ConversationMessage>, key: Key)
    ensures key in FirstKeys(messages) <==> Appears(messages, key)
    ensures Content(messages, key).Some? <==> Appears(messages, key)
    ensures Refreshed(messages, key) ==> Appears(messages, key)
    ensures Content(messages, key).Some? ==> KeyOf(Content(messages, key).value) == key
  {
    if messages != [] {
      var front := messages[..|messages| - 1];
      AppearsSomewhere(front, key);
      assert messages == front + [Last(messages)];
      assert forall m :: m in messages <==> m in front || m == Last(messages);
    }
  }

  ghost predicate RowAgrees(stream: seq<ConversationMessage>, at: nat, reached: nat, m: ConversationMessage)
    requires at <= reached <= |stream|
  {
    && (Refreshed(stream[..at], KeyOf(m)) ==> Content(stream[..at], KeyOf(m)) == Some(m))
    && (!Refreshed(stream[..reached], KeyOf(m)) ==> Content(stream[..reached], KeyOf(m)) == Some(m))
  }

  /** The source's rows are those of the part of the stream that some pass has staged. */
  ghost predicate Agrees(stream: seq<ConversationMessage>, at: nat, reached: nat, rows: seq<StagedRow>) {
    && at <= reached <= |stream|
    && Keys(rows) == FirstKeys(stream[..reached])
    && forall i | 0 <= i < |rows| :: RowAgrees(stream, at, reached, rows[i].message)
  }

  lemma ExtendPrefix(stream: seq<ConversationMessage>, n: nat, key: Key)
    requires n < |stream|
    ensures var m := stream[n];
            && (Refreshed(stream[..n + 1], key)
                <==> Refreshed(stream[..n], key) || (KeyOf(m) == key && HasStagedTurn(m)))
            && Content(stream[..n + 1], key)
               == (if KeyOf(m) == key && (Content(stream[..n], key).None? || HasStagedTurn(m)) then Some(m)
                   else Content(stream[..n], key))
            && FirstKeys(stream[..n + 1])
               == (if KeyOf(m) in FirstKeys(stream[..n]) then FirstKeys(stream[..n])
                   else FirstKeys(stream[..n]) + [KeyOf(m)])
  {
    assert stream[..n + 1][..n] == stream[..n];
    assert stream[..n + 1] == stream[..n] + [stream[n]];
  }

  lemma FindByKeys(rows: seq<StagedRow>, key: Key)
    ensures Find(rows, key) < |rows| <==> key in Keys(rows)
  {
    assert forall j | 0 <= j < |rows| :: Keys(rows)[j] == KeyOf(rows[j].message);
    if key in Keys(rows) {
      var i :| 0 <= i < |rows| && Keys(rows)[i] == key;
      assert Find(rows, key) <= i;
    }
  }

  /** A row that staging leaves alone, or writes, agrees one message further. */
  lemma RowAgreesNext(stream: seq<ConversationMessage>, at: nat, reached: nat, m: ConversationMessage)
    requires at < |stream| && at <= reached <= |stream|
    requires RowAgrees(stream, at, reached, m) && Appears(stream[..reached], KeyOf(m))
    requires KeyOf(m) == KeyOf(stream[at]) ==> !HasStagedTurn(stream[at])
    ensures RowAgrees(stream, at + 1, if reached < at + 1 then at + 1 else reached, m)
  {
    hide FirstKeys, Content, Refreshed, Appears;
    ExtendPrefix(stream, at, KeyOf(m));
    AppearsSomewhere(stream[..at], KeyOf(m));
    AppearsSomewhere(stream[..reached], KeyOf(m));
  }

  lemma RowAgreesWritten(stream: seq<ConversationMessage>, at: nat, reached: nat)
    requires at < |stream| && at <= reached <= |stream|
    requires HasStagedTurn(stream[at]) || !Appears(stream[..reached], KeyOf(stream[at]))
    ensures RowAgrees(stream, at + 1, if reached < at + 1 then at + 1 else reached, stream[at])
  {
    var m := stream[at];
    ExtendPrefix(stream, at, KeyOf(m));
    AppearsSomewhere(stream[..at], KeyOf(m));
    if at < reached {
      assert stream[..reached][at] == m;
    }
  }

  lemma AgreesNext(stream: seq<ConversationMessage>, at: nat, reached: nat, rows: seq<StagedRow>, next: nat)
    requires Agrees(stream, at, reached, rows) && at < |stream| && Wellformed(rows, next)
    ensures Agrees(stream, at + 1, if reached < at + 1 then at + 1 else reached, StageOne(rows, next, stream[at]))
  {
    hide FirstKeys, Content, Refreshed, Appears, Find, RowAgrees;
    var m, key := stream[at], KeyOf(stream[at]);
    var reached' := if reached < at + 1 then at + 1 else reached;
    var i := Find(rows, key);
    var rows' := StageOne(rows, next, m);
    FindByKeys(rows, key);
    AppearsSomewhere(stream[..reached], key);
    if at < reached {
      AppearsAt(stream[..reached], at);
    } else {
      ExtendPrefix(stream, at, key);
    }
    forall j | 0 <= j < |rows'| ensures RowAgrees(stream, at + 1, reached', rows'[j].message) {
      if rows'[j].message == m && (HasStagedTurn(m) || i == |rows|) {
        RowAgreesWritten(stream, at, reached);
      } else {
        assert Keys(rows)[j] == KeyOf(rows[j].message);
        AppearsSomewhere(stream[..reached], KeyOf(rows[j].message));
        RowAgreesNext(stream, at, reached, rows[j].message);
      }
    }
    assert i < |rows| ==> Keys(rows') == Keys(rows);
    assert i == |rows| ==> Keys(rows') == Keys(rows) + [key];
  }

  lemma AppearsAt(messages: seq<ConversationMessage>, i: nat)
    requires i < |messages|
    ensures Appears(messages, KeyOf(messages[i]))
  {
  }

  lemma {:induction false} ViewStageAll(rows: seq<StagedRow>, next: nat, messages: seq<ConversationMessage>,
      sourceId: string)
    requires Wellformed(rows, next)
    ensures (forall m | m in messages :: m.sourceId == sourceId) ==>
              View(StageAll(rows, next, messages), sourceId) == StageAll(View(rows, sourceId), next, messages)
    ensures (forall m | m in messages :: m.sourceId != sourceId) ==>
              View(StageAll(rows, next, messages), sourceId) == View(rows, sourceId)
  {
    hide StageOne, View, Wellformed;
    if messages != [] {
      var front := messages[..|messages| - 1];
      assert messages == front + [Last(messages)];
      assert forall m | m in front :: m in messages;
      ViewStageAll(rows, next, front, sourceId);
      StageAllKeepsWellformed(rows, next, front);
      ViewStageOne(StageAll(rows, next, front), next + |front|, Last(messages), sourceId);
    }
  }

  lemma {:induction false} AgreesBatch(stream: seq<ConversationMessage>, at: nat, n: nat, reached: nat,
      rows: seq<StagedRow>, next: nat)
    requires Agrees(stream, at, reached, rows) && at + n <= |stream| && Wellformed(rows, next)
    ensures Agrees(stream, at + n, if reached < at + n then at + n
        else reached, StageAll(rows, next, stream[at..at + n]))
  {
    hide StageOne, Agrees, Wellformed;
    var batch := stream[at..at + n];
    if n > 0 {
      AgreesBatch(stream, at, n - 1, reached, rows, next);
      assert batch[..n - 1] == stream[at..at + n - 1];
      StageAllKeepsWellformed(rows, next, batch[..n - 1]);
      AgreesNext(stream, at + n - 1, if reached < at + n - 1 then at + n - 1
          else reached, StageAll(rows, next, batch[..n - 1]), next + n - 1);
    } else {
      AgreesBounds(stream, at, reached, rows);
    }
  }

  lemma AgreesBounds(stream: seq<ConversationMessage>, at: nat, reached: nat, rows: seq<StagedRow>)
    requires Agrees(stream, at, reached, rows)
    ensures at <= reached <= |stream|
    ensures Agrees(stream, 0, reached, rows)
  {
  }

  ghost predicate FromSource(stream: seq<ConversationMessage>, events: seq<Event>, sourceId: string) {
    && (forall m | m in stream :: m.sourceId == sourceId)
    && (forall e | e in events && e.OtherSource? :: forall m | m in e.messages :: m.sourceId != sourceId)
  }

  /** Throughout any run the source's rows are those of the longest prefix that was ever staged. */
  lemma {:induction false} RunAgrees(stream: seq<ConversationMessage>, events: seq<Event>, sourceId: string)
    requires FromSource(stream, events, sourceId)
    ensures var w := RunEvents(stream, events);
            Wellformed(w.rows, w.next) && Agrees(stream, w.at, w.reached, View(w.rows, sourceId))
  {
    if events == [] {
    } else {
      hide View, Agrees, Wellformed, StageAll, NextOrdinal;
      var front, event := events[..|events| - 1], Last(events);
      assert events == front + [event];
      assert forall e | e in front :: e in events;
      RunAgrees(stream, front, sourceId);
      EventAgrees(stream, RunEvents(stream, front), event, sourceId);
    }
  }

  lemma EventAgrees(stream: seq<ConversationMessage>, w: World, event: Event, sourceId: string)
    requires FromSource(stream, [event], sourceId)
    requires Wellformed(w.rows, w.next) && Agrees(stream, w.at, w.reached, View(w.rows, sourceId))
    ensures var now := Happen(stream, w, event);
            Wellformed(now.rows, now.next) && Agrees(stream, now.at, now.reached, View(now.rows, sourceId))
  {
    hide View, Agrees, StageAll, NextOrdinal;
    AgreesBounds(stream, w.at, w.reached, View(w.rows, sourceId));
    assert event in [event];
    match event {
      case Batch(n) =>
        var batch := Take(stream, w.at, n);
        assert stream[w.at..] == stream[w.at..|stream|];
        StageAllKeepsWellformed(w.rows, w.next, batch);
        ViewStageAll(w.rows, w.next, batch, sourceId);
        ViewWellformed(w.rows, w.next, sourceId);
        AgreesBatch(stream, w.at, |batch|, w.reached, View(w.rows, sourceId), w.next);
      case OtherSource(messages) =>
        StageAllKeepsWellformed(w.rows, w.next, messages);
        ViewStageAll(w.rows, w.next, messages, sourceId);
      case Reopened => NextOrdinalIsFree(w.rows);
      case _ =>
    }
  }

  lemma AgreesDetermines(stream: seq<ConversationMessage>, a: seq<StagedRow>, b: seq<StagedRow>)
    requires Agrees(stream, |stream|, |stream|, a) && Agrees(stream, |stream|, |stream|, b)
    ensures Messages(a) == Messages(b)
    ensures forall i | 0 <= i < |a| :: Content(stream, KeyOf(a[i].message)) == Some(a[i].message)
  {
  }

  /**
   Staging survives interruption: however passes were cut short, batches rolled back, the table
   reopened and other sources staged, once a pass has read the whole stream the source's rows hold
   the same messages, in the same order, as after one undisturbed pass.
   */
  lemma StagingSurvivesInterruption(stream: seq<ConversationMessage>, events: seq<Event>, sourceId: string)
    requires FromSource(stream, events, sourceId)
    requires RunEvents(stream, events).at == |stream|
    ensures var rows := View(RunEvents(stream, events).rows, sourceId);
            && Messages(rows) == Messages(StageAll([], 0, stream))
            && forall i | 0 <= i < |rows| :: Content(stream, KeyOf(rows[i].message)) == Some(rows[i].message)
  {
    hide View, Agrees, Wellformed, StageAll, RunEvents;
    var w := RunEvents(stream, events);
    RunAgrees(stream, events, sourceId);
    AgreesBounds(stream, w.at, w.reached, View(w.rows, sourceId));
    NothingAgrees(stream);
    AgreesBatch(stream, 0, |stream|, 0, [], 0);
    assert stream[0..0 + |stream|] == stream;
    AgreesDetermines(stream, View(w.rows, sourceId), StageAll([], 0, stream));
  }

  lemma NothingAgrees(stream: seq<ConversationMessage>)
    ensures Agrees(stream, 0, 0, []) && Wellformed([], 0)
  {
  }

  /** At any moment the keys are those of a prefix, by first appearance, with ordinals in that order. */
  lemma OrdinalsFollowFirstAppearance(stream: seq<ConversationMessage>, events: seq<Event>, sourceId: string)
    requires FromSource(stream, events, sourceId)
    ensures var w := RunEvents(stream, events);
            var rows := View(w.rows, sourceId);
            && w.at <= w.reached <= |stream| && Keys(rows) == FirstKeys(stream[..w.reached])
            && forall i, j | 0 <= i < j < |rows| :: rows[i].ordinal < rows[j].ordinal < w.next
  {
    hide View, StageAll, RunEvents, FirstKeys;
    RunAgrees(stream, events, sourceId);
    var w := RunEvents(stream, events);
    ViewWellformed(w.rows, w.next, sourceId);
  }
}
