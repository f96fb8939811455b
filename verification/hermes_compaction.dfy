/**
 What happens to a Hermes session while it is being read: rows are appended, stretches are
 compacted - archived, replayed under new ids, summarised - and turns are taken back. Compaction
 never shows in what the reader stages.
 */
module HermesCompaction {
  import opened Wrappers
  import opened SourceTurns
  import opened Text
  import opened HermesSourceTurn

  datatype Change =
    | Append(entry: Entry)
    | Compact(archived: set<int>, added: seq<Entry>)
    | Undo(user: int, others: set<int>)

  function Deactivated(row: HermesRow, ids: set<int>, compacting: bool): HermesRow {
    if row.entry.id in ids && row.active == Some(1)
        then row.(active := Some(0), compacted := row.compacted || compacting) else row
  }

  function Deactivate(rows: seq<HermesRow>, ids: set<int>, compacting: bool): (after: seq<HermesRow>)
    ensures |after| == |rows|
  {
    seq(|rows|, i requires 0 <= i < |rows| => Deactivated(rows[i], ids, compacting))
  }

  function Fresh(added: seq<Entry>): (rows: seq<HermesRow>)
    ensures |rows| == |added|
  {
    seq(|added|, i requires 0 <= i < |added| => HermesRow(added[i], Some(1), false))
  }

  function Apply(rows: seq<HermesRow>, change: Change): seq<HermesRow> {
    match change
    case Append(entry) => rows + Fresh([entry])
    case Compact(archived, added) => Deactivate(rows, archived, true) + Fresh(added)
    case Undo(user, others) => Deactivate(rows, others + {user}, false)
  }

  /** A user row that is active and was never compacted, so that no other row is a copy of it. */
  ghost predicate Uncompacted(rows: seq<HermesRow>, row: HermesRow) {
    && row in rows && row.entry.role == UserRow && row.active == Some(1) && !row.compacted
    && forall r | r in rows && RowIdentity(r.entry) == RowIdentity(row.entry) :: r == row
  }

  ghost predicate Legal(rows: seq<HermesRow>, change: Change) {
    match change
    case Append(entry) => Ordered(rows + Fresh([entry])) && !Known(rows, entry)
    case Compact(_, added) =>
      && Ordered(rows + Fresh(added))
      && forall e | e in added :: if Known(rows, e) then HasActiveCopy(rows, e) else IsCompressedSummary(e)
    case Undo(user, others) =>
      && (exists row :: Uncompacted(rows, row) && row.entry.id == user)
      && forall r | r in rows && r.entry.id in others :: r.entry.role != UserRow
  }

  /** A user row that was taken back has no active copy. */
  ghost predicate Inv(rows: seq<HermesRow>) {
    && Ordered(rows)
    && forall r | r in rows && r.entry.role == UserRow && r.active == Some(0) && !r.compacted ::
        !HasActiveCopy(rows, r.entry)
  }

  /** The same changes on the conversation itself, where compaction is nothing. */
  function Converse(seen: seq<Seen>, change: Change): seq<Seen> {
    match change
    case Append(entry) => seen + if IsCompressedSummary(entry) then [] else [Seen(entry, false)]
    case Compact(_, _) => seen
    case Undo(user, _) => Marked(seen, user)
  }

  function Marked(seen: seq<Seen>, user: int): (marked: seq<Seen>)
    ensures |marked| == |seen|
  {
    seq(|seen|, i requires 0 <= i < |seen| => if seen[i].entry.id == user then seen[i].(retracted := true) else seen[i])
  }

  function Session(changes: seq<Change>): seq<HermesRow> {
    if changes == [] then [] else Apply(Session(changes[..|changes| - 1]), Last(changes))
  }

  function Conversation(changes: seq<Change>): seq<Seen> {
    if changes == [] then [] else Converse(Conversation(changes[..|changes| - 1]), Last(changes))
  }

  ghost predicate LegalRun(changes: seq<Change>) {
    changes != [] ==> LegalRun(changes[..|changes| - 1]) && Legal(Session(changes[..|changes| - 1]), Last(changes))
  }

  // ---------------------------------------------------------------------------------------
  // Originals under each change
  // ---------------------------------------------------------------------------------------

  lemma {:induction false} OriginalsAreRows(rows: seq<HermesRow>)
    ensures forall r | r in Originals(rows) :: r in rows
  {
    if rows != [] {
      OriginalsAreRows(rows[..|rows| - 1]);
      assert rows == rows[..|rows| - 1] + [Last(rows)];
    }
  }

  lemma KnownDeactivated(rows: seq<HermesRow>, ids: set<int>, compacting: bool, e: Entry)
    ensures Known(Deactivate(rows, ids, compacting), e) <==> Known(rows, e)
  {
    var after := Deactivate(rows, ids, compacting);
    assert forall i | 0 <= i < |rows| :: after[i].entry == rows[i].entry && rows[i] in rows && after[i] in after;
  }

  lemma {:induction false} OriginalsDeactivated(rows: seq<HermesRow>, ids: set<int>, compacting: bool)
    ensures Originals(Deactivate(rows, ids, compacting)) == Deactivate(Originals(rows), ids, compacting)
  {
    var after := Deactivate(rows, ids, compacting);
    if rows == [] {
      assert after == [];
    } else {
      var n := |rows| - 1;
      OriginalsDeactivated(rows[..n], ids, compacting);
      KnownDeactivated(rows[..n], ids, compacting, rows[n].entry);
      assert after[..n] == Deactivate(rows[..n], ids, compacting);
    }
  }

  lemma OriginalsOneMore(rows: seq<HermesRow>, row: HermesRow)
    ensures Originals(rows + [row])
            == Originals(rows) + if !Known(rows, row.entry) && !IsCompressedSummary(row.entry) then [row] else []
  {
  }

  lemma KnownMore(rows: seq<HermesRow>, more: seq<HermesRow>, e: Entry)
    ensures Known(rows, e) ==> Known(rows + more, e)
  {
  }

  /** Replayed rows are known and summaries are filtered out, so neither is original. */
  lemma {:induction false} OriginalsReplayed(rows: seq<HermesRow>, added: seq<Entry>)
    requires forall e | e in added :: Known(rows, e) || IsCompressedSummary(e)
    ensures Originals(rows + Fresh(added)) == Originals(rows)
  {
    hide Originals, Known, IsCompressedSummary;
    if added == [] {
      assert rows + Fresh(added) == rows;
    } else {
      var front, last := added[..|added| - 1], Last(added);
      assert added == front + [last];
      OriginalsReplayed(rows, front);
      OriginalsOneMore(rows + Fresh(front), HermesRow(last, Some(1), false));
      KnownMore(rows, Fresh(front), last);
      assert rows + Fresh(added) == rows + Fresh(front) + [HermesRow(last, Some(1), false)];
    }
  }

  // ---------------------------------------------------------------------------------------
  // Every change keeps the invariant and shows as the same change of the conversation
  // ---------------------------------------------------------------------------------------

  lemma ActiveCopyAppended(rows: seq<HermesRow>, added: seq<Entry>, e: Entry)
    ensures HasActiveCopy(rows + Fresh(added), e)
            <==> HasActiveCopy(rows, e) || exists a | a in added :: RowIdentity(a) == RowIdentity(e)
  {
    var all := rows + Fresh(added);
    assert forall r :: r in all <==> r in rows || r in Fresh(added);
    assert forall i | 0 <= i < |added| ::
        Fresh(added)[i] in Fresh(added) && added[i] in added && Fresh(added)[i].entry == added[i];
  }

  lemma AppendShows(rows: seq<HermesRow>, entry: Entry)
    requires Inv(rows) && Legal(rows, Append(entry))
    ensures Inv(Apply(rows, Append(entry))) && View(Apply(rows, Append(entry))) == Converse(View(rows), Append(entry))
  {
    hide Originals, IsCompressedSummary;
    var after := Apply(rows, Append(entry));
    var row := HermesRow(entry, Some(1), false);
    assert Fresh([entry]) == [row];
    OriginalsOneMore(rows, row);
    OriginalsAreRows(rows);
    assert forall r :: r in after <==> r in rows || r == row;
    forall r | r in rows ensures HasActiveCopy(after, r.entry) <==> HasActiveCopy(rows, r.entry) {
      ActiveCopyAppended(rows, [entry], r.entry);
    }
    hide HasActiveCopy, Known;
    forall i | 0 <= i < |Originals(rows)|
        ensures SeenRow(after, Originals(rows)[i]) == SeenRow(rows, Originals(rows)[i]) {
      assert Originals(rows)[i] in Originals(rows);
    }
    assert View(after) == Converse(View(rows), Append(entry));
  }

  lemma DeactivatedRows(rows: seq<HermesRow>, ids: set<int>, compacting: bool)
    ensures forall r | r in rows :: Deactivated(r, ids, compacting) in Deactivate(rows, ids, compacting)
    ensures forall r' | r' in Deactivate(rows, ids, compacting) ::
        exists r :: r in rows && r' == Deactivated(r, ids, compacting)
    ensures Ordered(rows) ==> Ordered(Deactivate(rows, ids, compacting))
  {
    var after := Deactivate(rows, ids, compacting);
    forall r | r in rows ensures Deactivated(r, ids, compacting) in after {
      var i :| 0 <= i < |rows| && rows[i] == r;
      assert after[i] in after;
    }
    forall r' | r' in after ensures exists r :: r in rows && r' == Deactivated(r, ids, compacting) {
      var i :| 0 <= i < |after| && after[i] == r';
      assert rows[i] in rows;
    }
  }

  lemma ActiveCopyDeactivated(rows: seq<HermesRow>, ids: set<int>, compacting: bool, e: Entry)
    ensures HasActiveCopy(Deactivate(rows, ids, compacting), e)
            <==> exists r | r in rows ::
                r.active == Some(1) && r.entry.id !in ids && RowIdentity(r.entry) == RowIdentity(e)
  {
    DeactivatedRows(rows, ids, compacting);
  }

  /** Compaction gives a row of the session no active copy that it did not have. */
  lemma CompactAddsNoCopies(rows: seq<HermesRow>, archived: set<int>, added: seq<Entry>, e: Entry)
    requires Legal(rows, Compact(archived, added)) && Known(rows, e)
    ensures HasActiveCopy(Apply(rows, Compact(archived, added)), e) ==> HasActiveCopy(rows, e)
  {
    ActiveCopyAppended(Deactivate(rows, archived, true), added, e);
    ActiveCopyDeactivated(rows, archived, true, e);
  }

  lemma CompactKeepsInv(rows: seq<HermesRow>, archived: set<int>, added: seq<Entry>)
    requires Inv(rows) && Legal(rows, Compact(archived, added))
    ensures Inv(Apply(rows, Compact(archived, added)))
  {
    var flagged, after := Deactivate(rows, archived, true), Apply(rows, Compact(archived, added));
    DeactivatedRows(rows, archived, true);
    assert Ordered(after) by {
      assert forall i | 0 <= i < |after| :: after[i].entry == (rows + Fresh(added))[i].entry;
    }
    forall r | r in rows ensures HasActiveCopy(after, r.entry) ==> HasActiveCopy(rows, r.entry) {
      CompactAddsNoCopies(rows, archived, added, r.entry);
    }
    hide HasActiveCopy, Known, Ordered, Apply, Legal;
    assert forall r' | r' in after :: r' in flagged || r' in Fresh(added);
  }

  lemma CompactShows(rows: seq<HermesRow>, archived: set<int>, added: seq<Entry>)
    requires Inv(rows) && Legal(rows, Compact(archived, added))
    ensures var change := Compact(archived, added);
            Inv(Apply(rows, change)) && View(Apply(rows, change)) == View(rows)
  {
    hide Originals, IsCompressedSummary, Ordered;
    var flagged, after := Deactivate(rows, archived, true), Apply(rows, Compact(archived, added));
    CompactKeepsInv(rows, archived, added);
    forall e | e in added ensures Known(flagged, e) || IsCompressedSummary(e) {
      KnownDeactivated(rows, archived, true, e);
    }
    OriginalsReplayed(flagged, added);
    OriginalsDeactivated(rows, archived, true);
    OriginalsAreRows(rows);
    forall r | r in rows ensures HasActiveCopy(after, r.entry) ==> HasActiveCopy(rows, r.entry) {
      CompactAddsNoCopies(rows, archived, added, r.entry);
    }
    hide HasActiveCopy, Known, Legal;
    forall i | 0 <= i < |Originals(rows)|
      ensures SeenRow(after, Deactivate(Originals(rows), archived, true)[i]) == SeenRow(rows, Originals(rows)[i])
    {
      assert Originals(rows)[i] in Originals(rows);
    }
    assert View(after) == View(rows);
  }

  lemma UndoShows(rows: seq<HermesRow>, user: int, others: set<int>)
    requires Inv(rows) && Legal(rows, Undo(user, others))
    ensures var change := Undo(user, others);
            Inv(Apply(rows, change)) && View(Apply(rows, change)) == Converse(View(rows), change)
  {
    hide Originals, HasActiveCopy, Known;
    var ids, after := others + {user}, Apply(rows, Undo(user, others));
    var undone :| Uncompacted(rows, undone) && undone.entry.id == user;
    forall r | r in rows && r.entry.role == UserRow
      ensures HasActiveCopy(after, r.entry) ==> HasActiveCopy(rows, r.entry)
      ensures r.entry.id == user ==> r == undone && !HasActiveCopy(after, r.entry)
      ensures r.entry.id != user ==> (HasActiveCopy(rows, r.entry) ==> HasActiveCopy(after, r.entry))
    {
      UndoneCopies(rows, undone, others, r);
    }
    UndoKeepsInv(rows, undone, ids);
    OriginalsDeactivated(rows, ids, false);
    OriginalsAreRows(rows);
    forall i | 0 <= i < |Originals(rows)|
      ensures SeenRow(after, Deactivate(Originals(rows), ids, false)[i])
          == Marked([SeenRow(rows, Originals(rows)[i])], user)[0]
    {
      assert Originals(rows)[i] in Originals(rows);
      UndoSeen(rows, undone, ids, Originals(rows)[i]);
    }
    hide SeenRow, Uncompacted;
    SeenNames(rows, Originals(rows));
    assert View(after) == Marked(View(rows), user);
  }

  lemma SeenNames(rows: seq<HermesRow>, originals: seq<HermesRow>)
    ensures forall i | 0 <= i < |originals| :: SeenRow(rows, originals[i]).entry == originals[i].entry
  {
  }

  lemma UndoKeepsInv(rows: seq<HermesRow>, undone: HermesRow, ids: set<int>)
    requires Inv(rows) && Uncompacted(rows, undone) && undone.entry.id in ids
    requires forall r | r in rows && r.entry.role == UserRow && r.entry.id in ids :: r == undone
    requires var after := Deactivate(rows, ids, false);
             forall r | r in rows && r.entry.role == UserRow ::
               (HasActiveCopy(after, r.entry) ==> HasActiveCopy(rows, r.entry))
                   && (r == undone ==> !HasActiveCopy(after, r.entry))
    ensures Inv(Deactivate(rows, ids, false))
  {
  }

  lemma UndoSeen(rows: seq<HermesRow>, undone: HermesRow, ids: set<int>, row: HermesRow)
    requires Inv(rows) && Uncompacted(rows, undone) && undone.entry.id in ids && row in rows
    requires forall r | r in rows && r.entry.role == UserRow && r.entry.id in ids :: r == undone
    requires var after := Deactivate(rows, ids, false);
             forall r | r in rows && r.entry.role == UserRow ::
               if r == undone then !HasActiveCopy(after, r.entry)
               else (HasActiveCopy(after, r.entry) <==> HasActiveCopy(rows, r.entry))
    ensures SeenRow(Deactivate(rows, ids, false), Deactivated(row, ids, false))
            == if row.entry.id == undone.entry.id then SeenRow(rows, row).(retracted := true) else SeenRow(rows, row)
  {
  }

  /** An undo touches the copies of no user row but its own, and that one has none. */
  lemma UndoneCopies(rows: seq<HermesRow>, undone: HermesRow, others: set<int>, r: HermesRow)
    requires Ordered(rows) && Uncompacted(rows, undone) && r in rows && r.entry.role == UserRow
    requires forall o | o in rows && o.entry.id in others :: o.entry.role != UserRow
    ensures var after := Deactivate(rows, others + {undone.entry.id}, false);
            && (HasActiveCopy(after, r.entry) ==> HasActiveCopy(rows, r.entry))
            && (r.entry.id == undone.entry.id ==> r == undone && !HasActiveCopy(after, r.entry))
            && (r.entry.id != undone.entry.id ==> (HasActiveCopy(rows, r.entry) ==> HasActiveCopy(after, r.entry)))
  {
    var ids := others + {undone.entry.id};
    ActiveCopyDeactivated(rows, ids, false, r.entry);
    SameIdSameRow(rows, r, undone);
    if r != undone && HasActiveCopy(rows, r.entry) {
      var copy :| copy in rows && copy.active == Some(1) && RowIdentity(copy.entry) == RowIdentity(r.entry);
      SameIdSameRow(rows, copy, undone);
      assert copy != undone && copy.entry.id !in ids;
    }
  }

  /**
   Taking back a turn - deactivating every active copy of its user row - is seen exactly when
   compaction had not archived that row.
   */
  lemma UndoIsSeenUnlessCompacted(rows: seq<HermesRow>, row: HermesRow, ids: set<int>)
    requires row in rows && row.entry.role == UserRow && row.active in {Some(0), Some(1)}
    requires forall r | r in rows && r.active == Some(1) && RowIdentity(r.entry) == RowIdentity(row.entry) ::
        r.entry.id in ids
    ensures SeenRow(Deactivate(rows, ids, false), Deactivated(row, ids, false)).retracted <==> !row.compacted
  {
  }

  lemma SameIdSameRow(rows: seq<HermesRow>, a: HermesRow, b: HermesRow)
    requires Ordered(rows) && a in rows && b in rows
    ensures a.entry.id == b.entry.id ==> a == b
  {
  }

  // ---------------------------------------------------------------------------------------
  // Main results
  // ---------------------------------------------------------------------------------------

  /** Over any run, the reader sees the conversation without compactions. */
  lemma {:induction false} SessionShowsConversation(changes: seq<Change>)
    requires LegalRun(changes)
    ensures Inv(Session(changes)) && View(Session(changes)) == Conversation(changes)
  {
    if changes == [] {
      OriginalsOfNothing();
      assert View([]) == [];
    } else {
      hide Inv, Legal, View, Apply, Converse;
      var front := changes[..|changes| - 1];
      SessionShowsConversation(front);
      ChangeShows(Session(front), Last(changes));
    }
  }

  lemma ChangeShows(rows: seq<HermesRow>, change: Change)
    requires Inv(rows) && Legal(rows, change)
    ensures Inv(Apply(rows, change)) && View(Apply(rows, change)) == Converse(View(rows), change)
  {
    hide Inv, Legal, View, Apply;
    match change
    case Append(entry) => AppendShows(rows, entry);
    case Compact(archived, added) => CompactShows(rows, archived, added);
    case Undo(user, others) => UndoShows(rows, user, others);
  }

  function WithoutCompactions(changes: seq<Change>): seq<Change> {
    if changes == [] then []
    else WithoutCompactions(changes[..|changes| - 1]) + if Last(changes).Compact? then [] else [Last(changes)]
  }

  lemma {:induction false} ConversationWithoutCompactions(changes: seq<Change>)
    ensures Conversation(WithoutCompactions(changes)) == Conversation(changes)
  {
    if changes != [] {
      var front := changes[..|changes| - 1];
      ConversationWithoutCompactions(front);
      var kept := WithoutCompactions(front);
      assert (kept + [Last(changes)])[..|kept|] == kept && kept + [] == kept;
    }
  }

  // ---------------------------------------------------------------------------------------
  // The run without its compactions
  // ---------------------------------------------------------------------------------------

  /** An undo of a row that only a compaction added finds nothing to take back. */
  ghost predicate Bare(rows: seq<HermesRow>, change: Change) {
    match change
    case Append(_) => Legal(rows, change)
    case Compact(_, _) => false
    case Undo(user, others) => Legal(rows, change) || UndoesNothing(rows, user, others)
  }

  ghost predicate UndoesNothing(rows: seq<HermesRow>, user: int, others: set<int>) {
    && (forall r | r in rows :: r.entry.id != user)
    && forall r | r in rows && r.entry.id in others :: r.entry.role != UserRow
  }

  ghost predicate BareRun(changes: seq<Change>) {
    changes != [] ==> BareRun(changes[..|changes| - 1]) && Bare(Session(changes[..|changes| - 1]), Last(changes))
  }

  lemma EmptyUndoShows(rows: seq<HermesRow>, user: int, others: set<int>)
    requires Inv(rows) && UndoesNothing(rows, user, others)
    ensures var change := Undo(user, others);
            Inv(Apply(rows, change)) && View(Apply(rows, change)) == Converse(View(rows), change)
  {
    hide Originals, HasActiveCopy, Known;
    var ids, after := others + {user}, Apply(rows, Undo(user, others));
    DeactivatedRows(rows, ids, false);
    OriginalsDeactivated(rows, ids, false);
    OriginalsAreRows(rows);
    forall r | r in rows && r.entry.role == UserRow
      ensures HasActiveCopy(after, r.entry) <==> HasActiveCopy(rows, r.entry)
    {
      OtherCopiesStay(rows, ids, r);
    }
    forall i | 0 <= i < |Originals(rows)|
      ensures SeenRow(after, Deactivate(Originals(rows), ids, false)[i]) == SeenRow(rows, Originals(rows)[i])
      ensures Originals(rows)[i].entry.id != user
    {
      assert Originals(rows)[i] in Originals(rows);
    }
    SeenNames(rows, Originals(rows));
    assert View(after) == Marked(View(rows), user);
  }

  /** Deactivating rows that are not of users leaves the copies of user rows alone. */
  lemma OtherCopiesStay(rows: seq<HermesRow>, ids: set<int>, r: HermesRow)
    requires r in rows && r.entry.role == UserRow && forall o | o in rows && o.entry.id in ids ::
        o.entry.role != UserRow
    ensures HasActiveCopy(Deactivate(rows, ids, false), r.entry) <==> HasActiveCopy(rows, r.entry)
  {
    ActiveCopyDeactivated(rows, ids, false, r.entry);
    if HasActiveCopy(rows, r.entry) {
      var copy :| copy in rows && copy.active == Some(1) && RowIdentity(copy.entry) == RowIdentity(r.entry);
      assert copy.entry.role == UserRow && copy.entry.id !in ids;
    }
  }

  lemma {:induction false} BareRunShows(changes: seq<Change>)
    requires BareRun(changes)
    ensures Inv(Session(changes)) && View(Session(changes)) == Conversation(changes)
  {
    if changes == [] {
      OriginalsOfNothing();
      assert View([]) == [];
    } else {
      hide Inv, Legal, View, Apply, Converse, UndoesNothing;
      var rows, change := Session(changes[..|changes| - 1]), Last(changes);
      BareRunShows(changes[..|changes| - 1]);
      if Legal(rows, change) {
        ChangeShows(rows, change);
      } else {
        EmptyUndoShows(rows, change.user, change.others);
      }
    }
  }

  /** The smaller session has rows of the larger one, none compacted, and each active if it is active there. */
  ghost predicate Within(small: seq<HermesRow>, rows: seq<HermesRow>) {
    && Ordered(small) && Ordered(rows)
    && (forall r | r in small :: !r.compacted && exists r' :: Counterpart(rows, r, r'))
  }

  ghost predicate Counterpart(rows: seq<HermesRow>, r: HermesRow, r': HermesRow) {
    r' in rows && r'.entry == r.entry && (r'.active == Some(1) ==> r.active == Some(1))
  }

  lemma WithinAppend(small: seq<HermesRow>, rows: seq<HermesRow>, entry: Entry)
    requires Within(small, rows) && Legal(rows, Append(entry))
    ensures Legal(small, Append(entry)) && Within(Apply(small, Append(entry)), Apply(rows, Append(entry)))
  {
    var row := HermesRow(entry, Some(1), false);
    assert Fresh([entry]) == [row];
    assert forall r :: r in small + [row] <==> r in small || r == row;
    assert forall r :: r in rows + [row] <==> r in rows || r == row;
    forall r | r in small ensures r.entry.id < entry.id && RowIdentity(r.entry) != RowIdentity(entry) {
      var r' :| Counterpart(rows, r, r');
      var i :| 0 <= i < |rows| && rows[i] == r';
      assert (rows + Fresh([entry]))[i] == r' && (rows + Fresh([entry]))[|rows|] == row;
    }
    assert forall i | 0 <= i < |small| :: small[i] in small;
    forall r | r in small + [row] ensures !r.compacted && exists r' :: Counterpart(rows + [row], r, r') {
      if r in small {
        var r' :| Counterpart(rows, r, r');
        assert Counterpart(rows + [row], r, r');
      } else {
        assert Counterpart(rows + [row], r, row);
      }
    }
  }

  lemma WithinCompact(small: seq<HermesRow>, rows: seq<HermesRow>, archived: set<int>, added: seq<Entry>)
    requires Within(small, rows) && Legal(rows, Compact(archived, added))
    ensures Within(small, Apply(rows, Compact(archived, added)))
  {
    var after := Apply(rows, Compact(archived, added));
    DeactivatedRows(rows, archived, true);
    assert forall i | 0 <= i < |after| :: after[i].entry == (rows + Fresh(added))[i].entry;
    assert forall r | r in Deactivate(rows, archived, true) :: r in after;
    forall r | r in small ensures exists r' :: Counterpart(after, r, r') {
      var r' :| Counterpart(rows, r, r');
      assert Counterpart(after, r, Deactivated(r', archived, true));
    }
  }

  lemma WithinDeactivated(small: seq<HermesRow>, rows: seq<HermesRow>, ids: set<int>)
    requires Within(small, rows)
    ensures Within(Deactivate(small, ids, false), Deactivate(rows, ids, false))
  {
    hide Ordered, Deactivate;
    DeactivatedRows(small, ids, false);
    DeactivatedRows(rows, ids, false);
    var after, after' := Deactivate(small, ids, false), Deactivate(rows, ids, false);
    forall s | s in after ensures !s.compacted && exists r' :: Counterpart(after', s, r') {
      var r :| r in small && s == Deactivated(r, ids, false);
      var r' :| Counterpart(rows, r, r');
      assert Counterpart(after', s, Deactivated(r', ids, false));
    }
  }

  lemma WithinUndo(small: seq<HermesRow>, rows: seq<HermesRow>, user: int, others: set<int>)
    requires Within(small, rows) && Legal(rows, Undo(user, others))
    ensures Bare(small, Undo(user, others)) && Within(Apply(small, Undo(user, others)), Apply(rows, Undo(user, others)))
  {
    hide Deactivate, Uncompacted, Ordered;
    WithinDeactivated(small, rows, others + {user});
    forall r | r in small && r.entry.id in others ensures r.entry.role != UserRow {
      var r' :| Counterpart(rows, r, r');
    }
    var undone :| Uncompacted(rows, undone) && undone.entry.id == user;
    if r :| r in small && r.entry.id == user {
      StaysUncompacted(small, rows, r, undone);
    }
  }

  lemma StaysUncompacted(small: seq<HermesRow>, rows: seq<HermesRow>, r: HermesRow, undone: HermesRow)
    requires Within(small, rows) && r in small && Uncompacted(rows, undone) && r.entry.id == undone.entry.id
    ensures Uncompacted(small, r)
  {
  }

  lemma {:induction false} WithoutIsBare(changes: seq<Change>)
    requires LegalRun(changes)
    ensures BareRun(WithoutCompactions(changes)) && Within(Session(WithoutCompactions(changes)), Session(changes))
  {
    if changes != [] {
      hide Legal, Bare, Within, Apply;
      var front, change := changes[..|changes| - 1], Last(changes);
      var kept := WithoutCompactions(front);
      WithoutIsBare(front);
      assert kept + [] == kept && (kept + [change])[..|kept|] == kept;
      match change {
        case Append(entry) =>
          WithinAppend(Session(kept), Session(front), entry);
          BareAppend(Session(kept), entry);
        case Compact(archived, added) => WithinCompact(Session(kept), Session(front), archived, added);
        case Undo(user, others) => WithinUndo(Session(kept), Session(front), user, others);
      }
    }
  }

  lemma BareAppend(rows: seq<HermesRow>, entry: Entry)
    ensures Legal(rows, Append(entry)) ==> Bare(rows, Append(entry))
  {
  }

  /** What is staged after any run is what is staged after the run without its compactions, to the message id. */
  lemma CompactionNeverShows(env: Env, parse: Parser, session: HermesSourceTurn.Session, changes: seq<Change>)
    requires LegalRun(changes)
    ensures Staged(env, parse, session, Session(changes))
        == Staged(env, parse, session, Session(WithoutCompactions(changes)))
  {
    hide Session, Conversation, View;
    SessionShowsConversation(changes);
    WithoutIsBare(changes);
    BareRunShows(WithoutCompactions(changes));
    ConversationWithoutCompactions(changes);
  }

  // ---------------------------------------------------------------------------------------
  // Taking a turn back
  // ---------------------------------------------------------------------------------------

  /** Taking a turn back keeps every turn's id and rows, and retracts that one alone. */
  lemma UndoRetractsOneTurn(seen: seq<Seen>, user: int)
    ensures var turns, after := Split(seen), Split(Marked(seen, user));
            && |after| == |turns|
            && forall k | 0 <= k < |turns| ::
                 && after[k].id == turns[k].id && Entries(after[k].rows) == Entries(turns[k].rows)
                 && turns[k].rows[0].entry.id == turns[k].id
                 && after[k].rows[0].retracted == (turns[k].rows[0].retracted || turns[k].id == user)
  {
    MarkedSplit(seen, user);
    FirstRowNamesTurn(seen);
    var turns := Split(seen);
    forall k | 0 <= k < |turns|
      ensures Entries(Marked(turns[k].rows, user)) == Entries(turns[k].rows)
    {
    }
  }

  function WithoutTurn(turns: seq<Turn>, id: int): (kept: seq<Turn>)
    ensures forall t | t in kept :: t in turns
  {
    if turns == [] then []
    else WithoutTurn(turns[..|turns| - 1], id) + if Last(turns).id == id then [] else [Last(turns)]
  }

  ghost predicate FirstRowsName(turns: seq<Turn>) {
    forall k | 0 <= k < |turns| :: turns[k].rows != [] && turns[k].rows[0].entry.id == turns[k].id
  }

  function TurnOutput(env: Env, parse: Parser, session: HermesSourceTurn.Session, t: Turn): seq<RawMessage>
    requires t.rows != []
  {
    if t.rows[0].retracted then [] else StageTurn(env, parse, session, t.id, Entries(t.rows))
  }

  lemma EmitSnoc(env: Env, parse: Parser, session: HermesSourceTurn.Session, turns: seq<Turn>, t: Turn)
    requires (forall u | u in turns :: u.rows != []) && t.rows != []
    ensures forall u | u in turns + [t] :: u.rows != []
    ensures Emit(env, parse, session, turns + [t])
        == Emit(env, parse, session, turns) + TurnOutput(env, parse, session, t)
  {
  }

  /** Marking rows changes what a turn emits only if the turn is the one taken back. */
  lemma MarkedOutput(env: Env, parse: Parser, session: HermesSourceTurn.Session, t: Turn, user: int)
    requires t.rows != [] && t.rows[0].entry.id == t.id
    ensures TurnOutput(env, parse, session, Turn(t.id, Marked(t.rows, user)))
            == if t.id == user then [] else TurnOutput(env, parse, session, t)
  {
    hide StageTurn;
    assert Entries(Marked(t.rows, user)) == Entries(t.rows);
  }

  lemma {:induction false} EmitMarked(env: Env, parse: Parser, session: HermesSourceTurn.Session, turns: seq<Turn>,
      user: int)
    requires FirstRowsName(turns)
    ensures forall t | t in turns :: t.rows != []
    ensures forall t | t in MarkTurns(turns, user) :: t.rows != []
    ensures Emit(env, parse, session, MarkTurns(turns, user)) == Emit(env, parse, session, WithoutTurn(turns, user))
  {
    hide Emit, TurnOutput, Marked;
    if turns != [] {
      var front, last := turns[..|turns| - 1], Last(turns);
      var kept, marked := WithoutTurn(front, user), Turn(last.id, Marked(last.rows, user));
      EmitMarked(env, parse, session, front, user);
      assert turns == front + [last] && MarkTurns(turns, user) == MarkTurns(front, user) + [marked];
      EmitSnoc(env, parse, session, MarkTurns(front, user), marked);
      EmitSnoc(env, parse, session, kept, last);
      MarkedOutput(env, parse, session, last, user);
      assert kept + [] == kept;
    } else {
      assert MarkTurns(turns, user) == [] == WithoutTurn(turns, user);
    }
  }

  /** On a session: after an undo everything is staged as before, without the block of the turn taken back. */
  lemma UndoRemovesItsBlock(env: Env, parse: Parser, session: HermesSourceTurn.Session, rows: seq<HermesRow>,
      user: int, others: set<int>)
    requires Inv(rows) && Legal(rows, Undo(user, others))
    ensures Staged(env, parse, session, Apply(rows, Undo(user, others)))
            == Emit(env, parse, session, WithoutTurn(Split(View(rows)), user))
  {
    hide Inv, Legal, View, Apply, Split;
    ChangeShows(rows, Undo(user, others));
    MarkedSplit(View(rows), user);
    FirstRowNamesTurn(View(rows));
    EmitMarked(env, parse, session, Split(View(rows)), user);
  }

  // ---------------------------------------------------------------------------------------
  // Taking back a turn of any row
  // ---------------------------------------------------------------------------------------

  /** The ids reach every active copy of that user row, and no other user row. */
  ghost predicate TakesBack(rows: seq<HermesRow>, row: HermesRow, ids: set<int>) {
    && (forall r | r in rows && r.active == Some(1) && RowIdentity(r.entry) == RowIdentity(row.entry) ::
          r.entry.id in ids)
    && forall r | r in rows && r.entry.role == UserRow && r.entry.id in ids ::
         RowIdentity(r.entry) == RowIdentity(row.entry)
  }

  /** Compaction had not archived the row. */
  predicate Undoable(row: HermesRow) {
    row.active in {Some(0), Some(1)} && !row.compacted
  }

  lemma {:induction false} OriginalsHaveOwnIdentities(rows: seq<HermesRow>)
    ensures forall a, b | a in Originals(rows) && b in Originals(rows) ::
              RowIdentity(a.entry) == RowIdentity(b.entry) ==> a == b
  {
    hide IsCompressedSummary, RowIdentity;
    if rows != [] {
      OriginalsHaveOwnIdentities(rows[..|rows| - 1]);
      OriginalsAreRows(rows[..|rows| - 1]);
    }
  }

  lemma OtherRowsStaySeen(rows: seq<HermesRow>, row: HermesRow, ids: set<int>, r: HermesRow)
    requires TakesBack(rows, row, ids) && r in rows && RowIdentity(r.entry) != RowIdentity(row.entry)
    ensures SeenRow(Deactivate(rows, ids, false), Deactivated(r, ids, false)) == SeenRow(rows, r)
  {
    ActiveCopyDeactivated(rows, ids, false, r.entry);
    if r.entry.role == UserRow && HasActiveCopy(rows, r.entry) {
      var copy :| copy in rows && copy.active == Some(1) && RowIdentity(copy.entry) == RowIdentity(r.entry);
      assert copy.entry.role == UserRow && copy.entry.id !in ids;
    }
  }

  lemma OwnRowSeen(rows: seq<HermesRow>, row: HermesRow, ids: set<int>)
    requires TakesBack(rows, row, ids) && row in rows && row.entry.role == UserRow
    ensures SeenRow(Deactivate(rows, ids, false), Deactivated(row, ids, false))
            == if Undoable(row) then SeenRow(rows, row).(retracted := true) else SeenRow(rows, row)
  {
    ActiveCopyDeactivated(rows, ids, false, row.entry);
  }

  lemma TakenBackShows(rows: seq<HermesRow>, row: HermesRow, ids: set<int>)
    requires Ordered(rows) && row in Originals(rows) && row.entry.role == UserRow && TakesBack(rows, row, ids)
    ensures View(Deactivate(rows, ids, false))
        == if Undoable(row) then Marked(View(rows), row.entry.id) else View(rows)
  {
    hide Originals, Ordered, TakesBack, SeenRow, RowIdentity, Undoable, Deactivated;
    var after, originals := Deactivate(rows, ids, false), Originals(rows);
    OriginalsDeactivated(rows, ids, false);
    OriginalsAreRows(rows);
    OriginalsHaveOwnIdentities(rows);
    SeenNames(rows, originals);
    OwnRowSeen(rows, row, ids);
    forall i | 0 <= i < |originals|
      ensures SeenRow(after, Deactivate(originals, ids, false)[i])
          == if Undoable(row) then Marked([SeenRow(rows, originals[i])], row.entry.id)[0]
             else SeenRow(rows, originals[i])
    {
      assert originals[i] in originals;
      SameIdSameRow(rows, originals[i], row);
      if originals[i] != row {
        OtherRowsStaySeen(rows, row, ids, originals[i]);
      }
    }
    assert View(after) == if Undoable(row) then Marked(View(rows), row.entry.id) else View(rows);
  }

  /**
   On a session: taking back the turn of any row the reader shows removes exactly its block, and
   stages what was staged before when compaction had archived that row.
   */
  lemma UndoIsStagedUnlessCompacted(env: Env, parse: Parser, session: HermesSourceTurn.Session, rows: seq<HermesRow>,
      row: HermesRow, ids: set<int>)
    requires Ordered(rows) && row in Originals(rows) && row.entry.role == UserRow && TakesBack(rows, row, ids)
    ensures Staged(env, parse, session, Deactivate(rows, ids, false))
        == if Undoable(row) then Emit(env, parse, session, WithoutTurn(Split(View(rows)), row.entry.id))
           else Staged(env, parse, session, rows)
  {
    hide Ordered, TakesBack, View, Deactivate, Split, Originals;
    TakenBackShows(rows, row, ids);
    MarkedSplit(View(rows), row.entry.id);
    FirstRowNamesTurn(View(rows));
    EmitMarked(env, parse, session, Split(View(rows)), row.entry.id);
  }

  ghost predicate Rising(seen: seq<Seen>) {
    forall i, j | 0 <= i < j < |seen| :: seen[i].entry.id < seen[j].entry.id
  }

  lemma {:induction false} OriginalsRise(rows: seq<HermesRow>)
    requires Ordered(rows)
    ensures Ordered(Originals(rows))
  {
    hide Known, IsCompressedSummary;
    if rows != [] {
      var front := rows[..|rows| - 1];
      OriginalsRise(front);
      OriginalsAreRows(front);
      assert forall i | 0 <= i < |front| :: front[i].entry.id < Last(rows).entry.id;
      assert forall i | 0 <= i < |Originals(front)| :: Originals(front)[i] in front;
    }
  }

  ghost predicate IdsRise(turns: seq<Turn>) {
    forall i, j | 0 <= i < j < |turns| :: turns[i].id < turns[j].id
  }

  lemma GrownIdsRise(turns: seq<Turn>, row: Seen, bound: int)
    requires IdsRise(turns) && (forall i | 0 <= i < |turns| :: turns[i].id <= bound) && bound < row.entry.id
    ensures var grown := Grown(turns, row); IdsRise(grown) && forall i | 0 <= i < |grown| :: grown[i].id <= row.entry.id
  {
  }

  lemma {:induction false} TurnIdsRise(seen: seq<Seen>)
    requires Rising(seen)
    ensures IdsRise(Split(seen)) && forall i | 0 <= i < |Split(seen)| :: Split(seen)[i].id <= Last(seen).entry.id
  {
    hide Grown, IdsRise;
    if seen == [] {
      NothingSplit();
    } else {
      var front := seen[..|seen| - 1];
      TurnIdsRise(front);
      if front == [] {
        NothingSplit();
        GrownIdsRise([], Last(seen), Last(seen).entry.id - 1);
      } else {
        assert Last(front) == seen[|seen| - 2];
        GrownIdsRise(Split(front), Last(seen), Last(front).entry.id);
      }
    }
  }

  lemma NothingSplit()
    ensures Split([]) == [] && IdsRise([])
  {
  }

  /** That block is one: the turns of a session have different ids. */
  lemma TurnsHaveOwnIds(rows: seq<HermesRow>)
    requires Ordered(rows)
    ensures IdsRise(Split(View(rows)))
  {
    OriginalsRise(rows);
    SeenNames(rows, Originals(rows));
    hide Split, Originals, SeenRow;
    TurnIdsRise(View(rows));
  }

  function MarkTurns(turns: seq<Turn>, user: int): (marked: seq<Turn>)
    ensures |marked| == |turns|
  {
    seq(|turns|, i requires 0 <= i < |turns| => Turn(turns[i].id, Marked(turns[i].rows, user)))
  }

  lemma {:induction false} FirstRowNamesTurn(seen: seq<Seen>)
    ensures forall k | 0 <= k < |Split(seen)| ::
        Split(seen)[k].rows != [] && Split(seen)[k].rows[0].entry.id == Split(seen)[k].id
  {
    if seen != [] {
      FirstRowNamesTurn(seen[..|seen| - 1]);
    }
  }

  lemma {:induction false} MarkedSplit(seen: seq<Seen>, user: int)
    ensures Split(Marked(seen, user)) == MarkTurns(Split(seen), user)
  {
    hide Split;
    OriginalsOfNothing();
    if seen == [] {
      assert Marked(seen, user) == [];
    } else {
      var front, row := seen[..|seen| - 1], Last(seen);
      MarkedSplit(front, user);
      var marked := if row.entry.id == user then row.(retracted := true) else row;
      assert seen == front + [row] && Marked(seen, user) == Marked(front, user) + [marked];
      SplitSnoc(front, row);
      SplitSnoc(Marked(front, user), marked);
      MarkGrown(Split(front), row, marked, user);
    }
  }

  lemma MarkGrown(turns: seq<Turn>, row: Seen, marked: Seen, user: int)
    requires marked == if row.entry.id == user then row.(retracted := true) else row
    ensures MarkTurns(Grown(turns, row), user) == Grown(MarkTurns(turns, user), marked)
  {
    assert Marked([row], user) == [marked];
    if row.entry.role != UserRow && turns != [] {
      assert Marked(Last(turns).rows + [row], user) == Marked(Last(turns).rows, user) + [marked];
    }
  }

  // ---------------------------------------------------------------------------------------
  // The plugin's way to name a turn
  // ---------------------------------------------------------------------------------------

  predicate Says(e: Entry, needle: string) {
    e.role == UserRow && Trimmed(e) == needle
  }

  function Matches(rows: seq<HermesRow>, needle: string): seq<Entry> {
    if rows == [] then []
    else
      Matches(rows[..|rows| - 1], needle)
      + if Says(Last(rows).entry, needle) then [Last(rows).entry] else []
  }

  function LatestTimestamp(entries: seq<Entry>): Time
    requires entries != []
  {
    var last := TimeOf(Last(entries));
    if |entries| == 1 then last
    else
      var latest := LatestTimestamp(entries[..|entries| - 1]);
      if latest < last then last else latest
  }

  /** The lowest first-copy id among the entries with that timestamp; there is one when one has it. */
  function EarliestCopy(rows: seq<HermesRow>, entries: seq<Entry>, at: Time): Option<int> {
    if entries == [] then None
    else
      var earliest := EarliestCopy(rows, entries[..|entries| - 1], at);
      var id := FirstCopyId(rows, Last(entries));
      if TimeOf(Last(entries)) != at then earliest
      else if earliest.Some? && earliest.value < id then earliest
      else Some(id)
  }

  /** `resolveHermesTurnId`, up to the session prefix of the name. */
  function ResolveTurnId(rows: seq<HermesRow>, userContent: string): Option<int> {
    var needle := Trim(userContent);
    var matches := Matches(rows, needle);
    if needle == "" || matches == [] then None else EarliestCopy(rows, matches, LatestTimestamp(matches))
  }

  lemma {:induction false} MatchesAreRows(rows: seq<HermesRow>, needle: string)
    ensures forall r | r in rows && Says(r.entry, needle) :: r.entry in Matches(rows, needle)
    ensures forall e | e in Matches(rows, needle) :: Says(e, needle) && exists r | r in rows :: r.entry == e
  {
    hide Says;
    if rows != [] {
      MatchesAreRows(rows[..|rows| - 1], needle);
      assert rows == rows[..|rows| - 1] + [Last(rows)];
      assert forall r :: r in rows <==> r in rows[..|rows| - 1] || r == Last(rows);
    }
  }

  lemma {:induction false} SomeoneIsLatest(entries: seq<Entry>)
    requires entries != []
    ensures exists e | e in entries :: TimeOf(e) == LatestTimestamp(entries)
    ensures forall e | e in entries :: TimeOf(e) <= LatestTimestamp(entries)
  {
    assert Last(entries) in entries;
    if |entries| > 1 {
      var front := entries[..|entries| - 1];
      SomeoneIsLatest(front);
      assert entries == front + [Last(entries)];
    }
  }

  lemma {:induction false} EarliestCopyIsMinimal(rows: seq<HermesRow>, entries: seq<Entry>, at: Time)
    ensures var earliest := EarliestCopy(rows, entries, at);
            && (earliest.Some? <==> exists e | e in entries :: TimeOf(e) == at)
            && (earliest.Some? ==> exists e | e in entries :: TimeOf(e) == at && earliest.value == FirstCopyId(rows, e))
            && forall e | e in entries && TimeOf(e) == at :: earliest.Some? && earliest.value <= FirstCopyId(rows, e)
  {
    hide FirstCopyId;
    if entries != [] {
      var front := entries[..|entries| - 1];
      EarliestCopyIsMinimal(rows, front, at);
      assert Last(entries) in entries && forall e :: e in entries <==> e in front || e == Last(entries);
    }
  }

  predicate NamesTurn(turns: seq<Turn>, id: int) {
    exists t | t in turns :: t.id == id
  }

  predicate HasUserRow(seen: seq<Seen>, id: int) {
    exists s | s in seen :: s.entry.role == UserRow && s.entry.id == id
  }

  lemma {:induction false} EveryUserRowOpensATurn(seen: seq<Seen>, id: int)
    ensures NamesTurn(Split(seen), id) <==> HasUserRow(seen, id)
  {
    if seen != [] {
      var front, row := seen[..|seen| - 1], Last(seen);
      EveryUserRowOpensATurn(front, id);
      assert seen == front + [row];
      SplitSnoc(front, row);
      TurnIdsSnoc(Split(front), row, id);
      hide Split, NamesTurn;
      assert forall s :: s in seen <==> s in front || s == row;
    }
  }

  lemma TurnIdsSnoc(turns: seq<Turn>, row: Seen, id: int)
    ensures NamesTurn(Grown(turns, row), id)
        <==> NamesTurn(turns, id) || (row.entry.role == UserRow && id == row.entry.id)
  {
  }

  lemma {:induction false} OriginalExactly(rows: seq<HermesRow>, i: nat)
    requires i < |rows|
    ensures Ordered(rows)
        ==> (rows[i] in Originals(rows) <==> !Known(rows[..i], rows[i].entry) && !IsCompressedSummary(rows[i].entry))
  {
    var front := rows[..|rows| - 1];
    OriginalsAreRows(front);
    if Ordered(rows) {
      if i < |front| {
        OriginalExactly(front, i);
        assert front[..i] == rows[..i];
      } else {
        assert rows[i] !in front;
      }
    }
  }

  /** Of the rows with that sentence one of the latest, and of those the earliest. */
  ghost predicate EarliestOfLatest(rows: seq<HermesRow>, needle: string, named: HermesRow) {
    && named in rows && Says(named.entry, needle)
    && forall r | r in rows && Says(r.entry, needle) ::
         || TimeOf(r.entry) < TimeOf(named.entry)
         || (TimeOf(r.entry) == TimeOf(named.entry) && named.entry.id <= r.entry.id)
  }

  lemma FoundWhenSaid(rows: seq<HermesRow>, userContent: string)
    ensures ResolveTurnId(rows, userContent).Some?
        <==> Trim(userContent) != "" && exists r | r in rows :: Says(r.entry, Trim(userContent))
  {
    hide Says, Matches, EarliestCopy, LatestTimestamp;
    var matches := Matches(rows, Trim(userContent));
    MatchesAreRows(rows, Trim(userContent));
    FirstIsMember(matches);
    if matches != [] {
      SomeoneIsLatest(matches);
      EarliestCopyIsMinimal(rows, matches, LatestTimestamp(matches));
    }
  }

  lemma EarliestOfLatestIsNamed(rows: seq<HermesRow>, needle: string, matches: seq<Entry>)
      returns (named: HermesRow)
    requires Ordered(rows) && matches == Matches(rows, needle) && matches != []
    ensures EarliestCopy(rows, matches, LatestTimestamp(matches)) == Some(named.entry.id)
    ensures EarliestOfLatest(rows, needle, named)
    ensures NamesTurn(Split(View(rows)), named.entry.id) <==> !IsCompressedSummary(named.entry)
  {
    hide Split, View, NamesTurn, IsCompressedSummary, Ordered, FirstCopyId, EarliestCopy, LatestTimestamp, Matches;
    MatchesAreRows(rows, needle);
    var at := LatestTimestamp(matches);
    SomeoneIsLatest(matches);
    EarliestCopyIsMinimal(rows, matches, at);
    var e :| e in matches && TimeOf(e) == at && EarliestCopy(rows, matches, at).value == FirstCopyId(rows, e);
    named := NamedRow(rows, e);
    forall r | r in rows && Says(r.entry, needle)
      ensures TimeOf(r.entry) < at || (TimeOf(r.entry) == at && named.entry.id <= r.entry.id)
    {
      assert r.entry in matches;
      FirstCopyIsMinimal(rows, r.entry);
    }
  }

  /**
   The plugin finds a turn exactly for a sentence the user sent. The most recent rows with that
   sentence win, and the earliest of them is named; its id is that of a turn of the split unless
   the row is a summary.
   */
  lemma ResolveNamesATurn(rows: seq<HermesRow>, userContent: string)
    requires Ordered(rows)
    ensures var needle, id := Trim(userContent), ResolveTurnId(rows, userContent);
            && (id.Some? <==> needle != "" && exists r | r in rows :: Says(r.entry, needle))
            && (id.Some? ==> exists r | EarliestOfLatest(rows, needle, r) ::
                 && id.value == r.entry.id
                 && (NamesTurn(Split(View(rows)), r.entry.id) <==> !IsCompressedSummary(r.entry)))
  {
    hide Says, Split, View, NamesTurn, Ordered, EarliestOfLatest, IsCompressedSummary, EarliestCopy, LatestTimestamp;
    FoundWhenSaid(rows, userContent);
    var needle := Trim(userContent);
    if needle != "" && Matches(rows, needle) != [] {
      var named := EarliestOfLatestIsNamed(rows, needle, Matches(rows, needle));
    }
  }

  lemma NamedRow(rows: seq<HermesRow>, e: Entry) returns (named: HermesRow)
    requires Ordered(rows) && e.role == UserRow && exists r | r in rows :: r.entry == e
    ensures named in rows && named.entry.id == FirstCopyId(rows, e) && RowIdentity(named.entry) == RowIdentity(e)
    ensures named.entry.role == UserRow && Trimmed(named.entry) == Trimmed(e) && TimeOf(named.entry) == TimeOf(e)
    ensures NamesTurn(Split(View(rows)), named.entry.id) <==> !IsCompressedSummary(named.entry)
  {
    hide IsCompressedSummary;
    FirstCopyIsMinimal(rows, e);
    named :| named in rows && named.entry.id == FirstCopyId(rows, e) && RowIdentity(named.entry) == RowIdentity(e);
    var i :| 0 <= i < |rows| && rows[i] == named;
    forall earlier | earlier in rows[..i] ensures RowIdentity(earlier.entry) != RowIdentity(named.entry) {
      var j :| 0 <= j < i && rows[j] == earlier;
      assert earlier in rows && rows[j].entry.id < rows[i].entry.id;
    }
    OriginalExactly(rows, i);
    OriginalUserNamesTurn(rows, named);
  }

  lemma OriginalUserNamesTurn(rows: seq<HermesRow>, row: HermesRow)
    requires Ordered(rows) && row in rows && row.entry.role == UserRow
    ensures NamesTurn(Split(View(rows)), row.entry.id) <==> row in Originals(rows)
  {
    hide Originals, Split, IsRetracted, NamesTurn;
    OriginalsAreRows(rows);
    EveryUserRowOpensATurn(View(rows), row.entry.id);
    var originals, seen := Originals(rows), View(rows);
    if row in originals {
      var k :| 0 <= k < |originals| && originals[k] == row;
      assert seen[k] in seen;
    }
    if HasUserRow(seen, row.entry.id) {
      var s :| s in seen && s.entry.role == UserRow && s.entry.id == row.entry.id;
      var k :| 0 <= k < |seen| && seen[k] == s;
      assert originals[k] in originals;
      SameIdSameRow(rows, originals[k], row);
    }
  }
}
