/**
 Which turns a first scan keeps (Memory/src/agent-source/scan-store.ts `selectInitialTurns`): the
 newest of all sources together, and the newest of every source that got none.
 */
module InitialSelection {
  import opened Wrappers
  import opened SourceTurns
  import opened Ordering

  /** A row of `turn_meta` without its `selected` column. */
  datatype TurnRow = TurnRow(sourceId: string, conversationId: string, turnId: string, firstMessageId: string,
      firstCreatedAt: Time)

  predicate EarlierIds(a: TurnRow, b: TurnRow) {
    || TextLess(a.conversationId, b.conversationId)
    || (a.conversationId == b.conversationId
        && (TextLess(a.firstMessageId, b.firstMessageId)
            || (a.firstMessageId == b.firstMessageId && TextLess(a.turnId, b.turnId))))
  }

  /** `ORDER BY first_created_at DESC, source_id, conversation_id, first_message_id, turn_id` */
  predicate NewestFirst(a: TurnRow, b: TurnRow) {
    || a.firstCreatedAt > b.firstCreatedAt
    || (a.firstCreatedAt == b.firstCreatedAt
        && (TextLess(a.sourceId, b.sourceId) || (a.sourceId == b.sourceId && EarlierIds(a, b))))
  }

  /** The same inside one source. */
  predicate NewestOfSource(a: TurnRow, b: TurnRow) {
    a.firstCreatedAt > b.firstCreatedAt || (a.firstCreatedAt == b.firstCreatedAt && EarlierIds(a, b))
  }

  lemma OrdersAreStrict()
    ensures Strict(NewestFirst) && Strict(NewestOfSource)
  {
    TextIsStrict();
  }

  /** The primary key, and turn ids that are unique inside a source. */
  ghost predicate Unique(rows: seq<TurnRow>) {
    forall i, j | 0 <= i < j < |rows| :: rows[i].sourceId != rows[j].sourceId || rows[i].turnId != rows[j].turnId
  }

  function Candidates(rows: seq<TurnRow>, sourceIds: seq<string>): seq<TurnRow> {
    if rows == [] then []
    else Candidates(rows[..|rows| - 1], sourceIds) + if Last(rows).sourceId in sourceIds then [Last(rows)] else []
  }

  function OfSource(rows: seq<TurnRow>, sourceId: string): seq<TurnRow> {
    Candidates(rows, [sourceId])
  }

  lemma {:induction false} CandidateRows(rows: seq<TurnRow>, sourceIds: seq<string>)
    ensures forall row :: row in Candidates(rows, sourceIds) <==> row in rows && row.sourceId in sourceIds
  {
    if rows != [] {
      CandidateRows(rows[..|rows| - 1], sourceIds);
      assert rows == rows[..|rows| - 1] + [Last(rows)];
    }
  }

  lemma {:induction false} CandidatesUnique(rows: seq<TurnRow>, sourceIds: seq<string>)
    requires Unique(rows)
    ensures Unique(Candidates(rows, sourceIds))
  {
    if rows != [] {
      var front := rows[..|rows| - 1];
      CandidatesUnique(front, sourceIds);
      CandidateRows(front, sourceIds);
      var found := Candidates(front, sourceIds);
      forall i | 0 <= i < |found|
          ensures found[i].sourceId != Last(rows).sourceId || found[i].turnId != Last(rows).turnId {
        assert found[i] in front;
        assert forall j | 0 <= j < |front| :: front[j] == rows[j];
      }
    }
  }

  lemma UniqueApart(rows: seq<TurnRow>)
    requires Unique(rows)
    ensures Apart(NewestFirst, rows)
  {
    TextIsStrict();
  }

  lemma UniqueApartInSource(rows: seq<TurnRow>, sourceId: string)
    requires Unique(rows)
    ensures Apart(NewestOfSource, OfSource(rows, sourceId))
  {
    var own := OfSource(rows, sourceId);
    CandidatesUnique(rows, [sourceId]);
    CandidateRows(rows, [sourceId]);
    TextIsStrict();
    assert forall i | 0 <= i < |own| :: own[i] in own && own[i].sourceId == sourceId;
  }

  function Top<T>(rows: seq<T>, n: nat): seq<T> {
    if |rows| <= n then rows else rows[..n]
  }

  // ---------------------------------------------------------------------------------------
  // Specification: by counting
  // ---------------------------------------------------------------------------------------

  /** Fewer than `limit` candidates are newer. */
  predicate Global(rows: seq<TurnRow>, sourceIds: seq<string>, limit: nat, row: TurnRow) {
    row.sourceId in sourceIds && CountBefore(NewestFirst, Candidates(rows, sourceIds), row) < limit
  }

  predicate Absent(rows: seq<TurnRow>, sourceIds: seq<string>, limit: nat, sourceId: string) {
    sourceId in sourceIds && (exists row | row in rows :: row.sourceId == sourceId)
    && forall row | row in rows && row.sourceId == sourceId :: !Global(rows, sourceIds, limit, row)
  }

  /** Fewer than `limit` turns of its own source are newer. */
  predicate Local(rows: seq<TurnRow>, limit: nat, row: TurnRow) {
    CountBefore(NewestOfSource, OfSource(rows, row.sourceId), row) < limit
  }

  predicate Chosen(rows: seq<TurnRow>, sourceIds: seq<string>, globalLimit: nat, absentLimit: nat, row: TurnRow) {
    || Global(rows, sourceIds, globalLimit, row)
    || (Absent(rows, sourceIds, globalLimit, row.sourceId) && Local(rows, absentLimit, row))
  }

  // ---------------------------------------------------------------------------------------
  // The three updates
  // ---------------------------------------------------------------------------------------

  lemma GlobalIsTop(rows: seq<TurnRow>, sourceIds: seq<string>, limit: nat, row: TurnRow)
    requires Unique(rows) && row in rows
    ensures row in Top(Sort(NewestFirst, Candidates(rows, sourceIds)), limit) <==> Global(rows, sourceIds, limit, row)
  {
    hide NewestFirst, Sort, CountBefore;
    var candidates := Candidates(rows, sourceIds);
    CandidateRows(rows, sourceIds);
    CandidatesUnique(rows, sourceIds);
    UniqueApart(candidates);
    OrdersAreStrict();
    SortKeeps(NewestFirst, candidates);
    var sorted := Sort(NewestFirst, candidates);
    assert forall x | x in Top(sorted, limit) :: x in sorted;
    if row in candidates {
      RankIsPosition(NewestFirst, candidates, limit, row);
      assert sorted[..|sorted|] == sorted;
    }
  }

  /** `turn_meta`; the `selected` column is kept beside the other columns. */
  class TurnMetaTable {
    const rows: seq<TurnRow>
    var selected: seq<bool>

    ghost predicate Valid()
      reads this
    {
      |selected| == |rows|
    }

    constructor (rows: seq<TurnRow>, selected: seq<bool>)
      requires |selected| == |rows|
      ensures Valid() && this.rows == rows && this.selected == selected
    {
      this.rows := rows;
      this.selected := selected;
    }

    method SelectInitialTurns(sourceIds: seq<string>, globalLimit: nat, absentSourceLimit: nat)
      requires Valid() && Unique(rows)
      modifies `selected
      ensures Valid()
      ensures forall i | 0 <= i < |rows| ::
                selected[i] == if rows[i].sourceId in sourceIds
                    then Chosen(rows, sourceIds, globalLimit, absentSourceLimit, rows[i])
                               else old(selected)[i]
    {
      hide Local, Candidates, CountBefore;
      if sourceIds == [] { return; }
      Deselect(sourceIds);
      SelectNewest(sourceIds, globalLimit);
      SelectAbsent(sourceIds, globalLimit, absentSourceLimit);
    }

    /** `UPDATE turn_meta SET selected = 0 WHERE source_id IN (...)` */
    method Deselect(sourceIds: seq<string>)
      requires Valid()
      modifies `selected
      ensures Valid()
      ensures forall i | 0 <= i < |rows| :: selected[i] == (rows[i].sourceId !in sourceIds && old(selected)[i])
    {
      for i := 0 to |rows|
        invariant Valid()
        invariant forall j | 0 <= j < i :: selected[j] == (rows[j].sourceId !in sourceIds && old(selected)[j])
        invariant forall j | i <= j < |rows| :: selected[j] == old(selected)[j]
      {
        if rows[i].sourceId in sourceIds { selected := selected[i := false]; }
      }
    }

    method SelectNewest(sourceIds: seq<string>, limit: nat)
      requires Valid() && Unique(rows)
      modifies `selected
      ensures Valid()
      ensures forall i | 0 <= i < |rows| :: selected[i] == (old(selected)[i] || Global(rows, sourceIds, limit, rows[i]))
    {
      hide Global, Sort, Candidates, Top;
      var newest := Top(Sort(NewestFirst, Candidates(rows, sourceIds)), limit);
      for i := 0 to |rows|
        invariant Valid()
        invariant forall j | 0 <= j < i :: selected[j] == (old(selected)[j] || Global(rows, sourceIds, limit, rows[j]))
        invariant forall j | i <= j < |rows| :: selected[j] == old(selected)[j]
      {
        GlobalIsTop(rows, sourceIds, limit, rows[i]);
        if rows[i] in newest { selected := selected[i := true]; }
      }
    }

    /** Sources with rows of which none is selected, and the rows with a small row number in them. */
    method SelectAbsent(sourceIds: seq<string>, globalLimit: nat, limit: nat)
      requires Valid() && Unique(rows)
      requires forall i | 0 <= i < |rows| && rows[i].sourceId in sourceIds ::
          selected[i] == Global(rows, sourceIds, globalLimit, rows[i])
      modifies `selected
      ensures Valid()
      ensures forall i | 0 <= i < |rows| ::
                selected[i] == (old(selected)[i]
                    || (Absent(rows, sourceIds, globalLimit, rows[i].sourceId) && Local(rows, limit, rows[i])))
    {
      hide Global, Local, Candidates;
      var grouped: set<string> := {};
      var present: set<string> := {};
      for i := 0 to |rows|
        invariant forall s :: s in grouped <==> s in sourceIds && exists j | 0 <= j < i :: rows[j].sourceId == s
        invariant forall s ::
            s in present <==> s in sourceIds && exists j | 0 <= j < i :: rows[j].sourceId == s && selected[j]
      {
        if rows[i].sourceId in sourceIds {
          grouped := grouped + {rows[i].sourceId};
          if selected[i] { present := present + {rows[i].sourceId}; }
        }
      }
      var absent := grouped - present;
      AbsentByFlags(rows, selected, sourceIds, globalLimit, absent, grouped, present);
      var ranked: set<(string, string)> := {};
      for i := 0 to |rows|
        invariant forall s, t ::
            (s, t) in ranked <==> exists j | 0 <= j < i ::
            rows[j].sourceId == s && rows[j].turnId == t && Local(rows, limit, rows[j])
      {
        if Local(rows, limit, rows[i]) { ranked := ranked + {(rows[i].sourceId, rows[i].turnId)}; }
      }
      for i := 0 to |rows|
        invariant Valid()
        invariant forall j | 0 <= j < i ::
                    selected[j] == (old(selected)[j]
                        || (Absent(rows, sourceIds, globalLimit, rows[j].sourceId) && Local(rows, limit, rows[j])))
        invariant forall j | i <= j < |rows| :: selected[j] == old(selected)[j]
      {
        if rows[i].sourceId in absent
            && (rows[i].sourceId, rows[i].turnId) in ranked { selected := selected[i := true]; }
      }
    }
  }

  lemma AbsentByFlags(rows: seq<TurnRow>, selected: seq<bool>, sourceIds: seq<string>, limit: nat,
                      absent: set<string>, grouped: set<string>, present: set<string>)
    requires |selected| == |rows| && absent == grouped - present
    requires forall i | 0 <= i < |rows| && rows[i].sourceId in sourceIds ::
        selected[i] == Global(rows, sourceIds, limit, rows[i])
    requires forall s :: s in grouped <==> s in sourceIds && exists j | 0 <= j < |rows| :: rows[j].sourceId == s
    requires forall s ::
        s in present <==> s in sourceIds && exists j | 0 <= j < |rows| :: rows[j].sourceId == s && selected[j]
    ensures forall s :: s in absent <==> Absent(rows, sourceIds, limit, s)
  {
  }

  // ---------------------------------------------------------------------------------------
  // What the selection is good for
  // ---------------------------------------------------------------------------------------

  lemma {:induction false} CountGrows(rows: seq<TurnRow>, u: TurnRow, t: TurnRow)
    requires NewestFirst(u, t)
    ensures CountBefore(NewestFirst, rows, u) <= CountBefore(NewestFirst, rows, t)
    ensures u in rows ==> CountBefore(NewestFirst, rows, u) < CountBefore(NewestFirst, rows, t)
  {
    hide NewestFirst;
    OrdersAreStrict();
    if rows != [] {
      CountGrows(rows[..|rows| - 1], u, t);
      assert rows == rows[..|rows| - 1] + [Last(rows)];
      assert NewestFirst(Last(rows), u) ==> NewestFirst(Last(rows), t);
    }
  }

  /** The global part is an initial segment of the order. */
  lemma GlobalIsInitialSegment(rows: seq<TurnRow>, sourceIds: seq<string>, limit: nat, u: TurnRow, t: TurnRow)
    requires Global(rows, sourceIds, limit, t) && NewestFirst(u, t) && u.sourceId in sourceIds
    ensures Global(rows, sourceIds, limit, u)
  {
    hide NewestFirst;
    CountGrows(Candidates(rows, sourceIds), u, t);
  }

  lemma {:induction false} CountGrowsInSource(rows: seq<TurnRow>, u: TurnRow, t: TurnRow)
    requires NewestOfSource(u, t)
    ensures CountBefore(NewestOfSource, rows, u) <= CountBefore(NewestOfSource, rows, t)
  {
    hide NewestOfSource;
    OrdersAreStrict();
    if rows != [] {
      CountGrowsInSource(rows[..|rows| - 1], u, t);
      assert NewestOfSource(Last(rows), u) ==> NewestOfSource(Last(rows), t);
    }
  }

  /** A globally selected turn starts no earlier than a candidate that was dropped; ties go by source first. */
  lemma SelectedStartNoEarlier(rows: seq<TurnRow>, sourceIds: seq<string>, limit: nat, kept: TurnRow, dropped: TurnRow)
    requires Global(rows, sourceIds, limit, kept)
    requires dropped.sourceId in sourceIds && !Global(rows, sourceIds, limit, dropped)
    ensures kept.firstCreatedAt >= dropped.firstCreatedAt
    ensures kept.firstCreatedAt == dropped.firstCreatedAt ==> !TextLess(dropped.sourceId, kept.sourceId)
    ensures kept.firstCreatedAt == dropped.firstCreatedAt && kept.sourceId == dropped.sourceId ==>
              NoLater(kept, dropped)
  {
    hide Global, EarlierIds, NoLater;
    NotEarlierIsNoLater(kept, dropped);
    if NewestFirst(dropped, kept) {
      GlobalIsInitialSegment(rows, sourceIds, limit, dropped, kept);
    }
  }

  function IdsOf(row: TurnRow): seq<string> {
    [row.conversationId, row.firstMessageId, row.turnId]
  }

  /** The first id that differs does not come later in the order of texts. */
  predicate NoLater(a: TurnRow, b: TurnRow) {
    forall k | 0 <= k < 3 && IdsOf(a)[..k] == IdsOf(b)[..k] :: !TextLess(IdsOf(b)[k], IdsOf(a)[k])
  }

  lemma NotEarlierIsNoLater(kept: TurnRow, dropped: TurnRow)
    ensures !EarlierIds(dropped, kept) ==> NoLater(kept, dropped)
  {
    hide TextLess;
    var a, b := IdsOf(kept), IdsOf(dropped);
    forall k | 0 <= k < 3 && a[..k] == b[..k] && !EarlierIds(dropped, kept) ensures !TextLess(b[k], a[k]) {
      if k >= 1 { SamePrefix(a, b, k, 0); }
      if k == 2 { SamePrefix(a, b, k, 1); }
    }
  }

  lemma SamePrefix<T>(a: seq<T>, b: seq<T>, k: nat, i: nat)
    requires i < k <= |a| && k <= |b| && a[..k] == b[..k]
    ensures a[i] == b[i]
  {
    assert a[..k][i] == b[..k][i];
  }

  /** Inside one source every kept turn starts no earlier than every dropped one. */
  lemma KeptStartNoEarlier(rows: seq<TurnRow>, sourceIds: seq<string>, globalLimit: nat, absentLimit: nat,
      kept: TurnRow, dropped: TurnRow)
    requires kept in rows && dropped in rows && kept.sourceId == dropped.sourceId && kept.sourceId in sourceIds
    requires Chosen(rows, sourceIds, globalLimit, absentLimit, kept)
    requires !Chosen(rows, sourceIds, globalLimit, absentLimit, dropped)
    ensures kept.firstCreatedAt >= dropped.firstCreatedAt
    ensures kept.firstCreatedAt == dropped.firstCreatedAt ==> NoLater(kept, dropped)
  {
    hide Candidates, CountBefore, EarlierIds, NoLater;
    NotEarlierIsNoLater(kept, dropped);
    if Global(rows, sourceIds, globalLimit, kept) {
      SelectedStartNoEarlier(rows, sourceIds, globalLimit, kept, dropped);
    } else if NewestOfSource(dropped, kept) {
      CountGrowsInSource(OfSource(rows, kept.sourceId), dropped, kept);
    }
  }

  /** The newest turn of a source. */
  lemma NewestTurn(rows: seq<TurnRow>, sourceId: string) returns (newest: TurnRow)
    requires Unique(rows) && exists row | row in rows :: row.sourceId == sourceId
    ensures newest in rows && newest.sourceId == sourceId
    ensures CountBefore(NewestOfSource, OfSource(rows, sourceId), newest) == 0
  {
    hide NewestOfSource, CountBefore, Sort, Candidates;
    var own := OfSource(rows, sourceId);
    CandidateRows(rows, [sourceId]);
    UniqueApartInSource(rows, sourceId);
    OrdersAreStrict();
    SortKeeps(NewestOfSource, own);
    SortAscends(NewestOfSource, own);
    var sorted := Sort(NewestOfSource, own);
    var row :| row in rows && row.sourceId == sourceId;
    assert row in own && |sorted| > 0;
    newest := sorted[0];
    assert newest in sorted;
    CountInAscending(NewestOfSource, sorted, 0);
    SortKeepsCount(NewestOfSource, own, newest);
  }

  /** A source that has turns keeps at least one of them. */
  lemma NoSourceIsStarved(rows: seq<TurnRow>, sourceIds: seq<string>, globalLimit: nat, absentLimit: nat,
      sourceId: string) returns (kept: TurnRow)
    requires Unique(rows) && sourceId in sourceIds && absentLimit >= 1
    requires exists row | row in rows :: row.sourceId == sourceId
    ensures kept in rows && kept.sourceId == sourceId && Chosen(rows, sourceIds, globalLimit, absentLimit, kept)
  {
    hide CountBefore, Candidates, NewestOfSource, NewestFirst, Global;
    if Absent(rows, sourceIds, globalLimit, sourceId) {
      kept := NewestTurn(rows, sourceId);
    } else {
      kept :| kept in rows && kept.sourceId == sourceId && Global(rows, sourceIds, globalLimit, kept);
    }
  }

  ghost function Members<T>(rows: seq<T>): set<T> {
    set x | x in rows
  }

  lemma {:induction false} AtMostLength<T>(rows: seq<T>)
    ensures |Members(rows)| <= |rows|
  {
    if rows == [] {
      assert Members(rows) == {};
    } else {
      AtMostLength(rows[..|rows| - 1]);
      assert rows == rows[..|rows| - 1] + [Last(rows)];
      assert Members(rows) == Members(rows[..|rows| - 1]) + {Last(rows)};
    }
  }

  ghost function ChosenRows(rows: seq<TurnRow>, sourceIds: seq<string>, globalLimit: nat,
      absentLimit: nat): set<TurnRow> {
    set row | row in rows && Chosen(rows, sourceIds, globalLimit, absentLimit, row)
  }

  ghost function AbsentSources(rows: seq<TurnRow>, sourceIds: seq<string>, limit: nat): set<string> {
    set s | s in sourceIds && Absent(rows, sourceIds, limit, s)
  }

  ghost function LocalRows(rows: seq<TurnRow>, sources: set<string>, limit: nat): set<TurnRow> {
    set row | row in rows && row.sourceId in sources && Local(rows, limit, row)
  }

  lemma LocalIsTop(rows: seq<TurnRow>, limit: nat, row: TurnRow)
    requires Unique(rows) && row in rows
    ensures Local(rows, limit, row) <==> row in Top(Sort(NewestOfSource, OfSource(rows, row.sourceId)), limit)
  {
    hide NewestOfSource, Sort, CountBefore, Candidates;
    var own := OfSource(rows, row.sourceId);
    CandidateRows(rows, [row.sourceId]);
    UniqueApartInSource(rows, row.sourceId);
    OrdersAreStrict();
    RankIsPosition(NewestOfSource, own, limit, row);
    var sorted := Sort(NewestOfSource, own);
    assert sorted[..|sorted|] == sorted;
  }

  /** At most `limit` turns of each source. */
  lemma {:induction false} LocalBound(rows: seq<TurnRow>, sources: set<string>, limit: nat)
    requires Unique(rows)
    ensures |LocalRows(rows, sources, limit)| <= limit * |sources|
    decreases |sources|
  {
    hide Local, LocalRows;
    if sources == {} {
      NoLocalRows(rows, limit);
    } else {
      var s :| s in sources;
      LocalBound(rows, sources - {s}, limit);
      LocalSplit(rows, sources, s, limit);
      OneMore(limit, |sources - {s}|);
    }
  }

  lemma NoLocalRows(rows: seq<TurnRow>, limit: nat)
    ensures LocalRows(rows, {}, limit) == {}
  {
  }

  lemma OneMore(limit: nat, n: nat)
    ensures limit * (n + 1) == limit * n + limit
  {
  }

  lemma LocalSplit(rows: seq<TurnRow>, sources: set<string>, s: string, limit: nat)
    requires Unique(rows)
    ensures |LocalRows(rows, sources, limit)| <= |LocalRows(rows, sources - {s}, limit)| + limit
  {
    hide Local, Sort, OfSource, NewestOfSource;
    var top := Top(Sort(NewestOfSource, OfSource(rows, s)), limit);
    AtMostLength(top);
    forall row | row in LocalRows(rows, sources, limit)
        ensures row in LocalRows(rows, sources - {s}, limit) + Members(top) {
      LocalIsTop(rows, limit, row);
    }
    Smaller(LocalRows(rows, sources, limit), LocalRows(rows, sources - {s}, limit), Members(top));
  }

  lemma Smaller<T>(all: set<T>, a: set<T>, b: set<T>)
    requires all <= a + b
    ensures |all| <= |a| + |b|
  {
    SubsetSize(all, a + b);
  }

  lemma {:induction false} SubsetSize<T>(a: set<T>, b: set<T>)
    requires a <= b
    ensures |a| <= |b|
  {
    assert b == a + (b - a);
  }

  /** No more than the global limit and the limit of each source that would have got nothing. */
  lemma SelectionIsBounded(rows: seq<TurnRow>, sourceIds: seq<string>, globalLimit: nat, absentLimit: nat)
    requires Unique(rows)
    ensures |ChosenRows(rows, sourceIds, globalLimit, absentLimit)|
            <= globalLimit + absentLimit * |AbsentSources(rows, sourceIds, globalLimit)|
  {
    hide Global, Local, Sort, Candidates;
    var absent := AbsentSources(rows, sourceIds, globalLimit);
    var top := Top(Sort(NewestFirst, Candidates(rows, sourceIds)), globalLimit);
    LocalBound(rows, absent, absentLimit);
    AtMostLength(top);
    var chosen := ChosenRows(rows, sourceIds, globalLimit, absentLimit);
    forall row | row in chosen ensures row in Members(top) + LocalRows(rows, absent, absentLimit) {
      GlobalIsTop(rows, sourceIds, globalLimit, row);
    }
    Smaller(chosen, Members(top), LocalRows(rows, absent, absentLimit));
  }

  lemma {:induction false} AscendingSize(less: (TurnRow, TurnRow) -> bool, rows: seq<TurnRow>)
    requires Strict(less) && Ascending(less, rows)
    ensures |Members(rows)| == |rows|
  {
    if rows == [] {
      assert Members(rows) == {};
    } else {
      var front := rows[..|rows| - 1];
      AscendingSize(less, front);
      assert rows == front + [Last(rows)];
      assert forall x | x in front :: less(x, Last(rows));
      assert Members(rows) == Members(front) + {Last(rows)};
    }
  }

  ghost function GlobalRows(rows: seq<TurnRow>, sourceIds: seq<string>, limit: nat): set<TurnRow> {
    set row | row in rows && Global(rows, sourceIds, limit, row)
  }

  /** The global limit is used up while there are candidates. */
  lemma GlobalIsFull(rows: seq<TurnRow>, sourceIds: seq<string>, limit: nat)
    requires Unique(rows)
    ensures var candidates := |Candidates(rows, sourceIds)|;
            |GlobalRows(rows, sourceIds, limit)| == if candidates < limit then candidates else limit
  {
    hide Global, Sort, Candidates, NewestFirst;
    var candidates := Candidates(rows, sourceIds);
    var sorted := Sort(NewestFirst, candidates);
    CandidateRows(rows, sourceIds);
    CandidatesUnique(rows, sourceIds);
    UniqueApart(candidates);
    OrdersAreStrict();
    SortKeeps(NewestFirst, candidates);
    SortAscends(NewestFirst, candidates);
    var top := Top(sorted, limit);
    forall row ensures row in GlobalRows(rows, sourceIds, limit) <==> row in Members(top) {
      if row in rows {
        GlobalIsTop(rows, sourceIds, limit, row);
      }
      assert row in top ==> row in sorted;
    }
    assert GlobalRows(rows, sourceIds, limit) == Members(top);
    AscendingSize(NewestFirst, top);
  }
}
