/**
 Reading the staged messages of one source back, page by page
 (Memory/src/agent-source/scan-store.ts `messages`, Memory/src/agent-source/runtime.ts `readScanPage`).
 Preparing and ingesting both read this way.
 */
module ScanPages {
  import opened Wrappers
  import opened SourceTurns
  import opened Ordering
  import opened ScanStore

  const PAGE_ROWS: nat := 500
  const PAGE_BYTES: nat := 8 * 1024 * 1024

  /** `ORDER BY conversation_id, created_at, message_id, ordinal` */
  predicate KeyLess(a: StagedRow, b: StagedRow) {
    var x, y := a.message, b.message;
    || TextLess(x.conversationId, y.conversationId)
    || (x.conversationId == y.conversationId
        && (x.createdAt < y.createdAt
            || (x.createdAt == y.createdAt
                && (TextLess(x.messageId, y.messageId) || (x.messageId == y.messageId && a.ordinal < b.ordinal)))))
  }

  lemma KeyIsStrict()
    ensures Strict(KeyLess)
  {
    TextIsStrict();
  }

  lemma RowsApart(rows: seq<StagedRow>, next: nat)
    requires Wellformed(rows, next)
    ensures Apart(KeyLess, rows)
  {
    TextIsStrict();
  }

  function After(rows: seq<StagedRow>, cursor: Option<StagedRow>): seq<StagedRow> {
    if rows == [] then []
    else
      After(rows[..|rows| - 1], cursor)
      + if cursor.None? || KeyLess(cursor.value, Last(rows)) then [Last(rows)] else []
  }

  function Bytes(size: ConversationMessage -> nat, rows: seq<StagedRow>): nat {
    if rows == [] then 0 else Bytes(size, rows[..|rows| - 1]) + size(Last(rows).message)
  }

  predicate Full(size: ConversationMessage -> nat, page: seq<StagedRow>) {
    |page| >= PAGE_ROWS || Bytes(size, page) >= PAGE_BYTES
  }

  /** A page ends where it first becomes full, or with the rows. */
  ghost predicate IsPage(size: ConversationMessage -> nat, ordered: seq<StagedRow>, page: seq<StagedRow>) {
    && page <= ordered
    && (page != ordered ==> Full(size, page))
    && forall n | 0 <= n < |page| :: !Full(size, page[..n])
  }

  method TakePage(size: ConversationMessage -> nat, ordered: seq<StagedRow>) returns (page: seq<StagedRow>)
    ensures IsPage(size, ordered, page)
  {
    page := [];
    var bytes := 0;
    for i := 0 to |ordered|
      invariant page == ordered[..i] && bytes == Bytes(size, page)
      invariant forall n | 0 <= n <= i :: !Full(size, ordered[..n])
    {
      page := page + [ordered[i]];
      bytes := bytes + size(ordered[i].message);
      assert page[..i] == ordered[..i];
      assert forall n | 0 <= n <= i :: page[..n] == ordered[..n];
      if |page| >= PAGE_ROWS || bytes >= PAGE_BYTES { return; }
      assert page == ordered[..i + 1];
    }
    assert forall n | 0 <= n < |page| :: page[..n] == ordered[..n];
  }

  /** A page has at most 500 rows, and only its last row may reach 8 MiB; it is short only at the end. */
  lemma PageIsBounded(size: ConversationMessage -> nat, ordered: seq<StagedRow>, page: seq<StagedRow>)
    requires IsPage(size, ordered, page)
    ensures |page| <= 500 && (page != [] ==> Bytes(size, page[..|page| - 1]) < 8_388_608)
    ensures page == ordered || |page| == 500 || Bytes(size, page) >= 8_388_608
  {
    if page != [] {
      assert !Full(size, page[..|page| - 1]);
    }
  }

  /** Conversations come in the order of their ids, and one conversation's rows in the order of time and id. */
  lemma RowsFollowKeys(rows: seq<StagedRow>, i: nat, j: nat)
    requires Apart(KeyLess, rows) && i < j < |Sort(KeyLess, rows)|
    ensures var x, y := Sort(KeyLess, rows)[i].message, Sort(KeyLess, rows)[j].message;
            && (TextLess(x.conversationId, y.conversationId) || x.conversationId == y.conversationId)
            && (x.conversationId == y.conversationId ==> x.createdAt <= y.createdAt)
            && (x.conversationId == y.conversationId && x.createdAt == y.createdAt ==>
                  TextLess(x.messageId, y.messageId) || x.messageId == y.messageId)
  {
    hide Sort;
    KeyIsStrict();
    TextIsStrict();
    SortAscends(KeyLess, rows);
    assert KeyLess(Sort(KeyLess, rows)[i], Sort(KeyLess, rows)[j]);
  }

  /** The store stops at the limits, and so does its reader, at the same row. */
  method ReadScanPage(size: ConversationMessage -> nat, rows: seq<StagedRow>, cursor: Option<StagedRow>)
      returns (page: seq<StagedRow>)
    ensures IsPage(size, Sort(KeyLess, After(rows, cursor)), page)
    ensures page == [] <==> After(rows, cursor) == []
  {
    var stored := TakePage(size, Sort(KeyLess, After(rows, cursor)));
    page := TakePage(size, stored);
    SamePage(size, Sort(KeyLess, After(rows, cursor)), stored, page);
    SortKeeps(KeyLess, After(rows, cursor));
    assert !Full(size, []);
  }

  lemma SamePage(size: ConversationMessage -> nat, ordered: seq<StagedRow>, stored: seq<StagedRow>,
      page: seq<StagedRow>)
    requires IsPage(size, ordered, stored) && IsPage(size, stored, page)
    ensures page == stored
  {
    hide Full;
    assert page == stored[..|page|];
    assert forall n | 0 <= n < |stored| && stored[..n] == page :: !Full(size, page);
  }

  lemma {:induction false} AfterMembers(rows: seq<StagedRow>, cursor: Option<StagedRow>)
    ensures forall row :: row in After(rows, cursor) <==> row in rows && (cursor.None? || KeyLess(cursor.value, row))
  {
    if rows != [] {
      AfterMembers(rows[..|rows| - 1], cursor);
      assert rows == rows[..|rows| - 1] + [Last(rows)];
    }
  }

  lemma {:induction false} AfterApart(rows: seq<StagedRow>, cursor: Option<StagedRow>)
    requires Apart(KeyLess, rows)
    ensures Apart(KeyLess, After(rows, cursor))
  {
    hide KeyLess;
    if rows != [] {
      AfterApart(rows[..|rows| - 1], cursor);
      AfterMembers(rows[..|rows| - 1], cursor);
      assert forall i | 0 <= i < |rows| - 1 :: KeyLess(rows[i], Last(rows)) || KeyLess(Last(rows), rows[i]);
      assert forall x | x in rows[..|rows| - 1] :: KeyLess(x, Last(rows)) || KeyLess(Last(rows), x);
    }
  }

  /** What follows a row of the order is the rest of the order. */
  lemma AfterIsRest(rows: seq<StagedRow>, i: nat)
    requires Apart(KeyLess, rows) && i < |Sort(KeyLess, rows)|
    ensures Sort(KeyLess, After(rows, Some(Sort(KeyLess, rows)[i]))) == Sort(KeyLess, rows)[i + 1..]
  {
    hide KeyLess, After, Sort;
    KeyIsStrict();
    var sorted := Sort(KeyLess, rows);
    var cursor := Some(sorted[i]);
    SortKeeps(KeyLess, rows);
    SortAscends(KeyLess, rows);
    AfterMembers(rows, cursor);
    AfterApart(rows, cursor);
    SortKeeps(KeyLess, After(rows, cursor));
    SortAscends(KeyLess, After(rows, cursor));
    forall row ensures row in sorted[i + 1..] <==> row in sorted && KeyLess(sorted[i], row) {
      RestMembers(sorted, i, row);
    }
    AscendingUnique(KeyLess, Sort(KeyLess, After(rows, cursor)), sorted[i + 1..]);
  }

  lemma RestMembers(sorted: seq<StagedRow>, i: nat, row: StagedRow)
    requires Strict(KeyLess) && Ascending(KeyLess, sorted) && i < |sorted|
    ensures row in sorted[i + 1..] <==> row in sorted && KeyLess(sorted[i], row)
  {
  }

  lemma AllAfterNone(rows: seq<StagedRow>)
    ensures After(rows, None) == rows
  {
  }

  /** Reading pages until one is empty gives every row once, in order. */
  method ReadAllPages(size: ConversationMessage -> nat, rows: seq<StagedRow>, ghost next: nat)
      returns (all: seq<StagedRow>)
    requires Wellformed(rows, next)
    ensures all == Sort(KeyLess, rows)
  {
    hide KeyLess, After, Sort, Full, Wellformed;
    RowsApart(rows, next);
    AllAfterNone(rows);
    ghost var sorted := Sort(KeyLess, rows);
    all := [];
    var cursor: Option<StagedRow> := None;
    while true
      invariant all <= sorted
      invariant Sort(KeyLess, After(rows, cursor)) == sorted[|all|..]
      decreases |sorted| - |all|
    {
      var page := ReadScanPage(size, rows, cursor);
      SortKeeps(KeyLess, After(rows, cursor));
      if page == [] { break; }
      assert all + page <= sorted by {
        assert sorted == all + sorted[|all|..];
      }
      all := all + page;
      cursor := Some(Last(page));
      assert Last(page) == sorted[|all| - 1];
      AfterIsRest(rows, |all| - 1);
    }
    assert |sorted[|all|..]| == 0;
  }
}
