/**
 Folders by parent link (Knowledge/src/ui/folder-path.ts). The links come from outside and may
 form cycles, or lead to folders that do not exist.
 */
module FolderPath {
  import opened Wrappers

  datatype Folder = Folder(id: string, parentId: string, name: string)

  // ---------------------------------------------------------------------------------------
  // Upwards
  // ---------------------------------------------------------------------------------------

  /** A folder is stored under its own id. */
  ghost predicate ById(folderById: map<string, Folder>) {
    forall id | id in folderById :: folderById[id].id == id
  }

  /** From `startId` on, each folder is the parent of the one before it, and none comes twice. */
  ghost predicate IsChain(folderById: map<string, Folder>, startId: string, chain: seq<Folder>) {
    && (forall i | 0 <= i < |chain| ::
        chain[i].id != "" && chain[i].id in folderById && folderById[chain[i].id] == chain[i])
    && (chain != [] ==> chain[0].id == startId)
    && (forall i | 0 < i < |chain| :: chain[i].id == chain[i - 1].parentId)
    && (forall i, j | 0 <= i < j < |chain| :: chain[i].id != chain[j].id)
  }

  /** Where a chain goes on. */
  function NextId(startId: string, chain: seq<Folder>): string {
    if chain == [] then startId else Last(chain).parentId
  }

  /** The chain is as long as it can be: it ends at the root, at a missing folder, or before a folder it already has. */
  method FolderChain(folderById: map<string, Folder>, startId: string) returns (chain: seq<Folder>)
    requires ById(folderById)
    ensures IsChain(folderById, startId, chain)
    ensures var next := NextId(startId, chain);
            next == "" || next !in folderById || exists f | f in chain :: f.id == next
  {
    chain := [];
    var seen: set<string> := {};
    var cursor := startId;
    while cursor != ""
      invariant IsChain(folderById, startId, chain)
      invariant cursor == NextId(startId, chain)
      invariant seen == set f | f in chain :: f.id
      invariant seen <= folderById.Keys
      decreases folderById.Keys - seen
    {
      if cursor in seen { break; }
      if cursor !in folderById { break; }
      seen := seen + {cursor};
      chain := chain + [folderById[cursor]];
      cursor := folderById[cursor].parentId;
    }
  }

  // ---------------------------------------------------------------------------------------
  // Downwards
  // ---------------------------------------------------------------------------------------

  function ChildIds(folders: seq<Folder>, parent: string): seq<string> {
    if folders == [] then []
    else
      ChildIds(folders[..|folders| - 1], parent)
      + if Last(folders).parentId == parent then [Last(folders).id] else []
  }

  /** `id` is `n` links below a root, and every id on the way is non-empty. */
  ghost predicate Below(folders: seq<Folder>, rootIds: seq<string>, id: string, n: nat)
    decreases n
  {
    id != ""
    && if n == 0 then id in rootIds
       else exists f | f in folders :: f.id == id && Below(folders, rootIds, f.parentId, n - 1)
  }

  ghost predicate Reachable(folders: seq<Folder>, rootIds: seq<string>, id: string) {
    exists n: nat :: Below(folders, rootIds, id, n)
  }

  lemma {:induction false} ChildrenAreFolders(folders: seq<Folder>, parent: string)
    ensures forall id ::
        id in ChildIds(folders, parent) <==> exists f | f in folders :: f.id == id && f.parentId == parent
  {
    if folders != [] {
      ChildrenAreFolders(folders[..|folders| - 1], parent);
      assert folders == folders[..|folders| - 1] + [Last(folders)];
      assert forall f :: f in folders <==> f in folders[..|folders| - 1] || f == Last(folders);
    }
  }

  lemma ChildIsReachable(folders: seq<Folder>, rootIds: seq<string>, id: string, child: string)
    requires Reachable(folders, rootIds, id) && child in ChildIds(folders, id) && child != ""
    ensures Reachable(folders, rootIds, child)
  {
    ChildrenAreFolders(folders, id);
    var n: nat :| Below(folders, rootIds, id, n);
    assert Below(folders, rootIds, child, n + 1);
  }

  ghost predicate Distinct(ids: seq<string>) {
    forall i, j | 0 <= i < j < |ids| :: ids[i] != ids[j]
  }

  /** Children of all `ids` together. */
  function ChildCount(folders: seq<Folder>, ids: seq<string>): nat {
    if ids == [] then 0 else ChildCount(folders, ids[..|ids| - 1]) + |ChildIds(folders, Last(ids))|
  }

  lemma {:induction false} ChildCountSnoc(folders: seq<Folder>, folder: Folder, ids: seq<string>)
    requires Distinct(ids)
    ensures ChildCount(folders + [folder], ids) == ChildCount(folders, ids) + if folder.parentId in ids then 1 else 0
  {
    if ids != [] {
      assert (folders + [folder])[..|folders|] == folders;
      ChildCountSnoc(folders, folder, ids[..|ids| - 1]);
      assert ids == ids[..|ids| - 1] + [Last(ids)];
    }
  }

  /** A folder is the child of one id, so distinct ids have no more children than there are folders. */
  lemma {:induction false} ChildCountBound(folders: seq<Folder>, ids: seq<string>)
    requires Distinct(ids)
    ensures ChildCount(folders, ids) <= |folders|
  {
    if folders == [] {
      NoChildren(ids);
    } else {
      ChildCountBound(folders[..|folders| - 1], ids);
      ChildCountSnoc(folders[..|folders| - 1], Last(folders), ids);
      assert folders == folders[..|folders| - 1] + [Last(folders)];
    }
  }

  lemma {:induction false} NoChildren(ids: seq<string>)
    ensures ChildCount([], ids) == 0
  {
    if ids != [] {
      NoChildren(ids[..|ids| - 1]);
    }
  }

  ghost predicate GroupsChildren(children: map<string, seq<string>>, folders: seq<Folder>) {
    forall parent :: ChildIds(folders, parent) == if parent in children then children[parent] else []
  }

  lemma GroupOneMore(children: map<string, seq<string>>, folders: seq<Folder>, folder: Folder)
    requires GroupsChildren(children, folders)
    ensures var siblings := if folder.parentId in children then children[folder.parentId] else [];
            GroupsChildren(children[folder.parentId := siblings + [folder.id]], folders + [folder])
  {
  }

  method GroupByParent(folders: seq<Folder>) returns (children: map<string, seq<string>>)
    ensures GroupsChildren(children, folders)
  {
    children := map[];
    for i := 0 to |folders|
      invariant GroupsChildren(children, folders[..i])
    {
      GroupOneMore(children, folders[..i], folders[i]);
      assert folders[..i + 1] == folders[..i] + [folders[i]];
      var siblings := if folders[i].parentId in children then children[folders[i].parentId] else [];
      children := children[folders[i].parentId := siblings + [folders[i].id]];
    }
    assert folders[..|folders|] == folders;
  }

  /** Ids found, and ids still to look at. */
  ghost predicate Walk(folders: seq<Folder>, rootIds: seq<string>, found: seq<string>, stack: seq<string>) {
    && Distinct(found)
    && (forall id | id in found :: Reachable(folders, rootIds, id))
    && (forall id | id in stack && id != "" :: Reachable(folders, rootIds, id))
    && (forall id | id in rootIds && id != "" :: id in found || id in stack)
    && (forall id, child | id in found && child in ChildIds(folders, id) && child != "" ::
        child in found || child in stack)
  }

  lemma WalkSkips(folders: seq<Folder>, rootIds: seq<string>, found: seq<string>, stack: seq<string>)
    requires stack != [] && Walk(folders, rootIds, found, stack) && (Last(stack) == "" || Last(stack) in found)
    ensures Walk(folders, rootIds, found, stack[..|stack| - 1])
  {
  }

  lemma WalkExpands(folders: seq<Folder>, rootIds: seq<string>, found: seq<string>, stack: seq<string>,
      next: seq<string>)
    requires stack != [] && Walk(folders, rootIds, found, stack) && Last(stack) != "" && Last(stack) !in found
    requires forall id :: id in next <==> id in stack[..|stack| - 1] || id in ChildIds(folders, Last(stack))
    ensures Walk(folders, rootIds, found + [Last(stack)], next)
  {
    hide ChildIds, Reachable;
    var id := Last(stack);
    assert stack == stack[..|stack| - 1] + [id];
    forall child | child in ChildIds(folders, id) && child != "" ensures Reachable(folders, rootIds, child) {
      ChildIsReachable(folders, rootIds, id, child);
    }
    assert forall x :: x in found + [id] <==> x in found || x == id;
  }

  lemma {:induction false} WalkIsComplete(folders: seq<Folder>, rootIds: seq<string>, found: seq<string>, id: string,
      n: nat)
    requires Walk(folders, rootIds, found, []) && Below(folders, rootIds, id, n)
    ensures id in found
    decreases n
  {
    if n > 0 {
      var f :| f in folders && f.id == id && Below(folders, rootIds, f.parentId, n - 1);
      WalkIsComplete(folders, rootIds, found, f.parentId, n - 1);
      ChildrenAreFolders(folders, f.parentId);
    }
  }

  lemma WalkEnds(folders: seq<Folder>, rootIds: seq<string>, found: seq<string>)
    requires Walk(folders, rootIds, found, [])
    ensures forall id :: id in found <==> Reachable(folders, rootIds, id)
  {
    forall id | Reachable(folders, rootIds, id) ensures id in found {
      var n: nat :| Below(folders, rootIds, id, n);
      WalkIsComplete(folders, rootIds, found, id, n);
    }
  }

  /** Exactly the non-empty ids at or below the roots, once each, with at most one push per root and folder. */
  method DescendantFolderIds(folders: seq<Folder>, rootIds: seq<string>) returns (found: seq<string>, ghost pushes: nat)
    ensures Distinct(found)
    ensures forall id :: id in found <==> Reachable(folders, rootIds, id)
    ensures pushes <= |rootIds| + |folders|
  {
    hide Walk, ChildIds, Reachable;
    var children := GroupByParent(folders);
    found := [];
    var stack := rootIds;
    pushes := |rootIds|;
    ghost var pops := 0;
    WalkBegins(folders, rootIds);
    while stack != []
      invariant Walk(folders, rootIds, found, stack)
      invariant pushes == |rootIds| + ChildCount(folders, found) && pops + |stack| == pushes
          && pushes <= |rootIds| + |folders|
      decreases |rootIds| + |folders| - pops
    {
      ghost var before := stack;
      var id := Last(stack);
      stack := stack[..|stack| - 1];
      pops := pops + 1;
      if id == "" || id in found {
        WalkSkips(folders, rootIds, found, before);
        continue;
      }
      var nested := if id in children then children[id] else [];
      assert nested == ChildIds(folders, id);
      var i := |nested|;
      ghost var base := stack;
      while i > 0
        invariant 0 <= i <= |nested|
        invariant |stack| == |base| + |nested| - i
        invariant forall x :: x in stack <==> x in base || x in nested[i..]
      {
        i := i - 1;
        stack := stack + [nested[i]];
        assert nested[i..] == [nested[i]] + nested[i + 1..];
      }
      assert nested[0..] == nested;
      WalkExpands(folders, rootIds, found, before, stack);
      pushes := pushes + |nested|;
      assert (found + [id])[..|found|] == found;
      found := found + [id];
      WalkIsDistinct(folders, rootIds, found, stack);
      ChildCountBound(folders, found);
    }
    WalkIsDistinct(folders, rootIds, found, stack);
    WalkEnds(folders, rootIds, found);
  }

  lemma WalkBegins(folders: seq<Folder>, rootIds: seq<string>)
    ensures Walk(folders, rootIds, [], rootIds)
  {
    forall id | id in rootIds && id != "" ensures Reachable(folders, rootIds, id) {
      assert Below(folders, rootIds, id, 0);
    }
  }

  lemma WalkIsDistinct(folders: seq<Folder>, rootIds: seq<string>, found: seq<string>, stack: seq<string>)
    requires Walk(folders, rootIds, found, stack)
    ensures Distinct(found)
  {
  }

  // ---------------------------------------------------------------------------------------
  // Moving a folder
  // ---------------------------------------------------------------------------------------

  /** The `n`-th parent; an id without a folder has the parent "". */
  function Up(parents: map<string, string>, id: string, n: nat): string
    decreases n
  {
    if n == 0 then id else Up(parents, if id in parents then parents[id] else "", n - 1)
  }

  /** No folder is above itself. */
  ghost predicate Acyclic(parents: map<string, string>) {
    forall id, n: nat | id in parents && n > 0 :: Up(parents, id, n) != id
  }

  ghost predicate AtOrBelow(parents: map<string, string>, id: string, top: string) {
    exists n: nat :: Up(parents, id, n) == top
  }

  lemma {:induction false} UpAdds(parents: map<string, string>, id: string, m: nat, n: nat)
    ensures Up(parents, id, m + n) == Up(parents, Up(parents, id, m), n)
    decreases m
  {
    if m > 0 {
      UpAdds(parents, if id in parents then parents[id] else "", m - 1, n);
    }
  }

  lemma {:induction false} UpFromNothing(parents: map<string, string>, n: nat)
    requires "" !in parents
    ensures Up(parents, "", n) == ""
    decreases n
  {
    if n > 0 {
      UpFromNothing(parents, n - 1);
    }
  }

  ghost predicate AgreeExcept(a: map<string, string>, b: map<string, string>, id: string) {
    a.Keys == b.Keys && forall x | x in a && x != id :: a[x] == b[x]
  }

  /** Links that differ at one folder lead to that folder equally. */
  lemma {:induction false} SameUpTo(a: map<string, string>, b: map<string, string>, top: string, id: string, n: nat)
    requires AgreeExcept(a, b, top) && Up(a, id, n) == top
    ensures AtOrBelow(b, id, top)
    decreases n
  {
    if id == top {
      assert Up(b, id, 0) == top;
    } else {
      var parent := if id in a then a[id] else "";
      assert n > 0;
      SameUpTo(a, b, top, parent, n - 1);
      var m: nat :| Up(b, parent, m) == top;
      assert Up(b, id, m + 1) == top;
    }
  }

  lemma {:induction false} SameAway(a: map<string, string>, b: map<string, string>, top: string, id: string, n: nat)
    requires AgreeExcept(a, b, top) && forall i: nat | i < n :: Up(a, id, i) != top
    ensures Up(b, id, n) == Up(a, id, n)
    decreases n
  {
    if n > 0 {
      var parent := if id in a then a[id] else "";
      assert Up(a, id, 0) != top;
      forall i: nat | i < n - 1 ensures Up(a, parent, i) != top {
        assert Up(a, id, i + 1) == Up(a, parent, i);
      }
      SameAway(a, b, top, parent, n - 1);
    }
  }

  /** A cycle after the move goes through the moved folder, and so its new parent was at or below it. */
  lemma CycleNeedsDescendant(parents: map<string, string>, moved: string, destination: string, id: string, n: nat)
    requires Acyclic(parents) && moved in parents && id in parents && n > 0
    requires Up(parents[moved := destination], id, n) == id
    ensures AtOrBelow(parents, destination, moved)
  {
    var now := parents[moved := destination];
    if forall i: nat | i < n :: Up(now, id, i) != moved {
      SameAway(now, parents, moved, id, n);
    } else {
      var i: nat :| i < n && Up(now, id, i) == moved;
      UpAdds(now, id, i, n - i);
      UpAdds(now, moved, n - i, i);
      assert Up(now, moved, n) == moved;
      assert Up(now, destination, n - 1) == moved;
      SameUpTo(now, parents, moved, destination, n - 1);
    }
  }

  /** Moving a folder keeps the tree a tree exactly when the new parent is not at or below it. */
  lemma MoveKeepsAcyclic(parents: map<string, string>, moved: string, destination: string)
    requires Acyclic(parents) && moved in parents
    ensures Acyclic(parents[moved := destination]) <==> !AtOrBelow(parents, destination, moved)
  {
    var now := parents[moved := destination];
    if AtOrBelow(parents, destination, moved) {
      var n: nat :| Up(parents, destination, n) == moved;
      SameUpTo(parents, now, moved, destination, n);
      var m: nat :| Up(now, destination, m) == moved;
      assert Up(now, moved, m + 1) == moved;
    }
    if !Acyclic(now) {
      var id, n: nat :| id in now && n > 0 && Up(now, id, n) == id;
      CycleNeedsDescendant(parents, moved, destination, id, n);
    }
  }

  ghost predicate ProperIds(folders: seq<Folder>) {
    && (forall f | f in folders :: f.id != "")
    && (forall f, g | f in folders && g in folders && f.id == g.id :: f.parentId == g.parentId)
  }

  function Parents(folders: seq<Folder>): map<string, string> {
    if folders == [] then map[] else Parents(folders[..|folders| - 1])[Last(folders).id := Last(folders).parentId]
  }

  lemma {:induction false} ParentsOfFolders(folders: seq<Folder>)
    requires ProperIds(folders)
    ensures forall f | f in folders :: f.id in Parents(folders) && Parents(folders)[f.id] == f.parentId
    ensures forall id | id in Parents(folders) :: id != "" && exists f | f in folders :: f.id == id
  {
    if folders != [] {
      var front := folders[..|folders| - 1];
      assert folders == front + [Last(folders)];
      assert forall f | f in front :: f in folders;
      ParentsOfFolders(front);
    }
  }

  /** The ids found below a folder are those from which it is reached upwards. */
  lemma {:induction false} BelowIsUp(folders: seq<Folder>, top: string, id: string, n: nat)
    requires ProperIds(folders) && top != ""
    ensures Below(folders, [top], id, n) <==> Up(Parents(folders), id, n) == top
    decreases n
  {
    hide Parents;
    var parents := Parents(folders);
    ParentsOfFolders(folders);
    if n > 0 {
      if id in parents {
        BelowIsUp(folders, top, parents[id], n - 1);
      } else {
        UpFromNothing(parents, n - 1);
      }
    }
  }

  /**
   Every destination that is offered - the root, or a folder that is not banned - keeps the tree a
   tree; no other would.
   */
  lemma OfferedMovesAreSafe(folders: seq<Folder>, moved: string, destination: string)
    requires ProperIds(folders) && Acyclic(Parents(folders)) && moved in Parents(folders)
    ensures Acyclic(Parents(folders)[moved := destination]) <==> !Reachable(folders, [moved], destination)
  {
    var parents := Parents(folders);
    ParentsOfFolders(folders);
    MoveKeepsAcyclic(parents, moved, destination);
    if Reachable(folders, [moved], destination) {
      var n: nat :| Below(folders, [moved], destination, n);
      BelowIsUp(folders, moved, destination, n);
    }
    if AtOrBelow(parents, destination, moved) {
      var n: nat :| Up(parents, destination, n) == moved;
      BelowIsUp(folders, moved, destination, n);
    }
  }
}
