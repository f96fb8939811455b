/** The list of migrations and what it must satisfy (Migrations/src/registry.ts). */
module MigrationRegistry {
  import opened Wrappers
  import opened Text
  import opened MigrationState

  /** What the id pattern matches: the version text, its numbers, and the sequence number. */
  datatype ParsedId = ParsedId(versionText: string, version: seq<nat>, sequence: nat)

  type Parser = string -> Option<ParsedId>

  const TARGET_NAMES := {"agentWorkspace", "runtimeConfigFile", "sessionDagDir", "appDatabaseFile"}

  function Difference(left: seq<nat>, right: seq<nat>): int
    requires |left| == |right|
  {
    if left == [] then 0
    else if left[0] != right[0] then left[0] - right[0]
    else Difference(left[1..], right[1..])
  }

  function Order(left: ParsedId, right: ParsedId): int
    requires |left.version| == |right.version|
  {
    var difference := Difference(left.version, right.version);
    if difference != 0 then difference else left.sequence - right.sequence
  }

  method CompareOrder(left: ParsedId, right: ParsedId) returns (order: int)
    requires |left.version| == |right.version|
    ensures order == Order(left, right)
  {
    for index := 0 to |left.version|
      invariant Difference(left.version, right.version) == Difference(left.version[index..], right.version[index..])
    {
      var l: int, r: int := left.version[index], right.version[index];
      if l - r != 0 { return l - r; }
      assert left.version[index..][1..] == left.version[index + 1..]
          && right.version[index..][1..] == right.version[index + 1..];
    }
    return left.sequence - right.sequence;
  }

  lemma {:induction false} DifferenceIsOrder(a: seq<nat>, b: seq<nat>, c: seq<nat>)
    requires |a| == |b| == |c|
    ensures Difference(a, a) == 0
    ensures Difference(a, b) == 0 <==> a == b
    ensures Difference(a, b) <= 0 && Difference(b, c) <= 0 ==> Difference(a, c) <= 0
    ensures Difference(a, b) <= 0 && Difference(b, c) < 0 ==> Difference(a, c) < 0
    ensures Difference(a, b) < 0 && Difference(b, c) <= 0 ==> Difference(a, c) < 0
  {
    if a != [] {
      DifferenceIsOrder(a[1..], b[1..], c[1..]);
      assert a == [a[0]] + a[1..] && b == [b[0]] + b[1..];
    }
  }

  lemma OrderIsStrict(a: ParsedId, b: ParsedId, c: ParsedId)
    requires |a.version| == |b.version| == |c.version|
    ensures Order(a, a) == 0
    ensures Order(a, b) < 0 && Order(b, c) < 0 ==> Order(a, c) < 0
  {
    DifferenceIsOrder(a.version, b.version, c.version);
  }

  /** The first numbers that differ decide, and the sequence numbers when none do. */
  ghost predicate Precedes(a: ParsedId, b: ParsedId)
    requires |a.version| == |b.version|
  {
    || (exists k | 0 <= k < |a.version| :: a.version[..k] == b.version[..k] && a.version[k] < b.version[k])
    || (a.version == b.version && a.sequence < b.sequence)
  }

  lemma {:induction false} DifferenceIsFirst(a: seq<nat>, b: seq<nat>)
    requires |a| == |b|
    ensures Difference(a, b) < 0 <==> exists k | 0 <= k < |a| :: a[..k] == b[..k] && a[k] < b[k]
  {
    if a != [] {
      DifferenceIsFirst(a[1..], b[1..]);
      if a[0] < b[0] {
        assert a[..0] == b[..0];
      } else if a[0] == b[0] {
        if k :| 0 <= k < |a| - 1 && a[1..][..k] == b[1..][..k] && a[1..][k] < b[1..][k] {
          assert a[..k + 1] == [a[0]] + a[1..][..k] && b[..k + 1] == [b[0]] + b[1..][..k];
        }
        if k :| 0 <= k < |a| && a[..k] == b[..k] && a[k] < b[k] {
          assert a[1..][..k - 1] == a[..k][1..] && b[1..][..k - 1] == b[..k][1..];
        }
      } else {
        forall k | 0 < k < |a| ensures a[..k] != b[..k] {
          assert a[..k][0] == a[0] && b[..k][0] == b[0];
        }
      }
    }
  }

  lemma OrderIsByVersion(a: ParsedId, b: ParsedId)
    requires |a.version| == |b.version|
    ensures Order(a, b) < 0 <==> Precedes(a, b)
  {
    DifferenceIsFirst(a.version, b.version);
    DifferenceIsOrder(a.version, b.version, b.version);
    hide Difference;
    if a.version == b.version {
      assert forall k | 0 <= k < |a.version| :: !(a.version[k] < b.version[k]);
    }
  }

  /** The conditions on one entry alone. */
  predicate ValidEntry(parse: Parser, definition: Definition) {
    && !Blank(definition.id) && !Blank(definition.description)
    && (forall t | t in definition.requiredTargets :: t in TARGET_NAMES)
    && (forall i, j | 0 <= i < j < |definition.requiredTargets| ::
        definition.requiredTargets[i] != definition.requiredTargets[j])
    && parse(definition.id).Some?
    && parse(definition.id).value.versionText == definition.introducedIn
    && parse(definition.id).value.sequence != 0
  }

  /** The pattern always gives three numbers. */
  ghost predicate ThreeNumbers(parse: Parser) {
    forall id :: parse(id).Some? ==> |parse(id).value.version| == 3
  }

  ghost predicate ValidRegistry(parse: Parser, definitions: seq<Definition>)
    requires ThreeNumbers(parse)
  {
    && (forall i | 0 <= i < |definitions| :: ValidEntry(parse, definitions[i]))
    && (forall i, j | 0 <= i < j < |definitions| ::
          definitions[i].id != definitions[j].id
          && Order(parse(definitions[i].id).value, parse(definitions[j].id).value) < 0)
  }

  /** `validateMigrationRegistry`: neighbours are compared, and that orders every pair. */
  method ValidateMigrationRegistry(parse: Parser, definitions: seq<Definition>) returns (ok: bool)
    requires ThreeNumbers(parse)
    ensures ok <==> ValidRegistry(parse, definitions)
  {
    hide ValidEntry, Order;
    var ids: set<string> := {};
    var previous: Option<ParsedId> := None;
    for i := 0 to |definitions|
      invariant ValidRegistry(parse, definitions[..i])
      invariant ids == set d | d in definitions[..i] :: d.id
      invariant previous == if i == 0 then None else parse(definitions[i - 1].id)
      invariant i > 0 ==> previous.Some?
    {
      var definition := definitions[i];
      if definition.id in ids {
        var d :| d in definitions[..i] && d.id == definition.id;
        return false;
      }
      var valid := CheckEntry(parse, definition);
      if !valid { return false; }
      ids := ids + {definition.id};
      EntryParses(parse, definition);
      var current := parse(definition.id).value;
      if previous.Some? {
        var order := CompareOrder(previous.value, current);
        if order >= 0 { return false; }
      }
      Extend(parse, definitions, i);
      previous := Some(current);
    }
    assert definitions[..|definitions|] == definitions;
    return true;
  }

  method CheckEntry(parse: Parser, definition: Definition) returns (valid: bool)
    ensures valid == ValidEntry(parse, definition)
  {
    if Blank(definition.id) || Blank(definition.description) { return false; }
    var targets: set<string> := {};
    for i := 0 to |definition.requiredTargets|
      invariant targets == set t | t in definition.requiredTargets[..i]
      invariant forall j | 0 <= j < i :: definition.requiredTargets[j] in TARGET_NAMES
      invariant forall j, k | 0 <= j < k < i :: definition.requiredTargets[j] != definition.requiredTargets[k]
    {
      var target := definition.requiredTargets[i];
      if target !in TARGET_NAMES || target in targets { return false; }
      targets := targets + {target};
    }
    var id := parse(definition.id);
    return id.Some? && id.value.versionText == definition.introducedIn && id.value.sequence != 0;
  }

  lemma EntryParses(parse: Parser, definition: Definition)
    requires ValidEntry(parse, definition)
    ensures parse(definition.id).Some?
  {
  }

  lemma Extend(parse: Parser, definitions: seq<Definition>, i: nat)
    requires ThreeNumbers(parse) && i < |definitions| && ValidRegistry(parse, definitions[..i])
    requires ValidEntry(parse, definitions[i]) && forall d | d in definitions[..i] :: d.id != definitions[i].id
    requires i > 0 ==>
               && parse(definitions[i - 1].id).Some?
               && Order(parse(definitions[i - 1].id).value, parse(definitions[i].id).value) < 0
    ensures ValidRegistry(parse, definitions[..i + 1])
  {
    hide Order;
    var front, all := definitions[..i], definitions[..i + 1];
    assert all == front + [definitions[i]];
    forall a | 0 <= a < i
        ensures front[a].id != definitions[i].id
        && Order(parse(front[a].id).value, parse(definitions[i].id).value) < 0 {
      assert front[a] in front && ValidEntry(parse, front[a]) && ValidEntry(parse, front[i - 1]);
      if a < i - 1 {
        OrderIsStrict(parse(front[a].id).value, parse(front[i - 1].id).value, parse(definitions[i].id).value);
      }
    }
  }
}
