/**
 The file that says which migrations were applied (Migrations/src/state-store.ts): validating what
 was read, and identifying a migration together with the target it was applied to.
 */
module MigrationState {
  import opened Wrappers
  import opened Text

  datatype Json =
    | JNull | JBool(flag: bool) | JNumber(number: int) | JString(text: string)
    | JArray(items: seq<Json>) | JObject(fields: map<string, Json>)

  datatype Scope = AgentWorkspace | RuntimeConfig | SessionDag

  datatype Target = WorkspaceTarget | ConfigTarget(key: string) | DagTarget(key: string)

  datatype Record = Record(id: string, introducedIn: string, appliedAt: string, target: Target)

  /** What a registry entry says; `up` is not part of it. */
  datatype Definition = Definition(id: string, introducedIn: string, scope: Scope, description: string,
      requiredTargets: seq<string>)

  const FORMAT_VERSION := 2

  function ScopeOf(target: Target): Scope {
    match target
    case WorkspaceTarget => AgentWorkspace
    case ConfigTarget(_) => RuntimeConfig
    case DagTarget(_) => SessionDag
  }

  // ---------------------------------------------------------------------------------------
  // Identity
  // ---------------------------------------------------------------------------------------

  predicate IsHex(c: char) {
    'a' <= c <= 'f' || '0' <= c <= '9'
  }

  /** `/^[a-f0-9]{64}$/` */
  predicate IsSha256(key: string) {
    |key| == 64 && forall i | 0 <= i < 64 :: IsHex(key[i])
  }

  predicate ValidTarget(target: Target) {
    target.WorkspaceTarget? || IsSha256(target.key)
  }

  function RecordIdentity(id: string, target: Target): string {
    match target
    case WorkspaceTarget => id + ":agent-workspace"
    case ConfigTarget(key) => id + ":runtime-config:" + key
    case DagTarget(key) => id + ":session-dag:" + key
  }

  lemma Suffix(front: string, back: string, n: nat)
    requires 1 <= n <= |back|
    ensures (front + back)[|front + back| - n] == back[|back| - n]
  {
  }

  lemma KeyedSuffix(id: string, middle: string, key: string, n: nat)
    requires 1 <= n <= |middle|
    ensures var s := id + middle + key;
            |s| >= |key| + n && s[|s| - |key| - n] == middle[|middle| - n] && s[|s| - |key|..] == key
                && s[..|s| - |key| - |middle|] == id
  {
  }

  lemma WorkspaceIsNotKeyed(a: string, b: string, middle: string, key: string)
    requires IsSha256(key)
    ensures a + ":agent-workspace" != b + middle + key
  {
    Suffix(a, ":agent-workspace", 10);
    Suffix(b + middle, key, 10);
    assert IsHex(key[54]) && !IsHex('-');
  }

  lemma ConfigIsNotDag(a: string, b: string, k: string, l: string)
    requires |k| == |l|
    ensures a + ":runtime-config:" + k != b + ":session-dag:" + l
  {
    KeyedSuffix(a, ":runtime-config:", k, 3);
    KeyedSuffix(b, ":session-dag:", l, 3);
  }

  /** An identity stands for one migration and one target. */
  lemma IdentityIsInjective(a: string, target: Target, b: string, other: Target)
    requires ValidTarget(target) && ValidTarget(other)
    ensures RecordIdentity(a, target) == RecordIdentity(b, other) <==> a == b && target == other
  {
    if RecordIdentity(a, target) == RecordIdentity(b, other) {
      match (target, other) {
        case (WorkspaceTarget, WorkspaceTarget) =>
          assert a == (a + ":agent-workspace")[..|a + ":agent-workspace"| - 16];
          assert b == (b + ":agent-workspace")[..|b + ":agent-workspace"| - 16];
        case (ConfigTarget(k), ConfigTarget(l)) =>
          KeyedSuffix(a, ":runtime-config:", k, 1);
          KeyedSuffix(b, ":runtime-config:", l, 1);
        case (DagTarget(k), DagTarget(l)) =>
          KeyedSuffix(a, ":session-dag:", k, 1);
          KeyedSuffix(b, ":session-dag:", l, 1);
        case (WorkspaceTarget, ConfigTarget(k)) => WorkspaceIsNotKeyed(a, b, ":runtime-config:", k);
        case (WorkspaceTarget, DagTarget(k)) => WorkspaceIsNotKeyed(a, b, ":session-dag:", k);
        case (ConfigTarget(k), WorkspaceTarget) => WorkspaceIsNotKeyed(b, a, ":runtime-config:", k);
        case (DagTarget(k), WorkspaceTarget) => WorkspaceIsNotKeyed(b, a, ":session-dag:", k);
        case (ConfigTarget(k), DagTarget(l)) => ConfigIsNotDag(a, b, k, l);
        case (DagTarget(k), ConfigTarget(l)) => ConfigIsNotDag(b, a, l, k);
      }
    }
  }

  // ---------------------------------------------------------------------------------------
  // Validation
  // ---------------------------------------------------------------------------------------

  predicate HasOnlyKeys(fields: map<string, Json>, expected: set<string>) {
    fields.Keys == expected
  }

  function TextField(fields: map<string, Json>, key: string): Option<string> {
    if key in fields && fields[key].JString? then Some(fields[key].text) else None
  }

  function ValidateTarget(value: Json): Option<Target> {
    if !value.JObject? || TextField(value.fields, "type").None? then None
    else
      var kind, key := TextField(value.fields, "type").value, TextField(value.fields, "key");
      if kind == "agent-workspace" && HasOnlyKeys(value.fields, {"type"}) then Some(WorkspaceTarget)
      else if !HasOnlyKeys(value.fields, {"type", "key"}) || key.None? || !IsSha256(key.value) then None
      else if kind == "runtime-config" then Some(ConfigTarget(key.value))
      else if kind == "session-dag" then Some(DagTarget(key.value))
      else None
  }

  /** `definitions.get(id)` of a map filled in order. */
  function Known(definitions: seq<Definition>, id: string): Option<Definition> {
    if definitions == [] then None
    else if Last(definitions).id == id then Some(Last(definitions))
    else Known(definitions[..|definitions| - 1], id)
  }

  predicate MatchesRegistry(definitions: seq<Definition>, record: Record) {
    var known := Known(definitions, record.id);
    known.None? || (known.value.introducedIn == record.introducedIn && known.value.scope == ScopeOf(record.target))
  }

  /** `isUtc` says that a text is the canonical form of a point in time. */
  function ValidateRecord(isUtc: string -> bool, definitions: seq<Definition>, legacy: bool,
      value: Json): Option<Record> {
    if !value.JObject? then None
    else
      var fields := value.fields;
      var expected := if legacy then {"id", "introducedIn", "appliedAt"}
          else {"id", "introducedIn", "appliedAt", "target"};
      if !HasOnlyKeys(fields, expected) then None
      else
        var id, introducedIn, appliedAt :=
            TextField(fields, "id"), TextField(fields, "introducedIn"), TextField(fields, "appliedAt");
        if id.None? || Blank(id.value) || introducedIn.None? || appliedAt.None? || !isUtc(appliedAt.value) then None
        else
          var target := if legacy then Some(WorkspaceTarget) else ValidateTarget(fields["target"]);
          if target.None? then None
          else
            var record := Record(id.value, introducedIn.value, appliedAt.value, target.value);
            if MatchesRegistry(definitions, record) then Some(record) else None
  }

  function Identity(record: Record): string {
    RecordIdentity(record.id, record.target)
  }

  function Identities(records: seq<Record>): set<string> {
    set r | r in records :: Identity(r)
  }

  function ValidateRecords(isUtc: string -> bool, definitions: seq<Definition>, legacy: bool,
      values: seq<Json>): Option<seq<Record>> {
    if values == [] then Some([])
    else
      var front := ValidateRecords(isUtc, definitions, legacy, values[..|values| - 1]);
      var last := ValidateRecord(isUtc, definitions, legacy, Last(values));
      if front.None? || last.None? || Identity(last.value) in Identities(front.value) then None
      else Some(front.value + [last.value])
  }

  method ValidateAppliedRecords(isUtc: string -> bool, definitions: seq<Definition>, legacy: bool, values: seq<Json>)
    returns (applied: Option<seq<Record>>)
    ensures applied == ValidateRecords(isUtc, definitions, legacy, values)
  {
    hide ValidateRecord, Identity;
    var identities: set<string> := {};
    var records: seq<Record> := [];
    for i := 0 to |values|
      invariant ValidateRecords(isUtc, definitions, legacy, values[..i]) == Some(records)
          && identities == Identities(records)
    {
      assert values[..i + 1][..i] == values[..i];
      var record := ValidateRecord(isUtc, definitions, legacy, values[i]);
      if record.None? || Identity(record.value) in identities {
        StaysRefused(isUtc, definitions, legacy, values, i + 1);
        return None;
      }
      identities := identities + {Identity(record.value)};
      records := records + [record.value];
    }
    assert values[..|values|] == values;
    return Some(records);
  }

  lemma {:induction false} StaysRefused(isUtc: string -> bool, definitions: seq<Definition>, legacy: bool,
      values: seq<Json>, n: nat)
    requires n <= |values| && ValidateRecords(isUtc, definitions, legacy, values[..n]).None?
    ensures ValidateRecords(isUtc, definitions, legacy, values).None?
  {
    if n == |values| {
      assert values[..n] == values;
    } else {
      assert values[..|values| - 1][..n] == values[..n];
      StaysRefused(isUtc, definitions, legacy, values[..|values| - 1], n);
    }
  }

  /** `validateMigrationState` */
  function ValidateState(isUtc: string -> bool, definitions: seq<Definition>, value: Json): Option<seq<Record>> {
    if !value.JObject? || !HasOnlyKeys(value.fields, {"formatVersion", "scope", "applied"}) then None
    else if value.fields["scope"] != JString("agent-workspace") || !value.fields["applied"].JArray? then None
    else
      var values := value.fields["applied"].items;
      if value.fields["formatVersion"] == JNumber(1) then ValidateRecords(isUtc, definitions, true, values)
      else if value.fields["formatVersion"] != JNumber(FORMAT_VERSION) then None
      else ValidateRecords(isUtc, definitions, false, values)
  }

  // ---------------------------------------------------------------------------------------
  // Writing, and reading it back
  // ---------------------------------------------------------------------------------------

  function PrintTarget(target: Target): Json {
    match target
    case WorkspaceTarget => JObject(map["type" := JString("agent-workspace")])
    case ConfigTarget(key) => JObject(map["type" := JString("runtime-config"), "key" := JString(key)])
    case DagTarget(key) => JObject(map["type" := JString("session-dag"), "key" := JString(key)])
  }

  function PrintRecord(record: Record): Json {
    JObject(map["id" := JString(record.id), "introducedIn" := JString(record.introducedIn),
                "appliedAt" := JString(record.appliedAt), "target" := PrintTarget(record.target)])
  }

  function PrintRecords(records: seq<Record>): seq<Json> {
    seq(|records|, i requires 0 <= i < |records| => PrintRecord(records[i]))
  }

  function PrintState(records: seq<Record>): Json {
    JObject(map["formatVersion" := JNumber(FORMAT_VERSION), "scope" := JString("agent-workspace"),
        "applied" := JArray(PrintRecords(records))])
  }

  predicate ValidRecord(isUtc: string -> bool, definitions: seq<Definition>, record: Record) {
    !Blank(record.id) && isUtc(record.appliedAt) && ValidTarget(record.target) && MatchesRegistry(definitions, record)
  }

  /** What a state must be for the code to read it back. */
  ghost predicate ValidRecords(isUtc: string -> bool, definitions: seq<Definition>, records: seq<Record>) {
    && (forall i | 0 <= i < |records| :: ValidRecord(isUtc, definitions, records[i]))
    && (forall i, j | 0 <= i < j < |records| ::
        records[i].id != records[j].id || records[i].target != records[j].target)
  }

  /** The one that counts when several definitions have the same id. */
  ghost predicate IsLastOf(definitions: seq<Definition>, id: string, i: nat) {
    i < |definitions| && definitions[i].id == id && forall k | i < k < |definitions| :: definitions[k].id != id
  }

  /** A record of a known migration has its version, and a target of its scope. */
  ghost predicate AgreesWithRegistry(definitions: seq<Definition>, record: Record) {
    forall i | 0 <= i < |definitions| && IsLastOf(definitions, record.id, i) ::
      && definitions[i].introducedIn == record.introducedIn
      && (definitions[i].scope == AgentWorkspace <==> record.target.WorkspaceTarget?)
      && (definitions[i].scope == RuntimeConfig <==> record.target.ConfigTarget?)
      && (definitions[i].scope == SessionDag <==> record.target.DagTarget?)
  }

  lemma LastOfMore(definitions: seq<Definition>, id: string, i: nat)
    requires definitions != []
    ensures IsLastOf(definitions, id, i)
        <==> if Last(definitions).id == id then i == |definitions| - 1
             else IsLastOf(definitions[..|definitions| - 1], id, i)
  {
  }

  lemma {:induction false} KnownIsLast(definitions: seq<Definition>, id: string, i: nat)
    ensures IsLastOf(definitions, id, i) ==> Known(definitions, id) == Some(definitions[i])
  {
    if definitions != [] {
      LastOfMore(definitions, id, i);
      KnownIsLast(definitions[..|definitions| - 1], id, i);
    }
  }

  lemma {:induction false} KnownIsThere(definitions: seq<Definition>, id: string) returns (i: nat)
    ensures Known(definitions, id).Some? ==>
              i < |definitions| && IsLastOf(definitions, id, i) && Known(definitions, id) == Some(definitions[i])
  {
    i := 0;
    if definitions != [] {
      i := KnownIsThere(definitions[..|definitions| - 1], id);
      i := if Last(definitions).id == id then |definitions| - 1 else i;
      LastOfMore(definitions, id, i);
    }
  }

  /** What validation demands of a record whose migration the registry has. */
  lemma MatchesExactly(definitions: seq<Definition>, record: Record)
    ensures MatchesRegistry(definitions, record) <==> AgreesWithRegistry(definitions, record)
  {
    hide Known, IsLastOf;
    var i := KnownIsThere(definitions, record.id);
    forall k | 0 <= k < |definitions| && IsLastOf(definitions, record.id, k)
        ensures Known(definitions, record.id) == Some(definitions[k]) {
      KnownIsLast(definitions, record.id, k);
    }
  }

  lemma TargetRoundTrip(target: Target)
    ensures ValidateTarget(PrintTarget(target)) == if ValidTarget(target) then Some(target) else None
  {
  }

  lemma RecordRoundTrip(isUtc: string -> bool, definitions: seq<Definition>, record: Record)
    ensures ValidateRecord(isUtc, definitions, false, PrintRecord(record))
            == if ValidRecord(isUtc, definitions, record) then Some(record) else None
  {
    hide ValidateTarget, PrintTarget, Blank, MatchesRegistry;
    TargetRoundTrip(record.target);
    assert PrintRecord(record).fields.Keys == {"id", "introducedIn", "appliedAt", "target"};
  }

  lemma ValidatedIsValid(isUtc: string -> bool, definitions: seq<Definition>, legacy: bool, value: Json)
    ensures var record := ValidateRecord(isUtc, definitions, legacy, value);
            record.Some? ==> ValidRecord(isUtc, definitions, record.value)
  {
  }

  /** Everything that validation accepts satisfies the conditions. */
  lemma {:induction false} ValidatedAreValid(isUtc: string -> bool, definitions: seq<Definition>, legacy: bool,
      values: seq<Json>)
    ensures var records := ValidateRecords(isUtc, definitions, legacy, values);
            records.Some? ==> ValidRecords(isUtc, definitions, records.value)
  {
    hide ValidateRecord, ValidRecord;
    if values != [] {
      ValidatedAreValid(isUtc, definitions, legacy, values[..|values| - 1]);
      ValidatedIsValid(isUtc, definitions, legacy, Last(values));
      var front := ValidateRecords(isUtc, definitions, legacy, values[..|values| - 1]);
      var last := ValidateRecord(isUtc, definitions, legacy, Last(values));
      if front.Some? && last.Some? && Identity(last.value) !in Identities(front.value) {
        NewIdentity(front.value, last.value);
      }
    }
  }

  lemma NewIdentity(records: seq<Record>, record: Record)
    requires Identity(record) !in Identities(records)
    ensures forall i | 0 <= i < |records| :: records[i].id != record.id || records[i].target != record.target
  {
    assert forall i | 0 <= i < |records| :: Identity(records[i]) in Identities(records);
  }

  lemma OtherIdentity(isUtc: string -> bool, definitions: seq<Definition>, records: seq<Record>, record: Record)
    requires forall i | 0 <= i < |records| :: ValidRecord(isUtc, definitions, records[i])
    requires ValidRecord(isUtc, definitions, record)
    ensures Identity(record) in Identities(records) <==> exists r | r in records ::
        r.id == record.id && r.target == record.target
  {
    forall r | r in records
        ensures Identity(r) == Identity(record) <==> r.id == record.id && r.target == record.target {
      IdentityIsInjective(r.id, r.target, record.id, record.target);
    }
  }

  /** A state that satisfies the conditions reads back as itself. */
  lemma {:induction false} RecordsRoundTrip(isUtc: string -> bool, definitions: seq<Definition>, records: seq<Record>)
    requires ValidRecords(isUtc, definitions, records)
    ensures ValidateRecords(isUtc, definitions, false, PrintRecords(records)) == Some(records)
  {
    hide ValidateRecord, ValidRecord, PrintRecord, Identity;
    if records != [] {
      var front, last := records[..|records| - 1], Last(records);
      RecordsRoundTrip(isUtc, definitions, front);
      RecordRoundTrip(isUtc, definitions, last);
      OtherIdentity(isUtc, definitions, front, last);
      assert PrintRecords(records)[..|records| - 1] == PrintRecords(front);
      assert forall r | r in front :: r.id != last.id || r.target != last.target;
      assert records == front + [last];
    }
  }

  /** Every state that validation ever produced, and only such a state, reads back as itself. */
  lemma StateRoundTrip(isUtc: string -> bool, definitions: seq<Definition>, records: seq<Record>)
    ensures ValidateState(isUtc, definitions, PrintState(records)) == Some(records)
        <==> ValidRecords(isUtc, definitions, records)
  {
    hide ValidateRecords, PrintRecords;
    var printed := PrintState(records);
    assert printed.fields.Keys == {"formatVersion", "scope", "applied"};
    ValidatedAreValid(isUtc, definitions, false, PrintRecords(records));
    if ValidRecords(isUtc, definitions, records) {
      RecordsRoundTrip(isUtc, definitions, records);
    }
  }

  // ---------------------------------------------------------------------------------------
  // Targets
  // ---------------------------------------------------------------------------------------

  /** The resolved paths of one run, and the hash. */
  datatype Paths = Paths(runtimeConfigFile: string, sessionDagDir: string, appDatabaseFile: Option<string>,
      sha256: string -> string)

  ghost predicate HashIsSha256(paths: Paths) {
    forall text :: IsSha256(paths.sha256(text))
  }

  /** `migrationTargetFor` */
  function TargetFor(definition: Definition, paths: Paths): Target {
    match definition.scope
    case AgentWorkspace => WorkspaceTarget
    case RuntimeConfig =>
      var runtimeKey := paths.sha256(paths.runtimeConfigFile);
      ConfigTarget(
        if "appDatabaseFile" in definition.requiredTargets && paths.appDatabaseFile.Some?
        then paths.sha256(runtimeKey + "\0" + paths.appDatabaseFile.value) else runtimeKey)
    case SessionDag => DagTarget(paths.sha256(paths.sessionDagDir))
  }

  lemma TargetForIsValid(definition: Definition, paths: Paths)
    requires HashIsSha256(paths)
    ensures ValidTarget(TargetFor(definition, paths)) && ScopeOf(TargetFor(definition, paths)) == definition.scope
  {
  }

  /** Everything that is hashed for a target; a path has no NUL. */
  function Hashed(paths: Paths): set<string> {
    {paths.runtimeConfigFile, paths.sessionDagDir}
    + if paths.appDatabaseFile.None? then {}
      else {paths.sha256(paths.runtimeConfigFile) + "\0" + paths.appDatabaseFile.value}
  }

  ghost predicate NoCollision(sha256: string -> string, texts: set<string>) {
    forall x, y | x in texts && y in texts && sha256(x) == sha256(y) :: x == y
  }

  /** A target names the paths that the migration is about: it is the same for two runs exactly when they are. */
  lemma TargetNamesPaths(definition: Definition, a: Paths, b: Paths)
    requires a.sha256 == b.sha256 && HashIsSha256(a) && NoCollision(a.sha256, Hashed(a) + Hashed(b))
    requires '\0' !in a.runtimeConfigFile && '\0' !in b.runtimeConfigFile
    ensures var database := "appDatabaseFile" in definition.requiredTargets;
            TargetFor(definition, a) == TargetFor(definition, b)
            <==> match definition.scope
                 case AgentWorkspace => true
                 case SessionDag => a.sessionDagDir == b.sessionDagDir
                 case RuntimeConfig =>
                   a.runtimeConfigFile == b.runtimeConfigFile
                   && (database ==> a.appDatabaseFile == b.appDatabaseFile)
  {
    var x, y := a.sha256(a.runtimeConfigFile), a.sha256(b.runtimeConfigFile);
    assert |x| == |y| == 64 by { assert IsSha256(x) && IsSha256(y); }
    if a.appDatabaseFile.Some? {
      KeyedText(x, a.appDatabaseFile.value);
    }
    if b.appDatabaseFile.Some? {
      KeyedText(y, b.appDatabaseFile.value);
    }
  }

  lemma KeyedText(key: string, path: string)
    requires |key| == 64
    ensures var text := key + "\0" + path; '\0' in text && |text| >= 65 && text[..64] == key && text[65..] == path
  {
    assert (key + "\0" + path)[64] == '\0';
  }

  predicate IsApplied(records: seq<Record>, definition: Definition, paths: Paths) {
    exists r | r in records :: Identity(r) == RecordIdentity(definition.id, TargetFor(definition, paths))
  }

  /** A migration counts as applied exactly when it is recorded for the target of this run. */
  lemma AppliedMeansRecorded(isUtc: string -> bool, definitions: seq<Definition>, records: seq<Record>,
      definition: Definition, paths: Paths)
    requires ValidRecords(isUtc, definitions, records) && HashIsSha256(paths)
    ensures IsApplied(records, definition, paths)
            <==> exists r | r in records :: r.id == definition.id && r.target == TargetFor(definition, paths)
  {
    TargetForIsValid(definition, paths);
    forall r | r in records ensures Identity(r) == RecordIdentity(definition.id, TargetFor(definition, paths))
                                    <==> r.id == definition.id && r.target == TargetFor(definition, paths) {
      IdentityIsInjective(r.id, r.target, definition.id, TargetFor(definition, paths));
    }
  }
}
