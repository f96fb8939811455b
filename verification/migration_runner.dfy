/**
 Running the migrations of a registry against a workspace (Migrations/src/runner.ts), over and
 over: with other targets, with migrations that fail or ask to be deferred, and with crashes
 between a migration's work and its record.
 */
module MigrationRunner {
  import opened Wrappers
  import opened MigrationState
  import opened MigrationRegistry
  import Text

  /** How the record of a finished migration gets to disk; a write is a rename, so it is whole or absent. */
  datatype Write = Saved | Lost | SavedThenStops

  /** What becomes of one migration; `Throws` also stands for a crash before it is done. */
  datatype UpOutcome = Throws | Defers | Finishes(write: Write)

  /** What a run is given, and what will happen in it. */
  datatype Run = Run(paths: Paths, up: Definition -> UpOutcome, now: Definition -> string)

  datatype Completion = Completion(id: string, target: Target, saved: bool)

  /** `file` is on disk; `log` lists the finished migrations, for the statements below only. */
  datatype Progress = Progress(
    stopped: bool, records: seq<Record>, file: Option<Json>, applied: seq<string>, deferred: seq<string>,
        log: seq<Completion>)

  predicate HasTarget(paths: Paths, target: string) {
    target in {"agentWorkspace", "runtimeConfigFile", "sessionDagDir"}
        || (target == "appDatabaseFile" && paths.appDatabaseFile.Some?)
  }

  predicate HasRequiredTargets(definition: Definition, paths: Paths) {
    forall t | t in definition.requiredTargets :: HasTarget(paths, t)
  }

  function RecordOf(definition: Definition, run: Run): Record {
    Record(definition.id, definition.introducedIn, run.now(definition), TargetFor(definition, run.paths))
  }

  function Step(run: Run, st: Progress, definition: Definition): Progress {
    if st.stopped || IsApplied(st.records, definition, run.paths) then st
    else if !HasRequiredTargets(definition, run.paths) then st.(deferred := st.deferred + [definition.id])
    else match run.up(definition)
      case Throws => st.(stopped := true)
      case Defers => st.(deferred := st.deferred + [definition.id])
      case Finishes(write) =>
        var record := RecordOf(definition, run);
        var records := st.records + [record];
        var log := st.log + [Completion(record.id, record.target, write != Lost)];
        match write
        case Lost => st.(stopped := true, records := records, log := log)
        case SavedThenStops => st.(stopped := true, records := records, file := Some(PrintState(records)), log := log)
        case Saved => st.(records := records, file := Some(PrintState(records)), log := log,
            applied := st.applied + [definition.id])
  }

  function RunAll(run: Run, st: Progress, definitions: seq<Definition>): Progress {
    if definitions == [] then st else Step(run, RunAll(run, st, definitions[..|definitions| - 1]), Last(definitions))
  }

  /** `readMigrationState`; a missing file is an empty state. */
  function ReadState(isUtc: string -> bool, definitions: seq<Definition>, file: Option<Json>): Option<seq<Record>> {
    match file
    case None => Some([])
    case Some(json) => ValidateState(isUtc, definitions, json)
  }

  /** The migrations that are applied already, in order. */
  function Skipped(definitions: seq<Definition>, records: seq<Record>, paths: Paths): seq<string> {
    if definitions == [] then []
    else
      Skipped(definitions[..|definitions| - 1], records, paths)
      + if IsApplied(records, Last(definitions), paths) then [Last(definitions).id] else []
  }

  // ---------------------------------------------------------------------------------------
  // The runner
  // ---------------------------------------------------------------------------------------

  lemma {:induction false} StaysStopped(run: Run, st: Progress, definitions: seq<Definition>, n: nat)
    requires n <= |definitions| && RunAll(run, st, definitions[..n]).stopped
    ensures RunAll(run, st, definitions) == RunAll(run, st, definitions[..n])
  {
    if n == |definitions| {
      assert definitions[..n] == definitions;
    } else {
      assert definitions[..|definitions| - 1][..n] == definitions[..n];
      StaysStopped(run, st, definitions[..|definitions| - 1], n);
    }
  }

  /**
   `runMigrationsInternal`, with the lock held. `None` for `skipped` means that the registry was
   refused or the state could not be read.
   */
  method RunMigrations(
    parse: Parser, isUtc: string -> bool, definitions: seq<Definition>, file: Option<Json>, run: Run,
        ghost log: seq<Completion>)
    returns (skipped: Option<seq<string>>, stopped: bool, applied: seq<string>, deferred: seq<string>,
        written: Option<Json>)
    requires ThreeNumbers(parse)
    ensures var read := ReadState(isUtc, definitions, file);
            if !ValidRegistry(parse, definitions) || read.None?
            then skipped.None? && stopped && applied == deferred == [] && written == file
            else
              var end := RunAll(run, Progress(false, read.value, file, [], [], log), definitions);
              && skipped == Some(Skipped(definitions, read.value, run.paths))
              && stopped == end.stopped && applied == end.applied && deferred == end.deferred && written == end.file
  {
    hide IsApplied, HasRequiredTargets, RecordOf, ValidRegistry;
    stopped, applied, deferred, written := false, [], [], file;
    var accepted := ValidateMigrationRegistry(parse, definitions);
    if !accepted { return None, true, [], [], file; }
    var read := ReadState(isUtc, definitions, file);
    if read.None? { return None, true, [], [], file; }
    var state := read.value;
    skipped := Some(Skipped(definitions, state, run.paths));
    ghost var start := Progress(false, state, file, [], [], log);
    ghost var completions := log;
    for i := 0 to |definitions|
      invariant Progress(stopped, state, written, applied, deferred, completions)
          == RunAll(run, start, definitions[..i])
      invariant !stopped
    {
      var definition := definitions[i];
      assert definitions[..i + 1][..i] == definitions[..i];
      if IsApplied(state, definition, run.paths) { continue; }
      if !HasRequiredTargets(definition, run.paths) {
        deferred := deferred + [definition.id];
        continue;
      }
      var result := run.up(definition);
      if result.Throws? {
        stopped := true;
        StaysStopped(run, start, definitions, i + 1);
        return;
      }
      if result.Defers? {
        deferred := deferred + [definition.id];
        continue;
      }
      state := state + [RecordOf(definition, run)];
      completions := completions
          + [Completion(RecordOf(definition, run).id, RecordOf(definition, run).target, result.write != Lost)];
      if result.write != Lost { written := Some(PrintState(state)); }
      if result.write != Saved {
        stopped := true;
        StaysStopped(run, start, definitions, i + 1);
        return;
      }
      applied := applied + [definition.id];
    }
    assert definitions[..|definitions|] == definitions;
  }

  // ---------------------------------------------------------------------------------------
  // Applied, skipped and deferred split the registry
  // ---------------------------------------------------------------------------------------

  ghost predicate UniqueIds(definitions: seq<Definition>) {
    forall i, j | 0 <= i < j < |definitions| :: definitions[i].id != definitions[j].id
  }

  /** Recording one migration does not make another one count as applied. */
  lemma RecordIsOwn(run: Run, definition: Definition, other: Definition)
    requires HashIsSha256(run.paths) && definition.id != other.id
    ensures Identity(RecordOf(definition, run)) != RecordIdentity(other.id, TargetFor(other, run.paths))
  {
    TargetForIsValid(definition, run.paths);
    TargetForIsValid(other, run.paths);
    IdentityIsInjective(definition.id, TargetFor(definition, run.paths), other.id, TargetFor(other, run.paths));
  }

  lemma StepKeepsOthers(run: Run, st: Progress, definition: Definition, other: Definition)
    requires HashIsSha256(run.paths) && definition.id != other.id
    ensures IsApplied(Step(run, st, definition).records, other, run.paths) <==> IsApplied(st.records, other, run.paths)
  {
    hide TargetFor, RecordIdentity, HasRequiredTargets, PrintState, RecordOf;
    RecordIsOwn(run, definition, other);
    var record := RecordOf(definition, run);
    assert forall r :: r in st.records + [record] <==> r in st.records || r == record;
  }

  /** The migrations ahead are applied exactly if they were when the run began. */
  lemma {:induction false} AheadIsAsRead(run: Run, st: Progress, definitions: seq<Definition>, other: Definition)
    requires HashIsSha256(run.paths) && forall d | d in definitions :: d.id != other.id
    ensures IsApplied(RunAll(run, st, definitions).records, other, run.paths)
        <==> IsApplied(st.records, other, run.paths)
  {
    hide IsApplied, Step;
    if definitions != [] {
      var front := definitions[..|definitions| - 1];
      assert definitions == front + [Last(definitions)];
      AheadIsAsRead(run, st, front, other);
      StepKeepsOthers(run, RunAll(run, st, front), Last(definitions), other);
    }
  }

  datatype Kind = GetsSkipped | GetsDeferred | GetsApplied | Fails

  /** What a run does with a migration is settled by what it read and by the migration itself. */
  function KindOf(run: Run, records: seq<Record>, definition: Definition): Kind {
    if IsApplied(records, definition, run.paths) then GetsSkipped
    else if !HasRequiredTargets(definition, run.paths) then GetsDeferred
    else match run.up(definition)
      case Throws => Fails
      case Defers => GetsDeferred
      case Finishes(write) => if write == Saved then GetsApplied else Fails
  }

  function OfKind(run: Run, records: seq<Record>, definitions: seq<Definition>, kind: Kind): seq<string> {
    if definitions == [] then []
    else
      OfKind(run, records, definitions[..|definitions| - 1], kind)
      + if KindOf(run, records, Last(definitions)) == kind then [Last(definitions).id] else []
  }

  lemma UniqueFront(definitions: seq<Definition>)
    requires definitions != [] && UniqueIds(definitions)
    ensures UniqueIds(definitions[..|definitions| - 1])
    ensures forall d | d in definitions[..|definitions| - 1] :: d.id != Last(definitions).id
  {
  }

  /** One migration goes to exactly one of the three lists, or stops the run. */
  lemma StepSplits(run: Run, records: seq<Record>, st: Progress, definition: Definition)
    requires IsApplied(st.records, definition, run.paths) <==> IsApplied(records, definition, run.paths)
    requires !Step(run, st, definition).stopped
    ensures !st.stopped
    ensures var now, kind, id := Step(run, st, definition), KindOf(run, records, definition), [definition.id];
            && kind != Fails
            && now.applied == st.applied + (if kind == GetsApplied then id else [])
            && now.deferred == st.deferred + (if kind == GetsDeferred then id else [])
            && (kind == GetsSkipped <==> IsApplied(records, definition, run.paths))
  {
  }

  /** A run that is not stopped splits the registry, in order, into applied, skipped and deferred. */
  lemma {:induction false} RunSplitsRegistry(run: Run, st: Progress, definitions: seq<Definition>)
    requires HashIsSha256(run.paths) && UniqueIds(definitions)
    requires !st.stopped && st.applied == [] && st.deferred == []
    requires !RunAll(run, st, definitions).stopped
    ensures var end := RunAll(run, st, definitions);
            && end.applied == OfKind(run, st.records, definitions, GetsApplied)
            && end.deferred == OfKind(run, st.records, definitions, GetsDeferred)
            && Skipped(definitions, st.records, run.paths) == OfKind(run, st.records, definitions, GetsSkipped)
            && forall d | d in definitions :: KindOf(run, st.records, d) != Fails
  {
    hide IsApplied, Step, KindOf;
    if definitions != [] {
      var front, last := definitions[..|definitions| - 1], Last(definitions);
      assert definitions == front + [last];
      UniqueFront(definitions);
      AheadIsAsRead(run, st, front, last);
      StepSplits(run, st.records, RunAll(run, st, front), last);
      RunSplitsRegistry(run, st, front);
    }
  }

  /** The work of one migration and whether its record was saved. */
  function WorkOf(run: Run, records: seq<Record>, definition: Definition): seq<Completion> {
    if KindOf(run, records, definition) in {GetsSkipped, GetsDeferred} then []
    else match run.up(definition)
      case Finishes(write) => [Completion(definition.id, TargetFor(definition, run.paths), write != Lost)]
      case _ => []
  }

  predicate SomeFails(run: Run, records: seq<Record>, definitions: seq<Definition>) {
    exists d | d in definitions :: KindOf(run, records, d) == Fails
  }

  /** The work of a run: in the order of the registry, up to the first migration that fails. */
  function WorkUntilFailure(run: Run, records: seq<Record>, definitions: seq<Definition>): seq<Completion> {
    if definitions == [] then []
    else
      var front := definitions[..|definitions| - 1];
      WorkUntilFailure(run, records, front)
      + if SomeFails(run, records, front) then [] else WorkOf(run, records, Last(definitions))
  }

  lemma StepWorks(run: Run, records: seq<Record>, st: Progress, definition: Definition)
    requires IsApplied(st.records, definition, run.paths) <==> IsApplied(records, definition, run.paths)
    ensures var now := Step(run, st, definition);
            if st.stopped then now == st
            else
              && now.log == st.log + WorkOf(run, records, definition)
              && (now.stopped <==> KindOf(run, records, definition) == Fails)
  {
    assert st.log + [] == st.log;
    hide IsApplied, TargetFor, PrintState, HasRequiredTargets;
  }

  /** A run does the work of every migration that is not applied or deferred, and stops at the first failure. */
  lemma {:induction false} RunDoesItsWork(run: Run, st: Progress, definitions: seq<Definition>)
    requires HashIsSha256(run.paths) && UniqueIds(definitions) && !st.stopped
    ensures var end := RunAll(run, st, definitions);
            && end.log == st.log + WorkUntilFailure(run, st.records, definitions)
            && (end.stopped <==> SomeFails(run, st.records, definitions))
  {
    hide IsApplied, Step, KindOf, WorkOf;
    if definitions == [] {
      assert st.log + [] == st.log;
    } else {
      var front, last := definitions[..|definitions| - 1], Last(definitions);
      assert definitions == front + [last];
      UniqueFront(definitions);
      AheadIsAsRead(run, st, front, last);
      RunDoesItsWork(run, st, front);
      StepWorks(run, st.records, RunAll(run, st, front), last);
      var log := st.log + WorkUntilFailure(run, st.records, front);
      assert log + [] == log && WorkUntilFailure(run, st.records, front) + []
          == WorkUntilFailure(run, st.records, front);
      assert st.log + (WorkUntilFailure(run, st.records, front) + WorkOf(run, st.records, last))
          == log + WorkOf(run, st.records, last);
    }
  }

  // ---------------------------------------------------------------------------------------
  // Recorded migrations run at most once
  // ---------------------------------------------------------------------------------------

  predicate IsFor(c: Completion, id: string, target: Target) {
    c.id == id && c.target == target
  }

  ghost predicate Recorded(records: seq<Record>, id: string, target: Target) {
    exists r | r in records :: r.id == id && r.target == target
  }

  ghost predicate CompletedAndSaved(log: seq<Completion>, id: string, target: Target) {
    exists c | c in log :: IsFor(c, id, target) && c.saved
  }

  /** Once a migration's work is recorded for a target, it is never done for it again. */
  ghost predicate AtMostOnce(log: seq<Completion>) {
    forall i, j | 0 <= i < j < |log| && IsFor(log[j], log[i].id, log[i].target) :: !log[i].saved
  }

  /** What is on disk can be read, and says exactly which work was recorded, besides what it said at first. */
  ghost predicate FileTells(isUtc: string -> bool, definitions: seq<Definition>, first: seq<Record>,
      file: Option<Json>, log: seq<Completion>) {
    var read := ReadState(isUtc, definitions, file);
    && read.Some? && ValidRecords(isUtc, definitions, read.value)
    && forall id, target ::
        Recorded(read.value, id, target) <==> Recorded(first, id, target) || CompletedAndSaved(log, id, target)
  }

  /** No migration of the log was recorded before the log began. */
  ghost predicate NotBefore(first: seq<Record>, log: seq<Completion>) {
    forall c | c in log :: !Recorded(first, c.id, c.target)
  }

  ghost predicate Inv(isUtc: string -> bool, definitions: seq<Definition>, first: seq<Record>, st: Progress) {
    && FileTells(isUtc, definitions, first, st.file, st.log) && AtMostOnce(st.log) && NotBefore(first, st.log)
    && (!st.stopped ==> ReadState(isUtc, definitions, st.file) == Some(st.records))
  }

  /** What a run brings: a hash that prints hashes, and a clock that prints times. */
  ghost predicate SoundRun(isUtc: string -> bool, definitions: seq<Definition>, run: Run) {
    HashIsSha256(run.paths) && forall d | d in definitions :: isUtc(run.now(d))
  }

  ghost predicate Sound(isUtc: string -> bool, definitions: seq<Definition>, run: Run) {
    SoundRun(isUtc, definitions, run) && UniqueIds(definitions) && forall d | d in definitions :: !Text.Blank(d.id)
  }

  /** What is needed of the registry is what the registry check accepts. */
  lemma CheckedRegistryIsSound(parse: Parser, isUtc: string -> bool, definitions: seq<Definition>, run: Run)
    requires ThreeNumbers(parse) && ValidRegistry(parse, definitions) && SoundRun(isUtc, definitions, run)
    ensures Sound(isUtc, definitions, run)
  {
  }

  lemma {:induction false} KnownIsItself(definitions: seq<Definition>, definition: Definition)
    requires UniqueIds(definitions) && definition in definitions
    ensures Known(definitions, definition.id) == Some(definition)
  {
    var front := definitions[..|definitions| - 1];
    assert definitions == front + [Last(definitions)];
    UniqueFront(definitions);
    if definition in front {
      KnownIsItself(front, definition);
    }
  }

  lemma NewRecordIsValid(isUtc: string -> bool, definitions: seq<Definition>, run: Run, records: seq<Record>,
      definition: Definition)
    requires Sound(isUtc, definitions, run) && definition in definitions && ValidRecords(isUtc, definitions, records)
    requires !IsApplied(records, definition, run.paths)
    ensures !Recorded(records, definition.id, TargetFor(definition, run.paths))
    ensures ReadState(isUtc, definitions, Some(PrintState(records + [RecordOf(definition, run)])))
        == Some(records + [RecordOf(definition, run)])
    ensures ValidRecords(isUtc, definitions, records + [RecordOf(definition, run)])
  {
    hide Text.Blank, ValidateState, PrintState, IsApplied, TargetFor;
    AppliedMeansRecorded(isUtc, definitions, records, definition, run.paths);
    KnownIsItself(definitions, definition);
    TargetForIsValid(definition, run.paths);
    assert forall i | 0 <= i < |records| :: records[i] in records;
    StateRoundTrip(isUtc, definitions, records + [RecordOf(definition, run)]);
  }

  lemma LogSnoc(log: seq<Completion>, c: Completion)
    ensures forall id, target ::
        CompletedAndSaved(log + [c], id, target)
        <==> CompletedAndSaved(log, id, target) || (IsFor(c, id, target) && c.saved)
    ensures AtMostOnce(log) && !CompletedAndSaved(log, c.id, c.target) ==> AtMostOnce(log + [c])
  {
  }

  lemma RecordedSnoc(records: seq<Record>, record: Record)
    ensures forall id, target ::
        Recorded(records + [record], id, target)
        <==> Recorded(records, id, target) || (record.id == id && record.target == target)
  {
  }

  lemma StepKeepsInv(isUtc: string -> bool, definitions: seq<Definition>, first: seq<Record>, run: Run, st: Progress,
      definition: Definition)
    requires Sound(isUtc, definitions, run) && definition in definitions && Inv(isUtc, definitions, first, st)
    ensures Inv(isUtc, definitions, first, Step(run, st, definition))
  {
    hide Sound, ReadState, ValidRecords, IsApplied, HasRequiredTargets, Recorded, CompletedAndSaved, AtMostOnce,
        PrintState, TargetFor;
    if !st.stopped && !IsApplied(st.records, definition, run.paths) && run.up(definition).Finishes? {
      var record := RecordOf(definition, run);
      NewRecordIsValid(isUtc, definitions, run, st.records, definition);
      RecordedSnoc(st.records, record);
      LogSnoc(st.log, Completion(record.id, record.target, run.up(definition).write != Lost));
    }
  }

  lemma {:induction false} RunKeepsInv(isUtc: string -> bool, definitions: seq<Definition>, first: seq<Record>,
      run: Run, st: Progress, done: seq<Definition>)
    requires Sound(isUtc, definitions, run) && Inv(isUtc, definitions, first, st) && forall d | d in done ::
        d in definitions
    ensures Inv(isUtc, definitions, first, RunAll(run, st, done))
  {
    hide Inv, Step, Sound;
    if done != [] {
      assert done == done[..|done| - 1] + [Last(done)];
      RunKeepsInv(isUtc, definitions, first, run, st, done[..|done| - 1]);
      StepKeepsInv(isUtc, definitions, first, run, RunAll(run, st, done[..|done| - 1]), Last(done));
    }
  }

  /** The workspace over a sequence of runs. */
  datatype Workspace = Workspace(file: Option<Json>, log: seq<Completion>)

  function AfterRun(isUtc: string -> bool, definitions: seq<Definition>, w: Workspace, run: Run): Workspace {
    match ReadState(isUtc, definitions, w.file)
    case None => w
    case Some(records) =>
      var end := RunAll(run, Progress(false, records, w.file, [], [], w.log), definitions);
      Workspace(end.file, end.log)
  }

  function AfterRuns(isUtc: string -> bool, definitions: seq<Definition>, w: Workspace, runs: seq<Run>): Workspace {
    if runs == [] then w
        else AfterRun(isUtc, definitions, AfterRuns(isUtc, definitions, w, runs[..|runs| - 1]), Last(runs))
  }

  /** Run after run, the work of the migrations that the file did not yet record. */
  function WorkOfRuns(isUtc: string -> bool, definitions: seq<Definition>, w: Workspace,
      runs: seq<Run>): seq<Completion> {
    if runs == [] then w.log
    else
      var front, run := runs[..|runs| - 1], Last(runs);
      var read := ReadState(isUtc, definitions, AfterRuns(isUtc, definitions, w, front).file);
      WorkOfRuns(isUtc, definitions, w, front)
      + if read.Some? then WorkUntilFailure(run, read.value, definitions) else []
  }

  /**
   With a registry that passed its check, over any sequence of runs, with changing targets and
   crashes: every run does the work of the migrations that are neither recorded nor deferred, up to
   the first failure; the state on disk can always be read, it records exactly the work that was done
   and saved besides what it recorded at first, and recorded work is never done again.
   */
  lemma {:induction false} RecordedMigrationsRunOnce(
    parse: Parser, isUtc: string -> bool, definitions: seq<Definition>, file: Option<Json>, runs: seq<Run>)
    requires ThreeNumbers(parse) && ValidRegistry(parse, definitions)
    requires ReadState(isUtc, definitions, file).Some?
    requires forall run | run in runs :: SoundRun(isUtc, definitions, run)
    ensures var first := ReadState(isUtc, definitions, file).value;
            var w := AfterRuns(isUtc, definitions, Workspace(file, []), runs);
            && FileTells(isUtc, definitions, first, w.file, w.log) && AtMostOnce(w.log) && NotBefore(first, w.log)
            && w.log == WorkOfRuns(isUtc, definitions, Workspace(file, []), runs)
  {
    hide WorkUntilFailure, SomeFails;
    hide Sound, SoundRun, ValidRegistry, ValidateState, Step, Recorded, CompletedAndSaved, ValidRecords;
    var first := ReadState(isUtc, definitions, file).value;
    if runs == [] {
      ReadIsValid(isUtc, definitions, file);
      NothingCompleted();
    } else {
      var front, run := runs[..|runs| - 1], Last(runs);
      assert runs == front + [run];
      RecordedMigrationsRunOnce(parse, isUtc, definitions, file, front);
      CheckedRegistryIsSound(parse, isUtc, definitions, run);
      var w := AfterRuns(isUtc, definitions, Workspace(file, []), front);
      var records := ReadState(isUtc, definitions, w.file).value;
      RunKeepsInv(isUtc, definitions, first, run, Progress(false, records, w.file, [], [], w.log), definitions);
      SoundIsUnique(isUtc, definitions, run);
      RunDoesItsWork(run, Progress(false, records, w.file, [], [], w.log), definitions);
    }
  }

  lemma SoundIsUnique(isUtc: string -> bool, definitions: seq<Definition>, run: Run)
    requires Sound(isUtc, definitions, run)
    ensures HashIsSha256(run.paths) && UniqueIds(definitions)
  {
  }

  lemma NothingCompleted()
    ensures forall id, target :: !CompletedAndSaved([], id, target)
  {
  }

  lemma ReadIsValid(isUtc: string -> bool, definitions: seq<Definition>, file: Option<Json>)
    requires ReadState(isUtc, definitions, file).Some?
    ensures ValidRecords(isUtc, definitions, ReadState(isUtc, definitions, file).value)
  {
    hide ValidateRecords;
    if file.Some? {
      var values := file.value.fields["applied"].items;
      ValidatedAreValid(isUtc, definitions, true, values);
      ValidatedAreValid(isUtc, definitions, false, values);
    }
  }
}
