/**
 The life of scan jobs (Memory/src/agent-source/runtime.ts `startScan`, `pauseScan`, `cancelScan`,
 `dispose` and the parts of `runScan` that touch shared state). A run goes on after it was
 cancelled, until it notices; each step below is what happens between two `await`s.
 */
module ScanJobs {
  import opened Wrappers
  import opened TurnCut

  type JobId = string
  type RunId = nat

  datatype Request = Request(sourceId: string, mode: Option<Mode>)

  datatype Progress = Progress(sourceId: string, phase: string, current: nat, total: nat)

  datatype Ending = NotEnded | Completed | Failed

  /** What `scanStatus` shows. */
  datatype Scan = Scan(running: bool, jobId: Option<JobId>, request: Option<Request>, progress: Option<Progress>,
      ending: Ending)

  const EMPTY_SCAN := Scan(false, None, None, None, NotEnded)

  /** A scan store on disk. */
  datatype JobFile = JobFile(jobId: JobId, request: Request, isDone: bool, updatedAt: int)

  /** Where a run is: at work, past closing its store, past forgetting its cancellation. */
  datatype Stage = Working | Closing | Unwound

  datatype Run = Run(jobId: JobId, request: Request, aborted: bool, stage: Stage)

  datatype Exec = Exec(
    scan: Scan, paused: bool, controller: Option<RunId>, request: Option<Request>,
        progressBeforePause: Option<Progress>,
    canceled: set<JobId>, sources: map<string, int>, disposed: bool,
    runs: map<RunId, Run>, files: seq<JobFile>)

  // ---------------------------------------------------------------------------------------
  // Reusing the store of an earlier job
  // ---------------------------------------------------------------------------------------

  predicate Reusable(file: JobFile, request: Request, excluded: set<JobId>) {
    && file.jobId !in excluded && !file.isDone
    && file.request.sourceId == request.sourceId
    && (request.mode.None? || file.request.mode.None? || file.request.mode == request.mode)
  }

  /** The most recently updated of the reusable stores. */
  function FindReusable(files: seq<JobFile>, request: Request, excluded: set<JobId>): (found: Option<JobFile>)
    ensures found.Some? ==> found.value in files && Reusable(found.value, request, excluded)
  {
    if files == [] then None
    else
      var found, file := FindReusable(files[..|files| - 1], request, excluded), Last(files);
      if Reusable(file, request, excluded) && (found.None? || file.updatedAt > found.value.updatedAt) then Some(file)
          else found
  }

  lemma {:induction false} NewestIsReused(files: seq<JobFile>, request: Request, excluded: set<JobId>)
    ensures var found := FindReusable(files, request, excluded);
            forall file | file in files && Reusable(file, request, excluded) ::
                found.Some? && file.updatedAt <= found.value.updatedAt
  {
    if files != [] {
      NewestIsReused(files[..|files| - 1], request, excluded);
      assert files == files[..|files| - 1] + [Last(files)];
    }
  }

  method FindReusableScanJob(files: seq<JobFile>, request: Request, excluded: set<JobId>)
      returns (selected: Option<JobFile>)
    ensures selected == FindReusable(files, request, excluded)
  {
    selected := None;
    for i := 0 to |files|
      invariant selected == FindReusable(files[..i], request, excluded)
    {
      var file := files[i];
      assert files[..i + 1][..i] == files[..i];
      if file.jobId in excluded || file.isDone { continue; }
      if file.request.sourceId == request.sourceId
          && (request.mode.None? || file.request.mode.None? || file.request.mode == request.mode) {
        if selected.None? || file.updatedAt > selected.value.updatedAt { selected := Some(file); }
      }
    }
    assert files[..|files|] == files;
  }

  // ---------------------------------------------------------------------------------------
  // Steps
  // ---------------------------------------------------------------------------------------

  predicate SameRequest(left: Request, right: Request) {
    left.sourceId == right.sourceId && (right.mode.None? || left.mode == right.mode)
  }

  function JobFor(st: Exec, request: Request, newId: JobId): JobId {
    match FindReusable(st.files, request, st.canceled)
    case Some(file) => file.jobId
    case None => newId
  }

  /** `startScan`: refused, resumed, or a new run `run`, whose job id is reused or `newId`. */
  function Start(st: Exec, request: Request, run: RunId, newId: JobId): Exec {
    if st.disposed || st.scan.running then st
    else if st.paused && st.controller.Some? && st.request.Some? && st.scan.jobId.Some? then
      if !SameRequest(st.request.value, request) then st
      else st.(paused := false,
               scan := st.scan.(running := true, ending := if st.scan.ending == Failed then NotEnded
                   else st.scan.ending,
                                progress := if st.progressBeforePause.Some? then st.progressBeforePause
                                            else Some(Progress(request.sourceId, "scan", 0, 0))))
    else if st.paused then st
    else
      var jobId := JobFor(st, request, newId);
      st.(scan := Scan(true, Some(jobId), Some(request), None, NotEnded), request := Some(request),
          progressBeforePause := None,
          controller := Some(run), runs := st.runs[run := Run(jobId, request, false, Working)])
  }

  /** `pauseScan` */
  function Pause(st: Exec): Exec {
    if st.paused || !st.scan.running || st.controller.None? || st.request.None? then st
    else
      var shown := if st.scan.progress.Some? then st.scan.progress.value
          else Progress(st.request.value.sourceId, "", 0, 0);
      st.(progressBeforePause := st.scan.progress, paused := true,
          scan := st.scan.(running := false, progress := Some(shown.(phase := "stopped"))))
  }

  function Abort(st: Exec): map<RunId, Run> {
    match st.controller
    case Some(run) => if run in st.runs then st.runs[run := st.runs[run].(aborted := true)] else st.runs
    case None => st.runs
  }

  /** `cancelScan`: the controller is kept until its run has unwound. */
  function Cancel(st: Exec): Exec {
    if st.controller.None? && !st.paused then st
    else st.(paused := false, runs := Abort(st),
             canceled := if st.scan.jobId.Some? then st.canceled + {st.scan.jobId.value} else st.canceled,
             scan := EMPTY_SCAN, request := None, progressBeforePause := None)
  }

  function Dispose(st: Exec): Exec {
    st.(disposed := true, paused := false, runs := Abort(st))
  }

  /** The guard of every write of a run to the visible scan. */
  predicate Shows(st: Exec, run: RunId)
    requires run in st.runs
  {
    st.scan.jobId == Some(st.runs[run].jobId) && !st.runs[run].aborted
  }

  function Report(st: Exec, run: RunId, progress: Progress): Exec
    requires run in st.runs
  {
    if Shows(st, run) && !st.paused
    then st.(progressBeforePause := Some(progress), scan := st.scan.(progress := Some(progress)))
    else st
  }

  /** After the state file is written: the in-memory state of a source, unless the run was aborted or replaced. */
  function Commit(st: Exec, run: RunId, source: string, value: int, progress: Progress): Exec
    requires run in st.runs
  {
    if Shows(st, run) then st.(sources := st.sources[source := value], scan := st.scan.(progress := Some(progress)))
        else st
  }

  function PutFile(files: seq<JobFile>, file: JobFile): seq<JobFile> {
    if files == [] then [file]
    else if files[0].jobId == file.jobId then [file] + files[1..]
    else [files[0]] + PutFile(files[1..], file)
  }

  function DropFile(files: seq<JobFile>, jobId: JobId): seq<JobFile> {
    if files == [] then []
    else if files[0].jobId == jobId then DropFile(files[1..], jobId)
    else [files[0]] + DropFile(files[1..], jobId)
  }

  /** The run opens its store or saves its meta row. */
  function SaveMeta(st: Exec, run: RunId, isDone: bool, updatedAt: int): Exec
    requires run in st.runs && st.runs[run].stage == Working
  {
    st.(files := PutFile(st.files, JobFile(st.runs[run].jobId, st.runs[run].request, isDone, updatedAt)))
  }

  /** The `finally` of `runScan`: a completed store is removed, and so is one that was cancelled. */
  function Close(st: Exec, run: RunId, completed: bool): Exec
    requires run in st.runs && st.runs[run].stage == Working
  {
    var jobId := st.runs[run].jobId;
    var wasCanceled := jobId in st.canceled;
    st.(files := if completed || wasCanceled then DropFile(st.files, jobId) else st.files,
        runs := st.runs[run := st.runs[run].(stage := if wasCanceled then Closing else Unwound)])
  }

  function Forget(st: Exec, run: RunId): Exec
    requires run in st.runs && st.runs[run].stage == Closing
  {
    st.(canceled := st.canceled - {st.runs[run].jobId}, runs := st.runs[run := st.runs[run].(stage := Unwound)])
  }

  /** The handlers `then` or `catch`, and `finally`. */
  function Settle(st: Exec, run: RunId, succeeded: bool): Exec
    requires run in st.runs && st.runs[run].stage == Unwound
  {
    var mine := st.scan.jobId == Some(st.runs[run].jobId);
    var scan :=
      if succeeded then (if mine then st.scan.(running := false, ending := Completed) else st.scan)
      else if !mine || st.runs[run].aborted then st.scan
      else st.scan.(running := false, ending := Failed);
    var now := st.(scan := scan, runs := st.runs - {run});
    if st.controller == Some(run)
        then now.(controller := None, request := None, paused := false, progressBeforePause := None) else now
  }

  datatype Step =
    | Starts(request: Request, run: RunId, newId: JobId) | Pauses | Cancels | Disposes
    | Reports(run: RunId, progress: Progress)
    | Commits(run: RunId, source: string, value: int, progress: Progress)
    | SavesMeta(run: RunId, isDone: bool, updatedAt: int)
    | Closes(run: RunId, completed: bool)
    | Forgets(run: RunId)
    | Settles(run: RunId, succeeded: bool)

  predicate Enabled(st: Exec, step: Step) {
    match step
    case Starts(_, run, newId) =>
      && run !in st.runs
      && (forall r | r in st.runs :: st.runs[r].jobId != newId) && (forall f | f in st.files :: f.jobId != newId)
    case Reports(run, _) => run in st.runs && st.runs[run].stage == Working
    case Commits(run, _, _, _) => run in st.runs && st.runs[run].stage == Working
    case SavesMeta(run, _, _) => run in st.runs && st.runs[run].stage == Working
    case Closes(run, _) => run in st.runs && st.runs[run].stage == Working
    case Forgets(run) => run in st.runs && st.runs[run].stage == Closing
    case Settles(run, _) => run in st.runs && st.runs[run].stage == Unwound
    case _ => true
  }

  function Take(st: Exec, step: Step): Exec
    requires Enabled(st, step)
  {
    match step
    case Starts(request, run, newId) => Start(st, request, run, newId)
    case Pauses => Pause(st)
    case Cancels => Cancel(st)
    case Disposes => Dispose(st)
    case Reports(run, progress) => Report(st, run, progress)
    case Commits(run, source, value, progress) => Commit(st, run, source, value, progress)
    case SavesMeta(run, isDone, updatedAt) => SaveMeta(st, run, isDone, updatedAt)
    case Closes(run, completed) => Close(st, run, completed)
    case Forgets(run) => Forget(st, run)
    case Settles(run, succeeded) => Settle(st, run, succeeded)
  }

  // ---------------------------------------------------------------------------------------
  // Isolation
  // ---------------------------------------------------------------------------------------

  /** The run that the visible scan is about. */
  predicate Current(st: Exec, run: RunId) {
    run in st.runs && st.controller == Some(run) && st.scan.jobId == Some(st.runs[run].jobId)
  }

  ghost predicate DistinctJobs(st: Exec) {
    forall a, b | a in st.runs && b in st.runs && a != b :: st.runs[a].jobId != st.runs[b].jobId
  }

  ghost predicate HasFile(files: seq<JobFile>, jobId: JobId) {
    exists f | f in files :: f.jobId == jobId
  }

  /** What holds of one live run. */
  ghost predicate RunInv(st: Exec, r: RunId)
    requires r in st.runs
  {
    var run := st.runs[r];
    && (!run.aborted ==> Current(st, r) && st.request.Some? && (st.scan.running || st.paused))
    && (st.scan.jobId == Some(run.jobId) ==> st.controller == Some(r))
    && (run.stage == Closing ==> !HasFile(st.files, run.jobId))
    && (run.aborted && !st.disposed ==>
          !Current(st, r) && (run.jobId in st.canceled || (run.stage != Working && !HasFile(st.files, run.jobId))))
  }

  ghost predicate Inv(st: Exec) {
    && DistinctJobs(st)
    && (forall r | r in st.runs :: RunInv(st, r))
    && (st.controller.Some? ==> st.controller.value in st.runs)
    && (st.controller.Some? && !Current(st, st.controller.value) ==>
          st.runs[st.controller.value].aborted && st.scan == EMPTY_SCAN && !st.paused && st.request.None?
              && st.progressBeforePause.None?)
  }

  lemma {:induction false} FilesPut(files: seq<JobFile>, file: JobFile)
    ensures forall id :: HasFile(PutFile(files, file), id) <==> HasFile(files, id) || id == file.jobId
  {
    if files == [] {
      FileCons(file, []);
      assert [file] + [] == [file];
    } else {
      FileCons(files[0], files[1..]);
      assert files == [files[0]] + files[1..];
      if files[0].jobId == file.jobId {
        FileCons(file, files[1..]);
      } else {
        FilesPut(files[1..], file);
        FileCons(files[0], PutFile(files[1..], file));
      }
    }
  }

  lemma FileCons(file: JobFile, rest: seq<JobFile>)
    ensures forall id :: HasFile([file] + rest, id) <==> file.jobId == id || HasFile(rest, id)
  {
  }

  lemma {:induction false} FilesDropped(files: seq<JobFile>, jobId: JobId)
    ensures forall f :: f in DropFile(files, jobId) <==> f in files && f.jobId != jobId
  {
    if files != [] {
      FilesDropped(files[1..], jobId);
      assert files == [files[0]] + files[1..];
    }
  }

  lemma StartKeepsInv(st: Exec, request: Request, run: RunId, newId: JobId)
    requires Inv(st) && Enabled(st, Starts(request, run, newId))
    ensures Inv(Start(st, request, run, newId))
  {
    hide FindReusable;
    var now := Start(st, request, run, newId);
    if run in now.runs {
      var jobId := JobFor(st, request, newId);
      var found := FindReusable(st.files, request, st.canceled);
      forall r | r in st.runs ensures st.runs[r].aborted && st.runs[r].jobId != jobId {
        assert RunInv(st, r);
      }
    }
    forall r | r in now.runs ensures RunInv(now, r) {
      if r in st.runs {
        assert RunInv(st, r);
      }
    }
  }

  lemma PauseKeepsInv(st: Exec)
    requires Inv(st)
    ensures Inv(Pause(st))
  {
  }

  lemma CancelKeepsInv(st: Exec)
    requires Inv(st)
    ensures Inv(Cancel(st))
  {
    var now := Cancel(st);
    forall r | r in now.runs ensures RunInv(now, r) {
      assert RunInv(st, r);
    }
  }

  lemma DisposeKeepsInv(st: Exec)
    requires Inv(st)
    ensures Inv(Dispose(st))
  {
  }

  lemma CloseKeepsInv(st: Exec, run: RunId, completed: bool)
    requires Inv(st) && Enabled(st, Closes(run, completed))
    ensures Inv(Close(st, run, completed))
  {
    hide DropFile;
    FilesDropped(st.files, st.runs[run].jobId);
    var now := Close(st, run, completed);
    forall r | r in now.runs ensures RunInv(now, r) {
      assert RunInv(st, r);
    }
  }

  lemma SettleKeepsInv(st: Exec, run: RunId, succeeded: bool)
    requires Inv(st) && Enabled(st, Settles(run, succeeded))
    ensures Inv(Settle(st, run, succeeded))
  {
    var now := Settle(st, run, succeeded);
    assert RunInv(st, run);
    forall r | r in now.runs ensures RunInv(now, r) {
      assert RunInv(st, r);
    }
  }

  lemma RunStepKeepsInv(st: Exec, step: Step)
    requires Inv(st) && Enabled(st, step) && (step.Reports? || step.Commits? || step.SavesMeta? || step.Forgets?)
    ensures Inv(Take(st, step))
  {
    hide PutFile;
    if step.SavesMeta? {
      assert RunInv(st, step.run);
      FilesPut(st.files, JobFile(st.runs[step.run].jobId, st.runs[step.run].request, step.isDone, step.updatedAt));
    }
    var now := Take(st, step);
    forall r | r in now.runs ensures RunInv(now, r) {
      assert RunInv(st, r);
    }
  }

  lemma StepKeepsInv(st: Exec, step: Step)
    requires Inv(st) && Enabled(st, step)
    ensures Inv(Take(st, step))
  {
    hide Inv, Start, Pause, Cancel, Dispose, Close, Settle, Commit, Report, SaveMeta, Forget;
    match step
    case Starts(request, run, newId) => StartKeepsInv(st, request, run, newId);
    case Pauses => PauseKeepsInv(st);
    case Cancels => CancelKeepsInv(st);
    case Disposes => DisposeKeepsInv(st);
    case Closes(run, completed) => CloseKeepsInv(st, run, completed);
    case Settles(run, succeeded) => SettleKeepsInv(st, run, succeeded);
    case _ => RunStepKeepsInv(st, step);
  }

  function RunOf(step: Step): Option<RunId> {
    match step
    case Reports(run, _) => Some(run)
    case Commits(run, _, _, _) => Some(run)
    case SavesMeta(run, _, _) => Some(run)
    case Closes(run, _) => Some(run)
    case Forgets(run) => Some(run)
    case Settles(run, _) => Some(run)
    case _ => None
  }

  /** Everything a user of the executor can see is as it was; a run may give back its own controller. */
  ghost predicate Untouched(st: Exec, now: Exec, run: RunId) {
    && now.scan == st.scan && now.paused == st.paused && now.request == st.request
    && now.progressBeforePause == st.progressBeforePause && now.sources == st.sources && now.disposed == st.disposed
    && (now.controller == st.controller || (st.controller == Some(run) && now.controller.None?))
    && (forall r | r in st.runs && r != run :: r in now.runs && now.runs[r] == st.runs[r])
  }

  /** Another job's store and another job's cancellation are as they were. */
  ghost predicate OtherJobsUntouched(st: Exec, now: Exec, jobId: JobId) {
    forall id | id != jobId ::
        (id in now.canceled <==> id in st.canceled) && (HasFile(now.files, id) <==> HasFile(st.files, id))
  }

  /** A step of a run that is not the current one - cancelled, or replaced - touches nothing. */
  lemma StaleRunsAreHarmless(st: Exec, step: Step, run: RunId)
    requires Inv(st) && Enabled(st, step) && RunOf(step) == Some(run) && !Current(st, run)
    ensures Untouched(st, Take(st, step), run)
  {
    hide PutFile, DropFile, HasFile;
    assert RunInv(st, run);
  }

  /** Any run writes only its own store. */
  lemma RunsKeepToTheirJob(st: Exec, step: Step, run: RunId)
    requires Enabled(st, step) && RunOf(step) == Some(run)
    ensures OtherJobsUntouched(st, Take(st, step), st.runs[run].jobId)
  {
    hide PutFile, DropFile;
    var jobId := st.runs[run].jobId;
    FilesDropped(st.files, jobId);
    if step.SavesMeta? {
      FilesPut(st.files, JobFile(jobId, st.runs[run].request, step.isDone, step.updatedAt));
    }
  }

  function Idle(files: seq<JobFile>, sources: map<string, int>): Exec {
    Exec(EMPTY_SCAN, false, None, None, None, {}, sources, false, map[], files)
  }

  /** Any interleaving; a step that is not possible is left out. */
  function Interleave(files: seq<JobFile>, sources: map<string, int>, steps: seq<Step>): Exec {
    if steps == [] then Idle(files, sources)
    else
      var st := Interleave(files, sources, steps[..|steps| - 1]);
      if Enabled(st, Last(steps)) then Take(st, Last(steps)) else st
  }

  lemma {:induction false} InterleavingsKeepInv(files: seq<JobFile>, sources: map<string, int>, steps: seq<Step>)
    ensures Inv(Interleave(files, sources, steps))
  {
    if steps != [] {
      hide Inv, Enabled, Take;
      InterleavingsKeepInv(files, sources, steps[..|steps| - 1]);
      var st := Interleave(files, sources, steps[..|steps| - 1]);
      if Enabled(st, Last(steps)) {
        StepKeepsInv(st, Last(steps));
      }
    }
  }

  /**
   In every interleaving two live runs have different job ids, and no step of a cancelled or
   replaced run changes the visible scan, the pause flag, another run's controller, the active
   request or the source state.
   */
  lemma JobsAreIsolated(files: seq<JobFile>, sources: map<string, int>, steps: seq<Step>, step: Step)
    ensures var st := Interleave(files, sources, steps);
            && DistinctJobs(st)
            && (Enabled(st, step) && RunOf(step).Some? ==>
                  && OtherJobsUntouched(st, Take(st, step), st.runs[RunOf(step).value].jobId)
                  && (!Current(st, RunOf(step).value) ==> Untouched(st, Take(st, step), RunOf(step).value)))
  {
    hide Take, Interleave, Untouched, OtherJobsUntouched, Current;
    InterleavingsKeepInv(files, sources, steps);
    var st := Interleave(files, sources, steps);
    if Enabled(st, step) && RunOf(step).Some? {
      RunsKeepToTheirJob(st, step, RunOf(step).value);
      if !Current(st, RunOf(step).value) {
        StaleRunsAreHarmless(st, step, RunOf(step).value);
      }
    }
  }

  /** Cancelling, or starting again, makes the run before it a stale one. */
  lemma CancelMakesStale(st: Exec, run: RunId)
    requires Inv(st) && run in st.runs
    ensures run in Cancel(st).runs && !Current(Cancel(st), run)
  {
  }

  // ---------------------------------------------------------------------------------------
  // What a user gets: one scan at a time
  // ---------------------------------------------------------------------------------------

  /** The scan a user started and that was neither ended nor cancelled. */
  datatype Active = Active(run: RunId, request: Request, paused: bool, shown: Option<Progress>, kept: Option<Progress>)

  /** Everything but stores: no controllers, no job ids, no runs that go on after they were cancelled. */
  datatype Simple = Simple(disposed: bool, active: Option<Active>, ending: Ending, sources: map<string, int>)

  predicate IsActive(m: Simple, run: RunId) {
    m.active.Some? && m.active.value.run == run
  }

  predicate Fits(a: Active, request: Request) {
    request.sourceId == a.request.sourceId && (request.mode.None? || request.mode == a.request.mode)
  }

  /** A start is accepted when nothing is active, or to resume what is paused. */
  predicate Accepts(m: Simple, request: Request) {
    !m.disposed && (m.active.None? || (m.active.value.paused && Fits(m.active.value, request)))
  }

  /** The executor as its users think of it. */
  function Simply(m: Simple, step: Step): Simple {
    match step
    case Starts(request, run, _) =>
      if !Accepts(m, request) then m
      else if m.active.None? then m.(active := Some(Active(run, request, false, None, None)), ending := NotEnded)
      else
        var a := m.active.value;
        m.(active := Some(a.(paused := false,
          shown := if a.kept.Some? then a.kept else Some(Progress(request.sourceId, "scan", 0, 0)))))
    case Pauses =>
      if m.active.None? || m.active.value.paused then m
      else
        var a := m.active.value;
        var at := if a.shown.Some? then a.shown.value else Progress(a.request.sourceId, "", 0, 0);
        m.(active := Some(a.(paused := true, kept := a.shown, shown := Some(at.(phase := "stopped")))))
    case Cancels => if m.active.None? then m else m.(active := None, ending := NotEnded)
    case Disposes => m.(disposed := true, active := None, ending := NotEnded)
    case Reports(run, progress) =>
      if !IsActive(m, run) || m.active.value.paused then m
      else m.(active := Some(m.active.value.(shown := Some(progress), kept := Some(progress))))
    case Commits(run, source, value, progress) =>
      if !IsActive(m, run) then m
      else m.(sources := m.sources[source := value], active := Some(m.active.value.(shown := Some(progress))))
    case Settles(run, succeeded) =>
      if !IsActive(m, run) then m else m.(active := None, ending := if succeeded then Completed else Failed)
    case _ => m
  }

  /** What is left of the executor when one looks at it like that; after disposal nothing is shown. */
  function Seen(st: Exec): Simple {
    var live := st.controller.Some? && st.controller.value in st.runs && !st.runs[st.controller.value].aborted
        && st.request.Some?;
    Simple(
      st.disposed,
      if live then Some(Active(st.controller.value, st.request.value, st.paused, st.scan.progress,
          st.progressBeforePause)) else None,
      if st.disposed then NotEnded else st.scan.ending,
      st.sources)
  }

  /** A scan that is active is running or paused; when none is, neither shows. */
  ghost predicate Consistent(st: Exec) {
    var active := Seen(st).active;
    && (active.Some? ==> !st.disposed && st.scan.ending == NotEnded && (st.scan.running <==> !st.paused))
    && (active.None? && !st.disposed ==> !st.scan.running && !st.paused)
  }

  lemma UserStepIsSimple(st: Exec, step: Step)
    requires Inv(st) && Consistent(st) && Enabled(st, step) && RunOf(step).None?
    ensures Seen(Take(st, step)) == Simply(Seen(st), step)
    ensures Consistent(Take(st, step))
  {
    hide FindReusable, HasFile;
    if st.controller.Some? {
      assert RunInv(st, st.controller.value);
    }
  }

  lemma RunStepIsSimple(st: Exec, step: Step, run: RunId)
    requires Inv(st) && Consistent(st) && Enabled(st, step) && RunOf(step) == Some(run)
    ensures Seen(Take(st, step)) == Simply(Seen(st), step)
    ensures Consistent(Take(st, step))
  {
    hide PutFile, DropFile, HasFile;
    assert RunInv(st, run);
    if st.controller.Some? {
      assert RunInv(st, st.controller.value);
    }
  }

  lemma StepIsSimple(st: Exec, step: Step)
    requires Inv(st) && Consistent(st) && Enabled(st, step)
    ensures Seen(Take(st, step)) == Simply(Seen(st), step)
    ensures Consistent(Take(st, step))
  {
    hide Inv, Consistent, Enabled, Take, Seen, Simply, RunOf;
    if RunOf(step).Some? {
      RunStepIsSimple(st, step, RunOf(step).value);
    } else {
      UserStepIsSimple(st, step);
    }
  }

  /** The steps that were possible when they came. */
  function Performed(files: seq<JobFile>, sources: map<string, int>, steps: seq<Step>): seq<Step> {
    if steps == [] then []
    else
      var front := steps[..|steps| - 1];
      Performed(files, sources, front)
      + if Enabled(Interleave(files, sources, front), Last(steps)) then [Last(steps)] else []
  }

  function Simulate(sources: map<string, int>, steps: seq<Step>): Simple {
    if steps == [] then Simple(false, None, NotEnded, sources)
    else Simply(Simulate(sources, steps[..|steps| - 1]), Last(steps))
  }

  lemma SimulateSnoc(sources: map<string, int>, steps: seq<Step>, step: Step)
    ensures Simulate(sources, steps + [step]) == Simply(Simulate(sources, steps), step) && steps + [] == steps
  {
    assert (steps + [step])[..|steps|] == steps;
  }

  /** In every interleaving of every run, users see one scan at a time. */
  lemma {:induction false} ExecutorIsSimple(files: seq<JobFile>, sources: map<string, int>, steps: seq<Step>)
    ensures var st := Interleave(files, sources, steps);
            Inv(st) && Consistent(st) && Seen(st) == Simulate(sources, Performed(files, sources, steps))
  {
    hide Inv, Consistent, Enabled, Take, Seen, Simply;
    if steps == [] {
      IdleIsSimple(files, sources);
    } else {
      var front, step := steps[..|steps| - 1], Last(steps);
      ExecutorIsSimple(files, sources, front);
      var st := Interleave(files, sources, front);
      SimulateSnoc(sources, Performed(files, sources, front), step);
      if Enabled(st, step) {
        StepKeepsInv(st, step);
        StepIsSimple(st, step);
      }
    }
  }

  lemma IdleIsSimple(files: seq<JobFile>, sources: map<string, int>)
    ensures var st := Idle(files, sources);
            Inv(st) && Consistent(st) && Seen(st) == Simple(false, None, NotEnded, sources)
  {
  }

  // ---------------------------------------------------------------------------------------
  // What a run leaves behind, told from the steps alone
  // ---------------------------------------------------------------------------------------

  /** At step `n` the run was started, when nothing else was. */
  ghost predicate BornAt(sources: map<string, int>, steps: seq<Step>, n: nat, run: RunId) {
    && n < |steps| && steps[n].Starts? && steps[n].run == run
    && Simulate(sources, steps[..n]).active.None? && !Simulate(sources, steps[..n]).disposed
  }

  predicate Ends(step: Step, run: RunId) {
    step.Cancels? || step.Disposes? || (step.Settles? && step.run == run)
  }

  /** A run is active exactly when it was started and nothing has cancelled, disposed or ended it since. */
  lemma {:induction false} ActiveExactly(sources: map<string, int>, steps: seq<Step>, run: RunId)
    ensures IsActive(Simulate(sources, steps), run)
        <==> exists n: nat :: BornAt(sources, steps, n, run) && forall k | n < k < |steps| :: !Ends(steps[k], run)
  {
    hide Simulate;
    if steps == [] {
      NothingSimulated(sources);
    } else {
      var front, step := steps[..|steps| - 1], Last(steps);
      assert steps == front + [step];
      ActiveExactly(sources, front, run);
      SimulateSnoc(sources, front, step);
      if IsActive(Simulate(sources, steps), run) {
        if IsActive(Simulate(sources, front), run) {
          var n: nat :| BornAt(sources, front, n, run) && forall k | n < k < |front| :: !Ends(front[k], run);
          assert front[..n] == steps[..n];
          assert BornAt(sources, steps, n, run);
        } else {
          assert steps[..|front|] == front;
          assert BornAt(sources, steps, |front|, run);
        }
      }
      if n: nat :| BornAt(sources, steps, n, run) && forall k | n < k < |steps| :: !Ends(steps[k], run) {
        if n < |front| {
          assert front[..n] == steps[..n];
          assert BornAt(sources, front, n, run);
        } else {
          assert steps[..n] == front;
        }
      }
    }
  }

  lemma NothingSimulated(sources: map<string, int>)
    ensures Simulate(sources, []) == Simple(false, None, NotEnded, sources)
  {
  }

  /** At step `n` the active run commits a value for the source. */
  ghost predicate CommittedAt(sources: map<string, int>, steps: seq<Step>, n: nat, source: string) {
    && n < |steps| && steps[n].Commits? && steps[n].source == source
    && IsActive(Simulate(sources, steps[..n]), steps[n].run)
  }

  ghost predicate IsLastCommit(sources: map<string, int>, steps: seq<Step>, n: nat, source: string) {
    CommittedAt(sources, steps, n, source) && forall k: nat | n < k :: !CommittedAt(sources, steps, k, source)
  }

  /** The last commit made by a run that was active at that moment, if there is one. */
  ghost predicate HoldsLastCommit(sources: map<string, int>, steps: seq<Step>, now: map<string, int>, source: string) {
    if exists n: nat :: CommittedAt(sources, steps, n, source) then
      exists n: nat :: IsLastCommit(sources, steps, n, source) && source in now && now[source] == steps[n].value
    else (source in now <==> source in sources) && (source in now ==> now[source] == sources[source])
  }

  lemma {:induction false} SimulationHoldsLastCommit(sources: map<string, int>, steps: seq<Step>, source: string)
    ensures HoldsLastCommit(sources, steps, Simulate(sources, steps).sources, source)
  {
    hide Simulate, IsActive, HoldsLastCommit;
    if steps == [] {
      NothingSimulated(sources);
      NothingCommitted(sources, source);
    } else {
      var front, step := steps[..|steps| - 1], Last(steps);
      assert steps == front + [step];
      SimulationHoldsLastCommit(sources, front, source);
      SimulateSnoc(sources, front, step);
      OneMoreStep(sources, front, step, source);
    }
  }

  lemma NothingCommitted(sources: map<string, int>, source: string)
    ensures HoldsLastCommit(sources, [], sources, source)
  {
  }

  lemma OneMoreStep(sources: map<string, int>, front: seq<Step>, step: Step, source: string)
    requires HoldsLastCommit(sources, front, Simulate(sources, front).sources, source)
    ensures HoldsLastCommit(sources, front + [step], Simply(Simulate(sources, front), step).sources, source)
  {
    hide Simulate;
    var steps := front + [step];
    forall k: nat | k < |front|
      ensures CommittedAt(sources, steps, k, source) <==> CommittedAt(sources, front, k, source)
    {
      assert steps[..k] == front[..k];
    }
    assert steps[..|front|] == front;
    if CommittedAt(sources, steps, |front|, source) {
      assert IsLastCommit(sources, steps, |front|, source);
    } else if n: nat :| IsLastCommit(sources, front, n, source) {
      assert IsLastCommit(sources, steps, n, source);
    }
  }

  /** In every interleaving a source has the value of the last commit of a run that was active then. */
  lemma LastCommitWins(files: seq<JobFile>, sources: map<string, int>, steps: seq<Step>, source: string)
    ensures HoldsLastCommit(sources, Performed(files, sources, steps), Interleave(files, sources, steps).sources,
              source)
  {
    hide Interleave, Performed, HoldsLastCommit;
    ExecutorIsSimple(files, sources, steps);
    SimulationHoldsLastCommit(sources, Performed(files, sources, steps), source);
  }

  // ---------------------------------------------------------------------------------------
  // Stores
  // ---------------------------------------------------------------------------------------

  /** The job of a new run: that of the newest store it can continue, or a new one. */
  ghost predicate TakesNewestStore(st: Exec, request: Request, jobId: JobId, newId: JobId) {
    if exists f | f in st.files :: Reusable(f, request, st.canceled) then
      exists f | f in st.files && Reusable(f, request, st.canceled) ::
        f.jobId == jobId
        && forall g | g in st.files && Reusable(g, request, st.canceled) :: g.updatedAt <= f.updatedAt
    else jobId == newId
  }

  /** When nothing is active a start begins a run; it works on, and shows, the job it continues. */
  lemma NewRunWorksOnItsJob(st: Exec, request: Request, run: RunId, newId: JobId)
    requires Inv(st) && Consistent(st) && !st.disposed && Seen(st).active.None?
    ensures var now := Start(st, request, run, newId);
            && run in now.runs && now.runs[run].request == request && !now.runs[run].aborted
            && now.runs[run].stage == Working && now.scan.jobId == Some(now.runs[run].jobId)
            && TakesNewestStore(st, request, now.runs[run].jobId, newId)
  {
    hide Reusable;
    NewestIsReused(st.files, request, st.canceled);
  }

  lemma {:induction false} FilePut(files: seq<JobFile>, file: JobFile)
    ensures file in PutFile(files, file)
  {
    if files != [] && files[0].jobId != file.jobId {
      FilePut(files[1..], file);
    }
  }

  /** What a run does to its own store: it saves it, and removes it when it completed or was cancelled. */
  lemma StoreOfARun(st: Exec, step: Step, run: RunId)
    requires Enabled(st, step) && RunOf(step) == Some(run)
    ensures var own, now := st.runs[run], Take(st, step);
            match step
            case SavesMeta(_, isDone, updatedAt) => JobFile(own.jobId, own.request, isDone, updatedAt) in now.files
            case Closes(_, completed) =>
              && (HasFile(now.files, own.jobId)
                  <==> HasFile(st.files, own.jobId) && !completed && own.jobId !in st.canceled)
              && run in now.runs && now.runs[run].stage == (if own.jobId in st.canceled then Closing else Unwound)
            case Forgets(_) => own.jobId !in now.canceled && run in now.runs && now.runs[run].stage == Unwound
            case Settles(_, _) => run !in now.runs && now.files == st.files
            case _ => now.files == st.files && now.canceled == st.canceled && now.runs == st.runs
  {
    hide PutFile, DropFile;
    FilesDropped(st.files, st.runs[run].jobId);
    if step.SavesMeta? {
      FilePut(st.files, JobFile(st.runs[run].jobId, st.runs[run].request, step.isDone, step.updatedAt));
    }
  }

  // ---------------------------------------------------------------------------------------
  // The executor
  // ---------------------------------------------------------------------------------------

  class Executor {
    var scan: Scan
    var scanPaused: bool
    var scanAbortController: Option<RunId>
    var activeScanRequest: Option<Request>
    var progressBeforePause: Option<Progress>
    var canceledScanJobs: set<JobId>
    var sources: map<string, int>
    var disposed: bool
    var activeScans: map<RunId, Run>
    var directory: seq<JobFile>

    function View(): Exec
      reads this
    {
      Exec(scan, scanPaused, scanAbortController, activeScanRequest, progressBeforePause, canceledScanJobs, sources,
          disposed, activeScans, directory)
    }

    constructor (files: seq<JobFile>, sources: map<string, int>)
      ensures View() == Idle(files, sources)
    {
      scan, scanPaused, scanAbortController, activeScanRequest, progressBeforePause :=
          EMPTY_SCAN, false, None, None, None;
      canceledScanJobs, this.sources, disposed, activeScans, directory := {}, sources, false, map[], files;
    }

    /** `None` is a conflict. */
    method StartScan(request: Request, run: RunId, newId: JobId) returns (jobId: Option<JobId>)
      modifies this
      ensures View() == Start(old(View()), request, run, newId)
      ensures jobId.Some? ==> scan.running && scan.jobId == jobId
      ensures jobId.None? ==> View() == old(View())
      ensures Inv(old(View())) && Consistent(old(View())) ==> (jobId.Some? <==> Accepts(Seen(old(View())), request))
    {
      if disposed || scan.running { return None; }
      if scanPaused && scanAbortController.Some? && activeScanRequest.Some? && scan.jobId.Some? {
        if !SameRequest(activeScanRequest.value, request) { return None; }
        scanPaused := false;
        scan := scan.(running := true, ending := if scan.ending == Failed then NotEnded else scan.ending,
                      progress := if progressBeforePause.Some? then progressBeforePause
                          else Some(Progress(request.sourceId, "scan", 0, 0)));
        return scan.jobId;
      }
      if scanPaused { return None; }
      var found := FindReusableScanJob(directory, request, canceledScanJobs);
      var id := if found.Some? then found.value.jobId else newId;
      scan := Scan(true, Some(id), Some(request), None, NotEnded);
      activeScanRequest := Some(request);
      progressBeforePause := None;
      scanAbortController := Some(run);
      activeScans := activeScans[run := Run(id, request, false, Working)];
      return Some(id);
    }

    method PauseScan() returns (ok: bool)
      modifies this
      ensures View() == Pause(old(View()))
      ensures ok ==> scanPaused
    {
      if scanPaused { return true; }
      if !scan.running || scanAbortController.None? || activeScanRequest.None? { return false; }
      progressBeforePause := scan.progress;
      scanPaused := true;
      var current, total := 0, 0;
      var sourceId := activeScanRequest.value.sourceId;
      if scan.progress.Some? {
        sourceId, current, total :=
            scan.progress.value.sourceId, scan.progress.value.current, scan.progress.value.total;
      }
      scan := scan.(running := false, progress := Some(Progress(sourceId, "stopped", current, total)));
      return true;
    }

    method AbortController()
      modifies `activeScans
      ensures activeScans == Abort(old(View()))
    {
      if scanAbortController.Some? && scanAbortController.value in activeScans {
        var run := scanAbortController.value;
        activeScans := activeScans[run := activeScans[run].(aborted := true)];
      }
    }

    method CancelScan()
      modifies this
      ensures View() == Cancel(old(View()))
    {
      if scanAbortController.None? && !scanPaused { return; }
      var jobId := scan.jobId;
      scanPaused := false;
      AbortController();
      if jobId.Some? { canceledScanJobs := canceledScanJobs + {jobId.value}; }
      scan := EMPTY_SCAN;
      activeScanRequest := None;
      progressBeforePause := None;
    }

    method DisposeAll()
      modifies this
      ensures View() == Dispose(old(View()))
    {
      disposed := true;
      scanPaused := false;
      AbortController();
    }

    method OnProgress(run: RunId, progress: Progress)
      requires run in activeScans
      modifies this
      ensures View() == Report(old(View()), run, progress)
    {
      if scan.jobId == Some(activeScans[run].jobId) && !activeScans[run].aborted && !scanPaused {
        progressBeforePause := Some(progress);
        scan := scan.(progress := Some(progress));
      }
    }

    /** Throws, that is answers `false`, when the run was aborted or replaced while the state file was written. */
    method CommitSource(run: RunId, source: string, value: int, progress: Progress) returns (ok: bool)
      requires run in activeScans
      modifies this
      ensures View() == Commit(old(View()), run, source, value, progress)
      ensures ok == Shows(old(View()), run)
    {
      if activeScans[run].aborted { return false; }
      if scan.jobId != Some(activeScans[run].jobId) { return false; }
      sources := sources[source := value];
      scan := scan.(progress := Some(progress));
      return true;
    }

    /** The `finally` of a run, up to the removal of its store. */
    method CloseStore(run: RunId, completed: bool)
      requires run in activeScans && activeScans[run].stage == Working
      modifies `directory, `activeScans
      ensures View() == Close(old(View()), run, completed)
    {
      var jobId := activeScans[run].jobId;
      if completed { directory := DropFile(directory, jobId); }
      if jobId in canceledScanJobs {
        directory := if completed then directory else DropFile(directory, jobId);
        activeScans := activeScans[run := activeScans[run].(stage := Closing)];
      } else {
        activeScans := activeScans[run := activeScans[run].(stage := Unwound)];
      }
    }

    method ForgetCanceled(run: RunId)
      requires run in activeScans && activeScans[run].stage == Closing
      modifies `canceledScanJobs, `activeScans
      ensures View() == Forget(old(View()), run)
    {
      canceledScanJobs := canceledScanJobs - {activeScans[run].jobId};
      activeScans := activeScans[run := activeScans[run].(stage := Unwound)];
    }

    method OnSettled(run: RunId, succeeded: bool)
      requires run in activeScans && activeScans[run].stage == Unwound
      modifies this
      ensures View() == Settle(old(View()), run, succeeded)
    {
      var jobId := activeScans[run].jobId;
      if succeeded {
        if scan.jobId == Some(jobId) { scan := scan.(running := false, ending := Completed); }
      } else if scan.jobId == Some(jobId) && !activeScans[run].aborted {
        scan := scan.(running := false, ending := Failed);
      }
      activeScans := activeScans - {run};
      if scanAbortController == Some(run) {
        scanAbortController := None;
        activeScanRequest := None;
        scanPaused := false;
        progressBeforePause := None;
      }
    }
  }
}
