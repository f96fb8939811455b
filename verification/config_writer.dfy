/**
 Any number of processes that change the configuration file under a lock directory
 (Memory/src/config/writer.ts). Every process is one call of `mutateMemoryConfig`; the steps are
 the file operations, and a process may crash between any two of them.
 */
module ConfigWriter {
  import opened Wrappers

  type ProcId = nat
  type Time = int
  type Root = map<string, string>

  const LOCK_TIMEOUT_MS: int := 5000
  const STALE_LOCK_MS: int := 120000

  /** The configuration file: a parsed document is a record or something else. */
  datatype File = Missing | Document(root: Option<Root>) | Unparsable

  /** The lock directory and when it was made; the owner is not on disk. */
  datatype Lock = Lock(owner: ProcId, madeAt: Time)

  datatype Phase =
    | Trying(since: Time)
    | Contended(since: Time)    // the directory existed
    | SawStale(since: Time)     // and it was old
    | Locked
    | HasRoot(root: Root)
    | HasTemporary(root: Root)  // the mutated document is in the temporary file
    | Releasing(changed: bool)
    | Finished(changed: bool)
    | TimedOut
    | Dead(changed: bool)

  /** `acquired` and `committed` list processes by when they got the lock and when they renamed. */
  datatype World = World(
    now: Time, file: File, lock: Option<Lock>, procs: map<ProcId, Phase>, acquired: seq<ProcId>, committed: seq<ProcId>)

  datatype Action = Begin | TryLock | StatLock | RemoveStale | ReadRoot | WriteTemporary | Rename | Fail | Release
      | Crash

  datatype Step = Tick(ms: nat) | Act(proc: ProcId, action: Action)

  type Mutations = (ProcId, Root) -> Root

  function RootOf(file: File): Root {
    if file.Document? && file.root.Some? then file.root.value else map[]
  }

  predicate Changed(phase: Phase) {
    match phase
    case Releasing(changed) => changed
    case Finished(changed) => changed
    case Dead(changed) => changed
    case _ => false
  }

  /** Between getting the lock and giving it back. */
  predicate Holds(phase: Phase) {
    phase.Locked? || phase.HasRoot? || phase.HasTemporary? || phase.Releasing?
  }

  predicate Enabled(w: World, step: Step) {
    match step
    case Tick(_) => true
    case Act(p, action) =>
      if p !in w.procs then action == Begin
      else
        var phase := w.procs[p];
        match action
        case Begin => false
        case TryLock => phase.Trying?
        case StatLock => phase.Contended?
        case RemoveStale => phase.SawStale?
        case ReadRoot => phase.Locked? && !w.file.Unparsable?
        case WriteTemporary => phase.HasRoot?
        case Rename => phase.HasTemporary?
        case Fail => phase.Locked? || phase.HasRoot? || phase.HasTemporary?
        case Release => phase.Releasing?
        case Crash => !phase.Dead?
  }

  function Move(w: World, p: ProcId, phase: Phase): World {
    w.(procs := w.procs[p := phase])
  }

  function Take(mutate: Mutations, w: World, step: Step): World
    requires Enabled(w, step)
  {
    match step
    case Tick(ms) => w.(now := w.now + ms)
    case Act(p, action) =>
      match action
      case Begin => Move(w, p, Trying(w.now))
      case TryLock =>
        if w.lock.None? then Move(w, p, Locked).(lock := Some(Lock(p, w.now)), acquired := w.acquired + [p])
        else Move(w, p, Contended(w.procs[p].since))
      case StatLock =>
        var since := w.procs[p].since;
        if w.lock.Some? && w.now - w.lock.value.madeAt > STALE_LOCK_MS then Move(w, p, SawStale(since))
        else if w.now - since >= LOCK_TIMEOUT_MS then Move(w, p, TimedOut)
        else Move(w, p, Trying(since))
      case RemoveStale => Move(w, p, Trying(w.procs[p].since)).(lock := None)
      case ReadRoot => Move(w, p, HasRoot(RootOf(w.file)))
      case WriteTemporary => Move(w, p, HasTemporary(mutate(p, w.procs[p].root)))
      case Rename => Move(w, p, Releasing(true)).(file := Document(Some(w.procs[p].root)),
          committed := w.committed + [p])
      case Fail => Move(w, p, Releasing(false))
      case Release => Move(w, p, Finished(w.procs[p].changed)).(lock := None)
      case Crash => Move(w, p, Dead(Changed(w.procs[p])))
  }

  /** The lock is of no one alive. */
  predicate Abandoned(w: World) {
    w.lock.None? || w.lock.value.owner !in w.procs || w.procs[w.lock.value.owner].Dead?
  }

  /** Removing a stale lock is safe when its owner is dead; it is not when the owner is only slow. */
  predicate Safe(w: World, step: Step) {
    step.Act? && step.action == RemoveStale ==> Abandoned(w)
  }

  /** The mutations of `procs`, one after the other. */
  function Fold(mutate: Mutations, root: Root, procs: seq<ProcId>): Root {
    if procs == [] then root else mutate(Last(procs), Fold(mutate, root, procs[..|procs| - 1]))
  }

  /** Those of `order` whose change reached the file. */
  function ChangedOnes(procs: map<ProcId, Phase>, order: seq<ProcId>): seq<ProcId> {
    if order == [] then []
    else
      ChangedOnes(procs, order[..|order| - 1])
      + if Last(order) in procs && Changed(procs[Last(order)]) then [Last(order)] else []
  }

  /** A process inside owns the lock, was the last to get it, and works on what is in the file. */
  ghost predicate ProcessFits(mutate: Mutations, w: World, p: ProcId)
    requires p in w.procs
  {
    var phase := w.procs[p];
    && (Holds(phase) ==> w.lock.Some? && w.lock.value.owner == p && w.acquired != [] && Last(w.acquired) == p)
    && (phase.HasRoot? ==> phase.root == RootOf(w.file))
    && (phase.HasTemporary? ==> phase.root == mutate(p, RootOf(w.file)))
    && (p in w.acquired ==> Holds(phase) || phase.Finished? || phase.Dead?)
  }

  ghost predicate Once(w: World) {
    && (forall p | p in w.acquired :: p in w.procs)
    && (forall i, j | 0 <= i < j < |w.acquired| :: w.acquired[i] != w.acquired[j])
  }

  ghost predicate FileHolds(mutate: Mutations, start: File, w: World) {
    && w.committed == ChangedOnes(w.procs, w.acquired)
    && RootOf(w.file) == Fold(mutate, RootOf(start), w.committed)
    && (w.committed == [] ==> w.file == start)
  }

  /** The lock is of a process that is inside, or that crashed there. */
  ghost predicate LockOwned(w: World) {
    w.lock.Some? ==>
      && w.lock.value.owner in w.procs
      && (Holds(w.procs[w.lock.value.owner]) || w.procs[w.lock.value.owner].Dead?)
  }

  ghost predicate Inv(mutate: Mutations, start: File, w: World) {
    && (forall p | p in w.procs :: ProcessFits(mutate, w, p))
    && Once(w) && FileHolds(mutate, start, w) && LockOwned(w)
  }

  lemma {:induction false} SameChanged(procs: map<ProcId, Phase>, now: map<ProcId, Phase>, order: seq<ProcId>)
    requires forall p | p in order :: (p in procs && Changed(procs[p])) == (p in now && Changed(now[p]))
    ensures ChangedOnes(procs, order) == ChangedOnes(now, order)
  {
    if order != [] {
      assert order == order[..|order| - 1] + [Last(order)];
      SameChanged(procs, now, order[..|order| - 1]);
    }
  }

  lemma FoldSnoc(mutate: Mutations, root: Root, procs: seq<ProcId>, p: ProcId)
    ensures Fold(mutate, root, procs + [p]) == mutate(p, Fold(mutate, root, procs))
  {
  }

  /** Only a rename changes what reached the file. */
  lemma OtherStepsKeepChanged(mutate: Mutations, w: World, step: Step)
    requires Enabled(w, step) && !(step.Act? && step.action == Rename)
    ensures var now := Take(mutate, w, step);
            forall p :: (p in w.procs && Changed(w.procs[p])) == (p in now.procs && Changed(now.procs[p]))
  {
  }

  /** With a safe step every process still fits. */
  lemma ProcessStillFits(mutate: Mutations, w: World, step: Step, q: ProcId)
    requires Enabled(w, step) && Safe(w, step) && q in Take(mutate, w, step).procs
    requires forall p | p in w.procs :: ProcessFits(mutate, w, p)
    requires q !in w.procs ==> q !in w.acquired
    ensures ProcessFits(mutate, Take(mutate, w, step), q)
  {
    assert q in w.procs ==> ProcessFits(mutate, w, q);
    assert step.Act? && step.proc in w.procs ==> ProcessFits(mutate, w, step.proc);
  }

  lemma LockKeepsInv(mutate: Mutations, start: File, w: World, p: ProcId)
    requires Once(w) && FileHolds(mutate, start, w) && Enabled(w, Act(p, TryLock)) && w.lock.None?
        && ProcessFits(mutate, w, p)
    ensures var now := Take(mutate, w, Act(p, TryLock));
            Once(now) && FileHolds(mutate, start, now)
  {
    hide Fold, RootOf;
    var now := Take(mutate, w, Act(p, TryLock));
    OtherStepsKeepChanged(mutate, w, Act(p, TryLock));
    SameChanged(w.procs, now.procs, w.acquired);
    assert p !in w.acquired;
    assert now.acquired[..|w.acquired|] == w.acquired;
    assert ChangedOnes(now.procs, now.acquired) == ChangedOnes(now.procs, w.acquired);
  }

  lemma RenameKeepsInv(mutate: Mutations, start: File, w: World, p: ProcId)
    requires Once(w) && FileHolds(mutate, start, w) && Enabled(w, Act(p, Rename)) && ProcessFits(mutate, w, p)
    ensures var now := Take(mutate, w, Act(p, Rename));
            Once(now) && FileHolds(mutate, start, now)
  {
    hide Fold;
    var now := Take(mutate, w, Act(p, Rename));
    var front := w.acquired[..|w.acquired| - 1];
    assert w.acquired == front + [p];
    assert forall i | 0 <= i < |front| :: front[i] != w.acquired[|front|];
    SameChanged(w.procs, now.procs, front);
    FoldSnoc(mutate, RootOf(start), w.committed, p);
  }

  lemma OtherStepsKeepRest(mutate: Mutations, w: World, step: Step)
    requires Enabled(w, step)
    requires step.Act? ==> step.action != Rename && (step.action == TryLock ==> w.lock.Some?)
    ensures var now := Take(mutate, w, step);
            now.acquired == w.acquired && now.committed == w.committed && now.file == w.file
                && w.procs.Keys <= now.procs.Keys
  {
  }

  lemma OtherKeepsInv(mutate: Mutations, start: File, w: World, step: Step)
    requires Once(w) && FileHolds(mutate, start, w) && Enabled(w, step)
    requires step.Act? ==> step.action != Rename && (step.action == TryLock ==> w.lock.Some?)
    ensures var now := Take(mutate, w, step);
            Once(now) && FileHolds(mutate, start, now)
  {
    hide Fold, RootOf, Changed, Take, ChangedOnes;
    OtherStepsKeepChanged(mutate, w, step);
    OtherStepsKeepRest(mutate, w, step);
    SameChanged(w.procs, Take(mutate, w, step).procs, w.acquired);
  }

  lemma StepKeepsLockOwned(mutate: Mutations, w: World, step: Step)
    requires LockOwned(w) && Enabled(w, step)
    ensures LockOwned(Take(mutate, w, step))
  {
  }

  lemma AcquiredAreKnown(w: World, p: ProcId)
    requires Once(w)
    ensures p !in w.procs ==> p !in w.acquired
  {
  }

  lemma StepKeepsInv(mutate: Mutations, start: File, w: World, step: Step)
    requires Inv(mutate, start, w) && Enabled(w, step) && Safe(w, step)
    ensures Inv(mutate, start, Take(mutate, w, step))
  {
    hide ProcessFits, Once, FileHolds, LockOwned, Take, Safe;
    StepKeepsLockOwned(mutate, w, step);
    forall p | p in Take(mutate, w, step).procs ensures ProcessFits(mutate, Take(mutate, w, step), p) {
      AcquiredAreKnown(w, p);
      ProcessStillFits(mutate, w, step, p);
    }
    if step.Act? && step.action == TryLock && w.lock.None? {
      LockKeepsInv(mutate, start, w, step.proc);
    } else if step.Act? && step.action == Rename {
      RenameKeepsInv(mutate, start, w, step.proc);
    } else {
      OtherKeepsInv(mutate, start, w, step);
    }
  }

  function Start(now: Time, file: File): World {
    World(now, file, None, map[], [], [])
  }

  /** Any interleaving; a step that is not possible is left out. */
  function Interleave(mutate: Mutations, w: World, steps: seq<Step>): World {
    if steps == [] then w
    else
      var before := Interleave(mutate, w, steps[..|steps| - 1]);
      if Enabled(before, Last(steps)) then Take(mutate, before, Last(steps)) else before
  }

  /** No lock of a live process is ever removed as stale. */
  ghost predicate NoLiveLockRemoved(mutate: Mutations, w: World, steps: seq<Step>) {
    forall n | 0 <= n < |steps| ::
      var before := Interleave(mutate, w, steps[..n]);
      Enabled(before, steps[n]) ==> Safe(before, steps[n])
  }

  lemma {:induction false} InterleavingsKeepInv(mutate: Mutations, now: Time, file: File, steps: seq<Step>)
    requires NoLiveLockRemoved(mutate, Start(now, file), steps)
    ensures Inv(mutate, file, Interleave(mutate, Start(now, file), steps))
  {
    hide Inv, Enabled, Take, Safe;
    if steps == [] {
      StartIsFine(mutate, now, file);
    } else {
      var front := steps[..|steps| - 1];
      forall n | 0 <= n < |front| ensures steps[..n] == front[..n] && steps[n] == front[n] {
      }
      InterleavingsKeepInv(mutate, now, file, front);
      assert steps[..|steps| - 1] == front && steps[|steps| - 1] == Last(steps);
      var before := Interleave(mutate, Start(now, file), front);
      if Enabled(before, Last(steps)) {
        StepKeepsInv(mutate, file, before, Last(steps));
      }
    }
  }

  lemma StartIsFine(mutate: Mutations, now: Time, file: File)
    ensures Inv(mutate, file, Start(now, file))
  {
  }

  ghost predicate Exclusive(w: World) {
    forall p, q | p in w.procs && q in w.procs && Holds(w.procs[p]) && Holds(w.procs[q]) :: p == q
  }

  lemma InvIsExclusive(mutate: Mutations, start: File, w: World)
    requires Inv(mutate, start, w)
    ensures Exclusive(w)
  {
  }

  /**
   Writers serialise: at most one process is between getting the lock and releasing it, and the
   file always holds the changes of the processes that renamed, applied in the order in which they
   got the lock.
   */
  lemma WritersSerialise(mutate: Mutations, now: Time, file: File, steps: seq<Step>)
    requires NoLiveLockRemoved(mutate, Start(now, file), steps)
    ensures var w := Interleave(mutate, Start(now, file), steps);
            && Exclusive(w)
            && RootOf(w.file) == Fold(mutate, RootOf(file), ChangedOnes(w.procs, w.acquired))
            && (ChangedOnes(w.procs, w.acquired) == [] ==> w.file == file)
  {
    hide Interleave, Exclusive;
    InterleavingsKeepInv(mutate, now, file, steps);
    InvIsExclusive(mutate, file, Interleave(mutate, Start(now, file), steps));
  }

  /**
   Removing a lock that looked stale, and taking it, keeps one process inside exactly when the lock
   that is removed has no live owner at that moment - whatever its age, and whatever the owner does.
   */
  lemma RemovalIsSafeExactly(mutate: Mutations, start: File, w: World, q: ProcId)
    requires Inv(mutate, start, w) && q in w.procs && w.procs[q].SawStale?
    ensures var removed := Take(mutate, w, Act(q, RemoveStale));
            Enabled(removed, Act(q, TryLock)) && (Exclusive(Take(mutate, removed, Act(q, TryLock))) <==> Abandoned(w))
  {
    var removed := Take(mutate, w, Act(q, RemoveStale));
    var locked := Take(mutate, removed, Act(q, TryLock));
    if Abandoned(w) {
      StepKeepsInv(mutate, start, w, Act(q, RemoveStale));
      StepKeepsInv(mutate, start, removed, Act(q, TryLock));
      InvIsExclusive(mutate, start, locked);
    } else {
      var p := w.lock.value.owner;
      assert Holds(locked.procs[p]) && Holds(locked.procs[q]) && p != q;
    }
  }

  /** No process is inside with another one, and the next to try the lock would not be either. */
  ghost predicate Unshared(mutate: Mutations, w: World) {
    Exclusive(w) && forall q | Enabled(w, Act(q, TryLock)) :: Exclusive(Take(mutate, w, Act(q, TryLock)))
  }

  ghost predicate NeverShared(mutate: Mutations, w: World, steps: seq<Step>) {
    forall n | 0 <= n <= |steps| :: Unshared(mutate, Interleave(mutate, w, steps[..n]))
  }

  lemma InvIsUnshared(mutate: Mutations, start: File, w: World)
    requires Inv(mutate, start, w)
    ensures Unshared(mutate, w)
  {
    hide Inv, Exclusive, Take;
    InvIsExclusive(mutate, start, w);
    forall q | Enabled(w, Act(q, TryLock)) ensures Exclusive(Take(mutate, w, Act(q, TryLock))) {
      StepKeepsInv(mutate, start, w, Act(q, TryLock));
      InvIsExclusive(mutate, start, Take(mutate, w, Act(q, TryLock)));
    }
  }

  lemma UnsafeIsShared(mutate: Mutations, start: File, w: World, step: Step)
    requires Inv(mutate, start, w) && Enabled(w, step) && !Safe(w, step)
    ensures !Unshared(mutate, Take(mutate, w, step))
  {
    hide Inv, Exclusive;
    RemovalIsSafeExactly(mutate, start, w, step.proc);
  }

  /** Mutual exclusion holds throughout a run exactly when no step of it removes the lock of a live process. */
  lemma {:induction false} ExclusionExactly(mutate: Mutations, now: Time, file: File, steps: seq<Step>)
    ensures NoLiveLockRemoved(mutate, Start(now, file), steps) <==> NeverShared(mutate, Start(now, file), steps)
  {
    hide Inv, Enabled, Take, Safe, Unshared;
    var start := Start(now, file);
    if steps == [] {
      StartIsFine(mutate, now, file);
      InvIsUnshared(mutate, file, start);
      assert forall n | 0 <= n <= |steps| :: steps[..n] == [];
    } else {
      var front, last := steps[..|steps| - 1], Last(steps);
      var before := Interleave(mutate, start, front);
      ExclusionExactly(mutate, now, file, front);
      assert forall n | 0 <= n <= |front| :: steps[..n] == front[..n];
      assert front[..|front|] == front && steps[..|steps|] == steps && steps[|front|] == last;
      FrontOfRun(mutate, start, steps);
      if NoLiveLockRemoved(mutate, start, front) {
        InterleavingsKeepInv(mutate, now, file, front);
        if Enabled(before, last) {
          LastStepDecides(mutate, file, before, last);
        }
      }
    }
  }

  lemma FrontOfRun(mutate: Mutations, w: World, steps: seq<Step>)
    requires steps != []
    ensures var front := steps[..|steps| - 1];
            var before := Interleave(mutate, w, front);
            && (NoLiveLockRemoved(mutate, w, steps)
                <==> (NoLiveLockRemoved(mutate, w, front)
                      && (Enabled(before, Last(steps)) ==> Safe(before, Last(steps)))))
            && (NeverShared(mutate, w, steps)
                <==> NeverShared(mutate, w, front) && Unshared(mutate, Interleave(mutate, w, steps)))
            && (NeverShared(mutate, w, front) ==> Unshared(mutate, before))
  {
    hide Enabled, Take, Safe, Unshared, Interleave;
    var front := steps[..|steps| - 1];
    assert forall n | 0 <= n <= |front| :: steps[..n] == front[..n];
    assert forall n | 0 <= n < |front| :: steps[n] == front[n];
    assert front[..|front|] == front && steps[..|steps|] == steps && steps[|front|] == Last(steps);
  }

  lemma LastStepDecides(mutate: Mutations, start: File, w: World, step: Step)
    requires Inv(mutate, start, w) && Enabled(w, step)
    ensures Safe(w, step) <==> Unshared(mutate, Take(mutate, w, step))
  {
    hide Inv, Enabled, Take, Safe, Unshared;
    if Safe(w, step) {
      StepKeepsInv(mutate, start, w, step);
      InvIsUnshared(mutate, start, Take(mutate, w, step));
    } else {
      UnsafeIsShared(mutate, start, w, step);
    }
  }

  /** At no moment is there a lock older than the stale limit. */
  ghost predicate LocksStayFresh(mutate: Mutations, w: World, steps: seq<Step>) {
    forall n | 0 <= n <= |steps| :: Fresh(Interleave(mutate, w, steps[..n]))
  }

  predicate Fresh(w: World) {
    w.lock.Some? ==> w.now - w.lock.value.madeAt <= STALE_LOCK_MS
  }

  ghost predicate NoneSawStale(w: World) {
    forall p | p in w.procs :: !w.procs[p].SawStale?
  }

  lemma FreshLocksAreLeft(mutate: Mutations, w: World, step: Step)
    requires Fresh(w) && NoneSawStale(w) && Enabled(w, step)
    ensures Safe(w, step) && NoneSawStale(Take(mutate, w, step))
  {
  }

  /** What a caller can see to: when every process is done with its lock in time, no live lock is removed. */
  lemma {:induction false} FreshLocksAreNotRemoved(mutate: Mutations, now: Time, file: File, steps: seq<Step>)
    requires LocksStayFresh(mutate, Start(now, file), steps)
    ensures NoLiveLockRemoved(mutate, Start(now, file), steps)
    ensures NoneSawStale(Interleave(mutate, Start(now, file), steps))
  {
    hide Enabled, Take, Safe, Fresh, NoneSawStale;
    var start := Start(now, file);
    if steps == [] {
      NoneAtStart(now, file);
    } else {
      var front := steps[..|steps| - 1];
      assert forall n | 0 <= n <= |front| :: steps[..n] == front[..n];
      assert front[..|front|] == front;
      FreshLocksAreNotRemoved(mutate, now, file, front);
      FrontOfRun(mutate, start, steps);
      var before := Interleave(mutate, start, front);
      if Enabled(before, Last(steps)) {
        FreshLocksAreLeft(mutate, before, Last(steps));
      }
    }
  }

  lemma NoneAtStart(now: Time, file: File)
    ensures NoneSawStale(Start(now, file))
  {
  }

  /** So in a run in which every process is done with its lock in time, writers serialise. */
  lemma WritersInTimeSerialise(mutate: Mutations, now: Time, file: File, steps: seq<Step>)
    requires LocksStayFresh(mutate, Start(now, file), steps)
    ensures NeverShared(mutate, Start(now, file), steps)
    ensures var w := Interleave(mutate, Start(now, file), steps);
            RootOf(w.file) == Fold(mutate, RootOf(file), ChangedOnes(w.procs, w.acquired))
  {
    hide LocksStayFresh, NoLiveLockRemoved, NeverShared, Interleave;
    FreshLocksAreNotRemoved(mutate, now, file, steps);
    ExclusionExactly(mutate, now, file, steps);
    WritersSerialise(mutate, now, file, steps);
  }

  /** A process that is slower than the stale limit loses the lock, and both are inside. */
  lemma StaleLockOfLiveProcessIsShared(mutate: Mutations, w: World, p: ProcId, q: ProcId)
    requires p in w.procs && Holds(w.procs[p]) && q in w.procs && w.procs[q].Contended? && p != q
    requires w.lock.Some? && w.lock.value.owner == p && w.now - w.lock.value.madeAt > STALE_LOCK_MS
    ensures var steps := [Act(q, StatLock), Act(q, RemoveStale), Act(q, TryLock)];
            var after := Interleave(mutate, w, steps);
            && p in after.procs && Holds(after.procs[p]) && q in after.procs && Holds(after.procs[q])
            && !NoLiveLockRemoved(mutate, w, steps)
  {
    var a, b, c := Act(q, StatLock), Act(q, RemoveStale), Act(q, TryLock);
    InterleavePair(mutate, w, a, b);
    InterleaveSnoc(mutate, w, [], a);
    InterleaveSnoc(mutate, w, [a, b], c);
    assert [a, b, c] == [a, b] + [c] && [] + [a] == [a];
    var steps := [a, b, c];
    assert steps[..1] == [a] && steps[1] == b;
    assert !Safe(Interleave(mutate, w, steps[..1]), steps[1]);
  }

  /**
   Two processes that saw the lock of a crashed one remove it in turn: the second removal takes a
   lock that was made this instant, and both are inside.
   */
  lemma SecondRemoverTakesAFreshLock(mutate: Mutations, w: World, p: ProcId, q: ProcId)
    requires p in w.procs && q in w.procs && p != q && w.procs[p].SawStale? && w.procs[q].SawStale? && Abandoned(w)
    ensures var first := Interleave(mutate, w, [Act(p, RemoveStale), Act(p, TryLock)]);
            var second := Interleave(mutate, first, [Act(q, RemoveStale), Act(q, TryLock)]);
            && first.lock == Some(Lock(p, first.now))
            && p in second.procs && Holds(second.procs[p]) && q in second.procs && Holds(second.procs[q])
  {
    InterleavePair(mutate, w, Act(p, RemoveStale), Act(p, TryLock));
    InterleavePair(mutate, Interleave(mutate, w, [Act(p, RemoveStale), Act(p, TryLock)]), Act(q, RemoveStale),
        Act(q, TryLock));
  }

  lemma InterleavePair(mutate: Mutations, w: World, a: Step, b: Step)
    ensures var one := if Enabled(w, a) then Take(mutate, w, a) else w;
            Interleave(mutate, w, [a, b]) == if Enabled(one, b) then Take(mutate, one, b) else one
  {
    InterleaveSnoc(mutate, w, [], a);
    InterleaveSnoc(mutate, w, [a], b);
    assert [] + [a] == [a] && [a] + [b] == [a, b];
  }

  /** Such a state is reached: one process crashes inside, and two find its lock older than the limit. */
  const CRASHED_INSIDE: seq<Step> := [Act(0, Begin), Act(0, TryLock), Act(0, Crash), Tick(STALE_LOCK_MS + 1)]

  function FindsItStale(p: ProcId): seq<Step> {
    [Act(p, Begin), Act(p, TryLock), Act(p, StatLock)]
  }

  lemma TwoRemoversAreReached(mutate: Mutations, now: Time, file: File)
    ensures var crashed := Interleave(mutate, Start(now, file), CRASHED_INSIDE);
            var w := Interleave(mutate, Interleave(mutate, crashed, FindsItStale(1)), FindsItStale(2));
            1 in w.procs && 2 in w.procs && w.procs[1].SawStale? && w.procs[2].SawStale? && Abandoned(w)
  {
    hide Interleave;
    var start := Start(now, file);
    InterleavePair(mutate, start, Act(0, Begin), Act(0, TryLock));
    InterleaveSnoc(mutate, start, [Act(0, Begin), Act(0, TryLock)], Act(0, Crash));
    InterleaveSnoc(mutate, start, [Act(0, Begin), Act(0, TryLock), Act(0, Crash)], Tick(STALE_LOCK_MS + 1));
    assert [Act(0, Begin), Act(0, TryLock)] + [Act(0, Crash)] == [Act(0, Begin), Act(0, TryLock), Act(0, Crash)];
    assert [Act(0, Begin), Act(0, TryLock), Act(0, Crash)] + [Tick(STALE_LOCK_MS + 1)] == CRASHED_INSIDE;
    var crashed := Interleave(mutate, start, CRASHED_INSIDE);
    ProcessFindsItStale(mutate, crashed, 1);
    ProcessFindsItStale(mutate, Interleave(mutate, crashed, FindsItStale(1)), 2);
  }

  lemma ProcessFindsItStale(mutate: Mutations, w: World, p: ProcId)
    requires p !in w.procs && w.lock.Some? && w.now - w.lock.value.madeAt > STALE_LOCK_MS
    ensures Interleave(mutate, w, FindsItStale(p)) == Move(w, p, SawStale(w.now))
  {
    InterleavePair(mutate, w, Act(p, Begin), Act(p, TryLock));
    InterleaveSnoc(mutate, w, [Act(p, Begin), Act(p, TryLock)], Act(p, StatLock));
    assert [Act(p, Begin), Act(p, TryLock)] + [Act(p, StatLock)] == FindsItStale(p);
  }

  lemma InterleaveSnoc(mutate: Mutations, w: World, steps: seq<Step>, step: Step)
    ensures var before := Interleave(mutate, w, steps);
            Interleave(mutate, w, steps + [step])
                == if Enabled(before, step) then Take(mutate, before, step) else before
  {
  }

  /** What that costs: the slower writer overwrites a change that was already in the file. */
  lemma SharedLockLosesAChange(mutate: Mutations, w: World, p: ProcId, q: ProcId)
    requires p in w.procs && q in w.procs && p != q && w.procs[p].HasRoot? && w.procs[q].HasRoot?
    ensures var steps := [Act(q, WriteTemporary), Act(q, Rename), Act(p, WriteTemporary), Act(p, Rename)];
            var after := Interleave(mutate, w, steps);
            && after.committed == w.committed + [q] + [p]
            && RootOf(after.file) == mutate(p, w.procs[p].root)
  {
    var a, b, c, d := Act(q, WriteTemporary), Act(q, Rename), Act(p, WriteTemporary), Act(p, Rename);
    InterleaveSnoc(mutate, w, [], a);
    InterleaveSnoc(mutate, w, [a], b);
    InterleaveSnoc(mutate, w, [a, b], c);
    InterleaveSnoc(mutate, w, [a, b, c], d);
    assert [a, b] == [a] + [b] && [a, b, c] == [a, b] + [c] && [a, b, c, d] == [a, b, c] + [d] && [a] == [] + [a];
  }

  /** A process that nobody disturbs changes the file and leaves no lock; nothing else is touched. */
  lemma UndisturbedWriterCommits(mutate: Mutations, w: World, p: ProcId)
    requires p !in w.procs && w.lock.None? && !w.file.Unparsable?
    ensures var once := Interleave(mutate, w, [Act(p, Begin), Act(p, TryLock)]);
            var read := Interleave(mutate, once, [Act(p, ReadRoot), Act(p, WriteTemporary)]);
            var after := Interleave(mutate, read, [Act(p, Rename), Act(p, Release)]);
            && after.file == Document(Some(mutate(p, RootOf(w.file)))) && after.lock.None? && after.now == w.now
            && after.procs == w.procs[p := Finished(true)]
            && after.acquired == w.acquired + [p] && after.committed == w.committed + [p]
  {
    var once := Interleave(mutate, w, [Act(p, Begin), Act(p, TryLock)]);
    var read := Interleave(mutate, once, [Act(p, ReadRoot), Act(p, WriteTemporary)]);
    InterleavePair(mutate, w, Act(p, Begin), Act(p, TryLock));
    InterleavePair(mutate, once, Act(p, ReadRoot), Act(p, WriteTemporary));
    InterleavePair(mutate, read, Act(p, Rename), Act(p, Release));
    hide Interleave;
  }

  /** A process that found the lock taken gives up after five seconds, unless the lock is over two minutes old. */
  lemma GivesUpExactly(mutate: Mutations, w: World, p: ProcId)
    requires p in w.procs && w.procs[p].Contended?
    ensures var stale := w.lock.Some? && w.now - w.lock.value.madeAt > 120_000;
            var phase := Take(mutate, w, Act(p, StatLock)).procs[p];
            && (phase.SawStale? <==> stale)
            && (phase.TimedOut? <==> !stale && w.now - w.procs[p].since >= 5_000)
            && (phase.Trying? <==> !stale && w.now - w.procs[p].since < 5_000)
            && (!phase.TimedOut? ==> phase.since == w.procs[p].since)
  {
  }
}
