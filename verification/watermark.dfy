/**
 Ingesting the turns of one source, and the watermark that the next scan starts from
 (Memory/src/agent-source/runtime.ts `ingestStagedMessages` and the update in `runScan`,
 AgentSourceCore/src/source-turn.ts `sourceTurnSkipWatermarkEffect`).
 */
module Watermark {
  import opened Wrappers
  import opened SourceTurns
  import opened ScanStore
  import opened TurnCut
  import opened TurnPasses

  const RETRY_WINDOW: int := 24 * 60 * 60 * 1000

  datatype Effect = NoEffect | Retry | Rescan

  predicate SkipBlocksWatermark(reason: string) {
    reason != "turn_cancelled"
  }

  predicate CaptureUnavailable(reason: string) {
    reason == "memory_add_disabled" || reason == "source_capture_activation_unresolved"
  }

  /** `sourceTurnSkipWatermarkEffect`, for a turn whose last activity is known. */
  function SkipWatermarkEffect(reason: string, latestActivityAt: Time, now: Time): Effect {
    if !SkipBlocksWatermark(reason) then NoEffect
    else if CaptureUnavailable(reason) then Rescan
    else if now - latestActivityAt <= RETRY_WINDOW then Retry
    else NoEffect
  }

  /** What `completeSourceTurn` answers; it may also throw. */
  datatype Submission =
    | Stored | Existing
    | Rejected(reason: string)
    | Pending(reason: string)
    | Conflict(reason: string)
    | Threw

  /** What becomes of one emitted turn. */
  datatype Verdict =
    | NotSelected
    | Done                     // stored, known already, or finally rejected
    | Cancelled
    | Abandoned(now: Time)     // skipped, and too old to be waited for
    | Waiting                  // skipped, and may still finish
    | Unavailable              // capture failed or is switched off: rescan everything
    | NotAdded                 // a turn without a native reader could not be added

  /** The world outside: whether the messages make a turn, what the service says, and the clock. */
  datatype Outside = Outside(
    failure: Turn -> Option<string>, submit: Turn -> Submission, added: Turn -> bool, now: Turn -> Time)

  function LastActivity(turn: Turn): Time
    requires turn != []
  {
    Last(turn).createdAt
  }

  function Skipped(reason: string, last: Time, now: Time): Verdict {
    if !SkipBlocksWatermark(reason) then Cancelled
    else match SkipWatermarkEffect(reason, last, now)
         case Rescan => Unavailable
         case Retry => Waiting
         case NoEffect => Abandoned(now)
  }

  /** What the world outside says about one turn. */
  datatype Answer = Answer(native: bool, failure: Option<string>, submission: Submission, added: bool, now: Time)

  /** What follows from it for a turn that was last active at `last`. */
  function Judge(mode: Mode, last: Time, answer: Answer): Verdict {
    if !answer.native then (if answer.added then Done else NotAdded)
    else match answer.failure
      case Some(reason) => Skipped(reason, last, answer.now)
      case None =>
        match answer.submission
        case Threw => Unavailable
        case Rejected(reason) =>
          if reason == "legacy_before_activation" && mode != Incremental then Skipped(reason, last, answer.now)
              else Done
        case Pending(reason) => Skipped(reason, last, answer.now)
        case Conflict(reason) => Skipped(reason, last, answer.now)
        case _ => Done
  }

  function AnswerOf(outside: Outside, turn: Turn): Answer
    requires turn != []
  {
    Answer(HasStagedTurn(turn[0]), outside.failure(turn), outside.submit(turn), outside.added(turn), outside.now(turn))
  }

  function VerdictOf(outside: Outside, mode: Mode, turn: Turn): Verdict
    requires turn != []
  {
    Judge(mode, LastActivity(turn), AnswerOf(outside, turn))
  }

  /** A turn is given up only when its last activity is out of the retry window. */
  lemma AbandonedOnlyWhenOld(mode: Mode, last: Time, answer: Answer)
    ensures var verdict := Judge(mode, last, answer);
            !verdict.NotSelected? && (verdict.Abandoned? ==> verdict.now - last > RETRY_WINDOW)
  {
  }

  /** The turn was taken: stored now or before, or rejected for good; without a native reader, added. */
  predicate Accepted(mode: Mode, answer: Answer) {
    if !answer.native then answer.added
    else
      && answer.failure.None?
      && (|| answer.submission in {Stored, Existing}
          || (answer.submission.Rejected?
              && (mode == Incremental || answer.submission.reason != "legacy_before_activation")))
  }

  /** The turn was skipped for that reason: its messages make no turn, or the service does not take it yet. */
  predicate SkippedFor(mode: Mode, answer: Answer, reason: string) {
    && answer.native
    && (|| answer.failure == Some(reason)
        || (answer.failure.None?
            && (|| answer.submission in {Pending(reason), Conflict(reason)}
                || (answer.submission == Rejected(reason) && reason == "legacy_before_activation"
                    && mode != Incremental))))
  }

  /** The capture itself failed, or captures are switched off. */
  predicate CaptureFailed(mode: Mode, answer: Answer) {
    || (!answer.native && !answer.added)
    || (answer.native && answer.failure.None? && answer.submission.Threw?)
    || SkippedFor(mode, answer, "memory_add_disabled")
    || SkippedFor(mode, answer, "source_capture_activation_unresolved")
  }

  /** The turn was skipped, and nothing but its age says whether it may still finish. */
  predicate Undecided(mode: Mode, answer: Answer) {
    !Accepted(mode, answer) && !CaptureFailed(mode, answer) && !SkippedFor(mode, answer, "turn_cancelled")
  }

  /** A day after its last activity a turn is no longer waited for. */
  predicate Recent(last: Time, now: Time) {
    now - last <= 86_400_000
  }

  /** What each verdict means, in terms of what the world outside answered. */
  lemma JudgeMeans(mode: Mode, last: Time, answer: Answer)
    ensures var verdict := Judge(mode, last, answer);
            && !verdict.NotSelected?
            && (verdict.Done? <==> Accepted(mode, answer))
            && (verdict.Cancelled? <==> SkippedFor(mode, answer, "turn_cancelled"))
            && (verdict.Unavailable? || verdict.NotAdded? <==> CaptureFailed(mode, answer))
            && (verdict.Waiting? <==> Undecided(mode, answer) && Recent(last, answer.now))
            && (verdict.Abandoned? <==> Undecided(mode, answer) && !Recent(last, answer.now))
            && (verdict.Abandoned? ==> verdict.now == answer.now)
  {
    hide CaptureFailed, Accepted;
    JudgeAccepts(mode, last, answer);
    JudgeFails(mode, last, answer);
    assert CaptureUnavailable("memory_add_disabled") && !CaptureUnavailable("turn_cancelled");
  }

  lemma JudgeAccepts(mode: Mode, last: Time, answer: Answer)
    ensures Judge(mode, last, answer).Done? <==> Accepted(mode, answer)
    ensures !(Accepted(mode, answer) && CaptureFailed(mode, answer))
    ensures Accepted(mode, answer) ==> !SkippedFor(mode, answer, "turn_cancelled")
  {
  }

  lemma JudgeFails(mode: Mode, last: Time, answer: Answer)
    ensures var verdict := Judge(mode, last, answer);
            verdict.Unavailable? || verdict.NotAdded? <==> CaptureFailed(mode, answer)
  {
  }

  /** A turn, when it was last active, and its verdict. */
  datatype Item = Item(last: Time, verdict: Verdict)

  datatype IngestResult = IngestResult(latestSeenAt: Option<Time>, retryFrom: Option<Time>, hasUncommittedSkips: bool,
      errorCount: nat)

  function Later(a: Option<Time>, t: Time): Option<Time> {
    if a.None? || t > a.value then Some(t) else a
  }

  function Earlier(a: Option<Time>, t: Time): Option<Time> {
    if a.None? || t < a.value then Some(t) else a
  }

  function Tally(items: seq<Item>): IngestResult {
    if items == [] then IngestResult(None, None, false, 0)
    else
      var r, item := Tally(items[..|items| - 1]), Last(items);
      IngestResult(
        Later(r.latestSeenAt, item.last),
        if item.verdict.Waiting? then Earlier(r.retryFrom, item.last) else r.retryFrom,
        r.hasUncommittedSkips || item.verdict.Unavailable? || item.verdict.NotAdded?,
        r.errorCount + if item.verdict.NotAdded? then 1 else 0)
  }

  function ItemOf(outside: Outside, mode: Mode, turns: map<TurnKey, PreparedTurn>,
      conversations: map<string, PreparedConversation>, turn: Turn): Item
    requires turn != [] && StableIdentity(turn).Some?
  {
    Item(LastActivity(turn), if Looked(turns, conversations, turn) then VerdictOf(outside, mode, turn) else NotSelected)
  }

  ghost predicate Identified(emitted: seq<Turn>) {
    forall i | 0 <= i < |emitted| :: emitted[i] != [] && StableIdentity(emitted[i]).Some?
  }

  function Items(
    outside: Outside, mode: Mode, turns: map<TurnKey, PreparedTurn>, conversations: map<string, PreparedConversation>,
    emitted: seq<Turn>): seq<Item>
    requires Identified(emitted)
  {
    seq(|emitted|, i requires 0 <= i < |emitted| => ItemOf(outside, mode, turns, conversations, emitted[i]))
  }

  /** Everything that follows once a turn is selected; `noteUncommittedSkip` decides on a skip. */
  method CaptureTurn(outside: Outside, mode: Mode, turn: Turn) returns (verdict: Verdict)
    requires turn != []
    ensures verdict == VerdictOf(outside, mode, turn)
    ensures verdict.Done? <==> Accepted(mode, AnswerOf(outside, turn))
    ensures verdict.Unavailable? || verdict.NotAdded? <==> CaptureFailed(mode, AnswerOf(outside, turn))
  {
    JudgeMeans(mode, LastActivity(turn), AnswerOf(outside, turn));
    hide Accepted, CaptureFailed;
    if HasStagedTurn(turn[0]) {
      var reason := outside.failure(turn);
      if reason.None? {
        var answer := outside.submit(turn);
        if answer.Threw? { return Unavailable; }
        if answer.Rejected? && answer.reason == "legacy_before_activation" && mode != Incremental {
          reason := Some(answer.reason);
        } else if answer.Pending? || answer.Conflict? {
          reason := Some(answer.reason);
        }
      }
      if reason.None? { return Done; }
      if !SkipBlocksWatermark(reason.value) { return Cancelled; }
      match SkipWatermarkEffect(reason.value, Last(turn).createdAt, outside.now(turn))
      case Rescan => return Unavailable;
      case Retry => return Waiting;
      case NoEffect => return Abandoned(outside.now(turn));
    }
    return if outside.added(turn) then Done else NotAdded;
  }

  lemma TallySnoc(items: seq<Item>, item: Item)
    ensures var r := Tally(items);
            Tally(items + [item]) == IngestResult(
              Later(r.latestSeenAt, item.last),
              if item.verdict.Waiting? then Earlier(r.retryFrom, item.last) else r.retryFrom,
              r.hasUncommittedSkips || item.verdict.Unavailable? || item.verdict.NotAdded?,
              r.errorCount + if item.verdict.NotAdded? then 1 else 0)
  {
  }

  method IngestStagedMessages(
    outside: Outside, mode: Mode, turns: map<TurnKey, PreparedTurn>, conversations: map<string, PreparedConversation>,
        emitted: seq<Turn>)
    returns (result: IngestResult)
    requires Identified(emitted)
    ensures result == Tally(Items(outside, mode, turns, conversations, emitted))
  {
    hide VerdictOf, Tally, StableIdentity;
    var latestSeenAt: Option<Time>, retryFrom: Option<Time> := None, None;
    var hasUncommittedSkips, errorCount := false, 0;
    ghost var items := Items(outside, mode, turns, conversations, emitted);
    NothingTallied();
    for i := 0 to |emitted|
      invariant IngestResult(latestSeenAt, retryFrom, hasUncommittedSkips, errorCount) == Tally(items[..i])
    {
      var turn := emitted[i];
      TallySnoc(items[..i], items[i]);
      assert items[..i + 1] == items[..i] + [items[i]];
      assert items[i] == ItemOf(outside, mode, turns, conversations, turn);
      var turnLatest := Last(turn).createdAt;
      if latestSeenAt.None? || turnLatest > latestSeenAt.value { latestSeenAt := Some(turnLatest); }
      var conversationId, key := turn[0].conversationId, StableIdentity(turn).value;
      if conversationId in conversations && !conversations[conversationId].selected { continue; }
      if key in turns && !turns[key].selected { continue; }
      var verdict := CaptureTurn(outside, mode, turn);
      if verdict.Waiting? {
        if retryFrom.None? || turnLatest < retryFrom.value { retryFrom := Some(turnLatest); }
      } else if verdict.Unavailable? {
        hasUncommittedSkips := true;
      } else if verdict.NotAdded? {
        errorCount := errorCount + 1;
        hasUncommittedSkips := true;
      }
    }
    assert items[..|emitted|] == items;
    return IngestResult(latestSeenAt, retryFrom, hasUncommittedSkips, errorCount);
  }

  lemma NothingTallied()
    ensures Tally([]) == IngestResult(None, None, false, 0)
  {
  }

  /** The watermark moves only after a scan without errors, and never past a turn that may still finish. */
  function NextWatermark(stored: Option<Time>, result: IngestResult, otherErrors: nat): Option<Time> {
    if otherErrors > 0 || result.errorCount > 0 || result.hasUncommittedSkips then stored
    else if result.retryFrom.Some? then result.retryFrom
    else if result.latestSeenAt.Some? then result.latestSeenAt
    else stored
  }

  // ---------------------------------------------------------------------------------------
  // What the watermark is worth
  // ---------------------------------------------------------------------------------------

  lemma {:induction false} TallyBounds(items: seq<Item>)
    ensures var r := Tally(items);
            && (r.latestSeenAt.None? <==> items == [])
            && (r.retryFrom.Some? <==> exists i | 0 <= i < |items| :: items[i].verdict.Waiting?)
            && (r.hasUncommittedSkips <==> exists i | 0 <= i < |items| ::
                items[i].verdict.Unavailable? || items[i].verdict.NotAdded?)
            && (forall i | 0 <= i < |items| :: r.latestSeenAt.Some? && items[i].last <= r.latestSeenAt.value)
            && (forall i | 0 <= i < |items| && items[i].verdict.Waiting? ::
                r.retryFrom.Some? && r.retryFrom.value <= items[i].last)
            && (r.latestSeenAt.Some? ==> exists i | 0 <= i < |items| :: items[i].last == r.latestSeenAt.value)
            && (r.retryFrom.Some? ==>
                  exists i | 0 <= i < |items| :: items[i].verdict.Waiting? && items[i].last == r.retryFrom.value)
  {
    if items != [] {
      var front := items[..|items| - 1];
      TallyBounds(front);
      assert forall i | 0 <= i < |front| :: front[i] == items[i];
      assert Last(items) == items[|items| - 1];
    }
  }

  type TurnId = string

  datatype Fate = Finished | WasCancelled | LeftOut | GivenUp(now: Time)

  /** A source over time: its turns with their last activity, the watermark, and what became of turns. */
  datatype History = History(log: map<TurnId, Time>, watermark: Option<Time>, fates: map<TurnId, Fate>)

  const NOTHING_SCANNED := History(map[], None, map[])

  /** One staged turn of a scan, and what the world outside says about it if it is selected. */
  datatype StagedTurn = StagedTurn(id: TurnId, answer: Answer)

  datatype Step =
    // the log goes on: these turns are new or got new messages
    | Goes(active: map<TurnId, Time>)
    // a scan reads `staged`; `processed` of them are reached before it is interrupted, if it is
    | Scans(mode: Mode, staged: seq<StagedTurn>, left: set<TurnId>, otherErrors: nat, processed: Option<nat>)

  function SinceOf(mode: Mode, w: History): Option<Time> {
    if mode == Incremental then w.watermark else None
  }

  /** Selected by the watermark, and kept by the first scan's selection. */
  predicate Ingests(w: History, step: Step, id: TurnId)
    requires step.Scans? && id in w.log
  {
    SelectedAt(step.mode, w.watermark, w.log[id]) && !(step.mode == InitialSubset && id in step.left)
  }

  function ScanItems(w: History, step: Step): (items: seq<Item>)
    requires step.Scans? && forall t | t in step.staged :: t.id in w.log
    ensures |items| == |step.staged|
  {
    seq(|step.staged|, i requires 0 <= i < |step.staged| =>
      assert step.staged[i] in step.staged;
      var id, answer := step.staged[i].id, step.staged[i].answer;
      Item(w.log[id], if Ingests(w, step, id) then Judge(step.mode, w.log[id], answer) else NotSelected))
  }

  function FateOf(w: History, step: Step, t: StagedTurn): Option<Fate>
    requires step.Scans? && t.id in w.log
  {
    if !SelectedAt(step.mode, w.watermark, w.log[t.id]) then None
    else if step.mode == InitialSubset && t.id in step.left then Some(LeftOut)
    else match Judge(step.mode, w.log[t.id], t.answer)
         case Done => Some(Finished)
         case Cancelled => Some(WasCancelled)
         case Abandoned(now) => Some(GivenUp(now))
         case _ => None
  }

  function AddFates(w: History, step: Step, n: nat): map<TurnId, Fate>
    requires step.Scans? && n <= |step.staged| && forall t | t in step.staged :: t.id in w.log
  {
    if n == 0 then w.fates
    else
      assert step.staged[n - 1] in step.staged;
      var fates, fate := AddFates(w, step, n - 1), FateOf(w, step, step.staged[n - 1]);
      if fate.Some? then fates[step.staged[n - 1].id := fate.value] else fates
  }

  function Next(w: History, step: Step): History
    requires step.Scans? ==> forall t | t in step.staged :: t.id in w.log
  {
    match step
    case Goes(active) => History(w.log + active, w.watermark, w.fates - active.Keys)
    case Scans(mode, staged, left, otherErrors, processed) =>
      if processed.Some? then w.(fates := AddFates(w, step, if processed.value < |staged| then processed.value
          else |staged|))
      else w.(fates := AddFates(w, step, |staged|),
          watermark := NextWatermark(w.watermark, Tally(ScanItems(w, step)), otherErrors))
  }

  /**
   What the environment owes: new messages are not older than the watermark, and an undisturbed
   scan reads at least every turn active since the watermark it was given.
   */
  ghost predicate Fair(w: History, step: Step) {
    match step
    case Goes(active) => w.watermark.Some? ==> forall id | id in active :: active[id] >= w.watermark.value
    case Scans(mode, staged, left, otherErrors, processed) =>
      && (forall t | t in staged :: t.id in w.log)
      && (otherErrors == 0 && processed.None? ==>
            forall id | id in w.log && (SinceOf(mode, w).None? || w.log[id] >= SinceOf(mode, w).value) ::
              exists t :: t in staged && t.id == id)
  }

  /** A turn is settled, or the next incremental scan selects it. */
  ghost predicate NotLost(w: History) {
    forall id | id in w.log ::
      && (id in w.fates || w.watermark.None? || w.log[id] >= w.watermark.value)
      && (id in w.fates && w.fates[id].GivenUp? ==> w.fates[id].now - w.log[id] > RETRY_WINDOW)
  }

  lemma {:induction false} FatesAdded(w: History, step: Step, n: nat)
    requires step.Scans? && n <= |step.staged| && Fair(w, step) && NotLost(w)
    ensures var fates := AddFates(w, step, n);
            && w.fates.Keys <= fates.Keys
            && (forall id | id in fates && id in w.log && fates[id].GivenUp? ::
                fates[id].now - w.log[id] > RETRY_WINDOW)
            && (forall i | 0 <= i < n && FateOf(w, step, step.staged[i]).Some? :: step.staged[i].id in fates)
  {
    hide FateOf;
    if n > 0 {
      FatesAdded(w, step, n - 1);
      FateIsFair(w, step, step.staged[n - 1]);
    }
  }

  lemma FateIsFair(w: History, step: Step, t: StagedTurn)
    requires step.Scans? && Fair(w, step) && t in step.staged
    ensures var fate := FateOf(w, step, t);
            fate.Some? && fate.value.GivenUp? ==> fate.value.now - w.log[t.id] > RETRY_WINDOW
  {
  }

  /** A staged turn without a fate keeps the watermark at or before its last activity. */
  lemma UnsettledHoldsWatermark(w: History, step: Step, i: nat)
    requires step.Scans? && Fair(w, step) && i < |step.staged| && FateOf(w, step, step.staged[i]).None?
    requires SelectedAt(step.mode, w.watermark, w.log[step.staged[i].id])
    ensures var items := ScanItems(w, step);
            var next := NextWatermark(w.watermark, Tally(items), step.otherErrors);
            next == w.watermark || (next.Some? && next.value <= w.log[step.staged[i].id])
  {
    hide Tally;
    var items := ScanItems(w, step);
    TallyBounds(items);
    AbandonedOnlyWhenOld(step.mode, w.log[step.staged[i].id], step.staged[i].answer);
    var t := step.staged[i];
    assert t in step.staged && items[i] == Item(w.log[t.id], Judge(step.mode, w.log[t.id], t.answer));
  }

  lemma StepLosesNothing(w: History, step: Step)
    requires NotLost(w) && Fair(w, step)
    ensures NotLost(Next(w, step))
  {
    match step {
      case Goes(active) =>
      case Scans(mode, staged, left, otherErrors, processed) =>
        hide Tally, FateOf, AddFates, ScanItems, SelectedAt;
        FatesAdded(w, step, if processed.Some? && processed.value < |staged| then processed.value else |staged|);
        if processed.None? {
          ScanLosesNothing(w, step);
        }
    }
  }

  lemma ScanLosesNothing(w: History, step: Step)
    requires NotLost(w) && Fair(w, step) && step.Scans? && step.processed.None?
    ensures var now := Next(w, step);
            forall id | id in w.log :: id in now.fates || now.watermark.None? || w.log[id] >= now.watermark.value
  {
    hide Tally, FateOf, AddFates, ScanItems, SelectedAt;
    FatesAdded(w, step, |step.staged|);
    var now := Next(w, step);
    forall id | id in w.log ensures id in now.fates || now.watermark.None? || w.log[id] >= now.watermark.value {
      if id !in w.fates && now.watermark != w.watermark {
        StagedIsSafe(w, step, id);
      }
    }
  }

  lemma StagedIsSafe(w: History, step: Step, id: TurnId)
    requires NotLost(w) && Fair(w, step) && step.Scans? && step.processed.None?
    requires id in w.log && id !in w.fates && Next(w, step).watermark != w.watermark
    ensures var now := Next(w, step);
            id in now.fates || now.watermark.None? || w.log[id] >= now.watermark.value
  {
    hide Tally, FateOf, AddFates, ScanItems;
    FatesAdded(w, step, |step.staged|);
    var t :| t in step.staged && t.id == id;
    var i :| 0 <= i < |step.staged| && step.staged[i] == t;
    if FateOf(w, step, t).None? {
      UnsettledHoldsWatermark(w, step, i);
    }
  }

  ghost predicate FairRun(w: History, steps: seq<Step>) {
    steps == [] || (FairRun(w, steps[..|steps| - 1]) && Fair(Run(w, steps[..|steps| - 1]), Last(steps)))
  }

  ghost function Run(w: History, steps: seq<Step>): History {
    if steps == [] then w
    else
      var before := Run(w, steps[..|steps| - 1]);
      if Fair(before, Last(steps)) then Next(before, Last(steps)) else before
  }

  // ---------------------------------------------------------------------------------------
  // What a fate means
  // ---------------------------------------------------------------------------------------

  /** What a scan was told about the turn gives it that fate. */
  predicate Warrants(w: History, step: Step, t: StagedTurn, fate: Fate)
    requires step.Scans? && t.id in w.log
  {
    match fate
    case Finished => Ingests(w, step, t.id) && Accepted(step.mode, t.answer)
    case WasCancelled => Ingests(w, step, t.id) && SkippedFor(step.mode, t.answer, "turn_cancelled")
    case LeftOut => step.mode == InitialSubset && t.id in step.left
    case GivenUp(now) =>
      Ingests(w, step, t.id) && Undecided(step.mode, t.answer) && now == t.answer.now && !Recent(w.log[t.id], now)
  }

  lemma FateIsWarranted(w: History, step: Step, t: StagedTurn)
    requires step.Scans? && t.id in w.log
    ensures FateOf(w, step, t).Some? ==> Warrants(w, step, t, FateOf(w, step, t).value)
    ensures step.mode != InitialSubset || t.id !in step.left ==>
              forall fate :: Warrants(w, step, t, fate) ==> FateOf(w, step, t) == Some(fate)
  {
    hide Judge, Accepted, SkippedFor, CaptureFailed, Recent;
    JudgeMeans(step.mode, w.log[t.id], t.answer);
    JudgeAccepts(step.mode, w.log[t.id], t.answer);
  }

  /** The staged turns that a scan reaches. */
  function Reached(step: Step): nat
    requires step.Scans?
  {
    if step.processed.Some? && step.processed.value < |step.staged| then step.processed.value else |step.staged|
  }

  /** At step `n` a scan was told what warrants the fate, and the turn has not been active since. */
  ghost predicate EarnedAt(steps: seq<Step>, n: nat, id: TurnId, fate: Fate) {
    && n < |steps| && steps[n].Scans?
    && (exists t | t in steps[n].staged[..Reached(steps[n])] ::
          t.id == id && id in Run(NOTHING_SCANNED, steps[..n]).log
              && Warrants(Run(NOTHING_SCANNED, steps[..n]), steps[n], t, fate))
    && forall k | n < k < |steps| && steps[k].Goes? :: id !in steps[k].active
  }

  ghost predicate Earned(steps: seq<Step>, id: TurnId, fate: Fate) {
    exists n: nat :: EarnedAt(steps, n, id, fate)
  }

  lemma {:induction false} FatesComeFrom(w: History, step: Step, n: nat, id: TurnId)
    requires step.Scans? && n <= |step.staged| && (forall t | t in step.staged :: t.id in w.log)
    requires id in AddFates(w, step, n)
    ensures var fate := AddFates(w, step, n)[id];
            || (id in w.fates && w.fates[id] == fate)
            || exists t | t in step.staged[..n] :: t.id == id && id in w.log && Warrants(w, step, t, fate)
  {
    hide FateOf, Warrants;
    if n > 0 {
      var t := step.staged[n - 1];
      assert t in step.staged && step.staged[..n] == step.staged[..n - 1] + [t];
      if FateOf(w, step, t).Some? && t.id == id {
        FateIsWarranted(w, step, t);
        assert t in step.staged[..n];
      } else {
        FatesComeFrom(w, step, n - 1, id);
      }
    }
  }

  lemma EarnedStays(steps: seq<Step>, step: Step, id: TurnId, fate: Fate)
    requires Earned(steps, id, fate) && (step.Goes? ==> id !in step.active)
    ensures Earned(steps + [step], id, fate)
  {
    hide Run, Warrants;
    var n: nat :| EarnedAt(steps, n, id, fate);
    assert (steps + [step])[..n] == steps[..n];
    assert EarnedAt(steps + [step], n, id, fate);
  }

  lemma EarnedNow(steps: seq<Step>, step: Step, id: TurnId, fate: Fate, t: StagedTurn)
    requires step.Scans? && t in step.staged[..Reached(step)] && t.id == id
    requires var w := Run(NOTHING_SCANNED, steps); id in w.log && Warrants(w, step, t, fate)
    ensures Earned(steps + [step], id, fate)
  {
    hide Run, Warrants;
    assert (steps + [step])[..|steps|] == steps;
    assert EarnedAt(steps + [step], |steps|, id, fate);
  }

  /** Every fate in a reachable history was warranted by what some scan was told, and nothing came after it. */
  lemma {:induction false} FatesAreEarned(steps: seq<Step>, id: TurnId)
    requires FairRun(NOTHING_SCANNED, steps) && id in Run(NOTHING_SCANNED, steps).fates
    ensures Earned(steps, id, Run(NOTHING_SCANNED, steps).fates[id])
  {
    hide Earned, AddFates, Warrants;
    if steps != [] {
      var front, step := steps[..|steps| - 1], Last(steps);
      var w := Run(NOTHING_SCANNED, front);
      var fate := Run(NOTHING_SCANNED, steps).fates[id];
      assert steps == front + [step];
      if step.Scans? {
        FatesComeFrom(w, step, Reached(step), id);
        if t :| t in step.staged[..Reached(step)] && t.id == id && id in w.log && Warrants(w, step, t, fate) {
          EarnedNow(front, step, id, fate, t);
          return;
        }
      }
      FatesAreEarned(front, id);
      EarnedStays(front, step, id, fate);
    }
  }

  /**
   No native turn is lost over any run of scans, whatever the log does in between, whatever the
   service answers, and wherever scans fail or are interrupted: it is to be scanned again, or a scan
   was told that it was stored, rejected for good or cancelled, left it out, or gave it up as too old.
   */
  lemma {:induction false} NoTurnIsLost(steps: seq<Step>)
    requires FairRun(NOTHING_SCANNED, steps)
    ensures NotLost(Run(NOTHING_SCANNED, steps))
    ensures var w := Run(NOTHING_SCANNED, steps); forall id | id in w.fates :: Earned(steps, id, w.fates[id])
  {
    hide Earned;
    if steps != [] {
      NoTurnIsLost(steps[..|steps| - 1]);
      StepLosesNothing(Run(NOTHING_SCANNED, steps[..|steps| - 1]), Last(steps));
    }
    forall id | id in Run(NOTHING_SCANNED, steps).fates
      ensures Earned(steps, id, Run(NOTHING_SCANNED, steps).fates[id])
    {
      FatesAreEarned(steps, id);
    }
  }

  // ---------------------------------------------------------------------------------------
  // Where the watermark goes
  // ---------------------------------------------------------------------------------------

  /** A selected turn could not be captured. */
  predicate Fails(w: History, step: Step, t: StagedTurn)
    requires step.Scans? && t.id in w.log
  {
    Ingests(w, step, t.id) && CaptureFailed(step.mode, t.answer)
  }

  /** A selected turn may still finish. */
  predicate HoldsBack(w: History, step: Step, t: StagedTurn)
    requires step.Scans? && t.id in w.log
  {
    Ingests(w, step, t.id) && Undecided(step.mode, t.answer) && Recent(w.log[t.id], t.answer.now)
  }

  lemma ItemMeans(w: History, step: Step, i: nat)
    requires step.Scans? && (forall t | t in step.staged :: t.id in w.log) && i < |step.staged|
    ensures step.staged[i] in step.staged
    ensures var t, item := step.staged[i], ScanItems(w, step)[i];
            && item.last == w.log[t.id]
            && (item.verdict.Unavailable? || item.verdict.NotAdded? <==> Fails(w, step, t))
            && (item.verdict.Waiting? <==> HoldsBack(w, step, t))
  {
    hide Judge, Accepted, SkippedFor, CaptureFailed, Recent;
    var t := step.staged[i];
    assert t in step.staged;
    JudgeMeans(step.mode, w.log[t.id], t.answer);
  }

  /**
   After a scan that was not interrupted the watermark stays when anything failed; otherwise it is
   the earliest activity of a turn that may still finish; and when there is none, the latest of all.
   */
  lemma WatermarkExactly(w: History, step: Step)
    requires step.Scans? && step.processed.None? && forall t | t in step.staged :: t.id in w.log
    ensures var staged, next := step.staged, Next(w, step).watermark;
            if step.otherErrors > 0 || staged == [] || exists t | t in staged :: Fails(w, step, t) then
              next == w.watermark
            else if exists t | t in staged :: HoldsBack(w, step, t) then
              && next.Some?
              && (exists t | t in staged :: HoldsBack(w, step, t) && next.value == w.log[t.id])
              && forall t | t in staged && HoldsBack(w, step, t) :: next.value <= w.log[t.id]
            else
              && next.Some?
              && (exists t | t in staged :: next.value == w.log[t.id])
              && forall t | t in staged :: w.log[t.id] <= next.value
  {
    hide Tally, Fails, HoldsBack, ScanItems;
    var items := ScanItems(w, step);
    TallyBounds(items);
    TallyErrors(items);
    forall i | 0 <= i < |step.staged|
      ensures step.staged[i] in step.staged && items[i].last == w.log[step.staged[i].id]
      ensures items[i].verdict.Unavailable? || items[i].verdict.NotAdded? <==> Fails(w, step, step.staged[i])
      ensures items[i].verdict.Waiting? <==> HoldsBack(w, step, step.staged[i])
    {
      ItemMeans(w, step, i);
    }
  }

  lemma {:induction false} TallyErrors(items: seq<Item>)
    ensures Tally(items).errorCount > 0 ==> Tally(items).hasUncommittedSkips
  {
    if items != [] {
      TallyErrors(items[..|items| - 1]);
    }
  }

  /** A turn that is not settled is staged and selected by the next undisturbed incremental scan. */
  lemma UnsettledTurnIsIngestedNext(w: History, step: Step, id: TurnId)
    requires NotLost(w) && Fair(w, step) && id in w.log && id !in w.fates
    requires step.Scans? && step.mode == Incremental && step.otherErrors == 0 && step.processed.None?
    ensures exists i | 0 <= i < |step.staged| ::
              step.staged[i].id == id
              && ScanItems(w, step)[i].verdict == Judge(Incremental, w.log[id], step.staged[i].answer)
  {
  }

  /** New activity is picked up exactly when it is not older than the watermark: the assumption on the log is needed. */
  lemma NewActivityIsSeenExactly(w: History, step: Step, id: TurnId, at: Time)
    requires step.Scans? && step.mode == Incremental && w.watermark.Some?
    ensures Ingests(Next(w, Goes(map[id := at])), step, id) <==> at >= w.watermark.value
    ensures at < w.watermark.value ==> !NotLost(Next(w, Goes(map[id := at])))
  {
  }

  // ---------------------------------------------------------------------------------------
  // Ingesting is a scan of the history
  // ---------------------------------------------------------------------------------------

  /** How the history names turns. */
  type Naming = TurnKey -> TurnId

  function StagedTurns(outside: Outside, name: Naming, emitted: seq<Turn>): seq<StagedTurn>
    requires Identified(emitted)
  {
    seq(|emitted|, i requires 0 <= i < |emitted| =>
      StagedTurn(name(StableIdentity(emitted[i]).value), AnswerOf(outside, emitted[i])))
  }

  /** The history knows the emitted turns, as last active at their last message. */
  ghost predicate LogShows(w: History, name: Naming, emitted: seq<Turn>) {
    Identified(emitted) && forall i | 0 <= i < |emitted| ::
      var id := name(StableIdentity(emitted[i]).value);
      id in w.log && w.log[id] == LastActivity(emitted[i])
  }

  /** Ingesting looks past a turn exactly when the scan of the history does. */
  ghost predicate LooksAlike(
    w: History, step: Step, name: Naming, turns: map<TurnKey, PreparedTurn>,
        conversations: map<string, PreparedConversation>,
    emitted: seq<Turn>)
    requires LogShows(w, name, emitted) && step.Scans?
  {
    forall i | 0 <= i < |emitted| ::
      Looked(turns, conversations, emitted[i]) <==> Ingests(w, step, name(StableIdentity(emitted[i]).value))
  }

  /** Then it tallies the same items, and the next watermark is that of the history. */
  lemma SameItems(
    outside: Outside, w: History, step: Step, name: Naming,
    turns: map<TurnKey, PreparedTurn>, conversations: map<string, PreparedConversation>, emitted: seq<Turn>)
    requires LogShows(w, name, emitted) && step.Scans? && step.processed.None?
    requires step.staged == StagedTurns(outside, name, emitted)
        && LooksAlike(w, step, name, turns, conversations, emitted)
    ensures forall t | t in step.staged :: t.id in w.log
    ensures ScanItems(w, step) == Items(outside, step.mode, turns, conversations, emitted)
    ensures Next(w, step).watermark
            == NextWatermark(w.watermark, Tally(Items(outside, step.mode, turns, conversations, emitted)),
                step.otherErrors)
  {
  }

  /**
   A scan as the code makes it - prepared and ingested from one stream, with the watermark of the
   history - is the scan step of the history: the same verdict for every turn, the same watermark
   after it.
   */
  lemma IngestFollowsHistory(
    outside: Outside, mode: Mode, digest: Turn -> string, changed: bool,
    turns: map<TurnKey, PreparedTurn>, conversations: map<string, PreparedConversation>,
    messages: seq<ConversationMessage>, w: History, name: Naming, otherErrors: nat)
    requires Orderly(messages) && TimesAscend(messages) && NoUnnamedUser(messages) && "" !in conversations
    requires LogShows(w, name, Emitted(Cut(BeginsNextTurn, messages)))
    ensures var emitted := Emitted(Cut(BeginsNextTurn, messages));
            var step := Scans(mode, StagedTurns(outside, name, emitted), {}, otherErrors, None);
            var saved := SaveConversations(mode, w.watermark, digest, conversations, Cut(NeverCuts, messages));
            var items := Items(outside, mode, SaveTurns(mode, w.watermark, turns, Cut(PrepareCuts, messages)),
                               if changed then SelectAll(saved) else saved, emitted);
            && (forall t | t in step.staged :: t.id in w.log)
            && ScanItems(w, step) == items
            && Next(w, step).watermark == NextWatermark(w.watermark, Tally(items), otherErrors)
  {
    hide Cut, Emitted, SaveTurns, SaveConversations, Looked, StableIdentity, SelectAll, ScanItems, Items, Next;
    var emitted: seq<Turn> := Emitted(Cut(BeginsNextTurn, messages));
    var step := Scans(mode, StagedTurns(outside, name, emitted), {}, otherErrors, None);
    var saved := SaveConversations(mode, w.watermark, digest, conversations, Cut(NeverCuts, messages));
    var prepared := SaveTurns(mode, w.watermark, turns, Cut(PrepareCuts, messages));
    var looked := if changed then SelectAll(saved) else saved;
    forall i | 0 <= i < |emitted|
      ensures Looked(prepared, looked, emitted[i]) <==> Ingests(w, step, name(StableIdentity(emitted[i]).value))
    {
      IngestedExactlyFromWatermark(mode, w.watermark, digest, changed, turns, conversations, messages, emitted[i]);
    }
    SameItems(outside, w, step, name, prepared, looked, emitted);
  }

  /** Emitted turns have identities, in every stream. */
  lemma EmittedAreIdentified(messages: seq<ConversationMessage>)
    ensures Identified(Emitted(Cut(BeginsNextTurn, messages)))
  {
    hide Cut, Emitted, StableIdentity;
    var emitted: seq<Turn> := Emitted(Cut(BeginsNextTurn, messages));
    EmittedAreGroups(Cut(BeginsNextTurn, messages));
    forall i | 0 <= i < |emitted| ensures emitted[i] != [] && StableIdentity(emitted[i]).Some? {
      assert emitted[i] in emitted;
      EmittedHasIdentity(emitted[i]);
    }
  }

  /** The turns that the first scan's selection unmarked. */
  ghost function LeftTurns(name: Naming, chosen: map<TurnKey, PreparedTurn>): set<TurnId> {
    set key | key in chosen && !chosen[key].selected :: name(key)
  }

  /**
   The same for a first scan, whatever its selection - the table `chosen` - left out of the turns
   that preparing had recorded.
   */
  lemma FirstIngestFollowsHistory(
    outside: Outside, digest: Turn -> string, chosen: map<TurnKey, PreparedTurn>,
        conversations: map<string, PreparedConversation>,
    messages: seq<ConversationMessage>, w: History, name: Naming, otherErrors: nat)
    requires TimesAscend(messages) && "" !in conversations
    requires LogShows(w, name, Emitted(Cut(BeginsNextTurn, messages)))
    requires forall a, b :: name(a) == name(b) ==> a == b
    ensures var emitted := Emitted(Cut(BeginsNextTurn, messages));
            var step := Scans(InitialSubset, StagedTurns(outside, name, emitted), LeftTurns(name, chosen),
                otherErrors, None);
            var saved := SaveConversations(InitialSubset, w.watermark, digest, conversations, Cut(NeverCuts, messages));
            var items := Items(outside, InitialSubset, chosen, saved, emitted);
            && (forall t | t in step.staged :: t.id in w.log)
            && ScanItems(w, step) == items
            && Next(w, step).watermark == NextWatermark(w.watermark, Tally(items), otherErrors)
  {
    hide Cut, Emitted, SaveConversations, StableIdentity, ScanItems, Items, Next;
    var emitted: seq<Turn> := Emitted(Cut(BeginsNextTurn, messages));
    var step := Scans(InitialSubset, StagedTurns(outside, name, emitted), LeftTurns(name, chosen), otherErrors, None);
    var saved := SaveConversations(InitialSubset, w.watermark, digest, conversations, Cut(NeverCuts, messages));
    SavedConversations(InitialSubset, w.watermark, digest, conversations, messages);
    CutGroups(BeginsNextTurn, messages);
    EmittedAreGroups(Cut(BeginsNextTurn, messages));
    forall i | 0 <= i < |emitted|
      ensures Looked(chosen, saved, emitted[i]) <==> Ingests(w, step, name(StableIdentity(emitted[i]).value))
    {
      var turn := emitted[i];
      assert turn in emitted && GroupOf(messages, turn) && turn[0] in turn;
      assert Covers(InitialSubset, w.watermark, saved, turn[0]);
    }
    SameItems(outside, w, step, name, chosen, saved, emitted);
  }
}
