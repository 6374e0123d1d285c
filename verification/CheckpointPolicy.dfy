/** When to recommend a recovery checkpoint: the stateless policy
    (`evaluate_checkpoint_policy`), the evaluation of a project's log
    (`CheckpointRepository`), and what runs that follow the recommendation satisfy. */
module CheckpointPolicy {
  import opened Wrappers
  import opened Text

  datatype Policy = Policy(soft: real, hard: real, elapsed: int, eventCount: int, maxAge: int, cooldown: int, hysteresis: real)

  datatype Trigger = HardUsage | SoftUsage | Elapsed | EventCount | RepositoryChange | CheckpointAge

  datatype Suppression = UnchangedState | Cooldown | Hysteresis

  datatype Signals = Signals(
    usage: Option<real>, materialChange: bool, repositoryChanged: bool, durableEvents: nat,
    sessionElapsed: Option<int>, checkpointAge: Option<int>, stateChanged: bool, latestUsage: Option<real>)

  datatype Evaluation = Evaluation(trigger: Option<Trigger>, suppression: Option<Suppression>)

  /** The second is what the interpreter raises on a payload it cannot read. */
  datatype Error = ValueError | AttributeError

  predicate UsageInRange(usage: Option<real>) {
    usage.Some? ==> 0.0 <= usage.value <= 1.0
  }

  /** The bounds the policy table enforces. */
  predicate ValidPolicy(p: Policy) {
    0.0 <= p.soft <= 1.0 && 0.0 <= p.hard <= 1.0 && 0.0 <= p.hysteresis && 0 <= p.cooldown
  }

  /** What would trigger a checkpoint, before suppression. */
  function Triggered(s: Signals, p: Policy): Option<Trigger> {
    if s.usage.Some? then
      if s.usage.value >= p.hard then Some(HardUsage)
      else if s.usage.value >= p.soft && s.materialChange then Some(SoftUsage)
      else None
    else if s.sessionElapsed.Some? && s.sessionElapsed.value >= p.elapsed then Some(Elapsed)
    else if s.durableEvents >= p.eventCount then Some(EventCount)
    else if s.repositoryChanged then Some(RepositoryChange)
    else if s.checkpointAge.Some? && s.checkpointAge.value >= p.maxAge && s.materialChange then Some(CheckpointAge)
    else None
  }

  function MinOne(x: real): real {
    if x < 1.0 then x else 1.0
  }

  function Suppressed(s: Signals, p: Policy, trigger: Option<Trigger>): Option<Suppression> {
    if trigger.Some? && !s.stateChanged then Some(UnchangedState)
    else if trigger.Some? && s.checkpointAge.Some? && s.checkpointAge.value < p.cooldown then Some(Cooldown)
    else if trigger == Some(SoftUsage) && s.latestUsage.Some? && s.usage.Some?
      && s.usage.value < MinOne(s.latestUsage.value + p.hysteresis) then Some(Hysteresis)
    else None
  }

  function Evaluate(s: Signals, p: Policy): Result<Evaluation, Error> {
    if !UsageInRange(s.usage) then Err(ValueError)
    else
      var trigger := Triggered(s, p);
      var suppression := Suppressed(s, p, trigger);
      Ok(Evaluation(if suppression.Some? then None else trigger, suppression))
  }

  // ---------------------------------------------------------------------
  // A project's log
  // ---------------------------------------------------------------------

  /** Repository facts: the three compared columns, and the rest. */
  datatype Repository = Repository(head: string, dirty: bool, changedFiles: seq<string>, rest: string)

  /** The work state a caller reports. */
  datatype Work = Work(goal: string, completed: seq<string>, nextStep: Option<string>, blockers: seq<string>)

  /** What the recovery hash digests. */
  datatype Recovery = Recovery(work: Work, repository: Option<Repository>, hashes: seq<string>)

  /** Events in order of their number. An event of kind checkpoint carries the payload that
      matters here, if any: one that `record_event` wrote has whatever its caller put there.
      `Malformed` is one whose payload, or the objective in it, is there and is no object. */
  datatype Entry =
    | Durable(hash: string)
    | Checkpoint(at: int, usage: Option<real>, repository: Option<Repository>, recovery: Option<Recovery>)
    | Malformed

  function StripAll(items: seq<string>): (stripped: seq<string>)
    ensures |stripped| == |items| && forall i :: 0 <= i < |items| ==> stripped[i] == Strip(items[i])
  {
    seq(|items|, i requires 0 <= i < |items| => Strip(items[i]))
  }

  function Normal(w: Work): Work {
    Work(Strip(w.goal), StripAll(w.completed),
      if w.nextStep.Some? && w.nextStep.value != "" then Some(Strip(w.nextStep.value)) else None, StripAll(w.blockers))
  }

  /** Content hashes of the events up to a cursor, checkpoints excluded. */
  function Hashes(log: seq<Entry>): seq<string> {
    if log == [] then []
    else
      var last := log[|log| - 1];
      if last.Durable? then Hashes(log[..|log| - 1]) + [last.hash] else Hashes(log[..|log| - 1])
  }

  function RecoveryAt(log: seq<Entry>, cursor: nat, w: Work, repository: Option<Repository>): Recovery
    requires cursor <= |log|
  {
    Recovery(Normal(w), repository, Hashes(log[..cursor]))
  }

  /** Number of events up to and including the latest checkpoint; 0 without one. */
  function LatestEnd(log: seq<Entry>): (end: nat)
    ensures end <= |log| && (end > 0 ==> !log[end - 1].Durable?)
    ensures forall i :: end <= i < |log| ==> log[i].Durable?
  {
    if log == [] || !log[|log| - 1].Durable? then |log| else LatestEnd(log[..|log| - 1])
  }

  function Latest(log: seq<Entry>): Option<Entry> {
    var end := LatestEnd(log);
    if end == 0 then None else Some(log[end - 1])
  }

  predicate RepositoryDiffers(current: Option<Repository>, latest: Option<Entry>) {
    current.Some? &&
    (latest.None? || !latest.value.Checkpoint? || latest.value.repository.None?
     || latest.value.repository.value.head != current.value.head
     || latest.value.repository.value.dirty != current.value.dirty
     || latest.value.repository.value.changedFiles != current.value.changedFiles)
  }

  /** One evaluation request. */
  datatype Request = Request(usage: Option<real>, work: Work, repository: Option<Repository>, sessionStart: Option<int>, now: int)

  /** The signals `evaluate_checkpoint` derives from the log. */
  function Observe(log: seq<Entry>, q: Request): Signals {
    var latest := Latest(log);
    var known := latest.Some? && latest.value.Checkpoint?;
    var changed := RepositoryDiffers(q.repository, latest);
    var durable := |log| - LatestEnd(log);
    Signals(q.usage, changed || durable > 0, changed, durable,
      if q.sessionStart.Some? then Some(q.now - q.sessionStart.value) else None,
      if known then Some(q.now - latest.value.at) else None,
      !known || latest.value.recovery != Some(RecoveryAt(log, |log|, q.work, q.repository)),
      if known then latest.value.usage else None)
  }

  /** `evaluate_checkpoint`: it reads the payload of the latest checkpoint. */
  function EvaluateLog(log: seq<Entry>, q: Request, p: Policy): Result<Evaluation, Error> {
    if !UsageInRange(q.usage) then Err(ValueError)
    else if Latest(log) == Some(Malformed) then Err(AttributeError)
    else Evaluate(Observe(log, q), p)
  }

  function Recommended(log: seq<Entry>, q: Request, p: Policy): Option<Trigger> {
    var e := EvaluateLog(log, q, p);
    if e.Ok? then e.value.trigger else None
  }

  /** `create_checkpoint` for this request; the source cursor defaults to the whole log. */
  function WithCheckpoint(log: seq<Entry>, q: Request, cursor: nat): seq<Entry>
    requires cursor <= |log|
  {
    log + [Checkpoint(q.now, q.usage, q.repository, Some(RecoveryAt(log, cursor, q.work, q.repository)))]
  }

  // ---------------------------------------------------------------------
  // Exactly when which trigger is recommended
  // ---------------------------------------------------------------------

  lemma {:induction false} LatestIs(log: seq<Entry>) returns (i: int)
    ensures -1 <= i < |log| && (forall j :: i < j < |log| ==> log[j].Durable?)
    ensures LatestEnd(log) == i + 1
    ensures i >= 0 ==> !log[i].Durable? && Latest(log) == Some(log[i])
    ensures i == -1 ==> Latest(log) == None
  {
    i := LatestEnd(log) - 1;
  }

  /** Where the last event of kind checkpoint is; -1 without one. */
  ghost predicate LatestAt(log: seq<Entry>, i: int) {
    -1 <= i < |log| && (i >= 0 ==> !log[i].Durable?) && forall j :: i < j < |log| ==> log[j].Durable?
  }

  /** The repository differs from the one the last checkpoint recorded, if it recorded one. */
  predicate RepositoryMoved(log: seq<Entry>, i: int, q: Request)
    requires -1 <= i < |log|
  {
    q.repository.Some? &&
    (i == -1 || !log[i].Checkpoint? || log[i].repository.None?
     || q.repository.value.head != log[i].repository.value.head
     || q.repository.value.dirty != log[i].repository.value.dirty
     || q.repository.value.changedFiles != log[i].repository.value.changedFiles)
  }

  /** Work since the last checkpoint, in the log or in the repository. */
  predicate WorkSince(log: seq<Entry>, i: int, q: Request)
    requires -1 <= i < |log|
  {
    i + 1 < |log| || RepositoryMoved(log, i, q)
  }

  /** What each trigger asks. Usage, when given, is all that counts; otherwise the first of the
      other four that applies is the trigger. */
  predicate Fires(log: seq<Entry>, i: int, q: Request, p: Policy, trigger: Trigger)
    requires -1 <= i < |log|
  {
    var elapsed := q.sessionStart.Some? && q.now - q.sessionStart.value >= p.elapsed;
    var counted := |log| - (i + 1) >= p.eventCount;
    match trigger
    case HardUsage => q.usage.Some? && q.usage.value >= p.hard
    case SoftUsage => q.usage.Some? && p.soft <= q.usage.value < p.hard && WorkSince(log, i, q)
    case Elapsed => q.usage.None? && elapsed
    case EventCount => q.usage.None? && !elapsed && counted
    case RepositoryChange => q.usage.None? && !elapsed && !counted && RepositoryMoved(log, i, q)
    case CheckpointAge =>
      && q.usage.None? && !elapsed && !counted && !RepositoryMoved(log, i, q)
      && i >= 0 && log[i].Checkpoint? && q.now - log[i].at >= p.maxAge && WorkSince(log, i, q)
  }

  /** The last checkpoint recorded exactly this recovery state. */
  predicate SameState(log: seq<Entry>, i: int, q: Request)
    requires -1 <= i < |log|
  {
    i >= 0 && log[i].Checkpoint? && log[i].recovery == Some(RecoveryAt(log, |log|, q.work, q.repository))
  }

  predicate TooSoon(log: seq<Entry>, i: int, q: Request, p: Policy)
    requires -1 <= i < |log|
  {
    i >= 0 && log[i].Checkpoint? && q.now - log[i].at < p.cooldown
  }

  /** Soft usage has not risen by the hysteresis, capped at 1, over the last checkpoint's. */
  predicate NotRisen(log: seq<Entry>, i: int, q: Request, p: Policy)
    requires -1 <= i < |log|
  {
    && q.usage.Some? && i >= 0 && log[i].Checkpoint? && log[i].usage.Some?
    && q.usage.value < 1.0 && q.usage.value < log[i].usage.value + p.hysteresis
  }

  /** The whole answer of an evaluation. A trigger that fires is recommended unless the state is
      unchanged, the cooldown runs, or soft usage has not risen, in this order; then the reason
      is reported instead. */
  ghost predicate AnswersEvaluation(log: seq<Entry>, i: int, q: Request, p: Policy, r: Result<Evaluation, Error>)
    requires -1 <= i < |log|
  {
    && (r == Err(ValueError) <==> q.usage.Some? && (q.usage.value < 0.0 || q.usage.value > 1.0))
    && (r == Err(AttributeError) <==> !(q.usage.Some? && (q.usage.value < 0.0 || q.usage.value > 1.0)) && i >= 0 && log[i].Malformed?)
    && (r.Ok? ==>
          && (forall trigger :: r.value.trigger == Some(trigger) <==>
                && Fires(log, i, q, p, trigger) && !SameState(log, i, q) && !TooSoon(log, i, q, p)
                && !(trigger == SoftUsage && NotRisen(log, i, q, p)))
          && (r.value.suppression == Some(UnchangedState) <==>
                (exists trigger :: Fires(log, i, q, p, trigger)) && SameState(log, i, q))
          && (r.value.suppression == Some(Cooldown) <==>
                (exists trigger :: Fires(log, i, q, p, trigger)) && !SameState(log, i, q) && TooSoon(log, i, q, p))
          && (r.value.suppression == Some(Hysteresis) <==>
                Fires(log, i, q, p, SoftUsage) && !SameState(log, i, q) && !TooSoon(log, i, q, p) && NotRisen(log, i, q, p)))
  }

  lemma {:induction false} TriggeredFires(log: seq<Entry>, i: int, q: Request, p: Policy)
    requires LatestAt(log, i) && LatestEnd(log) == i + 1 && Latest(log) == (if i == -1 then None else Some(log[i]))
    requires i >= 0 ==> !log[i].Malformed?
    ensures forall trigger :: Triggered(Observe(log, q), p) == Some(trigger) <==> Fires(log, i, q, p, trigger)
  {
    assert RepositoryDiffers(q.repository, Latest(log)) == RepositoryMoved(log, i, q);
    forall trigger ensures Triggered(Observe(log, q), p) == Some(trigger) <==> Fires(log, i, q, p, trigger) {
      match trigger {
        case HardUsage =>
        case SoftUsage =>
        case Elapsed =>
        case EventCount =>
        case RepositoryChange =>
        case CheckpointAge =>
      }
    }
  }

  lemma {:induction false} ObservedState(log: seq<Entry>, i: int, q: Request, p: Policy)
    requires LatestAt(log, i) && LatestEnd(log) == i + 1 && Latest(log) == (if i == -1 then None else Some(log[i]))
    requires i >= 0 ==> !log[i].Malformed?
    ensures var s := Observe(log, q);
      && (s.stateChanged <==> !SameState(log, i, q))
      && (s.checkpointAge.Some? && s.checkpointAge.value < p.cooldown <==> TooSoon(log, i, q, p))
      && (s.latestUsage.Some? && s.usage.Some? && s.usage.value < MinOne(s.latestUsage.value + p.hysteresis) <==> NotRisen(log, i, q, p))
  {
  }

  /** For every log, request and policy the evaluation answers so. */
  lemma {:induction false} EvaluationExact(log: seq<Entry>, q: Request, p: Policy, i: int)
    requires LatestAt(log, i)
    ensures AnswersEvaluation(log, i, q, p, EvaluateLog(log, q, p))
  {
    var j := LatestIs(log);
    assert i == j;
    if EvaluateLog(log, q, p).Ok? {
      TriggeredFires(log, i, q, p);
      ObservedState(log, i, q, p);
      assert forall trigger :: Triggered(Observe(log, q), p) == Some(trigger) ==> Fires(log, i, q, p, trigger);
    }
  }

  lemma {:induction false} ValidRequestIs(q: Request)
    ensures ValidRequest(q) <==>
      && !Blank(q.work.goal) && (q.work.nextStep.Some? ==> !Blank(q.work.nextStep.value))
      && (forall i :: 0 <= i < |q.work.completed| ==> !Blank(q.work.completed[i]))
      && (forall i :: 0 <= i < |q.work.blockers| ==> !Blank(q.work.blockers[i]))
      && (q.usage.Some? ==> 0.0 <= q.usage.value <= 1.0)
  {
    StripEmpty(q.work.goal);
    if q.work.nextStep.Some? {
      StripEmpty(q.work.nextStep.value);
    }
    forall i | 0 <= i < |q.work.completed| ensures Strip(q.work.completed[i]) == "" <==> Blank(q.work.completed[i]) {
      StripEmpty(q.work.completed[i]);
    }
    forall i | 0 <= i < |q.work.blockers| ensures Strip(q.work.blockers[i]) == "" <==> Blank(q.work.blockers[i]) {
      StripEmpty(q.work.blockers[i]);
    }
  }

  /** What a recovery state records: the trimmed work, the repository, and the content hashes
      of the events, in order, checkpoints left out. */
  ghost predicate Digests(r: Recovery, events: seq<Entry>, q: Request) {
    && r.repository == q.repository && r.work.goal == Strip(q.work.goal)
    && |r.work.completed| == |q.work.completed|
    && (forall i :: 0 <= i < |q.work.completed| ==> r.work.completed[i] == Strip(q.work.completed[i]))
    && |r.work.blockers| == |q.work.blockers|
    && (forall i :: 0 <= i < |q.work.blockers| ==> r.work.blockers[i] == Strip(q.work.blockers[i]))
    && (r.work.nextStep.Some? <==> q.work.nextStep.Some? && q.work.nextStep.value != "")
    && (r.work.nextStep.Some? ==> r.work.nextStep.value == Strip(q.work.nextStep.value))
    && HashesInOrder(events, r.hashes)
  }

  /** The hashes are those of the durable entries, one for each, in order. */
  ghost predicate HashesInOrder(events: seq<Entry>, hashes: seq<string>) {
    if events == [] then hashes == []
    else if events[0].Durable? then hashes != [] && hashes[0] == events[0].hash && HashesInOrder(events[1..], hashes[1..])
    else HashesInOrder(events[1..], hashes)
  }

  lemma {:induction false} HashesFront(events: seq<Entry>)
    ensures events != [] ==> Hashes(events) == (if events[0].Durable? then [events[0].hash] else []) + Hashes(events[1..])
  {
    if |events| > 1 {
      var front := events[..|events| - 1];
      HashesFront(front);
      assert events[1..][..|events| - 2] == front[1..] && events[1..][|events| - 2] == events[|events| - 1];
    }
  }

  lemma {:induction false} HashesOrdered(events: seq<Entry>)
    ensures HashesInOrder(events, Hashes(events))
  {
    if events != [] {
      HashesFront(events);
      HashesOrdered(events[1..]);
      if events[0].Durable? {
        assert Hashes(events)[1..] == Hashes(events[1..]);
      } else {
        assert Hashes(events) == Hashes(events[1..]);
      }
    }
  }

  lemma {:induction false} RecoveryDigests(log: seq<Entry>, cursor: nat, q: Request)
    requires cursor <= |log| && ValidRequest(q)
    ensures Digests(RecoveryAt(log, cursor, q.work, q.repository), log[..cursor], q)
  {
    HashesOrdered(log[..cursor]);
  }

  class CheckpointRepository {
    var log: seq<Entry>

    constructor ()
      ensures log == []
    {
      log := [];
    }

    method RecordEvent(hash: string)
      modifies this
      ensures log == old(log) + [Durable(hash)]
    {
      log := log + [Durable(hash)];
    }

    /** `record_event` accepts the kind "checkpoint" too, with whatever payload or none. */
    method RecordNote(note: Entry)
      requires !note.Durable?
      modifies this
      ensures log == old(log) + [note]
      ensures Latest(log) == Some(note)
    {
      log := log + [note];
    }

    /** Durable events after the latest checkpoint, and that checkpoint. */
    method LatestCheckpoint() returns (latest: Option<Entry>, durable: nat)
      ensures latest == Latest(log) && durable == |log| - LatestEnd(log)
    {
      var i := |log|;
      durable := 0;
      while i > 0 && log[i - 1].Durable?
        invariant 0 <= i <= |log| && durable == |log| - i && LatestEnd(log) == LatestEnd(log[..i])
      {
        assert log[..i][..i - 1] == log[..i - 1];
        i := i - 1;
        durable := durable + 1;
      }
      latest := if i == 0 then None else Some(log[i - 1]);
    }

    method EvaluateCheckpoint(q: Request, p: Policy) returns (r: Result<Evaluation, Error>)
      ensures r == EvaluateLog(log, q, p)
      ensures forall i :: LatestAt(log, i) ==> AnswersEvaluation(log, i, q, p, r)
    {
      forall i | LatestAt(log, i) ensures AnswersEvaluation(log, i, q, p, EvaluateLog(log, q, p)) {
        EvaluationExact(log, q, p, i);
      }
      if q.usage.Some? && !(0.0 <= q.usage.value <= 1.0) {
        return Err(ValueError);
      }
      var latest, durable := LatestCheckpoint();
      if latest == Some(Malformed) {
        return Err(AttributeError);
      }
      var changed := RepositoryDiffers(q.repository, latest);
      var known := latest.Some? && latest.value.Checkpoint?;
      var signals := Signals(q.usage, changed || durable > 0, changed, durable,
        if q.sessionStart.Some? then Some(q.now - q.sessionStart.value) else None,
        if known then Some(q.now - latest.value.at) else None,
        !known || latest.value.recovery != Some(RecoveryAt(log, |log|, q.work, q.repository)),
        if known then latest.value.usage else None);
      r := Evaluate(signals, p);
    }

    method CreateCheckpoint(q: Request, sourceCursor: Option<int>) returns (r: Result<nat, Error>)
      modifies this
      ensures r.Ok? <==> ValidRequest(q) && (sourceCursor.Some? ==> 0 <= sourceCursor.value <= |old(log)|)
      ensures r.Ok? <==>
        && !Blank(q.work.goal) && (q.work.nextStep.Some? ==> !Blank(q.work.nextStep.value))
        && (forall i :: 0 <= i < |q.work.completed| ==> !Blank(q.work.completed[i]))
        && (forall i :: 0 <= i < |q.work.blockers| ==> !Blank(q.work.blockers[i]))
        && (q.usage.Some? ==> 0.0 <= q.usage.value <= 1.0)
        && (sourceCursor.Some? ==> 0 <= sourceCursor.value <= |old(log)|)
      ensures r.Ok? ==> r.value == |old(log)| + 1
      ensures r.Ok? ==>
        log == WithCheckpoint(old(log), q, if sourceCursor.Some? then sourceCursor.value else |old(log)|)
      ensures r.Err? ==> log == old(log)
      ensures r.Ok? ==>
        var cursor := if sourceCursor.Some? then sourceCursor.value else |old(log)|;
        && |log| == |old(log)| + 1 && old(log) <= log && log[|old(log)|].Checkpoint?
        && log[|old(log)|].at == q.now && log[|old(log)|].usage == q.usage && log[|old(log)|].repository == q.repository
        && log[|old(log)|].recovery.Some? && Digests(log[|old(log)|].recovery.value, old(log)[..cursor], q)
    {
      ValidRequestIs(q);
      if !ValidRequest(q) {
        return Err(ValueError);
      }
      var cursor := if sourceCursor.Some? then sourceCursor.value else |log|;
      if cursor < 0 || cursor > |log| {
        return Err(ValueError);
      }
      RecoveryDigests(log, cursor, q);
      log := log + [Checkpoint(q.now, q.usage, q.repository, Some(RecoveryAt(log, cursor, q.work, q.repository)))];
      r := Ok(|log|);
    }
  }

  predicate ValidRequest(q: Request) {
    && Strip(q.work.goal) != ""
    && (forall i :: 0 <= i < |q.work.completed| ==> Strip(q.work.completed[i]) != "")
    && (forall i :: 0 <= i < |q.work.blockers| ==> Strip(q.work.blockers[i]) != "")
    && (q.work.nextStep.Some? ==> Strip(q.work.nextStep.value) != "")
    && UsageInRange(q.usage)
  }

  // ---------------------------------------------------------------------
  // Suppression of an unchanged state
  // ---------------------------------------------------------------------

  lemma {:induction false} HashesConcat(a: seq<Entry>, b: seq<Entry>)
    ensures Hashes(a + b) == Hashes(a) + Hashes(b)
  {
    if b == [] {
      assert a + b == a;
    } else {
      assert (a + b)[..|a + b| - 1] == a + b[..|b| - 1];
      HashesConcat(a, b[..|b| - 1]);
    }
  }

  predicate OnlyCheckpoints(log: seq<Entry>) {
    forall i :: 0 <= i < |log| ==> !log[i].Durable?
  }

  lemma {:induction false} HashesEmpty(log: seq<Entry>)
    ensures Hashes(log) == [] <==> OnlyCheckpoints(log)
  {
    if log != [] {
      HashesEmpty(log[..|log| - 1]);
    }
  }

  /** The recovery state ignores checkpoint events: it stays the same over a stretch of the
      log exactly when that stretch holds nothing else. */
  lemma {:induction false} RecoverySameIff(log: seq<Entry>, cursor: nat, w: Work, repository: Option<Repository>)
    requires cursor <= |log|
    ensures RecoveryAt(log, cursor, w, repository) == RecoveryAt(log, |log|, w, repository) <==> OnlyCheckpoints(log[cursor..])
  {
    assert log == log[..cursor] + log[cursor..] && log[..|log|] == log;
    HashesConcat(log[..cursor], log[cursor..]);
    HashesEmpty(log[cursor..]);
    assert |Hashes(log)| == |Hashes(log[..cursor])| + |Hashes(log[cursor..])|;
  }

  /** Evaluating again after a checkpoint, with the same work and repository, any usage and
      at any time, recommends nothing if the checkpoint's source cursor left no event out.
      Otherwise the state counts as changed. */
  lemma {:induction false} UnchangedStateSuppressed(log: seq<Entry>, made: Request, cursor: nat, again: Request, p: Policy)
    requires cursor <= |log| && again.work == made.work && again.repository == made.repository
    ensures var after := WithCheckpoint(log, made, cursor);
      && (Observe(after, again).stateChanged <==> !OnlyCheckpoints(log[cursor..]))
      && (OnlyCheckpoints(log[cursor..]) ==> Recommended(after, again, p) == None)
  {
    var after := WithCheckpoint(log, made, cursor);
    assert Latest(after) == Some(after[|log|]);
    assert after[..cursor] == log[..cursor];
    RecoverySameIff(after, cursor, made.work, made.repository);
    assert after[cursor..] == log[cursor..] + [after[|log|]];
    assert OnlyCheckpoints(after[cursor..]) <==> OnlyCheckpoints(log[cursor..]) by {
      forall i | 0 <= i < |log[cursor..]| ensures after[cursor..][i] == log[cursor..][i] {
      }
    }
  }

  /** An event of kind checkpoint recorded afterwards takes over: unless it brings the very
      recovery state, the state counts as changed again. */
  lemma {:induction false} NoteUndoesSuppression(log: seq<Entry>, made: Request, again: Request, note: Entry)
    requires note.Checkpoint? && again.work == made.work && again.repository == made.repository
    ensures var after := WithCheckpoint(log, made, |log|) + [note];
      Observe(after, again).stateChanged <==> note.recovery != Some(RecoveryAt(log, |log|, made.work, made.repository))
  {
    var checked := WithCheckpoint(log, made, |log|);
    var after := checked + [note];
    assert Latest(after) == Some(note);
    assert after[..|log|] == log && log[..|log|] == log;
    RecoverySameIff(after, |log|, made.work, made.repository);
    assert after[|log|..] == [checked[|log|], note];
  }

  lemma {:induction false} LatestStays(log: seq<Entry>, work: seq<Entry>)
    requires forall i :: 0 <= i < |work| ==> work[i].Durable?
    ensures Latest(log + work) == Latest(log)
  {
    if work == [] {
      assert log + work == log;
    } else {
      assert (log + work)[..|log + work| - 1] == log + work[..|work| - 1];
      LatestStays(log, work[..|work| - 1]);
    }
  }

  /** An event of kind checkpoint with a malformed payload stops every evaluation, however
      much work is recorded after it, ... */
  lemma {:induction false} MalformedNoteStops(log: seq<Entry>, work: seq<Entry>, q: Request, p: Policy)
    requires forall i :: 0 <= i < |work| ==> work[i].Durable?
    ensures EvaluateLog(log + [Malformed] + work, q, p).Err? && Recommended(log + [Malformed] + work, q, p) == None
  {
    LatestStays(log + [Malformed], work);
    assert LatestEnd(log + [Malformed]) == |log| + 1;
  }

  /** ... until the next checkpoint, after which evaluation refuses a usage out of range only. */
  lemma {:induction false} CheckpointRestores(log: seq<Entry>, made: Request, cursor: nat, work: seq<Entry>, q: Request, p: Policy)
    requires cursor <= |log| && forall i :: 0 <= i < |work| ==> work[i].Durable?
    ensures EvaluateLog(WithCheckpoint(log, made, cursor) + work, q, p).Ok? <==> UsageInRange(q.usage)
  {
    var after := WithCheckpoint(log, made, cursor);
    LatestStays(after, work);
    assert Latest(after) == Some(after[|log|]);
  }

  // ---------------------------------------------------------------------
  // Runs that checkpoint only on recommendation
  // ---------------------------------------------------------------------

  /** Work goes on, somebody records an event of kind checkpoint, or a caller asks and
      follows the recommendation. */
  datatype Action =
    | Work_(hash: string)
    | Note(at: int, usage: Option<real>, repository: Option<Repository>, recovery: Option<Recovery>)
    | Garble(at: int)
    | Ask(q: Request)

  /** A checkpoint made on recommendation; `noted` when an event of kind checkpoint was
      recorded since the one before. */
  datatype Made = Made(at: int, usage: Option<real>, trigger: Trigger, noted: bool)

  datatype Run = Run(log: seq<Entry>, made: seq<Made>, clock: int, noted: bool)

  function Start(clock: int): Run {
    Run([], [], clock, false)
  }

  /** The clock does not run backwards. */
  function Step(r: Run, a: Action, p: Policy): Run {
    match a
    case Work_(hash) => r.(log := r.log + [Durable(hash)])
    case Note(at, usage, repository, recovery) =>
      if at < r.clock then r else Run(r.log + [Checkpoint(at, usage, repository, recovery)], r.made, at, true)
    case Garble(at) =>
      if at < r.clock then r else Run(r.log + [Malformed], r.made, at, true)
    case Ask(q) =>
      if q.now < r.clock then r
      else
        var trigger := Recommended(r.log, q, p);
        if trigger.None? then r.(clock := q.now)
        else Run(WithCheckpoint(r.log, q, |r.log|), r.made + [Made(q.now, q.usage, trigger.value, r.noted)], q.now, false)
  }

  function After(actions: seq<Action>, p: Policy, clock: int): Run {
    if actions == [] then Start(clock) else Step(After(actions[..|actions| - 1], p, clock), actions[|actions| - 1], p)
  }

  /** The log's latest checkpoint is the last one made, or a later note. */
  ghost predicate Tracks(r: Run) {
    var latest := Latest(r.log);
    && (r.made != [] ==> r.made[|r.made| - 1].at <= r.clock)
    && (latest.None? <==> r.made == [] && !r.noted)
    && (latest.Some? ==> !latest.value.Durable? && (latest.value.Checkpoint? ==> latest.value.at <= r.clock))
    && (latest == Some(Malformed) ==> r.noted)
    && (latest.Some? && latest.value.Checkpoint? && r.made != [] ==>
          var last := r.made[|r.made| - 1];
          last.at <= latest.value.at && (!r.noted ==> latest.value.usage == last.usage))
  }

  /** What the recommendation guarantees of two checkpoints in a row. */
  ghost predicate Spaced(made: seq<Made>, p: Policy) {
    forall i :: 0 <= i < |made| - 1 ==>
      && made[i + 1].at - made[i].at >= p.cooldown
      && (made[i + 1].trigger == SoftUsage && made[i].usage.Some? && !made[i + 1].noted ==>
            made[i + 1].usage.Some? && made[i + 1].usage.value >= made[i].usage.value + p.hysteresis)
  }

  ghost predicate TriggersOk(made: seq<Made>, p: Policy) {
    forall i :: 0 <= i < |made| ==>
      && UsageInRange(made[i].usage)
      && (made[i].trigger == SoftUsage ==> made[i].usage.Some? && p.soft <= made[i].usage.value < p.hard)
  }

  lemma {:induction false} LatestAfterEvent(log: seq<Entry>, hash: string)
    ensures Latest(log + [Durable(hash)]) == Latest(log)
  {
    assert (log + [Durable(hash)])[..|log|] == log;
  }

  /** A recommendation respects the cooldown; one for soft usage also the hysteresis, which
      the cap at 1 cannot weaken because soft usage lies below the hard threshold. */
  lemma {:induction false} RecommendationSpaced(log: seq<Entry>, q: Request, p: Policy)
    requires ValidPolicy(p) && Recommended(log, q, p).Some? && Latest(log).Some? && Latest(log).value.Checkpoint?
    ensures var latest := Latest(log).value;
      && q.now - latest.at >= p.cooldown
      && (Recommended(log, q, p) == Some(SoftUsage) && latest.usage.Some? ==>
            q.usage.Some? && q.usage.value >= latest.usage.value + p.hysteresis)
  {
  }

  lemma {:induction false} MadeSpaced(r: Run, q: Request, p: Policy, trigger: Trigger)
    requires ValidPolicy(p) && Tracks(r) && Spaced(r.made, p) && TriggersOk(r.made, p)
    requires Recommended(r.log, q, p) == Some(trigger)
    ensures var more := r.made + [Made(q.now, q.usage, trigger, r.noted)];
      Spaced(more, p) && TriggersOk(more, p)
  {
    if r.made != [] {
      RecommendationSpaced(r.log, q, p);
    }
  }

  lemma {:induction false} AskSpaced(r: Run, q: Request, p: Policy, t: Run)
    requires ValidPolicy(p) && Tracks(r) && Spaced(r.made, p) && TriggersOk(r.made, p) && t == Step(r, Ask(q), p)
    ensures Tracks(t) && Spaced(t.made, p) && TriggersOk(t.made, p)
  {
    if q.now < r.clock || Recommended(r.log, q, p).None? {
      return;
    }
    MadeSpaced(r, q, p, Recommended(r.log, q, p).value);
    assert Latest(WithCheckpoint(r.log, q, |r.log|)) == Some(WithCheckpoint(r.log, q, |r.log|)[|r.log|]);
  }

  /** An event of kind checkpoint, whatever its payload. */
  lemma {:induction false} NoteSpaced(r: Run, note: Entry, at: int, t: Run)
    requires Tracks(r) && !note.Durable? && (note.Checkpoint? ==> note.at == at) && at >= r.clock
    requires t == Run(r.log + [note], r.made, at, true)
    ensures Tracks(t)
  {
    assert Latest(t.log) == Some(note);
  }

  lemma {:induction false} StepSpaced(r: Run, a: Action, p: Policy)
    requires ValidPolicy(p) && Tracks(r) && Spaced(r.made, p) && TriggersOk(r.made, p)
    ensures Tracks(Step(r, a, p)) && Spaced(Step(r, a, p).made, p) && TriggersOk(Step(r, a, p).made, p)
  {
    match a {
      case Work_(hash) => LatestAfterEvent(r.log, hash);
      case Note(at, usage, repository, recovery) =>
        if at >= r.clock {
          NoteSpaced(r, Checkpoint(at, usage, repository, recovery), at, Step(r, a, p));
        }
      case Garble(at) =>
        if at >= r.clock {
          NoteSpaced(r, Malformed, at, Step(r, a, p));
        }
      case Ask(q) => AskSpaced(r, q, p, Step(r, a, p));
    }
  }

  /** In every run that checkpoints on recommendation only, checkpoints are at least the
      cooldown apart, and soft-usage ones rise by at least the hysteresis unless an event of
      kind checkpoint was recorded in between. */
  lemma {:induction false} RunSpaced(actions: seq<Action>, p: Policy, clock: int)
    requires ValidPolicy(p)
    ensures Tracks(After(actions, p, clock)) && Spaced(After(actions, p, clock).made, p) && TriggersOk(After(actions, p, clock).made, p)
  {
    if actions != [] {
      RunSpaced(actions[..|actions| - 1], p, clock);
      StepSpaced(After(actions[..|actions| - 1], p, clock), actions[|actions| - 1], p);
    }
  }

  lemma {:induction false} Multiples(n: nat, h: real)
    requires n > 0
    ensures n as real * h == (n - 1) as real * h + h
  {
    assert n as real == (n - 1) as real + 1.0;
  }

  lemma {:induction false} SoftSeriesRises(made: seq<Made>, p: Policy, lo: nat, hi: nat)
    requires Spaced(made, p) && TriggersOk(made, p) && lo <= hi < |made|
    requires forall i :: lo <= i <= hi ==> made[i].trigger == SoftUsage && (lo < i ==> !made[i].noted)
    ensures made[lo].usage.Some? && made[hi].usage.Some?
    ensures made[hi].usage.value >= made[lo].usage.value + (hi - lo) as real * p.hysteresis
    decreases hi
  {
    assert made[hi].trigger == SoftUsage;
    if lo < hi {
      SoftSeriesRises(made, p, lo, hi - 1);
      Multiples(hi - lo, p.hysteresis);
    }
  }

  /** So an unbroken series of soft-usage checkpoints, with no note in between, is short:
      fewer than (hard - soft) / hysteresis + 1 members. */
  lemma {:induction false} SoftSeriesBounded(actions: seq<Action>, p: Policy, clock: int, made: seq<Made>, lo: nat, hi: nat)
    requires ValidPolicy(p) && p.hysteresis > 0.0
    requires made == After(actions, p, clock).made && lo <= hi < |made|
    requires forall i :: lo <= i <= hi ==> made[i].trigger == SoftUsage && (lo < i ==> !made[i].noted)
    ensures (hi - lo + 1) as real < (p.hard - p.soft) / p.hysteresis + 1.0
  {
    RunSpaced(actions, p, clock);
    SoftSeriesShort(made, p, lo, hi);
  }

  lemma {:induction false} SoftSeriesShort(made: seq<Made>, p: Policy, lo: nat, hi: nat)
    requires Spaced(made, p) && TriggersOk(made, p) && lo <= hi < |made| && p.hysteresis > 0.0
    requires forall i :: lo <= i <= hi ==> made[i].trigger == SoftUsage && (lo < i ==> !made[i].noted)
    ensures (hi - lo + 1) as real < (p.hard - p.soft) / p.hysteresis + 1.0
  {
    SoftSeriesRises(made, p, lo, hi);
    assert made[lo].trigger == SoftUsage && made[hi].trigger == SoftUsage;
    SeriesArithmetic(hi - lo, p.hysteresis, made[lo].usage.value, made[hi].usage.value, p.soft, p.hard);
  }

  lemma {:induction false} SeriesArithmetic(n: nat, h: real, first: real, last: real, soft: real, hard: real)
    requires h > 0.0 && soft <= first && last < hard && last >= first + n as real * h
    ensures (n + 1) as real < (hard - soft) / h + 1.0
  {
    BelowQuotient(n as real, h, hard - soft);
  }

  lemma {:induction false} BelowQuotient(x: real, h: real, d: real)
    requires h > 0.0 && x * h < d
    ensures x < d / h
  {
    var q := d / h;
    assert (q - x) * h == q * h - x * h && q * h == d;
  }

  // ---------------------------------------------------------------------
  // A note lets the same usage recommend again
  // ---------------------------------------------------------------------

  const DEFAULTS := Policy(0.60, 0.75, 1800, 25, 3600, 300, 0.05)

  function SoftAsk(now: int): Request {
    Request(Some(0.65), Work("goal", [], None, []), None, None, now)
  }

  /** A soft-usage checkpoint, an event of kind checkpoint without a payload, more work: the
      same usage is recommended again, without any rise. */
  lemma {:induction false} NoteUndoesHysteresis()
    ensures var made := After([Work_("a"), Ask(SoftAsk(0)), Note(0, None, None, None), Work_("b"), Ask(SoftAsk(300))], DEFAULTS, 0).made;
      |made| == 2 && made[0].trigger == made[1].trigger == SoftUsage && made[0].usage == made[1].usage == Some(0.65)
  {
    var one := [Work_("a")];
    var two := [Work_("a"), Ask(SoftAsk(0))];
    var three := [Work_("a"), Ask(SoftAsk(0)), Note(0, None, None, None)];
    var four := [Work_("a"), Ask(SoftAsk(0)), Note(0, None, None, None), Work_("b")];
    var five := [Work_("a"), Ask(SoftAsk(0)), Note(0, None, None, None), Work_("b"), Ask(SoftAsk(300))];
    assert one[..0] == [] && two[..1] == one && three[..2] == two && four[..3] == three && five[..4] == four;
    FirstSoft(After(one, DEFAULTS, 0));
    SecondSoft(After(three, DEFAULTS, 0));
  }

  lemma {:induction false} FirstSoft(r: Run)
    requires r == Run([Durable("a")], [], 0, false)
    ensures Step(r, Ask(SoftAsk(0)), DEFAULTS).made == [Made(0, Some(0.65), SoftUsage, false)]
    ensures Step(r, Ask(SoftAsk(0)), DEFAULTS).clock == 0
  {
    assert r.log[..0] == [];
    assert LatestEnd(r.log) == 0;
  }

  lemma {:induction false} SecondSoft(r: Run)
    requires r.made == [Made(0, Some(0.65), SoftUsage, false)] && r.clock == 0
    requires r.log != [] && r.log[|r.log| - 1] == Checkpoint(0, None, None, None)
    ensures Step(Step(r, Work_("b"), DEFAULTS), Ask(SoftAsk(300)), DEFAULTS).made
         == [Made(0, Some(0.65), SoftUsage, false), Made(300, Some(0.65), SoftUsage, r.noted)]
  {
    var worked := Step(r, Work_("b"), DEFAULTS);
    LatestAfterEvent(r.log, "b");
    assert worked.log[..|r.log|] == r.log;
    assert LatestEnd(worked.log) == |r.log|;
  }
}
