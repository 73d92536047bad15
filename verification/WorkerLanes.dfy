/**
 * The role worker's polling lanes: how jobs are divided into lanes, what one poll does, and what the supervisor is told
 * (scripts/worker.ts). Clocks, database calls and job runs are outcomes given to the model.
 */
module WorkerLanes {
  import opened Basics
  import opened Sequences

  datatype Job = Job(name: string)

  // ---------- the division into lanes ----------

  function Ordinary(lanes: seq<seq<Job>>, consumed: seq<Job>): seq<seq<Job>> {
    if lanes == [] then []
    else
      var lane := NotIn(Dedup(lanes[|lanes| - 1]), consumed);
      Ordinary(lanes[..|lanes| - 1], consumed) + if lane == [] then [] else [lane]
  }

  function Single(consumed: seq<Job>): seq<seq<Job>> {
    seq(|consumed|, i requires 0 <= i < |consumed| => [consumed[i]])
  }

  /** All lanes of a worker, or none when a consumer job is not one of the role's. */
  function Lanes(names: seq<Job>, lanes: Option<seq<seq<Job>>>, consumers: seq<Job>): Option<seq<seq<Job>>> {
    var consumed := Dedup(consumers);
    if exists job :: job in consumed && job !in names then None
    else Some(Ordinary(if lanes.Some? then lanes.value else [names], consumed) + Single(consumed))
  }

  /** How many lanes hold a job. */
  function Holders(lanes: seq<seq<Job>>, job: Job): nat {
    if lanes == [] then 0
    else Holders(lanes[..|lanes| - 1], job) + if job in lanes[|lanes| - 1] then 1 else 0
  }

  lemma HoldersPush(lanes: seq<seq<Job>>, lane: seq<Job>, job: Job)
    ensures Holders(lanes + [lane], job) == Holders(lanes, job) + if job in lane then 1 else 0
  {
    assert (lanes + [lane])[..|lanes|] == lanes;
  }

  lemma {:induction false} OrdinaryHolders(lanes: seq<seq<Job>>, consumed: seq<Job>, job: Job)
    ensures Holders(Ordinary(lanes, consumed), job) == if job in consumed then 0 else Holders(lanes, job)
  {
    if lanes != [] {
      var front, last := lanes[..|lanes| - 1], lanes[|lanes| - 1];
      OrdinaryHolders(front, consumed, job);
      OrdinaryLane(last, consumed, job);
      HoldersPush(Ordinary(front, consumed), NotIn(Dedup(last), consumed), job);
      assert Ordinary(front, consumed) + [] == Ordinary(front, consumed);
    }
  }

  lemma {:induction false} OrdinarySound(lanes: seq<seq<Job>>, consumed: seq<Job>, i: nat)
    requires i < |Ordinary(lanes, consumed)|
    ensures Ordinary(lanes, consumed)[i] != [] && Distinct(Ordinary(lanes, consumed)[i])
  {
    var front, last := lanes[..|lanes| - 1], lanes[|lanes| - 1];
    if i < |Ordinary(front, consumed)| {
      OrdinarySound(front, consumed, i);
    } else {
      NotInMembers(Dedup(last), consumed);
    }
  }

  lemma OrdinaryLane(names: seq<Job>, consumed: seq<Job>, job: Job)
    ensures Distinct(NotIn(Dedup(names), consumed))
    ensures job in NotIn(Dedup(names), consumed) <==> job in names && job !in consumed
  {
    NotInMembers(Dedup(names), consumed);
  }

  lemma {:induction false} HoldersConcat(a: seq<seq<Job>>, b: seq<seq<Job>>, job: Job)
    ensures Holders(a + b, job) == Holders(a, job) + Holders(b, job)
  {
    if b == [] {
      assert a + b == a;
    } else {
      assert (a + b)[..|a + b| - 1] == a + b[..|b| - 1];
      HoldersConcat(a, b[..|b| - 1], job);
    }
  }

  lemma {:induction false} SingleHolders(consumed: seq<Job>, job: Job)
    requires Distinct(consumed)
    ensures Holders(Single(consumed), job) == if job in consumed then 1 else 0
  {
    if consumed != [] {
      var front, last := consumed[..|consumed| - 1], consumed[|consumed| - 1];
      assert consumed == front + [last];
      assert Single(consumed)[..|front|] == Single(front);
      SingleHolders(front, job);
    }
  }

  /**
   * A consumer job has one lane, of its own; any other job stands in as many lanes as it was given. No lane is empty or
   * repeats a job. Starting is refused exactly when a consumer job is not the role's.
   */
  lemma LanesAreSeparate(names: seq<Job>, lanes: Option<seq<seq<Job>>>, consumers: seq<Job>, job: Job)
    ensures Lanes(names, lanes, consumers).None? <==> exists other :: other in consumers && other !in names
    ensures Lanes(names, lanes, consumers).Some? ==>
              var all := Lanes(names, lanes, consumers).value;
              && Holders(all, job) == (if job in consumers then 1
                                       else Holders(if lanes.Some? then lanes.value else [names], job))
              && (forall lane :: lane in all ==> lane != [] && Distinct(lane))
              && (job in consumers ==> [job] in all)
  {
    var consumed, given := Dedup(consumers), if lanes.Some? then lanes.value else [names];
    if Lanes(names, lanes, consumers).Some? {
      LanesHold(given, consumed, job);
    }
  }

  lemma LanesHold(given: seq<seq<Job>>, consumed: seq<Job>, job: Job)
    requires Distinct(consumed)
    ensures var all := Ordinary(given, consumed) + Single(consumed);
            && Holders(all, job) == (if job in consumed then 1 else Holders(given, job))
            && (forall lane :: lane in all ==> lane != [] && Distinct(lane))
            && (job in consumed ==> [job] in all)
  {
    var all := Ordinary(given, consumed) + Single(consumed);
    OrdinaryHolders(given, consumed, job);
    SingleHolders(consumed, job);
    HoldersConcat(Ordinary(given, consumed), Single(consumed), job);
    forall i: nat | i < |all| ensures all[i] != [] && Distinct(all[i]) {
      if i < |Ordinary(given, consumed)| {
        OrdinarySound(given, consumed, i);
      }
    }
    if job in consumed {
      var i :| 0 <= i < |consumed| && consumed[i] == job;
      assert Single(consumed)[i] == [job];
    }
  }

  // ---------- permits ----------

  datatype Permit = Host(job: Job) | Circuit(job: Job)

  /** What a poll does that others can see. */
  datatype Action =
    | Consider(job: Job)
    | Take(permit: Permit)
    | GiveBack(permit: Permit)
    | Defer(job: Job)
    | Start(job: Job)

  function HeldAfter(held: set<Permit>, action: Action): set<Permit> {
    match action
    case Take(permit) => held + {permit}
    case GiveBack(permit) => held - {permit}
    case _ => held
  }

  function Held(trace: seq<Action>): set<Permit> {
    if trace == [] then {} else HeldAfter(Held(trace[..|trace| - 1]), trace[|trace| - 1])
  }

  /** No permit is taken twice over, and none is given back that is not held. */
  predicate Orderly(trace: seq<Action>) {
    trace == [] ||
      (var front, last := trace[..|trace| - 1], trace[|trace| - 1];
       && Orderly(front)
       && (last.Take? ==> last.permit !in Held(front))
       && (last.GiveBack? ==> last.permit in Held(front)))
  }

  function Times(trace: seq<Action>, action: Action): nat {
    if trace == [] then 0 else Times(trace[..|trace| - 1], action) + if trace[|trace| - 1] == action then 1 else 0
  }

  /** In an orderly trace that holds nothing at its end, every permit was given back as often as it was taken. */
  lemma {:induction false} EveryPermitReturned(trace: seq<Action>, permit: Permit)
    requires Orderly(trace)
    ensures Times(trace, Take(permit)) == Times(trace, GiveBack(permit)) + if permit in Held(trace) then 1 else 0
  {
    if trace != [] {
      EveryPermitReturned(trace[..|trace| - 1], permit);
    }
  }

  lemma HeldPush(trace: seq<Action>, action: Action)
    ensures Held(trace + [action]) == HeldAfter(Held(trace), action)
    ensures Orderly(trace + [action]) <==>
              Orderly(trace) && (action.Take? ==> action.permit !in Held(trace))
              && (action.GiveBack? ==> action.permit in Held(trace))
  {
    assert (trace + [action])[..|trace|] == trace;
  }

  /** A permit is only taken while none is held. */
  predicate OneAtATime(trace: seq<Action>) {
    trace == [] ||
      (var front, last := trace[..|trace| - 1], trace[|trace| - 1];
       OneAtATime(front) && (last.Take? ==> Held(front) == {}))
  }

  lemma OneAtATimePush(trace: seq<Action>, action: Action)
    ensures OneAtATime(trace + [action]) <==> OneAtATime(trace) && (action.Take? ==> Held(trace) == {})
  {
    assert (trace + [action])[..|trace|] == trace;
  }

  /** Then no more than one is held at any moment. */
  lemma {:induction false} HeldAtMostOnce(trace: seq<Action>, n: nat)
    requires OneAtATime(trace) && n <= |trace|
    ensures |Held(trace[..n])| <= 1
  {
    if n < |trace| {
      assert trace[..|trace| - 1][..n] == trace[..n];
      HeldAtMostOnce(trace[..|trace| - 1], n);
    } else if trace != [] {
      assert trace[..n] == trace;
      var front := trace[..n - 1];
      HeldAtMostOnce(front, n - 1);
      assert front[..n - 1] == front;
    }
  }

  // ---------- one poll of an ordinary lane ----------

  datatype Admission = NotAsked | Admitted | Denied

  datatype Outcome = Ran(failed: bool, completed: bool, moreSource: bool, continuation: bool) | Threw

  /**
   * What the poll meets at a job: the stop signal before and after admission, the host budget's answer, whether telling
   * the supervisor throws when the run starts or ends, and how the run ends.
   */
  datatype Visit = Visit(haltedFirst: bool, admission: Admission, haltedAfter: bool, startReportThrows: bool,
                         outcome: Outcome, endReportThrows: bool)

  /** `setupThrows`: reading the settings, the seen mark or the pending list failed. */
  datatype Poll = Poll(setupThrows: bool, pending: set<Job>, visits: Job -> Visit)

  datatype Progress = Progress(nextIndex: nat, failures: nat, failed: bool, sourceContinued: bool, stageRefill: bool,
                               trace: seq<Action>, over: bool)

  function IndexOf(names: seq<Job>, job: Job): (i: nat)
    requires job in names
    ensures i < |names| && names[i] == job
  {
    if names[0] == job then 0 else 1 + IndexOf(names[1..], job)
  }

  /** `(names.indexOf(job) + 1) % names.length`. */
  function NextAfter(names: seq<Job>, job: Job): (i: nat)
    requires job in names
    ensures i < |names|
  {
    (IndexOf(names, job) + 1) % |names|
  }

  function Rotated(names: seq<Job>, nextIndex: nat): seq<Job>
    requires nextIndex <= |names|
  {
    names[nextIndex..] + names[..nextIndex]
  }

  function TakenFor(job: Job, visit: Visit): seq<Action> {
    if visit.admission.Admitted? then [Take(Host(job))] else []
  }

  function ReturnedFor(job: Job, visit: Visit): seq<Action> {
    if visit.admission.Admitted? then [GiveBack(Host(job))] else []
  }

  function AtJob(names: seq<Job>, p: Progress, job: Job, poll: Poll, sourceLane: bool): Progress
    requires job in names
  {
    var visit := poll.visits(job);
    if p.over then p
    else if visit.haltedFirst then p.(over := true)
    else if job !in poll.pending then p
    else
      var taken := p.trace + [Consider(job)] + TakenFor(job, visit);
      if visit.admission.Denied? then p.(trace := taken + [Defer(job)])
      else if visit.haltedAfter then p.(trace := taken + ReturnedFor(job, visit), over := true)
      else if visit.startReportThrows then p.(trace := taken, failures := p.failures + 1, failed := true, over := true)
      else AfterRun(names, p, job, visit, sourceLane, taken + [Start(job)])
  }

  function AfterRun(names: seq<Job>, p: Progress, job: Job, visit: Visit, sourceLane: bool,
                    started: seq<Action>): Progress
    requires job in names
  {
    var bad := visit.outcome.Threw? || visit.outcome.failed;
    var ran := p.(nextIndex := NextAfter(names, job),
                  failures := p.failures + (if bad then 1 else 0),
                  failed := p.failed || visit.outcome.Threw?,
                  sourceContinued := p.sourceContinued
                      || (sourceLane && visit.outcome.Ran? && visit.outcome.completed && visit.outcome.moreSource),
                  stageRefill := p.stageRefill
                      || (visit.outcome.Ran? && visit.outcome.completed && visit.outcome.continuation));
    if visit.endReportThrows then ran.(trace := started, failures := ran.failures + 1, failed := true, over := true)
    else ran.(trace := started + ReturnedFor(job, visit))
  }

  function AtJobs(names: seq<Job>, p: Progress, order: seq<Job>, poll: Poll, sourceLane: bool): Progress
    requires forall job :: job in order ==> job in names
  {
    if order == [] then p
    else AtJob(names, AtJobs(names, p, order[..|order| - 1], poll, sourceLane), order[|order| - 1], poll, sourceLane)
  }

  /** The whole poll of a lane. */
  function Polled(names: seq<Job>, nextIndex: nat, poll: Poll, sourceLane: bool): Progress
    requires nextIndex <= |names|
  {
    if poll.setupThrows then Progress(nextIndex, 1, true, false, false, [], true)
    else AtJobs(names, Progress(nextIndex, 0, false, false, false, [], false), Rotated(names, nextIndex), poll,
        sourceLane)
  }

  method PollLane(names: seq<Job>, start: nat, poll: Poll, sourceLane: bool) returns (p: Progress)
    requires start < |names|
    ensures p == Polled(names, start, poll, sourceLane)
  {
    if poll.setupThrows {
      return Progress(start, 1, true, false, false, [], true);
    }
    var ordered := Rotated(names, start);
    ghost var begun := Progress(start, 0, false, false, false, [], false);
    p := Progress(start, 0, false, false, false, [], false);
    var i: nat := 0;
    while i < |ordered| && !p.over
      invariant i <= |ordered|
      invariant p == AtJobs(names, begun, ordered[..i], poll, sourceLane)
    {
      assert ordered[..i + 1][..i] == ordered[..i];
      p := VisitJob(names, p, ordered[i], poll, sourceLane);
      i := i + 1;
    }
    OverStays(names, begun, ordered, i, poll, sourceLane);
  }

  /** One pass through the loop over the lane's jobs. */
  method VisitJob(names: seq<Job>, before: Progress, job: Job, poll: Poll, sourceLane: bool) returns (p: Progress)
    requires job in names && !before.over
    ensures p == AtJob(names, before, job, poll, sourceLane)
  {
    p := before;
    var visit := poll.visits(job);
    if visit.haltedFirst {
      return p.(over := true);
    }
    if job !in poll.pending { return; }
    var trace := p.trace + [Consider(job)] + TakenFor(job, visit);
    if visit.admission.Denied? {
      return p.(trace := trace + [Defer(job)]);
    }
    if visit.haltedAfter {
      return p.(trace := trace + ReturnedFor(job, visit), over := true);
    }
    if visit.startReportThrows {
      return p.(trace := trace, failures := p.failures + 1, failed := true, over := true);
    }
    p := RunJob(names, before, job, visit, sourceLane, trace + [Start(job)]);
  }

  /** The run itself, from its start to giving the permit back. */
  method RunJob(names: seq<Job>, before: Progress, job: Job, visit: Visit, sourceLane: bool, trace: seq<Action>)
    returns (p: Progress)
    requires job in names
    ensures p == AfterRun(names, before, job, visit, sourceLane, trace)
  {
    p := before;
    match visit.outcome {
      case Ran(bad, completed, moreSource, continuation) =>
        if bad { p := p.(failures := p.failures + 1); }
        if sourceLane && completed && moreSource { p := p.(sourceContinued := true); }
        if completed && continuation { p := p.(stageRefill := true); }
      case Threw =>
        p := p.(failures := p.failures + 1, failed := true);
    }
    p := p.(nextIndex := NextAfter(names, job));
    if visit.endReportThrows {
      p := p.(trace := trace, failures := p.failures + 1, failed := true, over := true);
    } else {
      p := p.(trace := trace + ReturnedFor(job, visit));
    }
  }

  lemma {:induction false} OverStays(names: seq<Job>, p: Progress, order: seq<Job>, n: nat, poll: Poll,
                                     sourceLane: bool)
    requires n <= |order| && forall job :: job in order ==> job in names
    requires n == |order| || AtJobs(names, p, order[..n], poll, sourceLane).over
    ensures AtJobs(names, p, order, poll, sourceLane) == AtJobs(names, p, order[..n], poll, sourceLane)
  {
    if n == |order| {
      assert order[..n] == order;
    } else {
      var front := order[..|order| - 1];
      assert front[..n] == order[..n];
      OverStays(names, p, front, n, poll, sourceLane);
    }
  }

  // ---------- each pending job once ----------

  function Considered(trace: seq<Action>): seq<Job> {
    if trace == [] then []
    else
      Considered(trace[..|trace| - 1])
      + if trace[|trace| - 1].Consider? then [trace[|trace| - 1].job] else []
  }

  lemma {:induction false} ConsideredUnchanged(trace: seq<Action>, rest: seq<Action>)
    requires forall action :: action in rest ==> !action.Consider?
    ensures Considered(trace + rest) == Considered(trace)
  {
    if rest == [] {
      assert trace + rest == trace;
    } else {
      assert (trace + rest)[..|trace + rest| - 1] == trace + rest[..|rest| - 1];
      ConsideredUnchanged(trace, rest[..|rest| - 1]);
    }
  }

  /** Nothing interrupts the poll: no stop signal is seen and no report throws. */
  ghost predicate Uninterrupted(poll: Poll) {
    && !poll.setupThrows
    && forall job :: !poll.visits(job).haltedFirst && !poll.visits(job).haltedAfter
                     && !poll.visits(job).startReportThrows && !poll.visits(job).endReportThrows
  }

  lemma AtJobConsiders(names: seq<Job>, p: Progress, job: Job, poll: Poll, sourceLane: bool)
    requires job in names && Uninterrupted(poll) && !p.over
    ensures var q := AtJob(names, p, job, poll, sourceLane);
            !q.over && Considered(q.trace) == Considered(p.trace) + if job in poll.pending then [job] else []
  {
    var visit := poll.visits(job);
    if job in poll.pending {
      var rest := if visit.admission.Denied? then [Defer(job)] else [Start(job)] + ReturnedFor(job, visit);
      var taken := p.trace + [Consider(job)] + TakenFor(job, visit);
      Regroup(taken, [Start(job)], ReturnedFor(job, visit));
      assert AtJob(names, p, job, poll, sourceLane).trace == taken + rest;
      ConsidersOnce(p.trace, job, TakenFor(job, visit), rest);
    }
  }

  lemma ConsidersOnce(trace: seq<Action>, job: Job, taken: seq<Action>, rest: seq<Action>)
    requires forall action :: action in taken + rest ==> !action.Consider?
    ensures Considered(trace + [Consider(job)] + taken + rest) == Considered(trace) + [job]
  {
    var considered := trace + [Consider(job)];
    assert considered[..|trace|] == trace;
    Regroup(considered, taken, rest);
    ConsideredUnchanged(considered, taken + rest);
  }

  lemma {:induction false} AtJobsConsiders(names: seq<Job>, p: Progress, order: seq<Job>, poll: Poll, sourceLane: bool)
    requires (forall job :: job in order ==> job in names) && Uninterrupted(poll) && !p.over
    ensures var q := AtJobs(names, p, order, poll, sourceLane);
            !q.over && Considered(q.trace) == Considered(p.trace) + Select(order, poll.pending)
  {
    if order != [] {
      var front, last := order[..|order| - 1], order[|order| - 1];
      AtJobsConsiders(names, p, front, poll, sourceLane);
      AtJobConsiders(names, AtJobs(names, p, front, poll, sourceLane), last, poll, sourceLane);
    }
  }

  /** An uninterrupted poll considers each pending job of its lane exactly once, whatever index it starts from. */
  lemma EachPendingJobOnce(names: seq<Job>, nextIndex: nat, poll: Poll, sourceLane: bool)
    requires Distinct(names) && nextIndex < |names| && Uninterrupted(poll)
    ensures var considered := Considered(Polled(names, nextIndex, poll, sourceLane).trace);
            && considered == Select(names[nextIndex..], poll.pending) + Select(names[..nextIndex], poll.pending)
            && Distinct(considered)
            && forall job :: job in considered <==> job in names && job in poll.pending
  {
    var order := Rotated(names, nextIndex);
    AtJobsConsiders(names, Progress(nextIndex, 0, false, false, false, [], false), order, poll, sourceLane);
    SelectConcat(names[nextIndex..], names[..nextIndex], poll.pending);
    assert Distinct(order);
    SelectDistinct(order, poll.pending);
    assert names == names[..nextIndex] + names[nextIndex..];
  }

  /** The job a poll ran last is the last one in the next poll's order. */
  lemma LastRunGoesLast(names: seq<Job>, p: Progress, job: Job, visit: Visit, sourceLane: bool, started: seq<Action>)
    requires job in names
    ensures var next := AfterRun(names, p, job, visit, sourceLane, started).nextIndex;
            next < |names| && Rotated(names, next)[|names| - 1] == job
  {
    assert AfterRun(names, p, job, visit, sourceLane, started).nextIndex == NextAfter(names, job);
    RotatedLast(names, NextAfter(names, job));
    Wraps(IndexOf(names, job), |names|);
  }

  lemma Wraps(i: nat, n: nat)
    requires i < n
    ensures (i + 1) % n == if i + 1 < n then i + 1 else 0
  {
  }

  lemma RotatedLast(names: seq<Job>, next: nat)
    requires next < |names|
    ensures Rotated(names, next)[|names| - 1] == if next == 0 then names[|names| - 1] else names[next - 1]
  {
  }

  // ---------- permits over a poll and over a run ----------

  /** The supervisor's report threw while the job's permit was held. */
  predicate Stranded(job: Job, poll: Poll) {
    var visit := poll.visits(job);
    && job in poll.pending && visit.admission.Admitted? && !visit.haltedFirst && !visit.haltedAfter
    && (visit.startReportThrows || visit.endReportThrows)
  }

  ghost predicate PermitState(p: Progress, poll: Poll) {
    && Orderly(p.trace) && OneAtATime(p.trace)
    && (!p.over ==> Held(p.trace) == {})
    && (Held(p.trace) == {}
        || exists job :: Consider(job) in p.trace && Stranded(job, poll) && Held(p.trace) == {Host(job)})
    && (Held(p.trace) == {} ==> forall job :: Consider(job) in p.trace ==> !Stranded(job, poll))
  }

  lemma TakenState(trace: seq<Action>, job: Job, visit: Visit)
    requires Orderly(trace) && OneAtATime(trace) && Held(trace) == {}
    ensures var taken := trace + [Consider(job)] + TakenFor(job, visit);
            && Orderly(taken) && OneAtATime(taken)
                && Held(taken) == (if visit.admission.Admitted? then {Host(job)} else {})
            && (forall other :: Consider(other) in taken <==> Consider(other) in trace || other == job)
  {
    HeldPush(trace, Consider(job));
    HeldPush(trace + [Consider(job)], Take(Host(job)));
    OneAtATimePush(trace, Consider(job));
    OneAtATimePush(trace + [Consider(job)], Take(Host(job)));
    assert trace + [Consider(job)] + [] == trace + [Consider(job)];
  }

  lemma ReturnedState(trace: seq<Action>, job: Job, visit: Visit)
    requires Orderly(trace) && OneAtATime(trace)
            && Held(trace) == (if visit.admission.Admitted? then {Host(job)} else {})
    ensures var returned := trace + ReturnedFor(job, visit);
            && Orderly(returned) && OneAtATime(returned) && Held(returned) == {}
            && (forall other :: Consider(other) in returned <==> Consider(other) in trace)
  {
    HeldPush(trace, GiveBack(Host(job)));
    OneAtATimePush(trace, GiveBack(Host(job)));
    assert trace + [] == trace;
  }

  lemma AtJobPermits(names: seq<Job>, p: Progress, job: Job, poll: Poll, sourceLane: bool)
    requires job in names && PermitState(p, poll) && Consider(job) !in p.trace
    ensures PermitState(AtJob(names, p, job, poll, sourceLane), poll)
    ensures forall other :: Consider(other) in AtJob(names, p, job, poll, sourceLane).trace ==>
              Consider(other) in p.trace || other == job
  {
    var visit := poll.visits(job);
    if !p.over && !visit.haltedFirst && job in poll.pending {
      var taken := p.trace + [Consider(job)] + TakenFor(job, visit);
      if visit.admission.Denied? || visit.haltedAfter || visit.startReportThrows {
        NoRunPermits(names, p, job, poll, sourceLane, taken);
      } else {
        RunPermits(names, p, job, poll, sourceLane, taken + [Start(job)]);
      }
    }
  }

  lemma NoRunPermits(names: seq<Job>, p: Progress, job: Job, poll: Poll, sourceLane: bool, taken: seq<Action>)
    requires job in names && PermitState(p, poll) && !p.over && job in poll.pending && !poll.visits(job).haltedFirst
    requires taken == p.trace + [Consider(job)] + TakenFor(job, poll.visits(job))
    requires var visit := poll.visits(job); visit.admission.Denied? || visit.haltedAfter || visit.startReportThrows
    ensures PermitState(AtJob(names, p, job, poll, sourceLane), poll)
    ensures forall other :: Consider(other) in AtJob(names, p, job, poll, sourceLane).trace ==>
              Consider(other) in p.trace || other == job
  {
    var visit, q := poll.visits(job), AtJob(names, p, job, poll, sourceLane);
    TakenState(p.trace, job, visit);
    if visit.admission.Denied? {
      HeldPush(taken, Defer(job));
      OneAtATimePush(taken, Defer(job));
      Returns(p, q, job, poll);
    } else if visit.haltedAfter {
      ReturnedState(taken, job, visit);
      Returns(p, q, job, poll);
    } else {
      Keeps(p, q, job, poll);
    }
  }

  lemma RunPermits(names: seq<Job>, p: Progress, job: Job, poll: Poll, sourceLane: bool, started: seq<Action>)
    requires job in names && PermitState(p, poll) && !p.over
    requires var visit := poll.visits(job);
             && job in poll.pending && !visit.haltedFirst && !visit.haltedAfter && !visit.startReportThrows
             && started == p.trace + [Consider(job)] + TakenFor(job, visit) + [Start(job)]
    ensures PermitState(AfterRun(names, p, job, poll.visits(job), sourceLane, started), poll)
    ensures forall other :: Consider(other) in AfterRun(names, p, job, poll.visits(job), sourceLane, started).trace ==>
              Consider(other) in p.trace || other == job
  {
    var visit := poll.visits(job);
    var q := AfterRun(names, p, job, visit, sourceLane, started);
    TakenState(p.trace, job, visit);
    HeldPush(p.trace + [Consider(job)] + TakenFor(job, visit), Start(job));
    OneAtATimePush(p.trace + [Consider(job)] + TakenFor(job, visit), Start(job));
    if visit.endReportThrows {
      assert q.trace == started;
      Keeps(p, q, job, poll);
    } else {
      ReturnedState(started, job, visit);
      Returns(p, q, job, poll);
    }
  }

  /** The job's permit, if it had one, is back. */
  lemma Returns(p: Progress, q: Progress, job: Job, poll: Poll)
    requires PermitState(p, poll) && !p.over && !Stranded(job, poll)
    requires Orderly(q.trace) && OneAtATime(q.trace) && Held(q.trace) == {}
    requires forall other :: Consider(other) in q.trace <==> Consider(other) in p.trace || other == job
    ensures PermitState(q, poll)
  {
  }

  /** The poll is over with the job's permit, if it had one, still held. */
  lemma Keeps(p: Progress, q: Progress, job: Job, poll: Poll)
    requires PermitState(p, poll) && !p.over && q.over
    requires poll.visits(job).admission.Admitted? <==> Stranded(job, poll)
    requires Orderly(q.trace) && OneAtATime(q.trace)
    requires Held(q.trace) == if poll.visits(job).admission.Admitted? then {Host(job)} else {}
    requires forall other :: Consider(other) in q.trace <==> Consider(other) in p.trace || other == job
    ensures PermitState(q, poll)
  {
    assert Consider(job) in q.trace;
  }

  lemma {:induction false} AtJobsPermits(names: seq<Job>, p: Progress, order: seq<Job>, poll: Poll, sourceLane: bool)
    requires (forall job :: job in order ==> job in names) && Distinct(order)
    requires PermitState(p, poll) && forall job :: job in order ==> Consider(job) !in p.trace
    ensures PermitState(AtJobs(names, p, order, poll, sourceLane), poll)
    ensures forall job :: Consider(job) in AtJobs(names, p, order, poll, sourceLane).trace ==>
              Consider(job) in p.trace || job in order
  {
    if order != [] {
      var front, last := order[..|order| - 1], order[|order| - 1];
      assert order == front + [last];
      AtJobsPermits(names, p, front, poll, sourceLane);
      AtJobPermits(names, AtJobs(names, p, front, poll, sourceLane), last, poll, sourceLane);
    }
  }

  /**
   * On the deferred, halted, failed and normal paths alike every permit taken is given back within the poll; one stays
   * behind exactly when reporting to the supervisor threw while it was held. At no moment is more than one held.
   */
  lemma PermitsReturnedIff(names: seq<Job>, nextIndex: nat, poll: Poll, sourceLane: bool)
    requires Distinct(names) && nextIndex < |names|
    ensures var trace := Polled(names, nextIndex, poll, sourceLane).trace;
            && Orderly(trace)
            && (Held(trace) == {} <==> !exists job :: Consider(job) in trace && Stranded(job, poll))
            && forall n: nat :: n <= |trace| ==> |Held(trace[..n])| <= 1
  {
    var order := Rotated(names, nextIndex);
    assert Distinct(order);
    AtJobsPermits(names, Progress(nextIndex, 0, false, false, false, [], false), order, poll, sourceLane);
    var trace := Polled(names, nextIndex, poll, sourceLane).trace;
    forall n: nat | n <= |trace| ensures |Held(trace[..n])| <= 1 {
      HeldAtMostOnce(trace, n);
    }
  }

  /** A lane's run: the index is carried from poll to poll. */
  function NextIndexAfter(names: seq<Job>, polls: seq<Poll>, sourceLane: bool): (i: nat)
    requires names != []
    ensures i < |names|
  {
    if polls == [] then 0
    else
      var before := NextIndexAfter(names, polls[..|polls| - 1], sourceLane);
      IndexInRange(names, before, polls[|polls| - 1], sourceLane);
      Polled(names, before, polls[|polls| - 1], sourceLane).nextIndex
  }

  lemma IndexInRange(names: seq<Job>, nextIndex: nat, poll: Poll, sourceLane: bool)
    requires nextIndex < |names|
    ensures Polled(names, nextIndex, poll, sourceLane).nextIndex < |names|
  {
    AtJobsIndex(names, Progress(nextIndex, 0, false, false, false, [], false), Rotated(names, nextIndex), poll,
        sourceLane);
  }

  lemma {:induction false} AtJobsIndex(names: seq<Job>, p: Progress, order: seq<Job>, poll: Poll, sourceLane: bool)
    requires (forall job :: job in order ==> job in names) && p.nextIndex < |names|
    ensures AtJobs(names, p, order, poll, sourceLane).nextIndex < |names|
  {
    if order != [] {
      var front := order[..|order| - 1];
      AtJobsIndex(names, p, front, poll, sourceLane);
      AtJobIndex(names, AtJobs(names, p, front, poll, sourceLane), order[|order| - 1], poll, sourceLane);
    }
  }

  lemma AtJobIndex(names: seq<Job>, p: Progress, job: Job, poll: Poll, sourceLane: bool)
    requires job in names && p.nextIndex < |names|
    ensures AtJob(names, p, job, poll, sourceLane).nextIndex < |names|
  {
  }

  // ---------- one poll of a consumer lane ----------

  datatype Breaker = NoBreaker | BreakerAdmitted | BreakerDenied

  datatype ConsumerOutcome = ConsumerRan(failed: bool, completed: bool, done: bool) | ConsumerThrew

  datatype ConsumerPoll = ConsumerPoll(setupThrows: bool, pending: bool, haltedFirst: bool, slotOpen: bool,
                                       breaker: Breaker,
                                       admission: Admission, haltedAfter: bool, startReportThrows: bool,
                                       outcome: ConsumerOutcome, endReportThrows: bool, once: bool, haltedLater: bool,
                                       requestThrows: bool)

  datatype ConsumerResult = ConsumerResult(failures: nat, failed: bool, refill: bool, requested: bool, left: bool,
      trace: seq<Action>)

  /** What the consumer's poll does, permit by permit. */
  function ConsumerTrace(job: Job, poll: ConsumerPoll): seq<Action> {
    var circuit := poll.breaker.BreakerAdmitted?;
    var host := !poll.breaker.BreakerDenied? && poll.admission.Admitted?;
    if !Reaches(poll) then [] else ConsumerPath(TakenBy(job, circuit, host), job, poll, circuit, host)
  }

  /** From holding a circuit permit and a host permit, or not, to the end of the poll. */
  function ConsumerPath(taken: seq<Action>, job: Job, poll: ConsumerPoll, circuit: bool, host: bool): seq<Action> {
    if poll.breaker.BreakerDenied? || poll.admission.Denied? then taken + Back(Circuit(job), circuit) + [Defer(job)]
    else if poll.haltedAfter then taken + Back(Circuit(job), circuit) + Back(Host(job), host)
    else if poll.startReportThrows then taken
    else if poll.endReportThrows then taken + [Start(job)] + Back(Circuit(job), circuit)
    else taken + [Start(job)] + Back(Circuit(job), circuit) + Back(Host(job), host)
  }

  method PollConsumer(job: Job, poll: ConsumerPoll) returns (r: ConsumerResult)
    ensures r.trace == ConsumerTrace(job, poll)
    // Another tick is requested exactly when this one completed and left work, and the lane goes on.
    ensures r.requested <==>
              Announces(poll) && !poll.startReportThrows && !poll.endReportThrows && poll.outcome.ConsumerRan?
                             && poll.outcome.completed && !poll.outcome.done && !poll.once && !poll.haltedLater
    ensures r.refill <==> r.requested && !poll.requestThrows
    ensures r.left <==> Reaches(poll) && !poll.breaker.BreakerDenied? && !poll.admission.Denied? && poll.haltedAfter
    // It counts a run that failed, and every throw, once.
    ensures r.failures == (if poll.setupThrows then 1 else 0)
                          + (if Runs(poll) && (poll.outcome.ConsumerThrew? || poll.outcome.failed) then 1 else 0)
                          + (if Announces(poll) && (poll.startReportThrows || poll.endReportThrows) then 1 else 0)
                          + (if r.requested && poll.requestThrows then 1 else 0)
    ensures r.failed <==>
              || poll.setupThrows || (Runs(poll) && poll.outcome.ConsumerThrew?)
              || (Announces(poll) && (poll.startReportThrows || poll.endReportThrows))
              || (r.requested && poll.requestThrows)
  {
    r := ConsumerResult(0, false, false, false, false, []);
    if poll.setupThrows {
      return r.(failures := 1, failed := true);
    }
    var trace: seq<Action> := [];
    var failures, failed, refill := 0, false, false;
    if poll.pending && !poll.haltedFirst && poll.slotOpen {
      trace := [Consider(job)];
      var circuit := poll.breaker.BreakerAdmitted?;
      if circuit { trace := trace + [Take(Circuit(job))]; }
      var host := !poll.breaker.BreakerDenied? && poll.admission.Admitted?;
      if host { trace := trace + [Take(Host(job))]; }
      assert trace == TakenBy(job, circuit, host);
      if poll.breaker.BreakerDenied? || poll.admission.Denied? {
        trace := trace + Back(Circuit(job), circuit);
        trace := trace + [Defer(job)];
      } else {
        if poll.haltedAfter {
          trace := trace + Back(Circuit(job), circuit);
          trace := trace + Back(Host(job), host);
          return r.(left := true, trace := trace);
        }
        if poll.startReportThrows {
          return r.(failures := 1, failed := true, trace := trace);
        }
        trace := trace + [Start(job)];
        match poll.outcome {
          case ConsumerRan(bad, completed, done) =>
            if bad { failures := failures + 1; }
            refill := completed && !done;
          case ConsumerThrew =>
            failures, failed := failures + 1, true;
        }
        trace := trace + Back(Circuit(job), circuit);
        if poll.endReportThrows {
          return r.(failures := failures + 1, failed := true, trace := trace);
        }
        trace := trace + Back(Host(job), host);
      }
    }
    refill := refill && !poll.once && !poll.haltedLater;
    r := ConsumerResult(failures, failed, refill, refill, false, trace);
    if refill && poll.requestThrows {
      r := r.(refill := false, failures := failures + 1, failed := true);
    }
  }

  /** The poll gets as far as asking for admission. */
  predicate Reaches(poll: ConsumerPoll) {
    !poll.setupThrows && poll.pending && !poll.haltedFirst && poll.slotOpen
  }

  /** The poll gets as far as announcing the run. */
  predicate Announces(poll: ConsumerPoll) {
    Reaches(poll) && !poll.breaker.BreakerDenied? && !poll.admission.Denied? && !poll.haltedAfter
  }

  /** The poll runs its job. */
  predicate Runs(poll: ConsumerPoll) {
    Announces(poll) && !poll.startReportThrows
  }

  function TakenBy(job: Job, circuit: bool, host: bool): seq<Action> {
    [Consider(job)] + (if circuit then [Take(Circuit(job))] else []) + if host then [Take(Host(job))] else []
  }

  lemma TakenByHeld(job: Job, circuit: bool, host: bool) returns (taken: seq<Action>)
    ensures taken == TakenBy(job, circuit, host)
    ensures Orderly(taken) && Held(taken) == (if circuit then {Circuit(job)} else {}) + if host then {Host(job)} else {}
  {
    taken := TakenBy(job, circuit, host);
    HeldPush([], Consider(job));
    assert [] + [Consider(job)] == [Consider(job)];
    HeldPush([Consider(job)], Take(Circuit(job)));
    HeldPush([Consider(job)], Take(Host(job)));
    HeldPush([Consider(job)] + [Take(Circuit(job))], Take(Host(job)));
    assert [Consider(job)] + [] == [Consider(job)];
    var first := [Consider(job)] + if circuit then [Take(Circuit(job))] else [];
    assert first + [] == first;
  }

  function Back(permit: Permit, held: bool): seq<Action> {
    if held then [GiveBack(permit)] else []
  }

  lemma BackHeld(trace: seq<Action>, permit: Permit, held: bool)
    requires Orderly(trace) && (held ==> permit in Held(trace))
    ensures Orderly(trace + Back(permit, held))
    ensures Held(trace + Back(permit, held)) == if held then Held(trace) - {permit} else Held(trace)
  {
    HeldPush(trace, GiveBack(permit));
    assert trace + [] == trace;
  }

  /**
   * On every path the consumer gives back the circuit's permit and the host's, except that a report that throws leaves
   * behind what was held at that moment.
   */
  lemma ConsumerPermits(job: Job, poll: ConsumerPoll)
    ensures var trace := ConsumerTrace(job, poll);
            && Orderly(trace)
            && Held(trace)
               == (if Announces(poll) && poll.startReportThrows && poll.breaker.BreakerAdmitted? then {Circuit(job)}
                   else {})
                  + (if Announces(poll) && (poll.startReportThrows || poll.endReportThrows) && poll.admission.Admitted?
                     then {Host(job)} else {})
  {
    if Reaches(poll) {
      var circuit := poll.breaker.BreakerAdmitted?;
      var host := !poll.breaker.BreakerDenied? && poll.admission.Admitted?;
      var taken := TakenByHeld(job, circuit, host);
      ConsumerPathHeld(taken, job, poll, circuit, host);
    }
  }

  lemma ConsumerPathHeld(taken: seq<Action>, job: Job, poll: ConsumerPoll, circuit: bool, host: bool)
    requires circuit == poll.breaker.BreakerAdmitted?
    requires host == (!poll.breaker.BreakerDenied? && poll.admission.Admitted?)
    requires Orderly(taken)
    requires Held(taken) == (if circuit then {Circuit(job)} else {}) + if host then {Host(job)} else {}
    requires Reaches(poll)
    ensures var trace := ConsumerPath(taken, job, poll, circuit, host);
            && Orderly(trace)
            && Held(trace)
               == (if Announces(poll) && poll.startReportThrows && circuit then {Circuit(job)} else {})
                  + (if Announces(poll) && (poll.startReportThrows || poll.endReportThrows) && host then {Host(job)}
                     else {})
  {
    ConsumerPaths(taken, job, circuit, host);
  }

  /** The ways out of a consumer's poll, from holding a circuit permit and a host permit or not. */
  lemma ConsumerPaths(taken: seq<Action>, job: Job, circuit: bool, host: bool)
    requires Orderly(taken)
            && Held(taken) == (if circuit then {Circuit(job)} else {}) + if host then {Host(job)} else {}
    ensures var deferred := taken + Back(Circuit(job), circuit) + [Defer(job)];
            Orderly(deferred) && Held(deferred) == if host then {Host(job)} else {}
    ensures var halted := taken + Back(Circuit(job), circuit) + Back(Host(job), host);
            Orderly(halted) && Held(halted) == {}
    ensures var started := taken + [Start(job)] + Back(Circuit(job), circuit);
            Orderly(started) && Held(started) == if host then {Host(job)} else {}
    ensures var ended := taken + [Start(job)] + Back(Circuit(job), circuit) + Back(Host(job), host);
            Orderly(ended) && Held(ended) == {}
  {
    var released, started := taken + Back(Circuit(job), circuit), taken + [Start(job)] + Back(Circuit(job), circuit);
    assert Orderly(released) && Held(released) == if host then {Host(job)} else {} by {
      BackHeld(taken, Circuit(job), circuit);
    }
    assert Orderly(started) && Held(started) == if host then {Host(job)} else {} by {
      HeldPush(taken, Start(job));
      BackHeld(taken + [Start(job)], Circuit(job), circuit);
    }
    HeldPush(released, Defer(job));
    BackHeld(released, Host(job), host);
    BackHeld(started, Host(job), host);
  }

  // ---------- what the supervisor is told ----------

  datatype LaneState = Idle | Polling | Running(job: Job, startedAt: int)

  datatype Report = ReportIdle | ReportPolling | ReportRunning(job: Job, startedAt: int)

  /** The lane that has run longest, the first of them when several started together. */
  function Oldest(states: seq<LaneState>): Option<LaneState> {
    if states == [] then None
    else
      var before, last := Oldest(states[..|states| - 1]), states[|states| - 1];
      if !last.Running? then before
      else if before.None? || (before.value.Running? && last.startedAt < before.value.startedAt) then Some(last)
      else before
  }

  class Worker {
    var states: seq<LaneState>

    constructor (lanes: nat)
      ensures states == seq(lanes, _ => Idle)
    {
      states := seq(lanes, _ => Idle);
    }

    /** A lane reports, and the supervisor hears of the lanes together. */
    method LaneReport(index: nat, state: LaneState) returns (report: Report)
      requires index < |states|
      modifies this
      ensures states == old(states)[index := state]
      ensures report == Emitted(states)
    {
      states := states[index := state];
      var oldest: Option<LaneState> := None;
      for i := 0 to |states|
        invariant oldest == Oldest(states[..i])
      {
        assert states[..i + 1][..i] == states[..i];
        if states[i].Running?
            && (oldest.None? || (oldest.value.Running? && states[i].startedAt < oldest.value.startedAt)) {
          oldest := Some(states[i]);
        }
      }
      assert states[..|states|] == states;
      OldestRuns(states);
      report := if oldest.Some? then ReportRunning(oldest.value.job, oldest.value.startedAt)
                else if Polling in states then ReportPolling else ReportIdle;
    }
  }

  function Emitted(states: seq<LaneState>): Report {
    OldestRuns(states);
    if Oldest(states).Some? then ReportRunning(Oldest(states).value.job, Oldest(states).value.startedAt)
    else if Polling in states then ReportPolling else ReportIdle
  }

  /** The first lane that has run this long is in this state. */
  predicate FirstOfOldest(states: seq<LaneState>, oldest: LaneState)
    requires oldest.Running?
  {
    exists i :: 0 <= i < |states| && states[i] == oldest
        && forall j :: 0 <= j < i && states[j].Running? ==> states[j].startedAt > oldest.startedAt
  }

  lemma {:induction false} OldestRuns(states: seq<LaneState>)
    ensures Oldest(states).Some? <==> exists i :: 0 <= i < |states| && states[i].Running?
    ensures Oldest(states).Some? ==>
              && Oldest(states).value.Running? && Oldest(states).value in states
              && FirstOfOldest(states, Oldest(states).value)
              && forall i :: 0 <= i < |states| && states[i].Running? ==>
                  Oldest(states).value.startedAt <= states[i].startedAt
  {
    if states != [] {
      var front, last := states[..|states| - 1], states[|states| - 1];
      assert states == front + [last];
      OldestRuns(front);
      if last.Running? {
        assert states[|states| - 1].Running?;
      }
      if i :| 0 <= i < |front| && front[i].Running? {
        assert states[i].Running?;
      }
    }
  }

  /**
   * The supervisor hears of a running job exactly while one runs, and then of the one that has run longest, the first
   * of them when several started together.
   */
  lemma LongestRunIsReported(states: seq<LaneState>)
    ensures Emitted(states).ReportRunning? <==> exists i :: 0 <= i < |states| && states[i].Running?
    ensures Emitted(states).ReportRunning? ==>
              && FirstOfOldest(states, Running(Emitted(states).job, Emitted(states).startedAt))
              && forall i :: 0 <= i < |states| && states[i].Running? ==>
                  Emitted(states).startedAt <= states[i].startedAt
    ensures Emitted(states) == ReportIdle <==> forall i :: 0 <= i < |states| ==> states[i] == Idle
  {
    OldestRuns(states);
    if i :| 0 <= i < |states| && states[i] != Idle {
      assert states[i].Running? || states[i] == Polling;
    }
  }
}
