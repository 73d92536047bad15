/**
 * What the polls of a worker's lanes run: which jobs start and which are deferred, what is counted, and what an
 * interruption changes. The polls themselves are in WorkerLanes.
 */
module LanePolls {
  import opened Sequences
  import opened WorkerLanes

  // ---------- what a trace says ----------

  function Started(trace: seq<Action>): seq<Job> {
    if trace == [] then []
    else
      var before, last := Started(trace[..|trace| - 1]), trace[|trace| - 1];
      if last.Start? then before + [last.job] else before
  }

  function Deferred(trace: seq<Action>): seq<Job> {
    if trace == [] then []
    else
      var before, last := Deferred(trace[..|trace| - 1]), trace[|trace| - 1];
      if last.Defer? then before + [last.job] else before
  }

  lemma TracePush(trace: seq<Action>, action: Action)
    ensures Started(trace + [action]) == Started(trace) + if action.Start? then [action.job] else []
    ensures Deferred(trace + [action]) == Deferred(trace) + if action.Defer? then [action.job] else []
  {
    assert (trace + [action])[..|trace|] == trace;
  }

  /** Permits and considerations start and defer nothing. */
  lemma {:induction false} QuietActions(trace: seq<Action>, rest: seq<Action>)
    requires forall action :: action in rest ==> !action.Start? && !action.Defer?
    ensures Started(trace + rest) == Started(trace) && Deferred(trace + rest) == Deferred(trace)
  {
    if rest == [] {
      assert trace + rest == trace;
    } else {
      var front, last := rest[..|rest| - 1], rest[|rest| - 1];
      assert trace + rest == (trace + front) + [last];
      QuietActions(trace, front);
      TracePush(trace + front, last);
    }
  }

  // ---------- what a poll meets at a job ----------

  /** Pending, and the host's budget denied it. */
  predicate Refused(poll: Poll, job: Job) {
    job in poll.pending && poll.visits(job).admission.Denied?
  }

  /** Pending, and the host's budget admitted it or there is none to ask. */
  predicate Wanted(poll: Poll, job: Job) {
    job in poll.pending && !poll.visits(job).admission.Denied?
  }

  predicate Fails(outcome: Outcome) {
    outcome.Threw? || outcome.failed
  }

  /** The run completed and says that its source has more. */
  predicate SaysMore(outcome: Outcome) {
    outcome.Ran? && outcome.completed && outcome.moreSource
  }

  /** The run completed and says that it was requested again. */
  predicate SaysAgain(outcome: Outcome) {
    outcome.Ran? && outcome.completed && outcome.continuation
  }

  /** Neither a stop signal nor a report that throws ends the poll at this job. */
  predicate Passes(poll: Poll, job: Job) {
    var visit := poll.visits(job);
    && !visit.haltedFirst
    && (Wanted(poll, job) ==> !visit.haltedAfter && !visit.startReportThrows && !visit.endReportThrows)
  }

  /** The poll ends at this job, after starting it: its end could not be reported. */
  predicate StartsLast(poll: Poll, job: Job) {
    var visit := poll.visits(job);
    Wanted(poll, job) && !visit.haltedFirst && !visit.haltedAfter && !visit.startReportThrows && visit.endReportThrows
  }

  /** Reporting the job's start or end throws. */
  predicate ReportThrows(poll: Poll, job: Job) {
    var visit := poll.visits(job);
    Wanted(poll, job) && !visit.haltedFirst && !visit.haltedAfter && (visit.startReportThrows || visit.endReportThrows)
  }

  /** The jobs of a list at which something holds, in order. */
  function Those(order: seq<Job>, poll: Poll, holds: (Poll, Job) -> bool): seq<Job> {
    if order == [] then []
    else
      var before, last := Those(order[..|order| - 1], poll, holds), order[|order| - 1];
      if holds(poll, last) then before + [last] else before
  }

  lemma {:induction false} ThoseMembers(order: seq<Job>, poll: Poll, holds: (Poll, Job) -> bool)
    ensures forall job :: job in Those(order, poll, holds) <==> job in order && holds(poll, job)
    ensures Distinct(order) ==> Distinct(Those(order, poll, holds))
  {
    if order != [] {
      ThoseMembers(order[..|order| - 1], poll, holds);
      assert order == order[..|order| - 1] + [order[|order| - 1]];
    }
  }

  /** The started jobs at which something holds. */
  predicate Failing(poll: Poll, job: Job) { Wanted(poll, job) && Fails(poll.visits(job).outcome) }
  predicate Throwing(poll: Poll, job: Job) { Wanted(poll, job) && poll.visits(job).outcome.Threw? }
  predicate Continuing(poll: Poll, job: Job) { Wanted(poll, job) && SaysMore(poll.visits(job).outcome) }
  predicate Refilling(poll: Poll, job: Job) { Wanted(poll, job) && SaysAgain(poll.visits(job).outcome) }

  // ---------- one visit ----------

  lemma VisitPasses(names: seq<Job>, p: Progress, job: Job, poll: Poll, sourceLane: bool)
    requires job in names && !p.over && Passes(poll, job)
    ensures var q := AtJob(names, p, job, poll, sourceLane);
            && !q.over
            && q.failures == p.failures + (if Failing(poll, job) then 1 else 0)
            && q.failed == (p.failed || Throwing(poll, job))
            && q.sourceContinued == (p.sourceContinued || (sourceLane && Continuing(poll, job)))
            && q.stageRefill == (p.stageRefill || Refilling(poll, job))
            && q.nextIndex == (if Wanted(poll, job) then NextAfter(names, job) else p.nextIndex)
  {
  }

  lemma VisitTrace(names: seq<Job>, p: Progress, job: Job, poll: Poll, sourceLane: bool)
    requires job in names && !p.over && Passes(poll, job)
    ensures var q := AtJob(names, p, job, poll, sourceLane);
            && Started(q.trace) == Started(p.trace) + (if Wanted(poll, job) then [job] else [])
            && Deferred(q.trace) == Deferred(p.trace) + (if Refused(poll, job) then [job] else [])
  {
    if job in poll.pending {
      var visit := poll.visits(job);
      var considered := p.trace + [Consider(job)];
      var taken := considered + TakenFor(job, visit);
      QuietActions(p.trace, [Consider(job)]);
      QuietActions(considered, TakenFor(job, visit));
      TracePush(taken, Defer(job));
      TracePush(taken, Start(job));
      QuietActions(taken + [Start(job)], ReturnedFor(job, visit));
    }
  }

  /** The visit that ends a poll. */
  lemma VisitEnds(names: seq<Job>, p: Progress, job: Job, poll: Poll, sourceLane: bool)
    requires job in names && !p.over && !Passes(poll, job)
    ensures var q, last := AtJob(names, p, job, poll, sourceLane), StartsLast(poll, job);
            && q.over
            && q.failures == p.failures + (if last && Fails(poll.visits(job).outcome) then 1 else 0)
                             + (if ReportThrows(poll, job) then 1 else 0)
            && q.failed == (p.failed || ReportThrows(poll, job))
            && q.sourceContinued == (p.sourceContinued || (sourceLane && last && SaysMore(poll.visits(job).outcome)))
            && q.stageRefill == (p.stageRefill || (last && SaysAgain(poll.visits(job).outcome)))
            && q.nextIndex == (if last then NextAfter(names, job) else p.nextIndex)
  {
  }

  lemma VisitEndsTrace(names: seq<Job>, p: Progress, job: Job, poll: Poll, sourceLane: bool)
    requires job in names && !p.over && !Passes(poll, job)
    ensures var q := AtJob(names, p, job, poll, sourceLane);
            && Started(q.trace) == Started(p.trace) + (if StartsLast(poll, job) then [job] else [])
            && Deferred(q.trace) == Deferred(p.trace)
  {
    if job in poll.pending && !poll.visits(job).haltedFirst {
      var visit := poll.visits(job);
      var considered := p.trace + [Consider(job)];
      var taken := considered + TakenFor(job, visit);
      QuietActions(p.trace, [Consider(job)]);
      QuietActions(considered, TakenFor(job, visit));
      QuietActions(taken, ReturnedFor(job, visit));
      TracePush(taken, Start(job));
    }
  }

  // ---------- the jobs before an interruption ----------

  /** What a poll has done once it visited these jobs, and nothing ended it. */
  predicate Tells(p: Progress, order: seq<Job>, poll: Poll, sourceLane: bool) {
    && !p.over
    && Started(p.trace) == Those(order, poll, Wanted) && Deferred(p.trace) == Those(order, poll, Refused)
    && p.failures == |Those(order, poll, Failing)|
    && (p.failed <==> Those(order, poll, Throwing) != [])
    && (p.sourceContinued <==> sourceLane && Those(order, poll, Continuing) != [])
    && (p.stageRefill <==> Those(order, poll, Refilling) != [])
  }

  lemma {:induction false} VisitsTell(names: seq<Job>, start: nat, order: seq<Job>, poll: Poll, sourceLane: bool)
    requires forall job :: job in order ==> job in names && Passes(poll, job)
    ensures var p := AtJobs(names, Progress(start, 0, false, false, false, [], false), order, poll, sourceLane);
            && Tells(p, order, poll, sourceLane)
            && p.nextIndex == var started := Those(order, poll, Wanted);
                 if started == [] then start else LaterIndex(names, started[|started| - 1])
  {
    if order != [] {
      var front, last := order[..|order| - 1], order[|order| - 1];
      var before := AtJobs(names, Progress(start, 0, false, false, false, [], false), front, poll, sourceLane);
      VisitsTell(names, start, front, poll, sourceLane);
      VisitPasses(names, before, last, poll, sourceLane);
      VisitTrace(names, before, last, poll, sourceLane);
    }
  }

  /** The place after a job in its lane, the first after the last. */
  function LaterIndex(names: seq<Job>, job: Job): nat {
    if job in names then NextAfter(names, job) else 0
  }

  // ---------- a whole poll ----------

  /**
   * A poll that nothing ends early starts the pending jobs whose admission was not denied, in rotation order and once
   * each, and defers the denied ones; its counters are those of the runs, and the next poll begins behind the last run.
   */
  lemma PollRuns(names: seq<Job>, start: nat, poll: Poll, sourceLane: bool)
    requires Distinct(names) && start < |names| && !poll.setupThrows && forall job :: job in names ==> Passes(poll, job)
    ensures var p, order := Polled(names, start, poll, sourceLane), names[start..] + names[..start];
            && Tells(p, order, poll, sourceLane)
            && Distinct(Started(p.trace)) && Distinct(Deferred(p.trace))
            && (forall job :: job in Started(p.trace) <==> job in names && Wanted(poll, job))
            && (forall job :: job in Deferred(p.trace) <==> job in names && Refused(poll, job))
    ensures var p := Polled(names, start, poll, sourceLane);
            NextBegins(names, start, p.nextIndex, Started(p.trace))
  {
    var order := Rotated(names, start);
    assert names == names[..start] + names[start..];
    assert Distinct(order);
    VisitsTell(names, start, order, poll, sourceLane);
    ThoseMembers(order, poll, Wanted);
    ThoseMembers(order, poll, Refused);
    BeginsLater(names, start, Those(order, poll, Wanted));
  }

  /** The next poll begins behind the job started last, which then comes last; with none started, where this one did. */
  predicate NextBegins(names: seq<Job>, start: nat, next: nat, started: seq<Job>) {
    && next < |names|
    && if started == [] then next == start
       else (names[next..] + names[..next])[|names| - 1] == started[|started| - 1]
  }

  lemma BeginsLater(names: seq<Job>, start: nat, started: seq<Job>)
    requires start < |names| && forall job :: job in started ==> job in names
    ensures var next := if started == [] then start else LaterIndex(names, started[|started| - 1]);
            NextBegins(names, start, next, started)
  {
    if started != [] {
      var job := started[|started| - 1];
      RotatedLast(names, NextAfter(names, job));
      Wraps(IndexOf(names, job), |names|);
    }
  }

  /** A poll that ends at some job has done what it would have done before it, and there only what the job allows. */
  lemma PollIsCutShort(names: seq<Job>, start: nat, poll: Poll, sourceLane: bool, cut: nat)
    requires start < |names| && !poll.setupThrows && cut < |names|
    requires var order := names[start..] + names[..start];
             (forall j :: 0 <= j < cut ==> Passes(poll, order[j])) && !Passes(poll, order[cut])
    ensures var p, order := Polled(names, start, poll, sourceLane), names[start..] + names[..start];
            EndsAtJob(p, order[..cut], order[cut], poll, sourceLane)
  {
    var order := Rotated(names, start);
    var begun := Progress(start, 0, false, false, false, [], false);
    var before := AtJobs(names, begun, order[..cut], poll, sourceLane);
    VisitsTell(names, start, order[..cut], poll, sourceLane);
    LastVisit(names, before, order[..cut], order[cut], poll, sourceLane);
    assert order[..cut + 1] == order[..cut] + [order[cut]];
    OverStays(names, begun, order, cut + 1, poll, sourceLane);
  }

  lemma LastVisit(names: seq<Job>, before: Progress, done: seq<Job>, job: Job, poll: Poll, sourceLane: bool)
    requires job in names && Tells(before, done, poll, sourceLane) && !Passes(poll, job)
    ensures EndsAtJob(AtJob(names, before, job, poll, sourceLane), done, job, poll, sourceLane)
  {
    VisitEnds(names, before, job, poll, sourceLane);
    VisitEndsTrace(names, before, job, poll, sourceLane);
  }

  /** What a poll has done that passed these jobs and ended at the next one. */
  predicate EndsAtJob(p: Progress, done: seq<Job>, job: Job, poll: Poll, sourceLane: bool) {
    var last := StartsLast(poll, job);
    && p.over
    && Started(p.trace) == Those(done, poll, Wanted) + (if last then [job] else [])
    && Deferred(p.trace) == Those(done, poll, Refused)
    && p.failures == |Those(done, poll, Failing)| + (if last && Fails(poll.visits(job).outcome) then 1 else 0)
                     + (if ReportThrows(poll, job) then 1 else 0)
    && (p.failed <==> Those(done, poll, Throwing) != [] || ReportThrows(poll, job))
    && (p.sourceContinued <==>
          sourceLane && (Those(done, poll, Continuing) != [] || (last && SaysMore(poll.visits(job).outcome))))
    && (p.stageRefill <==> Those(done, poll, Refilling) != [] || (last && SaysAgain(poll.visits(job).outcome)))
  }

  /** A poll whose settings, mark or pending list cannot be read runs nothing and counts as one failure. */
  lemma UnreadPollRunsNothing(names: seq<Job>, start: nat, poll: Poll, sourceLane: bool)
    requires start < |names| && poll.setupThrows
    ensures var p := Polled(names, start, poll, sourceLane);
            && p.over && p.trace == [] && p.failures == 1 && p.failed && p.nextIndex == start
            && !p.sourceContinued && !p.stageRefill
  {
  }

  // ---------- a consumer's poll ----------

  /**
   * A consumer's poll starts its job exactly when it was announced, and defers it exactly when the circuit or the host
   * denied it; either at most once.
   */
  lemma ConsumerRuns(job: Job, poll: ConsumerPoll)
    ensures Started(ConsumerTrace(job, poll)) == if Runs(poll) then [job] else []
    ensures Deferred(ConsumerTrace(job, poll)) == if ConsumerRefused(poll) then [job] else []
  {
    if Reaches(poll) {
      var circuit := poll.breaker.BreakerAdmitted?;
      var host := !poll.breaker.BreakerDenied? && poll.admission.Admitted?;
      var taken := TakenBy(job, circuit, host);
      QuietActions([], taken);
      assert [] + taken == taken;
      ConsumerPathRuns(taken, job, poll, circuit, host);
    }
  }

  predicate ConsumerRefused(poll: ConsumerPoll) {
    Reaches(poll) && (poll.breaker.BreakerDenied? || poll.admission.Denied?)
  }

  lemma ConsumerPathRuns(taken: seq<Action>, job: Job, poll: ConsumerPoll, circuit: bool, host: bool)
    requires Reaches(poll) && Started(taken) == [] && Deferred(taken) == []
    ensures var trace := ConsumerPath(taken, job, poll, circuit, host);
            && Started(trace) == (if Runs(poll) then [job] else [])
            && Deferred(trace) == (if ConsumerRefused(poll) then [job] else [])
  {
    var back, ended := Back(Circuit(job), circuit), Back(Host(job), host);
    if ConsumerRefused(poll) {
      QuietActions(taken, back);
      TracePush(taken + back, Defer(job));
    } else if poll.haltedAfter {
      QuietActions(taken, back);
      QuietActions(taken + back, ended);
    } else {
      TracePush(taken, Start(job));
      QuietActions(taken + [Start(job)], back);
      QuietActions(taken + [Start(job)] + back, ended);
    }
  }

  /** It takes the circuit's permit when it is offered one, and the host's only when the circuit did not deny it. */
  lemma ConsumerTakes(job: Job, poll: ConsumerPoll)
    ensures Take(Circuit(job)) in ConsumerTrace(job, poll) <==> Reaches(poll) && poll.breaker.BreakerAdmitted?
    ensures Take(Host(job)) in ConsumerTrace(job, poll) <==>
              Reaches(poll) && !poll.breaker.BreakerDenied? && poll.admission.Admitted?
  {
  }
}
