/**
 * That a lease is kept: when a renewal is called and what its answer does, and a candidate whose renewals are answered
 * in time, which never loses its lease.
 */
module LeaseRenewal {
  import opened Basics
  import opened LeaseWindow
  import opened LeaseSafety

  const RENEW_EVERY_MS: int := 10_000

  /** The child was told to stop, and not by a handoff alone. */
  predicate Draining(a: Active) {
    a.aborted.Some? && (a.stopSignal || !a.handoffRelease)
  }

  /** The candidate still reckons with its lease. */
  predicate Minding(a: Active) {
    !a.lost && !a.ended && !Draining(a)
  }

  /** Past the lease's deadline, or past that of the call under way. */
  predicate Overdue(a: Active, now: int) {
    now >= a.leaseDeadline || (a.renewal.Some? && now >= a.renewal.value.deadline)
  }

  // ---------- what each event does to a lease ----------

  /** The timer calls if and only if no call is under way, nothing ended the lease, and its deadline has not passed. */
  lemma RenewalStartsIff(s: System, c: Boot)
    requires Enabled(s, RenewTimerRuns(c))
    ensures var before, after := s.boots[c].active, Step(s, RenewTimerRuns(c)).boots[c].active;
            && (before.renewal.None? && after.renewal.Some? <==>
                  before.renewal.None? && Minding(before) && s.now < before.leaseDeadline)
            && (before.renewal.None? && after.renewal.Some? ==>
                  && after.renewal.value.startedAt == s.now
                  && after.renewal.value.deadline <= before.leaseDeadline
                  && after.renewal.value.deadline <= s.now + ROLE_RENEW_DEADLINE_MS
                  && after.renewal.value.deadline in {before.leaseDeadline, s.now + ROLE_RENEW_DEADLINE_MS})
            && (before.renewal.Some? ==> after == before)
            && (after.lost <==>
                  before.lost || (before.renewal.None? && Minding(before) && s.now >= before.leaseDeadline))
            && after.leaseDeadline == before.leaseDeadline
  {
  }

  /**
   * An answer ends the call. In time, a yes moves the deadline to a window from the call's start; anything else loses
   * the lease.
   */
  lemma AnswerMovesDeadline(s: System, c: Boot)
    requires Enabled(s, RenewalReplies(c))
    ensures var h, after := s.boots[c], Step(s, RenewalReplies(c)).boots[c].active;
            var timely := Minding(h.active) && s.now < h.active.renewal.value.deadline;
            && after.renewal.None?
            && after.leaseDeadline == (if timely && h.applied == Some(true)
                                       then h.active.renewal.value.startedAt + 45_000 else h.active.leaseDeadline)
            && (after.lost <==> h.active.lost || (Minding(h.active) && !(timely && h.applied == Some(true))))
  {
  }

  /** The row the database leaves, and what it says: a lease of its own is extended, an expired one taken if allowed. */
  lemma ElectionGrantsIff(s: System, c: Boot, allowed: bool)
    requires Enabled(s, ElectionHandled(c, allowed))
    ensures var t := Step(s, ElectionHandled(c, allowed));
            var live, reply := s.row.until > s.now, t.boots[c].reply.value;
            && (reply.Granted? <==> allowed && (live ==> s.row.owner == Some(c)))
            && (reply.Granted? ==> reply.epoch == t.row.epoch && reply.at == s.now && reply.reaffirmed == live)
            && t.row == if live || !allowed then s.row else Row(Some(c), s.row.epoch + 1, s.now + 45_000)
  {
  }

  /** The database renews exactly a live lease of the caller's own epoch, if allowed, for a window from now. */
  lemma RenewalAppliesIff(s: System, c: Boot, allowed: bool)
    requires Enabled(s, RenewalHandled(c, allowed))
    ensures var t, epoch := Step(s, RenewalHandled(c, allowed)), s.boots[c].epoch;
            var own := allowed && s.row.owner == Some(c) && s.row.epoch == epoch && s.row.until > s.now;
            && t.boots[c].applied == Some(own)
            && t.row == if own then s.row.(until := s.now + 45_000) else s.row
  {
  }

  /** A broken connection only ends the call; any other error loses the lease. */
  lemma ErrorLosesLeaseIff(s: System, c: Boot, down: bool)
    requires Enabled(s, RenewalThrows(c, down))
    ensures var before, after := s.boots[c].active, Step(s, RenewalThrows(c, down)).boots[c].active;
            && after.renewal.None? && after.leaseDeadline == before.leaseDeadline
            && (after.lost <==> before.lost || (Minding(before) && !down))
  {
  }

  /** The watchdog loses a lease past its deadline and one whose renewal hangs past its own, and no other. */
  lemma WatchdogLosesIff(s: System, c: Boot)
    requires Enabled(s, WatchdogRuns(c))
    ensures var before, after := s.boots[c].active, Step(s, WatchdogRuns(c)).boots[c].active;
            && (after.lost <==> before.lost || (!before.ended && Overdue(before, s.now)))
            && after.leaseDeadline == before.leaseDeadline && after.renewal == before.renewal
  {
  }

  /** A stop signal reaches the child: it starts the drain, or forces one already begun, and keeps its reason. */
  lemma SignalReachesChild(s: System, c: Boot)
    requires Enabled(s, StopSignal(c))
    ensures var before, after := s.boots[c].active, Step(s, StopSignal(c)).boots[c].active;
            && after.aborted == Some(if before.aborted.Some? then before.aborted.value else ShutdownRequested)
            && (after.forced <==> before.forced || before.aborted.Some?)
            && Draining(after)
  {
  }

  /** A handoff starts a drain during which the lease is renewed, unless the child was already told to stop. */
  lemma HandoffKeepsRenewing(s: System, c: Boot)
    requires Enabled(s, HandoffDecided(c))
    ensures var before, after := s.boots[c].active, Step(s, HandoffDecided(c)).boots[c].active;
            if before.aborted.None? && !before.lost && !before.ended && !before.handoffRelease then
              after.aborted == Some(PrimaryHandoff) && after.handoffRelease && (Draining(after) <==> before.stopSignal)
            else after == before
  {
  }

  /** Only the first reason to stop the child counts, in every run of one tenure. */
  lemma {:induction false} FirstReasonCounts(s: System, es: seq<Event>, c: Boot)
    requires Run(s, es) && IsHolding(s, c) && s.boots[c].active.aborted.Some? && ChildEnds(c) !in es
    ensures var end := After(s, es); IsHolding(end, c) && end.boots[c].active.aborted == s.boots[c].active.aborted
    decreases |es|
  {
    if es != [] {
      assert es[0] in es;
      StillHolding(s, es[0], c);
      FirstReasonStays(s, es[0], c);
      FirstReasonCounts(Step(s, es[0]), es[1..], c);
    }
  }

  lemma FirstReasonStays(s: System, e: Event, c: Boot)
    requires Enabled(s, e) && IsHolding(s, c) && s.boots[c].active.aborted.Some? && e != ChildEnds(c)
    ensures Step(s, e).boots[c].active.aborted == s.boots[c].active.aborted
  {
    match e
    case RenewalReplies(_) =>
    case RenewalThrows(_, _) =>
    case _ =>
  }

  /** Told to stop for whatever reason, a child is stopped for it, unless it was told before. */
  lemma AbortReachesChild(s: System, c: Boot, reason: Reason)
    requires Enabled(s, ChildAborted(c, reason))
    ensures var before, after := s.boots[c].active, Step(s, ChildAborted(c, reason)).boots[c].active;
            after == if before.aborted.Some? then before else before.(aborted := Some(reason))
  {
  }

  /** In every run, a lost lease forces the child to stop. */
  lemma {:induction false} LossForces(s: System, es: seq<Event>, c: Boot)
    requires Run(s, es) && IsHolding(After(s, es), c) && After(s, es).boots[c].active.lost
    requires IsHolding(s, c) && s.boots[c].active.lost ==> s.boots[c].active.forced && s.boots[c].active.aborted.Some?
    ensures After(s, es).boots[c].active.forced && After(s, es).boots[c].active.aborted.Some?
    decreases |es|
  {
    if es != [] {
      LossForcesStep(s, es[0], c);
      LossForces(Step(s, es[0]), es[1..], c);
    }
  }

  lemma LossForcesStep(s: System, e: Event, c: Boot)
    requires Enabled(s, e)
    requires IsHolding(s, c) && s.boots[c].active.lost ==> s.boots[c].active.forced && s.boots[c].active.aborted.Some?
    ensures var t := Step(s, e);
            IsHolding(t, c) && t.boots[c].active.lost ==> t.boots[c].active.forced && t.boots[c].active.aborted.Some?
  {
  }

  // ---------- a healthy candidate keeps its lease ----------

  /** When the renewal timer has to run next. */
  function NextTick(s: System, e: Event, c: Boot, tick: int): int {
    if e == RenewTimerRuns(c) then s.now + RENEW_EVERY_MS else tick
  }

  /**
   * The renewal timer is not late, every renewal call is answered before it counts as hung, no rule forbids it, and
   * nothing but a handoff tells the child to stop. That the database says yes is demanded only of a lease that was
   * merely confirmed.
   */
  predicate Healthy(s: System, e: Event, c: Boot, tick: int)
    requires Enabled(s, e) && IsHolding(s, c)
  {
    var h := s.boots[c];
    && e != ChildEnds(c)
    && !(e.RenewalThrows? && e.c == c)
    && (e.Advance? ==> e.to <= tick && (h.active.renewal.Some? ==> e.to < h.active.renewal.value.deadline))
    && (e.RenewalHandled? && e.c == c ==> e.allowed)
    && (e == RenewalReplies(c) && h.reaffirmed ==> h.applied == Some(true))
    && !Draining(Step(s, e).boots[c].active)
  }

  lemma StillHolding(s: System, e: Event, c: Boot)
    requires Enabled(s, e) && IsHolding(s, c) && e != ChildEnds(c)
    ensures IsHolding(Step(s, e), c) && Step(s, e).boots[c].epoch == s.boots[c].epoch
    ensures !s.boots[c].reaffirmed ==> !Step(s, e).boots[c].reaffirmed
  {
  }

  predicate HealthyRun(s: System, es: seq<Event>, c: Boot, tick: int)
    requires Run(s, es)
    decreases |es|
  {
    es == [] || (IsHolding(s, c) && Healthy(s, es[0], c, tick)
                 && HealthyRun(Step(s, es[0]), es[1..], c, NextTick(s, es[0], c, tick)))
  }

  /** The lease is held, and the next tick or the answer under way will come before its deadline. */
  predicate Kept(s: System, c: Boot, tick: int) {
    && IsHolding(s, c)
    && var a := s.boots[c].active;
    && Minding(a) && s.now <= tick
    && if a.renewal.None? then tick < a.leaseDeadline
       else
         && a.renewal.value.startedAt <= s.now < a.renewal.value.deadline <= a.leaseDeadline
         && a.renewal.value.deadline <= a.renewal.value.startedAt + ROLE_RENEW_DEADLINE_MS
         && tick < a.renewal.value.startedAt + 2 * ROLE_RENEW_DEADLINE_MS
         && (s.boots[c].applied == Some(false) ==> s.boots[c].reaffirmed)
  }

  /** Before its deadline, a lease that does not rest on a confirmation is the row's: the database renews it. */
  lemma OwnRow(s: System, c: Boot)
    requires Inv(s) && IsHolding(s, c) && !s.boots[c].reaffirmed && s.now < s.boots[c].active.leaseDeadline
    ensures Renewable(s.row, c, s.boots[c].epoch, s.now)
  {
    assert CandidateSound(s, c);
  }

  lemma KeptStep(s: System, e: Event, c: Boot, tick: int)
    requires Inv(s) && Kept(s, c, tick) && Enabled(s, e) && Healthy(s, e, c, tick)
    ensures Kept(Step(s, e), c, NextTick(s, e, c, tick))
  {
    StillHolding(s, e, c);
    if e == RenewalHandled(c, true) {
      KeptHandled(s, c, tick);
    } else if e == RenewalReplies(c) || e == RenewTimerRuns(c) || e == WatchdogRuns(c) {
      KeptByTimers(s, e, c, tick);
    } else {
      KeptByOthers(s, e, c, tick);
    }
  }

  lemma KeptHandled(s: System, c: Boot, tick: int)
    requires Inv(s) && Kept(s, c, tick) && Enabled(s, RenewalHandled(c, true))
    ensures Kept(Step(s, RenewalHandled(c, true)), c, tick)
  {
    if !s.boots[c].reaffirmed {
      OwnRow(s, c);
    }
  }

  lemma KeptByTimers(s: System, e: Event, c: Boot, tick: int)
    requires Kept(s, c, tick) && Enabled(s, e) && Healthy(s, e, c, tick)
    requires e == RenewalReplies(c) || e == RenewTimerRuns(c) || e == WatchdogRuns(c)
    ensures Kept(Step(s, e), c, NextTick(s, e, c, tick))
  {
  }

  lemma KeptByOthers(s: System, e: Event, c: Boot, tick: int)
    requires Kept(s, c, tick) && Enabled(s, e) && Healthy(s, e, c, tick)
    requires e != RenewalHandled(c, true) && e != RenewalReplies(c) && e != RenewTimerRuns(c) && e != WatchdogRuns(c)
    ensures Kept(Step(s, e), c, tick) && NextTick(s, e, c, tick) == tick
  {
  }

  lemma {:induction false} KeptRuns(s: System, es: seq<Event>, c: Boot, tick: int) returns (last: int)
    requires Inv(s) && Kept(s, c, tick) && Run(s, es) && HealthyRun(s, es, c, tick)
    ensures var end := After(s, es);
            && Inv(end) && Kept(end, c, last) && end.boots[c].epoch == s.boots[c].epoch
            && (!s.boots[c].reaffirmed ==> !end.boots[c].reaffirmed)
    decreases |es|
  {
    last := tick;
    if es != [] {
      KeptStep(s, es[0], c, tick);
      StepKeeps(s, es[0]);
      StillHolding(s, es[0], c);
      last := KeptRuns(Step(s, es[0]), es[1..], c, NextTick(s, es[0], c, tick));
    }
  }

  /**
   * A candidate whose election is answered more than a tick before its window ends, and which stays healthy, never
   * loses its lease, in any run of any number of candidates. Unless the grant was a mere confirmation, the database
   * row stays its own all the time.
   */
  lemma HealthyKeepsLease(s: System, c: Boot, es: seq<Event>)
    requires Inv(s) && Enabled(s, ElectionReplies(c)) && s.boots[c].reply.value.Granted?
    requires s.now + RENEW_EVERY_MS < s.boots[c].startedAt + ROLE_LEASE_WINDOW_MS
    requires var begun := Step(s, ElectionReplies(c));
             Run(begun, es) && HealthyRun(begun, es, c, s.now + RENEW_EVERY_MS)
    ensures var end := After(Step(s, ElectionReplies(c)), es);
            && IsHolding(end, c) && end.boots[c].epoch == s.boots[c].reply.value.epoch
            && !end.boots[c].active.lost && end.now < end.boots[c].active.leaseDeadline
            && (!s.boots[c].reply.value.reaffirmed ==>
                  end.row.owner == Some(c) && end.row.epoch == end.boots[c].epoch && end.now < end.row.until)
  {
    var begun := Step(s, ElectionReplies(c));
    StepKeeps(s, ElectionReplies(c));
    var last := KeptRuns(begun, es, c, s.now + RENEW_EVERY_MS);
    if !s.boots[c].reply.value.reaffirmed {
      OwnRow(After(begun, es), c);
    }
  }

  // ---------- a lease can be kept for as long as wanted ----------

  predicate OnlyHolder(s: System, c: Boot) {
    forall d :: d in s.boots && s.boots[d].Holding? ==> d == c
  }

  /** Held without a call under way, on a lease that is the row's own. */
  predicate AtRest(s: System, c: Boot, tick: int) {
    && Inv(s) && Kept(s, c, tick) && OnlyHolder(s, c)
    && s.boots[c].active.renewal.None? && !s.boots[c].reaffirmed
  }

  lemma Prepend(s: System, e: Event, es: seq<Event>, c: Boot, tick: int)
    requires Enabled(s, e) && IsHolding(s, c) && Healthy(s, e, c, tick)
    requires Run(Step(s, e), es) && HealthyRun(Step(s, e), es, c, NextTick(s, e, c, tick))
    ensures Run(s, [e] + es) && HealthyRun(s, [e] + es, c, tick)
    ensures After(s, [e] + es) == After(Step(s, e), es)
  {
    assert ([e] + es)[1..] == es;
  }

  /** A candidate that is alone in holding the role can go on healthily to any moment. */
  lemma {:induction false} LeaseCanBeKept(s: System, c: Boot, tick: int, until: int) returns (es: seq<Event>)
    requires AtRest(s, c, tick) && s.now <= until
    ensures Run(s, es) && HealthyRun(s, es, c, tick) && After(s, es).now == until
    decreases until - s.now, if s.now == tick then 1 else 0
  {
    if s.now == until {
      es := [];
    } else if s.now == tick {
      var called, handled, renewed := Renewed(s, c, tick);
      es := LeaseCanBeKept(renewed, c, s.now + RENEW_EVERY_MS, until);
      es := RenewFirst(s, called, handled, c, tick, es);
    } else {
      var watched := Step(s, WatchdogRuns(c));
      var to := Min(Min(tick, until), s.now + WATCHDOG_MS);
      RestWatched(s, c, tick);
      RestAdvanced(watched, c, tick, to);
      es := LeaseCanBeKept(Step(watched, Advance(to)), c, tick, until);
      Prepend(watched, Advance(to), es, c, tick);
      es := [Advance(to)] + es;
      Prepend(s, WatchdogRuns(c), es, c, tick);
      es := [WatchdogRuns(c)] + es;
    }
  }

  lemma RestWatched(s: System, c: Boot, tick: int)
    requires AtRest(s, c, tick)
    ensures Healthy(s, WatchdogRuns(c), c, tick)
    ensures var watched := Step(s, WatchdogRuns(c)); AtRest(watched, c, tick) && watched.boots[c].lastWatch == s.now
  {
    KeptStep(s, WatchdogRuns(c), c, tick);
    StepKeeps(s, WatchdogRuns(c));
  }

  lemma RestAdvanced(s: System, c: Boot, tick: int, to: int)
    requires AtRest(s, c, tick) && s.boots[c].lastWatch == s.now <= to <= s.now + WATCHDOG_MS && to <= tick
    ensures Enabled(s, Advance(to)) && Healthy(s, Advance(to), c, tick) && AtRest(Step(s, Advance(to)), c, tick)
  {
    KeptStep(s, Advance(to), c, tick);
    StepKeeps(s, Advance(to));
  }

  /** A renewal that is handled and answered at once. */
  lemma Renewed(s: System, c: Boot, tick: int) returns (called: System, handled: System, renewed: System)
    requires AtRest(s, c, tick)
    ensures IsHolding(called, c) && IsHolding(handled, c)
    ensures Healthy(s, RenewTimerRuns(c), c, tick) && called == Step(s, RenewTimerRuns(c)) && called.now == s.now
    ensures Enabled(called, RenewalHandled(c, true))
    ensures Healthy(called, RenewalHandled(c, true), c, s.now + RENEW_EVERY_MS)
    ensures handled == Step(called, RenewalHandled(c, true)) && handled.now == s.now
    ensures Enabled(handled, RenewalReplies(c)) && Healthy(handled, RenewalReplies(c), c, s.now + RENEW_EVERY_MS)
    ensures renewed == Step(handled, RenewalReplies(c))
    ensures AtRest(renewed, c, s.now + RENEW_EVERY_MS) && renewed.now == s.now
  {
    called := RestCalled(s, c, tick);
    handled := CallHandled(called, c, s.now + RENEW_EVERY_MS);
    renewed := Step(handled, RenewalReplies(c));
    KeptStep(handled, RenewalReplies(c), c, s.now + RENEW_EVERY_MS);
    StepKeeps(handled, RenewalReplies(c));
  }

  lemma RestCalled(s: System, c: Boot, tick: int) returns (called: System)
    requires AtRest(s, c, tick)
    ensures Healthy(s, RenewTimerRuns(c), c, tick) && called == Step(s, RenewTimerRuns(c)) && called.now == s.now
    ensures Inv(called) && Kept(called, c, s.now + RENEW_EVERY_MS) && OnlyHolder(called, c)
    ensures var h := called.boots[c]; h.active.renewal.Some? && h.applied.None? && !h.reaffirmed
  {
    called := Step(s, RenewTimerRuns(c));
    KeptStep(s, RenewTimerRuns(c), c, tick);
    StepKeeps(s, RenewTimerRuns(c));
  }

  lemma CallHandled(s: System, c: Boot, tick: int) returns (handled: System)
    requires Inv(s) && Kept(s, c, tick) && OnlyHolder(s, c)
    requires var h := s.boots[c]; h.active.renewal.Some? && h.applied.None? && !h.reaffirmed
    ensures Enabled(s, RenewalHandled(c, true)) && Healthy(s, RenewalHandled(c, true), c, tick)
    ensures handled == Step(s, RenewalHandled(c, true)) && handled.now == s.now
    ensures Inv(handled) && Kept(handled, c, tick) && OnlyHolder(handled, c)
    ensures var h := handled.boots[c]; h.active.renewal.Some? && h.applied == Some(true) && !h.reaffirmed
  {
    handled := Step(s, RenewalHandled(c, true));
    KeptStep(s, RenewalHandled(c, true), c, tick);
    StepKeeps(s, RenewalHandled(c, true));
  }

  lemma RenewFirst(s: System, called: System, handled: System, c: Boot, tick: int, rest: seq<Event>)
    returns (es: seq<Event>)
    requires IsHolding(s, c) && IsHolding(called, c) && IsHolding(handled, c)
    requires Healthy(s, RenewTimerRuns(c), c, tick) && called == Step(s, RenewTimerRuns(c)) && called.now == s.now
    requires Enabled(called, RenewalHandled(c, true))
    requires Healthy(called, RenewalHandled(c, true), c, s.now + RENEW_EVERY_MS)
    requires handled == Step(called, RenewalHandled(c, true))
    requires Enabled(handled, RenewalReplies(c)) && Healthy(handled, RenewalReplies(c), c, s.now + RENEW_EVERY_MS)
    requires Run(Step(handled, RenewalReplies(c)), rest)
    requires HealthyRun(Step(handled, RenewalReplies(c)), rest, c, s.now + RENEW_EVERY_MS)
    ensures Run(s, es) && HealthyRun(s, es, c, tick)
    ensures After(s, es) == After(Step(handled, RenewalReplies(c)), rest)
  {
    es := rest;
    Prepend(handled, RenewalReplies(c), es, c, s.now + RENEW_EVERY_MS); es := [RenewalReplies(c)] + es;
    Prepend(called, RenewalHandled(c, true), es, c, s.now + RENEW_EVERY_MS); es := [RenewalHandled(c, true)] + es;
    Prepend(s, RenewTimerRuns(c), es, c, tick); es := [RenewTimerRuns(c)] + es;
  }
}
