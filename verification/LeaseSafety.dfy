/**
 * Any number of candidates and the lease row they compete for: elections and renewals as the database handles them
 * (lib/jobs/role-leader.ts), the candidates' own deadlines, and time. Calls may hang, fail, or be handled after their
 * caller gave up.
 */
module LeaseSafety {
  import opened Basics
  import opened LeaseWindow

  /** A boot of a candidate; only one lease of a boot is active at a time. */
  type Boot = nat

  /** `role_leases`: who holds the role, the epoch, and until when. */
  datatype Row = Row(owner: Option<Boot>, epoch: nat, until: int)

  datatype Reply = Denied | Granted(epoch: nat, at: int, reaffirmed: bool)

  /** Who was granted an epoch, and when. */
  datatype Grant = Grant(owner: Option<Boot>, at: int)

  /**
   * A holding candidate: its epoch, when the database granted it, since when its child runs, when the watchdog last
   * ran, whether the grant only confirmed a lease already held, and what the database did with the renewal under way.
   */
  datatype Candidate =
    | Idle
    | Electing(startedAt: int, reply: Option<Reply>)
    | Holding(epoch: nat, grantedAt: int, childSince: int, lastWatch: int, reaffirmed: bool, active: Active,
        applied: Option<bool>)

  datatype System = System(now: int, row: Row, grants: seq<Grant>, boots: map<Boot, Candidate>)

  datatype Event =
    | Advance(to: int)
    | BeginElection(c: Boot)
    | ElectionHandled(c: Boot, allowed: bool)
    | ElectionReplies(c: Boot)
    | ElectionFails(c: Boot)
    | LateElection(c: Boot, allowed: bool)
    | WatchdogRuns(c: Boot)
    | RenewTimerRuns(c: Boot)
    | RenewalHandled(c: Boot, allowed: bool)
    | RenewalReplies(c: Boot)
    | RenewalThrows(c: Boot, down: bool)
    | LateRenewal(c: Boot, epoch: nat)
    | ChildAborted(c: Boot, reason: Reason)
    | StopSignal(c: Boot)
    | HandoffDecided(c: Boot)
    | ChildEnds(c: Boot)
    | LeaseReturned(c: Boot, epoch: nat, keepsOwner: bool)

  /**
   * `tryAcquireRole`: a valid lease is confirmed to its owner as it is, an expired one is taken for a full window.
   * `allowed` stands for the site, batch, quarantine, grace, release and takeover rules, which can only deny.
   */
  function Acquire(row: Row, c: Boot, now: int, allowed: bool): (Row, Reply) {
    if !allowed then (row, Denied)
    else if row.until > now then
      if row.owner == Some(c) then (row, Granted(row.epoch, now, true)) else (row, Denied)
    else (Row(Some(c), row.epoch + 1, now + ROLE_LEASE_WINDOW_MS), Granted(row.epoch + 1, now, false))
  }

  predicate Renewable(row: Row, c: Boot, epoch: nat, now: int) {
    row.owner == Some(c) && row.epoch == epoch && row.until > now
  }

  /** `renewRole`. */
  function Renew(row: Row, c: Boot, epoch: nat, now: int): Row {
    if Renewable(row, c, epoch, now) then row.(until := now + ROLE_LEASE_WINDOW_MS) else row
  }

  predicate IsHolding(s: System, c: Boot) {
    c in s.boots && s.boots[c].Holding?
  }

  predicate IsElecting(s: System, c: Boot) {
    c in s.boots && s.boots[c].Electing?
  }

  predicate Enabled(s: System, e: Event) {
    match e
    case Advance(to) =>
      s.now <= to && forall c :: c in s.boots && s.boots[c].Holding? ==> to <= s.boots[c].lastWatch + WATCHDOG_MS
    case BeginElection(c) => c in s.boots && s.boots[c].Idle?
    case ElectionHandled(c, _) => IsElecting(s, c) && s.boots[c].reply.None?
    case ElectionReplies(c) => IsElecting(s, c) && s.boots[c].reply.Some?
    case ElectionFails(c) => IsElecting(s, c)
    case LateElection(c, _) => c in s.boots
    case WatchdogRuns(c) => IsHolding(s, c)
    case RenewTimerRuns(c) => IsHolding(s, c)
    case RenewalHandled(c, _) => IsHolding(s, c) && s.boots[c].active.renewal.Some? && s.boots[c].applied.None?
    case RenewalReplies(c) => IsHolding(s, c) && s.boots[c].active.renewal.Some? && s.boots[c].applied.Some?
    case RenewalThrows(c, _) => IsHolding(s, c) && s.boots[c].active.renewal.Some?
    case LateRenewal(c, _) => c in s.boots
    case ChildAborted(c, _) => IsHolding(s, c)
    case StopSignal(c) => IsHolding(s, c)
    case HandoffDecided(c) => IsHolding(s, c)
    case ChildEnds(c) => IsHolding(s, c)
    case LeaseReturned(c, epoch, _) =>
      c in s.boots && s.boots[c].Idle? && s.row.owner == Some(c) && s.row.epoch == epoch
  }

  function With(s: System, c: Boot, candidate: Candidate): System {
    s.(boots := s.boots[c := candidate])
  }

  function Handled(s: System, c: Boot, allowed: bool): System {
    var (row, reply) := Acquire(s.row, c, s.now, allowed);
    s.(row := row, grants := if row.epoch == s.row.epoch then s.grants else s.grants + [Grant(Some(c), s.now)])
  }

  function Step(s: System, e: Event): System
    requires Enabled(s, e)
  {
    match e
    case Advance(to) => s.(now := to)
    case BeginElection(c) => With(s, c, Electing(s.now, None))
    case ElectionHandled(c, allowed) =>
      With(Handled(s, c, allowed), c, s.boots[c].(reply := Some(Acquire(s.row, c, s.now, allowed).1)))
    case ElectionReplies(c) =>
      (match s.boots[c].reply.value
       case Denied => With(s, c, Idle)
       case Granted(epoch, at, reaffirmed) =>
         With(s, c, Holding(epoch, at, s.now, s.now, reaffirmed, Started(s.boots[c].startedAt), None)))
    case ElectionFails(c) => With(s, c, Idle)
    case LateElection(c, allowed) => Handled(s, c, allowed)
    case WatchdogRuns(c) =>
      With(s, c, s.boots[c].(lastWatch := s.now, active := Watchdog(s.boots[c].active, s.now)))
    case RenewTimerRuns(c) =>
      With(s, c, s.boots[c].(active := RenewTick(s.boots[c].active, s.now),
                             applied := if s.boots[c].active.renewal.None? then None else s.boots[c].applied))
    case RenewalHandled(c, allowed) =>
      With(s.(row := if allowed then Renew(s.row, c, s.boots[c].epoch, s.now) else s.row), c,
           s.boots[c].(applied := Some(allowed && Renewable(s.row, c, s.boots[c].epoch, s.now))))
    case RenewalReplies(c) =>
      var h := s.boots[c];
      var active := RenewSettled(h.active, s.now, Replied(h.applied.value));
      With(s, c, h.(active := active, applied := None,
                    reaffirmed := h.reaffirmed && active.leaseDeadline == h.active.leaseDeadline))
    case RenewalThrows(c, down) =>
      With(s, c, s.boots[c].(active := RenewSettled(s.boots[c].active, s.now, Threw(down)), applied := None))
    case LateRenewal(c, epoch) => s.(row := Renew(s.row, c, epoch, s.now))
    case ChildAborted(c, reason) => With(s, c, s.boots[c].(active := AbortActive(s.boots[c].active, reason)))
    case StopSignal(c) => With(s, c, s.boots[c].(active := OnStop(s.boots[c].active)))
    case HandoffDecided(c) => With(s, c, s.boots[c].(active := HandOff(s.boots[c].active)))
    case ChildEnds(c) => With(s, c, Idle)
    case LeaseReturned(c, _, keepsOwner) =>
      s.(row := s.row.(owner := if keepsOwner then s.row.owner else None, until := s.now))
  }

  predicate Run(s: System, es: seq<Event>)
    decreases |es|
  {
    es == [] || (Enabled(s, es[0]) && Run(Step(s, es[0]), es[1..]))
  }

  function After(s: System, es: seq<Event>): System
    requires Run(s, es)
    decreases |es|
  {
    if es == [] then s else After(Step(s, es[0]), es[1..])
  }

  predicate Initial(s: System) {
    && s.row.owner.None? && s.row.epoch == 0 && s.grants == [Grant(None, s.now)] && s.row.until <= s.now
    && forall c :: c in s.boots ==> s.boots[c].Idle?
  }

  // ---------- the invariant ----------

  /** How far a grant that only confirmed an old lease may overshoot it. */
  function Slack(reaffirmed: bool): int {
    if reaffirmed then ROLE_LEASE_WINDOW_MS else 0
  }

  /**
   * `limit` lies within epoch `epoch`: before its lease runs out, or, once superseded, before its successor was
   * granted.
   */
  predicate Within(s: System, epoch: nat, limit: int)
    requires |s.grants| == s.row.epoch + 1
  {
    epoch <= s.row.epoch && limit <= (if epoch == s.row.epoch then s.row.until else s.grants[epoch + 1].at)
  }

  predicate Owned(s: System, c: Boot, epoch: nat)
    requires |s.grants| == s.row.epoch + 1
  {
    epoch <= s.row.epoch && s.grants[epoch].owner == Some(c) && (epoch == s.row.epoch ==> s.row.owner == Some(c))
  }

  predicate History(s: System) {
    && |s.grants| == s.row.epoch + 1
    && (forall i :: 0 <= i < |s.grants| ==> s.grants[i].at <= s.now)
    && (forall i, j :: 0 <= i < j < |s.grants| ==> s.grants[i].at <= s.grants[j].at)
    && (s.row.owner.Some? ==> s.row.owner == s.grants[s.row.epoch].owner)
    && s.row.until <= s.now + ROLE_LEASE_WINDOW_MS
  }

  predicate ReplySound(s: System, c: Boot, startedAt: int, reply: Reply)
    requires |s.grants| == s.row.epoch + 1
  {
    reply.Granted? ==>
      && Owned(s, c, reply.epoch)
      && startedAt <= reply.at <= s.now && s.grants[reply.epoch].at <= reply.at
      && Within(s, reply.epoch, startedAt + ROLE_LEASE_WINDOW_MS - Slack(reply.reaffirmed))
  }

  /** The local deadline stays within the epoch's database lease, up to the overshoot of a confirmation. */
  predicate DeadlineSound(s: System, c: Boot, h: Candidate)
    requires |s.grants| == s.row.epoch + 1 && h.Holding?
  {
    && Owned(s, c, h.epoch)
    && s.grants[h.epoch].at <= h.grantedAt <= h.childSince <= h.lastWatch <= s.now
    && Within(s, h.epoch, h.active.leaseDeadline - Slack(h.reaffirmed))
    && h.active.leaseDeadline <= s.now + ROLE_LEASE_WINDOW_MS
    && (h.active.renewal.Some? ==>
          && h.active.leaseDeadline <= h.active.renewal.value.startedAt + ROLE_LEASE_WINDOW_MS
          && h.active.renewal.value.startedAt <= s.now
          && (h.applied == Some(true) ==> Within(s, h.epoch, h.active.renewal.value.startedAt + ROLE_LEASE_WINDOW_MS)))
  }

  /** A child not told to stop was watched within the last period, and then its deadline had not passed. */
  predicate Watched(s: System, h: Candidate)
    requires h.Holding?
  {
    && s.now <= h.lastWatch + WATCHDOG_MS
    && !h.active.ended
    && (h.active.lost ==> h.active.aborted.Some?)
    && (h.active.aborted.None? ==> h.lastWatch < h.active.leaseDeadline || h.lastWatch == h.childSince)
  }

  predicate CandidateSound(s: System, c: Boot)
    requires |s.grants| == s.row.epoch + 1 && c in s.boots
  {
    match s.boots[c]
    case Idle => true
    case Electing(startedAt, reply) => startedAt <= s.now && (reply.Some? ==> ReplySound(s, c, startedAt, reply.value))
    case Holding(_, _, _, _, _, _, _) => DeadlineSound(s, c, s.boots[c]) && Watched(s, s.boots[c])
  }

  predicate Inv(s: System) {
    History(s) && forall c :: c in s.boots ==> CandidateSound(s, c)
  }

  /** Handling an election keeps every other candidate's bounds: an epoch is superseded only once its lease ran out. */
  lemma HandledKeeps(s: System, c: Boot, allowed: bool)
    requires Inv(s)
    ensures Inv(Handled(s, c, allowed))
    ensures ReplySound(Handled(s, c, allowed), c, s.now, Acquire(s.row, c, s.now, allowed).1)
  {
    forall d | d in s.boots ensures CandidateSound(Handled(s, c, allowed), d) {
      HandledKeepsOne(s, c, allowed, d);
    }
  }

  lemma HandledKeepsOne(s: System, c: Boot, allowed: bool, d: Boot)
    requires Inv(s) && d in s.boots
    ensures CandidateSound(Handled(s, c, allowed), d)
  {
    assert CandidateSound(s, d);
  }

  lemma RenewKeeps(s: System, c: Boot, epoch: nat)
    requires Inv(s)
    ensures Inv(s.(row := Renew(s.row, c, epoch, s.now)))
  {
    var next := s.(row := Renew(s.row, c, epoch, s.now));
    forall d | d in s.boots ensures CandidateSound(next, d) {
      assert CandidateSound(s, d);
    }
  }

  /** Changing one candidate only needs that candidate to be sound again. */
  lemma WithKeeps(s: System, c: Boot, candidate: Candidate)
    requires Inv(s) && CandidateSound(With(s, c, candidate), c)
    ensures Inv(With(s, c, candidate))
  {
    forall d | d in s.boots ensures CandidateSound(With(s, c, candidate), d) {
      assert CandidateSound(s, d);
    }
  }

  lemma AdvanceKeeps(s: System, e: Event)
    requires Inv(s) && Enabled(s, e) && e.Advance?
    ensures Inv(Step(s, e))
  {
    forall d | d in s.boots ensures CandidateSound(Step(s, e), d) {
      assert CandidateSound(s, d);
    }
  }

  /** A lease is only given back by a boot without a child, so nobody's deadline depends on it. */
  lemma ReturnKeeps(s: System, e: Event)
    requires Inv(s) && Enabled(s, e) && e.LeaseReturned?
    ensures Inv(Step(s, e))
  {
    forall d | d in s.boots ensures CandidateSound(Step(s, e), d) {
      assert CandidateSound(s, d) && CandidateSound(s, e.c);
    }
  }

  lemma ElectionKeeps(s: System, e: Event)
    requires Inv(s) && Enabled(s, e)
    requires e.BeginElection? || e.ElectionHandled? || e.ElectionReplies? || e.ElectionFails?
    ensures Inv(Step(s, e))
  {
    assert CandidateSound(s, e.c);
    if e.ElectionHandled? {
      HandledKeeps(s, e.c, e.allowed);
      WithKeeps(Handled(s, e.c, e.allowed), e.c, Step(s, e).boots[e.c]);
    } else {
      WithKeeps(s, e.c, Step(s, e).boots[e.c]);
    }
  }

  lemma RenewalHandledKeeps(s: System, e: Event)
    requires Inv(s) && Enabled(s, e) && e.RenewalHandled?
    ensures Inv(Step(s, e))
  {
    var renewed := s.(row := if e.allowed then Renew(s.row, e.c, s.boots[e.c].epoch, s.now) else s.row);
    assert CandidateSound(s, e.c);
    RenewKeeps(s, e.c, s.boots[e.c].epoch);
    assert CandidateSound(renewed, e.c);
    WithKeeps(renewed, e.c, Step(s, e).boots[e.c]);
  }

  /** The candidate's own timers: a deadline only moves to what a handled renewal covers. */
  lemma TimersKeep(s: System, e: Event)
    requires Inv(s) && Enabled(s, e)
    requires e.WatchdogRuns? || e.RenewTimerRuns?
    ensures Inv(Step(s, e))
  {
    assert CandidateSound(s, e.c);
    WithKeeps(s, e.c, Step(s, e).boots[e.c]);
  }

  lemma RenewalsKeep(s: System, e: Event)
    requires Inv(s) && Enabled(s, e) && (e.RenewalReplies? || e.RenewalThrows?)
    ensures Inv(Step(s, e))
  {
    assert CandidateSound(s, e.c);
    WithKeeps(s, e.c, Step(s, e).boots[e.c]);
  }

  lemma SignalsKeep(s: System, e: Event)
    requires Inv(s) && Enabled(s, e)
    requires e.ChildAborted? || e.StopSignal? || e.HandoffDecided? || e.ChildEnds?
    ensures Inv(Step(s, e))
  {
    assert CandidateSound(s, e.c);
    WithKeeps(s, e.c, Step(s, e).boots[e.c]);
  }

  lemma StepKeeps(s: System, e: Event)
    requires Inv(s) && Enabled(s, e)
    ensures Inv(Step(s, e))
  {
    if e.Advance? {
      AdvanceKeeps(s, e);
    } else if e.LateElection? {
      HandledKeeps(s, e.c, e.allowed);
    } else if e.LateRenewal? {
      RenewKeeps(s, e.c, e.epoch);
    } else if e.RenewalHandled? {
      RenewalHandledKeeps(s, e);
    } else if e.LeaseReturned? {
      ReturnKeeps(s, e);
    } else if e.BeginElection? || e.ElectionHandled? || e.ElectionReplies? || e.ElectionFails? {
      ElectionKeeps(s, e);
    } else if e.WatchdogRuns? || e.RenewTimerRuns? {
      TimersKeep(s, e);
    } else if e.RenewalReplies? || e.RenewalThrows? {
      RenewalsKeep(s, e);
    } else {
      SignalsKeep(s, e);
    }
  }

  lemma {:induction false} RunsKeep(s: System, es: seq<Event>)
    requires Inv(s) && Run(s, es)
    ensures Inv(After(s, es))
    decreases |es|
  {
    if es != [] {
      StepKeeps(s, es[0]);
      RunsKeep(Step(s, es[0]), es[1..]);
    }
  }

  // ---------- what every run keeps ----------

  function Max(a: int, b: int): int { if a >= b then a else b }

  /** A deadline only ever moves forward, and only when a renewal the database carried out is answered in time. */
  lemma DeadlineMovesForward(s: System, e: Event, c: Boot)
    requires Inv(s) && Enabled(s, e) && IsHolding(s, c) && IsHolding(Step(s, e), c)
    ensures var before, after := s.boots[c].active, Step(s, e).boots[c].active;
            && before.leaseDeadline <= after.leaseDeadline
            && (before.leaseDeadline != after.leaseDeadline ==>
                  && e == RenewalReplies(c) && s.boots[c].applied == Some(true)
                  && !before.lost && s.now < before.renewal.value.deadline && !RenewalsStopped(before))
  {
    assert CandidateSound(s, c);
  }

  /**
   * In every run: a deadline not resting on a mere confirmation lies within the epoch's database lease, and once
   * another boot was granted the role it had already passed.
   */
  lemma DeadlineWithinLease(s: System, es: seq<Event>, c: Boot)
    requires Initial(s) && Run(s, es)
    requires IsHolding(After(s, es), c) && !After(s, es).boots[c].reaffirmed
    ensures var end := After(s, es);
            var h := end.boots[c];
            if h.epoch == end.row.epoch then end.row.owner == Some(c) && h.active.leaseDeadline <= end.row.until
            else (h.epoch < end.row.epoch == |end.grants| - 1
                  && h.active.leaseDeadline <= end.grants[h.epoch + 1].at <= end.now)
  {
    RunsKeep(s, es);
    assert CandidateSound(After(s, es), c);
  }

  /** A child not told to stop outlives its deadline, or its own late start, by at most one watchdog period. */
  lemma UnabortedPastDeadline(s: System, es: seq<Event>, c: Boot)
    requires Initial(s) && Run(s, es)
    requires IsHolding(After(s, es), c) && After(s, es).boots[c].active.aborted.None?
    ensures var end := After(s, es);
            end.now <= Max(end.boots[c].active.leaseDeadline, end.boots[c].childSince) + WATCHDOG_MS
  {
    RunsKeep(s, es);
    assert CandidateSound(After(s, es), c);
  }

  lemma EpochsDiffer(s: System, c: Boot, d: Boot)
    requires Inv(s) && c != d && IsHolding(s, c) && IsHolding(s, d)
    ensures s.boots[c].epoch != s.boots[d].epoch
  {
    assert CandidateSound(s, c) && CandidateSound(s, d);
  }

  /**
   * Mutual exclusion up to one watchdog period, over every run: when two boots' children run and neither was told to
   * stop, they have overlapped for at most WATCHDOG_MS, provided the older epoch does not rest on a mere
   * confirmation; with one, for at most a lease window more.
   */
  lemma OverlapBounded(s: System, es: seq<Event>, c: Boot, d: Boot)
    requires Initial(s) && Run(s, es) && c != d
    requires IsHolding(After(s, es), c) && After(s, es).boots[c].active.aborted.None?
    requires IsHolding(After(s, es), d) && After(s, es).boots[d].active.aborted.None?
    ensures var end := After(s, es);
            var older := if end.boots[c].epoch < end.boots[d].epoch then end.boots[c] else end.boots[d];
            end.now - Max(end.boots[c].childSince, end.boots[d].childSince) <= WATCHDOG_MS + Slack(older.reaffirmed)
  {
    var end := After(s, es);
    RunsKeep(s, es);
    EpochsDiffer(end, c, d);
    var (older, younger) := if end.boots[c].epoch < end.boots[d].epoch then (c, d) else (d, c);
    assert CandidateSound(end, older) && CandidateSound(end, younger);
    UnabortedPastDeadline(s, es, older);
    assert end.grants[end.boots[older].epoch + 1].at <= end.grants[end.boots[younger].epoch].at;
  }

  // ---------- the confirmation branch ----------

  /**
   * The deadline a candidate computes when its election is answered lies within the lease the database then holds for
   * it, if and only if the grant was new or the lease it confirmed already lasted that long: a confirmation extends
   * nothing.
   */
  lemma GrantCoversDeadlineIff(row: Row, c: Boot, startedAt: int, now: int, allowed: bool)
    requires startedAt <= now && Acquire(row, c, now, allowed).1.Granted?
    ensures Started(startedAt).leaseDeadline <= Acquire(row, c, now, allowed).0.until <==>
            (row.until <= now || row.until >= startedAt + ROLE_LEASE_WINDOW_MS)
  {
  }

  lemma {:induction false} Extend(s: System, es: seq<Event>, e: Event)
    requires Run(s, es) && Enabled(After(s, es), e)
    ensures Run(s, es + [e]) && After(s, es + [e]) == Step(After(s, es), e)
    decreases |es|
  {
    if es != [] {
      assert (es + [e])[0] == es[0] && (es + [e])[1..] == es[1..] + [e];
      Extend(Step(s, es[0]), es[1..], e);
    } else {
      assert [e][1..] == [] && [] + [e] == [e];
    }
  }

  function TwoBoots(now: int, row: Row, grants: seq<Grant>, c: Candidate, d: Candidate): System {
    System(now, row, grants, map[0 := c, 1 := d])
  }

  const NobodyYet := [Grant(None, 0)]
  const Start: System := TwoBoots(0, Row(None, 0, 0), NobodyYet, Idle, Idle)
  const FirstRow: Row := Row(Some(0), 1, 45_000)
  const FirstGrants: seq<Grant> := NobodyYet + [Grant(Some(0), 0)]

  /** The first grant's answer is lost; just before the lease runs out the same boot asks again and is confirmed. */
  lemma ConfirmedLate() returns (es: seq<Event>)
    ensures Run(Start, es)
    ensures After(Start, es) == TwoBoots(44_900, FirstRow, FirstGrants,
                                         Holding(1, 44_900, 44_900, 44_900, true, Started(44_900), None), Idle)
  {
    es := [];
    Extend(Start, es, BeginElection(0)); es := es + [BeginElection(0)];
    Extend(Start, es, ElectionHandled(0, true)); es := es + [ElectionHandled(0, true)];
    Extend(Start, es, ElectionFails(0)); es := es + [ElectionFails(0)];
    assert After(Start, es) == TwoBoots(0, FirstRow, FirstGrants, Idle, Idle);
    Extend(Start, es, Advance(44_900)); es := es + [Advance(44_900)];
    Extend(Start, es, BeginElection(0)); es := es + [BeginElection(0)];
    Extend(Start, es, ElectionHandled(0, true)); es := es + [ElectionHandled(0, true)];
    Extend(Start, es, ElectionReplies(0)); es := es + [ElectionReplies(0)];
  }

  /** The lease runs out, another boot is granted the role, and neither child is told to stop. */
  lemma ConfirmationOverlaps() returns (es: seq<Event>)
    ensures Run(Start, es) && Initial(Start)
    ensures var end := After(Start, es);
            && IsHolding(end, 0) && end.boots[0].active.aborted.None? && end.boots[0].reaffirmed
            && IsHolding(end, 1) && end.boots[1].active.aborted.None? && !end.boots[1].reaffirmed
            && end.now - Max(end.boots[0].childSince, end.boots[1].childSince) == 2 * WATCHDOG_MS
  {
    es := ConfirmedLate();
    Extend(Start, es, Advance(45_000)); es := es + [Advance(45_000)];
    Extend(Start, es, WatchdogRuns(0)); es := es + [WatchdogRuns(0)];
    Extend(Start, es, BeginElection(1)); es := es + [BeginElection(1)];
    Extend(Start, es, ElectionHandled(1, true)); es := es + [ElectionHandled(1, true)];
    Extend(Start, es, ElectionReplies(1)); es := es + [ElectionReplies(1)];
    var second := Row(Some(1), 2, 90_000);
    assert After(Start, es) == TwoBoots(45_000, second, FirstGrants + [Grant(Some(1), 45_000)],
                                        Holding(1, 44_900, 44_900, 45_000, true, Started(44_900), None),
                                        Holding(2, 45_000, 45_000, 45_000, false, Started(45_000), None));
    Extend(Start, es, Advance(45_250)); es := es + [Advance(45_250)];
    Extend(Start, es, WatchdogRuns(0)); es := es + [WatchdogRuns(0)];
    Extend(Start, es, WatchdogRuns(1)); es := es + [WatchdogRuns(1)];
    Extend(Start, es, Advance(45_500)); es := es + [Advance(45_500)];
  }
}
