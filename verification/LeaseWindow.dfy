/**
 * One active lease of a role candidate: the deadlines, the watchdog, the renewals and the ways its child is told to
 * stop (the timers inside runRoleCandidate, scripts/role-worker.ts). Times are integer milliseconds.
 */
module LeaseWindow {
  import opened Basics

  const ROLE_LEASE_WINDOW_MS: int := 45_000
  const ROLE_RENEW_DEADLINE_MS: int := 10_000
  const WATCHDOG_MS: int := 250

  datatype Reason = ShutdownRequested | RoleLeaseLost | ProgressStalled | AdmissionBlocked | PrimaryHandoff

  /** A renewal call that has not settled: when it was started and when it counts as hung. */
  datatype Renewal = Renewal(startedAt: int, deadline: int)

  /**
   * How the renewal call settles: the database's yes or no, or an error that does or does not mean the connection is
   * down.
   */
  datatype Outcome = Replied(ok: bool) | Threw(down: bool)

  datatype Active = Active(leaseDeadline: int, renewal: Option<Renewal>, lost: bool, ended: bool,
                           aborted: Option<Reason>, forced: bool, handoffRelease: bool, stopSignal: bool)

  function Started(acquiredAt: int): Active {
    Active(acquiredAt + ROLE_LEASE_WINDOW_MS, None, false, false, None, false, false, false)
  }

  function Min(a: int, b: int): int { if a <= b then a else b }

  function AbortActive(a: Active, reason: Reason): Active {
    if a.aborted.Some? then a else a.(aborted := Some(reason))
  }

  /** Losing the lease forces the child to stop, whatever it was doing. */
  function Forfeited(a: Active): Active {
    AbortActive(a.(lost := true, forced := true), RoleLeaseLost)
  }

  function Lose(a: Active): Active {
    if a.lost || a.ended then a else Forfeited(a)
  }

  function OnStop(a: Active): Active {
    AbortActive(a.(stopSignal := true, forced := a.forced || a.aborted.Some?), ShutdownRequested)
  }

  function HandOff(a: Active): Active {
    if a.lost || a.handoffRelease || a.aborted.Some? || a.ended then a
    else AbortActive(a.(handoffRelease := true), PrimaryHandoff)
  }

  /** Renewing stops with the drain, except while a voluntary handoff drains. */
  predicate RenewalsStopped(a: Active) {
    a.aborted.Some? && !(a.handoffRelease && !a.stopSignal)
  }

  function Watchdog(a: Active, now: int): Active {
    if now >= a.leaseDeadline then Lose(a)
    else if a.renewal.Some? && now >= a.renewal.value.deadline then Lose(a)
    else a
  }

  function RenewTick(a: Active, now: int): Active {
    if a.renewal.Some? || a.lost || a.ended || RenewalsStopped(a) then a
    else if now >= a.leaseDeadline then Lose(a)
    else a.(renewal := Some(Renewal(now, Min(a.leaseDeadline, now + ROLE_RENEW_DEADLINE_MS))))
  }

  /** The renewal call settles. Only a yes that came in time moves the deadline. */
  function RenewSettled(a: Active, now: int, outcome: Outcome): Active
    requires a.renewal.Some?
  {
    var settled := a.(renewal := None);
    if a.ended || a.lost || RenewalsStopped(a) then settled
    else match outcome
      case Replied(ok) =>
        if now >= a.renewal.value.deadline then Lose(settled)
        else if ok then settled.(leaseDeadline := a.renewal.value.startedAt + ROLE_LEASE_WINDOW_MS)
        else Forfeited(settled)
      case Threw(down) => if down then settled else Forfeited(settled)
  }

  /** The variables of one active lease, updated by its timers. */
  class ActiveLease {
    var leaseDeadline: int
    var renewal: Option<Renewal>
    var lost: bool
    var ended: bool
    var aborted: Option<Reason>
    var forced: bool
    var handoffRelease: bool
    var stopSignal: bool

    function Model(): Active
      reads this
    {
      Active(leaseDeadline, renewal, lost, ended, aborted, forced, handoffRelease, stopSignal)
    }

    constructor (acquiredAt: int)
      ensures Model() == Started(acquiredAt)
    {
      leaseDeadline := acquiredAt + ROLE_LEASE_WINDOW_MS;
      renewal := None;
      lost, ended, forced, handoffRelease, stopSignal := false, false, false, false, false;
      aborted := None;
    }

    method AbortWith(reason: Reason)
      modifies this`aborted
      ensures Model() == AbortActive(old(Model()), reason)
    {
      if aborted.None? {
        aborted := Some(reason);
      }
    }

    method LoseLease()
      modifies this`lost, this`forced, this`aborted
      ensures Model() == Lose(old(Model()))
    {
      if lost || ended {
        return;
      }
      lost := true;
      forced := true;
      AbortWith(RoleLeaseLost);
    }

    method Stop()
      modifies this`stopSignal, this`forced, this`aborted
      ensures Model() == OnStop(old(Model()))
    {
      stopSignal := true;
      if aborted.Some? {
        forced := true;
      }
      AbortWith(ShutdownRequested);
    }

    method HandOffToPrimary()
      modifies this`handoffRelease, this`aborted
      ensures Model() == HandOff(old(Model()))
    {
      if lost || handoffRelease || aborted.Some? || ended {
        return;
      }
      handoffRelease := true;
      AbortWith(PrimaryHandoff);
    }

    method WatchdogTimer(now: int)
      modifies this`lost, this`forced, this`aborted
      ensures Model() == Watchdog(old(Model()), now)
    {
      if now >= leaseDeadline {
        LoseLease();
      } else if renewal.Some? && now >= renewal.value.deadline {
        LoseLease();
      }
    }

    method RenewTimer(now: int) returns (calls: bool)
      modifies this`renewal, this`lost, this`forced, this`aborted
      ensures Model() == RenewTick(old(Model()), now)
      // It calls exactly when no call is under way, nothing ended the lease, and its deadline has not passed.
      ensures calls <==> old(renewal).None? && !old(lost) && !ended && now < leaseDeadline
                         && (old(aborted).None? || (handoffRelease && !stopSignal))
      ensures calls ==> renewal == Some(Renewal(now, Min(leaseDeadline, now + ROLE_RENEW_DEADLINE_MS)))
      ensures !calls ==> renewal == old(renewal)
    {
      calls := false;
      if renewal.Some? || lost || ended || (aborted.Some? && !(handoffRelease && !stopSignal)) {
        return;
      }
      if now >= leaseDeadline {
        LoseLease();
        return;
      }
      renewal := Some(Renewal(now, Min(leaseDeadline, now + ROLE_RENEW_DEADLINE_MS)));
      calls := true;
    }

    method SettleRenewal(now: int, outcome: Outcome)
      requires renewal.Some?
      modifies this`renewal, this`leaseDeadline, this`lost, this`forced, this`aborted
      ensures Model() == RenewSettled(old(Model()), now, outcome)
    {
      var call := renewal.value;
      renewal := None;
      if ended || lost || (aborted.Some? && !(handoffRelease && !stopSignal)) {
        return;
      }
      match outcome {
        case Replied(ok) =>
          if now >= call.deadline {
            LoseLease();
          } else if ok {
            leaseDeadline := call.startedAt + ROLE_LEASE_WINDOW_MS;
          } else {
            lost := true;
            forced := true;
            AbortWith(RoleLeaseLost);
          }
        case Threw(down) =>
          if !down {
            lost := true;
            forced := true;
            AbortWith(RoleLeaseLost);
          }
      }
    }
  }
}
