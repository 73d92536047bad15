/**
 * How a supervised child is stopped: requests, escalations, the drain timer and the final kill (superviseWorker,
 * scripts/worker-supervisor.ts). Times are integer milliseconds; a timer fires when it is due.
 */
module Supervisor {
  import opened Basics

  const DECLARED_BUDGET_MARGIN_MS: nat := 45_000
  const DECLARED_BUDGET_MAX_MS: nat := 3_600_000

  datatype StopReason = Shutdown | LeaseLost | Stalled | Admission | Handoff | WriteFailed | ChildStalled

  datatype Limits = Limits(jobMs: nat, drainMs: nat, mayHandOff: bool)

  /** A lane as its heartbeat reports it: the budget it declared for the tick it runs, if any. */
  type Lane = Option<nat>

  function LaneDrainMs(lane: Lane): nat {
    (if lane.None? then 0 else if lane.value <= DECLARED_BUDGET_MAX_MS then lane.value else DECLARED_BUDGET_MAX_MS)
    + DECLARED_BUDGET_MARGIN_MS
  }

  function LongestLane(lanes: seq<Lane>): nat {
    if lanes == [] then 0
    else
      var rest, last := LongestLane(lanes[..|lanes| - 1]), LaneDrainMs(lanes[|lanes| - 1]);
      if last >= rest then last else rest
  }

  lemma {:induction false} LongestCovers(lanes: seq<Lane>, i: nat)
    requires i < |lanes|
    ensures LaneDrainMs(lanes[i]) <= LongestLane(lanes)
  {
    if i < |lanes| - 1 {
      LongestCovers(lanes[..|lanes| - 1], i);
    }
  }

  lemma {:induction false} LongestIsOneOf(lanes: seq<Lane>) returns (i: nat)
    requires lanes != []
    ensures i < |lanes| && LongestLane(lanes) == LaneDrainMs(lanes[i])
  {
    i := |lanes| - 1;
    if |lanes| > 1 && LongestLane(lanes[..i]) > LaneDrainMs(lanes[i]) {
      i := LongestIsOneOf(lanes[..i]);
    }
  }

  /** `primaryHandoffDrainMs`. */
  function PrimaryHandoffDrainMs(limits: Limits, lanes: seq<Lane>): nat {
    var longest := LongestLane(lanes);
    (if longest > limits.jobMs then longest else limits.jobMs) + limits.drainMs
  }

  /** A wait covers what a lane declared, at most an hour, and 45 seconds more; without a declaration just those. */
  predicate Covers(wait: int, lane: Lane) {
    wait >= 45_000 && (lane.Some? ==> wait >= lane.value + 45_000 || wait >= 3_645_000)
  }

  predicate Suffices(limits: Limits, lanes: seq<Lane>, wait: int) {
    wait >= limits.jobMs && forall lane :: lane in lanes ==> Covers(wait, lane)
  }

  /** It is the least wait that covers the job limit and every tick in flight, plus the usual drain. */
  lemma HandoffDrainCovers(limits: Limits, lanes: seq<Lane>)
    ensures var wait := PrimaryHandoffDrainMs(limits, lanes) - limits.drainMs;
            Suffices(limits, lanes, wait) && forall less :: Suffices(limits, lanes, less) ==> wait <= less
  {
    LanesCovered(limits, lanes);
    var wait := PrimaryHandoffDrainMs(limits, lanes) - limits.drainMs;
    forall less | Suffices(limits, lanes, less) ensures wait <= less {
      if lane :| lane in lanes && wait == LaneDrainMs(lane) {
        assert Covers(less, lane);
      }
    }
  }

  lemma LanesCovered(limits: Limits, lanes: seq<Lane>)
    ensures var drain := PrimaryHandoffDrainMs(limits, lanes);
            && drain >= limits.jobMs + limits.drainMs
            && (forall lane :: lane in lanes ==> drain >= LaneDrainMs(lane) + limits.drainMs)
            && (drain == limits.jobMs + limits.drainMs
                || exists lane :: lane in lanes && drain == LaneDrainMs(lane) + limits.drainMs)
  {
    forall lane | lane in lanes ensures PrimaryHandoffDrainMs(limits, lanes) >= LaneDrainMs(lane) + limits.drainMs {
      var i :| 0 <= i < |lanes| && lanes[i] == lane;
      LongestCovers(lanes, i);
    }
    if LongestLane(lanes) > limits.jobMs {
      var i := LongestIsOneOf(lanes);
      assert lanes[i] in lanes;
    }
  }

  datatype Status = Starting | Running | Stopping | Failed

  /**
   * The supervisor's variables. `stopAt`, `allowance` and `rearmed` only record the first accepted stop, the drain it
   * was given, and how often the timer was set again; `killedAt` is the first kill of the group.
   */
  datatype State = State(
    now: int, stopping: bool, finishing: bool, requested: bool, exitCode: int, reason: Option<StopReason>,
    status: Status,
    lanes: seq<Lane>, everHeartbeat: bool, timer: Option<int>, forceUsed: bool,
    killedAt: Option<int>, stopAt: int, allowance: nat, rearmed: nat)

  function Begin(now: int): State {
    State(now, false, false, false, 1, None, Starting, [], false, None, false, None, 0, 0, 0)
  }

  /** `stop`: ignored once finishing, and once stopping unless forced. */
  function Stop(limits: Limits, s: State, reason: StopReason, requested: bool, force: bool): State {
    if s.finishing || (s.stopping && !force) then s
    else
      var handoff := reason == Handoff && limits.mayHandOff && !force;
      var drain := if handoff then PrimaryHandoffDrainMs(limits, s.lanes) else limits.drainMs;
      s.(stopping := true, requested := requested, exitCode := if requested then 0 else 1, reason := Some(reason),
         status := Stopping, timer := Some(s.now + drain),
         stopAt := if s.stopping then s.stopAt else s.now,
         allowance := if s.stopping then s.allowance else drain,
         rearmed := if s.stopping then s.rearmed + 1 else 0)
  }

  datatype Event =
    | Advance(to: int)
    | Signal
    | Abort(reason: Option<StopReason>)
    | ForceAbort(reason: Option<StopReason>)
    | Monitor(stalled: bool, writeFails: bool)
    | Heartbeat(lanes: Option<seq<Lane>>, writeFails: bool)
    | DrainDeliveryFails
    | TimerFires
    | ChildExits(code: Option<int>, once: bool)

  function ForceReason(reason: Option<StopReason>): StopReason {
    if reason.Some? then reason.value else LeaseLost
  }

  predicate Enabled(s: State, e: Event) {
    match e
    case Advance(to) => s.now <= to && (s.timer.Some? ==> to <= s.timer.value)
    case ForceAbort(_) => !s.forceUsed
    case TimerFires => s.timer.Some? && s.timer.value <= s.now
    case DrainDeliveryFails => s.stopping && !s.finishing
    case ChildExits(_, _) => !s.finishing
    case _ => true
  }

  function Published(limits: Limits, s: State, writeFails: bool): State {
    if writeFails then Stop(limits, s, WriteFailed, false, false) else s
  }

  /** A heartbeat never turns a stopping child back into a running one. */
  function Heard(s: State, lanes: Option<seq<Lane>>): State {
    s.(everHeartbeat := true, lanes := if lanes.Some? then lanes.value else s.lanes,
       status := if s.stopping then Stopping else Running)
  }

  /** `childExitCode`. */
  function ChildExitCode(s: State, code: Option<int>, once: bool): int {
    if !s.stopping then (if once && code == Some(0) then 0 else 1)
    else if s.exitCode != 0 then s.exitCode
    else if code == Some(0) || (s.requested && !s.everHeartbeat) then 0
    else 1
  }

  function Step(limits: Limits, s: State, e: Event): State
    requires Enabled(s, e)
  {
    match e
    case Advance(to) => s.(now := to)
    case Signal => Stop(limits, s, Shutdown, true, s.stopping && s.reason == Some(Handoff))
    case Abort(reason) => Stop(limits, s, ForceReason(reason), true, false)
    case ForceAbort(reason) =>
      Stop(limits, s, ForceReason(reason), ForceReason(reason) == Shutdown, true).(forceUsed := true)
    case Monitor(stalled, writeFails) =>
      Published(limits, if stalled && !s.stopping then Stop(limits, s, ChildStalled, false, false) else s, writeFails)
    case Heartbeat(lanes, writeFails) => Published(limits, Heard(s, lanes), writeFails)
    case DrainDeliveryFails => s.(exitCode := 1)
    case TimerFires =>
      s.(timer := None, exitCode := 1, killedAt := if s.killedAt.None? then Some(s.now) else s.killedAt)
    case ChildExits(code, once) =>
      var final := ChildExitCode(s, code, once);
      s.(finishing := true, exitCode := final, timer := None, status := if final == 0 then Stopping else Failed)
  }

  predicate Run(limits: Limits, s: State, es: seq<Event>)
    decreases |es|
  {
    es == [] || (Enabled(s, es[0]) && Run(limits, Step(limits, s, es[0]), es[1..]))
  }

  function After(limits: Limits, s: State, es: seq<Event>): State
    requires Run(limits, s, es)
    decreases |es|
  {
    if es == [] then s else After(limits, Step(limits, s, es[0]), es[1..])
  }

  /** The supervisor's closure, updated in place. */
  class Supervision {
    const limits: Limits
    var stopping: bool
    var finishing: bool
    var requestedStop: bool
    var exitCode: int
    var reason: Option<StopReason>
    var status: Status
    var lanes: seq<Lane>
    var everHeartbeat: bool
    var drainTimer: Option<int>

    /** The variables the source has, as part of a state. */
    predicate Shows(s: State)
      reads this
    {
      && s.stopping == stopping && s.finishing == finishing && s.requested == requestedStop && s.exitCode == exitCode
      && s.reason == reason && s.status == status && s.lanes == lanes && s.everHeartbeat == everHeartbeat
          && s.timer == drainTimer
    }

    method StopChild(why: StopReason, requested: bool, force: bool, now: int, ghost s: State)
      requires Shows(s) && s.now == now
      modifies this
      ensures Shows(Stop(limits, s, why, requested, force))
    {
      ghost var next := Stop(limits, s, why, requested, force);
      if finishing || (stopping && !force) {
        return;
      }
      stopping := true;
      requestedStop := requested;
      exitCode := if requested then 0 else 1;
      status := Stopping;
      reason := Some(why);
      var handoff := why == Handoff && limits.mayHandOff && !force;
      var drainMs := if handoff then PrimaryHandoffDrainMs(limits, lanes) else limits.drainMs;
      drainTimer := Some(now + drainMs);
      assert next.timer == drainTimer && next.reason == reason && next.lanes == lanes;
    }

    method OnSignal(now: int, ghost s: State)
      requires Shows(s) && s.now == now
      modifies this
      ensures Shows(Step(limits, s, Signal))
    {
      StopChild(Shutdown, true, stopping && reason == Some(Handoff), now, s);
    }

    method OnForceAbort(why: Option<StopReason>, now: int, ghost s: State)
      requires Shows(s) && s.now == now && !s.forceUsed
      modifies this
      ensures Shows(Step(limits, s, ForceAbort(why)))
    {
      StopChild(ForceReason(why), ForceReason(why) == Shutdown, true, now, s);
    }

    method OnAbort(why: Option<StopReason>, now: int, ghost s: State)
      requires Shows(s) && s.now == now
      modifies this
      ensures Shows(Step(limits, s, Abort(why)))
    {
      StopChild(ForceReason(why), true, false, now, s);
    }

    method OnHeartbeat(reported: Option<seq<Lane>>, writeFails: bool, now: int, ghost s: State)
      requires Shows(s) && s.now == now
      modifies this
      ensures Shows(Step(limits, s, Heartbeat(reported, writeFails)))
    {
      everHeartbeat := true;
      if reported.Some? {
        lanes := reported.value;
      }
      status := if stopping then Stopping else Running;
      if writeFails {
        StopChild(WriteFailed, false, false, now, Heard(s, reported));
      }
    }

    method OnMonitor(stalled: bool, writeFails: bool, now: int, ghost s: State)
      requires Shows(s) && s.now == now
      modifies this
      ensures Shows(Step(limits, s, Monitor(stalled, writeFails)))
    {
      ghost var t := s;
      if stalled && !stopping {
        StopChild(ChildStalled, false, false, now, s);
        t := Stop(limits, s, ChildStalled, false, false);
      }
      if writeFails {
        StopChild(WriteFailed, false, false, now, t);
      }
    }

    method OnDrainTimeout(ghost s: State)
      requires Shows(s) && Enabled(s, TimerFires)
      modifies this
      ensures Shows(Step(limits, s, TimerFires))
    {
      drainTimer := None;
      exitCode := 1;
    }

    method OnChildExit(code: Option<int>, once: bool, ghost s: State)
      requires Shows(s) && !finishing
      modifies this
      ensures Shows(Step(limits, s, ChildExits(code, once)))
    {
      if !stopping {
        exitCode := if once && code == Some(0) then 0 else 1;
      } else if exitCode == 0 && code != Some(0) && !(requestedStop && !everHeartbeat) {
        exitCode := 1;
      }
      finishing := true;
      drainTimer := None;
      status := if exitCode == 0 then Stopping else Failed;
    }
  }

  // ---------- what the events of a run say ----------

  /** The state before event `i`. */
  function Before(limits: Limits, s: State, es: seq<Event>, i: nat): State
    requires Run(limits, s, es) && i <= |es|
    decreases i
  {
    if i == 0 then s else Before(limits, Step(limits, s, es[0]), es[1..], i - 1)
  }

  /** The event makes `stop` take effect: a first stop, or a forced one while draining. */
  predicate Accepts(s: State, e: Event) {
    && !s.finishing
    && match e
       case Signal => s.stopping ==> s.reason == Some(Handoff)
       case Abort(_) => !s.stopping
       case ForceAbort(_) => true
       case Monitor(stalled, writeFails) => !s.stopping && (stalled || writeFails)
       case Heartbeat(_, writeFails) => !s.stopping && writeFails
       case _ => false
  }

  /** Somebody asked for this stop: a signal, an abort, or a forced abort for a shutdown. */
  predicate AsksToStop(e: Event) {
    e.Signal? || e.Abort? || (e.ForceAbort? && ForceReason(e.reason) == Shutdown)
  }

  /** The drain ran out, or its order could not be delivered. */
  predicate NotesFailure(e: Event) {
    e.TimerFires? || e.DrainDeliveryFails?
  }

  predicate StopsAt(limits: Limits, s: State, es: seq<Event>, i: nat)
    requires Run(limits, s, es) && i < |es|
  {
    Accepts(Before(limits, s, es, i), es[i])
  }

  /** The first stop that takes effect. */
  predicate FirstStop(limits: Limits, s: State, es: seq<Event>, i: nat)
    requires Run(limits, s, es)
  {
    i < |es| && StopsAt(limits, s, es, i) && forall j :: 0 <= j < i ==> !StopsAt(limits, s, es, j)
  }

  /** The last stop that takes effect before event `k`. */
  predicate LastStop(limits: Limits, s: State, es: seq<Event>, i: nat, k: nat)
    requires Run(limits, s, es)
  {
    i < k <= |es| && StopsAt(limits, s, es, i) && forall j :: i < j < k ==> !StopsAt(limits, s, es, j)
  }

  /** The lanes the last heartbeat that named any has told. */
  function LanesHeard(es: seq<Event>): seq<Lane> {
    if es == [] then []
    else
      var last := es[|es| - 1];
      if last.Heartbeat? && last.lanes.Some? then last.lanes.value else LanesHeard(es[..|es| - 1])
  }

  /** A voluntary handoff, by a supervisor that may, waits for the lanes; every other stop has the usual drain. */
  function DrainFor(limits: Limits, lanes: seq<Lane>, e: Event): nat {
    if e.Abort? && ForceReason(e.reason) == Handoff && limits.mayHandOff then PrimaryHandoffDrainMs(limits, lanes)
    else limits.drainMs
  }

  /** So many drains after the drain of the stop at event `i` has run out. */
  function DueBy(limits: Limits, now: int, es: seq<Event>, i: nat, rearms: nat): int
    requires Run(limits, Begin(now), es) && i < |es|
  {
    Before(limits, Begin(now), es, i).now + DrainFor(limits, LanesHeard(es[..i]), es[i]) + rearms * limits.drainMs
  }

  function ReasonOf(e: Event): StopReason {
    match e
    case Abort(reason) => ForceReason(reason)
    case ForceAbort(reason) => ForceReason(reason)
    case Monitor(stalled, _) => if stalled then ChildStalled else WriteFailed
    case Heartbeat(_, _) => WriteFailed
    case _ => Shutdown
  }

  lemma {:induction false} BeforeNext(limits: Limits, s: State, es: seq<Event>, i: nat)
    requires Run(limits, s, es) && i < |es|
    ensures Enabled(Before(limits, s, es, i), es[i])
    ensures Before(limits, s, es, i + 1) == Step(limits, Before(limits, s, es, i), es[i])
    decreases i
  {
    if i > 0 {
      BeforeNext(limits, Step(limits, s, es[0]), es[1..], i - 1);
    }
  }

  lemma {:induction false} BeforeEnd(limits: Limits, s: State, es: seq<Event>)
    requires Run(limits, s, es)
    ensures Before(limits, s, es, |es|) == After(limits, s, es)
    decreases |es|
  {
    if es != [] {
      BeforeEnd(limits, Step(limits, s, es[0]), es[1..]);
    }
  }

  lemma {:induction false} LanesBefore(limits: Limits, now: int, es: seq<Event>, k: nat)
    requires Run(limits, Begin(now), es) && k <= |es|
    ensures Before(limits, Begin(now), es, k).lanes == LanesHeard(es[..k])
  {
    if k > 0 {
      LanesBefore(limits, now, es, k - 1);
      BeforeNext(limits, Begin(now), es, k - 1);
      assert es[..k][..k - 1] == es[..k - 1];
    }
  }

  /** What an accepted stop does to the reason, the request and the timer. */
  lemma AcceptedStop(limits: Limits, s: State, e: Event)
    requires Enabled(s, e) && Accepts(s, e)
    ensures var t := Step(limits, s, e);
            && t.stopping && !t.finishing && t.reason == Some(ReasonOf(e)) && t.requested == AsksToStop(e)
            && t.timer == Some(s.now + DrainFor(limits, s.lanes, e)) && t.now == s.now
  {
  }

  /** Any other step leaves them as they are, except that the timer stops when it fires or the child ends. */
  lemma NoStop(limits: Limits, s: State, e: Event)
    requires Enabled(s, e) && !Accepts(s, e)
    ensures var t := Step(limits, s, e);
            && t.stopping == s.stopping && t.reason == s.reason && t.requested == s.requested
            && t.timer == (if e.TimerFires? || e.ChildExits? then None else s.timer)
            && t.now == (if e.Advance? then e.to else s.now)
  {
  }

  /**
   * Once stopping, the reason and the request are those of the last accepted stop, and the timer, until it fires or the
   * child ends, stands at that stop's own drain from its own moment.
   */
  lemma {:induction false} LastStopTells(limits: Limits, now: int, es: seq<Event>, k: nat) returns (i: nat)
    requires Run(limits, Begin(now), es) && k <= |es| && Before(limits, Begin(now), es, k).stopping
    ensures LastStop(limits, Begin(now), es, i, k)
    ensures var s := Before(limits, Begin(now), es, k);
            && s.reason == Some(ReasonOf(es[i])) && s.requested == AsksToStop(es[i])
            && (s.timer.Some? <==> forall j :: i < j < k ==> !es[j].TimerFires? && !es[j].ChildExits?)
            && (s.timer.Some? ==>
                  && s.timer.value == DueBy(limits, now, es, i, 0)
                  && s.now <= s.timer.value)
  {
    var was := Before(limits, Begin(now), es, k - 1);
    BeforeNext(limits, Begin(now), es, k - 1);
    if Accepts(was, es[k - 1]) {
      i := k - 1;
      AcceptedStop(limits, was, es[i]);
      LanesBefore(limits, now, es, i);
    } else {
      NoStop(limits, was, es[k - 1]);
      i := LastStopTells(limits, now, es, k - 1);
    }
  }

  /** Every kill comes exactly when the last accepted stop's own drain has run out. */
  lemma KillWaitsForDrain(limits: Limits, now: int, es: seq<Event>, k: nat) returns (i: nat)
    requires Run(limits, Begin(now), es) && k < |es| && es[k].TimerFires?
    ensures LastStop(limits, Begin(now), es, i, k)
    ensures Before(limits, Begin(now), es, k).now == DueBy(limits, now, es, i, 0)
  {
    BeforeNext(limits, Begin(now), es, k);
    TimerOnlyWhileStopping(limits, now, es, k);
    i := LastStopTells(limits, now, es, k);
  }

  lemma {:induction false} TimerOnlyWhileStopping(limits: Limits, now: int, es: seq<Event>, k: nat)
    requires Run(limits, Begin(now), es) && k <= |es|
    ensures Before(limits, Begin(now), es, k).timer.Some? ==> Before(limits, Begin(now), es, k).stopping
  {
    if k > 0 {
      TimerOnlyWhileStopping(limits, now, es, k - 1);
      BeforeNext(limits, Begin(now), es, k - 1);
      var was := Before(limits, Begin(now), es, k - 1);
      if Accepts(was, es[k - 1]) {
        AcceptedStop(limits, was, es[k - 1]);
      } else {
        NoStop(limits, was, es[k - 1]);
      }
    }
  }

  // ---------- how long a stop can take ----------

  /** How many times the timer can still be set again. */
  function RearmsLeft(s: State, forceReason: StopReason): nat {
    (if s.forceUsed then 0 else if forceReason == Handoff then 2 else 1) + (if s.reason == Some(Handoff) then 1 else 0)
  }

  function MostRearms(forceReason: StopReason): nat {
    if forceReason == Handoff then 3 else 2
  }

  function Deadline(limits: Limits, s: State, rearms: nat): int {
    s.stopAt + s.allowance + rearms * limits.drainMs
  }

  predicate Inv(limits: Limits, s: State, forceReason: StopReason) {
    && (!s.stopping ==> s.timer.None? && s.killedAt.None? && s.reason.None?)
    && (s.finishing ==> s.timer.None?)
    && (s.stopping ==>
          && s.status != Running && s.status != Starting
          && s.rearmed + RearmsLeft(s, forceReason) <= MostRearms(forceReason)
          && (s.killedAt.Some? ==> s.killedAt.value <= Deadline(limits, s, s.rearmed))
          && (s.killedAt.None? && !s.finishing ==>
                s.timer.Some? && s.now <= s.timer.value <= Deadline(limits, s, s.rearmed)))
  }

  /** Events whose forced aborts, if any, carry the given reason. */
  predicate Uses(e: Event, forceReason: StopReason) {
    e.ForceAbort? ==> ForceReason(e.reason) == forceReason
  }

  predicate AllUse(es: seq<Event>, forceReason: StopReason) {
    forall e :: e in es ==> Uses(e, forceReason)
  }

  lemma DeadlineGrows(limits: Limits, s: State, n: nat, m: nat)
    requires n <= m
    ensures Deadline(limits, s, n) <= Deadline(limits, s, m)
    ensures Deadline(limits, s, n + 1) == Deadline(limits, s, n) + limits.drainMs
  {
    assert m * limits.drainMs - n * limits.drainMs == (m - n) * limits.drainMs;
  }

  lemma StopKeeps(limits: Limits, s: State, reason: StopReason, requested: bool, force: bool, forceReason: StopReason)
    requires Inv(limits, s, forceReason)
    requires s.stopping && force ==> reason != Handoff && s.reason == Some(Handoff)
    ensures Inv(limits, Stop(limits, s, reason, requested, force), forceReason)
  {
    DeadlineGrows(limits, s, s.rearmed, s.rearmed + 1);
  }

  lemma ForceKeeps(limits: Limits, s: State, e: Event, forceReason: StopReason)
    requires Inv(limits, s, forceReason) && Enabled(s, e) && e.ForceAbort? && Uses(e, forceReason)
    ensures Inv(limits, Step(limits, s, e), forceReason)
  {
    DeadlineGrows(limits, s, s.rearmed, s.rearmed + 1);
  }

  lemma StepKeeps(limits: Limits, s: State, e: Event, forceReason: StopReason)
    requires Inv(limits, s, forceReason) && Enabled(s, e) && Uses(e, forceReason)
    ensures Inv(limits, Step(limits, s, e), forceReason)
  {
    match e
    case Signal => StopKeeps(limits, s, Shutdown, true, s.stopping && s.reason == Some(Handoff), forceReason);
    case Abort(reason) => StopKeeps(limits, s, ForceReason(reason), true, false, forceReason);
    case ForceAbort(_) => ForceKeeps(limits, s, e, forceReason);
    case Monitor(stalled, writeFails) =>
      StopKeeps(limits, s, ChildStalled, false, false, forceReason);
      StopKeeps(limits, Stop(limits, s, ChildStalled, false, false), WriteFailed, false, false, forceReason);
      StopKeeps(limits, s, WriteFailed, false, false, forceReason);
    case Heartbeat(lanes, writeFails) =>
      StopKeeps(limits, Heard(s, lanes), WriteFailed, false, false, forceReason);
    case _ =>
  }

  /** What the recorded first stop, its allowance and the first kill are, by the events. */
  lemma {:induction false} FirstStopTells(limits: Limits, now: int, es: seq<Event>, i: nat, k: nat)
    requires Run(limits, Begin(now), es) && FirstStop(limits, Begin(now), es, i) && k <= |es|
    ensures var s := Before(limits, Begin(now), es, k);
            && (s.stopping <==> i < k)
            && (i < k ==>
                  && s.stopAt == Before(limits, Begin(now), es, i).now
                  && s.allowance == DrainFor(limits, LanesHeard(es[..i]), es[i]))
            && (NotGone(es, k) ==> s.killedAt.None? && !s.finishing)
  {
    if k > 0 {
      FirstStopTells(limits, now, es, i, k - 1);
      BeforeNext(limits, Begin(now), es, k - 1);
      LanesBefore(limits, now, es, k - 1);
      assert k - 1 < i ==> !StopsAt(limits, Begin(now), es, k - 1);
      assert StopsAt(limits, Begin(now), es, i);
      Recorded(limits, Before(limits, Begin(now), es, k - 1), es[k - 1]);
    }
  }

  /** What a step records of the first stop and of the kill. */
  lemma Recorded(limits: Limits, s: State, e: Event)
    requires Enabled(s, e)
    ensures var t := Step(limits, s, e);
            && (s.stopping ==> t.stopping && t.stopAt == s.stopAt && t.allowance == s.allowance)
            && (!s.stopping ==> (t.stopping <==> Accepts(s, e)))
            && (!s.stopping && Accepts(s, e) ==> t.stopAt == s.now && t.allowance == DrainFor(limits, s.lanes, e))
            && (!e.TimerFires? ==> t.killedAt == s.killedAt)
            && (!e.ChildExits? ==> t.finishing == s.finishing)
  {
  }

  /** The group was not killed, nor did the child end, before event `k`. */
  predicate NotGone(es: seq<Event>, k: nat) {
    k <= |es| && forall j :: 0 <= j < k ==> !es[j].TimerFires? && !es[j].ChildExits?
  }

  /** While the group is not gone, the clock has not passed so many drains after the first accepted stop's own. */
  ghost predicate GoneBy(limits: Limits, now: int, es: seq<Event>, rearms: nat)
    requires Run(limits, Begin(now), es)
  {
    forall i: nat, k: nat :: FirstStop(limits, Begin(now), es, i) && i < k <= |es| && NotGone(es, k) ==>
        Before(limits, Begin(now), es, k).now <= DueBy(limits, now, es, i, rearms)
  }

  /** In every run the group is killed within the first stop's own drain plus two, at most three, usual ones. */
  lemma StopIsBounded(limits: Limits, now: int, es: seq<Event>, forceReason: StopReason)
    requires Run(limits, Begin(now), es) && AllUse(es, forceReason)
    ensures GoneBy(limits, now, es, MostRearms(forceReason))
  {
    forall i: nat, k: nat | FirstStop(limits, Begin(now), es, i) && i < k <= |es| && NotGone(es, k)
      ensures Before(limits, Begin(now), es, k).now <= DueBy(limits, now, es, i, MostRearms(forceReason))
    {
      InvBefore(limits, now, es, forceReason, k);
      FirstStopTells(limits, now, es, i, k);
      var s := Before(limits, Begin(now), es, k);
      DeadlineGrows(limits, s, s.rearmed, MostRearms(forceReason));
    }
  }

  lemma {:induction false} InvBefore(limits: Limits, now: int, es: seq<Event>, forceReason: StopReason, k: nat)
    requires Run(limits, Begin(now), es) && AllUse(es, forceReason) && k <= |es|
    ensures Inv(limits, Before(limits, Begin(now), es, k), forceReason)
  {
    if k > 0 {
      InvBefore(limits, now, es, forceReason, k - 1);
      BeforeNext(limits, Begin(now), es, k - 1);
      assert es[k - 1] in es;
      StepKeeps(limits, Before(limits, Begin(now), es, k - 1), es[k - 1], forceReason);
    }
  }

  /** After an accepted stop no state of the run shows the child as running or starting. */
  lemma {:induction false} StopSticks(limits: Limits, now: int, es: seq<Event>, i: nat, k: nat)
    requires Run(limits, Begin(now), es) && i < k <= |es| && StopsAt(limits, Begin(now), es, i)
    ensures var s := Before(limits, Begin(now), es, k); s.stopping && (s.status == Stopping || s.status == Failed)
  {
    BeforeNext(limits, Begin(now), es, k - 1);
    var was := Before(limits, Begin(now), es, k - 1);
    if k - 1 > i {
      StopSticks(limits, now, es, i, k - 1);
      StatusStays(limits, was, es[k - 1]);
    } else {
      AcceptedStop(limits, was, es[i]);
      StatusStopped(limits, was, es[i]);
    }
  }

  lemma StatusStays(limits: Limits, s: State, e: Event)
    requires Enabled(s, e) && s.stopping && (s.status == Stopping || s.status == Failed)
    ensures var t := Step(limits, s, e); t.stopping && (t.status == Stopping || t.status == Failed)
  {
  }

  lemma StatusStopped(limits: Limits, s: State, e: Event)
    requires Enabled(s, e) && Accepts(s, e)
    ensures Step(limits, s, e).status == Stopping
  {
  }

  ghost predicate StopsInTime(limits: Limits, es: seq<Event>, forceReason: StopReason) {
    Run(limits, Begin(0), es) && AllUse(es, forceReason) ==> GoneBy(limits, 0, es, 2)
  }

  lemma RunCons(limits: Limits, s: State, e: Event, es: seq<Event>)
    requires Enabled(s, e) && Run(limits, Step(limits, s, e), es)
    ensures Run(limits, s, [e] + es) && After(limits, s, [e] + es) == After(limits, Step(limits, s, e), es)
  {
    assert ([e] + es)[1..] == es;
  }

  /** The drain a handoff is given that is asked for before any lane reported. */
  function FirstDrainMs(limits: Limits): nat {
    if limits.mayHandOff then PrimaryHandoffDrainMs(limits, []) else limits.drainMs
  }

  /**
   * A forced abort that itself carries the handoff reason lets a signal force once more: three drains after the
   * first.
   */
  lemma HandoffForceRearmsThrice(limits: Limits) returns (es: seq<Event>)
    ensures Run(limits, Begin(0), es) && AllUse(es, Handoff)
    ensures FirstStop(limits, Begin(0), es, 0) && NotGone(es, |es|)
    ensures After(limits, Begin(0), es).now == DueBy(limits, 0, es, 0, 3)
  {
    var h, d := FirstDrainMs(limits), limits.drainMs;
    var draining := Step(limits, Step(limits, Begin(0), Abort(Some(Handoff))), Advance(h));
    var forced := Step(limits, Step(limits, draining, Signal), Advance(h + d));
    es := ForcedAgain(limits, forced, h + d);
    RunCons(limits, Step(limits, draining, Signal), Advance(h + d), es); es := [Advance(h + d)] + es;
    RunCons(limits, draining, Signal, es); es := [Signal] + es;
    RunCons(limits, Step(limits, Begin(0), Abort(Some(Handoff))), Advance(h), es); es := [Advance(h)] + es;
    RunCons(limits, Begin(0), Abort(Some(Handoff)), es); es := [Abort(Some(Handoff))] + es;
  }

  /**
   * From a drain that a signal has just forced: the abort brings the handoff reason back, and a second signal forces
   * again.
   */
  lemma ForcedAgain(limits: Limits, s: State, at: int) returns (es: seq<Event>)
    requires s.stopping && !s.finishing && !s.forceUsed && s.killedAt.None? && s.now == at && s.timer == Some(at)
    requires s.rearmed == 1 && at == s.stopAt + s.allowance + limits.drainMs
    ensures Run(limits, s, es) && AllUse(es, Handoff)
    ensures NotGone(es, |es|) && After(limits, s, es).now == at + 2 * limits.drainMs
  {
    var d := limits.drainMs;
    var aborted := Step(limits, s, ForceAbort(Some(Handoff)));
    var late := Step(limits, aborted, Advance(at + d));
    var again := Step(limits, late, Signal);
    RunCons(limits, again, Advance(at + 2 * d), []);
    es := [Advance(at + 2 * d)] + [];
    RunCons(limits, late, Signal, es); es := [Signal] + es;
    RunCons(limits, aborted, Advance(at + d), es); es := [Advance(at + d)] + es;
    RunCons(limits, s, ForceAbort(Some(Handoff)), es); es := [ForceAbort(Some(Handoff))] + es;
  }

  /**
   * Two re-armings bound every stop if and only if forced aborts do not carry the handoff reason (the role worker
   * only uses shutdown and lost lease) or there is no drain at all.
   */
  lemma TwoRearmsIff(limits: Limits, forceReason: StopReason)
    ensures (forall es :: StopsInTime(limits, es, forceReason)) <==> forceReason != Handoff || limits.drainMs == 0
  {
    if forceReason != Handoff || limits.drainMs == 0 {
      forall es ensures StopsInTime(limits, es, forceReason) {
        if Run(limits, Begin(0), es) && AllUse(es, forceReason) {
          StopIsBounded(limits, 0, es, forceReason);
        }
      }
    } else {
      var es := HandoffForceRearmsThrice(limits);
      BeforeEnd(limits, Begin(0), es);
      assert Before(limits, Begin(0), es, |es|).now > DueBy(limits, 0, es, 0, 2);
      assert !StopsInTime(limits, es, forceReason);
    }
  }

  // ---------- the exit code ----------

  /** While stopping, a zero exit code means the last accepted stop was asked for. */
  predicate ExitCodeSound(s: State) {
    s.stopping && !s.finishing && s.exitCode == 0 ==> s.requested
  }

  lemma {:induction false} ExitCodesSound(limits: Limits, s: State, es: seq<Event>)
    requires ExitCodeSound(s) && Run(limits, s, es)
    ensures ExitCodeSound(After(limits, s, es))
    decreases |es|
  {
    if es != [] {
      ExitCodesSound(limits, Step(limits, s, es[0]), es[1..]);
    }
  }

  /** Neither a stop nor a failure. */
  predicate CalmAt(limits: Limits, s: State, es: seq<Event>, i: nat)
    requires Run(limits, s, es) && i < |es|
  {
    !StopsAt(limits, s, es, i) && !NotesFailure(es[i])
  }

  /** The last accepted stop was asked for, and neither the drain's end nor a failed delivery followed it. */
  predicate LastStopClean(limits: Limits, s: State, es: seq<Event>, i: nat)
    requires Run(limits, s, es) && i < |es|
  {
    && StopsAt(limits, s, es, i) && AsksToStop(es[i])
    && forall j :: i < j < |es| ==> CalmAt(limits, s, es, j)
  }

  predicate Stopped(limits: Limits, s: State, es: seq<Event>)
    requires Run(limits, s, es)
  {
    exists i :: 0 <= i < |es| && StopsAt(limits, s, es, i)
  }

  predicate StoppedClean(limits: Limits, s: State, es: seq<Event>)
    requires Run(limits, s, es)
  {
    exists i :: 0 <= i < |es| && LastStopClean(limits, s, es, i)
  }

  predicate CalmThroughout(limits: Limits, s: State, es: seq<Event>)
    requires Run(limits, s, es)
  {
    forall j :: 0 <= j < |es| ==> CalmAt(limits, s, es, j)
  }

  predicate HeardFrom(es: seq<Event>) {
    exists e :: e in es && e.Heartbeat?
  }

  lemma OneStep(limits: Limits, s: State, e: Event)
    requires Enabled(s, e) && !Step(limits, s, e).finishing
    ensures var t := Step(limits, s, e);
            && !s.finishing && (t.stopping <==> s.stopping || Accepts(s, e))
            && (t.everHeartbeat <==> s.everHeartbeat || e.Heartbeat?)
            && (0 <= s.exitCode <= 1 ==> 0 <= t.exitCode <= 1)
            && (t.stopping && t.exitCode == 0 <==>
                  if Accepts(s, e) then AsksToStop(e) else s.stopping && s.exitCode == 0 && !NotesFailure(e))
  {
  }

  /** What the events of a run say about its end, when it starts anywhere. */
  lemma {:induction false} EventsTell(limits: Limits, s: State, es: seq<Event>)
    requires Run(limits, s, es) && !After(limits, s, es).finishing
    ensures var end := After(limits, s, es);
            && !s.finishing && (end.stopping <==> s.stopping || Stopped(limits, s, es))
            && (end.everHeartbeat <==> s.everHeartbeat || HeardFrom(es))
            && (0 <= s.exitCode <= 1 ==> 0 <= end.exitCode <= 1)
            && (end.stopping && end.exitCode == 0 <==>
                  || StoppedClean(limits, s, es)
                  || (s.stopping && s.exitCode == 0 && CalmThroughout(limits, s, es)))
    decreases |es|
  {
    if es != [] {
      EventsTell(limits, Step(limits, s, es[0]), es[1..]);
      OneStep(limits, s, es[0]);
      StoppedLater(limits, s, es);
      CalmFirst(limits, s, es);
      CleanLater(limits, s, es);
      assert HeardFrom(es) <==> es[0].Heartbeat? || HeardFrom(es[1..]) by {
        assert es == [es[0]] + es[1..];
      }
    }
  }

  /** What holds at an event of a run also holds when the run is taken from its second event on. */
  lemma OneEventOn(limits: Limits, s: State, es: seq<Event>, i: nat)
    requires Run(limits, s, es) && 0 < i < |es|
    ensures var t, rest := Step(limits, s, es[0]), es[1..];
            && StopsAt(limits, s, es, i) == StopsAt(limits, t, rest, i - 1)
            && CalmAt(limits, s, es, i) == CalmAt(limits, t, rest, i - 1)
  {
  }

  lemma StoppedLater(limits: Limits, s: State, es: seq<Event>)
    requires Run(limits, s, es) && es != []
    ensures Stopped(limits, s, es) <==> Accepts(s, es[0]) || Stopped(limits, Step(limits, s, es[0]), es[1..])
  {
    var t, rest := Step(limits, s, es[0]), es[1..];
    assert StopsAt(limits, s, es, 0) == Accepts(s, es[0]);
    if i :| 0 < i < |es| && StopsAt(limits, s, es, i) {
      OneEventOn(limits, s, es, i);
    }
    if i :| 0 <= i < |rest| && StopsAt(limits, t, rest, i) {
      OneEventOn(limits, s, es, i + 1);
    }
  }

  lemma CalmLater(limits: Limits, s: State, es: seq<Event>, from: nat)
    requires Run(limits, s, es) && es != []
    ensures (forall j :: from < j < |es| ==> CalmAt(limits, s, es, j)) <==>
            (forall j :: from <= j < |es| - 1 ==> CalmAt(limits, Step(limits, s, es[0]), es[1..], j))
  {
    var t, rest := Step(limits, s, es[0]), es[1..];
    if j :| from < j < |es| && !CalmAt(limits, s, es, j) {
      OneEventOn(limits, s, es, j);
      assert !CalmAt(limits, t, rest, j - 1);
    }
    if j :| from <= j < |es| - 1 && !CalmAt(limits, t, rest, j) {
      OneEventOn(limits, s, es, j + 1);
      assert !CalmAt(limits, s, es, j + 1);
    }
  }

  lemma CalmFirst(limits: Limits, s: State, es: seq<Event>)
    requires Run(limits, s, es) && es != []
    ensures CalmThroughout(limits, s, es) <==>
            !Accepts(s, es[0]) && !NotesFailure(es[0]) && CalmThroughout(limits, Step(limits, s, es[0]), es[1..])
  {
    CalmLater(limits, s, es, 0);
    assert CalmAt(limits, s, es, 0) == (!Accepts(s, es[0]) && !NotesFailure(es[0]));
  }

  lemma CleanLater(limits: Limits, s: State, es: seq<Event>)
    requires Run(limits, s, es) && es != []
    ensures StoppedClean(limits, s, es) <==>
            || StoppedClean(limits, Step(limits, s, es[0]), es[1..])
            || (Accepts(s, es[0]) && AsksToStop(es[0]) && CalmThroughout(limits, Step(limits, s, es[0]), es[1..]))
  {
    var t, rest := Step(limits, s, es[0]), es[1..];
    CalmLater(limits, s, es, 0);
    assert LastStopClean(limits, s, es, 0) <==>
           Accepts(s, es[0]) && AsksToStop(es[0]) && CalmThroughout(limits, t, rest);
    if i :| 0 < i < |es| && LastStopClean(limits, s, es, i) {
      OneEventOn(limits, s, es, i);
      CalmLater(limits, s, es, i);
      assert LastStopClean(limits, t, rest, i - 1);
    }
    if i :| 0 <= i < |rest| && LastStopClean(limits, t, rest, i) {
      OneEventOn(limits, s, es, i + 1);
      CalmLater(limits, s, es, i + 1);
      assert LastStopClean(limits, s, es, i + 1);
    }
  }

  /**
   * When the child ends, the supervisor reports success exactly when: no stop was accepted and a one-shot child ended
   * cleanly; or the last accepted stop was asked for, neither the drain's end nor a failed delivery followed it, and
   * the child ended cleanly or was never heard from. Otherwise it exits with 1 and shows the child as failed.
   */
  lemma SuccessIff(limits: Limits, es: seq<Event>, code: Option<int>, once: bool)
    requires Run(limits, Begin(0), es) && !After(limits, Begin(0), es).finishing
    ensures var end := Step(limits, After(limits, Begin(0), es), ChildExits(code, once));
            && (end.exitCode == 0 <==>
                  if Stopped(limits, Begin(0), es) then
                    StoppedClean(limits, Begin(0), es) && (code == Some(0) || !HeardFrom(es))
                  else once && code == Some(0))
            && (end.exitCode != 0 ==> end.exitCode == 1)
            && end.status == (if end.exitCode == 0 then Stopping else Failed)
  {
    ExitCodesSound(limits, Begin(0), es);
    EventsTell(limits, Begin(0), es);
  }

  /** Until it ends, a child is shown as stopping once a stop was accepted, else as running once it was heard from. */
  lemma {:induction false} ShownStatus(limits: Limits, now: int, es: seq<Event>, k: nat)
    requires Run(limits, Begin(now), es) && k <= |es| && !Before(limits, Begin(now), es, k).finishing
    ensures var s := Before(limits, Begin(now), es, k);
            s.status == if s.stopping then Stopping else if HeardFrom(es[..k]) then Running else Starting
  {
    if k > 0 {
      var was := Before(limits, Begin(now), es, k - 1);
      BeforeNext(limits, Begin(now), es, k - 1);
      OneStep(limits, was, es[k - 1]);
      ShownStatus(limits, now, es, k - 1);
      HeardPush(es[..k - 1], es[k - 1]);
      assert !es[k - 1].ChildExits?;
      assert es[..k] == es[..k - 1] + [es[k - 1]];
      StatusStep(limits, was, es[k - 1], HeardFrom(es[..k - 1]));
    }
  }

  lemma HeardPush(es: seq<Event>, e: Event)
    ensures HeardFrom(es + [e]) <==> HeardFrom(es) || e.Heartbeat?
  {
    if HeardFrom(es) {
      var heard :| heard in es && heard.Heartbeat?;
      assert heard in es + [e];
    } else if e.Heartbeat? {
      assert e in es + [e];
    }
  }

  lemma StatusStep(limits: Limits, s: State, e: Event, heard: bool)
    requires Enabled(s, e) && !e.ChildExits?
    requires s.status == if s.stopping then Stopping else if heard then Running else Starting
    ensures var t := Step(limits, s, e);
            t.status == if t.stopping then Stopping else if heard || e.Heartbeat? then Running else Starting
  {
    if Accepts(s, e) {
      AcceptedStop(limits, s, e);
      StatusStopped(limits, s, e);
    } else {
      NoStop(limits, s, e);
      StatusHeard(limits, s, e);
    }
  }

  lemma StatusHeard(limits: Limits, s: State, e: Event)
    requires Enabled(s, e) && !Accepts(s, e) && !e.ChildExits?
    ensures Step(limits, s, e).status == if !e.Heartbeat? then s.status else if s.stopping then Stopping else Running
  {
  }

  /** A signal that arrives after the handoff drain already timed out clears the failure the kill had noted. */
  lemma SignalAfterKillClearsFailure(limits: Limits) returns (es: seq<Event>)
    ensures Run(limits, Begin(0), es)
    ensures var end := After(limits, Begin(0), es); end.finishing && end.killedAt.Some? && end.exitCode == 0
  {
    var h := FirstDrainMs(limits);
    var s1 := Step(limits, Begin(0), Abort(Some(Handoff)));
    var s2 := Step(limits, s1, Advance(h));
    var s3 := Step(limits, s2, TimerFires);
    var s4 := Step(limits, s3, Signal);
    RunCons(limits, s4, ChildExits(None, false), []);
    es := [ChildExits(None, false)] + [];
    RunCons(limits, s3, Signal, es); es := [Signal] + es;
    RunCons(limits, s2, TimerFires, es); es := [TimerFires] + es;
    RunCons(limits, s1, Advance(h), es); es := [Advance(h)] + es;
    RunCons(limits, Begin(0), Abort(Some(Handoff)), es); es := [Abort(Some(Handoff))] + es;
  }
}
