/**
 * When a standby hands its role back to a waiting primary: the sampling and the back-off of PrimaryHandoff
 * (scripts/role-worker.ts). Times are integer milliseconds.
 */
module PrimaryHandoff {
  import opened Basics

  const ROLE_HANDOFF_STABLE_MS: nat := 60_000
  const ROLE_HANDOFF_RETRY_WINDOW_MS: nat := 15 * 60_000
  const ROLE_HANDOFF_MAX_STABLE_MS: nat := 60 * 60_000

  type BootId = string

  datatype Setting = Unset | Number(seconds: int) | Malformed
  datatype StableMs = Handoff(ms: nat) | Disabled | Rejected

  /** ROLE_HANDOFF_STABLE_SECONDS: one minute by default, 0 switches handing over off, at most an hour. */
  function RoleHandoffStableMs(setting: Setting): (r: StableMs)
    ensures r.Handoff? ==> 1_000 <= r.ms <= ROLE_HANDOFF_MAX_STABLE_MS
    ensures r.Rejected? <==> setting.Malformed? || (setting.Number? && !(0 <= setting.seconds <= 3_600))
    ensures r.Disabled? <==> setting == Number(0)
    ensures r.Handoff? ==> r.ms == if setting.Unset? then 60_000 else 1_000 * setting.seconds
  {
    match setting
    case Unset => Handoff(ROLE_HANDOFF_STABLE_MS)
    case Malformed => Rejected
    case Number(s) => if s < 0 || s > 3_600 then Rejected else if s == 0 then Disabled else Handoff(s * 1_000)
  }

  datatype Seen = Seen(boot: BootId, since: int)

  datatype State = State(seen: Option<Seen>, failures: nat, yieldedAt: Option<int>)

  const Fresh: State := State(None, 0, None)

  function RequiredMs(stableMs: nat, failures: nat): nat {
    var doubled := stableMs * Pow2(failures);
    if doubled <= ROLE_HANDOFF_MAX_STABLE_MS then doubled else ROLE_HANDOFF_MAX_STABLE_MS
  }

  function Observed(s: State, primary: Option<BootId>, at: int): State {
    match primary
    case None => s.(seen := None)
    case Some(boot) => if s.seen.Some? && s.seen.value.boot == boot then s else s.(seen := Some(Seen(boot, at)))
  }

  /** The answer of `observe`, from the state it leaves. */
  predicate Stable(stableMs: nat, s: State, at: int) {
    s.seen.Some? && at - s.seen.value.since >= RequiredMs(stableMs, s.failures)
  }

  function Yielded(s: State, at: int): State {
    s.(yieldedAt := Some(at), seen := None)
  }

  function Acquired(s: State, at: int): State {
    var failures := if s.yieldedAt.None? then s.failures
                    else if at - s.yieldedAt.value < ROLE_HANDOFF_RETRY_WINDOW_MS then s.failures + 1 else 0;
    State(None, failures, None)
  }

  class Handoff {
    const stableMs: nat
    var seen: Option<Seen>
    var failures: nat
    var yieldedAt: Option<int>

    function Model(): State
      reads this
    {
      State(seen, failures, yieldedAt)
    }

    constructor (stableMs: nat)
      ensures this.stableMs == stableMs && Model() == Fresh
    {
      this.stableMs := stableMs;
      seen, failures, yieldedAt := None, 0, None;
    }

    method Observe(primary: Option<BootId>, now: int) returns (ready: bool)
      modifies this`seen
      ensures Model() == Observed(old(Model()), primary, now)
      ensures ready <==> Stable(stableMs, Model(), now)
    {
      if primary.None? {
        seen := None;
        return false;
      }
      if seen.None? || seen.value.boot != primary.value {
        seen := Some(Seen(primary.value, now));
      }
      ready := now - seen.value.since >= RequiredMs(stableMs, failures);
    }

    method Yield(now: int)
      modifies this`seen, this`yieldedAt
      ensures Model() == Yielded(old(Model()), now)
    {
      yieldedAt := Some(now);
      seen := None;
    }

    method Acquire(now: int)
      modifies this`seen, this`failures, this`yieldedAt
      ensures Model() == Acquired(old(Model()), now)
    {
      if yieldedAt.Some? {
        failures := if now - yieldedAt.value < ROLE_HANDOFF_RETRY_WINDOW_MS then failures + 1 else 0;
      }
      yieldedAt := None;
      seen := None;
    }
  }

  // ---------- the waiting time ----------

  /** The wait starts at the configured value, and every failed handover doubles it, up to one hour. */
  lemma {:induction false} RequiredMsBounds(stableMs: nat, failures: nat)
    requires stableMs <= ROLE_HANDOFF_MAX_STABLE_MS
    ensures RequiredMs(stableMs, 0) == stableMs
    ensures stableMs <= RequiredMs(stableMs, failures) <= ROLE_HANDOFF_MAX_STABLE_MS
    ensures RequiredMs(stableMs, failures) <= RequiredMs(stableMs, failures + 1)
    ensures var twice := 2 * RequiredMs(stableMs, failures);
            RequiredMs(stableMs, failures + 1)
            == if twice <= ROLE_HANDOFF_MAX_STABLE_MS then twice else ROLE_HANDOFF_MAX_STABLE_MS
  {
    assert Pow2(0) == 1;
    assert Pow2(failures + 1) == 2 * Pow2(failures);
    Doubles(stableMs, Pow2(failures));
  }

  lemma Doubles(x: nat, factor: nat)
    requires factor >= 1
    ensures x <= x * factor && x * (2 * factor) == 2 * (x * factor)
  {
  }

  // ---------- when observe says yes ----------

  datatype Call = Observe(primary: Option<BootId>, at: int) | Yield(at: int) | Acquire(at: int)

  function Called(s: State, call: Call): State {
    match call
    case Observe(primary, at) => Observed(s, primary, at)
    case Yield(at) => Yielded(s, at)
    case Acquire(at) => Acquired(s, at)
  }

  function AfterFrom(s: State, calls: seq<Call>): State {
    if calls == [] then s else Called(AfterFrom(s, calls[..|calls| - 1]), calls[|calls| - 1])
  }

  function After(calls: seq<Call>): State {
    AfterFrom(Fresh, calls)
  }

  predicate InOrder(calls: seq<Call>) {
    forall i, j :: 0 <= i < j < |calls| ==> calls[i].at <= calls[j].at
  }

  /** The calls from `i` on are samples of one and the same waiting boot. */
  predicate Unbroken(calls: seq<Call>, i: nat, boot: BootId) {
    i < |calls| && forall j :: i <= j < |calls| ==> calls[j].Observe? && calls[j].primary == Some(boot)
  }

  /** What is remembered as seen is the start of the unbroken run of samples that the history ends with. */
  lemma {:induction false} SeenIsUnbrokenRun(calls: seq<Call>)
    requires InOrder(calls)
    ensures After(calls).seen.Some? ==>
              exists i: nat :: Unbroken(calls, i, After(calls).seen.value.boot)
                  && calls[i].at == After(calls).seen.value.since
    ensures forall i: nat, boot :: Unbroken(calls, i, boot) ==>
              After(calls).seen.Some? && After(calls).seen.value.boot == boot
                  && After(calls).seen.value.since <= calls[i].at
  {
    if calls != [] {
      var front, last := calls[..|calls| - 1], calls[|calls| - 1];
      SeenIsUnbrokenRun(front);
      if After(calls).seen.Some? {
        var boot := After(calls).seen.value.boot;
        if After(front).seen.Some? && After(front).seen.value.boot == boot {
          var i: nat :| Unbroken(front, i, boot) && front[i].at == After(front).seen.value.since;
          assert Unbroken(calls, i, boot);
        } else {
          assert Unbroken(calls, |front|, boot);
        }
      }
      forall i: nat, boot | Unbroken(calls, i, boot)
        ensures After(calls).seen.Some? && After(calls).seen.value.boot == boot
                && After(calls).seen.value.since <= calls[i].at
      {
        assert calls[|front|].primary == Some(boot);
        if i < |front| {
          assert Unbroken(front, i, boot);
        } else if After(front).seen.Some? && After(front).seen.value.boot == boot {
          var k: nat :| Unbroken(front, k, boot) && front[k].at == After(front).seen.value.since;
          assert calls[k].at <= calls[i].at;
        }
      }
    }
  }

  /**
   * `observe` says yes if and only if the history ends with an unbroken run of samples of one boot that spans the
   * required time.
   */
  lemma ObserveYesIff(stableMs: nat, calls: seq<Call>)
    requires InOrder(calls) && calls != [] && calls[|calls| - 1].Observe?
    ensures Stable(stableMs, After(calls), calls[|calls| - 1].at) <==>
            exists i: nat, boot :: Unbroken(calls, i, boot)
                && calls[|calls| - 1].at - calls[i].at >= RequiredMs(stableMs, After(calls).failures)
  {
    SeenIsUnbrokenRun(calls);
    if Stable(stableMs, After(calls), calls[|calls| - 1].at) {
      var boot := After(calls).seen.value.boot;
      var i: nat :| Unbroken(calls, i, boot) && calls[i].at == After(calls).seen.value.since;
      assert Unbroken(calls, i, boot)
          && calls[|calls| - 1].at - calls[i].at >= RequiredMs(stableMs, After(calls).failures);
    }
  }

  // ---------- how failures are counted ----------

  /** When the role was last handed over and not acquired since, if it was. */
  function HandedOverAt(calls: seq<Call>): Option<int> {
    if calls == [] then None
    else
      match calls[|calls| - 1]
      case Observe(_, _) => HandedOverAt(calls[..|calls| - 1])
      case Yield(at) => Some(at)
      case Acquire(_) => None
  }

  /** How many handovers in a row failed: those after which the role was back within the retry window. */
  function FailuresInARow(calls: seq<Call>): nat {
    if calls == [] then 0
    else
      var before := calls[..|calls| - 1];
      var handed := HandedOverAt(before);
      match calls[|calls| - 1]
      case Acquire(at) =>
        if handed.None? then FailuresInARow(before)
        else if at < handed.value + 15 * 60_000 then FailuresInARow(before) + 1
        else 0
      case _ => FailuresInARow(before)
  }

  /** What is counted over any history of calls; a handover that lasted starts the count again. */
  lemma {:induction false} FailuresAreCounted(calls: seq<Call>)
    ensures After(calls).failures == FailuresInARow(calls) && After(calls).yieldedAt == HandedOverAt(calls)
  {
    if calls != [] {
      FailuresAreCounted(calls[..|calls| - 1]);
    }
  }

  // ---------- handing back and forth ----------

  function TotalWait(stableMs: nat, n: nat): nat {
    if n == 0 then 0 else TotalWait(stableMs, n - 1) + RequiredMs(stableMs, n - 1)
  }

  /**
   * What happens between one handover and the next: samples, and elections won again after a lost lease or a handover
   * that the database refused; then the sample that said yes, the yield after it, and the acquisition back.
   */
  datatype Tenure = Tenure(calls: seq<Call>, yieldAt: int, backAt: int)

  predicate TenureFits(stableMs: nat, start: State, acquiredAt: int, t: Tenure) {
    && t.calls != []
    && (forall i :: 0 <= i < |t.calls| ==> !t.calls[i].Yield? && acquiredAt <= t.calls[i].at)
    && t.calls[|t.calls| - 1].Observe?
    && Stable(stableMs, AfterFrom(start, t.calls), t.calls[|t.calls| - 1].at)
    && t.calls[|t.calls| - 1].at <= t.yieldAt <= t.backAt < t.yieldAt + ROLE_HANDOFF_RETRY_WINDOW_MS
  }

  function Back(start: State, t: Tenure): State {
    Acquired(Yielded(AfterFrom(start, t.calls), t.yieldAt), t.backAt)
  }

  predicate TenuresFit(stableMs: nat, start: State, acquiredAt: int, ts: seq<Tenure>)
    decreases |ts|
  {
    ts == [] ||
    (TenureFits(stableMs, start, acquiredAt, ts[0]) && TenuresFit(stableMs, Back(start, ts[0]), ts[0].backAt, ts[1..]))
  }

  lemma {:induction false} SampledSince(s: State, calls: seq<Call>, from: int)
    requires s.seen.None? && s.yieldedAt.None?
    requires forall i :: 0 <= i < |calls| ==> !calls[i].Yield? && from <= calls[i].at
    ensures AfterFrom(s, calls).failures == s.failures && AfterFrom(s, calls).yieldedAt.None?
    ensures AfterFrom(s, calls).seen.Some? ==> from <= AfterFrom(s, calls).seen.value.since
  {
    if calls != [] {
      SampledSince(s, calls[..|calls| - 1], from);
    }
  }

  /**
   * A standby and a primary that cannot keep the role do not trade it quickly: after n handovers that all came straight
   * back, the last one is at least the sum of n doubling waits after the first acquisition, however often the standby
   * lost its lease and was elected again in between.
   */
  lemma {:induction false} YieldsBackOff(stableMs: nat, start: State, acquiredAt: int, ts: seq<Tenure>, done: nat)
    requires start == State(None, done, None) && TenuresFit(stableMs, start, acquiredAt, ts) && ts != []
    ensures ts[|ts| - 1].yieldAt >= acquiredAt + TotalWait(stableMs, done + |ts|) - TotalWait(stableMs, done)
    decreases |ts|
  {
    SampledSince(start, ts[0].calls, acquiredAt);
    assert ts[0].yieldAt >= acquiredAt + RequiredMs(stableMs, done);
    if |ts| > 1 {
      YieldsBackOff(stableMs, Back(start, ts[0]), ts[0].backAt, ts[1..], done + 1);
    }
  }
}
