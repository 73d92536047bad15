/**
 * The life of one role-worker boot: elections, children, and the order of decisions once a child has ended
 * (the loop of runRoleCandidate, scripts/role-worker.ts). Everything the boot meets is given as a script of rounds.
 */
module RoleCandidate {

  /** How the election call came back: a lease, somebody else's lease, or an error, for how long errors have lasted. */
  datatype Election = Elected(epoch: nat) | HeldByOther | Failed(stuck: bool)

  /** How the child's supervisor came back: with a code, or not within the drain limit. */
  datatype Ending = Settled(code: int) | DrainExpired

  datatype YieldReply = Handed | NotOurs | Unknown

  /** `stop...`: whether the stop signal arrives during that phase of the round. */
  datatype Round = Round(
    election: Election, stopInElection: bool,
    ending: Ending, stopInChild: bool, lost: bool, admissionRelease: bool, handoffRelease: bool,
    yieldReply: YieldReply, stopAfter: bool)

  datatype Why = ShutdownRequested | DbUnavailable | DrainTimeout | HandoffFailed | SupervisorExit

  datatype Action =
    | Elect
    | StopSignal
    | ChildStarts(epoch: nat)
    | ChildSettles(epoch: nat, code: int, lost: bool)
    | DrainTimesOut(epoch: nat)
    | Releases(epoch: nat)
    | Yields(epoch: nat)
    | Exits(code: int, why: Why)

  function Stopping(stop: bool): seq<Action> {
    if stop then [StopSignal] else []
  }

  /** The actions of one round of a boot that was not told to stop; the boot is over if they end in `Exits`. */
  function RoundActions(r: Round): seq<Action> {
    [Elect] + Stopping(r.stopInElection) +
    if r.stopInElection then
      (if r.election.Elected? then [Releases(r.election.epoch)] else []) + [Exits(0, ShutdownRequested)]
    else match r.election
      case Failed(stuck) => if stuck then [Exits(1, DbUnavailable)] else Stopping(r.stopAfter)
      case HeldByOther => Stopping(r.stopAfter)
      case Elected(epoch) => [ChildStarts(epoch)] + Stopping(r.stopInChild) + ChildEnds(r, epoch)
  }

  /**
   * The order of decisions once the child has ended: drain limit, stop signal, lost lease, admission, handover, exit.
   */
  function ChildEnds(r: Round, epoch: nat): seq<Action> {
    match r.ending
    case DrainExpired => [DrainTimesOut(epoch), Exits(1, DrainTimeout)]
    case Settled(code) =>
      [ChildSettles(epoch, code, r.lost)] +
      if r.stopInChild then (if code == 0 then [Releases(epoch)] else []) + [Exits(code, ShutdownRequested)]
      else if r.lost then Stopping(r.stopAfter)
      else if r.admissionRelease then [Releases(epoch)] + Stopping(r.stopAfter)
      else if r.handoffRelease && code == 0 then
        [Yields(epoch)] + (if r.yieldReply.Unknown? then [Exits(1, HandoffFailed)] else Stopping(r.stopAfter))
      else [Exits(1, SupervisorExit)]
  }

  predicate Over(actions: seq<Action>) {
    actions != [] && actions[|actions| - 1].Exits?
  }

  predicate Stopped(actions: seq<Action>) {
    StopSignal in actions
  }

  /** All actions of a boot, as far as the script goes. */
  function BootActions(script: seq<Round>): seq<Action> {
    if script == [] then []
    else
      var before := BootActions(script[..|script| - 1]);
      if Over(before) then before
      else if Stopped(before) then before + [Exits(0, ShutdownRequested)]
      else before + RoundActions(script[|script| - 1])
  }

  /** The source's loop. */
  method RunRoleCandidate(script: seq<Round>) returns (actions: seq<Action>)
    ensures actions == BootActions(script)
  {
    actions := [];
    var stopped, over := false, false;
    var i := 0;
    while i < |script| && !over
      invariant 0 <= i <= |script|
      invariant actions == BootActions(script[..i])
      invariant over == Over(actions)
      invariant stopped == Stopped(actions)
    {
      assert script[..i + 1][..i] == script[..i];
      if stopped {
        actions := actions + [Exits(0, ShutdownRequested)];
        over := true;
      } else {
        var round := RunRound(script[i]);
        Appended(actions, round);
        actions := actions + round;
        over := round[|round| - 1].Exits?;
        stopped := StopSignal in round;
      }
      i := i + 1;
    }
    if i < |script| {
      OverStays(script, i);
    }
    assert script[..|script|] == script;
  }

  lemma Appended(before: seq<Action>, round: seq<Action>)
    requires round != []
    ensures Over(before + round) == Over(round) && Stopped(before + round) == (Stopped(before) || Stopped(round))
  {
  }

  /** One pass through the loop of a boot not yet told to stop. */
  method RunRound(r: Round) returns (actions: seq<Action>)
    ensures actions == RoundActions(r) && actions != []
  {
    actions := [Elect];
    if r.stopInElection {
      actions := actions + [StopSignal];
      if r.election.Elected? {
        actions := actions + [Releases(r.election.epoch)];
      }
      actions := actions + [Exits(0, ShutdownRequested)];
      return;
    }
    if !r.election.Elected? {
      if r.election.Failed? && r.election.stuck {
        actions := actions + [Exits(1, DbUnavailable)];
      } else if r.stopAfter {
        actions := actions + [StopSignal];
      }
      return;
    }
    var epoch := r.election.epoch;
    actions := actions + [ChildStarts(epoch)];
    if r.stopInChild {
      actions := actions + [StopSignal];
    }
    var ended := EndChild(r, epoch);
    actions := actions + ended;
  }

  /** What the boot does once its child has ended, in the source's order of checks. */
  method EndChild(r: Round, epoch: nat) returns (ended: seq<Action>)
    ensures ended == ChildEnds(r, epoch) && ended != []
  {
    if r.ending.DrainExpired? {
      return [DrainTimesOut(epoch), Exits(1, DrainTimeout)];
    }
    var code := r.ending.code;
    ended := [ChildSettles(epoch, code, r.lost)];
    if r.stopInChild {
      if code == 0 {
        ended := ended + [Releases(epoch)];
      }
      ended := ended + [Exits(code, ShutdownRequested)];
      return;
    }
    if !r.lost {
      if r.admissionRelease {
        ended := ended + [Releases(epoch)];
      } else if r.handoffRelease && code == 0 {
        ended := ended + [Yields(epoch)];
        if r.yieldReply.Unknown? {
          ended := ended + [Exits(1, HandoffFailed)];
          return;
        }
      } else {
        ended := ended + [Exits(1, SupervisorExit)];
        return;
      }
    }
    if r.stopAfter {
      ended := ended + [StopSignal];
    }
  }

  lemma {:induction false} OverStays(script: seq<Round>, i: nat)
    requires i <= |script| && Over(BootActions(script[..i]))
    ensures BootActions(script) == BootActions(script[..i])
  {
    if i < |script| {
      var front := script[..|script| - 1];
      assert front[..i] == script[..i];
      OverStays(front, i);
    } else {
      assert script[..i] == script;
    }
  }

  // ---------- laws of every boot ----------

  /** After the stop signal no child starts and no election begins. */
  predicate NothingStartsAfterStop(actions: seq<Action>) {
    forall i, j :: 0 <= i < j < |actions| && actions[i].StopSignal? ==>
        !actions[j].ChildStarts? && !actions[j].Elect? && !actions[j].Yields?
  }

  predicate SettledBetween(actions: seq<Action>, i: nat, j: nat) {
    i < j <= |actions| && exists k :: i < k < j && actions[k].ChildSettles?
  }

  /** No election begins while an earlier child is unsettled. */
  predicate ChildrenSettleFirst(actions: seq<Action>) {
    forall i: nat, j: nat :: i < j < |actions| && actions[i].ChildStarts? && actions[j].Elect? ==>
        SettledBetween(actions, i, j)
  }

  /** A drain timeout ends the boot at once, and nothing follows an exit. */
  predicate EndsAreFinal(actions: seq<Action>) {
    forall i: nat :: i < |actions| ==> EndsAt(actions, i)
  }

  predicate EndsAt(actions: seq<Action>, i: nat)
    requires i < |actions|
  {
    && (actions[i].DrainTimesOut? ==> i + 2 == |actions| && actions[i + 1] == Exits(1, DrainTimeout))
    && (actions[i].Exits? ==> i + 1 == |actions|)
  }

  /** The role is handed over only right after this epoch's child ended cleanly with the lease intact. */
  predicate YieldsAreClean(actions: seq<Action>) {
    forall i :: 0 <= i < |actions| && actions[i].Yields? ==>
        i > 0 && actions[i - 1] == ChildSettles(actions[i].epoch, 0, false)
  }

  predicate Lawful(actions: seq<Action>) {
    NothingStartsAfterStop(actions) && ChildrenSettleFirst(actions) && EndsAreFinal(actions) && YieldsAreClean(actions)
  }

  /** Every child started in these actions has settled by their end. */
  predicate AllSettled(actions: seq<Action>) {
    forall i: nat :: i < |actions| && actions[i].ChildStarts? ==> SettledBetween(actions, i, |actions|)
  }

  lemma RoundIsLawful(r: Round)
    ensures var a := RoundActions(r); Lawful(a) && (!Over(a) ==> AllSettled(a) && Unended(a))
  {
    var a := RoundActions(r);
    if r.stopInElection || !r.election.Elected? {
      assert |a| <= 4 && forall i :: 0 <= i < |a| ==> !a[i].ChildStarts? && !a[i].Yields? && !a[i].DrainTimesOut?;
      assert forall i :: 0 < i < |a| ==> !a[i].Elect?;
    } else if r.stopInChild {
      StoppedRoundIsLawful(r, r.election.epoch);
    } else {
      ChildRoundIsLawful(r, r.election.epoch);
    }
  }

  lemma StoppedRoundIsLawful(r: Round, epoch: nat)
    requires r.election == Elected(epoch) && !r.stopInElection && r.stopInChild
    ensures Lawful(RoundActions(r)) && Over(RoundActions(r))
  {
    var a := RoundActions(r);
    assert a[..3] == [Elect, ChildStarts(epoch), StopSignal];
    if r.ending.Settled? && r.ending.code == 0 {
      assert a[3..] == [ChildSettles(epoch, 0, r.lost), Releases(epoch), Exits(0, ShutdownRequested)];
    }
  }

  lemma ChildRoundIsLawful(r: Round, epoch: nat)
    requires r.election == Elected(epoch) && !r.stopInElection && !r.stopInChild
    ensures var a := RoundActions(r); Lawful(a) && (!Over(a) ==> AllSettled(a) && Unended(a))
  {
    var a := RoundActions(r);
    assert a[0] == Elect && a[1] == ChildStarts(epoch);
    if r.ending.Settled? {
      assert a[2] == ChildSettles(epoch, r.ending.code, r.lost);
      assert forall i :: 2 < i < |a| ==> !a[i].ChildStarts? && !a[i].Elect? && !a[i].DrainTimesOut?;
      assert forall i: nat :: i < |a| && a[i].ChildStarts? ==> i == 1;
    }
  }

  predicate Unended(actions: seq<Action>) {
    forall i :: 0 <= i < |actions| ==> !actions[i].Exits? && !actions[i].DrainTimesOut?
  }

  lemma Joined(a: seq<Action>, b: seq<Action>)
    requires Lawful(a) && Lawful(b) && Unended(a) && AllSettled(a) && !Stopped(a)
    ensures Lawful(a + b) && (AllSettled(b) ==> AllSettled(a + b))
  {
    var c := a + b;
    forall i: nat, j: nat | i < j < |c| && c[i].ChildStarts? && c[j].Elect? ensures SettledBetween(c, i, j) {
      if i >= |a| {
        SettledInSecond(a, b, i - |a|, j - |a|);
      } else if j >= |a| {
        SettledInFirst(a, b, i, |a|, j);
      } else {
        SettledInFirst(a, b, i, j, j);
      }
    }
    if AllSettled(b) {
      forall i: nat | i < |c| && c[i].ChildStarts? ensures SettledBetween(c, i, |c|) {
        if i >= |a| {
          SettledInSecond(a, b, i - |a|, |b|);
        } else {
          SettledInFirst(a, b, i, |a|, |c|);
        }
      }
    }
    assert YieldsAreClean(c) by {
      forall i | 0 <= i < |c| && c[i].Yields? ensures i > 0 && c[i - 1] == ChildSettles(c[i].epoch, 0, false) {
        if i >= |a| {
          assert b[i - |a|].Yields?;
        }
      }
    }
    EndsJoin(a, b);
  }

  lemma EndsJoin(a: seq<Action>, b: seq<Action>)
    requires Unended(a) && EndsAreFinal(b)
    ensures EndsAreFinal(a + b)
  {
    var c := a + b;
    forall i: nat | i < |c| ensures EndsAt(c, i) {
      if i >= |a| {
        assert EndsAt(b, i - |a|);
      }
    }
  }

  lemma SettledInFirst(a: seq<Action>, b: seq<Action>, i: nat, j: nat, end: nat)
    requires SettledBetween(a, i, j) && j <= end <= |a| + |b|
    ensures SettledBetween(a + b, i, end)
  {
    var k :| i < k < j && a[k].ChildSettles?;
    assert (a + b)[k] == a[k];
  }

  lemma SettledInSecond(a: seq<Action>, b: seq<Action>, i: nat, j: nat)
    requires SettledBetween(b, i, j)
    ensures SettledBetween(a + b, |a| + i, |a| + j)
  {
    var k :| i < k < j && b[k].ChildSettles?;
    assert (a + b)[|a| + k] == b[k];
  }

  /** Every boot, whatever it meets, is lawful. */
  lemma {:induction false} BootsAreLawful(script: seq<Round>)
    ensures Lawful(BootActions(script))
    ensures !Over(BootActions(script)) ==> AllSettled(BootActions(script)) && Unended(BootActions(script))
  {
    if script != [] {
      var front, r := script[..|script| - 1], script[|script| - 1];
      var before := BootActions(front);
      BootsAreLawful(front);
      if !Over(before) && Stopped(before) {
        LateExit(before);
      } else if !Over(before) {
        RoundIsLawful(r);
        Joined(before, RoundActions(r));
        assert Over(before + RoundActions(r)) == Over(RoundActions(r));
      }
    }
  }

  lemma LateExit(a: seq<Action>)
    requires Lawful(a) && Unended(a)
    ensures Lawful(a + [Exits(0, ShutdownRequested)])
  {
    var c := a + [Exits(0, ShutdownRequested)];
    forall i: nat, j: nat | i < j < |c| && c[i].ChildStarts? && c[j].Elect? ensures SettledBetween(c, i, j) {
      SettledInFirst(a, [Exits(0, ShutdownRequested)], i, j, j);
    }
  }

  // ---------- which rounds a boot reaches ----------

  /** The child ended, and nothing that followed ends the boot: the lease was lost, given back, or handed over. */
  predicate GoesBack(r: Round)
    requires r.ending.Settled?
  {
    r.lost || r.admissionRelease || (r.handoffRelease && r.ending.code == 0 && !r.yieldReply.Unknown?)
  }

  /** After this round the boot holds another election. */
  predicate Continues(r: Round) {
    && !r.stopInElection && !r.stopAfter
    && match r.election
       case HeldByOther => true
       case Failed(stuck) => !stuck
       case Elected(_) => r.ending.Settled? && !r.stopInChild && GoesBack(r)
  }

  /** The stop signal comes while the boot is between two elections; it ends at the next look. */
  predicate StopsBetween(r: Round) {
    Continues(r.(stopAfter := false)) && r.stopAfter
  }

  /** Every round before this one went on to the next. */
  predicate Reached(script: seq<Round>, i: nat) {
    i <= |script| && forall j :: 0 <= j < i ==> Continues(script[j])
  }

  lemma RoundGoesOn(r: Round)
    ensures Continues(r) <==> !Over(RoundActions(r)) && !Stopped(RoundActions(r))
    ensures StopsBetween(r) <==> !Over(RoundActions(r)) && Stopped(RoundActions(r))
  {
    var a := RoundActions(r);
    if r.stopInElection || !r.election.Elected? {
      assert r.stopInElection ==> a[1] == StopSignal;
    } else if r.stopInChild {
      assert a[2] == StopSignal;
    } else if StopsBetween(r) {
      assert a[|a| - 1] == StopSignal;
    }
  }

  /** A boot goes on to another election if and only if every round so far went on to the next. */
  lemma {:induction false} GoesOnIff(script: seq<Round>)
    ensures Reached(script, |script|) <==> !Over(BootActions(script)) && !Stopped(BootActions(script))
  {
    if script != [] {
      var front, r := script[..|script| - 1], script[|script| - 1];
      GoesOnIff(front);
      ReachedLast(script);
      if Reached(front, |front|) {
        OneRoundOn(BootActions(front), r);
      }
    }
  }

  lemma ReachedLast(script: seq<Round>)
    requires script != []
    ensures Reached(script, |script|) <==>
            Reached(script[..|script| - 1], |script| - 1) && Continues(script[|script| - 1])
  {
    ReachedFront(script, |script| - 1);
  }

  lemma OneRoundOn(before: seq<Action>, r: Round)
    requires !Over(before) && !Stopped(before)
    ensures var a := before + RoundActions(r); !Over(a) && !Stopped(a) <==> Continues(r)
  {
    RoundGoesOn(r);
    Appended(before, RoundActions(r));
  }

  lemma ReachedFront(script: seq<Round>, i: nat)
    requires i < |script|
    ensures Reached(script[..|script| - 1], i) <==> Reached(script, i)
  {
    assert forall j :: 0 <= j < i ==> script[..|script| - 1][j] == script[j];
  }

  predicate DoneIn(script: seq<Round>, i: nat, action: Action) {
    i < |script| && Reached(script, i) && action in RoundActions(script[i])
  }

  ghost predicate DoneSomewhere(script: seq<Round>, action: Action) {
    exists i: nat :: DoneIn(script, i, action)
  }

  /** Apart from the exit after a late signal, a boot does exactly what the rounds it reaches do. */
  lemma {:induction false} DoneIff(script: seq<Round>, action: Action)
    requires !action.Exits?
    ensures action in BootActions(script) <==> DoneSomewhere(script, action)
  {
    if script == [] {
      assert !DoneSomewhere([], action);
    } else {
      var front, r := script[..|script| - 1], script[|script| - 1];
      DoneIff(front, action);
      assert script == front + [r];
      DoneLast(front, r, action);
      DoneSplit(front, r, action);
    }
  }

  /** What the last round of a script adds. */
  lemma DoneLast(front: seq<Round>, r: Round, action: Action)
    requires !action.Exits?
    ensures action in BootActions(front + [r]) <==> action in BootActions(front) || DoneIn(front + [r], |front|, action)
  {
    assert (front + [r])[..|front|] == front;
    GoesOnIff(front);
    ReachedFront(front + [r], |front|);
  }

  lemma DoneFront(front: seq<Round>, r: Round, i: nat, action: Action)
    ensures DoneIn(front, i, action) <==> i < |front| && DoneIn(front + [r], i, action)
  {
    if i < |front| {
      assert (front + [r])[..|front|] == front;
      ReachedFront(front + [r], i);
    }
  }

  lemma DoneSplit(front: seq<Round>, r: Round, action: Action)
    ensures DoneSomewhere(front + [r], action) <==>
            DoneSomewhere(front, action) || DoneIn(front + [r], |front|, action)
  {
    if i: nat :| DoneIn(front, i, action) {
      DoneFront(front, r, i, action);
    }
    if i: nat :| DoneIn(front + [r], i, action) {
      DoneFront(front, r, i, action);
    }
  }

  // ---------- when the role is given back ----------

  /**
   * The stop came during a won election, or during a child that then ended with 0, or admission gave up a child whose
   * lease was intact.
   */
  predicate GivesBack(r: Round, epoch: nat) {
    && r.election == Elected(epoch)
    && (r.stopInElection
        || (r.ending.Settled? && if r.stopInChild then r.ending.code == 0 else r.admissionRelease && !r.lost))
  }

  lemma RoundReleasesIff(r: Round, epoch: nat)
    ensures Releases(epoch) in RoundActions(r) <==> GivesBack(r, epoch)
  {
    var a := RoundActions(r);
    if GivesBack(r, epoch) {
      assert a[if r.stopInElection then 2 else if r.stopInChild then 4 else 3] == Releases(epoch);
    }
  }

  /** Over every boot, a lease is given back exactly in the rounds that call for it. */
  lemma ReleasesIff(script: seq<Round>, epoch: nat)
    ensures Releases(epoch) in BootActions(script) <==>
            exists i: nat :: i < |script| && Reached(script, i) && GivesBack(script[i], epoch)
  {
    DoneIff(script, Releases(epoch));
    forall i: nat | i < |script| ensures DoneIn(script, i, Releases(epoch)) <==>
                                         Reached(script, i) && GivesBack(script[i], epoch)
    {
      RoundReleasesIff(script[i], epoch);
    }
  }

  /** The release comes at once: right after the signal in a won election, or right after its own child settled. */
  predicate ReleaseAt(actions: seq<Action>, k: nat)
    requires k < |actions|
  {
    actions[k].Releases? ==>
      && k >= 2
      && if actions[k - 1].ChildSettles? then
           && actions[k - 1].epoch == actions[k].epoch
           && (if actions[k - 2].StopSignal? then actions[k - 1].code == 0 else !actions[k - 1].lost)
         else actions[k - 1].StopSignal? && actions[k - 2].Elect?
  }

  predicate ReleasesComeAtOnce(actions: seq<Action>) {
    forall k: nat :: k < |actions| ==> ReleaseAt(actions, k)
  }

  lemma RoundReleasesAtOnce(r: Round)
    ensures ReleasesComeAtOnce(RoundActions(r))
  {
    var a := RoundActions(r);
    if r.stopInElection && r.election.Elected? {
      assert a == [Elect, StopSignal, Releases(r.election.epoch), Exits(0, ShutdownRequested)];
    } else if !r.stopInElection && r.election.Elected? && r.ending.Settled? {
      var settled := ChildSettles(r.election.epoch, r.ending.code, r.lost);
      assert if r.stopInChild then a[2..4] == [StopSignal, settled] else a[2] == settled;
    }
  }

  /** Over every boot, a release comes right after what called for it. */
  lemma {:induction false} BootReleasesAtOnce(script: seq<Round>)
    ensures ReleasesComeAtOnce(BootActions(script))
  {
    if script != [] {
      var before, a := BootActions(script[..|script| - 1]), RoundActions(script[|script| - 1]);
      BootReleasesAtOnce(script[..|script| - 1]);
      RoundReleasesAtOnce(script[|script| - 1]);
      JoinedReleases(before, a);
      JoinedReleases(before, [Exits(0, ShutdownRequested)]);
    }
  }

  lemma JoinedReleases(a: seq<Action>, b: seq<Action>)
    requires ReleasesComeAtOnce(a) && ReleasesComeAtOnce(b)
    ensures ReleasesComeAtOnce(a + b)
  {
    forall k: nat | k < |a + b| ensures ReleaseAt(a + b, k) {
      assert if k < |a| then ReleaseAt(a, k) else ReleaseAt(b, k - |a|);
    }
  }

  // ---------- when a child starts and the role is handed over ----------

  /** The election was won, and no stop came meanwhile. */
  predicate StartsChild(r: Round, epoch: nat) {
    r.election == Elected(epoch) && !r.stopInElection
  }

  lemma RoundStartsIff(r: Round, epoch: nat)
    ensures ChildStarts(epoch) in RoundActions(r) <==> StartsChild(r, epoch)
  {
    if StartsChild(r, epoch) {
      assert RoundActions(r)[1] == ChildStarts(epoch);
    }
  }

  /** Over every boot, a child starts for an epoch exactly in a reached round that won it and was not stopped. */
  lemma ChildStartsIff(script: seq<Round>, epoch: nat)
    ensures ChildStarts(epoch) in BootActions(script) <==>
            exists i: nat :: i < |script| && Reached(script, i) && StartsChild(script[i], epoch)
  {
    DoneIff(script, ChildStarts(epoch));
    forall i: nat | i < |script|
      ensures DoneIn(script, i, ChildStarts(epoch)) <==> Reached(script, i) && StartsChild(script[i], epoch)
    {
      RoundStartsIff(script[i], epoch);
    }
  }

  /** The child ended cleanly with the lease intact, and a handoff was what ended it. */
  predicate HandsOver(r: Round, epoch: nat) {
    && r.election == Elected(epoch) && !r.stopInElection && !r.stopInChild && r.ending == Settled(0)
    && !r.lost && !r.admissionRelease && r.handoffRelease
  }

  /** Exactly when a round hands the role over. */
  lemma YieldIff(r: Round, epoch: nat)
    ensures Yields(epoch) in RoundActions(r) <==> HandsOver(r, epoch)
  {
    if HandsOver(r, epoch) {
      assert RoundActions(r)[3] == Yields(epoch);
    }
  }

  /** Over every boot, the role is handed over exactly in the reached rounds that call for it. */
  lemma BootYieldsIff(script: seq<Round>, epoch: nat)
    ensures Yields(epoch) in BootActions(script) <==>
            exists i: nat :: i < |script| && Reached(script, i) && HandsOver(script[i], epoch)
  {
    DoneIff(script, Yields(epoch));
    forall i: nat | i < |script|
      ensures DoneIn(script, i, Yields(epoch)) <==> Reached(script, i) && HandsOver(script[i], epoch)
    {
      YieldIff(script[i], epoch);
    }
  }

  // ---------- how a boot ends ----------

  /** The child's own code after a stop in a child, 0 after a stop in an election or in between, 1 otherwise. */
  function ExitCode(r: Round): int {
    if r.stopInElection || StopsBetween(r) then 0
    else if r.election.Elected? && r.stopInChild && r.ending.Settled? then r.ending.code
    else 1
  }

  function ExitWhy(r: Round): Why {
    if r.stopInElection || StopsBetween(r) then ShutdownRequested
    else if !r.election.Elected? then DbUnavailable
    else if r.ending.DrainExpired? then DrainTimeout
    else if r.stopInChild then ShutdownRequested
    else if r.handoffRelease && r.ending.code == 0 then HandoffFailed
    else SupervisorExit
  }

  /** The boot ends in this round, or, stopped between two elections, when it looks again after it. */
  predicate EndsIn(script: seq<Round>, i: nat) {
    i < |script| && Reached(script, i) && !Continues(script[i]) && (StopsBetween(script[i]) ==> i + 1 < |script|)
  }

  lemma RoundExits(r: Round)
    requires !Continues(r) && !StopsBetween(r)
    ensures var a := RoundActions(r); a != [] && a[|a| - 1] == Exits(ExitCode(r), ExitWhy(r))
  {
  }

  /** These are the actions of a boot whose first round that did not go on is this one. */
  predicate Ended(script: seq<Round>, i: nat, actions: seq<Action>) {
    && i <= |script| && Reached(script, i) && (i < |script| ==> !Continues(script[i]))
    && (Over(actions) <==> EndsIn(script, i))
    && (Over(actions) ==> actions[|actions| - 1] == Exits(ExitCode(script[i]), ExitWhy(script[i])))
  }

  /** One more round after rounds that all went on. */
  lemma EndsByRound(script: seq<Round>, before: seq<Action>)
    requires script != [] && Reached(script, |script| - 1) && !Over(before) && !Stopped(before)
    ensures var r := script[|script| - 1];
            Ended(script, if Continues(r) then |script| else |script| - 1, before + RoundActions(r))
  {
    var r := script[|script| - 1];
    RoundGoesOn(r);
    Appended(before, RoundActions(r));
    if !Continues(r) && !StopsBetween(r) {
      RoundExits(r);
    }
  }

  /** One more look of a boot that did not go on earlier. */
  lemma EndsEarlier(script: seq<Round>, i: nat, before: seq<Action>)
    requires script != [] && i < |script| - 1 && Ended(script[..|script| - 1], i, before)
    requires Over(before) || Stopped(before)
    ensures Ended(script, i, if Over(before) then before else before + [Exits(0, ShutdownRequested)])
  {
    ReachedFront(script, i);
    assert script[..|script| - 1][i] == script[i];
  }

  /** The first round that does not go on, if there is one, says whether the boot is over, and how it exits. */
  lemma {:induction false} BootEnds(script: seq<Round>) returns (i: nat)
    ensures Ended(script, i, BootActions(script))
  {
    if script == [] {
      i := 0;
    } else {
      var front := script[..|script| - 1];
      i := BootEnds(front);
      GoesOnIff(front);
      i := EndsNext(script, i, BootActions(front));
    }
  }

  /** One more round of the script, whatever state the boot is in. */
  lemma EndsNext(script: seq<Round>, i: nat, before: seq<Action>) returns (next: nat)
    requires script != [] && Ended(script[..|script| - 1], i, before)
    requires Reached(script[..|script| - 1], |script| - 1) <==> !Over(before) && !Stopped(before)
    ensures Ended(script, next, if Over(before) then before
                                else if Stopped(before) then before + [Exits(0, ShutdownRequested)]
                                else before + RoundActions(script[|script| - 1]))
  {
    var front := script[..|script| - 1];
    next := i;
    if i < |front| {
      assert !Reached(front, |front|);
      EndsEarlier(script, i, before);
    } else {
      ReachedFront(script, i);
      EndsByRound(script, before);
      next := if Continues(script[i]) then |script| else i;
    }
  }

  lemma EndsFirst(script: seq<Round>, i: nat, j: nat)
    requires i <= |script| && Reached(script, i) && (i < |script| ==> !Continues(script[i])) && EndsIn(script, j)
    ensures i == j
  {
  }

  /** Over every boot: it exits with this code for this reason exactly when the round that ends it says so. */
  lemma ExitIff(script: seq<Round>, code: int, why: Why)
    ensures var a := BootActions(script);
            a != [] && a[|a| - 1] == Exits(code, why) <==>
              exists i: nat :: EndsIn(script, i) && code == ExitCode(script[i]) && why == ExitWhy(script[i])
  {
    var i := BootEnds(script);
    forall j: nat | EndsIn(script, j) ensures j == i {
      EndsFirst(script, i, j);
    }
  }
}
