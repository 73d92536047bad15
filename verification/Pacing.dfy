/**
 * The paced load generator (scripts/measure-worker-capacity.ts): one request per slot, late slots discarded, a bounded
 * number of requests in flight. Times are milliseconds since the loop began, as exact reals.
 */
module Pacing {
  import opened Basics

  datatype Options = Options(rps: nat, durationSeconds: nat, maxInflight: nat)

  /**
   * What one slot of the loop meets: the clock before waiting, after waiting and at the lateness check, and how many
   * requests finished during the wait.
   */
  datatype Slot = Slot(before: real, after: real, check: real, finished: nat)

  /** A request: the slot that started it and the clock reading that let it through. */
  datatype Start = Start(index: nat, at: real)

  datatype Tally = Tally(starts: seq<Start>, skipped: nat, inflight: nat, peak: nat, stopped: bool)

  ghost predicate Runs(o: Options) {
    1 <= o.rps && 1 <= o.durationSeconds && 1 <= o.maxInflight
  }

  function Period(o: Options): (r: real)
    requires o.rps >= 1
    ensures r > 0.0 && r * o.rps as real == 1000.0
  {
    1000.0 / o.rps as real
  }

  function Count(o: Options): nat {
    o.durationSeconds * o.rps
  }

  function Due(o: Options, index: nat): real
    requires o.rps >= 1
  {
    index as real * Period(o)
  }

  /**
   * The clock never runs backwards, requests finish only while the loop waits, and a timer may fire up to `early`
   * milliseconds before its time.
   */
  ghost predicate Lawful(o: Options, slots: seq<Slot>, early: real)
    requires Runs(o)
  {
    && early >= 0.0
    && |slots| == Count(o)
    && (forall i :: 0 <= i < |slots| ==> LawfulSlot(o, i, slots[i], early))
    && (forall i, j :: 0 <= i < j < |slots| ==> slots[i].check <= slots[j].before)
  }

  ghost predicate LawfulSlot(o: Options, index: nat, slot: Slot, early: real)
    requires Runs(o)
  {
    && slot.before <= slot.after <= slot.check
    && (slot.before < Due(o, index) ==> slot.after >= Due(o, index) - early)
    && (slot.before >= Due(o, index) ==> slot.finished == 0)
  }

  function Less(a: nat, b: nat): nat {
    if a <= b then 0 else a - b
  }

  function Max(a: nat, b: nat): nat {
    if a >= b then a else b
  }

  /** One slot: stop at the end of the schedule, skip when full, skip when the slot has passed, start otherwise. */
  function SlotStep(o: Options, t: Tally, index: nat, slot: Slot): Tally
    requires o.rps >= 1
  {
    if t.stopped then t
    else
      var waited := t.(inflight := Less(t.inflight, slot.finished));
      if slot.after >= (o.durationSeconds * 1000) as real then
        waited.(skipped := t.skipped + Less(Count(o), index), stopped := true)
      else if waited.inflight >= o.maxInflight then waited.(skipped := t.skipped + 1)
      else if slot.check > Due(o, index + 1) then waited.(skipped := t.skipped + 1)
      else waited.(starts := t.starts + [Start(index, slot.check)], inflight := waited.inflight + 1,
                   peak := Max(t.peak, waited.inflight + 1))
  }

  function Paced(o: Options, slots: seq<Slot>): Tally
    requires o.rps >= 1
  {
    if slots == [] then Tally([], 0, 0, 0, false)
    else SlotStep(o, Paced(o, slots[..|slots| - 1]), |slots| - 1, slots[|slots| - 1])
  }

  /** The loop of `measureCapacity`. */
  method PacedLoop(o: Options, slots: seq<Slot>, ghost early: real)
    returns (starts: seq<Start>, skipped: nat, peakInflight: nat)
    requires Runs(o) && Lawful(o, slots, early)
    ensures starts == Paced(o, slots).starts && skipped == Paced(o, slots).skipped
            && peakInflight == Paced(o, slots).peak
    ensures |starts| + skipped == Count(o)
    ensures peakInflight <= o.maxInflight
  {
    starts, skipped, peakInflight := [], 0, 0;
    var pending: nat, index := 0, 0;
    while index < Count(o)
      invariant index <= Count(o)
      invariant Tally(starts, skipped, pending, peakInflight, false) == Paced(o, slots[..index])
      invariant |starts| + skipped == index
      invariant pending <= peakInflight <= o.maxInflight
    {
      var slot := slots[index];
      assert LawfulSlot(o, index, slot, early);
      assert slots[..index + 1][..index] == slots[..index];
      ghost var before := Tally(starts, skipped, pending, peakInflight, false);
      var wait := Due(o, index) - slot.before;
      if wait > 0.0 {
        pending := Less(pending, slot.finished);
      }
      assert pending == Less(before.inflight, slot.finished);
      if slot.after >= (o.durationSeconds * 1000) as real {
        skipped := skipped + (Count(o) - index);
        StoppedStays(o, slots, index + 1);
        return;
      }
      if pending >= o.maxInflight || slot.check > Due(o, index + 1) {
        skipped := skipped + 1;
      } else {
        starts := starts + [Start(index, slot.check)];
        pending := pending + 1;
        peakInflight := Max(peakInflight, pending);
      }
      assert Tally(starts, skipped, pending, peakInflight, false) == SlotStep(o, before, index, slot);
      index := index + 1;
    }
    assert slots[..|slots|] == slots;
  }

  lemma {:induction false} StoppedStays(o: Options, slots: seq<Slot>, n: nat)
    requires o.rps >= 1 && n <= |slots| && Paced(o, slots[..n]).stopped
    ensures Paced(o, slots) == Paced(o, slots[..n])
  {
    if n == |slots| {
      assert slots[..n] == slots;
    } else {
      var front := slots[..|slots| - 1];
      assert front[..n] == slots[..n];
      StoppedStays(o, front, n);
    }
  }

  // ---------- which slots send ----------

  /** Requests finished during the waits of these slots. */
  function Finished(slots: seq<Slot>): nat {
    if slots == [] then 0 else Finished(slots[..|slots| - 1]) + slots[|slots| - 1].finished
  }

  /** No slot's wait sees more requests finish than were started and had not finished. */
  predicate Finishing(o: Options, slots: seq<Slot>)
    requires o.rps >= 1
  {
    forall i :: 0 <= i < |slots| ==>
        Finished(slots[..i]) + slots[i].finished <= |Paced(o, slots[..i]).starts|
  }

  /** The measurement's time was up at some slot. */
  predicate TimeUp(o: Options, slots: seq<Slot>) {
    exists i :: 0 <= i < |slots| && slots[i].after >= (o.durationSeconds * 1000) as real
  }

  /** The loop's own counts are those of its starts and of the requests that finished. */
  lemma {:induction false} InflightIsCounted(o: Options, slots: seq<Slot>)
    requires o.rps >= 1 && Finishing(o, slots)
    ensures var t := Paced(o, slots);
            && t.stopped == TimeUp(o, slots)
            && (!t.stopped ==> t.inflight == |t.starts| - Finished(slots))
  {
    if slots != [] {
      var n: nat := |slots| - 1;
      var front := slots[..n];
      FinishingBefore(o, slots, n);
      InflightIsCounted(o, front);
      SlotPush(o, front, slots[n]);
      assert slots == front + [slots[n]];
      StepSends(o, Paced(o, front), n, slots[n], Finished(front));
    }
  }

  /** What one more slot does to the counts. */
  lemma SlotPush(o: Options, slots: seq<Slot>, slot: Slot)
    requires o.rps >= 1
    ensures Paced(o, slots + [slot]) == SlotStep(o, Paced(o, slots), |slots|, slot)
    ensures Finished(slots + [slot]) == Finished(slots) + slot.finished
    ensures TimeUp(o, slots + [slot]) <==> TimeUp(o, slots) || slot.after >= (o.durationSeconds * 1000) as real
  {
    assert (slots + [slot])[..|slots|] == slots;
    TimeUpPush(o, slots, slot);
  }

  /**
   * After any slots, the next one sends its request if and only if the time is not up, fewer than the allowed number
   * are in flight, and the slot has not passed.
   */
  lemma SlotSendsIff(o: Options, slots: seq<Slot>, slot: Slot)
    requires o.rps >= 1 && Finishing(o, slots) && Finished(slots) + slot.finished <= |Paced(o, slots).starts|
    ensures Paced(o, slots + [slot]).starts == Paced(o, slots).starts +
              if !TimeUp(o, slots + [slot])
                 && |Paced(o, slots).starts| - Finished(slots + [slot]) < o.maxInflight
                 && slot.check <= Due(o, |slots| + 1)
              then [Start(|slots|, slot.check)] else []
  {
    InflightIsCounted(o, slots);
    SlotPush(o, slots, slot);
    StepSends(o, Paced(o, slots), |slots|, slot, Finished(slots));
  }

  lemma FinishingBefore(o: Options, slots: seq<Slot>, index: nat)
    requires o.rps >= 1 && index < |slots| && Finishing(o, slots)
    ensures Finishing(o, slots[..index])
    ensures Finished(slots[..index]) + slots[index].finished <= |Paced(o, slots[..index]).starts|
  {
    assert forall i :: 0 <= i < index ==> slots[..index][..i] == slots[..i] && slots[..index][i] == slots[i];
  }

  lemma StepSends(o: Options, t: Tally, index: nat, slot: Slot, finished: nat)
    requires o.rps >= 1 && finished + slot.finished <= |t.starts|
    requires !t.stopped ==> t.inflight == |t.starts| - finished
    ensures SlotStep(o, t, index, slot).starts == t.starts +
              if !t.stopped && slot.after < (o.durationSeconds * 1000) as real
                 && |t.starts| - (finished + slot.finished) < o.maxInflight && slot.check <= Due(o, index + 1)
              then [Start(index, slot.check)] else []
    ensures var next := SlotStep(o, t, index, slot);
            && next.stopped == (t.stopped || slot.after >= (o.durationSeconds * 1000) as real)
            && (!next.stopped ==> next.inflight == |next.starts| - (finished + slot.finished))
  {
  }

  lemma TimeUpPush(o: Options, slots: seq<Slot>, slot: Slot)
    ensures TimeUp(o, slots + [slot]) <==>
            TimeUp(o, slots) || slot.after >= (o.durationSeconds * 1000) as real
  {
    assert (slots + [slot])[|slots|] == slot;
    if i :| 0 <= i < |slots| && slots[i].after >= (o.durationSeconds * 1000) as real {
      assert (slots + [slot])[i] == slots[i];
    }
  }

  /** The most requests in flight after any of the slots before the time was up. */
  function MostInFlight(o: Options, slots: seq<Slot>): nat
    requires o.rps >= 1
  {
    if slots == [] then 0
    else
      var before := MostInFlight(o, slots[..|slots| - 1]);
      if TimeUp(o, slots) then before else Max(before, Less(|Paced(o, slots).starts|, Finished(slots)))
  }

  /** The peak that is reported is the most that were ever in flight. */
  lemma {:induction false} PeakIsReached(o: Options, slots: seq<Slot>)
    requires o.rps >= 1 && Finishing(o, slots)
    ensures Paced(o, slots).peak == MostInFlight(o, slots)
    ensures Paced(o, slots).inflight <= MostInFlight(o, slots)
  {
    if slots != [] {
      var n: nat := |slots| - 1;
      FinishingBefore(o, slots, n);
      PeakIsReached(o, slots[..n]);
      PeakStep(o, slots[..n], slots[n]);
      assert slots == slots[..n] + [slots[n]];
    }
  }

  lemma PeakStep(o: Options, front: seq<Slot>, slot: Slot)
    requires o.rps >= 1 && Finishing(o, front) && Finished(front) + slot.finished <= |Paced(o, front).starts|
    requires Paced(o, front).peak == MostInFlight(o, front) >= Paced(o, front).inflight
    ensures var t := Paced(o, front + [slot]); t.peak == MostInFlight(o, front + [slot]) >= t.inflight
  {
    SlotPeaks(o, front, slot);
    MostPush(o, front, slot);
  }

  lemma MostPush(o: Options, front: seq<Slot>, slot: Slot)
    requires o.rps >= 1
    ensures MostInFlight(o, front + [slot])
         == if TimeUp(o, front + [slot]) then MostInFlight(o, front)
            else Max(MostInFlight(o, front), Less(|Paced(o, front + [slot]).starts|, Finished(front + [slot])))
  {
    assert (front + [slot])[..|front|] == front;
  }

  /** One more slot moves the peak to what is in flight after it, if that is more. */
  lemma SlotPeaks(o: Options, front: seq<Slot>, slot: Slot)
    requires o.rps >= 1 && Finishing(o, front) && Finished(front) + slot.finished <= |Paced(o, front).starts|
    requires Paced(o, front).inflight <= Paced(o, front).peak
    ensures var t := Paced(o, front + [slot]);
            && t.inflight <= t.peak
            && t.peak == if TimeUp(o, front + [slot]) then Paced(o, front).peak
                         else Max(Paced(o, front).peak, Less(|t.starts|, Finished(front + [slot])))
  {
    InflightIsCounted(o, front);
    SlotPush(o, front, slot);
    StepPeaks(o, Paced(o, front), |front|, slot, Finished(front));
  }

  lemma StepPeaks(o: Options, t: Tally, index: nat, slot: Slot, finished: nat)
    requires o.rps >= 1 && finished + slot.finished <= |t.starts| && t.inflight <= t.peak
    requires !t.stopped ==> t.inflight == |t.starts| - finished
    ensures var next := SlotStep(o, t, index, slot);
            && next.inflight <= next.peak
            && next.peak == if t.stopped || slot.after >= (o.durationSeconds * 1000) as real then t.peak
                            else Max(t.peak, Less(|next.starts|, finished + slot.finished))
  {
  }

  // ---------- the rate ----------

  ghost predicate InSlot(o: Options, start: Start, early: real)
    requires o.rps >= 1
  {
    Due(o, start.index) - early <= start.at <= Due(o, start.index + 1)
  }

  ghost predicate Slotted(o: Options, starts: seq<Start>, n: nat, early: real)
    requires o.rps >= 1
  {
    && (forall i :: 0 <= i < |starts| ==> starts[i].index < n && InSlot(o, starts[i], early))
    && (forall i, j :: 0 <= i < j < |starts| ==> starts[i].index < starts[j].index)
  }

  /** A request leaves within its own slot, however late the loop wakes, and no slot sends two. */
  lemma {:induction false} StartsKeepTheirSlots(o: Options, slots: seq<Slot>, early: real)
    requires Runs(o) && early >= 0.0 && forall i :: 0 <= i < |slots| ==> LawfulSlot(o, i, slots[i], early)
    ensures Slotted(o, Paced(o, slots).starts, |slots|, early)
  {
    if slots != [] {
      var n := |slots| - 1;
      StartsKeepTheirSlots(o, slots[..n], early);
      var before, starts := Paced(o, slots[..n]), Paced(o, slots).starts;
      if starts != before.starts {
        StartInSlot(o, before, n, slots[n], early);
        SlottedPush(o, before.starts, n, early, slots[n].check);
      }
    }
  }

  lemma SlottedPush(o: Options, starts: seq<Start>, n: nat, early: real, at: real)
    requires o.rps >= 1 && Slotted(o, starts, n, early) && InSlot(o, Start(n, at), early)
    ensures Slotted(o, starts + [Start(n, at)], n + 1, early)
  {
  }

  lemma StartInSlot(o: Options, t: Tally, index: nat, slot: Slot, early: real)
    requires Runs(o) && early >= 0.0 && LawfulSlot(o, index, slot, early)
    requires SlotStep(o, t, index, slot).starts != t.starts
    ensures SlotStep(o, t, index, slot).starts == t.starts + [Start(index, slot.check)]
    ensures InSlot(o, Start(index, slot.check), early)
  {
  }

  lemma {:induction false} IndexGap(starts: seq<Start>, a: nat, b: nat)
    requires a <= b < |starts| && forall i, j :: 0 <= i < j < |starts| ==> starts[i].index < starts[j].index
    ensures starts[b].index - starts[a].index >= b - a
    decreases b
  {
    if a < b {
      IndexGap(starts, a, b - 1);
    }
  }

  lemma Slots(n: int, m: int, period: real)
    requires n <= m && period > 0.0
    ensures n as real * period <= m as real * period
  {
  }

  /** Any closed interval of length `T` holds at most floor((T + early) / period) + 2 requests: no catching up. */
  lemma RateBound(o: Options, slots: seq<Slot>, early: real, a: nat, b: nat, from: real, T: real)
    requires Runs(o) && Lawful(o, slots, early)
    requires a <= b < |Paced(o, slots).starts|
    requires from <= Paced(o, slots).starts[a].at && Paced(o, slots).starts[b].at <= from + T
    ensures b - a + 1 <= ((T + early) / Period(o)).Floor + 2
  {
    var starts := Paced(o, slots).starts;
    StartsKeepTheirSlots(o, slots, early);
    IndexGap(starts, a, b);
    StartsApart(o, starts[a], starts[b], b - a, early, T);
  }

  lemma StartsApart(o: Options, first: Start, last: Start, gap: nat, early: real, T: real)
    requires o.rps >= 1 && InSlot(o, first, early) && InSlot(o, last, early)
    requires last.index - first.index >= gap && last.at - first.at <= T
    ensures gap + 1 <= ((T + early) / Period(o)).Floor + 2
  {
    SlotsApart(first.index, last.index, gap, Period(o), T + early);
  }

  lemma SlotsApart(first: nat, last: nat, gap: nat, period: real, span: real)
    requires period > 0.0 && last - first >= gap
    requires last as real * period - (first + 1) as real * period <= span
    ensures gap + 1 <= (span / period).Floor + 2
  {
    assert last as real * period - (first + 1) as real * period == (last - first - 1) as real * period;
    Slots(gap - 1, last - first - 1, period);
    Within(gap - 1, span, period);
  }

  lemma Within(n: int, x: real, period: real)
    requires period > 0.0 && n as real * period <= x
    ensures n <= (x / period).Floor
  {
    var ratio := x / period;
    assert ratio * period == x;
    assert (ratio - n as real) * period >= 0.0;
    Positive(ratio - n as real, period);
  }

  lemma Positive(x: real, y: real)
    requires x * y >= 0.0 && y > 0.0
    ensures x >= 0.0
  {
  }

  /** The loop woke late for its first slot only, and every other timer fired on time. */
  function LateOnce(o: Options): seq<Slot>
    requires o.rps >= 1
  {
    seq(Count(o), i requires 0 <= i < Count(o) =>
      if i == 0 then Slot(0.0, 0.0, Period(o), 0) else Slot(Due(o, i), Due(o, i), Due(o, i), 0))
  }

  lemma DueGrows(o: Options, i: nat, j: nat)
    requires o.rps >= 1 && i <= j
    ensures Due(o, i) <= Due(o, j)
  {
    Slots(i, j, Period(o));
  }

  lemma LateOnceIsLawful(o: Options)
    requires Runs(o)
    ensures Lawful(o, LateOnce(o), 0.0)
  {
    var slots := LateOnce(o);
    assert Due(o, 0) == 0.0 && Due(o, 1) == Period(o);
    forall i, j | 0 <= i < j < |slots| ensures slots[i].check <= slots[j].before {
      DueGrows(o, i, j);
      DueGrows(o, 1, j);
    }
    assert forall i :: 0 <= i < |slots| ==> LawfulSlot(o, i, slots[i], 0.0);
  }

  lemma {:induction false} StartsGrow(o: Options, slots: seq<Slot>, n: nat)
    requires o.rps >= 1 && n <= |slots|
    ensures Paced(o, slots[..n]).starts <= Paced(o, slots).starts
  {
    if n == |slots| {
      assert slots[..n] == slots;
    } else {
      var front := slots[..|slots| - 1];
      assert front[..n] == slots[..n];
      StartsGrow(o, front, n);
    }
  }

  lemma FirstDues(o: Options)
    requires o.rps >= 2
    ensures Due(o, 0) == 0.0 && Due(o, 1) == Period(o) < Due(o, 2) && Period(o) < 1000.0
  {
    assert Due(o, 2) == Period(o) + Period(o);
    Slots(2, o.rps, Period(o));
  }

  /** A first slot that woke late and a second that woke on time both start their request. */
  lemma TwoSlots(o: Options, first: Slot, second: Slot, at: real)
    requires Runs(o) && o.maxInflight >= 2
    requires first == Slot(0.0, 0.0, at, 0) && second == Slot(at, at, at, 0)
    requires 0.0 <= at < 1000.0 && at <= Due(o, 1) && at <= Due(o, 2)
    ensures Paced(o, [first, second]).starts == [Start(0, at), Start(1, at)]
  {
    assert [first, second][..1] == [first] && [first][..0] == [];
    var one := SlotStep(o, Tally([], 0, 0, 0, false), 0, first);
    assert Paced(o, [first]) == one == Tally([Start(0, at)], 0, 1, 1, false);
    assert Paced(o, [first, second]) == SlotStep(o, one, 1, second);
  }

  /** The bound is reached: in a lawful run two requests leave at the same instant, at the seam of their slots. */
  lemma TwoAtOneInstant(o: Options) returns (slots: seq<Slot>)
    requires Runs(o) && o.rps >= 2 && o.maxInflight >= 2
    ensures Lawful(o, slots, 0.0)
    ensures var starts := Paced(o, slots).starts; |starts| >= 2 && starts[0].at == starts[1].at
  {
    slots := LateOnce(o);
    LateOnceIsLawful(o);
    FirstDues(o);
    assert Count(o) >= 2;
    TwoSlots(o, slots[0], slots[1], Period(o));
    assert slots[..2] == [slots[0], slots[1]];
    StartsGrow(o, slots, 2);
  }

  // ---------- the percentiles ----------

  function Ceil(x: real): int {
    -((-x).Floor)
  }

  /** The place in the sorted latencies. */
  function Rank(n: nat, p: real): nat {
    var r := Ceil(n as real * p) - 1;
    if r < 0 then 0 else r
  }

  function AtMost(xs: seq<real>, v: real): nat {
    if xs == [] then 0 else AtMost(xs[..|xs| - 1], v) + if xs[|xs| - 1] <= v then 1 else 0
  }

  function Below(xs: seq<real>, v: real): nat {
    if xs == [] then 0 else Below(xs[..|xs| - 1], v) + if xs[|xs| - 1] < v then 1 else 0
  }

  ghost predicate Sorted(xs: seq<real>) {
    forall i, j :: 0 <= i < j < |xs| ==> xs[i] <= xs[j]
  }

  lemma {:induction false} SortedCounts(xs: seq<real>, k: nat)
    requires Sorted(xs) && k < |xs|
    ensures AtMost(xs, xs[k]) >= k + 1 && Below(xs, xs[k]) <= k
  {
    var front := xs[..|xs| - 1];
    if k == |xs| - 1 {
      AllCounted(front, xs[k]);
    } else {
      SortedCounts(front, k);
    }
  }

  lemma {:induction false} AllCounted(xs: seq<real>, v: real)
    requires forall i :: 0 <= i < |xs| ==> xs[i] <= v
    ensures AtMost(xs, v) == |xs| && Below(xs, v) <= |xs|
  {
    if xs != [] {
      AllCounted(xs[..|xs| - 1], v);
    }
  }

  lemma {:induction false} CountsConcat(a: seq<real>, b: seq<real>, v: real)
    ensures AtMost(a + b, v) == AtMost(a, v) + AtMost(b, v) && Below(a + b, v) == Below(a, v) + Below(b, v)
  {
    if b == [] {
      assert a + b == a;
    } else {
      assert (a + b)[..|a + b| - 1] == a + b[..|b| - 1];
      CountsConcat(a, b[..|b| - 1], v);
    }
  }

  lemma CountsWithout(xs: seq<real>, i: nat, v: real)
    requires i < |xs|
    ensures var rest := xs[..i] + xs[i + 1..];
            && multiset(xs) == multiset(rest) + multiset{xs[i]}
            && AtMost(xs, v) == AtMost(rest, v) + (if xs[i] <= v then 1 else 0)
            && Below(xs, v) == Below(rest, v) + (if xs[i] < v then 1 else 0)
  {
    assert xs == xs[..i] + [xs[i]] + xs[i + 1..];
    CountsConcat(xs[..i] + [xs[i]], xs[i + 1..], v);
    assert (xs[..i] + [xs[i]])[..i] == xs[..i];
    CountsConcat(xs[..i], xs[i + 1..], v);
  }

  lemma {:induction false} CountsOfSame(a: seq<real>, b: seq<real>, v: real)
    requires multiset(a) == multiset(b)
    ensures AtMost(a, v) == AtMost(b, v) && Below(a, v) == Below(b, v)
    decreases |a|
  {
    if a == [] {
      assert |multiset(b)| == 0;
    } else {
      var front, last := a[..|a| - 1], a[|a| - 1];
      assert a == front + [last];
      assert last in multiset(b);
      var i :| 0 <= i < |b| && b[i] == last;
      CountsWithout(b, i, v);
      var rest := b[..i] + b[i + 1..];
      CancelOne(multiset(front), multiset(rest), last);
      CountsOfSame(front, rest, v);
    }
  }

  /**
   * The reported percentile is the nearest rank: at least the share `p` of the latencies is at most it, and less than
   * that share is below it.
   */
  lemma NearestRank(latencies: seq<real>, sorted: seq<real>, p: real)
    requires latencies != [] && Sorted(sorted) && multiset(sorted) == multiset(latencies) && 0.0 < p <= 1.0
    ensures |sorted| == |latencies| && Rank(|latencies|, p) < |sorted|
    ensures Splits(latencies, sorted[Rank(|latencies|, p)], p)
  {
    SameLength(latencies, sorted);
    RankInRange(|latencies|, p);
    RankedAt(latencies, sorted, p, Rank(|latencies|, p));
  }

  ghost predicate Splits(latencies: seq<real>, v: real, p: real) {
    && AtMost(latencies, v) as real >= |latencies| as real * p
    && (Below(latencies, v) as real < |latencies| as real * p)
  }

  lemma SameLength(a: seq<real>, b: seq<real>)
    requires multiset(a) == multiset(b)
    ensures |a| == |b|
  {
    assert |a| == |multiset(a)| == |multiset(b)| == |b|;
  }

  lemma RankedAt(latencies: seq<real>, sorted: seq<real>, p: real, k: nat)
    requires Sorted(sorted) && multiset(sorted) == multiset(latencies) && 0.0 < p <= 1.0
    requires latencies != [] && k == Rank(|latencies|, p) && k < |sorted|
    ensures Splits(latencies, sorted[k], p)
  {
    NearestCounts(latencies, sorted, k);
    RankSplits(|latencies|, p, AtMost(latencies, sorted[k]), Below(latencies, sorted[k]));
  }

  lemma RankInRange(n: nat, p: real)
    requires n >= 1 && 0.0 < p <= 1.0
    ensures Rank(n, p) < n
  {
    RankBounds(n, p);
  }

  lemma RankSplits(n: nat, p: real, atMost: nat, below: nat)
    requires n >= 1 && 0.0 < p <= 1.0 && atMost >= Rank(n, p) + 1 && below <= Rank(n, p)
    ensures atMost as real >= n as real * p && below as real < n as real * p
  {
    RankBounds(n, p);
  }

  lemma NearestCounts(latencies: seq<real>, sorted: seq<real>, k: nat)
    requires Sorted(sorted) && multiset(sorted) == multiset(latencies) && k < |sorted|
    ensures AtMost(latencies, sorted[k]) >= k + 1 && Below(latencies, sorted[k]) <= k
  {
    SortedCounts(sorted, k);
    CountsOfSame(sorted, latencies, sorted[k]);
  }

  lemma RankBounds(n: nat, p: real)
    requires n >= 1 && 0.0 < p <= 1.0
    ensures Rank(n, p) < n && Rank(n, p) as real < n as real * p <= (Rank(n, p) + 1) as real
  {
    Shrinks(n as real, p);
    var x := n as real * p;
    assert (Ceil(x) - 1) as real < x <= Ceil(x) as real;
  }

  lemma Shrinks(n: real, p: real)
    requires n > 0.0 && 0.0 < p <= 1.0
    ensures 0.0 < n * p <= n
  {
  }
}
