/**
 * The fixed-window rate limiter over a table of counters (lib/rate-limit.ts). Times are microseconds of the database
 * clock, which never runs backwards between statements.
 */
module RateLimit {
  datatype Key = Key(text: string)

  datatype Row = Row(count: nat, resetAt: int)

  type Table = map<Key, Row>

  datatype Event = Call(key: Key, limit: int, windowMs: int, at: int) | Prune(at: int)

  const SECOND: int := 1_000_000
  const DAY: int := 86_400 * SECOND

  /** `Math.max(1, Math.round(windowMs / 1000))` seconds; half a second rounds up. */
  function Window(windowMs: int): (r: int)
    ensures r >= SECOND && r % SECOND == 0
    ensures windowMs < 1_500 ==> r == SECOND
    ensures windowMs >= 500 ==> 2 * windowMs * 1000 - SECOND < 2 * r <= 2 * windowMs * 1000 + SECOND
  {
    var seconds := (windowMs + 500) / 1000;
    (if seconds < 1 then 1 else seconds) * SECOND
  }

  predicate Live(rows: Table, key: Key, now: int) {
    key in rows && rows[key].resetAt >= now
  }

  /** The row a call leaves behind. */
  function Counted(rows: Table, key: Key, windowMs: int, now: int): Row {
    if Live(rows, key, now) then Row(rows[key].count + 1, rows[key].resetAt) else Row(1, now + Window(windowMs))
  }

  function Pruned(rows: Table, now: int): Table {
    map key | key in rows && !(rows[key].resetAt < now - DAY) :: rows[key]
  }

  function After(rows: Table, event: Event): Table {
    match event
    case Call(key, _, windowMs, at) => rows[key := Counted(rows, key, windowMs, at)]
    case Prune(at) => Pruned(rows, at)
  }

  predicate Accepts(rows: Table, key: Key, limit: int, windowMs: int, now: int) {
    Counted(rows, key, windowMs, now).count <= limit
  }

  class RateLimits {
    var rows: Table

    /** One statement inserts the row or counts it up. */
    method RateLimit(key: Key, limit: int, windowMs: int, now: int) returns (ok: bool)
      modifies this
      ensures rows == After(old(rows), Call(key, limit, windowMs, now))
      ensures ok == Accepts(old(rows), key, limit, windowMs, now)
    {
      if key !in rows {
        rows := rows[key := Row(1, now + Window(windowMs))];
      } else {
        var row := rows[key];
        var count := if row.resetAt < now then 1 else row.count + 1;
        var resetAt := if row.resetAt < now then now + Window(windowMs) else row.resetAt;
        rows := rows[key := Row(count, resetAt)];
      }
      ok := rows[key].count <= limit;
    }

    method PruneExpired(now: int) returns (deleted: nat)
      modifies this
      ensures rows == After(old(rows), Prune(now))
      ensures deleted == |old(rows)| - |rows|
    {
      var gone := set key | key in rows && rows[key].resetAt < now - DAY;
      assert rows.Keys == gone + (rows - gone).Keys;
      deleted := |gone|;
      rows := rows - gone;
    }
  }

  /** The answers to the calls of a run, in order. */
  function Answers(rows: Table, events: seq<Event>): seq<bool>
    decreases |events|
  {
    if events == [] then []
    else
      (match events[0]
       case Call(key, limit, windowMs, at) => [Accepts(rows, key, limit, windowMs, at)]
       case Prune(_) => []) + Answers(After(rows, events[0]), events[1..])
  }

  function CallsOf(events: seq<Event>): (r: seq<Event>)
    ensures forall e :: e in r ==> e.Call? && e in events
  {
    if events == [] then [] else (if events[0].Call? then [events[0]] else []) + CallsOf(events[1..])
  }

  /** The clock reads at least `from` and never goes back. */
  predicate Forward(events: seq<Event>, from: int) {
    events != [] ==> events[0].at >= from && Forward(events[1..], events[0].at)
  }

  lemma {:induction false} ForwardEarlier(events: seq<Event>, from: int, earlier: int)
    requires Forward(events, from) && earlier <= from
    ensures Forward(events, earlier)
  {
  }

  // ---------- pruning is invisible ----------

  /** Two tables with the same rows still in their window. */
  ghost predicate SameLive(a: Table, b: Table, now: int) {
    forall key :: (Live(a, key, now) <==> Live(b, key, now)) && (Live(a, key, now) ==> a[key] == b[key])
  }

  lemma {:induction false} SameLiveAnswers(a: Table, b: Table, events: seq<Event>, now: int)
    requires SameLive(a, b, now) && Forward(events, now)
    ensures Answers(a, events) == Answers(b, CallsOf(events))
    decreases |events|
  {
    if events != [] {
      var event := events[0];
      assert SameLive(a, b, event.at);
      if event.Call? {
        var rest := CallsOf(events[1..]);
        assert CallsOf(events)[0] == event && CallsOf(events)[1..] == rest;
        var a', b' := After(a, event), After(b, event);
        assert Counted(a, event.key, event.windowMs, event.at) == Counted(b, event.key, event.windowMs, event.at);
        assert SameLive(a', b', event.at);
        SameLiveAnswers(a', b', events[1..], event.at);
      } else {
        assert CallsOf(events) == CallsOf(events[1..]);
        assert SameLive(After(a, event), b, event.at);
        SameLiveAnswers(After(a, event), b, events[1..], event.at);
        assert Answers(a, events) == Answers(After(a, event), events[1..]);
      }
    }
  }

  /** Wherever prune steps stand in two runs of the same calls, every call gets the same answer. */
  lemma PruningIsInvisible(rows: Table, events: seq<Event>, others: seq<Event>, now: int)
    requires Forward(events, now) && Forward(others, now) && CallsOf(events) == CallsOf(others)
    ensures Answers(rows, events) == Answers(rows, others)
  {
    SameLiveAnswers(rows, rows, events, now);
    SameLiveAnswers(rows, rows, others, now);
  }

  /** Deleting one row goes unnoticed by every later call exactly when the row's window is over. */
  lemma DeletionInvisibleIff(rows: Table, key: Key, now: int)
    requires key in rows && rows[key].count >= 1
    ensures rows[key].resetAt < now <==>
            forall other, limit, windowMs, at :: at >= now ==>
              Accepts(rows - {key}, other, limit, windowMs, at) == Accepts(rows, other, limit, windowMs, at)
  {
    if rows[key].resetAt >= now {
      var limit := rows[key].count;
      assert !Accepts(rows, key, limit, 0, now);
      assert Accepts(rows - {key}, key, limit, 0, now);
    }
  }

  // ---------- how many calls get through ----------

  predicate Uses(event: Event, key: Key, limit: int, windowMs: int) {
    event.Call? && event.key == key ==> event.limit == limit && event.windowMs == windowMs
  }

  /** The answers to the calls for one key. */
  function AnswersFor(rows: Table, events: seq<Event>, key: Key): seq<bool>
    decreases |events|
  {
    if events == [] then []
    else
      (if events[0].Call? && events[0].key == key
       then [Accepts(rows, key, events[0].limit, events[0].windowMs, events[0].at)] else [])
      + AnswersFor(After(rows, events[0]), events[1..], key)
  }

  /** The first `n` answers are yes, all later ones no. */
  predicate YesUntil(answers: seq<bool>, n: int) {
    forall i :: 0 <= i < |answers| ==> answers[i] == (i < n)
  }

  /** Whatever else happens, a live row admits its next calls until the limit and no further. */
  lemma {:induction false} LiveWindowCounts(rows: Table, events: seq<Event>, key: Key, limit: int, windowMs: int,
                                            now: int)
    requires Live(rows, key, now) && Forward(events, now)
    requires forall e :: e in events ==> Uses(e, key, limit, windowMs) && e.at <= rows[key].resetAt
    ensures YesUntil(AnswersFor(rows, events, key), limit - rows[key].count)
    decreases |events|
  {
    if events != [] {
      var event := events[0];
      var rows' := After(rows, event);
      assert event in events;
      assert Uses(event, key, limit, windowMs);
      assert Live(rows', key, event.at) && rows'[key].resetAt == rows[key].resetAt;
      assert forall e :: e in events[1..] ==> e in events;
      LiveWindowCounts(rows', events[1..], key, limit, windowMs, event.at);
      var later := AnswersFor(rows', events[1..], key);
      if event.Call? && event.key == key {
        assert AnswersFor(rows, events, key) == [rows[key].count + 1 <= limit] + later;
        YesUntilPush(later, limit - rows[key].count);
      } else {
        assert AnswersFor(rows, events, key) == later;
      }
    }
  }

  lemma YesUntilPush(answers: seq<bool>, n: int)
    requires YesUntil(answers, n - 1)
    ensures YesUntil([1 <= n] + answers, n)
  {
    var longer := [1 <= n] + answers;
    assert forall i :: 1 <= i < |longer| ==> longer[i] == answers[i - 1];
  }

  /** A window opens with a call that finds no live row; it accepts exactly the first `limit` calls made in it. */
  lemma WindowAcceptsItsFirst(rows: Table, events: seq<Event>, key: Key, limit: int, windowMs: int)
    requires events != [] && events[0].Call? && events[0].key == key
    requires !Live(rows, key, events[0].at) && Forward(events, events[0].at)
    requires forall e :: e in events ==> Uses(e, key, limit, windowMs) && e.at <= events[0].at + Window(windowMs)
    ensures AnswersFor(rows, events, key) != [] && YesUntil(AnswersFor(rows, events, key), limit)
  {
    var event := events[0];
    assert event in events;
    assert Uses(event, key, limit, windowMs);
    var rows' := After(rows, event);
    assert forall e :: e in events[1..] ==> e in events;
    LiveWindowCounts(rows', events[1..], key, limit, windowMs, event.at);
    YesUntilPush(AnswersFor(rows', events[1..], key), limit);
    assert AnswersFor(rows, events, key) == [1 <= limit] + AnswersFor(rows', events[1..], key);
  }

  /** The accepted calls for `key` at times within `[lo, hi]`. */
  function AcceptedWithin(rows: Table, events: seq<Event>, key: Key, lo: int, hi: int): nat
    decreases |events|
  {
    if events == [] then 0
    else
      var e := events[0];
      (if e.Call? && e.key == key && lo <= e.at <= hi && Accepts(rows, key, e.limit, e.windowMs, e.at) then 1 else 0)
      + AcceptedWithin(After(rows, e), events[1..], key, lo, hi)
  }

  function AtLeastZero(x: int): nat {
    if x < 0 then 0 else x
  }

  /** What a key's row still admits from `now` on within `[lo, hi]`, one window length apart. */
  function Quota(rows: Table, key: Key, limit: int, lo: int, hi: int, now: int): nat {
    if now > hi then 0
    else if key !in rows || rows[key].resetAt < lo then 2 * AtLeastZero(limit)
    else if rows[key].resetAt < hi then AtLeastZero(limit - rows[key].count) + AtLeastZero(limit)
    else AtLeastZero(limit - rows[key].count)
  }

  lemma {:induction false} CallsWithinQuota(rows: Table, calls: seq<Event>, key: Key, limit: int, windowMs: int,
                                            lo: int, now: int)
    requires Forward(calls, now) && forall e :: e in calls ==> e.Call? && Uses(e, key, limit, windowMs)
    ensures AcceptedWithin(rows, calls, key, lo, lo + Window(windowMs))
            <= Quota(rows, key, limit, lo, lo + Window(windowMs), now)
    decreases |calls|
  {
    if calls != [] {
      assert calls[0] in calls;
      assert Uses(calls[0], key, limit, windowMs);
      assert forall e :: e in calls[1..] ==> e in calls;
      CallsWithinQuota(After(rows, calls[0]), calls[1..], key, limit, windowMs, lo, calls[0].at);
    }
  }

  /** Removing prune steps changes no count either. */
  lemma {:induction false} SameAccepted(a: Table, b: Table, events: seq<Event>, key: Key, lo: int, hi: int, now: int)
    requires SameLive(a, b, now) && Forward(events, now)
    ensures AcceptedWithin(a, events, key, lo, hi) == AcceptedWithin(b, CallsOf(events), key, lo, hi)
    decreases |events|
  {
    if events != [] {
      var event := events[0];
      assert SameLive(a, b, event.at);
      if event.Call? {
        assert CallsOf(events)[0] == event && CallsOf(events)[1..] == CallsOf(events[1..]);
        assert Counted(a, event.key, event.windowMs, event.at) == Counted(b, event.key, event.windowMs, event.at);
        assert SameLive(After(a, event), After(b, event), event.at);
        SameAccepted(After(a, event), After(b, event), events[1..], key, lo, hi, event.at);
      } else {
        assert CallsOf(events) == CallsOf(events[1..]);
        assert SameLive(After(a, event), b, event.at);
        SameAccepted(After(a, event), b, events[1..], key, lo, hi, event.at);
      }
    }
  }

  lemma {:induction false} CallsForward(events: seq<Event>, now: int)
    requires Forward(events, now)
    ensures Forward(CallsOf(events), now)
  {
    if events != [] {
      CallsForward(events[1..], events[0].at);
      if events[0].Call? {
        assert CallsOf(events)[0] == events[0] && CallsOf(events)[1..] == CallsOf(events[1..]);
      } else {
        assert CallsOf(events) == CallsOf(events[1..]);
        ForwardEarlier(CallsOf(events[1..]), events[0].at, now);
      }
    }
  }

  /** Any closed interval of one window length holds at most twice the limit, from any table and with pruning. */
  lemma AtMostTwiceTheLimit(rows: Table, events: seq<Event>, key: Key, limit: int, windowMs: int, lo: int, now: int)
    requires Forward(events, now) && limit >= 0
    requires forall e :: e in events ==> Uses(e, key, limit, windowMs)
    ensures AcceptedWithin(rows, events, key, lo, lo + Window(windowMs)) <= 2 * limit
  {
    SameAccepted(rows, rows, events, key, lo, lo + Window(windowMs), now);
    CallsForward(events, now);
    CallsWithinQuota(rows, CallsOf(events), key, limit, windowMs, lo, now);
  }

  // ---------- who is refused ----------

  /** A window ends at most one length after its row was last touched. */
  predicate WindowFits(rows: Table, key: Key, windowMs: int, now: int) {
    key in rows ==> rows[key].resetAt <= now + Window(windowMs)
  }

  /** The calls accepted so far in a window that is still live at `end`, as the row counts them. */
  function Credit(rows: Table, key: Key, limit: int, end: int): int {
    if key !in rows || rows[key].resetAt < end then 0
    else if rows[key].count <= limit then rows[key].count else limit
  }

  /** The last event is a call for the key, and it was refused. */
  predicate RefusedLast(rows: Table, events: seq<Event>, key: Key)
    decreases |events|
  {
    && events != []
    && if |events| == 1 then
         events[0].Call? && events[0].key == key
         && !Accepts(rows, key, events[0].limit, events[0].windowMs, events[0].at)
       else RefusedLast(After(rows, events[0]), events[1..], key)
  }

  lemma {:induction false} ForwardAt(events: seq<Event>, now: int)
    requires Forward(events, now) && events != []
    ensures now <= events[0].at <= events[|events| - 1].at
  {
    if |events| > 1 {
      ForwardAt(events[1..], events[0].at);
    }
  }

  lemma {:induction false} RefusalIsEarned(rows: Table, events: seq<Event>, key: Key, limit: int, windowMs: int,
                                           now: int)
    requires limit >= 1 && Forward(events, now) && RefusedLast(rows, events, key)
    requires WindowFits(rows, key, windowMs, now)
    requires key in rows ==> rows[key].count >= 1
    requires forall e :: e in events ==> Uses(e, key, limit, windowMs)
    ensures var end := events[|events| - 1].at;
            AcceptedWithin(rows, events, key, end - Window(windowMs), end) + Credit(rows, key, limit, end) >= limit
    decreases |events|
  {
    var event, end := events[0], events[|events| - 1].at;
    assert event in events;
    assert Uses(event, key, limit, windowMs);
    ForwardAt(events, now);
    if |events| > 1 {
      assert forall e :: e in events[1..] ==> e in events;
      RefusalIsEarned(After(rows, event), events[1..], key, limit, windowMs, event.at);
      CreditGrows(rows, event, key, limit, windowMs, now, end);
    }
  }

  /** One event adds to the credit at most what it accepts within the last window length. */
  lemma CreditGrows(rows: Table, event: Event, key: Key, limit: int, windowMs: int, now: int, end: int)
    requires limit >= 1 && now <= event.at <= end && WindowFits(rows, key, windowMs, now)
    requires Uses(event, key, limit, windowMs) && (key in rows ==> rows[key].count >= 1)
    ensures Credit(After(rows, event), key, limit, end) <= Credit(rows, key, limit, end)
            + (if event.Call? && event.key == key && end - Window(windowMs) <= event.at <= end
                  && Accepts(rows, key, event.limit, event.windowMs, event.at) then 1 else 0)
  {
  }

  /**
   * Nobody is refused early: a call for a key that had no row at first is refused only if the full limit was accepted
   * within the last window length before it.
   */
  lemma RefusedOnlyWhenUsedUp(rows: Table, events: seq<Event>, key: Key, limit: int, windowMs: int, now: int)
    requires limit >= 1 && key !in rows && Forward(events, now) && RefusedLast(rows, events, key)
    requires forall e :: e in events ==> Uses(e, key, limit, windowMs)
    ensures var end := events[|events| - 1].at;
            AcceptedWithin(rows, events, key, end - Window(windowMs), end) >= limit
  {
    RefusalIsEarned(rows, events, key, limit, windowMs, now);
  }

  // ---------- what pruning deletes ----------

  /** Pruning deletes exactly the rows whose window ended more than a day ago, and changes no other. */
  lemma PrunedIff(rows: Table, key: Key, now: int)
    ensures var kept := After(rows, Prune(now));
            && (key in rows && key !in kept <==> key in rows && now - rows[key].resetAt > DAY)
            && (key in kept ==> key in rows && kept[key] == rows[key])
  {
  }
}
