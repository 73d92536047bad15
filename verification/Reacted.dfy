/**
 * The products this browser rated anonymously and the record of what each account already took over
 * (components/feedback/reacted.ts).
 */
module Reacted {
  import opened Basics
  import opened Sequences

  type User = int

  const BROWSER_LIST_LIMIT: nat := 500
  const CHUNK: nat := 100

  datatype Store = Store(list: seq<Slug>, records: map<User, seq<Slug>>, later: set<User>)

  function First<T>(xs: seq<T>, n: nat): seq<T> {
    if |xs| <= n then xs else xs[..n]
  }

  /** How the stored list is read back: distinct, and no more than the limit. */
  function Slugs(stored: seq<Slug>): seq<Slug> {
    First(Dedup(stored), BROWSER_LIST_LIMIT)
  }

  function Record(s: Store, user: User): seq<Slug> {
    if user in s.records then s.records[user] else []
  }

  function Cleared(records: map<User, seq<Slug>>, slug: Slug): map<User, seq<Slug>> {
    map user | user in records :: NotIn(records[user], [slug])
  }

  datatype Event =
    | Remember(slug: Slug)
    | Forget(slug: Slug)
    | Prune(asked: seq<Slug>, found: seq<Slug>)
    | Merged(user: User, slugs: seq<Slug>)
    | Postpone(user: User)

  function After(s: Store, event: Event): Store {
    match event
    case Remember(slug) =>
      s.(list := First([slug] + NotIn(Slugs(s.list), [slug]), BROWSER_LIST_LIMIT), records := Cleared(s.records, slug))
    case Forget(slug) => s.(list := NotIn(Slugs(s.list), [slug]))
    case Prune(asked, found) =>
      if NotIn(asked, found) == [] then s else s.(list := NotIn(Slugs(s.list), NotIn(asked, found)))
    case Merged(user, slugs) =>
      s.(list := NotIn(Slugs(s.list), slugs),
         records := s.records[user := LastN(Dedup(Record(s, user) + slugs), BROWSER_LIST_LIMIT)])
    case Postpone(user) => s.(later := s.later + {user})
  }

  /** The slugs an account would be asked about. */
  function Asked(s: Store, user: User): seq<Slug> {
    if user in s.later then [] else NotIn(Slugs(s.list), Record(s, user))
  }

  /** What it is offered, once the lookup has answered or failed. */
  function Offered(s: Store, user: User, found: Option<seq<Slug>>): seq<Slug> {
    if Asked(s, user) == [] || found.None? then [] else found.value
  }

  /** The server answers about the slugs it was asked about. */
  predicate Answers(s: Store, user: User, found: Option<seq<Slug>>) {
    found.Some? ==> forall slug :: slug in found.value ==> slug in Asked(s, user)
  }

  // ---------- small facts about the filters ----------

  /** Leaving out one element of a list without repetitions shortens it by at most one. */
  lemma {:induction false} LosesOne<T(!new)>(ys: seq<T>, x: T)
    requires Distinct(ys)
    ensures |NotIn(ys, [x])| >= |ys| - 1
  {
    if ys != [] {
      var front, last := ys[..|ys| - 1], ys[|ys| - 1];
      if last == x {
        NotInAll(front, [x]);
      } else {
        LosesOne(front, x);
      }
    }
  }

  lemma SlugsOfSound(list: seq<Slug>)
    requires Distinct(list) && |list| <= BROWSER_LIST_LIMIT
    ensures Slugs(list) == list
  {
    DedupDistinct(list);
  }

  lemma KeptFits(stored: seq<Slug>, gone: seq<Slug>)
    ensures First(NotIn(Slugs(stored), gone), BROWSER_LIST_LIMIT) == NotIn(Slugs(stored), gone)
  {
    NotInMembers(Slugs(stored), gone);
  }

  // ---------- the operations ----------

  class BrowserReactions {
    var list: seq<Slug>
    var records: map<User, seq<Slug>>
    var later: set<User>

    ghost function Now(): Store
      reads this
    {
      Store(list, records, later)
    }

    method RememberReacted(slug: Slug)
      modifies this
      ensures Now() == After(old(Now()), Remember(slug))
    {
      list := First([slug] + NotIn(Slugs(list), [slug]), BROWSER_LIST_LIMIT);
      if exists user :: user in records && slug in records[user] {
        records := Cleared(records, slug);
      } else {
        forall user | user in records ensures NotIn(records[user], [slug]) == records[user] {
          NotInAll(records[user], [slug]);
        }
        assert Cleared(records, slug) == records;
      }
    }

    method ForgetReacted(slug: Slug)
      modifies this
      ensures Now() == After(old(Now()), Forget(slug))
    {
      var kept := NotIn(Slugs(list), [slug]);
      KeptFits(list, [slug]);
      list := First(kept, BROWSER_LIST_LIMIT);
    }

    method PruneReacted(asked: seq<Slug>, found: seq<Slug>)
      modifies this
      ensures Now() == After(old(Now()), Prune(asked, found))
    {
      var missing := NotIn(asked, found);
      if missing != [] {
        NotInMembers(Slugs(list), missing);
        list := First(NotIn(Slugs(list), missing), BROWSER_LIST_LIMIT);
      }
    }

    method PostponeReactionMerge(user: User)
      modifies this
      ensures Now() == After(old(Now()), Postpone(user))
    {
      later := later + {user};
    }

    /**
     * What to offer the account: nothing once it said later, otherwise what the server still knows of the listed slugs;
     * a failed lookup offers nothing and prunes nothing.
     */
    method BrowserReactionsToMerge(user: User, found: Option<seq<Slug>>) returns (offered: seq<Slug>)
      modifies this
      ensures offered == Offered(old(Now()), user, found)
      ensures Asked(old(Now()), user) == [] || found.None? ==> Now() == old(Now())
      ensures Asked(old(Now()), user) != [] && found.Some? ==>
                Now() == After(old(Now()), Prune(Asked(old(Now()), user), found.value))
    {
      if user in later { return []; }
      var slugs := NotIn(Slugs(list), if user in records then records[user] else []);
      if slugs == [] { return []; }
      if found.None? { return []; }
      PruneReacted(slugs, found.value);
      offered := found.value;
    }

    /** Sends the slugs in chunks; `replies` gives each request's merged count, or none when it fails. */
    method MergeBrowserReactions(user: User, slugs: seq<Slug>, replies: nat -> Option<int>)
      returns (merged: Option<int>)
      modifies this
      ensures merged.None? <==> exists i: nat :: i < Requests(|slugs|) && replies(i).None?
      ensures merged.None? ==> Now() == old(Now())
      ensures merged.Some? ==> Now() == After(old(Now()), Merged(user, slugs))
      ensures merged.Some? ==> merged.value == Total(replies, Requests(|slugs|))
    {
      var chunks := ReactedChunks(slugs);
      var count := 0;
      for i := 0 to |chunks|
        invariant forall j: nat :: j < i ==> replies(j).Some?
        invariant count == Total(replies, i)
        invariant Now() == old(Now())
      {
        var reply := replies(i);
        if reply.None? { return None; }
        count := count + reply.value;
      }
      RecordMerged(user, slugs);
      merged := Some(count);
    }

    /** Every chunk was accepted: the slugs join the account's record and leave the list. */
    method RecordMerged(user: User, slugs: seq<Slug>)
      modifies this`list, this`records
      ensures Now() == After(old(Now()), Merged(user, slugs))
    {
      var record := if user in records then records[user] else [];
      records := records[user := LastN(Dedup(record + slugs), BROWSER_LIST_LIMIT)];
      var kept := NotIn(Slugs(list), slugs);
      KeptFits(list, slugs);
      list := First(kept, BROWSER_LIST_LIMIT);
    }
  }

  function Requests(n: nat): nat {
    (n + CHUNK - 1) / CHUNK
  }

  function Total(replies: nat -> Option<int>, n: nat): int {
    if n == 0 then 0 else Total(replies, n - 1) + if replies(n - 1).Some? then replies(n - 1).value else 0
  }

  function Flat(chunks: seq<seq<Slug>>): seq<Slug> {
    if chunks == [] then [] else Flat(chunks[..|chunks| - 1]) + chunks[|chunks| - 1]
  }

  /** Chunks of a hundred in order: together the whole list, all but the last full, and none empty. */
  method ReactedChunks(slugs: seq<Slug>) returns (chunks: seq<seq<Slug>>)
    ensures Flat(chunks) == slugs
    ensures |chunks| == Requests(|slugs|)
    ensures forall i :: 0 <= i < |chunks| ==> 1 <= |chunks[i]| <= CHUNK && (i < |chunks| - 1 ==> |chunks[i]| == CHUNK)
  {
    chunks := [];
    var index := 0;
    while index < |slugs|
      invariant index == CHUNK * |chunks|
      invariant |chunks| <= Requests(|slugs|)
      invariant Flat(chunks) == First(slugs, index)
      invariant forall i :: 0 <= i < |chunks| ==>
                1 <= |chunks[i]| <= CHUNK && (i < |chunks| - 1 ==> |chunks[i]| == CHUNK)
      invariant index <= |slugs| ==> forall i :: 0 <= i < |chunks| ==> |chunks[i]| == CHUNK
    {
      var chunk := if index + CHUNK <= |slugs| then slugs[index..index + CHUNK] else slugs[index..];
      assert slugs[..index] + chunk == First(slugs, index + CHUNK);
      assert (chunks + [chunk])[..|chunks|] == chunks;
      chunks := chunks + [chunk];
      index := index + CHUNK;
    }
  }

  // ---------- the list remembers the latest ----------

  /** The stored list after some ratings, oldest first, in a fresh browser. */
  function Remembered(history: seq<Slug>): Store {
    if history == [] then Store([], map[], {})
    else After(Remembered(history[..|history| - 1]), Remember(history[|history| - 1]))
  }

  lemma FirstOfFirst(slug: Slug, all: seq<Slug>, n: nat)
    requires Distinct(all) && n >= 1
    ensures First([slug] + NotIn(First(all, n), [slug]), n) == First([slug] + NotIn(all, [slug]), n)
  {
    if |all| > n {
      var kept, rest := all[..n], all[n..];
      assert all == kept + rest;
      NotInConcat(kept, rest, [slug]);
      LosesOne(kept, slug);
    }
  }

  lemma ReversePush(xs: seq<Slug>, x: Slug)
    ensures Reverse(xs + [x]) == [x] + Reverse(xs)
  {
  }

  /** The list holds the first 500 of the distinct slugs rated, the latest first. */
  lemma {:induction false} StoredIsRecent(history: seq<Slug>)
    ensures Remembered(history).list == First(Dedup(Reverse(history)), BROWSER_LIST_LIMIT)
  {
    if history != [] {
      var front, slug := history[..|history| - 1], history[|history| - 1];
      assert history == front + [slug];
      StoredIsRecent(front);
      var recent := Dedup(Reverse(front));
      SlugsOfSound(First(recent, BROWSER_LIST_LIMIT));
      FirstOfFirst(slug, recent, BROWSER_LIST_LIMIT);
      ReversePush(front, slug);
      DedupConcat([slug], Reverse(front));
      DedupDistinct([slug]);
    }
  }

  // ---------- what every run keeps ----------

  ghost predicate Sound(s: Store) {
    && Distinct(s.list) && |s.list| <= BROWSER_LIST_LIMIT
    && (forall user :: user in s.records ==> Distinct(s.records[user]) && |s.records[user]| <= BROWSER_LIST_LIMIT)
    && (forall user, slug :: user in s.records && slug in s.records[user] ==> slug !in s.list)
  }

  lemma LastNDistinct(xs: seq<Slug>, n: nat)
    requires Distinct(xs)
    ensures Distinct(LastN(xs, n)) && |LastN(xs, n)| <= n && forall x :: x in LastN(xs, n) ==> x in xs
  {
  }

  lemma DistinctPush(x: Slug, xs: seq<Slug>)
    requires Distinct(xs) && x !in xs
    ensures Distinct([x] + xs)
  {
    var longer := [x] + xs;
    assert forall j :: 1 <= j < |longer| ==> longer[j] == xs[j - 1] && longer[j] in xs;
  }

  lemma ClearedFacts(records: map<User, seq<Slug>>, slug: Slug, user: User)
    requires user in records && Distinct(records[user])
    ensures var kept := Cleared(records, slug)[user];
            Distinct(kept) && |kept| <= |records[user]| && forall x :: x in kept <==> x in records[user] && x != slug
  {
    NotInMembers(records[user], [slug]);
  }

  lemma RememberedList(list: seq<Slug>, slug: Slug)
    requires Distinct(list)
    ensures var longer := First([slug] + NotIn(list, [slug]), BROWSER_LIST_LIMIT);
            && Distinct(longer) && |longer| <= BROWSER_LIST_LIMIT && slug in longer
            && forall x :: x in longer ==> x == slug || x in list
  {
    NotInMembers(list, [slug]);
    DistinctPush(slug, NotIn(list, [slug]));
    assert First([slug] + NotIn(list, [slug]), BROWSER_LIST_LIMIT)[0] == slug;
  }

  lemma RememberKeeps(s: Store, slug: Slug)
    requires Sound(s)
    ensures Sound(After(s, Remember(slug))) && slug in After(s, Remember(slug)).list
    ensures forall x :: x in After(s, Remember(slug)).list ==> x == slug || x in s.list
  {
    SlugsOfSound(s.list);
    RememberedList(s.list, slug);
    forall user | user in s.records
      ensures Distinct(Cleared(s.records, slug)[user]) && |Cleared(s.records, slug)[user]| <= BROWSER_LIST_LIMIT
      ensures forall x :: x in Cleared(s.records, slug)[user] <==> x in s.records[user] && x != slug
    {
      ClearedFacts(s.records, slug, user);
    }
  }

  lemma RemovalKeeps(s: Store, gone: seq<Slug>)
    requires Sound(s)
    ensures Sound(s.(list := NotIn(Slugs(s.list), gone)))
    ensures forall x :: x in NotIn(Slugs(s.list), gone) <==> x in s.list && x !in gone
  {
    SlugsOfSound(s.list);
    NotInMembers(s.list, gone);
  }

  lemma MergedKeeps(s: Store, user: User, slugs: seq<Slug>)
    requires Sound(s)
    ensures Sound(After(s, Merged(user, slugs)))
  {
    RemovalKeeps(s, slugs);
    LastNDistinct(Dedup(Record(s, user) + slugs), BROWSER_LIST_LIMIT);
  }

  lemma StepKeeps(s: Store, event: Event)
    requires Sound(s)
    ensures Sound(After(s, event))
    ensures forall x :: x in After(s, event).list ==> x in s.list || event == Remember(x)
  {
    match event
    case Remember(slug) => RememberKeeps(s, slug);
    case Forget(slug) => RemovalKeeps(s, [slug]);
    case Prune(asked, found) => RemovalKeeps(s, NotIn(asked, found));
    case Merged(user, slugs) =>
      RemovalKeeps(s, slugs);
      MergedKeeps(s, user, slugs);
    case Postpone(_) =>
  }

  function Run(s: Store, events: seq<Event>): Store {
    if events == [] then s else After(Run(s, events[..|events| - 1]), events[|events| - 1])
  }

  /** No run ever records a slug as merged that is still in the browser's list. */
  lemma {:induction false} RunsKeep(s: Store, events: seq<Event>)
    requires Sound(s)
    ensures Sound(Run(s, events))
    ensures forall x :: x in Run(s, events).list ==> x in s.list || Remember(x) in events
  {
    if events != [] {
      var front, last := events[..|events| - 1], events[|events| - 1];
      assert events == front + [last];
      RunsKeep(s, front);
      StepKeeps(Run(s, front), last);
    }
  }

  /** A merged slug is offered to no account again until it is rated again here. */
  lemma NeverOfferedAgain(s: Store, user: User, slugs: seq<Slug>, slug: Slug, events: seq<Event>, anyone: User,
                          found: Option<seq<Slug>>)
    requires Sound(s) && slug in slugs && Remember(slug) !in events
    requires Answers(Run(After(s, Merged(user, slugs)), events), anyone, found)
    ensures slug !in Asked(Run(After(s, Merged(user, slugs)), events), anyone)
    ensures slug !in Offered(Run(After(s, Merged(user, slugs)), events), anyone, found)
  {
    var merged := After(s, Merged(user, slugs));
    RemovalKeeps(s, slugs);
    MergedKeeps(s, user, slugs);
    RunsKeep(merged, events);
    var end := Run(merged, events);
    SlugsOfSound(end.list);
    NotInMembers(end.list, Record(end, anyone));
  }

  lemma RememberedIsAsked(s: Store, slug: Slug, user: User)
    requires Sound(s)
    ensures slug in Asked(After(s, Remember(slug)), user) <==> user !in s.later
  {
    RememberKeeps(s, slug);
    var end := After(s, Remember(slug));
    SlugsOfSound(end.list);
    NotInMembers(end.list, Record(end, user));
  }

  lemma OfferedWhenFound(s: Store, slug: Slug, user: User, found: Option<seq<Slug>>)
    requires Answers(s, user, found)
    ensures slug in Offered(s, user, found) <==> slug in Asked(s, user) && found.Some? && slug in found.value
  {
  }

  /**
   * A slug rated here is asked about for every account that did not say later, whatever was merged before, and offered
   * when the server still finds it.
   */
  lemma RememberedIsOffered(s: Store, slug: Slug, user: User, found: Option<seq<Slug>>)
    requires Sound(s) && Answers(After(s, Remember(slug)), user, found)
    ensures slug in Asked(After(s, Remember(slug)), user) <==> user !in s.later
    ensures slug in Offered(After(s, Remember(slug)), user, found) <==>
              user !in s.later && found.Some? && slug in found.value
  {
    RememberedIsAsked(s, slug, user);
    OfferedWhenFound(After(s, Remember(slug)), slug, user, found);
  }

  /**
   * A rating left while a merge is under way: it stays on offer exactly when the merge did not send its slug; otherwise
   * the finished merge takes the new rating for moved.
   */
  lemma RatedDuringMergeIff(s: Store, slug: Slug, user: User, slugs: seq<Slug>, anyone: User,
                            found: Option<seq<Slug>>)
    requires Sound(s) && anyone !in s.later
    requires Answers(After(After(s, Remember(slug)), Merged(user, slugs)), anyone, found)
    ensures slug in Asked(After(After(s, Remember(slug)), Merged(user, slugs)), anyone) <==> slug !in slugs
    ensures slug in Offered(After(After(s, Remember(slug)), Merged(user, slugs)), anyone, found) <==>
              slug !in slugs && found.Some? && slug in found.value
  {
    RatedDuringMergeAsked(s, slug, user, slugs, anyone);
    OfferedWhenFound(After(After(s, Remember(slug)), Merged(user, slugs)), slug, anyone, found);
  }

  lemma RatedDuringMergeAsked(s: Store, slug: Slug, user: User, slugs: seq<Slug>, anyone: User)
    requires Sound(s) && anyone !in s.later
    ensures slug in Asked(After(After(s, Remember(slug)), Merged(user, slugs)), anyone) <==> slug !in slugs
  {
    var rated := After(s, Remember(slug));
    RememberKeeps(s, slug);
    RemovalKeeps(rated, slugs);
    MergedKeeps(rated, user, slugs);
    var end := After(rated, Merged(user, slugs));
    SlugsOfSound(end.list);
    NotInMembers(end.list, Record(end, anyone));
    LastNDistinct(Dedup(Record(rated, user) + slugs), BROWSER_LIST_LIMIT);
  }

  // ---------- what each event changes ----------

  /** A forgotten slug is neither asked about nor offered for anyone until it is rated again. */
  lemma ForgottenIsGone(s: Store, slug: Slug, events: seq<Event>, anyone: User, found: Option<seq<Slug>>)
    requires Sound(s) && Remember(slug) !in events
    requires Answers(Run(After(s, Forget(slug)), events), anyone, found)
    ensures slug !in Asked(Run(After(s, Forget(slug)), events), anyone)
    ensures slug !in Offered(Run(After(s, Forget(slug)), events), anyone, found)
  {
    var forgotten := After(s, Forget(slug));
    RemovalKeeps(s, [slug]);
    RunsKeep(forgotten, events);
    var end := Run(forgotten, events);
    SlugsOfSound(end.list);
    NotInMembers(end.list, Record(end, anyone));
  }

  lemma {:induction false} LaterStays(s: Store, events: seq<Event>, user: User)
    ensures user in Run(s, events).later <==> user in s.later || Postpone(user) in events
  {
    if events != [] {
      var front, last := events[..|events| - 1], events[|events| - 1];
      assert events == front + [last];
      LaterStays(s, front, user);
      LaterStep(Run(s, front), last, user);
    }
  }

  lemma LaterStep(s: Store, event: Event, user: User)
    ensures user in After(s, event).later <==> user in s.later || event == Postpone(user)
  {
  }

  /** An account is asked about nothing if and only if it said later at some time or there is nothing to ask about. */
  lemma PostponedIff(s: Store, events: seq<Event>, user: User)
    requires Sound(s)
    ensures Asked(Run(s, events), user) == [] <==>
            user in s.later || Postpone(user) in events || Run(s, events).list == []
  {
    RunsKeep(s, events);
    LaterStays(s, events, user);
    AskedIsList(Run(s, events), user);
  }

  /** With a sound store, what an account is asked about is the whole list. */
  lemma AskedIsList(s: Store, user: User)
    requires Sound(s)
    ensures Asked(s, user) == if user in s.later then [] else s.list
  {
    SlugsOfSound(s.list);
    NotInAll(s.list, Record(s, user));
  }

  /** What an event removes from the list; apart from the oldest slug of a full list, nothing else goes. */
  lemma RemovedIff(s: Store, event: Event, x: Slug)
    requires Sound(s) && !event.Remember?
    ensures x in After(s, event).list <==>
            x in s.list && match event
                           case Forget(slug) => x != slug
                           case Prune(asked, found) => x in found || x !in asked
                           case Merged(_, slugs) => x !in slugs
                           case _ => true
  {
    match event
    case Forget(slug) => RemovalKeeps(s, [slug]);
    case Prune(asked, found) =>
      RemovalKeeps(s, NotIn(asked, found));
      NotInMembers(asked, found);
    case Merged(user, slugs) => RemovalKeeps(s, slugs);
    case _ =>
  }

  /** Rating a slug removes nothing while the list has room, and at most its last slug otherwise. */
  lemma RatingKeepsOthers(s: Store, slug: Slug, x: Slug)
    requires Sound(s) && x in s.list
    requires |s.list| < BROWSER_LIST_LIMIT || slug in s.list || x != s.list[|s.list| - 1]
    ensures x in After(s, Remember(slug)).list
  {
    SlugsOfSound(s.list);
    if slug in s.list {
      LosesFound(s.list, slug);
      NotInMembers(s.list, [slug]);
    } else {
      NotInAll(s.list, [slug]);
      StaysInRoom(s.list, slug, x);
    }
  }

  lemma StaysInRoom(list: seq<Slug>, slug: Slug, x: Slug)
    requires x in list && |list| <= BROWSER_LIST_LIMIT
    requires |list| < BROWSER_LIST_LIMIT || x != list[|list| - 1]
    ensures x in First([slug] + list, BROWSER_LIST_LIMIT)
  {
    var i :| 0 <= i < |list| && list[i] == x;
    assert First([slug] + list, BROWSER_LIST_LIMIT)[i + 1] == x;
  }

  lemma {:induction false} LosesFound<T(!new)>(ys: seq<T>, x: T)
    requires x in ys
    ensures |NotIn(ys, [x])| < |ys|
  {
    var front, last := ys[..|ys| - 1], ys[|ys| - 1];
    NotInMembers(front, [x]);
    if last != x {
      LosesFound(front, x);
    }
  }

  /** A finished merge is recorded for its account, the latest 500 slugs of it; no other record changes. */
  lemma MergedIsRecorded(s: Store, user: User, slugs: seq<Slug>, slug: Slug, other: User)
    requires slug in slugs && |Dedup(Record(s, user) + slugs)| <= BROWSER_LIST_LIMIT
    ensures slug in Record(After(s, Merged(user, slugs)), user)
    ensures forall x :: x in Record(After(s, Merged(user, slugs)), user) <==> x in Record(s, user) || x in slugs
    ensures other != user ==> Record(After(s, Merged(user, slugs)), other) == Record(s, other)
  {
    var all := Dedup(Record(s, user) + slugs);
    assert LastN(all, BROWSER_LIST_LIMIT) == all;
    assert forall x :: x in Record(s, user) + slugs <==> x in Record(s, user) || x in slugs;
  }
}
