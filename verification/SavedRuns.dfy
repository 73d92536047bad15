/** Runs of the saved-list code, from signing in, on which it does less than it seems to promise. */
module SavedRuns {
  import opened Basics
  import opened Sequences
  import opened SavedCore
  import opened SavedBrowser
  import opened SavedProtocol
  import opened SavedConnect

  // ---------- putting runs together ----------

  /** The events are a fair run from `w` to `v`. */
  predicate Leads(w: World, es: seq<Event>, v: World) {
    Run(w, es) && FairRun(w, es) && After(w, es) == v
  }

  lemma {:induction false} Then(w: World, es: seq<Event>, v: World, e: Event)
    requires Leads(w, es, v) && Enabled(v, e) && Fair(v, e)
    ensures Leads(w, es + [e], Step(v, e))
    decreases |es|
  {
    if es == [] {
      assert [e][1..] == [];
      assert [] + [e] == [e];
    } else {
      Then(Step(w, es[0]), es[1..], v, e);
      assert (es + [e])[1..] == es[1..] + [e];
    }
  }

  /** An attempt begun in a hazard breaks the promise on some fair continuation. */
  lemma HazardBreaks(w: World, es: seq<Event>, v: World, e: Event) returns (later: seq<Event>)
    requires Inv(w) && Leads(w, es, v) && Enabled(v, e) && BeginsAttempt(v, e) && Hazard(v)
    ensures Run(Step(v, e), later) && FairRun(Step(v, e), later) && !Agreement(After(Step(v, e), later))
  {
    FairRunsAgree(w, es);
    AttemptSafeIff(v, e);
    later :| !KeepsPromise(Step(v, e), later);
  }

  /** A document with nothing stored, and one whose only save is in no account, with a record that is up to date. */
  function Fresh(): Document {
    Document(Checking, [], map[], None)
  }

  function Saved(slug: Slug, user: nat): Document {
    Document(Checking, [slug], map[], Some(SyncState(user, [], map[], Some(0))))
  }

  function FreshStart(user: nat): World {
    Start(Identified(Fresh(), SignedIn(user, None)), {}, 0)
  }

  function SavedStart(slug: Slug, user: nat): World {
    Start(Identified(Saved(slug, user), SignedIn(user, Some(0))), {}, 0)
  }

  lemma SavedStartOffers(slug: Slug, user: nat)
    ensures var b := SavedStart(slug, user).b;
            b == Browser([slug], [], map[], Some(0), [slug], 0, 0, map[], map[], None, NoRefresh)
  {
    OfferedAll(slug);
    assert SavedStart(slug, user).b.offer == Select([slug], ToSet([slug]) - ToSet([]));
  }

  lemma OfferedAll(slug: Slug)
    ensures var none: seq<Slug> := []; Select([slug], ToSet([slug]) - ToSet(none)) == [slug]
  {
    var none: seq<Slug> := [];
    SelectAll([slug], ToSet([slug]) - ToSet(none));
  }

  // ---------- a retry that meets a hazard ----------

  /** A browser with these changes pending and these deliveries, that waits to ask again for a discarded list. */
  function Waiting(local: seq<Slug>, pending: Pending, edits: nat, chains: map<Slug, seq<Send>>,
                   flight: map<Slug, Send>, tickets: nat, last: map<Slug, bool>): World {
    World(Browser(local, [], pending, None, [], edits, tickets, chains, flight, None, Settling(1, None, 1)),
          {}, 0, map[], None, false, last, {})
  }

  /** A list is asked for and discarded because `x` was saved meanwhile. */
  lemma AskedAndToggled(user: nat, x: Slug) returns (es: seq<Event>, v: World)
    ensures Leads(FreshStart(user), es, v)
    ensures v == World(Browser([x], [], map[x := Put], None, [], 1, 1, map[x := [Send(Put, 0)]], map[], None,
                               Fetching(0, 0, None)), {}, 0, map[], Some(Listing([], 0)), false, map[x := true], {})
  {
    var w := FreshStart(user);
    es, v := [], w;
    Then(w, es, v, BeginRefresh(None));
    es, v := es + [BeginRefresh(None)], Step(v, BeginRefresh(None));
    Then(w, es, v, AccountLists([]));
    es, v := es + [AccountLists([])], Step(v, AccountLists([]));
    Then(w, es, v, Toggle(x, Some(true)));
    es, v := es + [Toggle(x, Some(true))], Step(v, Toggle(x, Some(true)));
    assert v.b.local == [x] && v.b.chains[x] == [Send(Put, 0)] && v.refused == {};
  }

  lemma DiscardedList(user: nat, x: Slug) returns (es: seq<Event>, v: World)
    ensures Leads(FreshStart(user), es, v)
    ensures v == Waiting([x], map[x := Put], 1, map[x := [Send(Put, 0)]], map[], 1, map[x := true])
  {
    es, v := AskedAndToggled(user, x);
    assert ToSet([x]) == {x} == v.b.pending.Keys;
    Then(FreshStart(user), es, v, ListArrives([x]));
    es, v := es + [ListArrives([x])], Step(v, ListArrives([x]));
  }

  /** While the discarded list waits for the delivery of `x`, another slug is saved. */
  lemma SavedWhileWaiting(user: nat, x: Slug, y: Slug) returns (es: seq<Event>, v: World)
    requires x != y
    ensures Leads(FreshStart(user), es, v)
    ensures v == Waiting([x, y], map[x := Put, y := Put], 2, map[x := [], y := [Send(Put, 1)]],
                         map[x := Send(Put, 0)], 2, map[x := true, y := true])
  {
    es, v := DiscardedList(user, x);
    Then(FreshStart(user), es, v, BeginDelivery(x));
    es, v := es + [BeginDelivery(x)], Step(v, BeginDelivery(x));
    Then(FreshStart(user), es, v, Toggle(y, Some(true)));
    es, v := es + [Toggle(y, Some(true))], Step(v, Toggle(y, Some(true)));
    assert v.b.local == [x, y] && v.b.chains[x] == [] && v.b.chains[y] == [Send(Put, 1)] && v.refused == {};
    assert v.b.chains == map[x := [], y := [Send(Put, 1)]];
  }

  /** Its delivery leaves. */
  lemma SentWhileWaiting(user: nat, x: Slug, y: Slug) returns (es: seq<Event>, v: World)
    requires x != y
    ensures Leads(FreshStart(user), es, v)
    ensures v == Waiting([x, y], map[x := Put, y := Put], 2, map[x := [], y := []],
                         map[x := Send(Put, 0), y := Send(Put, 1)], 2, map[x := true, y := true])
  {
    es, v := SavedWhileWaiting(user, x, y);
    Then(FreshStart(user), es, v, BeginDelivery(y));
    es, v := es + [BeginDelivery(y)], Step(v, BeginDelivery(y));
    assert v.b.chains == map[x := [], y := []];
  }

  /** It is removed again. */
  lemma ToggledWhileWaiting(user: nat, x: Slug, y: Slug) returns (es: seq<Event>, v: World)
    requires x != y
    ensures Leads(FreshStart(user), es, v)
    ensures v.b.flight == map[x := Send(Put, 0), y := Send(Put, 1)] && v.b.pending == map[x := Put, y := Delete]
    ensures v.b.chains == map[x := [], y := [Send(Delete, 2)]] && v.b.refresh == Settling(1, None, 1)
    ensures v.account == {} && v.answers == map[]
  {
    es, v := SentWhileWaiting(user, x, y);
    Then(FreshStart(user), es, v, Toggle(y, Some(false)));
    es, v := es + [Toggle(y, Some(false))], Step(v, Toggle(y, Some(false)));
    assert v.b.chains[y] == [Send(Delete, 2)];
  }

  /** The older delivery is taken. */
  lemma OlderDeliveryTaken(user: nat, x: Slug, y: Slug) returns (es: seq<Event>, v: World)
    requires x != y
    ensures Leads(FreshStart(user), es, v)
    ensures v.b.flight == map[x := Send(Put, 0), y := Send(Put, 1)] && v.b.pending == map[x := Put, y := Delete]
    ensures v.b.chains == map[x := [], y := [Send(Delete, 2)]] && v.b.refresh == Settling(1, None, 1)
    ensures v.account == {x} && v.answers == map[x := Accepted]
  {
    es, v := ToggledWhileWaiting(user, x, y);
    Then(FreshStart(user), es, v, AccountAnswers(x, Accepted));
    es, v := es + [AccountAnswers(x, Accepted)], Step(v, AccountAnswers(x, Accepted));
  }

  /** Its answer ends the wait, as far as the deliveries of before the discard go. */
  lemma OlderDeliveryEnds(v: World, x: Slug, y: Slug)
    requires x != y && v.answers == map[x := Accepted] && v.account == {x}
    requires v.b.flight == map[x := Send(Put, 0), y := Send(Put, 1)] && v.b.pending == map[x := Put, y := Delete]
    requires v.b.chains == map[x := [], y := [Send(Delete, 2)]] && v.b.refresh == Settling(1, None, 1)
    ensures var next := Step(v, AnswerArrives(x)); Enabled(next, Retry) && y in next.b.flight && HazardAt(next, y)
    ensures BeginsAttempt(Step(v, AnswerArrives(x)), Retry)
  {
    var next := DeliveryAnswered(v.b, x, Accepted);
    assert next.flight == map[y := Send(Put, 1)] && next.pending == map[y := Delete];
    assert next.chains == v.b.chains && next.refresh == v.b.refresh;
    assert AllSettled(next, 1);
  }

  /**
   * Waiting for the deliveries does not protect a retry from a toggle made while it waits: the retry is allowed as
   * soon as the older deliveries have ended, the newer one is still superseded and unanswered, and a fair
   * continuation leaves browser and account apart.
   */
  lemma RetryMeetsHazard(user: nat, x: Slug, y: Slug) returns (es: seq<Event>, v: World, later: seq<Event>)
    requires x != y
    ensures Leads(FreshStart(user), es, v) && Enabled(v, Retry) && BeginsAttempt(v, Retry) && HazardAt(v, y)
    ensures Run(Step(v, Retry), later) && FairRun(Step(v, Retry), later) && !Agreement(After(Step(v, Retry), later))
  {
    StartKeepsInv(Fresh(), user, None, {}, 0);
    es, v := OlderDeliveryTaken(user, x, y);
    OlderDeliveryEnds(v, x, y);
    Then(FreshStart(user), es, v, AnswerArrives(x));
    es, v := es + [AnswerArrives(x)], Step(v, AnswerArrives(x));
    later := HazardBreaks(FreshStart(user), es, v, Retry);
  }

  // ---------- the first list after a merge ----------

  /** `x` is offered and `y` was saved just now, its delivery out; `merging` is what a merge under way has sent. */
  function BeforeMerge(x: Slug, y: Slug, merging: Option<seq<Slug>>): World {
    World(Browser([x, y], [], map[y := Put], Some(0), [x], 1, 1, map[y := []], map[y := Send(Put, 0)], merging,
                  NoRefresh), {}, 0, map[], None, false, map[y := true], {})
  }

  /** A local-only slug is offered, and another one saved. */
  lemma SavedBeforeMerge(user: nat, x: Slug, y: Slug) returns (es: seq<Event>, v: World)
    requires x != y
    ensures Leads(SavedStart(x, user), es, v)
    ensures v == BeforeMerge(x, y, None)
  {
    es, v := ToggledBeforeMerge(user, x, y);
    Then(SavedStart(x, user), es, v, BeginDelivery(y));
    es, v := es + [BeginDelivery(y)], Step(v, BeginDelivery(y));
  }

  lemma ToggledBeforeMerge(user: nat, x: Slug, y: Slug) returns (es: seq<Event>, v: World)
    requires x != y
    ensures Leads(SavedStart(x, user), es, v)
    ensures v == World(Browser([x, y], [], map[y := Put], Some(0), [x], 1, 1, map[y := [Send(Put, 0)]], map[], None,
                               NoRefresh), {}, 0, map[], None, false, map[y := true], {})
  {
    SavedStartOffers(x, user);
    es, v := [], SavedStart(x, user);
    Then(SavedStart(x, user), es, v, Toggle(y, Some(true)));
    es, v := es + [Toggle(y, Some(true))], Step(v, Toggle(y, Some(true)));
    assert v.b.local == [x, y] && v.b.chains[y] == [Send(Put, 0)] && v.refused == {};
  }

  /** The merge begins while the other slug's delivery is out. */
  lemma MergeBegins(user: nat, x: Slug, y: Slug) returns (es: seq<Event>, v: World)
    requires x != y
    ensures Leads(SavedStart(x, user), es, v)
    ensures v == BeforeMerge(x, y, Some([x]))
  {
    es, v := SavedBeforeMerge(user, x, y);
    assert Sendable(v.b) == [x] by {
      SelectAll([x], ToSet(v.b.local) - v.b.pending.Keys);
    }
    Then(SavedStart(x, user), es, v, BeginMerge);
    es, v := es + [BeginMerge], Step(v, BeginMerge);
  }

  /** The other slug is removed again. */
  lemma ToggledDuringMerge(user: nat, x: Slug, y: Slug) returns (es: seq<Event>, v: World)
    requires x != y
    ensures Leads(SavedStart(x, user), es, v)
    ensures v.b.flight == map[y := Send(Put, 0)] && v.b.pending == map[y := Delete] && v.b.merging == Some([x])
    ensures v.account == {} && v.answers == map[] && !v.merged
  {
    es, v := MergeBegins(user, x, y);
    Then(SavedStart(x, user), es, v, Toggle(y, Some(false)));
    es, v := es + [Toggle(y, Some(false))], Step(v, Toggle(y, Some(false)));
  }

  /** Nothing makes a merge's own list wait for the deliveries at all. */
  lemma MergeMeetsHazard(user: nat, x: Slug, y: Slug) returns (es: seq<Event>, v: World, later: seq<Event>)
    requires x != y
    ensures Leads(SavedStart(x, user), es, v) && Enabled(v, MergeArrives) && HazardAt(v, y)
    ensures Run(Step(v, MergeArrives), later) && FairRun(Step(v, MergeArrives), later)
    ensures !Agreement(After(Step(v, MergeArrives), later))
  {
    StartKeepsInv(Saved(x, user), user, Some(0), {}, 0);
    es, v := ToggledDuringMerge(user, x, y);
    Then(SavedStart(x, user), es, v, AccountMerges({x}));
    es, v := es + [AccountMerges({x})], Step(v, AccountMerges({x}));
    assert y in v.b.flight && HazardAt(v, y);
    later := HazardBreaks(SavedStart(x, user), es, v, MergeArrives);
  }

  // ---------- an unexpected answer ----------

  /** A put answered with neither success nor a known refusal is forgotten, although the account never took it. */
  lemma InvalidAnswerLosesPut(user: nat, x: Slug) returns (es: seq<Event>, v: World)
    ensures Leads(FreshStart(user), es, v)
    ensures var later := [AccountAnswers(x, Invalid), AnswerArrives(x)];
            Run(v, later) && !Agreement(After(v, later))
  {
    var w := FreshStart(user);
    StartKeepsInv(Fresh(), user, None, {}, 0);
    es, v := [], w;
    Then(w, es, v, Toggle(x, Some(true)));
    es, v := es + [Toggle(x, Some(true))], Step(v, Toggle(x, Some(true)));
    Then(w, es, v, BeginDelivery(x));
    es, v := es + [BeginDelivery(x)], Step(v, BeginDelivery(x));
    FairRunsAgree(w, es);
    InvalidAnswerBreaks(v, x);
  }

  // ---------- a skipped slug ----------

  /** `x` is sent and the account takes nothing. */
  lemma TakesNothing(user: nat, x: Slug) returns (es: seq<Event>, v: World)
    ensures Leads(SavedStart(x, user), es, v)
    ensures v == World(Browser([x], [], map[], Some(0), [x], 0, 0, map[], map[], Some([x]), NoRefresh),
                       {}, 0, map[], None, true, map[], {})
  {
    SavedStartOffers(x, user);
    es, v := [], SavedStart(x, user);
    assert Sendable(v.b) == [x] by {
      SelectAll([x], ToSet(v.b.local) - v.b.pending.Keys);
    }
    Then(SavedStart(x, user), es, v, BeginMerge);
    es, v := es + [BeginMerge], Step(v, BeginMerge);
    Then(SavedStart(x, user), es, v, AccountMerges({}));
    es, v := es + [AccountMerges({})], Step(v, AccountMerges({}));
    assert v.account == {};
  }

  lemma SentBase(x: Slug)
    ensures var none: Pending := map[]; Dedup([] + Select([x], ToSet([x]) - none.Keys)) == [x]
  {
    var none: Pending := map[];
    SelectAll([x], ToSet([x]) - none.Keys);
    assert [] + [x] == [x];
    DedupDistinct([x]);
  }

  /** A merge of which the account takes nothing, and whose list request then fails. */
  lemma SkippedMerge(user: nat, x: Slug) returns (es: seq<Event>, v: World)
    ensures Leads(SavedStart(x, user), es, v)
    ensures v.b.local == [x] && v.b.base == [x] && v.b.pending == map[] && v.b.version == Some(0)
    ensures v.account == {} && v.stamp == 0
  {
    es, v := TakesNothing(user, x);
    SentBase(x);
    Then(SavedStart(x, user), es, v, MergeArrives);
    es, v := es + [MergeArrives], Step(v, MergeArrives);
    Then(SavedStart(x, user), es, v, ListLost);
    es, v := es + [ListLost], Step(v, ListLost);
  }

  /** The next document trusts the version, takes the shortcut, and goes on showing a slug the account does not hold. */
  lemma SkippedSlugStays(user: nat, x: Slug) returns (es: seq<Event>, v: World)
    ensures Leads(SavedStart(x, user), es, v) && x !in v.account
    ensures var c := Identified(NextDocument(v, user), SignedIn(user, Some(v.stamp)));
            && c.offer.Some? && x !in c.offer.value && x in c.document.local && x in c.document.sync.value.base
            && x !in Reconcile(c.document.local, [], c.document.sync.value.base, map[], []).local
  {
    es, v := SkippedMerge(user, x);
    var c := Identified(NextDocument(v, user), SignedIn(user, Some(v.stamp)));
    var r := Reconcile(c.document.local, [], c.document.sync.value.base, map[], []);
    SkippedSlugSurvivesShortcut(NextDocument(v, user), user, v.stamp, x, [], r);
  }

  // ---------- another account's copy ----------

  /** The document that saved `x` again before the answer came, and its start with the account it is signed in to. */
  function SavedAgain(x: Slug, other: nat): Document {
    Document(Checking, [x], map[x := Put], Some(SyncState(other, [x], map[], None)))
  }

  function OtherStart(x: Slug, other: nat, user: nat): World {
    Start(Identified(SavedAgain(x, other), SignedIn(user, None)), {}, 0)
  }

  lemma OtherStartHides(x: Slug, other: nat, user: nat)
    requires other != user
    ensures OtherStart(x, other, user).b
            == Browser([], [], map[x := Put], None, [], 0, 0, map[], map[], None, NoRefresh)
  {
    SelectNone([x], (ToSet([x]) - ToSet([x])) + Chosen(map[], Put));
  }

  lemma OtherListAsked(x: Slug, other: nat, user: nat) returns (es: seq<Event>, v: World)
    requires other != user
    ensures Leads(OtherStart(x, other, user), es, v)
    ensures v == World(Browser([], [], map[x := Put], None, [], 0, 0, map[], map[], None, Fetching(0, 0, None)),
                       {}, 0, map[], Some(Listing([], 0)), false, map[], {})
  {
    OtherStartHides(x, other, user);
    es, v := [], OtherStart(x, other, user);
    Then(OtherStart(x, other, user), es, v, BeginRefresh(None));
    es, v := es + [BeginRefresh(None)], Step(v, BeginRefresh(None));
    Then(OtherStart(x, other, user), es, v, AccountLists([]));
    es, v := es + [AccountLists([])], Step(v, AccountLists([]));
  }

  /**
   * A slug of the other account's copy, saved again before the answer came, is missing from the list after signing in,
   * although its put is pending; the first accepted list brings it back.
   */
  lemma SignInHidesEarlyPut(other: nat, user: nat, x: Slug) returns (es: seq<Event>, v: World)
    requires other != user
    ensures Consistent(SavedAgain(x, other)) && x !in OtherStart(x, other, user).b.local
    ensures Has(OtherStart(x, other, user).b.pending, x, Put)
    ensures Leads(OtherStart(x, other, user), es, v) && x in v.b.local && Has(v.b.pending, x, Put)
  {
    OtherStartHides(x, other, user);
    es, v := OtherListAsked(x, other, user);
    assert ToSet([x]) == {x} == v.b.pending.Keys;
    var r := ListIsMatched(v, [x]);
    MatchedFrame(v.b, v.b.refresh.seen, r);
    assert x in r.pending && x in r.local;
    Then(OtherStart(x, other, user), es, v, ListArrives([x]));
    es, v := es + [ListArrives([x])], Step(v, ListArrives([x]));
  }
}
