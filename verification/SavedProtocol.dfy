/**
 * The whole sync protocol: one signed-in browser, its account, and every interleaving of toggles, deliveries, answers,
 * lost answers, refreshes and merges. A request is handled by the account before its failure is seen, and no other
 * device writes.
 */
module SavedProtocol {
  import opened Basics
  import opened Sequences
  import opened SavedCore
  import opened SavedBrowser

  /** The account list as it was when asked for, in some order, with the saved version of that moment. */
  datatype Listing = Listing(slugs: seq<Slug>, stamp: nat)

  /**
   * `account` is what the server holds and `stamp` numbers its versions; `answers` are replies on their way, `listing`
   * the list on its way, `merged` whether the merge under way was carried out. `last` remembers what the last toggle
   * asked for, for every slug toggled since login and for the changes left over from before that an accepted list took
   * up; `refused` holds those whose last toggle the account refused.
   */
  datatype World = World(
    b: Browser, account: set<Slug>, stamp: nat, answers: map<Slug, Answer>, listing: Option<Listing>, merged: bool,
    last: map<Slug, bool>, refused: set<Slug>)

  datatype Event =
    | Toggle(slug: Slug, on: Option<bool>)
    | BeginDelivery(slug: Slug)
    | AccountAnswers(slug: Slug, answer: Answer)
    | AnswerArrives(slug: Slug)
    | AnswerLost(slug: Slug)
    | BeginRefresh(seen: Option<nat>)
    | AccountLists(slugs: seq<Slug>)
    | ListArrives(order: seq<Slug>)
    | ListLost
    | Retry
    | BeginMerge
    | AccountMerges(taken: set<Slug>)
    | MergeArrives
    | MergeLost

  /** Only a put of a slug the account does not hold can be refused. */
  predicate Possible(account: set<Slug>, slug: Slug, op: SavedOp, answer: Answer) {
    answer.OverLimit? || answer.NotListed? ==> op == Put && slug !in account
  }

  predicate Enabled(w: World, e: Event) {
    match e
    case Toggle(_, _) => true
    case BeginDelivery(slug) => CanDeliver(w.b, slug)
    case AccountAnswers(slug, answer) =>
      slug in w.b.flight && slug !in w.answers && Possible(w.account, slug, w.b.flight[slug].op, answer)
    case AnswerArrives(slug) => slug in w.answers && slug in w.b.flight
    case AnswerLost(slug) => slug in w.b.flight
    case BeginRefresh(seen) =>
      w.b.refresh.NoRefresh? && w.b.merging.None? && w.b.offer == [] && (seen.Some? ==> seen.value <= w.stamp)
    case AccountLists(slugs) => w.b.refresh.Fetching? && w.listing.None? && ToSet(slugs) == w.account
    case ListArrives(order) => w.b.refresh.Fetching? && w.listing.Some? && Lists(order, w.b.pending.Keys)
    case ListLost => w.b.refresh.Fetching?
    case Retry => w.b.refresh.Settling? && AllSettled(w.b, w.b.refresh.mark)
    case BeginMerge => true
    case AccountMerges(taken) => w.b.merging.Some? && !w.merged && taken <= ToSet(w.b.merging.value)
    case MergeArrives => w.b.merging.Some? && w.merged
    case MergeLost => w.b.merging.Some?
  }

  function Changed(w: World, account: set<Slug>): World {
    w.(account := account, stamp := if account == w.account then w.stamp else w.stamp + 1)
  }

  /** The list that arrives will be matched, not thrown away. */
  predicate Accepts(b: Browser) {
    b.refresh.Fetching? && b.edits == b.refresh.since
  }

  /** The changes that the matched list shows: whatever was left over from before is followed from here on. */
  function TakenUp(pending: Pending, local: seq<Slug>): map<Slug, bool> {
    map slug | slug in pending && (pending[slug] == Put) == (slug in local) :: pending[slug] == Put
  }

  function Step(w: World, e: Event): World
    requires Enabled(w, e)
  {
    match e
    case Toggle(slug, on) =>
      w.(b := Toggled(w.b, slug, on), last := w.last[slug := Wanted(w.b, slug, on)], refused := w.refused - {slug})
    case BeginDelivery(slug) => w.(b := DeliveryBegun(w.b, slug))
    case AccountAnswers(slug, answer) =>
      var account := if !answer.Accepted? then w.account
                     else if w.b.flight[slug].op == Put then w.account + {slug} else w.account - {slug};
      Changed(w, account).(answers := w.answers[slug := answer])
    case AnswerArrives(slug) =>
      var op, answer := w.b.flight[slug].op, w.answers[slug];
      w.(b := DeliveryAnswered(w.b, slug, answer), answers := Drop(w.answers, slug),
         refused := if Refused(op, answer) && Has(w.b.pending, slug, Put) then w.refused + {slug} else w.refused)
    case AnswerLost(slug) => w.(b := DeliveryLost(w.b, slug), answers := Drop(w.answers, slug))
    case BeginRefresh(seen) => w.(b := RefreshBegun(w.b, 0, seen), listing := None)
    case AccountLists(slugs) => w.(listing := Some(Listing(slugs, w.stamp)))
    case ListArrives(order) =>
      var b := ListArrived(w.b, w.listing.value.slugs, order);
      w.(b := b, listing := None, last := if Accepts(w.b) then w.last + TakenUp(w.b.pending, b.local) else w.last)
    case ListLost => w.(b := w.b.(refresh := NoRefresh), listing := None)
    case Retry => w.(b := Retried(w.b), listing := None)
    case BeginMerge => w.(b := MergeBegun(w.b), merged := if w.b.merging.None? then false else w.merged)
    case AccountMerges(taken) => Changed(w, w.account + taken).(merged := true)
    case MergeArrives => w.(b := MergeAnswered(w.b, true), listing := None)
    case MergeLost => w.(b := MergeAnswered(w.b, false))
  }

  predicate Run(w: World, es: seq<Event>)
    decreases |es|
  {
    es == [] || (Enabled(w, es[0]) && Run(Step(w, es[0]), es[1..]))
  }

  function After(w: World, es: seq<Event>): World
    requires Run(w, es)
    decreases |es|
  {
    if es == [] then w else After(Step(w, es[0]), es[1..])
  }

  // ---------- the promise ----------

  /**
   * For every slug toggled since login, or taken up from before, that is not pending, the browser and the account
   * agree, and what they hold is what the last toggle asked for unless the account refused that put.
   */
  predicate Agreement(w: World) {
    forall slug :: slug in w.last && slug !in w.b.pending ==>
      && (slug in w.b.local <==> slug in w.account)
      && (if slug in w.refused then w.last[slug] && slug !in w.b.local else w.last[slug] == (slug in w.b.local))
  }

  /**
   * A delivery is still on its way to the account, would change it, and has meanwhile been superseded by the opposite
   * toggle. A list fetched from here on may make the browser forget that toggle before the old delivery lands.
   */
  predicate HazardAt(w: World, slug: Slug) {
    && slug in w.b.flight && slug !in w.answers && slug in w.b.pending
    && w.b.pending[slug] != w.b.flight[slug].op
    && (w.b.flight[slug].op == Put) != (slug in w.account)
  }

  predicate Hazard(w: World) {
    exists slug :: slug in w.b.flight && HazardAt(w, slug)
  }

  predicate BeginsAttempt(w: World, e: Event) {
    e.BeginRefresh? || e.MergeArrives? || (e.Retry? && w.b.refresh.Settling? && w.b.refresh.tries < REFRESH_TRIES)
  }

  /**
   * Handling an unexpected settled answer now drops no change the account still lacks: the pending change is not the
   * one answered, or the account is already as it asks.
   */
  predicate InvalidHarmless(w: World, slug: Slug)
    requires slug in w.b.flight
  {
    Has(w.b.pending, slug, w.b.flight[slug].op) ==> (w.b.flight[slug].op == Put) == (slug in w.account)
  }

  /**
   * What the promise is made under: attempts do not begin in a hazard, and no unexpected settled answer drops a change
   * that the account lacks.
   */
  predicate Fair(w: World, e: Event)
    requires Enabled(w, e)
  {
    && (BeginsAttempt(w, e) ==> !Hazard(w))
    && (e.AnswerArrives? && w.answers[e.slug] == Invalid ==> InvalidHarmless(w, e.slug))
  }

  predicate FairRun(w: World, es: seq<Event>)
    requires Run(w, es)
    decreases |es|
  {
    es == [] || (Fair(w, es[0]) && FairRun(Step(w, es[0]), es[1..]))
  }

  // ---------- the invariant ----------

  /** A change left over from before this document signed in, which nothing has touched or sent yet. */
  predicate LeftOver(w: World, slug: Slug) {
    slug !in w.last && slug !in w.b.flight && Queued(w.b, slug) == []
  }

  /** A pending change that is followed is what the browser shows and what the last toggle asked for. */
  predicate ShownAt(w: World, slug: Slug)
    requires slug in w.b.pending
  {
    && slug in w.last && slug !in w.refused
    && (w.b.pending[slug] == Put) == (slug in w.b.local) && (w.b.pending[slug] == Put) == w.last[slug]
  }

  /** What is pending is shown, unless it is left over; every travelling change is a remembered toggle. */
  predicate PendingShown(w: World) {
    && (forall slug :: slug in w.b.pending ==> ShownAt(w, slug) || LeftOver(w, slug))
    && (forall slug :: slug in w.b.flight ==> slug in w.last)
    && (forall slug :: slug in w.refused ==> slug in w.last)
  }

  /** A delivery on its way for a slug with nothing pending will not change the account. */
  predicate FlightHarmless(w: World) {
    forall slug :: slug in w.b.flight && slug !in w.answers && slug !in w.b.pending ==>
      (w.b.flight[slug].op == Put) == (slug in w.account)
  }

  /** Answers on their way tell the truth about the account. */
  predicate AnswersTrue(w: World) {
    forall slug :: slug in w.answers ==>
      && slug in w.b.flight
      && (w.answers[slug] == Accepted ==> (w.b.flight[slug].op == Put) == (slug in w.account))
      && (w.answers[slug].OverLimit? || w.answers[slug].NotListed? ==> w.b.flight[slug].op == Put && slug !in w.account)
  }

  /**
   * While an attempt can still be accepted there is no hazard, and its list can only disagree with the account on
   * changes still due.
   */
  predicate AttemptSafe(w: World) {
    && (w.listing.Some? ==> w.b.refresh.Fetching?)
    && (w.b.refresh.Fetching? ==> w.b.refresh.since <= w.b.edits)
    && (w.b.refresh.Fetching? && w.b.refresh.since == w.b.edits ==>
            && (forall slug :: slug in w.b.flight ==> !HazardAt(w, slug))
            && (w.listing.Some? ==> ListingFresh(w, w.listing.value.slugs)))
  }

  predicate ListingFresh(w: World, list: seq<Slug>) {
    && (forall slug :: slug in list && !Has(w.b.pending, slug, Delete) ==> slug in w.account)
    && (forall slug :: slug in w.account && !Has(w.b.pending, slug, Put) ==> slug in list)
  }

  /** Offers and merges never touch a slug that was toggled, except while its own change is pending. */
  predicate MergesApart(w: World) {
    && (forall slug :: slug in w.b.offer && slug in w.last ==> slug in w.b.pending || slug !in w.b.local)
    && (w.b.merging.Some? ==> forall slug :: slug in w.b.merging.value ==>
          slug !in w.b.flight && (slug in w.last ==> slug in w.b.pending))
    && (!w.b.refresh.NoRefresh? ==> w.b.offer == [] && w.b.merging.None?)
  }

  predicate Inv(w: World) {
    && Agreement(w) && PendingShown(w) && FlightHarmless(w) && AnswersTrue(w) && AttemptSafe(w) && MergesApart(w)
  }

  lemma {:induction false} EnqueueAllFrame(b: Browser, slugs: seq<Slug>, op: SavedOp)
    ensures var r := EnqueueAll(b, slugs, op); r == b.(chains := r.chains, tickets := r.tickets)
  {
    if slugs != [] {
      EnqueueAllFrame(b, slugs[..|slugs| - 1], op);
    }
  }

  lemma ToggleKeeps(w: World, slug: Slug, on: Option<bool>)
    requires Inv(w)
    ensures Inv(Step(w, Toggle(slug, on)))
  {
  }

  lemma BeginDeliveryKeeps(w: World, slug: Slug)
    requires Inv(w) && Enabled(w, BeginDelivery(slug))
    ensures Inv(Step(w, BeginDelivery(slug)))
  {
    if Has(w.b.pending, slug, w.b.chains[slug][0].op) {
      DeliveryLeaves(w, slug);
    } else {
      DeliverySkipped(w, slug);
    }
  }

  lemma DeliverySkipped(w: World, slug: Slug)
    requires Inv(w) && Enabled(w, BeginDelivery(slug)) && !Has(w.b.pending, slug, w.b.chains[slug][0].op)
    ensures Inv(Step(w, BeginDelivery(slug)))
  {
    var next := Step(w, BeginDelivery(slug));
    assert next == w.(b := w.b.(chains := next.b.chains));
    assert PendingShown(next);
  }

  /** A delivery that leaves carries the pending change itself. */
  lemma DeliveryLeaves(w: World, slug: Slug)
    requires Inv(w) && Enabled(w, BeginDelivery(slug)) && Has(w.b.pending, slug, w.b.chains[slug][0].op)
    ensures Inv(Step(w, BeginDelivery(slug)))
  {
    var next := Step(w, BeginDelivery(slug));
    assert next == w.(b := w.b.(chains := next.b.chains, flight := w.b.flight[slug := w.b.chains[slug][0]]));
    LeavingShown(w, slug);
    assert Agreement(next) && FlightHarmless(next) && AnswersTrue(next);
    assert AttemptSafe(next);
  }

  lemma LeavingShown(w: World, slug: Slug)
    requires PendingShown(w) && Enabled(w, BeginDelivery(slug)) && Has(w.b.pending, slug, w.b.chains[slug][0].op)
    ensures PendingShown(Step(w, BeginDelivery(slug)))
  {
    assert ShownAt(w, slug);
  }

  lemma AnswerLostKeeps(w: World, slug: Slug)
    requires Inv(w) && Enabled(w, AnswerLost(slug))
    ensures Inv(Step(w, AnswerLost(slug)))
  {
  }

  lemma AccountAnswersKeeps(w: World, e: Event)
    requires Inv(w) && Enabled(w, e) && e.AccountAnswers?
    ensures Inv(Step(w, e))
  {
    AccountAnswersAgrees(w, e.slug, e.answer);
    AccountAnswersRest(w, e.slug, e.answer);
  }

  lemma AccountAnswersAgrees(w: World, slug: Slug, answer: Answer)
    requires Inv(w) && Enabled(w, AccountAnswers(slug, answer))
    ensures var next := Step(w, AccountAnswers(slug, answer)); Agreement(next) && PendingShown(next)
  {
  }

  lemma AccountAnswersRest(w: World, slug: Slug, answer: Answer)
    requires Inv(w) && Enabled(w, AccountAnswers(slug, answer))
    ensures var next := Step(w, AccountAnswers(slug, answer));
            FlightHarmless(next) && AnswersTrue(next) && AttemptSafe(next) && MergesApart(next)
  {
  }

  /** A fair answer changes the browser only where it tells of a change the account already made. */
  lemma AnswerArrivesKeeps(w: World, e: Event)
    requires Inv(w) && Enabled(w, e) && Fair(w, e) && e.AnswerArrives?
    ensures Inv(Step(w, e))
  {
    var slug := e.slug;
    var op, answer := w.b.flight[slug].op, w.answers[slug];
    if !Settled(answer) {
      AnswerKeepsRest(w, slug);
      assert Agreement(Step(w, e));
    } else {
      AnswerKeepsAgreement(w, slug);
      AnswerKeepsRest(w, slug);
    }
  }

  lemma AnswerKeepsAgreement(w: World, slug: Slug)
    requires Inv(w) && slug in w.answers && Settled(w.answers[slug])
    requires w.answers[slug] == Invalid ==> InvalidHarmless(w, slug)
    ensures Agreement(Step(w, AnswerArrives(slug)))
  {
    var next := Step(w, AnswerArrives(slug));
    forall s | s in next.last && s !in next.b.pending
      ensures s in next.b.local <==> s in next.account
      ensures if s in next.refused then next.last[s] && s !in next.b.local else next.last[s] == (s in next.b.local)
    {
      assert s in next.b.local ==> s in w.b.local;
      if s != slug {
        assert s in w.b.local ==> s in next.b.local;
      }
    }
  }

  lemma AnswerKeepsRest(w: World, slug: Slug)
    requires Inv(w) && slug in w.answers
    ensures var next := Step(w, AnswerArrives(slug));
            PendingShown(next) && FlightHarmless(next) && AnswersTrue(next) && AttemptSafe(next) && MergesApart(next)
  {
    AnswerKeepsDeliveries(w, slug);
    AnswerKeepsOffers(w, slug);
  }

  lemma AnswerKeepsDeliveries(w: World, slug: Slug)
    requires PendingShown(w) && FlightHarmless(w) && AnswersTrue(w) && slug in w.answers
    ensures var next := Step(w, AnswerArrives(slug));
            PendingShown(next) && FlightHarmless(next) && AnswersTrue(next)
  {
    AnswerKeepsShown(w, slug);
  }

  lemma AnswerKeepsShown(w: World, slug: Slug)
    requires PendingShown(w) && AnswersTrue(w) && slug in w.answers
    ensures PendingShown(Step(w, AnswerArrives(slug)))
  {
    var next := Step(w, AnswerArrives(slug));
    forall s | s in next.b.pending ensures ShownAt(next, s) || LeftOver(next, s) {
      assert s in w.b.pending && (ShownAt(w, s) || LeftOver(w, s));
    }
  }

  lemma AnswerKeepsOffers(w: World, slug: Slug)
    requires Inv(w) && slug in w.answers
    ensures var next := Step(w, AnswerArrives(slug)); AttemptSafe(next) && MergesApart(next)
  {
    AnswerKeepsAttempt(w, slug);
    AnswerKeepsApart(w, slug);
  }

  /** A settled answer is an edit, so that a list on its way will be thrown away. */
  lemma AnswerKeepsAttempt(w: World, slug: Slug)
    requires AttemptSafe(w) && AnswersTrue(w) && slug in w.answers
    ensures AttemptSafe(Step(w, AnswerArrives(slug)))
  {
  }

  lemma AnswerKeepsApart(w: World, slug: Slug)
    requires MergesApart(w) && AnswersTrue(w) && slug in w.answers
    ensures MergesApart(Step(w, AnswerArrives(slug)))
  {
  }

  lemma RefreshKeeps(w: World, e: Event)
    requires Inv(w) && Enabled(w, e) && Fair(w, e)
    requires e.BeginRefresh? || e.AccountLists? || e.ListLost? || e.Retry?
    ensures Inv(Step(w, e))
  {
    match e
    case AccountLists(list) => AccountListsKeeps(w, list);
    case BeginRefresh(seen) => AttemptKeeps(w, 0, seen);
    case ListLost =>
    case Retry =>
      if w.b.refresh.tries < REFRESH_TRIES {
        AttemptKeeps(w, w.b.refresh.tries, w.b.refresh.seen);
      }
  }

  lemma AttemptKeeps(w: World, tries: nat, seen: Option<nat>)
    requires Inv(w) && !Hazard(w) && w.b.merging.None? && w.b.offer == []
    ensures Inv(w.(b := RefreshBegun(w.b, tries, seen), listing := None))
  {
  }

  lemma AccountListsKeeps(w: World, list: seq<Slug>)
    requires Inv(w) && Enabled(w, AccountLists(list))
    ensures Inv(Step(w, AccountLists(list)))
  {
    assert forall slug :: slug in list <==> slug in ToSet(list);
    assert ListingFresh(w, list);
  }

  lemma ListArrivesKeeps(w: World, e: Event)
    requires Inv(w) && Enabled(w, e) && e.ListArrives?
    ensures Inv(Step(w, e))
  {
    if Accepts(w.b) {
      var r := ListIsMatched(w, e.order);
      MatchedKeeps(w, w.listing.value.slugs, r);
    }
  }

  lemma ListIsMatched(w: World, order: seq<Slug>) returns (r: Reconciled)
    requires Enabled(w, ListArrives(order)) && Accepts(w.b)
    ensures r == Reconcile(w.b.local, w.listing.value.slugs, w.b.base, w.b.pending, order)
    ensures MatchesList(w.b, w.listing.value.slugs, r) && Step(w, ListArrives(order)) == AfterMatch(w, r)
  {
    r := Reconcile(w.b.local, w.listing.value.slugs, w.b.base, w.b.pending, order);
    ReconcileMembers(w.b.local, w.listing.value.slugs, w.b.base, w.b.pending, order, r);
    MatchedFrame(w.b, w.b.refresh.seen, r);
  }

  lemma MatchedFrame(b: Browser, seen: Option<nat>, r: Reconciled)
    ensures var m := Matched(b, seen, r);
            m == b.(local := r.local, base := r.base, pending := r.pending, version := seen, offer := r.localOnly,
                    refresh := NoRefresh, chains := m.chains, tickets := m.tickets)
  {
    var stored := b.(local := r.local, base := r.base, pending := r.pending, version := seen,
                     offer := r.localOnly, refresh := NoRefresh);
    EnqueueAllFrame(stored, r.puts, Put);
    EnqueueAllFrame(EnqueueAll(stored, r.puts, Put), r.deletes, Delete);
  }

  /** The result of matching, slug by slug, as far as the protocol depends on it. */
  ghost predicate MatchesList(b: Browser, list: seq<Slug>, r: Reconciled) {
    && (forall slug :: slug in r.localOnly <==>
          slug in b.local && slug !in list && slug !in b.base && !Has(b.pending, slug, Put))
    && (forall slug :: slug in r.local <==>
          (slug in list && !Has(b.pending, slug, Delete)) || Has(r.pending, slug, Put) || slug in r.localOnly)
    && (forall slug :: slug in r.pending <==> slug in b.pending && Due(b.pending[slug], slug, list))
    && (forall slug :: slug in r.pending ==> r.pending[slug] == b.pending[slug])
  }

  function AfterMatch(w: World, r: Reconciled): World
    requires w.b.refresh.Fetching?
  {
    w.(b := Matched(w.b, w.b.refresh.seen, r), listing := None, last := w.last + TakenUp(w.b.pending, r.local))
  }

  /** Accepting a fresh list: what it drops from pending, the account already shows. */
  lemma MatchedKeeps(w: World, list: seq<Slug>, r: Reconciled)
    requires Inv(w) && Accepts(w.b) && ListingFresh(w, list) && MatchesList(w.b, list, r)
    ensures Inv(AfterMatch(w, r))
  {
    MatchedFrame(w.b, w.b.refresh.seen, r);
    MatchedAgrees(w, list, r);
    MatchedShows(w, list, r);
    var next := AfterMatch(w, r);
    assert FlightHarmless(next) && AnswersTrue(next) && AttemptSafe(next);
    assert MergesApart(next);
  }

  lemma MatchedAgrees(w: World, list: seq<Slug>, r: Reconciled)
    requires Agreement(w) && PendingShown(w) && Accepts(w.b) && ListingFresh(w, list) && MatchesList(w.b, list, r)
    ensures Agreement(AfterMatch(w, r))
  {
    MatchedFrame(w.b, w.b.refresh.seen, r);
    var next := AfterMatch(w, r);
    forall slug | slug in next.last && slug !in next.b.pending
      ensures slug in next.b.local <==> slug in next.account
      ensures if slug in next.refused then next.last[slug] && slug !in next.b.local
              else next.last[slug] == (slug in next.b.local)
    {
      if slug in w.b.pending {
        assert !Due(w.b.pending[slug], slug, list);
      }
    }
  }

  lemma MatchedShows(w: World, list: seq<Slug>, r: Reconciled)
    requires PendingShown(w) && Accepts(w.b) && MatchesList(w.b, list, r)
    ensures PendingShown(AfterMatch(w, r))
  {
    MatchedFrame(w.b, w.b.refresh.seen, r);
    var next := AfterMatch(w, r);
    forall slug | slug in next.b.pending ensures ShownAt(next, slug) {
      assert slug in TakenUp(w.b.pending, r.local);
    }
  }

  lemma MergeKeeps(w: World, e: Event)
    requires Inv(w) && Enabled(w, e) && Fair(w, e)
    requires e.BeginMerge? || e.AccountMerges? || e.MergeArrives? || e.MergeLost?
    ensures Inv(Step(w, e))
  {
    match e
    case BeginMerge => BeginMergeKeeps(w);
    case AccountMerges(taken) => AccountMergesKeeps(w, taken);
    case MergeArrives => MergeArrivesKeeps(w);
    case MergeLost =>
  }

  lemma BeginMergeKeeps(w: World)
    requires Inv(w) && Enabled(w, BeginMerge)
    ensures Inv(Step(w, BeginMerge))
  {
    var next := Step(w, BeginMerge);
    assert next == w.(b := w.b.(offer := next.b.offer, merging := next.b.merging), merged := next.merged);
    MergingFrame(w, next.b.offer, next.b.merging, next.merged);
    BeginMergeApart(w);
  }

  /** Of the invariant, only the last part speaks of the offer and of the merge under way. */
  lemma MergingFrame(w: World, offer: seq<Slug>, merging: Option<seq<Slug>>, merged: bool)
    requires Inv(w)
    ensures var next := w.(b := w.b.(offer := offer, merging := merging), merged := merged);
            Agreement(next) && PendingShown(next) && FlightHarmless(next) && AnswersTrue(next) && AttemptSafe(next)
  {
  }

  lemma BeginMergeApart(w: World)
    requires Agreement(w) && PendingShown(w) && FlightHarmless(w) && MergesApart(w)
    ensures MergesApart(Step(w, BeginMerge))
  {
    SendableMembers(w.b);
    var next := Step(w, BeginMerge);
    assert next.b.merging.Some? && w.b.merging.None? ==> next.b.merging.value == Sendable(w.b);
  }

  lemma SendableMembers(b: Browser)
    ensures forall slug :: slug in Sendable(b) ==> slug in b.offer && slug in b.local && slug !in b.pending
  {
    LastNMembers(Select(b.offer, ToSet(b.local) - b.pending.Keys), SAVED_LIMIT);
  }

  lemma AccountMergesKeeps(w: World, taken: set<Slug>)
    requires Inv(w) && Enabled(w, AccountMerges(taken))
    ensures Inv(Step(w, AccountMerges(taken)))
  {
    assert forall slug :: slug in taken ==> slug in ToSet(w.b.merging.value) && slug in w.b.merging.value;
  }

  lemma MergeArrivesKeeps(w: World)
    requires Inv(w) && Enabled(w, MergeArrives) && Fair(w, MergeArrives)
    ensures Inv(Step(w, MergeArrives))
  {
  }

  lemma LastNMembers(xs: seq<Slug>, n: nat)
    ensures forall slug :: slug in LastN(xs, n) ==> slug in xs
  {
  }

  lemma StepKeeps(w: World, e: Event)
    requires Inv(w) && Enabled(w, e) && Fair(w, e)
    ensures Inv(Step(w, e))
  {
    match e
    case Toggle(slug, on) => ToggleKeeps(w, slug, on);
    case BeginDelivery(slug) => BeginDeliveryKeeps(w, slug);
    case AnswerLost(slug) => AnswerLostKeeps(w, slug);
    case AccountAnswers(_, _) => AccountAnswersKeeps(w, e);
    case AnswerArrives(_) => AnswerArrivesKeeps(w, e);
    case BeginRefresh(_) => RefreshKeeps(w, e);
    case AccountLists(_) => RefreshKeeps(w, e);
    case ListLost => RefreshKeeps(w, e);
    case Retry => RefreshKeeps(w, e);
    case ListArrives(_) => ListArrivesKeeps(w, e);
    case BeginMerge => MergeKeeps(w, e);
    case AccountMerges(_) => MergeKeeps(w, e);
    case MergeArrives => MergeKeeps(w, e);
    case MergeLost => MergeKeeps(w, e);
  }

  /** Over every fair interleaving, browser and account agree on every toggled slug that is not pending. */
  lemma {:induction false} FairRunsAgree(w: World, es: seq<Event>)
    requires Inv(w) && Run(w, es) && FairRun(w, es)
    ensures Inv(After(w, es)) && Agreement(After(w, es))
    decreases |es|
  {
    if es != [] {
      StepKeeps(w, es[0]);
      FairRunsAgree(Step(w, es[0]), es[1..]);
    }
  }

  // ---------- the assumption is exact ----------

  lemma {:induction false} HasListing(s: set<Slug>) returns (list: seq<Slug>)
    ensures Lists(list, s)
  {
    if s == {} {
      list := [];
    } else {
      var slug :| slug in s;
      var rest := HasListing(s - {slug});
      assert slug !in ToSet(rest);
      list := rest + [slug];
      assert ToSet(list) == ToSet(rest) + {slug};
    }
  }

  /** Accepting a list fetched in a hazard: the newer toggle is forgotten, the old delivery is still on its way. */
  lemma ListForgetsToggle(w: World, slug: Slug, list: seq<Slug>, order: seq<Slug>)
    requires PendingShown(w) && HazardAt(w, slug) && w.b.refresh.Fetching? && w.b.refresh.since == w.b.edits
    requires ToSet(list) == w.account && Lists(order, w.b.pending.Keys)
    ensures var next := ListArrived(w.b, list, order);
            slug !in next.pending && (slug in next.local <==> slug in w.account) && next.flight == w.b.flight
  {
    var r := Reconcile(w.b.local, list, w.b.base, w.b.pending, order);
    assert slug in list <==> slug in ToSet(list);
    ReconcileMembers(w.b.local, list, w.b.base, w.b.pending, order, r);
    MatchedFrame(w.b, w.b.refresh.seen, r);
  }

  /** The old delivery lands: nothing is pending or in flight, and browser and account differ. */
  lemma OldDeliveryLands(w: World, slug: Slug)
    requires slug in w.b.flight && slug !in w.answers && slug !in w.b.pending && slug in w.last
    requires slug in w.b.local <==> slug in w.account
    requires (w.b.flight[slug].op == Put) != (slug in w.account)
    ensures var end := Step(Step(w, AccountAnswers(slug, Accepted)), AnswerArrives(slug));
            && slug in end.last && slug !in end.b.pending && slug !in end.b.flight
            && (slug in end.b.local) != (slug in end.account)
  {
  }

  lemma RunCons(w: World, e: Event, es: seq<Event>)
    requires Enabled(w, e) && Run(Step(w, e), es)
    ensures Run(w, [e] + es) && After(w, [e] + es) == After(Step(w, e), es)
    ensures Fair(w, e) && FairRun(Step(w, e), es) ==> FairRun(w, [e] + es)
  {
    assert ([e] + es)[1..] == es;
  }

  predicate Disagrees(w: World, slug: Slug) {
    slug in w.last && slug !in w.b.pending && slug !in w.b.flight && (slug in w.b.local) != (slug in w.account)
  }

  lemma OldDeliveryRun(w: World, slug: Slug) returns (es: seq<Event>)
    requires slug in w.b.flight && slug !in w.answers && slug !in w.b.pending && slug in w.last
    requires slug in w.b.local <==> slug in w.account
    requires (w.b.flight[slug].op == Put) != (slug in w.account)
    ensures Run(w, es) && FairRun(w, es) && Disagrees(After(w, es), slug)
  {
    OldDeliveryLands(w, slug);
    var w1 := Step(w, AccountAnswers(slug, Accepted));
    RunCons(w1, AnswerArrives(slug), []);
    es := [AccountAnswers(slug, Accepted)] + ([AnswerArrives(slug)] + []);
    RunCons(w, AccountAnswers(slug, Accepted), [AnswerArrives(slug)] + []);
  }

  lemma RunCons2(w: World, e: Event, f: Event, es: seq<Event>)
    requires Enabled(w, e) && Enabled(Step(w, e), f) && Run(Step(Step(w, e), f), es)
    requires Fair(w, e) && Fair(Step(w, e), f) && FairRun(Step(Step(w, e), f), es)
    ensures Run(w, [e] + ([f] + es)) && FairRun(w, [e] + ([f] + es))
    ensures After(w, [e] + ([f] + es)) == After(Step(Step(w, e), f), es)
  {
    RunCons(Step(w, e), f, es);
    RunCons(w, e, [f] + es);
  }

  /**
   * An attempt begun in a hazard can break the promise for good: the list makes the browser forget the newer toggle,
   * then the old delivery lands. Nothing is left pending or in flight.
   */
  lemma HazardousAttemptBreaks(w: World, slug: Slug, list: seq<Slug>, order: seq<Slug>) returns (es: seq<Event>)
    requires PendingShown(w) && HazardAt(w, slug)
    requires w.b.refresh.Fetching? && w.b.refresh.since == w.b.edits && w.listing.None?
    requires ToSet(list) == w.account && Lists(order, w.b.pending.Keys)
    ensures Run(w, es) && FairRun(w, es) && Disagrees(After(w, es), slug)
  {
    var next := ListedInHazard(w, slug, list, order);
    var rest := OldDeliveryRun(next, slug);
    es := [AccountLists(list)] + ([ListArrives(order)] + rest);
    RunCons2(w, AccountLists(list), ListArrives(order), rest);
  }

  lemma ListedInHazard(w: World, slug: Slug, list: seq<Slug>, order: seq<Slug>) returns (next: World)
    requires PendingShown(w) && HazardAt(w, slug)
    requires w.b.refresh.Fetching? && w.b.refresh.since == w.b.edits && w.listing.None?
    requires ToSet(list) == w.account && Lists(order, w.b.pending.Keys)
    ensures Enabled(w, AccountLists(list)) && Enabled(Step(w, AccountLists(list)), ListArrives(order))
    ensures next == Step(Step(w, AccountLists(list)), ListArrives(order))
    ensures slug in next.b.flight && slug !in next.answers && slug !in next.b.pending && slug in next.last
    ensures slug in next.b.local <==> slug in next.account
    ensures (next.b.flight[slug].op == Put) != (slug in next.account)
  {
    ListForgetsToggle(w, slug, list, order);
    var listed := Step(w, AccountLists(list));
    next := Step(listed, ListArrives(order));
    assert next.b == ListArrived(w.b, list, order);
  }

  lemma DisagreementBreaks(w: World, slug: Slug)
    requires Disagrees(w, slug)
    ensures !Agreement(w)
  {
  }

  ghost predicate KeepsPromise(w: World, es: seq<Event>) {
    Run(w, es) && FairRun(w, es) ==> Agreement(After(w, es))
  }

  /**
   * A refresh attempt is safe to begin if and only if no superseded delivery is still on its way: from there every fair
   * continuation keeps the promise, and otherwise some fair continuation breaks it.
   */
  lemma AttemptSafeIff(w: World, e: Event)
    requires Inv(w) && Enabled(w, e) && BeginsAttempt(w, e)
    ensures !Hazard(w) <==> forall es :: KeepsPromise(Step(w, e), es)
  {
    var begun := Step(w, e);
    if !Hazard(w) {
      StepKeeps(w, e);
      PromiseKept(begun);
    } else {
      var slug :| slug in w.b.flight && HazardAt(w, slug);
      AttemptCarriesHazard(w, e, slug);
      var es := PromiseBroken(begun, slug);
      assert !KeepsPromise(begun, es);
    }
  }

  lemma PromiseKept(w: World)
    requires Inv(w)
    ensures forall es :: KeepsPromise(w, es)
  {
    forall es ensures KeepsPromise(w, es) {
      if Run(w, es) && FairRun(w, es) {
        FairRunsAgree(w, es);
      }
    }
  }

  lemma AttemptCarriesHazard(w: World, e: Event, slug: Slug)
    requires Inv(w) && Enabled(w, e) && BeginsAttempt(w, e) && HazardAt(w, slug)
    ensures var begun := Step(w, e);
            && PendingShown(begun) && HazardAt(begun, slug) && begun.listing.None?
            && begun.b.refresh.Fetching? && begun.b.refresh.since == begun.b.edits
  {
    var begun := Step(w, e);
    assert begun.b.pending == w.b.pending && begun.b.flight == w.b.flight && begun.b.local == w.b.local;
    assert begun.account == w.account && begun.answers == w.answers && begun.last == w.last;
    assert begun.b.chains == w.b.chains && begun.refused == w.refused;
  }

  lemma PromiseBroken(w: World, slug: Slug) returns (es: seq<Event>)
    requires PendingShown(w) && HazardAt(w, slug)
    requires w.b.refresh.Fetching? && w.b.refresh.since == w.b.edits && w.listing.None?
    ensures !KeepsPromise(w, es)
  {
    var list := HasListing(w.account);
    var order := HasListing(w.b.pending.Keys);
    es := HazardousAttemptBreaks(w, slug, list, order);
    DisagreementBreaks(After(w, es), slug);
  }

  /**
   * A settled answer that is neither acceptance nor a known refusal may be handled if and only if that is harmless:
   * then every fair continuation keeps the promise, and otherwise the promise is broken at once.
   */
  lemma InvalidAnswerIff(w: World, slug: Slug)
    requires Inv(w) && Enabled(w, AnswerArrives(slug)) && w.answers[slug] == Invalid
    ensures InvalidHarmless(w, slug) <==> Agreement(Step(w, AnswerArrives(slug)))
    ensures InvalidHarmless(w, slug) <==> forall es :: KeepsPromise(Step(w, AnswerArrives(slug)), es)
  {
    var next := Step(w, AnswerArrives(slug));
    if InvalidHarmless(w, slug) {
      StepKeeps(w, AnswerArrives(slug));
      PromiseKept(next);
    } else {
      InvalidDropsChange(w, slug);
      assert !KeepsPromise(next, []);
    }
  }

  /** The same condition is exact for the whole invariant. */
  lemma InvalidKeepsInvIff(w: World, slug: Slug)
    requires Inv(w) && Enabled(w, AnswerArrives(slug)) && w.answers[slug] == Invalid
    ensures InvalidHarmless(w, slug) <==> Inv(Step(w, AnswerArrives(slug)))
  {
    if InvalidHarmless(w, slug) {
      StepKeeps(w, AnswerArrives(slug));
    } else {
      InvalidDropsChange(w, slug);
    }
  }

  /** The change that was shown and pending is dropped although the account lacks it. */
  lemma InvalidDropsChange(w: World, slug: Slug)
    requires PendingShown(w) && Enabled(w, AnswerArrives(slug)) && w.answers[slug] == Invalid
    requires !InvalidHarmless(w, slug)
    ensures Disagrees(Step(w, AnswerArrives(slug)), slug) && !Agreement(Step(w, AnswerArrives(slug)))
  {
    assert ShownAt(w, slug);
  }

  /** A put or a delete that would change the account, answered in an unexpected way, breaks the promise. */
  lemma InvalidAnswerBreaks(w: World, slug: Slug)
    requires Inv(w) && slug in w.b.flight && slug !in w.answers && Has(w.b.pending, slug, w.b.flight[slug].op)
    requires (w.b.flight[slug].op == Put) != (slug in w.account)
    ensures var es := [AccountAnswers(slug, Invalid), AnswerArrives(slug)];
            Run(w, es) && !Agreement(After(w, es))
  {
    var w1 := Step(w, AccountAnswers(slug, Invalid));
    RunCons(w1, AnswerArrives(slug), []);
    RunCons(w, AccountAnswers(slug, Invalid), [AnswerArrives(slug)] + []);
    assert [AccountAnswers(slug, Invalid)] + ([AnswerArrives(slug)] + [])
        == [AccountAnswers(slug, Invalid), AnswerArrives(slug)];
    AccountAnswersKeeps(w, AccountAnswers(slug, Invalid));
    InvalidDropsChange(w1, slug);
  }

  // ---------- retries ----------

  /** Tickets are handed out in increasing order. */
  predicate TicketsBelow(b: Browser) {
    && (forall slug :: slug in b.flight ==> b.flight[slug].ticket < b.tickets)
    && (forall slug :: slug in b.chains ==> forall s :: s in b.chains[slug] ==> s.ticket < b.tickets)
    && (b.refresh.Settling? ==> b.refresh.mark <= b.tickets)
  }

  lemma {:induction false} EnqueueAllTickets(b: Browser, slugs: seq<Slug>, op: SavedOp)
    requires TicketsBelow(b)
    ensures TicketsBelow(EnqueueAll(b, slugs, op))
  {
    if slugs != [] {
      EnqueueAllTickets(b, slugs[..|slugs| - 1], op);
    }
  }

  lemma MatchedTickets(b: Browser, seen: Option<nat>, r: Reconciled)
    requires TicketsBelow(b)
    ensures TicketsBelow(Matched(b, seen, r))
  {
    var stored := b.(local := r.local, base := r.base, pending := r.pending, version := seen, offer := r.localOnly,
        refresh := NoRefresh);
    EnqueueAllTickets(stored, r.puts, Put);
    EnqueueAllTickets(EnqueueAll(stored, r.puts, Put), r.deletes, Delete);
  }

  lemma ToggleTickets(b: Browser, slug: Slug, on: Option<bool>)
    requires TicketsBelow(b)
    ensures TicketsBelow(Toggled(b, slug, on))
  {
  }

  lemma BeginTickets(b: Browser, slug: Slug)
    requires TicketsBelow(b) && CanDeliver(b, slug)
    ensures TicketsBelow(DeliveryBegun(b, slug))
  {
  }

  lemma TicketsKeep(w: World, e: Event)
    requires TicketsBelow(w.b) && Enabled(w, e)
    ensures TicketsBelow(Step(w, e).b)
  {
    match e
    case Toggle(slug, on) => ToggleTickets(w.b, slug, on);
    case BeginDelivery(slug) => BeginTickets(w.b, slug);
    case ListArrives(order) => ListTickets(w.b, w.listing.value.slugs, order);
    case Retry =>
    case _ => NothingSent(w, e);
  }

  /** The other steps send nothing; a delivery that leaves or ends keeps its ticket. */
  lemma NothingSent(w: World, e: Event)
    requires TicketsBelow(w.b) && Enabled(w, e)
    requires !e.Toggle? && !e.BeginDelivery? && !e.ListArrives? && !e.Retry?
    ensures TicketsBelow(Step(w, e).b)
  {
  }

  lemma ListTickets(b: Browser, list: seq<Slug>, order: seq<Slug>)
    requires TicketsBelow(b) && b.refresh.Fetching? && Lists(order, b.pending.Keys)
    ensures TicketsBelow(ListArrived(b, list, order))
  {
    MatchedTickets(b, b.refresh.seen, Reconcile(b.local, list, b.base, b.pending, order));
  }

  /** While a discarded list waits for the chains, what it waits for stays the same. */
  lemma {:induction false} WaitingRun(w: World, es: seq<Event>)
    requires Inv(w) && TicketsBelow(w.b) && w.b.refresh.Settling?
    requires Run(w, es) && FairRun(w, es) && Retry !in es
    ensures var end := After(w, es); Inv(end) && TicketsBelow(end.b) && end.b.refresh == w.b.refresh
    decreases |es|
  {
    if es != [] {
      assert es[0] in es;
      StepKeeps(w, es[0]);
      TicketsKeep(w, es[0]);
      StillWaiting(w, es[0]);
      WaitingRun(Step(w, es[0]), es[1..]);
    }
  }

  lemma StillWaiting(w: World, e: Event)
    requires MergesApart(w) && w.b.refresh.Settling? && Enabled(w, e) && !e.Retry?
    ensures Step(w, e).b.refresh == w.b.refresh
  {
  }

  /**
   * When a discarded list is asked for again, every delivery in flight was sent after the discard. So whatever hazard
   * the retry meets is a toggle made while it waited; with no send since the discard it meets none.
   */
  lemma RetryHazardsAreNew(w: World, order: seq<Slug>, es: seq<Event>)
    requires Inv(w) && TicketsBelow(w.b) && Enabled(w, ListArrives(order)) && !Accepts(w.b)
    requires var waiting := Step(w, ListArrives(order)); Run(waiting, es) && FairRun(waiting, es) && Retry !in es
    requires Enabled(After(Step(w, ListArrives(order)), es), Retry)
    ensures var end := After(Step(w, ListArrives(order)), es);
            && (forall slug :: slug in end.b.flight ==> end.b.flight[slug].ticket >= w.b.tickets)
            && (end.b.tickets == w.b.tickets ==> end.b.flight == map[] && !Hazard(end))
  {
    var waiting := Step(w, ListArrives(order));
    StepKeeps(w, ListArrives(order));
    TicketsKeep(w, ListArrives(order));
    WaitingRun(waiting, es);
    var end := After(waiting, es);
    if end.b.tickets == w.b.tickets {
      assert forall slug :: slug !in end.b.flight;
    }
  }

  /** And the list is asked for again as soon as every delivery sent before the discard has ended. */
  lemma RetryIsAllowed(w: World, order: seq<Slug>, es: seq<Event>)
    requires Inv(w) && TicketsBelow(w.b) && Enabled(w, ListArrives(order)) && !Accepts(w.b)
    requires var waiting := Step(w, ListArrives(order)); Run(waiting, es) && FairRun(waiting, es) && Retry !in es
    requires var b := After(Step(w, ListArrives(order)), es).b;
             && (forall slug :: slug in b.flight ==> b.flight[slug].ticket >= w.b.tickets)
             && (forall slug :: slug in b.chains ==> forall s :: s in b.chains[slug] ==> s.ticket >= w.b.tickets)
    ensures Enabled(After(Step(w, ListArrives(order)), es), Retry)
  {
    StepKeeps(w, ListArrives(order));
    TicketsKeep(w, ListArrives(order));
    WaitingRun(Step(w, ListArrives(order)), es);
  }
}
