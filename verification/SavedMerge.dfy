/**
 * Moving this browser's own slugs to the account, in rounds of SAVED_LIMIT, and the saved version that skips a
 * refresh.
 */
module SavedMerge {
  import opened Basics
  import opened Sequences
  import opened SavedCore
  import opened SavedBrowser
  import opened SavedProtocol

  // ---------- a merge and the next accepted list ----------

  /** Every list that arrives in these events is thrown away. */
  predicate NoneAccepted(w: World, es: seq<Event>)
    requires Run(w, es)
    decreases |es|
  {
    es == [] || (!(es[0].ListArrives? && Accepts(w.b)) && NoneAccepted(Step(w, es[0]), es[1..]))
  }

  predicate Toggles(e: Event, slug: Slug) {
    e.Toggle? && e.slug == slug
  }

  /** Until the next accepted list there is nothing to offer, so no further merge begins. */
  predicate MergeOver(b: Browser) {
    b.offer == [] && b.merging.None?
  }

  /** A sent slug that is still here came from the account, is there, or is saved anew. */
  predicate SentAccounted(w: World, slug: Slug) {
    slug in w.b.local ==> slug in w.b.base || slug in w.account || Has(w.b.pending, slug, Put)
  }

  /** Only this browser has the slug, and nothing was done with it since login. */
  predicate OnlyHere(w: World, slug: Slug) {
    && slug in w.b.local && slug !in w.b.base && slug !in w.b.pending && slug !in w.account && slug !in w.last
  }

  /** The merge under way leaves this slug out, which only the browser has. */
  predicate KeptBack(w: World, slug: Slug)
    requires w.b.merging.Some?
  {
    && slug in w.b.local && slug !in w.b.merging.value
    && slug !in w.b.base && slug !in w.b.pending && slug !in w.account
  }

  lemma MergeOverStep(w: World, e: Event)
    requires Inv(w) && Enabled(w, e) && MergeOver(w.b) && !(e.ListArrives? && Accepts(w.b))
    ensures MergeOver(Step(w, e).b)
  {
  }

  /** Apart from toggles and answers, nothing changes the stored lists then. */
  lemma StoredStays(w: World, e: Event)
    requires Enabled(w, e) && MergeOver(w.b) && !(e.ListArrives? && Accepts(w.b)) && !e.Toggle? && !e.AnswerArrives?
    ensures var next := Step(w, e);
            && next.b.local == w.b.local && next.b.base == w.b.base && next.b.pending == w.b.pending
            && next.last == w.last
            && (e.AccountAnswers? || next.account == w.account)
  {
  }

  lemma SentStep(w: World, e: Event, slug: Slug)
    requires Inv(w) && Enabled(w, e) && Fair(w, e) && MergeOver(w.b) && !(e.ListArrives? && Accepts(w.b))
    requires SentAccounted(w, slug)
    ensures SentAccounted(Step(w, e), slug)
  {
    match e
    case Toggle(_, _) =>
    case AccountAnswers(x, answer) => SentTaken(w, x, answer, slug);
    case AnswerArrives(x) => SentAnswered(w, x, slug);
    case _ => StoredStays(w, e);
  }

  /** The account deletes nothing that is still here. */
  lemma SentTaken(w: World, x: Slug, answer: Answer, slug: Slug)
    requires Agreement(w) && PendingShown(w) && FlightHarmless(w) && Enabled(w, AccountAnswers(x, answer))
    requires SentAccounted(w, slug)
    ensures SentAccounted(Step(w, AccountAnswers(x, answer)), slug)
  {
    if x == slug && slug in w.b.pending {
      assert ShownAt(w, slug);
    }
  }

  lemma SentAnswered(w: World, x: Slug, slug: Slug)
    requires Agreement(w) && PendingShown(w) && FlightHarmless(w) && AnswersTrue(w)
    requires Enabled(w, AnswerArrives(x)) && Fair(w, AnswerArrives(x)) && SentAccounted(w, slug)
    ensures SentAccounted(Step(w, AnswerArrives(x)), slug)
  {
    var next := DeliveryAnswered(w.b, x, w.answers[x]);
    assert slug in next.local ==> slug in w.b.local;
    if slug != x {
      assert slug in w.b.base ==> slug in next.base;
    }
  }

  lemma OnlyHereStep(w: World, e: Event, slug: Slug)
    requires Inv(w) && Enabled(w, e) && Fair(w, e) && MergeOver(w.b) && !(e.ListArrives? && Accepts(w.b))
    requires OnlyHere(w, slug) && !Toggles(e, slug)
    ensures OnlyHere(Step(w, e), slug)
  {
    match e
    case Toggle(x, on) => OnlyHereToggled(w, x, on, slug);
    case AnswerArrives(x) => OnlyHereAnswered(w, x, slug);
    case _ => StoredStays(w, e);
  }

  lemma OnlyHereToggled(w: World, x: Slug, on: Option<bool>, slug: Slug)
    requires OnlyHere(w, slug) && x != slug
    ensures OnlyHere(Step(w, Toggle(x, on)), slug)
  {
  }

  lemma OnlyHereAnswered(w: World, x: Slug, slug: Slug)
    requires PendingShown(w) && Enabled(w, AnswerArrives(x)) && OnlyHere(w, slug)
    ensures OnlyHere(Step(w, AnswerArrives(x)), slug)
  {
    assert x in w.last && x != slug;
  }

  lemma {:induction false} SentRun(w: World, es: seq<Event>, slug: Slug)
    requires Inv(w) && Run(w, es) && FairRun(w, es) && NoneAccepted(w, es) && MergeOver(w.b) && SentAccounted(w, slug)
    ensures SentAccounted(After(w, es), slug)
    decreases |es|
  {
    if es != [] {
      StepKeeps(w, es[0]);
      MergeOverStep(w, es[0]);
      SentStep(w, es[0], slug);
      SentRun(Step(w, es[0]), es[1..], slug);
    }
  }

  lemma {:induction false} OnlyHereRun(w: World, es: seq<Event>, slug: Slug)
    requires Inv(w) && Run(w, es) && FairRun(w, es) && NoneAccepted(w, es) && MergeOver(w.b) && OnlyHere(w, slug)
    requires forall e :: e in es ==> !Toggles(e, slug)
    ensures OnlyHere(After(w, es), slug)
    decreases |es|
  {
    if es != [] {
      assert es[0] in es;
      StepKeeps(w, es[0]);
      MergeOverStep(w, es[0]);
      OnlyHereStep(w, es[0], slug);
      OnlyHereRun(Step(w, es[0]), es[1..], slug);
    }
  }

  lemma MergeArrived(w: World, slug: Slug)
    requires Inv(w) && Enabled(w, MergeArrives)
    ensures MergeOver(Step(w, MergeArrives).b)
    ensures slug in w.b.merging.value && slug !in w.b.pending ==> SentAccounted(Step(w, MergeArrives), slug)
    ensures KeptBack(w, slug) ==> OnlyHere(Step(w, MergeArrives), slug)
  {
  }

  /**
   * After a successful merge comes any run of toggles, deliveries, failed, discarded and repeated requests, and then
   * the next accepted list. No slug that was sent, and had no change of its own when the answer came, is local-only
   * then: it stays exactly if the account lists it or a newer change asks for it. Every slug that was not sent, that
   * only this browser had and that was not toggled since, still is local-only.
   */
  lemma MergeThenRefresh(w: World, es: seq<Event>, order: seq<Slug>, r: Reconciled, slug: Slug)
    requires Inv(w) && Enabled(w, MergeArrives) && Fair(w, MergeArrives)
    requires var merged := Step(w, MergeArrives); Run(merged, es) && FairRun(merged, es) && NoneAccepted(merged, es)
    requires var end := After(Step(w, MergeArrives), es);
             && Enabled(end, ListArrives(order)) && Accepts(end.b)
             && r == Reconcile(end.b.local, end.listing.value.slugs, end.b.base, end.b.pending, order)
    ensures var end := After(Step(w, MergeArrives), es);
            slug in w.b.merging.value && slug !in w.b.pending ==>
              && slug !in r.localOnly
              && (slug in r.local <==> (slug in end.listing.value.slugs && !Has(end.b.pending, slug, Delete))
                                       || Has(r.pending, slug, Put))
    ensures KeptBack(w, slug) && (forall e :: e in es ==> !Toggles(e, slug)) ==> slug in r.localOnly && slug in r.local
  {
    var merged := Step(w, MergeArrives);
    var end := After(merged, es);
    StepKeeps(w, MergeArrives);
    MergeArrived(w, slug);
    FairRunsAgree(merged, es);
    ReconcileMembers(end.b.local, end.listing.value.slugs, end.b.base, end.b.pending, order, r);
    if slug in w.b.merging.value && slug !in w.b.pending {
      SentRun(merged, es, slug);
      assert ListingFresh(end, end.listing.value.slugs);
    } else if KeptBack(w, slug) && forall e :: e in es ==> !Toggles(e, slug) {
      OnlyHereRun(merged, es, slug);
      assert ListingFresh(end, end.listing.value.slugs);
    }
  }

  // ---------- rounds ----------

  /** Nothing pending, nothing under way, and the offer is what the account does not hold, oldest first. */
  predicate Quiet(b: Browser, account: set<Slug>) {
    && b.pending == map[] && b.merging.None? && b.refresh.NoRefresh?
    && Distinct(b.local) && ToSet(b.base) == account
    && b.offer == Select(b.local, ToSet(b.local) - account)
  }

  /** What one round meets: the slugs the account takes of those sent, and the list it then returns. */
  datatype Round = Round(taken: set<Slug>, list: seq<Slug>)

  predicate RoundFits(b: Browser, account: set<Slug>, round: Round) {
    round.taken <= ToSet(Sendable(b)) && ToSet(round.list) == account + round.taken
  }

  /** One merge: ask, let the account take some, note what was sent, fetch the list and match it. */
  function MergeRound(b: Browser, round: Round): Browser
    requires b.pending == map[]
  {
    var asked := MergeBegun(b);
    if asked.merging.None? then asked
    else
      var done := MergeAnswered(asked, true);
      assert done.pending == map[] && Lists<Slug>([], done.pending.Keys);
      ListArrived(done, round.list, [])
  }

  function AccountAfter(b: Browser, account: set<Slug>, round: Round): set<Slug> {
    if MergeBegun(b).merging.None? then account else account + round.taken
  }

  /** An offer without its `n` most recent slugs, which come last. */
  function WithoutLatest(offer: seq<Slug>, n: nat): seq<Slug> {
    if |offer| <= n then [] else offer[..|offer| - n]
  }

  lemma OfferSlices(offer: seq<Slug>, local: seq<Slug>, n: nat)
    requires Distinct(offer) && forall slug :: slug in offer ==> slug in local
    ensures var sent := LastN(offer, n);
            Select(offer, ToSet(offer) - ToSet(sent)) == WithoutLatest(offer, n)
  {
    var sent := LastN(offer, n);
    var rest := WithoutLatest(offer, n);
    assert offer == rest + sent;
    LaterNotEarlier(rest, sent);
    KeepFirst(rest, sent);
  }

  lemma KeepFirst(first: seq<Slug>, second: seq<Slug>)
    requires forall slug :: slug in second ==> slug !in first
    ensures Select(first + second, ToSet(first + second) - ToSet(second)) == first
  {
    var keep := ToSet(first + second) - ToSet(second);
    SelectConcat(first, second, keep);
    SelectNone(second, keep);
    SelectAll(first, keep);
  }

  /**
   * A round leaves a quiet browser again, and shortens the offer by exactly the SAVED_LIMIT most recent slugs, whatever
   * the account took of them.
   */
  lemma RoundShortensOffer(b: Browser, account: set<Slug>, round: Round)
    requires Quiet(b, account) && RoundFits(b, account, round)
    ensures Quiet(MergeRound(b, round), AccountAfter(b, account, round))
    ensures MergeRound(b, round).offer == WithoutLatest(b.offer, SAVED_LIMIT)
  {
    if b.offer == [] {
      return;
    }
    SendsTheLatest(b, account);
    var r := RoundResult(b, round);
    RoundMatches(b, account, round, r);
    RoundIsMatched(b, account, round, r);
    OfferLeft(b, account);
  }

  lemma OfferLeft(b: Browser, account: set<Slug>)
    requires Quiet(b, account)
    ensures Select(b.offer, ToSet(b.offer) - ToSet(LastN(b.offer, SAVED_LIMIT)))
         == WithoutLatest(b.offer, SAVED_LIMIT)
  {
    SelectDistinct(b.local, ToSet(b.local) - account);
    OfferSlices(b.offer, b.local, SAVED_LIMIT);
  }

  lemma RoundMatches(b: Browser, account: set<Slug>, round: Round, r: Reconciled)
    requires Quiet(b, account) && RoundFits(b, account, round) && r == RoundResult(b, round)
    requires Sendable(b) == LastN(b.offer, SAVED_LIMIT)
    ensures r.localOnly == Select(b.offer, ToSet(b.offer) - ToSet(Sendable(b)))
    ensures Distinct(r.local) && r.pending == map[] && ToSet(r.base) == account + round.taken
    ensures r.localOnly == Select(r.local, ToSet(r.local) - (account + round.taken))
  {
    var base := MergedBase(b);
    assert forall slug :: slug in base <==> slug in b.base || slug in Sendable(b) by {
      assert b.pending.Keys == {};
    }
    RoundReconciles(b, account, round, base, r);
  }

  /** What a round stores, when there is something to send. */
  lemma RoundIsMatched(b: Browser, account: set<Slug>, round: Round, r: Reconciled)
    requires Quiet(b, account) && b.offer != [] && Sendable(b) != [] && r == RoundResult(b, round)
    ensures MergeBegun(b).merging == Some(Sendable(b))
    ensures var next := MergeRound(b, round);
            && next.local == r.local && next.base == r.base && next.pending == r.pending && next.offer == r.localOnly
            && next.merging.None? && next.refresh.NoRefresh?
  {
    var done := MergeAnswered(MergeBegun(b), true);
    MatchedFrame(done, None, r);
    assert MergeRound(b, round) == Matched(done, None, r);
  }

  function MergedBase(b: Browser): seq<Slug> {
    Dedup(b.base + Select(Sendable(b), ToSet(Sendable(b)) - b.pending.Keys))
  }

  function RoundResult(b: Browser, round: Round): Reconciled
    requires b.pending == map[]
  {
    assert Lists<Slug>([], b.pending.Keys);
    Reconcile(b.local, round.list, MergedBase(b), b.pending, [])
  }

  /** A quiet browser sends the most recent slugs of its offer. */
  lemma SendsTheLatest(b: Browser, account: set<Slug>)
    requires Quiet(b, account)
    ensures Sendable(b) == LastN(b.offer, SAVED_LIMIT)
  {
    SelectAll(b.offer, ToSet(b.local) - b.pending.Keys);
  }

  /** Which slugs the reconciliation inside a round leaves where. */
  lemma RoundMembers(b: Browser, account: set<Slug>, round: Round, base: seq<Slug>, r: Reconciled)
    requires Quiet(b, account) && RoundFits(b, account, round)
    requires Sendable(b) == LastN(b.offer, SAVED_LIMIT)
    requires forall slug :: slug in base <==> slug in b.base || slug in Sendable(b)
    requires r == Reconcile(b.local, round.list, base, map[], [])
    ensures forall slug :: slug in r.localOnly <==> slug in b.offer && slug !in Sendable(b)
    ensures forall slug :: slug in r.local && slug !in r.localOnly ==> slug in account + round.taken
    ensures forall slug :: slug in r.localOnly ==> slug !in account + round.taken && slug in r.local
    ensures r.pending == map[] && ToSet(r.base) == account + round.taken
  {
    ReconcileMembers(b.local, round.list, base, map[], [], r);
    assert forall slug :: slug in round.list <==> slug in ToSet(round.list);
    assert forall slug :: slug in b.base <==> slug in ToSet(b.base);
    LastNMembers(b.offer, SAVED_LIMIT);
    assert forall slug :: slug in b.offer <==> slug in b.local && slug !in account;
    assert ToSet(r.base) == ToSet(round.list);
  }

  /** The reconciliation inside a round, as lists. */
  lemma RoundReconciles(b: Browser, account: set<Slug>, round: Round, base: seq<Slug>, r: Reconciled)
    requires Quiet(b, account) && RoundFits(b, account, round)
    requires Sendable(b) == LastN(b.offer, SAVED_LIMIT)
    requires forall slug :: slug in base <==> slug in b.base || slug in Sendable(b)
    requires r == Reconcile(b.local, round.list, base, map[], [])
    ensures r.localOnly == Select(b.offer, ToSet(b.offer) - ToSet(Sendable(b)))
    ensures Distinct(r.local) && r.pending == map[] && ToSet(r.base) == account + round.taken
    ensures r.localOnly == Select(r.local, ToSet(r.local) - (account + round.taken))
  {
    RoundMembers(b, account, round, base, r);
    LocalOnlySequence(b.local, round.list, base, map[], [], r);
    SubOffer(b.local, ToSet(b.local) - account, ToSet(b.offer) - ToSet(Sendable(b)), r.localOnly);
    assert Select(r.local, ToSet(r.localOnly)) == r.localOnly by {
      LocalOnlyInPlace(b.local, round.list, base, map[], [], r);
      SelectDistinct(b.local, ToSet(r.localOnly));
      DedupDistinct(r.localOnly);
    }
    SelectSame(r.local, ToSet(r.localOnly), ToSet(r.local) - (account + round.taken));
  }

  /** Filtering the offer or the list itself gives the same slugs in the same order. */
  lemma SubOffer(local: seq<Slug>, offered: set<Slug>, keep: set<Slug>, only: seq<Slug>)
    requires only == Select(local, ToSet(only))
    requires forall slug :: slug in only <==> slug in local && slug in offered && slug in keep
    ensures only == Select(Select(local, offered), keep)
  {
    SelectSelect(local, offered, keep);
    SelectSame(local, ToSet(only), offered * keep);
  }

  predicate RoundsFit(b: Browser, account: set<Slug>, rounds: seq<Round>)
    requires b.pending == map[]
    decreases |rounds|
  {
    rounds == [] ||
    (RoundFits(b, account, rounds[0]) && MergeRound(b, rounds[0]).pending == map[]
     && RoundsFit(MergeRound(b, rounds[0]), AccountAfter(b, account, rounds[0]), rounds[1..]))
  }

  function AfterRounds(b: Browser, account: set<Slug>, rounds: seq<Round>): Browser
    requires b.pending == map[] && RoundsFit(b, account, rounds)
    decreases |rounds|
  {
    if rounds == [] then b
    else AfterRounds(MergeRound(b, rounds[0]), AccountAfter(b, account, rounds[0]), rounds[1..])
  }

  /**
   * With no new saves, k rounds leave the offer without its k * SAVED_LIMIT most recent slugs: it is empty after
   * ceil(n / SAVED_LIMIT) rounds and not before.
   */
  lemma RoundsEmptyTheOffer(b: Browser, account: set<Slug>, rounds: seq<Round>)
    requires Quiet(b, account) && RoundsFit(b, account, rounds)
    ensures AfterRounds(b, account, rounds).offer == WithoutLatest(b.offer, |rounds| * SAVED_LIMIT)
    ensures AfterRounds(b, account, rounds).offer == [] <==> |rounds| >= (|b.offer| + SAVED_LIMIT - 1) / SAVED_LIMIT
  {
    RoundsCutTheOffer(b, account, rounds);
    EmptiedAfter(b.offer, |rounds|);
  }

  lemma {:induction false} RoundsCutTheOffer(b: Browser, account: set<Slug>, rounds: seq<Round>)
    requires Quiet(b, account) && RoundsFit(b, account, rounds)
    ensures AfterRounds(b, account, rounds).offer == WithoutLatest(b.offer, |rounds| * SAVED_LIMIT)
    decreases |rounds|
  {
    if rounds != [] {
      RoundShortensOffer(b, account, rounds[0]);
      RoundsCutTheOffer(MergeRound(b, rounds[0]), AccountAfter(b, account, rounds[0]), rounds[1..]);
      CutTwice(b.offer, |rounds| - 1);
    }
  }

  lemma CutTwice(offer: seq<Slug>, more: nat)
    ensures WithoutLatest(WithoutLatest(offer, SAVED_LIMIT), more * SAVED_LIMIT)
         == WithoutLatest(offer, (more + 1) * SAVED_LIMIT)
  {
  }

  lemma EmptiedAfter(offer: seq<Slug>, rounds: nat)
    ensures WithoutLatest(offer, rounds * SAVED_LIMIT) == [] <==> rounds >= (|offer| + SAVED_LIMIT - 1) / SAVED_LIMIT
  {
  }

  // ---------- the saved version ----------

  /**
   * A stored version that is still the account's own means the stored base is the account list; the same holds ahead of
   * time for a list on its way.
   */
  predicate VersionSound(w: World) {
    && (w.b.version.Some? ==> w.b.version.value <= w.stamp)
    && (w.b.version == Some(w.stamp) ==> ToSet(w.b.base) == w.account)
    && (w.b.refresh.Fetching? && w.b.refresh.seen.Some? ==> w.b.refresh.seen.value <= w.stamp)
    && (w.b.refresh.Settling? && w.b.refresh.seen.Some? ==> w.b.refresh.seen.value <= w.stamp)
    && (w.listing.Some? ==>
          && w.b.refresh.Fetching? && w.listing.value.stamp <= w.stamp
          && (w.b.refresh.seen.Some? ==> w.b.refresh.seen.value <= w.listing.value.stamp)
          && (w.listing.value.stamp == w.stamp ==> ToSet(w.listing.value.slugs) == w.account))
  }

  lemma VersionStep(w: World, e: Event)
    requires AnswersTrue(w) && VersionSound(w) && Enabled(w, e) && !e.MergeArrives?
    ensures VersionSound(Step(w, e))
  {
    match e
    case ListArrives(order) => VersionListed(w, order);
    case AnswerArrives(slug) => VersionAnswer(w, slug);
    case AccountAnswers(slug, answer) => VersionTaken(w, slug, answer);
    case AccountMerges(taken) => VersionMerged(w, taken);
    case _ => VersionUntouched(w, e);
  }

  lemma VersionTaken(w: World, slug: Slug, answer: Answer)
    requires VersionSound(w) && Enabled(w, AccountAnswers(slug, answer))
    ensures VersionSound(Step(w, AccountAnswers(slug, answer)))
  {
  }

  lemma VersionMerged(w: World, taken: set<Slug>)
    requires VersionSound(w) && Enabled(w, AccountMerges(taken))
    ensures VersionSound(Step(w, AccountMerges(taken)))
  {
  }

  /** The other steps change neither the account nor the stored base and version. */
  lemma VersionUntouched(w: World, e: Event)
    requires VersionSound(w) && Enabled(w, e)
    requires !e.ListArrives? && !e.AnswerArrives? && !e.AccountAnswers? && !e.AccountMerges? && !e.MergeArrives?
    ensures VersionSound(Step(w, e))
  {
    match e
    case Toggle(slug, on) => VersionToggled(w, slug, on);
    case BeginDelivery(slug) => VersionBegun(w, slug);
    case BeginMerge => VersionOfMerge(w, e);
    case MergeLost => VersionOfMerge(w, e);
    case AnswerLost(_) =>
    case _ => VersionOfRequest(w, e);
  }

  lemma VersionOfMerge(w: World, e: Event)
    requires VersionSound(w) && Enabled(w, e) && (e.BeginMerge? || e.MergeLost?)
    ensures VersionSound(Step(w, e))
  {
  }

  lemma VersionOfRequest(w: World, e: Event)
    requires VersionSound(w) && Enabled(w, e) && (e.BeginRefresh? || e.AccountLists? || e.ListLost? || e.Retry?)
    ensures VersionSound(Step(w, e))
  {
  }

  lemma VersionToggled(w: World, slug: Slug, on: Option<bool>)
    requires VersionSound(w)
    ensures VersionSound(Step(w, Toggle(slug, on)))
  {
  }

  lemma VersionBegun(w: World, slug: Slug)
    requires VersionSound(w) && Enabled(w, BeginDelivery(slug))
    ensures VersionSound(Step(w, BeginDelivery(slug)))
  {
  }

  lemma VersionListed(w: World, order: seq<Slug>)
    requires VersionSound(w) && Enabled(w, ListArrives(order))
    ensures VersionSound(Step(w, ListArrives(order)))
  {
    if Accepts(w.b) {
      var r := ListIsMatched(w, order);
      VersionMatched(w, r);
    }
  }

  lemma VersionMatched(w: World, r: Reconciled)
    requires VersionSound(w) && w.listing.Some? && Accepts(w.b) && r.base == Dedup(w.listing.value.slugs)
    ensures VersionSound(AfterMatch(w, r))
  {
    MatchedFrame(w.b, w.b.refresh.seen, r);
    assert ToSet(r.base) == ToSet(w.listing.value.slugs);
  }

  lemma VersionAnswer(w: World, slug: Slug)
    requires AnswersTrue(w) && VersionSound(w) && Enabled(w, AnswerArrives(slug))
    ensures VersionSound(Step(w, AnswerArrives(slug)))
  {
    var next := Step(w, AnswerArrives(slug));
    if w.b.version == Some(w.stamp) {
      assert forall s :: s in w.b.base <==> s in ToSet(w.b.base);
      assert forall s :: s in next.b.base <==> s in w.account;
    }
  }

  /**
   * A merge is the one step that can break this, and it does so exactly when the stored version is still current and
   * the account skipped a slug that was sent and not changed meanwhile: the base then claims a slug the account does
   * not hold.
   */
  lemma MergeKeepsVersionIff(w: World)
    requires VersionSound(w) && Enabled(w, MergeArrives)
    ensures VersionSound(Step(w, MergeArrives)) <==> MergeCovered(w)
  {
    var next := Step(w, MergeArrives);
    assert forall slug :: slug in w.b.base <==> slug in ToSet(w.b.base);
    assert forall slug :: slug in next.b.base <==>
      slug in w.b.base || (slug in w.b.merging.value && slug !in w.b.pending);
    assert forall slug :: slug in next.b.base <==> slug in ToSet(next.b.base);
    if !MergeCovered(w) {
      var slug :| slug in w.b.merging.value && slug !in w.b.pending && slug !in w.account;
      assert slug in ToSet(next.b.base);
    }
  }

  /** The stored version is out of date, or the account holds every slug that was sent and not changed meanwhile. */
  predicate MergeCovered(w: World)
    requires w.b.merging.Some?
  {
    w.b.version == Some(w.stamp) ==> forall slug :: slug in w.b.merging.value && slug !in w.b.pending ==>
        slug in w.account
  }

  predicate MergesCovered(w: World, es: seq<Event>)
    requires Run(w, es)
    decreases |es|
  {
    es == [] || ((es[0].MergeArrives? ==> MergeCovered(w)) && MergesCovered(Step(w, es[0]), es[1..]))
  }

  /**
   * Over every fair run whose merges are covered, a stored version that is current means the base is the account
   * list.
   */
  lemma {:induction false} VersionRuns(w: World, es: seq<Event>)
    requires Inv(w) && VersionSound(w) && Run(w, es) && FairRun(w, es) && MergesCovered(w, es)
    ensures VersionSound(After(w, es))
    decreases |es|
  {
    if es != [] {
      StepKeeps(w, es[0]);
      if es[0].MergeArrives? {
        MergeKeepsVersionIff(w);
      } else {
        VersionStep(w, es[0]);
      }
      VersionRuns(Step(w, es[0]), es[1..]);
    }
  }

  /** The stored lists hold every slug once. */
  predicate ListsDistinct(b: Browser) {
    Distinct(b.local) && Distinct(b.base)
  }

  lemma WithoutDistinct(xs: seq<Slug>, slug: Slug)
    requires Distinct(xs)
    ensures Distinct(Without(xs, slug)) && Distinct([slug] + Without(xs, slug))
  {
    SelectDistinct(xs, ToSet(xs) - {slug});
    var longer := [slug] + Without(xs, slug);
    assert forall j :: 1 <= j < |longer| ==> longer[j] == Without(xs, slug)[j - 1] && longer[j] in Without(xs, slug);
  }

  lemma DistinctStep(w: World, e: Event)
    requires ListsDistinct(w.b) && Enabled(w, e)
    ensures ListsDistinct(Step(w, e).b)
  {
    match e
    case Toggle(slug, _) => WithoutDistinct(w.b.local, slug);
    case AnswerArrives(slug) =>
      WithoutDistinct(w.b.local, slug);
      WithoutDistinct(w.b.base, slug);
    case ListArrives(order) =>
      if Accepts(w.b) {
        var r := ListIsMatched(w, order);
        MatchedFrame(w.b, w.b.refresh.seen, r);
      }
    case _ =>
  }

  lemma {:induction false} DistinctRuns(w: World, es: seq<Event>)
    requires ListsDistinct(w.b) && Run(w, es)
    ensures ListsDistinct(After(w, es).b)
    decreases |es|
  {
    if es != [] {
      DistinctStep(w, es[0]);
      DistinctRuns(Step(w, es[0]), es[1..]);
    }
  }
}
