/** That changes reach the account: what is sent, what an accepted list sends again, and what is left in the end. */
module SavedDelivery {
  import opened Basics
  import opened Sequences
  import opened SavedCore
  import opened SavedBrowser
  import opened SavedProtocol
  import opened SavedConnect

  // ---------- what an accepted list sends again ----------

  /** The list on its way does not show this pending change yet. */
  predicate StillDue(w: World, slug: Slug)
    requires w.listing.Some?
  {
    slug in w.b.pending && ((w.b.pending[slug] == Put) != (slug in w.listing.value.slugs))
  }

  /** The chain grew by one send of this operation, with a ticket handed out in between. */
  predicate SentOnce(before: seq<Send>, after: seq<Send>, op: SavedOp, from: nat, to: nat) {
    && |after| == |before| + 1 && after[..|before|] == before
    && after[|before|].op == op && from <= after[|before|].ticket < to
  }

  lemma {:induction false} EnqueuedTo(b: Browser, slugs: seq<Slug>, op: SavedOp, slug: Slug)
    requires Distinct(slugs)
    ensures var r := EnqueueAll(b, slugs, op);
            && r.tickets == b.tickets + |slugs|
            && if slug in slugs then SentOnce(Queued(b, slug), Queued(r, slug), op, b.tickets, r.tickets)
               else Queued(r, slug) == Queued(b, slug)
  {
    if slugs != [] {
      EnqueuedTo(b, slugs[..|slugs| - 1], op, slug);
    }
  }

  /**
   * A list that is matched sends every change it does not show once more, at the end of its slug's chain, and sends
   * nothing else.
   */
  lemma DueIsSentAgain(w: World, order: seq<Slug>, slug: Slug)
    requires Enabled(w, ListArrives(order)) && Accepts(w.b)
    ensures var next := Step(w, ListArrives(order)).b;
            if StillDue(w, slug) then
              && Has(next.pending, slug, w.b.pending[slug])
              && SentOnce(Queued(w.b, slug), Queued(next, slug), w.b.pending[slug], w.b.tickets, next.tickets)
            else slug !in next.pending && Queued(next, slug) == Queued(w.b, slug)
    ensures Step(w, ListArrives(order)).b.tickets == w.b.tickets + |set s | s in w.b.pending && StillDue(w, s)|
  {
    var r := ListIsMatched(w, order);
    PendingMembers(w.b.local, w.listing.value.slugs, w.b.base, w.b.pending, order, r);
    SelectDistinct(order, Chosen(r.pending, Put));
    SelectDistinct(order, Chosen(r.pending, Delete));
    MatchedSends(w.b, w.b.refresh.seen, r, slug);
    MatchedFrame(w.b, w.b.refresh.seen, r);
    DueCount(w, r);
  }

  /** What storing a matched result sends. */
  lemma MatchedSends(b: Browser, seen: Option<nat>, r: Reconciled, slug: Slug)
    requires Distinct(r.puts) && Distinct(r.deletes) && !(slug in r.puts && slug in r.deletes)
    ensures var next := Matched(b, seen, r);
            && next.tickets == b.tickets + |r.puts| + |r.deletes|
            && (slug in r.puts ==> SentOnce(Queued(b, slug), Queued(next, slug), Put, b.tickets, next.tickets))
            && (slug in r.deletes ==> SentOnce(Queued(b, slug), Queued(next, slug), Delete, b.tickets, next.tickets))
            && (slug !in r.puts && slug !in r.deletes ==> Queued(next, slug) == Queued(b, slug))
  {
    var stored := b.(local := r.local, base := r.base, pending := r.pending, version := seen, offer := r.localOnly,
        refresh := NoRefresh);
    EnqueuedTo(stored, r.puts, Put, slug);
    EnqueuedTo(EnqueueAll(stored, r.puts, Put), r.deletes, Delete, slug);
  }

  lemma DueCount(w: World, r: Reconciled)
    requires w.listing.Some? && MatchesList(w.b, w.listing.value.slugs, r) && Distinct(r.puts) && Distinct(r.deletes)
    requires forall slug :: slug in r.puts <==> Has(r.pending, slug, Put)
    requires forall slug :: slug in r.deletes <==> Has(r.pending, slug, Delete)
    ensures |set s | s in w.b.pending && StillDue(w, s)| == |r.puts| + |r.deletes|
  {
    DistinctSize(r.puts);
    DistinctSize(r.deletes);
    assert (set s | s in w.b.pending && StillDue(w, s)) == ToSet(r.puts) + ToSet(r.deletes);
    assert ToSet(r.puts) !! ToSet(r.deletes);
  }

  // ---------- the newest send carries the pending change ----------

  /** The last send of the slug that has not ended, queued or under way, carries its pending change. */
  predicate NewestMatches(b: Browser, slug: Slug)
    requires slug in b.pending
  {
    if Queued(b, slug) != [] then Queued(b, slug)[|Queued(b, slug)| - 1].op == b.pending[slug]
    else slug in b.flight ==> b.flight[slug].op == b.pending[slug]
  }

  predicate Latest(b: Browser) {
    forall slug :: slug in b.pending ==> NewestMatches(b, slug)
  }

  /** Every pending change has a send that has not ended. */
  predicate Scheduled(b: Browser) {
    forall slug :: slug in b.pending ==> Queued(b, slug) != [] || slug in b.flight
  }

  lemma LatestStep(w: World, e: Event)
    requires Latest(w.b) && Enabled(w, e)
    ensures Latest(Step(w, e).b)
  {
    match e
    case ListArrives(order) => LatestListed(w, order);
    case Toggle(slug, on) => LatestToggled(w, slug, on);
    case BeginDelivery(slug) => LatestBegun(w, slug);
    case AnswerArrives(slug) => LatestAnswered(w, slug);
    case _ =>
  }

  lemma LatestListed(w: World, order: seq<Slug>)
    requires Latest(w.b) && Enabled(w, ListArrives(order))
    ensures Latest(Step(w, ListArrives(order)).b)
  {
    if Accepts(w.b) {
      var next := Step(w, ListArrives(order)).b;
      forall slug | slug in next.pending ensures NewestMatches(next, slug) {
        DueIsSentAgain(w, order, slug);
      }
    }
  }

  lemma LatestToggled(w: World, slug: Slug, on: Option<bool>)
    requires Latest(w.b)
    ensures Latest(Step(w, Toggle(slug, on)).b)
  {
  }

  lemma LatestBegun(w: World, slug: Slug)
    requires Latest(w.b) && Enabled(w, BeginDelivery(slug))
    ensures Latest(Step(w, BeginDelivery(slug)).b)
  {
  }

  lemma LatestAnswered(w: World, slug: Slug)
    requires Latest(w.b) && Enabled(w, AnswerArrives(slug))
    ensures Latest(Step(w, AnswerArrives(slug)).b)
  {
    var next := Step(w, AnswerArrives(slug)).b;
    forall s | s in next.pending ensures NewestMatches(next, s) {
      assert NewestMatches(w.b, s);
    }
  }

  /** Over every run from signing in, fair or not, the newest send of a pending slug carries its pending change. */
  lemma NewestSendIsPending(d: Document, user: nat, savedVersion: Option<nat>, account: set<Slug>, stamp: nat,
                            es: seq<Event>)
    requires Run(Start(Identified(d, SignedIn(user, savedVersion)), account, stamp), es)
    ensures Latest(After(Start(Identified(d, SignedIn(user, savedVersion)), account, stamp), es).b)
  {
    LatestRuns(Start(Identified(d, SignedIn(user, savedVersion)), account, stamp), es);
  }

  lemma {:induction false} LatestRuns(w: World, es: seq<Event>)
    requires Latest(w.b) && Run(w, es)
    ensures Latest(After(w, es).b)
    decreases |es|
  {
    if es != [] {
      LatestStep(w, es[0]);
      LatestRuns(Step(w, es[0]), es[1..]);
    }
  }

  // ---------- changes arrive ----------

  /** No request is lost, and the account takes every change. */
  predicate Delivering(e: Event) {
    !e.AnswerLost? && (e.AccountAnswers? ==> e.answer == Accepted)
  }

  predicate AllAccepted(w: World) {
    forall slug :: slug in w.answers ==> w.answers[slug] == Accepted
  }

  /** Nothing is queued or under way. */
  predicate AllSent(b: Browser) {
    b.flight == map[] && forall slug :: slug in b.chains ==> b.chains[slug] == []
  }

  predicate Underway(w: World) {
    Latest(w.b) && Scheduled(w.b) && AllAccepted(w)
  }

  lemma UnderwayStep(w: World, e: Event)
    requires Underway(w) && Enabled(w, e) && Delivering(e)
    ensures Underway(Step(w, e)) && Step(w, e).refused <= w.refused
  {
    LatestStep(w, e);
    match e
    case ListArrives(order) => ScheduledListed(w, order);
    case Toggle(slug, on) => ScheduledToggled(w, slug, on);
    case BeginDelivery(slug) => ScheduledBegun(w, slug);
    case AnswerArrives(slug) => ScheduledAnswered(w, slug);
    case _ =>
  }

  lemma ScheduledListed(w: World, order: seq<Slug>)
    requires Scheduled(w.b) && Enabled(w, ListArrives(order))
    ensures Scheduled(Step(w, ListArrives(order)).b)
  {
    if Accepts(w.b) {
      var next := Step(w, ListArrives(order)).b;
      forall slug | slug in next.pending ensures Queued(next, slug) != [] || slug in next.flight {
        DueIsSentAgain(w, order, slug);
      }
    }
  }

  lemma ScheduledToggled(w: World, slug: Slug, on: Option<bool>)
    requires Scheduled(w.b)
    ensures Scheduled(Step(w, Toggle(slug, on)).b)
  {
  }

  /** The last send of a chain is not skipped: it carries the pending change. */
  lemma ScheduledBegun(w: World, slug: Slug)
    requires Latest(w.b) && Scheduled(w.b) && Enabled(w, BeginDelivery(slug))
    ensures Scheduled(Step(w, BeginDelivery(slug)).b)
  {
  }

  lemma ScheduledAnswered(w: World, slug: Slug)
    requires Underway(w) && Enabled(w, AnswerArrives(slug))
    ensures Scheduled(Step(w, AnswerArrives(slug)).b)
  {
  }

  lemma {:induction false} UnderwayRuns(w: World, es: seq<Event>)
    requires Underway(w) && Run(w, es) && forall e :: e in es ==> Delivering(e)
    ensures Underway(After(w, es)) && After(w, es).refused <= w.refused
    decreases |es|
  {
    if es != [] {
      assert es[0] in es;
      UnderwayStep(w, es[0]);
      UnderwayRuns(Step(w, es[0]), es[1..]);
    }
  }

  lemma {:induction false} LastGrows(w: World, es: seq<Event>)
    requires Run(w, es)
    ensures w.last.Keys <= After(w, es).last.Keys
    decreases |es|
  {
    if es != [] {
      LastGrows(Step(w, es[0]), es[1..]);
    }
  }

  /**
   * After an accepted list comes any fair run in which no delivery is lost and the account takes every change; toggles,
   * lists and merges may fall in between. Once nothing is queued or under way, nothing is pending either, and for every
   * change the list did not show, account and browser are as the last toggle asked.
   */
  lemma AcceptedListIsDelivered(w: World, order: seq<Slug>, es: seq<Event>)
    requires Inv(w) && Latest(w.b) && AllAccepted(w) && Enabled(w, ListArrives(order)) && Accepts(w.b)
    requires var next := Step(w, ListArrives(order)); Run(next, es) && FairRun(next, es) && AllSent(After(next, es).b)
    requires forall e :: e in es ==> Delivering(e)
    ensures var end := After(Step(w, ListArrives(order)), es);
            && end.b.pending == map[]
            && forall slug :: StillDue(w, slug) ==>
                && slug in end.last
                && (slug in end.account <==> end.last[slug]) && (slug in end.b.local <==> end.last[slug])
  {
    var next := Step(w, ListArrives(order));
    StepKeeps(w, ListArrives(order));
    FairRunsAgree(next, es);
    LatestListed(w, order);
    forall slug | slug in next.b.pending ensures Queued(next.b, slug) != [] {
      DueIsSentAgain(w, order, slug);
    }
    UnderwayRuns(next, es);
    LastGrows(next, es);
    var end := After(next, es);
    assert forall slug :: slug !in end.b.pending by {
      assert Scheduled(end.b);
    }
    forall slug | StillDue(w, slug)
      ensures slug in end.last && slug !in end.refused
    {
      DueIsSentAgain(w, order, slug);
      assert slug in next.b.pending && (ShownAt(next, slug) || LeftOver(next, slug));
      assert Queued(next.b, slug) != [];
    }
  }

  /** Until everything is sent there is a next step, unless a merge holds the deliveries back. */
  lemma DeliveryNeverStuck(w: World) returns (e: Event)
    requires AnswersTrue(w) && !AllSent(w.b) && w.b.merging.None?
    ensures Enabled(w, e) && Delivering(e) && (e.BeginDelivery? || e.AccountAnswers? || e.AnswerArrives?)
  {
    if slug :| slug in w.b.flight {
      e := if slug in w.answers then AnswerArrives(slug) else AccountAnswers(slug, Accepted);
    } else {
      var slug :| slug in w.b.chains && w.b.chains[slug] != [];
      e := BeginDelivery(slug);
    }
  }

  // ---------- what a toggle does ----------

  /** A toggle flips the slug or sets it as told; the list shows it at once, and its change is pending and sent once. */
  lemma ToggleIsSent(w: World, slug: Slug, on: Option<bool>, other: Slug)
    ensures var next := Step(w, Toggle(slug, on));
            var saved := if on.Some? then on.value else !(slug in w.b.local);
            && (other in next.b.local <==> if other == slug then saved else other in w.b.local)
            && next.b.pending == w.b.pending[slug := if saved then Put else Delete]
            && next.last == w.last[slug := saved] && next.b.edits == w.b.edits + 1
            && SentOnce(Queued(w.b, slug), Queued(next.b, slug), if saved then Put else Delete, w.b.tickets,
                        next.b.tickets)
            && (other != slug ==> Queued(next.b, other) == Queued(w.b, other))
  {
  }

  // ---------- what an answer records ----------

  /** What the handled answer leaves in the record, the list and the offer, slug by slug. */
  lemma AnswerIsRecorded(w: World, slug: Slug, other: Slug)
    requires Enabled(w, AnswerArrives(slug))
    ensures var op, answer, next := w.b.flight[slug].op, w.answers[slug], Step(w, AnswerArrives(slug)).b;
            && (other in next.base <==> if other == slug && answer == Accepted then op == Put else other in w.b.base)
            && (other in next.local <==> other in w.b.local && !(other == slug && Refused(op, answer)))
            && (other in next.offer <==> other in w.b.offer && !(other == slug && Settled(answer)))
            && (other in next.flight <==> other in w.b.flight && other != slug)
            && (forall any :: Has(next.pending, other, any) <==>
                  Has(w.b.pending, other, any) && !(other == slug && Settled(answer) && any == op))
            && next.edits == w.b.edits + if Settled(answer) then 1 else 0
  {
  }

  // ---------- how often a list is asked for ----------

  predicate StartsRequest(e: Event) {
    e.BeginRefresh? || e.MergeArrives?
  }

  /** How many lists arrive and are thrown away. */
  function Discards(w: World, es: seq<Event>): nat
    requires Run(w, es)
    decreases |es|
  {
    if es == [] then 0
    else (if es[0].ListArrives? && !Accepts(w.b) then 1 else 0) + Discards(Step(w, es[0]), es[1..])
  }

  lemma {:induction false} DiscardsAreCounted(w: World, es: seq<Event>, before: nat)
    requires Run(w, es) && Inv(w) && FairRun(w, es) && forall e :: e in es ==> !StartsRequest(e)
    requires match w.b.refresh
             case NoRefresh => before <= REFRESH_TRIES
             case Fetching(tries, _, _) => tries == before < REFRESH_TRIES
             case Settling(tries, _, _) => tries == before <= REFRESH_TRIES
    ensures match After(w, es).b.refresh
            case NoRefresh => before + Discards(w, es) <= REFRESH_TRIES
            case Fetching(tries, _, _) => tries == before + Discards(w, es) < REFRESH_TRIES
            case Settling(tries, _, _) => tries == before + Discards(w, es) <= REFRESH_TRIES
    decreases |es|
  {
    if es != [] {
      assert es[0] in es;
      StepKeeps(w, es[0]);
      RefreshMoves(w, es[0]);
      DiscardsAreCounted(Step(w, es[0]), es[1..], before + if es[0].ListArrives? && !Accepts(w.b) then 1 else 0);
    }
  }

  /** What one step does to the request. */
  lemma RefreshMoves(w: World, e: Event)
    requires MergesApart(w) && Enabled(w, e) && !StartsRequest(e)
    ensures var was, now := w.b.refresh, Step(w, e).b.refresh;
            if e.ListArrives? then
              if Accepts(w.b) then now == NoRefresh else now.Settling? && now.tries == was.tries + 1
            else if e.ListLost? then now == NoRefresh
            else if e.Retry? then now == NoRefresh || (now.Fetching? && now.tries == was.tries < REFRESH_TRIES)
            else now == was
  {
    if e.ListArrives? && Accepts(w.b) {
      var r := ListIsMatched(w, e.order);
      MatchedFrame(w.b, w.b.refresh.seen, r);
    }
  }

  /** A request throws away at most three lists, and asks again after each of the first two and no more. */
  lemma ListIsAskedForThrice(w: World, begins: Event, es: seq<Event>)
    requires Inv(w) && Enabled(w, begins) && StartsRequest(begins) && Fair(w, begins)
    requires var begun := Step(w, begins); Run(begun, es) && FairRun(begun, es)
    requires forall e :: e in es ==> !StartsRequest(e)
    ensures Discards(Step(w, begins), es) <= REFRESH_TRIES
    ensures var end := After(Step(w, begins), es);
            Enabled(end, Retry) ==>
              (BeginsAttempt(end, Retry) <==> Discards(Step(w, begins), es) < REFRESH_TRIES)
              && (Step(end, Retry).b.refresh.Fetching? <==> Discards(Step(w, begins), es) < REFRESH_TRIES)
  {
    StepKeeps(w, begins);
    DiscardsAreCounted(Step(w, begins), es, 0);
  }

  // ---------- what a merge sends ----------

  /** Offered, still here, and without a change of its own. */
  predicate MayMove(b: Browser, slug: Slug) {
    slug in b.offer && slug in b.local && slug !in b.pending
  }

  /**
   * A merge begins exactly when none is under way and some offered slug may move; it sends nothing else, at most
   * SAVED_LIMIT slugs, and all of them when they are fewer. When none may move the offer is dropped.
   */
  lemma MergeSends(w: World)
    ensures var next := Step(w, BeginMerge).b;
            if w.b.merging.Some? then next == w.b
            else
              && (next.merging.Some? <==> exists slug :: slug in w.b.offer && MayMove(w.b, slug))
              && next == w.b.(merging := next.merging, offer := if next.merging.Some? then w.b.offer else [])
    ensures var next := Step(w, BeginMerge).b;
            w.b.merging.None? && next.merging.Some? ==>
              && 0 < |next.merging.value| <= SAVED_LIMIT
              && (forall slug :: slug in next.merging.value ==> MayMove(w.b, slug))
              && (|next.merging.value| < SAVED_LIMIT ==>
                    forall slug :: MayMove(w.b, slug) ==> slug in next.merging.value)
  {
    SendableMembers(w.b);
    if w.b.merging.None? {
      SendableExists(w.b);
      if Sendable(w.b) != [] {
        var slug := Sendable(w.b)[0];
        assert slug in Sendable(w.b) && MayMove(w.b, slug);
      }
    }
  }

  lemma SendableExists(b: Browser)
    ensures Sendable(b) == [] ==> forall slug :: !MayMove(b, slug)
    ensures |Sendable(b)| < SAVED_LIMIT ==> forall slug :: MayMove(b, slug) ==> slug in Sendable(b)
    ensures |Sendable(b)| <= SAVED_LIMIT
  {
    var all := Select(b.offer, ToSet(b.local) - b.pending.Keys);
    assert forall slug :: MayMove(b, slug) ==> slug in all;
  }
}
