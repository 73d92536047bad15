/**
 * The pure core of the saved-list sync: matching this browser's list with the account's list, and forgetting the
 * account's copy at logout (components/home/saved.ts).
 */
module SavedCore {
  import opened Basics
  import opened Sequences

  datatype SavedOp = Put | Delete

  /** Changes not yet accepted by the account, one per slug. */
  type Pending = map<Slug, SavedOp>

  datatype Reconciled = Reconciled(local: seq<Slug>, base: seq<Slug>, pending: Pending,
                                   puts: seq<Slug>, deletes: seq<Slug>, localOnly: seq<Slug>)

  predicate Has(pending: Pending, slug: Slug, op: SavedOp) {
    slug in pending && pending[slug] == op
  }

  function Chosen(pending: Pending, op: SavedOp): set<Slug> {
    set slug | slug in pending && pending[slug] == op
  }

  /** A pending change the account list does not show yet. */
  predicate Due(op: SavedOp, slug: Slug, server: seq<Slug>) {
    if op == Put then slug !in server else slug in server
  }

  function StillPending(pending: Pending, server: seq<Slug>): Pending {
    map slug | slug in pending && Due(pending[slug], slug, server) :: pending[slug]
  }

  /** The local slugs that survive: on the account, waiting to be put, or never seen on the account. */
  function Kept(local: seq<Slug>, server: seq<Slug>, base: seq<Slug>, next: Pending): set<Slug> {
    set slug | slug in local && !Has(next, slug, Delete) && (slug in server || Has(next, slug, Put) || slug !in base)
  }

  /** `reconcileSaved`; `order` is the enumeration order of the pending record's keys. */
  function Reconcile(local: seq<Slug>, server: seq<Slug>, base: seq<Slug>, pending: Pending,
                     order: seq<Slug>): Reconciled
    requires Lists(order, pending.Keys)
  {
    var next := StillPending(pending, server);
    var kept := Select(local, Kept(local, server, base, next));
    var added := Select(Reverse(server), ToSet(server) - Chosen(next, Delete));
    var puts := Select(order, Chosen(next, Put));
    Reconciled(Dedup(kept + added + puts), Dedup(server), next, puts, Select(order, Chosen(next, Delete)),
               Select(kept, ToSet(kept) - ToSet(server) - next.Keys))
  }

  /** The pending record's loop, then the filters: the source's own form. */
  method ReconcileSaved(local: seq<Slug>, server: seq<Slug>, base: seq<Slug>, pending: Pending, order: seq<Slug>)
    returns (r: Reconciled)
    requires Lists(order, pending.Keys)
    ensures r == Reconcile(local, server, base, pending, order)
  {
    var next: Pending := map[];
    for i := 0 to |order|
      invariant next == map slug | slug in order[..i] && Due(pending[slug], slug, server) :: pending[slug]
    {
      assert order[i] in ToSet(order);
      assert order[..i + 1] == order[..i] + [order[i]];
      if Due(pending[order[i]], order[i], server) {
        next := next[order[i] := pending[order[i]]];
      }
    }
    assert order[..] == order;
    assert forall slug :: slug in order <==> slug in ToSet(order);
    assert next == StillPending(pending, server);
    var kept := Select(local, Kept(local, server, base, next));
    var added := Select(Reverse(server), ToSet(server) - Chosen(next, Delete));
    var puts := Select(order, Chosen(next, Put));
    r := Reconciled(Dedup(kept + added + puts), Dedup(server), next, puts, Select(order, Chosen(next, Delete)),
                    Select(kept, ToSet(kept) - ToSet(server) - next.Keys));
  }

  /** `forgetAccountCopy`: drop what came from the account, keep what the account never received. */
  function ForgetAccountCopy(local: seq<Slug>, base: seq<Slug>, pending: Pending): seq<Slug> {
    Select(local, (ToSet(local) - ToSet(base)) + Chosen(pending, Put))
  }

  // ---------- what the reconciled list contains ----------

  /** The parts that follow from the pending record alone. */
  lemma PendingMembers(local: seq<Slug>, server: seq<Slug>, base: seq<Slug>, pending: Pending, order: seq<Slug>,
                       r: Reconciled)
    requires Lists(order, pending.Keys) && r == Reconcile(local, server, base, pending, order)
    ensures forall slug :: slug in r.pending <==> slug in pending && Due(pending[slug], slug, server)
    ensures forall slug :: slug in r.pending ==> r.pending[slug] == pending[slug]
    ensures forall slug :: slug in r.puts <==> Has(r.pending, slug, Put)
    ensures forall slug :: slug in r.deletes <==> Has(r.pending, slug, Delete)
    ensures forall slug :: slug in r.base <==> slug in server
  {
    assert r.pending == StillPending(pending, server);
    assert forall slug :: slug in order <==> slug in pending.Keys by {
      assert forall slug :: slug in order <==> slug in ToSet(order);
    }
    assert r.puts == Select(order, Chosen(r.pending, Put)) && r.deletes == Select(order, Chosen(r.pending, Delete));
  }

  /** The three sources of the reconciled list. */
  lemma ListMembers(local: seq<Slug>, server: seq<Slug>, base: seq<Slug>, pending: Pending, order: seq<Slug>,
                    r: Reconciled)
    requires Lists(order, pending.Keys) && r == Reconcile(local, server, base, pending, order)
    ensures forall slug :: slug in r.local <==>
              slug in Kept(local, server, base, r.pending) || (slug in server && !Has(r.pending, slug, Delete))
                  || slug in r.puts
    ensures forall slug :: slug in r.localOnly <==>
              slug in Kept(local, server, base, r.pending) && slug !in server && slug !in r.pending
  {
    var kept := Select(local, Kept(local, server, base, r.pending));
    var added := Select(Reverse(server), ToSet(server) - Chosen(r.pending, Delete));
    AddedMembers(server, r.pending, added);
    JoinedMembers(kept, added, r.puts, r.local);
    OnlyMembers(kept, server, r.pending, r.localOnly);
  }

  lemma AddedMembers(server: seq<Slug>, next: Pending, added: seq<Slug>)
    requires added == Select(Reverse(server), ToSet(server) - Chosen(next, Delete))
    ensures forall slug :: slug in added <==> slug in server && !Has(next, slug, Delete)
  {
    ReverseMembers(server);
    SameMembers(Reverse(server), server);
  }

  lemma JoinedMembers(kept: seq<Slug>, added: seq<Slug>, puts: seq<Slug>, local: seq<Slug>)
    requires local == Dedup(kept + added + puts)
    ensures forall slug :: slug in local <==> slug in kept || slug in added || slug in puts
  {
    assert forall slug :: slug in kept + added + puts <==> slug in kept || slug in added || slug in puts;
  }

  lemma OnlyMembers(kept: seq<Slug>, server: seq<Slug>, next: Pending, only: seq<Slug>)
    requires only == Select(kept, ToSet(kept) - ToSet(server) - next.Keys)
    ensures forall slug :: slug in only <==> slug in kept && slug !in server && slug !in next
  {
  }

  /** Membership of every part of the result, slug by slug. */
  lemma ReconcileMembers(local: seq<Slug>, server: seq<Slug>, base: seq<Slug>, pending: Pending, order: seq<Slug>,
                         r: Reconciled)
    requires Lists(order, pending.Keys) && r == Reconcile(local, server, base, pending, order)
    ensures forall slug :: slug in r.localOnly <==>
              slug in local && slug !in server && slug !in base && !Has(pending, slug, Put)
    ensures forall slug :: slug in r.local <==>
              (slug in server && !Has(pending, slug, Delete)) || Has(r.pending, slug, Put) || slug in r.localOnly
    ensures forall slug :: slug in r.pending <==> slug in pending && Due(pending[slug], slug, server)
    ensures forall slug :: slug in r.pending ==> r.pending[slug] == pending[slug]
    ensures forall slug :: slug in r.puts <==> Has(r.pending, slug, Put)
    ensures forall slug :: slug in r.deletes <==> Has(r.pending, slug, Delete)
    ensures forall slug :: slug in r.base <==> slug in server
  {
    PendingMembers(local, server, base, pending, order, r);
    ListMembers(local, server, base, pending, order, r);
  }

  /**
   * The reconciled list is the disjoint union of the account list with the still pending changes applied and of the
   * slugs only this browser has.
   */
  lemma ReconcilePartition(local: seq<Slug>, server: seq<Slug>, base: seq<Slug>, pending: Pending, order: seq<Slug>)
    requires Lists(order, pending.Keys)
    ensures var r := Reconcile(local, server, base, pending, order);
            var account := ToSet(server) - Chosen(r.pending, Delete) + Chosen(r.pending, Put);
            ToSet(r.local) == account + ToSet(r.localOnly) && account !! ToSet(r.localOnly)
  {
    var r := Reconcile(local, server, base, pending, order);
    var account := ToSet(server) - Chosen(r.pending, Delete) + Chosen(r.pending, Put);
    ReconcileMembers(local, server, base, pending, order, r);
    forall slug
      ensures slug in ToSet(r.local) <==> slug in account || slug in ToSet(r.localOnly)
      ensures !(slug in account && slug in ToSet(r.localOnly))
    {
      assert slug in r.local <==> slug in ToSet(r.local);
    }
  }

  /**
   * Order: the surviving local slugs come first in their old order, then the account's other slugs oldest first, then
   * the waiting puts the browser had lost.
   */
  lemma ReconcileOrder(local: seq<Slug>, server: seq<Slug>, base: seq<Slug>, pending: Pending, order: seq<Slug>)
    requires Lists(order, pending.Keys)
    ensures var r := Reconcile(local, server, base, pending, order);
            var survivors := Select(local, ToSet(r.local));
            var newcomers := Select(Reverse(server), ToSet(server) - Chosen(r.pending, Delete));
            && Dedup(survivors) <= r.local
            && r.local == Dedup(survivors) + NotIn(Dedup(newcomers), survivors) + NotIn(r.puts, survivors + newcomers)
  {
    var r := Reconcile(local, server, base, pending, order);
    var kept := Kept(local, server, base, r.pending);
    ReconcileMembers(local, server, base, pending, order, r);
    SelectSame(local, kept, ToSet(r.local));
    var survivors := Select(local, kept);
    var newcomers := Select(Reverse(server), ToSet(server) - Chosen(r.pending, Delete));
    DedupConcat(survivors + newcomers, r.puts);
    DedupConcat(survivors, newcomers);
    SelectDistinct(order, Chosen(r.pending, Put));
    DedupDistinct(r.puts);
  }

  // ---------- running it again ----------

  /** No slug that only this browser has is listed twice. Checkable on the arguments. */
  predicate LocalOnlyOnce(local: seq<Slug>, server: seq<Slug>, base: seq<Slug>, pending: Pending) {
    forall i, j :: 0 <= i < j < |local| && local[i] == local[j] ==>
      local[i] in server || local[i] in base || Has(pending, local[i], Put)
  }

  /** A list that holds the account list and its own pending puts, and nothing to drop, is a fixed point. */
  lemma ReconcileFixedPoint(local: seq<Slug>, server: seq<Slug>, base: seq<Slug>, pending: Pending, order: seq<Slug>)
    requires Lists(order, pending.Keys) && Distinct(local)
    requires forall slug :: slug in pending ==> Due(pending[slug], slug, server)
    requires forall slug :: slug in local ==> slug in Kept(local, server, base, pending)
    requires forall slug :: slug in server ==> slug in local || Has(pending, slug, Delete)
    requires forall slug :: Has(pending, slug, Put) ==> slug in local
    ensures Reconcile(local, server, base, pending, order)
         == Reconciled(local, Dedup(server), pending, Select(order, Chosen(pending, Put)),
                       Select(order, Chosen(pending, Delete)),
                           Select(local, ToSet(local) - ToSet(server) - pending.Keys))
  {
    var added := Select(Reverse(server), ToSet(server) - Chosen(pending, Delete));
    var puts := Select(order, Chosen(pending, Put));
    assert StillPending(pending, server) == pending;
    SelectAll(local, Kept(local, server, base, pending));
    assert local + added + puts == local + (added + puts);
    assert forall slug :: slug in added + puts ==> slug in local;
    DedupPrefix(local, added + puts);
    DedupDistinct(local);
  }

  /** The keys of the pending record that survive, in the record's order. */
  lemma NextOrder(pending: Pending, order: seq<Slug>, next: Pending)
    requires Lists(order, pending.Keys) && next.Keys <= pending.Keys
    ensures Lists(Select(order, next.Keys), next.Keys)
    ensures forall op :: Select(Select(order, next.Keys), Chosen(next, op)) == Select(order, Chosen(next, op))
  {
    SelectDistinct(order, next.Keys);
    assert forall slug :: slug in order <==> slug in ToSet(order);
    forall op ensures Select(Select(order, next.Keys), Chosen(next, op)) == Select(order, Chosen(next, op)) {
      SelectSelect(order, next.Keys, Chosen(next, op));
      assert next.Keys * Chosen(next, op) == Chosen(next, op);
    }
  }

  /** The second run sees the first one's output and the same account list: everything but `localOnly` is unchanged. */
  lemma ReconcileAgain(local: seq<Slug>, server: seq<Slug>, base: seq<Slug>, pending: Pending, order: seq<Slug>,
                       r: Reconciled)
    requires Lists(order, pending.Keys) && r == Reconcile(local, server, base, pending, order)
    ensures var order2 := Select(order, r.pending.Keys);
            && Lists(order2, r.pending.Keys)
            && Reconcile(r.local, server, r.base, r.pending, order2)
                == r.(localOnly := Select(r.local, ToSet(r.localOnly)))
  {
    ReconcileMembers(local, server, base, pending, order, r);
    NextOrder(pending, order, r.pending);
    ReconcileFixedPoint(r.local, server, r.base, r.pending, Select(order, r.pending.Keys));
    assert ToSet(r.local) - ToSet(server) - r.pending.Keys == ToSet(r.localOnly);
  }

  /** The local-only slugs as the result lists them: once each, wherever the list itself holds them. */
  lemma LocalOnlyInPlace(local: seq<Slug>, server: seq<Slug>, base: seq<Slug>, pending: Pending, order: seq<Slug>,
                         r: Reconciled)
    requires Lists(order, pending.Keys) && r == Reconcile(local, server, base, pending, order)
    ensures Select(r.local, ToSet(r.localOnly)) == Dedup(r.localOnly)
  {
    var kept, rest, only := ReconcileParts(local, server, base, pending, order, r);
    OnlyInPlace(kept, rest, only, r.local, r.localOnly);
  }

  lemma ReconcileParts(local: seq<Slug>, server: seq<Slug>, base: seq<Slug>, pending: Pending, order: seq<Slug>,
                       r: Reconciled)
    returns (kept: seq<Slug>, rest: seq<Slug>, only: set<Slug>)
    requires Lists(order, pending.Keys) && r == Reconcile(local, server, base, pending, order)
    ensures r.local == Dedup(kept + rest) && r.localOnly == Select(kept, only) && only <= ToSet(kept)
  {
    var added := Select(Reverse(server), ToSet(server) - Chosen(r.pending, Delete));
    kept := Select(local, Kept(local, server, base, r.pending));
    rest, only := added + r.puts, ToSet(kept) - ToSet(server) - r.pending.Keys;
    Regroup(kept, added, r.puts);
  }

  lemma OnlyInPlace(kept: seq<Slug>, rest: seq<Slug>, only: set<Slug>, local: seq<Slug>, localOnly: seq<Slug>)
    requires only <= ToSet(kept) && local == Dedup(kept + rest) && localOnly == Select(kept, only)
    ensures Select(local, ToSet(localOnly)) == Dedup(localOnly)
  {
    DedupSelected(kept, rest, only);
  }

  lemma DedupSelected(xs: seq<Slug>, ys: seq<Slug>, keep: set<Slug>)
    requires keep <= ToSet(xs)
    ensures Select(Dedup(xs + ys), ToSet(Select(xs, keep))) == Dedup(Select(xs, keep))
  {
    assert ToSet(Select(xs, keep)) == keep;
    DedupPrefix(xs, ys);
    SelectWithinPrefix(Dedup(xs), Dedup(xs + ys), keep);
    SelectDedup(xs, keep);
  }

  /** Only the prefix matters to a filter that keeps none but the prefix's members. */
  lemma SelectWithinPrefix(xs: seq<Slug>, whole: seq<Slug>, keep: set<Slug>)
    requires xs <= whole && Distinct(whole)
    requires forall slug :: slug in keep ==> slug in xs
    ensures Select(whole, keep) == Select(xs, keep)
  {
    var tail := whole[|xs|..];
    assert whole == xs + tail;
    LaterNotEarlier(xs, tail);
    SelectConcat(xs, tail, keep);
    SelectNone(tail, keep);
  }

  lemma LaterNotEarlier(xs: seq<Slug>, ys: seq<Slug>)
    requires Distinct(xs + ys)
    ensures forall slug :: slug in ys ==> slug !in xs
  {
    forall slug | slug in ys ensures slug !in xs {
      var j :| 0 <= j < |ys| && ys[j] == slug;
      forall i | 0 <= i < |xs| ensures xs[i] != slug {
        assert (xs + ys)[i] != (xs + ys)[|xs| + j];
      }
    }
  }

  /** Filtering a set and making a set of the filtered list are the same. */
  lemma {:induction false} SelectDedup(xs: seq<Slug>, keep: set<Slug>)
    ensures Select(Dedup(xs), keep) == Dedup(Select(xs, keep))
  {
    if xs != [] {
      var front, last := xs[..|xs| - 1], xs[|xs| - 1];
      assert xs == front + [last];
      SelectDedup(front, keep);
      DedupPush(front, last);
      SelectPush(Dedup(front), last, keep);
      SelectPush(front, last, keep);
      DedupPush(Select(front, keep), last);
    }
  }

  lemma SelectPush(xs: seq<Slug>, x: Slug, keep: set<Slug>)
    ensures Select(xs + [x], keep) == if x in keep then Select(xs, keep) + [x] else Select(xs, keep)
  {
    assert (xs + [x])[..|xs|] == xs;
  }

  /**
   * Reconciling again with the same account list returns exactly the same result, if and only if no local-only slug was
   * listed twice. The browser always reads its list through a set, so for it this always holds.
   */
  lemma ReconcileIdempotent(local: seq<Slug>, server: seq<Slug>, base: seq<Slug>, pending: Pending, order: seq<Slug>)
    requires Lists(order, pending.Keys)
    ensures var r := Reconcile(local, server, base, pending, order);
            var order2 := Select(order, r.pending.Keys);
            && Lists(order2, r.pending.Keys)
            && (Reconcile(r.local, server, r.base, r.pending, order2) == r <==>
                LocalOnlyOnce(local, server, base, pending))
  {
    var r := Reconcile(local, server, base, pending, order);
    ReconcileAgain(local, server, base, pending, order, r);
    LocalOnlyInPlace(local, server, base, pending, order, r);
    LocalOnlyDistinct(local, server, base, pending, order, r);
    if Distinct(r.localOnly) {
      DedupDistinct(r.localOnly);
    }
  }

  /** The local-only slugs are those of the list itself, in its order. */
  lemma LocalOnlySequence(local: seq<Slug>, server: seq<Slug>, base: seq<Slug>, pending: Pending, order: seq<Slug>,
                          r: Reconciled)
    requires Lists(order, pending.Keys) && r == Reconcile(local, server, base, pending, order)
    ensures r.localOnly == Select(local, ToSet(r.localOnly))
  {
    var kept := Kept(local, server, base, r.pending);
    var only := ToSet(Select(local, kept)) - ToSet(server) - r.pending.Keys;
    ReconcileMembers(local, server, base, pending, order, r);
    SelectSelect(local, kept, only);
    SelectSame(local, kept * only, ToSet(r.localOnly));
  }

  lemma LocalOnlyDistinct(local: seq<Slug>, server: seq<Slug>, base: seq<Slug>, pending: Pending, order: seq<Slug>,
                          r: Reconciled)
    requires Lists(order, pending.Keys) && r == Reconcile(local, server, base, pending, order)
    ensures Distinct(r.localOnly) <==> LocalOnlyOnce(local, server, base, pending)
  {
    ReconcileMembers(local, server, base, pending, order, r);
    LocalOnlySequence(local, server, base, pending, order, r);
    SelectDistinctIff(local, ToSet(r.localOnly));
  }

  /** A filtered list is free of repetitions exactly when no kept element repeats. */
  lemma {:induction false} SelectDistinctIff(xs: seq<Slug>, keep: set<Slug>)
    ensures Distinct(Select(xs, keep)) <==> forall i, j :: 0 <= i < j < |xs| && xs[i] == xs[j] ==> xs[i] !in keep
  {
    if xs != [] {
      var front, last := xs[..|xs| - 1], xs[|xs| - 1];
      var kept := Select(front, keep);
      assert xs == front + [last];
      SelectDistinctIff(front, keep);
      SelectPush(front, last, keep);
      assert last in keep && last in front <==> last in keep && last in kept;
      assert Distinct(kept + [last]) <==> Distinct(kept) && last !in kept by { DistinctPush(kept, last); }
      assert forall i :: 0 <= i < |front| ==> xs[i] == front[i];
    }
  }

  lemma DistinctPush(xs: seq<Slug>, x: Slug)
    ensures Distinct(xs + [x]) <==> Distinct(xs) && x !in xs
  {
    if x in xs {
      var i :| 0 <= i < |xs| && xs[i] == x;
      assert (xs + [x])[i] == (xs + [x])[|xs|];
    }
    if Distinct(xs + [x]) {
      forall i, j | 0 <= i < j < |xs| ensures xs[i] != xs[j] {
        assert (xs + [x])[i] != (xs + [x])[j];
      }
    }
  }

  /** A list that repeats a local-only slug is not reconciled to a fixed point. */
  lemma RepeatedLocalOnlyIsNotIdempotent(a: Slug)
    ensures var r := Reconcile([a, a], [], [], map[], []);
            Reconcile(r.local, [], r.base, r.pending, Select([], r.pending.Keys)) != r
  {
    ReconcileIdempotent([a, a], [], [], map[], []);
    assert [a, a][0] == [a, a][1];
  }

  // ---------- logout ----------

  /** Forgetting the account right after a reconciliation leaves the local-only slugs and the puts not yet accepted. */
  lemma ForgetAfterReconcile(local: seq<Slug>, server: seq<Slug>, base: seq<Slug>, pending: Pending, order: seq<Slug>)
    requires Lists(order, pending.Keys)
    ensures var r := Reconcile(local, server, base, pending, order);
            ForgetAccountCopy(r.local, r.base, r.pending) == Select(r.local, ToSet(r.localOnly) + ToSet(r.puts))
            && ToSet(ForgetAccountCopy(r.local, r.base, r.pending)) == ToSet(r.localOnly) + ToSet(r.puts)
  {
    var r := Reconcile(local, server, base, pending, order);
    ReconcileMembers(local, server, base, pending, order, r);
    KeepsUnsent(r);
  }

  lemma KeepsUnsent(r: Reconciled)
    requires forall slug :: slug in r.puts <==> Has(r.pending, slug, Put)
    requires forall slug :: slug in r.localOnly ==> slug in r.local && slug !in r.base
    requires forall slug :: slug in r.local ==> slug in r.base || slug in r.puts || slug in r.localOnly
    requires forall slug :: slug in r.puts ==> slug in r.local
    ensures ForgetAccountCopy(r.local, r.base, r.pending) == Select(r.local, ToSet(r.localOnly) + ToSet(r.puts))
    ensures ToSet(ForgetAccountCopy(r.local, r.base, r.pending)) == ToSet(r.localOnly) + ToSet(r.puts)
  {
    var kept, wanted := (ToSet(r.local) - ToSet(r.base)) + Chosen(r.pending, Put), ToSet(r.localOnly) + ToSet(r.puts);
    assert forall slug :: slug in kept <==> slug in wanted;
    assert kept == wanted;
    assert forall slug :: slug in Select(r.local, wanted) <==> slug in wanted;
  }

  // ---------- the versioned shortcut ----------

  /**
   * With nothing pending, reconciling leaves a duplicate-free list untouched if and only if it already holds the whole
   * account list and nothing the account has dropped since.
   */
  lemma ReconcileUnchangedIff(local: seq<Slug>, server: seq<Slug>, base: seq<Slug>)
    requires Distinct(local)
    ensures Reconcile(local, server, base, map[], []).local == local <==>
            (forall slug :: slug in server ==> slug in local)
                && (forall slug :: slug in local && slug in base ==> slug in server)
  {
    if (forall slug :: slug in server ==> slug in local)
        && (forall slug :: slug in local && slug in base ==> slug in server) {
      ReconcileFixedPoint(local, server, base, map[], []);
    } else {
      ReconcileChanges(local, server, base, Reconcile(local, server, base, map[], []));
    }
  }

  lemma ReconcileChanges(local: seq<Slug>, server: seq<Slug>, base: seq<Slug>, r: Reconciled)
    requires r == Reconcile(local, server, base, map[], [])
    requires (exists slug :: slug in server && slug !in local)
            || exists slug :: slug in local && slug in base && slug !in server
    ensures r.local != local
  {
    ReconcileMembers(local, server, base, map[], [], r);
  }

  /**
   * The shortcut taken when the saved version is unchanged gives what the full path would: the same list, the same
   * offer in the same order, the same count, and nothing to send.
   */
  lemma ShortcutRefinesReconcile(local: seq<Slug>, server: seq<Slug>, base: seq<Slug>, r: Reconciled)
    requires Distinct(local) && Distinct(base)
    requires forall slug :: slug in server <==> slug in base
    requires forall slug :: slug in base ==> slug in local
    requires r == Reconcile(local, server, base, map[], [])
    ensures r.local == local && |r.base| == |base|
    ensures r.localOnly == Select(local, ToSet(local) - ToSet(base))
    ensures r.pending == map[] && r.puts == [] && r.deletes == []
  {
    ReconcileFixedPoint(local, server, base, map[], []);
    ShortcutParts(local, server, base, r);
  }

  lemma ShortcutParts(local: seq<Slug>, server: seq<Slug>, base: seq<Slug>, r: Reconciled)
    requires Distinct(base) && forall slug :: slug in server <==> slug in base
    requires r.base == Dedup(server) && r.pending == map[]
    requires r.puts == Select([], Chosen(r.pending, Put)) && r.deletes == Select([], Chosen(r.pending, Delete))
    requires r.localOnly == Select(local, ToSet(local) - ToSet(server) - r.pending.Keys)
    ensures |r.base| == |base| && r.puts == [] && r.deletes == []
    ensures r.localOnly == Select(local, ToSet(local) - ToSet(base))
  {
    SameCount(Dedup(server), base);
    SameToSet(server, base);
    assert ToSet(local) - ToSet(server) - r.pending.Keys == ToSet(local) - ToSet(base);
  }

  lemma SameToSet(xs: seq<Slug>, ys: seq<Slug>)
    requires forall slug :: slug in xs <==> slug in ys
    ensures ToSet(xs) == ToSet(ys)
  {
  }

  lemma SameCount(xs: seq<Slug>, ys: seq<Slug>)
    requires Distinct(xs) && Distinct(ys)
    requires forall slug :: slug in xs <==> slug in ys
    ensures |xs| == |ys|
  {
    DistinctSize(xs);
    DistinctSize(ys);
    assert ToSet(xs) == ToSet(ys);
  }
}
