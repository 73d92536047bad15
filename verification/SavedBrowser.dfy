/**
 * The browser's half of the saved-list sync, for a signed-in document: what each piece of code between two `await`s of
 * components/home/saved.ts does to the stored list, the sync record and the module variables.
 */
module SavedBrowser {
  import opened Basics
  import opened Sequences
  import opened SavedCore

  const SAVED_LIMIT: nat := 500
  const REFRESH_TRIES: nat := 3

  /** One queued delivery. Tickets number the sends, so that "all sends so far" can be named. */
  datatype Send = Send(op: SavedOp, ticket: nat)

  /** How the account answers a put or a delete. `Invalid` stands for the remaining settled answers. */
  datatype Answer = Accepted | OverLimit | NotListed | Invalid | Unavailable

  datatype Refresh =
    | NoRefresh
    | Fetching(tries: nat, since: nat, seen: Option<nat>)
    | Settling(tries: nat, seen: Option<nat>, mark: nat)

  datatype Browser = Browser(
    local: seq<Slug>, base: seq<Slug>, pending: Pending, version: Option<nat>, offer: seq<Slug>,
    edits: nat, tickets: nat, chains: map<Slug, seq<Send>>, flight: map<Slug, Send>,
    merging: Option<seq<Slug>>, refresh: Refresh)

  function Queued(b: Browser, slug: Slug): seq<Send> {
    if slug in b.chains then b.chains[slug] else []
  }

  /** `send`: append to the slug's own chain. */
  function Enqueue(b: Browser, slug: Slug, op: SavedOp): Browser {
    b.(chains := b.chains[slug := Queued(b, slug) + [Send(op, b.tickets)]], tickets := b.tickets + 1)
  }

  function EnqueueAll(b: Browser, slugs: seq<Slug>, op: SavedOp): Browser {
    if slugs == [] then b else Enqueue(EnqueueAll(b, slugs[..|slugs| - 1], op), slugs[|slugs| - 1], op)
  }

  function Wanted(b: Browser, slug: Slug, on: Option<bool>): bool {
    match on case Some(value) => value case None => slug !in b.local
  }

  /** `toggleSaved` and `queue`: write the list at once, note the change, and chain its delivery. */
  function Toggled(b: Browser, slug: Slug, on: Option<bool>): Browser {
    var next := Wanted(b, slug, on);
    var op := if next then Put else Delete;
    var local := if (slug in b.local) == next then b.local
                 else if next then b.local + [slug] else Without(b.local, slug);
    Enqueue(b.(local := local, edits := b.edits + 1, pending := b.pending[slug := op]), slug, op)
  }

  /** A chained delivery may start: it is next in its chain and no merge is under way. */
  predicate CanDeliver(b: Browser, slug: Slug) {
    Queued(b, slug) != [] && slug !in b.flight && b.merging.None?
  }

  /** The start of `deliver`: a delivery that no longer matches the pending change is skipped. */
  function DeliveryBegun(b: Browser, slug: Slug): Browser
    requires CanDeliver(b, slug)
  {
    var head, rest := b.chains[slug][0], b.chains[slug][1..];
    var popped := b.(chains := b.chains[slug := rest]);
    if Has(b.pending, slug, head.op) then popped.(flight := b.flight[slug := head]) else popped
  }

  predicate Settled(answer: Answer) {
    !answer.Unavailable?
  }

  /** A put the account would not take is also undone in this browser. */
  predicate Refused(op: SavedOp, answer: Answer) {
    op == Put && (answer.OverLimit? || answer.NotListed?)
  }

  function Drop<V>(m: map<Slug, V>, slug: Slug): map<Slug, V> {
    map s | s in m && s != slug :: m[s]
  }

  /** The rest of `deliver`, once the account's answer is in. */
  function DeliveryAnswered(b: Browser, slug: Slug, answer: Answer): Browser
    requires slug in b.flight
  {
    var op := b.flight[slug].op;
    var landed := b.(flight := Drop(b.flight, slug));
    if !Settled(answer) then landed
    else
      landed.(
        edits := b.edits + 1,
        pending := if Has(b.pending, slug, op) then Drop(b.pending, slug) else b.pending,
        base := if !answer.Accepted? then b.base
                else if op == Put then [slug] + Without(b.base, slug) else Without(b.base, slug),
        local := if Refused(op, answer) then Without(b.local, slug) else b.local,
        offer := Without(b.offer, slug))
  }

  /** The request failed before any answer: nothing is recorded. */
  function DeliveryLost(b: Browser, slug: Slug): Browser
    requires slug in b.flight
  {
    b.(flight := Drop(b.flight, slug))
  }

  /** A `refresh` attempt: remember how many edits there were and ask for the list. */
  function RefreshBegun(b: Browser, tries: nat, seen: Option<nat>): Browser {
    b.(refresh := Fetching(tries, b.edits, seen))
  }

  /**
   * The list is in. If anything was edited or delivered since it was asked for, it is thrown away; otherwise this
   * browser is reconciled with it and the changes still due are sent again.
   */
  function ListArrived(b: Browser, list: seq<Slug>, order: seq<Slug>): Browser
    requires b.refresh.Fetching? && Lists(order, b.pending.Keys)
  {
    if b.edits != b.refresh.since then b.(refresh := Settling(b.refresh.tries + 1, b.refresh.seen, b.tickets))
    else
      Matched(b, b.refresh.seen, Reconcile(b.local, list, b.base, b.pending, order))
  }

  function Matched(b: Browser, seen: Option<nat>, r: Reconciled): Browser {
    var stored := b.(local := r.local, base := r.base, pending := r.pending, version := seen,
                     offer := r.localOnly, refresh := NoRefresh);
    EnqueueAll(EnqueueAll(stored, r.puts, Put), r.deletes, Delete)
  }

  /** Every delivery sent before `mark` has run to its end. */
  predicate AllSettled(b: Browser, mark: nat) {
    && (forall slug :: slug in b.flight ==> b.flight[slug].ticket >= mark)
    && (forall slug :: slug in b.chains ==> forall s :: s in b.chains[slug] ==> s.ticket >= mark)
  }

  function Retried(b: Browser): Browser
    requires b.refresh.Settling?
  {
    if b.refresh.tries < REFRESH_TRIES then RefreshBegun(b, b.refresh.tries, b.refresh.seen)
    else b.(refresh := NoRefresh)
  }

  /** What a merge would send: the most recent offered slugs that are still here and have no change of their own. */
  function Sendable(b: Browser): seq<Slug> {
    LastN(Select(b.offer, ToSet(b.local) - b.pending.Keys), SAVED_LIMIT)
  }

  /** `mergeBrowserSaved` up to its request. */
  function MergeBegun(b: Browser): Browser {
    if b.merging.Some? || b.offer == [] then b
    else if Sendable(b) == [] then b.(offer := [])
    else b.(merging := Some(Sendable(b)))
  }

  /**
   * The rest of `mergeBrowserSaved`: what was sent now counts as seen on the account, unless it was changed meanwhile,
   * and the first attempt of a refresh starts.
   */
  function MergeAnswered(b: Browser, ok: bool): Browser
    requires b.merging.Some?
  {
    var done := b.(merging := None);
    if !ok then done
    else
      var seen := Select(b.merging.value, ToSet(b.merging.value) - b.pending.Keys);
      RefreshBegun(done.(base := Dedup(b.base + seen), offer := []), 0, None)
  }

  /** The stored list, the sync record and the module variables, updated in place. */
  class SavedClient {
    var local: seq<Slug>
    var base: seq<Slug>
    var pending: Pending
    var version: Option<nat>
    var offer: seq<Slug>
    var edits: nat
    var tickets: nat
    var chains: map<Slug, seq<Send>>
    var flight: map<Slug, Send>
    var merging: Option<seq<Slug>>
    var refresh: Refresh

    function Model(): Browser
      reads this
    {
      Browser(local, base, pending, version, offer, edits, tickets, chains, flight, merging, refresh)
    }

    method Chain(slug: Slug, op: SavedOp)
      modifies this`chains, this`tickets
      ensures Model() == Enqueue(old(Model()), slug, op)
    {
      var queued := if slug in chains then chains[slug] else [];
      chains := chains[slug := queued + [Send(op, tickets)]];
      tickets := tickets + 1;
    }

    method SendEach(slugs: seq<Slug>, op: SavedOp)
      modifies this`chains, this`tickets
      ensures Model() == EnqueueAll(old(Model()), slugs, op)
    {
      for i := 0 to |slugs|
        invariant Model() == EnqueueAll(old(Model()), slugs[..i], op)
      {
        Chain(slugs[i], op);
        assert slugs[..i + 1][..i] == slugs[..i];
      }
      assert slugs[..|slugs|] == slugs;
    }

    method ToggleSaved(slug: Slug, on: Option<bool>) returns (next: bool)
      modifies this
      ensures next == Wanted(old(Model()), slug, on)
      ensures Model() == Toggled(old(Model()), slug, on)
    {
      next := match on case Some(value) => value case None => slug !in local;
      if (slug in local) != next {
        if next {
          local := local + [slug];
        } else {
          local := Without(local, slug);
        }
      }
      edits := edits + 1;
      var op := if next then Put else Delete;
      pending := pending[slug := op];
      Chain(slug, op);
    }

    method BeginDelivery(slug: Slug) returns (started: bool)
      requires CanDeliver(Model(), slug)
      modifies this`chains, this`flight
      ensures Model() == DeliveryBegun(old(Model()), slug)
      ensures started <==> slug in flight
    {
      var head := chains[slug][0];
      chains := chains[slug := chains[slug][1..]];
      started := Has(pending, slug, head.op);
      if started {
        flight := flight[slug := head];
      }
    }

    method AnswerDelivery(slug: Slug, answer: Answer)
      requires slug in flight
      modifies this
      ensures Model() == DeliveryAnswered(old(Model()), slug, answer)
    {
      var op := flight[slug].op;
      flight := Drop(flight, slug);
      if !Settled(answer) {
        return;
      }
      edits := edits + 1;
      if Has(pending, slug, op) {
        pending := Drop(pending, slug);
      }
      RecordAnswer(slug, op, answer);
    }

    /** What an answer changes in the stored lists. */
    method RecordAnswer(slug: Slug, op: SavedOp, answer: Answer)
      modifies this`base, this`local, this`offer
      ensures base == if !answer.Accepted? then old(base)
                      else if op == Put then [slug] + Without(old(base), slug) else Without(old(base), slug)
      ensures local == if Refused(op, answer) then Without(old(local), slug) else old(local)
      ensures offer == Without(old(offer), slug)
    {
      if answer.Accepted? {
        base := if op == Put then [slug] + Without(base, slug) else Without(base, slug);
      }
      if Refused(op, answer) {
        local := Without(local, slug);
      }
      offer := Without(offer, slug);
    }

    method ReceiveList(list: seq<Slug>, order: seq<Slug>)
      requires refresh.Fetching? && Lists(order, pending.Keys)
      modifies this
      ensures Model() == ListArrived(old(Model()), list, order)
    {
      if edits != refresh.since {
        refresh := Settling(refresh.tries + 1, refresh.seen, tickets);
        return;
      }
      var r := ReconcileSaved(local, list, base, pending, order);
      Match(refresh.seen, r);
    }

    method Match(seen: Option<nat>, r: Reconciled)
      modifies this
      ensures Model() == Matched(old(Model()), seen, r)
    {
      local := r.local;
      base, pending, version := r.base, r.pending, seen;
      offer := r.localOnly;
      refresh := NoRefresh;
      assert Model() == old(Model()).(local := r.local, base := r.base, pending := r.pending, version := seen,
                                      offer := r.localOnly, refresh := NoRefresh);
      SendEach(r.puts, Put);
      SendEach(r.deletes, Delete);
    }

    method BeginMerge() returns (started: bool)
      modifies this`offer, this`merging
      ensures Model() == MergeBegun(old(Model()))
      ensures started <==> old(merging).None? && merging.Some?
    {
      if merging.Some? || offer == [] {
        return false;
      }
      var sent := LastN(Select(offer, ToSet(local) - pending.Keys), SAVED_LIMIT);
      if sent == [] {
        offer := [];
        return false;
      }
      merging := Some(sent);
      return true;
    }

    method AnswerMerge(ok: bool)
      requires merging.Some?
      modifies this
      ensures Model() == MergeAnswered(old(Model()), ok)
    {
      var sent := merging.value;
      merging := None;
      if !ok {
        return;
      }
      base := Dedup(base + Select(sent, ToSet(sent) - pending.Keys));
      offer := [];
      refresh := Fetching(0, edits, None);
    }
  }
}
