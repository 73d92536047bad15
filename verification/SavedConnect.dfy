/** Finding out who is signed in: `connect` of components/home/saved.ts, and the state the sync protocol starts from. */
module SavedConnect {
  import opened Basics
  import opened Sequences
  import opened SavedCore
  import opened SavedBrowser
  import opened SavedProtocol
  import opened SavedMerge

  /** The stored sync record of the account last matched. */
  datatype SyncState = SyncState(user: nat, base: seq<Slug>, pending: Pending, version: Option<nat>)

  /** The answer to "who am I": unknown, signed out, sign-in switched off, or an account with its saved version. */
  datatype Me = Unreachable | SignedOut | Off | SignedIn(user: nat, savedVersion: Option<nat>)

  datatype Phase = Checking | NoAccount | Offline | UserPhase(user: nat)

  /** `early` holds the toggles made before the answer. */
  datatype Document = Document(phase: Phase, local: seq<Slug>, early: Pending, sync: Option<SyncState>)

  /** After connecting, either the stored record is taken as it is or the account list is fetched. */
  datatype Connected = Connected(document: Document, offer: Option<seq<Slug>>)

  /** The version is unchanged, nothing is pending, and all that came from the account is still here. */
  predicate TakesShortcut(local: seq<Slug>, state: SyncState, savedVersion: Option<nat>) {
    && savedVersion.Some? && state.version == savedVersion && state.pending == map[]
    && forall slug :: slug in state.base ==> slug in local
  }

  function Identified(d: Document, me: Me): Connected {
    match me
    case Unreachable =>
      if d.sync.Some? && d.early != map[] then
        var state := d.sync.value;
        Connected(d.(phase := Offline, early := map[], sync := Some(state.(pending := state.pending + d.early))), None)
      else Connected(d.(phase := Offline), None)
    case Off => Connected(d.(phase := NoAccount, early := map[]), None)
    case SignedOut =>
      var cleared := d.(phase := NoAccount, early := map[]);
      if d.sync.None? then Connected(cleared, None)
      else
        var local := ForgetAccountCopy(d.local, d.sync.value.base, d.sync.value.pending);
        Connected(cleared.(local := local, sync := None), None)
    case SignedIn(user, savedVersion) =>
      var foreign := d.sync.Some? && d.sync.value.user != user;
      var local := if foreign then ForgetAccountCopy(d.local, d.sync.value.base, d.sync.value.pending) else d.local;
      var current := if d.sync.None? || foreign then SyncState(user, [], map[], None) else d.sync.value;
      var state := current.(pending := current.pending + d.early);
      Connected(Document(UserPhase(user), local, map[], Some(state)),
                if TakesShortcut(local, state, savedVersion) then Some(Select(local, ToSet(local) - ToSet(state.base)))
                else None)
  }

  /** The document's variables, updated in place. */
  class SavedDocument {
    var phase: Phase
    var local: seq<Slug>
    var early: Pending
    var sync: Option<SyncState>

    function Model(): Document
      reads this
    {
      Document(phase, local, early, sync)
    }

    /** `connect`, from the answer on; the result says whether the list still has to be fetched. */
    method Connect(me: Me) returns (offer: Option<seq<Slug>>)
      modifies this
      ensures Connected(Model(), offer) == Identified(old(Model()), me)
    {
      offer := None;
      var state := sync;
      if !me.SignedIn? {
        if me.Unreachable? {
          phase := Offline;
          if state.Some? && early != map[] {
            sync := Some(state.value.(pending := state.value.pending + early));
            early := map[];
          }
        } else {
          phase := NoAccount;
          early := map[];
          if me.SignedOut? && state.Some? {
            local := ForgetAccountCopy(local, state.value.base, state.value.pending);
            sync := None;
          }
        }
        return;
      }
      var current := state;
      if state.Some? && state.value.user != me.user {
        local := ForgetAccountCopy(local, state.value.base, state.value.pending);
        current := None;
      }
      if current.None? {
        current := Some(SyncState(me.user, [], map[], None));
      }
      var merged := current.value.(pending := current.value.pending + early);
      early := map[];
      sync := Some(merged);
      phase := UserPhase(me.user);
      if TakesShortcut(local, merged, me.savedVersion) {
        offer := Some(Select(local, ToSet(local) - ToSet(merged.base)));
      }
    }
  }

  /** A toggle made before the answer is never lost, unless the answer is that there is no account. */
  lemma EarlyTogglesSurvive(d: Document, me: Me, slug: Slug)
    requires slug in d.early
    ensures var after := Identified(d, me).document;
            match me
            case SignedIn(_, _) => after.early == map[] && Has(after.sync.value.pending, slug, d.early[slug])
            case Unreachable =>
              if d.sync.Some? then after.early == map[] && Has(after.sync.value.pending, slug, d.early[slug])
              else after.early == d.early
            case _ => after.early == map[] && (d.sync.None? ==> after.local == d.local)
  {
  }

  /** The answer calls for forgetting what came from an account: signed out, or somebody else signed in. */
  predicate Forgets(d: Document, me: Me) {
    d.sync.Some? && (me.SignedOut? || (me.SignedIn? && me.user != d.sync.value.user))
  }

  /**
   * What each answer leaves: the account's copy goes, with its record, exactly when the visitor is signed out or
   * somebody else is signed in, and then all but the account's slugs and the puts it never received stay.
   */
  lemma AnswerLeaves(d: Document, me: Me, slug: Slug)
    ensures var after := Identified(d, me).document;
            && (slug in after.local <==>
                  slug in d.local
                  && (Forgets(d, me) ==> slug !in d.sync.value.base || Has(d.sync.value.pending, slug, Put)))
            && (!me.SignedIn? ==> (after.sync.None? <==> d.sync.None? || Forgets(d, me)))
            && (me.SignedIn? ==>
                  && after.phase == UserPhase(me.user) && after.sync.Some? && after.sync.value.user == me.user
                  && after.sync.value.base == (if d.sync.None? || Forgets(d, me) then [] else d.sync.value.base))
            && (after.phase.UserPhase? <==> me.SignedIn?) && (after.phase == Offline <==> me.Unreachable?)
  {
  }

  /**
   * The list need not be fetched exactly when the account's version is the recorded one, nothing is to be sent, and all
   * that came from the account is still here; then every other slug is offered.
   */
  lemma FetchIsSkippedIff(d: Document, user: nat, savedVersion: Option<nat>)
    ensures var c := Identified(d, SignedIn(user, savedVersion));
            && (c.offer.Some? <==>
                  && d.sync.Some? && d.sync.value.user == user && savedVersion.Some?
                  && d.sync.value.version == savedVersion && d.sync.value.pending == map[] && d.early == map[]
                  && forall slug :: slug in d.sync.value.base ==> slug in d.local)
            && (c.offer.Some? ==>
                  forall slug :: slug in c.offer.value <==> slug in d.local && slug !in d.sync.value.base)
  {
    if d.sync.Some? && d.sync.value.user == user {
      var pending := d.sync.value.pending + d.early;
      assert pending.Keys == d.sync.value.pending.Keys + d.early.Keys;
    }
  }

  /** What this browser shows is what the changes not yet sent ask for. */
  predicate ChangesShown(local: seq<Slug>, pending: Pending) {
    forall slug :: slug in pending ==> (pending[slug] == Put) == (slug in local)
  }

  predicate Consistent(d: Document) {
    ChangesShown(d.local, if d.sync.Some? then d.sync.value.pending + d.early else d.early)
  }

  /** The branch that forgets another account's copy of a slug this visitor saved again before the answer came. */
  predicate ForgetsEarlyPut(d: Document, user: nat) {
    && d.sync.Some? && d.sync.value.user != user
    && exists slug :: slug in d.sync.value.base && Has(d.early, slug, Put) && !Has(d.sync.value.pending, slug, Put)
  }

  /**
   * Signing in keeps the list and the changes to send consistent, if and only if the account is the one last matched or
   * no early save is of a slug in the other account's copy: that slug leaves the list while its put is kept, until an
   * accepted list brings it back.
   */
  lemma SignInConsistentIff(d: Document, user: nat, savedVersion: Option<nat>)
    requires Consistent(d)
    ensures var after := Identified(d, SignedIn(user, savedVersion)).document;
            ChangesShown(after.local, after.sync.value.pending) <==> !ForgetsEarlyPut(d, user)
  {
    var after := Identified(d, SignedIn(user, savedVersion)).document;
    if ForgetsEarlyPut(d, user) {
      var slug :| slug in d.sync.value.base && Has(d.early, slug, Put) && !Has(d.sync.value.pending, slug, Put);
      assert slug !in after.local && Has(after.sync.value.pending, slug, Put);
    }
  }

  /** The first state of the sync protocol: what the document holds after signing in, before any refresh. */
  function Start(c: Connected, account: set<Slug>, stamp: nat): World
    requires c.document.sync.Some?
  {
    var d, state := c.document, c.document.sync.value;
    World(Browser(d.local, state.base, state.pending, state.version, if c.offer.Some? then c.offer.value else [],
                  0, 0, map[], map[], None, NoRefresh),
          account, stamp, map[], None, false, map[], {})
  }

  lemma StartKeepsInv(d: Document, user: nat, savedVersion: Option<nat>, account: set<Slug>, stamp: nat)
    ensures var w := Start(Identified(d, SignedIn(user, savedVersion)), account, stamp); Inv(w) && TicketsBelow(w.b)
  {
  }

  /**
   * Whatever a document holds when it signs in, left-over changes its list does not show included, every fair run from
   * there keeps browser and account in agreement about all that was toggled since.
   */
  lemma SignedInRunsAgree(d: Document, user: nat, savedVersion: Option<nat>, account: set<Slug>, stamp: nat,
                          es: seq<Event>)
    requires Run(Start(Identified(d, SignedIn(user, savedVersion)), account, stamp), es)
    requires FairRun(Start(Identified(d, SignedIn(user, savedVersion)), account, stamp), es)
    ensures Agreement(After(Start(Identified(d, SignedIn(user, savedVersion)), account, stamp), es))
  {
    StartKeepsInv(d, user, savedVersion, account, stamp);
    FairRunsAgree(Start(Identified(d, SignedIn(user, savedVersion)), account, stamp), es);
  }

  // ---------- the next document ----------

  /** The page after this one finds the stored list and record, and knows nothing else. */
  function NextDocument(w: World, user: nat): Document {
    Document(Checking, w.b.local, map[], Some(SyncState(user, w.b.base, w.b.pending, w.b.version)))
  }

  /** A stored version that is still the account's own means the stored base is the account list. */
  predicate RecordSound(d: Document, user: nat, account: set<Slug>, stamp: nat) {
    d.sync.Some? && d.sync.value.user == user && d.sync.value.version.Some? ==>
      d.sync.value.version.value <= stamp
          && (d.sync.value.version.value == stamp ==> ToSet(d.sync.value.base) == account)
  }

  predicate StoredOnce(d: Document) {
    Distinct(d.local) && (d.sync.Some? ==> Distinct(d.sync.value.base))
  }

  /** A sound record makes a sound start, and a fair run whose merges are covered leaves a sound record again. */
  lemma RecordStaysSound(d: Document, user: nat, savedVersion: Option<nat>, account: set<Slug>, stamp: nat,
                         es: seq<Event>)
    requires RecordSound(d, user, account, stamp) && StoredOnce(d)
    requires var w := Start(Identified(d, SignedIn(user, savedVersion)), account, stamp);
             Run(w, es) && FairRun(w, es) && MergesCovered(w, es)
    ensures var end := After(Start(Identified(d, SignedIn(user, savedVersion)), account, stamp), es);
            RecordSound(NextDocument(end, user), user, end.account, end.stamp) && StoredOnce(NextDocument(end, user))
  {
    var w := Start(Identified(d, SignedIn(user, savedVersion)), account, stamp);
    StartKeepsInv(d, user, savedVersion, account, stamp);
    StartListsDistinct(d, user, savedVersion);
    VersionRuns(w, es);
    DistinctRuns(w, es);
  }

  lemma StartListsDistinct(d: Document, user: nat, savedVersion: Option<nat>)
    requires StoredOnce(d)
    ensures var after := Identified(d, SignedIn(user, savedVersion)).document;
            Distinct(after.local) && Distinct(after.sync.value.base)
  {
    if d.sync.Some? {
      SelectDistinct(d.local, (ToSet(d.local) - ToSet(d.sync.value.base)) + Chosen(d.sync.value.pending, Put));
    }
  }

  /**
   * When the shortcut is taken because the account's saved version is the stored one, it shows what fetching and
   * matching the account list would.
   */
  lemma ShortcutShowsTheSame(d: Document, user: nat, account: set<Slug>, stamp: nat, list: seq<Slug>, r: Reconciled)
    requires RecordSound(d, user, account, stamp) && StoredOnce(d) && ToSet(list) == account
    requires var c := Identified(d, SignedIn(user, Some(stamp)));
             && c.offer.Some?
             && r == Reconcile(c.document.local, list, c.document.sync.value.base, map[], [])
    ensures var c := Identified(d, SignedIn(user, Some(stamp)));
            && r.local == c.document.local && r.localOnly == c.offer.value
            && |r.base| == |c.document.sync.value.base| && r.puts == [] && r.deletes == []
            && c.document.sync.value.pending == map[]
  {
    StartListsDistinct(d, user, Some(stamp));
    var after := Identified(d, SignedIn(user, Some(stamp))).document;
    ShortcutBase(d, user, account, stamp);
    SameMembers(list, after.sync.value.base);
    ShortcutRefinesReconcile(after.local, list, after.sync.value.base, r);
  }

  lemma ShortcutBase(d: Document, user: nat, account: set<Slug>, stamp: nat)
    requires RecordSound(d, user, account, stamp) && Identified(d, SignedIn(user, Some(stamp))).offer.Some?
    ensures var after := Identified(d, SignedIn(user, Some(stamp))).document;
            && ToSet(after.sync.value.base) == account
                && (forall slug :: slug in after.sync.value.base ==> slug in after.local)
            && after.sync.value.pending == map[]
            && Identified(d, SignedIn(user, Some(stamp))).offer.value
               == Select(after.local, ToSet(after.local) - ToSet(after.sync.value.base))
  {
  }

  /**
   * A base that holds a slug the account skipped: the shortcut keeps the slug, counts it as the account's and does not
   * offer it, while the full path would drop it.
   */
  lemma SkippedSlugSurvivesShortcut(d: Document, user: nat, stamp: nat, slug: Slug, list: seq<Slug>, r: Reconciled)
    requires d.sync.Some? && slug in d.sync.value.base && slug !in list
    requires var c := Identified(d, SignedIn(user, Some(stamp)));
             c.offer.Some? && r == Reconcile(c.document.local, list, c.document.sync.value.base, map[], [])
    ensures var c := Identified(d, SignedIn(user, Some(stamp)));
            slug in c.document.local && slug in c.document.sync.value.base && slug !in c.offer.value && slug !in r.local
  {
    var c := Identified(d, SignedIn(user, Some(stamp)));
    ReconcileMembers(c.document.local, list, c.document.sync.value.base, map[], [], r);
  }
}
