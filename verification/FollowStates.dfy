/**
 * Asking for follow states in batches (components/me/FollowButton.tsx): the questions of one tick are queued, and a
 * flush sends them in as few requests as one key per kind allows.
 */
module FollowStates {
  import opened Basics
  import Sequences

  datatype Target = Product | Maker | Category

  datatype Key = Key(text: string)

  /** A question and the promise waiting for its answer. */
  datatype Item = Item(waiter: nat, target: Target, key: Key)

  /** The body of a successful response: whether each kind asked about is followed. */
  type Body = map<Target, bool>

  datatype Answer = Answer(item: Item, following: Option<bool>)

  predicate Asks(group: seq<Item>, target: Target) {
    exists i :: 0 <= i < |group| && group[i].target == target
  }

  /** The first question of each kind, in order. */
  function Firsts(items: seq<Item>): seq<Item> {
    if items == [] then []
    else
      var front, last := items[..|items| - 1], items[|items| - 1];
      if Asks(front, last.target) then Firsts(front) else Firsts(front) + [last]
  }

  /** The questions whose kind was asked before them, in order. */
  function Others(items: seq<Item>): seq<Item> {
    if items == [] then []
    else
      var front, last := items[..|items| - 1], items[|items| - 1];
      if Asks(front, last.target) then Others(front) + [last] else Others(front)
  }

  lemma {:induction false} FirstsAsk(items: seq<Item>, target: Target)
    ensures Asks(Firsts(items), target) <==> Asks(items, target)
  {
    if items != [] {
      var front, last := items[..|items| - 1], items[|items| - 1];
      assert items == front + [last];
      FirstsAsk(front, target);
      if Asks(front, last.target) {
        assert Asks(items, target) <==> Asks(front, target);
      } else {
        AsksPush(Firsts(front), last, target);
        AsksPush(front, last, target);
      }
    }
  }

  lemma AsksPush(group: seq<Item>, item: Item, target: Target)
    ensures Asks(group + [item], target) <==> Asks(group, target) || item.target == target
  {
    assert (group + [item])[|group|] == item;
    if Asks(group, target) {
      var i :| 0 <= i < |group| && group[i].target == target;
      assert (group + [item])[i].target == target;
    }
  }

  lemma {:induction false} Split(items: seq<Item>)
    ensures multiset(Firsts(items)) + multiset(Others(items)) == multiset(items)
    ensures items != [] ==> Firsts(items) != []
    ensures |Firsts(items)| + |Others(items)| == |items|
  {
    if items != [] {
      var front, last := items[..|items| - 1], items[|items| - 1];
      assert items == front + [last];
      Split(front);
    }
  }

  /** The requests a flush sends. */
  function Requests(items: seq<Item>): seq<seq<Item>>
    decreases |items|
  {
    if items == [] then []
    else
      Split(items);
      [Firsts(items)] + Requests(Others(items))
  }

  function Answered(group: seq<Item>, body: Option<Body>): seq<Answer> {
    seq(|group|, i requires 0 <= i < |group| =>
      Answer(group[i], if body.Some? then Some(group[i].target in body.value && body.value[group[i].target]) else None))
  }

  /** The promises resolved, in order; `n` requests were sent before. */
  function Resolved(requests: seq<seq<Item>>, n: nat, bodies: nat -> Option<Body>): seq<Answer> {
    if requests == [] then []
    else Resolved(requests[..|requests| - 1], n, bodies)
         + Answered(requests[|requests| - 1], bodies(n + |requests| - 1))
  }

  /** Splices the next group out of the list. */
  method TakeGroup(items: seq<Item>) returns (group: seq<Item>, rest: seq<Item>)
    ensures group == Firsts(items) && rest == Others(items)
  {
    group, rest := [], items;
    var index := 0;
    ghost var seen := 0;
    while index < |rest|
      invariant 0 <= seen <= |items| && index <= |rest|
      invariant group == Firsts(items[..seen])
      invariant rest[..index] == Others(items[..seen]) && rest[index..] == items[seen..]
      decreases |items| - seen
    {
      var item := rest[index];
      assert item == rest[index..][0] == items[seen];
      assert items[..seen + 1][..seen] == items[..seen];
      FirstsAsk(items[..seen], item.target);
      if exists i :: 0 <= i < |group| && group[i].target == item.target {
        assert Asks(group, item.target);
        assert rest[..index + 1] == rest[..index] + [item];
        assert rest[index + 1..] == rest[index..][1..];
        index := index + 1;
      } else {
        assert !Asks(group, item.target);
        group := group + [item];
        assert rest[index + 1..] == rest[index..][1..];
        rest := rest[..index] + rest[index + 1..];
      }
      seen := seen + 1;
    }
    assert rest[..index] == rest && items[..seen] == items;
  }

  method AnswerGroup(group: seq<Item>, body: Option<Body>) returns (resolved: seq<Answer>)
    ensures resolved == Answered(group, body)
  {
    resolved := [];
    for i := 0 to |group|
      invariant resolved == Answered(group, body)[..i]
    {
      var following := if body.Some? then Some(group[i].target in body.value && body.value[group[i].target]) else None;
      resolved := resolved + [Answer(group[i], following)];
    }
  }

  lemma ResolvedPush(requests: seq<seq<Item>>, group: seq<Item>, bodies: nat -> Option<Body>)
    ensures Resolved(requests + [group], 0, bodies)
            == Resolved(requests, 0, bodies) + Answered(group, bodies(|requests|))
  {
    var all := requests + [group];
    assert all[..|all| - 1] == requests && all[|all| - 1] == group;
  }

  lemma RequestsPush(requests: seq<seq<Item>>, items: seq<Item>)
    requires items != []
    ensures |Others(items)| < |items|
    ensures requests + Requests(items) == (requests + [Firsts(items)]) + Requests(Others(items))
  {
    OthersFewer(items);
    var group, later := Firsts(items), Requests(Others(items));
    assert Requests(items) == [group] + later;
    Sequences.Regroup(requests, [group], later);
  }

  lemma OthersFewer(items: seq<Item>)
    requires items != []
    ensures |Others(items)| < |items|
  {
    Split(items);
  }

  /** The flush over the questions taken from the queue; `bodies` says how each request ends. */
  method FlushStates(queued: seq<Item>, bodies: nat -> Option<Body>)
    returns (requests: seq<seq<Item>>, answers: seq<Answer>)
    ensures requests == Requests(queued)
    ensures answers == Resolved(Requests(queued), 0, bodies)
  {
    requests, answers := [], [];
    var items := queued;
    while items != []
      invariant requests + Requests(items) == Requests(queued)
      invariant answers == Resolved(requests, 0, bodies)
      decreases |items|
    {
      RequestsPush(requests, items);
      var group, rest := TakeGroup(items);
      var resolved := AnswerGroup(group, bodies(|requests|));
      answers := answers + resolved;
      ResolvedPush(requests, group, bodies);
      requests := requests + [group];
      items := rest;
    }
  }

  // ---------- every waiter is answered once ----------

  function Flat(groups: seq<seq<Item>>): seq<Item> {
    if groups == [] then [] else Flat(groups[..|groups| - 1]) + groups[|groups| - 1]
  }

  function Items(answers: seq<Answer>): seq<Item> {
    seq(|answers|, i requires 0 <= i < |answers| => answers[i].item)
  }

  lemma {:induction false} FlatFirst(group: seq<Item>, rest: seq<seq<Item>>)
    ensures Flat([group] + rest) == group + Flat(rest)
  {
    var all := [group] + rest;
    if rest == [] {
      assert all[..0] == [];
    } else {
      assert all[..|all| - 1] == [group] + rest[..|rest| - 1];
      FlatFirst(group, rest[..|rest| - 1]);
    }
  }

  lemma {:induction false} RequestsCover(items: seq<Item>)
    ensures multiset(Flat(Requests(items))) == multiset(items)
    decreases |items|
  {
    if items != [] {
      Split(items);
      RequestsCover(Others(items));
      FlatFirst(Firsts(items), Requests(Others(items)));
    }
  }

  lemma {:induction false} ResolvedItems(requests: seq<seq<Item>>, n: nat, bodies: nat -> Option<Body>)
    ensures Items(Resolved(requests, n, bodies)) == Flat(requests)
  {
    if requests != [] {
      ResolvedItems(requests[..|requests| - 1], n, bodies);
    }
  }

  /** A flush resolves the promise of every question it took, each exactly once. */
  lemma EveryWaiterAnsweredOnce(queued: seq<Item>, bodies: nat -> Option<Body>)
    ensures multiset(Items(Resolved(Requests(queued), 0, bodies))) == multiset(queued)
  {
    ResolvedItems(Requests(queued), 0, bodies);
    RequestsCover(queued);
  }

  // ---------- as few requests as possible ----------

  predicate OnePerTarget(group: seq<Item>) {
    forall i, j :: 0 <= i < j < |group| ==> group[i].target != group[j].target
  }

  function Count(items: seq<Item>, target: Target): nat {
    if items == [] then 0
    else Count(items[..|items| - 1], target) + if items[|items| - 1].target == target then 1 else 0
  }

  lemma {:induction false} FirstsOnePerTarget(items: seq<Item>)
    ensures OnePerTarget(Firsts(items))
  {
    if items != [] {
      var front, last := items[..|items| - 1], items[|items| - 1];
      FirstsOnePerTarget(front);
      FirstsAsk(front, last.target);
    }
  }

  /** Every request asks about at least one kind and about each kind at most once. */
  lemma {:induction false} RequestsAreLawful(items: seq<Item>)
    ensures forall g :: g in Requests(items) ==> g != [] && OnePerTarget(g)
    decreases |items|
  {
    if items != [] {
      Split(items);
      FirstsOnePerTarget(items);
      RequestsAreLawful(Others(items));
    }
  }

  lemma {:induction false} CountAsks(items: seq<Item>, target: Target)
    ensures Count(items, target) > 0 <==> Asks(items, target)
  {
    if items != [] {
      var front, last := items[..|items| - 1], items[|items| - 1];
      CountAsks(front, target);
      assert items == front + [last];
      AsksPush(front, last, target);
    }
  }

  lemma {:induction false} OthersCount(items: seq<Item>, target: Target)
    ensures Count(Others(items), target) == if Count(items, target) == 0 then 0 else Count(items, target) - 1
  {
    if items != [] {
      var front, last := items[..|items| - 1], items[|items| - 1];
      OthersCount(front, target);
      CountAsks(front, last.target);
      if Asks(front, last.target) {
        CountPush(Others(front), last, target);
      }
      assert items == front + [last];
      CountPush(front, last, target);
    }
  }

  lemma CountPush(items: seq<Item>, item: Item, target: Target)
    ensures Count(items + [item], target) == Count(items, target) + if item.target == target then 1 else 0
  {
    assert (items + [item])[..|items|] == items;
  }

  /** The number of requests is the largest number of questions of one kind. */
  lemma {:induction false} RequestsNeeded(items: seq<Item>)
    ensures forall target :: Count(items, target) <= |Requests(items)|
    ensures items != [] ==> exists target :: Count(items, target) == |Requests(items)|
    decreases |items|
  {
    if items != [] {
      Split(items);
      var rest := Others(items);
      RequestsNeeded(rest);
      forall target ensures Count(items, target) <= |Requests(items)| {
        OthersCount(items, target);
      }
      var target := items[|items| - 1].target;
      if rest != [] {
        target :| Count(rest, target) == |Requests(rest)|;
      }
      OthersCount(items, target);
    }
  }

  lemma {:induction false} CountConcat(a: seq<Item>, b: seq<Item>, target: Target)
    ensures Count(a + b, target) == Count(a, target) + Count(b, target)
  {
    if b == [] {
      assert a + b == a;
    } else {
      assert (a + b)[..|a + b| - 1] == a + b[..|b| - 1];
      CountConcat(a, b[..|b| - 1], target);
    }
  }

  lemma {:induction false} AtMostOne(group: seq<Item>, target: Target)
    requires OnePerTarget(group)
    ensures Count(group, target) <= 1
  {
    if group != [] {
      var front, last := group[..|group| - 1], group[|group| - 1];
      AtMostOne(front, target);
      CountAsks(front, target);
    }
  }

  lemma {:induction false} GroupsBound(groups: seq<seq<Item>>, target: Target)
    requires forall g :: g in groups ==> OnePerTarget(g)
    ensures Count(Flat(groups), target) <= |groups|
  {
    if groups != [] {
      var front, last := groups[..|groups| - 1], groups[|groups| - 1];
      assert forall g :: g in front ==> g in groups;
      GroupsBound(front, target);
      CountConcat(Flat(front), last, target);
      AtMostOne(last, target);
    }
  }

  lemma {:induction false} CountOfSame(a: seq<Item>, b: seq<Item>, target: Target)
    requires multiset(a) == multiset(b)
    ensures Count(a, target) == Count(b, target)
    decreases |a|
  {
    if a == [] {
      assert |multiset(b)| == 0;
    } else {
      var front, last := a[..|a| - 1], a[|a| - 1];
      assert a == front + [last];
      assert last in multiset(b);
      var i :| 0 <= i < |b| && b[i] == last;
      CountRemove(b, i, target);
      var rest := b[..i] + b[i + 1..];
      CancelOne(multiset(front), multiset(rest), last);
      CountOfSame(front, rest, target);
    }
  }

  lemma CountRemove(items: seq<Item>, i: nat, target: Target)
    requires i < |items|
    ensures var rest := items[..i] + items[i + 1..];
            && multiset(items) == multiset(rest) + multiset{items[i]}
            && Count(items, target) == Count(rest, target) + if items[i].target == target then 1 else 0
  {
    assert items == items[..i] + [items[i]] + items[i + 1..];
    CountConcat(items[..i] + [items[i]], items[i + 1..], target);
    CountPush(items[..i], items[i], target);
    CountConcat(items[..i], items[i + 1..], target);
  }

  /** No way of sending the same questions, one of a kind per request, takes fewer requests. */
  lemma FewestRequests(items: seq<Item>, groups: seq<seq<Item>>)
    requires multiset(Flat(groups)) == multiset(items) && forall g :: g in groups ==> OnePerTarget(g)
    ensures |Requests(items)| <= |groups|
  {
    RequestsNeeded(items);
    if items != [] {
      var target :| Count(items, target) == |Requests(items)|;
      GroupsBound(groups, target);
      CountOfSame(Flat(groups), items, target);
    } else {
      assert Requests(items) == [];
    }
  }

  lemma {:induction false} OthersPrefix(items: seq<Item>, n: nat)
    requires n <= |items|
    ensures Others(items[..n]) <= Others(items) && Firsts(items[..n]) <= Firsts(items)
  {
    if n == |items| {
      assert items[..n] == items;
    } else {
      var front := items[..|items| - 1];
      assert front[..n] == items[..n];
      OthersPrefix(front, n);
    }
  }

  /** Questions of one kind are sent in the order they were asked: the one with `r` before it goes into request `r`. */
  lemma {:induction false} RequestOf(items: seq<Item>, i: nat)
    requires i < |items|
    ensures Count(items[..i], items[i].target) < |Requests(items)|
    ensures items[i] in Requests(items)[Count(items[..i], items[i].target)]
    decreases |items|
  {
    Split(items);
    CountAsks(items[..i], items[i].target);
    ItemSplit(items, i);
    if Asks(items[..i], items[i].target) {
      OthersCount(items[..i], items[i].target);
      RequestOf(Others(items), |Others(items[..i])|);
      assert Requests(items) == [Firsts(items)] + Requests(Others(items));
    }
  }

  /** A question goes behind the others of before it if its kind was asked before, and to the firsts otherwise. */
  lemma ItemSplit(items: seq<Item>, i: nat)
    requires i < |items|
    ensures if Asks(items[..i], items[i].target) then
              var j := |Others(items[..i])|;
              j < |Others(items)| && Others(items)[j] == items[i] && Others(items)[..j] == Others(items[..i])
            else items[i] in Firsts(items)
  {
    assert items[..i + 1][..i] == items[..i];
    OthersPrefix(items, i + 1);
    if Asks(items[..i], items[i].target) {
      assert Others(items[..i + 1]) == Others(items[..i]) + [items[i]];
    } else {
      assert Firsts(items[..i + 1]) == Firsts(items[..i]) + [items[i]];
      assert Firsts(items)[|Firsts(items[..i])|] == items[i];
    }
  }

  /** What a question is told: the value under its kind in the body of its request, or nothing when that failed. */
  function Told(body: Option<Body>, target: Target): Option<bool> {
    if body.None? then None else Some(target in body.value && body.value[target])
  }

  lemma {:induction false} ResolvedHas(requests: seq<seq<Item>>, r: nat, item: Item, bodies: nat -> Option<Body>)
    requires r < |requests| && item in requests[r]
    ensures Answer(item, Told(bodies(r), item.target)) in Resolved(requests, 0, bodies)
  {
    if r == |requests| - 1 {
      var i :| 0 <= i < |requests[r]| && requests[r][i] == item;
      assert Answered(requests[r], bodies(r))[i] == Answer(item, Told(bodies(r), item.target));
    } else {
      ResolvedHas(requests[..|requests| - 1], r, item, bodies);
    }
  }

  /**
   * Every question is told what the body of its own request says under its kind: with `r` questions of the kind before
   * it, that of request `r`.
   */
  lemma EveryWaiterIsTold(queued: seq<Item>, i: nat, bodies: nat -> Option<Body>)
    requires i < |queued|
    ensures var r := Count(queued[..i], queued[i].target);
            Answer(queued[i], Told(bodies(r), queued[i].target)) in Resolved(Requests(queued), 0, bodies)
  {
    RequestOf(queued, i);
    ResolvedHas(Requests(queued), Count(queued[..i], queued[i].target), queued[i], bodies);
  }

  // ---------- the queue ----------

  /** The module's queue, the flush timers set and not fired, and the lists taken by flushes so far. */
  datatype State = State(queued: seq<Item>, timers: nat, flushed: seq<seq<Item>>)

  datatype Event = Ask(item: Item) | Fire

  function Step(s: State, event: Event): State {
    match event
    case Ask(item) =>
      State(s.queued + [item], if |s.queued| == 0 then s.timers + 1 else s.timers, s.flushed)
    case Fire =>
      if s.timers == 0 then s else State([], s.timers - 1, s.flushed + [s.queued])
  }

  class FollowQueue {
    var queued: seq<Item>
    var timers: nat

    constructor ()
      ensures queued == [] && timers == 0
    {
      queued, timers := [], 0;
    }

    method FollowStateOf(item: Item, ghost flushed: seq<seq<Item>>)
      modifies this
      ensures State(queued, timers, flushed) == Step(State(old(queued), old(timers), flushed), Ask(item))
    {
      queued := queued + [item];
      if |queued| == 1 {
        timers := timers + 1;
      }
    }

    /** A timer fires: the flush takes the whole queue. */
    method Fired(ghost flushed: seq<seq<Item>>) returns (items: seq<Item>)
      requires timers > 0
      modifies this
      ensures State(queued, timers, flushed + [items]) == Step(State(old(queued), old(timers), flushed), Fire)
    {
      timers := timers - 1;
      items := queued;
      queued := [];
    }
  }

  function Run(events: seq<Event>): State {
    if events == [] then State([], 0, []) else Step(Run(events[..|events| - 1]), events[|events| - 1])
  }

  function Asked(events: seq<Event>): seq<Item> {
    if events == [] then []
    else Asked(events[..|events| - 1]) + if events[|events| - 1].Ask? then [events[|events| - 1].item] else []
  }

  /**
   * A flush is scheduled exactly while somebody waits in the queue, and every question asked is in exactly one flush or
   * still queued, in the order asked.
   */
  lemma {:induction false} NobodyIsForgotten(events: seq<Event>)
    ensures var s := Run(events);
            && s.timers == (if s.queued == [] then 0 else 1)
            && Flat(s.flushed) + s.queued == Asked(events)
            && [] !in s.flushed
  {
    if events != [] {
      NobodyIsForgotten(events[..|events| - 1]);
      var before, s := Run(events[..|events| - 1]), Run(events);
      if s.flushed != before.flushed {
        assert s.flushed[..|s.flushed| - 1] == before.flushed;
      }
    }
  }

  /** When the timer fires, whoever waited is in the flush, and with it every question asked so far was flushed. */
  lemma FlushTakesAll(events: seq<Event>)
    requires Run(events).timers > 0
    ensures var s := Run(events + [Fire]);
            && s.queued == [] && s.timers == 0
            && s.flushed == Run(events).flushed + [Run(events).queued] && Flat(s.flushed) == Asked(events)
  {
    NobodyIsForgotten(events);
    assert (events + [Fire])[..|events|] == events;
    var before := Run(events);
    assert (before.flushed + [before.queued])[..|before.flushed|] == before.flushed;
  }
}
