/**
 * The optimistic settings form (components/me/AlertSettings.tsx): changes are shown at once, sent one at a time, and
 * withdrawn when their save fails. The server applies patches one after another and answers with the whole settings.
 */
module AlertSettings {
  import opened Basics

  datatype Field = Field(name: string)
  datatype Value = Value(text: string)

  /** Settings and patches alike: `{ ...current, ...patch }` is map addition. */
  type Settings = map<Field, Value>

  /** A pending change is an object of its own: removal compares identity, not contents. */
  datatype Item = Item(id: nat, patch: Settings)

  datatype Status = Blank | Saving | Saved | SaveFailed | RateLimited

  /** How a PUT ends: applied and answered, refused, or applied although the answer was lost. */
  datatype Reply = Applied | Refused(rateLimited: bool) | Lost

  datatype Event = Save(patch: Settings) | Settle(reply: Reply)

  datatype View = View(saved: Option<Settings>, pending: seq<Item>, queue: seq<Item>, made: nat,
                       failure: Option<Status>, status: Status, shown: Option<Settings>)

  function Overlay(base: Settings, items: seq<Item>): Settings {
    if items == [] then base else Overlay(base, items[..|items| - 1]) + items[|items| - 1].patch
  }

  function Shown(saved: Option<Settings>, pending: seq<Item>, before: Option<Settings>): Option<Settings> {
    if saved.Some? then Some(Overlay(saved.value, pending)) else before
  }

  function Without(items: seq<Item>, item: Item): seq<Item> {
    if items == [] then []
    else
      var rest := Without(items[..|items| - 1], item);
      if items[|items| - 1] != item then rest + [items[|items| - 1]] else rest
  }

  function FailureOf(reply: Reply): Status {
    if reply.Refused? && reply.rateLimited then RateLimited else SaveFailed
  }

  function Loaded(data: Settings): View {
    View(Some(data), [], [], 0, None, Blank, Some(data))
  }

  function Step(v: View, event: Event, server: Settings): View {
    match event
    case Save(patch) =>
      if v.saved.None? then v
      else
        var item := Item(v.made, patch);
        v.(pending := v.pending + [item], queue := v.queue + [item], made := v.made + 1, failure := None,
           status := Saving, shown := Shown(v.saved, v.pending + [item], v.shown))
    case Settle(reply) =>
      if v.queue == [] then v
      else
        var item := v.queue[0];
        var saved := if reply.Applied? then Some(server + item.patch) else v.saved;
        var failure := if reply.Applied? then v.failure else Some(FailureOf(reply));
        var pending := Without(v.pending, item);
        v.(saved := saved, pending := pending, queue := v.queue[1..], failure := failure,
           shown := Shown(saved, pending, v.shown),
           status := if pending != [] then v.status else if failure.Some? then failure.value else Saved)
  }

  /** The form's refs. `queue` holds the chained saves that have not settled; the first one is being sent. */
  class Form {
    var saved: Option<Settings>
    var pending: seq<Item>
    var queue: seq<Item>
    var made: nat
    var failure: Option<Status>
    var status: Status
    var shown: Option<Settings>

    ghost function Now(): View
      reads this
    {
      View(saved, pending, queue, made, failure, status, shown)
    }

    constructor (data: Settings)
      ensures Now() == Loaded(data)
    {
      saved, pending, queue, made := Some(data), [], [], 0;
      failure, status, shown := None, Blank, Some(data);
    }

    /** Draws the saved settings with the pending changes laid over them in order. */
    method Show()
      modifies `shown
      ensures shown == Shown(saved, pending, old(shown))
    {
      if saved.None? { return; }
      var settings := saved.value;
      for i := 0 to |pending|
        invariant settings == Overlay(saved.value, pending[..i])
      {
        assert pending[..i + 1][..i] == pending[..i];
        settings := settings + pending[i].patch;
      }
      assert pending[..|pending|] == pending;
      shown := Some(settings);
    }

    method SavePatch(patch: Settings, ghost server: Settings)
      modifies this
      ensures Now() == Step(old(Now()), Save(patch), server)
    {
      if saved.None? { return; }
      var item := Item(made, patch);
      made := made + 1;
      pending := pending + [item];
      failure := None;
      Show();
      status := Saving;
      queue := queue + [item];
    }

    /** The answer to the save at the head of the chain; `answer` is the body of a successful response. */
    method SettleSave(reply: Reply, answer: Settings, ghost server: Settings)
      requires queue != [] && (reply.Applied? ==> answer == server + queue[0].patch)
      modifies this
      ensures Now() == Step(old(Now()), Settle(reply), server)
    {
      var item := queue[0];
      queue := queue[1..];
      if reply.Applied? {
        saved := Some(answer);
      } else {
        failure := Some(if reply.Refused? && reply.rateLimited then RateLimited else SaveFailed);
      }
      var rest: seq<Item> := [];
      for i := 0 to |pending|
        invariant rest == Without(pending[..i], item)
      {
        assert pending[..i + 1][..i] == pending[..i];
        if pending[i] != item { rest := rest + [pending[i]]; }
      }
      assert pending[..|pending|] == pending;
      pending := rest;
      Show();
      if |pending| == 0 {
        status := if failure.Some? then failure.value else Saved;
      }
    }
  }

  // ---------- what a run should show ----------

  function Saves(events: seq<Event>): seq<Settings> {
    if events == [] then []
    else
      var last := events[|events| - 1];
      Saves(events[..|events| - 1]) + if last.Save? then [last.patch] else []
  }

  function Replies(events: seq<Event>): seq<Reply> {
    if events == [] then []
    else
      var last := events[|events| - 1];
      Replies(events[..|events| - 1]) + if last.Settle? then [last.reply] else []
  }

  /** Only a save that was made can settle. */
  predicate Lawful(events: seq<Event>)
    ensures Lawful(events) ==> |Replies(events)| <= |Saves(events)|
  {
    events == [] ||
      (var front := events[..|events| - 1];
       Lawful(front) && (events[|events| - 1].Settle? ==> |Replies(front)| < |Saves(front)|))
  }

  /** The server after the settled saves: everything but the refused ones, in order. */
  function Server(init: Settings, saves: seq<Settings>, replies: seq<Reply>): Settings
    requires |replies| <= |saves|
  {
    if replies == [] then init
    else
      var n := |replies| - 1;
      Server(init, saves, replies[..n]) + if replies[n].Refused? then map[] else saves[n]
  }

  /** What the form takes for saved: the server as of the last answer that arrived. */
  function Believed(init: Settings, saves: seq<Settings>, replies: seq<Reply>): Settings
    requires |replies| <= |saves|
  {
    if replies == [] then init
    else if replies[|replies| - 1].Applied? then Server(init, saves, replies)
    else Believed(init, saves, replies[..|replies| - 1])
  }

  function Run(init: Settings, events: seq<Event>): View
    requires Lawful(events)
  {
    if events == [] then Loaded(init)
    else
      var front := events[..|events| - 1];
      Step(Run(init, front), events[|events| - 1], Server(init, Saves(front), Replies(front)))
  }

  /** The saves that have not settled, as the objects the form made for them. */
  function Unsettled(saves: seq<Settings>, from: nat): seq<Item>
    requires from <= |saves|
  {
    seq(|saves| - from, i requires 0 <= i < |saves| - from => Item(from + i, saves[from + i]))
  }

  lemma {:induction false} WithoutFirst(items: seq<Item>)
    requires items != [] && items[0] !in items[1..]
    ensures Without(items, items[0]) == items[1..]
  {
    if |items| == 1 {
      assert Without(items[..0], items[0]) == [];
    } else {
      var front := items[..|items| - 1];
      assert front[1..] == items[1..][..|items| - 2];
      WithoutFirst(front);
      assert items[|items| - 1] == items[1..][|items| - 2];
    }
  }

  lemma SaveAppends(saves: seq<Settings>, patch: Settings, from: nat)
    requires from <= |saves|
    ensures Unsettled(saves + [patch], from) == Unsettled(saves, from) + [Item(|saves|, patch)]
  {
  }

  lemma SettleDropsFirst(saves: seq<Settings>, from: nat)
    requires from < |saves|
    ensures Unsettled(saves, from)[0] == Item(from, saves[from])
    ensures Without(Unsettled(saves, from), Item(from, saves[from])) == Unsettled(saves, from + 1)
  {
    var items := Unsettled(saves, from);
    assert items[1..] == Unsettled(saves, from + 1);
    WithoutFirst(items);
  }

  lemma {:induction false} MoreSaves(init: Settings, saves: seq<Settings>, more: seq<Settings>, replies: seq<Reply>)
    requires |replies| <= |saves|
    ensures Server(init, saves + more, replies) == Server(init, saves, replies)
    ensures Believed(init, saves + more, replies) == Believed(init, saves, replies)
  {
    if replies != [] {
      MoreSaves(init, saves, more, replies[..|replies| - 1]);
    }
  }

  ghost predicate Explained(v: View, init: Settings, saves: seq<Settings>, replies: seq<Reply>) {
    && |replies| <= |saves|
    && v.made == |saves|
    && v.pending == v.queue == Unsettled(saves, |replies|)
    && v.saved == Some(Believed(init, saves, replies))
    && v.shown == Some(Overlay(Believed(init, saves, replies), Unsettled(saves, |replies|)))
  }

  lemma ExplainedSave(v: View, init: Settings, saves: seq<Settings>, replies: seq<Reply>, patch: Settings,
                      server: Settings)
    requires Explained(v, init, saves, replies)
    ensures Explained(Step(v, Save(patch), server), init, saves + [patch], replies)
  {
    SaveAppends(saves, patch, |replies|);
    MoreSaves(init, saves, [patch], replies);
  }

  lemma ExplainedSettle(v: View, init: Settings, saves: seq<Settings>, replies: seq<Reply>, reply: Reply)
    requires Explained(v, init, saves, replies) && |replies| < |saves|
    ensures Explained(Step(v, Settle(reply), Server(init, saves, replies)), init, saves, replies + [reply])
  {
    var n := |replies|;
    SettleDropsFirst(saves, n);
    assert v.queue[1..] == Unsettled(saves, n + 1);
    assert (replies + [reply])[..n] == replies;
  }

  /**
   * At every point of every run the form shows the last answered server state with the unsettled saves laid over it.
   */
  lemma {:induction false} ShownIsExplained(init: Settings, events: seq<Event>)
    requires Lawful(events)
    ensures Explained(Run(init, events), init, Saves(events), Replies(events))
  {
    if events != [] {
      var front, last := events[..|events| - 1], events[|events| - 1];
      ShownIsExplained(init, front);
      match last
      case Save(patch) =>
        ExplainedSave(Run(init, front), init, Saves(front), Replies(front), patch,
            Server(init, Saves(front), Replies(front)));
        assert Replies(events) == Replies(front);
      case Settle(reply) =>
        ExplainedSettle(Run(init, front), init, Saves(front), Replies(front), reply);
        assert Saves(events) == Saves(front);
    }
  }

  // ---------- no answer is lost ----------

  /** The saves that succeeded or are still pending, in order. */
  function Standing(saves: seq<Settings>, replies: seq<Reply>): seq<Settings>
    requires |replies| <= |saves|
  {
    if saves == [] then []
    else
      var n := |saves| - 1;
      if |replies| == |saves| then
        Standing(saves[..n], replies[..n]) + if replies[n].Refused? then [] else [saves[n]]
      else Standing(saves[..n], replies) + [saves[n]]
  }

  function Serial(init: Settings, patches: seq<Settings>): Settings {
    if patches == [] then init else Serial(init, patches[..|patches| - 1]) + patches[|patches| - 1]
  }

  lemma {:induction false} AnsweredIsServer(init: Settings, saves: seq<Settings>, replies: seq<Reply>)
    requires |replies| <= |saves| && Lost !in replies
    ensures Believed(init, saves, replies) == Server(init, saves, replies)
  {
    if replies != [] {
      assert replies[|replies| - 1] in replies;
      AnsweredIsServer(init, saves, replies[..|replies| - 1]);
      assert Server(init, saves, replies[..|replies| - 1]) + map[] == Server(init, saves, replies[..|replies| - 1]);
    }
  }

  lemma {:induction false} SerialIsOverlay(init: Settings, saves: seq<Settings>, replies: seq<Reply>)
    requires |replies| <= |saves|
    ensures Serial(init, Standing(saves, replies)) == Overlay(Server(init, saves, replies), Unsettled(saves, |replies|))
  {
    if saves != [] {
      var n := |saves| - 1;
      if |replies| == |saves| {
        SerialIsOverlay(init, saves[..n], replies[..n]);
        AllSettledSerial(init, saves, replies);
      } else {
        SerialIsOverlay(init, saves[..n], replies);
        OnePendingSerial(init, saves, replies);
      }
    }
  }

  lemma AllSettledSerial(init: Settings, saves: seq<Settings>, replies: seq<Reply>)
    requires |replies| == |saves| > 0
    requires var n := |saves| - 1;
             Serial(init, Standing(saves[..n], replies[..n]))
                 == Overlay(Server(init, saves[..n], replies[..n]), Unsettled(saves[..n], n))
    ensures Serial(init, Standing(saves, replies)) == Overlay(Server(init, saves, replies), Unsettled(saves, |replies|))
  {
    var n := |saves| - 1;
    ServerOfEarlier(init, saves, replies);
    NothingUnsettled(Server(init, saves[..n], replies[..n]), saves[..n]);
    NothingUnsettled(Server(init, saves, replies), saves);
    SerialPush(init, Standing(saves[..n], replies[..n]), replies[n], saves[n]);
  }

  lemma NothingUnsettled(base: Settings, saves: seq<Settings>)
    ensures Overlay(base, Unsettled(saves, |saves|)) == base
  {
    assert Unsettled(saves, |saves|) == [];
  }

  lemma ServerOfEarlier(init: Settings, saves: seq<Settings>, replies: seq<Reply>)
    requires |replies| == |saves| > 0
    ensures var n := |saves| - 1;
            Server(init, saves, replies)
            == Server(init, saves[..n], replies[..n]) + if replies[n].Refused? then map[] else saves[n]
  {
    var n := |saves| - 1;
    assert saves[..n] + [saves[n]] == saves;
    MoreSaves(init, saves[..n], [saves[n]], replies[..n]);
  }

  lemma OnePendingSerial(init: Settings, saves: seq<Settings>, replies: seq<Reply>)
    requires |replies| < |saves|
    requires var n := |saves| - 1;
             Serial(init, Standing(saves[..n], replies))
                 == Overlay(Server(init, saves[..n], replies), Unsettled(saves[..n], |replies|))
    ensures Serial(init, Standing(saves, replies)) == Overlay(Server(init, saves, replies), Unsettled(saves, |replies|))
  {
    var n := |saves| - 1;
    PendingPush(init, saves, replies);
    OverlayPush(Server(init, saves[..n], replies), Unsettled(saves[..n], |replies|), Item(n, saves[n]));
    SerialPush(init, Standing(saves[..n], replies), Applied, saves[n]);
  }

  lemma PendingPush(init: Settings, saves: seq<Settings>, replies: seq<Reply>)
    requires |replies| < |saves|
    ensures var n := |saves| - 1;
            && Server(init, saves, replies) == Server(init, saves[..n], replies)
            && Unsettled(saves, |replies|) == Unsettled(saves[..n], |replies|) + [Item(n, saves[n])]
            && Standing(saves, replies) == Standing(saves[..n], replies) + [saves[n]]
  {
    var n := |saves| - 1;
    assert saves == saves[..n] + [saves[n]];
    MoreSaves(init, saves[..n], [saves[n]], replies);
    SaveAppends(saves[..n], saves[n], |replies|);
  }

  lemma OverlayPush(base: Settings, items: seq<Item>, item: Item)
    ensures Overlay(base, items + [item]) == Overlay(base, items) + item.patch
  {
    assert (items + [item])[..|items|] == items;
  }

  lemma SerialPush(init: Settings, patches: seq<Settings>, reply: Reply, patch: Settings)
    ensures Serial(init, patches + if reply.Refused? then [] else [patch])
         == Serial(init, patches) + if reply.Refused? then map[] else patch
  {
    if reply.Refused? {
      assert patches + [] == patches;
    } else {
      assert (patches + [patch])[..|patches|] == patches;
    }
  }

  /**
   * While every answer arrives, the form shows the initial settings with all successful and pending changes applied in
   * order, and with nothing pending it shows the server's settings.
   */
  lemma ShownIsSerial(init: Settings, events: seq<Event>)
    requires Lawful(events) && Lost !in Replies(events)
    ensures Run(init, events).shown == Some(Serial(init, Standing(Saves(events), Replies(events))))
    ensures Run(init, events).pending == [] ==>
              Run(init, events).shown == Some(Server(init, Saves(events), Replies(events)))
  {
    ShownIsExplained(init, events);
    AnsweredIsServer(init, Saves(events), Replies(events));
    SerialIsOverlay(init, Saves(events), Replies(events));
  }

  lemma {:induction false} OverlayConcat(base: Settings, first: Item, rest: seq<Item>)
    ensures Overlay(base, [first] + rest) == Overlay(base + first.patch, rest)
  {
    var all := [first] + rest;
    if rest == [] {
      assert all[..0] == [];
    } else {
      assert all[..|all| - 1] == [first] + rest[..|rest| - 1];
      OverlayConcat(base, first, rest[..|rest| - 1]);
    }
  }

  /** The screen just before a save settles, with that save laid first over the believed settings. */
  lemma SettledView(init: Settings, events: seq<Event>, reply: Reply)
    requires Lawful(events) && |Replies(events)| < |Saves(events)|
    ensures Lawful(events + [Settle(reply)])
    ensures var n := |Replies(events)|;
            && Saves(events + [Settle(reply)]) == Saves(events)
            && Replies(events + [Settle(reply)]) == Replies(events) + [reply]
            && Run(init, events).shown
               == Some(Overlay(Believed(init, Saves(events), Replies(events)) + Saves(events)[n],
                               Unsettled(Saves(events), n + 1)))
  {
    SettlePush(events, reply);
    ShownIsExplained(init, events);
    OverlayFirst(Believed(init, Saves(events), Replies(events)), Saves(events), |Replies(events)|);
  }

  lemma SettlePush(events: seq<Event>, reply: Reply)
    requires Lawful(events) && |Replies(events)| < |Saves(events)|
    ensures Lawful(events + [Settle(reply)])
    ensures Saves(events + [Settle(reply)]) == Saves(events)
    ensures Replies(events + [Settle(reply)]) == Replies(events) + [reply]
  {
    assert (events + [Settle(reply)])[..|events|] == events;
  }

  lemma OverlayFirst(base: Settings, saves: seq<Settings>, n: nat)
    requires n < |saves|
    ensures Overlay(base, Unsettled(saves, n)) == Overlay(base + saves[n], Unsettled(saves, n + 1))
  {
    assert Unsettled(saves, n) == [Item(n, saves[n])] + Unsettled(saves, n + 1);
    OverlayConcat(base, Item(n, saves[n]), Unsettled(saves, n + 1));
  }

  /** A successful save changes nothing on the screen, as long as no earlier answer was lost. */
  lemma SuccessChangesNothing(init: Settings, events: seq<Event>)
    requires Lawful(events) && |Replies(events)| < |Saves(events)| && Lost !in Replies(events)
    ensures Lawful(events + [Settle(Applied)])
    ensures Run(init, events + [Settle(Applied)]).shown == Run(init, events).shown
  {
    SettledView(init, events, Applied);
    ShownIsExplained(init, events + [Settle(Applied)]);
    AnsweredIsServer(init, Saves(events), Replies(events));
    assert (Replies(events) + [Applied])[..|Replies(events)|] == Replies(events);
  }

  lemma {:induction false} OverlayAgrees(a: Settings, b: Settings, items: seq<Item>, field: Field)
    requires ((field in a <==> field in b) && (field in a ==> a[field] == b[field]))
      || exists item :: item in items && field in item.patch
    ensures (field in Overlay(a, items) <==> field in Overlay(b, items))
         && (field in Overlay(a, items) ==> Overlay(a, items)[field] == Overlay(b, items)[field])
  {
    if items != [] {
      var front, last := items[..|items| - 1], items[|items| - 1];
      if field !in last.patch {
        if exists item :: item in items && field in item.patch {
          var item :| item in items && field in item.patch;
          assert item in front;
        }
        OverlayAgrees(a, b, front, field);
      }
    }
  }

  /** A failed save takes back its own fields only, and those only where no later pending change sets them. */
  lemma FailureTakesBackItsOwn(init: Settings, events: seq<Event>, reply: Reply, field: Field)
    requires Lawful(events) && |Replies(events)| < |Saves(events)| && !reply.Applied?
    requires field !in Saves(events)[|Replies(events)|]
      || exists i :: |Replies(events)| < i < |Saves(events)| && field in Saves(events)[i]
    ensures Lawful(events + [Settle(reply)])
    ensures SameField(Run(init, events).shown, Run(init, events + [Settle(reply)]).shown, field)
  {
    var saves, n := Saves(events), |Replies(events)|;
    var next := events + [Settle(reply)];
    SettledView(init, events, reply);
    ShownIsExplained(init, next);
    var believed, rest := Believed(init, saves, Replies(events)), Unsettled(saves, n + 1);
    assert Believed(init, saves, Replies(next)) == believed by {
      assert (Replies(events) + [reply])[..n] == Replies(events);
    }
    LaterChangeSets(saves, n, field);
    OverlayAgrees(believed + saves[n], believed, rest, field);
  }

  ghost predicate SameField(a: Option<Settings>, b: Option<Settings>, field: Field) {
    && a.Some? && b.Some? && (field in a.value <==> field in b.value)
    && (field in a.value ==> a.value[field] == b.value[field])
  }

  lemma LaterChangeSets(saves: seq<Settings>, n: nat, field: Field)
    requires n < |saves|
    ensures (exists i :: n < i < |saves| && field in saves[i]) ==>
              exists item :: item in Unsettled(saves, n + 1) && field in item.patch
  {
    if i :| n < i < |saves| && field in saves[i] {
      assert Unsettled(saves, n + 1)[i - n - 1] in Unsettled(saves, n + 1);
    }
  }

  // ---------- lost answers ----------

  /** Save `i` was applied, its answer was lost and no answer came since; no later one of these sets the field. */
  predicate LastLost(saves: seq<Settings>, replies: seq<Reply>, i: nat, field: Field)
    requires |replies| <= |saves|
  {
    && i < |replies| && replies[i].Lost? && field in saves[i]
    && forall j :: i < j < |replies| ==> !replies[j].Applied? && (replies[j].Lost? ==> field !in saves[j])
  }

  ghost predicate SameIn(a: Settings, b: Settings, field: Field) {
    (field in a <==> field in b) && (field in a ==> a[field] == b[field])
  }

  /** Where the server differs from what the form believes, the last lost change of that field says how. */
  lemma {:induction false} ServerBeyondAnswers(init: Settings, saves: seq<Settings>, replies: seq<Reply>, field: Field)
    requires |replies| <= |saves|
    ensures (exists i: nat :: LastLost(saves, replies, i, field))
            || SameIn(Server(init, saves, replies), Believed(init, saves, replies), field)
    ensures forall i: nat :: LastLost(saves, replies, i, field) ==>
              field in Server(init, saves, replies) && Server(init, saves, replies)[field] == saves[i][field]
  {
    if replies != [] && !replies[|replies| - 1].Applied? {
      var n := |replies| - 1;
      ServerBeyondAnswers(init, saves, replies[..n], field);
      if replies[n].Lost? && field in saves[n] {
        assert LastLost(saves, replies, n, field);
      } else {
        forall i: nat ensures LastLost(saves, replies, i, field) <==> LastLost(saves, replies[..n], i, field) {
        }
      }
    }
  }

  /**
   * With nothing pending the screen is right if and only if every field that a lost change set since the last answer
   * shows the value of the last such change anyway.
   */
  lemma ShownIsServerIff(init: Settings, events: seq<Event>)
    requires Lawful(events) && |Replies(events)| == |Saves(events)|
    ensures var saves, replies, shown := Saves(events), Replies(events), Run(init, events).shown;
            && shown.Some?
            && (shown.value == Server(init, saves, replies) <==>
                forall i: nat, field :: LastLost(saves, replies, i, field) ==>
                  field in shown.value && shown.value[field] == saves[i][field])
  {
    var saves, replies := Saves(events), Replies(events);
    ShownIsExplained(init, events);
    var believed, server := Believed(init, saves, replies), Server(init, saves, replies);
    assert Run(init, events).shown == Some(believed);
    forall field ensures (forall i: nat :: LastLost(saves, replies, i, field) ==>
                            field in believed && believed[field] == saves[i][field]) ==>
                                SameIn(server, believed, field) {
      ServerBeyondAnswers(init, saves, replies, field);
    }
    forall i: nat, field | LastLost(saves, replies, i, field)
      ensures field in server && server[field] == saves[i][field]
    {
      ServerBeyondAnswers(init, saves, replies, field);
    }
    if forall field :: SameIn(server, believed, field) {
      SameEverywhere(server, believed);
    }
  }

  lemma SameEverywhere(a: Settings, b: Settings)
    requires forall field :: SameIn(a, b, field)
    ensures a == b
  {
    forall field ensures (field in a <==> field in b) && (field in a ==> a[field] == b[field]) {
      assert SameIn(a, b, field);
    }
  }

  /** A lost answer: the server has the change, the screen has not. */
  lemma LostAnswerMisleads(field: Field, one: Value, two: Value)
    requires one != two
    ensures var init, events := map[field := one], [Save(map[field := two]), Settle(Lost)];
            && Lawful(events) && Run(init, events).shown == Some(init)
            && Server(init, Saves(events), Replies(events)) == map[field := two]
            && Run(init, events).shown != Some(Server(init, Saves(events), Replies(events)))
  {
    var init, events := map[field := one], [Save(map[field := two]), Settle(Lost)];
    OneLostSave(map[field := two]);
    ShownIsExplained(init, events);
    OneLostBelieved(init, Saves(events));
    assert init + map[field := two] == map[field := two];
    assert init[field] != map[field := two][field];
  }

  lemma OneLostSave(patch: Settings)
    ensures var events := [Save(patch), Settle(Lost)];
            Lawful(events) && Saves(events) == [patch] && Replies(events) == [Lost]
  {
    var events := [Save(patch), Settle(Lost)];
    assert events[..1] == [Save(patch)] && events[..1][..0] == [];
  }

  lemma OneLostBelieved(init: Settings, saves: seq<Settings>)
    requires |saves| == 1
    ensures Overlay(Believed(init, saves, [Lost]), Unsettled(saves, 1)) == init
    ensures Server(init, saves, [Lost]) == init + saves[0]
  {
    assert [Lost][..0] == [];
    assert Unsettled(saves, 1) == [];
  }

  // ---------- the status line ----------

  /** The last failure among the answers since the last change was made. */
  function FailureSince(events: seq<Event>): Option<Status> {
    if events == [] then None
    else
      match events[|events| - 1]
      case Save(_) => None
      case Settle(reply) =>
        if reply.Applied? then FailureSince(events[..|events| - 1])
        else Some(if reply == Refused(true) then RateLimited else SaveFailed)
  }

  ghost predicate StatusTold(v: View, failure: Option<Status>, begun: bool) {
    && v.failure == failure
    && (v.pending != [] ==> v.status == Saving)
    && (begun && v.pending == [] ==> v.status == if failure.Some? then failure.value else Saved)
  }

  lemma StatusStep(v: View, failure: Option<Status>, begun: bool, event: Event, server: Settings)
    requires StatusTold(v, failure, begun) && v.saved.Some? && v.pending == v.queue && (event.Settle? ==> v.queue != [])
    ensures StatusTold(Step(v, event, server),
                       if event.Save? then None
                       else if event.reply.Applied? then failure
                       else Some(if event.reply == Refused(true) then RateLimited else SaveFailed), true)
  {
  }

  /**
   * Once everything has settled the status line says saved exactly when nothing failed since the last change, and
   * otherwise whether the last failure was for too many requests.
   */
  lemma {:induction false} StatusWhenSettled(init: Settings, events: seq<Event>)
    requires Lawful(events)
    ensures StatusTold(Run(init, events), FailureSince(events), events != [])
  {
    if events != [] {
      var front := events[..|events| - 1];
      StatusWhenSettled(init, front);
      ShownIsExplained(init, front);
      StatusStep(Run(init, front), FailureSince(front), front != [], events[|events| - 1],
                 Server(init, Saves(front), Replies(front)));
    }
  }
}
