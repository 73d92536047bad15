/**
 * The search quality score: normalised discounted cumulative gain over judged results (scripts/search-judged.ts). The
 * discount 1/log2(i + 2) is any positive, non-increasing sequence of reals.
 */
module Ndcg {
  import opened Basics
  import opened Sequences

  type Grade = nat

  type Discount = nat -> real

  function Gain(grade: Grade): (r: real)
    ensures r >= 0.0
    ensures r == 0.0 <==> grade == 0
  {
    assert grade > 0 ==> Pow2(grade) == 2 * Pow2(grade - 1);
    (Pow2(grade) - 1) as real
  }

  ghost predicate Discounting(d: Discount) {
    && (forall i: nat :: d(i) > 0.0)
    && (forall i: nat, j: nat :: i <= j ==> d(j) <= d(i))
  }

  function Take(list: seq<Grade>, k: nat): seq<Grade> {
    if |list| <= k then list else list[..k]
  }

  /** The `reduce` over the cut list. */
  function DcgSum(list: seq<Grade>, d: Discount): real {
    if list == [] then 0.0 else DcgSum(list[..|list| - 1], d) + Gain(list[|list| - 1]) * d(|list| - 1)
  }

  function Dcg(list: seq<Grade>, k: nat, d: Discount): real {
    DcgSum(Take(list, k), d)
  }

  predicate Descending(list: seq<Grade>) {
    forall i, j :: 0 <= i < j < |list| ==> list[i] >= list[j]
  }

  function Insert(x: Grade, list: seq<Grade>): seq<Grade> {
    if list == [] || x >= list[0] then [x] + list else [list[0]] + Insert(x, list[1..])
  }

  lemma {:induction false} InsertCounts(x: Grade, list: seq<Grade>)
    ensures multiset(Insert(x, list)) == multiset(list) + multiset{x}
  {
    if list != [] && x < list[0] {
      InsertCounts(x, list[1..]);
      assert list == [list[0]] + list[1..];
    }
  }

  lemma {:induction false} InsertDescends(x: Grade, list: seq<Grade>)
    requires Descending(list)
    ensures Descending(Insert(x, list))
  {
    if list != [] && x < list[0] {
      var rest := Insert(x, list[1..]);
      InsertDescends(x, list[1..]);
      InsertBounded(x, list[1..], list[0]);
      DescendingPush(list[0], rest);
    }
  }

  lemma InsertBounded(x: Grade, list: seq<Grade>, bound: Grade)
    requires x <= bound && forall y :: y in list ==> y <= bound
    ensures forall y :: y in Insert(x, list) ==> y <= bound
  {
    InsertCounts(x, list);
    forall y | y in Insert(x, list) ensures y <= bound {
      assert y in multiset(Insert(x, list));
      if y != x {
        assert multiset(list)[y] == (multiset(list) + multiset{x})[y] > 0;
        assert y in list;
      }
    }
  }

  lemma DescendingPush(x: Grade, list: seq<Grade>)
    requires Descending(list) && forall y :: y in list ==> y <= x
    ensures Descending([x] + list)
  {
    var longer := [x] + list;
    assert forall j :: 1 <= j < |longer| ==> longer[j] == list[j - 1] && longer[j] in list;
  }

  /** `[...ideal].sort((a, b) => b - a)`: the only descending rearrangement. */
  function SortDescending(list: seq<Grade>): (r: seq<Grade>)
    ensures Descending(r) && multiset(r) == multiset(list)
  {
    if list == [] then []
    else
      assert list == list[..|list| - 1] + [list[|list| - 1]];
      InsertCounts(list[|list| - 1], SortDescending(list[..|list| - 1]));
      InsertDescends(list[|list| - 1], SortDescending(list[..|list| - 1]));
      Insert(list[|list| - 1], SortDescending(list[..|list| - 1]))
  }

  function Score(grades: seq<Grade>, ideal: seq<Grade>, k: nat, d: Discount): real {
    var best := Dcg(SortDescending(ideal), k, d);
    if best != 0.0 then Dcg(grades, k, d) / best else 0.0
  }

  /** How `main` grades the result rows: a product without a judgment counts as 0. */
  function Grades(rows: seq<Slug>, judged: map<Slug, Grade>): seq<Grade> {
    seq(|rows|, i requires 0 <= i < |rows| => if rows[i] in judged then judged[rows[i]] else 0)
  }

  /** `Object.values(judged)`, in the enumeration order of the judgments. */
  function Values(order: seq<Slug>, judged: map<Slug, Grade>): seq<Grade>
    requires forall slug :: slug in order ==> slug in judged
  {
    seq(|order|, i requires 0 <= i < |order| => judged[order[i]])
  }

  // ---------- sums position by position ----------

  function At(list: seq<Grade>, i: nat): Grade {
    if i < |list| then list[i] else 0
  }

  function DcgTo(list: seq<Grade>, k: nat, d: Discount): real {
    if k == 0 then 0.0 else DcgTo(list, k - 1, d) + Gain(At(list, k - 1)) * d(k - 1)
  }

  /** The plain gain of the first `k` places. */
  function GainTo(list: seq<Grade>, k: nat): (r: real)
    ensures r >= 0.0
  {
    if k == 0 then 0.0 else GainTo(list, k - 1) + Gain(At(list, k - 1))
  }

  lemma {:induction false} DcgSumPlaces(list: seq<Grade>, whole: seq<Grade>, d: Discount)
    requires list <= whole
    ensures DcgSum(list, d) == DcgTo(whole, |list|, d)
  {
    if list != [] {
      DcgSumPlaces(list[..|list| - 1], whole, d);
    }
  }

  lemma {:induction false} BeyondTheEnd(list: seq<Grade>, k: nat, d: Discount)
    requires k >= |list|
    ensures DcgTo(list, k, d) == DcgTo(list, |list|, d)
  {
    if k > |list| {
      BeyondTheEnd(list, k - 1, d);
      assert Gain(0) == 0.0;
    }
  }

  /** Cutting the list or counting the missing places as 0 is the same. */
  lemma DcgIsPlaceSum(list: seq<Grade>, k: nat, d: Discount)
    ensures Dcg(list, k, d) == DcgTo(list, k, d)
  {
    DcgSumPlaces(Take(list, k), list, d);
    if k >= |list| {
      BeyondTheEnd(list, k, d);
    }
  }

  // ---------- rearrangement ----------

  /** Every prefix of `b`, up to `k` places, gains at least as much as that of `a`. */
  predicate Dominates(a: seq<Grade>, b: seq<Grade>, k: nat) {
    GainTo(a, k) <= GainTo(b, k) && (k > 0 ==> Dominates(a, b, k - 1))
  }

  function Narrowest(k: nat, d: Discount): real {
    if k == 0 then d(0) else d(k - 1)
  }

  /** `lb` leads `la` by at least the gain's lead at discount `w`, and so is no less. */
  predicate Ahead(la: real, lb: real, ga: real, gb: real, w: real) {
    lb - la >= (gb - ga) * w && la <= lb
  }

  /** Summation by parts: a list whose every prefix gains at least as much also has at least the discounted gain. */
  lemma {:induction false} PrefixesDominate(a: seq<Grade>, b: seq<Grade>, k: nat, d: Discount)
    requires Discounting(d) && Dominates(a, b, k)
    ensures Ahead(DcgTo(a, k, d), DcgTo(b, k, d), GainTo(a, k), GainTo(b, k), Narrowest(k, d))
  {
    if k > 0 {
      PrefixesDominate(a, b, k - 1, d);
      NextPlace(a, b, k, d, DcgTo(a, k - 1, d), DcgTo(b, k - 1, d), GainTo(a, k - 1), GainTo(b, k - 1),
                Narrowest(k - 1, d));
    } else {
      NoPlaces(a, b, d);
    }
  }

  lemma NoPlaces(a: seq<Grade>, b: seq<Grade>, d: Discount)
    ensures Ahead(DcgTo(a, 0, d), DcgTo(b, 0, d), GainTo(a, 0), GainTo(b, 0), Narrowest(0, d))
  {
  }

  lemma NextPlace(a: seq<Grade>, b: seq<Grade>, k: nat, d: Discount, la: real, lb: real, ga: real, gb: real,
                  wider: real)
    requires k > 0 && 0.0 < d(k - 1) <= wider && ga <= gb && GainTo(a, k) <= GainTo(b, k)
    requires DcgTo(a, k, d) == la + Gain(At(a, k - 1)) * d(k - 1) && GainTo(a, k) == ga + Gain(At(a, k - 1))
    requires DcgTo(b, k, d) == lb + Gain(At(b, k - 1)) * d(k - 1) && GainTo(b, k) == gb + Gain(At(b, k - 1))
    requires Ahead(la, lb, ga, gb, wider)
    ensures Ahead(DcgTo(a, k, d), DcgTo(b, k, d), GainTo(a, k), GainTo(b, k), Narrowest(k, d))
  {
    NextLead(la, lb, ga, gb, Gain(At(a, k - 1)), Gain(At(b, k - 1)), wider, d(k - 1), DcgTo(a, k, d), DcgTo(b, k, d));
  }

  /** A lead worth its gain at the wider discount stays worth it at the next, narrower one. */
  lemma NextLead(la: real, lb: real, ga: real, gb: real, x: real, y: real, wider: real, next: real, ra: real, rb: real)
    requires Ahead(la, lb, ga, gb, wider) && ga <= gb && ga + x <= gb + y && 0.0 < next <= wider
    requires ra == la + x * next && rb == lb + y * next
    ensures Ahead(ra, rb, ga + x, gb + y, next)
  {
    NonNegative(gb - ga, wider - next);
    assert (gb - ga) * (wider - next) == (gb - ga) * wider - (gb - ga) * next;
    assert ((gb + y) - (ga + x)) * next == (gb - ga) * next + y * next - x * next;
    NonNegative((gb + y) - (ga + x), next);
  }

  lemma NonNegative(x: real, y: real)
    requires x >= 0.0 && y >= 0.0
    ensures x * y >= 0.0
  {
  }

  function GainSum(list: seq<Grade>): real {
    if list == [] then 0.0 else Gain(list[0]) + GainSum(list[1..])
  }

  lemma {:induction false} GainSumRemove(list: seq<Grade>, i: nat)
    requires i < |list|
    ensures GainSum(list) == Gain(list[i]) + GainSum(list[..i] + list[i + 1..])
  {
    var rest := list[..i] + list[i + 1..];
    if i == 0 {
      assert rest == list[1..];
    } else {
      GainSumRemove(list[1..], i - 1);
      assert rest[0] == list[0] && rest[1..] == list[1..][..i - 1] + list[1..][i..];
    }
  }

  lemma OneGradeLess(list: seq<Grade>, i: nat)
    requires i < |list|
    ensures multiset(list) == multiset(list[..i] + list[i + 1..]) + multiset{list[i]}
  {
    assert list == list[..i] + [list[i]] + list[i + 1..];
  }

  lemma {:induction false} GainMonotone(a: Grade, b: Grade)
    requires a <= b
    ensures Gain(a) <= Gain(b)
    decreases b - a
  {
    if a < b {
      GainMonotone(a, b - 1);
      assert Pow2(b) == 2 * Pow2(b - 1);
    }
  }

  lemma {:induction false} DropFirst(s: seq<Grade>, j: nat)
    requires Descending(s) && s != []
    ensures GainTo(s, j + 1) == Gain(s[0]) + GainTo(s[1..], j)
    ensures GainTo(s[1..], j) <= GainTo(s, j)
  {
    if j > 0 {
      DropFirst(s, j - 1);
      assert At(s[1..], j - 1) == At(s, j);
      GainMonotone(At(s, j), At(s, j - 1));
    }
  }

  /** No choice of at most `j` of a descending list's grades gains more than its first `j`. */
  lemma {:induction false} TopGain(q: seq<Grade>, s: seq<Grade>, j: nat)
    requires Descending(s) && multiset(q) <= multiset(s) && |q| <= j
    ensures GainSum(q) <= GainTo(s, j)
    decreases |s|
  {
    if q != [] {
      assert s != [] by { assert q[0] in multiset(q) && q[0] in multiset(s); }
      if s[0] in q {
        var i :| 0 <= i < |q| && q[i] == s[0];
        TopGainTaken(q, s, i);
        TopGain(q[..i] + q[i + 1..], s[1..], j - 1);
        DropFirst(s, j - 1);
      } else {
        TopGainLeft(q, s);
        TopGain(q, s[1..], j);
        DropFirst(s, j);
      }
    }
  }

  lemma TopGainTaken(q: seq<Grade>, s: seq<Grade>, i: nat)
    requires s != [] && i < |q| && q[i] == s[0] && multiset(q) <= multiset(s)
    ensures multiset(q[..i] + q[i + 1..]) <= multiset(s[1..]) && |q[..i] + q[i + 1..]| == |q| - 1
    ensures GainSum(q) == Gain(s[0]) + GainSum(q[..i] + q[i + 1..])
  {
    GainSumRemove(q, i);
    OneGradeLess(q, i);
    assert s == [s[0]] + s[1..];
    CancelOne(multiset(q[..i] + q[i + 1..]), multiset(s[1..]), s[0]);
  }

  lemma TopGainLeft(q: seq<Grade>, s: seq<Grade>)
    requires s != [] && s[0] !in q && multiset(q) <= multiset(s)
    ensures multiset(q) <= multiset(s[1..])
  {
    assert s == [s[0]] + s[1..];
    assert multiset(q)[s[0]] == 0;
  }

  // ---------- what the result rows can gain ----------

  /** The judged rows among the first ones. */
  function JudgedRows(rows: seq<Slug>, judged: map<Slug, Grade>): seq<Slug> {
    if rows == [] then []
    else
      var rest := JudgedRows(rows[..|rows| - 1], judged);
      if rows[|rows| - 1] in judged then rest + [rows[|rows| - 1]] else rest
  }

  lemma {:induction false} JudgedRowsMembers(rows: seq<Slug>, judged: map<Slug, Grade>)
    requires Distinct(rows)
    ensures var q := JudgedRows(rows, judged);
            |q| <= |rows| && Distinct(q) && forall slug :: slug in q <==> slug in rows && slug in judged
  {
    if rows != [] {
      assert rows == rows[..|rows| - 1] + [rows[|rows| - 1]];
      JudgedRowsMembers(rows[..|rows| - 1], judged);
    }
  }

  lemma {:induction false} JudgedRowsFacts(rows: seq<Slug>, judged: map<Slug, Grade>)
    requires Distinct(rows)
    ensures var q := JudgedRows(rows, judged);
            && |q| <= |rows| && Distinct(q) && (forall slug :: slug in q <==> slug in rows && slug in judged)
            && GainTo(Grades(rows, judged), |rows|) == GainSum(Values(q, judged))
  {
    JudgedRowsMembers(rows, judged);
    if rows != [] {
      var front, last := rows[..|rows| - 1], rows[|rows| - 1];
      JudgedRowsFacts(front, judged);
      JudgedRowsMembers(front, judged);
      assert rows == front + [last];
      RowPlace(front, last, judged);
      if last in judged {
        RowJudged(last, judged, JudgedRows(front, judged));
      } else {
        assert RowGain(last, judged) == 0.0;
      }
    }
  }

  /** What a row gains: its judgment, or nothing without one. */
  function RowGain(row: Slug, judged: map<Slug, Grade>): real {
    Gain(if row in judged then judged[row] else 0)
  }

  /** What one more row gains at its place. */
  lemma RowPlace(front: seq<Slug>, last: Slug, judged: map<Slug, Grade>)
    ensures GainTo(Grades(front + [last], judged), |front| + 1)
         == GainTo(Grades(front, judged), |front|) + RowGain(last, judged)
  {
    SamePlaces(Grades(front, judged), Grades(front + [last], judged), |front|);
    assert At(Grades(front + [last], judged), |front|) == if last in judged then judged[last] else 0;
  }

  /** What it adds to the judged rows. */
  lemma RowJudged(last: Slug, judged: map<Slug, Grade>, q: seq<Slug>)
    requires (forall slug :: slug in q ==> slug in judged) && last in judged
    ensures forall slug :: slug in q + [last] ==> slug in judged
    ensures GainSum(Values(q + [last], judged)) == GainSum(Values(q, judged)) + RowGain(last, judged)
  {
    assert Values(q + [last], judged) == Values(q, judged) + [judged[last]];
    GainSumPush(Values(q, judged), judged[last]);
  }

  lemma {:induction false} SamePlaces(a: seq<Grade>, b: seq<Grade>, n: nat)
    requires forall i: nat :: i < n ==> At(a, i) == At(b, i)
    ensures GainTo(a, n) == GainTo(b, n)
  {
    if n > 0 {
      SamePlaces(a, b, n - 1);
    }
  }

  lemma {:induction false} GainSumPush(list: seq<Grade>, x: Grade)
    ensures GainSum(list + [x]) == GainSum(list) + Gain(x)
  {
    if list == [] {
      assert [] + [x] == [x];
    } else {
      assert (list + [x])[1..] == list[1..] + [x];
      GainSumPush(list[1..], x);
    }
  }

  /** Distinct slugs draw distinct judgments. */
  lemma {:induction false} DistinctDraw(q: seq<Slug>, order: seq<Slug>, judged: map<Slug, Grade>)
    requires Distinct(q) && Distinct(order)
    requires (forall slug :: slug in order ==> slug in judged) && (forall slug :: slug in q ==> slug in order)
    ensures multiset(Values(q, judged)) <= multiset(Values(order, judged))
    decreases |q|
  {
    if q != [] {
      var front, last := q[..|q| - 1], q[|q| - 1];
      assert q == front + [last];
      assert last in q && last in order;
      var i :| 0 <= i < |order| && order[i] == last;
      var rest := order[..i] + order[i + 1..];
      OneLess(order, i);
      assert forall slug :: slug in front ==> slug in q && slug != last;
      DistinctDraw(front, rest, judged);
      assert Values(q, judged) == Values(front, judged) + [judged[last]];
      ValuesWithout(order, judged, i);
      OneGradeLess(Values(order, judged), i);
    }
  }

  lemma OneLess(order: seq<Slug>, i: nat)
    requires Distinct(order) && i < |order|
    ensures var rest := order[..i] + order[i + 1..];
            Distinct(rest) && forall slug :: slug in rest <==> slug in order && slug != order[i]
  {
    var rest := order[..i] + order[i + 1..];
    forall slug | slug in order && slug != order[i] ensures slug in rest {
      var j :| 0 <= j < |order| && order[j] == slug;
      assert rest[if j < i then j else j - 1] == slug;
    }
  }

  lemma ValuesWithout(order: seq<Slug>, judged: map<Slug, Grade>, i: nat)
    requires i < |order| && forall slug :: slug in order ==> slug in judged
    ensures var rest := order[..i] + order[i + 1..];
            && (forall slug :: slug in rest ==> slug in judged)
            && Values(rest, judged) == Values(order, judged)[..i] + Values(order, judged)[i + 1..]
  {
    assert forall slug :: slug in order[..i] + order[i + 1..] ==> slug in order;
  }

  /** The gain of the first places, as the gain of the judged slugs among them. */
  lemma RowsGainAsChoice(rows: seq<Slug>, judged: map<Slug, Grade>, j: nat) returns (q: seq<Slug>)
    requires Distinct(rows)
    ensures |q| <= j && Distinct(q) && forall slug :: slug in q ==> slug in judged
    ensures GainTo(Grades(rows, judged), j) == GainSum(Values(q, judged))
  {
    var cut := if j <= |rows| then rows[..j] else rows;
    q := JudgedRows(cut, judged);
    JudgedRowsFacts(cut, judged);
    SamePlaces(Grades(cut, judged), Grades(rows, judged), |cut|);
    GainBeyond(Grades(rows, judged), |cut|, j);
  }

  /** However the results are ranked, their first places gain no more than the best judgments would. */
  lemma RowsGainAtMost(rows: seq<Slug>, order: seq<Slug>, judged: map<Slug, Grade>, j: nat)
    requires Distinct(rows) && Distinct(order) && forall slug :: slug in order <==> slug in judged
    ensures GainTo(Grades(rows, judged), j) <= GainTo(SortDescending(Values(order, judged)), j)
  {
    var q := RowsGainAsChoice(rows, judged, j);
    DistinctDraw(q, order, judged);
    TopGain(Values(q, judged), SortDescending(Values(order, judged)), j);
  }

  lemma {:induction false} RowsDominated(rows: seq<Slug>, order: seq<Slug>, judged: map<Slug, Grade>, k: nat)
    requires Distinct(rows) && Distinct(order) && forall slug :: slug in order <==> slug in judged
    ensures Dominates(Grades(rows, judged), SortDescending(Values(order, judged)), k)
  {
    RowsGainAtMost(rows, order, judged, k);
    if k > 0 {
      RowsDominated(rows, order, judged, k - 1);
    }
  }

  lemma {:induction false} GainBeyond(list: seq<Grade>, n: nat, j: nat)
    requires n <= j && forall i: nat :: n <= i < j ==> At(list, i) == 0
    ensures GainTo(list, j) == GainTo(list, n)
    decreases j
  {
    if n < j {
      assert Gain(0) == 0.0;
      GainBeyond(list, n, j - 1);
    }
  }

  lemma {:induction false} DcgNonNegative(list: seq<Grade>, k: nat, d: Discount)
    requires Discounting(d)
    ensures DcgTo(list, k, d) >= 0.0
  {
    if k > 0 {
      DcgNonNegative(list, k - 1, d);
      NonNegative(Gain(At(list, k - 1)), d(k - 1));
    }
  }

  // ---------- the score ----------

  /** For rows with distinct slugs and any judgments, the score lies between 0 and 1. */
  lemma ScoreInUnitInterval(rows: seq<Slug>, order: seq<Slug>, judged: map<Slug, Grade>, k: nat, d: Discount)
    requires Discounting(d)
    requires Distinct(rows) && Distinct(order) && forall slug :: slug in order <==> slug in judged
    ensures 0.0 <= Score(Grades(rows, judged), Values(order, judged), k, d) <= 1.0
  {
    var grades, sorted := Grades(rows, judged), SortDescending(Values(order, judged));
    RowsDominated(rows, order, judged, k);
    PrefixesDominate(grades, sorted, k, d);
    DcgIsPlaceSum(grades, k, d);
    DcgIsPlaceSum(sorted, k, d);
    DcgNonNegative(grades, k, d);
    DcgNonNegative(sorted, k, d);
    Ratio(Dcg(grades, k, d), Dcg(sorted, k, d));
  }

  lemma Ratio(x: real, y: real)
    requires 0.0 <= x <= y
    ensures y != 0.0 ==> 0.0 <= x / y <= 1.0
  {
    if y != 0.0 {
      assert (x / y) * y == x;
    }
  }

  /** The score is 1 for the ideal ranking, unless nothing is judged useful within the cut. */
  lemma IdealScoresOne(ideal: seq<Grade>, k: nat, d: Discount)
    requires Discounting(d)
    ensures var sorted := SortDescending(ideal);
            Score(sorted, ideal, k, d) == if k > 0 && ideal != [] && sorted[0] > 0 then 1.0 else 0.0
  {
    var sorted := SortDescending(ideal);
    DcgIsPlaceSum(sorted, k, d);
    assert |sorted| == |multiset(sorted)| == |multiset(ideal)| == |ideal|;
    if k > 0 && ideal != [] && sorted[0] > 0 {
      FirstPlaceCounts(sorted, k, d);
      OneOf(Dcg(sorted, k, d));
    } else {
      AllZero(sorted, k, d);
    }
  }

  lemma OneOf(x: real)
    requires x != 0.0
    ensures x / x == 1.0
  {
  }

  lemma {:induction false} FirstPlaceCounts(list: seq<Grade>, k: nat, d: Discount)
    requires Discounting(d) && k > 0 && list != [] && list[0] > 0
    ensures DcgTo(list, k, d) > 0.0
  {
    if k > 1 {
      FirstPlaceCounts(list, k - 1, d);
      NonNegative(Gain(At(list, k - 1)), d(k - 1));
    } else {
      assert DcgTo(list, 0, d) == 0.0;
      assert Gain(list[0]) * d(0) > 0.0;
    }
  }

  lemma {:induction false} AllZero(list: seq<Grade>, k: nat, d: Discount)
    requires k == 0 || forall i: nat :: At(list, i) == 0
    ensures DcgTo(list, k, d) == 0.0
  {
    if k > 0 {
      assert Gain(0) == 0.0;
      AllZero(list, k - 1, d);
    }
  }

  lemma {:induction false} GainAfterUpdate(list: seq<Grade>, i: nat, x: Grade, k: nat)
    requires i < |list|
    ensures GainTo(list[i := x], k) == GainTo(list, k) + if i < k then Gain(x) - Gain(list[i]) else 0.0
  {
    if k > 0 {
      GainAfterUpdate(list, i, x, k - 1);
    }
  }

  lemma {:induction false} BetterDominates(grades: seq<Grade>, k: nat, i: nat, j: nat)
    requires i < j < |grades| && grades[i] <= grades[j]
    ensures Dominates(grades, grades[i := grades[j]][j := grades[i]], k)
  {
    GainMonotone(grades[i], grades[j]);
    GainAfterUpdate(grades, i, grades[j], k);
    GainAfterUpdate(grades[i := grades[j]], j, grades[i], k);
    if k > 0 {
      BetterDominates(grades, k - 1, i, j);
    }
  }

  /** Exchanging two results so that the better judged one stands higher never lowers the score. */
  lemma MovingUpNeverHurts(grades: seq<Grade>, ideal: seq<Grade>, k: nat, d: Discount, i: nat, j: nat)
    requires Discounting(d) && i < j < |grades| && grades[i] <= grades[j]
    ensures Score(grades[i := grades[j]][j := grades[i]], ideal, k, d) >= Score(grades, ideal, k, d)
  {
    var better := grades[i := grades[j]][j := grades[i]];
    BetterDominates(grades, k, i, j);
    PrefixesDominate(grades, better, k, d);
    DcgIsPlaceSum(grades, k, d);
    DcgIsPlaceSum(better, k, d);
    var sorted := SortDescending(ideal);
    DcgIsPlaceSum(sorted, k, d);
    DcgNonNegative(sorted, k, d);
    if Dcg(sorted, k, d) != 0.0 {
      Divided(Dcg(grades, k, d), Dcg(better, k, d), Dcg(sorted, k, d));
    }
  }

  lemma Divided(x: real, y: real, z: real)
    requires x <= y && z > 0.0
    ensures x / z <= y / z
  {
    assert y / z - x / z == (y - x) / z;
    assert ((y - x) / z) * z == y - x;
  }

  /** Each grade is worth one more than twice the grade below it. */
  lemma GainDoubles(grade: Grade)
    ensures Gain(0) == 0.0 && Gain(grade + 1) == 2.0 * Gain(grade) + 1.0
  {
  }

  /** The discount of a place within the cut, and nothing beyond it. */
  function Weight(i: nat, k: nat, d: Discount): real {
    if i < k then d(i) else 0.0
  }

  /** What a grade contributes at a place. */
  function Worth(grade: Grade, i: nat, k: nat, d: Discount): real {
    if i < k then Gain(grade) * d(i) else 0.0
  }

  lemma WorthIsWeighted(grade: Grade, i: nat, k: nat, d: Discount)
    ensures Worth(grade, i, k, d) == Gain(grade) * Weight(i, k, d)
  {
  }

  lemma {:induction false} DcgAfterUpdate(list: seq<Grade>, i: nat, x: Grade, k: nat, d: Discount)
    requires i < |list|
    ensures DcgTo(list[i := x], k, d) == DcgTo(list, k, d) - Worth(list[i], i, k, d) + Worth(x, i, k, d)
  {
    if k > 0 {
      DcgAfterUpdate(list, i, x, k - 1, d);
      LastPlace(list, k, d);
      LastPlace(list[i := x], k, d);
      if k - 1 != i {
        assert At(list[i := x], k - 1) == At(list, k - 1);
      }
    }
  }

  lemma LastPlace(list: seq<Grade>, k: nat, d: Discount)
    requires k > 0
    ensures DcgTo(list, k, d) == DcgTo(list, k - 1, d) + Worth(At(list, k - 1), k - 1, k, d)
  {
  }

  /** Exchanging two results changes the gain by what the two contribute at their places. */
  lemma ExchangeGains(grades: seq<Grade>, k: nat, d: Discount, i: nat, j: nat)
    requires i < j < |grades|
    ensures Dcg(grades[i := grades[j]][j := grades[i]], k, d)
         == Dcg(grades, k, d) - Worth(grades[i], i, k, d) - Worth(grades[j], j, k, d)
            + Worth(grades[j], i, k, d) + Worth(grades[i], j, k, d)
  {
    DcgIsPlaceSum(grades, k, d);
    DcgIsPlaceSum(grades[i := grades[j]][j := grades[i]], k, d);
    DcgAfterUpdate(grades, i, grades[j], k, d);
    DcgAfterUpdate(grades[i := grades[j]], j, grades[i], k, d);
  }

  lemma {:induction false} GainGrows(a: Grade, b: Grade)
    requires a < b
    ensures Gain(a) < Gain(b)
    decreases b - a
  {
    GainDoubles(b - 1);
    GainMonotone(a, b - 1);
  }

  /**
   * Exchanging two results raises the score if and only if something useful is judged, the upper place counts, the
   * lower result is the better one, and the lower place counts for less.
   */
  lemma MovingUpHelpsIff(grades: seq<Grade>, ideal: seq<Grade>, k: nat, d: Discount, i: nat, j: nat)
    requires Discounting(d) && i < j < |grades|
    ensures Score(grades[i := grades[j]][j := grades[i]], ideal, k, d) > Score(grades, ideal, k, d) <==>
            Dcg(SortDescending(ideal), k, d) != 0.0 && i < k && grades[i] < grades[j] && (j < k ==> d(j) < d(i))
  {
    ExchangeGains(grades, k, d, i, j);
    WorthGrows(grades[i], grades[j], i, j, k, d);
    DcgIsPlaceSum(SortDescending(ideal), k, d);
    DcgNonNegative(SortDescending(ideal), k, d);
    ScoreGrows(grades, grades[i := grades[j]][j := grades[i]], ideal, k, d);
  }

  lemma ScoreGrows(worse: seq<Grade>, better: seq<Grade>, ideal: seq<Grade>, k: nat, d: Discount)
    requires Dcg(SortDescending(ideal), k, d) >= 0.0
    ensures Score(better, ideal, k, d) > Score(worse, ideal, k, d) <==>
            Dcg(SortDescending(ideal), k, d) != 0.0 && Dcg(better, k, d) > Dcg(worse, k, d)
  {
    if Dcg(SortDescending(ideal), k, d) != 0.0 {
      QuotientGrows(Dcg(worse, k, d), Dcg(better, k, d), Dcg(SortDescending(ideal), k, d));
    }
  }

  lemma WorthGrows(x: Grade, y: Grade, i: nat, j: nat, k: nat, d: Discount)
    requires Discounting(d) && i < j
    ensures Worth(y, i, k, d) + Worth(x, j, k, d) > Worth(x, i, k, d) + Worth(y, j, k, d) <==>
            i < k && x < y && (j < k ==> d(j) < d(i))
  {
    GainDiffers(x, y);
    WeightDiffers(i, j, k, d);
    WorthIsWeighted(x, i, k, d);
    WorthIsWeighted(y, i, k, d);
    WorthIsWeighted(x, j, k, d);
    WorthIsWeighted(y, j, k, d);
    Rearranged(Gain(x), Gain(y), Weight(i, k, d), Weight(j, k, d));
  }

  lemma WeightDiffers(i: nat, j: nat, k: nat, d: Discount)
    requires Discounting(d) && i < j
    ensures Weight(j, k, d) <= Weight(i, k, d)
    ensures Weight(j, k, d) < Weight(i, k, d) <==> i < k && (j < k ==> d(j) < d(i))
  {
  }

  lemma Rearranged(x: real, y: real, a: real, b: real)
    requires b <= a
    ensures y * a + x * b > x * a + y * b <==> x < y && b < a
  {
    var more, nearer := y - x, a - b;
    Exchanged(x, y, a, b, more, nearer);
    ProductPositive(more, nearer);
  }

  lemma Exchanged(x: real, y: real, a: real, b: real, more: real, nearer: real)
    requires more == y - x && nearer == a - b
    ensures y * a + x * b == x * a + y * b + more * nearer
  {
  }

  lemma GainDiffers(a: Grade, b: Grade)
    ensures Gain(a) < Gain(b) <==> a < b
  {
    if a < b {
      GainGrows(a, b);
    } else {
      GainMonotone(b, a);
    }
  }

  lemma ProductPositive(x: real, y: real)
    requires y >= 0.0
    ensures x * y > 0.0 <==> x > 0.0 && y > 0.0
  {
    if x <= 0.0 {
      NonNegative(-x, y);
      assert (-x) * y == -(x * y);
    }
  }

  lemma QuotientGrows(x: real, y: real, z: real)
    requires z > 0.0
    ensures y / z > x / z <==> y > x
  {
    if y > x {
      MoreThanOneStep(x, y, z);
    } else {
      Divided(y, x, z);
    }
  }

  lemma MoreThanOneStep(x: real, y: real, z: real)
    requires z > 0.0 && y > x
    ensures y / z > x / z
  {
    assert (y / z) * z == y && (x / z) * z == x;
    assert (y / z - x / z) * z == y - x;
  }

  // ---------- repeated rows ----------

  /** The rows that count. */
  function Cut(rows: seq<Slug>, k: nat): seq<Slug> {
    if |rows| <= k then rows else rows[..k]
  }

  ghost predicate NeverAboveOne(rows: seq<Slug>, k: nat, d: Discount) {
    forall order, judged: map<Slug, Grade> :: Lists(order, judged.Keys) ==>
      Score(Grades(rows, judged), JudgedValues(order, judged), k, d) <= 1.0
  }

  function JudgedValues(order: seq<Slug>, judged: map<Slug, Grade>): (values: seq<Grade>)
    requires Lists(order, judged.Keys)
  {
    assert forall slug :: slug in order ==> slug in ToSet(order);
    Values(order, judged)
  }

  /** No judgments push the score above 1 if and only if no product is repeated within the cut. */
  lemma NeverAboveOneIff(rows: seq<Slug>, k: nat, d: Discount)
    requires Discounting(d)
    ensures NeverAboveOne(rows, k, d) <==> Distinct(Cut(rows, k))
  {
    if Distinct(Cut(rows, k)) {
      forall order, judged: map<Slug, Grade> | Lists(order, judged.Keys)
        ensures Score(Grades(rows, judged), JudgedValues(order, judged), k, d) <= 1.0
      {
        assert forall slug :: slug in order <==> slug in ToSet(order);
        CutScores(rows, judged, JudgedValues(order, judged), k, d);
        ScoreInUnitInterval(Cut(rows, k), order, judged, k, d);
      }
    } else {
      var order := Dedup(Cut(rows, k));
      var judged := AllUseful(order);
      RepeatExceedsOne(rows, k, d);
      assert Lists(order, judged.Keys);
      assert JudgedValues(order, judged) == Values(order, judged);
    }
  }

  lemma CutScores(rows: seq<Slug>, judged: map<Slug, Grade>, ideal: seq<Grade>, k: nat, d: Discount)
    ensures Score(Grades(rows, judged), ideal, k, d) == Score(Grades(Cut(rows, k), judged), ideal, k, d)
  {
    assert Take(Grades(rows, judged), k) == Take(Grades(Cut(rows, k), judged), k);
  }

  /** Every listed product is judged 1. */
  function AllUseful(order: seq<Slug>): map<Slug, Grade> {
    map slug | slug in order :: 1
  }

  function Ones(n: nat): seq<Grade> {
    seq(n, i => 1)
  }

  /** When all that is listed is judged 1, a repeated product takes more places than the ideal list has. */
  lemma RepeatExceedsOne(rows: seq<Slug>, k: nat, d: Discount)
    requires Discounting(d) && !Distinct(Cut(rows, k))
    ensures var order := Dedup(Cut(rows, k));
            Score(Grades(rows, AllUseful(order)), Values(order, AllUseful(order)), k, d) > 1.0
  {
    var cut := Cut(rows, k);
    var order := Dedup(cut);
    var judged := AllUseful(order);
    DedupShortens(cut);
    CutScores(rows, judged, Values(order, judged), k, d);
    assert Grades(cut, judged) == Ones(|cut|);
    assert Values(order, judged) == Ones(|order|);
    assert cut[0] in order;
    OnesScore(|cut|, |order|, k, d);
  }

  lemma OnesScore(n: nat, m: nat, k: nat, d: Discount)
    requires Discounting(d) && 0 < m < n <= k
    ensures Score(Ones(n), Ones(m), k, d) > 1.0
  {
    SortOnes(m);
    FirstPlaceCounts(Ones(m), k, d);
    MoreOnesGainMore(n, m, k, d);
    DcgIsPlaceSum(Ones(n), k, d);
    DcgIsPlaceSum(Ones(m), k, d);
    MoreThanOne(Dcg(Ones(n), k, d), Dcg(Ones(m), k, d));
  }

  lemma {:induction false} DedupShortens(rows: seq<Slug>)
    ensures |Dedup(rows)| <= |rows|
    ensures !Distinct(rows) ==> |Dedup(rows)| < |rows|
  {
    if rows != [] {
      var front, last := rows[..|rows| - 1], rows[|rows| - 1];
      DedupShortens(front);
      DedupPush(front, last);
      assert rows == front + [last];
    }
  }

  lemma SortOnes(n: nat)
    ensures SortDescending(Ones(n)) == Ones(n)
  {
    var sorted := SortDescending(Ones(n));
    assert |sorted| == |multiset(sorted)| == |multiset(Ones(n))| == n;
    forall i: nat | i < n ensures sorted[i] == 1 {
      assert sorted[i] in multiset(sorted) && sorted[i] in multiset(Ones(n));
    }
  }

  lemma {:induction false} MoreOnesGainMore(n: nat, m: nat, k: nat, d: Discount)
    requires Discounting(d) && m <= n
    ensures DcgTo(Ones(n), k, d) >= DcgTo(Ones(m), k, d)
    ensures m < n && m < k ==> DcgTo(Ones(n), k, d) > DcgTo(Ones(m), k, d)
  {
    if k > 0 {
      MoreOnesGainMore(n, m, k - 1, d);
      OnesGain(n, k - 1);
      OnesGain(m, k - 1);
    }
  }

  lemma OnesGain(n: nat, i: nat)
    ensures Gain(At(Ones(n), i)) == if i < n then 1.0 else 0.0
  {
    assert Pow2(1) == 2 * Pow2(0);
  }

  lemma MoreThanOne(x: real, y: real)
    requires x > y > 0.0
    ensures x / y > 1.0
  {
    var ratio := x / y;
    assert ratio * y == x;
    assert (ratio - 1.0) * y == x - y;
  }

  /** For example a product listed twice, and judged 1 alone. */
  lemma RepeatedRowsExceedOne(slug: Slug, d: Discount)
    requires Discounting(d)
    ensures Score(Grades([slug, slug], map[slug := 1]), Values([slug], map[slug := 1]), 2, d) > 1.0
  {
    var rows := [slug, slug];
    assert rows[0] == rows[1];
    DedupPush([slug], slug);
    DedupDistinct([slug]);
    assert [slug] + [slug] == rows;
    assert AllUseful([slug]) == map[slug := 1];
    RepeatExceedsOne(rows, 2, d);
  }
}
