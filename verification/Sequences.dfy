/** Lists as the browser code uses them: filters by membership, `[...new Set(xs)]`, `reverse`, `slice(-n)`. */
module Sequences {
  function ToSet<T>(xs: seq<T>): set<T> {
    set x | x in xs
  }

  predicate Distinct<T(==)>(xs: seq<T>) {
    forall i, j :: 0 <= i < j < |xs| ==> xs[i] != xs[j]
  }

  /** `xs` enumerates `s`, each element once: one of the orders in which a record's keys can come. */
  predicate Lists<T(==)>(xs: seq<T>, s: set<T>) {
    Distinct(xs) && ToSet(xs) == s
  }

  /** `xs.filter(x => x in keep)`: the order of `xs`, repetitions included. */
  function Select<T(==,!new)>(xs: seq<T>, keep: set<T>): (ys: seq<T>)
    ensures forall x :: x in ys <==> x in xs && x in keep
  {
    if xs == [] then []
    else
      var rest := Select(xs[..|xs| - 1], keep);
      assert xs == xs[..|xs| - 1] + [xs[|xs| - 1]];
      if xs[|xs| - 1] in keep then rest + [xs[|xs| - 1]] else rest
  }

  /** `[...new Set(xs)]`: the first occurrence of every element, in order. */
  function Dedup<T(==,!new)>(xs: seq<T>): (ys: seq<T>)
    ensures forall x :: x in ys <==> x in xs
    ensures Distinct(ys)
  {
    if xs == [] then []
    else
      var rest := Dedup(xs[..|xs| - 1]);
      assert xs == xs[..|xs| - 1] + [xs[|xs| - 1]];
      if xs[|xs| - 1] in rest then rest else rest + [xs[|xs| - 1]]
  }

  function Reverse<T>(xs: seq<T>): (ys: seq<T>)
    ensures |ys| == |xs|
    ensures forall i :: 0 <= i < |xs| ==> ys[i] == xs[|xs| - 1 - i]
  {
    if xs == [] then [] else Reverse(xs[1..]) + [xs[0]]
  }

  /** `xs.slice(-n)` for a positive `n`. */
  function LastN<T>(xs: seq<T>, n: nat): seq<T> {
    if |xs| <= n then xs else xs[|xs| - n..]
  }

  /** `xs.filter(item => item !== x)`. */
  function Without<T(==,!new)>(xs: seq<T>, x: T): (ys: seq<T>)
    ensures forall y :: y in ys <==> y in xs && y != x
  {
    Select(xs, ToSet(xs) - {x})
  }

  lemma SameMembers<T(!new)>(xs: seq<T>, ys: seq<T>)
    requires ToSet(xs) == ToSet(ys)
    ensures forall x :: x in xs <==> x in ys
  {
    forall x ensures x in xs <==> x in ys {
      assert x in xs <==> x in ToSet(xs);
      assert x in ys <==> x in ToSet(ys);
    }
  }

  lemma ReverseMembers<T(!new)>(xs: seq<T>)
    ensures ToSet(Reverse(xs)) == ToSet(xs)
  {
    forall x | x in xs ensures x in Reverse(xs) {
      var i :| 0 <= i < |xs| && xs[i] == x;
      assert Reverse(xs)[|xs| - 1 - i] == x;
    }
  }

  lemma {:induction false} SelectAll<T(!new)>(xs: seq<T>, keep: set<T>)
    requires ToSet(xs) <= keep
    ensures Select(xs, keep) == xs
  {
    if xs != [] {
      var front, last := xs[..|xs| - 1], xs[|xs| - 1];
      assert xs == front + [last];
      assert ToSet(front) <= ToSet(xs);
      assert last in ToSet(xs);
      SelectAll(front, keep);
    }
  }

  lemma {:induction false} SelectNone<T(!new)>(xs: seq<T>, keep: set<T>)
    requires ToSet(xs) !! keep
    ensures Select(xs, keep) == []
  {
    if xs != [] {
      var front, last := xs[..|xs| - 1], xs[|xs| - 1];
      assert last in ToSet(xs);
      assert ToSet(front) <= ToSet(xs);
      SelectNone(front, keep);
    }
  }

  /** Only the members that `xs` has matter to the filter. */
  lemma {:induction false} SelectSame<T(!new)>(xs: seq<T>, a: set<T>, b: set<T>)
    requires ToSet(xs) * a == ToSet(xs) * b
    ensures Select(xs, a) == Select(xs, b)
  {
    if xs != [] {
      var front, last := xs[..|xs| - 1], xs[|xs| - 1];
      assert xs == front + [last];
      forall x ensures x in ToSet(front) * a <==> x in ToSet(front) * b {
        if x in ToSet(front) {
          assert x in ToSet(xs);
          assert x in ToSet(xs) * a <==> x in ToSet(xs) * b;
        }
      }
      assert last in ToSet(xs);
      assert last in ToSet(xs) * a <==> last in ToSet(xs) * b;
      SelectSame(front, a, b);
    }
  }

  lemma {:induction false} SelectSelect<T(!new)>(xs: seq<T>, a: set<T>, b: set<T>)
    ensures Select(Select(xs, a), b) == Select(xs, a * b)
  {
    if xs != [] {
      var front, last := xs[..|xs| - 1], xs[|xs| - 1];
      SelectSelect(front, a, b);
      if last in a {
        assert Select(xs, a)[..|Select(xs, a)| - 1] == Select(front, a);
      }
    }
  }

  lemma {:induction false} SelectConcat<T(!new)>(xs: seq<T>, ys: seq<T>, keep: set<T>)
    ensures Select(xs + ys, keep) == Select(xs, keep) + Select(ys, keep)
  {
    if ys == [] {
      assert xs + ys == xs;
    } else {
      var front := ys[..|ys| - 1];
      assert (xs + ys)[..|xs + ys| - 1] == xs + front;
      SelectConcat(xs, front, keep);
    }
  }

  lemma {:induction false} SelectDistinct<T(!new)>(xs: seq<T>, keep: set<T>)
    requires Distinct(xs)
    ensures Distinct(Select(xs, keep))
  {
    if xs != [] {
      var front, last := xs[..|xs| - 1], xs[|xs| - 1];
      SelectDistinct(front, keep);
      assert last !in front;
    }
  }

  lemma {:induction false} DedupDistinct<T(!new)>(xs: seq<T>)
    requires Distinct(xs)
    ensures Dedup(xs) == xs
  {
    if xs != [] {
      var front, last := xs[..|xs| - 1], xs[|xs| - 1];
      assert xs == front + [last];
      DedupDistinct(front);
    }
  }

  lemma DedupPush<T(!new)>(xs: seq<T>, x: T)
    ensures Dedup(xs + [x]) == if x in xs then Dedup(xs) else Dedup(xs) + [x]
  {
    assert (xs + [x])[..|xs|] == xs;
  }

  /** The elements of `ys` that `xs` does not have, in the order of `ys`. */
  function NotIn<T(==)>(ys: seq<T>, xs: seq<T>): seq<T> {
    if ys == [] then []
    else if ys[|ys| - 1] in xs then NotIn(ys[..|ys| - 1], xs)
    else NotIn(ys[..|ys| - 1], xs) + [ys[|ys| - 1]]
  }

  lemma NotInPush<T(!new)>(ys: seq<T>, y: T, xs: seq<T>)
    ensures NotIn(ys + [y], xs) == if y in xs then NotIn(ys, xs) else NotIn(ys, xs) + [y]
  {
    assert (ys + [y])[..|ys|] == ys;
  }

  lemma DedupConcatPush<T(!new)>(xs: seq<T>, front: seq<T>, last: T)
    requires Dedup(xs + front) == Dedup(xs) + NotIn(Dedup(front), xs)
    ensures Dedup(xs + front + [last]) == Dedup(xs) + NotIn(Dedup(front + [last]), xs)
  {
    DedupPush(xs + front, last);
    DedupPush(front, last);
    if last !in xs && last !in front {
      NotInPush(Dedup(front), last, xs);
      Regroup(Dedup(xs), NotIn(Dedup(front), xs), [last]);
    } else if last !in front {
      NotInPush(Dedup(front), last, xs);
    }
  }

  lemma Regroup<T>(a: seq<T>, b: seq<T>, c: seq<T>)
    ensures a + b + c == a + (b + c)
  {
  }

  /** What a second list adds to a set are its own new members, in its own order. */
  lemma {:induction false} DedupConcat<T(!new)>(xs: seq<T>, ys: seq<T>)
    ensures Dedup(xs + ys) == Dedup(xs) + NotIn(Dedup(ys), xs)
  {
    if ys == [] {
      assert xs + ys == xs;
    } else {
      var front, last := ys[..|ys| - 1], ys[|ys| - 1];
      assert ys == front + [last];
      Regroup(xs, front, [last]);
      DedupConcat(xs, front);
      DedupConcatPush(xs, front, last);
    }
  }

  lemma {:induction false} NotInNone<T(!new)>(ys: seq<T>, xs: seq<T>)
    requires forall y :: y in ys ==> y in xs
    ensures NotIn(ys, xs) == []
  {
    if ys != [] {
      NotInNone(ys[..|ys| - 1], xs);
    }
  }

  lemma {:induction false} NotInMembers<T(!new)>(ys: seq<T>, xs: seq<T>)
    ensures forall y :: y in NotIn(ys, xs) <==> y in ys && y !in xs
    ensures |NotIn(ys, xs)| <= |ys|
    ensures Distinct(ys) ==> Distinct(NotIn(ys, xs))
  {
    if ys != [] {
      var front, last := ys[..|ys| - 1], ys[|ys| - 1];
      assert ys == front + [last];
      NotInMembers(front, xs);
    }
  }

  lemma {:induction false} NotInConcat<T(!new)>(a: seq<T>, b: seq<T>, xs: seq<T>)
    ensures NotIn(a + b, xs) == NotIn(a, xs) + NotIn(b, xs)
  {
    if b == [] {
      assert a + b == a;
    } else {
      assert (a + b)[..|a + b| - 1] == a + b[..|b| - 1];
      NotInConcat(a, b[..|b| - 1], xs);
    }
  }

  lemma {:induction false} NotInAll<T(!new)>(ys: seq<T>, xs: seq<T>)
    requires forall y :: y in ys ==> y !in xs
    ensures NotIn(ys, xs) == ys
  {
    if ys != [] {
      var front, last := ys[..|ys| - 1], ys[|ys| - 1];
      assert ys == front + [last];
      NotInAll(front, xs);
    }
  }

  /** Adding a list to a set only ever appends, and appends nothing when nothing is new. */
  lemma DedupPrefix<T(!new)>(xs: seq<T>, ys: seq<T>)
    ensures Dedup(xs) <= Dedup(xs + ys)
    ensures (forall y :: y in ys ==> y in xs) ==> Dedup(xs + ys) == Dedup(xs)
  {
    DedupConcat(xs, ys);
    if forall y :: y in ys ==> y in xs {
      NotInNone(Dedup(ys), xs);
    }
  }

  lemma {:induction false} DistinctSize<T(!new)>(xs: seq<T>)
    requires Distinct(xs)
    ensures |ToSet(xs)| == |xs|
  {
    if xs != [] {
      var front, last := xs[..|xs| - 1], xs[|xs| - 1];
      assert xs == front + [last];
      DistinctSize(front);
      assert ToSet(xs) == ToSet(front) + {last};
      assert last !in ToSet(front);
    }
  }
}
