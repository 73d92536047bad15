/** What the other modules share: values that may be absent, product addresses, powers of two, and counts. */
module Basics {
  datatype Option<+T> = None | Some(value: T)

  /** A product's address. It is only ever compared as a whole. */
  datatype Slug = Slug(text: string)

  function Pow2(n: nat): (r: nat)
    ensures r >= 1
  {
    if n == 0 then 1 else 2 * Pow2(n - 1)
  }

  lemma CancelOne<T(!new)>(a: multiset<T>, b: multiset<T>, x: T)
    requires a + multiset{x} <= b + multiset{x}
    ensures a <= b
    ensures a + multiset{x} == b + multiset{x} ==> a == b
  {
    forall y ensures a[y] <= b[y] {
      assert (a + multiset{x})[y] <= (b + multiset{x})[y];
    }
    if a + multiset{x} == b + multiset{x} {
      forall y ensures a[y] == b[y] {
        assert (a + multiset{x})[y] == (b + multiset{x})[y];
      }
    }
  }
}
