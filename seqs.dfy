/** Order-preserving selection from a sequence, the shape every
    `array.filter` in the dashboard and the booking page has. */
module Seqs {

  /** `a` is `b` with some elements left out and the rest kept in order. */
  ghost predicate SubsequenceOf<T>(a: seq<T>, b: seq<T>)
    decreases |b|
  {
    a == [] || (b != [] && ((a[0] == b[0] && SubsequenceOf(a[1..], b[1..])) || SubsequenceOf(a, b[1..])))
  }

  /** Skipping one more element at the end keeps a subsequence. */
  lemma {:induction false} SubsequenceSkipLast<T>(a: seq<T>, b: seq<T>, x: T)
    requires SubsequenceOf(a, b)
    ensures SubsequenceOf(a, b + [x])
    decreases |b|
  {
    if a != [] {
      assert (b + [x])[0] == b[0] && (b + [x])[1..] == b[1..] + [x];
      if a[0] == b[0] && SubsequenceOf(a[1..], b[1..]) {
        SubsequenceSkipLast(a[1..], b[1..], x);
      } else {
        SubsequenceSkipLast(a, b[1..], x);
      }
    }
  }

  /** Keeping one more element at the end of both keeps a subsequence. */
  lemma {:induction false} SubsequenceKeepLast<T>(a: seq<T>, b: seq<T>, x: T)
    requires SubsequenceOf(a, b)
    ensures SubsequenceOf(a + [x], b + [x])
    decreases |b|
  {
    if b == [] {
      assert a == [];
      assert SubsequenceOf<T>([], []);
      assert [x][1..] == [];
    } else {
      assert (b + [x])[0] == b[0] && (b + [x])[1..] == b[1..] + [x];
      if a == [] {
        SubsequenceKeepLast(a, b[1..], x);
        assert a + [x] == [x];
      } else {
        assert (a + [x])[0] == a[0] && (a + [x])[1..] == a[1..] + [x];
        if a[0] == b[0] && SubsequenceOf(a[1..], b[1..]) {
          SubsequenceKeepLast(a[1..], b[1..], x);
        } else {
          SubsequenceKeepLast(a, b[1..], x);
        }
      }
    }
  }
}
