/** Strict total orders, and the order that Python and MongoDB use for strings. */
module Order {

  ghost predicate StrictTotalOrder<T(!new)>(less: (T, T) -> bool) {
    && (forall a :: !less(a, a))
    && (forall a, b, c :: less(a, b) && less(b, c) ==> less(a, c))
    && (forall a, b :: a != b ==> less(a, b) || less(b, a))
  }

  /** Code point by code point; a proper prefix comes first. */
  predicate TextLess(a: string, b: string) {
    b != [] && (a == [] || a[0] < b[0] || (a[0] == b[0] && TextLess(a[1..], b[1..])))
  }

  predicate TextLeq(a: string, b: string) {
    a == b || TextLess(a, b)
  }

  lemma {:induction false} TextIrreflexive(a: string)
    ensures !TextLess(a, a)
  {
    if a != [] { TextIrreflexive(a[1..]); }
  }

  lemma {:induction false} TextTransitive(a: string, b: string, c: string)
    requires TextLess(a, b) && TextLess(b, c)
    ensures TextLess(a, c)
  {
    if a != [] && a[0] == b[0] && b[0] == c[0] {
      TextTransitive(a[1..], b[1..], c[1..]);
    }
  }

  lemma {:induction false} TextConnected(a: string, b: string)
    ensures a == b || TextLess(a, b) || TextLess(b, a)
  {
    if a != [] && b != [] && a[0] == b[0] {
      TextConnected(a[1..], b[1..]);
      assert a == [a[0]] + a[1..] && b == [b[0]] + b[1..];
    }
  }

  lemma TextIsTotal()
    ensures StrictTotalOrder(TextLess)
  {
    forall a: string ensures !TextLess(a, a) { TextIrreflexive(a); }
    forall a: string, b: string, c: string | TextLess(a, b) && TextLess(b, c) ensures TextLess(a, c) {
      TextTransitive(a, b, c);
    }
    forall a: string, b: string | a != b ensures TextLess(a, b) || TextLess(b, a) { TextConnected(a, b); }
  }
}
