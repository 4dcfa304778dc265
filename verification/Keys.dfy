/** The order of a query that sorts by a time and then by an id. */
module Keys {
  import opened Entities

  predicate IdLess(a: string, b: string) {
    b != [] && (a == [] || a[0] < b[0] || (a[0] == b[0] && IdLess(a[1..], b[1..])))
  }

  predicate KeyLess(t: Time, a: string, u: Time, b: string) {
    t < u || (t == u && IdLess(a, b))
  }

  lemma {:induction false} IdLessIsAsymmetric(a: string, b: string)
    ensures !(IdLess(a, b) && IdLess(b, a))
    decreases |a|
  {
    if a != [] && b != [] {
      IdLessIsAsymmetric(a[1..], b[1..]);
    }
  }

  lemma {:induction false} IdLessIsTransitive(a: string, b: string, c: string)
    requires IdLess(a, b) && IdLess(b, c)
    ensures IdLess(a, c)
    decreases |a|
  {
    if a != [] && a[0] == b[0] == c[0] {
      IdLessIsTransitive(a[1..], b[1..], c[1..]);
    }
  }

  lemma {:induction false} NotLessIsTransitive(a: string, b: string, c: string)
    requires !IdLess(b, a) && !IdLess(c, b)
    ensures !IdLess(c, a)
    decreases |a|
  {
    if a != [] && b != [] && c != [] && a[0] == b[0] == c[0] {
      NotLessIsTransitive(a[1..], b[1..], c[1..]);
    }
  }
}
