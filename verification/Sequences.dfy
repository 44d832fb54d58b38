/** Sequences taken apart from the back. */
module Sequences {
  function Front<T>(s: seq<T>): seq<T>
    requires s != []
  {
    s[..|s| - 1]
  }

  function Last<T>(s: seq<T>): T
    requires s != []
  {
    s[|s| - 1]
  }

  lemma Reassociate<T>(a: seq<T>, b: seq<T>, c: seq<T>)
    ensures (a + b) + c == a + (b + c)
  {
  }

  /** a is what remains of b after leaving elements out. */
  predicate Subsequence<T(==)>(a: seq<T>, b: seq<T>) {
    a == [] || (b != [] && ((Last(a) == Last(b) && Subsequence(Front(a), Front(b))) || Subsequence(a, Front(b))))
  }

  lemma {:induction false} SubsequenceShorter<T>(a: seq<T>, x: T, b: seq<T>)
    requires Subsequence(a + [x], b)
    ensures Subsequence(a, b)
  {
    assert Front(a + [x]) == a;
    if Subsequence(a + [x], Front(b)) {
      SubsequenceShorter(a, x, Front(b));
      SubsequenceSkips(a, Front(b), Last(b));
    } else {
      SubsequenceSkips(a, Front(b), Last(b));
    }
    assert Front(b) + [Last(b)] == b;
  }

  lemma SubsequenceSkips<T>(a: seq<T>, b: seq<T>, x: T)
    requires Subsequence(a, b)
    ensures Subsequence(a, b + [x])
  {
  }

  lemma SubsequenceBoth<T>(a: seq<T>, b: seq<T>, x: T)
    requires Subsequence(a, b)
    ensures Subsequence(a + [x], b + [x])
  {
  }
}
