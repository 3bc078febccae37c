/** Permutations of a list, one element at a time. */
module Lists {
  /** The parts of `b` before and after an occurrence of the first element of `a`. */
  ghost function Around<T>(a: seq<T>, b: seq<T>): (r: (seq<T>, seq<T>))
    requires a != [] && multiset(a) == multiset(b)
    ensures b == r.0 + ([a[0]] + r.1)
  {
    assert a[0] in multiset(b);
    var i :| 0 <= i < |b| && b[i] == a[0];
    (b[..i], b[i + 1..])
  }

  lemma WithoutHead<T>(a: seq<T>, front: seq<T>, back: seq<T>)
    requires a != [] && multiset(a) == multiset(front + ([a[0]] + back))
    ensures multiset(a[1..]) == multiset(front + back)
  {
    assert a == [a[0]] + a[1..];
    assert multiset(a[1..]) == multiset(a) - multiset{a[0]};
    assert multiset(front + ([a[0]] + back)) == multiset(front + back) + multiset{a[0]};
  }
}
