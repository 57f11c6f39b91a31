/** Order-preserving sub-lists, the shape of every `filter` in the resolver. */
module Lists {

  /** `a` is `b` with some elements dropped and the rest kept in order. */
  predicate SubList<T(==)>(a: seq<T>, b: seq<T>)
    decreases |b|
  {
    if |a| == 0 then true
    else if |b| == 0 then false
    else (a[0] == b[0] && SubList(a[1..], b[1..])) || SubList(a, b[1..])
  }

  lemma {:induction false} SubListMembers<T>(a: seq<T>, b: seq<T>, x: T)
    requires SubList(a, b) && x in a
    ensures x in b
    decreases |b|
  {
    if a[0] == b[0] && SubList(a[1..], b[1..]) {
      if x != a[0] {
        SubListMembers(a[1..], b[1..], x);
      }
    } else {
      SubListMembers(a, b[1..], x);
    }
  }

  lemma {:induction false} SubListLength<T>(a: seq<T>, b: seq<T>)
    requires SubList(a, b)
    ensures |a| <= |b|
    decreases |b|
  {
    if |a| > 0 {
      if a[0] == b[0] && SubList(a[1..], b[1..]) {
        SubListLength(a[1..], b[1..]);
      } else {
        SubListLength(a, b[1..]);
      }
    }
  }

  /** Dropping an element that occurs in `b` makes the sub-list strictly shorter. */
  lemma {:induction false} SubListShorter<T>(a: seq<T>, b: seq<T>, x: T)
    requires SubList(a, b) && x in b && x !in a
    ensures |a| < |b|
    decreases |b|
  {
    if |a| > 0 {
      if a[0] == b[0] && SubList(a[1..], b[1..]) {
        assert x != b[0];
        assert x in b[1..];
        assert forall y :: y in a[1..] ==> y in a;
        SubListShorter(a[1..], b[1..], x);
      } else {
        SubListLength(a, b[1..]);
      }
    }
  }

  lemma {:induction false} SubListTransitive<T>(a: seq<T>, b: seq<T>, c: seq<T>)
    requires SubList(a, b) && SubList(b, c)
    ensures SubList(a, c)
    decreases |c|
  {
    if |a| > 0 {
      assert |b| > 0 && |c| > 0;
      if b[0] == c[0] && SubList(b[1..], c[1..]) {
        if a[0] == b[0] && SubList(a[1..], b[1..]) {
          SubListTransitive(a[1..], b[1..], c[1..]);
        } else {
          SubListTransitive(a, b[1..], c[1..]);
        }
      } else {
        SubListTransitive(a, b, c[1..]);
      }
    }
  }
}
