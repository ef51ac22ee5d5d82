/** The byte-wise order on names that sorting relies on. */
module Ordering {
  predicate NameLeq(a: string, b: string) {
    if a == [] then true
    else if b == [] then false
    else if a[0] == b[0] then NameLeq(a[1..], b[1..])
    else a[0] < b[0]
  }

  lemma {:induction false} NameLeqOrder(a: string, b: string, c: string)
    ensures NameLeq(a, b) || NameLeq(b, a)
    ensures NameLeq(a, b) && NameLeq(b, c) ==> NameLeq(a, c)
    ensures NameLeq(a, b) && NameLeq(b, a) ==> a == b
  {
    if a != [] && b != [] {
      assert a == [a[0]] + a[1..] && b == [b[0]] + b[1..];
      if c != [] {
        NameLeqOrder(a[1..], b[1..], c[1..]);
      } else {
        NameLeqOrder(a[1..], b[1..], c);
      }
    }
  }

  /** The first is a beginning of the second, or they differ first where it has the smaller character. */
  ghost predicate Lexicographic(a: string, b: string) {
    a <= b || exists k :: 0 <= k < |a| && k < |b| && DifferFirst(a, b, k)
  }

  ghost predicate DifferFirst(a: string, b: string, k: nat)
    requires k < |a| && k < |b|
  {
    a[..k] == b[..k] && a[k] < b[k]
  }

  lemma {:induction false} NameLeqIsLexicographic(a: string, b: string)
    ensures NameLeq(a, b) <==> Lexicographic(a, b)
  {
    if a != [] && b != [] {
      if a[0] == b[0] {
        NameLeqIsLexicographic(a[1..], b[1..]);
        assert a[1..] <= b[1..] <==> a <= b;
        FirstsEqual(a, b);
      } else {
        assert a[..0] == b[..0];
        assert a[0] < b[0] ==> DifferFirst(a, b, 0);
        FirstsDiffer(a, b);
      }
    }
  }

  lemma FirstsDiffer(a: string, b: string)
    requires a != [] && b != []
    ensures forall k: nat | 0 < k < |a| && k < |b| && DifferFirst(a, b, k) :: a[0] == b[0]
  {
    forall k: nat | 0 < k < |a| && k < |b| && DifferFirst(a, b, k) ensures a[0] == b[0] {
      assert a[..k][0] == a[0] && b[..k][0] == b[0];
    }
  }

  lemma FirstsEqual(a: string, b: string)
    requires a != [] && b != [] && a[0] == b[0]
    ensures (exists k :: 0 <= k < |a| && k < |b| && DifferFirst(a, b, k))
            <==> exists k :: 0 <= k < |a[1..]| && k < |b[1..]| && DifferFirst(a[1..], b[1..], k)
  {
    forall k: nat | k < |a[1..]| && k < |b[1..]|
      ensures DifferFirst(a[1..], b[1..], k) <==> DifferFirst(a, b, k + 1)
    {
      assert a[..k + 1] == [a[0]] + a[1..][..k] && b[..k + 1] == [b[0]] + b[1..][..k];
      assert a[1..][..k] == a[..k + 1][1..] && b[1..][..k] == b[..k + 1][1..];
    }
    if k: nat :| k < |a| && k < |b| && DifferFirst(a, b, k) {
      assert k > 0;
      assert DifferFirst(a[1..], b[1..], k - 1);
    }
    if k: nat :| k < |a[1..]| && k < |b[1..]| && DifferFirst(a[1..], b[1..], k) {
      assert DifferFirst(a, b, k + 1);
    }
  }
}
