/** Python's `<` on `str`: lexicographic comparison by code point, where a
    proper prefix sorts before the longer string. pandas' `sort_values` on a
    column of strings orders rows by this relation. */
module StringOrder {

  /** `a < b` for Python strings. */
  predicate LexLess(a: string, b: string)
    decreases |a|
  {
    if |a| == 0 then |b| > 0
    else if |b| == 0 then false
    else a[0] < b[0] || (a[0] == b[0] && LexLess(a[1..], b[1..]))
  }

  /** No string is smaller than itself. */
  lemma {:induction false} LexIrreflexive(a: string)
    ensures !LexLess(a, a)
  {
    if |a| > 0 {
      LexIrreflexive(a[1..]);
    }
  }

  /** `<` is transitive. */
  lemma {:induction false} LexTransitive(a: string, b: string, c: string)
    requires LexLess(a, b) && LexLess(b, c)
    ensures LexLess(a, c)
    decreases |a|
  {
    if |a| > 0 && |b| > 0 && |c| > 0 && a[0] == b[0] && b[0] == c[0] {
      LexTransitive(a[1..], b[1..], c[1..]);
    }
  }

  /** Any two distinct strings are ordered one way or the other. */
  lemma {:induction false} LexTotal(a: string, b: string)
    ensures a == b || LexLess(a, b) || LexLess(b, a)
    decreases |a|
  {
    if |a| > 0 && |b| > 0 && a[0] == b[0] {
      LexTotal(a[1..], b[1..]);
      if a[1..] == b[1..] {
        assert a == [a[0]] + a[1..] && b == [b[0]] + b[1..];
      }
    }
  }

  /** `<` never holds both ways. */
  lemma LexAsymmetric(a: string, b: string)
    requires LexLess(a, b)
    ensures !LexLess(b, a)
  {
    if LexLess(b, a) {
      LexTransitive(a, b, a);
      LexIrreflexive(a);
    }
  }

  /** Comparing two concatenations whose first parts have the same length
      compares the first parts, and only on a tie the second parts. */
  lemma {:induction false} LexConcat(a: string, c: string, b: string, d: string)
    requires |a| == |b|
    ensures LexLess(a + c, b + d) <==> LexLess(a, b) || (a == b && LexLess(c, d))
    decreases |a|
  {
    if |a| == 0 {
      assert a + c == c && b + d == d;
    } else {
      assert (a + c)[0] == a[0] && (a + c)[1..] == a[1..] + c;
      assert (b + d)[0] == b[0] && (b + d)[1..] == b[1..] + d;
      LexConcat(a[1..], c, b[1..], d);
      if a[0] == b[0] && a[1..] == b[1..] {
        assert a == [a[0]] + a[1..] && b == [b[0]] + b[1..];
      }
    }
  }
}
