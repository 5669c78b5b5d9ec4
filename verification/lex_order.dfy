/** JavaScript's relational operators on strings: lexicographic order over
    characters, where a proper prefix comes first. `a >= b` is `LexLeq(b, a)`. */
module LexOrder {

  /** `a <= b` on strings. */
  predicate LexLeq(a: string, b: string)
    ensures a <= b ==> LexLeq(a, b)
    ensures |b| == 0 ==> (LexLeq(a, b) <==> |a| == 0)
    decreases |a|
  {
    || |a| == 0
    || (|b| > 0 && (a[0] < b[0] || (a[0] == b[0] && LexLeq(a[1..], b[1..]))))
  }

  /** `a` and `b` agree before position `k` and `a` is smaller at `k`. */
  ghost predicate SmallerAt(a: string, b: string, k: nat) {
    k < |a| && k < |b| && a[..k] == b[..k] && a[k] < b[k]
  }

  /** The explicit reading of the order: `a <= b` exactly when `a` is a prefix
      of `b` or `a` is smaller at the first position where they differ. */
  lemma {:induction false} LexLeqIsPrefixOrSmaller(a: string, b: string)
    ensures LexLeq(a, b) <==> (|a| <= |b| && a == b[..|a|]) || exists k: nat :: SmallerAt(a, b, k)
    decreases |a|
  {
    if |a| > 0 && |b| > 0 {
      LexLeqIsPrefixOrSmaller(a[1..], b[1..]);
      if a[0] == b[0] {
        if exists k: nat :: SmallerAt(a[1..], b[1..], k) {
          var k: nat :| SmallerAt(a[1..], b[1..], k);
          assert a[..k + 1] == [a[0]] + a[1..][..k];
          assert b[..k + 1] == [b[0]] + b[1..][..k];
          assert SmallerAt(a, b, k + 1);
        }
        if exists k: nat :: SmallerAt(a, b, k) {
          var k: nat :| SmallerAt(a, b, k);
          if k > 0 {
            assert a[..k][1..] == a[1..][..k - 1];
            assert b[..k][1..] == b[1..][..k - 1];
            assert SmallerAt(a[1..], b[1..], k - 1);
          }
        }
        if |a| <= |b| && a == b[..|a|] {
          assert a[1..] == b[1..][..|a| - 1];
        }
        if |a| - 1 <= |b| - 1 && a[1..] == b[1..][..|a| - 1] {
          assert a == [a[0]] + a[1..];
        }
      } else if a[0] < b[0] {
        assert SmallerAt(a, b, 0);
      } else {
        if |a| <= |b| {
          assert a[0] != b[..|a|][0];
        }
      }
    } else if |a| > 0 {
      assert !exists k: nat :: SmallerAt(a, b, k);
    }
  }

  /** Needed to chain `sale_date >= startOfMonth >= startOfYear`. */
  lemma {:induction false} LexLeqTransitive(a: string, b: string, c: string)
    requires LexLeq(a, b) && LexLeq(b, c)
    ensures LexLeq(a, c)
    decreases |a|
  {
    if |a| > 0 && a[0] == b[0] && b[0] == c[0] {
      LexLeqTransitive(a[1..], b[1..], c[1..]);
    }
  }

  lemma {:induction false} LexLeqTotal(a: string, b: string)
    ensures LexLeq(a, b) || LexLeq(b, a)
    decreases |a|
  {
    if |a| > 0 && |b| > 0 && a[0] == b[0] {
      LexLeqTotal(a[1..], b[1..]);
    }
  }

  lemma {:induction false} LexLeqAntisymmetric(a: string, b: string)
    requires LexLeq(a, b) && LexLeq(b, a)
    ensures a == b
    decreases |a|
  {
    if |a| > 0 {
      LexLeqAntisymmetric(a[1..], b[1..]);
      assert a == [a[0]] + a[1..];
      assert b == [b[0]] + b[1..];
    }
  }
}
