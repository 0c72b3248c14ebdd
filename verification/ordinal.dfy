/** Ordinal string comparison, `string.Compare(a, b, StringComparison.Ordinal)`:
    code unit by code unit, a proper prefix ordered before its extensions. */
module Ordinal {
  import opened Clr

  /** The sign of the ordinal comparison of `a` with `b`. */
  function Compare(a: Name, b: Name): (r: int)
    ensures -1 <= r <= 1
    decreases |a|
  {
    if |a| == 0 then (if |b| == 0 then 0 else -1)
    else if |b| == 0 then 1
    else if a[0] < b[0] then -1
    else if a[0] > b[0] then 1
    else Compare(a[1..], b[1..])
  }

  /** Reference definition of "a sorts strictly before b" in ordinal order:
      `a` is a proper prefix of `b`, or the first code unit where they
      differ is smaller in `a`. */
  ghost predicate Precedes(a: Name, b: Name) {
    || (|a| < |b| && a == b[..|a|])
    || exists k :: 0 <= k < |a| && k < |b| && a[..k] == b[..k] && a[k] < b[k]
  }

  lemma {:induction false} CompareReflexive(a: Name)
    ensures Compare(a, a) == 0
    decreases |a|
  {
    if |a| > 0 {
      CompareReflexive(a[1..]);
    }
  }

  lemma {:induction false} CompareAntisymmetric(a: Name, b: Name)
    ensures Compare(a, b) == -Compare(b, a)
    decreases |a|
  {
    if |a| > 0 && |b| > 0 && a[0] == b[0] {
      CompareAntisymmetric(a[1..], b[1..]);
    }
  }

  lemma {:induction false} CompareZeroIffEqual(a: Name, b: Name)
    ensures Compare(a, b) == 0 <==> a == b
    decreases |a|
  {
    if |a| > 0 && |b| > 0 {
      if a[0] == b[0] {
        CompareZeroIffEqual(a[1..], b[1..]);
        assert a == [a[0]] + a[1..];
        assert b == [b[0]] + b[1..];
      } else {
        assert a[0] != b[0];
      }
    } else if |a| != |b| {
      assert a != b;
    }
  }

  lemma {:induction false} CompareTransitive(a: Name, b: Name, c: Name)
    requires Compare(a, b) < 0 && Compare(b, c) < 0
    ensures Compare(a, c) < 0
    decreases |a|
  {
    if |a| > 0 && |b| > 0 && |c| > 0 && a[0] == b[0] && b[0] == c[0] {
      CompareTransitive(a[1..], b[1..], c[1..]);
    }
  }

  /** Stripping an equal first code unit does not change which string precedes. */
  lemma PrecedesTail(a: Name, b: Name)
    requires |a| > 0 && |b| > 0 && a[0] == b[0]
    ensures Precedes(a, b) <==> Precedes(a[1..], b[1..])
  {
    var a', b' := a[1..], b[1..];
    assert a == [a[0]] + a';
    if |a| < |b| {
      assert b[..|a|] == [b[0]] + b'[..|a'|];
    }
    if Precedes(a, b) && !(|a| < |b| && a == b[..|a|]) {
      var k :| 0 <= k < |a| && k < |b| && a[..k] == b[..k] && a[k] < b[k];
      assert k > 0;
      assert a'[..k - 1] == a[..k][1..];
      assert b'[..k - 1] == b[..k][1..];
      assert a'[k - 1] < b'[k - 1];
    }
    if Precedes(a', b') && !(|a'| < |b'| && a' == b'[..|a'|]) {
      var k :| 0 <= k < |a'| && k < |b'| && a'[..k] == b'[..k] && a'[k] < b'[k];
      assert a[..k + 1] == [a[0]] + a'[..k];
      assert b[..k + 1] == [b[0]] + b'[..k];
      assert a[k + 1] < b[k + 1];
    }
  }

  /** A negative comparison means exactly that `a` precedes `b`. */
  lemma {:induction false} CompareNegativeIffPrecedes(a: Name, b: Name)
    ensures Compare(a, b) < 0 <==> Precedes(a, b)
    decreases |a|
  {
    // When both are non-empty and the first code units differ, or `a` is
    // non-empty and `b` is empty, the solver closes the case unaided.
    if |a| == 0 {
      assert |b| > 0 ==> b[..0] == a;
    } else if |b| > 0 && a[0] < b[0] {
      assert a[..0] == b[..0];
    } else if |b| > 0 && a[0] == b[0] {
      CompareNegativeIffPrecedes(a[1..], b[1..]);
      PrecedesTail(a, b);
    }
  }
}
