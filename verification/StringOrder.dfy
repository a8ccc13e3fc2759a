/** Strings in the order in which they are sorted. */
module StringOrder {

  predicate Below(a: string, b: string) {
    b != "" && (a == "" || a[0] < b[0] || (a[0] == b[0] && Below(a[1..], b[1..])))
  }

  /** `a` comes before `b`: at the first place where they differ it has the smaller character, or has ended. */
  ghost predicate Precedes(a: string, b: string) {
    exists k: nat :: FirstDifference(a, b, k)
  }

  predicate FirstDifference(a: string, b: string, k: nat) {
    k <= |a| && k < |b| && a[..k] == b[..k] && (k == |a| || a[k] < b[k])
  }

  lemma {:induction false} BelowIs(a: string, b: string)
    ensures Below(a, b) <==> Precedes(a, b)
    decreases |a|
  {
    if b != "" && a != "" && a[0] == b[0] {
      BelowIs(a[1..], b[1..]);
      if Below(a, b) {
        var k: nat :| FirstDifference(a[1..], b[1..], k);
        assert a[..k + 1] == [a[0]] + a[1..][..k] && b[..k + 1] == [b[0]] + b[1..][..k];
        assert FirstDifference(a, b, k + 1);
      }
      if Precedes(a, b) {
        var k: nat :| FirstDifference(a, b, k);
        assert a[1..][..k - 1] == a[..k][1..] && b[1..][..k - 1] == b[..k][1..];
        assert FirstDifference(a[1..], b[1..], k - 1);
      }
    } else {
      if Below(a, b) {
        assert FirstDifference(a, b, 0);
      }
      if Precedes(a, b) {
        var k: nat :| FirstDifference(a, b, k);
        if k > 0 {
          assert a[..k][0] == b[..k][0];
        }
      }
    }
  }

  lemma {:induction false} BelowTrans(a: string, b: string, c: string)
    requires Below(a, b) && Below(b, c)
    ensures Below(a, c)
    decreases |a|
  {
    if a != "" && a[0] == b[0] && b[0] == c[0] {
      BelowTrans(a[1..], b[1..], c[1..]);
    }
  }

  lemma {:induction false} BelowSides(a: string, b: string)
    ensures Below(a, b) || a == b || Below(b, a)
    ensures !(Below(a, b) && Below(b, a)) && !Below(a, a)
    decreases |a|
  {
    if a != "" && b != "" {
      BelowSides(a[1..], b[1..]);
      assert a == [a[0]] + a[1..] && b == [b[0]] + b[1..];
    }
    if a != "" {
      BelowSides(a[1..], a[1..]);
    }
  }
}
