/** How strings are compared: character by character, a prefix before its extensions. */
module TextOrder {

  predicate TextLess(a: string, b: string) {
    b != "" && (a == "" || a[0] < b[0] || (a[0] == b[0] && TextLess(a[1..], b[1..])))
  }

  /** Up to n characters the two agree; there one ends, or has the lesser character. */
  ghost predicate FirstDifference(a: string, b: string, n: nat) {
    n <= |a| && n < |b| && a[..n] == b[..n] && (n < |a| ==> a[n] < b[n])
  }

  lemma SameStart(a: string, b: string, n: nat)
    ensures FirstDifference(a, b, n) ==> n == 0 || (a != "" && b != "" && a[0] == b[0])
  {
    if n > 0 && FirstDifference(a, b, n) {
      assert a[..n][0] == b[..n][0];
    }
  }

  lemma SkipFirst(a: string, b: string, n: nat)
    requires a != "" && b != "" && a[0] == b[0]
    ensures FirstDifference(a, b, n + 1) <==> FirstDifference(a[1..], b[1..], n)
  {
    if n + 1 <= |a| && n + 1 <= |b| {
      assert a[..n + 1] == [a[0]] + a[1..][..n] && b[..n + 1] == [b[0]] + b[1..][..n];
      assert a[1..][..n] == a[..n + 1][1..] && b[1..][..n] == b[..n + 1][1..];
    }
  }

  /** The first difference decides. */
  lemma {:induction false} TextLessIff(a: string, b: string)
    ensures TextLess(a, b) <==> exists n: nat :: FirstDifference(a, b, n)
  {
    forall n: nat
      ensures FirstDifference(a, b, n) ==> n == 0 || (a != "" && b != "" && a[0] == b[0])
    {
      SameStart(a, b, n);
    }
    if a != "" && b != "" && a[0] == b[0] {
      TextLessIff(a[1..], b[1..]);
      forall n: nat
        ensures FirstDifference(a, b, n + 1) <==> FirstDifference(a[1..], b[1..], n)
      {
        SkipFirst(a, b, n);
      }
      assert !FirstDifference(a, b, 0);
      if n: nat :| FirstDifference(a[1..], b[1..], n) {
        assert FirstDifference(a, b, n + 1);
      }
      if n: nat :| FirstDifference(a, b, n) {
        assert FirstDifference(a[1..], b[1..], n - 1);
      }
    } else if TextLess(a, b) {
      assert FirstDifference(a, b, 0);
    }
  }

  lemma {:induction false} TextOrdered(a: string, b: string, c: string)
    ensures !(TextLess(a, b) && TextLess(b, a))
    ensures TextLess(a, b) || a == b || TextLess(b, a)
    ensures TextLess(a, b) && TextLess(b, c) ==> TextLess(a, c)
  {
    if a != "" && b != "" {
      TextOrdered(a[1..], b[1..], if c == "" then c else c[1..]);
      assert a == [a[0]] + a[1..] && b == [b[0]] + b[1..];
    } else if a == "" && b == "" {
      assert a == b;
    }
  }
}
