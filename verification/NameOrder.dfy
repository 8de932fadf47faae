/** The order of std::string, which is the order in which the attribute table is walked. */
module NameOrder {
  import opened CStrings

  /** Bytewise lexicographic comparison. */
  predicate Less(a: Bytes, b: Bytes) {
    if b == [] then false
    else if a == [] then true
    else if a[0] != b[0] then a[0] < b[0]
    else Less(a[1..], b[1..])
  }

  lemma {:induction false} LessTrichotomy(a: Bytes, b: Bytes)
    ensures Less(a, b) || a == b || Less(b, a)
    ensures !(Less(a, b) && Less(b, a))
    ensures !Less(a, a)
    decreases |a|
  {
    if a != [] {
      LessTrichotomy(a[1..], a[1..]);
      if b != [] && a[0] == b[0] {
        LessTrichotomy(a[1..], b[1..]);
        if a[1..] == b[1..] {
          assert a == [a[0]] + a[1..] && b == [b[0]] + b[1..];
        }
      }
    }
  }

  lemma {:induction false} LessTransitive(a: Bytes, b: Bytes, c: Bytes)
    requires Less(a, b) && Less(b, c)
    ensures Less(a, c)
    decreases |a|
  {
    if a != [] && a[0] == b[0] && b[0] == c[0] {
      LessTransitive(a[1..], b[1..], c[1..]);
    }
  }

  /** The names agree up to `n`, where `a` ends or has the smaller byte. */
  predicate SmallerAt(a: Bytes, b: Bytes, n: nat) {
    n <= |a| && n < |b| && a[..n] == b[..n] && (n == |a| || a[n] < b[n])
  }

  /** A name is less than another iff it is a proper front part of it, or has the smaller byte where they first differ. */
  lemma {:induction false} LessIff(a: Bytes, b: Bytes)
    ensures Less(a, b) <==> exists n :: SmallerAt(a, b, n)
    decreases |a|
  {
    if a != [] && b != [] && a[0] == b[0] {
      LessIff(a[1..], b[1..]);
      forall n: nat
        ensures SmallerAt(a[1..], b[1..], n) <==> SmallerAt(a, b, n + 1)
      {
        if n <= |a[1..]| && n <= |b[1..]| {
          assert a[..n + 1] == [a[0]] + a[1..][..n] && b[..n + 1] == [b[0]] + b[1..][..n];
          assert a[1..][..n] == a[..n + 1][1..] && b[1..][..n] == b[..n + 1][1..];
        }
      }
      assert !SmallerAt(a, b, 0);
      if n: nat :| SmallerAt(a, b, n) {
        assert SmallerAt(a[1..], b[1..], n - 1);
      }
    } else if a != [] && b != [] {
      assert Less(a, b) <==> SmallerAt(a, b, 0);
      forall n: nat | n > 0
        ensures !SmallerAt(a, b, n)
      {
        DifferBefore(a, b, n);
      }
    } else {
      assert b != [] ==> SmallerAt(a, b, 0);
    }
  }

  lemma DifferBefore(a: Bytes, b: Bytes, n: nat)
    requires a != [] && b != [] && a[0] != b[0] && n > 0
    ensures !SmallerAt(a, b, n)
  {
    if n <= |a| && n <= |b| {
      assert a[..n][0] == a[0] && b[..n][0] == b[0];
    }
  }
}
