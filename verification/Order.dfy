/** Lexicographic order, of keys as bytes and of names as characters. */
module Order {

  predicate Less(a: seq<nat>, b: seq<nat>) {
    b != [] && (a == [] || a[0] < b[0] || (a[0] == b[0] && Less(a[1..], b[1..])))
  }

  function Codes(s: string): (c: seq<nat>)
    ensures |c| == |s|
  {
    seq(|s|, i requires 0 <= i < |s| => s[i] as nat)
  }

  /** Names as the source's strings are compared. */
  predicate Before(a: string, b: string) {
    Less(Codes(a), Codes(b))
  }

  lemma {:induction false} LessTrichotomy(a: seq<nat>, b: seq<nat>)
    ensures !(Less(a, b) && Less(b, a))
    ensures a != b <==> Less(a, b) || Less(b, a)
  {
    if a != [] && b != [] && a[0] == b[0] {
      LessTrichotomy(a[1..], b[1..]);
      assert a == [a[0]] + a[1..] && b == [b[0]] + b[1..];
    }
  }

  lemma {:induction false} LessTransitive(a: seq<nat>, b: seq<nat>, c: seq<nat>)
    requires Less(a, b) && Less(b, c)
    ensures Less(a, c)
  {
    if a != [] && a[0] == b[0] == c[0] {
      LessTransitive(a[1..], b[1..], c[1..]);
    }
  }

  lemma {:induction false} BeforeTrichotomy(a: string, b: string)
    ensures !(Before(a, b) && Before(b, a))
    ensures a != b <==> Before(a, b) || Before(b, a)
  {
    LessTrichotomy(Codes(a), Codes(b));
    if Codes(a) == Codes(b) {
      forall i | 0 <= i < |a| ensures a[i] == b[i] {
        assert Codes(a)[i] == Codes(b)[i];
      }
      assert a == b;
    }
  }

  lemma {:induction false} BeforeTransitive(a: string, b: string, c: string)
    requires Before(a, b) && Before(b, c)
    ensures Before(a, c)
  {
    LessTransitive(Codes(a), Codes(b), Codes(c));
  }

  /** Alike up to `n`, where `a` ends or has the lesser character. */
  predicate FirstApart(a: string, b: string, n: nat) {
    n <= |a| && n < |b| && a[..n] == b[..n] && (n == |a| || a[n] < b[n])
  }

  /** The order of strings: by the first character apart, a prefix before what it begins. */
  lemma {:induction false} BeforeIs(a: string, b: string)
    ensures Before(a, b) <==> exists n: nat :: FirstApart(a, b, n)
  {
    if Before(a, b) {
      var n := FirstLess(a, b);
    } else if exists n: nat :: FirstApart(a, b, n) {
      var n: nat :| FirstApart(a, b, n);
      ApartIsLess(a, b, n);
    }
  }

  lemma {:induction false} FirstLess(a: string, b: string) returns (n: nat)
    requires Before(a, b)
    ensures FirstApart(a, b, n)
  {
    n := 0;
    if a != [] && a[0] == b[0] {
      assert Codes(a)[1..] == Codes(a[1..]) && Codes(b)[1..] == Codes(b[1..]);
      n := FirstLess(a[1..], b[1..]);
      assert a[..n + 1] == [a[0]] + a[1..][..n] && b[..n + 1] == [b[0]] + b[1..][..n];
      n := n + 1;
    }
  }

  lemma {:induction false} ApartIsLess(a: string, b: string, n: nat)
    requires FirstApart(a, b, n)
    ensures Before(a, b)
  {
    if n > 0 {
      assert a[..n][0] == b[..n][0];
      assert a[1..][..n - 1] == a[..n][1..] && b[1..][..n - 1] == b[..n][1..];
      ApartIsLess(a[1..], b[1..], n - 1);
      assert Codes(a)[1..] == Codes(a[1..]) && Codes(b)[1..] == Codes(b[1..]);
    }
  }
}
