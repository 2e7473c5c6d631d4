/** The end of the range of keys that start with a prefix (src/store.rs, `prefix_end`). */
module KeyRange {
  import opened Base64
  import opened Order

  const MAX: Byte := 255

  predicate AllMax(p: seq<Byte>) {
    forall i :: 0 <= i < |p| ==> p[i] == MAX
  }

  /** The last byte that can be is raised by one, and those after it dropped. */
  function End(p: seq<Byte>): (end: seq<Byte>)
    ensures |end| > 0
  {
    if p == [] then [0]
    else
      var init, last := p[..|p| - 1], p[|p| - 1];
      if last < MAX then init + [last + 1] else End(init)
  }

  /** Between `first` and `end`; an end of one zero byte is no upper bound, as in an etcd range. */
  predicate InRange(k: seq<Byte>, first: seq<Byte>, end: seq<Byte>) {
    !Less(k, first) && (end == [0] || Less(k, end))
  }

  lemma {:induction false} EndByFirst(c: Byte, q: seq<Byte>)
    ensures End([c] + q) == if !AllMax(q) then [c] + End(q) else if c < MAX then [c + 1] else [0]
    ensures End(q) == [0] <==> AllMax(q)
  {
    var p := [c] + q;
    if q != [] {
      var init := q[..|q| - 1];
      assert p[..|p| - 1] == [c] + init;
      EndByFirst(c, init);
      assert q == init + [q[|q| - 1]];
      if q[|q| - 1] < MAX { assert End(q)[|q| - 1] != 0; }
      assert AllMax(q) <==> AllMax(init) && q[|q| - 1] == MAX;
    } else {
      assert p[..0] == [];
    }
  }

  /** The range is exactly the keys with the prefix, also where it has no upper bound. */
  lemma {:induction false} RangeIsPrefix(p: seq<Byte>, k: seq<Byte>)
    ensures p <= k <==> InRange(k, p, End(p))
  {
    if p != [] && k != [] {
      var q := p[1..];
      assert p == [p[0]] + q;
      EndByFirst(p[0], q);
      if !AllMax(q) {
        assert End(p)[0] == p[0] && End(p)[1..] == End(q) && |End(p)| >= 2;
      }
      if p[0] == k[0] {
        RangeIsPrefix(q, k[1..]);
        assert k == [k[0]] + k[1..];
        assert p <= k <==> q <= k[1..];
      } else if k[0] > p[0] {
        if AllMax(q) {
          var e := End(p);
          assert e == [p[0] + 1];
          assert !Less(k, e) by { assert e[1..] == []; assert !Less(k[1..], []); }
          assert e != [0] by { assert e[0] != 0; }
        }
      } else {
        assert Less(k, p);
      }
    }
  }

  method PrefixEnd(prefix: seq<Byte>) returns (end: seq<Byte>)
    ensures forall k: seq<Byte> :: prefix <= k <==> InRange(k, prefix, end)
    ensures end == [0] <==> AllMax(prefix)
  {
    forall k: seq<Byte> ensures prefix <= k <==> InRange(k, prefix, End(prefix)) { RangeIsPrefix(prefix, k); }
    EndByFirst(0, prefix);
    end := prefix;
    while end != []
      invariant End(end) == End(prefix)
      decreases |end|
    {
      var last := end[|end| - 1];
      end := end[..|end| - 1];
      if last < MAX {
        end := end + [last + 1];
        return;
      }
    }
    end := [0];
  }
}
