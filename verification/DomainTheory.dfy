/** What a node's failure domain is (src/placement.rs, `domain_at`). */
module DomainTheory {
  import opened Placement

  /** The labels the node has, of these rungs, in their order. */
  function Known(labels: map<string, string>, rungs: seq<string>): seq<string> {
    if rungs == [] then []
    else
      var init, r := Known(labels, rungs[..|rungs| - 1]), rungs[|rungs| - 1];
      if r in labels then init + [labels[r]] else init
  }

  lemma {:induction false} KnownJoins(labels: map<string, string>, a: seq<string>, b: seq<string>)
    ensures Known(labels, a + b) == Known(labels, a) + Known(labels, b)
  {
    if b == [] {
      assert a + b == a;
    } else {
      var init := b[..|b| - 1];
      KnownJoins(labels, a, init);
      assert (a + b)[..|a| + |b| - 1] == a + init;
    }
  }

  /** The rungs that are looked at: up to and with the one asked for, or all when it is none of them. */
  function Looked(a: seq<string>, rest: seq<string>): seq<string> {
    if rest == [] then a else a + [rest[0]]
  }

  lemma {:induction false} KnownFirst(labels: map<string, string>, r: string, rungs: seq<string>)
    ensures Known(labels, [r] + rungs) == (if r in labels then [labels[r]] else []) + Known(labels, rungs)
  {
    KnownJoins(labels, [r], rungs);
    assert [r][..0] == [];
  }

  /** The chain is the labels of those. */
  lemma {:induction false} ChainIs(labels: map<string, string>, a: seq<string>, rung: string, rest: seq<string>)
    requires rung !in a && (rest != [] ==> rest[0] == rung)
    ensures Chain(labels, a + rest, rung) == Known(labels, Looked(a, rest))
  {
    if a == [] {
      assert a + rest == rest;
      if rest != [] {
        assert Looked(a, rest) == [rung] + [];
        KnownFirst(labels, rung, []);
      }
    } else {
      assert (a + rest)[1..] == a[1..] + rest;
      assert a[0] in a && rung !in a[1..];
      ChainIs(labels, a[1..], rung, rest);
      assert Looked(a, rest) == [a[0]] + Looked(a[1..], rest);
      KnownFirst(labels, a[0], Looked(a[1..], rest));
    }
  }

  /** Joined by slashes, the first one first. */
  lemma {:induction false} JoinIs(a: seq<string>, b: seq<string>)
    requires a != []
    ensures Join(a + b) == Join(a) + if b == [] then "" else "/" + Join(b)
    ensures |a| == 1 ==> Join(a) == a[0]
  {
    if b == [] {
      assert a + b == a;
    } else if |a| > 1 {
      assert (a + b)[1..] == a[1..] + b;
      JoinIs(a[1..], b);
    } else {
      assert (a + b)[1..] == b;
    }
  }

  /** A node with none of these labels is its own domain, by its `node` label, or all without that share one. */
  lemma {:induction false} DomainIs(labels: map<string, string>, a: seq<string>, rung: string, rest: seq<string>)
    requires rung !in a && (rest != [] ==> rest[0] == rung)
    ensures var known, domain := Known(labels, Looked(a, rest)), DomainAt(labels, Rule(a + rest, rung));
            && (known != [] ==> domain == Join(known))
            && (known == [] && "node" in labels ==> domain == labels["node"])
            && (known == [] && "node" !in labels ==> domain == "?")
  {
    ChainIs(labels, a, rung, rest);
  }

  /** A domain at a lower rung lies inside the one at an upper rung the node is labelled down to. */
  lemma {:induction false} LowerIsInside(
    labels: map<string, string>, a: seq<string>, upper: string, b: seq<string>, lower: string, c: seq<string>)
    requires upper !in a && lower !in a + [upper] + b && Known(labels, a + [upper]) != []
    ensures var rungs := a + [upper] + b + [lower] + c;
            var outer, inner := DomainAt(labels, Rule(rungs, upper)), DomainAt(labels, Rule(rungs, lower));
            inner == outer || outer + "/" <= inner
  {
    var rungs := a + [upper] + b + [lower] + c;
    assert rungs == a + ([upper] + b + [lower] + c) && rungs == (a + [upper] + b) + ([lower] + c);
    DomainIs(labels, a, upper, [upper] + b + [lower] + c);
    DomainIs(labels, a + [upper] + b, lower, [lower] + c);
    KnownJoins(labels, a + [upper], b + [lower]);
    assert a + [upper] + b + [lower] == (a + [upper]) + (b + [lower]);
    JoinIs(Known(labels, a + [upper]), Known(labels, b + [lower]));
  }
}
