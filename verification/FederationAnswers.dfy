/** When a store's records are taken in, and what the state then holds, for any records at all (src/store.rs, `apply_records`). */
module FederationAnswers {
  import opened Wrappers
  import opened Records
  import opened FederationState

  // ------------------------------------------------------------------- keys

  /** A key is a kind, or a kind, a slash and a name; the first slash ends the kind. */
  lemma {:induction false} SplitIs(k: string)
    ensures '/' !in SplitOnce(k).0
    ensures k == SplitOnce(k).0 + "/" + SplitOnce(k).1 || (k == SplitOnce(k).0 && SplitOnce(k).1 == "")
  {
    if k != "" && k[0] != '/' {
      SplitIs(k[1..]);
      assert k == k[..1] + k[1..];
    } else if k != "" {
      assert k == "" + "/" + k[1..];
    }
  }

  /** The key is of the kind, with this name. */
  predicate KindAndName(k: string, kind: string, name: string) {
    k == kind + "/" + name || (k == kind && name == "")
  }

  /** The key is of the kind, whatever comes after. */
  ghost predicate OfKind(k: string, kind: string) {
    exists name :: KindAndName(k, kind, name)
  }

  lemma {:induction false} KindIs(k: string, kind: string, name: string)
    requires '/' !in kind
    ensures KindAndName(k, kind, name) <==> SplitOnce(k) == (kind, name)
  {
    SplitIs(k);
    SplitJoined(kind, name);
  }

  lemma {:induction false} OfKindIs(k: string, kind: string)
    requires '/' !in kind
    ensures OfKind(k, kind) <==> SplitOnce(k).0 == kind
  {
    KindIs(k, kind, SplitOnce(k).1);
    if OfKind(k, kind) {
      var name :| KindAndName(k, kind, name);
      KindIs(k, kind, name);
    }
  }

  lemma {:induction false} KindOfIs(s: string, kind: Kind)
    ensures KindOf(s) == Some(kind) <==> s == KindText(kind)
  {
    KindReadBack(kind);
  }

  /** What a key is of: one of the five kinds of named records, a node, one of the two lists, and else passed over. */
  lemma {:induction false} KeysAreOf(k: string)
    ensures forall n :: PlaceOf(k) == Record(n) <==> KindAndName(k, KindText(n.kind), n.name)
    ensures forall name :: PlaceOf(k) == NodeNamed(name) <==> KindAndName(k, "nodes", name)
    ensures PlaceOf(k) == Orphans <==> OfKind(k, "orphans")
    ensures PlaceOf(k) == StaleHeads <==> OfKind(k, "stale_heads")
  {
    OthersAreNoKind();
    OfKindIs(k, "orphans");
    OfKindIs(k, "stale_heads");
    forall n ensures PlaceOf(k) == Record(n) <==> KindAndName(k, KindText(n.kind), n.name) {
      KindReadBack(n.kind);
      KindIs(k, KindText(n.kind), n.name);
      KindOfIs(SplitOnce(k).0, n.kind);
    }
    forall name ensures PlaceOf(k) == NodeNamed(name) <==> KindAndName(k, "nodes", name) {
      KindIs(k, "nodes", name);
    }
  }

  // ----------------------------------------------------------------- reading

  /** The record's own reader takes its text; one of no known kind is not read. */
  predicate Reads<V, C, L>(c: Codec<V, C, L>, k: string, text: string) {
    match c.placeOf(k)
    case Record(_) => c.toNamed(text).Some?
    case NodeNamed(_) => c.toConfig(text).Some?
    case Orphans => c.toItems(text).Some?
    case StaleHeads => c.toItems(text).Some?
    case Elsewhere => true
  }

  lemma {:induction false} ParsesPrefix<V, C, L>(c: Codec<V, C, L>, records: Records, keys: seq<string>)
    requires forall k :: k in keys ==> k in records
    ensures ParseAll(c, records, keys).Some? <==> forall k :: k in keys ==> Reads(c, k, records[k])
  {
    if keys != [] {
      var init, k := keys[..|keys| - 1], keys[|keys| - 1];
      ParsesPrefix(c, records, init);
      assert forall x :: x in keys <==> x in init || x == k;
    }
  }

  /** The records are taken in exactly when each is read by its own reader. */
  lemma {:induction false} ParsesExactly<V, C, L>(c: Codec<V, C, L>, records: Records, keys: seq<string>)
    requires Enumerates(keys, records)
    ensures ParseAll(c, records, keys).Some? <==> forall k :: k in records ==> Reads(c, k, records[k])
  {
    ParsesPrefix(c, records, keys);
  }

  // ------------------------------------------------------------ what is held

  /** The last key, in order, that is of the place. */
  ghost predicate LastAt<V, C, L>(c: Codec<V, C, L>, keys: seq<string>, q: Place, i: nat) {
    i < |keys| && c.placeOf(keys[i]) == q && forall j :: i < j < |keys| ==> c.placeOf(keys[j]) != q
  }

  predicate NamesNode<V, C, L>(c: Codec<V, C, L>, k: string, text: string, n: string) {
    c.placeOf(k).NodeNamed? && c.toConfig(text).Some? && c.nameOf(c.toConfig(text).value) == n
  }

  /** The last key, in order, of a node whose config says this name. */
  ghost predicate LastNode<V, C, L>(c: Codec<V, C, L>, records: Records, keys: seq<string>, n: string, i: nat)
    requires forall k :: k in keys ==> k in records
  {
    && i < |keys| && NamesNode(c, keys[i], records[keys[i]], n)
    && forall j :: i < j < |keys| ==> !NamesNode(c, keys[j], records[keys[j]], n)
  }

  lemma {:induction false} LastAtInit<V, C, L>(c: Codec<V, C, L>, keys: seq<string>, q: Place, i: nat)
    requires LastAt(c, keys, q, i)
    ensures i < |keys| - 1 ==> LastAt(c, keys[..|keys| - 1], q, i) && c.placeOf(keys[|keys| - 1]) != q
  {
  }

  lemma {:induction false} ParsedInit<V, C, L>(c: Codec<V, C, L>, records: Records, keys: seq<string>)
    requires forall k :: k in keys ==> k in records
    requires ParseAll(c, records, keys).Some? && keys != []
    ensures ParseAll(c, records, keys[..|keys| - 1]).Some?
  {
  }

  /** The record of a name, and a list, is what the last of its keys says. */
  lemma {:induction false} LastIsParsed<V, C, L>(
    c: Codec<V, C, L>, records: Records, keys: seq<string>, q: Place, i: nat)
    requires forall k :: k in keys ==> k in records
    requires ParseAll(c, records, keys).Some? && LastAt(c, keys, q, i)
    ensures var p, text := ParseAll(c, records, keys).value, records[keys[i]];
            && (q.Record? ==> q.named in p.named && c.toNamed(text) == Some(p.named[q.named]))
            && (q.Orphans? ==> c.toItems(text) == Some(p.orphans))
            && (q.StaleHeads? ==> c.toItems(text) == Some(p.staleHeads))
  {
    LastAtInit(c, keys, q, i);
    ParsedInit(c, records, keys);
    if i < |keys| - 1 { LastIsParsed(c, records, keys[..|keys| - 1], q, i); }
  }

  /** A name no key is of has no record, and a list no key is of is empty. */
  lemma {:induction false} NothingElseIsParsed<V, C, L>(c: Codec<V, C, L>, records: Records, keys: seq<string>, q: Place)
    requires forall k :: k in keys ==> k in records
    requires ParseAll(c, records, keys).Some? && forall k :: k in keys ==> c.placeOf(k) != q
    ensures var p := ParseAll(c, records, keys).value;
            && (q.Record? ==> q.named !in p.named)
            && (q.Orphans? ==> p.orphans == c.noItems)
            && (q.StaleHeads? ==> p.staleHeads == c.noItems)
  {
    if keys != [] {
      ParsedInit(c, records, keys);
      NothingElseIsParsed(c, records, keys[..|keys| - 1], q);
    }
  }

  /** The configs read, in the order of their keys: the last of a name is the last key's. */
  lemma {:induction false} LastIsRegistered<V, C, L>(
    c: Codec<V, C, L>, records: Records, keys: seq<string>, n: string, i: nat) returns (at: nat)
    requires forall k :: k in keys ==> k in records
    requires ParseAll(c, records, keys).Some? && LastNode(c, records, keys, n, i)
    ensures var registered := ParseAll(c, records, keys).value.registered;
            && at < |registered| && c.toConfig(records[keys[i]]) == Some(registered[at])
            && forall j :: at < j < |registered| ==> c.nameOf(registered[j]) != n
  {
    var init := keys[..|keys| - 1];
    ParsedInit(c, records, keys);
    if i == |keys| - 1 {
      at := |ParseAll(c, records, init).value.registered|;
    } else {
      assert LastNode(c, records, init, n, i);
      at := LastIsRegistered(c, records, init, n, i);
      assert !NamesNode(c, keys[|keys| - 1], records[keys[|keys| - 1]], n);
    }
  }

  lemma {:induction false} NamesAre<V, C, L>(c: Codec<V, C, L>, records: Records, keys: seq<string>, n: string)
    requires forall k :: k in keys ==> k in records
    requires ParseAll(c, records, keys).Some?
    ensures n in Names(c, ParseAll(c, records, keys).value.registered)
            <==> exists k :: k in keys && NamesNode(c, k, records[k], n)
  {
    if keys != [] {
      var init, k := keys[..|keys| - 1], keys[|keys| - 1];
      ParsedInit(c, records, keys);
      NamesAre(c, records, init, n);
      assert forall x :: x in keys <==> x in init || x == k;
      var before := ParseAll(c, records, init).value.registered;
      if c.placeOf(k).NodeNamed? { NamesGrow(c, before, c.toConfig(records[k]).value); }
    }
  }

  lemma {:induction false} NamesGrow<V, C, L>(c: Codec<V, C, L>, registered: seq<C>, x: C)
    ensures Names(c, registered + [x]) == Names(c, registered) + {c.nameOf(x)}
  {
    var more := registered + [x];
    forall n | n in Names(c, registered) ensures n in Names(c, more) {
      var i :| 0 <= i < |registered| && c.nameOf(registered[i]) == n;
      assert more[i] == registered[i];
    }
    assert more[|registered|] == x;
  }

  /** Of several configs with one name the last is what a registered node has. */
  lemma {:induction false} LastIsMerged<V, C, L, S>(
    c: Codec<V, C, L>, nodes: map<string, Node<C, S>>, registered: seq<C>, unpolled: S, at: nat)
    requires at < |registered| && forall j :: at < j < |registered| ==> c.nameOf(registered[j]) != c.nameOf(registered[at])
    requires var n := c.nameOf(registered[at]); n in nodes ==> nodes[n].source == Registered
    ensures var n, m := c.nameOf(registered[at]), Merge(c, nodes, registered, unpolled);
            n in m && m[n].source == Registered && m[n].config == registered[at]
  {
    var init := registered[..|registered| - 1];
    if at < |init| {
      LastIsMerged(c, nodes, init, unpolled, at);
    } else {
      MergeAt(c, nodes, init, unpolled, c.nameOf(registered[at]));
    }
  }

  /** The instance's own node of this name, which the store does not touch. */
  predicate Own<C, S>(nodes: map<string, Node<C, S>>, n: string) {
    n in nodes && nodes[n].source != Registered
  }

  /** What is held after: each named record and list as its last key says, and no other. */
  lemma {:induction false} HeldAfter<V, C, L, S>(
    c: Codec<V, C, L>, f: State<V, C, L, S>, records: Records, keys: seq<string>, unpolled: S)
    requires Enumerates(keys, records) && ParseAll(c, records, keys).Some?
    ensures var r := Applied(c, f, ParseAll(c, records, keys).value, unpolled);
            && (forall n :: n in r.named <==> exists k :: k in records && c.placeOf(k) == Record(n))
            && (forall n, i: nat :: LastAt(c, keys, Record(n), i) ==> c.toNamed(records[keys[i]]) == Some(r.named[n]))
            && (forall i: nat :: LastAt(c, keys, Orphans, i) ==> c.toItems(records[keys[i]]) == Some(r.orphans))
            && (forall i: nat :: LastAt(c, keys, StaleHeads, i) ==> c.toItems(records[keys[i]]) == Some(r.staleHeads))
            && ((forall k :: k in records ==> c.placeOf(k) != Orphans) ==> r.orphans == c.noItems)
            && ((forall k :: k in records ==> c.placeOf(k) != StaleHeads) ==> r.staleHeads == c.noItems)
  {
    var r := Applied(c, f, ParseAll(c, records, keys).value, unpolled);
    forall n ensures n in r.named <==> exists k :: k in records && c.placeOf(k) == Record(n) {
      if exists k :: k in keys && c.placeOf(k) == Record(n) {
        var i := SomeLast(c, keys, Record(n));
        LastIsParsed(c, records, keys, Record(n), i);
      } else {
        NothingElseIsParsed(c, records, keys, Record(n));
      }
    }
    forall n, i: nat | LastAt(c, keys, Record(n), i) ensures c.toNamed(records[keys[i]]) == Some(r.named[n]) {
      LastIsParsed(c, records, keys, Record(n), i);
    }
    ListsAfter(c, records, keys);
  }

  lemma {:induction false} ListsAfter<V, C, L>(c: Codec<V, C, L>, records: Records, keys: seq<string>)
    requires Enumerates(keys, records) && ParseAll(c, records, keys).Some?
    ensures var p := ParseAll(c, records, keys).value;
            && (forall i: nat :: LastAt(c, keys, Orphans, i) ==> c.toItems(records[keys[i]]) == Some(p.orphans))
            && (forall i: nat :: LastAt(c, keys, StaleHeads, i) ==> c.toItems(records[keys[i]]) == Some(p.staleHeads))
            && ((forall k :: k in records ==> c.placeOf(k) != Orphans) ==> p.orphans == c.noItems)
            && ((forall k :: k in records ==> c.placeOf(k) != StaleHeads) ==> p.staleHeads == c.noItems)
  {
    var p := ParseAll(c, records, keys).value;
    forall i: nat | LastAt(c, keys, Orphans, i) ensures c.toItems(records[keys[i]]) == Some(p.orphans) {
      LastIsParsed(c, records, keys, Orphans, i);
    }
    forall i: nat | LastAt(c, keys, StaleHeads, i) ensures c.toItems(records[keys[i]]) == Some(p.staleHeads) {
      LastIsParsed(c, records, keys, StaleHeads, i);
    }
    if forall k :: k in records ==> c.placeOf(k) != Orphans { NothingElseIsParsed(c, records, keys, Orphans); }
    if forall k :: k in records ==> c.placeOf(k) != StaleHeads { NothingElseIsParsed(c, records, keys, StaleHeads); }
  }

  lemma {:induction false} SomeLast<V, C, L>(c: Codec<V, C, L>, keys: seq<string>, q: Place) returns (i: nat)
    requires exists k :: k in keys && c.placeOf(k) == q
    ensures LastAt(c, keys, q, i)
  {
    i := |keys| - 1;
    if c.placeOf(keys[i]) != q {
      var init := keys[..i];
      assert forall x :: x in keys ==> x in init || x == keys[|keys| - 1];
      i := SomeLast(c, init, q);
    }
  }

  /** The node of a name after: the instance's own as it was, a registered one as the last of its records says. */
  lemma {:induction false} NodeAfter<V, C, L, S>(
    c: Codec<V, C, L>, f: State<V, C, L, S>, records: Records, keys: seq<string>, unpolled: S, n: string)
    requires Enumerates(keys, records) && ParseAll(c, records, keys).Some?
    ensures var nodes := Applied(c, f, ParseAll(c, records, keys).value, unpolled).nodes;
            && (Own(f.nodes, n) ==> n in nodes && nodes[n] == f.nodes[n])
            && (!Own(f.nodes, n) ==>
                  && (n in nodes <==> exists k :: k in records && NamesNode(c, k, records[k], n))
                  && (n in nodes ==> nodes[n].source == Registered
                                     && nodes[n].status == if n in f.nodes then f.nodes[n].status else unpolled)
                  && (forall i: nat :: LastNode(c, records, keys, n, i) ==>
                        n in nodes && c.toConfig(records[keys[i]]) == Some(nodes[n].config)))
  {
    var registered := ParseAll(c, records, keys).value.registered;
    var retained := Retained(f.nodes, Names(c, registered));
    MergeAt(c, retained, registered, unpolled, n);
    NamesAre(c, records, keys, n);
    if !Own(f.nodes, n) {
      forall i: nat | LastNode(c, records, keys, n, i)
        ensures var nodes := Merge(c, retained, registered, unpolled);
                n in nodes && c.toConfig(records[keys[i]]) == Some(nodes[n].config)
      {
        var at := LastIsRegistered(c, records, keys, n, i);
        LastIsMerged(c, retained, registered, unpolled, at);
      }
    }
  }
}
