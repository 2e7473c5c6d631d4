/**
  The durable records of an instance's state and how a store's records replace them
  (src/store.rs, `records_of` and `apply_records`). What a record says inside is opaque: a codec
  gives its JSON text and reads it back. The five maps of named records are one map by kind and name.
*/
module FederationState {
  import opened Wrappers
  import opened Records

  datatype Kind = Volumes | Snapshots | GroupSnapshots | Backups | VmMigrations

  datatype Named = Named(kind: Kind, name: string)

  datatype NodeSource = Static | Registered | Adopted | Member

  datatype Node<C, S> = Node(config: C, source: NodeSource, status: S)

  /** Which record a key is of; several keys can be of one record, and `Elsewhere` is passed over. */
  datatype Place = Record(named: Named) | NodeNamed(name: string) | Orphans | StaleHeads | Elsewhere

  /** JSON of named records, node configs and the two lists (`noItems` is an empty one), and the keys. */
  datatype Codec<!V, !C, !L> = Codec(
    named: V -> string, toNamed: string -> Option<V>,
    config: C -> string, toConfig: string -> Option<C>, nameOf: C -> string,
    items: L -> string, toItems: string -> Option<L>, noItems: L,
    keyOf: Place -> string, placeOf: string -> Place)

  /** What is written is read back, also where it is filed. */
  ghost predicate Faithful<V(!new), C(!new), L(!new)>(c: Codec<V, C, L>) {
    && (forall v :: c.toNamed(c.named(v)) == Some(v))
    && (forall v :: c.toConfig(c.config(v)) == Some(v))
    && (forall v :: c.toItems(c.items(v)) == Some(v))
    && (forall p :: p != Elsewhere ==> c.placeOf(c.keyOf(p)) == p)
  }

  datatype State<V, C, L, S> = State(
    named: map<Named, V>, nodes: map<string, Node<C, S>>, orphans: L, staleHeads: L)

  // -------------------------------------------------------- the store's keys

  function KindText(k: Kind): string {
    match k
    case Volumes => "volumes"
    case Snapshots => "snapshots"
    case GroupSnapshots => "group_snapshots"
    case Backups => "backups"
    case VmMigrations => "vm_migrations"
  }

  function KeyOf(p: Place): string {
    match p
    case Record(n) => KindText(n.kind) + "/" + n.name
    case NodeNamed(name) => "nodes" + "/" + name
    case Orphans => "orphans"
    case StaleHeads => "stale_heads"
    case Elsewhere => ""
  }

  /** What is before the first slash and what is after it; a key without one has no second part. */
  function SplitOnce(k: string): (string, string) {
    if k == "" then ("", "")
    else if k[0] == '/' then ("", k[1..])
    else (k[..1] + SplitOnce(k[1..]).0, SplitOnce(k[1..]).1)
  }

  function KindOf(s: string): Option<Kind> {
    if s == "volumes" then Some(Volumes)
    else if s == "snapshots" then Some(Snapshots)
    else if s == "group_snapshots" then Some(GroupSnapshots)
    else if s == "backups" then Some(Backups)
    else if s == "vm_migrations" then Some(VmMigrations)
    else None
  }

  function PlaceOf(k: string): Place {
    var (kind, name) := SplitOnce(k);
    if KindOf(kind).Some? then Record(Named(KindOf(kind).value, name))
    else if kind == "nodes" then NodeNamed(name)
    else if kind == "orphans" then Orphans
    else if kind == "stale_heads" then StaleHeads
    else Elsewhere
  }

  lemma {:induction false} KindReadBack(k: Kind)
    ensures KindOf(KindText(k)) == Some(k) && '/' !in KindText(k)
  {
    assert "backups"[0] != "volumes"[0];
  }

  lemma {:induction false} OthersAreNoKind()
    ensures KindOf("nodes").None? && KindOf("orphans").None? && KindOf("stale_heads").None?
  {
    assert "orphans"[0] != "volumes"[0] && "orphans"[0] != "backups"[0];
  }

  lemma {:induction false} SplitJoined(kind: string, name: string)
    requires '/' !in kind
    ensures SplitOnce(kind + "/" + name) == (kind, name)
    ensures SplitOnce(kind) == (kind, "")
  {
    var k := kind + "/" + name;
    if kind == "" {
      assert k[1..] == name;
    } else {
      assert k[1..] == kind[1..] + "/" + name;
      SplitJoined(kind[1..], name);
      assert k[..1] + kind[1..] == kind && kind[..1] + kind[1..] == kind;
    }
  }

  /** The store's keys are read back, whatever the names: a slash in a name stays in the name. */
  lemma {:induction false} StoreKeysReadBack(p: Place)
    requires p != Elsewhere
    ensures PlaceOf(KeyOf(p)) == p
  {
    OthersAreNoKind();
    match p
    case Record(n) =>
      KindReadBack(n.kind);
      SplitJoined(KindText(n.kind), n.name);
    case NodeNamed(name) => SplitJoined("nodes", name);
    case Orphans => SplitJoined("orphans", "");
    case StaleHeads => SplitJoined("stale_heads", "");
  }

  /** So the store's keys, with any JSON that reads back, make a faithful codec. */
  lemma {:induction false} StoreCodecIsFaithful<V(!new), C(!new), L(!new)>(c: Codec<V, C, L>)
    requires forall v :: c.toNamed(c.named(v)) == Some(v)
    requires forall v :: c.toConfig(c.config(v)) == Some(v)
    requires forall v :: c.toItems(c.items(v)) == Some(v)
    ensures Faithful(AsStored(c))
  {
    forall p | p != Elsewhere ensures PlaceOf(KeyOf(p)) == p { StoreKeysReadBack(p); }
  }

  // --------------------------------------------------------------- records

  predicate IsRegistered<C, S>(nodes: map<string, Node<C, S>>, n: string) {
    n in nodes && nodes[n].source == Registered
  }

  /** What the state has a record of. */
  function Places<V, C, L, S>(f: State<V, C, L, S>): set<Place> {
    (set n | n in f.named :: Record(n)) + (set n | n in f.nodes && IsRegistered(f.nodes, n) :: NodeNamed(n))
    + {Orphans, StaleHeads}
  }

  function RecordAt<V, C, L, S>(c: Codec<V, C, L>, f: State<V, C, L, S>, p: Place): string
    requires p in Places(f)
  {
    match p
    case Record(n) => c.named(f.named[n])
    case NodeNamed(n) => c.config(f.nodes[n].config)
    case Orphans => c.items(f.orphans)
    case StaleHeads => c.items(f.staleHeads)
  }

  function RecordsOf<V, C, L, S>(c: Codec<V, C, L>, f: State<V, C, L, S>): Records {
    var keys := set p | p in Places(f) :: c.keyOf(p);
    map k | k in keys && c.placeOf(k) in Places(f) :: RecordAt(c, f, c.placeOf(k))
  }

  // -------------------------------------------------------------- applying

  datatype Parsed<V, C, L> = Parsed(named: map<Named, V>, registered: seq<C>, orphans: L, staleHeads: L)

  /** One record taken in; a key of no known kind is passed over, a text that does not parse is an error. */
  function ParseOne<V, C, L>(c: Codec<V, C, L>, p: Parsed<V, C, L>, k: string, text: string): Option<Parsed<V, C, L>> {
    match c.placeOf(k)
    case Record(n) =>
      (match c.toNamed(text) case Some(v) => Some(p.(named := p.named[n := v])) case None => None)
    case NodeNamed(_) =>
      (match c.toConfig(text) case Some(v) => Some(p.(registered := p.registered + [v])) case None => None)
    case Orphans =>
      (match c.toItems(text) case Some(v) => Some(p.(orphans := v)) case None => None)
    case StaleHeads =>
      (match c.toItems(text) case Some(v) => Some(p.(staleHeads := v)) case None => None)
    case Elsewhere => Some(p)
  }

  function ParseAll<V, C, L>(c: Codec<V, C, L>, records: Records, keys: seq<string>): Option<Parsed<V, C, L>>
    requires forall k :: k in keys ==> k in records
  {
    if keys == [] then Some(Parsed(map[], [], c.noItems, c.noItems))
    else
      var k := keys[|keys| - 1];
      match ParseAll(c, records, keys[..|keys| - 1])
      case None => None
      case Some(p) => ParseOne(c, p, k, records[k])
  }

  function Names<V, C, L>(c: Codec<V, C, L>, registered: seq<C>): set<string> {
    set i | 0 <= i < |registered| :: c.nameOf(registered[i])
  }

  /** Registered nodes the store no longer names go; the instance's own stay. */
  function Retained<C, S>(nodes: map<string, Node<C, S>>, names: set<string>): map<string, Node<C, S>> {
    map n | n in nodes && (nodes[n].source != Registered || n in names) :: nodes[n]
  }

  function MergeOne<V, C, L, S>(
    c: Codec<V, C, L>, nodes: map<string, Node<C, S>>, config: C, unpolled: S): map<string, Node<C, S>> {
    var n := c.nameOf(config);
    if n !in nodes then nodes[n := Node(config, Registered, unpolled)]
    else if nodes[n].source == Registered then nodes[n := nodes[n].(config := config)]
    else nodes
  }

  function Merge<V, C, L, S>(
    c: Codec<V, C, L>, nodes: map<string, Node<C, S>>, registered: seq<C>, unpolled: S): map<string, Node<C, S>> {
    if registered == [] then nodes
    else MergeOne(c, Merge(c, nodes, registered[..|registered| - 1], unpolled), registered[|registered| - 1], unpolled)
  }

  function Applied<V, C, L, S>(
    c: Codec<V, C, L>, f: State<V, C, L, S>, p: Parsed<V, C, L>, unpolled: S): State<V, C, L, S> {
    State(p.named, Merge(c, Retained(f.nodes, Names(c, p.registered)), p.registered, unpolled), p.orphans, p.staleHeads)
  }

  class Federation<V, C, L, S> {
    var named: map<Named, V>
    var nodes: map<string, Node<C, S>>
    var orphans: L
    var staleHeads: L

    constructor (named: map<Named, V>, nodes: map<string, Node<C, S>>, orphans: L, staleHeads: L)
      ensures Value() == State(named, nodes, orphans, staleHeads)
    {
      this.named, this.nodes, this.orphans, this.staleHeads := named, nodes, orphans, staleHeads;
    }

    function Value(): State<V, C, L, S>
      reads this
    {
      State(named, nodes, orphans, staleHeads)
    }

    /**
      Replace the durable records, all or, when one does not parse, none. `keys` is the order of the
      records, `unpolled` the poll status of a node not seen before.
    */
    method ApplyRecords(c: Codec<V, C, L>, records: Records, keys: seq<string>, unpolled: S) returns (ok: bool)
      requires Enumerates(keys, records)
      modifies this
      ensures ok <==> ParseAll(c, records, keys).Some?
      ensures ok ==> Value() == Applied(c, old(Value()), ParseAll(c, records, keys).value, unpolled)
      ensures !ok ==> Value() == old(Value())
    {
      var parsed := Parse(c, records, keys);
      if parsed.None? {
        return false;
      }
      var next := parsed.value;
      named, orphans, staleHeads := next.named, next.orphans, next.staleHeads;
      nodes := Retained(nodes, Names(c, next.registered));
      ghost var retained := nodes;
      var i := 0;
      while i < |next.registered|
        invariant 0 <= i <= |next.registered|
        invariant nodes == Merge(c, retained, next.registered[..i], unpolled)
        invariant named == next.named && orphans == next.orphans && staleHeads == next.staleHeads
      {
        assert next.registered[..i + 1][..i] == next.registered[..i];
        nodes := MergeOne(c, nodes, next.registered[i], unpolled);
        i := i + 1;
      }
      assert next.registered[..|next.registered|] == next.registered;
      ok := true;
    }
  }

  method Parse<V, C, L>(
    c: Codec<V, C, L>, records: Records, keys: seq<string>) returns (parsed: Option<Parsed<V, C, L>>)
    requires forall k :: k in keys ==> k in records
    ensures parsed == ParseAll(c, records, keys)
  {
    var next := Parsed(map[], [], c.noItems, c.noItems);
    var i := 0;
    while i < |keys|
      invariant 0 <= i <= |keys|
      invariant ParseAll(c, records, keys[..i]) == Some(next)
    {
      assert keys[..i + 1][..i] == keys[..i];
      var one := ParseOne(c, next, keys[i], records[keys[i]]);
      if one.None? {
        BadStaysBad(c, records, keys, i + 1);
        return None;
      }
      next := one.value;
      i := i + 1;
    }
    assert keys[..|keys|] == keys;
    parsed := Some(next);
  }

  lemma {:induction false} BadStaysBad<V, C, L>(c: Codec<V, C, L>, records: Records, keys: seq<string>, i: nat)
    requires i <= |keys| && (forall k :: k in keys ==> k in records)
    requires ParseAll(c, records, keys[..i]).None?
    ensures ParseAll(c, records, keys).None?
    decreases |keys| - i
  {
    if i < |keys| {
      assert keys[..i + 1][..i] == keys[..i];
      BadStaysBad(c, records, keys, i + 1);
    } else {
      assert keys[..i] == keys;
    }
  }

  // ------------------------------------------------------------ properties

  /** Every node is held under the name its config says. */
  ghost predicate WellNamed<V, C, L, S>(c: Codec<V, C, L>, f: State<V, C, L, S>) {
    forall n :: n in f.nodes ==> c.nameOf(f.nodes[n].config) == n
  }

  /** The nodes after a merge, one by one: the instance's own as they were, polled status kept. */
  lemma {:induction false} MergeAt<V, C, L, S>(
    c: Codec<V, C, L>, nodes: map<string, Node<C, S>>, registered: seq<C>, unpolled: S, n: string)
    ensures var m := Merge(c, nodes, registered, unpolled);
            && (n in m <==> n in nodes || n in Names(c, registered))
            && (n in nodes ==> m[n].source == nodes[n].source && m[n].status == nodes[n].status)
            && (n in nodes && nodes[n].source != Registered ==> m[n] == nodes[n])
            && (n in nodes && n !in Names(c, registered) ==> m[n] == nodes[n])
            && (n !in nodes && n in m ==> m[n].source == Registered && m[n].status == unpolled)
            && (n in Names(c, registered) && !(n in nodes && nodes[n].source != Registered) ==>
                  m[n].config in registered && c.nameOf(m[n].config) == n)
  {
    if registered != [] {
      var init, last := registered[..|registered| - 1], registered[|registered| - 1];
      MergeAt(c, nodes, init, unpolled, n);
      assert Names(c, registered) == Names(c, init) + {c.nameOf(last)} by {
        assert registered == init + [last];
        forall i | 0 <= i < |init| ensures registered[i] == init[i] {}
        forall x | x in Names(c, init) ensures x in Names(c, registered) {
          var i :| 0 <= i < |init| && x == c.nameOf(init[i]);
          assert registered[i] == init[i];
        }
        assert registered[|init|] == last;
      }
    }
  }

  /** What parsing the records of `g` under keys of these places has gathered. */
  ghost predicate Gathered<V, C, L, S>(
    c: Codec<V, C, L>, g: State<V, C, L, S>, places: set<Place>, p: Parsed<V, C, L>) {
    && p.named == (map n | n in g.named && Record(n) in places :: g.named[n])
    && (forall x :: x in p.registered ==>
          var n := c.nameOf(x); IsRegistered(g.nodes, n) && NodeNamed(n) in places && g.nodes[n].config == x)
    && (forall n :: IsRegistered(g.nodes, n) && NodeNamed(n) in places ==> g.nodes[n].config in p.registered)
    && p.orphans == (if Orphans in places then g.orphans else c.noItems)
    && p.staleHeads == (if StaleHeads in places then g.staleHeads else c.noItems)
  }

  /** A key of the records names its place, and the other way round. */
  lemma {:induction false} KeyOfPlace<V(!new), C(!new), L(!new), S>(c: Codec<V, C, L>, g: State<V, C, L, S>, k: string)
    requires Faithful(c)
    ensures k in RecordsOf(c, g) <==> c.placeOf(k) in Places(g) && c.keyOf(c.placeOf(k)) == k
  {
  }

  lemma {:induction false} GatherOne<V(!new), C(!new), L(!new), S>(
    c: Codec<V, C, L>, g: State<V, C, L, S>, places: set<Place>, p: Parsed<V, C, L>, q: Place, k: string)
    requires Faithful(c) && WellNamed(c, g) && Gathered(c, g, places, p)
    requires q in Places(g) && c.placeOf(k) == q
    ensures var r := ParseOne(c, p, k, RecordAt(c, g, q)); r.Some? && Gathered(c, g, places + {q}, r.value)
  {
    match q
    case Record(n) =>
    case NodeNamed(n) =>
      var x := g.nodes[n].config;
      var r := p.registered + [x];
      forall y | y in r ensures y == x || y in p.registered {}
      forall y | y == x || y in p.registered ensures y in r { if y == x { assert r[|p.registered|] == y; } }
    case Orphans =>
    case StaleHeads =>
  }

  lemma {:induction false} ParseOwn<V(!new), C(!new), L(!new), S>(
    c: Codec<V, C, L>, g: State<V, C, L, S>, keys: seq<string>) returns (places: set<Place>)
    requires Faithful(c) && WellNamed(c, g)
    requires forall k :: k in keys ==> k in RecordsOf(c, g)
    ensures places == set k | k in keys :: c.placeOf(k)
    ensures var p := ParseAll(c, RecordsOf(c, g), keys); p.Some? && Gathered(c, g, places, p.value)
  {
    if keys == [] {
      places := {};
    } else {
      var init, k := keys[..|keys| - 1], keys[|keys| - 1];
      places := ParseOwn(c, g, init);
      KeyOfPlace(c, g, k);
      GatherOne(c, g, places, ParseAll(c, RecordsOf(c, g), init).value, c.placeOf(k), k);
      assert forall x :: x in keys <==> x in init || x == k;
      places := places + {c.placeOf(k)};
    }
  }

  /** No registered node of `g` is one this instance holds from another source. */
  ghost predicate NoClash<V, C, L, S>(f: State<V, C, L, S>, g: State<V, C, L, S>) {
    forall n :: IsRegistered(g.nodes, n) ==> !(n in f.nodes && f.nodes[n].source != Registered)
  }

  /**
    An instance that applies the records of `g` holds them, whatever the names: it would itself write
    exactly these records, if and only if none of `g`'s registered nodes is one of its own.
  */
  lemma {:induction false} AppliedRecordsAreHeld<V(!new), C(!new), L(!new), S>(
    c: Codec<V, C, L>, f: State<V, C, L, S>, g: State<V, C, L, S>, keys: seq<string>, unpolled: S)
    requires Faithful(c) && WellNamed(c, f) && WellNamed(c, g) && Enumerates(keys, RecordsOf(c, g))
    ensures var p := ParseAll(c, RecordsOf(c, g), keys);
            p.Some? && (RecordsOf(c, Applied(c, f, p.value, unpolled)) == RecordsOf(c, g) <==> NoClash(f, g))
  {
    AppliedValue(c, f, g, keys, unpolled);
    var r := Applied(c, f, ParseAll(c, RecordsOf(c, g), keys).value, unpolled);
    if NoClash(f, g) {
      SamePlaces(c, f, g, r, unpolled);
    } else {
      var n :| IsRegistered(g.nodes, n) && n in f.nodes && f.nodes[n].source != Registered;
      assert MergedAs(f, g, r, unpolled, n);
      NodeMissing(c, g, r, n);
    }
  }

  /** The codec with the store's own keys. */
  function AsStored<V, C, L>(c: Codec<V, C, L>): Codec<V, C, L> {
    c.(keyOf := p => KeyOf(p), placeOf := k => PlaceOf(k))
  }

  /** So it is for the store's own keys, with any JSON that reads back. */
  lemma {:induction false} StoredRecordsAreHeld<V(!new), C(!new), L(!new), S>(
    json: Codec<V, C, L>, f: State<V, C, L, S>, g: State<V, C, L, S>, keys: seq<string>, unpolled: S)
    requires forall v :: json.toNamed(json.named(v)) == Some(v)
    requires forall v :: json.toConfig(json.config(v)) == Some(v)
    requires forall v :: json.toItems(json.items(v)) == Some(v)
    requires WellNamed(json, f) && WellNamed(json, g) && Enumerates(keys, RecordsOf(AsStored(json), g))
    ensures var c := AsStored(json);
            var p := ParseAll(c, RecordsOf(c, g), keys);
            p.Some? && (RecordsOf(c, Applied(c, f, p.value, unpolled)) == RecordsOf(c, g) <==> NoClash(f, g))
  {
    StoreCodecIsFaithful(json);
    AppliedRecordsAreHeld(AsStored(json), f, g, keys, unpolled);
  }

  lemma {:induction false} NodeMissing<V(
    !new), C(!new), L(!new), S>(c: Codec<V, C, L>, g: State<V, C, L, S>, r: State<V, C, L, S>, n: string)
    requires Faithful(c) && IsRegistered(g.nodes, n) && !IsRegistered(r.nodes, n)
    ensures RecordsOf(c, r) != RecordsOf(c, g)
  {
    KeyOfPlace(c, g, c.keyOf(NodeNamed(n)));
    KeyOfPlace(c, r, c.keyOf(NodeNamed(n)));
  }

  lemma {:induction false} SamePlaces<V(!new), C(!new), L(!new), S>(
    c: Codec<V, C, L>, f: State<V, C, L, S>, g: State<V, C, L, S>, r: State<V, C, L, S>, unpolled: S)
    requires Faithful(c) && NoClash(f, g)
    requires r.named == g.named && r.orphans == g.orphans && r.staleHeads == g.staleHeads
    requires forall n :: MergedAs(f, g, r, unpolled, n)
    ensures RecordsOf(c, r) == RecordsOf(c, g)
  {
    forall n ensures IsRegistered(r.nodes, n) <==> IsRegistered(g.nodes, n) { assert MergedAs(f, g, r, unpolled, n); }
    assert Places(r) == Places(g);
    forall q | q in Places(g) ensures RecordAt(c, r, q) == RecordAt(c, g, q) {
      if q.NodeNamed? { assert MergedAs(f, g, r, unpolled, q.name); }
    }
  }

  /** The state after: `g`'s records, the instance's own nodes, and the status of every node that stays. */
  lemma {:induction false} AppliedValue<V(!new), C(!new), L(!new), S>(
    c: Codec<V, C, L>, f: State<V, C, L, S>, g: State<V, C, L, S>, keys: seq<string>, unpolled: S)
    requires Faithful(c) && WellNamed(c, f) && WellNamed(c, g) && Enumerates(keys, RecordsOf(c, g))
    ensures var p := ParseAll(c, RecordsOf(c, g), keys);
            p.Some? &&
            var r := Applied(c, f, p.value, unpolled);
            && r.named == g.named && r.orphans == g.orphans && r.staleHeads == g.staleHeads
            && (forall n :: MergedAs(f, g, r, unpolled, n))
  {
    var p := ParseWhole(c, g, keys);
    forall n ensures MergedAs(f, g, Applied(c, f, p, unpolled), unpolled, n) {
      MergedNode(c, f, g, p, unpolled, n);
    }
  }

  lemma {:induction false} ParseWhole<V(!new), C(!new), L(!new), S>(
    c: Codec<V, C, L>, g: State<V, C, L, S>, keys: seq<string>) returns (p: Parsed<V, C, L>)
    requires Faithful(c) && WellNamed(c, g) && (forall k :: k in keys <==> k in RecordsOf(c, g))
    ensures ParseAll(c, RecordsOf(c, g), keys) == Some(p) && Gathered(c, g, Places(g), p)
    ensures p.named == g.named && p.orphans == g.orphans && p.staleHeads == g.staleHeads
  {
    var places := ParseOwn(c, g, keys);
    PlacesOfKeys(c, g, keys, places);
    p := ParseAll(c, RecordsOf(c, g), keys).value;
    GatheredWhole(c, g, p);
  }

  lemma {:induction false} GatheredWhole<V, C, L, S>(c: Codec<V, C, L>, g: State<V, C, L, S>, p: Parsed<V, C, L>)
    requires Gathered(c, g, Places(g), p)
    ensures p.named == g.named && p.orphans == g.orphans && p.staleHeads == g.staleHeads
  {
    assert forall n :: n in g.named ==> Record(n) in Places(g);
  }

  lemma {:induction false} MergedNode<V, C, L, S>(
    c: Codec<V, C, L>, f: State<V, C, L, S>, g: State<V, C, L, S>, p: Parsed<V, C, L>, unpolled: S, n: string)
    requires WellNamed(c, g) && Gathered(c, g, Places(g), p)
    ensures MergedAs(f, g, Applied(c, f, p, unpolled), unpolled, n)
  {
    NamesGathered(c, g, Places(g), p);
    MergeAt(c, Retained(f.nodes, Names(c, p.registered)), p.registered, unpolled, n);
  }

  lemma {:induction false} PlacesOfKeys<V(
    !new), C(!new), L(!new), S>(c: Codec<V, C, L>, g: State<V, C, L, S>, keys: seq<string>, places: set<Place>)
    requires Faithful(c) && (forall k :: k in keys <==> k in RecordsOf(c, g))
    requires places == set k | k in keys :: c.placeOf(k)
    ensures places == Places(g)
  {
    forall q | q in Places(g) ensures q in places {
      KeyOfPlace(c, g, c.keyOf(q));
      assert c.keyOf(q) in keys;
    }
    forall k | k in keys ensures c.placeOf(k) in Places(g) { KeyOfPlace(c, g, k); }
  }

  lemma {:induction false} NamesGathered<V, C, L, S>(
    c: Codec<V, C, L>, g: State<V, C, L, S>, places: set<Place>, p: Parsed<V, C, L>)
    requires WellNamed(c, g) && Gathered(c, g, places, p) && places == Places(g)
    ensures forall n :: n in Names(c, p.registered) <==> IsRegistered(g.nodes, n)
  {
    forall n | IsRegistered(g.nodes, n) ensures n in Names(c, p.registered) {
      assert NodeNamed(n) in places;
      var i :| 0 <= i < |p.registered| && p.registered[i] == g.nodes[n].config;
      assert c.nameOf(p.registered[i]) == n;
    }
  }

  /** What became of the node named `n`: its own source and status kept, registered as the store says. */
  ghost predicate MergedAs<V, C, L, S>(
    f: State<V, C, L, S>, g: State<V, C, L, S>, r: State<V, C, L, S>, unpolled: S, n: string) {
    && (n in f.nodes && f.nodes[n].source != Registered ==> n in r.nodes && r.nodes[n] == f.nodes[n])
    && (IsRegistered(r.nodes, n) <==> IsRegistered(g.nodes, n) && !(n in f.nodes && f.nodes[n].source != Registered))
    && (IsRegistered(r.nodes, n) ==>
          && r.nodes[n].config == g.nodes[n].config
          && r.nodes[n].status == if n in f.nodes then f.nodes[n].status else unpolled)
  }
}
