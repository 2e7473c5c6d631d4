/**
  The store's records as a map from key to JSON text, and the change list
  between two such maps (src/store.rs, `Op`, `diff`, and the chunks `sync` sends).
*/
module Records {

  type Records = map<string, string>

  datatype Op = Put(key: string, value: string) | Delete(key: string)

  /** What one operation does to the records. */
  function Apply(m: Records, op: Op): Records {
    match op
    case Put(k, v) => m[k := v]
    case Delete(k) => m - {k}
  }

  /** What a transaction with these operations does, in order. */
  function ApplyAll(m: Records, ops: seq<Op>): Records {
    if ops == [] then m else Apply(ApplyAll(m, ops[..|ops| - 1]), ops[|ops| - 1])
  }

  function Keys(ops: seq<Op>): set<string> {
    set i | 0 <= i < |ops| :: ops[i].key
  }

  /** `keys` lists the keys of `m` once each. A sorted map is iterated in one such order. */
  ghost predicate Enumerates(keys: seq<string>, m: Records) {
    && (forall k :: k in keys <==> k in m)
    && (forall i, j :: 0 <= i < j < |keys| ==> keys[i] != keys[j])
  }

  /** The keys in `after` that `before` does not hold with the same value, as puts. */
  function Puts(before: Records, after: Records, afterKeys: seq<string>): seq<Op>
    requires forall k :: k in afterKeys ==> k in after
  {
    if afterKeys == [] then []
    else
      var k := afterKeys[|afterKeys| - 1];
      var rest := Puts(before, after, afterKeys[..|afterKeys| - 1]);
      if k in before && before[k] == after[k] then rest else rest + [Put(k, after[k])]
  }

  /** The keys of `before` that `after` lacks, as deletes. */
  function Deletes(after: Records, beforeKeys: seq<string>): seq<Op> {
    if beforeKeys == [] then []
    else
      var k := beforeKeys[|beforeKeys| - 1];
      var rest := Deletes(after, beforeKeys[..|beforeKeys| - 1]);
      if k in after then rest else rest + [Delete(k)]
  }

  /** What turns `before` into `after`, for any order the two maps are iterated in. */
  function Diff(before: Records, after: Records, beforeKeys: seq<string>, afterKeys: seq<string>): seq<Op>
    requires forall k :: k in afterKeys ==> k in after
  {
    Puts(before, after, afterKeys) + Deletes(after, beforeKeys)
  }

  /** `Vec::chunks`: consecutive pieces of `n` operations, the last one shorter. */
  function Chunks(ops: seq<Op>, n: nat): seq<seq<Op>>
    requires n > 0
  {
    if ops == [] then []
    else if |ops| <= n then [ops]
    else [ops[..n]] + Chunks(ops[n..], n)
  }

  /** The records after the transactions of some chunks, one after the other. */
  function ApplyChunks(m: Records, chunks: seq<seq<Op>>): Records
    decreases |chunks|
  {
    if chunks == [] then m else ApplyChunks(ApplyAll(m, chunks[0]), chunks[1..])
  }

  /** The same entry, or none, under every key outside `u`. */
  ghost predicate AgreeOff(a: Records, b: Records, u: set<string>) {
    forall k :: k !in u ==> (k in a <==> k in b) && (k in a ==> a[k] == b[k])
  }

  ghost predicate DistinctKeys(ops: seq<Op>) {
    forall i, j :: 0 <= i < j < |ops| ==> ops[i].key != ops[j].key
  }

  // ---------------------------------------------------------------- lemmas

  lemma {:induction false} KeysConcat(a: seq<Op>, b: seq<Op>)
    ensures Keys(a + b) == Keys(a) + Keys(b)
  {
    var c := a + b;
    forall k | k in Keys(a) ensures k in Keys(c) {
      var i :| 0 <= i < |a| && a[i].key == k;
      assert c[i].key == k;
    }
    forall k | k in Keys(b) ensures k in Keys(c) {
      var i :| 0 <= i < |b| && b[i].key == k;
      assert c[|a| + i].key == k;
    }
  }

  lemma {:induction false} KeysOfLast(ops: seq<Op>)
    requires ops != []
    ensures Keys(ops) == Keys(ops[..|ops| - 1]) + {ops[|ops| - 1].key}
  {
    var init, last := ops[..|ops| - 1], [ops[|ops| - 1]];
    assert ops == init + last;
    KeysConcat(init, last);
    assert Keys(last) == {last[0].key};
  }

  /** A list of operations with distinct keys acts on each key on its own. */
  lemma {:induction false} ApplyAllAt(m: Records, ops: seq<Op>, i: nat)
    requires DistinctKeys(ops) && i < |ops|
    ensures match ops[i]
            case Put(k, v) => k in ApplyAll(m, ops) && ApplyAll(m, ops)[k] == v
            case Delete(k) => k !in ApplyAll(m, ops)
  {
    if i < |ops| - 1 {
      ApplyAllAt(m, ops[..|ops| - 1], i);
    }
  }

  /** Operations change no key but their own. */
  lemma {:induction false} ApplyAllFrame(m: Records, ops: seq<Op>)
    ensures AgreeOff(m, ApplyAll(m, ops), Keys(ops))
  {
    if ops != [] {
      ApplyAllFrame(m, ops[..|ops| - 1]);
      KeysOfLast(ops);
    }
  }

  /** Two maps that agree off `u` agree, after the same operations, off what of `u` these do not write. */
  lemma {:induction false} ApplyAllAgrees(a: Records, b: Records, u: set<string>, ops: seq<Op>)
    requires AgreeOff(a, b, u)
    ensures AgreeOff(ApplyAll(a, ops), ApplyAll(b, ops), u - Keys(ops))
  {
    if ops != [] {
      ApplyAllAgrees(a, b, u, ops[..|ops| - 1]);
      KeysOfLast(ops);
    }
  }

  lemma {:induction false} PutsShape(before: Records, after: Records, keys: seq<string>)
    requires forall k :: k in keys ==> k in after
    requires forall i, j :: 0 <= i < j < |keys| ==> keys[i] != keys[j]
    ensures var p := Puts(before, after, keys);
            && (forall i :: 0 <= i < |p| ==> p[i].Put? && p[i].key in keys && p[i].value == after[p[i].key])
            && DistinctKeys(p)
            && Keys(p) == set k | k in keys && !(k in before && before[k] == after[k])
  {
    if keys != [] {
      var init, k := keys[..|keys| - 1], keys[|keys| - 1];
      PutsShape(before, after, init);
      var q := Puts(before, after, keys);
      assert k !in init && (forall x :: x in keys <==> x == k || x in init);
      if !(k in before && before[k] == after[k]) { KeysOfLast(q); }
    }
  }

  lemma {:induction false} DeletesShape(after: Records, keys: seq<string>)
    requires forall i, j :: 0 <= i < j < |keys| ==> keys[i] != keys[j]
    ensures var d := Deletes(after, keys);
            && (forall i :: 0 <= i < |d| ==> d[i].Delete? && d[i].key in keys && d[i].key !in after)
            && DistinctKeys(d)
            && Keys(d) == set k | k in keys && k !in after
  {
    if keys != [] {
      var init, k := keys[..|keys| - 1], keys[|keys| - 1];
      DeletesShape(after, init);
      var e := Deletes(after, keys);
      assert k !in init && (forall x :: x in keys <==> x == k || x in init);
      if k !in after { KeysOfLast(e); }
    }
  }

  /**
    The change list is exact: applied to `before` it gives `after`, no key occurs in it twice,
    and it is empty exactly when the two are equal.
  */
  lemma {:induction false} DiffTurnsOldIntoNew(
    before: Records, after: Records, beforeKeys: seq<string>, afterKeys: seq<string>)
    requires Enumerates(beforeKeys, before) && Enumerates(afterKeys, after)
    ensures var ops := Diff(before, after, beforeKeys, afterKeys);
            && ApplyAll(before, ops) == after
            && DistinctKeys(ops)
            && (ops == [] <==> before == after)
  {
    var ops := Diff(before, after, beforeKeys, afterKeys);
    DiffShape(before, after, beforeKeys, afterKeys);
    forall k ensures EqualAt(ApplyAll(before, ops), after, k) {
      if k in Keys(ops) {
        var i :| 0 <= i < |ops| && ops[i].key == k;
        ApplyAllAt(before, ops, i);
      } else {
        ApplyAllFrame(before, ops);
      }
    }
    Extensional(ApplyAll(before, ops), after);
    if ops != [] { assert ops[0].key in Keys(ops); }
  }

  ghost predicate EqualAt(a: Records, b: Records, k: string) {
    (k in a <==> k in b) && (k in a ==> a[k] == b[k])
  }

  lemma {:induction false} Extensional(a: Records, b: Records)
    requires forall k :: EqualAt(a, b, k)
    ensures a == b
  {
    forall k ensures k in a <==> k in b { assert EqualAt(a, b, k); }
    forall k | k in a ensures a[k] == b[k] { assert EqualAt(a, b, k); }
  }

  lemma {:induction false} DiffShape(before: Records, after: Records, beforeKeys: seq<string>, afterKeys: seq<string>)
    requires Enumerates(beforeKeys, before) && Enumerates(afterKeys, after)
    ensures var ops := Diff(before, after, beforeKeys, afterKeys);
            && DistinctKeys(ops)
            && (forall i :: 0 <= i < |ops| ==>
                  match ops[i]
                  case Put(k, v) => k in after && v == after[k]
                  case Delete(k) => k !in after)
            && Keys(ops) == set k | k in before.Keys + after.Keys && !EqualAt(before, after, k)
  {
    PutsShape(before, after, afterKeys);
    DeletesShape(after, beforeKeys);
    KeysConcat(Puts(before, after, afterKeys), Deletes(after, beforeKeys));
  }

  lemma {:induction false} ApplyAllConcat(m: Records, a: seq<Op>, b: seq<Op>)
    ensures ApplyAll(m, a + b) == ApplyAll(ApplyAll(m, a), b)
  {
    if b == [] {
      assert a + b == a;
    } else {
      ApplyAllConcat(m, a, b[..|b| - 1]);
      assert (a + b)[..|a + b| - 1] == a + b[..|b| - 1];
    }
  }

  /** Sent in chunks, the operations have the same effect; and none is larger than the limit or empty. */
  lemma {:induction false} ChunkedApply(m: Records, ops: seq<Op>, n: nat)
    requires n > 0
    ensures ApplyChunks(m, Chunks(ops, n)) == ApplyAll(m, ops)
    ensures forall i :: 0 <= i < |Chunks(ops, n)| ==> 0 < |Chunks(ops, n)[i]| <= n
    decreases |ops|
  {
    if |ops| > n {
      ChunkedApply(ApplyAll(m, ops[..n]), ops[n..], n);
      ApplyAllConcat(m, ops[..n], ops[n..]);
      assert ops[..n] + ops[n..] == ops;
      assert Chunks(ops, n)[1..] == Chunks(ops[n..], n);
    } else if ops != [] {
      assert Chunks(ops, n)[1..] == [];
    }
  }
}
