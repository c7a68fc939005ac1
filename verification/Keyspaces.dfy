/** The four data keyspaces as one quad set. */
module Keyspaces {
  import opened ByteOrder
  import opened Quads
  import opened QuadKeys
  import opened Pebble

  /** The stored keys of one keyspace. */
  function KeysIn(kv: KV, prefix: byte): set<Bytes> {
    set k | k in kv && k != [] && k[0] == prefix
  }

  /** The keys a quad set has in a keyspace. */
  function Image(sp: Space, s: set<Quad>): set<Bytes> {
    set q | q in s :: KeyOf(sp, q)
  }

  predicate AllNulFree(s: set<Quad>) {
    forall q | q in s :: QuadNulFree(q)
  }

  /** Every data keyspace encodes exactly the quad set s. */
  ghost predicate Indexes(kv: KV, s: set<Quad>) {
    AllNulFree(s) && forall sp: Space :: KeysIn(kv, Prefix(sp)) == Image(sp, s)
  }

  function QuadKeySet(s: set<Quad>): set<Bytes> {
    set sp: Space, q | q in s :: KeyOf(sp, q)
  }

  /** kv with the keys of s set, values empty. */
  function Put(kv: KV, s: set<Quad>): KV {
    kv + Bare(QuadKeySet(s))
  }

  /** kv without the keys of s. */
  function Drop(kv: KV, s: set<Quad>): KV {
    kv - QuadKeySet(s)
  }

  predicate IsDataPrefix(b: byte) {
    SpaceOf(b).Some?
  }

  lemma KeyPrefix(sp: Space, q: Quad)
    ensures KeyOf(sp, q) != [] && KeyOf(sp, q)[0] == Prefix(sp) && SpaceOf(Prefix(sp)) == Some(sp)
  {}

  /** A key of the set that lies in a keyspace is the key of one of its quads there. */
  lemma QuadKeySetIn(s: set<Quad>, sp: Space)
    ensures forall k | k in QuadKeySet(s) :: k != [] && IsDataPrefix(k[0])
    ensures forall k | k in QuadKeySet(s) && k[0] == Prefix(sp) :: k in Image(sp, s)
    ensures Image(sp, s) <= QuadKeySet(s)
    ensures forall k | k in Image(sp, s) :: k != [] && k[0] == Prefix(sp)
  {
    forall k | k in QuadKeySet(s)
      ensures k != [] && IsDataPrefix(k[0]) && (k[0] == Prefix(sp) ==> k in Image(sp, s))
    {
      var sp', q :| q in s && KeyOf(sp', q) == k;
      KeyPrefix(sp', q);
      KeyPrefix(sp, q);
    }
  }

  lemma PutKeys(kv: KV, s: set<Quad>, sp: Space)
    ensures KeysIn(Put(kv, s), Prefix(sp)) == KeysIn(kv, Prefix(sp)) + Image(sp, s)
  {
    QuadKeySetIn(s, sp);
  }

  lemma DropKeys(kv: KV, s: set<Quad>, sp: Space)
    ensures KeysIn(Drop(kv, s), Prefix(sp)) == KeysIn(kv, Prefix(sp)) - Image(sp, s)
  {
    QuadKeySetIn(s, sp);
  }

  /** Writing and deleting quads leaves every other keyspace alone. */
  lemma OtherKeysKept(kv: KV, s: set<Quad>, k: Bytes)
    requires k == [] || !IsDataPrefix(k[0])
    ensures k in Put(kv, s) <==> k in kv
    ensures k in Drop(kv, s) <==> k in kv
    ensures k in kv ==> Put(kv, s)[k] == kv[k] && Drop(kv, s)[k] == kv[k]
  {
    QuadKeySetIn(s, SPO);
  }

  lemma ImageDifference(sp: Space, s: set<Quad>, t: set<Quad>)
    requires AllNulFree(s) && AllNulFree(t)
    ensures Image(sp, s - t) == Image(sp, s) - Image(sp, t)
  {
    forall k | k in Image(sp, s - t) ensures k in Image(sp, s) - Image(sp, t) {
      var q :| q in s - t && KeyOf(sp, q) == k;
      if k in Image(sp, t) {
        var r :| r in t && KeyOf(sp, r) == k;
        KeyInjective(sp, q, r);
      }
    }
  }

  /** Adds then removes on the keys is adds then removes on the set. */
  lemma IndexesAfter(kv: KV, s: set<Quad>, adds: set<Quad>, removes: set<Quad>)
    requires Indexes(kv, s) && AllNulFree(adds) && AllNulFree(removes)
    ensures Indexes(Drop(Put(kv, adds), removes), (s + adds) - removes)
  {
    var kv' := Drop(Put(kv, adds), removes);
    forall sp: Space ensures KeysIn(kv', Prefix(sp)) == Image(sp, (s + adds) - removes) {
      PutKeys(kv, adds, sp);
      DropKeys(Put(kv, adds), removes, sp);
      assert Image(sp, s + adds) == Image(sp, s) + Image(sp, adds);
      ImageDifference(sp, s + adds, removes);
    }
  }

  /** Changes outside the data keyspaces keep the index. */
  lemma IndexesFrame(kv: KV, kv': KV, s: set<Quad>)
    requires Indexes(kv, s)
    requires forall k: Bytes | k != [] && IsDataPrefix(k[0]) :: k in kv <==> k in kv'
    ensures Indexes(kv', s)
  {
    forall sp: Space ensures KeysIn(kv', Prefix(sp)) == Image(sp, s) {
      assert IsDataPrefix(Prefix(sp));
      assert KeysIn(kv', Prefix(sp)) == KeysIn(kv, Prefix(sp));
    }
  }

  /** A keyspace encodes at most one quad set. */
  lemma IndexesUnique(kv: KV, s: set<Quad>, t: set<Quad>)
    requires Indexes(kv, s) && Indexes(kv, t)
    ensures s == t
  {
    assert KeysIn(kv, Prefix(SPO)) == Image(SPO, s) == Image(SPO, t);
    forall q | q in s + t ensures q in s && q in t {
      KeyInImage(SPO, s, q);
      KeyInImage(SPO, t, q);
    }
  }

  /** Whose key is in a set's image is in the set. */
  lemma KeyInImage(sp: Space, s: set<Quad>, q: Quad)
    requires AllNulFree(s) && QuadNulFree(q)
    ensures KeyOf(sp, q) in Image(sp, s) <==> q in s
  {
    hide KeyOf, QuadNulFree;
    if KeyOf(sp, q) in Image(sp, s) {
      var r :| r in s && KeyOf(sp, r) == KeyOf(sp, q);
      KeyInjective(sp, q, r);
    }
  }

  lemma ImageAdd(sp: Space, s: set<Quad>, q: Quad)
    ensures Image(sp, s + {q}) == Image(sp, s) + {KeyOf(sp, q)}
  {
    hide KeyOf;
  }

  lemma {:induction false} ImageSize(sp: Space, s: set<Quad>)
    requires AllNulFree(s)
    ensures |Image(sp, s)| == |s|
  {
    if s == {} {
      assert Image(sp, s) == {};
    } else {
      var q :| q in s;
      var rest := s - {q};
      assert s == rest + {q};
      KeyInImage(sp, rest, q);
      hide KeyOf, QuadNulFree, Image;
      ImageSize(sp, rest);
      ImageAdd(sp, rest, q);
    }
  }

  // ---- the batch writes of one quad ----

  function PutOps(q: Quad): seq<BatchOp> {
    [Set(KeyOf(SPO, q), []), Set(KeyOf(POS, q), []), Set(KeyOf(OSP, q), []), Set(KeyOf(LSP, q), [])]
  }

  function DropOps(q: Quad): seq<BatchOp> {
    [Delete(KeyOf(SPO, q)), Delete(KeyOf(POS, q)), Delete(KeyOf(OSP, q)), Delete(KeyOf(LSP, q))]
  }

  lemma ApplyFour(kv: KV, a: BatchOp, b: BatchOp, c: BatchOp, d: BatchOp)
    ensures ApplyAll(kv, [a, b, c, d]) == Apply(Apply(Apply(Apply(kv, a), b), c), d)
  {
    assert [a, b, c, d] == [] + [a] + [b] + [c] + [d];
    ApplySnoc(kv, [], a);
    ApplySnoc(kv, [] + [a], b);
    ApplySnoc(kv, [] + [a] + [b], c);
    ApplySnoc(kv, [] + [a] + [b] + [c], d);
  }

  lemma ImageOne(q: Quad)
    ensures QuadKeySet({q}) == {KeyOf(SPO, q), KeyOf(POS, q), KeyOf(OSP, q), KeyOf(LSP, q)}
  {
    forall k | k in QuadKeySet({q}) ensures k in {KeyOf(SPO, q), KeyOf(POS, q), KeyOf(OSP, q), KeyOf(LSP, q)} {
      var sp, r :| r in {q} && KeyOf(sp, r) == k;
      match sp case SPO => case POS => case OSP => case LSP =>
    }
  }

  lemma SetFour(kv: KV, a: Bytes, b: Bytes, c: Bytes, d: Bytes, s: set<Bytes>)
    requires s == {a, b, c, d}
    ensures kv[a := []][b := []][c := []][d := []] == kv + Bare(s)
  {}

  lemma ApplyPutOps(kv: KV, q: Quad)
    ensures ApplyAll(kv, PutOps(q)) == Put(kv, {q})
  {
    var a, b, c, d := KeyOf(SPO, q), KeyOf(POS, q), KeyOf(OSP, q), KeyOf(LSP, q);
    ApplyFour(kv, Set(a, []), Set(b, []), Set(c, []), Set(d, []));
    ImageOne(q);
    SetFour(kv, a, b, c, d, QuadKeySet({q}));
  }

  lemma ApplyDropOps(kv: KV, q: Quad)
    ensures ApplyAll(kv, DropOps(q)) == Drop(kv, {q})
  {
    var a, b, c, d := KeyOf(SPO, q), KeyOf(POS, q), KeyOf(OSP, q), KeyOf(LSP, q);
    ApplyFour(kv, Delete(a), Delete(b), Delete(c), Delete(d));
    ImageOne(q);
    assert kv - {a} - {b} - {c} - {d} == kv - {a, b, c, d};
  }

  lemma QuadKeySetUnion(s: set<Quad>, t: set<Quad>)
    ensures QuadKeySet(s + t) == QuadKeySet(s) + QuadKeySet(t)
  {
    forall k ensures k in QuadKeySet(s + t) <==> k in QuadKeySet(s) + QuadKeySet(t) {}
  }

  lemma BareTwice(kv: KV, a: set<Bytes>, b: set<Bytes>)
    ensures kv + Bare(a) + Bare(b) == kv + Bare(a + b)
  {}

  lemma PutPut(kv: KV, s: set<Quad>, t: set<Quad>)
    ensures Put(Put(kv, s), t) == Put(kv, s + t)
  {
    BareTwice(kv, QuadKeySet(s), QuadKeySet(t));
    QuadKeySetUnion(s, t);
  }

  lemma PutNone(kv: KV)
    ensures Put(kv, {}) == kv && Drop(kv, {}) == kv
  {
    assert QuadKeySet({}) == {};
  }

  lemma DropDrop(kv: KV, s: set<Quad>, t: set<Quad>)
    ensures Drop(Drop(kv, s), t) == Drop(kv, s + t)
  {
    QuadKeySetUnion(s, t);
  }

  /** Rows of other keyspaces, laid over the data. */
  predicate Elsewhere(rows: KV) {
    forall k | k in rows :: k != [] && !IsDataPrefix(k[0])
  }

  lemma PutUnderRows(kv: KV, rows: KV, s: set<Quad>)
    requires Elsewhere(rows)
    ensures Put(kv + rows, s) == Put(kv, s) + rows
  {
    QuadKeySetIn(s, SPO);
    hide QuadKeySet, IsDataPrefix;
  }

  lemma DropUnderRows(kv: KV, rows: KV, s: set<Quad>)
    requires Elsewhere(rows)
    ensures Drop(kv + rows, s) == Drop(kv, s) + rows
  {
    QuadKeySetIn(s, SPO);
  }
}
