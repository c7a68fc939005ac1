/** What the store uses of Pebble: an ordered map, atomic batches, iterators over snapshots, table ingest. */
module Pebble {
  import opened ByteOrder
  import opened CounterMerge

  type KV = map<Bytes, Bytes>

  datatype BatchOp =
    | Set(key: Bytes, value: Bytes)
    | Delete(key: Bytes)
    | DeleteRange(lo: Bytes, hi: Bytes)
    | Merge(key: Bytes, operand: Bytes)

  /** The stored value after a merge with the registered merger; None when the merger refuses it. */
  function MergedValue(kv: KV, key: Bytes, operand: Bytes): Option<Bytes> {
    if key in kv then Combine(kv[key], operand)
    else if |operand| == 8 then Some(operand) else None
  }

  function Apply(kv: KV, op: BatchOp): KV {
    match op
    case Set(k, v) => kv[k := v]
    case Delete(k) => kv - {k}
    case DeleteRange(lo, hi) => map k | k in kv && !InRange(k, lo, hi) :: kv[k]
    case Merge(k, v) =>
      match MergedValue(kv, k, v)
      case Some(sum) => kv[k := sum]
      case None => kv
  }

  /** A batch applied in order. */
  function ApplyAll(kv: KV, ops: seq<BatchOp>): KV {
    if ops == [] then kv else Apply(ApplyAll(kv, ops[..|ops| - 1]), ops[|ops| - 1])
  }

  lemma ApplySnoc(kv: KV, ops: seq<BatchOp>, op: BatchOp)
    ensures ApplyAll(kv, ops + [op]) == Apply(ApplyAll(kv, ops), op)
  {
    assert (ops + [op])[..|ops|] == ops;
  }

  lemma {:induction false} ApplyConcat(kv: KV, a: seq<BatchOp>, b: seq<BatchOp>)
    ensures ApplyAll(kv, a + b) == ApplyAll(ApplyAll(kv, a), b)
  {
    if b == [] {
      assert a + b == a;
    } else {
      var n := |b| - 1;
      assert a + b == (a + b[..n]) + [b[n]];
      ApplySnoc(kv, a + b[..n], b[n]);
      ApplyConcat(kv, a, b[..n]);
    }
  }

  /** The keys of a half-open range, in order. */
  function RangeKeys(kv: KV, lo: Bytes, hi: Bytes): (r: seq<Bytes>)
    ensures StrictlySorted(r)
    ensures forall k :: k in r <==> k in kv && InRange(k, lo, hi)
  {
    var keys := Ascending(set k | k in kv && InRange(k, lo, hi));
    assert forall k :: k in keys <==> k in Elements(keys);
    keys
  }

  /** A positioned cursor over a snapshot of a key range. */
  class Iterator {
    const kv: KV
    const keys: seq<Bytes>
    var pos: nat

    ghost predicate WellFormed()
      reads this
    {
      StrictlySorted(keys) && (forall k | k in keys :: k in kv) && pos <= |keys|
    }

    predicate Valid()
      reads this
    {
      pos < |keys|
    }

    constructor (kv: KV, lo: Bytes, hi: Bytes)
      ensures WellFormed() && this.kv == kv && keys == RangeKeys(kv, lo, hi) && !Valid()
    {
      this.kv := kv;
      var r := RangeKeys(kv, lo, hi);
      keys := r;
      pos := |r|;
    }

    function Key(): Bytes
      requires Valid()
      reads this
    {
      keys[pos]
    }

    function Value(): Bytes
      requires WellFormed() && Valid()
      reads this
    {
      kv[keys[pos]]
    }

    method First() returns (ok: bool)
      requires WellFormed()
      modifies this
      ensures WellFormed() && pos == 0 && ok == Valid() == (pos < |keys|)
    {
      pos := 0;
      ok := pos < |keys|;
    }

    method Next() returns (ok: bool)
      requires WellFormed() && Valid()
      modifies this
      ensures WellFormed() && pos == old(pos) + 1 <= |keys| && ok == Valid() == (pos < |keys|)
    {
      pos := pos + 1;
      ok := pos < |keys|;
    }

    /** Moves to the first key not below k. */
    method SeekGE(k: Bytes) returns (ok: bool)
      requires WellFormed()
      modifies this
      ensures WellFormed() && pos <= |keys| && ok == Valid() == (pos < |keys|)
      ensures forall i | 0 <= i < pos :: Less(keys[i], k)
      ensures forall i | pos <= i < |keys| :: !Less(keys[i], k)
    {
      pos := 0;
      while pos < |keys| && Less(keys[pos], k)
        invariant pos <= |keys|
        invariant forall i | 0 <= i < pos :: Less(keys[i], k)
      {
        pos := pos + 1;
      }
      forall i | pos <= i < |keys| ensures !Less(keys[i], k) {
        if Less(keys[i], k) && pos < i { LessTransitive(keys[pos], keys[i], k); }
      }
      ok := pos < |keys|;
    }
  }

  /** All keys of some tables. */
  function TableKeys(tables: seq<seq<Bytes>>): set<Bytes> {
    set t, k | t in tables && k in t :: k
  }

  /** What db.Ingest accepts: sstables with strictly increasing keys whose key ranges do not overlap. */
  predicate Ingestible(tables: seq<seq<Bytes>>) {
    && (forall t | t in tables :: StrictlySorted(t))
    && (forall i, j | 0 <= i < j < |tables| :: Apart(tables[i], tables[j]))
  }

  predicate Apart(s: seq<Bytes>, t: seq<Bytes>) {
    || (forall x, y | x in s && y in t :: Less(x, y))
    || (forall x, y | x in s && y in t :: Less(y, x))
  }

  /** Keys without values, as the data keyspaces store them. */
  function Bare(keys: set<Bytes>): KV {
    map k | k in keys :: []
  }

  /** Key-only tables on top of the present contents. */
  function Ingested(kv: KV, tables: seq<seq<Bytes>>): KV {
    kv + Bare(TableKeys(tables))
  }

  class DB {
    var kv: KV

    constructor ()
      ensures kv == map[]
    {
      kv := map[];
    }

    method Commit(batch: seq<BatchOp>)
      modifies this
      ensures kv == ApplyAll(old(kv), batch)
    {
      for i := 0 to |batch|
        invariant kv == ApplyAll(old(kv), batch[..i])
      {
        assert batch[..i + 1] == batch[..i] + [batch[i]];
        ApplySnoc(old(kv), batch[..i], batch[i]);
        kv := Apply(kv, batch[i]);
      }
      assert batch[..|batch|] == batch;
    }

    method Ingest(tables: seq<seq<Bytes>>)
      requires Ingestible(tables)
      modifies this
      ensures kv == Ingested(old(kv), tables)
    {
      kv := Ingested(kv, tables);
    }

    method Get(k: Bytes) returns (v: Option<Bytes>)
      ensures v == if k in kv then Some(kv[k]) else None
    {
      v := if k in kv then Some(kv[k]) else None;
    }

    method NewIter(lo: Bytes, hi: Bytes) returns (it: Iterator)
      ensures fresh(it) && it.WellFormed() && it.kv == kv && it.keys == RangeKeys(kv, lo, hi)
    {
      it := new Iterator(kv, lo, hi);
    }
  }
}
