/** The Pebble bulk loader, and the migration that streams a source into it. */
module PebbleBulk {
  import opened ByteOrder
  import opened CounterMerge
  import opened Keyspaces
  import opened LabelCount
  import opened Pebble
  import opened PebbleStore
  import opened Quads
  import opened Results
  import opened StoreModel
  import History

  /** The Sets of a run of adds. */
  function PutAllOps(qs: seq<Quad>): seq<BatchOp> {
    if qs == [] then [] else PutAllOps(qs[..|qs| - 1]) + PutOps(qs[|qs| - 1])
  }

  lemma PutAllNext(qs: seq<Quad>, q: Quad)
    ensures PutAllOps(qs + [q]) == PutAllOps(qs) + PutOps(q)
    ensures Tally(qs + [q]) == Bump(Tally(qs), q.lbl, 1)
  {
    assert (qs + [q])[..|qs|] == qs;
  }

  lemma NothingBuffered()
    ensures PutAllOps([]) == [] && Tally([]) == map[]
  {}

  lemma {:induction false} ApplyPutAll(kv: KV, qs: seq<Quad>)
    ensures ApplyAll(kv, PutAllOps(qs)) == Put(kv, Elements(qs))
  {
    if qs == [] {
      ElementsNone<Quad>();
      PutNone(kv);
    } else {
      var n := |qs| - 1;
      ApplyPutAll(kv, qs[..n]);
      ApplyConcat(kv, PutAllOps(qs[..n]), PutOps(qs[n]));
      ApplyPutOps(Put(kv, Elements(qs[..n])), qs[n]);
      PutPut(kv, Elements(qs[..n]), {qs[n]});
      ElementsNext(qs, n);
      assert qs[..n + 1] == qs;
    }
  }

  /** The buffered Sets and the merges of their label deltas, in one batch. */
  method CommitBuffer(db: DB, wb: seq<BatchOp>, labelDeltas: Deltas, ghost pending: seq<Quad>)
    requires wb == PutAllOps(pending) && labelDeltas == Tally(pending)
    modifies db
    ensures db.kv == LoadKv(old(db.kv), pending)
  {
    ApplyPutAll(db.kv, pending);
    hide PutAllOps, ApplyAll, AddDeltas, Put, Elements, Tally;
    var batch := ApplyLabelDeltas(wb, labelDeltas, db.kv);
    db.Commit(batch);
  }

  datatype BulkStats = BulkStats(added: nat, attempted: nat, flushes: nat)

  const BATCH_SIZE: nat := 500

  class BulkLoader {
    const store: Store
    const lbl: Bytes
    const batchSize: nat
    var wb: seq<BatchOp>
    var bufRows: nat
    var labelDeltas: Deltas
    var stats: BulkStats
    var closed: bool
    /** The quads added since the last flush, under their effective labels. */
    ghost var pending: seq<Quad>

    /** The buffered batch, row count and deltas are those of the pending quads. */
    ghost predicate Consistent()
      reads this
    {
      wb == PutAllOps(pending) && bufRows == |pending| && labelDeltas == Tally(pending)
    }

    ghost predicate Valid()
      reads this
    {
      Consistent() && |pending| < batchSize && (closed ==> pending == [])
    }

    constructor (store: Store, lbl: Bytes, batchSize: nat)
      requires 0 < batchSize
      ensures Valid() && this.store == store && this.lbl == lbl && this.batchSize == batchSize
      ensures !closed && pending == [] && stats == BulkStats(0, 0, 0)
    {
      this.store := store;
      this.lbl := lbl;
      this.batchSize := batchSize;
      wb, bufRows, labelDeltas := [], 0, map[];
      stats, closed, pending := BulkStats(0, 0, 0), false, [];
    }

    /** Buffers one quad and flushes a full buffer; a refused quad changes nothing. */
    method Add(q: Quad) returns (r: Result<()>)
      requires Valid()
      modifies this, store.db
      ensures Valid() && closed == old(closed)
      ensures r == if closed then Err(LoaderClosed) else if !q.IsValid() then Err(EmptyQuad) else Ok(())
      ensures r.Err? ==> pending == old(pending) && store.db.kv == old(store.db.kv) && stats == old(stats)
      ensures r.Ok? ==>
        var all := old(pending) + [Quad(q.subj, q.pred, q.obj, if q.lbl == [] then lbl else q.lbl)];
        && pending == (if |all| < batchSize then all else [])
        && store.db.kv == (if |all| < batchSize then old(store.db.kv) else LoadKv(old(store.db.kv), all))
        && stats.added == old(stats.added) + 1 && stats.attempted == old(stats.attempted) + 1
        && stats.flushes == old(stats.flushes) + if |all| < batchSize then 0 else 1
    {
      if closed { return Err(LoaderClosed); }
      if !q.IsValid() { return Err(EmptyQuad); }
      hide LoadKv, PutAllOps, Tally, PutOps;
      var l := if q.lbl == [] then lbl else q.lbl;
      Buffer(Quad(q.subj, q.pred, q.obj, l));
      if bufRows >= batchSize {
        FlushBuffer();
      }
      return Ok(());
    }

    method Buffer(eff: Quad)
      requires Consistent()
      modifies this
      ensures Consistent() && pending == old(pending) + [eff] && closed == old(closed)
      ensures stats == old(stats).(added := old(stats.added) + 1, attempted := old(stats.attempted) + 1)
    {
      hide PutAllOps, Tally, PutOps, Bump;
      PutAllNext(pending, eff);
      wb := SetFourKeys(wb, eff);
      labelDeltas := Bump(labelDeltas, eff.lbl, 1);
      stats := stats.(added := stats.added + 1, attempted := stats.attempted + 1);
      bufRows := bufRows + 1;
      pending := pending + [eff];
    }

    /** The flush, without a bound on the buffer. */
    method FlushBuffer()
      requires 0 < batchSize && Consistent()
      modifies this, store.db
      ensures Valid() && closed == old(closed) && pending == []
      ensures store.db.kv == LoadKv(old(store.db.kv), old(pending))
      ensures stats == if old(pending) == [] then old(stats) else old(stats).(flushes := old(stats.flushes) + 1)
    {
      hide PutAllOps, Tally, LoadKv;
      if bufRows == 0 {
        LoadNothing(store.db.kv);
        return;
      }
      CommitBuffer(store.db, wb, labelDeltas, pending);
      labelDeltas, wb, bufRows := map[], [], 0;
      NothingBuffered();
      stats := stats.(flushes := stats.flushes + 1);
      pending := [];
    }

    method Flush()
      requires Valid()
      modifies this, store.db
      ensures Valid() && closed == old(closed) && pending == []
      ensures store.db.kv == LoadKv(old(store.db.kv), old(pending))
    {
      FlushBuffer();
    }

    /** Flushes what is buffered; a second Close does nothing. */
    method Close()
      requires Valid()
      modifies this, store.db
      ensures Valid() && closed && pending == []
      ensures store.db.kv == if old(closed) then old(store.db.kv) else LoadKv(old(store.db.kv), old(pending))
    {
      if closed { return; }
      closed := true;
      FlushBuffer();
    }
  }

  /** Store.BulkLoader: the default label is validated first; the batch size is fixed. */
  method OpenBulkLoader(store: Store, defaultLabel: Bytes) returns (r: Result<BulkLoader>)
    ensures r.Ok? <==> LabelOk(defaultLabel)
    ensures r.Err? ==> r.error == InvalidLabel
    ensures r.Ok? ==> fresh(r.value) && r.value.Valid() && r.value.store == store && r.value.lbl == defaultLabel
    ensures r.Ok? ==> !r.value.closed && r.value.pending == [] && r.value.batchSize == 500
  {
    if defaultLabel != [] {
      var ok := ValidateLabel(defaultLabel);
      if !ok { return Err(InvalidLabel); }
    }
    var bl := new BulkLoader(store, defaultLabel, BATCH_SIZE);
    return Ok(bl);
  }

  /** Everything added, flushed or still buffered, wherever the flushes fell. */
  lemma BufferedLoad(kv: KV, pending: seq<Quad>, eff: Quad)
    requires CountersOk(kv)
    ensures LoadKv(LoadKv(kv, pending), [eff]) == LoadKv(kv, pending + [eff])
    ensures LoadKv(LoadKv(kv, pending + [eff]), []) == LoadKv(kv, pending + [eff])
  {
    LoadConcat(kv, pending, [eff]);
    LoadNothing(LoadKv(kv, pending + [eff]));
  }

  lemma LoadCountersOk(kv: KV, qs: seq<Quad>)
    requires CountersOk(kv)
    ensures CountersOk(LoadKv(kv, qs))
  {
    PutCountersOk(kv, Elements(qs));
    AddDeltasOk(Put(kv, Elements(qs)), Tally(qs));
  }

  /** How far a stream is loaded before its first invalid quad. */
  function ValidPrefix(qs: seq<Quad>): (n: nat)
    ensures n <= |qs| && (forall i | 0 <= i < n :: qs[i].IsValid()) && (n < |qs| ==> !qs[n].IsValid())
  {
    if qs == [] || !qs[0].IsValid() then 0 else 1 + ValidPrefix(qs[1..])
  }

  lemma {:induction false} ValidPrefixIs(qs: seq<Quad>, i: nat)
    requires i <= |qs| && (forall j | 0 <= j < i :: qs[j].IsValid()) && (i < |qs| ==> !qs[i].IsValid())
    ensures ValidPrefix(qs) == i
  {
    if i > 0 { ValidPrefixIs(qs[1..], i - 1); }
  }

  /** One more quad streamed: settled at once or with the buffer, the outcome is the same. */
  lemma StreamStep(base: KV, src: seq<Quad>, i: nat, kv: KV, pending: seq<Quad>)
    requires i < |src| && CountersOk(base) && CountersOk(kv) && LoadKv(kv, pending) == LoadKv(base, src[..i])
    ensures LoadKv(kv, pending + [src[i]]) == LoadKv(base, src[..i + 1])
    ensures LoadKv(LoadKv(kv, pending + [src[i]]), []) == LoadKv(base, src[..i + 1])
    ensures CountersOk(LoadKv(kv, pending + [src[i]]))
  {
    hide LoadKv, CountersOk;
    assert src[..i + 1] == src[..i] + [src[i]];
    BufferedLoad(kv, pending, src[i]);
    LoadConcat(base, src[..i], [src[i]]);
    LoadCountersOk(kv, pending + [src[i]]);
  }

  /**
   * MigrateToPebble over the quads of its source. At any batch size the store ends with exactly the
   * quads before the first invalid one; the deferred Close flushes them even on the error path.
   */
  method MigrateToPebble(src: seq<Quad>, store: Store, bl: BulkLoader) returns (r: Result<nat>)
    requires bl.Valid() && bl.store == store && !bl.closed && bl.pending == [] && bl.lbl == []
    requires CountersOk(store.db.kv)
    modifies bl, store.db
    ensures r == if ValidPrefix(src) == |src| then Ok(|src|) else Err(EmptyQuad)
    ensures store.db.kv == LoadKv(old(store.db.kv), src[..ValidPrefix(src)])
    ensures bl.closed
  {
    hide LoadKv, CountersOk, ValidPrefix, PutAllOps, Tally, Effective;
    ghost var base := store.db.kv;
    LoadNothing(base);
    for i := 0 to |src|
      invariant bl.Valid() && !bl.closed
      invariant CountersOk(store.db.kv) && LoadKv(store.db.kv, bl.pending) == LoadKv(base, src[..i])
      invariant forall j | 0 <= j < i :: src[j].IsValid()
    {
      ghost var kv, pending := store.db.kv, bl.pending;
      var added := bl.Add(src[i]);
      if added.Err? {
        ValidPrefixIs(src, i);
        bl.Close();
        return Err(added.error);
      }
      StreamStep(base, src, i, kv, pending);
    }
    ValidPrefixIs(src, |src|);
    assert src[..|src|] == src;
    bl.Close();
    return Ok(|src|);
  }

  /** Migrating distinct quads into a store without quads or counters leaves every counter exact. */
  lemma MigrationDriftFree(kv: KV, v: View, qs: seq<Quad>, l: Bytes)
    requires Represents(kv, v) && v.quads == {} && Counter(kv, l) == 0
    requires forall i, j | 0 <= i < j < |qs| :: qs[i] != qs[j]
    ensures CountersOk(LoadKv(kv, qs))
    ensures Counter(LoadKv(kv, qs), l) == Wrap(|WithLabel(Elements(qs), l)|)
  {
    hide *;
    RepresentsCounters(kv, v);
    History.CounterAfterLoad(kv, qs, l);
    DistinctCount(qs, l);
  }

  lemma RepresentsCounters(kv: KV, v: View)
    requires Represents(kv, v)
    ensures CountersOk(kv)
  {}

  /** Distinct quads are counted as often as they are there. */
  lemma DistinctCount(qs: seq<Quad>, l: Bytes)
    requires forall i, j | 0 <= i < j < |qs| :: qs[i] != qs[j]
    ensures CountLabel(qs, l) == |WithLabel(Elements(qs), l)|
  {
    History.CountAfterAdds({}, qs, l);
    History.NoRedundantAdds({}, qs, l);
    assert {} + Elements(qs) == Elements(qs);
    assert WithLabel({}, l) == {};
  }
}
