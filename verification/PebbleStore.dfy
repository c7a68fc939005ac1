/** The Pebble store's write side: commits, the bulk loader, counter rebuilds. */
module PebbleStore {
  import opened ByteOrder
  import opened CounterMerge
  import opened Integers
  import opened Journal
  import opened Keyspaces
  import opened LabelCount
  import opened Pebble
  import opened QuadKeys
  import opened Quads
  import opened Results
  import opened StoreModel

  class Store {
    const db: DB
    var closed: bool

    constructor ()
      ensures fresh(db) && db.kv == map[] && !closed
    {
      db := new DB();
      closed := false;
    }

    method Close()
      modifies this
      ensures closed
    {
      closed := true;
    }

    /** Phase 1 of a rebuild: the labels counted on a snapshot of the label keyspace. */
    method ScanLabels() returns (counts: Deltas)
      ensures counts == TallyKeys(LspKeys(db.kv))
    {
      hide TallyKeys, RangeKeys;
      var it := db.NewIter([Prefix(LSP)], [Prefix(LSP) + 1]);
      counts := CountLabels(it);
    }

    /** Phase 2: every counter replaced in one batch, on whatever the store holds by then. */
    method ReplaceCounters(counts: Deltas)
      modifies db
      ensures db.kv == Replaced(old(db.kv), counts)
    {
      hide CountRows, Apply;
      var clear := DeleteRange([LABEL_COUNT], [LABEL_COUNT + 1]);
      var wb := SetCounts([clear], counts, db.kv);
      ApplyOne(db.kv, clear);
      db.Commit(wb);
    }

    /** Both phases, with no other writer between them. */
    method RebuildLabelCounters() returns (r: Result<()>)
      modifies db
      ensures r == if closed then Err(StoreClosed) else Ok(())
      ensures db.kv == if closed then old(db.kv) else Rebuilt(old(db.kv))
    {
      if closed { return Err(StoreClosed); }
      var counts := ScanLabels();
      ReplaceCounters(counts);
      return Ok(());
    }
  }

  /** The counting scan of a rebuild. */
  method CountLabels(it: Iterator) returns (counts: Deltas)
    requires it.WellFormed()
    modifies it
    ensures counts == TallyKeys(it.keys)
  {
    counts := map[];
    ghost var keys := it.keys;
    var _ := it.First();
    while it.Valid()
      invariant it.WellFormed()
      invariant counts == TallyKeys(keys[..it.pos])
      decreases |keys| - it.pos
    {
      var k := it.Key();
      TallyNext(keys, it.pos);
      if |k| >= 2 && k[0] == Prefix(LSP) {
        var rest := k[1..];
        var idx := IndexByte(rest, SEP);
        if idx >= 0 {
          assert rest[..idx] == k[1..1 + idx];
          counts := Bump(counts, rest[..idx], 1);
        }
      }
      var _ := it.Next();
    }
    assert keys[..it.pos] == keys;
  }

  lemma TallyNext(keys: seq<Bytes>, i: nat)
    requires i < |keys|
    ensures TallyKeys(keys[..i + 1]) ==
      match LabelOf(keys[i])
      case Some(l) => Bump(TallyKeys(keys[..i]), l, 1)
      case None => TallyKeys(keys[..i])
  {
    assert keys[..i + 1][..i] == keys[..i];
  }

  lemma ApplyOne(kv: KV, op: BatchOp)
    ensures ApplyAll(kv, [op]) == Apply(kv, op)
  {
    ApplySnoc(kv, [], op);
    assert [] + [op] == [op];
  }

  lemma CountRowsAt(d: Deltas, done: set<Bytes>, l: Bytes, k: Bytes)
    requires l in d && l !in done
    ensures Lookup(CountRows(Restrict(d, done + {l})), k)
         == if k == CountKey(l) then Some(EncodeI64(d[l])) else Lookup(CountRows(Restrict(d, done)), k)
  {
    CountRowsLookup(Restrict(d, done + {l}), k);
    CountRowsLookup(Restrict(d, done), k);
    hide CountRows, EncodeI64;
    if k != [] && k[0] == LABEL_COUNT { assert k == CountKey(k[1..]); }
    assert CountKey(l)[1..] == l;
  }

  lemma CountRowsNext(d: Deltas, done: set<Bytes>, l: Bytes)
    requires l in d && l !in done
    ensures CountRows(Restrict(d, done + {l})) == CountRows(Restrict(d, done))[CountKey(l) := EncodeI64(d[l])]
  {
    hide CountRows, Restrict, CountKey, EncodeI64;
    var x, y := CountRows(Restrict(d, done + {l})), CountRows(Restrict(d, done))[CountKey(l) := EncodeI64(d[l])];
    forall k ensures Lookup(x, k) == Lookup(y, k) { CountRowsAt(d, done, l, k); }
    SameLookups(x, y);
  }

  lemma NoCountRows(kv: KV, d: Deltas)
    ensures kv + CountRows(Restrict(d, {})) == kv
  {
    assert Restrict(d, {}) == map[];
    assert CountRows(map[]) == map[];
  }

  lemma RestrictAll(d: Deltas, labels: set<Bytes>)
    requires d.Keys <= labels
    ensures Restrict(d, labels) == d
  {}

  /** The Sets of a rebuild, in whatever order the map yields. */
  method SetCounts(wb: seq<BatchOp>, counts: Deltas, ghost base: KV) returns (wb': seq<BatchOp>)
    ensures ApplyAll(base, wb') == ApplyAll(base, wb) + CountRows(counts)
  {
    hide ApplyAll, Apply, EncodeI64, CountKey, CountRows, Restrict;
    wb' := wb;
    var todo := counts.Keys;
    ghost var done: set<Bytes> := {};
    ghost var start := ApplyAll(base, wb);
    NoCountRows(start, counts);
    while todo != {}
      invariant todo <= counts.Keys && done == counts.Keys - todo
      invariant ApplyAll(base, wb') == start + CountRows(Restrict(counts, done))
      decreases |todo|
    {
      var l :| l in todo;
      var op := Set(CountKey(l), EncodeI64(counts[l]));
      CountRowsNext(counts, done, l);
      ApplySnoc(base, wb', op);
      RowStep(ApplyAll(base, wb'), start, CountRows(Restrict(counts, done)), CountKey(l), EncodeI64(counts[l]));
      wb' := wb' + [op];
      todo, done := todo - {l}, done + {l};
    }
    RestrictAll(counts, done);
  }

  /** The inner loop of every add: one Set per keyspace. */
  method SetFourKeys(wb: seq<BatchOp>, q: Quad) returns (wb': seq<BatchOp>)
    ensures wb' == wb + PutOps(q)
  {
    wb' := wb;
    var keys := FourKeysFor(q);
    for i := 0 to |keys|
      invariant wb' == wb + PutOps(q)[..i]
    {
      assert PutOps(q)[..i + 1] == PutOps(q)[..i] + [Set(keys[i], [])];
      wb' := wb' + [Set(keys[i], [])];
    }
    assert PutOps(q)[..4] == PutOps(q);
  }

  method DeleteFourKeys(wb: seq<BatchOp>, q: Quad) returns (wb': seq<BatchOp>)
    ensures wb' == wb + DropOps(q)
  {
    wb' := wb;
    var keys := FourKeysFor(q);
    for i := 0 to |keys|
      invariant wb' == wb + DropOps(q)[..i]
    {
      assert DropOps(q)[..i + 1] == DropOps(q)[..i] + [Delete(keys[i])];
      wb' := wb' + [Delete(keys[i])];
    }
    assert DropOps(q)[..4] == DropOps(q);
  }

  // ---- a batch under construction: data below, audit rows on top ----

  lemma AddStep(base: KV, wb: seq<BatchOp>, s: set<Quad>, rows: KV, q: Quad)
    requires Elsewhere(rows) && ApplyAll(base, wb) == Put(base, s) + rows
    ensures ApplyAll(base, wb + PutOps(q)) == Put(base, s + {q}) + rows
  {
    hide *;
    ApplyConcat(base, wb, PutOps(q));
    ApplyPutOps(Put(base, s) + rows, q);
    PutUnderRows(Put(base, s), rows, {q});
    PutPut(base, s, {q});
  }

  lemma RemoveStep(base: KV, mid: KV, wb: seq<BatchOp>, s: set<Quad>, rows: KV, q: Quad)
    requires Elsewhere(rows) && ApplyAll(base, wb) == Drop(mid, s) + rows
    ensures ApplyAll(base, wb + DropOps(q)) == Drop(mid, s + {q}) + rows
  {
    hide *;
    ApplyConcat(base, wb, DropOps(q));
    ApplyDropOps(Drop(mid, s) + rows, q);
    DropUnderRows(Drop(mid, s), rows, {q});
    DropDrop(mid, s, {q});
  }

  lemma RowStep(kv: KV, data: KV, rows: KV, k: Bytes, v: Bytes)
    requires kv == data + rows
    ensures Apply(kv, Set(k, v)) == data + rows[k := v]
  {}

  /** The audit rows after the first n ops of a batch, over its commit row. */
  ghost function RowsSoFar(b: Batch, id: Bytes, head: KV, n: nat): KV
    requires n <= |OpsOf(b)|
  {
    if b.noAudit then head else head + RowsMap(id, OpsOf(b)[..n])
  }

  lemma RowsSoFarNext(b: Batch, id: Bytes, head: KV, n: nat)
    requires n < |OpsOf(b)|
    ensures RowsSoFar(b, id, head, n + 1)
         == if b.noAudit then RowsSoFar(b, id, head, n)
            else RowsSoFar(b, id, head, n)[OpKey(id, n % TWO32) := OpValue(OpsOf(b)[n])]
  {
    assert OpsOf(b)[..n + 1][..n] == OpsOf(b)[..n];
  }

  lemma RowsSoFarElsewhere(b: Batch, id: Bytes, head: KV, n: nat)
    requires n <= |OpsOf(b)| && Elsewhere(head)
    ensures Elsewhere(RowsSoFar(b, id, head, n))
  {
    RowsMapElsewhere(id, OpsOf(b)[..n]);
  }

  /** One op row, unless the batch is unaudited. */
  method LogOp(wb: seq<BatchOp>, b: Batch, id: Bytes, opSeq: nat, row: OpRow,
               ghost base: KV, ghost data: KV, ghost head: KV, ghost n: nat)
    returns (wb': seq<BatchOp>, opSeq': nat)
    requires n < |OpsOf(b)| && row == OpsOf(b)[n] && opSeq == n % TWO32
    requires ApplyAll(base, wb) == data + RowsSoFar(b, id, head, n)
    ensures ApplyAll(base, wb') == data + RowsSoFar(b, id, head, n + 1)
    ensures opSeq' == (n + 1) % TWO32
  {
    hide ApplyAll, Apply, RowsSoFar, OpKey, OpValue, OpsOf;
    RowsSoFarNext(b, id, head, n);
    wb', opSeq' := wb, (opSeq + 1) % TWO32;
    if !b.noAudit {
      var value := BuildOpValue(row);
      var op := Set(OpKey(id, opSeq), value);
      RowStep(ApplyAll(base, wb), data, RowsSoFar(b, id, head, n), op.key, value);
      ApplySnoc(base, wb, op);
      wb' := wb + [op];
    }
  }

  /** Commit's loop over the adds. */
  method AppendAdds(wb: seq<BatchOp>, b: Batch, id: Bytes, ghost base: KV, ghost head: KV)
    returns (wb': seq<BatchOp>, opSeq: nat)
    requires Elsewhere(head) && ApplyAll(base, wb) == base + head
    ensures ApplyAll(base, wb') == Put(base, Elements(Effective(b.adds, b.lbl))) + RowsSoFar(b, id, head, |b.adds|)
    ensures opSeq == |b.adds| % TWO32
  {
    wb', opSeq := wb, 0;
    ghost var effs := Effective(b.adds, b.lbl);
    PutNone(base);
    assert RowsSoFar(b, id, head, 0) == head;
    hide ApplyAll, Put, RowsSoFar, Elsewhere, PutOps, Elements;
    assert effs[..0] == [];
    ElementsNone<Quad>();
    for i := 0 to |b.adds|
      invariant ApplyAll(base, wb') == Put(base, Elements(effs[..i])) + RowsSoFar(b, id, head, i)
      invariant opSeq == i % TWO32
    {
      var q := b.adds[i];
      var lbl := if q.lbl == [] then b.lbl else q.lbl;
      var eff := Quad(q.subj, q.pred, q.obj, lbl);
      RowsSoFarElsewhere(b, id, head, i);
      AddStep(base, wb', Elements(effs[..i]), RowsSoFar(b, id, head, i), eff);
      ElementsNext(effs, i);
      wb' := SetFourKeys(wb', eff);
      wb', opSeq := LogOp(wb', b, id, opSeq, OpRow(true, eff), base, Put(base, Elements(effs[..i + 1])), head, i);
    }
    assert effs[..|b.adds|] == effs;
  }

  /** Commit's loop over the removes. */
  method AppendRemoves(wb: seq<BatchOp>, b: Batch, id: Bytes, opSeq: nat, ghost base: KV, ghost mid: KV, ghost head: KV)
    returns (wb': seq<BatchOp>)
    requires Elsewhere(head) && opSeq == |b.adds| % TWO32
    requires ApplyAll(base, wb) == mid + RowsSoFar(b, id, head, |b.adds|)
    ensures ApplyAll(base, wb') == Drop(mid, Elements(b.removes)) + RowsSoFar(b, id, head, |OpsOf(b)|)
  {
    wb' := wb;
    var opSeq := opSeq;
    PutNone(mid);
    hide ApplyAll, Drop, RowsSoFar, Elsewhere, DropOps, Elements;
    ghost var n := |b.adds|;
    assert b.removes[..0] == [];
    ElementsNone<Quad>();
    for i := 0 to |b.removes|
      invariant ApplyAll(base, wb') == Drop(mid, Elements(b.removes[..i])) + RowsSoFar(b, id, head, n + i)
      invariant opSeq == (n + i) % TWO32
    {
      var q := b.removes[i];
      RowsSoFarElsewhere(b, id, head, n + i);
      RemoveStep(base, mid, wb', Elements(b.removes[..i]), RowsSoFar(b, id, head, n + i), q);
      ElementsNext(b.removes, i);
      wb' := DeleteFourKeys(wb', q);
      wb', opSeq := LogOp(wb', b, id, opSeq, OpRow(false, q), base, Drop(mid, Elements(b.removes[..i + 1])), head,
                          n + i);
    }
    assert b.removes[..|b.removes|] == b.removes;
  }

  /** The checks at the head of Commit, in its order. */
  method Validate(b: Batch) returns (r: Option<Error>)
    ensures r.None? <==> Accepted(b)
    ensures r.Some? ==> r.value == InvalidLabel || r.value == EmptyQuad
    ensures !LabelOk(b.lbl) ==> r == Some(InvalidLabel)
    ensures r == Some(InvalidLabel) && LabelOk(b.lbl) ==> exists i | 0 <= i < |b.adds| :: !LabelOk(b.adds[i].lbl)
    ensures r == Some(EmptyQuad) ==>
      || (exists i | 0 <= i < |b.adds| :: b.adds[i].subj == [] || b.adds[i].pred == [] || b.adds[i].obj == [])
      || (exists i | 0 <= i < |b.removes| ::
            b.removes[i].subj == [] || b.removes[i].pred == [] || b.removes[i].obj == [])
  {
    var ok := ValidateLabel(b.lbl);
    if !ok { return Some(InvalidLabel); }
    hide LabelOk;
    for i := 0 to |b.adds|
      invariant forall j | 0 <= j < i :: b.adds[j].IsValid() && LabelOk(b.adds[j].Under(b.lbl).lbl)
    {
      var q := b.adds[i];
      if !q.IsValid() { return Some(EmptyQuad); }
      var lbl := if q.lbl == [] then b.lbl else q.lbl;
      ok := ValidateLabel(lbl);
      if !ok { return Some(InvalidLabel); }
    }
    for i := 0 to |b.removes|
      invariant forall j | 0 <= j < i :: b.removes[j].IsValid()
    {
      if !b.removes[i].IsValid() { return Some(EmptyQuad); }
    }
    return None;
  }

  /** The audit rows under construction, before the first op. */
  ghost function CommitRowOf(b: Batch, id: Bytes, ts: int): KV {
    if b.noAudit then map[] else map[CommitKey(id) := CommitValue(CommitRow(ts, b.lbl, b.metadata))]
  }

  /** The batch's opening: its commit row, unless it is unaudited. */
  method LogCommit(b: Batch, id: Bytes, ts: int, ghost base: KV) returns (wb: seq<BatchOp>)
    ensures Elsewhere(CommitRowOf(b, id, ts)) && ApplyAll(base, wb) == base + CommitRowOf(b, id, ts)
  {
    wb := [];
    if !b.noAudit {
      var value := EncodeCommitValue(ts, b.lbl, b.metadata);
      ApplyOne(base, Set(CommitKey(id), value));
      wb := [Set(CommitKey(id), value)];
    }
  }

  /** One Merge per non-zero label delta of the batch. */
  method MergeDeltas(wb: seq<BatchOp>, b: Batch, ghost base: KV) returns (wb': seq<BatchOp>)
    ensures ApplyAll(base, wb') == AddDeltas(ApplyAll(base, wb), BatchDeltas(b))
  {
    var deltas := AggregateLabelDeltas(b.adds, b.removes, b.lbl);
    assert deltas == BatchDeltas(b);
    hide *;
    wb' := wb;
    if |deltas| > 0 {
      wb' := ApplyLabelDeltas(wb, deltas, base);
    } else {
      AddNone(ApplyAll(base, wb));
      assert deltas == map[];
    }
  }

  lemma CommitAssembled(kv: KV, b: Batch, id: Bytes, ts: int)
    ensures AddDeltas(Drop(Put(kv, Elements(Effective(b.adds, b.lbl))), Elements(b.removes))
                      + RowsSoFar(b, id, CommitRowOf(b, id, ts), |OpsOf(b)|), BatchDeltas(b))
         == CommitKv(kv, b, id, ts)
  {
    hide AddDeltas, Put, Drop, RowsMap, CommitKey, CommitValue, OpsOf, BatchDeltas;
    assert OpsOf(b)[..|OpsOf(b)|] == OpsOf(b);
  }

  /** The whole write batch of a commit. */
  method BuildBatch(b: Batch, id: Bytes, ts: int, ghost base: KV) returns (wb: seq<BatchOp>)
    ensures ApplyAll(base, wb) == CommitKv(base, b, id, ts)
  {
    hide *;
    var opSeq;
    wb := LogCommit(b, id, ts, base);
    ghost var head := CommitRowOf(b, id, ts);
    wb, opSeq := AppendAdds(wb, b, id, base, head);
    wb := AppendRemoves(wb, b, id, opSeq, base, Put(base, Elements(Effective(b.adds, b.lbl))), head);
    wb := MergeDeltas(wb, b, base);
    CommitAssembled(base, b, id, ts);
  }

  class Writer {
    const store: Store
    var closed: bool

    constructor (store: Store)
      ensures this.store == store && !closed
    {
      this.store := store;
      closed := false;
    }

    method Close()
      modifies this
      ensures closed
    {
      closed := true;
    }

    /** Commits a batch under the given id and time; a rejected batch touches no key. */
    method Commit(b: Batch, id: Bytes, ts: int) returns (r: Result<()>)
      modifies store.db
      ensures r.Ok? <==> !closed && Accepted(b)
      ensures r == Err(WriterClosed) <==> closed
      ensures r == Err(InvalidLabel) ==> !LabelOk(b.lbl) || exists i | 0 <= i < |b.adds| :: !LabelOk(b.adds[i].lbl)
      ensures r == Err(EmptyQuad) ==>
        || (exists i | 0 <= i < |b.adds| :: b.adds[i].subj == [] || b.adds[i].pred == [] || b.adds[i].obj == [])
        || (exists i | 0 <= i < |b.removes| ::
              b.removes[i].subj == [] || b.removes[i].pred == [] || b.removes[i].obj == [])
      ensures r.Err? ==> r.error in {WriterClosed, InvalidLabel, EmptyQuad}
      ensures store.db.kv == if r.Ok? then CommitKv(old(store.db.kv), b, id, ts) else old(store.db.kv)
      ensures r.Ok? && BatchNulFree(b) ==>
        forall s | Indexes(old(store.db.kv), s) ::
          Indexes(store.db.kv, (s + Given(b.adds, b.lbl)) - Elements(b.removes))
    {
      if closed { return Err(WriterClosed); }
      var rejected := Validate(b);
      if rejected.Some? { return Err(rejected.value); }
      hide *;
      ghost var kv := store.db.kv;
      var wb := BuildBatch(b, id, ts, kv);
      store.db.Commit(wb);
      forall s | Indexes(kv, s) && BatchNulFree(b)
        ensures Indexes(CommitKv(kv, b, id, ts), (s + Given(b.adds, b.lbl)) - Elements(b.removes))
      {
        CommitStores(kv, s, b, id, ts);
      }
      return Ok(());
    }
  }
}
