/** Audited writes to one partition of a SQLite store. */
module PartitionedWriter {
  import opened ByteOrder
  import opened Partitioned
  import opened Quads
  import opened Results

  // ---- what a commit does to a file ----

  /** A commit's op rows as they lie in the op table. */
  function Tagged(id: Bytes, rows: seq<OpRow>): (r: seq<(Bytes, OpRow)>)
    ensures |r| == |rows|
  {
    seq(|rows|, i requires 0 <= i < |rows| => (id, rows[i]))
  }

  /** The batch on the quads, and its audit rows appended unless it is unaudited. */
  function CommitFile(f: File, b: Batch, id: Bytes, ts: int): File {
    File(SetAfter(f.quads, b),
         if b.noAudit then f.commits else f.commits[id := CommitRow(ts, b.lbl, b.metadata)],
         if b.noAudit then f.ops else f.ops + Tagged(id, OpsOf(b)))
  }

  /** The quads given are in, each as given; those removed are out; the commit has its row if it is audited. */
  lemma CommitFileData(f: File, b: Batch, id: Bytes, ts: int)
    ensures var f' := CommitFile(f, b, id, ts);
      && f'.quads == (f.quads + Given(b.adds, b.lbl)) - Elements(b.removes)
      && f'.commits == if b.noAudit then f.commits else f.commits[id := CommitRow(ts, b.lbl, b.metadata)]
  {
    EffectiveGiven(b.adds, b.lbl);
    hide Effective, Given, OpsOf, Tagged;
  }

  /** An audited commit keeps the op table and appends its adds, as stored, and its removes, as given. */
  lemma CommitFileOps(f: File, b: Batch, id: Bytes, ts: int)
    ensures var ops, n := CommitFile(f, b, id, ts).ops, |f.ops|;
      if b.noAudit then ops == f.ops
      else
        && |ops| == n + |b.adds| + |b.removes| && f.ops <= ops
        && (forall i | 0 <= i < |b.adds| ::
              var q := b.adds[i];
              ops[n + i] == (id, OpRow(true, Quad(q.subj, q.pred, q.obj, if q.lbl == [] then b.lbl else q.lbl))))
        && (forall i | 0 <= i < |b.removes| :: ops[n + |b.adds| + i] == (id, OpRow(false, b.removes[i])))
  {
    hide SetAfter, OpsOf;
    forall i | 0 <= i < |b.adds|
      ensures var q := b.adds[i];
        OpsOf(b)[i] == OpRow(true, Quad(q.subj, q.pred, q.obj, if q.lbl == [] then b.lbl else q.lbl))
    {
      OpsAre(b, i);
    }
    forall i | 0 <= i < |b.removes| ensures OpsOf(b)[|b.adds| + i] == OpRow(false, b.removes[i]) {
      OpsAre(b, |b.adds| + i);
    }
  }

  /** What Commit accepts: a valid batch whose every quad is written to the writer's partition. */
  predicate CommitFits(rt: Routing, part: nat, b: Batch)
    requires rt.Valid()
  {
    && Accepted(b)
    && (rt.IsPartitioned() ==>
          && (forall i | 0 <= i < |b.adds| :: rt.PartFor(b.adds[i].Under(b.lbl).lbl) == part)
          && (forall i | 0 <= i < |b.removes| :: rt.PartFor(b.removes[i].lbl) == part))
  }

  /** A batch fits if it is accepted and the partition is that of every label written or removed under. */
  lemma CommitFitsMeans(rt: Routing, part: nat, b: Batch)
    requires rt.Valid()
    ensures CommitFits(rt, part, b)
      <==> Accepted(b) && (|rt.names| > 1 ==>
             && (forall i | 0 <= i < |b.adds| ::
                   rt.PartFor(if b.adds[i].lbl == [] then b.lbl else b.adds[i].lbl) == part)
             && (forall i | 0 <= i < |b.removes| :: rt.PartFor(b.removes[i].lbl) == part))
  {
    hide Accepted, Routing.PartFor, Routing.Valid;
    forall i | 0 <= i < |b.adds|
      ensures b.adds[i].Under(b.lbl).lbl == if b.adds[i].lbl == [] then b.lbl else b.adds[i].lbl
    {
      UnderKeeps(b.adds[i], b.lbl);
    }
  }

  /** The ops of the commits created before a cutoff go; the commits stay. */
  function PruneFile(f: File, cutoff: int): File {
    f.(ops := Kept(f.commits, f.ops, cutoff))
  }

  predicate Prunable(commits: map<Bytes, CommitRow>, id: Bytes, cutoff: int) {
    id in commits && commits[id].ts < cutoff
  }

  function Kept(commits: map<Bytes, CommitRow>, ops: seq<(Bytes, OpRow)>, cutoff: int): (r: seq<(Bytes, OpRow)>)
    ensures |r| <= |ops|
  {
    if ops == [] then []
    else
      var last := ops[|ops| - 1];
      Kept(commits, ops[..|ops| - 1], cutoff) + if Prunable(commits, last.0, cutoff) then [] else [last]
  }

  /** The rows of one commit, in table order. */
  function RowsFor(ops: seq<(Bytes, OpRow)>, id: Bytes): seq<OpRow> {
    if ops == [] then []
    else
      var last := ops[|ops| - 1];
      RowsFor(ops[..|ops| - 1], id) + if last.0 == id then [last.1] else []
  }

  /** Pruning removes exactly the rows of commits before the cutoff, whole commits at a time. */
  lemma {:induction false} PrunedRows(commits: map<Bytes, CommitRow>, ops: seq<(Bytes, OpRow)>, cutoff: int, id: Bytes)
    ensures RowsFor(Kept(commits, ops, cutoff), id)
         == if id in commits && commits[id].ts < cutoff then [] else RowsFor(ops, id)
  {
    if ops != [] {
      hide Kept, RowsFor;
      var front, last := ops[..|ops| - 1], ops[|ops| - 1];
      KeptSnoc(commits, front, last, cutoff);
      PrunedRows(commits, front, cutoff, id);
      RowsForSnoc(Kept(commits, front, cutoff), last, id);
      RowsForSnoc(front, last, id);
      assert ops == front + [last];
    }
  }

  lemma KeptSnoc(commits: map<Bytes, CommitRow>, ops: seq<(Bytes, OpRow)>, last: (Bytes, OpRow), cutoff: int)
    ensures Kept(commits, ops + [last], cutoff)
         == if Prunable(commits, last.0, cutoff) then Kept(commits, ops, cutoff)
            else Kept(commits, ops, cutoff) + [last]
  {
    assert (ops + [last])[..|ops|] == ops;
    hide Prunable;
  }

  lemma RowsForSnoc(ops: seq<(Bytes, OpRow)>, last: (Bytes, OpRow), id: Bytes)
    ensures RowsFor(ops + [last], id) == RowsFor(ops, id) + if last.0 == id then [last.1] else []
  {
    assert (ops + [last])[..|ops|] == ops;
  }

  lemma {:induction false} RowsForConcat(a: seq<(Bytes, OpRow)>, b: seq<(Bytes, OpRow)>, id: Bytes)
    ensures RowsFor(a + b, id) == RowsFor(a, id) + RowsFor(b, id)
  {
    if b == [] {
      assert a + b == a;
    } else {
      hide RowsFor;
      var front, last := b[..|b| - 1], b[|b| - 1];
      assert a + b == (a + front) + [last] && b == front + [last];
      RowsForConcat(a, front, id);
      RowsForSnoc(a + front, last, id);
      RowsForSnoc(front, last, id);
    }
  }

  lemma {:induction false} RowsForTagged(id: Bytes, rows: seq<OpRow>, id': Bytes)
    ensures RowsFor(Tagged(id, rows), id') == if id == id' then rows else []
  {
    if rows != [] {
      var n := |rows| - 1;
      RowsForTagged(id, rows[..n], id');
      assert Tagged(id, rows) == Tagged(id, rows[..n]) + [(id, rows[n])];
      assert rows == rows[..n] + [rows[n]];
    }
  }

  // ---- the writer ----

  class Writer {
    const store: Store
    const part: nat
    var closed: bool

    ghost predicate Valid() {
      store.Valid() && part < |store.parts|
    }

    constructor (store: Store, part: nat)
      requires store.Valid() && part < |store.parts|
      ensures Valid() && this.store == store && this.part == part && !closed
    {
      this.store, this.part, closed := store, part, false;
    }

    /** Close frees the slot once, however often it is called. */
    method Close()
      requires Valid()
      modifies this, {store.parts[part]}`slot
      ensures closed
      ensures store.parts[part].slot == (old(closed) && old(store.parts[part].slot))
    {
      if closed { return; }
      closed := true;
      store.parts[part].slot := false;
    }

    /** The checks at the head of Commit, in its order. */
    method Validate(b: Batch) returns (r: Option<Error>)
      requires Valid()
      ensures r.None? <==> CommitFits(store.routing, part, b)
      ensures r.Some? ==> r.value == InvalidLabel || r.value == EmptyQuad || r.value == CrossPartition
      ensures r == Some(InvalidLabel) ==> !LabelOk(b.lbl) || exists i | 0 <= i < |b.adds| :: !LabelOk(b.adds[i].lbl)
      ensures r == Some(EmptyQuad) ==>
        || (exists i | 0 <= i < |b.adds| :: b.adds[i].subj == [] || b.adds[i].pred == [] || b.adds[i].obj == [])
        || (exists i | 0 <= i < |b.removes| ::
              b.removes[i].subj == [] || b.removes[i].pred == [] || b.removes[i].obj == [])
      ensures r == Some(CrossPartition) ==>
        && |store.routing.names| > 1
        && (|| (exists i | 0 <= i < |b.adds| ::
                 store.routing.PartFor(if b.adds[i].lbl == [] then b.lbl else b.adds[i].lbl) != part)
            || (exists i | 0 <= i < |b.removes| :: store.routing.PartFor(b.removes[i].lbl) != part))
    {
      var ok := ValidateLabel(b.lbl);
      if !ok { return Some(InvalidLabel); }
      hide LabelOk, Routing.PartFor, Routing.Valid, Store.Valid, Quad.IsValid, Quad.Under;
      for i := 0 to |b.adds|
        invariant forall j | 0 <= j < i :: b.adds[j].IsValid() && LabelOk(b.adds[j].Under(b.lbl).lbl)
        invariant store.routing.IsPartitioned() ==>
          forall j | 0 <= j < i :: store.routing.PartFor(b.adds[j].Under(b.lbl).lbl) == part
      {
        UnderKeeps(b.adds[i], b.lbl);
        var fault := CheckAdd(b.adds[i].Under(b.lbl));
        ValidMeans(b.adds[i]);
        ValidMeans(b.adds[i].Under(b.lbl));
        if fault.Some? { return fault; }
      }
      for i := 0 to |b.removes|
        invariant forall j | 0 <= j < i :: b.removes[j].IsValid()
        invariant store.routing.IsPartitioned() ==>
          forall j | 0 <= j < i :: store.routing.PartFor(b.removes[j].lbl) == part
      {
        ValidMeans(b.removes[i]);
        if !b.removes[i].IsValid() { return Some(EmptyQuad); }
        if store.routing.IsPartitioned() && store.routing.PartFor(b.removes[i].lbl) != part {
          return Some(CrossPartition);
        }
      }
      return None;
    }

    /** The checks on one add, under its effective label, in their order. */
    method CheckAdd(q: Quad) returns (r: Option<Error>)
      requires Valid()
      ensures r == if !LabelOk(q.lbl) then Some(InvalidLabel)
                   else if !q.IsValid() then Some(EmptyQuad)
                   else if store.routing.IsPartitioned() && store.routing.PartFor(q.lbl) != part
                        then Some(CrossPartition)
                   else None
    {
      var ok := ValidateLabel(q.lbl);
      if !ok { return Some(InvalidLabel); }
      if !q.IsValid() { return Some(EmptyQuad); }
      if store.routing.IsPartitioned() && store.routing.PartFor(q.lbl) != part { return Some(CrossPartition); }
      return None;
    }

    /** One transaction on the writer's file, under the given id and time; a refused batch writes nothing. */
    method Commit(b: Batch, id: Bytes, ts: int) returns (r: Result<()>)
      requires Valid()
      modifies {store.parts[part]}`file
      ensures r.Ok? <==> !closed && CommitFits(store.routing, part, b)
      ensures r == Err(WriterClosed) <==> closed
      ensures r == Err(InvalidLabel) ==> !LabelOk(b.lbl) || exists i | 0 <= i < |b.adds| :: !LabelOk(b.adds[i].lbl)
      ensures r == Err(EmptyQuad) ==>
        || (exists i | 0 <= i < |b.adds| :: b.adds[i].subj == [] || b.adds[i].pred == [] || b.adds[i].obj == [])
        || (exists i | 0 <= i < |b.removes| ::
              b.removes[i].subj == [] || b.removes[i].pred == [] || b.removes[i].obj == [])
      ensures r == Err(CrossPartition) ==>
        && |store.routing.names| > 1
        && (|| (exists i | 0 <= i < |b.adds| ::
                 store.routing.PartFor(if b.adds[i].lbl == [] then b.lbl else b.adds[i].lbl) != part)
            || (exists i | 0 <= i < |b.removes| :: store.routing.PartFor(b.removes[i].lbl) != part))
      ensures r.Err? ==> r.error in {WriterClosed, InvalidLabel, EmptyQuad, CrossPartition}
      ensures store.Files() == old(store.Files())[part :=
        if r.Ok? then CommitFile(old(store.parts[part].file), b, id, ts) else old(store.parts[part].file)]
      ensures r.Ok? ==>
        var f, f' := old(store.parts[part].file), store.parts[part].file;
        && f'.quads == (f.quads + Given(b.adds, b.lbl)) - Elements(b.removes)
        && f'.commits == if b.noAudit then f.commits else f.commits[id := CommitRow(ts, b.lbl, b.metadata)]
    {
      FilesSelf();
      hide *;
      if closed { return Err(WriterClosed); }
      var rejected := Validate(b);
      if rejected.Some? { return Err(rejected.value); }
      Write(b, id, ts);
      return Ok(());
    }

    lemma FilesSelf()
      requires Valid()
      ensures store.Files()[part := store.parts[part].file] == store.Files()
    {}

    /** The transaction of an accepted batch. */
    method Write(b: Batch, id: Bytes, ts: int)
      requires Valid()
      modifies {store.parts[part]}`file
      ensures store.Files() == old(store.Files())[part := CommitFile(old(store.parts[part].file), b, id, ts)]
      ensures var f, f' := old(store.parts[part].file), store.parts[part].file;
        && f'.quads == (f.quads + Given(b.adds, b.lbl)) - Elements(b.removes)
        && f'.commits == if b.noAudit then f.commits else f.commits[id := CommitRow(ts, b.lbl, b.metadata)]
    {
      hide CommitFile, Given, Elements;
      CommitFileData(store.parts[part].file, b, id, ts);
      var tx := RunBatch(store.parts[part].file, b, id, ts);
      store.parts[part].file := tx;
    }

    /** Deletes the op rows of commits before the cutoff; says how many. */
    method PruneOps(cutoff: int) returns (r: Result<nat>)
      requires Valid()
      modifies {store.parts[part]}`file
      ensures r.Ok? <==> !closed
      ensures r.Err? ==> r.error == WriterClosed
      ensures store.Files() == old(store.Files())[part :=
        if r.Ok? then PruneFile(old(store.parts[part].file), cutoff) else old(store.parts[part].file)]
      ensures r.Ok? ==> r.value == |old(store.parts[part].file.ops)| - |store.parts[part].file.ops|
      ensures r.Ok? ==>
        var f, f' := old(store.parts[part].file), store.parts[part].file;
        && f'.quads == f.quads && f'.commits == f.commits
        && forall id ::
             RowsFor(f'.ops, id) == if id in f.commits && f.commits[id].ts < cutoff then [] else RowsFor(f.ops, id)
    {
      if closed { return Err(WriterClosed); }
      var f := store.parts[part].file;
      hide Kept, RowsFor;
      forall id
        ensures RowsFor(Kept(f.commits, f.ops, cutoff), id)
             == if id in f.commits && f.commits[id].ts < cutoff then [] else RowsFor(f.ops, id)
      {
        PrunedRows(f.commits, f.ops, cutoff, id);
      }
      store.parts[part].file := PruneFile(f, cutoff);
      return Ok(|f.ops| - |Kept(f.commits, f.ops, cutoff)|);
    }
  }

  /**
   * WriterFor: an unknown name is refused without waiting. A call that finds the slot taken waits until its
   * holder frees it, if it does; otherwise only the context ends the wait. With both, either may win.
   */
  method WriterFor(store: Store, name: Bytes, freed: bool, ctxDone: bool) returns (r: Result<Writer>)
    requires store.Valid()
    modifies store.parts`slot
    ensures r == Err(UnknownPartition) <==> store.routing.ConnFor(name).None?
    ensures r.Err? ==> r.error == UnknownPartition || r.error == Cancelled
    ensures store.routing.ConnFor(name).Some? ==>
      var taken := old(store.parts[store.routing.ConnFor(name).value].slot);
      (r.Ok? ==> !taken || freed) && ((!taken || freed) && !ctxDone ==> r.Ok?)
    ensures r.Ok? ==> fresh(r.value) && r.value.Valid() && r.value.store == store && !r.value.closed
    ensures r.Ok? ==> store.routing.ConnFor(name) == Some(r.value.part)
    ensures r.Ok? ==> store.parts[r.value.part].name == if name == [] then store.routing.defaultName else name
    ensures forall i | 0 <= i < |store.parts| ::
      store.parts[i].slot == if store.routing.ConnFor(name) == Some(i)
                             then SlotAfter(r.Ok?, old(store.parts[i].slot), freed) else old(store.parts[i].slot)
  {
    var conn := store.routing.ConnFor(name);
    if conn.None? { return Err(UnknownPartition); }
    ConnByName(store.routing, name);
    var taken := TakeSlot(store.parts[conn.value], freed, ctxDone);
    if !taken { return Err(Cancelled); }
    var w := new Writer(store, conn.value);
    return Ok(w);
  }

  // ---- the transaction ----

  lemma OpsOfAdd(b: Batch, i: nat)
    requires i < |b.adds|
    ensures OpsOf(b)[..i + 1] == OpsOf(b)[..i] + [OpRow(true, b.adds[i].Under(b.lbl))]
  {}

  lemma OpsOfRemove(b: Batch, i: nat)
    requires i < |b.removes|
    ensures var n := |b.adds|; OpsOf(b)[..n + i + 1] == OpsOf(b)[..n + i] + [OpRow(false, b.removes[i])]
  {}

  lemma WholeBatch(b: Batch)
    ensures b.removes[..0] == [] && b.removes[..|b.removes|] == b.removes
    ensures OpsOf(b)[..|b.adds| + |b.removes|] == OpsOf(b)
  {}

  /** logOp. */
  method LogOp(ops: seq<(Bytes, OpRow)>, b: Batch, id: Bytes, r: OpRow, ghost base: seq<(Bytes, OpRow)>,
          ghost before: seq<OpRow>)
    returns (ops': seq<(Bytes, OpRow)>)
    requires ops == if b.noAudit then base else base + Tagged(id, before)
    ensures ops' == if b.noAudit then base else base + Tagged(id, before + [r])
  {
    assert Tagged(id, before + [r]) == Tagged(id, before) + [(id, r)];
    if b.noAudit { return ops; }
    return ops + [(id, r)];
  }

  /** Commit's loop over the adds. */
  method InsertAdds(quads: set<Quad>, ops: seq<(Bytes, OpRow)>, b: Batch, id: Bytes)
    returns (quads': set<Quad>, ops': seq<(Bytes, OpRow)>)
    ensures quads' == quads + Elements(Effective(b.adds, b.lbl))
    ensures ops' == if b.noAudit then ops else ops + Tagged(id, OpsOf(b)[..|b.adds|])
  {
    quads', ops' := quads, ops;
    ghost var effs, rows := Effective(b.adds, b.lbl), OpsOf(b);
    assert effs[..0] == [] && Tagged(id, rows[..0]) == [];
    ElementsNone<Quad>();
    hide OpsOf, Tagged, Elements;
    for i := 0 to |b.adds|
      invariant quads' == quads + Elements(effs[..i])
      invariant ops' == if b.noAudit then ops else ops + Tagged(id, rows[..i])
    {
      var q := b.adds[i].Under(b.lbl);
      quads' := quads' + {q};
      ElementsNext(effs, i);
      OpsOfAdd(b, i);
      ops' := LogOp(ops', b, id, OpRow(true, q), ops, rows[..i]);
    }
    assert effs[..|b.adds|] == effs;
  }

  /** Commit's loop over the removes. */
  method DeleteRemoves(quads: set<Quad>, ops: seq<(Bytes, OpRow)>, b: Batch, id: Bytes, ghost base: seq<(Bytes, OpRow)>)
    returns (quads': set<Quad>, ops': seq<(Bytes, OpRow)>)
    requires ops == if b.noAudit then base else base + Tagged(id, OpsOf(b)[..|b.adds|])
    ensures quads' == quads - Elements(b.removes)
    ensures ops' == if b.noAudit then base else base + Tagged(id, OpsOf(b))
  {
    quads', ops' := quads, ops;
    ghost var rows, n := OpsOf(b), |b.adds|;
    ElementsNone<Quad>();
    WholeBatch(b);
    hide *;
    for i := 0 to |b.removes|
      invariant quads' == quads - Elements(b.removes[..i])
      invariant ops' == if b.noAudit then base else base + Tagged(id, rows[..n + i])
    {
      quads' := quads' - {b.removes[i]};
      ElementsNext(b.removes, i);
      OpsOfRemove(b, i);
      ops' := LogOp(ops', b, id, OpRow(false, b.removes[i]), base, rows[..n + i]);
    }
  }

  /** The commit row, then the adds' inserts, then the removes' deletes, each with its op row. */
  method RunBatch(f: File, b: Batch, id: Bytes, ts: int) returns (tx: File)
    ensures tx == CommitFile(f, b, id, ts)
  {
    var commits := f.commits;
    if !b.noAudit { commits := commits[id := CommitRow(ts, b.lbl, b.metadata)]; }
    hide OpsOf, Tagged, Elements, Effective;
    var quads, ops := InsertAdds(f.quads, f.ops, b, id);
    quads, ops := DeleteRemoves(quads, ops, b, id, f.ops);
    tx := File(quads, commits, ops);
  }
}
