/** The external ingest: chunks sorted into run files, runs merged into tables, tables handed to Pebble. */
module IngestExternal {
  import opened ByteOrder
  import opened IngestSorted
  import opened Keyspaces
  import opened LabelCount
  import opened PebbleStore
  import opened QuadKeys
  import opened Quads
  import opened Results
  import opened RunFile
  import opened RunMerge

  const DEFAULT_CHUNK: nat := 500_000

  // ---- the runs of one keyspace ----

  /** The run files of a keyspace hold, sorted by run, exactly the keys of the quads done. */
  ghost predicate RunsHold(files: seq<Bytes>, sp: Space, effs: seq<Quad>) {
    && AllClean(files) && AllSorted(KeysOf(files))
    && Union(KeysOf(files)) == Image(sp, Elements(effs))
    && TotalLen(KeysOf(files)) == |effs|
  }

  lemma UnionSnoc(runs: seq<seq<Bytes>>, run: seq<Bytes>)
    ensures Union(runs + [run]) == Union(runs) + Elements(run)
  {
    forall k | k in Union(runs) ensures k in Union(runs + [run]) {
      var r :| r in runs && k in r;
      assert r in runs + [run];
    }
    assert run in runs + [run];
  }

  lemma {:induction false} TotalLenSnoc(runs: seq<seq<Bytes>>, run: seq<Bytes>)
    ensures TotalLen(runs + [run]) == TotalLen(runs) + |run|
  {
    if runs == [] {
      assert ([] + [run])[1..] == [];
    } else {
      assert (runs + [run])[1..] == runs[1..] + [run];
      TotalLenSnoc(runs[1..], run);
    }
  }

  lemma ImageUnion(sp: Space, s: set<Quad>, t: set<Quad>)
    ensures Image(sp, s + t) == Image(sp, s) + Image(sp, t)
  {
    hide KeyOf;
  }

  lemma FileNext(files: seq<Bytes>, run: seq<Bytes>)
    requires AllClean(files) && AllSorted(KeysOf(files)) && Sorted(run) && AllEncodable(run)
    ensures AllClean(files + [RunBytes(run)]) && AllSorted(KeysOf(files + [RunBytes(run)]))
    ensures KeysOf(files + [RunBytes(run)]) == KeysOf(files) + [run]
  {
    ParseWritten(run);
    hide Parse, RunBytes, Sorted;
    assert KeysOf(files + [RunBytes(run)]) == KeysOf(files) + [run];
  }

  /** One more sorted run, written to a file, for the quads of one more chunk. */
  lemma RunsHoldNext(files: seq<Bytes>, sp: Space, effs: seq<Quad>, run: seq<Bytes>, chunk: seq<Quad>)
    requires RunsHold(files, sp, effs) && Sorted(run) && AllEncodable(run)
    requires Elements(run) == Image(sp, Elements(chunk)) && |run| == |chunk|
    ensures RunsHold(files + [RunBytes(run)], sp, effs + chunk)
  {
    FileNext(files, run);
    assert Elements(effs + chunk) == Elements(effs) + Elements(chunk);
    hide RunBytes, KeysOf, Image, Union, TotalLen, Sorted, AllClean, AllSorted, Elements, AllEncodable;
    UnionSnoc(KeysOf(files), run);
    TotalLenSnoc(KeysOf(files), run);
    ImageUnion(sp, Elements(effs), Elements(chunk));
  }

  lemma NoRuns(sp: Space)
    ensures RunsHold([], sp, [])
  {
    assert KeysOf([]) == [] && Elements<Quad>([]) == {};
    assert Union([]) == {} && Image(sp, {}) == {};
  }

  // ---- key sizes ----

  /** The quad's keys, all of one length, are short enough for a run file. */
  predicate Fits(q: Quad) {
    |q.subj| + |q.pred| + |q.obj| + |q.lbl| + 4 < EOF_MARKER
  }

  /** Every key fits exactly if each quad's fields, with its own label or the default, are short enough. */
  lemma AllFitMeans(qs: seq<Quad>, dl: Bytes)
    ensures AllFit(Effective(qs, dl))
      <==> forall i | 0 <= i < |qs| ::
             |qs[i].subj| + |qs[i].pred| + |qs[i].obj| + (if qs[i].lbl == [] then |dl| else |qs[i].lbl|) < 4294967291
  {
    var effs := Effective(qs, dl);
    forall i | 0 <= i < |qs|
      ensures effs[i].subj == qs[i].subj && effs[i].pred == qs[i].pred && effs[i].obj == qs[i].obj
      ensures effs[i].lbl == if qs[i].lbl == [] then dl else qs[i].lbl
    {
      UnderKeeps(qs[i], dl);
    }
    hide Effective, Quad.Under;
  }

  lemma KeyLength(sp: Space, q: Quad)
    ensures |KeyOf(sp, q)| == |q.subj| + |q.pred| + |q.obj| + |q.lbl| + 4
  {
    var f := Fields(sp, q);
    JoinLength(f[0], f[1..]);
    JoinLength(f[1], f[2..]);
    JoinLength(f[2], f[3..]);
    assert f == [f[0]] + f[1..] && f[1..] == [f[1]] + f[2..] && f[2..] == [f[2]] + f[3..] && f[3..] == [f[3]];
  }

  lemma JoinLength(f: Bytes, parts: seq<Bytes>)
    requires |parts| > 0
    ensures |Join([f] + parts)| == |f| + 1 + |Join(parts)|
  {
    assert ([f] + parts)[1..] == parts;
  }

  predicate AllFit(effs: seq<Quad>) {
    forall i | 0 <= i < |effs| :: Fits(effs[i])
  }

  lemma HeldFit(keys: seq<Bytes>, sp: Space, effs: seq<Quad>)
    requires HoldsKeys(keys, sp, effs)
    ensures AllEncodable(keys) <==> AllFit(effs)
  {
    forall i | 0 <= i < |effs| ensures Encodable(keys[i]) <==> Fits(effs[i]) { KeyLength(sp, effs[i]); }
    hide KeyOf, Encodable, Fits;
    if AllEncodable(keys) {
      forall i | 0 <= i < |effs| ensures Fits(effs[i]) { assert keys[i] in keys; }
    }
  }

  predicate LabelsOk(effs: seq<Quad>) {
    forall i | 0 <= i < |effs| :: LabelOk(effs[i].lbl)
  }

  /** Sorts one keyspace's keys of a chunk and writes them as a run. */
  method WriteRun(keys: seq<Bytes>, ghost sp: Space, ghost chunk: seq<Quad>) returns (r: Result<Bytes>,
          ghost run: seq<Bytes>)
    requires HoldsKeys(keys, sp, chunk)
    ensures r.Ok? <==> AllFit(chunk)
    ensures r.Err? ==> r.error == KeyTooLarge
    ensures r.Ok? ==> r.value == RunBytes(run) && Sorted(run) && AllEncodable(run)
    ensures r.Ok? ==> Elements(run) == Image(sp, Elements(chunk)) && |run| == |chunk|
  {
    var a := new Bytes[|keys|](i requires 0 <= i < |keys| => keys[i]);
    assert a[..] == keys;
    HeldKeysAre(keys, sp, chunk);
    HeldFit(keys, sp, chunk);
    SortKeys(a);
    run := a[..];
    SameMultisetElements(run, keys);
    forall k ensures k in run <==> k in keys { assert k in Elements(run) <==> k in Elements(keys); }
    hide RunBytes, Sorted, Encodable;
    r := WriteRunFile(a[..]);
  }

  /** The run files written so far, by keyspace. */
  datatype RunPaths = RunPaths(spo: seq<Bytes>, pos: seq<Bytes>, osp: seq<Bytes>, lsp: seq<Bytes>)

  ghost predicate PathsHold(p: RunPaths, effs: seq<Quad>) {
    RunsHold(p.spo, SPO, effs) && RunsHold(p.pos, POS, effs) && RunsHold(p.osp, OSP, effs) && RunsHold(p.lsp, LSP, effs)
  }

  /** Writes one run per keyspace for a chunk; no partial set is kept on an error. */
  method WriteRuns(p: RunPaths, spo: seq<Bytes>, pos: seq<Bytes>, osp: seq<Bytes>, lsp: seq<Bytes>,
                   ghost done: seq<Quad>, ghost effs: seq<Quad>)
    returns (r: Result<RunPaths>)
    requires PathsHold(p, done)
    requires HoldsKeys(spo, SPO, effs) && HoldsKeys(pos, POS, effs)
    requires HoldsKeys(osp, OSP, effs) && HoldsKeys(lsp, LSP, effs)
    ensures r.Ok? <==> AllFit(effs)
    ensures r.Err? ==> r.error == KeyTooLarge
    ensures r.Ok? ==> PathsHold(r.value, done + effs)
  {
    hide RunsHold, HoldsKeys, AllFit, RunBytes, Image, Elements, Sorted, AllEncodable;
    var f0, run0 := WriteRun(spo, SPO, effs);
    if f0.Err? { return Err(f0.error); }
    var f1, run1 := WriteRun(pos, POS, effs);
    var f2, run2 := WriteRun(osp, OSP, effs);
    var f3, run3 := WriteRun(lsp, LSP, effs);
    RunsHoldNext(p.spo, SPO, done, run0, effs);
    RunsHoldNext(p.pos, POS, done, run1, effs);
    RunsHoldNext(p.osp, OSP, done, run2, effs);
    RunsHoldNext(p.lsp, LSP, done, run3, effs);
    return Ok(RunPaths(p.spo + [f0.value], p.pos + [f1.value], p.osp + [f2.value], p.lsp + [f3.value]));
  }

  /** The labels of a chunk, checked as its keys are built. */
  method CheckLabels(chunk: seq<Quad>, dl: Bytes) returns (ok: bool)
    ensures ok == LabelsOk(Effective(chunk, dl))
  {
    hide LabelOk;
    ghost var effs := Effective(chunk, dl);
    for i := 0 to |chunk|
      invariant LabelsOk(effs[..i])
    {
      var q := chunk[i].Under(dl);
      ok := ValidateLabel(q.lbl);
      assert q == effs[i] && effs[..i + 1] == effs[..i] + [q];
      if !ok { return false; }
    }
    assert effs[..|chunk|] == effs;
    return true;
  }

  /** labelDeltas[label]++ for each quad of a chunk. */
  method AddCounts(deltas: Deltas, chunk: seq<Quad>, dl: Bytes, ghost done: seq<Quad>) returns (deltas': Deltas)
    requires deltas == Tally(done)
    ensures deltas' == Tally(done + Effective(chunk, dl))
  {
    deltas' := deltas;
    ghost var effs := Effective(chunk, dl);
    assert done + effs[..0] == done;
    for i := 0 to |chunk|
      invariant deltas' == Tally(done + effs[..i])
    {
      var eff := chunk[i].Under(dl);
      assert done + effs[..i + 1] == (done + effs[..i]) + [eff];
      assert (done + effs[..i + 1])[..|done| + i] == done + effs[..i];
      deltas' := Bump(deltas', eff.lbl, 1);
    }
    assert effs[..|chunk|] == effs;
  }

  /** A chunk as runs on disk, and the deltas with its labels counted. */
  method SpillChunk(chunk: seq<Quad>, dl: Bytes, runPaths: RunPaths, labelDeltas: Deltas, ghost done: seq<Quad>)
    returns (r: Result<(RunPaths, Deltas)>)
    requires PathsHold(runPaths, done) && labelDeltas == Tally(done)
    ensures r.Ok? <==> LabelsOk(Effective(chunk, dl)) && AllFit(Effective(chunk, dl))
    ensures r.Err? ==> r.error == if LabelsOk(Effective(chunk, dl)) then KeyTooLarge else InvalidLabel
    ensures r.Ok? ==> PathsHold(r.value.0, done + Effective(chunk, dl))
    ensures r.Ok? ==> r.value.1 == Tally(done + Effective(chunk, dl))
  {
    hide *;
    var ok := CheckLabels(chunk, dl);
    if !ok { return Err(InvalidLabel); }
    var kspo, kpos, kosp, klsp, _ := FillKeys(chunk, dl);
    var paths := WriteRuns(runPaths, kspo, kpos, kosp, klsp, done, Effective(chunk, dl));
    if paths.Err? { return Err(paths.error); }
    var deltas := AddCounts(labelDeltas, chunk, dl, done);
    return Ok((paths.value, deltas));
  }

  lemma NothingToSpill(effs: seq<Quad>)
    requires effs == []
    ensures LabelsOk(effs) && AllFit(effs)
  {}

  /** The spill state: the chunk in memory, the runs on disk, the deltas so far. */
  class Spill {
    const dl: Bytes
    var chunk: seq<Quad>
    var runPaths: RunPaths
    var labelDeltas: Deltas
    var runsCreated: nat
    /** The effective quads already spilled. */
    ghost var done: seq<Quad>

    ghost predicate Valid()
      reads this
    {
      PathsHold(runPaths, done) && labelDeltas == Tally(done)
    }

    constructor (dl: Bytes)
      ensures Valid() && this.dl == dl && chunk == [] && done == [] && runsCreated == 0
    {
      this.dl := dl;
      chunk, runPaths := [], RunPaths([], [], [], []);
      labelDeltas, runsCreated, done := map[], 0, [];
      NoRuns(SPO);
      NoRuns(POS);
      NoRuns(OSP);
      NoRuns(LSP);
    }

    /** flushChunk: one run per keyspace, or an error that ends the ingest. */
    method FlushChunk() returns (r: Result<()>)
      requires Valid()
      modifies this
      ensures r.Ok? <==> LabelsOk(Effective(old(chunk), dl)) && AllFit(Effective(old(chunk), dl))
      ensures r.Err? ==> r.error == if LabelsOk(Effective(old(chunk), dl)) then KeyTooLarge else InvalidLabel
      ensures r.Ok? ==> Valid() && chunk == [] && done == old(done) + Effective(old(chunk), dl)
      ensures r.Ok? ==> runsCreated == old(runsCreated) + if old(chunk) == [] then 0 else 1
    {
      hide PathsHold, AllFit, LabelsOk, Tally, Effective;
      ghost var effs := Effective(chunk, dl);
      if |chunk| == 0 {
        NothingToSpill(effs);
        assert done + effs == done;
        return Ok(());
      }
      var spilled := SpillChunk(chunk, dl, runPaths, labelDeltas, done);
      if spilled.Err? { return Err(spilled.error); }
      runPaths, labelDeltas := spilled.value.0, spilled.value.1;
      runsCreated, chunk, done := runsCreated + 1, [], done + effs;
      return Ok(());
    }
  }

  // ---- reading the input ----

  /** What a chunk of effective quads must meet to be spilled. */
  predicate Spillable(effs: seq<Quad>) {
    LabelsOk(effs) && AllFit(effs)
  }

  lemma SpillableNext(effs: seq<Quad>, c: nat, i: nat)
    requires c <= i <= |effs| && Spillable(effs[..c])
    ensures Spillable(effs[c..i]) <==> Spillable(effs[..i])
    ensures !Spillable(effs[c..i]) ==> !Spillable(effs)
  {
    hide Fits, LabelOk;
    assert forall j | c <= j < i :: effs[c..i][j - c] == effs[j];
    forall j | 0 <= j < i ensures effs[..i][j] == if j < c then effs[..c][j] else effs[c..i][j - c] {}
  }

  lemma EffectiveSlice(quads: seq<Quad>, dl: Bytes, c: nat, i: nat)
    requires c <= i <= |quads|
    ensures Effective(quads[c..i], dl) == Effective(quads, dl)[c..i]
  {}

  /** The runs of a chunked input: every chunk full but perhaps the last. */
  function RunCount(n: nat, size: nat): nat
    requires size > 0
  {
    n / size + if n % size == 0 then 0 else 1
  }

  /** The runs have room for the input, and one run less would not. */
  lemma RunCountCeiling(n: nat, size: nat)
    requires size > 0
    ensures n <= RunCount(n, size) * size && (n > 0 ==> (RunCount(n, size) - 1) * size < n)
  {
    var q, m := n / size, n % size;
    assert n == q * size + m;
    assert (q + 1) * size == q * size + size && (q - 1) * size == q * size - size;
  }

  lemma RunCountIs(runs: nat, rest: nat, size: nat)
    requires rest < size
    ensures RunCount(runs * size + rest, size) == runs + if rest == 0 then 0 else 1
  {
    DivModUnique(runs, rest, size, runs * size + rest);
  }

  lemma DivModUnique(d: nat, m: nat, size: nat, n: nat)
    requires m < size && n == d * size + m
    ensures n / size == d && n % size == m
  {
    var d', m' := n / size, n % size;
    assert size * (d - d') == m' - m;
    AtLeastOnce(size, d - d');
  }

  lemma AtLeastOnce(size: nat, k: int)
    ensures k >= 1 ==> size * k >= size
    ensures k <= -1 ==> size * k + size <= 0
  {
    assert size * k == size * (k - 1) + size == size * (k + 1) - size;
  }

  /** What is wrong with a chunk is wrong with the input. */
  lemma PartOf(effs: seq<Quad>, c: nat, i: nat)
    requires c <= i <= |effs|
    ensures LabelsOk(effs) ==> LabelsOk(effs[c..i])
    ensures AllFit(effs) ==> AllFit(effs[c..i])
  {
    hide LabelOk, Fits;
  }

  /** A flush in place: the quads spilled now reach up to the i-th. */
  method FlushThrough(sp: Spill, ghost input: seq<Quad>, ghost c: nat, ghost i: nat) returns (r: Result<()>)
    requires sp.Valid() && c <= i <= |input| && sp.chunk == input[c..i]
    requires sp.done == Effective(input, sp.dl)[..c] && Spillable(Effective(input, sp.dl)[..c])
    modifies sp
    ensures r.Ok? <==> Spillable(Effective(input, sp.dl)[..i])
    ensures r.Err? ==> !Spillable(Effective(input, sp.dl))
    ensures r.Err? ==>
      || (r.error == InvalidLabel && !LabelsOk(Effective(input, sp.dl)))
      || (r.error == KeyTooLarge && !AllFit(Effective(input, sp.dl)))
    ensures r.Ok? ==> sp.Valid() && sp.chunk == [] && sp.done == Effective(input, sp.dl)[..i]
    ensures r.Ok? ==> sp.runsCreated == old(sp.runsCreated) + if c == i then 0 else 1
  {
    ghost var effs := Effective(input, sp.dl);
    EffectiveSlice(input, sp.dl, c, i);
    SpillableNext(effs, c, i);
    assert effs[..c] + effs[c..i] == effs[..i];
    PartOf(effs, c, i);
    hide PathsHold, Tally, Effective, LabelsOk, AllFit;
    r := sp.FlushChunk();
  }

  /** Phase 1: reads the input to its end, spilling a chunk whenever it is full. */
  method ReadChunks(input: seq<Quad>, dl: Bytes, size: nat) returns (r: Option<Error>, sp: Spill)
    requires size > 0
    ensures fresh(sp)
    ensures r.None? <==> (forall i | 0 <= i < |input| :: input[i].IsValid()) && Spillable(Effective(input, dl))
    ensures r.Some? ==>
      || (r.value == EmptyQuad && exists i | 0 <= i < |input| :: !input[i].IsValid())
      || (r.value == InvalidLabel && !LabelsOk(Effective(input, dl)))
      || (r.value == KeyTooLarge && !AllFit(Effective(input, dl)))
    ensures r.None? ==> PathsHold(sp.runPaths, Effective(input, dl)) && sp.labelDeltas == Tally(Effective(input, dl))
    ensures r.None? ==> sp.runsCreated == RunCount(|input|, size)
  {
    hide PathsHold, Tally, Quad.IsValid, Spillable, RunCount, Effective, LabelsOk, AllFit;
    ghost var effs := Effective(input, dl);
    ghost var c := 0;
    sp := new Spill(dl);
    EmptySpillable(effs[..0]);
    for i := 0 to |input|
      invariant fresh(sp) && sp.Valid() && sp.dl == dl
      invariant c <= i && sp.done == effs[..c] && sp.chunk == input[c..i]
      invariant |sp.chunk| < size && sp.runsCreated * size == c
      invariant Spillable(effs[..c])
      invariant forall j | 0 <= j < i :: input[j].IsValid()
    {
      if !input[i].IsValid() { return Some(EmptyQuad), sp; }
      sp.chunk := sp.chunk + [input[i]];
      assert sp.chunk == input[c..i + 1];
      if |sp.chunk| >= size {
        var flushed := FlushThrough(sp, input, c, i + 1);
        if flushed.Err? { return Some(flushed.error), sp; }
        c := i + 1;
      }
    }
    RunCountIs(sp.runsCreated, |sp.chunk|, size);
    assert effs[..|input|] == effs;
    var flushed := FlushThrough(sp, input, c, |input|);
    if flushed.Err? { return Some(flushed.error), sp; }
    return None, sp;
  }

  lemma EmptySpillable(effs: seq<Quad>)
    requires effs == []
    ensures Spillable(effs)
  {}

  // ---- merging and ingesting ----

  /** Phase 2 for one keyspace: its runs merged into a table. */
  method MergeKeyspace(files: seq<Bytes>, ghost sp: Space, ghost effs: seq<Quad>) returns (table: seq<Bytes>,
          deduped: nat)
    requires RunsHold(files, sp, effs)
    ensures StrictlySorted(table) && Elements(table) == Image(sp, Elements(effs))
    ensures deduped == |effs| - |Image(sp, Elements(effs))|
    ensures AllNulFree(Elements(effs)) ==> deduped == |effs| - |Elements(effs)|
  {
    if AllNulFree(Elements(effs)) { ImageSize(sp, Elements(effs)); }
    hide StrictlySorted, Union, KeysOf, Image, Elements, TotalLen, AllSorted, AllClean, AllNulFree;
    var merged := MergeRuns(files);
    table, deduped := merged.value.0, merged.value.1;
    StrictlySortedDistinct(table);
  }

  /** Phase 2: the four tables, and the duplicates the first of them dropped. */
  method MergeAll(runPaths: RunPaths, ghost effs: seq<Quad>) returns (tables: seq<seq<Bytes>>, deduped: nat)
    requires PathsHold(runPaths, effs)
    ensures FourTables(tables, Elements(effs)) && |tables| == 4
    ensures deduped == |effs| - |Image(SPO, Elements(effs))|
  {
    hide RunsHold, AllNulFree, Elements, Image, StrictlySorted;
    var tSPO;
    tSPO, deduped := MergeKeyspace(runPaths.spo, SPO, effs);
    var tPOS, _ := MergeKeyspace(runPaths.pos, POS, effs);
    var tOSP, _ := MergeKeyspace(runPaths.osp, OSP, effs);
    var tLSP, _ := MergeKeyspace(runPaths.lsp, LSP, effs);
    FourTablesFrom(tSPO, tPOS, tOSP, tLSP, Elements(effs));
    tables := [tSPO, tPOS, tOSP, tLSP];
  }

  datatype ExternalStats = ExternalStats(ingested: int, duplicates: nat, tables: nat, runsCreated: nat)

  /**
   * The external ingest. It succeeds exactly when the in-memory one does and every key fits a run file,
   * whatever the chunk size, and then it ends in the same outcome.
   */
  method IngestExternal(store: Store, input: seq<Quad>, dl: Bytes, chunkSize: int) returns (r: Result<ExternalStats>)
    modifies store.db
    ensures r.Ok?
      <==> && !store.closed && IngestOk(input, dl)
           && forall i | 0 <= i < |input| ::
                var q := input[i];
                |q.subj| + |q.pred| + |q.obj| + (if q.lbl == [] then |dl| else |q.lbl|) < 4294967291
    ensures r.Err? ==>
      store.db.kv == old(store.db.kv) && r.error in {StoreClosed, InvalidLabel, EmptyQuad, KeyTooLarge}
    ensures r == Err(StoreClosed) <==> store.closed
    ensures r == Err(InvalidLabel) ==> !LabelOk(dl) || exists i | 0 <= i < |input| :: !LabelOk(input[i].lbl)
    ensures r == Err(EmptyQuad) ==>
      exists i | 0 <= i < |input| :: input[i].subj == [] || input[i].pred == [] || input[i].obj == []
    ensures r == Err(KeyTooLarge) ==>
      exists i | 0 <= i < |input| ::
        var q := input[i];
        |q.subj| + |q.pred| + |q.obj| + (if q.lbl == [] then |dl| else |q.lbl|) >= 4294967291
    ensures r.Ok? ==> r.value.ingested >= 0
    ensures r.Ok? ==>
      Outcome(store.db.kv, r.value.ingested, r.value.duplicates) == Ingestion(old(store.db.kv), input, dl)
    ensures r.Ok? && AllNulFree(Elements(input)) && NulFree(dl) ==>
      && r.value.ingested == |Given(input, dl)| && r.value.duplicates == |input| - |Given(input, dl)|
      && forall s | Indexes(old(store.db.kv), s) :: Indexes(store.db.kv, s + Given(input, dl))
    ensures r.Ok? ==> r.value.tables == 4
    ensures r.Ok? ==> r.value.runsCreated == RunCount(|input|, if chunkSize <= 0 then 500_000 else chunkSize)
  {
    hide *;
    if store.closed { return Err(StoreClosed); }
    var ok := ValidateLabel(dl);
    if !ok {
      BadDefault(input, dl);
      return Err(InvalidLabel);
    }
    DefaultChunk();
    var size := if chunkSize <= 0 then DEFAULT_CHUNK else chunkSize;
    ghost var effs := Effective(input, dl);
    var err, sp := ReadChunks(input, dl, size);
    AcceptedInput(input, dl);
    AllFitMeans(input, dl);
    BadInput(input, dl);
    IngestionIs(store.db.kv, input, dl);
    if err.Some? { return Err(err.value); }
    if AllNulFree(Elements(input)) && NulFree(dl) { IngestionCounts(store.db.kv, input, dl); }
    var tables, deduped := MergeAll(sp.runPaths, effs);
    IngestTables(store, tables, sp.labelDeltas, effs);
    return Ok(ExternalStats(|input| - deduped, deduped, |tables|, sp.runsCreated));
  }

  /** What is wrong with the effective quads, said of the quads given. */
  lemma BadInput(input: seq<Quad>, dl: Bytes)
    ensures !LabelsOk(Effective(input, dl)) ==> !LabelOk(dl) || exists i | 0 <= i < |input| :: !LabelOk(input[i].lbl)
    ensures !AllFit(Effective(input, dl)) ==>
      exists i | 0 <= i < |input| ::
        var q := input[i];
        |q.subj| + |q.pred| + |q.obj| + (if q.lbl == [] then |dl| else |q.lbl|) >= 4294967291
    ensures forall i | 0 <= i < |input| && !input[i].IsValid() ::
      input[i].subj == [] || input[i].pred == [] || input[i].obj == []
  {
    AllFitMeans(input, dl);
    hide LabelOk, AllFit, Fits;
  }

  lemma DefaultChunk()
    ensures DEFAULT_CHUNK == 500_000
  {}

  lemma BadDefault(input: seq<Quad>, dl: Bytes)
    requires !LabelOk(dl)
    ensures !IngestOk(input, dl)
  {}

  lemma AcceptedInput(input: seq<Quad>, dl: Bytes)
    requires LabelOk(dl)
    ensures IngestOk(input, dl) && AllFit(Effective(input, dl))
      <==> (forall i | 0 <= i < |input| :: input[i].IsValid()) && Spillable(Effective(input, dl))
  {
    hide Fits, LabelOk, Quad.IsValid;
    ghost var effs := Effective(input, dl);
    assert forall i | 0 <= i < |input| :: effs[i] == input[i].Under(dl);
  }
}
