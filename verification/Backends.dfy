/** The two backends side by side: the same commits leave the same quads and the same audit rows. */
module Backends {
  import opened ByteOrder
  import opened History
  import opened Journal
  import opened Partitioned
  import opened PartitionedWriter
  import opened Pebble
  import opened QuadKeys
  import opened Quads
  import opened Replay
  import opened Results
  import opened StoreModel
  import PebbleStore

  /** The events both backends share. */
  predicate OnlyCommits(es: seq<History.Event>) {
    forall i | 0 <= i < |es| :: es[i].Committed?
  }

  /** The commits on a single-file store. */
  function SqliteFile(es: seq<History.Event>): File
    requires OnlyCommits(es)
  {
    if es == [] then EMPTY_FILE
    else
      var e := es[|es| - 1];
      CommitFile(SqliteFile(es[..|es| - 1]), e.batch, e.id, e.ts)
  }

  /** A single-file writer accepts a batch exactly if a Pebble writer does. */
  lemma SameBatchesAccepted(rt: Routing, b: Batch)
    requires rt.Valid()
    ensures !rt.IsPartitioned() ==> (CommitFits(rt, 0, b) <==> Accepted(b))
    ensures CommitFits(rt, 0, b) ==> Accepted(b)
  {}

  /** A file and an abstract log hold the same audit rows: the commits, and each one's ops in order. */
  ghost predicate SameAudit(f: File, log: Log) {
    f.commits == log.commits && forall id :: LogHolds(log, id, RowsFor(f.ops, id))
  }

  lemma SameAuditNext(f: File, v: View, b: Batch, id: Bytes, ts: int)
    requires SameAudit(f, v.log) && LogOk(v.log)
    requires !b.noAudit ==> id !in v.log.commits
    ensures SameAudit(CommitFile(f, b, id, ts), CommitView(v, b, id, ts).log)
  {
    var f', log' := CommitFile(f, b, id, ts), CommitView(v, b, id, ts).log;
    if !b.noAudit {
      forall i ensures LogHolds(log', i, RowsFor(f'.ops, i)) { RowsAfter(f, v, b, id, ts, i); }
    }
  }

  lemma RowsAfter(f: File, v: View, b: Batch, id: Bytes, ts: int, i: Bytes)
    requires SameAudit(f, v.log) && LogOk(v.log) && !b.noAudit && id !in v.log.commits
    ensures LogHolds(CommitView(v, b, id, ts).log, i, RowsFor(CommitFile(f, b, id, ts).ops, i))
  {
    assert LogHolds(v.log, i, RowsFor(f.ops, i));
    TableRowsAfter(f, b, id, ts, i);
    CommitKeepsRows(v, b, id, ts);
    if i == id {
      NoRowsYet(v.log, id, RowsFor(f.ops, id));
      assert [] + OpsOf(b) == OpsOf(b);
    } else {
      OtherRowsKept(v, b, id, ts, i, RowsFor(f.ops, i));
    }
  }

  lemma TableRowsAfter(f: File, b: Batch, id: Bytes, ts: int, i: Bytes)
    requires !b.noAudit
    ensures RowsFor(CommitFile(f, b, id, ts).ops, i) == RowsFor(f.ops, i) + if i == id then OpsOf(b) else []
  {
    hide OpsOf, RowsFor, Tagged;
    RowsForConcat(f.ops, Tagged(id, OpsOf(b)), i);
    RowsForTagged(id, OpsOf(b), i);
  }

  lemma NoRowsYet(log: Log, id: Bytes, rows: seq<OpRow>)
    requires LogOk(log) && id !in log.commits && LogHolds(log, id, rows)
    ensures rows == []
  {
    assert (id, 0) !in log.ops;
  }

  lemma OtherRowsKept(v: View, b: Batch, id: Bytes, ts: int, i: Bytes, rows: seq<OpRow>)
    requires i != id && LogHolds(v.log, i, rows) && !b.noAudit
    ensures LogHolds(CommitView(v, b, id, ts).log, i, rows + [])
  {
    hide OpsOf;
    assert rows + [] == rows;
  }

  /**
   * Over any sequence of commits a single-file SQLite store and a Pebble store hold the same quads, the
   * same commits and, commit by commit, the same ops in the same order.
   */
  lemma {:induction false} BackendsAgree(es: seq<History.Event>)
    requires RunOk(es) && OnlyCommits(es)
    ensures SqliteFile(es).quads == RunView(es).quads
    ensures SameAudit(SqliteFile(es), RunView(es).log)
  {
    hide CommitView, CommitFile, SameAudit, OpsOf, RowsFor, LogOk;
    if es == [] {
      EmptyAgree();
    } else {
      var front, e := es[..|es| - 1], es[|es| - 1];
      assert es[|es| - 1].Committed?;
      BackendsAgree(front);
      RunLogOk(front);
      SameAuditNext(SqliteFile(front), RunView(front), e.batch, e.id, e.ts);
      SameQuadsNext(SqliteFile(front), RunView(front), e.batch, e.id, e.ts);
    }
  }

  lemma EmptyAgree()
    ensures SameAudit(EMPTY_FILE, EMPTY.log)
  {}

  lemma SameQuadsNext(f: File, v: View, b: Batch, id: Bytes, ts: int)
    requires f.quads == v.quads
    ensures CommitFile(f, b, id, ts).quads == CommitView(v, b, id, ts).quads
  {}

  // ---- replaying the op table ----

  /** The op table's rows in insertion order. */
  function TableRows(ops: seq<(Bytes, OpRow)>): (r: seq<OpRow>)
    ensures |r| == |ops|
  {
    seq(|ops|, i requires 0 <= i < |ops| => ops[i].1)
  }

  /** When every commit is audited and nothing pruned, replaying the op table in order rebuilds the quads. */
  lemma {:induction false} TableReplays(es: seq<History.Event>)
    requires OnlyCommits(es) && forall i | 0 <= i < |es| :: !es[i].batch.noAudit
    ensures ReplayRows({}, TableRows(SqliteFile(es).ops)) == SqliteFile(es).quads
  {
    hide OpsOf, SetAfter, ReplayRows;
    if es == [] {
      NothingReplayed();
    } else {
      var n := |es| - 1;
      var f, b := SqliteFile(es[..n]), es[n].batch;
      TableReplays(es[..n]);
      assert TableRows(SqliteFile(es).ops) == TableRows(f.ops) + OpsOf(b);
      ReplayConcat({}, TableRows(f.ops), OpsOf(b));
      ReplayBatch(f.quads, b);
    }
  }

  lemma NothingReplayed()
    ensures ReplayRows({}, []) == {}
  {}

  // ---- the two writers in step ----

  /** Both stores hold what the abstract store holds. */
  ghost predicate InStep(kv: KV, f: File, v: View) {
    Represents(kv, v) && f.quads == v.quads && SameAudit(f, v.log)
  }

  /** One batch given to both writers: both accept it or both refuse it, and the stores stay in step. */
  method CommitBoth(pebble: PebbleStore.Writer, sqlite: Writer, ghost v: View, b: Batch, id: Bytes, ts: int)
    returns (rp: Result<()>, rs: Result<()>, ghost v': View)
    requires sqlite.Valid() && !sqlite.store.routing.IsPartitioned() && sqlite.part == 0
    requires !pebble.closed && !sqlite.closed
    requires InStep(pebble.store.db.kv, sqlite.store.parts[0].file, v) && CommitOk(v, b, id, ts)
    modifies pebble.store.db, {sqlite.store.parts[0]}`file
    ensures (rp.Ok? <==> Accepted(b)) && (rs.Ok? <==> Accepted(b))
    ensures v' == if Accepted(b) then CommitView(v, b, id, ts) else v
    ensures InStep(pebble.store.db.kv, sqlite.store.parts[0].file, v')
  {
    hide InStep, Accepted, CommitKv, CommitFile, CommitView, CommitFits, CommitOk, Routing.Valid;
    SameBatchesAccepted(sqlite.store.routing, b);
    InStepNext(pebble.store.db.kv, sqlite.store.parts[0].file, v, b, id, ts);
    v' := if Accepted(b) then CommitView(v, b, id, ts) else v;
    rp := pebble.Commit(b, id, ts);
    rs := sqlite.Commit(b, id, ts);
    assert sqlite.store.Files()[0] == sqlite.store.parts[0].file;
  }

  lemma InStepNext(kv: KV, f: File, v: View, b: Batch, id: Bytes, ts: int)
    requires InStep(kv, f, v) && CommitOk(v, b, id, ts)
    ensures InStep(CommitKv(kv, b, id, ts), CommitFile(f, b, id, ts), CommitView(v, b, id, ts))
  {
    assert LogOk(v.log);
    hide Represents, CommitKv, CommitView, CommitFile, SameAudit, LogOk;
    CommitRepresents(kv, v, b, id, ts);
    SameAuditNext(f, v, b, id, ts);
    SameQuadsNext(f, v, b, id, ts);
  }

  /** Down to the key map: the ops read back from a Pebble store are the rows of the SQLite table. */
  lemma SameOpsRead(es: seq<History.Event>, id: Bytes)
    requires RunOk(es) && OnlyCommits(es) && NulFree(id)
    ensures RowsRead(RunKv(es), id) == RowsFor(SqliteFile(es).ops, id)
  {
    BackendsAgree(es);
    RunRepresents(es);
    hide RowsFor;
    RowsReadBack(RunKv(es), RunView(es).log, id, RowsFor(SqliteFile(es).ops, id));
  }

  /** And so are the commits: the ids, times, labels and metadata read back are those of the SQLite table. */
  lemma SameCommitsRead(es: seq<History.Event>)
    requires RunOk(es) && OnlyCommits(es)
    ensures CommitsRead(RunKv(es)) == SqliteFile(es).commits
  {
    BackendsAgree(es);
    RunRepresents(es);
    hide RowsFor, CommitsRead;
    CommitsReadBack(RunKv(es), RunView(es).log);
  }
}
