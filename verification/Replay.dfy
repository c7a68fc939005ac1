/** Reading the audit log back: replaying a store's op rows rebuilds its quads. */
module Replay {
  import opened ByteOrder
  import opened History
  import opened Integers
  import opened Journal
  import opened Keyspaces
  import opened Pebble
  import opened QuadKeys
  import opened Quads
  import opened StoreModel

  // ---- one commit's rows, read from the key map ----

  /** The op keys of a commit. */
  function OpKeysOf(kv: KV, id: Bytes): set<Bytes> {
    set k | k in kv && [COMMIT_OPS] + id + [SEP] <= k
  }

  /** The row stored under a key. */
  ghost function RowAt(kv: KV, k: Bytes): OpRow {
    if k in kv && exists r :: kv[k] == OpValue(r) then
      var r :| kv[k] == OpValue(r);
      r
    else OpRow(true, Quad([], [], [], []))
  }

  /** A commit's rows in sequence order. */
  ghost function RowsRead(kv: KV, id: Bytes): seq<OpRow> {
    seq(|OpKeysOf(kv, id)|, i requires 0 <= i => RowAt(kv, OpKey(id, i)))
  }

  /** The log's rows of a commit are these. */
  ghost predicate LogHolds(log: Log, id: Bytes, rows: seq<OpRow>) {
    forall n: nat :: ((id, n) in log.ops <==> n < |rows|) && (n < |rows| ==> log.ops[(id, n)] == rows[n])
  }

  lemma OpKeyOwner(id: Bytes, id': Bytes, n: nat)
    requires NulFree(id) && NulFree(id')
    ensures [COMMIT_OPS] + id + [SEP] <= OpKey(id', n) <==> id == id'
  {
    var p, k := [COMMIT_OPS] + id + [SEP], OpKey(id', n);
    if p <= k {
      var x := k[|p|..];
      assert k[1..] == id + [SEP] + x && k[1..] == id' + [SEP] + PutUvarint(n);
      IndexAfter(id, SEP, x);
      IndexAfter(id', SEP, PutUvarint(n));
      assert id == k[1..][..|id|] && id' == k[1..][..|id'|];
    }
  }

  lemma {:induction false} SeqKeysSize(id: Bytes, n: nat)
    requires NulFree(id)
    ensures |SeqKeys(id, n)| == n
  {
    if n == 0 {
      assert SeqKeys(id, 0) == {};
    } else {
      SeqKeysSize(id, n - 1);
      SeqKeysNext(id, n - 1);
    }
  }

  lemma OpKeysAre(kv: KV, log: Log, id: Bytes, rows: seq<OpRow>)
    requires Journaled(kv, log) && LogHolds(log, id, rows) && NulFree(id)
    ensures OpKeysOf(kv, id) == SeqKeys(id, |rows|)
  {
    hide OpKey, OpValue;
    forall k | k in OpKeysOf(kv, id) ensures k in SeqKeys(id, |rows|) {
      assert k[0] == COMMIT_OPS && k in KeysIn(kv, COMMIT_OPS);
      var p :| p in log.ops && OpKeyOf(p) == k;
      OpKeyOwner(id, p.0, p.1);
      assert (id, p.1) in log.ops;
    }
    forall i: nat | i < |rows| ensures OpKey(id, i) in OpKeysOf(kv, id) {
      assert (id, i) in log.ops && OpKeyOf((id, i)) in kv;
      OpKeyOwner(id, id, i);
    }
  }

  /** A commit's rows are read back exactly, NULs in the fields included. */
  lemma RowsReadBack(kv: KV, log: Log, id: Bytes, rows: seq<OpRow>)
    requires Journaled(kv, log) && LogHolds(log, id, rows) && NulFree(id)
    ensures RowsRead(kv, id) == rows
  {
    hide OpKey, OpValue;
    OpKeysAre(kv, log, id, rows);
    SeqKeysSize(id, |rows|);
    forall i: nat | i < |rows| ensures RowAt(kv, OpKey(id, i)) == rows[i] {
      assert (id, i) in log.ops && OpKeyOf((id, i)) == OpKey(id, i);
      var k := OpKey(id, i);
      assert k in kv && kv[k] == OpValue(rows[i]);
      var r := RowAt(kv, k);
      assert kv[k] == OpValue(r);
      assert OpValue(r) + [] == OpValue(rows[i]) + [];
      OpValueInjective(r, [], rows[i], []);
    }
  }

  // ---- whole runs ----

  /** Every quad write of the run is audited. */
  predicate Audited(es: seq<Event>) {
    forall i | 0 <= i < |es| :: es[i].CountersReplaced? || (es[i].Committed? && !es[i].batch.noAudit)
  }

  /** The ids of the run's commits, in order. */
  function Ids(es: seq<Event>): seq<Bytes> {
    if es == [] then []
    else
      var e := es[|es| - 1];
      Ids(es[..|es| - 1]) + if e.Committed? then [e.id] else []
  }

  /** The quads rebuilt from a key map's op rows, commit by commit, row by row. */
  ghost function ReplayCommits(kv: KV, ids: seq<Bytes>): set<Quad> {
    if ids == [] then {} else ReplayRows(ReplayCommits(kv, ids[..|ids| - 1]), RowsRead(kv, ids[|ids| - 1]))
  }

  lemma CommitsGrow(v: View, b: Batch, id: Bytes, ts: int)
    requires !b.noAudit
    ensures CommitView(v, b, id, ts).log.commits.Keys == v.log.commits.Keys + {id}
  {}

  /** A commit adds its own rows and keeps those of earlier commits. */
  lemma CommitKeepsRows(v: View, b: Batch, id: Bytes, ts: int)
    requires !b.noAudit && LogOk(v.log) && id !in v.log.commits
    ensures LogHolds(CommitView(v, b, id, ts).log, id, OpsOf(b))
    ensures RowsKept(v.log, CommitView(v, b, id, ts).log)
  {
    hide OpsOf;
    var log' := CommitView(v, b, id, ts).log;
    assert log' == LogAfter(v.log, b, id, ts);
    forall n: nat ensures (id, n) in log'.ops <==> n < |OpsOf(b)| {
      assert (id, n) !in v.log.ops;
    }
  }

  lemma RowsKeptHold(log: Log, log': Log, id: Bytes, rows: seq<OpRow>)
    requires RowsKept(log, log') && LogHolds(log, id, rows) && id in log.commits
    ensures LogHolds(log', id, rows)
  {}

  /** Replaying, from any later state of the log, the commits of a run. */
  lemma {:induction false} ReplayOver(es: seq<Event>, kv: KV, log: Log)
    requires RunOk(es) && Audited(es) && Journaled(kv, log) && RowsKept(RunView(es).log, log)
    ensures ReplayCommits(kv, Ids(es)) == RunView(es).quads
  {
    hide CommitView, OpsOf, Journaled, RowsRead, LogHolds, RowsKept, ReplayRows, SetAfter;
    if es != [] {
      var front, e := es[..|es| - 1], es[|es| - 1];
      assert es[|es| - 1].CountersReplaced? || es[|es| - 1].Committed?;
      assert Audited(front);
      if e.Committed? {
        ReplayStep(front, e, kv, log);
        ReplayOver(front, kv, log);
        assert Ids(es) == Ids(front) + [e.id];
        assert Ids(es)[..|Ids(es)| - 1] == Ids(front);
        ReplayBatch(RunView(front).quads, e.batch);
      } else {
        ReplayOver(front, kv, log);
        assert Ids(es) == Ids(front);
      }
    }
  }

  lemma RowsKeptSelf(log: Log)
    ensures RowsKept(log, log)
  {}

  /** One store operation keeps the rows of earlier commits. */
  lemma StepKeepsRows(front: seq<Event>, e: Event)
    requires RunOk(front) && EventOk(front, e)
    ensures RowsKept(RunView(front).log, StepView(RunView(front), e).log)
  {
    var v := RunView(front);
    RunLogOk(front);
    hide RowsKept, OpsOf, RunView, RunOk, LogOk;
    if e.Committed? && !e.batch.noAudit {
      CommitKeepsRows(v, e.batch, e.id, e.ts);
    } else {
      RowsKeptSelf(v.log);
    }
  }

  lemma RowsKeptOn(log: Log, log': Log, log'': Log)
    requires RowsKept(log, log') && RowsKept(log', log'')
    ensures RowsKept(log, log'')
  {}

  /** Any later state of a run has the rows of the commits made before. */
  lemma {:induction false} RunKeepsRows(es: seq<Event>, n: nat)
    requires RunOk(es) && n <= |es|
    ensures RunOk(es[..n]) && RowsKept(RunView(es[..n]).log, RunView(es).log)
  {
    hide RowsKept, StepView, EventOk;
    if n == |es| {
      assert es[..n] == es;
      RowsKeptSelf(RunView(es).log);
    } else {
      var front, e := es[..|es| - 1], es[|es| - 1];
      assert front[..n] == es[..n];
      RunKeepsRows(front, n);
      StepKeepsRows(front, e);
      RowsKeptOn(RunView(es[..n]).log, RunView(front).log, RunView(es).log);
    }
  }

  lemma ReplayStep(front: seq<Event>, e: Event, kv: KV, log: Log)
    requires RunOk(front) && EventOk(front, e) && e.Committed? && !e.batch.noAudit
    requires Journaled(kv, log) && RowsKept(StepView(RunView(front), e).log, log)
    ensures RowsKept(RunView(front).log, log)
    ensures RowsRead(kv, e.id) == OpsOf(e.batch)
    ensures StepView(RunView(front), e).quads == SetAfter(RunView(front).quads, e.batch)
  {
    hide OpsOf, Journaled, SetAfter, RowsRead;
    var v := RunView(front);
    RunLogOk(front);
    CommitKeepsRows(v, e.batch, e.id, e.ts);
    RowsKeptHold(CommitView(v, e.batch, e.id, e.ts).log, log, e.id, OpsOf(e.batch));
    RowsReadBack(kv, log, e.id, OpsOf(e.batch));
  }

  lemma RunLogOk(es: seq<Event>)
    requires RunOk(es)
    ensures LogOk(RunView(es).log)
  {
    RunRepresents(es);
  }

  /**
   * When every write is audited, the op rows read back from the key map, commit by commit and in sequence
   * order, rebuild the current quads.
   */
  lemma ReplayRebuilds(es: seq<Event>)
    requires RunOk(es) && Audited(es)
    ensures ReplayCommits(RunKv(es), Ids(es)) == RunView(es).quads
  {
    RunRepresents(es);
    RowsKeptSelf(RunView(es).log);
    hide *;
    ReplayOver(es, RunKv(es), RunView(es).log);
  }

  // ---- commit order from the commit keys ----

  /** The ids found by scanning the commit rows in key order. */
  function CommitIdsRead(kv: KV): seq<Bytes> {
    var keys := RangeKeys(kv, [COMMITS], [COMMITS + 1]);
    seq(|keys|, i requires 0 <= i < |keys| => if keys[i] == [] then [] else keys[i][1..])
  }

  lemma {:induction false} RunCommitIds(es: seq<Event>)
    requires Audited(es)
    ensures Elements(Ids(es)) == RunView(es).log.commits.Keys
  {
    hide CommitView;
    if es != [] {
      RunCommitIds(es[..|es| - 1]);
      var e := es[|es| - 1];
      if e.Committed? { CommitsGrow(RunView(es[..|es| - 1]), e.batch, e.id, e.ts); }
    }
  }

  /** The scanned keys are the commit keys of the scanned ids. */
  lemma ScannedKeys(kv: KV, log: Log)
    requires Journaled(kv, log)
    ensures var keys, ids := RangeKeys(kv, [COMMITS], [COMMITS + 1]), CommitIdsRead(kv);
      && (forall i | 0 <= i < |keys| :: keys[i] == [COMMITS] + ids[i])
      && (forall k :: k in keys <==> k in CommitKeySet(log))
  {
    hide RangeKeys, CommitKeySet, CommitKey, OpKeySet, LogOk, CommitValue, OpValue, OpKeyOf;
    var keys, ids := RangeKeys(kv, [COMMITS], [COMMITS + 1]), CommitIdsRead(kv);
    forall k ensures k in keys <==> k in CommitKeySet(log) {
      OneByteRange(COMMITS, k);
      assert k in KeysIn(kv, COMMITS) <==> k in CommitKeySet(log);
    }
    forall i | 0 <= i < |keys| ensures keys[i] == [COMMITS] + ids[i] {
      OneByteRange(COMMITS, keys[i]);
      assert keys[i] in keys && keys[i] == [keys[i][0]] + keys[i][1..];
    }
  }

  lemma ScanSorted(keys: seq<Bytes>, ids: seq<Bytes>)
    requires StrictlySorted(keys) && |ids| == |keys| && forall i | 0 <= i < |keys| :: keys[i] == [COMMITS] + ids[i]
    ensures StrictlySorted(ids)
  {
    forall i, j | 0 <= i < j < |ids| ensures Less(ids[i], ids[j]) {
      assert Less(keys[i], keys[j]);
      LessUnderPrefix([COMMITS], ids[i], ids[j]);
    }
  }

  lemma ScanElements(keys: seq<Bytes>, ids: seq<Bytes>, log: Log)
    requires |ids| == |keys| && forall i | 0 <= i < |keys| :: keys[i] == [COMMITS] + ids[i]
    requires forall k :: k in keys <==> k in CommitKeySet(log)
    ensures Elements(ids) == log.commits.Keys
  {
    forall id ensures CommitKey(id) == [COMMITS] + id && CommitKey(id)[1..] == id {}
    hide CommitKey;
    forall id | id in log.commits ensures id in ids {
      assert CommitKey(id) in keys;
      var i :| 0 <= i < |keys| && keys[i] == CommitKey(id);
      assert ([COMMITS] + ids[i])[1..] == ids[i];
    }
    forall id | id in ids ensures id in log.commits {
      var i :| 0 <= i < |ids| && ids[i] == id;
      assert keys[i] in keys && keys[i] == CommitKey(id);
      var id' :| id' in log.commits && CommitKey(id') == keys[i];
      assert CommitKey(id')[1..] == CommitKey(id)[1..];
    }
  }

  lemma ScanOrder(kv: KV, log: Log)
    requires Journaled(kv, log)
    ensures StrictlySorted(CommitIdsRead(kv)) && Elements(CommitIdsRead(kv)) == log.commits.Keys
  {
    var keys, ids := RangeKeys(kv, [COMMITS], [COMMITS + 1]), CommitIdsRead(kv);
    ScannedKeys(kv, log);
    assert |ids| == |keys|;
    hide *;
    ScanSorted(keys, ids);
    ScanElements(keys, ids, log);
  }

  /** With ids ascending in commit order, as UUIDv7 ids are, the key map alone rebuilds the quads. */
  lemma ReplayFromKeys(es: seq<Event>)
    requires RunOk(es) && Audited(es) && StrictlySorted(Ids(es))
    ensures CommitIdsRead(RunKv(es)) == Ids(es)
    ensures ReplayCommits(RunKv(es), CommitIdsRead(RunKv(es))) == RunView(es).quads
  {
    RunRepresents(es);
    RunCommitIds(es);
    ScanOrder(RunKv(es), RunView(es).log);
    SortedUnique(CommitIdsRead(RunKv(es)), Ids(es));
    ReplayRebuilds(es);
  }

  // ---- the commit rows, read from the key map ----

  /** The commit row stored under a key. */
  ghost function CommitAt(kv: KV, k: Bytes): CommitRow {
    if k in kv && exists row :: kv[k] == CommitValue(row) then
      var row :| kv[k] == CommitValue(row);
      row
    else CommitRow(0, [], [])
  }

  /** The commits found by scanning the commit rows. */
  ghost function CommitsRead(kv: KV): map<Bytes, CommitRow> {
    map id | id in CommitIdsRead(kv) :: CommitAt(kv, [COMMITS] + id)
  }

  lemma CommitAtIs(kv: KV, log: Log, id: Bytes)
    requires Journaled(kv, log) && id in log.commits
    ensures CommitAt(kv, [COMMITS] + id) == log.commits[id]
  {
    var k := CommitKey(id);
    assert k == [COMMITS] + id;
    assert k in kv && kv[k] == CommitValue(log.commits[id]);
    hide *;
    CommitAtValue(kv, k, log.commits[id]);
  }

  lemma CommitAtValue(kv: KV, k: Bytes, row: CommitRow)
    requires k in kv && kv[k] == CommitValue(row)
    ensures CommitAt(kv, k) == row
  {
    hide CommitValue;
    CommitValueInjective(CommitAt(kv, k), row);
  }

  /** The commits are read back exactly: their ids, times, labels and metadata. */
  lemma CommitsReadBack(kv: KV, log: Log)
    requires Journaled(kv, log)
    ensures CommitsRead(kv) == log.commits
  {
    hide CommitIdsRead, Journaled, CommitAt, StrictlySorted;
    ScanOrder(kv, log);
    assert Elements(CommitIdsRead(kv)) == log.commits.Keys;
    forall id | id in log.commits ensures CommitAt(kv, [COMMITS] + id) == log.commits[id] { CommitAtIs(kv, log, id); }
  }

  // ---- one commit, read back ----

  /**
   * After an audited commit the key map gives back its time, label and metadata under its id beside the commits
   * made before, and as its op rows the adds as they were stored and then the removes as they were given.
   */
  lemma CommitReadBack(kv: KV, v: View, b: Batch, id: Bytes, ts: int)
    requires Represents(kv, v) && CommitOk(v, b, id, ts) && !b.noAudit
    ensures var kv' := CommitKv(kv, b, id, ts);
      && CommitsRead(kv') == CommitsRead(kv)[id := CommitRow(ts, b.lbl, b.metadata)]
      && |RowsRead(kv', id)| == |b.adds| + |b.removes|
      && (forall i | 0 <= i < |b.adds| ::
            var q := b.adds[i];
            RowsRead(kv', id)[i] == OpRow(true, Quad(q.subj, q.pred, q.obj, if q.lbl == [] then b.lbl else q.lbl)))
      && (forall i | 0 <= i < |b.removes| :: RowsRead(kv', id)[|b.adds| + i] == OpRow(false, b.removes[i]))
  {
    var kv', v' := CommitKv(kv, b, id, ts), CommitView(v, b, id, ts);
    CommitRepresents(kv, v, b, id, ts);
    RepresentsIndexes(kv, v);
    RepresentsIndexes(kv', v');
    assert v'.log == LogAfter(v.log, b, id, ts) && LogOk(v.log) && NulFree(id) && id !in v.log.commits;
    CommitKeepsRows(v, b, id, ts);
    assert |OpsOf(b)| == |b.adds| + |b.removes|;
    NoOpsYet(v.log, id);
    hide *;
    CommitsReadBack(kv, v.log);
    CommitsReadBack(kv', v'.log);
    RowsReadBack(kv', v'.log, id, OpsOf(b));
    LogGains(v.log, b, id, ts);
    forall i | 0 <= i < |b.adds|
      ensures var q := b.adds[i];
        OpsOf(b)[i] == OpRow(true, Quad(q.subj, q.pred, q.obj, if q.lbl == [] then b.lbl else q.lbl))
    {
      OpsAre(b, i);
    }
    forall i | 0 <= i < |b.removes| ensures OpsOf(b)[|b.adds| + i] == OpRow(false, b.removes[i]) {
      OpsAre(b, |b.adds| + i);
    }
  }

  lemma NoOpsYet(log: Log, id: Bytes)
    requires LogOk(log) && id !in log.commits
    ensures forall p | p in log.ops :: p.0 != id
  {}

  /** An unaudited commit leaves the audit rows as they were. */
  lemma UnauditedReadBack(kv: KV, v: View, b: Batch, id: Bytes, ts: int, id': Bytes, rows: seq<OpRow>)
    requires Represents(kv, v) && CommitOk(v, b, id, ts) && b.noAudit && NulFree(id') && LogHolds(v.log, id', rows)
    ensures var kv' := CommitKv(kv, b, id, ts);
      CommitsRead(kv') == CommitsRead(kv) && RowsRead(kv', id') == RowsRead(kv, id')
  {
    var kv', v' := CommitKv(kv, b, id, ts), CommitView(v, b, id, ts);
    CommitRepresents(kv, v, b, id, ts);
    RepresentsIndexes(kv, v);
    RepresentsIndexes(kv', v');
    assert v'.log == v.log;
    hide *;
    CommitsReadBack(kv, v.log);
    CommitsReadBack(kv', v.log);
    RowsReadBack(kv, v.log, id', rows);
    RowsReadBack(kv', v.log, id', rows);
  }
}
