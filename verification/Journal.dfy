/** The audit log: commit rows, op rows, and the abstract log they encode. */
module Journal {
  import opened ByteOrder
  import opened Integers
  import opened Keyspaces
  import opened Pebble
  import opened QuadKeys
  import opened Quads

  // ---- row encodings ----

  function CommitKey(id: Bytes): Bytes {
    EncodeKey(COMMITS, [id])
  }

  function CommitValue(row: CommitRow): Bytes {
    PutVarint(row.ts) + PutUvarint(|row.lbl|) + row.lbl + row.metadata
  }

  /** encodeCommitValue's appends. */
  method EncodeCommitValue(ts: int, lbl: Bytes, metadata: Bytes) returns (buf: Bytes)
    ensures buf == CommitValue(CommitRow(ts, lbl, metadata))
  {
    buf := PutVarint(ts);
    buf := buf + PutUvarint(|lbl|);
    buf := buf + lbl;
    buf := buf + metadata;
  }

  /** Every 64-bit timestamp is read back from its commit row. */
  lemma TimestampRoundTrip(row: CommitRow)
    requires IsInt64(row.ts)
    ensures Varint(CommitValue(row)) == Some(row.ts)
  {
    var rest := PutUvarint(|row.lbl|) + row.lbl + row.metadata;
    VarintRoundTrip(row.ts, rest);
    assert CommitValue(row) == PutVarint(row.ts) + rest;
  }

  /** A commit row keeps everything: time, label and metadata are determined by its bytes. */
  lemma CommitValueInjective(row: CommitRow, row': CommitRow)
    requires CommitValue(row) == CommitValue(row')
    ensures row == row'
  {
    hide *;
    CommitValueIs(row);
    CommitValueIs(row');
    UvarintPrefixFree(ZigZag(row.ts), PutUvarint(|row.lbl|) + (row.lbl + row.metadata),
                      ZigZag(row'.ts), PutUvarint(|row'.lbl|) + (row'.lbl + row'.metadata));
    ZigZagInjective(row.ts, row'.ts);
    FieldDelimited(row.lbl, row.metadata, row'.lbl, row'.metadata);
  }

  lemma CommitValueIs(row: CommitRow)
    ensures CommitValue(row) == PutUvarint(ZigZag(row.ts)) + (PutUvarint(|row.lbl|) + (row.lbl + row.metadata))
  {
    hide PutUvarint, ZigZag;
  }

  function OpKey(id: Bytes, n: nat): Bytes {
    [COMMIT_OPS] + id + [SEP] + PutUvarint(n)
  }

  /** Op keys are injective in commit id and sequence number. */
  lemma OpKeyInjective(id: Bytes, n: nat, id': Bytes, n': nat)
    requires NulFree(id) && NulFree(id') && OpKey(id, n) == OpKey(id', n')
    ensures id == id' && n == n'
  {
    var k, u, u' := OpKey(id, n)[1..], PutUvarint(n), PutUvarint(n');
    assert k == id + [SEP] + u && k == id' + [SEP] + u';
    IndexAfter(id, SEP, u);
    IndexAfter(id', SEP, u');
    assert id == k[..|id|] && id' == k[..|id'|];
    assert u == k[|id| + 1..] && u' == k[|id'| + 1..];
    UvarintPrefixFree(n, [], n', []);
    assert u + [] == u' + [];
  }

  /** The sequence number is a uint32 that wraps: a commit's op keys are distinct exactly up to 2^32 ops. */
  lemma OpKeysDistinct(id: Bytes, count: nat)
    requires NulFree(id)
    ensures (forall i: nat, j: nat | i < j < count :: OpKey(id, i % TWO32) != OpKey(id, j % TWO32)) <==> count <= TWO32
  {
    if count <= TWO32 {
      forall i: nat, j: nat | i < j < count ensures OpKey(id, i % TWO32) != OpKey(id, j % TWO32) {
        if OpKey(id, i % TWO32) == OpKey(id, j % TWO32) { OpKeyInjective(id, i % TWO32, id, j % TWO32); }
      }
    } else {
      var i: nat, j: nat := 0, TWO32;
      assert i < j < count && OpKey(id, i % TWO32) == OpKey(id, j % TWO32);
    }
  }

  /** Key order is op order exactly for commits of at most 256 ops. */
  lemma OpKeyOrder(id: Bytes, count: nat)
    ensures (forall i: nat, j: nat | i < j < count :: Less(OpKey(id, i), OpKey(id, j))) <==> count <= 256
  {
    var p := [COMMIT_OPS] + id + [SEP];
    if count <= 256 {
      forall i: nat, j: nat | i < j < count ensures Less(OpKey(id, i), OpKey(id, j)) {
        SmallVarintOrder(i, j);
        LessUnderPrefix(p, PutUvarint(i), PutUvarint(j));
      }
    } else {
      var i: nat, j: nat := 129, 256;
      assert PutUvarint(129) == [129, 1] && PutUvarint(256) == [128, 2];
      LessUnderPrefix(p, PutUvarint(i), PutUvarint(j));
      assert i < j < count && !Less(OpKey(id, i), OpKey(id, j));
    }
  }

  lemma SmallVarintOrder(i: nat, j: nat)
    requires i < j < 256
    ensures Less(PutUvarint(i), PutUvarint(j))
  {
    assert j >= 128 ==> PutUvarint(j) == [j, 1];
    assert i >= 128 ==> PutUvarint(i) == [i, 1];
  }

  /** Length-prefixed fields, end to end. */
  function Framed(fs: seq<Bytes>): Bytes {
    if fs == [] then [] else PutUvarint(|fs[0]|) + fs[0] + Framed(fs[1..])
  }

  lemma {:induction false} FramedPrefixFree(a: seq<Bytes>, r: Bytes, b: seq<Bytes>, s: Bytes)
    requires |a| == |b| && Framed(a) + r == Framed(b) + s
    ensures a == b && r == s
  {
    if a == [] {
      hide PutUvarint;
      assert r == Framed(a) + r && s == Framed(b) + s;
    } else {
      hide *;
      FramedNext(a, r);
      FramedNext(b, s);
      FieldDelimited(a[0], Framed(a[1..]) + r, b[0], Framed(b[1..]) + s);
      FramedPrefixFree(a[1..], r, b[1..], s);
      assert a == [a[0]] + a[1..] && b == [b[0]] + b[1..];
    }
  }

  lemma FramedNext(fs: seq<Bytes>, r: Bytes)
    requires fs != []
    ensures Framed(fs) + r == PutUvarint(|fs[0]|) + (fs[0] + (Framed(fs[1..]) + r))
  {
    hide PutUvarint;
  }

  lemma FieldNext(buf: Bytes, fs: seq<Bytes>, i: nat)
    requires i < |fs|
    ensures buf + Framed(fs[i..]) == buf + PutUvarint(|fs[i]|) + fs[i] + Framed(fs[i + 1..])
  {
    hide PutUvarint;
    assert fs[i..][1..] == fs[i + 1..];
  }

  /** A length in front of it delimits a field. */
  lemma FieldDelimited(f: Bytes, r: Bytes, g: Bytes, s: Bytes)
    requires PutUvarint(|f|) + (f + r) == PutUvarint(|g|) + (g + s)
    ensures f == g && r == s
  {
    hide *;
    UvarintPrefixFree(|f|, f + r, |g|, g + s);
    assert f == (f + r)[..|f|] && g == (g + s)[..|g|];
    assert r == (f + r)[|f|..] && s == (g + s)[|g|..];
  }

  function OpTag(isAdd: bool): byte {
    if isAdd then 97 else 114  // 'a', 'r'
  }

  function OpValue(r: OpRow): Bytes {
    [OpTag(r.isAdd)] + Framed(Fields(SPO, r.quad))
  }

  /** commitOpValue's loop over the four fields. */
  method BuildOpValue(r: OpRow) returns (buf: Bytes)
    ensures buf == OpValue(r)
  {
    var fs := Fields(SPO, r.quad);
    buf := [OpTag(r.isAdd)];
    assert fs[0..] == fs && Framed(fs[|fs|..]) == [] && buf + Framed(fs) == OpValue(r);
    hide *;
    for i := 0 to |fs|
      invariant buf + Framed(fs[i..]) == OpValue(r)
    {
      FieldNext(buf, fs, i);
      buf := buf + PutUvarint(|fs[i]|);
      buf := buf + fs[i];
    }
  }

  /** The audit rows, byte by byte: 'c' and the id; 'C', the id, a NUL and the number; the tag and the four fields. */
  lemma AuditLayout(id: Bytes, n: nat, r: OpRow)
    ensures CommitKey(id) == [99] + id
    ensures OpKey(id, n) == [67] + id + [0] + PutUvarint(n)
    ensures var q := r.quad;
      OpValue(r) == [if r.isAdd then 97 else 114]
                    + PutUvarint(|q.subj|) + q.subj + PutUvarint(|q.pred|) + q.pred
                    + PutUvarint(|q.obj|) + q.obj + PutUvarint(|q.lbl|) + q.lbl
  {
    hide PutUvarint, Framed;
    FourFramed([OpTag(r.isAdd)], r.quad.subj, r.quad.pred, r.quad.obj, r.quad.lbl);
  }

  lemma FourFramed(head: Bytes, a: Bytes, b: Bytes, c: Bytes, d: Bytes)
    ensures head + Framed([a, b, c, d])
         == head + PutUvarint(|a|) + a + PutUvarint(|b|) + b + PutUvarint(|c|) + c + PutUvarint(|d|) + d
  {
    hide *;
    var fs := [a, b, c, d];
    var h1 := head + PutUvarint(|a|) + a;
    var h2 := h1 + PutUvarint(|b|) + b;
    var h3 := h2 + PutUvarint(|c|) + c;
    FieldNext(head, fs, 0);
    FieldNext(h1, fs, 1);
    FieldNext(h2, fs, 2);
    FieldNext(h3, fs, 3);
    NoFields();
    assert fs[0..] == fs && fs[4..] == [];
  }

  lemma NoFields()
    ensures Framed([]) == []
  {}

  /** Op values are uniquely decodable for arbitrary field bytes, NULs included. */
  lemma OpValueInjective(r: OpRow, x: Bytes, r': OpRow, x': Bytes)
    requires OpValue(r) + x == OpValue(r') + x'
    ensures r == r' && x == x'
  {
    hide Framed, Fields;
    var a, b := OpValue(r) + x, OpValue(r') + x';
    assert a[0] == OpTag(r.isAdd) && b[0] == OpTag(r'.isAdd);
    var f, f' := Fields(SPO, r.quad), Fields(SPO, r'.quad);
    assert a[1..] == Framed(f) + x && b[1..] == Framed(f') + x';
    FramedPrefixFree(f, x, f', x');
    SameFields(r.quad, r'.quad);
  }

  lemma SameFields(q: Quad, q': Quad)
    requires Fields(SPO, q) == Fields(SPO, q')
    ensures q == q'
  {
    var f, f' := Fields(SPO, q), Fields(SPO, q');
    assert f[0] == f'[0] && f[1] == f'[1] && f[2] == f'[2] && f[3] == f'[3];
  }

  // ---- the abstract log ----

  datatype Log = Log(commits: map<Bytes, CommitRow>, ops: map<(Bytes, nat), OpRow>)

  function OpKeyOf(p: (Bytes, nat)): Bytes {
    OpKey(p.0, p.1)
  }

  predicate LogOk(log: Log) {
    && (forall id | id in log.commits :: NulFree(id) && IsInt64(log.commits[id].ts))
    && (forall p | p in log.ops :: p.0 in log.commits && p.1 < TWO32)
  }

  function CommitKeySet(log: Log): set<Bytes> {
    set id | id in log.commits :: CommitKey(id)
  }

  function OpKeySet(log: Log): set<Bytes> {
    set p | p in log.ops :: OpKeyOf(p)
  }

  /** kv's two audit keyspaces encode exactly the log. */
  ghost predicate Journaled(kv: KV, log: Log) {
    && LogOk(log)
    && KeysIn(kv, COMMITS) == CommitKeySet(log)
    && KeysIn(kv, COMMIT_OPS) == OpKeySet(log)
    && (forall id | id in log.commits :: CommitKey(id) in kv && kv[CommitKey(id)] == CommitValue(log.commits[id]))
    && (forall p | p in log.ops :: OpKeyOf(p) in kv && kv[OpKeyOf(p)] == OpValue(log.ops[p]))
  }

  /** A later log has the same rows for the commits of an earlier one. */
  ghost predicate RowsKept(log: Log, log': Log) {
    && log.commits.Keys <= log'.commits.Keys
    && forall id, n: nat | id in log.commits ::
         ((id, n) in log.ops <==> (id, n) in log'.ops) && ((id, n) in log.ops ==> log'.ops[(id, n)] == log.ops[(id, n)])
  }

  /** The op rows a batch stores, numbered from zero. */
  function RowsMap(id: Bytes, rows: seq<OpRow>): KV {
    if rows == [] then map[]
    else
      var n := |rows| - 1;
      RowsMap(id, rows[..n])[OpKey(id, n % TWO32) := OpValue(rows[n])]
  }

  /** Everything a batch stores in the audit keyspaces. */
  function JournalRows(b: Batch, id: Bytes, ts: int): KV {
    if b.noAudit then map[]
    else map[CommitKey(id) := CommitValue(CommitRow(ts, b.lbl, b.metadata))] + RowsMap(id, OpsOf(b))
  }

  function SeqKeys(id: Bytes, n: nat): set<Bytes> {
    set i: nat | 0 <= i < n :: OpKey(id, i)
  }

  /** m holds exactly the rows, in order, under their sequence numbers. */
  ghost predicate HoldsRows(m: KV, id: Bytes, rows: seq<OpRow>) {
    && m.Keys == SeqKeys(id, |rows|)
    && forall i: nat | i < |rows| :: OpKey(id, i) in m && m[OpKey(id, i)] == OpValue(rows[i])
  }

  lemma SeqKeysNext(id: Bytes, n: nat)
    requires NulFree(id)
    ensures SeqKeys(id, n + 1) == SeqKeys(id, n) + {OpKey(id, n)} && OpKey(id, n) !in SeqKeys(id, n)
  {
    if OpKey(id, n) in SeqKeys(id, n) {
      var i: nat :| i < n && OpKey(id, i) == OpKey(id, n);
      OpKeyInjective(id, i, id, n);
    }
  }

  lemma HoldsRowsNext(m: KV, id: Bytes, rows: seq<OpRow>, r: OpRow)
    requires NulFree(id) && HoldsRows(m, id, rows)
    ensures HoldsRows(m[OpKey(id, |rows|) := OpValue(r)], id, rows + [r])
  {
    var m' := m[OpKey(id, |rows|) := OpValue(r)];
    SeqKeysNext(id, |rows|);
    forall i: nat | i < |rows| + 1 ensures OpKey(id, i) in m' && m'[OpKey(id, i)] == OpValue((rows + [r])[i]) {
      if i < |rows| { assert OpKey(id, i) in SeqKeys(id, |rows|); }
    }
  }

  lemma RowsMapStep(id: Bytes, front: seq<OpRow>, last: OpRow)
    requires |front| < TWO32
    ensures RowsMap(id, front + [last]) == RowsMap(id, front)[OpKey(id, |front|) := OpValue(last)]
  {
    assert (front + [last])[..|front|] == front;
    assert |front| % TWO32 == |front|;
  }

  lemma {:induction false} RowsMapIs(id: Bytes, rows: seq<OpRow>)
    requires NulFree(id) && |rows| <= TWO32
    ensures HoldsRows(RowsMap(id, rows), id, rows)
  {
    hide *;
    if rows == [] {
      NoRowsHeld(id);
    } else {
      var n := |rows| - 1;
      var front, last := rows[..n], rows[n];
      RowsMapIs(id, front);
      HoldsRowsNext(RowsMap(id, front), id, front, last);
      RowsMapStep(id, front, last);
      assert front + [last] == rows;
    }
  }

  lemma NoRowsHeld(id: Bytes)
    ensures HoldsRows(RowsMap(id, []), id, [])
  {
    hide OpKey;
  }

  lemma {:induction false} RowsMapElsewhere(id: Bytes, rows: seq<OpRow>)
    ensures forall k | k in RowsMap(id, rows) :: k != [] && k[0] == COMMIT_OPS
  {
    if rows != [] { RowsMapElsewhere(id, rows[..|rows| - 1]); }
  }

  lemma JournalRowsElsewhere(b: Batch, id: Bytes, ts: int)
    ensures Elsewhere(JournalRows(b, id, ts))
    ensures forall k | k in JournalRows(b, id, ts) :: k != [] && k[0] != LABEL_COUNT
  {
    RowsMapElsewhere(id, OpsOf(b));
  }

  /** The log after a batch. */
  function LogAfter(log: Log, b: Batch, id: Bytes, ts: int): Log {
    if b.noAudit then log
    else
      var rows := OpsOf(b);
      Log(log.commits[id := CommitRow(ts, b.lbl, b.metadata)],
          log.ops + map p | p in IdSeqs(id, |rows|) :: rows[p.1])
  }

  /**
   * An audited batch gains the log its own row and, under the numbers from zero, its adds as they are stored and
   * then its removes as they were given; all other rows stay. An unaudited batch leaves no trace.
   */
  lemma LogGains(log: Log, b: Batch, id: Bytes, ts: int)
    requires forall p | p in log.ops :: p.0 != id
    ensures var log' := LogAfter(log, b, id, ts);
      if b.noAudit then log' == log
      else
        && log'.commits == log.commits[id := CommitRow(ts, b.lbl, b.metadata)]
        && (forall p :: p in log'.ops <==> p in log.ops || (p.0 == id && p.1 < |b.adds| + |b.removes|))
        && (forall p | p in log.ops :: log'.ops[p] == log.ops[p])
        && (forall i: nat | i < |b.adds| ::
              var q := b.adds[i];
              log'.ops[(id, i)] == OpRow(true, Quad(q.subj, q.pred, q.obj, if q.lbl == [] then b.lbl else q.lbl)))
        && (forall i: nat | i < |b.removes| :: log'.ops[(id, |b.adds| + i)] == OpRow(false, b.removes[i]))
  {
    hide OpsOf;
    forall i: nat | i < |b.adds|
      ensures var q := b.adds[i];
        OpsOf(b)[i] == OpRow(true, Quad(q.subj, q.pred, q.obj, if q.lbl == [] then b.lbl else q.lbl))
    {
      OpsAre(b, i);
    }
    forall i: nat | i < |b.removes| ensures OpsOf(b)[|b.adds| + i] == OpRow(false, b.removes[i]) {
      OpsAre(b, |b.adds| + i);
    }
  }

  function IdSeqs(id: Bytes, n: nat): (s: set<(Bytes, nat)>)
    ensures forall p :: p in s <==> p.0 == id && p.1 < n
  {
    set i: nat | 0 <= i < n :: (id, i)
  }

  lemma OverlayKeys(kv: KV, rows: KV, prefix: byte)
    ensures KeysIn(kv + rows, prefix) == KeysIn(kv, prefix) + KeysIn(rows, prefix)
  {}

  lemma RowsOfBatch(b: Batch, id: Bytes, ts: int)
    requires !b.noAudit && NulFree(id) && |OpsOf(b)| <= TWO32
    ensures var j := JournalRows(b, id, ts);
      && KeysIn(j, COMMITS) == {CommitKey(id)}
      && KeysIn(j, COMMIT_OPS) == SeqKeys(id, |OpsOf(b)|)
      && CommitKey(id) in j && j[CommitKey(id)] == CommitValue(CommitRow(ts, b.lbl, b.metadata))
      && forall i: nat | i < |OpsOf(b)| :: OpKey(id, i) in j && j[OpKey(id, i)] == OpValue(OpsOf(b)[i])
  {
    hide OpKey, OpValue, CommitValue, OpsOf, RowsMap;
    var rows, top := RowsMap(id, OpsOf(b)), CommitKey(id);
    RowsMapIs(id, OpsOf(b));
    RowsMapElsewhere(id, OpsOf(b));
    assert top[0] == COMMITS && top !in rows;
    var head := map[top := CommitValue(CommitRow(ts, b.lbl, b.metadata))];
    OverlayKeys(head, rows, COMMITS);
    OverlayKeys(head, rows, COMMIT_OPS);
    assert KeysIn(rows, COMMITS) == {} && KeysIn(rows, COMMIT_OPS) == rows.Keys;
    assert KeysIn(head, COMMITS) == {top} && KeysIn(head, COMMIT_OPS) == {};
  }

  lemma OpKeySetAfter(log: Log, b: Batch, id: Bytes, ts: int)
    requires !b.noAudit
    ensures OpKeySet(LogAfter(log, b, id, ts)) == OpKeySet(log) + SeqKeys(id, |OpsOf(b)|)
  {
    var log' := LogAfter(log, b, id, ts);
    forall i: nat | i < |OpsOf(b)| ensures OpKey(id, i) in OpKeySet(log') {
      assert (id, i) in log'.ops && OpKeyOf((id, i)) == OpKey(id, i);
    }
    forall k | k in OpKeySet(log) ensures k in OpKeySet(log') {
      var p :| p in log.ops && OpKeyOf(p) == k;
      assert p in log'.ops;
    }
    forall k | k in OpKeySet(log') ensures k in OpKeySet(log) + SeqKeys(id, |OpsOf(b)|) {
      var p :| p in log'.ops && OpKeyOf(p) == k;
    }
  }

  lemma CommitRowsAfter(kv: KV, log: Log, b: Batch, id: Bytes, ts: int, i: Bytes)
    requires Journaled(kv, log) && i in LogAfter(log, b, id, ts).commits
    requires !b.noAudit && NulFree(id) && |OpsOf(b)| <= TWO32
    ensures var kv' := kv + JournalRows(b, id, ts);
      CommitKey(i) in kv' && kv'[CommitKey(i)] == CommitValue(LogAfter(log, b, id, ts).commits[i])
  {
    RowsOfBatch(b, id, ts);
    hide JournalRows, OpsOf, CommitKey, CommitValue, OpKey, OpValue, KeysIn, SeqKeys;
    if i != id { OldCommitKept(b, id, ts, i); }
  }

  lemma OpRowsAfter(kv: KV, log: Log, b: Batch, id: Bytes, ts: int, p: (Bytes, nat))
    requires Journaled(kv, log) && p in LogAfter(log, b, id, ts).ops && id !in log.commits
    requires !b.noAudit && NulFree(id) && |OpsOf(b)| <= TWO32
    ensures var kv' := kv + JournalRows(b, id, ts);
      OpKeyOf(p) in kv' && kv'[OpKeyOf(p)] == OpValue(LogAfter(log, b, id, ts).ops[p])
  {
    RowsOfBatch(b, id, ts);
    hide JournalRows, OpsOf, CommitKey, CommitValue, OpKey, OpValue, KeysIn, SeqKeys;
    if p.0 != id { OldOpKept(b, id, ts, p.0, p.1); }
  }

  lemma AuditKeysAfter(kv: KV, log: Log, b: Batch, id: Bytes, ts: int)
    requires Journaled(kv, log)
    requires !b.noAudit && NulFree(id) && |OpsOf(b)| <= TWO32
    ensures KeysIn(kv + JournalRows(b, id, ts), COMMITS) == CommitKeySet(LogAfter(log, b, id, ts))
    ensures KeysIn(kv + JournalRows(b, id, ts), COMMIT_OPS) == OpKeySet(LogAfter(log, b, id, ts))
  {
    hide *;
    JournaledKeys(kv, log);
    RowsOfBatch(b, id, ts);
    OverlayKeys(kv, JournalRows(b, id, ts), COMMITS);
    OverlayKeys(kv, JournalRows(b, id, ts), COMMIT_OPS);
    OpKeySetAfter(log, b, id, ts);
    CommitKeySetAfter(log, b, id, ts);
  }

  lemma JournaledKeys(kv: KV, log: Log)
    requires Journaled(kv, log)
    ensures KeysIn(kv, COMMITS) == CommitKeySet(log) && KeysIn(kv, COMMIT_OPS) == OpKeySet(log)
  {}

  lemma CommitKeySetAfter(log: Log, b: Batch, id: Bytes, ts: int)
    requires !b.noAudit
    ensures CommitKeySet(LogAfter(log, b, id, ts)) == CommitKeySet(log) + {CommitKey(id)}
  {
    hide CommitKey, OpsOf;
  }

  lemma LogOkAfter(log: Log, b: Batch, id: Bytes, ts: int)
    requires LogOk(log) && IsInt64(ts) && NulFree(id) && |OpsOf(b)| <= TWO32
    ensures LogOk(LogAfter(log, b, id, ts))
  {}

  /** Writing a batch's rows under a fresh id appends the batch to the log. */
  lemma JournaledAfter(kv: KV, log: Log, b: Batch, id: Bytes, ts: int)
    requires Journaled(kv, log) && IsInt64(ts)
    requires !b.noAudit ==> NulFree(id) && id !in log.commits && |OpsOf(b)| <= TWO32
    ensures Journaled(kv + JournalRows(b, id, ts), LogAfter(log, b, id, ts))
  {
    if b.noAudit {
      assert kv + JournalRows(b, id, ts) == kv;
    } else {
      AuditBatchJournaled(kv, log, b, id, ts);
    }
  }

  lemma AuditBatchJournaled(kv: KV, log: Log, b: Batch, id: Bytes, ts: int)
    requires Journaled(kv, log) && IsInt64(ts)
    requires !b.noAudit && NulFree(id) && id !in log.commits && |OpsOf(b)| <= TWO32
    ensures Journaled(kv + JournalRows(b, id, ts), LogAfter(log, b, id, ts))
  {
    hide JournalRows, OpsOf, CommitKey, CommitValue, OpKey, OpKeyOf, OpValue, KeysIn, OpKeySet, CommitKeySet;
    hide LogAfter, LogOk;
    var kv', log' := kv + JournalRows(b, id, ts), LogAfter(log, b, id, ts);
    LogOkAfter(log, b, id, ts);
    AuditKeysAfter(kv, log, b, id, ts);
    forall i | i in log'.commits ensures CommitKey(i) in kv' && kv'[CommitKey(i)] == CommitValue(log'.commits[i]) {
      CommitRowsAfter(kv, log, b, id, ts, i);
    }
    forall p | p in log'.ops ensures OpKeyOf(p) in kv' && kv'[OpKeyOf(p)] == OpValue(log'.ops[p]) {
      OpRowsAfter(kv, log, b, id, ts, p);
    }
  }

  lemma OldCommitKept(b: Batch, id: Bytes, ts: int, i: Bytes)
    requires !b.noAudit && NulFree(id) && |OpsOf(b)| <= TWO32 && i != id
    ensures CommitKey(i) !in JournalRows(b, id, ts)
  {
    RowsOfBatch(b, id, ts);
    assert CommitKey(i)[0] == COMMITS && CommitKey(i)[1..] == i && CommitKey(id)[1..] == id;
    assert CommitKey(i) !in KeysIn(JournalRows(b, id, ts), COMMITS);
  }

  lemma OldOpKept(b: Batch, id: Bytes, ts: int, i: Bytes, n: nat)
    requires !b.noAudit && NulFree(id) && NulFree(i) && |OpsOf(b)| <= TWO32 && i != id
    ensures OpKey(i, n) !in JournalRows(b, id, ts)
  {
    RowsOfBatch(b, id, ts);
    if OpKey(i, n) in SeqKeys(id, |OpsOf(b)|) {
      var m: nat :| m < |OpsOf(b)| && OpKey(id, m) == OpKey(i, n);
      OpKeyInjective(id, m, i, n);
    }
    assert OpKey(i, n)[0] == COMMIT_OPS;
    assert OpKey(i, n) !in KeysIn(JournalRows(b, id, ts), COMMIT_OPS);
  }

  /** Changes outside the audit keyspaces keep the log. */
  lemma JournaledFrame(kv: KV, kv': KV, log: Log)
    requires Journaled(kv, log)
    requires forall k: Bytes | k != [] && (k[0] == COMMITS || k[0] == COMMIT_OPS) ::
               (k in kv <==> k in kv') && (k in kv ==> kv'[k] == kv[k])
    ensures Journaled(kv', log)
  {
    assert KeysIn(kv', COMMITS) == KeysIn(kv, COMMITS);
    assert KeysIn(kv', COMMIT_OPS) == KeysIn(kv, COMMIT_OPS);
    forall id | id in log.commits ensures CommitKey(id) in kv' && kv'[CommitKey(id)] == CommitValue(log.commits[id]) {
      assert CommitKey(id)[0] == COMMITS;
    }
    forall p | p in log.ops ensures OpKeyOf(p) in kv' && kv'[OpKeyOf(p)] == OpValue(log.ops[p]) {
      assert OpKeyOf(p)[0] == COMMIT_OPS;
    }
  }
}
