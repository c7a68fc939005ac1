/** What each write path does to the whole key map, and the abstract store it represents. */
module StoreModel {
  import opened ByteOrder
  import opened CounterMerge
  import opened Integers
  import opened Journal
  import opened Keyspaces
  import opened LabelCount
  import opened Pebble
  import opened QuadKeys
  import opened Quads

  /** The abstract store: a plain quad set and an audit log. */
  datatype View = View(quads: set<Quad>, log: Log)

  const EMPTY := View({}, Log(map[], map[]))

  ghost predicate Represents(kv: KV, v: View) {
    Indexes(kv, v.quads) && Journaled(kv, v.log) && CountersOk(kv)
  }

  predicate BatchNulFree(b: Batch) {
    NulFree(b.lbl) && AllNulFree(Elements(b.adds)) && AllNulFree(Elements(b.removes))
  }

  lemma EffectiveNulFree(qs: seq<Quad>, dl: Bytes)
    requires AllNulFree(Elements(qs)) && NulFree(dl)
    ensures AllNulFree(Elements(Effective(qs, dl)))
  {
    forall q | q in Effective(qs, dl) ensures QuadNulFree(q) {
      var i :| 0 <= i < |qs| && Effective(qs, dl)[i] == q;
      assert qs[i] in Elements(qs);
    }
  }

  /** A committed batch: adds, then removes, then audit rows, then counter merges. */
  function CommitKv(kv: KV, b: Batch, id: Bytes, ts: int): KV {
    AddDeltas(Drop(Put(kv, Elements(Effective(b.adds, b.lbl))), Elements(b.removes)) + JournalRows(b, id, ts),
              BatchDeltas(b))
  }

  function CommitView(v: View, b: Batch, id: Bytes, ts: int): View {
    View(SetAfter(v.quads, b), LogAfter(v.log, b, id, ts))
  }

  /** What Commit leaves to its environment: fresh ids, 64-bit times, at most 2^32 ops a commit. */
  predicate CommitOk(v: View, b: Batch, id: Bytes, ts: int) {
    && BatchNulFree(b)
    && IsInt64(ts)
    && (!b.noAudit ==> NulFree(id) && id !in v.log.commits && |OpsOf(b)| <= TWO32)
  }

  lemma RepresentsFrame(kv: KV, kv': KV, v: View)
    requires Represents(kv, v) && CountersOk(kv')
    requires forall k | k == [] || k[0] != LABEL_COUNT :: Lookup(kv', k) == Lookup(kv, k)
    ensures Represents(kv', v)
  {
    forall k: Bytes | k != [] && IsDataPrefix(k[0]) ensures k in kv <==> k in kv' {
      assert Lookup(kv', k) == Lookup(kv, k);
    }
    IndexesFrame(kv, kv', v.quads);
    forall k: Bytes | k != [] && (k[0] == COMMITS || k[0] == COMMIT_OPS)
      ensures (k in kv <==> k in kv') && (k in kv ==> kv'[k] == kv[k])
    {
      assert Lookup(kv', k) == Lookup(kv, k);
    }
    JournaledFrame(kv, kv', v.log);
  }

  lemma RepresentsDeltas(kv: KV, v: View, d: Deltas)
    requires Represents(kv, v)
    ensures Represents(AddDeltas(kv, d), v)
  {
    AddDeltasOk(kv, d);
    forall k | k == [] || k[0] != LABEL_COUNT ensures Lookup(AddDeltas(kv, d), k) == Lookup(kv, k) {
      AddDeltasAt(kv, d, k);
    }
    RepresentsFrame(kv, AddDeltas(kv, d), v);
  }

  /** Adds then removes on the keys, seen from the abstract store. */
  lemma RepresentsQuads(kv: KV, v: View, adds: set<Quad>, removes: set<Quad>)
    requires Represents(kv, v) && AllNulFree(adds) && AllNulFree(removes)
    ensures Represents(Drop(Put(kv, adds), removes), v.(quads := (v.quads + adds) - removes))
  {
    var kv' := Drop(Put(kv, adds), removes);
    IndexesAfter(kv, v.quads, adds, removes);
    PutCountersOk(kv, adds);
    PutCountersOk(Put(kv, adds), removes);
    forall k: Bytes | k != [] && (k[0] == COMMITS || k[0] == COMMIT_OPS)
      ensures (k in kv <==> k in kv') && (k in kv ==> kv'[k] == kv[k])
    {
      OtherKeysKept(kv, adds, k);
      OtherKeysKept(Put(kv, adds), removes, k);
    }
    JournaledFrame(kv, kv', v.log);
  }

  lemma RepresentsRows(kv: KV, v: View, b: Batch, id: Bytes, ts: int)
    requires Represents(kv, v) && CommitOk(v, b, id, ts)
    ensures Represents(kv + JournalRows(b, id, ts), v.(log := LogAfter(v.log, b, id, ts)))
  {
    var rows := JournalRows(b, id, ts);
    JournalRowsElsewhere(b, id, ts);
    JournaledAfter(kv, v.log, b, id, ts);
    IndexesFrame(kv, kv + rows, v.quads);
  }

  /** A commit on the key map is the batch on the plain set and the log. */
  lemma CommitRepresents(kv: KV, v: View, b: Batch, id: Bytes, ts: int)
    requires Represents(kv, v) && CommitOk(v, b, id, ts)
    ensures Represents(CommitKv(kv, b, id, ts), CommitView(v, b, id, ts))
  {
    var adds, removes := Elements(Effective(b.adds, b.lbl)), Elements(b.removes);
    EffectiveNulFree(b.adds, b.lbl);
    RepresentsQuads(kv, v, adds, removes);
    var kv1, v1 := Drop(Put(kv, adds), removes), v.(quads := (v.quads + adds) - removes);
    RepresentsRows(kv1, v1, b, id, ts);
    RepresentsDeltas(kv1 + JournalRows(b, id, ts), CommitView(v, b, id, ts), BatchDeltas(b));
  }

  /** Audit rows and counter merges leave the data keyspaces alone. */
  lemma OverlaidIndex(kv: KV, rows: KV, d: Deltas, s: set<Quad>)
    requires Indexes(kv, s) && Elsewhere(rows)
    ensures Indexes(AddDeltas(kv + rows, d), s)
  {
    hide Indexes, AddDeltas;
    IndexesFrame(kv, kv + rows, s);
    forall k: Bytes | k != [] && IsDataPrefix(k[0]) ensures k in kv + rows <==> k in AddDeltas(kv + rows, d) {
      AddDeltasAt(kv + rows, d, k);
      assert k[0] != LABEL_COUNT;
      assert Lookup(AddDeltas(kv + rows, d), k) == Lookup(kv + rows, k);
    }
    IndexesFrame(kv + rows, AddDeltas(kv + rows, d), s);
  }

  /** After a commit the store holds what it held and what was given, each quad as given, less what was removed. */
  lemma CommitStores(kv: KV, s: set<Quad>, b: Batch, id: Bytes, ts: int)
    requires Indexes(kv, s) && BatchNulFree(b)
    ensures Indexes(CommitKv(kv, b, id, ts), (s + Given(b.adds, b.lbl)) - Elements(b.removes))
  {
    var adds, removes := Elements(Effective(b.adds, b.lbl)), Elements(b.removes);
    EffectiveNulFree(b.adds, b.lbl);
    EffectiveGiven(b.adds, b.lbl);
    JournalRowsElsewhere(b, id, ts);
    hide Indexes, Effective, Given, Put, Drop, JournalRows, AddDeltas, BatchDeltas, Elsewhere;
    IndexesAfter(kv, s, adds, removes);
    OverlaidIndex(Drop(Put(kv, adds), removes), JournalRows(b, id, ts), BatchDeltas(b), (s + adds) - removes);
  }

  /** After a load the store holds what it held and what was given, each quad as given. */
  lemma LoadStores(kv: KV, s: set<Quad>, qs: seq<Quad>, dl: Bytes)
    requires Indexes(kv, s) && AllNulFree(Elements(qs)) && NulFree(dl)
    ensures Indexes(LoadKv(kv, Effective(qs, dl)), s + Given(qs, dl))
  {
    var effs := Effective(qs, dl);
    EffectiveNulFree(qs, dl);
    EffectiveGiven(qs, dl);
    hide Indexes, Effective, Given, Put, Drop, AddDeltas, Tally;
    IndexesAfter(kv, s, Elements(effs), {});
    PutNone(Put(kv, Elements(effs)));
    assert (s + Elements(effs)) - {} == s + Elements(effs);
    assert Put(kv, Elements(effs)) + map[] == Put(kv, Elements(effs));
    OverlaidIndex(Put(kv, Elements(effs)), map[], Tally(effs), s + Elements(effs));
  }

  function LoadView(v: View, qs: seq<Quad>): View {
    v.(quads := v.quads + Elements(qs))
  }

  /** An ingest's tables are a union on the plain set; counters and log stay. */
  lemma TablesRepresent(kv: KV, v: View, qs: seq<Quad>)
    requires Represents(kv, v) && AllNulFree(Elements(qs))
    ensures Represents(Put(kv, Elements(qs)), LoadView(v, qs))
  {
    var s := Elements(qs);
    RepresentsQuads(kv, v, s, {});
    PutNone(Put(kv, s));
    assert (v.quads + s) - {} == v.quads + s;
  }

  /** A bulk flush, or a whole ingest, is a union on the plain set; the log stays. */
  lemma LoadRepresents(kv: KV, v: View, qs: seq<Quad>)
    requires Represents(kv, v) && AllNulFree(Elements(qs))
    ensures Represents(LoadKv(kv, qs), LoadView(v, qs))
  {
    TablesRepresent(kv, v, qs);
    RepresentsDeltas(Put(kv, Elements(qs)), LoadView(v, qs), Tally(qs));
  }

  // ---- rebuilding the counters ----

  /** The label of a key of the label keyspace. */
  function LabelOf(k: Bytes): Option<Bytes> {
    if |k| < 2 || k[0] != Prefix(LSP) then None else FirstField(k)
  }

  lemma LabelOfKey(q: Quad)
    requires QuadNulFree(q)
    ensures LabelOf(KeyOf(LSP, q)) == Some(q.lbl)
  {
    FirstFieldOfKey(LSP, q);
    hide FirstField;
  }

  /** Keys per label. */
  function TallyKeys(keys: seq<Bytes>): Deltas {
    if keys == [] then map[]
    else
      var n := |keys| - 1;
      match LabelOf(keys[n])
      case Some(l) => Bump(TallyKeys(keys[..n]), l, 1)
      case None => TallyKeys(keys[..n])
  }

  function WithLabelOf(keys: seq<Bytes>, l: Bytes): set<Bytes> {
    set k | k in keys && LabelOf(k) == Some(l)
  }

  lemma WithLabelOfNext(front: seq<Bytes>, last: Bytes, l: Bytes)
    requires last !in front
    ensures |WithLabelOf(front + [last], l)| == |WithLabelOf(front, l)| + if LabelOf(last) == Some(l) then 1 else 0
  {
    if LabelOf(last) == Some(l) {
      assert WithLabelOf(front + [last], l) == WithLabelOf(front, l) + {last};
    } else {
      assert WithLabelOf(front + [last], l) == WithLabelOf(front, l);
    }
  }

  lemma TallyKeysNext(front: seq<Bytes>, last: Bytes, l: Bytes)
    ensures At(TallyKeys(front + [last]), l) == At(TallyKeys(front), l) + if LabelOf(last) == Some(l) then 1 else 0
    ensures l in TallyKeys(front + [last]) <==> l in TallyKeys(front) || LabelOf(last) == Some(l)
  {
    assert (front + [last])[..|front|] == front;
  }

  lemma {:induction false} TallyKeysAt(keys: seq<Bytes>, l: Bytes)
    requires StrictlySorted(keys)
    ensures At(TallyKeys(keys), l) == |WithLabelOf(keys, l)|
    ensures l in TallyKeys(keys) <==> |WithLabelOf(keys, l)| > 0
  {
    if keys != [] {
      var n := |keys| - 1;
      var front, last := keys[..n], keys[n];
      TallyKeysAt(front, l);
      assert keys == front + [last];
      LessIrreflexive(last);
      assert last !in front;
      WithLabelOfNext(front, last, l);
      TallyKeysNext(front, last, l);
    }
  }

  /** One counter row per counted label. */
  function CountRows(d: Deltas): KV {
    map k | k in (set l | l in d :: CountKey(l)) && k != [] && k[1..] in d :: EncodeI64(d[k[1..]])
  }

  function LspKeys(kv: KV): seq<Bytes> {
    RangeKeys(kv, [Prefix(LSP)], [Prefix(LSP) + 1])
  }

  /** The counter keyspace dropped and written afresh: the batch of a rebuild. */
  function Replaced(kv: KV, counts: Deltas): KV {
    Apply(kv, DeleteRange([LABEL_COUNT], [LABEL_COUNT + 1])) + CountRows(counts)
  }

  /** A rebuild with nothing between its scan of the label keyspace and its batch. */
  function Rebuilt(kv: KV): KV {
    Replaced(kv, TallyKeys(LspKeys(kv)))
  }

  /** A one-byte range is a whole keyspace. */
  lemma OneByteRange(b: byte, k: Bytes)
    requires b < 255
    ensures InRange(k, [b], [b + 1]) <==> k != [] && k[0] == b
  {
    PrefixRange([b], k);
    assert UpperBoundForPrefix([b]) == [b + 1];
  }

  lemma CountRowsLookup(d: Deltas, k: Bytes)
    ensures Lookup(CountRows(d), k)
         == if k != [] && k[0] == LABEL_COUNT && k[1..] in d then Some(EncodeI64(d[k[1..]])) else None
  {
    if k != [] && k[0] == LABEL_COUNT { assert k == CountKey(k[1..]); }
    forall l ensures CountKey(l)[1..] == l && CountKey(l)[0] == LABEL_COUNT {}
  }

  lemma ReplacedLookup(kv: KV, counts: Deltas, k: Bytes)
    ensures Lookup(Replaced(kv, counts), k)
         == if k == [] || k[0] != LABEL_COUNT then Lookup(kv, k) else Lookup(CountRows(counts), k)
  {
    OneByteRange(LABEL_COUNT, k);
    CountRowsLookup(counts, k);
    var base, rows := Apply(kv, DeleteRange([LABEL_COUNT], [LABEL_COUNT + 1])), CountRows(counts);
    assert Replaced(kv, counts) == base + rows;
    assert k in base <==> k in kv && (k == [] || k[0] != LABEL_COUNT);
  }

  /** The quads under a label. */
  function WithLabel(s: set<Quad>, l: Bytes): set<Quad> {
    set q | q in s && q.lbl == l
  }

  /** The label keyspace holds one key for each quad of a label. */
  lemma LabelKeysAre(kv: KV, s: set<Quad>, l: Bytes)
    requires Indexes(kv, s)
    ensures WithLabelOf(LspKeys(kv), l) == Image(LSP, WithLabel(s, l))
    ensures |WithLabelOf(LspKeys(kv), l)| == |WithLabel(s, l)|
  {
    var keys := LspKeys(kv);
    forall k ensures k in keys <==> k in Image(LSP, s) {
      OneByteRange(Prefix(LSP), k);
      assert k in KeysIn(kv, Prefix(LSP)) <==> k in Image(LSP, s);
    }
    forall q | q in s ensures LabelOf(KeyOf(LSP, q)) == Some(q.lbl) { LabelOfKey(q); }
    ImageSize(LSP, WithLabel(s, l));
  }

  lemma ReplacedCountersOk(kv: KV, counts: Deltas)
    ensures CountersOk(Replaced(kv, counts))
  {
    var kv' := Replaced(kv, counts);
    forall k | k in kv' && k != [] && k[0] == LABEL_COUNT ensures |kv'[k]| == 8 {
      ReplacedLookup(kv, counts, k);
      CountRowsLookup(counts, k);
      assert Lookup(kv', k) == Some(kv'[k]);
    }
  }

  /** Replacing the counters, whatever by, touches no quad and no audit row. */
  lemma ReplacedRepresents(kv: KV, v: View, counts: Deltas)
    requires Represents(kv, v)
    ensures Represents(Replaced(kv, counts), v)
  {
    ReplacedCountersOk(kv, counts);
    forall k | k == [] || k[0] != LABEL_COUNT ensures Lookup(Replaced(kv, counts), k) == Lookup(kv, k) {
      ReplacedLookup(kv, counts, k);
    }
    RepresentsFrame(kv, Replaced(kv, counts), v);
  }

  lemma ReplacedCounterAt(kv: KV, counts: Deltas, l: Bytes)
    ensures CountersOk(Replaced(kv, counts)) && Counter(Replaced(kv, counts), l) == Wrap(At(counts, l))
    ensures CountKey(l) in Replaced(kv, counts) <==> l in counts
  {
    var k := CountKey(l);
    ReplacedCountersOk(kv, counts);
    ReplacedLookup(kv, counts, k);
    CountRowsLookup(counts, k);
    assert k[1..] == l;
    if l in counts { CountRoundTrip(counts[l]); }
    assert Lookup(Replaced(kv, counts), k) == if l in counts then Some(EncodeI64(counts[l])) else None;
  }

  /**
   * A rebuild whose scan saw one state and whose batch lands on another: each counter becomes the true
   * count of the state scanned, and labels dead in that state get none.
   */
  lemma ReplacedCounter(scanned: KV, s: set<Quad>, kv: KV, l: Bytes)
    requires Indexes(scanned, s)
    ensures var kv' := Replaced(kv, TallyKeys(LspKeys(scanned)));
      && CountersOk(kv') && Counter(kv', l) == Wrap(|WithLabel(s, l)|)
      && (CountKey(l) in kv' <==> WithLabel(s, l) != {})
  {
    LabelKeysAre(scanned, s, l);
    TallyKeysAt(LspKeys(scanned), l);
    ReplacedCounterAt(kv, TallyKeys(LspKeys(scanned)), l);
  }

  /** With nothing in between, a rebuild leaves every counter at the true count and all else as it was. */
  lemma RebuildRepresents(kv: KV, v: View)
    requires Represents(kv, v)
    ensures Represents(Rebuilt(kv), v)
    ensures forall l :: Counter(Rebuilt(kv), l) == Wrap(|WithLabel(v.quads, l)|)
    ensures forall l :: CountKey(l) in Rebuilt(kv) <==> WithLabel(v.quads, l) != {}
    ensures forall k | k == [] || k[0] != LABEL_COUNT :: Lookup(Rebuilt(kv), k) == Lookup(kv, k)
  {
    var counts := TallyKeys(LspKeys(kv));
    ReplacedRepresents(kv, v, counts);
    hide Represents, Replaced;
    forall k | k == [] || k[0] != LABEL_COUNT ensures Lookup(Rebuilt(kv), k) == Lookup(kv, k) {
      ReplacedLookup(kv, counts, k);
    }
    forall l
      ensures Counter(Rebuilt(kv), l) == Wrap(|WithLabel(v.quads, l)|)
      ensures CountKey(l) in Rebuilt(kv) <==> WithLabel(v.quads, l) != {}
    {
      RepresentsIndexes(kv, v);
      ReplacedCounter(kv, v.quads, kv, l);
    }
  }

  lemma RepresentsIndexes(kv: KV, v: View)
    requires Represents(kv, v)
    ensures Indexes(kv, v.quads) && Journaled(kv, v.log) && CountersOk(kv)
  {}
}
