/** Whole runs of a Pebble store, one store operation at a time: one quad set, and the exact counter drift. */
module History {
  import opened ByteOrder
  import opened CounterMerge
  import opened Integers
  import opened Journal
  import opened Keyspaces
  import opened LabelCount
  import opened Pebble
  import opened QuadKeys
  import opened Quads
  import opened StoreModel

  /**
   * What the write paths do to the store, each event one atomic operation: a commit's batch, a bulk flush's
   * batch, the two halves of an ingest, and the batch of a rebuild whose scan saw the store after `scan`
   * events. Anything may come between two halves.
   */
  datatype Event =
    | Committed(batch: Batch, id: Bytes, ts: int)
    | Loaded(quads: seq<Quad>)
    | TablesIngested(quads: seq<Quad>)
    | DeltasMerged(quads: seq<Quad>)
    | CountersReplaced(scan: nat)

  /** The events a rebuild's scan saw. */
  function Scanned(front: seq<Event>, e: Event): (r: seq<Event>)
    ensures |r| <= |front|
  {
    if e.CountersReplaced? && e.scan <= |front| then front[..e.scan] else []
  }

  function StepKv(kv: KV, e: Event, scanned: KV): KV {
    match e
    case Committed(b, id, ts) => CommitKv(kv, b, id, ts)
    case Loaded(qs) => LoadKv(kv, qs)
    case TablesIngested(qs) => Put(kv, Elements(qs))
    case DeltasMerged(qs) => AddDeltas(kv, Tally(qs))
    case CountersReplaced(_) => Replaced(kv, TallyKeys(LspKeys(scanned)))
  }

  function StepView(v: View, e: Event): View {
    match e
    case Committed(b, id, ts) => CommitView(v, b, id, ts)
    case Loaded(qs) => LoadView(v, qs)
    case TablesIngested(qs) => LoadView(v, qs)
    case DeltasMerged(_) => v
    case CountersReplaced(_) => v
  }

  function RunKv(es: seq<Event>): KV
    decreases |es|
  {
    if es == [] then map[]
    else
      var front, e := es[..|es| - 1], es[|es| - 1];
      StepKv(RunKv(front), e, RunKv(Scanned(front, e)))
  }

  /** The plain-set replay: each batch as adds then removes. */
  function RunView(es: seq<Event>): View {
    if es == [] then EMPTY else StepView(RunView(es[..|es| - 1]), es[|es| - 1])
  }

  /** Deltas follow their tables, once each; a rebuild's batch follows its scan. */
  predicate EventOk(front: seq<Event>, e: Event) {
    match e
    case Committed(b, id, ts) => CommitOk(RunView(front), b, id, ts)
    case Loaded(qs) => AllNulFree(Elements(qs))
    case TablesIngested(qs) => AllNulFree(Elements(qs))
    case DeltasMerged(qs) => multiset(front)[DeltasMerged(qs)] < multiset(front)[TablesIngested(qs)]
    case CountersReplaced(scan) => scan <= |front|
  }

  predicate RunOk(es: seq<Event>) {
    es == [] || (RunOk(es[..|es| - 1]) && EventOk(es[..|es| - 1], es[|es| - 1]))
  }

  lemma {:induction false} RunOkPrefix(es: seq<Event>, n: nat)
    requires RunOk(es) && n <= |es|
    ensures RunOk(es[..n])
  {
    hide EventOk;
    if n == |es| {
      assert es[..n] == es;
    } else {
      assert es[..|es| - 1][..n] == es[..n];
      RunOkPrefix(es[..|es| - 1], n);
    }
  }

  /** After any run the four keyspaces encode the quads of the plain-set replay, and the audit rows its log. */
  lemma {:induction false} RunRepresents(es: seq<Event>)
    requires RunOk(es)
    ensures Represents(RunKv(es), RunView(es))
  {
    if es == [] {
      EmptyRepresents();
    } else {
      var front, e := es[..|es| - 1], es[|es| - 1];
      RunRepresents(front);
      hide Represents, CommitKv, LoadKv, Put, AddDeltas, Replaced, TallyKeys, LspKeys, CommitView, LoadView, CommitOk;
      StepRepresents(RunKv(front), RunView(front), front, e, RunKv(Scanned(front, e)));
    }
  }

  lemma StepRepresents(kv: KV, v: View, front: seq<Event>, e: Event, scanned: KV)
    requires Represents(kv, v) && v == RunView(front) && EventOk(front, e)
    ensures Represents(StepKv(kv, e, scanned), StepView(v, e))
  {
    hide Represents, CommitKv, LoadKv, Put, AddDeltas, Replaced, TallyKeys, LspKeys, CommitView, LoadView, CommitOk;
    match e
    case Committed(b, id, ts) => CommitRepresents(kv, v, b, id, ts);
    case Loaded(qs) => LoadRepresents(kv, v, qs);
    case TablesIngested(qs) => TablesRepresent(kv, v, qs);
    case DeltasMerged(qs) => RepresentsDeltas(kv, v, Tally(qs));
    case CountersReplaced(_) => ReplacedRepresents(kv, v, TallyKeys(LspKeys(scanned)));
  }

  lemma EmptyRepresents()
    ensures Represents(map[], EMPTY)
  {
    forall sp: Space ensures KeysIn(map[], Prefix(sp)) == Image(sp, {}) {}
    assert KeysIn(map[], COMMITS) == CommitKeySet(EMPTY.log);
    assert KeysIn(map[], COMMIT_OPS) == OpKeySet(EMPTY.log);
  }

  // ---- drift ----

  /** Adds under l of quads already there. */
  function RedundantAdds(s: set<Quad>, qs: seq<Quad>, l: Bytes): nat {
    if qs == [] then 0
    else
      var front, q := qs[..|qs| - 1], qs[|qs| - 1];
      RedundantAdds(s, front, l) + if q.lbl == l && q in s + Elements(front) then 1 else 0
  }

  /** Removes under l of quads not there. */
  function AbsentRemoves(s: set<Quad>, rs: seq<Quad>, l: Bytes): nat {
    if rs == [] then 0
    else
      var front, q := rs[..|rs| - 1], rs[|rs| - 1];
      AbsentRemoves(s, front, l) + if q.lbl == l && q !in s - Elements(front) then 1 else 0
  }

  /** Empty-label removes are charged to the batch label but delete empty-label keys. */
  function Mischarged(rs: seq<Quad>, batchLabel: Bytes, l: Bytes): int {
    if rs == [] then 0
    else
      var front, q := rs[..|rs| - 1], rs[|rs| - 1];
      Mischarged(front, batchLabel, l)
      + if q.lbl != [] then 0 else (if l == [] then 1 else 0) - (if l == batchLabel then 1 else 0)
  }

  /**
   * The gap between a label's counter and its true count after an event. Tables without their deltas are
   * missing from the counter; a rebuild leaves the difference between what its scan saw and what is there.
   */
  function DriftAfter(prior: int, front: seq<Event>, e: Event, l: Bytes): int {
    var s := RunView(front).quads;
    match e
    case Committed(b, _, _) =>
      prior + RedundantAdds(s, Effective(b.adds, b.lbl), l)
      - AbsentRemoves(s + Elements(Effective(b.adds, b.lbl)), b.removes, l)
      + Mischarged(b.removes, b.lbl, l)
    case Loaded(qs) => prior + RedundantAdds(s, qs, l)
    case TablesIngested(qs) => prior + RedundantAdds(s, qs, l) - CountLabel(qs, l)
    case DeltasMerged(qs) => prior + CountLabel(qs, l)
    case CountersReplaced(_) => TrueCount(RunView(Scanned(front, e)).quads, l) - TrueCount(s, l)
  }

  function Drift(es: seq<Event>, l: Bytes): int {
    if es == [] then 0
    else DriftAfter(Drift(es[..|es| - 1], l), es[..|es| - 1], es[|es| - 1], l)
  }

  function TrueCount(s: set<Quad>, l: Bytes): nat {
    |WithLabel(s, l)|
  }

  lemma CountWith(s: set<Quad>, q: Quad, l: Bytes)
    ensures TrueCount(s + {q}, l) == TrueCount(s, l) + if q.lbl == l && q !in s then 1 else 0
    ensures TrueCount(s - {q}, l) == TrueCount(s, l) - if q.lbl == l && q in s then 1 else 0
  {
    var w := WithLabel(s, l);
    if q.lbl == l {
      assert WithLabel(s + {q}, l) == w + {q};
      assert WithLabel(s - {q}, l) == w - {q};
      assert if q in w then w + {q} == w else w - {q} == w;
    } else {
      assert WithLabel(s + {q}, l) == w;
      assert WithLabel(s - {q}, l) == w;
    }
  }

  lemma {:induction false} CountAfterAdds(s: set<Quad>, qs: seq<Quad>, l: Bytes)
    ensures TrueCount(s + Elements(qs), l) == TrueCount(s, l) + CountLabel(qs, l) - RedundantAdds(s, qs, l)
  {
    if qs == [] {
      assert s + Elements(qs) == s;
    } else {
      var front, q := qs[..|qs| - 1], qs[|qs| - 1];
      CountAfterAdds(s, front, l);
      CountWith(s + Elements(front), q, l);
      ElementsNext(qs, |qs| - 1);
      assert qs[..|qs|] == qs;
      assert s + Elements(qs) == (s + Elements(front)) + {q};
    }
  }

  lemma {:induction false} CountAfterRemoves(s: set<Quad>, rs: seq<Quad>, l: Bytes)
    ensures TrueCount(s - Elements(rs), l) == TrueCount(s, l) - CountLabel(rs, l) + AbsentRemoves(s, rs, l)
  {
    if rs == [] {
      assert s - Elements(rs) == s;
    } else {
      var front, q := rs[..|rs| - 1], rs[|rs| - 1];
      CountAfterRemoves(s, front, l);
      CountWith(s - Elements(front), q, l);
      ElementsNext(rs, |rs| - 1);
      assert rs[..|rs|] == rs;
      assert s - Elements(rs) == (s - Elements(front)) - {q};
    }
  }

  lemma {:induction false} ChargedRemoves(rs: seq<Quad>, batchLabel: Bytes, l: Bytes)
    ensures CountLabel(Effective(rs, batchLabel), l) == CountLabel(rs, l) - Mischarged(rs, batchLabel, l)
  {
    if rs != [] {
      var n := |rs| - 1;
      ChargedRemoves(rs[..n], batchLabel, l);
      assert Effective(rs, batchLabel)[..n] == Effective(rs[..n], batchLabel);
    }
  }

  lemma BatchDeltaAt(b: Batch, l: Bytes)
    ensures At(BatchDeltas(b), l)
         == CountLabel(Effective(b.adds, b.lbl), l) - CountLabel(Effective(b.removes, b.lbl), l)
  {
    AddTallyAt(map[], Effective(b.adds, b.lbl), 1, l);
    AddTallyAt(Tally(Effective(b.adds, b.lbl)), Effective(b.removes, b.lbl), -1, l);
  }

  lemma CounterFrame(kv: KV, kv': KV, l: Bytes)
    requires CountersOk(kv)
    requires forall k | k != [] && k[0] == LABEL_COUNT :: Lookup(kv', k) == Lookup(kv, k)
    ensures CountersOk(kv') && Counter(kv', l) == Counter(kv, l)
  {
    forall k | k in kv' && k != [] && k[0] == LABEL_COUNT ensures |kv'[k]| == 8 {
      assert Lookup(kv', k) == Lookup(kv, k);
    }
    assert Lookup(kv', CountKey(l)) == Lookup(kv, CountKey(l));
  }

  lemma CommitLeavesCounters(kv: KV, b: Batch, id: Bytes, ts: int, k: Bytes)
    requires k != [] && k[0] == LABEL_COUNT
    ensures Lookup(Drop(Put(kv, Elements(Effective(b.adds, b.lbl))), Elements(b.removes)) + JournalRows(b, id, ts), k)
         == Lookup(kv, k)
  {
    var adds, removes := Elements(Effective(b.adds, b.lbl)), Elements(b.removes);
    PutLookup(kv, adds, k);
    PutLookup(Put(kv, adds), removes, k);
    JournalRowsElsewhere(b, id, ts);
  }

  lemma CounterAfterCommit(kv: KV, b: Batch, id: Bytes, ts: int, l: Bytes)
    requires CountersOk(kv)
    ensures CountersOk(CommitKv(kv, b, id, ts))
    ensures Counter(CommitKv(kv, b, id, ts), l) == Wrap(Counter(kv, l) + At(BatchDeltas(b), l))
  {
    hide Wrap, Counter, CountersOk, Lookup, Put, Drop, JournalRows, BatchDeltas, AddDeltas, At;
    var mid := Drop(Put(kv, Elements(Effective(b.adds, b.lbl))), Elements(b.removes)) + JournalRows(b, id, ts);
    forall k | k != [] && k[0] == LABEL_COUNT ensures Lookup(mid, k) == Lookup(kv, k) {
      CommitLeavesCounters(kv, b, id, ts, k);
    }
    CounterFrame(kv, mid, l);
    CounterAfter(mid, BatchDeltas(b), l);
  }

  lemma CounterAfterLoad(kv: KV, qs: seq<Quad>, l: Bytes)
    requires CountersOk(kv)
    ensures CountersOk(LoadKv(kv, qs)) && Counter(LoadKv(kv, qs), l) == Wrap(Counter(kv, l) + CountLabel(qs, l))
  {
    hide Wrap, Counter, CountersOk, Put, AddDeltas, Tally, Elements, CountLabel;
    CounterAfterTables(kv, qs, l);
    CounterAfterDeltas(Put(kv, Elements(qs)), qs, l);
  }

  lemma CounterAfterTables(kv: KV, qs: seq<Quad>, l: Bytes)
    requires CountersOk(kv)
    ensures CountersOk(Put(kv, Elements(qs))) && Counter(Put(kv, Elements(qs)), l) == Counter(kv, l)
  {
    hide Counter, CountersOk, Lookup, Put, Elements;
    forall k | k != [] && k[0] == LABEL_COUNT ensures Lookup(Put(kv, Elements(qs)), k) == Lookup(kv, k) {
      PutLookup(kv, Elements(qs), k);
    }
    CounterFrame(kv, Put(kv, Elements(qs)), l);
  }

  lemma CounterAfterDeltas(kv: KV, qs: seq<Quad>, l: Bytes)
    requires CountersOk(kv)
    ensures CountersOk(AddDeltas(kv, Tally(qs)))
    ensures Counter(AddDeltas(kv, Tally(qs)), l) == Wrap(Counter(kv, l) + CountLabel(qs, l))
  {
    hide Counter, CountersOk, AddDeltas, AddTally, CountLabel, Wrap;
    CounterAfter(kv, Tally(qs), l);
    AddTallyAt(map[], qs, 1, l);
  }

  /** A batch moves the true count by its delta less the drift it causes. */
  lemma CommitCount(s: set<Quad>, b: Batch, l: Bytes)
    ensures var effs := Effective(b.adds, b.lbl);
      TrueCount(SetAfter(s, b), l) + RedundantAdds(s, effs, l) - AbsentRemoves(s + Elements(effs), b.removes, l)
      + Mischarged(b.removes, b.lbl, l) == TrueCount(s, l) + At(BatchDeltas(b), l)
  {
    var effs := Effective(b.adds, b.lbl);
    BatchDeltaAt(b, l);
    ChargedRemoves(b.removes, b.lbl, l);
    CountAfterAdds(s, effs, l);
    CountAfterRemoves(s + Elements(effs), b.removes, l);
  }

  lemma WrapStep(c: int, before: int, delta: int, after: int)
    requires c == Wrap(Wrap(before) + delta) && after == before + delta
    ensures c == Wrap(after)
  {
    WrapAdd(before, delta);
  }

  /** One event moves a counter by exactly what it moves count plus drift. */
  lemma DriftStep(kv: KV, front: seq<Event>, e: Event, l: Bytes, prior: int, scanned: KV)
    requires CountersOk(kv) && Counter(kv, l) == Wrap(TrueCount(RunView(front).quads, l) + prior)
    requires e.CountersReplaced? ==> Indexes(scanned, RunView(Scanned(front, e)).quads)
    ensures CountersOk(StepKv(kv, e, scanned))
    ensures Counter(StepKv(kv, e, scanned), l)
         == Wrap(TrueCount(StepView(RunView(front), e).quads, l) + DriftAfter(prior, front, e, l))
  {
    hide Wrap, Counter, CountersOk, CommitKv, LoadKv, Put, AddDeltas, Replaced, TallyKeys, LspKeys, At, BatchDeltas;
    hide RedundantAdds, AbsentRemoves, Mischarged, SetAfter, Effective, Elements, CountLabel, Indexes, RunView;
    var v := RunView(front);
    var before := TrueCount(v.quads, l) + prior;
    var after := TrueCount(StepView(v, e).quads, l) + DriftAfter(prior, front, e, l);
    match e
    case Committed(b, id, ts) =>
      CounterAfterCommit(kv, b, id, ts, l);
      CommitCount(v.quads, b, l);
      WrapStep(Counter(CommitKv(kv, b, id, ts), l), before, At(BatchDeltas(b), l), after);
    case Loaded(qs) =>
      CounterAfterLoad(kv, qs, l);
      CountAfterAdds(v.quads, qs, l);
      WrapStep(Counter(LoadKv(kv, qs), l), before, CountLabel(qs, l), after);
    case TablesIngested(qs) =>
      CounterAfterTables(kv, qs, l);
      CountAfterAdds(v.quads, qs, l);
    case DeltasMerged(qs) =>
      CounterAfterDeltas(kv, qs, l);
      WrapStep(Counter(AddDeltas(kv, Tally(qs)), l), before, CountLabel(qs, l), after);
    case CountersReplaced(_) =>
      ReplacedCounter(scanned, RunView(Scanned(front, e)).quads, kv, l);
  }

  lemma EmptyCounter(l: Bytes)
    ensures CountersOk(map[]) && Counter(map[], l) == Wrap(TrueCount(EMPTY.quads, l))
  {
    assert WithLabel({}, l) == {};
  }

  /** The scan of a rebuild saw a store that indexed the replayed set. */
  lemma ScannedIndexes(front: seq<Event>, e: Event)
    requires RunOk(front)
    ensures Indexes(RunKv(Scanned(front, e)), RunView(Scanned(front, e)).quads)
  {
    hide EventOk, Indexes, Represents;
    if e.CountersReplaced? && e.scan <= |front| { RunOkPrefix(front, e.scan); }
    RunRepresents(Scanned(front, e));
    RepresentsIndexes(RunKv(Scanned(front, e)), RunView(Scanned(front, e)));
  }

  /**
   * In every reachable state, store operation by store operation, each label's counter is its true count
   * plus the drift, modulo 2^64: redundant adds, less removes of absent quads, corrected for empty-label
   * removes, less tables whose deltas are still to come; and what a rebuild's scan did not see.
   */
  lemma {:induction false} CounterIsCountPlusDrift(es: seq<Event>, l: Bytes)
    requires RunOk(es)
    ensures CountersOk(RunKv(es))
    ensures Counter(RunKv(es), l) == Wrap(TrueCount(RunView(es).quads, l) + Drift(es, l))
  {
    hide Wrap, Counter, CountersOk, StepKv, StepView, DriftAfter, TrueCount, EventOk, Indexes, Scanned;
    if es == [] {
      EmptyCounter(l);
    } else {
      var front, e := es[..|es| - 1], es[|es| - 1];
      ScannedIndexes(front, e);
      CounterIsCountPlusDrift(front, l);
      DriftStep(RunKv(front), front, e, l, Drift(front, l), RunKv(Scanned(front, e)));
    }
  }

  /** The O(1) count is the true count exactly when the drift is a multiple of 2^64. */
  lemma CountExactIffNoDrift(es: seq<Event>, l: Bytes)
    requires RunOk(es) && TrueCount(RunView(es).quads, l) < TWO63
    ensures CountersOk(RunKv(es))
    ensures Counter(RunKv(es), l) == TrueCount(RunView(es).quads, l) <==> Drift(es, l) % TWO64 == 0
  {
    hide *;
    CounterIsCountPlusDrift(es, l);
    ExactIff(Counter(RunKv(es), l), TrueCount(RunView(es).quads, l), Drift(es, l));
  }

  lemma ExactIff(c: int, n: int, d: int)
    requires IsInt64(n) && c == Wrap(n + d)
    ensures c == n <==> d % TWO64 == 0
  {
    assert c % TWO64 == (n + d) % TWO64;
    if d % TWO64 == 0 {
      assert (n + d) % TWO64 == n % TWO64;
    }
  }

  /**
   * A rebuild leaves each counter at the true count its scan saw, so it is exact exactly if the label has as
   * many quads when the batch lands as it had at the scan.
   */
  lemma RebuildExactIff(es: seq<Event>, scan: nat, l: Bytes)
    requires RunOk(es) && scan <= |es| && CountAt(es, l) < TWO63 && CountAt(es[..scan], l) < TWO63
    ensures var after := es + [CountersReplaced(scan)];
      && RunOk(after) && RunView(after) == RunView(es) && CountersOk(RunKv(after))
      && Counter(RunKv(after), l) == CountAt(es[..scan], l)
      && (Counter(RunKv(after), l) == CountAt(after, l) <==> CountAt(es[..scan], l) == CountAt(es, l))
  {
    hide *;
    ReplacingRun(es, scan, l);
    CounterAtRun(es + [CountersReplaced(scan)], l);
    WrapSmall(CountAt(es[..scan], l));
  }

  /** A label's true number of quads after a run. */
  function CountAt(es: seq<Event>, l: Bytes): nat {
    TrueCount(RunView(es).quads, l)
  }

  lemma CounterAtRun(es: seq<Event>, l: Bytes)
    requires RunOk(es)
    ensures CountersOk(RunKv(es)) && Counter(RunKv(es), l) == Wrap(CountAt(es, l) + Drift(es, l))
  {
    hide RunOk, Counter, CountersOk, RunKv, RunView, TrueCount, Drift, Wrap;
    CounterIsCountPlusDrift(es, l);
  }

  lemma ReplacingRun(es: seq<Event>, scan: nat, l: Bytes)
    requires RunOk(es) && scan <= |es|
    ensures var after := es + [CountersReplaced(scan)];
      && RunOk(after) && RunView(after) == RunView(es) && CountAt(after, l) == CountAt(es, l)
      && CountAt(after, l) + Drift(after, l) == CountAt(es[..scan], l)
  {
    var e := CountersReplaced(scan);
    var after := es + [e];
    assert after[..|after| - 1] == es && after[|after| - 1] == e;
    hide TrueCount;
  }

  lemma WrapSmall(n: nat)
    requires n < TWO63
    ensures Wrap(n) == n
  {}

  /** Adds only new quads, once each. */
  predicate AllNew(s: set<Quad>, qs: seq<Quad>) {
    && (forall i | 0 <= i < |qs| :: qs[i] !in s)
    && (forall i, j | 0 <= i < j < |qs| :: qs[i] != qs[j])
  }

  /** Only new quads added, only present and labelled ones removed; rebuilds right after their scan. */
  predicate Clean(front: seq<Event>, e: Event) {
    var s := RunView(front).quads;
    match e
    case Committed(b, _, _) =>
      var effs := Effective(b.adds, b.lbl);
      && AllNew(s, effs)
      && (forall i | 0 <= i < |b.removes| :: b.removes[i] in s + Elements(effs))
      && (forall i, j | 0 <= i < j < |b.removes| :: b.removes[i] != b.removes[j])
      && (forall i | 0 <= i < |b.removes| :: b.removes[i].lbl != [] || b.lbl == [])
    case Loaded(qs) => AllNew(s, qs)
    case TablesIngested(qs) => AllNew(s, qs)
    case DeltasMerged(qs) => front != [] && front[|front| - 1] == TablesIngested(qs)
    case CountersReplaced(scan) => scan == |front|
  }

  predicate CleanRun(es: seq<Event>) {
    es == [] || (CleanRun(es[..|es| - 1]) && Clean(es[..|es| - 1], es[|es| - 1])
                 && (|es| > 1 && es[|es| - 2].TablesIngested? ==> es[|es| - 1].DeltasMerged?))
  }

  lemma {:induction false} NoRedundantAdds(s: set<Quad>, qs: seq<Quad>, l: Bytes)
    requires AllNew(s, qs)
    ensures RedundantAdds(s, qs, l) == 0
  {
    if qs != [] {
      var n := |qs| - 1;
      NoRedundantAdds(s, qs[..n], l);
      assert qs[n] !in qs[..n];
    }
  }

  lemma {:induction false} NoAbsentRemoves(s: set<Quad>, rs: seq<Quad>, l: Bytes)
    requires forall i | 0 <= i < |rs| :: rs[i] in s
    requires forall i, j | 0 <= i < j < |rs| :: rs[i] != rs[j]
    ensures AbsentRemoves(s, rs, l) == 0
  {
    if rs != [] {
      var n := |rs| - 1;
      NoAbsentRemoves(s, rs[..n], l);
      assert rs[n] !in rs[..n];
    }
  }

  lemma {:induction false} NoneMischarged(rs: seq<Quad>, batchLabel: Bytes, l: Bytes)
    requires forall i | 0 <= i < |rs| :: rs[i].lbl != [] || batchLabel == []
    ensures Mischarged(rs, batchLabel, l) == 0
  {
    if rs != [] { NoneMischarged(rs[..|rs| - 1], batchLabel, l); }
  }

  /** What an ingest between its halves still owes a counter. */
  function Owed(es: seq<Event>, l: Bytes): nat {
    if es != [] && es[|es| - 1].TablesIngested? then CountLabel(es[|es| - 1].quads, l) else 0
  }

  /**
   * A clean run, whose ingests have nothing between their halves, never drifts, except that between the
   * halves an ingest's own quads are missing.
   */
  lemma {:induction false} CleanRunsDoNotDrift(es: seq<Event>, l: Bytes)
    requires CleanRun(es)
    ensures Drift(es, l) + Owed(es, l) == 0
  {
    if es != [] {
      var front, e := es[..|es| - 1], es[|es| - 1];
      CleanRunsDoNotDrift(front, l);
      CleanStep(front, e, l, Drift(front, l));
      assert |es| > 1 ==> front[|front| - 1] == es[|es| - 2];
      hide DriftAfter, Clean, CountLabel;
    }
  }

  function CleanDrift(prior: int, e: Event, l: Bytes): int {
    match e
    case TablesIngested(qs) => prior - CountLabel(qs, l)
    case DeltasMerged(qs) => prior + CountLabel(qs, l)
    case CountersReplaced(_) => 0
    case _ => prior
  }

  lemma CleanStep(front: seq<Event>, e: Event, l: Bytes, prior: int)
    requires Clean(front, e)
    ensures DriftAfter(prior, front, e, l) == CleanDrift(prior, e, l)
  {
    hide RunView, RedundantAdds, AbsentRemoves, Mischarged, CountLabel, TrueCount;
    var s := RunView(front).quads;
    match e
    case Committed(b, _, _) =>
      var effs := Effective(b.adds, b.lbl);
      NoRedundantAdds(s, effs, l);
      NoAbsentRemoves(s + Elements(effs), b.removes, l);
      NoneMischarged(b.removes, b.lbl, l);
    case Loaded(qs) => NoRedundantAdds(s, qs, l);
    case TablesIngested(qs) => NoRedundantAdds(s, qs, l);
    case DeltasMerged(qs) =>
    case CountersReplaced(_) => assert front[..|front|] == front;
  }
}
