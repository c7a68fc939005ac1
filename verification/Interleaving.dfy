/** Ingests cut in two, commits in any order, and runs whose counters go wrong. */
module Interleaving {
  import opened ByteOrder
  import opened CounterMerge
  import opened History
  import opened Integers
  import opened Journal
  import opened Keyspaces
  import opened LabelCount
  import opened Pebble
  import opened QuadKeys
  import opened Quads
  import opened StoreModel

  // ---- what comes between the halves of an ingest ----

  /** Everything but a rebuild's batch. */
  predicate NoRebuild(es: seq<Event>) {
    forall i | 0 <= i < |es| :: !es[i].CountersReplaced?
  }

  /** Events on a given store. */
  function RunFrom(kv: KV, es: seq<Event>): KV {
    if es == [] then kv else StepKv(RunFrom(kv, es[..|es| - 1]), es[|es| - 1], map[])
  }

  lemma CommitAfterDeltas(kv: KV, d: Deltas, b: Batch, id: Bytes, ts: int)
    requires CountersOk(kv)
    ensures AddDeltas(CommitKv(kv, b, id, ts), d) == CommitKv(AddDeltas(kv, d), b, id, ts)
  {
    var adds, removes, rows := Elements(Effective(b.adds, b.lbl)), Elements(b.removes), JournalRows(b, id, ts);
    CommitCountersOk(kv, b, id, ts);
    JournalRowsElsewhere(b, id, ts);
    hide Put, Drop, JournalRows, AddDeltas, BatchDeltas, Elements, Effective, CountersOk;
    PutAddDeltas(kv, d, adds);
    DropAddDeltas(Put(kv, adds), d, removes);
    RowsAddDeltas(Drop(Put(kv, adds), removes), d, rows);
    AddDeltasCommute(Drop(Put(kv, adds), removes) + rows, d, BatchDeltas(b));
  }

  lemma CommitCountersOk(kv: KV, b: Batch, id: Bytes, ts: int)
    requires CountersOk(kv)
    ensures CountersOk(Drop(Put(kv, Elements(Effective(b.adds, b.lbl))), Elements(b.removes)) + JournalRows(b, id, ts))
    ensures CountersOk(CommitKv(kv, b, id, ts))
  {
    hide CountersOk;
    var mid := Drop(Put(kv, Elements(Effective(b.adds, b.lbl))), Elements(b.removes)) + JournalRows(b, id, ts);
    forall k | k != [] && k[0] == LABEL_COUNT ensures Lookup(mid, k) == Lookup(kv, k) {
      CommitLeavesCounters(kv, b, id, ts, k);
    }
    CounterFrame(kv, mid, []);
    AddDeltasOk(mid, BatchDeltas(b));
  }

  lemma LoadAfterDeltas(kv: KV, d: Deltas, qs: seq<Quad>)
    requires CountersOk(kv)
    ensures AddDeltas(LoadKv(kv, qs), d) == LoadKv(AddDeltas(kv, d), qs)
  {
    hide Put, AddDeltas, Tally, Elements, CountersOk;
    PutAddDeltas(kv, d, Elements(qs));
    PutCountersOk(kv, Elements(qs));
    AddDeltasCommute(Put(kv, Elements(qs)), d, Tally(qs));
  }

  lemma StepCountersOk(kv: KV, e: Event)
    requires CountersOk(kv) && !e.CountersReplaced?
    ensures CountersOk(StepKv(kv, e, map[]))
  {
    hide CountersOk, CommitKv, AddDeltas, Put, Tally, Elements;
    match e
    case Committed(b, id, ts) => CommitCountersOk(kv, b, id, ts);
    case Loaded(qs) =>
      PutCountersOk(kv, Elements(qs));
      AddDeltasOk(Put(kv, Elements(qs)), Tally(qs));
    case TablesIngested(qs) => PutCountersOk(kv, Elements(qs));
    case DeltasMerged(qs) => AddDeltasOk(kv, Tally(qs));
  }

  lemma {:induction false} RunCountersOk(kv: KV, es: seq<Event>)
    requires CountersOk(kv) && NoRebuild(es)
    ensures CountersOk(RunFrom(kv, es))
  {
    hide CountersOk, StepKv;
    if es != [] {
      RunCountersOk(kv, es[..|es| - 1]);
      StepCountersOk(RunFrom(kv, es[..|es| - 1]), es[|es| - 1]);
    }
  }

  lemma StepAfterDeltas(kv: KV, d: Deltas, e: Event)
    requires CountersOk(kv) && !e.CountersReplaced?
    ensures AddDeltas(StepKv(kv, e, map[]), d) == StepKv(AddDeltas(kv, d), e, map[])
  {
    hide CountersOk, CommitKv, LoadKv, AddDeltas, Put, Tally, Elements;
    match e
    case Committed(b, id, ts) => CommitAfterDeltas(kv, d, b, id, ts);
    case Loaded(qs) => LoadAfterDeltas(kv, d, qs);
    case TablesIngested(qs) => PutAddDeltas(kv, d, Elements(qs));
    case DeltasMerged(qs) => AddDeltasCommute(kv, Tally(qs), d);
  }

  lemma {:induction false} DeltasLast(kv: KV, d: Deltas, es: seq<Event>)
    requires CountersOk(kv) && NoRebuild(es)
    ensures AddDeltas(RunFrom(kv, es), d) == RunFrom(AddDeltas(kv, d), es)
  {
    hide CountersOk, StepKv, AddDeltas;
    if es != [] {
      var front := es[..|es| - 1];
      DeltasLast(kv, d, front);
      RunCountersOk(kv, front);
      StepAfterDeltas(RunFrom(kv, front), d, es[|es| - 1]);
    }
  }

  /**
   * An ingest in two halves, with any commits, flushes and other ingests between them, leaves the key map
   * it leaves when nothing comes between.
   */
  lemma SplitIngest(kv: KV, qs: seq<Quad>, between: seq<Event>)
    requires CountersOk(kv) && NoRebuild(between)
    ensures AddDeltas(RunFrom(Put(kv, Elements(qs)), between), Tally(qs)) == RunFrom(LoadKv(kv, qs), between)
  {
    PutCountersOk(kv, Elements(qs));
    hide CountersOk, RunFrom, AddDeltas, Put;
    DeltasLast(Put(kv, Elements(qs)), Tally(qs), between);
  }

  // ---- counters in any order ----

  /** What an event merges into the counters. */
  function DeltasOf(e: Event): Deltas {
    match e
    case Committed(b, _, _) => BatchDeltas(b)
    case Loaded(qs) => Tally(qs)
    case TablesIngested(_) => map[]
    case DeltasMerged(qs) => Tally(qs)
    case CountersReplaced(_) => map[]
  }

  function AllDeltas(es: seq<Event>): seq<Deltas> {
    seq(|es|, i requires 0 <= i < |es| => DeltasOf(es[i]))
  }

  /** A run's counter rows are the old ones with the events' deltas merged. */
  lemma StepRows(kv: KV, base: KV, e: Event, k: Bytes)
    requires !e.CountersReplaced? && k != [] && k[0] == LABEL_COUNT && Lookup(kv, k) == Lookup(base, k)
    ensures Lookup(StepKv(kv, e, map[]), k) == Lookup(AddDeltas(base, DeltasOf(e)), k)
  {
    AddDeltasAt(base, DeltasOf(e), k);
    hide Put, Drop, JournalRows, AddDeltas, BatchDeltas, Elements, Effective, Tally, QuadKeySet;
    match e
    case Committed(b, id, ts) =>
      var mid := Drop(Put(kv, Elements(Effective(b.adds, b.lbl))), Elements(b.removes)) + JournalRows(b, id, ts);
      CommitLeavesCounters(kv, b, id, ts, k);
      AddDeltasAt(mid, BatchDeltas(b), k);
    case Loaded(qs) =>
      PutLookup(kv, Elements(qs), k);
      AddDeltasAt(Put(kv, Elements(qs)), Tally(qs), k);
    case TablesIngested(qs) => PutLookup(kv, Elements(qs), k);
    case DeltasMerged(qs) => AddDeltasAt(kv, Tally(qs), k);
  }

  lemma {:induction false} RunRows(kv: KV, es: seq<Event>, k: Bytes)
    requires NoRebuild(es) && k != [] && k[0] == LABEL_COUNT
    ensures Lookup(RunFrom(kv, es), k) == Lookup(AddRounds(kv, AllDeltas(es)), k)
  {
    hide StepKv, AddDeltas, DeltasOf;
    if es != [] {
      var n := |es| - 1;
      RunRows(kv, es[..n], k);
      assert AllDeltas(es)[..n] == AllDeltas(es[..n]);
      StepRows(RunFrom(kv, es[..n]), AddRounds(kv, AllDeltas(es[..n])), es[n], k);
    }
  }

  lemma AllDeltasSplit(a: seq<Event>, e: Event, b: seq<Event>)
    ensures AllDeltas(a + [e] + b) == AllDeltas(a) + [DeltasOf(e)] + AllDeltas(b)
    ensures AllDeltas(a + b) == AllDeltas(a) + AllDeltas(b)
  {}

  lemma {:induction false} DeltasPermuted(es: seq<Event>, fs: seq<Event>)
    requires multiset(es) == multiset(fs)
    ensures multiset(AllDeltas(es)) == multiset(AllDeltas(fs))
  {
    hide DeltasOf;
    if es == [] {
      assert |multiset(fs)| == |fs|;
      assert AllDeltas(es) == AllDeltas(fs);
    } else {
      var front, last := es[..|es| - 1], es[|es| - 1];
      var i := LastIn(es, fs);
      var a, b := fs[..i], fs[i + 1..];
      DeltasPermuted(front, a + b);
      assert es == front + [last] + [];
      AllDeltasSplit(front, last, []);
      AllDeltasSplit(a, last, b);
    }
  }

  /**
   * Commits, flushes and ingests, in any two orders, leave every counter row the same: no interleaving of
   * concurrent writers loses a delta.
   */
  lemma CountersInAnyOrder(kv: KV, es: seq<Event>, fs: seq<Event>, l: Bytes)
    requires CountersOk(kv) && NoRebuild(es) && multiset(es) == multiset(fs)
    ensures Lookup(RunFrom(kv, es), CountKey(l)) == Lookup(RunFrom(kv, fs), CountKey(l))
  {
    forall i | 0 <= i < |fs| ensures !fs[i].CountersReplaced? { assert fs[i] in multiset(es); }
    hide CountersOk, RunFrom, AddRounds, AllDeltas;
    RunRows(kv, es, CountKey(l));
    RunRows(kv, fs, CountKey(l));
    DeltasPermuted(es, fs);
    RoundsInAnyOrder(kv, AllDeltas(es), AllDeltas(fs));
  }

  // ---- runs that drift ----

  const LABEL: Bytes := [1]

  function SomeQuad(lbl: Bytes): Quad {
    Quad([1], [1], [1], lbl)
  }

  function Adding(q: Quad, id: byte): Event {
    Committed(Batch([q], [], [], [], false), [id], 0)
  }

  function Removing(q: Quad, batchLabel: Bytes, id: byte): Event {
    Committed(Batch([], [q], batchLabel, [], false), [id], 0)
  }

  /** One label's count and drift, event by event. */
  predicate Shows(es: seq<Event>, quads: set<Quad>, l: Bytes, drift: int) {
    RunOk(es) && RunView(es).quads == quads && Drift(es, l) == drift
  }

  lemma NothingYet()
    ensures Shows([], {}, LABEL, 0) && RunView([]).log.commits == map[] && NulFree(LABEL) && NulFree([]) && LABEL != []
    ensures SomeQuad(LABEL).lbl == LABEL
  {}

  lemma ShowsNext(front: seq<Event>, quads: set<Quad>, l: Bytes, drift: int, e: Event, quads': set<Quad>, drift': int)
    requires Shows(front, quads, l, drift) && EventOk(front, e)
    requires StepView(RunView(front), e).quads == quads' && DriftAfter(drift, front, e, l) == drift'
    ensures Shows(front + [e], quads', l, drift')
  {
    var es := front + [e];
    assert es[..|es| - 1] == front && es[|es| - 1] == e;
    hide EventOk, StepView, DriftAfter;
  }

  lemma CounterShown(es: seq<Event>, quads: set<Quad>, l: Bytes, drift: int)
    requires Shows(es, quads, l, drift) && -100 <= TrueCount(quads, l) + drift <= 100
    ensures CountersOk(RunKv(es)) && Counter(RunKv(es), l) == TrueCount(quads, l) + drift
  {
    hide RunOk, RunView, Drift, Counter, CountersOk, RunKv, TrueCount, Wrap;
    CounterIsCountPlusDrift(es, l);
    WrapInRange(TrueCount(quads, l) + drift);
  }

  lemma WrapInRange(n: int)
    requires -TWO63 <= n < TWO63
    ensures Wrap(n) == n
  {
    assert n % TWO64 == if n >= 0 then n else n + TWO64;
  }

  lemma ShownRun(es: seq<Event>, quads: set<Quad>, l: Bytes, drift: int)
    requires Shows(es, quads, l, drift)
    ensures RunOk(es) && CountAt(es, l) == TrueCount(quads, l)
  {}

  lemma OneCount(q: Quad)
    ensures TrueCount({q}, q.lbl) == 1 && TrueCount({}, q.lbl) == 0
  {
    assert WithLabel({q}, q.lbl) == {q} && WithLabel({}, q.lbl) == {};
  }

  lemma OneAdd(s: set<Quad>, q: Quad, l: Bytes)
    ensures RedundantAdds(s, [q], l) == if q.lbl == l && q in s then 1 else 0
    ensures Elements([q]) == {q} && CountLabel([q], l) == if q.lbl == l then 1 else 0
    ensures RedundantAdds(s, [], l) == 0 && Elements<Quad>([]) == {}
  {
    assert [q][..0] == [];
  }

  lemma OneRemove(s: set<Quad>, q: Quad, batchLabel: Bytes, l: Bytes)
    ensures AbsentRemoves(s, [q], l) == if q.lbl == l && q !in s then 1 else 0
    ensures Mischarged([q], batchLabel, l)
         == if q.lbl != [] then 0 else (if l == [] then 1 else 0) - (if l == batchLabel then 1 else 0)
    ensures AbsentRemoves(s, [], l) == 0 && Mischarged([], batchLabel, l) == 0
  {
    assert [q][..0] == [];
  }

  lemma AddingShows(front: seq<Event>, quads: set<Quad>, l: Bytes, drift: int, lbl: Bytes, id: byte)
    requires Shows(front, quads, l, drift) && NulFree(lbl) && id != 0 && [id] !in RunView(front).log.commits
    ensures var q := SomeQuad(lbl);
      Shows(front + [Adding(q, id)], quads + {q}, l, drift + if lbl == l && q in quads then 1 else 0)
    ensures RunView(front + [Adding(SomeQuad(lbl), id)]).log.commits.Keys == RunView(front).log.commits.Keys + {[id]}
  {
    var q := SomeQuad(lbl);
    var e := Adding(q, id);
    assert Effective([q], []) == [q];
    OneAdd(quads, q, l);
    OneRemove(quads + {q}, q, [], l);
    hide RunView, RunOk, Drift;
    assert SetAfter(quads, e.batch) == quads + {q};
    ShowsNext(front, quads, l, drift, e, quads + {q}, drift + if lbl == l && q in quads then 1 else 0);
    ViewNext(front, e);
  }

  lemma RemovingShows(front: seq<Event>, quads: set<Quad>, l: Bytes, drift: int, lbl: Bytes, batchLabel: Bytes,
                      id: byte)
    requires Shows(front, quads, l, drift) && NulFree(lbl) && NulFree(batchLabel)
    requires id != 0 && [id] !in RunView(front).log.commits
    ensures var q := SomeQuad(lbl);
      Shows(front + [Removing(q, batchLabel, id)], quads - {q}, l,
            drift - (if lbl == l && q !in quads then 1 else 0)
            + if lbl != [] then 0 else (if l == [] then 1 else 0) - (if l == batchLabel then 1 else 0))
  {
    var q := SomeQuad(lbl);
    var e := Removing(q, batchLabel, id);
    assert Effective([], batchLabel) == [];
    OneAdd(quads, q, l);
    OneRemove(quads, q, batchLabel, l);
    assert Elements<Quad>([]) == {} && quads + {} == quads;
    hide RunView, RunOk, Drift;
    assert SetAfter(quads, e.batch) == quads - {q};
    ShowsNext(front, quads, l, drift, e, quads - {q},
              drift - (if lbl == l && q !in quads then 1 else 0)
              + if lbl != [] then 0 else (if l == [] then 1 else 0) - (if l == batchLabel then 1 else 0));
  }

  lemma ViewNext(front: seq<Event>, e: Event)
    ensures RunView(front + [e]) == StepView(RunView(front), e)
  {
    assert (front + [e])[..|front|] == front;
  }

  /** One quad committed twice: the counter says 2, the store holds 1. */
  lemma AddedTwiceDrifts()
    ensures var es := [Adding(SomeQuad(LABEL), 1), Adding(SomeQuad(LABEL), 2)];
      RunOk(es) && CountersOk(RunKv(es)) && Counter(RunKv(es), LABEL) == 2 && CountAt(es, LABEL) == 1
  {
    hide *;
    var q := SomeQuad(LABEL);
    var one := [] + [Adding(q, 1)];
    NothingYet();
    AddingShows([], {}, LABEL, 0, LABEL, 1);
    AddingShows(one, {} + {q}, LABEL, 0, LABEL, 2);
    assert one + [Adding(q, 2)] == [Adding(q, 1), Adding(q, 2)] && {} + {q} + {q} == {q};
    OneCount(q);
    ShownRun(one + [Adding(q, 2)], {q}, LABEL, 1);
    CounterShown(one + [Adding(q, 2)], {q}, LABEL, 1);
  }

  /** A quad removed that was never there: the counter says -1, the store holds none. */
  lemma AbsentRemoveDrifts()
    ensures var es := [Removing(SomeQuad(LABEL), [], 1)];
      RunOk(es) && CountersOk(RunKv(es)) && Counter(RunKv(es), LABEL) == -1 && CountAt(es, LABEL) == 0
  {
    hide *;
    var q := SomeQuad(LABEL);
    NothingYet();
    RemovingShows([], {}, LABEL, 0, LABEL, [], 1);
    assert [] + [Removing(q, [], 1)] == [Removing(q, [], 1)] && {} - {q} == {};
    OneCount(q);
    ShownRun([Removing(q, [], 1)], {}, LABEL, -1);
    CounterShown([Removing(q, [], 1)], {}, LABEL, -1);
  }

  /** An unlabelled quad, there, removed in a labelled batch: the batch label's counter says -1. */
  lemma UnlabelledRemoveDrifts()
    ensures var es := [Adding(SomeQuad([]), 1), Removing(SomeQuad([]), LABEL, 2)];
      RunOk(es) && CountersOk(RunKv(es)) && Counter(RunKv(es), LABEL) == -1 && CountAt(es, LABEL) == 0
  {
    hide *;
    var q := SomeQuad([]);
    var one := [] + [Adding(q, 1)];
    NothingYet();
    AddingShows([], {}, LABEL, 0, [], 1);
    RemovingShows(one, {} + {q}, LABEL, 0, [], LABEL, 2);
    assert one + [Removing(q, LABEL, 2)] == [Adding(q, 1), Removing(q, LABEL, 2)] && ({} + {q}) - {q} == {};
    OneCount(SomeQuad(LABEL));
    ShownRun(one + [Removing(q, LABEL, 2)], {}, LABEL, -1);
    CounterShown(one + [Removing(q, LABEL, 2)], {}, LABEL, -1);
  }

  lemma LoadShows(front: seq<Event>, quads: set<Quad>, l: Bytes, drift: int, lbl: Bytes)
    requires Shows(front, quads, l, drift) && NulFree(lbl)
    ensures var q := SomeQuad(lbl);
      && Shows(front + [Loaded([q])], quads + {q}, l, drift + if lbl == l && q in quads then 1 else 0)
      && Shows(front + [TablesIngested([q])], quads + {q}, l, drift - if lbl == l && q !in quads then 1 else 0)
  {
    var q := SomeQuad(lbl);
    OneAdd(quads, q, l);
    hide RunView, RunOk, Drift;
    ShowsNext(front, quads, l, drift, Loaded([q]), quads + {q}, drift + if lbl == l && q in quads then 1 else 0);
    ShowsNext(front, quads, l, drift, TablesIngested([q]), quads + {q},
              drift - if lbl == l && q !in quads then 1 else 0);
  }

  /** A rebuild that scanned the contents `seen`: the counter is left at their count. */
  lemma ReplacedShows(es: seq<Event>, quads: set<Quad>, l: Bytes, drift: int, scan: nat, seen: set<Quad>)
    requires Shows(es, quads, l, drift) && scan <= |es| && RunView(es[..scan]).quads == seen
    ensures Shows(es + [CountersReplaced(scan)], quads, l, TrueCount(seen, l) - TrueCount(quads, l))
  {
    hide RunView, RunOk, Drift, TrueCount;
    ShowsNext(es, quads, l, drift, CountersReplaced(scan), quads, TrueCount(seen, l) - TrueCount(quads, l));
  }

  lemma NoneOrAllSeen(es: seq<Event>, quads: set<Quad>, l: Bytes, drift: int)
    requires Shows(es, quads, l, drift)
    ensures RunView(es[..0]).quads == {} && RunView(es[..|es|]).quads == quads
  {
    assert es[..0] == [] && es[..|es|] == es;
  }

  /** A load between a rebuild's scan and its batch: the counter says 0, the store holds 1. */
  lemma LoadDuringRebuildDrifts()
    ensures var es := [Loaded([SomeQuad(LABEL)]), CountersReplaced(0)];
      RunOk(es) && CountersOk(RunKv(es)) && Counter(RunKv(es), LABEL) == 0 && CountAt(es, LABEL) == 1
  {
    hide *;
    var q := SomeQuad(LABEL);
    var one := [] + [Loaded([q])];
    NothingYet();
    LoadShows([], {}, LABEL, 0, LABEL);
    assert {} + {q} == {q};
    NoneOrAllSeen(one, {q}, LABEL, 0);
    ReplacedShows(one, {q}, LABEL, 0, 0, {});
    OneCount(q);
    assert one + [CountersReplaced(0)] == [Loaded([q]), CountersReplaced(0)];
    ShownRun(one + [CountersReplaced(0)], {q}, LABEL, -1);
    CounterShown(one + [CountersReplaced(0)], {q}, LABEL, -1);
  }

  /** Deltas that are due, merged after whatever happened in between. */
  lemma MergedShows(es: seq<Event>, quads: set<Quad>, l: Bytes, drift: int, q: Quad)
    requires Shows(es, quads, l, drift) && q.lbl == l
    requires multiset(es)[DeltasMerged([q])] < multiset(es)[TablesIngested([q])]
    ensures Shows(es + [DeltasMerged([q])], quads, l, drift + 1)
  {
    OneAdd({}, q, l);
    hide RunView, RunOk, Drift;
    ShowsNext(es, quads, l, drift, DeltasMerged([q]), quads, drift + 1);
  }

  /** A rebuild between the halves of an ingest: the counter says 2, the store holds 1. */
  lemma RebuildDuringIngestDrifts()
    ensures var es := [TablesIngested([SomeQuad(LABEL)]), CountersReplaced(1), DeltasMerged([SomeQuad(LABEL)])];
      RunOk(es) && CountersOk(RunKv(es)) && Counter(RunKv(es), LABEL) == 2 && CountAt(es, LABEL) == 1
  {
    hide *;
    var q := SomeQuad(LABEL);
    var one := [] + [TablesIngested([q])];
    var two := one + [CountersReplaced(1)];
    NothingYet();
    LoadShows([], {}, LABEL, 0, LABEL);
    assert {} + {q} == {q};
    NoneOrAllSeen(one, {q}, LABEL, -1);
    ReplacedShows(one, {q}, LABEL, -1, 1, {q});
    assert multiset(two) == multiset{TablesIngested([q]), CountersReplaced(1)};
    MergedShows(two, {q}, LABEL, 0, q);
    OneCount(q);
    assert two + [DeltasMerged([q])] == [TablesIngested([q]), CountersReplaced(1), DeltasMerged([q])];
    ShownRun(two + [DeltasMerged([q])], {q}, LABEL, 1);
    CounterShown(two + [DeltasMerged([q])], {q}, LABEL, 1);
  }
}
