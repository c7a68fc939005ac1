/** Runs of a partitioned store: placement in every reachable state, and the plain set it amounts to. */
module PartitionedRuns {
  import opened ByteOrder
  import opened Partitioned
  import opened PartitionedReader
  import opened PartitionedWriter
  import opened Quads

  /** The write paths: a commit or prune by a writer, Add or AddBatch, Delete, a bulk flush. */
  datatype Event =
    | Committed(part: nat, batch: Batch, id: Bytes, ts: int)
    | Added(quads: seq<Quad>)
    | Removed(quad: Quad)
    | Flushed(part: nat, quads: seq<Quad>)
    | Pruned(part: nat, cutoff: int)

  /** What the write paths let through: the checks of Commit, AddBatch and the bulk loader's Add. */
  ghost predicate EventOk(rt: Routing, e: Event) {
    rt.Valid() &&
    match e
    case Committed(part, b, _, _) => part < |rt.names| && CommitFits(rt, part, b)
    case Added(qs) => OnePartition(rt, qs)
    case Removed(_) => true
    case Flushed(part, qs) => part < |rt.names| && AllRouted(rt, Elements(qs), part)
    case Pruned(part, _) => part < |rt.names|
  }

  ghost function StepFiles(rt: Routing, files: seq<File>, e: Event): (r: seq<File>)
    requires EventOk(rt, e) && |files| == |rt.names|
    ensures |r| == |files|
  {
    match e
    case Committed(part, b, id, ts) => files[part := CommitFile(files[part], b, id, ts)]
    case Added(qs) => Inserted(rt, files, qs)
    case Removed(q) => Deleted(rt, files, q)
    case Flushed(part, qs) => Loaded(files, part, qs)
    case Pruned(part, cutoff) => files[part := PruneFile(files[part], cutoff)]
  }

  /** The same event on one plain set; partitions play no part. */
  function StepSet(s: set<Quad>, e: Event): set<Quad> {
    match e
    case Committed(_, b, _, _) => SetAfter(s, b)
    case Added(qs) => s + Elements(qs)
    case Removed(q) => s - {q}
    case Flushed(_, qs) => s + Elements(qs)
    case Pruned(_, _) => s
  }

  ghost predicate RunOk(rt: Routing, es: seq<Event>) {
    rt.Valid() && forall i | 0 <= i < |es| :: EventOk(rt, es[i])
  }

  ghost function RunFiles(rt: Routing, es: seq<Event>): (r: seq<File>)
    requires RunOk(rt, es)
    ensures |r| == |rt.names|
  {
    if es == [] then seq(|rt.names|, _ => EMPTY_FILE) else StepFiles(rt, RunFiles(rt, es[..|es| - 1]), es[|es| - 1])
  }

  function RunSet(es: seq<Event>): set<Quad> {
    if es == [] then {} else StepSet(RunSet(es[..|es| - 1]), es[|es| - 1])
  }

  /** A commit that fits adds and removes only quads of its writer's partition. */
  lemma FittingBatchRouted(rt: Routing, part: nat, b: Batch)
    requires rt.Valid() && part < |rt.names| && CommitFits(rt, part, b)
    ensures AllRouted(rt, Elements(Effective(b.adds, b.lbl)), part)
    ensures AllRouted(rt, Elements(b.removes), part)
  {
    hide LabelOk, Quad.IsValid;
    var effs := Effective(b.adds, b.lbl);
    forall q | q in effs ensures rt.PartFor(q.lbl) == part {
      var i :| 0 <= i < |effs| && effs[i] == q;
      if !rt.IsPartitioned() { SinglePartition(rt, q.lbl); }
      assert effs[i] == b.adds[i].Under(b.lbl);
    }
    forall q | q in b.removes ensures rt.PartFor(q.lbl) == part {
      var i :| 0 <= i < |b.removes| && b.removes[i] == q;
      if !rt.IsPartitioned() { SinglePartition(rt, q.lbl); }
    }
  }

  /** Every event that is let through keeps the placement and does to the whole store what it does to one set. */
  lemma StepPlaced(rt: Routing, files: seq<File>, e: Event)
    requires EventOk(rt, e) && Placed(rt, files)
    ensures Placed(rt, StepFiles(rt, files, e))
    ensures AllQuads(StepFiles(rt, files, e)) == StepSet(AllQuads(files), e)
  {
    hide Routing.PartFor, Placed, AllQuads, CommitFits, Effective, Kept, OpsOf, Tagged;
    assert |files| == |rt.names| by { PlacedLength(rt, files); }
    match e
    case Committed(part, b, id, ts) =>
      FittingBatchRouted(rt, part, b);
      RoutedUpdate(rt, files, part, CommitFile(files[part], b, id, ts), Elements(Effective(b.adds, b.lbl)),
                   Elements(b.removes));
    case Added(qs) =>
      if qs != [] {
        OnePartitionRouted(rt, qs);
        var i := rt.PartFor(qs[0].lbl);
        RoutedUpdate(rt, files, i, LoadFile(files[i], qs), Elements(qs), {});
        assert (AllQuads(files) + Elements(qs)) - {} == AllQuads(files) + Elements(qs);
      } else {
        assert AllQuads(files) + Elements(qs) == AllQuads(files);
      }
    case Removed(q) =>
      var i := rt.PartFor(q.lbl);
      RoutedUpdate(rt, files, i, files[i].(quads := files[i].quads - {q}), {}, {q});
      assert (AllQuads(files) + {}) - {q} == AllQuads(files) - {q};
    case Flushed(part, qs) =>
      RoutedUpdate(rt, files, part, LoadFile(files[part], qs), Elements(qs), {});
      assert (AllQuads(files) + Elements(qs)) - {} == AllQuads(files) + Elements(qs);
    case Pruned(part, cutoff) =>
      RoutedUpdate(rt, files, part, PruneFile(files[part], cutoff), {}, {});
      assert (AllQuads(files) + {}) - {} == AllQuads(files);
  }

  lemma PlacedLength(rt: Routing, files: seq<File>)
    requires Placed(rt, files)
    ensures |files| == |rt.names|
  {}

  lemma OnePartitionRouted(rt: Routing, qs: seq<Quad>)
    requires rt.Valid() && OnePartition(rt, qs) && qs != []
    ensures AllRouted(rt, Elements(qs), rt.PartFor(qs[0].lbl))
  {
    forall q | q in qs ensures rt.PartFor(q.lbl) == rt.PartFor(qs[0].lbl) {
      var i :| 0 <= i < |qs| && qs[i] == q;
    }
  }

  /**
   * In every state reached from empty partitions each quad sits only where its label routes, whatever the
   * router returns, and the quads of all partitions are those of a plain set under the same events.
   */
  lemma {:induction false} RunPlaced(rt: Routing, es: seq<Event>)
    requires RunOk(rt, es)
    ensures Placed(rt, RunFiles(rt, es))
    ensures AllQuads(RunFiles(rt, es)) == RunSet(es)
  {
    hide EventOk, StepFiles, StepSet, Routing.PartFor;
    if es == [] {
    } else {
      RunPlaced(rt, es[..|es| - 1]);
      StepPlaced(rt, RunFiles(rt, es[..|es| - 1]), es[|es| - 1]);
    }
  }

  // ---- the same run on a single file ----

  /** A single-file store. */
  const SINGLE: Routing := Routing([[]], map[[] := 0], [], None, None)

  function OnOneFile(e: Event): Event {
    match e
    case Committed(_, b, id, ts) => Committed(0, b, id, ts)
    case Added(qs) => Added(qs)
    case Removed(q) => Removed(q)
    case Flushed(_, qs) => Flushed(0, qs)
    case Pruned(_, cutoff) => Pruned(0, cutoff)
  }

  function AllOnOneFile(es: seq<Event>): (r: seq<Event>)
    ensures |r| == |es| && forall i | 0 <= i < |es| :: r[i] == OnOneFile(es[i])
  {
    seq(|es|, i requires 0 <= i < |es| => OnOneFile(es[i]))
  }

  /** What any partitioned store lets through, a single-file store lets through, to the same effect. */
  lemma OneFileAccepts(rt: Routing, e: Event)
    requires EventOk(rt, e)
    ensures EventOk(SINGLE, OnOneFile(e))
    ensures forall s :: StepSet(s, OnOneFile(e)) == StepSet(s, e)
  {
    assert SINGLE.Valid() && !SINGLE.IsPartitioned();
    forall lbl ensures SINGLE.PartFor(lbl) == 0 { SinglePartition(SINGLE, lbl); }
    hide Accepted;
  }

  /** A run that a partitioned store admits is one a single file admits, with the same contents after it. */
  lemma {:induction false} OneFileRun(rt: Routing, es: seq<Event>)
    requires RunOk(rt, es)
    ensures RunOk(SINGLE, AllOnOneFile(es)) && RunSet(AllOnOneFile(es)) == RunSet(es)
  {
    hide EventOk, StepSet;
    assert SINGLE.Valid();
    if es != [] {
      var n := |es| - 1;
      OneFileRun(rt, es[..n]);
      assert AllOnOneFile(es)[..n] == AllOnOneFile(es[..n]);
      forall i | 0 <= i < |es| ensures EventOk(SINGLE, AllOnOneFile(es)[i]) { OneFileAccepts(rt, es[i]); }
      OneFileAccepts(rt, es[n]);
    }
  }

  /** The quads a call writes or deletes. */
  function Touched(e: Event): set<Quad> {
    match e
    case Committed(_, b, _, _) => Elements(Effective(b.adds, b.lbl)) + Elements(b.removes)
    case Added(qs) => Elements(qs)
    case Removed(q) => {q}
    case Flushed(_, qs) => Elements(qs)
    case Pruned(_, _) => {}
  }

  ghost predicate FitOnePartition(rt: Routing, qs: set<Quad>) {
    exists i | 0 <= i < |rt.names| :: AllRouted(rt, qs, i)
  }

  /** The same call through a handle on partition i. */
  function AtPart(e: Event, i: nat): Event {
    match e
    case Committed(_, b, id, ts) => Committed(i, b, id, ts)
    case Added(_) => e
    case Removed(_) => e
    case Flushed(_, qs) => Flushed(i, qs)
    case Pruned(_, cutoff) => Pruned(i, cutoff)
  }

  lemma AdmittedFits(rt: Routing, e: Event)
    requires EventOk(rt, e)
    ensures FitOnePartition(rt, Touched(e))
  {
    hide Routing.PartFor, Routing.Valid, CommitFits, Effective, OnePartition;
    match e
    case Committed(part, b, _, _) =>
      FittingBatchRouted(rt, part, b);
      assert AllRouted(rt, Touched(e), part);
    case Added(qs) =>
      if qs == [] { NothingRouted(rt); } else { OnePartitionRouted(rt, qs); }
    case Removed(q) => assert AllRouted(rt, {q}, rt.PartFor(q.lbl));
    case Flushed(part, qs) =>
    case Pruned(_, _) => NothingRouted(rt);
  }

  lemma NothingRouted(rt: Routing)
    requires rt.Valid()
    ensures AllRouted(rt, {}, 0) && Elements<Quad>([]) == {} && 0 < |rt.names|
  {}

  lemma FittingAdmitted(rt: Routing, e: Event, i: nat)
    requires EventOk(SINGLE, OnOneFile(e)) && i < |rt.names| && AllRouted(rt, Touched(e), i)
    ensures EventOk(rt, AtPart(e, i))
  {
    hide Routing.PartFor, Routing.Valid, Accepted;
    match e
    case Committed(_, b, _, _) =>
      var effs := Effective(b.adds, b.lbl);
      forall k | 0 <= k < |b.adds| ensures rt.PartFor(b.adds[k].Under(b.lbl).lbl) == i { assert effs[k] in Touched(e); }
      forall k | 0 <= k < |b.removes| ensures rt.PartFor(b.removes[k].lbl) == i { assert b.removes[k] in Touched(e); }
    case Added(qs) =>
      forall k | 0 <= k < |qs| ensures rt.PartFor(qs[k].lbl) == i { assert qs[k] in Touched(e); }
    case Removed(_) =>
    case Flushed(_, _) =>
    case Pruned(_, _) =>
  }

  /**
   * Of the calls a single file accepts, a partitioned store accepts, through a handle on some partition,
   * exactly those whose quads all lie in one partition; it refuses the rest through every handle.
   */
  lemma CallableIff(rt: Routing, e: Event)
    requires rt.Valid()
    ensures (exists d :: OnOneFile(d) == OnOneFile(e) && EventOk(rt, d))
      <==> EventOk(SINGLE, OnOneFile(e)) && FitOnePartition(rt, Touched(e))
  {
    hide EventOk, AllRouted, Routing.Valid, Effective;
    if d :| OnOneFile(d) == OnOneFile(e) && EventOk(rt, d) {
      OneFileAccepts(rt, d);
      AdmittedFits(rt, d);
      assert Touched(d) == Touched(OnOneFile(d)) == Touched(e);
    }
    if EventOk(SINGLE, OnOneFile(e)) && FitOnePartition(rt, Touched(e)) {
      var i :| 0 <= i < |rt.names| && AllRouted(rt, Touched(e), i);
      FittingAdmitted(rt, e, i);
      assert OnOneFile(AtPart(e, i)) == OnOneFile(e);
    }
  }

  /** What f has of one commit is what the single file has of it, or nothing if it is not the commit's home. */
  ghost predicate HomeRows(f: File, one: File, id: Bytes, isHome: bool) {
    && (id in f.commits <==> id in one.commits && isHome)
    && (id in f.commits ==> f.commits[id] == one.commits[id])
    && RowsFor(f.ops, id) == if isHome then RowsFor(one.ops, id) else []
  }

  lemma CommitHome(f: File, one: File, b: Batch, c: Bytes, ts: int, id: Bytes, isHome: bool, here: bool)
    requires HomeRows(f, one, id, isHome) && (c == id ==> here == isHome)
    ensures HomeRows(if here then CommitFile(f, b, c, ts) else f, CommitFile(one, b, c, ts), id, isHome)
  {
    hide RowsFor, OpsOf, SetAfter, Tagged;
    if !b.noAudit {
      RowsForTagged(c, OpsOf(b), id);
      RowsForConcat(f.ops, Tagged(c, OpsOf(b)), id);
      RowsForConcat(one.ops, Tagged(c, OpsOf(b)), id);
      assert RowsFor(f.ops, id) + [] == RowsFor(f.ops, id) && RowsFor(one.ops, id) + [] == RowsFor(one.ops, id);
    }
  }

  lemma SameAuditHome(f: File, f': File, one: File, one': File, id: Bytes, isHome: bool)
    requires HomeRows(f, one, id, isHome)
    requires f'.commits == f.commits && f'.ops == f.ops && one'.commits == one.commits && one'.ops == one.ops
    ensures HomeRows(f', one', id, isHome)
  {}

  lemma StepHome(rt: Routing, files: seq<File>, one: seq<File>, e: Event, id: Bytes, isHome: bool, j: nat)
    requires EventOk(rt, e) && EventOk(SINGLE, OnOneFile(e)) && j < |files| == |rt.names| && |one| == 1
    requires !e.Pruned? && (e.Committed? && e.id == id ==> (e.part == j <==> isHome))
    requires HomeRows(files[j], one[0], id, isHome)
    ensures HomeRows(StepFiles(rt, files, e)[j], StepFiles(SINGLE, one, OnOneFile(e))[0], id, isHome)
  {
    hide HomeRows, EventOk, CommitFile, Routing.PartFor, Routing.Valid;
    if e.Committed? {
      CommitHome(files[j], one[0], e.batch, e.id, e.ts, id, isHome, e.part == j);
    } else {
      SameAuditHome(files[j], StepFiles(rt, files, e)[j], one[0], StepFiles(SINGLE, one, OnOneFile(e))[0], id, isHome);
    }
  }

  /**
   * The audit rows too are those of the single file: each commit, written through one partition, is in that
   * partition's file with its row and its ops, and no other file has any of it. Pruning aside, as it acts on
   * one partition.
   */
  lemma {:induction false} AuditAsOneFile(rt: Routing, es: seq<Event>, id: Bytes, home: nat, j: nat)
    requires RunOk(rt, es) && j < |rt.names| && forall i | 0 <= i < |es| :: !es[i].Pruned?
    requires forall i | 0 <= i < |es| && es[i].Committed? && es[i].id == id :: es[i].part == home
    ensures RunOk(SINGLE, AllOnOneFile(es))
    ensures HomeRows(RunFiles(rt, es)[j], RunFiles(SINGLE, AllOnOneFile(es))[0], id, j == home)
  {
    OneFileRun(rt, es);
    hide EventOk, StepFiles, Routing.PartFor, Routing.Valid, HomeRows;
    if es == [] {
      NothingHome(id, j == home);
    } else {
      var n := |es| - 1;
      AuditAsOneFile(rt, es[..n], id, home, j);
      assert AllOnOneFile(es)[..n] == AllOnOneFile(es[..n]);
      OneFileAccepts(rt, es[n]);
      StepHome(rt, RunFiles(rt, es[..n]), RunFiles(SINGLE, AllOnOneFile(es[..n])), es[n], id, j == home, j);
    }
  }

  lemma NothingHome(id: Bytes, isHome: bool)
    ensures HomeRows(EMPTY_FILE, EMPTY_FILE, id, isHome)
  {}

  /**
   * Any run on a partitioned store is a run on a single file, with the same contents after it, and every
   * Find and Count answers alike.
   */
  lemma SameAsOneFile(rt: Routing, es: seq<Event>, p: Pattern, cursors: seq<seq<Quad>>, one: seq<seq<Quad>>)
    requires RunOk(rt, es) && rt.PatternRouterSound() && Answers(cursors, RunFiles(rt, es), p)
    requires RunOk(SINGLE, AllOnOneFile(es)) ==> Answers(one, RunFiles(SINGLE, AllOnOneFile(es)), p)
    ensures RunOk(SINGLE, AllOnOneFile(es))
    ensures AllQuads(RunFiles(SINGLE, AllOnOneFile(es))) == AllQuads(RunFiles(rt, es))
    ensures var found, alone := Stream(cursors, Scope(rt, p)), Stream(one, Scope(SINGLE, p));
      Elements(found) == Elements(alone) && |found| == |alone|
    ensures SumHits(RunFiles(rt, es), Scope(rt, p), p)
         == SumHits(RunFiles(SINGLE, AllOnOneFile(es)), Scope(SINGLE, p), p)
  {
    OneFileRun(rt, es);
    assert SINGLE.PatternRouterSound();
    hide Answers, Stream, SumHits, Scope, RunOk, RunFiles, RunSet, Routing.PatternRouterSound, AllQuads, Placed, Filter;
    RunPlaced(rt, es);
    RunPlaced(SINGLE, AllOnOneFile(es));
    ReadExact(rt, RunFiles(rt, es), cursors, p);
    ReadExact(SINGLE, RunFiles(SINGLE, AllOnOneFile(es)), one, p);
  }
}
