/** Migrate: one bulk loader per destination partition, then the audit rows. */
module PartitionedMigrate {
  import opened ByteOrder
  import opened MigrateAudit
  import opened Migration
  import opened Partitioned
  import opened PartitionedBulk
  import opened Quads
  import opened Results

  // ---- the loaders ----

  /** An open loader on partition j; with its buffer flushed the file would be f with the quads got added. */
  ghost predicate LoaderAt(dst: Store, bl: BulkLoader, j: nat, f: File, got: set<Quad>)
    requires dst.Valid() && j < |dst.parts|
    reads bl, {dst.parts[j]}
  {
    && bl.Valid() && bl.store == dst && bl.part == j && bl.labelDefault == []
    && !bl.closed && bl.stickyErr.None? && dst.parts[j].slot
    && bl.Pending() == f.quads + got
    && dst.parts[j].file.commits == f.commits && dst.parts[j].file.ops == f.ops
  }

  /** Loaders on every partition, holding or having written the routed part of the quads done. */
  ghost predicate Loading(dst: Store, loaders: seq<BulkLoader>, base: seq<File>, done: set<Quad>)
    reads loaders, dst.parts
  {
    && dst.Valid() && dst.routing.routeLabel.Some?
    && |loaders| == |dst.parts| == |base|
    && (forall i, j | 0 <= i < j < |loaders| :: loaders[i] != loaders[j])
    && forall j | 0 <= j < |loaders| :: LoaderAt(dst, loaders[j], j, base[j], RoutedTo(dst.routing, done, j))
  }

  /** Every file is its base with the routed part of the quads done. */
  ghost predicate FilesHold(dst: Store, base: seq<File>, done: set<Quad>)
    reads dst.parts
  {
    && dst.Valid() && dst.routing.routeLabel.Some? && |base| == |dst.parts|
    && forall j | 0 <= j < |base| :: dst.parts[j].file == WithQuads(dst.routing, done, base[j], j)
  }

  ghost predicate SlotsFree(dst: Store)
    reads dst.parts
  {
    forall j | 0 <= j < |dst.parts| :: !dst.parts[j].slot
  }

  lemma RoutedNothing(rt: Routing, j: nat)
    requires rt.Valid() && rt.routeLabel.Some?
    ensures RoutedTo(rt, {}, j) == {}
  {}

  ghost function Slots(dst: Store): (r: seq<bool>)
    reads dst.parts
    ensures |r| == |dst.parts| && forall j | 0 <= j < |r| :: r[j] == dst.parts[j].slot
  {
    seq(|dst.parts|, j requires 0 <= j < |dst.parts| reads dst.parts => dst.parts[j].slot)
  }

  /** A slot can be had if it is free or its holder frees it. */
  predicate Obtainable(taken: seq<bool>, freed: nat -> bool) {
    forall j | 0 <= j < |taken| :: taken[j] ==> freed(j)
  }

  /** Loaders on the first partitions, whose slots could be had; the other slots are as they were. */
  ghost predicate Opening(dst: Store, loaders: seq<BulkLoader>, base: seq<File>, taken: seq<bool>, freed: nat -> bool)
    reads loaders, dst.parts
  {
    && dst.Valid() && dst.routing.routeLabel.Some?
    && |loaders| <= |dst.parts| == |base| == |taken|
    && (forall i, j | 0 <= i < j < |loaders| :: loaders[i] != loaders[j])
    && (forall j | 0 <= j < |loaders| ::
          (taken[j] ==> freed(j)) && LoaderAt(dst, loaders[j], j, base[j], RoutedTo(dst.routing, {}, j)))
    && (forall j | |loaders| <= j < |dst.parts| :: dst.parts[j].slot == taken[j] && dst.parts[j].file == base[j])
  }

  /** The next loader, if its slot can be had; the ones already open are as they were. */
  method OpenLoader(dst: Store, loaders: seq<BulkLoader>, freed: nat -> bool, ghost base: seq<File>,
                    ghost taken: seq<bool>)
    returns (r: Option<BulkLoader>)
    requires Opening(dst, loaders, base, taken, freed) && |loaders| < |dst.parts|
    modifies dst.parts`slot
    ensures r.Some? <==> (taken[|loaders|] ==> freed(|loaders|))
    ensures r.Some? ==> fresh(r.value) && Opening(dst, loaders + [r.value], base, taken, freed)
    ensures r.None? ==> Opening(dst, loaders, base, taken, freed)
  {
    var i := |loaders|;
    hide LoaderAt, RoutedTo, Routing.ConnFor;
    ConnIs(dst, i);
    var got := BulkLoaderFor(dst, dst.parts[i].name, freed(i), false);
    if got.Err? { return None; }
    FreshLoader(dst, got.value, i, base[i]);
    OpeningMore(dst, loaders, got.value, base, taken, freed);
    return Some(got.value);
  }

  lemma OpeningMore(dst: Store, loaders: seq<BulkLoader>, bl: BulkLoader, base: seq<File>, taken: seq<bool>,
                    freed: nat -> bool)
    requires dst.Valid() && dst.routing.routeLabel.Some? && |loaders| < |dst.parts| == |base| == |taken|
    requires (forall i, j | 0 <= i < j < |loaders| :: loaders[i] != loaders[j]) && bl !in loaders
    requires forall j | 0 <= j < |loaders| ::
      (taken[j] ==> freed(j)) && LoaderAt(dst, loaders[j], j, base[j], RoutedTo(dst.routing, {}, j))
    requires taken[|loaders|] ==> freed(|loaders|)
    requires LoaderAt(dst, bl, |loaders|, base[|loaders|], RoutedTo(dst.routing, {}, |loaders|))
    requires forall j | |loaders| < j < |dst.parts| :: dst.parts[j].slot == taken[j] && dst.parts[j].file == base[j]
    ensures Opening(dst, loaders + [bl], base, taken, freed)
  {
    hide LoaderAt, RoutedTo;
  }

  lemma ConnIs(dst: Store, i: nat)
    requires dst.Valid() && i < |dst.parts|
    ensures dst.routing.ConnFor(dst.parts[i].name) == Some(i) && dst.ConnNamed(dst.parts[i].name) == {dst.parts[i]}
  {}

  /** A loader just acquired holds nothing yet. */
  lemma FreshLoader(dst: Store, bl: BulkLoader, i: nat, f: File)
    requires dst.Valid() && dst.routing.routeLabel.Some? && i < |dst.parts|
    requires Acquired(bl, dst, i, []) && dst.parts[i].slot && dst.parts[i].file == f
    ensures LoaderAt(dst, bl, i, f, RoutedTo(dst.routing, {}, i))
  {
    RoutedNothing(dst.routing, i);
    hide Routing.Valid, Routing.PartFor, RoutedTo;
    assert bl.Pending() == f.quads + {};
  }

  lemma OpenBounds(dst: Store, loaders: seq<BulkLoader>, base: seq<File>, taken: seq<bool>, freed: nat -> bool)
    requires Opening(dst, loaders, base, taken, freed)
    ensures |loaders| <= |dst.parts| == |taken|
  {}

  lemma AllOpen(dst: Store, loaders: seq<BulkLoader>, base: seq<File>, taken: seq<bool>, freed: nat -> bool)
    requires Opening(dst, loaders, base, taken, freed) && |loaders| == |dst.parts|
    ensures Loading(dst, loaders, base, {}) && Obtainable(taken, freed)
  {
    hide LoaderAt, RoutedTo;
  }

  /** No slot is newly taken, and a holder that has not freed its slot still has it. */
  predicate SlotsKept(taken: seq<bool>, now: seq<bool>, freed: nat -> bool) {
    && |now| == |taken|
    && forall j | 0 <= j < |taken| :: (now[j] ==> taken[j]) && (taken[j] && !freed(j) ==> now[j])
  }

  /** The files as they were found, and the slots but for those freed by their holders. */
  ghost predicate Untouched(dst: Store, base: seq<File>, taken: seq<bool>, freed: nat -> bool)
    reads dst.parts
  {
    |base| == |dst.parts| && dst.Files() == base && SlotsKept(taken, Slots(dst), freed)
  }

  /** Closing the loaders opened so far, nothing having been added, leaves the store as it was found. */
  method CloseOpened(dst: Store, loaders: seq<BulkLoader>, ghost base: seq<File>, ghost taken: seq<bool>,
                     ghost freed: nat -> bool)
    requires Opening(dst, loaders, base, taken, freed)
    modifies loaders, dst.parts
    ensures Untouched(dst, base, taken, freed)
  {
    hide *;
    NoneClosed(dst, loaders, base, taken, freed);
    for i := 0 to |loaders|
      invariant Reclosing(dst, loaders, base, taken, i)
    {
      CloseNext(dst, loaders, base, taken, i);
    }
    AllClosed(dst, loaders, base, taken, freed);
  }

  /** The first n of the loaders opened are closed again. */
  ghost predicate Reclosing(dst: Store, loaders: seq<BulkLoader>, base: seq<File>, taken: seq<bool>, n: nat)
    reads loaders, dst.parts
  {
    && dst.Valid() && dst.routing.routeLabel.Some?
    && n <= |loaders| <= |dst.parts| == |base| == |taken|
    && (forall i, j | 0 <= i < j < |loaders| :: loaders[i] != loaders[j])
    && (forall j | 0 <= j < n :: dst.parts[j].file == base[j] && !dst.parts[j].slot)
    && (forall j | n <= j < |loaders| :: LoaderAt(dst, loaders[j], j, base[j], RoutedTo(dst.routing, {}, j)))
    && (forall j | |loaders| <= j < |dst.parts| :: dst.parts[j].slot == taken[j] && dst.parts[j].file == base[j])
  }

  lemma NoneClosed(dst: Store, loaders: seq<BulkLoader>, base: seq<File>, taken: seq<bool>, freed: nat -> bool)
    requires Opening(dst, loaders, base, taken, freed)
    ensures Reclosing(dst, loaders, base, taken, 0)
    ensures |loaders| <= |dst.parts| == |taken| && forall j | 0 <= j < |loaders| :: taken[j] ==> freed(j)
  {
    hide LoaderAt, RoutedTo;
  }

  method CloseNext(dst: Store, loaders: seq<BulkLoader>, ghost base: seq<File>, ghost taken: seq<bool>, i: nat)
    requires i < |loaders| && Reclosing(dst, loaders, base, taken, i)
    modifies loaders[i], {dst.parts[i]}
    ensures Reclosing(dst, loaders, base, taken, i + 1)
  {
    hide RoutedTo, LoaderAt, Routing.Valid, WithQuads;
    WithNothing(dst.routing, base[i], i);
    CloseOne(dst, loaders[i], i, base[i], {});
  }

  lemma AllClosed(dst: Store, loaders: seq<BulkLoader>, base: seq<File>, taken: seq<bool>, freed: nat -> bool)
    requires Reclosing(dst, loaders, base, taken, |loaders|)
    requires forall j | 0 <= j < |loaders| :: taken[j] ==> freed(j)
    ensures Untouched(dst, base, taken, freed)
  {
    hide LoaderAt, RoutedTo;
    assert dst.Files() == base;
  }

  lemma WithNothing(rt: Routing, f: File, j: nat)
    requires rt.Valid() && rt.routeLabel.Some?
    ensures WithQuads(rt, {}, f, j) == f
  {
    RoutedNothing(rt, j);
    assert f.quads + {} == f.quads;
  }

  lemma NoneOpen(dst: Store, freed: nat -> bool)
    requires dst.Valid() && dst.routing.routeLabel.Some?
    ensures Opening(dst, [], dst.Files(), Slots(dst), freed)
  {}

  /** Loaders in partition order, up to the first slot that cannot be had. */
  method OpenFree(dst: Store, freed: nat -> bool, ghost base: seq<File>, ghost taken: seq<bool>)
    returns (loaders: seq<BulkLoader>)
    requires Opening(dst, [], base, taken, freed)
    modifies dst.parts`slot
    ensures fresh(loaders) && Opening(dst, loaders, base, taken, freed)
    ensures |loaders| <= |dst.parts| == |taken|
    ensures |loaders| == |dst.parts| || (taken[|loaders|] && !freed(|loaders|))
  {
    hide *;
    OpenBounds(dst, [], base, taken, freed);
    loaders := [];
    while |loaders| < |dst.parts|
      invariant |loaders| <= |dst.parts| == |taken|
      invariant fresh(loaders) && Opening(dst, loaders, base, taken, freed)
      decreases |dst.parts| - |loaders|
    {
      var bl := OpenLoader(dst, loaders, freed, base, taken);
      if bl.None? { return; }
      loaders := loaders + [bl.value];
      OpenBounds(dst, loaders, base, taken, freed);
    }
  }

  /**
   * One loader per partition, taken in partition order, each waiting for its slot. A slot whose holder does
   * not free it ends in the context's end, and then the loaders opened before it are closed.
   */
  method OpenLoaders(dst: Store, freed: nat -> bool) returns (r: Option<seq<BulkLoader>>)
    requires dst.Valid() && dst.routing.routeLabel.Some?
    modifies dst.parts
    ensures r.Some? <==> Obtainable(old(Slots(dst)), freed)
    ensures r.Some? ==> fresh(r.value) && Loading(dst, r.value, old(dst.Files()), {})
    ensures r.None? ==> Untouched(dst, old(dst.Files()), old(Slots(dst)), freed)
  {
    NoneOpen(dst, freed);
    hide *;
    ghost var base, taken := dst.Files(), Slots(dst);
    var loaders := OpenFree(dst, freed, base, taken);
    if |loaders| < |dst.parts| {
      NotObtainable(taken, freed, |loaders|);
      CloseOpened(dst, loaders, base, taken, freed);
      return None;
    }
    AllOpen(dst, loaders, base, taken, freed);
    return Some(loaders);
  }

  lemma NotObtainable(taken: seq<bool>, freed: nat -> bool, j: nat)
    requires j < |taken| && taken[j] && !freed(j)
    ensures !Obtainable(taken, freed)
  {}

  method CloseOne(dst: Store, bl: BulkLoader, j: nat, ghost f: File, ghost done: set<Quad>)
    requires dst.Valid() && dst.routing.routeLabel.Some? && j < |dst.parts|
    requires LoaderAt(dst, bl, j, f, RoutedTo(dst.routing, done, j))
    modifies bl, {dst.parts[j]}
    ensures dst.parts[j].file == WithQuads(dst.routing, done, f, j) && !dst.parts[j].slot
  {
    hide RoutedTo;
    var _ := bl.Close(true);
  }

  method FlushOne(dst: Store, bl: BulkLoader, j: nat, ghost f: File, ghost done: set<Quad>)
    requires dst.Valid() && dst.routing.routeLabel.Some? && j < |dst.parts|
    requires LoaderAt(dst, bl, j, f, RoutedTo(dst.routing, done, j))
    modifies bl, {dst.parts[j]}`file
    ensures LoaderAt(dst, bl, j, f, RoutedTo(dst.routing, done, j))
    ensures dst.parts[j].file == WithQuads(dst.routing, done, f, j) && bl.buf == []
  {
    hide RoutedTo;
    var _ := bl.Flush(true);
  }

  /** closeLoaders: what was still buffered is written, and every slot is free again. */
  method CloseLoaders(dst: Store, loaders: seq<BulkLoader>, ghost base: seq<File>, ghost done: set<Quad>)
    requires Loading(dst, loaders, base, done)
    modifies loaders, dst.parts
    ensures FilesHold(dst, base, done) && SlotsFree(dst)
  {
    hide RoutedTo, LoaderAt, WithQuads, BulkLoader.Valid, Routing.Valid;
    for i := 0 to |loaders|
      invariant forall j | 0 <= j < i ::
        dst.parts[j].file == WithQuads(dst.routing, done, base[j], j) && !dst.parts[j].slot
      invariant forall j | i <= j < |loaders| :: LoaderAt(dst, loaders[j], j, base[j], RoutedTo(dst.routing, done, j))
    {
      CloseOne(dst, loaders[i], i, base[i], done);
    }
  }

  /** The flush of every buffer before the audit rows. */
  method FlushLoaders(dst: Store, loaders: seq<BulkLoader>, ghost base: seq<File>, ghost done: set<Quad>)
    requires Loading(dst, loaders, base, done)
    modifies loaders, dst.parts`file
    ensures Loading(dst, loaders, base, done) && FilesHold(dst, base, done)
    ensures forall j | 0 <= j < |loaders| :: loaders[j].buf == []
  {
    hide RoutedTo, LoaderAt, WithQuads, BulkLoader.Valid, Routing.Valid;
    for i := 0 to |loaders|
      invariant forall j | 0 <= j < i ::
        loaders[j].buf == [] && dst.parts[j].file == WithQuads(dst.routing, done, base[j], j)
      invariant forall j | 0 <= j < |loaders| :: LoaderAt(dst, loaders[j], j, base[j], RoutedTo(dst.routing, done, j))
    {
      FlushOne(dst, loaders[i], i, base[i], done);
    }
  }

  lemma RoutedOneMore(rt: Routing, done: set<Quad>, q: Quad, j: nat)
    requires rt.Valid() && rt.routeLabel.Some?
    ensures RoutedTo(rt, done + {q}, j) == RoutedTo(rt, done, j) + if rt.StrictTarget(q.lbl) == Some(j) then {q} else {}
  {}

  /** A row handed to its partition's loader. */
  method AddTo(dst: Store, bl: BulkLoader, t: nat, q: Quad, ghost f: File, ghost got: set<Quad>)
    returns (r: Option<Error>)
    requires dst.Valid() && dst.routing.routeLabel.Some? && dst.routing.StrictTarget(q.lbl) == Some(t)
    requires t < |dst.parts| && LoaderAt(dst, bl, t, f, got)
    modifies bl, {dst.parts[t]}`file
    ensures r.None? <==> q.IsValid()
    ensures LoaderAt(dst, bl, t, f, if r.None? then got + {q} else got)
    ensures r.Some? ==> r.value == EmptyQuad
  {
    StrictTargetAgrees(dst.routing, q.lbl);
    ValidMeans(q);
    hide Routing.StrictTarget, Routing.PartFor, Routing.Valid, Store.Valid, Quad.IsValid;
    assert q.Under([]) == q;
    var added := bl.Add(q, true);
    if added.Err? { return Some(added.error); }
    return None;
  }

  lemma RoutedSince(rt: Routing, done: set<Quad>, q: Quad, t: nat, n: nat)
    requires rt.Valid() && rt.routeLabel.Some? && rt.StrictTarget(q.lbl) == Some(t)
    ensures forall j | 0 <= j < n ::
      RoutedTo(rt, done + {q}, j) == if j == t then RoutedTo(rt, done, j) + {q} else RoutedTo(rt, done, j)
  {
    hide *;
    forall j | 0 <= j < n
      ensures RoutedTo(rt, done + {q}, j) == if j == t then RoutedTo(rt, done, j) + {q} else RoutedTo(rt, done, j)
    {
      RoutedOneMore(rt, done, q, j);
      assert RoutedTo(rt, done, j) + {} == RoutedTo(rt, done, j);
    }
  }

  /** One source row: routed strictly, then handed to its partition's loader. */
  method LoadRow(dst: Store, loaders: seq<BulkLoader>, q: Quad, ghost base: seq<File>, ghost done: set<Quad>)
    returns (r: Result<nat>)
    requires Loading(dst, loaders, base, done)
    modifies loaders, dst.parts`file
    ensures r.Ok? <==> q.IsValid() && dst.routing.StrictTarget(q.lbl).Some?
    ensures r.Ok? ==> dst.routing.StrictTarget(q.lbl) == Some(r.value) && Loading(dst, loaders, base, done + {q})
    ensures r.Err? ==> Loading(dst, loaders, base, done)
    ensures r.Err? ==> r.error == if dst.routing.StrictTarget(q.lbl).None? then UnknownPartition else EmptyQuad
  {
    hide LoaderAt, RoutedTo, Routing.StrictTarget, Routing.Valid, Quad.IsValid;
    var target := dst.routing.StrictTarget(q.lbl);
    if target.None? { return Err(UnknownPartition); }
    var t := target.value;
    RoutedSince(dst.routing, done, q, t, |loaders|);
    var refused := AddTo(dst, loaders[t], t, q, base[t], RoutedTo(dst.routing, done, t));
    if refused.Some? { return Err(refused.value); }
    return Ok(t);
  }

  // ---- streaming the quads ----

  /** Quads copied, in all and by destination partition. */
  datatype QuadStats = QuadStats(copied: nat, perPartition: seq<nat>)

  function Sum(s: seq<nat>): nat {
    if s == [] then 0 else Sum(s[..|s| - 1]) + s[|s| - 1]
  }

  lemma {:induction false} SumBump(s: seq<nat>, t: nat)
    requires t < |s|
    ensures Sum(s[t := s[t] + 1]) == Sum(s) + 1
  {
    var n, s' := |s| - 1, s[t := s[t] + 1];
    if t == n {
      assert s'[..n] == s[..n];
    } else {
      assert s'[..n] == s[..n][t := s[..n][t] + 1];
      SumBump(s[..n], t);
    }
  }

  /** st counts, beyond st0, each of the quads once, under the partition it is routed to. */
  ghost predicate Counted(rt: Routing, st0: QuadStats, st: QuadStats, quads: set<Quad>) {
    && rt.Valid() && rt.routeLabel.Some?
    && |st.perPartition| == |st0.perPartition| == |rt.names|
    && st.copied == st0.copied + |quads|
    && Sum(st.perPartition) == Sum(st0.perPartition) + |quads|
    && forall j | 0 <= j < |rt.names| :: st.perPartition[j] == st0.perPartition[j] + |RoutedTo(rt, quads, j)|
  }

  lemma RoutedCountNext(rt: Routing, quads: set<Quad>, q: Quad, j: nat)
    requires rt.Valid() && rt.routeLabel.Some? && q !in quads
    ensures |RoutedTo(rt, quads + {q}, j)| == |RoutedTo(rt, quads, j)| + if rt.StrictTarget(q.lbl) == Some(j) then 1
      else 0
  {
    RoutedOneMore(rt, quads, q, j);
    assert q !in RoutedTo(rt, quads, j);
  }

  lemma CountedNext(rt: Routing, st0: QuadStats, st: QuadStats, quads: set<Quad>, q: Quad, t: nat)
    requires Counted(rt, st0, st, quads) && q !in quads && rt.StrictTarget(q.lbl) == Some(t)
    ensures Counted(rt, st0, QuadStats(st.copied + 1, st.perPartition[t := st.perPartition[t] + 1]), quads + {q})
  {
    SumBump(st.perPartition, t);
    var after := st.perPartition[t := st.perPartition[t] + 1];
    hide Sum, Routing.StrictTarget, Routing.Valid, RoutedTo;
    forall j | 0 <= j < |rt.names| ensures after[j] == st0.perPartition[j] + |RoutedTo(rt, quads + {q}, j)| {
      RoutedCountNext(rt, quads, q, j);
    }
  }

  lemma CountedNone(rt: Routing, st: QuadStats)
    requires rt.Valid() && rt.routeLabel.Some? && |st.perPartition| == |rt.names|
    ensures Counted(rt, st, st, {})
  {
    forall j | 0 <= j < |rt.names| ensures |RoutedTo(rt, {}, j)| == 0 { RoutedNothing(rt, j); }
  }

  /** What migration can load. */
  ghost predicate Loadable(rt: Routing, quads: set<Quad>)
    requires rt.Valid() && rt.routeLabel.Some?
  {
    forall q | q in quads :: q.IsValid() && rt.StrictTarget(q.lbl).Some?
  }

  /** What stops a migration of quads: one that goes to no known partition, or one that lacks a field. */
  ghost predicate QuadFault(rt: Routing, quads: set<Quad>, e: Error)
    requires rt.Valid() && rt.routeLabel.Some?
  {
    || (e == UnknownPartition && exists q | q in quads :: rt.StrictTarget(q.lbl).None?)
    || (e == EmptyQuad && exists q | q in quads :: !q.IsValid())
  }

  lemma FaultIn(rt: Routing, quads: set<Quad>, more: set<Quad>, e: Error)
    requires rt.Valid() && rt.routeLabel.Some? && QuadFault(rt, quads, e) && quads <= more
    ensures QuadFault(rt, more, e)
  {
    hide Routing.StrictTarget, Quad.IsValid;
  }

  lemma RowFault(rt: Routing, q: Quad, e: Error)
    requires rt.Valid() && rt.routeLabel.Some? && !(q.IsValid() && rt.StrictTarget(q.lbl).Some?)
    requires e == if rt.StrictTarget(q.lbl).None? then UnknownPartition else EmptyQuad
    ensures QuadFault(rt, {q}, e)
  {
    hide Routing.StrictTarget, Quad.IsValid;
    assert q in {q};
  }

  /** The rows gone over so far are loaded and counted. */
  ghost predicate Streaming(dst: Store, loaders: seq<BulkLoader>, base: seq<File>, done: set<Quad>, gone: set<Quad>,
                            st0: QuadStats, st: QuadStats)
    reads loaders, dst.parts
  {
    && Loading(dst, loaders, base, done + gone)
    && Loadable(dst.routing, gone) && Counted(dst.routing, st0, st, gone)
  }

  method StreamRow(dst: Store, loaders: seq<BulkLoader>, q: Quad, st: QuadStats,
                   ghost base: seq<File>, ghost done: set<Quad>, ghost gone: set<Quad>, ghost st0: QuadStats)
    returns (r: Result<QuadStats>)
    requires Streaming(dst, loaders, base, done, gone, st0, st) && q !in gone
    modifies loaders, dst.parts`file
    ensures r.Ok? ==> Streaming(dst, loaders, base, done, gone + {q}, st0, r.value)
    ensures r.Err? ==> Loading(dst, loaders, base, done + gone) && !Loadable(dst.routing, {q})
    ensures r.Err? ==> QuadFault(dst.routing, {q}, r.error)
  {
    StreamingRouted(dst, loaders, base, done, gone, st0, st);
    hide *;
    var target := LoadRow(dst, loaders, q, base, done + gone);
    if target.Err? {
      NotLoadable(dst.routing, q);
      RowFault(dst.routing, q, target.error);
      return Err(target.error);
    }
    var t := target.value;
    CountedNext(dst.routing, st0, st, gone, q, t);
    LoadableNext(dst.routing, gone, q);
    assert done + gone + {q} == done + (gone + {q});
    r := Ok(QuadStats(st.copied + 1, st.perPartition[t := st.perPartition[t] + 1]));
    Streamed(dst, loaders, base, done, gone + {q}, st0, r.value);
  }

  lemma StreamingRouted(dst: Store, loaders: seq<BulkLoader>, base: seq<File>, done: set<Quad>, gone: set<Quad>,
                        st0: QuadStats, st: QuadStats)
    requires Streaming(dst, loaders, base, done, gone, st0, st)
    ensures dst.Valid() && dst.routing.Valid() && dst.routing.routeLabel.Some?
    ensures Loading(dst, loaders, base, done + gone)
    ensures Loadable(dst.routing, gone) && Counted(dst.routing, st0, st, gone)
    ensures |st.perPartition| == |dst.routing.names|
  {
    hide LoaderAt;
  }

  lemma Streamed(dst: Store, loaders: seq<BulkLoader>, base: seq<File>, done: set<Quad>, gone: set<Quad>,
                 st0: QuadStats, st: QuadStats)
    requires dst.routing.Valid() && dst.routing.routeLabel.Some?
    requires Loading(dst, loaders, base, done + gone)
    requires Loadable(dst.routing, gone) && Counted(dst.routing, st0, st, gone)
    ensures Streaming(dst, loaders, base, done, gone, st0, st)
  {}

  lemma LoadableNext(rt: Routing, gone: set<Quad>, q: Quad)
    requires rt.Valid() && rt.routeLabel.Some? && Loadable(rt, gone) && q.IsValid() && rt.StrictTarget(q.lbl).Some?
    ensures Loadable(rt, gone + {q})
  {}

  lemma NotLoadable(rt: Routing, q: Quad)
    requires rt.Valid() && rt.routeLabel.Some? && !(q.IsValid() && rt.StrictTarget(q.lbl).Some?)
    ensures !Loadable(rt, {q})
  {
    assert q in {q};
  }

  /** streamQuads, over one source table in any row order. */
  method StreamQuads(dst: Store, loaders: seq<BulkLoader>, rows: set<Quad>, st: QuadStats,
                     ghost base: seq<File>, ghost done: set<Quad>)
    returns (r: Result<QuadStats>, ghost done': set<Quad>)
    requires Loading(dst, loaders, base, done) && |st.perPartition| == |dst.parts|
    modifies loaders, dst.parts`file
    ensures Loading(dst, loaders, base, done') && done <= done' <= done + rows
    ensures r.Ok? <==> Loadable(dst.routing, rows)
    ensures r.Ok? ==> done' == done + rows && Counted(dst.routing, st, r.value, rows)
    ensures r.Err? ==> QuadFault(dst.routing, rows, r.error)
  {
    var order := Enumerate(rows);
    var stats := st;
    ghost var gone: set<Quad> := {};
    CountedNone(dst.routing, st);
    assert done + gone == done && Elements(order[..0]) == {} && order[..|order|] == order;
    Streamed(dst, loaders, base, done, gone, st, st);
    hide *;
    for i := 0 to |order|
      invariant gone == Elements(order[..i])
      invariant Streaming(dst, loaders, base, done, gone, st, stats)
    {
      var q := order[i];
      DistinctNext(order, i);
      done' := done + gone;
      var counted := StreamRow(dst, loaders, q, stats, base, done, gone, st);
      if counted.Err? {
        StopsAt(dst.routing, order, i);
        FaultIn(dst.routing, {q}, rows, counted.error);
        return Err(counted.error), done';
      }
      stats, gone := counted.value, gone + {q};
    }
    StreamingRouted(dst, loaders, base, done, gone, st, stats);
    return Ok(stats), done + gone;
  }

  lemma StopsAt(rt: Routing, order: seq<Quad>, i: nat)
    requires rt.Valid() && rt.routeLabel.Some? && i < |order| && !Loadable(rt, {order[i]})
    ensures !Loadable(rt, Elements(order)) && Elements(order[..i]) <= Elements(order)
  {
    assert order[i] in Elements(order);
  }

  /** Source rows over all its files; over those routed to partition j. */
  function RowCount(srcs: seq<File>): nat {
    if srcs == [] then 0 else RowCount(srcs[..|srcs| - 1]) + |srcs[|srcs| - 1].quads|
  }

  ghost function RoutedCount(rt: Routing, srcs: seq<File>, j: nat): nat
    requires rt.Valid() && rt.routeLabel.Some?
  {
    if srcs == [] then 0 else RoutedCount(rt, srcs[..|srcs| - 1], j) + |RoutedTo(rt, srcs[|srcs| - 1].quads, j)|
  }

  /** The stats of a quad copy. */
  ghost predicate StatsOf(rt: Routing, srcs: seq<File>, st: QuadStats) {
    && rt.Valid() && rt.routeLabel.Some? && |st.perPartition| == |rt.names|
    && st.copied == RowCount(srcs) == Sum(st.perPartition)
    && forall j | 0 <= j < |rt.names| :: st.perPartition[j] == RoutedCount(rt, srcs, j)
  }

  /** If no quad is in two source files, as when each is placed, the counts are of the distinct quads routed. */
  lemma {:induction false} CountsDistinct(rt: Routing, srcs: seq<File>, j: nat)
    requires rt.Valid() && rt.routeLabel.Some?
    requires forall a, b | 0 <= a < b < |srcs| :: srcs[a].quads !! srcs[b].quads
    ensures RowCount(srcs) == |AllQuads(srcs)|
    ensures RoutedCount(rt, srcs, j) == |set q | q in AllQuads(srcs) && rt.StrictTarget(q.lbl) == Some(j)|
  {
    if srcs == [] {
      AllQuadsNone();
      RoutedAtMost(rt, AllQuads(srcs), j);
      hide AllQuads, Routing.StrictTarget, Routing.Valid;
    } else {
      hide *;
      var n := |srcs| - 1;
      var front, last := srcs[..n], srcs[n].quads;
      assert forall a | 0 <= a < n :: front[a] == srcs[a];
      CountsDistinct(rt, front, j);
      CountsNext(rt, srcs, n, j);
      DisjointFrom(front, last);
      AllQuadsNext(srcs, n);
      assert srcs[..n + 1] == srcs;
      RoutedDisjoint(rt, AllQuads(front), last, j);
    }
  }

  lemma CountsNext(rt: Routing, srcs: seq<File>, n: nat, j: nat)
    requires rt.Valid() && rt.routeLabel.Some? && |srcs| == n + 1
    ensures RowCount(srcs) == RowCount(srcs[..n]) + |srcs[n].quads|
    ensures RoutedCount(rt, srcs, j) == RoutedCount(rt, srcs[..n], j) + |RoutedTo(rt, srcs[n].quads, j)|
  {
    hide Routing.Valid, Routing.StrictTarget, RoutedTo;
  }

  lemma RoutedAtMost(rt: Routing, s: set<Quad>, j: nat)
    requires rt.Valid() && rt.routeLabel.Some?
    ensures |set q | q in s && rt.StrictTarget(q.lbl) == Some(j)| <= |s|
  {
    var routed := set q | q in s && rt.StrictTarget(q.lbl) == Some(j);
    SubsetSize(routed, s);
  }

  lemma DisjointFrom(files: seq<File>, s: set<Quad>)
    requires forall a | 0 <= a < |files| :: files[a].quads !! s
    ensures AllQuads(files) !! s
  {
    forall q | q in AllQuads(files) ensures q !in s {
      var a :| 0 <= a < |files| && q in files[a].quads;
      assert files[a].quads !! s;
    }
  }

  lemma RoutedDisjoint(rt: Routing, s: set<Quad>, t: set<Quad>, j: nat)
    requires rt.Valid() && rt.routeLabel.Some? && s !! t
    ensures |s + t| == |s| + |t|
    ensures |set q | q in s + t && rt.StrictTarget(q.lbl) == Some(j)|
         == |set q | q in s && rt.StrictTarget(q.lbl) == Some(j)| + |RoutedTo(rt, t, j)|
  {
    hide Routing.Valid, Routing.StrictTarget;
    var a := set q | q in s && rt.StrictTarget(q.lbl) == Some(j);
    var b := RoutedTo(rt, t, j);
    assert (set q | q in s + t && rt.StrictTarget(q.lbl) == Some(j)) == a + b && a !! b;
  }

  lemma StatsNext(rt: Routing, srcs: seq<File>, st: QuadStats, src: File, st': QuadStats)
    requires StatsOf(rt, srcs, st) && Counted(rt, st, st', src.quads)
    ensures StatsOf(rt, srcs + [src], st')
  {
    assert (srcs + [src])[..|srcs|] == srcs;
  }

  lemma {:induction false} NothingCounted(rt: Routing, n: nat)
    requires rt.Valid() && rt.routeLabel.Some?
    ensures Sum(seq(n, _ => 0)) == 0
  {
    if n > 0 {
      NothingCounted(rt, n - 1);
      assert seq(n, _ => 0)[..n - 1] == seq(n - 1, _ => 0);
    }
  }

  lemma AllQuadsNone()
    ensures AllQuads([]) == {}
  {}

  lemma AllQuadsPart(srcs: seq<File>, n: nat)
    requires n < |srcs|
    ensures srcs[n].quads <= AllQuads(srcs) && AllQuads(srcs[..n]) <= AllQuads(srcs)
  {
    forall q | q in AllQuads(srcs[..n]) ensures q in AllQuads(srcs) {
      var i :| 0 <= i < n && q in srcs[..n][i].quads;
      assert q in srcs[i].quads;
    }
  }

  /** Open loaders with nothing buffered. */
  ghost predicate Idle(dst: Store, loaders: seq<BulkLoader>)
    reads loaders, dst.parts`slot
  {
    && dst.Valid() && dst.routing.routeLabel.Some? && |loaders| == |dst.parts|
    && (forall i, j | 0 <= i < j < |loaders| :: loaders[i] != loaders[j])
    && forall j | 0 <= j < |loaders| ::
      && loaders[j].Valid() && loaders[j].store == dst && loaders[j].part == j && loaders[j].labelDefault == []
      && !loaders[j].closed && loaders[j].stickyErr.None? && loaders[j].buf == [] && dst.parts[j].slot
  }

  lemma FlushedIdle(dst: Store, loaders: seq<BulkLoader>, base: seq<File>, done: set<Quad>)
    requires Loading(dst, loaders, base, done) && forall j | 0 <= j < |loaders| :: loaders[j].buf == []
    ensures Idle(dst, loaders)
  {
    hide RoutedTo, Routing.Valid;
    forall j | 0 <= j < |loaders| ensures LoaderAt(dst, loaders[j], j, base[j], RoutedTo(dst.routing, done, j)) {}
  }

  /** Idle loaders go with whatever the files are now. */
  lemma IdleLoading(dst: Store, loaders: seq<BulkLoader>, base: seq<File>, done: set<Quad>)
    requires Idle(dst, loaders) && FilesHold(dst, base, done)
    ensures Loading(dst, loaders, base, done)
  {
    hide RoutedTo, Routing.Valid;
    forall j | 0 <= j < |loaders| ensures LoaderAt(dst, loaders[j], j, base[j], RoutedTo(dst.routing, done, j)) {
      assert loaders[j].Pending() == dst.parts[j].file.quads + {};
    }
  }

  /** Phase 1: every source table streamed, then the buffers flushed. */
  method CopyQuads(srcs: seq<File>, dst: Store, loaders: seq<BulkLoader>, ghost base: seq<File>)
    returns (r: Result<QuadStats>, ghost done: set<Quad>)
    requires Loading(dst, loaders, base, {})
    modifies loaders, dst.parts`file
    ensures Loading(dst, loaders, base, done) && done <= AllQuads(srcs)
    ensures r.Ok? <==> QuadsRoutable(dst.routing, srcs)
    ensures r.Ok? ==> done == AllQuads(srcs) && FilesHold(dst, base, done) && Idle(dst, loaders)
    ensures r.Ok? ==> StatsOf(dst.routing, srcs, r.value)
    ensures r.Err? ==> QuadFault(dst.routing, AllQuads(srcs), r.error)
  {
    hide *;
    ghost var rt := dst.routing;
    LoadingRouted(dst, loaders, base, {});
    var st := QuadStats(0, seq(|dst.parts|, _ => 0));
    StatsStart(rt, |dst.parts|);
    done := {};
    assert srcs[..0] == [] && srcs[..|srcs|] == srcs;
    for i := 0 to |srcs|
      invariant Loading(dst, loaders, base, done) && done == AllQuads(srcs[..i])
      invariant StatsOf(rt, srcs[..i], st) && Loadable(rt, AllQuads(srcs[..i]))
    {
      AllQuadsNext(srcs, i);
      AllQuadsPart(srcs, i);
      assert srcs[..i + 1] == srcs[..i] + [srcs[i]];
      StatsLength(rt, srcs[..i], st);
      AllLoadable(rt, AllQuads(srcs[..i]), srcs[i].quads);
      var more;
      more, done := StreamQuads(dst, loaders, srcs[i].quads, st, base, done);
      if more.Err? {
        RoutableIs(rt, srcs);
        AllLoadable(rt, AllQuads(srcs), srcs[i].quads);
        assert AllQuads(srcs) + srcs[i].quads == AllQuads(srcs);
        FaultIn(rt, srcs[i].quads, AllQuads(srcs), more.error);
        return Err(more.error), done;
      }
      StatsNext(rt, srcs[..i], st, srcs[i], more.value);
      st := more.value;
    }
    RoutableIs(rt, srcs);
    FlushLoaders(dst, loaders, base, done);
    FlushedIdle(dst, loaders, base, done);
    return Ok(st), done;
  }

  lemma LoadingRouted(dst: Store, loaders: seq<BulkLoader>, base: seq<File>, done: set<Quad>)
    requires Loading(dst, loaders, base, done)
    ensures dst.Valid() && dst.routing.Valid() && dst.routing.routeLabel.Some? && |dst.parts| == |dst.routing.names|
  {
    hide LoaderAt;
  }

  lemma StatsStart(rt: Routing, n: nat)
    requires rt.Valid() && rt.routeLabel.Some? && n == |rt.names|
    ensures StatsOf(rt, [], QuadStats(0, seq(n, _ => 0))) && AllQuads([]) == {} && Loadable(rt, {})
  {
    NothingCounted(rt, n);
    AllQuadsNone();
  }

  lemma AllLoadable(rt: Routing, s: set<Quad>, t: set<Quad>)
    requires rt.Valid() && rt.routeLabel.Some?
    ensures Loadable(rt, s + t) <==> Loadable(rt, s) && Loadable(rt, t)
  {
    hide Routing.Valid, Routing.StrictTarget, Quad.IsValid;
    assert forall q | q in s :: q in s + t;
    assert forall q | q in t :: q in s + t;
  }

  lemma RoutableIs(rt: Routing, srcs: seq<File>)
    requires rt.Valid() && rt.routeLabel.Some?
    ensures QuadsRoutable(rt, srcs) <==> Loadable(rt, AllQuads(srcs))
  {}

  lemma StatsLength(rt: Routing, srcs: seq<File>, st: QuadStats)
    requires StatsOf(rt, srcs, st)
    ensures |st.perPartition| == |rt.names|
  {}

  // ---- the whole migration ----

  datatype MigrateStats = MigrateStats(quads: QuadStats, audit: AuditStats)

  /** Each file is its base with the routed part of some of the source quads: what a failed migration leaves. */
  ghost predicate PartlyMigrated(dst: Store, base: seq<File>, done: set<Quad>)
    reads dst.parts
  {
    && dst.Valid() && dst.routing.routeLabel.Some? && |base| == |dst.parts|
    && forall j | 0 <= j < |base| :: dst.parts[j].file.quads == base[j].quads + RoutedTo(dst.routing, done, j)
  }

  /** files with the quads of base: what the loaders' flushed quads are counted from. */
  function Rebased(base: seq<File>, files: seq<File>): (r: seq<File>)
    requires |base| == |files|
    ensures |r| == |files|
  {
    seq(|files|, j requires 0 <= j < |files| => files[j].(quads := base[j].quads))
  }

  ghost function LoadedFiles(rt: Routing, base: seq<File>, done: set<Quad>): (r: seq<File>)
    requires rt.Valid() && rt.routeLabel.Some?
    ensures |r| == |base|
  {
    seq(|base|, j requires 0 <= j < |base| => WithQuads(rt, done, base[j], j))
  }

  lemma HeldFiles(dst: Store, base: seq<File>, done: set<Quad>)
    requires FilesHold(dst, base, done)
    ensures dst.Valid() && dst.routing.Valid() && dst.routing.routeLabel.Some? && |base| == |dst.parts|
    ensures FilesAre(dst, LoadedFiles(dst.routing, base, done))
  {
    hide RoutedTo;
  }

  /** After the audit copy the files still hold the quads, over a base with the new audit rows. */
  lemma RebasedHold(dst: Store, base: seq<File>, done: set<Quad>, files: seq<File>)
    requires dst.Valid() && dst.routing.routeLabel.Some? && |base| == |dst.parts|
    requires FilesAre(dst, files) && SameQuads(LoadedFiles(dst.routing, base, done), files)
    ensures |files| == |base| && FilesHold(dst, Rebased(base, files), done)
  {
    hide RoutedTo;
    forall j | 0 <= j < |base| ensures files[j].quads == base[j].quads + RoutedTo(dst.routing, done, j) {
      assert LoadedFiles(dst.routing, base, done)[j].quads == files[j].quads;
    }
  }

  lemma HeldPartly(dst: Store, base: seq<File>, files: seq<File>, done: set<Quad>)
    requires FilesHold(dst, files, done) && SameQuads(base, files)
    ensures PartlyMigrated(dst, base, done)
  {
    hide RoutedTo;
  }

  lemma MigratedIs(rt: Routing, srcs: seq<File>, base: seq<File>, copyCommits: bool)
    requires rt.Valid() && rt.routeLabel.Some?
    ensures var loaded := LoadedFiles(rt, base, AllQuads(srcs));
      Migrated(rt, srcs, base, copyCommits) == if copyCommits then CopiedFrom(rt, srcs, loaded) else loaded
  {
    hide RoutedTo, CopiedAudit, AllQuads, WithQuads;
  }

  /** Phase 2, if asked for, then the deferred close of every loader. */
  method CopyAuditAndClose(srcs: seq<File>, dst: Store, loaders: seq<BulkLoader>, copyCommits: bool,
          ghost base: seq<File>, ghost done: set<Quad>)
    returns (r: Result<AuditStats>)
    requires Idle(dst, loaders) && FilesHold(dst, base, done) && done == AllQuads(srcs)
    modifies loaders, dst.parts
    ensures SlotsFree(dst)
    ensures r.Ok? <==> !copyCommits || CommitsRoutable(dst.routing, srcs)
    ensures r.Ok? ==> FilesAre(dst, Migrated(dst.routing, srcs, base, copyCommits))
    ensures r.Ok? ==> r.value == if copyCommits then AuditCount(srcs) else AuditStats(0, 0)
    ensures r.Err? ==> r.error == NilConnection && PartlyMigrated(dst, base, done)
  {
    hide *;
    HeldFiles(dst, base, done);
    ghost var rt, files := dst.routing, LoadedFiles(dst.routing, base, done);
    MigratedIs(rt, srcs, base, copyCommits);
    SameQuadsSelf(files);
    r := Ok(AuditStats(0, 0));
    if copyCommits { r, files := CopyAudit(dst, srcs, files); }
    RebasedHold(dst, base, done, files);
    IdleLoading(dst, loaders, Rebased(base, files), done);
    CloseLoaders(dst, loaders, Rebased(base, files), done);
    Closed(dst, base, done, files);
  }

  lemma Closed(dst: Store, base: seq<File>, done: set<Quad>, files: seq<File>)
    requires dst.Valid() && dst.routing.routeLabel.Some? && |base| == |dst.parts| == |files|
    requires SameQuads(LoadedFiles(dst.routing, base, done), files) && FilesHold(dst, Rebased(base, files), done)
    ensures FilesAre(dst, files) && PartlyMigrated(dst, base, done)
  {
    hide RoutedTo;
    forall j | 0 <= j < |base| ensures WithQuads(dst.routing, done, Rebased(base, files)[j], j) == files[j] {
      assert LoadedFiles(dst.routing, base, done)[j].quads == files[j].quads;
    }
  }

  /**
   * Migrate. It succeeds exactly when the destination is partitioned, every slot is free or freed by its
   * holder, every source quad is valid and routes to a known name and, if audit rows are copied, so does
   * every commit's label. A slot that is not freed ends in the context's end, nothing written. Any other
   * failure leaves routed quads behind. No slot stays taken but those their holders keep. The source is
   * another store, so what it holds is read before anything is written.
   */
  method Migrate(src: Store, dst: Store, copyCommits: bool, freed: nat -> bool) returns (r: Result<MigrateStats>)
    requires src.Valid() && dst.Valid() && forall c | c in src.parts :: c !in dst.parts
    modifies dst.parts
    ensures forall j | 0 <= j < |dst.parts| ::
      (dst.parts[j].slot ==> old(dst.parts[j].slot)) && (old(dst.parts[j].slot) && !freed(j) ==> dst.parts[j].slot)
    ensures r == Err(NotPartitioned) <==> |dst.routing.names| <= 1
    ensures r == Err(Cancelled)
      <==> |dst.routing.names| > 1 && exists j | 0 <= j < |dst.parts| :: old(dst.parts[j].slot) && !freed(j)
    ensures r == Err(NotPartitioned) || r == Err(Cancelled) ==> dst.Files() == old(dst.Files())
    ensures r.Ok? ==> forall j | 0 <= j < |dst.parts| :: !dst.parts[j].slot
    ensures dst.routing.IsPartitioned() ==> dst.routing.routeLabel.Some?
    ensures r.Ok? <==> dst.routing.IsPartitioned() && Obtainable(old(Slots(dst)), freed)
                       && QuadsRoutable(dst.routing, old(src.Files()))
                       && (copyCommits ==> CommitsRoutable(dst.routing, old(src.Files())))
    ensures r.Ok? ==> FilesAre(dst, Migrated(dst.routing, old(src.Files()), old(dst.Files()), copyCommits))
    ensures r.Ok? && Placed(dst.routing, old(dst.Files())) ==>
      && Placed(dst.routing, dst.Files())
      && AllQuads(dst.Files()) == AllQuads(old(dst.Files())) + AllQuads(old(src.Files()))
    ensures r.Ok? ==> StatsOf(dst.routing, old(src.Files()), r.value.quads)
    ensures r.Ok? ==> r.value.audit == if copyCommits then AuditCount(old(src.Files())) else AuditStats(0, 0)
    ensures r == Err(UnknownPartition) ==>
      exists q | q in AllQuads(old(src.Files())) :: dst.routing.StrictTarget(q.lbl).None?
    ensures r == Err(EmptyQuad) ==>
      exists q | q in AllQuads(old(src.Files())) :: q.subj == [] || q.pred == [] || q.obj == []
    ensures r == Err(NilConnection) ==>
      copyCommits && QuadsRoutable(dst.routing, old(src.Files())) && !CommitsRoutable(dst.routing, old(src.Files()))
    ensures r.Err? ==> r.error in {NotPartitioned, Cancelled, UnknownPartition, EmptyQuad, NilConnection}
    ensures r.Err? && r != Err(NotPartitioned) && r != Err(Cancelled) ==>
      exists done ::
        && done <= AllQuads(old(src.Files()))
        && forall j | 0 <= j < |dst.parts| ::
             dst.parts[j].file.quads
             == old(dst.parts[j].file.quads) + set q | q in done && dst.routing.StrictTarget(q.lbl) == Some(j)
  {
    if !dst.routing.IsPartitioned() { return Err(NotPartitioned); }
    var srcs := seq(|src.parts|, i requires 0 <= i < |src.parts| reads src.parts => src.parts[i].file);
    assert srcs == src.Files() && dst.routing.routeLabel.Some?;
    hide *;
    ghost var base, taken := dst.Files(), Slots(dst);
    SlotsUntouched(dst, freed);
    r := MigrateFiles(srcs, dst, copyCommits, freed);
    SlotsAre(dst, taken, freed);
    if r.Err? && r != Err(Cancelled) {
      ghost var done :| done <= AllQuads(srcs) && PartlyMigrated(dst, base, done);
      PartlyIs(dst, base, done);
      FaultIs(dst.routing, AllQuads(srcs), r.error);
    }
    if r.Ok? {
      AllFree(dst);
      FilesOf(dst, Migrated(dst.routing, srcs, base, copyCommits));
      if Placed(dst.routing, base) { MigrationConserves(dst.routing, srcs, base, copyCommits); }
    }
  }

  lemma FaultIs(rt: Routing, quads: set<Quad>, e: Error)
    requires rt.Valid() && rt.routeLabel.Some?
    ensures QuadFault(rt, quads, e) ==> e == UnknownPartition || e == EmptyQuad
    ensures QuadFault(rt, quads, e) && e == UnknownPartition ==> exists q | q in quads :: rt.StrictTarget(q.lbl).None?
    ensures QuadFault(rt, quads, e) && e == EmptyQuad ==>
      exists q | q in quads :: q.subj == [] || q.pred == [] || q.obj == []
  {}

  lemma SlotsUntouched(dst: Store, freed: nat -> bool)
    requires dst.Valid()
    ensures dst.routing.IsPartitioned() <==> |dst.routing.names| > 1
    ensures Obtainable(Slots(dst), freed) <==> !exists j | 0 <= j < |dst.parts| :: dst.parts[j].slot && !freed(j)
  {}

  lemma SlotsAre(dst: Store, taken: seq<bool>, freed: nat -> bool)
    requires SlotsKept(taken, Slots(dst), freed)
    ensures |taken| == |dst.parts|
    ensures forall j | 0 <= j < |dst.parts| ::
      (dst.parts[j].slot ==> taken[j]) && (taken[j] && !freed(j) ==> dst.parts[j].slot)
  {}

  lemma PartlyIs(dst: Store, base: seq<File>, done: set<Quad>)
    requires PartlyMigrated(dst, base, done)
    ensures dst.Valid() && dst.routing.routeLabel.Some? && |base| == |dst.parts|
    ensures forall j | 0 <= j < |dst.parts| ::
      dst.parts[j].file.quads
      == base[j].quads + set q | q in done && dst.routing.StrictTarget(q.lbl) == Some(j)
  {}

  lemma AllFree(dst: Store)
    requires SlotsFree(dst)
    ensures forall j | 0 <= j < |dst.parts| :: !dst.parts[j].slot
  {}

  lemma FilesOf(dst: Store, files: seq<File>)
    requires FilesAre(dst, files)
    ensures dst.Files() == files
  {}

  /** The migration of the files read. */
  method MigrateFiles(srcs: seq<File>, dst: Store, copyCommits: bool, freed: nat -> bool)
    returns (r: Result<MigrateStats>)
    requires dst.Valid() && dst.routing.routeLabel.Some?
    modifies dst.parts
    ensures SlotsKept(old(Slots(dst)), Slots(dst), freed)
    ensures r == Err(Cancelled) <==> !Obtainable(old(Slots(dst)), freed)
    ensures r == Err(Cancelled) ==> dst.Files() == old(dst.Files())
    ensures r.Err? ==>
      || r.error == Cancelled || QuadFault(dst.routing, AllQuads(srcs), r.error)
      || (r.error == NilConnection && copyCommits && QuadsRoutable(dst.routing, srcs)
          && !CommitsRoutable(dst.routing, srcs))
    ensures r.Ok? ==> SlotsFree(dst)
    ensures r.Ok? <==> Obtainable(old(Slots(dst)), freed) && QuadsRoutable(dst.routing, srcs)
                       && (copyCommits ==> CommitsRoutable(dst.routing, srcs))
    ensures r.Ok? ==> FilesAre(dst, Migrated(dst.routing, srcs, old(dst.Files()), copyCommits))
    ensures r.Ok? ==> StatsOf(dst.routing, srcs, r.value.quads)
    ensures r.Ok? ==> r.value.audit == if copyCommits then AuditCount(srcs) else AuditStats(0, 0)
    ensures r.Err? && Obtainable(old(Slots(dst)), freed) ==>
      exists done :: done <= AllQuads(srcs) && PartlyMigrated(dst, old(dst.Files()), done)
  {
    assert dst.routing.Valid();
    hide *;
    ghost var base, taken := dst.Files(), Slots(dst);
    var loaders := OpenLoaders(dst, freed);
    if loaders.None? {
      FoundAgain(dst, base, taken, freed);
      return Err(Cancelled);
    }
    var quads, done := CopyQuads(srcs, dst, loaders.value, base);
    if quads.Err? {
      FaultIs(dst.routing, AllQuads(srcs), quads.error);
      CloseLoaders(dst, loaders.value, base, done);
      FreeAgain(dst, taken, freed);
      SameQuadsSelf(base);
      HeldPartly(dst, base, base, done);
      return Err(quads.error);
    }
    var audit := CopyAuditAndClose(srcs, dst, loaders.value, copyCommits, base, done);
    FreeAgain(dst, taken, freed);
    if audit.Err? { return Err(audit.error); }
    return Ok(MigrateStats(quads.value, audit.value));
  }

  lemma FoundAgain(dst: Store, base: seq<File>, taken: seq<bool>, freed: nat -> bool)
    requires Untouched(dst, base, taken, freed)
    ensures dst.Files() == base && SlotsKept(taken, Slots(dst), freed)
  {}

  lemma FreeAgain(dst: Store, taken: seq<bool>, freed: nat -> bool)
    requires SlotsFree(dst) && Obtainable(taken, freed) && |taken| == |dst.parts|
    ensures SlotsKept(taken, Slots(dst), freed)
  {}

  lemma SameQuadsSelf(files: seq<File>)
    ensures SameQuads(files, files)
  {}
}
