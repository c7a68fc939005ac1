/** What a migration into a partitioned store does to its files, and what it conserves. */
module Migration {
  import opened ByteOrder
  import opened Partitioned
  import opened PartitionedWriter
  import opened Quads

  // ---- routing the source ----

  /** The quads migration sends to partition j. */
  ghost function RoutedTo(rt: Routing, s: set<Quad>, j: nat): set<Quad>
    requires rt.Valid() && rt.routeLabel.Some?
  {
    set q | q in s && rt.StrictTarget(q.lbl) == Some(j)
  }

  /** Every source quad can be loaded, under a name the destination knows. */
  ghost predicate QuadsRoutable(rt: Routing, srcs: seq<File>)
    requires rt.Valid() && rt.routeLabel.Some?
  {
    forall q | q in AllQuads(srcs) :: q.IsValid() && rt.StrictTarget(q.lbl).Some?
  }

  predicate CommitsRoutableIn(rt: Routing, f: File)
    requires rt.Valid() && rt.routeLabel.Some?
  {
    forall id | id in f.commits :: rt.StrictTarget(f.commits[id].lbl).Some?
  }

  /** Every source commit's label routes to a name the destination knows. */
  predicate CommitsRoutable(rt: Routing, srcs: seq<File>)
    requires rt.Valid() && rt.routeLabel.Some?
  {
    forall i | 0 <= i < |srcs| :: CommitsRoutableIn(rt, srcs[i])
  }

  /** A source migrates if no quad lacks a field it needs and every label's route is a known name, or none. */
  lemma RoutableMeans(rt: Routing, srcs: seq<File>)
    requires rt.Valid() && rt.routeLabel.Some?
    ensures QuadsRoutable(rt, srcs)
      <==> forall i, q | 0 <= i < |srcs| && q in srcs[i].quads ::
             && |q.subj| > 0 && |q.pred| > 0 && |q.obj| > 0
             && (rt.routeLabel.value(q.lbl) == [] || rt.routeLabel.value(q.lbl) in rt.names)
    ensures CommitsRoutable(rt, srcs)
      <==> forall i, id | 0 <= i < |srcs| && id in srcs[i].commits ::
             var l := srcs[i].commits[id].lbl;
             rt.routeLabel.value(l) == [] || rt.routeLabel.value(l) in rt.names
  {
    hide Quad.IsValid, Routing.StrictTarget;
    forall l ensures rt.StrictTarget(l).Some? <==> rt.routeLabel.value(l) == [] || rt.routeLabel.value(l) in rt.names {
      StrictTargetAgrees(rt, l);
    }
    forall q: Quad ensures q.IsValid() <==> |q.subj| > 0 && |q.pred| > 0 && |q.obj| > 0 { ValidMeans(q); }
    if QuadsRoutable(rt, srcs) {
      forall i, q | 0 <= i < |srcs| && q in srcs[i].quads ensures q.IsValid() && rt.StrictTarget(q.lbl).Some? {
        assert q in AllQuads(srcs);
      }
    }
    if CommitsRoutable(rt, srcs) {
      forall i, id | 0 <= i < |srcs| && id in srcs[i].commits ensures rt.StrictTarget(srcs[i].commits[id].lbl).Some? {
        assert CommitsRoutableIn(rt, srcs[i]);
      }
    }
  }

  /** The commits of one source file that go to partition j: a commit goes where its own label routes. */
  function RoutedCommits(rt: Routing, commits: map<Bytes, CommitRow>, j: nat): map<Bytes, CommitRow>
    requires rt.Valid() && rt.routeLabel.Some?
  {
    map id | id in commits && rt.StrictTarget(commits[id].lbl) == Some(j) :: commits[id]
  }

  predicate OpTo(rt: Routing, commits: map<Bytes, CommitRow>, id: Bytes, j: nat)
    requires rt.Valid() && rt.routeLabel.Some?
  {
    id in commits && rt.StrictTarget(commits[id].lbl) == Some(j)
  }

  /** The ops that go to partition j: an op follows its commit, and one without a commit is skipped. */
  function RoutedOps(rt: Routing, commits: map<Bytes, CommitRow>, ops: seq<(Bytes, OpRow)>, j: nat): seq<(Bytes, OpRow)>
    requires rt.Valid() && rt.routeLabel.Some?
  {
    if ops == [] then []
    else
      var last := ops[|ops| - 1];
      RoutedOps(rt, commits, ops[..|ops| - 1], j) + if OpTo(rt, commits, last.0, j) then [last] else []
  }

  // ---- the destination files ----

  /** One source file's audit rows copied: commits already there are kept, ops are appended. */
  function CopyOne(rt: Routing, src: File, f: File, j: nat): File
    requires rt.Valid() && rt.routeLabel.Some?
  {
    File(f.quads, RoutedCommits(rt, src.commits, j) + f.commits, f.ops + RoutedOps(rt, src.commits, src.ops, j))
  }

  function CopiedAudit(rt: Routing, srcs: seq<File>, f: File, j: nat): (f': File)
    requires rt.Valid() && rt.routeLabel.Some?
    ensures f'.quads == f.quads
  {
    if srcs == [] then f else CopyOne(rt, srcs[|srcs| - 1], CopiedAudit(rt, srcs[..|srcs| - 1], f, j), j)
  }

  /** A destination file with the quads routed to it. */
  ghost function WithQuads(rt: Routing, s: set<Quad>, f: File, j: nat): File
    requires rt.Valid() && rt.routeLabel.Some?
  {
    f.(quads := f.quads + RoutedTo(rt, s, j))
  }

  ghost function MigratedFile(rt: Routing, srcs: seq<File>, f: File, j: nat, copyCommits: bool): File
    requires rt.Valid() && rt.routeLabel.Some?
  {
    var loaded := WithQuads(rt, AllQuads(srcs), f, j);
    if copyCommits then CopiedAudit(rt, srcs, loaded, j) else loaded
  }

  /** The destination after a successful migration. */
  ghost function Migrated(rt: Routing, srcs: seq<File>, base: seq<File>, copyCommits: bool): (r: seq<File>)
    requires rt.Valid() && rt.routeLabel.Some?
    ensures |r| == |base|
  {
    seq(|base|, j requires 0 <= j < |base| => MigratedFile(rt, srcs, base[j], j, copyCommits))
  }

  // ---- conservation ----

  /** A successful migration adds exactly the source's quads, each in its routed partition. */
  lemma MigrationConserves(rt: Routing, srcs: seq<File>, base: seq<File>, copyCommits: bool)
    requires Placed(rt, base) && rt.routeLabel.Some? && QuadsRoutable(rt, srcs)
    ensures Placed(rt, Migrated(rt, srcs, base, copyCommits))
    ensures AllQuads(Migrated(rt, srcs, base, copyCommits)) == AllQuads(base) + AllQuads(srcs)
  {
    var files := Migrated(rt, srcs, base, copyCommits);
    hide CopiedAudit, Routing.PartFor, Routing.StrictTarget;
    forall j | 0 <= j < |files| ensures files[j].quads == base[j].quads + RoutedTo(rt, AllQuads(srcs), j) {}
    hide Migrated;
    forall j, q | 0 <= j < |files| && q in files[j].quads ensures rt.PartFor(q.lbl) == j {
      if q !in base[j].quads { StrictTargetAgrees(rt, q.lbl); }
    }
    forall q | q in AllQuads(base) + AllQuads(srcs) ensures q in AllQuads(files) {
      var i := if q in AllQuads(base) then rt.PartFor(q.lbl) else rt.StrictTarget(q.lbl).value;
      if q in AllQuads(base) { PlacedAt(rt, base, q); }
      assert q in files[i].quads;
    }
  }

  /** Into empty partitions the union of the destination is the union of the source. */
  lemma MigrationIntoEmpty(rt: Routing, srcs: seq<File>, base: seq<File>, copyCommits: bool)
    requires rt.Valid() && |base| == |rt.names| && rt.routeLabel.Some? && QuadsRoutable(rt, srcs)
    requires forall j | 0 <= j < |base| :: base[j].quads == {}
    ensures Placed(rt, Migrated(rt, srcs, base, copyCommits))
    ensures AllQuads(Migrated(rt, srcs, base, copyCommits)) == AllQuads(srcs)
  {
    assert AllQuads(base) == {};
    MigrationConserves(rt, srcs, base, copyCommits);
  }

  // ---- commits and their ops stay together ----

  lemma RoutedOpsSnoc(rt: Routing, commits: map<Bytes, CommitRow>, ops: seq<(Bytes, OpRow)>,
                     row: (Bytes, OpRow), j: nat)
    requires rt.Valid() && rt.routeLabel.Some?
    ensures RoutedOps(rt, commits, ops + [row], j)
         == RoutedOps(rt, commits, ops, j) + if OpTo(rt, commits, row.0, j) then [row] else []
  {
    assert (ops + [row])[..|ops|] == ops;
  }

  lemma {:induction false} RoutedOpsRows(rt: Routing, commits: map<Bytes, CommitRow>, ops: seq<(Bytes, OpRow)>,
          j: nat, id: Bytes)
    requires rt.Valid() && rt.routeLabel.Some?
    ensures RowsFor(RoutedOps(rt, commits, ops, j), id) == if OpTo(rt, commits, id, j) then RowsFor(ops, id) else []
  {
    if ops == [] {
      hide OpTo;
    } else {
      hide RoutedOps, RowsFor, Routing.Valid, Routing.StrictTarget;
      var front, last := ops[..|ops| - 1], ops[|ops| - 1];
      assert ops == front + [last];
      RoutedOpsRows(rt, commits, front, j, id);
      RoutedOpsSnoc(rt, commits, front, last, j);
      RowsForSnoc(RoutedOps(rt, commits, front, j), last, id);
      RowsForSnoc(front, last, id);
      assert RoutedOps(rt, commits, front, j) + [] == RoutedOps(rt, commits, front, j);
    }
  }

  /** A commit's ops that go to partition j, source file by source file. */
  function RowsTo(rt: Routing, srcs: seq<File>, id: Bytes, j: nat): seq<OpRow>
    requires rt.Valid() && rt.routeLabel.Some?
  {
    if srcs == [] then []
    else
      var src := srcs[|srcs| - 1];
      RowsTo(rt, srcs[..|srcs| - 1], id, j) + if OpTo(rt, src.commits, id, j) then RowsFor(src.ops, id) else []
  }

  /** All of a commit's ops in the source: those in files that have the commit. */
  function SourceRows(srcs: seq<File>, id: Bytes): seq<OpRow> {
    if srcs == [] then []
    else
      var src := srcs[|srcs| - 1];
      SourceRows(srcs[..|srcs| - 1], id) + if id in src.commits then RowsFor(src.ops, id) else []
  }

  /** The commit row partition j gets: that of the first source file that sends it one. */
  function RowTo(rt: Routing, srcs: seq<File>, id: Bytes, j: nat): Option<CommitRow>
    requires rt.Valid() && rt.routeLabel.Some?
  {
    if srcs == [] then None
    else
      var src := srcs[|srcs| - 1];
      var earlier := RowTo(rt, srcs[..|srcs| - 1], id, j);
      if earlier.Some? then earlier else if OpTo(rt, src.commits, id, j) then Some(src.commits[id]) else None
  }

  /** Of several source files the first that sends a commit to a partition gives its row. */
  lemma {:induction false} FirstRowWins(rt: Routing, srcs: seq<File>, id: Bytes, j: nat, a: nat)
    requires rt.Valid() && rt.routeLabel.Some? && a < |srcs|
    requires id in srcs[a].commits && rt.StrictTarget(srcs[a].commits[id].lbl) == Some(j)
    requires forall b | 0 <= b < a && id in srcs[b].commits :: rt.StrictTarget(srcs[b].commits[id].lbl) != Some(j)
    ensures RowTo(rt, srcs, id, j) == Some(srcs[a].commits[id])
  {
    hide Routing.Valid, Routing.StrictTarget;
    var n := |srcs| - 1;
    if a < n {
      FirstRowWins(rt, srcs[..n], id, j, a);
    } else {
      RowToSome(rt, srcs[..n], id, j);
    }
  }

  /** What copying leaves of one commit in partition j, whichever source files have it. */
  lemma {:induction false} CopiedCommit(rt: Routing, srcs: seq<File>, f: File, j: nat, id: Bytes)
    requires rt.Valid() && rt.routeLabel.Some?
    ensures var f', row := CopiedAudit(rt, srcs, f, j), RowTo(rt, srcs, id, j);
      && RowsFor(f'.ops, id) == RowsFor(f.ops, id) + RowsTo(rt, srcs, id, j)
      && (id in f'.commits <==> id in f.commits || row.Some?)
      && (id in f'.commits ==> f'.commits[id] == if id in f.commits then f.commits[id] else row.value)
  {
    hide Routing.StrictTarget, Routing.Valid, RoutedOps, RowsFor;
    if srcs == [] {
      assert RowsFor(f.ops, id) + [] == RowsFor(f.ops, id);
    } else {
      var front, src := srcs[..|srcs| - 1], srcs[|srcs| - 1];
      var g := CopiedAudit(rt, front, f, j);
      CopiedCommit(rt, front, f, j, id);
      RoutedOpsRows(rt, src.commits, src.ops, j, id);
      RowsForConcat(g.ops, RoutedOps(rt, src.commits, src.ops, j), id);
    }
  }

  lemma {:induction false} RowToSome(rt: Routing, srcs: seq<File>, id: Bytes, j: nat)
    requires rt.Valid() && rt.routeLabel.Some?
    ensures RowTo(rt, srcs, id, j).Some? <==> exists a | 0 <= a < |srcs| :: OpTo(rt, srcs[a].commits, id, j)
  {
    hide OpTo;
    if srcs != [] {
      var n := |srcs| - 1;
      RowToSome(rt, srcs[..n], id, j);
      if a :| 0 <= a < n && OpTo(rt, srcs[a].commits, id, j) {
        assert OpTo(rt, srcs[..n][a].commits, id, j);
      }
    }
  }

  /** Every source file that has the commit routes it to partition t. */
  predicate AllTo(rt: Routing, srcs: seq<File>, id: Bytes, t: nat)
    requires rt.Valid() && rt.routeLabel.Some?
  {
    forall a | 0 <= a < |srcs| && id in srcs[a].commits :: OpTo(rt, srcs[a].commits, id, t)
  }

  /** If all files send a commit to one partition, all its ops go there, and none anywhere else. */
  lemma {:induction false} AllRowsTogether(rt: Routing, srcs: seq<File>, id: Bytes, t: nat, j: nat)
    requires rt.Valid() && rt.routeLabel.Some? && AllTo(rt, srcs, id, t)
    ensures RowsTo(rt, srcs, id, j) == if j == t then SourceRows(srcs, id) else []
  {
    if srcs != [] {
      var front, src := srcs[..|srcs| - 1], srcs[|srcs| - 1];
      assert forall a | 0 <= a < |front| :: front[a] == srcs[a];
      AllRowsTogether(rt, front, id, t, j);
      hide RowsFor;
    }
  }

  /** The destination partition's commits and ops of one commit, after a migration. */
  lemma MigratedCommit(rt: Routing, srcs: seq<File>, base: seq<File>, id: Bytes, j: nat)
    requires rt.Valid() && rt.routeLabel.Some? && j < |base|
    ensures var f, row := Migrated(rt, srcs, base, true)[j], RowTo(rt, srcs, id, j);
      && (id in f.commits <==> id in base[j].commits || row.Some?)
      && (id in f.commits ==> f.commits[id] == if id in base[j].commits then base[j].commits[id] else row.value)
      && RowsFor(f.ops, id) == RowsFor(base[j].ops, id) + RowsTo(rt, srcs, id, j)
  {
    hide Routing.StrictTarget, Routing.Valid, CopiedAudit, RoutedTo, AllQuads, RowsTo, RowTo, RowsFor;
    var loaded := WithQuads(rt, AllQuads(srcs), base[j], j);
    assert Migrated(rt, srcs, base, true)[j] == CopiedAudit(rt, srcs, loaded, j);
    CopiedCommit(rt, srcs, loaded, j, id);
  }

  /** Some source file sends the commit to partition j. */
  predicate SentTo(rt: Routing, srcs: seq<File>, id: Bytes, j: nat)
    requires rt.Valid() && rt.routeLabel.Some?
  {
    exists a | 0 <= a < |srcs| :: OpTo(rt, srcs[a].commits, id, j)
  }

  /** A partition has a commit after a migration exactly if it had it before or was sent it. */
  lemma HasAfter(rt: Routing, srcs: seq<File>, base: seq<File>, id: Bytes, j: nat)
    requires rt.Valid() && rt.routeLabel.Some? && j < |base|
    ensures id in Migrated(rt, srcs, base, true)[j].commits <==> id in base[j].commits || SentTo(rt, srcs, id, j)
  {
    hide Migrated, RowTo, RowsTo, RowsFor, OpTo, Routing.Valid;
    MigratedCommit(rt, srcs, base, id, j);
    RowToSome(rt, srcs, id, j);
  }

  /** The commit is in at most one of the files. */
  predicate InOneFile(files: seq<File>, id: Bytes) {
    forall j, k | 0 <= j < |files| && 0 <= k < |files| && id in files[j].commits && id in files[k].commits :: j == k
  }

  /** Every source file that has the commit agrees with any other on where it goes. */
  predicate SourcesAgree(rt: Routing, srcs: seq<File>, id: Bytes)
    requires rt.Valid() && rt.routeLabel.Some?
  {
    forall a, b | 0 <= a < |srcs| && 0 <= b < |srcs| && id in srcs[a].commits && id in srcs[b].commits ::
      rt.StrictTarget(srcs[a].commits[id].lbl) == rt.StrictTarget(srcs[b].commits[id].lbl)
  }

  /** The sources agree with the destination too: where it has the commit already is where they send it. */
  predicate OneHome(rt: Routing, srcs: seq<File>, base: seq<File>, id: Bytes)
    requires rt.Valid() && rt.routeLabel.Some?
  {
    && InOneFile(base, id) && SourcesAgree(rt, srcs, id)
    && forall a, j | 0 <= a < |srcs| && 0 <= j < |base| && id in srcs[a].commits && id in base[j].commits ::
      rt.StrictTarget(srcs[a].commits[id].lbl) == Some(j)
  }

  lemma TargetKnown(rt: Routing, srcs: seq<File>, a: nat, id: Bytes)
    requires rt.Valid() && rt.routeLabel.Some? && CommitsRoutable(rt, srcs) && a < |srcs| && id in srcs[a].commits
    ensures var t := rt.StrictTarget(srcs[a].commits[id].lbl);
      t.Some? && t.value < |rt.names| && SentTo(rt, srcs, id, t.value)
  {
    assert CommitsRoutableIn(rt, srcs[a]);
    assert OpTo(rt, srcs[a].commits, id, rt.StrictTarget(srcs[a].commits[id].lbl).value);
  }

  /**
   * Whatever the destination holds, a migration leaves a commit in one partition exactly if the destination
   * has it in at most one, the source files that have it agree on where its label routes, and that is where
   * the destination has it.
   */
  lemma OnePartitionIff(rt: Routing, srcs: seq<File>, base: seq<File>, id: Bytes)
    requires rt.Valid() && |base| == |rt.names| && rt.routeLabel.Some? && CommitsRoutable(rt, srcs)
    ensures InOneFile(Migrated(rt, srcs, base, true), id) <==> OneHome(rt, srcs, base, id)
  {
    var files := Migrated(rt, srcs, base, true);
    hide Routing.Valid, Migrated, CommitsRoutable, Routing.StrictTarget;
    forall j | 0 <= j < |files|
      ensures id in files[j].commits <==> id in base[j].commits || SentTo(rt, srcs, id, j)
    {
      HasAfter(rt, srcs, base, id, j);
    }
    forall a | 0 <= a < |srcs| && id in srcs[a].commits
      ensures var t := rt.StrictTarget(srcs[a].commits[id].lbl);
        t.Some? && t.value < |files| && id in files[t.value].commits
    {
      TargetKnown(rt, srcs, a, id);
    }
    if InOneFile(files, id) {
      forall j | 0 <= j < |base| && id in base[j].commits ensures id in files[j].commits {}
    }
    if OneHome(rt, srcs, base, id) {
      forall j, k | 0 <= j < |files| && 0 <= k < |files| && id in files[j].commits && id in files[k].commits
        ensures j == k
      {
        if id !in base[j].commits { var a :| 0 <= a < |srcs| && OpTo(rt, srcs[a].commits, id, j); }
        if id !in base[k].commits { var b :| 0 <= b < |srcs| && OpTo(rt, srcs[b].commits, id, k); }
      }
    }
  }

  /** Into empty partitions the sources need only agree with each other, as they do if equal ids carry equal labels. */
  lemma OnePartitionFromEmpty(rt: Routing, srcs: seq<File>, base: seq<File>, id: Bytes)
    requires rt.Valid() && |base| == |rt.names| && rt.routeLabel.Some? && CommitsRoutable(rt, srcs)
    requires forall k | 0 <= k < |base| :: base[k] == EMPTY_FILE
    ensures InOneFile(Migrated(rt, srcs, base, true), id) <==> SourcesAgree(rt, srcs, id)
  {
    hide SourcesAgree, Migrated, CommitsRoutable;
    OnePartitionIff(rt, srcs, base, id);
  }

  /**
   * Then the partition its label routes to has the commit and gains all its ops, in source order, and no
   * other has it or gains any.
   */
  lemma AuditInOnePartition(rt: Routing, srcs: seq<File>, base: seq<File>, a: nat, id: Bytes, j: nat)
    requires rt.Valid() && |base| == |rt.names| && rt.routeLabel.Some? && CommitsRoutable(rt, srcs)
    requires a < |srcs| && id in srcs[a].commits && OneHome(rt, srcs, base, id) && j < |base|
    ensures var f, t := Migrated(rt, srcs, base, true)[j], rt.StrictTarget(srcs[a].commits[id].lbl).value;
      && (id in f.commits <==> j == t)
      && RowsFor(f.ops, id) == RowsFor(base[j].ops, id) + if j == t then SourceRows(srcs, id) else []
  {
    TargetKnown(rt, srcs, a, id);
    var t := rt.StrictTarget(srcs[a].commits[id].lbl).value;
    hide Routing.Valid, RowsTo, RowTo, Migrated, RowsFor, SourceRows, Routing.StrictTarget, CommitsRoutable;
    AllRowsTogether(rt, srcs, id, t, j);
    MigratedCommit(rt, srcs, base, id, j);
    HasAfter(rt, srcs, base, id, j);
  }

  // ---- running it again under another router ----

  /**
   * A second run into the same destination under another router leaves a commit in one partition exactly if
   * both routers send it to the same one, from whichever source file.
   */
  lemma TwoRoutersIff(rt: Routing, rt': Routing, srcs: seq<File>, base: seq<File>, id: Bytes)
    requires rt.Valid() && rt.routeLabel.Some? && CommitsRoutable(rt, srcs)
    requires rt'.Valid() && rt'.routeLabel.Some? && CommitsRoutable(rt', srcs)
    requires |base| == |rt.names| == |rt'.names| && forall k | 0 <= k < |base| :: base[k] == EMPTY_FILE
    ensures InOneFile(Migrated(rt', srcs, Migrated(rt, srcs, base, true), true), id)
      <==> forall a, b | 0 <= a < |srcs| && 0 <= b < |srcs| && id in srcs[a].commits && id in srcs[b].commits ::
             rt.StrictTarget(srcs[a].commits[id].lbl) == rt'.StrictTarget(srcs[b].commits[id].lbl)
  {
    var once := Migrated(rt, srcs, base, true);
    hide Routing.Valid, Migrated, CommitsRoutable, Routing.StrictTarget;
    forall j | 0 <= j < |once| ensures id in once[j].commits <==> SentTo(rt, srcs, id, j) {
      HasAfter(rt, srcs, base, id, j);
    }
    OnePartitionIff(rt', srcs, once, id);
    forall a | 0 <= a < |srcs| && id in srcs[a].commits
      ensures var t := rt.StrictTarget(srcs[a].commits[id].lbl);
        t.Some? && t.value < |once| && id in once[t.value].commits
    {
      TargetKnown(rt, srcs, a, id);
    }
    HomesMeet(rt, rt', srcs, once, id);
  }

  lemma HomesMeet(rt: Routing, rt': Routing, srcs: seq<File>, once: seq<File>, id: Bytes)
    requires rt.Valid() && rt.routeLabel.Some? && rt'.Valid() && rt'.routeLabel.Some?
    requires forall j | 0 <= j < |once| :: id in once[j].commits <==> SentTo(rt, srcs, id, j)
    requires forall a | 0 <= a < |srcs| && id in srcs[a].commits ::
      var t := rt.StrictTarget(srcs[a].commits[id].lbl); t.Some? && t.value < |once| && id in once[t.value].commits
    ensures OneHome(rt', srcs, once, id)
      <==> forall a, b | 0 <= a < |srcs| && 0 <= b < |srcs| && id in srcs[a].commits && id in srcs[b].commits ::
             rt.StrictTarget(srcs[a].commits[id].lbl) == rt'.StrictTarget(srcs[b].commits[id].lbl)
  {
    hide Routing.Valid, Routing.StrictTarget;
  }

  /** A source file with one commit and no quads, two partitions, and two routers that name different ones. */
  const SPLIT_ID: Bytes := [1]

  const SPLIT_SOURCE: File := File({}, map[SPLIT_ID := CommitRow(0, [], [])], [])

  function ToPartition(name: Bytes): Routing {
    Routing([[1], [2]], map[[1] := 0, [2] := 1], [1], Some((_: Bytes) => name), None)
  }

  lemma ToPartitionIs(name: Bytes, i: nat)
    requires i < 2 && name == [[1], [2]][i]
    ensures var rt := ToPartition(name);
      && rt.Valid() && rt.routeLabel.Some? && |rt.names| == 2
      && rt.StrictTarget(SPLIT_SOURCE.commits[SPLIT_ID].lbl) == Some(i) && CommitsRoutable(rt, [SPLIT_SOURCE])
  {
    assert [1] == ToPartition(name).names[0] && [2] == ToPartition(name).names[1];
  }

  /** Migrated to the first partition and then to the second, the commit is in both. */
  lemma SecondRouterSplits()
    ensures var rt, rt' := ToPartition([1]), ToPartition([2]);
      && rt.Valid() && rt'.Valid() && CommitsRoutable(rt, [SPLIT_SOURCE]) && CommitsRoutable(rt', [SPLIT_SOURCE])
      && !InOneFile(Migrated(rt', [SPLIT_SOURCE], Migrated(rt, [SPLIT_SOURCE], [EMPTY_FILE, EMPTY_FILE], true), true),
                    SPLIT_ID)
  {
    ToPartitionIs([1], 0);
    ToPartitionIs([2], 1);
    assert [SPLIT_SOURCE][0] == SPLIT_SOURCE && SPLIT_ID in SPLIT_SOURCE.commits;
    hide *;
    var rt, rt' := ToPartition([1]), ToPartition([2]);
    TwoRoutersIff(rt, rt', [SPLIT_SOURCE], [EMPTY_FILE, EMPTY_FILE], SPLIT_ID);
  }

  // ---- running it again ----

  lemma {:induction false} CommitsAllThere(rt: Routing, srcs: seq<File>, f: File, j: nat, i: nat)
    requires rt.Valid() && rt.routeLabel.Some? && i < |srcs|
    ensures RoutedCommits(rt, srcs[i].commits, j).Keys <= CopiedAudit(rt, srcs, f, j).commits.Keys
  {
    hide Routing.StrictTarget, Routing.Valid, RoutedCommits;
    var n := |srcs| - 1;
    if i < n { CommitsAllThere(rt, srcs[..n], f, j, i); }
  }

  lemma {:induction false} CommitsAbsorbed(rt: Routing, srcs: seq<File>, f: File, j: nat)
    requires rt.Valid() && rt.routeLabel.Some?
    requires forall i | 0 <= i < |srcs| :: RoutedCommits(rt, srcs[i].commits, j).Keys <= f.commits.Keys
    ensures CopiedAudit(rt, srcs, f, j).commits == f.commits
  {
    hide Routing.StrictTarget, Routing.Valid, RoutedCommits;
    if srcs != [] {
      var n := |srcs| - 1;
      assert forall i | 0 <= i < n :: srcs[..n][i] == srcs[i];
      CommitsAbsorbed(rt, srcs[..n], f, j);
    }
  }

  /**
   * Running a migration again adds no quad and no commit; the op rows, which have no key, are appended
   * again, so every copied commit has its copied rows twice.
   */
  lemma MigrateAgain(rt: Routing, srcs: seq<File>, base: seq<File>, j: nat, id: Bytes)
    requires rt.Valid() && rt.routeLabel.Some? && j < |base|
    ensures var once := Migrated(rt, srcs, base, true);
      var twice := Migrated(rt, srcs, once, true);
      && twice[j].quads == once[j].quads && twice[j].commits == once[j].commits
      && RowsFor(once[j].ops, id) == RowsFor(base[j].ops, id) + RowsTo(rt, srcs, id, j)
      && RowsFor(twice[j].ops, id) == RowsFor(once[j].ops, id) + RowsTo(rt, srcs, id, j)
  {
    var once := Migrated(rt, srcs, base, true);
    hide Routing.StrictTarget, Routing.Valid, CopiedAudit, RowsTo, RowTo, RowsFor;
    var loaded := WithQuads(rt, AllQuads(srcs), base[j], j);
    var reloaded := WithQuads(rt, AllQuads(srcs), once[j], j);
    assert once[j] == CopiedAudit(rt, srcs, loaded, j);
    assert reloaded.quads == once[j].quads;
    forall i | 0 <= i < |srcs| ensures RoutedCommits(rt, srcs[i].commits, j).Keys <= once[j].commits.Keys {
      CommitsAllThere(rt, srcs, loaded, j, i);
    }
    CommitsAbsorbed(rt, srcs, reloaded, j);
    CopiedCommit(rt, srcs, loaded, j, id);
    CopiedCommit(rt, srcs, reloaded, j, id);
  }
}
