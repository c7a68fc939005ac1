/** copyAudit: the commits and op rows of one source file, routed by commit label. */
module MigrateAudit {
  import opened ByteOrder
  import opened Migration
  import opened Partitioned
  import opened Quads
  import opened Results

  /** The commits routed to a name, given each commit's target. */
  function IdsTo(targets: map<Bytes, Bytes>, name: Bytes): set<Bytes> {
    set id | id in targets && targets[id] == name
  }

  function IdsToAny(targets: map<Bytes, Bytes>, names: set<Bytes>): set<Bytes> {
    set id | id in targets && targets[id] in names
  }

  function Picked(commits: map<Bytes, CommitRow>, ids: set<Bytes>): map<Bytes, CommitRow> {
    map id | id in ids && id in commits :: commits[id]
  }

  /** A group lists, without repeats, the commits routed to its name. */
  ghost predicate GroupOk(targets: map<Bytes, Bytes>, name: Bytes, group: seq<Bytes>) {
    Elements(group) == IdsTo(targets, name) && |group| == |Elements(group)|
  }

  /** There is a group for each name some commit is routed to, and for no other. */
  ghost predicate Grouped(targets: map<Bytes, Bytes>, groups: map<Bytes, seq<Bytes>>) {
    && (forall n | n in groups :: groups[n] != [] && GroupOk(targets, n, groups[n]))
    && (forall id | id in targets :: targets[id] in groups)
  }

  function GroupAt(groups: map<Bytes, seq<Bytes>>, name: Bytes): seq<Bytes> {
    if name in groups then groups[name] else []
  }

  lemma GroupGrows(targets: map<Bytes, Bytes>, name: Bytes, group: seq<Bytes>, id: Bytes)
    requires GroupOk(targets, name, group) && id !in targets
    ensures GroupOk(targets[id := name], name, group + [id])
  {
    assert Elements(group + [id]) == Elements(group) + {id} && id !in Elements(group);
    assert IdsTo(targets[id := name], name) == IdsTo(targets, name) + {id};
  }

  lemma GroupStays(targets: map<Bytes, Bytes>, name: Bytes, group: seq<Bytes>, id: Bytes, other: Bytes)
    requires GroupOk(targets, name, group) && id !in targets && other != name
    ensures GroupOk(targets[id := other], name, group)
  {
    assert IdsTo(targets[id := other], name) == IdsTo(targets, name);
  }

  lemma GroupedNext(targets: map<Bytes, Bytes>, groups: map<Bytes, seq<Bytes>>, id: Bytes, name: Bytes)
    requires Grouped(targets, groups) && id !in targets
    ensures Grouped(targets[id := name], groups[name := GroupAt(groups, name) + [id]])
  {
    assert name !in groups ==> GroupOk(targets, name, []);
    hide GroupOk;
    GroupGrows(targets, name, GroupAt(groups, name), id);
    forall n | n in groups && n != name ensures GroupOk(targets[id := name], n, groups[n]) {
      GroupStays(targets, n, groups[n], id, name);
    }
  }

  /** commitToPart: the name each commit's label routes to. */
  ghost predicate Targeted(rt: Routing, commits: map<Bytes, CommitRow>, done: set<Bytes>, targets: map<Bytes, Bytes>)
    requires rt.routeLabel.Some? && done <= commits.Keys
  {
    targets.Keys == done && forall id | id in done :: targets[id] == rt.TargetName(commits[id].lbl)
  }

  /** The scan of the commits, in any row order. */
  method GroupCommits(rt: Routing, commits: map<Bytes, CommitRow>)
    returns (groups: map<Bytes, seq<Bytes>>, commitToPart: map<Bytes, Bytes>)
    requires rt.routeLabel.Some?
    ensures Grouped(commitToPart, groups) && Targeted(rt, commits, commits.Keys, commitToPart)
  {
    groups, commitToPart := map[], map[];
    var rest := commits.Keys;
    hide Routing.TargetName;
    while rest != {}
      invariant rest <= commits.Keys
      invariant Grouped(commitToPart, groups) && Targeted(rt, commits, commits.Keys - rest, commitToPart)
      decreases rest
    {
      hide Grouped;
      var id :| id in rest;
      var target := rt.TargetName(commits[id].lbl);
      GroupedNext(commitToPart, groups, id, target);
      groups := groups[target := GroupAt(groups, target) + [id]];
      commitToPart := commitToPart[id := target];
      rest := rest - {id};
    }
  }

  lemma InsertNext(table: map<Bytes, CommitRow>, base: map<Bytes, CommitRow>, commits: map<Bytes, CommitRow>,
                   s: set<Bytes>, id: Bytes)
    requires table == Picked(commits, s) + base && id in commits
    ensures Picked(commits, s + {id}) + base == if id in table then table else table[id := commits[id]]
  {}

  /** One partition's INSERT OR IGNORE of its commits: rows already there win. */
  method InsertCommits(f: File, commits: map<Bytes, CommitRow>, ids: seq<Bytes>) returns (f': File)
    requires forall id | id in ids :: id in commits
    ensures f' == f.(commits := Picked(commits, Elements(ids)) + f.commits)
  {
    var table := f.commits;
    assert Picked(commits, Elements(ids[..0])) + f.commits == f.commits;
    hide Picked, Elements;
    for i := 0 to |ids|
      invariant table == Picked(commits, Elements(ids[..i])) + f.commits
    {
      ElementsNext(ids, i);
      InsertNext(table, f.commits, commits, Elements(ids[..i]), ids[i]);
      if ids[i] !in table { table := table[ids[i] := commits[ids[i]]]; }
    }
    assert ids[..|ids|] == ids;
    f' := f.(commits := table);
  }

  /** A destination file with the commits of the named partitions inserted. */
  ghost predicate CommitsIn(dst: Store, commits: map<Bytes, CommitRow>, files: seq<File>, names: set<Bytes>)
    reads dst.parts
  {
    && dst.Valid() && dst.routing.routeLabel.Some? && |files| == |dst.parts|
    && forall j | 0 <= j < |files| ::
      dst.parts[j].file
      == if dst.parts[j].name in names
         then files[j].(commits := RoutedCommits(dst.routing, commits, j) + files[j].commits)
         else files[j]
  }

  lemma RoutedAre(rt: Routing, commits: map<Bytes, CommitRow>, targets: map<Bytes, Bytes>, j: nat)
    requires rt.Valid() && rt.routeLabel.Some? && j < |rt.names| && Targeted(rt, commits, commits.Keys, targets)
    ensures RoutedCommits(rt, commits, j) == Picked(commits, IdsTo(targets, rt.names[j]))
  {
    hide Routing.TargetName;
  }

  lemma IdsToMore(targets: map<Bytes, Bytes>, names: set<Bytes>, n: Bytes)
    requires n !in names
    ensures |IdsToAny(targets, names + {n})| == |IdsToAny(targets, names)| + |IdsTo(targets, n)|
  {
    assert IdsToAny(targets, names + {n}) == IdsToAny(targets, names) + IdsTo(targets, n);
    assert IdsToAny(targets, names) !! IdsTo(targets, n);
  }

  lemma GroupRouted(rt: Routing, commits: map<Bytes, CommitRow>, targets: map<Bytes, Bytes>, name: Bytes,
                    ids: seq<Bytes>, t: nat)
    requires rt.Valid() && rt.routeLabel.Some? && t < |rt.names| && rt.names[t] == name
    requires Targeted(rt, commits, commits.Keys, targets) && GroupOk(targets, name, ids)
    ensures forall id | id in ids :: id in commits
    ensures Picked(commits, Elements(ids)) == RoutedCommits(rt, commits, t)
  {
    RoutedAre(rt, commits, targets, t);
    hide RoutedCommits, Routing.TargetName, Picked;
    assert forall id | id in ids :: id in Elements(ids);
  }

  /** One group's transaction; a name the store does not have dereferences a nil connection. */
  method InsertGroup(dst: Store, commits: map<Bytes, CommitRow>, name: Bytes, ids: seq<Bytes>,
                     ghost files: seq<File>, ghost names: set<Bytes>, ghost targets: map<Bytes, Bytes>)
    returns (r: Result<()>)
    requires CommitsIn(dst, commits, files, names) && name !in names
    requires Targeted(dst.routing, commits, commits.Keys, targets) && GroupOk(targets, name, ids)
    modifies dst.parts`file
    ensures r == if name in dst.routing.byName then Ok(()) else Err(NilConnection)
    ensures CommitsIn(dst, commits, files, if r.Ok? then names + {name} else names)
  {
    hide RoutedCommits, Picked, Targeted, GroupOk, Elements, Routing.TargetName;
    if name !in dst.routing.byName { return Err(NilConnection); }
    var t := dst.routing.byName[name];
    GroupRouted(dst.routing, commits, targets, name, ids, t);
    var file := InsertCommits(dst.parts[t].file, commits, ids);
    dst.parts[t].file := file;
    return Ok(());
  }

  lemma GroupIs(targets: map<Bytes, Bytes>, groups: map<Bytes, seq<Bytes>>, name: Bytes)
    requires Grouped(targets, groups) && name in groups
    ensures GroupOk(targets, name, groups[name]) && |groups[name]| == |IdsTo(targets, name)|
  {}

  /** The groups in any order; stops at the first unknown name. */
  method InsertGroups(dst: Store, commits: map<Bytes, CommitRow>, groups: map<Bytes, seq<Bytes>>,
                      ghost files: seq<File>, ghost targets: map<Bytes, Bytes>)
    returns (r: Result<nat>, ghost names: set<Bytes>)
    requires CommitsIn(dst, commits, files, {})
    requires Targeted(dst.routing, commits, commits.Keys, targets) && Grouped(targets, groups)
    modifies dst.parts`file
    ensures CommitsIn(dst, commits, files, names)
    ensures r.Ok? <==> groups.Keys <= dst.routing.byName.Keys
    ensures r.Err? ==> r.error == NilConnection
    ensures r.Ok? ==> names == groups.Keys && r.value == |commits|
  {
    hide *;
    var order := Enumerate(groups.Keys);
    var copied := 0;
    names := {};
    NoIds(targets, order);
    for i := 0 to |order|
      invariant names == Elements(order[..i]) && names <= dst.routing.byName.Keys
      invariant CommitsIn(dst, commits, files, names)
      invariant copied == |IdsToAny(targets, names)|
    {
      var name := order[i];
      DistinctNext(order, i);
      ElementIn(order, i);
      var inserted := InsertOne(dst, commits, groups, name, files, names, targets);
      if inserted.Err? { return Err(inserted.error), names; }
      copied, names := copied + |groups[name]|, names + {name};
    }
    CommitsInRouted(dst, commits, files, names);
    AllIds(dst.routing, commits, targets, groups);
    return Ok(copied), names;
  }

  lemma CommitsInRouted(dst: Store, commits: map<Bytes, CommitRow>, files: seq<File>, names: set<Bytes>)
    requires CommitsIn(dst, commits, files, names)
    ensures dst.Valid() && dst.routing.routeLabel.Some?
  {
    hide Store.Valid, RoutedCommits;
  }

  /** The group of one name, known or not. */
  method InsertOne(dst: Store, commits: map<Bytes, CommitRow>, groups: map<Bytes, seq<Bytes>>, name: Bytes,
                   ghost files: seq<File>, ghost names: set<Bytes>, ghost targets: map<Bytes, Bytes>)
    returns (r: Result<()>)
    requires CommitsIn(dst, commits, files, names) && name in groups && name !in names
    requires Targeted(dst.routing, commits, commits.Keys, targets) && Grouped(targets, groups)
    modifies dst.parts`file
    ensures r == if name in dst.routing.byName then Ok(()) else Err(NilConnection)
    ensures CommitsIn(dst, commits, files, if r.Ok? then names + {name} else names)
    ensures |IdsToAny(targets, names + {name})| == |IdsToAny(targets, names)| + |groups[name]|
  {
    hide *;
    GroupIs(targets, groups, name);
    IdsToMore(targets, names, name);
    r := InsertGroup(dst, commits, name, groups[name], files, names, targets);
  }

  lemma NoIds(targets: map<Bytes, Bytes>, order: seq<Bytes>)
    ensures IdsToAny(targets, {}) == {} && Elements(order[..0]) == {} && order[..|order|] == order
  {}

  lemma ElementIn<T>(s: seq<T>, i: nat)
    requires i < |s|
    ensures s[i] in Elements(s)
  {}

  lemma AllIds(rt: Routing, commits: map<Bytes, CommitRow>, targets: map<Bytes, Bytes>, groups: map<Bytes, seq<Bytes>>)
    requires rt.routeLabel.Some? && Targeted(rt, commits, commits.Keys, targets) && Grouped(targets, groups)
    ensures IdsToAny(targets, groups.Keys) == commits.Keys
  {}

  /** The groups' names are all known exactly if every commit's label routes to a known name. */
  lemma GroupsKnown(rt: Routing, f: File, targets: map<Bytes, Bytes>, groups: map<Bytes, seq<Bytes>>)
    requires rt.Valid() && rt.routeLabel.Some?
    requires Targeted(rt, f.commits, f.commits.Keys, targets) && Grouped(targets, groups)
    ensures groups.Keys <= rt.byName.Keys <==> CommitsRoutableIn(rt, f)
  {
    hide Routing.TargetName;
    if CommitsRoutableIn(rt, f) {
      forall n | n in groups ensures n in rt.byName {
        assert groups[n][0] in Elements(groups[n]);
        assert targets[groups[n][0]] == n;
      }
    }
    if groups.Keys <= rt.byName.Keys {
      forall id | id in f.commits ensures rt.StrictTarget(f.commits[id].lbl).Some? { assert targets[id] in groups; }
    }
  }

  // ---- the op rows ----

  type Txs = map<Bytes, seq<(Bytes, OpRow)>>

  function TxAt(txs: Txs, name: Bytes): seq<(Bytes, OpRow)> {
    if name in txs then txs[name] else []
  }

  /** Each partition's transaction holds the ops so far that go there. */
  ghost predicate TxsHold(rt: Routing, commits: map<Bytes, CommitRow>, ops: seq<(Bytes, OpRow)>, txs: Txs)
    requires rt.Valid() && rt.routeLabel.Some?
  {
    forall j | 0 <= j < |rt.names| :: TxAt(txs, rt.names[j]) == RoutedOps(rt, commits, ops, j)
  }

  /** Ops whose commit is in the same source file. */
  function KnownOps(commits: map<Bytes, CommitRow>, ops: seq<(Bytes, OpRow)>): nat {
    if ops == [] then 0 else KnownOps(commits, ops[..|ops| - 1]) + if ops[|ops| - 1].0 in commits then 1 else 0
  }

  lemma KnownOpsSnoc(commits: map<Bytes, CommitRow>, ops: seq<(Bytes, OpRow)>, row: (Bytes, OpRow))
    ensures KnownOps(commits, ops + [row]) == KnownOps(commits, ops) + if row.0 in commits then 1 else 0
  {
    assert (ops + [row])[..|ops|] == ops;
  }

  /** An op goes to partition j exactly if its commit's target is that partition's name. */
  lemma OpToIs(rt: Routing, commits: map<Bytes, CommitRow>, targets: map<Bytes, Bytes>, id: Bytes, j: nat)
    requires rt.Valid() && rt.routeLabel.Some? && j < |rt.names| && Targeted(rt, commits, commits.Keys, targets)
    ensures OpTo(rt, commits, id, j) <==> id in targets && targets[id] == rt.names[j]
  {
    hide Routing.TargetName;
  }

  lemma TxsNext(rt: Routing, commits: map<Bytes, CommitRow>, targets: map<Bytes, Bytes>, ops: seq<(Bytes, OpRow)>,
                txs: Txs, row: (Bytes, OpRow))
    requires rt.Valid() && rt.routeLabel.Some? && Targeted(rt, commits, commits.Keys, targets)
    requires TxsHold(rt, commits, ops, txs)
    ensures row.0 !in targets ==> TxsHold(rt, commits, ops + [row], txs)
    ensures row.0 in targets ==>
      TxsHold(rt, commits, ops + [row], txs[targets[row.0] := TxAt(txs, targets[row.0]) + [row]])
  {
    hide RoutedOps, OpTo, Targeted;
    forall j | 0 <= j < |rt.names|
      ensures RoutedOps(rt, commits, ops + [row], j) == RoutedOps(rt, commits, ops, j)
        + if row.0 in targets && targets[row.0] == rt.names[j] then [row] else []
    {
      RoutedOpsSnoc(rt, commits, ops, row, j);
      OpToIs(rt, commits, targets, row.0, j);
    }
  }

  lemma RouteNone(rt: Routing, commits: map<Bytes, CommitRow>, ops: seq<(Bytes, OpRow)>)
    requires rt.Valid() && rt.routeLabel.Some?
    ensures TxsHold(rt, commits, ops[..0], map[]) && KnownOps(commits, ops[..0]) == 0 && ops[..|ops|] == ops
  {}

  lemma RouteNext(rt: Routing, commits: map<Bytes, CommitRow>, targets: map<Bytes, Bytes>, ops: seq<(Bytes, OpRow)>,
                  i: nat, txs: Txs)
    requires rt.Valid() && rt.routeLabel.Some? && Targeted(rt, commits, commits.Keys, targets)
    requires i < |ops| && TxsHold(rt, commits, ops[..i], txs)
    ensures var id := ops[i].0;
      if id in targets then
        && TxsHold(rt, commits, ops[..i + 1], txs[targets[id] := TxAt(txs, targets[id]) + [ops[i]]])
        && KnownOps(commits, ops[..i + 1]) == KnownOps(commits, ops[..i]) + 1
      else TxsHold(rt, commits, ops[..i + 1], txs) && KnownOps(commits, ops[..i + 1]) == KnownOps(commits, ops[..i])
  {
    assert ops[i].0 in targets.Keys <==> ops[i].0 in commits.Keys;
    hide *;
    assert ops[..i + 1] == ops[..i] + [ops[i]];
    TxsNext(rt, commits, targets, ops[..i], txs, ops[i]);
    KnownOpsSnoc(commits, ops[..i], ops[i]);
  }

  /** The op rows sorted into one transaction per partition; an op without a commit is skipped. */
  method RouteOps(ghost rt: Routing, ghost commits: map<Bytes, CommitRow>, commitToPart: map<Bytes, Bytes>,
                  ops: seq<(Bytes, OpRow)>)
    returns (txs: Txs, copied: nat)
    requires rt.Valid() && rt.routeLabel.Some? && Targeted(rt, commits, commits.Keys, commitToPart)
    ensures TxsHold(rt, commits, ops, txs) && copied == KnownOps(commits, ops)
  {
    txs, copied := map[], 0;
    RouteNone(rt, commits, ops);
    hide *;
    for i := 0 to |ops|
      invariant TxsHold(rt, commits, ops[..i], txs) && copied == KnownOps(commits, ops[..i])
    {
      var row := ops[i];
      RouteNext(rt, commits, commitToPart, ops, i, txs);
      if row.0 in commitToPart {
        var target := commitToPart[row.0];
        txs := txs[target := TxAt(txs, target) + [row]];
        copied := copied + 1;
      }
    }
  }

  /** Every file has its routed ops appended. */
  ghost predicate OpsIn(dst: Store, commits: map<Bytes, CommitRow>, ops: seq<(Bytes, OpRow)>, files: seq<File>, n: nat)
    reads dst.parts
  {
    && dst.Valid() && dst.routing.routeLabel.Some? && |files| == |dst.parts|
    && forall j | 0 <= j < |files| ::
      dst.parts[j].file
      == if j < n then files[j].(ops := files[j].ops + RoutedOps(dst.routing, commits, ops, j)) else files[j]
  }

  /** The per-partition transactions committed; their order does not matter, as each has its own file. */
  method CommitTxs(dst: Store, txs: Txs, ghost commits: map<Bytes, CommitRow>, ghost ops: seq<(Bytes, OpRow)>,
          ghost files: seq<File>)
    requires OpsIn(dst, commits, ops, files, 0) && TxsHold(dst.routing, commits, ops, txs)
    modifies dst.parts`file
    ensures OpsIn(dst, commits, ops, files, |files|)
  {
    for i := 0 to |dst.parts|
      invariant OpsIn(dst, commits, ops, files, i)
    {
      hide *;
      CommitTx(dst, txs, i, commits, ops, files);
    }
  }

  method CommitTx(dst: Store, txs: Txs, i: nat, ghost commits: map<Bytes, CommitRow>, ghost ops: seq<(Bytes, OpRow)>,
                  ghost files: seq<File>)
    requires i < |dst.parts| && OpsIn(dst, commits, ops, files, i) && TxsHold(dst.routing, commits, ops, txs)
    modifies {dst.parts[i]}`file
    ensures OpsIn(dst, commits, ops, files, i + 1)
  {
    hide RoutedOps, Routing.Valid, TxsHold;
    var conn := dst.parts[i];
    assert conn.file == files[i];
    TxIs(dst.routing, commits, ops, txs, i);
    conn.file := conn.file.(ops := conn.file.ops + TxAt(txs, conn.name));
  }

  lemma TxIs(rt: Routing, commits: map<Bytes, CommitRow>, ops: seq<(Bytes, OpRow)>, txs: Txs, i: nat)
    requires rt.Valid() && rt.routeLabel.Some? && i < |rt.names| && TxsHold(rt, commits, ops, txs)
    ensures TxAt(txs, rt.names[i]) == RoutedOps(rt, commits, ops, i)
  {}

  /** The destination files are these. */
  ghost predicate FilesAre(dst: Store, files: seq<File>)
    reads dst.parts
  {
    |files| == |dst.parts| && forall j | 0 <= j < |files| :: dst.parts[j].file == files[j]
  }

  /** One source file's audit rows, copied into every destination file. */
  function CopiedAll(rt: Routing, src: File, files: seq<File>): (r: seq<File>)
    requires rt.Valid() && rt.routeLabel.Some?
    ensures |r| == |files|
  {
    seq(|files|, j requires 0 <= j < |files| => CopyOne(rt, src, files[j], j))
  }

  /** The same quads, file by file. */
  predicate SameQuads(files: seq<File>, files': seq<File>) {
    |files| == |files'| && forall j | 0 <= j < |files| :: files'[j].quads == files[j].quads
  }

  ghost function WithCommits(rt: Routing, commits: map<Bytes, CommitRow>, files: seq<File>,
          names: set<Bytes>): (r: seq<File>)
    requires rt.Valid() && rt.routeLabel.Some? && |files| == |rt.names|
    ensures |r| == |files| && SameQuads(files, r)
  {
    seq(|files|, j requires 0 <= j < |files| =>
      if rt.names[j] in names then files[j].(commits := RoutedCommits(rt, commits, j) + files[j].commits) else files[j])
  }

  lemma CommitsInFiles(dst: Store, commits: map<Bytes, CommitRow>, files: seq<File>, names: set<Bytes>)
    requires CommitsIn(dst, commits, files, names)
    ensures FilesAre(dst, WithCommits(dst.routing, commits, files, names))
  {
    hide RoutedCommits;
  }

  /** With every commit's group inserted, each file has all its routed commits. */
  lemma AllCommitsIn(rt: Routing, commits: map<Bytes, CommitRow>, files: seq<File>, targets: map<Bytes, Bytes>,
                     groups: map<Bytes, seq<Bytes>>, j: nat)
    requires rt.Valid() && rt.routeLabel.Some? && |files| == |rt.names| && j < |files|
    requires Targeted(rt, commits, commits.Keys, targets) && Grouped(targets, groups)
    ensures WithCommits(rt, commits, files, groups.Keys)[j]
         == files[j].(commits := RoutedCommits(rt, commits, j) + files[j].commits)
  {
    RoutedAre(rt, commits, targets, j);
    hide RoutedCommits, Targeted;
    if rt.names[j] !in groups {
      assert IdsTo(targets, rt.names[j]) == {};
      assert Picked(commits, {}) == map[];
      assert map[] + files[j].commits == files[j].commits;
    }
  }

  lemma AllCommitsAre(rt: Routing, commits: map<Bytes, CommitRow>, files: seq<File>, targets: map<Bytes, Bytes>,
                      groups: map<Bytes, seq<Bytes>>)
    requires rt.Valid() && rt.routeLabel.Some? && |files| == |rt.names|
    requires Targeted(rt, commits, commits.Keys, targets) && Grouped(targets, groups)
    ensures forall j | 0 <= j < |files| ::
      WithCommits(rt, commits, files, groups.Keys)[j]
      == files[j].(commits := RoutedCommits(rt, commits, j) + files[j].commits)
  {
    hide *;
    forall j | 0 <= j < |files|
      ensures WithCommits(rt, commits, files, groups.Keys)[j]
           == files[j].(commits := RoutedCommits(rt, commits, j) + files[j].commits)
    {
      AllCommitsIn(rt, commits, files, targets, groups, j);
    }
  }

  lemma OpsInFiles(dst: Store, src: File, files: seq<File>, mid: seq<File>)
    requires OpsIn(dst, src.commits, src.ops, mid, |mid|) && |files| == |mid|
    requires forall j | 0 <= j < |mid| ::
      mid[j] == files[j].(commits := RoutedCommits(dst.routing, src.commits, j) + files[j].commits)
    ensures FilesAre(dst, CopiedAll(dst.routing, src, files))
  {
    hide RoutedOps, RoutedCommits;
  }

  /** One source file: its commits, then its ops. */
  method CopyFile(dst: Store, src: File, ghost files: seq<File>)
    returns (r: Result<(nat, nat)>, ghost files': seq<File>)
    requires dst.Valid() && dst.routing.routeLabel.Some? && FilesAre(dst, files)
    modifies dst.parts`file
    ensures r.Ok? <==> CommitsRoutableIn(dst.routing, src)
    ensures r.Err? ==> r.error == NilConnection
    ensures r.Ok? ==> r.value == (|src.commits|, KnownOps(src.commits, src.ops))
    ensures FilesAre(dst, files') && SameQuads(files, files')
    ensures r.Ok? ==> files' == CopiedAll(dst.routing, src, files)
  {
    hide *;
    ghost var rt := dst.routing;
    RoutedParts(dst);
    NoCommitsIn(dst, src.commits, files);
    var groups, targets := GroupCommits(dst.routing, src.commits);
    GroupsKnown(rt, src, targets, groups);
    var inserted, names := InsertGroups(dst, src.commits, groups, files, targets);
    CommitsInFiles(dst, src.commits, files, names);
    files' := WithCommits(rt, src.commits, files, names);
    if inserted.Err? { return Err(inserted.error), files'; }
    ghost var mid := files';
    AllCommitsAre(rt, src.commits, files, targets, groups);
    NoOpsIn(dst, src.commits, src.ops, mid);
    var txs, copied := RouteOps(rt, src.commits, targets, src.ops);
    CommitTxs(dst, txs, src.commits, src.ops, mid);
    OpsInFiles(dst, src, files, mid);
    CopiedQuads(rt, src, files);
    files' := CopiedAll(rt, src, files);
    return Ok((inserted.value, copied)), files';
  }

  lemma RoutedParts(dst: Store)
    requires dst.Valid()
    ensures dst.routing.Valid() && |dst.routing.names| == |dst.parts|
  {}

  lemma NoCommitsIn(dst: Store, commits: map<Bytes, CommitRow>, files: seq<File>)
    requires dst.Valid() && dst.routing.routeLabel.Some? && FilesAre(dst, files)
    ensures CommitsIn(dst, commits, files, {}) && |files| == |dst.parts|
  {
    hide RoutedCommits;
  }

  lemma NoOpsIn(dst: Store, commits: map<Bytes, CommitRow>, ops: seq<(Bytes, OpRow)>, files: seq<File>)
    requires dst.Valid() && dst.routing.routeLabel.Some? && FilesAre(dst, files)
    ensures OpsIn(dst, commits, ops, files, 0)
  {
    hide RoutedOps;
  }

  lemma CopiedQuads(rt: Routing, src: File, files: seq<File>)
    requires rt.Valid() && rt.routeLabel.Some?
    ensures SameQuads(files, CopiedAll(rt, src, files))
  {
    hide RoutedCommits, RoutedOps;
  }

  /** Commits and ops copied. */
  datatype AuditStats = AuditStats(commits: nat, ops: nat)

  function AuditCount(srcs: seq<File>): AuditStats {
    if srcs == [] then AuditStats(0, 0)
    else
      var front, src := AuditCount(srcs[..|srcs| - 1]), srcs[|srcs| - 1];
      AuditStats(front.commits + |src.commits|, front.ops + KnownOps(src.commits, src.ops))
  }

  function CopiedFrom(rt: Routing, srcs: seq<File>, files: seq<File>): (r: seq<File>)
    requires rt.Valid() && rt.routeLabel.Some?
    ensures |r| == |files|
  {
    seq(|files|, j requires 0 <= j < |files| => CopiedAudit(rt, srcs, files[j], j))
  }

  lemma CopiedFromNext(rt: Routing, srcs: seq<File>, n: nat, files: seq<File>)
    requires rt.Valid() && rt.routeLabel.Some? && n < |srcs|
    ensures CopiedFrom(rt, srcs[..n + 1], files) == CopiedAll(rt, srcs[n], CopiedFrom(rt, srcs[..n], files))
    ensures AuditCount(srcs[..n + 1]) == AuditStats(AuditCount(srcs[..n]).commits + |srcs[n].commits|,
                                                    AuditCount(srcs[..n]).ops + KnownOps(srcs[n].commits, srcs[n].ops))
  {
    assert srcs[..n + 1][..n] == srcs[..n];
    hide CopyOne;
  }

  /** copyAudit: source files in order, until one has a commit with an unknown target. */
  method CopyAudit(dst: Store, srcs: seq<File>, ghost files: seq<File>)
    returns (r: Result<AuditStats>, ghost files': seq<File>)
    requires dst.Valid() && dst.routing.routeLabel.Some? && FilesAre(dst, files)
    modifies dst.parts`file
    ensures r.Ok? <==> CommitsRoutable(dst.routing, srcs)
    ensures r.Err? ==> r.error == NilConnection
    ensures FilesAre(dst, files') && SameQuads(files, files')
    ensures r.Ok? ==> r.value == AuditCount(srcs) && files' == CopiedFrom(dst.routing, srcs, files)
  {
    ghost var rt := dst.routing;
    var stats := AuditStats(0, 0);
    files' := files;
    CopyStart(rt, srcs, files);
    hide *;
    for i := 0 to |srcs|
      invariant FilesAre(dst, files') && SameQuads(files, files') && files' == CopiedFrom(rt, srcs[..i], files)
      invariant stats == AuditCount(srcs[..i]) && CommitsRoutable(rt, srcs[..i])
    {
      CopiedFromNext(rt, srcs, i, files);
      RoutableNext(rt, srcs, i);
      ghost var before := files';
      var copied;
      copied, files' := CopyFile(dst, srcs[i], before);
      SameQuadsStep(files, before, files');
      if copied.Err? { return Err(copied.error), files'; }
      stats := AuditStats(stats.commits + copied.value.0, stats.ops + copied.value.1);
    }
    return Ok(stats), files';
  }

  lemma CopyStart(rt: Routing, srcs: seq<File>, files: seq<File>)
    requires rt.Valid() && rt.routeLabel.Some?
    ensures CopiedFrom(rt, srcs[..0], files) == files && SameQuads(files, files)
    ensures AuditCount(srcs[..0]) == AuditStats(0, 0) && CommitsRoutable(rt, srcs[..0]) && srcs[..|srcs|] == srcs
  {}

  lemma RoutableNext(rt: Routing, srcs: seq<File>, i: nat)
    requires rt.Valid() && rt.routeLabel.Some? && i < |srcs| && CommitsRoutable(rt, srcs[..i])
    ensures CommitsRoutableIn(rt, srcs[i]) <==> CommitsRoutable(rt, srcs[..i + 1])
    ensures !CommitsRoutableIn(rt, srcs[i]) ==> !CommitsRoutable(rt, srcs)
  {
    hide CommitsRoutableIn;
    assert srcs[..i + 1] == srcs[..i] + [srcs[i]];
    assert srcs[..i + 1][i] == srcs[i];
  }

  lemma SameQuadsStep(a: seq<File>, b: seq<File>, c: seq<File>)
    requires SameQuads(a, b) && SameQuads(b, c)
    ensures SameQuads(a, c)
  {}

  // ---- the ops counted are the rows the destination gains ----

  /** Op rows over some files. */
  function TotalOps(files: seq<File>): nat {
    if files == [] then 0 else TotalOps(files[..|files| - 1]) + |files[|files| - 1].ops|
  }

  /** Ops routed to the first n partitions. */
  function OpsRouted(rt: Routing, commits: map<Bytes, CommitRow>, ops: seq<(Bytes, OpRow)>, n: nat): nat
    requires rt.Valid() && rt.routeLabel.Some?
  {
    if n == 0 then 0 else OpsRouted(rt, commits, ops, n - 1) + |RoutedOps(rt, commits, ops, n - 1)|
  }

  lemma {:induction false} NoOpsRouted(rt: Routing, commits: map<Bytes, CommitRow>, n: nat)
    requires rt.Valid() && rt.routeLabel.Some?
    ensures OpsRouted(rt, commits, [], n) == 0
  {
    if n > 0 { NoOpsRouted(rt, commits, n - 1); }
  }

  /** One more op is routed to one partition, that of its commit, or to none if it has no commit. */
  lemma {:induction false} OpsRoutedSnoc(rt: Routing, commits: map<Bytes, CommitRow>, ops: seq<(Bytes, OpRow)>,
          row: (Bytes, OpRow), n: nat)
    requires rt.Valid() && rt.routeLabel.Some?
    requires forall id | id in commits :: rt.StrictTarget(commits[id].lbl).Some?
    ensures OpsRouted(rt, commits, ops + [row], n)
         == OpsRouted(rt, commits, ops, n)
            + if row.0 in commits && rt.StrictTarget(commits[row.0].lbl).value < n then 1 else 0
  {
    hide Routing.Valid, Routing.StrictTarget, RoutedOps;
    if n > 0 {
      OpsRoutedSnoc(rt, commits, ops, row, n - 1);
      RoutedOpsSnoc(rt, commits, ops, row, n - 1);
    }
  }

  lemma {:induction false} AllOpsRouted(rt: Routing, commits: map<Bytes, CommitRow>, ops: seq<(Bytes, OpRow)>)
    requires rt.Valid() && rt.routeLabel.Some?
    requires forall id | id in commits :: rt.StrictTarget(commits[id].lbl).Some?
    ensures OpsRouted(rt, commits, ops, |rt.names|) == KnownOps(commits, ops)
  {
    hide Routing.Valid, Routing.StrictTarget, OpsRouted;
    if ops == [] {
      NoOpsRouted(rt, commits, |rt.names|);
    } else {
      var front, last := ops[..|ops| - 1], ops[|ops| - 1];
      assert ops == front + [last];
      AllOpsRouted(rt, commits, front);
      OpsRoutedSnoc(rt, commits, front, last, |rt.names|);
    }
  }

  /** What the first n destination files gain from one source file. */
  lemma {:induction false} OpsGained(rt: Routing, src: File, files: seq<File>, n: nat)
    requires rt.Valid() && rt.routeLabel.Some? && n <= |files|
    ensures TotalOps(CopiedAll(rt, src, files)[..n]) == TotalOps(files[..n]) + OpsRouted(rt, src.commits, src.ops, n)
  {
    hide Routing.Valid, RoutedOps, RoutedCommits;
    if n > 0 {
      var copied := CopiedAll(rt, src, files);
      OpsGained(rt, src, files, n - 1);
      assert copied[..n][..n - 1] == copied[..n - 1] && files[..n][..n - 1] == files[..n - 1];
    }
  }

  /** The ops a migration reports are as many as the op rows its destination gains. */
  lemma {:induction false} OpsConserved(rt: Routing, srcs: seq<File>, files: seq<File>)
    requires rt.Valid() && rt.routeLabel.Some? && |files| == |rt.names| && CommitsRoutable(rt, srcs)
    ensures TotalOps(CopiedFrom(rt, srcs, files)) == TotalOps(files) + AuditCount(srcs).ops
  {
    if srcs == [] {
      CopyStart(rt, srcs, files);
    } else {
      var n := |srcs| - 1;
      var front, src := srcs[..n], srcs[n];
      hide *;
      assert srcs[..n + 1] == srcs == front + [src];
      OpsConservedStep(rt, front, src, srcs, files);
      CopiedFromNext(rt, srcs, n, files);
      OpsConserved(rt, front, files);
    }
  }

  lemma OpsConservedStep(rt: Routing, front: seq<File>, src: File, srcs: seq<File>, files: seq<File>)
    requires rt.Valid() && rt.routeLabel.Some? && |files| == |rt.names|
    requires CommitsRoutable(rt, srcs) && srcs == front + [src]
    ensures CommitsRoutable(rt, front)
    ensures var before := CopiedFrom(rt, front, files);
      TotalOps(CopiedAll(rt, src, before)) == TotalOps(before) + KnownOps(src.commits, src.ops)
  {
    hide Routing.Valid, Routing.StrictTarget, CopyOne, TotalOps, OpsRouted, KnownOps;
    assert forall i | 0 <= i < |front| :: front[i] == srcs[i];
    assert src == srcs[|front|] && CommitsRoutableIn(rt, src);
    var before := CopiedFrom(rt, front, files);
    OpsGained(rt, src, before, |files|);
    assert CopiedAll(rt, src, before)[..|files|] == CopiedAll(rt, src, before) && before[..|files|] == before;
    AllOpsRouted(rt, src.commits, src.ops);
  }
}
