/** The partitioned SQLite store: routing, placement, and opening. */
module Partitioned {
  import opened ByteOrder
  import opened Quads
  import opened Results

  // ---- routing ----

  /** A store's partition names and routers; a single-file store has the one name "" and no router. */
  datatype Routing = Routing(
    names: seq<Bytes>,
    byName: map<Bytes, nat>,
    defaultName: Bytes,
    routeLabel: Option<Bytes -> Bytes>,
    routePattern: Option<Pattern -> Bytes>)
  {
    ghost predicate Valid() {
      && |names| > 0
      && (forall i | 0 <= i < |names| :: names[i] in byName && byName[names[i]] == i)
      && (forall n | n in byName :: byName[n] < |names| && names[byName[n]] == n)
      && defaultName in byName
      && (routeLabel.None? ==> names == [[]])
      && (routeLabel.Some? ==> [] !in names)
    }

    predicate IsPartitioned() {
      |names| > 1
    }

    /** The partition a label's writes go to; an empty or unknown name means the default. */
    function PartFor(lbl: Bytes): (i: nat)
      requires Valid()
      ensures i < |names|
    {
      if routeLabel.None? then 0
      else
        var target := routeLabel.value(lbl);
        if target == [] then byName[defaultName]
        else if target in byName then byName[target]
        else byName[defaultName]
    }

    /** The one partition a pattern's reads can go to, if there is one. */
    function PartForPattern(p: Pattern): (r: Option<nat>)
      requires Valid()
      ensures r.Some? ==> r.value < |names|
    {
      if !IsPartitioned() then Some(0)
      else if routePattern.Some? && routePattern.value(p) != [] && routePattern.value(p) in byName then
        Some(byName[routePattern.value(p)])
      else if p.lbl != [] && routeLabel.Some? && routeLabel.value(p.lbl) != [] && routeLabel.value(p.lbl) in byName then
        Some(byName[routeLabel.value(p.lbl)])
      else None
    }

    /** The name migration routes a label to. */
    function TargetName(lbl: Bytes): Bytes
      requires routeLabel.Some?
    {
      if routeLabel.value(lbl) == [] then defaultName else routeLabel.value(lbl)
    }

    /** Migration's routing: unlike PartFor, an unknown name is refused. */
    function StrictTarget(lbl: Bytes): (r: Option<nat>)
      requires Valid() && routeLabel.Some?
      ensures r.Some? ==> r.value < |names|
    {
      if TargetName(lbl) in byName then Some(byName[TargetName(lbl)]) else None
    }

    /** A partition name given by a caller; "" is the default. */
    function ConnFor(name: Bytes): (r: Option<nat>)
      requires Valid()
      ensures r.Some? ==> r.value < |names|
    {
      if name == [] then Some(if IsPartitioned() then byName[defaultName] else 0)
      else if name in byName then Some(byName[name])
      else None
    }

    /** The pattern router is absent, or sends a pattern only where all its matches are written. */
    ghost predicate PatternRouterSound() {
      Valid() && (routePattern.Some? ==>
        forall p, q | Matches(p, q) && routePattern.value(p) != [] && routePattern.value(p) in byName ::
          PartFor(q.lbl) == byName[routePattern.value(p)])
    }
  }

  /** Writes by partition name: where the router says, and to the default if it says nothing or an unknown name. */
  lemma RoutedByName(rt: Routing, lbl: Bytes)
    requires rt.Valid()
    ensures rt.routeLabel.None? ==> |rt.names| == 1 && rt.PartFor(lbl) == 0
    ensures rt.routeLabel.Some? ==>
      rt.names[rt.PartFor(lbl)] ==
        if rt.routeLabel.value(lbl) in rt.names then rt.routeLabel.value(lbl) else rt.defaultName
  {
    if rt.routeLabel.Some? {
      var target := rt.routeLabel.value(lbl);
      assert target in rt.names <==> target in rt.byName;
    }
  }

  /** A writer by name: the partition so named, or the default for no name; nothing for any other. */
  lemma ConnByName(rt: Routing, name: Bytes)
    requires rt.Valid()
    ensures rt.ConnFor(name).Some? <==> name == [] || name in rt.names
    ensures rt.ConnFor(name).Some? ==>
      rt.names[rt.ConnFor(name).value] == if name == [] then rt.defaultName else name
  {
    assert name in rt.names <==> name in rt.byName;
  }

  /** The default writer is that of the partition unrouted labels go to. */
  lemma DefaultConn(rt: Routing, l: Bytes)
    requires rt.Valid() && (rt.routeLabel.Some? ==> rt.routeLabel.value(l) == [])
    ensures rt.ConnFor([]) == Some(rt.PartFor(l))
  {
    if !rt.IsPartitioned() { SinglePartition(rt, l); }
  }

  /** A read is scoped where the pattern router says, or else where the bound label is written. */
  lemma PatternByName(rt: Routing, p: Pattern)
    requires rt.Valid() && |rt.names| > 1
    ensures var byPattern := rt.routePattern.Some? && rt.routePattern.value(p) in rt.names;
      var byLabel := p.lbl != [] && rt.routeLabel.Some? && rt.routeLabel.value(p.lbl) in rt.names;
      && (rt.PartForPattern(p).Some? <==> byPattern || byLabel)
      && (byPattern ==> rt.names[rt.PartForPattern(p).value] == rt.routePattern.value(p))
      && (byLabel && !byPattern ==> rt.PartForPattern(p).value == rt.PartFor(p.lbl))
  {
    if rt.routePattern.Some? {
      var target := rt.routePattern.value(p);
      assert target in rt.names <==> target in rt.byName;
    }
    if rt.routeLabel.Some? {
      var target := rt.routeLabel.value(p.lbl);
      assert target in rt.names <==> target in rt.byName;
    }
  }

  /** Where migration accepts a label it agrees with the write path; it refuses exactly the unknown names. */
  lemma StrictTargetAgrees(rt: Routing, lbl: Bytes)
    requires rt.Valid() && rt.routeLabel.Some?
    ensures rt.StrictTarget(lbl).Some? ==> rt.StrictTarget(lbl).value == rt.PartFor(lbl)
    ensures rt.StrictTarget(lbl).None? <==> rt.routeLabel.value(lbl) != [] && rt.routeLabel.value(lbl) !in rt.names
  {
    var target := rt.routeLabel.value(lbl);
    assert target in rt.names <==> target in rt.byName;
  }

  /** With one partition every label goes to it. */
  lemma SinglePartition(rt: Routing, lbl: Bytes)
    requires rt.Valid() && !rt.IsPartitioned()
    ensures rt.PartFor(lbl) == 0
  {}

  /** A scoped pattern read goes to the partition all its matches are written to. */
  lemma PatternScopeSound(rt: Routing, p: Pattern, q: Quad)
    requires rt.PatternRouterSound() && rt.PartForPattern(p).Some? && Matches(p, q)
    ensures rt.PartFor(q.lbl) == rt.PartForPattern(p).value
  {
    if !rt.IsPartitioned() { SinglePartition(rt, q.lbl); }
  }

  // ---- files ----

  /** One SQLite file: the quad table, the commits, and the op rows in insertion order. */
  datatype File = File(quads: set<Quad>, commits: map<Bytes, CommitRow>, ops: seq<(Bytes, OpRow)>)

  const EMPTY_FILE := File({}, map[], [])

  /** Every quad sits in the partition its label is written to. */
  ghost predicate Placed(rt: Routing, files: seq<File>) {
    && rt.Valid() && |files| == |rt.names|
    && forall i, q | 0 <= i < |files| && q in files[i].quads :: rt.PartFor(q.lbl) == i
  }

  /** The quads of all partitions. */
  ghost function AllQuads(files: seq<File>): set<Quad> {
    set i, q | 0 <= i < |files| && q in files[i].quads :: q
  }

  /** One more file's quads. */
  lemma AllQuadsNext(files: seq<File>, n: nat)
    requires n < |files|
    ensures AllQuads(files[..n + 1]) == AllQuads(files[..n]) + files[n].quads
  {
    forall q ensures q in AllQuads(files[..n + 1]) <==> q in AllQuads(files[..n]) + files[n].quads {
      if q in AllQuads(files[..n]) {
        var i :| 0 <= i < n && q in files[..n][i].quads;
        assert q in files[..n + 1][i].quads;
      }
      if q in files[n].quads { assert q in files[..n + 1][n].quads; }
      if q in AllQuads(files[..n + 1]) {
        var i :| 0 <= i < n + 1 && q in files[..n + 1][i].quads;
        if i < n { assert q in files[..n][i].quads; }
      }
    }
  }

  /** Quads inserted in one file are quads inserted in the store. */
  lemma AllQuadsAdded(files: seq<File>, i: nat, f: File, adds: set<Quad>)
    requires i < |files| && f.quads == files[i].quads + adds
    ensures AllQuads(files[i := f]) == AllQuads(files) + adds
  {
    var files' := files[i := f];
    forall q ensures q in AllQuads(files') <==> q in AllQuads(files) + adds {
      if q in AllQuads(files') { var j :| 0 <= j < |files'| && q in files'[j].quads; }
      if q in AllQuads(files) {
        var j :| 0 <= j < |files| && q in files[j].quads;
        assert q in files'[j].quads;
      }
      if q in adds { assert q in files'[i].quads; }
    }
  }

  /** All of these are written to partition i. */
  ghost predicate AllRouted(rt: Routing, qs: set<Quad>, i: nat) {
    rt.Valid() && forall q | q in qs :: rt.PartFor(q.lbl) == i
  }

  /** A placed quad is in the store exactly if it is in its own partition. */
  lemma PlacedAt(rt: Routing, files: seq<File>, q: Quad)
    requires Placed(rt, files)
    ensures q in AllQuads(files) <==> q in files[rt.PartFor(q.lbl)].quads
  {
    if q in AllQuads(files) {
      var i :| 0 <= i < |files| && q in files[i].quads;
    }
  }

  /**
   * Adding and removing routed quads in one file keeps the placement, and changes the whole store as it
   * would one plain set: a remove that looks only in its own partition misses nothing.
   */
  lemma RoutedUpdate(rt: Routing, files: seq<File>, i: nat, f: File, adds: set<Quad>, removes: set<Quad>)
    requires Placed(rt, files) && i < |files| && f.quads == (files[i].quads + adds) - removes
    requires AllRouted(rt, adds, i) && AllRouted(rt, removes, i)
    ensures Placed(rt, files[i := f])
    ensures AllQuads(files[i := f]) == (AllQuads(files) + adds) - removes
  {
    var files' := files[i := f];
    assert Placed(rt, files') by {
      forall j, q | 0 <= j < |files'| && q in files'[j].quads ensures rt.PartFor(q.lbl) == j {}
    }
    forall q ensures q in AllQuads(files') <==> q in (AllQuads(files) + adds) - removes {
      PlacedAt(rt, files, q);
      PlacedAt(rt, files', q);
    }
  }

  // ---- writes, by what they do to the files ----

  /** All of these are written to the same partition. */
  predicate OnePartition(rt: Routing, qs: seq<Quad>)
    requires rt.Valid()
  {
    forall i | 0 <= i < |qs| :: rt.PartFor(qs[i].lbl) == rt.PartFor(qs[0].lbl)
  }

  /** Quads inserted, duplicates ignored, where the first one routes. */
  function Inserted(rt: Routing, files: seq<File>, qs: seq<Quad>): seq<File>
    requires rt.Valid() && |files| == |rt.names|
  {
    if qs == [] then files else Loaded(files, rt.PartFor(qs[0].lbl), qs)
  }

  function Deleted(rt: Routing, files: seq<File>, q: Quad): seq<File>
    requires rt.Valid() && |files| == |rt.names|
  {
    var i := rt.PartFor(q.lbl);
    files[i := files[i].(quads := files[i].quads - {q})]
  }

  /** Quads inserted in a given partition. */
  function Loaded(files: seq<File>, i: nat, qs: seq<Quad>): seq<File>
    requires i < |files|
  {
    files[i := LoadFile(files[i], qs)]
  }

  /** INSERT OR IGNORE. */
  function LoadFile(f: File, qs: seq<Quad>): File {
    f.(quads := f.quads + Elements(qs))
  }

  // ---- the store ----

  class PartitionConn {
    const name: Bytes
    var file: File
    /** The one-place writer slot. */
    var slot: bool

    constructor (name: Bytes, file: File)
      ensures this.name == name && this.file == file && !slot
    {
      this.name, this.file, slot := name, file, false;
    }
  }

  /** The slot afterwards: taken by the caller, or else by a holder that has kept it. */
  predicate SlotAfter(got: bool, wasTaken: bool, freed: bool) {
    got || (wasTaken && !freed)
  }

  /**
   * The send into the slot, or the context's end; with both ready either may be chosen. The holder of a
   * taken slot receives from it while the send waits, if it frees it at all. So the wait ends with the slot
   * only if it was free or is freed meanwhile, and then always unless the context is done.
   */
  method TakeSlot(conn: PartitionConn, freed: bool, ctxDone: bool) returns (got: bool)
    modifies conn`slot
    ensures got ==> !old(conn.slot) || freed
    ensures (!old(conn.slot) || freed) && !ctxDone ==> got
    ensures conn.slot <==> got || (old(conn.slot) && !freed)
  {
    if conn.slot && freed { conn.slot := false; }
    var first: bool := *;
    got := !conn.slot && (!ctxDone || first);
    if got { conn.slot := true; }
  }

  class Store {
    const routing: Routing
    const parts: seq<PartitionConn>

    ghost predicate Valid() {
      && routing.Valid()
      && |parts| == |routing.names|
      && (forall i | 0 <= i < |parts| :: parts[i].name == routing.names[i])
      && (forall i, j | 0 <= i < j < |parts| :: parts[i] != parts[j])
    }

    ghost function Files(): (fs: seq<File>)
      reads parts
      ensures |fs| == |parts| && forall i | 0 <= i < |parts| :: fs[i] == parts[i].file
    {
      seq(|parts|, i requires 0 <= i < |parts| reads parts => parts[i].file)
    }

    /** The partition of that name, if there is one. */
    ghost function ConnNamed(name: Bytes): (r: set<PartitionConn>)
      requires Valid()
      ensures r <= set c | c in parts
    {
      match routing.ConnFor(name)
      case Some(i) => {parts[i]}
      case None => {}
    }

    constructor (routing: Routing, parts: seq<PartitionConn>)
      ensures this.routing == routing && this.parts == parts
    {
      this.routing, this.parts := routing, parts;
    }

    /** Add: one quad, routed by its own label. */
    method Add(q: Quad) returns (r: Result<()>)
      requires Valid()
      modifies {parts[routing.PartFor(q.lbl)]}`file
      ensures r == if q.IsValid() then Ok(()) else Err(EmptyQuad)
      ensures Files() == if r.Ok? then Inserted(routing, old(Files()), [q]) else old(Files())
    {
      if !q.IsValid() { return Err(EmptyQuad); }
      var conn := parts[routing.PartFor(q.lbl)];
      conn.file := conn.file.(quads := conn.file.quads + {q});
      assert Elements([q]) == {q};
      return Ok(());
    }

    /** Delete: one quad, looked for only where its label routes. */
    method Delete(q: Quad)
      requires Valid()
      modifies {parts[routing.PartFor(q.lbl)]}`file
      ensures Files() == Deleted(routing, old(Files()), q)
    {
      var conn := parts[routing.PartFor(q.lbl)];
      conn.file := conn.file.(quads := conn.file.quads - {q});
    }

    /** partForQuads: the one partition of all the quads, if there is one. */
    method PartForQuads(qs: seq<Quad>) returns (r: Result<nat>)
      requires Valid() && qs != []
      ensures r.Ok? <==> OnePartition(routing, qs)
      ensures r.Ok? ==> r.value == routing.PartFor(qs[0].lbl)
      ensures r.Err? ==> r.error == CrossPartition
    {
      if !routing.IsPartitioned() {
        SinglePartition(routing, qs[0].lbl);
        return Ok(0);
      }
      var first := routing.PartFor(qs[0].lbl);
      for i := 1 to |qs|
        invariant forall j | 0 <= j < i :: routing.PartFor(qs[j].lbl) == first
      {
        if routing.PartFor(qs[i].lbl) != first { return Err(CrossPartition); }
      }
      return Ok(first);
    }

    /** AddBatch: one transaction in one partition, or nothing. */
    method AddBatch(qs: seq<Quad>) returns (r: Result<()>)
      requires Valid()
      modifies parts`file
      ensures r.Ok? <==> OnePartition(routing, qs) && forall i | 0 <= i < |qs| :: qs[i].IsValid()
      ensures r == Err(CrossPartition) <==> !OnePartition(routing, qs)
      ensures r.Err? ==> r.error == CrossPartition || r.error == EmptyQuad
      ensures Files() == if r.Ok? then Inserted(routing, old(Files()), qs) else old(Files())
      ensures r.Ok? ==> AllQuads(Files()) == old(AllQuads(Files())) + Elements(qs)
      ensures var fs, fs' := old(Files()), Files();
        |fs'| == |fs| && forall i | 0 <= i < |fs| :: fs'[i].commits == fs[i].commits && fs'[i].ops == fs[i].ops
    {
      ghost var files := Files();
      if |qs| == 0 {
        ElementsNone<Quad>();
        return Ok(());
      }
      var part := PartForQuads(qs);
      if part.Err? { return Err(part.error); }
      var conn := parts[part.value];
      var tx := InsertValid(conn.file, qs);
      if tx.Err? { return Err(tx.error); }
      AllQuadsAdded(files, part.value, tx.value, Elements(qs));
      conn.file := tx.value;
      assert Files() == files[part.value := tx.value];
      return Ok(());
    }
  }

  /** The transaction of a batch, rolled back at the first invalid quad. */
  method InsertValid(f: File, qs: seq<Quad>) returns (r: Result<File>)
    ensures r == if forall i | 0 <= i < |qs| :: qs[i].IsValid() then Ok(LoadFile(f, qs)) else Err(EmptyQuad)
  {
    hide Quad.IsValid;
    var tx := f;
    assert f.quads + Elements(qs[..0]) == f.quads && qs[..|qs|] == qs;
    for i := 0 to |qs|
      invariant tx == LoadFile(f, qs[..i])
      invariant forall j | 0 <= j < i :: qs[j].IsValid()
    {
      if !qs[i].IsValid() { return Err(EmptyQuad); }
      ElementsNext(qs, i);
      assert f.quads + Elements(qs[..i]) + {qs[i]} == f.quads + (Elements(qs[..i]) + {qs[i]});
      tx := tx.(quads := tx.quads + {qs[i]});
    }
    return Ok(tx);
  }

  /** Open: a single-file store on what the path holds. */
  method Open(file: File) returns (s: Store)
    ensures fresh(s) && s.Valid() && !s.routing.IsPartitioned() && s.routing.routeLabel.None?
    ensures s.Files() == [file] && fresh(s.parts[0]) && !s.parts[0].slot
    ensures forall lbl :: s.routing.PartFor(lbl) == 0
  {
    var conn := new PartitionConn([], file);
    s := new Store(Routing([[]], map[[] := 0], [], None, None), [conn]);
  }

  /** A partition's name and what its path holds. */
  datatype Spec = Spec(name: Bytes, file: File)

  datatype Config = Config(
    partitions: seq<Spec>,
    defaultName: Bytes,
    routeLabel: Option<Bytes -> Bytes>,
    routePattern: Option<Pattern -> Bytes>)

  predicate Named(specs: seq<Spec>, name: Bytes) {
    exists i | 0 <= i < |specs| :: specs[i].name == name
  }

  /** Every name non-empty and new. */
  predicate NamesOk(specs: seq<Spec>) {
    && (forall i | 0 <= i < |specs| :: specs[i].name != [])
    && (forall i, j | 0 <= i < j < |specs| :: specs[i].name != specs[j].name)
  }

  /** What OpenPartitioned accepts. */
  ghost predicate ConfigOk(cfg: Config) {
    && cfg.partitions != [] && cfg.routeLabel.Some? && NamesOk(cfg.partitions)
    && cfg.defaultName != [] && Named(cfg.partitions, cfg.defaultName)
  }

  /** Accepted: a label router, at least one partition, every name non-empty and new, and one of them the default. */
  lemma ConfigOkMeans(cfg: Config)
    ensures ConfigOk(cfg) <==>
      && |cfg.partitions| > 0 && cfg.routeLabel.Some?
      && (forall i | 0 <= i < |cfg.partitions| :: |cfg.partitions[i].name| > 0)
      && (forall i, j | 0 <= i < |cfg.partitions| && 0 <= j < |cfg.partitions| ::
            cfg.partitions[i].name == cfg.partitions[j].name ==> i == j)
      && (exists i | 0 <= i < |cfg.partitions| :: cfg.partitions[i].name == cfg.defaultName)
  {}

  /** The partitions opened so far, by position and by name. */
  ghost predicate Opened(specs: seq<Spec>, parts: seq<PartitionConn>, byName: map<Bytes, nat>)
    reads parts
  {
    && |parts| == |specs| && NamesOk(specs)
    && (forall i | 0 <= i < |parts| ::
          parts[i].name == specs[i].name && parts[i].file == specs[i].file && !parts[i].slot)
    && (forall i, j | 0 <= i < j < |parts| :: parts[i] != parts[j])
    && (forall i | 0 <= i < |specs| :: specs[i].name in byName && byName[specs[i].name] == i)
    && (forall n | n in byName :: byName[n] < |specs| && specs[byName[n]].name == n)
  }

  /** The names before the i-th are good, and e says what is wrong with its own. */
  ghost predicate BadAt(specs: seq<Spec>, i: nat, e: Error)
    requires i < |specs|
  {
    NamesOk(specs[..i]) &&
    if specs[i].name == [] then e == EmptyPartitionName
    else e == DuplicatePartition && Named(specs[..i], specs[i].name)
  }

  /** One more partition, or the name error that refuses the configuration. */
  method OpenNext(specs: seq<Spec>, i: nat, parts: seq<PartitionConn>, byName: map<Bytes, nat>)
    returns (r: Result<PartitionConn>)
    requires i < |specs| && Opened(specs[..i], parts, byName)
    ensures r.Ok? <==> NamesOk(specs[..i + 1])
    ensures r.Err? ==> BadAt(specs, i, r.error)
    ensures r.Ok? ==> fresh(r.value) && Opened(specs[..i + 1], parts + [r.value], byName[specs[i].name := i])
  {
    var spec := specs[i];
    assert specs[..i + 1] == specs[..i] + [spec];
    if spec.name == [] { return Err(EmptyPartitionName); }
    if spec.name in byName {
      assert specs[..i][byName[spec.name]].name == spec.name;
      assert specs[..i + 1][byName[spec.name]].name == specs[..i + 1][i].name;
      return Err(DuplicatePartition);
    }
    var conn := new PartitionConn(spec.name, spec.file);
    return Ok(conn);
  }

  /** e is the error for the first bad name. */
  ghost predicate FirstBadName(specs: seq<Spec>, e: Error) {
    exists i | 0 <= i < |specs| :: BadAt(specs, i, e)
  }

  lemma OpenedNames(specs: seq<Spec>, parts: seq<PartitionConn>, byName: map<Bytes, nat>, name: Bytes)
    requires Opened(specs, parts, byName)
    ensures name in byName <==> Named(specs, name)
    ensures forall i | 0 <= i < |specs| :: specs[i].name != []
  {}

  lemma NameErrors(specs: seq<Spec>, e: Error)
    requires FirstBadName(specs, e)
    ensures e == EmptyPartitionName || e == DuplicatePartition
  {}

  /** The loop over the partitions. */
  method OpenAll(specs: seq<Spec>) returns (r: Result<(seq<PartitionConn>, map<Bytes, nat>)>)
    ensures r.Ok? <==> NamesOk(specs)
    ensures r.Err? ==> FirstBadName(specs, r.error)
    ensures r.Ok? ==> fresh(r.value.0) && Opened(specs, r.value.0, r.value.1)
  {
    var parts: seq<PartitionConn>, byName: map<Bytes, nat> := [], map[];
    assert NamesOk(specs[..0]) && Opened(specs[..0], parts, byName);
    assert specs[..|specs|] == specs;
    hide *;
    for i := 0 to |specs|
      invariant fresh(parts) && NamesOk(specs[..i]) && Opened(specs[..i], parts, byName)
    {
      var next := OpenNext(specs, i, parts, byName);
      if next.Err? {
        BadName(specs, i, next.error);
        return Err(next.error);
      }
      parts, byName := parts + [next.value], byName[specs[i].name := i];
    }
    return Ok((parts, byName));
  }

  /** OpenPartitioned, with its errors in the order of its checks. */
  method OpenPartitioned(cfg: Config) returns (r: Result<Store>)
    ensures r.Ok? <==> ConfigOk(cfg)
    ensures r == Err(NoPartitions) <==> cfg.partitions == []
    ensures r == Err(MissingRouter) <==> cfg.partitions != [] && cfg.routeLabel.None?
    ensures r == Err(MissingDefault) <==>
      cfg.partitions != [] && cfg.routeLabel.Some? && NamesOk(cfg.partitions) && !ConfigOk(cfg)
    ensures r.Err? && cfg.partitions != [] && cfg.routeLabel.Some? && !NamesOk(cfg.partitions) ==>
      FirstBadName(cfg.partitions, r.error)
    ensures r.Ok? ==> fresh(r.value) && fresh(r.value.parts) && OpenedAs(cfg, r.value)
  {
    hide BadAt, FirstBadName, NamesOk, Named;
    var specs := cfg.partitions;
    if |specs| == 0 { return Err(NoPartitions); }
    if cfg.routeLabel.None? { return Err(MissingRouter); }
    var conns := OpenAll(specs);
    if conns.Err? {
      NameErrors(specs, conns.error);
      return Err(conns.error);
    }
    var (parts, byName) := conns.value;
    OpenedNames(specs, parts, byName, cfg.defaultName);
    if cfg.defaultName == [] { return Err(MissingDefault); }
    if cfg.defaultName !in byName { return Err(MissingDefault); }
    var names := seq(|specs|, i requires 0 <= i < |specs| => specs[i].name);
    var s := new Store(Routing(names, byName, cfg.defaultName, cfg.routeLabel, cfg.routePattern), parts);
    return Ok(s);
  }

  /** The store a configuration describes: its partitions in order, its routers, its default. */
  ghost predicate OpenedAs(cfg: Config, s: Store)
    reads s.parts
  {
    && s.Valid() && |s.parts| == |cfg.partitions|
    && (forall i | 0 <= i < |s.parts| ::
          s.parts[i].name == cfg.partitions[i].name && s.parts[i].file == cfg.partitions[i].file && !s.parts[i].slot)
    && s.routing.defaultName == cfg.defaultName
    && s.routing.routeLabel == cfg.routeLabel && s.routing.routePattern == cfg.routePattern
  }

  /** The first bad name spoils the whole list. */
  lemma BadName(specs: seq<Spec>, i: nat, e: Error)
    requires i < |specs| && BadAt(specs, i, e)
    ensures !NamesOk(specs) && FirstBadName(specs, e)
  {
    if specs[i].name != [] {
      var j :| 0 <= j < i && specs[..i][j].name == specs[i].name;
      assert specs[j].name == specs[i].name;
    }
  }
}
