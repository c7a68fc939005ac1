/** The SQLite bulk loader: buffered inserts into one partition, holding its writer slot. */
module PartitionedBulk {
  import opened ByteOrder
  import opened Partitioned
  import opened Quads
  import opened Results

  const BULK_BATCH_ROWS: nat := 500

  class BulkLoader {
    const store: Store
    const part: nat
    const labelDefault: Bytes
    var buf: seq<Quad>
    var added: nat
    var attempted: nat
    var flushes: nat
    var closed: bool
    var stickyErr: Option<Error>

    /** Everything buffered belongs in the loader's partition. */
    ghost predicate Valid()
      reads this
    {
      && store.Valid() && part < |store.parts|
      && AllRouted(store.routing, Elements(buf), part)
    }

    constructor (store: Store, part: nat, labelDefault: Bytes)
      requires store.Valid() && part < |store.parts|
      ensures Valid() && this.store == store && this.part == part && this.labelDefault == labelDefault
      ensures buf == [] && added == attempted == flushes == 0 && !closed && stickyErr == None
    {
      this.store, this.part, this.labelDefault := store, part, labelDefault;
      buf, added, attempted, flushes, closed, stickyErr := [], 0, 0, 0, false, None;
    }

    /** The partition's quads once the buffer is flushed. */
    ghost function Pending(): set<Quad>
      requires Valid()
      reads this, {store.parts[part]}
    {
      store.parts[part].file.quads + Elements(buf)
    }

    /** One multi-row insert of the buffer; dbOk says whether the database takes it. */
    method FlushBuf(dbOk: bool) returns (r: Result<()>)
      requires Valid()
      modifies this`buf, this`added, this`flushes, {store.parts[part]}`file
      ensures Valid() && Pending() == old(Pending())
      ensures r == if old(buf) == [] || dbOk then Ok(()) else Err(DatabaseFailed)
      ensures r.Err? ==> buf == old(buf) && added == old(added) && flushes == old(flushes)
      ensures store.parts[part].file == if r.Ok? then LoadFile(old(store.parts[part].file), old(buf))
        else old(store.parts[part].file)
      ensures r.Ok? ==> buf == [] && flushes == old(flushes) + if old(buf) == [] then 0 else 1
      ensures added - old(added) == |store.parts[part].file.quads| - |old(store.parts[part].file.quads)|
    {
      var conn := store.parts[part];
      if |buf| == 0 {
        assert conn.file.quads + Elements(buf) == conn.file.quads;
        return Ok(());
      }
      if !dbOk { return Err(DatabaseFailed); }
      ghost var before := conn.file.quads;
      var file := InsertRows(conn.file, buf);
      SubsetSize(before, file.quads);
      added := added + (|file.quads| - |conn.file.quads|);
      flushes := flushes + 1;
      buf := [];
      conn.file := file;
      return Ok(());
    }

    /** Flush; a failure sticks. */
    method Flush(dbOk: bool) returns (r: Result<()>)
      requires Valid()
      modifies this, {store.parts[part]}`file
      ensures Valid() && Pending() == old(Pending()) && closed == old(closed) && attempted == old(attempted)
      ensures r.Ok? <==> !old(closed) && old(stickyErr).None? && (old(buf) == [] || dbOk)
      ensures r.Err? ==>
        r.error == if old(closed) then LoaderClosed
                   else if old(stickyErr).Some? then old(stickyErr).value else DatabaseFailed
      ensures stickyErr == if old(closed) || old(stickyErr).Some? || r.Ok? then old(stickyErr) else Some(DatabaseFailed)
      ensures store.parts[part].file == if r.Ok? then LoadFile(old(store.parts[part].file), old(buf))
        else old(store.parts[part].file)
      ensures buf == if r.Ok? then [] else old(buf)
      ensures added - old(added) == |store.parts[part].file.quads| - |old(store.parts[part].file.quads)|
    {
      hide Store.Valid, AllRouted, LoadFile, Elements;
      if closed { return Err(LoaderClosed); }
      if stickyErr.Some? { return Err(stickyErr.value); }
      if |buf| == 0 {
        LoadNone(store.parts[part].file);
        return Ok(());
      }
      r := FlushBuf(dbOk);
      if r.Err? { stickyErr := Some(r.error); }
    }

    /** What Add takes. */
    ghost predicate Takes(q: Quad)
      requires Valid()
      reads this
    {
      && !closed && stickyErr.None? && q.IsValid()
      && (store.routing.IsPartitioned() ==> store.routing.PartFor(q.Under(labelDefault).lbl) == part)
    }

    /** A refused quad changes nothing; a taken one is buffered, and flushed with the rest when the buffer is full. */
    method Add(q: Quad, dbOk: bool) returns (r: Result<()>)
      requires Valid()
      modifies this, {store.parts[part]}`file
      ensures Valid() && closed == old(closed)
      ensures !old(Takes(q)) ==> r.Err? && unchanged(this) && unchanged(store.parts[part])
      ensures !old(Takes(q)) ==>
        r.error == if old(closed) then LoaderClosed
                   else if old(stickyErr).Some? then old(stickyErr).value
                   else if q.subj == [] || q.pred == [] || q.obj == [] then EmptyQuad else CrossPartition
      ensures old(Takes(q)) ==>
        var eff := Quad(q.subj, q.pred, q.obj, if q.lbl == [] then labelDefault else q.lbl);
        && Pending() == old(Pending()) + {eff} && attempted == old(attempted) + 1
        && (|old(buf)| < 499 ==> r.Ok? && buf == old(buf) + [eff] && unchanged(store.parts[part]))
        && (|old(buf)| >= 499 ==>
              && (r.Ok? <==> dbOk)
              && (r.Ok? ==> store.parts[part].file == LoadFile(old(store.parts[part].file), old(buf) + [eff]))
              && (r.Err? ==> unchanged(store.parts[part])))
      ensures stickyErr == if old(Takes(q)) && r.Err? then Some(DatabaseFailed) else old(stickyErr)
    {
      var refused := Refusal(q);
      if refused.Some? { return Err(refused.value); }
      UnderKeeps(q, labelDefault);
      r := Buffer(q.Under(labelDefault), dbOk);
    }

    /** An open loader without a failure takes a quad with its three fields, if it is written to its partition. */
    lemma TakesMeans(q: Quad)
      requires Valid()
      ensures Takes(q)
        <==> && !closed && stickyErr.None?
             && |q.subj| > 0 && |q.pred| > 0 && |q.obj| > 0
             && (|store.routing.names| > 1 ==>
                   store.routing.PartFor(if q.lbl == [] then labelDefault else q.lbl) == part)
    {
      ValidMeans(q);
      UnderKeeps(q, labelDefault);
      hide Quad.IsValid, Quad.Under, Routing.PartFor;
    }

    /** The checks at the head of Add, in its order. */
    method Refusal(q: Quad) returns (r: Option<Error>)
      requires Valid()
      ensures r.None? <==> Takes(q)
      ensures r.None? ==> store.routing.PartFor(q.Under(labelDefault).lbl) == part
      ensures r.Some? ==>
        r.value == if closed then LoaderClosed else if stickyErr.Some? then stickyErr.value
                   else if !q.IsValid() then EmptyQuad else CrossPartition
    {
      if closed { return Some(LoaderClosed); }
      if stickyErr.Some? { return Some(stickyErr.value); }
      if !q.IsValid() { return Some(EmptyQuad); }
      var eff := q.Under(labelDefault);
      if store.routing.IsPartitioned() {
        if store.routing.PartFor(eff.lbl) != part { return Some(CrossPartition); }
      } else {
        SinglePartition(store.routing, eff.lbl);
      }
      return None;
    }

    /** Appends, and flushes a full buffer. */
    method Buffer(eff: Quad, dbOk: bool) returns (r: Result<()>)
      requires Valid() && !closed && stickyErr.None? && store.routing.PartFor(eff.lbl) == part
      modifies this, {store.parts[part]}`file
      ensures Valid() && !closed && attempted == old(attempted) + 1
      ensures Pending() == old(Pending()) + {eff}
      ensures |old(buf)| + 1 < BULK_BATCH_ROWS ==> r.Ok? && buf == old(buf) + [eff] && unchanged(store.parts[part])
      ensures |old(buf)| + 1 >= BULK_BATCH_ROWS ==>
        (r.Ok? <==> dbOk) &&
        store.parts[part].file == if dbOk then LoadFile(old(store.parts[part].file), old(buf) + [eff])
                                  else old(store.parts[part].file)
      ensures stickyErr == if r.Err? then Some(DatabaseFailed) else None
    {
      ElementsNext(buf + [eff], |buf|);
      assert (buf + [eff])[..|buf|] == buf && (buf + [eff])[..|buf| + 1] == buf + [eff];
      RoutedMore(store.routing, Elements(buf), part, eff);
      UnionSnoc(store.parts[part].file.quads, Elements(buf), eff);
      hide Store.Valid, AllRouted, LoadFile, Elements;
      buf, attempted := buf + [eff], attempted + 1;
      if |buf| >= BULK_BATCH_ROWS {
        r := Flush(dbOk);
      } else {
        r := Ok(());
      }
    }

    /** Flushes once more whatever happened before, closes, and frees the slot; further calls do nothing. */
    method Close(dbOk: bool) returns (r: Result<()>)
      requires Valid()
      modifies this, {store.parts[part]}
      ensures Valid() && closed
      ensures old(closed) ==> r.Ok? && unchanged(this) && unchanged(store.parts[part])
      ensures !old(closed) ==> !store.parts[part].slot && (r.Ok? <==> old(buf) == [] || dbOk)
      ensures r.Err? ==> r.error == DatabaseFailed
      ensures !old(closed) ==>
        store.parts[part].file == if r.Ok? then LoadFile(old(store.parts[part].file), old(buf))
                                  else old(store.parts[part].file)
      ensures !old(closed) && r.Ok? ==> store.parts[part].file.quads == old(Pending())
    {
      if closed { return Ok(()); }
      r := FlushBuf(dbOk);
      if r.Err? { stickyErr := Some(r.error); }
      closed := true;
      store.parts[part].slot := false;
    }
  }

  lemma LoadNone(f: File)
    ensures LoadFile(f, []) == f
  {
    assert f.quads + Elements([]) == f.quads;
  }

  lemma UnionSnoc(s: set<Quad>, t: set<Quad>, q: Quad)
    ensures s + (t + {q}) == s + t + {q}
  {}

  lemma RoutedMore(rt: Routing, qs: set<Quad>, part: nat, q: Quad)
    requires AllRouted(rt, qs, part) && rt.PartFor(q.lbl) == part
    ensures AllRouted(rt, qs + {q}, part)
  {
    hide Routing.PartFor, Routing.Valid;
  }

  /** INSERT OR IGNORE of the rows, in order. */
  method InsertRows(f: File, rows: seq<Quad>) returns (f': File)
    ensures f' == LoadFile(f, rows)
  {
    f' := f;
    assert rows[..0] == [];
    for i := 0 to |rows|
      invariant f' == f.(quads := f.quads + Elements(rows[..i]))
    {
      ElementsNext(rows, i);
      f' := f'.(quads := f'.quads + {rows[i]});
    }
    assert rows[..|rows|] == rows;
  }

  /** BulkLoaderFor: waits as WriterFor does. */
  method BulkLoaderFor(store: Store, name: Bytes, freed: bool, ctxDone: bool) returns (r: Result<BulkLoader>)
    requires store.Valid()
    modifies store.ConnNamed(name)`slot
    ensures r == Err(UnknownPartition) <==> store.routing.ConnFor(name).None?
    ensures r.Err? ==> r.error == UnknownPartition || r.error == Cancelled
    ensures store.routing.ConnFor(name).Some? ==>
      var taken := old(store.parts[store.routing.ConnFor(name).value].slot);
      (r.Ok? ==> !taken || freed) && ((!taken || freed) && !ctxDone ==> r.Ok?)
    ensures r.Ok? ==> fresh(r.value) && Acquired(r.value, store, store.routing.ConnFor(name).value, [])
    ensures r.Ok? ==> store.parts[r.value.part].name == if name == [] then store.routing.defaultName else name
    ensures forall i | 0 <= i < |store.parts| ::
      store.parts[i].slot == if store.routing.ConnFor(name) == Some(i)
                             then SlotAfter(r.Ok?, old(store.parts[i].slot), freed) else old(store.parts[i].slot)
  {
    var conn := store.routing.ConnFor(name);
    if conn.None? { return Err(UnknownPartition); }
    ConnByName(store.routing, name);
    var taken := TakeSlot(store.parts[conn.value], freed, ctxDone);
    if !taken { return Err(Cancelled); }
    var bl := new BulkLoader(store, conn.value, []);
    return Ok(bl);
  }

  /** A new loader on a partition. */
  ghost predicate Acquired(bl: BulkLoader, store: Store, part: nat, labelDefault: Bytes)
    reads bl
  {
    && bl.Valid() && bl.store == store && bl.part == part && bl.labelDefault == labelDefault
    && !bl.closed && bl.stickyErr.None? && bl.buf == [] && bl.added == bl.attempted == bl.flushes == 0
  }

  /** BulkLoaderWithLabel: bound to the partition its default label routes to. */
  method BulkLoaderWithLabel(store: Store, defaultLabel: Bytes, freed: bool, ctxDone: bool)
    returns (r: Result<BulkLoader>)
    requires store.Valid()
    modifies store.parts`slot
    ensures r == Err(InvalidLabel) <==> !LabelOk(defaultLabel)
    ensures r.Err? ==> r.error == InvalidLabel || r.error == Cancelled
    ensures LabelOk(defaultLabel) ==>
      var taken := old(store.parts[store.routing.PartFor(defaultLabel)].slot);
      (r.Ok? ==> !taken || freed) && ((!taken || freed) && !ctxDone ==> r.Ok?)
    ensures r.Ok? ==> fresh(r.value) && Acquired(r.value, store, store.routing.PartFor(defaultLabel), defaultLabel)
    ensures forall i | 0 <= i < |store.parts| ::
      store.parts[i].slot == if LabelOk(defaultLabel) && i == store.routing.PartFor(defaultLabel)
                             then SlotAfter(r.Ok?, old(store.parts[i].slot), freed) else old(store.parts[i].slot)
  {
    var ok := ValidateLabel(defaultLabel);
    if !ok { return Err(InvalidLabel); }
    var part := store.routing.PartFor(defaultLabel);
    var taken := TakeSlot(store.parts[part], freed, ctxDone);
    if !taken { return Err(Cancelled); }
    var bl := new BulkLoader(store, part, defaultLabel);
    return Ok(bl);
  }
}
