/** The in-memory ingest: sorted, deduplicated tables handed to Pebble whole. */
module IngestSorted {
  import opened ByteOrder
  import opened Keyspaces
  import opened LabelCount
  import opened Pebble
  import opened PebbleStore
  import opened QuadKeys
  import opened Quads
  import opened Results
  import opened StoreModel

  // ---- sorting and deduplication in place ----

  function Insert(x: Bytes, s: seq<Bytes>): seq<Bytes> {
    if s == [] || Less(x, s[0]) then [x] + s else [s[0]] + Insert(x, s[1..])
  }

  function InsertionSort(s: seq<Bytes>): seq<Bytes> {
    if s == [] then [] else Insert(s[0], InsertionSort(s[1..]))
  }

  lemma InsertFirst(x: Bytes, s: seq<Bytes>)
    requires Sorted(s) && s != [] && Less(x, s[0])
    ensures Sorted([x] + s)
  {
    hide Less;
    forall j | 0 <= j < |s| ensures !Less(s[j], x) {
      if Less(s[j], x) {
        LessTransitive(s[j], x, s[0]);
        LessIrreflexive(s[0]);
      }
    }
  }

  lemma FirstStays(y: Bytes, s: seq<Bytes>, x: Bytes, rest: seq<Bytes>)
    requires Sorted([y] + s) && !Less(x, y) && Sorted(rest) && multiset(rest) == multiset(s) + multiset{x}
    ensures Sorted([y] + rest)
  {
    hide Less;
    forall j | 0 <= j < |rest| ensures !Less(rest[j], y) {
      assert rest[j] in multiset(rest);
      if rest[j] != x {
        assert rest[j] in s;
        var k :| 0 <= k < |s| && s[k] == rest[j];
        assert ([y] + s)[k + 1] == s[k] && ([y] + s)[0] == y;
      }
    }
  }

  lemma {:induction false} InsertSorted(x: Bytes, s: seq<Bytes>)
    requires Sorted(s)
    ensures Sorted(Insert(x, s)) && multiset(Insert(x, s)) == multiset(s) + multiset{x}
  {
    if s == [] {
    } else if Less(x, s[0]) {
      InsertFirst(x, s);
    } else {
      var y, tail, rest := s[0], s[1..], Insert(x, s[1..]);
      assert Insert(x, s) == [y] + rest && s == [y] + tail && Sorted(tail);
      hide *;
      InsertSorted(x, tail);
      FirstStays(y, tail, x, rest);
    }
  }

  lemma {:induction false} SortIs(s: seq<Bytes>)
    ensures Sorted(InsertionSort(s)) && multiset(InsertionSort(s)) == multiset(s)
  {
    if s != [] {
      SortIs(s[1..]);
      InsertSorted(s[0], InsertionSort(s[1..]));
      assert s == [s[0]] + s[1..];
    }
  }

  /** sortByteSlices: the library sort, by its contract. */
  method SortKeys(a: array<Bytes>)
    modifies a
    ensures Sorted(a[..]) && multiset(a[..]) == multiset(old(a[..]))
  {
    ghost var before := a[..];
    var s := InsertionSort(a[..]);
    SortIs(a[..]);
    assert |s| == a.Length by { assert |multiset(s)| == |multiset(a[..])|; }
    forall i | 0 <= i < a.Length {
      a[i] := s[i];
    }
    assert a[..] == s;
  }

  /** Runs of equal keys cut to one. */
  function Dedup(s: seq<Bytes>): (r: seq<Bytes>)
    ensures |r| <= |s| && (s != [] ==> r != [])
  {
    if |s| <= 1 then s
    else
      var front, last := Dedup(s[..|s| - 1]), s[|s| - 1];
      if last == front[|front| - 1] then front else front + [last]
  }

  /** d dedups the sorted keys s. */
  ghost predicate Deduped(d: seq<Bytes>, s: seq<Bytes>) {
    StrictlySorted(d) && Elements(d) == Elements(s) && (s != [] ==> d != [] && d[|d| - 1] == s[|s| - 1])
  }

  lemma DedupedNext(d: seq<Bytes>, s: seq<Bytes>, last: Bytes)
    requires s != [] && Sorted(s + [last]) && Deduped(d, s)
    ensures Deduped(if last == d[|d| - 1] then d else d + [last], s + [last])
  {
    hide Less, StrictlySorted;
    var n := |s|;
    assert !Less((s + [last])[n], (s + [last])[n - 1]) && (s + [last])[n - 1] == s[n - 1];
    LessTotal(d[|d| - 1], last);
    if d[|d| - 1] != last { SnocSorted(d, last); }
    forall k ensures k in Elements(s + [last]) <==> k in Elements(s) + {last} {}
    forall k ensures k in Elements(d + [last]) <==> k in Elements(d) + {last} {}
    assert last in Elements(d) ==> Elements(s) + {last} == Elements(s);
    assert d[|d| - 1] in Elements(d);
  }

  lemma {:induction false} DedupStrict(s: seq<Bytes>)
    requires Sorted(s)
    ensures Deduped(Dedup(s), s)
  {
    if |s| <= 1 {
      assert Dedup(s) == s;
    } else {
      hide Deduped;
      var n := |s| - 1;
      var front, last := s[..n], s[n];
      assert s == front + [last] && Sorted(front) && front != [];
      DedupStrict(front);
      DedupedNext(Dedup(front), front, last);
    }
  }

  lemma DedupNext(s: seq<Bytes>, i: nat)
    requires 0 < i < |s|
    ensures var front := Dedup(s[..i]);
      Dedup(s[..i + 1]) == if s[i] == front[|front| - 1] then front else front + [s[i]]
  {
    assert s[..i + 1][..i] == s[..i];
  }

  /** Mid-loop: the first n slots hold what the first i keys dedup to, the rest is untouched. */
  ghost predicate DedupedTo(t: seq<Bytes>, s: seq<Bytes>, n: nat, i: nat) {
    0 < n <= i <= |s| == |t| && t[..n] == Dedup(s[..i]) && t[i..] == s[i..]
  }

  lemma DedupStep(t: seq<Bytes>, s: seq<Bytes>, n: nat, i: nat)
    requires DedupedTo(t, s, n, i) && i < |s|
    ensures t[i] == t[n - 1] ==> DedupedTo(t, s, n, i + 1)
    ensures t[i] != t[n - 1] ==> DedupedTo(t[n := t[i]], s, n + 1, i + 1)
  {
    DedupNext(s, i);
    hide Dedup;
    assert t[i] == t[i..][0] == s[i..][0] == s[i];
    assert t[n - 1] == t[..n][n - 1];
    assert t[i..][1..] == t[i + 1..] && s[i..][1..] == s[i + 1..];
    if t[i] != t[n - 1] {
      var t' := t[n := t[i]];
      assert t'[..n + 1] == t[..n] + [s[i]];
      assert t'[i + 1..] == t[i + 1..];
    }
  }

  lemma DedupedAll(t: seq<Bytes>, s: seq<Bytes>, n: nat)
    requires DedupedTo(t, s, n, |s|)
    ensures t[..n] == Dedup(s)
  {
    assert s[..|s|] == s;
  }

  /** dedupSorted: the result overwrites the front of the array it reads from. */
  method DedupSorted(a: array<Bytes>) returns (n: nat, dups: nat)
    modifies a
    ensures n <= a.Length && n + dups == a.Length
    ensures a[..n] == Dedup(old(a[..]))
  {
    ghost var s := a[..];
    if a.Length <= 1 {
      assert a[..a.Length] == a[..];
      return a.Length, 0;
    }
    n, dups := 1, 0;
    assert s[..1] == [s[0]] && Dedup(s[..1]) == s[..1];
    assert DedupedTo(a[..], s, 1, 1);
    hide DedupedTo, Dedup;
    for i := 1 to a.Length
      invariant 0 < n <= i && n + dups == i && DedupedTo(a[..], s, n, i)
    {
      ghost var t := a[..];
      DedupStep(t, s, n, i);
      if a[i] == a[n - 1] {
        dups := dups + 1;
      } else {
        a[n] := a[i];
        assert a[..] == t[n := t[i]];
        n := n + 1;
      }
    }
    DedupedAll(a[..], s, n);
    assert a[..][..n] == a[..n];
  }

  // ---- the ingest ----

  /** What both ingests accept. */
  predicate IngestOk(quads: seq<Quad>, dl: Bytes) {
    LabelOk(dl) && forall i | 0 <= i < |quads| :: quads[i].IsValid() && LabelOk(quads[i].Under(dl).lbl)
  }

  /** An input is accepted exactly if every label in it is good and no quad lacks a field it needs. */
  lemma IngestOkMeans(quads: seq<Quad>, dl: Bytes)
    ensures IngestOk(quads, dl)
      <==> && LabelOk(dl)
           && forall i | 0 <= i < |quads| ::
                |quads[i].subj| > 0 && |quads[i].pred| > 0 && |quads[i].obj| > 0 && LabelOk(quads[i].lbl)
  {
    AcceptedMeans(Batch(quads, [], dl, [], false));
    hide LabelOk, Quad.IsValid, Quad.Under;
  }

  /** What both ingests do: the new contents, the quads ingested, the duplicates skipped. */
  datatype Outcome = Outcome(kv: KV, ingested: nat, duplicates: nat)

  /** Quads are counted by their SPO keys, which may coincide if fields hold NULs. */
  function Ingestion(kv: KV, quads: seq<Quad>, dl: Bytes): (o: Outcome)
    ensures o.ingested + o.duplicates == |quads|
  {
    var effs := Effective(quads, dl);
    var keys := Image(SPO, Elements(effs));
    AtMostLength(effs);
    ImageAtMost(SPO, Elements(effs));
    Outcome(LoadKv(kv, effs), |keys|, |quads| - |keys|)
  }

  lemma IngestionIs(kv: KV, quads: seq<Quad>, dl: Bytes)
    ensures var effs := Effective(quads, dl);
      && |Image(SPO, Elements(effs))| <= |quads|
      && Ingestion(kv, quads, dl)
           == Outcome(LoadKv(kv, effs), |Image(SPO, Elements(effs))|, |quads| - |Image(SPO, Elements(effs))|)
  {
    AtMostLength(Effective(quads, dl));
    ImageAtMost(SPO, Elements(Effective(quads, dl)));
  }

  lemma {:induction false} ImageAtMost(sp: Space, s: set<Quad>)
    ensures |Image(sp, s)| <= |s|
  {
    hide KeyOf;
    if s == {} {
      assert Image(sp, s) == {};
    } else {
      var q :| q in s;
      var rest := s - {q};
      ImageAtMost(sp, rest);
      forall k | k in Image(sp, s) ensures k in Image(sp, rest) + {KeyOf(sp, q)} {
        var r :| r in s && KeyOf(sp, r) == k;
        if r != q { assert r in rest; }
      }
      SubsetSize(Image(sp, s), Image(sp, rest) + {KeyOf(sp, q)});
    }
  }

  /**
   * Without NULs an ingest adds the quads given, each as given under its own label or the default, and counts
   * the distinct ones and the rest.
   */
  lemma IngestionCounts(kv: KV, quads: seq<Quad>, dl: Bytes)
    requires AllNulFree(Elements(quads)) && NulFree(dl)
    ensures Ingestion(kv, quads, dl).ingested == |Given(quads, dl)|
    ensures Ingestion(kv, quads, dl).duplicates == |quads| - |Given(quads, dl)|
    ensures forall s | Indexes(kv, s) :: Indexes(Ingestion(kv, quads, dl).kv, s + Given(quads, dl))
  {
    EffectiveNulFree(quads, dl);
    EffectiveGiven(quads, dl);
    ImageSize(SPO, Elements(Effective(quads, dl)));
    hide Image, Effective, Elements, LoadKv, Given, Indexes;
    forall s | Indexes(kv, s) ensures Indexes(Ingestion(kv, quads, dl).kv, s + Given(quads, dl)) {
      LoadStores(kv, s, quads, dl);
    }
  }

  lemma {:induction false} AtMostLength<T>(s: seq<T>)
    ensures |Elements(s)| <= |s|
  {
    if s != [] {
      var n := |s| - 1;
      AtMostLength(s[..n]);
      ElementsNext(s, n);
      assert s[..n + 1] == s;
    }
  }

  /** An unsorted key array of one keyspace. */
  ghost predicate HoldsKeys(keys: seq<Bytes>, sp: Space, effs: seq<Quad>) {
    |keys| == |effs| && forall i | 0 <= i < |effs| :: keys[i] == KeyOf(sp, effs[i])
  }

  lemma HeldKeysAre(keys: seq<Bytes>, sp: Space, effs: seq<Quad>)
    requires HoldsKeys(keys, sp, effs)
    ensures Elements(keys) == Image(sp, Elements(effs))
  {
    hide KeyOf;
    forall k | k in keys ensures k in Image(sp, Elements(effs)) {
      var i :| 0 <= i < |keys| && keys[i] == k;
      assert effs[i] in Elements(effs);
    }
    forall q | q in Elements(effs) ensures KeyOf(sp, q) in Elements(keys) {
      var i :| 0 <= i < |effs| && effs[i] == q;
      assert keys[i] in keys;
    }
  }

  lemma SameMultisetElements(s: seq<Bytes>, t: seq<Bytes>)
    requires multiset(s) == multiset(t)
    ensures Elements(s) == Elements(t) && |s| == |t|
  {
    forall k ensures k in s <==> k in t { assert k in multiset(s) <==> k in multiset(t); }
    assert |multiset(s)| == |s| && |multiset(t)| == |t|;
  }

  /** Sorts and deduplicates one keyspace's keys, in place, into a table. */
  method TableOf(keys: seq<Bytes>, ghost sp: Space, ghost effs: seq<Quad>) returns (table: seq<Bytes>, dups: nat)
    requires HoldsKeys(keys, sp, effs)
    ensures StrictlySorted(table) && Elements(table) == Image(sp, Elements(effs)) && |table| + dups == |effs|
  {
    var a := new Bytes[|keys|](i requires 0 <= i < |keys| => keys[i]);
    assert a[..] == keys;
    HeldKeysAre(keys, sp, effs);
    hide Sorted, StrictlySorted, Dedup, Image, Elements, KeyOf;
    SortKeys(a);
    SameMultisetElements(a[..], keys);
    DedupStrict(a[..]);
    var n;
    n, dups := DedupSorted(a);
    table := a[..n];
  }

  lemma HoldsNext(keys: seq<Bytes>, sp: Space, effs: seq<Quad>, i: nat)
    requires i < |effs| && HoldsKeys(keys, sp, effs[..i])
    ensures HoldsKeys(keys + [KeyOf(sp, effs[i])], sp, effs[..i + 1])
  {
    hide KeyOf;
  }

  lemma TallyNext(effs: seq<Quad>, i: nat)
    requires i < |effs|
    ensures Tally(effs[..i + 1]) == Bump(Tally(effs[..i]), effs[i].lbl, 1)
  {
    assert effs[..i + 1][..i] == effs[..i];
  }

  /** The key arrays of the four keyspaces and the label deltas, filled in one pass. */
  method FillKeys(quads: seq<Quad>, dl: Bytes)
    returns (spo: seq<Bytes>, pos: seq<Bytes>, osp: seq<Bytes>, lsp: seq<Bytes>, deltas: Deltas)
    ensures HoldsKeys(spo, SPO, Effective(quads, dl)) && HoldsKeys(pos, POS, Effective(quads, dl))
    ensures HoldsKeys(osp, OSP, Effective(quads, dl)) && HoldsKeys(lsp, LSP, Effective(quads, dl))
    ensures deltas == Tally(Effective(quads, dl))
  {
    ghost var effs := Effective(quads, dl);
    spo, pos, osp, lsp, deltas := [], [], [], [], map[];
    assert effs[..0] == [];
    hide KeyOf, Tally, Bump;
    for i := 0 to |quads|
      invariant HoldsKeys(spo, SPO, effs[..i]) && HoldsKeys(pos, POS, effs[..i])
      invariant HoldsKeys(osp, OSP, effs[..i]) && HoldsKeys(lsp, LSP, effs[..i])
      invariant deltas == Tally(effs[..i])
    {
      hide HoldsKeys;
      var eff := quads[i].Under(dl);
      var keys := FourKeysFor(eff);
      HoldsNext(spo, SPO, effs, i);
      HoldsNext(pos, POS, effs, i);
      HoldsNext(osp, OSP, effs, i);
      HoldsNext(lsp, LSP, effs, i);
      spo, pos, osp, lsp := spo + [keys[0]], pos + [keys[1]], osp + [keys[2]], lsp + [keys[3]];
      TallyNext(effs, i);
      deltas := Bump(deltas, eff.lbl, 1);
    }
    assert effs[..|quads|] == effs;
  }

  /** Four tables, one for each keyspace of a quad set. */
  ghost predicate FourTables(tables: seq<seq<Bytes>>, s: set<Quad>) {
    && |tables| == 4 && (forall t | t in tables :: StrictlySorted(t))
    && Elements(tables[0]) == Image(SPO, s) && Elements(tables[1]) == Image(POS, s)
    && Elements(tables[2]) == Image(OSP, s) && Elements(tables[3]) == Image(LSP, s)
  }

  lemma KeyspacesApart(sp: Space, sp': Space, t: seq<Bytes>, t': seq<Bytes>, s: set<Quad>)
    requires Elements(t) == Image(sp, s) && Elements(t') == Image(sp', s) && Prefix(sp') < Prefix(sp)
    ensures Apart(t, t')
  {
    QuadKeySetIn(s, sp);
    QuadKeySetIn(s, sp');
    forall x, y | x in t && y in t' ensures Less(y, x) {
      assert x in Elements(t) && y in Elements(t');
    }
  }

  /** The four tables can be ingested together, and hold the set's keys. */
  lemma FourTablesIngest(tables: seq<seq<Bytes>>, s: set<Quad>, kv: KV)
    requires FourTables(tables, s)
    ensures Ingestible(tables) && Ingested(kv, tables) == Put(kv, s)
  {
    hide Apart, Image, StrictlySorted;
    KeyspacesApart(SPO, POS, tables[0], tables[1], s);
    KeyspacesApart(SPO, OSP, tables[0], tables[2], s);
    KeyspacesApart(SPO, LSP, tables[0], tables[3], s);
    KeyspacesApart(POS, OSP, tables[1], tables[2], s);
    KeyspacesApart(POS, LSP, tables[1], tables[3], s);
    KeyspacesApart(OSP, LSP, tables[2], tables[3], s);
    FourTableKeys(tables, s);
  }

  lemma FourTableKeys(tables: seq<seq<Bytes>>, s: set<Quad>)
    requires FourTables(tables, s)
    ensures TableKeys(tables) == QuadKeySet(s)
  {
    hide KeyOf, StrictlySorted;
    forall k | k in TableKeys(tables) ensures k in QuadKeySet(s) {
      var t :| t in tables && k in t;
      assert k in Elements(t);
      var i :| 0 <= i < 4 && tables[i] == t;
      assert k in Image([SPO, POS, OSP, LSP][i], s);
    }
    forall sp: Space, q | q in s ensures KeyOf(sp, q) in TableKeys(tables) {
      assert KeyOf(sp, q) in Image(sp, s);
      var i := match sp case SPO => 0 case POS => 1 case OSP => 2 case LSP => 3;
      assert KeyOf(sp, q) in Elements(tables[i]);
      assert tables[i] in tables;
    }
  }

  /** The first store operation of an ingest: the four tables land together. */
  method HandOver(store: Store, tables: seq<seq<Bytes>>, ghost quads: set<Quad>)
    requires FourTables(tables, quads)
    modifies store.db
    ensures store.db.kv == Put(old(store.db.kv), quads)
  {
    FourTablesIngest(tables, quads, store.db.kv);
    hide *;
    store.db.Ingest(tables);
  }

  /** The second: the label deltas, merged in one batch on whatever the store holds by then. */
  method MergeCounts(store: Store, deltas: Deltas)
    modifies store.db
    ensures store.db.kv == AddDeltas(old(store.db.kv), deltas)
  {
    hide *;
    if |deltas| > 0 {
      ghost var base := store.db.kv;
      var wb := ApplyLabelDeltas([], deltas, base);
      NothingApplied(base);
      store.db.Commit(wb);
    } else {
      AddNone(store.db.kv);
      assert deltas == map[];
    }
  }

  lemma NothingApplied(kv: KV)
    ensures ApplyAll(kv, []) == kv
  {}

  /** Both, with no other writer between them: what both ingests end with. */
  method IngestTables(store: Store, tables: seq<seq<Bytes>>, deltas: Deltas, ghost effs: seq<Quad>)
    requires FourTables(tables, Elements(effs)) && deltas == Tally(effs)
    modifies store.db
    ensures store.db.kv == LoadKv(old(store.db.kv), effs)
  {
    hide FourTables, Put, AddDeltas, Tally, Elements;
    HandOver(store, tables, Elements(effs));
    MergeCounts(store, deltas);
  }

  /** The up-front validation; any violation rejects the whole input. */
  method ValidateInput(quads: seq<Quad>, dl: Bytes) returns (r: Option<Error>)
    ensures r.None? <==> IngestOk(quads, dl)
    ensures r.Some? ==> r.value == InvalidLabel || r.value == EmptyQuad
    ensures r == Some(InvalidLabel) ==> !LabelOk(dl) || exists i | 0 <= i < |quads| :: !LabelOk(quads[i].lbl)
    ensures r == Some(EmptyQuad) ==>
      exists i | 0 <= i < |quads| :: quads[i].subj == [] || quads[i].pred == [] || quads[i].obj == []
  {
    hide LabelOk;
    var ok := ValidateLabel(dl);
    if !ok { return Some(InvalidLabel); }
    for i := 0 to |quads|
      invariant forall j | 0 <= j < i :: quads[j].IsValid() && LabelOk(quads[j].Under(dl).lbl)
    {
      var q := quads[i];
      if !q.IsValid() { return Some(EmptyQuad); }
      ok := ValidateLabel(q.Under(dl).lbl);
      if !ok { return Some(InvalidLabel); }
    }
    return None;
  }

  lemma FourTablesFrom(spo: seq<Bytes>, pos: seq<Bytes>, osp: seq<Bytes>, lsp: seq<Bytes>, s: set<Quad>)
    requires StrictlySorted(spo) && StrictlySorted(pos) && StrictlySorted(osp) && StrictlySorted(lsp)
    requires Elements(spo) == Image(SPO, s) && Elements(pos) == Image(POS, s)
    requires Elements(osp) == Image(OSP, s) && Elements(lsp) == Image(LSP, s)
    ensures FourTables([spo, pos, osp, lsp], s)
  {
    hide StrictlySorted, Elements, Image;
  }

  /** One table per keyspace, the duplicates the first of them dropped, and the label deltas. */
  method BuildTables(quads: seq<Quad>, dl: Bytes)
    returns (tables: seq<seq<Bytes>>, dupCount: nat, deltas: Deltas)
    ensures FourTables(tables, Elements(Effective(quads, dl))) && deltas == Tally(Effective(quads, dl))
    ensures |tables[0]| + dupCount == |quads|
  {
    ghost var effs := Effective(quads, dl);
    hide *;
    var spo, pos, osp, lsp;
    spo, pos, osp, lsp, deltas := FillKeys(quads, dl);
    var uniqueSPO;
    uniqueSPO, dupCount := TableOf(spo, SPO, effs);
    var uniquePOS, _ := TableOf(pos, POS, effs);
    var uniqueOSP, _ := TableOf(osp, OSP, effs);
    var uniqueLSP, _ := TableOf(lsp, LSP, effs);
    FourTablesFrom(uniqueSPO, uniquePOS, uniqueOSP, uniqueLSP, Elements(effs));
    tables := [uniqueSPO, uniquePOS, uniqueOSP, uniqueLSP];
  }

  datatype IngestStats = IngestStats(ingested: nat, duplicates: nat, tables: nat)

  method Ingest(store: Store, quads: seq<Quad>, dl: Bytes) returns (r: Result<IngestStats>)
    modifies store.db
    ensures r.Ok? <==> !store.closed && IngestOk(quads, dl)
    ensures r.Err? ==> store.db.kv == old(store.db.kv) && r.error in {StoreClosed, InvalidLabel, EmptyQuad}
    ensures r == Err(StoreClosed) <==> store.closed
    ensures r == Err(InvalidLabel) ==> !LabelOk(dl) || exists i | 0 <= i < |quads| :: !LabelOk(quads[i].lbl)
    ensures r == Err(EmptyQuad) ==>
      exists i | 0 <= i < |quads| :: quads[i].subj == [] || quads[i].pred == [] || quads[i].obj == []
    ensures r.Ok? ==>
      Outcome(store.db.kv, r.value.ingested, r.value.duplicates) == Ingestion(old(store.db.kv), quads, dl)
    ensures r.Ok? && AllNulFree(Elements(quads)) && NulFree(dl) ==>
      && r.value.ingested == |Given(quads, dl)| && r.value.duplicates == |quads| - |Given(quads, dl)|
      && forall s | Indexes(old(store.db.kv), s) :: Indexes(store.db.kv, s + Given(quads, dl))
    ensures r.Ok? ==> r.value.tables == 4
  {
    if store.closed { return Err(StoreClosed); }
    var rejected := ValidateInput(quads, dl);
    if rejected.Some? { return Err(rejected.value); }
    hide IngestOk, Elements, Image, StrictlySorted, Effective, LoadKv, Tally, AllNulFree, NulFree, Given, Indexes;
    ghost var effs, kv := Effective(quads, dl), store.db.kv;
    if AllNulFree(Elements(quads)) && NulFree(dl) { IngestionCounts(kv, quads, dl); }
    var tables, dupCount, deltas := BuildTables(quads, dl);
    StrictlySortedDistinct(tables[0]);
    IngestTables(store, tables, deltas, effs);
    return Ok(IngestStats(|tables[0]|, dupCount, |tables|));
  }
}
