/** Pattern reads over the four keyspaces, and the counted reads. */
module PebbleReader {
  import opened ByteOrder
  import opened Consumers
  import opened CounterMerge
  import opened Integers
  import opened Keyspaces
  import opened LabelCount
  import opened Pebble
  import opened PebbleStore
  import opened QuadKeys
  import opened Quads
  import opened StoreModel
  import History

  /** The keyspace a pattern is read from: that of its first bound field. */
  function Chosen(p: Pattern): Space {
    if p.subj != [] then SPO
    else if p.pred != [] then POS
    else if p.obj != [] then OSP
    else if p.lbl != [] then LSP
    else SPO
  }

  /** The bound fields that fix a prefix of that keyspace. */
  function Lead(p: Pattern): seq<Bytes> {
    if p.subj != [] then [p.subj] + if p.pred == [] then [] else [p.pred] + if p.obj == [] then [] else [p.obj]
    else if p.pred != [] then [p.pred] + if p.obj == [] then [] else [p.obj]
    else if p.obj != [] then [p.obj]
    else if p.lbl != [] then [p.lbl]
    else []
  }

  function Lower(p: Pattern): (lo: Bytes)
    ensures lo != []
  {
    if Lead(p) == [] then [Prefix(SPO)] else ScanPrefix(Chosen(p), Lead(p))
  }

  function Upper(p: Pattern): Bytes {
    if Lead(p) == [] then [Prefix(SPO) + 1] else UpperBoundForPrefix(Lower(p))
  }

  /** The quads a scan of some keys yields, undecodable keys and mismatches skipped. */
  function Hits(keys: seq<Bytes>, p: Pattern): seq<Quad> {
    if keys == [] then []
    else
      var n := |keys| - 1;
      match Decode(keys[n])
      case Some(q) => Hits(keys[..n], p) + if Matches(p, q) then [q] else []
      case None => Hits(keys[..n], p)
  }

  /** Everything a scan for the pattern yields when it is not stopped. */
  function FindAll(kv: KV, p: Pattern): seq<Quad> {
    Hits(RangeKeys(kv, Lower(p), Upper(p)), p)
  }

  lemma HitsNext(keys: seq<Bytes>, i: nat, p: Pattern)
    requires i < |keys|
    ensures Hits(keys[..i + 1], p) ==
      match Decode(keys[i])
      case Some(q) => Hits(keys[..i], p) + if Matches(p, q) then [q] else []
      case None => Hits(keys[..i], p)
  {
    assert keys[..i + 1][..i] == keys[..i];
  }

  lemma {:induction false} HitsPrefix(keys: seq<Bytes>, i: nat, p: Pattern)
    requires i <= |keys|
    ensures Hits(keys[..i], p) <= Hits(keys, p)
    decreases |keys| - i
  {
    hide Hits;
    if i < |keys| {
      HitsNext(keys, i, p);
      HitsPrefix(keys, i + 1, p);
    } else {
      assert keys[..i] == keys;
    }
  }

  /** Find's loop over the iterator. */
  method Yield(it: Iterator, p: Pattern, keep: seq<Quad> -> bool) returns (out: seq<Quad>)
    requires it.WellFormed()
    modifies it
    ensures TakenWhile(out, Hits(it.keys, p), keep)
  {
    hide Hits, Decode, Matches, KeptGoing, TakenWhile, StrictlySorted;
    out := [];
    ghost var keys := it.keys;
    ghost var all := Hits(keys, p);
    NothingYet(keys, p, keep);
    var _ := it.First();
    while it.Valid()
      invariant it.WellFormed()
      invariant out == Hits(keys[..it.pos], p)
      invariant KeptGoing(out, keep)
      decreases |keys| - it.pos
    {
      HitsNext(keys, it.pos, p);
      HitsPrefix(keys, it.pos + 1, p);
      var q := Decode(it.Key());
      if q.Some? && Matches(p, q.value) {
        ghost var before := out;
        out := out + [q.value];
        KeptGoingNext(before, q.value, keep);
        if !keep(out) {
          Stopped(before, q.value, all, keep);
          return;
        }
      }
      var _ := it.Next();
    }
    assert keys[..it.pos] == keys;
    Finished(out, keep);
  }

  /** A pattern that binds the label and nothing else. */
  predicate LabelOnly(p: Pattern) {
    p.lbl != [] && p.subj == p.pred == p.obj == []
  }

  /** Such a pattern asks for the quads of its label. */
  lemma LabelOnlyFilter(s: set<Quad>, p: Pattern)
    requires LabelOnly(p)
    ensures Filter(s, p) == WithLabel(s, p.lbl)
  {}

  class Reader {
    const store: Store

    constructor (store: Store)
      ensures this.store == store
    {
      this.store := store;
    }

    /** The key range of a pattern, by the first bound field. */
    method Bounds(p: Pattern) returns (lower: Bytes, upper: Bytes)
      ensures lower == Lower(p) && upper == Upper(p)
    {
      if p.subj != [] {
        var parts := [p.subj];
        if p.pred != [] {
          parts := parts + [p.pred];
          if p.obj != [] { parts := parts + [p.obj]; }
        }
        var pref := BuildKey(Prefix(SPO), parts);
        assert parts == Lead(p);
        lower := pref + [SEP];
        upper := UpperBoundForPrefix(lower);
      } else if p.pred != [] {
        var parts := [p.pred];
        if p.obj != [] { parts := parts + [p.obj]; }
        var pref := BuildKey(Prefix(POS), parts);
        assert parts == Lead(p);
        lower := pref + [SEP];
        upper := UpperBoundForPrefix(lower);
      } else if p.obj != [] {
        var pref := BuildKey(Prefix(OSP), [p.obj]);
        lower := pref + [SEP];
        upper := UpperBoundForPrefix(lower);
      } else if p.lbl != [] {
        var pref := BuildKey(Prefix(LSP), [p.lbl]);
        lower := pref + [SEP];
        upper := UpperBoundForPrefix(lower);
      } else {
        lower := [Prefix(SPO)];
        upper := [Prefix(SPO) + 1];
      }
    }

    /** Yields matches in key order until the consumer stops it: a prefix of the full result. */
    method Find(p: Pattern, keep: seq<Quad> -> bool) returns (out: seq<Quad>)
      ensures TakenWhile(out, FindAll(store.db.kv, p), keep)
    {
      var lower, upper := Bounds(p);
      var it := store.db.NewIter(lower, upper);
      out := Yield(it, p, keep);
    }

    /** readLabelCount: a missing counter reads 0, an ill-formed one is an error. */
    method ReadLabelCount(l: Bytes) returns (r: Option<int>)
      ensures r.None? <==> CountKey(l) in store.db.kv && |store.db.kv[CountKey(l)]| != 8
      ensures CountersOk(store.db.kv) ==> r == Some(Counter(store.db.kv, l))
    {
      var v := store.db.Get(CountKey(l));
      if v.None? { return Some(0); }
      if |v.value| != 8 { return None; }
      return Some(DecodeI64(v.value));
    }

    /**
     * The counter for a label-only pattern, a counted scan for any other: always the number of matches if more
     * or less than the label is bound, and otherwise exactly if the label's counter is the number of its quads.
     */
    method Count(p: Pattern) returns (r: Option<int>)
      ensures r.None? <==> LabelOnly(p) && CountKey(p.lbl) in store.db.kv && |store.db.kv[CountKey(p.lbl)]| != 8
      ensures LabelOnly(p) && CountersOk(store.db.kv) ==> r == Some(Counter(store.db.kv, p.lbl))
      ensures !LabelOnly(p) ==> r == Some(|FindAll(store.db.kv, p)|)
      ensures p.subj != [] || p.pred != [] || p.obj != [] || p.lbl == [] ==>
        forall s | Indexes(store.db.kv, s) :: r == Some(|Filter(s, p)|)
      ensures p.subj == [] && p.pred == [] && p.obj == [] && p.lbl != [] && CountersOk(store.db.kv) ==>
        forall s | Indexes(store.db.kv, s) ::
          r == Some(|Filter(s, p)|) <==> Counter(store.db.kv, p.lbl) == |WithLabel(s, p.lbl)|
    {
      hide FindAll, Filter, WithLabel, CountersOk, Counter, Indexes;
      forall s | Indexes(store.db.kv, s)
        ensures |FindAll(store.db.kv, p)| == |Filter(s, p)|
        ensures LabelOnly(p) ==> Filter(s, p) == WithLabel(s, p.lbl)
      {
        FindExact(store.db.kv, s, p);
        if LabelOnly(p) { LabelOnlyFilter(s, p); }
      }
      if p.lbl != [] && p.subj == [] && p.pred == [] && p.obj == [] {
        r := ReadLabelCount(p.lbl);
      } else {
        var all := Find(p, _ => true);
        var n := 0;
        for i := 0 to |all|
          invariant n == i
        {
          n := n + 1;
        }
        r := Some(n);
      }
    }
  }

  lemma NothingYet(keys: seq<Bytes>, p: Pattern, keep: seq<Quad> -> bool)
    ensures Hits(keys[..0], p) == [] && KeptGoing([], keep)
  {}

  // ---- what the scan yields ----

  /** Quads in the byte order of their keys in a keyspace. */
  ghost predicate InKeyOrder(qs: seq<Quad>, sp: Space) {
    forall i, j | 0 <= i < j < |qs| :: Less(KeyOf(sp, qs[i]), KeyOf(sp, qs[j]))
  }

  /** Every scanned key is the key of a stored quad in the chosen keyspace. */
  lemma ScannedKeys(kv: KV, s: set<Quad>, p: Pattern)
    requires Indexes(kv, s)
    ensures forall k | k in RangeKeys(kv, Lower(p), Upper(p)) :: k in Image(Chosen(p), s)
  {
    var sp := Chosen(p);
    forall k | k in RangeKeys(kv, Lower(p), Upper(p)) ensures k in Image(sp, s) {
      if Lead(p) == [] {
        OneByteRange(Prefix(SPO), k);
      } else {
        PrefixRange(Lower(p), k);
        assert Lower(p)[0] == Prefix(sp) && k[0] == Lower(p)[0];
      }
      assert k in KeysIn(kv, Prefix(sp));
    }
  }

  lemma LeadMatches(p: Pattern, q: Quad)
    requires Matches(p, q)
    ensures Lead(p) <= Fields(Chosen(p), q) && |Lead(p)| < 4
  {}

  /** Every match is inside the scanned range. */
  lemma MatchScanned(kv: KV, s: set<Quad>, p: Pattern, q: Quad)
    requires Indexes(kv, s) && q in s && Matches(p, q)
    ensures KeyOf(Chosen(p), q) in RangeKeys(kv, Lower(p), Upper(p))
  {
    var sp := Chosen(p);
    var k := KeyOf(sp, q);
    assert k in Image(sp, s) && k in KeysIn(kv, Prefix(sp));
    LeadMatches(p, q);
    if Lead(p) == [] {
      OneByteRange(Prefix(SPO), k);
    } else {
      FieldsNulFree(sp, q);
      ScanRange(sp, Lead(p), q);
    }
  }

  lemma FieldsNulFree(sp: Space, q: Quad)
    requires QuadNulFree(q)
    ensures forall i | 0 <= i < 4 :: NulFree(Fields(sp, q)[i])
  {}

  /** A quad is yielded exactly if it is a matching quad of s whose key was scanned. */
  ghost predicate HitExact(keys: seq<Bytes>, p: Pattern, sp: Space, s: set<Quad>, q: Quad) {
    q in Hits(keys, p) <==> q in s && Matches(p, q) && KeyOf(sp, q) in keys
  }

  ghost predicate HitsExact(keys: seq<Bytes>, p: Pattern, sp: Space, s: set<Quad>) {
    forall q :: HitExact(keys, p, sp, s, q)
  }

  lemma HitStep(front: seq<Bytes>, last: Bytes, r: Quad, p: Pattern, sp: Space, s: set<Quad>, q: Quad)
    requires AllNulFree(s) && r in s && KeyOf(sp, r) == last && Decode(last) == Some(r)
    requires HitExact(front, p, sp, s, q)
    ensures HitExact(front + [last], p, sp, s, q)
  {
    hide Hits, Matches, KeyOf, Decode, QuadNulFree;
    HitsOf(front, last, r, p);
    if q in s && KeyOf(sp, q) == last { KeyInjective(sp, q, r); }
  }

  lemma HitsOf(front: seq<Bytes>, last: Bytes, r: Quad, p: Pattern)
    requires Decode(last) == Some(r)
    ensures Hits(front + [last], p) == Hits(front, p) + if Matches(p, r) then [r] else []
  {
    var keys := front + [last];
    assert keys[..|front|] == front && keys[..|front| + 1] == keys;
    HitsNext(keys, |front|, p);
  }

  lemma HitsStep(front: seq<Bytes>, last: Bytes, r: Quad, p: Pattern, sp: Space, s: set<Quad>)
    requires AllNulFree(s) && r in s && KeyOf(sp, r) == last && Decode(last) == Some(r)
    requires HitsExact(front, p, sp, s)
    ensures HitsExact(front + [last], p, sp, s)
  {
    hide HitExact;
    forall q ensures HitExact(front + [last], p, sp, s, q) {
      assert HitExact(front, p, sp, s, q);
      HitStep(front, last, r, p, sp, s, q);
    }
  }

  lemma OrderNext(before: seq<Quad>, r: Quad, sp: Space)
    requires InKeyOrder(before, sp) && forall q | q in before :: Less(KeyOf(sp, q), KeyOf(sp, r))
    ensures InKeyOrder(before + [r], sp)
  {
    hide KeyOf, Less;
  }

  lemma {:induction false} HitsAre(keys: seq<Bytes>, p: Pattern, sp: Space, s: set<Quad>)
    requires AllNulFree(s) && StrictlySorted(keys) && forall k | k in keys :: k in Image(sp, s)
    ensures HitsExact(keys, p, sp, s) && InKeyOrder(Hits(keys, p), sp)
  {
    if keys != [] {
      var n := |keys| - 1;
      var front, last := keys[..n], keys[n];
      assert keys == front + [last];
      HitsAre(front, p, sp, s);
      assert last in Image(sp, s);
      var r :| r in s && KeyOf(sp, r) == last;
      DecodeEncode(sp, r);
      HitsStep(front, last, r, p, sp, s);
      HitsOf(front, last, r, p);
      forall q | q in Hits(front, p) ensures Less(KeyOf(sp, q), last) { assert HitExact(front, p, sp, s, q); }
      OrderNext(Hits(front, p), r, sp);
    }
  }

  lemma InOrderDistinct(qs: seq<Quad>, sp: Space)
    requires InKeyOrder(qs, sp)
    ensures |Elements(qs)| == |qs|
  {
    forall i, j | 0 <= i < j < |qs| ensures qs[i] != qs[j] { LessIrreflexive(KeyOf(sp, qs[i])); }
    DistinctCardinality(qs);
  }

  /**
   * For every pattern the scan yields exactly the filter of the stored set, each quad once, in the byte
   * order of the chosen keyspace.
   */
  lemma FindExact(kv: KV, s: set<Quad>, p: Pattern)
    requires Indexes(kv, s)
    ensures Elements(FindAll(kv, p)) == Filter(s, p)
    ensures |FindAll(kv, p)| == |Filter(s, p)|
    ensures InKeyOrder(FindAll(kv, p), Chosen(p))
  {
    var keys, sp := RangeKeys(kv, Lower(p), Upper(p)), Chosen(p);
    ScannedKeys(kv, s, p);
    HitsAre(keys, p, sp, s);
    hide Hits, RangeKeys, KeyOf, Matches, Lower, Upper, Chosen;
    forall q ensures q in FindAll(kv, p) <==> q in Filter(s, p) {
      assert HitExact(keys, p, sp, s, q);
      if q in Filter(s, p) { MatchScanned(kv, s, p, q); }
    }
    InOrderDistinct(FindAll(kv, p), sp);
  }

  /**
   * An unbound read finds every stored quad, and binding a field narrows what is found by exactly that field,
   * whatever else is bound and whichever keyspace is read.
   */
  lemma FoundFieldsNarrow(kv: KV, s: set<Quad>, p: Pattern, f: Bytes)
    requires Indexes(kv, s) && f != []
    ensures Elements(FindAll(kv, WILDCARD)) == s
    ensures p.subj == [] ==>
      Elements(FindAll(kv, p.(subj := f))) == set q | q in Elements(FindAll(kv, p)) && q.subj == f
    ensures p.pred == [] ==>
      Elements(FindAll(kv, p.(pred := f))) == set q | q in Elements(FindAll(kv, p)) && q.pred == f
    ensures p.obj == [] ==>
      Elements(FindAll(kv, p.(obj := f))) == set q | q in Elements(FindAll(kv, p)) && q.obj == f
    ensures p.lbl == [] ==>
      Elements(FindAll(kv, p.(lbl := f))) == set q | q in Elements(FindAll(kv, p)) && q.lbl == f
  {
    hide FindAll, Filter, Indexes, Chosen;
    BoundFieldsNarrow(s, p, f);
    FindExact(kv, s, WILDCARD);
    FindExact(kv, s, p);
    FindExact(kv, s, p.(subj := f));
    FindExact(kv, s, p.(pred := f));
    FindExact(kv, s, p.(obj := f));
    FindExact(kv, s, p.(lbl := f));
  }

  /** Which quads are scanned: those that agree in the first bound field and the bound ones that follow it. */
  lemma ScannedQuads(p: Pattern, q: Quad)
    requires QuadNulFree(q) && NulFree(p.subj) && NulFree(p.pred) && NulFree(p.obj) && NulFree(p.lbl)
    ensures InRange(KeyOf(Chosen(p), q), Lower(p), Upper(p))
      <==> if p.subj != [] then
             q.subj == p.subj && (p.pred != [] ==> q.pred == p.pred && (p.obj != [] ==> q.obj == p.obj))
           else if p.pred != [] then q.pred == p.pred && (p.obj != [] ==> q.obj == p.obj)
           else if p.obj != [] then q.obj == p.obj
           else p.lbl != [] ==> q.lbl == p.lbl
  {
    if Lead(p) == [] {
      OneByteRange(Prefix(SPO), KeyOf(SPO, q));
    } else {
      hide KeyOf, Lower, Upper, UpperBoundForPrefix, InRange;
      BoundsOf(p);
      ScanRange(Chosen(p), Lead(p), q);
      LeadAgrees(p, q);
    }
  }

  lemma LeadAgrees(p: Pattern, q: Quad)
    requires Lead(p) != []
    ensures Lead(p) <= Fields(Chosen(p), q)
      <==> if p.subj != [] then
             q.subj == p.subj && (p.pred != [] ==> q.pred == p.pred && (p.obj != [] ==> q.obj == p.obj))
           else if p.pred != [] then q.pred == p.pred && (p.obj != [] ==> q.obj == p.obj)
           else if p.obj != [] then q.obj == p.obj
           else q.lbl == p.lbl
  {
    var lead, f := Lead(p), Fields(Chosen(p), q);
    assert lead <= f <==> forall i | 0 <= i < |lead| :: lead[i] == f[i];
    if lead <= f {
      assert lead[0] == f[0] && (|lead| > 1 ==> lead[1] == f[1]) && (|lead| > 2 ==> lead[2] == f[2]);
    }
  }

  lemma BoundsOf(p: Pattern)
    requires Lead(p) != []
    ensures Lower(p) == ScanPrefix(Chosen(p), Lead(p))
    ensures Upper(p) == UpperBoundForPrefix(ScanPrefix(Chosen(p), Lead(p)))
  {}

  /**
   * In any reachable state the O(1) count of a label is the number of quads a scan for it yields exactly if the
   * counter has drifted by a multiple of 2^64.
   */
  lemma CountIsScan(es: seq<History.Event>, l: Bytes)
    requires History.RunOk(es) && l != [] && History.TrueCount(History.RunView(es).quads, l) < TWO63
    ensures CountersOk(History.RunKv(es))
    ensures Counter(History.RunKv(es), l) == |FindAll(History.RunKv(es), Pattern([], [], [], l))|
      <==> History.Drift(es, l) % TWO64 == 0
  {
    var kv, v, p := History.RunKv(es), History.RunView(es), Pattern([], [], [], l);
    History.RunRepresents(es);
    RepresentsIndexes(kv, v);
    assert LabelOnly(p);
    LabelOnlyFilter(v.quads, p);
    assert History.TrueCount(v.quads, l) == |WithLabel(v.quads, l)|;
    hide *;
    FindExact(kv, v.quads, p);
    History.CountExactIffNoDrift(es, l);
  }
}
