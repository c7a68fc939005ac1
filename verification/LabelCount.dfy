/** Per-label counters: deltas, their merges, and the rebuild from the label keyspace. */
module LabelCount {
  import opened ByteOrder
  import opened CounterMerge
  import opened Integers
  import opened Keyspaces
  import opened Pebble
  import opened QuadKeys
  import opened Quads

  type Deltas = map<Bytes, int>

  function CountKey(l: Bytes): Bytes {
    [LABEL_COUNT] + l
  }

  function At(d: Deltas, l: Bytes): int {
    if l in d then d[l] else 0
  }

  function Bump(d: Deltas, l: Bytes, n: int): Deltas {
    d[l := At(d, l) + n]
  }

  /** d with n added under the label of each quad. */
  function AddTally(d: Deltas, qs: seq<Quad>, n: int): Deltas {
    if qs == [] then d else Bump(AddTally(d, qs[..|qs| - 1], n), qs[|qs| - 1].lbl, n)
  }

  /** Adds per label. */
  function Tally(qs: seq<Quad>): Deltas {
    AddTally(map[], qs, 1)
  }

  function CountLabel(qs: seq<Quad>, l: Bytes): nat {
    if qs == [] then 0
    else CountLabel(qs[..|qs| - 1], l) + if qs[|qs| - 1].lbl == l then 1 else 0
  }

  /** The number of positions with a quad of the label. */
  lemma {:induction false} CountLabelIs(qs: seq<Quad>, l: Bytes)
    ensures CountLabel(qs, l) == |set i | 0 <= i < |qs| && qs[i].lbl == l|
  {
    if qs != [] {
      var n := |qs| - 1;
      CountLabelIs(qs[..n], l);
      PositionsNext(qs, n, l);
    }
  }

  lemma PositionsNext(qs: seq<Quad>, n: nat, l: Bytes)
    requires |qs| == n + 1
    ensures |set i | 0 <= i < |qs| && qs[i].lbl == l|
         == |set i | 0 <= i < n && qs[..n][i].lbl == l| + if qs[n].lbl == l then 1 else 0
  {
    var front := set i | 0 <= i < n && qs[..n][i].lbl == l;
    var all := set i | 0 <= i < |qs| && qs[i].lbl == l;
    if qs[n].lbl == l {
      assert all == front + {n};
    } else {
      assert all == front;
    }
  }

  lemma {:induction false} AddTallyAt(d: Deltas, qs: seq<Quad>, n: int, l: Bytes)
    requires n == 1 || n == -1
    ensures At(AddTally(d, qs, n), l) == At(d, l) + n * CountLabel(qs, l)
    ensures l in AddTally(d, qs, n) <==> l in d || CountLabel(qs, l) > 0
  {
    if qs != [] { AddTallyAt(d, qs[..|qs| - 1], n, l); }
  }

  lemma {:induction false} CountAtMostLength(qs: seq<Quad>, l: Bytes)
    ensures CountLabel(qs, l) <= |qs|
  {
    if qs == [] {
    } else {
      CountAtMostLength(qs[..|qs| - 1], l);
    }
  }

  /**
   * Deltas are kept as mathematical integers. They stay within the number of rows charged so far, so as
   * 64-bit integers they would not wrap while a batch has fewer than 2^63 rows.
   */
  lemma DeltasInRange(adds: seq<Quad>, removes: seq<Quad>, l: Bytes)
    ensures -|removes| <= At(AddTally(Tally(adds), removes, -1), l) <= |adds|
    ensures |adds| < TWO63 && |removes| <= TWO63 ==> IsInt64(At(AddTally(Tally(adds), removes, -1), l))
  {
    AddTallyAt(map[], adds, 1, l);
    AddTallyAt(Tally(adds), removes, -1, l);
    CountAtMostLength(adds, l);
    CountAtMostLength(removes, l);
    hide CountLabel, AddTally;
  }

  lemma {:induction false} CountLabelConcat(a: seq<Quad>, b: seq<Quad>, l: Bytes)
    ensures CountLabel(a + b, l) == CountLabel(a, l) + CountLabel(b, l)
  {
    if b == [] {
      assert a + b == a;
    } else {
      assert (a + b)[..|a + b| - 1] == a + b[..|b| - 1];
      CountLabelConcat(a, b[..|b| - 1], l);
    }
  }

  /** aggregateLabelDeltas: adds and removes both charged under the batch label when they carry none. */
  function BatchDeltas(b: Batch): Deltas {
    AddTally(Tally(Effective(b.adds, b.lbl)), Effective(b.removes, b.lbl), -1)
  }

  /** A label's delta: the adds charged to it less the removes, both to the batch label if they carry none. */
  lemma BatchDeltasAre(b: Batch, l: Bytes)
    ensures At(BatchDeltas(b), l)
         == |set i | 0 <= i < |b.adds| && l == if b.adds[i].lbl == [] then b.lbl else b.adds[i].lbl|
            - |set i | 0 <= i < |b.removes| && l == if b.removes[i].lbl == [] then b.lbl else b.removes[i].lbl|
  {
    var adds, removes := Effective(b.adds, b.lbl), Effective(b.removes, b.lbl);
    ChargedAre(b.adds, b.lbl, l);
    ChargedAre(b.removes, b.lbl, l);
    hide Effective, AddTally, CountLabel;
    AddTallyAt(map[], adds, 1, l);
    AddTallyAt(Tally(adds), removes, -1, l);
  }

  lemma ChargedAre(qs: seq<Quad>, dl: Bytes, l: Bytes)
    ensures CountLabel(Effective(qs, dl), l)
         == |set i | 0 <= i < |qs| && l == if qs[i].lbl == [] then dl else qs[i].lbl|
  {
    var effs := Effective(qs, dl);
    CountLabelIs(effs, l);
    assert (set i | 0 <= i < |effs| && effs[i].lbl == l)
        == set i | 0 <= i < |qs| && l == if qs[i].lbl == [] then dl else qs[i].lbl;
  }

  /** A counter's key and value: 'L' and the label; the count in eight bytes, little-endian, modulo 2^64. */
  lemma CounterLayout(l: Bytes, n: int)
    ensures CountKey(l) == [76] + l
    ensures |EncodeI64(n)| == 8 && Places(EncodeI64(n), 256, 1) == n % 0x1_0000_0000_0000_0000
  {
    assert Pow256(8) == TWO64;
    LeRoundTrip(n % TWO64, 8);
    hide LeBytes, FromLe, Places;
    FromLePlaces(EncodeI64(n), 1);
  }

  method AggregateLabelDeltas(adds: seq<Quad>, removes: seq<Quad>, batchLabel: Bytes) returns (deltas: Deltas)
    ensures deltas == AddTally(Tally(Effective(adds, batchLabel)), Effective(removes, batchLabel), -1)
  {
    deltas := map[];
    ghost var effs := Effective(adds, batchLabel);
    for i := 0 to |adds|
      invariant deltas == Tally(effs[..i])
    {
      var lbl := if adds[i].lbl == [] then batchLabel else adds[i].lbl;
      assert effs[..i + 1][..i] == effs[..i];
      deltas := Bump(deltas, lbl, 1);
    }
    assert effs[..|adds|] == effs;
    ghost var charged := Effective(removes, batchLabel);
    for i := 0 to |removes|
      invariant deltas == AddTally(Tally(effs), charged[..i], -1)
    {
      var lbl := if removes[i].lbl == [] then batchLabel else removes[i].lbl;
      assert charged[..i + 1][..i] == charged[..i];
      deltas := Bump(deltas, lbl, -1);
    }
    assert charged[..|removes|] == charged;
  }

  // ---- merging deltas into the counters ----

  function Lookup(kv: KV, k: Bytes): Option<Bytes> {
    if k in kv then Some(kv[k]) else None
  }

  lemma SameLookups(kv: KV, kv': KV)
    requires forall k :: Lookup(kv, k) == Lookup(kv', k)
    ensures kv == kv'
  {
    forall k ensures k in kv <==> k in kv' { assert Lookup(kv, k) == Lookup(kv', k); }
    forall k | k in kv ensures kv[k] == kv'[k] { assert Lookup(kv, k) == Lookup(kv', k); }
  }

  /** A stored counter value after merging n onto it; a value the merger refuses stays. */
  function MergeInto(v: Option<Bytes>, n: int): Option<Bytes> {
    match v
    case None => Some(EncodeI64(n))
    case Some(b) =>
      match Combine(b, EncodeI64(n))
      case Some(sum) => Some(sum)
      case None => v
  }

  lemma MergeLookup(kv: KV, key: Bytes, n: int, k: Bytes)
    ensures Lookup(Apply(kv, Merge(key, EncodeI64(n))), k)
         == if k == key then MergeInto(Lookup(kv, key), n) else Lookup(kv, k)
  {}

  lemma MergeIntoTwice(v: Option<Bytes>, a: int, b: int)
    requires v.Some? ==> |v.value| == 8
    ensures MergeInto(MergeInto(v, a), b) == MergeInto(v, a + b)
  {
    if v.None? {
      CombineEncoded(a, b);
    } else {
      var c := DecodeI64(v.value);
      CountDecoded(v.value);
      CombineEncoded(c, a);
      CombineEncoded(c + a, b);
      CombineEncoded(c, a + b);
    }
  }

  function DeltaKeys(d: Deltas): set<Bytes> {
    set l | l in d && d[l] != 0 :: CountKey(l)
  }

  /** The delta that falls on a key: none outside the counter keyspace. */
  function DeltaOn(d: Deltas, k: Bytes): int {
    if k != [] && k[0] == LABEL_COUNT then At(d, k[1..]) else 0
  }

  /** Zero deltas are skipped, not merged. */
  function MergeDelta(v: Option<Bytes>, n: int): Option<Bytes> {
    if n == 0 then v else MergeInto(v, n)
  }

  function ValueAfter(kv: KV, d: Deltas, k: Bytes): Option<Bytes> {
    MergeDelta(Lookup(kv, k), DeltaOn(d, k))
  }

  /** Every non-zero delta merged onto its counter. */
  function AddDeltas(kv: KV, d: Deltas): KV {
    map k | k in kv.Keys + DeltaKeys(d) && ValueAfter(kv, d, k).Some? :: ValueAfter(kv, d, k).value
  }

  lemma AddDeltasAt(kv: KV, d: Deltas, k: Bytes)
    ensures Lookup(AddDeltas(kv, d), k) == ValueAfter(kv, d, k)
  {
    if DeltaOn(d, k) != 0 {
      assert k == CountKey(k[1..]);
      assert k in DeltaKeys(d);
    }
  }

  function Restrict(d: Deltas, labels: set<Bytes>): Deltas {
    map l | l in d && l in labels :: d[l]
  }

  lemma DeltaOnRestrict(d: Deltas, done: set<Bytes>, l: Bytes, k: Bytes)
    requires l in d && l !in done
    ensures DeltaOn(Restrict(d, done + {l}), k) == if k == CountKey(l) then d[l] else DeltaOn(Restrict(d, done), k)
    ensures k == CountKey(l) ==> DeltaOn(Restrict(d, done), k) == 0
  {
    if k != [] && k[0] == LABEL_COUNT && k[1..] == l { assert k == [k[0]] + k[1..]; }
  }

  lemma MergeOne(kv: KV, d: Deltas, done: set<Bytes>, l: Bytes)
    requires l in d && l !in done
    ensures AddDeltas(kv, Restrict(d, done + {l}))
         == if d[l] == 0 then AddDeltas(kv, Restrict(d, done))
            else Apply(AddDeltas(kv, Restrict(d, done)), Merge(CountKey(l), EncodeI64(d[l])))
  {
    var d0, d1, key := Restrict(d, done), Restrict(d, done + {l}), CountKey(l);
    var before, after := AddDeltas(kv, d0), AddDeltas(kv, d1);
    var expected := if d[l] == 0 then before else Apply(before, Merge(key, EncodeI64(d[l])));
    forall k ensures Lookup(after, k) == Lookup(expected, k) {
      AddDeltasAt(kv, d0, k);
      AddDeltasAt(kv, d1, k);
      DeltaOnRestrict(d, done, l, k);
      if d[l] != 0 {
        MergeLookup(before, key, d[l], k);
      }
    }
    SameLookups(after, expected);
  }

  lemma AddNone(kv: KV)
    ensures AddDeltas(kv, map[]) == kv
  {
    forall k ensures Lookup(AddDeltas(kv, map[]), k) == Lookup(kv, k) { AddDeltasAt(kv, map[], k); }
    SameLookups(AddDeltas(kv, map[]), kv);
  }

  /** applyLabelDeltas: one Merge per non-zero delta, in whatever order the map yields. */
  method ApplyLabelDeltas(wb: seq<BatchOp>, deltas: Deltas, ghost base: KV) returns (wb': seq<BatchOp>)
    ensures ApplyAll(base, wb') == AddDeltas(ApplyAll(base, wb), deltas)
  {
    wb' := wb;
    var todo := deltas.Keys;
    ghost var done: set<Bytes> := {};
    ghost var start := ApplyAll(base, wb);
    hide AddDeltas, ApplyAll, Apply, CountKey, EncodeI64;
    assert Restrict(deltas, {}) == map[];
    AddNone(start);
    while todo != {}
      invariant todo <= deltas.Keys && done == deltas.Keys - todo
      invariant ApplyAll(base, wb') == AddDeltas(start, Restrict(deltas, done))
      decreases |todo|
    {
      var l :| l in todo;
      var d := deltas[l];
      MergeOne(start, deltas, done, l);
      if d != 0 {
        var op := Merge(CountKey(l), EncodeI64(d));
        ApplySnoc(base, wb', op);
        wb' := wb' + [op];
      }
      todo, done := todo - {l}, done + {l};
    }
    assert Restrict(deltas, done) == deltas;
  }

  /** Every counter value is 8 bytes, as the merger requires. */
  predicate CountersOk(kv: KV) {
    forall k | k in kv && k != [] && k[0] == LABEL_COUNT :: |kv[k]| == 8
  }

  /** readLabelCount; a missing counter reads 0. */
  function Counter(kv: KV, l: Bytes): int
    requires CountersOk(kv)
  {
    if CountKey(l) in kv then DecodeI64(kv[CountKey(l)]) else 0
  }

  lemma CountersOkLookup(kv: KV, k: Bytes)
    requires CountersOk(kv) && k != [] && k[0] == LABEL_COUNT
    ensures Lookup(kv, k).Some? ==> |Lookup(kv, k).value| == 8
  {}

  lemma AddDeltasOk(kv: KV, d: Deltas)
    requires CountersOk(kv)
    ensures CountersOk(AddDeltas(kv, d))
  {
    var after := AddDeltas(kv, d);
    forall k | k in after && k != [] && k[0] == LABEL_COUNT ensures |after[k]| == 8 {
      AddDeltasAt(kv, d, k);
      CountersOkLookup(kv, k);
      assert Lookup(after, k) == Some(after[k]);
    }
  }

  lemma MergeIntoCount(v: Option<Bytes>, n: int)
    requires v.Some? ==> |v.value| == 8
    ensures MergeInto(v, n).Some? && |MergeInto(v, n).value| == 8
    ensures DecodeI64(MergeInto(v, n).value) == Wrap((if v.Some? then DecodeI64(v.value) else 0) + n)
  {
    if v.None? {
      CountRoundTrip(n);
    } else {
      var c := DecodeI64(v.value);
      CountDecoded(v.value);
      CombineEncoded(c, n);
      CountRoundTrip(c + n);
    }
  }

  /** Merging deltas adds each to its counter, modulo 2^64. */
  lemma CounterAfter(kv: KV, d: Deltas, l: Bytes)
    requires CountersOk(kv)
    ensures CountersOk(AddDeltas(kv, d))
    ensures Counter(AddDeltas(kv, d), l) == Wrap(Counter(kv, l) + At(d, l))
  {
    AddDeltasOk(kv, d);
    var k := CountKey(l);
    assert k[1..] == l && DeltaOn(d, k) == At(d, l);
    AddDeltasAt(kv, d, k);
    assert Lookup(AddDeltas(kv, d), k) == ValueAfter(kv, d, k);
    if At(d, l) != 0 {
      MergeIntoCount(Lookup(kv, k), At(d, l));
    } else if k in kv {
      CountDecoded(kv[k]);
    }
  }

  predicate SumOf(sum: Deltas, d: Deltas, e: Deltas) {
    forall l: Bytes | l in sum.Keys + d.Keys + e.Keys :: At(sum, l) == At(d, l) + At(e, l)
  }

  /** A delta that comes and goes on a missing counter: merged in two rounds it leaves a zero, in one nothing. */
  predicate CancelsUnseen(kv: KV, d: Deltas, e: Deltas, l: Bytes) {
    At(d, l) != 0 && At(d, l) + At(e, l) == 0 && CountKey(l) !in kv
  }

  lemma MergeDeltaTwice(v: Option<Bytes>, m: int, n: int)
    requires v.Some? ==> |v.value| == 8
    ensures MergeDelta(MergeDelta(v, m), n) == MergeDelta(v, m + n) <==> !(m != 0 && m + n == 0 && v.None?)
    ensures MergeDelta(MergeDelta(v, m), n) == MergeDelta(MergeDelta(v, n), m)
  {
    hide MergeInto;
    MergeIntoTwice(v, m, n);
    MergeIntoTwice(v, n, m);
    MergeZero(v);
  }

  lemma AddDeltasTwiceAt(kv: KV, d: Deltas, e: Deltas, sum: Deltas, k: Bytes)
    requires CountersOk(kv) && SumOf(sum, d, e)
    ensures ValueAfter(AddDeltas(kv, d), e, k) == ValueAfter(kv, sum, k)
      <==> !(k != [] && k[0] == LABEL_COUNT && CancelsUnseen(kv, d, e, k[1..]))
  {
    AddDeltasAt(kv, d, k);
    SumOn(d, e, sum, k);
    hide MergeDelta, AddDeltas;
    if k != [] && k[0] == LABEL_COUNT {
      CountersOkLookup(kv, k);
      assert CountKey(k[1..]) == k;
      MergeDeltaTwice(Lookup(kv, k), DeltaOn(d, k), DeltaOn(e, k));
    } else {
      NoDelta(Lookup(kv, k));
    }
  }

  lemma NoDelta(v: Option<Bytes>)
    ensures MergeDelta(v, 0) == v
  {}

  lemma SumOn(d: Deltas, e: Deltas, sum: Deltas, k: Bytes)
    requires SumOf(sum, d, e)
    ensures DeltaOn(sum, k) == DeltaOn(d, k) + DeltaOn(e, k)
  {}

  lemma MergeZero(v: Option<Bytes>)
    requires v.Some? ==> |v.value| == 8
    ensures v.Some? ==> MergeInto(v, 0) == v
    ensures MergeInto(v, 0).Some?
  {
    if v.Some? {
      CountDecoded(v.value);
      CountRoundTrip(0);
      CombineEncoded(DecodeI64(v.value), 0);
    }
  }

  /**
   * Two rounds of deltas are one round of their sums exactly if none comes and goes on a missing counter.
   */
  lemma AddDeltasTwice(kv: KV, d: Deltas, e: Deltas, sum: Deltas)
    requires CountersOk(kv) && SumOf(sum, d, e)
    ensures AddDeltas(AddDeltas(kv, d), e) == AddDeltas(kv, sum) <==> forall l :: !CancelsUnseen(kv, d, e, l)
  {
    var two, one := AddDeltas(AddDeltas(kv, d), e), AddDeltas(kv, sum);
    hide AddDeltas, ValueAfter, CancelsUnseen;
    forall k
      ensures Lookup(two, k) == Lookup(one, k) <==> !(k != [] && k[0] == LABEL_COUNT && CancelsUnseen(kv, d, e, k[1..]))
    {
      AddDeltasAt(AddDeltas(kv, d), e, k);
      AddDeltasAt(kv, sum, k);
      AddDeltasTwiceAt(kv, d, e, sum, k);
    }
    if two == one {
      forall l ensures !CancelsUnseen(kv, d, e, l) {
        assert CountKey(l)[1..] == l && Lookup(two, CountKey(l)) == Lookup(one, CountKey(l));
      }
    }
    if forall l :: !CancelsUnseen(kv, d, e, l) {
      SameLookups(two, one);
    }
  }

  lemma CommuteAt(kv: KV, d: Deltas, e: Deltas, k: Bytes)
    requires CountersOk(kv)
    ensures ValueAfter(AddDeltas(kv, d), e, k) == ValueAfter(AddDeltas(kv, e), d, k)
  {
    AddDeltasAt(kv, d, k);
    AddDeltasAt(kv, e, k);
    hide MergeDelta, AddDeltas;
    if k != [] && k[0] == LABEL_COUNT {
      CountersOkLookup(kv, k);
      MergeDeltaTwice(Lookup(kv, k), DeltaOn(d, k), DeltaOn(e, k));
    } else {
      NoDelta(Lookup(kv, k));
    }
  }

  /** Any two rounds of deltas, with negative ones too, may change places. */
  lemma AddDeltasCommute(kv: KV, d: Deltas, e: Deltas)
    requires CountersOk(kv)
    ensures AddDeltas(AddDeltas(kv, d), e) == AddDeltas(AddDeltas(kv, e), d)
  {
    var x, y := AddDeltas(AddDeltas(kv, d), e), AddDeltas(AddDeltas(kv, e), d);
    hide AddDeltas, ValueAfter;
    forall k ensures Lookup(x, k) == Lookup(y, k) {
      AddDeltasAt(AddDeltas(kv, d), e, k);
      AddDeltasAt(AddDeltas(kv, e), d, k);
      CommuteAt(kv, d, e, k);
    }
    SameLookups(x, y);
  }

  /** Rounds of deltas, one after the other. */
  function AddRounds(kv: KV, ds: seq<Deltas>): KV {
    if ds == [] then kv else AddDeltas(AddRounds(kv, ds[..|ds| - 1]), ds[|ds| - 1])
  }

  lemma {:induction false} AddRoundsOk(kv: KV, ds: seq<Deltas>)
    requires CountersOk(kv)
    ensures CountersOk(AddRounds(kv, ds))
  {
    if ds != [] {
      AddRoundsOk(kv, ds[..|ds| - 1]);
      AddDeltasOk(AddRounds(kv, ds[..|ds| - 1]), ds[|ds| - 1]);
    }
  }

  /** One round moved behind the rounds that follow it. */
  lemma {:induction false} MoveLast(kv: KV, a: seq<Deltas>, d: Deltas, b: seq<Deltas>)
    requires CountersOk(kv)
    ensures AddRounds(kv, a + [d] + b) == AddRounds(kv, a + b + [d])
  {
    hide *;
    if b == [] {
      assert a + [d] + b == a + b + [d];
    } else {
      var n := |b| - 1;
      var front, last := b[..n], b[n];
      MoveLast(kv, a, d, front);
      AddRoundsOk(kv, a + front);
      AddDeltasCommute(AddRounds(kv, a + front), d, last);
      RoundsSnoc(kv, a + [d] + front, last);
      RoundsSnoc(kv, a + front, d);
      RoundsSnoc(kv, a + front, last);
      RoundsSnoc(kv, a + b, d);
      assert a + [d] + b == (a + [d] + front) + [last] && a + b == (a + front) + [last];
      assert a + front + [d] == (a + front) + [d];
    }
  }

  lemma RoundsSnoc(kv: KV, ds: seq<Deltas>, d: Deltas)
    ensures AddRounds(kv, ds + [d]) == AddDeltas(AddRounds(kv, ds), d)
  {
    assert (ds + [d])[..|ds|] == ds;
  }

  /** The counters after any rounds of deltas do not depend on their order. */
  lemma {:induction false} RoundsInAnyOrder(kv: KV, ds: seq<Deltas>, es: seq<Deltas>)
    requires CountersOk(kv) && multiset(ds) == multiset(es)
    ensures AddRounds(kv, ds) == AddRounds(kv, es)
  {
    hide AddDeltas, CountersOk;
    if ds == [] {
      assert |multiset(es)| == |es|;
    } else {
      var front, last := ds[..|ds| - 1], ds[|ds| - 1];
      var i := LastIn(ds, es);
      var a, b := es[..i], es[i + 1..];
      RoundsInAnyOrder(kv, front, a + b);
      MoveLast(kv, a, last, b);
      assert ds == front + [last];
      RoundsSnoc(kv, front, last);
      RoundsSnoc(kv, a + b, last);
    }
  }

  // ---- loads: the adds of a bulk flush or an ingest ----

  /** Quads written, their counters bumped; what every bulk path leaves. */
  function LoadKv(kv: KV, qs: seq<Quad>): KV {
    AddDeltas(Put(kv, Elements(qs)), Tally(qs))
  }

  lemma BareLookup(kv: KV, keys: set<Bytes>, k: Bytes)
    ensures Lookup(kv + Bare(keys), k) == if k in keys then Some([]) else Lookup(kv, k)
    ensures Lookup(kv - keys, k) == if k in keys then None else Lookup(kv, k)
  {}

  lemma PutLookup(kv: KV, s: set<Quad>, k: Bytes)
    ensures Lookup(Put(kv, s), k) == if k in QuadKeySet(s) then Some([]) else Lookup(kv, k)
    ensures Lookup(Drop(kv, s), k) == if k in QuadKeySet(s) then None else Lookup(kv, k)
    ensures k in QuadKeySet(s) ==> k != [] && k[0] != LABEL_COUNT
  {
    BareLookup(kv, QuadKeySet(s), k);
    if k in QuadKeySet(s) { QuadKeySetIn(s, SPO); }
  }

  lemma PutAddDeltas(kv: KV, d: Deltas, s: set<Quad>)
    ensures Put(AddDeltas(kv, d), s) == AddDeltas(Put(kv, s), d)
  {
    var x, y := Put(AddDeltas(kv, d), s), AddDeltas(Put(kv, s), d);
    forall k ensures Lookup(x, k) == Lookup(y, k) {
      AddDeltasAt(kv, d, k);
      AddDeltasAt(Put(kv, s), d, k);
      PutLookup(kv, s, k);
      PutLookup(AddDeltas(kv, d), s, k);
    }
    SameLookups(x, y);
  }

  lemma TallyConcat(a: seq<Quad>, b: seq<Quad>)
    ensures SumOf(Tally(a + b), Tally(a), Tally(b))
    ensures forall l :: At(Tally(a), l) >= 0 && At(Tally(b), l) >= 0
  {
    forall l: Bytes
      ensures At(Tally(a), l) >= 0 && At(Tally(b), l) >= 0 && At(Tally(a + b), l) == At(Tally(a), l) + At(Tally(b), l)
    {
      AddTallyAt(map[], a, 1, l);
      AddTallyAt(map[], b, 1, l);
      AddTallyAt(map[], a + b, 1, l);
      CountLabelConcat(a, b, l);
    }
  }

  /** Loading in two parts is loading the whole. */
  lemma LoadConcat(kv: KV, a: seq<Quad>, b: seq<Quad>)
    requires CountersOk(kv)
    ensures LoadKv(LoadKv(kv, a), b) == LoadKv(kv, a + b)
  {
    PutAddDeltas(Put(kv, Elements(a)), Tally(a), Elements(b));
    PutPut(kv, Elements(a), Elements(b));
    assert Elements(a) + Elements(b) == Elements(a + b);
    var whole := Put(kv, Elements(a + b));
    PutCountersOk(kv, Elements(a + b));
    TallyConcat(a, b);
    hide AddDeltas, Put, Tally, At;
    AddDeltasTwice(whole, Tally(a), Tally(b), Tally(a + b));
    forall l ensures !CancelsUnseen(whole, Tally(a), Tally(b), l) {}
  }

  lemma DropAddDeltas(kv: KV, d: Deltas, s: set<Quad>)
    ensures Drop(AddDeltas(kv, d), s) == AddDeltas(Drop(kv, s), d)
  {
    var x, y := Drop(AddDeltas(kv, d), s), AddDeltas(Drop(kv, s), d);
    hide AddDeltas, Drop, Put, QuadKeySet;
    forall k ensures Lookup(x, k) == Lookup(y, k) {
      AddDeltasAt(kv, d, k);
      AddDeltasAt(Drop(kv, s), d, k);
      PutLookup(kv, s, k);
      PutLookup(AddDeltas(kv, d), s, k);
    }
    SameLookups(x, y);
  }

  /** Rows outside the counter keyspace, before or after the deltas. */
  lemma RowsAddDeltas(kv: KV, d: Deltas, rows: KV)
    requires forall k | k in rows :: k != [] && k[0] != LABEL_COUNT
    ensures AddDeltas(kv, d) + rows == AddDeltas(kv + rows, d)
  {
    var x, y := AddDeltas(kv, d) + rows, AddDeltas(kv + rows, d);
    hide AddDeltas;
    forall k ensures Lookup(x, k) == Lookup(y, k) {
      AddDeltasAt(kv, d, k);
      AddDeltasAt(kv + rows, d, k);
    }
    SameLookups(x, y);
  }

  /** Merges of operands onto one key, one after the other. */
  function MergeOps(key: Bytes, operands: seq<Bytes>): seq<BatchOp> {
    seq(|operands|, i requires 0 <= i < |operands| => Merge(key, operands[i]))
  }

  /** The bracketing in which the store meets the operands. */
  function InTurn(base: Bytes, operands: seq<Bytes>): Plan {
    if operands == [] then Operand(base)
    else Newer(InTurn(base, operands[..|operands| - 1]), Operand(operands[|operands| - 1]))
  }

  lemma {:induction false} MergesInTurn(kv: KV, key: Bytes, operands: seq<Bytes>)
    requires key in kv && |kv[key]| == 8 && WellFormed(operands)
    ensures Fragments(InTurn(kv[key], operands)) == [kv[key]] + operands
    ensures Lookup(ApplyAll(kv, MergeOps(key, operands)), key) == Merged(InTurn(kv[key], operands))
    ensures Merged(InTurn(kv[key], operands)).Some? && |Merged(InTurn(kv[key], operands)).value| == 8
  {
    hide EncodeI64, DecodeI64, Apply, Combine;
    if operands != [] {
      var n := |operands| - 1;
      var front, last := operands[..n], operands[n];
      assert operands == front + [last];
      assert last in operands && forall v | v in front :: v in operands;
      MergesInTurn(kv, key, front);
      assert MergeOps(key, operands) == MergeOps(key, front) + [Merge(key, last)];
      ApplySnoc(kv, MergeOps(key, front), Merge(key, last));
      MergeOneMore(ApplyAll(kv, MergeOps(key, front)), key, last);
    }
  }

  lemma MergeOneMore(kv: KV, key: Bytes, v: Bytes)
    requires key in kv && |kv[key]| == 8 && |v| == 8
    ensures Lookup(Apply(kv, Merge(key, v)), key) == Combine(kv[key], v)
    ensures Combine(kv[key], v).Some? && |Combine(kv[key], v).value| == 8
  {
    hide DecodeI64;
  }

  /** What a counter's key holds before the merges: its value, if it has one yet. */
  function Stored(kv: KV, key: Bytes): seq<Bytes> {
    if key in kv then [kv[key]] else []
  }

  /** The first merge onto a missing counter stores its operand. */
  lemma FirstMerge(kv: KV, key: Bytes, operands: seq<Bytes>)
    requires key !in kv && operands != [] && WellFormed(operands)
    ensures var kv' := kv[key := operands[0]];
      && |operands[0]| == 8 && WellFormed(operands[1..])
      && ApplyAll(kv, MergeOps(key, operands)) == ApplyAll(kv', MergeOps(key, operands[1..]))
  {
    assert operands[0] in operands && forall v | v in operands[1..] :: v in operands;
    var first, rest := [Merge(key, operands[0])], MergeOps(key, operands[1..]);
    assert MergeOps(key, operands) == first + rest;
    ApplyConcat(kv, first, rest);
    assert first[..0] == [];
  }

  lemma {:induction false} SomeFragment(p: Plan)
    ensures Fragments(p) != []
  {
    match p
    case Operand(_) =>
    case Newer(b, _) => SomeFragment(b);
    case Older(b, _) => SomeFragment(b);
  }

  /**
   * However Pebble brackets, orders or defers the merges onto a counter, stored before or not, it ends as if
   * they were applied in turn.
   */
  lemma {:induction false} AnyMergeOrder(kv: KV, key: Bytes, operands: seq<Bytes>, p: Plan)
    requires (key in kv ==> |kv[key]| == 8) && WellFormed(operands)
    requires multiset(Fragments(p)) == multiset(Stored(kv, key) + operands)
    decreases if key in kv then 0 else 1
    ensures Merged(p) == Lookup(ApplyAll(kv, MergeOps(key, operands)), key)
  {
    hide WellFormed, ApplyAll, MergeOps, Merged, Fragments, Lookup, InTurn;
    if key in kv {
      MergesInTurn(kv, key, operands);
      MergeOrderIrrelevant(InTurn(kv[key], operands), p);
    } else {
      SomeFragment(p);
      assert |multiset(Fragments(p))| == |Fragments(p)| && |multiset([] + operands)| == |operands|;
      FirstMerge(kv, key, operands);
      var kv' := kv[key := operands[0]];
      assert [kv'[key]] + operands[1..] == operands == [] + operands;
      AnyMergeOrder(kv', key, operands[1..], p);
    }
  }

  lemma PutCountersOk(kv: KV, s: set<Quad>)
    requires CountersOk(kv)
    ensures CountersOk(Put(kv, s)) && CountersOk(Drop(kv, s))
  {
    var x, y := Put(kv, s), Drop(kv, s);
    forall k | k != [] && k[0] == LABEL_COUNT
      ensures k in x ==> |x[k]| == 8
      ensures k in y ==> |y[k]| == 8
    {
      PutLookup(kv, s, k);
      CountersOkLookup(kv, k);
      assert k in x ==> Lookup(x, k) == Some(x[k]);
      assert k in y ==> Lookup(y, k) == Some(y[k]);
    }
  }

  lemma LoadNothing(kv: KV)
    ensures LoadKv(kv, []) == kv
  {
    AddNone(kv);
    assert Elements<Quad>([]) == {};
    assert QuadKeySet({}) == {};
    assert Put(kv, {}) == kv;
  }
}
