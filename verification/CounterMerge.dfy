/** The label-count merger: signed 64-bit sums in 8-byte little-endian values. */
module CounterMerge {
  import opened ByteOrder
  import opened Integers

  /** int64(uint64): the signed reading of a 64-bit pattern. */
  function Signed(u: nat): int {
    if u < TWO63 then u else u - TWO64
  }

  /** n reduced to int64 with two's-complement wrap-around. */
  function Wrap(n: int): (r: int)
    ensures IsInt64(r)
    ensures IsInt64(n) ==> r == n
    ensures r % TWO64 == n % TWO64
  {
    Signed(n % TWO64)
  }

  lemma ModAdd(a: int, a': int, b: int)
    requires a % TWO64 == a' % TWO64
    ensures (a + b) % TWO64 == (a' + b) % TWO64
  {}

  lemma WrapAdd(a: int, b: int)
    ensures Wrap(Wrap(a) + b) == Wrap(a + b) == Wrap(a + Wrap(b))
  {
    ModAdd(Wrap(a), a, b);
    ModAdd(Wrap(b), b, a);
  }

  /** encodeLabelDelta, and Finish of the merger. */
  function EncodeI64(n: int): (v: Bytes)
    ensures |v| == 8
  {
    LeBytes(n % TWO64, 8)
  }

  /** decodeLabelCount, for the 8-byte values it accepts. */
  function DecodeI64(v: Bytes): (n: int)
    requires |v| == 8
  {
    Signed(FromLe(v))
  }

  lemma CountRoundTrip(n: int)
    ensures DecodeI64(EncodeI64(n)) == Wrap(n)
  {
    assert Pow256(8) == TWO64;
    LeRoundTrip(n % TWO64, 8);
  }

  lemma CountDecoded(v: Bytes)
    requires |v| == 8
    ensures IsInt64(DecodeI64(v)) && EncodeI64(DecodeI64(v)) == v
  {
    LeDecoded(v);
    assert Pow256(8) == TWO64;
    SignedBack(FromLe(v));
  }

  lemma SignedBack(u: nat)
    requires u < TWO64
    ensures IsInt64(Signed(u)) && Signed(u) % TWO64 == u
  {}

  /** labelCountValueMerger: one running sum, to which operands on either side are added. */
  class ValueMerger {
    var sum: int

    constructor (value: Bytes)
      requires |value| == 8
      ensures sum == DecodeI64(value) && IsInt64(sum)
    {
      CountDecoded(value);
      sum := DecodeI64(value);
    }

    method MergeNewer(value: Bytes) returns (ok: bool)
      modifies this
      ensures ok <==> |value| == 8
      ensures sum == if ok then Wrap(old(sum) + DecodeI64(value)) else old(sum)
    {
      if |value| != 8 { return false; }
      sum := Wrap(sum + DecodeI64(value));
      return true;
    }

    method MergeOlder(value: Bytes) returns (ok: bool)
      modifies this
      ensures ok <==> |value| == 8
      ensures sum == if ok then Wrap(old(sum) + DecodeI64(value)) else old(sum)
    {
      if |value| != 8 { return false; }
      sum := Wrap(sum + DecodeI64(value));
      return true;
    }

    method Finish() returns (out: Bytes)
      ensures out == EncodeI64(sum)
    {
      out := EncodeI64(sum);
    }
  }

  /** The merger applied to a base and one operand; None where a value is not 8 bytes. */
  function Combine(base: Bytes, operand: Bytes): Option<Bytes> {
    if |base| == 8 && |operand| == 8 then Some(EncodeI64(DecodeI64(base) + DecodeI64(operand))) else None
  }

  /** Any way of merging a list of fragments: brackets, and which side each operand is merged on. */
  datatype Plan =
    | Operand(value: Bytes)
    | Newer(base: Plan, newer: Plan)
    | Older(base: Plan, older: Plan)

  /** The fragments a plan merges, oldest first. */
  function Fragments(p: Plan): seq<Bytes> {
    match p
    case Operand(v) => [v]
    case Newer(b, n) => Fragments(b) + Fragments(n)
    case Older(b, o) => Fragments(o) + Fragments(b)
  }

  /** The sum of the well-formed fragments, unbounded. */
  function Total(fragments: seq<Bytes>): int {
    if fragments == [] then 0
    else (if |fragments[0]| == 8 then DecodeI64(fragments[0]) else 0) + Total(fragments[1..])
  }

  predicate WellFormed(fragments: seq<Bytes>) {
    forall v | v in fragments :: |v| == 8
  }

  lemma {:induction false} TotalConcat(a: seq<Bytes>, b: seq<Bytes>)
    ensures Total(a + b) == Total(a) + Total(b)
  {
    if a == [] {
      assert a + b == b;
    } else {
      assert (a + b)[1..] == a[1..] + b;
      TotalConcat(a[1..], b);
    }
  }

  function CombineBoth(a: Option<Bytes>, b: Option<Bytes>): Option<Bytes> {
    if a.Some? && b.Some? then Combine(a.value, b.value) else None
  }

  /** What merging by a plan leaves, or None when the merger refuses an operand. */
  function Merged(p: Plan): Option<Bytes> {
    match p
    case Operand(v) => if |v| == 8 then Some(v) else None
    case Newer(b, n) => CombineBoth(Merged(b), Merged(n))
    case Older(b, o) => CombineBoth(Merged(b), Merged(o))
  }

  /** Pebble's use of the merger on a plan. */
  method RunPlan(p: Plan) returns (r: Option<Bytes>)
    ensures r == Merged(p)
    decreases p
  {
    match p
    case Operand(v) =>
      if |v| != 8 { return None; }
      var m := new ValueMerger(v);
      var out := m.Finish();
      CountDecoded(v);
      return Some(out);
    case Newer(b, n) =>
      var base := RunPlan(b);
      var operand := RunPlan(n);
      if base.None? || operand.None? { return None; }
      if |base.value| != 8 { return None; }
      var m := new ValueMerger(base.value);
      var ok := m.MergeNewer(operand.value);
      if !ok { return None; }
      var out := m.Finish();
      EncodeWrap(DecodeI64(base.value) + DecodeI64(operand.value));
      return Some(out);
    case Older(b, o) =>
      var base := RunPlan(b);
      var operand := RunPlan(o);
      if base.None? || operand.None? { return None; }
      if |base.value| != 8 { return None; }
      var m := new ValueMerger(base.value);
      var ok := m.MergeOlder(operand.value);
      if !ok { return None; }
      var out := m.Finish();
      EncodeWrap(DecodeI64(base.value) + DecodeI64(operand.value));
      return Some(out);
  }

  lemma EncodeWrap(n: int)
    ensures EncodeI64(Wrap(n)) == EncodeI64(n)
  {}

  lemma CombineEncoded(a: int, b: int)
    ensures Combine(EncodeI64(a), EncodeI64(b)) == Some(EncodeI64(a + b))
  {
    CountRoundTrip(a);
    CountRoundTrip(b);
    WrapAdd(a, Wrap(b));
    WrapAdd(a, b);
    EncodeWrap(Wrap(a) + Wrap(b));
    EncodeWrap(a + b);
  }

  /** Every plan over well-formed fragments leaves the sum of the fragments modulo 2^64; any other is refused. */
  lemma {:induction false} AnyPlanSums(p: Plan)
    ensures Merged(p) == if WellFormed(Fragments(p)) then Some(EncodeI64(Total(Fragments(p)))) else None
  {
    match p
    case Operand(v) =>
      if |v| == 8 { CountDecoded(v); }
      assert v in Fragments(p);
    case Newer(b, n) =>
      AnyPlanSums(b);
      AnyPlanSums(n);
      SumParts(Fragments(b), Fragments(n));
    case Older(b, o) =>
      AnyPlanSums(b);
      AnyPlanSums(o);
      SumParts(Fragments(o), Fragments(b));
      CombineEncoded(Total(Fragments(b)), Total(Fragments(o)));
  }

  lemma SumParts(a: seq<Bytes>, b: seq<Bytes>)
    ensures WellFormed(a + b) <==> WellFormed(a) && WellFormed(b)
    ensures Total(a + b) == Total(a) + Total(b)
    ensures Combine(EncodeI64(Total(a)), EncodeI64(Total(b))) == Some(EncodeI64(Total(a + b)))
  {
    hide Total, Combine, EncodeI64;
    TotalConcat(a, b);
    CombineEncoded(Total(a), Total(b));
    forall v ensures v in a + b <==> v in a || v in b {}
  }

  lemma {:induction false} TotalPermutation(a: seq<Bytes>, b: seq<Bytes>)
    requires multiset(a) == multiset(b)
    ensures Total(a) == Total(b)
  {
    if a == [] {
      assert |multiset(a)| == |a| && |multiset(b)| == |b|;
    } else {
      hide *;
      var n := |a| - 1;
      var i := LastIn(a, b);
      var rest := b[i + 1..];
      TotalPermutation(a[..n], b[..i] + rest);
      assert a == a[..n] + [a[n]];
      TotalConcat(a[..n], [a[n]]);
      TotalConcat(b[..i], rest);
      TotalConcat(b[..i] + [a[n]], rest);
      TotalConcat(b[..i], [a[n]]);
    }
  }

  /** Two plans over the same fragments, in any order and brackets, leave the same value. */
  lemma MergeOrderIrrelevant(p: Plan, q: Plan)
    requires multiset(Fragments(p)) == multiset(Fragments(q))
    ensures Merged(p) == Merged(q)
  {
    TotalPermutation(Fragments(p), Fragments(q));
    forall v ensures v in Fragments(p) <==> v in Fragments(q) {
      assert v in multiset(Fragments(p)) <==> v in multiset(Fragments(q));
    }
    AnyPlanSums(p);
    AnyPlanSums(q);
  }
}
