/** The four keyspaces of a quad: NUL-separated keys, their decoder, order and prefix ranges. */
module QuadKeys {
  import opened ByteOrder
  import opened Quads

  const SEP: byte := 0

  datatype Space = SPO | POS | OSP | LSP

  function Prefix(sp: Space): byte {
    match sp
    case SPO => 113  // 'q'
    case POS => 112  // 'p'
    case OSP => 111  // 'o'
    case LSP => 108  // 'l'
  }

  const LABEL_COUNT: byte := 76  // 'L'
  const COMMITS: byte := 99  // 'c'
  const COMMIT_OPS: byte := 67  // 'C'

  /** The quad's fields in the keyspace's order. */
  function Fields(sp: Space, q: Quad): (f: seq<Bytes>)
    ensures |f| == 4
  {
    match sp
    case SPO => [q.subj, q.pred, q.obj, q.lbl]
    case POS => [q.pred, q.obj, q.subj, q.lbl]
    case OSP => [q.obj, q.subj, q.pred, q.lbl]
    case LSP => [q.lbl, q.subj, q.pred, q.obj]
  }

  function FromFields(sp: Space, f: seq<Bytes>): Quad
    requires |f| == 4
  {
    match sp
    case SPO => Quad(f[0], f[1], f[2], f[3])
    case POS => Quad(f[2], f[0], f[1], f[3])
    case OSP => Quad(f[1], f[2], f[0], f[3])
    case LSP => Quad(f[1], f[2], f[3], f[0])
  }

  predicate NulFree(s: Bytes) {
    SEP !in s
  }

  /** What encodeKey leaves to its callers. */
  predicate QuadNulFree(q: Quad) {
    NulFree(q.subj) && NulFree(q.pred) && NulFree(q.obj) && NulFree(q.lbl)
  }

  /** Every field but the last is free of NULs. */
  predicate InnerNulFree(fs: seq<Bytes>) {
    forall i | 0 <= i < |fs| - 1 :: NulFree(fs[i])
  }

  function Join(fs: seq<Bytes>): Bytes {
    if |fs| == 0 then []
    else if |fs| == 1 then fs[0]
    else fs[0] + [SEP] + Join(fs[1..])
  }

  function EncodeKey(prefix: byte, fs: seq<Bytes>): Bytes {
    [prefix] + Join(fs)
  }

  lemma {:induction false} JoinSnoc(fs: seq<Bytes>, f: Bytes)
    requires |fs| > 0
    ensures Join(fs + [f]) == Join(fs) + [SEP] + f
  {
    if |fs| == 1 {
      assert (fs + [f])[1..] == [f];
    } else {
      assert (fs + [f])[1..] == fs[1..] + [f];
      JoinSnoc(fs[1..], f);
    }
  }

  /** encodeKey's buffer-appending loop. */
  method BuildKey(prefix: byte, fs: seq<Bytes>) returns (buf: Bytes)
    ensures buf == EncodeKey(prefix, fs)
  {
    buf := [prefix];
    for i := 0 to |fs|
      invariant buf == [prefix] + Join(fs[..i]) + (if 0 < i < |fs| then [SEP] else [])
    {
      assert fs[..i + 1] == fs[..i] + [fs[i]];
      if i > 0 { JoinSnoc(fs[..i], fs[i]); }
      buf := buf + fs[i];
      if i < |fs| - 1 {
        buf := buf + [SEP];
      }
    }
    assert fs[..|fs|] == fs;
  }

  /** bytes.SplitN(s, NUL, n): at most n parts, the last one unsplit. */
  function SplitN(s: Bytes, n: nat): (parts: seq<Bytes>)
    requires n > 0
    ensures 0 < |parts| <= n
  {
    if n == 1 || NulFree(s) then [s]
    else [s[..IndexByte(s, SEP)]] + SplitN(s[IndexByte(s, SEP) + 1..], n - 1)
  }

  lemma SplitHead(f: Bytes, rest: Bytes, n: nat)
    requires NulFree(f) && n > 1
    ensures SplitN(f + [SEP] + rest, n) == [f] + SplitN(rest, n - 1)
  {
    var s := f + [SEP] + rest;
    assert s[|f|] == SEP;
    IndexAfter(f, SEP, rest);
    assert s[..|f|] == f && s[|f| + 1..] == rest;
  }

  lemma SplitCons(f: Bytes, parts: seq<Bytes>)
    requires |parts| > 0 && NulFree(f) && InnerNulFree(parts)
    requires SplitN(Join(parts), |parts|) == parts
    ensures SplitN(Join([f] + parts), |parts| + 1) == [f] + parts
  {
    hide *;
    JoinCons(f, parts);
    SplitHead(f, Join(parts), |parts| + 1);
  }

  lemma {:induction false} SplitJoin(fs: seq<Bytes>)
    requires |fs| > 0 && InnerNulFree(fs)
    ensures SplitN(Join(fs), |fs|) == fs
  {
    hide *;
    if |fs| == 1 {
      SplitOne(fs);
    } else {
      InnerParts(fs);
      SplitJoin(fs[1..]);
      SplitCons(fs[0], fs[1..]);
      assert fs == [fs[0]] + fs[1..];
    }
  }

  lemma SplitOne(fs: seq<Bytes>)
    requires |fs| == 1
    ensures SplitN(Join(fs), 1) == fs
  {}

  lemma InnerParts(fs: seq<Bytes>)
    requires |fs| > 1 && InnerNulFree(fs)
    ensures NulFree(fs[0]) && InnerNulFree(fs[1..])
  {
    hide NulFree;
  }

  lemma JoinCons(f: Bytes, parts: seq<Bytes>)
    requires |parts| > 0 && NulFree(f) && InnerNulFree(parts)
    ensures Join([f] + parts) == f + [SEP] + Join(parts) && InnerNulFree([f] + parts)
  {
    assert ([f] + parts)[1..] == parts;
  }

  lemma {:induction false} JoinSplit(s: Bytes, n: nat)
    requires n > 0
    ensures Join(SplitN(s, n)) == s && InnerNulFree(SplitN(s, n))
  {
    if n > 1 && !NulFree(s) {
      var i := IndexByte(s, SEP);
      var f, rest := s[..i], s[i + 1..];
      JoinSplit(rest, n - 1);
      JoinCons(f, SplitN(rest, n - 1));
      assert s == f + [SEP] + rest;
    }
  }

  function SpaceOf(b: byte): Option<Space> {
    if b == Prefix(SPO) then Some(SPO)
    else if b == Prefix(POS) then Some(POS)
    else if b == Prefix(OSP) then Some(OSP)
    else if b == Prefix(LSP) then Some(LSP)
    else None
  }

  function Decode(key: Bytes): Option<Quad> {
    if |key| < 1 then None else DecodeParts(key[0], SplitN(key[1..], 4))
  }

  function DecodeParts(b: byte, parts: seq<Bytes>): Option<Quad> {
    if |parts| != 4 then None
    else
      match SpaceOf(b)
      case Some(sp) => Some(FromFields(sp, parts))
      case None => None
  }

  function KeyOf(sp: Space, q: Quad): Bytes {
    EncodeKey(Prefix(sp), Fields(sp, q))
  }

  function FourKeysFor(q: Quad): (keys: seq<Bytes>)
    ensures |keys| == 4
  {
    [KeyOf(SPO, q), KeyOf(POS, q), KeyOf(OSP, q), KeyOf(LSP, q)]
  }

  /** The four keys of a quad, byte by byte: a letter, then the fields in the keyspace's order, a NUL between two. */
  lemma KeyLayout(q: Quad)
    ensures KeyOf(SPO, q) == [113] + q.subj + [0] + q.pred + [0] + q.obj + [0] + q.lbl
    ensures KeyOf(POS, q) == [112] + q.pred + [0] + q.obj + [0] + q.subj + [0] + q.lbl
    ensures KeyOf(OSP, q) == [111] + q.obj + [0] + q.subj + [0] + q.pred + [0] + q.lbl
    ensures KeyOf(LSP, q) == [108] + q.lbl + [0] + q.subj + [0] + q.pred + [0] + q.obj
  {
    hide EncodeKey;
    FourFieldKey(113, q.subj, q.pred, q.obj, q.lbl);
    FourFieldKey(112, q.pred, q.obj, q.subj, q.lbl);
    FourFieldKey(111, q.obj, q.subj, q.pred, q.lbl);
    FourFieldKey(108, q.lbl, q.subj, q.pred, q.obj);
  }

  lemma FourFieldKey(p: byte, a: Bytes, b: Bytes, c: Bytes, d: Bytes)
    ensures EncodeKey(p, [a, b, c, d]) == [p] + a + [0] + b + [0] + c + [0] + d
  {
    FourFields(a, b, c, d);
    hide Join;
  }

  lemma FourFields(a: Bytes, b: Bytes, c: Bytes, d: Bytes)
    ensures Join([a, b, c, d]) == a + [0] + b + [0] + c + [0] + d
  {
    JoinSnoc([a], b);
    JoinSnoc([a, b], c);
    JoinSnoc([a, b, c], d);
    assert [a] + [b] == [a, b] && [a, b] + [c] == [a, b, c] && [a, b, c] + [d] == [a, b, c, d];
  }

  lemma PartsRoundTrip(sp: Space, q: Quad)
    ensures DecodeParts(Prefix(sp), Fields(sp, q)) == Some(q)
  {}

  /** Decoding undoes encoding in every keyspace. */
  lemma DecodeEncode(sp: Space, q: Quad)
    requires QuadNulFree(q)
    ensures Decode(KeyOf(sp, q)) == Some(q)
  {
    var fs := Fields(sp, q);
    SplitJoin(fs);
    assert KeyOf(sp, q)[1..] == Join(fs);
    PartsRoundTrip(sp, q);
  }

  lemma PartsAreFields(b: byte, parts: seq<Bytes>)
    requires DecodeParts(b, parts).Some?
    ensures SpaceOf(b).Some? && Prefix(SpaceOf(b).value) == b
    ensures Fields(SpaceOf(b).value, DecodeParts(b, parts).value) == parts
  {}

  /** Any byte string that decodes is the key of the quad it decodes to, in the keyspace of its first byte. */
  lemma EncodeDecode(key: Bytes)
    requires Decode(key).Some?
    ensures SpaceOf(key[0]).Some? && KeyOf(SpaceOf(key[0]).value, Decode(key).value) == key
  {
    var b, rest, q := key[0], key[1..], Decode(key).value;
    JoinSplit(rest, 4);
    PartsAreFields(b, SplitN(rest, 4));
    calc {
      KeyOf(SpaceOf(b).value, q);
      [b] + Join(SplitN(rest, 4));
      [b] + rest;
      key;
    }
  }

  lemma KeyInjective(sp: Space, q: Quad, r: Quad)
    requires QuadNulFree(q) && QuadNulFree(r) && KeyOf(sp, q) == KeyOf(sp, r)
    ensures q == r
  {
    DecodeEncode(sp, q);
    DecodeEncode(sp, r);
  }

  /** Lexicographic order of field tuples. */
  predicate TupleLess(a: seq<Bytes>, b: seq<Bytes>)
    requires |a| == |b|
  {
    |a| > 0 && (Less(a[0], b[0]) || (a[0] == b[0] && TupleLess(a[1..], b[1..])))
  }

  lemma {:induction false} FieldOrder(f: Bytes, r: Bytes, g: Bytes, s: Bytes)
    requires NulFree(f) && NulFree(g)
    ensures Less(f + [SEP] + r, g + [SEP] + s) <==> Less(f, g) || (f == g && Less(r, s))
  {
    var x, y := f + [SEP] + r, g + [SEP] + s;
    if f != [] && g != [] {
      assert x[1..] == f[1..] + [SEP] + r && y[1..] == g[1..] + [SEP] + s;
      FieldOrder(f[1..], r, g[1..], s);
      assert f == [f[0]] + f[1..] && g == [g[0]] + g[1..];
    } else if f == [] && g == [] {
      assert x[1..] == r && y[1..] == s;
    } else if f == [] {
      assert x[0] == SEP && y[0] == g[0] && g[0] in g;
    } else {
      assert y[0] == SEP && x[0] == f[0] && f[0] in f;
    }
  }

  lemma {:induction false} JoinOrder(a: seq<Bytes>, b: seq<Bytes>)
    requires |a| == |b| && InnerNulFree(a) && InnerNulFree(b)
    ensures Less(Join(a), Join(b)) <==> TupleLess(a, b)
  {
    if |a| > 1 {
      assert NulFree(a[0]) && NulFree(b[0]);
      FieldOrder(a[0], Join(a[1..]), b[0], Join(b[1..]));
      JoinOrder(a[1..], b[1..]);
    }
  }

  /** Byte order of a keyspace's keys is the lexicographic order of its field tuples. */
  lemma KeyOrder(sp: Space, q: Quad, r: Quad)
    requires QuadNulFree(q) && QuadNulFree(r)
    ensures Less(KeyOf(sp, q), KeyOf(sp, r)) <==> TupleLess(Fields(sp, q), Fields(sp, r))
  {
    JoinOrder(Fields(sp, q), Fields(sp, r));
    LessUnderPrefix([Prefix(sp)], Join(Fields(sp, q)), Join(Fields(sp, r)));
  }

  lemma {:induction false} JoinPrefix(fs: seq<Bytes>, t: seq<Bytes>)
    requires 0 < |fs| < |t| && InnerNulFree(t)
    requires forall i | 0 <= i < |fs| :: NulFree(fs[i])
    ensures Join(fs) + [SEP] <= Join(t) <==> fs <= t
  {
    var x, y := Join(fs) + [SEP], Join(t);
    assert NulFree(t[0]) && NulFree(fs[0]);
    assert y == t[0] + [SEP] + Join(t[1..]);
    IndexAfter(t[0], SEP, Join(t[1..]));
    if |fs| == 1 {
      HeadPrefix(fs[0], [], t[0], Join(t[1..]));
      assert x == fs[0] + [SEP] + [];
    } else {
      assert x == fs[0] + [SEP] + (Join(fs[1..]) + [SEP]);
      HeadPrefix(fs[0], Join(fs[1..]) + [SEP], t[0], Join(t[1..]));
      JoinPrefix(fs[1..], t[1..]);
      assert fs == [fs[0]] + fs[1..] && t == [t[0]] + t[1..];
    }
  }

  lemma {:induction false} HeadPrefix(f: Bytes, r: Bytes, g: Bytes, s: Bytes)
    requires NulFree(f) && NulFree(g)
    ensures f + [SEP] + r <= g + [SEP] + s <==> f == g && r <= s
  {
    var x, y := f + [SEP] + r, g + [SEP] + s;
    if f == [] || g == [] {
      assert f != [] ==> f[0] in f;
      assert g != [] ==> g[0] in g;
      assert x == [x[0]] + x[1..] && y == [y[0]] + y[1..];
      if f == [] && g == [] { assert x[1..] == r && y[1..] == s; }
    } else {
      assert x[1..] == f[1..] + [SEP] + r && y[1..] == g[1..] + [SEP] + s;
      HeadPrefix(f[1..], r, g[1..], s);
      assert f == [f[0]] + f[1..] && g == [g[0]] + g[1..];
      assert x == [f[0]] + x[1..] && y == [g[0]] + y[1..];
    }
  }

  /** Lower bound of the scan over the quads whose first fields in the keyspace are fs. */
  function ScanPrefix(sp: Space, fs: seq<Bytes>): (p: Bytes)
    ensures |p| > 1 && p[|p| - 1] == SEP
  {
    EncodeKey(Prefix(sp), fs) + [SEP]
  }

  /** The scanned range holds exactly the keys whose leading fields are fs. */
  lemma ScanRange(sp: Space, fs: seq<Bytes>, q: Quad)
    requires 0 < |fs| < 4 && QuadNulFree(q)
    requires forall i | 0 <= i < |fs| :: NulFree(fs[i])
    ensures InRange(KeyOf(sp, q), ScanPrefix(sp, fs), UpperBoundForPrefix(ScanPrefix(sp, fs)))
       <==> fs <= Fields(sp, q)
  {
    var p, k := ScanPrefix(sp, fs), KeyOf(sp, q);
    PrefixRange(p, k);
    JoinPrefix(fs, Fields(sp, q));
    assert p == [Prefix(sp)] + (Join(fs) + [SEP]);
    assert p[1..] == Join(fs) + [SEP] && k[1..] == Join(Fields(sp, q));
    assert p <= k <==> p[1..] <= k[1..] by {
      assert p == [p[0]] + p[1..] && k == [k[0]] + k[1..];
    }
  }

  // ---- the first field of a key ----

  /** The first field of a key, where a separator ends it. */
  function FirstField(k: Bytes): Option<Bytes> {
    if k == [] || IndexByte(k[1..], SEP) < 0 then None else Some(k[1..1 + IndexByte(k[1..], SEP)])
  }

  lemma FirstFieldSplit(b: byte, f: Bytes, rest: Bytes)
    requires NulFree(f)
    ensures FirstField([b] + (f + [SEP] + rest)) == Some(f)
  {
    var k := [b] + (f + [SEP] + rest);
    assert k[1..] == f + [SEP] + rest;
    IndexAfter(f, SEP, rest);
    assert k[1..1 + |f|] == k[1..][..|f|] == f;
  }

  lemma FirstFieldOfKey(sp: Space, q: Quad)
    requires QuadNulFree(q)
    ensures FirstField(KeyOf(sp, q)) == Some(Fields(sp, q)[0])
  {
    var f, rest := Fields(sp, q)[0], Join(Fields(sp, q)[1..]);
    assert KeyOf(sp, q) == [Prefix(sp)] + (f + [SEP] + rest);
    hide FirstField, KeyOf, Join;
    FirstFieldSplit(Prefix(sp), f, rest);
  }
}
