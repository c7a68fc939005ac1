/** Byte strings and the order that bytes.Compare gives them: the order of every Pebble keyspace. */
module ByteOrder {
  type byte = b: int | 0 <= b < 256
  type Bytes = seq<byte>

  datatype Option<+T> = None | Some(value: T)

  /** The bytes of an ASCII literal. */
  function Ascii(s: string): Bytes
    requires forall i | 0 <= i < |s| :: s[i] < 128 as char
  {
    seq(|s|, i requires 0 <= i < |s| && s[i] < 128 as char => s[i] as int as byte)
  }

  /** bytes.Compare(a, b) < 0. */
  predicate Less(a: Bytes, b: Bytes) {
    if |b| == 0 then false
    else if |a| == 0 then true
    else if a[0] != b[0] then a[0] < b[0]
    else Less(a[1..], b[1..])
  }

  /** At the first difference the smaller byte decides; a proper prefix comes first. */
  lemma {:induction false} LessMeans(a: Bytes, b: Bytes)
    ensures Less(a, b)
      <==> exists n | 0 <= n <= |a| && n < |b| :: a[..n] == b[..n] && (n == |a| || a[n] < b[n])
  {
    if |a| > 0 && |b| > 0 && a[0] == b[0] {
      LessMeans(a[1..], b[1..]);
      if m :|
        && 0 <= m <= |a[1..]| && m < |b[1..]|
        && a[1..][..m] == b[1..][..m] && (m == |a[1..]| || a[1..][m] < b[1..][m])
      {
        assert a[..m + 1] == [a[0]] + a[1..][..m] && b[..m + 1] == [b[0]] + b[1..][..m];
      }
      if n :| 0 <= n <= |a| && n < |b| && a[..n] == b[..n] && (n == |a| || a[n] < b[n]) {
        assert n > 0 && a[1..][..n - 1] == a[..n][1..] && b[1..][..n - 1] == b[..n][1..];
      }
    } else if |b| > 0 {
      if |a| == 0 || a[0] < b[0] { assert a[..0] == b[..0]; }
      if n :| 0 <= n <= |a| && n < |b| && a[..n] == b[..n] && (n == |a| || a[n] < b[n]) {
        if n > 0 { assert a[..n][0] == b[..n][0]; }
      }
    }
  }

  lemma {:induction false} LessIrreflexive(a: Bytes)
    ensures !Less(a, a)
  {
    if a != [] { LessIrreflexive(a[1..]); }
  }

  lemma {:induction false} LessTransitive(a: Bytes, b: Bytes, c: Bytes)
    requires Less(a, b) && Less(b, c)
    ensures Less(a, c)
  {
    if a != [] && a[0] == b[0] == c[0] { LessTransitive(a[1..], b[1..], c[1..]); }
  }

  lemma {:induction false} LessAsymmetric(a: Bytes, b: Bytes)
    requires Less(a, b)
    ensures !Less(b, a)
  {
    if Less(b, a) {
      LessTransitive(a, b, a);
      LessIrreflexive(a);
    }
  }

  lemma {:induction false} LessTotal(a: Bytes, b: Bytes)
    ensures a == b || Less(a, b) || Less(b, a)
  {
    if a != [] && b != [] && a[0] == b[0] {
      LessTotal(a[1..], b[1..]);
      assert a == [a[0]] + a[1..] && b == [b[0]] + b[1..];
    }
  }

  lemma LessMixed(a: Bytes, b: Bytes, c: Bytes)
    requires Less(a, b) && !Less(c, b)
    ensures Less(a, c)
  {
    LessTotal(b, c);
    if Less(b, c) { LessTransitive(a, b, c); }
  }

  /** A common prefix does not affect the order. */
  lemma {:induction false} LessUnderPrefix(p: Bytes, a: Bytes, b: Bytes)
    ensures Less(p + a, p + b) <==> Less(a, b)
  {
    if p == [] {
      assert p + a == a && p + b == b;
    } else {
      assert (p + a)[1..] == p[1..] + a && (p + b)[1..] == p[1..] + b;
      LessUnderPrefix(p[1..], a, b);
    }
  }

  predicate Sorted(s: seq<Bytes>) {
    forall i, j | 0 <= i < j < |s| :: !Less(s[j], s[i])
  }

  predicate StrictlySorted(s: seq<Bytes>) {
    forall i, j | 0 <= i < j < |s| :: Less(s[i], s[j])
  }

  function Elements<T>(s: seq<T>): set<T> {
    set x | x in s
  }

  lemma ElementsNext<T>(s: seq<T>, i: nat)
    requires i < |s|
    ensures Elements(s[..i + 1]) == Elements(s[..i]) + {s[i]}
  {
    assert s[..i + 1] == s[..i] + [s[i]];
  }

  lemma ElementsNone<T>()
    ensures Elements<T>([]) == {}
  {}

  lemma Without<T>(s: seq<T>, i: nat)
    requires i < |s|
    ensures multiset(s[..i] + s[i + 1..]) == multiset(s) - multiset{s[i]}
  {
    assert s == s[..i] + [s[i]] + s[i + 1..];
  }

  /** The last element of one permutation, found in another. */
  lemma LastIn<T>(s: seq<T>, t: seq<T>) returns (i: nat)
    requires s != [] && multiset(s) == multiset(t)
    ensures i < |t| && t[i] == s[|s| - 1] && t == t[..i] + [t[i]] + t[i + 1..]
    ensures multiset(t[..i] + t[i + 1..]) == multiset(s[..|s| - 1])
  {
    LastSplit(s);
    assert s[|s| - 1] in multiset(t);
    i :| 0 <= i < |t| && t[i] == s[|s| - 1];
    Without(t, i);
    SplitAt(t, i);
  }

  lemma LastSplit<T>(s: seq<T>)
    requires s != []
    ensures multiset(s) == multiset(s[..|s| - 1]) + multiset{s[|s| - 1]}
  {
    assert s == s[..|s| - 1] + [s[|s| - 1]];
  }

  lemma SplitAt<T>(s: seq<T>, i: nat)
    requires i < |s|
    ensures s == s[..i] + [s[i]] + s[i + 1..]
  {}

  ghost predicate Distinct<T>(s: seq<T>) {
    forall i, j | 0 <= i < j < |s| :: s[i] != s[j]
  }

  lemma DistinctNext<T>(s: seq<T>, i: nat)
    requires Distinct(s) && i < |s|
    ensures s[i] !in Elements(s[..i]) && Elements(s[..i + 1]) == Elements(s[..i]) + {s[i]}
  {
    ElementsNext(s, i);
  }

  /** The elements of a set, in whatever order the collection gives them. */
  method Enumerate<T(==)>(s: set<T>) returns (order: seq<T>)
    ensures Elements(order) == s && Distinct(order)
  {
    order := [];
    var rest := s;
    while rest != {}
      invariant rest <= s && Elements(order) == s - rest && Distinct(order)
      decreases rest
    {
      var x :| x in rest;
      assert x !in Elements(order);
      assert Elements(order + [x]) == Elements(order) + {x};
      order, rest := order + [x], rest - {x};
    }
  }

  lemma SnocSorted(out: seq<Bytes>, key: Bytes)
    requires StrictlySorted(out) && (out != [] ==> Less(out[|out| - 1], key))
    ensures StrictlySorted(out + [key])
  {
    forall i | 0 <= i < |out| - 1 ensures Less(out[i], key) {
      LessTransitive(out[i], out[|out| - 1], key);
    }
  }

  lemma SubsetSize<T>(s: set<T>, t: set<T>)
    requires s <= t
    ensures |s| <= |t|
  {
    assert t == s + (t - s) && |t| == |s| + |t - s|;
  }

  lemma StrictlySortedDistinct(s: seq<Bytes>)
    requires StrictlySorted(s)
    ensures forall i, j | 0 <= i < j < |s| :: s[i] != s[j]
    ensures |Elements(s)| == |s|
  {
    forall i, j | 0 <= i < j < |s| ensures s[i] != s[j] { LessIrreflexive(s[i]); }
    DistinctCardinality(s);
  }

  lemma {:induction false} DistinctCardinality<T>(s: seq<T>)
    requires forall i, j | 0 <= i < j < |s| :: s[i] != s[j]
    ensures |Elements(s)| == |s|
  {
    if s != [] {
      var n := |s| - 1;
      DistinctCardinality(s[..n]);
      assert Elements(s) == Elements(s[..n]) + {s[n]};
    }
  }

  /** The image of a finite set under a function injective on it has the set's size. */
  lemma {:induction false} InjectiveImage<A, B>(s: set<A>, f: A -> B, image: set<B>)
    requires forall x, y | x in s && y in s && f(x) == f(y) :: x == y
    requires image == set x | x in s :: f(x)
    ensures |image| == |s|
  {
    if s != {} {
      var x :| x in s;
      var rest := set y | y in s - {x} :: f(y);
      InjectiveImage(s - {x}, f, rest);
      assert image == rest + {f(x)};
    }
  }

  /** Two strictly sorted sequences with the same elements are the same sequence. */
  lemma {:induction false} SortedUnique(s: seq<Bytes>, t: seq<Bytes>)
    requires StrictlySorted(s) && StrictlySorted(t) && Elements(s) == Elements(t)
    ensures s == t
  {
    StrictlySortedDistinct(s);
    StrictlySortedDistinct(t);
    if s != [] {
      assert s[0] in Elements(t) && t[0] in Elements(s);
      if s[0] != t[0] {
        assert Less(t[0], s[0]) && Less(s[0], t[0]);
        LessAsymmetric(s[0], t[0]);
      }
      LessIrreflexive(s[0]);
      assert s == [s[0]] + s[1..] && t == [t[0]] + t[1..];
      assert Elements(s[1..]) == Elements(s) - {s[0]};
      assert Elements(t[1..]) == Elements(t) - {t[0]};
      SortedUnique(s[1..], t[1..]);
    }
  }

  predicate IsLeast(k: Bytes, s: set<Bytes>) {
    k in s && forall x | x in s && x != k :: Less(k, x)
  }

  lemma {:induction false} LeastExists(s: set<Bytes>)
    requires s != {}
    ensures exists k :: IsLeast(k, s)
  {
    var x :| x in s;
    if s == {x} {
      assert IsLeast(x, s);
    } else {
      LeastExists(s - {x});
      var m :| IsLeast(m, s - {x});
      LessTotal(x, m);
      if Less(x, m) {
        forall y | y in s && y != x ensures Less(x, y) {
          if y != m { LessTransitive(x, m, y); }
        }
        assert IsLeast(x, s);
      } else {
        assert IsLeast(m, s);
      }
    }
  }

  lemma LeastUnique(s: set<Bytes>)
    ensures forall x, y | IsLeast(x, s) && IsLeast(y, s) :: x == y
  {
    forall x, y | IsLeast(x, s) && IsLeast(y, s) ensures x == y {
      if x != y { LessAsymmetric(x, y); }
    }
  }

  function Least(s: set<Bytes>): (k: Bytes)
    requires s != {}
    ensures IsLeast(k, s)
  {
    LeastExists(s);
    LeastUnique(s);
    var k :| k in s && IsLeast(k, s);
    k
  }

  lemma AscendingStep(s: set<Bytes>, k: Bytes, rest: seq<Bytes>)
    requires IsLeast(k, s) && StrictlySorted(rest) && Elements(rest) == s - {k}
    ensures StrictlySorted([k] + rest) && Elements([k] + rest) == s
  {
    forall j | 0 <= j < |rest| ensures Less(k, rest[j]) {
      assert rest[j] in Elements(rest);
    }
    forall x | x in s ensures x in [k] + rest {
      if x != k { assert x in Elements(rest); }
    }
    forall x | x in [k] + rest ensures x in s {
      if x in rest { assert x in Elements(rest); }
    }
  }

  /** The members of a set in key order. */
  function Ascending(s: set<Bytes>): (r: seq<Bytes>)
    ensures StrictlySorted(r) && Elements(r) == s && |r| == |s|
    decreases |s|
  {
    if s == {} then []
    else
      var k := Least(s);
      var rest := Ascending(s - {k});
      AscendingStep(s, k, rest);
      [k] + rest
  }

  /** Index of the first occurrence of b in s, or -1 (bytes.IndexByte). */
  function IndexByte(s: Bytes, b: byte): (i: int)
    ensures -1 <= i < |s|
    ensures i < 0 <==> b !in s
    ensures i >= 0 ==> s[i] == b && b !in s[..i]
  {
    if s == [] then -1
    else if s[0] == b then 0
    else
      var i := IndexByte(s[1..], b);
      assert s == [s[0]] + s[1..];
      assert i >= 0 ==> s[..i + 1] == [s[0]] + s[1..][..i];
      if i < 0 then -1 else i + 1
  }

  /** The first occurrence of b in p + [b] + r is at |p| when b does not occur in p. */
  lemma {:induction false} IndexAfter(p: Bytes, b: byte, r: Bytes)
    requires b !in p
    ensures IndexByte(p + [b] + r, b) == |p|
  {
    if p != [] {
      assert (p + [b] + r)[1..] == p[1..] + [b] + r;
      IndexAfter(p[1..], b, r);
    }
  }

  /** Half-open key range of an iterator with lower bound lo and upper bound hi. */
  predicate InRange(k: Bytes, lo: Bytes, hi: Bytes) {
    !Less(k, lo) && Less(k, hi)
  }

  /** The last byte of the prefix bumped by one, as a byte (store.go:215-220). */
  function UpperBoundForPrefix(p: Bytes): Bytes
    requires |p| > 0
  {
    var last: int := p[|p| - 1];
    p[..|p| - 1] + [(last + 1) % 256]
  }

  /** The range from p to its bumped bound holds exactly the keys that start with p. */
  lemma {:induction false} PrefixRange(p: Bytes, k: Bytes)
    requires |p| > 0 && p[|p| - 1] != 255
    ensures InRange(k, p, UpperBoundForPrefix(p)) <==> p <= k
  {
    var u := UpperBoundForPrefix(p);
    if |p| == 1 {
      assert u == [p[0] + 1];
      assert p[1..] == [] && u[1..] == [];
      if k != [] {
        assert Less(k, p) <==> k[0] < p[0];
        assert Less(k, u) <==> k[0] < u[0];
        assert p <= k <==> k[0] == p[0];
      }
    } else if k != [] && k[0] == p[0] {
      assert u[1..] == UpperBoundForPrefix(p[1..]);
      PrefixRange(p[1..], k[1..]);
      assert p == [p[0]] + p[1..] && k == [k[0]] + k[1..];
    }
  }
}
