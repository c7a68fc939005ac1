/** Page clusters: union-find with path compression over the pages similar enough to be joined. */
module Clusters {

  // ---- the similarity graph ----

  /** A pair of pages and their similarity. */
  datatype PagePair = PagePair(a: int, b: int, similarity: real)

  const THRESHOLD: real := 0.20

  type Edges = set<(int, int)>

  /** The pairs at or above the threshold. */
  function EdgesOf(pairs: seq<PagePair>): Edges {
    set i | 0 <= i < |pairs| && pairs[i].similarity >= THRESHOLD :: (pairs[i].a, pairs[i].b)
  }

  /** An edge for each pair of similarity 0.20 or more. */
  lemma EdgesAre(pairs: seq<PagePair>, a: int, b: int)
    ensures (a, b) in EdgesOf(pairs)
      <==> exists i | 0 <= i < |pairs| :: pairs[i].a == a && pairs[i].b == b && pairs[i].similarity >= 0.20
  {}

  predicate Adjacent(e: Edges, a: int, b: int) {
    (a, b) in e || (b, a) in e
  }

  predicate IsPath(e: Edges, path: seq<int>) {
    |path| > 0 && forall i | 0 <= i < |path| - 1 :: Adjacent(e, path[i], path[i + 1])
  }

  /** Two pages joined by a chain of similar pairs. */
  ghost predicate Connected(e: Edges, a: int, b: int) {
    exists path :: IsPath(e, path) && path[0] == a && path[|path| - 1] == b
  }

  lemma ConnectedSelf(e: Edges, a: int)
    ensures Connected(e, a, a)
  {
    assert IsPath(e, [a]);
  }

  lemma ConnectedEdge(e: Edges, a: int, b: int)
    requires Adjacent(e, a, b)
    ensures Connected(e, a, b)
  {
    var path := [a, b];
    assert IsPath(e, path) && path[0] == a && path[|path| - 1] == b;
  }

  lemma ConnectedTransitive(e: Edges, a: int, b: int, c: int)
    requires Connected(e, a, b) && Connected(e, b, c)
    ensures Connected(e, a, c)
  {
    var p :| IsPath(e, p) && p[0] == a && p[|p| - 1] == b;
    var q :| IsPath(e, q) && q[0] == b && q[|q| - 1] == c;
    var path := p + q[1..];
    forall i | 0 <= i < |path| - 1 ensures Adjacent(e, path[i], path[i + 1]) {
      if i < |p| - 1 {
        assert path[i] == p[i] && path[i + 1] == p[i + 1];
      } else {
        assert path[i] == q[i - (|p| - 1)] && path[i + 1] == q[i - (|p| - 1) + 1];
      }
    }
    assert path[|path| - 1] == c;
  }

  function Reversed(path: seq<int>): (r: seq<int>)
    ensures |r| == |path| && forall i | 0 <= i < |path| :: r[i] == path[|path| - 1 - i]
  {
    seq(|path|, i requires 0 <= i < |path| => path[|path| - 1 - i])
  }

  lemma ConnectedSymmetric(e: Edges, a: int, b: int)
    requires Connected(e, a, b)
    ensures Connected(e, b, a)
  {
    var p :| IsPath(e, p) && p[0] == a && p[|p| - 1] == b;
    var r, n := Reversed(p), |p| - 1;
    forall i | 0 <= i < n ensures Adjacent(e, r[i], r[i + 1]) {
      assert Adjacent(e, p[n - i - 1], p[n - i - 1 + 1]);
    }
    assert IsPath(e, r) && r[0] == b && r[|r| - 1] == a;
  }

  lemma ConnectedMore(e: Edges, e': Edges, a: int, b: int)
    requires e <= e' && Connected(e, a, b)
    ensures Connected(e', a, b)
  {
    var p :| IsPath(e, p) && p[0] == a && p[|p| - 1] == b;
    assert IsPath(e', p);
  }

  /** A map constant along edges is constant along paths. */
  lemma {:induction false} ConstantOnPath(e: Edges, rep: int -> int, path: seq<int>)
    requires IsPath(e, path) && forall a, b | (a, b) in e :: rep(a) == rep(b)
    ensures rep(path[0]) == rep(path[|path| - 1])
  {
    var n := |path| - 1;
    if n > 0 {
      assert Adjacent(e, path[n - 1], path[n - 1 + 1]);
      assert forall i | 0 <= i < n - 1 :: Adjacent(e, path[..n][i], path[..n][i + 1]) by {
        forall i | 0 <= i < n - 1 ensures Adjacent(e, path[..n][i], path[..n][i + 1]) {
          assert Adjacent(e, path[i], path[i + 1]);
        }
      }
      ConstantOnPath(e, rep, path[..n]);
    }
  }

  ghost predicate Equivalence(rel: (int, int) -> bool) {
    && (forall x :: rel(x, x)) && (forall x, y | rel(x, y) :: rel(y, x))
    && (forall x, y, z | rel(x, y) && rel(y, z) :: rel(x, z))
  }

  /** Being connected is the least equivalence that holds of the edges. */
  lemma ConnectedLeast(e: Edges, rel: (int, int) -> bool, a: int, b: int)
    requires Equivalence(rel) && (forall x, y | (x, y) in e :: rel(x, y)) && Connected(e, a, b)
    ensures rel(a, b)
  {
    var path :| IsPath(e, path) && path[0] == a && path[|path| - 1] == b;
    RelatedOnPath(e, rel, path, a, b);
  }

  lemma {:induction false} RelatedOnPath(e: Edges, rel: (int, int) -> bool, path: seq<int>, a: int, b: int)
    requires Equivalence(rel) && forall x, y | (x, y) in e :: rel(x, y)
    requires IsPath(e, path) && path[0] == a && path[|path| - 1] == b
    ensures rel(a, b)
  {
    var n := |path| - 1;
    if n == 0 {
      assert rel(a, a);
    } else {
      var m := path[n - 1];
      assert Adjacent(e, path[n - 1], path[n - 1 + 1]);
      forall i | 0 <= i < n - 1 ensures Adjacent(e, path[..n][i], path[..n][i + 1]) {
        assert Adjacent(e, path[i], path[i + 1]);
      }
      RelatedOnPath(e, rel, path[..n], a, m);
      assert rel(a, m) && rel(m, b);
    }
  }

  // ---- union-find ----

  /** rep picks one page of each component, and joins exactly the connected pages. */
  ghost predicate Represents(e: Edges, rep: int -> int) {
    && (forall x :: Connected(e, x, rep(x)))
    && (forall a, b | (a, b) in e :: rep(a) == rep(b))
  }

  /** Same representative exactly if connected. */
  lemma SameRepIffConnected(e: Edges, rep: int -> int, a: int, b: int)
    requires Represents(e, rep)
    ensures rep(a) == rep(b) <==> Connected(e, a, b)
  {
    if rep(a) == rep(b) {
      assert Connected(e, a, rep(a)) && Connected(e, b, rep(b));
      ConnectedSymmetric(e, b, rep(b));
      ConnectedTransitive(e, a, rep(a), b);
    }
    if Connected(e, a, b) {
      var p :| IsPath(e, p) && p[0] == a && p[|p| - 1] == b;
      ConstantOnPath(e, rep, p);
    }
  }

  /** The representatives after two components are joined. */
  ghost function Joined(rep: int -> int, ra: int, rb: int): int -> int {
    x => if rep(x) == ra then rb else rep(x)
  }

  /** Joining the components of an edge's two ends represents the graph with that edge. */
  lemma JoinRepresents(e: Edges, rep: int -> int, a: int, b: int)
    requires Represents(e, rep)
    ensures Represents(e + {(a, b)}, Joined(rep, rep(a), rep(b)))
  {
    var e', rep' := e + {(a, b)}, Joined(rep, rep(a), rep(b));
    hide IsPath, Connected;
    assert Connected(e, a, rep(a)) && Connected(e, b, rep(b));
    ConnectedSymmetric(e, a, rep(a));
    ConnectedMore(e, e', rep(a), a);
    ConnectedMore(e, e', b, rep(b));
    ConnectedEdge(e', a, b);
    ConnectedTransitive(e', rep(a), a, b);
    ConnectedTransitive(e', rep(a), b, rep(b));
    forall x ensures Connected(e', x, rep'(x)) {
      ConnectedMore(e, e', x, rep(x));
      if rep(x) == rep(a) { ConnectedTransitive(e', x, rep(a), rep(b)); }
    }
  }

  lemma NoEdgesRepresents()
    ensures Represents({}, x => x)
  {
    hide IsPath;
    forall x ensures Connected({}, x, x) { ConnectedSelf({}, x); }
  }

  /** Acyclic, as heights fall along parent links, and rep is where the links lead. */
  ghost predicate Forest(parent: map<int, int>, rep: int -> int, height: int -> nat) {
    && (forall x | x in parent :: height(parent[x]) < height(x) && rep(x) == rep(parent[x]))
    && (forall x | x !in parent :: rep(x) == x)
    && (forall x :: rep(x) !in parent && height(rep(x)) <= height(x))
  }

  ghost function Raised(rep: int -> int, height: int -> nat, ra: int, rb: int): int -> nat {
    x => if rep(x) == ra then height(x) + height(rb) + 1 else height(x)
  }

  /** Pointing a page straight at its root changes no root. */
  lemma Compressed(parent: map<int, int>, rep: int -> int, height: int -> nat, x: int)
    requires Forest(parent, rep, height) && x in parent
    ensures Forest(parent[x := rep(x)], rep, height)
  {
    var y := parent[x];
    assert rep(x) == rep(y) && height(y) < height(x);
    assert rep(rep(x)) == rep(x);
  }

  /** Hanging one root under another keeps the forest. */
  lemma Linked(parent: map<int, int>, rep: int -> int, height: int -> nat, ra: int, rb: int)
    requires Forest(parent, rep, height) && ra !in parent && rb !in parent && ra != rb
    ensures Forest(parent[ra := rb], Joined(rep, ra, rb), Raised(rep, height, ra, rb))
  {
    var parent', rep', height' := parent[ra := rb], Joined(rep, ra, rb), Raised(rep, height, ra, rb);
    forall x | x in parent' ensures height'(parent'[x]) < height'(x) && rep'(x) == rep'(parent'[x]) {}
    forall x ensures rep'(x) !in parent' && height'(rep'(x)) <= height'(x) {}
  }

  class UnionFind {
    var parent: map<int, int>
    /** Every page's root. */
    ghost var rep: int -> int
    ghost var height: int -> nat

    ghost predicate Valid()
      reads this
    {
      Forest(parent, rep, height)
    }

    constructor ()
      ensures Valid() && parent == map[] && forall x :: rep(x) == x
    {
      parent := map[];
      rep, height := x => x, _ => 0;
    }

    /** find, with path compression: it rewrites parents, but never a root. */
    method Find(x: int) returns (root: int)
      requires Valid()
      modifies this`parent
      ensures Valid() && root == rep(x) && parent.Keys == old(parent.Keys)
      decreases height(x)
    {
      if x !in parent { return x; }
      root := Find(parent[x]);
      Compressed(parent, rep, height, x);
      parent := parent[x := root];
    }

    /** union: the first root is hung under the second. */
    method Union(a: int, b: int)
      requires Valid()
      modifies this
      ensures Valid()
      ensures forall x :: rep(x) == Joined(old(rep), old(rep(a)), old(rep(b)))(x)
    {
      var ra := Find(a);
      var rb := Find(b);
      if ra != rb {
        assert ra !in parent && rb !in parent;
        hide Forest, Joined, Raised;
        Linked(parent, rep, height, ra, rb);
        parent, rep, height := parent[ra := rb], Joined(rep, ra, rb), Raised(rep, height, ra, rb);
      }
    }
  }

  lemma RepresentsSame(e: Edges, rep: int -> int, rep': int -> int)
    requires Represents(e, rep) && forall x :: rep(x) == rep'(x)
    ensures Represents(e, rep')
  {
    hide Connected;
  }

  lemma EdgesNext(pairs: seq<PagePair>, i: nat)
    requires i < |pairs|
    ensures EdgesOf(pairs[..i + 1])
         == EdgesOf(pairs[..i]) + if pairs[i].similarity >= THRESHOLD then {(pairs[i].a, pairs[i].b)} else {}
  {
    var front, next := pairs[..i], pairs[..i + 1];
    forall x, y ensures (x, y) in EdgesOf(next)
      <==> (x, y) in EdgesOf(front) || (pairs[i].similarity >= THRESHOLD && (x, y) == (pairs[i].a, pairs[i].b))
    {
      if (x, y) in EdgesOf(front) {
        var k :| 0 <= k < i && front[k].similarity >= THRESHOLD && (x, y) == (front[k].a, front[k].b);
        assert next[k] == front[k];
      }
      if pairs[i].similarity >= THRESHOLD { assert next[i] == pairs[i]; }
      if (x, y) in EdgesOf(next) {
        var k :| 0 <= k < i + 1 && next[k].similarity >= THRESHOLD && (x, y) == (next[k].a, next[k].b);
        if k < i { assert front[k] == next[k]; }
      }
    }
  }

  /** Every pair similar enough is joined, in the given order. */
  method JoinPairs(pairs: seq<PagePair>) returns (uf: UnionFind)
    ensures fresh(uf) && uf.Valid() && Represents(EdgesOf(pairs), uf.rep)
  {
    uf := new UnionFind();
    NoEdgesRepresents();
    RepresentsSame({}, x => x, uf.rep);
    NoPairs(pairs);
    hide Represents, EdgesOf, Joined, Forest;
    for i := 0 to |pairs|
      invariant fresh(uf) && uf.Valid() && Represents(EdgesOf(pairs[..i]), uf.rep)
    {
      EdgesNext(pairs, i);
      if pairs[i].similarity >= THRESHOLD {
        JoinPair(uf, EdgesOf(pairs[..i]), pairs[i]);
      } else {
        assert EdgesOf(pairs[..i + 1]) == EdgesOf(pairs[..i]);
      }
    }
  }

  lemma NoPairs(pairs: seq<PagePair>)
    ensures EdgesOf(pairs[..0]) == {} && pairs[..|pairs|] == pairs
  {}

  method JoinPair(uf: UnionFind, ghost e: Edges, p: PagePair)
    requires uf.Valid() && Represents(e, uf.rep)
    modifies uf
    ensures uf.Valid() && Represents(e + {(p.a, p.b)}, uf.rep)
  {
    JoinRepresents(e, uf.rep, p.a, p.b);
    hide Represents, Joined, Forest;
    ghost var joined := Joined(uf.rep, uf.rep(p.a), uf.rep(p.b));
    uf.Union(p.a, p.b);
    RepresentsSame(e + {(p.a, p.b)}, joined, uf.rep);
  }

  // ---- collecting the clusters ----

  /** The pages with a root, in page order. */
  ghost function WithRoot(pages: seq<int>, rep: int -> int, root: int): seq<int> {
    if pages == [] then []
    else
      var n := |pages| - 1;
      WithRoot(pages[..n], rep, root) + if rep(pages[n]) == root then [pages[n]] else []
  }

  /** One cluster for each root some page has, holding the pages with that root. */
  ghost predicate Collected(pages: seq<int>, rep: int -> int, clusters: map<int, seq<int>>) {
    && (forall r | r in clusters :: clusters[r] == WithRoot(pages, rep, r) && clusters[r] != [])
    && (forall i | 0 <= i < |pages| :: rep(pages[i]) in clusters)
  }

  lemma {:induction false} WithRootIs(pages: seq<int>, rep: int -> int, root: int, p: int)
    ensures p in WithRoot(pages, rep, root) <==> p in pages && rep(p) == root
    ensures multiset(WithRoot(pages, rep, root))[p] == if rep(p) == root then multiset(pages)[p] else 0
  {
    if pages != [] {
      var n := |pages| - 1;
      WithRootIs(pages[..n], rep, root, p);
      assert pages == pages[..n] + [pages[n]];
    }
  }

  lemma CollectNext(pages: seq<int>, i: nat, rep: int -> int, clusters: map<int, seq<int>>)
    requires i < |pages| && Collected(pages[..i], rep, clusters)
    ensures var root := rep(pages[i]);
      Collected(pages[..i + 1], rep, clusters[root := (if root in clusters then clusters[root] else []) + [pages[i]]])
  {
    var front, next := pages[..i], pages[..i + 1];
    assert next[..i] == front && next[i] == pages[i];
    var root := rep(pages[i]);
    if root !in clusters { NoneWithRoot(front, rep, root); }
    forall k | 0 <= k < i ensures rep(next[k]) in clusters { assert front[k] == next[k]; }
  }

  lemma {:induction false} NoneWithRoot(pages: seq<int>, rep: int -> int, root: int)
    requires forall k | 0 <= k < |pages| :: rep(pages[k]) != root
    ensures WithRoot(pages, rep, root) == []
  {
    if pages != [] { NoneWithRoot(pages[..|pages| - 1], rep, root); }
  }

  /** The clusters are a partition of the pages into connected components, each page as often as it was given. */
  ghost predicate Components(pages: seq<int>, e: Edges, clusters: map<int, seq<int>>) {
    && (forall p | p in pages :: exists r | r in clusters :: p in clusters[r])
    && (forall r, p | r in clusters && p in clusters[r] :: p in pages)
    && (forall r, s, p, q | r in clusters && s in clusters && p in clusters[r] && q in clusters[s] ::
          r == s <==> Connected(e, p, q))
    && (forall r, p | r in clusters && p in clusters[r] :: multiset(clusters[r])[p] == multiset(pages)[p])
  }

  lemma ClustersAreComponents(pages: seq<int>, e: Edges, rep: int -> int, clusters: map<int, seq<int>>)
    requires Collected(pages, rep, clusters) && Represents(e, rep)
    ensures Components(pages, e, clusters)
  {
    hide Connected, WithRoot, Represents;
    forall r, p | r in clusters
      ensures p in clusters[r] <==> p in pages && rep(p) == r
      ensures p in clusters[r] ==> multiset(clusters[r])[p] == multiset(pages)[p]
    {
      WithRootIs(pages, rep, r, p);
    }
    forall p | p in pages ensures exists r | r in clusters :: p in clusters[r] {
      var i :| 0 <= i < |pages| && pages[i] == p;
      assert rep(p) in clusters && p in clusters[rep(p)];
    }
    forall r, s, p, q | r in clusters && s in clusters && p in clusters[r] && q in clusters[s]
      ensures r == s <==> Connected(e, p, q)
    {
      SameRepIffConnected(e, rep, p, q);
    }
  }

  /**
   * The clusters collected are exactly the connected components of the graph of pairs at or above the
   * threshold: every page is in a cluster, and two pages share one exactly if they are connected.
   */
  method ClusterPages(pages: seq<int>, pairs: seq<PagePair>) returns (clusters: map<int, seq<int>>)
    ensures forall p | p in pages :: exists r | r in clusters :: p in clusters[r]
    ensures forall r, p | r in clusters && p in clusters[r] ::
      p in pages && multiset(clusters[r])[p] == multiset(pages)[p]
    ensures forall r, s, p, q | r in clusters && s in clusters && p in clusters[r] && q in clusters[s] ::
      r == s <==> Connected(EdgesOf(pairs), p, q)
    ensures forall r | r in clusters :: clusters[r] != [] && Connected(EdgesOf(pairs), clusters[r][0], r)
  {
    hide Connected, EdgesOf;
    var uf := JoinPairs(pairs);
    clusters := map[];
    ghost var rep := uf.rep;
    for i := 0 to |pages|
      invariant fresh(uf) && uf.Valid() && uf.rep == rep
      invariant Collected(pages[..i], rep, clusters)
    {
      hide Collected;
      var root := uf.Find(pages[i]);
      CollectNext(pages, i, rep, clusters);
      clusters := clusters[root := (if root in clusters then clusters[root] else []) + [pages[i]]];
    }
    assert pages[..|pages|] == pages;
    ClustersAreComponents(pages, EdgesOf(pairs), rep, clusters);
    forall r | r in clusters ensures clusters[r] != [] && Connected(EdgesOf(pairs), clusters[r][0], r) {
      WithRootIs(pages, rep, r, clusters[r][0]);
    }
  }
}
