/** Reads of a SQLite store, scoped to one partition or fanned out over all. */
module PartitionedReader {
  import opened ByteOrder
  import opened Consumers
  import opened Partitioned
  import opened Quads

  /** The first n partitions. */
  function Upto(n: nat): (r: seq<nat>)
    ensures |r| == n && forall i | 0 <= i < n :: r[i] == i
  {
    seq(n, i requires 0 <= i => i)
  }

  /** partsForPattern: the partitions a read touches. */
  function Scope(rt: Routing, p: Pattern): (r: seq<nat>)
    requires rt.Valid()
    ensures forall i | 0 <= i < |r| :: r[i] < |rt.names|
  {
    match rt.PartForPattern(p)
    case Some(i) => [i]
    case None => Upto(|rt.names|)
  }

  /**
   * A read of a partitioned store touches the partition the pattern router names, or else that of the bound label,
   * or else all of them in order; a read of a single file its one partition.
   */
  lemma ScopeByName(rt: Routing, p: Pattern)
    requires rt.Valid()
    ensures |rt.names| == 1 ==> Scope(rt, p) == [0]
    ensures |rt.names| > 1 ==>
      var byPattern := rt.routePattern.Some? && rt.routePattern.value(p) in rt.names;
      var byLabel := p.lbl != [] && rt.routeLabel.Some? && rt.routeLabel.value(p.lbl) in rt.names;
      var scope := Scope(rt, p);
      if byPattern || byLabel then
        && |scope| == 1
        && rt.names[scope[0]] == if byPattern then rt.routePattern.value(p) else rt.routeLabel.value(p.lbl)
      else |scope| == |rt.names| && forall i | 0 <= i < |scope| :: scope[i] == i
  {
    if |rt.names| > 1 {
      PatternByName(rt, p);
      if p.lbl != [] { RoutedByName(rt, p.lbl); }
    }
  }

  /** s lists the set, each element once. */
  ghost predicate Enumerates(s: seq<Quad>, qs: set<Quad>) {
    Elements(s) == qs && |s| == |qs|
  }

  /** cursors[i] is the order in which partition i's database answers the query. */
  ghost predicate Answers(cursors: seq<seq<Quad>>, files: seq<File>, p: Pattern) {
    |cursors| == |files| && forall i | 0 <= i < |files| :: Enumerates(cursors[i], Filter(files[i].quads, p))
  }

  /** The rows of the partitions read, one after the other. */
  function Stream(cursors: seq<seq<Quad>>, scope: seq<nat>): seq<Quad>
    requires forall i | 0 <= i < |scope| :: scope[i] < |cursors|
  {
    if scope == [] then [] else Stream(cursors, scope[..|scope| - 1]) + cursors[scope[|scope| - 1]]
  }

  lemma {:induction false} StreamPrefix(cursors: seq<seq<Quad>>, scope: seq<nat>, n: nat)
    requires n <= |scope| && forall i | 0 <= i < |scope| :: scope[i] < |cursors|
    ensures Stream(cursors, scope[..n]) <= Stream(cursors, scope)
  {
    if n == |scope| {
      assert scope[..n] == scope;
    } else {
      assert scope[..|scope| - 1][..n] == scope[..n];
      StreamPrefix(cursors, scope[..|scope| - 1], n);
    }
  }

  lemma StreamNext(cursors: seq<seq<Quad>>, scope: seq<nat>, n: nat)
    requires n < |scope| && forall i | 0 <= i < |scope| :: scope[i] < |cursors|
    ensures Stream(cursors, scope[..n + 1]) == Stream(cursors, scope[..n]) + cursors[scope[n]]
  {
    var next := scope[..n + 1];
    assert next[..|next| - 1] == scope[..n] && next[|next| - 1] == scope[n];
  }

  /** One partition's rows, until the consumer stops. */
  method YieldRows(before: seq<Quad>, rows: seq<Quad>, keep: seq<Quad> -> bool, ghost all: seq<Quad>)
    returns (out: seq<Quad>, going: bool)
    requires KeptGoing(before, keep) && before + rows <= all
    ensures going ==> out == before + rows && KeptGoing(out, keep)
    ensures !going ==> TakenWhile(out, all, keep)
  {
    hide KeptGoing, TakenWhile;
    out := before;
    for i := 0 to |rows|
      invariant out == before + rows[..i] && KeptGoing(out, keep)
    {
      ghost var sofar := out;
      KeptGoingNext(out, rows[i], keep);
      out := out + [rows[i]];
      assert before + rows[..i + 1] == out;
      assert out <= before + rows;
      if !keep(out) {
        Stopped(sofar, rows[i], all, keep);
        return out, false;
      }
    }
    assert rows[..|rows|] == rows;
    going := true;
  }

  class Reader {
    const store: Store

    constructor (store: Store)
      ensures this.store == store
    {
      this.store := store;
    }

    /** Find, with the databases' row orders given: the consumer takes a prefix of the rows in scope. */
    method Find(p: Pattern, keep: seq<Quad> -> bool, cursors: seq<seq<Quad>>) returns (out: seq<Quad>)
      requires store.Valid() && Answers(cursors, store.Files(), p)
      ensures TakenWhile(out, Stream(cursors, Scope(store.routing, p)), keep)
    {
      out := [];
      var scope := Scope(store.routing, p);
      assert KeptGoing([], keep);
      hide KeptGoing, TakenWhile, Answers, Enumerates, Scope, Stream;
      for i := 0 to |scope|
        invariant out == Stream(cursors, scope[..i]) && KeptGoing(out, keep)
      {
        var going;
        StreamNext(cursors, scope, i);
        StreamPrefix(cursors, scope, i + 1);
        out, going := YieldRows(out, cursors[scope[i]], keep, Stream(cursors, scope));
        if !going { return; }
      }
      assert scope[..|scope|] == scope;
      Finished(out, keep);
    }

    /** Count: the sum over the partitions in scope. */
    method Count(p: Pattern) returns (total: nat)
      requires store.Valid()
      ensures total == SumHits(store.Files(), Scope(store.routing, p), p)
    {
      var scope := Scope(store.routing, p);
      total := 0;
      for i := 0 to |scope|
        invariant total == SumHits(store.Files(), scope[..i], p)
      {
        assert scope[..i + 1][..i] == scope[..i];
        total := total + |Filter(store.parts[scope[i]].file.quads, p)|;
      }
      assert scope[..|scope|] == scope;
    }
  }

  /** Matches over some partitions, counted per partition. */
  function SumHits(files: seq<File>, scope: seq<nat>, p: Pattern): nat
    requires forall i | 0 <= i < |scope| :: scope[i] < |files|
  {
    if scope == [] then 0
    else SumHits(files, scope[..|scope| - 1], p) + |Filter(files[scope[|scope| - 1]].quads, p)|
  }

  // ---- what a read returns ----

  lemma FilterUnion(s: set<Quad>, t: set<Quad>, p: Pattern)
    ensures Filter(s + t, p) == Filter(s, p) + Filter(t, p)
    ensures s !! t ==> Filter(s, p) !! Filter(t, p)
  {
    assert Filter(s + t, p) == Filter(s, p) + Filter(t, p);
  }

  lemma NextPartition(rt: Routing, files: seq<File>, n: nat)
    requires Placed(rt, files) && n < |files|
    ensures AllQuads(files[..n + 1]) == AllQuads(files[..n]) + files[n].quads
    ensures AllQuads(files[..n]) !! files[n].quads
  {
    AllQuadsNext(files, n);
    forall q | q in AllQuads(files[..n]) ensures q !in files[n].quads {
      var i :| 0 <= i < n && q in files[..n][i].quads;
      assert q in files[i].quads && rt.PartFor(q.lbl) == i;
    }
  }

  /** Two lists of disjoint sets, one after the other. */
  lemma BothEnumerated(s: seq<Quad>, qs: set<Quad>, t: seq<Quad>, rs: set<Quad>)
    requires Enumerates(s, qs) && Enumerates(t, rs) && qs !! rs
    ensures Enumerates(s + t, qs + rs) && |qs + rs| == |qs| + |rs|
  {
    forall q ensures q in Elements(s + t) <==> q in qs + rs {
      assert q in s <==> q in qs;
      assert q in t <==> q in rs;
    }
  }

  lemma UptoNext(n: nat)
    ensures Upto(n + 1)[..n] == Upto(n) && Upto(n + 1)[n] == n
  {}

  lemma StreamUpto(cursors: seq<seq<Quad>>, n: nat)
    requires n < |cursors|
    ensures Stream(cursors, Upto(n + 1)) == Stream(cursors, Upto(n)) + cursors[n]
  {
    hide Upto;
    UptoNext(n);
  }

  lemma SumUpto(files: seq<File>, p: Pattern, n: nat)
    requires n < |files|
    ensures SumHits(files, Upto(n + 1), p) == SumHits(files, Upto(n), p) + |Filter(files[n].quads, p)|
  {
    hide Filter, Upto;
    UptoNext(n);
  }

  /** What the first n partitions yield. */
  ghost predicate FannedOut(files: seq<File>, cursors: seq<seq<Quad>>, p: Pattern, n: nat) {
    && n <= |files| == |cursors|
    && Enumerates(Stream(cursors, Upto(n)), Filter(AllQuads(files[..n]), p))
    && SumHits(files, Upto(n), p) == |Filter(AllQuads(files[..n]), p)|
  }

  lemma FanOutNext(rt: Routing, files: seq<File>, cursors: seq<seq<Quad>>, p: Pattern, n: nat)
    requires Placed(rt, files) && n < |files| && FannedOut(files, cursors, p, n)
    requires Enumerates(cursors[n], Filter(files[n].quads, p))
    ensures FannedOut(files, cursors, p, n + 1)
  {
    hide Placed, Enumerates, Filter, AllQuads, Stream, SumHits, Upto;
    var before, last := AllQuads(files[..n]), files[n].quads;
    NextPartition(rt, files, n);
    FilterUnion(before, last, p);
    StreamUpto(cursors, n);
    SumUpto(files, p, n);
    BothEnumerated(Stream(cursors, Upto(n)), Filter(before, p), cursors[n], Filter(last, p));
  }

  /** The first n partitions together: no quad is met twice. */
  lemma {:induction false} FanOut(rt: Routing, files: seq<File>, cursors: seq<seq<Quad>>, p: Pattern, n: nat)
    requires Placed(rt, files) && Answers(cursors, files, p) && n <= |files|
    ensures FannedOut(files, cursors, p, n)
  {
    if n == 0 {
      assert |cursors| == |files|;
      hide Placed, Answers, Matches;
      assert AllQuads(files[..0]) == {};
    } else {
      assert Enumerates(cursors[n - 1], Filter(files[n - 1].quads, p));
      hide *;
      FanOut(rt, files, cursors, p, n - 1);
      FanOutNext(rt, files, cursors, p, n - 1);
    }
  }

  /** A read of one partition is exact exactly when all matches in the store are written there. */
  lemma ScopedExactIff(rt: Routing, files: seq<File>, i: nat, p: Pattern)
    requires Placed(rt, files) && i < |files|
    ensures Filter(files[i].quads, p) == Filter(AllQuads(files), p)
      <==> forall q | q in AllQuads(files) && Matches(p, q) :: rt.PartFor(q.lbl) == i
  {
    hide Matches, Routing.PartFor;
    if forall q | q in AllQuads(files) && Matches(p, q) :: rt.PartFor(q.lbl) == i {
      forall q ensures q in Filter(files[i].quads, p) <==> q in Filter(AllQuads(files), p) { PlacedAt(rt, files, q); }
    }
    if Filter(files[i].quads, p) == Filter(AllQuads(files), p) {
      forall q | q in AllQuads(files) && Matches(p, q) ensures rt.PartFor(q.lbl) == i {
        assert q in Filter(AllQuads(files), p);
      }
    }
  }

  /**
   * With quads placed by their labels and a sound pattern router, a scoped or fanned-out Find yields
   * exactly the filter of the whole store, each quad once, and Count counts it without double counting.
   */
  lemma ReadExact(rt: Routing, files: seq<File>, cursors: seq<seq<Quad>>, p: Pattern)
    requires Placed(rt, files) && rt.PatternRouterSound() && Answers(cursors, files, p)
    ensures Enumerates(Stream(cursors, Scope(rt, p)), Filter(AllQuads(files), p))
    ensures SumHits(files, Scope(rt, p), p) == |Filter(AllQuads(files), p)|
  {
    hide Matches, Routing.PartFor, Routing.PartForPattern, Routing.PatternRouterSound;
    match rt.PartForPattern(p)
    case None =>
      FanOut(rt, files, cursors, p, |files|);
      assert files[..|files|] == files;
    case Some(i) =>
      forall q | q in AllQuads(files) && Matches(p, q) ensures rt.PartFor(q.lbl) == i { PatternScopeSound(rt, p, q); }
      ScopedExactIff(rt, files, i, p);
      assert Enumerates(cursors[i], Filter(files[i].quads, p));
      assert [i][..0] == [] && Stream(cursors, [i]) == [] + cursors[i];
  }
}
