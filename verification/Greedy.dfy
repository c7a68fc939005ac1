/** Greedy reduction of an index: entries picked by how many new pages they cover. */
module Greedy {
  import opened ByteOrder

  type Id = Bytes
  type Page = Bytes
  type Entries = map<Id, set<Page>>

  // ---- coverage ----

  /** The pages of some entries. */
  function PagesOf(entries: Entries, ids: set<Id>): set<Page> {
    set id, p | id in ids && id in entries && p in entries[id] :: p
  }

  lemma PagesNone(entries: Entries)
    ensures PagesOf(entries, {}) == {}
  {}

  lemma PagesAdd(entries: Entries, ids: set<Id>, id: Id)
    requires id in entries
    ensures PagesOf(entries, ids + {id}) == PagesOf(entries, ids) + entries[id]
  {}

  function AllPages(entries: Entries): set<Page> {
    PagesOf(entries, entries.Keys)
  }

  function Covered(entries: Entries, selected: seq<Id>): set<Page> {
    PagesOf(entries, Elements(selected))
  }

  /** The pages an entry would add. */
  function Gain(entries: Entries, covered: set<Page>, id: Id): nat
    requires id in entries
  {
    |entries[id] - covered|
  }

  /** Every selection gains something, and as much as any entry could have. */
  ghost predicate GreedyRun(entries: Entries, selected: seq<Id>) {
    forall t | 0 <= t < |selected| :: BestAt(entries, selected, t)
  }

  ghost predicate BestAt(entries: Entries, selected: seq<Id>, t: nat)
    requires t < |selected|
  {
    selected[t] in entries &&
    var covered := Covered(entries, selected[..t]);
    Gain(entries, covered, selected[t]) > 0
    && forall id | id in entries :: Gain(entries, covered, id) <= Gain(entries, covered, selected[t])
  }

  /** The pages not covered after t selections. */
  function Uncovered(entries: Entries, selected: seq<Id>, t: nat): nat
    requires t <= |selected|
  {
    |AllPages(entries) - Covered(entries, selected[..t])|
  }

  function GainAt(entries: Entries, selected: seq<Id>, t: nat): nat
    requires t < |selected| && selected[t] in entries
  {
    Gain(entries, Covered(entries, selected[..t]), selected[t])
  }

  // ---- the selection loop ----

  /** What one selection adds, and the coverage after it. */
  datatype SelectionStep = SelectionStep(newPages: nat, totalCover: nat)

  /** The inner loop: an entry's pages not yet covered. */
  method CountNew(pages: set<Page>, covered: set<Page>) returns (n: nat)
    ensures n == |pages - covered|
  {
    var order := Enumerate(pages);
    n := 0;
    ghost var counted: set<Page> := {};
    for i := 0 to |order|
      invariant counted == Elements(order[..i]) - covered && n == |counted|
    {
      DistinctNext(order, i);
      if order[i] !in covered { n, counted := n + 1, counted + {order[i]}; }
    }
    assert order[..|order|] == order;
  }

  /** The entry with most uncovered pages, ties going to whichever the map gives first. */
  method BestEntry(entries: Entries, remaining: set<Id>, covered: set<Page>) returns (bestID: Id, bestNew: nat)
    requires remaining <= entries.Keys
    ensures forall id | id in remaining :: Gain(entries, covered, id) <= bestNew
    ensures bestNew > 0 ==> bestID in remaining && Gain(entries, covered, bestID) == bestNew
  {
    var order := Enumerate(remaining);
    bestID, bestNew := [], 0;
    for i := 0 to |order|
      invariant forall k | 0 <= k < i :: order[k] in entries && Gain(entries, covered, order[k]) <= bestNew
      invariant bestNew > 0 ==> bestID in remaining && Gain(entries, covered, bestID) == bestNew
    {
      var id := order[i];
      assert id in Elements(order);
      var newPages := CountNew(entries[id], covered);
      if newPages > bestNew || (newPages == bestNew && bestID == []) {
        bestNew, bestID := newPages, id;
      }
    }
    forall id | id in remaining ensures Gain(entries, covered, id) <= bestNew {
      assert id in Elements(order);
      var k :| 0 <= k < |order| && order[k] == id;
    }
  }

  lemma CoveredNext(entries: Entries, selected: seq<Id>, id: Id)
    requires id in entries
    ensures Covered(entries, selected + [id]) == Covered(entries, selected) + entries[id]
  {
    PagesAdd(entries, Elements(selected), id);
    hide PagesOf;
    assert Elements(selected + [id]) == Elements(selected) + {id};
  }

  /** Nothing is left that a selected entry could add. */
  lemma SelectedGainNothing(entries: Entries, selected: seq<Id>, id: Id)
    requires id in selected && id in entries
    ensures Gain(entries, Covered(entries, selected), id) == 0
  {
    assert id in Elements(selected);
    assert entries[id] - Covered(entries, selected) == {};
  }

  /** The steps report each selection's gain and the coverage reached. */
  ghost predicate StepsReport(entries: Entries, selected: seq<Id>, steps: seq<SelectionStep>) {
    && |steps| == |selected|
    && forall t | 0 <= t < |selected| ::
      && selected[t] in entries
      && steps[t] == SelectionStep(GainAt(entries, selected, t), |Covered(entries, selected[..t + 1])|)
  }

  /** The entries not selected, but for those without pages. */
  ghost predicate RemainingIs(entries: Entries, selected: seq<Id>, remaining: set<Id>) {
    forall id :: id in remaining <==> id in entries && entries[id] != {} && id !in selected
  }

  /** The best of the remaining entries is best of all. */
  lemma BestOfAll(entries: Entries, selected: seq<Id>, remaining: set<Id>, best: nat)
    requires RemainingIs(entries, selected, remaining)
    requires forall id | id in remaining :: Gain(entries, Covered(entries, selected), id) <= best
    ensures forall id | id in entries :: Gain(entries, Covered(entries, selected), id) <= best
  {
    hide Covered;
    forall id | id in entries && id !in remaining ensures Gain(entries, Covered(entries, selected), id) <= best {
      if id in selected {
        SelectedGainNothing(entries, selected, id);
      } else {
        assert entries[id] - Covered(entries, selected) == {};
      }
    }
  }

  lemma SelectNext(entries: Entries, selected: seq<Id>, id: Id)
    requires GreedyRun(entries, selected) && id in entries && Gain(entries, Covered(entries, selected), id) > 0
    requires forall k | k in entries ::
               Gain(entries, Covered(entries, selected), k) <= Gain(entries, Covered(entries, selected), id)
    ensures GreedyRun(entries, selected + [id])
  {
    hide Covered, Gain;
    var after := selected + [id];
    forall t | 0 <= t < |after| ensures BestAt(entries, after, t) {
      assert after[..t] == selected[..t];
      if t < |selected| { assert BestAt(entries, selected, t); } else { assert selected[..t] == selected; }
    }
  }

  lemma ReportNext(entries: Entries, selected: seq<Id>, steps: seq<SelectionStep>, id: Id)
    requires StepsReport(entries, selected, steps) && id in entries
    ensures var after := selected + [id];
      var step := SelectionStep(Gain(entries, Covered(entries, selected), id), |Covered(entries, after)|);
      StepsReport(entries, after, steps + [step])
  {
    hide Covered, Gain;
    var after := selected + [id];
    assert after[..|selected|] == selected && after[..|after|] == after;
    forall t | 0 <= t < |selected|
      ensures GainAt(entries, after, t) == GainAt(entries, selected, t)
      ensures Covered(entries, after[..t + 1]) == Covered(entries, selected[..t + 1])
    {
      assert after[..t] == selected[..t] && after[..t + 1] == selected[..t + 1];
    }
  }

  /**
   * The selection loop, under any tie-breaking: it stops only when every page is covered, and it is a
   * greedy run, reported step by step.
   */
  method GreedyReduce(entries: Entries) returns (selected: seq<Id>, steps: seq<SelectionStep>)
    ensures GreedyRun(entries, selected) && StepsReport(entries, selected, steps)
    ensures Covered(entries, selected) == AllPages(entries)
    ensures forall id, p | id in entries && p in entries[id] ::
      exists t | 0 <= t < |selected| :: selected[t] in entries && p in entries[selected[t]]
    ensures Distinct(selected)
  {
    var covered: set<Page> := {};
    selected, steps := [], [];
    var remaining := set id | id in entries && entries[id] != {};
    assert Reducing(entries, selected, steps, covered, remaining) by { assert Covered(entries, []) == {}; }
    while remaining != {}
      invariant Reducing(entries, selected, steps, covered, remaining)
      decreases remaining
    {
      ReducingFacts(entries, selected, steps, covered, remaining);
      hide Reducing, GreedyRun, StepsReport, RemainingIs, Covered, Gain;
      var bestID, bestNew := BestEntry(entries, remaining, covered);
      if bestNew == 0 { break; }
      ReducingNext(entries, selected, steps, covered, remaining, bestID, bestNew);
      covered := covered + entries[bestID];
      selected := selected + [bestID];
      remaining := remaining - {bestID};
      steps := steps + [SelectionStep(bestNew, |covered|)];
    }
    AllReduced(entries, selected, steps, covered, remaining);
    forall id, p | id in entries && p in entries[id]
      ensures exists t | 0 <= t < |selected| :: selected[t] in entries && p in entries[selected[t]]
    {
      PageSelected(entries, selected, id, p);
    }
  }

  lemma PageSelected(entries: Entries, selected: seq<Id>, id: Id, p: Page)
    requires Covered(entries, selected) == AllPages(entries) && id in entries && p in entries[id]
    ensures exists t | 0 <= t < |selected| :: selected[t] in entries && p in entries[selected[t]]
  {
    assert p in AllPages(entries);
    var s :| s in Elements(selected) && s in entries && p in entries[s];
    var t :| 0 <= t < |selected| && selected[t] == s;
  }

  ghost predicate Reducing(entries: Entries, selected: seq<Id>, steps: seq<SelectionStep>, covered: set<Page>,
          remaining: set<Id>) {
    && covered == Covered(entries, selected) && RemainingIs(entries, selected, remaining)
    && GreedyRun(entries, selected) && StepsReport(entries, selected, steps) && Distinct(selected)
  }

  lemma ReducingFacts(entries: Entries, selected: seq<Id>, steps: seq<SelectionStep>, covered: set<Page>,
          remaining: set<Id>)
    requires Reducing(entries, selected, steps, covered, remaining)
    ensures remaining <= entries.Keys && covered == Covered(entries, selected)
  {}

  lemma ReducingNext(entries: Entries, selected: seq<Id>, steps: seq<SelectionStep>, covered: set<Page>,
          remaining: set<Id>,
                     bestID: Id, bestNew: nat)
    requires Reducing(entries, selected, steps, covered, remaining)
    requires remaining <= entries.Keys && bestID in remaining
    requires bestNew > 0 && Gain(entries, covered, bestID) == bestNew
    requires forall id | id in remaining :: Gain(entries, covered, id) <= bestNew
    ensures var covered' := covered + entries[bestID];
      Reducing(entries, selected + [bestID], steps + [SelectionStep(bestNew, |covered'|)], covered',
               remaining - {bestID})
  {
    assert bestID !in selected;
    RemainingNext(entries, selected, remaining, bestID);
    hide GreedyRun, StepsReport, RemainingIs, Covered, Gain;
    BestOfAll(entries, selected, remaining, bestNew);
    SelectNext(entries, selected, bestID);
    ReportNext(entries, selected, steps, bestID);
    CoveredNext(entries, selected, bestID);
  }

  lemma RemainingNext(entries: Entries, selected: seq<Id>, remaining: set<Id>, id: Id)
    requires RemainingIs(entries, selected, remaining)
    ensures RemainingIs(entries, selected + [id], remaining - {id})
  {}

  /** With nothing more to gain, every page is covered. */
  lemma AllReduced(entries: Entries, selected: seq<Id>, steps: seq<SelectionStep>, covered: set<Page>,
          remaining: set<Id>)
    requires Reducing(entries, selected, steps, covered, remaining)
    requires forall id | id in remaining && id in entries :: Gain(entries, covered, id) <= 0
    ensures GreedyRun(entries, selected) && StepsReport(entries, selected, steps) && Distinct(selected)
    ensures Covered(entries, selected) == AllPages(entries)
  {
    ReducingFacts(entries, selected, steps, covered, remaining);
    hide GreedyRun, StepsReport, Covered, Gain, AllPages;
    BestOfAll(entries, selected, remaining, 0);
    NothingToGain(entries, Covered(entries, selected));
    CoveredWithin(entries, selected);
  }

  lemma NothingToGain(entries: Entries, covered: set<Page>)
    requires forall id | id in entries :: Gain(entries, covered, id) <= 0
    ensures AllPages(entries) <= covered
  {
    forall id, p | id in entries && p in entries[id] ensures p in covered {
      assert Gain(entries, covered, id) == 0;
      assert p !in entries[id] - covered;
    }
  }

  lemma CoveredWithin(entries: Entries, selected: seq<Id>)
    ensures Covered(entries, selected) <= AllPages(entries)
  {}

  // ---- how good a greedy run is ----

  lemma GainShrinks(entries: Entries, covered: set<Page>, covered': set<Page>, id: Id)
    requires id in entries && covered <= covered'
    ensures Gain(entries, covered', id) <= Gain(entries, covered, id)
  {
    SubsetSize(entries[id] - covered', entries[id] - covered);
  }

  lemma BestIs(entries: Entries, selected: seq<Id>, t: nat, id: Id)
    requires GreedyRun(entries, selected) && t < |selected| && id in entries
    ensures selected[t] in entries
    ensures Gain(entries, Covered(entries, selected[..t]), id) <= GainAt(entries, selected, t)
    ensures GainAt(entries, selected, t) > 0
  {
    hide Gain, Covered;
    assert BestAt(entries, selected, t);
  }

  lemma InEntries(entries: Entries, selected: seq<Id>, t: nat)
    requires GreedyRun(entries, selected) && t < |selected|
    ensures selected[t] in entries
  {
    hide Gain, Covered;
    assert BestAt(entries, selected, t);
  }

  /** Gains never grow: a selection could have been made earlier. */
  lemma GainsNonIncreasing(entries: Entries, selected: seq<Id>, t: nat)
    requires GreedyRun(entries, selected) && t + 1 < |selected|
    ensures selected[t] in entries && selected[t + 1] in entries
    ensures 0 < GainAt(entries, selected, t + 1) <= GainAt(entries, selected, t)
  {
    InEntries(entries, selected, t);
    InEntries(entries, selected, t + 1);
    hide Covered, GreedyRun, Gain;
    var id := selected[t + 1];
    BestIs(entries, selected, t, id);
    BestIs(entries, selected, t + 1, id);
    assert selected[..t + 1] == selected[..t] + [selected[t]];
    CoveredNext(entries, selected[..t], selected[t]);
    GainShrinks(entries, Covered(entries, selected[..t]), Covered(entries, selected[..t + 1]), id);
  }

  /** One selection uncovers exactly its gain. */
  lemma UncoveredNext(entries: Entries, selected: seq<Id>, t: nat)
    requires t < |selected| && selected[t] in entries
    ensures Uncovered(entries, selected, t + 1) == Uncovered(entries, selected, t) - GainAt(entries, selected, t)
  {
    var all, id := AllPages(entries), selected[t];
    var before := Covered(entries, selected[..t]);
    CoveredWithin(entries, selected[..t + 1]);
    hide Covered, AllPages;
    assert selected[..t + 1] == selected[..t] + [id];
    CoveredNext(entries, selected[..t], id);
    assert all - before == (all - (before + entries[id])) + (entries[id] - before);
  }

  function SumGains(entries: Entries, selected: seq<Id>, t: nat): nat
    requires t <= |selected| && forall i | 0 <= i < |selected| :: selected[i] in entries
  {
    if t == 0 then 0 else SumGains(entries, selected, t - 1) + GainAt(entries, selected, t - 1)
  }

  lemma {:induction false} GainsAndRest(entries: Entries, selected: seq<Id>, t: nat)
    requires t <= |selected| && forall i | 0 <= i < |selected| :: selected[i] in entries
    ensures SumGains(entries, selected, t) + Uncovered(entries, selected, t) == |AllPages(entries)|
  {
    hide Uncovered, GainAt, AllPages;
    if t == 0 {
      NoneCovered(entries, selected);
    } else {
      GainsAndRest(entries, selected, t - 1);
      UncoveredNext(entries, selected, t - 1);
    }
  }

  /** The gains add up to the pages covered. */
  lemma GainsSum(entries: Entries, selected: seq<Id>, t: nat)
    requires t <= |selected| && forall i | 0 <= i < |selected| :: selected[i] in entries
    ensures SumGains(entries, selected, t) == |Covered(entries, selected[..t])|
  {
    GainsAndRest(entries, selected, t);
    CoveredWithin(entries, selected[..t]);
    hide Covered, AllPages, SumGains;
    SplitSize(AllPages(entries), Covered(entries, selected[..t]));
  }

  lemma SplitSize<T>(all: set<T>, part: set<T>)
    requires part <= all
    ensures |all| == |part| + |all - part|
  {
    assert all == part + (all - part);
  }

  lemma UnionGain(pages: set<Page>, entries: Entries, covered: set<Page>, id: Id)
    requires id in entries
    ensures |(pages + entries[id]) - covered| <= |pages - covered| + Gain(entries, covered, id)
  {
    var s, t := pages - covered, entries[id] - covered;
    assert (pages + entries[id]) - covered == s + t;
    assert |s + t| == |s| + |t| - |s * t|;
  }

  /** Some entries add at most their number times the largest gain. */
  lemma {:induction false} UnionBound(entries: Entries, ids: set<Id>, covered: set<Page>, gain: nat)
    requires ids <= entries.Keys && forall id | id in ids :: Gain(entries, covered, id) <= gain
    ensures |PagesOf(entries, ids) - covered| <= |ids| * gain
    decreases |ids|
  {
    hide PagesOf, Gain;
    if ids == {} {
      PagesNone(entries);
      assert {} - covered == {};
    } else {
      var id :| id in ids;
      var rest := ids - {id};
      assert ids == rest + {id} && |ids| == |rest| + 1;
      UnionBound(entries, rest, covered, gain);
      PagesAdd(entries, rest, id);
      UnionGain(PagesOf(entries, rest), entries, covered, id);
      assert |ids| * gain == |rest| * gain + gain;
    }
  }

  /** k entries that cover every page. */
  ghost predicate IsCover(entries: Entries, cover: set<Id>) {
    cover <= entries.Keys && PagesOf(entries, cover) == AllPages(entries)
  }

  /** Against any cover of k entries, each selection leaves at most (k-1)/k of what was uncovered. */
  lemma StepBound(entries: Entries, selected: seq<Id>, cover: set<Id>, t: nat)
    requires GreedyRun(entries, selected) && IsCover(entries, cover) && t < |selected|
    ensures Uncovered(entries, selected, t + 1) * |cover| <= Uncovered(entries, selected, t) * (|cover| - 1)
  {
    InEntries(entries, selected, t);
    var covered, gain := Covered(entries, selected[..t]), GainAt(entries, selected, t);
    hide GreedyRun, Covered, Gain, GainAt, PagesOf, AllPages;
    forall id | id in cover ensures Gain(entries, covered, id) <= gain { BestIs(entries, selected, t, id); }
    UnionBound(entries, cover, covered, gain);
    UncoveredNext(entries, selected, t);
    StepArithmetic(Uncovered(entries, selected, t), Uncovered(entries, selected, t + 1), gain, |cover|);
  }

  lemma StepArithmetic(before: int, after: int, gain: int, k: int)
    requires before <= k * gain && after == before - gain
    ensures after * k <= before * (k - 1)
  {
    assert after * k == before * k - k * gain;
  }

  function Pow(b: int, e: nat): int {
    if e == 0 then 1 else b * Pow(b, e - 1)
  }

  lemma {:induction false} PowNonNegative(b: nat, e: nat)
    ensures Pow(b, e) >= 0
  {
    if e > 0 { PowNonNegative(b, e - 1); }
  }

  /** After t selections at most the fraction ((k-1)/k)^t of the pages is uncovered, for any cover of k entries. */
  lemma {:induction false} CoverageBound(entries: Entries, selected: seq<Id>, cover: set<Id>, t: nat)
    requires GreedyRun(entries, selected) && IsCover(entries, cover) && t <= |selected|
    ensures Uncovered(entries, selected, t) * Pow(|cover|, t) <= |AllPages(entries)| * Pow(|cover| - 1, t)
  {
    hide GreedyRun, IsCover, Covered, AllPages;
    if t == 0 {
      NoneCovered(entries, selected);
    } else {
      CoverageBound(entries, selected, cover, t - 1);
      StepBound(entries, selected, cover, t - 1);
      NonEmptyCover(entries, selected, cover);
      PowNonNegative(|cover|, t - 1);
      Chain(Uncovered(entries, selected, t), Uncovered(entries, selected, t - 1), |AllPages(entries)|, |cover|,
            Pow(|cover|, t - 1), Pow(|cover| - 1, t - 1));
    }
  }

  lemma NoneCovered(entries: Entries, selected: seq<Id>)
    ensures Uncovered(entries, selected, 0) == |AllPages(entries)|
  {
    PagesNone(entries);
    assert Elements(selected[..0]) == {};
    hide PagesOf;
    assert AllPages(entries) - {} == AllPages(entries);
  }

  /** A run that selects anything has a page to cover. */
  lemma NonEmptyCover(entries: Entries, selected: seq<Id>, cover: set<Id>)
    requires GreedyRun(entries, selected) && IsCover(entries, cover) && selected != []
    ensures |cover| >= 1
  {
    InEntries(entries, selected, 0);
    BestIs(entries, selected, 0, selected[0]);
    hide GreedyRun, Covered;
    var p :| p in entries[selected[0]] - Covered(entries, selected[..0]);
    assert p in AllPages(entries);
    var id :| id in cover && id in entries && p in entries[id];
    SubsetSize({id}, cover);
  }

  lemma Chain(after: int, before: int, n: int, k: int, kt: int, mt: int)
    requires after * k <= before * (k - 1) && before * kt <= n * mt && kt >= 0 && k >= 1
    ensures after * (k * kt) <= n * ((k - 1) * mt)
  {
    var m := k - 1;
    assert (after * k) * kt <= (before * m) * kt;
    assert (before * m) * kt == m * (before * kt);
    assert m * (before * kt) <= m * (n * mt);
    assert after * (k * kt) == (after * k) * kt;
    assert m * (n * mt) == n * (m * mt);
  }
}
