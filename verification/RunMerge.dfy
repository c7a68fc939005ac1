/** The k-way merge of sorted run files into one strictly increasing table. */
module RunMerge {
  import opened ByteOrder
  import opened Results
  import opened RunFile
  import opened RunHeap

  /** All keys of some runs. */
  function Union(runs: seq<seq<Bytes>>): set<Bytes> {
    set run, k | run in runs && k in run :: k
  }

  function TotalLen(runs: seq<seq<Bytes>>): nat {
    if runs == [] then 0 else |runs[0]| + TotalLen(runs[1..])
  }

  lemma {:induction false} TotalLenDrop(runs: seq<seq<Bytes>>, t: nat)
    requires t < |runs| && runs[t] != []
    ensures TotalLen(runs) == TotalLen(runs[t := runs[t][1..]]) + 1
  {
    var after := runs[t := runs[t][1..]];
    if t == 0 {
      assert after[1..] == runs[1..];
    } else {
      assert after[1..] == runs[1..][t - 1 := runs[t][1..]];
      TotalLenDrop(runs[1..], t - 1);
    }
  }

  lemma UnionDrop(runs: seq<seq<Bytes>>, t: nat)
    requires t < |runs| && runs[t] != []
    ensures Union(runs) == Union(runs[t := runs[t][1..]]) + {runs[t][0]}
  {
    var after := runs[t := runs[t][1..]];
    forall k | k in Union(runs) ensures k in Union(after) + {runs[t][0]} {
      var run :| run in runs && k in run;
      var i :| 0 <= i < |runs| && runs[i] == run;
      var j :| 0 <= j < |run| && run[j] == k;
      if i != t || j > 0 {
        assert k in after[i] by { assert after[i][if i == t then j - 1 else j] == k; }
        assert after[i] in after;
      }
    }
    forall k | k in Union(after) ensures k in Union(runs) {
      var run :| run in after && k in run;
      var i :| 0 <= i < |after| && after[i] == run;
      assert runs[i] in runs && k in runs[i];
    }
    assert runs[t] in runs && runs[t][0] in runs[t];
  }

  predicate AllSorted(runs: seq<seq<Bytes>>) {
    forall i | 0 <= i < |runs| :: Sorted(runs[i])
  }

  /** What the merge keeps: out and what is left make up the runs, and out is below what is left. */
  ghost predicate Merging(runs: seq<seq<Bytes>>, left: seq<seq<Bytes>>, out: seq<Bytes>, deduped: nat) {
    && AllSorted(left) && StrictlySorted(out)
    && (out != [] ==> forall k | k in Union(left) :: Le(out[|out| - 1], k))
    && Elements(out) + Union(left) == Union(runs)
    && |out| + deduped + TotalLen(left) == TotalLen(runs)
  }

  /** The least head is least of everything left. */
  lemma LeastHead(left: seq<seq<Bytes>>, t: nat)
    requires AllSorted(left) && t < |left| && left[t] != []
    requires forall i | 0 <= i < |left| && left[i] != [] :: Le(left[t][0], left[i][0])
    ensures forall k | k in Union(left) :: Le(left[t][0], k)
  {
    forall k | k in Union(left) ensures Le(left[t][0], k) {
      var run :| run in left && k in run;
      var i :| 0 <= i < |left| && left[i] == run;
      var j :| 0 <= j < |run| && run[j] == k;
      LeTransitive'(left[t][0], run, j);
    }
  }

  lemma LeTransitive'(a: Bytes, run: seq<Bytes>, j: nat)
    requires j < |run| && Sorted(run) && Le(a, run[0])
    ensures Le(a, run[j])
  {
    if j > 0 { LeTransitive(a, run[0], run[j]); }
  }

  lemma TailSorted(left: seq<seq<Bytes>>, t: nat)
    requires AllSorted(left) && t < |left| && left[t] != []
    ensures AllSorted(left[t := left[t][1..]])
  {
    assert Sorted(left[t]);
  }

  /** One key taken from the least head: a repeat of the last emitted key, or the next one to emit. */
  lemma MergeStep(runs: seq<seq<Bytes>>, left: seq<seq<Bytes>>, out: seq<Bytes>, deduped: nat, t: nat)
    requires Merging(runs, left, out, deduped) && t < |left| && left[t] != []
    requires forall i | 0 <= i < |left| && left[i] != [] :: Le(left[t][0], left[i][0])
    ensures var key, left' := left[t][0], left[t := left[t][1..]];
      if out != [] && key == out[|out| - 1] then Merging(runs, left', out, deduped + 1)
      else (out != [] ==> Less(out[|out| - 1], key)) && Merging(runs, left', out + [key], deduped)
  {
    var key, left' := left[t][0], left[t := left[t][1..]];
    LeastHead(left, t);
    UnionDrop(left, t);
    TotalLenDrop(left, t);
    TailSorted(left, t);
    hide Union, TotalLen, AllSorted, Less;
    if out != [] && key == out[|out| - 1] {
      assert key in Elements(out);
    } else {
      if out != [] { LessTotal(out[|out| - 1], key); }
      SnocSorted(out, key);
      assert Elements(out + [key]) == Elements(out) + {key};
    }
  }

  /** The keys of each file. */
  function KeysOf(files: seq<Bytes>): (r: seq<seq<Bytes>>)
    ensures |r| == |files| && forall i | 0 <= i < |files| :: r[i] == Parse(files[i]).keys
  {
    seq(|files|, i requires 0 <= i < |files| => Parse(files[i]).keys)
  }

  predicate AllClean(files: seq<Bytes>) {
    forall i | 0 <= i < |files| :: Parse(files[i]).clean
  }

  /** Each reader shows what is left of its file, and none has failed. */
  ghost predicate Reading(readers: seq<RunReader>, left: seq<seq<Bytes>>, files: seq<Bytes>)
    reads readers
  {
    && |readers| == |left| == |files|
    && (forall i, j | 0 <= i < j < |readers| :: readers[i] != readers[j])
    && (forall i | 0 <= i < |readers| ::
          readers[i].err.None? && readers[i].Left() == Parsed(left[i], Parse(files[i]).clean))
  }

  /** The heap holds exactly the readers with keys left, each once, in heap order. */
  ghost predicate Heaped(h: seq<RunReader>, readers: seq<RunReader>, left: seq<seq<Bytes>>)
    requires |readers| == |left|
    reads h
  {
    && HeapOrder(Keys(h))
    && (forall r | r in h :: multiset(h)[r] == 1)
    && (forall i | 0 <= i < |readers| :: readers[i] in h <==> left[i] != [])
    && (forall r | r in h :: r in readers)
  }

  /** Opening the files: each reader shows its first key, or has failed on an empty file. */
  method OpenReaders(files: seq<Bytes>) returns (readers: seq<RunReader>)
    ensures |readers| == |files| && fresh(readers)
    ensures forall i, j | 0 <= i < j < |readers| :: readers[i] != readers[j]
    ensures forall i | 0 <= i < |readers| :: readers[i].Left() == Parse(files[i])
  {
    hide Parse;
    readers := [];
    for i := 0 to |files|
      invariant |readers| == i && fresh(readers)
      invariant forall j, k | 0 <= j < k < i :: readers[j] != readers[k]
      invariant forall j | 0 <= j < i :: readers[j].Left() == Parse(files[j])
    {
      var r := new RunReader(files[i]);
      readers := readers + [r];
    }
  }

  lemma HeapedPush(h: seq<RunReader>, h': seq<RunReader>, readers: seq<RunReader>, left: seq<seq<Bytes>>, t: nat)
    requires |readers| == |left| && t < |readers| && HeapOrder(Keys(h'))
    requires forall i, j | 0 <= i < j < |readers| :: readers[i] != readers[j]
    requires multiset(h') == multiset(h) + multiset{readers[t]} && readers[t] !in h && left[t] != []
    requires (forall r | r in h :: multiset(h)[r] == 1) && (forall r | r in h :: r in readers)
    requires forall i | 0 <= i < |readers| && i != t :: readers[i] in h <==> left[i] != []
    ensures Heaped(h', readers, left)
  {
    hide HeapOrder;
    forall i | 0 <= i < |readers| ensures readers[i] in h' <==> left[i] != [] {
      assert readers[i] in multiset(h') <==> readers[i] in multiset(h) || i == t;
    }
    forall r | r in h' ensures multiset(h')[r] == 1 && r in readers {
      assert r in multiset(h');
      assert r in multiset(h) <==> r in h;
    }
  }

  lemma HeapedPop(h: seq<RunReader>, h': seq<RunReader>, x: RunReader, readers: seq<RunReader>, left: seq<seq<Bytes>>)
    returns (t: nat)
    requires |readers| == |left| && Heaped(h, readers, left) && multiset(h) == multiset(h') + multiset{x}
    requires forall i, j | 0 <= i < j < |readers| :: readers[i] != readers[j]
    ensures t < |readers| && readers[t] == x && left[t] != [] && x !in h'
    ensures (forall r | r in h' :: multiset(h')[r] == 1) && (forall r | r in h' :: r in readers)
    ensures forall i | 0 <= i < |readers| && i != t :: readers[i] in h' <==> left[i] != []
  {
    hide HeapOrder;
    assert x in multiset(h);
    assert x in h && x in readers;
    t :| 0 <= t < |readers| && readers[t] == x;
    assert multiset(h)[x] == 1;
    forall r | r in h' ensures multiset(h')[r] == 1 && r in readers {
      assert r in multiset(h');
      assert r in multiset(h);
    }
    forall i | 0 <= i < |readers| && i != t ensures readers[i] in h' <==> left[i] != [] {
      assert readers[i] in multiset(h') <==> readers[i] in multiset(h);
    }
  }

  lemma HeadsLeast(h: seq<RunReader>, x: RunReader, t: nat, readers: seq<RunReader>, left: seq<seq<Bytes>>,
          files: seq<Bytes>)
    requires Reading(readers, left, files) && Heaped(h, readers, left) && t < |readers| && readers[t] == x
    requires left[t] != [] && forall y | y in h :: Le(x.cur, y.cur)
    ensures x.cur == left[t][0]
    ensures forall i | 0 <= i < |left| && left[i] != [] :: Le(left[t][0], left[i][0])
  {
    hide Parse, HeapOrder, Le;
    x.Live();
    forall i | 0 <= i < |left| && left[i] != [] ensures Le(left[t][0], left[i][0]) {
      readers[i].Live();
    }
  }

  lemma NothingLeft(h: seq<RunReader>, readers: seq<RunReader>, left: seq<seq<Bytes>>, files: seq<Bytes>)
    requires Reading(readers, left, files) && Heaped(h, readers, left) && h == []
    ensures AllClean(files) && Union(left) == {} && TotalLen(left) == 0
  {
    hide Parse;
    forall i | 0 <= i < |files| ensures Parse(files[i]).clean && left[i] == [] {
      readers[i].Live();
    }
    AllEmpty(left);
  }

  lemma {:induction false} AllEmpty(left: seq<seq<Bytes>>)
    requires forall i | 0 <= i < |left| :: left[i] == []
    ensures Union(left) == {} && TotalLen(left) == 0
  {
    if left != [] {
      AllEmpty(left[1..]);
    }
  }

  lemma MergingStart(runs: seq<seq<Bytes>>)
    requires AllSorted(runs)
    ensures Merging(runs, runs, [], 0)
  {
    assert Elements<Bytes>([]) == {};
  }

  /** A reader that failed belongs to a file that does not end cleanly. */
  lemma FailedReader(r: RunReader, file: Bytes)
    requires r.err.Some? && r.Left().clean == Parse(file).clean
    ensures !Parse(file).clean
  {
    hide Parse;
    r.Live();
  }

  /** The heap holds exactly the readers with keys among the first i, each once. */
  ghost predicate Filled(h: seq<RunReader>, readers: seq<RunReader>, left: seq<seq<Bytes>>, i: nat)
    requires i <= |readers| == |left|
  {
    && (forall r | r in h :: multiset(h)[r] == 1 && r in readers[..i])
    && (forall j | 0 <= j < i :: readers[j] in h <==> left[j] != [])
  }

  /** The initial heap: every reader that has a key. */
  method FillHeap(readers: seq<RunReader>, files: seq<Bytes>) returns (h: Heap, ok: bool)
    requires |readers| == |files|
    requires forall i, j | 0 <= i < j < |readers| :: readers[i] != readers[j]
    requires forall i | 0 <= i < |readers| :: readers[i].Left() == Parse(files[i])
    ensures fresh(h)
    ensures !ok ==> !AllClean(files)
    ensures ok ==> Reading(readers, KeysOf(files), files) && Heaped(h.h, readers, KeysOf(files))
  {
    hide Parse, HeapOrder, Filled;
    ghost var left := KeysOf(files);
    h := new Heap();
    EmptyHeap(Keys(h.h));
    FilledNone(readers, left);
    for i := 0 to |readers|
      invariant fresh(h) && HeapOrder(Keys(h.h)) && Filled(h.h, readers, left, i)
      invariant forall j | 0 <= j < i :: readers[j].err.None?
    {
      var r := readers[i];
      r.Live();
      if r.err.Some? {
        FailedReader(r, files[i]);
        return h, false;
      }
      ghost var before := h.h;
      if !r.eof {
        h.Push(r);
      }
      FilledNext(before, h.h, readers, left, i);
    }
    FilledAll(h.h, readers, left);
    return h, true;
  }

  lemma FilledNone(readers: seq<RunReader>, left: seq<seq<Bytes>>)
    requires |readers| == |left|
    ensures Filled([], readers, left, 0)
  {}

  lemma FilledAll(h: seq<RunReader>, readers: seq<RunReader>, left: seq<seq<Bytes>>)
    requires |readers| == |left| && Filled(h, readers, left, |readers|) && HeapOrder(Keys(h))
    ensures Heaped(h, readers, left)
  {
    assert readers[..|readers|] == readers;
  }

  lemma FilledNext(h: seq<RunReader>, h': seq<RunReader>, readers: seq<RunReader>, left: seq<seq<Bytes>>, i: nat)
    requires i < |readers| == |left| && Filled(h, readers, left, i)
    requires forall i, j | 0 <= i < j < |readers| :: readers[i] != readers[j]
    requires if left[i] != [] then multiset(h') == multiset(h) + multiset{readers[i]} else h' == h
    ensures Filled(h', readers, left, i + 1)
  {
    assert readers[..i + 1] == readers[..i] + [readers[i]];
    assert readers[i] !in readers[..i];
    assert readers[i] !in h;
    if left[i] != [] {
      forall r | r in h' ensures multiset(h')[r] == 1 && r in readers[..i + 1] {
        assert r in multiset(h');
        assert r in multiset(h) <==> r in h;
      }
      forall j | 0 <= j < i + 1 ensures readers[j] in h' <==> left[j] != [] {
        assert readers[j] in h' <==> readers[j] in multiset(h');
        assert readers[j] in multiset(h') <==> readers[j] in multiset(h) || j == i;
      }
    }
  }

  /** sstable.Writer.Set: keys must come strictly increasing. */
  method SetKey(out: seq<Bytes>, key: Bytes) returns (r: Result<seq<Bytes>>)
    ensures r == if out != [] && !Less(out[|out| - 1], key) then Err(TableOutOfOrder) else Ok(out + [key])
  {
    if out != [] && !Less(out[|out| - 1], key) { return Err(TableOutOfOrder); }
    return Ok(out + [key]);
  }

  lemma HeapedRest(h: seq<RunReader>, readers: seq<RunReader>, left: seq<seq<Bytes>>, t: nat)
    requires |readers| == |left| && t < |readers| && HeapOrder(Keys(h)) && readers[t] !in h && left[t] == []
    requires (forall r | r in h :: multiset(h)[r] == 1) && (forall r | r in h :: r in readers)
    requires forall i | 0 <= i < |readers| && i != t :: readers[i] in h <==> left[i] != []
    ensures Heaped(h, readers, left)
  {}

  /** Advances the popped reader and puts it back while it has keys. */
  method Refill(h: Heap, top: RunReader, ghost readers: seq<RunReader>, ghost left: seq<seq<Bytes>>,
                ghost files: seq<Bytes>, ghost t: nat)
    returns (ok: bool)
    requires Reading(readers, left, files) && t < |readers| && readers[t] == top && left[t] != [] && top !in h.h
    requires HeapOrder(Keys(h.h))
    requires (forall r | r in h.h :: multiset(h.h)[r] == 1) && (forall r | r in h.h :: r in readers)
    requires forall i | 0 <= i < |readers| && i != t :: readers[i] in h.h <==> left[i] != []
    modifies h, top
    ensures !ok ==> !AllClean(files)
    ensures ok ==> var left' := left[t := left[t][1..]]; Reading(readers, left', files) && Heaped(h.h, readers, left')
  {
    hide Parse, HeapOrder;
    ghost var left', before := left[t := left[t][1..]], h.h;
    top.Live();
    top.Advance();
    assert top.Left() == Parsed(left'[t], Parse(files[t]).clean);
    top.Live();
    if top.err.Some? {
      FailedReader(top, files[t]);
      return false;
    }
    if !top.eof {
      h.Push(top);
      HeapedPush(before, h.h, readers, left', t);
    } else {
      HeapedRest(h.h, readers, left', t);
    }
    return true;
  }

  function LastOf(out: seq<Bytes>): Option<Bytes> {
    if out == [] then None else Some(out[|out| - 1])
  }

  /** Emits the popped key, or counts it as a duplicate of the last one; the table never refuses it. */
  method Emit(key: Bytes, out: seq<Bytes>, lastEmitted: Option<Bytes>, deduped: nat,
              ghost runs: seq<seq<Bytes>>, ghost left: seq<seq<Bytes>>, ghost t: nat)
    returns (out': seq<Bytes>, lastEmitted': Option<Bytes>, deduped': nat)
    requires Merging(runs, left, out, deduped) && lastEmitted == LastOf(out)
    requires t < |left| && left[t] != [] && key == left[t][0]
    requires forall i | 0 <= i < |left| && left[i] != [] :: Le(left[t][0], left[i][0])
    ensures Merging(runs, left[t := left[t][1..]], out', deduped') && lastEmitted' == LastOf(out')
  {
    hide Merging, Le, Less;
    MergeStep(runs, left, out, deduped, t);
    out', lastEmitted', deduped' := out, lastEmitted, deduped;
    if lastEmitted == Some(key) {
      deduped' := deduped + 1;
    } else {
      var written := SetKey(out, key);
      assert written.Ok?;
      out', lastEmitted' := written.value, Some(key);
    }
  }

  /** Between two keys of the merge. */
  ghost predicate MergeState(h: seq<RunReader>, readers: seq<RunReader>, files: seq<Bytes>, runs: seq<seq<Bytes>>,
                             left: seq<seq<Bytes>>, out: seq<Bytes>, lastEmitted: Option<Bytes>, deduped: nat)
    reads h, readers
  {
    && Reading(readers, left, files) && Heaped(h, readers, left)
    && Merging(runs, left, out, deduped) && lastEmitted == LastOf(out)
  }

  /** One key: popped, emitted or counted, and its reader refilled. */
  method MergeNext(h: Heap, ghost readers: seq<RunReader>, ghost files: seq<Bytes>, ghost runs: seq<seq<Bytes>>,
                   ghost left: seq<seq<Bytes>>, out: seq<Bytes>, lastEmitted: Option<Bytes>, deduped: nat)
    returns (ok: bool, out': seq<Bytes>, lastEmitted': Option<Bytes>, deduped': nat, ghost left': seq<seq<Bytes>>)
    requires h.h != [] && MergeState(h.h, readers, files, runs, left, out, lastEmitted, deduped)
    modifies h, readers
    ensures !ok ==> !AllClean(files)
    ensures ok ==> MergeState(h.h, readers, files, runs, left', out', lastEmitted', deduped')
    ensures ok ==> TotalLen(left') < TotalLen(left)
  {
    ghost var before := h.h;
    MergeParts(before, readers, files, runs, left, out, lastEmitted, deduped);
    hide Parse, Merging, TotalLen, AllSorted, StrictlySorted, AllClean, HeapOrder, Le, Less, MergeState;
    var top := h.Pop();
    ghost var t := HeapedPop(before, h.h, top, readers, left);
    HeadsLeast(before, top, t, readers, left, files);
    TotalLenDrop(left, t);
    left' := left[t := left[t][1..]];
    out', lastEmitted', deduped' := Emit(top.cur, out, lastEmitted, deduped, runs, left, t);
    ok := Refill(h, top, readers, left, files, t);
    if ok { MergeWhole(h.h, readers, files, runs, left', out', lastEmitted', deduped'); }
  }

  lemma MergeParts(h: seq<RunReader>, readers: seq<RunReader>, files: seq<Bytes>, runs: seq<seq<Bytes>>,
                   left: seq<seq<Bytes>>, out: seq<Bytes>, lastEmitted: Option<Bytes>, deduped: nat)
    requires MergeState(h, readers, files, runs, left, out, lastEmitted, deduped)
    ensures Reading(readers, left, files) && Heaped(h, readers, left)
    ensures Merging(runs, left, out, deduped) && lastEmitted == LastOf(out)
    ensures HeapOrder(Keys(h))
  {}

  lemma MergeWhole(h: seq<RunReader>, readers: seq<RunReader>, files: seq<Bytes>, runs: seq<seq<Bytes>>,
                   left: seq<seq<Bytes>>, out: seq<Bytes>, lastEmitted: Option<Bytes>, deduped: nat)
    requires Reading(readers, left, files) && Heaped(h, readers, left)
    requires Merging(runs, left, out, deduped) && lastEmitted == LastOf(out)
    ensures MergeState(h, readers, files, runs, left, out, lastEmitted, deduped)
  {}

  /** With the heap empty the merge is done. */
  lemma MergeEnds(readers: seq<RunReader>, files: seq<Bytes>, runs: seq<seq<Bytes>>,
                  left: seq<seq<Bytes>>, out: seq<Bytes>, lastEmitted: Option<Bytes>, deduped: nat)
    requires MergeState([], readers, files, runs, left, out, lastEmitted, deduped)
    ensures StrictlySorted(out) && Elements(out) == Union(runs) && |out| + deduped == TotalLen(runs) && AllClean(files)
  {
    MergeParts([], readers, files, runs, left, out, lastEmitted, deduped);
    hide *;
    NothingLeft([], readers, left, files);
    MergingDone(runs, left, out, deduped);
  }

  /**
   * mergeRunsToSSTable's merge: with sorted runs it succeeds exactly when every file ends cleanly, and
   * then the table is strictly increasing, holds the union of the runs, and every key read is either
   * emitted or counted as a duplicate.
   */
  method MergeRuns(files: seq<Bytes>) returns (r: Result<(seq<Bytes>, nat)>)
    requires AllSorted(KeysOf(files))
    ensures r.Ok? <==> AllClean(files)
    ensures r.Err? ==> r.error == UnexpectedEOF
    ensures r.Ok? ==> var (out, deduped) := r.value;
      && StrictlySorted(out)
      && Elements(out) == Union(KeysOf(files))
      && |out| + deduped == TotalLen(KeysOf(files))
  {
    ghost var runs := KeysOf(files);
    MergingStart(runs);
    assert LastOf([]) == None;
    hide *;
    var readers := OpenReaders(files);
    var h, filled := FillHeap(readers, files);
    if !filled { return Err(UnexpectedEOF); }
    ghost var left := runs;
    var out: seq<Bytes>, lastEmitted: Option<Bytes>, deduped := [], None, 0;
    MergeWhole(h.h, readers, files, runs, left, out, lastEmitted, deduped);
    while |h.h| > 0
      invariant fresh(h) && fresh(readers)
      invariant MergeState(h.h, readers, files, runs, left, out, lastEmitted, deduped)
      decreases TotalLen(left)
    {
      var ok;
      ok, out, lastEmitted, deduped, left := MergeNext(h, readers, files, runs, left, out, lastEmitted, deduped);
      if !ok { return Err(UnexpectedEOF); }
    }
    assert h.h == [];
    MergeEnds(readers, files, runs, left, out, lastEmitted, deduped);
    return Ok((out, deduped));
  }

  lemma MergingDone(runs: seq<seq<Bytes>>, left: seq<seq<Bytes>>, out: seq<Bytes>, deduped: nat)
    requires Merging(runs, left, out, deduped) && Union(left) == {} && TotalLen(left) == 0
    ensures StrictlySorted(out) && Elements(out) == Union(runs) && |out| + deduped == TotalLen(runs)
  {}
}
