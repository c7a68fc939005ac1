/** Skip-scan statistics over the label and predicate keyspaces, and the journal counts. */
module PebbleStats {
  import opened ByteOrder
  import opened Integers
  import opened Journal
  import opened Keyspaces
  import opened LabelCount
  import opened Pebble
  import opened QuadKeys
  import opened Quads
  import opened StoreModel

  /** The common prefix of a keyspace's keys with the given first field. */
  function GroupPrefix(b: byte, f: Bytes): (p: Bytes)
    ensures |p| >= 2 && p[|p| - 1] == SEP
  {
    [b] + f + [SEP]
  }

  function GroupUpper(b: byte, f: Bytes): Bytes {
    UpperBoundForPrefix(GroupPrefix(b, f))
  }

  /** A group is one key range. */
  lemma GroupRange(b: byte, f: Bytes, k: Bytes)
    requires NulFree(f)
    ensures InRange(k, GroupPrefix(b, f), GroupUpper(b, f)) <==> k != [] && k[0] == b && FirstField(k) == Some(f)
  {
    var p := GroupPrefix(b, f);
    assert p == [b] + f + [SEP] && p[|p| - 1] == SEP && GroupUpper(b, f) == UpperBoundForPrefix(p);
    hide *;
    PrefixRange(p, k);
    if p <= k {
      var r := k[|p|..];
      assert k == [b] + (f + [SEP] + r) && k[0] == b;
      FirstFieldSplit(b, f, r);
    } else if k != [] && k[0] == b && FirstField(k) == Some(f) {
      FirstFieldIs(k);
    }
  }

  lemma FirstFieldIs(k: Bytes)
    requires FirstField(k).Some?
    ensures NulFree(FirstField(k).value) && GroupPrefix(k[0], FirstField(k).value) == k[..1 + |FirstField(k).value| + 1]
  {
    var i := IndexByte(k[1..], SEP);
    assert k[1..1 + i] == k[1..][..i];
    assert k[..i + 2] == [k[0]] + k[1..1 + i] + [SEP];
  }

  /** All keys of a keyspace, in order. */
  function SpaceKeys(kv: KV, b: byte): (r: seq<Bytes>)
    requires b < 255
    ensures StrictlySorted(r)
  {
    RangeKeys(kv, [b], [b + 1])
  }

  lemma SpaceKeysAre(kv: KV, b: byte)
    requires b < 255
    ensures Elements(SpaceKeys(kv, b)) == KeysIn(kv, b) && |SpaceKeys(kv, b)| == |KeysIn(kv, b)|
    ensures forall k | k in SpaceKeys(kv, b) :: k in kv && k != [] && k[0] == b
  {
    forall k ensures k in SpaceKeys(kv, b) <==> k in KeysIn(kv, b) { OneByteRange(b, k); }
    StrictlySortedDistinct(SpaceKeys(kv, b));
  }

  /** Jumping to a group's upper bound skips that group's keys and no other. */
  lemma JumpExact(keys: seq<Bytes>, b: byte, i: nat, j: nat)
    requires StrictlySorted(keys) && i < |keys| && j <= |keys|
    requires forall k | k in keys :: k != [] && k[0] == b
    requires FirstField(keys[i]).Some?
    requires var u := GroupUpper(b, FirstField(keys[i]).value);
      (forall m | 0 <= m < j :: Less(keys[m], u)) && (forall m | j <= m < |keys| :: !Less(keys[m], u))
    ensures i < j
    ensures forall m | i <= m < j :: FirstField(keys[m]) == FirstField(keys[i])
    ensures forall m | j <= m < |keys| :: FirstField(keys[m]) != FirstField(keys[i])
  {
    var f := FirstField(keys[i]).value;
    var p, u := GroupPrefix(b, f), GroupUpper(b, f);
    FirstFieldIs(keys[i]);
    GroupRange(b, f, keys[i]);
    assert keys[i] in keys;
    hide FirstField, GroupPrefix, GroupUpper, IndexByte, NulFree;
    forall m | i <= m < j ensures FirstField(keys[m]) == Some(f) {
      assert keys[m] in keys;
      GroupRange(b, f, keys[m]);
      if Less(keys[m], p) && i < m { LessTransitive(keys[i], keys[m], p); }
    }
    forall m | j <= m < |keys| ensures FirstField(keys[m]) != Some(f) {
      assert keys[m] in keys;
      GroupRange(b, f, keys[m]);
    }
  }

  /** Counts the keys of a range, in the key map the iterator is opened on. */
  method CountRange(kv: KV, lo: Bytes, hi: Bytes) returns (n: nat)
    ensures n == |RangeKeys(kv, lo, hi)|
  {
    var it := new Iterator(kv, lo, hi);
    n := 0;
    var ok := it.First();
    while ok
      invariant it.WellFormed() && ok == it.Valid() && it.keys == RangeKeys(kv, lo, hi) && n == it.pos
      decreases |it.keys| - it.pos
    {
      n := n + 1;
      ok := it.Next();
    }
  }

  lemma GroupMember(kv: KV, l: Bytes, k: Bytes)
    requires NulFree(l)
    ensures k in RangeKeys(kv, GroupPrefix(Prefix(LSP), l), GroupUpper(Prefix(LSP), l))
       <==> k in WithLabelOf(LspKeys(kv), l)
  {
    var b := Prefix(LSP);
    GroupRange(b, l, k);
    OneByteRange(b, k);
    hide GroupPrefix, GroupUpper, IndexByte, NulFree;
    if k == [b] { assert FirstField(k).None?; }
  }

  lemma SameMembers(group: seq<Bytes>, keys: set<Bytes>)
    requires StrictlySorted(group) && forall k :: k in group <==> k in keys
    ensures |group| == |keys|
  {
    StrictlySortedDistinct(group);
    assert Elements(group) == keys;
  }

  /** The keys of a label in the label keyspace. */
  function LabelKeyCount(kv: KV, l: Bytes): int {
    At(TallyKeys(LspKeys(kv)), l)
  }

  /** The sub-scan of a label counts all keys of that label. */
  lemma GroupCount(kv: KV, l: Bytes)
    requires NulFree(l)
    ensures |RangeKeys(kv, GroupPrefix(Prefix(LSP), l), GroupUpper(Prefix(LSP), l))| == LabelKeyCount(kv, l)
  {
    LabelKeyCountIs(kv, l);
    hide *;
    forall k
      ensures k in RangeKeys(kv, GroupPrefix(Prefix(LSP), l), GroupUpper(Prefix(LSP), l))
         <==> k in WithLabelOf(LspKeys(kv), l)
    {
      GroupMember(kv, l, k);
    }
    SameMembers(RangeKeys(kv, GroupPrefix(Prefix(LSP), l), GroupUpper(Prefix(LSP), l)), WithLabelOf(LspKeys(kv), l));
  }

  lemma LabelKeyCountIs(kv: KV, l: Bytes)
    ensures LabelKeyCount(kv, l) == |WithLabelOf(LspKeys(kv), l)|
  {
    LspSorted(kv);
    TallyKeysAt(LspKeys(kv), l);
  }

  lemma LspSorted(kv: KV)
    ensures StrictlySorted(LspKeys(kv))
  {}

  /** Every scanned key's label is reported, with its keys in the store its own sub-scan met. */
  ghost predicate Reported(out: Deltas, keys: seq<Bytes>, i: nat, later: Bytes -> KV)
    requires i <= |keys|
  {
    && (forall l | l in out :: l in TallyKeys(keys) && out[l] == LabelKeyCount(later(l), l))
    && (forall m | 0 <= m < i && FirstField(keys[m]).Some? :: FirstField(keys[m]).value in out)
  }

  /** When every key is scanned, the labels reported are those of the keys. */
  lemma AllReported(kv: KV, out: Deltas, later: Bytes -> KV)
    requires Reported(out, LspKeys(kv), |LspKeys(kv)|, later)
    ensures out.Keys == TallyKeys(LspKeys(kv)).Keys
    ensures forall l | l in out :: out[l] == LabelKeyCount(later(l), l)
  {
    hide LabelKeyCount, LspKeys;
    var keys := LspKeys(kv);
    var tally := TallyKeys(keys);
    LspSorted(kv);
    LspKeysHead(kv);
    forall l | l in tally ensures l in out {
      TallyKeysAt(keys, l);
      assert WithLabelOf(keys, l) != {};
      var k :| k in WithLabelOf(keys, l);
      var m :| 0 <= m < |keys| && keys[m] == k;
    }
  }

  /** With nothing written meanwhile the report is the tally of every key. */
  lemma QuietReport(kv: KV, out: Deltas)
    requires out.Keys == TallyKeys(LspKeys(kv)).Keys
    requires forall l | l in out :: out[l] == LabelKeyCount(kv, l)
    ensures out == TallyKeys(LspKeys(kv))
  {
    hide TallyKeys, LspKeys;
  }

  lemma LspKeysHead(kv: KV)
    ensures forall k | k in LspKeys(kv) :: k != [] && k[0] == Prefix(LSP)
  {
    forall k | k in LspKeys(kv) ensures k != [] && k[0] == Prefix(LSP) { OneByteRange(Prefix(LSP), k); }
  }

  lemma ReportNext(kv: KV, later: Bytes -> KV, out: Deltas, i: nat, j: nat, n: nat)
    requires i < |LspKeys(kv)| && j <= |LspKeys(kv)| && FirstField(LspKeys(kv)[i]).Some?
    requires Reported(out, LspKeys(kv), i, later)
    requires var l := FirstField(LspKeys(kv)[i]).value;
      n == |RangeKeys(later(l), GroupPrefix(Prefix(LSP), l), GroupUpper(Prefix(LSP), l))|
    requires forall m | i <= m < j :: FirstField(LspKeys(kv)[m]) == FirstField(LspKeys(kv)[i])
    ensures Reported(out[FirstField(LspKeys(kv)[i]).value := n], LspKeys(kv), j, later)
  {
    hide *;
    var keys := LspKeys(kv);
    var l := FirstField(keys[i]).value;
    FirstFieldIs(keys[i]);
    GroupCount(later(l), l);
    GroupNonEmpty(kv, i);
    ReportOne(out, keys, i, j, later, l);
  }

  lemma ReportOne(out: Deltas, keys: seq<Bytes>, i: nat, j: nat, later: Bytes -> KV, l: Bytes)
    requires i <= |keys| && j <= |keys| && Reported(out, keys, i, later) && l in TallyKeys(keys)
    requires forall m | i <= m < j :: FirstField(keys[m]) == Some(l)
    ensures Reported(out[l := LabelKeyCount(later(l), l)], keys, j, later)
  {
    hide FirstField, TallyKeys, LabelKeyCount;
  }

  lemma GroupNonEmpty(kv: KV, i: nat)
    requires i < |LspKeys(kv)| && FirstField(LspKeys(kv)[i]).Some?
    ensures FirstField(LspKeys(kv)[i]).value in TallyKeys(LspKeys(kv))
  {
    var keys := LspKeys(kv);
    var l := FirstField(keys[i]).value;
    LspKeysHead(kv);
    LspSorted(kv);
    hide LspKeys, TallyKeys;
    assert keys[i] in keys && keys[i] in WithLabelOf(keys, l);
    TallyKeysAt(keys, l);
  }

  /** One label counted and jumped past: everything up to the landing position is reported. */
  lemma LabelStep(kv: KV, later: Bytes -> KV, keys: seq<Bytes>, out: Deltas, i: nat, j: nat, n: nat)
    requires keys == LspKeys(kv) && i < |keys| && j <= |keys| && FirstField(keys[i]).Some?
    requires Reported(out, keys, i, later)
    requires var l := FirstField(keys[i]).value;
      n == |RangeKeys(later(l), GroupPrefix(Prefix(LSP), l), GroupUpper(Prefix(LSP), l))|
    requires var u := GroupUpper(Prefix(LSP), FirstField(keys[i]).value);
      (forall m | 0 <= m < j :: Less(keys[m], u)) && (forall m | j <= m < |keys| :: !Less(keys[m], u))
    ensures i < j && Reported(out[FirstField(keys[i]).value := n], keys, j, later)
  {
    hide *;
    LspSorted(kv);
    LspKeysHead(kv);
    JumpExact(keys, Prefix(LSP), i, j);
    ReportNext(kv, later, out, i, j, n);
  }

  /**
   * LabelCounts: count a label by a sub-scan, then jump past it. Each sub-scan opens its own iterator on the
   * store as other writers have left it by then: later(l) is the key map that of label l meets. The labels
   * reported are those there at the start, each with its count in its own sub-scan's store.
   */
  method LabelCounts(db: DB, later: Bytes -> KV) returns (out: Deltas)
    ensures out.Keys == TallyKeys(LspKeys(db.kv)).Keys
    ensures forall l | l in out :: out[l] == LabelKeyCount(later(l), l)
    ensures (forall l :: later(l) == db.kv) ==> out == TallyKeys(LspKeys(db.kv))
  {
    out := map[];
    var it := db.NewIter([Prefix(LSP)], [Prefix(LSP) + 1]);
    ghost var kv, keys := db.kv, it.keys;
    LspKeysHead(kv);
    assert keys == LspKeys(kv);
    hide FirstField, TallyKeys, LspKeys, RangeKeys, GroupPrefix, GroupUpper, LabelKeyCount;
    var ok := it.First();
    while ok
      invariant it.WellFormed() && ok == it.Valid() && it.keys == keys && db.kv == kv
      invariant Reported(out, keys, it.pos, later)
      decreases |keys| - it.pos
    {
      hide Reported;
      ghost var i := it.pos;
      var key := it.Key();
      assert key in keys;
      var labelEnd := IndexByte(key[1..], SEP);
      SplitKey(key);
      if labelEnd < 0 {
        ReportSkip(out, keys, i, later);
        ok := it.Next();
      } else {
        var l := key[1..1 + labelEnd];
        var labelPrefix := key[..1 + labelEnd + 1];
        var labelUpper := UpperBoundForPrefix(labelPrefix);
        var n := CountRange(later(l), labelPrefix, labelUpper);
        ok := it.SeekGE(labelUpper);
        LabelStep(kv, later, keys, out, i, it.pos, n);
        out := out[l := n];
      }
    }
    AllReported(kv, out, later);
    if forall l :: later(l) == kv { QuietReport(kv, out); }
  }

  /** A key's first field and group, as the scans cut them out of it. */
  lemma SplitKey(k: Bytes)
    requires k != []
    ensures var i := IndexByte(k[1..], SEP);
      if i < 0 then FirstField(k).None?
      else
        && FirstField(k) == Some(k[1..1 + i])
        && GroupPrefix(k[0], k[1..1 + i]) == k[..1 + i + 1]
        && GroupUpper(k[0], k[1..1 + i]) == UpperBoundForPrefix(k[..1 + i + 1])
  {
    if FirstField(k).Some? { FirstFieldIs(k); }
  }

  lemma ReportSkip(out: Deltas, keys: seq<Bytes>, i: nat, later: Bytes -> KV)
    requires i < |keys| && Reported(out, keys, i, later) && FirstField(keys[i]).None?
    ensures Reported(out, keys, i + 1, later)
  {
    hide FirstField, TallyKeys, LabelKeyCount;
  }

  /**
   * Under the store's invariant the labels of the key map are those of its quads, and a label's keys are as
   * many as its quads, none if it has none.
   */
  lemma LabelCountsTrue(kv: KV, s: set<Quad>, l: Bytes)
    requires Indexes(kv, s)
    ensures l in TallyKeys(LspKeys(kv)) <==> exists q :: q in s && q.lbl == l
    ensures LabelKeyCount(kv, l) == |set q | q in s && q.lbl == l|
  {
    assert WithLabel(s, l) == set q | q in s && q.lbl == l;
    LspSorted(kv);
    TallyKeysAt(LspKeys(kv), l);
    LabelKeysAre(kv, s, l);
    if WithLabel(s, l) != {} { var q :| q in WithLabel(s, l); }
    if q :| q in s && q.lbl == l { assert q in WithLabel(s, l); }
  }

  // ---- distinct predicates ----

  /** The first fields of some keys. */
  function Groups(keys: seq<Bytes>): set<Bytes> {
    set k | k in keys && FirstField(k).Some? :: FirstField(k).value
  }

  /** No group reaches across position i. */
  ghost predicate GroupsSplit(keys: seq<Bytes>, i: nat)
    requires i <= |keys|
  {
    forall m, n | 0 <= m < i <= n < |keys| && FirstField(keys[m]).Some? :: FirstField(keys[n]) != FirstField(keys[m])
  }

  lemma GroupsNext(keys: seq<Bytes>, i: nat, j: nat)
    requires i < j <= |keys| && FirstField(keys[i]).Some? && GroupsSplit(keys, i)
    requires forall m | i <= m < j :: FirstField(keys[m]) == FirstField(keys[i])
    requires forall m | j <= m < |keys| :: FirstField(keys[m]) != FirstField(keys[i])
    ensures GroupsSplit(keys, j) && |Groups(keys[..j])| == |Groups(keys[..i])| + 1
  {
    hide FirstField;
    var f := FirstField(keys[i]).value;
    var before, after := Groups(keys[..i]), Groups(keys[..j]);
    assert f in after by { assert keys[i] in keys[..j]; }
    assert before <= after by {
      forall k | k in keys[..i] ensures k in keys[..j] {}
    }
    forall g | g in after ensures g in before + {f} {
      var k :| k in keys[..j] && FirstField(k) == Some(g);
      var m :| 0 <= m < j && keys[m] == k;
      if m < i { assert k in keys[..i]; }
    }
    assert after == before + {f};
  }

  lemma GroupsSkip(keys: seq<Bytes>, i: nat)
    requires i < |keys| && FirstField(keys[i]).None? && GroupsSplit(keys, i)
    ensures GroupsSplit(keys, i + 1) && Groups(keys[..i + 1]) == Groups(keys[..i])
  {
    hide FirstField;
    assert keys[..i + 1] == keys[..i] + [keys[i]];
  }

  /** The skip scan over one keyspace: one step for each distinct first field. */
  method CountGroups(it: Iterator, b: byte) returns (n: nat)
    requires it.WellFormed() && forall k | k in it.keys :: k != [] && k[0] == b
    modifies it
    ensures n == |Groups(it.keys)|
  {
    hide FirstField, GroupsSplit, Groups, GroupPrefix, GroupUpper;
    n := 0;
    ghost var keys := it.keys;
    NoGroupsYet(keys);
    var ok := it.First();
    while ok
      invariant it.WellFormed() && ok == it.Valid()
      invariant GroupsSplit(keys, it.pos) && n == |Groups(keys[..it.pos])|
      decreases |keys| - it.pos
    {
      ghost var i := it.pos;
      var key := it.Key();
      assert key in keys;
      var predEnd := IndexByte(key[1..], SEP);
      SplitKey(key);
      if predEnd < 0 {
        GroupsSkip(keys, i);
        ok := it.Next();
      } else {
        n := n + 1;
        var predPrefix := key[..1 + predEnd + 1];
        var predUpper := UpperBoundForPrefix(predPrefix);
        ok := it.SeekGE(predUpper);
        JumpExact(keys, b, i, it.pos);
        GroupsNext(keys, i, it.pos);
      }
    }
    assert keys[..it.pos] == keys;
  }

  lemma NoGroupsYet(keys: seq<Bytes>)
    ensures GroupsSplit(keys, 0) && |Groups(keys[..0])| == 0
  {
    assert Groups(keys[..0]) == {};
  }

  /** Stats: all quads counted, then the distinct predicates, of whatever the store holds by then. */
  method Stats(db: DB, later: KV) returns (quads: nat, predicates: nat)
    ensures quads == |SpaceKeys(db.kv, Prefix(SPO))|
    ensures predicates == |Groups(SpaceKeys(later, Prefix(POS)))|
  {
    quads := CountRange(db.kv, [Prefix(SPO)], [Prefix(SPO) + 1]);
    var it := new Iterator(later, [Prefix(POS)], [Prefix(POS) + 1]);
    SpaceKeysAre(later, Prefix(POS));
    hide Groups, RangeKeys;
    predicates := CountGroups(it, Prefix(POS));
  }

  /** Under the store's invariant: the number of quads, and the number of distinct predicates. */
  lemma StatsTrue(kv: KV, s: set<Quad>)
    requires Indexes(kv, s)
    ensures |SpaceKeys(kv, Prefix(SPO))| == |s|
    ensures Groups(SpaceKeys(kv, Prefix(POS))) == set q | q in s :: q.pred
  {
    SpaceKeysAre(kv, Prefix(SPO));
    SpaceKeysAre(kv, Prefix(POS));
    ImageSize(SPO, s);
    var keys := SpaceKeys(kv, Prefix(POS));
    hide SpaceKeys, FirstField, KeyOf;
    forall q | q in s ensures FirstField(KeyOf(POS, q)) == Some(q.pred) && KeyOf(POS, q) in keys {
      FirstFieldOfKey(POS, q);
      assert KeyOf(POS, q) in Elements(keys);
    }
    forall f | f in Groups(keys) ensures exists q :: q in s && q.pred == f {
      var k :| k in keys && FirstField(k) == Some(f);
      assert k in Elements(keys);
      var q :| q in s && KeyOf(POS, q) == k;
    }
  }

  // ---- the audit counts ----

  datatype CommitStats = CommitStats(totalCommits: nat, oldCommits: nat, totalOps: nat, oldOps: nat)

  /** decodeCommitTimestamp and the comparison with the cutoff. */
  predicate IsOldRow(value: Bytes, cutoff: Option<int>) {
    cutoff.Some? && Varint(value).Some? && Varint(value).value < cutoff.value
  }

  /** Commit rows older than the cutoff; with no cutoff, none. */
  function OldCommitKeys(kv: KV, cutoff: Option<int>): set<Bytes> {
    set k | k in KeysIn(kv, COMMITS) && IsOldRow(kv[k], cutoff)
  }

  /** The commit id in an op key, looked up among the old ones. */
  predicate IsOldOp(key: Bytes, oldIDs: set<Bytes>) {
    FirstField(key).Some? && FirstField(key).value in oldIDs
  }

  /** Keys without their keyspace byte. */
  function Tails(keys: set<Bytes>): set<Bytes> {
    set k | k in keys && k != [] :: k[1..]
  }

  function OldIds(kv: KV, cutoff: Option<int>): set<Bytes> {
    Tails(OldCommitKeys(kv, cutoff))
  }

  /** Op rows of the commits with the given ids. */
  function OldOpKeys(kv: KV, ids: set<Bytes>): set<Bytes> {
    set k | k in KeysIn(kv, COMMIT_OPS) && IsOldOp(k, ids)
  }

  lemma NotBefore(keys: seq<Bytes>, i: nat)
    requires StrictlySorted(keys) && i < |keys|
    ensures keys[i] !in Elements(keys[..i])
  {
    hide Less;
    LessIrreflexive(keys[i]);
  }

  lemma SeenNext(keys: seq<Bytes>, i: nat, good: set<Bytes>)
    requires StrictlySorted(keys) && i < |keys|
    ensures |good * Elements(keys[..i + 1])| == |good * Elements(keys[..i])| + if keys[i] in good then 1 else 0
    ensures good * Elements(keys[..i + 1]) == good * Elements(keys[..i]) + if keys[i] in good then {keys[i]} else {}
  {
    NotBefore(keys, i);
    hide *;
    ElementsNext(keys, i);
    if keys[i] in good {
      assert good * Elements(keys[..i + 1]) == good * Elements(keys[..i]) + {keys[i]};
    } else {
      assert good * Elements(keys[..i + 1]) == good * Elements(keys[..i]);
    }
  }

  /** The old rows among the first i keys, counted, with what follows their first byte. */
  ghost predicate Walked(good: set<Bytes>, keys: seq<Bytes>, i: nat, n: nat, tails: set<Bytes>)
    requires i <= |keys|
  {
    && n == |good * Elements(keys[..i])|
    && tails == Tails(good * Elements(keys[..i]))
  }

  lemma WalkedNext(good: set<Bytes>, keys: seq<Bytes>, i: nat, n: nat, tails: set<Bytes>)
    requires StrictlySorted(keys) && i < |keys| && keys[i] != [] && Walked(good, keys, i, n, tails)
    ensures if keys[i] in good then Walked(good, keys, i + 1, n + 1, tails + {keys[i][1..]})
            else Walked(good, keys, i + 1, n, tails)
  {
    SeenNext(keys, i, good);
  }

  lemma WalkedAll(good: set<Bytes>, keys: seq<Bytes>, n: nat, tails: set<Bytes>)
    requires good <= Elements(keys) && Walked(good, keys, |keys|, n, tails)
    ensures n == |good| && tails == Tails(good)
  {
    assert keys[..|keys|] == keys;
    assert good * Elements(keys) == good;
  }

  lemma WalkedNone(good: set<Bytes>, keys: seq<Bytes>)
    ensures Walked(good, keys, 0, 0, {})
  {
    assert good * Elements(keys[..0]) == {};
  }

  lemma OldWithin(kv: KV, cutoff: Option<int>, ids: set<Bytes>)
    ensures OldCommitKeys(kv, cutoff) <= KeysIn(kv, COMMITS) && OldOpKeys(kv, ids) <= KeysIn(kv, COMMIT_OPS)
  {}

  lemma SortedKeys(it: Iterator)
    requires it.WellFormed()
    ensures StrictlySorted(it.keys)
  {}

  lemma CurrentIs(it: Iterator, key: Bytes, value: Bytes)
    requires it.WellFormed() && it.Valid() && key == it.Key() && value == it.Value()
    ensures it.pos < |it.keys| && it.keys[it.pos] == key && key in it.kv && it.kv[key] == value
  {}

  /** One commit row visited. */
  method VisitCommit(key: Bytes, value: Bytes, cutoff: Option<int>, n: nat, ids: set<Bytes>,
                     ghost kv: KV, ghost keys: seq<Bytes>, ghost i: nat)
    returns (n': nat, ids': set<Bytes>)
    requires StrictlySorted(keys) && Elements(keys) == KeysIn(kv, COMMITS)
    requires i < |keys| && keys[i] == key && key in kv && kv[key] == value
    requires Walked(OldCommitKeys(kv, cutoff), keys, i, n, ids)
    ensures Walked(OldCommitKeys(kv, cutoff), keys, i + 1, n', ids')
  {
    assert key in Elements(keys);
    hide StrictlySorted, IsOldRow, Walked, Tails;
    WalkedNext(OldCommitKeys(kv, cutoff), keys, i, n, ids);
    n', ids' := n, ids;
    if IsOldRow(value, cutoff) {
      n', ids' := n + 1, ids + {key[1..]};
    }
  }

  /** The walk over the commit rows. */
  method OldCommits(it: Iterator, cutoff: Option<int>) returns (total: nat, old_: nat, oldIDs: set<Bytes>)
    requires it.WellFormed() && Elements(it.keys) == KeysIn(it.kv, COMMITS)
    modifies it
    ensures total == |it.keys| && old_ == |OldCommitKeys(it.kv, cutoff)| && oldIDs == OldIds(it.kv, cutoff)
  {
    total, old_, oldIDs := 0, 0, {};
    ghost var keys, good := it.keys, OldCommitKeys(it.kv, cutoff);
    SortedKeys(it);
    WalkedNone(good, keys);
    hide *;
    var ok := it.First();
    while ok
      invariant it.WellFormed() && ok == it.Valid() == (total < |keys|) && total == it.pos <= |keys|
      invariant Walked(good, keys, total, old_, oldIDs)
      decreases |keys| - total
    {
      var key, value := it.Key(), it.Value();
      CurrentIs(it, key, value);
      old_, oldIDs := VisitCommit(key, value, cutoff, old_, oldIDs, it.kv, keys, total);
      total := total + 1;
      ok := it.Next();
    }
    OldWithin(it.kv, cutoff, {});
    WalkedAll(good, keys, old_, oldIDs);
  }

  lemma OldOpStep(kv: KV, ids: set<Bytes>, keys: seq<Bytes>, i: nat, n: nat, tails: set<Bytes>)
    returns (tails': set<Bytes>)
    requires StrictlySorted(keys) && Elements(keys) == KeysIn(kv, COMMIT_OPS) && i < |keys|
    requires Walked(OldOpKeys(kv, ids), keys, i, n, tails)
    ensures keys[i] != []
    ensures Walked(OldOpKeys(kv, ids), keys, i + 1, if IsOldOp(keys[i], ids) then n + 1 else n, tails')
  {
    assert keys[i] in Elements(keys);
    hide StrictlySorted;
    WalkedNext(OldOpKeys(kv, ids), keys, i, n, tails);
    tails' := if keys[i] in OldOpKeys(kv, ids) then tails + {keys[i][1..]} else tails;
  }

  /** The walk over the op rows, given the ids of the old commits. */
  method OldOps(it: Iterator, cutoff: Option<int>, oldIDs: set<Bytes>) returns (total: nat, old_: nat)
    requires it.WellFormed() && Elements(it.keys) == KeysIn(it.kv, COMMIT_OPS) && (cutoff.None? ==> oldIDs == {})
    modifies it
    ensures total == |it.keys| && old_ == |OldOpKeys(it.kv, oldIDs)|
  {
    hide *;
    total, old_ := 0, 0;
    ghost var keys, good, tails := it.keys, OldOpKeys(it.kv, oldIDs), {};
    SortedKeys(it);
    WalkedNone(good, keys);
    var ok := it.First();
    while ok
      invariant it.WellFormed() && ok == it.Valid() == (total < |keys|) && total == it.pos <= |keys|
      invariant Walked(good, keys, total, old_, tails)
      decreases |keys| - total
    {
      tails := OldOpStep(it.kv, oldIDs, keys, total, old_, tails);
      var key := it.Key();
      CurrentIs(it, key, it.Value());
      NotOld(key, oldIDs);
      if cutoff.Some? && IsOldOp(key, oldIDs) {
        old_ := old_ + 1;
      }
      total := total + 1;
      ok := it.Next();
    }
    OldWithin(it.kv, cutoff, oldIDs);
    WalkedAll(good, keys, old_, tails);
  }

  lemma NotOld(key: Bytes, ids: set<Bytes>)
    ensures ids == {} ==> !IsOldOp(key, ids)
  {}

  lemma NoCutoff(kv: KV)
    ensures OldIds(kv, None) == {}
  {}

  /**
   * CommitStatsAt: the commits of the store at the start; the ops of whatever it holds when the second walk
   * begins, those of the commits found old set apart.
   */
  method CommitStatsAt(db: DB, later: KV, cutoff: Option<int>) returns (cs: CommitStats)
    ensures cs == CommitStats(|KeysIn(db.kv, COMMITS)|, |OldCommitKeys(db.kv, cutoff)|,
                              |KeysIn(later, COMMIT_OPS)|, |OldOpKeys(later, OldIds(db.kv, cutoff))|)
  {
    SpaceKeysAre(db.kv, COMMITS);
    SpaceKeysAre(later, COMMIT_OPS);
    NoCutoff(db.kv);
    hide KeysIn, OldCommitKeys, OldOpKeys, OldIds, RangeKeys;
    var cIt := db.NewIter([COMMITS], [COMMITS + 1]);
    var total, oldCommits, oldIDs := OldCommits(cIt, cutoff);
    var coIt := new Iterator(later, [COMMIT_OPS], [COMMIT_OPS + 1]);
    var totalOps, oldOps := OldOps(coIt, cutoff, oldIDs);
    cs := CommitStats(total, oldCommits, totalOps, oldOps);
  }

  function OldIdsOf(log: Log, cutoff: Option<int>): set<Bytes> {
    set id | id in log.commits && cutoff.Some? && log.commits[id].ts < cutoff.value
  }

  /** The ops of the commits with the given ids. */
  function OpsWithIds(log: Log, ids: set<Bytes>): set<(Bytes, nat)> {
    set p | p in log.ops && p.0 in ids
  }

  lemma OldOpsSize(kv: KV, log: Log, ids: set<Bytes>)
    requires Journaled(kv, log)
    ensures |OldOpKeys(kv, ids)| == |OpsWithIds(log, ids)|
  {
    OldOpKeysAre(kv, log, ids);
    OpKeysInjective(log, OpsWithIds(log, ids));
  }

  lemma OldCommitsSize(kv: KV, log: Log, cutoff: Option<int>)
    requires Journaled(kv, log)
    ensures |OldCommitKeys(kv, cutoff)| == |OldIdsOf(log, cutoff)|
  {
    OldCommitKeysAre(kv, log, cutoff);
    CommitKeysInjective(OldIdsOf(log, cutoff));
  }

  lemma TotalsSize(kv: KV, log: Log)
    requires Journaled(kv, log)
    ensures |KeysIn(kv, COMMITS)| == |log.commits| && |KeysIn(kv, COMMIT_OPS)| == |log.ops|
  {
    CommitKeysInjective(log.commits.Keys);
    OpKeysInjective(log, log.ops.Keys);
    assert CommitKeySet(log) == set id | id in log.commits.Keys :: CommitKey(id);
    assert OpKeySet(log) == set p | p in log.ops.Keys :: OpKeyOf(p);
  }

  /**
   * For every cutoff the counts of commits are those of the log at the first walk, and the counts of ops
   * those of the log at the second. If the later log keeps the rows of the earlier, as it does in every run,
   * the old counts are both of the first: commits made between the walks do not blur them.
   */
  lemma CommitStatsTrue(kv: KV, log: Log, kv': KV, log': Log, cutoff: Option<int>)
    requires Journaled(kv, log) && Journaled(kv', log')
    ensures |KeysIn(kv, COMMITS)| == |log.commits| && |KeysIn(kv', COMMIT_OPS)| == |log'.ops|
    ensures |OldCommitKeys(kv, cutoff)|
         == |set id | id in log.commits && cutoff.Some? && log.commits[id].ts < cutoff.value|
    ensures
      var old_ := set p | p in log'.ops && p.0 in log.commits && cutoff.Some? && log.commits[p.0].ts < cutoff.value;
      && |OldOpKeys(kv', OldIds(kv, cutoff))| == |old_|
      && (RowsKept(log, log') ==>
            old_ == set p | p in log.ops && p.0 in log.commits && cutoff.Some? && log.commits[p.0].ts < cutoff.value)
  {
    OldRowsOf(log, log', cutoff);
    OldRowsOf(log, log, cutoff);
    hide *;
    TotalsSize(kv, log);
    TotalsSize(kv', log');
    OldCommitsSize(kv, log, cutoff);
    OldIdsAre(kv, log, cutoff);
    OldOpsSize(kv', log', OldIdsOf(log, cutoff));
    if RowsKept(log, log') { OldOpsKept(log, log', cutoff); }
  }

  lemma OldRowsOf(log: Log, log': Log, cutoff: Option<int>)
    ensures OldIdsOf(log, cutoff) == set id | id in log.commits && cutoff.Some? && log.commits[id].ts < cutoff.value
    ensures OpsWithIds(log', OldIdsOf(log, cutoff))
         == set p | p in log'.ops && p.0 in log.commits && cutoff.Some? && log.commits[p.0].ts < cutoff.value
  {}

  lemma OldOpsKept(log: Log, log': Log, cutoff: Option<int>)
    requires RowsKept(log, log')
    ensures OpsWithIds(log', OldIdsOf(log, cutoff)) == OpsWithIds(log, OldIdsOf(log, cutoff))
  {}

  lemma CommitKeysInjective(ids: set<Bytes>)
    ensures |set id | id in ids :: CommitKey(id)| == |ids|
  {
    forall a: Bytes, b: Bytes | CommitKey(a) == CommitKey(b) ensures a == b {
      assert CommitKey(a)[1..] == a && CommitKey(b)[1..] == b;
    }
    InjectiveImage(ids, (id: Bytes) => CommitKey(id), set id | id in ids :: CommitKey(id));
  }

  lemma OpKeysInjective(log: Log, ps: set<(Bytes, nat)>)
    requires LogOk(log) && ps <= log.ops.Keys
    ensures |set p | p in ps :: OpKeyOf(p)| == |ps|
  {
    hide OpKey;
    forall a, b | a in ps && b in ps && OpKeyOf(a) == OpKeyOf(b) ensures a == b {
      OpKeyInjective(a.0, a.1, b.0, b.1);
    }
    InjectiveImage(ps, (p: (Bytes, nat)) => OpKeyOf(p), set p | p in ps :: OpKeyOf(p));
  }

  lemma OldCommitKeysAre(kv: KV, log: Log, cutoff: Option<int>)
    requires Journaled(kv, log)
    ensures OldCommitKeys(kv, cutoff) == set id | id in OldIdsOf(log, cutoff) :: CommitKey(id)
  {
    hide CommitKey, CommitValue, Varint, OpKeyOf, OpValue, KeysIn;
    forall id | id in log.commits ensures Varint(kv[CommitKey(id)]) == Some(log.commits[id].ts) {
      TimestampRoundTrip(log.commits[id]);
    }
    forall k ensures k in OldCommitKeys(kv, cutoff) <==> k in (set id | id in OldIdsOf(log, cutoff) :: CommitKey(id)) {
      if k in OldCommitKeys(kv, cutoff) {
        assert k in CommitKeySet(log);
        var id :| id in log.commits && CommitKey(id) == k;
        assert id in OldIdsOf(log, cutoff);
      }
    }
  }

  lemma OldIdsAre(kv: KV, log: Log, cutoff: Option<int>)
    requires Journaled(kv, log)
    ensures OldIds(kv, cutoff) == OldIdsOf(log, cutoff)
  {
    OldCommitKeysAre(kv, log, cutoff);
    hide OldIdsOf, OldCommitKeys, Journaled;
    forall id: Bytes ensures CommitKey(id) != [] && CommitKey(id)[1..] == id {}
    forall id | id in OldIdsOf(log, cutoff) ensures id in OldIds(kv, cutoff) {
      assert CommitKey(id) in OldCommitKeys(kv, cutoff);
    }
  }

  lemma FieldOfOpKey(id: Bytes, n: nat)
    requires NulFree(id)
    ensures FirstField(OpKey(id, n)) == Some(id)
  {
    hide FirstField, PutUvarint;
    assert OpKey(id, n) == [COMMIT_OPS] + (id + [SEP] + PutUvarint(n));
    FirstFieldSplit(COMMIT_OPS, id, PutUvarint(n));
  }

  lemma OldOpKeysAre(kv: KV, log: Log, ids: set<Bytes>)
    requires Journaled(kv, log)
    ensures OldOpKeys(kv, ids) == set p | p in OpsWithIds(log, ids) :: OpKeyOf(p)
  {
    hide KeysIn, FirstField, OpKey;
    var old_ := OpsWithIds(log, ids);
    forall p | p in log.ops ensures FirstField(OpKeyOf(p)) == Some(p.0) { FieldOfOpKey(p.0, p.1); }
    forall k ensures k in OldOpKeys(kv, ids) <==> k in (set p | p in old_ :: OpKeyOf(p)) {
      if k in OldOpKeys(kv, ids) {
        assert k in OpKeySet(log);
        var p :| p in log.ops && OpKeyOf(p) == k;
        assert p in old_;
      }
      if k in (set p | p in old_ :: OpKeyOf(p)) {
        var p :| p in old_ && OpKeyOf(p) == k;
        assert k in OpKeySet(log);
      }
    }
  }
}
