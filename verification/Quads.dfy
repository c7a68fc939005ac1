/** Quads, batches and patterns, shared by the SQLite and the Pebble backends. */
module Quads {
  import opened ByteOrder

  datatype Quad = Quad(subj: Bytes, pred: Bytes, obj: Bytes, lbl: Bytes) {
    predicate IsValid() {
      subj != [] && pred != [] && obj != []
    }

    /** The label a write gives the quad: its own, or the default when that is empty. */
    function Under(defaultLabel: Bytes): Quad {
      if lbl == [] then this.(lbl := defaultLabel) else this
    }
  }

  /** A default label changes nothing but the label, and that only if the quad has none. */
  lemma UnderKeeps(q: Quad, defaultLabel: Bytes)
    ensures var e := q.Under(defaultLabel);
      && e.subj == q.subj && e.pred == q.pred && e.obj == q.obj
      && (q.lbl != [] ==> e.lbl == q.lbl) && (q.lbl == [] ==> e.lbl == defaultLabel)
  {}

  /** A quad needs its first three fields; it may do without a label. */
  lemma ValidMeans(q: Quad)
    ensures q.IsValid() <==> |q.subj| > 0 && |q.pred| > 0 && |q.obj| > 0
  {}

  /** Metadata is the marshalled JSON, empty when the caller gave none. */
  datatype Batch = Batch(adds: seq<Quad>, removes: seq<Quad>, lbl: Bytes, metadata: Bytes, noAudit: bool)

  datatype Pattern = Pattern(subj: Bytes, pred: Bytes, obj: Bytes, lbl: Bytes)

  /** Empty pattern fields are wildcards. */
  predicate Matches(p: Pattern, q: Quad) {
    && (p.subj == [] || p.subj == q.subj)
    && (p.pred == [] || p.pred == q.pred)
    && (p.obj == [] || p.obj == q.obj)
    && (p.lbl == [] || p.lbl == q.lbl)
  }

  /** The reference read: a plain filter of the whole set. */
  function Filter(s: set<Quad>, p: Pattern): set<Quad> {
    set q | q in s && Matches(p, q)
  }

  const WILDCARD := Pattern([], [], [], [])

  /**
   * A read that binds nothing filters nothing, and binding a field narrows it by exactly that field, whatever
   * else is bound.
   */
  lemma BoundFieldsNarrow(s: set<Quad>, p: Pattern, f: Bytes)
    requires f != []
    ensures Filter(s, WILDCARD) == s
    ensures p.subj == [] ==> Filter(s, p.(subj := f)) == set q | q in Filter(s, p) && q.subj == f
    ensures p.pred == [] ==> Filter(s, p.(pred := f)) == set q | q in Filter(s, p) && q.pred == f
    ensures p.obj == [] ==> Filter(s, p.(obj := f)) == set q | q in Filter(s, p) && q.obj == f
    ensures p.lbl == [] ==> Filter(s, p.(lbl := f)) == set q | q in Filter(s, p) && q.lbl == f
  {}

  function LabelPrefixes(): seq<Bytes> {
    [Ascii("source:"), Ascii("derived:"), Ascii("human:"), Ascii("meta:")]
  }

  /** The empty label, or one in a known namespace. */
  predicate LabelOk(lbl: Bytes) {
    lbl == [] || exists i | 0 <= i < |LabelPrefixes()| :: LabelPrefixes()[i] <= lbl
  }

  /** The namespaces, byte by byte: source, derived, human and meta, each with its colon. */
  lemma LabelOkMeans(lbl: Bytes)
    ensures LabelOk(lbl)
      <==> || lbl == []
           || [115, 111, 117, 114, 99, 101, 58] <= lbl
           || [100, 101, 114, 105, 118, 101, 100, 58] <= lbl
           || [104, 117, 109, 97, 110, 58] <= lbl
           || [109, 101, 116, 97, 58] <= lbl
  {
    var ps := LabelPrefixes();
    assert ps[0] == [115, 111, 117, 114, 99, 101, 58] && ps[1] == [100, 101, 114, 105, 118, 101, 100, 58];
    assert ps[2] == [104, 117, 109, 97, 110, 58] && ps[3] == [109, 101, 116, 97, 58];
    hide LabelPrefixes;
    if LabelOk(lbl) && lbl != [] { var i :| 0 <= i < 4 && ps[i] <= lbl; }
  }

  /** validateLabel's loop over the namespaces. */
  method ValidateLabel(lbl: Bytes) returns (ok: bool)
    ensures ok == LabelOk(lbl)
  {
    if lbl == [] { return true; }
    var prefixes := LabelPrefixes();
    for i := 0 to |prefixes|
      invariant forall j | 0 <= j < i :: !(LabelPrefixes()[j] <= lbl)
    {
      if prefixes[i] <= lbl { return true; }
    }
    return false;
  }

  /** What a write under a default label stores for each quad. */
  function Effective(qs: seq<Quad>, defaultLabel: Bytes): (r: seq<Quad>)
    ensures |r| == |qs|
    ensures forall i | 0 <= i < |qs| :: r[i] == qs[i].Under(defaultLabel)
  {
    seq(|qs|, i requires 0 <= i < |qs| => qs[i].Under(defaultLabel))
  }

  /** The quads given, each with its own label or, failing that, the default. */
  function Given(qs: seq<Quad>, defaultLabel: Bytes): set<Quad> {
    set i | 0 <= i < |qs| ::
      Quad(qs[i].subj, qs[i].pred, qs[i].obj, if qs[i].lbl == [] then defaultLabel else qs[i].lbl)
  }

  /** What is stored is what was given: the same subject, predicate and object, under the label it asks for. */
  lemma GivenMeans(qs: seq<Quad>, defaultLabel: Bytes, q: Quad)
    ensures q in Given(qs, defaultLabel)
      <==> exists i | 0 <= i < |qs| ::
             && qs[i].subj == q.subj && qs[i].pred == q.pred && qs[i].obj == q.obj
             && q.lbl == if qs[i].lbl == [] then defaultLabel else qs[i].lbl
  {}

  lemma EffectiveGiven(qs: seq<Quad>, defaultLabel: Bytes)
    ensures Elements(Effective(qs, defaultLabel)) == Given(qs, defaultLabel)
  {
    var effs := Effective(qs, defaultLabel);
    hide Effective;
    forall i | 0 <= i < |qs|
      ensures effs[i]
           == Quad(qs[i].subj, qs[i].pred, qs[i].obj, if qs[i].lbl == [] then defaultLabel else qs[i].lbl)
    {
      UnderKeeps(qs[i], defaultLabel);
    }
    forall q | q in effs ensures q in Given(qs, defaultLabel) { var i :| 0 <= i < |effs| && effs[i] == q; }
    forall q | q in Given(qs, defaultLabel) ensures q in effs {
      var i :| 0 <= i < |qs|
        && q == Quad(qs[i].subj, qs[i].pred, qs[i].obj, if qs[i].lbl == [] then defaultLabel else qs[i].lbl);
      assert effs[i] == q;
    }
  }

  /** The validation at the head of Commit, the same in both backends. */
  predicate Accepted(b: Batch) {
    && LabelOk(b.lbl)
    && (forall i | 0 <= i < |b.adds| :: b.adds[i].IsValid() && LabelOk(b.adds[i].Under(b.lbl).lbl))
    && (forall i | 0 <= i < |b.removes| :: b.removes[i].IsValid())
  }

  /** A batch is accepted exactly if every label it writes under is good and no quad lacks a field it needs. */
  lemma AcceptedMeans(b: Batch)
    ensures Accepted(b)
      <==> && LabelOk(b.lbl)
           && (forall i | 0 <= i < |b.adds| ::
                 |b.adds[i].subj| > 0 && |b.adds[i].pred| > 0 && |b.adds[i].obj| > 0 && LabelOk(b.adds[i].lbl))
           && (forall i | 0 <= i < |b.removes| ::
                 |b.removes[i].subj| > 0 && |b.removes[i].pred| > 0 && |b.removes[i].obj| > 0)
  {
    hide LabelOk, Quad.Under, Quad.IsValid;
    EmptyLabelOk();
    forall i | 0 <= i < |b.adds|
      ensures LabelOk(b.lbl) ==> (LabelOk(b.adds[i].Under(b.lbl).lbl) <==> LabelOk(b.adds[i].lbl))
      ensures b.adds[i].IsValid() <==> |b.adds[i].subj| > 0 && |b.adds[i].pred| > 0 && |b.adds[i].obj| > 0
    {
      UnderKeeps(b.adds[i], b.lbl);
      ValidMeans(b.adds[i]);
    }
    forall i | 0 <= i < |b.removes|
      ensures b.removes[i].IsValid() <==> |b.removes[i].subj| > 0 && |b.removes[i].pred| > 0 && |b.removes[i].obj| > 0
    {
      ValidMeans(b.removes[i]);
    }
  }

  lemma EmptyLabelOk()
    ensures LabelOk([])
  {}

  /** One row of the audit log. */
  datatype OpRow = OpRow(isAdd: bool, quad: Quad)

  /** One commit of the audit log. */
  datatype CommitRow = CommitRow(ts: int, lbl: Bytes, metadata: Bytes)

  /** The audit rows of a batch: its adds, under their effective labels, then its removes. */
  function OpsOf(b: Batch): (r: seq<OpRow>)
    ensures |r| == |b.adds| + |b.removes|
  {
    seq(|b.adds|, i requires 0 <= i < |b.adds| => OpRow(true, b.adds[i].Under(b.lbl)))
    + seq(|b.removes|, i requires 0 <= i < |b.removes| => OpRow(false, b.removes[i]))
  }

  /** The rows in order: each add as it is stored, then each remove as it was given. */
  lemma OpsAre(b: Batch, i: nat)
    requires i < |b.adds| + |b.removes|
    ensures var r := OpsOf(b)[i];
      if i < |b.adds| then
        var q := b.adds[i];
        r == OpRow(true, Quad(q.subj, q.pred, q.obj, if q.lbl == [] then b.lbl else q.lbl))
      else r == OpRow(false, b.removes[i - |b.adds|])
  {
    if i < |b.adds| { UnderKeeps(b.adds[i], b.lbl); }
  }

  /** A plain set after one audit row. */
  function ApplyRow(s: set<Quad>, r: OpRow): set<Quad> {
    if r.isAdd then s + {r.quad} else s - {r.quad}
  }

  /** A plain set after a list of audit rows, in order. */
  function ReplayRows(s: set<Quad>, rows: seq<OpRow>): set<Quad> {
    if rows == [] then s else ApplyRow(ReplayRows(s, rows[..|rows| - 1]), rows[|rows| - 1])
  }

  lemma {:induction false} ReplayConcat(s: set<Quad>, a: seq<OpRow>, b: seq<OpRow>)
    ensures ReplayRows(s, a + b) == ReplayRows(ReplayRows(s, a), b)
  {
    if b == [] {
      assert a + b == a;
    } else {
      var n := |b| - 1;
      assert (a + b)[..|a + b| - 1] == a + b[..n];
      ReplayConcat(s, a, b[..n]);
    }
  }

  lemma {:induction false} ReplayAdds(s: set<Quad>, rows: seq<OpRow>)
    requires forall r | r in rows :: r.isAdd
    ensures ReplayRows(s, rows) == s + QuadsIn(rows)
  {
    if rows != [] {
      var n := |rows| - 1;
      ReplayAdds(s, rows[..n]);
      assert rows == rows[..n] + [rows[n]];
    }
  }

  lemma {:induction false} ReplayRemoves(s: set<Quad>, rows: seq<OpRow>)
    requires forall r | r in rows :: !r.isAdd
    ensures ReplayRows(s, rows) == s - QuadsIn(rows)
  {
    if rows != [] {
      var n := |rows| - 1;
      ReplayRemoves(s, rows[..n]);
      assert rows == rows[..n] + [rows[n]];
    }
  }

  /** A batch as a set operation: every add goes in, then every remove goes out. */
  function SetAfter(s: set<Quad>, b: Batch): set<Quad> {
    (s + Elements(Effective(b.adds, b.lbl))) - Elements(b.removes)
  }

  /**
   * A quad is there after a batch exactly if it is not removed and was there before or is added: as it was
   * given, under its own label or the batch's.
   */
  lemma StoredAfter(s: set<Quad>, b: Batch, q: Quad)
    ensures q in SetAfter(s, b)
      <==> q !in b.removes &&
           (q in s || exists i | 0 <= i < |b.adds| ::
              && b.adds[i].subj == q.subj && b.adds[i].pred == q.pred && b.adds[i].obj == q.obj
              && q.lbl == if b.adds[i].lbl == [] then b.lbl else b.adds[i].lbl)
  {
    EffectiveGiven(b.adds, b.lbl);
    GivenMeans(b.adds, b.lbl, q);
    hide Effective, Given;
  }

  function QuadsIn(rows: seq<OpRow>): set<Quad> {
    set r | r in rows :: r.quad
  }

  lemma AddRows(b: Batch)
    ensures var adds := OpsOf(b)[..|b.adds|];
      (forall r | r in adds :: r.isAdd) && QuadsIn(adds) == Elements(Effective(b.adds, b.lbl))
  {
    var adds, effs := OpsOf(b)[..|b.adds|], Effective(b.adds, b.lbl);
    forall i | 0 <= i < |b.adds| ensures adds[i] == OpRow(true, effs[i]) {}
    RowsQuads(adds, effs);
  }

  lemma RemoveRows(b: Batch)
    ensures var removes := OpsOf(b)[|b.adds|..];
      (forall r | r in removes :: !r.isAdd) && QuadsIn(removes) == Elements(b.removes)
  {
    var removes := OpsOf(b)[|b.adds|..];
    forall i | 0 <= i < |b.removes| ensures removes[i] == OpRow(false, b.removes[i]) {}
    RowsQuads(removes, b.removes);
  }

  lemma RowsQuads(rows: seq<OpRow>, qs: seq<Quad>)
    requires |rows| == |qs| && forall i | 0 <= i < |rows| :: rows[i].quad == qs[i]
    ensures QuadsIn(rows) == Elements(qs)
  {
    forall q | q in qs ensures q in QuadsIn(rows) {
      var i :| 0 <= i < |qs| && qs[i] == q;
      assert rows[i] in rows;
    }
  }

  /** Replaying the rows one by one is the batch's set operation; a quad both added and removed is out. */
  lemma ReplayBatch(s: set<Quad>, b: Batch)
    ensures ReplayRows(s, OpsOf(b)) == SetAfter(s, b)
  {
    var adds, removes := OpsOf(b)[..|b.adds|], OpsOf(b)[|b.adds|..];
    assert OpsOf(b) == adds + removes;
    AddRows(b);
    RemoveRows(b);
    hide OpsOf, Effective, ReplayRows, QuadsIn;
    ReplayConcat(s, adds, removes);
    ReplayAdds(s, adds);
    ReplayRemoves(ReplayRows(s, adds), removes);
  }
}
