/** The one-place writer slots, over all interleavings of the handles that take them. */
module SlotProtocol {

  // ---- writers and bulk loaders ----

  /** A call for a handle waits, is cancelled, or holds the slot; a close marks the handle, then frees the slot. */
  datatype Phase = Waiting | Cancelled | Held | Releasing | Closed

  datatype Handle = Handle(part: nat, phase: Phase) {
    predicate Owns() {
      phase == Held || phase == Releasing
    }
  }

  /** Each partition's slot, full or not, and every handle asked for so far. */
  datatype State = State(slots: seq<bool>, handles: seq<Handle>)

  predicate WithPhase(s: State, s': State, h: nat, phase: Phase)
    requires h < |s.handles|
  {
    s'.handles == s.handles[h := s.handles[h].(phase := phase)]
  }

  /** A new call, which begins to wait. */
  predicate Asks(s: State, s': State) {
    s'.slots == s.slots && |s'.handles| == |s.handles| + 1 && s'.handles[..|s.handles|] == s.handles
    && s'.handles[|s.handles|].phase == Waiting && s'.handles[|s.handles|].part < |s.slots|
  }

  /**
   * One step of handle h: the send into an empty slot, the cancellation, the two halves of a close, a
   * repeated close.
   */
  predicate HandleStep(s: State, s': State, h: nat) {
    h < |s.handles| && s.handles[h].part < |s.slots| &&
    var p := s.handles[h].part;
    match s.handles[h].phase
    case Waiting =>
      || (!s.slots[p] && s'.slots == s.slots[p := true] && WithPhase(s, s', h, Held))
      || (s'.slots == s.slots && WithPhase(s, s', h, Cancelled))
    case Held => s'.slots == s.slots && WithPhase(s, s', h, Releasing)
    case Releasing => s.slots[p] && s'.slots == s.slots[p := false] && WithPhase(s, s', h, Closed)
    case Closed => s' == s
    case Cancelled => false
  }

  ghost predicate Step(s: State, s': State) {
    Asks(s, s') || exists h :: HandleStep(s, s', h)
  }

  /** A slot is full exactly when one handle owns it. */
  predicate Inv(s: State) {
    && (forall h | 0 <= h < |s.handles| :: s.handles[h].part < |s.slots|)
    && (forall h, k | 0 <= h < |s.handles| && 0 <= k < |s.handles| && s.handles[h].Owns() && s.handles[k].Owns() ::
          s.handles[h].part == s.handles[k].part ==> h == k)
    && (forall h | 0 <= h < |s.handles| && s.handles[h].Owns() :: s.slots[s.handles[h].part])
    && (forall p | 0 <= p < |s.slots| && s.slots[p] :: HasOwner(s, p))
  }

  predicate HasOwner(s: State, p: nat) {
    exists h | 0 <= h < |s.handles| :: s.handles[h].Owns() && s.handles[h].part == p
  }

  lemma AskInv(s: State, s': State)
    requires Inv(s) && Asks(s, s')
    ensures Inv(s')
  {
    var n := |s.handles|;
    assert s'.handles == s.handles + [s'.handles[n]];
    forall p | 0 <= p < |s'.slots| && s'.slots[p] ensures HasOwner(s', p) {
      OwnerStays(s, s', p);
    }
    forall h | 0 <= h < |s'.handles| && s'.handles[h].Owns() ensures h < n && s'.handles[h] == s.handles[h] {}
  }

  lemma OwnerStays(s: State, s': State, p: nat)
    requires HasOwner(s, p) && s.handles <= s'.handles
    ensures HasOwner(s', p)
  {
    var h :| 0 <= h < |s.handles| && s.handles[h].Owns() && s.handles[h].part == p;
    assert s'.handles[h] == s.handles[h];
  }

  lemma HandleInv(s: State, s': State, h: nat)
    requires Inv(s) && HandleStep(s, s', h)
    ensures Inv(s')
  {
    hide HasOwner;
    forall p | 0 <= p < |s'.slots| && s'.slots[p] ensures HasOwner(s', p) { OwnerAfter(s, s', h, p); }
  }

  lemma OwnerAfter(s: State, s': State, h: nat, p: nat)
    requires Inv(s) && HandleStep(s, s', h) && p < |s'.slots| && s'.slots[p]
    ensures HasOwner(s', p)
  {
    if s.slots[p] {
      assert HasOwner(s, p);
      var k :| 0 <= k < |s.handles| && s.handles[k].Owns() && s.handles[k].part == p;
      assert s'.handles[k].Owns() && s'.handles[k].part == p;
    } else {
      assert s'.handles[h].Owns() && s'.handles[h].part == p;
    }
  }

  ghost predicate IsRun(states: seq<State>, partitions: nat) {
    && |states| > 0 && |states[0].slots| == partitions
    && (forall p | 0 <= p < partitions :: !states[0].slots[p]) && states[0].handles == []
    && forall i | 0 <= i < |states| - 1 :: Step(states[i], states[i + 1])
  }

  /**
   * In every interleaving a slot is full exactly while some handle holds it or is about to release it, and never
   * two of them.
   */
  lemma SlotsOwned(states: seq<State>, partitions: nat)
    requires IsRun(states, partitions)
    ensures var s := states[|states| - 1];
      && (forall p | 0 <= p < |s.slots| ::
            s.slots[p] <==> exists h | 0 <= h < |s.handles| ::
              s.handles[h].part == p && (s.handles[h].phase.Held? || s.handles[h].phase.Releasing?))
      && (forall h, k |
            && 0 <= h < |s.handles| && (s.handles[h].phase.Held? || s.handles[h].phase.Releasing?)
            && 0 <= k < |s.handles| && (s.handles[k].phase.Held? || s.handles[k].phase.Releasing?) ::
              s.handles[h].part == s.handles[k].part ==> h == k)
  {
    RunInv(states, partitions);
    var s := states[|states| - 1];
    forall h | 0 <= h < |s.handles|
      ensures s.handles[h].Owns() <==> s.handles[h].phase.Held? || s.handles[h].phase.Releasing? {}
    forall p | 0 <= p < |s.slots| && s.slots[p] ensures HasOwner(s, p) {}
  }

  /** Which follows from each step keeping the slots and their owners consistent. */
  lemma {:induction false} RunInv(states: seq<State>, partitions: nat)
    requires IsRun(states, partitions)
    ensures Inv(states[|states| - 1])
  {
    var n := |states| - 1;
    if n > 0 {
      hide *;
      RunFront(states, partitions);
      RunInv(states[..n], partitions);
      StepInv(states[n - 1], states[n]);
    }
  }

  lemma RunFront(states: seq<State>, partitions: nat)
    requires IsRun(states, partitions) && |states| > 1
    ensures IsRun(states[..|states| - 1], partitions) && Step(states[|states| - 2], states[|states| - 1])
  {
    hide Step;
    var n := |states| - 1;
    var front := states[..n];
    forall i | 0 <= i < |front| - 1 ensures Step(front[i], front[i + 1]) { assert Step(states[i], states[i + 1]); }
    assert Step(states[n - 1], states[n - 1 + 1]);
  }

  lemma StepInv(s: State, s': State)
    requires Inv(s) && Step(s, s')
    ensures Inv(s')
  {
    hide Inv, HandleStep, Asks;
    if Asks(s, s') {
      AskInv(s, s');
    } else {
      var h :| HandleStep(s, s', h);
      HandleInv(s, s', h);
    }
  }

  /**
   * No step of one handle, a repeated close included, takes away what another owns; and freeing a slot
   * never blocks, since the slot of a handle being closed is full.
   */
  lemma OthersKeepTheirSlots(s: State, s': State, h: nat, k: nat)
    requires Inv(s) && HandleStep(s, s', h) && k < |s.handles| && k != h && s.handles[k].Owns()
    ensures s'.handles[k] == s.handles[k] && s'.slots[s.handles[k].part]
    ensures s.handles[h].phase == Closed ==> s' == s
  {}

  lemma ReleaseNeverBlocks(s: State, h: nat)
    requires Inv(s) && h < |s.handles| && s.handles[h].phase == Releasing
    ensures exists s' :: HandleStep(s, s', h) && s'.handles[h].phase == Closed && !s'.slots[s.handles[h].part]
  {
    var p := s.handles[h].part;
    var s' := State(s.slots[p := false], s.handles[h := s.handles[h].(phase := Closed)]);
    assert HandleStep(s, s', h);
  }

  // ---- migrations, which take every slot in partition order ----

  /**
   * A migration takes slots 0, 1, 2, ... and then frees what it holds in any order, early if cancelled;
   * a writer or loader takes one.
   */
  datatype Proc =
    | Taking(next: nat)
    | Copying
    | Closing(held: set<nat>)
    | OneWaiting(part: nat)
    | OneHolding(part: nat)
    | Finished

  datatype World = World(partitions: nat, full: set<nat>, procs: seq<Proc>)

  /** The partitions before the n-th. */
  function Below(n: nat): (r: set<nat>)
    ensures forall p: nat :: p in r <==> p < n
    ensures |r| == n
  {
    if n == 0 then {} else Below(n - 1) + {n - 1}
  }

  function HeldBy(w: World, i: nat): set<nat>
    requires i < |w.procs|
  {
    match w.procs[i]
    case Taking(k) => Below(k)
    case Copying => Below(w.partitions)
    case Closing(held) => held
    case OneWaiting(_) => {}
    case OneHolding(p) => {p}
    case Finished => {}
  }

  predicate Becomes(w: World, w': World, i: nat, p: Proc, full: set<nat>)
    requires i < |w.procs|
  {
    w' == World(w.partitions, full, w.procs[i := p])
  }

  /** A step of process i on its own; taking waits for an empty slot, freeing for a full one. */
  predicate Advance(w: World, w': World, i: nat) {
    i < |w.procs| &&
    match w.procs[i]
    case Taking(k) =>
      k !in w.full && Becomes(w, w', i, if k + 1 < w.partitions then Taking(k + 1) else Copying, w.full + {k})
    case Copying => Becomes(w, w', i, Closing(Below(w.partitions)), w.full)
    case Closing(held) =>
      if held == {} then Becomes(w, w', i, Finished, w.full)
      else exists p | p in held :: p in w.full && Becomes(w, w', i, Closing(held - {p}), w.full - {p})
    case OneWaiting(p) => p !in w.full && Becomes(w, w', i, OneHolding(p), w.full + {p})
    case OneHolding(p) => p in w.full && Becomes(w, w', i, Finished, w.full - {p})
    case Finished => false
  }

  /** The context of a waiting process is cancelled. */
  predicate Cancel(w: World, w': World, i: nat) {
    i < |w.procs| &&
    match w.procs[i]
    case Taking(k) => Becomes(w, w', i, Closing(Below(k)), w.full)
    case OneWaiting(_) => Becomes(w, w', i, Finished, w.full)
    case _ => false
  }

  predicate ProcStep(w: World, w': World, i: nat) {
    Advance(w, w', i) || Cancel(w, w', i)
  }

  /** The full slots are those held, each by one process. */
  predicate WorldInv(w: World) {
    && (forall i | 0 <= i < |w.procs| :: w.procs[i].Taking? ==> w.procs[i].next < w.partitions)
    && (forall i | 0 <= i < |w.procs| :: HeldBy(w, i) <= w.full)
    && (forall i, j | 0 <= i < j < |w.procs| :: HeldBy(w, i) !! HeldBy(w, j))
    && (forall p | p in w.full :: HeldBySome(w, p))
  }

  predicate HeldBySome(w: World, p: nat) {
    exists i | 0 <= i < |w.procs| :: p in HeldBy(w, i)
  }

  lemma OthersStay(w: World, w': World, i: nat)
    requires ProcStep(w, w', i)
    ensures |w'.procs| == |w.procs| && w'.partitions == w.partitions
    ensures forall j | 0 <= j < |w.procs| && j != i :: w'.procs[j] == w.procs[j] && HeldBy(w', j) == HeldBy(w, j)
  {}

  /** What a step does to the process's own holdings is what it does to the slots. */
  lemma HeldAfter(w: World, w': World, i: nat)
    requires i < |w.procs| && HeldBy(w, i) <= w.full && ProcStep(w, w', i)
    requires w.procs[i].Taking? ==> w.procs[i].next < w.partitions
    ensures |w'.procs| == |w.procs| && w'.partitions == w.partitions
    ensures w'.full - HeldBy(w', i) == w.full - HeldBy(w, i) && HeldBy(w', i) <= w'.full
    ensures w'.procs[i].Taking? ==> w'.procs[i].next < w.partitions
    ensures HeldBy(w', i) <= HeldBy(w, i) || HeldBy(w', i) - HeldBy(w, i) !! w.full
  {
    hide Below;
    if w.procs[i].Taking? { BelowNext(w.procs[i].next); }
    if Advance(w, w', i) { HeldAfterAdvance(w, w', i); }
  }

  lemma HeldAfterAdvance(w: World, w': World, i: nat)
    requires i < |w.procs| && HeldBy(w, i) <= w.full && Advance(w, w', i)
    requires w.procs[i].Taking? ==> w.procs[i].next < w.partitions
    ensures |w'.procs| == |w.procs| && w'.partitions == w.partitions
    ensures w'.full - HeldBy(w', i) == w.full - HeldBy(w, i) && HeldBy(w', i) <= w'.full
    ensures w'.procs[i].Taking? ==> w'.procs[i].next < w.partitions
    ensures HeldBy(w', i) <= HeldBy(w, i) || HeldBy(w', i) - HeldBy(w, i) !! w.full
  {
    hide Below;
    if w.procs[i].Taking? {
      BelowNext(w.procs[i].next);
      var k := w.procs[i].next;
      assert HeldBy(w', i) == Below(k + 1) && w'.full == w.full + {k};
    }
  }

  lemma BelowNext(k: nat)
    ensures Below(k + 1) == Below(k) + {k} && k !in Below(k)
  {}

  lemma WorldStep(w: World, w': World, i: nat)
    requires WorldInv(w) && ProcStep(w, w', i)
    ensures WorldInv(w')
  {
    assert i < |w.procs|;
    hide ProcStep, HeldBy, HeldBySome;
    HeldAfter(w, w', i);
    OthersStay(w, w', i);
    forall j | 0 <= j < |w.procs| && j != i ensures HeldBy(w', j) !! HeldBy(w', i) && HeldBy(w', j) <= w'.full {
      StillApart(w.full, w'.full, HeldBy(w, i), HeldBy(w', i), HeldBy(w, j));
    }
    forall p | p in w'.full ensures HeldBySome(w', p) {
      if p !in HeldBy(w', i) { assert p in w.full - HeldBy(w, i); }
      StillHeld(w, w', i, p);
    }
  }

  lemma StillHeld(w: World, w': World, i: nat, p: nat)
    requires i < |w.procs| == |w'.procs|
    requires forall j | 0 <= j < |w.procs| && j != i :: HeldBy(w', j) == HeldBy(w, j)
    requires p in HeldBy(w', i) || (p !in HeldBy(w, i) && HeldBySome(w, p))
    ensures HeldBySome(w', p)
  {
    hide HeldBy;
    if p !in HeldBy(w', i) {
      var j :| 0 <= j < |w.procs| && p in HeldBy(w, j);
      assert p in HeldBy(w', j);
    }
  }

  lemma StillApart(full: set<nat>, full': set<nat>, own: set<nat>, own': set<nat>, other: set<nat>)
    requires other !! own && other <= full && full' - own' == full - own
    requires own' <= own || own' - own !! full
    ensures other !! own' && other <= full'
  {
    forall p | p in other ensures p !in own' && p in full' { assert p in full - own; }
  }

  ghost predicate CanAdvance(w: World, i: nat) {
    exists w' :: Advance(w, w', i)
  }

  /** A process that waits for nothing can advance. */
  lemma NotWaitingMoves(w: World, i: nat)
    requires WorldInv(w) && i < |w.procs| && (w.procs[i].Copying? || w.procs[i].Closing? || w.procs[i].OneHolding?)
    ensures CanAdvance(w, i)
  {
    match w.procs[i]
    case Copying => assert Advance(w, World(w.partitions, w.full, w.procs[i := Closing(Below(w.partitions))]), i);
    case OneHolding(p) =>
      assert p in HeldBy(w, i);
      assert Advance(w, World(w.partitions, w.full - {p}, w.procs[i := Finished]), i);
    case Closing(held) =>
      if held == {} {
        assert Advance(w, World(w.partitions, w.full, w.procs[i := Finished]), i);
      } else {
        var p :| p in held;
        assert p in HeldBy(w, i);
        assert Advance(w, World(w.partitions, w.full - {p}, w.procs[i := Closing(held - {p})]), i);
      }
  }

  /**
   * No deadlock: while some process is unfinished some process can advance, without any cancellation. A
   * waiting migration holds all slots below the one it wants, so whoever holds that one either waits for
   * a higher one or does not wait at all.
   */
  lemma {:induction false} SomeoneAdvances(w: World, i: nat) returns (j: nat)
    requires WorldInv(w) && i < |w.procs| && !w.procs[i].Finished?
    ensures CanAdvance(w, j)
    decreases if w.procs[i].Taking? then w.partitions - w.procs[i].next else w.partitions + 1
  {
    if w.procs[i].Taking? || w.procs[i].OneWaiting? {
      var p := if w.procs[i].Taking? then w.procs[i].next else w.procs[i].part;
      if p !in w.full {
        j := i;
        WaitingAdvances(w, i, p);
      } else {
        assert HeldBySome(w, p);
        var k :| 0 <= k < |w.procs| && p in HeldBy(w, k);
        if w.procs[k].Taking? {
          j := SomeoneAdvances(w, k);
        } else {
          j := k;
          NotWaitingMoves(w, k);
        }
      }
    } else {
      j := i;
      NotWaitingMoves(w, i);
    }
  }

  lemma WaitingAdvances(w: World, i: nat, p: nat)
    requires i < |w.procs| && p !in w.full
    requires w.procs[i] == Taking(p) || w.procs[i] == OneWaiting(p)
    ensures CanAdvance(w, i)
  {
    var next :=
      if w.procs[i].OneWaiting? then OneHolding(p)
      else if p + 1 < w.partitions then Taking(p + 1)
      else Copying;
    assert Advance(w, World(w.partitions, w.full + {p}, w.procs[i := next]), i);
  }

  /** The steps a process can still take. */
  function Work(partitions: nat, p: Proc): nat {
    match p
    case Taking(k) => (if k <= partitions then partitions - k else 0) + partitions + 2
    case Copying => partitions + 2
    case Closing(held) => |held| + 1
    case OneWaiting(_) => 2
    case OneHolding(_) => 1
    case Finished => 0
  }

  function TotalWork(partitions: nat, procs: seq<Proc>): nat {
    if procs == [] then 0 else TotalWork(partitions, procs[..|procs| - 1]) + Work(partitions, procs[|procs| - 1])
  }

  lemma {:induction false} LessWork(partitions: nat, procs: seq<Proc>, i: nat, p: Proc)
    requires i < |procs| && Work(partitions, p) < Work(partitions, procs[i])
    ensures TotalWork(partitions, procs[i := p]) < TotalWork(partitions, procs)
  {
    hide Work;
    var n, procs' := |procs| - 1, procs[i := p];
    if i == n {
      assert procs'[..n] == procs[..n];
    } else {
      assert procs'[..n] == procs[..n][i := p];
      LessWork(partitions, procs[..n], i, p);
    }
  }

  lemma StepWorks(w: World, w': World, i: nat)
    requires WorldInv(w) && ProcStep(w, w', i)
    ensures TotalWork(w'.partitions, w'.procs) < TotalWork(w.partitions, w.procs)
  {
    hide TotalWork;
    LessWork(w.partitions, w.procs, i, w'.procs[i]);
  }

  ghost predicate IsWorldRun(ws: seq<World>) {
    && |ws| > 0 && Starting(ws[0])
    && forall n | 0 <= n < |ws| - 1 :: WorldStepped(ws[n], ws[n + 1])
  }

  ghost predicate WorldStepped(w: World, w': World) {
    exists i :: ProcStep(w, w', i)
  }

  /** No process can take a step without a cancellation. */
  ghost predicate Stuck(w: World) {
    forall i :: !CanAdvance(w, i)
  }

  predicate AllFinished(w: World) {
    forall i | 0 <= i < |w.procs| :: w.procs[i] == Finished
  }

  /** At the start no slot is taken. */
  predicate Starting(w: World) {
    w.full == {} && forall i | 0 <= i < |w.procs| ::
      (w.procs[i] == Taking(0) && w.partitions > 0) || w.procs[i].OneWaiting? || w.procs[i] == Finished
  }

  lemma StartInv(w: World)
    requires Starting(w)
    ensures WorldInv(w)
  {
    assert forall i | 0 <= i < |w.procs| :: HeldBy(w, i) == {};
  }

  /** Every run keeps the slots consistent and is no longer than the work at its start. */
  lemma {:induction false} RunsEnd(ws: seq<World>)
    requires IsWorldRun(ws)
    ensures WorldInv(ws[|ws| - 1])
    ensures |ws| - 1 + TotalWork(ws[|ws| - 1].partitions, ws[|ws| - 1].procs)
         <= TotalWork(ws[0].partitions, ws[0].procs)
  {
    StartInv(ws[0]);
    hide WorldInv, ProcStep, TotalWork;
    var n := |ws| - 1;
    if n > 0 {
      var front := ws[..n];
      forall k | 0 <= k < |front| - 1 ensures WorldStepped(front[k], front[k + 1]) {
        assert WorldStepped(ws[k], ws[k + 1]);
      }
      RunsEnd(front);
      assert front[n - 1] == ws[n - 1] && WorldStepped(ws[n - 1], ws[n - 1 + 1]);
      var i :| ProcStep(ws[n - 1], ws[n], i);
      WorldStep(ws[n - 1], ws[n], i);
      StepWorks(ws[n - 1], ws[n], i);
    }
  }

  /** So a run that cannot go on has finished every process, and left every slot empty. */
  lemma StuckMeansFinished(ws: seq<World>)
    requires IsWorldRun(ws) && Stuck(ws[|ws| - 1])
    ensures var w := ws[|ws| - 1];
      w.full == {} && forall i | 0 <= i < |w.procs| :: w.procs[i] == Finished
  {
    var w := ws[|ws| - 1];
    hide CanAdvance, ProcStep;
    RunsEnd(ws);
    forall i | 0 <= i < |w.procs| ensures w.procs[i] == Finished {
      if w.procs[i] != Finished {
        var j := SomeoneAdvances(w, i);
      }
    }
    NothingHeld(w);
  }

  lemma NothingHeld(w: World)
    requires WorldInv(w) && AllFinished(w)
    ensures w.full == {}
  {
    assert forall i | 0 <= i < |w.procs| :: HeldBy(w, i) == {};
  }
}
