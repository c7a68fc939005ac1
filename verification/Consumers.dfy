/** Consumers of a stream that may stop early. */
module Consumers {
  import opened Quads

  /** The consumer has gone on after every quad so far. */
  ghost predicate KeptGoing(out: seq<Quad>, keep: seq<Quad> -> bool) {
    forall n | 0 < n <= |out| :: keep(out[..n])
  }

  lemma KeptGoingNext(out: seq<Quad>, q: Quad, keep: seq<Quad> -> bool)
    requires KeptGoing(out, keep)
    ensures keep(out + [q]) ==> KeptGoing(out + [q], keep)
  {
    forall n | 0 < n <= |out| ensures (out + [q])[..n] == out[..n] {}
    assert (out + [q])[..|out| + 1] == out + [q];
  }

  /** out is what a consumer that goes on while keep holds takes of a stream. */
  ghost predicate TakenWhile(out: seq<Quad>, all: seq<Quad>, keep: seq<Quad> -> bool) {
    && out <= all
    && (forall n | 0 < n < |out| :: keep(all[..n]))
    && (|out| < |all| ==> out != [] && !keep(out))
  }

  lemma Stopped(before: seq<Quad>, q: Quad, all: seq<Quad>, keep: seq<Quad> -> bool)
    requires KeptGoing(before, keep) && before + [q] <= all && !keep(before + [q])
    ensures TakenWhile(before + [q], all, keep)
  {
    forall n | 0 < n < |before| + 1 ensures keep(all[..n]) { assert before[..n] == all[..n]; }
  }

  lemma Finished(out: seq<Quad>, keep: seq<Quad> -> bool)
    requires KeptGoing(out, keep)
    ensures TakenWhile(out, out, keep)
  {}

  /** A consumer takes up to its first stop: the whole stream if it never stops, and nothing beyond. */
  lemma TakenIs(out: seq<Quad>, all: seq<Quad>, keep: seq<Quad> -> bool, n: nat)
    requires TakenWhile(out, all, keep) && n <= |all|
    requires (forall m | 0 < m < n :: keep(all[..m])) && (n == |all| || (n > 0 && !keep(all[..n])))
    ensures out == all[..n]
  {
    assert out == all[..|out|];
  }
}
