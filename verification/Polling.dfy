/** One specification for the five bounded poll loops of the drivers.

    Every loop reads a register until it matches or `budget` decrements have
    passed, and then reads it once more; only that last read decides the status.
    The specification is stated over the sequence of "did this read match?"
    answers, so it says nothing about how the loop is written. */
module Polling {

  /** `answers` is exactly what a poll loop with `budget` observes, and `ok`
      what it concludes. */
  ghost predicate IsPoll(answers: seq<bool>, budget: nat, ok: bool) {
    && 2 <= |answers| <= budget + 2
    && (forall i | 0 <= i < |answers| - 2 :: !answers[i])
    && (answers[|answers| - 2] || |answers| == budget + 2)
    && ok == answers[|answers| - 1]
  }

  /** The answers a register gives over time, whoever reads it. */
  ghost predicate Follows(answers: seq<bool>, stream: nat -> bool) {
    forall i | 0 <= i < |answers| :: answers[i] == stream(i)
  }

  ghost predicate Monotone(stream: nat -> bool) {
    forall i: nat, j: nat | i <= j :: stream(i) ==> stream(j)
  }

  /** For an arbitrary register behaviour the specification admits exactly one
      outcome: the number of reads and the status are determined. */
  lemma PollIsDetermined(a: seq<bool>, b: seq<bool>, stream: nat -> bool, budget: nat, okA: bool, okB: bool)
    requires Follows(a, stream) && IsPoll(a, budget, okA)
    requires Follows(b, stream) && IsPoll(b, budget, okB)
    ensures a == b && okA == okB
  {
  }

  /** ... and at least one: a poll of any register behaviour ends. */
  method Poll(stream: nat -> bool, budget: nat) returns (ok: bool, answers: seq<bool>)
    ensures Follows(answers, stream) && IsPoll(answers, budget, ok)
  {
    var timeout := budget;
    answers := [stream(0)];
    while !answers[|answers| - 1] && timeout > 0
      invariant 1 <= |answers| == budget - timeout + 1
      invariant Follows(answers, stream)
      invariant forall i | 0 <= i < |answers| - 1 :: !answers[i]
    {
      timeout := timeout - 1;
      answers := answers + [stream(|answers|)];
    }
    answers := answers + [stream(|answers|)];
    ok := answers[|answers| - 1];
  }

  /** A flag that stays set once set is found iff it is set by read budget + 2. */
  lemma MonotoneFlagIsFound(answers: seq<bool>, stream: nat -> bool, budget: nat, ok: bool)
    requires Follows(answers, stream) && IsPoll(answers, budget, ok)
    requires Monotone(stream)
    ensures ok <==> stream(budget + 1)
    ensures ok <==> exists i: nat :: i < budget + 2 && stream(i)
  {
  }

  /** A flag that is not monotone can be seen set and still be reported as a
      timeout: whenever it is set at read k <= budget, and for the first time
      there, and is clear again at read k + 1. */
  lemma GlitchIsATimeout(answers: seq<bool>, stream: nat -> bool, budget: nat, ok: bool, k: nat)
    requires Follows(answers, stream) && IsPoll(answers, budget, ok)
    requires k <= budget && stream(k) && (forall i: nat | i < k :: !stream(i))
    ensures |answers| == k + 2
    ensures ok <==> stream(k + 1)
  {
  }
}
