/** Comparison and subtraction of the queue's 64-bit indices (external/cameron314/concurrentqueue.h,
    details::circular_less_than) against the integers they stand for. */
module Circular {

  const WORD: int := 0x1_0000_0000_0000_0000
  const HALF: int := 0x8000_0000_0000_0000

  /** Unsigned 64-bit subtraction. */
  function Sub64(a: nat, b: nat): nat
    requires a < WORD && b < WORD
  { (a - b) % WORD }

  /** circular_less_than for 64-bit unsigned operands. */
  predicate CircularLess(a: nat, b: nat)
    requires a < WORD && b < WORD
  { Sub64(a, b) > HALF }

  lemma Congruent(x: int, y: int)
    ensures (x % WORD - y % WORD) % WORD == (x - y) % WORD
  {
    var k := x / WORD - y / WORD;
    assert x - y == (x % WORD - y % WORD) + k * WORD;
  }

  /** What the comparison decides for any two indices. */
  lemma CircularLessExactly(a: int, b: int)
    ensures CircularLess(a % WORD, b % WORD) <==> 0 < (b - a) % WORD < HALF
  {
    Congruent(a, b);
  }

  /** On indices whose distance fits, that is integer order. */
  lemma CircularLessIsOrder(a: int, b: int)
    requires -HALF <= b - a < HALF
    ensures CircularLess(a % WORD, b % WORD) <==> a < b
  {
    Congruent(a, b);
  }

  /** Just outside that window the comparison is wrong. */
  lemma CircularLessFailsBeyond(a: int)
    ensures !CircularLess(a % WORD, (a + HALF) % WORD) && a < a + HALF
    ensures CircularLess(a % WORD, (a - HALF - 1) % WORD) && a - HALF - 1 < a
  {
    Congruent(a, a + HALF);
    Congruent(a, a - HALF - 1);
  }

  /** The guards of dequeue and dequeue_bulk compute on wrapped counters what they would on integers. */
  lemma DequeueGuardWraps(optimistic: nat, overcommit: nat, tail: nat)
    requires -HALF <= tail - (optimistic - overcommit) < HALF
    ensures CircularLess(Sub64(optimistic % WORD, overcommit % WORD), tail % WORD) <==> optimistic - overcommit < tail
    ensures var desired := Sub64(tail % WORD, Sub64(optimistic % WORD, overcommit % WORD));
            && (CircularLess(0, desired) <==> tail - (optimistic - overcommit) > 0)
            && (tail - (optimistic - overcommit) > 0 ==> desired == tail - (optimistic - overcommit))
  {
    Congruent(optimistic, overcommit);
    CircularLessIsOrder(optimistic - overcommit, tail);
    Congruent(tail, optimistic - overcommit);
    var desired := tail - (optimistic - overcommit);
    CircularLessIsOrder(0, desired);
  }
}
