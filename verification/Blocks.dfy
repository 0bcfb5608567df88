/** Elements of a producer's sub-queue are numbered from 0 and kept in blocks of bs elements: element i is in
    block i / bs, at offset i mod bs. */
module Blocks {
  import Arithmetic

  function BlockNo(bs: nat, i: nat): nat
    requires bs > 0
  { i / bs }

  /** How many blocks n elements reach into. */
  function BlockCount(bs: nat, n: nat): nat
    requires bs > 0
  { (n + bs - 1) / bs }

  function Range(a: nat, b: nat): (r: set<nat>)
    ensures forall i: nat :: i in r <==> a <= i < b
  { if a >= b then {} else Range(a, b - 1) + {b - 1} }

  /** Element i lies in one of the blocks n elements reach into, exactly if i < n or it shares the last. */
  lemma BlockNoBelow(bs: nat, i: nat, n: nat)
    requires bs > 0
    ensures i < n ==> BlockNo(bs, i) < BlockCount(bs, n)
    ensures n <= i && n % bs == 0 ==> BlockCount(bs, n) <= BlockNo(bs, i)
  {
    if i < n {
      DivMonotone(i + bs, n + bs - 1, bs);
      Arithmetic.AddMultiple(i, bs, 1);
    } else if n % bs == 0 {
      assert n == (n / bs) * bs;
      Arithmetic.QuotientRemainder(n + bs - 1, bs, n / bs, bs - 1);
      DivMonotone(n, i, bs);
    }
  }

  lemma DivMonotone(a: nat, b: nat, d: nat)
    requires d > 0 && a <= b
    ensures a / d <= b / d
  {
    assert a == (a / d) * d + a % d;
    assert b == (b / d) * d + b % d;
    if b / d < a / d {
      Arithmetic.Scale(b / d + 1, a / d, d);
      Arithmetic.Distribute(b / d + 1, 1, d);
    }
  }

  /** The element after i is in the same block, or starts the next one. */
  lemma BlockNoNext(bs: nat, i: nat)
    requires bs > 0
    ensures (i + 1) % bs != 0 ==> BlockNo(bs, i + 1) == BlockNo(bs, i)
    ensures (i + 1) % bs == 0 ==> BlockNo(bs, i + 1) == BlockNo(bs, i) + 1
  {
    assert i == (i / bs) * bs + i % bs;
    if i % bs == bs - 1 {
      Arithmetic.Distribute(i / bs + 1, 1, bs);
      Arithmetic.QuotientRemainder(i + 1, bs, i / bs + 1, 0);
    } else {
      Arithmetic.QuotientRemainder(i + 1, bs, i / bs, i % bs + 1);
    }
  }

  /** The parts of element o of block k. */
  lemma Parts(bs: nat, k: nat, o: nat)
    requires o < bs
    ensures BlockNo(bs, k * bs + o) == k && (k * bs + o) % bs == o
  {
    Arithmetic.QuotientRemainder(k * bs + o, bs, k, o);
  }

  lemma BlockCountMonotone(bs: nat, n: nat, more: nat)
    requires bs > 0
    ensures BlockCount(bs, n) <= BlockCount(bs, n + more)
  {
    DivMonotone(n + bs - 1, n + more + bs - 1, bs);
  }

  lemma BlockBounds(bs: nat, i: nat)
    requires bs > 0
    ensures BlockNo(bs, i) * bs <= i < BlockNo(bs, i) * bs + bs
  {
    assert i == (i / bs) * bs + i % bs;
  }
}
