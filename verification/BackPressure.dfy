/** The lazily shrinking send buffer of external/uWebSockets/AsyncSocketData.h (struct BackPressure), against
    an eager buffer that really removes what is erased. */
module BackPressures {

  type Byte = bv8

  // ---- The buffer as a value, with what its erases have cost ----------------------------------------

  /** buffer and pendingRemoval, and two totals: visible bytes erased, bytes moved by physical erases. */
  datatype Lazy = Lazy(buffer: seq<Byte>, pending: nat, erased: nat, shifted: nat)

  datatype Op = Append(data: seq<Byte>) | Erase(length: nat) | Clear | Resize(length: nat)

  function Zeros(n: nat): seq<Byte> { seq(n, _ => 0) }

  /** std::string::resize. */
  function Resized(s: seq<Byte>, n: nat): (r: seq<Byte>)
    ensures |r| == n
  { if n <= |s| then s[..n] else s + Zeros(n - |s|) }

  /** How many visible bytes there are to erase. */
  function Erasable(l: Lazy, n: nat): nat {
    if l.pending + n <= |l.buffer| then n else if l.pending <= |l.buffer| then |l.buffer| - l.pending else 0
  }

  function Apply(l: Lazy, op: Op): Lazy {
    match op
    case Append(d) => l.(buffer := l.buffer + d)
    case Erase(n) =>
      var p := l.pending + n;
      if p > |l.buffer| / 32 then
        var cut := if p < |l.buffer| then p else |l.buffer|;
        Lazy(l.buffer[cut..], 0, l.erased + Erasable(l, n), l.shifted + (|l.buffer| - cut))
      else l.(pending := p, erased := l.erased + Erasable(l, n))
    case Clear => l.(buffer := [], pending := 0)
    case Resize(n) => l.(buffer := Resized(l.buffer, n + l.pending))
  }

  function Visible(l: Lazy): seq<Byte>
    requires l.pending <= |l.buffer|
  { l.buffer[l.pending..] }

  /** The eager buffer. */
  function ApplyEager(b: seq<Byte>, op: Op): seq<Byte> {
    match op
    case Append(d) => b + d
    case Erase(n) => if n < |b| then b[n..] else []
    case Clear => []
    case Resize(n) => Resized(b, n)
  }

  predicate Growing(l: Lazy, op: Op)
    requires l.pending <= |l.buffer|
  { op.Resize? ==> |Visible(l)| <= op.length }

  function Run(l: Lazy, ops: seq<Op>): Lazy
    decreases |ops|
  { if ops == [] then l else Apply(Run(l, ops[..|ops| - 1]), ops[|ops| - 1]) }

  function RunEager(b: seq<Byte>, ops: seq<Op>): seq<Byte>
    decreases |ops|
  { if ops == [] then b else ApplyEager(RunEager(b, ops[..|ops| - 1]), ops[|ops| - 1]) }

  /** What every operation shows is what the eager buffer shows. */
  lemma ApplyVisible(l: Lazy, op: Op)
    requires l.pending <= |l.buffer|
    ensures Apply(l, op).pending <= |Apply(l, op).buffer|
    ensures Visible(Apply(l, op)) == ApplyEager(Visible(l), op)
  {
  }

  /** At most one 32nd of the buffer is waiting to be removed. */
  predicate Small(l: Lazy) { 32 * l.pending <= |l.buffer| }

  /** Shifting costs at most 31 bytes for each visible byte erased that has been removed. */
  predicate Cheap(l: Lazy) { l.shifted + 31 * l.pending <= 31 * l.erased }

  lemma ApplyCheap(l: Lazy, op: Op)
    requires Cheap(l) && l.pending <= |l.buffer|
    ensures Cheap(Apply(l, op))
  {
  }

  /** Every operation but a resize keeps the 1/32 bound, and a resize exactly when it leaves 31 visible bytes for each
      pending one. */
  lemma ApplySmallExactly(l: Lazy, op: Op)
    requires Small(l)
    ensures Small(Apply(l, op)) <==> Roomy(l, op)
  {
  }

  predicate Roomy(l: Lazy, op: Op) { op.Resize? ==> 31 * l.pending <= op.length }

  const EMPTY := Lazy([], 0, 0, 0)

  /** Every resize in ops asks for at least as much as is visible then. */
  predicate AllGrowing(ops: seq<Op>)
    decreases |ops|
  {
    ops == [] ||
    (AllGrowing(ops[..|ops| - 1]) &&
     var l := Run(EMPTY, ops[..|ops| - 1]); l.pending <= |l.buffer| && Growing(l, ops[|ops| - 1]))
  }

  /** Over any sequence of operations the visible bytes are those of the eager buffer. */
  lemma {:induction false} VisibleIsEager(ops: seq<Op>)
    ensures Run(EMPTY, ops).pending <= |Run(EMPTY, ops).buffer|
    ensures Visible(Run(EMPTY, ops)) == RunEager([], ops)
    decreases |ops|
  {
    if ops != [] {
      VisibleIsEager(ops[..|ops| - 1]);
      ApplyVisible(Run(EMPTY, ops[..|ops| - 1]), ops[|ops| - 1]);
    }
  }

  /** Over any sequence of operations the bytes shifted in all are at most 31 times the visible bytes erased in all. */
  lemma {:induction false} ErasesAreCheap(ops: seq<Op>)
    ensures Run(EMPTY, ops).shifted + 31 * Run(EMPTY, ops).pending <= 31 * Run(EMPTY, ops).erased
    decreases |ops|
  {
    if ops != [] {
      ErasesAreCheap(ops[..|ops| - 1]);
      VisibleIsEager(ops[..|ops| - 1]);
      ApplyCheap(Run(EMPTY, ops[..|ops| - 1]), ops[|ops| - 1]);
    }
  }

  /** The 1/32 bound holds after each of the operations. */
  predicate AlwaysSmall(ops: seq<Op>)
    decreases |ops|
  { ops == [] || (AlwaysSmall(ops[..|ops| - 1]) && Small(Run(EMPTY, ops))) }

  /** Every resize in ops leaves 31 visible bytes for each byte pending then. */
  predicate AllRoomy(ops: seq<Op>)
    decreases |ops|
  { ops == [] || (AllRoomy(ops[..|ops| - 1]) && Roomy(Run(EMPTY, ops[..|ops| - 1]), ops[|ops| - 1])) }

  /** Over any sequence of operations pending removal stays within 1/32 of the buffer exactly if every resize leaves 31
      visible bytes for each pending one. */
  lemma {:induction false} PendingIsSmallExactly(ops: seq<Op>)
    ensures AlwaysSmall(ops) <==> AllRoomy(ops)
    ensures AlwaysSmall(ops) ==> Small(Run(EMPTY, ops))
    decreases |ops|
  {
    if ops != [] {
      PendingIsSmallExactly(ops[..|ops| - 1]);
      if AlwaysSmall(ops[..|ops| - 1]) { ApplySmallExactly(Run(EMPTY, ops[..|ops| - 1]), ops[|ops| - 1]); }
    }
  }

  /** Resizes that grow, as the socket's do, are among those. */
  lemma {:induction false} GrowingIsRoomy(ops: seq<Op>)
    requires AllGrowing(ops)
    ensures AllRoomy(ops)
    decreases |ops|
  {
    if ops != [] {
      GrowingIsRoomy(ops[..|ops| - 1]);
      PendingIsSmallExactly(ops[..|ops| - 1]);
    }
  }

  lemma ShrinkingBreaksTheBound()
    ensures var l := Run(EMPTY, [Append(Zeros(64)), Erase(2), Resize(0)]);
            l.pending == 2 && |l.buffer| == 2
  {
    var a, b, c := Append(Zeros(64)), Erase(2), Resize(0);
    assert [a, b, c][..2] == [a, b] && [a, b][..1] == [a] && [a][..0] == [];
    assert Run(EMPTY, [a]).buffer == Zeros(64);
    assert Run(EMPTY, [a, b]) == Lazy(Zeros(64), 2, 2, 0);
  }

  // ---- The buffer itself -------------------------------------------------------------------------------

  class BackPressure {
    var buffer: seq<Byte>
    var pendingRemoval: nat
    ghost var erased: nat
    ghost var shifted: nat

    ghost predicate Valid()
      reads this
    { pendingRemoval <= |buffer| }

    ghost function Value(): Lazy
      reads this
    { Lazy(buffer, pendingRemoval, erased, shifted) }

    /** The bytes still to be sent. */
    ghost function Bytes(): seq<Byte>
      requires Valid()
      reads this
    { buffer[pendingRemoval..] }

    constructor ()
      ensures Valid() && Value() == EMPTY
    {
      buffer, pendingRemoval, erased, shifted := [], 0, 0, 0;
    }

    method Append(data: seq<Byte>)
      requires Valid()
      modifies this
      ensures Valid() && Value() == Apply(old(Value()), Op.Append(data)) && Bytes() == old(Bytes()) + data
    {
      buffer := buffer + data;
      ApplyVisible(old(Value()), Op.Append(data));
    }

    method Erase(length: nat)
      requires Valid()
      modifies this
      ensures Valid() && Value() == Apply(old(Value()), Op.Erase(length))
      ensures Bytes() == if length < |old(Bytes())| then old(Bytes())[length..] else []
    {
      erased := erased + Erasable(Value(), length);
      pendingRemoval := pendingRemoval + length;
      if pendingRemoval > |buffer| / 32 {
        var cut := if pendingRemoval < |buffer| then pendingRemoval else |buffer|;
        shifted := shifted + (|buffer| - cut);
        buffer := buffer[cut..];
        pendingRemoval := 0;
      }
      ApplyVisible(old(Value()), Op.Erase(length));
    }

    method Length() returns (n: nat)
      requires Valid()
      ensures n == |Bytes()|
    {
      n := |buffer| - pendingRemoval;
    }

    method Clear()
      modifies this
      ensures Valid() && Value() == Apply(old(Value()), Op.Clear) && Bytes() == []
    {
      pendingRemoval := 0;
      buffer := [];
    }

    method Resize(length: nat)
      requires Valid()
      modifies this
      ensures Valid() && Value() == Apply(old(Value()), Op.Resize(length)) && Bytes() == Resized(old(Bytes()), length)
    {
      buffer := Resized(buffer, length + pendingRemoval);
      ApplyVisible(old(Value()), Op.Resize(length));
    }

    /** memcpy to data() + at. */
    method Overwrite(at: nat, bytes: seq<Byte>)
      requires Valid() && at + |bytes| <= |Bytes()|
      modifies this`buffer
      ensures Valid() && |buffer| == old(|buffer|)
      ensures Bytes() == old(Bytes())[..at] + bytes + old(Bytes())[at + |bytes|..]
    {
      var p := pendingRemoval + at;
      buffer := buffer[..p] + bytes + buffer[p + |bytes|..];
    }
  }

  /** Any sequence of calls on a new buffer: it does what the value does. */
  method Drive(ops: seq<Op>) returns (shown: seq<Byte>, pending: nat, total: nat)
    ensures shown == RunEager([], ops)
    ensures total == |shown| + pending
    ensures AllRoomy(ops) ==> 32 * pending <= total
  {
    var b := new BackPressure();
    for i := 0 to |ops|
      invariant b.Valid() && b.Value() == Run(EMPTY, ops[..i])
    {
      match ops[i] {
        case Append(d) => b.Append(d);
        case Erase(n) => b.Erase(n);
        case Clear => b.Clear();
        case Resize(n) => b.Resize(n);
      }
      assert ops[..i + 1][..i] == ops[..i];
    }
    assert ops[..|ops|] == ops;
    VisibleIsEager(ops);
    PendingIsSmallExactly(ops);
    shown, pending, total := b.buffer[b.pendingRemoval..], b.pendingRemoval, |b.buffer|;
  }
}
