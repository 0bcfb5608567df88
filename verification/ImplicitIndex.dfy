/** The block index of an implicit producer (external/cameron314/concurrentqueue.h, ImplicitProducer):
    a circular array of entry pointers that doubles when it is full, while old arrays stay readable by
    consumers that loaded them before.  Blocks are numbered in the order they are inserted: block k
    starts at element k * bs. */
module ImplicitIndex {
  import opened Options
  import Arithmetic

  /** BlockIndexEntry; key None is INVALID_BLOCK_BASE. */
  datatype Entry = Entry(key: Option<nat>, value: Option<nat>)

  /** BlockIndexHeader.  off and count say what the array holds: block k sits at slot (k + off) mod
      capacity, and tail is the slot of block count - 1. */
  datatype Header = Header(capacity: nat, tail: nat, index: seq<nat>, off: int, count: nat)

  /** All headers ever made, the current one last, and all entries ever made.  The blocks low .. high - 1
      own the entries the current header keeps for them. */
  datatype Index = Index(headers: seq<Header>, entries: seq<Entry>, low: nat, high: nat)

  function Current(ix: Index): Header
    requires |ix.headers| > 0
  { ix.headers[|ix.headers| - 1] }

  function SetCurrent(ix: Index, h: Header): Index
    requires |ix.headers| > 0
  { ix.(headers := ix.headers[|ix.headers| - 1 := h]) }

  function Slot(h: Header, k: int): (p: nat)
    requires h.capacity > 0
    ensures p < h.capacity
  { (k + h.off) % h.capacity }

  /** The entry the current header keeps for block k. */
  function EntryId(ix: Index, k: int): nat
    requires |ix.headers| > 0 && HeaderOk(ix, Current(ix))
  { Current(ix).index[Slot(Current(ix), k)] }

  function EntryOf(ix: Index, k: int): Entry
    requires |ix.headers| > 0 && HeaderOk(ix, Current(ix))
  { ix.entries[EntryId(ix, k)] }

  predicate HeaderOk(ix: Index, h: Header) {
    && h.capacity > 0
    && |h.index| == h.capacity
    && (forall p :: 0 <= p < |h.index| ==> h.index[p] < |ix.entries|)
    && h.tail == Slot(h, h.count - 1)
  }

  ghost predicate Ok(bs: nat, ix: Index) {
    && |ix.headers| > 0
    && (forall g :: 0 <= g < |ix.headers| ==> HeaderOk(ix, ix.headers[g]))
    && (forall p, q :: 0 <= p < q < Current(ix).capacity ==> Current(ix).index[p] != Current(ix).index[q])
    && ix.low <= ix.high <= ix.low + Current(ix).capacity
    && (forall g :: 0 <= g < |ix.headers| ==> ix.headers[g].count <= ix.high)
    && (forall k :: ix.low <= k < ix.high ==> EntryOf(ix, k).key == Some(k * bs))
    && (forall k :: ix.high <= k < ix.low + Current(ix).capacity ==> EntryOf(ix, k).key == None)
    && (forall g, k :: 0 <= g < |ix.headers| && ix.low <= k < ix.headers[g].count ==>
          ix.headers[g].index[Slot(ix.headers[g], k)] == EntryId(ix, k))
  }

  /** How far a consumer may rely on header g. */
  function Reach(ix: Index, g: nat): nat
    requires g < |ix.headers|
  { if g == |ix.headers| - 1 then ix.high else ix.headers[g].count }

  /** What the producer's operations leave alone of the headers consumers hold; n is the number of blocks
      with published elements. */
  ghost predicate Extends(ix: Index, ix': Index, n: nat) {
    && |ix.headers| <= |ix'.headers|
    && (forall g :: 0 <= g < |ix.headers| ==>
          var h, h' := ix.headers[g], ix'.headers[g];
          && h'.capacity == h.capacity && h'.index == h.index && h'.off == h.off
          && (h.count <= h'.count || n <= h'.count)
          && Reach(ix, g) <= Reach(ix', g))
  }

  // ---- The producer's operations -------------------------------------------------------------------

  function Init(capacity: nat): Index
    requires capacity > 0
  {
    Index([Header(capacity, (0 - 1) % capacity, seq(capacity, i requires 0 <= i => i), 0, 0)],
          seq(capacity, _ => Entry(None, None)), 0, 0)
  }

  /** The slot insert_block_index_entry looks at. */
  function NextSlot(ix: Index): nat
    requires |ix.headers| > 0 && Current(ix).capacity > 0
  { (Current(ix).tail + 1) % Current(ix).capacity }

  function NextEntryId(ix: Index): nat
    requires |ix.headers| > 0 && HeaderOk(ix, Current(ix))
  { Current(ix).index[NextSlot(ix)] }

  predicate HasRoom(ix: Index)
    requires |ix.headers| > 0 && HeaderOk(ix, Current(ix))
  { ix.entries[NextEntryId(ix)].key == None || ix.entries[NextEntryId(ix)].value == None }

  /** idxEntry->key.store(blockStartIndex). */
  function StoreKey(bs: nat, ix: Index): Index
    requires |ix.headers| > 0 && HeaderOk(ix, Current(ix))
  {
    var id, k := NextEntryId(ix), Current(ix).count;
    var newest := k == ix.high;
    ix.(entries := ix.entries[id := ix.entries[id].(key := Some(k * bs))],
        low := if newest && ix.high == ix.low + Current(ix).capacity then ix.low + 1 else ix.low,
        high := if newest then ix.high + 1 else ix.high)
  }

  /** localBlockIndex->tail.store(newTail). */
  function StoreTail(ix: Index): Index
    requires |ix.headers| > 0 && Current(ix).capacity > 0
  { SetCurrent(ix, Current(ix).(tail := NextSlot(ix), count := Current(ix).count + 1)) }

  /** rewind_block_index_tail. */
  function Rewind(ix: Index): Index
    requires |ix.headers| > 0 && Current(ix).capacity > 0 && Current(ix).count > 0
  {
    var h := Current(ix);
    SetCurrent(ix, h.(tail := (h.tail - 1) % h.capacity, count := h.count - 1))
  }

  function StoreValue(ix: Index, id: nat, v: Option<nat>): Index
    requires id < |ix.entries|
  { ix.(entries := ix.entries[id := ix.entries[id].(value := v)]) }

  /** new_block_index, when the current array is full. */
  function Grow(ix: Index): Index
    requires |ix.headers| > 0 && HeaderOk(ix, Current(ix))
  {
    var h := Current(ix);
    var kept := seq(h.capacity, i requires 0 <= i < h.capacity => h.index[(h.tail + 1 + i) % h.capacity]);
    var added := seq(h.capacity, i requires 0 <= i => |ix.entries| + i);
    Index(ix.headers + [Header(2 * h.capacity, h.capacity - 1, kept + added, -(ix.low as int), h.count)],
          ix.entries + seq(h.capacity, _ => Entry(None, None)),
          ix.low, ix.high)
  }

  // ---- What they keep ------------------------------------------------------------------------------

  lemma NextIsCount(ix: Index)
    requires |ix.headers| > 0 && HeaderOk(ix, Current(ix))
    ensures NextSlot(ix) == Slot(Current(ix), Current(ix).count)
    ensures NextEntryId(ix) == EntryId(ix, Current(ix).count)
  {
    var h := Current(ix);
    Arithmetic.RingShift(h.count - 1 + h.off, 1, h.capacity);
  }

  /** Blocks less than a capacity apart own different entries. */
  lemma EntriesDiffer(bs: nat, ix: Index, j: int, k: int)
    requires Ok(bs, ix) && j < k < j + Current(ix).capacity
    ensures EntryId(ix, j) != EntryId(ix, k)
  {
    var h := Current(ix);
    if Slot(h, j) == Slot(h, k) { Arithmetic.RingInjective(j + h.off, k + h.off, h.capacity); }
  }

  lemma SameEntryALapOn(bs: nat, ix: Index, k: int)
    requires Ok(bs, ix)
    ensures EntryId(ix, k + Current(ix).capacity) == EntryId(ix, k)
  {
    var h := Current(ix);
    Arithmetic.AddMultiple(k + h.off, h.capacity, 1);
  }

  lemma InitOk(bs: nat, capacity: nat)
    requires capacity > 0
    ensures Ok(bs, Init(capacity)) && Current(Init(capacity)).count == 0
  {
  }

  lemma StoreKeyFrame(bs: nat, ix: Index)
    requires Ok(bs, ix)
    ensures var ix' := StoreKey(bs, ix);
            && Current(ix') == Current(ix) && ix'.headers == ix.headers
            && (forall g :: 0 <= g < |ix'.headers| ==> HeaderOk(ix', ix'.headers[g]))
            && (forall k: int :: EntryId(ix', k) == EntryId(ix, k))
            && (forall k: int :: EntryOf(ix', k).value == EntryOf(ix, k).value)
            && (forall k: int :: EntryOf(ix', k).key ==
                  if EntryId(ix, k) == NextEntryId(ix) then Some(Current(ix).count * bs) else EntryOf(ix, k).key)
  {
    var ix' := StoreKey(bs, ix);
    assert Current(ix') == Current(ix);
    forall g | 0 <= g < |ix'.headers| ensures HeaderOk(ix', ix'.headers[g]) {
      assert HeaderOk(ix, ix.headers[g]);
    }
  }

  lemma StoreKeyKeys(bs: nat, ix: Index, k: int)
    requires Ok(bs, ix) && ix.low <= Current(ix).count
    requires var ix' := StoreKey(bs, ix); ix'.low <= k < ix'.low + Current(ix).capacity
    ensures var ix' := StoreKey(bs, ix);
            && HeaderOk(ix', Current(ix'))
            && (k < ix'.high ==> EntryOf(ix', k).key == Some(k * bs))
            && (k >= ix'.high ==> EntryOf(ix', k).key == None)
  {
    var n := Current(ix).count;
    StoreKeyFrame(bs, ix);
    NextIsCount(ix);
    if k < n { EntriesDiffer(bs, ix, k, n); }
    if n < k { EntriesDiffer(bs, ix, n, k); }
  }

  lemma StoreKeyOk(bs: nat, ix: Index)
    requires Ok(bs, ix) && ix.low <= Current(ix).count
    ensures Ok(bs, StoreKey(bs, ix)) && Current(StoreKey(bs, ix)) == Current(ix)
    ensures forall k: int :: EntryId(StoreKey(bs, ix), k) == EntryId(ix, k)
    ensures forall k: int :: EntryOf(StoreKey(bs, ix), k).value == EntryOf(ix, k).value
  {
    var ix' := StoreKey(bs, ix);
    StoreKeyFrame(bs, ix);
    forall k | ix'.low <= k < ix'.low + Current(ix').capacity
      ensures k < ix'.high ==> EntryOf(ix', k).key == Some(k * bs)
      ensures k >= ix'.high ==> EntryOf(ix', k).key == None
    {
      StoreKeyKeys(bs, ix, k);
    }
    forall g, k | 0 <= g < |ix'.headers| && ix'.low <= k < ix'.headers[g].count
      ensures ix'.headers[g].index[Slot(ix'.headers[g], k)] == EntryId(ix', k)
    {
      assert ix.low <= k < ix.headers[g].count;
    }
  }

  lemma StoreTailOk(bs: nat, ix: Index)
    requires Ok(bs, ix) && Current(ix).count < ix.high
    ensures Ok(bs, StoreTail(ix)) && Current(StoreTail(ix)).count == Current(ix).count + 1
    ensures forall k: int :: EntryId(StoreTail(ix), k) == EntryId(ix, k)
    ensures forall n: nat :: Extends(ix, StoreTail(ix), n)
  {
    NextIsCount(ix);
    CurrentMoved(bs, ix, NextSlot(ix), Current(ix).count + 1);
  }

  lemma RewindOk(bs: nat, ix: Index)
    requires Ok(bs, ix) && Current(ix).count > 0
    ensures Ok(bs, Rewind(ix)) && Current(Rewind(ix)).count == Current(ix).count - 1
    ensures forall k: int :: EntryId(Rewind(ix), k) == EntryId(ix, k)
    ensures forall n: nat :: n <= Current(Rewind(ix)).count ==> Extends(ix, Rewind(ix), n)
  {
    var h := Current(ix);
    Arithmetic.RingShift(h.count - 1 + h.off, -1, h.capacity);
    CurrentMoved(bs, ix, (h.tail - 1) % h.capacity, h.count - 1);
  }

  /** Moving the tail of the current header within what it has keys for. */
  lemma CurrentMoved(bs: nat, ix: Index, tail: nat, count: nat)
    requires Ok(bs, ix) && count <= ix.high && tail == Slot(Current(ix), count - 1)
    ensures Ok(bs, SetCurrent(ix, Current(ix).(tail := tail, count := count)))
    ensures forall k: int :: EntryId(SetCurrent(ix, Current(ix).(tail := tail, count := count)), k) == EntryId(ix, k)
  {
    var h' := Current(ix).(tail := tail, count := count);
    var ix' := SetCurrent(ix, h');
    assert forall k: int :: Slot(h', k) == Slot(Current(ix), k);
    assert HeaderOk(ix', h');
    forall g | 0 <= g < |ix'.headers| ensures HeaderOk(ix', ix'.headers[g]) {
      assert HeaderOk(ix, ix.headers[g]);
    }
    assert forall k: int :: EntryId(ix', k) == EntryId(ix, k);
    forall g, k | 0 <= g < |ix'.headers| && ix'.low <= k < ix'.headers[g].count
      ensures ix'.headers[g].index[Slot(ix'.headers[g], k)] == EntryId(ix', k)
    {
      if g < |ix.headers| - 1 { assert ix'.headers[g] == ix.headers[g]; }
    }
    forall k | ix.low <= k < ix.high ensures EntryOf(ix', k).key == Some(k * bs) {
      assert EntryOf(ix, k).key == Some(k * bs);
    }
    forall k | ix.high <= k < ix.low + h'.capacity ensures EntryOf(ix', k).key == None {
      assert EntryOf(ix, k).key == None;
    }
  }

  lemma StoreValueOk(bs: nat, ix: Index, id: nat, v: Option<nat>)
    requires Ok(bs, ix) && id < |ix.entries|
    ensures Ok(bs, StoreValue(ix, id, v)) && Current(StoreValue(ix, id, v)) == Current(ix)
    ensures forall k: int :: EntryId(StoreValue(ix, id, v), k) == EntryId(ix, k)
    ensures forall k: int :: EntryOf(StoreValue(ix, id, v), k).value
                             == if EntryId(ix, k) == id then v else EntryOf(ix, k).value
  {
    var ix' := StoreValue(ix, id, v);
    assert Current(ix') == Current(ix);
    forall g | 0 <= g < |ix'.headers| ensures HeaderOk(ix', ix'.headers[g]) {
      assert HeaderOk(ix, ix.headers[g]);
    }
    assert forall k: int :: EntryId(ix', k) == EntryId(ix, k);
    assert forall k: int :: EntryOf(ix', k).key == EntryOf(ix, k).key;
  }

  lemma GrowSlots(bs: nat, ix: Index, k: int)
    requires Ok(bs, ix) && Current(ix).count == ix.high == ix.low + Current(ix).capacity
    requires ix.low <= k < ix.low + 2 * Current(ix).capacity
    ensures HeaderOk(Grow(ix), Current(Grow(ix)))
    ensures Slot(Current(Grow(ix)), k) == k - ix.low
    ensures k < ix.high ==> EntryId(Grow(ix), k) == EntryId(ix, k)
    ensures k >= ix.high ==> EntryId(Grow(ix), k) == |ix.entries| + (k - ix.high)
  {
    var h, h' := Current(ix), Current(Grow(ix));
    Arithmetic.RingSmall(k - ix.low, h'.capacity);
    Arithmetic.RingSmall(h.capacity - 1, h'.capacity);
    if k < ix.high {
      var i := k - ix.low;
      Arithmetic.RingShift(h.count - 1 + h.off, 1 + i, h.capacity);
      Arithmetic.AddMultiple(k + h.off, h.capacity, 1);
    }
  }

  /** Growing keeps every entry a block owns, and leaves room. */
  lemma GrowOk(bs: nat, ix: Index)
    requires Ok(bs, ix) && Current(ix).count == ix.high == ix.low + Current(ix).capacity
    ensures Ok(bs, Grow(ix)) && Current(Grow(ix)).count == Current(ix).count
    ensures forall k :: ix.low <= k < ix.high ==> EntryId(Grow(ix), k) == EntryId(ix, k)
    ensures forall n: nat :: Extends(ix, Grow(ix), n)
    ensures HasRoom(Grow(ix))
  {
    var ix' := Grow(ix);
    var h, h' := Current(ix), Current(ix');
    GrowSlots(bs, ix, ix.low);
    forall k | ix.low <= k < ix.low + h'.capacity
      ensures k < ix.high ==> EntryId(ix', k) == EntryId(ix, k) && EntryOf(ix', k).key == Some(k * bs)
      ensures k >= ix.high ==> EntryOf(ix', k).key == None
    {
      GrowSlots(bs, ix, k);
    }
    GrowInjective(bs, ix);
    GrowHeaders(bs, ix);
    NextIsCount(ix');
  }

  lemma GrowInjective(bs: nat, ix: Index)
    requires Ok(bs, ix) && Current(ix).count == ix.high == ix.low + Current(ix).capacity
    ensures var h' := Current(Grow(ix));
            forall p, q :: 0 <= p < q < h'.capacity ==> h'.index[p] != h'.index[q]
  {
    var h, h' := Current(ix), Current(Grow(ix));
    forall p, q | 0 <= p < q < h'.capacity ensures h'.index[p] != h'.index[q] {
      GrowSlots(bs, ix, ix.low + p);
      GrowSlots(bs, ix, ix.low + q);
      if q < h.capacity { EntriesDiffer(bs, ix, ix.low + p, ix.low + q); }
    }
  }

  lemma GrowHeaders(bs: nat, ix: Index)
    requires Ok(bs, ix) && Current(ix).count == ix.high == ix.low + Current(ix).capacity
    ensures var ix' := Grow(ix);
            && (forall g :: 0 <= g < |ix'.headers| ==> HeaderOk(ix', ix'.headers[g]))
            && (forall g, k :: 0 <= g < |ix'.headers| && ix'.low <= k < ix'.headers[g].count ==>
                  ix'.headers[g].index[Slot(ix'.headers[g], k)] == EntryId(ix', k))
  {
    var ix' := Grow(ix);
    GrowSlots(bs, ix, ix.low);
    forall g | 0 <= g < |ix'.headers| ensures HeaderOk(ix', ix'.headers[g]) {
      if g < |ix.headers| { assert HeaderOk(ix, ix.headers[g]); }
    }
    forall g, k | 0 <= g < |ix'.headers| && ix'.low <= k < ix'.headers[g].count
      ensures ix'.headers[g].index[Slot(ix'.headers[g], k)] == EntryId(ix', k)
    {
      GrowSlots(bs, ix, k);
      if g < |ix.headers| { assert ix'.headers[g] == ix.headers[g]; }
    }
  }

  // ---- A consumer's lookup -------------------------------------------------------------------------

  /** get_block_index_index_for_index once the tail and its key are loaded: the slot of the block that
      starts at base, counted from the tail with a signed offset. */
  function LookupSlot(bs: nat, h: Header, tail: nat, tailBase: int, base: int): nat
    requires bs > 0 && h.capacity > 0
  { (tail + (base - tailBase) / bs) % h.capacity }

  /** Through any header a consumer may still hold, the lookup of block b from the tail of block top finds
      the key of block top and the slot of block b, and there the entry that block b owns now. */
  lemma LookupFinds(bs: nat, ix: Index, g: nat, top: int, b: nat)
    requires Ok(bs, ix) && bs > 0 && g < |ix.headers|
    requires ix.low <= b <= top < Reach(ix, g)
    ensures var h := ix.headers[g];
            && ix.entries[h.index[Slot(h, top)]].key == Some(top * bs)
            && LookupSlot(bs, h, Slot(h, top), top * bs, b * bs) == Slot(h, b)
            && h.index[Slot(h, b)] == EntryId(ix, b)
  {
    var h := ix.headers[g];
    assert EntryOf(ix, top).key == Some(top * bs);
    assert h.index[Slot(h, top)] == EntryId(ix, top) && h.index[Slot(h, b)] == EntryId(ix, b);
    SignedOffset(bs, h, top, b);
  }

  lemma SignedOffset(bs: nat, h: Header, top: int, b: int)
    requires bs > 0 && h.capacity > 0
    ensures LookupSlot(bs, h, Slot(h, top), top * bs, b * bs) == Slot(h, b)
  {
    Arithmetic.Distribute(b, top, bs);
    Arithmetic.QuotientRemainder((b - top) * bs, bs, b - top, 0);
    Arithmetic.RingShift(top + h.off, b - top, h.capacity);
  }
}
