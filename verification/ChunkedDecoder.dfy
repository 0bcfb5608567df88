/** The incremental decoder of chunked transfer coding (section 7.1 of RFC 9112) in
    external/uWebSockets/ChunkedEncoding.h.  Its whole state is one 64-bit word, its input arrives in segments cut
    anywhere. */
module ChunkedDecoder {
  import opened Options

  type Byte = x: int | 0 <= x < 256

  const TWO_32: nat := 0x1_0000_0000
  const TWO_56: nat := 0x100_0000_0000_0000
  const TWO_60: nat := 0x1000_0000_0000_0000
  const TWO_64: nat := 0x1_0000_0000_0000_0000

  // ---- The state word --------------------------------------------------------------------------------

  const HAS_SIZE: nat := 0x8000_0000_0000_0000
  const IS_CHUNKED: nat := 0x4000_0000_0000_0000
  const IS_ERROR: nat := 0xFFFF_FFFF_FFFF_FFFF

  /** state & STATE_SIZE_MASK. */
  function ChunkSize(state: nat): nat { state % IS_CHUNKED }

  predicate HasChunkSize(state: nat) { state / HAS_SIZE % 2 == 1 }

  predicate IsChunked(state: nat) { state / IS_CHUNKED % 2 == 1 }

  /** state | bit. */
  function WithBit(state: nat, bit: nat): nat
    requires bit > 0
  { if state / bit % 2 == 1 then state else state + bit }

  /** size & STATE_SIZE_OVERFLOW. */
  predicate Overflows(size: nat) { size / TWO_56 % 16 != 0 }

  function DecChunkSize(state: nat, n: nat): nat
    requires n % TWO_32 <= ChunkSize(state)
  { state - ChunkSize(state) + (ChunkSize(state) - n % TWO_32) }

  // ---- What the decoder is doing -----------------------------------------------------------------------

  /** Size: in the digits of a size line; Skip: past them, before its line feed; Body: left bytes of the chunk
      and its CRLF to go; Final: left bytes of the last CRLF to go. */
  datatype Mode = Size(n: nat) | Skip(n: nat) | Body(left: nat) | Final(left: nat) | Done | Error

  predicate Stops(d: Mode) { d.Done? || d.Error? }

  /** The modes that the state word can hold between calls. */
  predicate Held(d: Mode) {
    match d
    case Size(n) => n <= TWO_60
    case Skip(_) => false
    case Body(left) => 0 < left <= TWO_60 + 2
    case Final(left) => 0 < left <= 2
    case Done => true
    case Error => true
  }

  function Pack(d: Mode): nat {
    match d
    case Size(n) => IS_CHUNKED + n
    case Skip(n) => IS_CHUNKED + n
    case Body(left) => HAS_SIZE + IS_CHUNKED + left
    case Final(left) => HAS_SIZE + left
    case Done => 0
    case Error => IS_ERROR
  }

  /** Bytes compared as signed characters with 32. */
  predicate Printable(b: Byte) { 32 < b < 128 }

  /** The number a printable byte stands for; None if it is not taken as a digit. */
  function Digit(b: Byte): Option<nat> {
    var d: int := if b >= 97 then b - 39 else if b >= 65 then b - 7 else b;
    if d < 48 || d - 48 > 16 then None else Some(d - 48)
  }

  const LF: Byte := 10
  const CR: Byte := 13

  /** state * 16 + number in 64 bits. */
  function NextSize(n: nat, number: nat): nat { (n * 16 + number) % TWO_64 }

  /** The line feed of a size line: the empty chunk ends the body, any other size is followed by that many bytes
      and CRLF. */
  function EndLine(n: nat): (Mode, seq<Byte>, nat) { if n == 0 then (Final(2), [], 1) else (Body(n + 2), [], 0) }

  /** One byte: the mode after it, the payload it is, and whether it ends the body. */
  function ByteStep(d: Mode, b: Byte): (Mode, seq<Byte>, nat)
    requires !Stops(d)
  {
    match d
    case Size(n) =>
      if Printable(b) then
        if Digit(b) == None || Overflows(n) then (Error, [], 0) else (Size(NextSize(n, Digit(b).value)), [], 0)
      else if b == LF then EndLine(n)
      else (Skip(n), [], 0)
    case Skip(n) => if b == LF then EndLine(n) else (d, [], 0)
    case Body(left) => (if left <= 1 then Size(0) else Body(left - 1), if left > 2 then [b] else [], 0)
    case Final(left) => (if left <= 1 then Done else Final(left - 1), [], 0)
  }

  /** The state word does not tell Skip from Size. */
  function Cut(d: Mode): Mode { if d.Skip? then Size(d.n) else d }

  /** Where decoding stands, the payload it found, how often the body ended, and how many bytes it used. */
  datatype Out = Out(mode: Mode, payload: seq<Byte>, ends: nat, used: nat)

  function Joined(payload: seq<Byte>, ends: nat, used: nat, o: Out): Out {
    Out(o.mode, payload + o.payload, ends + o.ends, used + o.used)
  }

  /** One segment, byte by byte; it stops after the last CRLF, and before a byte that is no digit. */
  function Segment(d: Mode, data: seq<Byte>): Out
    decreases |data|
  {
    if Stops(d) then Out(d, [], 0, 0)
    else if data == [] then Out(Cut(d), [], 0, 0)
    else
      var (d', e, k) := ByteStep(d, data[0]);
      Joined(e, k, if d'.Error? then 0 else 1, Segment(d', data[1..]))
  }

  lemma JoinedTwice(p: seq<Byte>, k: nat, n: nat, p': seq<Byte>, k': nat, n': nat, o: Out)
    ensures Joined(p, k, n, Joined(p', k', n', o)) == Joined(p + p', k + k', n + n', o)
  {
  }

  /** One more byte of the segment. */
  lemma SegmentNext(d: Mode, data: seq<Byte>, i: nat)
    requires !Stops(d) && i < |data| && !ByteStep(d, data[i]).0.Error?
    ensures var (d', e, ends) := ByteStep(d, data[i]);
            Joined([], 0, i, Segment(d, data[i..])) == Joined(e, ends, i + 1, Segment(d', data[i + 1..]))
  {
    assert data[i..][1..] == data[i + 1..];
  }

  // The state word, mode by mode.

  lemma SizePacked(n: nat)
    requires n <= TWO_60
    ensures var s := Pack(Size(n)); ChunkSize(s) == n && !HasChunkSize(s) && IsChunked(s)
    ensures WithBit(WithBit((Pack(Size(n)) + 2) % TWO_64, HAS_SIZE), IS_CHUNKED) == Pack(Body(n + 2))
  {
  }

  lemma DigitPacked(n: nat, number: nat)
    requires n <= TWO_60 && !Overflows(n) && number <= 16
    ensures NextSize(n, number) <= TWO_60
    ensures WithBit(NextSize(n, number), IS_CHUNKED) == Pack(Size(NextSize(n, number)))
  {
  }

  lemma BodyPacked(left: nat)
    requires left <= TWO_60 + 2
    ensures var s := Pack(Body(left)); ChunkSize(s) == left && HasChunkSize(s) && IsChunked(s) && s != IS_ERROR
    ensures forall n: nat :: n < TWO_32 && n < left ==> WithBit(DecChunkSize(Pack(Body(left)), n), IS_CHUNKED) == Pack(Body(left - n))
  {
  }

  lemma FinalPacked(left: nat)
    requires left <= 2
    ensures var s := Pack(Final(left)); ChunkSize(s) == left && HasChunkSize(s) && !IsChunked(s)
    ensures left > 0 ==> DecChunkSize(Pack(Final(left)), 1) == Pack(Final(left - 1))
  {
  }

  // ---- The decoder ---------------------------------------------------------------------------------------

  /** The digits of a size line, up to a byte that is not printable. */
  method ConsumeDigits(data: seq<Byte>, state: nat, ghost n: nat) returns (used: nat, state': nat, ghost d: Mode)
    requires n <= TWO_60 && state == Pack(Size(n))
    ensures Held(d) && state' == Pack(d) && used <= |data| && (d.Size? || d.Error?)
    ensures Segment(Size(n), data) == Joined([], 0, used, Segment(d, data[used..]))
    ensures d.Size? ==> used == |data| || !Printable(data[used])
  {
    used, state', d := 0, state, Size(n);
    assert data[0..] == data;
    hide Pack, WithBit, ChunkSize, NextSize, Overflows, Segment;
    while used < |data| && Printable(data[used])
      invariant used <= |data| && d.Size? && Held(d) && state' == Pack(d)
      invariant Segment(Size(n), data) == Joined([], 0, used, Segment(d, data[used..]))
    {
      var number := Digit(data[used]);
      SizePacked(d.n);
      if number == None || Overflows(ChunkSize(state')) {
        ErrorNext(d.n, data, used);
        state', d := IS_ERROR, Error;
        return;
      }
      DigitPacked(d.n, number.value);
      SegmentNext(d, data, used);
      state' := WithBit(NextSize(ChunkSize(state'), number.value), IS_CHUNKED);
      d := Size(NextSize(d.n, number.value));
      used := used + 1;
    }
  }

  /** The size line: its digits, whatever else there is before the line feed, and the line feed. */
  method ConsumeHexNumber(data: seq<Byte>, state: nat, ghost n: nat) returns (used: nat, state': nat, ghost d: Mode)
    requires n <= TWO_60 && state == Pack(Size(n))
    ensures Held(d) && state' == Pack(d) && used <= |data| && (data != [] && !d.Error? ==> used > 0)
    ensures LineRead(n, data, used, d)
  {
    used, state', d := ConsumeDigits(data, state, n);
    if state' == IS_ERROR {
      return;
    }
    hide WithBit, ChunkSize, Segment;
    used := SkipToLineFeed(data, used, n, d.n);
    if used < |data| {
      SegmentNext(Skip(d.n), data, used);
      SizePacked(d.n);
      state' := (state' + 2) % TWO_64;
      state' := WithBit(WithBit(state', HAS_SIZE), IS_CHUNKED);
      d := Body(d.n + 2);
      used := used + 1;
    } else {
      SegmentOver(Skip(d.n), data);
    }
  }

  method SkipToLineFeed(data: seq<Byte>, from: nat, ghost n: nat, ghost m: nat) returns (at: nat)
    requires from <= |data| && (from == |data| || !Printable(data[from]))
    requires Segment(Size(n), data) == Joined([], 0, from, Segment(Size(m), data[from..]))
    ensures from <= at <= |data| && (at == |data| || data[at] == LF)
    ensures Segment(Size(n), data) == Joined([], 0, at, Segment(Skip(m), data[at..]))
  {
    SizeOrSkip(m, data[from..]);
    hide Segment;
    at := from;
    while at < |data| && data[at] != LF
      invariant from <= at <= |data|
      invariant Segment(Size(n), data) == Joined([], 0, at, Segment(Skip(m), data[at..]))
    {
      SegmentNext(Skip(m), data, at);
      at := at + 1;
    }
  }

  /** The size line was read to its end, ran out of data, or has a byte that is no digit. */
  ghost predicate LineRead(n: nat, data: seq<Byte>, used: nat, d: Mode)
    requires used <= |data|
  {
    var o := Segment(Size(n), data);
    match d
    case Error => o == Out(Error, [], 0, used)
    case Size(_) => used == |data| && o == Out(d, [], 0, |data|)
    case Body(left) => left >= 2 && o == Joined([], EndLine(left - 2).2, used, Segment(EndLine(left - 2).0, data[used..]))
    case _ => false
  }

  lemma SegmentOver(d: Mode, data: seq<Byte>)
    requires !Stops(d)
    ensures Segment(d, data[|data|..]) == Out(Cut(d), [], 0, 0)
  {
  }

  lemma ErrorNext(n: nat, data: seq<Byte>, i: nat)
    requires i < |data| && Printable(data[i]) && (Digit(data[i]) == None || Overflows(n))
    ensures Segment(Size(n), data[i..]) == Segment(Error, data[i..]) && Pack(Error) == IS_ERROR
  {
  }

  /** Before a byte that is no digit, the decoder may as well be past the digits. */
  lemma SizeOrSkip(n: nat, data: seq<Byte>)
    requires data == [] || !Printable(data[0])
    ensures Segment(Size(n), data) == Segment(Skip(n), data)
  {
  }

  /** How many bytes of a chunk with left bytes to go, CRLF included, are payload. */
  function PayloadLeft(left: nat): nat { if left > 2 then left - 2 else 0 }

  /** A chunk that ends within the data. */
  lemma {:induction false} BodyEnds(left: nat, data: seq<Byte>)
    requires 0 < left <= |data|
    ensures Segment(Body(left), data) == Joined(data[..PayloadLeft(left)], 0, left, Segment(Size(0), data[left..]))
    decreases left
  {
    if left > 1 {
      BodyEnds(left - 1, data[1..]);
      assert data[1..][left - 1..] == data[left..];
      if left > 2 { assert [data[0]] + data[1..][..PayloadLeft(left - 1)] == data[..PayloadLeft(left)]; }
    }
  }

  /** A chunk that goes on after the data. */
  lemma {:induction false} BodyGoesOn(left: nat, data: seq<Byte>)
    requires |data| < left
    ensures var n := if |data| < PayloadLeft(left) then |data| else PayloadLeft(left);
            Segment(Body(left), data) == Out(Body(left - |data|), data[..n], 0, |data|)
    decreases |data|
  {
    if data != [] {
      BodyGoesOn(left - 1, data[1..]);
      var n := if |data| < PayloadLeft(left) then |data| else PayloadLeft(left);
      if n > 0 { assert [data[0]] + data[1..][..n - 1] == data[..n]; }
    }
  }

  function Bytes(chunk: Option<seq<Byte>>): seq<Byte> { if chunk.Some? then chunk.value else [] }

  /** An emitted empty chunk ends the body. */
  function Ends(chunk: Option<seq<Byte>>): nat { if chunk == Some([]) then 1 else 0 }

  /** What one call to getNextChunk did: the rest of the segment goes on from where it left off. */
  ghost predicate Emitted(d: Mode, data: seq<Byte>, chunk: Option<seq<Byte>>, used: nat, d': Mode)
    requires used <= |data|
  { Segment(d, data) == Joined(Bytes(chunk), Ends(chunk), used, Segment(d', data[used..])) }

  lemma EmittedAfter(d: Mode, data: seq<Byte>, i: nat, e: Mode, chunk: Option<seq<Byte>>, n: nat, d': Mode)
    requires i <= |data| && n <= |data| - i
    requires Emitted(d, data, None, i, e) && Emitted(e, data[i..], chunk, n, d')
    ensures Emitted(d, data, chunk, i + n, d')
  {
    assert data[i..][n..] == data[i + n..];
  }

  /** The last CRLF. */
  method DropFinal(data: seq<Byte>, state: nat, ghost left: nat) returns (used: nat, state': nat, ghost d: Mode)
    requires 0 < left <= 2 && state == Pack(Final(left)) && data != []
    ensures Held(d) && state' == Pack(d) && 0 < used <= |data| && (used == |data| || d == Done)
    ensures Emitted(Final(left), data, None, used, d)
  {
    used, state', d := 0, state, Final(left);
    assert data[0..] == data;
    hide Segment;
    while used < |data| && ChunkSize(state') != 0
      invariant used <= |data| && d.Final? && Held(d) && state' == Pack(d)
      invariant Emitted(Final(left), data, None, used, d)
      invariant used == 0 ==> d == Final(left)
    {
      FinalPacked(d.left);
      SegmentNext(d, data, used);
      used := used + 1;
      state' := DecChunkSize(state', 1);
      if ChunkSize(state') == 0 {
        state', d := 0, Done;
        return;
      }
      d := Final(d.left - 1);
    }
    FinalPacked(d.left);
  }

  /** A chunk, or the part of it that the data holds. */
  method TakeChunk(data: seq<Byte>, state: nat, ghost left: nat) returns (chunk: Option<seq<Byte>>, used: nat, state': nat, ghost d: Mode)
    requires 0 < left <= TWO_60 + 2 && state == Pack(Body(left)) && 0 < |data| < TWO_32
    ensures Held(d) && state' == Pack(d) && !Stops(d) && 0 < used <= |data| && chunk != Some([])
    ensures chunk == None && used < |data| ==> d == Size(0)
    ensures Emitted(Body(left), data, chunk, used, d)
  {
    BodyPacked(left);
    var size := ChunkSize(state);
    if |data| >= size {
      BodyEnds(left, data);
      chunk := if size > 2 then Some(data[..size - 2]) else None;
      used, state', d := size, IS_CHUNKED, Size(0);
    } else {
      BodyGoesOn(left, data);
      var n := if size <= 2 then 0 else if |data| > size - 2 then size - 2 else |data|;
      chunk := if n > 0 then Some(data[..n]) else None;
      state' := WithBit(DecChunkSize(state, |data|), IS_CHUNKED);
      used, d := |data|, Body(left - |data|);
      SegmentOver(d, data);
    }
  }

  /** One round of getNextChunk's loop. */
  method NextPiece(data: seq<Byte>, state: nat, ghost d: Mode) returns (chunk: Option<seq<Byte>>, used: nat, state': nat, ghost d': Mode)
    requires Held(d) && !Stops(d) && state == Pack(d) && 0 < |data| < TWO_32
    ensures Held(d') && state' == Pack(d') && used <= |data| && (!d'.Error? ==> used > 0)
    ensures Emitted(d, data, chunk, used, d') && (chunk.Some? ==> !Stops(d'))
  {
    ModePacked(d);
    if !IsChunked(state) && HasChunkSize(state) && ChunkSize(state) != 0 {
      chunk := None;
      used, state', d' := DropFinal(data, state, d.left);
    } else if !HasChunkSize(state) {
      chunk := None;
      used, state', d' := ConsumeHexNumber(data, state, d.n);
      SegmentOver(Size(0), data);
      if state' != IS_ERROR {
        ModePacked(d');
        if HasChunkSize(state') && ChunkSize(state') == 2 {
          chunk, state', d' := Some([]), 2 + HAS_SIZE, Final(2);
        }
      }
    } else {
      chunk, used, state', d' := TakeChunk(data, state, d.left);
    }
  }

  /** getNextChunk: the next chunk, or part of one; None when the data is used up, the body is over, or a size is
      malformed. */
  method GetNextChunk(data: seq<Byte>, state: nat, ghost d: Mode) returns (chunk: Option<seq<Byte>>, used: nat, state': nat, ghost d': Mode)
    requires Held(d) && !Stops(d) && state == Pack(d) && |data| < TWO_32
    ensures Held(d') && state' == Pack(d') && used <= |data|
    ensures Emitted(d, data, chunk, used, d')
    ensures chunk.None? ==> used == |data| || Stops(d')
    ensures chunk.Some? ==> used > 0 && !Stops(d')
  {
    chunk, used, state', d' := None, 0, state, d;
    assert data[0..] == data;
    hide Pack, Segment, Emitted;
    assert Emitted(d, data, None, 0, d) by { NothingEmitted(d, data); }
    while used < |data|
      invariant used <= |data| && chunk == None && Held(d') && !Stops(d') && state' == Pack(d')
      invariant Emitted(d, data, None, used, d')
      decreases |data| - used
    {
      ghost var at, mode := used, d';
      var n;
      chunk, n, state', d' := NextPiece(data[used..], state', d');
      EmittedAfter(d, data, at, mode, chunk, n, d');
      StopsPacked(d');
      used := used + n;
      if chunk.Some? || state' == 0 || state' == IS_ERROR {
        return;
      }
    }
  }

  lemma NothingEmitted(d: Mode, data: seq<Byte>)
    ensures Emitted(d, data, None, 0, d)
  {
    hide Segment;
    assert data[0..] == data;
  }

  lemma StopsPacked(d: Mode)
    requires Held(d)
    ensures Stops(d) <==> Pack(d) == 0 || Pack(d) == IS_ERROR
  {
  }

  /** The flags of the state word tell the modes apart. */
  lemma ModePacked(d: Mode)
    requires Held(d) && !Stops(d)
    ensures var s := Pack(d);
      && (d.Size? <==> !HasChunkSize(s))
      && (d.Final? <==> !IsChunked(s))
      && (d.Size? ==> ChunkSize(s) == d.n)
      && (d.Body? || d.Final? ==> ChunkSize(s) == d.left)
      && s != 0 && s != IS_ERROR
  {
  }

  // ---- Segments and whole wires --------------------------------------------------------------------------

  function Flatten(pieces: seq<seq<Byte>>): seq<Byte> { if pieces == [] then [] else pieces[0] + Flatten(pieces[1..]) }

  /** How many of the emitted chunks are empty. */
  function Empties(chunks: seq<seq<Byte>>): nat {
    if chunks == [] then 0 else (if chunks[0] == [] then 1 else 0) + Empties(chunks[1..])
  }

  lemma {:induction false} FlattenAppend(pieces: seq<seq<Byte>>, last: seq<Byte>)
    ensures Flatten(pieces + [last]) == Flatten(pieces) + last
    ensures Empties(pieces + [last]) == Empties(pieces) + (if last == [] then 1 else 0)
  {
    if pieces != [] {
      FlattenAppend(pieces[1..], last);
      assert (pieces + [last])[1..] == pieces[1..] + [last];
    } else {
      assert Flatten([last]) == last + Flatten([]);
    }
  }

  /** The chunks a ChunkIterator emits for one segment. */
  method DecodeSegment(data: seq<Byte>, state: nat, ghost d: Mode) returns (chunks: seq<seq<Byte>>, used: nat, state': nat)
    requires Held(d) && !Stops(d) && state == Pack(d) && |data| < TWO_32
    ensures Segment(d, data) == Out(Segment(d, data).mode, Flatten(chunks), Empties(chunks), used)
    ensures used <= |data| && Held(Segment(d, data).mode) && state' == Pack(Segment(d, data).mode)
  {
    ghost var d' := d;
    var chunk: Option<seq<Byte>>;
    chunks := [];
    hide Segment, Pack, Progress, Emitted;
    chunk, used, state', d' := GetNextChunk(data, state, d);
    ProgressStarts(d, data, chunk, used, d');
    while chunk.Some?
      invariant used <= |data| && Held(d') && state' == Pack(d') && (if chunk.Some? then !Stops(d') else used == |data| || Stops(d'))
      invariant Progress(d, data, chunks, chunk, used, d')
      decreases chunk.Some?, |data| - used
    {
      ghost var was, last, at, mode := chunks, chunk, used, d';
      chunks := chunks + [chunk.value];
      var n;
      chunk, n, state', d' := GetNextChunk(data[used..], state', d');
      ProgressGoesOn(d, data, was, last.value, at, mode, chunk, n, d');
      used := used + n;
    }
    ProgressEnds(d, data, chunks, used, d');
  }

  /** The chunks emitted before the latest, the latest, and what is left of the segment. */
  ghost predicate Progress(d: Mode, data: seq<Byte>, chunks: seq<seq<Byte>>, chunk: Option<seq<Byte>>, used: nat, d': Mode)
    requires used <= |data|
  { Segment(d, data) == Joined(Flatten(chunks) + Bytes(chunk), Empties(chunks) + Ends(chunk), used, Segment(d', data[used..])) }

  lemma ProgressStarts(d: Mode, data: seq<Byte>, chunk: Option<seq<Byte>>, used: nat, d': Mode)
    requires used <= |data| && Emitted(d, data, chunk, used, d')
    ensures Progress(d, data, [], chunk, used, d')
  {
    assert Flatten([]) + Bytes(chunk) == Bytes(chunk);
  }

  lemma ProgressGoesOn(d: Mode, data: seq<Byte>, chunks: seq<seq<Byte>>, last: seq<Byte>, i: nat, e: Mode,
                       chunk: Option<seq<Byte>>, n: nat, d': Mode)
    requires i <= |data| && n <= |data| - i && Progress(d, data, chunks, Some(last), i, e) && Emitted(e, data[i..], chunk, n, d')
    ensures Progress(d, data, chunks + [last], chunk, i + n, d')
  {
    FlattenAppend(chunks, last);
    assert data[i..][n..] == data[i + n..];
    JoinedTwice(Flatten(chunks + [last]), Empties(chunks + [last]), i, Bytes(chunk), Ends(chunk), n, Segment(d', data[i + n..]));
  }

  lemma ProgressEnds(d: Mode, data: seq<Byte>, chunks: seq<seq<Byte>>, used: nat, d': Mode)
    requires used <= |data| && Progress(d, data, chunks, None, used, d') && Held(d') && (used == |data| || Stops(d'))
    ensures Segment(d, data) == Out(d', Flatten(chunks), Empties(chunks), used)
  {
    SegmentStill(d', data[used..]);
  }

  lemma SegmentStill(d: Mode, data: seq<Byte>)
    requires Held(d) && (data == [] || Stops(d))
    ensures Segment(d, data) == Out(d, [], 0, 0)
  {
  }

  /** A wire cut into segments: the mode goes from one to the next. */
  function Wire(d: Mode, segments: seq<seq<Byte>>): Out
    decreases |segments|
  {
    if Stops(d) || segments == [] then Out(d, [], 0, 0)
    else
      var o := Segment(d, segments[0]);
      Joined(o.payload, o.ends, o.used, Wire(o.mode, segments[1..]))
  }

  /** The segments of a body, decoded as they arrive until the body is over or malformed. */
  method DecodeWire(segments: seq<seq<Byte>>) returns (chunks: seq<seq<Byte>>, used: nat, state: nat)
    requires forall i :: 0 <= i < |segments| ==> |segments[i]| < TWO_32
    ensures Wire(Size(0), segments) == Out(Wire(Size(0), segments).mode, Flatten(chunks), Empties(chunks), used)
    ensures state == Pack(Wire(Size(0), segments).mode)
  {
    chunks, used, state := [], 0, IS_CHUNKED;
    ghost var d := Size(0);
    var i := 0;
    WireStarts(segments);
    hide Segment, Wire, WireProgress;
    while i < |segments| && state != 0 && state != IS_ERROR
      invariant i <= |segments| && Held(d) && state == Pack(d) && WireProgress(segments, i, chunks, used, d)
    {
      StopsPacked(d);
      var more, n;
      more, n, state := DecodeSegment(segments[i], state, d);
      WireGoesOn(segments, i, chunks, used, d, more, n);
      d := Segment(d, segments[i]).mode;
      chunks, used, i := chunks + more, used + n, i + 1;
    }
    StopsPacked(d);
    WireEnds(segments, i, chunks, used, d);
  }

  /** The chunks emitted for the first i segments, and what the rest will add. */
  ghost predicate WireProgress(segments: seq<seq<Byte>>, i: nat, chunks: seq<seq<Byte>>, used: nat, d: Mode)
    requires i <= |segments|
  { Wire(Size(0), segments) == Joined(Flatten(chunks), Empties(chunks), used, Wire(d, segments[i..])) }

  lemma WireStarts(segments: seq<seq<Byte>>)
    ensures WireProgress(segments, 0, [], 0, Size(0))
  {
    assert segments[0..] == segments;
  }

  lemma WireGoesOn(segments: seq<seq<Byte>>, i: nat, chunks: seq<seq<Byte>>, used: nat, d: Mode, more: seq<seq<Byte>>, n: nat)
    requires i < |segments| && !Stops(d) && WireProgress(segments, i, chunks, used, d)
    requires Segment(d, segments[i]) == Out(Segment(d, segments[i]).mode, Flatten(more), Empties(more), n)
    ensures WireProgress(segments, i + 1, chunks + more, used + n, Segment(d, segments[i]).mode)
  {
    hide Segment;
    assert segments[i..][1..] == segments[i + 1..];
    FlattenBoth(chunks, more);
    JoinedTwice(Flatten(chunks), Empties(chunks), used, Flatten(more), Empties(more), n, Wire(Segment(d, segments[i]).mode, segments[i + 1..]));
  }

  lemma WireEnds(segments: seq<seq<Byte>>, i: nat, chunks: seq<seq<Byte>>, used: nat, d: Mode)
    requires i <= |segments| && WireProgress(segments, i, chunks, used, d) && (i == |segments| || Stops(d))
    ensures Wire(Size(0), segments) == Out(d, Flatten(chunks), Empties(chunks), used)
  {
  }

  lemma {:induction false} FlattenBoth(a: seq<seq<Byte>>, b: seq<seq<Byte>>)
    ensures Flatten(a + b) == Flatten(a) + Flatten(b) && Empties(a + b) == Empties(a) + Empties(b)
  {
    if a == [] {
      assert a + b == b;
    } else {
      FlattenBoth(a[1..], b);
      assert (a + b)[1..] == a[1..] + b;
    }
  }

  // ---- Cuts do not matter --------------------------------------------------------------------------------

  /** Past the digits of a size line there is no further printable byte, as there is in a chunk extension; except that a
      size of zero may have more zeros after it. */
  predicate Tame(d: Mode, data: seq<Byte>)
    decreases |data|
  {
    Stops(d) || data == [] ||
    ((d.Skip? && Printable(data[0]) ==> d.n == 0 && data[0] == ZERO) && Tame(ByteStep(d, data[0]).0, data[1..]))
  }

  const ZERO: Byte := 48

  /** The state word does not tell a size line's digits from what comes after them, and tame data does not need it to. */
  lemma {:induction false} SkipIsSize(n: nat, data: seq<Byte>)
    requires Tame(Skip(n), data)
    ensures Segment(Size(n), data) == Segment(Skip(n), data) && Tame(Size(n), data)
    decreases |data|
  {
    if data == [] || !Printable(data[0]) {
      SizeOrSkip(n, data);
    } else {
      assert Digit(ZERO) == Some(0) && NextSize(0, 0) == 0 && !Overflows(0);
      SkipIsSize(n, data[1..]);
    }
  }

  lemma CutHere(d: Mode, b: seq<Byte>)
    requires Tame(d, b)
    ensures Segment(d, b) == Joined([], 0, 0, Segment(Cut(d), b)) && Tame(Cut(d), b) && Segment(d, []) == Out(Cut(d), [], 0, 0)
  {
    if d.Skip? { SkipIsSize(d.n, b); }
  }

  /** A tame wire decodes the same when it is cut in two. */
  lemma {:induction false} CutOnce(d: Mode, a: seq<Byte>, b: seq<Byte>)
    requires Tame(d, a + b)
    ensures var o := Segment(d, a);
            Segment(d, a + b) == Joined(o.payload, o.ends, o.used, Segment(o.mode, b)) && Tame(o.mode, b)
    decreases |a|
  {
    if a == [] {
      assert a + b == b;
      CutHere(d, b);
    } else if !Stops(d) {
      assert (a + b)[0] == a[0] && (a + b)[1..] == a[1..] + b;
      var (d', e, k) := ByteStep(d, a[0]);
      CutOnce(d', a[1..], b);
      var o := Segment(d', a[1..]);
      JoinedTwice(e, k, if d'.Error? then 0 else 1, o.payload, o.ends, o.used, Segment(o.mode, b));
    }
  }

  /** However a tame wire is cut, the decoder ends in the same mode with the same payload after the same bytes. */
  lemma {:induction false} CutAnywhere(d: Mode, segments: seq<seq<Byte>>)
    requires !d.Skip? && Tame(d, Flatten(segments))
    ensures Wire(d, segments) == Segment(d, Flatten(segments))
    decreases |segments|
  {
    if segments != [] && !Stops(d) {
      CutOnce(d, segments[0], Flatten(segments[1..]));
      NeverSkip(d, segments[0]);
      CutAnywhere(Segment(d, segments[0]).mode, segments[1..]);
    }
  }

  lemma {:induction false} NeverSkip(d: Mode, data: seq<Byte>)
    ensures !Segment(d, data).mode.Skip?
    decreases |data|
  {
    if !Stops(d) && data != [] { NeverSkip(ByteStep(d, data[0]).0, data[1..]); }
  }

  lemma {:induction false} TamePrefix(d: Mode, a: seq<Byte>, w: seq<Byte>)
    requires Tame(d, w) && a <= w
    ensures Tame(d, a)
    decreases |a|
  {
    if a != [] && !Stops(d) { TamePrefix(ByteStep(d, a[0]).0, a[1..], w[1..]); }
  }

  /** Modes whose size the state word has room for. */
  predicate Roomy(d: Mode) { d.Size? || d.Skip? ==> d.n <= TWO_60 }

  lemma RoomyStep(d: Mode, b: Byte)
    requires Roomy(d) && !Stops(d)
    ensures Roomy(ByteStep(d, b).0)
  {
    if d.Size? && Printable(b) && Digit(b) != None && !Overflows(d.n) { DigitPacked(d.n, Digit(b).value); }
  }

  /** Another size after one more digit, but for zeros. */
  lemma DigitTells(n: nat, b: Byte)
    requires n <= TWO_60 && Printable(b) && !(n == 0 && b == ZERO)
    ensures ByteStep(Size(n), b).0 != Size(n)
  {
  }

  /** Where a wire is not tame, some prefix of it ends in different modes with and without a cut before its last byte. */
  lemma {:induction false} WildWhere(d: Mode, w: seq<Byte>) returns (a: seq<Byte>, c: Byte)
    requires !Tame(d, w) && Roomy(d)
    ensures a + [c] <= w && Segment(Segment(d, a).mode, [c]).mode != Segment(d, a + [c]).mode
    decreases |w|
  {
    if d.Skip? && Printable(w[0]) && !(d.n == 0 && w[0] == ZERO) {
      a, c := [], w[0];
      DigitTells(d.n, c);
      assert [] + [c] == [c] && [c][1..] == [];
      assert Segment(d, []).mode == Size(d.n) && Segment(d, [c]).mode == Size(d.n);
      OneByte(Size(d.n), c);
    } else {
      var d' := ByteStep(d, w[0]).0;
      RoomyStep(d, w[0]);
      var a1;
      a1, c := WildWhere(d', w[1..]);
      a := [w[0]] + a1;
      OneMore(d, w[0], a1);
      OneMore(d, w[0], a1 + [c]);
      assert a + [c] == [w[0]] + (a1 + [c]);
      assert w == [w[0]] + w[1..];
    }
  }

  lemma OneByte(d: Mode, c: Byte)
    requires !Stops(d)
    ensures Segment(d, [c]).mode == Cut(ByteStep(d, c).0)
  {
    assert [c][1..] == [];
  }

  lemma OneMore(d: Mode, c: Byte, a: seq<Byte>)
    requires !Stops(d)
    ensures Segment(d, [c] + a).mode == Segment(ByteStep(d, c).0, a).mode
  {
    assert ([c] + a)[0] == c && ([c] + a)[1..] == a;
  }

  /** Every cut of every prefix of the wire into segments decodes like the uncut prefix. */
  ghost predicate CutsDoNotMatter(w: seq<Byte>) {
    forall segments :: Flatten(segments) <= w ==> Wire(Size(0), segments) == Segment(Size(0), Flatten(segments))
  }

  /** Exactly on tame wires it does not matter how the data that has arrived was cut. */
  lemma CutsDoNotMatterExactly(w: seq<Byte>)
    ensures CutsDoNotMatter(w) <==> Tame(Size(0), w)
  {
    if Tame(Size(0), w) {
      forall segments | Flatten(segments) <= w ensures Wire(Size(0), segments) == Segment(Size(0), Flatten(segments)) {
        TamePrefix(Size(0), Flatten(segments), w);
        CutAnywhere(Size(0), segments);
      }
    } else {
      var a, c := WildWhere(Size(0), w);
      hide Segment, Tame;
      var segments := [a, [c]];
      FlattenTwo(a, [c]);
      WireOfTwo(a, [c]);
    }
  }

  lemma FlattenTwo(a: seq<Byte>, b: seq<Byte>)
    ensures Flatten([a, b]) == a + b
  {
    assert [a, b][1..] == [b] && Flatten([b]) == b + Flatten([b][1..]);
  }

  lemma WireOfTwo(a: seq<Byte>, b: seq<Byte>)
    ensures Wire(Size(0), [a, b]).mode == Segment(Segment(Size(0), a).mode, b).mode
  {
    assert [a, b][1..] == [b] && [b][1..] == [];
    var o := Segment(Size(0), a);
    assert Wire(o.mode, [b]).mode == Segment(o.mode, b).mode;
  }

  /** With an extension the cut can matter: here the size line is `1 1`, whose second digit counts only if it
      starts a segment. */
  lemma ExtensionsMakeCutsMatter()
    ensures var a, b: seq<Byte> := [49, 32], [49, 13, 10];
            Segment(Size(0), a + b).mode == Body(3) && Wire(Size(0), [a, b]).mode == Body(19)
  {
    var a, b: seq<Byte> := [49, 32], [49, 13, 10];
    Uncut(a + b);
    FirstPart(a);
    SecondPart(b);
    assert [a, b][1..] == [b] && [b][1..] == [];
    hide Segment;
    assert Wire(Body(19), []) == Out(Body(19), [], 0, 0);
  }

  lemma Uncut(w: seq<Byte>)
    requires w == [49, 32, 49, 13, 10]
    ensures Segment(Size(0), w).mode == Body(3)
  {
    hide Segment;
    assert w[0..] == w;
    SegmentNext(Size(0), w, 0);
    SegmentNext(Size(1), w, 1);
    SegmentNext(Skip(1), w, 2);
    SegmentNext(Skip(1), w, 3);
    SegmentNext(Skip(1), w, 4);
    SegmentOver(Body(3), w);
  }

  lemma FirstPart(a: seq<Byte>)
    requires a == [49, 32]
    ensures Segment(Size(0), a).mode == Size(1)
  {
    hide Segment;
    assert a[0..] == a;
    SegmentNext(Size(0), a, 0);
    SegmentNext(Size(1), a, 1);
    SegmentOver(Skip(1), a);
  }

  lemma SecondPart(b: seq<Byte>)
    requires b == [49, 13, 10]
    ensures Segment(Size(1), b).mode == Body(19)
  {
    hide Segment;
    assert b[0..] == b;
    SegmentNext(Size(1), b, 0);
    SegmentNext(Size(17), b, 1);
    SegmentNext(Skip(17), b, 2);
    SegmentOver(Body(19), b);
  }

  // ---- Round trip -----------------------------------------------------------------------------------------

  predicate HexDigit(b: Byte) { 48 <= b <= 57 || 65 <= b <= 70 || 97 <= b <= 102 }

  function HexValue(b: Byte): nat
    requires HexDigit(b)
  { if b <= 57 then b - 48 else if b <= 70 then b - 55 else b - 87 }

  predicate Hex(h: seq<Byte>) { forall i :: 0 <= i < |h| ==> HexDigit(h[i]) }

  /** The number written as h, with n already read. */
  function Number(n: nat, h: seq<Byte>): nat
    requires Hex(h)
    decreases |h|
  { if h == [] then n else Number(n * 16 + HexValue(h[0]), h[1..]) }

  /** A chunk as section 7.1 of RFC 9112 has it, without extension: its size in hexadecimal, and its data. */
  datatype Chunk = Chunk(size: seq<Byte>, data: seq<Byte>)

  predicate ValidChunk(c: Chunk) { Hex(c.size) && Number(0, c.size) == |c.data| && 0 < |c.data| < TWO_60 }

  const CRLF: seq<Byte> := [CR, LF]

  function EncodeChunk(c: Chunk): seq<Byte> { c.size + CRLF + (c.data + CRLF) }

  /** The chunks, then a last chunk whose size is zeros, then the end of an empty trailer section. */
  function Encode(chunks: seq<Chunk>, zeros: seq<Byte>): seq<Byte> {
    if chunks == [] then zeros + CRLF + CRLF else EncodeChunk(chunks[0]) + Encode(chunks[1..], zeros)
  }

  function Payload(chunks: seq<Chunk>): seq<Byte> { if chunks == [] then [] else chunks[0].data + Payload(chunks[1..]) }

  lemma {:induction false} NumberGrows(n: nat, h: seq<Byte>)
    requires Hex(h)
    ensures n <= Number(n, h) && (h != [] ==> 16 * n <= Number(n, h))
    decreases |h|
  {
    if h != [] { NumberGrows(n * 16 + HexValue(h[0]), h[1..]); }
  }

  lemma DigitOfHex(b: Byte)
    requires HexDigit(b)
    ensures Printable(b) && Digit(b) == Some(HexValue(b)) && HexValue(b) < 16
  {
  }

  /** The digits of a size are read to its value. */
  lemma {:induction false} DigitsRun(n: nat, h: seq<Byte>, rest: seq<Byte>)
    requires Hex(h) && Number(n, h) < TWO_60
    ensures Segment(Size(n), h + rest) == Joined([], 0, |h|, Segment(Size(Number(n, h)), rest))
    ensures Tame(Size(n), h + rest) == Tame(Size(Number(n, h)), rest)
    decreases |h|
  {
    if h == [] {
      assert h + rest == rest;
    } else {
      NumberGrows(n, h);
      DigitOfHex(h[0]);
      var m := n * 16 + HexValue(h[0]);
      assert n < TWO_56 && !Overflows(n) && NextSize(n, HexValue(h[0])) == m;
      DigitsRun(m, h[1..], rest);
      assert (h + rest)[0] == h[0] && (h + rest)[1..] == h[1..] + rest;
    }
  }

  /** The CRLF after the digits ends the size line. */
  lemma LineEndRun(n: nat, rest: seq<Byte>)
    ensures Segment(Size(n), CRLF + rest) == Joined([], EndLine(n).2, 2, Segment(EndLine(n).0, rest))
    ensures Tame(Size(n), CRLF + rest) == Tame(EndLine(n).0, rest)
  {
    var w := CRLF + rest;
    assert w[0] == CR && w[1..] == [LF] + rest && w[1..][0] == LF && w[1..][1..] == rest;
    assert Segment(Skip(n), w[1..]) == Joined([], EndLine(n).2, 1, Segment(EndLine(n).0, rest));
    assert Tame(Skip(n), w[1..]) == Tame(EndLine(n).0, rest);
  }

  lemma SizeLineRun(h: seq<Byte>, rest: seq<Byte>)
    requires Hex(h) && Number(0, h) < TWO_60
    ensures var e := EndLine(Number(0, h));
            && Segment(Size(0), h + CRLF + rest) == Joined([], e.2, |h| + 2, Segment(e.0, rest))
            && Tame(Size(0), h + CRLF + rest) == Tame(e.0, rest)
  {
    assert h + CRLF + rest == h + (CRLF + rest);
    DigitsRun(0, h, CRLF + rest);
    LineEndRun(Number(0, h), rest);
  }

  lemma {:induction false} BodyTame(left: nat, data: seq<Byte>)
    requires 0 < left <= |data|
    ensures Tame(Body(left), data) == Tame(Size(0), data[left..])
    decreases left
  {
    if left > 1 {
      BodyTame(left - 1, data[1..]);
      assert data[1..][left - 1..] == data[left..];
    }
  }

  /** An encoded chunk decodes to its data. */
  lemma ChunkRun(c: Chunk, rest: seq<Byte>)
    requires ValidChunk(c)
    ensures Segment(Size(0), EncodeChunk(c) + rest) == Joined(c.data, 0, |EncodeChunk(c)|, Segment(Size(0), rest))
    ensures Tame(Size(0), EncodeChunk(c) + rest) == Tame(Size(0), rest)
  {
    var body := c.data + CRLF + rest;
    assert EncodeChunk(c) + rest == c.size + CRLF + body;
    SizeLineRun(c.size, body);
    BodyEnds(|c.data| + 2, body);
    BodyTame(|c.data| + 2, body);
    assert body[..|c.data|] == c.data && body[|c.data| + 2..] == rest;
  }

  predicate Zeros(h: seq<Byte>) { forall i :: 0 <= i < |h| ==> h[i] == 48 }

  lemma {:induction false} ZerosAreZero(h: seq<Byte>)
    requires Zeros(h)
    ensures Hex(h) && Number(0, h) == 0
    decreases |h|
  {
    if h != [] { ZerosAreZero(h[1..]); }
  }

  lemma LastRun(zeros: seq<Byte>, rest: seq<Byte>)
    requires Zeros(zeros)
    ensures Segment(Size(0), zeros + CRLF + CRLF + rest) == Out(Done, [], 1, |zeros| + 4)
    ensures Tame(Size(0), zeros + CRLF + CRLF + rest)
  {
    ZerosAreZero(zeros);
    assert zeros + CRLF + CRLF + rest == zeros + CRLF + (CRLF + rest);
    SizeLineRun(zeros, CRLF + rest);
    FinalRun(rest);
  }

  lemma FinalRun(rest: seq<Byte>)
    ensures Segment(Final(2), CRLF + rest) == Out(Done, [], 0, 2) && Tame(Final(2), CRLF + rest)
  {
    var w := CRLF + rest;
    assert w[0] == CR && w[1..] == [LF] + rest && w[1..][0] == LF && w[1..][1..] == rest;
    assert Segment(Final(1), w[1..]) == Joined([], 0, 1, Segment(Done, rest)) && Tame(Final(1), w[1..]);
  }

  /** Decoding undoes encoding, and leaves what follows the last CRLF alone. */
  lemma {:induction false} RoundTrip(chunks: seq<Chunk>, zeros: seq<Byte>, rest: seq<Byte>)
    requires Zeros(zeros) && forall i :: 0 <= i < |chunks| ==> ValidChunk(chunks[i])
    ensures Segment(Size(0), Encode(chunks, zeros) + rest) == Out(Done, Payload(chunks), 1, |Encode(chunks, zeros)|)
    ensures Tame(Size(0), Encode(chunks, zeros) + rest)
    decreases |chunks|
  {
    if chunks == [] {
      LastRun(zeros, rest);
    } else {
      RoundTrip(chunks[1..], zeros, rest);
      ChunkRun(chunks[0], Encode(chunks[1..], zeros) + rest);
      assert Encode(chunks, zeros) + rest == EncodeChunk(chunks[0]) + (Encode(chunks[1..], zeros) + rest);
    }
  }

  /** However the encoded wire, with anything after it, is cut into segments, the decoder emits exactly the data of
      the chunks in order and one empty chunk, ends with state 0, and uses no byte after the last CRLF. */
  lemma RoundTripAnyCut(chunks: seq<Chunk>, zeros: seq<Byte>, rest: seq<Byte>, segments: seq<seq<Byte>>)
    requires Zeros(zeros) && forall i :: 0 <= i < |chunks| ==> ValidChunk(chunks[i])
    requires Flatten(segments) == Encode(chunks, zeros) + rest
    ensures Wire(Size(0), segments) == Out(Done, Payload(chunks), 1, |Encode(chunks, zeros)|)
    ensures Pack(Wire(Size(0), segments).mode) == 0
    ensures Flatten(segments)[Wire(Size(0), segments).used..] == rest
  {
    RoundTrip(chunks, zeros, rest);
    CutAnywhere(Size(0), segments);
  }

  /** The same of the decoder itself. */
  method DecodeEncoded(segments: seq<seq<Byte>>, ghost chunks: seq<Chunk>, ghost zeros: seq<Byte>, ghost rest: seq<Byte>)
    returns (emitted: seq<seq<Byte>>, used: nat, state: nat)
    requires forall i :: 0 <= i < |segments| ==> |segments[i]| < TWO_32
    requires Zeros(zeros) && forall i :: 0 <= i < |chunks| ==> ValidChunk(chunks[i])
    requires Flatten(segments) == Encode(chunks, zeros) + rest
    ensures Flatten(emitted) == Payload(chunks) && Empties(emitted) == 1 && state == 0
    ensures used == |Flatten(segments)| - |rest|
  {
    RoundTripAnyCut(chunks, zeros, rest, segments);
    hide Wire, Segment;
    emitted, used, state := DecodeWire(segments);
  }
}
