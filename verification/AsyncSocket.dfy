/** The corked socket writer of external/uWebSockets/AsyncSocket.h: sockets of one loop share its cork buffer,
    each has its own send buffer, and the kernel takes whatever prefix it likes of what it is offered. */
module AsyncSockets {
  import opened BackPressures

  const CORK_BUFFER_SIZE: nat := 16 * 1024

  /** The cork of LoopData. */
  class Loop {
    const corkBuffer: array<Byte>
    var corkOffset: nat
    var corkedSocket: Socket?

    ghost predicate Sized()
      reads this
    { corkBuffer.Length == CORK_BUFFER_SIZE && corkOffset <= CORK_BUFFER_SIZE }

    /** Nobody has the cork only when it is empty. */
    ghost predicate Free()
      reads this
    { corkedSocket == null ==> corkOffset == 0 }

    constructor ()
      ensures Sized() && Free() && corkedSocket == null && fresh(corkBuffer)
    {
      corkBuffer := new Byte[CORK_BUFFER_SIZE];
      corkOffset := 0;
      corkedSocket := null;
    }
  }

  datatype SendBufferAttribute = NeedsNothing | NeedsDrain | NeedsUncork

  class Socket {
    const loop: Loop
    const data: BackPressure
    /** What the kernel has taken so far. */
    ghost var kernel: seq<Byte>

    ghost predicate Valid()
      reads this, data, loop, loop.corkBuffer
    { data.Valid() && loop.Sized() && (Corked() == [] || data.Bytes() == []) }

    /** This socket's bytes in the cork buffer. */
    ghost function Corked(): seq<Byte>
      reads this, loop, loop.corkBuffer
    { if loop.corkedSocket == this && loop.corkOffset <= loop.corkBuffer.Length then loop.corkBuffer[..loop.corkOffset] else [] }

    /** Everything this socket was ever given, in the order it will go out. */
    ghost function Stream(): seq<Byte>
      requires data.Valid()
      reads this, data, loop, loop.corkBuffer
    { kernel + data.Bytes() + Corked() }

    constructor (l: Loop)
      requires l.Sized()
      ensures loop == l && fresh(data) && Valid() && kernel == [] && Stream() == []
    {
      loop := l;
      data := new BackPressure();
      kernel := [];
    }

    /** us_socket_write: the kernel takes some prefix. */
    method KernelWrite(bytes: seq<Byte>) returns (written: nat)
      modifies this
      ensures written <= |bytes| && kernel == old(kernel) + bytes[..written]
    {
      written :| 0 <= written <= |bytes|;
      kernel := kernel + bytes[..written];
    }

    method Cork()
      requires loop.corkOffset == 0 || loop.corkedSocket == this
      modifies loop`corkedSocket
      ensures loop.corkedSocket == this
    {
      loop.corkedSocket := this;
    }

    /** Nothing is buffered, and so many more bytes fit in the cork buffer. */
    ghost predicate FitsCork(size: nat)
      requires data.Valid()
      reads this, data, loop
    { data.Bytes() == [] && loop.corkOffset + size < CORK_BUFFER_SIZE }

    /** getSendBuffer, followed by its caller filling in the content it asked room for.  The attribute says what is left
        to do: nothing if the socket was corked and the content fits behind its corked bytes, to uncork if the cork was
        free and the content fits, and to drain if there was back pressure, another socket is corked, or it does not. */
    method GetSendBuffer(content: seq<Byte>) returns (attribute: SendBufferAttribute)
      requires Valid() && loop.Free()
      modifies data, loop, loop.corkBuffer
      ensures Valid() && loop.Free() && Stream() == old(Stream()) + content
      ensures old(loop.corkedSocket) != this && old(loop.corkedSocket) != null ==>
                unchanged(loop) && unchanged(loop.corkBuffer)
      ensures attribute.NeedsNothing? <==> old(loop.corkedSocket) == this && old(FitsCork(|content|))
      ensures attribute.NeedsUncork? <==> old(loop.corkedSocket) == null && old(FitsCork(|content|))
      ensures attribute.NeedsDrain? <==> (old(loop.corkedSocket) != this && old(loop.corkedSocket) != null) || !old(FitsCork(|content|))
      ensures attribute.NeedsDrain? ==>
                loop.corkedSocket == old(loop.corkedSocket) && Corked() == [] && data.Bytes() == old(data.Bytes()) + old(Corked()) + content
      ensures !attribute.NeedsDrain? ==> loop.corkedSocket == this && Corked() == old(Corked()) + content && data.Bytes() == []
    {
      hide Apply;
      var size := |content|;
      var existing := data.Length();
      if existing == 0 && (loop.corkedSocket == this || loop.corkedSocket == null) && loop.corkOffset + size < CORK_BUFFER_SIZE {
        attribute := if loop.corkedSocket == this then NeedsNothing else NeedsUncork;
        loop.corkedSocket := this;
        CopyToCork(content);
      } else {
        var ours := [];
        if loop.corkedSocket == this && loop.corkOffset != 0 {
          ours := loop.corkBuffer[..loop.corkOffset];
          loop.corkOffset := 0;
        }
        MakeRoom(existing, ours, content);
        attribute := NeedsDrain;
      }
    }

    /** How a WebSocket sends a frame: it acts on the attribute of its send buffer.  The frame goes to the end of the
        stream, and whoever was corked still is; it is sent exactly if nothing is left buffered, and then, unless the
        socket is corked, the kernel has all of the stream. */
    method SendFrame(content: seq<Byte>) returns (sent: bool)
      requires Valid() && loop.Free()
      modifies this, data, loop, loop.corkBuffer
      ensures Valid() && loop.Free() && Stream() == old(Stream()) + content && old(kernel) <= kernel
      ensures loop.corkedSocket == old(loop.corkedSocket)
      ensures old(loop.corkedSocket) != this && old(loop.corkedSocket) != null ==> unchanged(loop) && unchanged(loop.corkBuffer)
      ensures sent <==> data.Bytes() == []
      ensures sent && loop.corkedSocket != this ==> kernel == Stream()
      ensures old(loop.corkedSocket) == this && old(FitsCork(|content|)) ==>
                sent && kernel == old(kernel) && Corked() == old(Corked()) + content
    {
      hide Apply;
      var attribute := GetSendBuffer(content);
      var failed := false;
      if attribute.NeedsDrain? {
        var _, drainFailed := Write([], false);
        failed := drainFailed;
      } else if attribute.NeedsUncork? {
        var _, uncorkFailed := Uncork([], false);
        failed := uncorkFailed;
      }
      sent := !failed;
    }

    /** The send buffer as fallback: what it holds, then our corked bytes, then the content. */
    method MakeRoom(existing: nat, ours: seq<Byte>, content: seq<Byte>)
      requires data.Valid() && existing == |data.Bytes()|
      modifies data
      ensures data.Valid() && data.Bytes() == old(data.Bytes()) + ours + content
    {
      hide Apply;
      data.Resize(|ours| + existing + |content|);
      assert data.Bytes()[..existing] == old(data.Bytes());
      data.Overwrite(existing, ours);
      data.Overwrite(|ours| + existing, content);
    }

    /** memcpy to the end of the cork buffer. */
    method CopyToCork(bytes: seq<Byte>)
      requires loop.Sized() && loop.corkOffset + |bytes| <= CORK_BUFFER_SIZE && loop.corkedSocket == this
      modifies loop`corkOffset, loop.corkBuffer
      ensures loop.Sized() && loop.corkOffset == old(loop.corkOffset) + |bytes|
      ensures loop.corkBuffer[..loop.corkOffset] == old(loop.corkBuffer[..loop.corkOffset]) + bytes
    {
      var at := loop.corkOffset;
      forall i | 0 <= i < |bytes| {
        loop.corkBuffer[at + i] := bytes[i];
      }
      loop.corkOffset := at + |bytes|;
    }

    /** Offers the buffered bytes to the kernel: all of them are gone, or some are left. */
    method Drain() returns (drained: bool)
      requires Valid()
      modifies this, data
      ensures Valid() && Stream() == old(Stream()) && drained == (data.Bytes() == []) && old(kernel) <= kernel
      ensures old(data.Bytes()) == [] ==> kernel == old(kernel)
    {
      hide Apply;
      ghost var bytes := data.Bytes();
      if |data.buffer| - data.pendingRemoval == 0 {
        return true;
      }
      var n := KernelWrite(data.buffer[data.pendingRemoval..]);
      assert kernel + bytes[n..] == old(kernel) + bytes;
      drained := n == |data.buffer| - data.pendingRemoval;
      if drained {
        data.Clear();
      } else {
        data.Erase(n);
      }
    }

    /** Offers src to the kernel, and buffers what it leaves unless the write is optional. */
    method Send(src: seq<Byte>, optionally: bool) returns (written: nat, failed: bool)
      requires Valid() && data.Bytes() == [] && loop.corkedSocket != this
      modifies this, data
      ensures Valid() && written <= |src| && Stream() == old(Stream()) + src[..written] && old(kernel) <= kernel
      ensures !optionally ==> written == |src|
      ensures !failed ==> written == |src| && data.Bytes() == []
      ensures failed && !optionally ==> data.Bytes() != []
    {
      hide Apply;
      var n := KernelWrite(src);
      assert old(kernel) + src == kernel + src[n..];
      if n < |src| {
        if optionally {
          return n, true;
        }
        data.Append(src[n..]);
        return |src|, true;
      }
      return |src|, false;
    }

    /** Whatever prefix of src is reported as written goes to the end of the stream; nothing else changes in it.
        A write that is not optional takes all of src, except that a corked socket whose corked bytes leave no
        room for src refuses src exactly if the kernel does not take all the corked bytes. */
    method Write(src: seq<Byte>, optionally: bool) returns (written: nat, failed: bool)
      requires Valid()
      modifies this, data, loop, loop.corkBuffer
      ensures Valid() && (old(loop.Free()) ==> loop.Free())
      ensures written <= |src| && Stream() == old(Stream()) + src[..written] && old(kernel) <= kernel
      ensures src == [] ==> unchanged(loop) && unchanged(loop.corkBuffer)
      ensures old(loop.corkedSocket) == this ==> loop.corkedSocket == this || loop.corkedSocket == null
      ensures old(loop.corkedSocket) != this ==>
                unchanged(loop) && unchanged(loop.corkBuffer) && (!optionally ==> written == |src|)
      ensures !failed ==> written == |src| && data.Bytes() == []
      ensures failed && !optionally ==> data.Bytes() != []
      ensures !optionally && written < |src| ==> written == 0 && failed
      ensures !optionally ==> (written < |src| <==>
                old(Corked()) != [] && |old(Corked())| + |src| > CORK_BUFFER_SIZE && |kernel| < |old(kernel)| + |old(Corked())|)
      decreases loop.corkedSocket == this, 2
    {
      hide Apply;
      var drained := Drain();
      if !drained {
        if optionally {
          return 0, true;
        }
        data.Append(src);
        return |src|, true;
      }
      if |src| == 0 {
        return 0, false;
      }
      written, failed := WriteDrained(src, optionally);
    }

    /** The write once nothing is buffered. */
    method WriteDrained(src: seq<Byte>, optionally: bool) returns (written: nat, failed: bool)
      requires Valid() && data.Bytes() == [] && src != []
      modifies this, data, loop, loop.corkBuffer
      ensures Valid() && (old(loop.Free()) ==> loop.Free())
      ensures written <= |src| && Stream() == old(Stream()) + src[..written] && old(kernel) <= kernel
      ensures old(loop.corkedSocket) == this ==> loop.corkedSocket == this || loop.corkedSocket == null
      ensures old(loop.corkedSocket) != this ==>
                unchanged(loop) && unchanged(loop.corkBuffer) && (!optionally ==> written == |src|)
      ensures !failed ==> written == |src| && data.Bytes() == []
      ensures failed && !optionally ==> data.Bytes() != []
      ensures !optionally && written < |src| ==> written == 0 && failed
      ensures !optionally ==> (written < |src| <==>
                old(Corked()) != [] && |old(Corked())| + |src| > CORK_BUFFER_SIZE && |kernel| < |old(kernel)| + |old(Corked())|)
      decreases loop.corkedSocket == this, 1
    {
      if loop.corkedSocket != this {
        written, failed := Send(src, optionally);
      } else if CORK_BUFFER_SIZE - loop.corkOffset >= |src| {
        CopyToCork(src);
        return |src|, false;
      } else {
        written, failed := Uncork(src, optionally);
      }
    }

    /** Flushes or buffers the corked bytes, then src; reports only what it took of src. */
    method Uncork(src: seq<Byte>, optionally: bool) returns (written: nat, failed: bool)
      requires Valid()
      modifies this, data, loop, loop.corkBuffer
      ensures Valid() && (old(loop.Free()) ==> loop.Free())
      ensures written <= |src| && Stream() == old(Stream()) + src[..written] && old(kernel) <= kernel
      ensures old(loop.corkedSocket) != this ==> written == 0 && !failed && unchanged(loop) && unchanged(loop.corkBuffer) && unchanged(data)
      ensures old(loop.corkedSocket) == this ==> loop.corkedSocket == null && loop.corkOffset == 0
      ensures old(loop.corkedSocket) == this && !failed ==> written == |src| && data.Bytes() == []
      ensures failed && !optionally ==> data.Bytes() != []
      ensures old(loop.corkedSocket) == this && !optionally && written < |src| ==> written == 0 && failed
      ensures old(loop.corkedSocket) == this && !optionally ==>
                (written < |src| <==> src != [] && old(Corked()) != [] && |kernel| < |old(kernel)| + |old(Corked())|)
      decreases loop.corkedSocket == this, 0
    {
      if loop.corkedSocket == this {
        loop.corkedSocket := null;
        if loop.corkOffset != 0 {
          var corked := loop.corkBuffer[..loop.corkOffset];
          assert corked == old(Corked()) && data.Bytes() == [] && Stream() == kernel;
          var _, flushFailed := Write(corked, false);
          assert |Stream()| == |old(kernel)| + |corked|;
          loop.corkOffset := 0;
          if flushFailed {
            return 0, true;
          }
        }
        written, failed := Write(src, optionally);
      } else {
        return 0, false;
      }
    }
  }

  // ---- Any number of sockets, any sequence of calls --------------------------------------------------

  datatype Call =
    | CallCork(socket: nat)
    | CallWrite(socket: nat, src: seq<Byte>, optionally: bool)
    | CallUncork(socket: nat, src: seq<Byte>, optionally: bool)
    | CallSend(socket: nat, content: seq<Byte>)
    | CallFrame(socket: nat, content: seq<Byte>)

  /** Sockets of one loop with their own send buffers. */
  ghost predicate Separate(loop: Loop, sockets: seq<Socket>) {
    && (forall s :: 0 <= s < |sockets| ==> sockets[s].loop == loop)
    && (forall s, t :: 0 <= s < t < |sockets| ==> sockets[s] != sockets[t] && sockets[s].data != sockets[t].data)
  }

  function Footprint(loop: Loop, sockets: seq<Socket>): set<object>
    reads sockets
  { {loop, loop.corkBuffer} + (set s | s in sockets) + (set s | s in sockets :: s.data) }

  ghost predicate AllValid(loop: Loop, sockets: seq<Socket>)
    requires Separate(loop, sockets)
    reads Footprint(loop, sockets)
  { loop.Sized() && loop.Free() && forall s :: 0 <= s < |sockets| ==> sockets[s].Valid() }

  /** The bytes a call hands over. */
  function Payload(c: Call): seq<Byte> {
    match c
    case CallCork(_) => []
    case CallWrite(_, src, _) => src
    case CallUncork(_, src, _) => src
    case CallSend(_, content) => content
    case CallFrame(_, content) => content
  }

  /** What the calls of socket s reported as accepted, given how many bytes each call reported. */
  function Accepted(calls: seq<Call>, reports: seq<nat>, s: nat): seq<Byte>
    requires |reports| == |calls| && forall i :: 0 <= i < |calls| ==> reports[i] <= |Payload(calls[i])|
  {
    if calls == [] then []
    else
      var last := |calls| - 1;
      Accepted(calls[..last], reports[..last], s) + (if calls[last].socket == s then Payload(calls[last])[..reports[last]] else [])
  }

  lemma AcceptedNext(calls: seq<Call>, reports: seq<nat>, c: Call, n: nat, s: nat)
    requires |reports| == |calls| && forall i :: 0 <= i < |calls| ==> reports[i] <= |Payload(calls[i])|
    requires n <= |Payload(c)|
    ensures forall i :: 0 <= i < |calls| + 1 ==> (reports + [n])[i] <= |Payload((calls + [c])[i])|
    ensures Accepted(calls + [c], reports + [n], s) == Accepted(calls, reports, s) + (if c.socket == s then Payload(c)[..n] else [])
  {
    assert (calls + [c])[..|calls|] == calls && (reports + [n])[..|calls|] == reports;
  }

  ghost predicate Reported(calls: seq<Call>, reports: seq<nat>) {
    |reports| == |calls| && forall i :: 0 <= i < |calls| ==> reports[i] <= |Payload(calls[i])|
  }

  /** Every socket's stream is what its calls reported as accepted, and no socket has both corked and buffered
      bytes. */
  ghost predicate Accounted(loop: Loop, sockets: seq<Socket>, calls: seq<Call>, reports: seq<nat>)
    requires Separate(loop, sockets) && Reported(calls, reports)
    reads Footprint(loop, sockets)
  {
    && AllValid(loop, sockets)
    && (forall s :: 0 <= s < |sockets| ==> sockets[s].Stream() == Accepted(calls, reports, s))
    && (forall s :: 0 <= s < |sockets| ==> sockets[s].Corked() == [] || sockets[s].data.Bytes() == [])
  }

  method PerformNext(loop: Loop, sockets: seq<Socket>, ghost done: seq<Call>, ghost reports: seq<nat>, c: Call) returns (n: nat)
    requires Separate(loop, sockets) && Reported(done, reports) && Accounted(loop, sockets, done, reports) && c.socket < |sockets|
    requires c.CallCork? ==> loop.corkOffset == 0 || loop.corkedSocket == sockets[c.socket]
    modifies Footprint(loop, sockets)
    ensures Reported(done + [c], reports + [n]) && Accounted(loop, sockets, done + [c], reports + [n])
  {
    n := Perform(loop, sockets, c);
    forall s | 0 <= s < |sockets| ensures Accepted(done + [c], reports + [n], s)
                                          == Accepted(done, reports, s) + (if c.socket == s then Payload(c)[..n] else []) {
      AcceptedNext(done, reports, c, n, s);
    }
    hide Accepted;
  }

  /** Any sequence of calls on any number of open sockets of a loop, whatever the kernel takes of each write:
      what the kernel has of a socket, then its buffered bytes, then its corked bytes are, in order, exactly the
      prefixes its calls reported as accepted; and a socket never has both corked and buffered bytes.  Corking a
      socket while another has corked bytes ends the program. */
  method Drive(loop: Loop, sockets: seq<Socket>, calls: seq<Call>) returns (reports: seq<nat>)
    requires Separate(loop, sockets) && AllValid(loop, sockets)
    requires forall i :: 0 <= i < |calls| ==> calls[i].socket < |sockets|
    requires forall s :: 0 <= s < |sockets| ==> sockets[s].Stream() == []
    modifies Footprint(loop, sockets)
    ensures |reports| <= |calls| && Reported(calls[..|reports|], reports)
    ensures Accounted(loop, sockets, calls[..|reports|], reports)
    ensures |reports| < |calls| ==>
              calls[|reports|].CallCork? && loop.corkOffset != 0 && loop.corkedSocket != sockets[calls[|reports|].socket]
  {
    hide *;
    NothingYet(loop, sockets);
    reports := Continue(loop, sockets, calls, [], []);
    assert [] + calls[..|reports|] == calls[..|reports|] && [] + reports == reports;
  }

  method Continue(loop: Loop, sockets: seq<Socket>, calls: seq<Call>, ghost done: seq<Call>, ghost before: seq<nat>)
    returns (reports: seq<nat>)
    requires Separate(loop, sockets) && Reported(done, before) && Accounted(loop, sockets, done, before)
    requires forall i :: 0 <= i < |calls| ==> calls[i].socket < |sockets|
    modifies Footprint(loop, sockets)
    ensures |reports| <= |calls| && Reported(done + calls[..|reports|], before + reports)
    ensures Accounted(loop, sockets, done + calls[..|reports|], before + reports)
    ensures |reports| < |calls| ==>
              calls[|reports|].CallCork? && loop.corkOffset != 0 && loop.corkedSocket != sockets[calls[|reports|].socket]
    decreases |calls|
  {
    hide Accounted, Reported;
    if calls == [] || (calls[0].CallCork? && loop.corkOffset != 0 && loop.corkedSocket != sockets[calls[0].socket]) {
      assert done + calls[..0] == done && before + [] == before;
      return [];
    }
    var n := PerformNext(loop, sockets, done, before, calls[0]);
    var more := Continue(loop, sockets, calls[1..], done + [calls[0]], before + [n]);
    reports := [n] + more;
    assert done + [calls[0]] + calls[1..][..|more|] == done + calls[..|reports|];
    assert before + [n] + more == before + reports;
  }

  lemma NothingYet(loop: Loop, sockets: seq<Socket>)
    requires Separate(loop, sockets) && AllValid(loop, sockets)
    requires forall s :: 0 <= s < |sockets| ==> sockets[s].Stream() == []
    ensures Reported([], []) && Accounted(loop, sockets, [], [])
  {
  }

  /** One call: its socket's stream grows by what it accepted, no other stream changes. */
  method Perform(loop: Loop, sockets: seq<Socket>, c: Call) returns (n: nat)
    requires Separate(loop, sockets) && AllValid(loop, sockets) && c.socket < |sockets|
    requires c.CallCork? ==> loop.corkOffset == 0 || loop.corkedSocket == sockets[c.socket]
    modifies Footprint(loop, sockets)
    ensures AllValid(loop, sockets) && n <= |Payload(c)|
    ensures sockets[c.socket].Stream() == old(sockets[c.socket].Stream()) + Payload(c)[..n]
    ensures forall s :: 0 <= s < |sockets| && s != c.socket ==> sockets[s].Stream() == old(sockets[s].Stream())
  {
    hide Apply;
    var socket := sockets[c.socket];
    match c {
      case CallCork(_) =>
        socket.Cork();
        n := 0;
      case CallSend(_, _) => n := PerformSend(loop, sockets, c);
      case CallFrame(_, _) => n := PerformSend(loop, sockets, c);
      case _ => n := PerformWrite(loop, sockets, c);
    }
  }

  method PerformSend(loop: Loop, sockets: seq<Socket>, c: Call) returns (n: nat)
    requires Separate(loop, sockets) && AllValid(loop, sockets) && c.socket < |sockets| && (c.CallSend? || c.CallFrame?)
    modifies Footprint(loop, sockets)
    ensures AllValid(loop, sockets) && n == |c.content|
    ensures sockets[c.socket].Stream() == old(sockets[c.socket].Stream()) + c.content
    ensures forall s :: 0 <= s < |sockets| && s != c.socket ==> sockets[s].Stream() == old(sockets[s].Stream())
  {
    hide Apply;
    if c.CallSend? {
      var _ := sockets[c.socket].GetSendBuffer(c.content);
    } else {
      var _ := sockets[c.socket].SendFrame(c.content);
    }
    n := |c.content|;
  }

  method PerformWrite(loop: Loop, sockets: seq<Socket>, c: Call) returns (n: nat)
    requires Separate(loop, sockets) && AllValid(loop, sockets) && c.socket < |sockets| && (c.CallWrite? || c.CallUncork?)
    modifies Footprint(loop, sockets)
    ensures AllValid(loop, sockets) && n <= |c.src|
    ensures sockets[c.socket].Stream() == old(sockets[c.socket].Stream()) + c.src[..n]
    ensures forall s :: 0 <= s < |sockets| && s != c.socket ==> sockets[s].Stream() == old(sockets[s].Stream())
  {
    hide Apply;
    var failed: bool;
    if c.CallWrite? {
      n, failed := sockets[c.socket].Write(c.src, c.optionally);
    } else {
      n, failed := sockets[c.socket].Uncork(c.src, c.optionally);
    }
  }
}
