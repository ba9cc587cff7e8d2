/** Cutting a reassembled stream into messages (mongo_op_handler.go, streamOps). */
module Framer {
  import opened Bytes
  import opened Message

  /** What the reassembler hands over.  The bytes of a SYN are not modelled: a chunk that
      carries one is empty. */
  datatype Chunk = Chunk(bytes: seq<Byte>, skip: int, seen: int)

  datatype StreamState = BeforeMessage | InMessage | OutOfSync

  datatype Op = Op(header: MsgHeader, body: seq<Byte>, seen: int)

  /** One direction of a connection. */
  datatype Stream = Stream(state: StreamState, header: MsgHeader, body: seq<Byte>, stamp: int)

  datatype Fed = Fed(stream: Stream, ops: seq<Op>)

  const NO_HEADER: MsgHeader := MsgHeader(0, 0, 0, 0)
  const NEW_STREAM: Stream := Stream(BeforeMessage, NO_HEADER, [], 0)

  /** A message in progress has its whole header, which looks real, and is not complete. */
  predicate Valid(f: Stream) {
    f.state == InMessage ==>
      && f.header.LooksReal() && MSG_HEADER_LEN <= |f.body| < f.header.messageLength as int
      && f.header == FromWire(f.body)
  }

  // ---- the three handlers, on a nonempty rest of a chunk ----

  datatype Handled = Handled(stream: Stream, rest: seq<Byte>, ops: seq<Op>)

  function HandleBefore(f: Stream, bytes: seq<Byte>, seen: int): Handled {
    if |bytes| < MSG_HEADER_LEN then Handled(f.(state := OutOfSync), [], [])
    else
      var header := FromWire(bytes);
      if !header.LooksReal() then Handled(f.(state := OutOfSync, header := header), [], [])
      else Handled(Stream(InMessage, header, bytes[..MSG_HEADER_LEN], seen), bytes[MSG_HEADER_LEN..], [])
  }

  function HandleIn(f: Stream, bytes: seq<Byte>): Handled
    requires f.state == InMessage && Valid(f)
  {
    var missing := f.header.messageLength as int - |f.body|;
    var copySize := if |bytes| > missing then missing else |bytes|;
    var body := f.body + bytes[..copySize];
    if |body| == f.header.messageLength as int then
      Handled(Stream(BeforeMessage, NO_HEADER, [], f.stamp), bytes[copySize..], [Op(f.header, body, f.stamp)])
    else Handled(f.(body := body), bytes[copySize..], [])
  }

  function HandleOut(f: Stream, bytes: seq<Byte>): Handled {
    if |bytes| < MSG_HEADER_LEN then Handled(f, [], [])
    else
      var header := FromWire(bytes);
      if header.LooksReal() then Handled(f.(state := BeforeMessage, header := header), bytes, [])
      else Handled(f.(header := header), [], [])
  }

  function Handle(f: Stream, bytes: seq<Byte>, seen: int): Handled
    requires Valid(f)
  {
    match f.state
    case BeforeMessage => HandleBefore(f, bytes, seen)
    case InMessage => HandleIn(f, bytes)
    case OutOfSync => HandleOut(f, bytes)
  }

  /** The termination measure of the inner loop: bytes left, then whether out of sync. */
  predicate Shrinks(f: Stream, bytes: seq<Byte>, h: Handled) {
    |h.rest| < |bytes| || (|h.rest| == |bytes| && f.state == OutOfSync && h.stream.state != OutOfSync)
  }

  lemma HandleShrinks(f: Stream, bytes: seq<Byte>, seen: int)
    requires Valid(f) && bytes != []
    ensures Valid(Handle(f, bytes, seen).stream)
    ensures Shrinks(f, bytes, Handle(f, bytes, seen))
    ensures |Handle(f, bytes, seen).rest| <= |bytes|
  {
    match f.state
    case BeforeMessage =>
      if |bytes| >= MSG_HEADER_LEN { HeaderOfPrefix(bytes, bytes[..MSG_HEADER_LEN]); }
    case InMessage => HeaderOfPrefix(HandleIn(f, bytes).stream.body, f.body);
    case OutOfSync =>
  }

  /** A header is read from the first 16 bytes only. */
  lemma HeaderOfPrefix(b: seq<Byte>, c: seq<Byte>)
    ensures |c| >= MSG_HEADER_LEN && c <= b ==> FromWire(b) == FromWire(c)
  {
  }

  function Feed(f: Stream, bytes: seq<Byte>, seen: int): (r: Fed)
    requires Valid(f)
    ensures Valid(r.stream)
    decreases |bytes|, f.state == OutOfSync
  {
    if bytes == [] then Fed(f, [])
    else
      HandleShrinks(f, bytes, seen);
      var h := Handle(f, bytes, seen);
      var r := Feed(h.stream, h.rest, seen);
      Fed(r.stream, h.ops + r.ops)
  }

  lemma FeedOnce(f: Stream, bytes: seq<Byte>, seen: int)
    requires Valid(f) && bytes != []
    ensures var h := Handle(f, bytes, seen);
            && Valid(h.stream)
            && Feed(f, bytes, seen) == Fed(Feed(h.stream, h.rest, seen).stream, h.ops + Feed(h.stream, h.rest, seen).ops)
  {
    HandleShrinks(f, bytes, seen);
  }

  lemma Regroup(a: seq<Op>, b: seq<Op>, c: seq<Op>)
    ensures (a + b) + c == a + (b + c)
  {
  }

  /** One chunk.  After a gap, the bytes of the chunk that announces it are not looked at. */
  function FeedChunk(f: Stream, c: Chunk): (r: Fed)
    requires Valid(f)
    ensures Valid(r.stream)
  {
    if c.skip > 0 then Fed(f.(state := OutOfSync, body := []), [])
    else Feed(if c.skip < 0 then f.(state := OutOfSync) else f, c.bytes, c.seen)
  }

  function FeedAll(f: Stream, cs: seq<Chunk>): (r: Fed)
    requires Valid(f)
    ensures Valid(r.stream)
  {
    if cs == [] then Fed(f, [])
    else
      var before := FeedAll(f, cs[..|cs| - 1]);
      var last := FeedChunk(before.stream, cs[|cs| - 1]);
      Fed(last.stream, before.ops + last.ops)
  }

  // ---- the loop itself ----

  class Framing {
    var state: StreamState
    var header: MsgHeader
    var body: seq<Byte>
    var stamp: int
    var bytes: seq<Byte>
    var unorderedOps: seq<Op>

    ghost function View(): Stream
      reads this
    {
      Stream(state, header, body, stamp)
    }

    constructor ()
      ensures View() == NEW_STREAM && unorderedOps == []
    {
      state, header, body, stamp := BeforeMessage, MsgHeader(0, 0, 0, 0), [], 0;
      bytes, unorderedOps := [], [];
    }

    method HandleStreamStateBeforeMessage(seen: int)
      requires state == BeforeMessage && bytes != []
      modifies this
      ensures var h := HandleBefore(old(View()), old(bytes), seen);
              View() == h.stream && bytes == h.rest && unorderedOps == old(unorderedOps) + h.ops
    {
      if |bytes| < 16 {
        state := OutOfSync;
        bytes := [];
        return;
      }
      header := FromWire(bytes);
      if !header.LooksReal() {
        state := OutOfSync;
        bytes := [];
        return;
      }
      state := InMessage;
      stamp := seen;
      body := bytes[..16];
      bytes := bytes[16..];
    }

    method HandleStreamStateInMessage()
      requires state == InMessage && Valid(View()) && bytes != []
      modifies this
      ensures var h := HandleIn(old(View()), old(bytes));
              View() == h.stream && bytes == h.rest && unorderedOps == old(unorderedOps) + h.ops
    {
      var bodyLen := |body|;
      var copySize := if bodyLen + |bytes| > header.messageLength as int then header.messageLength as int - bodyLen
                      else |bytes|;
      // the body grows within its capacity, and everything meant to be copied is there
      assert bodyLen + copySize <= header.messageLength as int && copySize <= |bytes|;
      body := body + bytes[..copySize];
      bytes := bytes[copySize..];
      if |body| == header.messageLength as int {
        unorderedOps := unorderedOps + [Op(header, body, stamp)];
        header, body := MsgHeader(0, 0, 0, 0), [];
        state := BeforeMessage;
      }
    }

    method HandleStreamStateOutOfSync()
      requires state == OutOfSync && bytes != []
      modifies this
      ensures var h := HandleOut(old(View()), old(bytes));
              View() == h.stream && bytes == h.rest && unorderedOps == old(unorderedOps) + h.ops
    {
      if |bytes| < 16 {
        bytes := [];
        return;
      }
      header := FromWire(bytes);
      if header.LooksReal() {
        state := BeforeMessage;
        return;
      }
      bytes := [];
    }

    /** streamOps on one batch of chunks. */
    method StreamOps(reassemblies: seq<Chunk>)
      requires Valid(View())
      modifies this
      ensures Valid(View()) && View() == FeedAll(old(View()), reassemblies).stream
      ensures unorderedOps == old(unorderedOps) + FeedAll(old(View()), reassemblies).ops
    {
      ghost var f, emitted := View(), unorderedOps;
      for n := 0 to |reassemblies|
        invariant Valid(View()) && View() == FeedAll(f, reassemblies[..n]).stream
        invariant unorderedOps == emitted + FeedAll(f, reassemblies[..n]).ops
      {
        assert reassemblies[..n + 1][..n] == reassemblies[..n];
        ReadChunk(reassemblies[n]);
      }
      assert reassemblies[..|reassemblies|] == reassemblies;
    }

    method ReadChunk(c: Chunk)
      requires Valid(View())
      modifies this
      ensures Valid(View()) && View() == FeedChunk(old(View()), c).stream
      ensures unorderedOps == old(unorderedOps) + FeedChunk(old(View()), c).ops
    {
      bytes := c.bytes;
      if c.skip > 0 {
        state := OutOfSync;
        body := [];
        return;
      }
      if c.skip < 0 { state := OutOfSync; }
      ReadBytes(c.seen);
    }

    /** The body of the inner loop. */
    method HandleStreamState(seen: int)
      requires Valid(View()) && bytes != []
      modifies this
      ensures var h := Handle(old(View()), old(bytes), seen);
              View() == h.stream && bytes == h.rest && unorderedOps == old(unorderedOps) + h.ops
    {
      match state
      case BeforeMessage => HandleStreamStateBeforeMessage(seen);
      case InMessage => HandleStreamStateInMessage();
      case OutOfSync => HandleStreamStateOutOfSync();
    }

    /** One round of the inner loop: what has been emitted and what is left amount to the same. */
    method Round(seen: int)
      requires Valid(View()) && bytes != []
      modifies this
      ensures Valid(View()) && Shrinks(old(View()), old(bytes), Handle(old(View()), old(bytes), seen))
      ensures View() == Handle(old(View()), old(bytes), seen).stream && bytes == Handle(old(View()), old(bytes), seen).rest
      ensures Feed(View(), bytes, seen).stream == Feed(old(View()), old(bytes), seen).stream
      ensures unorderedOps + Feed(View(), bytes, seen).ops == old(unorderedOps) + Feed(old(View()), old(bytes), seen).ops
    {
      ghost var f, b, before := View(), bytes, unorderedOps;
      HandleShrinks(f, b, seen);
      FeedOnce(f, b, seen);
      HandleStreamState(seen);
      Regroup(before, Handle(f, b, seen).ops, Feed(View(), bytes, seen).ops);
    }

    /** The inner loop. */
    method ReadBytes(seen: int)
      requires Valid(View())
      modifies this
      ensures var r := Feed(old(View()), old(bytes), seen);
              Valid(View()) && View() == r.stream && unorderedOps == old(unorderedOps) + r.ops
    {
      ghost var all, emitted := Feed(View(), bytes, seen), unorderedOps;
      while |bytes| > 0
        invariant Valid(View())
        invariant Feed(View(), bytes, seen).stream == all.stream
        invariant unorderedOps + Feed(View(), bytes, seen).ops == emitted + all.ops
        decreases |bytes|, state == OutOfSync
      {
        Round(seen);
      }
    }
  }
}
