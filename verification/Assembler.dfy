/** The reassembler on the heap (assembly.go, Assembler): each operation keeps every page in
    one place and does to a connection what its specification does to the value. */
module Assembler {
  import opened Collections
  import opened Sequence
  import opened Reassembly
  import opened Recycling
  import opened ReassemblyLimits
  import opened PageList
  import opened PageMoves

  class Assembler {
    const pc: PageCache
    const connPool: StreamPool
    var ret: seq<Chunk>
    const options: Options

    constructor (pc: PageCache, connPool: StreamPool, options: Options)
      ensures this.pc == pc && this.connPool == connPool && this.options == options && ret == []
    {
      this.pc, this.connPool, this.options, ret := pc, connPool, options, [];
    }

    method AddNextFromConn(conn: Connection)
      requires Good(pc, conn) && conn.list != []
      modifies this`ret, pc, conn`nextSeq, conn`first, conn`last, conn`pages, conn`list, conn`vals, Footprint(pc, conn)
      ensures Good(pc, conn) && Moved(pc, conn)
      ensures Work(conn.View(), ret) == PopFirst(old(Work(conn.View(), ret)))
      ensures pc.Book() == PopCache(old(conn.View()), old(pc.Book()))
    {
      var chunk := PopFirstPage(pc, conn);
      ret := ret + [chunk];
    }

    method AddContiguous(conn: Connection)
      requires Good(pc, conn)
      modifies this`ret, pc, conn`nextSeq, conn`first, conn`last, conn`pages, conn`list, conn`vals, Footprint(pc, conn)
      ensures Good(pc, conn) && Moved(pc, conn)
      ensures Work(conn.View(), ret) == Reassembly.AddContiguous(old(Work(conn.View(), ret)))
      ensures pc.Book() == AddContiguousCache(old(Work(conn.View(), ret)), old(pc.Book()))
    {
      ghost var all := Reassembly.AddContiguous(Work(conn.View(), ret));
      ghost var book := AddContiguousCache(Work(conn.View(), ret), pc.Book());
      while conn.first != null && Difference(conn.nextSeq, conn.first.seqno) <= 0
        invariant Good(pc, conn) && Moved(pc, conn)
        invariant Reassembly.AddContiguous(Work(conn.View(), ret)) == all
        invariant AddContiguousCache(Work(conn.View(), ret), pc.Book()) == book
        decreases |conn.list|
      {
        assert conn.list[0].Holds(conn.vals[0]);
        AddNextFromConn(conn);
      }
      assert conn.list != [] ==> conn.list[0].Holds(conn.vals[0]);
    }

    method InsertIntoConn(g: Segment, conn: Connection, ts: int) returns (ghost stale: seq<Flags>)
      requires Good(pc, conn) && (conn.vals != [] ==> conn.vals[0].seqno != conn.nextSeq)
      modifies this`ret, pc, conn`nextSeq, conn`first, conn`last, conn`pages, conn`list, conn`vals, Footprint(pc, conn)
      ensures Good(pc, conn) && Kept(pc, conn) && |stale| == PageCount(|g.payload|)
      ensures Work(conn.View(), ret) == Insert(options, old(Work(conn.View(), ret)), g, ts, stale, old(pc.used))
      ensures stale == Stale(old(pc.Book()), |g.payload|)
      ensures pc.Book() == InsertCache(options, old(Work(conn.View(), ret)), g, ts, old(pc.Book()), old(pc.used))
    {
      assert conn.list != [] ==> conn.list[0].Holds(conn.vals[0]);
      if conn.first != null && conn.first.seqno == conn.nextSeq {
        // the panic
        assert false;
      }
      stale := BufferPages(pc, g, ts, conn);
      if (options.maxPerConn > 0 && conn.pages >= options.maxPerConn)
         || (options.maxTotal > 0 && pc.used >= options.maxTotal) {
        AddNextFromConn(conn);
      }
    }

    // ---- closing ----

    /** A closed connection has no pages. */
    ghost predicate Closed(conn: Connection)
      reads pc, pc.free, conn
    {
      pc.Valid() && conn.closed && conn.list == [] && conn.vals == []
    }

    ghost predicate Sound(conn: Connection)
      reads pc, pc.free, conn, conn.list
    {
      if conn.closed then Closed(conn) else Good(pc, conn)
    }

    /** The connection leaves the pool when it is closed. */
    twostate predicate PoolKept(conn: Connection)
      reads connPool, conn
    {
      && connPool.conns == (if conn.closed then old(connPool.conns) - {conn.key} else old(connPool.conns))
      && connPool.free == (if conn.closed then old(connPool.free) + [conn] else old(connPool.free))
      && connPool.nextAlloc == old(connPool.nextAlloc)
    }

    method CloseConnection(conn: Connection)
      requires Good(pc, conn) && !conn.closed
      modifies pc, conn`closed, conn`list, conn`vals, connPool, Elements(conn.list)
      ensures Closed(conn) && conn.View() == Close(old(conn.View()))
      ensures Moved(pc, conn) && PoolKept(conn) && pc.Book() == PutPages(old(pc.Book()), old(conn.vals))
    {
      conn.closed := true;
      connPool.Remove(conn);
      ghost var free, list := pc.free, conn.list;
      ReplaceAll(pc, conn);
      conn.list, conn.vals := [], [];
      ElementsConcat(free, list);
    }

    // ---- delivering ----

    method CloseIfEnd(conn: Connection)
      requires Good(pc, conn) && !conn.closed && ret != []
      modifies pc, conn`closed, conn`list, conn`vals, connPool, Elements(conn.list)
      ensures Sound(conn) && Moved(pc, conn) && PoolKept(conn)
      ensures conn.View() == if ret[|ret| - 1].end then Close(old(conn.View())) else old(conn.View())
      ensures pc.Book() == if ret[|ret| - 1].end then PutPages(old(pc.Book()), old(conn.vals)) else old(pc.Book())
    {
      if ret[|ret| - 1].end {
        CloseConnection(conn);
      }
    }

    /** The stream takes the chunks. */
    method Reassembled(conn: Connection)
      requires Good(pc, conn)
      modifies conn`out
      ensures Good(pc, conn) && Moved(pc, conn) && conn.out == old(conn.out) + ret
    {
      conn.out := conn.out + ret;
    }

    method Deliver(conn: Connection)
      requires Good(pc, conn) && !conn.closed && ret != []
      modifies pc, conn`out, conn`closed, conn`list, conn`vals, connPool, Elements(conn.list)
      ensures Sound(conn) && Moved(pc, conn) && PoolKept(conn)
      ensures conn.View() == Delivered(Work(old(conn.View()), ret))
      ensures pc.Book() == DeliveredCache(Work(old(conn.View()), ret), old(pc.Book()))
    {
      Reassembled(conn);
      CloseIfEnd(conn);
    }

    method SendToConnection(conn: Connection)
      requires Good(pc, conn) && !conn.closed && ret != []
      modifies this`ret, pc, conn`nextSeq, conn`first, conn`last, conn`pages, conn`list, conn`vals, conn`out, conn`closed,
        connPool, Footprint(pc, conn)
      ensures Sound(conn) && Moved(pc, conn) && PoolKept(conn)
      ensures conn.View() == Send(old(Work(conn.View(), ret)))
      ensures pc.Book() == SendCache(old(Work(conn.View(), ret)), old(pc.Book()))
    {
      AddContiguousShrinks(Work(conn.View(), ret));
      AddContiguous(conn);
      Deliver(conn);
    }

    /** skipFlush, up to the stream. */
    method SkipPages(conn: Connection)
      requires Good(pc, conn) && conn.list != []
      modifies this`ret, pc, conn`nextSeq, conn`first, conn`last, conn`pages, conn`list, conn`vals, Footprint(pc, conn)
      ensures Good(pc, conn) && Moved(pc, conn) && ret != []
      ensures Work(conn.View(), ret) == Reassembly.AddContiguous(PopFirst(Work(old(conn.View()), [])))
      ensures pc.Book() ==
        AddContiguousCache(PopFirst(Work(old(conn.View()), [])), PopCache(old(conn.View()), old(pc.Book())))
    {
      ret := [];
      AddContiguousShrinks(PopFirst(Work(conn.View(), ret)));
      AddNextFromConn(conn);
      AddContiguous(conn);
    }

    method SkipFlush(conn: Connection)
      requires Good(pc, conn) && !conn.closed
      modifies this`ret, pc, conn`nextSeq, conn`first, conn`last, conn`pages, conn`list, conn`vals, conn`out, conn`closed,
        connPool, Footprint(pc, conn)
      ensures Sound(conn) && Moved(pc, conn) && PoolKept(conn)
      ensures conn.View() == Reassembly.SkipFlush(old(conn.View()))
      ensures pc.Book() == SkipFlushCache(old(conn.View()), old(pc.Book()))
    {
      if conn.first == null {
        CloseConnection(conn);
        return;
      }
      SkipPages(conn);
      SendToConnection(conn);
    }

    // ---- flushing ----

    /** FlushOlderThan on one connection. */
    method FlushOlder(conn: Connection, t: int) returns (flushed: bool)
      requires Good(pc, conn) && !conn.closed
      modifies this`ret, pc, conn`nextSeq, conn`first, conn`last, conn`pages, conn`list, conn`vals, conn`out, conn`closed,
        connPool, Footprint(pc, conn)
      ensures Sound(conn) && Moved(pc, conn) && PoolKept(conn)
      ensures conn.View() == Reassembly.FlushOlder(old(conn.View()), t)
      ensures pc.Book() == FlushOlderCache(old(conn.View()), t, old(pc.Book()))
      ensures flushed == Due(old(conn.View()), Expire(t))
    {
      flushed := false;
      ghost var all, book := Reassembly.FlushOlder(conn.View(), t), FlushOlderCache(conn.View(), t, pc.Book());
      assert conn.list != [] ==> conn.list[0].Holds(conn.vals[0]);
      while conn.first != null && conn.first.seen < t
        invariant Good(pc, conn) && !conn.closed && Moved(pc, conn) && PoolKept(conn)
        invariant conn.list != [] ==> conn.list[0].Holds(conn.vals[0])
        invariant Reassembly.FlushOlder(conn.View(), t) == all && FlushOlderCache(conn.View(), t, pc.Book()) == book
        invariant if flushed then Due(old(conn.View()), Expire(t)) else conn.View() == old(conn.View())
        decreases |conn.list|
      {
        SkipFlush(conn);
        flushed := true;
        if conn.closed { return; }
        assert conn.list != [] ==> conn.list[0].Holds(conn.vals[0]);
      }
      if conn.first == null && conn.lastSeen < t {
        flushed := true;
        CloseConnection(conn);
      }
    }

    /** FlushAll on one connection. */
    method FlushAll(conn: Connection)
      requires Good(pc, conn) && !conn.closed
      modifies this`ret, pc, conn`nextSeq, conn`first, conn`last, conn`pages, conn`list, conn`vals, conn`out, conn`closed,
        connPool, Footprint(pc, conn)
      ensures Sound(conn) && Moved(pc, conn) && PoolKept(conn) && conn.closed
      ensures conn.View() == Reassembly.FlushAll(old(conn.View()))
      ensures pc.Book() == FlushAllCache(old(conn.View()), old(pc.Book()))
    {
      ghost var all, book := Reassembly.FlushAll(conn.View()), FlushAllCache(conn.View(), pc.Book());
      while !conn.closed
        invariant Sound(conn) && Moved(pc, conn) && PoolKept(conn)
        invariant if conn.closed then conn.View() == all else Reassembly.FlushAll(conn.View()) == all
        invariant if conn.closed then pc.Book() == book else FlushAllCache(conn.View(), pc.Book()) == book
        decreases !conn.closed, |conn.list|
      {
        SkipFlush(conn);
      }
    }

    // ---- a packet ----

    /** Nothing is to be sent yet, and the packet's time is noted. */
    method See(conn: Connection, ts: int)
      requires Good(pc, conn)
      modifies this`ret, conn`lastSeen
      ensures Good(pc, conn) && Moved(pc, conn) && ret == []
      ensures conn.lastSeen == if old(conn.lastSeen) < ts then ts else old(conn.lastSeen)
    {
      ret := [];
      if conn.lastSeen < ts {
        conn.lastSeen := ts;
      }
    }

    method SetNext(conn: Connection, next: NextSeq)
      requires Good(pc, conn)
      modifies conn`nextSeq
      ensures Good(pc, conn) && conn.nextSeq == next
    {
      conn.nextSeq := next;
    }

    /** The first packet's number and bytes. */
    method Start(conn: Connection, g: Segment, ts: int)
      requires Good(pc, conn) && ret == []
      modifies this`ret, conn`nextSeq
      ensures Good(pc, conn) && Moved(pc, conn)
      ensures Work(conn.View(), ret) == Work(
        old(conn.View()).(nextSeq := Add(g.seqno, |g.payload| + if g.syn then 1 else 0)), [FirstChunk(g, ts)])
    {
      var skip := 0;
      if !g.syn {
        conn.nextSeq := Add(g.seqno, |g.payload|);
        skip := -1;
      } else {
        conn.nextSeq := Add(g.seqno, |g.payload| + 1);
      }
      ret := ret + [Chunk(g.payload, skip, g.syn, false, ts)];
    }

    /** The first packet of a stream. */
    method TakeFirst(conn: Connection, g: Segment, ts: int) returns (ghost stale: seq<Flags>)
      requires Good(pc, conn) && conn.nextSeq == INVALID_SEQUENCE && conn.vals == [] && ret == []
      modifies this`ret, pc, conn`nextSeq, conn`first, conn`last, conn`pages, conn`list, conn`vals, Footprint(pc, conn)
      ensures Good(pc, conn) && Kept(pc, conn) && |stale| == PageCount(|g.payload|)
      ensures Work(conn.View(), ret) == Taken(options, old(conn.View()), g, ts, stale, old(pc.used))
      ensures stale == Stale(old(pc.Book()), |g.payload|)
      ensures pc.Book() == TakenCache(options, old(conn.View()), g, ts, old(pc.Book()), old(pc.used))
    {
      Start(conn, g, ts);
      stale := InsertIntoConn(g, conn, ts);
    }

    /** A packet with bytes missing before it. */
    method TakeAhead(conn: Connection, g: Segment, ts: int) returns (ghost stale: seq<Flags>)
      requires Good(pc, conn) && conn.nextSeq != INVALID_SEQUENCE && Difference(conn.nextSeq, g.seqno) > 0 && ret == []
      requires conn.vals != [] ==> conn.vals[0].seqno != conn.nextSeq
      modifies this`ret, pc, conn`nextSeq, conn`first, conn`last, conn`pages, conn`list, conn`vals, Footprint(pc, conn)
      ensures Good(pc, conn) && Kept(pc, conn) && |stale| == PageCount(|g.payload|)
      ensures Work(conn.View(), ret) == Taken(options, old(conn.View()), g, ts, stale, old(pc.used))
      ensures stale == Stale(old(pc.Book()), |g.payload|)
      ensures pc.Book() == TakenCache(options, old(conn.View()), g, ts, old(pc.Book()), old(pc.used))
    {
      stale := InsertIntoConn(g, conn, ts);
    }

    /** A packet that starts no later than what is expected. */
    method TakeNext(conn: Connection, g: Segment, ts: int) returns (ghost stale: seq<Flags>)
      requires Good(pc, conn) && conn.nextSeq != INVALID_SEQUENCE && Difference(conn.nextSeq, g.seqno) <= 0 && ret == []
      modifies this`ret, conn`nextSeq
      ensures Good(pc, conn) && |stale| == PageCount(|g.payload|)
      ensures Work(conn.View(), ret) == Taken(options, old(conn.View()), g, ts, stale, pc.used)
      ensures stale == Stale(pc.Book(), |g.payload|)
      ensures pc.Book() == TakenCache(options, old(conn.View()), g, ts, pc.Book(), pc.used)
    {
      var (bytes, next) := ByteSpan(conn.nextSeq, g.seqno, g.payload);
      SetNext(conn, next);
      ret := ret + [Chunk(bytes, 0, false, g.End(), ts)];
      stale := Stale(pc.Book(), |g.payload|);
    }

    /** Up to sendToConnection: what is to be sent is in `ret`. */
    method TakePacket(conn: Connection, g: Segment, ts: int) returns (ghost stale: seq<Flags>)
      requires Good(pc, conn) && !conn.closed && Settled(conn.View()) && ret == []
      modifies this`ret, pc, conn`nextSeq, conn`first, conn`last, conn`pages, conn`list, conn`vals, Footprint(pc, conn)
      ensures Good(pc, conn) && Kept(pc, conn) && |stale| == PageCount(|g.payload|)
      ensures Work(conn.View(), ret) == Taken(options, old(conn.View()), g, ts, stale, old(pc.used))
      ensures stale == Stale(old(pc.Book()), |g.payload|)
      ensures pc.Book() == TakenCache(options, old(conn.View()), g, ts, old(pc.Book()), old(pc.used))
    {
      if conn.nextSeq == INVALID_SEQUENCE {
        stale := TakeFirst(conn, g, ts);
      } else if Difference(conn.nextSeq, g.seqno) > 0 {
        stale := TakeAhead(conn, g, ts);
      } else {
        stale := TakeNext(conn, g, ts);
      }
    }

    method SeeAndTake(conn: Connection, g: Segment, ts: int) returns (ghost stale: seq<Flags>)
      requires Good(pc, conn) && !conn.closed && Settled(conn.View())
      modifies this`ret, pc, conn`nextSeq, conn`first, conn`last, conn`pages, conn`list, conn`vals, conn`lastSeen,
        Footprint(pc, conn)
      ensures Good(pc, conn) && Kept(pc, conn) && |stale| == PageCount(|g.payload|)
      ensures var c := old(conn.View()).(lastSeen := if old(conn.lastSeen) < ts then ts else old(conn.lastSeen));
              && Work(conn.View(), ret) == Taken(options, c, g, ts, stale, old(pc.used))
              && stale == Stale(old(pc.Book()), |g.payload|)
              && pc.Book() == TakenCache(options, c, g, ts, old(pc.Book()), old(pc.used))
    {
      See(conn, ts);
      stale := TakePacket(conn, g, ts);
    }

    method SendIfAny(conn: Connection)
      requires Good(pc, conn) && !conn.closed
      modifies this`ret, pc, conn`nextSeq, conn`first, conn`last, conn`pages, conn`list, conn`vals, conn`out, conn`closed,
        connPool, Footprint(pc, conn)
      ensures Sound(conn) && Moved(pc, conn) && PoolKept(conn)
      ensures conn.View() == Sent(old(Work(conn.View(), ret)))
      ensures pc.Book() == SentCache(old(Work(conn.View(), ret)), old(pc.Book()))
    {
      if |ret| > 0 {
        SendToConnection(conn);
      }
    }

    /** AssembleWithTimestamp on an open connection. */
    method Receive(conn: Connection, g: Segment, ts: int) returns (ghost stale: seq<Flags>)
      requires Good(pc, conn) && !conn.closed && Settled(conn.View())
      modifies this`ret, pc, conn`nextSeq, conn`first, conn`last, conn`pages, conn`list, conn`vals, conn`out, conn`closed,
        conn`lastSeen, connPool, Footprint(pc, conn)
      ensures Sound(conn) && Kept(pc, conn) && PoolKept(conn) && |stale| == PageCount(|g.payload|)
      ensures conn.View() == Reassembly.Receive(options, old(conn.View()), g, ts, stale, old(pc.used))
      ensures stale == Stale(old(pc.Book()), |g.payload|)
      ensures pc.Book() == ReceiveCache(options, old(conn.View()), g, ts, old(pc.Book()), old(pc.used))
    {
      stale := SeeAndTake(conn, g, ts);
      ghost var pages := Footprint(pc, conn);
      assert old(Footprint(pc, conn)) <= pages && fresh(pages - old(Footprint(pc, conn)));
      SendIfAny(conn);
      assert Footprint(pc, conn) == pages;
    }
  }
}
