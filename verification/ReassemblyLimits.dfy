/** What holds of a connection whatever sequence numbers arrive: nothing that could be sent is
    kept, so the panic in insertIntoConn is out of reach, and the page limits hold. */
module ReassemblyLimits {
  import opened Sequence
  import opened Reassembly

  /** The first buffered page does not follow on what was delivered. */
  predicate Settled(c: Conn) {
    !c.closed ==> !Contiguous(c) && (c.nextSeq == INVALID_SEQUENCE ==> c.pages == [])
  }

  predicate Started(w: Work) {
    w.conn.nextSeq != INVALID_SEQUENCE
  }

  lemma {:induction false} AddContiguousStarted(w: Work)
    requires Started(w)
    ensures Started(AddContiguous(w)) && !Contiguous(AddContiguous(w).conn)
    decreases |w.conn.pages|
  {
    if Contiguous(w.conn) { AddContiguousStarted(PopFirst(w)); }
  }

  lemma SendSettled(w: Work)
    requires Started(w)
    ensures Settled(Send(w))
  {
    AddContiguousStarted(w);
  }

  lemma SplicedFirst(c: Conn, run: seq<PageVal>, seqno: SeqNo)
    requires Settled(c) && !c.closed && c.nextSeq != INVALID_SEQUENCE && run != [] && run[0].seqno == seqno
    requires Difference(c.nextSeq, seqno) > 0
    ensures !Contiguous(c.(pages := Spliced(c.pages, run, seqno)))
  {
  }

  lemma FirstTaken(o: Options, c: Conn, g: Segment, seen: int, stale: seq<Flags>, used: nat)
    requires c.nextSeq == INVALID_SEQUENCE && |stale| == PageCount(|g.payload|)
    ensures var w := Taken(o, c, g, seen, stale, used); Started(w) && w.ret != []
  {
  }

  lemma LaterTaken(o: Options, c: Conn, g: Segment, seen: int, stale: seq<Flags>, used: nat)
    requires Settled(c) && !c.closed && c.nextSeq != INVALID_SEQUENCE && |stale| == PageCount(|g.payload|)
    requires Difference(c.nextSeq, g.seqno) > 0
    ensures var w := Taken(o, c, g, seen, stale, used); Started(w) && (w.ret == [] ==> Settled(w.conn))
  {
    SplicedFirst(c, PagesFrom(g.seqno, g.payload, g.End(), seen, stale), g.seqno);
  }

  lemma NextTaken(o: Options, c: Conn, g: Segment, seen: int, stale: seq<Flags>, used: nat)
    requires c.nextSeq != INVALID_SEQUENCE && |stale| == PageCount(|g.payload|)
    requires Difference(c.nextSeq, g.seqno) <= 0
    ensures var w := Taken(o, c, g, seen, stale, used); Started(w) && w.ret != []
  {
  }

  /** The numbers may be anything, and so may the pages' flags. */
  lemma ReceiveSettled(o: Options, c: Conn, g: Segment, seen: int, stale: seq<Flags>, used: nat)
    requires Settled(c) && !c.closed && |stale| == PageCount(|g.payload|)
    ensures Settled(Receive(o, c, g, seen, stale, used))
  {
    var c := c.(lastSeen := if c.lastSeen < seen then seen else c.lastSeen);
    if c.nextSeq == INVALID_SEQUENCE {
      FirstTaken(o, c, g, seen, stale, used);
    } else if Difference(c.nextSeq, g.seqno) > 0 {
      LaterTaken(o, c, g, seen, stale, used);
    } else {
      NextTaken(o, c, g, seen, stale, used);
    }
    SendSettled(Taken(o, c, g, seen, stale, used));
  }

  lemma SkipFlushSettled(c: Conn)
    requires Settled(c) && !c.closed
    ensures Settled(SkipFlush(c))
  {
    if c.pages != [] {
      var w := PopFirst(Work(c, []));
      AddContiguousStarted(w);
      SendSettled(AddContiguous(w));
    }
  }

  lemma {:induction false} FlushOlderSettled(c: Conn, t: int)
    requires Settled(c) && !c.closed
    ensures Settled(FlushOlder(c, t))
    decreases |c.pages|
  {
    if c.pages != [] && c.pages[0].seen < t {
      SkipFlushSettled(c);
      if !SkipFlush(c).closed { FlushOlderSettled(SkipFlush(c), t); }
    }
  }

  lemma {:induction false} FlushAllSettled(c: Conn)
    requires Settled(c) && !c.closed
    ensures Settled(FlushAll(c))
    decreases |c.pages|
  {
    SkipFlushSettled(c);
    if !SkipFlush(c).closed && c.pages != [] { FlushAllSettled(SkipFlush(c)); }
  }

  lemma HandleSettled(o: Options, c: Conn, e: Event)
    requires Settled(c) && EventOk(e)
    ensures Settled(Handle(o, c, e))
  {
    if !c.closed {
      match e
      case Packet(g, seen, stale, used) => if !g.Empty() { ReceiveSettled(o, c, g, seen, stale, used); }
      case Older(t) => FlushOlderSettled(c, t);
      case All => FlushAllSettled(c);
    }
  }

  /** Whatever has happened to a connection, when a segment is buffered the first page is not
      numbered nextSeq. */
  lemma {:induction false} NoPanic(o: Options, lastSeen: int, es: seq<Event>)
    requires forall e <- es :: EventOk(e)
    ensures var c := Run(o, NewConn(lastSeen), es);
            Settled(c) && (!c.closed && c.pages != [] ==> c.pages[0].seqno != c.nextSeq)
  {
    if es != [] {
      NoPanic(o, lastSeen, es[..|es| - 1]);
      HandleSettled(o, Run(o, NewConn(lastSeen), es[..|es| - 1]), es[|es| - 1]);
    }
  }

  // ---- page limits ----

  /** Fewer pages than either limit that is set. */
  predicate Within(o: Options, connPages: int, used: int) {
    (o.maxPerConn > 0 ==> connPages < o.maxPerConn) && (o.maxTotal > 0 ==> used < o.maxTotal)
  }

  lemma SendShrinks(w: Work)
    ensures |Send(w).pages| <= |w.conn.pages|
  {
    AddContiguousShrinks(w);
  }

  /** A segment of one page leaves a connection within the limits that it was within: of its own
      pages, and of the pages in use, to which it adds the change in its own. */
  lemma LimitsHold(o: Options, c: Conn, g: Segment, seen: int, stale: seq<Flags>, used: nat)
    requires |g.payload| <= PAGE_BYTES && |stale| == PageCount(|g.payload|)
    requires Within(o, |c.pages|, used)
    ensures var c' := Receive(o, c, g, seen, stale, used);
            Within(o, |c'.pages|, used + |c'.pages| - |c.pages|)
  {
    var run := PagesFrom(g.seqno, g.payload, g.End(), seen, stale);
    assert |run| == 1 && |Spliced(c.pages, run, g.seqno)| == |c.pages| + 1;
    var c0 := c.(lastSeen := if c.lastSeen < seen then seen else c.lastSeen);
    if c.nextSeq == INVALID_SEQUENCE {
      var next := Add(g.seqno, |g.payload| + if g.syn then 1 else 0);
      SendShrinks(Insert(o, Work(c0.(nextSeq := next), [FirstChunk(g, seen)]), g, seen, stale, used));
    } else if Difference(c.nextSeq, g.seqno) > 0 {
      SendShrinks(Insert(o, Work(c0, []), g, seen, stale, used));
    } else {
      var (bytes, next) := ByteSpan(c.nextSeq, g.seqno, g.payload);
      SendShrinks(Work(c0.(nextSeq := next), [Chunk(bytes, 0, false, g.End(), seen)]));
    }
  }
}
