/** When an announced gap is one: the Skip that a recycled page carries over. */
module Leftovers {
  import opened Bytes
  import opened Sequence
  import opened Reassembly
  import opened ReassemblySafety
  import opened Recycling

  // ---- nothing forced ----

  /** The event pushes no page out before the bytes it waits for. */
  predicate Patient(o: Options, c: Conn, e: Event) {
    match e
    case Packet(g, _, _, used) =>
      || g.Empty()
      || (c.nextSeq != INVALID_SEQUENCE && Difference(c.nextSeq, g.seqno) <= 0)
      || !ForcedInsert(o, c, g, used)
    case Older(t) => c.pages == [] || c.pages[0].seen >= t
    case All => c.pages == []
  }

  ghost predicate PatientAlong(o: Options, p: Pool, hs: seq<Happening>)
    requires p.cache.pcSize > 0
  {
    hs == [] ||
    (var h, before := hs[|hs| - 1], Steps(o, p, hs[..|hs| - 1]);
     && PatientAlong(o, p, hs[..|hs| - 1])
     && (Concerns(before, h) ==> Patient(o, ConnOf(before, h), EventOf(h.act, before.cache, h.used))))
  }

  // ---- then no gap is announced ----

  predicate NoPageSkips(ps: seq<PageVal>) {
    forall p <- ps :: p.skip == 0
  }

  /** No chunk announces a gap, but that a stream picked up `midway` starts with one of unknown
      size. */
  predicate NoChunkSkips(midway: bool, cs: seq<Chunk>) {
    forall i: nat :: i < |cs| ==> cs[i].skip == 0 || (midway && i == 0 && cs[0].skip == -1 && !cs[0].start)
  }

  predicate NoStaleSkips(fs: seq<Flags>) {
    forall f <- fs :: f.skip == 0
  }

  predicate Gapless(midway: bool, w: Work) {
    NoPageSkips(w.conn.pages) && NoChunkSkips(midway, AllChunks(w)) && w.conn.nextSeq != INVALID_SEQUENCE
  }

  lemma PopGapless(midway: bool, w: Work)
    requires Gapless(midway, w) && Contiguous(w.conn) && AllChunks(w) != []
    ensures Gapless(midway, PopFirst(w)) && AllChunks(PopFirst(w)) != [] && PopSkip(w.conn.nextSeq, w.conn.pages[0]) == 0
  {
    assert w.conn.pages[0] in w.conn.pages;
    assert AllChunks(PopFirst(w)) == AllChunks(w) + [Popped(w.conn.nextSeq, w.conn.pages[0])];
  }

  lemma {:induction false} AddContiguousGapless(midway: bool, w: Work, k: Cache)
    requires Gapless(midway, w) && AllChunks(w) != [] && NoStaleSkips(k.left)
    ensures Gapless(midway, AddContiguous(w)) && AllChunks(AddContiguous(w)) != []
    ensures NoStaleSkips(AddContiguousCache(w, k).left)
    decreases |w.conn.pages|
  {
    if Contiguous(w.conn) {
      PopGapless(midway, w);
      AddContiguousGapless(midway, PopFirst(w), PopCache(w.conn, k));
    }
  }

  lemma {:induction false} PutPagesClean(k: Cache, ps: seq<PageVal>)
    requires NoStaleSkips(k.left) && NoPageSkips(ps)
    ensures NoStaleSkips(PutPages(k, ps).left)
  {
    if ps != [] {
      assert ps[|ps| - 1] in ps;
      PutPagesClean(k, ps[..|ps| - 1]);
    }
  }

  /** An open connection as it is between two events. */
  predicate GaplessConn(midway: bool, c: Conn) {
    if c.nextSeq == INVALID_SEQUENCE then c.pages == [] && c.out == []
    else c.out != [] && NoPageSkips(c.pages) && NoChunkSkips(midway, c.out)
  }

  lemma SentGapless(midway: bool, w: Work, k: Cache)
    requires Gapless(midway, w) && AllChunks(w) != [] && NoStaleSkips(k.left)
    ensures GaplessConn(midway, Sent(w)) && Sent(w).nextSeq != INVALID_SEQUENCE && NoStaleSkips(SentCache(w, k).left)
  {
    if w.ret == [] {
      assert AllChunks(w) == w.conn.out;
    } else {
      AddContiguousGapless(midway, w, k);
      PutPagesClean(AddContiguousCache(w, k), AddContiguous(w).conn.pages);
    }
  }

  lemma {:induction false} PagesGapless(seqno: SeqNo, payload: seq<Byte>, end: bool, seen: int, stale: seq<Flags>)
    requires |stale| == PageCount(|payload|) && NoStaleSkips(stale)
    ensures NoPageSkips(PagesFrom(seqno, payload, end, seen, stale))
    decreases |payload|
  {
    assert stale[0] in stale;
    if |payload| > PAGE_BYTES {
      PagesGapless(Add(seqno, PAGE_BYTES), payload[PAGE_BYTES..], end, seen, stale[1..]);
    }
  }

  lemma {:induction false} TakePagesClean(k: Cache, n: nat)
    requires k.pcSize > 0 && NoStaleSkips(k.left)
    ensures NoStaleSkips(TakePages(k, n).0) && NoStaleSkips(TakePages(k, n).1.left)
  {
    if n > 0 {
      TakePagesClean(k, n - 1);
      TakeClean(TakePages(k, n - 1).1);
    }
  }

  lemma TakeClean(k: Cache)
    requires k.pcSize > 0 && NoStaleSkips(k.left)
    ensures Take(k).0.skip == 0 && NoStaleSkips(Take(k).1.left)
  {
    var k' := if k.left == [] then Grown(k) else k;
    assert NoStaleSkips(k'.left);
    assert k'.left[|k'.left| - 1] in k'.left;
  }

  lemma InsertGapless(midway: bool, o: Options, w: Work, g: Segment, seen: int, stale: seq<Flags>, used: nat)
    requires Gapless(midway, w) && |stale| == PageCount(|g.payload|) && NoStaleSkips(stale)
    requires !ForcedInsert(o, w.conn, g, used)
    ensures Gapless(midway, Insert(o, w, g, seen, stale, used)) && Insert(o, w, g, seen, stale, used).ret == w.ret
    ensures Insert(o, w, g, seen, stale, used).conn.out == w.conn.out
  {
    PagesGapless(g.seqno, g.payload, g.End(), seen, stale);
    ForcedMeansLimit(o, w.conn, g, used);
    var w' := Insert(o, w, g, seen, stale, used);
    assert AllChunks(w') == AllChunks(w);
  }

  /** The packet is not ahead of what is expected, or the limits leave it waiting. */
  predicate PatientPacket(o: Options, c: Conn, g: Segment, used: nat) {
    (c.nextSeq != INVALID_SEQUENCE && Difference(c.nextSeq, g.seqno) <= 0) || !ForcedInsert(o, c, g, used)
  }

  lemma FirstGapless(midway: bool, o: Options, c: Conn, g: Segment, seen: int, stale: seq<Flags>, used: nat)
    requires |stale| == PageCount(|g.payload|) && NoStaleSkips(stale) && GaplessConn(midway, c)
    requires c.nextSeq == INVALID_SEQUENCE && PatientPacket(o, c, g, used) && (g.syn || midway)
    ensures var w := Taken(o, c, g, seen, stale, used); Gapless(midway, w) && AllChunks(w) != []
  {
    var w := Work(c.(nextSeq := Add(g.seqno, |g.payload| + if g.syn then 1 else 0)), [FirstChunk(g, seen)]);
    assert AllChunks(w) == [FirstChunk(g, seen)];
    InsertGapless(midway, o, w, g, seen, stale, used);
  }

  lemma LaterGapless(midway: bool, o: Options, c: Conn, g: Segment, seen: int, stale: seq<Flags>, used: nat)
    requires |stale| == PageCount(|g.payload|) && NoStaleSkips(stale) && GaplessConn(midway, c)
    requires c.nextSeq != INVALID_SEQUENCE && PatientPacket(o, c, g, used)
    ensures var w := Taken(o, c, g, seen, stale, used); Gapless(midway, w) && AllChunks(w) != []
  {
    assert AllChunks(Work(c, [])) == c.out;
    if Difference(c.nextSeq, g.seqno) > 0 { InsertGapless(midway, o, Work(c, []), g, seen, stale, used); }
  }

  lemma ReceiveGapless(midway: bool, o: Options, c: Conn, g: Segment, seen: int, stale: seq<Flags>, used: nat)
    requires |stale| == PageCount(|g.payload|) && NoStaleSkips(stale) && GaplessConn(midway, c) && PatientPacket(o, c, g, used)
    requires c.nextSeq == INVALID_SEQUENCE ==> g.syn || midway
    ensures var c' := Receive(o, c, g, seen, stale, used); GaplessConn(midway, c') && c'.nextSeq != INVALID_SEQUENCE
  {
    var c1 := c.(lastSeen := if c.lastSeen < seen then seen else c.lastSeen);
    if c.nextSeq == INVALID_SEQUENCE {
      FirstGapless(midway, o, c1, g, seen, stale, used);
    } else {
      LaterGapless(midway, o, c1, g, seen, stale, used);
    }
    SentGapless(midway, Taken(o, c1, g, seen, stale, used), Cache([], 1));
  }

  // ---- and the cache stays clean ----

  lemma TakenCacheClean(o: Options, c: Conn, g: Segment, seen: int, k: Cache, used: nat)
    requires k.pcSize > 0 && NoStaleSkips(k.left) && PatientPacket(o, c, g, used)
    ensures NoStaleSkips(TakenCache(o, c, g, seen, k, used).left) && NoStaleSkips(Stale(k, |g.payload|))
  {
    ForcedMeansLimit(o, c, g, used);
    TakePagesClean(k, PageCount(|g.payload|));
  }

  lemma ReceiveCacheClean(midway: bool, o: Options, c: Conn, g: Segment, seen: int, k: Cache, used: nat)
    requires k.pcSize > 0 && NoStaleSkips(k.left) && GaplessConn(midway, c) && PatientPacket(o, c, g, used)
    requires c.nextSeq == INVALID_SEQUENCE ==> g.syn || midway
    ensures NoStaleSkips(ReceiveCache(o, c, g, seen, k, used).left) && NoStaleSkips(Stale(k, |g.payload|))
  {
    var c1 := c.(lastSeen := if c.lastSeen < seen then seen else c.lastSeen);
    var stale := Stale(k, |g.payload|);
    TakenCacheClean(o, c1, g, seen, k, used);
    if c.nextSeq == INVALID_SEQUENCE {
      FirstGapless(midway, o, c1, g, seen, stale, used);
    } else {
      LaterGapless(midway, o, c1, g, seen, stale, used);
    }
    SentGapless(midway, Taken(o, c1, g, seen, stale, used), TakenCache(o, c1, g, seen, k, used));
  }

  lemma HandleGapless(midway: bool, o: Options, c: Conn, act: Action, k: Cache, used: nat)
    requires k.pcSize > 0 && NoStaleSkips(k.left) && GaplessConn(midway, c) && !c.closed
    requires Patient(o, c, EventOf(act, k, used))
    requires c.nextSeq == INVALID_SEQUENCE && act.Arrives? ==> act.g.syn || midway
    ensures GaplessConn(midway, Handle(o, c, EventOf(act, k, used))) && NoStaleSkips(HandleCache(o, c, act, k, used).left)
  {
    match act
    case Arrives(g, ts) =>
      if !g.Empty() {
        ReceiveCacheClean(midway, o, c, g, ts, k, used);
        ReceiveGapless(midway, o, c, g, ts, Stale(k, |g.payload|), used);
      }
    case Expire(t) =>
    case FlushEverything =>
  }

  // ---- whole lives of an assembler ----

  predicate GaplessPool(p: Pool) {
    && p.cache.pcSize > 0 && NoStaleSkips(p.cache.left)
    && (forall key <- p.open :: !p.open[key].closed && GaplessConn(true, p.open[key]))
    && (forall c <- p.closed :: GaplessConn(true, c))
  }

  lemma StepGapless(o: Options, p: Pool, h: Happening)
    requires GaplessPool(p)
    requires Concerns(p, h) ==> Patient(o, ConnOf(p, h), EventOf(h.act, p.cache, h.used))
    ensures GaplessPool(Step(o, p, h))
  {
    if Concerns(p, h) { HandleGapless(true, o, ConnOf(p, h), h.act, p.cache, h.used); }
  }

  /** Nothing forced, no gap announced: over any life of an assembler that starts with a new
      cache, with any number of connections sharing it, as long as no flush or limit pushes a
      page out before its turn, the only gap ever announced is that at the start of a stream
      picked up midway. */
  lemma {:induction false} NothingForcedNoGap(o: Options, initialAllocSize: nat, hs: seq<Happening>)
    requires initialAllocSize > 0 && PatientAlong(o, NewPool(initialAllocSize), hs)
    ensures var p := Steps(o, NewPool(initialAllocSize), hs);
            && GaplessPool(p)
            && (forall key <- p.open :: NoChunkSkips(true, p.open[key].out)) && forall c <- p.closed :: NoChunkSkips(true, c.out)
  {
    if hs != [] {
      NothingForcedNoGap(o, initialAllocSize, hs[..|hs| - 1]);
      StepGapless(o, Steps(o, NewPool(initialAllocSize), hs[..|hs| - 1]), hs[|hs| - 1]);
    }
  }

  // ---- otherwise a gap may be announced that is none ----

  const FREE: Options := Options(0, 0)

  function Bare(seqno: SeqNo, payload: seq<Byte>, syn: bool): Segment {
    Segment(seqno, payload, syn, false, false)
  }

  /** One open connection, and a cache whose next page carries `skip`. */
  predicate Alone(p: Pool, c: Conn, skip: int) {
    && p.open == map[0 := c] && !c.closed && p.cache.pcSize > 0
    && p.cache.left != [] && p.cache.left[|p.cache.left| - 1] == Flags(skip, false)
  }

  function At(act: Action): Happening {
    Happening(0, 0, act, 0)
  }

  lemma TakeTop(k: Cache, f: Flags)
    requires k.pcSize > 0 && k.left != [] && k.left[|k.left| - 1] == f
    ensures Take(k) == (f, k.(left := k.left[..|k.left| - 1])) && TakePages(k, 1) == ([f], Take(k).1)
    ensures Stale(k, 0) == [f] && Stale(k, 1) == [f]
  {
    assert [] + [f] == [f];
  }

  /** A SYN opens the connection; its page comes back as it was taken. */
  lemma SynAlone(initialAllocSize: nat) returns (c: Conn)
    requires initialAllocSize > 0
    ensures Alone(Step(FREE, NewPool(initialAllocSize), At(Arrives(Bare(0, [], true), 0))), c, 0)
    ensures c.nextSeq == 1 && c.pages == [] && |c.out| == 2 && c.lastSeen == 0
  {
    var p := NewPool(initialAllocSize);
    TakeTop(p.cache, CLEAN);
    var w := Work(Conn(1, [PageVal(0, [], 0, false, 0)], 0, false, []), [FirstChunk(Bare(0, [], true), 0)]);
    assert Taken(FREE, NewConn(0), Bare(0, [], true), 0, [CLEAN], 0) == w;
    assert w.conn.pages[1..] == [];
    assert AddContiguous(w) == PopFirst(w) && AddContiguousCache(w, Take(p.cache).1) == PopCache(w.conn, Take(p.cache).1);
    c := Handle(FREE, NewConn(0), EventOf(Arrives(Bare(0, [], true), 0), p.cache, 0));
  }

  function Byte1(b: Byte, skip: int, seen: int): Chunk {
    Chunk([b], skip, false, false, seen)
  }

  function Later(c: Conn, seen: int): Conn {
    c.(lastSeen := if c.lastSeen < seen then seen else c.lastSeen)
  }

  /** A byte that has to wait goes into a page that carries `skip`. */
  lemma WaitAlone(p: Pool, c: Conn, skip: int, seqno: SeqNo, b: Byte, seen: int)
    requires Alone(p, c, skip) && c.pages == [] && c.nextSeq != INVALID_SEQUENCE && Difference(c.nextSeq, seqno) > 0
    ensures var p' := Step(FREE, p, At(Arrives(Bare(seqno, [b], false), seen)));
            && p'.open == map[0 := Later(c, seen).(pages := [PageVal(seqno, [b], skip, false, seen)])]
            && p'.cache.pcSize > 0
  {
    TakeTop(p.cache, Flags(skip, false));
    var g, c1 := Bare(seqno, [b], false), Later(c, seen);
    var run := PagesFrom(seqno, [b], false, seen, [Flags(skip, false)]);
    assert run == [PageVal(seqno, [b], skip, false, seen)];
    assert Spliced([], run, seqno) == run;
    assert Taken(FREE, c1, g, seen, [Flags(skip, false)], 0) == Work(c1.(pages := run), []);
  }

  /** The next byte, with a page waiting beyond a gap. */
  lemma NextAlone(p: Pool, c: Conn, b: Byte, seen: int)
    requires p.open == map[0 := c] && !c.closed && p.cache.pcSize > 0 && |c.pages| == 1
    requires 1 <= c.nextSeq < UINT32_MAX && Difference(c.nextSeq + 1, c.pages[0].seqno) > 0
    ensures var p' := Step(FREE, p, At(Arrives(Bare(c.nextSeq, [b], false), seen)));
            && p'.open == map[0 := Later(c, seen).(nextSeq := c.nextSeq + 1, out := c.out + [Byte1(b, 0, seen)])]
            && p'.cache == p.cache
  {
    AddSmall(c.nextSeq, 1);
    var g, c1 := Bare(c.nextSeq, [b], false), Later(c, seen);
    var w := Work(c1.(nextSeq := c.nextSeq + 1), [Byte1(b, 0, seen)]);
    assert Taken(FREE, c1, g, seen, Stale(p.cache, 1), 0) == w;
    assert AddContiguous(w) == w;
  }

  /** The page waiting is forced out: its gap stays behind in the page. */
  lemma FlushAlone(p: Pool, c: Conn, page: PageVal, t: int)
    requires p.open == map[0 := c] && !c.closed && p.cache.pcSize > 0 && c.pages == [page] && c.nextSeq != INVALID_SEQUENCE
    requires !page.end && page.seen < t <= c.lastSeen && |page.bytes| == 1 && page.seqno < UINT32_MAX
    requires Near(c.nextSeq, page.seqno) && c.nextSeq < page.seqno
    ensures var p', gap := Step(FREE, p, At(Expire(t))), page.seqno - c.nextSeq;
            Alone(p', c.(pages := [], nextSeq := page.seqno + 1, out := c.out + [Byte1(page.bytes[0], gap, page.seen)]), gap)
  {
    AddSmall(page.seqno, 1);
    var gap := page.seqno - c.nextSeq;
    var w := PopFirst(Work(c, []));
    DifferenceIsAntisymmetric(c.nextSeq, page.seqno);
    assert page.bytes == [page.bytes[0]];
    assert w == Work(c.(pages := [], nextSeq := page.seqno + 1), [Byte1(page.bytes[0], gap, page.seen)]);
    assert AddContiguous(w) == w && AddContiguousCache(w, PopCache(c, p.cache)) == PopCache(c, p.cache);
    assert Send(w) == Delivered(w) && SendCache(w, PopCache(c, p.cache)) == PopCache(c, p.cache);
    var c' := w.conn.(out := c.out + w.ret);
    assert SkipFlush(c) == c' && SkipFlushCache(c, p.cache) == PopCache(c, p.cache);
    assert FlushOlder(c', t) == c' && FlushOlderCache(c', t, PopCache(c, p.cache)) == PopCache(c, p.cache);
  }

  /** The byte that was waited for: the page behind it announces the gap it carries. */
  lemma FillAlone(p: Pool, c: Conn, page: PageVal, b: Byte, seen: int)
    requires p.open == map[0 := c] && !c.closed && p.cache.pcSize > 0 && c.pages == [page]
    requires 1 <= c.nextSeq && c.nextSeq + 1 == page.seqno < UINT32_MAX && |page.bytes| == 1 && !page.end
    ensures var p' := Step(FREE, p, At(Arrives(Bare(c.nextSeq, [b], false), seen)));
            p'.open == map[0 := Later(c, seen).(nextSeq := c.nextSeq + 2, pages := [],
              out := c.out + [Byte1(b, 0, seen), Byte1(page.bytes[0], page.skip, page.seen)])]
  {
    AddSmall(c.nextSeq, 1);
    AddSmall(c.nextSeq + 1, 1);
    var g, c1 := Bare(c.nextSeq, [b], false), Later(c, seen);
    var w := Work(c1.(nextSeq := c.nextSeq + 1), [Byte1(b, 0, seen)]);
    assert Taken(FREE, c1, g, seen, Stale(p.cache, 1), 0) == w;
    assert page.bytes == [page.bytes[0]];
    assert PopFirst(w) == Work(w.conn.(nextSeq := c.nextSeq + 2, pages := []),
                               [Byte1(b, 0, seen), Byte1(page.bytes[0], page.skip, page.seen)]);
    assert AddContiguous(w) == PopFirst(w);
  }

  // ---- the same, in a life that begins with a new cache ----

  function Life(n: nat, hs: seq<Happening>): Pool
    requires n > 0
  {
    Steps(FREE, NewPool(n), hs)
  }

  lemma LifeSnoc(n: nat, hs: seq<Happening>, h: Happening)
    requires n > 0
    ensures Life(n, hs + [h]) == Step(FREE, Life(n, hs), h)
  {
    assert (hs + [h])[..|hs|] == hs;
  }

  lemma LifeSyn(n: nat) returns (hs: seq<Happening>, c: Conn)
    requires n > 0
    ensures |hs| == 1 && Alone(Life(n, hs), c, 0) && c.nextSeq == 1 && c.pages == [] && c.lastSeen == 0
  {
    var h, none: seq<Happening> := At(Arrives(Bare(0, [], true), 0)), [];
    c := SynAlone(n);
    LifeSnoc(n, none, h);
    hs := none + [h];
  }

  lemma LifeWait(n: nat, hs: seq<Happening>, c: Conn, skip: int, seqno: SeqNo, b: Byte, seen: int)
    returns (hs': seq<Happening>, c': Conn)
    requires n > 0 && Alone(Life(n, hs), c, skip) && c.pages == [] && c.nextSeq != INVALID_SEQUENCE
    requires Difference(c.nextSeq, seqno) > 0
    ensures |hs'| == |hs| + 1 && Life(n, hs').open == map[0 := c']
    ensures c' == Later(c, seen).(pages := [PageVal(seqno, [b], skip, false, seen)])
  {
    var h := At(Arrives(Bare(seqno, [b], false), seen));
    WaitAlone(Life(n, hs), c, skip, seqno, b, seen);
    LifeSnoc(n, hs, h);
    hs', c' := hs + [h], Later(c, seen).(pages := [PageVal(seqno, [b], skip, false, seen)]);
  }

  lemma LifeNext(n: nat, hs: seq<Happening>, c: Conn, b: Byte, seen: int) returns (hs': seq<Happening>, c': Conn)
    requires n > 0 && Life(n, hs).open == map[0 := c] && !c.closed && |c.pages| == 1
    requires 1 <= c.nextSeq < UINT32_MAX && Difference(c.nextSeq + 1, c.pages[0].seqno) > 0
    ensures |hs'| == |hs| + 1 && Life(n, hs').open == map[0 := c']
    ensures c' == Later(c, seen).(nextSeq := c.nextSeq + 1, out := c.out + [Byte1(b, 0, seen)])
  {
    var h := At(Arrives(Bare(c.nextSeq, [b], false), seen));
    NextAlone(Life(n, hs), c, b, seen);
    LifeSnoc(n, hs, h);
    hs', c' := hs + [h], Later(c, seen).(nextSeq := c.nextSeq + 1, out := c.out + [Byte1(b, 0, seen)]);
  }

  lemma LifeFlush(n: nat, hs: seq<Happening>, c: Conn, page: PageVal, t: int) returns (hs': seq<Happening>, c': Conn)
    requires n > 0 && Life(n, hs).open == map[0 := c] && !c.closed && c.pages == [page] && c.nextSeq != INVALID_SEQUENCE
    requires !page.end && page.seen < t <= c.lastSeen && |page.bytes| == 1 && page.seqno < UINT32_MAX
    requires Near(c.nextSeq, page.seqno) && c.nextSeq < page.seqno
    ensures |hs'| == |hs| + 1 && Alone(Life(n, hs'), c', page.seqno - c.nextSeq)
    ensures c' == c.(pages := [], nextSeq := page.seqno + 1,
                     out := c.out + [Byte1(page.bytes[0], page.seqno - c.nextSeq, page.seen)])
  {
    var h := At(Expire(t));
    FlushAlone(Life(n, hs), c, page, t);
    LifeSnoc(n, hs, h);
    hs' := hs + [h];
    c' := c.(pages := [], nextSeq := page.seqno + 1,
             out := c.out + [Byte1(page.bytes[0], page.seqno - c.nextSeq, page.seen)]);
  }

  /** A gap of `gap` bytes is forced; its page, used again, announces that gap once more, where
      none is: the byte before it is delivered by the same packet. */
  lemma GapAnnouncedTwice(n: nat, gap: nat, b: Byte) returns (before: seq<Happening>, last: Happening, c: Conn, c': Conn)
    requires n > 0 && 1 <= gap && gap + 5 <= UINT32_MAX - QUARTER
    ensures Life(n, before).open == map[0 := c] && Life(n, before + [last]).open == map[0 := c']
    ensures c.nextSeq == 3 + gap && c'.nextSeq == 5 + gap
    ensures c.out != [] && c.out[|c.out| - 1] == Byte1(b, gap, 1)
    ensures c'.out == c.out + [Byte1(b, 0, 4), Byte1(b, gap, 3)]
  {
    before, c := LifeSyn(n);
    before, c := LifeWait(n, before, c, 0, 2 + gap, b, 1);
    before, c := LifeNext(n, before, c, b, 2);
    before, c := LifeFlush(n, before, c, c.pages[0], 2);
    before, c := LifeWait(n, before, c, gap, 4 + gap, b, 3);
    last := At(Arrives(Bare(c.nextSeq, [b], false), 4));
    FillAlone(Life(n, before), c, c.pages[0], b, 4);
    LifeSnoc(n, before, last);
    c' := Later(c, 4).(nextSeq := c.nextSeq + 2, pages := [], out := c.out + [Byte1(b, 0, 4), Byte1(b, gap, 3)]);
  }
}
