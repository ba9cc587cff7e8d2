/** What a packet or a flush does to an open connection, in terms of the pages: which are handed
    over, what each chunk says, and when the connection closes.  The numbers may be anything,
    and so may the pages' leftover flags. */
module ReassemblyChunks {
  import opened Bytes
  import opened Sequence
  import opened Reassembly
  import opened ReassemblySafety

  // ---- the pages of a segment ----

  /** Page i of a segment. */
  predicate PageOfSegment(p: PageVal, i: nat, last: bool, payload: seq<Byte>, end: bool, seen: int, f: Flags) {
    && (if last then 1900 * i <= |payload| <= 1900 * i + 1900 && p.bytes == payload[1900 * i..]
        else 1900 * i + 1900 <= |payload| && p.bytes == payload[1900 * i..1900 * i + 1900])
    && p.seen == seen && p.skip == f.skip && p.end == if last then end else f.end
  }

  /** Cut every 1900 bytes; the time is the packet's, the skips and the ends are left over, but
      for the end of the last page. */
  lemma {:induction false} PagesOfSegment(seqno: SeqNo, payload: seq<Byte>, end: bool, seen: int, stale: seq<Flags>)
    requires |stale| == PageCount(|payload|)
    ensures var run := PagesFrom(seqno, payload, end, seen, stale);
            forall i: nat :: i < |run| ==> PageOfSegment(run[i], i, i == |run| - 1, payload, end, seen, stale[i])
    decreases |payload|
  {
    if |payload| > PAGE_BYTES {
      var rest, run := payload[PAGE_BYTES..], PagesFrom(seqno, payload, end, seen, stale);
      PagesOfSegment(Add(seqno, PAGE_BYTES), rest, end, seen, stale[1..]);
      forall i: nat | i < |run| ensures PageOfSegment(run[i], i, i == |run| - 1, payload, end, seen, stale[i]) {
        if i > 0 { assert PageOfSegment(run[i], i - 1, i == |run| - 1, rest, end, seen, stale[1..][i - 1]); }
      }
    }
  }

  // ---- pages handed over in order ----

  function NextAfter(next: NextSeq, ps: seq<PageVal>): (r: NextSeq)
    ensures next != INVALID_SEQUENCE ==> r != INVALID_SEQUENCE
    decreases |ps|
  {
    if ps == [] then next else NextAfter(ByteSpan(next, ps[0].seqno, ps[0].bytes).1, ps[1..])
  }

  /** The chunks of the pages, one each, as nextSeq moves on. */
  function ChunksOf(next: NextSeq, ps: seq<PageVal>): (cs: seq<Chunk>)
    ensures |cs| == |ps|
    decreases |ps|
  {
    if ps == [] then []
    else [Popped(next, ps[0])] + ChunksOf(ByteSpan(next, ps[0].seqno, ps[0].bytes).1, ps[1..])
  }

  /** The chunk has the page's time and End, and of its bytes a last part. */
  predicate Carries(ch: Chunk, p: PageVal) {
    && !ch.start && ch.end == p.end && ch.seen == p.seen
    && |ch.bytes| <= |p.bytes| && ch.bytes == p.bytes[|p.bytes| - |ch.bytes|..]
  }

  lemma {:induction false} ChunksCarry(next: NextSeq, ps: seq<PageVal>)
    ensures forall i: nat :: i < |ps| ==> Carries(ChunksOf(next, ps)[i], ps[i])
    decreases |ps|
  {
    if ps != [] { ChunksCarry(ByteSpan(next, ps[0].seqno, ps[0].bytes).1, ps[1..]); }
  }

  /** The first k pages have been handed over. */
  predicate HandsOver(w: Work, k: nat, w': Work) {
    && k <= |w.conn.pages|
    && w'.conn == w.conn.(nextSeq := NextAfter(w.conn.nextSeq, w.conn.pages[..k]), pages := w.conn.pages[k..])
    && w'.ret == w.ret + ChunksOf(w.conn.nextSeq, w.conn.pages[..k])
  }

  lemma OneMore(w: Work, k: nat, w': Work)
    requires w.conn.pages != [] && HandsOver(PopFirst(w), k, w')
    ensures HandsOver(w, k + 1, w')
  {
    var ps := w.conn.pages;
    assert ps[..k + 1][0] == ps[0] && ps[..k + 1][1..] == ps[1..][..k];
  }

  lemma {:induction false} ContiguousHandsOver(w: Work) returns (k: nat)
    ensures HandsOver(w, k, AddContiguous(w)) && !Contiguous(AddContiguous(w).conn)
    ensures Contiguous(w.conn) ==> k >= 1
    decreases |w.conn.pages|
  {
    k := 0;
    if Contiguous(w.conn) {
      k := ContiguousHandsOver(PopFirst(w));
      OneMore(w, k, AddContiguous(w));
      k := k + 1;
    }
  }

  /** The stream has been handed `more`, and the connection is closed exactly if the last chunk of
      that carries an End; else `rest` is left of its pages. */
  predicate Delivers(c: Conn, c': Conn, more: seq<Chunk>, rest: seq<PageVal>) {
    && c'.out == c.out + more && c'.closed == (more != [] && more[|more| - 1].end)
    && c'.pages == if c'.closed then [] else rest
  }

  lemma SendDelivers(w: Work) returns (k: nat)
    requires !w.conn.closed
    ensures k <= |w.conn.pages|
    ensures Delivers(w.conn, Send(w), w.ret + ChunksOf(w.conn.nextSeq, w.conn.pages[..k]), w.conn.pages[k..])
    ensures Send(w).nextSeq == NextAfter(w.conn.nextSeq, w.conn.pages[..k]) && Send(w).lastSeen == w.conn.lastSeen
    ensures !Send(w).closed ==> !Contiguous(Send(w))
  {
    k := ContiguousHandsOver(w);
  }

  // ---- a packet ----

  function Noted(c: Conn, seen: int): Conn {
    c.(lastSeen := if c.lastSeen < seen then seen else c.lastSeen)
  }

  /** The list with the pages of a segment in it. */
  ghost predicate WithPagesOf(ps: seq<PageVal>, ps': seq<PageVal>, g: Segment, seen: int, stale: seq<Flags>) {
    |stale| == PageCount(|g.payload|) &&
    exists k: nat :: k <= |ps| && ps' == ps[..k] + PagesFrom(g.seqno, g.payload, g.End(), seen, stale) + ps[k..]
  }

  /** A segment that starts no later than what is expected: it is handed over, but for what has
      been delivered, and with it the pages that follow on. */
  lemma NextIsDelivered(o: Options, c: Conn, g: Segment, seen: int, stale: seq<Flags>, used: nat) returns (k: nat, bytes: seq<Byte>)
    requires !c.closed && c.nextSeq != INVALID_SEQUENCE && Difference(c.nextSeq, g.seqno) <= 0
    requires |stale| == PageCount(|g.payload|)
    ensures k <= |c.pages| && |bytes| <= |g.payload| && bytes == g.payload[|g.payload| - |bytes|..]
    ensures var c', next := Receive(o, c, g, seen, stale, used), ByteSpan(c.nextSeq, g.seqno, g.payload).1;
            && Delivers(c, c', [Chunk(bytes, 0, false, g.End(), seen)] + ChunksOf(next, c.pages[..k]), c.pages[k..])
            && c'.lastSeen == Noted(c, seen).lastSeen && c'.nextSeq == NextAfter(next, c.pages[..k])
            && (c.pages == [] ==> c'.closed == g.End())
  {
    var next;
    bytes, next := ByteSpan(c.nextSeq, g.seqno, g.payload).0, ByteSpan(c.nextSeq, g.seqno, g.payload).1;
    var w := Work(Noted(c, seen).(nextSeq := next), [Chunk(bytes, 0, false, g.End(), seen)]);
    assert Taken(o, Noted(c, seen), g, seen, stale, used) == w;
    k := SendDelivers(w);
  }

  predicate LimitsUnreached(o: Options, pages: int, used: int) {
    (o.maxPerConn > 0 ==> pages < o.maxPerConn) && (o.maxTotal > 0 ==> used < o.maxTotal)
  }

  /** A segment ahead of what is expected goes into the list in pages. */
  lemma AheadIsBuffered(o: Options, c: Conn, g: Segment, seen: int, stale: seq<Flags>, used: nat) returns (ps: seq<PageVal>)
    requires !c.closed && c.nextSeq != INVALID_SEQUENCE && Difference(c.nextSeq, g.seqno) > 0
    requires |stale| == PageCount(|g.payload|)
    ensures WithPagesOf(c.pages, ps, g, seen, stale) && ps != []
    ensures |ps| == |c.pages| + if g.payload == [] then 1 else (|g.payload| + 1899) / 1900
    ensures Receive(o, c, g, seen, stale, used) ==
      if LimitsUnreached(o, |ps|, used + |ps| - |c.pages|) then Noted(c, seen).(pages := ps)
      else Send(PopFirst(Work(Noted(c, seen).(pages := ps), [])))
  {
    ps := Spliced(c.pages, PagesFrom(g.seqno, g.payload, g.End(), seen, stale), g.seqno);
    PageCountInNumbers(|g.payload|);
    assert Position(c.pages, g.seqno) <= |c.pages|;
  }

  /** The first page goes, and those that follow on. */
  lemma FirstGoes(w: Work) returns (k: nat)
    requires !w.conn.closed && w.conn.pages != []
    ensures 1 <= k <= |w.conn.pages| && AddContiguous(PopFirst(w)).ret == w.ret + ChunksOf(w.conn.nextSeq, w.conn.pages[..k])
    ensures var c, c' := w.conn, Send(PopFirst(w));
            && Delivers(c, c', w.ret + ChunksOf(c.nextSeq, c.pages[..k]), c.pages[k..])
            && c'.nextSeq == NextAfter(c.nextSeq, c.pages[..k]) && c'.lastSeen == c.lastSeen
            && (!c'.closed ==> !Contiguous(c'))
  {
    k := ContiguousHandsOver(PopFirst(w));
    OneMore(w, k, AddContiguous(PopFirst(w)));
    k := k + 1;
  }

  lemma BufferedGoes(c: Conn, seen: int, ps: seq<PageVal>, c': Conn) returns (k: nat)
    requires !c.closed && ps != [] && c' == Send(PopFirst(Work(Noted(c, seen).(pages := ps), [])))
    ensures 1 <= k <= |ps| && Delivers(c, c', ChunksOf(c.nextSeq, ps[..k]), ps[k..])
    ensures c'.nextSeq == NextAfter(c.nextSeq, ps[..k]) && c'.lastSeen == Noted(c, seen).lastSeen
  {
    k := FirstGoes(Work(Noted(c, seen).(pages := ps), []));
    assert [] + ChunksOf(c.nextSeq, ps[..k]) == ChunksOf(c.nextSeq, ps[..k]);
  }

  /** It waits as long as the page limits are not reached with it; otherwise the first page goes,
      and those that follow on. */
  lemma AheadWaits(o: Options, c: Conn, g: Segment, seen: int, stale: seq<Flags>, used: nat) returns (ps: seq<PageVal>, k: nat)
    requires !c.closed && c.nextSeq != INVALID_SEQUENCE && Difference(c.nextSeq, g.seqno) > 0
    requires |stale| == PageCount(|g.payload|)
    ensures WithPagesOf(c.pages, ps, g, seen, stale) && k <= |ps|
    ensures |ps| == |c.pages| + if g.payload == [] then 1 else (|g.payload| + 1899) / 1900
    ensures var c' := Receive(o, c, g, seen, stale, used);
            if LimitsUnreached(o, |ps|, used + |ps| - |c.pages|) then c' == Noted(c, seen).(pages := ps)
            else
              && k >= 1 && Delivers(c, c', ChunksOf(c.nextSeq, ps[..k]), ps[k..])
              && c'.nextSeq == NextAfter(c.nextSeq, ps[..k]) && c'.lastSeen == Noted(c, seen).lastSeen
  {
    k := 0;
    ps := AheadIsBuffered(o, c, g, seen, stale, used);
    if !LimitsUnreached(o, |ps|, used + |ps| - |c.pages|) {
      k := BufferedGoes(c, seen, ps, Receive(o, c, g, seen, stale, used));
    }
  }

  /** The first segment: a SYN marks the start of the stream, and a gap of unknown size comes
      before anything else. */
  lemma FirstIsDelivered(o: Options, c: Conn, g: Segment, seen: int, stale: seq<Flags>, used: nat) returns (k: nat)
    requires !c.closed && c.nextSeq == INVALID_SEQUENCE && c.pages == [] && |stale| == PageCount(|g.payload|)
    ensures var run := PagesFrom(g.seqno, g.payload, g.End(), seen, stale);
            var next := Add(g.seqno, |g.payload| + if g.syn then 1 else 0);
            var first := Chunk(g.payload, if g.syn then 0 else -1, g.syn, false, seen);
            && k <= |run| && Delivers(c, Receive(o, c, g, seen, stale, used), [first] + ChunksOf(next, run[..k]), run[k..])
            && Receive(o, c, g, seen, stale, used).nextSeq == NextAfter(next, run[..k])
  {
    var run := PagesFrom(g.seqno, g.payload, g.End(), seen, stale);
    var next := Add(g.seqno, |g.payload| + if g.syn then 1 else 0);
    var w := Work(Noted(c, seen).(nextSeq := next, pages := run), [FirstChunk(g, seen)]);
    assert Spliced([], run, g.seqno) == run;
    if LimitHit(o, |run|, used + |run|) {
      assert Taken(o, Noted(c, seen), g, seen, stale, used) == PopFirst(w);
      k := FirstGoes(w);
    } else {
      k := SendDelivers(w);
    }
  }

  // ---- flushes ----

  /** Nothing is old enough: neither the first page, nor, without pages, the connection. */
  predicate Recent(c: Conn, t: int) {
    if c.pages == [] then c.lastSeen >= t else c.pages[0].seen >= t
  }

  /** The first k pages have been handed over in order; the connection is closed with the last of
      them, or it is not. */
  predicate Flushes(c: Conn, k: nat, c': Conn) {
    && k <= |c.pages| && c'.out == c.out + ChunksOf(c.nextSeq, c.pages[..k]) && c'.lastSeen == c.lastSeen
    && c'.nextSeq == NextAfter(c.nextSeq, c.pages[..k])
    && c'.pages == if c'.closed then [] else c.pages[k..]
  }

  lemma JoinHead(ps: seq<PageVal>, a: seq<PageVal>, b: seq<PageVal>)
    requires a != [] && ps == a + b
    ensures ps != [] && ps[0] == a[0] && ps[1..] == a[1..] + b
  {
  }

  lemma {:induction false} ChunksJoin(next: NextSeq, ps: seq<PageVal>, a: seq<PageVal>, b: seq<PageVal>)
    requires ps == a + b
    ensures ChunksOf(next, ps) == ChunksOf(next, a) + ChunksOf(NextAfter(next, a), b)
    ensures NextAfter(next, ps) == NextAfter(NextAfter(next, a), b)
    decreases |a|
  {
    if a == [] {
      assert ps == b;
    } else {
      JoinHead(ps, a, b);
      ChunksJoin(ByteSpan(next, a[0].seqno, a[0].bytes).1, ps[1..], a[1..], b);
    }
  }

  lemma SliceJoin(ps: seq<PageVal>, k: nat, j: nat)
    requires k + j <= |ps|
    ensures ps[..k + j] == ps[..k] + ps[k..][..j] && ps[k..][j..] == ps[k + j..]
  {
  }

  lemma OutJoin(out: seq<Chunk>, next: NextSeq, ps: seq<PageVal>, k: nat, j: nat)
    requires k + j <= |ps|
    ensures out + ChunksOf(next, ps[..k]) + ChunksOf(NextAfter(next, ps[..k]), ps[k..][..j]) == out + ChunksOf(next, ps[..k + j])
    ensures NextAfter(NextAfter(next, ps[..k]), ps[k..][..j]) == NextAfter(next, ps[..k + j])
  {
    SliceJoin(ps, k, j);
    ChunksJoin(next, ps[..k + j], ps[..k], ps[k..][..j]);
  }

  lemma FlushesJoin(c: Conn, k: nat, m: Conn, j: nat, c': Conn) returns (n: nat)
    requires Flushes(c, k, m) && !m.closed && Flushes(m, j, c')
    ensures n == k + j && Flushes(c, n, c') && |m.pages| == |c.pages| - k && (EndsAt(m, j) ==> EndsAt(c, n))
  {
    n := k + j;
    OutJoin(c.out, c.nextSeq, c.pages, k, j);
    SliceJoin(c.pages, k, j);
  }

  /** The last of the first k pages carries an End. */
  predicate EndsAt(c: Conn, k: nat) {
    0 < k <= |c.pages| && c.pages[k - 1].end
  }

  lemma SkipIsSend(c: Conn)
    requires c.pages != []
    ensures SkipFlush(c) == Send(PopFirst(Work(c, [])))
  {
    AddContiguousTwice(PopFirst(Work(c, [])));
  }

  lemma DeliveredFlushes(c: Conn, k: nat, c': Conn)
    requires 1 <= k <= |c.pages| && Delivers(c, c', ChunksOf(c.nextSeq, c.pages[..k]), c.pages[k..])
    requires c'.nextSeq == NextAfter(c.nextSeq, c.pages[..k]) && c'.lastSeen == c.lastSeen
    ensures Flushes(c, k, c') && c'.closed == EndsAt(c, k)
  {
    ChunksCarry(c.nextSeq, c.pages[..k]);
    assert Carries(ChunksOf(c.nextSeq, c.pages[..k])[k - 1], c.pages[..k][k - 1]);
  }

  /** skipFlush gives up on what is missing before the first page. */
  lemma SkipFlushes(c: Conn) returns (k: nat)
    requires !c.closed
    ensures Flushes(c, k, SkipFlush(c)) && (c.pages == [] ==> SkipFlush(c).closed) && (c.pages != [] ==> k >= 1)
    ensures c.pages != [] ==> SkipFlush(c).closed == EndsAt(c, k)
    ensures !SkipFlush(c).closed ==> !Contiguous(SkipFlush(c))
  {
    k := 0;
    if c.pages == [] {
      FlushesNothing(c, SkipFlush(c));
    } else {
      SkipIsSend(c);
      k := FirstGoes(Work(c, []));
      assert [] + ChunksOf(c.nextSeq, c.pages[..k]) == ChunksOf(c.nextSeq, c.pages[..k]);
      DeliveredFlushes(c, k, SkipFlush(c));
    }
  }

  lemma AddContiguousTwice(w: Work)
    ensures AddContiguous(AddContiguous(w)) == AddContiguous(w)
  {
    AddContiguousShrinks(w);
  }

  lemma FlushesNothing(c: Conn, c': Conn)
    requires !c.closed && (c' == c || (c.pages == [] && c' == Close(c)))
    ensures Flushes(c, 0, c')
  {
    assert c.pages[0..] == c.pages;
  }

  /** What the flush of one page and of the rest amount to. */
  lemma FlushesOn(c: Conn, k: nat, m: Conn, c': Conn, j: nat) returns (n: nat)
    requires Flushes(c, k, m) && (c.pages != [] ==> k >= 1 && m.closed == EndsAt(c, k))
    requires if m.closed then j == 0 && c' == m else Flushes(m, j, c')
    ensures Flushes(c, n, c') && n == k + j
    ensures !m.closed && EndsAt(m, j) ==> EndsAt(c, n)
    ensures !m.closed && j == |m.pages| ==> n == |c.pages|
  {
    if m.closed {
      n := k;
    } else {
      n := FlushesJoin(c, k, m, j, c');
    }
  }

  /** One round of each loop. */
  lemma RoundOfOlder(c: Conn, t: int)
    requires !c.closed && c.pages != [] && c.pages[0].seen < t
    ensures FlushOlder(c, t) == if SkipFlush(c).closed then SkipFlush(c) else FlushOlder(SkipFlush(c), t)
  {
  }

  lemma RoundOfAll(c: Conn)
    requires !c.closed
    ensures FlushAll(c) == if SkipFlush(c).closed then SkipFlush(c) else FlushAll(SkipFlush(c))
  {
  }

  /** FlushOlderThan hands over pages in order, and leaves none of them out; it closes a
      connection with an End, or one with nothing left that has not been seen of late. */
  lemma {:induction false} OlderFlushes(c: Conn, t: int) returns (k: nat)
    requires !c.closed
    ensures Flushes(c, k, FlushOlder(c, t))
    ensures FlushOlder(c, t).closed ==> EndsAt(c, k) || (k == |c.pages| && c.lastSeen < t)
    decreases |c.pages|
  {
    if c.pages != [] && c.pages[0].seen < t {
      var m, j: nat := SkipFlush(c), 0;
      k := SkipFlushes(c);
      if !m.closed { j := OlderFlushes(m, t); }
      RoundOfOlder(c, t);
      k := FlushesOn(c, k, m, FlushOlder(c, t), j);
    } else {
      k := 0;
      FlushesNothing(c, FlushOlder(c, t));
    }
  }

  /** Nothing happens to a connection that is recent; afterwards it is recent, or closed. */
  lemma {:induction false} OlderLeavesRecent(c: Conn, t: int)
    requires !c.closed
    ensures FlushOlder(c, t).closed || Recent(FlushOlder(c, t), t)
    ensures Recent(c, t) ==> FlushOlder(c, t) == c
    decreases |c.pages|
  {
    if c.pages != [] && c.pages[0].seen < t && !SkipFlush(c).closed { OlderLeavesRecent(SkipFlush(c), t); }
  }

  /** FlushAll: the connection is closed, and every page has been handed over, in order, up to one
      that carries an End. */
  lemma {:induction false} AllFlushes(c: Conn) returns (k: nat)
    requires !c.closed
    ensures Flushes(c, k, FlushAll(c)) && FlushAll(c).closed && (k == |c.pages| || EndsAt(c, k))
    decreases |c.pages|
  {
    var m, j: nat := SkipFlush(c), 0;
    k := SkipFlushes(c);
    if !m.closed { j := AllFlushes(m); }
    RoundOfAll(c);
    k := FlushesOn(c, k, m, FlushAll(c), j);
  }

  // ---- over a whole life ----

  predicate StretchAt(b: seq<Byte>, whole: seq<Byte>, i: nat) {
    i + |b| <= |whole| && b == whole[i..i + |b|]
  }

  ghost predicate Stretch(b: seq<Byte>, whole: seq<Byte>) {
    exists i: nat :: StretchAt(b, whole, i)
  }

  /** The bytes are a stretch of one packet's, the time is that packet's, and an End is its own or
      left over in a page that it used. */
  ghost predicate FromPacket(e: Event, bytes: seq<Byte>, seen: int, end: bool) {
    && e.Packet? && seen == e.seen && Stretch(bytes, e.g.payload)
    && (end ==> e.g.End() || exists f <- e.stale :: f.end)
  }

  ghost predicate ChunkSourced(es: set<Event>, ch: Chunk) {
    exists e <- es :: FromPacket(e, ch.bytes, ch.seen, ch.end)
  }

  ghost predicate PageSourced(es: set<Event>, p: PageVal) {
    exists e <- es :: FromPacket(e, p.bytes, p.seen, p.end)
  }

  ghost predicate PagesSourced(es: set<Event>, ps: seq<PageVal>) {
    forall i: nat :: i < |ps| ==> PageSourced(es, ps[i])
  }

  ghost predicate OutSourced(es: set<Event>, out: seq<Chunk>) {
    forall i: nat :: i < |out| ==> ChunkSourced(es, out[i]) && (out[i].start ==> i == 0)
  }

  ghost predicate Sourced(es: set<Event>, c: Conn) {
    && PagesSourced(es, c.pages) && OutSourced(es, c.out)
    && (if c.nextSeq == INVALID_SEQUENCE then c.pages == [] && c.out == [] else c.out != [])
  }

  lemma SourcedMore(es: set<Event>, es': set<Event>, c: Conn)
    requires Sourced(es, c) && es <= es'
    ensures Sourced(es', c)
  {
  }

  lemma LastPart(b: seq<Byte>, whole: seq<Byte>, all: seq<Byte>)
    requires Stretch(whole, all) && |b| <= |whole| && b == whole[|whole| - |b|..]
    ensures Stretch(b, all)
  {
    var i: nat :| StretchAt(whole, all, i);
    assert StretchAt(b, all, i + |whole| - |b|);
  }

  lemma ChunkFromPage(es: set<Event>, ch: Chunk, p: PageVal)
    requires PageSourced(es, p) && Carries(ch, p)
    ensures ChunkSourced(es, ch)
  {
    var e :| e in es && FromPacket(e, p.bytes, p.seen, p.end);
    LastPart(ch.bytes, p.bytes, e.g.payload);
    assert FromPacket(e, ch.bytes, ch.seen, ch.end);
  }

  lemma ChunksSourced(es: set<Event>, next: NextSeq, ps: seq<PageVal>)
    requires PagesSourced(es, ps)
    ensures forall i: nat :: i < |ps| ==> ChunkSourced(es, ChunksOf(next, ps)[i]) && !ChunksOf(next, ps)[i].start
  {
    ChunksCarry(next, ps);
    var cs := ChunksOf(next, ps);
    forall i: nat | i < |ps| ensures ChunkSourced(es, cs[i]) {
      ChunkFromPage(es, cs[i], ps[i]);
    }
  }

  lemma OutGrows(es: set<Event>, out: seq<Chunk>, next: NextSeq, ps: seq<PageVal>)
    requires OutSourced(es, out) && PagesSourced(es, ps) && out != []
    ensures OutSourced(es, out + ChunksOf(next, ps))
  {
    ChunksSourced(es, next, ps);
  }

  lemma RunSourced(es: set<Event>, e: Event)
    requires e in es && e.Packet? && EventOk(e)
    ensures PagesSourced(es, PagesFrom(e.g.seqno, e.g.payload, e.g.End(), e.seen, e.stale))
  {
    var run := PagesFrom(e.g.seqno, e.g.payload, e.g.End(), e.seen, e.stale);
    PagesOfSegment(e.g.seqno, e.g.payload, e.g.End(), e.seen, e.stale);
    forall i: nat | i < |run| ensures PageSourced(es, run[i]) {
      assert PageOfSegment(run[i], i, i == |run| - 1, e.g.payload, e.g.End(), e.seen, e.stale[i]);
      assert StretchAt(run[i].bytes, e.g.payload, 1900 * i);
      assert FromPacket(e, run[i].bytes, run[i].seen, run[i].end);
    }
  }

  lemma FlushSourced(es: set<Event>, c: Conn, k: nat, c': Conn)
    requires Sourced(es, c) && Flushes(c, k, c')
    ensures Sourced(es, c')
  {
    if c.out != [] { OutGrows(es, c.out, c.nextSeq, c.pages[..k]); }
  }

  lemma FirstSourced(es: set<Event>, o: Options, c: Conn, e: Event)
    requires Sourced(es, c) && e in es && e.Packet? && EventOk(e) && !c.closed && c.nextSeq == INVALID_SEQUENCE
    ensures Sourced(es, Receive(o, c, e.g, e.seen, e.stale, e.used))
  {
    var run := PagesFrom(e.g.seqno, e.g.payload, e.g.End(), e.seen, e.stale);
    var k := FirstIsDelivered(o, c, e.g, e.seen, e.stale, e.used);
    RunSourced(es, e);
    var first := Chunk(e.g.payload, if e.g.syn then 0 else -1, e.g.syn, false, e.seen);
    assert StretchAt(first.bytes, e.g.payload, 0);
    assert FromPacket(e, first.bytes, first.seen, first.end);
    assert OutSourced(es, [first]) && PagesSourced(es, run[..k]);
    OutGrows(es, [first], Add(e.g.seqno, |e.g.payload| + if e.g.syn then 1 else 0), run[..k]);
  }

  lemma DeliverySourced(es: set<Event>, c: Conn, c': Conn, ch: Chunk, next: NextSeq, k: nat)
    requires Sourced(es, c) && c.nextSeq != INVALID_SEQUENCE && k <= |c.pages| && ChunkSourced(es, ch) && !ch.start
    requires Delivers(c, c', [ch] + ChunksOf(next, c.pages[..k]), c.pages[k..]) && c'.nextSeq != INVALID_SEQUENCE
    ensures Sourced(es, c')
  {
    OutGrows(es, c.out + [ch], next, c.pages[..k]);
    assert c.out + ([ch] + ChunksOf(next, c.pages[..k])) == c.out + [ch] + ChunksOf(next, c.pages[..k]);
  }

  lemma NextSourced(es: set<Event>, o: Options, c: Conn, e: Event)
    requires Sourced(es, c) && e in es && e.Packet? && EventOk(e) && !c.closed && c.nextSeq != INVALID_SEQUENCE
    requires Difference(c.nextSeq, e.g.seqno) <= 0
    ensures Sourced(es, Receive(o, c, e.g, e.seen, e.stale, e.used))
  {
    var k, bytes := NextIsDelivered(o, c, e.g, e.seen, e.stale, e.used);
    var ch := Chunk(bytes, 0, false, e.g.End(), e.seen);
    assert StretchAt(e.g.payload, e.g.payload, 0);
    LastPart(bytes, e.g.payload, e.g.payload);
    assert FromPacket(e, ch.bytes, ch.seen, ch.end);
    DeliverySourced(es, c, Receive(o, c, e.g, e.seen, e.stale, e.used), ch, ByteSpan(c.nextSeq, e.g.seqno, e.g.payload).1, k);
  }

  lemma AheadSourced(es: set<Event>, o: Options, c: Conn, e: Event)
    requires Sourced(es, c) && e in es && e.Packet? && EventOk(e) && !c.closed && c.nextSeq != INVALID_SEQUENCE
    requires Difference(c.nextSeq, e.g.seqno) > 0
    ensures Sourced(es, Receive(o, c, e.g, e.seen, e.stale, e.used))
  {
    var ps, k := AheadWaits(o, c, e.g, e.seen, e.stale, e.used);
    RunSourced(es, e);
    assert PagesSourced(es, ps);
    OutGrows(es, c.out, c.nextSeq, ps[..k]);
  }

  lemma HandleSourced(es: set<Event>, o: Options, c: Conn, e: Event)
    requires Sourced(es, c) && e in es && EventOk(e)
    ensures Sourced(es, Handle(o, c, e))
  {
    if !c.closed {
      match e
      case Packet(g, _, _, _) =>
        if !g.Empty() {
          if c.nextSeq == INVALID_SEQUENCE {
            FirstSourced(es, o, c, e);
          } else if Difference(c.nextSeq, g.seqno) > 0 {
            AheadSourced(es, o, c, e);
          } else {
            NextSourced(es, o, c, e);
          }
        }
      case Older(t) =>
        var k := OlderFlushes(c, t);
        FlushSourced(es, c, k, FlushOlder(c, t));
      case All =>
        var k := AllFlushes(c);
        FlushSourced(es, c, k, FlushAll(c));
    }
  }

  function EventsOf(es: seq<Event>): set<Event> {
    set e | e in es
  }

  /** Whatever has happened to a connection: each chunk is a stretch of one packet's bytes, with
      that packet's time, and with an End only if the packet had one or a page it used; the first
      chunk alone may mark a start. */
  lemma {:induction false} EveryChunkIsAStretch(o: Options, ls: int, es: seq<Event>)
    requires forall e <- es :: EventOk(e)
    ensures Sourced(EventsOf(es), Run(o, NewConn(ls), es))
  {
    if es != [] {
      var es0, e := es[..|es| - 1], es[|es| - 1];
      EveryChunkIsAStretch(o, ls, es0);
      SourcedMore(EventsOf(es0), EventsOf(es), Run(o, NewConn(ls), es0));
      HandleSourced(EventsOf(es), o, Run(o, NewConn(ls), es0), e);
    }
  }
}
