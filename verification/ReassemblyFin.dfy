/** Completeness up to the end of a stream: a FIN or RST closes a connection only when every byte
    has been delivered.  Each packet is compared with the same packet without its FIN and RST. */
module ReassemblyFin {
  import opened Bytes
  import opened Sequence
  import opened Reassembly
  import opened ReassemblySafety
  import opened ReassemblyCompleteness

  /** The pages are the same, but for Ends at number `stop`. */
  predicate SamePage(stop: int, p: PageVal, q: PageVal) {
    q == p.(end := q.end) && (p.end == q.end || (p.end && p.seqno + |p.bytes| == stop))
  }

  predicate SamePages(stop: int, ps: seq<PageVal>, qs: seq<PageVal>) {
    |ps| == |qs| && forall i: nat :: i < |ps| ==> SamePage(stop, ps[i], qs[i])
  }

  predicate SameBytes(a: seq<Chunk>, b: seq<Chunk>) {
    |a| == |b| && forall i: nat :: i < |a| ==> a[i].bytes == b[i].bytes
  }

  predicate SameConn(stop: int, c: Conn, d: Conn) {
    d == c.(pages := d.pages, out := d.out) && SamePages(stop, c.pages, d.pages) && SameBytes(c.out, d.out)
  }

  /** The last chunk to be sent ends the stream only if all of it is to be sent. */
  predicate EndsAtStop(stop: int, w: Work, v: Work) {
    w.ret != [] && v.ret != [] && w.ret[|w.ret| - 1].end && !v.ret[|v.ret| - 1].end ==> w.conn.nextSeq == stop
  }

  predicate SameWork(stop: int, w: Work, v: Work) {
    SameConn(stop, w.conn, v.conn) && SameBytes(w.ret, v.ret) && EndsAtStop(stop, w, v)
  }

  lemma {:induction false} SameConcat(a: seq<Chunk>, b: seq<Chunk>)
    requires SameBytes(a, b)
    ensures Concat(a) == Concat(b)
  {
    if a != [] { SameConcat(a[..|a| - 1], b[..|b| - 1]); }
  }

  // ---- sending ----

  lemma PopSame(G: Stream, base: int, w: Work, v: Work)
    requires SameWork(base + |G|, w, v) && Tidy(G, base, v.conn) && Contiguous(v.conn)
    ensures Contiguous(w.conn) && SameWork(base + |G|, PopFirst(w), PopFirst(v))
  {
    var stop := base + |G|;
    assert SamePage(stop, w.conn.pages[0], v.conn.pages[0]);
    PopStep(G, base, v.conn);
    assert AfterPop(v.conn) == PopFirst(v).conn;
    forall i: nat | i < |w.conn.pages| - 1 ensures SamePage(stop, w.conn.pages[1..][i], v.conn.pages[1..][i]) {
      assert SamePage(stop, w.conn.pages[i + 1], v.conn.pages[i + 1]);
    }
  }

  lemma {:induction false} AddContiguousSame(G: Stream, base: int, from: nat, w: Work, v: Work)
    requires SameWork(base + |G|, w, v) && Fit(G, base, from, ANYWHERE, v)
    ensures SameWork(base + |G|, AddContiguous(w), AddContiguous(v))
    decreases |v.conn.pages|
  {
    if v.conn.pages != [] { assert SamePage(base + |G|, w.conn.pages[0], v.conn.pages[0]); }
    if Contiguous(v.conn) {
      PopSame(G, base, w, v);
      PopFit(G, base, from, ANYWHERE, v);
      AddContiguousSame(G, base, from, PopFirst(w), PopFirst(v));
    }
  }

  /** What one packet leaves with its FIN or RST, and without it. */
  ghost predicate Alike(G: Stream, base: int, from: nat, c: Conn, d: Conn) {
    && Resting(G, base, from, ANYWHERE, d)
    && if c.closed then d.nextSeq == base + |G| && Concat(c.out) == G[from..] else SameConn(base + |G|, c, d)
  }

  lemma DeliveredSame(stop: int, w: Work, v: Work)
    requires SameWork(stop, w, v) && NotLast(v) && !Contiguous(v.conn) && !v.conn.closed
    ensures SameBytes(Delivered(w).out, Delivered(v).out) && Delivered(v) == v.conn.(out := AllChunks(v))
    ensures if Delivered(w).closed then w.conn.nextSeq == stop else SameConn(stop, Delivered(w), Delivered(v))
  {
  }

  lemma SendSame(G: Stream, base: int, from: nat, w: Work, v: Work)
    requires SameWork(base + |G|, w, v) && Fit(G, base, from, ANYWHERE, v) && !v.conn.closed
    ensures Alike(G, base, from, Send(w), Send(v))
  {
    AddContiguousSame(G, base, from, w, v);
    AddContiguousFit(G, base, from, ANYWHERE, v);
    SendFit(G, base, from, ANYWHERE, v);
    DeliveredSame(base + |G|, AddContiguous(w), AddContiguous(v));
    SameConcat(Send(w).out, Send(v).out);
    if Send(w).closed { assert G[from..] == G[from..Send(v).nextSeq - base]; }
  }

  // ---- buffering ----

  lemma {:induction false} PositionSame(stop: int, ps: seq<PageVal>, qs: seq<PageVal>, seqno: SeqNo)
    requires SamePages(stop, ps, qs)
    ensures Position(ps, seqno) == Position(qs, seqno)
  {
    if ps != [] {
      var n := |ps| - 1;
      assert SamePage(stop, ps[n], qs[n]);
      PositionSame(stop, ps[..n], qs[..n], seqno);
    }
  }

  lemma {:induction false} RunSame(stop: int, seqno: SeqNo, payload: seq<Byte>, end: bool, seen: int, stale: seq<Flags>)
    requires |stale| == PageCount(|payload|) && seqno + |payload| <= UINT32_MAX && (end ==> seqno + |payload| == stop)
    ensures SamePages(stop, PagesFrom(seqno, payload, end, seen, stale), PagesFrom(seqno, payload, false, seen, stale))
    decreases |payload|
  {
    if |payload| > PAGE_BYTES {
      var next, rest := Add(seqno, PAGE_BYTES), payload[PAGE_BYTES..];
      RunSame(stop, next, rest, end, seen, stale[1..]);
      var ps, qs := PagesFrom(seqno, payload, end, seen, stale), PagesFrom(seqno, payload, false, seen, stale);
      forall i: nat | i < |ps| ensures SamePage(stop, ps[i], qs[i]) {
        if i > 0 {
          assert SamePage(stop, PagesFrom(next, rest, end, seen, stale[1..])[i - 1],
                          PagesFrom(next, rest, false, seen, stale[1..])[i - 1]);
        }
      }
    }
  }

  lemma JoinSame(stop: int, a: seq<PageVal>, b: seq<PageVal>, x: seq<PageVal>, y: seq<PageVal>)
    requires SamePages(stop, a, b) && SamePages(stop, x, y)
    ensures SamePages(stop, a + x, b + y)
  {
    forall i: nat | i < |a + x| ensures SamePage(stop, (a + x)[i], (b + y)[i]) {
      if i < |a| { assert SamePage(stop, a[i], b[i]); } else { assert SamePage(stop, x[i - |a|], y[i - |a|]); }
    }
  }

  lemma CutSame(stop: int, ps: seq<PageVal>, qs: seq<PageVal>, k: nat)
    requires SamePages(stop, ps, qs) && k <= |ps|
    ensures SamePages(stop, ps[..k], qs[..k]) && SamePages(stop, ps[k..], qs[k..])
  {
    forall i: nat | i < |ps| - k ensures SamePage(stop, ps[k..][i], qs[k..][i]) {
      assert SamePage(stop, ps[i + k], qs[i + k]);
    }
  }

  lemma SpliceSame(stop: int, ps: seq<PageVal>, qs: seq<PageVal>, run: seq<PageVal>, plain: seq<PageVal>, seqno: SeqNo)
    requires SamePages(stop, ps, qs) && SamePages(stop, run, plain)
    ensures SamePages(stop, Spliced(ps, run, seqno), Spliced(qs, plain, seqno))
  {
    var k := Position(ps, seqno);
    PositionSame(stop, ps, qs, seqno);
    CutSame(stop, ps, qs, k);
    JoinSame(stop, ps[..k], qs[..k], run, plain);
    JoinSame(stop, ps[..k] + run, qs[..k] + plain, ps[k..], qs[k..]);
  }

  // ---- one packet ----

  /** The packet without its FIN and RST. */
  function Plain(g: Segment): Segment {
    g.(fin := false, rst := false)
  }

  /** A segment of the stream; a FIN or RST stands at its end, and without bytes only if the
      number after the last byte compares rightly. */
  predicate Last(G: Stream, base: int, g: Segment) {
    g.End() && g.seqno + |g.payload| == base + |G| && (g.payload == [] ==> Window(G, base))
  }

  predicate Part(G: Stream, base: int, g: Segment) {
    SegmentOk(G, base, g) && !g.syn && (g.End() ==> Last(G, base, g))
  }

  lemma PlainEmptyFits(G: Stream, base: int, from: nat, c: Conn, g: Segment, seen: int)
    requires Tidy(G, base, c) && Told(G, base, from, ANYWHERE, c.out, c.nextSeq) && Last(G, base, g) && g.payload == []
    requires Difference(c.nextSeq, g.seqno) <= 0
    ensures InOrderWork(c, Plain(g), seen).conn == c && c.nextSeq == base + |G|
    ensures Fit(G, base, from, ANYWHERE, InOrderWork(c, Plain(g), seen))
  {
    NextNear(G, base, c.nextSeq, g.seqno);
    var w := InOrderWork(c, Plain(g), seen);
    ToldSnoc(G, base, from, ANYWHERE, c.out, c.nextSeq, w.ret[0], c.nextSeq);
    assert AllChunks(w) == c.out + [w.ret[0]];
  }

  /** In order: the packet is handed over. */
  lemma NextSame(G: Stream, base: int, from: nat, c: Conn, d: Conn, g: Segment, seen: int)
    requires Resting(G, base, from, ANYWHERE, d) && SameConn(base + |G|, c, d) && Part(G, base, g) && !g.Empty()
    requires Difference(d.nextSeq, g.seqno) <= 0
    ensures Fit(G, base, from, ANYWHERE, InOrderWork(d, Plain(g), seen))
    ensures SameWork(base + |G|, InOrderWork(c, g, seen), InOrderWork(d, Plain(g), seen))
    ensures forall q :: q >= base ==>
      (Held(InOrderWork(d, Plain(g), seen).conn, q) <==> Held(d, q) || InSegment(g, q))
  {
    if g.payload == [] {
      PlainEmptyFits(G, base, from, d, g, seen);
    } else {
      InOrderFit(G, base, from, ANYWHERE, d, Plain(g), seen);
      InOrderTidy(G, base, d, Plain(g), seen);
      InOrderStep(G, base, d, Plain(g), seen);
    }
  }

  /** Ahead: the packet is buffered. */
  lemma AheadSame(G: Stream, base: int, from: nat, c: Conn, d: Conn, g: Segment, seen: int, stale: seq<Flags>, used: nat)
    requires Resting(G, base, from, ANYWHERE, d) && SameConn(base + |G|, c, d) && Part(G, base, g) && !g.Empty()
    requires Difference(d.nextSeq, g.seqno) > 0 && |stale| == PageCount(|g.payload|)
    ensures var w := Insert(UNLIMITED, Work(d, []), Plain(g), seen, stale, used);
            && w.ret == [] && Resting(G, base, from, ANYWHERE, w.conn)
            && SameConn(base + |G|, Insert(UNLIMITED, Work(c, []), g, seen, stale, used).conn, w.conn)
            && forall q :: Held(w.conn, q) <==> Held(d, q) || InSegment(g, q)
    ensures Insert(UNLIMITED, Work(c, []), g, seen, stale, used).ret == []
  {
    var w := Insert(UNLIMITED, Work(d, []), Plain(g), seen, stale, used);
    assert AllChunks(Work(d, [])) == d.out;
    InsertFit(G, base, from, ANYWHERE, Work(d, []), Plain(g), seen, stale, used);
    assert AllChunks(w) == w.conn.out;
    NotContiguousAfterInsert(d, Plain(g), seen, stale, used);
    RunSame(base + |G|, g.seqno, g.payload, g.End(), seen, stale);
    SpliceSame(base + |G|, c.pages, d.pages, PagesFrom(g.seqno, g.payload, g.End(), seen, stale),
               PagesFrom(g.seqno, g.payload, false, seen, stale), g.seqno);
  }

  lemma ReceiveSame(G: Stream, base: int, from: nat, c: Conn, d: Conn, g: Segment, seen: int, stale: seq<Flags>, used: nat)
    requires Resting(G, base, from, ANYWHERE, d) && SameConn(base + |G|, c, d) && Part(G, base, g) && !g.Empty()
    requires |stale| == PageCount(|g.payload|)
    ensures var d' := Receive(UNLIMITED, d, Plain(g), seen, stale, used);
            && Alike(G, base, from, Receive(UNLIMITED, c, g, seen, stale, used), d')
            && forall q :: q >= base ==> (Held(d', q) <==> Held(d, q) || InSegment(g, q))
  {
    var noted := if d.lastSeen < seen then seen else d.lastSeen;
    var c1, d1 := c.(lastSeen := noted), d.(lastSeen := noted);
    if Difference(d.nextSeq, g.seqno) > 0 {
      AheadSame(G, base, from, c1, d1, g, seen, stale, used);
    } else {
      NextSame(G, base, from, c1, d1, g, seen);
      SendSame(G, base, from, InOrderWork(c1, g, seen), InOrderWork(d1, Plain(g), seen));
      SendFit(G, base, from, ANYWHERE, InOrderWork(d1, Plain(g), seen));
    }
  }

  // ---- all packets ----

  /** Arrivals only: no flushes and no second SYN; a FIN or RST ends the stream. */
  predicate Arrives(G: Stream, base: int, e: Event) {
    e.Packet? && EventOk(e) && Part(G, base, e.g)
  }

  /** The same packets without FIN and RST. */
  function PlainRun(d: Conn, es: seq<Event>): Conn
    requires forall e <- es :: e.Packet? && EventOk(e)
  {
    if es == [] then d
    else
      var d0, e := PlainRun(d, es[..|es| - 1]), es[|es| - 1];
      assert EventOk(e);
      if e.g.Empty() then d0 else Receive(UNLIMITED, d0, Plain(e.g), e.seen, e.stale, e.used)
  }

  /** Once everything is delivered, it stays delivered. */
  lemma StaysWhole(G: Stream, base: int, from: nat, d: Conn, d': Conn)
    requires Resting(G, base, from, ANYWHERE, d') && d.nextSeq == base + |G|
    requires forall q :: q >= base && Held(d, q) ==> Held(d', q)
    ensures d'.nextSeq == base + |G|
  {
    NextIsNotHeld(G, base, from, ANYWHERE, d');
  }

  lemma StepAlike(G: Stream, base: int, from: nat, c: Conn, d: Conn, e: Event)
    requires Alike(G, base, from, c, d) && Arrives(G, base, e) && !e.g.Empty()
    ensures var d' := Receive(UNLIMITED, d, Plain(e.g), e.seen, e.stale, e.used);
            && Alike(G, base, from, Handle(UNLIMITED, c, e), d')
            && forall q :: q >= base ==> (Held(d', q) <==> Held(d, q) || Covers(e.g, q))
  {
    if c.closed {
      ReceiveSame(G, base, from, d, d, e.g, e.seen, e.stale, e.used);
      StaysWhole(G, base, from, d, Receive(UNLIMITED, d, Plain(e.g), e.seen, e.stale, e.used));
    } else {
      ReceiveSame(G, base, from, c, d, e.g, e.seen, e.stale, e.used);
    }
  }

  lemma {:induction false} RunAlike(G: Stream, base: int, from: nat, c0: Conn, es: seq<Event>)
    requires Resting(G, base, from, ANYWHERE, c0) && forall e <- es :: e.Packet? && EventOk(e)
    requires forall e <- es :: Arrives(G, base, e)
    ensures Alike(G, base, from, Run(UNLIMITED, c0, es), PlainRun(c0, es))
    ensures forall q :: q >= base ==> (Held(PlainRun(c0, es), q) <==> Held(c0, q) || Covered(Segments(es), q))
  {
    if es != [] {
      var es0, e := es[..|es| - 1], es[|es| - 1];
      RunAlike(G, base, from, c0, es0);
      assert Arrives(G, base, e);
      if !e.g.Empty() { StepAlike(G, base, from, Run(UNLIMITED, c0, es0), PlainRun(c0, es0), e); }
      SegmentsSnoc(es);
    }
  }

  lemma FirstRests(G: Stream, base: int, ls: int, g: Segment, seen: int, stale: seq<Flags>, used: nat) returns (from: nat)
    requires Opens(G, base, g) && |stale| == PageCount(|g.payload|)
    ensures var c := Receive(UNLIMITED, NewConn(ls), g, seen, stale, used);
            && from == Origin(base, g) && Resting(G, base, from, ANYWHERE, c)
            && forall q :: q >= base + from ==> (Held(c, q) <==> Covers(g, q))
  {
    if Window(G, base) && FirstOk(G, base, g) && !g.End() {
      WindowFirst(G, base, ls, g, seen, stale, used);
      from := Origin(base, g);
    } else {
      EmptySynResting(G, base, ls, g, seen, stale, used, ANYWHERE);
      from := 0;
    }
  }

  lemma AlikeTold(G: Stream, base: int, from: nat, c: Conn, d: Conn)
    requires Alike(G, base, from, c, d)
    ensures from <= d.nextSeq - base <= |G| && Concat(c.out) == G[from..d.nextSeq - base]
    ensures if c.closed then d.nextSeq == base + |G| else c.nextSeq == d.nextSeq
  {
    if c.closed { assert G[from..] == G[from..d.nextSeq - base]; } else { SameConcat(c.out, d.out); }
  }

  /** With a FIN or RST at the end of the stream: whatever the order, the overlaps and the
      repetitions, the bytes delivered are the longest prefix that the segments so far cover, and
      the connection is closed only when that is the whole stream. */
  lemma CompleteToTheEnd(G: Stream, base: int, ls: int, g: Segment, seen: int, stale: seq<Flags>, used: nat, es: seq<Event>)
    returns (n: nat)
    requires Opens(G, base, g) && |stale| == PageCount(|g.payload|)
    requires forall e <- es :: e.Packet? && EventOk(e)
    requires forall e <- es :: Arrives(G, base, e)
    ensures var c := Run(UNLIMITED, Receive(UNLIMITED, NewConn(ls), g, seen, stale, used), es);
            && 0 <= Origin(base, g) <= n <= |G| && Concat(c.out) == G[Origin(base, g)..n]
            && LongestPrefix([g] + Segments(es), base + Origin(base, g), base + n)
            && if c.closed then n == |G| else c.nextSeq == base + n
  {
    var c0 := Receive(UNLIMITED, NewConn(ls), g, seen, stale, used);
    var from := FirstRests(G, base, ls, g, seen, stale, used);
    RunAlike(G, base, from, c0, es);
    var c, d := Run(UNLIMITED, c0, es), PlainRun(c0, es);
    NextIsNotHeld(G, base, from, ANYWHERE, d);
    PrefixHeld(Segments(es), g, c0, d, base + from);
    n := d.nextSeq - base;
    AlikeTold(G, base, from, c, d);
  }
}
