/** With nothing lost on purpose - no limits, no flushes, no FIN or RST - the bytes
    delivered are exactly the longest prefix the segments cover, in whatever order and with
    whatever overlap they arrive, and however long they are. */
module ReassemblyCompleteness {
  import opened Bytes
  import opened Sequence
  import opened Reassembly
  import opened ReassemblySafety

  /** A SYN takes the first sequence number of its segment. */
  function DataStart(g: Segment): int {
    if g.syn then g.seqno + 1 else g.seqno
  }

  predicate Covers(g: Segment, q: int) {
    DataStart(g) <= q < DataStart(g) + |g.payload|
  }

  ghost predicate Covered(gs: seq<Segment>, q: int) {
    exists g <- gs :: Covers(g, q)
  }

  predicate OnPage(p: PageVal, q: int) {
    p.seqno <= q < p.seqno + |p.bytes|
  }

  ghost predicate InPages(ps: seq<PageVal>, q: int) {
    exists p <- ps :: OnPage(p, q)
  }

  /** A page out of place in the list: number `q` lies between page j and an earlier page i. */
  predicate Inverted(ps: seq<PageVal>, i: nat, j: nat, q: int) {
    i < j < |ps| && ps[j].seqno <= q < ps[i].seqno
  }

  /** The list need not be sorted: a long segment is inserted as one run of pages.  But
      whatever page i holds back of a later page is delivered or ahead of page i. */
  ghost predicate Ordered(ps: seq<PageVal>, next: int) {
    forall i: nat, j: nat, q: int :: Inverted(ps, i, j, q) ==> q < next || InPages(ps[..i], q)
  }

  /** So when the first page has to wait, the next byte is on no page at all. */
  lemma FirstPageBlocksAll(ps: seq<PageVal>, next: int)
    requires Ordered(ps, next) && (ps == [] || ps[0].seqno > next)
    ensures !InPages(ps, next)
  {
    forall p | p in ps ensures !OnPage(p, next) {
      var j: nat :| j < |ps| && ps[j] == p;
      assert Inverted(ps, 0, j, next) ==> InPages(ps[..0], next);
    }
  }

  lemma PopOrdered(ps: seq<PageVal>, next: int, next': int)
    requires ps != [] && Ordered(ps, next) && next <= next' && ps[0].seqno + |ps[0].bytes| <= next'
    ensures Ordered(ps[1..], next')
    ensures forall q :: InPages(ps, q) ==> q < next' || InPages(ps[1..], q)
  {
    forall q | InPages(ps, q) && q >= next' ensures InPages(ps[1..], q) {
      var p :| p in ps && OnPage(p, q);
      assert p in ps[1..];
    }
    forall i: nat, j: nat, q: int | Inverted(ps[1..], i, j, q) && q >= next'
      ensures InPages(ps[1..][..i], q)
    {
      assert Inverted(ps, i + 1, j + 1, q);
      var p :| p in ps[..i + 1] && OnPage(p, q);
      assert ps[..i + 1] == [ps[0]] + ps[1..][..i];
    }
  }

  /** A run of pages numbered upwards from `seqno`, together covering `len` numbers. */
  ghost predicate IsRun(run: seq<PageVal>, seqno: int, len: nat) {
    && (forall p <- run :: seqno <= p.seqno)
    && (forall q :: InPages(run, q) <==> seqno <= q < seqno + len)
    && (forall i: nat, q: int :: i < |run| && seqno <= q < run[i].seqno ==> InPages(run[..i], q))
    && (forall i: nat, j: nat :: i < j < |run| ==> run[i].seqno <= run[j].seqno)
  }

  lemma InPagesConcat(a: seq<PageVal>, b: seq<PageVal>, q: int)
    ensures InPages(a + b, q) <==> InPages(a, q) || InPages(b, q)
  {
    if InPages(a, q) {
      var p :| p in a && OnPage(p, q);
      assert p in a + b;
    }
    if InPages(b, q) {
      var p :| p in b && OnPage(p, q);
      assert p in a + b;
    }
  }

  lemma {:induction false} PagesFromIsRun(seqno: SeqNo, payload: seq<Byte>, end: bool, seen: int, stale: seq<Flags>)
    requires |stale| == PageCount(|payload|) && seqno + |payload| <= UINT32_MAX
    ensures IsRun(PagesFrom(seqno, payload, end, seen, stale), seqno, |payload|)
    decreases |payload|
  {
    var run := PagesFrom(seqno, payload, end, seen, stale);
    if |payload| <= PAGE_BYTES {
      assert run[0] in run;
    } else {
      var rest := payload[PAGE_BYTES..];
      assert Add(seqno, PAGE_BYTES) == seqno + PAGE_BYTES;
      PagesFromIsRun(Add(seqno, PAGE_BYTES), rest, end, seen, stale[1..]);
      RunCons(run[0], PagesFrom(Add(seqno, PAGE_BYTES), rest, end, seen, stale[1..]), |rest|);
    }
  }

  lemma RunCons(p: PageVal, run: seq<PageVal>, len: nat)
    requires IsRun(run, p.seqno + |p.bytes|, len)
    ensures IsRun([p] + run, p.seqno, |p.bytes| + len)
  {
    var all := [p] + run;
    forall q ensures InPages(all, q) <==> p.seqno <= q < p.seqno + |p.bytes| + len {
      InPagesConcat([p], run, q);
      assert OnPage(p, q) ==> p in [p] && InPages([p], q);
      assert InPages([p], q) ==> OnPage(p, q);
    }
    forall i: nat, q: int | i < |all| && p.seqno <= q < all[i].seqno ensures InPages(all[..i], q) {
      if i > 0 {
        assert all[..i] == [p] + run[..i - 1];
        InPagesConcat([p], run[..i - 1], q);
        if OnPage(p, q) { assert p in [p]; }
      }
    }
  }

  /** Inserting a run where the walk back stops keeps the list ordered. */
  lemma SpliceOrdered(ps: seq<PageVal>, run: seq<PageVal>, k: nat, seqno: int, len: nat, next: int)
    requires k <= |ps| && Ordered(ps, next) && IsRun(run, seqno, len)
    requires k > 0 ==> ps[k - 1].seqno <= seqno
    requires forall j: nat :: k <= j < |ps| ==> seqno < ps[j].seqno
    ensures Ordered(ps[..k] + run + ps[k..], next)
  {
    var all := ps[..k] + run + ps[k..];
    var r := |run|;
    forall i: nat, j: nat, q: int | Inverted(all, i, j, q) && q >= next ensures InPages(all[..i], q) {
      if i < k {
        SpliceLow(ps, run, k, seqno, len, next, i, j, q);
      } else if i < k + r {
        SpliceMid(ps, run, k, seqno, len, i, j, q);
      } else {
        assert Inverted(ps, i - r, j - r, q);
        assert all[..i] == ps[..k] + run + ps[k..][..i - r - k];
        assert ps[..i - r] == ps[..k] + ps[k..][..i - r - k];
        InPagesConcat(ps[..k], ps[k..][..i - r - k], q);
        InPagesConcat(ps[..k], run, q);
        InPagesConcat(ps[..k] + run, ps[k..][..i - r - k], q);
      }
    }
  }

  lemma SpliceLow(ps: seq<PageVal>, run: seq<PageVal>, k: nat, seqno: int, len: nat, next: int, i: nat, j: nat, q: int)
    requires i < k <= |ps| && Ordered(ps, next) && IsRun(run, seqno, len) && q >= next
    requires ps[k - 1].seqno <= seqno
    requires forall j: nat :: k <= j < |ps| ==> seqno < ps[j].seqno
    requires Inverted(ps[..k] + run + ps[k..], i, j, q)
    ensures InPages((ps[..k] + run + ps[k..])[..i], q)
  {
    var all := ps[..k] + run + ps[k..];
    assert all[..i] == ps[..i];
    if j < k {
      assert Inverted(ps, i, j, q);
    } else {
      if j < k + |run| { assert all[j] == run[j - k] && run[j - k] in run; } else { assert all[j] == ps[j - |run|]; }
      assert ps[k - 1].seqno <= q && i != k - 1;
      assert Inverted(ps, i, k - 1, q);
    }
  }

  lemma SpliceMid(ps: seq<PageVal>, run: seq<PageVal>, k: nat, seqno: int, len: nat, i: nat, j: nat, q: int)
    requires k <= |ps| && k <= i < k + |run| && IsRun(run, seqno, len)
    requires forall j: nat :: k <= j < |ps| ==> seqno < ps[j].seqno
    requires Inverted(ps[..k] + run + ps[k..], i, j, q)
    ensures InPages((ps[..k] + run + ps[k..])[..i], q)
  {
    var all := ps[..k] + run + ps[k..];
    assert all[..i] == ps[..k] + run[..i - k];
    InPagesConcat(ps[..k], run[..i - k], q);
    assert all[i] == run[i - k];
    if j < k + |run| {
      assert false;
    } else {
      assert all[j] == ps[j - |run|];
    }
  }

  // ---- which sequence numbers are compared rightly ----

  /** The bytes' numbers do not roll over, neither does the number after the last, and the
      bytes do not lie in both outer quarters. */
  predicate Clear(G: Stream, base: int) {
    Range(G, base) && SameSide(base, base + |G| - 1)
  }

  /** The number of a byte; in a window also that of the SYN and that after the last byte. */
  predicate Numbered(G: Stream, base: int, x: int) {
    base - 1 <= x <= base + |G| && (Window(G, base) || base <= x < base + |G|)
  }

  predicate AllNumbered(G: Stream, base: int, ps: seq<PageVal>) {
    forall p <- ps :: Numbered(G, base, p.seqno)
  }

  lemma NumbersNear(G: Stream, base: int, x: int, y: int)
    requires Clear(G, base) && Numbered(G, base, x) && Numbered(G, base, y)
    ensures Near(x, y)
  {
  }

  /** nextSeq compares rightly too, but with everything delivered it may take a byte long
      delivered for one to come. */
  lemma NextNear(G: Stream, base: int, next: int, y: int)
    requires Clear(G, base) && base <= next <= base + |G| && Numbered(G, base, y)
    ensures Near(next, y) || (next == base + |G| && Difference(next, y) > 0)
  {
  }

  /** The walk back stops behind the last page that is not after the new one. */
  lemma {:induction false} PositionSplits(G: Stream, base: int, ps: seq<PageVal>, seqno: SeqNo)
    requires Clear(G, base) && AllNumbered(G, base, ps) && Numbered(G, base, seqno)
    ensures var k := Position(ps, seqno);
            && (k > 0 ==> ps[k - 1].seqno <= seqno)
            && forall j: nat :: k <= j < |ps| ==> seqno < ps[j].seqno
  {
    if ps != [] {
      var n := |ps| - 1;
      assert ps[n] in ps;
      NumbersNear(G, base, ps[n].seqno, seqno);
      if seqno < ps[n].seqno {
        PositionSplits(G, base, ps[..n], seqno);
        var k := Position(ps[..n], seqno);
        assert k > 0 ==> ps[..n][k - 1] == ps[k - 1];
        forall j: nat | k <= j < |ps| ensures seqno < ps[j].seqno {
          if j < n { assert ps[..n][j] == ps[j]; }
        }
      }
    }
  }

  // ---- what a connection keeps ----

  /** Byte number `q` is delivered or buffered. */
  ghost predicate Held(c: Conn, q: int) {
    q < c.nextSeq || InPages(c.pages, q)
  }

  /** A page may carry an End from an earlier use, unless it is the last of its segment, whose
      End is written.  Then the page after it starts no later than where it ends. */
  predicate EndsFollowed(ps: seq<PageVal>) {
    forall i: nat :: i < |ps| && ps[i].end ==> FollowedAt(ps, i)
  }

  predicate FollowedAt(ps: seq<PageVal>, i: nat)
    requires i < |ps|
  {
    && i + 1 < |ps| && |ps[i].bytes| <= PAGE_BYTES
    && ps[i].seqno <= ps[i + 1].seqno <= ps[i].seqno + |ps[i].bytes|
  }

  ghost predicate Tidy(G: Stream, base: int, c: Conn) {
    && Clear(G, base) && base <= c.nextSeq <= base + |G|
    && AllNumbered(G, base, c.pages) && PagesAllOk(G, base, c.nextSeq - base, c.pages)
    && Ordered(c.pages, c.nextSeq) && EndsFollowed(c.pages)
  }

  /** If the last chunk to be sent carries an End, another one is about to join it. */
  predicate NotLast(w: Work) {
    w.ret != [] && w.ret[|w.ret| - 1].end ==> Contiguous(w.conn)
  }

  function Concat(out: seq<Chunk>): seq<Byte> {
    if out == [] then [] else Concat(out[..|out| - 1]) + out[|out| - 1].bytes
  }

  /** The chunks are the stream from `from` up to number `next`, without a gap, and each ends
      at one of the numbers `cuts`. */
  ghost predicate Told(G: Stream, base: int, from: nat, cuts: iset<int>, out: seq<Chunk>, next: int) {
    from <= next - base <= |G| && Concat(out) == G[from..next - base] && StopsIn(cuts, base + from, out)
  }

  ghost predicate StopsIn(cuts: iset<int>, first: int, out: seq<Chunk>) {
    forall k: nat :: k <= |out| ==> StopAt(first, out, k) in cuts
  }

  /** The number after the first k chunks. */
  function StopAt(first: int, out: seq<Chunk>, k: nat): int
    requires k <= |out|
  {
    first + |Concat(out[..k])|
  }

  lemma ConcatSnoc(out: seq<Chunk>, ch: Chunk)
    ensures Concat(out + [ch]) == Concat(out) + ch.bytes
  {
    assert (out + [ch])[..|out|] == out;
  }

  lemma SlicesJoin(G: Stream, a: nat, b: nat, c: nat)
    requires a <= b <= c <= |G|
    ensures G[a..b] + G[b..c] == G[a..c]
  {
  }

  lemma StopsSnoc(cuts: iset<int>, first: int, out: seq<Chunk>, ch: Chunk)
    requires StopsIn(cuts, first, out) && first + |Concat(out + [ch])| in cuts
    ensures StopsIn(cuts, first, out + [ch])
  {
    forall k: nat | k <= |out + [ch]| ensures StopAt(first, out + [ch], k) in cuts {
      if k <= |out| {
        assert (out + [ch])[..k] == out[..k];
        assert StopAt(first, out, k) in cuts;
      } else {
        assert (out + [ch])[..k] == out + [ch];
      }
    }
  }

  lemma ToldSnoc(G: Stream, base: int, from: nat, cuts: iset<int>, out: seq<Chunk>, next: int, ch: Chunk, next': int)
    requires Told(G, base, from, cuts, out, next) && next <= next' <= base + |G|
    requires ch.bytes == G[next - base..next' - base] && (next' == next || next' in cuts)
    ensures Told(G, base, from, cuts, out + [ch], next')
  {
    ConcatSnoc(out, ch);
    SlicesJoin(G, from, next - base, next' - base);
    assert out[..|out|] == out;
    assert StopAt(base + from, out, |out|) in cuts;
    StopsSnoc(cuts, base + from, out, ch);
  }

  ghost const ANYWHERE: iset<int> := iset x: int | true

  /** Every page ends at one of the numbers `cuts`. */
  ghost predicate Marked(cuts: iset<int>, ps: seq<PageVal>) {
    forall p <- ps :: p.seqno + |p.bytes| in cuts
  }

  /** All of it, for a connection with chunks about to be sent. */
  ghost predicate Fit(G: Stream, base: int, from: nat, cuts: iset<int>, w: Work) {
    && Tidy(G, base, w.conn) && NotLast(w) && Marked(cuts, w.conn.pages)
    && Told(G, base, from, cuts, AllChunks(w), w.conn.nextSeq)
  }

  // ---- popping ----

  function AfterPop(c: Conn): Conn
    requires c.pages != []
  {
    PopFirst(Work(c, [])).conn
  }

  /** Popping a page that is due hands over what is new of it. */
  lemma PopStep(G: Stream, base: int, c: Conn)
    requires Tidy(G, base, c) && Contiguous(c)
    ensures var p, next := c.pages[0], AfterPop(c).nextSeq;
            && c.nextSeq <= next <= base + |G| && p.seqno <= c.nextSeq && p.seqno + |p.bytes| <= next
            && (next == c.nextSeq || next == p.seqno + |p.bytes|)
            && Popped(c.nextSeq, p).bytes == G[c.nextSeq - base..next - base]
  {
    var p := c.pages[0];
    assert p in c.pages;
    assert PageOk(G, base, c.nextSeq - base, p);
    NextNear(G, base, c.nextSeq, p.seqno);
    SpanOfPage(G, base, c.nextSeq - base, p);
  }

  lemma PopTidy(G: Stream, base: int, c: Conn)
    requires Tidy(G, base, c) && Contiguous(c)
    ensures Tidy(G, base, AfterPop(c))
  {
    PopStep(G, base, c);
    var c' := AfterPop(c);
    PopOrdered(c.pages, c.nextSeq, c'.nextSeq);
    PagesStayOk(G, base, c.nextSeq - base, c'.nextSeq - base, c'.pages);
    forall i: nat | i < |c'.pages| && c'.pages[i].end ensures FollowedAt(c'.pages, i) {
      assert FollowedAt(c.pages, i + 1);
    }
  }

  /** The page after one with an End from an earlier use is due when that one is popped. */
  lemma PopNotLast(G: Stream, base: int, c: Conn)
    requires Tidy(G, base, c) && Contiguous(c) && c.pages[0].end
    ensures Contiguous(AfterPop(c))
  {
    PopStep(G, base, c);
    assert FollowedAt(c.pages, 0);
    assert c.pages[0] in c.pages && c.pages[1] in c.pages;
    NextNear(G, base, c.nextSeq, c.pages[0].seqno);
    NextNear(G, base, AfterPop(c).nextSeq, c.pages[1].seqno);
  }

  lemma PopHeld(G: Stream, base: int, c: Conn)
    requires Tidy(G, base, c) && Contiguous(c)
    ensures forall q :: Held(AfterPop(c), q) <==> Held(c, q)
  {
    PopStep(G, base, c);
    PopOrdered(c.pages, c.nextSeq, AfterPop(c).nextSeq);
    assert c.pages[0] in c.pages;
    forall q | Held(AfterPop(c), q) ensures Held(c, q) {
      if c.nextSeq <= q < AfterPop(c).nextSeq { assert OnPage(c.pages[0], q); }
    }
  }

  lemma PopChunks(w: Work)
    requires w.conn.pages != []
    ensures PopFirst(w).conn == AfterPop(w.conn)
    ensures AllChunks(PopFirst(w)) == AllChunks(w) + [Popped(w.conn.nextSeq, w.conn.pages[0])]
    ensures PopFirst(w).ret != [] && PopFirst(w).ret[|w.ret|].end == w.conn.pages[0].end && |PopFirst(w).ret| == |w.ret| + 1
  {
  }

  lemma PopTold(G: Stream, base: int, from: nat, cuts: iset<int>, c: Conn, out: seq<Chunk>)
    requires Tidy(G, base, c) && Contiguous(c) && Marked(cuts, c.pages) && Told(G, base, from, cuts, out, c.nextSeq)
    ensures Told(G, base, from, cuts, out + [Popped(c.nextSeq, c.pages[0])], AfterPop(c).nextSeq)
  {
    PopStep(G, base, c);
    assert c.pages[0] in c.pages;
    ToldSnoc(G, base, from, cuts, out, c.nextSeq, Popped(c.nextSeq, c.pages[0]), AfterPop(c).nextSeq);
  }

  lemma PopFit(G: Stream, base: int, from: nat, cuts: iset<int>, w: Work)
    requires Fit(G, base, from, cuts, w) && Contiguous(w.conn)
    ensures Fit(G, base, from, cuts, PopFirst(w)) && PopFirst(w).conn == AfterPop(w.conn)
  {
    PopTidy(G, base, w.conn);
    PopTold(G, base, from, cuts, w.conn, AllChunks(w));
    if w.conn.pages[0].end { PopNotLast(G, base, w.conn); }
    PopChunks(w);
  }

  lemma {:induction false} AddContiguousFit(G: Stream, base: int, from: nat, cuts: iset<int>, w: Work)
    requires Fit(G, base, from, cuts, w)
    ensures var w' := AddContiguous(w);
            Fit(G, base, from, cuts, w') && !Contiguous(w'.conn) && w'.conn.closed == w.conn.closed
    ensures forall q :: Held(AddContiguous(w).conn, q) <==> Held(w.conn, q)
    decreases |w.conn.pages|
  {
    if Contiguous(w.conn) {
      PopFit(G, base, from, cuts, w);
      PopHeld(G, base, w.conn);
      AddContiguousFit(G, base, from, cuts, PopFirst(w));
    }
  }

  /** An open connection between two packets. */
  ghost predicate Resting(G: Stream, base: int, from: nat, cuts: iset<int>, c: Conn) {
    && Tidy(G, base, c) && Marked(cuts, c.pages) && Told(G, base, from, cuts, c.out, c.nextSeq)
    && !c.closed && !Contiguous(c)
  }

  /** A batch never ends with an End, so the connection stays open. */
  lemma SendFit(G: Stream, base: int, from: nat, cuts: iset<int>, w: Work)
    requires Fit(G, base, from, cuts, w) && !w.conn.closed
    ensures Resting(G, base, from, cuts, Send(w))
    ensures forall q :: Held(Send(w), q) <==> Held(w.conn, q)
  {
    AddContiguousFit(G, base, from, cuts, w);
  }

  // ---- buffering ----

  const UNLIMITED: Options := Options(0, 0)

  predicate InSegment(g: Segment, q: int) {
    g.seqno <= q < g.seqno + |g.payload|
  }

  /** Where the pages of a payload end: each full one, and the last. */
  predicate PageEnd(seqno: int, len: nat, x: int)
    decreases len
  {
    if len <= PAGE_BYTES then x == seqno + len
    else x == seqno + PAGE_BYTES || PageEnd(seqno + PAGE_BYTES, len - PAGE_BYTES, x)
  }

  ghost predicate EndsIn(cuts: iset<int>, seqno: int, len: nat) {
    forall x: int :: PageEnd(seqno, len, x) ==> x in cuts
  }

  lemma {:induction false} SegmentEnds(seqno: int, len: nat)
    ensures PageEnd(seqno, len, seqno + len)
    decreases len
  {
    if len > PAGE_BYTES { SegmentEnds(seqno + PAGE_BYTES, len - PAGE_BYTES); }
  }

  /** The pages of one segment follow on each other. */
  lemma {:induction false} PagesFollow(seqno: SeqNo, payload: seq<Byte>, seen: int, stale: seq<Flags>)
    requires |stale| == PageCount(|payload|) && seqno + |payload| <= UINT32_MAX
    ensures var run := PagesFrom(seqno, payload, false, seen, stale);
            run != [] && run[0].seqno == seqno && EndsFollowed(run)
    decreases |payload|
  {
    if |payload| > PAGE_BYTES {
      var run := PagesFrom(seqno, payload, false, seen, stale);
      var rest := PagesFrom(Add(seqno, PAGE_BYTES), payload[PAGE_BYTES..], false, seen, stale[1..]);
      PagesFollow(Add(seqno, PAGE_BYTES), payload[PAGE_BYTES..], seen, stale[1..]);
      forall i: nat | i < |run| && run[i].end ensures FollowedAt(run, i) {
        if i > 0 { assert FollowedAt(rest, i - 1); }
      }
    }
  }

  lemma {:induction false} PagesMarked(cuts: iset<int>, seqno: SeqNo, payload: seq<Byte>, seen: int, stale: seq<Flags>)
    requires |stale| == PageCount(|payload|) && seqno + |payload| <= UINT32_MAX && EndsIn(cuts, seqno, |payload|)
    ensures Marked(cuts, PagesFrom(seqno, payload, false, seen, stale))
    decreases |payload|
  {
    assert |payload| <= PAGE_BYTES ==> PageEnd(seqno, |payload|, seqno + |payload|);
    if |payload| > PAGE_BYTES {
      assert PageEnd(seqno, |payload|, seqno + PAGE_BYTES);
      PagesMarked(cuts, Add(seqno, PAGE_BYTES), payload[PAGE_BYTES..], seen, stale[1..]);
    }
  }

  lemma {:induction false} PagesNumbered(G: Stream, base: int, seqno: SeqNo, payload: seq<Byte>, seen: int, stale: seq<Flags>)
    requires |stale| == PageCount(|payload|) && Numbered(G, base, seqno) && seqno + |payload| <= base + |G| <= UINT32_MAX
    ensures AllNumbered(G, base, PagesFrom(seqno, payload, false, seen, stale))
    decreases |payload|
  {
    if |payload| > PAGE_BYTES {
      PagesNumbered(G, base, Add(seqno, PAGE_BYTES), payload[PAGE_BYTES..], seen, stale[1..]);
    }
  }

  /** A run that goes behind the pages numbered at most as high keeps every End followed. */
  lemma SpliceFollowed(ps: seq<PageVal>, run: seq<PageVal>, k: nat)
    requires k <= |ps| && EndsFollowed(ps) && EndsFollowed(run) && run != []
    requires k > 0 ==> ps[k - 1].seqno <= run[0].seqno
    requires k < |ps| ==> run[0].seqno < ps[k].seqno
    ensures EndsFollowed(ps[..k] + run + ps[k..])
  {
    var all, r := ps[..k] + run + ps[k..], |run|;
    forall i: nat | i < |all| && all[i].end ensures FollowedAt(all, i) {
      if i < k {
        assert FollowedAt(ps, i);
      } else if i < k + r {
        assert FollowedAt(run, i - k);
      } else {
        assert FollowedAt(ps, i - r);
      }
    }
  }

  /** A segment that is to be buffered: its bytes are the stream's, or delivered already. */
  predicate Bufferable(G: Stream, base: int, next: int, g: Segment) {
    && Numbered(G, base, g.seqno) && g.seqno + |g.payload| <= base + |G|
    && (g.seqno + |g.payload| <= next || Matches(G, base, g.seqno, g.payload))
  }

  function Buffered(c: Conn, g: Segment, seen: int, stale: seq<Flags>): Conn
    requires |stale| == PageCount(|g.payload|)
  {
    c.(pages := Spliced(c.pages, PagesFrom(g.seqno, g.payload, false, seen, stale), g.seqno))
  }

  lemma BufferedOrdered(G: Stream, base: int, c: Conn, g: Segment, seen: int, stale: seq<Flags>)
    requires Tidy(G, base, c) && Bufferable(G, base, c.nextSeq, g) && |stale| == PageCount(|g.payload|)
    ensures Ordered(Buffered(c, g, seen, stale).pages, c.nextSeq) && EndsFollowed(Buffered(c, g, seen, stale).pages)
    ensures forall q :: Held(Buffered(c, g, seen, stale), q) <==> Held(c, q) || InSegment(g, q)
  {
    var run := PagesFrom(g.seqno, g.payload, false, seen, stale);
    var k := Position(c.pages, g.seqno);
    PagesFromIsRun(g.seqno, g.payload, false, seen, stale);
    PositionSplits(G, base, c.pages, g.seqno);
    SpliceOrdered(c.pages, run, k, g.seqno, |g.payload|, c.nextSeq);
    SpliceHeld(c.pages, run, k, g.seqno, |g.payload|);
    PagesFollow(g.seqno, g.payload, seen, stale);
    SpliceFollowed(c.pages, run, k);
  }

  lemma BufferedTidy(G: Stream, base: int, c: Conn, g: Segment, seen: int, stale: seq<Flags>)
    requires Tidy(G, base, c) && Bufferable(G, base, c.nextSeq, g) && |stale| == PageCount(|g.payload|)
    ensures Tidy(G, base, Buffered(c, g, seen, stale))
  {
    BufferedOrdered(G, base, c, g, seen, stale);
    PagesOk(G, base, c.nextSeq - base, g.seqno, g.payload, false, seen, stale);
    PagesNumbered(G, base, g.seqno, g.payload, seen, stale);
  }

  lemma SpliceHeld(ps: seq<PageVal>, run: seq<PageVal>, k: nat, seqno: int, len: nat)
    requires k <= |ps| && IsRun(run, seqno, len)
    ensures forall q :: InPages(ps[..k] + run + ps[k..], q) <==> InPages(ps, q) || seqno <= q < seqno + len
  {
    forall q ensures InPages(ps[..k] + run + ps[k..], q) <==> InPages(ps, q) || seqno <= q < seqno + len {
      InPagesConcat(ps[..k], run, q);
      InPagesConcat(ps[..k] + run, ps[k..], q);
      InPagesConcat(ps[..k], ps[k..], q);
      assert ps == ps[..k] + ps[k..];
    }
  }

  lemma InsertFit(G: Stream, base: int, from: nat, cuts: iset<int>, w: Work, g: Segment, seen: int, stale: seq<Flags>,
                  used: nat)
    requires Tidy(G, base, w.conn) && Marked(cuts, w.conn.pages) && (w.ret != [] ==> !w.ret[|w.ret| - 1].end)
    requires Told(G, base, from, cuts, AllChunks(w), w.conn.nextSeq)
    requires Bufferable(G, base, w.conn.nextSeq, g) && !g.End() && |stale| == PageCount(|g.payload|)
    requires EndsIn(cuts, g.seqno, |g.payload|)
    ensures var w' := Insert(UNLIMITED, w, g, seen, stale, used);
            Fit(G, base, from, cuts, w') && w'.ret == w.ret && w'.conn.closed == w.conn.closed
    ensures forall q :: Held(Insert(UNLIMITED, w, g, seen, stale, used).conn, q) <==> Held(w.conn, q) || InSegment(g, q)
  {
    var w' := Insert(UNLIMITED, w, g, seen, stale, used);
    assert w' == w.(conn := Buffered(w.conn, g, seen, stale));
    BufferedTidy(G, base, w.conn, g, seen, stale);
    BufferedOrdered(G, base, w.conn, g, seen, stale);
    PagesMarked(cuts, g.seqno, g.payload, seen, stale);
    assert AllChunks(w') == AllChunks(w);
  }

  // ---- one packet ----

  /** A segment that can be delivered or buffered whole. */
  predicate PlainSegment(G: Stream, base: int, g: Segment) {
    SegmentOk(G, base, g) && !g.syn && !g.End()
  }

  lemma InOrderStep(G: Stream, base: int, c: Conn, g: Segment, seen: int)
    requires Tidy(G, base, c) && PlainSegment(G, base, g) && g.payload != [] && Difference(c.nextSeq, g.seqno) <= 0
    ensures var w := InOrderWork(c, g, seen);
            && c.nextSeq <= w.conn.nextSeq <= base + |G| && g.seqno + |g.payload| <= w.conn.nextSeq
            && g.seqno <= c.nextSeq && (w.conn.nextSeq == c.nextSeq || w.conn.nextSeq == g.seqno + |g.payload|)
            && w.ret[0].bytes == G[c.nextSeq - base..w.conn.nextSeq - base]
  {
    NextNear(G, base, c.nextSeq, g.seqno);
    InOrderSpan(G, base, c.nextSeq - base, g);
  }

  lemma InOrderTidy(G: Stream, base: int, c: Conn, g: Segment, seen: int)
    requires Tidy(G, base, c) && PlainSegment(G, base, g) && g.payload != [] && Difference(c.nextSeq, g.seqno) <= 0
    ensures Tidy(G, base, InOrderWork(c, g, seen).conn)
    ensures forall q :: q >= base ==>
      (Held(InOrderWork(c, g, seen).conn, q) <==> Held(c, q) || InSegment(g, q))
  {
    var c' := InOrderWork(c, g, seen).conn;
    InOrderStep(G, base, c, g, seen);
    PagesStayOk(G, base, c.nextSeq - base, c'.nextSeq - base, c.pages);
    forall i: nat, j: nat, q: int | Inverted(c'.pages, i, j, q) ensures q < c'.nextSeq || InPages(c'.pages[..i], q) {
      assert Inverted(c.pages, i, j, q);
    }
  }

  lemma InOrderFit(G: Stream, base: int, from: nat, cuts: iset<int>, c: Conn, g: Segment, seen: int)
    requires Tidy(G, base, c) && Marked(cuts, c.pages) && Told(G, base, from, cuts, c.out, c.nextSeq)
    requires PlainSegment(G, base, g) && g.payload != [] && Difference(c.nextSeq, g.seqno) <= 0
    requires EndsIn(cuts, g.seqno, |g.payload|)
    ensures Fit(G, base, from, cuts, InOrderWork(c, g, seen))
  {
    var w := InOrderWork(c, g, seen);
    InOrderTidy(G, base, c, g, seen);
    InOrderStep(G, base, c, g, seen);
    SegmentEnds(g.seqno, |g.payload|);
    ToldSnoc(G, base, from, cuts, c.out, c.nextSeq, w.ret[0], w.conn.nextSeq);
    assert AllChunks(w) == c.out + [w.ret[0]];
  }

  /** Buffering a segment that has to wait leaves a first page that has to wait. */
  lemma NotContiguousAfterInsert(c: Conn, g: Segment, seen: int, stale: seq<Flags>, used: nat)
    requires !Contiguous(c) && Difference(c.nextSeq, g.seqno) > 0 && |stale| == PageCount(|g.payload|)
    ensures !Contiguous(Insert(UNLIMITED, Work(c, []), g, seen, stale, used).conn)
  {
    var run := PagesFrom(g.seqno, g.payload, g.End(), seen, stale);
    assert run[0].seqno == g.seqno;
  }

  lemma ReceiveAhead(G: Stream, base: int, from: nat, cuts: iset<int>, c: Conn, g: Segment, seen: int, stale: seq<Flags>,
                     used: nat)
    requires Resting(G, base, from, cuts, c) && PlainSegment(G, base, g) && g.payload != []
    requires |stale| == PageCount(|g.payload|) && EndsIn(cuts, g.seqno, |g.payload|) && Difference(c.nextSeq, g.seqno) > 0
    ensures var w := Insert(UNLIMITED, Work(c, []), g, seen, stale, used);
            w.ret == [] && Resting(G, base, from, cuts, w.conn)
    ensures forall q :: Held(Insert(UNLIMITED, Work(c, []), g, seen, stale, used).conn, q) <==> Held(c, q) || InSegment(g, q)
  {
    var w := Work(c, []);
    assert AllChunks(w) == c.out;
    InsertFit(G, base, from, cuts, w, g, seen, stale, used);
    var w' := Insert(UNLIMITED, w, g, seen, stale, used);
    assert AllChunks(w') == w'.conn.out;
    NotContiguousAfterInsert(c, g, seen, stale, used);
  }

  lemma ReceiveFit(G: Stream, base: int, from: nat, cuts: iset<int>, c: Conn, g: Segment, seen: int, stale: seq<Flags>,
                   used: nat)
    requires Resting(G, base, from, cuts, c) && PlainSegment(G, base, g) && g.payload != []
    requires |stale| == PageCount(|g.payload|) && EndsIn(cuts, g.seqno, |g.payload|)
    ensures Resting(G, base, from, cuts, Receive(UNLIMITED, c, g, seen, stale, used))
    ensures forall q :: q >= base ==>
      (Held(Receive(UNLIMITED, c, g, seen, stale, used), q) <==> Held(c, q) || InSegment(g, q))
  {
    var c1 := c.(lastSeen := if c.lastSeen < seen then seen else c.lastSeen);
    if Difference(c1.nextSeq, g.seqno) > 0 {
      ReceiveAhead(G, base, from, cuts, c1, g, seen, stale, used);
    } else {
      InOrderFit(G, base, from, cuts, c1, g, seen);
      InOrderTidy(G, base, c1, g, seen);
      SendFit(G, base, from, cuts, InOrderWork(c1, g, seen));
    }
  }

  // ---- the first packet ----

  predicate IsEmptySyn(base: int, g: Segment) {
    g.syn && !g.End() && g.seqno == base - 1 && g.payload == []
  }

  /** After an empty SYN nothing is buffered and the stream's first byte is next. */
  lemma EmptySyn(base: int, ls: int, g: Segment, seen: int, stale: seq<Flags>, used: nat)
    requires 1 <= base <= UINT32_MAX && IsEmptySyn(base, g) && |stale| == 1
    ensures Receive(UNLIMITED, NewConn(ls), g, seen, stale, used) ==
            Conn(base, [], if ls < seen then seen else ls, false,
                 [FirstChunk(g, seen), Chunk([], stale[0].skip, false, false, seen)])
  {
    var w := FirstWork(ls, g, seen);
    var p := PageVal(g.seqno, [], stale[0].skip, false, seen);
    assert Insert(UNLIMITED, w, g, seen, stale, used) == w.(conn := w.conn.(pages := [p]));
    var w' := w.(conn := w.conn.(pages := [p]));
    assert w'.conn.pages[1..] == [];
    assert AddContiguous(w') == PopFirst(w');
    assert w.conn.out + PopFirst(w').ret == PopFirst(w').ret;
  }

  /** The first segment: in a window a SYN, with or without data, or a capture that starts
      midway; otherwise an empty SYN. */
  predicate Opens(G: Stream, base: int, g: Segment) {
    || (Window(G, base) && FirstOk(G, base, g) && !g.End())
    || (Clear(G, base) && IsEmptySyn(base, g))
  }

  lemma FirstTold(G: Stream, base: int, g: Segment, seen: int, cuts: iset<int>)
    requires Window(G, base) && FirstOk(G, base, g)
    requires base + Origin(base, g) in cuts && base + Origin(base, g) + |g.payload| in cuts
    ensures Origin(base, g) >= 0
    ensures Told(G, base, Origin(base, g), cuts, [FirstChunk(g, seen)], base + Origin(base, g) + |g.payload|)
  {
    var from := Origin(base, g);
    var none: seq<Chunk> := [];
    assert Told(G, base, from, cuts, none, base + from);
    assert g.payload == G[from..from + |g.payload|];
    ToldSnoc(G, base, from, cuts, none, base + from, FirstChunk(g, seen), base + from + |g.payload|);
    assert none + [FirstChunk(g, seen)] == [FirstChunk(g, seen)];
  }

  lemma FirstWorkTold(G: Stream, base: int, ls: int, g: Segment, seen: int)
    requires Window(G, base) && FirstOk(G, base, g)
    ensures var w, from := FirstWork(ls, g, seen), Origin(base, g);
            && from >= 0 && w.conn.nextSeq == base + from + |g.payload| && w.conn.pages == []
            && Told(G, base, from, ANYWHERE, AllChunks(w), w.conn.nextSeq)
  {
    FirstTold(G, base, g, seen, ANYWHERE);
    assert AllChunks(FirstWork(ls, g, seen)) == [FirstChunk(g, seen)];
  }

  /** The first segment is delivered and then buffered as well. */
  lemma FirstWorkTidy(G: Stream, base: int, ls: int, g: Segment, seen: int)
    requires Window(G, base) && FirstOk(G, base, g)
    ensures var w, from := FirstWork(ls, g, seen), Origin(base, g);
            && w.conn.nextSeq == base + from + |g.payload| && w.conn.pages == [] && !w.conn.closed
            && Tidy(G, base, w.conn) && Bufferable(G, base, w.conn.nextSeq, g)
            && DataStart(g) == base + from && !w.ret[|w.ret| - 1].end
  {
    AddSmall(g.seqno, |g.payload| + if g.syn then 1 else 0);
  }

  lemma FirstWorkFit(G: Stream, base: int, ls: int, g: Segment, seen: int, stale: seq<Flags>, used: nat)
    requires Window(G, base) && FirstOk(G, base, g) && !g.End() && |stale| == PageCount(|g.payload|)
    ensures var w, from := Insert(UNLIMITED, FirstWork(ls, g, seen), g, seen, stale, used), Origin(base, g);
            && from >= 0 && Fit(G, base, from, ANYWHERE, w) && !w.conn.closed
            && forall q :: q >= base + from ==> (Held(w.conn, q) <==> Covers(g, q))
  {
    FirstWorkTold(G, base, ls, g, seen);
    FirstWorkTidy(G, base, ls, g, seen);
    InsertFit(G, base, Origin(base, g), ANYWHERE, FirstWork(ls, g, seen), g, seen, stale, used);
  }

  lemma WindowFirst(G: Stream, base: int, ls: int, g: Segment, seen: int, stale: seq<Flags>, used: nat)
    requires Window(G, base) && FirstOk(G, base, g) && !g.End() && |stale| == PageCount(|g.payload|)
    ensures var c, from := Receive(UNLIMITED, NewConn(ls), g, seen, stale, used), Origin(base, g);
            && from >= 0 && Resting(G, base, from, ANYWHERE, c)
            && forall q :: q >= base + from ==> (Held(c, q) <==> Covers(g, q))
  {
    FirstWorkFit(G, base, ls, g, seen, stale, used);
    SendFit(G, base, Origin(base, g), ANYWHERE, Insert(UNLIMITED, FirstWork(ls, g, seen), g, seen, stale, used));
  }

  /** Nothing has been delivered yet. */
  lemma BlankTold(G: Stream, base: int, cuts: iset<int>, a: Chunk, b: Chunk)
    requires a.bytes == b.bytes == [] && base in cuts
    ensures Told(G, base, 0, cuts, [a, b], base)
  {
    var none: seq<Chunk> := [];
    assert Told(G, base, 0, cuts, none, base);
    ToldSnoc(G, base, 0, cuts, none, base, a, base);
    assert none + [a] == [a];
    ToldSnoc(G, base, 0, cuts, [a], base, b, base);
    assert [a] + [b] == [a, b];
  }

  lemma EmptySynResting(G: Stream, base: int, ls: int, g: Segment, seen: int, stale: seq<Flags>, used: nat, cuts: iset<int>)
    requires Clear(G, base) && IsEmptySyn(base, g) && |stale| == 1 && base in cuts
    ensures Resting(G, base, 0, cuts, Receive(UNLIMITED, NewConn(ls), g, seen, stale, used))
    ensures Receive(UNLIMITED, NewConn(ls), g, seen, stale, used).nextSeq == base
    ensures forall q :: q >= base ==> !Held(Receive(UNLIMITED, NewConn(ls), g, seen, stale, used), q)
  {
    EmptySyn(base, ls, g, seen, stale, used);
    BlankTold(G, base, cuts, FirstChunk(g, seen), Chunk([], stale[0].skip, false, false, seen));
  }

  // ---- all packets ----

  /** Arrivals only: no flushes, no second SYN, no FIN or RST. */
  predicate Arrival(G: Stream, base: int, e: Event) {
    e.Packet? && EventOk(e) && PlainSegment(G, base, e.g)
  }

  /** The pages of the segment end where delivery may stop. */
  ghost predicate CutsAt(cuts: iset<int>, e: Event) {
    e.Packet? && (e.g.payload != [] ==> EndsIn(cuts, e.g.seqno, |e.g.payload|))
  }

  function Segments(es: seq<Event>): seq<Segment>
    requires forall e <- es :: e.Packet?
  {
    seq(|es|, i requires 0 <= i < |es| => es[i].g)
  }

  lemma CoveredSnoc(gs: seq<Segment>, g: Segment, q: int)
    ensures Covered(gs + [g], q) <==> Covered(gs, q) || Covers(g, q)
  {
    if Covered(gs, q) {
      var h :| h in gs && Covers(h, q);
      assert h in gs + [g];
    }
    if Covers(g, q) { assert g in gs + [g]; }
  }

  lemma SegmentsSnoc(es: seq<Event>)
    requires es != [] && forall e <- es :: e.Packet?
    ensures forall q :: Covered(Segments(es), q) <==>
      Covered(Segments(es[..|es| - 1]), q) || Covers(es[|es| - 1].g, q)
  {
    var es0, e := es[..|es| - 1], es[|es| - 1];
    assert Segments(es) == Segments(es0) + [e.g];
    forall q { CoveredSnoc(Segments(es0), e.g, q); }
  }

  lemma HandleFit(G: Stream, base: int, from: nat, cuts: iset<int>, c: Conn, e: Event)
    requires Resting(G, base, from, cuts, c) && Arrival(G, base, e) && CutsAt(cuts, e)
    ensures Resting(G, base, from, cuts, Handle(UNLIMITED, c, e))
    ensures forall q :: q >= base ==> (Held(Handle(UNLIMITED, c, e), q) <==> Held(c, q) || Covers(e.g, q))
  {
    if !e.g.Empty() { ReceiveFit(G, base, from, cuts, c, e.g, e.seen, e.stale, e.used); }
  }

  /** From any connection at rest: it stays at rest, and holds what arrives. */
  lemma {:induction false} RunFit(G: Stream, base: int, from: nat, cuts: iset<int>, c0: Conn, es: seq<Event>)
    requires Resting(G, base, from, cuts, c0) && forall e <- es :: e.Packet? && EventOk(e)
    requires forall e <- es :: Arrival(G, base, e) && CutsAt(cuts, e)
    ensures Resting(G, base, from, cuts, Run(UNLIMITED, c0, es))
    ensures forall q :: q >= base ==> (Held(Run(UNLIMITED, c0, es), q) <==> Held(c0, q) || Covered(Segments(es), q))
  {
    if es != [] {
      var es0, e := es[..|es| - 1], es[|es| - 1];
      RunFit(G, base, from, cuts, c0, es0);
      assert Arrival(G, base, e) && CutsAt(cuts, e);
      HandleFit(G, base, from, cuts, Run(UNLIMITED, c0, es0), e);
      SegmentsSnoc(es);
    }
  }

  ghost predicate LongestPrefix(gs: seq<Segment>, start: int, end: int) {
    && start <= end
    && (forall q :: start <= q < end ==> Covered(gs, q))
    && !Covered(gs, end)
  }

  lemma NextIsNotHeld(G: Stream, base: int, from: nat, cuts: iset<int>, c: Conn)
    requires Resting(G, base, from, cuts, c)
    ensures !Held(c, c.nextSeq)
  {
    if c.nextSeq == base + |G| {
      forall p | p in c.pages ensures !OnPage(p, c.nextSeq) {
        assert PageOk(G, base, c.nextSeq - base, p);
      }
    } else {
      if c.pages != [] {
        assert c.pages[0] in c.pages;
        NextNear(G, base, c.nextSeq, c.pages[0].seqno);
      }
      FirstPageBlocksAll(c.pages, c.nextSeq);
    }
  }

  lemma PrefixHeld(gs: seq<Segment>, g: Segment, c0: Conn, c: Conn, start: int)
    requires start <= c.nextSeq && !Held(c, c.nextSeq)
    requires forall q :: q >= start ==> (Held(c0, q) <==> Covers(g, q))
    requires forall q :: q >= start ==> (Held(c, q) <==> Held(c0, q) || Covered(gs, q))
    ensures LongestPrefix([g] + gs, start, c.nextSeq)
  {
    forall q | q >= start ensures Covered([g] + gs, q) <==> Held(c, q) {
      if Covered([g] + gs, q) {
        var h :| h in [g] + gs && Covers(h, q);
        assert h == g || h in gs;
      }
      if Covered(gs, q) {
        var h :| h in gs && Covers(h, q);
        assert h in [g] + gs;
      }
      if Covers(g, q) { assert g in [g] + gs; }
    }
  }

  /** After an empty SYN; each chunk ends where a page of a segment does. */
  lemma CompleteAfterSyn(G: Stream, base: int, ls: int, g: Segment, seen: int, stale: seq<Flags>, used: nat, es: seq<Event>,
                         cuts: iset<int>) returns (n: nat)
    requires Clear(G, base) && IsEmptySyn(base, g) && |stale| == 1 && base in cuts
    requires forall e <- es :: e.Packet? && EventOk(e)
    requires forall e <- es :: Arrival(G, base, e) && CutsAt(cuts, e)
    ensures var c := Run(UNLIMITED, Receive(UNLIMITED, NewConn(ls), g, seen, stale, used), es);
            && c.nextSeq == base + n && !c.closed && n <= |G| && Told(G, base, 0, cuts, c.out, base + n)
            && LongestPrefix([g] + Segments(es), base, base + n)
  {
    var c0 := Receive(UNLIMITED, NewConn(ls), g, seen, stale, used);
    var c := Run(UNLIMITED, c0, es);
    EmptySynResting(G, base, ls, g, seen, stale, used, cuts);
    RunFit(G, base, 0, cuts, c0, es);
    NextIsNotHeld(G, base, 0, cuts, c);
    PrefixHeld(Segments(es), g, c0, c, base);
    n := c.nextSeq - base;
  }

  lemma CompleteInWindow(G: Stream, base: int, ls: int, g: Segment, seen: int, stale: seq<Flags>, used: nat, es: seq<Event>)
    returns (n: nat)
    requires Window(G, base) && FirstOk(G, base, g) && !g.End() && |stale| == PageCount(|g.payload|)
    requires forall e <- es :: e.Packet? && EventOk(e)
    requires forall e <- es :: Arrival(G, base, e)
    ensures var c, from := Run(UNLIMITED, Receive(UNLIMITED, NewConn(ls), g, seen, stale, used), es), Origin(base, g);
            && c.nextSeq == base + n && !c.closed && from >= 0 && Told(G, base, from, ANYWHERE, c.out, base + n)
            && LongestPrefix([g] + Segments(es), base + from, base + n)
  {
    var c0 := Receive(UNLIMITED, NewConn(ls), g, seen, stale, used);
    var c := Run(UNLIMITED, c0, es);
    var from := Origin(base, g);
    WindowFirst(G, base, ls, g, seen, stale, used);
    RunFit(G, base, from, ANYWHERE, c0, es);
    NextIsNotHeld(G, base, from, ANYWHERE, c);
    PrefixHeld(Segments(es), g, c0, c, base + from);
    n := c.nextSeq - base;
  }

  /** The connection stays open, and has delivered, without a gap and without repeating a
      byte, the longest prefix that the segments so far cover. */
  lemma Complete(G: Stream, base: int, ls: int, g: Segment, seen: int, stale: seq<Flags>, used: nat, es: seq<Event>)
    returns (n: nat)
    requires Opens(G, base, g) && |stale| == PageCount(|g.payload|)
    requires forall e <- es :: e.Packet? && EventOk(e)
    requires forall e <- es :: Arrival(G, base, e)
    ensures var c := Run(UNLIMITED, Receive(UNLIMITED, NewConn(ls), g, seen, stale, used), es);
            && c.nextSeq == base + n && !c.closed
            && 0 <= Origin(base, g) <= n <= |G| && Concat(c.out) == G[Origin(base, g)..n]
            && LongestPrefix([g] + Segments(es), base + Origin(base, g), base + n)
  {
    if Window(G, base) && FirstOk(G, base, g) && !g.End() {
      n := CompleteInWindow(G, base, ls, g, seen, stale, used, es);
    } else {
      n := CompleteAfterSyn(G, base, ls, g, seen, stale, used, es, ANYWHERE);
    }
  }

  lemma LongestPrefixUnique(gs: seq<Segment>, gs': seq<Segment>, start: int, end: int, end': int)
    requires forall g :: g in gs <==> g in gs'
    requires LongestPrefix(gs, start, end) && LongestPrefix(gs', start, end')
    ensures end == end'
  {
    forall q ensures Covered(gs, q) <==> Covered(gs', q) {
      if Covered(gs, q) {
        var g :| g in gs && Covers(g, q);
        assert g in gs';
      }
    }
  }

  /** So the bytes delivered depend on which segments arrived only: not on their order,
      their timestamps, how often each was repeated, or what pages were recycled. */
  lemma OrderIndependent(G: Stream, base: int, g: Segment,
                         ls: int, seen: int, stale: seq<Flags>, used: nat, es: seq<Event>,
                         ls': int, seen': int, stale': seq<Flags>, used': nat, es': seq<Event>)
    requires Opens(G, base, g) && |stale| == |stale'| == PageCount(|g.payload|)
    requires forall e <- es :: e.Packet? && EventOk(e)
    requires forall e <- es :: Arrival(G, base, e)
    requires forall e <- es' :: e.Packet? && EventOk(e)
    requires forall e <- es' :: Arrival(G, base, e)
    requires forall h :: h in Segments(es) <==> h in Segments(es')
    ensures Concat(Run(UNLIMITED, Receive(UNLIMITED, NewConn(ls), g, seen, stale, used), es).out) ==
            Concat(Run(UNLIMITED, Receive(UNLIMITED, NewConn(ls'), g, seen', stale', used'), es').out)
  {
    var n := Complete(G, base, ls, g, seen, stale, used, es);
    var n' := Complete(G, base, ls', g, seen', stale', used', es');
    LongestPrefixUnique([g] + Segments(es), [g] + Segments(es'), base + Origin(base, g), base + n, base + n');
  }
}
