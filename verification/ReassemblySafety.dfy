/** What the reassembler delivers, whatever arrives and whatever is flushed: slices of
    one byte stream, in order, never overlapping.  `G` is the stream the sender wrote and
    `base` the sequence number of its first byte (a SYN takes the number before it, as in
    section 3.4 of RFC 9293). */
module ReassemblySafety {
  import opened Bytes
  import opened Sequence
  import opened Reassembly

  type Stream = seq<Byte>

  /** The sequence numbers in use, from the SYN to the end of the stream, do not roll
      over and do not touch both outer quarters, where Difference corrects for a
      roll-over. */
  predicate Window(G: Stream, base: int) {
    1 <= base && Range(G, base) && SameSide(base - 1, base + |G|)
  }

  predicate Range(G: Stream, base: int) {
    0 <= base && base + |G| <= UINT32_MAX
  }

  predicate Matches(G: Stream, base: int, seqno: int, bytes: seq<Byte>) {
    base <= seqno && seqno + |bytes| <= base + |G| && bytes == G[seqno - base..seqno - base + |bytes|]
  }

  /** A later segment: bytes of the stream at their own sequence number, or no bytes. */
  predicate SegmentOk(G: Stream, base: int, g: Segment) {
    && base - 1 <= g.seqno <= base + |G|
    && (g.payload != [] ==> Matches(G, base, g.seqno, g.payload))
  }

  /** The first segment: a SYN, with or without data, or a capture that starts midway. */
  predicate FirstOk(G: Stream, base: int, g: Segment) {
    if g.syn then g.seqno == base - 1 && g.payload <= G
    else Matches(G, base, g.seqno, g.payload)
  }

  /** A buffered page either repeats delivered bytes only or holds the bytes of the stream
      at its number. */
  predicate PageOk(G: Stream, base: int, n: int, p: PageVal) {
    && base - 1 <= p.seqno && p.seqno + |p.bytes| <= base + |G|
    && (p.seqno + |p.bytes| <= base + n || Matches(G, base, p.seqno, p.bytes))
  }

  /** `n` bytes of the stream lie before nextSeq. */
  ghost predicate Inv(G: Stream, base: int, c: Conn, n: nat) {
    && Window(G, base) && n <= |G| && c.nextSeq == base + n
    && PagesAllOk(G, base, n, c.pages)
  }

  function LastEnd(ends: seq<nat>, from: nat): nat {
    if ends == [] then from else ends[|ends| - 1]
  }

  /** The chunk is the slice of the stream that ends at `end` and starts at or after
      `before`; a gap is announced with its exact size. */
  predicate ChunkLaid(G: Stream, ch: Chunk, before: nat, end: nat) {
    && before <= end - |ch.bytes| && end <= |G|
    && ch.bytes == G[end - |ch.bytes|..end]
    && (before < end - |ch.bytes| ==> ch.skip == end - |ch.bytes| - before)
  }

  /** Chunk i is a slice of the stream ending at ends[i], after its predecessor's end, and
      with a gap before it only if i is in `forced`. */
  predicate Laid(G: Stream, out: seq<Chunk>, ends: seq<nat>, from: nat, forced: set<nat>) {
    if out == [] then ends == []
    else
      var i := |out| - 1;
      && |ends| == |out|
      && ChunkLaid(G, out[i], LastEnd(ends[..i], from), ends[i])
      && (i !in forced ==> LastEnd(ends[..i], from) == ends[i] - |out[i].bytes|)
      && Laid(G, out[..i], ends[..i], from, forced)
  }

  lemma LaidSnoc(G: Stream, out: seq<Chunk>, ends: seq<nat>, from: nat, forced: set<nat>, ch: Chunk, end: nat)
    requires Laid(G, out, ends, from, forced) && ChunkLaid(G, ch, LastEnd(ends, from), end)
    requires |out| in forced || LastEnd(ends, from) == end - |ch.bytes|
    ensures Laid(G, out + [ch], ends + [end], from, forced)
  {
    assert |ends| == |out|;
    assert (out + [ch])[..|out|] == out && (ends + [end])[..|out|] == ends;
  }

  /** Everything sent so far, then everything about to be sent. */
  function AllChunks(w: Work): seq<Chunk> {
    w.conn.out + w.ret
  }

  ghost predicate WorkInv(G: Stream, base: int, w: Work, ends: seq<nat>, from: nat, forced: set<nat>) {
    Inv(G, base, w.conn, LastEnd(ends, from)) && Laid(G, AllChunks(w), ends, from, forced)
  }

  /** ByteSpan hands over exactly the bytes that are not delivered yet, if the two numbers'
      distance comes out right. */
  lemma SpanOfPage(G: Stream, base: int, n: nat, p: PageVal)
    requires Range(G, base) && n <= |G| && PageOk(G, base, n, p) && Near(base + n, p.seqno)
    ensures var (bytes, next) := ByteSpan(base + n, p.seqno, p.bytes);
            var n' := next - base;
            && n <= n' - |bytes| && n' <= |G| && bytes == G[n' - |bytes|..n']
            && p.seqno + |p.bytes| <= next
            && (p.seqno <= base + n ==> n == n' - |bytes|)
            && (p.seqno > base + n ==> n' - |bytes| - n == Difference(base + n, p.seqno) && next == p.seqno + |p.bytes|)
            && (n < n' ==> n' == p.seqno + |p.bytes| - base && Matches(G, base, p.seqno, p.bytes))
  {
    DifferenceIsAntisymmetric(base + n, p.seqno);
    if base + n <= p.seqno { SpanAhead(G, base, n, p); } else { SpanBehind(G, base, n, p); }
  }

  lemma SpanAhead(G: Stream, base: int, n: nat, p: PageVal)
    requires Range(G, base) && n <= |G| && PageOk(G, base, n, p) && Near(base + n, p.seqno) && base + n <= p.seqno
    ensures ByteSpan(base + n, p.seqno, p.bytes) == (p.bytes, p.seqno + |p.bytes|)
    ensures Matches(G, base, p.seqno, p.bytes) && Difference(base + n, p.seqno) == p.seqno - base - n
  {
    DifferenceIsAntisymmetric(base + n, p.seqno);
    AddSmall(p.seqno, |p.bytes|);
  }

  lemma SpanBehind(G: Stream, base: int, n: nat, p: PageVal)
    requires Range(G, base) && n <= |G| && PageOk(G, base, n, p) && Near(base + n, p.seqno) && base + n > p.seqno
    ensures var (bytes, next) := ByteSpan(base + n, p.seqno, p.bytes);
            && next == (if p.seqno + |p.bytes| <= base + n then base + n else p.seqno + |p.bytes|)
            && bytes == G[n..next - base] && (next > base + n ==> Matches(G, base, p.seqno, p.bytes))
  {
    DifferenceIsAntisymmetric(base + n, p.seqno);
    var span := base + n - p.seqno;
    if span <= |p.bytes| {
      AddSmall(base + n, |p.bytes| - span);
      if Matches(G, base, p.seqno, p.bytes) { TrimmedBytes(G, base, n, p); }
    }
  }

  lemma TrimmedBytes(G: Stream, base: int, n: nat, p: PageVal)
    requires n <= |G| && 0 < base + n - p.seqno <= |p.bytes| && Matches(G, base, p.seqno, p.bytes)
    ensures p.seqno - base + |p.bytes| <= |G| && p.bytes[base + n - p.seqno..] == G[n..p.seqno - base + |p.bytes|]
  {
  }

  predicate PagesAllOk(G: Stream, base: int, n: int, pages: seq<PageVal>) {
    forall p <- pages :: PageOk(G, base, n, p)
  }

  lemma PagesStayOk(G: Stream, base: int, n: nat, n': nat, pages: seq<PageVal>)
    requires PagesAllOk(G, base, n, pages) && n <= n'
    ensures PagesAllOk(G, base, n', pages)
  {
    forall p | p in pages ensures PageOk(G, base, n', p) {
      assert PageOk(G, base, n, p);
    }
  }

  lemma PoppedLaid(G: Stream, base: int, n: nat, p: PageVal)
    requires Range(G, base) && n <= |G| && PageOk(G, base, n, p) && Near(base + n, p.seqno)
    ensures var n' := ByteSpan(base + n, p.seqno, p.bytes).1 - base;
            var ch := Popped(base + n, p);
            && n <= n' <= |G| && ChunkLaid(G, ch, n, n')
            && (Difference(base + n, p.seqno) <= 0 ==> n == n' - |ch.bytes|)
            && base + n' >= p.seqno + |p.bytes|
            && (n < n' ==> base + n' == p.seqno + |p.bytes|)
  {
    SpanOfPage(G, base, n, p);
  }

  lemma PopInv(G: Stream, base: int, c: Conn, n: nat)
    requires Inv(G, base, c, n) && c.pages != []
    ensures var p := c.pages[0];
            var n' := ByteSpan(c.nextSeq, p.seqno, p.bytes).1 - base;
            && n <= n' && Inv(G, base, PopFirst(Work(c, [])).conn, n') && ChunkLaid(G, Popped(c.nextSeq, p), n, n')
            && (Contiguous(c) ==> n == n' - |Popped(c.nextSeq, p).bytes|)
            && base + n' >= p.seqno + |p.bytes|
            && (n < n' ==> base + n' == p.seqno + |p.bytes|)
  {
    var p := c.pages[0];
    PoppedLaid(G, base, n, p);
    PagesStayOk(G, base, n, ByteSpan(c.nextSeq, p.seqno, p.bytes).1 - base, c.pages[1..]);
  }

  /** Popping the first page moves nextSeq forward, to the end of what it hands over. */
  lemma PopSafe(G: Stream, base: int, w: Work, ends: seq<nat>, from: nat, forced: set<nat>) returns (n': nat)
    requires WorkInv(G, base, w, ends, from, forced) && w.conn.pages != []
    requires Contiguous(w.conn) || |AllChunks(w)| in forced
    ensures LastEnd(ends, from) <= n' && WorkInv(G, base, PopFirst(w), ends + [n'], from, forced)
    ensures base + n' >= w.conn.pages[0].seqno + |w.conn.pages[0].bytes|
  {
    var c, n := w.conn, LastEnd(ends, from);
    var p := c.pages[0];
    PopInv(G, base, c, n);
    n' := ByteSpan(c.nextSeq, p.seqno, p.bytes).1 - base;
    LaidSnoc(G, AllChunks(w), ends, from, forced, Popped(c.nextSeq, p), n');
    assert AllChunks(PopFirst(w)) == AllChunks(w) + [Popped(c.nextSeq, p)];
    assert PopFirst(w).conn == PopFirst(Work(c, [])).conn;
    assert LastEnd(ends + [n'], from) == n';
  }

  lemma {:induction false} AddContiguousSafe(G: Stream, base: int, w: Work, ends: seq<nat>, from: nat, forced: set<nat>)
    returns (ends': seq<nat>)
    requires WorkInv(G, base, w, ends, from, forced)
    ensures ends <= ends' && LastEnd(ends, from) <= LastEnd(ends', from)
    ensures WorkInv(G, base, AddContiguous(w), ends', from, forced)
    decreases |w.conn.pages|
  {
    if Contiguous(w.conn) {
      var m := PopSafe(G, base, w, ends, from, forced);
      ends' := AddContiguousSafe(G, base, PopFirst(w), ends + [m], from, forced);
    } else {
      ends' := ends;
    }
  }

  lemma SendSafe(G: Stream, base: int, w: Work, ends: seq<nat>, from: nat, forced: set<nat>)
    returns (ends': seq<nat>)
    requires WorkInv(G, base, w, ends, from, forced)
    ensures ends <= ends' && LastEnd(ends, from) <= LastEnd(ends', from)
    ensures Inv(G, base, Send(w), LastEnd(ends', from)) && Laid(G, Send(w).out, ends', from, forced)
  {
    ends' := AddContiguousSafe(G, base, w, ends, from, forced);
  }

  /** Cutting a segment into pages keeps every byte at its sequence number. */
  lemma {:induction false} PagesOk(G: Stream, base: int, n: nat, seqno: SeqNo, payload: seq<Byte>,
                                   end: bool, seen: int, stale: seq<Flags>)
    requires Range(G, base) && n <= |G| && |stale| == PageCount(|payload|)
    requires base - 1 <= seqno && seqno + |payload| <= base + |G|
    requires seqno + |payload| <= base + n || Matches(G, base, seqno, payload)
    ensures PagesAllOk(G, base, n, PagesFrom(seqno, payload, end, seen, stale))
    decreases |payload|
  {
    if |payload| > PAGE_BYTES {
      var rest := payload[PAGE_BYTES..];
      assert Add(seqno, PAGE_BYTES) == seqno + PAGE_BYTES;
      if Matches(G, base, seqno, payload) {
        assert payload[..PAGE_BYTES] == G[seqno - base..seqno - base + PAGE_BYTES];
        assert rest == G[seqno + PAGE_BYTES - base..seqno - base + |payload|];
      }
      PagesOk(G, base, n, Add(seqno, PAGE_BYTES), rest, end, seen, stale[1..]);
    }
  }

  /** A segment that needs n pages takes the connection, or the cache, up to a limit that is set. */
  predicate ForcedInsert(o: Options, c: Conn, g: Segment, used: nat) {
    var n := if g.payload == [] then 1 else (|g.payload| + 1899) / 1900;
    (o.maxPerConn > 0 && |c.pages| + n >= o.maxPerConn) || (o.maxTotal > 0 && used + n >= o.maxTotal)
  }

  lemma {:induction false} PageCountInNumbers(n: nat)
    ensures PageCount(n) == if n == 0 then 1 else (n + 1899) / 1900
    decreases n
  {
    if n > 1900 { PageCountInNumbers(n - 1900); }
  }

  lemma ForcedMeansLimit(o: Options, c: Conn, g: Segment, used: nat)
    ensures ForcedInsert(o, c, g, used) <==>
      LimitHit(o, |c.pages| + PageCount(|g.payload|), used + PageCount(|g.payload|))
  {
    PageCountInNumbers(|g.payload|);
  }

  lemma InsertSafe(G: Stream, base: int, o: Options, w: Work, g: Segment, seen: int, stale: seq<Flags>, used: nat,
                   ends: seq<nat>, from: nat, forced: set<nat>) returns (ends': seq<nat>)
    requires WorkInv(G, base, w, ends, from, forced) && |stale| == PageCount(|g.payload|)
    requires base - 1 <= g.seqno && g.seqno + |g.payload| <= base + |G|
    requires g.seqno + |g.payload| <= base + LastEnd(ends, from) || Matches(G, base, g.seqno, g.payload)
    requires ForcedInsert(o, w.conn, g, used) ==> (w.conn.pages == [] && g.seqno <= w.conn.nextSeq) || |AllChunks(w)| in forced
    ensures ends <= ends' && LastEnd(ends, from) <= LastEnd(ends', from)
    ensures WorkInv(G, base, Insert(o, w, g, seen, stale, used), ends', from, forced)
  {
    var run := PagesFrom(g.seqno, g.payload, g.End(), seen, stale);
    var w' := w.(conn := w.conn.(pages := Spliced(w.conn.pages, run, g.seqno)));
    PagesOk(G, base, LastEnd(ends, from), g.seqno, g.payload, g.End(), seen, stale);
    ForcedMeansLimit(o, w.conn, g, used);
    assert AllChunks(w') == AllChunks(w);
    if LimitHit(o, |w'.conn.pages|, used + |run|) {
      if w.conn.pages == [] && g.seqno <= w.conn.nextSeq { assert Contiguous(w'.conn); }
      var m := PopSafe(G, base, w', ends, from, forced);
      ends' := ends + [m];
    } else {
      ends' := ends;
    }
  }

  /** The start of the delivered bytes: position 0 after a SYN. */
  function Origin(base: int, g: Segment): int {
    if g.syn then 0 else g.seqno - base
  }

  function FirstWork(ls: int, g: Segment, seen: int): Work {
    var c := NewConn(ls).(lastSeen := if ls < seen then seen else ls);
    Work(c.(nextSeq := Add(g.seqno, |g.payload| + if g.syn then 1 else 0)), [FirstChunk(g, seen)])
  }

  lemma FirstWorkSafe(G: Stream, base: int, ls: int, g: Segment, seen: int)
    requires Window(G, base) && FirstOk(G, base, g)
    ensures var from := Origin(base, g);
            && from >= 0
            && WorkInv(G, base, FirstWork(ls, g, seen), [from + |g.payload|], from, {})
            && g.seqno <= FirstWork(ls, g, seen).conn.nextSeq
  {
    var from := Origin(base, g);
    assert Add(g.seqno, |g.payload| + if g.syn then 1 else 0) == base + from + |g.payload|;
    assert g.payload == G[from..from + |g.payload|];
    var ends: seq<nat> := [];
    LaidSnoc(G, [], ends, from, {}, FirstChunk(g, seen), from + |g.payload|);
    assert AllChunks(FirstWork(ls, g, seen)) == [] + [FirstChunk(g, seen)];
    assert ends + [from + |g.payload|] == [from + |g.payload|];
  }

  lemma ReceiveFirstSafe(G: Stream, base: int, o: Options, ls: int, g: Segment, seen: int, stale: seq<Flags>, used: nat)
    returns (ends: seq<nat>)
    requires Window(G, base) && FirstOk(G, base, g) && |stale| == PageCount(|g.payload|)
    ensures var c := Receive(o, NewConn(ls), g, seen, stale, used);
            && Inv(G, base, c, LastEnd(ends, Origin(base, g)))
            && Laid(G, c.out, ends, Origin(base, g), {})
  {
    var from := Origin(base, g);
    var w := FirstWork(ls, g, seen);
    FirstWorkSafe(G, base, ls, g, seen);
    ends := InsertSafe(G, base, o, w, g, seen, stale, used, [from + |g.payload|], from, {});
    ends := SendSafe(G, base, Insert(o, w, g, seen, stale, used), ends, from, {});
  }

  /** One event, given where its own forced page would go. */
  function ForcedBy(o: Options, c: Conn, e: Event): set<nat> {
    if c.closed then {}
    else match e
      case Packet(g, _, _, used) =>
        if !g.Empty() && Difference(c.nextSeq, g.seqno) > 0 && ForcedInsert(o, c, g, used) then {|c.out|} else {}
      case Older(t) => ForcedOlder(c, t)
      case All => ForcedAll(c)
  }

  function ForcedOlder(c: Conn, t: int): set<nat>
    decreases |c.pages|
  {
    if c.pages != [] && c.pages[0].seen < t then
      {|c.out|} + if SkipFlush(c).closed then {} else ForcedOlder(SkipFlush(c), t)
    else {}
  }

  function ForcedAll(c: Conn): set<nat>
    decreases |c.pages|
  {
    if c.pages == [] then {}
    else {|c.out|} + if SkipFlush(c).closed then {} else ForcedAll(SkipFlush(c))
  }

  lemma {:induction false} LaidMore(G: Stream, out: seq<Chunk>, ends: seq<nat>, from: nat, forced: set<nat>, more: set<nat>)
    requires Laid(G, out, ends, from, forced) && forced <= more
    ensures Laid(G, out, ends, from, more)
  {
    if out != [] { LaidMore(G, out[..|out| - 1], ends[..|out| - 1], from, forced, more); }
  }

  lemma ReceiveSafe(G: Stream, base: int, o: Options, c: Conn, g: Segment, seen: int, stale: seq<Flags>, used: nat,
                    ends: seq<nat>, from: nat, forced: set<nat>) returns (ends': seq<nat>)
    requires Inv(G, base, c, LastEnd(ends, from)) && Laid(G, c.out, ends, from, forced)
    requires SegmentOk(G, base, g) && |stale| == PageCount(|g.payload|)
    requires Difference(c.nextSeq, g.seqno) > 0 && ForcedInsert(o, c, g, used) ==> |c.out| in forced
    ensures ends <= ends' && LastEnd(ends, from) <= LastEnd(ends', from)
    ensures var c' := Receive(o, c, g, seen, stale, used);
            Inv(G, base, c', LastEnd(ends', from)) && Laid(G, c'.out, ends', from, forced)
  {
    var c1 := c.(lastSeen := if c.lastSeen < seen then seen else c.lastSeen);
    if Difference(c1.nextSeq, g.seqno) > 0 {
      ends' := ReceiveAheadSafe(G, base, o, c1, g, seen, stale, used, ends, from, forced);
    } else {
      ends' := ReceiveInOrderSafe(G, base, c1, g, seen, ends, from, forced);
      ends' := SendSafe(G, base, InOrderWork(c1, g, seen), ends', from, forced);
    }
  }

  lemma ReceiveAheadSafe(G: Stream, base: int, o: Options, c: Conn, g: Segment, seen: int, stale: seq<Flags>, used: nat,
                         ends: seq<nat>, from: nat, forced: set<nat>) returns (ends': seq<nat>)
    requires Inv(G, base, c, LastEnd(ends, from)) && Laid(G, c.out, ends, from, forced)
    requires SegmentOk(G, base, g) && |stale| == PageCount(|g.payload|) && Difference(c.nextSeq, g.seqno) > 0
    requires ForcedInsert(o, c, g, used) ==> |c.out| in forced
    ensures ends <= ends' && LastEnd(ends, from) <= LastEnd(ends', from)
    ensures var c' := Sent(Insert(o, Work(c, []), g, seen, stale, used));
            Inv(G, base, c', LastEnd(ends', from)) && Laid(G, c'.out, ends', from, forced)
  {
    assert AllChunks(Work(c, [])) == c.out;
    ends' := InsertSafe(G, base, o, Work(c, []), g, seen, stale, used, ends, from, forced);
    var w := Insert(o, Work(c, []), g, seen, stale, used);
    if w.ret == [] {
      assert AllChunks(w) == w.conn.out;
    } else {
      ends' := SendSafe(G, base, w, ends', from, forced);
    }
  }

  function InOrderWork(c: Conn, g: Segment, seen: int): Work {
    var (bytes, next) := ByteSpan(c.nextSeq, g.seqno, g.payload);
    Work(c.(nextSeq := next), [Chunk(bytes, 0, false, g.End(), seen)])
  }

  /** The bytes of a segment that is not ahead, as ByteSpan trims them. */
  lemma InOrderSpan(G: Stream, base: int, n: nat, g: Segment)
    requires Range(G, base) && n <= |G| && SegmentOk(G, base, g)
    requires Near(base + n, g.seqno) && g.seqno <= base + n
    ensures var (bytes, next) := ByteSpan(base + n, g.seqno, g.payload);
            var n' := next - base;
            && n <= n' <= |G| && bytes == G[n..n'] && g.seqno + |g.payload| <= next
            && (n < n' ==> next == g.seqno + |g.payload|)
  {
    SpanOfPage(G, base, n, PageVal(g.seqno, g.payload, 0, false, 0));
  }

  lemma InOrderChunk(G: Stream, base: int, c: Conn, g: Segment, seen: int, n: nat)
    requires Inv(G, base, c, n) && SegmentOk(G, base, g) && Difference(c.nextSeq, g.seqno) <= 0
    ensures var w := InOrderWork(c, g, seen);
            var n' := w.conn.nextSeq - base;
            && n <= n' && Inv(G, base, w.conn, n')
            && ChunkLaid(G, w.ret[0], n, n') && n == n' - |w.ret[0].bytes|
  {
    assert Near(c.nextSeq, g.seqno);
    InOrderSpan(G, base, n, g);
    PagesStayOk(G, base, n, ByteSpan(c.nextSeq, g.seqno, g.payload).1 - base, c.pages);
  }

  lemma InOrderAll(c: Conn, g: Segment, seen: int)
    ensures AllChunks(InOrderWork(c, g, seen)) == c.out + [InOrderWork(c, g, seen).ret[0]]
  {
  }

  lemma ReceiveInOrderSafe(G: Stream, base: int, c: Conn, g: Segment, seen: int,
                           ends: seq<nat>, from: nat, forced: set<nat>) returns (ends': seq<nat>)
    requires Inv(G, base, c, LastEnd(ends, from)) && Laid(G, c.out, ends, from, forced)
    requires SegmentOk(G, base, g) && Difference(c.nextSeq, g.seqno) <= 0
    ensures ends <= ends' && LastEnd(ends, from) <= LastEnd(ends', from)
    ensures WorkInv(G, base, InOrderWork(c, g, seen), ends', from, forced)
  {
    var w := InOrderWork(c, g, seen);
    var n: nat := LastEnd(ends, from);
    InOrderChunk(G, base, c, g, seen, n);
    var n': nat := w.conn.nextSeq - base;
    LaidSnoc(G, c.out, ends, from, forced, w.ret[0], n');
    InOrderAll(c, g, seen);
    ends' := ends + [n'];
    assert LastEnd(ends', from) == n';
  }

  function ForcedWork(c: Conn): Work
    requires c.pages != []
  {
    AddContiguous(PopFirst(Work(c, [])))
  }

  lemma ForcedWorkSafe(G: Stream, base: int, c: Conn, ends: seq<nat>, from: nat, forced: set<nat>)
    returns (ends': seq<nat>)
    requires Inv(G, base, c, LastEnd(ends, from)) && Laid(G, c.out, ends, from, forced)
    requires c.pages != [] && |c.out| in forced
    ensures ends <= ends' && LastEnd(ends, from) <= LastEnd(ends', from)
    ensures WorkInv(G, base, ForcedWork(c), ends', from, forced)
  {
    var w := Work(c, []);
    assert AllChunks(w) == c.out;
    var m := PopSafe(G, base, w, ends, from, forced);
    ends' := AddContiguousSafe(G, base, PopFirst(w), ends + [m], from, forced);
  }

  lemma SkipFlushSafe(G: Stream, base: int, c: Conn, ends: seq<nat>, from: nat, forced: set<nat>)
    returns (ends': seq<nat>)
    requires Inv(G, base, c, LastEnd(ends, from)) && Laid(G, c.out, ends, from, forced)
    requires c.pages != [] ==> |c.out| in forced
    ensures ends <= ends' && LastEnd(ends, from) <= LastEnd(ends', from)
    ensures Inv(G, base, SkipFlush(c), LastEnd(ends', from)) && Laid(G, SkipFlush(c).out, ends', from, forced)
  {
    ends' := ends;
    if c.pages != [] {
      ends' := ForcedWorkSafe(G, base, c, ends, from, forced);
      ends' := SendSafe(G, base, ForcedWork(c), ends', from, forced);
    }
  }

  lemma {:induction false} FlushOlderSafe(G: Stream, base: int, c: Conn, t: int, ends: seq<nat>, from: nat, forced: set<nat>)
    returns (ends': seq<nat>)
    requires Inv(G, base, c, LastEnd(ends, from)) && Laid(G, c.out, ends, from, forced)
    requires ForcedOlder(c, t) <= forced
    ensures ends <= ends' && LastEnd(ends, from) <= LastEnd(ends', from)
    ensures Inv(G, base, FlushOlder(c, t), LastEnd(ends', from)) && Laid(G, FlushOlder(c, t).out, ends', from, forced)
    decreases |c.pages|
  {
    ends' := ends;
    if c.pages != [] && c.pages[0].seen < t {
      assert |c.out| in ForcedOlder(c, t);
      ends' := SkipFlushSafe(G, base, c, ends, from, forced);
      if !SkipFlush(c).closed { ends' := FlushOlderSafe(G, base, SkipFlush(c), t, ends', from, forced); }
    }
  }

  lemma {:induction false} FlushAllSafe(G: Stream, base: int, c: Conn, ends: seq<nat>, from: nat, forced: set<nat>)
    returns (ends': seq<nat>)
    requires Inv(G, base, c, LastEnd(ends, from)) && Laid(G, c.out, ends, from, forced)
    requires ForcedAll(c) <= forced
    ensures ends <= ends' && LastEnd(ends, from) <= LastEnd(ends', from)
    ensures Inv(G, base, FlushAll(c), LastEnd(ends', from)) && Laid(G, FlushAll(c).out, ends', from, forced)
    decreases |c.pages|
  {
    if c.pages != [] { assert |c.out| in ForcedAll(c); }
    ends' := SkipFlushSafe(G, base, c, ends, from, forced);
    if c.pages != [] && !SkipFlush(c).closed { ends' := FlushAllSafe(G, base, SkipFlush(c), ends', from, forced); }
  }

  predicate LaterOk(G: Stream, base: int, e: Event) {
    e.Packet? ==> SegmentOk(G, base, e.g)
  }

  lemma HandleSafe(G: Stream, base: int, o: Options, c: Conn, e: Event, ends: seq<nat>, from: nat, forced: set<nat>)
    returns (ends': seq<nat>)
    requires Inv(G, base, c, LastEnd(ends, from)) && Laid(G, c.out, ends, from, forced)
    requires EventOk(e) && LaterOk(G, base, e)
    ensures ends <= ends' && LastEnd(ends, from) <= LastEnd(ends', from)
    ensures Inv(G, base, Handle(o, c, e), LastEnd(ends', from))
    ensures Laid(G, Handle(o, c, e).out, ends', from, forced + ForcedBy(o, c, e))
  {
    var more := forced + ForcedBy(o, c, e);
    LaidMore(G, c.out, ends, from, forced, more);
    ends' := ends;
    if !c.closed {
      match e
      case Packet(g, seen, stale, used) =>
        if !g.Empty() { ends' := ReceiveSafe(G, base, o, c, g, seen, stale, used, ends, from, more); }
      case Older(t) => ends' := FlushOlderSafe(G, base, c, t, ends, from, more);
      case All => ends' := FlushAllSafe(G, base, c, ends, from, more);
    }
  }

  function Forced(o: Options, c: Conn, es: seq<Event>): set<nat>
    requires forall e <- es :: EventOk(e)
  {
    if es == [] then {}
    else Forced(o, c, es[..|es| - 1]) + ForcedBy(o, Run(o, c, es[..|es| - 1]), es[|es| - 1])
  }

  /** Over a whole life of a connection - any segments in any order, page limits, flushes,
      recycled pages with any leftovers - the chunks are slices of the stream in order,
      each ending where nextSeq then stands, none overlapping, with a gap only at a chunk
      forced out, and announced there with its size. */
  lemma {:induction false} RunSafe(G: Stream, base: int, o: Options, ls: int, g: Segment, seen: int,
                                   stale: seq<Flags>, used: nat, es: seq<Event>) returns (ends: seq<nat>)
    requires Window(G, base) && FirstOk(G, base, g) && |stale| == PageCount(|g.payload|)
    requires forall e <- es :: EventOk(e)
    requires forall e <- es :: LaterOk(G, base, e)
    ensures var c0 := Receive(o, NewConn(ls), g, seen, stale, used);
            var c := Run(o, c0, es);
            && c.nextSeq == base + LastEnd(ends, Origin(base, g))
            && Inv(G, base, c, LastEnd(ends, Origin(base, g)))
            && Laid(G, c.out, ends, Origin(base, g), Forced(o, c0, es))
  {
    var c0 := Receive(o, NewConn(ls), g, seen, stale, used);
    if es == [] {
      ends := ReceiveFirstSafe(G, base, o, ls, g, seen, stale, used);
    } else {
      var es0 := es[..|es| - 1];
      ends := RunSafe(G, base, o, ls, g, seen, stale, used, es0);
      ends := HandleSafe(G, base, o, Run(o, c0, es0), es[|es| - 1], ends, Origin(base, g), Forced(o, c0, es0));
    }
  }

  /** The size announced with a page is right exactly when there is a gap or the recycled
      page carried no Skip from before: Skip is not cleared. */
  lemma SkipIsExact(G: Stream, base: int, n: nat, p: PageVal)
    requires Window(G, base) && n <= |G| && PageOk(G, base, n, p)
    ensures var gap := if p.seqno > base + n then p.seqno - (base + n) else 0;
            Popped(base + n, p).skip == gap <==> gap > 0 || p.skip == 0
  {
  }
}
