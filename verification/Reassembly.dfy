/** One connection of the TCP reassembler (assembly.go), as functions on values:
    the specification that the classes of `Assembler.dfy` are proved against. */
module Reassembly {
  import opened Bytes
  import opened Sequence

  const PAGE_BYTES: nat := 1900

  /** What a stream is handed: `skip` bytes are missing before `bytes`. */
  datatype Chunk = Chunk(bytes: seq<Byte>, skip: int, start: bool, end: bool, seen: int)

  /** A buffered page. */
  datatype PageVal = PageVal(seqno: SeqNo, bytes: seq<Byte>, skip: int, end: bool, seen: int)

  /** What a recycled page still carries from its previous use. */
  datatype Flags = Flags(skip: int, end: bool)

  datatype Segment = Segment(seqno: SeqNo, payload: seq<Byte>, syn: bool, fin: bool, rst: bool) {
    predicate End() { fin || rst }

    predicate Empty() { !syn && !End() && payload == [] }
  }

  datatype Options = Options(maxTotal: int, maxPerConn: int)

  datatype Conn = Conn(nextSeq: NextSeq, pages: seq<PageVal>, lastSeen: int, closed: bool, out: seq<Chunk>)

  /** A connection together with the chunks about to be sent (`a.ret`). */
  datatype Work = Work(conn: Conn, ret: seq<Chunk>)

  function NewConn(lastSeen: int): Conn {
    Conn(INVALID_SEQUENCE, [], lastSeen, false, [])
  }

  function ByteSpan(expected: NextSeq, received: SeqNo, bytes: seq<Byte>): (seq<Byte>, SeqNo) {
    if expected == INVALID_SEQUENCE then (bytes, Add(received, |bytes|))
    else
      var span := Difference(received, expected);
      if span <= 0 then (bytes, Add(received, |bytes|))
      else if |bytes| < span then ([], expected)
      else (bytes[span..], Add(expected, |bytes| - span))
  }

  function PageCount(n: nat): (r: nat)
    ensures r >= 1
  {
    if n <= PAGE_BYTES then 1 else 1 + PageCount(n - PAGE_BYTES)
  }

  /** Cuts a payload into pages.  Only the last page's End is set; the others
      keep what their pages carried before. */
  function PagesFrom(seqno: SeqNo, payload: seq<Byte>, end: bool, seen: int, stale: seq<Flags>): (ps: seq<PageVal>)
    requires |stale| == PageCount(|payload|)
    ensures |ps| == |stale|
    decreases |payload|
  {
    if |payload| <= PAGE_BYTES then [PageVal(seqno, payload, stale[0].skip, end, seen)]
    else
      [PageVal(seqno, payload[..PAGE_BYTES], stale[0].skip, stale[0].end, seen)] +
      PagesFrom(Add(seqno, PAGE_BYTES), payload[PAGE_BYTES..], end, seen, stale[1..])
  }

  /** Where a page numbered `seqno` goes, walking back from the last page. */
  function Position(pages: seq<PageVal>, seqno: SeqNo): (k: nat)
    ensures k <= |pages|
  {
    if pages == [] then 0
    else if Difference(pages[|pages| - 1].seqno, seqno) < 0 then Position(pages[..|pages| - 1], seqno)
    else |pages|
  }

  function Spliced(pages: seq<PageVal>, run: seq<PageVal>, seqno: SeqNo): seq<PageVal> {
    var k := Position(pages, seqno);
    pages[..k] + run + pages[k..]
  }

  function PopSkip(nextSeq: NextSeq, p: PageVal): int {
    if nextSeq == INVALID_SEQUENCE then -1
    else if Difference(nextSeq, p.seqno) > 0 then Difference(nextSeq, p.seqno)
    else p.skip
  }

  function Popped(nextSeq: NextSeq, p: PageVal): Chunk {
    Chunk(ByteSpan(nextSeq, p.seqno, p.bytes).0, PopSkip(nextSeq, p), false, p.end, p.seen)
  }

  function PopFirst(w: Work): Work
    requires w.conn.pages != []
  {
    var c := w.conn;
    var p := c.pages[0];
    Work(c.(nextSeq := ByteSpan(c.nextSeq, p.seqno, p.bytes).1, pages := c.pages[1..]),
         w.ret + [Popped(c.nextSeq, p)])
  }

  predicate Contiguous(c: Conn) {
    c.pages != [] && Difference(c.nextSeq, c.pages[0].seqno) <= 0
  }

  function AddContiguous(w: Work): Work
    decreases |w.conn.pages|
  {
    if Contiguous(w.conn) then AddContiguous(PopFirst(w)) else w
  }

  function Close(c: Conn): Conn {
    c.(closed := true, pages := [])
  }

  function Delivered(w: Work): Conn {
    var c := w.conn.(out := w.conn.out + w.ret);
    if w.ret != [] && w.ret[|w.ret| - 1].end then Close(c) else c
  }

  function Send(w: Work): Conn {
    Delivered(AddContiguous(w))
  }

  predicate LimitHit(o: Options, connPages: int, used: int) {
    (o.maxPerConn > 0 && connPages >= o.maxPerConn) || (o.maxTotal > 0 && used >= o.maxTotal)
  }

  /** Buffers a segment; `used` counts the pages taken from the cache so far. */
  function Insert(o: Options, w: Work, g: Segment, seen: int, stale: seq<Flags>, used: nat): Work
    requires |stale| == PageCount(|g.payload|)
  {
    var run := PagesFrom(g.seqno, g.payload, g.End(), seen, stale);
    var w' := w.(conn := w.conn.(pages := Spliced(w.conn.pages, run, g.seqno)));
    if LimitHit(o, |w'.conn.pages|, used + |run|) then PopFirst(w') else w'
  }

  function FirstChunk(g: Segment, seen: int): Chunk {
    Chunk(g.payload, if g.syn then 0 else -1, g.syn, false, seen)
  }

  /** What a segment does to an open connection, up to sending. */
  function Taken(o: Options, c: Conn, g: Segment, seen: int, stale: seq<Flags>, used: nat): Work
    requires |stale| == PageCount(|g.payload|)
  {
    if c.nextSeq == INVALID_SEQUENCE then
      var next := Add(g.seqno, |g.payload| + if g.syn then 1 else 0);
      Insert(o, Work(c.(nextSeq := next), [FirstChunk(g, seen)]), g, seen, stale, used)
    else if Difference(c.nextSeq, g.seqno) > 0 then Insert(o, Work(c, []), g, seen, stale, used)
    else
      var (bytes, next) := ByteSpan(c.nextSeq, g.seqno, g.payload);
      Work(c.(nextSeq := next), [Chunk(bytes, 0, false, g.End(), seen)])
  }

  function Sent(w: Work): Conn {
    if w.ret == [] then w.conn else Send(w)
  }

  /** AssembleWithTimestamp on an open connection. */
  function Receive(o: Options, c: Conn, g: Segment, seen: int, stale: seq<Flags>, used: nat): Conn
    requires |stale| == PageCount(|g.payload|)
  {
    Sent(Taken(o, c.(lastSeen := if c.lastSeen < seen then seen else c.lastSeen), g, seen, stale, used))
  }

  /** Gives up on the bytes before the first buffered page. */
  function SkipFlush(c: Conn): (c': Conn)
    ensures !c'.closed && c.pages != [] ==> |c'.pages| < |c.pages|
  {
    if c.pages == [] then Close(c)
    else
      AddContiguousShrinks(PopFirst(Work(c, [])));
      AddContiguousShrinks(AddContiguous(PopFirst(Work(c, []))));
      Send(AddContiguous(PopFirst(Work(c, []))))
  }

  lemma AddContiguousShrinks(w: Work)
    ensures |AddContiguous(w).conn.pages| <= |w.conn.pages|
    ensures !Contiguous(AddContiguous(w).conn)
    ensures |w.ret| <= |AddContiguous(w).ret|
    decreases |w.conn.pages|
  {
    if Contiguous(w.conn) { AddContiguousShrinks(PopFirst(w)); }
  }

  /** FlushOlderThan on one open connection. */
  function FlushOlder(c: Conn, t: int): Conn
    decreases |c.pages|
  {
    if c.pages != [] && c.pages[0].seen < t then
      var c' := SkipFlush(c);
      if c'.closed then c' else FlushOlder(c', t)
    else if c.pages == [] && c.lastSeen < t then Close(c)
    else c
  }

  /** FlushAll on one open connection. */
  function FlushAll(c: Conn): Conn
    decreases |c.pages|
  {
    var c' := SkipFlush(c);
    if c'.closed || c.pages == [] then c' else FlushAll(c')
  }

  /** Everything that can happen to a connection. */
  datatype Event =
    | Packet(g: Segment, seen: int, stale: seq<Flags>, used: nat)
    | Older(t: int)
    | All

  predicate EventOk(e: Event) {
    e.Packet? ==> |e.stale| == PageCount(|e.g.payload|)
  }

  function Handle(o: Options, c: Conn, e: Event): Conn
    requires EventOk(e)
  {
    if c.closed then c
    else match e
      case Packet(g, seen, stale, used) => if g.Empty() then c else Receive(o, c, g, seen, stale, used)
      case Older(t) => FlushOlder(c, t)
      case All => FlushAll(c)
  }

  function Run(o: Options, c: Conn, es: seq<Event>): Conn
    requires forall e <- es :: EventOk(e)
  {
    if es == [] then c
    else Handle(o, Run(o, c, es[..|es| - 1]), es[|es| - 1])
  }
}
