/** What free pages still carry (assembly.go, pageCache).  A page leaves the cache with its
    links, bytes and time cleared, but with the Skip and the End of its last use. */
module Recycling {
  import opened Sequence
  import opened Reassembly

  /** `left` has the flags of the free pages, in the order of the free list; `pcSize` is how
      many pages the cache makes when it runs out. */
  datatype Cache = Cache(left: seq<Flags>, pcSize: nat)

  const CLEAN: Flags := Flags(0, false)

  function NewFlags(n: nat): (fs: seq<Flags>)
    ensures |fs| == n && forall i: nat :: i < n ==> fs[i] == CLEAN
  {
    seq(n, _ => CLEAN)
  }

  function Grown(k: Cache): Cache {
    Cache(k.left + NewFlags(k.pcSize), 2 * k.pcSize)
  }

  /** Pages are taken from the end of the free list. */
  function Take(k: Cache): (r: (Flags, Cache))
    requires k.pcSize > 0
    ensures r.1.pcSize > 0
  {
    var k' := if k.left == [] then Grown(k) else k;
    (k'.left[|k'.left| - 1], k'.(left := k'.left[..|k'.left| - 1]))
  }

  function TakePages(k: Cache, n: nat): (r: (seq<Flags>, Cache))
    requires k.pcSize > 0
    ensures |r.0| == n && r.1.pcSize > 0
  {
    if n == 0 then ([], k)
    else
      var before := TakePages(k, n - 1);
      var last := Take(before.1);
      (before.0 + [last.0], last.1)
  }

  lemma TakeOnePage(k: Cache)
    requires k.pcSize > 0
    ensures TakePages(k, 1) == ([] + [Take(k).0], Take(k).1)
  {
  }

  lemma TakeOneMore(k: Cache, n: nat, fs: seq<Flags>, k': Cache, f: Flags, k'': Cache)
    requires k.pcSize > 0 && k'.pcSize > 0 && TakePages(k, n) == (fs, k') && Take(k') == (f, k'')
    ensures TakePages(k, n + 1) == (fs + [f], k'')
  {
  }

  /** The flags that the pages of a payload bring. */
  function Stale(k: Cache, len: nat): (fs: seq<Flags>)
    requires k.pcSize > 0
    ensures |fs| == PageCount(len)
  {
    TakePages(k, PageCount(len)).0
  }

  function Put(k: Cache, f: Flags): Cache {
    k.(left := k.left + [f])
  }

  function FlagsOf(p: PageVal): Flags {
    Flags(p.skip, p.end)
  }

  function PutPages(k: Cache, ps: seq<PageVal>): (k': Cache)
    ensures k'.pcSize == k.pcSize
  {
    if ps == [] then k else Put(PutPages(k, ps[..|ps| - 1]), FlagsOf(ps[|ps| - 1]))
  }

  lemma PutOneMore(k: Cache, ps: seq<PageVal>, n: nat)
    requires n < |ps|
    ensures PutPages(k, ps[..n + 1]) == Put(PutPages(k, ps[..n]), FlagsOf(ps[n]))
  {
    assert ps[..n + 1][..n] == ps[..n];
  }

  // ---- the cache after each operation on a connection ----

  /** The page popped goes back with the gap that was announced with it. */
  function PopCache(c: Conn, k: Cache): (k': Cache)
    requires c.pages != []
    ensures k'.pcSize == k.pcSize
  {
    Put(k, Flags(PopSkip(c.nextSeq, c.pages[0]), c.pages[0].end))
  }

  function AddContiguousCache(w: Work, k: Cache): (k': Cache)
    ensures k'.pcSize == k.pcSize
    decreases |w.conn.pages|
  {
    if Contiguous(w.conn) then AddContiguousCache(PopFirst(w), PopCache(w.conn, k)) else k
  }

  function DeliveredCache(w: Work, k: Cache): (k': Cache)
    ensures k'.pcSize == k.pcSize
  {
    if w.ret != [] && w.ret[|w.ret| - 1].end then PutPages(k, w.conn.pages) else k
  }

  function SendCache(w: Work, k: Cache): (k': Cache)
    ensures k'.pcSize == k.pcSize
  {
    DeliveredCache(AddContiguous(w), AddContiguousCache(w, k))
  }

  function Inserted(w: Work, g: Segment, seen: int, stale: seq<Flags>): Work
    requires |stale| == PageCount(|g.payload|)
  {
    w.(conn := w.conn.(pages := Spliced(w.conn.pages, PagesFrom(g.seqno, g.payload, g.End(), seen, stale), g.seqno)))
  }

  function InsertCache(o: Options, w: Work, g: Segment, seen: int, k: Cache, used: nat): (k': Cache)
    requires k.pcSize > 0
    ensures k'.pcSize > 0
  {
    var w', k' := Inserted(w, g, seen, Stale(k, |g.payload|)), TakePages(k, PageCount(|g.payload|)).1;
    if LimitHit(o, |w'.conn.pages|, used + PageCount(|g.payload|)) then PopCache(w'.conn, k') else k'
  }

  function TakenCache(o: Options, c: Conn, g: Segment, seen: int, k: Cache, used: nat): (k': Cache)
    requires k.pcSize > 0
    ensures k'.pcSize > 0
  {
    if c.nextSeq == INVALID_SEQUENCE then
      var next := Add(g.seqno, |g.payload| + if g.syn then 1 else 0);
      InsertCache(o, Work(c.(nextSeq := next), [FirstChunk(g, seen)]), g, seen, k, used)
    else if Difference(c.nextSeq, g.seqno) > 0 then InsertCache(o, Work(c, []), g, seen, k, used)
    else k
  }

  function SentCache(w: Work, k: Cache): (k': Cache)
    ensures k'.pcSize == k.pcSize
  {
    if w.ret == [] then k else SendCache(w, k)
  }

  function ReceiveCache(o: Options, c: Conn, g: Segment, seen: int, k: Cache, used: nat): (k': Cache)
    requires k.pcSize > 0
    ensures k'.pcSize > 0
  {
    var c' := c.(lastSeen := if c.lastSeen < seen then seen else c.lastSeen);
    SentCache(Taken(o, c', g, seen, Stale(k, |g.payload|), used), TakenCache(o, c', g, seen, k, used))
  }

  function SkipFlushCache(c: Conn, k: Cache): (k': Cache)
    ensures k'.pcSize == k.pcSize
  {
    if c.pages == [] then k
    else
      var w := PopFirst(Work(c, []));
      SendCache(AddContiguous(w), AddContiguousCache(w, PopCache(c, k)))
  }

  function FlushOlderCache(c: Conn, t: int, k: Cache): (k': Cache)
    ensures k'.pcSize == k.pcSize
    decreases |c.pages|
  {
    if c.pages != [] && c.pages[0].seen < t then
      var c', k' := SkipFlush(c), SkipFlushCache(c, k);
      if c'.closed then k' else FlushOlderCache(c', t, k')
    else k
  }

  function FlushAllCache(c: Conn, k: Cache): (k': Cache)
    ensures k'.pcSize == k.pcSize
    decreases |c.pages|
  {
    var c', k' := SkipFlush(c), SkipFlushCache(c, k);
    if c'.closed || c.pages == [] then k' else FlushAllCache(c', k')
  }

  // ---- what happens to a connection, the pages coming from the cache ----

  datatype Action = Arrives(g: Segment, ts: int) | Expire(t: int) | FlushEverything

  /** What a flush counts as flushed. */
  predicate Due(c: Conn, act: Action) {
    match act
    case Arrives(_, _) => false
    case Expire(t) => if c.pages == [] then c.lastSeen < t else c.pages[0].seen < t
    case FlushEverything => true
  }

  function EventOf(act: Action, k: Cache, used: nat): (e: Event)
    requires k.pcSize > 0
    ensures EventOk(e)
  {
    match act
    case Arrives(g, ts) => Packet(g, ts, Stale(k, |g.payload|), used)
    case Expire(t) => Older(t)
    case FlushEverything => All
  }

  function HandleCache(o: Options, c: Conn, act: Action, k: Cache, used: nat): (k': Cache)
    requires k.pcSize > 0
    ensures k'.pcSize > 0
  {
    if c.closed then k
    else match act
      case Arrives(g, ts) => if g.Empty() then k else ReceiveCache(o, c, g, ts, k, used)
      case Expire(t) => FlushOlderCache(c, t, k)
      case FlushEverything => FlushAllCache(c, k)
  }

  // ---- one assembler: its open connections, those closed, and the cache they share ----

  datatype Pool = Pool(open: map<int, Conn>, closed: seq<Conn>, cache: Cache)

  /** `lastSeen` is that of the connection object used, if it is a new connection; `used` counts
      the pages in use. */
  datatype Happening = Happening(key: int, lastSeen: int, act: Action, used: nat)

  function NewPool(initialAllocSize: nat): Pool {
    Pool(map[], [], Grown(Cache([], initialAllocSize)))
  }

  /** The key is open, or the packet opens it. */
  predicate Concerns(p: Pool, h: Happening) {
    h.key in p.open || (h.act.Arrives? && (h.act.g.syn || h.act.g.payload != []))
  }

  function ConnOf(p: Pool, h: Happening): Conn {
    if h.key in p.open then p.open[h.key] else NewConn(h.lastSeen)
  }

  function Step(o: Options, p: Pool, h: Happening): (p': Pool)
    requires p.cache.pcSize > 0
    ensures p'.cache.pcSize > 0
  {
    if !Concerns(p, h) then p
    else
      var c := Handle(o, ConnOf(p, h), EventOf(h.act, p.cache, h.used));
      var k := HandleCache(o, ConnOf(p, h), h.act, p.cache, h.used);
      if c.closed then Pool(p.open - {h.key}, p.closed + [c], k) else Pool(p.open[h.key := c], p.closed, k)
  }

  function Steps(o: Options, p: Pool, hs: seq<Happening>): (p': Pool)
    requires p.cache.pcSize > 0
    ensures p'.cache.pcSize > 0
  {
    if hs == [] then p else Step(o, Steps(o, p, hs[..|hs| - 1]), hs[|hs| - 1])
  }

  lemma StepsSnoc(o: Options, p: Pool, hs: seq<Happening>, h: Happening)
    requires p.cache.pcSize > 0
    ensures Steps(o, p, hs + [h]) == Step(o, Steps(o, p, hs), h)
  {
    assert (hs + [h])[..|hs|] == hs;
  }

  /** What a step amounts to, once the connection and the cache are known. */
  lemma StepIs(o: Options, p: Pool, h: Happening, c: Conn, k: Cache, open: map<int, Conn>)
    requires p.cache.pcSize > 0 && Concerns(p, h)
    requires c == Handle(o, ConnOf(p, h), EventOf(h.act, p.cache, h.used))
    requires k == HandleCache(o, ConnOf(p, h), h.act, p.cache, h.used)
    requires open == if c.closed then p.open - {h.key} else p.open[h.key := c]
    ensures Step(o, p, h) == Pool(open, if c.closed then p.closed + [c] else p.closed, k)
  {
  }

  lemma StepOfNothing(o: Options, p: Pool, h: Happening)
    requires p.cache.pcSize > 0 && h.act.Arrives? && (Concerns(p, h) ==> h.act.g.Empty() && !ConnOf(p, h).closed)
    ensures Step(o, p, h) == p
  {
    if Concerns(p, h) { assert p.open[h.key := p.open[h.key]] == p.open; }
  }
}
