/** Moving pages between the cache and a connection (assembly.go). */
module PageMoves {
  import opened Collections
  import opened Sequence
  import opened Reassembly
  import opened Recycling
  import opened PageList
  import opened PageRun

  // ---- what operations keep ----

  /** The pages of the cache and of the connection. */
  ghost function Footprint(pc: PageCache, conn: Connection): set<Page>
    reads pc, conn
  {
    pc.Spare() + Elements(conn.list)
  }

  ghost predicate Good(pc: PageCache, conn: Connection)
    reads pc, pc.free, conn, conn.list
  {
    pc.Valid() && conn.Linked() && conn.pages == |conn.list| <= pc.used
  }

  /** How many pages other connections use. */
  ghost function InUse(pc: PageCache, conn: Connection): int
    reads pc, conn
  {
    pc.used - |conn.list|
  }

  /** What every operation keeps: no page is lost, pages come from the cache or are new, and
      the pages in use elsewhere are as many as before. */
  twostate predicate Kept(pc: PageCache, conn: Connection)
    reads pc, conn
  {
    && old(Footprint(pc, conn)) <= Footprint(pc, conn) && fresh(Footprint(pc, conn) - old(Footprint(pc, conn)))
    && InUse(pc, conn) == old(InUse(pc, conn))
  }

  /** Without new pages. */
  twostate predicate Moved(pc: PageCache, conn: Connection)
    reads pc, conn
  {
    Footprint(pc, conn) == old(Footprint(pc, conn)) && InUse(pc, conn) == old(InUse(pc, conn))
  }

  // ---- taking pages off a connection ----

  /** The first page's bytes, trimmed to what is new, and nextSeq after them. */
  method TakeBytes(conn: Connection, p: Page) returns (chunk: Chunk)
    requires conn.Linked() && conn.list != [] && p == conn.list[0]
    modifies conn`nextSeq, p`skip, p`bytes
    ensures chunk == Popped(old(conn.nextSeq), conn.vals[0])
    ensures conn.nextSeq == ByteSpan(old(conn.nextSeq), conn.vals[0].seqno, conn.vals[0].bytes).1
    ensures conn.Unlinkable() && p.skip == PopSkip(old(conn.nextSeq), conn.vals[0]) && p.end == conn.vals[0].end
  {
    assert p.Holds(conn.vals[0]);
    if conn.nextSeq == INVALID_SEQUENCE {
      p.skip := -1;
    } else if Difference(conn.nextSeq, p.seqno) > 0 {
      p.skip := Difference(conn.nextSeq, p.seqno);
    }
    var (bytes, next) := ByteSpan(conn.nextSeq, p.seqno, p.bytes);
    p.bytes, conn.nextSeq := bytes, next;
    chunk := Chunk(p.bytes, p.skip, false, p.end, p.seen);
    forall i: nat | i < |conn.list| ensures LinkedAt(conn.list, i, null, null) {
      assert old(LinkedAt(conn.list, i, null, null));
    }
    ghost var rest, vals := conn.list[1..], conn.vals[1..];
    forall i: nat | i < |rest| ensures rest[i].owner == conn && rest[i].Holds(vals[i]) {
      assert old(conn.list[i + 1].owner == conn && conn.list[i + 1].Holds(conn.vals[i + 1]));
    }
  }

  /** The first page goes back to the cache, still in the list. */
  method GiveBack(pc: PageCache, conn: Connection, p: Page)
    requires pc.Valid() && conn.Unlinkable() && p == conn.list[0] && p.owner == conn && pc.used > 0
    modifies pc, p`owner, p`slot
    ensures pc.Valid() && conn.Unlinkable()
    ensures pc.used == old(pc.used) - 1 && pc.free == old(pc.free) + [p]
    ensures pc.Book() == Put(old(pc.Book()), Flags(p.skip, p.end))
  {
    pc.Replace(p);
    forall i: nat | i < |conn.list| ensures LinkedAt(conn.list, i, null, null) {
      assert old(LinkedAt(conn.list, i, null, null));
    }
  }

  /** The first page moves from the connection's list to the cache. */
  method Release(pc: PageCache, conn: Connection, p: Page)
    requires pc.Valid() && conn.Unlinkable() && p == conn.list[0] && p.owner == conn && pc.used > 0
    modifies pc, conn`first, conn`last, conn`pages, conn`list, conn`vals, Elements(conn.list)
    ensures pc.Valid() && conn.Linked()
    ensures conn.list == old(conn.list)[1..] && conn.vals == old(conn.vals)[1..] && conn.pages == old(conn.pages) - 1
    ensures pc.used == old(pc.used) - 1 && pc.free == old(pc.free) + [p]
    ensures pc.Book() == Put(old(pc.Book()), old(Flags(p.skip, p.end)))
  {
    GiveBack(pc, conn, p);
    conn.Unlink();
  }

  /** The first page's chunk comes off the connection. */
  method PopPage(pc: PageCache, conn: Connection) returns (chunk: Chunk)
    requires pc.Valid() && conn.Linked() && conn.list != [] && pc.used > 0
    modifies pc, conn`nextSeq, conn`first, conn`last, conn`pages, conn`list, conn`vals, Elements(conn.list)
    ensures pc.Valid() && conn.Linked()
    ensures chunk == Popped(old(conn.nextSeq), old(conn.vals)[0]) && conn.vals == old(conn.vals)[1..]
    ensures conn.nextSeq == ByteSpan(old(conn.nextSeq), old(conn.vals)[0].seqno, old(conn.vals)[0].bytes).1
    ensures conn.pages == old(conn.pages) - 1 && pc.used == old(pc.used) - 1
    ensures pc.free == old(pc.free) + [old(conn.list)[0]] && conn.list == old(conn.list)[1..]
    ensures |old(conn.vals)| != 0 && pc.Book() == PopCache(old(conn.View()), old(pc.Book()))
  {
    var p := conn.first;
    assert p !in pc.free;
    chunk := TakeBytes(conn, p);
    Release(pc, conn, p);
  }

  method PopFirstPage(pc: PageCache, conn: Connection) returns (chunk: Chunk)
    requires Good(pc, conn) && conn.list != []
    modifies pc, conn`nextSeq, conn`first, conn`last, conn`pages, conn`list, conn`vals, Footprint(pc, conn)
    ensures Good(pc, conn) && Moved(pc, conn)
    ensures chunk == Popped(old(conn.nextSeq), old(conn.vals)[0]) && conn.vals == old(conn.vals)[1..]
    ensures conn.nextSeq == ByteSpan(old(conn.nextSeq), old(conn.vals)[0].seqno, old(conn.vals)[0].bytes).1
    ensures pc.Book() == PopCache(old(conn.View()), old(pc.Book()))
  {
    assert conn.list == [conn.list[0]] + conn.list[1..];
    chunk := PopPage(pc, conn);
  }

  /** The run is ready to go into the connection's list. */
  ghost predicate Insertable(pc: PageCache, conn: Connection, first: Page, last: Page, run: seq<Page>,
                             runVals: seq<PageVal>)
    reads pc, pc.free, conn, conn.list, run
  {
    && pc.Valid() && conn.Linked() && run != [] && first == run[0] && last == run[|run| - 1]
    && Chain(run) && Carries(conn, run, runVals)
    && Apart(run, conn.list) && Apart(pc.free, run) && Apart(pc.free, conn.list)
  }

  /** New pages, owned by the connection but not yet in its list. */
  method NewRun(pc: PageCache, g: Segment, ts: int, conn: Connection)
    returns (first: Page, last: Page, numPages: nat, ghost run: seq<Page>, ghost stale: seq<Flags>)
    requires Good(pc, conn)
    modifies pc, pc.Spare()
    ensures numPages == |run| == |stale| == PageCount(|g.payload|) && pc.used == old(pc.used) + numPages
    ensures Insertable(pc, conn, first, last, run, PagesFrom(g.seqno, g.payload, g.End(), ts, stale))
    ensures (stale, pc.Book()) == TakePages(old(pc.Book()), PageCount(|g.payload|))
    ensures old(Footprint(pc, conn)) <= Footprint(pc, conn) + Elements(run)
    ensures fresh(Footprint(pc, conn) + Elements(run) - old(Footprint(pc, conn)))
  {
    ghost var was := pc.free;
    assert Apart(was, conn.list);
    first, last, numPages, run, stale := PagesFromTcp(pc, g, ts, conn);
    forall i: nat | i < |conn.list| ensures LinkedAt(conn.list, i, null, null) {
      assert old(LinkedAt(conn.list, i, null, null));
    }
  }

  /** The new pages go into the list. */
  method AddRun(pc: PageCache, seqno: SeqNo, conn: Connection, first: Page, last: Page, numPages: nat, ghost run: seq<Page>,
                ghost runVals: seq<PageVal>)
    requires conn.pages == |conn.list| && numPages == |run|
    requires Insertable(pc, conn, first, last, run, runVals)
    modifies conn`first, conn`last, conn`list, conn`vals, conn`pages, Elements(conn.list) + Elements(run)
    ensures pc.Valid() && conn.Linked() && conn.pages == |conn.list| == |old(conn.list)| + numPages
    ensures conn.vals == Spliced(old(conn.vals), runVals, seqno)
    ensures Elements(conn.list) == old(Elements(conn.list)) + Elements(run)
  {
    conn.Splice(seqno, first, last, run, runVals);
    conn.pages := conn.pages + numPages;
  }

  /** insertIntoConn, up to the limits. */
  method BufferPages(pc: PageCache, g: Segment, ts: int, conn: Connection) returns (ghost stale: seq<Flags>)
    requires Good(pc, conn)
    modifies pc, conn`first, conn`last, conn`pages, conn`list, conn`vals, Footprint(pc, conn)
    ensures Good(pc, conn) && Kept(pc, conn) && |stale| == PageCount(|g.payload|) && pc.used == old(pc.used) + |stale|
    ensures (stale, pc.Book()) == TakePages(old(pc.Book()), PageCount(|g.payload|))
    ensures conn.vals == Spliced(old(conn.vals), PagesFrom(g.seqno, g.payload, g.End(), ts, stale), g.seqno)
  {
    var first, last, numPages;
    ghost var run;
    first, last, numPages, run, stale := NewRun(pc, g, ts, conn);
    AddRun(pc, g.seqno, conn, first, last, numPages, run, PagesFrom(g.seqno, g.payload, g.End(), ts, stale));
  }

  /** The list's pages from number k on are still the connection's, with their flags. */
  ghost predicate Owned(conn: Connection, list: seq<Page>, vals: seq<PageVal>, k: nat)
    reads list
  {
    && Chain(list) && |list| == |vals|
    && forall i: nat :: k <= i < |list| ==> list[i].owner == conn && Flags(list[i].skip, list[i].end) == FlagsOf(vals[i])
  }

  method ReplaceOne(pc: PageCache, ghost conn: Connection, p: Page, ghost list: seq<Page>, ghost vals: seq<PageVal>,
                    ghost k: nat)
    requires pc.Valid() && pc.used > 0 && Owned(conn, list, vals, k) && k < |list| && p == list[k]
    modifies pc, p`owner, p`slot
    ensures pc.Valid() && pc.used == old(pc.used) - 1 && pc.free == old(pc.free) + [p]
    ensures pc.Book() == Put(old(pc.Book()), FlagsOf(vals[k]))
    ensures Owned(conn, list, vals, k + 1) && p.next == FirstOf(list[k + 1..], null)
  {
    assert LinkedAt(list, k, null, null);
    pc.Replace(p);
    forall i: nat | i < |list| ensures LinkedAt(list, i, null, null) {
      assert old(LinkedAt(list, i, null, null));
    }
  }

  /** All the connection's pages go back to the cache. */
  method ReplaceAll(pc: PageCache, conn: Connection)
    requires Good(pc, conn)
    modifies pc, Elements(conn.list)
    ensures pc.Valid() && pc.used == old(pc.used) - |conn.list| && pc.free == old(pc.free) + conn.list
    ensures pc.Book() == PutPages(old(pc.Book()), conn.vals)
  {
    var p := conn.first;
    ghost var k, list, vals, book := 0, conn.list, conn.vals, pc.Book();
    assert list[..0] == [] && list[0..] == list;
    assert Owned(conn, list, vals, 0) by {
      forall i: nat | i < |list| ensures Flags(list[i].skip, list[i].end) == FlagsOf(vals[i]) {
        assert list[i].Holds(vals[i]);
      }
    }
    while p != null
      invariant k <= |list| && p == FirstOf(list[k..], null) && Owned(conn, list, vals, k)
      invariant pc.Valid() && pc.used == old(pc.used) - k && pc.free == old(pc.free) + list[..k]
      invariant pc.Book() == PutPages(book, vals[..k])
      decreases |list| - k
    {
      ReplaceOne(pc, conn, p, list, vals, k);
      assert list[..k + 1] == list[..k] + [p];
      PutOneMore(book, vals, k);
      p := p.next;
      k := k + 1;
    }
    assert vals[..k] == vals;
  }
}
