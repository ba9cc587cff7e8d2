/** One assembler and all its connections (assembly.go, StreamPool and Assembler). */
module AssemblerPool {
  import opened Collections
  import opened Reassembly
  import opened Recycling
  import opened ReassemblyLimits
  import opened PageList
  import opened PageMoves
  import opened Assembler

  /** A connection's list is well formed, its pages were made here, and nothing in it could
      be sent. */
  ghost predicate ConnSound(made: set<Page>, c: Connection)
    reads c, c.list
  {
    c.Linked() && c.pages == |c.list| && !c.closed && Settled(c.View()) && Elements(c.list) <= made
  }

  /** The page is in the free list or in an open connection's list. */
  ghost predicate Placed(spare: set<Page>, open: set<Connection>, p: Page)
    reads p, open
  {
    p in spare || (p.owner != null && p.owner in open && p in p.owner.list)
  }

  ghost predicate CacheSound(pc: PageCache, made: set<Page>)
    reads pc, pc.free
  {
    pc.Valid() && pc.Spare() <= made && |made| == pc.size
  }

  ghost predicate PoolSound(pool: StreamPool)
    reads pool, pool.conns.Values, pool.free
  {
    Keyed(pool.conns) && Reserve(pool.free, pool.conns.Values) && pool.nextAlloc > 0
  }

  // ---- counting ----

  /** A connection's pages are among those in use. */
  lemma InUseBound(pc: PageCache, made: set<Page>, c: Connection)
    requires CacheSound(pc, made) && ConnSound(made, c)
    ensures |c.list| <= pc.used
    ensures Good(pc, c)
  {
    ListSize(c.list);
    CacheSize(pc);
    assert pc.Spare() !! Elements(c.list);
    SubsetSize(pc.Spare() + Elements(c.list), made);
  }

  lemma ListSize(list: seq<Page>)
    requires Distinct(list)
    ensures |Elements(list)| == |list|
  {
    DistinctSize(list);
  }

  lemma CacheSize(pc: PageCache)
    requires pc.Valid()
    ensures |pc.Spare()| == |pc.free|
  {
    forall i: nat, j: nat | i < j < |pc.free| ensures pc.free[i] != pc.free[j] {
      assert pc.free[i].slot == i && pc.free[j].slot == j;
    }
    DistinctSize(pc.free);
    assert pc.Spare() == Elements(pc.free);
  }

  /** New pages are counted as made. */
  lemma MadeSize(made: set<Page>, f: set<Page>, f': set<Page>)
    requires f <= made && f <= f' && (f' - f) !! made
    ensures |made + f'| == |made| + |f'| - |f|
  {
    assert made + f' == made + (f' - f);
    assert f' == f + (f' - f);
  }

  lemma FootprintSize(pc: PageCache, c: Connection)
    requires pc.Valid() && Distinct(c.list) && Apart(pc.free, c.list)
    ensures |Footprint(pc, c)| == |pc.free| + |c.list|
  {
    ListSize(c.list);
    CacheSize(pc);
    assert pc.Spare() !! Elements(c.list);
  }

  // ---- the other connections ----

  /** A connection that no operation is on: its pages are its own. */
  lemma OthersApart(pc: PageCache, made: set<Page>, conn: Connection, c: Connection)
    requires CacheSound(pc, made) && ConnSound(made, conn) && ConnSound(made, c) && c != conn
    ensures forall i: nat :: i < |c.list| ==> c.list[i] !in Footprint(pc, conn)
  {
  }

  // ---- one operation on one connection ----

  /** The connection and the cache are as the specification says, and so is what a flush counts. */
  twostate predicate Did(a: Assembler, conn: Connection, act: Action, flushed: bool)
    reads a.pc, conn
  {
    && a.pc.pcSize > 0 && old(a.pc.pcSize) > 0
    && conn.View() == Handle(a.options, old(conn.View()), EventOf(act, old(a.pc.Book()), old(a.pc.used)))
    && a.pc.Book() == HandleCache(a.options, old(conn.View()), act, old(a.pc.Book()), old(a.pc.used))
    && flushed == Due(old(conn.View()), act)
  }

  method Act(a: Assembler, conn: Connection, act: Action) returns (flushed: bool)
    requires Good(a.pc, conn) && !conn.closed && Settled(conn.View()) && (act.Arrives? ==> !act.g.Empty())
    modifies a`ret, a.pc, a.connPool, conn`nextSeq, conn`first, conn`last, conn`pages, conn`list, conn`vals, conn`out,
      conn`closed, conn`lastSeen, Footprint(a.pc, conn)
    ensures a.Sound(conn) && Kept(a.pc, conn) && a.PoolKept(conn)
    ensures !act.Arrives? ==> Moved(a.pc, conn)
    ensures Did(a, conn, act, flushed)
  {
    match act {
      case Arrives(g, ts) =>
        ghost var stale := a.Receive(conn, g, ts);
        flushed := false;
      case Expire(t) =>
        flushed := a.FlushOlder(conn, t);
      case FlushEverything =>
        a.FlushAll(conn);
        flushed := true;
    }
  }

  /** The rest of the pool looks on. */
  method ActReserved(a: Assembler, conn: Connection, act: Action, ghost conns: map<int, Connection>,
                     ghost free: seq<Connection>) returns (flushed: bool)
    requires Good(a.pc, conn) && !conn.closed && Settled(conn.View()) && (act.Arrives? ==> !act.g.Empty())
    requires Keyed(conns) && Reserve(free, conns.Values) && conn in conns.Values
    modifies a`ret, a.pc, a.connPool, conn`nextSeq, conn`first, conn`last, conn`pages, conn`list, conn`vals, conn`out,
      conn`closed, conn`lastSeen, Footprint(a.pc, conn)
    ensures a.Sound(conn) && Kept(a.pc, conn) && a.PoolKept(conn)
    ensures !act.Arrives? ==> Moved(a.pc, conn)
    ensures Did(a, conn, act, flushed)
    ensures Keyed(conns) && Reserve(free, conns.Values)
  {
    assert forall i: nat :: i < |free| ==> free[i] != conn;
    flushed := Act(a, conn, act);
  }

  /** With the other connections looking on. */
  method ActBeside(a: Assembler, ghost made: set<Page>, conn: Connection, act: Action, ghost others: set<Connection>,
                   ghost conns: map<int, Connection>, ghost free: seq<Connection>) returns (flushed: bool)
    requires CacheSound(a.pc, made) && ConnSound(made, conn) && Good(a.pc, conn) && conn !in others
    requires Keyed(conns) && Reserve(free, conns.Values) && conn in conns.Values
    requires forall c <- others :: ConnSound(made, c)
    requires act.Arrives? ==> !act.g.Empty()
    modifies a`ret, a.pc, a.connPool, conn`nextSeq, conn`first, conn`last, conn`pages, conn`list, conn`vals, conn`out,
      conn`closed, conn`lastSeen, Footprint(a.pc, conn)
    ensures a.Sound(conn) && Kept(a.pc, conn) && a.PoolKept(conn)
    ensures !act.Arrives? ==> Moved(a.pc, conn)
    ensures Did(a, conn, act, flushed)
    ensures forall c <- others :: ConnSound(made, c)
    ensures Keyed(conns) && Reserve(free, conns.Values)
  {
    forall c | c in others ensures forall i: nat :: i < |c.list| ==> c.list[i] !in Footprint(a.pc, conn) {
      OthersApart(a.pc, made, conn, c);
    }
    flushed := ActReserved(a, conn, act, conns, free);
    forall c | c in others ensures ConnSound(made, c) {
      assert ConnSound(made, c) == old(ConnSound(made, c));
    }
  }

  // ---- everything ----

  /** Used and free pages are all there are; each page is in the free list or in the list of one
      open connection; the lists are well formed. */
  ghost predicate AllSound(a: Assembler, made: set<Page>)
    reads *
  {
    && CacheSound(a.pc, made) && PoolSound(a.connPool)
    && (forall c <- a.connPool.conns.Values :: ConnSound(made, c))
    && (forall p <- made :: Placed(a.pc.Spare(), a.connPool.conns.Values, p))
  }

  lemma MadeGrows(made: set<Page>, made': set<Page>, c: Connection)
    requires ConnSound(made, c) && made <= made'
    ensures ConnSound(made', c)
  {
  }

  lemma BooksBefore(a: Assembler, made: set<Page>, c: Connection)
    requires CacheSound(a.pc, made) && ConnSound(made, c)
    ensures Good(a.pc, c)
    ensures var f := Footprint(a.pc, c);
            f <= made && |f| == |a.pc.free| + |c.list| && |made| == |a.pc.free| + a.pc.used
  {
    InUseBound(a.pc, made, c);
    FootprintSize(a.pc, c);
  }

  lemma BooksAfter(a: Assembler, made: set<Page>, c: Connection, f: set<Page>, free: nat, used: nat, listed: nat)
    requires a.Sound(c) && f <= made && |f| == free + listed && |made| == free + used
    requires f <= Footprint(a.pc, c) && (Footprint(a.pc, c) - f) !! made
    requires a.pc.used - |c.list| == used - listed
    ensures CacheSound(a.pc, made + Footprint(a.pc, c))
  {
    assert a.pc.Valid() && Distinct(c.list) && Apart(a.pc.free, c.list);
    MadeSize(made, f, Footprint(a.pc, c));
    FootprintSize(a.pc, c);
  }

  /** An operation on one of the open connections, with the books kept. */
  method ActKeepingBooks(a: Assembler, ghost made: set<Page>, conn: Connection, act: Action, ghost others: set<Connection>,
                         ghost conns: map<int, Connection>, ghost free: seq<Connection>)
    returns (flushed: bool, ghost made': set<Page>)
    requires Keyed(conns) && Reserve(free, conns.Values) && conn in conns.Values
    requires CacheSound(a.pc, made) && ConnSound(made, conn) && conn !in others
    requires forall c <- others :: ConnSound(made, c)
    requires act.Arrives? ==> !act.g.Empty()
    modifies a`ret, a.pc, a.connPool, conn`nextSeq, conn`first, conn`last, conn`pages, conn`list, conn`vals, conn`out,
      conn`closed, conn`lastSeen, Footprint(a.pc, conn)
    ensures a.Sound(conn) && Kept(a.pc, conn) && a.PoolKept(conn)
    ensures !act.Arrives? ==> Moved(a.pc, conn)
    ensures Did(a, conn, act, flushed)
    ensures made' == made + Footprint(a.pc, conn) && CacheSound(a.pc, made') && (!act.Arrives? ==> made' == made)
    ensures forall c <- others :: ConnSound(made', c)
    ensures Keyed(conns) && Reserve(free, conns.Values)
  {
    BooksBefore(a, made, conn);
    ghost var f, spare, used, listed := Footprint(a.pc, conn), |a.pc.free|, a.pc.used, |conn.list|;
    flushed := ActBeside(a, made, conn, act, others, conns, free);
    BooksAfter(a, made, conn, f, spare, used, listed);
    made' := made + Footprint(a.pc, conn);
    forall c | c in others ensures ConnSound(made', c) {
      MadeGrows(made, made', c);
    }
  }

  /** Removing a connection's key removes that connection. */
  lemma ValuesWithout(conns: map<int, Connection>, c: Connection)
    requires Keyed(conns) && c in conns.Values
    ensures Keyed(conns - {c.key}) && (conns - {c.key}).Values == conns.Values - {c}
  {
    var rest := conns - {c.key};
    forall d ensures d in rest.Values <==> d in conns.Values - {c} {
      if d in rest.Values {
        var k := AKey(rest, d);
        assert conns[k] == d && conns[k].key == k;
      }
      if d in conns.Values - {c} {
        assert d.key in rest && rest[d.key] == d;
      }
    }
  }

  lemma ReserveWith(free: seq<Connection>, open: set<Connection>, c: Connection)
    requires Reserve(free, open) && c in open && c.list == [] && c.vals == []
    ensures Reserve(free + [c], open - {c})
  {
  }

  /** A page in another open connection's list. */
  ghost predicate Elsewhere(others: set<Connection>, p: Page)
    reads p, others
  {
    p.owner != null && p.owner in others && p in p.owner.list
  }

  lemma ElsewhereBefore(a: Assembler, made: set<Page>, conn: Connection)
    requires AllSound(a, made) && conn in a.connPool.conns.Values
    ensures forall p <- made - Footprint(a.pc, conn) :: Elsewhere(a.connPool.conns.Values - {conn}, p)
  {
    forall p | p in made - Footprint(a.pc, conn) ensures Elsewhere(a.connPool.conns.Values - {conn}, p) {
      assert Placed(a.pc.Spare(), a.connPool.conns.Values, p);
    }
  }

  /** What lies outside a connection: other connections and their pages, the keys, the reserve. */
  ghost predicate Rest(conn: Connection, made: set<Page>, others: set<Connection>, elsewhere: set<Page>,
                       conns: map<int, Connection>, free: seq<Connection>)
    reads *
  {
    && (forall c <- others :: ConnSound(made, c)) && (forall p <- elsewhere :: Elsewhere(others, p))
    && Keyed(conns) && Reserve(free, conns.Values) && conn in conns.Values && others == conns.Values - {conn}
  }

  /** The operation, and what it does not touch. */
  method ActApart(a: Assembler, ghost made: set<Page>, conn: Connection, act: Action, ghost others: set<Connection>,
                  ghost elsewhere: set<Page>, ghost conns: map<int, Connection>, ghost free: seq<Connection>)
    returns (flushed: bool, ghost made': set<Page>)
    requires CacheSound(a.pc, made) && ConnSound(made, conn) && (act.Arrives? ==> !act.g.Empty())
    requires Rest(conn, made, others, elsewhere, conns, free) && elsewhere !! Footprint(a.pc, conn)
    modifies a`ret, a.pc, a.connPool, conn`nextSeq, conn`first, conn`last, conn`pages, conn`list, conn`vals, conn`out,
      conn`closed, conn`lastSeen, Footprint(a.pc, conn)
    ensures a.Sound(conn) && Kept(a.pc, conn) && a.PoolKept(conn)
    ensures !act.Arrives? ==> Moved(a.pc, conn)
    ensures Did(a, conn, act, flushed)
    ensures made' == made + Footprint(a.pc, conn) && CacheSound(a.pc, made') && (!act.Arrives? ==> made' == made)
    ensures Rest(conn, made', others, elsewhere, conns, free)
  {
    flushed, made' := ActKeepingBooks(a, made, conn, act, others, conns, free);
    forall p | p in elsewhere ensures Elsewhere(others, p) {
      assert old(Elsewhere(others, p));
    }
  }

  lemma RestBefore(a: Assembler, made: set<Page>, conn: Connection)
    requires AllSound(a, made) && conn in a.connPool.conns.Values
    ensures CacheSound(a.pc, made) && ConnSound(made, conn)
    ensures Rest(conn, made, a.connPool.conns.Values - {conn}, made - Footprint(a.pc, conn), a.connPool.conns,
                 a.connPool.free)
  {
    ElsewhereBefore(a, made, conn);
  }

  /** Where the pages are afterwards. */
  lemma PlacedAfter(a: Assembler, made: set<Page>, conn: Connection, open: set<Connection>, others: set<Connection>,
                    elsewhere: set<Page>)
    requires a.Sound(conn) && made <= elsewhere + Footprint(a.pc, conn)
    requires others <= open && (!conn.closed ==> conn in open)
    requires forall p <- elsewhere :: Elsewhere(others, p)
    ensures forall p <- made :: Placed(a.pc.Spare(), open, p)
  {
    forall p | p in made ensures Placed(a.pc.Spare(), open, p) {
      if p in elsewhere { assert Elsewhere(others, p); }
    }
  }

  /** The pool afterwards. */
  lemma PoolAfter(pool: StreamPool, conn: Connection, conns: map<int, Connection>, free: seq<Connection>)
    requires Keyed(conns) && Reserve(free, conns.Values) && conn in conns.Values
    requires pool.conns == (if conn.closed then conns - {conn.key} else conns)
    requires pool.free == (if conn.closed then free + [conn] else free)
    requires conn.closed ==> conn.list == [] && conn.vals == []
    requires pool.nextAlloc > 0
    ensures PoolSound(pool)
    ensures pool.conns.Values == if conn.closed then conns.Values - {conn} else conns.Values
  {
    if conn.closed {
      ValuesWithout(conns, conn);
      ReserveWith(free, conns.Values, conn);
    }
  }

  lemma ConnAfter(a: Assembler, made: set<Page>, conn: Connection)
    requires a.Sound(conn) && !conn.closed && Settled(conn.View()) && Footprint(a.pc, conn) <= made
    ensures ConnSound(made, conn)
  {
  }

  lemma RestAfter(a: Assembler, made: set<Page>, conn: Connection, others: set<Connection>, elsewhere: set<Page>,
                  conns: map<int, Connection>, free: seq<Connection>)
    requires Rest(conn, made, others, elsewhere, conns, free) && CacheSound(a.pc, made) && a.Sound(conn)
    requires Settled(conn.View()) && Footprint(a.pc, conn) <= made <= elsewhere + Footprint(a.pc, conn)
    requires a.connPool.conns == (if conn.closed then conns - {conn.key} else conns)
    requires a.connPool.free == (if conn.closed then free + [conn] else free) && a.connPool.nextAlloc > 0
    ensures AllSound(a, made)
  {
    PoolAfter(a.connPool, conn, conns, free);
    PlacedAfter(a, made, conn, a.connPool.conns.Values, others, elsewhere);
    if !conn.closed { ConnAfter(a, made, conn); }
  }

  /** An operation on one open connection keeps everything in its place, leaves the other
      connections as they were, and does to the connection what the specification says. */
  method ActInPool(a: Assembler, ghost made: set<Page>, conn: Connection, act: Action)
    returns (flushed: bool, ghost made': set<Page>)
    requires AllSound(a, made) && conn in a.connPool.conns.Values && (act.Arrives? ==> !act.g.Empty())
    modifies a`ret, a.pc, a.connPool, conn`nextSeq, conn`first, conn`last, conn`pages, conn`list, conn`vals, conn`out,
      conn`closed, conn`lastSeen, Footprint(a.pc, conn)
    ensures AllSound(a, made') && made <= made' && (!act.Arrives? ==> made' == made)
    ensures a.pc.used - |conn.vals| == old(a.pc.used - |conn.vals|)
    ensures Did(a, conn, act, flushed)
    ensures a.PoolKept(conn)
  {
    ghost var conns, free := a.connPool.conns, a.connPool.free;
    ghost var others, elsewhere := conns.Values - {conn}, made - Footprint(a.pc, conn);
    RestBefore(a, made, conn);
    flushed, made' := ActApart(a, made, conn, act, others, elsewhere, conns, free);
    HandleSettled(a.options, old(conn.View()), EventOf(act, old(a.pc.Book()), old(a.pc.used)));
    RestAfter(a, made', conn, others, elsewhere, conns, free);
  }

  /** NewAssembler with a pool of its own. */
  method NewAssembler(options: Options, initialAllocSize: nat) returns (a: Assembler, ghost made: set<Page>)
    requires initialAllocSize > 0
    ensures a.pc.Book() == Grown(Cache([], initialAllocSize))
    ensures fresh(a) && fresh(a.pc) && fresh(a.connPool) && fresh(made) && a.options == options
    ensures AllSound(a, made) && a.connPool.conns == map[] && a.pc.used == 0
  {
    var pc := new PageCache(initialAllocSize);
    var pool := new StreamPool(initialAllocSize);
    a := new Assembler(pc, pool, options);
    made := pc.Spare();
    CacheSize(pc);
  }

  // ---- finding the connection of a packet ----

  lemma KeyedWith(conns: map<int, Connection>, key: int, c: Connection)
    requires Keyed(conns) && key !in conns && c !in conns.Values && c.key == key
    ensures Keyed(conns[key := c]) && conns[key := c].Values == conns.Values + {c}
  {
    var more := conns[key := c];
    assert more[key] == c;
    forall d ensures d in more.Values <==> d in conns.Values + {c} {
      if d in more.Values {
        var k := AKey(more, d);
        assert k != key ==> conns[k] == d;
      }
      if d in conns.Values { assert more[d.key] == d; }
    }
  }

  lemma FreshIsSound(made: set<Page>, c: Connection)
    requires c.Linked() && c.list == [] && c.pages == 0 && c.View() == NewConn(c.lastSeen)
    ensures ConnSound(made, c)
  {
  }

  /** A connection object from the reserve, or a new one. */
  method NewInPool(a: Assembler, ghost made: set<Page>, key: int) returns (conn: Connection)
    requires AllSound(a, made)
    modifies a.connPool`free, a.connPool`nextAlloc, Elements(a.connPool.free)
    ensures AllSound(a, made) && (conn in old(a.connPool.free) || fresh(conn))
    ensures Reserve(a.connPool.free, a.connPool.conns.Values + {conn}) && conn !in a.connPool.conns.Values
    ensures conn.key == key && conn.View() == NewConn(conn.lastSeen) && ConnSound(made, conn)
  {
    conn := a.connPool.NewConnection(key, a.connPool.conns.Values);
    FreshIsSound(made, conn);
  }

  lemma WithConnection(a: Assembler, made: set<Page>, conns: map<int, Connection>, key: int, conn: Connection)
    requires CacheSound(a.pc, made) && Keyed(conns) && key !in conns && conn !in conns.Values && conn.key == key
    requires forall c <- conns.Values :: ConnSound(made, c)
    requires forall p <- made :: Placed(a.pc.Spare(), conns.Values, p)
    requires ConnSound(made, conn) && a.connPool.conns == conns[key := conn] && a.connPool.nextAlloc > 0
    requires Reserve(a.connPool.free, conns.Values + {conn})
    ensures AllSound(a, made) && conn in a.connPool.conns.Values
  {
    KeyedWith(conns, key, conn);
  }

  /** A new connection, empty, under its key. */
  method AddConnection(a: Assembler, ghost made: set<Page>, key: int) returns (conn: Connection)
    requires AllSound(a, made) && key !in a.connPool.conns
    modifies a.connPool, Elements(a.connPool.free)
    ensures AllSound(a, made) && (conn in old(a.connPool.free) || fresh(conn))
    ensures a.connPool.conns == old(a.connPool.conns)[key := conn] && conn in a.connPool.conns.Values
    ensures conn.key == key && conn.View() == NewConn(conn.lastSeen)
  {
    ghost var conns := a.connPool.conns;
    conn := NewInPool(a, made, key);
    a.connPool.conns := a.connPool.conns[key := conn];
    WithConnection(a, made, conns, key, conn);
  }

  lemma FreeApart(a: Assembler, made: set<Page>)
    requires AllSound(a, made)
    ensures forall c <- a.connPool.conns.Values :: c !in Elements(a.connPool.free)
  {
  }

  /** getConnection: none if the key is not open and the packet is to end a stream. */
  method GetConnection(a: Assembler, ghost made: set<Page>, key: int, end: bool) returns (conn: Connection?)
    requires AllSound(a, made)
    modifies a.connPool, Elements(a.connPool.free)
    ensures AllSound(a, made)
    ensures conn == null <==> end && key !in old(a.connPool.conns)
    ensures conn == null ==> a.connPool.conns == old(a.connPool.conns)
    ensures conn != null ==> a.connPool.conns == old(a.connPool.conns)[key := conn] && conn.key == key
    ensures conn != null ==> conn in old(a.connPool.conns.Values) + old(Elements(a.connPool.free)) || fresh(conn)
    ensures key in old(a.connPool.conns) ==> conn == old(a.connPool.conns)[key]
    ensures key !in old(a.connPool.conns) && conn != null ==>
      conn.View() == NewConn(conn.lastSeen) && conn !in old(a.connPool.conns.Values)
    ensures forall c <- old(a.connPool.conns.Values) :: c.View() == old(c.View())
  {
    FreeApart(a, made);
    if key in a.connPool.conns {
      conn := a.connPool.conns[key];
    } else if end {
      conn := null;
    } else {
      conn := AddConnection(a, made, key);
    }
  }

  lemma FootprintMade(a: Assembler, made: set<Page>, conn: Connection)
    requires AllSound(a, made) && conn in a.connPool.conns.Values
    ensures Footprint(a.pc, conn) <= made
  {
  }

  /** A packet that is not empty, on its connection. */
  method AssembleOn(a: Assembler, ghost made: set<Page>, conn: Connection, g: Segment, ts: int)
    returns (ghost made': set<Page>)
    requires AllSound(a, made) && conn in a.connPool.conns.Values && !g.Empty()
    modifies a`ret, a.pc, a.connPool, conn, made
    ensures AllSound(a, made') && made <= made'
    ensures a.pc.used - |conn.vals| == old(a.pc.used - |conn.vals|)
    ensures Did(a, conn, Arrives(g, ts), false)
    ensures a.connPool.conns ==
      if conn.closed then old(a.connPool.conns) - {old(conn.key)} else old(a.connPool.conns)
    ensures forall c <- old(a.connPool.conns.Values) :: c != conn ==> c.View() == old(c.View())
  {
    FootprintMade(a, made, conn);
    var flushed;
    flushed, made' := ActInPool(a, made, conn, Arrives(g, ts));
  }

  lemma MoreValues(conns: map<int, Connection>, key: int, c: Connection)
    requires key in conns ==> conns[key] == c
    ensures conns.Values <= conns[key := c].Values
  {
    forall d | d in conns.Values ensures d in conns[key := c].Values {
      var k := AKey(conns, d);
      assert conns[key := c][k] == d;
    }
  }

  /** AssembleWithTimestamp: the packet's connection, found or new, does what the specification
      says, and the other connections are as they were. */
  method AssembleWithTimestamp(a: Assembler, ghost made: set<Page>, key: int, g: Segment, ts: int)
    returns (conn: Connection?, ghost before: Conn, ghost made': set<Page>)
    requires AllSound(a, made)
    modifies a`ret, a.pc, a.connPool, Elements(a.connPool.free) + a.connPool.conns.Values, made
    ensures AllSound(a, made') && made <= made'
    ensures conn == null <==> g.Empty() || (!g.syn && g.payload == [] && key !in old(a.connPool.conns))
    ensures forall c <- old(a.connPool.conns.Values) :: c != conn ==> c.View() == old(c.View())
    ensures conn == null ==>
      a.connPool.conns == old(a.connPool.conns) && a.pc.used == old(a.pc.used) && a.pc.Book() == old(a.pc.Book())
    ensures conn != null && key in old(a.connPool.conns) ==>
      conn == old(a.connPool.conns)[key] && before == old(a.connPool.conns[key].View())
    ensures conn != null && key !in old(a.connPool.conns) ==>
      before == NewConn(before.lastSeen) && conn !in old(a.connPool.conns.Values)
    ensures conn != null ==>
      && a.pc.used - |conn.vals| == old(a.pc.used) - |before.pages| && old(a.pc.pcSize) > 0
      && conn.View() == Handle(a.options, before, Packet(g, ts, Stale(old(a.pc.Book()), |g.payload|), old(a.pc.used)))
      && a.pc.Book() == HandleCache(a.options, before, Arrives(g, ts), old(a.pc.Book()), old(a.pc.used))
      && a.connPool.conns == var all := old(a.connPool.conns)[key := conn]; if conn.closed then all - {key} else all
  {
    conn, before, made' := null, NewConn(0), made;
    if g.Empty() { return; }
    conn := GetConnection(a, made, key, !g.syn && |g.payload| == 0);
    if conn == null { return; }
    before := conn.View();
    assert a.connPool.conns[key] == conn;
    assert forall c <- old(a.connPool.conns.Values) :: c != conn ==> c in a.connPool.conns.Values by {
      MoreValues(old(a.connPool.conns), key, conn);
    }
    made' := AssembleOn(a, made, conn, g, ts);
  }

  // ---- a packet is a step of the pool ----

  ghost function Views(conns: map<int, Connection>): map<int, Conn>
    reads conns.Values
  {
    map k | k in conns :: assert conns[k] in conns.Values; conns[k].View()
  }

  /** The assembler as a value; `closed` are the connections closed so far. */
  ghost function PoolOf(a: Assembler, closed: seq<Conn>): Pool
    reads a, a.pc, a.connPool, a.connPool.conns.Values
  {
    Pool(Views(a.connPool.conns), closed, a.pc.Book())
  }

  lemma KeysDiffer(conns: map<int, Connection>)
    requires Keyed(conns)
    ensures forall k <- conns, m <- conns :: conns[k] == conns[m] ==> k == m
  {
  }

  lemma ViewsAfter(conns: map<int, Connection>, views: map<int, Conn>, key: int, conn: Connection, closed: bool)
    requires views.Keys == conns.Keys && forall k <- conns :: k != key ==> conns[k].View() == views[k]
    ensures var all := conns[key := conn];
            Views(if closed then all - {key} else all) == if closed then views - {key} else views[key := conn.View()]
  {
    var all := conns[key := conn];
    if closed {
      assert Views(all - {key}).Keys == (views - {key}).Keys;
    } else {
      assert Views(all).Keys == views[key := conn.View()].Keys;
    }
  }

  lemma ViewsSame(conns: map<int, Connection>, views: map<int, Conn>)
    requires views.Keys == conns.Keys && forall k <- conns :: conns[k].View() == views[k]
    ensures Views(conns) == views
  {
    assert Views(conns).Keys == views.Keys;
    forall k | k in views ensures Views(conns)[k] == views[k] {
      assert k in conns;
    }
  }

  /** AssembleWithTimestamp, and what it leaves of every connection. */
  method AssembleViews(a: Assembler, ghost made: set<Page>, key: int, g: Segment, ts: int)
    returns (conn: Connection?, ghost before: Conn, ghost made': set<Page>)
    requires AllSound(a, made)
    modifies a`ret, a.pc, a.connPool, Elements(a.connPool.free) + a.connPool.conns.Values, made
    ensures AllSound(a, made') && made <= made' && old(a.pc.pcSize) > 0
    ensures conn == null <==> g.Empty() || (!g.syn && g.payload == [] && key !in old(a.connPool.conns))
    ensures conn == null ==> Views(a.connPool.conns) == old(Views(a.connPool.conns)) && a.pc.Book() == old(a.pc.Book())
    ensures conn != null ==>
      && before == (if key in old(a.connPool.conns) then old(a.connPool.conns[key].View()) else NewConn(before.lastSeen))
      && conn.View() == Handle(a.options, before, EventOf(Arrives(g, ts), old(a.pc.Book()), old(a.pc.used)))
      && a.pc.Book() == HandleCache(a.options, before, Arrives(g, ts), old(a.pc.Book()), old(a.pc.used))
      && Views(a.connPool.conns) ==
         if conn.closed then old(Views(a.connPool.conns)) - {key} else old(Views(a.connPool.conns))[key := conn.View()]
  {
    ghost var conns, views := a.connPool.conns, Views(a.connPool.conns);
    KeysDiffer(conns);
    conn, before, made' := AssembleWithTimestamp(a, made, key, g, ts);
    forall k | k in conns && (conn == null || k != key) ensures conns[k].View() == views[k] {
      assert conns[k] in conns.Values && conns[k] != conn;
    }
    if conn == null {
      ViewsSame(conns, views);
    } else {
      ViewsAfter(conns, views, key, conn, conn.closed);
    }
  }

  lemma NoneClosed(a: Assembler, made: set<Page>, key: int)
    requires AllSound(a, made) && key in a.connPool.conns
    ensures !Views(a.connPool.conns)[key].closed
  {
    assert a.connPool.conns[key] in a.connPool.conns.Values;
  }

  /** AssembleWithTimestamp is a step of the pool. */
  method AssemblePacket(a: Assembler, ghost made: set<Page>, key: int, g: Segment, ts: int, ghost closed: seq<Conn>)
    returns (ghost h: Happening, ghost made': set<Page>, ghost closed': seq<Conn>)
    requires AllSound(a, made)
    modifies a`ret, a.pc, a.connPool, Elements(a.connPool.free) + a.connPool.conns.Values, made
    ensures AllSound(a, made') && made <= made'
    ensures h.key == key && h.act == Arrives(g, ts) && h.used == old(a.pc.used)
    ensures old(a.pc.pcSize) > 0 && PoolOf(a, closed') == Step(a.options, old(PoolOf(a, closed)), h)
  {
    ghost var p, used := PoolOf(a, closed), a.pc.used;
    if key in a.connPool.conns { NoneClosed(a, made, key); }
    var conn;
    ghost var before;
    conn, before, made' := AssembleViews(a, made, key, g, ts);
    h, closed' := Happening(key, before.lastSeen, Arrives(g, ts), used), closed;
    if conn == null {
      StepOfNothing(a.options, p, h);
    } else {
      StepIs(a.options, p, h, conn.View(), a.pc.Book(), Views(a.connPool.conns));
      if conn.closed { closed' := closed + [conn.View()]; }
    }
  }

  /** Both page limits hold: of every open connection, and of the pages in use. */
  ghost predicate WithinLimits(o: Options, open: set<Connection>, used: int)
    reads open
  {
    && (o.maxTotal > 0 ==> used < o.maxTotal)
    && forall c <- open :: o.maxPerConn > 0 ==> |c.vals| < o.maxPerConn
  }

  lemma OnePageWithin(o: Options, before: Conn, g: Segment, ts: int, stale: seq<Flags>, used: nat)
    requires |g.payload| <= PAGE_BYTES && |stale| == PageCount(|g.payload|)
    requires (o.maxTotal > 0 ==> used < o.maxTotal) && (o.maxPerConn > 0 ==> |before.pages| < o.maxPerConn)
    ensures var after := Handle(o, before, Packet(g, ts, stale, used));
            && (o.maxTotal > 0 ==> used + |after.pages| - |before.pages| < o.maxTotal)
            && (o.maxPerConn > 0 ==> |after.pages| < o.maxPerConn)
  {
    if !before.closed && !g.Empty() { LimitsHold(o, before, g, ts, stale, used); }
  }

  /** Packets of at most a page leave both limits unreached. */
  method AssembleOnePage(a: Assembler, ghost made: set<Page>, key: int, g: Segment, ts: int) returns (ghost made': set<Page>)
    requires AllSound(a, made) && |g.payload| <= PAGE_BYTES
    requires WithinLimits(a.options, a.connPool.conns.Values, a.pc.used)
    modifies a`ret, a.pc, a.connPool, Elements(a.connPool.free) + a.connPool.conns.Values, made
    ensures AllSound(a, made') && WithinLimits(a.options, a.connPool.conns.Values, a.pc.used)
  {
    ghost var conns, used, open := a.connPool.conns, a.pc.used, a.connPool.conns.Values;
    var conn;
    ghost var before, stale := NewConn(0), Stale(a.pc.Book(), |g.payload|);
    conn, before, made' := AssembleWithTimestamp(a, made, key, g, ts);
    forall c | c in open && c != conn ensures a.options.maxPerConn > 0 ==> |c.vals| < a.options.maxPerConn {
      assert |c.View().pages| == old(|c.View().pages|);
    }
    if conn != null {
      assert key in conns ==> conns[key] in open;
      OnePageWithin(a.options, before, g, ts, stale, used);
      ValuesAfter(conns, key, conn, a.connPool.conns);
      WithinAfter(a.options, a.connPool.conns.Values, open, conn, a.pc.used);
    }
  }

  lemma WithinAfter(o: Options, open': set<Connection>, open: set<Connection>, conn: Connection, used: int)
    requires open' <= open + {conn} && (o.maxTotal > 0 ==> used < o.maxTotal)
    requires o.maxPerConn > 0 ==> |conn.vals| < o.maxPerConn
    requires forall c <- open :: c != conn && o.maxPerConn > 0 ==> |c.vals| < o.maxPerConn
    ensures WithinLimits(o, open', used)
  {
  }

  lemma ValuesAfter(conns: map<int, Connection>, key: int, c: Connection, conns': map<int, Connection>)
    requires conns' == conns[key := c] || conns' == conns[key := c] - {key}
    ensures conns'.Values <= conns.Values + {c}
  {
    forall d | d in conns'.Values ensures d in conns.Values + {c} {
      var k := AKey(conns', d);
      assert k != key ==> conns[k] == d;
    }
  }

  // ---- flushing ----

  function FlushEvent(act: Action): Event
    requires !act.Arrives?
  {
    if act.Expire? then Older(act.t) else All
  }

  /** What a flush makes of a connection that was `was` at the start. */
  ghost predicate Flushed(a: Assembler, act: Action, c: Connection, was: Conn)
    requires !act.Arrives?
    reads a, a.connPool, c
  {
    c.View() == Handle(a.options, was, FlushEvent(act)) && (c in a.connPool.conns.Values <==> !c.closed)
  }

  lemma OthersStay(conns: map<int, Connection>, key: int, c: Connection)
    requires key in conns && conns[key] == c
    ensures (conns - {key}).Values <= conns.Values
    ensures forall d <- conns.Values :: d != c ==> d in (conns - {key}).Values
  {
    forall d | d in conns.Values && d != c ensures d in (conns - {key}).Values {
      var k := AKey(conns, d);
      assert (conns - {key})[k] == d;
    }
  }

  /** One connection of a flush, and all those that were open at its start. */
  method FlushOne(a: Assembler, ghost made: set<Page>, conn: Connection, act: Action, ghost all: set<Connection>)
    returns (flushed: bool)
    requires AllSound(a, made) && conn in a.connPool.conns.Values && !act.Arrives?
    modifies a`ret, a.pc, a.connPool, conn, made
    ensures AllSound(a, made) && Flushed(a, act, conn, old(conn.View())) && Did(a, conn, act, flushed)
    ensures a.connPool.conns == if conn.closed then old(a.connPool.conns) - {old(conn.key)} else old(a.connPool.conns)
    ensures a.connPool.conns.Values <= old(a.connPool.conns.Values)
    ensures forall d <- all :: d != conn ==>
      d.View() == old(d.View()) && (d in a.connPool.conns.Values <==> d in old(a.connPool.conns.Values))
  {
    FootprintMade(a, made, conn);
    assert Keyed(a.connPool.conns);
    OthersStay(a.connPool.conns, conn.key, conn);
    ghost var made';
    flushed, made' := ActInPool(a, made, conn, act);
  }

  /** The flush of one connection is a step of the pool. */
  method FlushStep(a: Assembler, ghost made: set<Page>, conn: Connection, act: Action, ghost all: set<Connection>,
                   ghost closed: seq<Conn>) returns (flushed: bool, ghost h: Happening, ghost closed': seq<Conn>)
    requires AllSound(a, made) && conn in a.connPool.conns.Values && a.connPool.conns.Values <= all && !act.Arrives?
    modifies a`ret, a.pc, a.connPool, conn, made
    ensures AllSound(a, made) && Flushed(a, act, conn, old(conn.View())) && flushed == Due(old(conn.View()), act)
    ensures a.connPool.conns.Values <= old(a.connPool.conns.Values)
    ensures forall d <- all :: d != conn ==>
      d.View() == old(d.View()) && (d in a.connPool.conns.Values <==> d in old(a.connPool.conns.Values))
    ensures h.act == act && closed' == if conn.closed then closed + [conn.View()] else closed
    ensures old(a.pc.pcSize) > 0 && PoolOf(a, closed') == Step(a.options, old(PoolOf(a, closed)), h)
  {
    ghost var conns, views, p, used, key := a.connPool.conns, Views(a.connPool.conns), PoolOf(a, closed), a.pc.used, conn.key;
    KeysDiffer(conns);
    assert key in conns && conns[key] == conn && conns[key := conn] == conns;
    flushed := FlushOne(a, made, conn, act, all);
    forall k | k in conns && k != key ensures conns[k].View() == views[k] {
      assert conns[k] in conns.Values && conns[k] != conn;
    }
    ViewsAfter(conns, views, key, conn, conn.closed);
    h, closed' := Happening(key, 0, act, used), closed;
    StepIs(a.options, p, h, conn.View(), a.pc.Book(), Views(a.connPool.conns));
    if conn.closed { closed' := closed + [conn.View()]; }
  }

  /** Some connections are still to be flushed, and the others of those open at the start are. */
  ghost predicate Flushing(a: Assembler, act: Action, todo: set<Connection>, was: map<Connection, Conn>)
    requires !act.Arrives?
    reads a, a.connPool, was.Keys
  {
    && todo <= a.connPool.conns.Values <= was.Keys
    && forall c <- was :: if c in todo then c.View() == was[c] else Flushed(a, act, c, was[c])
  }

  method FlushIt(a: Assembler, ghost made: set<Page>, conn: Connection, act: Action, ghost todo: set<Connection>,
                 ghost was: map<Connection, Conn>, ghost closed: seq<Conn>)
    returns (flushed: bool, ghost h: Happening, ghost closed': seq<Conn>)
    requires !act.Arrives? && AllSound(a, made) && Flushing(a, act, todo, was) && conn in todo
    modifies a`ret, a.pc, a.connPool, conn, made
    ensures AllSound(a, made) && Flushing(a, act, todo - {conn}, was) && flushed == Due(was[conn], act)
    ensures h.act == act && closed' == if conn.closed then closed + [conn.View()] else closed
    ensures old(a.pc.pcSize) > 0 && PoolOf(a, closed') == Step(a.options, old(PoolOf(a, closed)), h)
  {
    flushed, h, closed' := FlushStep(a, made, conn, act, was.Keys, closed);
    forall c | c in was && c !in todo ensures Flushed(a, act, c, was[c]) {
      assert old(Flushed(a, act, c, was[c])) && c.View() == old(c.View());
    }
    forall c | c in todo && c != conn ensures c.View() == was[c] && c in a.connPool.conns.Values {
      assert c in was && c.View() == old(c.View());
    }
    FlushingOn(a, act, todo, was, conn);
  }

  lemma FlushingOn(a: Assembler, act: Action, todo: set<Connection>, was: map<Connection, Conn>, conn: Connection)
    requires !act.Arrives? && conn in todo && todo <= was.Keys && a.connPool.conns.Values <= was.Keys
    requires Flushed(a, act, conn, was[conn])
    requires forall c <- was :: c !in todo ==> Flushed(a, act, c, was[c])
    requires forall c <- todo :: c != conn ==> c.View() == was[c] && c in a.connPool.conns.Values
    ensures Flushing(a, act, todo - {conn}, was)
  {
  }

  /** The connections that a flush counts as flushed. */
  ghost function DueSet(was: map<Connection, Conn>, some: set<Connection>, act: Action): set<Connection> {
    set c | c in some && c in was && Due(was[c], act)
  }

  lemma DueMore(was: map<Connection, Conn>, todo: set<Connection>, conn: Connection, act: Action)
    requires conn in todo && todo <= was.Keys
    ensures |DueSet(was, was.Keys - (todo - {conn}), act)| ==
      |DueSet(was, was.Keys - todo, act)| + if Due(was[conn], act) then 1 else 0
  {
    var s, s' := DueSet(was, was.Keys - todo, act), DueSet(was, was.Keys - (todo - {conn}), act);
    assert s' == if Due(was[conn], act) then s + {conn} else s;
  }

  /** A flush so far, with `todo` still to be flushed: the steps it has made of the pool `p`, and
      what it has counted. */
  ghost predicate FlushRun(a: Assembler, p: Pool, act: Action, hs: seq<Happening>, closed: seq<Conn>)
    reads a, a.pc, a.connPool, a.connPool.conns.Values
  {
    p.cache.pcSize > 0 && PoolOf(a, closed) == Steps(a.options, p, hs) && forall h <- hs :: h.act == act
  }

  ghost predicate FlushCounts(act: Action, was: map<Connection, Conn>, todo: set<Connection>, flushes: int, closes: int,
                              steps: int, closed: int)
  {
    && todo <= was.Keys && flushes == |DueSet(was, was.Keys - todo, act)| && closes == closed && steps + |todo| == |was.Keys|
  }

  /** One of the connections still to be flushed. */
  method FlushNext(a: Assembler, ghost made: set<Page>, act: Action, conn: Connection, ghost todo: set<Connection>,
                   ghost was: map<Connection, Conn>, ghost p: Pool, ghost hs: seq<Happening>, ghost closed: seq<Conn>)
    returns (flushed: bool, ghost hs': seq<Happening>, ghost closed': seq<Conn>)
    requires !act.Arrives? && AllSound(a, made) && Flushing(a, act, todo, was) && conn in todo
    requires FlushRun(a, p, act, hs, closed)
    modifies a`ret, a.pc, a.connPool, conn, made
    ensures AllSound(a, made) && Flushing(a, act, todo - {conn}, was) && flushed == Due(was[conn], act)
    ensures |closed'| == |closed| + (if conn.closed then 1 else 0)
    ensures |hs'| == |hs| + 1 && FlushRun(a, p, act, hs', closed')
  {
    ghost var h;
    flushed, h, closed' := FlushIt(a, made, conn, act, todo, was, closed);
    StepsSnoc(a.options, p, hs, h);
    hs' := hs + [h];
  }

  /** One round of the loop over the connections, with its counters. */
  method FlushRound(a: Assembler, ghost made: set<Page>, act: Action, todo: set<Connection>, flushes: nat, closes: nat,
                    ghost was: map<Connection, Conn>, ghost p: Pool, ghost hs: seq<Happening>, ghost closed: seq<Conn>,
                    ghost before: nat)
    returns (todo': set<Connection>, flushes': nat, closes': nat, ghost hs': seq<Happening>, ghost closed': seq<Conn>)
    requires !act.Arrives? && AllSound(a, made) && Flushing(a, act, todo, was) && |todo| != 0
    requires FlushRun(a, p, act, hs, closed) && FlushCounts(act, was, todo, flushes, closes, |hs|, |closed| - before)
    modifies a`ret, a.pc, a.connPool, was.Keys, made
    ensures AllSound(a, made) && Flushing(a, act, todo', was) && |todo'| < |todo|
    ensures FlushRun(a, p, act, hs', closed') && FlushCounts(act, was, todo', flushes', closes', |hs'|, |closed'| - before)
  {
    ghost var one := AnElement(todo);
    var conn: Connection :| conn in todo;
    assert conn in was.Keys;
    var flushed;
    flushed, hs', closed' := FlushNext(a, made, act, conn, todo, was, p, hs, closed);
    DueMore(was, todo, conn, act);
    todo' := todo - {conn};
    flushes' := if flushed then flushes + 1 else flushes;
    closes' := if conn.closed then closes + 1 else closes;
  }

  /** The loop over the connections. */
  method FlushLoop(a: Assembler, ghost made: set<Page>, act: Action, conns: set<Connection>, ghost was: map<Connection, Conn>,
                   ghost p: Pool, ghost closed: seq<Conn>)
    returns (flushes: nat, closes: nat, ghost hs: seq<Happening>, ghost closed': seq<Conn>)
    requires !act.Arrives? && AllSound(a, made) && Flushing(a, act, conns, was)
    requires FlushRun(a, p, act, [], closed) && FlushCounts(act, was, conns, 0, 0, 0, 0)
    modifies a`ret, a.pc, a.connPool, was.Keys, made
    ensures AllSound(a, made) && Flushing(a, act, {}, was)
    ensures FlushRun(a, p, act, hs, closed') && FlushCounts(act, was, {}, flushes, closes, |hs|, |closed'| - |closed|)
  {
    var todo := conns;
    flushes, closes, hs, closed' := 0, 0, [], closed;
    while |todo| != 0
      invariant AllSound(a, made) && Flushing(a, act, todo, was) && FlushRun(a, p, act, hs, closed')
      invariant FlushCounts(act, was, todo, flushes, closes, |hs|, |closed'| - |closed|)
      decreases |todo|
    {
      todo, flushes, closes, hs, closed' := FlushRound(a, made, act, todo, flushes, closes, was, p, hs, closed', |closed|);
    }
    assert todo == {};
  }

  ghost function ViewsOf(cs: set<Connection>): map<Connection, Conn>
    reads cs
  {
    map c | c in cs :: c.View()
  }

  /** At the start nothing is counted; at the end everything is. */
  lemma NoneCounted(act: Action, was: map<Connection, Conn>, conns: set<Connection>)
    requires was.Keys == conns
    ensures FlushCounts(act, was, conns, 0, 0, 0, 0) && was.Keys - {} == was.Keys
  {
    assert was.Keys - conns == {};
    assert DueSet(was, {}, act) == {};
  }

  lemma NoneFlushed(a: Assembler, act: Action, was: map<Connection, Conn>, closed: seq<Conn>)
    requires a.pc.pcSize > 0 && was == ViewsOf(a.connPool.conns.Values) && !act.Arrives?
    ensures was.Keys == a.connPool.conns.Values && Flushing(a, act, was.Keys, was)
    ensures FlushRun(a, PoolOf(a, closed), act, [], closed)
  {
  }

  /** FlushOlderThan, or FlushAll, on every connection open at the start, in any order: one step
      of the pool each, and how many it flushed and closed. */
  method FlushEach(a: Assembler, ghost made: set<Page>, act: Action, ghost was: map<Connection, Conn>, ghost closed: seq<Conn>)
    returns (flushes: nat, closes: nat, ghost hs: seq<Happening>, ghost closed': seq<Conn>)
    requires !act.Arrives? && AllSound(a, made) && was == ViewsOf(a.connPool.conns.Values)
    modifies a`ret, a.pc, a.connPool, was.Keys, made
    ensures AllSound(a, made) && Flushing(a, act, {}, was)
    ensures flushes == |DueSet(was, was.Keys, act)| && closes == |closed'| - |closed|
    ensures |hs| == |was.Keys| && FlushRun(a, old(PoolOf(a, closed)), act, hs, closed')
  {
    var conns := a.connPool.conns.Values;
    NoneFlushed(a, act, was, closed);
    NoneCounted(act, was, conns);
    flushes, closes, hs, closed' := FlushLoop(a, made, act, conns, was, PoolOf(a, closed), closed);
  }
}
