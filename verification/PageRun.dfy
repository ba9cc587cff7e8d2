/** A payload on its way into pages (assembly.go, pagesFromTCP). */
module PageRun {
  import opened Bytes
  import opened Collections
  import opened Sequence
  import opened Reassembly
  import opened Recycling
  import opened PageList

  // ---- cutting a payload into pages ----

  /** The first pages of a payload are cut off, with the flags `used`; `bytes` remain. */
  ghost predicate CutSoFar(g: Segment, seen: int, used: seq<Flags>, vals: seq<PageVal>, seqno: SeqNo, bytes: seq<Byte>) {
    && |used| == |vals| && PageCount(|g.payload|) == |used| + PageCount(|bytes|)
    && forall tail: seq<Flags> :: |tail| == PageCount(|bytes|) ==> CutWith(g, seen, used, vals, seqno, bytes, tail)
  }

  predicate CutWith(g: Segment, seen: int, used: seq<Flags>, vals: seq<PageVal>, seqno: SeqNo, bytes: seq<Byte>,
                    tail: seq<Flags>)
    requires |tail| == PageCount(|bytes|) && PageCount(|g.payload|) == |used| + |tail|
  {
    PagesFrom(g.seqno, g.payload, g.End(), seen, used + tail) == vals + PagesFrom(seqno, bytes, g.End(), seen, tail)
  }

  lemma CutNone(g: Segment, seen: int)
    ensures CutSoFar(g, seen, [], [], g.seqno, g.payload)
  {
    forall tail: seq<Flags> | |tail| == PageCount(|g.payload|)
      ensures CutWith(g, seen, [], [], g.seqno, g.payload, tail)
    {
      assert [] + tail == tail;
      var ps := PagesFrom(g.seqno, g.payload, g.End(), seen, tail);
      assert [] + ps == ps;
    }
  }

  lemma CutOneMore(g: Segment, seen: int, used: seq<Flags>, vals: seq<PageVal>, seqno: SeqNo, bytes: seq<Byte>, f: Flags)
    requires CutSoFar(g, seen, used, vals, seqno, bytes) && |bytes| > PAGE_BYTES
    ensures CutSoFar(g, seen, used + [f], vals + [PageVal(seqno, bytes[..PAGE_BYTES], f.skip, f.end, seen)],
                     Add(seqno, PAGE_BYTES), bytes[PAGE_BYTES..])
  {
    var v, rest := PageVal(seqno, bytes[..PAGE_BYTES], f.skip, f.end, seen), bytes[PAGE_BYTES..];
    forall tail: seq<Flags> | |tail| == PageCount(|rest|)
      ensures CutWith(g, seen, used + [f], vals + [v], Add(seqno, PAGE_BYTES), rest, tail)
    {
      assert CutWith(g, seen, used, vals, seqno, bytes, [f] + tail);
      assert used + ([f] + tail) == (used + [f]) + tail && ([f] + tail)[1..] == tail;
      var ps := PagesFrom(Add(seqno, PAGE_BYTES), rest, g.End(), seen, tail);
      assert vals + ([v] + ps) == (vals + [v]) + ps;
    }
  }

  lemma CutAll(g: Segment, seen: int, used: seq<Flags>, vals: seq<PageVal>, seqno: SeqNo, bytes: seq<Byte>, f: Flags)
    requires CutSoFar(g, seen, used, vals, seqno, bytes) && |bytes| <= PAGE_BYTES
    ensures |used + [f]| == PageCount(|g.payload|)
    ensures PagesFrom(g.seqno, g.payload, g.End(), seen, used + [f]) ==
      vals + [PageVal(seqno, bytes, f.skip, g.End(), seen)]
  {
    assert CutWith(g, seen, used, vals, seqno, bytes, [f]);
  }

  /** Pages being filled: all but the last hold their values, and the last is blank but for
      what its previous use left in it. */
  ghost predicate Filling(conn: Connection, run: seq<Page>, vals: seq<PageVal>, seen: int, f: Flags)
    reads run
  {
    && run != [] && Chain(run) && Carries(conn, run[..|run| - 1], vals)
    && Blank(conn, run[|run| - 1], seen, f)
  }

  /** A run in the making: its pages so far, what they hold and held before, and what of the
      payload remains. */
  datatype Cut = Cut(run: seq<Page>, vals: seq<PageVal>, stale: seq<Flags>, seqno: SeqNo, bytes: seq<Byte>, f: Flags)

  ghost predicate Cutting(g: Segment, seen: int, conn: Connection, c: Cut)
    reads c.run
  {
    Filling(conn, c.run, c.vals, seen, c.f) && CutSoFar(g, seen, c.stale, c.vals, c.seqno, c.bytes)
  }

  ghost predicate Blank(conn: Connection, p: Page, seen: int, f: Flags)
    reads p
  {
    p.owner == conn && p.seen == seen && p.skip == f.skip && p.end == f.end
  }

  lemma ChainSnoc(run: seq<Page>, p: Page)
    requires run != [] && Distinct(run) && Links(run, null, p) && p !in run
    requires p.prev == run[|run| - 1] && p.next == null
    ensures Chain(run + [p])
  {
    assert Links([p], run[|run| - 1], null) by {
      assert LinkedAt([p], 0, run[|run| - 1], null);
    }
    LinksConcat(run, [p], null, null);
  }

  /** The current page is full: it gets its part of the payload. */
  method FillPage(current: Page, seqno: SeqNo, part: seq<Byte>, ghost conn: Connection, ghost run: seq<Page>,
                  ghost vals: seq<PageVal>, ghost seen: int, ghost f: Flags)
    requires Filling(conn, run, vals, seen, f) && current == run[|run| - 1]
    modifies current`seqno, current`bytes
    ensures Chain(run) && Carries(conn, run, vals + [PageVal(seqno, part, f.skip, f.end, seen)])
  {
    current.bytes := part;
    current.seqno := seqno;
    assert Links(run, null, null) by {
      forall i: nat | i < |run| ensures LinkedAt(run, i, null, null) { assert old(LinkedAt(run, i, null, null)); }
    }
    assert run == run[..|run| - 1] + [current];
    assert current !in run[..|run| - 1];
    CarriesConcat(conn, run[..|run| - 1], vals, [current], [PageVal(seqno, part, f.skip, f.end, seen)]);
  }

  /** A page from the cache is hooked to the end of the run. */
  method LinkAfter(current: Page, p: Page, ghost conn: Connection, ghost run: seq<Page>, ghost vals: seq<PageVal>,
                   ghost ts: int, ghost f: Flags)
    requires run != [] && Chain(run) && Carries(conn, run, vals) && current == run[|run| - 1]
    requires p !in run && p.next == null && Blank(conn, p, ts, f)
    modifies current`next, p`prev
    ensures Filling(conn, run + [p], vals, ts, f)
  {
    current.next := p;
    p.prev := current;
    assert Links(run, null, p) by {
      forall i: nat | i < |run| ensures LinkedAt(run, i, null, p) { assert old(LinkedAt(run, i, null, null)); }
    }
    ChainSnoc(run, p);
    assert (run + [p])[..|run|] == run;
  }

  /** The next page of the run. */
  method AppendPage(pc: PageCache, current: Page, ts: int, ghost conn: Connection, ghost run: seq<Page>, ghost vals: seq<PageVal>)
    returns (p: Page, ghost f: Flags)
    requires pc.Valid() && run != [] && Chain(run) && Carries(conn, run, vals) && current == run[|run| - 1]
    modifies pc, pc.Spare(), current`next
    ensures pc.Valid() && pc.used == old(pc.used) + 1
    ensures Filling(conn, run + [p], vals, ts, f) && (f, pc.Book()) == Take(old(pc.Book()))
    ensures old(pc.Spare()) <= pc.Spare() + {p} && fresh(pc.Spare() + {p} - old(pc.Spare()))
  {
    assert Apart(run, pc.free);
    p := pc.Next(ts, conn);
    f := Flags(p.skip, p.end);
    assert Links(run, null, null) by {
      forall i: nat | i < |run| ensures LinkedAt(run, i, null, null) { assert old(LinkedAt(run, i, null, null)); }
    }
    LinkAfter(current, p, conn, run, vals, ts, f);
  }

  /** One round of pagesFromTCP: the current page is filled, and another follows it. */
  method CutPage(pc: PageCache, g: Segment, ts: int, seqno: SeqNo, bytes: seq<Byte>, current: Page,
                 ghost conn: Connection, ghost c: Cut) returns (p: Page, ghost c': Cut)
    requires pc.Valid() && Cutting(g, ts, conn, c) && current == c.run[|c.run| - 1]
    requires bytes == c.bytes && seqno == c.seqno && |bytes| > PAGE_BYTES
    modifies pc, pc.Spare(), current
    ensures pc.Valid() && pc.used == old(pc.used) + 1
    ensures Cutting(g, ts, conn, c') && c'.run == c.run + [p]
    ensures c'.stale == c.stale + [c.f] && (c'.f, pc.Book()) == Take(old(pc.Book()))
    ensures c'.bytes == bytes[PAGE_BYTES..] && c'.seqno == Add(seqno, PAGE_BYTES)
    ensures old(pc.Spare()) <= pc.Spare() + {p} && fresh(pc.Spare() + {p} - old(pc.Spare()))
  {
    assert current !in pc.free;
    FillPage(current, seqno, bytes[..PAGE_BYTES], conn, c.run, c.vals, ts, c.f);
    CutOneMore(g, ts, c.stale, c.vals, seqno, bytes, c.f);
    ghost var vals, f' := c.vals + [PageVal(seqno, bytes[..PAGE_BYTES], c.f.skip, c.f.end, ts)], c.f;
    p, f' := AppendPage(pc, current, ts, conn, c.run, vals);
    c' := Cut(c.run + [p], vals, c.stale + [c.f], Add(seqno, PAGE_BYTES), bytes[PAGE_BYTES..], f');
  }

  /** The first page of a run. */
  method StartRun(pc: PageCache, g: Segment, ts: int, ghost conn: Connection) returns (first: Page, ghost c: Cut, ghost made: set<Page>)
    requires pc.Valid()
    modifies pc, pc.Spare()
    ensures pc.Valid() && pc.used == old(pc.used) + 1
    ensures Cutting(g, ts, conn, c) && c.run == [first] && c.bytes == g.payload && c.seqno == g.seqno
    ensures c.stale == [] && (c.f, pc.Book()) == Take(old(pc.Book()))
    ensures fresh(made) && pc.Spare() + Elements(c.run) == old(pc.Spare()) + made
  {
    ghost var spare := pc.Spare();
    first := pc.Next(ts, conn);
    c := Cut([first], [], [], g.seqno, g.payload, Flags(first.skip, first.end));
    made := pc.Spare() + {first} - spare;
    ElementsSnoc([], first);
    CutNone(g, ts);
    assert LinkedAt([first], 0, null, null) && [first][..0] == [];
  }

  /** The end of pagesFromTCP: the last page gets the rest, and the End flag. */
  method FinishRun(g: Segment, ts: int, seqno: SeqNo, bytes: seq<Byte>, current: Page, ghost conn: Connection,
                   ghost c: Cut)
    requires Cutting(g, ts, conn, c) && current == c.run[|c.run| - 1]
    requires bytes == c.bytes && seqno == c.seqno && |bytes| <= PAGE_BYTES
    modifies current
    ensures |c.stale + [c.f]| == PageCount(|g.payload|) == |c.run|
    ensures Chain(c.run) && Carries(conn, c.run, PagesFrom(g.seqno, g.payload, g.End(), ts, c.stale + [c.f]))
  {
    CutAll(g, ts, c.stale, c.vals, seqno, bytes, c.f);
    FillPage(current, seqno, bytes, conn, c.run, c.vals, ts, c.f);
    SetEnd(current, g.End(), conn, c.run, c.vals, PageVal(seqno, bytes, c.f.skip, c.f.end, ts));
  }

  method SetEnd(current: Page, end: bool, ghost conn: Connection, ghost run: seq<Page>, ghost vals: seq<PageVal>,
                ghost v: PageVal)
    requires run != [] && Chain(run) && Carries(conn, run, vals + [v]) && current == run[|run| - 1]
    modifies current`end
    ensures Chain(run) && Carries(conn, run, vals + [v.(end := end)])
  {
    current.end := end;
    assert Links(run, null, null) by {
      forall i: nat | i < |run| ensures LinkedAt(run, i, null, null) { assert old(LinkedAt(run, i, null, null)); }
    }
  }

  /** The pages cut so far, and the one being filled, came from the cache `k`. */
  ghost predicate From(k: Cache, c: Cut, k': Cache) {
    k.pcSize > 0 && TakePages(k, |c.run|) == (c.stale + [c.f], k')
  }

  lemma FromOneMore(k: Cache, c: Cut, k': Cache, c': Cut, k'': Cache, p: Page)
    requires From(k, c, k') && c'.run == c.run + [p] && c'.stale == c.stale + [c.f]
    requires k'.pcSize > 0 && (c'.f, k'') == Take(k')
    ensures From(k, c', k'')
  {
    TakeOneMore(k, |c.run|, c.stale + [c.f], k', c'.f, k'');
  }

  lemma TouchedGrows(s: set<Page>, e: set<Page>, s': set<Page>, e': set<Page>, p: Page)
    requires s <= s' + {p} && e' == e + {p}
    ensures s' + e' == s + e + (s' + {p} - s)
  {
  }

  /** The body of the loop of pagesFromTCP; `made` are new pages. */
  method CutRound(pc: PageCache, g: Segment, ts: int, seqno: SeqNo, bytes: seq<Byte>, current: Page,
                  ghost conn: Connection, ghost c: Cut, ghost k: Cache) returns (p: Page, ghost c': Cut, ghost made: set<Page>)
    requires pc.Valid() && Cutting(g, ts, conn, c) && current == c.run[|c.run| - 1] && From(k, c, pc.Book())
    requires bytes == c.bytes && seqno == c.seqno && |bytes| > PAGE_BYTES
    modifies pc, pc.Spare(), current
    ensures pc.Valid() && pc.used == old(pc.used) + 1
    ensures Cutting(g, ts, conn, c') && c'.run == c.run + [p] && From(k, c', pc.Book())
    ensures c'.bytes == bytes[PAGE_BYTES..] && c'.seqno == Add(seqno, PAGE_BYTES)
    ensures fresh(made) && pc.Spare() + Elements(c'.run) == old(pc.Spare()) + Elements(c.run) + made
  {
    ghost var k', spare := pc.Book(), pc.Spare();
    p, c' := CutPage(pc, g, ts, seqno, bytes, current, conn, c);
    FromOneMore(k, c, k', c', pc.Book(), p);
    ElementsSnoc(c.run, p);
    TouchedGrows(spare, Elements(c.run), pc.Spare(), Elements(c'.run), p);
    made := pc.Spare() + {p} - spare;
  }

  /** The loop of pagesFromTCP. */
  method CutPages(pc: PageCache, g: Segment, ts: int, first: Page, ghost conn: Connection, ghost start: Cut, ghost k: Cache,
                  ghost was: set<Page>)
    returns (last: Page, numPages: nat, seqno: SeqNo, bytes: seq<Byte>, ghost c: Cut, ghost made: set<Page>)
    requires pc.Valid() && Cutting(g, ts, conn, start) && start.run == [first] && From(k, start, pc.Book())
    requires start.bytes == g.payload && start.seqno == g.seqno && was == pc.Spare() + Elements(start.run)
    modifies pc, was
    ensures pc.Valid() && pc.used == old(pc.used) + numPages - 1 && numPages == |c.run|
    ensures Cutting(g, ts, conn, c) && bytes == c.bytes && seqno == c.seqno && |bytes| <= PAGE_BYTES
    ensures first == c.run[0] && last == c.run[|c.run| - 1] && From(k, c, pc.Book())
    ensures fresh(made) && pc.Spare() + Elements(c.run) == was + made
  {
    last, seqno, bytes, c, made := first, g.seqno, g.payload, start, {};
    numPages := 1;
    while |bytes| > PAGE_BYTES
      invariant pc.Valid() && pc.used == old(pc.used) + numPages - 1 && numPages == |c.run|
      invariant Cutting(g, ts, conn, c) && bytes == c.bytes && seqno == c.seqno
      invariant first == c.run[0] && last == c.run[|c.run| - 1] && From(k, c, pc.Book())
      invariant fresh(made) && pc.Spare() + Elements(c.run) == was + made
    {
      assert last in Elements(c.run);
      assert last in was + made && pc.Spare() <= was + made;
      ghost var more;
      last, c, more := CutRound(pc, g, ts, seqno, bytes, last, conn, c, k);
      made := made + more;
      bytes := bytes[PAGE_BYTES..];
      seqno := Add(seqno, PAGE_BYTES);
      numPages := numPages + 1;
    }
  }

  /** pagesFromTCP but for the last page. */
  method CutPayload(pc: PageCache, g: Segment, ts: int, ghost conn: Connection)
    returns (first: Page, last: Page, numPages: nat, seqno: SeqNo, bytes: seq<Byte>, ghost c: Cut, ghost made: set<Page>)
    requires pc.Valid()
    modifies pc, pc.Spare()
    ensures pc.Valid() && pc.used == old(pc.used) + numPages && numPages == |c.run|
    ensures Cutting(g, ts, conn, c) && bytes == c.bytes && seqno == c.seqno && |bytes| <= PAGE_BYTES
    ensures first == c.run[0] && last == c.run[|c.run| - 1] && From(old(pc.Book()), c, pc.Book())
    ensures fresh(made) && pc.Spare() + Elements(c.run) == old(pc.Spare()) + made
  {
    ghost var k, more := pc.Book(), {};
    first, c, made := StartRun(pc, g, ts, conn);
    TakeOnePage(k);
    last, numPages, seqno, bytes, c, more := CutPages(pc, g, ts, first, conn, c, k, pc.Spare() + Elements(c.run));
    made := made + more;
  }

  method PagesFromTcp(pc: PageCache, g: Segment, ts: int, ghost conn: Connection)
    returns (first: Page, last: Page, numPages: nat, ghost run: seq<Page>, ghost stale: seq<Flags>)
    requires pc.Valid()
    modifies pc, pc.Spare()
    ensures pc.Valid() && pc.used == old(pc.used) + numPages
    ensures numPages == |run| == |stale| == PageCount(|g.payload|) && first == run[0] && last == run[|run| - 1]
    ensures Chain(run) && Carries(conn, run, PagesFrom(g.seqno, g.payload, g.End(), ts, stale))
    ensures old(pc.Spare()) <= pc.Spare() + Elements(run) && fresh(pc.Spare() + Elements(run) - old(pc.Spare()))
    ensures (stale, pc.Book()) == TakePages(old(pc.Book()), PageCount(|g.payload|))
  {
    ghost var c, made;
    var seqno, bytes;
    first, last, numPages, seqno, bytes, c, made := CutPayload(pc, g, ts, conn);
    assert last !in pc.free && last in Elements(c.run);
    FinishRun(g, ts, seqno, bytes, last, conn, c);
    run, stale := c.run, c.stale + [c.f];
  }
}
