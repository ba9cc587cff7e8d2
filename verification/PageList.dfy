/** The reassembler's pages on the heap (assembly.go): the cache of unused ones, and a
    connection's doubly linked list. */
module PageList {
  import opened Bytes
  import opened Collections
  import opened Sequence
  import opened Reassembly
  import opened Recycling

  /** A page is in the cache's free list, at `slot`, or in the list of the connection that
      owns it. */
  class Page {
    var seqno: SeqNo
    var bytes: seq<Byte>
    var skip: int
    var end: bool
    var seen: int
    var prev: Page?
    var next: Page?
    ghost var owner: Connection?
    ghost var slot: nat

    constructor (ghost slot: nat)
      ensures owner == null && this.slot == slot && !end && skip == 0
    {
      seqno, bytes, skip, end, seen := 0, [], 0, false, 0;
      prev, next := null, null;
      owner, this.slot := null, slot;
    }

    ghost predicate Holds(v: PageVal)
      reads this
    {
      seqno == v.seqno && bytes == v.bytes && skip == v.skip && end == v.end && seen == v.seen
    }
  }

  class PageCache {
    var free: seq<Page>
    var pcSize: nat
    var size: nat
    var used: nat
    /** The flags that the free pages still carry. */
    ghost var left: seq<Flags>

    ghost predicate Valid()
      reads this, free
    {
      && pcSize > 0 && used + |free| == size && |left| == |free|
      && forall i: nat :: i < |free| ==> FreeAt(free[i], i, left[i])
    }

    ghost predicate FreeAt(p: Page, i: nat, f: Flags)
      reads p
    {
      p.owner == null && p.slot == i && p.skip == f.skip && p.end == f.end
    }

    /** The cache as a value. */
    ghost function Book(): Cache
      reads this
    {
      Cache(left, pcSize)
    }

    ghost function Spare(): set<Page>
      reads this
    {
      set p | p in free
    }

    constructor (initialAllocSize: nat)
      requires initialAllocSize > 0
      ensures Valid() && used == 0 && fresh(free) && Book() == Grown(Cache([], initialAllocSize))
    {
      free, pcSize, size, used, left := [], initialAllocSize, 0, 0, [];
      new;
      Grow();
      assert free == free[0..];
    }

    /** The cache grows, and never shrinks. */
    method Grow()
      requires Valid()
      modifies this
      ensures Valid() && used == old(used) && size == old(size) + old(pcSize) && pcSize == 2 * old(pcSize)
      ensures Book() == Grown(old(Book()))
      ensures old(free) <= free && fresh(free[|old(free)|..]) && |free| > |old(free)|
    {
      var pages: seq<Page> := [];
      for i := 0 to pcSize
        invariant unchanged(this) && |pages| == i && fresh(pages)
        invariant forall j: nat :: j < i ==> FreeAt(pages[j], |free| + j, CLEAN)
      {
        var p := new Page(|free| + i);
        pages := pages + [p];
      }
      size := size + pcSize;
      free := free + pages;
      left := left + NewFlags(pcSize);
      pcSize := pcSize * 2;
    }

    /** The page's links are cleared; its skip and end are as its last use left them. */
    method Next(ts: int, ghost conn: Connection) returns (p: Page)
      requires Valid()
      modifies this, Spare()
      ensures Valid() && used == old(used) + 1 && size >= old(size)
      ensures old(Spare()) <= Spare() + {p} && fresh(Spare() + {p} - old(Spare()))
      ensures p.owner == conn && p !in free && p.prev == null && p.next == null && p.seen == ts && p.bytes == []
      ensures (Flags(p.skip, p.end), Book()) == Take(old(Book()))
      ensures if old(free) == [] then fresh(p) else p == old(free[|free| - 1]) && free == old(free[..|free| - 1])
    {
      if |free| == 0 { Grow(); }
      assert old(free) == [] ==> fresh(free[|old(free)|..][|free| - 1]);
      p := TakeLast(ts, conn);
    }

    method TakeLast(ts: int, ghost conn: Connection) returns (p: Page)
      requires Valid() && free != []
      modifies this`free, this`left, this`used, free[|free| - 1]
      ensures Valid() && used == old(used) + 1
      ensures p == old(free[|free| - 1]) && free == old(free[..|free| - 1])
      ensures p.owner == conn && p !in free && p.prev == null && p.next == null && p.seen == ts && p.bytes == []
      ensures (Flags(p.skip, p.end), Book()) == Take(old(Book()))
    {
      var i := |free| - 1;
      p, free := free[i], free[..i];
      left := left[..i];
      p.prev := null;
      p.next := null;
      p.seen := ts;
      p.bytes := [];
      p.owner := conn;
      used := used + 1;
    }

    method Replace(p: Page)
      requires Valid() && used > 0 && p.owner != null
      modifies this, p`owner, p`slot
      ensures Valid() && free == old(free) + [p] && used == old(used) - 1 && size == old(size)
      ensures p.owner == null && Book() == Put(old(Book()), Flags(p.skip, p.end))
    {
      used := used - 1;
      p.owner, p.slot := null, |free|;
      free := free + [p];
      left := left + [Flags(p.skip, p.end)];
    }
  }

  // ---- doubly linked lists ----

  ghost predicate Distinct(list: seq<Page>) {
    forall i: nat, j: nat :: i < j < |list| ==> list[i] != list[j]
  }

  /** Each page points to its neighbours, and the ends to these. */
  ghost predicate Links(list: seq<Page>, before: Page?, after: Page?)
    reads list
  {
    forall i: nat :: i < |list| ==> LinkedAt(list, i, before, after)
  }

  ghost predicate LinkedAt(list: seq<Page>, i: nat, before: Page?, after: Page?)
    requires i < |list|
    reads list
  {
    && list[i].prev == (if i == 0 then before else list[i - 1])
    && list[i].next == (if i == |list| - 1 then after else list[i + 1])
  }

  ghost predicate Chain(list: seq<Page>)
    reads list
  {
    Distinct(list) && Links(list, null, null)
  }

  function FirstOf(list: seq<Page>, other: Page?): Page? {
    if list == [] then other else list[0]
  }

  function LastOf(list: seq<Page>, other: Page?): Page? {
    if list == [] then other else list[|list| - 1]
  }

  lemma LinksConcat(a: seq<Page>, b: seq<Page>, before: Page?, after: Page?)
    requires Links(a, before, FirstOf(b, after)) && Links(b, LastOf(a, before), after)
    ensures Links(a + b, before, after)
  {
    forall i: nat | i < |a + b| ensures LinkedAt(a + b, i, before, after) {
      if i < |a| {
        assert LinkedAt(a, i, before, FirstOf(b, after));
      } else {
        assert LinkedAt(b, i - |a|, LastOf(a, before), after);
      }
    }
  }

  lemma LinksSplit(list: seq<Page>, k: nat, before: Page?, after: Page?)
    requires k <= |list| && Links(list, before, after)
    ensures Links(list[..k], before, FirstOf(list[k..], after))
    ensures Links(list[k..], LastOf(list[..k], before), after)
  {
    forall i: nat | i < k ensures LinkedAt(list[..k], i, before, FirstOf(list[k..], after)) {
      assert LinkedAt(list, i, before, after);
    }
    forall i: nat | i < |list| - k ensures LinkedAt(list[k..], i, LastOf(list[..k], before), after) {
      assert LinkedAt(list, k + i, before, after);
    }
  }

  lemma DistinctSplit(list: seq<Page>, run: seq<Page>, k: nat)
    requires Distinct(list) && k <= |list| && Apart(run, list)
    ensures Distinct(list[..k]) && Distinct(list[k..]) && Apart(list[..k], list[k..])
    ensures Apart(run, list[..k]) && Apart(run, list[k..]) && Apart(list[k..], list[..k])
  {
    assert forall i: nat :: i < k ==> list[i] !in list[k..];
  }

  lemma DistinctSpliced(list: seq<Page>, run: seq<Page>, k: nat)
    requires Distinct(list) && Distinct(run) && Apart(run, list) && k <= |list|
    ensures Distinct(list[..k] + run + list[k..])
  {
    var s := list[..k] + run + list[k..];
    forall i: nat, j: nat | i < j < |s| ensures s[i] != s[j] {
      assert forall m: nat :: m < |run| ==> run[m] in run;
    }
  }

  /** The pages are the connection's, and hold the values. */
  ghost predicate Carries(conn: Connection, list: seq<Page>, vals: seq<PageVal>)
    reads list
  {
    |list| == |vals| && forall i: nat :: i < |list| ==> list[i].owner == conn && list[i].Holds(vals[i])
  }

  ghost predicate Apart(a: seq<Page>, b: seq<Page>) {
    forall p <- a :: p !in b
  }

  class Connection {
    var key: int
    var pages: int
    var first: Page?
    var last: Page?
    var nextSeq: NextSeq
    var lastSeen: int
    var closed: bool
    /** What the connection's stream has been handed. */
    var out: seq<Chunk>
    ghost var list: seq<Page>
    ghost var vals: seq<PageVal>

    constructor ()
      ensures list == [] && vals == []
    {
      key, pages, nextSeq, lastSeen, closed, out := 0, 0, 0, 0, false, [];
      first, last := null, null;
      list, vals := [], [];
    }

    method Reset(k: int)
      requires list == [] && vals == []
      modifies this
      ensures key == k && Linked() && list == [] && pages == 0 && View() == NewConn(old(lastSeen))
    {
      key := k;
      pages := 0;
      first, last := null, null;
      nextSeq := INVALID_SEQUENCE;
      out := [];
      closed := false;
    }

    /** The connection as a value. */
    ghost function View(): Conn
      reads this
    {
      Conn(nextSeq, vals, lastSeen, closed, out)
    }

    ghost predicate Linked()
      reads this, list
    {
      && Chain(list) && Carries(this, list, vals)
      && first == FirstOf(list, null) && last == LastOf(list, null)
    }

    method TraverseConn(seqno: SeqNo) returns (prev: Page?, current: Page?, ghost k: nat)
      requires Linked()
      ensures k == Position(vals, seqno) && prev == LastOf(list[..k], null) && current == FirstOf(list[k..], null)
    {
      prev, current, k := last, null, |list|;
      assert vals[..|list|] == vals;
      while prev != null && Difference(prev.seqno, seqno) < 0
        invariant k <= |list| && prev == LastOf(list[..k], null) && current == FirstOf(list[k..], null)
        invariant Position(vals[..k], seqno) == Position(vals, seqno)
        decreases k
      {
        assert list[k - 1].Holds(vals[k - 1]) && LinkedAt(list, k - 1, null, null);
        assert vals[..k][..k - 1] == vals[..k - 1];
        current := prev;
        prev := current.prev;
        k := k - 1;
      }
      if k > 0 { assert list[k - 1].Holds(vals[k - 1]); }
    }

    /** The first half of pushBetween: the end of the run and what follows it. */
    method LinkNext(next: Page?, last: Page, ghost front: seq<Page>, ghost run: seq<Page>, ghost back: seq<Page>,
                    ghost prev: Page?)
      requires Three(front, run, back) && last == run[|run| - 1] && next == FirstOf(back, null)
      requires Links(front, null, next) && Links(run, null, null) && Links(back, prev, null)
      requires next != null ==> this.last != null
      modifies this`last, run, back
      ensures Links(front, null, next) && Links(run, null, next) && Links(back, last, null)
      ensures this.last == if next == null then last else old(this.last)
      ensures Unmoved(run) && Unmoved(back)
    {
      if next == null || this.last == null {
        this.last := last;
      } else {
        last.next := next;
        next.prev := last;
      }
      forall i: nat | i < |front| ensures LinkedAt(front, i, null, next) {
        assert old(LinkedAt(front, i, null, next)) && front[i] in front;
      }
      forall i: nat | i < |run| ensures LinkedAt(run, i, null, next) {
        assert old(LinkedAt(run, i, null, null)) && run[i] in run;
      }
      forall i: nat | i < |back| ensures LinkedAt(back, i, last, null) {
        assert old(LinkedAt(back, i, prev, null)) && back[i] in back;
      }
    }

    /** The second half: the start of the run and what precedes it. */
    method LinkPrev(prev: Page?, first: Page, ghost front: seq<Page>, ghost run: seq<Page>, ghost back: seq<Page>,
                    ghost next: Page?)
      requires Three(front, run, back) && first == run[0] && prev == LastOf(front, null)
      requires Links(front, null, next) && Links(run, null, next) && Links(back, LastOf(run, null), null)
      requires prev != null ==> this.first != null
      modifies this`first, run, front
      ensures Links(front, null, first) && Links(run, prev, next) && Links(back, LastOf(run, null), null)
      ensures this.first == if prev == null then first else old(this.first)
      ensures Unmoved(run) && Unmoved(front)
    {
      if prev == null || this.first == null {
        this.first := first;
      } else {
        first.prev := prev;
        prev.next := first;
      }
      forall i: nat | i < |run| ensures LinkedAt(run, i, prev, next) {
        assert old(LinkedAt(run, i, null, next)) && run[i] in run;
      }
      forall i: nat | i < |front| ensures LinkedAt(front, i, null, first) {
        assert old(LinkedAt(front, i, null, next)) && front[i] in front;
      }
      forall i: nat | i < |back| ensures LinkedAt(back, i, LastOf(run, null), null) {
        assert old(LinkedAt(back, i, LastOf(run, null), null)) && back[i] in back;
      }
    }

    /** pushBetween on the links alone. */
    method PushLinks(prev: Page?, next: Page?, first: Page, last: Page, ghost front: seq<Page>, ghost run: seq<Page>,
                     ghost back: seq<Page>)
      requires Three(front, run, back) && first == run[0] && last == run[|run| - 1]
      requires prev == LastOf(front, null) && next == FirstOf(back, null)
      requires Links(front, null, next) && Links(run, null, null) && Links(back, prev, null)
      requires this.first == FirstOf(front, next) && this.last == LastOf(back, prev)
      modifies this`first, this`last, front, run, back
      ensures Links(front + run + back, null, null)
      ensures this.first == FirstOf(front, first) && this.last == LastOf(back, last)
      ensures Unmoved(front) && Unmoved(run) && Unmoved(back)
    {
      LinkNext(next, last, front, run, back, prev);
      LinkPrev(prev, first, front, run, back, next);
      LinksConcat(front, run, null, next);
      LinksConcat(front + run, back, null, null);
    }

    /** The same, with what the pages hold. */
    method PushPages(prev: Page?, next: Page?, first: Page, last: Page, ghost front: seq<Page>, ghost run: seq<Page>,
                     ghost back: seq<Page>, ghost vf: seq<PageVal>, ghost vr: seq<PageVal>, ghost vb: seq<PageVal>)
      requires Three(front, run, back) && first == run[0] && last == run[|run| - 1]
      requires prev == LastOf(front, null) && next == FirstOf(back, null)
      requires Links(front, null, next) && Links(run, null, null) && Links(back, prev, null)
      requires this.first == FirstOf(front, next) && this.last == LastOf(back, prev)
      requires Carries(this, front, vf) && Carries(this, run, vr) && Carries(this, back, vb)
      modifies this`first, this`last, front, run, back
      ensures Links(front + run + back, null, null) && Carries(this, front + run + back, vf + vr + vb)
      ensures this.first == FirstOf(front, first) && this.last == LastOf(back, last)
    {
      PushLinks(prev, next, first, last, front, run, back);
      CarriesConcat(this, front, vf, run, vr);
      CarriesConcat(this, front + run, vf + vr, back, vb);
    }

    lemma SplitAt(k: nat, run: seq<Page>)
      requires Linked() && k <= |list| && Distinct(run) && run != [] && Apart(run, list)
      ensures Three(list[..k], run, list[k..]) && Distinct(list[..k] + run + list[k..])
      ensures Links(list[..k], null, FirstOf(list[k..], null)) && Links(list[k..], LastOf(list[..k], null), null)
      ensures |vals| == |list| && Carries(this, list[..k], vals[..k]) && Carries(this, list[k..], vals[k..])
      ensures first == FirstOf(list[..k], FirstOf(list[k..], null)) && last == LastOf(list[k..], LastOf(list[..k], null))
    {
      LinksSplit(list, k, null, null);
      DistinctSplit(list, run, k);
      DistinctSpliced(list, run, k);
      CarriesSplit(this, list, vals, k);
    }

    /** pushBetween, up to the ghost list. */
    method PushInto(prev: Page?, next: Page?, first: Page, last: Page, ghost k: nat, ghost run: seq<Page>,
                    ghost runVals: seq<PageVal>)
      requires Linked() && Chain(run) && Carries(this, run, runVals) && Apart(run, list)
      requires k <= |list| && prev == LastOf(list[..k], null) && next == FirstOf(list[k..], null)
      requires run != [] && first == run[0] && last == run[|run| - 1]
      modifies this`first, this`last, list, run
      ensures k <= |vals| && Chain(list[..k] + run + list[k..])
      ensures Carries(this, list[..k] + run + list[k..], vals[..k] + runVals + vals[k..])
      ensures this.first == FirstOf(list[..k], first) && this.last == LastOf(list[k..], last)
    {
      SplitAt(k, run);
      PushPages(prev, next, first, last, list[..k], run, list[k..], vals[..k], runVals, vals[k..]);
    }

    /** The pages of `run` go in between, before the page that was number k. */
    method PushBetween(prev: Page?, next: Page?, first: Page, last: Page, ghost k: nat, ghost run: seq<Page>,
                       ghost runVals: seq<PageVal>)
      requires Linked() && Chain(run) && Carries(this, run, runVals) && Apart(run, list)
      requires k <= |list| && prev == LastOf(list[..k], null) && next == FirstOf(list[k..], null)
      requires run != [] && first == run[0] && last == run[|run| - 1]
      modifies this`first, this`last, this`list, this`vals, list, run
      ensures Linked()
      ensures list == old(list[..k] + run + list[k..]) && vals == old(vals[..k] + runVals + vals[k..])
    {
      PushInto(prev, next, first, last, k, run, runVals);
      list := list[..k] + run + list[k..];
      vals := vals[..k] + runVals + vals[k..];
    }

    /** The run goes where its number belongs. */
    method Splice(seqno: SeqNo, first: Page, last: Page, ghost run: seq<Page>, ghost runVals: seq<PageVal>)
      requires Linked() && Chain(run) && Carries(this, run, runVals) && Apart(run, list)
      requires run != [] && first == run[0] && last == run[|run| - 1]
      modifies this`first, this`last, this`list, this`vals, Elements(list) + Elements(run)
      ensures Linked() && vals == Spliced(old(vals), runVals, seqno)
      ensures Elements(list) == old(Elements(list)) + Elements(run) && |list| == |old(list)| + |run|
    {
      var prev, current, k := TraverseConn(seqno);
      assert list == list[..k] + list[k..];
      PushBetween(prev, current, first, last, k, run, runVals);
    }

    /** Linked, but for what the first page holds: it may be in the cache already. */
    ghost predicate Unlinkable()
      reads this, list
    {
      && list != [] && |list| == |vals| && Chain(list) && Carries(this, list[1..], vals[1..])
      && first == list[0] && last == list[|list| - 1]
    }

    /** The first page leaves the list. */
    method Unlink()
      requires Unlinkable()
      modifies this`first, this`last, this`pages, this`list, this`vals, Elements(list)`prev
      ensures Linked() && list == old(list)[1..] && vals == old(vals)[1..] && pages == old(pages) - 1
    {
      LinksSplit(list, 1, null, null);
      if first == last {
        first := null;
        last := null;
      } else {
        assert LinkedAt(list, 0, null, null);
        first := first.next;
        first.prev := null;
      }
      pages := pages - 1;
      list, vals := list[1..], vals[1..];
      forall i: nat | i < |list| ensures LinkedAt(list, i, null, null) {
        assert old(LinkedAt(list[1..], i, list[0], null));
      }
    }
  }

  /** Three lists with no page in common, the middle one not empty. */
  ghost predicate Three(front: seq<Page>, run: seq<Page>, back: seq<Page>) {
    && Distinct(front) && Distinct(run) && Distinct(back) && run != []
    && Apart(run, front) && Apart(run, back) && Apart(front, back)
  }

  /** Only links may have changed. */
  twostate predicate Unmoved(list: seq<Page>)
    reads list
  {
    forall i: nat :: i < |list| ==> Same(list[i])
  }

  lemma CarriesSplit(conn: Connection, list: seq<Page>, vals: seq<PageVal>, k: nat)
    requires Carries(conn, list, vals) && k <= |list|
    ensures Carries(conn, list[..k], vals[..k]) && Carries(conn, list[k..], vals[k..])
  {
  }

  lemma CarriesConcat(conn: Connection, a: seq<Page>, va: seq<PageVal>, b: seq<Page>, vb: seq<PageVal>)
    requires Carries(conn, a, va) && Carries(conn, b, vb)
    ensures Carries(conn, a + b, va + vb)
  {
  }

  /** Only the links of a page may have changed. */
  twostate predicate Same(p: Page)
    reads p
  {
    && p.seqno == old(p.seqno) && p.bytes == old(p.bytes) && p.skip == old(p.skip) && p.end == old(p.end)
    && p.seen == old(p.seen) && p.owner == old(p.owner)
  }

  /** A connection is open under its own key. */
  ghost predicate Keyed(conns: map<int, Connection>)
    reads conns.Values
  {
    && (forall k <- conns :: conns[k] in conns.Values && conns[k].key == k)
    && (forall c <- conns.Values :: c.key in conns && conns[c.key] == c)
  }

  /** The connection objects in reserve are not open and hold no pages. */
  ghost predicate Reserve(free: seq<Connection>, open: set<Connection>)
    reads free
  {
    && (forall i: nat, j: nat :: i < j < |free| ==> free[i] != free[j])
    && (forall i: nat :: i < |free| ==> free[i].list == [] && free[i].vals == [] && free[i] !in open)
  }

  /** The open connections by key, and the connection objects to use again. */
  class StreamPool {
    var conns: map<int, Connection>
    var free: seq<Connection>
    var nextAlloc: nat

    constructor (initialAllocSize: nat)
      requires initialAllocSize > 0
      ensures conns == map[] && free == [] && nextAlloc > 0
    {
      conns, free, nextAlloc := map[], [], initialAllocSize;
    }

    method Grow(ghost open: set<Connection>)
      requires Reserve(free, open) && nextAlloc > 0
      modifies this`free, this`nextAlloc
      ensures Reserve(free, open) && |free| > 0 && nextAlloc > 0
      ensures old(free) <= free && fresh(Elements(free) - old(Elements(free)))
    {
      var all := free;
      for i := 0 to nextAlloc
        invariant Reserve(all, open) && free == old(free) <= all && |all| == |free| + i
        invariant fresh(Elements(all) - Elements(free)) && nextAlloc == old(nextAlloc)
      {
        var conn := new Connection();
        all := all + [conn];
      }
      free := all;
      nextAlloc := nextAlloc * 2;
    }

    /** A connection object is used again for a new stream.  Its lastSeen is not reset. */
    method NewConnection(key: int, ghost open: set<Connection>) returns (c: Connection)
      requires Reserve(free, open) && nextAlloc > 0
      modifies this`free, this`nextAlloc, Elements(free)
      ensures Reserve(free, open) && Reserve(free, open + {c}) && c !in open && nextAlloc > 0
      ensures c in old(free) || fresh(c)
      ensures c.key == key && c.Linked() && c.list == [] && c.pages == 0 && c.View() == NewConn(c.lastSeen)
    {
      if |free| == 0 { Grow(open); }
      var index := |free| - 1;
      c, free := free[index], free[..index];
      c.Reset(key);
    }

    method Remove(conn: Connection)
      modifies this`conns, this`free
      ensures conns == old(conns) - {conn.key} && free == old(free) + [conn]
    {
      conns := conns - {conn.key};
      free := free + [conn];
    }
  }
}
