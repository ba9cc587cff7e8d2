/** Which streams the reassembler completes.  Numbers are reduced modulo the size of the
    space, so that a stream of any length can be cut into segments. */
module ReassemblyRollOver {
  import opened Bytes
  import opened Sequence
  import opened Reassembly
  import opened ReassemblySafety
  import opened ReassemblyCompleteness

  /** A segment that carries `len` bytes of the stream from position `at` on. */
  datatype Slice = Slice(at: nat, len: nat, seen: int, stale: seq<Flags>, used: nat)

  predicate SliceOk(G: Stream, s: Slice) {
    s.at + s.len <= |G| && |s.stale| == PageCount(s.len)
  }

  predicate SlicesOk(G: Stream, ss: seq<Slice>) {
    forall s <- ss :: SliceOk(G, s)
  }

  function SegmentOf(G: Stream, base: int, s: Slice): Segment
    requires SliceOk(G, s)
  {
    Segment(Add(base, s.at), G[s.at..s.at + s.len], false, false, false)
  }

  function EventOf(G: Stream, base: int, s: Slice): (e: Event)
    requires SliceOk(G, s)
    ensures EventOk(e)
  {
    Packet(SegmentOf(G, base, s), s.seen, s.stale, s.used)
  }

  /** The SYN takes the number before the first byte's, which for 0 is 0xFFFFFFFF. */
  function SynOf(base: SeqNo): Segment {
    Segment(Add(base, UINT32_MAX), [], true, false, false)
  }

  function Opened(base: SeqNo, ls: int, seen: int, f: Flags, used: nat): Conn {
    Receive(UNLIMITED, NewConn(ls), SynOf(base), seen, [f], used)
  }

  /** The connection after the slices, one by one. */
  function Fed(G: Stream, base: int, c: Conn, ss: seq<Slice>): Conn
    requires SlicesOk(G, ss)
  {
    if ss == [] then c
    else Handle(UNLIMITED, Fed(G, base, c, ss[..|ss| - 1]), EventOf(G, base, ss[|ss| - 1]))
  }

  // ---- what is asked of the reassembler ----

  ghost predicate HasByte(ss: seq<Slice>, i: nat) {
    exists s <- ss :: s.at <= i < s.at + s.len
  }

  /** The slices have the first n bytes, and not the next. */
  ghost predicate HasPrefix(ss: seq<Slice>, n: nat) {
    (forall i: nat :: i < n ==> HasByte(ss, i)) && !HasByte(ss, n)
  }

  ghost predicate DeliversPrefix(G: Stream, ss: seq<Slice>, out: seq<Chunk>) {
    exists n: nat :: n <= |G| && HasPrefix(ss, n) && Concat(out) == G[..n]
  }

  /** After an empty SYN, any slices in any order deliver the longest prefix they have. */
  ghost predicate AlwaysComplete(G: Stream, base: SeqNo) {
    forall ls: int, seen: int, f: Flags, used: nat, ss: seq<Slice> :: SlicesOk(G, ss) ==>
      DeliversPrefix(G, ss, Fed(G, base, Opened(base, ls, seen, f, used), ss).out)
  }

  // ---- it does so for streams whose numbers are clear of the corrections ----

  function Events(G: Stream, base: int, ss: seq<Slice>): (es: seq<Event>)
    requires SlicesOk(G, ss)
    ensures |es| == |ss|
    ensures forall i: nat :: i < |ss| ==> es[i] == EventOf(G, base, ss[i])
    ensures forall e <- es :: e.Packet? && EventOk(e)
  {
    if ss == [] then [] else Events(G, base, ss[..|ss| - 1]) + [EventOf(G, base, ss[|ss| - 1])]
  }

  lemma {:induction false} FedRuns(G: Stream, base: int, c: Conn, ss: seq<Slice>)
    requires SlicesOk(G, ss)
    ensures Fed(G, base, c, ss) == Run(UNLIMITED, c, Events(G, base, ss))
  {
    if ss != [] {
      FedRuns(G, base, c, ss[..|ss| - 1]);
      assert Events(G, base, ss)[..|ss| - 1] == Events(G, base, ss[..|ss| - 1]);
    }
  }

  lemma SliceArrives(G: Stream, base: int, s: Slice)
    requires Range(G, base) && SliceOk(G, s)
    ensures Arrival(G, base, EventOf(G, base, s)) && SegmentOf(G, base, s).seqno == base + s.at
  {
    AddSmall(base, s.at);
  }

  lemma SliceCovers(G: Stream, base: int, s: Slice, i: nat)
    requires Range(G, base) && SliceOk(G, s)
    ensures Covers(SegmentOf(G, base, s), base + i) <==> s.at <= i < s.at + s.len
  {
    AddSmall(base, s.at);
  }

  lemma ByteIsCovered(G: Stream, base: int, ss: seq<Slice>, i: nat)
    requires Range(G, base) && SlicesOk(G, ss)
    ensures Covered(Segments(Events(G, base, ss)), base + i) <==> HasByte(ss, i)
  {
    var gs := Segments(Events(G, base, ss));
    if HasByte(ss, i) {
      var k: nat :| k < |ss| && ss[k].at <= i < ss[k].at + ss[k].len;
      SliceCovers(G, base, ss[k], i);
      assert gs[k] == SegmentOf(G, base, ss[k]);
    }
    if Covered(gs, base + i) {
      var k: nat :| k < |gs| && Covers(gs[k], base + i);
      SliceCovers(G, base, ss[k], i);
    }
  }

  lemma EventsArrive(G: Stream, base: int, ss: seq<Slice>)
    requires Range(G, base) && SlicesOk(G, ss)
    ensures forall e <- Events(G, base, ss) :: Arrival(G, base, e)
  {
    var es := Events(G, base, ss);
    forall e | e in es ensures Arrival(G, base, e) {
      var k: nat :| k < |es| && es[k] == e;
      SliceArrives(G, base, ss[k]);
    }
  }

  /** From any connection at rest that waits for the first byte and holds none. */
  lemma RestingHolds(G: Stream, base: int, c: Conn, ss: seq<Slice>)
    requires Resting(G, base, 0, ANYWHERE, c) && SlicesOk(G, ss) && forall q :: q >= base ==> !Held(c, q)
    ensures Resting(G, base, 0, ANYWHERE, Fed(G, base, c, ss))
    ensures forall i: nat :: Held(Fed(G, base, c, ss), base + i) <==> HasByte(ss, i)
  {
    EventsArrive(G, base, ss);
    FedRuns(G, base, c, ss);
    RunFit(G, base, 0, ANYWHERE, c, Events(G, base, ss));
    forall i: nat ensures Held(Fed(G, base, c, ss), base + i) <==> HasByte(ss, i) {
      ByteIsCovered(G, base, ss, i);
    }
  }

  lemma RestingCompletes(G: Stream, base: int, c: Conn, ss: seq<Slice>)
    requires Resting(G, base, 0, ANYWHERE, c) && SlicesOk(G, ss) && forall q :: q >= base ==> !Held(c, q)
    ensures DeliversPrefix(G, ss, Fed(G, base, c, ss).out)
  {
    RestingHolds(G, base, c, ss);
    var c' := Fed(G, base, c, ss);
    NextIsNotHeld(G, base, 0, ANYWHERE, c');
    assert HasPrefix(ss, c'.nextSeq - base);
  }

  lemma ClearCompletes(G: Stream, base: SeqNo, ls: int, seen: int, f: Flags, used: nat, ss: seq<Slice>)
    requires Clear(G, base) && base >= 1 && SlicesOk(G, ss)
    ensures DeliversPrefix(G, ss, Fed(G, base, Opened(base, ls, seen, f, used), ss).out)
  {
    EmptySynResting(G, base, ls, SynOf(base), seen, [f], used, ANYWHERE);
    RestingCompletes(G, base, Opened(base, ls, seen, f, used), ss);
  }

  // ---- a SYN numbered 0xFFFFFFFF ----

  /** The page of such a SYN is due, since its number and 0 are taken for the same, and puts
      nextSeq back to 0xFFFFFFFF. */
  lemma LastSyn(ls: int, seen: int, f: Flags, used: nat)
    ensures Opened(0, ls, seen, f, used) ==
            Conn(UINT32_MAX, [], if ls < seen then seen else ls, false,
                 [FirstChunk(SynOf(0), seen), Chunk([], f.skip, false, false, seen)])
  {
    var g := SynOf(0);
    var w := FirstWork(ls, g, seen);
    var p := PageVal(UINT32_MAX, [], f.skip, false, seen);
    assert w.conn.nextSeq == 0 && g.seqno == UINT32_MAX;
    assert Insert(UNLIMITED, w, g, seen, [f], used) == w.(conn := w.conn.(pages := [p]));
    var w' := w.(conn := w.conn.(pages := [p]));
    assert Contiguous(w'.conn) && w'.conn.pages[1..] == [];
    assert AddContiguous(w') == PopFirst(w');
    assert w.conn.out + PopFirst(w').ret == PopFirst(w').ret;
  }

  /** The same connection with nextSeq 0. */
  predicate Twin(c: Conn, c0: Conn) {
    c0.nextSeq == 0 && c == c0.(nextSeq := UINT32_MAX)
  }

  /** In the first quarter every number compares with 0xFFFFFFFF as with 0. */
  lemma TwinReceives(c: Conn, c0: Conn, g: Segment, seen: int, stale: seq<Flags>, used: nat)
    requires Twin(c, c0) && g.seqno < QUARTER && !g.End() && |stale| == PageCount(|g.payload|)
    ensures var c', c0' := Receive(UNLIMITED, c, g, seen, stale, used), Receive(UNLIMITED, c0, g, seen, stale, used);
            c' == c0' || Twin(c', c0')
  {
  }

  lemma TwinHandles(G: Stream, c: Conn, c0: Conn, s: Slice)
    requires c == c0 || Twin(c, c0)
    requires |G| <= QUARTER && SliceOk(G, s)
    ensures var c', c0' := Handle(UNLIMITED, c, EventOf(G, 0, s)), Handle(UNLIMITED, c0, EventOf(G, 0, s));
            c' == c0' || Twin(c', c0')
  {
    AddSmall(0, s.at);
    if s.len > 0 && c != c0 { TwinReceives(c, c0, SegmentOf(G, 0, s), s.seen, s.stale, s.used); }
  }

  lemma {:induction false} TwinFed(G: Stream, c: Conn, c0: Conn, ss: seq<Slice>)
    requires Twin(c, c0) && |G| <= QUARTER && SlicesOk(G, ss)
    ensures Fed(G, 0, c, ss) == Fed(G, 0, c0, ss) || Twin(Fed(G, 0, c, ss), Fed(G, 0, c0, ss))
  {
    if ss != [] {
      var ss0, s := ss[..|ss| - 1], ss[|ss| - 1];
      TwinFed(G, c, c0, ss0);
      TwinHandles(G, Fed(G, 0, c, ss0), Fed(G, 0, c0, ss0), s);
    }
  }

  lemma TwinResting(G: Stream, ls: int, seen: int, f: Flags, used: nat) returns (c0: Conn)
    requires |G| <= QUARTER
    ensures Twin(Opened(0, ls, seen, f, used), c0) && Resting(G, 0, 0, ANYWHERE, c0)
    ensures forall q :: q >= 0 ==> !Held(c0, q)
  {
    LastSyn(ls, seen, f, used);
    c0 := Opened(0, ls, seen, f, used).(nextSeq := 0);
    BlankTold(G, 0, ANYWHERE, FirstChunk(SynOf(0), seen), Chunk([], f.skip, false, false, seen));
  }

  lemma FirstQuarterCompletes(G: Stream, ls: int, seen: int, f: Flags, used: nat, ss: seq<Slice>)
    requires |G| <= QUARTER && SlicesOk(G, ss)
    ensures DeliversPrefix(G, ss, Fed(G, 0, Opened(0, ls, seen, f, used), ss).out)
  {
    var c0 := TwinResting(G, ls, seen, f, used);
    TwinFed(G, Opened(0, ls, seen, f, used), c0, ss);
    RestingCompletes(G, 0, c0, ss);
  }

  // ---- and for no others ----

  /** Open, with nothing buffered and no gap announced. */
  ghost predicate Stands(c: Conn, next: int, bytes: seq<Byte>) {
    && c.pages == [] && !c.closed && 0 <= c.nextSeq == next && Concat(c.out) == bytes
    && forall ch <- c.out :: ch.skip == 0
  }

  lemma OpenedStands(base: int)
    requires 1 <= base <= UINT32_MAX
    ensures Stands(Opened(base, 0, 0, Flags(0, false), 0), base, [])
  {
    EmptySyn(base, 0, SynOf(base), 0, [Flags(0, false)], 0);
    var out, none: seq<Chunk> := Opened(base, 0, 0, Flags(0, false), 0).out, [];
    ConcatSnoc(none, out[0]);
    ConcatSnoc(none + [out[0]], out[1]);
    assert out == none + [out[0]] + [out[1]];
  }

  lemma LastSynStands()
    ensures Stands(Opened(0, 0, 0, Flags(0, false), 0), UINT32_MAX, [])
  {
    LastSyn(0, 0, Flags(0, false), 0);
    var out, none: seq<Chunk> := Opened(0, 0, 0, Flags(0, false), 0).out, [];
    ConcatSnoc(none, out[0]);
    ConcatSnoc(none + [out[0]], out[1]);
    assert out == none + [out[0]] + [out[1]];
  }

  function Advanced(c: Conn, next: NextSeq, more: seq<Byte>, seen: int): Conn {
    c.(nextSeq := next, lastSeen := if c.lastSeen < seen then seen else c.lastSeen,
       out := c.out + [Chunk(more, 0, false, false, seen)])
  }

  /** A segment taken for one that is not ahead. */
  lemma TakenAsNext(c: Conn, g: Segment, seen: int, stale: seq<Flags>, used: nat, more: seq<Byte>, next: SeqNo)
    requires c.pages == [] && !c.closed && c.nextSeq != INVALID_SEQUENCE && |stale| == PageCount(|g.payload|)
    requires !g.End() && Difference(c.nextSeq, g.seqno) <= 0 && ByteSpan(c.nextSeq, g.seqno, g.payload) == (more, next)
    ensures Receive(UNLIMITED, c, g, seen, stale, used) == Advanced(c, next, more, seen)
  {
  }

  lemma AdvancedStands(c: Conn, next: int, bytes: seq<Byte>, more: seq<Byte>, next': SeqNo, seen: int)
    requires Stands(c, next, bytes)
    ensures Stands(Advanced(c, next', more, seen), next', bytes + more)
  {
    ConcatSnoc(c.out, Chunk(more, 0, false, false, seen));
  }

  function Plain(at: nat, len: nat): Slice {
    Slice(at, len, 0, seq(PageCount(len), _ => Flags(0, false)), 0)
  }

  /** The life of a connection with clean pages: an empty SYN, then the slices. */
  function Life(G: Stream, base: SeqNo, ss: seq<Slice>): Conn
    requires SlicesOk(G, ss)
  {
    Fed(G, base, Opened(base, 0, 0, Flags(0, false), 0), ss)
  }

  lemma LifeSnoc(G: Stream, base: SeqNo, ss: seq<Slice>, s: Slice)
    requires SlicesOk(G, ss) && SliceOk(G, s)
    ensures SlicesOk(G, ss + [s])
    ensures Life(G, base, ss + [s]) == Handle(UNLIMITED, Life(G, base, ss), EventOf(G, base, s))
  {
    assert (ss + [s])[..|ss|] == ss;
  }

  lemma SliceTaken(G: Stream, base: int, c: Conn, at: nat, len: nat, next: int, bytes: seq<Byte>, more: seq<Byte>,
                   next': SeqNo)
    requires at + len <= |G| && len > 0 && Stands(c, next, bytes) && Difference(next, Add(base, at)) <= 0
    requires ByteSpan(next, Add(base, at), G[at..at + len]) == (more, next')
    ensures Stands(Handle(UNLIMITED, c, EventOf(G, base, Plain(at, len))), next', bytes + more)
  {
    var s := Plain(at, len);
    var g := SegmentOf(G, base, s);
    assert g.payload != [];
    TakenAsNext(c, g, s.seen, s.stale, s.used, more, next');
    AdvancedStands(c, next, bytes, more, next', s.seen);
  }

  lemma FeedNext(G: Stream, base: SeqNo, ss: seq<Slice>, at: nat, len: nat, next: int, bytes: seq<Byte>,
                 more: seq<Byte>, next': SeqNo)
    requires SlicesOk(G, ss) && at + len <= |G| && len > 0
    requires Stands(Life(G, base, ss), next, bytes) && Difference(next, Add(base, at)) <= 0
    requires ByteSpan(next, Add(base, at), G[at..at + len]) == (more, next')
    ensures SlicesOk(G, ss + [Plain(at, len)]) && Stands(Life(G, base, ss + [Plain(at, len)]), next', bytes + more)
  {
    SliceTaken(G, base, Life(G, base, ss), at, len, next, bytes, more, next');
    LifeSnoc(G, base, ss, Plain(at, len));
  }

  lemma NothingFed(G: Stream, base: SeqNo, ss: seq<Slice>)
    requires SlicesOk(G, ss)
    ensures SlicesOk(G, ss + [Plain(0, 0)]) && Life(G, base, ss + [Plain(0, 0)]) == Life(G, base, ss)
  {
    LifeSnoc(G, base, ss, Plain(0, 0));
  }

  /** The first bytes of the stream, in one segment, when the first byte is next. */
  lemma FeedFirst(G: Stream, base: SeqNo, ss: seq<Slice>, len: nat)
    requires SlicesOk(G, ss) && len <= |G| && Stands(Life(G, base, ss), base, [])
    ensures SlicesOk(G, ss + [Plain(0, len)]) && Stands(Life(G, base, ss + [Plain(0, len)]), Add(base, len), G[..len])
  {
    AddSmall(base, 0);
    if len == 0 {
      NothingFed(G, base, ss);
    } else {
      assert G[0..0 + len] == G[..len] && [] + G[..len] == G[..len];
      FeedNext(G, base, ss, 0, len, base, [], G[..len], Add(base, len));
    }
  }

  lemma NoPrefix(G: Stream, ss: seq<Slice>, c: Conn, next: int, bytes: seq<Byte>)
    requires Stands(c, next, bytes) && (|bytes| > |G| || !HasPrefix(ss, |bytes|))
    ensures !DeliversPrefix(G, ss, c.out)
  {
  }

  /** A segment of one byte. */
  lemma FeedByte(G: Stream, base: SeqNo, ss: seq<Slice>, at: nat, next: int, bytes: seq<Byte>, more: seq<Byte>, next': SeqNo)
    requires SlicesOk(G, ss) && at < |G| && Stands(Life(G, base, ss), next, bytes)
    requires Difference(next, Add(base, at)) <= 0 && ByteSpan(next, Add(base, at), [G[at]]) == (more, next')
    ensures SlicesOk(G, ss + [Plain(at, 1)]) && Stands(Life(G, base, ss + [Plain(at, 1)]), next', bytes + more)
  {
    assert G[at..at + 1] == [G[at]];
    FeedNext(G, base, ss, at, 1, next, bytes, more, next');
  }

  /** The last number and 0 are taken for the same. */
  lemma AcrossTheEdge(a: Byte)
    ensures Difference(UINT32_MAX, 0) == 0 && ByteSpan(UINT32_MAX, 0, [a]) == ([a], 1)
    ensures Difference(1, UINT32_MAX) == -1 && ByteSpan(1, UINT32_MAX, [a]) == ([], 1)
    ensures Difference(0, UINT32_MAX) == 0 && ByteSpan(0, UINT32_MAX, [a]) == ([a], 0)
  {
    assert [a][1..] == [];
  }

  lemma NumbersAtTheEdge(base: int, i: nat)
    requires base + i == UINT32_MAX && 1 <= base
    ensures Add(base, i) == UINT32_MAX && Add(base, i + 1) == 0
  {
    AddSmall(base, i);
  }

  /** The number after the last byte rolls over: the last byte, repeated, is delivered twice. */
  lemma LastByteTwice(G: Stream, base: int) returns (ss: seq<Slice>)
    requires 1 <= base <= UINT32_MAX && base + |G| == UINT32_SIZE
    ensures SlicesOk(G, ss) && Stands(Life(G, base, ss), 0, G + [G[|G| - 1]])
    ensures !DeliversPrefix(G, ss, Life(G, base, ss).out)
  {
    var n := |G| - 1;
    OpenedStands(base);
    FeedFirst(G, base, [], |G|);
    NumbersAtTheEdge(base, n);
    assert G[..|G|] == G;
    AcrossTheEdge(G[n]);
    FeedByte(G, base, [] + [Plain(0, |G|)], n, 0, G, [G[n]], 0);
    ss := [] + [Plain(0, |G|)] + [Plain(n, 1)];
    NoPrefix(G, ss, Life(G, base, ss), 0, G + [G[n]]);
  }

  lemma ThreeFed(G: Stream, base: int, i: nat)
    requires 1 <= base && base + i == UINT32_MAX && i + 1 < |G|
    ensures var ss := [] + [Plain(0, i)] + [Plain(i + 1, 1)] + [Plain(i, 1)];
            SlicesOk(G, ss) && Stands(Life(G, base, ss), 1, G[..i] + [G[i + 1]] + [])
  {
    OpenedStands(base);
    FeedFirst(G, base, [], i);
    NumbersAtTheEdge(base, i);
    AcrossTheEdge(G[i]);
    AcrossTheEdge(G[i + 1]);
    FeedByte(G, base, [] + [Plain(0, i)], i + 1, UINT32_MAX, G[..i], [G[i + 1]], 1);
    FeedByte(G, base, [] + [Plain(0, i)] + [Plain(i + 1, 1)], i, 1, G[..i] + [G[i + 1]], [], 1);
  }

  /** The byte numbered 0 is taken for the one numbered 0xFFFFFFFF, which is dropped when it
      comes: one byte is lost, with no gap announced. */
  lemma RollOverLosesAByte(G: Stream, base: int) returns (ss: seq<Slice>)
    requires 1 <= base <= UINT32_MAX && base + |G| > UINT32_SIZE
    ensures var i := UINT32_MAX - base;
            && SlicesOk(G, ss) && i + 1 < |G| && Stands(Life(G, base, ss), 1, G[..i] + [G[i + 1]])
            && HasPrefix(ss, i + 2)
    ensures !DeliversPrefix(G, ss, Life(G, base, ss).out)
  {
    var i := UINT32_MAX - base;
    ThreeFed(G, base, i);
    ss := [] + [Plain(0, i)] + [Plain(i + 1, 1)] + [Plain(i, 1)];
    assert G[..i] + [G[i + 1]] + [] == G[..i] + [G[i + 1]];
    ThreeHave(ss, i);
    NoPrefix(G, ss, Life(G, base, ss), 1, G[..i] + [G[i + 1]]);
  }

  lemma ThreeHave(ss: seq<Slice>, i: nat)
    requires ss == [] + [Plain(0, i)] + [Plain(i + 1, 1)] + [Plain(i, 1)]
    ensures HasPrefix(ss, i + 2) && !HasPrefix(ss, i + 1)
  {
    assert ss[0] in ss && ss[1] in ss && ss[2] in ss;
    forall j: nat ensures HasByte(ss, j) <==> j < i + 2 {
    }
  }

  /** The number QUARTER is compared with 0xFFFFFFFF, and 0 is taken for the same. */
  lemma QuarterSpans(a: Byte, first: seq<Byte>)
    requires |first| == QUARTER
    ensures Add(0, QUARTER) == QUARTER && Add(0, 0) == 0
    ensures Difference(UINT32_MAX, QUARTER) <= 0 && ByteSpan(UINT32_MAX, QUARTER, [a]) == ([], UINT32_MAX)
    ensures Difference(UINT32_MAX, 0) == 0 && ByteSpan(UINT32_MAX, 0, first) == (first, QUARTER)
  {
  }

  lemma QuarterOpened(G: Stream)
    requires |G| > QUARTER
    ensures SlicesOk(G, [] + [Plain(QUARTER, 1)]) && Stands(Life(G, 0, [] + [Plain(QUARTER, 1)]), UINT32_MAX, [] + [])
  {
    LastSynStands();
    QuarterSpans(G[QUARTER], G[0..0 + QUARTER]);
    FeedByte(G, 0, [], QUARTER, UINT32_MAX, [], [], UINT32_MAX);
  }

  lemma QuarterFed(G: Stream)
    requires |G| > QUARTER
    ensures var ss := [] + [Plain(QUARTER, 1)] + [Plain(0, QUARTER)];
            SlicesOk(G, ss) && Stands(Life(G, 0, ss), QUARTER, [] + [] + G[0..0 + QUARTER])
  {
    QuarterOpened(G);
    QuarterSpans(G[QUARTER], G[0..0 + QUARTER]);
    FeedNext(G, 0, [] + [Plain(QUARTER, 1)], 0, QUARTER, UINT32_MAX, [] + [], G[0..0 + QUARTER], QUARTER);
  }

  /** After a SYN numbered 0xFFFFFFFF, a byte beyond the first quarter is taken for old while
      the first byte is next. */
  lemma SynAtTheEndDropsAByte(G: Stream) returns (ss: seq<Slice>)
    requires |G| > QUARTER
    ensures SlicesOk(G, ss) && Stands(Life(G, 0, ss), QUARTER, G[..QUARTER]) && HasPrefix(ss, QUARTER + 1)
    ensures !DeliversPrefix(G, ss, Life(G, 0, ss).out)
  {
    QuarterFed(G);
    assert [] + [] + G[0..0 + QUARTER] == G[..QUARTER];
    ss := [] + [Plain(QUARTER, 1)] + [Plain(0, QUARTER)];
    AllHave(ss, QUARTER);
    NoPrefix(G, ss, Life(G, 0, ss), QUARTER, G[..QUARTER]);
  }

  /** With bytes in both outer quarters, one in the last is taken for old while the first byte
      is next. */
  lemma FarByteDropped(G: Stream, base: int) returns (ss: seq<Slice>)
    requires Range(G, base) && 1 <= base < QUARTER && base + |G| - 1 > UINT32_MAX - QUARTER
    ensures SlicesOk(G, ss) && Stands(Life(G, base, ss), base + |G| - 1, G[..|G| - 1]) && HasPrefix(ss, |G|)
    ensures !DeliversPrefix(G, ss, Life(G, base, ss).out)
  {
    var n := |G| - 1;
    OpenedStands(base);
    AddSmall(base, n);
    FeedByte(G, base, [], n, base, [], [], base);
    FeedFirst(G, base, [] + [Plain(n, 1)], n);
    ss := [] + [Plain(n, 1)] + [Plain(0, n)];
    AllHave(ss, n);
    NoPrefix(G, ss, Life(G, base, ss), base + n, G[..n]);
  }

  lemma AllHave(ss: seq<Slice>, n: nat)
    requires ss == [] + [Plain(n, 1)] + [Plain(0, n)]
    ensures HasPrefix(ss, n + 1) && !HasPrefix(ss, n)
  {
    assert ss[0] in ss && ss[1] in ss;
    forall j: nat ensures HasByte(ss, j) <==> j < n + 1 {
    }
  }

  /** The streams that the reassembler delivers whole, by the number of their first byte.  With
      a SYN numbered 0xFFFFFFFF they end in the first quarter. */
  predicate Deliverable(G: Stream, base: SeqNo) {
    if base == 0 then |G| <= QUARTER else Clear(G, base)
  }

  lemma DeliverableCompletes(G: Stream, base: SeqNo)
    requires Deliverable(G, base)
    ensures AlwaysComplete(G, base)
  {
    forall ls: int, seen: int, f: Flags, used: nat, ss: seq<Slice> | SlicesOk(G, ss)
      ensures DeliversPrefix(G, ss, Fed(G, base, Opened(base, ls, seen, f, used), ss).out)
    {
      if base == 0 {
        FirstQuarterCompletes(G, ls, seen, f, used, ss);
      } else {
        ClearCompletes(G, base, ls, seen, f, used, ss);
      }
    }
  }

  /** The reassembler completes a stream, whatever the order, overlaps and repetitions,
      exactly if the stream ends in the first quarter or follows a SYN numbered lower, neither
      its bytes nor the number after them roll over, and the bytes do not lie in both outer
      quarters. */
  lemma CompleteExactly(G: Stream, base: SeqNo)
    ensures AlwaysComplete(G, base) <==> Deliverable(G, base)
  {
    if Deliverable(G, base) {
      DeliverableCompletes(G, base);
    } else if base == 0 {
      var ss := SynAtTheEndDropsAByte(G);
    } else if base + |G| == UINT32_SIZE {
      var ss := LastByteTwice(G, base);
    } else if base + |G| > UINT32_SIZE {
      var ss := RollOverLosesAByte(G, base);
    } else {
      var ss := FarByteDropped(G, base);
    }
  }
}
