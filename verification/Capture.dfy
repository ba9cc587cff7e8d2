/** From segments to messages: the reassembler's chunks fed to the framer. */
module Capture {
  import opened Sequence
  import opened Reassembly
  import opened ReassemblyCompleteness
  import opened Leftovers
  import Framer
  import FramerProofs

  /** No page brings a Skip from an earlier use. */
  predicate FreshArrival(e: Event) {
    e.Packet? && EventOk(e) && NoStaleSkips(e.stale)
  }

  /** Without limits and flushes nothing is forced, and no gap is announced. */
  lemma {:induction false} RunGapless(c: Conn, es: seq<Event>)
    requires GaplessConn(false, c) && c.nextSeq != INVALID_SEQUENCE && forall e <- es :: e.Packet? && EventOk(e)
    requires forall e <- es :: FreshArrival(e)
    ensures GaplessConn(false, Run(UNLIMITED, c, es)) && Run(UNLIMITED, c, es).nextSeq != INVALID_SEQUENCE
  {
    if es != [] {
      var e := es[|es| - 1];
      assert FreshArrival(e) && EventOk(e);
      RunGapless(c, es[..|es| - 1]);
      var c' := Run(UNLIMITED, c, es[..|es| - 1]);
      if !c'.closed && !e.g.Empty() { ReceiveGapless(false, UNLIMITED, c', e.g, e.seen, e.stale, e.used); }
    }
  }

  // ---- from one to the other ----

  /** What streamOps reads of what the reassembler hands over. */
  function Handed(cs: seq<Chunk>): (hs: seq<Framer.Chunk>)
    ensures |hs| == |cs|
  {
    seq(|cs|, i requires 0 <= i < |cs| => Framer.Chunk(cs[i].bytes, cs[i].skip, cs[i].seen))
  }

  lemma {:induction false} HandedBytes(cs: seq<Chunk>)
    ensures FramerProofs.Flatten(Handed(cs)) == Concat(cs)
  {
    if cs != [] {
      HandedBytes(cs[..|cs| - 1]);
      assert Handed(cs)[..|cs| - 1] == Handed(cs[..|cs| - 1]);
    }
  }

  // ---- where the chunks end ----

  /** The numbers that do not lie inside a header. */
  ghost function ClearOfHeaders(ms: seq<FramerProofs.Msg>, base: int): iset<int> {
    iset x: int | IsClear(ms, base, x)
  }

  predicate IsClear(ms: seq<FramerProofs.Msg>, base: int, x: int) {
    x >= base && FramerProofs.GoodCut(ms, x - base)
  }

  /** Neither the segment nor any of the pages it is cut into, if it is buffered, ends inside a
      header. */
  ghost predicate CutsClear(ms: seq<FramerProofs.Msg>, base: int, e: Event) {
    e.Packet? && (e.g.payload != [] ==> EndsIn(ClearOfHeaders(ms, base), e.g.seqno, |e.g.payload|))
  }

  lemma {:induction false} StopsAreCuts(ms: seq<FramerProofs.Msg>, base: int, out: seq<Chunk>)
    requires StopsIn(ClearOfHeaders(ms, base), base, out)
    ensures FramerProofs.CutsOk(ms, Handed(out))
  {
    if out != [] {
      var out0 := out[..|out| - 1];
      forall k: nat | k <= |out0| ensures StopAt(base, out0, k) in ClearOfHeaders(ms, base) {
        assert out0[..k] == out[..k];
        assert StopAt(base, out, k) in ClearOfHeaders(ms, base);
      }
      StopsAreCuts(ms, base, out0);
      assert Handed(out)[..|out| - 1] == Handed(out0);
      assert out[..|out|] == out;
      assert StopAt(base, out, |out|) in ClearOfHeaders(ms, base);
      HandedBytes(out);
    }
  }

  lemma OutGapless(base: int, ls: int, g: Segment, seen: int, stale: seq<Flags>, used: nat, es: seq<Event>)
    requires IsEmptySyn(base, g) && |stale| == 1 && NoStaleSkips(stale)
    requires forall e <- es :: e.Packet? && EventOk(e)
    requires forall e <- es :: FreshArrival(e)
    ensures FramerProofs.NoSkips(Handed(Run(UNLIMITED, Receive(UNLIMITED, NewConn(ls), g, seen, stale, used), es).out))
  {
    ReceiveGapless(false, UNLIMITED, NewConn(ls), g, seen, stale, used);
    RunGapless(Receive(UNLIMITED, NewConn(ls), g, seen, stale, used), es);
  }

  lemma ToldMessages(ms: seq<FramerProofs.Msg>, base: int, out: seq<Chunk>, n: nat)
    requires FramerProofs.AllMessages(ms) && FramerProofs.NoSkips(Handed(out))
    requires Told(FramerProofs.Flat(ms), base, 0, ClearOfHeaders(ms, base), out, base + n)
    ensures FramerProofs.Bodies(Framer.FeedAll(Framer.NEW_STREAM, Handed(out)).ops) == ms[..FramerProofs.Ended(ms, n)]
  {
    HandedBytes(out);
    StopsAreCuts(ms, base, out);
    FramerProofs.ChunksExact(Framer.NEW_STREAM, ms, Handed(out));
  }

  /** The segments of a stream of messages, after an empty SYN, in any order, overlapping and
      repeated: if neither a segment nor a page of one ends inside a header, the framer emits,
      whole and in order, exactly the messages within the longest prefix that the segments
      cover. */
  lemma CapturesMessages(ms: seq<FramerProofs.Msg>, base: int, ls: int, g: Segment, seen: int, stale: seq<Flags>, used: nat,
                         es: seq<Event>) returns (n: nat)
    requires FramerProofs.AllMessages(ms) && Clear(FramerProofs.Flat(ms), base)
    requires IsEmptySyn(base, g) && |stale| == 1 && NoStaleSkips(stale)
    requires forall e <- es :: e.Packet? && EventOk(e)
    requires forall e <- es :: FreshArrival(e)
    requires forall e <- es :: Arrival(FramerProofs.Flat(ms), base, e)
    requires forall e <- es :: CutsClear(ms, base, e)
    ensures n <= |FramerProofs.Flat(ms)| && LongestPrefix([g] + Segments(es), base, base + n)
    ensures var out := Run(UNLIMITED, Receive(UNLIMITED, NewConn(ls), g, seen, stale, used), es).out;
            FramerProofs.Bodies(Framer.FeedAll(Framer.NEW_STREAM, Handed(out)).ops) == ms[..FramerProofs.Ended(ms, n)]
  {
    var G, cuts := FramerProofs.Flat(ms), ClearOfHeaders(ms, base);
    forall e | e in es ensures Arrival(G, base, e) && CutsAt(cuts, e) {
      assert CutsClear(ms, base, e);
    }
    n := CompleteAfterSyn(G, base, ls, g, seen, stale, used, es, cuts);
    OutGapless(base, ls, g, seen, stale, used, es);
    ToldMessages(ms, base, Run(UNLIMITED, Receive(UNLIMITED, NewConn(ls), g, seen, stale, used), es).out, n);
  }

  /** When every byte has arrived: the messages come out exactly if no chunk handed over ends
      inside a header. */
  lemma CapturesExactly(ms: seq<FramerProofs.Msg>, base: int, ls: int, g: Segment, seen: int, stale: seq<Flags>, used: nat,
                        es: seq<Event>)
    requires FramerProofs.AllMessages(ms) && Clear(FramerProofs.Flat(ms), base)
    requires IsEmptySyn(base, g) && |stale| == 1 && NoStaleSkips(stale)
    requires forall e <- es :: e.Packet? && EventOk(e)
    requires forall e <- es :: FreshArrival(e)
    requires forall e <- es :: Arrival(FramerProofs.Flat(ms), base, e)
    requires forall q :: base <= q < base + |FramerProofs.Flat(ms)| ==> Covered(Segments(es), q)
    ensures var out := Run(UNLIMITED, Receive(UNLIMITED, NewConn(ls), g, seen, stale, used), es).out;
            FramerProofs.Bodies(Framer.FeedAll(Framer.NEW_STREAM, Handed(out)).ops) == ms <==>
            FramerProofs.CutsOk(ms, Handed(out))
  {
    var G := FramerProofs.Flat(ms);
    var n := Complete(G, base, ls, g, seen, stale, used, es);
    AllCovered(Segments(es), g, base, base + n, base + |G|);
    OutGapless(base, ls, g, seen, stale, used, es);
    var out := Run(UNLIMITED, Receive(UNLIMITED, NewConn(ls), g, seen, stale, used), es).out;
    HandedBytes(out);
    assert G[0..|G|] == G;
    FramerProofs.FramingExactly(Framer.NEW_STREAM, ms, Handed(out));
  }

  lemma CoveredStill(gs: seq<Segment>, g: Segment, q: int)
    requires Covered(gs, q)
    ensures Covered([g] + gs, q)
  {
    var s :| s in gs && Covers(s, q);
    assert s in [g] + gs;
  }

  lemma AllCovered(gs: seq<Segment>, g: Segment, start: int, end: int, all: int)
    requires LongestPrefix([g] + gs, start, end) && forall q :: start <= q < all ==> Covered(gs, q)
    ensures end >= all
  {
    if end < all { CoveredStill(gs, g, end); }
  }
}
