/** The framer after a gap, and in a stream that is picked up midway. */
module FramerGaps {
  import opened Message
  import opened Framer
  import opened FramerProofs

  lemma {:induction false} FeedTwice(f: Stream, cs: seq<Chunk>, ds: seq<Chunk>)
    requires Valid(f)
    ensures FeedAll(f, cs + ds) == Fed(FeedAll(FeedAll(f, cs).stream, ds).stream,
                                       FeedAll(f, cs).ops + FeedAll(FeedAll(f, cs).stream, ds).ops)
  {
    if ds == [] {
      assert cs + ds == cs;
      assert FeedAll(f, cs).ops + [] == FeedAll(f, cs).ops;
    } else {
      var ds0, d := ds[..|ds| - 1], ds[|ds| - 1];
      FeedTwice(f, cs, ds0);
      assert (cs + ds)[..|cs + ds| - 1] == cs + ds0 && (cs + ds)[|cs + ds| - 1] == d;
      var g := FeedAll(f, cs);
      Regroup(g.ops, FeedAll(g.stream, ds0).ops, FeedChunk(FeedAll(g.stream, ds0).stream, d).ops);
    }
  }

  /** The chunk follows on, and does not start with what looks like a header. */
  predicate Junk(c: Chunk) {
    c.skip == 0 && (|c.bytes| < MSG_HEADER_LEN || !FromWire(c.bytes).LooksReal())
  }

  lemma OneIsDropped(f: Stream, c: Chunk)
    requires f.state == OutOfSync && Junk(c)
    ensures FeedChunk(f, c).stream.state == OutOfSync && FeedChunk(f, c).ops == []
  {
    if c.bytes != [] {
      FeedOnce(f, c.bytes, c.seen);
      var g := HandleOut(f, c.bytes).stream;
      assert Feed(g, [], c.seen) == Fed(g, []);
    }
  }

  lemma {:induction false} JunkIsDropped(f: Stream, junk: seq<Chunk>)
    requires f.state == OutOfSync && forall c <- junk :: Junk(c)
    ensures FeedAll(f, junk).stream.state == OutOfSync && FeedAll(f, junk).ops == []
  {
    if junk != [] {
      JunkIsDropped(f, junk[..|junk| - 1]);
      OneIsDropped(FeedAll(f, junk[..|junk| - 1]).stream, junk[|junk| - 1]);
    }
  }

  /** The first chunk of a stream picked up midway is looked at as if it followed on, by a framer
      that is out of sync. */
  lemma {:induction false} MidwayIsOutOfSync(f: Stream, c: Chunk, cs: seq<Chunk>)
    requires Valid(f) && c.skip < 0
    ensures FeedAll(f, [c] + cs) == FeedAll(f.(state := OutOfSync), [c.(skip := 0)] + cs)
  {
    FeedTwice(f, [c], cs);
    FeedTwice(f.(state := OutOfSync), [c.(skip := 0)], cs);
    assert [c][..0] == [] && [c.(skip := 0)][..0] == [];
    assert FeedAll(f, []) == Fed(f, []) && FeedAll(f.(state := OutOfSync), []) == Fed(f.(state := OutOfSync), []);
  }

  /** A stream picked up midway, at the start of a message: the ops are exactly the messages if and
      only if no chunk ends inside a header, whatever the framer was doing before. */
  lemma MidwayExactly(f: Stream, ms: seq<Msg>, c: Chunk, cs: seq<Chunk>)
    requires Valid(f) && c.skip < 0 && AllMessages(ms) && NoSkips(cs) && Flatten([c] + cs) == Flat(ms)
    ensures Bodies(FeedAll(f, [c] + cs).ops) == ms <==> CutsOk(ms, [c] + cs)
  {
    var ds := [c.(skip := 0)] + cs;
    MidwayIsOutOfSync(f, c, cs);
    SameCuts(ms, [c] + cs, ds);
    FramingExactly(f.(state := OutOfSync), ms, ds);
  }

  /** Only the bytes of the chunks matter. */
  lemma {:induction false} SameCuts(ms: seq<Msg>, cs: seq<Chunk>, ds: seq<Chunk>)
    requires |cs| == |ds| && forall i: nat :: i < |cs| ==> cs[i].bytes == ds[i].bytes
    ensures Flatten(cs) == Flatten(ds) && (CutsOk(ms, cs) <==> CutsOk(ms, ds))
  {
    if cs != [] { SameCuts(ms, cs[..|cs| - 1], ds[..|ds| - 1]); }
  }

  /** A gap, with whatever the framer was doing before it: nothing is emitted for the chunk that
      announces it, nor for those after it that do not start with what looks like a header.  From
      the next chunk on that starts with a message, the ops are exactly the messages if and only
      if no chunk ends inside a header. */
  lemma ResumesAfterGap(f: Stream, gap: Chunk, junk: seq<Chunk>, ms: seq<Msg>, cs: seq<Chunk>)
    requires Valid(f) && gap.skip > 0 && forall c <- junk :: Junk(c)
    requires AllMessages(ms) && NoSkips(cs) && Flatten(cs) == Flat(ms)
    ensures Bodies(FeedAll(f, [gap] + junk + cs).ops) == ms <==> CutsOk(ms, cs)
  {
    FeedTwice(f, [gap] + junk, cs);
    FeedTwice(f, [gap], junk);
    assert [gap][..0] == [];
    var g := FeedAll(f, [gap]);
    assert g == Fed(f.(state := OutOfSync, body := []), []);
    JunkIsDropped(g.stream, junk);
    FramingExactly(FeedAll(f, [gap] + junk).stream, ms, cs);
    var ops := FeedAll(FeedAll(f, [gap] + junk).stream, cs).ops;
    assert [] + [] + ops == ops;
  }
}
