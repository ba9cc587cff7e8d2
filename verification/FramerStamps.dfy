/** The time that an op gets. */
module FramerStamps {
  import opened Bytes
  import opened Message
  import opened Framer
  import opened FramerProofs

  /** A message header came in a chunk that was seen at that time. */
  ghost predicate Stamped(cs: set<Chunk>, body: seq<Byte>, stamp: int) {
    |body| >= MSG_HEADER_LEN && exists c <- cs :: c.seen == stamp && Within(body[..MSG_HEADER_LEN], c.bytes)
  }

  ghost predicate AllStamped(cs: set<Chunk>, f: Stream, ops: seq<Op>) {
    (f.state == InMessage ==> Stamped(cs, f.body, f.stamp)) && forall o <- ops :: Stamped(cs, o.body, o.seen)
  }

  lemma HandleStamped(cs: set<Chunk>, f: Stream, c: Chunk, at: nat)
    requires Valid(f) && AllStamped(cs, f, []) && c in cs && at < |c.bytes|
    ensures var h := Handle(f, c.bytes[at..], c.seen); AllStamped(cs, h.stream, h.ops)
  {
    var bytes := c.bytes[at..];
    if f.state == BeforeMessage && |bytes| >= MSG_HEADER_LEN {
      var head := bytes[..MSG_HEADER_LEN];
      assert StandsAt(head, c.bytes, at);
      assert head[..MSG_HEADER_LEN] == head;
    } else if f.state == InMessage {
      var copySize := |bytes| - |HandleIn(f, bytes).rest|;
      assert (f.body + bytes[..copySize])[..MSG_HEADER_LEN] == f.body[..MSG_HEADER_LEN];
    }
  }

  lemma HandleRest(f: Stream, c: Chunk, at: nat)
    requires Valid(f) && at < |c.bytes|
    ensures var h := Handle(f, c.bytes[at..], c.seen);
            |h.rest| <= |c.bytes| - at && h.rest == c.bytes[|c.bytes| - |h.rest|..]
  {
  }

  lemma StampedJoin(cs: set<Chunk>, f: Stream, g: Stream, a: seq<Op>, b: seq<Op>)
    requires AllStamped(cs, f, a) && AllStamped(cs, g, b)
    ensures AllStamped(cs, g, a + b)
  {
  }

  /** One round: the chunk has been read up to `to`. */
  predicate RoundTo(f: Stream, c: Chunk, at: nat, h: Handled, to: nat)
    requires Valid(f) && at < |c.bytes|
  {
    && at <= to <= |c.bytes| && Handle(f, c.bytes[at..], c.seen) == h && h.rest == c.bytes[to..]
    && Valid(h.stream) && (to == at ==> f.state == OutOfSync && h.stream.state != OutOfSync)
  }

  lemma RoundOf(f: Stream, c: Chunk, at: nat) returns (h: Handled, to: nat)
    requires Valid(f) && at < |c.bytes|
    ensures RoundTo(f, c, at, h, to)
  {
    h := Handle(f, c.bytes[at..], c.seen);
    HandleShrinks(f, c.bytes[at..], c.seen);
    HandleRest(f, c, at);
    to := |c.bytes| - |h.rest|;
  }

  lemma FeedRound(f: Stream, c: Chunk, at: nat, h: Handled, to: nat)
    requires Valid(f) && at < |c.bytes| && RoundTo(f, c, at, h, to)
    ensures Feed(f, c.bytes[at..], c.seen) ==
            Fed(Feed(h.stream, c.bytes[to..], c.seen).stream, h.ops + Feed(h.stream, c.bytes[to..], c.seen).ops)
  {
    FeedOnce(f, c.bytes[at..], c.seen);
  }

  lemma {:induction false} FeedStamped(cs: set<Chunk>, f: Stream, c: Chunk, at: nat)
    requires Valid(f) && AllStamped(cs, f, []) && c in cs && at <= |c.bytes|
    ensures AllStamped(cs, Feed(f, c.bytes[at..], c.seen).stream, Feed(f, c.bytes[at..], c.seen).ops)
    decreases |c.bytes| - at, f.state == OutOfSync
  {
    if at < |c.bytes| {
      var h, to := RoundOf(f, c, at);
      FeedRound(f, c, at, h, to);
      HandleStamped(cs, f, c, at);
      FeedStamped(cs, h.stream, c, to);
      var r := Feed(h.stream, c.bytes[to..], c.seen);
      StampedJoin(cs, h.stream, r.stream, h.ops, r.ops);
    }
  }

  function ChunkSet(cs: seq<Chunk>): set<Chunk> {
    set c | c in cs
  }

  /** The time of an op is that of the chunk in which its header came. */
  lemma {:induction false} EveryOpIsStamped(cs: seq<Chunk>)
    ensures var r := FeedAll(NEW_STREAM, cs); AllStamped(ChunkSet(cs), r.stream, r.ops)
  {
    if cs != [] {
      var cs0, c := cs[..|cs| - 1], cs[|cs| - 1];
      EveryOpIsStamped(cs0);
      var r0 := FeedAll(NEW_STREAM, cs0);
      assert ChunkSet(cs0) <= ChunkSet(cs);
      assert c.bytes[0..] == c.bytes;
      FeedStamped(ChunkSet(cs), if c.skip < 0 then r0.stream.(state := OutOfSync) else r0.stream, c, 0);
    }
  }
}
