/** Which messages come out of the framer. */
module FramerProofs {
  import opened Bytes
  import opened Message
  import opened Framer

  type Msg = seq<Byte>

  /** A message as its sender writes it. */
  predicate IsMessage(m: Msg) {
    |m| >= MSG_HEADER_LEN && FromWire(m).LooksReal() && FromWire(m).messageLength as int == |m|
  }

  predicate AllMessages(ms: seq<Msg>) {
    forall k: nat :: k < |ms| ==> IsMessage(ms[k])
  }

  lemma TailMessages(ms: seq<Msg>)
    requires AllMessages(ms) && ms != []
    ensures IsMessage(ms[0]) && AllMessages(ms[1..]) && (ms[1..] != [] ==> |ms[1..][0]| > 0)
    ensures Flat(ms)[..|ms[0]|] == ms[0] && |Flat(ms)| == |ms[0]| + |Flat(ms[1..])|
  {
    assert ms[1..] != [] ==> IsMessage(ms[1..][0]);
  }

  function Flat(ms: seq<Msg>): seq<Byte> {
    if ms == [] then [] else ms[0] + Flat(ms[1..])
  }

  function Bodies(ops: seq<Op>): seq<Msg> {
    seq(|ops|, i requires 0 <= i < |ops| => ops[i].body)
  }

  /** `at` bytes from the start of the messages does not lie inside a header. */
  predicate GoodCut(ms: seq<Msg>, at: nat)
    decreases |ms|
  {
    if ms == [] || at == 0 then true
    else if at < |ms[0]| then at >= MSG_HEADER_LEN
    else GoodCut(ms[1..], at - |ms[0]|)
  }

  /** The stream is where a framer should be after `at` bytes.  Between messages it makes no
      difference whether it is in sync. */
  predicate AtOffset(ms: seq<Msg>, at: nat, f: Stream)
    decreases |ms|
  {
    if ms == [] then at == 0 && f.state != InMessage
    else if at == 0 then f.state != InMessage
    else if at < |ms[0]| then f.state == InMessage && f.body == ms[0][..at]
    else AtOffset(ms[1..], at - |ms[0]|, f)
  }

  /** How many messages end within the first `at` bytes. */
  function Ended(ms: seq<Msg>, at: nat): (k: nat)
    ensures k <= |ms|
    decreases |ms|
  {
    if ms == [] || at < |ms[0]| then 0 else 1 + Ended(ms[1..], at - |ms[0]|)
  }

  lemma BodiesConcat(a: seq<Op>, b: seq<Op>)
    ensures Bodies(a + b) == Bodies(a) + Bodies(b)
  {
  }

  /** The framer stands inside the first message, or before it, and is fed what comes next,
      up to a good cut. */
  predicate Ready(ms: seq<Msg>, at: nat, f: Stream, bytes: seq<Byte>) {
    && AllMessages(ms) && Valid(f) && AtOffset(ms, at, f)
    && (ms != [] ==> at < |ms[0]|)
    && at + |bytes| <= |Flat(ms)| && bytes == Flat(ms)[at..at + |bytes|] && GoodCut(ms, at + |bytes|)
  }

  /** Out of sync, a framer that meets a header starts over with it. */
  lemma SyncStep(f: Stream, bytes: seq<Byte>, seen: int) returns (g: Stream)
    requires f.state != InMessage && |bytes| >= MSG_HEADER_LEN && FromWire(bytes).LooksReal()
    ensures g.state == BeforeMessage && Feed(f, bytes, seen) == Feed(g, bytes, seen)
    ensures f.state == OutOfSync ==> Handle(f, bytes, seen) == Handled(g, bytes, [])
  {
    g := f;
    if f.state == OutOfSync {
      FeedOnce(f, bytes, seen);
      g := HandleOut(f, bytes).stream;
      assert [] + Feed(g, bytes, seen).ops == Feed(g, bytes, seen).ops;
    }
  }

  lemma HeaderStep(ms: seq<Msg>, f: Stream, bytes: seq<Byte>, seen: int) returns (g: Stream, rest: seq<Byte>)
    requires Ready(ms, 0, f, bytes) && bytes != []
    ensures |rest| == |bytes| - MSG_HEADER_LEN >= 0 && Ready(ms, MSG_HEADER_LEN, g, rest)
    ensures Feed(f, bytes, seen) == Feed(g, rest, seen)
  {
    TailMessages(ms);
    FeedHeader(ms, bytes, seen);
    var b := SyncStep(f, bytes, seen);
    FeedOnce(b, bytes, seen);
    g, rest := HandleBefore(b, bytes, seen).stream, HandleBefore(b, bytes, seen).rest;
    assert [] + Feed(g, rest, seen).ops == Feed(g, rest, seen).ops;
  }

  lemma EndStep(ms: seq<Msg>, at: nat, f: Stream, bytes: seq<Byte>) returns (g: Stream, rest: seq<Byte>)
    requires Ready(ms, at, f, bytes) && at > 0 && ms != [] && at + |bytes| >= |ms[0]|
    ensures |rest| == at + |bytes| - |ms[0]| < |bytes| && Ready(ms[1..], 0, g, rest)
    ensures f.state == InMessage && Handle(f, bytes, 0) == HandleIn(f, bytes)
    ensures var h := HandleIn(f, bytes); h.stream == g && h.rest == rest && Bodies(h.ops) == [ms[0]]
  {
    TailMessages(ms);
    FeedToEnd(ms, at, f, bytes);
    g, rest := HandleIn(f, bytes).stream, HandleIn(f, bytes).rest;
  }

  /** What a framer has done once it has read `at` bytes of the messages, starting in the first. */
  predicate ReadTo(ms: seq<Msg>, at: nat, r: Fed) {
    AtOffset(ms, at, r.stream) && Bodies(r.ops) == ms[..Ended(ms, at)]
  }

  /** From inside the first message: a good cut further on is reached with exactly the
      messages in between, whatever their number. */
  lemma {:induction false} FeedExact(ms: seq<Msg>, at: nat, f: Stream, bytes: seq<Byte>, seen: int)
    requires Ready(ms, at, f, bytes)
    ensures ReadTo(ms, at + |bytes|, Feed(f, bytes, seen))
    decreases |bytes|
  {
    if bytes == [] {
      FeedNothing(ms, at, f, seen);
    } else if at == 0 {
      var g, rest := HeaderStep(ms, f, bytes, seen);
      FeedExact(ms, MSG_HEADER_LEN, g, rest, seen);
    } else if at + |bytes| < |ms[0]| {
      InsideStep(ms, at, f, bytes, seen);
    } else {
      var g, rest := EndStep(ms, at, f, bytes);
      FeedExact(ms[1..], 0, g, rest, seen);
      JoinEnd(ms, at, f, bytes, seen, g, rest);
    }
  }

  lemma InsideStep(ms: seq<Msg>, at: nat, f: Stream, bytes: seq<Byte>, seen: int)
    requires Ready(ms, at, f, bytes) && ms != [] && 0 < at && bytes != [] && at + |bytes| < |ms[0]|
    ensures ReadTo(ms, at + |bytes|, Feed(f, bytes, seen))
  {
    TailMessages(ms);
    FeedInside(ms, at, f, bytes, seen);
  }

  lemma FeedNothing(ms: seq<Msg>, at: nat, f: Stream, seen: int)
    requires AtOffset(ms, at, f) && (ms != [] ==> at < |ms[0]|) && Valid(f)
    ensures ReadTo(ms, at, Feed(f, [], seen))
  {
  }

  lemma JoinEnd(ms: seq<Msg>, at: nat, f: Stream, bytes: seq<Byte>, seen: int, g: Stream, rest: seq<Byte>)
    requires ms != [] && f.state == InMessage && Valid(f) && bytes != [] && at + |bytes| >= |ms[0]| > 0
    requires var h := HandleIn(f, bytes); h.stream == g && h.rest == rest && Bodies(h.ops) == [ms[0]]
    requires Valid(g) && ReadTo(ms[1..], at + |bytes| - |ms[0]|, Feed(g, rest, seen))
    ensures ReadTo(ms, at + |bytes|, Feed(f, bytes, seen))
  {
    FeedInOnce(f, bytes, seen);
    OneMoreEnded(ms, at + |bytes|);
  }

  lemma FeedInOnce(f: Stream, bytes: seq<Byte>, seen: int)
    requires f.state == InMessage && Valid(f) && bytes != []
    ensures var h := HandleIn(f, bytes);
            && Valid(h.stream) && Feed(f, bytes, seen).stream == Feed(h.stream, h.rest, seen).stream
            && Bodies(Feed(f, bytes, seen).ops) == Bodies(h.ops) + Bodies(Feed(h.stream, h.rest, seen).ops)
  {
    FeedOnce(f, bytes, seen);
    var h := HandleIn(f, bytes);
    BodiesConcat(h.ops, Feed(h.stream, h.rest, seen).ops);
  }

  lemma OneMoreEnded(ms: seq<Msg>, at: nat)
    requires ms != [] && at >= |ms[0]| > 0
    ensures ms[..Ended(ms, at)] == [ms[0]] + ms[1..][..Ended(ms[1..], at - |ms[0]|)]
  {
  }

  lemma FeedHeader(ms: seq<Msg>, bytes: seq<Byte>, seen: int)
    requires ms != [] && IsMessage(ms[0])
    requires bytes != [] && |bytes| <= |Flat(ms)| && bytes == Flat(ms)[..|bytes|] && GoodCut(ms, |bytes|)
    ensures |bytes| >= MSG_HEADER_LEN && FromWire(bytes).LooksReal()
    ensures forall f: Stream :: f.state == BeforeMessage ==>
      var h := HandleBefore(f, bytes, seen);
      && h.stream.state == InMessage && h.stream.body == ms[0][..MSG_HEADER_LEN] && h.ops == []
      && h.rest == Flat(ms)[MSG_HEADER_LEN..|bytes|] && Valid(h.stream)
  {
    assert bytes[..MSG_HEADER_LEN] == ms[0][..MSG_HEADER_LEN];
    HeaderOfPrefix(bytes, bytes[..MSG_HEADER_LEN]);
    HeaderOfPrefix(ms[0], ms[0][..MSG_HEADER_LEN]);
  }

  lemma FeedInside(ms: seq<Msg>, at: nat, f: Stream, bytes: seq<Byte>, seen: int)
    requires ms != [] && IsMessage(ms[0]) && f.state == InMessage && Valid(f)
    requires bytes != [] && MSG_HEADER_LEN <= at && at + |bytes| < |ms[0]| && f.body == ms[0][..at]
    requires bytes == Flat(ms)[at..at + |bytes|]
    ensures var r := Feed(f, bytes, seen);
            r.stream.state == InMessage && r.stream.body == ms[0][..at + |bytes|] && r.ops == []
  {
    HeaderOfPrefix(ms[0], f.body);
    var h := HandleIn(f, bytes);
    assert bytes[..|bytes|] == bytes && bytes[|bytes|..] == [];
    assert h.stream.body == ms[0][..at + |bytes|];
    assert Feed(h.stream, [], seen).ops == [];
  }

  lemma FeedToEnd(ms: seq<Msg>, at: nat, f: Stream, bytes: seq<Byte>)
    requires ms != [] && IsMessage(ms[0]) && f.state == InMessage && Valid(f)
    requires MSG_HEADER_LEN <= at < |ms[0]| <= at + |bytes| <= |Flat(ms)| && f.body == ms[0][..at]
    requires bytes == Flat(ms)[at..at + |bytes|]
    ensures var h := HandleIn(f, bytes);
            && h.stream.state == BeforeMessage && Bodies(h.ops) == [ms[0]]
            && h.rest == Flat(ms[1..])[..at + |bytes| - |ms[0]|]
  {
    CompletesMessage(ms[0], Flat(ms[1..]), at, bytes);
    HeaderOfPrefix(ms[0], f.body);
    Completes(f, bytes, ms[0]);
  }

  lemma Completes(f: Stream, bytes: seq<Byte>, m: Msg)
    requires f.state == InMessage && Valid(f) && f.header.messageLength as int == |m|
    requires |m| - |f.body| <= |bytes| && f.body + bytes[..|m| - |f.body|] == m
    ensures var h := HandleIn(f, bytes);
            h.stream.state == BeforeMessage && Bodies(h.ops) == [m] && h.rest == bytes[|m| - |f.body|..]
  {
  }

  lemma CompletesMessage(m: Msg, rest: seq<Byte>, at: nat, bytes: seq<Byte>)
    requires at < |m| <= at + |bytes| <= |m| + |rest| && bytes == (m + rest)[at..at + |bytes|]
    ensures m[..at] + bytes[..|m| - at] == m
    ensures bytes[|m| - at..] == rest[..at + |bytes| - |m|]
  {
    assert bytes[..|m| - at] == m[at..];
  }

  // ---- over the chunks of a stream ----

  /** The chunk brings the bytes that come after the first `at`. */
  predicate Comes(ms: seq<Msg>, at: nat, f: Stream, c: Chunk) {
    && AllMessages(ms) && Valid(f) && AtOffset(ms, at, f) && c.skip == 0
    && at + |c.bytes| <= |Flat(ms)| && c.bytes == Flat(ms)[at..at + |c.bytes|]
  }

  lemma ComesToTail(ms: seq<Msg>, at: nat, f: Stream, c: Chunk)
    requires Comes(ms, at, f, c) && ms != [] && at >= |ms[0]|
    ensures Comes(ms[1..], at - |ms[0]|, f, c)
    ensures GoodCut(ms, at + |c.bytes|) <==> GoodCut(ms[1..], at - |ms[0]| + |c.bytes|)
  {
    TailMessages(ms);
  }

  /** Fed n bytes from offset `at`, a framer has emitted the messages that end there. */
  predicate Exact(ms: seq<Msg>, at: nat, n: nat, r: Fed) {
    && AtOffset(ms, at + n, r.stream)
    && Ended(ms, at) <= Ended(ms, at + n) && Bodies(r.ops) == ms[Ended(ms, at)..Ended(ms, at + n)]
  }

  lemma ExactFromTail(ms: seq<Msg>, at: nat, n: nat, r: Fed)
    requires ms != [] && at >= |ms[0]| && Exact(ms[1..], at - |ms[0]|, n, r)
    ensures Exact(ms, at, n, r)
  {
    var i, j := Ended(ms[1..], at - |ms[0]|), Ended(ms[1..], at - |ms[0]| + n);
    assert ms[1..][i..j] == ms[1 + i..1 + j];
  }

  lemma ComesIsReady(ms: seq<Msg>, at: nat, f: Stream, c: Chunk)
    requires Comes(ms, at, f, c) && GoodCut(ms, at + |c.bytes|) && (ms != [] ==> at < |ms[0]|)
    ensures Ready(ms, at, f, c.bytes)
  {
  }

  lemma FedIsExact(ms: seq<Msg>, at: nat, n: nat, r: Fed)
    requires ReadTo(ms, at + n, r) && (ms != [] ==> at < |ms[0]|)
    ensures Exact(ms, at, n, r)
  {
    FromStart(ms, Ended(ms, at + n));
  }

  lemma ExactInFirst(ms: seq<Msg>, at: nat, f: Stream, c: Chunk)
    requires Comes(ms, at, f, c) && GoodCut(ms, at + |c.bytes|) && (ms != [] ==> at < |ms[0]|)
    ensures Exact(ms, at, |c.bytes|, FeedChunk(f, c))
  {
    ComesIsReady(ms, at, f, c);
    FeedExact(ms, at, f, c.bytes, c.seen);
    FedIsExact(ms, at, |c.bytes|, Feed(f, c.bytes, c.seen));
  }

  lemma FromStart(ms: seq<Msg>, j: nat)
    requires j <= |ms|
    ensures ms[0..j] == ms[..j]
  {
  }

  lemma Join(a: seq<Msg>, b: seq<Msg>, ms: seq<Msg>, i: nat, j: nat)
    requires i <= j <= |ms| && a == ms[..i] && b == ms[i..j]
    ensures a + b == ms[..j]
  {
  }

  lemma {:induction false} ChunkExact(ms: seq<Msg>, at: nat, f: Stream, c: Chunk)
    requires Comes(ms, at, f, c) && GoodCut(ms, at + |c.bytes|)
    ensures Exact(ms, at, |c.bytes|, FeedChunk(f, c))
    decreases |ms|
  {
    if ms != [] && at >= |ms[0]| {
      ComesToTail(ms, at, f, c);
      ChunkExact(ms[1..], at - |ms[0]|, f, c);
      ExactFromTail(ms, at, |c.bytes|, FeedChunk(f, c));
    } else {
      ExactInFirst(ms, at, f, c);
    }
  }

  function Flatten(cs: seq<Chunk>): seq<Byte> {
    if cs == [] then [] else Flatten(cs[..|cs| - 1]) + cs[|cs| - 1].bytes
  }

  predicate NoSkips(cs: seq<Chunk>) {
    forall c <- cs :: c.skip == 0
  }

  /** No chunk ends inside a message header. */
  predicate CutsOk(ms: seq<Msg>, cs: seq<Chunk>) {
    cs == [] || (CutsOk(ms, cs[..|cs| - 1]) && GoodCut(ms, |Flatten(cs)|))
  }

  lemma {:induction false} ChunksExact(f: Stream, ms: seq<Msg>, cs: seq<Chunk>)
    requires f.state != InMessage && AllMessages(ms) && NoSkips(cs) && Flatten(cs) <= Flat(ms) && CutsOk(ms, cs)
    ensures var r := FeedAll(f, cs);
            AtOffset(ms, |Flatten(cs)|, r.stream) && Bodies(r.ops) == ms[..Ended(ms, |Flatten(cs)|)]
  {
    if cs == [] {
      EndedAtStart(ms);
    } else {
      var cs0, c := cs[..|cs| - 1], cs[|cs| - 1];
      ChunksExact(f, ms, cs0);
      LastSlice(ms, cs);
      ChunkExact(ms, |Flatten(cs0)|, FeedAll(f, cs0).stream, c);
      LastBodies(f, ms, cs);
    }
  }

  lemma LastSlice(ms: seq<Msg>, cs: seq<Chunk>)
    requires cs != [] && Flatten(cs) <= Flat(ms)
    ensures Flatten(cs[..|cs| - 1]) <= Flat(ms)
    ensures |Flatten(cs)| == |Flatten(cs[..|cs| - 1])| + |cs[|cs| - 1].bytes|
    ensures cs[|cs| - 1].bytes == Flat(ms)[|Flatten(cs[..|cs| - 1])|..|Flatten(cs)|]
  {
    PrefixSlice(Flatten(cs[..|cs| - 1]), cs[|cs| - 1].bytes, Flat(ms));
  }

  lemma PrefixSlice(a: seq<Byte>, b: seq<Byte>, g: seq<Byte>)
    requires a + b <= g
    ensures a <= g && b == g[|a|..|a| + |b|]
  {
    assert b == (a + b)[|a|..|a| + |b|];
  }

  lemma LastFed(f: Stream, cs: seq<Chunk>)
    requires Valid(f) && cs != []
    ensures var cs0, c := cs[..|cs| - 1], cs[|cs| - 1];
            && |Flatten(cs)| == |Flatten(cs0)| + |c.bytes|
            && Bodies(FeedAll(f, cs).ops) ==
               Bodies(FeedAll(f, cs0).ops) + Bodies(FeedChunk(FeedAll(f, cs0).stream, c).ops)
  {
    var r0 := FeedAll(f, cs[..|cs| - 1]);
    BodiesConcat(r0.ops, FeedChunk(r0.stream, cs[|cs| - 1]).ops);
  }

  lemma LastBodies(f: Stream, ms: seq<Msg>, cs: seq<Chunk>)
    requires Valid(f) && cs != []
    requires var cs0, c := cs[..|cs| - 1], cs[|cs| - 1];
             var r0 := FeedAll(f, cs0);
             && Bodies(r0.ops) == ms[..Ended(ms, |Flatten(cs0)|)]
             && Exact(ms, |Flatten(cs0)|, |c.bytes|, FeedChunk(r0.stream, c))
    ensures Bodies(FeedAll(f, cs).ops) == ms[..Ended(ms, |Flatten(cs)|)]
  {
    var cs0, c := cs[..|cs| - 1], cs[|cs| - 1];
    var r0 := FeedAll(f, cs0);
    LastFed(f, cs);
    Join(Bodies(r0.ops), Bodies(FeedChunk(r0.stream, c).ops), ms, Ended(ms, |Flatten(cs0)|), Ended(ms, |Flatten(cs)|));
  }

  lemma EndedAtStart(ms: seq<Msg>)
    requires AllMessages(ms)
    ensures Ended(ms, 0) == 0
  {
    if ms != [] { TailMessages(ms); }
  }

  lemma {:induction false} EndedAll(ms: seq<Msg>)
    requires AllMessages(ms)
    ensures Ended(ms, |Flat(ms)|) == |ms|
  {
    if ms != [] {
      TailMessages(ms);
      EndedAll(ms[1..]);
    }
  }

  // ---- bytes are dropped exactly at a cut header ----

  function Held(f: Stream): nat {
    if f.state == InMessage then |f.body| else 0
  }

  function Emitted(ops: seq<Op>): nat {
    |Flat(Bodies(ops))|
  }

  lemma {:induction false} FlatConcat(a: seq<Msg>, b: seq<Msg>)
    ensures Flat(a + b) == Flat(a) + Flat(b)
  {
    if a == [] {
      assert [] + b == b;
    } else {
      FlatConcat(a[1..], b);
      assert (a + b)[1..] == a[1..] + b;
      Associates(a[0], Flat(a[1..]), Flat(b));
    }
  }

  lemma Associates(x: seq<Byte>, y: seq<Byte>, z: seq<Byte>)
    ensures x + (y + z) == (x + y) + z
  {
  }

  lemma EmittedConcat(a: seq<Op>, b: seq<Op>)
    ensures Emitted(a + b) == Emitted(a) + Emitted(b)
  {
    BodiesConcat(a, b);
    FlatConcat(Bodies(a), Bodies(b));
  }

  lemma HandleNoGain(f: Stream, bytes: seq<Byte>, seen: int)
    requires Valid(f)
    ensures var h := Handle(f, bytes, seen);
            Emitted(h.ops) + Held(h.stream) + |h.rest| <= Held(f) + |bytes|
  {
    var h := Handle(f, bytes, seen);
    if h.ops != [] {
      assert Bodies(h.ops) == [h.ops[0].body];
      assert Flat([h.ops[0].body]) == h.ops[0].body + Flat([]);
    }
  }

  /** No byte is emitted that was not fed. */
  lemma {:induction false} FeedNoGain(f: Stream, bytes: seq<Byte>, seen: int)
    requires Valid(f)
    ensures var r := Feed(f, bytes, seen);
            Emitted(r.ops) + Held(r.stream) <= Held(f) + |bytes|
    decreases |bytes|, f.state == OutOfSync
  {
    if bytes != [] {
      HandleShrinks(f, bytes, seen);
      HandleNoGain(f, bytes, seen);
      var h := Handle(f, bytes, seen);
      FeedNoGain(h.stream, h.rest, seen);
      EmittedConcat(h.ops, Feed(h.stream, h.rest, seen).ops);
    }
  }

  lemma ChunkNoGain(f: Stream, c: Chunk)
    requires Valid(f)
    ensures var r := FeedChunk(f, c);
            Emitted(r.ops) + Held(r.stream) <= Held(f) + |c.bytes|
  {
    FeedNoGain(f, c.bytes, c.seen);
    FeedNoGain(f.(state := OutOfSync), c.bytes, c.seen);
  }

  lemma {:induction false} ChunksNoGain(f: Stream, cs: seq<Chunk>)
    requires Valid(f)
    ensures var r := FeedAll(f, cs);
            Emitted(r.ops) + Held(r.stream) <= Held(f) + |Flatten(cs)|
  {
    if cs != [] {
      var cs0 := cs[..|cs| - 1];
      ChunksNoGain(f, cs0);
      var r0 := FeedAll(f, cs0);
      ChunkNoGain(r0.stream, cs[|cs| - 1]);
      EmittedConcat(r0.ops, FeedChunk(r0.stream, cs[|cs| - 1]).ops);
    }
  }

  /** Like Ready, but what is fed ends inside a header. */
  predicate ReadyForBadCut(ms: seq<Msg>, at: nat, f: Stream, bytes: seq<Byte>) {
    && AllMessages(ms) && Valid(f) && AtOffset(ms, at, f)
    && (ms != [] ==> at < |ms[0]|)
    && at + |bytes| <= |Flat(ms)| && bytes == Flat(ms)[at..at + |bytes|] && !GoodCut(ms, at + |bytes|)
  }

  lemma HeaderLooksReal(ms: seq<Msg>, bytes: seq<Byte>)
    requires AllMessages(ms) && ms != [] && MSG_HEADER_LEN <= |bytes| <= |Flat(ms)| && bytes == Flat(ms)[..|bytes|]
    ensures FromWire(bytes).LooksReal()
  {
    assert bytes[..MSG_HEADER_LEN] == ms[0][..MSG_HEADER_LEN];
    HeaderOfPrefix(bytes, bytes[..MSG_HEADER_LEN]);
    HeaderOfPrefix(ms[0], ms[0][..MSG_HEADER_LEN]);
  }

  /** A chunk that ends inside a header loses the bytes of that header it holds. */
  lemma {:induction false} FeedLoses(ms: seq<Msg>, at: nat, f: Stream, bytes: seq<Byte>, seen: int)
    requires ReadyForBadCut(ms, at, f, bytes)
    ensures var r := Feed(f, bytes, seen);
            Emitted(r.ops) + Held(r.stream) < Held(f) + |bytes|
    decreases |bytes|, f.state == OutOfSync
  {
    TailMessages(ms);
    if at == 0 && |bytes| < MSG_HEADER_LEN {
      var h := Handle(f, bytes, seen);
      assert Feed(h.stream, [], seen) == Fed(h.stream, []);
      assert Bodies([]) == [];
    } else if at == 0 && f.state == OutOfSync {
      HeaderLooksReal(ms, bytes);
      var g := SyncStep(f, bytes, seen);
      FeedLoses(ms, 0, g, bytes, seen);
    } else {
      LoseLater(ms, at, f, bytes, seen);
      HandleNoGain(f, bytes, seen);
      var h := Handle(f, bytes, seen);
      if at == 0 {
        FeedLoses(ms, MSG_HEADER_LEN, h.stream, h.rest, seen);
      } else {
        FeedLoses(ms[1..], 0, h.stream, h.rest, seen);
      }
      EmittedConcat(h.ops, Feed(h.stream, h.rest, seen).ops);
    }
  }

  lemma LoseLater(ms: seq<Msg>, at: nat, f: Stream, bytes: seq<Byte>, seen: int)
    requires ReadyForBadCut(ms, at, f, bytes) && !(at == 0 && |bytes| < MSG_HEADER_LEN) && f.state != OutOfSync
    ensures bytes != [] && |Handle(f, bytes, seen).rest| < |bytes|
    ensures at == 0 ==> ReadyForBadCut(ms, MSG_HEADER_LEN, Handle(f, bytes, seen).stream, Handle(f, bytes, seen).rest)
    ensures at > 0 ==> ReadyForBadCut(ms[1..], 0, Handle(f, bytes, seen).stream, Handle(f, bytes, seen).rest)
  {
    TailMessages(ms);
    if at == 0 {
      assert bytes[..MSG_HEADER_LEN] == ms[0][..MSG_HEADER_LEN];
      HeaderOfPrefix(bytes, bytes[..MSG_HEADER_LEN]);
      HeaderOfPrefix(ms[0], ms[0][..MSG_HEADER_LEN]);
    } else {
      FeedToEnd(ms, at, f, bytes);
    }
  }

  lemma HeadLoses(ms: seq<Msg>, at: nat, f: Stream, c: Chunk)
    requires Comes(ms, at, f, c) && !GoodCut(ms, at + |c.bytes|) && (ms == [] || at < |ms[0]|)
    ensures var r := FeedChunk(f, c);
            Emitted(r.ops) + Held(r.stream) < Held(f) + |c.bytes|
  {
    FeedLoses(ms, at, f, c.bytes, c.seen);
  }

  lemma {:induction false} ChunkLoses(ms: seq<Msg>, at: nat, f: Stream, c: Chunk)
    requires Comes(ms, at, f, c) && !GoodCut(ms, at + |c.bytes|)
    ensures var r := FeedChunk(f, c);
            Emitted(r.ops) + Held(r.stream) < Held(f) + |c.bytes|
    decreases |ms|
  {
    if ms != [] && at >= |ms[0]| {
      ComesToTail(ms, at, f, c);
      ChunkLoses(ms[1..], at - |ms[0]|, f, c);
    } else {
      HeadLoses(ms, at, f, c);
    }
  }

  lemma {:induction false} BadCutLoses(f: Stream, ms: seq<Msg>, cs: seq<Chunk>)
    requires f.state != InMessage && AllMessages(ms) && NoSkips(cs) && Flatten(cs) <= Flat(ms) && !CutsOk(ms, cs)
    ensures var r := FeedAll(f, cs);
            Emitted(r.ops) + Held(r.stream) < |Flatten(cs)|
  {
    var cs0, c := cs[..|cs| - 1], cs[|cs| - 1];
    var r0 := FeedAll(f, cs0);
    LastSlice(ms, cs);
    if CutsOk(ms, cs0) {
      ChunksExact(f, ms, cs0);
      ChunksNoGain(f, cs0);
      ChunkLoses(ms, |Flatten(cs0)|, r0.stream, c);
    } else {
      BadCutLoses(f, ms, cs0);
      ChunkNoGain(r0.stream, c);
    }
    EmittedConcat(r0.ops, FeedChunk(r0.stream, c).ops);
  }

  /** Framing is exact exactly when no chunk ends inside a header: then, and only then, the
      ops are the messages, whole and in order, however else the stream is cut, and whether or
      not the framer was in sync before it. */
  lemma FramingExactly(f: Stream, ms: seq<Msg>, cs: seq<Chunk>)
    requires f.state != InMessage && AllMessages(ms) && NoSkips(cs) && Flatten(cs) == Flat(ms)
    ensures Bodies(FeedAll(f, cs).ops) == ms <==> CutsOk(ms, cs)
  {
    if CutsOk(ms, cs) {
      ChunksExact(f, ms, cs);
      EndedAll(ms);
    } else {
      BadCutLoses(f, ms, cs);
    }
  }

  /** Two ways of cutting the stream outside its headers give the same messages. */
  lemma ChunkingDoesNotMatter(ms: seq<Msg>, cs: seq<Chunk>, ds: seq<Chunk>)
    requires AllMessages(ms) && NoSkips(cs) && NoSkips(ds) && CutsOk(ms, cs) && CutsOk(ms, ds)
    requires Flatten(cs) == Flatten(ds) <= Flat(ms)
    ensures Bodies(FeedAll(NEW_STREAM, cs).ops) == Bodies(FeedAll(NEW_STREAM, ds).ops)
  {
    ChunksExact(NEW_STREAM, ms, cs);
    ChunksExact(NEW_STREAM, ms, ds);
  }

  // ---- what holds of every op, whatever arrives ----

  predicate OpOk(o: Op) {
    && |o.body| == o.header.messageLength as int
    && MIN_MESSAGE_SIZE <= |o.body| <= MAX_MESSAGE_SIZE
    && o.header.LooksReal()
    && Wire(o.header) == o.body[..MSG_HEADER_LEN]
  }

  /** The bytes since the last gap: the body of an op never spans one. */
  function SinceGap(cs: seq<Chunk>): seq<Byte> {
    if cs == [] then []
    else
      var c := cs[|cs| - 1];
      if c.skip > 0 then [] else if c.skip < 0 then c.bytes else SinceGap(cs[..|cs| - 1]) + c.bytes
  }

  ghost predicate Within(body: seq<Byte>, run: seq<Byte>) {
    exists i: nat :: StandsAt(body, run, i)
  }

  predicate StandsAt(body: seq<Byte>, run: seq<Byte>, i: nat) {
    i + |body| <= |run| && run[i..i + |body|] == body
  }

  predicate HoldsEndOf(f: Stream, run: seq<Byte>) {
    f.state == InMessage ==> |f.body| <= |run| && run[|run| - |f.body|..] == f.body
  }

  /** A message completed from the held part and the next bytes. */
  lemma CompletedOk(f: Stream, bytes: seq<Byte>, o: Op)
    requires f.state == InMessage && Valid(f) && HandleIn(f, bytes).ops == [o]
    ensures OpOk(o)
  {
    HeaderOfPrefix(o.body, f.body);
    WireRoundTrip(o.body);
  }

  lemma HandleInWithin(f: Stream, bytes: seq<Byte>, run: seq<Byte>)
    requires f.state == InMessage && Valid(f) && HoldsEndOf(f, run)
    ensures var h := HandleIn(f, bytes);
            var used := |bytes| - |h.rest|;
            && |h.rest| <= |bytes| && h.rest == bytes[used..]
            && HoldsEndOf(h.stream, run + bytes[..used])
            && forall o <- h.ops :: OpOk(o) && Within(o.body, run + bytes[..used])
  {
    var h := HandleIn(f, bytes);
    var used := |bytes| - |h.rest|;
    var all, from := run + bytes[..used], |run| - |f.body|;
    assert all[from..] == f.body + bytes[..used];
    if h.ops != [] {
      CompletedOk(f, bytes, h.ops[0]);
      assert StandsAt(h.ops[0].body, all, from);
    }
  }

  lemma HandleWithin(f: Stream, bytes: seq<Byte>, seen: int, run: seq<Byte>)
    requires Valid(f) && HoldsEndOf(f, run) && bytes != []
    ensures var h := Handle(f, bytes, seen);
            var used := |bytes| - |h.rest|;
            && |h.rest| <= |bytes| && h.rest == bytes[used..]
            && HoldsEndOf(h.stream, run + bytes[..used])
            && forall o <- h.ops :: OpOk(o) && Within(o.body, run + bytes[..used])
  {
    if f.state == InMessage {
      HandleInWithin(f, bytes, run);
    } else if f.state == BeforeMessage && |bytes| >= MSG_HEADER_LEN {
      var all := run + bytes[..MSG_HEADER_LEN];
      assert all[|run|..] == bytes[..MSG_HEADER_LEN];
    }
  }

  lemma WithinMore(body: seq<Byte>, run: seq<Byte>, more: seq<Byte>)
    requires Within(body, run)
    ensures Within(body, run + more)
  {
    var i: nat :| StandsAt(body, run, i);
    assert StandsAt(body, run + more, i);
  }

  ghost predicate AllWithin(ops: seq<Op>, run: seq<Byte>) {
    forall o <- ops :: OpOk(o) && Within(o.body, run)
  }

  lemma AllWithinMore(ops: seq<Op>, run: seq<Byte>, more: seq<Byte>)
    requires AllWithin(ops, run)
    ensures AllWithin(ops, run + more)
  {
    forall o | o in ops ensures Within(o.body, run + more) { WithinMore(o.body, run, more); }
  }

  /** One round: `used` is what it takes off the bytes. */
  lemma RoundWithin(f: Stream, bytes: seq<Byte>, seen: int, run: seq<Byte>) returns (h: Handled, used: seq<Byte>)
    requires Valid(f) && HoldsEndOf(f, run) && bytes != []
    ensures bytes == used + h.rest && Shrinks(f, bytes, h) && Valid(h.stream)
    ensures Feed(f, bytes, seen) == Fed(Feed(h.stream, h.rest, seen).stream, h.ops + Feed(h.stream, h.rest, seen).ops)
    ensures HoldsEndOf(h.stream, run + used) && AllWithin(h.ops, run + used)
  {
    h := Handle(f, bytes, seen);
    used := bytes[..|bytes| - |h.rest|];
    HandleShrinks(f, bytes, seen);
    FeedOnce(f, bytes, seen);
    HandleWithin(f, bytes, seen, run);
  }

  lemma {:induction false} FeedWithin(f: Stream, bytes: seq<Byte>, seen: int, run: seq<Byte>)
    requires Valid(f) && HoldsEndOf(f, run)
    ensures var r := Feed(f, bytes, seen);
            HoldsEndOf(r.stream, run + bytes) && AllWithin(r.ops, run + bytes)
    decreases |bytes|, f.state == OutOfSync
  {
    if bytes == [] {
      assert run + bytes == run;
    } else {
      var h, used := RoundWithin(f, bytes, seen, run);
      assert run + used + h.rest == run + bytes;
      AllWithinMore(h.ops, run + used, h.rest);
      FeedWithin(h.stream, h.rest, seen, run + used);
    }
  }

  ghost predicate SomewhereWithin(body: seq<Byte>, cs: seq<Chunk>) {
    exists j: nat :: j <= |cs| && Within(body, SinceGap(cs[..j]))
  }

  /** For any chunks at all, with any gaps: every op has the length its header says, within
      the limits, begins with its header, and is a stretch of bytes between two gaps. */
  lemma {:induction false} EveryOpIsSound(cs: seq<Chunk>)
    ensures var r := FeedAll(NEW_STREAM, cs);
            HoldsEndOf(r.stream, SinceGap(cs)) && forall o <- r.ops :: OpOk(o) && SomewhereWithin(o.body, cs)
  {
    if cs != [] {
      var cs0, c := cs[..|cs| - 1], cs[|cs| - 1];
      EveryOpIsSound(cs0);
      var r0 := FeedAll(NEW_STREAM, cs0);
      LastChunkWithin(r0.stream, cs);
      forall o | o in r0.ops ensures SomewhereWithin(o.body, cs) {
        var j: nat :| j <= |cs0| && Within(o.body, SinceGap(cs0[..j]));
        assert cs[..j] == cs0[..j];
      }
      assert cs[..|cs|] == cs;
    }
  }

  lemma LastChunkWithin(f: Stream, cs: seq<Chunk>)
    requires cs != [] && Valid(f) && HoldsEndOf(f, SinceGap(cs[..|cs| - 1]))
    ensures var r := FeedChunk(f, cs[|cs| - 1]);
            HoldsEndOf(r.stream, SinceGap(cs)) && AllWithin(r.ops, SinceGap(cs))
  {
    var c := cs[|cs| - 1];
    if c.skip < 0 {
      FeedWithin(f.(state := OutOfSync), c.bytes, c.seen, []);
      assert [] + c.bytes == c.bytes;
    } else if c.skip == 0 {
      FeedWithin(f, c.bytes, c.seen, SinceGap(cs[..|cs| - 1]));
    }
  }
}
