/** A recording that gets playback stuck. */
module PlaybackDeadlock {
  import opened Cursors
  import opened Playback
  import opened PlaybackProgress
  import opened PlaybackFates
  import opened PlaybackSessions
  import opened PlaybackKnots
  import opened PlaybackTied

  const USE_20: Op := Request(1, OpKey("a", "s", 1), true, [20])
  const GET_10: Op := Request(1, OpKey("a", "s", 2), false, [])
  const GOT_10: Op := Reply(1, OpKey("a", "s", 2), 10)
  const USE_10: Op := Request(2, OpKey("b", "s", 1), true, [10])
  const GET_20: Op := Request(2, OpKey("b", "s", 2), false, [])
  const GOT_20: Op := Reply(2, OpKey("b", "s", 2), 20)

  /** Two conversations, each request and its reply on one connection: connection 1 uses cursor
      20 and then gets cursor 10, connection 2 uses cursor 10 and then gets cursor 20. */
  const EARLY_USE: seq<Op> := [USE_20, GET_10, GOT_10, USE_10, GET_20, GOT_20]

  // ---- what is tracked ----

  lemma OneUse(m: Counters, c: int, conn: int)
    requires c != 0
    ensures TrackUses(m, [c], conn) == m[c := SeenCounter(m, c, conn)]
  {
    assert [c][..0] == [];
  }

  lemma CountersSnoc(ops: seq<Op>, op: Op)
    ensures CountersOf(ops + [op]) == TrackOp(CountersOf(ops), op)
  {
    assert (ops + [op])[..|ops|] == ops;
  }

  function Counted20(): Counters {
    map[20 := Counter(NO_KEY, [1], 0, false, 1)]
  }

  lemma FirstHalf()
    ensures CountersOf([] + [USE_20] + [GET_10] + [GOT_10]) == Counted20()[10 := Counter(GOT_10.key, [], 1, true, 0)]
  {
    CountersSnoc([], USE_20);
    OneUse(map[], 20, 1);
    CountersSnoc([] + [USE_20], GET_10);
    CountersSnoc([] + [USE_20] + [GET_10], GOT_10);
  }

  lemma SecondHalf(ops: seq<Op>)
    requires CountersOf(ops) == Counted20()[10 := Counter(GOT_10.key, [], 1, true, 0)]
    ensures CountersOf(ops + [USE_10] + [GET_20] + [GOT_20]) ==
      map[20 := Counter(NO_KEY, [1], 2, true, 1), 10 := Counter(GOT_10.key, [2], 1, true, 1)]
  {
    var none: seq<int> := [];
    assert none + [2] == [2];
    CountersSnoc(ops, USE_10);
    OneUse(CountersOf(ops), 10, 2);
    CountersSnoc(ops + [USE_10], GET_20);
    CountersSnoc(ops + [USE_10] + [GET_20], GOT_20);
  }

  lemma EarlyUseInfo(t: Trace)
    requires t.ops == EARLY_USE && Preprocessed(t.ops, t.infos, t.opToCursors)
    ensures t.infos.Keys == {10, 20}
    ensures t.infos[10] == Info(0, false, false, 1, 1) && t.infos[20] == Info(0, false, false, 1, 2)
  {
    FirstHalf();
    SecondHalf([] + [USE_20] + [GET_10] + [GOT_10]);
    assert EARLY_USE == [] + [USE_20] + [GET_10] + [GOT_10] + [USE_10] + [GET_20] + [GOT_20];
    assert forall c :: c in t.infos <==> c == 10 || c == 20;
  }

  // ---- the knot ----

  lemma NothingEnds(n: nat, conn: int)
    requires n <= 6
    ensures EndsBefore(EARLY_USE, n, conn) == 0
  {
  }

  lemma Makers(t: Trace)
    requires t.ops == EARLY_USE && WellRecorded(t) && t.infos.Keys == {10, 20}
    ensures t.requestOf.Keys == t.replyOf.Keys == {10, 20} && t.requestOf[10] == 1 && t.requestOf[20] == 4
  {
    assert 10 in t.infos && 20 in t.infos;
    assert FirstReply(t.ops, 10, t.replyOf[10]) && FirstReply(t.ops, 20, t.replyOf[20]);
    assert Makes(t, t.requestOf[10], GOT_10.key) && Makes(t, t.requestOf[20], GOT_20.key);
  }

  /** Each of the two uses waits for a request behind the other, and with a queue of one op
      already the first one for a request that is not dispatched. */
  lemma EarlyUseIsAKnot(t: Trace) returns (n: nat, left: set<nat>)
    requires t.ops == EARLY_USE && WellRecorded(t) && t.skipped == {}
    ensures Knot(t, n, left)
  {
    EarlyUseInfo(t);
    Makers(t);
    forall i: nat | i < 6 ensures SessionOf(t.ops, i) == Session(t.ops[i].conn, 0) {
      NothingEnds(i, t.ops[i].conn);
    }
    assert USE_20.IsUse(20) && USE_10.IsUse(10);
    assert MayWait(t, 0, 20) && MayWait(t, 3, 10);
    if t.cap == 1 {
      n, left := 2, {0, 1};
      assert HeldUp(t, 2, left, 20);
      assert Fellows(t, left, 2) == {0, 1};
    } else {
      n, left := 6, {0, 1, 2, 3, 4, 5};
      assert HeldUp(t, 6, left, 20) && HeldUp(t, 6, left, 10);
    }
  }

  /** However large the queues are, and although the server answers every request that makes a
      cursor waited for, playback comes to a standstill. */
  lemma EarlyUseDeadlocks(t: Trace) returns (ls: seq<Label>, s: State)
    requires t.ops == EARLY_USE && WellRecorded(t) && t.skipped == {}
    ensures Reaches(t, Start(t), ls, s) && FatedRun(t, Answering(t), Start(t), ls, s)
    ensures Stuck(t, s) && !AllPlayed(t, s)
  {
    var n, left := EarlyUseIsAKnot(t);
    ls, s := KnotGetsStuck(t, n, left);
  }
}
