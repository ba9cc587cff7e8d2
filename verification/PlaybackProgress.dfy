/** What every step of playback keeps: how far each cursor waited for is from being known. */
module PlaybackProgress {
  import opened Cursors
  import opened Execution
  import opened Playback
  import opened PlaybackShape

  /** Each cursor waited for was made by a request that is executed and is not itself a use;
      `replyOf` is its first reply.  Requests, and replies that carry a cursor, have distinct
      keys, and no request the empty one. */
  ghost predicate WellRecorded(t: Trace) {
    && t.cap >= 1 && Preprocessed(t.ops, t.infos, t.opToCursors)
    && t.requestOf.Keys == t.replyOf.Keys == t.infos.Keys
    && (forall c <- t.infos :: FirstReply(t.ops, c, t.replyOf[c]) && Makes(t, t.requestOf[c], t.ops[t.replyOf[c]].key))
    && (forall i: nat, j: nat :: SameRequest(t, i, j) ==> i == j)
    && (forall i: nat, j: nat :: SameReply(t, i, j) ==> i == j)
    && (forall i: nat :: i < |t.ops| && t.ops[i].Request? ==> t.ops[i].key != NO_KEY)
  }

  /** Op u waits for cursor c if it is not known by then: GetCursor does not wait on the
      connection that the last reply with the cursor is on. */
  predicate MayWait(t: Trace, u: nat, c: int) {
    u < |t.ops| && t.ops[u].IsUse(c) && u !in t.skipped && c in t.infos && t.ops[u].conn != t.infos[c].replyConn
  }

  /** If an op may wait for a cursor, no use of the cursor is recorded before its first reply,
      and its request is recorded before that op. */
  predicate Timely(t: Trace)
    requires t.requestOf.Keys == t.replyOf.Keys == t.infos.Keys
  {
    forall c <- t.infos, u: nat | u < |t.ops| :: MayWait(t, u, c) ==> t.requestOf[c] < u && OpensWith(t.ops, c, t.replyOf[c])
  }

  predicate Makes(t: Trace, q: nat, key: OpKey) {
    q < |t.ops| && t.ops[q].Request? && !t.ops[q].rewrites && t.ops[q].key == key && q !in t.skipped
  }

  predicate SameRequest(t: Trace, i: nat, j: nat) {
    i < |t.ops| && j < |t.ops| && t.ops[i].Request? && t.ops[j].Request? && t.ops[i].key == t.ops[j].key
  }

  predicate Carries(t: Trace, i: nat) {
    i < |t.ops| && t.ops[i].Reply? && t.ops[i].cursor != 0
  }

  predicate SameReply(t: Trace, i: nat, j: nat) {
    Carries(t, i) && Carries(t, j) && t.ops[i].key == t.ops[j].key
  }

  /** The key that ties the cursor's request, live reply and recorded reply together. */
  function KeyOf(t: Trace, c: int): OpKey
    requires c in t.replyOf && t.replyOf[c] < |t.ops| && !t.ops[t.replyOf[c]].Eof?
  {
    t.ops[t.replyOf[c]].key
  }

  // ---- how far a cursor is from being known ----

  /** The op has added what it had to add to the pairs. */
  ghost predicate Past(s: State, i: nat) {
    i in s.done || exists c: nat :: c < |s.chans| && s.chans[c].cur == Busy(i, Handling)
  }

  predicate WireIn(ps: Pairing, k: OpKey) {
    k in ps.complete || (k in ps.incomplete && ps.incomplete[k].wire.Got?)
  }

  predicate FileIn(ps: Pairing, k: OpKey) {
    k in ps.complete || (k in ps.incomplete && ps.incomplete[k].file.Got?)
  }

  /** A failure of the request would be noted for the cursor, or does not happen. */
  predicate Listed(t: Trace, c: int)
    requires c in t.replyOf
  {
    t.answers || OpensWith(t.ops, c, t.replyOf[c])
  }

  predicate Settled(info: Info) {
    info.success || info.failed
  }

  ghost predicate CursorOk(t: Trace, s: State, c: int)
    requires WellRecorded(t) && c in t.infos
  {
    && c in s.infos
    && (Past(s, t.requestOf[c]) && Listed(t, c) ==> Settled(s.infos[c]) || WireIn(s.replies, KeyOf(t, c)))
    && (Past(s, t.replyOf[c]) ==> Settled(s.infos[c]) || FileIn(s.replies, KeyOf(t, c)))
    && (c in s.present || s.infos[c].success)
    && (s.infos[c].failed ==> t.requestOf[c] in s.done)
    && (s.infos[c].success ==> s.infos[c].live != 0)
  }

  /** Op j is one that can complete the pair of key k. */
  predicate Completes(t: Trace, j: nat, k: OpKey) {
    j < |t.ops| && !t.ops[j].Eof? && t.ops[j].key == k && (t.ops[j].Reply? ==> t.ops[j].cursor != 0)
  }

  ghost predicate Recorded(t: Trace, k: OpKey, half: Half) {
    half.Got? ==> exists j: nat :: Carries(t, j) && t.ops[j].key == k && t.ops[j].cursor == half.cursor
  }

  /** Recorded halves come from the file, and whoever completed a pair is about to handle it. */
  ghost predicate PairsOk(t: Trace, s: State) {
    && PairingOk(s.replies)
    && (forall k <- s.replies.incomplete :: Recorded(t, k, s.replies.incomplete[k].file))
    && (forall k <- s.replies.complete :: Recorded(t, k, s.replies.complete[k].file))
    && (forall k <- s.replies.complete :: AboutToHandle(t, s, k))
  }

  ghost predicate AboutToHandle(t: Trace, s: State, k: OpKey) {
    exists c: nat, j: nat :: c < |s.chans| && s.chans[c].cur == Busy(j, Handling) && Completes(t, j, k)
  }

  ghost predicate Inv(t: Trace, s: State) {
    && WellRecorded(t) && Shape(t, s) && PairsOk(t, s)
    && forall c <- t.infos :: CursorOk(t, s, c)
  }

  /** A cursor whose request and first reply are both played is settled, unless the request can
      fail and a use is recorded before that reply. */
  lemma PlayedMeansSettled(t: Trace, s: State, c: int)
    requires Inv(t, s) && c in t.infos && Listed(t, c)
    requires t.requestOf[c] in s.done && t.replyOf[c] in s.done
    ensures Settled(s.infos[c])
  {
    var k, q, r := KeyOf(t, c), t.requestOf[c], t.replyOf[c];
    assert CursorOk(t, s, c);
    assert FirstReply(t.ops, c, r);
    if !Settled(s.infos[c]) && k in s.replies.complete {
      var d: nat, j: nat :| d < |s.chans| && s.chans[d].cur == Busy(j, Handling) && Completes(t, j, k);
      assert ChanOk(t, BookOf(s), d, s.chans[d]);
      OneOfTheTwo(t, c, j);
      assert false;
    }
  }

  /** Only a cursor's own request and its first reply can complete its pair. */
  lemma OneOfTheTwo(t: Trace, c: int, j: nat)
    requires WellRecorded(t) && c in t.infos && Completes(t, j, KeyOf(t, c))
    ensures j == t.requestOf[c] || j == t.replyOf[c]
  {
    assert FirstReply(t.ops, c, t.replyOf[c]);
    if t.ops[j].Request? {
      assert SameRequest(t, j, t.requestOf[c]);
    } else {
      PositiveCursor(t, c);
      assert SameReply(t, j, t.replyOf[c]);
    }
  }

  lemma PositiveCursor(t: Trace, c: int)
    requires WellRecorded(t) && c in t.infos
    ensures c != 0 && Carries(t, t.replyOf[c])
  {
    assert FirstReply(t.ops, c, t.replyOf[c]);
  }

  /** What a step may do to the entry of a cursor without settling or unsettling it. */
  predicate SameStanding(i: Info, i': Info) {
    i'.live == i.live && i'.success == i.success && i'.failed == i.failed
  }

  /** A step that adds no reply, handles none, and finishes no op that could matter. */
  lemma QuietStep(t: Trace, s: State, s': State, c: nat)
    requires Inv(t, s) && |s.chans| <= |s'.chans| && s'.infos.Keys == s.infos.Keys
    requires forall d: nat :: d < |s.chans| && d != c ==> s'.chans[d].cur == s.chans[d].cur
    requires forall d: nat :: |s.chans| <= d < |s'.chans| ==> s'.chans[d].cur.Idle?
    requires c < |s.chans| ==> s.chans[c].cur.Idle? || s.chans[c].cur.phase != Handling
    requires MayHandle(t, s', c)
    requires s.done <= s'.done && forall i <- s'.done :: i in s.done || NotAMaker(t, i)
    requires s'.replies == s.replies
    requires forall k <- t.infos :: k in s.infos && SameStanding(s.infos[k], s'.infos[k])
    requires forall k <- t.infos :: k in s.infos && k in s.present && !s.infos[k].success ==> k in s'.present
    ensures PairsOk(t, s') && forall k <- t.infos :: CursorOk(t, s', k)
  {
    forall k | k in t.infos ensures CursorOk(t, s', k) {
      assert CursorOk(t, s, k);
      StillPast(t, s, s', c, t.requestOf[k], k);
      StillPast(t, s, s', c, t.replyOf[k], k);
    }
    forall k | k in s'.replies.complete ensures AboutToHandle(t, s', k) {
      assert AboutToHandle(t, s, k);
      var d: nat, j: nat :| d < |s.chans| && s.chans[d].cur == Busy(j, Handling) && Completes(t, j, k);
      assert s'.chans[d].cur == s.chans[d].cur;
    }
  }

  /** Neither the request nor the first reply of a cursor waited for. */
  predicate NotAMaker(t: Trace, i: nat) {
    (forall c <- t.requestOf :: t.requestOf[c] != i) && (forall c <- t.replyOf :: t.replyOf[c] != i)
  }

  predicate MayHandle(t: Trace, s: State, c: nat) {
    c < |s.chans| && s.chans[c].cur.Busy? && s.chans[c].cur.phase == Handling ==> NotAMaker(t, s.chans[c].cur.i)
  }

  lemma StillPast(t: Trace, s: State, s': State, c: nat, i: nat, k: int)
    requires WellRecorded(t) && k in t.infos && (i == t.requestOf[k] || i == t.replyOf[k])
    requires |s.chans| <= |s'.chans|
    requires forall d: nat :: d < |s.chans| && d != c ==> s'.chans[d].cur == s.chans[d].cur
    requires forall d: nat :: |s.chans| <= d < |s'.chans| ==> s'.chans[d].cur.Idle?
    requires MayHandle(t, s', c)
    requires forall i <- s'.done :: i in s.done || NotAMaker(t, i)
    ensures Past(s', i) ==> Past(s, i)
  {
    assert k in t.requestOf && k in t.replyOf;
    if Past(s', i) && i !in s'.done {
      var d: nat :| d < |s'.chans| && s'.chans[d].cur == Busy(i, Handling);
      assert d != c && d < |s.chans|;
    }
  }

  // ---- steps that are quiet ----

  lemma EofIsNotAMaker(t: Trace, i: nat)
    requires WellRecorded(t) && i < |t.ops|
    requires t.ops[i].Eof? || (t.ops[i].Request? && t.ops[i].rewrites) || (t.ops[i].Reply? && t.ops[i].cursor == 0)
    ensures NotAMaker(t, i)
  {
    forall c | c in t.infos ensures t.requestOf[c] != i && t.replyOf[c] != i {
      assert Makes(t, t.requestOf[c], t.ops[t.replyOf[c]].key);
      PositiveCursor(t, c);
    }
  }

  lemma SkippedIsNotAMaker(t: Trace, i: nat)
    requires WellRecorded(t) && i < |t.ops| && t.ops[i].Request? && i in t.skipped
    ensures NotAMaker(t, i)
  {
    forall c | c in t.infos ensures t.requestOf[c] != i && t.replyOf[c] != i {
      assert Makes(t, t.requestOf[c], t.ops[t.replyOf[c]].key);
      PositiveCursor(t, c);
    }
  }

  /** What is left of the invariant once the shape is kept. */
  ghost predicate CursorsOk(t: Trace, s: State)
    requires WellRecorded(t)
  {
    PairsOk(t, s) && forall c <- t.infos :: CursorOk(t, s, c)
  }

  lemma DispatchEffect(t: Trace, s: State)
    requires Enabled(t, s, Dispatch)
    ensures var s' := AfterDispatch(t, s);
            && |s.chans| <= |s'.chans| && s'.infos == s.infos && s'.present == s.present && s'.replies == s.replies
            && (forall d: nat :: d < |s.chans| ==> s'.chans[d].cur == s.chans[d].cur)
            && (forall d: nat :: |s.chans| <= d < |s'.chans| ==> s'.chans[d].cur.Idle?)
            && s'.done == if t.ops[s.next].Eof? then s.done + {s.next} else s.done
  {
  }

  lemma DispatchCursors(t: Trace, s: State)
    requires Inv(t, s) && Enabled(t, s, Dispatch)
    ensures CursorsOk(t, AfterDispatch(t, s))
  {
    if t.ops[s.next].Eof? { EofIsNotAMaker(t, s.next); }
    DispatchEffect(t, s);
    QuietStep(t, s, AfterDispatch(t, s), |AfterDispatch(t, s).chans|);
  }

  lemma DispatchInv(t: Trace, s: State)
    requires Inv(t, s) && Enabled(t, s, Dispatch)
    ensures Inv(t, AfterDispatch(t, s))
  {
    DispatchShape(t, s);
    DispatchCursors(t, s);
  }

  lemma TakeInv(t: Trace, s: State, c: nat)
    requires Inv(t, s) && Enabled(t, s, Take(c))
    ensures Inv(t, AfterTake(t, s, c))
  {
    TakeShape(t, s, c);
    assert ChanOk(t, BookOf(s), c, s.chans[c]);
    assert Mine(t, BookOf(s), c, s.chans[c].queue[0]);
    QuietStep(t, s, AfterTake(t, s, c), c);
  }

  lemma SkipInv(t: Trace, s: State, c: nat)
    requires Inv(t, s) && Enabled(t, s, Skip(c))
    ensures Inv(t, Finish(t, s, c))
  {
    FinishShape(t, s, Finish(t, s, c), c);
    assert ChanOk(t, BookOf(s), c, s.chans[c]);
    SkippedIsNotAMaker(t, s.chans[c].cur.i);
    QuietStep(t, s, Finish(t, s, c), c);
  }

  lemma LookEffect(t: Trace, s: State, c: nat)
    requires Enabled(t, s, Look(c))
    ensures var s', i := AfterLook(t, s, c), s.chans[c].cur.i;
            && |s'.chans| == |s.chans| && s'.infos == s.infos && s'.present == s.present && s'.replies == s.replies
            && (forall d: nat :: d < |s.chans| && d != c ==> s'.chans[d].cur == s.chans[d].cur)
            && (s'.chans[c].cur.Busy? ==> s'.chans[c].cur.phase != Handling)
            && s.done <= s'.done <= s.done + {i}
  {
  }

  lemma LookCursors(t: Trace, s: State, c: nat)
    requires Inv(t, s) && Enabled(t, s, Look(c))
    ensures CursorsOk(t, AfterLook(t, s, c))
  {
    assert ChanOk(t, BookOf(s), c, s.chans[c]);
    EofIsNotAMaker(t, s.chans[c].cur.i);
    LookEffect(t, s, c);
    QuietStep(t, s, AfterLook(t, s, c), c);
  }

  lemma LookInv(t: Trace, s: State, c: nat)
    requires Inv(t, s) && Enabled(t, s, Look(c))
    ensures Inv(t, AfterLook(t, s, c))
  {
    LookShape(t, s, c);
    LookCursors(t, s, c);
  }

  lemma ResolveInv(t: Trace, s: State, c: nat, ok: bool)
    requires Inv(t, s) && Enabled(t, s, Resolve(c, ok))
    ensures Inv(t, AfterResolve(t, s, c, ok))
  {
    ResolveShape(t, s, c, ok);
    QuietStep(t, s, AfterResolve(t, s, c, ok), c);
  }

  // ---- a reply is added ----

  lemma AddReplyKeeps(ps: Pairing, key: OpKey, source: Source, cursor: int, k: OpKey)
    ensures var ps' := AddReply(ps, key, source, cursor);
            && (WireIn(ps, k) ==> WireIn(ps', k))
            && (FileIn(ps, k) ==> FileIn(ps', k))
            && (k == key && cursor != 0 ==> if source == FromWire then WireIn(ps', k) else FileIn(ps', k))
            && (k in ps'.complete && k !in ps.complete ==> k == key && cursor != 0)
  {
  }

  lemma AddReplyRecorded(t: Trace, ps: Pairing, key: OpKey, source: Source, cursor: int)
    requires forall k <- ps.incomplete :: Recorded(t, k, ps.incomplete[k].file)
    requires forall k <- ps.complete :: Recorded(t, k, ps.complete[k].file)
    requires source == FromFile && cursor != 0 ==> Recorded(t, key, Got(cursor))
    ensures var ps' := AddReply(ps, key, source, cursor);
            && (forall k <- ps'.incomplete :: Recorded(t, k, ps'.incomplete[k].file))
            && (forall k <- ps'.complete :: Recorded(t, k, ps'.complete[k].file))
  {
  }

  /** The current op of channel c, the request or the first reply of some cursors, hands in
      its half. */
  lemma AddInv(t: Trace, s: State, s': State, c: nat, source: Source, cursor: int)
    requires Inv(t, s) && At(t, s, c) && s.chans[c].cur.phase != Handling && cursor != 0
    requires var op := OpAt(t, s, c);
             && s' == SetPhase(t, s, c, Handling).(replies := AddReply(s.replies, op.key, source, cursor))
             && (if source == FromWire then op.Request? else op.Reply? && op.cursor == cursor)
    ensures PairsOk(t, s') && forall k <- t.infos :: CursorOk(t, s', k)
  {
    var op, i := OpAt(t, s, c), s.chans[c].cur.i;
    AddReplyOk(s.replies, op.key, source, cursor);
    if source == FromFile { assert Carries(t, i); }
    AddReplyRecorded(t, s.replies, op.key, source, cursor);
    forall k | k in t.infos ensures CursorOk(t, s', k) {
      AddCursorOk(t, s, s', c, source, cursor, k);
    }
    forall k | k in s'.replies.complete ensures AboutToHandle(t, s', k) {
      AddReplyKeeps(s.replies, op.key, source, cursor, k);
      if k in s.replies.complete {
        var d: nat, j: nat :| d < |s.chans| && s.chans[d].cur == Busy(j, Handling) && Completes(t, j, k);
        assert s'.chans[d].cur == s.chans[d].cur;
      } else {
        assert s'.chans[c].cur == Busy(i, Handling) && Completes(t, i, k);
      }
    }
  }

  lemma AddCursorOk(t: Trace, s: State, s': State, c: nat, source: Source, cursor: int, k: int)
    requires Inv(t, s) && At(t, s, c) && s.chans[c].cur.phase != Handling && cursor != 0 && k in t.infos
    requires var op := OpAt(t, s, c);
             && s' == SetPhase(t, s, c, Handling).(replies := AddReply(s.replies, op.key, source, cursor))
             && (if source == FromWire then op.Request? else op.Reply?)
    ensures CursorOk(t, s', k)
  {
    var op, i := OpAt(t, s, c), s.chans[c].cur.i;
    assert CursorOk(t, s, k);
    AddReplyKeeps(s.replies, op.key, source, cursor, KeyOf(t, k));
    PastAfterAdd(s, s', c, t.requestOf[k]);
    PastAfterAdd(s, s', c, t.replyOf[k]);
    assert FirstReply(t.ops, k, t.replyOf[k]);
  }

  lemma PastAfterAdd(s: State, s': State, c: nat, i: nat)
    requires c < |s.chans| && s.chans[c].cur.Busy?
    requires s'.done == s.done && s'.chans == s.chans[c := s.chans[c].(cur := Busy(s.chans[c].cur.i, Handling))]
    ensures Past(s', i) ==> Past(s, i) || i == s.chans[c].cur.i
  {
    if Past(s', i) && i !in s'.done {
      var d: nat :| d < |s'.chans| && s'.chans[d].cur == Busy(i, Handling);
      assert d == c || s.chans[d].cur == Busy(i, Handling);
    }
  }

  lemma AddWireInv(t: Trace, s: State, c: nat)
    requires Inv(t, s) && Enabled(t, s, AddWire(c))
    ensures Inv(t, AfterAddWire(t, s, c))
  {
    assert ChanOk(t, BookOf(s), c, s.chans[c]);
    PhaseShape(t, s, AfterAddWire(t, s, c), c, Handling);
    AddInv(t, s, AfterAddWire(t, s, c), c, FromWire, s.chans[c].cur.phase.live);
  }

  lemma AddFileInv(t: Trace, s: State, c: nat)
    requires Inv(t, s) && Enabled(t, s, AddFile(c))
    ensures Inv(t, AfterAddFile(t, s, c))
  {
    PhaseShape(t, s, AfterAddFile(t, s, c), c, Handling);
    if OpAt(t, s, c).cursor == 0 {
      EofIsNotAMaker(t, s.chans[c].cur.i);
      QuietStep(t, s, AfterAddFile(t, s, c), c);
    } else {
      AddInv(t, s, AfterAddFile(t, s, c), c, FromFile, OpAt(t, s, c).cursor);
    }
  }

  // ---- the complete pairs are handled ----

  lemma {:induction false} HandleAllSets(infos: map<int, Info>, present: set<int>, complete: map<OpKey, Pair>,
                                         order: seq<OpKey>, c: int)
    requires forall i: nat :: i < |order| ==> order[i] in complete && complete[order[i]].Full()
    requires forall k <- complete :: Nonzero(complete[k])
    requires c in infos && (infos[c].success ==> infos[c].live != 0)
    ensures var infos' := HandleAll(infos, present, complete, order);
            && c in infos'
            && infos'[c].failed == infos[c].failed && infos'[c].replyConn == infos[c].replyConn
            && (infos[c].success ==> infos'[c] == infos[c])
            && (infos'[c].success ==> infos'[c].live != 0)
            && (c in present && Sets(complete, order, c) ==> infos'[c].success)
  {
    if order != [] {
      var order0 := order[..|order| - 1];
      HandleAllSets(infos, present, complete, order0, c);
      var k := order[|order| - 1];
      assert complete[k].Full();
      assert Nonzero(complete[k]);
      assert Sets(complete, order, c) ==> Sets(complete, order0, c) || complete[k].file == Got(c);
    }
  }

  ghost predicate Sets(complete: map<OpKey, Pair>, order: seq<OpKey>, c: int) {
    exists i: nat :: i < |order| && order[i] in complete && complete[order[i]].file == Got(c)
  }

  lemma HandleCursorOk(t: Trace, s: State, c: nat, order: seq<OpKey>, k: int)
    requires Inv(t, s) && Enabled(t, s, Handle(c, order)) && k in t.infos
    ensures CursorOk(t, AfterHandle(t, s, c, order), k)
  {
    var s' := AfterHandle(t, s, c, order);
    var key := KeyOf(t, k);
    assert CursorOk(t, s, k);
    HandleAllSets(s.infos, s.present, s.replies.complete, order, k);
    PastAfterHandle(t, s, s', c, t.requestOf[k]);
    PastAfterHandle(t, s, s', c, t.replyOf[k]);
    if key in s.replies.complete {
      FileHalfIsCursor(t, s, k);
      var i: nat :| i < |order| && order[i] == key;
      assert Sets(s.replies.complete, order, k);
    }
  }

  lemma FileHalfIsCursor(t: Trace, s: State, c: int)
    requires WellRecorded(t) && PairsOk(t, s) && c in t.infos && KeyOf(t, c) in s.replies.complete
    ensures s.replies.complete[KeyOf(t, c)].file == Got(c)
  {
    var key := KeyOf(t, c);
    var p := s.replies.complete[key];
    assert p.Full();
    assert Recorded(t, key, p.file);
    var j: nat :| Carries(t, j) && t.ops[j].key == key && t.ops[j].cursor == p.file.cursor;
    PositiveCursor(t, c);
    assert FirstReply(t.ops, c, t.replyOf[c]);
    assert SameReply(t, j, t.replyOf[c]);
  }

  lemma PastAfterHandle(t: Trace, s: State, s': State, c: nat, i: nat)
    requires At(t, s, c) && s.chans[c].cur.phase == Handling
    requires s'.done == s.done + {s.chans[c].cur.i} && s'.chans == s.chans[c := s.chans[c].(cur := Idle)]
    ensures Past(s', i) ==> Past(s, i)
  {
    if Past(s', i) && i !in s.done {
      if i == s.chans[c].cur.i {
        assert s.chans[c].cur == Busy(i, Handling);
      } else {
        var d: nat :| d < |s'.chans| && s'.chans[d].cur == Busy(i, Handling);
        assert s.chans[d].cur == Busy(i, Handling);
      }
    }
  }

  lemma HandlePairs(t: Trace, s: State, c: nat, order: seq<OpKey>)
    requires PairsOk(t, s) && Enabled(t, s, Handle(c, order))
    ensures PairsOk(t, AfterHandle(t, s, c, order))
  {
  }

  lemma HandleShape(t: Trace, s: State, c: nat, order: seq<OpKey>)
    requires Shape(t, s) && Enabled(t, s, Handle(c, order))
    ensures Shape(t, AfterHandle(t, s, c, order))
  {
    HandleAllKeys(s.infos, s.present, s.replies.complete, order);
    FinishShape(t, s, AfterHandle(t, s, c, order), c);
  }

  lemma HandleInv(t: Trace, s: State, c: nat, order: seq<OpKey>)
    requires Inv(t, s) && Enabled(t, s, Handle(c, order))
    ensures Inv(t, AfterHandle(t, s, c, order))
  {
    HandleShape(t, s, c, order);
    HandlePairs(t, s, c, order);
    forall k | k in t.infos ensures CursorOk(t, AfterHandle(t, s, c, order), k) {
      HandleCursorOk(t, s, c, order, k);
    }
  }

  // ---- a request is executed ----

  lemma OriginIsKey(t: Trace, c: int)
    requires WellRecorded(t) && c in t.infos
    ensures c in CountersOf(t.ops) && CountersOf(t.ops)[c].origin in t.opToCursors
    ensures CountersOf(t.ops)[c].origin == if OpensWith(t.ops, c, t.replyOf[c]) then KeyOf(t, c) else NO_KEY
  {
    PositiveCursor(t, c);
    CountersSpec(t.ops, c);
    if !OpensWith(t.ops, c, t.replyOf[c]) {
      assert FirstReply(t.ops, c, t.replyOf[c]);
      var u: nat :| u < t.replyOf[c] && t.ops[u].IsUse(c);
      assert UsedEarly(t.ops, c, u);
      EarlyOrigin(t.ops, c);
    }
  }

  lemma KeyIsRequests(t: Trace, c: int)
    requires WellRecorded(t) && c in t.infos
    ensures KeyOf(t, c) != NO_KEY
  {
    assert FirstReply(t.ops, c, t.replyOf[c]);
    assert Makes(t, t.requestOf[c], t.ops[t.replyOf[c]].key);
  }

  /** The entry under a cursor's key is that cursor, unless a use is recorded before its first
      reply. */
  lemma EntryOfKey(t: Trace, c: int)
    requires WellRecorded(t) && c in t.infos && OpensWith(t.ops, c, t.replyOf[c])
    ensures KeyOf(t, c) in t.opToCursors && t.opToCursors[KeyOf(t, c)] == c
  {
    OriginIsKey(t, c);
    KeyIsRequests(t, c);
    var d := t.opToCursors[KeyOf(t, c)];
    OriginIsKey(t, d);
    PositiveCursor(t, c);
    PositiveCursor(t, d);
    assert SameReply(t, t.replyOf[c], t.replyOf[d]);
  }

  /** Only the request of a cursor is looked up under an entry for that cursor. */
  lemma EntryIsRequests(t: Trace, i: nat)
    requires WellRecorded(t) && i < |t.ops| && t.ops[i].Request? && t.ops[i].key in t.opToCursors
    ensures var d := t.opToCursors[t.ops[i].key];
            d in t.infos && t.requestOf[d] == i && OpensWith(t.ops, d, t.replyOf[d])
  {
    var d := t.opToCursors[t.ops[i].key];
    OriginIsKey(t, d);
    assert Makes(t, t.requestOf[d], KeyOf(t, d));
    assert SameRequest(t, i, t.requestOf[d]);
  }

  lemma FailCursor(t: Trace, s: State, c: nat, k: int)
    requires Inv(t, s) && Enabled(t, s, Execute(c, Failed)) && k in t.infos
    ensures CursorOk(t, AfterExecute(t, s, c, Failed), k)
  {
    var s', i := AfterExecute(t, s, c, Failed), s.chans[c].cur.i;
    if OpAt(t, s, c).key in t.opToCursors { EntryIsRequests(t, i); }
    assert CursorOk(t, s, k);
    if OpensWith(t.ops, k, t.replyOf[k]) { EntryOfKey(t, k); }
    assert t.requestOf[k] == i ==> Maker(t, i);
    PastAfterFail(t, s, s', c, t.requestOf[k]);
    PastAfterFail(t, s, s', c, t.replyOf[k]);
    assert FirstReply(t.ops, k, t.replyOf[k]);
  }

  lemma FailPairs(t: Trace, s: State, c: nat)
    requires PairsOk(t, s) && Enabled(t, s, Execute(c, Failed))
    ensures PairsOk(t, AfterExecute(t, s, c, Failed))
  {
    var s' := AfterExecute(t, s, c, Failed);
    forall k | k in s'.replies.complete ensures AboutToHandle(t, s', k) {
      var d: nat, j: nat :| d < |s.chans| && s.chans[d].cur == Busy(j, Handling) && Completes(t, j, k);
      assert s'.chans[d].cur == s.chans[d].cur;
    }
  }

  lemma FailInv(t: Trace, s: State, c: nat)
    requires Inv(t, s) && Enabled(t, s, Execute(c, Failed))
    ensures Inv(t, AfterExecute(t, s, c, Failed))
  {
    ExecuteShape(t, s, c, Failed);
    FailPairs(t, s, c);
    forall k | k in t.infos ensures CursorOk(t, AfterExecute(t, s, c, Failed), k) {
      FailCursor(t, s, c, k);
    }
  }

  lemma PastAfterFail(t: Trace, s: State, s': State, c: nat, i: nat)
    requires At(t, s, c)
    requires s'.done == s.done + {s.chans[c].cur.i} && s'.chans == s.chans[c := s.chans[c].(cur := Idle)]
    ensures Past(s', i) ==> Past(s, i) || i == s.chans[c].cur.i
  {
    if Past(s', i) && i !in s'.done {
      var d: nat :| d < |s'.chans| && s'.chans[d].cur == Busy(i, Handling);
      assert s.chans[d].cur == Busy(i, Handling);
    }
  }

  /** MarkFailed never closes a channel a second time. */
  lemma NeverFailsTwice(t: Trace, s: State, c: nat)
    requires Inv(t, s) && Enabled(t, s, Execute(c, Failed))
    ensures !FailsTwice(s.infos, s.present, t.opToCursors, OpAt(t, s, c).key)
  {
    var i := s.chans[c].cur.i;
    assert ChanOk(t, BookOf(s), c, s.chans[c]);
    if OpAt(t, s, c).key in t.opToCursors {
      EntryIsRequests(t, i);
      assert CursorOk(t, s, t.opToCursors[OpAt(t, s, c).key]);
    }
  }

  lemma ExecuteInv(t: Trace, s: State, c: nat, outcome: Outcome)
    requires Inv(t, s) && Enabled(t, s, Execute(c, outcome))
    ensures Inv(t, AfterExecute(t, s, c, outcome))
  {
    if outcome.Failed? {
      FailInv(t, s, c);
    } else {
      ExecuteShape(t, s, c, outcome);
      var i := s.chans[c].cur.i;
      assert ChanOk(t, BookOf(s), c, s.chans[c]);
      if AfterExecute(t, s, c, outcome).chans[c].cur.phase == Handling {
        forall k | k in t.infos ensures t.requestOf[k] != i && t.replyOf[k] != i {
          assert k in t.requestOf;
          assert FirstReply(t.ops, k, t.replyOf[k]);
        }
      }
      QuietStep(t, s, AfterExecute(t, s, c, outcome), c);
    }
  }

  // ---- all steps ----

  lemma StartInv(t: Trace)
    requires WellRecorded(t)
    ensures Inv(t, Start(t))
  {
    StartShape(t);
  }

  lemma StepInv(t: Trace, s: State, l: Label)
    requires Inv(t, s) && Enabled(t, s, l)
    ensures Inv(t, After(t, s, l))
  {
    match l
    case Dispatch => DispatchInv(t, s);
    case Take(c) => TakeInv(t, s, c);
    case Skip(c) => SkipInv(t, s, c);
    case Look(c) => LookInv(t, s, c);
    case Resolve(c, ok) => ResolveInv(t, s, c, ok);
    case Execute(c, outcome) => ExecuteInv(t, s, c, outcome);
    case AddWire(c) => AddWireInv(t, s, c);
    case AddFile(c) => AddFileInv(t, s, c);
    case Handle(c, order) => HandleInv(t, s, c, order);
  }

  lemma {:induction false} ReachableInv(t: Trace, s: State, ls: seq<Label>, s': State)
    requires Inv(t, s) && Reaches(t, s, ls, s')
    ensures Inv(t, s')
    decreases |ls|
  {
    if ls != [] {
      StepInv(t, s, ls[0]);
      ReachableInv(t, After(t, s, ls[0]), ls[1..], s');
    }
  }
}
