/** A knot in a recording gets playback stuck, with a server that answers every request that
    makes a cursor waited for. */
module PlaybackTied {
  import opened Collections
  import opened Cursors
  import opened Execution
  import opened Playback
  import opened PlaybackShape
  import opened PlaybackProgress
  import opened PlaybackRuns
  import opened PlaybackFates
  import opened PlaybackSessions
  import opened PlaybackKnots

  /** The server gives a cursor to whoever makes one that is waited for, and fails the rest. */
  function Answering(t: Trace): Fate {
    (i: nat) => if Maker(t, i) then Replied(1) else Failed
  }

  /** The op of `left` that is current has not got past a cursor that is held up. */
  ghost predicate CurTied(t: Trace, n: nat, left: set<nat>, cur: Current) {
    && (cur.Busy? && cur.phase.AddingWire? ==> Maker(t, cur.i))
    && (cur.Busy? && cur.i in left ==>
          && (cur.phase.Looking? || cur.phase.Waiting?)
          && exists k: nat, c: int :: TiedAt(t, n, left, cur, k, c))
  }

  predicate TiedAt(t: Trace, n: nat, left: set<nat>, cur: Current, k: nat, c: int)
    requires cur.Busy? && (cur.phase.Looking? || cur.phase.Waiting?)
  {
    c in t.infos && Asks(t, cur.i, k, c) && HeldUp(t, n, left, c) && |cur.phase.got| <= k
  }

  predicate NotYet(s: State, c: int) {
    c in s.infos && !s.infos[c].success && !s.infos[c].failed && c in s.present
  }

  ghost predicate WirePast(t: Trace, s: State, k: OpKey)
    requires WellRecorded(t)
  {
    exists c <- t.infos :: KeyOf(t, c) == k && Past(s, t.requestOf[c])
  }

  ghost predicate FilePast(t: Trace, s: State, k: OpKey, cursor: int) {
    exists j: nat :: Carries(t, j) && t.ops[j].key == k && t.ops[j].cursor == cursor && Past(s, j)
  }

  ghost predicate PairPast(t: Trace, s: State, k: OpKey, p: Pair)
    requires WellRecorded(t)
  {
    (p.wire.Got? ==> WirePast(t, s, k)) && (p.file.Got? ==> FilePast(t, s, k, p.file.cursor))
  }

  /** The halves of the pairs come from ops that are past. */
  ghost predicate PairsPast(t: Trace, s: State)
    requires WellRecorded(t)
  {
    && (forall k <- s.replies.incomplete :: PairPast(t, s, k, s.replies.incomplete[k]))
    && (forall k <- s.replies.complete :: PairPast(t, s, k, s.replies.complete[k]))
  }

  ghost predicate Tied(t: Trace, n: nat, left: set<nat>, s: State)
    requires WellRecorded(t)
  {
    && (n < |t.ops| ==> s.next <= n)
    && (forall b <- left :: b !in s.done)
    && (forall d: nat :: d < |s.chans| ==> CurTied(t, n, left, s.chans[d].cur))
    && (forall c <- t.infos :: HeldUp(t, n, left, c) ==> NotYet(s, c))
    && PairsPast(t, s)
  }

  lemma StartTied(t: Trace, n: nat, left: set<nat>)
    requires WellRecorded(t)
    ensures Tied(t, n, left, Start(t))
  {
    forall c | c in t.infos ensures NotYet(Start(t), c) {
      NotKnownAtStart(t, c);
    }
  }

  lemma AwayNotPast(t: Trace, n: nat, left: set<nat>, s: State, i: nat)
    requires Inv(t, s) && Knot(t, n, left) && Tied(t, n, left, s) && i < |t.ops| && Away(n, left, i)
    ensures !Past(s, i)
  {
    forall d: nat | d < |s.chans| ensures s.chans[d].cur != Busy(i, Handling) {
      assert ChanOk(t, BookOf(s), d, s.chans[d]) && CurTied(t, n, left, s.chans[d].cur);
    }
  }

  /** The two ops that would make a cursor known are not both past if it is held up. */
  lemma HeldUpNotPast(t: Trace, n: nat, left: set<nat>, s: State, c: int)
    requires Inv(t, s) && Knot(t, n, left) && Tied(t, n, left, s) && c in t.infos && HeldUp(t, n, left, c)
    ensures !Past(s, t.requestOf[c]) || !Past(s, t.replyOf[c])
  {
    assert Makes(t, t.requestOf[c], KeyOf(t, c)) && FirstReply(t.ops, c, t.replyOf[c]);
    AwayNotPast(t, n, left, s, if Away(n, left, t.requestOf[c]) then t.requestOf[c] else t.replyOf[c]);
  }

  /** What is past stays past. */
  lemma PastStays(t: Trace, s: State, s': State, c: nat, i: nat)
    requires Past(s, i) && s.done <= s'.done && |s.chans| <= |s'.chans|
    requires forall d: nat :: d < |s.chans| && d != c ==> s'.chans[d].cur == s.chans[d].cur
    requires c < |s.chans| && s.chans[c].cur.Busy? && s.chans[c].cur.phase == Handling ==> s.chans[c].cur.i in s'.done
    ensures Past(s', i)
  {
    if i !in s.done {
      var d: nat :| d < |s.chans| && s.chans[d].cur == Busy(i, Handling);
      assert d == c || s'.chans[d].cur == Busy(i, Handling);
    }
  }

  lemma PairStays(t: Trace, s: State, s': State, c: nat, k: OpKey, p: Pair)
    requires WellRecorded(t) && PairPast(t, s, k, p) && s.done <= s'.done && |s.chans| <= |s'.chans|
    requires forall d: nat :: d < |s.chans| && d != c ==> s'.chans[d].cur == s.chans[d].cur
    requires c < |s.chans| && s.chans[c].cur.Busy? && s.chans[c].cur.phase == Handling ==> s.chans[c].cur.i in s'.done
    ensures PairPast(t, s', k, p)
  {
    if p.wire.Got? {
      var cursor: int :| cursor in t.infos && KeyOf(t, cursor) == k && Past(s, t.requestOf[cursor]);
      PastStays(t, s, s', c, t.requestOf[cursor]);
    }
    if p.file.Got? {
      var j: nat :| Carries(t, j) && t.ops[j].key == k && t.ops[j].cursor == p.file.cursor && Past(s, j);
      PastStays(t, s, s', c, j);
    }
  }

  /** A step of channel c that adds no reply. */
  lemma PairsStay(t: Trace, s: State, s': State, c: nat)
    requires WellRecorded(t) && PairsPast(t, s) && s.done <= s'.done && |s.chans| <= |s'.chans|
    requires forall d: nat :: d < |s.chans| && d != c ==> s'.chans[d].cur == s.chans[d].cur
    requires c < |s.chans| && s.chans[c].cur.Busy? && s.chans[c].cur.phase == Handling ==> s.chans[c].cur.i in s'.done
    requires s'.replies == s.replies || (s'.replies.incomplete == s.replies.incomplete && s'.replies.complete == map[])
    ensures PairsPast(t, s')
  {
    forall k | k in s'.replies.incomplete ensures PairPast(t, s', k, s'.replies.incomplete[k]) {
      PairStays(t, s, s', c, k, s.replies.incomplete[k]);
    }
    forall k | k in s'.replies.complete ensures PairPast(t, s', k, s'.replies.complete[k]) {
      PairStays(t, s, s', c, k, s.replies.complete[k]);
    }
  }

  // ---- the dispatcher ----

  lemma FellowsInChannel(t: Trace, n: nat, left: set<nat>, s: State)
    requires Inv(t, s) && SameChannel(t, s) && NextChannel(t, s) && Knot(t, n, left) && Tied(t, n, left, s)
    requires s.next == n < |t.ops|
    ensures t.ops[n].conn in s.route
    ensures var d := s.route[t.ops[n].conn];
            d < |s.chans| && forall b <- Fellows(t, left, n) :: InChan(s.chans[d], b)
  {
    forall b | b in Fellows(t, left, n)
      ensures t.ops[n].conn in s.route && InChan(s.chans[s.route[t.ops[n].conn]], b)
    {
      assert Located(s, b);
    }
    var b := AnElement(Fellows(t, left, n));
  }

  lemma InChanSize(ch: Chan, some: set<nat>)
    requires forall b <- some :: InChan(ch, b)
    ensures |some| <= |ch.queue| + 1
  {
    var all := ch.queue + if ch.cur.Busy? then [ch.cur.i] else [];
    ElementsBound(all);
    forall b | b in some ensures b in Elements(all) {
      assert b in all;
    }
    SubsetSize(some, Elements(all));
  }

  lemma DispatchBlocked(t: Trace, n: nat, left: set<nat>, s: State)
    requires Inv(t, s) && SameChannel(t, s) && NextChannel(t, s) && Knot(t, n, left) && Tied(t, n, left, s)
    requires Enabled(t, s, Dispatch)
    ensures n < |t.ops| ==> s.next < n
  {
    if s.next == n < |t.ops| {
      FellowsInChannel(t, n, left, s);
      InChanSize(s.chans[s.route[t.ops[n].conn]], Fellows(t, left, n));
    }
  }

  lemma DispatchTied(t: Trace, n: nat, left: set<nat>, s: State)
    requires Inv(t, s) && SameChannel(t, s) && NextChannel(t, s) && Knot(t, n, left) && Tied(t, n, left, s)
    requires Enabled(t, s, Dispatch)
    ensures Tied(t, n, left, AfterDispatch(t, s))
  {
    var s' := AfterDispatch(t, s);
    DispatchBlocked(t, n, left, s);
    DispatchEffect(t, s);
    PairsStay(t, s, s', |s'.chans|);
    forall d: nat | d < |s'.chans| ensures CurTied(t, n, left, s'.chans[d].cur) {
      if d < |s.chans| { assert CurTied(t, n, left, s.chans[d].cur); }
    }
  }

  // ---- a connection ----

  /** A step of channel c that leaves the pairs and the entries of cursors held up alone. */
  lemma StepTied(t: Trace, n: nat, left: set<nat>, s: State, s': State, c: nat)
    requires Knot(t, n, left) && WellRecorded(t) && Tied(t, n, left, s) && c < |s.chans| == |s'.chans| && s'.next == s.next
    requires forall d: nat :: d < |s.chans| && d != c ==> s'.chans[d].cur == s.chans[d].cur
    requires CurTied(t, n, left, s'.chans[c].cur)
    requires s'.done == s.done ||
             (s.chans[c].cur.Busy? && s.chans[c].cur.i !in left && s'.done == s.done + {s.chans[c].cur.i})
    requires forall k <- t.infos :: HeldUp(t, n, left, k) ==> NotYet(s', k)
    requires PairsPast(t, s')
    ensures Tied(t, n, left, s')
  {
    forall d: nat | d < |s'.chans| ensures CurTied(t, n, left, s'.chans[d].cur) {
      assert CurTied(t, n, left, s.chans[d].cur);
    }
  }

  /** An op that is taken is not behind one that is left, so it waits for a cursor. */
  lemma TakenWaits(t: Trace, n: nat, left: set<nat>, s: State, d: nat)
    requires Inv(t, s) && SameChannel(t, s) && Knot(t, n, left) && Tied(t, n, left, s) && Enabled(t, s, Take(d))
    requires s.chans[d].queue[0] in left
    ensures WaitsFor(t, n, left, s.chans[d].queue[0])
  {
    var i := s.chans[d].queue[0];
    assert ChanOk(t, BookOf(s), d, s.chans[d]);
    assert Mine(t, BookOf(s), d, i);
    forall a | a in left && SessionOf(t.ops, a) == SessionOf(t.ops, i) ensures i <= a {
      if a < s.next {
        assert Located(s, a);
        var k: nat :| k < |s.chans[d].queue| && s.chans[d].queue[k] == a;
      }
    }
    assert !Behind(t, left, i);
  }

  lemma TakeTied(t: Trace, n: nat, left: set<nat>, s: State, d: nat)
    requires Inv(t, s) && SameChannel(t, s) && Knot(t, n, left) && Tied(t, n, left, s) && Enabled(t, s, Take(d))
    ensures Tied(t, n, left, AfterTake(t, s, d))
  {
    var s', i := AfterTake(t, s, d), s.chans[d].queue[0];
    if i in left {
      TakenWaits(t, n, left, s, d);
      var c :| c in t.infos && MayWait(t, i, c) && HeldUp(t, n, left, c);
      var k: nat :| k < |t.ops[i].uses| && t.ops[i].uses[k] == c;
      assert TiedAt(t, n, left, s'.chans[d].cur, k, c);
    }
    PairsStay(t, s, s', d);
    StepTied(t, n, left, s, s', d);
  }

  lemma SkipTied(t: Trace, n: nat, left: set<nat>, s: State, d: nat)
    requires WellRecorded(t) && Knot(t, n, left) && Tied(t, n, left, s) && Enabled(t, s, Skip(d))
    ensures Tied(t, n, left, Finish(t, s, d))
  {
    assert CurTied(t, n, left, s.chans[d].cur);
    PairsStay(t, s, Finish(t, s, d), d);
    StepTied(t, n, left, s, Finish(t, s, d), d);
  }

  /** GetCursor does not get past a cursor that is held up. */
  lemma LookCurTied(t: Trace, n: nat, left: set<nat>, s: State, d: nat)
    requires WellRecorded(t) && Tied(t, n, left, s) && ConnsKept(t, s.infos) && Enabled(t, s, Look(d))
    ensures CurTied(t, n, left, AfterLook(t, s, d).chans[d].cur)
    ensures s.chans[d].cur.i in left ==> AfterLook(t, s, d).done == s.done
  {
    var cur := s.chans[d].cur;
    assert CurTied(t, n, left, cur);
    if cur.i in left {
      var k: nat, c: int :| TiedAt(t, n, left, cur, k, c);
      assert NotYet(s, c);
      assert TiedAt(t, n, left, AfterLook(t, s, d).chans[d].cur, k, c);
    }
  }

  lemma LookTied(t: Trace, n: nat, left: set<nat>, s: State, d: nat)
    requires WellRecorded(t) && Knot(t, n, left) && Tied(t, n, left, s) && ConnsKept(t, s.infos)
    requires Enabled(t, s, Look(d))
    ensures Tied(t, n, left, AfterLook(t, s, d))
  {
    LookCurTied(t, n, left, s, d);
    LookEffect(t, s, d);
    PairsStay(t, s, AfterLook(t, s, d), d);
    StepTied(t, n, left, s, AfterLook(t, s, d), d);
  }

  lemma ResolveCurTied(t: Trace, n: nat, left: set<nat>, s: State, d: nat, ok: bool)
    requires WellRecorded(t) && Tied(t, n, left, s) && Enabled(t, s, Resolve(d, ok))
    ensures CurTied(t, n, left, AfterResolve(t, s, d, ok).chans[d].cur)
  {
    var cur := s.chans[d].cur;
    assert CurTied(t, n, left, cur);
    if cur.i in left {
      var k: nat, c: int :| TiedAt(t, n, left, cur, k, c);
      assert NotYet(s, c);
      assert TiedAt(t, n, left, AfterResolve(t, s, d, ok).chans[d].cur, k, c);
    }
  }

  lemma ResolveTied(t: Trace, n: nat, left: set<nat>, s: State, d: nat, ok: bool)
    requires WellRecorded(t) && Knot(t, n, left) && Tied(t, n, left, s) && Enabled(t, s, Resolve(d, ok))
    ensures Tied(t, n, left, AfterResolve(t, s, d, ok))
  {
    var s' := AfterResolve(t, s, d, ok);
    ResolveCurTied(t, n, left, s, d, ok);
    forall c | c in t.infos && HeldUp(t, n, left, c) ensures NotYet(s', c) {
      assert NotYet(s, c);
    }
    PairsStay(t, s, s', d);
    StepTied(t, n, left, s, s', d);
  }

  /** What fails is not looked up for any cursor. */
  lemma FailTied(t: Trace, n: nat, left: set<nat>, s: State, d: nat)
    requires WellRecorded(t) && Knot(t, n, left) && Tied(t, n, left, s) && Enabled(t, s, Execute(d, Failed))
    requires !Maker(t, s.chans[d].cur.i)
    ensures Tied(t, n, left, AfterExecute(t, s, d, Failed))
  {
    var s' := AfterExecute(t, s, d, Failed);
    assert CurTied(t, n, left, s.chans[d].cur);
    if OpAt(t, s, d).key in t.opToCursors { EntryIsRequests(t, s.chans[d].cur.i); }
    assert s'.infos == s.infos;
    PairsStay(t, s, s', d);
    StepTied(t, n, left, s, s', d);
  }

  lemma AnswerTied(t: Trace, n: nat, left: set<nat>, s: State, d: nat)
    requires WellRecorded(t) && Knot(t, n, left) && Tied(t, n, left, s) && Enabled(t, s, Execute(d, Replied(1)))
    requires Maker(t, s.chans[d].cur.i)
    ensures Tied(t, n, left, AfterExecute(t, s, d, Replied(1)))
  {
    var s' := AfterExecute(t, s, d, Replied(1));
    assert CurTied(t, n, left, s.chans[d].cur);
    PairsStay(t, s, s', d);
    StepTied(t, n, left, s, s', d);
  }

  // ---- replies ----

  lemma AddedPast(t: Trace, s: State, s': State, d: nat, source: Source, cursor: int)
    requires WellRecorded(t) && PairsPast(t, s) && At(t, s, d) && !OpAt(t, s, d).Eof? && cursor != 0
    requires s.chans[d].cur.phase != Handling
    requires var op := OpAt(t, s, d);
             && s' == SetPhase(t, s, d, Handling).(replies := AddReply(s.replies, op.key, source, cursor))
             && if source == FromWire then WirePast(t, s', op.key) else FilePast(t, s', op.key, cursor)
    ensures PairsPast(t, s')
  {
    forall k | k in s.replies.incomplete ensures PairPast(t, s', k, s.replies.incomplete[k]) {
      PairStays(t, s, s', d, k, s.replies.incomplete[k]);
    }
    forall k | k in s.replies.complete ensures PairPast(t, s', k, s.replies.complete[k]) {
      PairStays(t, s, s', d, k, s.replies.complete[k]);
    }
  }

  lemma AddWirePast(t: Trace, s: State, d: nat)
    requires Inv(t, s) && Enabled(t, s, AddWire(d)) && Maker(t, s.chans[d].cur.i)
    ensures WirePast(t, AfterAddWire(t, s, d), OpAt(t, s, d).key)
  {
    var i := s.chans[d].cur.i;
    var c :| c in t.requestOf && t.requestOf[c] == i;
    assert Makes(t, i, KeyOf(t, c));
    assert AfterAddWire(t, s, d).chans[d].cur == Busy(i, Handling);
  }

  lemma AddWireTied(t: Trace, n: nat, left: set<nat>, s: State, d: nat)
    requires Inv(t, s) && Knot(t, n, left) && Tied(t, n, left, s) && Enabled(t, s, AddWire(d))
    ensures Tied(t, n, left, AfterAddWire(t, s, d))
  {
    var s' := AfterAddWire(t, s, d);
    assert CurTied(t, n, left, s.chans[d].cur) && ChanOk(t, BookOf(s), d, s.chans[d]);
    AddWirePast(t, s, d);
    AddedPast(t, s, s', d, FromWire, s.chans[d].cur.phase.live);
    StepTied(t, n, left, s, s', d);
  }

  lemma AddFileTied(t: Trace, n: nat, left: set<nat>, s: State, d: nat)
    requires Inv(t, s) && Knot(t, n, left) && Tied(t, n, left, s) && Enabled(t, s, AddFile(d))
    ensures Tied(t, n, left, AfterAddFile(t, s, d))
  {
    var s', i := AfterAddFile(t, s, d), s.chans[d].cur.i;
    assert CurTied(t, n, left, s.chans[d].cur);
    assert s'.chans[d].cur == Busy(i, Handling);
    if OpAt(t, s, d).cursor == 0 {
      PairsStay(t, s, s', d);
    } else {
      assert Carries(t, i) && Past(s', i);
      AddedPast(t, s, s', d, FromFile, OpAt(t, s, d).cursor);
    }
    StepTied(t, n, left, s, s', d);
  }

  lemma {:induction false} HandleAllSkips(infos: map<int, Info>, present: set<int>, complete: map<OpKey, Pair>,
                                          order: seq<OpKey>, c: int)
    requires forall i: nat :: i < |order| ==> order[i] in complete && complete[order[i]].Full()
    requires c in infos && forall k <- complete :: complete[k].file != Got(c)
    ensures var infos' := HandleAll(infos, present, complete, order);
            c in infos' && infos'[c] == infos[c]
  {
    if order != [] {
      HandleAllSkips(infos, present, complete, order[..|order| - 1], c);
      assert complete[order[|order| - 1]].Full();
    }
  }

  /** No complete pair is for a cursor that is held up. */
  lemma NoPairFor(t: Trace, n: nat, left: set<nat>, s: State, c: int, k: OpKey)
    requires Inv(t, s) && Knot(t, n, left) && Tied(t, n, left, s) && c in t.infos && HeldUp(t, n, left, c)
    requires k in s.replies.complete
    ensures s.replies.complete[k].file != Got(c)
  {
    var p := s.replies.complete[k];
    assert p.Full() && PairPast(t, s, k, p);
    if p.file == Got(c) {
      var a: int :| a in t.infos && KeyOf(t, a) == k && Past(s, t.requestOf[a]);
      var j: nat :| Carries(t, j) && t.ops[j].key == k && t.ops[j].cursor == c && Past(s, j);
      PositiveCursor(t, a);
      assert FirstReply(t.ops, a, t.replyOf[a]);
      assert SameReply(t, j, t.replyOf[a]);
      HeldUpNotPast(t, n, left, s, c);
    }
  }

  lemma HandleNotYet(t: Trace, n: nat, left: set<nat>, s: State, d: nat, order: seq<OpKey>, c: int)
    requires Inv(t, s) && Knot(t, n, left) && Tied(t, n, left, s) && Enabled(t, s, Handle(d, order))
    requires c in t.infos && HeldUp(t, n, left, c)
    ensures NotYet(AfterHandle(t, s, d, order), c)
  {
    assert NotYet(s, c);
    forall k | k in s.replies.complete ensures s.replies.complete[k].file != Got(c) {
      NoPairFor(t, n, left, s, c, k);
    }
    HandleAllSkips(s.infos, s.present, s.replies.complete, order, c);
  }

  /** What a Handle step changes besides the entries of cursors. */
  lemma HandleEffect(t: Trace, s: State, d: nat, order: seq<OpKey>)
    requires Enabled(t, s, Handle(d, order))
    ensures var s', i := AfterHandle(t, s, d, order), s.chans[d].cur.i;
            && |s'.chans| == |s.chans| && s'.next == s.next && s'.done == s.done + {i} && s'.chans[d].cur.Idle?
            && (forall e: nat :: e < |s.chans| && e != d ==> s'.chans[e].cur == s.chans[e].cur)
            && s'.replies.incomplete == s.replies.incomplete && s'.replies.complete == map[]
  {
  }

  lemma HandleTied(t: Trace, n: nat, left: set<nat>, s: State, d: nat, order: seq<OpKey>)
    requires Inv(t, s) && Knot(t, n, left) && Tied(t, n, left, s) && Enabled(t, s, Handle(d, order))
    ensures Tied(t, n, left, AfterHandle(t, s, d, order))
  {
    var s' := AfterHandle(t, s, d, order);
    assert CurTied(t, n, left, s.chans[d].cur);
    HandleEffect(t, s, d, order);
    forall c | c in t.infos && HeldUp(t, n, left, c) ensures NotYet(s', c) {
      HandleNotYet(t, n, left, s, d, order, c);
    }
    PairsStay(t, s, s', d);
    StepTied(t, n, left, s, s', d);
  }

  // ---- whole runs ----

  lemma ReplyTied(t: Trace, n: nat, left: set<nat>, s: State, l: Label)
    requires Inv(t, s) && Knot(t, n, left) && Tied(t, n, left, s) && Enabled(t, s, l)
    requires l.AddWire? || l.AddFile? || l.Handle?
    ensures Tied(t, n, left, After(t, s, l))
  {
    match l
    case AddWire(d) => AddWireTied(t, n, left, s, d);
    case AddFile(d) => AddFileTied(t, n, left, s, d);
    case Handle(d, order) => HandleTied(t, n, left, s, d, order);
  }

  lemma AnyStepTied(t: Trace, n: nat, left: set<nat>, s: State, l: Label)
    requires Inv(t, s) && ConnsKept(t, s.infos) && SameChannel(t, s) && NextChannel(t, s)
    requires Knot(t, n, left) && Tied(t, n, left, s) && Fated(t, Answering(t), s, l)
    ensures Tied(t, n, left, After(t, s, l))
  {
    if l.AddWire? || l.AddFile? || l.Handle? {
      ReplyTied(t, n, left, s, l);
    } else {
      match l
      case Dispatch => DispatchTied(t, n, left, s);
      case Take(d) => TakeTied(t, n, left, s, d);
      case Skip(d) => SkipTied(t, n, left, s, d);
      case Look(d) => LookTied(t, n, left, s, d);
      case Resolve(d, ok) => ResolveTied(t, n, left, s, d, ok);
      case Execute(d, _) =>
        if Maker(t, s.chans[d].cur.i) { AnswerTied(t, n, left, s, d); } else { FailTied(t, n, left, s, d); }
    }
  }

  lemma {:induction false} RunTied(t: Trace, n: nat, left: set<nat>, ls0: seq<Label>, s: State, ls: seq<Label>, s': State)
    requires WellRecorded(t) && Knot(t, n, left) && Reaches(t, Start(t), ls0, s) && Tied(t, n, left, s)
    requires FatedRun(t, Answering(t), s, ls, s')
    ensures Tied(t, n, left, s')
    decreases |ls|
  {
    if ls != [] {
      StartInv(t);
      ReachableInv(t, Start(t), ls0, s);
      ReachableWaits(t, Start(t), ls0, s);
      ChannelsAreSessions(t, ls0, s);
      AnyStepTied(t, n, left, s, ls[0]);
      ReachesSnoc(t, Start(t), ls0, s, ls[0]);
      RunTied(t, n, left, ls0 + [ls[0]], After(t, s, ls[0]), ls[1..], s');
    }
  }

  /** A knot in the recording is a schedule that gets stuck, without a request failing that
      makes a cursor waited for. */
  lemma KnotGetsStuck(t: Trace, n: nat, left: set<nat>) returns (ls: seq<Label>, s: State)
    requires WellRecorded(t) && Knot(t, n, left)
    ensures Reaches(t, Start(t), ls, s) && Stuck(t, s) && !AllPlayed(t, s)
    ensures FatedRun(t, Answering(t), Start(t), ls, s) && forall b <- left :: b !in s.done
  {
    ls, s := PlaysOn(t, Answering(t), Start(t));
    FatedReaches(t, Answering(t), Start(t), ls, s);
    StartTied(t, n, left);
    RunTied(t, n, left, [], Start(t), ls, s);
    StartInv(t);
    ReachableInv(t, Start(t), ls, s);
    var b := AnElement(left);
    if AllPlayed(t, s) { PlayedMeansDone(t, s); }
  }
}
