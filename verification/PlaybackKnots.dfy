/** What it takes for playback to get stuck when every request is answered: a set of ops that
    keep each other waiting. */
module PlaybackKnots {
  import opened Collections
  import opened Playback
  import opened PlaybackShape
  import opened PlaybackProgress
  import opened PlaybackRuns
  import opened PlaybackFates
  import opened PlaybackSessions

  /** Op i is not played if the ops in `left` are not, nor those from n on. */
  predicate Away(n: nat, left: set<nat>, i: nat) {
    i >= n || i in left
  }

  /** Without those ops the cursor does not become known. */
  predicate HeldUp(t: Trace, n: nat, left: set<nat>, c: int) {
    (c in t.requestOf && Away(n, left, t.requestOf[c])) || (c in t.replyOf && Away(n, left, t.replyOf[c]))
  }

  /** An earlier op of the same session is left. */
  predicate Behind(t: Trace, left: set<nat>, b: nat) {
    b < |t.ops| && exists a <- left :: a < b && SessionOf(t.ops, a) == SessionOf(t.ops, b)
  }

  predicate WaitsFor(t: Trace, n: nat, left: set<nat>, b: nat) {
    exists c <- t.infos :: MayWait(t, b, c) && HeldUp(t, n, left, c)
  }

  /** The ops left that are of the session of op n. */
  function Fellows(t: Trace, left: set<nat>, n: nat): set<nat>
    requires n < |t.ops|
  {
    set b <- left | b < |t.ops| && SessionOf(t.ops, b) == SessionOf(t.ops, n)
  }

  /** The ops in `left`, all before n, wait for each other or for ops from n on: behind another
      in its session, or for a cursor whose request or first reply is among them.  If there is
      an op n, the dispatcher waits for them too: they are more than fit into the queue that op
      n goes to. */
  ghost predicate Knot(t: Trace, n: nat, left: set<nat>) {
    && n <= |t.ops| && left != {}
    && (forall b <- left :: b < n && !t.ops[b].Eof?)
    && (forall b <- left :: Behind(t, left, b) || WaitsFor(t, n, left, b))
    && (n < |t.ops| ==> !t.ops[n].Eof? && |Fellows(t, left, n)| > t.cap)
  }

  // ---- a stuck state is a knot ----

  /** A failure of the request of a cursor that an op may wait for would be noted. */
  predicate AllListed(t: Trace)
    requires t.replyOf.Keys == t.infos.Keys
  {
    forall c <- t.infos, u: nat | u < |t.ops| :: MayWait(t, u, c) ==> Listed(t, c)
  }

  lemma StuckPhase(t: Trace, s: State, d: nat)
    requires Inv(t, s) && Stuck(t, s) && d < |s.chans| && s.chans[d].cur.Busy?
    ensures s.chans[d].cur.phase.Waiting?
  {
    if !s.chans[d].cur.phase.Waiting? { var l := PhaseMoves(t, s, d); }
  }

  lemma StuckIdle(t: Trace, s: State, d: nat)
    requires Inv(t, s) && Stuck(t, s) && d < |s.chans| && s.chans[d].cur.Idle?
    ensures s.chans[d].queue == []
  {
    if s.chans[d].queue != [] { TakeMoves(t, s, d); }
  }

  function LeftIn(s: State): set<nat> {
    set i | 0 <= i < s.next && i !in s.done
  }

  /** Whoever waits in a stuck state waits for one of the ops left. */
  lemma StuckWaits(t: Trace, s: State, d: nat)
    requires Inv(t, s) && WaitsOk(t, s) && Stuck(t, s) && AllListed(t) && d < |s.chans| && s.chans[d].cur.Busy?
    ensures WaitsFor(t, s.next, LeftIn(s), s.chans[d].cur.i)
  {
    StuckPhase(t, s, d);
    assert WaitOk(t, s.infos, s.chans[d]);
    var i, got := s.chans[d].cur.i, s.chans[d].cur.phase.got;
    var c := t.ops[i].uses[|got|];
    assert !Enabled(t, s, Resolve(d, true)) && !Enabled(t, s, Resolve(d, false));
    assert MayWait(t, i, c);
    if t.requestOf[c] in s.done && t.replyOf[c] in s.done { PlayedMeansSettled(t, s, c); }
    assert HeldUp(t, s.next, LeftIn(s), c);
  }

  lemma StuckOp(t: Trace, s: State, b: nat)
    requires Inv(t, s) && WaitsOk(t, s) && SameChannel(t, s) && Stuck(t, s) && AllListed(t) && b in LeftIn(s)
    ensures !t.ops[b].Eof? && (Behind(t, LeftIn(s), b) || WaitsFor(t, s.next, LeftIn(s), b))
  {
    assert Located(s, b);
    var d := s.home[b];
    if s.chans[d].cur.Idle? { StuckIdle(t, s, d); }
    assert ChanOk(t, BookOf(s), d, s.chans[d]);
    var a := s.chans[d].cur.i;
    assert Mine(t, BookOf(s), d, a) && a in LeftIn(s);
    if a == b {
      StuckWaits(t, s, d);
    } else {
      var k: nat :| k < |s.chans[d].queue| && s.chans[d].queue[k] == b;
      assert Mine(t, BookOf(s), d, b);
    }
  }

  /** The dispatcher finds a full queue. */
  lemma StuckDispatch(t: Trace, s: State)
    requires Inv(t, s) && Stuck(t, s) && s.next < |t.ops|
    ensures !t.ops[s.next].Eof? && t.ops[s.next].conn in s.route
    ensures |s.chans[s.route[t.ops[s.next].conn]].queue| >= t.cap
  {
    assert !Enabled(t, s, Dispatch);
  }

  lemma StuckQueue(t: Trace, s: State, d: nat)
    requires Inv(t, s) && Stuck(t, s) && d < |s.chans| && s.chans[d].queue != []
    ensures s.chans[d].cur.Busy?
    ensures var all := [s.chans[d].cur.i] + s.chans[d].queue;
            |Elements(all)| == |all| && forall i <- Elements(all) :: Mine(t, BookOf(s), d, i)
  {
    if s.chans[d].cur.Idle? { StuckIdle(t, s, d); }
    assert ChanOk(t, BookOf(s), d, s.chans[d]);
    var all := [s.chans[d].cur.i] + s.chans[d].queue;
    DistinctSize(all);
    forall i | i in Elements(all) ensures Mine(t, BookOf(s), d, i) {
      var k: nat :| k < |all| && all[k] == i;
    }
  }

  lemma StuckFellows(t: Trace, s: State)
    requires Inv(t, s) && SameChannel(t, s) && NextChannel(t, s) && Stuck(t, s) && s.next < |t.ops|
    ensures !t.ops[s.next].Eof? && |Fellows(t, LeftIn(s), s.next)| > t.cap
  {
    StuckDispatch(t, s);
    var d := s.route[t.ops[s.next].conn];
    StuckQueue(t, s, d);
    var all := [s.chans[d].cur.i] + s.chans[d].queue;
    forall i | i in Elements(all) ensures i in Fellows(t, LeftIn(s), s.next) {
      assert Mine(t, BookOf(s), d, i);
    }
    SubsetSize(Elements(all), Fellows(t, LeftIn(s), s.next));
  }

  lemma SomeLeft(t: Trace, s: State)
    requires Inv(t, s) && Stuck(t, s) && !AllPlayed(t, s)
    ensures LeftIn(s) != {}
  {
    if s.next < |t.ops| {
      StuckDispatch(t, s);
      var d := s.route[t.ops[s.next].conn];
      assert ChanOk(t, BookOf(s), d, s.chans[d]);
      assert Mine(t, BookOf(s), d, s.chans[d].queue[0]);
      assert s.chans[d].queue[0] in LeftIn(s);
    } else {
      var ch :| ch in s.chans && !(ch.queue == [] && ch.cur.Idle?);
      var d: nat :| d < |s.chans| && s.chans[d] == ch;
      if ch.cur.Idle? { StuckIdle(t, s, d); }
      assert ChanOk(t, BookOf(s), d, ch);
      assert ch.cur.i in LeftIn(s);
    }
  }

  lemma StuckIsKnot(t: Trace, ls: seq<Label>, s: State)
    requires WellRecorded(t) && AllListed(t) && Reaches(t, Start(t), ls, s) && Stuck(t, s) && !AllPlayed(t, s)
    ensures Knot(t, s.next, LeftIn(s))
  {
    StartInv(t);
    ReachableInv(t, Start(t), ls, s);
    ReachableWaits(t, Start(t), ls, s);
    ChannelsAreSessions(t, ls, s);
    SomeLeft(t, s);
    forall b | b in LeftIn(s)
      ensures !t.ops[b].Eof? && (Behind(t, LeftIn(s), b) || WaitsFor(t, s.next, LeftIn(s), b))
    {
      StuckOp(t, s, b);
    }
    if s.next < |t.ops| { StuckFellows(t, s); }
  }
}
