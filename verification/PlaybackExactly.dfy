/** Which recordings always play to the end, whatever the schedule, the queues and the server. */
module PlaybackExactly {
  import opened Collections
  import opened Cursors
  import opened Playback
  import opened PlaybackProgress
  import opened PlaybackRuns
  import opened PlaybackFates
  import opened PlaybackKnots
  import opened PlaybackTied

  ghost predicate AlwaysPlays(t: Trace) {
    forall ls, s :: Reaches(t, Start(t), ls, s) && Stuck(t, s) ==> AllPlayed(t, s)
  }

  ghost predicate Knotted(t: Trace) {
    exists n: nat, left: set<nat> :: Knot(t, n, left)
  }

  /** Playback always gets to the end if and only if the recording has no knot and, unless the
      server never fails a request that makes a cursor waited for, no cursor that an op may
      wait for is used before its first reply. */
  lemma AlwaysPlaysExactly(t: Trace)
    requires WellRecorded(t)
    ensures AlwaysPlays(t) <==> !Knotted(t) && AllListed(t)
  {
    if n: nat, left: set<nat> :| Knot(t, n, left) {
      var ls, s := KnotGetsStuck(t, n, left);
    } else if AllListed(t) {
      forall ls, s | Reaches(t, Start(t), ls, s) && Stuck(t, s) ensures AllPlayed(t, s) {
        if !AllPlayed(t, s) { StuckIsKnot(t, ls, s); }
      }
    } else {
      var c: int, u: nat :| c in t.infos && MayWait(t, u, c) && !Listed(t, c);
      var ls, s := EarlyUseBlocks(t, u, c);
    }
  }

  /** The first of some numbers. */
  lemma Least(some: set<nat>) returns (m: nat)
    requires some != {}
    ensures m in some && forall i <- some :: m <= i
  {
    m := AnElement(some);
    var rest := some - {m};
    assert forall i <- some :: i == m || i in rest;
    if rest != {} {
      var k := Least(rest);
      if k < m { m := k; }
    }
  }

  lemma LeastDoesNotWait(t: Trace, n: nat, left: set<nat>, b: nat)
    requires WellRecorded(t) && Timely(t) && b < n <= |t.ops| && forall i <- left :: b <= i
    ensures !Behind(t, left, b) && !WaitsFor(t, n, left, b)
  {
    forall c | c in t.infos && MayWait(t, b, c) ensures !HeldUp(t, n, left, c) {
      assert t.requestOf[c] < b && OpensWith(t.ops, c, t.replyOf[c]);
    }
  }

  /** A recording in which what an op may wait for comes before it has no knot. */
  lemma TimelyHasNoKnot(t: Trace, n: nat, left: set<nat>)
    requires WellRecorded(t) && Timely(t)
    ensures !Knot(t, n, left)
  {
    if Knot(t, n, left) {
      var b := Least(left);
      LeastDoesNotWait(t, n, left, b);
    }
  }

  /** Then no reachable state with ops left is stuck, however small the queues are. */
  lemma NeverStuck(t: Trace, ls: seq<Label>, s: State) returns (l: Label)
    requires WellRecorded(t) && Timely(t) && Reaches(t, Start(t), ls, s) && !AllPlayed(t, s)
    ensures Enabled(t, s, l)
  {
    if Stuck(t, s) {
      StuckIsKnot(t, ls, s);
      TimelyHasNoKnot(t, s.next, LeftIn(s));
    }
    l :| Enabled(t, s, l);
  }

  /** Every schedule ends, and can only end with every op played. */
  lemma EveryRunPlaysEverything(t: Trace, ls: seq<Label>, s: State)
    requires WellRecorded(t) && Timely(t) && Reaches(t, Start(t), ls, s)
    ensures |ls| <= Work(t, Start(t))
    ensures Stuck(t, s) ==> AllPlayed(t, s) && forall i: nat :: i < |t.ops| ==> i in s.done
  {
    RunIsShort(t, Start(t), ls, s);
    StartInv(t);
    ReachableInv(t, Start(t), ls, s);
    if AllPlayed(t, s) {
      PlayedMeansDone(t, s);
    } else {
      var l := NeverStuck(t, ls, s);
    }
  }

  /** Every request is recorded before its reply. */
  predicate RequestsFirst(t: Trace)
    requires t.requestOf.Keys == t.replyOf.Keys
  {
    forall c <- t.requestOf :: t.requestOf[c] < t.replyOf[c]
  }

  /** The first reply with a cursor that some op may wait for comes before all uses of it. */
  predicate RepliedFirst(t: Trace)
    requires t.replyOf.Keys == t.infos.Keys
  {
    forall c <- t.infos, u: nat | u < |t.ops| :: MayWait(t, u, c) ==> OpensWith(t.ops, c, t.replyOf[c])
  }

  /** If requests may fail and are recorded before their replies, the order of first replies and
      uses alone decides, whatever the size of the queues. */
  lemma RepliedFirstDecides(t: Trace)
    requires WellRecorded(t) && RequestsFirst(t) && !t.answers
    ensures AlwaysPlays(t) <==> RepliedFirst(t)
  {
    AlwaysPlaysExactly(t);
    if RepliedFirst(t) {
      forall c, u: nat | c in t.infos && MayWait(t, u, c)
        ensures t.requestOf[c] < u && OpensWith(t.ops, c, t.replyOf[c])
      {
        assert c in t.requestOf && OpensWith(t.ops, c, t.replyOf[c]);
      }
      forall n: nat, left: set<nat> ensures !Knot(t, n, left) {
        TimelyHasNoKnot(t, n, left);
      }
    }
  }
}
