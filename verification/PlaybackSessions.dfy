/** Which ops share a channel: those of one connection number, up to its end. */
module PlaybackSessions {
  import opened Cursors
  import opened Playback

  /** How often connection `conn` has ended among the first n ops. */
  function EndsBefore(ops: seq<Op>, n: nat, conn: int): nat
    requires n <= |ops|
  {
    if n == 0 then 0 else EndsBefore(ops, n - 1, conn) + if ops[n - 1] == Eof(conn) then 1 else 0
  }

  datatype Session = Session(conn: int, ends: nat)

  function SessionAt(ops: seq<Op>, n: nat, conn: int): Session
    requires n <= |ops|
  {
    Session(conn, EndsBefore(ops, n, conn))
  }

  function SessionOf(ops: seq<Op>, i: nat): Session
    requires i < |ops|
  {
    SessionAt(ops, i, ops[i].conn)
  }

  /** The session of each channel. */
  type Sessions = seq<Session>

  predicate Injective(ss: Sessions) {
    forall c: nat, d: nat :: c < |ss| && d < |ss| && ss[c] == ss[d] ==> c == d
  }

  /** The session of channel c goes on, or has ended. */
  predicate OnOrOver(t: Trace, s: State, ss: Sessions, c: nat)
    requires s.next <= |t.ops| && c < |ss|
  {
    var k := ss[c].conn;
    || (k in s.route && s.route[k] == c && ss[c].ends == EndsBefore(t.ops, s.next, k))
    || ss[c].ends < EndsBefore(t.ops, s.next, k)
  }

  predicate SentOk(t: Trace, s: State, ss: Sessions, i: nat)
    requires i in s.home
  {
    i < s.next && i < |t.ops| && s.home[i] < |ss| && ss[s.home[i]] == SessionOf(t.ops, i)
  }

  /** Each channel serves one session and each session has one channel. */
  ghost predicate Routed(t: Trace, s: State, ss: Sessions) {
    && s.next <= |t.ops| && |ss| == |s.chans| && Injective(ss)
    && (forall c: nat :: c < |ss| ==> OnOrOver(t, s, ss, c))
    && (forall k <- s.route :: s.route[k] < |ss| && ss[s.route[k]] == SessionAt(t.ops, s.next, k))
    && (forall i <- s.home :: SentOk(t, s, ss, i))
  }

  lemma RouteRouted(t: Trace, s: State, ss: Sessions, conn: int) returns (ss': Sessions)
    requires Routed(t, s, ss)
    ensures Routed(t, WithRoute(s, conn), ss')
  {
    ss' := if conn in s.route then ss else ss + [SessionAt(t.ops, s.next, conn)];
    var s' := WithRoute(s, conn);
    forall c: nat | c < |ss| && conn !in s.route ensures ss[c] != SessionAt(t.ops, s.next, conn) {
      assert OnOrOver(t, s, ss, c);
    }
    forall c: nat | c < |ss'| ensures OnOrOver(t, s', ss', c) {
      if c < |ss| { assert OnOrOver(t, s, ss, c); }
    }
    forall i | i in s'.home ensures SentOk(t, s', ss', i) {
      assert SentOk(t, s, ss, i);
    }
  }

  lemma OpRouted(t: Trace, s: State, s': State, ss: Sessions)
    requires Routed(t, s, ss) && s.next < |t.ops| && !t.ops[s.next].Eof? && t.ops[s.next].conn in s.route
    requires s'.next == s.next + 1 && s'.route == s.route && |s'.chans| == |s.chans|
    requires s'.home == s.home[s.next := s.route[t.ops[s.next].conn]]
    ensures Routed(t, s', ss)
  {
    forall c: nat | c < |ss| ensures OnOrOver(t, s', ss, c) {
      assert OnOrOver(t, s, ss, c);
    }
    forall i | i in s'.home ensures SentOk(t, s', ss, i) {
      if i != s.next { assert SentOk(t, s, ss, i); }
    }
  }

  lemma EndRouted(t: Trace, s: State, s': State, ss: Sessions)
    requires Routed(t, s, ss) && s.next < |t.ops| && t.ops[s.next].Eof? && t.ops[s.next].conn in s.route
    requires s'.next == s.next + 1 && s'.route == s.route - {t.ops[s.next].conn} && |s'.chans| == |s.chans|
    requires s'.home == s.home
    ensures Routed(t, s', ss)
  {
    forall c: nat | c < |ss| ensures OnOrOver(t, s', ss, c) {
      assert OnOrOver(t, s, ss, c);
    }
    forall i | i in s'.home ensures SentOk(t, s', ss, i) {
      assert SentOk(t, s, ss, i);
    }
  }

  lemma DispatchRouted(t: Trace, s: State, ss: Sessions) returns (ss': Sessions)
    requires Routed(t, s, ss) && Enabled(t, s, Dispatch)
    ensures Routed(t, AfterDispatch(t, s), ss')
  {
    var s1 := WithRoute(s, t.ops[s.next].conn);
    ss' := RouteRouted(t, s, ss, t.ops[s.next].conn);
    if t.ops[s.next].Eof? {
      EndRouted(t, s1, AfterDispatch(t, s), ss');
    } else {
      OpRouted(t, s1, AfterDispatch(t, s), ss');
    }
  }

  predicate SameRouting(s: State, s': State) {
    s'.next == s.next && s'.route == s.route && s'.home == s.home && |s'.chans| == |s.chans|
  }

  lemma ReplyRouting(t: Trace, s: State, l: Label)
    requires (l.AddWire? || l.AddFile? || l.Handle?) && Enabled(t, s, l)
    ensures SameRouting(s, After(t, s, l))
  {
  }

  lemma CursorRouting(t: Trace, s: State, l: Label)
    requires (l.Look? || l.Resolve?) && Enabled(t, s, l)
    ensures SameRouting(s, After(t, s, l))
  {
  }

  lemma ActRouting(t: Trace, s: State, l: Label)
    requires (l.Take? || l.Skip? || l.Execute?) && Enabled(t, s, l)
    ensures SameRouting(s, After(t, s, l))
  {
  }

  lemma SameRouted(t: Trace, s: State, s': State, ss: Sessions)
    requires Routed(t, s, ss) && SameRouting(s, s')
    ensures Routed(t, s', ss)
  {
    forall c: nat | c < |ss| ensures OnOrOver(t, s', ss, c) {
      assert OnOrOver(t, s, ss, c);
    }
    forall i | i in s'.home ensures SentOk(t, s', ss, i) {
      assert SentOk(t, s, ss, i);
    }
  }

  lemma StepRouted(t: Trace, s: State, ss: Sessions, l: Label) returns (ss': Sessions)
    requires Routed(t, s, ss) && Enabled(t, s, l)
    ensures Routed(t, After(t, s, l), ss')
  {
    if l.Dispatch? {
      ss' := DispatchRouted(t, s, ss);
    } else {
      ss' := ss;
      if l.AddWire? || l.AddFile? || l.Handle? {
        ReplyRouting(t, s, l);
      } else if l.Look? || l.Resolve? {
        CursorRouting(t, s, l);
      } else {
        ActRouting(t, s, l);
      }
      SameRouted(t, s, After(t, s, l), ss);
    }
  }

  lemma {:induction false} RunRouted(t: Trace, s: State, ss: Sessions, ls: seq<Label>, s': State) returns (ss': Sessions)
    requires Routed(t, s, ss) && Reaches(t, s, ls, s')
    ensures Routed(t, s', ss')
    decreases |ls|
  {
    ss' := ss;
    if ls != [] {
      ss' := StepRouted(t, s, ss, ls[0]);
      ss' := RunRouted(t, After(t, s, ls[0]), ss', ls[1..], s');
    }
  }

  /** Two ops are sent to one channel exactly if they are of one session. */
  ghost predicate SameChannel(t: Trace, s: State) {
    && s.next <= |t.ops| && (forall i <- s.home :: i < |t.ops|)
    && (forall i <- s.home, j <- s.home :: s.home[i] == s.home[j] <==> SessionOf(t.ops, i) == SessionOf(t.ops, j))
  }

  /** The next op of a connection goes to the channel of its session. */
  ghost predicate NextChannel(t: Trace, s: State)
    requires SameChannel(t, s)
  {
    s.next < |t.ops| ==>
      forall i <- s.home :: SessionOf(t.ops, i) == SessionOf(t.ops, s.next) <==>
        t.ops[s.next].conn in s.route && s.home[i] == s.route[t.ops[s.next].conn]
  }

  lemma ChannelsAreSessions(t: Trace, ls: seq<Label>, s: State)
    requires Reaches(t, Start(t), ls, s)
    ensures SameChannel(t, s) && NextChannel(t, s)
  {
    var ss := RunRouted(t, Start(t), [], ls, s);
    assert forall i <- s.home :: SentOk(t, s, ss, i);
    if s.next < |t.ops| {
      forall i | i in s.home && SessionOf(t.ops, i) == SessionOf(t.ops, s.next)
        ensures t.ops[s.next].conn in s.route && s.home[i] == s.route[t.ops[s.next].conn]
      {
        assert OnOrOver(t, s, ss, s.home[i]);
      }
    }
  }
}
