/** The shape of a reachable playback state: every op dispatched is finished or in the one
    channel it was sent to, in recorded order. */
module PlaybackShape {
  import opened Cursors
  import opened Execution
  import opened Playback

  // ---- the shape of a state ----

  predicate Playable(t: Trace, i: nat) {
    i < |t.ops| && !t.ops[i].Eof?
  }

  predicate InChan(ch: Chan, i: nat) {
    i in ch.queue || (ch.cur.Busy? && ch.cur.i == i)
  }

  predicate PhaseOk(t: Trace, infos: map<int, Info>, i: nat, phase: Phase) {
    && i < |t.ops|
    && match phase
       case Skipping => t.ops[i].Request? && i in t.skipped
       case Looking(got) => i !in t.skipped && t.ops[i].Request? && t.ops[i].rewrites && |got| <= |t.ops[i].uses|
       case Waiting(got) =>
         && i !in t.skipped && t.ops[i].Request? && t.ops[i].rewrites && |got| < |t.ops[i].uses|
         && t.ops[i].uses[|got|] in infos
       case Executing(got) =>
         && i !in t.skipped && t.ops[i].Request?
         && (t.ops[i].rewrites ==> |got| == |t.ops[i].uses| && exists h <- got :: h.Got?)
       case AddingWire(live) => t.ops[i].Request? && live != 0
       case AddingFile => t.ops[i].Reply?
       case Handling => t.ops[i].Request? || t.ops[i].Reply?
  }

  /** What a channel is checked against: ops dispatched, finished, and sent where. */
  datatype Book = Book(next: nat, done: set<nat>, home: map<nat, nat>)

  function BookOf(s: State): Book {
    Book(s.next, s.done, s.home)
  }

  predicate Mine(t: Trace, b: Book, c: nat, i: nat) {
    i < b.next && Playable(t, i) && i !in b.done && i in b.home && b.home[i] == c
  }

  predicate QueueOk(t: Trace, b: Book, c: nat, queue: seq<nat>) {
    && (forall k: nat :: k < |queue| ==> Mine(t, b, c, queue[k]))
    && (forall k: nat, m: nat :: k < m < |queue| ==> queue[k] < queue[m])
  }

  /** Channel c holds ops sent to it, in recorded order, none of them finished. */
  predicate ChanOk(t: Trace, b: Book, c: nat, ch: Chan) {
    && QueueOk(t, b, c, ch.queue)
    && (ch.cur.Busy? ==>
          && Mine(t, b, c, ch.cur.i)
          && (forall k: nat :: k < |ch.queue| ==> ch.cur.i < ch.queue[k])
          && PhaseOk(t, t.infos, ch.cur.i, ch.cur.phase))
  }

  /** Every op dispatched is finished or in its channel. */
  predicate Located(s: State, i: nat) {
    i in s.done || (i in s.home && s.home[i] < |s.chans| && InChan(s.chans[s.home[i]], i))
  }

  ghost predicate Shape(t: Trace, s: State) {
    && s.next <= |t.ops|
    && (forall k <- s.route :: s.route[k] < |s.chans|)
    && s.infos.Keys == t.infos.Keys
    && (forall i <- s.done :: i < s.next)
    && (forall c: nat :: c < |s.chans| ==> ChanOk(t, BookOf(s), c, s.chans[c]))
    && (forall i: nat :: i < s.next ==> Located(s, i))
  }

  // ---- each step keeps it ----

  lemma StartShape(t: Trace)
    ensures Shape(t, Start(t))
  {
  }

  lemma ChanStays(t: Trace, b: Book, b': Book, c: nat, ch: Chan)
    requires ChanOk(t, b, c, ch)
    requires forall i: nat :: Mine(t, b, c, i) ==> Mine(t, b', c, i)
    ensures ChanOk(t, b', c, ch)
  {
  }

  lemma RouteShape(t: Trace, s: State, conn: int)
    requires Shape(t, s)
    ensures Shape(t, WithRoute(s, conn))
  {
    var s' := WithRoute(s, conn);
    forall c: nat | c < |s'.chans| ensures ChanOk(t, BookOf(s'), c, s'.chans[c]) {
      if c < |s.chans| { assert ChanOk(t, BookOf(s), c, s.chans[c]); }
    }
    forall i: nat | i < s'.next ensures Located(s', i) {
      assert Located(s, i);
    }
  }

  lemma DispatchChans(t: Trace, s: State)
    requires Shape(t, s) && Enabled(t, s, Dispatch) && t.ops[s.next].conn in s.route
    ensures var s' := AfterDispatch(t, s);
            forall c: nat :: c < |s'.chans| ==> ChanOk(t, BookOf(s'), c, s'.chans[c])
  {
    var s' := AfterDispatch(t, s);
    forall c: nat | c < |s'.chans| ensures ChanOk(t, BookOf(s'), c, s'.chans[c]) {
      ChanStays(t, BookOf(s), BookOf(s'), c, s.chans[c]);
    }
  }

  lemma RoutedDispatchShape(t: Trace, s: State)
    requires Shape(t, s) && Enabled(t, s, Dispatch) && t.ops[s.next].conn in s.route
    ensures Shape(t, AfterDispatch(t, s))
  {
    var s' := AfterDispatch(t, s);
    DispatchChans(t, s);
    forall i: nat | i < s'.next ensures Located(s', i) {
      if i < s.next { assert Located(s, i); }
    }
  }

  lemma DispatchShape(t: Trace, s: State)
    requires Shape(t, s) && Enabled(t, s, Dispatch)
    ensures Shape(t, AfterDispatch(t, s))
  {
    var s1 := WithRoute(s, t.ops[s.next].conn);
    RouteShape(t, s, t.ops[s.next].conn);
    assert WithRoute(s1, t.ops[s.next].conn) == s1;
    RoutedDispatchShape(t, s1);
  }

  /** A step that touches one channel, and may finish its op. */
  lemma OneChanShape(t: Trace, s: State, s': State, c: nat)
    requires Shape(t, s) && c < |s.chans| == |s'.chans|
    requires s'.next == s.next && s'.route == s.route && s'.home == s.home && s'.infos.Keys == s.infos.Keys
    requires forall d: nat :: d < |s.chans| && d != c ==> s'.chans[d] == s.chans[d]
    requires s'.done == s.done ||
             (s.chans[c].cur.Busy? && s'.done == s.done + {s.chans[c].cur.i} && s'.chans[c].cur.Idle?)
    requires ChanOk(t, BookOf(s'), c, s'.chans[c])
    requires forall i: nat :: InChan(s.chans[c], i) ==> i in s'.done || InChan(s'.chans[c], i)
    ensures Shape(t, s')
  {
    forall d: nat | d < |s'.chans| ensures ChanOk(t, BookOf(s'), d, s'.chans[d]) {
      if d != c { ChanStays(t, BookOf(s), BookOf(s'), d, s.chans[d]); }
    }
    forall i: nat | i < s'.next ensures Located(s', i) {
      assert Located(s, i);
    }
  }

  lemma TakeShape(t: Trace, s: State, c: nat)
    requires Shape(t, s) && Enabled(t, s, Take(c))
    ensures Shape(t, AfterTake(t, s, c))
  {
    var s' := AfterTake(t, s, c);
    assert ChanOk(t, BookOf(s), c, s.chans[c]);
    assert Mine(t, BookOf(s), c, s.chans[c].queue[0]);
    forall i: nat | InChan(s.chans[c], i) ensures InChan(s'.chans[c], i) {
      if i in s.chans[c].queue && i != s.chans[c].queue[0] { assert i in s.chans[c].queue[1..]; }
    }
    OneChanShape(t, s, s', c);
  }

  /** A step that moves the current op of one channel to another phase. */
  lemma PhaseShape(t: Trace, s: State, s': State, c: nat, phase: Phase)
    requires Shape(t, s) && At(t, s, c) && PhaseOk(t, t.infos, s.chans[c].cur.i, phase)
    requires s' == SetPhase(t, s, c, phase).(infos := s'.infos, present := s'.present, replies := s'.replies)
    requires s'.infos.Keys == s.infos.Keys
    ensures Shape(t, s')
  {
    assert ChanOk(t, BookOf(s), c, s.chans[c]);
    OneChanShape(t, s, s', c);
  }

  /** A step that finishes the current op of one channel. */
  lemma FinishShape(t: Trace, s: State, s': State, c: nat)
    requires Shape(t, s) && At(t, s, c)
    requires s' == Finish(t, s, c).(infos := s'.infos, present := s'.present, replies := s'.replies)
    requires s'.infos.Keys == s.infos.Keys
    ensures Shape(t, s')
  {
    assert ChanOk(t, BookOf(s), c, s.chans[c]);
    forall k: nat | k < |s.chans[c].queue| ensures Mine(t, BookOf(s'), c, s.chans[c].queue[k]) {
      assert Mine(t, BookOf(s), c, s.chans[c].queue[k]);
    }
    OneChanShape(t, s, s', c);
  }

  lemma LookShape(t: Trace, s: State, c: nat)
    requires Shape(t, s) && Enabled(t, s, Look(c))
    ensures Shape(t, AfterLook(t, s, c))
  {
    var s' := AfterLook(t, s, c);
    assert ChanOk(t, BookOf(s), c, s.chans[c]);
    if s'.chans[c].cur.Idle? { FinishShape(t, s, s', c); } else { PhaseShape(t, s, s', c, s'.chans[c].cur.phase); }
  }

  lemma ResolveShape(t: Trace, s: State, c: nat, ok: bool)
    requires Shape(t, s) && Enabled(t, s, Resolve(c, ok))
    ensures Shape(t, AfterResolve(t, s, c, ok))
  {
    assert ChanOk(t, BookOf(s), c, s.chans[c]);
    PhaseShape(t, s, AfterResolve(t, s, c, ok), c, AfterResolve(t, s, c, ok).chans[c].cur.phase);
  }

  lemma ExecuteShape(t: Trace, s: State, c: nat, outcome: Outcome)
    requires Shape(t, s) && Enabled(t, s, Execute(c, outcome))
    ensures Shape(t, AfterExecute(t, s, c, outcome))
  {
    var s' := AfterExecute(t, s, c, outcome);
    assert ChanOk(t, BookOf(s), c, s.chans[c]);
    if outcome.Failed? { FinishShape(t, s, s', c); } else { PhaseShape(t, s, s', c, s'.chans[c].cur.phase); }
  }

  lemma {:induction false} HandleAllKeys(infos: map<int, Info>, present: set<int>, complete: map<OpKey, Pair>, order: seq<OpKey>)
    requires forall i: nat :: i < |order| ==> order[i] in complete && complete[order[i]].Full()
    ensures HandleAll(infos, present, complete, order).Keys == infos.Keys
  {
    if order != [] { HandleAllKeys(infos, present, complete, order[..|order| - 1]); }
  }

  lemma StepShape(t: Trace, s: State, l: Label)
    requires Shape(t, s) && Enabled(t, s, l)
    ensures Shape(t, After(t, s, l))
  {
    match l
    case Dispatch => DispatchShape(t, s);
    case Take(c) => TakeShape(t, s, c);
    case Skip(c) => FinishShape(t, s, Finish(t, s, c), c);
    case Look(c) => LookShape(t, s, c);
    case Resolve(c, ok) => ResolveShape(t, s, c, ok);
    case Execute(c, outcome) => ExecuteShape(t, s, c, outcome);
    case AddWire(c) => PhaseShape(t, s, AfterAddWire(t, s, c), c, Handling);
    case AddFile(c) => PhaseShape(t, s, AfterAddFile(t, s, c), c, Handling);
    case Handle(c, order) =>
      HandleAllKeys(s.infos, s.present, s.replies.complete, order);
      FinishShape(t, s, AfterHandle(t, s, c, order), c);
  }

  lemma {:induction false} ReachableShape(t: Trace, s: State, ls: seq<Label>, s': State)
    requires Shape(t, s) && Reaches(t, s, ls, s')
    ensures Shape(t, s')
    decreases |ls|
  {
    if ls != [] {
      StepShape(t, s, ls[0]);
      ReachableShape(t, After(t, s, ls[0]), ls[1..], s');
    }
  }
}
