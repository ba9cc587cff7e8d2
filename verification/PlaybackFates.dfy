/** Playback with a server that has settled what it does, and what comes of a use that is
    recorded before the reply it needs if all requests fail. */
module PlaybackFates {
  import opened Cursors
  import opened Execution
  import opened Playback
  import opened PlaybackProgress
  import opened PlaybackRuns

  // ---- what the server does with each request, settled beforehand ----

  type Fate = nat -> Outcome

  ghost predicate Fated(t: Trace, fate: Fate, s: State, l: Label) {
    Enabled(t, s, l) && (l.Execute? ==> l.outcome == fate(s.chans[l.c].cur.i))
  }

  ghost predicate FatedRun(t: Trace, fate: Fate, s: State, ls: seq<Label>, s': State)
    decreases |ls|
  {
    if ls == [] then s == s'
    else Fated(t, fate, s, ls[0]) && FatedRun(t, fate, After(t, s, ls[0]), ls[1..], s')
  }

  ghost predicate Stuck(t: Trace, s: State) {
    forall l :: !Enabled(t, s, l)
  }

  lemma {:induction false} FatedReaches(t: Trace, fate: Fate, s: State, ls: seq<Label>, s': State)
    requires FatedRun(t, fate, s, ls, s')
    ensures Reaches(t, s, ls, s')
    decreases |ls|
  {
    if ls != [] { FatedReaches(t, fate, After(t, s, ls[0]), ls[1..], s'); }
  }

  lemma FatedMoves(t: Trace, fate: Fate, s: State, l: Label) returns (l': Label)
    requires Enabled(t, s, l) && forall i: nat :: ServerOk(t, i, fate(i))
    ensures Fated(t, fate, s, l')
  {
    l' := l;
    if l.Execute? { l' := Execute(l.c, fate(s.chans[l.c].cur.i)); }
  }

  /** With a server like that playback goes on until no step is left. */
  lemma {:induction false} PlaysOn(t: Trace, fate: Fate, s: State) returns (ls: seq<Label>, s': State)
    requires forall i: nat :: ServerOk(t, i, fate(i))
    ensures FatedRun(t, fate, s, ls, s') && Stuck(t, s')
    decreases Work(t, s)
  {
    if l :| Enabled(t, s, l) {
      var l' := FatedMoves(t, fate, s, l);
      StepWork(t, s, l');
      ls, s' := PlaysOn(t, fate, After(t, s, l'));
      assert ([l'] + ls)[1..] == ls;
      ls := [l'] + ls;
    } else {
      ls, s' := [], s;
    }
  }

  // ---- a use recorded before the first reply ----

  /** Op u asks for cursor c at place k. */
  predicate Asks(t: Trace, u: nat, k: nat, c: int) {
    MayWait(t, u, c) && k < |t.ops[u].uses| && t.ops[u].uses[k] == c
  }

  /** No request is looked up under an entry for c. */
  predicate Unlisted(t: Trace, c: int) {
    forall i: nat :: i < |t.ops| && t.ops[i].Request? && t.ops[i].key in t.opToCursors ==> t.opToCursors[t.ops[i].key] != c
  }

  lemma EarlyIsUnlisted(t: Trace, c: int)
    requires WellRecorded(t) && c in t.infos && !OpensWith(t.ops, c, t.replyOf[c])
    ensures Unlisted(t, c)
  {
    forall i: nat | i < |t.ops| && t.ops[i].Request? && t.ops[i].key in t.opToCursors
      ensures t.opToCursors[t.ops[i].key] != c
    {
      EntryIsRequests(t, i);
    }
  }

  const ALL_FAIL: Fate := i => Failed

  predicate Wireless(ps: Pairing) {
    ps.complete == map[] && forall k <- ps.incomplete :: !ps.incomplete[k].wire.Got?
  }

  /** A current op is not about to add a live reply, and if it is u it has not got past k. */
  predicate Before(u: nat, k: nat, cur: Current) {
    cur.Busy? ==>
      && !cur.phase.AddingWire?
      && (cur.i == u ==> (cur.phase.Looking? || cur.phase.Waiting?) && |cur.phase.got| <= k)
  }

  /** Nothing is known of cursor c, and op u, which asks for it, is not done. */
  ghost predicate Unknown(t: Trace, s: State, u: nat, k: nat, c: int) {
    && c in t.infos && c in s.infos && s.infos[c] == t.infos[c] && c in s.present
    && Wireless(s.replies) && u !in s.done
    && forall d: nat :: d < |s.chans| ==> Before(u, k, s.chans[d].cur)
  }

  lemma StartUnknown(t: Trace, u: nat, k: nat, c: int)
    requires c in t.infos
    ensures Unknown(t, Start(t), u, k, c)
  {
  }

  lemma NotKnownAtStart(t: Trace, c: int)
    requires WellRecorded(t) && c in t.infos
    ensures !t.infos[c].success && !t.infos[c].failed
  {
    OriginIsKey(t, c);
  }

  lemma DispatchUnknown(t: Trace, s: State, u: nat, k: nat, c: int)
    requires Unknown(t, s, u, k, c) && Asks(t, u, k, c) && Enabled(t, s, Dispatch)
    ensures Unknown(t, AfterDispatch(t, s), u, k, c)
  {
    DispatchEffect(t, s);
    var s' := AfterDispatch(t, s);
    forall d: nat | d < |s'.chans| ensures Before(u, k, s'.chans[d].cur) {
      if d < |s.chans| { assert Before(u, k, s.chans[d].cur); }
    }
  }

  lemma TakeUnknown(t: Trace, s: State, d: nat, u: nat, k: nat, c: int)
    requires Unknown(t, s, u, k, c) && Asks(t, u, k, c) && Enabled(t, s, Take(d))
    ensures Unknown(t, AfterTake(t, s, d), u, k, c)
  {
  }

  /** The op that asks does not get past its place. */
  lemma LookBefore(t: Trace, s: State, d: nat, u: nat, k: nat, c: int)
    requires Unknown(t, s, u, k, c) && Asks(t, u, k, c) && !t.infos[c].success && Enabled(t, s, Look(d))
    ensures Before(u, k, AfterLook(t, s, d).chans[d].cur) && u !in AfterLook(t, s, d).done
  {
    assert Before(u, k, s.chans[d].cur);
  }

  lemma LookUnknown(t: Trace, s: State, d: nat, u: nat, k: nat, c: int)
    requires Unknown(t, s, u, k, c) && Asks(t, u, k, c) && !t.infos[c].success && Enabled(t, s, Look(d))
    ensures Unknown(t, AfterLook(t, s, d), u, k, c)
  {
    LookBefore(t, s, d, u, k, c);
    LookEffect(t, s, d);
    var s' := AfterLook(t, s, d);
    forall e: nat | e < |s'.chans| ensures Before(u, k, s'.chans[e].cur) {
      assert Before(u, k, s.chans[e].cur);
    }
  }

  lemma ResolveUnknown(t: Trace, s: State, d: nat, ok: bool, u: nat, k: nat, c: int)
    requires Unknown(t, s, u, k, c) && Asks(t, u, k, c) && !t.infos[c].success && !t.infos[c].failed
    requires Enabled(t, s, Resolve(d, ok))
    ensures Unknown(t, AfterResolve(t, s, d, ok), u, k, c)
  {
    assert Before(u, k, s.chans[d].cur);
  }

  lemma FailUnknown(t: Trace, s: State, d: nat, u: nat, k: nat, c: int)
    requires Unknown(t, s, u, k, c) && Unlisted(t, c) && Enabled(t, s, Execute(d, Failed))
    ensures Unknown(t, AfterExecute(t, s, d, Failed), u, k, c)
  {
    assert Before(u, k, s.chans[d].cur);
  }

  lemma FileUnknown(t: Trace, s: State, d: nat, u: nat, k: nat, c: int)
    requires Unknown(t, s, u, k, c) && Enabled(t, s, AddFile(d))
    ensures Unknown(t, AfterAddFile(t, s, d), u, k, c)
  {
    assert Before(u, k, s.chans[d].cur);
  }

  lemma SkipUnknown(t: Trace, s: State, d: nat, u: nat, k: nat, c: int)
    requires Unknown(t, s, u, k, c) && Enabled(t, s, Skip(d))
    ensures Unknown(t, Finish(t, s, d), u, k, c)
  {
    assert Before(u, k, s.chans[d].cur);
  }

  lemma NothingToHandle(order: seq<OpKey>, complete: map<OpKey, Pair>)
    requires Enumerates(order, complete)
    ensures order != [] ==> complete != map[]
  {
    if order != [] { assert order[0] in complete; }
  }

  lemma HandleUnknown(t: Trace, s: State, d: nat, order: seq<OpKey>, u: nat, k: nat, c: int)
    requires Unknown(t, s, u, k, c) && Enabled(t, s, Handle(d, order))
    ensures Unknown(t, AfterHandle(t, s, d, order), u, k, c)
  {
    assert Before(u, k, s.chans[d].cur);
    NothingToHandle(order, s.replies.complete);
  }

  lemma StepUnknown(t: Trace, s: State, l: Label, u: nat, k: nat, c: int)
    requires WellRecorded(t) && Unknown(t, s, u, k, c) && Asks(t, u, k, c) && Unlisted(t, c) && Fated(t, ALL_FAIL, s, l)
    ensures Unknown(t, After(t, s, l), u, k, c)
  {
    NotKnownAtStart(t, c);
    if !l.Dispatch? { assert Before(u, k, s.chans[l.c].cur); }
    match l
    case Dispatch => DispatchUnknown(t, s, u, k, c);
    case Take(d) => TakeUnknown(t, s, d, u, k, c);
    case Look(d) => LookUnknown(t, s, d, u, k, c);
    case Resolve(d, ok) => ResolveUnknown(t, s, d, ok, u, k, c);
    case Execute(d, _) => FailUnknown(t, s, d, u, k, c);
    case AddWire(_) => assert false;
    case AddFile(d) => FileUnknown(t, s, d, u, k, c);
    case Skip(d) => SkipUnknown(t, s, d, u, k, c);
    case Handle(d, order) => HandleUnknown(t, s, d, order, u, k, c);
  }

  lemma {:induction false} RunUnknown(t: Trace, s: State, ls: seq<Label>, s': State, u: nat, k: nat, c: int)
    requires WellRecorded(t) && Unknown(t, s, u, k, c) && Asks(t, u, k, c) && Unlisted(t, c)
    requires FatedRun(t, ALL_FAIL, s, ls, s')
    ensures Unknown(t, s', u, k, c)
    decreases |ls|
  {
    if ls != [] {
      StepUnknown(t, s, ls[0], u, k, c);
      RunUnknown(t, After(t, s, ls[0]), ls[1..], s', u, k, c);
    }
  }

  /** A use of the cursor is recorded before its first reply: the counter that the use creates
      never learns which request the cursor belongs to.  So if the request fails, nobody says
      so to the ops that wait for the cursor. */
  lemma EarlyUseBlocks(t: Trace, u: nat, c: int) returns (ls: seq<Label>, s: State)
    requires WellRecorded(t) && !t.answers && MayWait(t, u, c) && !OpensWith(t.ops, c, t.replyOf[c])
    ensures Reaches(t, Start(t), ls, s) && Stuck(t, s) && u !in s.done && !AllPlayed(t, s)
  {
    ls, s := PlaysOn(t, ALL_FAIL, Start(t));
    var k: nat :| k < |t.ops[u].uses| && t.ops[u].uses[k] == c;
    EarlyIsUnlisted(t, c);
    StartUnknown(t, u, k, c);
    RunUnknown(t, Start(t), ls, s, u, k, c);
    FatedReaches(t, ALL_FAIL, Start(t), ls, s);
    StartInv(t);
    ReachableInv(t, Start(t), ls, s);
    if AllPlayed(t, s) { PlayedMeansDone(t, s); }
  }
}
