/** Counting the uses of a cursor: no recorded use finds it dropped. */
module PlaybackUses {
  import opened Cursors
  import opened Execution
  import opened Playback
  import opened PlaybackShape
  import opened PlaybackProgress
  import opened PlaybackRuns

  /** The uses of cursor c that an op in this phase has still to ask for. */
  function PhaseLeft(uses: seq<int>, phase: Phase, c: int): nat {
    if (phase.Looking? || phase.Waiting?) && |phase.got| <= |uses| then multiset(uses[|phase.got|..])[c] else 0
  }

  function OpLeft(t: Trace, s: State, i: nat, c: int): nat
    requires i < |t.ops|
  {
    if i in s.done then 0
    else if i in s.home && In(s, s.home[i], i) then
      if t.ops[i].Request? && t.ops[i].rewrites then PhaseLeft(t.ops[i].uses, s.chans[s.home[i]].cur.phase, c) else 0
    else UsesIn(t.ops[i], c)
  }

  /** The uses still to be asked for by the first n ops. */
  function UsesAhead(t: Trace, s: State, n: nat, c: int): nat
    requires n <= |t.ops|
  {
    if n == 0 then 0 else UsesAhead(t, s, n - 1, c) + OpLeft(t, s, n - 1, c)
  }

  lemma {:induction false} AheadOfOne(t: Trace, s: State, n: nat, i: nat, c: int)
    requires i < n <= |t.ops|
    ensures UsesAhead(t, s, n, c) >= OpLeft(t, s, i, c)
  {
    if i < n - 1 { AheadOfOne(t, s, n - 1, i, c); }
  }

  /** No op has more to ask for than before, and op `one` has at least `less` less. */
  lemma {:induction false} AheadShrinks(t: Trace, s: State, s': State, n: nat, one: nat, less: nat, c: int)
    requires n <= |t.ops| && forall i: nat :: i < n ==> OpLeft(t, s', i, c) <= OpLeft(t, s, i, c)
    requires one < n ==> OpLeft(t, s', one, c) + less <= OpLeft(t, s, one, c)
    ensures UsesAhead(t, s', n, c) + (if one < n then less else 0) <= UsesAhead(t, s, n, c)
  {
    if n > 0 { AheadShrinks(t, s, s', n - 1, one, less, c); }
  }

  lemma {:induction false} AheadAtStart(t: Trace, n: nat, c: int)
    requires n <= |t.ops|
    ensures UsesAhead(t, Start(t), n, c) == UseCount(t.ops[..n], c)
  {
    if n > 0 {
      AheadAtStart(t, n - 1, c);
      assert t.ops[..n][..n - 1] == t.ops[..n - 1];
    }
  }

  // ---- what a step asks for ----

  /** The step gives op cur.i of its channel an id for cursor c. */
  predicate Gives(t: Trace, s: State, s': State, d: nat, c: int) {
    && At(t, s, d) && OpAt(t, s, d).Request? && d < |s'.chans|
    && var n := |Answers(s.chans[d])|;
       && n < |OpAt(t, s, d).uses| && OpAt(t, s, d).uses[n] == c
       && n < |Answers(s'.chans[d])| && Answers(s'.chans[d])[n].Got?
  }

  ghost predicate GivesAt(t: Trace, s: State, l: Label, c: int) {
    Enabled(t, s, l) && !l.Dispatch? && Gives(t, s, After(t, s, l), l.c, c)
  }

  /** A use and those after it. */
  lemma LeftSplits(uses: seq<int>, k: nat, c: int)
    requires k < |uses|
    ensures multiset(uses[k..])[c] == multiset(uses[k + 1..])[c] + if uses[k] == c then 1 else 0
  {
    assert uses[k..] == [uses[k]] + uses[k + 1..];
  }

  lemma DispatchLeft(t: Trace, s: State, i: nat, c: int)
    requires Shape(t, s) && Enabled(t, s, Dispatch) && i < |t.ops|
    ensures OpLeft(t, AfterDispatch(t, s), i, c) <= OpLeft(t, s, i, c)
  {
    DispatchEffect(t, s);
    if i < s.next { assert Located(s, i); }
  }

  /** A step of channel d leaves what other ops have to ask for. */
  lemma OtherLeft(t: Trace, s: State, s': State, d: nat, i: nat, c: int)
    requires Shape(t, s) && d < |s.chans| == |s'.chans| && i < |t.ops|
    requires s'.home == s.home && s.done <= s'.done
    requires forall e: nat :: e < |s.chans| && e != d ==> s'.chans[e].cur == s.chans[e].cur
    requires !In(s, d, i) && !In(s', d, i)
    ensures OpLeft(t, s', i, c) <= OpLeft(t, s, i, c)
  {
  }

  lemma TakeLeft(t: Trace, s: State, d: nat, i: nat, c: int)
    requires Shape(t, s) && Enabled(t, s, Take(d)) && i < |t.ops|
    ensures OpLeft(t, AfterTake(t, s, d), i, c) <= OpLeft(t, s, i, c)
  {
    var s', m := AfterTake(t, s, d), s.chans[d].queue[0];
    assert ChanOk(t, BookOf(s), d, s.chans[d]);
    assert Mine(t, BookOf(s), d, m);
    if i == m {
      if t.ops[i].Request? { assert t.ops[i].uses[0..] == t.ops[i].uses; }
    } else {
      OtherLeft(t, s, s', d, i, c);
    }
  }

  /** A step of channel d with its current op: it asks for one use at a time, or is through. */
  predicate MovesOn(t: Trace, s: State, s': State, d: nat) {
    && At(t, s, d) && |s'.chans| == |s.chans| && s'.home == s.home && s.done <= s'.done
    && (forall e: nat :: e < |s.chans| && e != d ==> s'.chans[e].cur == s.chans[e].cur)
    && (s'.chans[d].cur.Busy? ==> s'.chans[d].cur.i == s.chans[d].cur.i)
    && (s'.chans[d].cur.Idle? ==> s.chans[d].cur.i in s'.done)
    && (IsAsking(s'.chans[d].cur) ==> IsAsking(s.chans[d].cur) && OneMore(s.chans[d].cur, s'.chans[d].cur))
  }

  predicate IsAsking(cur: Current) {
    cur.Busy? && (cur.phase.Looking? || cur.phase.Waiting?)
  }

  predicate OneMore(cur: Current, cur': Current)
    requires IsAsking(cur) && IsAsking(cur')
  {
    |cur.phase.got| <= |cur'.phase.got| <= |cur.phase.got| + 1
  }

  lemma CurrentLeft(t: Trace, s: State, s': State, d: nat, c: int)
    requires Shape(t, s) && MovesOn(t, s, s', d)
    ensures OpLeft(t, s', s.chans[d].cur.i, c) <= OpLeft(t, s, s.chans[d].cur.i, c)
    ensures Gives(t, s, s', d, c) && s.chans[d].cur.phase.Waiting? ==>
      OpLeft(t, s', s.chans[d].cur.i, c) + 1 <= OpLeft(t, s, s.chans[d].cur.i, c)
  {
    var i := s.chans[d].cur.i;
    assert ChanOk(t, BookOf(s), d, s.chans[d]);
    assert Mine(t, BookOf(s), d, i);
    if t.ops[i].Request? && t.ops[i].rewrites && IsAsking(s.chans[d].cur) && |Answers(s.chans[d])| < |t.ops[i].uses| {
      LeftSplits(t.ops[i].uses, |Answers(s.chans[d])|, c);
    }
  }

  lemma MovedLeft(t: Trace, s: State, s': State, d: nat, i: nat, c: int)
    requires Shape(t, s) && MovesOn(t, s, s', d) && i < |t.ops|
    ensures OpLeft(t, s', i, c) <= OpLeft(t, s, i, c)
  {
    if i == s.chans[d].cur.i { CurrentLeft(t, s, s', d, c); } else { OtherLeft(t, s, s', d, i, c); }
  }

  lemma SkipMoves(t: Trace, s: State, d: nat)
    requires Shape(t, s) && Enabled(t, s, Skip(d))
    ensures MovesOn(t, s, Finish(t, s, d), d)
  {
  }

  lemma LookMoves(t: Trace, s: State, d: nat)
    requires Shape(t, s) && Enabled(t, s, Look(d))
    ensures MovesOn(t, s, AfterLook(t, s, d), d)
  {
  }

  lemma ResolveMoves(t: Trace, s: State, d: nat, ok: bool)
    requires Shape(t, s) && Enabled(t, s, Resolve(d, ok))
    ensures MovesOn(t, s, AfterResolve(t, s, d, ok), d)
  {
  }

  lemma ExecuteMoves(t: Trace, s: State, d: nat, outcome: Outcome)
    requires Shape(t, s) && Enabled(t, s, Execute(d, outcome))
    ensures MovesOn(t, s, AfterExecute(t, s, d, outcome), d)
  {
  }

  lemma ReplyMoves(t: Trace, s: State, l: Label)
    requires Shape(t, s) && Enabled(t, s, l) && (l.AddWire? || l.AddFile? || l.Handle?)
    ensures MovesOn(t, s, After(t, s, l), l.c)
  {
  }

  lemma StepMoves(t: Trace, s: State, l: Label)
    requires Shape(t, s) && Enabled(t, s, l) && !l.Dispatch? && !l.Take?
    ensures MovesOn(t, s, After(t, s, l), l.c)
  {
    match l
    case Skip(d) => SkipMoves(t, s, d);
    case Look(d) => LookMoves(t, s, d);
    case Resolve(d, ok) => ResolveMoves(t, s, d, ok);
    case Execute(d, outcome) => ExecuteMoves(t, s, d, outcome);
    case AddWire(_) => ReplyMoves(t, s, l);
    case AddFile(_) => ReplyMoves(t, s, l);
    case Handle(_, _) => ReplyMoves(t, s, l);
  }

  lemma StepLeft(t: Trace, s: State, l: Label, i: nat, c: int)
    requires Shape(t, s) && Enabled(t, s, l) && i < |t.ops|
    ensures OpLeft(t, After(t, s, l), i, c) <= OpLeft(t, s, i, c)
  {
    if l.Dispatch? {
      DispatchLeft(t, s, i, c);
    } else if l.Take? {
      TakeLeft(t, s, l.c, i, c);
    } else {
      StepMoves(t, s, l);
      MovedLeft(t, s, After(t, s, l), l.c, i, c);
    }
  }

  // ---- what a step gives ----

  /** Only the end of a wait gives an id. */
  lemma GivesWaits(t: Trace, s: State, l: Label, c: int)
    requires Shape(t, s) && GivesAt(t, s, l, c)
    ensures l.Resolve? && l.ok && Wanted(t, s, l.c, true) == c
  {
    assert ChanOk(t, BookOf(s), l.c, s.chans[l.c]);
    if !l.Take? { StepMoves(t, s, l); }
  }

  /** What a step does to the count of a cursor: what it gives is counted down. */
  predicate CountedDown(info: Info, info': Info, given: bool) {
    info'.usesLeft == info.usesLeft - if given then 1 else 0
  }

  /** A cursor goes from the manager's table when, and only when, it has no uses left. */
  predicate DroppedAtLast(s: State, c: int) {
    c in s.infos && (c in s.present <==> s.infos[c].usesLeft > 0)
  }

  lemma ResolveCounts(t: Trace, s: State, d: nat, ok: bool, c: int)
    requires Shape(t, s) && Enabled(t, s, Resolve(d, ok)) && DroppedAtLast(s, c)
    ensures var s' := AfterResolve(t, s, d, ok);
            && DroppedAtLast(s', c) && CountedDown(s.infos[c], s'.infos[c], GivesAt(t, s, Resolve(d, ok), c))
  {
    assert ChanOk(t, BookOf(s), d, s.chans[d]);
  }

  lemma {:induction false} HandleAllCounts(infos: map<int, Info>, present: set<int>, complete: map<OpKey, Pair>,
                                           order: seq<OpKey>, c: int)
    requires forall i: nat :: i < |order| ==> order[i] in complete && complete[order[i]].Full()
    requires c in infos
    ensures var infos' := HandleAll(infos, present, complete, order);
            c in infos' && infos'[c].usesLeft == infos[c].usesLeft
  {
    if order != [] {
      HandleAllCounts(infos, present, complete, order[..|order| - 1], c);
      assert complete[order[|order| - 1]].Full();
    }
  }

  lemma SilentCounts(t: Trace, s: State, l: Label, c: int)
    requires Shape(t, s) && Enabled(t, s, l) && !l.Resolve? && c in s.infos
    ensures var s' := After(t, s, l);
            && c in s'.infos && s'.infos[c].usesLeft == s.infos[c].usesLeft && s'.present == s.present
  {
    if l.Handle? { HandleAllCounts(s.infos, s.present, s.replies.complete, l.order, c); }
  }

  lemma StepCounts(t: Trace, s: State, l: Label, c: int)
    requires Shape(t, s) && Enabled(t, s, l) && DroppedAtLast(s, c)
    ensures var s' := After(t, s, l);
            DroppedAtLast(s', c) && CountedDown(s.infos[c], s'.infos[c], GivesAt(t, s, l, c))
  {
    if l.Resolve? {
      ResolveCounts(t, s, l.c, l.ok, c);
    } else {
      SilentCounts(t, s, l, c);
      if GivesAt(t, s, l, c) { GivesWaits(t, s, l, c); }
    }
  }

  lemma StepAhead(t: Trace, s: State, l: Label, c: int)
    requires Shape(t, s) && Enabled(t, s, l)
    ensures UsesAhead(t, After(t, s, l), |t.ops|, c) + (if GivesAt(t, s, l, c) then 1 else 0) <= UsesAhead(t, s, |t.ops|, c)
  {
    var s' := After(t, s, l);
    forall i: nat | i < |t.ops| ensures OpLeft(t, s', i, c) <= OpLeft(t, s, i, c) {
      StepLeft(t, s, l, i, c);
    }
    if GivesAt(t, s, l, c) {
      GivesWaits(t, s, l, c);
      StepMoves(t, s, l);
      CurrentLeft(t, s, s', l.c, c);
      AheadShrinks(t, s, s', |t.ops|, s.chans[l.c].cur.i, 1, c);
    } else {
      AheadShrinks(t, s, s', |t.ops|, 0, 0, c);
    }
  }

  // ---- over whole runs ----

  /** How many ids a run gives for cursor c. */
  ghost function Given(t: Trace, s: State, ls: seq<Label>, c: int): nat
    decreases |ls|
  {
    if ls == [] || !Enabled(t, s, ls[0]) then 0
    else (if GivesAt(t, s, ls[0], c) then 1 else 0) + Given(t, After(t, s, ls[0]), ls[1..], c)
  }

  ghost predicate Counted(t: Trace, s: State, c: int) {
    DroppedAtLast(s, c) && s.infos[c].usesLeft >= UsesAhead(t, s, |t.ops|, c)
  }

  lemma StartCounted(t: Trace, c: int)
    requires WellRecorded(t) && c in t.infos
    ensures Counted(t, Start(t), c) && t.infos[c].usesLeft == UseCount(t.ops, c)
  {
    PositiveCursor(t, c);
    CountersSpec(t.ops, c);
    AheadAtStart(t, |t.ops|, c);
    assert t.ops[..|t.ops|] == t.ops;
  }

  lemma {:induction false} RunCounted(t: Trace, s: State, ls: seq<Label>, s': State, c: int)
    requires Shape(t, s) && Counted(t, s, c) && Reaches(t, s, ls, s')
    ensures Counted(t, s', c) && s'.infos[c].usesLeft + Given(t, s, ls, c) == s.infos[c].usesLeft
    decreases |ls|
  {
    if ls != [] {
      StepShape(t, s, ls[0]);
      StepCounts(t, s, ls[0], c);
      StepAhead(t, s, ls[0], c);
      RunCounted(t, After(t, s, ls[0]), ls[1..], s', c);
    }
  }

  /** In every reachable state: the uses left and the ids given add up to the uses recorded, and a
      cursor is in the manager's table exactly as long as it has uses left. */
  lemma UsesAddUp(t: Trace, ls: seq<Label>, s: State, c: int)
    requires WellRecorded(t) && Reaches(t, Start(t), ls, s) && c in t.infos
    ensures c in s.infos && s.infos[c].usesLeft + Given(t, Start(t), ls, c) == UseCount(t.ops, c)
    ensures c in s.present <==> s.infos[c].usesLeft > 0
    ensures s.infos[c].usesLeft >= UsesAhead(t, s, |t.ops|, c)
  {
    StartShape(t);
    StartCounted(t, c);
    RunCounted(t, Start(t), ls, s, c);
  }

  /** The cursor that the op on channel d asks for next. */
  function Asked(t: Trace, s: State, d: nat): int
    requires At(t, s, d) && IsAsking(s.chans[d].cur) && OpAt(t, s, d).Request?
    requires |s.chans[d].cur.phase.got| < |OpAt(t, s, d).uses|
  {
    OpAt(t, s, d).uses[|s.chans[d].cur.phase.got|]
  }

  /** Channel d is about to ask for a cursor, or waits for it. */
  predicate AsksNext(t: Trace, s: State, d: nat) {
    && At(t, s, d) && IsAsking(s.chans[d].cur) && OpAt(t, s, d).Request?
    && |s.chans[d].cur.phase.got| < |OpAt(t, s, d).uses|
  }

  /** No use finds its cursor dropped by the uses before it. */
  lemma AskedIsPresent(t: Trace, ls: seq<Label>, s: State, d: nat)
    requires WellRecorded(t) && Reaches(t, Start(t), ls, s) && AsksNext(t, s, d) && Asked(t, s, d) in t.infos
    ensures Asked(t, s, d) in s.present
  {
    var c, i := Asked(t, s, d), s.chans[d].cur.i;
    StartInv(t);
    ReachableInv(t, Start(t), ls, s);
    UsesAddUp(t, ls, s, c);
    assert ChanOk(t, BookOf(s), d, s.chans[d]);
    assert Mine(t, BookOf(s), d, i);
    LeftSplits(t.ops[i].uses, |s.chans[d].cur.phase.got|, c);
    AheadOfOne(t, s, |t.ops|, i, c);
  }
}
