/** What GetCursor answers comes from the server, comes to every use asked for in time, and is
    what is sent. */
module PlaybackAnswers {
  import opened Cursors
  import opened Execution
  import opened Playback
  import opened PlaybackShape
  import opened PlaybackProgress
  import opened PlaybackRuns
  import opened PlaybackUses

  // ---- a use that is asked for once the live id is known ----

  /** Op i has asked on channel d for the cursor after the answers `got`, and was given `live`,
      unless it is still at it. */
  predicate AnsweredWith(s: State, d: nat, i: nat, got: seq<Half>, live: int) {
    || i in s.done
    || (In(s, d, i) && (IsAsking(s.chans[d].cur) ==>
          || s.chans[d].cur.phase.got == got
          || (|s.chans[d].cur.phase.got| > |got| && s.chans[d].cur.phase.got[|got|] == Got(live)))
        && (s.chans[d].cur.phase.Executing? ==>
              |s.chans[d].cur.phase.got| > |got| && s.chans[d].cur.phase.got[|got|] == Got(live)))
  }

  predicate Known(s: State, c: int, live: int) {
    c in s.infos && s.infos[c].success && s.infos[c].live == live
  }

  lemma KnownStays(t: Trace, s: State, l: Label, c: int, live: int)
    requires Inv(t, s) && Enabled(t, s, l) && c in t.infos && Known(s, c, live)
    ensures Known(After(t, s, l), c, live)
  {
    LiveIsFixed(t, s, l, c);
  }

  lemma FailedKept(t: Trace, s: State, l: Label, c: int)
    requires Enabled(t, s, l) && !l.Handle? && c in s.infos && s.infos[c].failed
    ensures c in After(t, s, l).infos && After(t, s, l).infos[c].failed
  {
  }

  lemma FailedStays(t: Trace, s: State, l: Label, c: int)
    requires Inv(t, s) && Enabled(t, s, l) && c in t.infos && s.infos[c].failed
    ensures c in After(t, s, l).infos && After(t, s, l).infos[c].failed
  {
    assert CursorOk(t, s, c);
    if l.Handle? {
      HandleAllSets(s.infos, s.present, s.replies.complete, l.order, c);
    } else {
      FailedKept(t, s, l, c);
    }
  }

  /** The steps on channel d other than those of GetCursor. */
  lemma OtherAnswered(t: Trace, s: State, l: Label, d: nat, i: nat, got: seq<Half>, live: int)
    requires Shape(t, s) && Enabled(t, s, l) && AnsweredWith(s, d, i, got, live)
    requires !((l.Look? || l.Resolve?) && l.c == d)
    ensures AnsweredWith(After(t, s, l), d, i, got, live)
  {
    if l.Dispatch? {
      DispatchEffect(t, s);
    } else if !l.Take? {
      StepMoves(t, s, l);
    }
  }

  lemma LookAnswered(t: Trace, s: State, d: nat, i: nat, got: seq<Half>, c: int, live: int)
    requires Shape(t, s) && Enabled(t, s, Look(d)) && AnsweredWith(s, d, i, got, live) && i < |t.ops|
    requires t.ops[i].Request? && |got| < |t.ops[i].uses| && t.ops[i].uses[|got|] == c
    requires In(s, d, i) && s.chans[d].cur.phase.got == got ==> Known(s, c, live) && c in s.present
    ensures AnsweredWith(AfterLook(t, s, d), d, i, got, live)
  {
  }

  lemma ResolveAnswered(t: Trace, s: State, d: nat, ok: bool, i: nat, got: seq<Half>, c: int, live: int)
    requires Shape(t, s) && Enabled(t, s, Resolve(d, ok)) && AnsweredWith(s, d, i, got, live) && i < |t.ops|
    requires t.ops[i].Request? && |got| < |t.ops[i].uses| && t.ops[i].uses[|got|] == c
    requires Known(s, c, live) && !s.infos[c].failed
    ensures AnsweredWith(AfterResolve(t, s, d, ok), d, i, got, live)
  {
  }

  lemma StepAnswered(t: Trace, ls: seq<Label>, s: State, l: Label, d: nat, i: nat, got: seq<Half>, c: int, live: int)
    requires WellRecorded(t) && Reaches(t, Start(t), ls, s) && Inv(t, s) && Enabled(t, s, l)
    requires AnsweredWith(s, d, i, got, live) && i < |t.ops| && t.ops[i].Request?
    requires |got| < |t.ops[i].uses| && t.ops[i].uses[|got|] == c && c in t.infos
    requires Known(s, c, live) && !s.infos[c].failed
    ensures AnsweredWith(After(t, s, l), d, i, got, live)
  {
    if l == Look(d) {
      if In(s, d, i) && s.chans[d].cur.phase.got == got { AskedIsPresent(t, ls, s, d); }
      LookAnswered(t, s, d, i, got, c, live);
    } else if l.Resolve? && l.c == d {
      ResolveAnswered(t, s, d, l.ok, i, got, c, live);
    } else {
      OtherAnswered(t, s, l, d, i, got, live);
    }
  }

  lemma {:induction false} RunAnswered(t: Trace, ls0: seq<Label>, s: State, ls: seq<Label>, s': State, d: nat, i: nat,
                                       got: seq<Half>, c: int, live: int)
    requires WellRecorded(t) && Reaches(t, Start(t), ls0, s) && Inv(t, s) && Reaches(t, s, ls, s')
    requires AnsweredWith(s, d, i, got, live) && i < |t.ops| && t.ops[i].Request?
    requires |got| < |t.ops[i].uses| && t.ops[i].uses[|got|] == c && c in t.infos
    requires Known(s, c, live)
    ensures c in s'.infos && (s.infos[c].failed ==> s'.infos[c].failed)
    ensures !s'.infos[c].failed ==> AnsweredWith(s', d, i, got, live)
    decreases |ls|
  {
    if ls != [] {
      var m := After(t, s, ls[0]);
      StepInv(t, s, ls[0]);
      KnownStays(t, s, ls[0], c, live);
      ReachesSnoc(t, Start(t), ls0, s, ls[0]);
      if s.infos[c].failed {
        FailedStays(t, s, ls[0], c);
        RunFailed(t, m, ls[1..], s', c);
      } else {
        StepAnswered(t, ls0, s, ls[0], d, i, got, c, live);
        RunAnswered(t, ls0 + [ls[0]], m, ls[1..], s', d, i, got, c, live);
      }
    }
  }

  lemma {:induction false} RunFailed(t: Trace, s: State, ls: seq<Label>, s': State, c: int)
    requires Inv(t, s) && Reaches(t, s, ls, s') && c in t.infos && c in s.infos && s.infos[c].failed
    ensures c in s'.infos && s'.infos[c].failed
    decreases |ls|
  {
    if ls != [] {
      StepInv(t, s, ls[0]);
      FailedStays(t, s, ls[0], c);
      RunFailed(t, After(t, s, ls[0]), ls[1..], s', c);
    }
  }

  /** Every recorded use that is asked for when the live id is known is answered with it, in any
      continuation of the run, unless the cursor's request is then known to have failed. */
  lemma KnownIsAnswered(t: Trace, ls: seq<Label>, s: State, ls': seq<Label>, s': State, d: nat, live: int)
    requires WellRecorded(t) && Reaches(t, Start(t), ls, s) && Reaches(t, s, ls', s')
    requires AsksNext(t, s, d) && Asked(t, s, d) in t.infos && Known(s, Asked(t, s, d), live)
    requires Asked(t, s, d) in s'.infos && !s'.infos[Asked(t, s, d)].failed
    requires In(s', d, s.chans[d].cur.i) && |Answers(s'.chans[d])| > |s.chans[d].cur.phase.got|
    ensures Answers(s'.chans[d])[|s.chans[d].cur.phase.got|] == Got(live)
  {
    StartInv(t);
    ReachableInv(t, Start(t), ls, s);
    ReachableInv(t, s, ls', s');
    var i, got, c := s.chans[d].cur.i, s.chans[d].cur.phase.got, Asked(t, s, d);
    RunAnswered(t, ls, s, ls', s', d, i, got, c, live);
    assert ChanOk(t, BookOf(s'), d, s'.chans[d]);
  }

  // ---- what is sent ----

  /** The answers that rewriteCursors has been given. */
  function Given(got: seq<Half>): (nat, int) -> Half {
    (k: nat, _: int) => if k < |got| then got[k] else Missing
  }

  lemma SentFromAnswers(uses: seq<int>, got: seq<Half>) returns (p: seq<nat>)
    requires |got| == |uses| && exists h <- got :: h.Got?
    ensures var sent := Rewritten(uses, Given(got));
            && sent != [] && Increasing(p) && |sent| == |p| && (forall k: nat :: k in p <==> k < |uses| && got[k].Got?)
            && forall j: nat :: j < |p| ==> p[j] < |uses| && got[p[j]] == Got(sent[j])
  {
    p := RewrittenFound(uses, Given(got));
    var h :| h in got && h.Got?;
    var k: nat :| k < |got| && got[k] == h;
    assert k in p;
  }

  lemma GotIsLive(t: Trace, s: State, d: nat, k: nat)
    requires AnswersOk(t, s) && d < |s.chans| && k < |Answers(s.chans[d])|
    ensures AnswerOk(t, s.infos, s.chans[d].cur.i, k, Answers(s.chans[d])[k])
  {
    assert ChanAnswersOk(t, s.infos, s.chans[d]);
  }

  /** An op that is executed is sent with the live ids of exactly those of its cursors for which
      GetCursor had one, in order; with one at least, if its cursors are rewritten. */
  lemma SentAreLive(t: Trace, ls: seq<Label>, s: State, d: nat) returns (p: seq<nat>)
    requires WellRecorded(t) && Reaches(t, Start(t), ls, s) && At(t, s, d) && s.chans[d].cur.phase.Executing?
    requires OpAt(t, s, d).Request? && OpAt(t, s, d).rewrites
    ensures var uses, got := OpAt(t, s, d).uses, s.chans[d].cur.phase.got;
            var sent := Rewritten(uses, Given(got));
            && |got| == |uses| && sent != [] && Increasing(p) && |sent| == |p|
            && (forall k: nat :: k in p <==> k < |uses| && got[k].Got?)
            && forall j: nat :: j < |p| ==> p[j] < |uses| && Known(s, uses[p[j]], sent[j]) && sent[j] != 0
  {
    AnswersAlongRun(t, ls, s, [], s);
    StartShape(t);
    ReachableShape(t, Start(t), ls, s);
    var uses, got := OpAt(t, s, d).uses, s.chans[d].cur.phase.got;
    assert ChanOk(t, BookOf(s), d, s.chans[d]);
    p := SentFromAnswers(uses, got);
    forall j: nat | j < |p|
      ensures p[j] < |uses| && Known(s, uses[p[j]], Rewritten(uses, Given(got))[j]) && Rewritten(uses, Given(got))[j] != 0
    {
      GotIsLive(t, s, d, p[j]);
    }
  }

  // ---- where a live id comes from ----

  /** The server's answer `live` to request i. */
  datatype Said = Said(i: nat, live: int)

  function SaidBy(s: State, l: Label): set<Said> {
    if l.Execute? && l.outcome.Replied? && l.c < |s.chans| && s.chans[l.c].cur.Busy? then
      {Said(s.chans[l.c].cur.i, l.outcome.cursor)}
    else {}
  }

  /** All that the server has said in a run. */
  ghost function SaidIn(t: Trace, s: State, ls: seq<Label>): set<Said>
    decreases |ls|
  {
    if ls == [] || !Enabled(t, s, ls[0]) then {}
    else SaidBy(s, ls[0]) + SaidIn(t, After(t, s, ls[0]), ls[1..])
  }

  /** The server said `live` to a request with this key. */
  ghost predicate KeySaid(t: Trace, heard: set<Said>, key: OpKey, live: int) {
    exists x <- heard :: x.i < |t.ops| && t.ops[x.i].Request? && t.ops[x.i].key == key && x.live == live
  }

  ghost predicate PairHeard(t: Trace, heard: set<Said>, key: OpKey, p: Pair) {
    p.wire.Got? ==> KeySaid(t, heard, key, p.wire.cursor)
  }

  /** The server said `live` to a request whose recorded reply carries c. */
  ghost predicate CursorSaid(t: Trace, heard: set<Said>, c: int, live: int) {
    exists j: nat :: Carries(t, j) && t.ops[j].cursor == c && KeySaid(t, heard, t.ops[j].key, live)
  }

  ghost predicate CurHeard(t: Trace, heard: set<Said>, cur: Current) {
    cur.Busy? && cur.phase.AddingWire? ==> Said(cur.i, cur.phase.live) in heard
  }

  ghost predicate InfoHeard(t: Trace, heard: set<Said>, infos: map<int, Info>, c: int) {
    c in infos && infos[c].success ==> CursorSaid(t, heard, c, infos[c].live)
  }

  ghost predicate Heard(t: Trace, heard: set<Said>, s: State) {
    && (forall d: nat :: d < |s.chans| ==> CurHeard(t, heard, s.chans[d].cur))
    && (forall k <- s.replies.incomplete :: PairHeard(t, heard, k, s.replies.incomplete[k]))
    && (forall k <- s.replies.complete :: PairHeard(t, heard, k, s.replies.complete[k]))
    && (forall c <- s.infos :: InfoHeard(t, heard, s.infos, c))
  }

  lemma HeardMore(t: Trace, heard: set<Said>, heard': set<Said>, s: State)
    requires Heard(t, heard, s) && heard <= heard'
    ensures Heard(t, heard', s)
  {
    forall c | c in s.infos ensures InfoHeard(t, heard', s.infos, c) {
      assert InfoHeard(t, heard, s.infos, c);
    }
  }

  lemma DispatchHeard(t: Trace, heard: set<Said>, s: State)
    requires Heard(t, heard, s) && Enabled(t, s, Dispatch)
    ensures Heard(t, heard, AfterDispatch(t, s))
  {
    DispatchEffect(t, s);
    var s' := AfterDispatch(t, s);
    forall d: nat | d < |s'.chans| ensures CurHeard(t, heard, s'.chans[d].cur) {
      if d < |s.chans| { assert CurHeard(t, heard, s.chans[d].cur); }
    }
  }

  /** What a step does to channels and cursors that does not concern what has been said. */
  predicate SameIds(infos: map<int, Info>, infos': map<int, Info>) {
    infos'.Keys == infos.Keys
    && forall c <- infos :: infos'[c].success == infos[c].success && infos'[c].live == infos[c].live
  }

  lemma ChannelHeard(t: Trace, heard: set<Said>, s: State, s': State, d: nat)
    requires Heard(t, heard, s) && d < |s.chans| == |s'.chans| && s'.replies == s.replies && SameIds(s.infos, s'.infos)
    requires forall e: nat :: e < |s.chans| && e != d ==> s'.chans[e].cur == s.chans[e].cur
    requires CurHeard(t, heard, s'.chans[d].cur)
    ensures Heard(t, heard, s')
  {
    forall e: nat | e < |s'.chans| ensures CurHeard(t, heard, s'.chans[e].cur) {
      assert CurHeard(t, heard, s.chans[e].cur);
    }
    forall c | c in s'.infos ensures InfoHeard(t, heard, s'.infos, c) {
      assert InfoHeard(t, heard, s.infos, c);
    }
  }

  lemma CursorStepHeard(t: Trace, heard: set<Said>, s: State, l: Label)
    requires Heard(t, heard, s) && Enabled(t, s, l) && (l.Take? || l.Skip? || l.Look? || l.Resolve?)
    ensures Heard(t, heard, After(t, s, l))
  {
    ChannelHeard(t, heard, s, After(t, s, l), l.c);
  }

  lemma ExecuteHeard(t: Trace, heard: set<Said>, s: State, d: nat, outcome: Outcome)
    requires Heard(t, heard, s) && Enabled(t, s, Execute(d, outcome))
    ensures Heard(t, heard + SaidBy(s, Execute(d, outcome)), AfterExecute(t, s, d, outcome))
  {
    var heard' := heard + SaidBy(s, Execute(d, outcome));
    HeardMore(t, heard, heard', s);
    ChannelHeard(t, heard', s, AfterExecute(t, s, d, outcome), d);
  }

  lemma AddHeard(t: Trace, heard: set<Said>, s: State, l: Label)
    requires Heard(t, heard, s) && Enabled(t, s, l) && (l.AddWire? || l.AddFile?)
    ensures Heard(t, heard, After(t, s, l))
  {
    var s' := After(t, s, l);
    assert CurHeard(t, heard, s.chans[l.c].cur);
    forall d: nat | d < |s'.chans| ensures CurHeard(t, heard, s'.chans[d].cur) {
      assert CurHeard(t, heard, s.chans[d].cur);
    }
    forall k | k in s'.replies.incomplete ensures PairHeard(t, heard, k, s'.replies.incomplete[k]) {
      assert k in s.replies.incomplete ==> PairHeard(t, heard, k, s.replies.incomplete[k]);
    }
    forall k | k in s'.replies.complete ensures PairHeard(t, heard, k, s'.replies.complete[k]) {
      assert k in s.replies.complete ==> PairHeard(t, heard, k, s.replies.complete[k]);
      assert k in s.replies.incomplete ==> PairHeard(t, heard, k, s.replies.incomplete[k]);
    }
    assert s'.infos == s.infos;
  }

  lemma {:induction false} HandleAllHeard(t: Trace, heard: set<Said>, infos: map<int, Info>, present: set<int>,
                                          complete: map<OpKey, Pair>, order: seq<OpKey>, c: int)
    requires forall i: nat :: i < |order| ==> order[i] in complete && complete[order[i]].Full()
    requires forall k <- complete :: PairHeard(t, heard, k, complete[k]) && Recorded(t, k, complete[k].file)
    requires InfoHeard(t, heard, infos, c)
    ensures InfoHeard(t, heard, HandleAll(infos, present, complete, order), c)
  {
    if order != [] {
      var order0, k := order[..|order| - 1], order[|order| - 1];
      HandleAllHeard(t, heard, infos, present, complete, order0, c);
      assert complete[k].Full() && PairHeard(t, heard, k, complete[k]) && Recorded(t, k, complete[k].file);
    }
  }

  lemma HandleHeard(t: Trace, heard: set<Said>, s: State, d: nat, order: seq<OpKey>)
    requires Inv(t, s) && Heard(t, heard, s) && Enabled(t, s, Handle(d, order))
    ensures Heard(t, heard, AfterHandle(t, s, d, order))
  {
    var s' := AfterHandle(t, s, d, order);
    forall e: nat | e < |s'.chans| ensures CurHeard(t, heard, s'.chans[e].cur) {
      assert CurHeard(t, heard, s.chans[e].cur);
    }
    forall c | c in s'.infos ensures InfoHeard(t, heard, s'.infos, c) {
      assert c in s.infos ==> InfoHeard(t, heard, s.infos, c);
      HandleAllHeard(t, heard, s.infos, s.present, s.replies.complete, order, c);
    }
  }

  lemma StepHeard(t: Trace, heard: set<Said>, s: State, l: Label)
    requires Inv(t, s) && Heard(t, heard, s) && Enabled(t, s, l)
    ensures Heard(t, heard + SaidBy(s, l), After(t, s, l))
  {
    if l.Execute? {
      ExecuteHeard(t, heard, s, l.c, l.outcome);
    } else {
      assert heard + SaidBy(s, l) == heard;
      if l.Dispatch? {
        DispatchHeard(t, heard, s);
      } else if l.AddWire? || l.AddFile? {
        AddHeard(t, heard, s, l);
      } else if l.Handle? {
        HandleHeard(t, heard, s, l.c, l.order);
      } else {
        CursorStepHeard(t, heard, s, l);
      }
    }
  }

  lemma SaidNext(t: Trace, heard: set<Said>, s: State, ls: seq<Label>)
    requires ls != [] && Enabled(t, s, ls[0])
    ensures heard + SaidIn(t, s, ls) == heard + SaidBy(s, ls[0]) + SaidIn(t, After(t, s, ls[0]), ls[1..])
  {
  }

  lemma {:induction false} RunHeard(t: Trace, heard: set<Said>, s: State, ls: seq<Label>, s': State)
    requires Inv(t, s) && Heard(t, heard, s) && Reaches(t, s, ls, s')
    ensures Heard(t, heard + SaidIn(t, s, ls), s')
    decreases |ls|
  {
    if ls == [] {
      assert heard + SaidIn(t, s, ls) == heard;
    } else {
      StepInv(t, s, ls[0]);
      StepHeard(t, heard, s, ls[0]);
      RunHeard(t, heard + SaidBy(s, ls[0]), After(t, s, ls[0]), ls[1..], s');
      SaidNext(t, heard, s, ls);
    }
  }

  /** The live id of a recorded cursor is what the server said, in this run, to a request whose
      recorded reply carries that cursor. */
  lemma LiveIdIsSaid(t: Trace, ls: seq<Label>, s: State, c: int)
    requires WellRecorded(t) && Reaches(t, Start(t), ls, s) && c in t.infos && c in s.infos && s.infos[c].success
    ensures CursorSaid(t, SaidIn(t, Start(t), ls), c, s.infos[c].live)
  {
    StartInv(t);
    forall k | k in t.infos ensures InfoHeard(t, {}, t.infos, k) {
      OriginIsKey(t, k);
    }
    RunHeard(t, {}, Start(t), ls, s);
    assert {} + SaidIn(t, Start(t), ls) == SaidIn(t, Start(t), ls);
    assert InfoHeard(t, SaidIn(t, Start(t), ls), s.infos, c);
  }
}
