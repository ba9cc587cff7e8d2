/** Runs of playback: which connections can move, how many steps are left, who waits for what
    and what GetCursor answers. */
module PlaybackRuns {
  import opened Cursors
  import opened Execution
  import opened Playback
  import opened PlaybackShape
  import opened PlaybackProgress

  lemma KeysInOrder(keys: set<OpKey>) returns (order: seq<OpKey>)
    ensures forall i: nat :: i < |order| ==> order[i] in keys
    ensures forall k <- keys :: k in order
    decreases keys
  {
    order := [];
    if keys != {} {
      var k: OpKey :| k in keys;
      var rest := KeysInOrder(keys - {k});
      order := [k] + rest;
    }
  }

  /** A connection can move unless it waits for a cursor. */
  lemma PhaseMoves(t: Trace, s: State, c: nat) returns (l: Label)
    requires Inv(t, s) && c < |s.chans| && s.chans[c].cur.Busy? && !s.chans[c].cur.phase.Waiting?
    ensures Enabled(t, s, l)
  {
    assert ChanOk(t, BookOf(s), c, s.chans[c]);
    match s.chans[c].cur.phase
    case Skipping => l := Skip(c);
    case Looking(got) => l := Look(c);
    case Executing(got) => l := Execute(c, Replied(1));
    case AddingWire(live) => l := AddWire(c);
    case AddingFile => l := AddFile(c);
    case Handling =>
      var order := KeysInOrder(s.replies.complete.Keys);
      l := Handle(c, order);
  }

  lemma TakeMoves(t: Trace, s: State, c: nat)
    requires Shape(t, s) && c < |s.chans| && s.chans[c].cur.Idle? && s.chans[c].queue != []
    ensures Enabled(t, s, Take(c))
  {
    assert ChanOk(t, BookOf(s), c, s.chans[c]);
    assert Mine(t, BookOf(s), c, s.chans[c].queue[0]);
  }

  // ---- how many steps are left ----

  function OpWork(op: Op): nat {
    match op
    case Request(_, _, _, uses) => 2 * |uses| + 5
    case Reply(_, _, _) => 3
    case Eof(_) => 0
  }

  function UsesLeft(op: Op, got: seq<Half>): nat {
    if op.Request? && |got| <= |op.uses| then 2 * (|op.uses| - |got|) else 0
  }

  function PhaseWork(op: Op, phase: Phase): nat {
    match phase
    case Skipping => 1
    case Looking(got) => UsesLeft(op, got) + 4
    case Waiting(got) => UsesLeft(op, got) + 3
    case Executing(_) => 3
    case AddingWire(_) => 2
    case AddingFile => 2
    case Handling => 1
  }

  function WorkOf(ops: seq<Op>, i: nat): nat {
    if i < |ops| then OpWork(ops[i]) else 0
  }

  function QueueWork(ops: seq<Op>, queue: seq<nat>): nat {
    if queue == [] then 0 else WorkOf(ops, queue[0]) + QueueWork(ops, queue[1..])
  }

  function ChanWork(ops: seq<Op>, ch: Chan): nat {
    QueueWork(ops, ch.queue) +
    if ch.cur.Busy? && ch.cur.i < |ops| then PhaseWork(ops[ch.cur.i], ch.cur.phase) else 0
  }

  function ChansWork(ops: seq<Op>, chans: seq<Chan>): nat {
    if chans == [] then 0 else ChanWork(ops, chans[0]) + ChansWork(ops, chans[1..])
  }

  function Undispatched(ops: seq<Op>, next: nat): nat
    decreases |ops| - next
  {
    if next >= |ops| then 0 else OpWork(ops[next]) + 1 + Undispatched(ops, next + 1)
  }

  function Work(t: Trace, s: State): nat {
    Undispatched(t.ops, s.next) + ChansWork(t.ops, s.chans)
  }

  lemma {:induction false} ChansWorkUpdate(ops: seq<Op>, chans: seq<Chan>, c: nat, ch: Chan)
    requires c < |chans|
    ensures ChansWork(ops, chans[c := ch]) + ChanWork(ops, chans[c]) == ChansWork(ops, chans) + ChanWork(ops, ch)
  {
    var chans' := chans[c := ch];
    if c == 0 {
      assert chans'[1..] == chans[1..];
    } else {
      ChansWorkUpdate(ops, chans[1..], c - 1, ch);
      assert chans'[1..] == chans[1..][c - 1 := ch];
    }
  }

  lemma {:induction false} ChansWorkSnoc(ops: seq<Op>, chans: seq<Chan>, ch: Chan)
    ensures ChansWork(ops, chans + [ch]) == ChansWork(ops, chans) + ChanWork(ops, ch)
  {
    if chans == [] {
      assert [] + [ch] == [ch];
      assert [ch][1..] == [];
    } else {
      ChansWorkSnoc(ops, chans[1..], ch);
      assert (chans + [ch])[1..] == chans[1..] + [ch];
    }
  }

  lemma {:induction false} QueueWorkSnoc(ops: seq<Op>, queue: seq<nat>, i: nat)
    ensures QueueWork(ops, queue + [i]) == QueueWork(ops, queue) + WorkOf(ops, i)
  {
    if queue == [] {
      assert [] + [i] == [i];
      assert [i][1..] == [];
    } else {
      QueueWorkSnoc(ops, queue[1..], i);
      assert (queue + [i])[1..] == queue[1..] + [i];
    }
  }

  /** A new channel brings no work. */
  lemma RouteWork(t: Trace, s: State, conn: int)
    ensures ChansWork(t.ops, WithRoute(s, conn).chans) == ChansWork(t.ops, s.chans)
  {
    ChansWorkSnoc(t.ops, s.chans, Chan([], false, Idle));
  }

  /** An op that is sent to a channel moves its work there; the end of a connection has none. */
  lemma SentWork(ops: seq<Op>, ch: Chan, i: nat)
    requires i < |ops|
    ensures ChanWork(ops, ch.(closed := true)) == ChanWork(ops, ch)
    ensures ChanWork(ops, ch.(queue := ch.queue + [i])) == ChanWork(ops, ch) + OpWork(ops[i])
  {
    QueueWorkSnoc(ops, ch.queue, i);
  }

  /** The channel the next op goes to, and what becomes of it. */
  lemma DispatchedChan(t: Trace, s: State) returns (c: nat, ch: Chan)
    requires Enabled(t, s, Dispatch)
    ensures var chans := WithRoute(s, t.ops[s.next].conn).chans;
            && c < |chans| && AfterDispatch(t, s).chans == chans[c := ch] && AfterDispatch(t, s).next == s.next + 1
            && ch == if t.ops[s.next].Eof? then chans[c].(closed := true) else chans[c].(queue := chans[c].queue + [s.next])
  {
    var s1 := WithRoute(s, t.ops[s.next].conn);
    c := s1.route[t.ops[s.next].conn];
    ch := AfterDispatch(t, s).chans[c];
  }

  lemma DispatchWork(t: Trace, s: State)
    requires Enabled(t, s, Dispatch)
    ensures Work(t, AfterDispatch(t, s)) < Work(t, s)
  {
    var chans := WithRoute(s, t.ops[s.next].conn).chans;
    var c, ch := DispatchedChan(t, s);
    RouteWork(t, s, t.ops[s.next].conn);
    SentWork(t.ops, chans[c], s.next);
    ChansWorkUpdate(t.ops, chans, c, ch);
  }

  lemma ChanStepWork(t: Trace, s: State, s': State, c: nat)
    requires c < |s.chans| && s'.next == s.next && |s'.chans| == |s.chans| && s'.chans == s.chans[c := s'.chans[c]]
    requires ChanWork(t.ops, s'.chans[c]) < ChanWork(t.ops, s.chans[c])
    ensures Work(t, s') < Work(t, s)
  {
    ChansWorkUpdate(t.ops, s.chans, c, s'.chans[c]);
  }

  lemma TakeWork(t: Trace, s: State, c: nat)
    requires Enabled(t, s, Take(c))
    ensures Work(t, AfterTake(t, s, c)) < Work(t, s)
  {
    ChanStepWork(t, s, AfterTake(t, s, c), c);
  }

  lemma SkipWork(t: Trace, s: State, c: nat)
    requires Enabled(t, s, Skip(c))
    ensures Work(t, Finish(t, s, c)) < Work(t, s)
  {
    ChanStepWork(t, s, Finish(t, s, c), c);
  }

  lemma LookWork(t: Trace, s: State, c: nat)
    requires Enabled(t, s, Look(c))
    ensures Work(t, AfterLook(t, s, c)) < Work(t, s)
  {
    ChanStepWork(t, s, AfterLook(t, s, c), c);
  }

  lemma ResolveWork(t: Trace, s: State, c: nat, ok: bool)
    requires Enabled(t, s, Resolve(c, ok))
    ensures Work(t, AfterResolve(t, s, c, ok)) < Work(t, s)
  {
    ChanStepWork(t, s, AfterResolve(t, s, c, ok), c);
  }

  lemma ExecuteWork(t: Trace, s: State, c: nat, outcome: Outcome)
    requires Enabled(t, s, Execute(c, outcome))
    ensures Work(t, AfterExecute(t, s, c, outcome)) < Work(t, s)
  {
    ChanStepWork(t, s, AfterExecute(t, s, c, outcome), c);
  }

  lemma ReplyWork(t: Trace, s: State, l: Label)
    requires (l.AddWire? || l.AddFile? || l.Handle?) && Enabled(t, s, l)
    ensures Work(t, After(t, s, l)) < Work(t, s)
  {
    ChanStepWork(t, s, After(t, s, l), l.c);
  }

  /** Every step uses up part of a bounded amount of work. */
  lemma StepWork(t: Trace, s: State, l: Label)
    requires Enabled(t, s, l)
    ensures Work(t, After(t, s, l)) < Work(t, s)
  {
    match l
    case Dispatch => DispatchWork(t, s);
    case Take(c) => TakeWork(t, s, c);
    case Skip(c) => SkipWork(t, s, c);
    case Look(c) => LookWork(t, s, c);
    case Resolve(c, ok) => ResolveWork(t, s, c, ok);
    case Execute(c, outcome) => ExecuteWork(t, s, c, outcome);
    case AddWire(_) => ReplyWork(t, s, l);
    case AddFile(_) => ReplyWork(t, s, l);
    case Handle(_, _) => ReplyWork(t, s, l);
  }

  lemma {:induction false} RunIsShort(t: Trace, s: State, ls: seq<Label>, s': State)
    requires Reaches(t, s, ls, s')
    ensures |ls| + Work(t, s') <= Work(t, s)
    decreases |ls|
  {
    if ls != [] {
      StepWork(t, s, ls[0]);
      RunIsShort(t, After(t, s, ls[0]), ls[1..], s');
    }
  }

  lemma PlayedMeansDone(t: Trace, s: State)
    requires Shape(t, s) && AllPlayed(t, s)
    ensures forall i: nat :: i < |t.ops| ==> i in s.done
  {
    assert forall c: nat :: c < |s.chans| ==> s.chans[c] in s.chans;
    forall i: nat | i < |t.ops| ensures i in s.done {
      assert Located(s, i);
    }
  }

  // ---- which live id a recorded cursor stands for ----

  lemma LiveKept(t: Trace, s: State, l: Label, c: int)
    requires Enabled(t, s, l) && !l.Handle? && c in s.infos && s.infos[c].success
    ensures var s' := After(t, s, l);
            c in s'.infos && s'.infos[c].success && s'.infos[c].live == s.infos[c].live
  {
  }

  /** The live id of a cursor, once set, is never changed: later replies are ignored. */
  lemma LiveIsFixed(t: Trace, s: State, l: Label, c: int)
    requires Inv(t, s) && Enabled(t, s, l) && c in t.infos && s.infos[c].success
    ensures var s' := After(t, s, l);
            c in s'.infos && s'.infos[c].success && s'.infos[c].live == s.infos[c].live
  {
    assert CursorOk(t, s, c);
    if l.Handle? {
      HandleAllSets(s.infos, s.present, s.replies.complete, l.order, c);
    } else {
      LiveKept(t, s, l, c);
    }
  }

  // ---- who waits ----

  /** What channel ch waits for is known, or its op is one that may wait for it. */
  predicate WaitOk(t: Trace, infos: map<int, Info>, ch: Chan) {
    ch.cur.Busy? && ch.cur.phase.Waiting? ==>
      && ch.cur.i < |t.ops| && t.ops[ch.cur.i].Request? && |ch.cur.phase.got| < |t.ops[ch.cur.i].uses|
      && var c := t.ops[ch.cur.i].uses[|ch.cur.phase.got|];
         c in infos && c in t.infos && (infos[c].success || MayWait(t, ch.cur.i, c))
  }

  ghost predicate ConnsKept(t: Trace, infos: map<int, Info>) {
    forall c <- t.infos :: c in infos && infos[c].replyConn == t.infos[c].replyConn
  }

  ghost predicate WaitsOk(t: Trace, s: State) {
    ConnsKept(t, s.infos) && forall c: nat :: c < |s.chans| ==> WaitOk(t, s.infos, s.chans[c])
  }

  lemma ConnKept(t: Trace, s: State, l: Label, c: int)
    requires Enabled(t, s, l) && !l.Handle? && c in s.infos
    ensures c in After(t, s, l).infos && After(t, s, l).infos[c].replyConn == s.infos[c].replyConn
  {
  }

  lemma StepConns(t: Trace, s: State, l: Label)
    requires Inv(t, s) && ConnsKept(t, s.infos) && Enabled(t, s, l)
    ensures ConnsKept(t, After(t, s, l).infos)
  {
    forall c | c in t.infos
      ensures c in After(t, s, l).infos && After(t, s, l).infos[c].replyConn == t.infos[c].replyConn
    {
      assert CursorOk(t, s, c);
      if l.Handle? {
        HandleAllSets(s.infos, s.present, s.replies.complete, l.order, c);
      } else {
        ConnKept(t, s, l, c);
      }
    }
  }

  lemma LookWait(t: Trace, s: State, c: nat)
    requires Inv(t, s) && ConnsKept(t, s.infos) && Enabled(t, s, Look(c))
    ensures WaitOk(t, s.infos, AfterLook(t, s, c).chans[c])
  {
    assert ChanOk(t, BookOf(s), c, s.chans[c]);
  }

  predicate IsWaiting(cur: Current) {
    cur.Busy? && cur.phase.Waiting?
  }

  lemma ReplyWaits(t: Trace, s: State, l: Label, d: nat)
    requires (l.AddWire? || l.AddFile? || l.Handle?) && Enabled(t, s, l) && d < |After(t, s, l).chans|
    ensures d < |s.chans| && (After(t, s, l).chans[d].cur == s.chans[d].cur || !IsWaiting(After(t, s, l).chans[d].cur))
  {
  }

  lemma CursorWaits(t: Trace, s: State, l: Label, d: nat)
    requires (l.Look? || l.Resolve?) && Enabled(t, s, l) && d < |After(t, s, l).chans|
    ensures d < |s.chans|
    ensures l == Look(d) || After(t, s, l).chans[d].cur == s.chans[d].cur || !IsWaiting(After(t, s, l).chans[d].cur)
  {
  }

  lemma ActWaits(t: Trace, s: State, l: Label, d: nat)
    requires (l.Take? || l.Skip? || l.Execute?) && Enabled(t, s, l) && d < |After(t, s, l).chans|
    ensures d < |s.chans| && (After(t, s, l).chans[d].cur == s.chans[d].cur || !IsWaiting(After(t, s, l).chans[d].cur))
  {
  }

  /** A wait begins with Look. */
  lemma NewWait(t: Trace, s: State, l: Label, d: nat)
    requires Enabled(t, s, l) && d < |After(t, s, l).chans| && IsWaiting(After(t, s, l).chans[d].cur)
    ensures d < |s.chans| && (After(t, s, l).chans[d].cur == s.chans[d].cur || l == Look(d))
  {
    if l.Dispatch? {
      DispatchEffect(t, s);
    } else if l.AddWire? || l.AddFile? || l.Handle? {
      ReplyWaits(t, s, l, d);
    } else if l.Look? || l.Resolve? {
      CursorWaits(t, s, l, d);
    } else {
      ActWaits(t, s, l, d);
    }
  }

  lemma WaitStays(t: Trace, infos: map<int, Info>, infos': map<int, Info>, ch: Chan, ch': Chan)
    requires WaitOk(t, infos, ch) && Lives(t, infos, infos') && ch'.cur == ch.cur && infos.Keys == infos'.Keys
    ensures WaitOk(t, infos', ch')
  {
  }

  lemma StepWaits(t: Trace, s: State, l: Label)
    requires Inv(t, s) && WaitsOk(t, s) && Enabled(t, s, l)
    ensures WaitsOk(t, After(t, s, l))
  {
    var s' := After(t, s, l);
    StepConns(t, s, l);
    StepLives(t, s, l);
    StepShape(t, s, l);
    forall d: nat | d < |s'.chans| ensures WaitOk(t, s'.infos, s'.chans[d]) {
      if IsWaiting(s'.chans[d].cur) {
        NewWait(t, s, l, d);
        if l == Look(d) { LookWait(t, s, d); } else { WaitStays(t, s.infos, s'.infos, s.chans[d], s'.chans[d]); }
      }
    }
  }

  lemma {:induction false} ReachableWaits(t: Trace, s: State, ls: seq<Label>, s': State)
    requires Inv(t, s) && WaitsOk(t, s) && Reaches(t, s, ls, s')
    ensures WaitsOk(t, s')
    decreases |ls|
  {
    if ls != [] {
      StepWaits(t, s, ls[0]);
      StepInv(t, s, ls[0]);
      ReachableWaits(t, After(t, s, ls[0]), ls[1..], s');
    }
  }

  // ---- what GetCursor answers ----

  function Answers(ch: Chan): seq<Half> {
    if ch.cur.Busy? && (ch.cur.phase.Looking? || ch.cur.phase.Waiting? || ch.cur.phase.Executing?) then
      ch.cur.phase.got
    else []
  }

  predicate AnswerOk(t: Trace, infos: map<int, Info>, i: nat, k: nat, h: Half) {
    h.Got? ==>
      && i < |t.ops| && t.ops[i].Request? && k < |t.ops[i].uses|
      && var c := t.ops[i].uses[k];
         c in t.infos && c in infos && infos[c].success && infos[c].live == h.cursor && h.cursor != 0
  }

  ghost predicate ChanAnswersOk(t: Trace, infos: map<int, Info>, ch: Chan) {
    forall k: nat :: k < |Answers(ch)| ==> AnswerOk(t, infos, ch.cur.i, k, Answers(ch)[k])
  }

  /** Every answer GetCursor has given is the one live id of the cursor it was asked for. */
  ghost predicate AnswersOk(t: Trace, s: State) {
    forall c: nat :: c < |s.chans| ==> ChanAnswersOk(t, s.infos, s.chans[c])
  }

  /** Live ids are never changed or lost. */
  ghost predicate Lives(t: Trace, infos: map<int, Info>, infos': map<int, Info>) {
    forall c <- t.infos :: c in infos && infos[c].success ==>
      c in infos' && infos'[c].success && infos'[c].live == infos[c].live
  }

  lemma StepLives(t: Trace, s: State, l: Label)
    requires Inv(t, s) && Enabled(t, s, l)
    ensures Lives(t, s.infos, After(t, s, l).infos)
  {
    forall c | c in t.infos && c in s.infos && s.infos[c].success
      ensures c in After(t, s, l).infos && After(t, s, l).infos[c].success
              && After(t, s, l).infos[c].live == s.infos[c].live
    {
      LiveIsFixed(t, s, l, c);
    }
  }

  lemma AnswersStay(t: Trace, infos: map<int, Info>, infos': map<int, Info>, ch: Chan, ch': Chan)
    requires ChanAnswersOk(t, infos, ch) && Lives(t, infos, infos')
    requires Answers(ch') == [] || (Answers(ch') == Answers(ch) && ch'.cur.i == ch.cur.i)
    ensures ChanAnswersOk(t, infos', ch')
  {
    if Answers(ch') != [] {
      forall k: nat | k < |Answers(ch')| ensures AnswerOk(t, infos', ch'.cur.i, k, Answers(ch')[k]) {
        assert AnswerOk(t, infos, ch.cur.i, k, Answers(ch)[k]);
      }
    }
  }

  lemma AnswersSnoc(t: Trace, infos: map<int, Info>, infos': map<int, Info>, ch: Chan, ch': Chan, h: Half)
    requires ChanAnswersOk(t, infos, ch) && Lives(t, infos, infos')
    requires Answers(ch') == Answers(ch) + [h] && ch.cur.Busy? && ch'.cur.i == ch.cur.i
    requires AnswerOk(t, infos', ch.cur.i, |Answers(ch)|, h)
    ensures ChanAnswersOk(t, infos', ch')
  {
    forall k: nat | k < |Answers(ch')| ensures AnswerOk(t, infos', ch'.cur.i, k, Answers(ch')[k]) {
      if k < |Answers(ch)| { assert AnswerOk(t, infos, ch.cur.i, k, Answers(ch)[k]); }
    }
  }

  /** The channel has as many answers as before for its op, or is on to another. */
  predicate SameAnswers(ch: Chan, ch': Chan) {
    Answers(ch') == [] || (Answers(ch') == Answers(ch) && ch'.cur.i == ch.cur.i)
  }

  lemma LookChan(t: Trace, s: State, c: nat)
    requires Enabled(t, s, Look(c))
    ensures var ch, ch' := s.chans[c], AfterLook(t, s, c).chans[c];
            || SameAnswers(ch, ch')
            || (Answers(ch') == Answers(ch) + [Missing] && ch.cur.Busy? && ch'.cur.i == ch.cur.i)
  {
  }

  lemma LookAnswers(t: Trace, s: State, c: nat)
    requires AnswersOk(t, s) && Enabled(t, s, Look(c))
    ensures ChanAnswersOk(t, s.infos, AfterLook(t, s, c).chans[c]) && AfterLook(t, s, c).infos == s.infos
  {
    var ch, ch' := s.chans[c], AfterLook(t, s, c).chans[c];
    LookChan(t, s, c);
    if SameAnswers(ch, ch') {
      AnswersStay(t, s.infos, s.infos, ch, ch');
    } else {
      AnswersSnoc(t, s.infos, s.infos, ch, ch', Missing);
    }
  }

  /** The cursor that channel c waits for. */
  function Wanted(t: Trace, s: State, c: nat, ok: bool): int
    requires Enabled(t, s, Resolve(c, ok))
  {
    OpAt(t, s, c).uses[|s.chans[c].cur.phase.got|]
  }

  lemma ResolveAnswers(t: Trace, s: State, c: nat, ok: bool)
    requires AnswersOk(t, s) && Enabled(t, s, Resolve(c, ok)) && Lives(t, s.infos, AfterResolve(t, s, c, ok).infos)
    requires Wanted(t, s, c, ok) in t.infos && (ok ==> s.infos[Wanted(t, s, c, ok)].live != 0)
    ensures ChanAnswersOk(t, AfterResolve(t, s, c, ok).infos, AfterResolve(t, s, c, ok).chans[c])
  {
    var s', cursor := AfterResolve(t, s, c, ok), Wanted(t, s, c, ok);
    var h := if ok then Got(s.infos[cursor].live) else Missing;
    AnswersSnoc(t, s.infos, s'.infos, s.chans[c], s'.chans[c], h);
  }

  predicate Silent(l: Label) {
    l.Execute? || l.AddWire? || l.AddFile? || l.Handle? || l.Take? || l.Skip? || l.Dispatch?
  }

  lemma TakeChan(t: Trace, s: State, d: nat, c: nat)
    requires Enabled(t, s, Take(d)) && c < |s.chans|
    ensures |AfterTake(t, s, d).chans| == |s.chans| && SameAnswers(s.chans[c], AfterTake(t, s, d).chans[c])
  {
  }

  lemma SkipChan(t: Trace, s: State, d: nat, c: nat)
    requires Enabled(t, s, Skip(d)) && c < |s.chans|
    ensures |Finish(t, s, d).chans| == |s.chans| && SameAnswers(s.chans[c], Finish(t, s, d).chans[c])
  {
  }

  lemma ExecuteChan(t: Trace, s: State, d: nat, outcome: Outcome, c: nat)
    requires Enabled(t, s, Execute(d, outcome)) && c < |s.chans|
    ensures |AfterExecute(t, s, d, outcome).chans| == |s.chans|
    ensures SameAnswers(s.chans[c], AfterExecute(t, s, d, outcome).chans[c])
  {
  }

  lemma ReplyChan(t: Trace, s: State, l: Label, c: nat)
    requires (l.AddWire? || l.AddFile? || l.Handle?) && Enabled(t, s, l) && c < |s.chans|
    ensures |After(t, s, l).chans| == |s.chans| && SameAnswers(s.chans[c], After(t, s, l).chans[c])
  {
  }

  lemma SilentChan(t: Trace, s: State, l: Label, c: nat)
    requires Enabled(t, s, l) && Silent(l) && !l.Dispatch? && c < |s.chans|
    ensures |After(t, s, l).chans| == |s.chans| && SameAnswers(s.chans[c], After(t, s, l).chans[c])
  {
    match l
    case Take(d) => TakeChan(t, s, d, c);
    case Skip(d) => SkipChan(t, s, d, c);
    case Execute(d, outcome) => ExecuteChan(t, s, d, outcome, c);
    case AddWire(_) => ReplyChan(t, s, l, c);
    case AddFile(_) => ReplyChan(t, s, l, c);
    case Handle(_, _) => ReplyChan(t, s, l, c);
  }

  lemma DispatchedAnswers(t: Trace, s: State, c: nat)
    requires Enabled(t, s, Dispatch) && c < |AfterDispatch(t, s).chans|
    ensures var ch' := AfterDispatch(t, s).chans[c];
            Answers(ch') == [] || (c < |s.chans| && Answers(ch') == Answers(s.chans[c]) && ch'.cur.i == s.chans[c].cur.i)
  {
  }

  lemma SilentAnswers(t: Trace, s: State, l: Label)
    requires AnswersOk(t, s) && Enabled(t, s, l) && Silent(l) && Lives(t, s.infos, After(t, s, l).infos)
    ensures AnswersOk(t, After(t, s, l))
  {
    var s' := After(t, s, l);
    forall c: nat | c < |s'.chans| ensures ChanAnswersOk(t, s'.infos, s'.chans[c]) {
      if l.Dispatch? { DispatchedAnswers(t, s, c); } else { SilentChan(t, s, l, c); }
      if c < |s.chans| { AnswersStay(t, s.infos, s'.infos, s.chans[c], s'.chans[c]); }
    }
  }

  /** Look and Resolve change one channel. */
  lemma OthersAnswers(t: Trace, s: State, s': State, c: nat)
    requires AnswersOk(t, s) && Lives(t, s.infos, s'.infos)
    requires c < |s.chans| == |s'.chans| && s'.chans == s.chans[c := s'.chans[c]]
    requires ChanAnswersOk(t, s'.infos, s'.chans[c])
    ensures AnswersOk(t, s')
  {
    forall d: nat | d < |s'.chans| && d != c ensures ChanAnswersOk(t, s'.infos, s'.chans[d]) {
      AnswersStay(t, s.infos, s'.infos, s.chans[d], s'.chans[d]);
    }
  }

  lemma WantedOk(t: Trace, s: State, c: nat, ok: bool)
    requires Inv(t, s) && Enabled(t, s, Resolve(c, ok))
    ensures Wanted(t, s, c, ok) in t.infos && (ok ==> s.infos[Wanted(t, s, c, ok)].live != 0)
  {
    assert CursorOk(t, s, Wanted(t, s, c, ok));
  }

  lemma GivenAnswers(t: Trace, s: State, l: Label)
    requires AnswersOk(t, s) && Enabled(t, s, l) && Lives(t, s.infos, After(t, s, l).infos)
    requires l.Resolve? ==>
      Wanted(t, s, l.c, l.ok) in t.infos && (l.ok ==> s.infos[Wanted(t, s, l.c, l.ok)].live != 0)
    ensures AnswersOk(t, After(t, s, l))
  {
    if l.Look? {
      LookAnswers(t, s, l.c);
      OthersAnswers(t, s, AfterLook(t, s, l.c), l.c);
    } else if l.Resolve? {
      ResolveAnswers(t, s, l.c, l.ok);
      OthersAnswers(t, s, AfterResolve(t, s, l.c, l.ok), l.c);
    } else {
      SilentAnswers(t, s, l);
    }
  }

  lemma StepAnswers(t: Trace, s: State, l: Label)
    requires Inv(t, s) && AnswersOk(t, s) && Enabled(t, s, l)
    ensures AnswersOk(t, After(t, s, l))
  {
    StepLives(t, s, l);
    if l.Resolve? { WantedOk(t, s, l.c, l.ok); }
    GivenAnswers(t, s, l);
  }

  lemma {:induction false} AnswersKept(t: Trace, s: State, ls: seq<Label>, s': State)
    requires Inv(t, s) && AnswersOk(t, s) && Reaches(t, s, ls, s')
    ensures AnswersOk(t, s') && Lives(t, s.infos, s'.infos)
    decreases |ls|
  {
    if ls != [] {
      StepInv(t, s, ls[0]);
      StepAnswers(t, s, ls[0]);
      StepLives(t, s, ls[0]);
      AnswersKept(t, After(t, s, ls[0]), ls[1..], s');
    }
  }

  /** Over every run and however it goes on: each answer GetCursor gives is nonzero and is the
      live id its cursor has for good, so two ops never replay one recorded cursor as two live
      ones. */
  lemma AnswersAlongRun(t: Trace, ls: seq<Label>, s: State, ls': seq<Label>, s': State)
    requires WellRecorded(t) && Reaches(t, Start(t), ls, s) && Reaches(t, s, ls', s')
    ensures AnswersOk(t, s) && AnswersOk(t, s') && Lives(t, s.infos, s'.infos)
  {
    StartInv(t);
    ReachableInv(t, Start(t), ls, s);
    AnswersKept(t, Start(t), ls, s);
    AnswersKept(t, s, ls', s');
  }
}
