/** Playing many recorded connections at once (play.go, execute.go, cursors.go): one
    dispatcher that fills bounded queues, one goroutine per connection that executes its
    queue in order and may block on a cursor another connection has yet to learn. */
module Playback {
  import opened Cursors
  import opened Execution

  /** What playback starts from.  `requestOf` and `replyOf` give, for each cursor waited
      for, the op that made it and the first recorded reply that carries it.  `skipped` are
      the requests that Execute returns from at once: the driver's own commands, unless they
      were filtered when recording, and what it cannot parse.  `answers` says that the server
      never fails a request that makes a cursor waited for. */
  datatype Trace = Trace(ops: seq<Op>, cap: nat, infos: map<int, Info>, opToCursors: map<OpKey, int>,
                         requestOf: map<int, nat>, replyOf: map<int, nat>, skipped: set<nat>, answers: bool)

  /** Where a connection is inside Execute; `got` holds the answers of GetCursor so far. */
  datatype Phase =
    | Skipping
    | Looking(got: seq<Half>)
    | Waiting(got: seq<Half>)
    | Executing(got: seq<Half>)
    | AddingWire(live: int)
    | AddingFile
    | Handling

  datatype Current = Idle | Busy(i: nat, phase: Phase)

  datatype Chan = Chan(queue: seq<nat>, closed: bool, cur: Current)

  /** `route` is Play's connectionChans; `home` remembers the channel each op went to. */
  datatype State = State(next: nat, route: map<int, nat>, chans: seq<Chan>, home: map<nat, nat>,
                         infos: map<int, Info>, present: set<int>, replies: Pairing, done: set<nat>)

  /** What a live server does with a request. */
  datatype Outcome = Failed | NoReply | Replied(cursor: int)

  datatype Label =
    | Dispatch
    | Take(c: nat)
    | Skip(c: nat)
    | Look(c: nat)
    | Resolve(c: nat, ok: bool)
    | Execute(c: nat, outcome: Outcome)
    | AddWire(c: nat)
    | AddFile(c: nat)
    | Handle(c: nat, order: seq<OpKey>)

  function Start(t: Trace): State {
    State(0, map[], [], map[], t.infos, t.infos.Keys, Pairing(map[], map[]), {})
  }

  // ---- steps ----

  function WithRoute(s: State, conn: int): State {
    if conn in s.route then s
    else s.(chans := s.chans + [Chan([], false, Idle)], route := s.route[conn := |s.chans|])
  }

  predicate In(s: State, c: nat, i: nat) {
    c < |s.chans| && s.chans[c].cur.Busy? && s.chans[c].cur.i == i
  }

  predicate At(t: Trace, s: State, c: nat) {
    c < |s.chans| && s.chans[c].cur.Busy? && s.chans[c].cur.i < |t.ops|
  }

  function OpAt(t: Trace, s: State, c: nat): Op
    requires At(t, s, c)
  {
    t.ops[s.chans[c].cur.i]
  }

  function SetCurrent(s: State, c: nat, cur: Current): State
    requires c < |s.chans|
  {
    s.(chans := s.chans[c := s.chans[c].(cur := cur)])
  }

  function SetPhase(t: Trace, s: State, c: nat, phase: Phase): State
    requires At(t, s, c)
  {
    SetCurrent(s, c, Busy(s.chans[c].cur.i, phase))
  }

  function Finish(t: Trace, s: State, c: nat): State
    requires At(t, s, c)
  {
    SetCurrent(s, c, Idle).(done := s.done + {s.chans[c].cur.i})
  }

  predicate Maker(t: Trace, i: nat) {
    exists c <- t.requestOf :: t.requestOf[c] == i
  }

  /** The requests that made the cursors waited for get a live cursor, or else fail. */
  predicate ServerOk(t: Trace, i: nat, outcome: Outcome) {
    Maker(t, i) ==> (!t.answers && outcome.Failed?) || (outcome.Replied? && outcome.cursor != 0)
  }

  ghost predicate Enabled(t: Trace, s: State, l: Label) {
    match l
    case Dispatch =>
      && s.next < |t.ops|
      && var s' := WithRoute(s, t.ops[s.next].conn);
         var c := s'.route[t.ops[s.next].conn];
         c < |s'.chans| && (t.ops[s.next].Eof? || |s'.chans[c].queue| < t.cap)
    case Take(c) =>
      && c < |s.chans| && s.chans[c].cur.Idle? && s.chans[c].queue != []
      && s.chans[c].queue[0] < |t.ops| && !t.ops[s.chans[c].queue[0]].Eof?
    case Skip(c) => At(t, s, c) && s.chans[c].cur.phase.Skipping?
    case Look(c) =>
      At(t, s, c) && s.chans[c].cur.phase.Looking? && OpAt(t, s, c).Request?
      && |s.chans[c].cur.phase.got| <= |OpAt(t, s, c).uses|
    case Resolve(c, ok) =>
      && At(t, s, c) && s.chans[c].cur.phase.Waiting? && OpAt(t, s, c).Request?
      && var got := s.chans[c].cur.phase.got;
         && |got| < |OpAt(t, s, c).uses| && OpAt(t, s, c).uses[|got|] in s.infos
         && var info := s.infos[OpAt(t, s, c).uses[|got|]];
            if ok then info.success else info.failed
    case Execute(c, outcome) =>
      && At(t, s, c) && s.chans[c].cur.phase.Executing? && OpAt(t, s, c).Request?
      && ServerOk(t, s.chans[c].cur.i, outcome)
    case AddWire(c) => At(t, s, c) && s.chans[c].cur.phase.AddingWire? && OpAt(t, s, c).Request?
    case AddFile(c) => At(t, s, c) && s.chans[c].cur.phase.AddingFile? && OpAt(t, s, c).Reply?
    case Handle(c, order) =>
      && At(t, s, c) && s.chans[c].cur.phase.Handling?
      && Enumerates(order, s.replies.complete)
      && forall i: nat :: i < |order| ==> s.replies.complete[order[i]].Full()
  }

  function AfterDispatch(t: Trace, s: State): State
    requires Enabled(t, s, Dispatch)
  {
    var op := t.ops[s.next];
    var s' := WithRoute(s, op.conn);
    var c := s'.route[op.conn];
    var ch := s'.chans[c];
    if op.Eof? then
      s'.(next := s.next + 1, chans := s'.chans[c := ch.(closed := true)], route := s'.route - {op.conn},
          done := s.done + {s.next})
    else
      s'.(next := s.next + 1, chans := s'.chans[c := ch.(queue := ch.queue + [s.next])],
          home := s.home[s.next := c])
  }

  function AfterTake(t: Trace, s: State, c: nat): State
    requires Enabled(t, s, Take(c))
  {
    var i := s.chans[c].queue[0];
    var phase :=
      match t.ops[i]
      case Request(_, _, rewrites, _) =>
        if i in t.skipped then Skipping else if rewrites then Looking([]) else Executing([])
      case Reply(_, _, _) => AddingFile;
    s.(chans := s.chans[c := s.chans[c].(queue := s.chans[c].queue[1..], cur := Busy(i, phase))])
  }

  /** GetCursor up to the point where it may block, or the end of the list of cursors: an op
      whose cursors all fell away is not executed. */
  function AfterLook(t: Trace, s: State, c: nat): State
    requires Enabled(t, s, Look(c))
  {
    var op := OpAt(t, s, c);
    var got := s.chans[c].cur.phase.got;
    if |got| == |op.uses| then
      if exists h <- got :: h.Got? then SetPhase(t, s, c, Executing(got)) else Finish(t, s, c)
    else
      var cursor := op.uses[|got|];
      if cursor !in s.present || cursor !in s.infos then SetPhase(t, s, c, Looking(got + [Missing]))
      else if !s.infos[cursor].success && op.conn == s.infos[cursor].replyConn then
        SetPhase(t, s, c, Looking(got + [Missing]))
      else SetPhase(t, s, c, Waiting(got))
  }

  /** The end of GetCursor's wait; when both channels are closed either answer may come. */
  function AfterResolve(t: Trace, s: State, c: nat, ok: bool): State
    requires Enabled(t, s, Resolve(c, ok))
  {
    var got := s.chans[c].cur.phase.got;
    var cursor := OpAt(t, s, c).uses[|got|];
    if ok then
      SetPhase(t, s, c, Looking(got + [Got(s.infos[cursor].live)]))
        .(infos := UsedIn(s.infos, cursor), present := PresentAfterUse(s.infos, s.present, cursor))
    else SetPhase(t, s, c, Looking(got + [Missing]))
  }

  function AfterExecute(t: Trace, s: State, c: nat, outcome: Outcome): State
    requires Enabled(t, s, Execute(c, outcome))
  {
    match outcome
    case Failed =>
      Finish(t, s, c).(infos := MarkFailedIn(s.infos, s.present, t.opToCursors, OpAt(t, s, c).key))
    case NoReply => SetPhase(t, s, c, Handling)
    case Replied(live) => SetPhase(t, s, c, if live == 0 then Handling else AddingWire(live))
  }

  function AfterAddWire(t: Trace, s: State, c: nat): State
    requires Enabled(t, s, AddWire(c))
  {
    SetPhase(t, s, c, Handling)
      .(replies := AddReply(s.replies, OpAt(t, s, c).key, FromWire, s.chans[c].cur.phase.live))
  }

  function AfterAddFile(t: Trace, s: State, c: nat): State
    requires Enabled(t, s, AddFile(c))
  {
    SetPhase(t, s, c, Handling)
      .(replies := AddReply(s.replies, OpAt(t, s, c).key, FromFile, OpAt(t, s, c).cursor))
  }

  function AfterHandle(t: Trace, s: State, c: nat, order: seq<OpKey>): State
    requires Enabled(t, s, Handle(c, order))
  {
    Finish(t, s, c).(infos := HandleAll(s.infos, s.present, s.replies.complete, order),
                     replies := s.replies.(complete := map[]))
  }

  function After(t: Trace, s: State, l: Label): State
    requires Enabled(t, s, l)
  {
    match l
    case Dispatch => AfterDispatch(t, s)
    case Take(c) => AfterTake(t, s, c)
    case Skip(c) => Finish(t, s, c)
    case Look(c) => AfterLook(t, s, c)
    case Resolve(c, ok) => AfterResolve(t, s, c, ok)
    case Execute(c, outcome) => AfterExecute(t, s, c, outcome)
    case AddWire(c) => AfterAddWire(t, s, c)
    case AddFile(c) => AfterAddFile(t, s, c)
    case Handle(c, order) => AfterHandle(t, s, c, order)
  }

  ghost predicate Reaches(t: Trace, s: State, ls: seq<Label>, s': State)
    decreases |ls|
  {
    if ls == [] then s == s'
    else Enabled(t, s, ls[0]) && Reaches(t, After(t, s, ls[0]), ls[1..], s')
  }

  lemma {:induction false} ReachesSnoc(t: Trace, s: State, ls: seq<Label>, m: State, l: Label)
    requires Reaches(t, s, ls, m) && Enabled(t, m, l)
    ensures Reaches(t, s, ls + [l], After(t, m, l))
    decreases |ls|
  {
    if ls == [] {
      assert [] + [l] == [l] && [l][1..] == [];
    } else {
      ReachesSnoc(t, After(t, s, ls[0]), ls[1..], m, l);
      assert (ls + [l])[1..] == ls[1..] + [l];
    }
  }

  predicate AllPlayed(t: Trace, s: State) {
    s.next == |t.ops| && forall ch <- s.chans :: ch.queue == [] && ch.cur.Idle?
  }
}
