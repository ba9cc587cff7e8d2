/** The script itself, loops and all: each of its executions is a run of the step relation
    of `Restore`, so what is proved there holds of it. */
module RestoreScript {
  import opened Restore

  /** What one server call brings.  `applied` says whether a call that did not report
      success took effect all the same; `Lost` ends the script. */
  datatype Answer = Good | Bad(applied: bool) | Transient(applied: bool) | Unknown(applied: bool) | Lost(applied: bool)

  /** What commitTransaction reports. */
  function ReportOf(a: Answer): Report {
    match a
    case Good => Committed
    case Bad(_) => OtherError
    case Transient(_) => TransientError
    case _ => UnknownResult
  }

  datatype Inserted = InsertedOk | DuplicateKey | OtherInsertError | InsertLost

  datatype Unpacked = UnpackedAs(run: nat) | UnpackError | UnpackLost

  datatype Outcome = Fine | Retry | Fail | Gone

  datatype Repaired = RepairedOk | NotRepaired | RepairLost

  // ---- what a run of the script counts ----

  /** Buckets taken from the cursor, repairs committed, and repairs given up. */
  datatype Tally = Tally(processed: nat, repaired: nat, bad: nat)

  function TallyOf(ls: seq<Label>): Tally {
    if ls == [] then Tally(0, 0, 0) else Plus(TallyOf(ls[..|ls| - 1]), Counts(ls[|ls| - 1]))
  }

  function Counts(l: Label): Tally {
    match l
    case NextBucket(_) => Tally(1, 0, 0)
    case Commit(_, Committed) => Tally(0, 1, 0)
    case Commit(_, OtherError) => Tally(0, 0, 1)
    case UnpackFails => Tally(0, 0, 1)
    case BodyFails(false) => Tally(0, 0, 1)
    case _ => Tally(0, 0, 0)
  }

  function Plus(a: Tally, b: Tally): Tally {
    Tally(a.processed + b.processed, a.repaired + b.repaired, a.bad + b.bad)
  }

  /** A state on the way, and what has been counted so far. */
  datatype Stage = Stage(state: State, tally: Tally)

  ghost predicate Follows(s: Stage, l: Label, next: Stage) {
    && Enabled(s.state, l)
    && next == Stage(After(s.state, l), Plus(s.tally, Counts(l)))
  }

  ghost predicate Linked(stages: seq<Stage>, ls: seq<Label>) {
    && |stages| == |ls| + 1
    && forall i: nat {:trigger ls[i]} :: i < |ls| ==> Follows(stages[i], ls[i], stages[i + 1])
  }

  lemma {:induction false} LinkedIsRun(stages: seq<Stage>, ls: seq<Label>, origin: State)
    requires Linked(stages, ls) && stages[0] == Stage(origin, Tally(0, 0, 0))
    ensures Reaches(origin, ls, stages[|ls|].state) && stages[|ls|].tally == TallyOf(ls)
  {
    if ls != [] {
      var n := |ls| - 1;
      LinkedIsRun(stages[..n + 1], ls[..n], origin);
      assert Follows(stages[n], ls[n], stages[n + 1]);
      ReachesSnoc(origin, ls[..n], stages[n].state, ls[n]);
      assert ls == ls[..n] + [ls[n]];
    }
  }

  /** The server does as it is told. */
  predicate AllGood(answers: seq<Answer>) {
    forall i: nat :: i < |answers| ==> answers[i].Good?
  }

  class Server {
    var db: Db
    var runs: nat
    const answers: seq<Answer>
    var used: nat
    ghost var pc: Pc
    ghost var trace: seq<Label>
    /** What the trace counts. */
    ghost var tally: Tally
    /** The states passed through. */
    ghost var stages: seq<Stage>
    ghost const origin: State

    ghost function Now(): State
      reads this
    {
      State(db, pc, runs)
    }

    /** This many buckets have been taken, repaired and given up. */
    twostate predicate Counted(processed: int, repaired: int, bad: int)
      reads `tally
    {
      && tally.processed == old(tally.processed) + processed && tally.repaired == old(tally.repaired) + repaired
      && tally.bad == old(tally.bad) + bad
    }

    ghost predicate Valid()
      reads this
    {
      && Linked(stages, trace) && used <= |answers|
      && stages[0] == Stage(origin, Tally(0, 0, 0)) && stages[|trace|] == Stage(Now(), tally)
    }

    /** A database as some earlier run left it, with the script about to start. */
    constructor (db: Db, runs: nat, answers: seq<Answer>)
      ensures Valid() && this.db == db && this.runs == runs && this.answers == answers
      ensures pc == Down && origin == State(db, Down, runs) && trace == [] && used == 0
    {
      this.db, this.runs, this.answers, used := db, runs, answers, 0;
      pc, trace, tally, origin := Down, [], Tally(0, 0, 0), State(db, Down, runs);
      stages := [Stage(State(db, Down, runs), Tally(0, 0, 0))];
    }

    ghost method Step(l: Label)
      requires Valid() && Enabled(Now(), l) && After(Now(), l).db == db && After(Now(), l).runs == runs
      modifies `pc, `trace, `stages, `tally
      ensures Valid() && pc == After(old(Now()), l).pc && tally == Plus(old(tally), Counts(l))
    {
      pc, trace, tally := After(Now(), l).pc, trace + [l], Plus(tally, Counts(l));
      stages := stages + [Stage(Now(), tally)];
    }

    /** A step that changes the database: `next` is what it leaves. */
    method Write(ghost l: Label, next: Db)
      requires Valid() && Enabled(Now(), l) && After(Now(), l).db == next && After(Now(), l).runs == runs
      modifies `db, `pc, `trace, `stages, `tally
      ensures Valid() && db == next && pc == After(old(Now()), l).pc
      ensures tally == Plus(old(tally), Counts(l))
    {
      ghost var before := Now();
      db := next;
      pc, trace, tally := After(before, l).pc, trace + [l], Plus(tally, Counts(l));
      stages := stages + [Stage(Now(), tally)];
    }

    /** The script so far is a run of the protocol. */
    lemma IsRun()
      requires Valid()
      ensures Reaches(origin, trace, Now()) && tally == TallyOf(trace)
    {
      LinkedIsRun(stages, trace, origin);
    }

    function Remaining(): nat
      requires used <= |answers|
      reads `used
    {
      |answers| - used
    }

    /** The answer that comes next; when there are no more the connection is lost. */
    function NextAnswer(): Answer
      reads `used
    {
      if used < |answers| then answers[used] else Lost(false)
    }

    method Answered() returns (a: Answer)
      requires used <= |answers|
      modifies `used
      ensures a == old(NextAnswer()) && used == if old(used) < |answers| then old(used) + 1 else old(used)
    {
      a := NextAnswer();
      if used < |answers| { used := used + 1; }
    }

    method InsertOne(b: BucketId) returns (r: Inserted)
      requires Valid() && pc == Inserting(b)
      modifies this
      ensures Valid() && used >= old(used) && (!r.InsertLost? ==> used > old(used))
      ensures pc == match r
              case InsertedOk => Deleting(b)
              case DuplicateKey => Deleting(b)
              case OtherInsertError => Unpacking(b)
              case InsertLost => Down
      ensures AllGood(answers) ==> !r.OtherInsertError?
      ensures used == (if old(used) < |answers| then old(used) + 1 else old(used)) && Counted(0, 0, 0)
      ensures var a, was := old(NextAnswer()), old(db);
              match a
              case Good =>
                r == (if b in was.direct then DuplicateKey else InsertedOk) && db == was.(direct := was.direct + {b})
              case Lost(applied) => r == InsertLost && db == if applied then was.(direct := was.direct + {b}) else was
              case _ => r == OtherInsertError && db == if a.applied then was.(direct := was.direct + {b}) else was
    {
      var a := Answered();
      match a
      case Good =>
        r := if b in db.direct then DuplicateKey else InsertedOk;
        InsertTakesEffect(b);
      case Lost(applied) =>
        InsertInterrupted(b, applied);
        r := InsertLost;
      case _ =>
        Write(InsertFails(a.applied), if a.applied then db.(direct := db.direct + {b}) else db);
        r := OtherInsertError;
    }

    /** The insert was answered: the bucket is there now, or was there before. */
    method InsertTakesEffect(b: BucketId)
      requires Valid() && pc == Inserting(b)
      modifies `db, `pc, `trace, `stages, `tally
      ensures Valid() && pc == Deleting(b) && db == old(db).(direct := old(db).direct + {b}) && Counted(0, 0, 0)
    {
      if b in db.direct {
        assert db.direct + {b} == db.direct;
        Step(InsertDuplicate);
      } else {
        Write(InsertOk, db.(direct := db.direct + {b}));
      }
    }

    method InsertInterrupted(b: BucketId, applied: bool)
      requires Valid() && pc == Inserting(b)
      modifies `db, `pc, `trace, `stages, `tally
      ensures Valid() && pc == Down && Counted(0, 0, 0)
      ensures db == if applied then old(db).(direct := old(db).direct + {b}) else old(db)
    {
      if applied { InsertTakesEffect(b); }
      Step(Crash);
    }

    /** $_internalUnpackBucket + $out into the temporary collection. */
    method Unpack(b: BucketId) returns (r: Unpacked)
      requires Valid() && pc == Unpacking(b)
      modifies this
      ensures Valid() && used >= old(used)
      ensures pc == match r
              case UnpackedAs(run) => Starting(b, run)
              case UnpackError => Marking(b)
              case UnpackLost => Down
      ensures used == (if old(used) < |answers| then old(used) + 1 else old(used)) && db == old(db)
      ensures var a := old(NextAnswer());
              && (r.UnpackedAs? <==> a.Good?) && (r.UnpackLost? <==> a.Lost?)
              && (r.UnpackedAs? ==> r.run == old(runs) && runs == old(runs) + 1)
      ensures Counted(0, 0, if r.UnpackError? then 1 else 0)
    {
      var a := Answered();
      match a
      case Good =>
        r := UnpackedAs(runs);
        pc, trace, tally := Starting(b, runs), trace + [UnpackOk], Plus(tally, Counts(UnpackOk));
        runs := runs + 1;
        stages := stages + [Stage(Now(), tally)];
      case Lost(_) =>
        Step(Crash);
        r := UnpackLost;
      case _ =>
        Step(UnpackFails);
        r := UnpackError;
    }

    /** insertMany and deleteOne inside the transaction. */
    method TransactionBody(b: BucketId, run: nat) returns (r: Outcome)
      requires Valid() && pc == Starting(b, run)
      modifies this
      ensures Valid() && used >= old(used) && (r.Retry? ==> used > old(used))
      ensures pc == match r
              case Fine => Committing(b, run)
              case Retry => Starting(b, run)
              case Fail => Marking(b)
              case Gone => Down
      ensures used == (if old(used) < |answers| then old(used) + 1 else old(used)) && db == old(db)
      ensures r == match old(NextAnswer())
              case Good => if run in db.repaired then Fail else Fine
              case Transient(_) => Retry
              case Lost(_) => Gone
              case _ => Fail
      ensures Counted(0, 0, if r.Fail? then 1 else 0)
    {
      var a := Answered();
      match a
      case Good =>
        if run in db.repaired {
          Step(BodyFails(false));
          r := Fail;
        } else {
          Step(BodyOk);
          r := Fine;
        }
      case Transient(_) =>
        Step(BodyFails(true));
        r := Retry;
      case Lost(_) =>
        Step(Crash);
        r := Gone;
      case _ =>
        Step(BodyFails(false));
        r := Fail;
    }

    method CommitTransaction(b: BucketId, run: nat) returns (r: Outcome, unknown: bool)
      requires Valid() && pc == Committing(b, run)
      modifies this
      ensures Valid() && used >= old(used) && (r.Retry? ==> used > old(used))
      ensures pc == match r
              case Fine => Inner(Behind(b))
              case Retry => if unknown then Committing(b, run) else Starting(b, run)
              case Fail => Marking(b)
              case Gone => Down
      ensures used == if old(used) < |answers| then old(used) + 1 else old(used)
      ensures unknown == old(NextAnswer()).Unknown?
      ensures r == match old(NextAnswer())
              case Good => Fine
              case Bad(_) => Fail
              case Lost(_) => Gone
              case _ => Retry
      ensures var a := old(NextAnswer());
              db == if a.Good? || a.applied then Applied(old(db), b, run) else old(db)
      ensures Counted(0, if r.Fine? then 1 else 0, if r.Fail? then 1 else 0)
    {
      var a := Answered();
      var applied := a.Good? || a.applied;
      var code := ReportOf(a);
      unknown := a.Unknown?;
      Write(Commit(applied, code), if applied then Applied(db, b, run) else db);
      match a
      case Good => r := Fine;
      case Bad(_) => r := Fail;
      case Lost(_) =>
        Step(Crash);
        r := Gone;
      case _ => r := Retry;
    }

    method MarkBad(b: BucketId) returns (ok: bool)
      requires Valid() && pc == Marking(b)
      modifies this
      ensures Valid() && pc == (if ok then Deleting(b) else Down) && used >= old(used)
      ensures used == (if old(used) < |answers| then old(used) + 1 else old(used)) && Counted(0, 0, 0)
      ensures var a, was := old(NextAnswer()), old(db);
              ok == a.Good? && db == if a.Good? || a.applied then was.(bad := was.bad + {b}) else was
    {
      var a := Answered();
      ok := a.Good?;
      if ok {
        Write(MarkOk, db.(bad := db.bad + {b}));
      } else {
        Write(MarkThrows(a.applied), if a.applied then db.(bad := db.bad + {b}) else db);
      }
    }

    method DeleteOne(b: BucketId) returns (deletedCount: nat, ok: bool)
      requires Valid() && pc == Deleting(b)
      modifies this
      ensures Valid() && used >= old(used)
      ensures pc == (if ok && deletedCount == 1 then Inner(Behind(b)) else Down)
      ensures ok && deletedCount == 1 ==> used > old(used)
      ensures used == (if old(used) < |answers| then old(used) + 1 else old(used)) && Counted(0, 0, 0)
      ensures var a, was := old(NextAnswer()), old(db);
              && ok == a.Good? && deletedCount == (if b in was.src then 1 else 0)
              && db == if a.Good? || a.applied then was.(src := was.src - {b}) else was
    {
      var a := Answered();
      ok := a.Good?;
      deletedCount := if b in db.src then 1 else 0;
      if ok {
        Write(DeleteOk, db.(src := db.src - {b}));
      } else {
        Write(DeleteThrows(a.applied), if a.applied then db.(src := db.src - {b}) else db);
      }
    }

    /** The next document of a cursor over the source, sorted by id, or the cursor's end. */
    method Advance(ghost last: Position, at: Position) returns (more: bool, b: BucketId)
      requires Valid() && pc == Inner(last) && at == last
      modifies `pc, `trace, `stages, `tally
      ensures Valid() && pc == if more then Inserting(b) else Outer
      ensures if more then LeastBeyond(db.src, at, b) else forall x <- db.src :: !Beyond(at, x)
      ensures Counted(if more then 1 else 0, 0, 0)
    {
      var rest := set x | x in db.src && Beyond(at, x);
      more := rest != {};
      b := 0;
      if more {
        ghost var some := Collections.AnElement(rest);
        ghost var least := Least(rest, some);
        b :| b in rest && forall y <- rest :: b <= y;
        assert forall y :: y in db.src && Beyond(at, y) ==> y in rest;
        Step(NextBucket(b));
      } else {
        forall x | x in db.src ensures !Beyond(at, x) {
          assert x !in rest;
        }
        Step(EndOfCursor);
      }
    }
  }

  method TryRepairBucket(server: Server, b: BucketId) returns (r: Repaired)
    requires server.Valid() && server.pc == Unpacking(b)
    modifies server
    ensures server.Valid() && server.used >= old(server.used)
    ensures server.pc == match r
            case RepairedOk => Inner(Behind(b))
            case NotRepaired => Marking(b)
            case RepairLost => Down
    ensures server.Counted(0, if r.RepairedOk? then 1 else 0, if r.NotRepaired? then 1 else 0)
  {
    var u := server.Unpack(b);
    match u {
      case UnpackError => return NotRepaired;
      case UnpackLost => return RepairLost;
      case UnpackedAs(run) =>
        var hasTransientError := true;
        while hasTransientError
          invariant server.Valid() && server.used >= old(server.used)
          invariant server.pc == if hasTransientError then Starting(b, run) else Inner(Behind(b))
          invariant server.Counted(0, if hasTransientError then 0 else 1, 0)
          decreases server.Remaining(), hasTransientError
        {
          hasTransientError := false;
          var body := server.TransactionBody(b, run);
          if body.Gone? { return RepairLost; }
          if body.Fail? { return NotRepaired; }
          if body.Retry? {
            hasTransientError := true;
          } else {
            var committed, unknown := server.CommitTransaction(b, run);
            while committed.Retry? && unknown
              invariant server.Valid() && server.used >= old(server.used)
              invariant committed.Retry? ==> server.used > old(server.used)
              invariant server.Counted(0, if committed.Fine? then 1 else 0, if committed.Fail? then 1 else 0)
              invariant server.pc == match committed
                        case Fine => Inner(Behind(b))
                        case Retry => if unknown then Committing(b, run) else Starting(b, run)
                        case Fail => Marking(b)
                        case Gone => Down
              decreases server.Remaining(), committed.Retry?
            {
              committed, unknown := server.CommitTransaction(b, run);
            }
            if committed.Gone? { return RepairLost; }
            if committed.Fail? { return NotRepaired; }
            if committed.Retry? { hasTransientError := true; }
          }
        }
        return RepairedOk;
    }
  }

  /** The repair of a bucket that could not be inserted; if that fails too it is recorded as bad. */
  method RepairOrRecord(server: Server, b: BucketId) returns (ok: bool, repaired: bool, bad: bool)
    requires server.Valid() && server.pc == Unpacking(b)
    modifies server
    ensures server.Valid() && server.used >= old(server.used) && !(repaired && bad) && (ok ==> repaired || bad)
    ensures server.pc == if !ok then Down else if repaired then Inner(Behind(b)) else Deleting(b)
    ensures server.Counted(0, if repaired then 1 else 0, if bad then 1 else 0)
  {
    ok, repaired, bad := false, false, false;
    var repairRes := TryRepairBucket(server, b);
    match repairRes {
      case RepairLost => return;
      case RepairedOk =>
        repaired := true;
      case NotRepaired =>
        bad := true;
        var marked := server.MarkBad(b);
        if !marked { return; }
    }
    ok := true;
  }

  /** The delete must find its document. */
  method DeleteSource(server: Server, b: BucketId) returns (ok: bool)
    requires server.Valid() && server.pc == Deleting(b)
    modifies server
    ensures server.Valid() && server.pc == (if ok then Inner(Behind(b)) else Down) && server.used >= old(server.used)
    ensures ok ==> server.used > old(server.used) && b in old(server.db.src)
    ensures ok ==> server.db == old(server.db).(src := old(server.db).src - {b})
    ensures server.Counted(0, 0, 0)
  {
    var deletedCount, deleted := server.DeleteOne(b);
    ok := deleted && deletedCount == 1;
  }

  /** One bucket of the inner loop: insert it, or repair it, or record it as bad; then
      delete it from the source, unless the repair has. */
  method ProcessBucket(server: Server, b: BucketId) returns (ok: bool, repaired: bool, bad: bool)
    requires server.Valid() && server.pc == Inserting(b)
    modifies server
    ensures server.Valid() && !(repaired && bad)
    ensures server.used >= old(server.used)
    ensures if ok then server.pc == Inner(Behind(b)) && server.used > old(server.used)
            else server.pc == Down
    ensures server.Counted(0, if repaired then 1 else 0, if bad then 1 else 0)
    ensures AllGood(server.answers) ==> !repaired && !bad
    ensures AllGood(server.answers) && ok ==>
      && b in old(server.db.src)
      && server.db == old(server.db).(direct := old(server.db).direct + {b}, src := old(server.db).src - {b})
  {
    ok, repaired, bad := false, false, false;
    var inserted := server.InsertOne(b);
    if inserted.InsertLost? { return; }
    var srcDeletedByRepair := false;
    if inserted.OtherInsertError? {
      var done;
      done, repaired, bad := RepairOrRecord(server, b);
      if !done { return; }
      srcDeletedByRepair := repaired;
    }
    ok := true;
    if !srcDeletedByRepair {
      ok := DeleteSource(server, b);
    }
  }

  /** A run with a server that does as it is told, so far: some of the buckets have gone from the
      source to the target, one at a time. */
  ghost predicate Copying(was: Db, db: Db, t: Tally) {
    && t.repaired == t.bad == 0
    && db.src <= was.src && t.processed + |db.src| == |was.src|
    && db == was.(direct := was.direct + (was.src - db.src), src := db.src)
  }

  lemma NothingCopied(was: Db)
    ensures Copying(was, was, Tally(0, 0, 0))
  {
    assert was.direct + (was.src - was.src) == was.direct;
  }

  lemma CopiedOne(was: Db, db: Db, db': Db, b: BucketId, t: Tally)
    requires Copying(was, db, t) && b in db.src
    requires db' == db.(direct := db.direct + {b}, src := db.src - {b})
    ensures Copying(was, db', Tally(t.processed + 1, 0, 0))
  {
    assert was.src - (db.src - {b}) == (was.src - db.src) + {b};
    assert was.direct + (was.src - db.src) + {b} == was.direct + (was.src - db'.src);
  }

  lemma CopiedAll(was: Db, db: Db, t: Tally)
    requires Copying(was, db, t) && db.src == {}
    ensures db == was.(direct := was.direct + was.src, src := {}) && t.processed == |was.src|
  {
    assert was.src - {} == was.src;
  }

  lemma CopyingOn(was: Db, db: Db, db': Db, t: Tally, u: Tally)
    requires Copying(was, db, t) && Copying(db, db', u)
    ensures Copying(was, db', Plus(t, u))
  {
    assert (was.src - db.src) + (db.src - db'.src) == was.src - db'.src;
    assert was.direct + (was.src - db.src) + (db.src - db'.src) == was.direct + (was.src - db'.src);
  }

  /** The first bucket of a cursor. */
  method FirstBucket(server: Server) returns (b: BucketId)
    requires server.Valid() && server.pc == Inner(AtStart) && server.db.src != {}
    modifies server`pc, server`trace, server`stages, server`tally
    ensures server.Valid() && server.pc == Inserting(b) && LeastBeyond(server.db.src, AtStart, b)
    ensures server.Counted(1, 0, 0)
  {
    ghost var some := Collections.AnElement(server.db.src);
    assert Beyond(AtStart, some);
    var more;
    more, b := server.Advance(AtStart, AtStart);
  }

  /** One turn of the inner loop: what has been counted, and whether there is another bucket. */
  method CopyBucket(server: Server, b: BucketId) returns (ok: bool, more: bool, next: BucketId, t: Tally)
    requires server.Valid() && server.pc == Inserting(b)
    modifies server
    ensures server.Valid() && server.used >= old(server.used) && (ok ==> server.used > old(server.used))
    ensures server.pc == if !ok then Down else if more then Inserting(next) else Outer
    ensures t.processed == 1 && t.repaired + t.bad <= 1
    ensures server.Counted(if ok && more then 1 else 0, t.repaired, t.bad)
    ensures AllGood(server.answers) ==> t.repaired == t.bad == 0
    ensures AllGood(server.answers) && ok ==> Copying(old(server.db), server.db, t)
  {
    var repaired, bad;
    ghost var was := server.db;
    more, next := false, 0;
    ok, repaired, bad := ProcessBucket(server, b);
    t := Tally(1, if repaired then 1 else 0, if bad then 1 else 0);
    if ok {
      if AllGood(server.answers) {
        NothingCopied(was);
        CopiedOne(was, was, server.db, b, Tally(0, 0, 0));
      }
      more, next := server.Advance(Behind(b), Behind(b));
    }
  }

  /** The loop over one cursor. */
  method CopyCursor(server: Server) returns (ok: bool, t: Tally)
    requires server.Valid() && server.pc == Inner(AtStart) && server.db.src != {}
    modifies server
    ensures server.Valid() && server.pc == (if ok then Outer else Down) && t.repaired + t.bad <= t.processed
    ensures server.used >= old(server.used) && (ok ==> server.used > old(server.used))
    ensures server.Counted(t.processed, t.repaired, t.bad)
    ensures AllGood(server.answers) ==> t.repaired == t.bad == 0 && (ok ==> Copying(old(server.db), server.db, t))
  {
    ghost var was := server.db;
    var b := FirstBucket(server);
    var more := true;
    ok, t := true, Tally(0, 0, 0);
    NothingCopied(was);
    while ok && more
      invariant server.Valid() && server.pc == if !ok then Down else if more then Inserting(b) else Outer
      invariant server.used >= old(server.used) && (more || !ok || server.used > old(server.used))
      invariant t.repaired + t.bad <= t.processed
      invariant server.Counted(t.processed + (if ok && more then 1 else 0), t.repaired, t.bad)
      invariant AllGood(server.answers) ==> t.repaired == t.bad == 0 && (ok ==> Copying(was, server.db, t))
      decreases server.Remaining(), ok && more
    {
      ghost var db, t0 := server.db, t;
      var u;
      ok, more, b, u := CopyBucket(server, b);
      t := Plus(t, u);
      if AllGood(server.answers) && ok { CopyingOn(was, db, server.db, t0, u); }
    }
  }

  /** Returns false if it threw or crashed. */
  method RunCopyWithRepair(server: Server)
    returns (returned: bool, totalProcessed: nat, totalRepaired: nat, totalBad: nat)
    requires server.Valid() && server.pc == Down
    modifies server
    ensures server.Valid() && server.pc == (if returned then Returned else Down)
    ensures returned ==> server.db.src == {}
    ensures totalRepaired + totalBad <= totalProcessed
    ensures server.Counted(totalProcessed, totalRepaired, totalBad)
    ensures AllGood(server.answers) ==> totalRepaired == totalBad == 0
    ensures AllGood(server.answers) && returned ==>
      && server.db == old(server.db).(direct := old(server.db).direct + old(server.db).src, src := {})
      && totalProcessed == |old(server.db).src|
  {
    var totals := Tally(0, 0, 0);
    ghost var was := server.db;
    server.Step(Restart);
    NothingCopied(was);
    while true
      invariant server.Valid() && server.pc == Outer && totals.repaired + totals.bad <= totals.processed
      invariant server.Counted(totals.processed, totals.repaired, totals.bad)
      invariant AllGood(server.answers) ==> Copying(was, server.db, totals)
      decreases server.Remaining()
    {
      server.Step(Open);
      if server.db.src == {} {
        if AllGood(server.answers) { CopiedAll(was, server.db, totals); }
        return true, totals.processed, totals.repaired, totals.bad;
      }
      ghost var db, t0 := server.db, totals;
      var ok, u := CopyCursor(server);
      totals := Plus(totals, u);
      if !ok { return false, totals.processed, totals.repaired, totals.bad; }
      if AllGood(server.answers) { CopyingOn(was, db, server.db, t0, u); }
    }
  }
}
