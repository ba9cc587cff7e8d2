/** Restoring time-series buckets from a regular collection
    (timeseries-restore-via-regular-coll.js): every server call is a step with every answer
    the server may give, and the script may crash and be started again between any two. */
module Restore {
  import opened Collections

  type BucketId = int

  /** What the database holds.  `direct` are the buckets inserted as they are, under their
      own id; `repaired` maps each run of $out whose buckets were inserted to the bucket it
      unpacked - a run's buckets get new ids, and go in together or not at all. */
  datatype Db = Db(src: set<BucketId>, direct: set<BucketId>, repaired: map<nat, BucketId>, bad: set<BucketId>)

  /** Where the script is. */
  datatype Pc =
    | Down
    | Outer
    | Inner(last: Position)
    | Inserting(b: BucketId)
    | Unpacking(b: BucketId)
    | Starting(b: BucketId, run: nat)
    | Committing(b: BucketId, run: nat)
    | Marking(b: BucketId)
    | Deleting(b: BucketId)
    | Returned

  /** How far the cursor, sorted by id, has come. */
  datatype Position = AtStart | Behind(b: BucketId)

  datatype State = State(db: Db, pc: Pc, runs: nat)

  /** What commitTransaction reports. */
  datatype Report = Committed | UnknownResult | TransientError | OtherError

  datatype Label =
    | Open
    | NextBucket(b: BucketId)
    | EndOfCursor
    | InsertOk
    | InsertDuplicate
    | InsertFails(applied: bool)
    | UnpackOk
    | UnpackFails
    | BodyOk
    | BodyFails(transient: bool)
    | Commit(apply: bool, report: Report)
    | MarkOk
    | MarkThrows(applied: bool)
    | DeleteOk
    | DeleteThrows(applied: bool)
    | Crash
    | Restart

  function Start(src: set<BucketId>): State {
    State(Db(src, {}, map[], {}), Down, 0)
  }

  predicate Beyond(last: Position, b: BucketId) {
    last.Behind? ==> last.b < b
  }

  ghost predicate LeastBeyond(src: set<BucketId>, last: Position, b: BucketId) {
    b in src && Beyond(last, b) && forall x <- src :: Beyond(last, x) ==> b <= x
  }

  /** The server is sane: an insert of a present id is a duplicate, a transaction that would
      insert present ids does not get to commit, and "committed" is the truth. */
  ghost predicate Enabled(s: State, l: Label) {
    match l
    case Open => s.pc.Outer?
    case NextBucket(b) => s.pc.Inner? && LeastBeyond(s.db.src, s.pc.last, b)
    case EndOfCursor => s.pc.Inner? && forall x <- s.db.src :: !Beyond(s.pc.last, x)
    case InsertOk => s.pc.Inserting? && s.pc.b !in s.db.direct
    case InsertDuplicate => s.pc.Inserting? && s.pc.b in s.db.direct
    case InsertFails(_) => s.pc.Inserting?
    case UnpackOk => s.pc.Unpacking?
    case UnpackFails => s.pc.Unpacking?
    case BodyOk => s.pc.Starting? && s.pc.run !in s.db.repaired
    case BodyFails(_) => s.pc.Starting?
    case Commit(apply, report) =>
      s.pc.Committing? && (report.Committed? ==> apply || s.pc.run in s.db.repaired)
    case MarkOk => s.pc.Marking?
    case MarkThrows(_) => s.pc.Marking?
    case DeleteOk => s.pc.Deleting?
    case DeleteThrows(_) => s.pc.Deleting?
    case Crash => true
    case Restart => s.pc.Down?
  }

  /** Committing takes effect once: repeating it changes nothing. */
  function Applied(db: Db, b: BucketId, run: nat): Db {
    if run in db.repaired then db
    else db.(repaired := db.repaired[run := b], src := db.src - {b})
  }

  function After(s: State, l: Label): State
    requires Enabled(s, l)
  {
    match l
    case Open => s.(pc := if s.db.src == {} then Returned else Inner(AtStart))
    case NextBucket(b) => s.(pc := Inserting(b))
    case EndOfCursor => s.(pc := Outer)
    case InsertOk => s.(pc := Deleting(s.pc.b), db := s.db.(direct := s.db.direct + {s.pc.b}))
    case InsertDuplicate => s.(pc := Deleting(s.pc.b))
    case InsertFails(applied) =>
      s.(db := if applied then s.db.(direct := s.db.direct + {s.pc.b}) else s.db, pc := Unpacking(s.pc.b))
    case UnpackOk => s.(pc := Starting(s.pc.b, s.runs), runs := s.runs + 1)
    case UnpackFails => s.(pc := Marking(s.pc.b))
    case BodyOk => s.(pc := Committing(s.pc.b, s.pc.run))
    case BodyFails(transient) => if transient then s else s.(pc := Marking(s.pc.b))
    case Commit(apply, report) =>
      var db := if apply then Applied(s.db, s.pc.b, s.pc.run) else s.db;
      (match report
       case Committed => s.(db := db, pc := Inner(Behind(s.pc.b)))
       case UnknownResult => s.(db := db)
       case TransientError => s.(db := db, pc := Starting(s.pc.b, s.pc.run))
       case OtherError => s.(db := db, pc := Marking(s.pc.b)))
    case MarkOk => s.(db := s.db.(bad := s.db.bad + {s.pc.b}), pc := Deleting(s.pc.b))
    case MarkThrows(applied) =>
      s.(db := if applied then s.db.(bad := s.db.bad + {s.pc.b}) else s.db, pc := Down)
    case DeleteOk =>
      s.(db := s.db.(src := s.db.src - {s.pc.b}),
         pc := if s.pc.b in s.db.src then Inner(Behind(s.pc.b)) else Down)
    case DeleteThrows(applied) =>
      s.(db := if applied then s.db.(src := s.db.src - {s.pc.b}) else s.db, pc := Down)
    case Crash => s.(pc := Down)
    case Restart => s.(pc := Outer)
  }

  ghost predicate Reaches(s: State, ls: seq<Label>, s': State)
    decreases |ls|
  {
    if ls == [] then s == s'
    else Enabled(s, ls[0]) && Reaches(After(s, ls[0]), ls[1..], s')
  }

  lemma {:induction false} ReachesSnoc(s: State, ls: seq<Label>, m: State, l: Label)
    requires Reaches(s, ls, m) && Enabled(m, l)
    ensures Reaches(s, ls + [l], After(m, l))
    decreases |ls|
  {
    if ls == [] {
      assert [] + [l] == [l];
      assert [l][1..] == [];
    } else {
      ReachesSnoc(After(s, ls[0]), ls[1..], m, l);
      assert (ls + [l])[1..] == ls[1..] + [l];
    }
  }

  // ---- what the restore promises ----

  ghost predicate HasRun(db: Db, b: BucketId) {
    exists r <- db.repaired :: db.repaired[r] == b
  }

  /** The target holds the bucket's measurements at most once. */
  ghost predicate AtMostOnce(db: Db, b: BucketId) {
    && (b in db.direct ==> !HasRun(db, b))
    && forall r <- db.repaired, q <- db.repaired :: db.repaired[r] == b && db.repaired[q] == b ==> r == q
  }

  ghost predicate NothingTwice(db: Db) {
    forall b :: AtMostOnce(db, b)
  }

  ghost predicate Kept(db: Db, b: BucketId) {
    b in db.src || b in db.direct || HasRun(db, b) || b in db.bad
  }

  /** The commit of a repair whose bucket is in the target already under its own id: the
      step a look for that id would have prevented. */
  predicate AppliesSecondCopy(s: State, l: Label) {
    l.Commit? && l.apply && s.pc.Committing? && s.pc.run !in s.db.repaired && s.pc.b in s.db.direct
  }

  // ---- what holds in every state ----

  predicate Handles(pc: Pc) {
    pc.Inserting? || pc.Unpacking? || pc.Starting? || pc.Committing? || pc.Marking? || pc.Deleting?
  }

  ghost predicate Inv(all: set<BucketId>, s: State) {
    && s.db.src <= all && s.db.direct <= all
    && (forall r <- s.db.repaired :: r < s.runs && s.db.repaired[r] !in s.db.src)
    && (forall r <- s.db.repaired, q <- s.db.repaired :: s.db.repaired[r] == s.db.repaired[q] ==> r == q)
    && (s.pc.Inner? ==> forall b <- s.db.src :: Beyond(s.pc.last, b))
    && (Handles(s.pc) ==> s.pc.b in all && forall b <- s.db.src :: s.pc.b <= b)
    && (s.pc.Inserting? || s.pc.Unpacking? ==> s.pc.b in s.db.src)
    && (s.pc.Starting? || s.pc.Committing? ==> s.pc.run < s.runs && UnlessApplied(s.db, s.pc.b, s.pc.run))
    && (s.pc.Deleting? ==> s.pc.b in s.db.direct || HasRun(s.db, s.pc.b) || s.pc.b in s.db.bad)
    && (forall b <- all :: Kept(s.db, b))
    && (s.pc.Returned? ==> s.db.src == {})
  }

  predicate UnlessApplied(db: Db, b: BucketId, run: nat) {
    if run in db.repaired then db.repaired[run] == b else b in db.src
  }

  lemma StartInv(src: set<BucketId>)
    ensures Inv(src, Start(src))
  {
  }

  lemma CommitInv(all: set<BucketId>, s: State, apply: bool, report: Report)
    requires Inv(all, s) && Enabled(s, Commit(apply, report))
    ensures Inv(all, After(s, Commit(apply, report)))
  {
    var s' := After(s, Commit(apply, report));
    var b, run := s.pc.b, s.pc.run;
    forall x | x in all ensures Kept(s'.db, x) {
      assert Kept(s.db, x);
      RunsStay(s.db, b, run, x);
      if x == b && s'.db != s.db { assert s'.db.repaired[run] == b; }
    }
  }

  lemma RunsStay(db: Db, b: BucketId, run: nat, x: BucketId)
    ensures HasRun(db, x) ==> HasRun(Applied(db, b, run), x)
  {
    if HasRun(db, x) {
      var r :| r in db.repaired && db.repaired[r] == x;
      assert r in Applied(db, b, run).repaired && Applied(db, b, run).repaired[r] == x;
    }
  }

  /** Only direct, bad and src change. */
  lemma PlainInv(all: set<BucketId>, s: State, l: Label)
    requires Inv(all, s) && Enabled(s, l) && !l.Commit?
    ensures Inv(all, After(s, l))
  {
    var s' := After(s, l);
    forall x ensures HasRun(s'.db, x) <==> HasRun(s.db, x) {
    }
    forall x | x in all ensures Kept(s'.db, x) {
      assert Kept(s.db, x);
    }
  }

  lemma StepInv(all: set<BucketId>, s: State, l: Label)
    requires Inv(all, s) && Enabled(s, l)
    ensures Inv(all, After(s, l))
  {
    if l.Commit? { CommitInv(all, s, l.apply, l.report); } else { PlainInv(all, s, l); }
  }

  lemma {:induction false} ReachableInv(all: set<BucketId>, s: State, ls: seq<Label>, s': State)
    requires Inv(all, s) && Reaches(s, ls, s')
    ensures Inv(all, s')
    decreases |ls|
  {
    if ls != [] {
      StepInv(all, s, ls[0]);
      ReachableInv(all, After(s, ls[0]), ls[1..], s');
    }
  }

  /** Whatever crashes, errors and restarts come: no bucket is ever lost, and when the
      script returns none is left in the source. */
  lemma NoBucketLost(src: set<BucketId>, ls: seq<Label>, s: State)
    requires Reaches(Start(src), ls, s)
    ensures forall b <- src :: Kept(s.db, b)
    ensures s.pc.Returned? ==> s.db.src == {}
    ensures s.pc.Returned? ==> forall b <- src :: b in s.db.direct || HasRun(s.db, b) || b in s.db.bad
  {
    StartInv(src);
    ReachableInv(src, Start(src), ls, s);
  }

  // ---- no measurement twice: exactly when ----

  lemma RunsAfter(db: Db, b: BucketId, run: nat, x: BucketId)
    ensures HasRun(Applied(db, b, run), x) <==> HasRun(db, x) || (run !in db.repaired && x == b)
  {
    RunsStay(db, b, run, x);
    var db' := Applied(db, b, run);
    if run !in db.repaired && x == b { assert db'.repaired[run] == b; }
    if HasRun(db', x) {
      var r :| r in db'.repaired && db'.repaired[r] == x;
      assert r in db.repaired ==> db.repaired[r] == x;
    }
  }

  /** A step that repairs nothing leaves the runs as they are; `direct` may grow by a bucket
      that no run has repaired. */
  lemma PlainTwice(all: set<BucketId>, s: State, l: Label)
    requires Inv(all, s) && Enabled(s, l) && (l.Commit? ==> !l.apply || s.pc.run in s.db.repaired)
    ensures NothingTwice(After(s, l).db) <==> NothingTwice(s.db)
  {
    var db, db' := s.db, After(s, l).db;
    forall b ensures AtMostOnce(db', b) <==> AtMostOnce(db, b) {
      assert HasRun(db', b) <==> HasRun(db, b);
    }
  }

  lemma CommitTwice(all: set<BucketId>, s: State, l: Label)
    requires Inv(all, s) && Enabled(s, l) && l.Commit? && l.apply && s.pc.run !in s.db.repaired
    ensures NothingTwice(After(s, l).db) <==> NothingTwice(s.db) && s.pc.b !in s.db.direct
  {
    var db, db', c, run := s.db, After(s, l).db, s.pc.b, s.pc.run;
    forall b ensures b != c ==> (AtMostOnce(db', b) <==> AtMostOnce(db, b)) {
      RunsAfter(db, c, run, b);
    }
    RunsAfter(db, c, run, c);
    assert AtMostOnce(db', c) <==> c !in db.direct;
  }

  lemma StepTwice(all: set<BucketId>, s: State, l: Label)
    requires Inv(all, s) && Enabled(s, l)
    ensures NothingTwice(After(s, l).db) <==> NothingTwice(s.db) && !AppliesSecondCopy(s, l)
  {
    if l.Commit? && l.apply && s.pc.run !in s.db.repaired {
      CommitTwice(all, s, l);
    } else {
      PlainTwice(all, s, l);
    }
  }

  // ---- any number of runs: what the script sees of it ----

  /** An insert fails with an error other than DuplicateKey, and the bucket is in the target all
      the same: from an earlier run, or because the insert took effect before it failed. */
  predicate FailsOnPresent(s: State, l: Label) {
    l.InsertFails? && s.pc.Inserting? && (l.applied || s.pc.b in s.db.direct)
  }

  ghost predicate FailsOnPresentAlong(s: State, ls: seq<Label>)
    decreases |ls|
  {
    ls != [] && Enabled(s, ls[0]) && (FailsOnPresent(s, ls[0]) || FailsOnPresentAlong(After(s, ls[0]), ls[1..]))
  }

  predicate RepairsAbsent(s: State) {
    && (s.pc.Unpacking? ==> s.pc.b !in s.db.direct)
    && (s.pc.Starting? || s.pc.Committing? ==> s.pc.run in s.db.repaired || s.pc.b !in s.db.direct)
  }

  /** A second copy has one cause only: such a failed insert. */
  lemma {:induction false} TwiceNeedsFailedInsert(all: set<BucketId>, s: State, ls: seq<Label>, s': State)
    requires Inv(all, s) && NothingTwice(s.db) && RepairsAbsent(s) && Reaches(s, ls, s') && !FailsOnPresentAlong(s, ls)
    ensures NothingTwice(s'.db)
    decreases |ls|
  {
    if ls != [] {
      StepInv(all, s, ls[0]);
      StepTwice(all, s, ls[0]);
      TwiceNeedsFailedInsert(all, After(s, ls[0]), ls[1..], s');
    }
  }

  /** Over any number of runs, crashes included. */
  lemma NothingTwiceUnlessInsertFailsOnPresent(src: set<BucketId>, ls: seq<Label>, s: State)
    requires Reaches(Start(src), ls, s) && !FailsOnPresentAlong(Start(src), ls)
    ensures NothingTwice(s.db)
  {
    StartInv(src);
    TwiceNeedsFailedInsert(src, Start(src), ls, s);
  }

  // ---- one run: what an operator can check before starting it ----

  /** A run of the script: no crash and no restart.  An insert that fails may have taken effect
      only if `lost`. */
  predicate OneRun(lost: bool, ls: seq<Label>) {
    forall l <- ls :: !l.Crash? && !l.Restart? && (l.InsertFails? && l.applied ==> lost)
  }

  /** Such a run from here may leave some bucket's measurements in the target twice. */
  ghost predicate MayCopyTwice(lost: bool, s: State) {
    exists ls: seq<Label>, s': State :: Reaches(s, ls, s') && OneRun(lost, ls) && !NothingTwice(s'.db)
  }

  /** The source and the target share at most the bucket that is about to be deleted; once the
      script has stopped, nothing follows. */
  predicate SharesOnlyCurrent(s: State) {
    s.pc.Down? || forall b <- s.db.src :: b in s.db.direct ==> s.pc == Deleting(b)
  }

  lemma {:induction false} UnsharedRun(all: set<BucketId>, s: State, ls: seq<Label>, s': State)
    requires Inv(all, s) && Reaches(s, ls, s') && OneRun(false, ls) && SharesOnlyCurrent(s)
    ensures !FailsOnPresentAlong(s, ls)
    decreases |ls|
  {
    if ls != [] {
      assert ls[0] in ls;
      RestOfRun(false, ls);
      StepInv(all, s, ls[0]);
      StaysUnshared(all, s, ls[0]);
      UnsharedRun(all, After(s, ls[0]), ls[1..], s');
    }
  }

  lemma RestOfRun(lost: bool, ls: seq<Label>)
    requires ls != [] && OneRun(lost, ls)
    ensures OneRun(lost, ls[1..])
  {
    forall l | l in ls[1..] ensures !l.Crash? && !l.Restart? && (l.InsertFails? && l.applied ==> lost) {
      assert l in ls;
    }
  }

  lemma StaysUnshared(all: set<BucketId>, s: State, l: Label)
    requires Inv(all, s) && Enabled(s, l) && SharesOnlyCurrent(s)
    requires !l.Crash? && !l.Restart? && !(l.InsertFails? && l.applied)
    ensures SharesOnlyCurrent(After(s, l)) && !FailsOnPresent(s, l)
  {
  }

  /** Every run starts with no bucket in both the source and the target, and an insert that fails
      has not taken effect. */
  ghost predicate ClearStarts(s: State, ls: seq<Label>)
    decreases |ls|
  {
    ls == [] ||
    (&& Enabled(s, ls[0]) && !(ls[0].InsertFails? && ls[0].applied)
     && (ls[0].Restart? ==> forall b <- s.db.src :: b !in s.db.direct)
     && ClearStarts(After(s, ls[0]), ls[1..]))
  }

  lemma {:induction false} ClearStartsUnshared(all: set<BucketId>, s: State, ls: seq<Label>, s': State)
    requires Inv(all, s) && Reaches(s, ls, s') && ClearStarts(s, ls) && SharesOnlyCurrent(s)
    ensures !FailsOnPresentAlong(s, ls)
    decreases |ls|
  {
    if ls != [] {
      StepInv(all, s, ls[0]);
      if !ls[0].Crash? && !ls[0].Restart? { StaysUnshared(all, s, ls[0]); }
      ClearStartsUnshared(all, After(s, ls[0]), ls[1..], s');
    }
  }

  /** So it is enough to look before each start, however often the script crashes. */
  lemma NothingTwiceWithClearStarts(src: set<BucketId>, ls: seq<Label>, s: State)
    requires Reaches(Start(src), ls, s) && ClearStarts(Start(src), ls)
    ensures NothingTwice(s.db)
  {
    StartInv(src);
    ClearStartsUnshared(src, Start(src), ls, s);
    TwiceNeedsFailedInsert(src, Start(src), ls, s);
  }

  /** With nothing in the source a run returns at once. */
  lemma {:induction false} EmptyRun(lost: bool, s: State, ls: seq<Label>, s': State)
    requires Reaches(s, ls, s') && OneRun(lost, ls) && s.db.src == {} && (s.pc.Outer? || s.pc.Returned?)
    ensures s'.db == s.db
    decreases |ls|
  {
    if ls != [] {
      assert ls[0] in ls;
      RestOfRun(lost, ls);
      EmptyRun(lost, After(s, ls[0]), ls[1..], s');
    }
  }

  lemma Prepend(s: State, l: Label, ls: seq<Label>, s': State)
    requires Enabled(s, l) && Reaches(After(s, l), ls, s')
    ensures Reaches(s, [l] + ls, s')
  {
    assert ([l] + ls)[1..] == ls;
  }

  lemma PrependRun(lost: bool, s: State, l: Label, ls: seq<Label>, s': State) returns (ls': seq<Label>)
    requires Enabled(s, l) && Reaches(After(s, l), ls, s') && OneRun(lost, ls)
    requires !l.Crash? && !l.Restart? && (l.InsertFails? && l.applied ==> lost)
    ensures ls' == [l] + ls && Reaches(s, ls', s') && OneRun(lost, ls')
  {
    ls' := [l] + ls;
    Prepend(s, l, ls, s');
  }

  /** The repair of a bucket that is in the target. */
  lemma RepairCommits(all: set<BucketId>, s: State, lost: bool) returns (ls: seq<Label>, s': State)
    requires Inv(all, s) && s.pc.Unpacking? && s.pc.b in s.db.direct
    ensures Reaches(s, ls, s') && OneRun(lost, ls) && !NothingTwice(s'.db)
  {
    var b, run := s.pc.b, s.runs;
    var s1 := After(s, UnpackOk);
    var s2 := After(s1, BodyOk);
    s' := After(s2, Commit(true, Committed));
    ls := PrependRun(lost, s2, Commit(true, Committed), [], s');
    ls := PrependRun(lost, s1, BodyOk, ls, s');
    ls := PrependRun(lost, s, UnpackOk, ls, s');
    assert s'.db.repaired[run] == b;
    assert !AtMostOnce(s'.db, b);
  }

  /** The least bucket of the source is in the target already, or gets there although its insert
      fails. */
  lemma RepairNow(all: set<BucketId>, s: State, b: BucketId, lost: bool) returns (ls: seq<Label>, s': State)
    requires Inv(all, s) && s.pc.Inner? && LeastBeyond(s.db.src, s.pc.last, b) && (b in s.db.direct || lost)
    ensures Reaches(s, ls, s') && OneRun(lost, ls) && !NothingTwice(s'.db)
  {
    var fails := InsertFails(b !in s.db.direct);
    var s1 := After(s, NextBucket(b));
    StepInv(all, s, NextBucket(b));
    StepInv(all, s1, fails);
    ls, s' := RepairCommits(all, After(s1, fails), lost);
    ls := PrependRun(lost, s1, fails, ls, s');
    ls := PrependRun(lost, s, NextBucket(b), ls, s');
  }

  /** The buckets before the first shared one are inserted and deleted. */
  lemma {:induction false} WalkToShared(all: set<BucketId>, s: State, c: BucketId) returns (ls: seq<Label>, s': State)
    requires Inv(all, s) && s.pc.Inner? && c in s.db.src && c in s.db.direct
    ensures Reaches(s, ls, s') && OneRun(false, ls) && !NothingTwice(s'.db)
    decreases |s.db.src|
  {
    var b := Least(s.db.src, c);
    if b in s.db.direct {
      ls, s' := RepairNow(all, s, b, false);
    } else {
      var s1 := After(s, NextBucket(b));
      var s2 := After(s1, InsertOk);
      StepInv(all, s, NextBucket(b));
      StepInv(all, s1, InsertOk);
      StepInv(all, s2, DeleteOk);
      ls, s' := WalkToShared(all, After(s2, DeleteOk), c);
      ls := PrependRun(false, s2, DeleteOk, ls, s');
      ls := PrependRun(false, s1, InsertOk, ls, s');
      ls := PrependRun(false, s, NextBucket(b), ls, s');
    }
  }

  lemma Least(src: set<BucketId>, x: BucketId) returns (b: BucketId)
    requires x in src
    ensures b in src && forall y <- src :: b <= y
    decreases |src|
  {
    if y :| y in src && y < x {
      var rest := src - {x};
      assert y in rest;
      b := Least(rest, y);
      assert forall z :: z in src ==> z == x || z in rest;
    } else {
      b := x;
    }
  }

  lemma SharedCopies(all: set<BucketId>, s: State, c: BucketId)
    requires Inv(all, s) && s.pc.Outer? && c in s.db.src && c in s.db.direct
    ensures MayCopyTwice(false, s)
  {
    StepInv(all, s, Open);
    var ls, s' := WalkToShared(all, After(s, Open), c);
    ls := PrependRun(false, s, Open, ls, s');
  }

  lemma LostCopies(all: set<BucketId>, s: State, c: BucketId)
    requires Inv(all, s) && s.pc.Outer? && c in s.db.src
    ensures MayCopyTwice(true, s)
  {
    StepInv(all, s, Open);
    var b := Least(s.db.src, c);
    var ls, s' := RepairNow(all, After(s, Open), b, true);
    ls := PrependRun(true, s, Open, ls, s');
  }

  /** Before a run is started, after whatever earlier runs, with nothing in the target twice: the
      run may copy a bucket twice exactly if some bucket is in both the source and the target;
      and if an insert may take effect and fail all the same, exactly if the source is not
      empty. */
  lemma NothingTwiceExactly(src: set<BucketId>, before: seq<Label>, s: State)
    requires Reaches(Start(src), before, s) && s.pc.Outer? && NothingTwice(s.db)
    ensures MayCopyTwice(false, s) <==> exists b :: b in s.db.src && b in s.db.direct
    ensures MayCopyTwice(true, s) <==> s.db.src != {}
  {
    StartInv(src);
    ReachableInv(src, Start(src), before, s);
    if b :| b in s.db.src && b in s.db.direct {
      SharedCopies(src, s, b);
    } else {
      forall ls: seq<Label>, s': State | Reaches(s, ls, s') && OneRun(false, ls) ensures NothingTwice(s'.db) {
        UnsharedRun(src, s, ls, s');
        TwiceNeedsFailedInsert(src, s, ls, s');
      }
    }
    if s.db.src != {} {
      var b := AnElement(s.db.src);
      LostCopies(src, s, b);
    } else {
      forall ls: seq<Label>, s': State | Reaches(s, ls, s') && OneRun(true, ls) ensures NothingTwice(s'.db) {
        EmptyRun(true, s, ls, s');
      }
    }
  }

  /** Both happen: a run crashes between the insert and the delete, and the next one fails to
      insert the bucket; or one insert takes effect and fails. */
  lemma CrashThenErrorCopiesTwice(b: BucketId) returns (before: seq<Label>, m: State)
    ensures Reaches(Start({b}), before, m) && m.pc.Outer? && NothingTwice(m.db)
    ensures MayCopyTwice(false, m) && MayCopyTwice(true, After(Start({b}), Restart))
  {
    before, m := FirstRunCrashes(b);
    NothingTwiceExactly({b}, before, m);
    Prepend(Start({b}), Restart, [], After(Start({b}), Restart));
    NothingTwiceExactly({b}, [Restart] + [], After(Start({b}), Restart));
  }

  lemma FirstRunCrashes(b: BucketId) returns (ls: seq<Label>, m: State)
    ensures m == State(Db({b}, {b}, map[], {}), Outer, 0) && Reaches(Start({b}), ls, m)
  {
    var db := Db({b}, {}, map[], {});
    assert Db({b}, {} + {b}, map[], {}) == Db({b}, {b}, map[], {});
    m := State(Db({b}, {b}, map[], {}), Outer, 0);
    Prepend(State(m.db, Down, 0), Restart, [], m);
    Prepend(State(m.db, Deleting(b), 0), Crash, [Restart] + [], m);
    ls := [Crash] + ([Restart] + []);
    Prepend(State(db, Inserting(b), 0), InsertOk, ls, m);
    Prepend(State(db, Inner(AtStart), 0), NextBucket(b), [InsertOk] + ls, m);
    ls := [NextBucket(b)] + ([InsertOk] + ls);
    Prepend(State(db, Outer, 0), Open, ls, m);
    Prepend(Start({b}), Restart, [Open] + ls, m);
    ls := [Restart] + ([Open] + ls);
  }

  // ---- an undisturbed run finishes ----

  /** The server may reject buckets, but nothing is lost on the way and nothing crashes. */
  predicate Undisturbed(s: State, l: Label) {
    match l
    case Crash => false
    case MarkThrows(_) => false
    case DeleteThrows(_) => false
    case BodyFails(transient) => !transient
    case Commit(apply, report) => report.Committed? || (report.OtherError? && !apply)
    case _ => true
  }

  predicate Settled(s: State) {
    && !s.pc.Down?
    && (s.pc.Starting? || s.pc.Committing? ==> s.pc.run !in s.db.repaired)
    && (Handles(s.pc) ==> s.pc.b in s.db.src)
  }

  function Left(s: State): nat {
    10 * |s.db.src| +
    match s.pc
    case Down => 0
    case Outer => if s.db.src == {} then 1 else 8
    case Inner(_) => 7
    case Inserting(_) => 6
    case Unpacking(_) => 5
    case Starting(_, _) => 4
    case Committing(_, _) => 3
    case Marking(_) => 2
    case Deleting(_) => 1
    case Returned => 0
  }

  lemma UndisturbedStep(all: set<BucketId>, s: State, l: Label)
    requires Inv(all, s) && Settled(s) && Enabled(s, l) && Undisturbed(s, l)
    ensures Settled(After(s, l)) && Left(After(s, l)) < Left(s)
  {
    if s.pc.Inner? && l.EndOfCursor? && s.db.src != {} {
      var b := AnElement(s.db.src);
      assert false;
    }
  }

  lemma UndisturbedNotStuck(all: set<BucketId>, s: State) returns (l: Label)
    requires Inv(all, s) && Settled(s) && !s.pc.Returned?
    ensures Enabled(s, l) && Undisturbed(s, l)
  {
    match s.pc
    case Outer => l := Open;
    case Inner(last) =>
      if s.db.src == {} {
        l := EndOfCursor;
      } else {
        var x := AnElement(s.db.src);
        var b := Least(s.db.src, x);
        l := NextBucket(b);
      }
    case Inserting(b) => l := InsertFails(false);
    case Unpacking(b) => l := UnpackFails;
    case Starting(b, run) => l := BodyFails(false);
    case Committing(b, run) => l := Commit(false, OtherError);
    case Marking(b) => l := MarkOk;
    case Deleting(b) => l := DeleteOk;
  }

  ghost predicate UndisturbedAlong(s: State, ls: seq<Label>)
    decreases |ls|
  {
    ls != [] ==> Enabled(s, ls[0]) && Undisturbed(s, ls[0]) && UndisturbedAlong(After(s, ls[0]), ls[1..])
  }

  lemma {:induction false} UndisturbedRun(all: set<BucketId>, s: State, ls: seq<Label>, s': State)
    requires Inv(all, s) && Settled(s) && Reaches(s, ls, s') && UndisturbedAlong(s, ls)
    ensures Inv(all, s') && Settled(s') && |ls| + Left(s') <= Left(s)
    decreases |ls|
  {
    if ls != [] {
      StepInv(all, s, ls[0]);
      UndisturbedStep(all, s, ls[0]);
      UndisturbedRun(all, After(s, ls[0]), ls[1..], s');
    }
  }

  /** However a restore was interrupted, the next undisturbed run processes what is left, in
      a bounded number of steps, and ends by returning with an empty source. */
  lemma RestartFinishes(src: set<BucketId>, before: seq<Label>, s: State, ls: seq<Label>, s': State)
    requires Reaches(Start(src), before, s) && s.pc.Outer?
    requires Reaches(s, ls, s') && UndisturbedAlong(s, ls)
    ensures |ls| <= Left(s) && !s'.pc.Down?
    ensures (forall l :: Enabled(s', l) ==> !Undisturbed(s', l)) ==> s'.pc.Returned? && s'.db.src == {}
  {
    StartInv(src);
    ReachableInv(src, Start(src), before, s);
    UndisturbedRun(src, s, ls, s');
    if !s'.pc.Returned? { var l := UndisturbedNotStuck(src, s'); }
  }
}
