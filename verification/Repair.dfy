/** Pushing the chosen version to every node through replication (repair_checked_documents.py). */
module Repair {
  import opened Scan
  import opened ScanRange
  import opened Voting

  type Store = map<int, int>

  // ---- replication ----

  /** What the primary records for its secondaries: only writes that changed something. */
  datatype Entry = Put(id: int, body: int) | Del(id: int)

  /** A secondary without steady-state constraints: what an entry asks for is so afterwards,
      whatever was there before. */
  function Apply(node: Store, e: Entry): Store {
    match e
    case Put(id, body) => node[id := body]
    case Del(id) => node - {id}
  }

  function ApplyAll(node: Store, log: seq<Entry>): Store {
    if log == [] then node else Apply(ApplyAll(node, log[..|log| - 1]), log[|log| - 1])
  }

  /** A write asked of the primary: replace_one with upsert, or delete_one. */
  datatype Write = Replace(id: int, body: int) | Remove(id: int)

  datatype Primary = Primary(docs: Store, log: seq<Entry>)

  function Exec(p: Primary, w: Write): Primary {
    match w
    case Replace(id, body) =>
      if id in p.docs && p.docs[id] == body then p
      else Primary(p.docs[id := body], p.log + [Put(id, body)])
    case Remove(id) =>
      if id !in p.docs then p else Primary(p.docs - {id}, p.log + [Del(id)])
  }

  function ExecAll(p: Primary, ws: seq<Write>): Primary {
    if ws == [] then p else Exec(ExecAll(p, ws[..|ws| - 1]), ws[|ws| - 1])
  }

  predicate Same(a: Store, b: Store, id: int) {
    (id in a <==> id in b) && (id in a ==> a[id] == b[id])
  }

  predicate Touches(log: seq<Entry>, id: int) {
    exists e :: e in log && e.id == id
  }

  lemma ApplySnoc(node: Store, log: seq<Entry>, e: Entry)
    ensures ApplyAll(node, log + [e]) == Apply(ApplyAll(node, log), e)
  {
    assert (log + [e])[..|log|] == log;
  }

  /** Any writes at all: on an id that the log names, a node that has applied the log agrees with
      the primary, whatever either held before; on any other id neither has changed. */
  lemma {:induction false} AgreeWhereLogged(docs: Store, ws: seq<Write>, node: Store, id: int)
    ensures var p := ExecAll(Primary(docs, []), ws);
            if Touches(p.log, id) then Same(ApplyAll(node, p.log), p.docs, id)
            else Same(p.docs, docs, id) && Same(ApplyAll(node, p.log), node, id)
  {
    if ws != [] {
      var n := |ws| - 1;
      var p := ExecAll(Primary(docs, []), ws[..n]);
      AgreeWhereLogged(docs, ws[..n], node, id);
      AgreeStep(p, docs, ws[n], node, id);
    }
  }

  predicate Agreed(p: Primary, docs: Store, node: Store, id: int) {
    if Touches(p.log, id) then Same(ApplyAll(node, p.log), p.docs, id)
    else Same(p.docs, docs, id) && Same(ApplyAll(node, p.log), node, id)
  }

  lemma AgreeStep(p: Primary, docs: Store, w: Write, node: Store, id: int)
    requires Agreed(p, docs, node, id)
    ensures Agreed(Exec(p, w), docs, node, id)
  {
    var q := Exec(p, w);
    if q != p {
      var e := q.log[|q.log| - 1];
      assert q.log == p.log + [e];
      ApplySnoc(node, p.log, e);
      TouchesSnoc(p.log, e, id);
    }
  }

  lemma TouchesSnoc(log: seq<Entry>, e: Entry, id: int)
    ensures Touches(log + [e], id) <==> Touches(log, id) || e.id == id
  {
    if Touches(log, id) {
      var f :| f in log && f.id == id;
      assert f in log + [e];
    }
    if e.id == id { assert e in log + [e]; }
  }

  /** What was logged before makes no difference. */
  lemma {:induction false} LogAppends(p: Primary, ws: seq<Write>)
    ensures var alone := ExecAll(Primary(p.docs, []), ws);
            ExecAll(p, ws) == Primary(alone.docs, p.log + alone.log)
  {
    if ws != [] {
      var n := |ws| - 1;
      LogAppends(p, ws[..n]);
    } else {
      assert p.log + [] == p.log;
    }
  }

  lemma ExecLog(p: Primary, w: Write)
    ensures p.log <= Exec(p, w).log
    ensures Exec(p, w) != p ==> Touches(Exec(p, w).log, w.id)
  {
    if Exec(p, w) != p {
      var log := Exec(p, w).log;
      assert log[|p.log|] in log;
    }
  }

  lemma {:induction false} LogGrows(p: Primary, ws: seq<Write>, k: nat)
    requires k <= |ws|
    ensures ExecAll(p, ws[..k]).log <= ExecAll(p, ws).log
  {
    if k < |ws| {
      var n := |ws| - 1;
      LogGrows(p, ws[..n], k);
      assert ws[..n][..k] == ws[..k];
      ExecLog(ExecAll(p, ws[..n]), ws[n]);
    } else {
      assert ws[..k] == ws;
    }
  }

  lemma TouchesLonger(a: seq<Entry>, b: seq<Entry>, id: int)
    requires a <= b
    ensures Touches(a, id) ==> Touches(b, id)
  {
    if e :| e in a && e.id == id {
      var k: nat :| k < |a| && a[k] == e;
      assert b[k] in b;
    }
  }

  /** A write of the id that leaves no trace found the id as it was at the start. */
  lemma NoTrace(docs: Store, ws: seq<Write>, k: nat, id: int)
    requires k < |ws| && ws[k].id == id && !Touches(ExecAll(Primary(docs, []), ws).log, id)
    ensures ws[k].Replace? ==> id in docs
    ensures ws[k].Remove? ==> id !in docs
  {
    var p := Primary(docs, []);
    LogGrows(p, ws, k + 1);
    assert ws[..k + 1][..k] == ws[..k];
    var before := ExecAll(p, ws[..k]);
    AgreeWhereLogged(docs, ws[..k], docs, id);
    ExecLog(before, ws[k]);
    TouchesLonger(before.log, ExecAll(p, ws[..k + 1]).log, id);
    TouchesLonger(ExecAll(p, ws[..k + 1]).log, ExecAll(p, ws).log, id);
  }

  /** A replace and a delete of one id, in either order and with any writes before, between and
      after: every node that catches up agrees with the primary on that id. */
  lemma BothReachEveryNode(docs: Store, ws: seq<Write>, i: nat, j: nat, id: int, node: Store)
    requires i < |ws| && ws[i].Replace? && ws[i].id == id
    requires j < |ws| && ws[j] == Remove(id)
    ensures var p := ExecAll(Primary(docs, []), ws); Same(ApplyAll(node, p.log), p.docs, id)
  {
    AgreeWhereLogged(docs, ws, node, id);
    if !Touches(ExecAll(Primary(docs, []), ws).log, id) {
      NoTrace(docs, ws, i, id);
      NoTrace(docs, ws, j, id);
    }
  }

  /** A plain delete reaches a node exactly when the primary has the document or the node does
      not. */
  lemma PlainDeleteReaches(docs: Store, id: int, node: Store)
    ensures id !in ApplyAll(node, Exec(Primary(docs, []), Remove(id)).log) <==> id in docs || id !in node
  {
    assert [] + [Del(id)] == [Del(id)];
    ApplySnoc(node, [], Del(id));
  }

  /** A plain replace reaches a node exactly when the primary has another version or the node
      has the right one. */
  lemma PlainReplaceReaches(docs: Store, id: int, body: int, node: Store)
    ensures var after := ApplyAll(node, Exec(Primary(docs, []), Replace(id, body)).log);
            (id in after && after[id] == body) <==>
            !(id in docs && docs[id] == body) || (id in node && node[id] == body)
  {
    assert [] + [Put(id, body)] == [Put(id, body)];
    ApplySnoc(node, [], Put(id, body));
  }

  // ---- a whole range ----

  const TRANSIENT_DELETE: int := 1

  function WritesFor(id: int, o: Outcome): seq<Write> {
    match o
    case Skipped => []
    case Deleted => [Replace(id, TRANSIENT_DELETE), Remove(id)]
    case Restored(d) => if d.Version? then [Remove(d.doc.id), Replace(d.doc.id, d.doc.body)] else []
  }

  /** Each id has an outcome, and a version restored is one of that id. */
  predicate OutcomesOk(ids: seq<int>, fixed: set<int>, outcomes: map<int, Outcome>) {
    forall k: nat :: k < |ids| && ids[k] !in fixed ==>
      && ids[k] in outcomes
      && (outcomes[ids[k]].Restored? ==> outcomes[ids[k]].doc.Version? && outcomes[ids[k]].doc.doc.id == ids[k])
  }

  function WritesOf(ids: seq<int>, fixed: set<int>, outcomes: map<int, Outcome>): seq<Write>
    requires OutcomesOk(ids, fixed, outcomes)
  {
    if ids == [] then []
    else
      var n := |ids| - 1;
      WritesOf(ids[..n], fixed, outcomes) + if ids[n] in fixed then [] else WritesFor(ids[n], outcomes[ids[n]])
  }

  predicate Achieved(docs: Store, id: int, o: Outcome) {
    match o
    case Skipped => true
    case Deleted => id !in docs
    case Restored(d) => d.Version? && id in docs && docs[id] == d.doc.body
  }

  lemma {:induction false} ExecConcat(p: Primary, a: seq<Write>, b: seq<Write>)
    ensures ExecAll(p, a + b) == ExecAll(ExecAll(p, a), b)
  {
    if b == [] {
      assert a + b == a;
    } else {
      var n := |b| - 1;
      ExecConcat(p, a, b[..n]);
      assert (a + b)[..|a + b| - 1] == a + b[..n] && (a + b)[|a + b| - 1] == b[n];
    }
  }

  lemma {:induction false} OtherIds(p: Primary, ws: seq<Write>, id: int)
    requires forall k: nat :: k < |ws| ==> ws[k].id != id
    ensures Same(ExecAll(p, ws).docs, p.docs, id)
    ensures Touches(ExecAll(p, ws).log, id) <==> Touches(p.log, id)
  {
    if ws != [] {
      var n := |ws| - 1;
      OtherIds(p, ws[..n], id);
      var q := ExecAll(p, ws[..n]);
      if Exec(q, ws[n]) != q { TouchesSnoc(q.log, Exec(q, ws[n]).log[|q.log|], id); }
    }
  }

  lemma {:induction false} WritesOfIds(ids: seq<int>, fixed: set<int>, outcomes: map<int, Outcome>)
    requires OutcomesOk(ids, fixed, outcomes)
    ensures forall k: nat :: k < |WritesOf(ids, fixed, outcomes)| ==>
      WritesOf(ids, fixed, outcomes)[k].id in ids && WritesOf(ids, fixed, outcomes)[k].id !in fixed
      && outcomes[WritesOf(ids, fixed, outcomes)[k].id] != Skipped
  {
    if ids != [] {
      var n := |ids| - 1;
      WritesOfIds(ids[..n], fixed, outcomes);
      assert ids[n] in ids;
    }
  }

  lemma OneAchieved(p: Primary, id: int, o: Outcome)
    requires o.Restored? ==> o.doc.Version? && o.doc.doc.id == id
    ensures Achieved(ExecAll(p, WritesFor(id, o)).docs, id, o)
  {
    if o != Skipped {
      var ws := WritesFor(id, o);
      TwoWrites(p, ws[0], ws[1]);
    }
  }

  predicate Distinct(ids: seq<int>) {
    forall i: nat, j: nat :: i < j < |ids| ==> ids[i] != ids[j]
  }

  lemma {:induction false} RangeAchieved(p: Primary, ids: seq<int>, fixed: set<int>, outcomes: map<int, Outcome>, k: nat)
    requires OutcomesOk(ids, fixed, outcomes) && Distinct(ids) && k < |ids| && ids[k] !in fixed
    ensures Achieved(ExecAll(p, WritesOf(ids, fixed, outcomes)).docs, ids[k], outcomes[ids[k]])
  {
    var n := |ids| - 1;
    var last := LastWrites(ids, fixed, outcomes);
    var q := ExecAll(p, WritesOf(ids[..n], fixed, outcomes));
    ExecConcat(p, WritesOf(ids[..n], fixed, outcomes), last);
    if k == n {
      OneAchieved(q, ids[n], outcomes[ids[n]]);
    } else {
      RangeAchieved(p, ids[..n], fixed, outcomes, k);
      OtherIds(q, last, ids[k]);
    }
  }

  function LastWrites(ids: seq<int>, fixed: set<int>, outcomes: map<int, Outcome>): (last: seq<Write>)
    requires ids != [] && OutcomesOk(ids, fixed, outcomes)
    ensures WritesOf(ids, fixed, outcomes) == WritesOf(ids[..|ids| - 1], fixed, outcomes) + last
    ensures forall k: nat :: k < |last| ==> last[k].id == ids[|ids| - 1]
  {
    var n := |ids| - 1;
    if ids[n] in fixed then [] else WritesFor(ids[n], outcomes[ids[n]])
  }

  /** Both a replace and a delete of the id are among the writes. */
  predicate Both(ws: seq<Write>, id: int) {
    && (exists i: nat :: i < |ws| && ws[i].Replace? && ws[i].id == id)
    && (exists j: nat :: j < |ws| && ws[j] == Remove(id))
  }

  lemma BothConcat(a: seq<Write>, b: seq<Write>, id: int)
    requires Both(a, id) || Both(b, id)
    ensures Both(a + b, id)
  {
    var c := a + b;
    if Both(a, id) {
      var i: nat :| i < |a| && a[i].Replace? && a[i].id == id;
      var j: nat :| j < |a| && a[j] == Remove(id);
      assert c[i] == a[i] && c[j] == a[j];
    } else {
      var i: nat :| i < |b| && b[i].Replace? && b[i].id == id;
      var j: nat :| j < |b| && b[j] == Remove(id);
      assert c[|a| + i] == b[i] && c[|a| + j] == b[j];
    }
  }

  lemma {:induction false} RangeHasBoth(ids: seq<int>, fixed: set<int>, outcomes: map<int, Outcome>, k: nat)
    requires OutcomesOk(ids, fixed, outcomes) && k < |ids| && ids[k] !in fixed && outcomes[ids[k]] != Skipped
    ensures Both(WritesOf(ids, fixed, outcomes), ids[k])
  {
    var n := |ids| - 1;
    var last := if ids[n] in fixed then [] else WritesFor(ids[n], outcomes[ids[n]]);
    if k == n {
      assert last[if last[0].Replace? then 0 else 1].Replace? && last[if last[0].Replace? then 1 else 0] == Remove(ids[k]);
    } else {
      RangeHasBoth(ids[..n], fixed, outcomes, k);
    }
    BothConcat(WritesOf(ids[..n], fixed, outcomes), last, ids[k]);
  }

  /** The repair of a range, on any node and whatever it held: once it has applied the log, an id
      with an outcome is as decided there and on the primary; an id skipped or fixed before is
      as it was, and the log does not name it. */
  lemma RangeConverges(docs: Store, ids: seq<int>, fixed: set<int>, outcomes: map<int, Outcome>, node: Store, k: nat)
    requires OutcomesOk(ids, fixed, outcomes) && Distinct(ids) && k < |ids|
    ensures var p := ExecAll(Primary(docs, []), WritesOf(ids, fixed, outcomes));
            var id := ids[k];
            if id in fixed || outcomes[id] == Skipped
            then !Touches(p.log, id) && Same(p.docs, docs, id) && Same(ApplyAll(node, p.log), node, id)
            else forall docs' <- [p.docs, ApplyAll(node, p.log)] ::
              && (outcomes[id].Deleted? ==> id !in docs')
              && (outcomes[id].Restored? ==>
                    outcomes[id].doc.Version? && id in docs' && docs'[id] == outcomes[id].doc.doc.body)
  {
    var ws, id := WritesOf(ids, fixed, outcomes), ids[k];
    AgreeWhereLogged(docs, ws, node, id);
    if id in fixed || outcomes[id] == Skipped {
      WritesOfIds(ids, fixed, outcomes);
      OtherIds(Primary(docs, []), ws, id);
    } else {
      RangeAchieved(Primary(docs, []), ids, fixed, outcomes, k);
      RangeHasBoth(ids, fixed, outcomes, k);
      var i: nat :| i < |ws| && ws[i].Replace? && ws[i].id == id;
      var j: nat :| j < |ws| && ws[j] == Remove(id);
      BothReachEveryNode(docs, ws, i, j, id, node);
    }
  }

  // ---- repair_range ----

  /** The collection on the primary. */
  class ReplicatedCollection {
    var docs: Store
    var oplog: seq<Entry>

    constructor (docs: Store)
      ensures this.docs == docs && oplog == []
    {
      this.docs, oplog := docs, [];
    }

    function View(): Primary
      reads this
    {
      Primary(docs, oplog)
    }

    method ReplaceOne(id: int, body: int)
      modifies this
      ensures View() == Exec(old(View()), Replace(id, body))
    {
      if id in docs && docs[id] == body { return; }
      docs := docs[id := body];
      oplog := oplog + [Put(id, body)];
    }

    method DeleteOne(id: int)
      modifies this
      ensures View() == Exec(old(View()), Remove(id))
    {
      if id !in docs { return; }
      docs := docs - {id};
      oplog := oplog + [Del(id)];
    }

    method DeleteDoc(docId: int)
      modifies this
      ensures View() == ExecAll(old(View()), WritesFor(docId, Deleted))
      ensures docId !in docs
    {
      TwoWrites(View(), Replace(docId, TRANSIENT_DELETE), Remove(docId));
      ReplaceOne(docId, TRANSIENT_DELETE);
      DeleteOne(docId);
    }

    method ReplaceDoc(doc: Doc)
      modifies this
      ensures View() == ExecAll(old(View()), WritesFor(doc.id, Restored(Version(doc))))
      ensures doc.id in docs && docs[doc.id] == doc.body
    {
      TwoWrites(View(), Remove(doc.id), Replace(doc.id, doc.body));
      DeleteOne(doc.id);
      ReplaceOne(doc.id, doc.body);
    }
  }

  lemma TwoWrites(p: Primary, w: Write, v: Write)
    ensures ExecAll(p, [w, v]) == Exec(Exec(p, w), v)
  {
    assert [w, v][..1] == [w] && [w][..0] == [];
    assert ExecAll(p, [w]) == Exec(p, w);
  }

  /** The scan's save collections: the same ids in each, every document under its own. */
  predicate ScanCollections(saves: seq<Collection>, ids: seq<int>) {
    && saves != []
    && forall k: nat :: k < |ids| ==> SavedUnder(saves, ids[k])
  }

  predicate SavedUnder(saves: seq<Collection>, id: int) {
    forall i: nat :: i < |saves| ==>
      id in saves[i] && (if saves[i][id].Version? then saves[i][id].doc.id == id else saves[i][id].id == id)
  }

  function DocsOf(saves: seq<Collection>, id: int): (docs: seq<Saved>)
    requires SavedUnder(saves, id)
    ensures |docs| == |saves| && SameId(docs, id)
  {
    seq(|saves|, i requires 0 <= i < |saves| => saves[i][id])
  }

  predicate AnswersOk(saves: seq<Collection>, ids: seq<int>, answers: int -> Outcome)
    requires ScanCollections(saves, ids)
  {
    forall k: nat :: k < |ids| ==> ValidAnswer(DocsOf(saves, ids[k]), answers(ids[k]))
  }

  /** Each outcome is what the votes decide. */
  predicate Decided(saves: seq<Collection>, ids: seq<int>, fixed: set<int>, strategy: Option<Strategy>,
                    answers: int -> Outcome, outcomes: map<int, Outcome>)
    requires ScanCollections(saves, ids)
  {
    && OutcomesOk(ids, fixed, outcomes)
    && forall k: nat :: k < |ids| && ids[k] !in fixed ==>
         Decides(DocsOf(saves, ids[k]), strategy, answers(ids[k]), outcomes[ids[k]])
  }

  lemma {:induction false} WritesFrame(ids: seq<int>, fixed: set<int>, outcomes: map<int, Outcome>,
                                       outcomes': map<int, Outcome>)
    requires OutcomesOk(ids, fixed, outcomes) && OutcomesOk(ids, fixed, outcomes')
    requires forall k: nat :: k < |ids| && ids[k] !in fixed ==> outcomes[ids[k]] == outcomes'[ids[k]]
    ensures WritesOf(ids, fixed, outcomes) == WritesOf(ids, fixed, outcomes')
  {
    if ids != [] { WritesFrame(ids[..|ids| - 1], fixed, outcomes, outcomes'); }
  }

  lemma DecidedNext(saves: seq<Collection>, ids: seq<int>, n: nat, fixed: set<int>, strategy: Option<Strategy>,
                    answers: int -> Outcome, outcomes: map<int, Outcome>, o: Outcome)
    requires n < |ids| && Distinct(ids) && ids[n] !in fixed && ScanCollections(saves, ids)
    requires Decided(saves, ids[..n], fixed, strategy, answers, outcomes)
    requires Decides(DocsOf(saves, ids[n]), strategy, answers(ids[n]), o)
    requires o.Restored? ==> o.doc.Version? && o.doc.doc.id == ids[n]
    ensures Decided(saves, ids[..n + 1], fixed, strategy, answers, outcomes[ids[n] := o])
  {
    assert ids[..n + 1][..n] == ids[..n];
  }

  lemma WritesNext(ids: seq<int>, n: nat, fixed: set<int>, outcomes: map<int, Outcome>, o: Outcome)
    requires n < |ids| && Distinct(ids) && ids[n] !in fixed && OutcomesOk(ids[..n], fixed, outcomes)
    requires OutcomesOk(ids[..n + 1], fixed, outcomes[ids[n] := o])
    ensures WritesOf(ids[..n + 1], fixed, outcomes[ids[n] := o]) ==
            WritesOf(ids[..n], fixed, outcomes) + WritesFor(ids[n], o)
  {
    assert ids[..n + 1][..n] == ids[..n];
    WritesFrame(ids[..n], fixed, outcomes, outcomes[ids[n] := o]);
  }

  lemma DecidedSame(saves: seq<Collection>, ids: seq<int>, n: nat, fixed: set<int>, strategy: Option<Strategy>,
                    answers: int -> Outcome, outcomes: map<int, Outcome>)
    requires n < |ids| && ids[n] in fixed && ScanCollections(saves, ids)
    requires Decided(saves, ids[..n], fixed, strategy, answers, outcomes)
    ensures Decided(saves, ids[..n + 1], fixed, strategy, answers, outcomes)
  {
    assert ids[..n + 1][..n] == ids[..n];
  }

  lemma WritesSame(ids: seq<int>, n: nat, fixed: set<int>, outcomes: map<int, Outcome>)
    requires n < |ids| && ids[n] in fixed && OutcomesOk(ids[..n], fixed, outcomes)
    ensures OutcomesOk(ids[..n + 1], fixed, outcomes)
    ensures WritesOf(ids[..n + 1], fixed, outcomes) == WritesOf(ids[..n], fixed, outcomes)
  {
    assert ids[..n + 1][..n] == ids[..n];
    assert WritesOf(ids[..n], fixed, outcomes) + [] == WritesOf(ids[..n], fixed, outcomes);
  }

  /** One document. */
  method RepairOne(coll: ReplicatedCollection, scanCollections: seq<Collection>, docId: int,
                   strategy: Option<Strategy>, answer: Outcome, dryrun: bool)
    returns (fixed: bool, ghost outcome: Outcome)
    requires scanCollections != [] && SavedUnder(scanCollections, docId)
    requires ValidAnswer(DocsOf(scanCollections, docId), answer)
    modifies coll
    ensures Decides(DocsOf(scanCollections, docId), strategy, answer, outcome)
    ensures outcome.Restored? ==> outcome.doc.Version? && outcome.doc.doc.id == docId
    ensures coll.View() == if dryrun then old(coll.View()) else ExecAll(old(coll.View()), WritesFor(docId, outcome))
    ensures fixed == (!dryrun && outcome != Skipped)
  {
    var docs := DocsOf(scanCollections, docId);
    var docCounts := CountSameDocs(docs);
    var choice := MakeChoice(docs, docId, |scanCollections|, docCounts, strategy, answer);
    outcome := Meaning(choice, docCounts);
    if choice.KeepIt? { ClassIsDoc(docs, docId, docCounts, choice.index); }
    fixed := false;
    if dryrun { return; }
    if choice == DeleteIt {
      coll.DeleteDoc(docId);
    } else if choice.KeepIt? {
      coll.ReplaceDoc(docCounts[choice.index].doc.doc);
    } else {
      return;
    }
    fixed := true;
  }

  /** The ids repaired: those not fixed before whose outcome is not to skip. */
  predicate Repaired(ids: seq<int>, fixed: set<int>, outcomes: map<int, Outcome>, id: int) {
    id in ids && id !in fixed && id in outcomes && outcomes[id] != Skipped
  }

  ghost predicate FixedAfter(ids: seq<int>, fixed: set<int>, outcomes: map<int, Outcome>, dryrun: bool, after: set<int>) {
    forall id :: id in after <==> id in fixed || (!dryrun && Repaired(ids, fixed, outcomes, id))
  }

  lemma FixedNext(ids: seq<int>, n: nat, fixed: set<int>, outcomes: map<int, Outcome>, dryrun: bool, after: set<int>, o: Outcome)
    requires n < |ids| && Distinct(ids) && ids[n] !in fixed && FixedAfter(ids[..n], fixed, outcomes, dryrun, after)
    ensures FixedAfter(ids[..n + 1], fixed, outcomes[ids[n] := o], dryrun,
                       if !dryrun && o != Skipped then after + {ids[n]} else after)
  {
    assert ids[..n + 1] == ids[..n] + [ids[n]];
  }

  function Performed(p: Primary, dryrun: bool, ws: seq<Write>): Primary {
    if dryrun then p else ExecAll(p, ws)
  }

  /** repair_range over the ids of the first save collection: exactly the writes of the outcomes
      that the votes decide, and those ids are recorded as fixed; a dry run changes nothing. */
  method RepairRange(coll: ReplicatedCollection, scanCollections: seq<Collection>, ids: seq<int>, fixedDocs: set<int>,
                     strategy: Option<Strategy>, answers: int -> Outcome, dryrun: bool)
    returns (fixedDocs': set<int>, ghost outcomes: map<int, Outcome>)
    requires ScanCollections(scanCollections, ids) && AnswersOk(scanCollections, ids, answers) && Distinct(ids)
    modifies coll
    ensures Decided(scanCollections, ids, fixedDocs, strategy, answers, outcomes)
    ensures coll.View() ==
      if dryrun then old(coll.View()) else ExecAll(old(coll.View()), WritesOf(ids, fixedDocs, outcomes))
    ensures forall id :: id in fixedDocs' <==>
      id in fixedDocs || (!dryrun && id in ids && id in outcomes && outcomes[id] != Skipped)
    ensures FixedAfter(ids, fixedDocs, outcomes, dryrun, fixedDocs')
  {
    ghost var p := coll.View();
    fixedDocs', outcomes := fixedDocs, map[];
    for n := 0 to |ids|
      invariant Decided(scanCollections, ids[..n], fixedDocs, strategy, answers, outcomes)
      invariant coll.View() == Performed(p, dryrun, WritesOf(ids[..n], fixedDocs, outcomes))
      invariant FixedAfter(ids[..n], fixedDocs, outcomes, dryrun, fixedDocs')
    {
      if ids[n] in fixedDocs {
        DecidedSame(scanCollections, ids, n, fixedDocs, strategy, answers, outcomes);
        WritesSame(ids, n, fixedDocs, outcomes);
        assert ids[..n + 1] == ids[..n] + [ids[n]];
        continue;
      }
      var fixed, outcome := RepairOne(coll, scanCollections, ids[n], strategy, answers(ids[n]), dryrun);
      DecidedNext(scanCollections, ids, n, fixedDocs, strategy, answers, outcomes, outcome);
      WritesNext(ids, n, fixedDocs, outcomes, outcome);
      FixedNext(ids, n, fixedDocs, outcomes, dryrun, fixedDocs', outcome);
      ExecConcat(p, WritesOf(ids[..n], fixedDocs, outcomes), WritesFor(ids[n], outcome));
      outcomes := outcomes[ids[n] := outcome];
      if fixed { fixedDocs' := fixedDocs' + {ids[n]}; }
    }
    assert ids[..|ids|] == ids;
  }

  /** What the scan saved is what the repair reads. */
  lemma ScanFeedsRepair(nodes: seq<Node>, r: Range, saves: seq<Collection>, ids: seq<int>)
    requires |saves| == |nodes| > 0
    requires forall i: nat, x :: i < |nodes| ==> (x in saves[i] <==> InUnion(nodes, r, x) && Disagree(nodes, x))
    requires forall i: nat, x :: i < |nodes| && x in saves[i] ==> saves[i][x] == SaveOf(Find(nodes[i], x), x)
    requires forall k: nat :: k < |ids| ==> ids[k] in saves[0]
    ensures ScanCollections(saves, ids)
  {
    forall k: nat, i: nat | k < |ids| && i < |saves|
      ensures ids[k] in saves[i]
      ensures if saves[i][ids[k]].Version? then saves[i][ids[k]].doc.id == ids[k] else saves[i][ids[k]].id == ids[k]
    {
      var x := ids[k];
      assert x in saves[0] && InUnion(nodes, r, x) && Disagree(nodes, x);
      assert x in saves[i];
      FindSome(nodes[i], x);
    }
  }

  /** A second run, with the ids the first one recorded: an id repaired is left alone. */
  lemma RerunSkips(docs: Store, ids: seq<int>, fixed: set<int>, outcomes: map<int, Outcome>, after: set<int>,
                   outcomes': map<int, Outcome>, k: nat)
    requires OutcomesOk(ids, fixed, outcomes) && Distinct(ids) && OutcomesOk(ids, after, outcomes') && k < |ids|
    requires FixedAfter(ids, fixed, outcomes, false, after) && Repaired(ids, fixed, outcomes, ids[k])
    ensures var p := ExecAll(Primary(docs, []), WritesOf(ids, fixed, outcomes));
            var q := ExecAll(Primary(p.docs, []), WritesOf(ids, after, outcomes'));
            !Touches(q.log, ids[k]) && Achieved(q.docs, ids[k], outcomes[ids[k]])
  {
    var p := ExecAll(Primary(docs, []), WritesOf(ids, fixed, outcomes));
    RangeConverges(docs, ids, fixed, outcomes, docs, k);
    RangeConverges(p.docs, ids, after, outcomes', docs, k);
  }
}
