/** repairRange: one merge over all nodes of a range, restarted wherever a snapshot expires
    (scan_checked_replset.js). */
module ScanRange {
  import opened Collections
  import opened Scan

  /** Where the cursors start: at the range's first id, or after the key a snapshot was lost at. */
  datatype Bound = FromStart | Beyond(key: int)

  predicate Wanted(r: Range, b: Bound, x: int) {
    x < r.maxKey && (if b.FromStart? then r.minKey <= x else b.key < x)
  }

  /** What a node's cursor returns. */
  function Matching(node: Node, r: Range, b: Bound): Node {
    if node == [] then []
    else (if Wanted(r, b, node[0].id) then [node[0]] else []) + Matching(node[1..], r, b)
  }

  function Find(node: Node, x: int): Option<Doc> {
    if node == [] then None else if node[0].id == x then Some(node[0]) else Find(node[1..], x)
  }

  /** Every node's version of one id. */
  function Versions(nodes: seq<Node>, x: int): seq<Option<Doc>> {
    seq(|nodes|, i requires 0 <= i < |nodes| => Find(nodes[i], x))
  }

  ghost predicate InUnion(nodes: seq<Node>, r: Range, x: int) {
    Wanted(r, FromStart, x) && exists i: nat :: i < |nodes| && Find(nodes[i], x).Some?
  }

  predicate Disagree(nodes: seq<Node>, x: int) {
    !AllAgree(Versions(nodes, x))
  }

  // ---- cursors over sorted nodes ----

  /** No id in the list is below x. */
  predicate AllFrom(m: Node, x: int) {
    forall k: nat :: k < |m| ==> x <= m[k].id
  }

  lemma HeadFrom(m: Node, x: int)
    requires Sorted(m) && (m == [] || x <= m[0].id)
    ensures AllFrom(m, x)
  {
  }

  lemma {:induction false} MatchingSorted(node: Node, r: Range, b: Bound)
    requires Sorted(node)
    ensures Sorted(Matching(node, r, b))
    ensures forall k: nat :: k < |Matching(node, r, b)| ==> Wanted(r, b, Matching(node, r, b)[k].id)
    ensures node != [] ==> AllFrom(Matching(node, r, b), node[0].id)
  {
    if node != [] {
      var rest := node[1..];
      MatchingSorted(rest, r, b);
      var m := Matching(rest, r, b);
      if rest == [] {
        assert m == [];
      } else {
        assert node[0].id < rest[0].id;
        FromBefore(m, rest[0].id, node[0].id);
      }
      if Wanted(r, b, node[0].id) {
        HeadSorted(r, b, node[0], m);
        assert Matching(node, r, b) == [node[0]] + m;
      } else {
        assert Matching(node, r, b) == m;
      }
    }
  }

  lemma FromBefore(m: Node, x: int, y: int)
    requires AllFrom(m, x) && y < x
    ensures AllFrom(m, y) && forall k: nat :: k < |m| ==> y < m[k].id
  {
  }

  lemma HeadSorted(r: Range, b: Bound, d: Doc, m: Node)
    requires Sorted(m) && Wanted(r, b, d.id) && forall k: nat :: k < |m| ==> Wanted(r, b, m[k].id) && d.id < m[k].id
    ensures Sorted([d] + m) && AllFrom([d] + m, d.id) && forall k: nat :: k < |[d] + m| ==> Wanted(r, b, ([d] + m)[k].id)
  {
  }

  /** Past its first id, a cursor is the cursor opened beyond that id. */
  lemma {:induction false} MatchingBeyond(node: Node, r: Range, b: Bound, x: int)
    requires Sorted(node) && Wanted(r, b, x)
    requires AllFrom(Matching(node, r, b), x)
    ensures var m := Matching(node, r, b);
            Matching(node, r, Beyond(x)) == if m != [] && m[0].id == x then m[1..] else m
  {
    if node != [] {
      var rest := node[1..];
      var m := Matching(rest, r, b);
      if Wanted(r, b, node[0].id) {
        var all := [node[0]] + m;
        assert all == Matching(node, r, b) && all[0] == node[0] && all[1..] == m;
        RestIsLater(node, r, b);
        assert AllFrom(m, x);
        MatchingBeyond(rest, r, b, x);
      } else {
        assert [] + m == m && [] + Matching(rest, r, Beyond(x)) == Matching(rest, r, Beyond(x));
        MatchingBeyond(rest, r, b, x);
      }
    }
  }

  lemma RestIsLater(node: Node, r: Range, b: Bound)
    requires Sorted(node) && node != []
    ensures AllFrom(Matching(node[1..], r, b), node[0].id + 1)
  {
    MatchingSorted(node[1..], r, b);
    if node[1..] != [] { assert node[0].id < node[1..][0].id; }
  }

  lemma {:induction false} FindMatching(node: Node, r: Range, b: Bound, x: int)
    requires Wanted(r, b, x)
    ensures Find(Matching(node, r, b), x) == Find(node, x)
  {
    if node != [] {
      FindMatching(node[1..], r, b, x);
      var m := Matching(node[1..], r, b);
      if Wanted(r, b, node[0].id) {
        assert ([node[0]] + m)[1..] == m;
      } else {
        assert [] + m == m;
      }
    }
  }

  lemma {:induction false} FindInSorted(m: Node, x: int)
    requires Sorted(m) && AllFrom(m, x)
    ensures Find(m, x) == if m != [] && m[0].id == x then Some(m[0]) else None
  {
    if m != [] && m[0].id != x {
      assert m[1..] != [] ==> m[0].id < m[1..][0].id;
      FindInSorted(m[1..], x);
    }
  }

  lemma {:induction false} FindSome(node: Node, x: int)
    ensures Find(node, x).Some? ==> Find(node, x).value in node && Find(node, x).value.id == x
  {
    if node != [] && node[0].id != x { FindSome(node[1..], x); }
  }

  lemma {:induction false} FoundExactly(node: Node, x: int, d: Doc)
    requires Sorted(node)
    ensures Find(node, x) == Some(d) <==> d in node && d.id == x
  {
    FindSome(node, x);
    if d in node && d.id == x && node[0].id != x {
      assert Sorted(node[1..]);
      FoundExactly(node[1..], x, d);
    }
  }

  function Left(nodes: seq<Node>, r: Range, b: Bound): seq<nat> {
    seq(|nodes|, i requires 0 <= i < |nodes| => |Matching(nodes[i], r, b)|)
  }

  // ---- what the scan leaves behind ----

  datatype Saved = Version(doc: Doc) | WasMissing(id: int)

  function SaveOf(v: Option<Doc>, x: int): Saved {
    if v.Some? then Version(v.value) else WasMissing(x)
  }

  type Collection = map<int, Saved>

  /** The id has been reached: it is in the range and the cursors are past it. */
  predicate Reached(r: Range, b: Bound, x: int) {
    Wanted(r, FromStart, x) && !Wanted(r, b, x)
  }

  /** Save collection i holds node i's version, or a marker, of exactly the ids reached that
      the nodes disagree on. */
  ghost predicate SaveOk(nodes: seq<Node>, r: Range, b: Bound, i: nat, save: Collection) {
    && i < |nodes|
    && (forall x :: x in save <==> Reached(r, b, x) && InUnion(nodes, r, x) && Disagree(nodes, x))
    && (forall x <- save :: save[x] == SaveOf(Find(nodes[i], x), x))
  }

  ghost predicate BackupOk(nodes: seq<Node>, r: Range, b: Bound, i: nat, backup: bool, kept: Collection) {
    && i < |nodes|
    && (forall x :: x in kept <==> backup && Reached(r, b, x) && Disagree(nodes, x) && Find(nodes[i], x).Some?)
    && (forall x <- kept :: kept[x] == SaveOf(Find(nodes[i], x), x))
  }

  ghost predicate CollectionsOk(nodes: seq<Node>, r: Range, b: Bound, backup: bool,
                                saves: seq<Collection>, backups: seq<Collection>) {
    && |saves| == |backups| == |nodes|
    && (forall i: nat :: i < |nodes| ==> SaveOk(nodes, r, b, i, saves[i]))
    && (forall i: nat :: i < |nodes| ==> BackupOk(nodes, r, b, i, backup, backups[i]))
  }

  /** The ids handled are the ids reached, each once, in ascending order. */
  ghost predicate HandledOk(nodes: seq<Node>, r: Range, b: Bound, handled: seq<int>) {
    && (forall x :: x in handled <==> Reached(r, b, x) && InUnion(nodes, r, x))
    && (forall i: nat, j: nat :: i < j < |handled| ==> handled[i] < handled[j])
  }

  ghost predicate AllSorted(nodes: seq<Node>) {
    forall i: nat :: i < |nodes| ==> Sorted(nodes[i])
  }

  // ---- one id ----

  function Pending(d: Option<Doc>, cursor: Node): Node {
    if d.Some? then [d.value] + cursor else []
  }

  /** docs and cursors hold exactly what lies beyond the bound. */
  ghost predicate Positioned(nodes: seq<Node>, r: Range, b: Bound, docs: seq<Option<Doc>>, cursors: seq<Node>) {
    && |docs| == |cursors| == |nodes|
    && forall i: nat :: i < |nodes| ==> Pending(docs[i], cursors[i]) == Matching(nodes[i], r, b)
  }

  /** x is the least id pending. */
  ghost predicate LeastPending(nodes: seq<Node>, r: Range, b: Bound, x: int) {
    && Wanted(r, b, x)
    && (exists i: nat :: i < |nodes| && Find(nodes[i], x).Some?)
    && forall i: nat :: i < |nodes| ==> AllFrom(Matching(nodes[i], r, b), x)
  }

  function Choices(docs: seq<Option<Doc>>, x: int): seq<Option<Doc>> {
    seq(|docs|, i requires 0 <= i < |docs| => if docs[i].Some? && docs[i].value.id == x then docs[i] else None)
  }

  lemma LeastIsPending(nodes: seq<Node>, r: Range, b: Bound, docs: seq<Option<Doc>>, cursors: seq<Node>, k: nat)
    requires AllSorted(nodes) && Positioned(nodes, r, b, docs, cursors) && IsLeast(docs, k)
    ensures LeastPending(nodes, r, b, docs[k].value.id)
    ensures Choices(docs, docs[k].value.id) == Versions(nodes, docs[k].value.id)
  {
    var x := docs[k].value.id;
    forall i: nat | i < |nodes| ensures AllFrom(Matching(nodes[i], r, b), x) {
      MatchingSorted(nodes[i], r, b);
      if docs[i].Some? { assert Pending(docs[i], cursors[i])[0] == docs[i].value; }
      HeadFrom(Matching(nodes[i], r, b), x);
    }
    MatchingSorted(nodes[k], r, b);
    assert Pending(docs[k], cursors[k])[0] == docs[k].value;
    forall i: nat | i < |nodes| ensures Choices(docs, x)[i] == Find(nodes[i], x) {
      ChoiceIsVersion(nodes, r, b, docs, cursors, x, i);
    }
  }

  lemma ChoiceIsVersion(nodes: seq<Node>, r: Range, b: Bound, docs: seq<Option<Doc>>, cursors: seq<Node>, x: int, i: nat)
    requires AllSorted(nodes) && Positioned(nodes, r, b, docs, cursors) && i < |nodes| && Wanted(r, b, x)
    requires AllFrom(Matching(nodes[i], r, b), x)
    ensures Choices(docs, x)[i] == Find(nodes[i], x)
  {
    MatchingSorted(nodes[i], r, b);
    FindMatching(nodes[i], r, b, x);
    FindInSorted(Matching(nodes[i], r, b), x);
  }

  // ---- moving on to the next id ----

  lemma PendingIsInUnion(nodes: seq<Node>, r: Range, b: Bound, x: int, y: int, i: nat)
    requires LeastPending(nodes, r, b, x) && Wanted(r, b, y) && i < |nodes| && Find(nodes[i], y).Some?
    ensures x <= y
  {
    FindMatching(nodes[i], r, b, y);
    FindSome(Matching(nodes[i], r, b), y);
  }

  /** Moving the bound to the least pending id reaches that id and no other. */
  lemma ReachedNext(nodes: seq<Node>, r: Range, b: Bound, x: int, y: int)
    requires LeastPending(nodes, r, b, x) && (b.Beyond? ==> r.minKey <= b.key)
    ensures Reached(r, Beyond(x), y) && InUnion(nodes, r, y) <==> (Reached(r, b, y) && InUnion(nodes, r, y)) || y == x
    ensures Reached(r, b, y) ==> y < x
    ensures r.minKey <= x
  {
    if Wanted(r, b, y) && InUnion(nodes, r, y) && y <= x {
      var i: nat :| i < |nodes| && Find(nodes[i], y).Some?;
      PendingIsInUnion(nodes, r, b, x, y, i);
    }
  }

  lemma SaveNext(nodes: seq<Node>, r: Range, b: Bound, x: int, i: nat, save: Collection, save': Collection)
    requires LeastPending(nodes, r, b, x) && (b.Beyond? ==> r.minKey <= b.key)
    requires SaveOk(nodes, r, b, i, save)
    requires save' == if Disagree(nodes, x) then save[x := SaveOf(Find(nodes[i], x), x)] else save
    ensures SaveOk(nodes, r, Beyond(x), i, save')
  {
    forall y ensures y in save' <==> Reached(r, Beyond(x), y) && InUnion(nodes, r, y) && Disagree(nodes, y) {
      ReachedNext(nodes, r, b, x, y);
    }
  }

  lemma BackupNext(nodes: seq<Node>, r: Range, b: Bound, x: int, i: nat, backup: bool, kept: Collection, kept': Collection)
    requires LeastPending(nodes, r, b, x) && (b.Beyond? ==> r.minKey <= b.key)
    requires BackupOk(nodes, r, b, i, backup, kept)
    requires kept' == if Disagree(nodes, x) && backup && Find(nodes[i], x).Some?
                      then kept[x := SaveOf(Find(nodes[i], x), x)] else kept
    ensures BackupOk(nodes, r, Beyond(x), i, backup, kept')
  {
    forall y ensures y in kept' <==> backup && Reached(r, Beyond(x), y) && Disagree(nodes, y) && Find(nodes[i], y).Some? {
      ReachedNext(nodes, r, b, x, y);
    }
  }

  lemma CollectionsNext(nodes: seq<Node>, r: Range, b: Bound, x: int, backup: bool, saves: seq<Collection>,
                        backups: seq<Collection>, saves': seq<Collection>, backups': seq<Collection>)
    requires LeastPending(nodes, r, b, x) && (b.Beyond? ==> r.minKey <= b.key)
    requires CollectionsOk(nodes, r, b, backup, saves, backups) && |saves'| == |backups'| == |nodes|
    requires forall i: nat :: i < |nodes| ==>
      saves'[i] == if Disagree(nodes, x) then saves[i][x := SaveOf(Find(nodes[i], x), x)] else saves[i]
    requires forall i: nat :: i < |nodes| ==>
      backups'[i] == if Disagree(nodes, x) && backup && Find(nodes[i], x).Some?
                     then backups[i][x := SaveOf(Find(nodes[i], x), x)] else backups[i]
    ensures CollectionsOk(nodes, r, Beyond(x), backup, saves', backups')
  {
    forall i: nat | i < |nodes| ensures SaveOk(nodes, r, Beyond(x), i, saves'[i]) {
      SaveNext(nodes, r, b, x, i, saves[i], saves'[i]);
    }
    forall i: nat | i < |nodes| ensures BackupOk(nodes, r, Beyond(x), i, backup, backups'[i]) {
      BackupNext(nodes, r, b, x, i, backup, backups[i], backups'[i]);
    }
  }

  lemma HandledNext(nodes: seq<Node>, r: Range, b: Bound, x: int, handled: seq<int>)
    requires LeastPending(nodes, r, b, x) && (b.Beyond? ==> r.minKey <= b.key)
    requires HandledOk(nodes, r, b, handled)
    ensures HandledOk(nodes, r, Beyond(x), handled + [x])
  {
    var handled' := handled + [x];
    forall y ensures y in handled' <==> Reached(r, Beyond(x), y) && InUnion(nodes, r, y) {
      ReachedNext(nodes, r, b, x, y);
    }
    forall i: nat, j: nat | i < j < |handled'| ensures handled'[i] < handled'[j] {
      if j == |handled| {
        assert handled[i] in handled;
        ReachedNext(nodes, r, b, x, handled[i]);
      }
    }
  }

  lemma {:induction false} LeftShrinks(nodes: seq<Node>, r: Range, b: Bound, x: int)
    requires AllSorted(nodes) && LeastPending(nodes, r, b, x)
    ensures Sum(Left(nodes, r, Beyond(x))) < Sum(Left(nodes, r, b))
  {
    var s, t := Left(nodes, r, Beyond(x)), Left(nodes, r, b);
    forall i: nat | i < |nodes| ensures s[i] <= t[i] && (Find(nodes[i], x).Some? ==> s[i] < t[i]) {
      MatchingSorted(nodes[i], r, b);
      MatchingBeyond(nodes[i], r, b, x);
      FindMatching(nodes[i], r, b, x);
      FindInSorted(Matching(nodes[i], r, b), x);
    }
    SumMonotone(s, t);
  }

  function NextDoc(cursor: Node): Option<Doc> {
    if cursor == [] then None else Some(cursor[0])
  }

  function Rest(cursor: Node): Node {
    if cursor == [] then [] else cursor[1..]
  }

  lemma NodeNext(node: Node, r: Range, b: Bound, x: int, d: Option<Doc>, cursor: Node, d': Option<Doc>, cursor': Node)
    requires Sorted(node) && Wanted(r, b, x) && Pending(d, cursor) == Matching(node, r, b)
    requires AllFrom(Matching(node, r, b), x)
    requires if d.Some? && d.value.id == x then d' == NextDoc(cursor) && cursor' == Rest(cursor)
             else d' == d && cursor' == cursor
    ensures Pending(d', cursor') == Matching(node, r, Beyond(x))
  {
    MatchingBeyond(node, r, b, x);
    if d.Some? { assert Pending(d, cursor)[1..] == cursor; }
  }

  lemma PositionedNext(nodes: seq<Node>, r: Range, b: Bound, x: int, docs: seq<Option<Doc>>, cursors: seq<Node>,
                       docs': seq<Option<Doc>>, cursors': seq<Node>)
    requires AllSorted(nodes) && Positioned(nodes, r, b, docs, cursors) && LeastPending(nodes, r, b, x)
    requires |docs'| == |cursors'| == |docs|
    requires forall i: nat :: i < |docs| ==>
      if IsLeast(docs, i) then docs'[i] == NextDoc(cursors[i]) && cursors'[i] == Rest(cursors[i])
      else docs'[i] == docs[i] && cursors'[i] == cursors[i]
    requires forall i: nat :: i < |docs| ==> (IsLeast(docs, i) <==> docs[i].Some? && docs[i].value.id == x)
    ensures Positioned(nodes, r, Beyond(x), docs', cursors')
  {
    forall i: nat | i < |nodes| ensures Pending(docs'[i], cursors'[i]) == Matching(nodes[i], r, Beyond(x)) {
      NodeNext(nodes[i], r, b, x, docs[i], cursors[i], docs'[i], cursors'[i]);
    }
  }

  // ---- the loops ----

  /** The save loop for one inconsistent id. */
  method SaveVersions(choices: seq<Option<Doc>>, leastId: int, backup: bool, saves: seq<Collection>, backups: seq<Collection>)
    returns (saves': seq<Collection>, backups': seq<Collection>)
    requires |choices| == |saves| == |backups|
    ensures |saves'| == |backups'| == |choices|
    ensures forall i: nat :: i < |choices| ==> saves'[i] == saves[i][leastId := SaveOf(choices[i], leastId)]
    ensures forall i: nat :: i < |choices| ==>
      backups'[i] == if backup && choices[i].Some? then backups[i][leastId := SaveOf(choices[i], leastId)] else backups[i]
  {
    saves', backups' := saves, backups;
    for i := 0 to |choices|
      invariant |saves'| == |backups'| == |choices|
      invariant forall k: nat :: k < |choices| ==>
        saves'[k] == if k < i then saves[k][leastId := SaveOf(choices[k], leastId)] else saves[k]
      invariant forall k: nat :: k < |choices| ==>
        backups'[k] == if k < i && backup && choices[k].Some? then backups[k][leastId := SaveOf(choices[k], leastId)]
                       else backups[k]
    {
      if choices[i].Some? && backup {
        backups' := backups'[i := backups'[i][leastId := Version(choices[i].value)]];
      }
      var saveDoc := if choices[i].Some? then Version(choices[i].value) else WasMissing(leastId);
      saves' := saves'[i := saves'[i][leastId := saveDoc]];
    }
  }

  /** Advances every document at the minimum.  `expired` says of each fetch whether it finds
      its snapshot gone; then the loop stops where it is. */
  method Advance(docs: seq<Option<Doc>>, cursors: seq<Node>, leastIndices: seq<nat>, expired: nat -> bool, tick: nat)
    returns (docs': seq<Option<Doc>>, cursors': seq<Node>, tick': nat, failed: bool)
    requires |docs| == |cursors| && forall k: nat :: k < |leastIndices| ==> leastIndices[k] < |docs|
    requires forall i: nat, j: nat :: i < j < |leastIndices| ==> leastIndices[i] < leastIndices[j]
    ensures |docs'| == |cursors'| == |docs|
    ensures !failed ==> forall i: nat :: i < |docs| ==>
      if i in leastIndices then docs'[i] == NextDoc(cursors[i]) && cursors'[i] == Rest(cursors[i])
      else docs'[i] == docs[i] && cursors'[i] == cursors[i]
  {
    docs', cursors', tick', failed := docs, cursors, tick, false;
    for n := 0 to |leastIndices|
      invariant |docs'| == |cursors'| == |docs|
      invariant forall i: nat :: i < |docs| ==>
        if i in leastIndices[..n] then docs'[i] == NextDoc(cursors[i]) && cursors'[i] == Rest(cursors[i])
        else docs'[i] == docs[i] && cursors'[i] == cursors[i]
    {
      var i := leastIndices[n];
      assert i !in leastIndices[..n];
      tick' := tick' + 1;
      if expired(tick' - 1) { return docs', cursors', tick', true; }
      if cursors'[i] != [] {
        docs' := docs'[i := Some(cursors'[i][0])];
        cursors' := cursors'[i := cursors'[i][1..]];
      } else {
        docs' := docs'[i := None];
      }
      assert leastIndices[..n + 1] == leastIndices[..n] + [i];
    }
    assert leastIndices[..|leastIndices|] == leastIndices;
  }

  /** establishRangeCursors and the first fetch of every cursor. */
  method OpenCursors(nodes: seq<Node>, r: Range, b: Bound) returns (docs: seq<Option<Doc>>, cursors: seq<Node>)
    ensures Positioned(nodes, r, b, docs, cursors)
  {
    docs, cursors := [], [];
    for i := 0 to |nodes|
      invariant |docs| == |cursors| == i
      invariant forall k: nat :: k < i ==> Pending(docs[k], cursors[k]) == Matching(nodes[k], r, b)
    {
      var cursor := Matching(nodes[i], r, b);
      if cursor != [] {
        docs := docs + [Some(cursor[0])];
        cursors := cursors + [cursor[1..]];
      } else {
        docs := docs + [None];
        cursors := cursors + [[]];
      }
    }
  }

  /** Saves the versions of an id if, and only if, pickDoc finds them inconsistent. */
  method SaveLeast(ghost nodes: seq<Node>, choices: seq<Option<Doc>>, leastId: int, backup: bool,
                   saves: seq<Collection>, backups: seq<Collection>)
    returns (saves': seq<Collection>, backups': seq<Collection>)
    requires choices == Versions(nodes, leastId) && |saves| == |backups| == |nodes|
    ensures |saves'| == |backups'| == |nodes|
    ensures forall i: nat :: i < |nodes| ==>
      saves'[i] == if Disagree(nodes, leastId) then saves[i][leastId := SaveOf(Find(nodes[i], leastId), leastId)]
                   else saves[i]
    ensures forall i: nat :: i < |nodes| ==>
      backups'[i] == if Disagree(nodes, leastId) && backup && Find(nodes[i], leastId).Some?
                     then backups[i][leastId := SaveOf(Find(nodes[i], leastId), leastId)] else backups[i]
  {
    var decision, maxAgreeingNodes := PickDoc(choices);
    saves', backups' := saves, backups;
    if decision != Consistent {
      saves', backups' := SaveVersions(choices, leastId, backup, saves, backups);
    }
  }

  lemma LeastFacts(nodes: seq<Node>, r: Range, b: Bound, docs: seq<Option<Doc>>, cursors: seq<Node>,
                   leastId: int, leastIndices: seq<nat>)
    requires AllSorted(nodes) && Positioned(nodes, r, b, docs, cursors) && (b.Beyond? ==> r.minKey <= b.key)
    requires leastIndices != [] && LeastFound(docs, leastId, leastIndices)
    ensures LeastPending(nodes, r, b, leastId) && r.minKey <= leastId
    ensures Choices(docs, leastId) == Versions(nodes, leastId)
    ensures forall i: nat :: i < |docs| ==> (IsLeast(docs, i) <==> docs[i].Some? && docs[i].value.id == leastId)
  {
    assert leastIndices[0] in leastIndices;
    assert IsLeast(docs, leastIndices[0]);
    LeastIsPending(nodes, r, b, docs, cursors, leastIndices[0]);
    ReachedNext(nodes, r, b, leastId, leastId);
  }

  /** What one turn of the inner loop does with the least id, before advancing. */
  method HandleLeast(nodes: seq<Node>, r: Range, ghost b: Bound, docs: seq<Option<Doc>>, ghost cursors: seq<Node>,
                     leastId: int, leastIndices: seq<nat>, backup: bool,
                     saves: seq<Collection>, backups: seq<Collection>, ghost handled: seq<int>)
    returns (saves': seq<Collection>, backups': seq<Collection>)
    requires AllSorted(nodes) && Positioned(nodes, r, b, docs, cursors) && (b.Beyond? ==> r.minKey <= b.key)
    requires CollectionsOk(nodes, r, b, backup, saves, backups) && HandledOk(nodes, r, b, handled)
    requires leastIndices != [] && LeastFound(docs, leastId, leastIndices)
    ensures LeastPending(nodes, r, b, leastId) && r.minKey <= leastId
    ensures CollectionsOk(nodes, r, Beyond(leastId), backup, saves', backups')
    ensures HandledOk(nodes, r, Beyond(leastId), handled + [leastId])
  {
    LeastFacts(nodes, r, b, docs, cursors, leastId, leastIndices);
    HandledNext(nodes, r, b, leastId, handled);
    saves', backups' := SaveLeast(nodes, Choices(docs, leastId), leastId, backup, saves, backups);
    CollectionsNext(nodes, r, b, leastId, backup, saves, backups, saves', backups');
  }

  /** Every id of the union that is still wanted would be pending. */
  lemma NothingPending(nodes: seq<Node>, r: Range, b: Bound, docs: seq<Option<Doc>>, cursors: seq<Node>)
    requires Positioned(nodes, r, b, docs, cursors)
    requires forall i: nat :: i < |docs| ==> docs[i].None?
    ensures forall x :: InUnion(nodes, r, x) ==> Reached(r, b, x)
  {
    forall x | InUnion(nodes, r, x) ensures Reached(r, b, x) {
      var i: nat :| i < |nodes| && Find(nodes[i], x).Some?;
      assert Pending(docs[i], cursors[i]) == [];
      if Wanted(r, b, x) { FindMatching(nodes[i], r, b, x); }
    }
  }

  /** Advance, and what it means for the cursors' position. */
  method AdvanceAll(ghost nodes: seq<Node>, ghost r: Range, ghost b: Bound, docs: seq<Option<Doc>>, cursors: seq<Node>,
                    leastId: int, leastIndices: seq<nat>, expired: nat -> bool, tick: nat)
    returns (docs': seq<Option<Doc>>, cursors': seq<Node>, tick': nat, failed: bool)
    requires AllSorted(nodes) && Positioned(nodes, r, b, docs, cursors) && (b.Beyond? ==> r.minKey <= b.key)
    requires leastIndices != [] && LeastFound(docs, leastId, leastIndices)
    ensures |docs'| == |cursors'| == |nodes|
    ensures !failed ==> Positioned(nodes, r, Beyond(leastId), docs', cursors')
  {
    docs', cursors', tick', failed := Advance(docs, cursors, leastIndices, expired, tick);
    LeastFacts(nodes, r, b, docs, cursors, leastId, leastIndices);
    if !failed { PositionedNext(nodes, r, b, leastId, docs, cursors, docs', cursors'); }
  }

  /** One pass over the cursors, until they are exhausted or a snapshot is lost. */
  method Pass(nodes: seq<Node>, r: Range, keyAtFailure: Bound, backup: bool, expired: nat -> bool, tick: nat,
              saves: seq<Collection>, backups: seq<Collection>, ghost handled: seq<int>)
    returns (keyAtFailure': Bound, tick': nat, saves': seq<Collection>, backups': seq<Collection>,
             ghost handled': seq<int>, ghost b: Bound)
    requires AllSorted(nodes) && (keyAtFailure.Beyond? ==> r.minKey <= keyAtFailure.key)
    requires CollectionsOk(nodes, r, keyAtFailure, backup, saves, backups)
    requires HandledOk(nodes, r, keyAtFailure, handled)
    ensures CollectionsOk(nodes, r, b, backup, saves', backups') && HandledOk(nodes, r, b, handled')
    ensures keyAtFailure'.Beyond? ==>
      b == keyAtFailure' && r.minKey <= b.key && Sum(Left(nodes, r, b)) < Sum(Left(nodes, r, keyAtFailure))
    ensures keyAtFailure'.FromStart? ==> forall x :: InUnion(nodes, r, x) ==> Reached(r, b, x)
  {
    saves', backups', handled', b, tick' := saves, backups, handled, keyAtFailure, tick;
    var docs, cursors := OpenCursors(nodes, r, keyAtFailure);
    keyAtFailure' := FromStart;
    var leastId, leastIndices := GetLeastId(docs);
    while |leastIndices| != 0
      invariant Positioned(nodes, r, b, docs, cursors) && (b.Beyond? ==> r.minKey <= b.key)
      invariant CollectionsOk(nodes, r, b, backup, saves', backups') && HandledOk(nodes, r, b, handled')
      invariant LeastFound(docs, leastId, leastIndices)
      invariant Sum(Left(nodes, r, b)) <= Sum(Left(nodes, r, keyAtFailure))
      decreases Sum(Left(nodes, r, b))
    {
      saves', backups' := HandleLeast(nodes, r, b, docs, cursors, leastId, leastIndices, backup, saves', backups', handled');
      LeftShrinks(nodes, r, b, leastId);
      handled' := handled' + [leastId];
      var failed;
      docs, cursors, tick', failed := AdvanceAll(nodes, r, b, docs, cursors, leastId, leastIndices, expired, tick');
      b := Beyond(leastId);
      if failed { return Beyond(leastId), tick', saves', backups', handled', b; }
      leastId, leastIndices := GetLeastId(docs);
    }
    NothingPending(nodes, r, b, docs, cursors);
  }

  /** repairRange: whatever snapshots expire while the cursors advance, it ends, having
      handled every id of the union once, in ascending order, and having saved from every
      node exactly the ids on which the nodes disagree. */
  method RepairRange(nodes: seq<Node>, r: Range, backup: bool, expired: nat -> bool)
    returns (saves: seq<Collection>, backups: seq<Collection>, ghost handled: seq<int>)
    requires AllSorted(nodes)
    ensures |saves| == |backups| == |nodes|
    ensures forall i: nat, x :: i < |nodes| ==> (x in saves[i] <==> InUnion(nodes, r, x) && Disagree(nodes, x))
    ensures forall i: nat, x :: i < |nodes| && x in saves[i] ==> saves[i][x] == SaveOf(Find(nodes[i], x), x)
    ensures forall i: nat, x :: i < |nodes| ==>
      (x in backups[i] <==> backup && Wanted(r, FromStart, x) && Disagree(nodes, x) && Find(nodes[i], x).Some?)
    ensures forall i: nat, x :: i < |nodes| && x in backups[i] ==> backups[i][x] == SaveOf(Find(nodes[i], x), x)
    ensures forall x :: x in handled <==> InUnion(nodes, r, x)
    ensures forall i: nat, j: nat :: i < j < |handled| ==> handled[i] < handled[j]
  {
    var none: Collection := map[];
    saves, backups, handled := seq(|nodes|, _ => none), seq(|nodes|, _ => none), [];
    var keyAtFailure, tick := FromStart, 0;
    ghost var b := keyAtFailure;
    var again := true;
    while again
      invariant CollectionsOk(nodes, r, b, backup, saves, backups) && HandledOk(nodes, r, b, handled)
      invariant again ==> b == keyAtFailure && (b.Beyond? ==> r.minKey <= b.key)
      invariant !again ==> forall x :: InUnion(nodes, r, x) ==> Reached(r, b, x)
      decreases again, Sum(Left(nodes, r, b))
    {
      keyAtFailure, tick, saves, backups, handled, b :=
        Pass(nodes, r, keyAtFailure, backup, expired, tick, saves, backups, handled);
      again := keyAtFailure != FromStart;
    }
    BackupsComplete(nodes, r, b, backup, saves, backups);
  }

  lemma FoundOnEach(nodes: seq<Node>, x: int)
    requires AllSorted(nodes)
    ensures forall i: nat, d :: i < |nodes| ==> (Find(nodes[i], x) == Some(d) <==> d in nodes[i] && d.id == x)
  {
    forall i: nat, d | i < |nodes| ensures Find(nodes[i], x) == Some(d) <==> d in nodes[i] && d.id == x {
      FoundExactly(nodes[i], x, d);
    }
  }

  /** An id is handled if it is in the range and on some node. */
  lemma HandledExactly(nodes: seq<Node>, r: Range, x: int)
    requires AllSorted(nodes)
    ensures InUnion(nodes, r, x) <==>
      r.minKey <= x < r.maxKey && exists i: nat, d :: i < |nodes| && d in nodes[i] && d.id == x
  {
    FoundOnEach(nodes, x);
    if InUnion(nodes, r, x) {
      var i: nat :| i < |nodes| && Find(nodes[i], x).Some?;
      assert Find(nodes[i], x) == Some(Find(nodes[i], x).value);
    }
  }

  lemma Differs(nodes: seq<Node>, x: int) returns (i: nat, j: nat, d: Doc)
    requires AllSorted(nodes) && Disagree(nodes, x)
    ensures i < |nodes| && j < |nodes| && d in nodes[i] && d !in nodes[j] && d.id == x
  {
    FoundOnEach(nodes, x);
    i, j :| i < |nodes| && j < |nodes| && Versions(nodes, x)[i] != Versions(nodes, x)[j];
    if Find(nodes[i], x).None? { i, j := j, i; }
    d := Find(nodes[i], x).value;
  }

  lemma DifferDisagree(nodes: seq<Node>, x: int, i: nat, j: nat, d: Doc)
    requires AllSorted(nodes) && i < |nodes| && j < |nodes| && d in nodes[i] && d !in nodes[j] && d.id == x
    ensures Disagree(nodes, x)
  {
    FoundOnEach(nodes, x);
    assert Versions(nodes, x)[i] == Some(d) && Versions(nodes, x)[j] != Some(d);
  }

  /** The nodes disagree on an id if some node's document with it is not on every node. */
  lemma DisagreeExactly(nodes: seq<Node>, x: int)
    requires AllSorted(nodes)
    ensures Disagree(nodes, x) <==>
      exists i: nat, j: nat, d :: i < |nodes| && j < |nodes| && d in nodes[i] && d !in nodes[j] && d.id == x
  {
    if Disagree(nodes, x) {
      var i, j, d := Differs(nodes, x);
    } else if i: nat, j: nat, d :| i < |nodes| && j < |nodes| && d in nodes[i] && d !in nodes[j] && d.id == x {
      DifferDisagree(nodes, x, i, j, d);
    }
  }

  /** What is saved of an id for one node: its document, or that it has none. */
  lemma SavedExactly(node: Node, x: int)
    requires Sorted(node)
    ensures forall d :: SaveOf(Find(node, x), x) == Version(d) <==> d in node && d.id == x
    ensures SaveOf(Find(node, x), x).WasMissing? ==> SaveOf(Find(node, x), x) == WasMissing(x)
  {
    forall d ensures Find(node, x) == Some(d) <==> d in node && d.id == x {
      FoundExactly(node, x, d);
    }
  }

  lemma BackupsComplete(nodes: seq<Node>, r: Range, b: Bound, backup: bool, saves: seq<Collection>, backups: seq<Collection>)
    requires CollectionsOk(nodes, r, b, backup, saves, backups)
    requires forall x :: InUnion(nodes, r, x) ==> Reached(r, b, x)
    ensures forall i: nat, x :: i < |nodes| ==> (x in saves[i] <==> InUnion(nodes, r, x) && Disagree(nodes, x))
    ensures forall i: nat, x :: i < |nodes| ==>
      (x in backups[i] <==> backup && Wanted(r, FromStart, x) && Disagree(nodes, x) && Find(nodes[i], x).Some?)
    ensures forall i: nat, x :: i < |nodes| && x in saves[i] ==> saves[i][x] == SaveOf(Find(nodes[i], x), x)
    ensures forall i: nat, x :: i < |nodes| && x in backups[i] ==> backups[i][x] == SaveOf(Find(nodes[i], x), x)
  {
    forall i: nat, x | i < |nodes| ensures x in saves[i] <==> InUnion(nodes, r, x) && Disagree(nodes, x) {
      assert SaveOk(nodes, r, b, i, saves[i]);
    }
    forall i: nat, x | i < |nodes| && Wanted(r, FromStart, x) && Find(nodes[i], x).Some? ensures Reached(r, b, x) {
      assert InUnion(nodes, r, x);
    }
  }
}
