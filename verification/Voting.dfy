/** Deciding what becomes of an inconsistent document (repair_checked_documents.py). */
module Voting {
  import opened Collections
  import opened Scan
  import opened ScanRange

  // ---- how many nodes have which version ----

  datatype DocCount = DocCount(doc: Saved, count: nat, indices: seq<nat>)

  /** The nodes that have d, in order. */
  function Holders(docs: seq<Saved>, d: Saved): (h: seq<nat>)
    ensures forall k: nat :: k in h <==> k < |docs| && docs[k] == d
  {
    if docs == [] then []
    else
      var n := |docs| - 1;
      Holders(docs[..n], d) + if docs[n] == d then [n] else []
  }

  function Votes(docs: seq<Saved>, d: Saved): nat {
    |Holders(docs, d)|
  }

  /** One entry for each version among the docs: who has it. */
  ghost predicate Classes(docs: seq<Saved>, cs: seq<DocCount>) {
    && (forall j: nat :: j < |cs| ==> ClassOk(docs, cs[j]))
    && (forall j: nat, k: nat :: j < k < |cs| ==> cs[j].doc != cs[k].doc)
    && (forall k: nat :: k < |docs| ==> Listed(cs, docs[k]))
  }

  predicate ClassOk(docs: seq<Saved>, c: DocCount) {
    c.indices == Holders(docs, c.doc) && c.count == |c.indices| > 0
  }

  ghost predicate Listed(cs: seq<DocCount>, d: Saved) {
    exists j: nat :: j < |cs| && cs[j].doc == d
  }

  function Counts(cs: seq<DocCount>): (s: seq<nat>)
    ensures |s| == |cs|
  {
    seq(|cs|, j requires 0 <= j < |cs| => cs[j].count)
  }

  lemma HoldersSnoc(docs: seq<Saved>, n: nat, d: Saved)
    requires n < |docs|
    ensures Holders(docs[..n + 1], d) == Holders(docs[..n], d) + if docs[n] == d then [n] else []
  {
    assert docs[..n + 1][..n] == docs[..n];
  }

  lemma CountAgain(docs: seq<Saved>, n: nat, cs: seq<DocCount>, j: nat, c: DocCount)
    requires n < |docs| && Classes(docs[..n], cs) && j < |cs| && cs[j].doc == docs[n]
    requires c == DocCount(docs[n], cs[j].count + 1, cs[j].indices + [n])
    ensures Classes(docs[..n + 1], cs[j := c])
  {
    var cs' := cs[j := c];
    ClassesAgain(docs, n, cs, j, c, cs');
    assert cs'[j].doc == docs[n];
    ListedAgain(docs, n, cs, cs');
  }

  lemma ClassesAgain(docs: seq<Saved>, n: nat, cs: seq<DocCount>, j: nat, c: DocCount, cs': seq<DocCount>)
    requires n < |docs| && Classes(docs[..n], cs) && j < |cs| && cs[j].doc == docs[n]
    requires c == DocCount(docs[n], cs[j].count + 1, cs[j].indices + [n]) && cs' == cs[j := c]
    ensures forall k: nat :: k < |cs'| ==> ClassOk(docs[..n + 1], cs'[k])
  {
    forall k: nat | k < |cs'| ensures ClassOk(docs[..n + 1], cs'[k]) {
      assert ClassOk(docs[..n], cs[k]);
      HoldersSnoc(docs, n, cs[k].doc);
    }
  }

  lemma SumAgain(cs: seq<DocCount>, j: nat, c: DocCount)
    requires j < |cs| && c.count == cs[j].count + 1
    ensures Sum(Counts(cs[j := c])) == Sum(Counts(cs)) + 1
  {
    assert Counts(cs[j := c]) == Counts(cs)[j := c.count];
    SumUpdate(Counts(cs), j, c.count);
  }

  lemma ListedAgain(docs: seq<Saved>, n: nat, cs: seq<DocCount>, cs': seq<DocCount>)
    requires n < |docs| && Classes(docs[..n], cs) && |cs| <= |cs'| && Listed(cs', docs[n])
    requires forall j: nat :: j < |cs| ==> cs'[j].doc == cs[j].doc
    ensures forall k: nat :: k < n + 1 ==> Listed(cs', docs[k])
  {
    forall k: nat | k < n + 1 ensures Listed(cs', docs[k]) {
      if k < n {
        assert Listed(cs, docs[..n][k]);
        var j: nat :| j < |cs| && cs[j].doc == docs[k];
        assert cs'[j].doc == docs[k];
      }
    }
  }

  lemma {:induction false} NoHolders(docs: seq<Saved>, d: Saved)
    requires forall k: nat :: k < |docs| ==> docs[k] != d
    ensures Holders(docs, d) == []
  {
    if docs != [] { NoHolders(docs[..|docs| - 1], d); }
  }

  lemma NoneBefore(docs: seq<Saved>, n: nat, cs: seq<DocCount>)
    requires n < |docs| && Classes(docs[..n], cs)
    requires forall j: nat :: j < |cs| ==> cs[j].doc != docs[n]
    ensures Holders(docs[..n], docs[n]) == []
  {
    forall k: nat | k < n ensures docs[k] != docs[n] {
      assert Listed(cs, docs[..n][k]);
    }
    NoHolders(docs[..n], docs[n]);
  }

  lemma CountNew(docs: seq<Saved>, n: nat, cs: seq<DocCount>)
    requires n < |docs| && Classes(docs[..n], cs)
    requires forall j: nat :: j < |cs| ==> cs[j].doc != docs[n]
    ensures Classes(docs[..n + 1], cs + [DocCount(docs[n], 1, [n])])
  {
    var cs' := cs + [DocCount(docs[n], 1, [n])];
    forall k: nat | k < |cs'| ensures ClassOk(docs[..n + 1], cs'[k]) {
      HoldersSnoc(docs, n, cs'[k].doc);
      if k < |cs| { assert ClassOk(docs[..n], cs[k]); } else { NoneBefore(docs, n, cs); }
    }
    assert cs'[|cs|].doc == docs[n];
    ListedAgain(docs, n, cs, cs');
  }

  lemma SumNew(cs: seq<DocCount>, c: DocCount)
    ensures Sum(Counts(cs + [c])) == Sum(Counts(cs)) + c.count
  {
    assert Counts(cs + [c]) == Counts(cs) + [c.count];
    SumSnoc(Counts(cs), c.count);
  }

  lemma SortedIsClasses(docs: seq<Saved>, cs: seq<DocCount>, sorted: seq<DocCount>)
    requires Classes(docs, cs) && multiset(sorted) == multiset(cs)
    ensures Classes(docs, sorted)
  {
    SameElements(cs, sorted);
    DistinctPermuted(cs, sorted);
    forall j: nat, k: nat | j < k < |sorted| ensures sorted[j].doc != sorted[k].doc {
      assert sorted[j] in cs && sorted[k] in cs;
      var a: nat :| a < |cs| && cs[a] == sorted[j];
      var b: nat :| b < |cs| && cs[b] == sorted[k];
    }
    forall j: nat | j < |sorted| ensures ClassOk(docs, sorted[j]) {
      assert sorted[j] in cs;
    }
    forall k: nat | k < |docs| ensures Listed(sorted, docs[k]) {
      assert Listed(cs, docs[k]);
      var a: nat :| a < |cs| && cs[a].doc == docs[k];
      assert cs[a] in sorted;
    }
  }

  function ByCount(): DocCount -> int {
    (c: DocCount) => c.count
  }

  lemma {:induction false} InsertSum(x: DocCount, s: seq<DocCount>)
    ensures Sum(Counts(InsertByKey(x, s, ByCount()))) == x.count + Sum(Counts(s))
  {
    var r := InsertByKey(x, s, ByCount());
    if s == [] || ByCount()(x) > ByCount()(s[0]) {
      assert Counts(r)[1..] == Counts(s);
    } else {
      InsertSum(x, s[1..]);
      assert Counts(r)[1..] == Counts(InsertByKey(x, s[1..], ByCount()));
      assert Counts(s)[1..] == Counts(s[1..]);
    }
  }

  lemma {:induction false} SortSum(s: seq<DocCount>)
    ensures Sum(Counts(SortByKey(s, ByCount()))) == Sum(Counts(s))
  {
    if s != [] {
      var n := |s| - 1;
      SortSum(s[..n]);
      InsertSum(s[n], SortByKey(s[..n], ByCount()));
      SumNew(s[..n], s[n]);
      assert s == s[..n] + [s[n]];
    }
  }

  /** The inner loop: one more doc is counted. */
  method CountDoc(docs: seq<Saved>, i: nat, docCounts: seq<DocCount>) returns (docCounts': seq<DocCount>)
    requires i < |docs| && Classes(docs[..i], docCounts)
    ensures Classes(docs[..i + 1], docCounts') && Sum(Counts(docCounts')) == Sum(Counts(docCounts)) + 1
  {
    var j := 0;
    while j < |docCounts| && docCounts[j].doc != docs[i]
      invariant j <= |docCounts| && forall k: nat :: k < j ==> docCounts[k].doc != docs[i]
    {
      j := j + 1;
    }
    if j < |docCounts| {
      var c := DocCount(docs[i], docCounts[j].count + 1, docCounts[j].indices + [i]);
      CountAgain(docs, i, docCounts, j, c);
      SumAgain(docCounts, j, c);
      docCounts' := docCounts[j := c];
    } else {
      CountNew(docs, i, docCounts);
      SumNew(docCounts, DocCount(docs[i], 1, [i]));
      docCounts' := docCounts + [DocCount(docs[i], 1, [i])];
    }
  }

  lemma SortKeeps(docs: seq<Saved>, cs: seq<DocCount>)
    requires Classes(docs, cs)
    ensures var sorted := SortByKey(cs, ByCount());
            Classes(docs, sorted) && Descending(sorted, ByCount()) && Sum(Counts(sorted)) == Sum(Counts(cs))
  {
    SortSum(cs);
    SortByKeySorts(cs, ByCount());
    SortedIsClasses(docs, cs, SortByKey(cs, ByCount()));
  }

  /** The equality classes of the docs, largest first. */
  method CountSameDocs(docs: seq<Saved>) returns (docCounts: seq<DocCount>)
    ensures Classes(docs, docCounts) && Descending(docCounts, ByCount())
    ensures Sum(Counts(docCounts)) == |docs|
  {
    docCounts := [];
    for i := 0 to |docs|
      invariant Classes(docs[..i], docCounts) && Sum(Counts(docCounts)) == i
    {
      docCounts := CountDoc(docs, i, docCounts);
    }
    assert docs[..|docs|] == docs;
    SortKeeps(docs, docCounts);
    docCounts := SortByKey(docCounts, ByCount());
  }

  // ---- strategies ----

  datatype Setting = Majority | Plurality | Never

  datatype Fallback = Ask | Skip

  datatype Strategy = Strategy(keep: Setting, delete: Setting, fallback: Fallback)

  datatype Parsed = NoStrategy | Automatic(strategy: Strategy) | Invalid

  function ParseStrategy(strategy: string, fallback: Fallback): Parsed {
    if strategy == "ask" then NoStrategy
    else if strategy == "majority" then Automatic(Strategy(Majority, Majority, fallback))
    else if strategy == "majorityDeletePluralityKeep" then Automatic(Strategy(Plurality, Majority, fallback))
    else if strategy == "majorityKeepPluralityDelete" then Automatic(Strategy(Majority, Plurality, fallback))
    else if strategy == "plurality" then Automatic(Strategy(Plurality, Plurality, fallback))
    else if strategy == "majorityKeepNeverDelete" then Automatic(Strategy(Majority, Never, fallback))
    else if strategy == "pluralityKeepNeverDelete" then Automatic(Strategy(Plurality, Never, fallback))
    else if strategy == "majorityDeleteNeverKeep" then Automatic(Strategy(Never, Majority, fallback))
    else if strategy == "pluralityDeleteNeverKeep" then Automatic(Strategy(Never, Plurality, fallback))
    else Invalid
  }

  function StrategyName(keep: Setting, delete: Setting): string
    requires keep != Never || delete != Never
  {
    match (keep, delete)
    case (Majority, Majority) => "majority"
    case (Plurality, Majority) => "majorityDeletePluralityKeep"
    case (Majority, Plurality) => "majorityKeepPluralityDelete"
    case (Plurality, Plurality) => "plurality"
    case (Majority, Never) => "majorityKeepNeverDelete"
    case (Plurality, Never) => "pluralityKeepNeverDelete"
    case (Never, Majority) => "majorityDeleteNeverKeep"
    case (Never, Plurality) => "pluralityDeleteNeverKeep"
  }

  /** Every pair of settings but never and never has one name. */
  lemma OneNameEach(name: string, keep: Setting, delete: Setting, fallback: Fallback)
    ensures ParseStrategy(name, fallback) == Automatic(Strategy(keep, delete, fallback)) <==>
      (keep != Never || delete != Never) && name == StrategyName(keep, delete)
  {
  }

  lemma Names(fallback: Fallback)
    ensures ParseStrategy("ask", fallback) == NoStrategy
    ensures ParseStrategy("majority", fallback) == Automatic(Strategy(Majority, Majority, fallback))
    ensures ParseStrategy("plurality", fallback) == Automatic(Strategy(Plurality, Plurality, fallback))
    ensures ParseStrategy("majorityDeletePluralityKeep", fallback) == Automatic(Strategy(Plurality, Majority, fallback))
    ensures ParseStrategy("majorityKeepPluralityDelete", fallback) == Automatic(Strategy(Majority, Plurality, fallback))
    ensures ParseStrategy("majorityKeepNeverDelete", fallback) == Automatic(Strategy(Majority, Never, fallback))
    ensures ParseStrategy("pluralityKeepNeverDelete", fallback) == Automatic(Strategy(Plurality, Never, fallback))
    ensures ParseStrategy("majorityDeleteNeverKeep", fallback) == Automatic(Strategy(Never, Majority, fallback))
    ensures ParseStrategy("pluralityDeleteNeverKeep", fallback) == Automatic(Strategy(Never, Plurality, fallback))
  {
  }

  // ---- what the votes decide ----

  datatype Outcome = Skipped | Deleted | Restored(doc: Saved)

  predicate MostVotes(docs: seq<Saved>, d: Saved) {
    d in docs && forall k: nat :: k < |docs| ==> Votes(docs, docs[k]) <= Votes(docs, d)
  }

  predicate MoreThanAnyOther(docs: seq<Saved>, d: Saved) {
    d in docs && forall k: nat :: k < |docs| && docs[k] != d ==> Votes(docs, docs[k]) < Votes(docs, d)
  }

  predicate MoreThanAnyOtherVersion(docs: seq<Saved>, d: Saved) {
    forall k: nat :: k < |docs| && docs[k].Version? && docs[k] != d ==> Votes(docs, docs[k]) < Votes(docs, d)
  }

  predicate HasMajority(docs: seq<Saved>, d: Saved) {
    d in docs && 2 * Votes(docs, d) > |docs|
  }

  /** The missing marker wins. */
  predicate DeleteWins(docs: seq<Saved>, s: Strategy, d: Saved) {
    d.WasMissing? &&
    match s.delete
    case Majority => HasMajority(docs, d)
    case Plurality => MoreThanAnyOther(docs, d) || (MostVotes(docs, d) && s.keep != Plurality)
    case Never => false
  }

  /** Version d wins. */
  predicate KeepWins(docs: seq<Saved>, s: Strategy, d: Saved) {
    d.Version? &&
    match s.keep
    case Majority => HasMajority(docs, d)
    case Plurality =>
      MoreThanAnyOther(docs, d) || (MostVotes(docs, d) && MoreThanAnyOtherVersion(docs, d) && s.delete != Plurality)
    case Never => false
  }

  predicate Wins(docs: seq<Saved>, s: Strategy, d: Saved) {
    DeleteWins(docs, s, d) || KeepWins(docs, s, d)
  }

  /** All the saved documents are of one id. */
  predicate SameId(docs: seq<Saved>, id: int) {
    forall k: nat :: k < |docs| ==> if docs[k].Version? then docs[k].doc.id == id else docs[k].id == id
  }

  lemma {:induction false} TwoHolders(docs: seq<Saved>, d: Saved, e: Saved)
    requires d != e
    ensures Votes(docs, d) + Votes(docs, e) <= |docs|
  {
    if docs != [] { TwoHolders(docs[..|docs| - 1], d, e); }
  }

  lemma MajorityIsMost(docs: seq<Saved>, d: Saved)
    requires HasMajority(docs, d)
    ensures MoreThanAnyOther(docs, d) && MostVotes(docs, d)
  {
    forall k: nat | k < |docs| && docs[k] != d ensures Votes(docs, docs[k]) < Votes(docs, d) {
      TwoHolders(docs, d, docs[k]);
    }
  }

  /** Nothing wins without the most votes, a majority setting acts only on more than half the
      nodes, and no two versions win. */
  lemma WinnerIsSound(docs: seq<Saved>, s: Strategy, d: Saved, id: int)
    requires SameId(docs, id) && Wins(docs, s, d)
    ensures MostVotes(docs, d)
    ensures (if d.Version? then s.keep else s.delete) == Majority ==> 2 * Votes(docs, d) > |docs|
    ensures (if d.Version? then s.keep else s.delete) != Never
    ensures forall k: nat :: k < |docs| && Wins(docs, s, docs[k]) ==> docs[k] == d
  {
    WinnerHasMost(docs, s, d);
    forall k: nat | k < |docs| && Wins(docs, s, docs[k]) ensures docs[k] == d {
      WinnerHasMost(docs, s, docs[k]);
      var j: nat :| j < |docs| && docs[j] == d;
    }
  }

  /** A version, or the missing marker, wins under its setting with more than half the votes, with
      more than any other, or with as many as others under the other setting, if no other version
      is among them. */
  lemma WinsExactly(docs: seq<Saved>, s: Strategy, d: Saved)
    requires d in docs
    ensures var own, other := if d.Version? then s.keep else s.delete, if d.Version? then s.delete else s.keep;
            Wins(docs, s, d) <==>
            || (own == Majority && 2 * |Holders(docs, d)| > |docs|)
            || (own == Plurality && forall e <- docs :: e != d ==> |Holders(docs, e)| < |Holders(docs, d)|)
            || (own == Plurality && other != Plurality
                && (forall e <- docs :: |Holders(docs, e)| <= |Holders(docs, d)|)
                && (d.Version? ==>
                      forall e <- docs :: e.Version? && e != d ==> |Holders(docs, e)| < |Holders(docs, d)|))
  {
    LeadExactly(docs, d);
    MostExactly(docs, d);
    VersionsExactly(docs, d);
  }

  lemma LeadExactly(docs: seq<Saved>, d: Saved)
    requires d in docs
    ensures MoreThanAnyOther(docs, d) <==> forall e <- docs :: e != d ==> |Holders(docs, e)| < |Holders(docs, d)|
  {
    if MoreThanAnyOther(docs, d) {
      forall e | e in docs && e != d ensures Votes(docs, e) < Votes(docs, d) {
        var k: nat :| k < |docs| && docs[k] == e;
      }
    } else {
      var k: nat :| k < |docs| && docs[k] != d && Votes(docs, docs[k]) >= Votes(docs, d);
      assert docs[k] in docs;
    }
  }

  lemma MostExactly(docs: seq<Saved>, d: Saved)
    requires d in docs
    ensures MostVotes(docs, d) <==> forall e <- docs :: |Holders(docs, e)| <= |Holders(docs, d)|
  {
    if MostVotes(docs, d) {
      forall e | e in docs ensures Votes(docs, e) <= Votes(docs, d) {
        var k: nat :| k < |docs| && docs[k] == e;
      }
    } else {
      var k: nat :| k < |docs| && Votes(docs, docs[k]) > Votes(docs, d);
      assert docs[k] in docs;
    }
  }

  lemma VersionsExactly(docs: seq<Saved>, d: Saved)
    ensures MoreThanAnyOtherVersion(docs, d) <==>
      forall e <- docs :: e.Version? && e != d ==> |Holders(docs, e)| < |Holders(docs, d)|
  {
    if MoreThanAnyOtherVersion(docs, d) {
      forall e | e in docs && e.Version? && e != d ensures Votes(docs, e) < Votes(docs, d) {
        var k: nat :| k < |docs| && docs[k] == e;
      }
    } else {
      var k: nat :| k < |docs| && docs[k].Version? && docs[k] != d && Votes(docs, docs[k]) >= Votes(docs, d);
      assert docs[k] in docs;
    }
  }

  lemma WinnerHasMost(docs: seq<Saved>, s: Strategy, d: Saved)
    requires Wins(docs, s, d)
    ensures MostVotes(docs, d)
    ensures (d.Version? && s.keep == Majority) || (d.WasMissing? && s.delete == Majority) ==> MoreThanAnyOther(docs, d)
  {
    if HasMajority(docs, d) { MajorityIsMost(docs, d); }
  }

  // ---- make_choice ----

  datatype Choice = SkipIt | DeleteIt | KeepIt(index: nat)

  function Meaning(choice: Choice, docCounts: seq<DocCount>): Outcome
    requires choice.KeepIt? ==> choice.index < |docCounts|
  {
    match choice
    case SkipIt => Skipped
    case DeleteIt => Deleted
    case KeepIt(i) => Restored(docCounts[i].doc)
  }

  /** The user may skip, delete, or choose any version that some node has. */
  predicate ValidAnswer(docs: seq<Saved>, answer: Outcome) {
    answer.Restored? ==> answer.doc in docs && answer.doc.Version?
  }

  /** The winner decides; without one, the user or nobody. */
  predicate Decides(docs: seq<Saved>, strategy: Option<Strategy>, answer: Outcome, o: Outcome) {
    match strategy
    case None => o == answer
    case Some(s) =>
      && (forall k: nat :: k < |docs| && DeleteWins(docs, s, docs[k]) ==> o == Deleted)
      && (forall k: nat :: k < |docs| && KeepWins(docs, s, docs[k]) ==> o == Restored(docs[k]))
      && ((forall k: nat :: k < |docs| ==> !Wins(docs, s, docs[k])) ==>
          o == if s.fallback == Ask then answer else Skipped)
  }

  /** Votes, strategy and answer leave one outcome. */
  lemma DecidesOnce(docs: seq<Saved>, strategy: Option<Strategy>, answer: Outcome, o: Outcome, o': Outcome)
    requires Decides(docs, strategy, answer, o) && Decides(docs, strategy, answer, o')
    ensures o == o'
  {
    if strategy.Some? {
      if k: nat :| k < |docs| && Wins(docs, strategy.value, docs[k]) {
        assert DeleteWins(docs, strategy.value, docs[k]) || KeepWins(docs, strategy.value, docs[k]);
      }
    }
  }

  /** A winner decides: a version is restored, the missing marker deletes.  Without one the
      strategy asks the user or skips, and without a strategy the user is asked. */
  lemma DecidesExactly(docs: seq<Saved>, strategy: Option<Strategy>, answer: Outcome, o: Outcome)
    ensures Decides(docs, strategy, answer, o) <==>
      && (strategy.None? ==> o == answer)
      && (strategy.Some? ==>
            && (forall d <- docs :: Wins(docs, strategy.value, d) ==> o == if d.Version? then Restored(d) else Deleted)
            && ((forall d <- docs :: !Wins(docs, strategy.value, d)) ==>
                  o == if strategy.value.fallback.Ask? then answer else Skipped))
  {
  }

  /** What counting the docs has established. */
  ghost predicate Counted(docs: seq<Saved>, id: int, cs: seq<DocCount>) {
    docs != [] && SameId(docs, id) && Classes(docs, cs) && Descending(cs, ByCount())
  }

  lemma ClassIsDoc(docs: seq<Saved>, id: int, cs: seq<DocCount>, j: nat)
    requires Counted(docs, id, cs) && j < |cs|
    ensures cs[j].doc in docs && cs[j].count == Votes(docs, cs[j].doc)
    ensures cs[j].doc.WasMissing? ==> cs[j].doc == WasMissing(id)
  {
    assert ClassOk(docs, cs[j]);
    var k := Holders(docs, cs[j].doc)[0];
    assert k in Holders(docs, cs[j].doc);
  }

  lemma DocIsClass(docs: seq<Saved>, id: int, cs: seq<DocCount>, d: Saved) returns (j: nat)
    requires Counted(docs, id, cs) && d in docs
    ensures j < |cs| && cs[j].doc == d && cs[j].count == Votes(docs, d)
  {
    var k: nat :| k < |docs| && docs[k] == d;
    assert Listed(cs, docs[k]);
    j :| j < |cs| && cs[j].doc == d;
    ClassIsDoc(docs, id, cs, j);
  }

  lemma FirstClass(docs: seq<Saved>, id: int, cs: seq<DocCount>)
    requires Counted(docs, id, cs)
    ensures cs != [] && cs[0].count == Votes(docs, cs[0].doc) && MostVotes(docs, cs[0].doc)
    ensures cs[0].doc.WasMissing? ==> cs[0].doc == WasMissing(id)
  {
    var j := DocIsClass(docs, id, cs, docs[0]);
    ClassIsDoc(docs, id, cs, 0);
    forall k: nat | k < |docs| ensures Votes(docs, docs[k]) <= Votes(docs, cs[0].doc) {
      var i := DocIsClass(docs, id, cs, docs[k]);
      assert ByCount()(cs[0]) >= ByCount()(cs[i]);
    }
  }

  lemma {:induction false} AllHold(docs: seq<Saved>, d: Saved)
    requires forall k: nat :: k < |docs| ==> docs[k] == d
    ensures Votes(docs, d) == |docs|
  {
    if docs != [] { AllHold(docs[..|docs| - 1], d); }
  }

  /** Without a majority there is a second class. */
  lemma SecondClass(docs: seq<Saved>, id: int, cs: seq<DocCount>)
    requires Counted(docs, id, cs) && cs != [] && 2 * cs[0].count <= |docs|
    ensures |cs| >= 2
  {
    ClassIsDoc(docs, id, cs, 0);
    if |cs| == 1 {
      forall k: nat | k < |docs| ensures docs[k] == cs[0].doc {
        var j := DocIsClass(docs, id, cs, docs[k]);
      }
      AllHold(docs, cs[0].doc);
    }
  }

  /** A strict leader decides alone. */
  lemma LeaderDecides(docs: seq<Saved>, id: int, s: Strategy, d: Saved, answer: Outcome, o: Outcome)
    requires SameId(docs, id) && MoreThanAnyOther(docs, d)
    requires var setting := if d.Version? then s.keep else s.delete;
             o == if setting == Plurality || (setting == Majority && HasMajority(docs, d))
                  then (if d.Version? then Restored(d) else Deleted)
                  else if s.fallback == Ask then answer else Skipped
    ensures Decides(docs, Some(s), answer, o)
  {
    forall k: nat | k < |docs| && Wins(docs, s, docs[k]) ensures docs[k] == d {
      WinnerHasMost(docs, s, docs[k]);
      var j: nat :| j < |docs| && docs[j] == d;
    }
    var k: nat :| k < |docs| && docs[k] == d;
  }

  lemma StrictFirst(docs: seq<Saved>, id: int, cs: seq<DocCount>)
    requires Counted(docs, id, cs) && |cs| >= 2 && cs[0].count > cs[1].count
    ensures MoreThanAnyOther(docs, cs[0].doc)
  {
    ClassIsDoc(docs, id, cs, 0);
    forall k: nat | k < |docs| && docs[k] != cs[0].doc ensures Votes(docs, docs[k]) < Votes(docs, cs[0].doc) {
      var i := DocIsClass(docs, id, cs, docs[k]);
      if i > 1 { assert ByCount()(cs[1]) >= ByCount()(cs[i]); }
    }
  }

  /** The first t classes are those with the most votes. */
  ghost predicate Tied(cs: seq<DocCount>, t: nat) {
    && 2 <= t <= |cs|
    && (forall j: nat :: j < t ==> cs[j].count == cs[0].count)
    && (forall j: nat :: t <= j < |cs| ==> cs[j].count < cs[0].count)
  }

  lemma MostVotesIsTied(docs: seq<Saved>, id: int, cs: seq<DocCount>, t: nat, j: nat)
    requires Counted(docs, id, cs) && Tied(cs, t) && j < |cs|
    ensures MostVotes(docs, cs[j].doc) <==> j < t
    ensures !MoreThanAnyOther(docs, cs[j].doc) && !HasMajority(docs, cs[j].doc)
  {
    FirstClass(docs, id, cs);
    ClassIsDoc(docs, id, cs, j);
    var other := if j == 0 then 1 else 0;
    ClassIsDoc(docs, id, cs, other);
    if HasMajority(docs, cs[j].doc) { MajorityIsMost(docs, cs[j].doc); }
  }

  lemma OtherVersions(docs: seq<Saved>, id: int, cs: seq<DocCount>, t: nat, j: nat)
    requires Counted(docs, id, cs) && Tied(cs, t) && j < t
    ensures MoreThanAnyOtherVersion(docs, cs[j].doc) <==>
      forall i: nat :: i < t && i != j ==> cs[i].doc.WasMissing?
  {
    ClassIsDoc(docs, id, cs, j);
    if forall i: nat :: i < t && i != j ==> cs[i].doc.WasMissing? {
      forall k: nat | k < |docs| && docs[k].Version? && docs[k] != cs[j].doc
        ensures Votes(docs, docs[k]) < Votes(docs, cs[j].doc)
      {
        var i := DocIsClass(docs, id, cs, docs[k]);
      }
    } else {
      var i: nat :| i < t && i != j && !cs[i].doc.WasMissing?;
      ClassIsDoc(docs, id, cs, i);
    }
  }

  /** How the first t classes split into missing markers and versions. */
  ghost predicate Split(cs: seq<DocCount>, t: nat, deletes: nat, keeps: nat) {
    && t <= |cs| && deletes + keeps == t && deletes <= 1
    && (deletes == 1 <==> exists j: nat :: j < t && cs[j].doc.WasMissing?)
  }

  lemma SplitStep(docs: seq<Saved>, id: int, cs: seq<DocCount>, t: nat, deletes: nat, keeps: nat)
    requires Counted(docs, id, cs) && t < |cs| && Split(cs, t, deletes, keeps)
    ensures if cs[t].doc.WasMissing? then Split(cs, t + 1, deletes + 1, keeps) else Split(cs, t + 1, deletes, keeps + 1)
  {
    ClassIsDoc(docs, id, cs, t);
    if cs[t].doc.WasMissing? && deletes == 1 {
      var j: nat :| j < t && cs[j].doc.WasMissing?;
      ClassIsDoc(docs, id, cs, j);
    }
    if deletes == 1 {
      var j: nat :| j < t && cs[j].doc.WasMissing?;
      assert j < t + 1 && cs[j].doc.WasMissing?;
    }
  }

  ghost predicate Tie(docs: seq<Saved>, id: int, cs: seq<DocCount>, t: nat, deletes: nat, keeps: nat) {
    Counted(docs, id, cs) && Tied(cs, t) && Split(cs, t, deletes, keeps)
  }

  predicate DeletesTie(s: Strategy, deletes: nat) {
    deletes == 1 && s.delete == Plurality && s.keep != Plurality
  }

  predicate KeepsTie(s: Strategy, keeps: nat) {
    keeps == 1 && s.keep == Plurality && s.delete != Plurality
  }

  lemma TieDelete(docs: seq<Saved>, id: int, cs: seq<DocCount>, t: nat, deletes: nat, keeps: nat, s: Strategy)
    requires Tie(docs, id, cs, t, deletes, keeps)
    ensures DeletesTie(s, deletes) <==> exists k: nat :: k < |docs| && DeleteWins(docs, s, docs[k])
  {
    if DeletesTie(s, deletes) {
      var j: nat :| j < t && cs[j].doc.WasMissing?;
      MostVotesIsTied(docs, id, cs, t, j);
      ClassIsDoc(docs, id, cs, j);
      var k: nat :| k < |docs| && docs[k] == cs[j].doc;
      assert DeleteWins(docs, s, docs[k]);
    }
    if k: nat :| k < |docs| && DeleteWins(docs, s, docs[k]) {
      var j := DocIsClass(docs, id, cs, docs[k]);
      MostVotesIsTied(docs, id, cs, t, j);
    }
  }

  /** Two missing markers are one class, so one version against missing markers is a tie of two. */
  lemma OneVersion(docs: seq<Saved>, id: int, cs: seq<DocCount>, t: nat, deletes: nat, keeps: nat, j: nat)
    requires Tie(docs, id, cs, t, deletes, keeps) && j < t && cs[j].doc.Version?
    ensures (forall i: nat :: i < t && i != j ==> cs[i].doc.WasMissing?) <==> keeps == 1
    ensures keeps == 1 ==> t == 2 && j == (if cs[0].doc.WasMissing? then 1 else 0)
  {
    if forall i: nat :: i < t && i != j ==> cs[i].doc.WasMissing? {
      var i := if j == 0 then 1 else 0;
      assert cs[i].doc.WasMissing?;
      ClassIsDoc(docs, id, cs, i);
      if t > 2 {
        var h := if j == 2 then 1 else 2;
        assert h != i && h != j && cs[h].doc.WasMissing?;
        ClassIsDoc(docs, id, cs, h);
      }
    }
    if keeps == 1 {
      assert t == 2 && deletes == 1;
      var i: nat :| i < t && cs[i].doc.WasMissing?;
    }
  }

  lemma KeepWinsTie(docs: seq<Saved>, id: int, cs: seq<DocCount>, t: nat, deletes: nat, keeps: nat, s: Strategy, j: nat)
    requires Tie(docs, id, cs, t, deletes, keeps) && j < |cs|
    ensures KeepWins(docs, s, cs[j].doc) <==>
      KeepsTie(s, keeps) && j == if cs[0].doc.WasMissing? then 1 else 0
  {
    MostVotesIsTied(docs, id, cs, t, j);
    if j < t {
      OtherVersions(docs, id, cs, t, j);
      if cs[j].doc.Version? {
        OneVersion(docs, id, cs, t, deletes, keeps, j);
      } else if KeepsTie(s, keeps) && j == if cs[0].doc.WasMissing? then 1 else 0 {
        BothMissing(docs, id, cs, j);
      }
    }
  }

  lemma BothMissing(docs: seq<Saved>, id: int, cs: seq<DocCount>, j: nat)
    requires Counted(docs, id, cs) && j < |cs| && cs[j].doc.WasMissing?
    ensures j != if cs[0].doc.WasMissing? then 1 else 0
  {
    ClassIsDoc(docs, id, cs, j);
    ClassIsDoc(docs, id, cs, 0);
  }

  lemma TieKeep(docs: seq<Saved>, id: int, cs: seq<DocCount>, t: nat, deletes: nat, keeps: nat, s: Strategy)
    requires Tie(docs, id, cs, t, deletes, keeps)
    ensures KeepsTie(s, keeps) <==> exists k: nat :: k < |docs| && KeepWins(docs, s, docs[k])
    ensures forall k: nat :: k < |docs| && KeepWins(docs, s, docs[k]) ==>
      docs[k] == cs[if cs[0].doc.WasMissing? then 1 else 0].doc
  {
    forall k: nat | k < |docs| && KeepWins(docs, s, docs[k])
      ensures KeepsTie(s, keeps) && docs[k] == cs[if cs[0].doc.WasMissing? then 1 else 0].doc
    {
      var j := DocIsClass(docs, id, cs, docs[k]);
      KeepWinsTie(docs, id, cs, t, deletes, keeps, s, j);
    }
    if KeepsTie(s, keeps) {
      var j := if cs[0].doc.WasMissing? then 1 else 0;
      KeepWinsTie(docs, id, cs, t, deletes, keeps, s, j);
      ClassIsDoc(docs, id, cs, j);
      var k: nat :| k < |docs| && docs[k] == cs[j].doc;
      assert KeepWins(docs, s, docs[k]);
    }
  }

  lemma TieDecides(docs: seq<Saved>, id: int, cs: seq<DocCount>, t: nat, deletes: nat, keeps: nat, s: Strategy,
                   answer: Outcome, o: Outcome)
    requires Tie(docs, id, cs, t, deletes, keeps)
    requires o == if DeletesTie(s, deletes) then Deleted
                  else if KeepsTie(s, keeps) then Restored(cs[if cs[0].doc.WasMissing? then 1 else 0].doc)
                  else if s.fallback == Ask then answer else Skipped
    ensures Decides(docs, Some(s), answer, o)
  {
    TieDelete(docs, id, cs, t, deletes, keeps, s);
    TieKeep(docs, id, cs, t, deletes, keeps, s);
  }

  /** What comes of an automatic choice, or of none. */
  function Settled(choice: Option<Choice>, docCounts: seq<DocCount>, s: Strategy, answer: Outcome): Outcome
    requires choice.Some? && choice.value.KeepIt? ==> choice.value.index < |docCounts|
  {
    if choice.Some? then Meaning(choice.value, docCounts) else if s.fallback == Ask then answer else Skipped
  }

  predicate ValidChoice(choice: Choice, docCounts: seq<DocCount>) {
    choice.KeepIt? ==> choice.index < |docCounts| && docCounts[choice.index].doc.Version?
  }

  method AutomaticChoice(ghost docs: seq<Saved>, ghost id: int, numNodes: nat, docCounts: seq<DocCount>,
                         strategy: Strategy, ghost answer: Outcome) returns (choice: Option<Choice>)
    requires Counted(docs, id, docCounts) && numNodes == |docs|
    ensures choice.Some? ==> ValidChoice(choice.value, docCounts)
    ensures Decides(docs, Some(strategy), answer, Settled(choice, docCounts, strategy, answer))
  {
    choice := None;
    FirstClass(docs, id, docCounts);
    if 2 * docCounts[0].count > numNodes {
      // a clear majority
      MajorityIsMost(docs, docCounts[0].doc);
      if docCounts[0].doc.WasMissing? {
        if strategy.delete in [Majority, Plurality] { choice := Some(DeleteIt); }
      } else {
        if strategy.keep in [Majority, Plurality] { choice := Some(KeepIt(0)); }
      }
      LeaderDecides(docs, id, strategy, docCounts[0].doc, answer, Settled(choice, docCounts, strategy, answer));
    } else {
      SecondClass(docs, id, docCounts);
      if docCounts[0].count > docCounts[1].count {
        // a clear plurality
        StrictFirst(docs, id, docCounts);
        if docCounts[0].doc.WasMissing? {
          if strategy.delete == Plurality { choice := Some(DeleteIt); }
        } else {
          if strategy.keep == Plurality { choice := Some(KeepIt(0)); }
        }
        LeaderDecides(docs, id, strategy, docCounts[0].doc, answer, Settled(choice, docCounts, strategy, answer));
      } else {
        choice := TieChoice(docs, id, docCounts, strategy, answer);
      }
    }
  }

  /** How many of the leading classes are missing markers and how many are versions. */
  method CountTied(ghost docs: seq<Saved>, ghost id: int, docCounts: seq<DocCount>)
    returns (keepVersions: nat, deleteVersions: nat, ghost t: nat)
    requires Counted(docs, id, docCounts) && |docCounts| >= 2 && docCounts[0].count <= docCounts[1].count
    ensures Tie(docs, id, docCounts, t, deleteVersions, keepVersions)
  {
    keepVersions, deleteVersions := 0, 0;
    var pluralityCount := docCounts[0].count;
    var k := 0;
    while k < |docCounts| && docCounts[k].count == pluralityCount
      invariant Split(docCounts, k, deleteVersions, keepVersions)
      invariant forall j: nat :: j < k ==> docCounts[j].count == pluralityCount
    {
      SplitStep(docs, id, docCounts, k, deleteVersions, keepVersions);
      if docCounts[k].doc.WasMissing? {
        deleteVersions := deleteVersions + 1;
      } else {
        keepVersions := keepVersions + 1;
      }
      k := k + 1;
    }
    AllTied(docs, id, docCounts, k);
    t := k;
  }

  /** No clear plurality. */
  method TieChoice(ghost docs: seq<Saved>, ghost id: int, docCounts: seq<DocCount>, strategy: Strategy,
                   ghost answer: Outcome) returns (choice: Option<Choice>)
    requires Counted(docs, id, docCounts) && |docCounts| >= 2 && docCounts[0].count <= docCounts[1].count
    ensures choice.Some? ==> ValidChoice(choice.value, docCounts)
    ensures Decides(docs, Some(strategy), answer, Settled(choice, docCounts, strategy, answer))
  {
    var keepVersions, deleteVersions, t := CountTied(docs, id, docCounts);
    choice := None;
    if deleteVersions == 1 && strategy.delete == Plurality && strategy.keep in [Majority, Never] {
      choice := Some(DeleteIt);
    } else if keepVersions == 1 && strategy.keep == Plurality && strategy.delete in [Majority, Never] {
      TieKeepIsVersion(docs, id, docCounts, t, deleteVersions, keepVersions, strategy);
      choice := Some(KeepIt(if docCounts[0].doc.WasMissing? then 1 else 0));
    }
    TieDecides(docs, id, docCounts, t, deleteVersions, keepVersions, strategy, answer,
               Settled(choice, docCounts, strategy, answer));
  }

  lemma TieKeepIsVersion(docs: seq<Saved>, id: int, cs: seq<DocCount>, t: nat, deletes: nat, keeps: nat, s: Strategy)
    requires Tie(docs, id, cs, t, deletes, keeps) && KeepsTie(s, keeps)
    ensures cs[if cs[0].doc.WasMissing? then 1 else 0].doc.Version?
  {
    KeepWinsTie(docs, id, cs, t, deletes, keeps, s, if cs[0].doc.WasMissing? then 1 else 0);
  }

  lemma AllTied(docs: seq<Saved>, id: int, cs: seq<DocCount>, t: nat)
    requires Counted(docs, id, cs) && |cs| >= 2 && cs[0].count <= cs[1].count && t <= |cs|
    requires forall j: nat :: j < t ==> cs[j].count == cs[0].count
    requires t == |cs| || cs[t].count != cs[0].count
    ensures Tied(cs, t)
  {
    assert ByCount()(cs[0]) >= ByCount()(cs[1]);
    forall j: nat | t <= j < |cs| ensures cs[j].count < cs[0].count {
      assert ByCount()(cs[0]) >= ByCount()(cs[t]);
      if j > t { assert ByCount()(cs[t]) >= ByCount()(cs[j]); }
    }
  }

  /** The prompt: the user's answer, as an index if it names a version. */
  method AskUserForChoice(ghost docs: seq<Saved>, ghost id: int, docCounts: seq<DocCount>, answer: Outcome)
    returns (choice: Choice)
    requires Counted(docs, id, docCounts) && ValidAnswer(docs, answer)
    ensures ValidChoice(choice, docCounts) && Meaning(choice, docCounts) == answer
  {
    match answer
    case Skipped => choice := SkipIt;
    case Deleted => choice := DeleteIt;
    case Restored(d) =>
      ghost var j := DocIsClass(docs, id, docCounts, d);
      var i: nat :| i < |docCounts| && docCounts[i].doc == d;
      choice := KeepIt(i);
  }

  /** The choice for one document is what the votes decide; a version kept is one that some
      node has. */
  method MakeChoice(ghost docs: seq<Saved>, ghost id: int, numNodes: nat, docCounts: seq<DocCount>,
                    strategy: Option<Strategy>, answer: Outcome) returns (choice: Choice)
    requires Counted(docs, id, docCounts) && numNodes == |docs| && ValidAnswer(docs, answer)
    ensures ValidChoice(choice, docCounts) && Decides(docs, strategy, answer, Meaning(choice, docCounts))
  {
    var fallback, chosen := Ask, None;
    if strategy.Some? {
      fallback := strategy.value.fallback;
      chosen := AutomaticChoice(docs, id, numNodes, docCounts, strategy.value, answer);
    }
    if chosen.Some? {
      choice := chosen.value;
    } else if fallback == Ask {
      choice := AskUserForChoice(docs, id, docCounts, answer);
    } else {
      choice := SkipIt;
    }
  }
}
