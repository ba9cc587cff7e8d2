/** Scanning a bad range on every node at once (scan_checked_replset.js). */
module Scan {
  import opened Collections

  datatype Doc = Doc(id: int, body: int)

  datatype Option<T> = None | Some(value: T)

  /** The half-open range of ids under repair. */
  datatype Range = Range(minKey: int, maxKey: int)

  type Node = seq<Doc>

  ghost predicate Sorted(node: Node) {
    forall i: nat, j: nat :: i < j < |node| ==> node[i].id < node[j].id
  }

  // ---- the least id ----

  /** i is one of the documents with the least id. */
  ghost predicate IsLeast(docs: seq<Option<Doc>>, i: nat) {
    && i < |docs| && docs[i].Some?
    && forall j: nat :: j < |docs| && docs[j].Some? ==> docs[i].value.id <= docs[j].value.id
  }

  /** All the places of the least id, in ascending order; none if there are no documents. */
  ghost predicate LeastFound(docs: seq<Option<Doc>>, leastId: int, leastIndices: seq<nat>) {
    && (forall i: nat :: i in leastIndices <==> IsLeast(docs, i))
    && (forall k: nat :: k < |leastIndices| ==>
          leastIndices[k] < |docs| && docs[leastIndices[k]].Some? && docs[leastIndices[k]].value.id == leastId)
    && (forall i: nat, j: nat :: i < j < |leastIndices| ==> leastIndices[i] < leastIndices[j])
    && (leastIndices == [] <==> forall i: nat :: i < |docs| ==> docs[i].None?)
  }

  method GetLeastId(docs: seq<Option<Doc>>) returns (leastId: int, leastIndices: seq<nat>)
    ensures LeastFound(docs, leastId, leastIndices)
  {
    leastId, leastIndices := 0, [];
    for i := 0 to |docs|
      invariant forall k: nat :: k in leastIndices <==> k < i && docs[k].Some? && docs[k].value.id == leastId
      invariant leastIndices != [] ==> forall k: nat :: k < i && docs[k].Some? ==> leastId <= docs[k].value.id
      invariant forall k: nat, j: nat :: k < j < |leastIndices| ==> leastIndices[k] < leastIndices[j]
      invariant leastIndices == [] ==> forall k: nat :: k < i ==> docs[k].None?
      invariant forall k: nat :: k < |leastIndices| ==> leastIndices[k] < i
    {
      if docs[i].Some? {
        if |leastIndices| == 0 {
          leastId := docs[i].value.id;
          leastIndices := [i];
        } else {
          var order := docs[i].value.id - leastId;
          if order == 0 {
            leastIndices := leastIndices + [i];
          } else if order < 0 {
            leastId := docs[i].value.id;
            leastIndices := [i];
          }
        }
      }
    }
    if leastIndices != [] { assert leastIndices[0] in leastIndices; }
  }

  // ---- what most nodes have ----

  datatype Candidate = Candidate(index: nat, mult: nat, doc: Option<Doc>)

  datatype Decision = Consistent | Undecided | Delete | Keep(index: nat)

  function Count(choices: seq<Option<Doc>>, d: Option<Doc>): nat {
    multiset(choices)[d]
  }

  predicate AllAgree(choices: seq<Option<Doc>>) {
    forall i: nat, j: nat :: i < |choices| && j < |choices| ==> choices[i] == choices[j]
  }

  /** The candidates are the distinct documents among the first i choices, each with how
      often and where it first occurs. */
  predicate CandidatesOf(choices: seq<Option<Doc>>, i: nat, cs: seq<Candidate>)
    requires i <= |choices|
  {
    && (forall c <- cs :: c.index < i && choices[c.index] == c.doc && c.mult == Count(choices[..i], c.doc))
    && (forall c <- cs, k: nat :: k < c.index && k < |choices| ==> choices[k] != c.doc)
    && (forall j: nat, k: nat :: j < k < |cs| ==> cs[j].doc != cs[k].doc)
    && (forall k: nat :: k < i ==> Offered(cs, choices[k]))
  }

  predicate Offered(cs: seq<Candidate>, d: Option<Doc>) {
    exists j: nat :: j < |cs| && cs[j].doc == d
  }

  /** No version is on more nodes, and exactly `agreeing` nodes have `d`. */
  predicate MostCommon(choices: seq<Option<Doc>>, d: Option<Doc>, agreeing: nat) {
    && d in choices && Count(choices, d) == agreeing
    && forall k: nat :: k < |choices| ==> Count(choices, choices[k]) <= agreeing
  }

  predicate StrictlyMostCommon(choices: seq<Option<Doc>>, d: Option<Doc>, agreeing: nat) {
    && MostCommon(choices, d, agreeing)
    && forall k: nat :: k < |choices| && choices[k] != d ==> Count(choices, choices[k]) < agreeing
  }

  lemma CountSnoc(choices: seq<Option<Doc>>, i: nat, d: Option<Doc>)
    requires i < |choices|
    ensures Count(choices[..i + 1], d) == Count(choices[..i], d) + if choices[i] == d then 1 else 0
  {
    assert choices[..i + 1] == choices[..i] + [choices[i]];
  }

  lemma CandidateAgain(choices: seq<Option<Doc>>, i: nat, cs: seq<Candidate>, j: nat)
    requires i < |choices| && CandidatesOf(choices, i, cs) && j < |cs| && cs[j].doc == choices[i]
    ensures CandidatesOf(choices, i + 1, cs[j := cs[j].(mult := cs[j].mult + 1)])
  {
    var cs' := cs[j := cs[j].(mult := cs[j].mult + 1)];
    forall c | c in cs' ensures c.index < i + 1 && choices[c.index] == c.doc && c.mult == Count(choices[..i + 1], c.doc) {
      var k: nat :| k < |cs'| && cs'[k] == c;
      assert cs[k] in cs;
      CountSnoc(choices, i, c.doc);
    }
    forall c, k: nat | c in cs' && k < c.index && k < |choices| ensures choices[k] != c.doc {
      var m: nat :| m < |cs'| && cs'[m] == c;
      assert cs[m] in cs;
    }
    forall k: nat | k < i + 1 ensures Offered(cs', choices[k]) {
      if k == i {
        assert cs'[j].doc == choices[i];
      } else {
        var m: nat :| m < |cs| && cs[m].doc == choices[k];
        assert cs'[m].doc == choices[k];
      }
    }
  }

  lemma CandidateNew(choices: seq<Option<Doc>>, i: nat, cs: seq<Candidate>)
    requires i < |choices| && CandidatesOf(choices, i, cs)
    requires forall j: nat :: j < |cs| ==> cs[j].doc != choices[i]
    ensures CandidatesOf(choices, i + 1, cs + [Candidate(i, 1, choices[i])])
  {
    var cs' := cs + [Candidate(i, 1, choices[i])];
    assert choices[i] !in choices[..i] by {
      forall k: nat | k < i ensures choices[k] != choices[i] {
        var j: nat :| j < |cs| && cs[j].doc == choices[k];
      }
    }
    forall c | c in cs' ensures c.mult == Count(choices[..i + 1], c.doc) {
      CountSnoc(choices, i, c.doc);
    }
    forall k: nat | k < i + 1 ensures Offered(cs', choices[k]) {
      if k == i {
        assert cs'[|cs|].doc == choices[i];
      } else {
        var m: nat :| m < |cs| && cs[m].doc == choices[k];
        assert cs'[m].doc == choices[k];
      }
    }
  }

  /** The first half of pickDoc: the distinct choices and their counts. */
  method CountCandidates(choices: seq<Option<Doc>>) returns (candidates: seq<Candidate>)
    ensures CandidatesOf(choices, |choices|, candidates)
  {
    candidates := [];
    for i := 0 to |choices|
      invariant CandidatesOf(choices, i, candidates)
    {
      var j := 0;
      while j < |candidates| && candidates[j].doc != choices[i]
        invariant j <= |candidates|
        invariant forall k: nat :: k < j ==> candidates[k].doc != choices[i]
      {
        j := j + 1;
      }
      if j == |candidates| {
        CandidateNew(choices, i, candidates);
        candidates := candidates + [Candidate(i, 1, choices[i])];
      } else {
        CandidateAgain(choices, i, candidates, j);
        candidates := candidates[j := candidates[j].(mult := candidates[j].mult + 1)];
      }
    }
  }

  /** The decision is the plurality, if there is one, and says so exactly when the nodes
      disagree. */
  method PickDoc(choices: seq<Option<Doc>>) returns (decision: Decision, agreeing: nat)
    ensures decision.Consistent? <==> AllAgree(choices)
    ensures DecisionOk(choices, decision, agreeing)
  {
    var candidates := CountCandidates(choices);
    if |candidates| <= 1 {
      OneCandidate(choices, candidates);
      return Consistent, |choices|;
    }
    TwoCandidates(choices, candidates);
    var sorted := SortByKey(candidates, (c: Candidate) => c.mult);
    TopTwo(choices, candidates, sorted);
    FirstIsMostCommon(choices, sorted);
    if sorted[0].mult == sorted[1].mult { return Undecided, sorted[0].mult; }
    if sorted[0].doc == None { return Delete, sorted[0].mult; }
    return Keep(sorted[0].index), sorted[0].mult;
  }

  ghost predicate DecisionOk(choices: seq<Option<Doc>>, decision: Decision, agreeing: nat) {
    match decision
    case Consistent => agreeing == |choices|
    case Keep(i) => i < |choices| && choices[i].Some? && StrictlyMostCommon(choices, choices[i], agreeing)
    case Delete => StrictlyMostCommon(choices, None, agreeing)
    case Undecided => exists d, e :: d != e && MostCommon(choices, d, agreeing) && MostCommon(choices, e, agreeing)
  }

  lemma OneCandidate(choices: seq<Option<Doc>>, cs: seq<Candidate>)
    requires CandidatesOf(choices, |choices|, cs) && |cs| <= 1
    ensures AllAgree(choices)
  {
    forall i: nat, j: nat | i < |choices| && j < |choices| ensures choices[i] == choices[j] {
      assert Offered(cs, choices[i]) && Offered(cs, choices[j]);
      var a: nat :| a < |cs| && cs[a].doc == choices[i];
      var b: nat :| b < |cs| && cs[b].doc == choices[j];
    }
  }

  lemma TwoCandidates(choices: seq<Option<Doc>>, cs: seq<Candidate>)
    requires CandidatesOf(choices, |choices|, cs) && |cs| >= 2
    ensures !AllAgree(choices)
  {
    assert cs[0] in cs && cs[1] in cs && cs[0].doc != cs[1].doc;
    assert choices[cs[0].index] != choices[cs[1].index];
  }

  lemma TopTwo(choices: seq<Option<Doc>>, cs: seq<Candidate>, sorted: seq<Candidate>)
    requires CandidatesOf(choices, |choices|, cs) && |cs| >= 2
    requires sorted == SortByKey(cs, (c: Candidate) => c.mult)
    ensures |sorted| == |cs| && CandidatesOf(choices, |choices|, sorted)
    ensures forall a: nat :: 0 < a < |sorted| ==> sorted[0].mult >= sorted[a].mult
    ensures forall a: nat :: 1 < a < |sorted| ==> sorted[1].mult >= sorted[a].mult
  {
    SortByKeySorts(cs, (c: Candidate) => c.mult);
    SortedIsCandidates(choices, cs, sorted);
  }

  lemma SortedIsCandidates(choices: seq<Option<Doc>>, cs: seq<Candidate>, sorted: seq<Candidate>)
    requires CandidatesOf(choices, |choices|, cs) && multiset(sorted) == multiset(cs)
    ensures |sorted| == |cs| && CandidatesOf(choices, |choices|, sorted)
  {
    SameElements(cs, sorted);
    DistinctPermuted(cs, sorted);
    forall j: nat, k: nat | j < k < |sorted| ensures sorted[j].doc != sorted[k].doc {
      assert sorted[j] in cs && sorted[k] in cs;
      var a: nat :| a < |cs| && cs[a] == sorted[j];
      var b: nat :| b < |cs| && cs[b] == sorted[k];
    }
    forall k: nat | k < |choices| ensures Offered(sorted, choices[k]) {
      assert Offered(cs, choices[k]);
      var a: nat :| a < |cs| && cs[a].doc == choices[k];
      assert cs[a] in sorted;
    }
  }

  lemma FirstIsMostCommon(choices: seq<Option<Doc>>, sorted: seq<Candidate>)
    requires CandidatesOf(choices, |choices|, sorted) && |sorted| >= 2
    requires forall a: nat :: 0 < a < |sorted| ==> sorted[0].mult >= sorted[a].mult
    requires forall a: nat :: 1 < a < |sorted| ==> sorted[1].mult >= sorted[a].mult
    ensures sorted[0].index < |choices| && choices[sorted[0].index] == sorted[0].doc
    ensures sorted[0].doc != sorted[1].doc
    ensures MostCommon(choices, sorted[0].doc, sorted[0].mult)
    ensures sorted[0].mult == sorted[1].mult ==> MostCommon(choices, sorted[1].doc, sorted[0].mult)
    ensures sorted[0].mult != sorted[1].mult ==> StrictlyMostCommon(choices, sorted[0].doc, sorted[0].mult)
  {
    assert choices[..|choices|] == choices;
    assert sorted[0] in sorted && sorted[1] in sorted;
    forall k: nat | k < |choices|
      ensures exists a: nat :: a < |sorted| && sorted[a].doc == choices[k] && sorted[a].mult == Count(choices, choices[k])
    {
      assert Offered(sorted, choices[k]);
      var a: nat :| a < |sorted| && sorted[a].doc == choices[k];
      assert sorted[a] in sorted;
    }
  }
}
