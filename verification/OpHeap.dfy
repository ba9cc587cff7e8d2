/** Putting ops back in time order through a bounded heap (mongo_op_handler.go, handleOps;
    recorded_op.go, orderedOps). */
module OpHeap {
  import opened Collections
  import opened Framer

  datatype RecordedOp = RecordedOp(raw: Op, order: nat)

  function Stamps(ops: seq<RecordedOp>): (s: seq<int>)
    ensures |s| == |ops| && forall k: nat :: k < |ops| ==> s[k] == ops[k].raw.seen
  {
    seq(|ops|, k requires 0 <= k < |ops| => ops[k].raw.seen)
  }

  // ---- what a heap of capacity n emits, by arrival number ----

  /** How many ops have arrived when op number k is taken out: the heap is full before the
      stream ends, and is drained after. */
  function Arrived(seen: seq<int>, n: nat, k: nat): nat {
    if n + k < |seen| then n + k else |seen|
  }

  function Waiting(seen: seq<int>, n: nat, out: seq<nat>, k: nat): (w: set<nat>)
    requires k <= |out|
    ensures forall i: nat :: i in w <==> i < Arrived(seen, n, k) && i !in out[..k]
  {
    set i: nat | i < Arrived(seen, n, k) && i !in out[..k]
  }

  /** Emission number k is a least one of those waiting. */
  predicate TakesLeast(seen: seq<int>, n: nat, out: seq<nat>, k: nat)
    requires k < |out|
  {
    && out[k] in Waiting(seen, n, out, k)
    && forall i <- Waiting(seen, n, out, k) :: seen[out[k]] <= seen[i]
  }

  predicate Emits(seen: seq<int>, n: nat, out: seq<nat>) {
    |out| == |seen| && forall k: nat :: k < |out| ==> TakesLeast(seen, n, out, k)
  }

  predicate InOrder(seen: seq<int>, out: seq<nat>)
    requires forall k: nat :: k < |out| ==> out[k] < |seen|
  {
    forall j: nat, k: nat :: j < k < |out| ==> seen[out[j]] <= seen[out[k]]
  }

  /** The ops that arrive before op j and were seen after it. */
  function Overtaking(seen: seq<int>, j: nat): (s: set<nat>)
    requires j < |seen|
    ensures forall i: nat :: i in s <==> i < j && seen[i] > seen[j]
  {
    set i: nat | i < j && seen[i] > seen[j]
  }

  // ---- every op comes out once ----

  predicate Distinct(s: seq<nat>) {
    forall i: nat, j: nat :: i < j < |s| ==> s[i] != s[j]
  }

  lemma EmittedOnce(seen: seq<int>, n: nat, out: seq<nat>, i: nat)
    requires Emits(seen, n, out) && i < |seen|
    ensures forall k: nat :: k < |out| ==> out[k] < |seen|
    ensures Distinct(out) && i in out
  {
    forall j: nat, k: nat | j < k < |out| ensures out[j] != out[k] {
      assert TakesLeast(seen, n, out, k);
      assert out[..k][j] == out[j];
    }
    forall k: nat | k < |out| ensures out[k] < |seen| {
      assert TakesLeast(seen, n, out, k);
    }
    Pigeonhole(out, |seen|, i);
  }

  /** Emission k leaves fewer than n of the ops that arrived before the next. */
  lemma WaitingSize(seen: seq<int>, n: nat, out: seq<nat>, k: nat)
    requires Emits(seen, n, out) && k < |out|
    ensures |Waiting(seen, n, out, k)| == Arrived(seen, n, k) - k
  {
    EmittedOnce(seen, n, out, 0);
    var gone := Elements(out[..k]);
    DistinctSize(out[..k]);
    assert forall i: nat :: i in gone ==> i < Arrived(seen, n, k) by {
      forall j: nat | j < k ensures out[j] < Arrived(seen, n, k) { assert TakesLeast(seen, n, out, j); }
    }
    SplitSize(Below(Arrived(seen, n, k)), gone, Waiting(seen, n, out, k));
  }

  lemma SplitSize(all: set<nat>, gone: set<nat>, left: set<nat>)
    requires forall i: nat :: i in gone ==> i in all
    requires forall i: nat :: i in left <==> i in all && i !in gone
    ensures |left| == |all| - |gone|
  {
    assert all == gone + left;
  }

  // ---- when it sorts ----

  lemma WaitingInFull(seen: seq<int>, n: nat, out: seq<nat>, k: nat)
    requires Emits(seen, n, out) && k + 1 < |out| && out[k + 1] < |seen| && out[k] < |seen|
    requires seen[out[k]] > seen[out[k + 1]]
    ensures out[k + 1] == n + k
    ensures forall i: nat :: i in Waiting(seen, n, out, k) ==> i in Overtaking(seen, out[k + 1])
  {
    assert TakesLeast(seen, n, out, k) && TakesLeast(seen, n, out, k + 1);
    assert out[..k + 1] == out[..k] + [out[k]];
  }

  /** Two neighbours out of order: the later one found n ops ahead of it, all seen later. */
  lemma OutOfOrderIsOvertaken(seen: seq<int>, n: nat, out: seq<nat>, k: nat)
    requires Emits(seen, n, out) && k + 1 < |out| && out[k + 1] < |seen| && out[k] < |seen|
    requires seen[out[k]] > seen[out[k + 1]]
    ensures |Overtaking(seen, out[k + 1])| >= n
  {
    WaitingInFull(seen, n, out, k);
    WaitingSize(seen, n, out, k);
    SubsetSize(Waiting(seen, n, out, k), Overtaking(seen, out[k + 1]));
  }

  lemma {:induction false} NeighboursSuffice(seen: seq<int>, out: seq<nat>, j: nat, k: nat)
    requires forall i: nat :: i < |out| ==> out[i] < |seen|
    requires forall i: nat :: i + 1 < |out| ==> seen[out[i]] <= seen[out[i + 1]]
    requires j < k < |out|
    ensures seen[out[j]] <= seen[out[k]]
  {
    if j + 1 < k { NeighboursSuffice(seen, out, j, k - 1); }
    assert seen[out[k - 1]] <= seen[out[k - 1 + 1]];
  }

  lemma FewOvertakingSorts(seen: seq<int>, n: nat, out: seq<nat>)
    requires Emits(seen, n, out)
    requires forall j: nat :: j < |seen| ==> |Overtaking(seen, j)| < n
    ensures forall k: nat :: k < |out| ==> out[k] < |seen|
    ensures InOrder(seen, out)
  {
    if seen != [] {
      EmittedOnce(seen, n, out, 0);
      forall k: nat | k + 1 < |out| ensures seen[out[k]] <= seen[out[k + 1]] {
        if seen[out[k]] > seen[out[k + 1]] { OutOfOrderIsOvertaken(seen, n, out, k); }
      }
      forall j: nat, k: nat | j < k < |out| ensures seen[out[j]] <= seen[out[k]] {
        NeighboursSuffice(seen, out, j, k);
      }
    }
  }

  /** An op with n ops to overtake arrives when one of them has already gone. */
  lemma OneHasGone(seen: seq<int>, n: nat, out: seq<nat>, j: nat) returns (k: nat)
    requires n > 0 && Emits(seen, n, out) && j < |seen| && |Overtaking(seen, j)| >= n
    ensures n <= j && k <= j - n && out[k] in Overtaking(seen, j)
  {
    SubsetSize(Overtaking(seen, j), Below(j));
    var m := j - n;
    var left := Waiting(seen, n, out, m) - {out[m]};
    WaitingSize(seen, n, out, m);
    assert TakesLeast(seen, n, out, m);
    assert |left| == n - 1;
    if forall i: nat :: i in Overtaking(seen, j) ==> i in left {
      SubsetSize(Overtaking(seen, j), left);
      assert false;
    }
    var i: nat :| i in Overtaking(seen, j) && i !in left;
    if i in out[..m] {
      k :| k < m && out[..m][k] == i;
    } else {
      k := m;
    }
  }

  lemma ManyOvertakingUnsorts(seen: seq<int>, n: nat, out: seq<nat>, j: nat)
    requires n > 0 && Emits(seen, n, out) && j < |seen| && |Overtaking(seen, j)| >= n
    ensures forall k: nat :: k < |out| ==> out[k] < |seen|
    ensures !InOrder(seen, out)
  {
    EmittedOnce(seen, n, out, j);
    var k := OneHasGone(seen, n, out, j);
    var p: nat :| p < |out| && out[p] == j;
    NotBefore(seen, n, out, j, p);
    assert seen[out[k]] > seen[out[p]];
  }

  lemma NotBefore(seen: seq<int>, n: nat, out: seq<nat>, j: nat, p: nat)
    requires n > 0 && Emits(seen, n, out) && n <= j && p < |out| && out[p] == j
    ensures p > j - n
  {
    assert TakesLeast(seen, n, out, p);
  }

  /** Whatever the heap does with equal stamps, its output is in time order exactly when no op
      arrives behind n or more ops that were seen after it. */
  lemma SortsExactly(seen: seq<int>, n: nat, out: seq<nat>)
    requires n > 0 && Emits(seen, n, out)
    ensures forall k: nat :: k < |out| ==> out[k] < |seen|
    ensures (forall j: nat, k: nat :: j < k < |out| ==> seen[out[j]] <= seen[out[k]]) <==>
      forall j: nat :: j < |seen| ==> |Overtaking(seen, j)| < n
  {
    if j: nat :| j < |seen| && |Overtaking(seen, j)| >= n {
      ManyOvertakingUnsorts(seen, n, out, j);
    } else {
      FewOvertakingSorts(seen, n, out);
    }
  }

  /** In particular when any two ops that arrive at least n apart are in order already. */
  lemma FarApartInOrderSorts(seen: seq<int>, n: nat, out: seq<nat>)
    requires n > 0 && Emits(seen, n, out)
    requires forall i: nat, j: nat :: i + n <= j < |seen| ==> seen[i] <= seen[j]
    ensures forall k: nat :: k < |out| ==> out[k] < |seen|
    ensures forall j: nat, k: nat :: j < k < |out| ==> seen[out[j]] <= seen[out[k]]
  {
    forall j: nat | j < |seen| ensures |Overtaking(seen, j)| < n {
      var far := if j < n then 0 else j + 1 - n;
      var near := set i: nat | i < j && i !in Below(far);
      SplitSize(Below(j), Below(far), near);
      SubsetSize(Overtaking(seen, j), near);
    }
    FewOvertakingSorts(seen, n, out);
  }

  /** With all stamps different the heap has no choice. */
  lemma {:induction false} OneOutput(seen: seq<int>, n: nat, out: seq<nat>, other: seq<nat>, k: nat)
    requires Emits(seen, n, out) && Emits(seen, n, other) && k <= |seen|
    requires forall i: nat, j: nat :: i < j < |seen| ==> seen[i] != seen[j]
    ensures out[..k] == other[..k]
  {
    if k > 0 {
      OneOutput(seen, n, out, other, k - 1);
      assert TakesLeast(seen, n, out, k - 1) && TakesLeast(seen, n, other, k - 1);
      assert Waiting(seen, n, out, k - 1) == Waiting(seen, n, other, k - 1);
      assert out[..k] == out[..k - 1] + [out[k - 1]] && other[..k] == other[..k - 1] + [other[k - 1]];
    }
  }

  // ---- the loop, step by step ----

  /** Items and their arrival numbers. */
  predicate Held(ops: seq<RecordedOp>, items: seq<RecordedOp>, arrival: seq<nat>) {
    |items| == |arrival| && forall a: nat :: a < |arrival| ==> arrival[a] < |ops| && items[a] == ops[arrival[a]]
  }

  /** Of the first n arrivals, those that are not out. */
  ghost predicate Remain(arrival: seq<nat>, n: nat, out: seq<nat>) {
    && Distinct(arrival) && (forall i: nat :: i in arrival <==> i < n && i !in out)
    && (forall i <- out :: i < n)
  }

  lemma SwapKeeps(ops: seq<RecordedOp>, items: seq<RecordedOp>, arrival: seq<nat>, n: nat, out: seq<nat>,
                  i: nat, j: nat)
    requires Held(ops, items, arrival) && Remain(arrival, n, out) && i < |items| && j < |items|
    ensures Held(ops, items[i := items[j]][j := items[i]], arrival[i := arrival[j]][j := arrival[i]])
    ensures Remain(arrival[i := arrival[j]][j := arrival[i]], n, out)
  {
    var swapped := arrival[i := arrival[j]][j := arrival[i]];
    forall x: nat ensures x in swapped <==> x in arrival {
      if a: nat :| a < |arrival| && arrival[a] == x {
        assert swapped[if a == i then j else if a == j then i else a] == x;
      }
    }
  }

  lemma PushKeeps(arrival: seq<nat>, n: nat, out: seq<nat>)
    requires Remain(arrival, n, out)
    ensures Remain(arrival + [n], n + 1, out)
  {
    forall k: nat | k < |arrival| ensures arrival[k] != n { assert arrival[k] in arrival; }
  }

  lemma LastLeaves(arrival: seq<nat>, n: nat, out: seq<nat>)
    requires Remain(arrival, n, out) && arrival != []
    ensures Remain(arrival[..|arrival| - 1], n, out + [arrival[|arrival| - 1]])
  {
    var rest, last := arrival[..|arrival| - 1], arrival[|arrival| - 1];
    assert last in arrival && arrival == rest + [last];
    forall i: nat ensures i in rest <==> i < n && i !in out + [last] {
      if i in rest { assert i in arrival && i != last; }
      if i in arrival && i != last { assert i in rest; }
    }
  }

  /** Emissions so far each took a least one. */
  predicate EmitsSoFar(seen: seq<int>, n: nat, out: seq<nat>) {
    forall k: nat :: k < |out| ==> TakesLeast(seen, n, out, k)
  }

  lemma EmitsOneMore(ops: seq<RecordedOp>, n: nat, arrived: nat, arrival: seq<nat>, out: seq<nat>, number: nat)
    requires EmitsSoFar(Stamps(ops), n, out) && Remain(arrival, arrived, out)
    requires arrived == Arrived(Stamps(ops), n, |out|) && number in arrival
    requires forall i: nat :: i in arrival ==> i < |ops| && ops[number].raw.seen <= ops[i].raw.seen
    ensures EmitsSoFar(Stamps(ops), n, out + [number])
  {
    var seen, longer := Stamps(ops), out + [number];
    forall k: nat | k < |longer| ensures TakesLeast(seen, n, longer, k) {
      if k < |out| {
        assert TakesLeast(seen, n, out, k);
        assert longer[..k] == out[..k];
      } else {
        assert longer[..k] == out;
      }
    }
  }

  // ---- the heap and the loop that uses it ----

  class OrderedOps {
    var items: seq<RecordedOp>
    const capacity: nat
    /** The arrival number of each item. */
    ghost var arrival: seq<nat>

    constructor (heapBufSize: nat)
      ensures items == [] && arrival == [] && capacity == heapBufSize
    {
      items, arrival, capacity := [], [], heapBufSize;
    }

    predicate Less(i: nat, j: nat)
      requires i < |items| && j < |items|
      reads this
    {
      items[i].raw.seen < items[j].raw.seen
    }

    method Swap(i: nat, j: nat)
      requires i < |items| == |arrival| && j < |items|
      modifies this
      ensures items == old(items)[i := old(items)[j]][j := old(items)[i]]
      ensures arrival == old(arrival)[i := old(arrival)[j]][j := old(arrival)[i]]
    {
      items := items[i := items[j]][j := items[i]];
      arrival := arrival[i := arrival[j]][j := arrival[i]];
    }

    method Push(op: RecordedOp, ghost number: nat)
      modifies this
      ensures items == old(items) + [op] && arrival == old(arrival) + [number]
    {
      items, arrival := items + [op], arrival + [number];
    }

    method Pop() returns (op: RecordedOp)
      requires 0 < |items| == |arrival|
      modifies this
      ensures op == old(items)[|old(items)| - 1] && items == old(items)[..|old(items)| - 1]
      ensures arrival == old(arrival)[..|old(items)| - 1]
    {
      var i := |items| - 1;
      op := items[i];
      items, arrival := items[..i], arrival[..i];
    }

    /** The heap holds, each once, the ops among the first n that are not yet out. */
    ghost predicate Holds(ops: seq<RecordedOp>, n: nat, out: seq<nat>)
      reads this
    {
      Held(ops, items, arrival) && Remain(arrival, n, out) && n <= |ops|
    }

    /** No item is less than item i. */
    predicate Least(i: nat)
      requires i < |items|
      reads this
    {
      forall j: nat | j < |items| :: !Less(j, i)
    }

    lemma {:induction false} LeastExists(n: nat) returns (i: nat)
      requires 0 < n <= |items|
      ensures i < n && forall j: nat :: j < n ==> items[i].raw.seen <= items[j].raw.seen
    {
      if n == 1 {
        i := 0;
      } else {
        i := LeastExists(n - 1);
        if Less(n - 1, i) { i := n - 1; }
      }
    }

    lemma LeastIsThere()
      requires items != []
      ensures exists i: nat :: i < |items| && Least(i)
    {
      var i := LeastExists(|items|);
      assert Least(i);
    }

    lemma LeastMeans(i: nat)
      requires i < |items| && Least(i)
      ensures forall j: nat :: j < |items| ==> items[i].raw.seen <= items[j].raw.seen
    {
      forall j: nat | j < |items| ensures items[i].raw.seen <= items[j].raw.seen {
        assert !Less(j, i);
      }
    }

    /** heap.Pop: an item that no other is less than goes to the end and is taken off.  How the
        library arranges the others does not matter. */
    method HeapPop(ghost ops: seq<RecordedOp>, ghost n: nat, ghost out: seq<nat>)
      returns (op: RecordedOp, ghost number: nat)
      requires Holds(ops, n, out) && items != []
      modifies this
      ensures number in old(arrival) && op == ops[number]
      ensures forall i: nat :: i in old(arrival) ==> ops[number].raw.seen <= ops[i].raw.seen
      ensures Holds(ops, n, out + [number]) && |items| == |old(items)| - 1
    {
      LeastIsThere();
      var i: nat :| i < |items| && Least(i);
      LeastMeans(i);
      number := arrival[i];
      SwapKeeps(ops, items, arrival, n, out, i, |items| - 1);
      Swap(i, |items| - 1);
      LastLeaves(arrival, n, out);
      op := Pop();
    }
  }

  /** handleOps: what it sends, with the arrival number of each. */
  method HandleOps(unorderedOps: seq<RecordedOp>, opHeap: OrderedOps)
    returns (ops: seq<RecordedOp>, ghost out: seq<nat>)
    requires opHeap.items == [] && opHeap.arrival == [] && opHeap.capacity > 0
    modifies opHeap
    ensures opHeap.items == []
    ensures Emits(Stamps(unorderedOps), opHeap.capacity, out) && |ops| == |out|
    ensures forall k: nat :: k < |out| ==> out[k] < |unorderedOps|
    ensures forall k: nat :: k < |out| ==> ops[k] == unorderedOps[out[k]].(order := k + 1)
  {
    var counter := 0;
    ops, out := [], [];
    for n := 0 to |unorderedOps|
      invariant opHeap.Holds(unorderedOps, n, out) && counter == |ops| && |opHeap.items| < opHeap.capacity
      invariant |opHeap.items| + counter == n && (counter == 0 || |opHeap.items| == opHeap.capacity - 1)
      invariant Sent(unorderedOps, opHeap.capacity, ops, out)
    {
      PushKeeps(opHeap.arrival, n, out);
      opHeap.Push(unorderedOps[n], n);
      if |opHeap.items| == opHeap.capacity {
        counter := counter + 1;
        ops, out := SendNext(unorderedOps, opHeap, n + 1, ops, out, counter);
      }
    }
    while |opHeap.items| > 0
      invariant opHeap.Holds(unorderedOps, |unorderedOps|, out) && counter == |ops|
      invariant |opHeap.items| + counter == |unorderedOps| && |opHeap.items| < opHeap.capacity
      invariant Sent(unorderedOps, opHeap.capacity, ops, out)
    {
      counter := counter + 1;
      ops, out := SendNext(unorderedOps, opHeap, |unorderedOps|, ops, out, counter);
    }
  }

  /** What has been sent: the emissions, numbered from one. */
  ghost predicate Sent(unorderedOps: seq<RecordedOp>, n: nat, ops: seq<RecordedOp>, out: seq<nat>) {
    && EmitsSoFar(Stamps(unorderedOps), n, out) && |ops| == |out|
    && forall k: nat :: k < |out| ==> out[k] < |unorderedOps| && ops[k] == unorderedOps[out[k]].(order := k + 1)
  }

  method SendNext(unorderedOps: seq<RecordedOp>, opHeap: OrderedOps, ghost n: nat, ops: seq<RecordedOp>,
                  ghost out: seq<nat>, counter: nat) returns (ops': seq<RecordedOp>, ghost out': seq<nat>)
    requires opHeap.Holds(unorderedOps, n, out) && opHeap.items != []
    requires counter == |ops| + 1 && n == Arrived(Stamps(unorderedOps), opHeap.capacity, |out|)
    requires Sent(unorderedOps, opHeap.capacity, ops, out)
    modifies opHeap
    ensures opHeap.Holds(unorderedOps, n, out') && |opHeap.items| == |old(opHeap.items)| - 1
    ensures |ops'| == counter && Sent(unorderedOps, opHeap.capacity, ops', out')
  {
    ghost var before := opHeap.arrival;
    var nextOp, number := opHeap.HeapPop(unorderedOps, n, out);
    ops', out' := ops + [nextOp.(order := counter)], out + [number];
    EmitsOneMore(unorderedOps, opHeap.capacity, n, before, out, number);
  }
}
