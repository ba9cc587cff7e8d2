/** Adding up index use over snapshots while servers restart (indexStats.js). */
module IndexStats {
  import opened Collections

  /** One record of $indexStats: accesses since the counter was last reset. */
  datatype Reading = Reading(host: int, key: int, since: nat, ops: nat)

  datatype Base = Base(since: nat, ops: nat, presentInLastSnapshot: bool)

  datatype Entry = Entry(ops: nat, servers: set<int>)

  type Baseline = map<(int, int), Base>

  /** getUTCSeconds, of a time in milliseconds. */
  function UtcSeconds(t: nat): nat {
    t / 1000 % 60
  }

  // ---- what one snapshot adds ----

  predicate Comparable(b: Baseline, r: Reading) {
    && (r.host, r.key) in b
    && b[(r.host, r.key)].presentInLastSnapshot
    && UtcSeconds(r.since) == UtcSeconds(b[(r.host, r.key)].since)
    && r.ops >= b[(r.host, r.key)].ops
  }

  function Counted(b: Baseline, r: Reading): nat {
    if Comparable(b, r) then r.ops - b[(r.host, r.key)].ops else 0
  }

  /** The readings of one index that can be compared add up. */
  function Added(b: Baseline, stats: seq<Reading>, key: int): nat {
    if stats == [] then 0
    else
      var n := |stats| - 1;
      Added(b, stats[..n], key) + if stats[n].key == key then Counted(b, stats[n]) else 0
  }

  function AddedServers(b: Baseline, stats: seq<Reading>, key: int): set<int> {
    set r | r in stats && r.key == key && Comparable(b, r) :: r.host
  }

  /** The servers counted are those whose reading can be compared with the last one. */
  lemma ServersExactly(b: Baseline, stats: seq<Reading>, key: int, host: int)
    ensures host in AddedServers(b, stats, key) <==>
      && (host, key) in b && b[(host, key)].presentInLastSnapshot
      && exists i: nat :: i < |stats| && stats[i].host == host && stats[i].key == key
           && stats[i].since / 1000 % 60 == b[(host, key)].since / 1000 % 60 && stats[i].ops >= b[(host, key)].ops
  {
    if i: nat :| i < |stats| && stats[i].host == host && stats[i].key == key && Comparable(b, stats[i]) {
      assert stats[i] in stats;
    }
  }

  function Forgotten(b: Baseline): (f: Baseline) {
    map p | p in b :: b[p].(presentInLastSnapshot := false)
  }

  function Recorded(b: Baseline, stats: seq<Reading>): Baseline {
    if stats == [] then b
    else
      var n := |stats| - 1;
      Recorded(b, stats[..n])[(stats[n].host, stats[n].key) := Base(stats[n].since, stats[n].ops, true)]
  }

  // ---- over all snapshots ----

  function BaselineAfter(taken: seq<seq<Reading>>): Baseline {
    if taken == [] then map[]
    else Recorded(Forgotten(BaselineAfter(taken[..|taken| - 1])), taken[|taken| - 1])
  }

  function Cumulative(taken: seq<seq<Reading>>, key: int): nat {
    if taken == [] then 0
    else
      var n := |taken| - 1;
      Cumulative(taken[..n], key) + Added(BaselineAfter(taken[..n]), taken[n], key)
  }

  // ---- what happens on the servers ----

  /** A counter at the time of a snapshot: all accesses ever, how many of them before the last
      reset, and when that was. */
  datatype Counter = Counter(total: nat, atReset: nat, since: nat)

  type History = (nat, int, int) -> Counter

  /** Between two snapshots the counter grows, and may be reset. */
  predicate Grows(c: Counter, c': Counter) {
    && c.atReset <= c.total <= c'.total && c'.atReset <= c'.total
    && (!Reset(c, c') ==> c'.since == c.since)
    && (Reset(c, c') ==> c'.atReset >= c.total)
  }

  predicate Reset(c: Counter, c': Counter) {
    c'.atReset != c.atReset || c'.since != c.since
  }

  predicate HonestReading(c: Counter, r: Reading) {
    c.atReset <= c.total && r.ops == c.total - c.atReset && r.since == c.since
  }

  /** At most one record of a server and an index in a snapshot, and each is what the counter
      shows.  Any server may be missing. */
  predicate Honest(history: History, n: nat, stats: seq<Reading>) {
    && (forall i: nat :: i < |stats| ==> HonestReading(history(n, stats[i].host, stats[i].key), stats[i]))
    && (forall i: nat, j: nat :: i < j < |stats| ==> (stats[i].host, stats[i].key) != (stats[j].host, stats[j].key))
  }

  ghost predicate Happened(history: History, taken: seq<seq<Reading>>) {
    && (forall n: nat :: n < |taken| ==> Honest(history, n, taken[n]))
    && (forall n: nat, h: int, k: int :: n + 1 < |taken| ==> Grows(history(n, h, k), history(n + 1, h, k)))
  }

  // ---- one server's part ----

  function HostAdded(b: Baseline, stats: seq<Reading>, host: int, key: int): nat {
    if stats == [] then 0
    else
      var n := |stats| - 1;
      HostAdded(b, stats[..n], host, key) + if stats[n].key == key && stats[n].host == host then Counted(b, stats[n]) else 0
  }

  function HostCumulative(taken: seq<seq<Reading>>, host: int, key: int): nat {
    if taken == [] then 0
    else
      var n := |taken| - 1;
      HostCumulative(taken[..n], host, key) + HostAdded(BaselineAfter(taken[..n]), taken[n], host, key)
  }

  predicate Reads(stats: seq<Reading>, host: int, key: int) {
    exists i: nat :: i < |stats| && stats[i].host == host && stats[i].key == key
  }

  lemma {:induction false} NothingOf(b: Baseline, stats: seq<Reading>, host: int, key: int)
    requires !Reads(stats, host, key)
    ensures HostAdded(b, stats, host, key) == 0
  {
    if stats != [] {
      var n := |stats| - 1;
      ReadsSnoc(stats, host, key);
      NothingOf(b, stats[..n], host, key);
    }
  }

  lemma {:induction false} OneReading(history: History, m: nat, b: Baseline, stats: seq<Reading>, i: nat)
    requires Honest(history, m, stats) && i < |stats|
    ensures HostAdded(b, stats, stats[i].host, stats[i].key) == Counted(b, stats[i])
  {
    var n := |stats| - 1;
    if i < n {
      OneReading(history, m, b, stats[..n], i);
      assert (stats[i].host, stats[i].key) != (stats[n].host, stats[n].key);
    } else {
      forall j: nat | j < n ensures stats[..n][j].host != stats[n].host || stats[..n][j].key != stats[n].key {
        assert (stats[j].host, stats[j].key) != (stats[n].host, stats[n].key);
      }
      NothingOf(b, stats[..n], stats[n].host, stats[n].key);
    }
  }

  /** The baseline holds, marked present, exactly the last snapshot's readings. */
  lemma {:induction false} RecordedHolds(b: Baseline, stats: seq<Reading>, host: int, key: int)
    requires (host, key) in b ==> !b[(host, key)].presentInLastSnapshot
    ensures var r := Recorded(b, stats);
            ((host, key) in r && r[(host, key)].presentInLastSnapshot) <==> Reads(stats, host, key)
    ensures var r := Recorded(b, stats);
            (host, key) in r && r[(host, key)].presentInLastSnapshot ==>
              exists i: nat :: i < |stats| && stats[i] == Reading(host, key, r[(host, key)].since, r[(host, key)].ops)
  {
    if stats != [] {
      var n := |stats| - 1;
      RecordedHolds(b, stats[..n], host, key);
      ReadsSnoc(stats, host, key);
      if stats[n].host != host || stats[n].key != key {
        var r := Recorded(b, stats[..n]);
        if (host, key) in r && r[(host, key)].presentInLastSnapshot {
          var i: nat :| i < n && stats[..n][i] == Reading(host, key, r[(host, key)].since, r[(host, key)].ops);
          assert stats[i] == stats[..n][i];
        }
      } else {
        assert stats[n] == Reading(host, key, stats[n].since, stats[n].ops);
      }
    }
  }

  lemma ReadsSnoc(stats: seq<Reading>, host: int, key: int)
    requires stats != []
    ensures var n := |stats| - 1;
            Reads(stats, host, key) <==> Reads(stats[..n], host, key) || (stats[n].host == host && stats[n].key == key)
  {
    var n := |stats| - 1;
    if Reads(stats[..n], host, key) {
      var i: nat :| i < n && stats[..n][i].host == host && stats[..n][i].key == key;
      assert stats[i].host == host && stats[i].key == key;
    }
  }

  // ---- one interval between snapshots ----

  /** What the baseline says is present is the counter as it was at the last snapshot. */
  lemma BaselineIsHonest(history: History, taken: seq<seq<Reading>>, host: int, key: int)
    requires Happened(history, taken)
    ensures var b := BaselineAfter(taken);
            (host, key) in b && b[(host, key)].presentInLastSnapshot ==>
              taken != [] &&
              HonestReading(history(|taken| - 1, host, key), Reading(host, key, b[(host, key)].since, b[(host, key)].ops))
    ensures taken != [] ==>
      (Reads(taken[|taken| - 1], host, key) <==>
       (host, key) in BaselineAfter(taken) && BaselineAfter(taken)[(host, key)].presentInLastSnapshot)
  {
    if taken != [] {
      var n := |taken| - 1;
      RecordedHolds(Forgotten(BaselineAfter(taken[..n])), taken[n], host, key);
      assert Honest(history, n, taken[n]);
    }
  }

  lemma HappenedBefore(history: History, taken: seq<seq<Reading>>, n: nat)
    requires Happened(history, taken) && n <= |taken|
    ensures Happened(history, taken[..n])
  {
  }

  lemma ComparableBound(b: Base, c: Counter, c': Counter, r: Reading)
    requires Grows(c, c') && HonestReading(c', r) && b.since == c.since && b.ops == c.total - c.atReset
    requires r.ops >= b.ops
    ensures r.ops - b.ops <= c'.total - c.total
    ensures !Reset(c, c') ==> r.ops - b.ops == c'.total - c.total
  {
  }

  /** However the seconds of a reset fall, an interval counts no access that did not happen in
      it; without a reset, and with the server reached at both ends, it counts all of them. */
  lemma IntervalBound(history: History, taken: seq<seq<Reading>>, n: nat, host: int, key: int)
    requires Happened(history, taken) && 0 < n < |taken|
    ensures var added := HostAdded(BaselineAfter(taken[..n]), taken[n], host, key);
            var c, c' := history(n - 1, host, key), history(n, host, key);
            && added <= c'.total - c.total
            && (!Reset(c, c') && Reads(taken[n - 1], host, key) && Reads(taken[n], host, key) ==>
                added == c'.total - c.total)
  {
    var b := BaselineAfter(taken[..n]);
    assert Grows(history(n - 1, host, key), history(n - 1 + 1, host, key));
    assert Honest(history, n, taken[n]);
    HappenedBefore(history, taken, n);
    BaselineIsHonest(history, taken[..n], host, key);
    if i: nat :| i < |taken[n]| && taken[n][i].host == host && taken[n][i].key == key {
      OneReading(history, n, b, taken[n], i);
      if (host, key) in b && b[(host, key)].presentInLastSnapshot && taken[n][i].ops >= b[(host, key)].ops {
        ComparableBound(b[(host, key)], history(n - 1, host, key), history(n, host, key), taken[n][i]);
      }
    } else {
      NothingOf(b, taken[n], host, key);
    }
  }

  lemma FirstInterval(taken: seq<seq<Reading>>, host: int, key: int)
    requires taken != []
    ensures HostAdded(BaselineAfter(taken[..0]), taken[0], host, key) == 0
  {
    NoBaseline(taken[0], host, key);
  }

  lemma {:induction false} NoBaseline(stats: seq<Reading>, host: int, key: int)
    ensures HostAdded(map[], stats, host, key) == 0
  {
    if stats != [] { NoBaseline(stats[..|stats| - 1], host, key); }
  }

  lemma OneReadingEach(history: History, n: nat, stats: seq<Reading>, i: nat, k: nat)
    requires Honest(history, n, stats) && i < |stats| && k < |stats|
    requires (stats[i].host, stats[i].key) == (stats[k].host, stats[k].key)
    ensures i == k
  {
  }

  /** What an interval counts, in terms of the two readings: nothing without both, or if the
      seconds of their times differ, or if the counter has gone down. */
  lemma IntervalExactly(history: History, taken: seq<seq<Reading>>, n: nat, i: nat, j: nat)
    requires Happened(history, taken) && 0 < n < |taken| && i < |taken[n - 1]| && j < |taken[n]|
    requires taken[n - 1][i].host == taken[n][j].host && taken[n - 1][i].key == taken[n][j].key
    ensures var r0, r := taken[n - 1][i], taken[n][j];
            HostAdded(BaselineAfter(taken[..n]), taken[n], r.host, r.key) ==
            if r0.since / 1000 % 60 == r.since / 1000 % 60 && r.ops >= r0.ops then r.ops - r0.ops else 0
  {
    var b, r := BaselineAfter(taken[..n]), taken[n][j];
    assert Honest(history, n, taken[n]) && Honest(history, n - 1, taken[n - 1]);
    OneReading(history, n, b, taken[n], j);
    assert taken[..n][..n - 1] == taken[..n - 1] && taken[..n][n - 1] == taken[n - 1];
    RecordedHolds(Forgotten(BaselineAfter(taken[..n - 1])), taken[n - 1], r.host, r.key);
    assert taken[n - 1][i].host == r.host && taken[n - 1][i].key == r.key;
    var base := b[(r.host, r.key)];
    var k: nat :| k < |taken[n - 1]| && taken[n - 1][k] == Reading(r.host, r.key, base.since, base.ops);
    OneReadingEach(history, n - 1, taken[n - 1], i, k);
  }

  lemma IntervalNeedsBoth(history: History, taken: seq<seq<Reading>>, n: nat, host: int, key: int)
    requires Happened(history, taken) && n < |taken|
    requires n == 0 || !Reads(taken[n - 1], host, key) || !Reads(taken[n], host, key)
    ensures HostAdded(BaselineAfter(taken[..n]), taken[n], host, key) == 0
  {
    if n == 0 {
      FirstInterval(taken, host, key);
    } else if !Reads(taken[n], host, key) {
      NothingOf(BaselineAfter(taken[..n]), taken[n], host, key);
    } else {
      var j: nat :| j < |taken[n]| && taken[n][j].host == host && taken[n][j].key == key;
      assert Honest(history, n, taken[n]);
      OneReading(history, n, BaselineAfter(taken[..n]), taken[n], j);
      HappenedBefore(history, taken, n);
      BaselineIsHonest(history, taken[..n], host, key);
    }
  }

  // ---- from the first snapshot to the last ----

  /** Accesses between the first snapshot and the last. */
  function Growth(history: History, last: nat, host: int, key: int): int {
    history(last, host, key).total - history(0, host, key).total
  }

  /** The server answers every time and its counter is never reset. */
  ghost predicate Steady(history: History, taken: seq<seq<Reading>>, host: int, key: int) {
    && (forall n: nat :: n < |taken| ==> Reads(taken[n], host, key))
    && (forall n: nat :: n + 1 < |taken| ==> !Reset(history(n, host, key), history(n + 1, host, key)))
  }

  lemma {:induction false} HostNeverOverstates(history: History, taken: seq<seq<Reading>>, host: int, key: int)
    requires Happened(history, taken) && taken != []
    ensures HostCumulative(taken, host, key) <= Growth(history, |taken| - 1, host, key)
    ensures Steady(history, taken, host, key) ==>
      HostCumulative(taken, host, key) == Growth(history, |taken| - 1, host, key)
  {
    var n := |taken| - 1;
    if n == 0 {
      FirstInterval(taken, host, key);
      assert HostCumulative(taken[..0], host, key) == 0;
    } else {
      HappenedBefore(history, taken, n);
      HostNeverOverstates(history, taken[..n], host, key);
      IntervalBound(history, taken, n, host, key);
      if Steady(history, taken, host, key) {
        assert Steady(history, taken[..n], host, key);
        assert !Reset(history(n - 1, host, key), history(n - 1 + 1, host, key));
      }
    }
  }

  // ---- over all servers ----

  predicate Servers(hosts: seq<int>) {
    forall i: nat, j: nat :: i < j < |hosts| ==> hosts[i] != hosts[j]
  }

  predicate OnlyFrom(hosts: seq<int>, stats: seq<Reading>) {
    forall i: nat :: i < |stats| ==> stats[i].host in hosts
  }

  function HostParts(b: Baseline, stats: seq<Reading>, hosts: seq<int>, key: int): (s: seq<nat>)
    ensures |s| == |hosts|
  {
    seq(|hosts|, h requires 0 <= h < |hosts| => HostAdded(b, stats, hosts[h], key))
  }

  lemma {:induction false} SumOfNothing(s: seq<nat>)
    requires forall i: nat :: i < |s| ==> s[i] == 0
    ensures Sum(s) == 0
  {
    if s != [] { SumOfNothing(s[1..]); }
  }

  /** Adding up by reading or by server is the same. */
  lemma {:induction false} AddedByHost(b: Baseline, stats: seq<Reading>, hosts: seq<int>, key: int)
    requires Servers(hosts) && OnlyFrom(hosts, stats)
    ensures Added(b, stats, key) == Sum(HostParts(b, stats, hosts, key))
  {
    if stats == [] {
      SumOfNothing(HostParts(b, stats, hosts, key));
    } else {
      var n := |stats| - 1;
      AddedByHost(b, stats[..n], hosts, key);
      var h: nat :| h < |hosts| && hosts[h] == stats[n].host;
      var before, after := HostParts(b, stats[..n], hosts, key), HostParts(b, stats, hosts, key);
      var c := if stats[n].key == key then Counted(b, stats[n]) else 0;
      assert after == before[h := before[h] + c];
      SumUpdate(before, h, before[h] + c);
    }
  }

  function HostTotals(taken: seq<seq<Reading>>, hosts: seq<int>, key: int): (s: seq<nat>)
    ensures |s| == |hosts|
  {
    seq(|hosts|, h requires 0 <= h < |hosts| => HostCumulative(taken, hosts[h], key))
  }

  lemma {:induction false} SumOfSums(a: seq<nat>, b: seq<nat>, c: seq<nat>)
    requires |a| == |b| == |c| && forall i: nat :: i < |a| ==> c[i] == a[i] + b[i]
    ensures Sum(c) == Sum(a) + Sum(b)
  {
    if a != [] { SumOfSums(a[1..], b[1..], c[1..]); }
  }

  lemma {:induction false} CumulativeByHost(taken: seq<seq<Reading>>, hosts: seq<int>, key: int)
    requires Servers(hosts) && forall n: nat :: n < |taken| ==> OnlyFrom(hosts, taken[n])
    ensures Cumulative(taken, key) == Sum(HostTotals(taken, hosts, key))
  {
    if taken == [] {
      SumOfNothing(HostTotals(taken, hosts, key));
    } else {
      var n := |taken| - 1;
      CumulativeByHost(taken[..n], hosts, key);
      AddedByHost(BaselineAfter(taken[..n]), taken[n], hosts, key);
      SumOfSums(HostTotals(taken[..n], hosts, key), HostParts(BaselineAfter(taken[..n]), taken[n], hosts, key),
                HostTotals(taken, hosts, key));
    }
  }

  function Growths(history: History, last: nat, hosts: seq<int>, key: int): (s: seq<nat>)
    requires forall h: nat :: h < |hosts| ==> Growth(history, last, hosts[h], key) >= 0
    ensures |s| == |hosts|
  {
    seq(|hosts|, h requires 0 <= h < |hosts| => Growth(history, last, hosts[h], key))
  }

  lemma GrowthsFromZero(history: History, taken: seq<seq<Reading>>, hosts: seq<int>, key: int)
    requires Happened(history, taken) && taken != []
    ensures forall h: nat :: h < |hosts| ==> Growth(history, |taken| - 1, hosts[h], key) >= 0
  {
    forall h: nat | h < |hosts| ensures Growth(history, |taken| - 1, hosts[h], key) >= 0 {
      HostNeverOverstates(history, taken, hosts[h], key);
    }
  }

  /** Whatever servers are unreachable or restart, and whether or not a restart is noticed: an
      index is credited with no more accesses than it had on all servers between the first
      snapshot and the last. */
  lemma NeverOverstates(history: History, taken: seq<seq<Reading>>, hosts: seq<int>, key: int)
    requires Happened(history, taken) && taken != []
    requires Servers(hosts) && forall n: nat :: n < |taken| ==> OnlyFrom(hosts, taken[n])
    ensures forall h: nat :: h < |hosts| ==> Growth(history, |taken| - 1, hosts[h], key) >= 0
    ensures Cumulative(taken, key) <= Sum(Growths(history, |taken| - 1, hosts, key))
    ensures (forall h: nat :: h < |hosts| ==> Steady(history, taken, hosts[h], key)) ==>
      Cumulative(taken, key) == Sum(Growths(history, |taken| - 1, hosts, key))
  {
    GrowthsFromZero(history, taken, hosts, key);
    CumulativeByHost(taken, hosts, key);
    var counted, happened := HostTotals(taken, hosts, key), Growths(history, |taken| - 1, hosts, key);
    forall h: nat | h < |hosts|
      ensures counted[h] <= happened[h]
      ensures Steady(history, taken, hosts[h], key) ==> counted[h] == happened[h]
    {
      HostNeverOverstates(history, taken, hosts[h], key);
    }
    SumMonotone(counted, happened);
    if forall h: nat :: h < |hosts| ==> Steady(history, taken, hosts[h], key) {
      assert counted == happened;
    }
  }

  // ---- in terms of what the servers answer ----

  /** How many times each listed server's answer has the record. */
  function AnswerCounts(serverList: seq<int>, answers: map<int, seq<Reading>>, r: Reading): (s: seq<nat>)
    ensures |s| == |serverList|
  {
    seq(|serverList|, i requires 0 <= i < |serverList| =>
      if serverList[i] in answers then multiset(answers[serverList[i]])[r] else 0)
  }

  /** The records are those of all listed servers that answer, and no others. */
  ghost predicate Gathered(serverList: seq<int>, answers: map<int, seq<Reading>>, stats: seq<Reading>) {
    forall r: Reading :: multiset(stats)[r] == Sum(AnswerCounts(serverList, answers, r))
  }

  lemma {:induction false} RetrievedIsGathered(serverList: seq<int>, answers: map<int, seq<Reading>>)
    ensures Gathered(serverList, answers, Retrieved(serverList, answers))
  {
    var stats := Retrieved(serverList, answers);
    if serverList != [] {
      var n := |serverList| - 1;
      RetrievedIsGathered(serverList[..n], answers);
      forall r: Reading ensures multiset(stats)[r] == Sum(AnswerCounts(serverList, answers, r)) {
        var last: nat := if serverList[n] in answers then multiset(answers[serverList[n]])[r] else 0;
        assert multiset(Retrieved(serverList[..n], answers))[r] == Sum(AnswerCounts(serverList[..n], answers, r));
        assert AnswerCounts(serverList, answers, r) == AnswerCounts(serverList[..n], answers, r) + [last];
        SumSnoc(AnswerCounts(serverList[..n], answers, r), last);
      }
    }
  }

  /** A server's answer: its own records, one for each index, as its counters are. */
  predicate HonestAnswer(history: History, n: nat, host: int, answer: seq<Reading>) {
    && (forall i: nat :: i < |answer| ==>
          answer[i].host == host && HonestReading(history(n, host, answer[i].key), answer[i]))
    && (forall i: nat, j: nat :: i < j < |answer| ==> answer[i].key != answer[j].key)
  }

  predicate HonestAnswers(history: History, n: nat, serverList: seq<int>, answers: map<int, seq<Reading>>) {
    Servers(serverList) && forall h <- serverList :: h in answers ==> HonestAnswer(history, n, h, answers[h])
  }

  lemma {:induction false} RetrievedIsHonest(history: History, n: nat, serverList: seq<int>, answers: map<int, seq<Reading>>)
    requires HonestAnswers(history, n, serverList, answers)
    ensures Honest(history, n, Retrieved(serverList, answers)) && OnlyFrom(serverList, Retrieved(serverList, answers))
    ensures forall h <- serverList, k: int :: h in answers && Reads(answers[h], h, k) ==>
      Reads(Retrieved(serverList, answers), h, k)
  {
    if serverList != [] {
      var m := |serverList| - 1;
      RetrievedIsHonest(history, n, serverList[..m], answers);
      var before, last := Retrieved(serverList[..m], answers), serverList[m];
      var mine := if last in answers then answers[last] else [];
      assert last in answers ==> HonestAnswer(history, n, last, answers[last]);
      assert last !in serverList[..m];
      AppendHonest(history, n, before, mine, last);
      forall h, k: int | h in serverList && h in answers && Reads(answers[h], h, k)
        ensures Reads(before + mine, h, k)
      {
        ReadsConcat(before, mine, h, k);
      }
    }
  }

  lemma AppendHonest(history: History, n: nat, before: seq<Reading>, mine: seq<Reading>, host: int)
    requires Honest(history, n, before) && HonestAnswer(history, n, host, mine)
    requires forall i: nat :: i < |before| ==> before[i].host != host
    ensures Honest(history, n, before + mine)
  {
    var all := before + mine;
    forall i: nat, j: nat | i < j < |all| ensures (all[i].host, all[i].key) != (all[j].host, all[j].key) {
      if i < |before| <= j { assert mine[j - |before|].host == host; }
    }
  }

  lemma ReadsConcat(a: seq<Reading>, b: seq<Reading>, host: int, key: int)
    requires Reads(a, host, key) || Reads(b, host, key)
    ensures Reads(a + b, host, key)
  {
    if Reads(a, host, key) {
      var i: nat :| i < |a| && a[i].host == host && a[i].key == key;
      assert (a + b)[i] == a[i];
    } else {
      var i: nat :| i < |b| && b[i].host == host && b[i].key == key;
      assert (a + b)[|a| + i] == b[i];
    }
  }

  function Snapshots(hosts: seq<int>, answers: seq<map<int, seq<Reading>>>): (taken: seq<seq<Reading>>)
    ensures |taken| == |answers|
  {
    seq(|answers|, n requires 0 <= n < |answers| => Retrieved(hosts, answers[n]))
  }

  /** Every server answers each time with a record of the index, and no counter is ever reset. */
  ghost predicate AllAnswer(history: History, hosts: seq<int>, answers: seq<map<int, seq<Reading>>>, key: int) {
    && (forall n: nat, h: nat :: n < |answers| && h < |hosts| ==>
          hosts[h] in answers[n] && Reads(answers[n][hosts[h]], hosts[h], key))
    && (forall n: nat, h: nat :: n + 1 < |answers| && h < |hosts| ==>
          !Reset(history(n, hosts[h], key), history(n + 1, hosts[h], key)))
  }

  /** So the totals are at most the accesses on the servers listed, for any answers, and all of
      them if every server answers each time and none is reset. */
  lemma AllAreCounted(history: History, hosts: seq<int>, answers: seq<map<int, seq<Reading>>>, key: int)
    requires answers != [] && forall n: nat :: n < |answers| ==> HonestAnswers(history, n, hosts, answers[n])
    requires forall n: nat, h: int, k: int :: n + 1 < |answers| ==> Grows(history(n, h, k), history(n + 1, h, k))
    ensures forall h: nat :: h < |hosts| ==> Growth(history, |answers| - 1, hosts[h], key) >= 0
    ensures Cumulative(Snapshots(hosts, answers), key) <= Sum(Growths(history, |answers| - 1, hosts, key))
    ensures AllAnswer(history, hosts, answers, key) ==>
      Cumulative(Snapshots(hosts, answers), key) == Sum(Growths(history, |answers| - 1, hosts, key))
  {
    var taken := Snapshots(hosts, answers);
    assert HonestAnswers(history, 0, hosts, answers[0]);
    forall n: nat | n < |taken| ensures Honest(history, n, taken[n]) && OnlyFrom(hosts, taken[n]) {
      RetrievedIsHonest(history, n, hosts, answers[n]);
    }
    if AllAnswer(history, hosts, answers, key) {
      forall h: nat | h < |hosts| ensures Steady(history, taken, hosts[h], key) {
        forall n: nat | n < |taken| ensures Reads(taken[n], hosts[h], key) {
          RetrievedIsHonest(history, n, hosts, answers[n]);
        }
      }
    }
    NeverOverstates(history, taken, hosts, key);
  }

  // ---- the accumulator ----

  /** The difference map of one snapshot, as far as the first n readings. */
  ghost predicate DiffOf(b: Baseline, stats: seq<Reading>, diff: map<int, Entry>) {
    && (forall k :: k in diff <==> AddedServers(b, stats, k) != {})
    && (forall k :: Ops(diff, k) == Added(b, stats, k))
    && (forall k <- diff :: diff[k].servers == AddedServers(b, stats, k))
  }

  function Ops(m: map<int, Entry>, key: int): nat {
    if key in m then m[key].ops else 0
  }

  lemma ServersSnoc(b: Baseline, stats: seq<Reading>, n: nat, key: int)
    requires n < |stats|
    ensures AddedServers(b, stats[..n + 1], key) ==
      AddedServers(b, stats[..n], key) +
      if stats[n].key == key && Comparable(b, stats[n]) then {stats[n].host} else {}
    ensures Added(b, stats[..n + 1], key) ==
      Added(b, stats[..n], key) + if stats[n].key == key then Counted(b, stats[n]) else 0
  {
    assert stats[..n + 1][..n] == stats[..n];
    assert stats[..n + 1] == stats[..n] + [stats[n]];
  }

  lemma DiffSkips(b: Baseline, stats: seq<Reading>, n: nat, diff: map<int, Entry>)
    requires n < |stats| && DiffOf(b, stats[..n], diff) && !Comparable(b, stats[n])
    ensures DiffOf(b, stats[..n + 1], diff)
  {
    forall k ensures AddedServers(b, stats[..n + 1], k) == AddedServers(b, stats[..n], k)
             ensures Added(b, stats[..n + 1], k) == Added(b, stats[..n], k) {
      ServersSnoc(b, stats, n, k);
    }
  }

  lemma DiffBumps(b: Baseline, stats: seq<Reading>, n: nat, diff: map<int, Entry>)
    requires n < |stats| && DiffOf(b, stats[..n], diff) && Comparable(b, stats[n])
    ensures DiffOf(b, stats[..n + 1], Credited(diff, stats[n].key, Entry(Counted(b, stats[n]), {stats[n].host})))
  {
    var r := stats[n];
    var diff' := Credited(diff, r.key, Entry(Counted(b, r), {r.host}));
    forall k ensures k in diff' <==> AddedServers(b, stats[..n + 1], k) != {}
             ensures Ops(diff', k) == Added(b, stats[..n + 1], k)
             ensures k in diff' ==> diff'[k].servers == AddedServers(b, stats[..n + 1], k) {
      ServersSnoc(b, stats, n, k);
      assert r.key == k ==> r.host in AddedServers(b, stats[..n + 1], k);
      if k != r.key { assert AddedServers(b, stats[..n], k) == AddedServers(b, stats[..n + 1], k); }
    }
  }

  class IndexStatsAccumulator {
    var baseline: Baseline
    var statsLastDiff: map<int, Entry>
    var statsCumulative: map<int, Entry>
    /** The snapshots taken so far. */
    ghost var taken: seq<seq<Reading>>

    ghost predicate Valid()
      reads this
    {
      && baseline == BaselineAfter(taken)
      && forall k :: Ops(statsCumulative, k) == Cumulative(taken, k)
    }

    constructor ()
      ensures Valid() && taken == []
    {
      baseline, statsLastDiff, statsCumulative, taken := map[], map[], map[], [];
    }

    /** takeSnapshot: a server that does not answer adds nothing. */
    method TakeSnapshot(serverList: seq<int>, answers: map<int, seq<Reading>>) returns (ghost stats: seq<Reading>)
      requires Valid()
      modifies this
      ensures Valid() && taken == old(taken) + [stats] && stats == Retrieved(serverList, answers)
      ensures Gathered(serverList, answers, stats)
      ensures DiffOf(old(baseline), stats, statsLastDiff)
    {
      var statsArray: seq<Reading> := [];
      for jj := 0 to |serverList|
        invariant unchanged(this) && statsArray == Retrieved(serverList[..jj], answers)
      {
        assert serverList[..jj + 1][..jj] == serverList[..jj];
        if serverList[jj] in answers {
          statsArray := statsArray + answers[serverList[jj]];
        }
      }
      assert serverList[..|serverList|] == serverList;
      stats := statsArray;
      RetrievedIsGathered(serverList, answers);
      BuildLastDiff(statsArray);
      UpdateCumulativeStats();
      UpdateBaseline(statsArray);
      taken := taken + [stats];
      assert taken[..|taken| - 1] == old(taken);
    }

    method BuildLastDiff(statsArr: seq<Reading>)
      modifies this`statsLastDiff
      ensures DiffOf(baseline, statsArr, statsLastDiff)
    {
      var diffMap: map<int, Entry> := map[];
      for jj := 0 to |statsArr|
        invariant DiffOf(baseline, statsArr[..jj], diffMap)
      {
        var statsRecord := statsArr[jj];
        var p := (statsRecord.host, statsRecord.key);
        if p in baseline && baseline[p].presentInLastSnapshot
           && UtcSeconds(statsRecord.since) == UtcSeconds(baseline[p].since) && statsRecord.ops >= baseline[p].ops {
          DiffBumps(baseline, statsArr, jj, diffMap);
          var ops := statsRecord.ops - baseline[p].ops;
          diffMap := Credited(diffMap, statsRecord.key, Entry(ops, {statsRecord.host}));
        } else {
          DiffSkips(baseline, statsArr, jj, diffMap);
        }
      }
      assert statsArr[..|statsArr|] == statsArr;
      statsLastDiff := diffMap;
    }

    method UpdateBaseline(statsArr: seq<Reading>)
      modifies this`baseline
      ensures baseline == Recorded(Forgotten(old(baseline)), statsArr)
    {
      baseline := map p | p in baseline :: baseline[p].(presentInLastSnapshot := false);
      for jj := 0 to |statsArr|
        invariant baseline == Recorded(Forgotten(old(baseline)), statsArr[..jj])
      {
        assert statsArr[..jj + 1][..jj] == statsArr[..jj];
        var newEntry := statsArr[jj];
        baseline := baseline[(newEntry.host, newEntry.key) := Base(newEntry.since, newEntry.ops, true)];
      }
      assert statsArr[..|statsArr|] == statsArr;
    }

    /** Whatever order the difference map is listed in. */
    method UpdateCumulativeStats()
      modifies this`statsCumulative
      ensures forall k :: Ops(statsCumulative, k) == Ops(old(statsCumulative), k) + Ops(statsLastDiff, k)
      ensures forall k :: Hosts(statsCumulative, k) == Hosts(old(statsCumulative), k) + Hosts(statsLastDiff, k)
    {
      var todo := statsLastDiff.Keys;
      ghost var was := statsCumulative;
      while |todo| != 0
        invariant todo <= statsLastDiff.Keys
        invariant AddedUp(was, statsLastDiff, todo, statsCumulative)
        decreases |todo|
      {
        ghost var one := AnElement(todo);
        var key: int :| key in todo;
        AddUp(was, statsLastDiff, todo, statsCumulative, key);
        statsCumulative := Credited(statsCumulative, key, statsLastDiff[key]);
        todo := todo - {key};
      }
      AllAdded(was, statsLastDiff, todo, statsCumulative);
    }
  }

  function Hosts(m: map<int, Entry>, key: int): set<int> {
    if key in m then m[key].servers else {}
  }

  /** Everything but the indexes still to do has been added. */
  ghost predicate AddedUp(was: map<int, Entry>, diff: map<int, Entry>, todo: set<int>, now: map<int, Entry>) {
    && (forall k :: Ops(now, k) == Ops(was, k) + (if k in todo then 0 else Ops(diff, k)))
    && (forall k :: Hosts(now, k) == Hosts(was, k) + (if k in todo then {} else Hosts(diff, k)))
  }

  lemma AddUp(was: map<int, Entry>, diff: map<int, Entry>, todo: set<int>, now: map<int, Entry>, key: int)
    requires AddedUp(was, diff, todo, now) && todo <= diff.Keys && key in todo
    ensures AddedUp(was, diff, todo - {key}, Credited(now, key, diff[key]))
  {
  }

  lemma AllAdded(was: map<int, Entry>, diff: map<int, Entry>, todo: set<int>, now: map<int, Entry>)
    requires AddedUp(was, diff, todo, now) && |todo| == 0
    ensures forall k :: Ops(now, k) == Ops(was, k) + Ops(diff, k)
    ensures forall k :: Hosts(now, k) == Hosts(was, k) + Hosts(diff, k)
  {
  }

  function Credited(m: map<int, Entry>, key: int, e: Entry): map<int, Entry> {
    var entry := if key in m then m[key] else Entry(0, {});
    m[key := Entry(entry.ops + e.ops, entry.servers + e.servers)]
  }

  function Retrieved(serverList: seq<int>, answers: map<int, seq<Reading>>): seq<Reading> {
    if serverList == [] then []
    else
      var n := |serverList| - 1;
      Retrieved(serverList[..n], answers) + if serverList[n] in answers then answers[serverList[n]] else []
  }
}
