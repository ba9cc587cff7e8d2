/** Which recorded cursors playback will wait for (cursors.go). */
module Cursors {
  import opened Collections

  datatype OpKey = OpKey(driver: string, server: string, id: int)

  /** The key of a counter that a use created before any reply. */
  const NO_KEY: OpKey := OpKey("", "", 0)

  /** A recorded op, as far as cursors go.  `key` names the request, in the request itself
      and in its reply; `uses` is empty unless the op's cursors are rewritten. */
  datatype Op =
    | Request(conn: int, key: OpKey, rewrites: bool, uses: seq<int>)
    | Reply(conn: int, key: OpKey, cursor: int)
    | Eof(conn: int)
  {
    predicate IsUse(c: int) {
      Request? && rewrites && c in uses
    }

    predicate IsReplyOf(c: int) {
      Reply? && cursor == c
    }
  }

  datatype Counter = Counter(origin: OpKey, usesConn: seq<int>, replyConn: int, replySeen: bool, usesSeen: nat)

  type Counters = map<int, Counter>

  /** A cursor that playback waits for: `success` and `failed` are its two channels, true
      once closed. */
  datatype Info = Info(live: int, success: bool, failed: bool, usesLeft: int, replyConn: int)

  // ---- what the two tracking methods do to one counter ----

  function SeenCounter(m: Counters, c: int, conn: int): Counter {
    if c in m then m[c].(usesSeen := m[c].usesSeen + 1, usesConn := m[c].usesConn + [conn])
    else Counter(NO_KEY, [conn], 0, false, 1)
  }

  function RepliedCounter(m: Counters, c: int, conn: int, key: OpKey): Counter {
    if c in m then m[c].(replyConn := conn, replySeen := true)
    else Counter(key, [], conn, true, 0)
  }

  function TrackUses(m: Counters, uses: seq<int>, conn: int): Counters {
    if uses == [] then m
    else
      var m' := TrackUses(m, uses[..|uses| - 1], conn);
      var c := uses[|uses| - 1];
      if c == 0 then m' else m'[c := SeenCounter(m', c, conn)]
  }

  function TrackOp(m: Counters, op: Op): Counters {
    match op
    case Request(conn, _, rewrites, uses) => if rewrites then TrackUses(m, uses, conn) else m
    case Reply(conn, key, c) => if c == 0 then m else m[c := RepliedCounter(m, c, conn, key)]
    case Eof(_) => m
  }

  function CountersOf(ops: seq<Op>): Counters {
    if ops == [] then map[] else TrackOp(CountersOf(ops[..|ops| - 1]), ops[|ops| - 1])
  }

  // ---- what that adds up to ----

  function UsesIn(op: Op, c: int): nat {
    if op.Request? && op.rewrites then multiset(op.uses)[c] else 0
  }

  function UseCount(ops: seq<Op>, c: int): nat {
    if ops == [] then 0 else UseCount(ops[..|ops| - 1], c) + UsesIn(ops[|ops| - 1], c)
  }

  ghost predicate Replied(ops: seq<Op>, c: int) {
    exists op <- ops :: op.IsReplyOf(c)
  }

  /** The connection of the last reply that carries `c`. */
  function LastReplyConn(ops: seq<Op>, c: int): int {
    if ops == [] then 0
    else if ops[|ops| - 1].IsReplyOf(c) then ops[|ops| - 1].conn
    else LastReplyConn(ops[..|ops| - 1], c)
  }

  /** Reply r is the first to carry `c`. */
  predicate FirstReply(ops: seq<Op>, c: int, r: nat) {
    r < |ops| && ops[r].IsReplyOf(c) && forall i: nat :: i < r ==> !ops[i].IsReplyOf(c)
  }

  /** And no use of `c` comes before it. */
  predicate OpensWith(ops: seq<Op>, c: int, r: nat) {
    FirstReply(ops, c, r) && forall i: nat :: i < r ==> !ops[i].IsUse(c)
  }

  lemma {:induction false} TrackUsesSpec(m: Counters, uses: seq<int>, conn: int, c: int)
    requires c != 0
    ensures var m' := TrackUses(m, uses, conn);
            && (c in m' <==> c in m || c in uses)
            && (c in m' ==>
                  var k := if c in m then m[c] else Counter(NO_KEY, [], 0, false, 0);
                  m'[c].(usesConn := []) == k.(usesConn := [], usesSeen := k.usesSeen + multiset(uses)[c]))
  {
    if uses != [] {
      TrackUsesSpec(m, uses[..|uses| - 1], conn, c);
      assert uses == uses[..|uses| - 1] + [uses[|uses| - 1]];
    }
  }

  /** The counter of a cursor is exactly the cursor's uses, replies and last replying
      connection; its origin is the key of its first reply if that comes first. */
  lemma {:induction false} CountersSpec(ops: seq<Op>, c: int)
    requires c != 0
    ensures var m := CountersOf(ops);
            && (c in m <==> Replied(ops, c) || UseCount(ops, c) > 0)
            && (c in m ==>
                  && m[c].usesSeen == UseCount(ops, c)
                  && (m[c].replySeen <==> Replied(ops, c))
                  && m[c].replyConn == LastReplyConn(ops, c)
                  && forall r: nat :: OpensWith(ops, c, r) ==> m[c].origin == ops[r].key)
  {
    if ops != [] {
      var ops0, op := ops[..|ops| - 1], ops[|ops| - 1];
      assert ops == ops0 + [op];
      CountersSpec(ops0, c);
      if op.Request? { TrackUsesSpec(CountersOf(ops0), op.uses, op.conn, c); }
      RepliedSnoc(ops0, op, c);
      UseCountZero(ops0, c);
      NoReplyConn(ops0, c);
      assert forall r: nat :: r < |ops0| && OpensWith(ops, c, r) ==> OpensWith(ops0, c, r);
    }
  }

  /** Use u of `c` comes before every reply that carries it. */
  predicate UsedEarly(ops: seq<Op>, c: int, u: nat) {
    u < |ops| && ops[u].IsUse(c) && forall i: nat :: i < u ==> !ops[i].IsReplyOf(c)
  }

  /** The counter that a use creates never learns the key of the request. */
  lemma {:induction false} EarlyOrigin(ops: seq<Op>, c: int)
    requires c != 0 && c in CountersOf(ops)
    ensures !Replied(ops, c) || (exists u: nat :: UsedEarly(ops, c, u)) ==> CountersOf(ops)[c].origin == NO_KEY
  {
    var ops0, op := ops[..|ops| - 1], ops[|ops| - 1];
    assert ops == ops0 + [op];
    RepliedSnoc(ops0, op, c);
    if op.Request? { TrackUsesSpec(CountersOf(ops0), op.uses, op.conn, c); }
    if c in CountersOf(ops0) { EarlyOrigin(ops0, c); }
    if u: nat :| UsedEarly(ops, c, u) {
      if u < |ops0| {
        assert UsedEarly(ops0, c, u);
        UseCountZero(ops0, c);
        assert ops0[u] in ops0;
        CountersSpec(ops0, c);
      } else {
        NoneBefore(ops0, c);
      }
    }
  }

  lemma NoneBefore(ops: seq<Op>, c: int)
    requires forall i: nat :: i < |ops| ==> !ops[i].IsReplyOf(c)
    ensures !Replied(ops, c)
  {
  }

  lemma {:induction false} NoReplyConn(ops: seq<Op>, c: int)
    ensures !Replied(ops, c) ==> LastReplyConn(ops, c) == 0
  {
    if ops != [] {
      NoReplyConn(ops[..|ops| - 1], c);
      RepliedSnoc(ops[..|ops| - 1], ops[|ops| - 1], c);
      assert ops == ops[..|ops| - 1] + [ops[|ops| - 1]];
    }
  }

  lemma RepliedSnoc(ops: seq<Op>, op: Op, c: int)
    ensures Replied(ops + [op], c) <==> Replied(ops, c) || op.IsReplyOf(c)
  {
    if Replied(ops, c) {
      var o :| o in ops && o.IsReplyOf(c);
      assert o in ops + [op];
    }
    if op.IsReplyOf(c) { assert op in ops + [op]; }
  }

  lemma {:induction false} UseCountZero(ops: seq<Op>, c: int)
    ensures UseCount(ops, c) == 0 <==> forall op <- ops :: !op.IsUse(c)
  {
    if ops != [] {
      var ops0, op := ops[..|ops| - 1], ops[|ops| - 1];
      UseCountZero(ops0, c);
      assert ops == ops0 + [op];
      assert op.Request? ==> (c in op.uses <==> c in multiset(op.uses));
      assert (forall o <- ops :: !o.IsUse(c)) <==> (forall o <- ops0 :: !o.IsUse(c)) && !op.IsUse(c) by {
        assert op in ops;
        assert forall o <- ops :: o in ops0 || o == op;
        assert forall o <- ops0 :: o in ops;
      }
    }
  }

  // ---- the manager that playback starts with ----

  predicate Tracked(m: Counters, c: int) {
    c in m && c != 0 && m[c].replySeen && m[c].usesSeen > 0
  }

  function StartInfo(k: Counter): Info {
    Info(0, false, false, k.usesSeen, k.replyConn)
  }

  /** The cursors waited for and the request each belongs to.  Two cursors with one origin
      share an entry; which of them has it is left open, like the order of a Go map. */
  ghost predicate Preprocessed(ops: seq<Op>, infos: map<int, Info>, opToCursors: map<OpKey, int>) {
    KeptFrom(CountersOf(ops), {}, infos, opToCursors)
  }

  /** All tracked cursors but those in `left`. */
  ghost predicate KeptFrom(m: Counters, left: set<int>, infos: map<int, Info>, opToCursors: map<OpKey, int>) {
    && (forall c :: c in infos <==> Tracked(m, c) && c !in left)
    && (forall c <- infos :: c in m && infos[c] == StartInfo(m[c]) && m[c].origin in opToCursors)
    && (forall k <- opToCursors :: opToCursors[k] in infos && opToCursors[k] in m && m[opToCursors[k]].origin == k)
  }

  class CursorsSeenMap {
    var seen: Counters

    constructor ()
      ensures seen == map[]
    {
      seen := map[];
    }

    method TrackSeen(c: int, conn: int)
      modifies this
      ensures seen == old(seen)[c := SeenCounter(old(seen), c, conn)]
    {
      if c !in seen {
        seen := seen[c := Counter(NO_KEY, [conn], 0, false, 1)];
        return;
      }
      var val := seen[c];
      val := val.(usesSeen := val.usesSeen + 1);
      val := val.(usesConn := val.usesConn + [conn]);
      seen := seen[c := val];
    }

    method TrackReplied(c: int, conn: int, key: OpKey)
      modifies this
      ensures seen == old(seen)[c := RepliedCounter(old(seen), c, conn, key)]
    {
      if c !in seen {
        seen := seen[c := Counter(key, [], conn, true, 0)];
        return;
      }
      var val := seen[c];
      val := val.(replyConn := conn);
      val := val.(replySeen := true);
      seen := seen[c := val];
    }
  }

  // ---- the manager's operations on its maps ----

  function SetCursorIn(infos: map<int, Info>, present: set<int>, file: int, live: int): map<int, Info> {
    if file in present && file in infos && !infos[file].success then
      infos[file := infos[file].(live := live, success := true)]
    else infos
  }

  function MarkFailedIn(infos: map<int, Info>, present: set<int>, opToCursors: map<OpKey, int>, key: OpKey): map<int, Info> {
    if key in opToCursors && opToCursors[key] in present && opToCursors[key] in infos then
      infos[opToCursors[key] := infos[opToCursors[key]].(failed := true)]
    else infos
  }

  /** Closing a closed channel panics. */
  predicate FailsTwice(infos: map<int, Info>, present: set<int>, opToCursors: map<OpKey, int>, key: OpKey) {
    key in opToCursors && opToCursors[key] in present && opToCursors[key] in infos && infos[opToCursors[key]].failed
  }

  function UsedIn(infos: map<int, Info>, c: int): map<int, Info>
    requires c in infos
  {
    infos[c := infos[c].(usesLeft := infos[c].usesLeft - 1)]
  }

  function PresentAfterUse(infos: map<int, Info>, present: set<int>, c: int): set<int>
    requires c in infos
  {
    if infos[c].usesLeft - 1 <= 0 then present - {c} else present + {c}
  }

  /** `infos` keeps an entry that a waiting caller may still hold after it is deleted from
      cursorInfos; `present` is the map's key set. */
  class PreprocessCursorManager {
    var infos: map<int, Info>
    var present: set<int>
    var opToCursors: map<OpKey, int>

    ghost predicate Valid()
      reads this
    {
      present <= infos.Keys
    }

    /** newPreprocessCursorManager. */
    constructor (ops: seq<Op>)
      ensures Valid() && present == infos.Keys && Preprocessed(ops, infos, opToCursors)
    {
      infos := map[];
      present := {};
      opToCursors := map[];
      new;
      var cursorsSeen := new CursorsSeenMap();
      for n := 0 to |ops|
        invariant infos == map[] && present == {} && opToCursors == map[] && fresh(cursorsSeen)
        invariant cursorsSeen.seen == CountersOf(ops[..n])
      {
        var op := ops[n];
        assert ops[..n + 1][..n] == ops[..n];
        match op
        case Request(conn, _, rewrites, uses) =>
          if rewrites {
            ghost var m := cursorsSeen.seen;
            for k := 0 to |uses|
              invariant infos == map[] && present == {} && opToCursors == map[] && fresh(cursorsSeen)
              invariant cursorsSeen.seen == TrackUses(m, uses[..k], conn)
            {
              assert uses[..k + 1][..k] == uses[..k];
              if uses[k] != 0 { cursorsSeen.TrackSeen(uses[k], conn); }
            }
            assert uses[..|uses|] == uses;
          }
        case Reply(conn, key, c) =>
          if c != 0 { cursorsSeen.TrackReplied(c, conn, key); }
        case Eof(_) =>
      }
      assert ops[..|ops|] == ops;
      Keep(cursorsSeen.seen);
    }

    /** The loop over the counters that keeps the tracked ones. */
    method Keep(seen: Counters)
      requires infos == map[] && opToCursors == map[]
      modifies this
      ensures present == infos.Keys
      ensures KeptFrom(seen, {}, infos, opToCursors)
    {
      var left := seen.Keys;
      while |left| != 0
        invariant left <= seen.Keys
        invariant KeptFrom(seen, left, infos, opToCursors)
        decreases left
      {
        ghost var some := AnElement(left);
        var c: int :| c in left;
        left := left - {c};
        var counter := seen[c];
        if c != 0 && counter.replySeen && counter.usesSeen > 0 {
          infos := infos[c := Info(0, false, false, counter.usesSeen, counter.replyConn)];
          opToCursors := opToCursors[counter.origin := c];
        }
      }
      present := infos.Keys;
    }

    method MarkFailed(key: OpKey)
      requires Valid() && !FailsTwice(infos, present, opToCursors, key)
      modifies this
      ensures Valid() && present == old(present) && opToCursors == old(opToCursors)
      ensures infos == MarkFailedIn(old(infos), present, opToCursors, key)
    {
      if key in opToCursors {
        var c := opToCursors[key];
        if c in present {
          infos := infos[c := infos[c].(failed := true)];
        }
      }
    }

    method SetCursor(file: int, live: int)
      requires Valid()
      modifies this
      ensures Valid() && present == old(present) && opToCursors == old(opToCursors)
      ensures infos == SetCursorIn(old(infos), present, file, live)
    {
      if file in present {
        var info := infos[file];
        if !info.success {
          info := info.(live := live);
          info := info.(success := true);
          infos := infos[file := info];
        }
      }
    }

    /** GetCursor once successChan is closed: the locked section. */
    method UseCursor(file: int) returns (cursor: int)
      requires Valid() && file in infos && infos[file].success
      modifies this
      ensures Valid() && opToCursors == old(opToCursors)
      ensures cursor == old(infos[file].live) && infos == UsedIn(old(infos), file)
      ensures present == PresentAfterUse(old(infos), old(present), file)
      ensures file in present <==> old(infos[file].usesLeft) > 1
      ensures forall c :: c != file ==> (c in present <==> c in old(present))
    {
      infos := infos[file := infos[file].(usesLeft := infos[file].usesLeft - 1)];
      present := present + {file};
      cursor := infos[file].live;
      if infos[file].usesLeft <= 0 { present := present - {file}; }
    }
  }
}
