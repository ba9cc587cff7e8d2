/** Pairing live replies with recorded ones (execute.go). */
module Execution {
  import opened Cursors

  /** One half of a pair: absent, or a reply carrying a cursor. */
  datatype Half = Missing | Got(cursor: int)

  datatype Pair = Pair(wire: Half, file: Half) {
    predicate Full() { wire.Got? && file.Got? }
  }

  datatype Source = FromWire | FromFile

  datatype Pairing = Pairing(incomplete: map<OpKey, Pair>, complete: map<OpKey, Pair>)

  function Filled(p: Pair, source: Source, cursor: int): Pair {
    if source == FromWire then p.(wire := Got(cursor)) else p.(file := Got(cursor))
  }

  function PairSoFar(ps: Pairing, key: OpKey): Pair {
    if key in ps.incomplete then ps.incomplete[key] else Pair(Missing, Missing)
  }

  /** completeReply: a pair stays incomplete until its second half arrives. */
  function CompleteReply(ps: Pairing, key: OpKey, source: Source, cursor: int): Pairing {
    var p := Filled(PairSoFar(ps, key), source, cursor);
    if p.Full() then Pairing(ps.incomplete - {key}, ps.complete[key := p])
    else ps.(incomplete := ps.incomplete[key := p])
  }

  /** A reply without a cursor is not paired. */
  function AddReply(ps: Pairing, key: OpKey, source: Source, cursor: int): Pairing {
    if cursor == 0 then ps else CompleteReply(ps, key, source, cursor)
  }

  ghost predicate PairingOk(ps: Pairing) {
    && (forall k <- ps.incomplete :: !ps.incomplete[k].Full() && ps.incomplete[k] != Pair(Missing, Missing))
    && (forall k <- ps.incomplete :: Nonzero(ps.incomplete[k]))
    && (forall k <- ps.complete :: ps.complete[k].Full() && Nonzero(ps.complete[k]))
  }

  predicate Nonzero(p: Pair) {
    p.wire != Got(0) && p.file != Got(0)
  }

  lemma AddReplyOk(ps: Pairing, key: OpKey, source: Source, cursor: int)
    requires PairingOk(ps)
    ensures PairingOk(AddReply(ps, key, source, cursor))
  {
  }

  /** Whichever half arrives first, the pair comes out the same. */
  lemma PairsEitherWay(ps: Pairing, key: OpKey, wire: int, file: int)
    requires key !in ps.incomplete && wire != 0 && file != 0
    ensures var wireFirst := AddReply(AddReply(ps, key, FromWire, wire), key, FromFile, file);
            var fileFirst := AddReply(AddReply(ps, key, FromFile, file), key, FromWire, wire);
            wireFirst == fileFirst == Pairing(ps.incomplete, ps.complete[key := Pair(Got(wire), Got(file))])
  {
    assert ps.incomplete[key := Pair(Got(wire), Missing)] - {key} == ps.incomplete;
    assert ps.incomplete[key := Pair(Missing, Got(file))] - {key} == ps.incomplete;
  }

  /** SetCursor for the complete pairs, in the order the map hands them out. */
  function HandleAll(infos: map<int, Info>, present: set<int>, complete: map<OpKey, Pair>, order: seq<OpKey>): map<int, Info>
    requires forall i: nat :: i < |order| ==> order[i] in complete && complete[order[i]].Full()
  {
    if order == [] then infos
    else
      var k := order[|order| - 1];
      assert complete[k].Full();
      assert complete[k].wire.Got? && complete[k].file.Got?;
      SetCursorIn(HandleAll(infos, present, complete, order[..|order| - 1]), present,
                  complete[k].file.cursor, complete[k].wire.cursor)
  }

  /** An order that visits every complete pair. */
  ghost predicate Enumerates(order: seq<OpKey>, complete: map<OpKey, Pair>) {
    && (forall i: nat :: i < |order| ==> order[i] in complete)
    && (forall k <- complete :: k in order)
  }

  /** The live ids of those cursors that have one, in the order of the originals. */
  function Rewritten(ids: seq<int>, lookup: (nat, int) -> Half): seq<int> {
    if ids == [] then []
    else
      var n := |ids| - 1;
      Rewritten(ids[..n], lookup) + (if lookup(n, ids[n]).Got? then [lookup(n, ids[n]).cursor] else [])
  }

  predicate Increasing(p: seq<nat>) {
    forall i: nat, j: nat :: i < j < |p| ==> p[i] < p[j]
  }

  /** `found` holds, in order, the answers for exactly the places p, which are those with an
      answer. */
  ghost predicate FoundAt(ids: seq<int>, lookup: (nat, int) -> Half, p: seq<nat>, found: seq<int>) {
    && Increasing(p) && |found| == |p|
    && (forall k: nat :: k in p <==> k < |ids| && lookup(k, ids[k]).Got?)
    && (forall j: nat :: j < |p| ==> p[j] < |ids| && Got(found[j]) == lookup(p[j], ids[p[j]]))
  }

  lemma FoundNext(ids: seq<int>, lookup: (nat, int) -> Half, p: seq<nat>, found: seq<int>)
    requires ids != [] && FoundAt(ids[..|ids| - 1], lookup, p, found)
    ensures var n := |ids| - 1;
            var answer := lookup(n, ids[n]);
            if answer.Got? then FoundAt(ids, lookup, p + [n], found + [answer.cursor]) else FoundAt(ids, lookup, p, found)
  {
    var n := |ids| - 1;
    forall k: nat ensures k in p <==> k < n && lookup(k, ids[k]).Got? {
      if k < n { assert ids[..n][k] == ids[k]; }
    }
  }

  lemma {:induction false} RewrittenFound(ids: seq<int>, lookup: (nat, int) -> Half) returns (p: seq<nat>)
    ensures FoundAt(ids, lookup, p, Rewritten(ids, lookup))
  {
    if ids == [] {
      p := [];
    } else {
      var n := |ids| - 1;
      p := RewrittenFound(ids[..n], lookup);
      FoundNext(ids, lookup, p, Rewritten(ids[..n], lookup));
      if lookup(n, ids[n]).Got? { p := p + [n]; }
    }
  }

  lemma RewrittenNext(ids: seq<int>, lookup: (nat, int) -> Half, i: nat)
    requires i < |ids|
    ensures Rewritten(ids[..i + 1], lookup) ==
      Rewritten(ids[..i], lookup) + if lookup(i, ids[i]).Got? then [lookup(i, ids[i]).cursor] else []
  {
    assert ids[..i + 1][..i] == ids[..i];
  }

  /** rewriteCursors: the list is compacted in place while it is being read.  `lookup`
      stands for the answers of GetCursor, which each call may give differently. */
  method RewriteCursors(cursorIDs: array<int>, lookup: (nat, int) -> Half) returns (newCursors: seq<int>, ok: bool)
    modifies cursorIDs
    ensures newCursors == Rewritten(old(cursorIDs[..]), lookup)
    ensures exists p: seq<nat> :: FoundAt(old(cursorIDs[..]), lookup, p, newCursors)
    ensures ok <==> newCursors != []
  {
    ghost var ids := cursorIDs[..];
    var index := 0;
    for i := 0 to cursorIDs.Length
      invariant 0 <= index <= i
      invariant cursorIDs[i..] == ids[i..]
      invariant cursorIDs[..index] == Rewritten(ids[..i], lookup)
    {
      var cursorID := cursorIDs[i];
      assert cursorID == ids[i];
      RewrittenNext(ids, lookup, i);
      var live := lookup(i, cursorID);
      if live.Got? {
        cursorIDs[index] := live.cursor;
        index := index + 1;
        assert cursorIDs[..index] == cursorIDs[..index - 1] + [live.cursor];
      }
    }
    assert ids[..cursorIDs.Length] == ids;
    ghost var p := RewrittenFound(ids, lookup);
    newCursors := cursorIDs[..index];
    ok := |newCursors| != 0;
  }

  class ExecutionContext {
    var incompleteReplies: map<OpKey, Pair>
    var completeReplies: map<OpKey, Pair>
    const cursorIDMap: PreprocessCursorManager

    ghost function Replies(): Pairing
      reads this
    {
      Pairing(incompleteReplies, completeReplies)
    }

    ghost predicate Valid()
      reads this, cursorIDMap
    {
      PairingOk(Replies()) && cursorIDMap.Valid()
    }

    constructor (manager: PreprocessCursorManager)
      requires manager.Valid()
      ensures Valid() && cursorIDMap == manager && Replies() == Pairing(map[], map[])
    {
      incompleteReplies := map[];
      completeReplies := map[];
      cursorIDMap := manager;
    }

    method AddFromWire(cursor: int, key: OpKey)
      requires Valid()
      modifies this
      ensures Valid() && Replies() == AddReply(old(Replies()), key, FromWire, cursor)
    {
      if cursor == 0 { return; }
      AddReplyOk(Replies(), key, FromWire, cursor);
      CompleteOne(key, cursor, FromWire);
    }

    method AddFromFile(cursor: int, key: OpKey)
      requires Valid()
      modifies this
      ensures Valid() && Replies() == AddReply(old(Replies()), key, FromFile, cursor)
    {
      if cursor == 0 { return; }
      AddReplyOk(Replies(), key, FromFile, cursor);
      CompleteOne(key, cursor, FromFile);
    }

    /** completeReply. */
    method CompleteOne(key: OpKey, cursor: int, source: Source)
      modifies this
      ensures Replies() == CompleteReply(old(Replies()), key, source, cursor)
    {
      if key !in incompleteReplies {
        var rp := Pair(Missing, Missing);
        rp := if source == FromWire then rp.(wire := Got(cursor)) else rp.(file := Got(cursor));
        incompleteReplies := incompleteReplies[key := rp];
      } else {
        var rp := incompleteReplies[key];
        rp := if source == FromWire then rp.(wire := Got(cursor)) else rp.(file := Got(cursor));
        if rp.wire.Got? && rp.file.Got? {
          completeReplies := completeReplies[key := rp];
          incompleteReplies := incompleteReplies - {key};
        } else {
          incompleteReplies := incompleteReplies[key := rp];
        }
      }
    }

    method HandleCompletedReplies() returns (ghost order: seq<OpKey>)
      requires Valid()
      modifies this, cursorIDMap
      ensures Valid() && Replies() == old(Replies()).(complete := map[])
      ensures cursorIDMap.present == old(cursorIDMap.present)
      ensures Enumerates(order, old(completeReplies))
      ensures forall i: nat :: i < |order| ==> old(completeReplies)[order[i]].Full()
      ensures cursorIDMap.infos ==
              HandleAll(old(cursorIDMap.infos), cursorIDMap.present, old(completeReplies), order)
    {
      ghost var all := completeReplies;
      order := [];
      while |completeReplies| != 0
        invariant Valid() && incompleteReplies == old(incompleteReplies)
        invariant cursorIDMap.present == old(cursorIDMap.present)
        invariant forall i: nat :: i < |order| ==> order[i] in all && all[order[i]].Full()
        invariant forall k <- completeReplies :: k in all && all[k] == completeReplies[k]
        invariant forall k <- all :: k in order || k in completeReplies
        invariant cursorIDMap.infos == HandleAll(old(cursorIDMap.infos), cursorIDMap.present, all, order)
        decreases |completeReplies|
      {
        var key: OpKey :| key in completeReplies;
        var rp := completeReplies[key];
        assert (order + [key])[..|order|] == order;
        order := order + [key];
        if rp.file.cursor != 0 { cursorIDMap.SetCursor(rp.file.cursor, rp.wire.cursor); }
        completeReplies := completeReplies - {key};
      }
    }
  }
}
