/** A batch is its operations one by one, landed as a single commit; and why the lock matters. */
module RepoBatch {
  import opened Wrappers
  import opened RepoData
  import opened FirehoseLog
  import opened RepoEngine
  import opened RepoHistory

  /** One commit per operation, stopping at the first refusal. */
  function WriteEach(accepts: Accepts, s: Store, did: Did, ops: seq<WriteOp>, stamps: seq<Stamp>): Option<Store>
    requires |stamps| == |ops|
  {
    if ops == [] then Some(s)
    else
      var n := |ops| - 1;
      match WriteEach(accepts, s, did, ops[..n], stamps[..n])
      case None => None
      case Some(mid) => Write(accepts, mid, did, [ops[n]], stamps[n])
  }

  ghost predicate RootIsCommit(s: Store, did: Did) { did in s.roots ==> IsCommit(s.roots[did]) }

  /** A commit of one operation. */
  lemma {:induction false} WriteOne(accepts: Accepts, s: Store, did: Did, op: WriteOp, st: Stamp)
    requires RootIsCommit(s, did)
    ensures var m, t := MapAt(RootOf(s, did)), Write(accepts, s, did, [op], st);
      if accepts(m, op) then
        && t.Some? && RootIsCommit(t.value, did) && MapAt(RootOf(t.value, did)) == ApplyOp(m, op)
        && |t.value.log| == |s.log| + 1
      else t.None?
  {
    OneOp(accepts, MapAt(RootOf(s, did)), op);
  }

  lemma {:induction false} EachFollowsTryOps(
    accepts: Accepts, s: Store, did: Did, ops: seq<WriteOp>, stamps: seq<Stamp>)
    requires |stamps| == |ops| && RootIsCommit(s, did)
    ensures var each := WriteEach(accepts, s, did, ops, stamps);
      match TryOps(accepts, MapAt(RootOf(s, did)), ops)
      case None => each.None?
      case Some(m) => each.Some? && RootIsCommit(each.value, did) && MapAt(RootOf(each.value, did)) == m &&
                      |each.value.log| == |s.log| + |ops|
  {
    if ops == [] {
    } else {
      var n := |ops| - 1;
      EachFollowsTryOps(accepts, s, did, ops[..n], stamps[..n]);
      match WriteEach(accepts, s, did, ops[..n], stamps[..n])
      case None =>
      case Some(mid) =>
        WriteOne(accepts, mid, did, ops[n], stamps[n]);
    }
  }

  /** A batch succeeds exactly when its operations would one by one, ends in the same record
      map, and does so with one commit and one log row carrying every entry in order. */
  lemma BatchEqualsFold(accepts: Accepts, s: Store, did: Did, ops: seq<WriteOp>, stamps: seq<Stamp>, st: Stamp)
    requires |stamps| == |ops| && ops != [] && RootIsCommit(s, did)
    ensures WriteEach(accepts, s, did, ops, stamps).Some? <==> Write(accepts, s, did, ops, st).Some?
    ensures Write(accepts, s, did, ops, st).Some? ==>
      var each, batch := WriteEach(accepts, s, did, ops, stamps).value, Write(accepts, s, did, ops, st).value;
      && MapAt(RootOf(batch, did)) == MapAt(RootOf(each, did))
      && |each.log| == |s.log| + |ops| && |batch.log| == |s.log| + 1
      && batch.log[..|s.log|] == s.log && batch.log[|s.log|].event.Some?
      && batch.log[|s.log|].event.value.ops == AnnounceAll(ops)
      && Some(batch.log[|s.log|].event.value.commit) == RootOf(batch, did)
  {
    EachFollowsTryOps(accepts, s, did, ops, stamps);
  }

  /** Replaying two rows that each announce one create. */
  lemma {:induction false} TwoCreates(did: Did, r1: Row, r2: Row, a: WriteOp, b: WriteOp)
    requires a.Create? && b.Create? && r1.event.Some? && r2.event.Some?
    requires r1.event.value.repo == did && r1.event.value.ops == AnnounceAll([a])
    requires r2.event.value.repo == did && r2.event.value.ops == AnnounceAll([b])
    ensures Replay(RowsOf([r1, r2], did)) == map[a.key := Cid(Record(a.record))][b.key := Cid(Record(b.record))]
  {
    RowsGrow([], r1, did);
    RowsGrow([r1], r2, did);
    assert [] + [r1] == [r1] && [r1] + [r2] == [r1, r2];
    assert RowsOf([r1, r2], did) == [r1, r2];
    assert [r1, r2][..1] == [r1] && [r1][..0] == [];
    assert Replay([]) == map[];
    OneEntry(map[], a);
    OneEntry(map[a.key := Cid(Record(a.record))], b);
  }

  /** What a first write adds to the log and leaves at the root. */
  lemma {:induction false} CommitRow(s: Store, did: Did, ops: seq<WriteOp>, m: map<Key, Cid>, st: Stamp)
    returns (row: Row)
    ensures var t := Committed(s, did, None, ops, m, st); t.log == s.log + [row] && MapAt(RootOf(t, did)) == m
    ensures row.event.Some? && row.event.value.repo == did && row.event.value.ops == AnnounceAll(ops)
  {
    row := Committed(s, did, None, ops, m, st).log[|s.log|];
  }

  /** Without a shared lock two first writers may both load an absent root. The second commit
      then forks: its map lacks the first record although the log announces both. */
  lemma {:induction false} UnlockedWritersFork(
    did: Did, k1: Key, k2: Key, b1: Bytes, b2: Bytes, st1: Stamp, st2: Stamp)
    requires k1 != k2
    ensures var m1, m2 := map[k1 := Cid(Record(b1))], map[k2 := Cid(Record(b2))];
      var s1 := Committed(Store(map[], map[], [], 0), did, None, [Create(k1, b1)], m1, st1);
      var s2 := Committed(s1, did, None, [Create(k2, b2)], m2, st2);
      k1 in Replay(RowsOf(s2.log, did)) && k1 !in MapAt(RootOf(s2, did))
  {
    var m1, m2 := map[k1 := Cid(Record(b1))], map[k2 := Cid(Record(b2))];
    var s1 := Committed(Store(map[], map[], [], 0), did, None, [Create(k1, b1)], m1, st1);
    var s2 := Committed(s1, did, None, [Create(k2, b2)], m2, st2);
    var r1 := CommitRow(Store(map[], map[], [], 0), did, [Create(k1, b1)], m1, st1);
    var r2 := CommitRow(s1, did, [Create(k2, b2)], m2, st2);
    assert s2.log == [r1, r2];
    TwoCreates(did, r1, r2, Create(k1, b1), Create(k2, b2));
  }

  lemma OneEntry(m: map<Key, Cid>, op: WriteOp)
    requires op.Create?
    ensures ReplayOps(m, AnnounceAll([op])) == m[op.key := Cid(Record(op.record))]
  {
    assert [op][..0] == [];
    assert AnnounceAll([op]) == [Announce(op)];
    assert [Announce(op)][..0] == [];
  }
}
