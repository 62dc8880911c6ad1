/** Whole histories of a repo: what its log rows and its chain of commits must tell each
    other, what follows from that, and that a commit chained to the stored root keeps it. */
module RepoHistory {
  import opened Wrappers
  import opened RepoData
  import opened FirehoseLog
  import opened RepoEngine

  // ---- what a history is ----

  /** The log rows of one repo, oldest first. */
  function RowsOf(log: seq<Row>, did: Did): seq<Row> {
    if log == [] then []
    else
      var r := log[|log| - 1];
      RowsOf(log[..|log| - 1], did) + (if r.event.Some? && r.event.value.repo == did then [r] else [])
  }

  /** A consumer that starts empty and applies every row's entries in order. */
  function Replay(rows: seq<Row>): map<Key, Cid> {
    if rows == [] then map[]
    else
      var m := Replay(rows[..|rows| - 1]);
      var r := rows[|rows| - 1];
      if r.event.Some? then ReplayOps(m, r.event.value.ops) else m
  }

  /** The record map at a stored root; empty without one. */
  function MapAt(root: Option<Cid>): map<Key, Cid> {
    if root.Some? && IsCommit(root.value) then Entries(root.value) else map[]
  }

  /** The commits met by following `prev`, newest first. */
  function Ancestry(c: Cid): seq<Cid>
    decreases c
  {
    if c.content.Commit? && c.content.prev.Some? then [c] + Ancestry(c.content.prev.value) else [c]
  }

  /** The commits announced by the rows, newest first. */
  function Announced(rows: seq<Row>): seq<Cid> {
    if rows == [] then []
    else
      var r := rows[|rows| - 1];
      (if r.event.Some? then [r.event.value.commit] else []) + Announced(rows[..|rows| - 1])
  }

  predicate IsInitial(c: Cid, did: Did) {
    c.content.Commit? && c.content.did == did && c.content.prev.None? && c.content.data == Cid(EmptyTree())
  }

  /** Every block reachable from `c` is stored. */
  ghost predicate Closed(c: Cid, blocks: map<Cid, Block>)
    decreases c
  {
    && c in blocks
    && match c.content
       case Record(_) => true
       case Tree(es) => forall k :: k in es ==> Closed(es[k], blocks)
       case Commit(_, data, _, prev, _) => Closed(data, blocks) && (prev.Some? ==> Closed(prev.value, blocks))
  }

  /** Row `r` announces commit `c`, which applies the row's entries to its predecessor. */
  ghost predicate Link(did: Did, c: Cid, r: Row, first: bool) {
    && IsCommit(c) && c.content.did == did && c.content.prev.Some? && r.event.Some?
    && var p, body := c.content.prev.value, r.event.value;
    && body.repo == did && body.commit == c && body.rev == c.content.rev
    && IsCommit(p) && Entries(c) == ReplayOps(Entries(p), body.ops)
    && body.since == (if first then None else Some(p.content.rev))
    && (first ==> IsInitial(p, did))
  }

  /** Row by row, the log and the chain of commits ending at `root` tell the same story. */
  ghost predicate Linked(did: Did, root: Option<Cid>, rows: seq<Row>) {
    if rows == [] then root.None?
    else
      var n := |rows| - 1;
      root.Some? && Link(did, root.value, rows[n], n == 0) &&
      (n == 0 || Linked(did, Some(root.value.content.prev.value), rows[..n]))
  }

  // ---- consequences ----

  lemma {:induction false} LinkedReplays(did: Did, root: Option<Cid>, rows: seq<Row>)
    requires Linked(did, root, rows)
    ensures Replay(rows) == MapAt(root)
  {
    if rows == [] {
    } else {
      var n := |rows| - 1;
      if n > 0 {
        LinkedReplays(did, Some(root.value.content.prev.value), rows[..n]);
      }
    }
  }

  lemma {:induction false} LinkedIsLinear(did: Did, root: Option<Cid>, rows: seq<Row>)
    requires Linked(did, root, rows) && rows != []
    ensures |Announced(rows)| == |rows| && |Ancestry(root.value)| == |rows| + 1
    ensures Ancestry(root.value)[..|rows|] == Announced(rows)
    ensures IsInitial(Ancestry(root.value)[|rows|], did)
  {
    var n := |rows| - 1;
    if n > 0 {
      LinkedIsLinear(did, Some(root.value.content.prev.value), rows[..n]);
    } else {
      assert Announced(rows[..n]) == [];
    }
  }

  ghost predicate SinceOk(rows: seq<Row>) {
    forall i :: 0 <= i < |rows| ==>
      && rows[i].event.Some?
      && rows[i].event.value.since == PreviousRev(rows, i)
  }

  function PreviousRev(rows: seq<Row>, i: nat): Option<Rev>
    requires i < |rows|
  {
    if 0 < i && rows[i - 1].event.Some? then Some(rows[i - 1].event.value.rev) else None
  }

  /** `since` is the previous row's rev, and absent on the first row only. */
  lemma {:induction false} LinkedSince(did: Did, root: Option<Cid>, rows: seq<Row>)
    requires Linked(did, root, rows)
    ensures SinceOk(rows)
  {
    if |rows| <= 1 {
    } else {
      var n := |rows| - 1;
      var p := root.value.content.prev.value;
      LinkedSince(did, Some(p), rows[..n]);
      assert Link(did, p, rows[..n][n - 1], n == 1);
      forall i | 0 <= i < n ensures rows[i].event.Some? && rows[i].event.value.since == PreviousRev(rows, i) {
        assert rows[..n][i] == rows[i] && PreviousRev(rows[..n], i) == PreviousRev(rows, i);
      }
    }
  }

  // ---- one commit extends a history ----

  ghost predicate StoreOk(s: Store) {
    && WellAddressed(s.blocks) && Sorted(s.log) && MaxSeq(s.log) <= s.counter
    && (forall did: Did :: Linked(did, RootOf(s, did), RowsOf(s.log, did)))
    && (forall did: Did :: did in s.roots ==> Closed(s.roots[did], s.blocks))
  }

  lemma {:induction false} ClosedGrows(c: Cid, blocks: map<Cid, Block>, more: map<Cid, Block>)
    requires Closed(c, blocks) && blocks.Keys <= more.Keys
    ensures Closed(c, more)
    decreases c
  {
    match c.content
    case Record(_) =>
    case Tree(es) =>
      forall k | k in es ensures Closed(es[k], more) {
        ClosedGrows(es[k], blocks, more);
      }
    case Commit(_, data, _, prev, _) =>
      ClosedGrows(data, blocks, more);
      if prev.Some? {
        ClosedGrows(prev.value, blocks, more);
      }
  }

  /** Applying accepted operations leaves only entries that are stored. */
  lemma {:induction false} MapStaysClosed(
    accepts: Accepts, m: map<Key, Cid>, ops: seq<WriteOp>, blocks: map<Cid, Block>)
    requires TryOps(accepts, m, ops).Some?
    requires forall k :: k in m ==> Closed(m[k], blocks)
    requires CidsOf(RecordBlocks(ops)) <= blocks.Keys
    ensures var r := TryOps(accepts, m, ops).value; forall k :: k in r ==> Closed(r[k], blocks)
  {
    if ops == [] {
    } else {
      var n := |ops| - 1;
      RecordsGrow(ops, n);
      assert ops[..n + 1] == ops;
      MapStaysClosed(accepts, m, ops[..n], blocks);
      if !ops[n].Delete? {
        assert Record(ops[n].record) in RecordBlocks(ops);
        assert Cid(Record(ops[n].record)) in CidsOf(RecordBlocks(ops));
      }
    }
  }

  lemma CommitIsClosed(accepts: Accepts, s: Store, did: Did, ops: seq<WriteOp>, m: map<Key, Cid>, st: Stamp)
    requires StoreOk(s) && TryOps(accepts, BaseMap(did, RootOf(s, did), st), ops) == Some(m)
    ensures var t := Committed(s, did, RootOf(s, did), ops, m, st);
      Closed(t.roots[did], t.blocks) && WellAddressed(t.blocks) && s.blocks.Keys <= t.blocks.Keys
  {
    var prior := RootOf(s, did);
    var t := Committed(s, did, prior, ops, m, st);
    var base, need := Base(did, prior, st), Needed(did, prior, ops, m, st);
    assert t.blocks.Keys == s.blocks.Keys + CidsOf(need);
    assert forall b :: b in need ==> Cid(b) in CidsOf(need);
    assert Linked(did, prior, RowsOf(s.log, did));
    if prior.Some? {
      ClosedGrows(base, s.blocks, t.blocks);
    } else {
      assert EmptyTree() in need && base.content in need;
      assert Closed(base, t.blocks);
    }
    assert CidsOf(RecordBlocks(ops)) <= t.blocks.Keys;
    MapStaysClosed(accepts, BaseMap(did, prior, st), ops, t.blocks);
    assert Tree(m) in need && NewCommit(did, base, m, st).content in need;
    assert Closed(Cid(Tree(m)), t.blocks);
  }

  lemma CommitIsLinked(accepts: Accepts, s: Store, did: Did, ops: seq<WriteOp>, m: map<Key, Cid>, st: Stamp)
    requires Linked(did, RootOf(s, did), RowsOf(s.log, did))
    requires TryOps(accepts, BaseMap(did, RootOf(s, did), st), ops) == Some(m)
    ensures var t := Committed(s, did, RootOf(s, did), ops, m, st); Linked(did, RootOf(t, did), RowsOf(t.log, did))
  {
    var prior := RootOf(s, did);
    var t := Committed(s, did, prior, ops, m, st);
    var rows := RowsOf(s.log, did);
    var row := t.log[|s.log|];
    NewLink(accepts, did, prior, ops, m, st, row);
    RowsGrow(s.log, row, did);
    assert (rows + [row])[..|rows|] == rows;
  }

  lemma NewLink(
    accepts: Accepts, did: Did, prior: Option<Cid>, ops: seq<WriteOp>, m: map<Key, Cid>, st: Stamp, row: Row)
    requires prior.Some? ==> IsCommit(prior.value)
    requires TryOps(accepts, BaseMap(did, prior, st), ops) == Some(m)
    requires var c := NewCommit(did, Base(did, prior, st), m, st); row.event == Some(Body(did, prior, c, st, ops))
    ensures Link(did, NewCommit(did, Base(did, prior, st), m, st), row, prior.None?)
  {
    AnnouncedMeansApplied(accepts, BaseMap(did, prior, st), ops);
  }

  lemma RowsGrow(log: seq<Row>, row: Row, did: Did)
    ensures RowsOf(log + [row], did) ==
            RowsOf(log, did) + (if row.event.Some? && row.event.value.repo == did then [row] else [])
  {
    assert (log + [row])[..|log|] == log;
  }

  /** A commit to one repo is invisible in another's root and rows. */
  lemma OthersUntouched(s: Store, did: Did, prior: Option<Cid>, ops: seq<WriteOp>, m: map<Key, Cid>, st: Stamp, d: Did)
    requires d != did
    ensures var t := Committed(s, did, prior, ops, m, st);
      RootOf(t, d) == RootOf(s, d) && RowsOf(t.log, d) == RowsOf(s.log, d)
  {
    var t := Committed(s, did, prior, ops, m, st);
    RowsGrow(s.log, t.log[|s.log|], d);
  }

  /** A commit chained to the current root keeps every repo's history. */
  lemma CommitKeepsStore(accepts: Accepts, s: Store, did: Did, ops: seq<WriteOp>, m: map<Key, Cid>, st: Stamp)
    requires StoreOk(s) && TryOps(accepts, BaseMap(did, RootOf(s, did), st), ops) == Some(m)
    ensures StoreOk(Committed(s, did, RootOf(s, did), ops, m, st))
  {
    var prior := RootOf(s, did);
    var t := Committed(s, did, prior, ops, m, st);
    CommitIsClosed(accepts, s, did, ops, m, st);
    forall d: Did ensures Linked(d, RootOf(t, d), RowsOf(t.log, d)) {
      assert Linked(d, RootOf(s, d), RowsOf(s.log, d));
      if d == did {
        CommitIsLinked(accepts, s, did, ops, m, st);
      } else {
        OthersUntouched(s, did, prior, ops, m, st, d);
      }
    }
    forall d: Did | d in t.roots ensures Closed(t.roots[d], t.blocks) {
      if d != did {
        ClosedGrows(s.roots[d], s.blocks, t.blocks);
      }
    }
  }

  lemma PutKeepsStore(s: Store, blocks: set<Block>)
    requires StoreOk(s)
    ensures StoreOk(s.(blocks := PutAll(s.blocks, blocks)))
  {
    var t := s.(blocks := PutAll(s.blocks, blocks));
    forall d: Did | d in t.roots ensures Closed(t.roots[d], t.blocks) {
      ClosedGrows(s.roots[d], s.blocks, t.blocks);
    }
    forall d: Did ensures Linked(d, RootOf(t, d), RowsOf(t.log, d)) {
      assert Linked(d, RootOf(s, d), RowsOf(s.log, d));
    }
  }
}
