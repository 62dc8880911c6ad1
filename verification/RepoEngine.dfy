/** The repo commit engine: load the root, mutate the record map, sign a commit chained to
    the previous one, then append one log row and move the root in a single step. */
module RepoEngine {
  import opened Wrappers
  import opened RepoData
  import opened FirehoseLog

  datatype WriteOp = Create(key: Key, record: Bytes) | Update(key: Key, record: Bytes) | Delete(key: Key)

  /** When the tree library accepts an operation. Left open; the proofs hold for any rule. */
  type Accepts = (map<Key, Cid>, WriteOp) -> bool

  /** Labels and signatures drawn during one call; `rev0` and `sig0` serve a first write. */
  datatype Stamp = Stamp(rev0: Rev, sig0: Bytes, rev: Rev, sig: Bytes)

  /** `counter` is the last seq handed out. It is kept beside the log, which it never falls behind. */
  datatype Store = Store(blocks: map<Cid, Block>, roots: map<Did, Cid>, log: seq<Row>, counter: nat)

  // ---- the record map ----

  function ApplyOp(m: map<Key, Cid>, op: WriteOp): map<Key, Cid> {
    match op
    case Create(k, bytes) => m[k := Cid(Record(bytes))]
    case Update(k, bytes) => m[k := Cid(Record(bytes))]
    case Delete(k) => m - {k}
  }

  /** All operations in turn on one tree, or `None` at the first one refused. */
  function TryOps(accepts: Accepts, m: map<Key, Cid>, ops: seq<WriteOp>): Option<map<Key, Cid>> {
    if ops == [] then Some(m)
    else
      var n := |ops| - 1;
      match TryOps(accepts, m, ops[..n])
      case None => None
      case Some(mid) => if accepts(mid, ops[n]) then Some(ApplyOp(mid, ops[n])) else None
  }

  /** The event entry an operation is announced by. */
  function Announce(op: WriteOp): RepoOp {
    match op
    case Create(k, bytes) => Put(true, k, Cid(Record(bytes)))
    case Update(k, bytes) => Put(false, k, Cid(Record(bytes)))
    case Delete(k) => Remove(k)
  }

  function AnnounceAll(ops: seq<WriteOp>): seq<RepoOp> {
    if ops == [] then [] else AnnounceAll(ops[..|ops| - 1]) + [Announce(ops[|ops| - 1])]
  }

  /** A consumer's view: what one announced entry does to its copy of the map. */
  function ReplayOps(m: map<Key, Cid>, ops: seq<RepoOp>): map<Key, Cid> {
    if ops == [] then m
    else
      var mid := ReplayOps(m, ops[..|ops| - 1]);
      match ops[|ops| - 1]
      case Put(_, path, cid) => mid[path := cid]
      case Remove(path) => mid - {path}
  }

  /** The announced entries have the same effect as the operations. */
  lemma {:induction false} AnnouncedMeansApplied(accepts: Accepts, m: map<Key, Cid>, ops: seq<WriteOp>)
    requires TryOps(accepts, m, ops).Some?
    ensures |AnnounceAll(ops)| == |ops|
    ensures ReplayOps(m, AnnounceAll(ops)) == TryOps(accepts, m, ops).value
  {
    if ops == [] {
    } else {
      var n := |ops| - 1;
      AnnouncedMeansApplied(accepts, m, ops[..n]);
      var front := AnnounceAll(ops[..n]);
      assert AnnounceAll(ops) == front + [Announce(ops[n])];
      assert AnnounceAll(ops)[..n] == front && AnnounceAll(ops)[n] == Announce(ops[n]);
    }
  }

  // ---- one commit ----

  function EmptyTree(): Block { Tree(map[]) }

  function InitialCommit(did: Did, st: Stamp): Cid {
    Cid(Commit(did, Cid(EmptyTree()), st.rev0, None, st.sig0))
  }

  predicate IsCommit(c: Cid) { c.content.Commit? && c.content.data.content.Tree? }

  function Entries(c: Cid): map<Key, Cid>
    requires IsCommit(c)
  {
    c.content.data.content.entries
  }

  /** The commit to chain from: the stored root, or a fresh empty commit on a first write. */
  function Base(did: Did, prior: Option<Cid>, st: Stamp): Cid {
    match prior
    case Some(c) => c
    case None => InitialCommit(did, st)
  }

  function NewCommit(did: Did, base: Cid, m: map<Key, Cid>, st: Stamp): Cid {
    Cid(Commit(did, Cid(Tree(m)), st.rev, Some(base), st.sig))
  }

  function Body(did: Did, prior: Option<Cid>, commit: Cid, st: Stamp, ops: seq<WriteOp>): CommitBody {
    CommitBody(did, commit, st.rev,
               if prior.Some? && prior.value.content.Commit? then Some(prior.value.content.rev) else None,
               AnnounceAll(ops))
  }

  function RecordBlocks(ops: seq<WriteOp>): set<Block> {
    set op | op in ops && !op.Delete? :: Record(op.record)
  }

  /** Every block one call writes: the initial pair on a first write, the records, the tree
      and the signed commit. */
  function Needed(did: Did, prior: Option<Cid>, ops: seq<WriteOp>, m: map<Key, Cid>, st: Stamp): set<Block> {
    var base := Base(did, prior, st);
    (if prior.None? then {EmptyTree(), base.content} else {}) + RecordBlocks(ops) +
    {Tree(m), NewCommit(did, base, m, st).content}
  }

  function CidsOf(blocks: set<Block>): set<Cid> { set b | b in blocks :: Cid(b) }

  function Contents(batch: seq<Block>): set<Block> { set b | b in batch }

  /** `INSERT OR IGNORE` of blocks under their own CIDs. */
  function PutAll(stored: map<Cid, Block>, blocks: set<Block>): map<Cid, Block> {
    (map c | c in CidsOf(blocks) :: c.content) + stored
  }

  ghost predicate WellAddressed(blocks: map<Cid, Block>) {
    forall c :: c in blocks ==> Cid(blocks[c]) == c
  }

  /** `commit_blocks`: blocks, one log row and the root move together. */
  function CommitBlocks(s: Store, blocks: set<Block>, did: Did, root: Cid, body: CommitBody): Store {
    Store(PutAll(s.blocks, blocks), s.roots[did := root],
          s.log + [Row(s.counter + 1, Some(body), false)], s.counter + 1)
  }

  function RootOf(s: Store, did: Did): Option<Cid> {
    if did in s.roots then Some(s.roots[did]) else None
  }

  /** The whole effect of one successful call that loaded `prior`. */
  function Committed(s: Store, did: Did, prior: Option<Cid>, ops: seq<WriteOp>, m: map<Key, Cid>, st: Stamp): Store {
    var commit := NewCommit(did, Base(did, prior, st), m, st);
    CommitBlocks(s, Needed(did, prior, ops, m, st), did, commit, Body(did, prior, commit, st, ops))
  }

  /** The map a call starts from, once its base commit decodes. */
  function BaseMap(did: Did, prior: Option<Cid>, st: Stamp): map<Key, Cid> {
    var base := Base(did, prior, st);
    if IsCommit(base) then Entries(base) else map[]
  }

  /** A call as a function of the store: `None` when an operation is refused. */
  function Write(accepts: Accepts, s: Store, did: Did, ops: seq<WriteOp>, st: Stamp): Option<Store> {
    var prior := RootOf(s, did);
    match TryOps(accepts, BaseMap(did, prior, st), ops)
    case None => None
    case Some(m) => Some(Committed(s, did, prior, ops, m, st))
  }

  // ---- what a caller sees of a write ----

  /** An entry announces an operation: the same key, and the kind of the operation. */
  predicate Announces(e: RepoOp, op: WriteOp) {
    && e.path == op.key
    && (e.Put? && e.create <==> op.Create?)
    && (e.Put? && !e.create <==> op.Update?)
    && (e.Remove? <==> op.Delete?)
    && (e.Put? && !op.Delete? ==> e.cid == Cid(Record(op.record)))
  }

  /** `m2` is `m` with the operation made: its key holds the record, or nothing, and every other
      key is as before. */
  ghost predicate Edited(m: map<Key, Cid>, op: WriteOp, m2: map<Key, Cid>) {
    && (op.key in m2 <==> !op.Delete?)
    && (!op.Delete? ==> op.key in m2 && m2[op.key] == Cid(Record(op.record)))
    && (forall k :: k != op.key ==> (k in m2 <==> k in m) && (k in m ==> k in m2 && m2[k] == m[k]))
  }

  /** The operations can be made one after another, each accepted on the map it meets. */
  ghost predicate Trace(accepts: Accepts, m: map<Key, Cid>, ops: seq<WriteOp>, maps: seq<map<Key, Cid>>) {
    && |maps| == |ops| + 1 && maps[0] == m
    && (forall i :: 0 <= i < |ops| ==> accepts(maps[i], ops[i]) && Edited(maps[i], ops[i], maps[i + 1]))
  }

  ghost predicate Admitted(accepts: Accepts, m: map<Key, Cid>, ops: seq<WriteOp>) {
    exists maps :: Trace(accepts, m, ops, maps)
  }

  /** Every key holds what the last operation on it left there, and an unnamed key what it held. */
  ghost predicate MapAfter(m: map<Key, Cid>, ops: seq<WriteOp>, m2: map<Key, Cid>) {
    && (forall k :: Unnamed(ops, k) ==> (k in m2 <==> k in m) && (k in m ==> k in m2 && m2[k] == m[k]))
    && (forall i :: 0 <= i < |ops| && Unnamed(ops[i + 1..], ops[i].key) ==>
          && (ops[i].key in m2 <==> !ops[i].Delete?)
          && (!ops[i].Delete? ==> ops[i].key in m2 && m2[ops[i].key] == Cid(Record(ops[i].record))))
  }

  predicate Unnamed(ops: seq<WriteOp>, k: Key) { forall i :: 0 <= i < |ops| ==> ops[i].key != k }

  /** The commit and its event carry the DID, the labels drawn for them, and the predecessor. */
  predicate Stamped(body: CommitBody, did: Did, prior: Option<Cid>, st: Stamp) {
    && body.repo == did && body.rev == st.rev && IsCommit(body.commit)
    && body.commit.content.did == did && body.commit.content.rev == st.rev && body.commit.content.sig == st.sig
    && body.commit.content.prev ==
       (if prior.Some? then prior else Some(Cid(Commit(did, Cid(Tree(map[])), st.rev0, None, st.sig0))))
  }

  function MapOf(s: Store, did: Did): map<Key, Cid> {
    if did in s.roots && IsCommit(s.roots[did]) then Entries(s.roots[did]) else map[]
  }

  /** One commit over `s`: the root moves to it, its event has one entry per operation in order, and
      its map is the old one with the operations made. */
  ghost predicate Landed(s: Store, t: Store, did: Did, ops: seq<WriteOp>, st: Stamp, body: CommitBody) {
    && t.roots == s.roots[did := body.commit]
    && |body.ops| == |ops| && (forall i :: 0 <= i < |ops| ==> Announces(body.ops[i], ops[i]))
    && Stamped(body, did, RootOf(s, did), st)
    && MapAfter(MapOf(s, did), ops, Entries(body.commit))
  }

  lemma {:induction false} AnnounceAllAt(ops: seq<WriteOp>)
    ensures |AnnounceAll(ops)| == |ops|
    ensures forall i :: 0 <= i < |ops| ==> Announces(AnnounceAll(ops)[i], ops[i])
  {
    if ops == [] {
    } else {
      var n := |ops| - 1;
      AnnounceAllAt(ops[..n]);
      assert AnnounceAll(ops) == AnnounceAll(ops[..n]) + [Announce(ops[n])];
      assert forall i :: 0 <= i < n ==> ops[..n][i] == ops[i];
    }
  }

  lemma EditIsUnique(m: map<Key, Cid>, op: WriteOp, m2: map<Key, Cid>)
    ensures Edited(m, op, m2) <==> m2 == ApplyOp(m, op)
  {
    if Edited(m, op, m2) {
      var want := ApplyOp(m, op);
      assert forall k :: k in m2 <==> k in want;
      assert forall k :: k in m2 ==> m2[k] == want[k];
    }
  }

  lemma {:induction false} MapAfterOps(accepts: Accepts, m: map<Key, Cid>, ops: seq<WriteOp>)
    requires TryOps(accepts, m, ops).Some?
    ensures MapAfter(m, ops, TryOps(accepts, m, ops).value)
  {
    if ops == [] {
    } else {
      var n := |ops| - 1;
      MapAfterOps(accepts, m, ops[..n]);
      var mid, end := TryOps(accepts, m, ops[..n]).value, TryOps(accepts, m, ops).value;
      EditIsUnique(mid, ops[n], end);
      MapAfterOne(m, ops, mid, end);
    }
  }

  lemma {:induction false} MapAfterOne(m: map<Key, Cid>, ops: seq<WriteOp>, mid: map<Key, Cid>, end: map<Key, Cid>)
    requires ops != [] && MapAfter(m, ops[..|ops| - 1], mid) && Edited(mid, ops[|ops| - 1], end)
    ensures MapAfter(m, ops, end)
  {
    var n := |ops| - 1;
    var front := ops[..n];
    forall k | Unnamed(ops, k) ensures Unnamed(front, k) && k != ops[n].key {
      assert ops[n].key != k;
    }
    forall i | 0 <= i < n && Unnamed(ops[i + 1..], ops[i].key)
      ensures front[i] == ops[i] && Unnamed(front[i + 1..], front[i].key) && ops[i].key != ops[n].key
    {
      var later := ops[i + 1..];
      assert later[n - i - 1] == ops[n];
      assert forall j :: 0 <= j < |front[i + 1..]| ==> front[i + 1..][j] == later[j];
    }
  }

  /** A write is made exactly when its operations can be made in turn. */
  lemma {:induction false} TryOpsIff(accepts: Accepts, m: map<Key, Cid>, ops: seq<WriteOp>)
    ensures TryOps(accepts, m, ops).Some? <==> Admitted(accepts, m, ops)
  {
    if TryOps(accepts, m, ops).Some? {
      var maps := TraceOf(accepts, m, ops);
    }
    if maps :| Trace(accepts, m, ops, maps) {
      TraceEnds(accepts, m, ops, maps);
    }
  }

  lemma {:induction false} TraceOf(accepts: Accepts, m: map<Key, Cid>, ops: seq<WriteOp>)
    returns (maps: seq<map<Key, Cid>>)
    requires TryOps(accepts, m, ops).Some?
    ensures Trace(accepts, m, ops, maps) && maps[|ops|] == TryOps(accepts, m, ops).value
  {
    if ops == [] {
      maps := [m];
    } else {
      var n := |ops| - 1;
      maps := TraceOf(accepts, m, ops[..n]);
      var next := ApplyOp(maps[n], ops[n]);
      EditIsUnique(maps[n], ops[n], next);
      TraceSnoc(accepts, m, ops[..n], ops[n], maps, next);
      assert ops == ops[..n] + [ops[n]];
      maps := maps + [next];
    }
  }

  lemma {:induction false} TraceSnoc(
    accepts: Accepts, m: map<Key, Cid>, ops: seq<WriteOp>, op: WriteOp, maps: seq<map<Key, Cid>>, next: map<Key, Cid>)
    requires Trace(accepts, m, ops, maps) && accepts(maps[|ops|], op) && Edited(maps[|ops|], op, next)
    ensures Trace(accepts, m, ops + [op], maps + [next])
  {
    var all, longer := ops + [op], maps + [next];
    assert forall i :: 0 <= i < |ops| ==> all[i] == ops[i];
    assert forall i :: 0 <= i < |maps| ==> longer[i] == maps[i];
    assert all[|ops|] == op && longer[|ops| + 1] == next;
  }

  lemma {:induction false} TraceEnds(accepts: Accepts, m: map<Key, Cid>, ops: seq<WriteOp>, maps: seq<map<Key, Cid>>)
    requires Trace(accepts, m, ops, maps)
    ensures TryOps(accepts, m, ops) == Some(maps[|ops|])
  {
    if ops == [] {
    } else {
      var n := |ops| - 1;
      assert forall i :: 0 <= i < n ==> ops[..n][i] == ops[i];
      assert Trace(accepts, m, ops[..n], maps[..n + 1]);
      TraceEnds(accepts, m, ops[..n], maps[..n + 1]);
      assert accepts(maps[n], ops[n]) && Edited(maps[n], ops[n], maps[n + 1]);
      EditIsUnique(maps[n], ops[n], maps[n + 1]);
    }
  }

  /** What a write is, without saying how it is made. */
  lemma {:induction false} WriteLands(accepts: Accepts, s: Store, did: Did, ops: seq<WriteOp>, st: Stamp)
    requires did in s.roots ==> IsCommit(s.roots[did])
    ensures Write(accepts, s, did, ops, st).Some? <==> Admitted(accepts, MapOf(s, did), ops)
    ensures match Write(accepts, s, did, ops, st)
            case None => true
            case Some(t) =>
              && |t.log| == |s.log| + 1 && t.log[|s.log|].event.Some?
              && Landed(s, t, did, ops, st, t.log[|s.log|].event.value)
  {
    var m := MapOf(s, did);
    assert m == BaseMap(did, RootOf(s, did), st);
    TryOpsIff(accepts, m, ops);
    AnnounceAllAt(ops);
    if TryOps(accepts, m, ops).Some? {
      MapAfterOps(accepts, m, ops);
    }
  }

  // ---- the code's form: a store updated in place ----

  class RepoStore {
    var blocks: map<Cid, Block>
    var roots: map<Did, Cid>
    var log: seq<Row>
    var counter: nat

    ghost function View(): Store reads this { Store(blocks, roots, log, counter) }

    constructor ()
      ensures View() == Store(map[], map[], [], 0)
    {
      blocks, roots, log, counter := map[], map[], [], 0;
    }

    method PutBlock(b: Block) returns (cid: Cid)
      requires WellAddressed(blocks)
      modifies this`blocks
      ensures cid == Cid(b) && WellAddressed(blocks)
      ensures blocks == PutAll(old(blocks), {b})
    {
      cid := Cid(b);
      if cid !in blocks {
        blocks := blocks[cid := b];
      }
    }

    /** Blocks one by one, then the log row under the next seq, then the root. */
    method CommitAll(batch: seq<Block>, did: Did, root: Cid, body: CommitBody) returns (seqNo: nat)
      requires WellAddressed(blocks)
      modifies this
      ensures WellAddressed(blocks)
      ensures View() == CommitBlocks(old(View()), Contents(batch), did, root, body)
      ensures seqNo == old(counter) + 1
    {
      PutEach(batch);
      counter := counter + 1;
      seqNo := counter;
      log := log + [Row(seqNo, Some(body), false)];
      roots := roots[did := root];
    }

    method PutEach(batch: seq<Block>)
      requires WellAddressed(blocks)
      modifies this`blocks
      ensures WellAddressed(blocks) && blocks == PutAll(old(blocks), Contents(batch))
    {
      ghost var before := blocks;
      for i := 0 to |batch|
        invariant WellAddressed(blocks) && blocks == PutAll(before, Contents(batch[..i]))
      {
        var _ := PutBlock(batch[i]);
        PutNext(before, batch, i);
      }
      assert batch[..|batch|] == batch;
    }

    /** Encodes and stores the records first, in one pass. */
    method PrepareRecords(ops: seq<WriteOp>)
      requires WellAddressed(blocks)
      modifies this`blocks
      ensures WellAddressed(blocks) && blocks == PutAll(old(blocks), RecordBlocks(ops))
    {
      ghost var before := blocks;
      for i := 0 to |ops|
        invariant WellAddressed(blocks) && blocks == PutAll(before, RecordBlocks(ops[..i]))
      {
        RecordsGrow(ops, i);
        if !ops[i].Delete? {
          var _ := PutBlock(Record(ops[i].record));
          PutTwice(before, RecordBlocks(ops[..i]), {Record(ops[i].record)});
        }
      }
      assert ops[..|ops|] == ops;
    }

    /** Opens the stored root, or writes the empty tree and initial commit of a first write. */
    method OpenBase(did: Did, st: Stamp) returns (prior: Option<Cid>, base: Cid)
      requires WellAddressed(blocks)
      modifies this`blocks
      ensures WellAddressed(blocks)
      ensures prior == RootOf(old(View()), did) && base == Base(did, prior, st)
      ensures blocks == PutAll(old(blocks), if prior.None? then {EmptyTree(), base.content} else {})
    {
      if did in roots {
        return Some(roots[did]), roots[did];
      }
      prior, base := None, InitialCommit(did, st);
      var _ := PutBlock(EmptyTree());
      var _ := PutBlock(base.content);
      PutTwice(old(blocks), {EmptyTree()}, {base.content});
      assert {EmptyTree()} + {base.content} == {EmptyTree(), base.content};
    }

    /** Writes the tree and the signed commit, then blocks, log row and root in one step. */
    method Finish(
      did: Did, prior: Option<Cid>, base: Cid, ops: seq<WriteOp>, m: map<Key, Cid>, st: Stamp, ghost before: Store)
      returns (body: CommitBody)
      requires WellAddressed(blocks) && (prior.Some? ==> IsCommit(prior.value)) && base == Base(did, prior, st)
      requires roots == before.roots && log == before.log && counter == before.counter
      requires blocks ==
        PutAll(before.blocks, (if prior.None? then {EmptyTree(), base.content} else {}) + RecordBlocks(ops))
      modifies this
      ensures WellAddressed(blocks)
      ensures View() == Committed(before, did, prior, ops, m, st)
      ensures log == before.log + [Row(before.counter + 1, Some(body), false)]
    {
      var commit := NewCommit(did, base, m, st);
      var batch := [Tree(m), commit.content];
      assert Contents(batch) == {Tree(m), commit.content};
      ghost var seeded := if prior.None? then {EmptyTree(), base.content} else {};
      PutTwice(before.blocks, seeded + RecordBlocks(ops), Contents(batch));
      var since := if prior.Some? then Some(prior.value.content.rev) else None;
      body := CommitBody(did, commit, st.rev, since, AnnounceAll(ops));
      var _ := CommitAll(batch, did, commit, body);
    }

    /** `apply_many_parts` under the lock: one tree, every operation in order, one commit. */
    method ApplyMany(accepts: Accepts, did: Did, ops: seq<WriteOp>, st: Stamp) returns (r: Option<CommitBody>)
      requires WellAddressed(blocks) && (did in roots ==> IsCommit(roots[did]))
      modifies this
      ensures WellAddressed(blocks)
      ensures r.Some? <==> ops != [] && Admitted(accepts, old(MapOf(View(), did)), ops)
      ensures r.Some? ==> Landed(old(View()), View(), did, ops, st, r.value)
      ensures r.Some? ==> Write(accepts, old(View()), did, ops, st) == Some(View())
      ensures r.Some? ==> log == old(log) + [Row(old(counter) + 1, r, false)]
      ensures r.None? ==> roots == old(roots) && log == old(log) && counter == old(counter)
      ensures r.None? ==> forall c :: c in old(blocks) ==> c in blocks && blocks[c] == old(blocks)[c]
    {
      if ops == [] {
        return None;
      }
      WriteLands(accepts, View(), did, ops, st);
      var prior, base := OpenBase(did, st);
      ghost var seeded := if prior.None? then {EmptyTree(), base.content} else {};
      PrepareRecords(ops);
      PutTwice(old(blocks), seeded, RecordBlocks(ops));
      var tree := MutateTree(accepts, Entries(base), ops);
      if tree.None? {
        return None;
      }
      var body := Finish(did, prior, base, ops, tree.value, st, old(View()));
      r := Some(body);
    }

    /** `add_raw`, `update_raw` or `delete_raw`: the record block and the edited map. */
    method EditTree(tree: map<Key, Cid>, op: WriteOp) returns (m: map<Key, Cid>)
      requires WellAddressed(blocks)
      modifies this`blocks
      ensures WellAddressed(blocks) && blocks == PutAll(old(blocks), if op.Delete? then {} else {Record(op.record)})
      ensures m == ApplyOp(tree, op)
    {
      match op {
        case Create(k, bytes) =>
          var cid := PutBlock(Record(bytes));
          m := tree[k := cid];
        case Update(k, bytes) =>
          var cid := PutBlock(Record(bytes));
          m := tree[k := cid];
        case Delete(k) =>
          m := tree - {k};
      }
    }

    /** `commit_op` under the lock: one operation, encoded and applied to the open tree. */
    method CommitOp(accepts: Accepts, did: Did, op: WriteOp, st: Stamp) returns (r: Option<CommitBody>)
      requires WellAddressed(blocks) && (did in roots ==> IsCommit(roots[did]))
      modifies this
      ensures WellAddressed(blocks)
      ensures r.Some? <==> Admitted(accepts, old(MapOf(View(), did)), [op])
      ensures r.Some? ==> Landed(old(View()), View(), did, [op], st, r.value)
      ensures r.Some? ==> Write(accepts, old(View()), did, [op], st) == Some(View())
      ensures r.Some? ==> log == old(log) + [Row(old(counter) + 1, r, false)]
      ensures r.None? ==> roots == old(roots) && log == old(log) && counter == old(counter)
      ensures r.None? ==> forall c :: c in old(blocks) ==> c in blocks && blocks[c] == old(blocks)[c]
    {
      WriteLands(accepts, View(), did, [op], st);
      var prior, base := OpenBase(did, st);
      ghost var seeded := if prior.None? then {EmptyTree(), base.content} else {};
      var tree := Entries(base);
      OneOp(accepts, tree, op);
      var m := EditTree(tree, op);
      if !accepts(tree, op) {
        return None;
      }
      PutTwice(old(blocks), seeded, RecordBlocks([op]));
      var body := Finish(did, prior, base, [op], m, st, old(View()));
      r := Some(body);
    }
  }

  /** Applies the operations in order to one open tree, stopping at the first refusal. */
  method MutateTree(accepts: Accepts, m: map<Key, Cid>, ops: seq<WriteOp>) returns (r: Option<map<Key, Cid>>)
    ensures r == TryOps(accepts, m, ops)
  {
    var tree := m;
    for i := 0 to |ops|
      invariant TryOps(accepts, m, ops[..i]) == Some(tree)
    {
      assert ops[..i + 1][..i] == ops[..i];
      if !accepts(tree, ops[i]) {
        Refused(accepts, m, ops, i);
        return None;
      }
      tree := ApplyOp(tree, ops[i]);
    }
    assert ops[..|ops|] == ops;
    r := Some(tree);
  }

  lemma OneOp(accepts: Accepts, m: map<Key, Cid>, op: WriteOp)
    ensures TryOps(accepts, m, [op]) == if accepts(m, op) then Some(ApplyOp(m, op)) else None
    ensures RecordBlocks([op]) == if op.Delete? then {} else {Record(op.record)}
  {
    assert [op][..0] == [];
    assert TryOps(accepts, m, []) == Some(m);
    assert op in [op];
  }

  lemma PutTwice(stored: map<Cid, Block>, a: set<Block>, b: set<Block>)
    ensures PutAll(PutAll(stored, a), b) == PutAll(stored, a + b)
  {
    assert CidsOf(a + b) == CidsOf(a) + CidsOf(b);
  }

  lemma PutNext(stored: map<Cid, Block>, batch: seq<Block>, i: nat)
    requires i < |batch|
    ensures PutAll(PutAll(stored, Contents(batch[..i])), {batch[i]}) == PutAll(stored, Contents(batch[..i + 1]))
  {
    PutTwice(stored, Contents(batch[..i]), {batch[i]});
    assert batch[..i + 1] == batch[..i] + [batch[i]];
    assert Contents(batch[..i + 1]) == Contents(batch[..i]) + {batch[i]};
  }

  lemma RecordsGrow(ops: seq<WriteOp>, i: nat)
    requires i < |ops|
    ensures RecordBlocks(ops[..i + 1]) ==
            RecordBlocks(ops[..i]) + (if ops[i].Delete? then {} else {Record(ops[i].record)})
  {
    assert ops[..i + 1] == ops[..i] + [ops[i]];
  }

  /** A refused operation refuses every longer batch. */
  lemma {:induction false} Refused(accepts: Accepts, m: map<Key, Cid>, ops: seq<WriteOp>, i: nat)
    requires i < |ops| && TryOps(accepts, m, ops[..i + 1]).None?
    ensures TryOps(accepts, m, ops).None?
  {
    if i + 1 < |ops| {
      assert ops[..|ops| - 1][..i + 1] == ops[..i + 1];
      Refused(accepts, m, ops[..|ops| - 1], i);
    } else {
      assert ops[..i + 1] == ops;
    }
  }
}
