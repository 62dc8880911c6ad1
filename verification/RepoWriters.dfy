/** Concurrent writers of many repos, interleaved at every await: each takes the lock its repo
    has in the shared table, loads the root, commits and publishes before letting go. */
module RepoWriters {
  import opened Wrappers
  import opened RepoData
  import opened FirehoseLog
  import opened RepoEngine
  import opened RepoHistory

  // ---- the table of write locks ----

  /** The lock of a repo: the one in the table, or a new one. Locks are numbered as made. */
  function LockFor(table: map<Did, nat>, did: Did): nat { if did in table then table[did] else |table| }

  /** Different repos have different locks. */
  ghost predicate TableOk(table: map<Did, nat>) {
    && (forall d :: d in table ==> table[d] < |table|)
    && (forall d, e :: d in table && e in table && table[d] == table[e] ==> d == e)
  }

  class DidLocks {
    var table: map<Did, nat>

    constructor ()
      ensures table == map[] && TableOk(table)
    {
      table := map[];
    }

    /** The get-or-insert of `build_writer`: every caller for one repo gets the same lock, and
        no lock is ever shared by two repos or replaced. */
    method Get(did: Did) returns (lock: nat)
      requires TableOk(table)
      modifies this
      ensures TableOk(table) && did in table && lock == table[did] == LockFor(old(table), did)
      ensures table == old(table)[did := lock]
      ensures forall d :: d in old(table) ==> d in table && table[d] == old(table)[d]
    {
      if did !in table {
        table := table[did := |table|];
      }
      lock := table[did];
    }
  }

  // ---- concurrent writers ----

  /** `publish` tells `apply_one`, which sends its event, from the calls that leave it to their caller. */
  datatype Job = Job(did: Did, ops: seq<WriteOp>, stamp: Stamp, publish: bool)
  datatype Phase = Waiting | Held | Loaded(prior: Option<Cid>) | Sending(frame: Frame) | Finished(ok: bool)
  datatype Writer = Writer(job: Job, lock: nat, phase: Phase)

  /** `held` maps a taken lock to its writer, and `published` is all the channel was ever given.
      `loud` is bookkeeping that no step reads: which log rows publishing jobs committed. */
  datatype State = State(
    store: Store, table: map<Did, nat>, held: map<nat, nat>, writers: map<nat, Writer>,
    published: seq<Frame>, loud: seq<bool>)

  /** `Put` stands for any block write by anyone; blocks are only ever added. */
  datatype Step =
    | Start(w: nat, job: Job)
    | Acquire(w: nat)
    | Load(w: nat)
    | Put(blocks: set<Block>)
    | Finish(w: nat)
    | Send(w: nat)
    | Abort(w: nat)

  function Plan(accepts: Accepts, w: Writer): Option<map<Key, Cid>>
    requires w.phase.Loaded?
  {
    TryOps(accepts, BaseMap(w.job.did, w.phase.prior, w.job.stamp), w.job.ops)
  }

  predicate Enabled(accepts: Accepts, s: State, step: Step) {
    match step
    case Start(w, job) => w !in s.writers && job.ops != [] && (job.publish ==> |job.ops| == 1)
    case Acquire(w) => w in s.writers && s.writers[w].phase.Waiting? && s.writers[w].lock !in s.held
    case Load(w) => w in s.writers && s.writers[w].phase.Held?
    case Put(_) => true
    case Finish(w) => w in s.writers && s.writers[w].phase.Loaded? && Plan(accepts, s.writers[w]).Some?
    case Send(w) => w in s.writers && s.writers[w].phase.Sending?
    case Abort(w) => w in s.writers && (s.writers[w].phase.Held? || s.writers[w].phase.Loaded?)
  }

  function Move(s: State, w: nat, phase: Phase): map<nat, Writer>
    requires w in s.writers
  {
    s.writers[w := s.writers[w].(phase := phase)]
  }

  function Apply(accepts: Accepts, s: State, step: Step): State
    requires Enabled(accepts, s, step)
  {
    match step
    case Start(w, job) =>
      var lock := LockFor(s.table, job.did);
      s.(table := s.table[job.did := lock], writers := s.writers[w := Writer(job, lock, Waiting)])
    case Acquire(w) => s.(held := s.held[s.writers[w].lock := w], writers := Move(s, w, Held))
    case Load(w) => s.(writers := Move(s, w, Loaded(RootOf(s.store, s.writers[w].job.did))))
    case Put(blocks) => s.(store := s.store.(blocks := PutAll(s.store.blocks, blocks)))
    case Finish(w) =>
      var wr := s.writers[w];
      var store := Committed(s.store, wr.job.did, wr.phase.prior, wr.job.ops, Plan(accepts, wr).value, wr.job.stamp);
      s.(store := store, loud := s.loud + [wr.job.publish],
         writers := Move(s, w, Sending(FrameOf(store.log[|s.store.log|]))))
    case Send(w) =>
      s.(published := if s.writers[w].job.publish then s.published + [s.writers[w].phase.frame] else s.published,
         held := s.held - {s.writers[w].lock}, writers := Move(s, w, Finished(true)))
    case Abort(w) => s.(held := s.held - {s.writers[w].lock}, writers := Move(s, w, Finished(false)))
  }

  predicate Inside(w: Writer) { w.phase.Held? || w.phase.Loaded? || w.phase.Sending? }

  /** Every writer carries its repo's lock. */
  ghost predicate LocksShared(table: map<Did, nat>, writers: map<nat, Writer>) {
    && TableOk(table)
    && (forall w :: w in writers ==> writers[w].job.did in table && table[writers[w].job.did] == writers[w].lock)
  }

  /** The writers past their lock are exactly the holders of the taken locks. */
  ghost predicate LocksHeld(held: map<nat, nat>, writers: map<nat, Writer>) {
    && (forall w :: w in writers && Inside(writers[w]) ==> writers[w].lock in held && held[writers[w].lock] == w)
    && (forall k :: k in held ==> held[k] in writers && writers[held[k]].lock == k && Inside(writers[held[k]]))
  }

  /** The root a writer loaded is still the stored one. */
  ghost predicate RootsCurrent(s: State) {
    forall w :: w in s.writers && s.writers[w].phase.Loaded? ==>
      s.writers[w].phase.prior == RootOf(s.store, s.writers[w].job.did)
  }

  ghost predicate LocksOk(s: State) {
    LocksShared(s.table, s.writers) && LocksHeld(s.held, s.writers) && RootsCurrent(s)
  }

  lemma TableGrows(table: map<Did, nat>, did: Did)
    requires TableOk(table)
    ensures TableOk(table[did := LockFor(table, did)])
    ensures forall d :: d in table ==> table[did := LockFor(table, did)][d] == table[d]
  {
  }

  lemma StartKeepsShared(table: map<Did, nat>, writers: map<nat, Writer>, w: nat, job: Job)
    requires LocksShared(table, writers)
    ensures var k := LockFor(table, job.did); LocksShared(table[job.did := k], writers[w := Writer(job, k, Waiting)])
  {
    TableGrows(table, job.did);
  }

  lemma StepKeepsShared(accepts: Accepts, s: State, step: Step)
    requires LocksShared(s.table, s.writers) && Enabled(accepts, s, step)
    ensures var t := Apply(accepts, s, step); LocksShared(t.table, t.writers)
  {
    if step.Start? {
      StartKeepsShared(s.table, s.writers, step.w, step.job);
    }
  }

  lemma AcquireKeepsHeld(held: map<nat, nat>, writers: map<nat, Writer>, w: nat)
    requires LocksHeld(held, writers) && w in writers && !Inside(writers[w]) && writers[w].lock !in held
    ensures LocksHeld(held[writers[w].lock := w], writers[w := writers[w].(phase := Held)])
  {
  }

  lemma ReleaseKeepsHeld(held: map<nat, nat>, writers: map<nat, Writer>, w: nat, ok: bool)
    requires LocksHeld(held, writers) && w in writers && Inside(writers[w])
    ensures LocksHeld(held - {writers[w].lock}, writers[w := writers[w].(phase := Finished(ok))])
  {
  }

  lemma MoveKeepsHeld(held: map<nat, nat>, writers: map<nat, Writer>, w: nat, wr: Writer)
    requires LocksHeld(held, writers) && (w in writers ==> wr.lock == writers[w].lock)
    requires Inside(wr) <==> w in writers && Inside(writers[w])
    ensures LocksHeld(held, writers[w := wr])
  {
  }

  lemma StepKeepsHeld(accepts: Accepts, s: State, step: Step)
    requires LocksHeld(s.held, s.writers) && Enabled(accepts, s, step)
    ensures var t := Apply(accepts, s, step); LocksHeld(t.held, t.writers)
  {
    match step
    case Acquire(w) => AcquireKeepsHeld(s.held, s.writers, w);
    case Send(w) => ReleaseKeepsHeld(s.held, s.writers, w, true);
    case Abort(w) => ReleaseKeepsHeld(s.held, s.writers, w, false);
    case Put(_) =>
    case _ => MoveKeepsHeld(s.held, s.writers, step.w, Apply(accepts, s, step).writers[step.w]);
  }

  /** At most one writer of a repo is past the lock. */
  lemma OneInside(s: State, v: nat, w: nat)
    requires LocksShared(s.table, s.writers) && LocksHeld(s.held, s.writers) && v in s.writers && w in s.writers
    requires Inside(s.writers[v]) && Inside(s.writers[w]) && s.writers[v].job.did == s.writers[w].job.did
    ensures v == w
  {
    assert s.held[s.writers[v].lock] == v;
  }

  lemma FinishKeepsRoots(accepts: Accepts, s: State, w: nat)
    requires LocksOk(s) && Enabled(accepts, s, Finish(w))
    ensures RootsCurrent(Apply(accepts, s, Finish(w)))
  {
    var t := Apply(accepts, s, Finish(w));
    forall v | v in t.writers && t.writers[v].phase.Loaded?
      ensures t.writers[v].phase.prior == RootOf(t.store, t.writers[v].job.did)
    {
      if s.writers[v].job.did == s.writers[w].job.did {
        OneInside(s, v, w);
      }
    }
  }

  lemma StepKeepsRoots(accepts: Accepts, s: State, step: Step)
    requires LocksOk(s) && Enabled(accepts, s, step)
    ensures RootsCurrent(Apply(accepts, s, step))
  {
    if step.Finish? {
      FinishKeepsRoots(accepts, s, step.w);
    }
  }

  lemma StepKeepsLocks(accepts: Accepts, s: State, step: Step)
    requires LocksOk(s) && Enabled(accepts, s, step)
    ensures LocksOk(Apply(accepts, s, step))
  {
    StepKeepsShared(accepts, s, step);
    StepKeepsHeld(accepts, s, step);
    StepKeepsRoots(accepts, s, step);
  }

  lemma StepKeepsHistory(accepts: Accepts, s: State, step: Step)
    requires StoreOk(s.store) && LocksOk(s) && Enabled(accepts, s, step)
    ensures StoreOk(Apply(accepts, s, step).store) && LocksOk(Apply(accepts, s, step))
  {
    StepKeepsLocks(accepts, s, step);
    match step
    case Put(blocks) => PutKeepsStore(s.store, blocks);
    case Finish(w) =>
      var wr := s.writers[w];
      CommitKeepsStore(accepts, s.store, wr.job.did, wr.job.ops, Plan(accepts, wr).value, wr.job.stamp);
    case _ =>
  }

  ghost predicate Legal(accepts: Accepts, s: State, steps: seq<Step>)
    decreases |steps|
  {
    steps == [] || (Enabled(accepts, s, steps[0]) && Legal(accepts, Apply(accepts, s, steps[0]), steps[1..]))
  }

  function Exec(accepts: Accepts, s: State, steps: seq<Step>): State
    requires Legal(accepts, s, steps)
    decreases |steps|
  {
    if steps == [] then s else Exec(accepts, Apply(accepts, s, steps[0]), steps[1..])
  }

  lemma {:induction false} RunKeepsHistory(accepts: Accepts, s: State, steps: seq<Step>)
    requires StoreOk(s.store) && LocksOk(s) && Legal(accepts, s, steps)
    ensures StoreOk(Exec(accepts, s, steps).store) && LocksOk(Exec(accepts, s, steps))
    decreases |steps|
  {
    if steps == [] {
    } else {
      StepKeepsHistory(accepts, s, steps[0]);
      RunKeepsHistory(accepts, Apply(accepts, s, steps[0]), steps[1..]);
    }
  }

  const EMPTY := State(Store(map[], map[], [], 0), map[], map[], map[], [], [])

  /** After any interleaving of single and batch writes, for every repo: replaying its log
      rows over the empty map gives the record map at its stored root. */
  lemma LogReplayRebuildsRepo(accepts: Accepts, steps: seq<Step>, did: Did)
    requires Legal(accepts, EMPTY, steps)
    ensures var t := Exec(accepts, EMPTY, steps).store;
      Replay(RowsOf(t.log, did)) == MapAt(RootOf(t, did))
  {
    RunKeepsHistory(accepts, EMPTY, steps);
    var t := Exec(accepts, EMPTY, steps).store;
    LinkedReplays(did, RootOf(t, did), RowsOf(t.log, did));
  }

  /** After any interleaving, following `prev` from a stored root meets the commits of the
      repo's n rows newest to oldest and then, after n steps, its empty initial commit. */
  lemma HistoryIsLinear(accepts: Accepts, steps: seq<Step>, did: Did)
    requires Legal(accepts, EMPTY, steps)
    ensures var t := Exec(accepts, EMPTY, steps).store; did in t.roots <==> RowsOf(t.log, did) != []
    ensures var t := Exec(accepts, EMPTY, steps).store; var rows := RowsOf(t.log, did); did in t.roots ==>
      && |Ancestry(t.roots[did])| == |rows| + 1
      && Ancestry(t.roots[did])[..|rows|] == Announced(rows)
      && IsInitial(Ancestry(t.roots[did])[|rows|], did)
  {
    RunKeepsHistory(accepts, EMPTY, steps);
    var t := Exec(accepts, EMPTY, steps).store;
    var rows := RowsOf(t.log, did);
    assert Linked(did, RootOf(t, did), rows);
    if rows != [] {
      LinkedIsLinear(did, RootOf(t, did), rows);
    }
  }

  /** After any interleaving, a row's `since` is the previous row's rev, absent on the first only. */
  lemma SinceFollowsHistory(accepts: Accepts, steps: seq<Step>, did: Did)
    requires Legal(accepts, EMPTY, steps)
    ensures SinceOk(RowsOf(Exec(accepts, EMPTY, steps).store.log, did))
  {
    RunKeepsHistory(accepts, EMPTY, steps);
    var t := Exec(accepts, EMPTY, steps).store;
    LinkedSince(did, RootOf(t, did), RowsOf(t.log, did));
  }

  /** After any interleaving, every block reachable from a stored root, through every earlier
      commit, is stored under the CID of its own contents. */
  lemma StorageIsClosed(accepts: Accepts, steps: seq<Step>, did: Did)
    requires Legal(accepts, EMPTY, steps)
    ensures var t := Exec(accepts, EMPTY, steps).store;
      WellAddressed(t.blocks) && (did in t.roots ==> Closed(t.roots[did], t.blocks))
  {
    RunKeepsHistory(accepts, EMPTY, steps);
  }

  // ---- publishing ----

  /** The events of one repo, in the order given. */
  function EventsOf(events: seq<Frame>, did: Did): seq<Frame> {
    if events == [] then []
    else
      var e := events[|events| - 1];
      EventsOf(events[..|events| - 1], did) + (if e.body.repo == did then [e] else [])
  }

  function FramesOf(rows: seq<Row>): seq<Frame> {
    if rows == [] then []
    else
      var r := rows[|rows| - 1];
      FramesOf(rows[..|rows| - 1]) + (if r.event.Some? then [FrameOf(r)] else [])
  }

  lemma EventsGrow(events: seq<Frame>, e: Frame, did: Did)
    ensures EventsOf(events + [e], did) == EventsOf(events, did) + (if e.body.repo == did then [e] else [])
  {
    assert (events + [e])[..|events|] == events;
  }

  predicate OfRepo(r: Row, did: Did) { r.event.Some? && r.event.value.repo == did }

  /** The frames of a repo's rows that publishing jobs committed, in log order. */
  function Due(log: seq<Row>, loud: seq<bool>, did: Did): seq<Frame>
    requires |loud| == |log|
  {
    if log == [] then []
    else
      var n := |log| - 1;
      Due(log[..n], loud[..n], did) + (if loud[n] && OfRepo(log[n], did) then [FrameOf(log[n])] else [])
  }

  lemma DueGrows(log: seq<Row>, loud: seq<bool>, r: Row, l: bool, did: Did)
    requires |loud| == |log|
    ensures Due(log + [r], loud + [l], did) ==
            Due(log, loud, did) + (if l && OfRepo(r, did) then [FrameOf(r)] else [])
  {
    assert (log + [r])[..|log|] == log && (loud + [l])[..|loud|] == loud;
  }

  lemma FramesGrow(log: seq<Row>, r: Row, did: Did)
    ensures FramesOf(RowsOf(log + [r], did)) ==
            FramesOf(RowsOf(log, did)) + (if OfRepo(r, did) then [FrameOf(r)] else [])
  {
    RowsGrow(log, r, did);
    var rows := RowsOf(log, did);
    assert rows + [] == rows && (rows + [r])[..|rows|] == rows;
  }

  /** Every row of the repo was committed by a publishing job. */
  ghost predicate AllLoud(log: seq<Row>, loud: seq<bool>, did: Did)
    requires |loud| == |log|
  {
    forall i :: 0 <= i < |log| && OfRepo(log[i], did) ==> loud[i]
  }

  lemma {:induction false} LoudSplit(log: seq<Row>, loud: seq<bool>, did: Did)
    requires |loud| == |log| && log != []
    ensures var n := |log| - 1;
      AllLoud(log, loud, did) <==> AllLoud(log[..n], loud[..n], did) && (OfRepo(log[n], did) ==> loud[n])
  {
    var n := |log| - 1;
    assert forall i :: 0 <= i < n ==> log[..n][i] == log[i] && loud[..n][i] == loud[i];
  }

  lemma {:induction false} DueStep(due: seq<Frame>, all: seq<Frame>, d: seq<Frame>, f: seq<Frame>, loudFront: bool)
    requires |due| <= |all| && (|due| == |all| <==> loudFront) && (loudFront ==> due == all)
    requires d == f || d == []
    ensures |due + d| <= |all + f|
    ensures |due + d| == |all + f| <==> loudFront && d == f
    ensures |due + d| == |all + f| ==> due + d == all + f
  {
    if d == [] && f != [] {
      assert |due + d| < |all + f|;
    }
  }

  /** Every row of the repo is due exactly when none was committed by a job that does not publish. */
  lemma {:induction false} AllDueIff(log: seq<Row>, loud: seq<bool>, did: Did)
    requires |loud| == |log|
    ensures |Due(log, loud, did)| <= |FramesOf(RowsOf(log, did))|
    ensures |Due(log, loud, did)| == |FramesOf(RowsOf(log, did))| <==> AllLoud(log, loud, did)
    ensures AllLoud(log, loud, did) ==> Due(log, loud, did) == FramesOf(RowsOf(log, did))
  {
    if log == [] {
    } else {
      var n := |log| - 1;
      var front, quiet, r, l := log[..n], loud[..n], log[n], loud[n];
      assert log == front + [r] && loud == quiet + [l];
      AllDueIff(front, quiet, did);
      DueGrows(front, quiet, r, l, did);
      FramesGrow(front, r, did);
      LoudSplit(log, loud, did);
      DueStep(Due(front, quiet, did), FramesOf(RowsOf(front, did)),
              if l && OfRepo(r, did) then [FrameOf(r)] else [], if OfRepo(r, did) then [FrameOf(r)] else [],
              AllLoud(front, quiet, did));
    }
  }

  /** The event of a repo that was committed and is about to be sent. */
  function Unsent(s: State, did: Did): seq<Frame> {
    if did in s.table && s.table[did] in s.held && s.held[s.table[did]] in s.writers then
      var w := s.writers[s.held[s.table[did]]];
      if w.phase.Sending? && w.job.publish then [w.phase.frame] else []
    else []
  }

  ghost predicate SentOk(s: State, did: Did) {
    |s.loud| == |s.store.log| && Due(s.store.log, s.loud, did) == EventsOf(s.published, did) + Unsent(s, did)
  }

  ghost predicate FramesOk(s: State) {
    forall w :: w in s.writers && s.writers[w].phase.Sending? ==>
      s.writers[w].phase.frame.body.repo == s.writers[w].job.did
  }

  lemma NothingUnsent(s: State, w: nat, did: Did)
    requires LocksOk(s) && w in s.writers && s.writers[w].phase.Loaded?
    ensures s.writers[w].job.did == did ==> Unsent(s, did) == []
  {
  }

  lemma FinishUnsent(accepts: Accepts, s: State, w: nat, did: Did)
    requires LocksOk(s) && Enabled(accepts, s, Finish(w))
    ensures var t := Apply(accepts, s, Finish(w));
      Unsent(t, did) ==
      if s.writers[w].job.did != did then Unsent(s, did)
      else if s.writers[w].job.publish then [FrameOf(t.store.log[|s.store.log|])] else []
  {
  }

  lemma FinishRows(accepts: Accepts, s: State, w: nat, did: Did)
    requires Enabled(accepts, s, Finish(w)) && |s.loud| == |s.store.log|
    ensures var t := Apply(accepts, s, Finish(w));
      && |t.loud| == |t.store.log|
      && Due(t.store.log, t.loud, did) == Due(s.store.log, s.loud, did) +
         (if s.writers[w].job.did == did && s.writers[w].job.publish then [FrameOf(t.store.log[|s.store.log|])] else [])
  {
    var t := Apply(accepts, s, Finish(w));
    DueGrows(s.store.log, s.loud, t.store.log[|s.store.log|], s.writers[w].job.publish, did);
  }

  lemma FinishKeepsSent(accepts: Accepts, s: State, w: nat, did: Did)
    requires LocksOk(s) && SentOk(s, did) && Enabled(accepts, s, Finish(w))
    ensures SentOk(Apply(accepts, s, Finish(w)), did)
  {
    NothingUnsent(s, w, did);
    FinishUnsent(accepts, s, w, did);
    FinishRows(accepts, s, w, did);
  }

  lemma SendKeepsSent(accepts: Accepts, s: State, w: nat, did: Did)
    requires LocksOk(s) && FramesOk(s) && SentOk(s, did) && Enabled(accepts, s, Send(w))
    ensures SentOk(Apply(accepts, s, Send(w)), did)
  {
    EventsGrow(s.published, s.writers[w].phase.frame, did);
  }

  lemma QuietStep(accepts: Accepts, s: State, step: Step, did: Did)
    requires LocksOk(s) && Enabled(accepts, s, step) && !step.Finish? && !step.Send?
    ensures Unsent(Apply(accepts, s, step), did) == Unsent(s, did)
  {
  }

  lemma StepKeepsSent(accepts: Accepts, s: State, step: Step, did: Did)
    requires LocksOk(s) && FramesOk(s) && SentOk(s, did) && Enabled(accepts, s, step)
    ensures SentOk(Apply(accepts, s, step), did)
  {
    match step
    case Finish(w) => FinishKeepsSent(accepts, s, w, did);
    case Send(w) => SendKeepsSent(accepts, s, w, did);
    case _ => QuietStep(accepts, s, step, did);
  }

  lemma StepKeepsFrames(accepts: Accepts, s: State, step: Step)
    requires FramesOk(s) && Enabled(accepts, s, step)
    ensures FramesOk(Apply(accepts, s, step))
  {
  }

  lemma {:induction false} RunKeepsSent(accepts: Accepts, s: State, steps: seq<Step>, did: Did)
    requires LocksOk(s) && FramesOk(s) && SentOk(s, did) && Legal(accepts, s, steps)
    ensures SentOk(Exec(accepts, s, steps), did)
    decreases |steps|
  {
    if steps == [] {
    } else {
      StepKeepsSent(accepts, s, steps[0], did);
      StepKeepsLocks(accepts, s, steps[0]);
      StepKeepsFrames(accepts, s, steps[0]);
      RunKeepsSent(accepts, Apply(accepts, s, steps[0]), steps[1..], did);
    }
  }

  /** After any interleaving, for every repo: the events published are the rows its publishing
      jobs committed, in seq order, short of at most the one its lock holder is about to send.
      So publish order is seq order among the writers of one lock, and every row of the repo is
      published or about to be exactly when all its commits came from publishing jobs. */
  lemma {:induction false} LockedWritersPublishInOrder(accepts: Accepts, steps: seq<Step>, did: Did)
    requires Legal(accepts, EMPTY, steps)
    ensures var t := Exec(accepts, EMPTY, steps); var log, sent := t.store.log, EventsOf(t.published, did);
      && |t.loud| == |log| && sent + Unsent(t, did) == Due(log, t.loud, did) && |Unsent(t, did)| <= 1
      && (forall i, j :: 0 <= i < j < |sent| ==> sent[i].seqNo < sent[j].seqNo)
      && (sent + Unsent(t, did) == FramesOf(RowsOf(log, did)) <==>
            forall i :: 0 <= i < |log| && OfRepo(log[i], did) ==> t.loud[i])
  {
    RunKeepsSent(accepts, EMPTY, steps, did);
    RunKeepsHistory(accepts, EMPTY, steps);
    SentInOrder(Exec(accepts, EMPTY, steps), did);
  }

  lemma {:induction false} SentInOrder(t: State, did: Did)
    requires SentOk(t, did) && Sorted(t.store.log)
    ensures var log, sent := t.store.log, EventsOf(t.published, did);
      && (forall i, j :: 0 <= i < j < |sent| ==> sent[i].seqNo < sent[j].seqNo)
      && (sent + Unsent(t, did) == FramesOf(RowsOf(log, did)) <==>
            forall i :: 0 <= i < |log| && OfRepo(log[i], did) ==> t.loud[i])
  {
    DueAscends(t.store.log, t.loud, did);
    AllDueIff(t.store.log, t.loud, did);
    var due, sent := Due(t.store.log, t.loud, did), EventsOf(t.published, did);
    assert forall i :: 0 <= i < |sent| ==> due[i] == sent[i];
  }

  ghost predicate Ascends(frames: seq<Frame>, max: int) {
    && (forall i :: 0 <= i < |frames| ==> frames[i].seqNo <= max)
    && (forall i, j :: 0 <= i < j < |frames| ==> frames[i].seqNo < frames[j].seqNo)
  }

  lemma {:induction false} DueAscends(log: seq<Row>, loud: seq<bool>, did: Did)
    requires Sorted(log) && |loud| == |log|
    ensures Ascends(Due(log, loud, did), MaxSeq(log))
  {
    if log == [] {
    } else {
      var n := |log| - 1;
      DueAscends(log[..n], loud[..n], did);
      var front := Due(log[..n], loud[..n], did);
      assert n > 0 ==> log[n - 1].seqNo < log[n].seqNo;
      assert Ascends(front, log[n].seqNo - 1);
      if loud[n] && OfRepo(log[n], did) {
        assert Due(log, loud, did) == front + [FrameOf(log[n])];
      } else {
        assert Due(log, loud, did) == front;
      }
    }
  }
}
