/** The writers of one repo and a subscriber on one server: the subscriber reads the log and the
    channel that the writers fill. As long as every commit comes from a job that publishes, a
    run of the two together is a run of the firehose machine under one lock, and the subscriber
    is served completely; one commit that does not publish is enough for some subscriber to miss
    a row. */
module FirehoseEndToEnd {
  import opened Wrappers
  import opened RepoData
  import opened FirehoseLog
  import opened RepoEngine
  import Writers = RepoWriters
  import Machine = FirehoseMachine
  import Order = FirehoseOrder

  /** `floor` rows were logged before the server started. */
  datatype World = World(repo: Writers.State, cap: nat, floor: nat, sub: Machine.Sub)

  datatype Step = Write(w: Writers.Step) | Read(r: Machine.Step)

  /** The world as the firehose machine sees it: what the lock holder is about to send is pending. */
  function View(x: World, did: Did): Machine.State {
    Machine.State(x.cap, x.floor, x.repo.store.log, x.repo.published, Writers.Unsent(x.repo, did), x.sub)
  }

  ghost predicate LogOk(s: Store) { Sorted(s.log) && MaxSeq(s.log) <= s.counter }

  /** A server starts over any log, whatever rows in it no longer decode, with no writer and no
      subscriber. */
  ghost predicate Init(x: World) {
    && 0 < x.cap && LogOk(x.repo.store) && x.floor == |x.repo.store.log| && x.sub == Machine.IDLE
    && x.repo == Writers.State(x.repo.store, map[], map[], map[], [], x.repo.loud)
  }

  predicate Enabled(accepts: Accepts, did: Did, x: World, step: Step) {
    match step
    case Write(w) => Writers.Enabled(accepts, x.repo, w) && (w.Start? ==> w.job.did == did)
    case Read(r) => !Order.IsWrite(r) && Machine.Enabled(View(x, did), r)
  }

  function Apply(accepts: Accepts, did: Did, x: World, step: Step): World
    requires Enabled(accepts, did, x, step)
  {
    match step
    case Write(w) => x.(repo := Writers.Apply(accepts, x.repo, w))
    case Read(r) => x.(sub := Machine.Apply(View(x, did), r).sub)
  }

  ghost predicate Legal(accepts: Accepts, did: Did, x: World, steps: seq<Step>)
    decreases |steps|
  {
    steps == [] ||
    (Enabled(accepts, did, x, steps[0]) && Legal(accepts, did, Apply(accepts, did, x, steps[0]), steps[1..]))
  }

  function Exec(accepts: Accepts, did: Did, x: World, steps: seq<Step>): World
    requires Legal(accepts, did, x, steps)
    decreases |steps|
  {
    if steps == [] then x else Exec(accepts, did, Apply(accepts, did, x, steps[0]), steps[1..])
  }

  ghost predicate SoleRepo(writers: map<nat, Writers.Writer>, did: Did) {
    forall w :: w in writers ==> writers[w].job.did == did
  }

  /** Every writer is a writer of `did`, and the log and the locks are in order. */
  ghost predicate Inv(s: Writers.State, did: Did) {
    LogOk(s.store) && Writers.LocksOk(s) && SoleRepo(s.writers, did)
  }

  lemma {:induction false} StepKeepsSole(accepts: Accepts, did: Did, s: Writers.State, w: Writers.Step)
    requires SoleRepo(s.writers, did) && Writers.Enabled(accepts, s, w) && (w.Start? ==> w.job.did == did)
    ensures SoleRepo(Writers.Apply(accepts, s, w).writers, did)
  {
  }

  lemma {:induction false} StepKeepsLog(accepts: Accepts, s: Writers.State, w: Writers.Step)
    requires LogOk(s.store) && Writers.Enabled(accepts, s, w)
    ensures LogOk(Writers.Apply(accepts, s, w).store)
  {
  }

  lemma {:induction false} StepKeepsInv(accepts: Accepts, did: Did, x: World, step: Step)
    requires Inv(x.repo, did) && Enabled(accepts, did, x, step)
    ensures Inv(Apply(accepts, did, x, step).repo, did)
  {
    if step.Write? {
      Writers.StepKeepsLocks(accepts, x.repo, step.w);
      StepKeepsLog(accepts, x.repo, step.w);
      StepKeepsSole(accepts, did, x.repo, step.w);
    }
  }

  // ---- every commit publishes ----

  /** A commit by a job that leaves its event to its caller. */
  predicate CommitsQuietly(s: Writers.State, w: Writers.Step) {
    w.Finish? && w.w in s.writers && !s.writers[w.w].job.publish
  }

  predicate Loud(x: World, step: Step) { step.Write? ==> !CommitsQuietly(x.repo, step.w) }

  ghost predicate LoudRun(accepts: Accepts, did: Did, x: World, steps: seq<Step>)
    requires Legal(accepts, did, x, steps)
    decreases |steps|
  {
    steps == [] || (Loud(x, steps[0]) && LoudRun(accepts, did, Apply(accepts, did, x, steps[0]), steps[1..]))
  }

  // ---- refinement ----

  /** The firehose machine's step for a step of the world, if it has one. */
  function Image(accepts: Accepts, did: Did, x: World, step: Step): Option<Machine.Step>
    requires MaxSeq(x.repo.store.log) <= x.repo.store.counter && Enabled(accepts, did, x, step)
  {
    match step
    case Read(r) => Some(r)
    case Write(w) =>
      if w.Finish? then
        var row := Writers.Apply(accepts, x.repo, w).store.log[|x.repo.store.log|];
        Some(Machine.Commit(x.repo.store.counter - MaxSeq(x.repo.store.log), row.event.value))
      else if w.Send? && x.repo.writers[w.w].job.publish then Some(Machine.Publish(0))
      else None
  }

  /** A finished writer appends one row under the next seq and publishes nothing yet. */
  lemma {:induction false} FinishLogs(accepts: Accepts, s: Writers.State, w: nat)
    requires Writers.Enabled(accepts, s, Writers.Finish(w))
    ensures var t := Writers.Apply(accepts, s, Writers.Finish(w)); var row := t.store.log[|s.store.log|];
      && t.store.log == s.store.log + [Row(s.store.counter + 1, Some(row.event.value), false)]
      && t.published == s.published
  {
  }

  lemma {:induction false} CommitView(x: World, y: World, did: Did, row: Row)
    requires y == x.(repo := y.repo) && MaxSeq(x.repo.store.log) <= x.repo.store.counter
    requires row.event.Some? && row == Row(x.repo.store.counter + 1, Some(row.event.value), false)
    requires y.repo.store.log == x.repo.store.log + [row] && y.repo.published == x.repo.published
    requires Writers.Unsent(x.repo, did) == [] && Writers.Unsent(y.repo, did) == [FrameOf(row)]
    ensures View(y, did) ==
            Machine.Apply(View(x, did),
                          Machine.Commit(x.repo.store.counter - MaxSeq(x.repo.store.log), row.event.value))
  {
  }

  /** A commit that publishes is a machine commit, made with nothing pending. */
  lemma {:induction false} FinishRefines(accepts: Accepts, did: Did, x: World, w: nat)
    requires Writers.LocksOk(x.repo) && MaxSeq(x.repo.store.log) <= x.repo.store.counter
    requires Enabled(accepts, did, x, Write(Writers.Finish(w)))
    requires x.repo.writers[w].job.did == did && x.repo.writers[w].job.publish
    ensures View(x, did).pending == []
    ensures var y := Apply(accepts, did, x, Write(Writers.Finish(w)));
      View(y, did) == Machine.Apply(View(x, did), Image(accepts, did, x, Write(Writers.Finish(w))).value)
  {
    var y := Apply(accepts, did, x, Write(Writers.Finish(w)));
    FinishLogs(accepts, x.repo, w);
    Writers.NothingUnsent(x.repo, w, did);
    Writers.FinishUnsent(accepts, x.repo, w, did);
    CommitView(x, y, did, y.repo.store.log[|x.repo.store.log|]);
  }

  /** A send publishes the oldest and only pending event; a job that does not publish sends nothing. */
  lemma {:induction false} SendRefines(accepts: Accepts, did: Did, x: World, w: nat)
    requires Writers.LocksOk(x.repo) && Enabled(accepts, did, x, Write(Writers.Send(w)))
    requires x.repo.writers[w].job.did == did
    ensures var y := Apply(accepts, did, x, Write(Writers.Send(w)));
      if x.repo.writers[w].job.publish then
        View(x, did).pending != [] && View(y, did) == Machine.Apply(View(x, did), Machine.Publish(0))
      else View(y, did) == View(x, did)
  {
    var run := x.repo.writers[w];
    assert Writers.Unsent(x.repo, did) == if run.job.publish then [run.phase.frame] else [];
    assert Writers.Unsent(Writers.Apply(accepts, x.repo, Writers.Send(w)), did) == [];
  }

  /** A step with an image is that machine step, and a commit finds nothing pending; any other
      step is invisible to the machine. */
  lemma {:induction false} StepRefines(accepts: Accepts, did: Did, x: World, step: Step)
    requires Inv(x.repo, did) && Enabled(accepts, did, x, step) && Loud(x, step)
    ensures var image, after := Image(accepts, did, x, step), View(Apply(accepts, did, x, step), did);
      if image.Some? then
        && Machine.Enabled(View(x, did), image.value) && after == Machine.Apply(View(x, did), image.value)
        && (image.value.Commit? ==> View(x, did).pending == [])
      else after == View(x, did)
  {
    if step.Write? {
      if step.w.Finish? {
        assert x.repo.writers[step.w.w].job.did == did;
        FinishRefines(accepts, did, x, step.w.w);
      } else if step.w.Send? {
        assert x.repo.writers[step.w.w].job.did == did;
        SendRefines(accepts, did, x, step.w.w);
      } else {
        Writers.QuietStep(accepts, x.repo, step.w, did);
      }
    }
  }

  /** Every run of the world whose commits publish is a run of the machine whose commits wait for
      the previous send. */
  lemma {:induction false} RunRefines(accepts: Accepts, did: Did, x: World, steps: seq<Step>)
    returns (run: seq<Machine.Step>)
    requires Inv(x.repo, did) && Legal(accepts, did, x, steps) && LoudRun(accepts, did, x, steps)
    ensures Order.Leads(View(x, did), run, View(Exec(accepts, did, x, steps), did))
    ensures Machine.OneLock(View(x, did), run)
    decreases |steps|
  {
    if steps == [] {
      run := [];
    } else {
      var y, image := Apply(accepts, did, x, steps[0]), Image(accepts, did, x, steps[0]);
      StepRefines(accepts, did, x, steps[0]);
      StepKeepsInv(accepts, did, x, steps[0]);
      run := RunRefines(accepts, did, y, steps[1..]);
      if image.Some? {
        Order.LeadsCons(View(x, did), image.value, run, View(Exec(accepts, did, y, steps[1..]), did));
        assert ([image.value] + run)[1..] == run;
        run := [image.value] + run;
      }
    }
  }

  // ---- end to end ----

  /** A subscriber with a cursor was sent exactly the deliverable rows up to the last seq it handled,
      and the whole suffix of the log once it has drained all that is to be sent. */
  ghost predicate Served(y: World, did: Did) {
    y.sub.cursor.Some? ==>
      var log, c, sent := y.repo.store.log, y.sub.cursor.value, y.sub.session.sent;
      && sent == Deliverable(log, c, y.sub.session.last)
      && (y.sub.phase.Live? && y.sub.pos == |y.repo.published| && Writers.Unsent(y.repo, did) == [] ==>
            sent == Deliverable(log, c, MaxSeq(log)))
  }

  /** However publishing writers of one repo and a subscriber are interleaved, over any earlier
      log, the subscriber is served completely. */
  lemma {:induction false} WritersFeedSubscriber(accepts: Accepts, did: Did, x: World, steps: seq<Step>)
    requires Init(x) && Legal(accepts, did, x, steps) && LoudRun(accepts, did, x, steps)
    ensures Served(Exec(accepts, did, x, steps), did)
  {
    var run := RunRefines(accepts, did, x, steps);
    Machine.OneLockPublishesInOrder(View(x, did), run);
    Machine.EmbeddedStreamComplete(View(x, did), run);
    Machine.DrainedStreamIsSuffix(View(x, did), run);
  }

  // ---- publishing every commit is also necessary ----

  /** What the writers did in a run of the world. */
  function WritesOf(steps: seq<Step>): seq<Writers.Step> {
    if steps == [] then []
    else (if steps[0].Write? then [steps[0].w] else []) + WritesOf(steps[1..])
  }

  predicate OneRepo(ws: seq<Writers.Step>, did: Did) {
    forall i :: 0 <= i < |ws| && ws[i].Start? ==> ws[i].job.did == did
  }

  /** Every commit of a writers' run comes from a job that publishes. */
  ghost predicate AllPublish(accepts: Accepts, s: Writers.State, ws: seq<Writers.Step>)
    requires Writers.Legal(accepts, s, ws)
    decreases |ws|
  {
    ws == [] || (!CommitsQuietly(s, ws[0]) && AllPublish(accepts, Writers.Apply(accepts, s, ws[0]), ws[1..]))
  }

  /** However a subscriber is interleaved with any part of the writers' run, it is served completely. */
  ghost predicate ServesEveryone(accepts: Accepts, did: Did, x: World, ws: seq<Writers.Step>) {
    forall steps :: Legal(accepts, did, x, steps) && WritesOf(steps) <= ws ==> Served(Exec(accepts, did, x, steps), did)
  }

  lemma {:induction false} InterleavingIsLoud(
    accepts: Accepts, did: Did, x: World, steps: seq<Step>, ws: seq<Writers.Step>)
    requires Legal(accepts, did, x, steps) && WritesOf(steps) <= ws
    requires Writers.Legal(accepts, x.repo, ws) && AllPublish(accepts, x.repo, ws)
    ensures LoudRun(accepts, did, x, steps)
    decreases |steps|
  {
    if steps == [] {
    } else {
      var y, rest := Apply(accepts, did, x, steps[0]), WritesOf(steps[1..]);
      if steps[0].Write? {
        assert WritesOf(steps) == [steps[0].w] + rest;
        assert ws[0] == WritesOf(steps)[0] && rest <= ws[1..];
        InterleavingIsLoud(accepts, did, y, steps[1..], ws[1..]);
      } else {
        assert WritesOf(steps) == rest;
        InterleavingIsLoud(accepts, did, y, steps[1..], ws);
      }
    }
  }

  ghost predicate Reaches(accepts: Accepts, did: Did, x: World, steps: seq<Step>, y: World) {
    Legal(accepts, did, x, steps) && Exec(accepts, did, x, steps) == y
  }

  lemma ReachesCons(accepts: Accepts, did: Did, x: World, step: Step, rest: seq<Step>, y: World)
    requires Enabled(accepts, did, x, step) && Reaches(accepts, did, Apply(accepts, did, x, step), rest, y)
    ensures Reaches(accepts, did, x, [step] + rest, y)
    ensures WritesOf([step] + rest) == (if step.Write? then [step.w] else []) + WritesOf(rest)
  {
    assert ([step] + rest)[1..] == rest;
  }

  /** A row that nobody publishes never reaches a subscriber that is up to date. */
  lemma {:induction false} QuietCommitMisses(accepts: Accepts, did: Did, x: World, w: nat)
    requires Inv(x.repo, did) && Order.Following(View(x, did))
    requires Enabled(accepts, did, x, Write(Writers.Finish(w))) && CommitsQuietly(x.repo, Writers.Finish(w))
    ensures !Served(Apply(accepts, did, x, Write(Writers.Finish(w))), did)
  {
    var y := Apply(accepts, did, x, Write(Writers.Finish(w)));
    assert x.repo.writers[w].job.did == did;
    FinishLogs(accepts, x.repo, w);
    Writers.FinishUnsent(accepts, x.repo, w, did);
    RowIsMissed(View(x, did), y.repo.store.log[|x.repo.store.log|]);
  }

  lemma {:induction false} RowIsMissed(s: Machine.State, row: Row)
    requires Order.Following(s) && CanSend(row) && MaxSeq(s.log) < row.seqNo
    ensures s.sub.session.sent != Deliverable(s.log + [row], s.sub.cursor.value, row.seqNo)
  {
    var c := s.sub.cursor.value;
    DeliverableAscends(s.log, c, s.sub.session.last);
    DeliverableMembers(s.log + [row], c, row.seqNo);
    assert (s.log + [row])[|s.log|] == row;
    assert FrameOf(row) !in s.sub.session.sent;
  }

  /** What a follower does after a write: receive it, if it was a publish. */
  function Reaction(accepts: Accepts, did: Did, x: World, w: Writers.Step): seq<Step>
    requires MaxSeq(x.repo.store.log) <= x.repo.store.counter && Enabled(accepts, did, x, Write(w))
  {
    if Image(accepts, did, x, Write(w)) == Some(Machine.Publish(0)) then [Read(Machine.Receive)] else []
  }

  lemma {:induction false} FollowCommit(accepts: Accepts, did: Did, x: World, w: Writers.Step)
    requires Inv(x.repo, did) && Order.Following(View(x, did))
    requires Enabled(accepts, did, x, Write(w)) && !CommitsQuietly(x.repo, w)
    requires Reaction(accepts, did, x, w) == []
    ensures Order.Following(View(Apply(accepts, did, x, Write(w)), did))
  {
    StepRefines(accepts, did, x, Write(w));
    var image := Image(accepts, did, x, Write(w));
    if image.Some? {
      Order.FollowingCommit(View(x, did), image.value.gap, image.value.body);
    }
  }

  lemma {:induction false} FollowPublish(accepts: Accepts, did: Did, x: World, w: Writers.Step)
    requires Inv(x.repo, did) && Order.Following(View(x, did))
    requires Enabled(accepts, did, x, Write(w)) && !CommitsQuietly(x.repo, w)
    requires Reaction(accepts, did, x, w) != []
    ensures var y := Apply(accepts, did, x, Write(w));
      && Enabled(accepts, did, y, Read(Machine.Receive))
      && Order.Following(View(Apply(accepts, did, y, Read(Machine.Receive)), did))
  {
    StepRefines(accepts, did, x, Write(w));
    Order.FollowingPublish(View(x, did));
  }

  lemma {:induction false} ReactionReaches(accepts: Accepts, did: Did, x: World, w: Writers.Step, reacts: bool)
    returns (taken: seq<Step>, y: World)
    requires Enabled(accepts, did, x, Write(w))
    requires reacts ==> Enabled(accepts, did, Apply(accepts, did, x, Write(w)), Read(Machine.Receive))
    ensures Reaches(accepts, did, x, taken, y) && WritesOf(taken) == [w]
    ensures var mid := Apply(accepts, did, x, Write(w));
      y.repo == mid.repo && y == if reacts then Apply(accepts, did, mid, Read(Machine.Receive)) else mid
  {
    var mid := Apply(accepts, did, x, Write(w));
    var more: seq<Step> := [];
    y := mid;
    if reacts {
      y := Apply(accepts, did, mid, Read(Machine.Receive));
      more := [Read(Machine.Receive)] + [];
      ReachesCons(accepts, did, mid, Read(Machine.Receive), [], y);
    }
    ReachesCons(accepts, did, x, Write(w), more, y);
    taken := [Write(w)] + more;
  }

  /** A follower sees one write of a publishing job through. */
  lemma {:induction false} FollowWrite(accepts: Accepts, did: Did, x: World, w: Writers.Step)
    returns (taken: seq<Step>, y: World)
    requires Inv(x.repo, did) && Order.Following(View(x, did))
    requires Enabled(accepts, did, x, Write(w)) && !CommitsQuietly(x.repo, w)
    ensures Reaches(accepts, did, x, taken, y) && WritesOf(taken) == [w]
    ensures Inv(y.repo, did) && Order.Following(View(y, did)) && y.repo == Writers.Apply(accepts, x.repo, w)
  {
    StepKeepsInv(accepts, did, x, Write(w));
    if Reaction(accepts, did, x, w) == [] {
      FollowCommit(accepts, did, x, w);
      taken, y := ReactionReaches(accepts, did, x, w, false);
    } else {
      FollowPublish(accepts, did, x, w);
      taken, y := ReactionReaches(accepts, did, x, w, true);
    }
  }

  lemma {:induction false} WritesAppend(xs: seq<Step>, ys: seq<Step>)
    ensures WritesOf(xs + ys) == WritesOf(xs) + WritesOf(ys)
  {
    if xs == [] {
      assert xs + ys == ys;
    } else {
      assert (xs + ys)[1..] == xs[1..] + ys;
      WritesAppend(xs[1..], ys);
      var first := if xs[0].Write? then [xs[0].w] else [];
      assert WritesOf(xs + ys) == first + (WritesOf(xs[1..]) + WritesOf(ys));
      assert WritesOf(xs) == first + WritesOf(xs[1..]);
    }
  }

  lemma {:induction false} ReachesAppend(
    accepts: Accepts, did: Did, x: World, xs: seq<Step>, mid: World, ys: seq<Step>, y: World)
    requires Reaches(accepts, did, x, xs, mid) && Reaches(accepts, did, mid, ys, y)
    ensures Reaches(accepts, did, x, xs + ys, y)
    decreases |xs|
  {
    if xs == [] {
      assert xs + ys == ys;
    } else {
      assert (xs + ys)[1..] == xs[1..] + ys;
      ReachesAppend(accepts, did, Apply(accepts, did, x, xs[0]), xs[1..], mid, ys, y);
    }
  }

  /** A follower of a writers' run, up to the first commit that does not publish. */
  lemma {:induction false} FollowerMisses(accepts: Accepts, did: Did, x: World, ws: seq<Writers.Step>)
    returns (steps: seq<Step>, y: World)
    requires Inv(x.repo, did) && Order.Following(View(x, did)) && OneRepo(ws, did)
    requires Writers.Legal(accepts, x.repo, ws) && !AllPublish(accepts, x.repo, ws)
    ensures Reaches(accepts, did, x, steps, y) && WritesOf(steps) <= ws && !Served(y, did)
    decreases |ws|
  {
    var w, rest := ws[0], ws[1..];
    assert Enabled(accepts, did, x, Write(w));
    if CommitsQuietly(x.repo, w) {
      QuietCommitMisses(accepts, did, x, w.w);
      y := Apply(accepts, did, x, Write(w));
      ReachesCons(accepts, did, x, Write(w), [], y);
      steps := [Write(w)] + [];
      assert WritesOf(steps) == [w];
    } else {
      RestIsOneRepo(ws, did);
      var taken, mid := FollowWrite(accepts, did, x, w);
      var more: seq<Step>;
      more, y := FollowerMisses(accepts, did, mid, rest);
      ReachesAppend(accepts, did, x, taken, mid, more, y);
      WritesAppend(taken, more);
      steps := taken + more;
      PrefixCons(w, WritesOf(more), ws);
    }
  }

  lemma RestIsOneRepo(ws: seq<Writers.Step>, did: Did)
    requires ws != [] && OneRepo(ws, did)
    ensures OneRepo(ws[1..], did)
  {
    assert forall i :: 0 <= i < |ws| - 1 ==> ws[1..][i] == ws[i + 1];
  }

  lemma PrefixCons(w: Writers.Step, front: seq<Writers.Step>, ws: seq<Writers.Step>)
    requires ws != [] && w == ws[0] && front <= ws[1..]
    ensures [w] + front <= ws
  {
    assert ws == [w] + ws[1..];
  }

  /** Reads of the machine as reads of the world. */
  lemma {:induction false} LiftReads(accepts: Accepts, did: Did, x: World, run: seq<Machine.Step>, t: Machine.State)
    returns (steps: seq<Step>)
    requires Order.Leads(View(x, did), run, t) && forall i :: 0 <= i < |run| ==> !Order.IsWrite(run[i])
    ensures Reaches(accepts, did, x, steps, x.(sub := t.sub)) && WritesOf(steps) == []
    decreases |run|
  {
    if run == [] {
      steps := [];
    } else {
      var step := Read(run[0]);
      assert !Order.IsWrite(run[0]);
      var y := Apply(accepts, did, x, step);
      assert View(y, did) == Machine.Apply(View(x, did), run[0]);
      steps := LiftReads(accepts, did, y, run[1..], t);
      ReachesCons(accepts, did, x, step, steps, x.(sub := t.sub));
      steps := [step] + steps;
    }
  }

  /** A subscriber that joins at the head of the log, before any write. */
  lemma {:induction false} JoinsAtHead(accepts: Accepts, did: Did, x: World) returns (joins: seq<Step>, y: World)
    requires Init(x)
    ensures Reaches(accepts, did, x, joins, y) && WritesOf(joins) == []
    ensures y.repo == x.repo && Inv(y.repo, did) && Order.Following(View(y, did))
  {
    var joined := Order.JoinsAtHead(View(x, did));
    var run := [Machine.Subscribe(Some(MaxSeq(x.repo.store.log))), Machine.Check, Machine.FetchPage];
    joins := LiftReads(accepts, did, x, run, joined);
    y := x.(sub := joined.sub);
    assert View(y, did) == joined;
  }

  lemma {:induction false} QuietWritersFailSomeone(accepts: Accepts, did: Did, x: World, ws: seq<Writers.Step>)
    returns (steps: seq<Step>, y: World)
    requires Init(x) && OneRepo(ws, did)
    requires Writers.Legal(accepts, x.repo, ws) && !AllPublish(accepts, x.repo, ws)
    ensures Reaches(accepts, did, x, steps, y) && WritesOf(steps) <= ws && !Served(y, did)
  {
    var joins, mid := JoinsAtHead(accepts, did, x);
    var more: seq<Step>;
    more, y := FollowerMisses(accepts, did, mid, ws);
    ReachesAppend(accepts, did, x, joins, mid, more, y);
    WritesAppend(joins, more);
    steps := joins + more;
  }

  /** End to end, both ways: over any earlier log and any run of the writers of one repo, every
      subscriber in every interleaving with any part of it is served completely if and only if
      every commit comes from a job that publishes. */
  lemma {:induction false} ServedIffAllPublish(accepts: Accepts, did: Did, x: World, ws: seq<Writers.Step>)
    requires Init(x) && OneRepo(ws, did) && Writers.Legal(accepts, x.repo, ws)
    ensures AllPublish(accepts, x.repo, ws) <==> ServesEveryone(accepts, did, x, ws)
  {
    if AllPublish(accepts, x.repo, ws) {
      forall steps | Legal(accepts, did, x, steps) && WritesOf(steps) <= ws
        ensures Served(Exec(accepts, did, x, steps), did)
      {
        InterleavingIsLoud(accepts, did, x, steps, ws);
        WritersFeedSubscriber(accepts, did, x, steps);
      }
    } else {
      var steps, y := QuietWritersFailSomeone(accepts, did, x, ws);
      assert !Served(Exec(accepts, did, x, steps), did);
    }
  }
}
