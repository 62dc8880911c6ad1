/** Completeness of the embedded stream is exactly publishing in seq order: whatever history of
    writes leaves that order, some subscriber misses a row. */
module FirehoseOrder {
  import opened Wrappers
  import opened RepoData
  import opened FirehoseLog
  import opened EmbeddedFirehose
  import opened FirehoseMachine

  // ---- runs step by step ----

  ghost predicate Leads(s: State, steps: seq<Step>, t: State) { Legal(s, steps) && Exec(s, steps) == t }

  lemma LeadsCons(s: State, step: Step, rest: seq<Step>, t: State)
    requires Enabled(s, step) && Leads(Apply(s, step), rest, t)
    ensures Leads(s, [step] + rest, t)
  {
    assert ([step] + rest)[1..] == rest;
  }

  lemma LeadsTwo(s: State, a: Step, b: Step)
    requires Enabled(s, a) && Enabled(Apply(s, a), b)
    ensures Leads(s, [a, b], Apply(Apply(s, a), b))
  {
    var t := Apply(Apply(s, a), b);
    LeadsCons(Apply(s, a), b, [], t);
    LeadsCons(s, a, [b], t);
    assert [a] + [b] == [a, b];
  }

  lemma {:induction false} LeadsAppend(s: State, xs: seq<Step>, mid: State, ys: seq<Step>, t: State)
    requires Leads(s, xs, mid) && Leads(mid, ys, t)
    ensures Leads(s, xs + ys, t)
    decreases |xs|
  {
    if xs == [] {
      assert xs + ys == ys;
    } else {
      assert (xs + ys)[1..] == xs[1..] + ys;
      LeadsAppend(Apply(s, xs[0]), xs[1..], mid, ys, t);
    }
  }

  // ---- completeness and publish order ----

  predicate IsWrite(step: Step) { step.Commit? || step.Publish? }

  /** The commits and publishes of a run, in order. */
  function Writes(steps: seq<Step>): seq<Step> {
    if steps == [] then []
    else (if IsWrite(steps[0]) then [steps[0]] else []) + Writes(steps[1..])
  }

  predicate WritesOnly(steps: seq<Step>) { forall i :: 0 <= i < |steps| ==> IsWrite(steps[i]) }

  /** A subscriber with a cursor was sent exactly the deliverable rows up to the last seq handled. */
  ghost predicate Complete(s: State) {
    s.sub.cursor.Some? ==> s.sub.session.sent == Deliverable(s.log, s.sub.cursor.value, s.sub.session.last)
  }

  /** However a subscriber is interleaved with any part of a history of writes, it is served completely. */
  ghost predicate ServesEveryone(s: State, writes: seq<Step>) {
    forall steps :: Legal(s, steps) && Writes(steps) <= writes ==> Complete(Exec(s, steps))
  }

  lemma {:induction false} WritesInOrder(steps: seq<Step>)
    requires PublishesInOrder(Writes(steps))
    ensures PublishesInOrder(steps)
  {
    if steps == [] {
    } else {
      var head, tail := if IsWrite(steps[0]) then [steps[0]] else [], Writes(steps[1..]);
      forall i | 0 <= i < |tail| && tail[i].Publish? ensures tail[i].i == 0 {
        assert Writes(steps)[|head| + i] == tail[i];
      }
      WritesInOrder(steps[1..]);
      forall i | 0 <= i < |steps| && steps[i].Publish? ensures steps[i].i == 0 {
        if i == 0 {
          assert Writes(steps)[0] == steps[0];
        } else {
          assert steps[1..][i - 1] == steps[i];
        }
      }
    }
  }

  /** Writers do not look at subscribers. */
  lemma {:induction false} SubscriberIrrelevant(s: State, sub: Sub, writes: seq<Step>)
    requires Legal(s, writes) && WritesOnly(writes)
    ensures Legal(s.(sub := sub), writes)
    decreases |writes|
  {
    if writes == [] {
    } else {
      assert IsWrite(writes[0]);
      assert WritesOnly(writes[1..]) by {
        assert forall i :: 0 <= i < |writes| - 1 ==> writes[1..][i] == writes[i + 1];
      }
      SubscriberIrrelevant(Apply(s, writes[0]), sub, writes[1..]);
      assert Apply(s.(sub := sub), writes[0]) == Apply(s, writes[0]).(sub := sub);
    }
  }

  /** A live subscriber that has received all there is, and owes every row still to be published. */
  ghost predicate Following(s: State) {
    && CompleteInv(s) && 0 < s.cap && s.sub.phase.Live? && s.sub.cursor.Some?
    && s.sub.pos == |s.published| && s.sub.session.last <= MaxSeq(s.log)
    && (forall i :: s.floor + |s.published| <= i < |s.log| ==> s.sub.session.last < s.log[i].seqNo)
  }

  lemma FollowingCommit(s: State, gap: nat, body: CommitBody)
    requires Following(s)
    ensures Following(Apply(s, Step.Commit(gap, body)))
  {
    CommitComplete(s, gap, body);
  }

  lemma FollowingPublish(s: State)
    requires Following(s) && s.pending != []
    ensures Following(Apply(Apply(s, Publish(0)), Receive))
  {
    PublishComplete(s);
    var s1, k := Apply(s, Publish(0)), s.floor + |s.published|;
    EventComplete(s1);
    EventExact(s1);
    assert s1.published[s1.sub.pos] == FrameOf(s.log[k]);
  }

  /** Publishing past the oldest pending event makes the follower skip that row. */
  lemma OvertakingSkips(s: State, i: nat)
    requires Following(s) && 0 < i < |s.pending|
    ensures var t := Apply(Apply(s, Publish(i)), Receive); t.sub.cursor.Some? && !Complete(t)
  {
    var n := s.floor + |s.published|;
    var all := s.published + s.pending;
    assert FrameOf(s.log[n]) == all[n - s.floor] == s.pending[0];
    assert FrameOf(s.log[n + i]) == all[n + i - s.floor] == s.pending[i];
    var t := Apply(Apply(s, Publish(i)), Receive);
    var c := s.sub.cursor.value;
    assert t.sub.session.sent == s.sub.session.sent + [s.pending[i]];
    DeliverableMembers(t.log, c, t.sub.session.last);
    assert s.pending[0] in Deliverable(t.log, c, t.sub.session.last);
    DeliverableAscends(s.log, c, s.sub.session.last);
    assert s.pending[0] !in t.sub.session.sent;
  }

  /** A follower sees one write in seq order through. */
  lemma FollowWrite(s: State, step: Step, rest: seq<Step>) returns (taken: seq<Step>, t: State)
    requires Following(s) && IsWrite(step) && Enabled(s, step) && (step.Publish? ==> step.i == 0)
    requires WritesOnly(rest) && Legal(Apply(s, step), rest)
    ensures Leads(s, taken, t) && Writes(taken) == [step] && Following(t) && Legal(t, rest)
  {
    var s1 := Apply(s, step);
    if step.Commit? {
      FollowingCommit(s, step.gap, step.body);
      taken, t := [step] + [], s1;
      LeadsCons(s, step, [], s1);
      WritesCons(step, []);
    } else {
      FollowingPublish(s);
      taken, t := [step, Receive], Apply(s1, Receive);
      LeadsTwo(s, step, Receive);
      WritesOfTwo(step);
      assert t == s1.(sub := t.sub);
      SubscriberIrrelevant(s1, t.sub, rest);
    }
  }

  /** A follower of writes that leave seq order, up to the first publish that does. */
  lemma {:induction false} FollowerIsFailed(s: State, writes: seq<Step>) returns (steps: seq<Step>, t: State)
    requires Following(s) && WritesOnly(writes) && Legal(s, writes) && !PublishesInOrder(writes)
    ensures Leads(s, steps, t) && Writes(steps) <= writes && !Complete(t)
    decreases |writes|
  {
    var step, rest := writes[0], writes[1..];
    assert IsWrite(step);
    if step.Publish? && step.i != 0 {
      OvertakingSkips(s, step.i);
      steps, t := [step, Receive], Apply(Apply(s, step), Receive);
      LeadsTwo(s, step, Receive);
      WritesOfTwo(step);
    } else {
      RestUnordered(writes);
      var taken, mid := FollowWrite(s, step, rest);
      var more: seq<Step>;
      more, t := FollowerIsFailed(mid, rest);
      steps := taken + more;
      LeadsAppend(s, taken, mid, more, t);
      WritesAppend(taken, more);
      assert writes == [step] + rest;
    }
  }

  lemma RestUnordered(writes: seq<Step>)
    requires writes != [] && WritesOnly(writes) && !PublishesInOrder(writes)
    requires writes[0].Publish? ==> writes[0].i == 0
    ensures WritesOnly(writes[1..]) && !PublishesInOrder(writes[1..])
  {
    assert forall i :: 0 < i < |writes| ==> writes[1..][i - 1] == writes[i];
  }

  lemma WritesCons(step: Step, rest: seq<Step>)
    ensures Writes([step] + rest) == (if IsWrite(step) then [step] else []) + Writes(rest)
  {
    assert ([step] + rest)[1..] == rest;
  }

  lemma WritesOfTwo(step: Step)
    requires IsWrite(step)
    ensures Writes([step, Receive]) == [step]
  {
    assert [step, Receive] == [step] + ([Receive] + []);
    WritesCons(step, [Receive] + []);
    WritesCons(Receive, []);
  }

  /** A subscriber that joins at the head of the log, before any write. */
  lemma JoinsAtHead(s: State) returns (t: State)
    requires Init(s)
    ensures Leads(s, [Subscribe(Some(MaxSeq(s.log))), Check, FetchPage], t)
    ensures Following(t) && t == s.(sub := t.sub)
  {
    var c := MaxSeq(s.log);
    var s1 := Apply(s, Subscribe(Some(c)));
    var s2 := Apply(s1, Check);
    t := Apply(s2, FetchPage);
    NoneVisible(s.log, c);
    assert BackfillPage(s.log, c, BACKFILL_PAGE) == [];
    DeliverableEmpty(s.log, 0, 0);
    SubscribeComplete(s, Some(c));
    FetchComplete(s2);
    assert Leads(t, [], t);
    LeadsCons(s2, FetchPage, [], t);
    LeadsCons(s1, Check, [FetchPage], t);
    LeadsCons(s, Subscribe(Some(c)), [Check, FetchPage], t);
    assert [Subscribe(Some(c))] + [Check, FetchPage] == [Subscribe(Some(c)), Check, FetchPage];
  }

  lemma {:induction false} WritesAppend(xs: seq<Step>, ys: seq<Step>)
    ensures Writes(xs + ys) == Writes(xs) + Writes(ys)
  {
    if xs == [] {
      assert xs + ys == ys;
    } else {
      assert (xs + ys)[1..] == xs[1..] + ys;
      WritesAppend(xs[1..], ys);
      var first := if IsWrite(xs[0]) then [xs[0]] else [];
      assert Writes(xs + ys) == first + (Writes(xs[1..]) + Writes(ys));
      assert Writes(xs) == first + Writes(xs[1..]);
    }
  }

  lemma JoinWritesNothing(c: int)
    ensures Writes([Subscribe(Some(c)), Check, FetchPage]) == []
  {
    WritesCons(FetchPage, []);
    WritesCons(Check, [FetchPage]);
    WritesCons(Subscribe(Some(c)), [Check, FetchPage]);
    assert [Check] + [FetchPage] == [Check, FetchPage];
    assert [Subscribe(Some(c))] + [Check, FetchPage] == [Subscribe(Some(c)), Check, FetchPage];
  }

  lemma UnorderedWritesFailSomeone(s: State, writes: seq<Step>) returns (steps: seq<Step>, t: State)
    requires Init(s) && WritesOnly(writes) && Legal(s, writes) && !PublishesInOrder(writes)
    ensures Leads(s, steps, t) && Writes(steps) <= writes && !Complete(t)
  {
    var joined := JoinsAtHead(s);
    var joins := [Subscribe(Some(MaxSeq(s.log))), Check, FetchPage];
    SubscriberIrrelevant(s, joined.sub, writes);
    var rest: seq<Step>;
    rest, t := FollowerIsFailed(joined, writes);
    steps := joins + rest;
    LeadsAppend(s, joins, joined, rest, t);
    WritesAppend(joins, rest);
    JoinWritesNothing(MaxSeq(s.log));
  }

  /** Completeness is exactly publishing in seq order. For every history of commits and
      publishes, every subscriber in every interleaving with any part of it is served
      completely if and only if each publish takes the oldest pending event. */
  lemma CompleteIffInOrder(s: State, writes: seq<Step>)
    requires Init(s) && WritesOnly(writes) && Legal(s, writes)
    ensures PublishesInOrder(writes) <==> ServesEveryone(s, writes)
  {
    if PublishesInOrder(writes) {
      forall steps | Legal(s, steps) && Writes(steps) <= writes ensures Complete(Exec(s, steps)) {
        assert forall i :: 0 <= i < |Writes(steps)| ==> Writes(steps)[i] == writes[i];
        WritesInOrder(steps);
        EmbeddedStreamComplete(s, steps);
      }
    } else {
      var steps, t := UnorderedWritesFailSomeone(s, writes);
      assert !Complete(Exec(s, steps));
    }
  }

  // ---- one such run in full ----

  lemma Opens(s: State) returns (t: State)
    requires s == State(16, 0, [], [], [], IDLE)
    ensures t == s.(sub := Sub(Some(0), Live, 0, Session(0, false, [], []), 0))
    ensures Leads(s, [Subscribe(Some(0)), Check, FetchPage], t)
  {
    var s1 := Apply(s, Subscribe(Some(0)));
    var s2 := Apply(s1, Check);
    assert BackfillPage([], 0, BACKFILL_PAGE) == [];
    t := Apply(s2, FetchPage);
    assert Leads(t, [], t);
    LeadsCons(s2, FetchPage, [], t);
    LeadsCons(s1, Check, [FetchPage], t);
    LeadsCons(s, Subscribe(Some(0)), [Check, FetchPage], t);
    assert [Subscribe(Some(0))] + [Check, FetchPage] == [Subscribe(Some(0)), Check, FetchPage];
  }

  lemma Commits(s: State, a: CommitBody, b: CommitBody) returns (t: State)
    requires s.log == [] && s.pending == []
    ensures t == s.(log := [Row(1, Some(a), false), Row(2, Some(b), false)], pending := [Frame(1, a), Frame(2, b)])
    ensures Leads(s, [Step.Commit(0, a), Step.Commit(0, b)], t)
  {
    var s1 := Apply(s, Step.Commit(0, a));
    t := Apply(s1, Step.Commit(0, b));
    LeadsCons(s1, Step.Commit(0, b), [], t);
    LeadsCons(s, Step.Commit(0, a), [Step.Commit(0, b)], t);
    assert [Step.Commit(0, a)] + [Step.Commit(0, b)] == [Step.Commit(0, a), Step.Commit(0, b)];
  }

  lemma Delivers(s: State, a: Frame, b: Frame) returns (t: State)
    requires s.published == [] && s.pending == [a, b] && s.cap == 16 && b.seqNo == 2 && a.seqNo == 1
    requires s.sub == Sub(Some(0), Live, 0, Session(0, false, [], []), 0)
    ensures t.log == s.log && t.sub.cursor == Some(0) && t.sub.session == Session(2, false, [b], [LiveSent(2)])
    ensures Leads(s, [Publish(1), Publish(0), Receive, Receive], t)
  {
    var s1 := Apply(s, Publish(1));
    var s2 := Apply(s1, Publish(0));
    assert s2.published == [b, a];
    var s3 := Apply(s2, Receive);
    t := Apply(s3, Receive);
    LeadsCons(s3, Receive, [], t);
    LeadsCons(s2, Receive, [Receive], t);
    LeadsCons(s1, Publish(0), [Receive, Receive], t);
    LeadsCons(s, Publish(1), [Publish(0), Receive, Receive], t);
    assert [Publish(1)] + [Publish(0), Receive, Receive] == [Publish(1), Publish(0), Receive, Receive];
  }

  /** Why publish order is assumed: two writers with different locks commit seqs 1 and 2 and
      publish 2 first. A subscriber that has caught up drops the late event of row 1. */
  lemma UnorderedPublishLosesRow(a: CommitBody, b: CommitBody) returns (s: State, steps: seq<Step>, t: State)
    ensures Init(s) && Leads(s, steps, t) && t.sub.cursor == Some(0)
    ensures t.sub.session.sent == [Frame(2, b)]
    ensures Deliverable(t.log, 0, t.sub.session.last) == [Frame(1, a), Frame(2, b)]
  {
    s := State(16, 0, [], [], [], IDLE);
    var caught := Opens(s);
    var committed := Commits(caught, a, b);
    t := Delivers(committed, Frame(1, a), Frame(2, b));
    var open, commits := [Subscribe(Some(0)), Check, FetchPage], [Step.Commit(0, a), Step.Commit(0, b)];
    var tail := [Publish(1), Publish(0), Receive, Receive];
    LeadsAppend(caught, commits, committed, tail, t);
    LeadsAppend(s, open, caught, commits + tail, t);
    steps := open + (commits + tail);
    TwoRowsDue(a, b);
  }

  lemma {:induction false} TwoRowsDue(a: CommitBody, b: CommitBody)
    ensures Deliverable([Row(1, Some(a), false), Row(2, Some(b), false)], 0, 2) == [Frame(1, a), Frame(2, b)]
  {
    TwoDue(Row(1, Some(a), false), Row(2, Some(b), false));
  }

  lemma {:induction false} TwoDue(r: Row, q: Row)
    requires CanSend(r) && CanSend(q) && 0 < r.seqNo <= 2 && 0 < q.seqNo <= 2
    ensures Deliverable([r, q], 0, 2) == [FrameOf(r), FrameOf(q)]
  {
    DeliverableAppend([], r, 0, 2);
    DeliverableAppend([r], q, 0, 2);
    assert [] + [r] == [r] && [r] + [q] == [r, q];
  }
}
