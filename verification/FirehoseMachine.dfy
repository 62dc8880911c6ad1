/** Writers, the bounded broadcast channel and one subscriber, interleaved at every await.

    A commit appends a log row and leaves its event to be published; a publish pushes one
    such event; the subscriber joins, checks its cursor, fetches pages, writes rows, and
    receives or lags. Subscribers do not affect each other, so one stands for all. */
module FirehoseMachine {
  import opened Wrappers
  import opened RepoData
  import opened FirehoseLog
  import opened EmbeddedFirehose

  datatype Phase = Idle | Checking | Backfill(page: seq<Row>) | Live | Stopped(reason: Outcome)

  /** `pos` is the receiver's place in the history of published events. `base` is
      bookkeeping that no step reads: the seq after which this stream owes every row. */
  datatype Sub = Sub(cursor: Option<int>, phase: Phase, pos: nat, session: Session, base: int)

  /** `floor` rows were logged before the process started. `published` is the whole history
      of the channel, of which the last `cap` events are retained. */
  datatype State = State(
    cap: nat, floor: nat, log: seq<Row>, published: seq<Frame>, pending: seq<Frame>, sub: Sub)

  datatype Step =
    | Commit(gap: nat, body: CommitBody)
    | Publish(i: nat)
    | Subscribe(cursor: Option<int>)
    | Check
    | FetchPage
    | SendRow
    | Receive
    | Stop

  const IDLE := Sub(None, Idle, 0, Session(0, false, [], []), 0)

  ghost predicate Init(s: State) {
    && 0 < s.cap && Sorted(s.log) && s.floor == |s.log|
    && s.published == [] && s.pending == [] && s.sub == IDLE
  }

  predicate Enabled(s: State, step: Step) {
    match step
    case Commit(_, _) => true
    case Publish(i) => i < |s.pending|
    case Subscribe(c) => s.sub.phase.Idle? && (c.Some? ==> 0 <= c.value)
    case Check => s.sub.phase.Checking? && s.sub.cursor.Some?
    case FetchPage => s.sub.phase == Backfill([])
    case SendRow => s.sub.phase.Backfill? && s.sub.phase.page != []
    case Receive => s.sub.phase.Live? && s.sub.pos < |s.published|
    case Stop => !s.sub.phase.Idle? && !s.sub.phase.Stopped?
  }

  /** Seq of the newest row whose event was already published, as long as publishing follows seq order. */
  function JoinSeq(s: State): int {
    var n := s.floor + |s.published|;
    if 0 < n <= |s.log| then s.log[n - 1].seqNo else 0
  }

  /** The channel has overwritten the next event of a receiver at `pos`. */
  predicate Lagging(s: State) { s.sub.pos + s.cap < |s.published| }

  function Apply(s: State, step: Step): State
    requires Enabled(s, step)
  {
    var sub := s.sub;
    match step
    case Commit(gap, body) =>
      var row := Row(MaxSeq(s.log) + 1 + gap, Some(body), false);
      s.(log := s.log + [row], pending := s.pending + [FrameOf(row)])
    case Publish(i) =>
      s.(published := s.published + [s.pending[i]], pending := s.pending[..i] + s.pending[i + 1..])
    case Subscribe(c) =>
      s.(sub := if c.Some?
        then Sub(c, Checking, |s.published|, Session(c.value, false, [], []), c.value)
        else Sub(c, Live, |s.published|, Session(0, false, [], []), JoinSeq(s)))
    case Check =>
      s.(sub := sub.(phase := if MaxSeq(s.log) < sub.cursor.value then Stopped(FutureCursor) else Backfill([])))
    case FetchPage =>
      var page := BackfillPage(s.log, sub.session.last, BACKFILL_PAGE);
      s.(sub := sub.(phase := if page == [] then Live else Backfill(page)))
    case SendRow =>
      s.(sub := sub.(phase := Backfill(sub.phase.page[1..]), session := OnRow(sub.session, sub.phase.page[0])))
    case Receive =>
      if !Lagging(s) then
        s.(sub := sub.(pos := sub.pos + 1, session := OnEvent(sub.session, s.published[sub.pos])))
      else if !sub.session.recovered then
        s.(sub := sub.(phase := Backfill([]), pos := |s.published|, session := OnRecovery(sub.session),
                       base := if sub.session.last < sub.base then sub.session.last else sub.base))
      else
        s.(sub := sub.(phase := Stopped(ConsumerTooSlow),
                       session := sub.session.(notes := sub.session.notes + [TooSlow])))
    case Stop => s.(sub := sub.(phase := Stopped(Ended)))
  }

  ghost predicate Legal(s: State, steps: seq<Step>)
    decreases |steps|
  {
    steps == [] || (Enabled(s, steps[0]) && Legal(Apply(s, steps[0]), steps[1..]))
  }

  function Exec(s: State, steps: seq<Step>): State
    requires Legal(s, steps)
    decreases |steps|
  {
    if steps == [] then s else Exec(Apply(s, steps[0]), steps[1..])
  }

  /** Events leave in the order their rows were committed, as the lock held across
      commit and send gives for the writers of one DID. */
  predicate PublishesInOrder(steps: seq<Step>) {
    forall i :: 0 <= i < |steps| && steps[i].Publish? ==> steps[i].i == 0
  }

  /** Every commit waits until the previous event was sent, as one lock held from before the
      commit until after the send enforces. */
  ghost predicate OneLock(s: State, steps: seq<Step>)
    requires Legal(s, steps)
    decreases |steps|
  {
    steps == [] || ((steps[0].Commit? ==> s.pending == []) && OneLock(Apply(s, steps[0]), steps[1..]))
  }

  /** Writers that share one lock publish in seq order. */
  lemma {:induction false} OneLockPublishesInOrder(s: State, steps: seq<Step>)
    requires Legal(s, steps) && |s.pending| <= 1 && OneLock(s, steps)
    ensures PublishesInOrder(steps)
    decreases |steps|
  {
    if steps == [] {
    } else {
      OneLockPublishesInOrder(Apply(s, steps[0]), steps[1..]);
      forall i | 0 <= i < |steps| && steps[i].Publish? ensures steps[i].i == 0 {
        if i > 0 { assert steps[1..][i - 1] == steps[i]; }
      }
    }
  }

  // ---- no assumption on publishing: order and the lag policy ----

  ghost predicate PageOk(s: State) {
    s.sub.phase.Backfill? ==> s.sub.phase.page <= VisibleAfter(s.log, s.sub.session.last)
  }

  function CursorOf(sub: Sub): int { if sub.cursor.Some? then sub.cursor.value else 0 }

  ghost predicate SessionOk(sub: Sub) {
    && (sub.phase.Idle? ==> sub == IDLE)
    && (if sub.phase == Stopped(ConsumerTooSlow) then Orderly(sub.session, CursorOf(sub))
        else InOrder(sub.session, CursorOf(sub)))
  }

  ghost predicate OrderInv(s: State) { Sorted(s.log) && PageOk(s) && SessionOk(s.sub) }

  lemma {:induction false} SortedSnoc(log: seq<Row>, row: Row)
    requires Sorted(log) && MaxSeq(log) < row.seqNo
    ensures Sorted(log + [row])
  {
    assert forall i :: 0 <= i < |log| ==> log[i].seqNo <= MaxSeq(log);
  }

  lemma {:induction false} CommitKeepsPage(s: State, gap: nat, body: CommitBody)
    requires Sorted(s.log) && PageOk(s)
    ensures Sorted(Apply(s, Step.Commit(gap, body)).log) && PageOk(Apply(s, Step.Commit(gap, body)))
  {
    var row := Row(MaxSeq(s.log) + 1 + gap, Some(body), false);
    SortedSnoc(s.log, row);
    if s.sub.phase.Backfill? {
      PageStays(s.log, row, s.sub.phase.page, s.sub.session.last);
    }
  }

  lemma {:induction false} PageStays(log: seq<Row>, row: Row, page: seq<Row>, after: int)
    requires page <= VisibleAfter(log, after)
    ensures page <= VisibleAfter(log + [row], after)
  {
    VisibleAppend(log, row, after);
  }

  lemma SendRowKeepsPage(s: State)
    requires Sorted(s.log) && PageOk(s) && Enabled(s, SendRow)
    ensures PageOk(Apply(s, SendRow)) && s.sub.session.last < s.sub.phase.page[0].seqNo
  {
    var k := VisibleHead(s.log, s.sub.session.last);
    var todo := VisibleAfter(s.log, s.sub.session.last);
    assert s.sub.phase.page[0] == todo[0];
    assert s.sub.phase.page[1..] <= todo[1..];
  }

  lemma ReceiveKeepsSession(s: State)
    requires SessionOk(s.sub) && Enabled(s, Receive)
    ensures SessionOk(Apply(s, Receive).sub)
  {
    var c := CursorOf(s.sub);
    if !Lagging(s) {
      EventKeepsOrder(s.sub.session, s.published[s.sub.pos], c);
    } else if s.sub.session.recovered {
      InOrderIsOrderly(s.sub.session, c);
    }
  }

  lemma OrderStep(s: State, step: Step)
    requires OrderInv(s) && Enabled(s, step)
    ensures OrderInv(Apply(s, step))
  {
    match step
    case Commit(gap, body) => CommitKeepsPage(s, gap, body);
    case SendRow =>
      SendRowKeepsPage(s);
      RowKeepsOrder(s.sub.session, s.sub.phase.page[0], CursorOf(s.sub));
    case Receive => ReceiveKeepsSession(s);
    case _ =>
  }

  lemma {:induction false} OrderRun(s: State, steps: seq<Step>)
    requires OrderInv(s) && Legal(s, steps)
    ensures OrderInv(Exec(s, steps))
    decreases |steps|
  {
    if steps == [] {
    } else {
      OrderStep(s, steps[0]);
      OrderRun(Apply(s, steps[0]), steps[1..]);
    }
  }

  /** In every run, whatever the publish order: frames ascend above the cursor, and
      `ConsumerTooSlow` follows a recovery with no live frame since. */
  lemma EveryRunIsOrderly(s: State, steps: seq<Step>)
    requires Init(s) && Legal(s, steps)
    ensures var sub := Exec(s, steps).sub; Orderly(sub.session, CursorOf(sub))
  {
    OrderRun(s, steps);
    var sub := Exec(s, steps).sub;
    if sub.phase != Stopped(ConsumerTooSlow) {
      InOrderIsOrderly(sub.session, CursorOf(sub));
    }
  }

  // ---- publishing in seq order: completeness ----

  /** The channel and the pending events together are the rows logged since the start. */
  ghost predicate ChannelOk(s: State) {
    && Sorted(s.log) && s.floor + |s.published| + |s.pending| == |s.log|
    && (forall i :: s.floor <= i < |s.log| ==>
          CanSend(s.log[i]) && FrameOf(s.log[i]) == (s.published + s.pending)[i - s.floor])
  }

  /** The promise: exactly the deliverable rows after `base` up to the last seq handled. */
  ghost predicate Exact(s: State) {
    && s.sub.session.sent == Deliverable(s.log, s.sub.base, s.sub.session.last)
    && (s.sub.base < s.sub.session.last ==> s.sub.session.last <= MaxSeq(s.log))
  }

  /** Nothing deliverable behind the receiver's place is still owed, and a subscriber
      without a cursor that has sent nothing owes only what is ahead of its place. */
  ghost predicate PlaceOk(s: State)
    requires s.floor + |s.published| <= |s.log|
  {
    && s.sub.pos <= |s.published|
    && (forall i :: 0 <= i < s.floor + s.sub.pos && CanSend(s.log[i]) ==>
          s.log[i].seqNo <= s.sub.session.last || s.log[i].seqNo <= s.sub.base)
    && (s.sub.session.last < s.sub.base ==>
          && s.sub.base <= MaxSeq(s.log)
          && forall i :: s.floor + s.sub.pos <= i < |s.log| ==> s.sub.base < s.log[i].seqNo)
  }

  ghost predicate CompleteInv(s: State) {
    && ChannelOk(s) && PageOk(s) && Exact(s)
    && 0 <= s.sub.base && 0 <= s.sub.session.last
    && (s.sub.session.last < s.sub.base ==> s.sub.session.last == 0 && s.sub.cursor.None?)
    && (s.sub.phase.Idle? ==> s.sub == IDLE)
    && (s.sub.phase.Checking? || s.sub.phase.Backfill? ==>
          s.sub.base <= s.sub.session.last && s.sub.pos <= |s.published|)
    && (s.sub.phase.Live? ==> PlaceOk(s))
    && (s.sub.cursor.Some? ==> s.sub.base == s.sub.cursor.value <= s.sub.session.last)
  }

  lemma {:induction false} CommitKeepsChannel(s: State, gap: nat, body: CommitBody)
    requires ChannelOk(s)
    ensures ChannelOk(Apply(s, Step.Commit(gap, body)))
  {
    var frame := Frame(MaxSeq(s.log) + 1 + gap, body);
    var s' := Apply(s, Step.Commit(gap, body));
    assert s'.published + s'.pending == (s.published + s.pending) + [frame];
    forall i | s.floor <= i < |s'.log|
      ensures CanSend(s'.log[i]) && FrameOf(s'.log[i]) == (s'.published + s'.pending)[i - s.floor]
    {
      if i < |s.log| {
        assert s'.log[i] == s.log[i];
      }
    }
  }

  lemma CommitKeepsPlace(s: State, gap: nat, body: CommitBody)
    requires ChannelOk(s) && PlaceOk(s)
    ensures ChannelOk(Apply(s, Step.Commit(gap, body))) && PlaceOk(Apply(s, Step.Commit(gap, body)))
  {
    CommitKeepsChannel(s, gap, body);
    var t := Apply(s, Step.Commit(gap, body));
    assert forall i :: 0 <= i < |s.log| ==> t.log[i] == s.log[i] && s.log[i].seqNo <= MaxSeq(s.log);
  }

  /** A new row lies beyond the interval already sent. */
  lemma {:induction false} CommitKeepsExact(s: State, gap: nat, body: CommitBody)
    requires Sorted(s.log) && Exact(s)
    ensures Exact(Apply(s, Step.Commit(gap, body)))
  {
    var row := Row(MaxSeq(s.log) + 1 + gap, Some(body), false);
    DeliverableAppend(s.log, row, s.sub.base, s.sub.session.last);
  }

  lemma {:induction false} CommitComplete(s: State, gap: nat, body: CommitBody)
    requires CompleteInv(s)
    ensures CompleteInv(Apply(s, Step.Commit(gap, body)))
  {
    CommitKeepsPage(s, gap, body);
    CommitKeepsExact(s, gap, body);
    CommitKeepsChannel(s, gap, body);
    if s.sub.phase.Live? {
      CommitKeepsPlace(s, gap, body);
    }
  }

  lemma PublishKeepsChannel(s: State)
    requires ChannelOk(s) && s.pending != []
    ensures ChannelOk(Apply(s, Publish(0)))
  {
    var s' := Apply(s, Publish(0));
    assert s'.published + s'.pending == s.published + s.pending;
  }

  lemma PublishComplete(s: State)
    requires CompleteInv(s) && s.pending != []
    ensures CompleteInv(Apply(s, Publish(0)))
  {
    PublishKeepsChannel(s);
  }

  /** A stream without a cursor starts after the newest event already published. */
  lemma JoinPlace(s: State)
    requires ChannelOk(s) && Enabled(s, Subscribe(None))
    ensures PlaceOk(Apply(s, Subscribe(None))) && 0 <= JoinSeq(s)
  {
    assert forall i :: 0 <= i < |s.log| ==> s.log[i].seqNo <= MaxSeq(s.log);
  }

  lemma {:induction false} SubscribeComplete(s: State, c: Option<int>)
    requires CompleteInv(s) && Enabled(s, Subscribe(c))
    ensures CompleteInv(Apply(s, Subscribe(c)))
  {
    var s' := Apply(s, Subscribe(c));
    DeliverableEmpty(s.log, s'.sub.base, s'.sub.session.last);
    if c.None? {
      JoinPlace(s);
    }
  }

  lemma FetchComplete(s: State)
    requires CompleteInv(s) && Enabled(s, FetchPage)
    ensures CompleteInv(Apply(s, FetchPage))
  {
    if VisibleAfter(s.log, s.sub.session.last) == [] {
      VisibleNone(s.log, s.sub.session.last);
    }
  }

  lemma SendRowExact(s: State)
    requires Sorted(s.log) && PageOk(s) && Exact(s) && Enabled(s, SendRow) && s.sub.base <= s.sub.session.last
    ensures Exact(Apply(s, SendRow))
  {
    var k := VisibleHead(s.log, s.sub.session.last);
    DeliverableExtend(s.log, s.sub.base, s.sub.session.last, k);
    assert s.log[k] == s.sub.phase.page[0] && s.log[k].seqNo <= MaxSeq(s.log);
  }

  lemma SendRowComplete(s: State)
    requires CompleteInv(s) && Enabled(s, SendRow)
    ensures CompleteInv(Apply(s, SendRow))
  {
    SendRowKeepsPage(s);
    SendRowExact(s);
  }

  lemma LagComplete(s: State)
    requires CompleteInv(s) && Enabled(s, Receive) && Lagging(s)
    ensures CompleteInv(Apply(s, Receive))
  {
    if s.sub.session.last < s.sub.base {
      DeliverableEmpty(s.log, s.sub.base, s.sub.session.last);
      DeliverableEmpty(s.log, s.sub.session.last, s.sub.session.last);
    }
  }

  lemma {:induction false} EventIsRow(s: State)
    requires ChannelOk(s) && s.sub.pos < |s.published|
    ensures var k := s.floor + s.sub.pos;
      k < |s.log| && CanSend(s.log[k]) && s.published[s.sub.pos] == FrameOf(s.log[k]) && s.log[k].seqNo <= MaxSeq(s.log)
  {
    var k := s.floor + s.sub.pos;
    assert (s.published + s.pending)[k - s.floor] == s.published[s.sub.pos];
  }

  /** Moving an interval over the next deliverable row adds that row, even from before its start. */
  lemma {:induction false} IntervalMoves(log: seq<Row>, base: int, last: int, k: nat)
    requires Sorted(log) && k < |log| && CanSend(log[k]) && last < log[k].seqNo && base < log[k].seqNo
    requires forall i :: 0 <= i < k && CanSend(log[i]) ==> log[i].seqNo <= last || log[i].seqNo <= base
    ensures Deliverable(log, base, log[k].seqNo) == Deliverable(log, base, last) + [FrameOf(log[k])]
  {
    if last < base {
      DeliverableEmpty(log, base, last);
      DeliverableEmpty(log, base, base);
      DeliverableExtend(log, base, base, k);
    } else {
      DeliverableExtend(log, base, last, k);
    }
  }

  /** The event at the receiver's place is the next deliverable row, or was already sent. */
  lemma {:induction false} EventExact(s: State)
    requires CompleteInv(s) && Enabled(s, Receive) && !Lagging(s)
    ensures var k := s.floor + s.sub.pos; s.published[s.sub.pos] == FrameOf(s.log[k])
    ensures Exact(Apply(s, Receive))
  {
    EventIsRow(s);
    var k := s.floor + s.sub.pos;
    if s.sub.session.last < s.log[k].seqNo {
      IntervalMoves(s.log, s.sub.base, s.sub.session.last, k);
    }
  }

  lemma EventComplete(s: State)
    requires CompleteInv(s) && Enabled(s, Receive) && !Lagging(s)
    ensures CompleteInv(Apply(s, Receive))
  {
    EventExact(s);
    var s', k := Apply(s, Receive), s.floor + s.sub.pos;
    assert s'.sub.session.last == s.sub.session.last || s'.sub.session.last == s.log[k].seqNo;
  }

  lemma CompleteStep(s: State, step: Step)
    requires CompleteInv(s) && Enabled(s, step) && (step.Publish? ==> step.i == 0)
    ensures CompleteInv(Apply(s, step))
  {
    match step
    case Commit(gap, body) => CommitComplete(s, gap, body);
    case Publish(i) => PublishComplete(s);
    case Subscribe(c) => SubscribeComplete(s, c);
    case Check =>
    case FetchPage => FetchComplete(s);
    case SendRow => SendRowComplete(s);
    case Receive => if Lagging(s) { LagComplete(s); } else { EventComplete(s); }
    case Stop =>
  }

  lemma {:induction false} CompleteRun(s: State, steps: seq<Step>)
    requires CompleteInv(s) && Legal(s, steps) && PublishesInOrder(steps)
    ensures CompleteInv(Exec(s, steps))
    decreases |steps|
  {
    if steps == [] {
    } else {
      CompleteStep(s, steps[0]);
      CompleteRun(Apply(s, steps[0]), steps[1..]);
    }
  }

  /** Completeness. In every interleaving whose publishes follow seq order, lag recovery
      included, a subscriber with cursor `c` has been sent exactly the deliverable rows with
      `c < seq <= last`, in order and once each. */
  lemma EmbeddedStreamComplete(s: State, steps: seq<Step>)
    requires Init(s) && Legal(s, steps) && PublishesInOrder(steps)
    ensures var t := Exec(s, steps); t.sub.cursor.Some? ==>
      t.sub.session.sent == Deliverable(t.log, t.sub.cursor.value, t.sub.session.last)
    ensures var t := Exec(s, steps);
      t.sub.session.sent == Deliverable(t.log, t.sub.base, t.sub.session.last)
  {
    DeliverableEmpty(s.log, 0, 0);
    CompleteRun(s, steps);
  }

  lemma {:induction false} DrainedIsSuffix(t: State)
    requires CompleteInv(t)
    ensures t.sub.phase.Live? && t.sub.pos == |t.published| && t.pending == [] ==>
      t.sub.session.sent == Deliverable(t.log, t.sub.base, MaxSeq(t.log))
  {
    if t.sub.phase.Live? && t.sub.pos == |t.published| && t.pending == [] {
      var last := t.sub.session.last;
      if last <= MaxSeq(t.log) {
        DeliverableSame(t.log, t.sub.base, last, MaxSeq(t.log));
      } else {
        assert forall i :: 0 <= i < |t.log| ==> t.log[i].seqNo <= MaxSeq(t.log);
        DeliverableSame(t.log, t.sub.base, MaxSeq(t.log), last);
      }
    }
  }

  /** Once the receiver has drained a channel with nothing left to publish, no deliverable
      row after `base` is missing: the stream is the whole ordered suffix of the log. */
  lemma DrainedStreamIsSuffix(s: State, steps: seq<Step>)
    requires Init(s) && Legal(s, steps) && PublishesInOrder(steps)
    ensures var t := Exec(s, steps);
      t.sub.phase.Live? && t.sub.pos == |t.published| && t.pending == [] ==>
      t.sub.session.sent == Deliverable(t.log, t.sub.base, MaxSeq(t.log))
    ensures var t := Exec(s, steps); t.sub.cursor.Some? ==> t.sub.base == t.sub.cursor.value
  {
    DeliverableEmpty(s.log, 0, 0);
    CompleteRun(s, steps);
    DrainedIsSuffix(Exec(s, steps));
  }

  /** What a stream opened without a cursor owes: it starts after the newest event already
      published, and only a lag before its first live frame moves that point, back to 0. */
  lemma BaseMoves(s: State, step: Step)
    requires CompleteInv(s) && Enabled(s, step)
    ensures var t := Apply(s, step); t.sub.base != s.sub.base ==>
      || (step.Subscribe? && t.sub.base == (if step.cursor.Some? then step.cursor.value else JoinSeq(s)))
      || (step.Receive? && Lagging(s) && s.sub.cursor.None? && s.sub.session.sent == [] && t.sub.base == 0)
  {
    if s.sub.session.last < s.sub.base {
      DeliverableEmpty(s.log, s.sub.base, s.sub.session.last);
    }
  }
}
