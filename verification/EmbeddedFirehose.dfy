/** The embedded server's stream loop: paged backfill, live relay with dedup by seq,
    one recovery from lag. The loops run here against whatever the channel and the
    store answer; `FirehoseMachine` interleaves the same steps with the writers. */
module EmbeddedFirehose {
  import opened Wrappers
  import opened FirehoseLog

  const BACKFILL_PAGE: nat := 500

  /** What happened on a session that matters for the lag policy, oldest first. */
  datatype Note = LiveSent(seqNo: int) | Recovered | TooSlow

  /** The loop variables of `handle_firehose`, with the commit frames written so far. */
  datatype Session = Session(last: int, recovered: bool, sent: seq<Frame>, notes: seq<Note>)

  /** A backfilled row: a corrupt one only moves the cursor. */
  function OnRow(s: Session, r: Row): Session {
    if r.event.Some? then s.(last := r.seqNo, sent := s.sent + [FrameOf(r)])
    else s.(last := r.seqNo)
  }

  /** A live event: dropped when the backfill already covered it. */
  function OnEvent(s: Session, e: Frame): Session {
    if e.seqNo <= s.last then s
    else s.(last := e.seqNo, recovered := false, sent := s.sent + [e], notes := s.notes + [LiveSent(e.seqNo)])
  }

  function OnRecovery(s: Session): Session {
    s.(recovered := true, notes := s.notes + [Recovered])
  }

  ghost predicate Ascending(frames: seq<Frame>) {
    forall i, j :: 0 <= i < j < |frames| ==> frames[i].seqNo < frames[j].seqNo
  }

  /** Strictly increasing frames above the cursor and no later than `last`; the lag
      flag says that the latest note is a recovery. */
  ghost predicate InOrder(s: Session, cursor: int) {
    && Ascending(s.sent)
    && (forall i :: 0 <= i < |s.sent| ==> cursor < s.sent[i].seqNo <= s.last)
    && cursor <= s.last
    && (s.recovered <==> s.notes != [] && s.notes[|s.notes| - 1] == Recovered)
    && TooSlow !in s.notes
  }

  lemma EventKeepsOrder(s: Session, e: Frame, cursor: int)
    requires InOrder(s, cursor)
    ensures InOrder(OnEvent(s, e), cursor)
  {
  }

  lemma RowKeepsOrder(s: Session, r: Row, cursor: int)
    requires InOrder(s, cursor) && s.last < r.seqNo
    ensures InOrder(OnRow(s, r), cursor)
  {
  }

  lemma BackfillKeepsOrder(s: Session, log: seq<Row>, upTo: int, cursor: int)
    requires InOrder(s, cursor) && Sorted(log) && s.last <= upTo
    ensures InOrder(s.(sent := s.sent + Deliverable(log, s.last, upTo), last := upTo), cursor)
  {
    DeliverableAscends(log, s.last, upTo);
  }

  /** Writes one fetched page. */
  method SendPage(log: seq<Row>, after: int, page: seq<Row>, frames0: seq<Frame>, last0: int)
    returns (frames: seq<Frame>, last: int)
    requires Sorted(log) && after <= last0 && page <= VisibleAfter(log, last0)
    requires frames0 == Deliverable(log, after, last0)
    ensures last0 <= last && (page != [] ==> last == page[|page| - 1].seqNo)
    ensures frames == Deliverable(log, after, last)
    ensures VisibleAfter(log, last) == VisibleAfter(log, last0)[|page|..]
  {
    frames, last := frames0, last0;
    for n := 0 to |page|
      invariant last0 <= last && (0 < n ==> last == page[n - 1].seqNo)
      invariant frames == Deliverable(log, after, last)
      invariant VisibleAfter(log, last) == VisibleAfter(log, last0)[n..]
    {
      ghost var k := VisibleHead(log, last);
      assert log[k] == page[n];
      DeliverableExtend(log, after, last, k);
      if page[n].event.Some? {
        frames := frames + [FrameOf(page[n])];
      }
      last := page[n].seqNo;
    }
  }

  /** Pages through a fixed log. Terminates whatever rows are corrupt or invalidated, and
      sends exactly the deliverable rows after the cursor. */
  method RunBackfill(log: seq<Row>, after: int) returns (frames: seq<Frame>, last: int)
    requires Sorted(log)
    ensures after <= last
    ensures frames == Deliverable(log, after, last)
    ensures forall i :: 0 <= i < |log| && Visible(log[i]) ==> log[i].seqNo <= last
    ensures last == BackfillEnd(log, after)
  {
    frames, last := [], after;
    DeliverableEmpty(log, after, after);
    while true
      invariant after <= last && frames == Deliverable(log, after, last)
      invariant BackfillEnd(log, last) == BackfillEnd(log, after)
      decreases |VisibleAfter(log, last)|
    {
      var page := BackfillPage(log, last, BACKFILL_PAGE);
      if |page| == 0 {
        VisibleNone(log, last);
        break;
      }
      frames, last := SendPage(log, after, page, frames, last);
    }
  }

  lemma {:induction false} DeliverableEmpty(log: seq<Row>, lo: int, hi: int)
    requires hi <= lo
    ensures Deliverable(log, lo, hi) == []
  {
    if log == [] {
    } else {
      DeliverableEmpty(log[..|log| - 1], lo, hi);
    }
  }

  /** What `select!` hands the loop. A lag comes with the log the recovery will read. */
  datatype Input = Event(e: Frame) | Lagged(log: seq<Row>) | Ping | OtherData | CloseRequest | Disconnected

  datatype Outcome = Serving | FutureCursor | ConsumerTooSlow | Ended

  /** Where a backfill of a fixed log leaves the cursor. */
  function BackfillEnd(log: seq<Row>, after: int): int {
    var rows := VisibleAfter(log, after);
    if rows == [] then after else rows[|rows| - 1].seqNo
  }

  function Catchup(s: Session, log: seq<Row>): Session {
    var upTo := BackfillEnd(log, s.last);
    s.(sent := s.sent + Deliverable(log, s.last, upTo), last := upTo)
  }

  /** The session's reaction to one input that does not end it, or to the second lag. */
  function React(s: Session, input: Input): Session {
    match input
    case Event(e) => OnEvent(s, e)
    case Lagged(log) => if s.recovered then s.(notes := s.notes + [TooSlow]) else Catchup(OnRecovery(s), log)
    case _ => s
  }

  function Play(s: Session, script: seq<Input>): Session {
    if script == [] then s else React(Play(s, script[..|script| - 1]), script[|script| - 1])
  }

  /** A session that has passed the cursor check and its first backfill. */
  function Opened(cursor: Option<int>, log: seq<Row>): Session {
    match cursor
    case None => Session(0, false, [], [])
    case Some(c) => Catchup(Session(c, false, [], []), log)
  }

  lemma ReactKeepsOrder(s: Session, input: Input, cursor: int)
    requires InOrder(s, cursor) && (input.Lagged? ==> Sorted(input.log) && !s.recovered)
    ensures InOrder(React(s, input), cursor)
  {
    if input.Lagged? {
      CatchupKeepsOrder(OnRecovery(s), input.log, cursor);
    }
  }

  lemma CatchupKeepsOrder(s: Session, log: seq<Row>, cursor: int)
    requires InOrder(s, cursor) && Sorted(log)
    ensures InOrder(Catchup(s, log), cursor)
  {
    if VisibleAfter(log, s.last) != [] {
      VisibleBound(log, s.last, |VisibleAfter(log, s.last)| - 1);
    }
    BackfillKeepsOrder(s, log, BackfillEnd(log, s.last), cursor);
  }

  lemma {:induction false} VisibleBound(log: seq<Row>, after: int, n: nat)
    requires n < |VisibleAfter(log, after)|
    ensures after < VisibleAfter(log, after)[n].seqNo
  {
    var front := log[..|log| - 1];
    if n < |VisibleAfter(front, after)| {
      VisibleBound(front, after, n);
    }
  }

  method CatchUp(s: Session, log: seq<Row>) returns (r: Session)
    requires Sorted(log)
    ensures r == Catchup(s, log)
  {
    var frames, upTo := RunBackfill(log, s.last);
    r := s.(sent := s.sent + frames, last := upTo);
  }

  /** What a client may rely on in every run: frames ascend above the cursor, and
      `ConsumerTooSlow` only ever follows a recovery with no live frame in between. */
  ghost predicate Orderly(s: Session, cursor: int) {
    && Ascending(s.sent)
    && (forall i :: 0 <= i < |s.sent| ==> cursor < s.sent[i].seqNo)
    && (forall i :: 0 <= i < |s.notes| && s.notes[i] == TooSlow ==>
          i == |s.notes| - 1 && 0 < i && s.notes[i - 1] == Recovered)
  }

  lemma InOrderIsOrderly(s: Session, cursor: int)
    requires InOrder(s, cursor)
    ensures Orderly(s, cursor)
    ensures s.recovered ==> Orderly(s.(notes := s.notes + [TooSlow]), cursor)
  {
  }

  // ---- what a session has sent ----

  /** A deliverable row `j` of the full log that the session could already have been sent: it was in
      the log at the start, in the log of a lag's recovery, or among the events. */
  ghost predicate Offered(log: seq<Row>, script: seq<Input>, full: seq<Row>, j: nat)
    requires j < |full|
  {
    || j < |log|
    || (exists k :: 0 <= k < |script| && OfferedBy(script[k], full, j))
  }

  predicate OfferedBy(input: Input, full: seq<Row>, j: nat)
    requires j < |full|
  {
    || (input.Lagged? && j < |input.log|)
    || (input.Event? && full[j].event.Some? && input.e == FrameOf(full[j]))
  }

  /** The event is a row of the full log and no deliverable row was left out before it. */
  ghost predicate Next(log: seq<Row>, script: seq<Input>, full: seq<Row>, e: Frame) {
    exists i :: 0 <= i < |full| && NextAt(log, script, full, e, i)
  }

  ghost predicate NextAt(log: seq<Row>, script: seq<Input>, full: seq<Row>, e: Frame, i: nat)
    requires i < |full|
  {
    && CanSend(full[i]) && e == FrameOf(full[i])
    && (forall j :: 0 <= j < i && CanSend(full[j]) ==> Offered(log, script, full, j))
  }

  /** A script as a log growing to `full` and its events in seq order produce it: every log read
      is a part of the full one, and every event is the next row not yet offered, or an older one. */
  ghost predicate Feeds(log: seq<Row>, script: seq<Input>, full: seq<Row>) {
    && Sorted(full) && log <= full
    && (forall k :: 0 <= k < |script| && script[k].Lagged? ==> script[k].log <= full)
    && (forall k :: 0 <= k < |script| && script[k].Event? ==> Next(log, script[..k], full, script[k].e))
  }

  /** The interval sent, and nothing offered left behind. */
  ghost predicate Sent(s: Session, cursor: int, log: seq<Row>, script: seq<Input>, full: seq<Row>) {
    && cursor <= s.last && s.sent == Deliverable(full, cursor, s.last)
    && (forall j :: 0 <= j < |full| && CanSend(full[j]) && Offered(log, script, full, j) ==> full[j].seqNo <= s.last)
  }

  /** A backfill of a part of the full log extends the interval and leaves nothing of it behind. */
  lemma {:induction false} CatchupSends(s: Session, cursor: int, part: seq<Row>, full: seq<Row>)
    requires Sorted(full) && part <= full && cursor <= s.last && s.sent == Deliverable(full, cursor, s.last)
    ensures var t := Catchup(s, part);
      && s.last <= t.last && t.sent == Deliverable(full, cursor, t.last)
      && (forall j :: 0 <= j < |part| && Visible(part[j]) ==> part[j].seqNo <= t.last)
  {
    var t := Catchup(s, part);
    BackfillEndIsRow(part, s.last);
    assert forall i :: 0 <= i < |part| ==> part[i] == full[i];
    if s.last < t.last {
      assert full[..|part|] == part;
      DeliverablePrefix(full, |part|, s.last, t.last);
    } else {
      DeliverableEmpty(part, s.last, t.last);
      DeliverableEmpty(full, s.last, t.last);
    }
    DeliverableSplit(full, cursor, s.last, t.last);
  }

  /** A backfill ends at the last visible row after the cursor, or where it began. */
  lemma {:induction false} BackfillEndIsRow(log: seq<Row>, after: int)
    requires Sorted(log)
    ensures var upTo := BackfillEnd(log, after);
      && after <= upTo
      && (after < upTo ==> exists i :: 0 <= i < |log| && log[i].seqNo == upTo)
      && (forall i :: 0 <= i < |log| && Visible(log[i]) ==> log[i].seqNo <= upTo)
  {
    if log == [] {
    } else {
      var n := |log| - 1;
      BackfillEndIsRow(log[..n], after);
      var upTo, front := BackfillEnd(log, after), BackfillEnd(log[..n], after);
      assert upTo == if Visible(log[n]) && after < log[n].seqNo then log[n].seqNo else front;
      if after < upTo && upTo == front {
        var i :| 0 <= i < n && log[..n][i].seqNo == upTo;
        assert log[i].seqNo == upTo;
      }
      assert forall i :: 0 <= i < n ==> log[..n][i] == log[i] && log[i].seqNo < log[n].seqNo;
    }
  }

  lemma {:induction false} OpenedSends(cursor: int, log: seq<Row>, full: seq<Row>)
    requires Sorted(full) && log <= full
    ensures Sent(Opened(Some(cursor), log), cursor, log, [], full)
    ensures forall j :: 0 <= j < |log| && Visible(log[j]) ==> log[j].seqNo <= Opened(Some(cursor), log).last
  {
    DeliverableEmpty(full, cursor, cursor);
    CatchupSends(Session(cursor, false, [], []), cursor, log, full);
    assert forall i :: 0 <= i < |log| ==> log[i] == full[i];
  }

  lemma {:induction false} EventSends(
    s: Session, cursor: int, log: seq<Row>, script: seq<Input>, full: seq<Row>, e: Frame)
    requires Sorted(full) && Sent(s, cursor, log, script, full) && Next(log, script, full, e)
    ensures Sent(OnEvent(s, e), cursor, log, script + [Event(e)], full) && e.seqNo <= OnEvent(s, e).last
  {
    var t := OnEvent(s, e);
    var i :| 0 <= i < |full| && NextAt(log, script, full, e, i);
    if s.last < e.seqNo {
      DeliverableExtend(full, cursor, s.last, i);
    }
    forall j | 0 <= j < |full| && CanSend(full[j]) && Offered(log, script + [Event(e)], full, j)
      ensures full[j].seqNo <= t.last
    {
      OfferedSplit(log, script, Event(e), full, j);
    }
  }

  lemma {:induction false} LagSends(
    s: Session, cursor: int, log: seq<Row>, script: seq<Input>, full: seq<Row>, part: seq<Row>)
    requires Sorted(full) && Sent(s, cursor, log, script, full) && part <= full
    ensures Sent(Catchup(OnRecovery(s), part), cursor, log, script + [Lagged(part)], full)
    ensures forall j :: 0 <= j < |part| && Visible(part[j]) ==> part[j].seqNo <= Catchup(OnRecovery(s), part).last
  {
    var t := Catchup(OnRecovery(s), part);
    CatchupSends(OnRecovery(s), cursor, part, full);
    forall j | 0 <= j < |full| && CanSend(full[j]) && Offered(log, script + [Lagged(part)], full, j)
      ensures full[j].seqNo <= t.last
    {
      OfferedSplit(log, script, Lagged(part), full, j);
      assert j < |part| ==> part[j] == full[j];
    }
  }

  lemma OfferedSplit(log: seq<Row>, script: seq<Input>, input: Input, full: seq<Row>, j: nat)
    requires j < |full|
    ensures Offered(log, script + [input], full, j) <==> Offered(log, script, full, j) || OfferedBy(input, full, j)
  {
    var all := script + [input];
    if k :| 0 <= k < |script| && OfferedBy(script[k], full, j) {
      assert OfferedBy(all[k], full, j);
    }
    assert all[|script|] == input;
    if j >= |log| && Offered(log, all, full, j) {
      var k :| 0 <= k < |all| && OfferedBy(all[k], full, j);
      assert k < |script| ==> OfferedBy(script[k], full, j);
    }
  }

  /** Every event handled, and every visible row of the logs read, is behind the session. */
  ghost predicate Behind(s: Session, script: seq<Input>) {
    && (forall k :: 0 <= k < |script| && script[k].Event? ==> script[k].e.seqNo <= s.last)
    && (forall k :: 0 <= k < |script| && script[k].Lagged? ==> AllBehind(s, script[k].log))
  }

  ghost predicate AllBehind(s: Session, log: seq<Row>) {
    forall j :: 0 <= j < |log| && Visible(log[j]) ==> log[j].seqNo <= s.last
  }

  lemma FeedsFront(log: seq<Row>, script: seq<Input>, full: seq<Row>)
    requires Feeds(log, script, full) && script != []
    ensures Feeds(log, script[..|script| - 1], full)
  {
    var front := script[..|script| - 1];
    assert forall k :: 0 <= k < |front| ==> front[k] == script[k] && front[..k] == script[..k];
  }

  lemma ReactForward(s: Session, input: Input)
    requires input.Lagged? ==> Sorted(input.log)
    ensures s.last <= React(s, input).last && s.sent <= React(s, input).sent && s.notes <= React(s, input).notes
  {
    if input.Lagged? {
      BackfillEndIsRow(input.log, s.last);
    }
  }

  lemma SecondLagNoted(s: Session, input: Input)
    ensures s.recovered && input.Lagged? ==> TooSlow in React(s, input).notes
  {
    assert s.recovered && input.Lagged? ==> React(s, input).notes == s.notes + [TooSlow];
  }

  lemma {:induction false} PlayBehind(s: Session, script: seq<Input>)
    requires TooSlow !in Play(s, script).notes
    requires forall k :: 0 <= k < |script| && script[k].Lagged? ==> Sorted(script[k].log)
    ensures s.last <= Play(s, script).last && Behind(Play(s, script), script)
  {
    if script == [] {
    } else {
      var front, last := script[..|script| - 1], script[|script| - 1];
      var mid := Play(s, front);
      ReactForward(mid, last);
      PlayBehind(s, front);
      if last.Lagged? {
        BackfillEndIsRow(last.log, mid.last);
        SecondLagNoted(mid, last);
      }
      assert forall k :: 0 <= k < |front| ==> front[k] == script[k];
    }
  }

  /** A session with a cursor, fed by a growing log and its events in seq order, has been sent
      exactly the deliverable rows of that log from the cursor to its last seq. */
  lemma {:induction false} PlaySends(cursor: int, log: seq<Row>, script: seq<Input>, full: seq<Row>)
    requires Feeds(log, script, full) && TooSlow !in Play(Opened(Some(cursor), log), script).notes
    ensures Sent(Play(Opened(Some(cursor), log), script), cursor, log, script, full)
  {
    var o := Opened(Some(cursor), log);
    if script == [] {
      OpenedSends(cursor, log, full);
    } else {
      var n := |script| - 1;
      var front, last := script[..n], script[n];
      var mid := Play(o, front);
      assert script == front + [last];
      FeedsFront(log, script, full);
      if last.Lagged? {
        PrefixSorted(last.log, full);
      }
      ReactForward(mid, last);
      PlaySends(cursor, log, front, full);
      match last {
        case Event(e) => EventSends(mid, cursor, log, front, full, e);
        case Lagged(part) =>
          SecondLagNoted(mid, last);
          LagSends(mid, cursor, log, front, full, part);
        case _ => OtherSends(mid, cursor, log, front, full, last);
      }
    }
  }

  lemma OtherSends(s: Session, cursor: int, log: seq<Row>, script: seq<Input>, full: seq<Row>, input: Input)
    requires Sent(s, cursor, log, script, full) && !input.Event? && !input.Lagged?
    ensures Sent(s, cursor, log, script + [input], full)
  {
    forall j | 0 <= j < |full| && CanSend(full[j]) && Offered(log, script + [input], full, j)
      ensures full[j].seqNo <= s.last
    {
      OfferedSplit(log, script, input, full, j);
    }
  }

  lemma PrefixSorted(part: seq<Row>, full: seq<Row>)
    requires Sorted(full) && part <= full
    ensures Sorted(part)
  {
    assert forall i :: 0 <= i < |part| ==> part[i] == full[i];
  }

  /** The events that exceed `lo` and every earlier event, in order. */
  ghost function Highs(script: seq<Input>, lo: int): seq<Frame> {
    if script == [] then []
    else
      var n := |script| - 1;
      Highs(script[..n], lo) + (if script[n].Event? && IsHigh(script[..n], lo, script[n].e) then [script[n].e] else [])
  }

  ghost predicate IsHigh(script: seq<Input>, lo: int, e: Frame) {
    lo < e.seqNo && forall k :: 0 <= k < |script| && script[k].Event? ==> script[k].e.seqNo < e.seqNo
  }

  predicate NoLag(script: seq<Input>) { forall k :: 0 <= k < |script| ==> !script[k].Lagged? }

  /** Where a session without lags stands: at the highest event, or where it began. */
  ghost predicate AtTop(s: Session, lo: int, script: seq<Input>) {
    && lo <= s.last
    && (forall k :: 0 <= k < |script| && script[k].Event? ==> script[k].e.seqNo <= s.last)
    && (lo < s.last ==> exists k :: 0 <= k < |script| && script[k].Event? && script[k].e.seqNo == s.last)
  }

  /** Without lags a session relays, after its backfill, exactly the events that exceed all before. */
  lemma {:induction false} PlayRelays(s: Session, script: seq<Input>)
    requires NoLag(script)
    ensures Play(s, script).sent == s.sent + Highs(script, s.last)
    ensures AtTop(Play(s, script), s.last, script)
  {
    if script == [] {
    } else {
      var n := |script| - 1;
      var front, last := script[..n], script[n];
      PlayRelays(s, front);
      var mid, end := Play(s, front), Play(s, script);
      assert forall k :: 0 <= k < n ==> front[k] == script[k];
      if last.Event? {
        assert IsHigh(front, s.last, last.e) <==> mid.last < last.e.seqNo by {
          if s.last < mid.last {
            var k :| 0 <= k < n && front[k].Event? && front[k].e.seqNo == mid.last;
          }
        }
        if mid.last < last.e.seqNo {
          assert script[n].Event? && script[n].e.seqNo == end.last;
        }
      }
      if s.last < mid.last {
        var k :| 0 <= k < n && front[k].Event? && front[k].e.seqNo == mid.last;
        assert script[k].Event? && script[k].e.seqNo == mid.last;
      }
    }
  }

  // ---- the lag policy ----

  /** The session last recovered from the lag at `j`, and has sent no live frame since. */
  ghost predicate RecoveredAt(s: Session, script: seq<Input>, j: nat) {
    && j < |script| && script[j].Lagged? && NoLag(script[j + 1..])
    && Play(s, script[..j + 1]).sent == Play(s, script).sent
  }

  lemma {:induction false} PlayForward(s: Session, script: seq<Input>, j: nat)
    requires j <= |script| && forall k :: 0 <= k < |script| && script[k].Lagged? ==> Sorted(script[k].log)
    ensures Play(s, script[..j]).sent <= Play(s, script).sent
  {
    if j == |script| {
      assert script[..j] == script;
    } else {
      var front := script[..|script| - 1];
      assert front[..j] == script[..j];
      assert forall k :: 0 <= k < |front| ==> front[k] == script[k];
      PlayForward(s, front, j);
      ReactForward(Play(s, front), script[|script| - 1]);
    }
  }

  lemma NoLagSnoc(script: seq<Input>, input: Input)
    ensures NoLag(script + [input]) <==> NoLag(script) && !input.Lagged?
  {
    assert forall k :: 0 <= k < |script| ==> (script + [input])[k] == script[k];
    assert (script + [input])[|script|] == input;
  }

  lemma {:induction false} RecoveredStays(s: Session, script: seq<Input>, j: nat)
    requires script != [] && RecoveredAt(s, script[..|script| - 1], j) && !script[|script| - 1].Lagged?
    requires Play(s, script).sent == Play(s, script[..|script| - 1]).sent
    ensures RecoveredAt(s, script, j)
  {
    var front := script[..|script| - 1];
    assert front[..j + 1] == script[..j + 1];
    assert script == front + [script[|script| - 1]];
    assert script[j + 1..] == front[j + 1..] + [script[|script| - 1]];
    NoLagSnoc(front[j + 1..], script[|script| - 1]);
  }

  lemma {:induction false} RecoveredBefore(s: Session, script: seq<Input>, j: nat)
    requires RecoveredAt(s, script, j) && j < |script| - 1
    requires forall k :: 0 <= k < |script| && script[k].Lagged? ==> Sorted(script[k].log)
    ensures RecoveredAt(s, script[..|script| - 1], j) && !script[|script| - 1].Lagged?
    ensures Play(s, script).sent == Play(s, script[..|script| - 1]).sent
  {
    var front := script[..|script| - 1];
    assert front[..j + 1] == script[..j + 1];
    assert script[j + 1..] == front[j + 1..] + [script[|script| - 1]];
    NoLagSnoc(front[j + 1..], script[|script| - 1]);
    assert forall k :: 0 <= k < |front| ==> front[k] == script[k];
    PlayForward(s, front, j + 1);
    ReactForward(Play(s, front), script[|script| - 1]);
  }

  lemma {:induction false} LagRecovers(s: Session, script: seq<Input>)
    requires script != [] && script[|script| - 1].Lagged?
    ensures RecoveredAt(s, script, |script| - 1) && Play(s, script).recovered
  {
    assert script[..|script| - 1 + 1] == script && script[|script| - 1 + 1..] == [];
  }

  lemma {:induction false} StillRecovered(s: Session, script: seq<Input>)
    requires script != [] && !script[|script| - 1].Lagged? && Play(s, script).recovered
    ensures Play(s, script[..|script| - 1]).recovered
    ensures Play(s, script).sent == Play(s, script[..|script| - 1]).sent
  {
  }

  /** Losing the flag means that a frame was sent. */
  lemma {:induction false} FlagLost(s: Session, script: seq<Input>)
    requires script != [] && !script[|script| - 1].Lagged?
    requires Play(s, script[..|script| - 1]).recovered && !Play(s, script).recovered
    ensures Play(s, script).sent != Play(s, script[..|script| - 1]).sent
  {
    var mid := Play(s, script[..|script| - 1]);
    assert |Play(s, script).sent| == |mid.sent| + 1;
  }

  /** The lag flag says exactly that no live frame was sent since the last lag. */
  lemma {:induction false} RecoveredIff(s: Session, script: seq<Input>)
    requires !s.recovered
    requires forall k :: 0 <= k < |script| && script[k].Lagged? ==> Sorted(script[k].log)
    ensures Play(s, script).recovered <==> exists j :: RecoveredAt(s, script, j)
  {
    if script == [] {
    } else {
      var n := |script| - 1;
      var front := script[..n];
      assert forall k :: 0 <= k < n ==> front[k] == script[k];
      RecoveredIff(s, front);
      if script[n].Lagged? {
        LagRecovers(s, script);
      } else if Play(s, script).recovered {
        StillRecovered(s, script);
        var j :| RecoveredAt(s, front, j);
        RecoveredStays(s, script, j);
      } else if j :| RecoveredAt(s, script, j) {
        RecoveredBefore(s, script, j);
        FlagLost(s, script);
        assert false;
      }
    }
  }

  /** The next input is a second lag exactly when it is a lag and the flag is up. */
  lemma {:induction false} SecondLagIff(s: Session, script: seq<Input>, k: nat)
    requires k < |script| && !s.recovered
    requires forall i :: 0 <= i < |script| && script[i].Lagged? ==> Sorted(script[i].log)
    ensures SecondLag(s, script, k) <==> script[k].Lagged? && Play(s, script[..k]).recovered
  {
    RecoveredIff(s, script[..k]);
  }

  /** A second lag with no live frame sent since the one before. */
  ghost predicate SecondLag(s: Session, script: seq<Input>, k: nat) {
    k < |script| && script[k].Lagged? && exists j :: RecoveredAt(s, script[..k], j)
  }

  predicate Ends(input: Input) { input.CloseRequest? || input.Disconnected? }

  /** Why a session stopped, in terms of the script alone and of what had been sent. */
  ghost predicate Stopped(s: Session, script: seq<Input>, outcome: Outcome, handled: nat) {
    && handled <= |script|
    && (forall k :: 0 <= k < handled ==> !Ends(script[k]))
    && (forall k :: 0 <= k < handled && SecondLag(s, script, k) ==> outcome == ConsumerTooSlow && k == handled - 1)
    && match outcome
       case Serving => handled == |script|
       case Ended => handled < |script| && Ends(script[handled])
       case ConsumerTooSlow => 0 < handled && SecondLag(s, script, handled - 1)
       case FutureCursor => false
  }

  /** The inputs that were answered by anything but the end of the session. */
  function Served(script: seq<Input>, outcome: Outcome, handled: nat): seq<Input>
    requires handled <= |script| && (outcome == ConsumerTooSlow ==> 0 < handled)
  {
    if outcome == ConsumerTooSlow then script[..handled - 1] else script[..handled]
  }

  /** What a session that was let in has sent, for any full log that its reads and events come from:
      the deliverable rows after its cursor up to its last seq. And whatever the events are, it is
      past all of them and past every row it read, and without lags it has sent the backfill and
      then exactly the events that exceed all before. */
  ghost predicate Streamed(s: Session, cursor: Option<int>, log: seq<Row>, script: seq<Input>) {
    var lo := if cursor.Some? then BackfillEnd(log, cursor.value) else 0;
    && (cursor.Some? ==> forall full :: Feeds(log, script, full) ==> s.sent == Deliverable(full, cursor.value, s.last))
    && Behind(s, script) && (cursor.Some? ==> AllBehind(s, log))
    && (NoLag(script) ==>
          && s.sent == (if cursor.Some? then Deliverable(log, cursor.value, lo) else []) + Highs(script, lo)
          && AtTop(s, lo, script))
  }

  lemma {:induction false} PlayStreams(cursor: Option<int>, log: seq<Row>, script: seq<Input>)
    requires Sorted(log) && TooSlow !in Play(Opened(cursor, log), script).notes
    requires forall k :: 0 <= k < |script| && script[k].Lagged? ==> Sorted(script[k].log)
    ensures Streamed(Play(Opened(cursor, log), script), cursor, log, script)
  {
    var o := Opened(cursor, log);
    PlayBehind(o, script);
    if cursor.Some? {
      OpenedSends(cursor.value, log, log);
      forall full | Feeds(log, script, full)
        ensures Play(o, script).sent == Deliverable(full, cursor.value, Play(o, script).last)
      {
        PlaySends(cursor.value, log, script, full);
      }
    }
    if NoLag(script) {
      PlayRelays(o, script);
    }
  }

  /** An event is relayed unless already sent, and the first lag is met with a backfill. */
  method Respond(s: Session, input: Input) returns (r: Session)
    requires input.Lagged? ==> Sorted(input.log) && !s.recovered
    ensures r == React(s, input)
  {
    r := s;
    if input.Event? {
      if input.e.seqNo > s.last {
        r := r.(last := input.e.seqNo, recovered := false, sent := r.sent + [input.e],
                notes := r.notes + [LiveSent(input.e.seqNo)]);
      }
    } else if input.Lagged? {
      r := CatchUp(OnRecovery(s), input.log);
    }
  }

  lemma {:induction false} PlayKeepsOrder(s: Session, script: seq<Input>, cursor: int)
    requires InOrder(s, cursor) && TooSlow !in Play(s, script).notes
    requires forall k :: 0 <= k < |script| && script[k].Lagged? ==> Sorted(script[k].log)
    ensures InOrder(Play(s, script), cursor)
  {
    if script == [] {
    } else {
      var front, last := script[..|script| - 1], script[|script| - 1];
      assert forall k :: 0 <= k < |front| ==> front[k] == script[k];
      ReactForward(Play(s, front), last);
      PlayKeepsOrder(s, front, cursor);
      SecondLagNoted(Play(s, front), last);
      ReactKeepsOrder(Play(s, front), last, cursor);
    }
  }

  /** The select loop: relay and dedup events, recover once from lag, until something ends it. */
  method Serve(o: Session, script: seq<Input>) returns (s: Session, outcome: Outcome, handled: nat)
    requires !o.recovered && TooSlow !in o.notes
    requires forall i :: 0 <= i < |script| && script[i].Lagged? ==> Sorted(script[i].log)
    ensures handled <= |script| && outcome != FutureCursor && Stopped(o, script, outcome, handled)
    ensures s == Play(o, script[..handled])
    ensures outcome == ConsumerTooSlow <==> TooSlow in s.notes
    ensures var t := Play(o, Served(script, outcome, handled));
      TooSlow !in t.notes && s == if outcome == ConsumerTooSlow then t.(notes := t.notes + [TooSlow]) else t
    ensures outcome == ConsumerTooSlow ==> Play(o, Served(script, outcome, handled)).recovered
  {
    s, handled := o, 0;
    while handled < |script|
      invariant handled <= |script| && s == Play(o, script[..handled]) && TooSlow !in s.notes
      invariant forall k :: 0 <= k < handled ==> !Ends(script[k]) && !SecondLag(o, script, k)
    {
      var input := script[handled];
      assert script[..handled + 1][..handled] == script[..handled];
      if input.CloseRequest? || input.Disconnected? {
        return s, Ended, handled;
      }
      SecondLagIff(o, script, handled);
      handled := handled + 1;
      if input.Lagged? && s.recovered {
        s := s.(notes := s.notes + [TooSlow]);
        return s, ConsumerTooSlow, handled;
      }
      s := Respond(s, input);
    }
    outcome := Serving;
  }

  /** The whole of `handle_firehose` on any script of inputs, with no assumption about the
      order in which events were published. */
  method HandleFirehose(cursor: Option<int>, log: seq<Row>, script: seq<Input>)
    returns (s: Session, outcome: Outcome, handled: nat)
    requires cursor.Some? ==> 0 <= cursor.value
    requires Sorted(log) && forall i :: 0 <= i < |script| && script[i].Lagged? ==> Sorted(script[i].log)
    ensures outcome == FutureCursor <==> cursor.Some? && MaxSeq(log) < cursor.value
    ensures outcome == FutureCursor ==> s.sent == []
    ensures handled <= |script|
    ensures outcome != FutureCursor ==> s == Play(Opened(cursor, log), script[..handled])
    ensures outcome != FutureCursor ==> Stopped(Opened(cursor, log), script, outcome, handled)
    ensures outcome != FutureCursor ==> Streamed(s, cursor, log, Served(script, outcome, handled))
    ensures Orderly(s, if cursor.Some? then cursor.value else 0)
    ensures outcome == ConsumerTooSlow <==> TooSlow in s.notes
  {
    var last := if cursor.Some? then cursor.value else 0;
    s, handled := Session(last, false, [], []), 0;
    if cursor.Some? && MaxSeq(log) < last {
      return s, FutureCursor, 0;
    }
    if cursor.Some? {
      CatchupKeepsOrder(s, log, last);
      s := CatchUp(s, log);
    }
    s, outcome, handled := Serve(s, script);
    ghost var done := Served(script, outcome, handled);
    PlayStreams(cursor, log, done);
    StreamedBySent(Play(Opened(cursor, log), done), s, cursor, log, done);
    PlayKeepsOrder(Opened(cursor, log), done, last);
    InOrderIsOrderly(Play(Opened(cursor, log), done), last);
  }

  lemma {:induction false} StreamedBySent(
    t: Session, s: Session, cursor: Option<int>, log: seq<Row>, script: seq<Input>)
    requires Streamed(t, cursor, log, script) && t.sent == s.sent && t.last == s.last
    ensures Streamed(s, cursor, log, script)
  {
  }

  /** Relaying a batch of live events one after another. */
  function Relay(s: Session, events: seq<Frame>): Session {
    if events == [] then s else OnEvent(Relay(s, events[..|events| - 1]), events[|events| - 1])
  }

  /** The dedup rule loses an event exactly when publishing left seq order: a live
      subscriber relays everything if and only if the events ascend from its cursor. */
  lemma {:induction false} RelayLosesNothingIffOrdered(s: Session, events: seq<Frame>)
    ensures s.last <= Relay(s, events).last
    ensures |Relay(s, events).sent| <= |s.sent| + |events|
    ensures Ascending(events) && (forall i :: 0 <= i < |events| ==> s.last < events[i].seqNo) <==>
            |Relay(s, events).sent| == |s.sent| + |events|
    ensures |Relay(s, events).sent| == |s.sent| + |events| ==>
              && Relay(s, events).sent == s.sent + events
              && Relay(s, events).last == (if events == [] then s.last else events[|events| - 1].seqNo)
  {
    if events == [] {
    } else {
      var n := |events| - 1;
      RelayLosesNothingIffOrdered(s, events[..n]);
      var mid := Relay(s, events[..n]);
      if |mid.sent| == |s.sent| + n && mid.last < events[n].seqNo {
        assert events[..n] + [events[n]] == events;
        assert forall i :: 0 <= i < n ==> events[..n][i].seqNo <= mid.last;
        assert forall i :: 0 <= i < n ==> events[i] == events[..n][i];
      }
    }
  }
}
