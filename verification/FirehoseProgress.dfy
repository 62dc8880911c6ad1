/** Nothing keeps a subscriber from its rows but a second lag or a cursor beyond the head: from
    every other state some reads alone bring it level with the channel. */
module FirehoseProgress {
  import opened Wrappers
  import opened RepoData
  import opened FirehoseLog
  import opened EmbeddedFirehose
  import opened FirehoseMachine
  import opened FirehoseOrder

  /** Reads lead from `s` to `t`: nothing is written, and no lag is met on the way. */
  ghost predicate ReadsTo(s: State, steps: seq<Step>, t: State) {
    && Leads(s, steps, t) && Writes(steps) == [] && CompleteInv(t)
    && t == s.(sub := t.sub) && t.sub.cursor == s.sub.cursor && s.sub.session.sent <= t.sub.session.sent
  }

  /** A read moves only the subscriber, and only forward. */
  lemma {:induction false} ReadIsForward(s: State, step: Step)
    requires Enabled(s, step) && !IsWrite(step) && !step.Subscribe?
    ensures Apply(s, step) == s.(sub := Apply(s, step).sub) && Apply(s, step).sub.cursor == s.sub.cursor
    ensures s.sub.session.sent <= Apply(s, step).sub.session.sent
  {
  }

  lemma {:induction false} ReadStep(s: State, step: Step, more: seq<Step>, t: State)
    requires Enabled(s, step) && !IsWrite(step) && !step.Subscribe? && ReadsTo(Apply(s, step), more, t)
    ensures ReadsTo(s, [step] + more, t)
  {
    ReadIsForward(s, step);
    LeadsCons(s, step, more, t);
    WritesCons(step, more);
  }

  lemma {:induction false} ReadsNothing(s: State)
    requires CompleteInv(s)
    ensures ReadsTo(s, [], s)
  {
  }

  ghost predicate Drained(s: State) { s.sub.phase.Live? && s.sub.pos == |s.published| }

  lemma {:induction false} SendShrinks(s: State)
    requires CompleteInv(s) && Enabled(s, SendRow)
    ensures |VisibleAfter(s.log, Apply(s, SendRow).sub.session.last)| < |VisibleAfter(s.log, s.sub.session.last)|
  {
    var k := VisibleHead(s.log, s.sub.session.last);
    assert s.log[k] == s.sub.phase.page[0];
  }

  /** A backfill always ends, whatever rows are corrupt, with every visible row read. */
  lemma {:induction false} BackfillEnds(s: State) returns (steps: seq<Step>, t: State)
    requires CompleteInv(s) && s.sub.phase.Backfill?
    ensures ReadsTo(s, steps, t) && t.sub.phase.Live? && VisibleAfter(t.log, t.sub.session.last) == []
    ensures t.sub.pos == s.sub.pos && t.sub.session.notes == s.sub.session.notes
    ensures t.sub.session.recovered == s.sub.session.recovered && t.sub.base == s.sub.base
    decreases |VisibleAfter(s.log, s.sub.session.last)|, if s.sub.phase.page == [] then 1 else 0
  {
    var step := if s.sub.phase.page == [] then FetchPage else SendRow;
    var next := Apply(s, step);
    CompleteStep(s, step);
    if step == FetchPage && next.sub.phase.Live? {
      ReadsNothing(next);
      steps, t := [], next;
    } else {
      if step == SendRow {
        SendShrinks(s);
      }
      steps, t := BackfillEnds(next);
    }
    ReadStep(s, step, steps, t);
    steps := [step] + steps;
  }

  /** A live subscriber can receive all there is, unless it is about to be found too slow. */
  lemma {:induction false} LiveDrains(s: State) returns (steps: seq<Step>, t: State)
    requires CompleteInv(s) && s.sub.phase.Live? && s.sub.pos <= |s.published|
    requires Lagging(s) ==> !s.sub.session.recovered
    ensures ReadsTo(s, steps, t) && Drained(t)
    decreases |s.published| - s.sub.pos
  {
    if s.sub.pos == |s.published| {
      ReadsNothing(s);
      steps, t := [], s;
    } else {
      var next := Apply(s, Receive);
      CompleteStep(s, Receive);
      if Lagging(s) {
        steps, t := BackfillEnds(next);
      } else {
        steps, t := LiveDrains(next);
      }
      ReadStep(s, Receive, steps, t);
      steps := [Receive] + steps;
    }
  }

  /** A subscriber that is being served and has not lagged twice in a row. */
  ghost predicate InService(s: State) {
    (s.sub.phase.Backfill? || s.sub.phase.Live?) && (Lagging(s) ==> !s.sub.session.recovered)
  }

  lemma {:induction false} ServiceDrains(s: State) returns (steps: seq<Step>, t: State)
    requires CompleteInv(s) && InService(s)
    ensures ReadsTo(s, steps, t) && Drained(t)
    ensures t.pending == [] ==> t.sub.session.sent == Deliverable(t.log, t.sub.base, MaxSeq(t.log))
  {
    if s.sub.phase.Live? {
      steps, t := LiveDrains(s);
    } else {
      var mid: State, more: seq<Step>;
      steps, mid := BackfillEnds(s);
      more, t := LiveDrains(mid);
      LeadsAppend(s, steps, mid, more, t);
      WritesAppend(steps, more);
      steps := steps + more;
    }
    DrainedIsSuffix(t);
  }

  /** After any run in seq order, a subscriber in service can be brought level by reads alone, and has
      then been sent the whole ordered suffix of the log as soon as nothing is pending. */
  lemma {:induction false} EveryStreamCatchesUp(s: State, run: seq<Step>) returns (steps: seq<Step>, t: State)
    requires Init(s) && Legal(s, run) && PublishesInOrder(run) && InService(Exec(s, run))
    ensures ReadsTo(Exec(s, run), steps, t) && Drained(t)
    ensures t.pending == [] ==> t.sub.session.sent == Deliverable(t.log, t.sub.base, MaxSeq(t.log))
  {
    DeliverableEmpty(s.log, 0, 0);
    CompleteRun(s, run);
    steps, t := ServiceDrains(Exec(s, run));
  }

  /** One that lags again without a live frame in between is stopped on the spot. */
  lemma {:induction false} SecondLagStops(s: State)
    requires CompleteInv(s) && 0 < s.cap && s.sub.phase.Live? && Lagging(s) && s.sub.session.recovered
    ensures Enabled(s, Receive)
    ensures Apply(s, Receive).sub.phase == Stopped(ConsumerTooSlow)
    ensures Apply(s, Receive).sub.session.sent == s.sub.session.sent
  {
  }

  /** A new subscriber with a cursor up to the head comes level without meeting a lag, having been sent
      exactly the deliverable rows after its cursor; one with a cursor beyond the head is turned away
      with nothing sent. */
  lemma {:induction false} NewcomerIsServedIff(s: State, c: int) returns (steps: seq<Step>, t: State)
    requires CompleteInv(s) && s.sub.phase.Idle? && 0 <= c
    ensures Leads(s, steps, t) && Writes(steps) == [] && t == s.(sub := t.sub)
    ensures t.sub.session.notes == []
    ensures Drained(t) <==> c <= MaxSeq(s.log)
    ensures Drained(t) ==> t.sub.session.sent == Deliverable(s.log, c, MaxSeq(s.log))
    ensures !Drained(t) ==> t.sub.phase == Stopped(FutureCursor) && t.sub.session.sent == []
  {
    var s1 := Apply(s, Subscribe(Some(c)));
    CompleteStep(s, Subscribe(Some(c)));
    var s2 := Apply(s1, Check);
    CompleteStep(s1, Check);
    if c <= MaxSeq(s.log) {
      steps, t := BackfillEnds(s2);
      AllRead(t);
    } else {
      ReadsNothing(s2);
      steps, t := [], s2;
    }
    LeadsCons(s1, Check, steps, t);
    WritesCons(Check, steps);
    LeadsCons(s, Subscribe(Some(c)), [Check] + steps, t);
    WritesCons(Subscribe(Some(c)), [Check] + steps);
    steps := [Subscribe(Some(c))] + ([Check] + steps);
  }

  lemma {:induction false} AllRead(t: State)
    requires CompleteInv(t) && VisibleAfter(t.log, t.sub.session.last) == [] && t.sub.cursor.Some?
    requires t.sub.cursor.value <= MaxSeq(t.log)
    ensures t.sub.session.sent == Deliverable(t.log, t.sub.cursor.value, MaxSeq(t.log))
  {
    VisibleNone(t.log, t.sub.session.last);
    if t.sub.session.last <= MaxSeq(t.log) {
      DeliverableSame(t.log, t.sub.base, t.sub.session.last, MaxSeq(t.log));
    }
  }

  /** A new subscriber without a cursor is level at once, with nothing sent. */
  lemma {:induction false} NewcomerWithoutCursor(s: State)
    requires CompleteInv(s) && s.sub.phase.Idle?
    ensures Enabled(s, Subscribe(None))
    ensures Drained(Apply(s, Subscribe(None))) && Apply(s, Subscribe(None)).sub.session.sent == []
  {
  }

  /** A page holds up to 500 rows, and fewer only when there are no more. */
  lemma {:induction false} FetchTakesAPage(s: State)
    requires Enabled(s, FetchPage)
    ensures var rest, sub := VisibleAfter(s.log, s.sub.session.last), Apply(s, FetchPage).sub;
      && (sub.phase.Live? <==> rest == [])
      && (rest != [] ==> sub.phase == Backfill(if |rest| <= 500 then rest else rest[..500]))
      && sub.session == s.sub.session
  {
  }

  /** A client may leave at any time once it has come, and is sent nothing more. */
  lemma {:induction false} ClientMayLeave(s: State)
    requires !s.sub.phase.Idle? && !s.sub.phase.Stopped?
    ensures Enabled(s, Stop)
    ensures Apply(s, Stop) == s.(sub := s.sub.(phase := Stopped(Ended)))
    ensures forall step :: Enabled(Apply(s, Stop), step) ==> IsWrite(step)
  {
  }
}
