/** When the schedule of purges can be told from the answers, over whole histories: exactly when
    some schedule lets a revocation name an expired token that has a live sibling. */
module PurgeSchedule {
  import opened Wrappers
  import opened OAuthStore

  // ---- stores that agree on what is live ----

  ghost predicate AgreePar(a: map<Hash, Pushed>, b: map<Hash, Pushed>, now: nat) {
    && (forall h :: h in a && LivePushed(a[h], now) ==> h in b && b[h] == a[h])
    && (forall h :: h in b && LivePushed(b[h], now) ==> h in a && a[h] == b[h])
  }

  ghost predicate AgreeCodes(a: map<Hash, AuthCode>, b: map<Hash, AuthCode>, now: nat) {
    && (forall h :: h in a && LiveCode(a[h], now) ==> h in b && b[h] == a[h])
    && (forall h :: h in b && LiveCode(b[h], now) ==> h in a && a[h] == b[h])
  }

  ghost predicate AgreeTokens(a: map<Hash, Token>, b: map<Hash, Token>, now: nat) {
    && (forall h :: h in a && LiveToken(a[h], now) ==> h in b && b[h] == a[h])
    && (forall h :: h in b && LiveToken(b[h], now) ==> h in a && a[h] == b[h])
  }

  ghost predicate Agree(a: Store, b: Store, now: nat) {
    AgreePar(a.par, b.par, now) && AgreeCodes(a.codes, b.codes, now) && AgreeTokens(a.tokens, b.tokens, now)
  }

  // ---- the guard ----

  ghost predicate HasLiveSibling(tokens: map<Hash, Token>, h: Hash, now: nat)
    requires h in tokens
  {
    exists g :: g in tokens && LiveToken(tokens[g], now) && tokens[g].session == tokens[h].session
  }

  /** A revocation of an expired token that still takes a live one with it. */
  ghost predicate StaleTokens(tokens: map<Hash, Token>, t: Timed) {
    && t.op.RevokeToken? && t.op.h in tokens && !LiveToken(tokens[t.op.h], t.now)
    && HasLiveSibling(tokens, t.op.h, t.now)
  }

  ghost predicate Stale(s: Store, t: Timed) { StaleTokens(s.tokens, t) }

  ghost predicate SafeRun(s: Store, run: seq<Timed>) {
    forall i :: 0 <= i < |run| ==> !Stale(RunStore(s, run[..i]), run[i])
  }

  // ---- one step ----

  lemma ParStep(a: map<Hash, Pushed>, b: map<Hash, Pushed>, before: nat, t: Timed)
    requires AgreePar(a, b, before) && before <= t.now
    ensures AgreePar(ParAfter(a, t), if t.op.Purge? then b else ParAfter(b, t), t.now)
  {
  }

  lemma CodesStep(a: map<Hash, AuthCode>, b: map<Hash, AuthCode>, before: nat, t: Timed)
    requires AgreeCodes(a, b, before) && before <= t.now
    ensures AgreeCodes(CodesAfter(a, t), if t.op.Purge? then b else CodesAfter(b, t), t.now)
  {
  }

  /** A revocation that is not stale leaves alive what does not share a session with a live token. */
  lemma RevokeLeaves(tokens: map<Hash, Token>, t: Timed, g: Hash)
    requires t.op.RevokeToken? && !StaleTokens(tokens, t) && g in tokens && LiveToken(tokens[g], t.now)
    ensures g in TokensAfter(tokens, t) <==>
            !(t.op.h in tokens && LiveToken(tokens[t.op.h], t.now) && tokens[t.op.h].session == tokens[g].session)
  {
  }

  lemma {:induction false} RevokeStep(a: map<Hash, Token>, b: map<Hash, Token>, t: Timed)
    requires AgreeTokens(a, b, t.now) && t.op.RevokeToken? && !StaleTokens(a, t) && !StaleTokens(b, t)
    ensures AgreeTokens(TokensAfter(a, t), TokensAfter(b, t), t.now)
  {
    forall g | g in a && LiveToken(a[g], t.now) ensures g in TokensAfter(a, t) <==> g in TokensAfter(b, t) {
      RevokeLeaves(a, t, g);
      RevokeLeaves(b, t, g);
    }
    forall g | g in b && LiveToken(b[g], t.now) ensures g in TokensAfter(a, t) <==> g in TokensAfter(b, t) {
      RevokeLeaves(a, t, g);
      RevokeLeaves(b, t, g);
    }
  }

  lemma TokensStep(a: map<Hash, Token>, b: map<Hash, Token>, before: nat, t: Timed)
    requires AgreeTokens(a, b, before) && before <= t.now && !StaleTokens(a, t) && !StaleTokens(b, t)
    ensures AgreeTokens(TokensAfter(a, t), if t.op.Purge? then b else TokensAfter(b, t), t.now)
  {
    if t.op.RevokeToken? {
      RevokeStep(a, b, t);
    }
  }

  lemma AgreeReply(a: Store, b: Store, before: nat, t: Timed)
    requires Agree(a, b, before) && before <= t.now && Observed(t.op)
    ensures Reply(a, t) == Reply(b, t)
  {
    if t.op.ListSessions? {
      assert Reply(a, t).rows == Reply(b, t).rows;
    }
  }

  /** The same operation keeps two stores agreed; a purge of the first alone does too. */
  lemma AgreeStep(a: Store, b: Store, before: nat, t: Timed)
    requires Agree(a, b, before) && before <= t.now && !Stale(a, t) && !Stale(b, t)
    ensures Agree(After(a, t), if t.op.Purge? then b else After(b, t), t.now)
  {
    ParStep(a.par, b.par, before, t);
    CodesStep(a.codes, b.codes, before, t);
    TokensStep(a.tokens, b.tokens, before, t);
  }

  // ---- runs, one operation at a time ----

  lemma SafeSnoc(s: Store, front: seq<Timed>, last: Timed)
    ensures SafeRun(s, front + [last]) <==> SafeRun(s, front) && !Stale(RunStore(s, front), last)
  {
    var all := front + [last];
    assert forall i :: 0 <= i < |front| ==> all[i] == front[i] && all[..i] == front[..i];
    assert all[..|front|] == front && all[|front|] == last;
  }

  lemma Stripped(front: seq<Timed>, last: Timed)
    ensures Strip(front + [last]) == if last.op.Purge? then Strip(front) else Strip(front) + [last]
  {
    assert (front + [last])[..|front|] == front;
    assert Strip(front) + [] == Strip(front);
  }

  lemma Answered(s: Store, front: seq<Timed>, last: Timed)
    ensures RunStore(s, front + [last]) == After(RunStore(s, front), last)
    ensures Answers(s, front + [last]) ==
            if Observed(last.op) then Answers(s, front) + [Reply(RunStore(s, front), last)] else Answers(s, front)
  {
    AnswersSnoc(s, front, last);
    assert Answers(s, front) + [] == Answers(s, front);
  }

  lemma Clocked(front: seq<Timed>, last: Timed)
    ensures ClockAdvances(front + [last]) <==> ClockAdvances(front) && LastTime(front) <= last.now
    ensures LastTime(front + [last]) == last.now
  {
    var all := front + [last];
    assert forall i :: 0 <= i < |front| ==> all[i] == front[i];
    if ClockAdvances(all) && front != [] {
      assert all[|front| - 1].now <= all[|front|].now;
    }
    if ClockAdvances(front) && LastTime(front) <= last.now {
      assert forall i :: 0 <= i < |front| ==> front[i].now <= LastTime(front);
    }
  }

  /** One more operation keeps a run agreed with itself stripped of its purges. */
  lemma {:induction false} StrippedStep(s: Store, front: seq<Timed>, last: Timed)
    requires Agree(RunStore(s, front), RunStore(s, Strip(front)), LastTime(front)) && LastTime(front) <= last.now
    requires Answers(s, front) == Answers(s, Strip(front))
    requires !Stale(RunStore(s, front), last) && !Stale(RunStore(s, Strip(front)), last)
    ensures Agree(RunStore(s, front + [last]), RunStore(s, Strip(front + [last])), last.now)
    ensures Answers(s, front + [last]) == Answers(s, Strip(front + [last]))
  {
    Stripped(front, last);
    Answered(s, front, last);
    Answered(s, Strip(front), last);
    AgreeStep(RunStore(s, front), RunStore(s, Strip(front)), LastTime(front), last);
    if Observed(last.op) {
      AgreeReply(RunStore(s, front), RunStore(s, Strip(front)), LastTime(front), last);
    }
  }

  /** A run without stale revocations agrees with itself stripped of its purges. */
  lemma {:induction false} StrippedAgrees(s: Store, run: seq<Timed>)
    requires ClockAdvances(run) && SafeRun(s, run) && SafeRun(s, Strip(run))
    ensures Agree(RunStore(s, run), RunStore(s, Strip(run)), LastTime(run))
    ensures Answers(s, run) == Answers(s, Strip(run))
  {
    if run == [] {
    } else {
      var front, last := run[..|run| - 1], run[|run| - 1];
      assert run == front + [last];
      Clocked(front, last);
      Stripped(front, last);
      SafeSnoc(s, front, last);
      SafeSnoc(s, Strip(front), last);
      StrippedAgrees(s, front);
      StrippedStep(s, front, last);
    }
  }

  /** Reads and redemptions that look for a difference. */
  predicate Probes(c: seq<Timed>) { forall i :: 0 <= i < |c| ==> Observed(c[i].op) }

  lemma {:induction false} ProbesStay(s: Store, run: seq<Timed>, c: seq<Timed>)
    requires Probes(c)
    ensures Strip(run + c) == Strip(run) + c
    ensures SafeRun(s, run) ==> SafeRun(s, run + c)
  {
    if c == [] {
      assert run + c == run && Strip(run) + c == Strip(run);
    } else {
      var front, last := c[..|c| - 1], c[|c| - 1];
      assert Observed(last.op) && Probes(front);
      ProbesStay(s, run, front);
      assert run + c == (run + front) + [last] && Strip(run) + c == (Strip(run) + front) + [last];
      Stripped(run + front, last);
      SafeSnoc(s, run + front, last);
    }
  }

  lemma {:induction false} StripAgain(run: seq<Timed>)
    ensures Strip(Strip(run)) == Strip(run)
  {
    if run == [] {
    } else {
      var front, last := run[..|run| - 1], run[|run| - 1];
      assert run == front + [last];
      StripAgain(front);
      Stripped(front, last);
      Stripped(Strip(front), last);
    }
  }

  lemma {:induction false} StripClock(run: seq<Timed>)
    requires ClockAdvances(run)
    ensures ClockAdvances(Strip(run)) && LastTime(Strip(run)) <= LastTime(run)
  {
    if run == [] {
    } else {
      var front, last := run[..|run| - 1], run[|run| - 1];
      assert run == front + [last];
      Clocked(front, last);
      StripClock(front);
      Stripped(front, last);
      Clocked(Strip(front), last);
    }
  }

  lemma {:induction false} StripPrefix(run: seq<Timed>, n: nat)
    requires n <= |run|
    ensures Strip(run[..n]) <= Strip(run)
  {
    if n == |run| {
      assert run[..n] == run;
    } else {
      var front, last := run[..|run| - 1], run[|run| - 1];
      assert front[..n] == run[..n] && run == front + [last];
      StripPrefix(front, n);
      Stripped(front, last);
    }
  }

  lemma {:induction false} ClockPrefix(a: seq<Timed>, c: seq<Timed>)
    requires ClockAdvances(a + c)
    ensures ClockAdvances(a)
  {
    assert forall i :: 0 <= i < |a| ==> (a + c)[i] == a[i];
  }

  // ---- the theorem ----

  /** Two schedules of purges for the same part of a history, followed by the same probes. */
  ghost predicate Schedules(a: seq<Timed>, b: seq<Timed>, c: seq<Timed>, history: seq<Timed>) {
    && Strip(a) == Strip(b) && Strip(a) <= history && Probes(c)
    && ClockAdvances(a + c) && ClockAdvances(b + c)
  }

  ghost predicate SameAnswers(s: Store, a: seq<Timed>, b: seq<Timed>, c: seq<Timed>) {
    Answers(s, a + c) == Answers(s, b + c)
  }

  /** No schedule of purges for any part of a history can be told from the answers to it and to
      whatever is read or redeemed afterwards. */
  ghost predicate PurgesInvisible(s: Store, history: seq<Timed>) {
    forall a, b, c :: Schedules(a, b, c, history) ==> SameAnswers(s, a, b, c)
  }

  /** Under no schedule of purges does a revocation name an expired token with a live sibling. */
  ghost predicate NeverStale(s: Store, history: seq<Timed>) {
    forall run :: ClockAdvances(run) && Strip(run) <= history ==> SafeRun(s, run)
  }

  lemma {:induction false} ScheduleAgrees(s: Store, a: seq<Timed>, c: seq<Timed>, history: seq<Timed>)
    requires NeverStale(s, history) && Strip(a) <= history && Probes(c) && ClockAdvances(a + c)
    ensures Answers(s, a + c) == Answers(s, Strip(a) + c)
  {
    ClockPrefix(a, c);
    StripClock(a);
    StripAgain(a);
    assert SafeRun(s, a) && SafeRun(s, Strip(a));
    ProbesStay(s, a, c);
    ProbesStay(s, Strip(a), c);
    StrippedAgrees(s, a + c);
  }

  /** A live sibling of an expired token is lost to a revocation, and kept if a purge came first. */
  lemma {:induction false} StaleReplies(x: Store, t: Timed, g: Hash)
    requires t.op.RevokeToken? && t.op.h in x.tokens && !LiveToken(x.tokens[t.op.h], t.now)
    requires g in x.tokens && LiveToken(x.tokens[g], t.now) && x.tokens[g].session == x.tokens[t.op.h].session
    ensures var probe := Timed(t.now, ConsumeToken(g));
      Reply(After(x, t), probe) != Reply(After(After(x, Timed(t.now, Purge)), t), probe)
  {
    assert t.op.h in ExpiredTokens(x.tokens, t.now) && g !in ExpiredTokens(x.tokens, t.now);
    assert g in ChainOf(x.tokens, x.tokens[t.op.h].session);
  }

  /** The schedule that purges right before a stale revocation differs from the one that does not:
      the sibling is still there to redeem. */
  lemma {:induction false} StaleShows(s: Store, front: seq<Timed>, t: Timed) returns (probe: Timed)
    requires Stale(RunStore(s, front), t)
    ensures probe.now == t.now && Observed(probe.op)
    ensures Answers(s, front + [t] + [probe]) != Answers(s, front + [Timed(t.now, Purge)] + [t] + [probe])
  {
    var x, purge := RunStore(s, front), Timed(t.now, Purge);
    var g :| g in x.tokens && LiveToken(x.tokens[g], t.now) && x.tokens[g].session == x.tokens[t.op.h].session;
    probe := Timed(t.now, ConsumeToken(g));
    StaleReplies(x, t, g);
    LastAnswer(s, front, t, purge, probe);
  }

  lemma {:induction false} LastAnswer(s: Store, front: seq<Timed>, t: Timed, purge: Timed, probe: Timed)
    requires !Observed(t.op) && !Observed(purge.op) && Observed(probe.op)
    requires var x := RunStore(s, front); Reply(After(x, t), probe) != Reply(After(After(x, purge), t), probe)
    ensures Answers(s, front + [t] + [probe]) != Answers(s, front + [purge] + [t] + [probe])
  {
    var n := |Answers(s, front)|;
    Answered(s, front, t);
    Answered(s, front + [t], probe);
    Answered(s, front, purge);
    Answered(s, front + [purge], t);
    Answered(s, front + [purge] + [t], probe);
    assert Answers(s, front + [t] + [probe])[n] != Answers(s, front + [purge] + [t] + [probe])[n];
  }

  lemma {:induction false} StaleIsVisible(s: Store, history: seq<Timed>, run: seq<Timed>, i: nat)
    requires ClockAdvances(run) && Strip(run) <= history && i < |run| && Stale(RunStore(s, run[..i]), run[i])
    ensures !PurgesInvisible(s, history)
  {
    var probe := StaleShows(s, run[..i], run[i]);
    TwoSchedules(history, run, i, probe);
    Distinguish(s, history, run[..i] + [run[i]], run[..i] + [Timed(run[i].now, Purge)] + [run[i]], [probe]);
  }

  lemma {:induction false} Distinguish(s: Store, history: seq<Timed>, a: seq<Timed>, b: seq<Timed>, c: seq<Timed>)
    requires Schedules(a, b, c, history) && Answers(s, a + c) != Answers(s, b + c)
    ensures !PurgesInvisible(s, history)
  {
    assert !SameAnswers(s, a, b, c);
  }

  lemma {:induction false} TwoSchedules(history: seq<Timed>, run: seq<Timed>, i: nat, probe: Timed)
    requires ClockAdvances(run) && Strip(run) <= history && i < |run|
    requires run[i].op.RevokeToken? && probe.now == run[i].now && Observed(probe.op)
    ensures Schedules(run[..i] + [run[i]], run[..i] + [Timed(run[i].now, Purge)] + [run[i]], [probe], history)
  {
    var front, t, purge := run[..i], run[i], Timed(run[i].now, Purge);
    assert run[..i + 1] == front + [t] && run == front + [t] + run[i + 1..];
    StripPrefix(run, i + 1);
    Stripped(front, t);
    Stripped(front, purge);
    Stripped(front + [purge], t);
    ClockPrefix(front + [t], run[i + 1..]);
    Clocked(front, t);
    Clocked(front + [t], probe);
    Clocked(front, purge);
    Clocked(front + [purge], t);
    Clocked(front + [purge] + [t], probe);
  }

  /** Exactly when purging is invisible, for every store and history: every schedule of purges gives
      the same answers, to the history and to anything read or redeemed after any part of it, if
      and only if under no schedule a revocation names an expired token with a live sibling. */
  lemma {:induction false} PurgesInvisibleIff(s: Store, history: seq<Timed>)
    ensures PurgesInvisible(s, history) <==> NeverStale(s, history)
  {
    if NeverStale(s, history) {
      forall a, b, c | Schedules(a, b, c, history) ensures SameAnswers(s, a, b, c) {
        ScheduleAgrees(s, a, c, history);
        ScheduleAgrees(s, b, c, history);
      }
    } else {
      var run :| ClockAdvances(run) && Strip(run) <= history && !SafeRun(s, run);
      var i :| 0 <= i < |run| && Stale(RunStore(s, run[..i]), run[i]);
      StaleIsVisible(s, history, run, i);
    }
  }

  // ---- why every schedule has to be looked at ----

  const EARLY := Token("s", "d", 0, 10, false)
  const LATER := Token("s", "d", 0, 20, false)
  const JOINED := Token("s", "d", 26, 100, false)
  const PUT_EARLY := Timed(0, PutToken("a", EARLY))
  const PUT_LATER := Timed(0, PutToken("b", LATER))
  const PURGE := Timed(15, Purge)
  const REVOKE_EARLY := Timed(25, RevokeToken("a"))
  const JOIN := Timed(26, PutToken("c", JOINED))
  const REVOKE_LATER := Timed(27, RevokeToken("b"))

  lemma {:induction false} TokensSnoc(s: Store, front: seq<Timed>, last: Timed, tokens: map<Hash, Token>)
    requires RunStore(s, front).tokens == tokens
    ensures RunStore(s, front + [last]).tokens == TokensAfter(tokens, last)
    ensures SafeRun(s, front + [last]) <==> SafeRun(s, front) && !StaleTokens(tokens, last)
  {
    Answered(s, front, last);
    SafeSnoc(s, front, last);
  }

  lemma {:induction false} BothStored(s: Store) returns (puts: seq<Timed>)
    requires s.tokens == map[]
    ensures puts == [PUT_EARLY, PUT_LATER] && SafeRun(s, puts)
    ensures RunStore(s, puts).tokens == map["a" := EARLY, "b" := LATER]
  {
    TokensSnoc(s, [], PUT_EARLY, map[]);
    TokensSnoc(s, [PUT_EARLY], PUT_LATER, map["a" := EARLY]);
    puts := [PUT_EARLY, PUT_LATER];
    assert [] + [PUT_EARLY] == [PUT_EARLY] && [PUT_EARLY] + [PUT_LATER] == puts;
  }

  /** Without a purge the first revocation ends the session, expired tokens and all. */
  lemma {:induction false} UnpurgedIsSafe(s: Store, puts: seq<Timed>)
    requires SafeRun(s, puts) && RunStore(s, puts).tokens == map["a" := EARLY, "b" := LATER]
    ensures SafeRun(s, puts + [REVOKE_EARLY] + [JOIN] + [REVOKE_LATER])
  {
    var tokens := map["a" := EARLY, "b" := LATER];
    assert TokensAfter(tokens, REVOKE_EARLY) == map[] && !HasLiveSibling(tokens, "a", 25);
    TokensSnoc(s, puts, REVOKE_EARLY, tokens);
    TokensSnoc(s, puts + [REVOKE_EARLY], JOIN, map[]);
    TokensSnoc(s, puts + [REVOKE_EARLY] + [JOIN], REVOKE_LATER, map["c" := JOINED]);
  }

  lemma {:induction false} PurgedTables()
    ensures TokensAfter(map["a" := EARLY, "b" := LATER], PURGE) == map["b" := LATER]
    ensures TokensAfter(map["b" := LATER], REVOKE_EARLY) == map["b" := LATER]
    ensures TokensAfter(map["b" := LATER], JOIN) == map["b" := LATER, "c" := JOINED]
    ensures StaleTokens(map["b" := LATER, "c" := JOINED], REVOKE_LATER)
  {
    var both := map["b" := LATER, "c" := JOINED];
    assert "c" in both && LiveToken(both["c"], 27) && both["c"].session == both["b"].session;
  }

  /** With one, it finds nothing, and the second revocation takes the new token with it. */
  lemma {:induction false} PurgedIsStale(s: Store, puts: seq<Timed>)
    requires RunStore(s, puts).tokens == map["a" := EARLY, "b" := LATER]
    ensures !SafeRun(s, puts + [PURGE] + [REVOKE_EARLY] + [JOIN] + [REVOKE_LATER])
  {
    PurgedTables();
    FourTables(s, puts, PURGE, REVOKE_EARLY, JOIN, REVOKE_LATER);
  }

  /** The tokens a run of four more operations has before the last of them. */
  lemma {:induction false} FourTables(s: Store, puts: seq<Timed>, a: Timed, b: Timed, c: Timed, d: Timed)
    ensures var tokens := TokensAfter(TokensAfter(TokensAfter(RunStore(s, puts).tokens, a), b), c);
      StaleTokens(tokens, d) ==> !SafeRun(s, puts + [a] + [b] + [c] + [d])
  {
    Answered(s, puts, a);
    Answered(s, puts + [a], b);
    Answered(s, puts + [a] + [b], c);
    SafeSnoc(s, puts + [a] + [b] + [c], d);
  }

  lemma {:induction false} FourStripped(puts: seq<Timed>, a: Timed, b: Timed, c: Timed, d: Timed)
    requires Strip(puts) == puts && a.op.Purge? && !b.op.Purge? && !c.op.Purge? && !d.op.Purge?
    ensures Strip(puts + [a] + [b] + [c] + [d]) == puts + [b] + [c] + [d]
  {
    Stripped(puts, a);
    Stripped(puts + [a], b);
    Stripped(puts + [a] + [b], c);
    Stripped(puts + [a] + [b] + [c], d);
  }

  lemma {:induction false} FourClocked(puts: seq<Timed>, a: Timed, b: Timed, c: Timed, d: Timed)
    requires ClockAdvances(puts) && LastTime(puts) <= a.now <= b.now <= c.now <= d.now
    ensures ClockAdvances(puts + [a] + [b] + [c] + [d])
  {
    Clocked(puts, a);
    Clocked(puts + [a], b);
    Clocked(puts + [a] + [b], c);
    Clocked(puts + [a] + [b] + [c], d);
  }

  lemma {:induction false} PutsKept()
    ensures var puts := [PUT_EARLY, PUT_LATER]; Strip(puts) == puts && ClockAdvances(puts) && LastTime(puts) == 0
  {
    Stripped([], PUT_EARLY);
    Stripped([PUT_EARLY], PUT_LATER);
    assert [] + [PUT_EARLY] == [PUT_EARLY] && [PUT_EARLY] + [PUT_LATER] == [PUT_EARLY, PUT_LATER];
  }

  /** A history in which no revocation is stale as long as nothing is purged, and a schedule of
      purges under which one is: the first revocation finds its token gone and spares another
      expired one of the session, which is revoked after a new token has joined. */
  lemma {:induction false} UnpurgedGuardIsNotEnough(s: Store) returns (history: seq<Timed>, run: seq<Timed>)
    requires s.tokens == map[]
    ensures ClockAdvances(run) && Strip(run) == history && SafeRun(s, history) && !SafeRun(s, run)
  {
    var puts := BothStored(s);
    history := puts + [REVOKE_EARLY] + [JOIN] + [REVOKE_LATER];
    run := puts + [PURGE] + [REVOKE_EARLY] + [JOIN] + [REVOKE_LATER];
    PutsKept();
    UnpurgedIsSafe(s, puts);
    PurgedIsStale(s, puts);
    FourStripped(puts, PURGE, REVOKE_EARLY, JOIN, REVOKE_LATER);
    FourClocked(puts, PURGE, REVOKE_EARLY, JOIN, REVOKE_LATER);
  }
}
