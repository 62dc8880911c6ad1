/** OAuth server state with expiry: single-use records, rotation chains, the DPoP replay
    cache and the purge of expired rows. */
module OAuthStore {
  import opened Wrappers

  type Hash = string

  datatype Pushed = Pushed(request: string, expires: nat)
  datatype AuthCode = AuthCode(did: string, grant: string, expires: nat)
  datatype Token = Token(session: string, did: string, issued: nat, expires: nat, used: bool)

  datatype Store = Store(
    par: map<Hash, Pushed>, codes: map<Hash, AuthCode>, tokens: map<Hash, Token>, jtis: map<string, nat>)

  datatype Op =
    | PutPushed(h: Hash, pushed: Pushed)
    | GetPushed(h: Hash)
    | DeletePushed(h: Hash)
    | PutCode(h: Hash, code: AuthCode)
    | ConsumeCode(h: Hash)
    | PutToken(h: Hash, token: Token)
    | ConsumeToken(h: Hash)
    | RevokeSession(session: string)
    | RevokeToken(h: Hash)
    | ListSessions(did: string)
    | RecordJti(jti: string, expires: nat)
    | Purge

  /** An operation and the server time it runs at. */
  datatype Timed = Timed(now: nat, op: Op)

  datatype Answer =
    | Done
    | APushed(found: Option<Pushed>)
    | ACode(code: Option<AuthCode>)
    | Consumed(token: Token)
    | Reused(session: string)
    | NotFound
    | Sessions(rows: map<Hash, Token>)
    | Yes(yes: bool)
    | Removed(count: nat)

  predicate LivePushed(p: Pushed, now: nat) { now < p.expires }
  predicate LiveCode(c: AuthCode, now: nat) { now < c.expires }
  predicate LiveToken(t: Token, now: nat) { now < t.expires }

  function ChainOf(tokens: map<Hash, Token>, session: string): set<Hash> {
    set h | h in tokens && tokens[h].session == session
  }

  function ExpiredPar(par: map<Hash, Pushed>, now: nat): set<Hash> { set h | h in par && !LivePushed(par[h], now) }

  function ExpiredCodes(codes: map<Hash, AuthCode>, now: nat): set<Hash> {
    set h | h in codes && !LiveCode(codes[h], now)
  }

  function ExpiredTokens(tokens: map<Hash, Token>, now: nat): set<Hash> {
    set h | h in tokens && !LiveToken(tokens[h], now)
  }

  function ExpiredJtis(jtis: map<string, nat>, now: nat): set<string> { set j | j in jtis && jtis[j] <= now }

  function ParAfter(par: map<Hash, Pushed>, t: Timed): map<Hash, Pushed> {
    match t.op
    case PutPushed(h, p) => par[h := p]
    case DeletePushed(h) => par - {h}
    case Purge => par - ExpiredPar(par, t.now)
    case _ => par
  }

  function CodesAfter(codes: map<Hash, AuthCode>, t: Timed): map<Hash, AuthCode> {
    match t.op
    case PutCode(h, c) => codes[h := c]
    case ConsumeCode(h) => codes - {h}
    case Purge => codes - ExpiredCodes(codes, t.now)
    case _ => codes
  }

  function TokensAfter(tokens: map<Hash, Token>, t: Timed): map<Hash, Token> {
    match t.op
    case PutToken(h, tok) => tokens[h := tok.(used := false)]
    case ConsumeToken(h) =>
      if h in tokens && LiveToken(tokens[h], t.now) && !tokens[h].used
      then tokens[h := tokens[h].(used := true)] else tokens
    case RevokeSession(session) => tokens - ChainOf(tokens, session)
    case RevokeToken(h) => if h in tokens then tokens - ChainOf(tokens, tokens[h].session) else tokens
    case Purge => tokens - ExpiredTokens(tokens, t.now)
    case _ => tokens
  }

  function JtisAfter(jtis: map<string, nat>, t: Timed): map<string, nat> {
    match t.op
    case RecordJti(jti, expires) => if jti in jtis then jtis else jtis[jti := expires]
    case Purge => jtis - ExpiredJtis(jtis, t.now)
    case _ => jtis
  }

  /** The store after one operation. Each table moves on its own. */
  function After(s: Store, t: Timed): Store {
    Store(ParAfter(s.par, t), CodesAfter(s.codes, t), TokensAfter(s.tokens, t), JtisAfter(s.jtis, t))
  }

  /** What one operation answers. */
  function Reply(s: Store, t: Timed): Answer {
    match t.op
    case GetPushed(h) => APushed(if h in s.par && LivePushed(s.par[h], t.now) then Some(s.par[h]) else None)
    case ConsumeCode(h) => ACode(if h in s.codes && LiveCode(s.codes[h], t.now) then Some(s.codes[h]) else None)
    case ConsumeToken(h) =>
      if h !in s.tokens || !LiveToken(s.tokens[h], t.now) then NotFound
      else if s.tokens[h].used then Reused(s.tokens[h].session)
      else Consumed(s.tokens[h])
    case RevokeSession(session) => Removed(|ChainOf(s.tokens, session)|)
    case RevokeToken(h) => Yes(h in s.tokens)
    case ListSessions(did) =>
      Sessions(map h | h in s.tokens && s.tokens[h].did == did && LiveToken(s.tokens[h], t.now) && !s.tokens[h].used ::
                 s.tokens[h])
    case RecordJti(jti, _) => Yes(jti !in s.jtis)
    case Purge =>
      Removed(|ExpiredPar(s.par, t.now)| + |ExpiredCodes(s.codes, t.now)| + |ExpiredTokens(s.tokens, t.now)| +
              |ExpiredJtis(s.jtis, t.now)|)
    case _ => Done
  }

  // ---- the code's form ----

  class OAuthTables {
    var par: map<Hash, Pushed>
    var codes: map<Hash, AuthCode>
    var tokens: map<Hash, Token>
    var jtis: map<string, nat>

    ghost function View(): Store reads this { Store(par, codes, tokens, jtis) }

    method GetPushedRequest(h: Hash, now: nat) returns (r: Option<Pushed>)
      ensures APushed(r) == Reply(View(), Timed(now, GetPushed(h)))
      ensures r == if h in par && now < par[h].expires then Some(par[h]) else None
    {
      r := if h in par && now < par[h].expires then Some(par[h]) else None;
    }

    method ConsumeAuthCode(h: Hash, now: nat) returns (r: Option<AuthCode>)
      modifies this`codes
      ensures ACode(r) == Reply(old(View()), Timed(now, ConsumeCode(h)))
      ensures View() == After(old(View()), Timed(now, ConsumeCode(h)))
      ensures r.Some? <==> h in old(codes) && now < old(codes)[h].expires
      ensures r.Some? ==> r.value == old(codes)[h]
      ensures codes == old(codes) - {h}
    {
      r := if h in codes && now < codes[h].expires then Some(codes[h]) else None;
      codes := codes - {h};
    }

    method ConsumeRefreshToken(h: Hash, now: nat) returns (r: Answer)
      modifies this`tokens
      ensures r == Reply(old(View()), Timed(now, ConsumeToken(h)))
      ensures View() == After(old(View()), Timed(now, ConsumeToken(h)))
      ensures r == NotFound <==> h !in old(tokens) || old(tokens)[h].expires <= now
      ensures r.Reused? ==> old(tokens)[h].used && r.session == old(tokens)[h].session
      ensures r.Consumed? ==> !old(tokens)[h].used && r.token == old(tokens)[h]
      ensures r == NotFound || r.Reused? || r.Consumed?
      ensures tokens.Keys == old(tokens).Keys
      ensures forall g :: g in tokens ==>
                (tokens[g] == if g == h && r.Consumed? then old(tokens)[g].(used := true) else old(tokens)[g])
    {
      if h !in tokens || tokens[h].expires <= now {
        return NotFound;
      }
      var row := tokens[h];
      if row.used {
        return Reused(row.session);
      }
      tokens := tokens[h := row.(used := true)];
      r := Consumed(row);
    }

    method RevokeRefreshToken(h: Hash, ghost now: nat) returns (known: bool)
      modifies this`tokens
      ensures Yes(known) == Reply(old(View()), Timed(now, RevokeToken(h)))
      ensures View() == After(old(View()), Timed(now, RevokeToken(h)))
      ensures known <==> h in old(tokens)
      ensures forall g :: g in old(tokens) ==>
                (g in tokens <==> !(known && old(tokens)[g].session == old(tokens)[h].session))
      ensures forall g :: g in tokens ==> g in old(tokens) && tokens[g] == old(tokens)[g]
    {
      if h !in tokens {
        return false;
      }
      tokens := tokens - ChainOf(tokens, tokens[h].session);
      known := true;
    }

    method RecordDpopJti(jti: string, expires: nat, ghost now: nat) returns (unseen: bool)
      modifies this`jtis
      ensures Yes(unseen) == Reply(old(View()), Timed(now, RecordJti(jti, expires)))
      ensures View() == After(old(View()), Timed(now, RecordJti(jti, expires)))
      ensures unseen <==> jti !in old(jtis)
      ensures jtis == if unseen then old(jtis)[jti := expires] else old(jtis)
    {
      if jti in jtis {
        return false;
      }
      jtis := jtis[jti := expires];
      unseen := true;
    }

    method PurgeExpired(now: nat) returns (total: nat)
      modifies this
      ensures Removed(total) == Reply(old(View()), Timed(now, Purge))
      ensures View() == After(old(View()), Timed(now, Purge))
    {
      var p := ExpiredPar(par, now);
      total, par := |p|, par - p;
      var c := ExpiredCodes(codes, now);
      total, codes := total + |c|, codes - c;
      var t := ExpiredTokens(tokens, now);
      total, tokens := total + |t|, tokens - t;
      var j := ExpiredJtis(jtis, now);
      total, jtis := total + |j|, jtis - j;
    }
  }

  lemma {:induction false} LessKeys<V>(m: map<string, V>, gone: set<string>)
    requires gone <= m.Keys
    ensures |m - gone| == |m| - |gone|
  {
    assert (m - gone).Keys == m.Keys - gone;
    assert |(m - gone).Keys| == |m - gone| && |m.Keys| == |m|;
  }

  lemma {:induction false} PurgedPar(par: map<Hash, Pushed>, now: nat)
    ensures |ExpiredPar(par, now)| == |par| - |ParAfter(par, Timed(now, Purge))|
  {
    LessKeys(par, ExpiredPar(par, now));
  }

  lemma {:induction false} PurgedCodes(codes: map<Hash, AuthCode>, now: nat)
    ensures |ExpiredCodes(codes, now)| == |codes| - |CodesAfter(codes, Timed(now, Purge))|
  {
    LessKeys(codes, ExpiredCodes(codes, now));
  }

  lemma {:induction false} PurgedTokens(tokens: map<Hash, Token>, now: nat)
    ensures |ExpiredTokens(tokens, now)| == |tokens| - |TokensAfter(tokens, Timed(now, Purge))|
  {
    LessKeys(tokens, ExpiredTokens(tokens, now));
  }

  lemma {:induction false} PurgedJtis(jtis: map<string, nat>, now: nat)
    ensures |ExpiredJtis(jtis, now)| == |jtis| - |JtisAfter(jtis, Timed(now, Purge))|
  {
    LessKeys(jtis, ExpiredJtis(jtis, now));
  }

  /** What a purge answers, like the end of a session, is the number of rows removed. */
  lemma {:induction false} PurgeCounts(s: Store, now: nat)
    ensures var t := After(s, Timed(now, Purge));
      Reply(s, Timed(now, Purge)) ==
      Removed(|s.par| - |t.par| + |s.codes| - |t.codes| + |s.tokens| - |t.tokens| + |s.jtis| - |t.jtis|)
  {
    PurgedPar(s.par, now);
    PurgedCodes(s.codes, now);
    PurgedTokens(s.tokens, now);
    PurgedJtis(s.jtis, now);
  }

  /** A purge removes exactly the rows that have expired. */
  lemma {:induction false} PurgeRemovesExpired(s: Store, now: nat)
    ensures var t := After(s, Timed(now, Purge));
      && (forall h :: h in t.par <==> h in s.par && now < s.par[h].expires)
      && (forall h :: h in t.codes <==> h in s.codes && now < s.codes[h].expires)
      && (forall h :: h in t.tokens <==> h in s.tokens && now < s.tokens[h].expires)
      && (forall j :: j in t.jtis <==> j in s.jtis && now < s.jtis[j])
      && (forall h :: h in t.par ==> t.par[h] == s.par[h]) && (forall h :: h in t.codes ==> t.codes[h] == s.codes[h])
      && (forall h :: h in t.tokens ==> t.tokens[h] == s.tokens[h])
      && (forall j :: j in t.jtis ==> t.jtis[j] == s.jtis[j])
  {
  }

  lemma {:induction false} RevokeCounts(s: Store, now: nat, session: string)
    ensures var t := After(s, Timed(now, RevokeSession(session)));
      Reply(s, Timed(now, RevokeSession(session))) == Removed(|s.tokens| - |t.tokens|)
  {
    LessKeys(s.tokens, ChainOf(s.tokens, session));
  }

  // ---- runs ----

  function RunStore(s: Store, run: seq<Timed>): Store {
    if run == [] then s else After(RunStore(s, run[..|run| - 1]), run[|run| - 1])
  }

  /** The answer of operation `i` of a run. */
  function AnswerAt(s: Store, run: seq<Timed>, i: nat): Answer
    requires i < |run|
  {
    Reply(RunStore(s, run[..i]), run[i])
  }

  lemma RunSnoc(s: Store, run: seq<Timed>, i: nat)
    requires i < |run|
    ensures RunStore(s, run[..i + 1]) == After(RunStore(s, run[..i]), run[i])
  {
    assert run[..i + 1][..i] == run[..i];
  }

  // ---- single use ----

  ghost predicate Spent(tokens: map<Hash, Token>, h: Hash, session: string) {
    h in tokens ==> tokens[h].used && tokens[h].session == session
  }

  lemma SpentStep(tokens: map<Hash, Token>, t: Timed, h: Hash, session: string)
    requires Spent(tokens, h, session) && !(t.op.PutToken? && t.op.h == h)
    ensures Spent(TokensAfter(tokens, t), h, session)
  {
  }

  /** A spent token stays spent, under its own session, until its hash is stored again. */
  lemma {:induction false} SpentStaysSpent(s: Store, run: seq<Timed>, i: nat, j: nat, h: Hash, session: string)
    requires i < j <= |run|
    requires run[i].op == ConsumeToken(h)
    requires AnswerAt(s, run, i).Consumed? && AnswerAt(s, run, i).token.session == session
    requires forall k :: i < k < j ==> !(run[k].op.PutToken? && run[k].op.h == h)
    ensures Spent(RunStore(s, run[..j]).tokens, h, session)
    decreases j
  {
    RunSnoc(s, run, j - 1);
    if i + 1 < j {
      SpentStaysSpent(s, run, i, j - 1, h, session);
      SpentStep(RunStore(s, run[..j - 1]).tokens, run[j - 1], h, session);
    }
  }

  /** Each refresh token is consumed at most once: after a successful redemption, and until
      its hash is stored anew, it answers only `Reused` with its own session or `NotFound`. */
  lemma TokenSingleUse(s: Store, run: seq<Timed>, i: nat, j: nat, h: Hash)
    requires i < j < |run| && run[i].op == ConsumeToken(h) && run[j].op == ConsumeToken(h)
    requires AnswerAt(s, run, i).Consumed?
    requires forall k :: i < k < j ==> !(run[k].op.PutToken? && run[k].op.h == h)
    ensures AnswerAt(s, run, j) == NotFound || AnswerAt(s, run, j) == Reused(AnswerAt(s, run, i).token.session)
  {
    SpentStaysSpent(s, run, i, j, h, AnswerAt(s, run, i).token.session);
  }

  lemma {:induction false} TakenCodeStaysGone(s: Store, run: seq<Timed>, i: nat, j: nat, h: Hash)
    requires i < j <= |run| && run[i].op == ConsumeCode(h)
    requires forall k :: i < k < j ==> !(run[k].op.PutCode? && run[k].op.h == h)
    ensures h !in RunStore(s, run[..j]).codes
    decreases j
  {
    RunSnoc(s, run, j - 1);
    if i + 1 < j {
      TakenCodeStaysGone(s, run, i, j - 1, h);
    }
  }

  /** Each authorization code is redeemed at most once, and an attempt that finds it expired
      also ends it. */
  lemma CodeSingleUse(s: Store, run: seq<Timed>, i: nat, j: nat, h: Hash)
    requires i < j < |run| && run[i].op == ConsumeCode(h) && run[j].op == ConsumeCode(h)
    requires forall k :: i < k < j ==> !(run[k].op.PutCode? && run[k].op.h == h)
    ensures AnswerAt(s, run, j) == ACode(None)
  {
    TakenCodeStaysGone(s, run, i, j, h);
  }

  // ---- purging is invisible ----

  /** `trim` is `full` without some rows that had expired by `now`, table by table. */
  ghost predicate TrimmedPar(full: map<Hash, Pushed>, trim: map<Hash, Pushed>, now: nat) {
    && (forall h :: h in trim ==> h in full && trim[h] == full[h])
    && (forall h :: h in full && LivePushed(full[h], now) ==> h in trim)
  }

  ghost predicate TrimmedCodes(full: map<Hash, AuthCode>, trim: map<Hash, AuthCode>, now: nat) {
    && (forall h :: h in trim ==> h in full && trim[h] == full[h])
    && (forall h :: h in full && LiveCode(full[h], now) ==> h in trim)
  }

  ghost predicate TrimmedTokens(full: map<Hash, Token>, trim: map<Hash, Token>, now: nat) {
    && (forall h :: h in trim ==> h in full && trim[h] == full[h])
    && (forall h :: h in full && LiveToken(full[h], now) ==> h in trim)
  }

  ghost predicate Trimmed(full: Store, trim: Store, now: nat) {
    TrimmedPar(full.par, trim.par, now) && TrimmedCodes(full.codes, trim.codes, now) &&
    TrimmedTokens(full.tokens, trim.tokens, now)
  }

  /** The reads and redemptions whose answers are promised. */
  predicate Observed(op: Op) { op.GetPushed? || op.ConsumeCode? || op.ConsumeToken? || op.ListSessions? }

  /** A revocation names a token that is unknown or has not expired. */
  predicate RevokesLive(s: Store, t: Timed) {
    t.op.RevokeToken? && t.op.h in s.tokens ==> LiveToken(s.tokens[t.op.h], t.now)
  }

  lemma TrimmedParStep(full: map<Hash, Pushed>, trim: map<Hash, Pushed>, before: nat, t: Timed)
    requires TrimmedPar(full, trim, before) && before <= t.now
    ensures TrimmedPar(if t.op.Purge? then full else ParAfter(full, t), ParAfter(trim, t), t.now)
  {
  }

  lemma TrimmedCodesStep(full: map<Hash, AuthCode>, trim: map<Hash, AuthCode>, before: nat, t: Timed)
    requires TrimmedCodes(full, trim, before) && before <= t.now
    ensures TrimmedCodes(if t.op.Purge? then full else CodesAfter(full, t), CodesAfter(trim, t), t.now)
  {
  }

  lemma TrimmedTokensStep(full: map<Hash, Token>, trim: map<Hash, Token>, before: nat, t: Timed)
    requires TrimmedTokens(full, trim, before) && before <= t.now
    requires t.op.RevokeToken? && t.op.h in full ==> LiveToken(full[t.op.h], t.now)
    ensures TrimmedTokens(if t.op.Purge? then full else TokensAfter(full, t), TokensAfter(trim, t), t.now)
  {
  }

  lemma TrimmedReply(full: Store, trim: Store, before: nat, t: Timed)
    requires Trimmed(full, trim, before) && before <= t.now && Observed(t.op)
    ensures Reply(full, t) == Reply(trim, t)
  {
    if t.op.ListSessions? {
      assert Reply(full, t).rows == Reply(trim, t).rows;
    }
  }

  /** One operation on both sides keeps them alike and gives the same promised answer; a purge
      on the trimmed side alone keeps them alike. */
  lemma TrimmedStep(full: Store, trim: Store, before: nat, t: Timed)
    requires Trimmed(full, trim, before) && before <= t.now && RevokesLive(full, t)
    ensures Trimmed(if t.op.Purge? then full else After(full, t), After(trim, t), t.now)
    ensures Observed(t.op) ==> Reply(full, t) == Reply(trim, t)
  {
    TrimmedParStep(full.par, trim.par, before, t);
    TrimmedCodesStep(full.codes, trim.codes, before, t);
    TrimmedTokensStep(full.tokens, trim.tokens, before, t);
    if Observed(t.op) {
      TrimmedReply(full, trim, before, t);
    }
  }

  /** The run without its purges. */
  function Strip(run: seq<Timed>): seq<Timed> {
    if run == [] then []
    else
      var n := |run| - 1;
      Strip(run[..n]) + (if run[n].op.Purge? then [] else [run[n]])
  }

  /** The promised answers of a run, in order. */
  function Answers(s: Store, run: seq<Timed>): seq<Answer> {
    if run == [] then []
    else
      var n := |run| - 1;
      Answers(s, run[..n]) + (if Observed(run[n].op) then [AnswerAt(s, run, n)] else [])
  }

  predicate ClockAdvances(run: seq<Timed>) {
    forall i, j :: 0 <= i < j < |run| ==> run[i].now <= run[j].now
  }

  ghost predicate RevokesOnlyLive(s: Store, run: seq<Timed>) {
    forall i :: 0 <= i < |run| ==> RevokesLive(RunStore(s, run[..i]), run[i])
  }

  function LastTime(run: seq<Timed>): nat { if run == [] then 0 else run[|run| - 1].now }

  lemma StripSnoc(s: Store, front: seq<Timed>, last: Timed)
    ensures Strip(front + [last]) == Strip(front) + (if last.op.Purge? then [] else [last])
    ensures RevokesOnlyLive(s, Strip(front + [last])) ==> RevokesOnlyLive(s, Strip(front))
    ensures RevokesOnlyLive(s, Strip(front + [last])) && !last.op.Purge? ==>
              RevokesLive(RunStore(s, Strip(front)), last)
  {
    var kept, all := Strip(front), Strip(front + [last]);
    assert (front + [last])[..|front|] == front;
    assert forall i :: 0 <= i < |kept| ==> all[i] == kept[i] && all[..i] == kept[..i];
    if !last.op.Purge? {
      assert all[..|kept|] == kept && all[|kept|] == last;
    }
  }

  lemma AnswersSnoc(s: Store, front: seq<Timed>, last: Timed)
    ensures RunStore(s, front + [last]) == After(RunStore(s, front), last)
    ensures Answers(s, front + [last]) ==
            Answers(s, front) + (if Observed(last.op) then [Reply(RunStore(s, front), last)] else [])
  {
    assert (front + [last])[..|front|] == front;
  }

  lemma {:induction false} PurgeRunTrimsOne(s: Store, front: seq<Timed>, last: Timed)
    requires Trimmed(RunStore(s, Strip(front)), RunStore(s, front), LastTime(front)) && LastTime(front) <= last.now
    requires Answers(s, Strip(front)) == Answers(s, front) && RevokesLive(RunStore(s, Strip(front)), last)
    ensures Trimmed(RunStore(s, Strip(front + [last])), RunStore(s, front + [last]), last.now)
    ensures Answers(s, Strip(front + [last])) == Answers(s, front + [last])
  {
    StripSnoc(s, front, last);
    TrimmedStep(RunStore(s, Strip(front)), RunStore(s, front), LastTime(front), last);
    AnswersSnoc(s, front, last);
    if last.op.Purge? {
      assert Strip(front) + [] == Strip(front) && Answers(s, front) + [] == Answers(s, front);
    } else {
      AnswersSnoc(s, Strip(front), last);
    }
  }

  lemma {:induction false} PurgeRunTrims(s: Store, run: seq<Timed>)
    requires ClockAdvances(run) && RevokesOnlyLive(s, Strip(run))
    ensures Trimmed(RunStore(s, Strip(run)), RunStore(s, run), LastTime(run))
    ensures Answers(s, Strip(run)) == Answers(s, run)
  {
    if run == [] {
    } else {
      var front, last := run[..|run| - 1], run[|run| - 1];
      assert run == front + [last];
      StripSnoc(s, front, last);
      ClockSnoc(front, last);
      PurgeRunTrims(s, front);
      PurgeRunTrimsOne(s, front, last);
    }
  }

  lemma {:induction false} ClockSnoc(front: seq<Timed>, last: Timed)
    requires ClockAdvances(front + [last])
    ensures ClockAdvances(front) && LastTime(front) <= last.now && LastTime(front + [last]) == last.now
  {
    var all := front + [last];
    assert forall i :: 0 <= i < |front| ==> all[i] == front[i];
    assert all[|front|] == last;
    if front != [] {
      assert all[|front| - 1].now <= all[|front|].now;
    }
  }

  /** With a non-decreasing clock, two runs that differ only in where they purge give the same
      promised answers, provided no expired token is presented for revocation. */
  lemma PurgeIsInvisible(s: Store, a: seq<Timed>, b: seq<Timed>)
    requires ClockAdvances(a) && ClockAdvances(b) && Strip(a) == Strip(b) && RevokesOnlyLive(s, Strip(a))
    ensures Answers(s, a) == Answers(s, b)
  {
    PurgeRunTrims(s, a);
    PurgeRunTrims(s, b);
  }

  function LiveTokens(s: Store, now: nat): map<Hash, Token> {
    map h | h in s.tokens && LiveToken(s.tokens[h], now) :: s.tokens[h]
  }

  /** Why revocation needs the proviso, exactly: purging first changes what a revocation leaves
      alive if and only if the token had expired while another of its session had not. */
  lemma PurgeBeforeRevokeIff(s: Store, now: nat, h: Hash)
    ensures LiveTokens(After(s, Timed(now, RevokeToken(h))), now) ==
            LiveTokens(After(After(s, Timed(now, Purge)), Timed(now, RevokeToken(h))), now) <==>
            !(h in s.tokens && !LiveToken(s.tokens[h], now) &&
              exists g :: g in s.tokens && LiveToken(s.tokens[g], now) && s.tokens[g].session == s.tokens[h].session)
  {
    var kept := LiveTokens(After(s, Timed(now, RevokeToken(h))), now);
    var purged := LiveTokens(After(After(s, Timed(now, Purge)), Timed(now, RevokeToken(h))), now);
    if h in s.tokens && !LiveToken(s.tokens[h], now) {
      assert forall g :: g in s.tokens && LiveToken(s.tokens[g], now) ==> g in purged;
      if g :| g in s.tokens && LiveToken(s.tokens[g], now) && s.tokens[g].session == s.tokens[h].session {
        assert g in purged && g !in kept;
      } else {
        assert kept == purged;
      }
    } else {
      assert kept == purged;
    }
  }
}
