/** What a client can count on, over whole runs: what was stored is what is redeemed, until it expires,
    is spent or is revoked, whatever else happens in between, purges included. */
module OAuthRedeem {
  import opened Wrappers
  import opened OAuthStore

  lemma NotPurged(run: seq<Timed>, i: nat, j: nat, expires: nat)
    requires i < j < |run| && ClockAdvances(run) && run[j].now < expires
    ensures forall k :: i < k < j && run[k].op.Purge? ==> run[k].now < expires
  {
  }

  // ---- authorization codes ----

  lemma {:induction false} CodeStays(codes: map<Hash, AuthCode>, t: Timed, h: Hash, c: AuthCode)
    requires !(t.op.PutCode? && t.op.h == h) && t.op != ConsumeCode(h) && (h in codes ==> codes[h] == c)
    ensures h in CodesAfter(codes, t) ==> CodesAfter(codes, t)[h] == c
    ensures h in codes && (t.op.Purge? ==> t.now < c.expires) ==> h in CodesAfter(codes, t)
  {
  }

  lemma {:induction false} CodeKept(s: Store, run: seq<Timed>, i: nat, j: nat, h: Hash, c: AuthCode)
    requires i < j <= |run| && run[i].op == PutCode(h, c)
    requires forall k :: i < k < j ==> !(run[k].op.PutCode? && run[k].op.h == h) && run[k].op != ConsumeCode(h)
    ensures var codes := RunStore(s, run[..j]).codes;
      && (h in codes ==> codes[h] == c)
      && ((forall k :: i < k < j && run[k].op.Purge? ==> run[k].now < c.expires) ==> h in codes)
    decreases j
  {
    RunSnoc(s, run, j - 1);
    if i + 1 == j {
    } else {
      CodeKept(s, run, i, j - 1, h, c);
      CodeStays(RunStore(s, run[..j - 1]).codes, run[j - 1], h, c);
    }
  }

  /** A stored code that was neither stored again nor consumed answers its first redemption with
      exactly what was stored if it has not expired, and with nothing if it has. */
  lemma {:induction false} CodeRedeems(s: Store, run: seq<Timed>, i: nat, j: nat, h: Hash, c: AuthCode)
    requires i < j < |run| && ClockAdvances(run) && run[i].op == PutCode(h, c) && run[j].op == ConsumeCode(h)
    requires forall k :: i < k < j ==> !(run[k].op.PutCode? && run[k].op.h == h) && run[k].op != ConsumeCode(h)
    ensures AnswerAt(s, run, j) == ACode(if run[j].now < c.expires then Some(c) else None)
  {
    CodeKept(s, run, i, j, h, c);
    if run[j].now < c.expires {
      NotPurged(run, i, j, c.expires);
    }
  }

  // ---- pushed requests ----

  lemma {:induction false} PushedStays(par: map<Hash, Pushed>, t: Timed, h: Hash, p: Pushed)
    requires !(t.op.PutPushed? && t.op.h == h) && t.op != DeletePushed(h) && (h in par ==> par[h] == p)
    ensures h in ParAfter(par, t) ==> ParAfter(par, t)[h] == p
    ensures h in par && (t.op.Purge? ==> t.now < p.expires) ==> h in ParAfter(par, t)
  {
  }

  lemma {:induction false} PushedKept(s: Store, run: seq<Timed>, i: nat, j: nat, h: Hash, p: Pushed)
    requires i < j <= |run| && run[i].op == PutPushed(h, p)
    requires forall k :: i < k < j ==> !(run[k].op.PutPushed? && run[k].op.h == h) && run[k].op != DeletePushed(h)
    ensures var par := RunStore(s, run[..j]).par;
      && (h in par ==> par[h] == p)
      && ((forall k :: i < k < j && run[k].op.Purge? ==> run[k].now < p.expires) ==> h in par)
    decreases j
  {
    RunSnoc(s, run, j - 1);
    if i + 1 == j {
    } else {
      PushedKept(s, run, i, j - 1, h, p);
      PushedStays(RunStore(s, run[..j - 1]).par, run[j - 1], h, p);
    }
  }

  /** A pushed request that was neither stored again nor deleted is read back as stored, as often as
      asked, until it expires. */
  lemma {:induction false} PushedReads(s: Store, run: seq<Timed>, i: nat, j: nat, h: Hash, p: Pushed)
    requires i < j < |run| && ClockAdvances(run) && run[i].op == PutPushed(h, p) && run[j].op == GetPushed(h)
    requires forall k :: i < k < j ==> !(run[k].op.PutPushed? && run[k].op.h == h) && run[k].op != DeletePushed(h)
    ensures AnswerAt(s, run, j) == APushed(if run[j].now < p.expires then Some(p) else None)
  {
    PushedKept(s, run, i, j, h, p);
    if run[j].now < p.expires {
      NotPurged(run, i, j, p.expires);
    }
  }

  lemma {:induction false} DeletedStaysGone(s: Store, run: seq<Timed>, i: nat, j: nat, h: Hash)
    requires i < j <= |run| && run[i].op == DeletePushed(h)
    requires forall k :: i < k < j ==> !(run[k].op.PutPushed? && run[k].op.h == h)
    ensures h !in RunStore(s, run[..j]).par
    decreases j
  {
    RunSnoc(s, run, j - 1);
    if i + 1 == j {
    } else {
      DeletedStaysGone(s, run, i, j - 1, h);
    }
  }

  /** A deleted request is not read again. */
  lemma {:induction false} DeletedReadsNothing(s: Store, run: seq<Timed>, i: nat, j: nat, h: Hash)
    requires i < j < |run| && run[i].op == DeletePushed(h) && run[j].op == GetPushed(h)
    requires forall k :: i < k < j ==> !(run[k].op.PutPushed? && run[k].op.h == h)
    ensures AnswerAt(s, run, j) == APushed(None)
  {
    DeletedStaysGone(s, run, i, j, h);
  }

  // ---- refresh tokens ----

  /** The operation ends a session: by its name, or by a token that is in it. */
  predicate EndsSession(tokens: map<Hash, Token>, op: Op, session: string) {
    || op == RevokeSession(session)
    || (op.RevokeToken? && op.h in tokens && tokens[op.h].session == session)
  }

  /** The token table before each operation of a run, and at its end. */
  ghost function Trail(s: Store, run: seq<Timed>): seq<map<Hash, Token>> {
    seq(|run| + 1, k requires 0 <= k <= |run| => RunStore(s, run[..k]).tokens)
  }

  ghost predicate Follows(trail: seq<map<Hash, Token>>, run: seq<Timed>) {
    |trail| == |run| + 1 && forall k :: 0 <= k < |run| ==> trail[k + 1] == TokensAfter(trail[k], run[k])
  }

  lemma {:induction false} TrailFollows(s: Store, run: seq<Timed>)
    ensures Follows(Trail(s, run), run)
  {
    forall k | 0 <= k < |run| ensures Trail(s, run)[k + 1] == TokensAfter(Trail(s, run)[k], run[k]) {
      RunSnoc(s, run, k);
    }
  }

  /** One operation leaves a token in its row, until it is stored again, its session ends, or it is
      purged after it expired. */
  lemma {:induction false} TokenStep(tokens: map<Hash, Token>, t: Timed, h: Hash)
    requires h in tokens && !EndsSession(tokens, t.op, tokens[h].session) && !(t.op.PutToken? && t.op.h == h)
    ensures h in TokensAfter(tokens, t) <==> !(t.op.Purge? && tokens[h].expires <= t.now)
    ensures h in TokensAfter(tokens, t) ==>
              (TokensAfter(tokens, t)[h] ==
               if t.op == ConsumeToken(h) && t.now < tokens[h].expires then tokens[h].(used := true) else tokens[h])
  {
  }

  lemma {:induction false} TokenAbsent(tokens: map<Hash, Token>, t: Timed, h: Hash)
    requires h !in tokens && !(t.op.PutToken? && t.op.h == h)
    ensures h !in TokensAfter(tokens, t)
  {
  }

  lemma {:induction false} TokenStays(tokens: map<Hash, Token>, t: Timed, h: Hash, tok: Token)
    requires h in tokens ==> tokens[h] == tok && !EndsSession(tokens, t.op, tok.session)
    requires !(t.op.PutToken? && t.op.h == h) && (tok.used || t.op != ConsumeToken(h))
    ensures h in TokensAfter(tokens, t) ==> TokensAfter(tokens, t)[h] == tok
    ensures h in tokens && (t.op.Purge? ==> t.now < tok.expires) ==> h in TokensAfter(tokens, t)
  {
    if h in tokens {
      TokenStep(tokens, t, h);
    } else {
      TokenAbsent(tokens, t, h);
    }
  }

  /** Between `i` and `j` the token is neither stored again nor redeemed if unspent, and its session
      is not ended. */
  ghost predicate Untouched(trail: seq<map<Hash, Token>>, run: seq<Timed>, i: nat, j: nat, h: Hash, tok: Token)
    requires j <= |run| < |trail|
  {
    forall k :: i < k < j ==>
      && !EndsSession(trail[k], run[k].op, tok.session)
      && !(run[k].op.PutToken? && run[k].op.h == h)
      && (tok.used || run[k].op != ConsumeToken(h))
  }

  /** While untouched, a token that is still there is the one it was, and it is there unless a purge
      came after it expired. */
  lemma {:induction false} TokenSame(
    trail: seq<map<Hash, Token>>, run: seq<Timed>, i: nat, j: nat, h: Hash, tok: Token)
    requires Follows(trail, run) && i < j <= |run| && Untouched(trail, run, i, j, h, tok)
    requires h in trail[i + 1] ==> trail[i + 1][h] == tok
    ensures h in trail[j] ==> trail[j][h] == tok
    decreases j
  {
    if i + 1 == j {
    } else {
      TokenSame(trail, run, i, j - 1, h, tok);
      TokenStays(trail[j - 1], run[j - 1], h, tok);
      assert trail[j - 1 + 1] == TokensAfter(trail[j - 1], run[j - 1]);
    }
  }

  lemma {:induction false} TokenThere(
    trail: seq<map<Hash, Token>>, run: seq<Timed>, i: nat, j: nat, h: Hash, tok: Token)
    requires Follows(trail, run) && i < j <= |run| && Untouched(trail, run, i, j, h, tok)
    requires h in trail[i + 1] && trail[i + 1][h] == tok
    requires forall k :: i < k < j && run[k].op.Purge? ==> run[k].now < tok.expires
    ensures h in trail[j]
    decreases j
  {
    if i + 1 == j {
    } else {
      TokenThere(trail, run, i, j - 1, h, tok);
      TokenSame(trail, run, i, j - 1, h, tok);
      TokenStays(trail[j - 1], run[j - 1], h, tok);
      assert trail[j - 1 + 1] == TokensAfter(trail[j - 1], run[j - 1]);
    }
  }

  /** What an untouched token answers to a redemption. */
  lemma {:induction false} UntouchedAnswers(s: Store, run: seq<Timed>, i: nat, j: nat, h: Hash, tok: Token)
    requires i < j < |run| && ClockAdvances(run) && run[j].op == ConsumeToken(h)
    requires h in Trail(s, run)[i + 1] && Trail(s, run)[i + 1][h] == tok
    requires Untouched(Trail(s, run), run, i, j, h, tok)
    ensures AnswerAt(s, run, j) ==
            if tok.expires <= run[j].now then NotFound else if tok.used then Reused(tok.session) else Consumed(tok)
  {
    var trail := Trail(s, run);
    TrailFollows(s, run);
    TokenSame(trail, run, i, j, h, tok);
    if run[j].now < tok.expires {
      NotPurged(run, i, j, tok.expires);
      TokenThere(trail, run, i, j, h, tok);
    }
    assert trail[j] == RunStore(s, run[..j]).tokens;
  }

  /** A stored token, whose session was not ended and which was not stored again, answers its first
      redemption with the token as stored if it has not expired, and is not found if it has. */
  lemma {:induction false} TokenRedeems(s: Store, run: seq<Timed>, i: nat, j: nat, h: Hash, tok: Token)
    requires i < j < |run| && ClockAdvances(run) && run[i].op == PutToken(h, tok) && run[j].op == ConsumeToken(h)
    requires Untouched(Trail(s, run), run, i, j, h, tok.(used := false))
    ensures AnswerAt(s, run, j) == if run[j].now < tok.expires then Consumed(tok.(used := false)) else NotFound
  {
    RunSnoc(s, run, i);
    UntouchedAnswers(s, run, i, j, h, tok.(used := false));
  }

  /** A spent token presented again while it lives is found out, under its own session, unless the
      session was ended. */
  lemma {:induction false} ReuseIsFoundOut(s: Store, run: seq<Timed>, i: nat, j: nat, h: Hash)
    requires i < j < |run| && ClockAdvances(run) && run[i].op == ConsumeToken(h) && run[j].op == ConsumeToken(h)
    requires AnswerAt(s, run, i).Consumed?
    requires Untouched(Trail(s, run), run, i, j, h, AnswerAt(s, run, i).token.(used := true))
    ensures var tok := AnswerAt(s, run, i).token;
      AnswerAt(s, run, j) == if run[j].now < tok.expires then Reused(tok.session) else NotFound
  {
    RunSnoc(s, run, i);
    UntouchedAnswers(s, run, i, j, h, AnswerAt(s, run, i).token.(used := true));
  }

  lemma {:induction false} EndedStaysGone(trail: seq<map<Hash, Token>>, run: seq<Timed>, i: nat, j: nat, h: Hash)
    requires Follows(trail, run) && i < j <= |run| && h !in trail[i + 1]
    requires forall k :: i < k < j ==> !(run[k].op.PutToken? && run[k].op.h == h)
    ensures h !in trail[j]
    decreases j
  {
    if i + 1 == j {
    } else {
      EndedStaysGone(trail, run, i, j - 1, h);
      TokenAbsent(trail[j - 1], run[j - 1], h);
      assert trail[j - 1 + 1] == TokensAfter(trail[j - 1], run[j - 1]);
    }
  }

  /** Ending a session ends every token in it: none is redeemed again unless stored anew. */
  lemma {:induction false} EndedRedeemsNothing(s: Store, run: seq<Timed>, i: nat, j: nat, h: Hash)
    requires i < j < |run| && run[j].op == ConsumeToken(h) && h in Trail(s, run)[i]
    requires EndsSession(Trail(s, run)[i], run[i].op, Trail(s, run)[i][h].session)
    requires forall k :: i < k < j ==> !(run[k].op.PutToken? && run[k].op.h == h)
    ensures AnswerAt(s, run, j) == NotFound
  {
    TrailFollows(s, run);
    assert Trail(s, run)[i + 1] == TokensAfter(Trail(s, run)[i], run[i]);
    EndedStaysGone(Trail(s, run), run, i, j, h);
    assert Trail(s, run)[j] == RunStore(s, run[..j]).tokens;
  }

  /** The session list of an account is exactly the tokens of it that a redemption would consume. */
  lemma {:induction false} ListsRedeemable(s: Store, now: nat, did: string, h: Hash)
    ensures var list, redeem := Reply(s, Timed(now, ListSessions(did))), Reply(s, Timed(now, ConsumeToken(h)));
      && list.Sessions?
      && (h in list.rows <==> redeem.Consumed? && redeem.token.did == did)
      && (h in list.rows ==> redeem == Consumed(list.rows[h]))
  {
  }
}
