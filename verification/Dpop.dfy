/** The time and replay part of DPoP proof checking (sections 4.3 and 8 of RFC 9449). */
module Dpop {
  import opened Wrappers
  import opened OAuthStore

  const NONCE_WINDOW_SECS: nat := 300
  const MAX_PROOF_AGE_SECS: nat := 300

  // ---- nonces ----

  /** A nonce as the server sees it. SHA-256 over the secret and the window number is taken as
      injective in the window, and not to be hit by text the server never issued. */
  datatype Nonce = Issued(window: nat) | Foreign(text: string)

  function NonceAt(now: nat): Nonce { Issued(now / NONCE_WINDOW_SECS) }

  predicate NonceIsValid(n: Nonce, now: nat) {
    var window := now / NONCE_WINDOW_SECS;
    n == Issued(window) || n == Issued(if window == 0 then 0 else window - 1)
  }

  /** Issued in the given window or the one before it. */
  predicate IssuedAbout(n: Nonce, window: nat) { n.Issued? && (n.window == window || n.window + 1 == window) }

  /** A nonce issued at `t` is valid for at least one window and never after two. */
  lemma NonceLifetime(t: nat, u: nat)
    requires t <= u
    ensures u <= t + 300 ==> NonceIsValid(NonceAt(t), u)
    ensures t + 600 <= u ==> !NonceIsValid(NonceAt(t), u)
    ensures NonceIsValid(NonceAt(t), u) <==> u < (t / 300 + 2) * 300
  {
  }

  /** A nonce valid at `t` is still valid a proof's lifetime later only if it was current at `t`. */
  lemma LateNonceWasCurrent(n: Nonce, t: nat, u: nat)
    requires NonceIsValid(n, t) && NonceIsValid(n, u) && t + MAX_PROOF_AGE_SECS <= u
    ensures n == NonceAt(t)
  {
  }

  // ---- verification ----

  /** The claims that time and replay protection depend on. `ath` is modelled by the access
      token whose hash it is, SHA-256 being taken as injective. */
  datatype Proof = Proof(jti: string, iat: nat, nonce: Option<Nonce>, ath: Option<string>)

  /** What the endpoint asks: whether a nonce is required and which access token came along.
      `bound` stands for the checks before these: type, key, signature, method and URI. */
  datatype Request = Request(requireNonce: bool, token: Option<string>, bound: bool)

  datatype Outcome = Ok | InvalidProof | UseNonce

  /** A verification attempt, or a purge of the replay cache. */
  datatype Event = Attempt(now: nat, proof: Proof, request: Request) | Clean(now: nat)

  function AbsDiff(a: nat, b: nat): nat { if a < b then b - a else a - b }

  predicate Fresh(iat: nat, now: nat) { AbsDiff(now, iat) <= MAX_PROOF_AGE_SECS }

  predicate NonceOk(p: Proof, q: Request, now: nat) {
    q.requireNonce ==> p.nonce.Some? && NonceIsValid(p.nonce.value, now)
  }

  predicate TokenOk(p: Proof, q: Request) { q.token.Some? ==> p.ath == q.token }

  /** Everything but replay. */
  predicate Passes(e: Event) {
    && e.Attempt? && e.request.bound && Fresh(e.proof.iat, e.now)
    && NonceOk(e.proof, e.request, e.now) && TokenOk(e.proof, e.request)
  }

  function RecordOp(e: Event): Timed
    requires e.Attempt?
  {
    Timed(e.now, RecordJti(e.proof.jti, e.now + MAX_PROOF_AGE_SECS))
  }

  function Next(jtis: map<string, nat>, e: Event): map<string, nat> {
    if e.Clean? then JtisAfter(jtis, Timed(e.now, Purge))
    else if Passes(e) then JtisAfter(jtis, RecordOp(e))
    else jtis
  }

  predicate Accepted(jtis: map<string, nat>, e: Event) { Passes(e) && e.proof.jti !in jtis }

  /** `verify`: the replay cache is consulted last, so a proof that fails earlier takes no slot,
      and a client is asked for a nonce only once its proof is bound and fresh. */
  method Verify(store: OAuthTables, proof: Proof, now: nat, request: Request) returns (r: Outcome)
    modifies store`jtis
    ensures r == Ok <==> Accepted(old(store.jtis), Attempt(now, proof, request))
    ensures r == Ok <==>
      && request.bound && now <= proof.iat + 300 && proof.iat <= now + 300
      && (request.requireNonce ==> proof.nonce.Some? && IssuedAbout(proof.nonce.value, now / 300))
      && (request.token.Some? ==> proof.ath == request.token)
      && proof.jti !in old(store.jtis)
    ensures store.jtis ==
      if r == Ok then old(store.jtis)[proof.jti := now + 300] else old(store.jtis)
    ensures r == UseNonce <==> request.bound && Fresh(proof.iat, now) && !NonceOk(proof, request, now)
    ensures store.jtis == Next(old(store.jtis), Attempt(now, proof, request))
  {
    if !request.bound || AbsDiff(now, proof.iat) > MAX_PROOF_AGE_SECS {
      return InvalidProof;
    }
    if request.requireNonce {
      if proof.nonce.None? || !NonceIsValid(proof.nonce.value, now) {
        return UseNonce;
      }
    }
    if request.token.Some? {
      if proof.ath.None? || proof.ath.value != request.token.value {
        return InvalidProof;
      }
    }
    var unseen := store.RecordDpopJti(proof.jti, now + MAX_PROOF_AGE_SECS, now);
    r := if unseen then Ok else InvalidProof;
  }

  /** A proof accepted with an access token is bound to that token: it passes with no other, and with
      none it passes whatever hash it carries. */
  lemma {:induction false} AcceptedIsBoundToToken(p: Proof, q: Request, now: nat, other: string)
    requires Passes(Attempt(now, p, q)) && q.token.Some?
    ensures p.ath == q.token
    ensures Passes(Attempt(now, p, q.(token := Some(other)))) <==> other == q.token.value
    ensures forall ath :: Passes(Attempt(now, p.(ath := ath), q.(token := None)))
  {
  }

  // ---- runs ----

  function CacheAfter(jtis: map<string, nat>, run: seq<Event>): map<string, nat> {
    if run == [] then jtis else Next(CacheAfter(jtis, run[..|run| - 1]), run[|run| - 1])
  }

  predicate AcceptedAt(jtis: map<string, nat>, run: seq<Event>, i: nat)
    requires i < |run|
  {
    Accepted(CacheAfter(jtis, run[..i]), run[i])
  }

  predicate ClockAdvances(run: seq<Event>) {
    forall i, j :: 0 <= i <= j < |run| ==> run[i].now <= run[j].now
  }

  lemma CacheSnoc(jtis: map<string, nat>, run: seq<Event>, i: nat)
    requires i < |run|
    ensures CacheAfter(jtis, run[..i + 1]) == Next(CacheAfter(jtis, run[..i]), run[i])
  {
    assert run[..i + 1][..i] == run[..i];
  }

  lemma {:induction false} JtiStays(jtis: map<string, nat>, e: Event, jti: string)
    ensures jti in jtis ==>
              (e.Clean? && jtis[jti] <= e.now) || (jti in Next(jtis, e) && Next(jtis, e)[jti] == jtis[jti])
  {
  }

  /** An accepted proof is remembered for its full window, and only a purge forgets it. */
  lemma {:induction false} Remembered(jtis: map<string, nat>, run: seq<Event>, i: nat, k: nat)
    requires i < k <= |run| && AcceptedAt(jtis, run, i) && ClockAdvances(run)
    ensures var cache, jti, until := CacheAfter(jtis, run[..k]), run[i].proof.jti, run[i].now + MAX_PROOF_AGE_SECS;
      (jti in cache && cache[jti] == until) || (exists c :: i < c < k && run[c].Clean? && until <= run[c].now)
    decreases k
  {
    CacheSnoc(jtis, run, k - 1);
    if i + 1 == k {
    } else {
      Remembered(jtis, run, i, k - 1);
      JtiStays(CacheAfter(jtis, run[..k - 1]), run[k - 1], run[i].proof.jti);
    }
  }

  /** Without a purge in between, a proof is accepted once. */
  lemma NoReplayWithoutPurge(jtis: map<string, nat>, run: seq<Event>, i: nat, j: nat)
    requires i < j < |run| && ClockAdvances(run) && AcceptedAt(jtis, run, i)
    requires run[j].Attempt? && run[j].proof.jti == run[i].proof.jti
    requires forall c :: i < c < j ==> !run[c].Clean?
    ensures !AcceptedAt(jtis, run, j)
  {
    Remembered(jtis, run, i, j);
  }

  /** A second acceptance comes a full window after the first. */
  lemma ReplayIsLate(jtis: map<string, nat>, run: seq<Event>, i: nat, j: nat)
    requires i < j < |run| && ClockAdvances(run) && AcceptedAt(jtis, run, i) && AcceptedAt(jtis, run, j)
    requires run[j].proof.jti == run[i].proof.jti
    ensures run[i].now + MAX_PROOF_AGE_SECS <= run[j].now
  {
    Remembered(jtis, run, i, j);
  }

  /** A proof whose `iat` lies strictly before the time it was accepted is never accepted
      again, whatever the purge schedule. */
  lemma NoReplayOfPastProof(jtis: map<string, nat>, run: seq<Event>, i: nat, j: nat)
    requires i < j < |run| && ClockAdvances(run) && AcceptedAt(jtis, run, i)
    requires run[j].Attempt? && run[j].proof == run[i].proof && run[i].proof.iat < run[i].now
    ensures !AcceptedAt(jtis, run, j)
  {
    if AcceptedAt(jtis, run, j) {
      ReplayIsLate(jtis, run, i, j);
      assert false;
    }
  }

  /** `run` accepts the proof at `t` and again at its end, at the same endpoint. */
  ghost predicate ReplayedBy(jtis: map<string, nat>, p: Proof, q: Request, t: nat, run: seq<Event>) {
    && 2 <= |run| && ClockAdvances(run)
    && run[0] == Attempt(t, p, q) && AcceptedAt(jtis, run, 0)
    && run[|run| - 1] == Attempt(run[|run| - 1].now, p, q) && AcceptedAt(jtis, run, |run| - 1)
  }

  /** Exactly which proofs a purge can let through twice: those whose `iat` is not before the time
      they were accepted and, where a nonce is required, that carry the nonce current then. */
  lemma ReplayExactlyWhenNotPast(jtis: map<string, nat>, p: Proof, q: Request, t: nat)
    requires Accepted(jtis, Attempt(t, p, q))
    ensures (exists run :: ReplayedBy(jtis, p, q, t, run)) <==>
            t <= p.iat && (q.requireNonce ==> p.nonce == Some(NonceAt(t)))
  {
    if t <= p.iat && (q.requireNonce ==> p.nonce == Some(NonceAt(t))) {
      ReplayAfterPurge(jtis, p, q, t);
    } else if run: seq<Event> :| ReplayedBy(jtis, p, q, t, run) {
      var j := |run| - 1;
      ReplayIsLate(jtis, run, 0, j);
      if q.requireNonce {
        LateNonceWasCurrent(p.nonce.value, t, run[j].now);
      }
      assert false;
    }
  }

  lemma ReplayAfterPurge(jtis: map<string, nat>, p: Proof, q: Request, t: nat)
    requires Accepted(jtis, Attempt(t, p, q))
    requires t <= p.iat && (q.requireNonce ==> p.nonce == Some(NonceAt(t)))
    ensures exists run :: ReplayedBy(jtis, p, q, t, run)
  {
    var late := t + MAX_PROOF_AGE_SECS;
    NonceLifetime(t, late);
    var run := [Attempt(t, p, q), Clean(late), Attempt(late, p, q)];
    assert run[..0] == [];
    CacheSnoc(jtis, run, 0);
    CacheSnoc(jtis, run, 1);
    assert ReplayedBy(jtis, p, q, t, run);
  }
}
