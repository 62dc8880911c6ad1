/** The promise behind the order of the saga: no label is free while an identity for it stands on
    the ledger. It fails by lost answers, and these lemmas say exactly when. */
module IdentityGuard {
  import opened Wrappers
  import opened RepoData
  import opened Registry
  import opened RegistrationSaga

  /** A label that some identity on the ledger names is claimed, so nobody else can start on it. */
  ghost predicate Guarded(s: State) {
    forall n :: Identities(s, n) != {} ==> n in s.reg.claims
  }

  // ---- exactly which steps break the promise ----

  /** A release delivered while an identity for the label is on the ledger, and an acceptance of
      one whose label was released meanwhile. */
  predicate Unguards(s: State, step: Step)
    requires Enabled(s, step)
  {
    || (step.DeliverRelease? && Identities(s, s.runs[step.r].name) != {})
    || (step.LedgerAccepts? && s.runs[step.r].name !in s.reg.claims)
  }

  lemma {:induction false} ReleaseGuardIff(s: State, r: nat)
    requires Inv(s) && Guarded(s) && Enabled(s, DeliverRelease(r))
    ensures Guarded(Apply(s, DeliverRelease(r))) <==> Identities(s, s.runs[r].name) == {}
  {
    ClosingActsOnOwnRow(s, r);
    var t := Apply(s, DeliverRelease(r));
    assert t.reg.claims == s.reg.claims - {s.runs[r].name};
    assert forall n :: Identities(t, n) == Identities(s, n);
  }

  lemma {:induction false} AcceptGuardIff(s: State, r: nat)
    requires Guarded(s) && Enabled(s, LedgerAccepts(r))
    ensures Guarded(Apply(s, LedgerAccepts(r))) <==> s.runs[r].name in s.reg.claims
  {
    var t, name := Apply(s, LedgerAccepts(r)), s.runs[r].name;
    assert s.runs[r].did in Identities(t, name);
    assert forall n :: n != name ==> Identities(t, n) == Identities(s, n);
  }

  lemma {:induction false} ClaimsStay(s: State, step: Step)
    requires Enabled(s, step) && !step.DeliverRelease?
    ensures s.reg.claims.Keys <= Apply(s, step).reg.claims.Keys
  {
  }

  lemma {:induction false} OtherStepsKeepGuard(s: State, step: Step)
    requires Guarded(s) && Enabled(s, step) && !step.DeliverRelease? && !step.LedgerAccepts?
    ensures Guarded(Apply(s, step))
  {
    ClaimsStay(s, step);
    var t := Apply(s, step);
    forall n | Identities(t, n) != {} ensures n in t.reg.claims {
      LedgerGrows(s, step, n);
    }
  }

  /** From any reachable state that keeps the promise, a step breaks it if and only if it is a
      release delivered while an identity for the label is on the ledger, or the ledger's
      acceptance of an identity whose label is free. */
  lemma {:induction false} GuardBreaksIff(s: State, step: Step)
    requires Inv(s) && Guarded(s) && Enabled(s, step)
    ensures Guarded(Apply(s, step)) <==> !Unguards(s, step)
  {
    match step
    case DeliverRelease(r) => ReleaseGuardIff(s, r);
    case LedgerAccepts(r) => AcceptGuardIff(s, r);
    case _ => OtherStepsKeepGuard(s, step);
  }

  /** The promise holds after every step of a run. */
  ghost predicate AlwaysGuarded(s: State, steps: seq<Step>)
    requires Legal(s, steps)
    decreases |steps|
  {
    Guarded(s) && (steps == [] || AlwaysGuarded(Apply(s, steps[0]), steps[1..]))
  }

  ghost predicate NeverUnguards(s: State, steps: seq<Step>)
    requires Legal(s, steps)
    decreases |steps|
  {
    steps == [] || (!Unguards(s, steps[0]) && NeverUnguards(Apply(s, steps[0]), steps[1..]))
  }

  lemma {:induction false} GuardedIff(s: State, steps: seq<Step>)
    requires Inv(s) && Guarded(s) && Legal(s, steps)
    ensures AlwaysGuarded(s, steps) <==> NeverUnguards(s, steps)
    decreases |steps|
  {
    if steps == [] {
    } else {
      GuardBreaksIff(s, steps[0]);
      StepKeepsInv(s, steps[0]);
      if Guarded(Apply(s, steps[0])) {
        GuardedIff(Apply(s, steps[0]), steps[1..]);
      }
    }
  }

  /** A run keeps the promise throughout if and only if none of its releases is delivered while an
      identity for the label is on the ledger and none of its acceptances finds the label free. */
  lemma RunGuardedIff(steps: seq<Step>)
    requires Legal(EMPTY, steps)
    ensures AlwaysGuarded(EMPTY, steps) <==> NeverUnguards(EMPTY, steps)
  {
    GuardedIff(EMPTY, steps);
  }

  // ---- when every answer is heard ----

  /** No caller takes the error branch while it waits for a provision, no provision loses the
      ledger's answer, and none fails once the ledger has accepted. */
  predicate AnswersHeard(s: State, step: Step) {
    && (step.GiveUp? && step.r in s.runs ==> !s.runs[step.r].phase.Provisioning?)
    && !step.LoseLedgerAnswer?
    && (step.StoreAccount? ==> step.hashed && step.keysStored)
  }

  /** With answers heard, only a run still waiting has an operation before the ledger, and what
      the ledger and the object of a held label have is what its holder put there. */
  ghost predicate CarefulRun(s: State, r: nat)
    requires r in s.runs
  {
    var run := s.runs[r];
    && (run.provision.Asked? || run.provision.Posting? ==> run.phase.Provisioning?)
    && (run.post.Posted? ==> run.provision.Posting?)
    && (run.post.Accepted? ==> run.provision.Posting? || run.provision.Created?)
    && (run.release.InFlight? ==> run.provision.Failed?)
    && (Holds(run) ==> Identities(s, run.name) == if run.post.Accepted? then {run.did} else {})
    && (Holds(run) ==> (run.provision.Created? <==> Accounts(s, run.name) != map[]))
  }

  ghost predicate Careful(s: State) { forall r :: r in s.runs ==> CarefulRun(s, r) }

  /** No label has two identities. */
  ghost predicate SoleIdentity(s: State) { forall n :: |Identities(s, n)| <= 1 }

  /** The run that takes the step. */
  lemma {:induction false} ActorStaysCareful(s: State, step: Step)
    requires Inv(s) && Guarded(s) && Careful(s) && Enabled(s, step) && AnswersHeard(s, step) && !step.Seed?
    ensures CarefulRun(Apply(s, step), step.r)
  {
    if !step.Begin? {
      assert RunOk(s.runs[step.r]) && OwnRow(s, step.r) && CarefulRun(s, step.r);
      AccountsGrow(s, step, s.runs[step.r].name);
      LedgerGrows(s, step, s.runs[step.r].name);
    }
  }

  /** Only its holder acts for a label. */
  lemma {:induction false} OthersUntouched(s: State, step: Step, r: nat)
    requires Inv(s) && Careful(s) && Enabled(s, step) && r in s.runs && (step.Seed? || r != step.r)
    requires Holds(s.runs[r])
    ensures Identities(Apply(s, step), s.runs[r].name) == Identities(s, s.runs[r].name)
    ensures Accounts(Apply(s, step), s.runs[r].name) == Accounts(s, s.runs[r].name)
  {
    AccountsGrow(s, step, s.runs[r].name);
    LedgerGrows(s, step, s.runs[r].name);
    if step.StoreAccount? || step.LedgerAccepts? {
      assert RunOk(s.runs[step.r]) && CarefulRun(s, step.r) && Holds(s.runs[step.r]);
      if s.runs[step.r].name == s.runs[r].name {
        OneHolder(s, step.r, r);
        assert false;
      }
    }
  }

  lemma {:induction false} OthersStayCareful(s: State, step: Step, r: nat)
    requires Inv(s) && Careful(s) && Enabled(s, step) && r in s.runs && (step.Seed? || r != step.r)
    ensures CarefulRun(Apply(s, step), r)
  {
    assert CarefulRun(s, r) && Apply(s, step).runs[r] == s.runs[r];
    if Holds(s.runs[r]) {
      OthersUntouched(s, step, r);
    }
  }

  lemma {:induction false} StepKeepsCareful(s: State, step: Step)
    requires Inv(s) && Guarded(s) && Careful(s) && Enabled(s, step) && AnswersHeard(s, step)
    ensures Careful(Apply(s, step))
  {
    var t := Apply(s, step);
    forall r | r in t.runs ensures CarefulRun(t, r) {
      if !step.Seed? && r == step.r {
        ActorStaysCareful(s, step);
      } else {
        OthersStayCareful(s, step, r);
      }
    }
  }

  /** A heard step never breaks the promise, nor gives a label a second identity. */
  lemma {:induction false} HeardStepKeepsGuard(s: State, step: Step)
    requires Inv(s) && Guarded(s) && Careful(s) && SoleIdentity(s) && Enabled(s, step)
    ensures !Unguards(s, step) && SoleIdentity(Apply(s, step))
  {
    if step.DeliverRelease? || step.LedgerAccepts? {
      assert RunOk(s.runs[step.r]) && OwnRow(s, step.r) && CarefulRun(s, step.r);
    }
    var t := Apply(s, step);
    forall n ensures |Identities(t, n)| <= 1 {
      LedgerGrows(s, step, n);
    }
  }

  ghost predicate AllHeard(s: State, steps: seq<Step>)
    requires Legal(s, steps)
    decreases |steps|
  {
    steps == [] || (AnswersHeard(s, steps[0]) && AllHeard(Apply(s, steps[0]), steps[1..]))
  }

  lemma {:induction false} HeardRun(s: State, steps: seq<Step>)
    requires Inv(s) && Guarded(s) && Careful(s) && SoleIdentity(s) && Legal(s, steps) && AllHeard(s, steps)
    ensures AlwaysGuarded(s, steps) && Guarded(Exec(s, steps)) && SoleIdentity(Exec(s, steps))
    decreases |steps|
  {
    if steps == [] {
    } else {
      HeardStepKeepsGuard(s, steps[0]);
      GuardBreaksIff(s, steps[0]);
      StepKeepsInv(s, steps[0]);
      StepKeepsCareful(s, steps[0]);
      HeardRun(Apply(s, steps[0]), steps[1..]);
    }
  }

  /** As long as every answer is heard, the ledger's included, and no provision fails after an
      acceptance, no label is ever free while an identity for it is on the ledger, which is what
      the saga's design note promises, and no label ever has two identities. */
  lemma HeardAnswersKeepGuard(steps: seq<Step>)
    requires Legal(EMPTY, steps) && AllHeard(EMPTY, steps)
    ensures AlwaysGuarded(EMPTY, steps) && SoleIdentity(Exec(EMPTY, steps))
  {
    HeardRun(EMPTY, steps);
  }

  // ---- the same for account rows ----

  /** A label with an account behind it is claimed. Every account has its identity on the ledger,
      so this is the weaker promise. */
  ghost predicate Housed(s: State) { forall n :: Accounts(s, n) != map[] ==> n in s.reg.claims }

  lemma GuardedIsHoused(s: State)
    requires LedgerOk(s) && Guarded(s)
    ensures Housed(s)
  {
    forall n | Accounts(s, n) != map[] ensures n in s.reg.claims {
      var d :| d in Accounts(s, n);
      assert d in Identities(s, n);
    }
  }

  lemma {:induction false} ReleaseHousedIff(s: State, r: nat)
    requires Inv(s) && Housed(s) && Enabled(s, DeliverRelease(r))
    ensures Housed(Apply(s, DeliverRelease(r))) <==> Accounts(s, s.runs[r].name) == map[]
  {
    ClosingActsOnOwnRow(s, r);
    var t := Apply(s, DeliverRelease(r));
    assert t.reg.claims == s.reg.claims - {s.runs[r].name};
    assert forall n :: Accounts(t, n) == Accounts(s, n);
  }

  lemma {:induction false} StoreHousedIff(s: State, step: Step)
    requires Housed(s) && Enabled(s, step) && step.StoreAccount?
    ensures Housed(Apply(s, step)) <==> !step.hashed || s.runs[step.r].name in s.reg.claims
  {
    var t, run := Apply(s, step), s.runs[step.r];
    assert forall n :: n != run.name ==> Accounts(t, n) == Accounts(s, n);
    if run.name !in s.reg.claims {
      assert Accounts(s, run.name) == map[];
      assert step.hashed ==> run.did in Accounts(t, run.name);
    }
  }

  lemma {:induction false} OtherStepsKeepHousing(s: State, step: Step)
    requires Housed(s) && Enabled(s, step) && !step.DeliverRelease? && !step.StoreAccount?
    ensures Housed(Apply(s, step))
  {
    ClaimsStay(s, step);
    var t := Apply(s, step);
    forall n | Accounts(t, n) != map[] ensures n in t.reg.claims {
      AccountsGrow(s, step, n);
    }
  }

  /** An account is left behind a free label exactly by a release delivered once the object holds
      an account, or by an insert after the label was released. */
  lemma {:induction false} HousingBreaksIff(s: State, step: Step)
    requires Inv(s) && Housed(s) && Enabled(s, step)
    ensures Housed(Apply(s, step)) <==>
            && !(step.DeliverRelease? && Accounts(s, s.runs[step.r].name) != map[])
            && !(step.StoreAccount? && step.hashed && s.runs[step.r].name !in s.reg.claims)
  {
    match step
    case DeliverRelease(r) => ReleaseHousedIff(s, r);
    case StoreAccount(_, _, _) => StoreHousedIff(s, step);
    case _ => OtherStepsKeepHousing(s, step);
  }

  // ---- runs that break it ----

  ghost predicate Leads(s: State, steps: seq<Step>, t: State) { Legal(s, steps) && Exec(s, steps) == t }

  lemma {:induction false} LeadsSnoc(s: State, steps: seq<Step>, mid: State, step: Step)
    requires Leads(s, steps, mid) && Enabled(mid, step)
    ensures Leads(s, steps + [step], Apply(mid, step))
    decreases |steps|
  {
    if steps == [] {
      assert [step][1..] == [];
    } else {
      assert (steps + [step])[1..] == steps[1..] + [step];
      LeadsSnoc(Apply(s, steps[0]), steps[1..], mid, step);
    }
  }

  /** The code releases whenever the provision answer is lost. That frees a label with an identity
      behind it exactly when the ledger already has one. */
  lemma LostAnswerFreesLabelIff(s: State, r: nat) returns (t: State)
    requires Inv(s) && Guarded(s) && r in s.runs && s.runs[r].phase.Provisioning?
    ensures Leads(s, [GiveUp(r)] + [DeliverRelease(r)], t)
    ensures Guarded(t) <==> Identities(s, s.runs[r].name) == {}
  {
    assert RunOk(s.runs[r]);
    var mid := Apply(s, GiveUp(r));
    assert Leads(s, [], s) && [] + [GiveUp(r)] == [GiveUp(r)];
    LeadsSnoc(s, [], s, GiveUp(r));
    LeadsSnoc(s, [GiveUp(r)], mid, DeliverRelease(r));
    t := Apply(mid, DeliverRelease(r));
    StepKeepsInv(s, GiveUp(r));
    assert Guarded(mid) by {
      assert forall n :: Identities(mid, n) == Identities(s, n);
    }
    ReleaseGuardIff(mid, r);
  }

  function OneRun(name: Label, run: Run, ids: set<Did>): State {
    State(Tables(map[name := Claim(None, false, None)], map[]), map[name := 0],
          if ids == {} then map[] else map[name := ids], map[], map[0 := run])
  }

  lemma {:induction false} SignupIsAsked(name: Label) returns (steps: seq<Step>, s: State)
    ensures Leads(EMPTY, steps, s) && GiveUp(0) !in steps
    ensures var run := Run(name, None, true, Provisioning, Delivered, true, Asked, "", NotPosted, Unsent, Unsent);
      s == OneRun(name, run, {})
  {
    var s1 := Apply(EMPTY, Begin(0, name, None, true));
    var s2 := Apply(s1, DeliverClaim(0));
    s := Apply(s2, HearClaim(0));
    assert Leads(EMPTY, [], EMPTY);
    LeadsSnoc(EMPTY, [], EMPTY, Begin(0, name, None, true));
    steps := [] + [Begin(0, name, None, true)];
    LeadsSnoc(EMPTY, steps, s1, DeliverClaim(0));
    steps := steps + [DeliverClaim(0)];
    LeadsSnoc(EMPTY, steps, s2, HearClaim(0));
    steps := steps + [HearClaim(0)];
  }

  /** A signup of `name` up to the ledger's acceptance of `did`. */
  lemma {:induction false} SignupIsAccepted(name: Label, did: Did) returns (steps: seq<Step>, s: State)
    ensures Leads(EMPTY, steps, s) && GiveUp(0) !in steps
    ensures var run := Run(name, None, true, Provisioning, Delivered, true, Posting, did, Accepted, Unsent, Unsent);
      s == OneRun(name, run, {did})
  {
    var s3: State;
    steps, s3 := SignupIsAsked(name);
    var s4 := Apply(s3, DeliverProvision(0, did));
    s := Apply(s4, LedgerAccepts(0));
    assert Identities(s4, name) == {} && {} + {did} == {did};
    LeadsSnoc(EMPTY, steps, s3, DeliverProvision(0, did));
    steps := steps + [DeliverProvision(0, did)];
    LeadsSnoc(EMPTY, steps, s4, LedgerAccepts(0));
    steps := steps + [LedgerAccepts(0)];
  }

  /** From a reachable state, the error branch is taken and its release delivered. */
  lemma {:induction false} EndsInRelease(steps: seq<Step>, s: State, hear: Step) returns (more: seq<Step>, t: State)
    requires Leads(EMPTY, steps, s) && 0 in s.runs && s.runs[0].phase.Provisioning?
    requires hear == GiveUp(0) || (hear == HearProvision(0) && s.runs[0].provision.Failed?)
    ensures more == steps + [hear] + [DeliverRelease(0)] && Leads(EMPTY, more, t)
    ensures t.ledger == s.ledger && t.objects == s.objects && s.runs[0].name !in t.reg.claims
  {
    RunKeepsInv(EMPTY, steps);
    var mid := Apply(s, hear);
    LeadsSnoc(EMPTY, steps, s, hear);
    LeadsSnoc(EMPTY, steps + [hear], mid, DeliverRelease(0));
    more, t := steps + [hear] + [DeliverRelease(0)], Apply(mid, DeliverRelease(0));
    StepKeepsInv(s, hear);
    ClosingActsOnOwnRow(mid, 0);
  }

  /** A signup whose provision created the account and was not heard: the label is free, the
      identity and the account stand. */
  lemma {:induction false} LostAnswerHappens(name: Label, did: Did) returns (steps: seq<Step>, s: State)
    ensures Leads(EMPTY, steps, s) && did in Identities(s, name) && did in Accounts(s, name)
    ensures name !in s.reg.claims
  {
    var s4: State;
    steps, s4 := SignupIsAccepted(name, did);
    var s5 := Apply(s4, StoreAccount(0, true, true));
    LeadsSnoc(EMPTY, steps, s4, StoreAccount(0, true, true));
    steps, s := EndsInRelease(steps + [StoreAccount(0, true, true)], s5, GiveUp(0));
  }

  /** A signup in which the caller hears every answer: the ledger accepted, its answer to the
      provision was lost or what follows failed, and the heard failure frees the label. */
  lemma {:induction false} LostLedgerAnswerHappens(name: Label, did: Did, fail: Step)
    returns (steps: seq<Step>, s: State)
    requires fail == LoseLedgerAnswer(0) || fail == StoreAccount(0, false, false)
    ensures Leads(EMPTY, steps, s) && did in Identities(s, name) && name !in s.reg.claims
    ensures GiveUp(0) !in steps && Accounts(s, name) == map[]
  {
    var s4: State;
    steps, s4 := SignupIsAccepted(name, did);
    var s5 := Apply(s4, fail);
    LeadsSnoc(EMPTY, steps, s4, fail);
    steps, s := EndsInRelease(steps + [fail], s5, HearProvision(0));
  }
}
