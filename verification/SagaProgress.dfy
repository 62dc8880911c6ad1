/** What a signup comes to when nobody else moves: an account bound to its label, or nothing at all.
    These hold from every reachable state of the registry, the ledger and the account objects. */
module SagaProgress {
  import opened Wrappers
  import opened RepoData
  import opened Registry
  import opened RegistrationSaga
  import opened IdentityGuard

  lemma {:induction false} LeadsThree(s: State, a: Step, b: Step, c: Step)
    requires Enabled(s, a) && Enabled(Apply(s, a), b) && Enabled(Apply(Apply(s, a), b), c)
    ensures Leads(s, [] + [a] + [b] + [c], Apply(Apply(Apply(s, a), b), c))
  {
    assert Leads(s, [], s);
    LeadsSnoc(s, [], s, a);
    LeadsSnoc(s, [] + [a], Apply(s, a), b);
    LeadsSnoc(s, [] + [a] + [b], Apply(Apply(s, a), b), c);
  }

  // ---- how a provision's answer closes a run ----

  /** A success that is heard binds: delivering the bind leaves the label active with the run's
      identity, its invite code kept, and every other row as it was. */
  lemma {:induction false} HeardSuccessBinds(s: State, r: nat) returns (t: State)
    requires Inv(s) && r in s.runs && s.runs[r].phase.Provisioning? && s.runs[r].provision.Created?
    ensures Leads(s, [HearProvision(r)] + [DeliverBind(r)], t)
    ensures var run := s.runs[r];
      && run.name in s.reg.claims
      && t.reg == s.reg.(claims := s.reg.claims[run.name := Claim(Some(run.did), true, s.reg.claims[run.name].code)])
      && t.ledger == s.ledger && t.objects == s.objects
    ensures t.runs == s.runs[r := s.runs[r].(phase := Closing, bind := Delivered)]
  {
    assert RunOk(s.runs[r]) && OwnRow(s, r);
    var mid := Apply(s, HearProvision(r));
    assert Leads(s, [], s) && [] + [HearProvision(r)] == [HearProvision(r)];
    LeadsSnoc(s, [], s, HearProvision(r));
    LeadsSnoc(s, [HearProvision(r)], mid, DeliverBind(r));
    t := Apply(mid, DeliverBind(r));
  }

  /** A failure that is heard gives the label back, and the use of the code that paid for it. */
  lemma {:induction false} HeardFailureRefunds(s: State, r: nat) returns (t: State)
    requires Inv(s) && r in s.runs && s.runs[r].phase.Provisioning? && s.runs[r].provision.Failed?
    ensures Leads(s, [HearProvision(r)] + [DeliverRelease(r)], t)
    ensures var run := s.runs[r];
      && run.name in s.reg.claims && t.reg.claims == s.reg.claims - {run.name}
      && (forall code :: Uses(t.reg, code) ==
            Uses(s.reg, code) + if s.reg.claims[run.name].code == Some(code) then 1 else 0)
      && t.ledger == s.ledger && t.objects == s.objects
    ensures t.reg == After(s.reg, DoRelease(s.runs[r].name))
    ensures t.runs == s.runs[r := s.runs[r].(phase := Closing, release := Delivered)]
  {
    assert RunOk(s.runs[r]) && OwnRow(s, r);
    var mid := Apply(s, HearProvision(r));
    assert Leads(s, [], s) && [] + [HearProvision(r)] == [HearProvision(r)];
    LeadsSnoc(s, [], s, HearProvision(r));
    LeadsSnoc(s, [HearProvision(r)], mid, DeliverRelease(r));
    t := Apply(mid, DeliverRelease(r));
  }

  // ---- a whole signup ----

  predicate Welcome(s: State, name: Label, invite: Option<Code>, open: bool) {
    name !in s.reg.claims && (open || (invite.Some? && Usable(s.reg.invites, invite.value)))
  }

  function Paid(invite: Option<Code>, open: bool): Option<Code> { if open then None else invite }

  /** A claim of a free label, with a code if one is needed, is granted and heard. */
  lemma {:induction false} ClaimIsGranted(s: State, r: nat, name: Label, invite: Option<Code>, open: bool)
    returns (steps: seq<Step>, t: State)
    requires r !in s.runs && Welcome(s, name, invite, open)
    ensures Leads(s, steps, t)
    ensures t.reg.claims == s.reg.claims[name := Claim(None, false, Paid(invite, open))]
    ensures t.reg.invites == AddUses(s.reg, Paid(invite, open), -1)
    ensures t.ledger == s.ledger && t.objects == s.objects && t.owner == s.owner[name := r]
    ensures var run := Run(name, invite, open, Provisioning, Delivered, true, Asked, "", NotPosted, Unsent, Unsent);
      t.runs == s.runs[r := run]
  {
    var a, b, c := Begin(r, name, invite, open), DeliverClaim(r), HearClaim(r);
    LeadsThree(s, a, b, c);
    steps, t := [] + [a] + [b] + [c], Apply(Apply(Apply(s, a), b), c);
  }

  /** A claim of a taken label, or without a usable code in gated mode, changes nothing. */
  lemma {:induction false} ClaimIsRefused(s: State, r: nat, name: Label, invite: Option<Code>, open: bool)
    returns (steps: seq<Step>, t: State)
    requires r !in s.runs && !Welcome(s, name, invite, open)
    ensures Leads(s, steps, t) && t == s.(runs := t.runs)
    ensures var run := Run(name, invite, open, Done, Delivered, false, NotAsked, "", NotPosted, Unsent, Unsent);
      t.runs == s.runs[r := run]
  {
    var a, b, c := Begin(r, name, invite, open), DeliverClaim(r), HearClaim(r);
    LeadsThree(s, a, b, c);
    steps, t := [] + [a] + [b] + [c], Apply(Apply(Apply(s, a), b), c);
  }

  /** An empty object posts the identity, the ledger accepts it, and the account is stored. */
  lemma {:induction false} ProvisionCreates(s: State, r: nat, did: Did) returns (t: State)
    requires r in s.runs && s.runs[r].provision.Asked? && Accounts(s, s.runs[r].name) == map[]
    ensures Leads(s, [] + [DeliverProvision(r, did)] + [LedgerAccepts(r)] + [StoreAccount(r, true, true)], t)
    ensures var run := s.runs[r];
      && t.reg == s.reg && t.owner == s.owner
      && t.ledger == s.ledger[run.name := Identities(s, run.name) + {did}]
      && t.objects == s.objects[run.name := map[did := run.name]]
      && t.runs == s.runs[r := run.(provision := Created, did := did, post := Accepted)]
  {
    var a, b, c := DeliverProvision(r, did), LedgerAccepts(r), StoreAccount(r, true, true);
    LeadsThree(s, a, b, c);
    t := Apply(Apply(Apply(s, a), b), c);
    assert map[][did := s.runs[r].name] == map[did := s.runs[r].name];
  }

  /** The ledger refuses the identity, and the provision fails without a trace. */
  lemma {:induction false} ProvisionIsRefused(s: State, r: nat, did: Did) returns (t: State)
    requires r in s.runs && s.runs[r].provision.Asked? && Accounts(s, s.runs[r].name) == map[]
    ensures Leads(s, [] + [DeliverProvision(r, did)] + [LedgerRefuses(r)] + [HearRefusal(r)], t)
    ensures t == s.(runs := s.runs[r := s.runs[r].(provision := Failed, did := did, post := Refused)])
  {
    var a, b, c := DeliverProvision(r, did), LedgerRefuses(r), HearRefusal(r);
    LeadsThree(s, a, b, c);
    t := Apply(Apply(Apply(s, a), b), c);
  }

  /** A provision that fails before it has posted anything leaves nothing behind but its failure. */
  lemma {:induction false} EarlyFailureIsClean(s: State, r: nat)
    requires r in s.runs && s.runs[r].provision.Asked?
    ensures Enabled(s, RefuseProvision(r))
    ensures Apply(s, RefuseProvision(r)) == s.(runs := s.runs[r := s.runs[r].(provision := Failed)])
  {
  }

  /** An object that already has an account posts no identity, and the provision fails. */
  lemma {:induction false} OccupiedObjectRefuses(s: State, r: nat, did: Did)
    requires r in s.runs && s.runs[r].provision.Asked? && Accounts(s, s.runs[r].name) != map[]
    ensures Enabled(s, DeliverProvision(r, did))
    ensures Apply(s, DeliverProvision(r, did)) == s.(runs := s.runs[r := s.runs[r].(provision := Failed)])
  {
  }

  /** After an acceptance the provision succeeds exactly when the password was hashed, the object was
      still empty and the keys were stored; the account row is there even when only the keys failed. */
  lemma {:induction false} StoreSucceedsIff(s: State, r: nat, hashed: bool, keysStored: bool)
    requires Inv(s) && Enabled(s, StoreAccount(r, hashed, keysStored))
    ensures var t := Apply(s, StoreAccount(r, hashed, keysStored)); var name := s.runs[r].name;
      && (t.runs[r].provision.Created? <==> hashed && keysStored && Accounts(s, name) == map[])
      && (t.runs[r].provision.Created? || t.runs[r].provision.Failed?)
      && (hashed && Accounts(s, name) == map[] ==> Accounts(t, name) == map[s.runs[r].did := name])
      && (!hashed || Accounts(s, name) != map[] ==> t.objects == s.objects)
  {
    var name := s.runs[r].name;
    if Accounts(s, name) != map[] {
      assert Sole(Accounts(s, name), name);
      var d :| d in Accounts(s, name);
      assert Accounts(s, name)[d] == name && name in Accounts(s, name).Values;
    } else {
      assert map[][s.runs[r].did := name] == map[s.runs[r].did := name];
    }
  }

  lemma {:induction false} LeadsAppend(s: State, xs: seq<Step>, mid: State, ys: seq<Step>, t: State)
    requires Leads(s, xs, mid) && Leads(mid, ys, t)
    ensures Leads(s, xs + ys, t)
    decreases |xs|
  {
    if xs == [] {
      assert xs + ys == ys;
    } else {
      assert (xs + ys)[1..] == xs[1..] + ys;
      LeadsAppend(Apply(s, xs[0]), xs[1..], mid, ys, t);
    }
  }

  lemma {:induction false} LeadsKeepsInv(s: State, steps: seq<Step>, t: State)
    requires Inv(s) && Leads(s, steps, t)
    ensures Inv(t)
  {
    RunKeepsInv(s, steps);
  }

  /** Up to a created account that has not been heard of. */
  lemma {:induction false} SignupIsProvisioned(
    s: State, r: nat, name: Label, invite: Option<Code>, open: bool, did: Did)
    returns (steps: seq<Step>, t: State)
    requires Inv(s) && r !in s.runs && Welcome(s, name, invite, open) && Accounts(s, name) == map[]
    ensures Leads(s, steps, t) && Inv(t) && t.reg.invites == AddUses(s.reg, Paid(invite, open), -1)
    ensures t.reg.claims == s.reg.claims[name := Claim(None, false, Paid(invite, open))]
    ensures t.objects == s.objects[name := map[did := name]] && did in Identities(t, name)
    ensures r in t.runs && t.runs[r].phase.Provisioning? && t.runs[r].provision.Created?
    ensures t.runs[r].name == name && t.runs[r].did == did
  {
    var s1: State;
    steps, s1 := ClaimIsGranted(s, r, name, invite, open);
    t := ProvisionCreates(s1, r, did);
    LeadsAppend(s, steps, s1, [] + [DeliverProvision(r, did)] + [LedgerAccepts(r)] + [StoreAccount(r, true, true)], t);
    steps := steps + ([] + [DeliverProvision(r, did)] + [LedgerAccepts(r)] + [StoreAccount(r, true, true)]);
    LeadsKeepsInv(s, steps, t);
  }

  /** From every reachable state, a signup of a free label whose object is empty, in open mode or
      with a usable code, can run to an active row that names its identity, an account in its
      object and the identity on the ledger, at the price of one use of the code. */
  lemma {:induction false} SignupSucceeds(s: State, r: nat, name: Label, invite: Option<Code>, open: bool, did: Did)
    returns (steps: seq<Step>, t: State)
    requires Inv(s) && r !in s.runs && Welcome(s, name, invite, open) && Accounts(s, name) == map[]
    ensures Leads(s, steps, t)
    ensures t.reg.claims == s.reg.claims[name := Claim(Some(did), true, Paid(invite, open))]
    ensures t.reg.invites == AddUses(s.reg, Paid(invite, open), -1)
    ensures t.objects == s.objects[name := map[did := name]] && did in Identities(t, name)
  {
    var mid: State;
    steps, mid := SignupIsProvisioned(s, r, name, invite, open, did);
    t := HeardSuccessBinds(mid, r);
    LeadsAppend(s, steps, mid, [HearProvision(r)] + [DeliverBind(r)], t);
    steps := steps + ([HearProvision(r)] + [DeliverBind(r)]);
  }

  /** A signup that the ledger refuses costs nothing: label, code, ledger and object are as before. */
  lemma {:induction false} RefusedSignupIsFree(
    s: State, r: nat, name: Label, invite: Option<Code>, open: bool, did: Did)
    returns (steps: seq<Step>, t: State)
    requires Inv(s) && r !in s.runs && Welcome(s, name, invite, open) && Accounts(s, name) == map[]
    ensures Leads(s, steps, t) && t.reg == s.reg && t.ledger == s.ledger && t.objects == s.objects
  {
    var s1: State;
    steps, s1 := ClaimIsGranted(s, r, name, invite, open);
    var s2 := ProvisionIsRefused(s1, r, did);
    LeadsAppend(s, steps, s1, [] + [DeliverProvision(r, did)] + [LedgerRefuses(r)] + [HearRefusal(r)], s2);
    steps := steps + ([] + [DeliverProvision(r, did)] + [LedgerRefuses(r)] + [HearRefusal(r)]);
    LeadsKeepsInv(s, steps, s2);
    t := HeardFailureRefunds(s2, r);
    ReleaseUndoesClaim(s.reg, name, Paid(invite, open), s2.reg);
    LeadsAppend(s, steps, s2, [HearProvision(r)] + [DeliverRelease(r)], t);
    steps := steps + ([HearProvision(r)] + [DeliverRelease(r)]);
  }

  /** So does one whose label is free although its object still has an account, without a second
      identity ever being posted. */
  lemma {:induction false} OccupiedSignupIsFree(
    s: State, r: nat, name: Label, invite: Option<Code>, open: bool, did: Did)
    returns (steps: seq<Step>, t: State)
    requires Inv(s) && r !in s.runs && Welcome(s, name, invite, open) && Accounts(s, name) != map[]
    ensures Leads(s, steps, t) && t.reg == s.reg && t.ledger == s.ledger && t.objects == s.objects
    ensures r in t.runs && t.runs[r].post.NotPosted?
  {
    var s1: State;
    steps, s1 := ClaimIsGranted(s, r, name, invite, open);
    OccupiedObjectRefuses(s1, r, did);
    var s2 := Apply(s1, DeliverProvision(r, did));
    LeadsSnoc(s, steps, s1, DeliverProvision(r, did));
    steps := steps + [DeliverProvision(r, did)];
    LeadsKeepsInv(s, steps, s2);
    t := HeardFailureRefunds(s2, r);
    ReleaseUndoesClaim(s.reg, name, Paid(invite, open), s2.reg);
    LeadsAppend(s, steps, s2, [HearProvision(r)] + [DeliverRelease(r)], t);
    steps := steps + ([HearProvision(r)] + [DeliverRelease(r)]);
  }

  lemma {:induction false} ReleaseUndoesClaim(before: Tables, name: Label, paid: Option<Code>, after: Tables)
    requires name !in before.claims && (paid.Some? ==> paid.value in before.invites)
    requires after == Tables(before.claims[name := Claim(None, false, paid)], AddUses(before, paid, -1))
    ensures After(after, DoRelease(name)) == before
  {
    assert after.claims - {name} == before.claims;
    assert AddUses(after, paid, 1) == before.invites;
  }

  /** Any label and identity can be signed up first of all, openly or with a seeded code. */
  lemma {:induction false} FirstSignups(name: Label, did: Did, code: Code, n: nat)
    returns (openly: seq<Step>, s: State, invited: seq<Step>, t: State)
    requires 0 < n
    ensures Leads(EMPTY, openly, s) && s.reg.claims == map[name := Claim(Some(did), true, None)]
    ensures Leads(EMPTY, invited, t) && t.reg.claims == map[name := Claim(Some(did), true, Some(code))]
    ensures Uses(t.reg, code) == n - 1
  {
    openly, s := SignupSucceeds(EMPTY, 0, name, None, true, did);
    assert map[][name := Claim(Some(did), true, None)] == map[name := Claim(Some(did), true, None)];
    assert Leads(EMPTY, [], EMPTY);
    LeadsSnoc(EMPTY, [], EMPTY, Seed(code, n));
    var seeded := Apply(EMPTY, Seed(code, n));
    LeadsKeepsInv(EMPTY, [] + [Seed(code, n)], seeded);
    invited, t := SignupSucceeds(seeded, 0, name, Some(code), false, did);
    LeadsAppend(EMPTY, [] + [Seed(code, n)], seeded, invited, t);
    invited := [] + [Seed(code, n)] + invited;
    assert map[][name := Claim(Some(did), true, Some(code))] == map[name := Claim(Some(did), true, Some(code))];
  }
}
