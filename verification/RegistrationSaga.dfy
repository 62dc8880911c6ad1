/** The `createAccount` saga: claim a label, provision its account object, then bind or
    release, across objects that only exchange messages.

    A request is delivered at most once, at any later time or never, and the caller may
    take the error branch at any moment while it waits, whatever the callee has done or
    will still do. Registry requests are single steps. Provisioning counts the accounts of
    its object, posts a signed genesis operation to the identity ledger, which may accept or
    refuse it at any later time, and stores the account once it has heard an acceptance. */
module RegistrationSaga {
  import opened Wrappers
  import opened RepoData
  import opened Registry

  /** What has become of one request. */
  datatype Call = Unsent | InFlight | Delivered

  /** What has become of the genesis operation. Acceptance by the ledger cannot be undone. */
  datatype Post = NotPosted | Posted | Accepted | Refused

  /** Where the provisioning of a run stands in its account object. */
  datatype Provision = NotAsked | Asked | Posting | Created | Failed

  datatype Phase = Claiming | Provisioning | Closing | Done

  /** One `create_account` invocation. `held` says that its claim was granted; `did` is the
      identity its provisioning signed, once it has. */
  datatype Run = Run(
    name: Label, invite: Option<Code>, open: bool, phase: Phase,
    claim: Call, held: bool, provision: Provision, did: Did, post: Post, release: Call, bind: Call)

  /** `ledger` has the identities that name a label as their handle. `owner` is bookkeeping
      that no step reads: which run inserted a claim row. An account object is the map from DID
      to handle of its `accounts` table. */
  datatype State = State(
    reg: Tables, owner: map<Label, nat>, ledger: map<Label, set<Did>>,
    objects: map<Label, map<Did, Label>>, runs: map<nat, Run>)

  datatype Step =
    | Begin(r: nat, name: Label, invite: Option<Code>, open: bool)
    | DeliverClaim(r: nat)
    | HearClaim(r: nat)
    | DeliverProvision(r: nat, did: Did)
    | RefuseProvision(r: nat)
    | LedgerAccepts(r: nat)
    | LedgerRefuses(r: nat)
    | HearRefusal(r: nat)
    | LoseLedgerAnswer(r: nat)
    | StoreAccount(r: nat, hashed: bool, keysStored: bool)
    | HearProvision(r: nat)
    | GiveUp(r: nat)
    | DeliverRelease(r: nat)
    | DeliverBind(r: nat)
    | Seed(code: Code, uses: nat)

  const EMPTY := State(Tables(map[], map[]), map[], map[], map[], map[])

  function Accounts(s: State, name: Label): map<Did, Label> {
    if name in s.objects then s.objects[name] else map[]
  }

  function Identities(s: State, name: Label): set<Did> {
    if name in s.ledger then s.ledger[name] else {}
  }

  predicate Enabled(s: State, step: Step) {
    match step
    case Begin(r, _, _, _) => r !in s.runs
    case Seed(_, _) => true
    case _ =>
      step.r in s.runs &&
      var run := s.runs[step.r];
      match step
      case DeliverClaim(_) => run.claim.InFlight?
      case HearClaim(_) => run.phase.Claiming? && run.claim.Delivered?
      case DeliverProvision(_, _) => run.provision.Asked?
      case RefuseProvision(_) => run.provision.Asked?
      case LedgerAccepts(_) => run.post.Posted?
      case LedgerRefuses(_) => run.post.Posted?
      case HearRefusal(_) => run.provision.Posting? && run.post.Refused?
      case LoseLedgerAnswer(_) => run.provision.Posting?
      case StoreAccount(_, _, _) => run.provision.Posting? && run.post.Accepted?
      case HearProvision(_) => run.phase.Provisioning? && (run.provision.Created? || run.provision.Failed?)
      case GiveUp(_) => !run.phase.Done?
      case DeliverRelease(_) => run.release.InFlight?
      case DeliverBind(_) => run.bind.InFlight?
  }

  function With(s: State, r: nat, run: Run): State { s.(runs := s.runs[r := run]) }

  /** `insert_account` refuses a known DID and a known handle. */
  function Insert(accounts: map<Did, Label>, did: Did, handle: Label): Option<map<Did, Label>> {
    if did in accounts || handle in accounts.Values then None else Some(accounts[did := handle])
  }

  /** A claim request reaches the registry. */
  function Claimed(s: State, r: nat): State
    requires r in s.runs
  {
    var run := s.runs[r];
    var granted := Verdict(s.reg, run.name, run.invite, run.open) == Granted;
    With(s.(reg := After(s.reg, DoClaim(run.name, run.invite, run.open)),
            owner := if granted then s.owner[run.name := r] else s.owner),
         r, run.(claim := Delivered, held := granted))
  }

  /** The account object goes on after an acceptance: hash the password, insert the row, store
      the keys. A failure at any point is answered as a failed provision. */
  function Stored(s: State, r: nat, hashed: bool, keysStored: bool): State
    requires r in s.runs
  {
    var run := s.runs[r];
    match Insert(Accounts(s, run.name), run.did, run.name)
    case Some(accounts) =>
      if hashed
      then With(s.(objects := s.objects[run.name := accounts]), r,
                run.(provision := if keysStored then Created else Failed))
      else With(s, r, run.(provision := Failed))
    case None => With(s, r, run.(provision := Failed))
  }

  function Apply(s: State, step: Step): State
    requires Enabled(s, step)
  {
    match step
    case Begin(r, name, invite, open) =>
      With(s, r, Run(name, invite, open, Claiming, InFlight, false, NotAsked, "", NotPosted, Unsent, Unsent))
    case Seed(code, uses) => s.(reg := After(s.reg, DoSeed(code, uses)))
    case DeliverClaim(r) => Claimed(s, r)
    case HearClaim(r) =>
      var run := s.runs[r];
      With(s, r, if run.held then run.(phase := Provisioning, provision := Asked) else run.(phase := Done))
    case DeliverProvision(r, did) =>
      var run := s.runs[r];
      With(s, r, if Accounts(s, run.name) == map[] then run.(provision := Posting, did := did, post := Posted)
                 else run.(provision := Failed))
    case RefuseProvision(r) => With(s, r, s.runs[r].(provision := Failed))
    case LedgerAccepts(r) =>
      var run := s.runs[r];
      With(s.(ledger := s.ledger[run.name := Identities(s, run.name) + {run.did}]), r, run.(post := Accepted))
    case LedgerRefuses(r) => With(s, r, s.runs[r].(post := Refused))
    case HearRefusal(r) => With(s, r, s.runs[r].(provision := Failed))
    case LoseLedgerAnswer(r) => With(s, r, s.runs[r].(provision := Failed))
    case StoreAccount(r, hashed, keysStored) => Stored(s, r, hashed, keysStored)
    case HearProvision(r) =>
      var run := s.runs[r];
      With(s, r, if run.provision.Created? then run.(phase := Closing, bind := InFlight)
                 else run.(phase := Closing, release := InFlight))
    case GiveUp(r) =>
      var run := s.runs[r];
      With(s, r, if run.phase.Provisioning? then run.(phase := Closing, release := InFlight) else run.(phase := Done))
    case DeliverRelease(r) =>
      var run := s.runs[r];
      With(s.(reg := After(s.reg, DoRelease(run.name)), owner := s.owner - {run.name}), r, run.(release := Delivered))
    case DeliverBind(r) =>
      var run := s.runs[r];
      With(s.(reg := After(s.reg, DoBind(run.name, run.did))), r, run.(bind := Delivered))
  }

  // ---- the invariant ----

  /** Between its granted claim and its release or bind taking effect. */
  predicate Holds(run: Run) { run.held && !run.release.Delivered? && !run.bind.Delivered? }

  predicate RunOk(run: Run) {
    && (run.held ==> run.claim.Delivered?)
    && (!run.provision.NotAsked? ==> run.held && !run.phase.Claiming?)
    && (run.phase.Claiming? ==> run.provision.NotAsked? && run.release.Unsent? && run.bind.Unsent?)
    && (run.phase.Provisioning? ==> run.held && run.release.Unsent? && run.bind.Unsent?)
    && (!run.release.Unsent? ==> run.bind.Unsent? && run.held)
    && (!run.bind.Unsent? ==> run.release.Unsent? && run.provision.Created? && run.held)
    && (run.provision.NotAsked? || run.provision.Asked? ==> run.post.NotPosted?)
    && (run.provision.Posting? ==> !run.post.NotPosted?)
    && (run.provision.Created? ==> run.post.Accepted?)
  }

  /** The row a run holds is its own and still reserved. */
  ghost predicate OwnRow(s: State, r: nat)
    requires r in s.runs
  {
    Holds(s.runs[r]) ==>
      && s.runs[r].name in s.reg.claims && !s.reg.claims[s.runs[r].name].active
      && s.runs[r].name in s.owner && s.owner[s.runs[r].name] == r
  }

  ghost predicate RunsOk(s: State) {
    forall r :: r in s.runs ==> RunOk(s.runs[r]) && OwnRow(s, r)
  }

  /** An object holds at most one account, under its own handle. */
  ghost predicate Sole(accounts: map<Did, Label>, name: Label) {
    && (forall d :: d in accounts ==> accounts[d] == name)
    && (forall d, e :: d in accounts && e in accounts ==> d == e)
  }

  ghost predicate HandlesOk(s: State) { forall n :: n in s.objects ==> Sole(s.objects[n], n) }

  /** The handle check alone keeps the object to one account. */
  lemma InsertKeepsSole(accounts: map<Did, Label>, did: Did, name: Label)
    requires Sole(accounts, name) && Insert(accounts, did, name).Some?
    ensures accounts == map[] && Sole(Insert(accounts, did, name).value, name)
  {
    assert forall d :: d in accounts ==> accounts[d] in accounts.Values;
  }

  /** An account a run was told about exists in its object. */
  ghost predicate CreatedOk(s: State) {
    forall r :: r in s.runs && s.runs[r].provision.Created? ==> s.runs[r].did in Accounts(s, s.runs[r].name)
  }

  /** Every active registry row names a DID that its object holds. */
  ghost predicate ActiveOk(s: State) {
    forall n :: n in s.reg.claims && s.reg.claims[n].active ==>
      s.reg.claims[n].did.Some? && s.reg.claims[n].did.value in Accounts(s, n)
  }

  /** The ledger has every identity it accepted, and every account's identity is on it. */
  ghost predicate LedgerOk(s: State) {
    && (forall r :: r in s.runs && s.runs[r].post.Accepted? ==> s.runs[r].did in Identities(s, s.runs[r].name))
    && (forall n, d :: d in Accounts(s, n) ==> d in Identities(s, n))
  }

  ghost predicate Inv(s: State) {
    RunsOk(s) && HandlesOk(s) && CreatedOk(s) && ActiveOk(s) && LedgerOk(s) && InvitesOk(s.reg)
  }

  /** A release or bind in flight will act on the row its own run inserted. */
  lemma ClosingActsOnOwnRow(s: State, r: nat)
    requires RunsOk(s) && r in s.runs && (s.runs[r].release.InFlight? || s.runs[r].bind.InFlight?)
    ensures s.runs[r].name in s.reg.claims && !s.reg.claims[s.runs[r].name].active
    ensures s.owner[s.runs[r].name] == r
  {
    assert RunOk(s.runs[r]) && OwnRow(s, r);
  }

  ghost predicate BothHold(s: State, a: nat, b: nat)
    requires a in s.runs && b in s.runs
  {
    Holds(s.runs[a]) && Holds(s.runs[b]) && s.runs[a].name == s.runs[b].name
  }

  /** At most one run holds a label. */
  lemma OneHolder(s: State, a: nat, b: nat)
    requires RunsOk(s) && a in s.runs && b in s.runs && BothHold(s, a, b)
    ensures a == b
  {
    assert OwnRow(s, a) && OwnRow(s, b);
  }

  /** Steps of the account object and the ledger on behalf of a run. */
  predicate AtObject(step: Step) {
    || step.DeliverProvision? || step.RefuseProvision? || step.LedgerAccepts? || step.LedgerRefuses?
    || step.HearRefusal? || step.LoseLedgerAnswer? || step.StoreAccount?
  }

  lemma {:induction false} ObjectKeepsRun(s: State, step: Step)
    requires AtObject(step) && Enabled(s, step) && RunOk(s.runs[step.r])
    ensures RunOk(Apply(s, step).runs[step.r])
  {
  }

  lemma {:induction false} CallerKeepsRun(s: State, step: Step)
    requires !AtObject(step) && Enabled(s, step) && !step.Seed? && (step.Begin? || RunOk(s.runs[step.r]))
    ensures RunOk(Apply(s, step).runs[step.r])
  {
  }

  lemma {:induction false} StepKeepsRun(s: State, step: Step, r: nat)
    requires RunsOk(s) && Enabled(s, step) && r in Apply(s, step).runs
    ensures RunOk(Apply(s, step).runs[r])
  {
    if AtObject(step) && r == step.r {
      ObjectKeepsRun(s, step);
    } else if !step.Seed? && r == step.r {
      CallerKeepsRun(s, step);
    } else {
      assert r in s.runs && Apply(s, step).runs[r] == s.runs[r];
    }
  }

  /** Steps that reach the registry. */
  predicate AtRegistry(step: Step) {
    step.DeliverClaim? || step.DeliverRelease? || step.DeliverBind? || step.Seed?
  }

  lemma {:induction false} LocalActor(s: State, step: Step)
    requires Enabled(s, step) && !AtRegistry(step) && (step.Begin? || RunOk(s.runs[step.r]))
    requires Holds(Apply(s, step).runs[step.r])
    ensures !step.Begin? && Holds(s.runs[step.r]) && Apply(s, step).runs[step.r].name == s.runs[step.r].name
  {
  }

  /** Any other step leaves the registry alone and gives no run a label. */
  lemma {:induction false} LocalStep(s: State, step: Step, r: nat)
    requires RunsOk(s) && Enabled(s, step) && !AtRegistry(step)
    requires r in Apply(s, step).runs && Holds(Apply(s, step).runs[r])
    ensures Apply(s, step).reg == s.reg && Apply(s, step).owner == s.owner
    ensures r in s.runs && Holds(s.runs[r]) && Apply(s, step).runs[r].name == s.runs[r].name
  {
    if r == step.r {
      LocalActor(s, step);
    } else {
      assert r in s.runs && Apply(s, step).runs[r] == s.runs[r];
    }
  }

  lemma {:induction false} ClaimKeepsRow(s: State, c: nat, r: nat)
    requires RunsOk(s) && Enabled(s, DeliverClaim(c)) && r in s.runs
    ensures OwnRow(Apply(s, DeliverClaim(c)), r)
  {
    assert RunOk(s.runs[r]) && OwnRow(s, r);
  }

  lemma {:induction false} CloseKeepsRow(s: State, step: Step, r: nat)
    requires RunsOk(s) && Enabled(s, step) && (step.DeliverRelease? || step.DeliverBind?) && r in s.runs
    ensures OwnRow(Apply(s, step), r)
  {
    assert OwnRow(s, r);
    ClosingActsOnOwnRow(s, step.r);
  }

  lemma {:induction false} StepKeepsRow(s: State, step: Step, r: nat)
    requires RunsOk(s) && Enabled(s, step) && r in Apply(s, step).runs
    ensures OwnRow(Apply(s, step), r)
  {
    if !AtRegistry(step) {
      if Holds(Apply(s, step).runs[r]) {
        LocalStep(s, step, r);
        assert OwnRow(s, r);
      }
    } else if step.DeliverClaim? {
      ClaimKeepsRow(s, step.r, r);
    } else if step.Seed? {
      assert OwnRow(s, r);
    } else {
      CloseKeepsRow(s, step, r);
    }
  }

  lemma StepKeepsRuns(s: State, step: Step)
    requires RunsOk(s) && Enabled(s, step)
    ensures RunsOk(Apply(s, step))
  {
    var t := Apply(s, step);
    forall r | r in t.runs ensures RunOk(t.runs[r]) && OwnRow(t, r) {
      StepKeepsRun(s, step, r);
      StepKeepsRow(s, step, r);
    }
  }

  /** Accounts are only ever added. */
  lemma AccountsGrow(s: State, step: Step, name: Label)
    requires Enabled(s, step)
    ensures forall d :: d in Accounts(s, name) ==> d in Accounts(Apply(s, step), name)
    ensures step.StoreAccount? || Accounts(Apply(s, step), name) == Accounts(s, name)
  {
  }

  lemma StepKeepsHandles(s: State, step: Step)
    requires HandlesOk(s) && Enabled(s, step)
    ensures HandlesOk(Apply(s, step))
  {
    if step.StoreAccount? {
      var name := s.runs[step.r].name;
      if Insert(Accounts(s, name), s.runs[step.r].did, name).Some? {
        InsertKeepsSole(Accounts(s, name), s.runs[step.r].did, name);
      }
    }
  }

  lemma StepKeepsCreated(s: State, step: Step)
    requires CreatedOk(s) && Enabled(s, step)
    ensures CreatedOk(Apply(s, step))
  {
    var t := Apply(s, step);
    forall r | r in t.runs && t.runs[r].provision.Created? ensures t.runs[r].did in Accounts(t, t.runs[r].name) {
      AccountsGrow(s, step, t.runs[r].name);
    }
  }

  /** Registry rows change to active only by a bind that carries a created account. */
  lemma StepKeepsActive(s: State, step: Step)
    requires RunsOk(s) && CreatedOk(s) && ActiveOk(s) && Enabled(s, step)
    ensures ActiveOk(Apply(s, step))
  {
    var t := Apply(s, step);
    if step.DeliverBind? { assert RunOk(s.runs[step.r]); }
    forall n | n in t.reg.claims && t.reg.claims[n].active
      ensures t.reg.claims[n].did.Some? && t.reg.claims[n].did.value in Accounts(t, n)
    {
      AccountsGrow(s, step, n);
    }
  }

  /** Identities are never removed. */
  lemma LedgerGrows(s: State, step: Step, name: Label)
    requires Enabled(s, step)
    ensures Identities(s, name) <= Identities(Apply(s, step), name)
    ensures step.LedgerAccepts? || Identities(Apply(s, step), name) == Identities(s, name)
  {
  }

  lemma {:induction false} StepKeepsAccepted(s: State, step: Step, r: nat)
    requires LedgerOk(s) && RunsOk(s) && Enabled(s, step)
    requires r in Apply(s, step).runs && Apply(s, step).runs[r].post.Accepted?
    ensures Apply(s, step).runs[r].did in Identities(Apply(s, step), Apply(s, step).runs[r].name)
  {
    LedgerGrows(s, step, Apply(s, step).runs[r].name);
    assert r in s.runs ==> RunOk(s.runs[r]);
  }

  lemma {:induction false} StepKeepsLedger(s: State, step: Step)
    requires LedgerOk(s) && RunsOk(s) && Enabled(s, step)
    ensures LedgerOk(Apply(s, step))
  {
    var t := Apply(s, step);
    forall r | r in t.runs && t.runs[r].post.Accepted? ensures t.runs[r].did in Identities(t, t.runs[r].name) {
      StepKeepsAccepted(s, step, r);
    }
    forall n, d | d in Accounts(t, n) ensures d in Identities(t, n) {
      LedgerGrows(s, step, n);
      AccountsGrow(s, step, n);
    }
  }

  function RegistryOp(s: State, step: Step): Option<Op>
    requires Enabled(s, step)
  {
    match step
    case DeliverClaim(r) => Some(DoClaim(s.runs[r].name, s.runs[r].invite, s.runs[r].open))
    case DeliverRelease(r) => Some(DoRelease(s.runs[r].name))
    case DeliverBind(r) => Some(DoBind(s.runs[r].name, s.runs[r].did))
    case Seed(code, uses) => Some(DoSeed(code, uses))
    case _ => None
  }

  lemma StepKeepsInvites(s: State, step: Step, code: Code)
    requires InvitesOk(s.reg) && Enabled(s, step)
    ensures InvitesOk(Apply(s, step).reg)
    ensures !step.Seed? ==> Total(Apply(s, step).reg, code) == Total(s.reg, code)
  {
    var op := RegistryOp(s, step);
    if op.Some? {
      OpConservesInvites(s.reg, op.value, code);
      assert Apply(s, step).reg == After(s.reg, op.value);
    }
  }

  lemma StepKeepsInv(s: State, step: Step)
    requires Inv(s) && Enabled(s, step)
    ensures Inv(Apply(s, step))
  {
    StepKeepsRuns(s, step);
    StepKeepsHandles(s, step);
    StepKeepsCreated(s, step);
    StepKeepsActive(s, step);
    StepKeepsLedger(s, step);
    StepKeepsInvites(s, step, "");
  }

  ghost predicate Legal(s: State, steps: seq<Step>)
    decreases |steps|
  {
    steps == [] || (Enabled(s, steps[0]) && Legal(Apply(s, steps[0]), steps[1..]))
  }

  function Exec(s: State, steps: seq<Step>): State
    requires Legal(s, steps)
    decreases |steps|
  {
    if steps == [] then s else Exec(Apply(s, steps[0]), steps[1..])
  }

  lemma {:induction false} RunKeepsInv(s: State, steps: seq<Step>)
    requires Inv(s) && Legal(s, steps)
    ensures Inv(Exec(s, steps))
    decreases |steps|
  {
    if steps == [] {
    } else {
      StepKeepsInv(s, steps[0]);
      RunKeepsInv(Apply(s, steps[0]), steps[1..]);
    }
  }

  // ---- what the saga guarantees in every interleaving ----

  /** At most one run holds a label, and a release or bind that is still to be delivered will
      find the reserved row that its own run inserted. */
  lemma SagaOwnership(steps: seq<Step>)
    requires Legal(EMPTY, steps)
    ensures var s := Exec(EMPTY, steps);
      && (forall a, b :: a in s.runs && b in s.runs && BothHold(s, a, b) ==> a == b)
      && (forall r :: r in s.runs && (s.runs[r].release.InFlight? || s.runs[r].bind.InFlight?) ==>
            && s.runs[r].name in s.reg.claims && !s.reg.claims[s.runs[r].name].active
            && s.runs[r].name in s.owner && s.owner[s.runs[r].name] == r)
  {
    RunKeepsInv(EMPTY, steps);
    var s := Exec(EMPTY, steps);
    forall a, b | a in s.runs && b in s.runs && BothHold(s, a, b) ensures a == b {
      OneHolder(s, a, b);
    }
    forall r | r in s.runs && (s.runs[r].release.InFlight? || s.runs[r].bind.InFlight?)
      ensures s.runs[r].name in s.reg.claims && !s.reg.claims[s.runs[r].name].active
      ensures s.runs[r].name in s.owner && s.owner[s.runs[r].name] == r
    {
      assert RunOk(s.runs[r]) && OwnRow(s, r);
    }
  }

  lemma {:induction false} StepKeepsActiveRow(s: State, step: Step, name: Label)
    requires RunsOk(s) && Enabled(s, step) && name in s.reg.claims && s.reg.claims[name].active
    ensures name in Apply(s, step).reg.claims && Apply(s, step).reg.claims[name] == s.reg.claims[name]
  {
    if step.DeliverRelease? || step.DeliverBind? {
      ClosingActsOnOwnRow(s, step.r);
    }
  }

  /** A label once active keeps its row: no step removes or rebinds it, so every later claim
      of it is refused. */
  lemma {:induction false} ActiveIsForever(s: State, steps: seq<Step>, name: Label)
    requires Inv(s) && Legal(s, steps) && name in s.reg.claims && s.reg.claims[name].active
    ensures name in Exec(s, steps).reg.claims && Exec(s, steps).reg.claims[name] == s.reg.claims[name]
    ensures forall invite, open :: Verdict(Exec(s, steps).reg, name, invite, open) == HandleNotAvailable
    decreases |steps|
  {
    if steps == [] {
    } else {
      StepKeepsInv(s, steps[0]);
      StepKeepsActiveRow(s, steps[0], name);
      ActiveIsForever(Apply(s, steps[0]), steps[1..], name);
    }
  }

  /** An account object never holds two accounts, and every active row names the DID that its
      object holds, even when provision calls overlap across the ledger call. */
  lemma OneAccountPerObject(steps: seq<Step>, name: Label)
    requires Legal(EMPTY, steps)
    ensures var s := Exec(EMPTY, steps);
      && |Accounts(s, name)| <= 1
      && (name in s.reg.claims && s.reg.claims[name].active ==>
            s.reg.claims[name].did.Some? && Accounts(s, name) == map[s.reg.claims[name].did.value := name])
  {
    RunKeepsInv(EMPTY, steps);
    var s := Exec(EMPTY, steps);
    var accounts := Accounts(s, name);
    assert Sole(accounts, name);
    if d :| d in accounts {
      assert accounts == map[d := name];
    }
  }
}
