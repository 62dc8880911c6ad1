/** The registry Durable Object: claimed labels and invite codes. Every operation is one
    await-free step. */
module Registry {
  import opened Wrappers
  import opened RepoData

  type Label = string
  type Code = string

  /** A row of `claims`; `code` is the invite that paid for it, if any. */
  datatype Claim = Claim(did: Option<Did>, active: bool, code: Option<Code>)
  datatype Invite = Invite(uses: int, disabled: bool)
  datatype Tables = Tables(claims: map<Label, Claim>, invites: map<Code, Invite>)
  datatype ClaimResult = Granted | HandleNotAvailable | InvalidInviteCode

  datatype Op =
    | DoClaim(name: Label, invite: Option<Code>, open: bool)
    | DoRelease(name: Label)
    | DoBind(name: Label, did: Did)
    | DoForceRelease(name: Label)
    | DoSeed(code: Code, uses: int)

  function Verdict(t: Tables, name: Label, code: Option<Code>, open: bool): ClaimResult {
    if name in t.claims then HandleNotAvailable
    else if open then Granted
    else if code.Some? && code.value in t.invites && !t.invites[code.value].disabled && 0 < t.invites[code.value].uses
    then Granted
    else InvalidInviteCode
  }

  function AddUses(t: Tables, code: Option<Code>, n: int): map<Code, Invite> {
    if code.Some? && code.value in t.invites
    then t.invites[code.value := t.invites[code.value].(uses := t.invites[code.value].uses + n)]
    else t.invites
  }

  /** The tables after one operation. */
  function After(t: Tables, op: Op): Tables {
    match op
    case DoClaim(name, code, open) =>
      if Verdict(t, name, code, open) != Granted then t
      else
        var paid := if open then None else code;
        Tables(t.claims[name := Claim(None, false, paid)], AddUses(t, paid, -1))
    case DoRelease(name) =>
      if name in t.claims && !t.claims[name].active
      then Tables(t.claims - {name}, AddUses(t, t.claims[name].code, 1)) else t
    case DoBind(name, did) =>
      if name in t.claims then t.(claims := t.claims[name := t.claims[name].(did := Some(did), active := true)]) else t
    case DoForceRelease(name) => t.(claims := t.claims - {name})
    case DoSeed(code, uses) => t.(invites := t.invites[code := Invite(uses, false)])
  }

  /** A code that admits a claim. */
  predicate Usable(invites: map<Code, Invite>, code: Code) {
    code in invites && !invites[code].disabled && 0 < invites[code].uses
  }

  // ---- the object's methods ----

  class RegistryObject {
    var claims: map<Label, Claim>
    var invites: map<Code, Invite>

    ghost function View(): Tables reads this { Tables(claims, invites) }

    constructor ()
      ensures View() == Tables(map[], map[])
    {
      claims, invites := map[], map[];
    }

    /** A label is taken when no claim of it could succeed, with any code and in either mode. */
    method IsTaken(name: Label) returns (taken: bool)
      ensures taken <==> forall code, open :: Verdict(View(), name, code, open) == HandleNotAvailable
      ensures !taken ==> Verdict(View(), name, None, true) == Granted
    {
      taken := name in claims;
      assert !taken ==> Verdict(View(), name, None, true) == Granted;
    }

    method ClaimLabel(name: Label, code: Option<Code>, open: bool) returns (r: ClaimResult)
      modifies this
      ensures r == Verdict(old(View()), name, code, open)
      ensures View() == After(old(View()), DoClaim(name, code, open))
      ensures r == HandleNotAvailable <==> name in old(claims)
      ensures r == Granted <==> name !in old(claims) && (open || (code.Some? && Usable(old(invites), code.value)))
      ensures r == Granted ==> claims == old(claims)[name := Claim(None, false, if open then None else code)]
      ensures r == Granted && !open ==> Uses(View(), code.value) == Uses(old(View()), code.value) - 1
      ensures r != Granted ==> claims == old(claims)
      ensures forall c :: c in old(invites) && (r != Granted || open || Some(c) != code) ==>
                c in invites && invites[c] == old(invites)[c]
    {
      var taken := IsTaken(name);
      if taken {
        assert Verdict(View(), name, code, open) == HandleNotAvailable;
        return HandleNotAvailable;
      }
      if open {
        claims := claims[name := Claim(None, false, None)];
        return Granted;
      }
      if code.None? || code.value !in invites || invites[code.value].disabled || invites[code.value].uses <= 0 {
        return InvalidInviteCode;
      }
      invites := invites[code.value := invites[code.value].(uses := invites[code.value].uses - 1)];
      claims := claims[name := Claim(None, false, code)];
      r := Granted;
    }

    method Release(name: Label)
      modifies this
      ensures View() == After(old(View()), DoRelease(name))
      ensures claims == if name in old(claims) && !old(claims)[name].active then old(claims) - {name} else old(claims)
      ensures forall c :: Uses(View(), c) == Uses(old(View()), c) +
                if name in old(claims) && !old(claims)[name].active &&
                   old(claims)[name].code == Some(c) && c in old(invites)
                then 1 else 0
    {
      if name !in claims || claims[name].active {
        return;
      }
      var code := claims[name].code;
      if code.Some? && code.value in invites {
        invites := invites[code.value := invites[code.value].(uses := invites[code.value].uses + 1)];
      }
      claims := claims - {name};
    }

    method Bind(name: Label, did: Did)
      modifies this`claims
      ensures View() == After(old(View()), DoBind(name, did))
      ensures claims.Keys == old(claims).Keys
      ensures name in claims ==> claims[name] == Claim(Some(did), true, old(claims)[name].code)
      ensures forall l :: l in claims && l != name ==> claims[l] == old(claims)[l]
    {
      if name in claims {
        claims := claims[name := claims[name].(did := Some(did), active := true)];
      }
    }

    method ForceRelease(name: Label)
      modifies this`claims
      ensures View() == After(old(View()), DoForceRelease(name))
      ensures claims == old(claims) - {name}
    {
      claims := claims - {name};
    }

    method SeedInvite(code: Code, uses: int)
      modifies this`invites
      ensures View() == After(old(View()), DoSeed(code, uses))
      ensures Uses(View(), code) == uses && !invites[code].disabled
      ensures forall c :: c in old(invites) && c != code ==> c in invites && invites[c] == old(invites)[c]
    {
      invites := invites[code := Invite(uses, false)];
    }

    /** The label of some active claim bound to `did`, if there is one. */
    method ResolveDid(did: Did) returns (r: Option<Label>)
      ensures r.Some? ==> r.value in claims && claims[r.value].active && claims[r.value].did == Some(did)
      ensures r.None? ==> forall l :: l in claims && claims[l].active ==> claims[l].did != Some(did)
    {
      var rows := set l | l in claims && claims[l].active && claims[l].did == Some(did);
      if rows == {} {
        assert forall l :: l in claims && claims[l].active && claims[l].did == Some(did) ==> l in rows;
        return None;
      }
      var l :| l in rows;
      r := Some(l);
    }
  }

  // ---- invite conservation ----

  function Holders(t: Tables, code: Code): set<Label> {
    set l | l in t.claims && t.claims[l].code == Some(code)
  }

  function Uses(t: Tables, code: Code): int {
    if code in t.invites then t.invites[code].uses else 0
  }

  /** Available uses plus the claim rows the code has paid for. */
  function Total(t: Tables, code: Code): int { Uses(t, code) + |Holders(t, code)| }

  /** What may change the total: seeding the code, or force-releasing a row that carries it. */
  function Delta(t: Tables, op: Op, code: Code): int {
    match op
    case DoSeed(c, uses) => if c == code then uses - Uses(t, code) else 0
    case DoForceRelease(l) => if l in Holders(t, code) then -1 else 0
    case _ => 0
  }

  /** Codes on rows exist, and no code has a negative number of uses. */
  ghost predicate InvitesOk(t: Tables) {
    && (forall l :: l in t.claims && t.claims[l].code.Some? ==> t.claims[l].code.value in t.invites)
    && (forall c :: c in t.invites ==> 0 <= t.invites[c].uses)
  }

  /** The front Worker only seeds non-negative use counts. */
  predicate Admissible(op: Op) { op.DoSeed? ==> 0 <= op.uses }

  lemma HoldersAdd(t: Tables, name: Label, paid: Option<Code>, code: Code, invites: map<Code, Invite>)
    requires name !in t.claims
    ensures |Holders(Tables(t.claims[name := Claim(None, false, paid)], invites), code)| ==
            |Holders(t, code)| + if paid == Some(code) then 1 else 0
  {
    var after := Holders(Tables(t.claims[name := Claim(None, false, paid)], invites), code);
    assert after == if paid == Some(code) then Holders(t, code) + {name} else Holders(t, code);
  }

  lemma HoldersRemove(t: Tables, name: Label, code: Code, invites: map<Code, Invite>)
    ensures |Holders(Tables(t.claims - {name}, invites), code)| ==
            |Holders(t, code)| - if name in Holders(t, code) then 1 else 0
  {
    assert Holders(Tables(t.claims - {name}, invites), code) == Holders(t, code) - {name};
  }

  /** One operation moves the total of every code by exactly its delta. */
  lemma OpConservesInvites(t: Tables, op: Op, code: Code)
    requires InvitesOk(t) && Admissible(op)
    ensures InvitesOk(After(t, op))
    ensures Total(After(t, op), code) == Total(t, code) + Delta(t, op, code)
  {
    var t' := After(t, op);
    match op
    case DoClaim(name, c, open) =>
      if Verdict(t, name, c, open) == Granted {
        var paid := if open then None else c;
        HoldersAdd(t, name, paid, code, t'.invites);
      }
    case DoRelease(name) =>
      if name in t.claims && !t.claims[name].active {
        HoldersRemove(t, name, code, t'.invites);
      }
    case DoBind(name, did) =>
      assert Holders(t', code) == Holders(t, code);
    case DoForceRelease(name) => HoldersRemove(t, name, code, t'.invites);
    case DoSeed(c, uses) =>
      assert Holders(t', code) == Holders(t, code);
  }

  function RunOps(t: Tables, ops: seq<Op>): Tables {
    if ops == [] then t else After(RunOps(t, ops[..|ops| - 1]), ops[|ops| - 1])
  }

  function TotalDelta(t: Tables, ops: seq<Op>, code: Code): int {
    if ops == [] then 0
    else
      var n := |ops| - 1;
      TotalDelta(t, ops[..n], code) + Delta(RunOps(t, ops[..n]), ops[n], code)
  }

  /** Over any run of registry operations, the total of a code changes only by seeding it or
      force-releasing its rows, and its available uses never fall below zero. */
  lemma {:induction false} RunConservesInvites(t: Tables, ops: seq<Op>, code: Code)
    requires InvitesOk(t) && forall i :: 0 <= i < |ops| ==> Admissible(ops[i])
    ensures InvitesOk(RunOps(t, ops)) && 0 <= Uses(RunOps(t, ops), code)
    ensures Total(RunOps(t, ops), code) == Total(t, code) + TotalDelta(t, ops, code)
  {
    if ops == [] {
    } else {
      var n := |ops| - 1;
      RunConservesInvites(t, ops[..n], code);
      OpConservesInvites(RunOps(t, ops[..n]), ops[n], code);
    }
  }

  // ---- what a seeded code admits ----

  /** A gated claim with the code that inserted its row. */
  ghost predicate Admits(t: Tables, op: Op, code: Code) {
    op.DoClaim? && op.invite == Some(code) && !op.open && op.name !in t.claims && op.name in After(t, op).claims
  }

  /** A release that removed a row the code had paid for. */
  ghost predicate Refunds(t: Tables, op: Op, code: Code) {
    op.DoRelease? && op.name in t.claims && t.claims[op.name].code == Some(code) && op.name !in After(t, op).claims
  }

  /** Rows admitted by the code in a run and not released since, force-released ones included. */
  ghost function Spent(t: Tables, ops: seq<Op>, code: Code): int {
    if ops == [] then 0
    else
      var n := |ops| - 1;
      var before := RunOps(t, ops[..n]);
      Spent(t, ops[..n], code) +
      (if Admits(before, ops[n], code) then 1 else if Refunds(before, ops[n], code) then -1 else 0)
  }

  predicate Seeds(op: Op, code: Code) { op.DoSeed? && op.code == code }

  lemma {:induction false} StepSpends(t: Tables, op: Op, code: Code)
    requires code in t.invites && !t.invites[code].disabled && !Seeds(op, code)
    ensures code in After(t, op).invites && !After(t, op).invites[code].disabled
    ensures Uses(After(t, op), code) ==
            Uses(t, code) - (if Admits(t, op, code) then 1 else if Refunds(t, op, code) then -1 else 0)
  {
  }

  lemma {:induction false} SeededUses(t: Tables, ops: seq<Op>, code: Code, n: nat)
    requires forall i :: 0 <= i < |ops| ==> !Seeds(ops[i], code)
    ensures var seeded := After(t, DoSeed(code, n)); var u := RunOps(seeded, ops);
      code in u.invites && !u.invites[code].disabled && u.invites[code].uses == n - Spent(seeded, ops, code)
  {
    if ops == [] {
    } else {
      var m := |ops| - 1;
      assert !Seeds(ops[m], code);
      SeededUses(t, ops[..m], code, n);
      StepSpends(RunOps(After(t, DoSeed(code, n)), ops[..m]), ops[m], code);
    }
  }

  /** A code seeded with `n` uses admits a gated claim of a free label exactly while fewer than `n` of
      the rows it admitted since stand unreleased; the claim is refused as an invalid code otherwise,
      and a row of another kind, or a taken label, is no obstacle to the count. */
  lemma {:induction false} SeededCodeAdmitsIff(t: Tables, ops: seq<Op>, code: Code, n: nat, name: Label)
    requires forall i :: 0 <= i < |ops| ==> !Seeds(ops[i], code)
    ensures var seeded := After(t, DoSeed(code, n)); var u := RunOps(seeded, ops);
      var claim := DoClaim(name, Some(code), false);
      && (Admits(u, claim, code) <==> name !in u.claims && Spent(seeded, ops, code) < n)
      && (name !in u.claims && n <= Spent(seeded, ops, code) ==>
            After(u, claim) == u && Verdict(u, name, Some(code), false) == InvalidInviteCode)
      && (Admits(u, claim, code) ==> After(u, claim).claims == u.claims[name := Claim(None, false, Some(code))])
  {
    SeededUses(t, ops, code, n);
  }

  /** A release of a row the code paid for makes room for one more; a force-release makes none. */
  lemma {:induction false} ReleaseMakesRoom(t: Tables, ops: seq<Op>, code: Code, name: Label)
    requires var u := RunOps(t, ops);
      name in u.claims && u.claims[name].code == Some(code) && !u.claims[name].active
    ensures Spent(t, ops + [DoRelease(name)], code) == Spent(t, ops, code) - 1
    ensures Spent(t, ops + [DoForceRelease(name)], code) == Spent(t, ops, code)
    ensures name !in RunOps(t, ops + [DoRelease(name)]).claims
    ensures name !in RunOps(t, ops + [DoForceRelease(name)]).claims
  {
    assert (ops + [DoRelease(name)])[..|ops|] == ops && (ops + [DoForceRelease(name)])[..|ops|] == ops;
  }
}
