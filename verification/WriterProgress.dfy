/** A writer whose lock is free gets its work done: left to itself it makes exactly the write that the
    commit engine makes as one call, publishes it if it should, and lets go of the lock. */
module WriterProgress {
  import opened Wrappers
  import opened RepoData
  import opened FirehoseLog
  import opened RepoEngine
  import opened RepoWriters

  ghost predicate Leads(accepts: Accepts, s: State, steps: seq<Step>, t: State) {
    Legal(accepts, s, steps) && Exec(accepts, s, steps) == t
  }

  lemma LeadsCons(accepts: Accepts, s: State, step: Step, rest: seq<Step>, t: State)
    requires Enabled(accepts, s, step) && Leads(accepts, Apply(accepts, s, step), rest, t)
    ensures Leads(accepts, s, [step] + rest, t)
  {
    assert ([step] + rest)[1..] == rest;
  }

  /** How a writer that has just come in leaves the server. */
  ghost predicate Done(accepts: Accepts, s: State, t: State, w: nat)
    requires w in s.writers
  {
    var job := s.writers[w].job;
    && t.held == s.held && t.table == s.table && t.writers.Keys == s.writers.Keys
    && (forall v :: v in s.writers && v != w ==> t.writers[v] == s.writers[v])
    && w in t.writers && t.writers[w].job == job
    && match Write(accepts, s.store, job.did, job.ops, job.stamp)
       case None => t.store == s.store && t.published == s.published && t.writers[w].phase == Finished(false)
       case Some(store) =>
         && t.store == store && t.writers[w].phase == Finished(true) && |store.log| == |s.store.log| + 1
         && store.log[|s.store.log|].event.Some?
         && t.published ==
            s.published + (if job.publish then [FrameOf(store.log[|s.store.log|])] else [])
  }

  /** The steps a writer takes when nobody else moves. */
  lemma {:induction false} LoaderFinishes(accepts: Accepts, s: State, w: nat) returns (steps: seq<Step>, t: State)
    requires w in s.writers && s.writers[w].phase.Held?
    ensures Leads(accepts, s, steps, t)
    ensures t.held == s.held - {s.writers[w].lock} && t.table == s.table
    ensures t.writers == Move(s, w, Finished(Plan(accepts, Apply(accepts, s, Load(w)).writers[w]).Some?))
    ensures var job := s.writers[w].job;
      match Write(accepts, s.store, job.did, job.ops, job.stamp)
      case None => t.store == s.store && t.published == s.published && t.writers[w].phase == Finished(false)
      case Some(store) =>
        && t.store == store && t.writers[w].phase == Finished(true) && |store.log| == |s.store.log| + 1
        && store.log[|s.store.log|].event.Some?
        && t.published == s.published + (if job.publish then [FrameOf(store.log[|s.store.log|])] else [])
  {
    var s1 := Apply(accepts, s, Load(w));
    if Plan(accepts, s1.writers[w]).Some? {
      var s2 := Apply(accepts, s1, Finish(w));
      t := Apply(accepts, s2, Send(w));
      LeadsCons(accepts, s2, Send(w), [], t);
      LeadsCons(accepts, s1, Finish(w), [Send(w)] + [], t);
      steps := [Finish(w)] + ([Send(w)] + []);
    } else {
      t := Apply(accepts, s1, Abort(w));
      LeadsCons(accepts, s1, Abort(w), [], t);
      steps := [Abort(w)] + [];
    }
    LeadsCons(accepts, s, Load(w), steps, t);
    steps := [Load(w)] + steps;
  }

  /** A waiting writer whose lock is free makes its write, or leaves everything as it was when an
      operation is refused. */
  lemma {:induction false} WaiterIsServed(accepts: Accepts, s: State, w: nat) returns (steps: seq<Step>, t: State)
    requires w in s.writers && s.writers[w].phase.Waiting? && s.writers[w].lock !in s.held
    ensures Leads(accepts, s, steps, t) && Done(accepts, s, t, w)
  {
    var s1 := Apply(accepts, s, Acquire(w));
    steps, t := LoaderFinishes(accepts, s1, w);
    LeadsCons(accepts, s, Acquire(w), steps, t);
    steps := [Acquire(w)] + steps;
    assert t.held == s.held;
  }

  /** The lock of a repo is taken only by a writer that can let go of it. */
  lemma {:induction false} LockComesFree(accepts: Accepts, s: State, did: Did) returns (steps: seq<Step>, t: State)
    requires LocksOk(s) && did in s.table && s.table[did] in s.held
    ensures Leads(accepts, s, steps, t) && LocksOk(t) && t.table == s.table && s.table[did] !in t.held
  {
    var w := s.held[s.table[did]];
    var step := if s.writers[w].phase.Sending? then Send(w) else Abort(w);
    t := Apply(accepts, s, step);
    StepKeepsLocks(accepts, s, step);
    LeadsCons(accepts, s, step, [], t);
    steps := [step] + [];
  }

  /** Any job may come in: it gets its repo's lock, and its write is made as soon as that lock is free. */
  lemma {:induction false} NewcomerIsServed(accepts: Accepts, s: State, w: nat, job: Job)
    returns (steps: seq<Step>, t: State)
    requires LocksOk(s) && w !in s.writers && job.ops != [] && (job.publish ==> |job.ops| == 1)
    requires job.did in s.table ==> s.table[job.did] !in s.held
    ensures Enabled(accepts, s, Start(w, job)) && Leads(accepts, s, [Start(w, job)] + steps, t)
    ensures var mid := Apply(accepts, s, Start(w, job));
      && mid.store == s.store && mid.published == s.published && mid.held == s.held
      && w in mid.writers && mid.writers[w].job == job && Done(accepts, mid, t, w)
  {
    var mid := Apply(accepts, s, Start(w, job));
    assert mid.writers[w].lock !in s.held;
    steps, t := WaiterIsServed(accepts, mid, w);
    LeadsCons(accepts, s, Start(w, job), steps, t);
  }
}
