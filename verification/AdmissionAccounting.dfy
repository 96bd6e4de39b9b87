/**
 What the admission counters of src/concurrency/fairness.ts mean over whole runs: exact accounting
 while nothing is repaired, the limit on all admissions, and the queue a request finds.
 */
module AdmissionAccounting {
  import opened Fairness
  import opened LeakRepair

  /** Every slot's queue runs with the slot's concurrency, and a slot awaiting removal is busy. */
  predicate SlotsTidy(s: State) {
    && (forall id :: id in s.slots ==> s.slots[id].queue.concurrency == s.slots[id].maxConcurrency)
    && (forall id :: id in s.slots && s.slots[id].retired ==> s.slots[id].active > 0)
  }

  lemma {:induction false} EnsuredAllTidy(s: State, tenants: seq<Tenant>)
    requires SlotsTidy(s)
    ensures SlotsTidy(EnsuredAll(s, tenants))
  {
    if tenants != [] {
      EnsuredAllTidy(s, tenants[..|tenants| - 1]);
    }
  }

  lemma StepTidy(w: World, limits: Limits, n: nat, step: Step)
    requires SlotsTidy(w.fair) && !step.Tick?
    ensures SlotsTidy(Next(w, limits, n, step).fair)
  {
    hide EnsuredAll;
    if step.Sync? {
      EnsuredAllTidy(w.fair, step.tenants);
    }
  }

  predicate NoTicks(steps: seq<Step>) {
    forall i :: 0 <= i < |steps| ==> !steps[i].Tick?
  }

  /** The shared counter never exceeds its limit, repairs or not, whatever the tenants are called. */
  lemma StepWithinLimit(w: World, limits: Limits, n: nat, step: Step)
    requires w.fair.globalActive <= limits.globalMaxPending
    ensures Next(w, limits, n, step).fair.globalActive <= limits.globalMaxPending
  {
    hide GivenBack, TickHistory, Drift, SlotsLeft;
    match step {
      case Sync(tenants) =>
        SyncedKeepsCounters(w.fair, tenants);
        assert Tracked(Synced(w.fair, tenants), GLOBAL_SCOPE) == Tracked(w.fair, GLOBAL_SCOPE);
      case _ =>
    }
  }

  lemma {:induction false} RunWithinLimit(tenants: seq<Tenant>, limits: Limits, n: nat, steps: seq<Step>)
    ensures Exec(Init(tenants), limits, n, steps).fair.globalActive <= limits.globalMaxPending
    decreases |steps|
  {
    hide Next;
    if steps == [] {
      EnsuredAllKeepsCounters(EMPTY_STATE, tenants);
      assert Tracked(EnsuredAll(EMPTY_STATE, tenants), GLOBAL_SCOPE) == 0;
    } else {
      RunWithinLimit(tenants, limits, n, steps[..|steps| - 1]);
      StepWithinLimit(Exec(Init(tenants), limits, n, steps[..|steps| - 1]), limits, n, steps[|steps| - 1]);
    }
  }

  lemma {:induction false} ExactIn(tenants: seq<Tenant>, limits: Limits, n: nat, steps: seq<Step>, scope: string)
    requires Distinct(tenants) && StepsNamed(steps) && NoTicks(steps)
    ensures var w := Exec(Init(tenants), limits, n, steps);
            Named(w) && CounterOk(w, scope) && Tracked(w.fair, scope) == |Holders(w.reqs, scope)|
    decreases |steps|
  {
    hide Next, Holders, LiveHolders, Tracked, Named;
    if steps == [] {
      InitOk(tenants, n, scope);
    } else {
      var front := steps[..|steps| - 1];
      var v := Exec(Init(tenants), limits, n, front);
      ExactIn(tenants, limits, n, front, scope);
      StepMoves(v, limits, n, steps[|steps| - 1], scope);
    }
  }

  lemma {:induction false} RunTidy(tenants: seq<Tenant>, limits: Limits, n: nat, steps: seq<Step>)
    requires NoTicks(steps)
    ensures SlotsTidy(Exec(Init(tenants), limits, n, steps).fair)
    decreases |steps|
  {
    hide Next, SlotsTidy;
    if steps == [] {
      EmptyTidy();
      EnsuredAllTidy(EMPTY_STATE, tenants);
    } else {
      RunTidy(tenants, limits, n, steps[..|steps| - 1]);
      StepTidy(Exec(Init(tenants), limits, n, steps[..|steps| - 1]), limits, n, steps[|steps| - 1]);
    }
  }

  lemma EmptyTidy()
    ensures SlotsTidy(EMPTY_STATE)
  {
  }

  /**
   Admission accounting without repair: every counter is exactly the number of outstanding
   admissions, the shared one stays within its limit, and a retired slot is gone with its last release.
   */
  lemma ExactAccounting(tenants: seq<Tenant>, limits: Limits, n: nat, steps: seq<Step>)
    requires Distinct(tenants) && StepsNamed(steps) && NoTicks(steps)
    ensures var w := Exec(Init(tenants), limits, n, steps);
            && Named(w) && w.fair.globalActive <= limits.globalMaxPending && SlotsTidy(w.fair)
            && forall scope :: Tracked(w.fair, scope) == |Holders(w.reqs, scope)|
  {
    hide Next, Exec, Holders, Tracked, Named, SlotsTidy, CounterOk;
    var w := Exec(Init(tenants), limits, n, steps);
    RunWithinLimit(tenants, limits, n, steps);
    RunTidy(tenants, limits, n, steps);
    ExactIn(tenants, limits, n, steps, GLOBAL_SCOPE);
    forall scope
      ensures Tracked(w.fair, scope) == |Holders(w.reqs, scope)|
    {
      ExactIn(tenants, limits, n, steps, scope);
    }
  }

  /** The sum of all slots' counters. */
  ghost function ActiveSum(slots: map<string, Slot>): nat
    decreases |slots|
  {
    if slots == map[] then 0
    else
      var id :| id in slots;
      slots[id].active + ActiveSum(slots - {id})
  }

  function HoldersIn(reqs: map<nat, Request>, clients: set<string>): set<nat> {
    set id | id in reqs && reqs[id].holding && reqs[id].client in clients
  }

  lemma OneMoreClient(reqs: map<nat, Request>, clients: set<string>, id: string)
    requires id in clients && id != GLOBAL_SCOPE
    ensures |HoldersIn(reqs, clients)| == |HoldersIn(reqs, clients - {id})| + |Holders(reqs, id)|
  {
    assert HoldersIn(reqs, clients) == HoldersIn(reqs, clients - {id}) + Holders(reqs, id);
    assert HoldersIn(reqs, clients - {id}) !! Holders(reqs, id);
  }

  lemma {:induction false} SumIsHolders(slots: map<string, Slot>, reqs: map<nat, Request>)
    requires GLOBAL_SCOPE !in slots
    requires forall id :: id in slots ==> slots[id].active == |Holders(reqs, id)|
    ensures ActiveSum(slots) == |HoldersIn(reqs, slots.Keys)|
    decreases |slots|
  {
    if slots == map[] {
      assert HoldersIn(reqs, slots.Keys) == {};
    } else {
      var id :| id in slots && ActiveSum(slots) == slots[id].active + ActiveSum(slots - {id});
      var rest := slots - {id};
      SumIsHolders(rest, reqs);
      OneMoreClient(reqs, slots.Keys, id);
      assert rest.Keys == slots.Keys - {id};
    }
  }

  /** In a run without repairs a request is admitted exactly if its tenant and the service have room for one more. */
  lemma AdmittedExactly(tenants: seq<Tenant>, limits: Limits, n: nat, steps: seq<Step>, c: Tenant, dedupSize: nat)
    requires Distinct(tenants) && StepsNamed(steps) && NoTicks(steps) && c.clientId != GLOBAL_SCOPE
    ensures var w := Exec(Init(tenants), limits, n, steps);
            Verdict(w.fair, limits, c, dedupSize) == Ok <==>
            && |Holders(w.reqs, c.clientId)| < c.maxConcurrency + c.maxPending
            && |Holders(w.reqs, GLOBAL_SCOPE)| < limits.globalMaxPending
            && dedupSize < limits.maxActiveDedupKeys
  {
    ExactAccounting(tenants, limits, n, steps);
    var w := Exec(Init(tenants), limits, n, steps);
    EnsuredKeepsCounters(w.fair, c, c.clientId);
    assert Tracked(w.fair, c.clientId) == |Holders(w.reqs, c.clientId)|;
    assert Tracked(w.fair, GLOBAL_SCOPE) == |Holders(w.reqs, GLOBAL_SCOPE)|;
  }

  /** Without repair the shared counter is the sum of the tenants' counters. */
  lemma SharedCounterIsSum(tenants: seq<Tenant>, limits: Limits, n: nat, steps: seq<Step>)
    requires Distinct(tenants) && StepsNamed(steps) && NoTicks(steps)
    ensures var w := Exec(Init(tenants), limits, n, steps);
            w.fair.globalActive == ActiveSum(w.fair.slots) <= limits.globalMaxPending
  {
    ExactAccounting(tenants, limits, n, steps);
    var w := Exec(Init(tenants), limits, n, steps);
    assert Tracked(w.fair, GLOBAL_SCOPE) == |Holders(w.reqs, GLOBAL_SCOPE)|;
    forall id | id in w.fair.slots
      ensures w.fair.slots[id].active == |Holders(w.reqs, id)|
    {
      assert Tracked(w.fair, id) == |Holders(w.reqs, id)|;
    }
    SumIsHolders(w.fair.slots, w.reqs);
    forall r | r in Holders(w.reqs, GLOBAL_SCOPE)
      ensures w.reqs[r].client in w.fair.slots
    {
      var client := w.reqs[r].client;
      assert r in Holders(w.reqs, client);
      assert Tracked(w.fair, client) == |Holders(w.reqs, client)|;
    }
    assert HoldersIn(w.reqs, w.fair.slots.Keys) == Holders(w.reqs, GLOBAL_SCOPE);
  }

  predicate IsLiveHolder(w: World, id: nat) {
    id in w.reqs && w.reqs[id].holding && w.reqs[id].live
  }

  /** If the request still holds its slot in the later world, queueFor finds the same queue as before. */
  predicate QueueKept(w: World, v: World, id: nat) {
    && id in w.reqs && id in v.reqs
    && (IsLiveHolder(v, id) ==>
        var client := w.reqs[id].client;
        && IsLiveHolder(w, id) && v.reqs[id].client == client
        && client in w.fair.slots && client in v.fair.slots
        && v.fair.slots[client].queue.id == w.fair.slots[client].queue.id)
  }

  lemma LiveHolderHasQueue(w: World, n: nat, id: nat)
    requires id in w.reqs && Inv(w, n, w.reqs[id].client) && IsLiveHolder(w, id)
    ensures w.reqs[id].client in w.fair.slots && w.fair.slots[w.reqs[id].client].active > 0
  {
    var client := w.reqs[id].client;
    assert id in LiveHolders(w.reqs, client);
    assert CounterOk(w, client);
  }

  lemma {:induction false} EnsuredAllKeepsQueues(s: State, tenants: seq<Tenant>, id: string)
    requires id in s.slots
    ensures id in EnsuredAll(s, tenants).slots
    ensures EnsuredAll(s, tenants).slots[id].queue.id == s.slots[id].queue.id
    ensures EnsuredAll(s, tenants).slots[id].active == s.slots[id].active
  {
    if tenants != [] {
      EnsuredAllKeepsQueues(s, tenants[..|tenants| - 1], id);
    }
  }

  /** A slot that survives a step keeps its queue, if it was busy. */
  lemma StepKeepsQueue(w: World, limits: Limits, n: nat, step: Step, client: string)
    requires client in w.fair.slots && w.fair.slots[client].active > 0
    requires client in Next(w, limits, n, step).fair.slots
    ensures Next(w, limits, n, step).fair.slots[client].queue.id == w.fair.slots[client].queue.id
  {
    hide EnsuredAll;
    if step.Sync? {
      EnsuredAllKeepsQueues(w.fair, step.tenants, client);
    }
  }

  lemma StillLiveHolder(w: World, limits: Limits, n: nat, step: Step, id: nat)
    requires id in w.reqs && IsLiveHolder(Next(w, limits, n, step), id)
    ensures IsLiveHolder(w, id) && Next(w, limits, n, step).reqs[id].client == w.reqs[id].client
  {
  }

  lemma StepKeepsClient(w: World, limits: Limits, n: nat, step: Step, id: nat)
    requires id in w.reqs
    ensures id in Next(w, limits, n, step).reqs && Next(w, limits, n, step).reqs[id].client == w.reqs[id].client
  {
  }

  lemma LastStepKeepsQueue(w: World, v: World, limits: Limits, n: nat, step: Step, id: nat)
    requires v == Next(w, limits, n, step) && id in w.reqs
    requires Inv(w, n, w.reqs[id].client) && Inv(v, n, w.reqs[id].client)
    ensures QueueKept(w, v, id)
  {
    hide Inv, Next;
    StepKeepsClient(w, limits, n, step, id);
    if IsLiveHolder(v, id) {
      StillLiveHolder(w, limits, n, step, id);
      LiveHolderHasQueue(w, n, id);
      LiveHolderHasQueue(v, n, id);
      StepKeepsQueue(w, limits, n, step, w.reqs[id].client);
    }
  }

  /**
   From its admission until its release a request finds the same queue of its own tenant, through
   every reload and repair: it never falls back to the shared queue. Only the tenant's own late
   registrations matter.
   */
  lemma {:induction false} RequestKeepsItsQueue(w: World, limits: Limits, n: nat, steps: seq<Step>, id: nat)
    requires id in w.reqs && Inv(w, n, w.reqs[id].client) && StepsNamed(steps) && n > 0
    requires WindowsGood(Exec(w, limits, n, steps).late, n, w.reqs[id].client)
    ensures QueueKept(w, Exec(w, limits, n, steps), id)
    ensures Exec(w, limits, n, steps).reqs[id].client == w.reqs[id].client
    decreases |steps|
  {
    hide Next, Inv, WindowsGood;
    if steps == [] {
      if IsLiveHolder(w, id) {
        LiveHolderHasQueue(w, n, id);
      }
    } else {
      var front := steps[..|steps| - 1];
      var v := Exec(w, limits, n, front);
      LateGrows(v, limits, n, steps[|front|]);
      WindowsGoodPrefix(v.late, Exec(w, limits, n, steps).late, n, w.reqs[id].client);
      RequestKeepsItsQueue(w, limits, n, front, id);
      RunSafe(w, limits, n, front, w.reqs[id].client);
      RunSafe(w, limits, n, steps, w.reqs[id].client);
      StepKeepsClient(v, limits, n, steps[|front|], id);
      LastStepKeepsQueue(v, Exec(w, limits, n, steps), limits, n, steps[|front|], id);
    }
  }
}
