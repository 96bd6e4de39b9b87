/**
 Whole runs of admission, registration, release and leak repair. A request is admitted (takes a
 slot), may be registered and unregistered by its handler, and either releases its slot once or
 finishes without releasing it: a leak. The repair sees only counters and registered requests.
 */
module LeakRepair {
  import opened Cardinality
  import opened Fairness
  import opened LiveRequests

  /** `holding`: admitted and not released; `live`: still able to release its slot. */
  datatype Request = Request(client: string, holding: bool, live: bool)

  /** `late` records, for every tick, the clients with a live holder that was not registered at that moment. */
  datatype World = World(fair: State, history: map<string, seq<int>>, active: map<nat, LiveRequest>,
                         reqs: map<nat, Request>, late: seq<set<string>>)

  datatype Step =
    | Admit(id: nat, tenant: Tenant, dedupSize: nat)
    | Register(id: nat)
    | Unregister(id: nat)
    | Release(id: nat)
    | Finish(id: nat)
    | Sync(tenants: seq<Tenant>)
    | Tick

  predicate InScope(r: Request, scope: string) {
    scope == GLOBAL_SCOPE || r.client == scope
  }

  function Holders(reqs: map<nat, Request>, scope: string): set<nat> {
    set id | id in reqs && reqs[id].holding && InScope(reqs[id], scope)
  }

  function LiveHolders(reqs: map<nat, Request>, scope: string): set<nat> {
    set id | id in reqs && reqs[id].holding && reqs[id].live && InScope(reqs[id], scope)
  }

  /** The clients with an unreleased live request that is not registered. */
  function Late(w: World): set<string> {
    set id | id in w.reqs && w.reqs[id].holding && w.reqs[id].live && id !in w.active :: w.reqs[id].client
  }

  /** A tick was good for a scope if all unreleased live requests of the scope were registered. */
  predicate GoodFor(late: set<string>, scope: string) {
    if scope == GLOBAL_SCOPE then late == {} else scope !in late
  }

  function Ticked(w: World, n: nat): World {
    var drift := Drift(w.fair, Counts(w.active), |AllAdmitted(w.active)|);
    var scopes := w.history.Keys + drift.Keys;
    w.(fair := TickState(w.fair, w.history, drift, n, scopes),
       history := TickHistory(w.history, drift, n, scopes),
       late := w.late + [Late(w)])
  }

  /** A step that is not enabled changes nothing; the release flag makes a release happen once. */
  function Next(w: World, limits: Limits, n: nat, step: Step): World {
    match step
    case Admit(id, tenant, dedupSize) =>
      if id in w.reqs then w
      else
        var admitted := w.(fair := Admitted(w.fair, limits, tenant, dedupSize));
        if Verdict(w.fair, limits, tenant, dedupSize) != Ok then admitted
        else admitted.(reqs := w.reqs[id := Request(tenant.clientId, true, true)])
    case Register(id) =>
      if id !in w.reqs || !w.reqs[id].live then w
      else w.(active := w.active[id := LiveRequest(w.reqs[id].client, true)])
    case Unregister(id) => w.(active := w.active - {id})
    case Release(id) =>
      if id !in w.reqs || !w.reqs[id].live || !w.reqs[id].holding then w
      else w.(fair := Released(w.fair, w.reqs[id].client), reqs := w.reqs[id := w.reqs[id].(holding := false)])
    case Finish(id) =>
      if id !in w.reqs then w else w.(reqs := w.reqs[id := w.reqs[id].(live := false)])
    case Sync(tenants) => w.(fair := Synced(w.fair, tenants))
    case Tick => Ticked(w, n)
  }

  function Init(tenants: seq<Tenant>): World {
    World(EnsuredAll(EMPTY_STATE, tenants), map[], map[], map[], [])
  }

  function Exec(w: World, limits: Limits, n: nat, steps: seq<Step>): World {
    if steps == [] then w
    else Next(Exec(w, limits, n, steps[..|steps| - 1]), limits, n, steps[|steps| - 1])
  }

  /** The steps of a run change the counters as the manager's and the reconciler's methods do. */
  lemma StepsAreTheService(w: World, limits: Limits, n: nat, step: Step)
    requires step.Admit? ==> step.id !in w.reqs
    requires step.Release? ==> step.id in LiveHolders(w.reqs, GLOBAL_SCOPE)
    ensures Next(w, limits, n, step).fair ==
            match step
            case Admit(_, tenant, dedupSize) => Admitted(w.fair, limits, tenant, dedupSize)
            case Release(id) => Released(w.fair, w.reqs[id].client)
            case Sync(tenants) => Synced(w.fair, tenants)
            case Tick => Ticked(w, n).fair
            case _ => w.fair
    ensures step.Register? && step.id in w.reqs && w.reqs[step.id].live ==>
      Next(w, limits, n, step).active == w.active[step.id := LiveRequest(w.reqs[step.id].client, true)]
    ensures step.Unregister? ==> Next(w, limits, n, step).active == w.active - {step.id}
  {
    hide Ticked;
  }

  /** A request holds a slot from its admission to its release, and is live until it finishes. */
  lemma HoldingExactly(w: World, limits: Limits, n: nat, step: Step, id: nat)
    ensures var v := Next(w, limits, n, step);
            var admitted := step.Admit? && step.id == id && id !in w.reqs && Verdict(w.fair, limits, step.tenant, step.dedupSize) == Ok;
            var released := step == Release(id) && id in w.reqs && w.reqs[id].live;
            && (id in Holders(v.reqs, GLOBAL_SCOPE) <==> admitted || (id in Holders(w.reqs, GLOBAL_SCOPE) && !released))
            && (id in LiveHolders(v.reqs, GLOBAL_SCOPE) <==>
                admitted || (id in LiveHolders(w.reqs, GLOBAL_SCOPE) && !released && step != Finish(id)))
  {
    hide Ticked, Verdict;
    if step.Tick? {
      TickKeepsRequests(w, n);
    }
  }

  lemma TickKeepsRequests(w: World, n: nat)
    ensures Ticked(w, n).reqs == w.reqs
  {
  }

  /** A tick is good for a scope exactly if every live request of the scope that holds a slot is registered. */
  lemma GoodExactly(w: World, scope: string)
    ensures GoodFor(Late(w), scope) <==> forall id :: id in LiveHolders(w.reqs, scope) ==> id in w.active
  {
    if scope == GLOBAL_SCOPE {
      assert forall id :: id in LiveHolders(w.reqs, scope) && id !in w.active ==> w.reqs[id].client in Late(w);
    }
  }

  /** No tenant is called like the pseudo-scope of the shared counter. */
  predicate Distinct(tenants: seq<Tenant>) {
    forall i :: 0 <= i < |tenants| ==> tenants[i].clientId != GLOBAL_SCOPE
  }

  predicate StepNamed(step: Step) {
    && (step.Admit? ==> step.tenant.clientId != GLOBAL_SCOPE)
    && (step.Sync? ==> Distinct(step.tenants))
  }

  predicate StepsNamed(steps: seq<Step>) {
    forall i :: 0 <= i < |steps| ==> StepNamed(steps[i])
  }

  /** Names are kept apart and the registry agrees with the requests. */
  predicate Named(w: World) {
    && GLOBAL_SCOPE !in w.fair.slots
    && (forall id :: id in w.reqs ==> w.reqs[id].client != GLOBAL_SCOPE)
    && (forall id :: id in w.active ==> id in w.reqs && w.active[id] == LiveRequest(w.reqs[id].client, true))
  }

  /** A counter never falls below its live requests and never exceeds its holders. */
  predicate CounterOk(w: World, scope: string) {
    |LiveHolders(w.reqs, scope)| <= Tracked(w.fair, scope) <= |Holders(w.reqs, scope)|
  }

  /** Slots whose requests ended without a release, since the start. */
  function Lost(w: World, scope: string): int {
    |Holders(w.reqs, scope)| - |LiveHolders(w.reqs, scope)|
  }

  /** Slots given back so far in the scope: a lost slot is held forever, a repair lowers the counter. */
  function Given(w: World, scope: string): int {
    |Holders(w.reqs, scope)| - Tracked(w.fair, scope)
  }

  /** Slots lost in the scope and not yet given back. */
  function Leak(w: World, scope: string): int {
    Lost(w, scope) - Given(w, scope)
  }

  lemma EnsuredKeepsCounters(s: State, c: Tenant, scope: string)
    ensures Tracked(Ensured(s, c), scope) == Tracked(s, scope)
  {
  }

  lemma {:induction false} EnsuredAllKeepsCounters(s: State, tenants: seq<Tenant>)
    ensures forall scope :: Tracked(EnsuredAll(s, tenants), scope) == Tracked(s, scope)
    ensures EnsuredAll(s, tenants).slots.Keys == s.slots.Keys + Ids(tenants)
  {
    if tenants != [] {
      var front := tenants[..|tenants| - 1];
      EnsuredAllKeepsCounters(s, front);
      assert Ids(tenants) == Ids(front) + {tenants[|tenants| - 1].clientId} by {
        assert forall i :: 0 <= i < |front| ==> tenants[i] == front[i];
      }
    }
  }

  lemma SyncedKeepsCounters(s: State, tenants: seq<Tenant>)
    ensures forall scope :: Tracked(Synced(s, tenants), scope) == Tracked(s, scope)
    ensures Synced(s, tenants).slots.Keys <= s.slots.Keys + Ids(tenants)
  {
    EnsuredAllKeepsCounters(s, tenants);
  }

  /**
   What a step that is not a tick does to a scope: lost slots stay lost, and nothing is given back
   unless a counter at zero is released, which takes a live request's slot to have been given back.
   */
  ghost predicate Moves(w: World, v: World, scope: string) {
    && v.history == w.history && v.late == w.late && Named(v)
    && Lost(v, scope) >= Lost(w, scope)
    && (Given(v, scope) == Given(w, scope) || Leak(v, scope) <= 0)
    && (Leak(w, scope) >= 0 ==> Given(v, scope) == Given(w, scope))
  }

  lemma AdmittedCounters(s: State, limits: Limits, c: Tenant, dedupSize: nat, scope: string)
    requires c.clientId != GLOBAL_SCOPE
    ensures Tracked(Admitted(s, limits, c, dedupSize), scope) == Tracked(s, scope) +
            if Verdict(s, limits, c, dedupSize) == Ok && (scope == GLOBAL_SCOPE || scope == c.clientId) then 1 else 0
    ensures GLOBAL_SCOPE !in s.slots ==> GLOBAL_SCOPE !in Admitted(s, limits, c, dedupSize).slots
  {
  }

  lemma ReleasedCounters(s: State, id: string, scope: string)
    requires id != GLOBAL_SCOPE && GLOBAL_SCOPE !in s.slots
    ensures Tracked(Released(s, id), scope) == Minus(Tracked(s, scope), if scope == GLOBAL_SCOPE || scope == id then 1 else 0)
    ensures GLOBAL_SCOPE !in Released(s, id).slots
  {
  }

  lemma HoldersAfterAdmit(reqs: map<nat, Request>, id: nat, r: Request, scope: string)
    requires id !in reqs && r.holding && r.live
    ensures var more := if InScope(r, scope) then 1 else 0;
            && |Holders(reqs[id := r], scope)| == |Holders(reqs, scope)| + more
            && |LiveHolders(reqs[id := r], scope)| == |LiveHolders(reqs, scope)| + more
  {
    var after := reqs[id := r];
    assert forall i :: i in after <==> i in reqs || i == id;
    assert id !in Holders(reqs, scope) && id !in LiveHolders(reqs, scope);
    if InScope(r, scope) {
      assert Holders(after, scope) == Holders(reqs, scope) + {id};
      assert LiveHolders(after, scope) == LiveHolders(reqs, scope) + {id};
    } else {
      assert Holders(after, scope) == Holders(reqs, scope);
      assert LiveHolders(after, scope) == LiveHolders(reqs, scope);
    }
  }

  lemma HoldersAfterRelease(reqs: map<nat, Request>, id: nat, scope: string)
    requires id in reqs && reqs[id].live && reqs[id].holding
    ensures var less := if InScope(reqs[id], scope) then 1 else 0;
            var after := reqs[id := reqs[id].(holding := false)];
            && |Holders(after, scope)| == |Holders(reqs, scope)| - less
            && |LiveHolders(after, scope)| == |LiveHolders(reqs, scope)| - less
  {
    var less := if InScope(reqs[id], scope) then {id} else {};
    var after := reqs[id := reqs[id].(holding := false)];
    assert less <= Holders(reqs, scope) && less <= LiveHolders(reqs, scope);
    assert Holders(after, scope) == Holders(reqs, scope) - less;
    assert LiveHolders(after, scope) == LiveHolders(reqs, scope) - less;
  }

  lemma HoldersAfterFinish(reqs: map<nat, Request>, id: nat, scope: string)
    requires id in reqs
    ensures var after := reqs[id := reqs[id].(live := false)];
            && Holders(after, scope) == Holders(reqs, scope)
            && LiveHolders(after, scope) == LiveHolders(reqs, scope) - {id}
  {
  }

  /** An admission adds to counter and holders alike. */
  lemma AdmitMoves(w: World, limits: Limits, n: nat, id: nat, c: Tenant, dedupSize: nat, scope: string)
    requires Named(w) && c.clientId != GLOBAL_SCOPE && id !in w.reqs
    ensures var v := Next(w, limits, n, Admit(id, c, dedupSize));
            Moves(w, v, scope) && Given(v, scope) == Given(w, scope)
  {
    hide Admitted, Verdict, Holders, LiveHolders, Tracked;
    AdmittedCounters(w.fair, limits, c, dedupSize, scope);
    HoldersAfterAdmit(w.reqs, id, Request(c.clientId, true, true), scope);
  }

  /** A release takes from both; the clamp at zero bites only after a live request's slot was given back. */
  lemma ReleaseMoves(w: World, limits: Limits, n: nat, id: nat, scope: string)
    requires Named(w) && id in w.reqs && w.reqs[id].live && w.reqs[id].holding
    ensures Moves(w, Next(w, limits, n, Release(id)), scope)
    ensures InScope(w.reqs[id], scope) && Leak(w, scope) >= 0 ==> Tracked(w.fair, scope) > 0
  {
    hide Released, Holders, LiveHolders, Tracked;
    ReleasedCounters(w.fair, w.reqs[id].client, scope);
    HoldersAfterRelease(w.reqs, id, scope);
  }

  /** A lost release changes no counter: the holder has become a leak. */
  lemma FinishMoves(w: World, limits: Limits, n: nat, id: nat, scope: string)
    requires Named(w) && id in w.reqs
    ensures var v := Next(w, limits, n, Finish(id));
            Moves(w, v, scope) && Given(v, scope) == Given(w, scope)
  {
    HoldersAfterFinish(w.reqs, id, scope);
    hide Holders, LiveHolders;
  }

  lemma SameRequestsMove(w: World, v: World, scope: string)
    requires Named(v) && v.reqs == w.reqs && v.history == w.history && v.late == w.late
    requires Tracked(v.fair, scope) == Tracked(w.fair, scope)
    ensures Moves(w, v, scope) && Given(v, scope) == Given(w, scope)
  {
  }

  lemma StepMoves(w: World, limits: Limits, n: nat, step: Step, scope: string)
    requires Named(w) && StepNamed(step) && !step.Tick?
    ensures Moves(w, Next(w, limits, n, step), scope)
  {
    var v := Next(w, limits, n, step);
    match step {
      case Admit(id, tenant, dedupSize) =>
        if id !in w.reqs {
          AdmitMoves(w, limits, n, id, tenant, dedupSize, scope);
        }
      case Register(id) => SameRequestsMove(w, v, scope);
      case Unregister(id) => SameRequestsMove(w, v, scope);
      case Release(id) =>
        if v != w {
          ReleaseMoves(w, limits, n, id, scope);
        }
      case Finish(id) =>
        if id in w.reqs {
          FinishMoves(w, limits, n, id, scope);
        }
      case Sync(tenants) =>
        SyncedKeepsCounters(w.fair, tenants);
        SameRequestsMove(w, v, scope);
    }
  }

  /** What a tick measures for a scope. */
  function Sample(w: World, scope: string): int {
    var drift := Drift(w.fair, Counts(w.active), |AllAdmitted(w.active)|);
    if scope in drift then drift[scope] else 0
  }

  lemma SampleValue(w: World, scope: string)
    requires Named(w)
    ensures Sample(w, scope) ==
            if scope == GLOBAL_SCOPE then w.fair.globalActive - |AllAdmitted(w.active)|
            else if scope in w.fair.slots then w.fair.slots[scope].active - |AdmittedOf(w.active, scope)|
            else 0
  {
    if scope != GLOBAL_SCOPE && scope !in Clients(w.active) {
      assert AdmittedOf(w.active, scope) == {};
    }
  }

  lemma LateOrRegistered(w: World, id: nat)
    requires id in w.reqs && w.reqs[id].holding && w.reqs[id].live
    ensures id in w.active || w.reqs[id].client in Late(w)
  {
  }

  /** When all live holders of the scope are registered, the excess is at most the leak. */
  lemma GoodSample(w: World, scope: string)
    requires Named(w) && GoodFor(Late(w), scope)
    ensures Sample(w, scope) <= Leak(w, scope) || Sample(w, scope) <= 0
  {
    SampleValue(w, scope);
    forall id | id in LiveHolders(w.reqs, scope)
      ensures id in w.active
    {
      LateOrRegistered(w, id);
    }
    if scope == GLOBAL_SCOPE {
      SubsetSize(LiveHolders(w.reqs, scope), AllAdmitted(w.active));
    } else {
      SubsetSize(LiveHolders(w.reqs, scope), AdmittedOf(w.active, scope));
    }
  }

  /** When only live holders of the scope are registered, the excess is at least the leak. */
  lemma LateFreeSample(w: World, scope: string)
    requires Named(w) && NoLateRegistration(w, scope)
    ensures Sample(w, scope) >= Leak(w, scope)
  {
    SampleValue(w, scope);
    if scope == GLOBAL_SCOPE {
      SubsetSize(AllAdmitted(w.active), LiveHolders(w.reqs, scope));
    } else {
      SubsetSize(AdmittedOf(w.active, scope), LiveHolders(w.reqs, scope));
    }
  }

  /** Nothing of the scope is registered that does not hold a slot any more. */
  predicate NoLateRegistration(w: World, scope: string) {
    forall id :: id in w.active && id in w.reqs && InScope(w.reqs[id], scope) ==> w.reqs[id].holding && w.reqs[id].live
  }

  lemma {:induction false} MinIsAnElement(samples: seq<int>, k: nat)
    requires k < |samples|
    ensures Min(samples) <= samples[k] && Min(samples) in samples
    decreases |samples|
  {
    if |samples| > 1 {
      MinIsAnElement(samples[1..], if k > 0 then k - 1 else 0);
      assert samples[1..][if k > 0 then k - 1 else 0] in samples;
    }
  }

  /** The excess sampled at a tick that was good for the scope does not exceed the present leak. */
  predicate SamplesOk(samples: seq<int>, late: seq<set<string>>, scope: string, leak: int) {
    && |samples| <= |late|
    && forall k :: 0 <= k < |samples| && GoodFor(late[|late| - |samples| + k], scope) ==> samples[k] <= leak
  }

  function Past(w: World, scope: string): seq<int> {
    if scope in w.history then w.history[scope] else []
  }

  predicate HistoryOk(w: World, n: nat, scope: string) {
    |Past(w, scope)| <= n && SamplesOk(Past(w, scope), w.late, scope, Leak(w, scope))
  }

  /** Every run of `n` consecutive ticks has one that was good for the scope. */
  ghost predicate WindowsGood(late: seq<set<string>>, n: nat, scope: string) {
    forall i :: 0 <= i && i + n <= |late| ==> HasGood(late, i, n, scope)
  }

  ghost predicate HasGood(late: seq<set<string>>, i: nat, n: nat, scope: string)
    requires i + n <= |late|
  {
    exists j :: i <= j < i + n && GoodFor(late[j], scope)
  }

  /** The scope's window after this tick's sample. */
  function TickWindow(w: World, n: nat, scope: string): seq<int> {
    Slide(Past(w, scope), Sample(w, scope), n)
  }

  lemma SlideOk(samples: seq<int>, sample: int, n: nat, late: seq<set<string>>, now: set<string>, scope: string, leak: int)
    requires n > 0 && |samples| <= n && SamplesOk(samples, late, scope, leak)
    requires GoodFor(now, scope) ==> sample <= leak
    ensures |Slide(samples, sample, n)| <= n && SamplesOk(Slide(samples, sample, n), late + [now], scope, leak)
  {
    hide GoodFor;
    var window := Slide(samples, sample, n);
    var after := late + [now];
    forall k | 0 <= k < |window| && GoodFor(after[|after| - |window| + k], scope)
      ensures window[k] <= leak
    {
      if k < |window| - 1 {
        var q := k + |samples| - (|window| - 1);
        assert window[k] == samples[q];
        assert after[|after| - |window| + k] == late[|late| - |samples| + q];
      }
    }
  }

  lemma SustainedIsLeaked(window: seq<int>, n: nat, late: seq<set<string>>, scope: string, leak: nat)
    requires |window| <= n && SamplesOk(window, late, scope, leak) && WindowsGood(late, n, scope)
    ensures Sustained(window, n) <= leak
  {
    hide GoodFor;
    if Sustained(window, n) > 0 {
      assert HasGood(late, |late| - n, n, scope);
      var j :| |late| - n <= j < |late| && GoodFor(late[j], scope);
      MinIsAnElement(window, j - (|late| - n));
    }
  }

  lemma WindowOk(w: World, n: nat, scope: string)
    requires Named(w) && CounterOk(w, scope) && HistoryOk(w, n, scope) && n > 0
    ensures |TickWindow(w, n, scope)| <= n
    ensures SamplesOk(TickWindow(w, n, scope), w.late + [Late(w)], scope, Leak(w, scope))
  {
    hide Late, GoodFor, Named, Sample, SamplesOk, Holders, LiveHolders;
    if GoodFor(Late(w), scope) {
      GoodSample(w, scope);
    }
    SlideOk(Past(w, scope), Sample(w, scope), n, w.late, Late(w), scope, Leak(w, scope));
  }

  /** A tick visits the scopes that have a history or an excess. */
  predicate Visited(w: World, scope: string) {
    scope in w.history || scope in Drift(w.fair, Counts(w.active), |AllAdmitted(w.active)|)
  }

  /** What a tick gives back in a scope. */
  function TickGives(w: World, n: nat, scope: string): nat {
    if Visited(w, scope) then Sustained(TickWindow(w, n, scope), n) else 0
  }

  lemma SubtractedTracked(s: State, given: map<string, nat>, scope: string)
    requires GLOBAL_SCOPE !in s.slots
    ensures Tracked(Subtracted(s, given), scope) == Minus(Tracked(s, scope), AmountOf(given, scope))
  {
  }

  /** The counter and the window of a scope after a tick. */
  lemma TickEffect(w: World, n: nat, scope: string)
    requires Named(w) && n > 0
    ensures var v := Ticked(w, n);
            && Tracked(v.fair, scope) == Minus(Tracked(w.fair, scope), TickGives(w, n, scope))
            && (scope in v.history <==> Visited(w, scope))
            && (scope in v.history ==>
                v.history[scope] == if TickGives(w, n, scope) > 0 then [] else TickWindow(w, n, scope))
  {
    hide Drift, Subtracted, Sustained;
    var drift := Drift(w.fair, Counts(w.active), |AllAdmitted(w.active)|);
    var given := GivenBack(w.fair, w.history, drift, n, w.history.Keys + drift.Keys);
    assert Window(w.history, drift, n, scope) == TickWindow(w, n, scope);
    SubtractedTracked(w.fair, given, scope);
  }

  lemma SampleWithinCounter(w: World, scope: string)
    requires Named(w)
    ensures Sample(w, scope) <= Tracked(w.fair, scope)
  {
    SampleValue(w, scope);
  }

  /** A tick gives back at most the newest sample, and so never more than the counter has. */
  lemma GivesAtMostSample(w: World, n: nat, scope: string)
    requires n > 0 && Named(w)
    ensures TickGives(w, n, scope) > 0 ==> TickGives(w, n, scope) <= Sample(w, scope)
    ensures TickGives(w, n, scope) <= Tracked(w.fair, scope)
  {
    hide Sample, Named, Tracked;
    SampleWithinCounter(w, scope);
    var window := TickWindow(w, n, scope);
    MinIsAnElement(window, |window| - 1);
  }

  /** What a tick does to a scope: lost slots stay, what is given back is added, the window moves or restarts. */
  lemma TickMoves(w: World, n: nat, scope: string)
    requires Named(w) && n > 0
    ensures var v := Ticked(w, n);
            && Named(v) && v.late == w.late + [Late(w)]
            && Lost(v, scope) == Lost(w, scope)
            && Given(v, scope) == Given(w, scope) + TickGives(w, n, scope)
            && Past(v, scope) == (if TickGives(w, n, scope) > 0 then []
                                  else if Visited(w, scope) then TickWindow(w, n, scope) else Past(w, scope))
  {
    hide Tracked, TickWindow, Sustained, Sample, TickState, TickHistory;
    TickEffect(w, n, scope);
    GivesAtMostSample(w, n, scope);
    TickNames(w, n);
  }

  lemma TickNames(w: World, n: nat)
    requires Named(w)
    ensures Named(Ticked(w, n)) && Ticked(w, n).fair.slots.Keys == w.fair.slots.Keys
  {
    var drift := Drift(w.fair, Counts(w.active), |AllAdmitted(w.active)|);
    LeftKeys(w.fair.slots, GivenBack(w.fair, w.history, drift, n, w.history.Keys + drift.Keys));
    hide SlotsLeft, TickHistory, GivenBack, Drift;
  }

  /** A tick only gives back what has leaked. */
  lemma GivesOnlyLeaks(w: World, n: nat, scope: string)
    requires Named(w) && CounterOk(w, scope) && HistoryOk(w, n, scope) && n > 0
    requires WindowsGood(w.late + [Late(w)], n, scope)
    ensures TickGives(w, n, scope) <= Leak(w, scope)
  {
    hide WindowsGood, TickWindow, Holders, LiveHolders, Named, SamplesOk;
    WindowOk(w, n, scope);
    SustainedIsLeaked(TickWindow(w, n, scope), n, w.late + [Late(w)], scope, Leak(w, scope));
  }

  /** What safety needs in a scope: names, the counter between live and all holders, the window's samples. */
  ghost predicate Inv(w: World, n: nat, scope: string) {
    Named(w) && CounterOk(w, scope) && HistoryOk(w, n, scope)
  }

  lemma TickSafe(w: World, n: nat, scope: string)
    requires Inv(w, n, scope) && n > 0 && WindowsGood(w.late + [Late(w)], n, scope)
    ensures Inv(Ticked(w, n), n, scope)
  {
    hide Ticked, Holders, LiveHolders, Named, TickWindow, Visited, WindowsGood, Late, GoodFor;
    GivesOnlyLeaks(w, n, scope);
    WindowOk(w, n, scope);
    TickMoves(w, n, scope);
    if TickGives(w, n, scope) == 0 && !Visited(w, scope) {
      NotVisited(w, n, scope);
    }
  }

  /** A scope without history and excess keeps an empty window. */
  lemma NotVisited(w: World, n: nat, scope: string)
    requires !Visited(w, scope)
    ensures Past(w, scope) == []
  {
  }

  lemma MoveSafe(w: World, v: World, n: nat, scope: string)
    requires Inv(w, n, scope) && Moves(w, v, scope)
    ensures Inv(v, n, scope) && Leak(v, scope) >= Leak(w, scope)
  {
    hide Holders, LiveHolders, Named, GoodFor;
  }

  lemma StepSafe(w: World, limits: Limits, n: nat, step: Step, scope: string)
    requires Inv(w, n, scope) && StepNamed(step) && n > 0
    requires WindowsGood(Next(w, limits, n, step).late, n, scope)
    ensures Inv(Next(w, limits, n, step), n, scope)
  {
    hide Inv, WindowsGood, Moves, Late, TickState, TickHistory;
    if step.Tick? {
      TickSafe(w, n, scope);
    } else {
      InvNamed(w, n, scope);
      StepMoves(w, limits, n, step, scope);
      MoveSafe(w, Next(w, limits, n, step), n, scope);
    }
  }

  lemma InvNamed(w: World, n: nat, scope: string)
    requires Inv(w, n, scope)
    ensures Named(w)
  {
  }

  lemma InitOk(tenants: seq<Tenant>, n: nat, scope: string)
    requires Distinct(tenants)
    ensures Inv(Init(tenants), n, scope) && Given(Init(tenants), scope) == 0 && Lost(Init(tenants), scope) == 0
  {
    EnsuredAllKeepsCounters(EMPTY_STATE, tenants);
    var w := Init(tenants);
    assert Tracked(w.fair, scope) == Tracked(EMPTY_STATE, scope) == 0;
    assert Holders(w.reqs, scope) == {} && LiveHolders(w.reqs, scope) == {};
    assert GLOBAL_SCOPE !in Ids(tenants);
  }

  lemma LateGrows(w: World, limits: Limits, n: nat, step: Step)
    ensures w.late <= Next(w, limits, n, step).late
  {
  }

  lemma WindowsGoodPrefix(a: seq<set<string>>, b: seq<set<string>>, n: nat, scope: string)
    requires a <= b && WindowsGood(b, n, scope)
    ensures WindowsGood(a, n, scope)
  {
    hide GoodFor;
    forall i | 0 <= i && i + n <= |a|
      ensures HasGood(a, i, n, scope)
    {
      assert HasGood(b, i, n, scope);
      var j :| i <= j < i + n && GoodFor(b[j], scope);
      assert a[j] == b[j];
    }
  }

  lemma {:induction false} RunSafe(w: World, limits: Limits, n: nat, steps: seq<Step>, scope: string)
    requires Inv(w, n, scope) && StepsNamed(steps) && n > 0
    requires WindowsGood(Exec(w, limits, n, steps).late, n, scope)
    ensures Inv(Exec(w, limits, n, steps), n, scope)
    decreases |steps|
  {
    hide Next, Inv, WindowsGood;
    if steps != [] {
      var front := steps[..|steps| - 1];
      var v := Exec(w, limits, n, front);
      LateGrows(v, limits, n, steps[|front|]);
      WindowsGoodPrefix(v.late, Exec(w, limits, n, steps).late, n, scope);
      RunSafe(w, limits, n, front, scope);
      StepSafe(v, limits, n, steps[|front|], scope);
    }
  }

  /**
   Safety over whole runs, scope by scope: if every window of `n` ticks has one at which the scope's own
   unreleased live requests are registered, no repair ever takes a live request's slot from it, and
   what was given back is at most what was lost, so no slot is given back twice.
   */
  lemma NeverTakesALiveSlot(tenants: seq<Tenant>, limits: Limits, n: nat, steps: seq<Step>, scope: string)
    requires Distinct(tenants) && StepsNamed(steps) && n > 0
    requires WindowsGood(Exec(Init(tenants), limits, n, steps).late, n, scope)
    ensures var w := Exec(Init(tenants), limits, n, steps);
            Inv(w, n, scope) && CounterOk(w, scope) && 0 <= Given(w, scope) <= Lost(w, scope)
  {
    InitOk(tenants, n, scope);
    RunSafe(Init(tenants), limits, n, steps, scope);
  }
}
