/**
 Where the guarantees of the leak repair of src/concurrency/reconcile.ts end: a tenant that is called
 like the pseudo-scope of the shared counter, retired slots, and a window of no ticks. Runs of quiet
 ticks, between which nothing happens, are computed in closed form.
 */
module RepairEdges {
  import opened Fairness
  import opened LiveRequests
  import opened LeakRepair
  import opened AdmissionAccounting

  function Ticks(k: nat): seq<Step> {
    seq(k, _ => Tick)
  }

  function Repeat(k: nat, x: int): seq<int> {
    seq(k, _ => x)
  }

  /** The late clients of `k` ticks in the same state. */
  function SameLate(k: nat, late: set<string>): seq<set<string>> {
    seq(k, _ => late)
  }

  function DriftOf(w: World): map<string, int> {
    Drift(w.fair, Counts(w.active), |AllAdmitted(w.active)|)
  }

  function Sampled(drift: map<string, int>, scope: string): int {
    if scope in drift then drift[scope] else 0
  }

  /** Windows that hold `k` times the same sample. */
  function Windows(keys: set<string>, drift: map<string, int>, k: nat): map<string, seq<int>> {
    map scope | scope in keys :: Repeat(k, Sampled(drift, scope))
  }

  /** What a full window of the same samples gives back. */
  function Positive(keys: set<string>, drift: map<string, int>): map<string, nat> {
    map scope | scope in keys :: if Sampled(drift, scope) > 0 then Sampled(drift, scope) else 0
  }

  /** The windows after that. */
  function Restarted(keys: set<string>, drift: map<string, int>, n: nat): map<string, seq<int>> {
    map scope | scope in keys :: if Sampled(drift, scope) > 0 then [] else Repeat(n, Sampled(drift, scope))
  }

  lemma {:induction false} ExecAppend(w: World, limits: Limits, n: nat, a: seq<Step>, b: seq<Step>)
    ensures Exec(w, limits, n, a + b) == Exec(Exec(w, limits, n, a), limits, n, b)
    decreases |b|
  {
    hide Next;
    if b == [] {
      assert a + b == a;
    } else {
      assert (a + b)[..|a + b| - 1] == a + b[..|b| - 1];
      ExecAppend(w, limits, n, a, b[..|b| - 1]);
    }
  }

  lemma {:induction false} MinOfRepeat(k: nat, x: int)
    requires k > 0
    ensures Min(Repeat(k, x)) == x
  {
    if k > 1 {
      assert Repeat(k, x)[1..] == Repeat(k - 1, x);
      MinOfRepeat(k - 1, x);
    }
  }

  lemma NothingSubtracted(s: State, given: map<string, nat>)
    requires forall scope :: scope in given ==> given[scope] == 0
    ensures Subtracted(s, given) == s
  {
    assert SlotsLeft(s.slots, given) == s.slots;
  }

  /** One more equal sample in every window. */
  lemma WindowsSlide(keys: set<string>, drift: map<string, int>, n: nat, k: nat, scope: string)
    requires k < n && scope in keys + drift.Keys && (k == 0 || drift.Keys <= keys)
    ensures Window(Windows(keys, drift, k), drift, n, scope) == Repeat(k + 1, Sampled(drift, scope))
  {
    assert Repeat(k, Sampled(drift, scope)) + [Sampled(drift, scope)] == Repeat(k + 1, Sampled(drift, scope));
  }

  /** A tick that does not fill the windows. */
  lemma QuietTick(w: World, n: nat, k: nat, keys: set<string>)
    requires k + 1 < n && w.history == Windows(keys, DriftOf(w), k) && (k == 0 || DriftOf(w).Keys <= keys)
    ensures Ticked(w, n) == w.(history := Windows(keys + DriftOf(w).Keys, DriftOf(w), k + 1), late := w.late + [Late(w)])
  {
    hide Drift, Subtracted, Late, Window, Repeat;
    var drift := DriftOf(w);
    var scopes := keys + drift.Keys;
    assert w.history.Keys == keys;
    forall scope | scope in scopes
      ensures Window(w.history, drift, n, scope) == Repeat(k + 1, Sampled(drift, scope))
      ensures Sustained(Window(w.history, drift, n, scope), n) == 0
    {
      WindowsSlide(keys, drift, n, k, scope);
      RepeatLength(k + 1, Sampled(drift, scope));
    }
    var given := GivenBack(w.fair, w.history, drift, n, scopes);
    NothingSubtracted(w.fair, given);
    assert TickHistory(w.history, drift, n, scopes) == Windows(scopes, drift, k + 1);
  }

  lemma RepeatLength(k: nat, x: int)
    ensures |Repeat(k, x)| == k
  {
  }

  /** A full window of equal samples sustains the sample, if it is positive. */
  lemma FullWindow(keys: set<string>, drift: map<string, int>, n: nat, scope: string)
    requires n > 0 && scope in keys + drift.Keys && (n == 1 || drift.Keys <= keys)
    ensures var window := Window(Windows(keys, drift, n - 1), drift, n, scope);
            && window == Repeat(n, Sampled(drift, scope))
            && Sustained(window, n) == if Sampled(drift, scope) > 0 then Sampled(drift, scope) else 0
  {
    hide Window, Windows, Repeat;
    WindowsSlide(keys, drift, n, n - 1, scope);
    RepeatLength(n, Sampled(drift, scope));
    MinOfRepeat(n, Sampled(drift, scope));
  }

  lemma FullWindowsGive(s: State, keys: set<string>, drift: map<string, int>, n: nat)
    requires n > 0 && (n == 1 || drift.Keys <= keys)
    ensures GivenBack(s, Windows(keys, drift, n - 1), drift, n, keys + drift.Keys) == Positive(keys + drift.Keys, drift)
  {
    hide Window, Windows, Sustained, Repeat, Sampled;
    forall scope | scope in keys + drift.Keys
      ensures Sustained(Window(Windows(keys, drift, n - 1), drift, n, scope), n) ==
              if Sampled(drift, scope) > 0 then Sampled(drift, scope) else 0
    {
      FullWindow(keys, drift, n, scope);
    }
  }

  lemma FullWindowsRestart(keys: set<string>, drift: map<string, int>, n: nat)
    requires n > 0 && (n == 1 || drift.Keys <= keys)
    ensures TickHistory(Windows(keys, drift, n - 1), drift, n, keys + drift.Keys) == Restarted(keys + drift.Keys, drift, n)
  {
    WindowKeys(keys, drift, n - 1);
    hide Window, Windows, Sustained, Repeat, Sampled;
    forall scope | scope in keys + drift.Keys
      ensures var window := Window(Windows(keys, drift, n - 1), drift, n, scope);
              && window == Repeat(n, Sampled(drift, scope))
              && Sustained(window, n) == if Sampled(drift, scope) > 0 then Sampled(drift, scope) else 0
    {
      FullWindow(keys, drift, n, scope);
    }
    assert TickHistory(Windows(keys, drift, n - 1), drift, n, keys + drift.Keys).Keys == keys + drift.Keys;
  }

  /** The tick that fills them. */
  lemma FillingTick(w: World, n: nat, keys: set<string>)
    requires n > 0 && w.history == Windows(keys, DriftOf(w), n - 1) && (n == 1 || DriftOf(w).Keys <= keys)
    ensures var scopes := keys + DriftOf(w).Keys;
            Ticked(w, n) == w.(fair := Subtracted(w.fair, Positive(scopes, DriftOf(w))),
                               history := Restarted(scopes, DriftOf(w), n), late := w.late + [Late(w)])
  {
    WindowKeys(keys, DriftOf(w), n - 1);
    hide Drift, Subtracted, Late, Window, Windows, GivenBack, TickHistory, Positive, Restarted;
    FullWindowsGive(w.fair, keys, DriftOf(w), n);
    FullWindowsRestart(keys, DriftOf(w), n);
  }

  lemma WindowKeys(keys: set<string>, drift: map<string, int>, k: nat)
    ensures Windows(keys, drift, k).Keys == keys
  {
  }

  predicate EmptyWindows(w: World) {
    forall scope :: scope in w.history ==> w.history[scope] == []
  }

  lemma {:induction false} QuietTicks(w: World, limits: Limits, n: nat, k: nat)
    requires k < n && EmptyWindows(w)
    ensures var keys := if k == 0 then w.history.Keys else w.history.Keys + DriftOf(w).Keys;
            Exec(w, limits, n, Ticks(k)) == w.(history := Windows(keys, DriftOf(w), k), late := w.late + SameLate(k, Late(w)))
  {
    if k == 0 {
      assert Windows(w.history.Keys, DriftOf(w), 0) == w.history;
      assert w.late + SameLate(0, Late(w)) == w.late;
    } else {
      hide Next, DriftOf, Late, Windows, EmptyWindows;
      QuietTicks(w, limits, n, k - 1);
      assert Ticks(k)[..k - 1] == Ticks(k - 1);
      NextQuietTick(w, Exec(w, limits, n, Ticks(k - 1)), n, k);
      NextTick(Exec(w, limits, n, Ticks(k - 1)), limits, n);
    }
  }

  lemma NextTick(w: World, limits: Limits, n: nat)
    ensures Next(w, limits, n, Tick) == Ticked(w, n)
  {
  }

  lemma NextQuietTick(w: World, v: World, n: nat, k: nat)
    requires 0 < k < n
    requires var keys := if k == 1 then w.history.Keys else w.history.Keys + DriftOf(w).Keys;
             v == w.(history := Windows(keys, DriftOf(w), k - 1), late := w.late + SameLate(k - 1, Late(w)))
    ensures Ticked(v, n) ==
            w.(history := Windows(w.history.Keys + DriftOf(w).Keys, DriftOf(w), k), late := w.late + SameLate(k, Late(w)))
  {
    hide Drift, Late, Windows, Ticked;
    QuietTick(v, n, k - 1, if k == 1 then w.history.Keys else w.history.Keys + DriftOf(w).Keys);
    SameRequestsLate(v, w);
    assert w.late + SameLate(k - 1, Late(w)) + [Late(w)] == w.late + SameLate(k, Late(w));
    assert w.history.Keys + DriftOf(w).Keys + DriftOf(w).Keys == w.history.Keys + DriftOf(w).Keys;
  }

  lemma SameRequestsLate(v: World, w: World)
    requires v.reqs == w.reqs && v.active == w.active
    ensures Late(v) == Late(w)
  {
  }

  /** A window of quiet ticks, begun with empty windows: every positive excess is given back once. */
  lemma WholeWindow(w: World, limits: Limits, n: nat)
    requires n > 0 && EmptyWindows(w)
    ensures var scopes := w.history.Keys + DriftOf(w).Keys;
            Exec(w, limits, n, Ticks(n)) ==
            w.(fair := Subtracted(w.fair, Positive(scopes, DriftOf(w))),
               history := Restarted(scopes, DriftOf(w), n), late := w.late + SameLate(n, Late(w)))
  {
    hide Drift, Late, Ticked, Windows, Subtracted, Restarted, Positive;
    var v := Exec(w, limits, n, Ticks(n - 1));
    QuietTicks(w, limits, n, n - 1);
    assert Ticks(n)[..n - 1] == Ticks(n - 1);
    FillingTick(v, n, if n == 1 then w.history.Keys else w.history.Keys + DriftOf(w).Keys);
    SameRequestsLate(v, w);
    assert w.late + SameLate(n - 1, Late(w)) + [Late(w)] == w.late + SameLate(n, Late(w));
    assert w.history.Keys + DriftOf(w).Keys + DriftOf(w).Keys == w.history.Keys + DriftOf(w).Keys;
  }

  const WIDE: Limits := Limits(10, 10)
  const CLASHING: Tenant := Tenant(GLOBAL_SCOPE, 2, 0)

  /** A request of a tenant that is called like the pseudo-scope is lost; later the tenant has a healthy one. */
  const LOSS: seq<Step> := [Admit(1, CLASHING, 0), Finish(1)]
  const HEALTHY: seq<Step> := [Admit(2, CLASHING, 0), Register(2)]

  function Clash(n: nat): seq<Step> {
    LOSS + Ticks(n) + HEALTHY + Ticks(n)
  }

  function ClashSlot(active: nat): map<string, Slot> {
    map[GLOBAL_SCOPE := Slot(Queue(0, 2), active, 2, 0, false)]
  }

  lemma ExecTwo(w: World, limits: Limits, n: nat, a: Step, b: Step)
    ensures Exec(w, limits, n, [a, b]) == Next(Next(w, limits, n, a), limits, n, b)
  {
    hide Next;
    assert [a, b][..1] == [a] && [a][..0] == [];
    assert Exec(w, limits, n, [a]) == Next(Exec(w, limits, n, []), limits, n, a);
  }

  lemma AfterLoss(n: nat)
    ensures Exec(Init([]), WIDE, n, LOSS) ==
            World(State(ClashSlot(1), 1, 1), map[], map[], map[1 := Request(GLOBAL_SCOPE, true, false)], [])
  {
    hide Ticked, Exec;
    ExecTwo(Init([]), WIDE, n, LOSS[0], LOSS[1]);
    assert Init([]) == World(EMPTY_STATE, map[], map[], map[], []);
    var w := Next(Init([]), WIDE, n, LOSS[0]);
    assert w.fair == State(ClashSlot(1), 1, 1);
  }

  lemma LossDrift(w: World)
    requires w.fair == State(ClashSlot(1), 1, 1) && w.active == map[] && w.reqs == map[1 := Request(GLOBAL_SCOPE, true, false)]
    ensures DriftOf(w) == map[GLOBAL_SCOPE := 1] && Late(w) == {}
  {
    assert AllAdmitted(w.active) == {} && Clients(w.active) == {};
  }

  /** Both counters exceed by one under the same key, and only the shared one is lowered. */
  lemma AfterFirstWindow(w: World, n: nat)
    requires n > 0
    requires w == World(State(ClashSlot(1), 1, 1), map[], map[], map[1 := Request(GLOBAL_SCOPE, true, false)], [])
    ensures Exec(w, WIDE, n, Ticks(n)) ==
            World(State(ClashSlot(1), 0, 1), map[GLOBAL_SCOPE := []], map[], w.reqs, SameLate(n, {}))
  {
    LossDrift(w);
    ClashWindow(w, n);
    assert w.late + SameLate(n, {}) == SameLate(n, {});
  }

  lemma ClashRestarted(n: nat)
    ensures Restarted({GLOBAL_SCOPE}, map[GLOBAL_SCOPE := 1], n) == map[GLOBAL_SCOPE := []]
  {
  }

  lemma ClashSubtracted(s: State)
    requires s.slots.Keys == {GLOBAL_SCOPE}
    ensures Subtracted(s, Positive({GLOBAL_SCOPE}, map[GLOBAL_SCOPE := 1])) == s.(globalActive := Minus(s.globalActive, 1))
  {
    var given := Positive({GLOBAL_SCOPE}, map[GLOBAL_SCOPE := 1]);
    assert SlotsLeft(s.slots, given) == s.slots;
  }

  lemma AfterHealthy(w: World, n: nat)
    requires w == World(State(ClashSlot(1), 0, 1), map[GLOBAL_SCOPE := []], map[],
                        map[1 := Request(GLOBAL_SCOPE, true, false)], SameLate(n, {}))
    ensures Exec(w, WIDE, n, HEALTHY) ==
            w.(fair := State(ClashSlot(2), 1, 1), active := map[2 := LiveRequest(GLOBAL_SCOPE, true)],
               reqs := w.reqs[2 := Request(GLOBAL_SCOPE, true, true)])
  {
    hide Ticked, Exec;
    ExecTwo(w, WIDE, n, HEALTHY[0], HEALTHY[1]);
    assert Verdict(w.fair, WIDE, CLASHING, 0) == Ok;
    var v := Next(w, WIDE, n, HEALTHY[0]);
    assert v.fair == State(ClashSlot(2), 1, 1);
  }

  lemma HealthyDrift(w: World)
    requires w.fair == State(ClashSlot(2), 1, 1) && w.active == map[2 := LiveRequest(GLOBAL_SCOPE, true)]
    requires w.reqs == map[1 := Request(GLOBAL_SCOPE, true, false), 2 := Request(GLOBAL_SCOPE, true, true)]
    ensures DriftOf(w) == map[GLOBAL_SCOPE := 1] && Late(w) == {}
  {
    assert AllAdmitted(w.active) == {2} && Clients(w.active) == {GLOBAL_SCOPE} && AdmittedOf(w.active, GLOBAL_SCOPE) == {2};
    assert Counts(w.active) == map[GLOBAL_SCOPE := 1];
  }

  /** The tenant's old excess is taken from the shared counter once more. */
  lemma AfterSecondWindow(w: World, n: nat)
    requires n > 0
    requires w == World(State(ClashSlot(2), 1, 1), map[GLOBAL_SCOPE := []], map[2 := LiveRequest(GLOBAL_SCOPE, true)],
                        map[1 := Request(GLOBAL_SCOPE, true, false), 2 := Request(GLOBAL_SCOPE, true, true)], SameLate(n, {}))
    ensures var v := Exec(w, WIDE, n, Ticks(n));
            v.fair.globalActive == 0 && v.reqs == w.reqs && v.late == SameLate(n, {}) + SameLate(n, {})
  {
    HealthyDrift(w);
    ClashWindow(w, n);
  }

  /** A window of ticks that see an excess of one under the shared key and in no other scope. */
  lemma ClashWindow(w: World, n: nat)
    requires n > 0 && w.fair.slots.Keys == {GLOBAL_SCOPE} && w.history.Keys <= {GLOBAL_SCOPE} && EmptyWindows(w)
    requires DriftOf(w) == map[GLOBAL_SCOPE := 1] && Late(w) == {}
    ensures Exec(w, WIDE, n, Ticks(n)) ==
            w.(fair := w.fair.(globalActive := Minus(w.fair.globalActive, 1)), history := map[GLOBAL_SCOPE := []],
               late := w.late + SameLate(n, {}))
  {
    hide Exec, DriftOf, Late, Subtracted, Positive;
    WholeWindow(w, WIDE, n);
    assert w.history.Keys + DriftOf(w).Keys == {GLOBAL_SCOPE};
    ClashSubtracted(w.fair);
    ClashRestarted(n);
    hide Restarted;
  }

  /**
   Why no tenant may be called "global": its excess and the shared counter's have one key, so after
   the shared counter was repaired the tenant's excess is taken from it again, and a live request
   loses its slot although every tick was good, however long the window.
   */
  lemma GlobalNameIsUnsafe(n: nat)
    requires n > 0
    ensures var w := Exec(Init([]), WIDE, n, Clash(n));
            && w.late == SameLate(n, {}) + SameLate(n, {}) && w.fair.globalActive == 0
            && LiveHolders(w.reqs, GLOBAL_SCOPE) == {2} && !CounterOk(w, GLOBAL_SCOPE)
  {
    hide Exec, Init;
    var w := Init([]);
    AfterLoss(n);
    ExecAppend(w, WIDE, n, LOSS, Ticks(n));
    AfterFirstWindow(Exec(w, WIDE, n, LOSS), n);
    ExecAppend(w, WIDE, n, LOSS + Ticks(n), HEALTHY);
    AfterHealthy(Exec(w, WIDE, n, LOSS + Ticks(n)), n);
    ExecAppend(w, WIDE, n, LOSS + Ticks(n) + HEALTHY, Ticks(n));
    AfterSecondWindow(Exec(w, WIDE, n, LOSS + Ticks(n) + HEALTHY), n);
    assert LiveHolders(Exec(w, WIDE, n, Clash(n)).reqs, GLOBAL_SCOPE) == {2};
  }

  /** All tenants of the run have their ids in `names`. */
  ghost predicate Uses(names: iset<string>, tenants: seq<Tenant>, steps: seq<Step>) {
    && (forall i :: 0 <= i < |tenants| ==> tenants[i].clientId in names)
    && (forall i :: 0 <= i < |steps| ==>
          && (steps[i].Admit? ==> steps[i].tenant.clientId in names)
          && (steps[i].Sync? ==> forall j :: 0 <= j < |steps[i].tenants| ==> steps[i].tenants[j].clientId in names))
  }

  /** No run of tenants with these ids takes a live request's slot from a scope whose windows are good. */
  ghost predicate SafeFor(names: iset<string>, n: nat) {
    forall tenants: seq<Tenant>, limits: Limits, steps: seq<Step>, scope: string ::
      Uses(names, tenants, steps) && WindowsGood(Exec(Init(tenants), limits, n, steps).late, n, scope) ==>
      CounterOk(Exec(Init(tenants), limits, n, steps), scope)
  }

  /** The repair is safe for a set of tenant ids if and only if "global" is not one of them. */
  lemma SafeWithoutGlobalName(names: iset<string>, n: nat)
    requires n > 0
    ensures SafeFor(names, n) <==> GLOBAL_SCOPE !in names
  {
    hide Exec, CounterOk, WindowsGood;
    if GLOBAL_SCOPE in names {
      GlobalNameIsUnsafe(n);
      ClashUses(names, n);
      GoodWindows(n);
      assert !CounterOk(Exec(Init([]), WIDE, n, Clash(n)), GLOBAL_SCOPE);
    } else {
      forall tenants: seq<Tenant>, limits: Limits, steps: seq<Step>, scope: string |
        Uses(names, tenants, steps) && WindowsGood(Exec(Init(tenants), limits, n, steps).late, n, scope)
        ensures CounterOk(Exec(Init(tenants), limits, n, steps), scope)
      {
        NeverTakesALiveSlot(tenants, limits, n, steps, scope);
      }
    }
  }

  lemma ClashUses(names: iset<string>, n: nat)
    requires GLOBAL_SCOPE in names
    ensures Uses(names, [], Clash(n))
  {
    var steps := Clash(n);
    assert |steps| == 4 + 2 * n;
    forall i | 0 <= i < |steps|
      ensures steps[i] in LOSS || steps[i] in HEALTHY || steps[i] == Tick
    {
    }
  }

  lemma GoodWindows(n: nat)
    requires n > 0
    ensures WindowsGood(SameLate(n, {}) + SameLate(n, {}), n, GLOBAL_SCOPE)
  {
    var late: seq<set<string>> := SameLate(n, {}) + SameLate(n, {});
    forall i | 0 <= i && i + n <= |late|
      ensures HasGood(late, i, n, GLOBAL_SCOPE)
    {
      assert GoodFor(late[i], GLOBAL_SCOPE);
    }
  }

  predicate IdleRetired(s: State, id: string) {
    id in s.slots && s.slots[id].retired && s.slots[id].active == 0
  }

  lemma SlotAfterTick(w: World, n: nat, id: string)
    requires Named(w) && n > 0
    ensures id in Ticked(w, n).fair.slots <==> id in w.fair.slots
    ensures id in w.fair.slots ==>
              && Ticked(w, n).fair.slots[id].retired == w.fair.slots[id].retired
              && Ticked(w, n).fair.slots[id].active == w.fair.slots[id].active - TickGives(w, n, id)
  {
    TickEffect(w, n, id);
    GivesAtMostSample(w, n, id);
    hide TickGives, GivenBack, TickHistory, Drift;
  }

  /**
   A retired slot is to vanish with its last count. It does, except in a repair: from a state without
   idle retired slots a step leaves one exactly if it is a tick that gives back all the slot has left.
   */
  lemma RepairLeavesRetiredSlot(w: World, limits: Limits, n: nat, step: Step, id: string)
    requires Named(w) && SlotsTidy(w.fair) && n > 0
    ensures IdleRetired(Next(w, limits, n, step).fair, id) <==>
            step.Tick? && id in w.fair.slots && w.fair.slots[id].retired && TickGives(w, n, id) == w.fair.slots[id].active
  {
    hide TickGives, Ticked;
    if step.Tick? {
      SlotAfterTick(w, n, id);
    } else {
      StepTidy(w, limits, n, step);
    }
  }

  /** A slot is lost, its tenant vanishes, and a window of ticks follows. */
  function Vanishing(t: Tenant, n: nat): seq<Step> {
    [Admit(1, t, 0), Finish(1)] + [Sync([])] + Ticks(n)
  }

  lemma AfterVanishing(t: Tenant, limits: Limits, n: nat)
    requires t.clientId != GLOBAL_SCOPE && t.maxConcurrency + t.maxPending > 0
    requires limits.globalMaxPending > 0 && limits.maxActiveDedupKeys > 0
    ensures Exec(Init([]), limits, n, [Admit(1, t, 0), Finish(1)] + [Sync([])]) ==
            World(State(map[t.clientId := Slot(Queue(0, t.maxConcurrency), 1, t.maxConcurrency, t.maxPending, true)], 1, 1),
                  map[], map[], map[1 := Request(t.clientId, true, false)], [])
  {
    hide Ticked, Exec;
    var a, b := Admit(1, t, 0), Finish(1);
    ExecTwo(Init([]), limits, n, a, b);
    ExecAppend(Init([]), limits, n, [a, b], [Sync([])]);
    var v := Exec(Init([]), limits, n, [a, b]);
    ExecOne(v, limits, n, Sync([]));
    assert v.fair == State(map[t.clientId := Slot(Queue(0, t.maxConcurrency), 1, t.maxConcurrency, t.maxPending, false)], 1, 1);
    assert Ids([]) == {};
  }

  lemma ExecOne(w: World, limits: Limits, n: nat, step: Step)
    ensures Exec(w, limits, n, [step]) == Next(w, limits, n, step)
  {
    hide Next;
    assert [step][..0] == [];
  }

  /** This happens: a lost slot of a vanished tenant is given back after one window and then lies idle. */
  lemma IdleRetiredSlotIsReached(t: Tenant, limits: Limits, n: nat)
    requires t.clientId != GLOBAL_SCOPE && t.maxConcurrency + t.maxPending > 0
    requires limits.globalMaxPending > 0 && limits.maxActiveDedupKeys > 0 && n > 0
    ensures IdleRetired(Exec(Init([]), limits, n, Vanishing(t, n)).fair, t.clientId)
    ensures t.clientId !in Exec(Init([]), limits, n, Vanishing(t, n) + [Sync([])]).fair.slots
  {
    hide Exec;
    var w := Exec(Init([]), limits, n, [Admit(1, t, 0), Finish(1)] + [Sync([])]);
    AfterVanishing(t, limits, n);
    ExecAppend(Init([]), limits, n, [Admit(1, t, 0), Finish(1)] + [Sync([])], Ticks(n));
    VanishedWindow(w, t, limits, n);
    ExecAppend(Init([]), limits, n, Vanishing(t, n), [Sync([])]);
    ExecOne(Exec(Init([]), limits, n, Vanishing(t, n)), limits, n, Sync([]));
    SyncDropsIdle(Exec(Init([]), limits, n, Vanishing(t, n)), limits, n, t.clientId);
  }

  lemma VanishedDrift(w: World, t: Tenant)
    requires t.clientId != GLOBAL_SCOPE && w.active == map[] && w.fair.slots.Keys == {t.clientId}
    requires w.fair.slots[t.clientId].active == 1 && w.fair.globalActive == 1
    ensures DriftOf(w) == map[t.clientId := 1, GLOBAL_SCOPE := 1]
  {
    assert AllAdmitted(w.active) == {} && Clients(w.active) == {};
  }

  lemma VanishedWindow(w: World, t: Tenant, limits: Limits, n: nat)
    requires t.clientId != GLOBAL_SCOPE && n > 0
    requires w == World(State(map[t.clientId := Slot(Queue(0, t.maxConcurrency), 1, t.maxConcurrency, t.maxPending, true)], 1, 1),
                        map[], map[], map[1 := Request(t.clientId, true, false)], [])
    ensures IdleRetired(Exec(w, limits, n, Ticks(n)).fair, t.clientId)
  {
    VanishedDrift(w, t);
    hide Exec, DriftOf, Late;
    WholeWindow(w, limits, n);
  }

  lemma SyncDropsIdle(w: World, limits: Limits, n: nat, id: string)
    requires IdleRetired(w.fair, id)
    ensures id !in Next(w, limits, n, Sync([])).fair.slots
  {
    assert Ids([]) == {};
  }

  const LONE: Tenant := Tenant("a", 2, 0)

  /** A slot is lost and repaired; later the tenant has a healthy, registered request. */
  const NO_WINDOW: seq<Step> := [Admit(1, LONE, 0), Finish(1)] + [Tick] + [Admit(2, LONE, 0), Register(2)] + [Tick]

  function LoneSlots(active: nat): map<string, Slot> {
    map["a" := Slot(Queue(0, 2), active, 2, 0, false)]
  }

  lemma TickWithoutWindow(w: World, active: nat)
    requires w.fair == State(LoneSlots(active), active, 1)
    requires w.history.Keys + DriftOf(w).Keys == {"a", GLOBAL_SCOPE} && EmptyWindows(w)
    ensures Ticked(w, 0) == w.(fair := State(LoneSlots(0), 0, 1), history := map["a" := [], GLOBAL_SCOPE := []],
                               late := w.late + [Late(w)])
  {
    hide Drift, Late, Subtracted, GivenBack, TickHistory;
    NoWindowGiven(w.fair, w.history, DriftOf(w), active);
    NoWindowHistory(w.history, DriftOf(w));
  }

  lemma NoWindowGiven(s: State, history: map<string, seq<int>>, drift: map<string, int>, active: nat)
    requires s == State(LoneSlots(active), active, 1)
    ensures Subtracted(s, GivenBack(s, history, drift, 0, {"a", GLOBAL_SCOPE})) == State(LoneSlots(0), 0, 1)
  {
    hide Window, Sustained;
    var given := GivenBack(s, history, drift, 0, {"a", GLOBAL_SCOPE});
    assert given["a"] == active && given[GLOBAL_SCOPE] == active;
    assert SlotsLeft(s.slots, given) == LoneSlots(0);
  }

  lemma NoWindowHistory(history: map<string, seq<int>>, drift: map<string, int>)
    requires history.Keys <= {"a", GLOBAL_SCOPE} && forall scope :: scope in history ==> history[scope] == []
    ensures TickHistory(history, drift, 0, {"a", GLOBAL_SCOPE}) == map["a" := [], GLOBAL_SCOPE := []]
  {
    hide Sustained;
    var after := TickHistory(history, drift, 0, {"a", GLOBAL_SCOPE});
    assert after.Keys == {"a", GLOBAL_SCOPE};
  }

  lemma LoneLost(n: nat)
    ensures Exec(Init([]), WIDE, n, [Admit(1, LONE, 0), Finish(1)]) ==
            World(State(LoneSlots(1), 1, 1), map[], map[], map[1 := Request("a", true, false)], [])
  {
    hide Ticked, Exec;
    ExecTwo(Init([]), WIDE, n, Admit(1, LONE, 0), Finish(1));
    assert Next(Init([]), WIDE, n, Admit(1, LONE, 0)).fair == State(LoneSlots(1), 1, 1);
  }

  lemma LoneHealthy(w: World, n: nat)
    requires w == World(State(LoneSlots(0), 0, 1), map["a" := [], GLOBAL_SCOPE := []], map[], map[1 := Request("a", true, false)], [{}])
    ensures Exec(w, WIDE, n, [Admit(2, LONE, 0), Register(2)]) ==
            w.(fair := State(LoneSlots(1), 1, 1), active := map[2 := LiveRequest("a", true)],
               reqs := w.reqs[2 := Request("a", true, true)])
  {
    hide Ticked, Exec;
    ExecTwo(w, WIDE, n, Admit(2, LONE, 0), Register(2));
    assert Next(w, WIDE, n, Admit(2, LONE, 0)).fair == State(LoneSlots(1), 1, 1);
  }

  lemma LoneDrift(w: World)
    requires w.active == map[] && w.fair == State(LoneSlots(1), 1, 1) && w.reqs == map[1 := Request("a", true, false)]
    ensures DriftOf(w).Keys == {"a", GLOBAL_SCOPE} && Late(w) == {}
  {
    assert AllAdmitted(w.active) == {} && Clients(w.active) == {};
  }

  lemma LoneQuiet(w: World)
    requires w.active == map[2 := LiveRequest("a", true)] && w.fair == State(LoneSlots(1), 1, 1)
    requires w.reqs == map[1 := Request("a", true, false), 2 := Request("a", true, true)]
    ensures DriftOf(w).Keys == {} && Late(w) == {}
  {
    assert AllAdmitted(w.active) == {2} && Clients(w.active) == {"a"} && AdmittedOf(w.active, "a") == {2};
  }

  /**
   The repair must have a window. With none the minimum of no samples is infinite, and once a scope was
   visited every tick takes all it has, a registered live request's slot included.
   */
  lemma NoWindowIsUnsafe()
    ensures var w := Exec(Init([]), WIDE, 0, NO_WINDOW);
            w.late == [{}, {}] && LiveHolders(w.reqs, "a") == {2} && !CounterOk(w, "a") && !CounterOk(w, GLOBAL_SCOPE)
  {
    hide Exec, Ticked, DriftOf, Late;
    var w, lost, more := Init([]), [Admit(1, LONE, 0), Finish(1)], [Admit(2, LONE, 0), Register(2)];
    LoneLost(0);
    ExecAppend(w, WIDE, 0, lost, [Tick]);
    ExecOne(Exec(w, WIDE, 0, lost), WIDE, 0, Tick);
    LoneDrift(Exec(w, WIDE, 0, lost));
    TickWithoutWindow(Exec(w, WIDE, 0, lost), 1);
    ExecAppend(w, WIDE, 0, lost + [Tick], more);
    LoneHealthy(Exec(w, WIDE, 0, lost + [Tick]), 0);
    var v := Exec(w, WIDE, 0, lost + [Tick] + more);
    ExecAppend(w, WIDE, 0, lost + [Tick] + more, [Tick]);
    ExecOne(v, WIDE, 0, Tick);
    LoneQuiet(v);
    TickWithoutWindow(v, 1);
    var last := Exec(w, WIDE, 0, NO_WINDOW);
    assert LiveHolders(last.reqs, "a") == {2} && LiveHolders(last.reqs, GLOBAL_SCOPE) == {2};
  }
}
