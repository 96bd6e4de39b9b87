/**
 Admission control of src/concurrency/fairness.ts and the leak detector of
 src/concurrency/reconcile.ts: the two stateful classes, proved against functions on their state.
 */
module Fairness {
  const GLOBAL_SCOPE := "global"

  datatype Tenant = Tenant(clientId: string, maxConcurrency: nat, maxPending: nat)

  /** A tenant's queue: its identity (a new one for every new slot) and its concurrency. */
  datatype Queue = Queue(id: nat, concurrency: nat)

  datatype Slot = Slot(queue: Queue, active: nat, maxConcurrency: nat, maxPending: nat, retired: bool)

  datatype AdmitResult = Ok | ClientFull | GlobalFull | DedupFull

  datatype State = State(slots: map<string, Slot>, globalActive: nat, nextQueue: nat)

  const EMPTY_STATE: State := State(map[], 0, 0)

  datatype Limits = Limits(globalMaxPending: nat, maxActiveDedupKeys: nat)

  function Minus(a: nat, b: nat): nat {
    if a > b then a - b else 0
  }

  function SlotFor(s: State, c: Tenant): Slot {
    if c.clientId in s.slots then
      var slot := s.slots[c.clientId];
      slot.(queue := if slot.maxConcurrency == c.maxConcurrency then slot.queue
                     else slot.queue.(concurrency := c.maxConcurrency),
            maxConcurrency := c.maxConcurrency, maxPending := c.maxPending, retired := false)
    else Slot(Queue(s.nextQueue, c.maxConcurrency), 0, c.maxConcurrency, c.maxPending, false)
  }

  /** ensureSlot: the limits are the tenant's current ones; an existing slot keeps its queue and count. */
  function Ensured(s: State, c: Tenant): State {
    s.(slots := s.slots[c.clientId := SlotFor(s, c)],
       nextQueue := if c.clientId in s.slots then s.nextQueue else s.nextQueue + 1)
  }

  function EnsuredAll(s: State, tenants: seq<Tenant>): State {
    if tenants == [] then s
    else Ensured(EnsuredAll(s, tenants[..|tenants| - 1]), tenants[|tenants| - 1])
  }

  function Ids(tenants: seq<Tenant>): set<string> {
    set i | 0 <= i < |tenants| :: tenants[i].clientId
  }

  /** Vanished tenants: idle slots go, busy ones are retired. */
  function Retired(s: State, live: set<string>): State {
    s.(slots := map id | id in s.slots && (id in live || s.slots[id].active > 0) ::
         if id in live then s.slots[id] else s.slots[id].(retired := true))
  }

  function Synced(s: State, tenants: seq<Tenant>): State {
    Retired(EnsuredAll(s, tenants), Ids(tenants))
  }

  function Verdict(s: State, limits: Limits, c: Tenant, dedupSize: nat): AdmitResult {
    var slot := SlotFor(s, c);
    if slot.active >= slot.maxConcurrency + slot.maxPending then ClientFull
    else if s.globalActive >= limits.globalMaxPending then GlobalFull
    else if dedupSize >= limits.maxActiveDedupKeys then DedupFull
    else Ok
  }

  function Admitted(s: State, limits: Limits, c: Tenant, dedupSize: nat): State {
    var e := Ensured(s, c);
    if Verdict(s, limits, c, dedupSize) != Ok then e
    else e.(slots := e.slots[c.clientId := e.slots[c.clientId].(active := e.slots[c.clientId].active + 1)],
            globalActive := e.globalActive + 1)
  }

  function Released(s: State, id: string): State {
    var t := s.(globalActive := Minus(s.globalActive, 1));
    if id !in s.slots then t
    else
      var slot := s.slots[id].(active := Minus(s.slots[id].active, 1));
      t.(slots := if slot.retired && slot.active == 0 then s.slots - {id} else s.slots[id := slot])
  }

  /** The admitted count that a scope's counter claims. */
  function Tracked(s: State, scope: string): nat {
    if scope == GLOBAL_SCOPE then s.globalActive
    else if scope in s.slots then s.slots[scope].active
    else 0
  }

  function ReleasedLeaked(s: State, scope: string, count: nat): State {
    if scope == GLOBAL_SCOPE then s.(globalActive := Minus(s.globalActive, count))
    else if scope in s.slots then
      s.(slots := s.slots[scope := s.slots[scope].(active := Minus(s.slots[scope].active, count))])
    else s
  }

  function Actual(byClient: map<string, nat>, id: string): nat {
    if id in byClient then byClient[id] else 0
  }

  /** measureDrift of the clients, as the reconciler keys it: counter minus registered requests. */
  function ClientDrift(s: State, byClient: map<string, nat>): map<string, int> {
    map id | id in s.slots && s.slots[id].active != Actual(byClient, id) ::
      s.slots[id].active - Actual(byClient, id)
  }

  /** All of measureDrift: the shared counter's entry comes last, so it replaces a tenant's of that name. */
  function Drift(s: State, byClient: map<string, nat>, total: nat): map<string, int> {
    var clients := ClientDrift(s, byClient);
    if s.globalActive != total then clients[GLOBAL_SCOPE := s.globalActive - total] else clients
  }

  /** A number of slots to give back; `Math.min()` of no samples is Infinity. */
  datatype Amount = Count(slots: int) | Infinity

  class FairnessManager {
    const limits: Limits
    var slots: map<string, Slot>
    var globalActive: nat
    var nextQueue: nat

    function Value(): State
      reads this
    {
      State(slots, globalActive, nextQueue)
    }

    constructor (tenants: seq<Tenant>, limits: Limits)
      ensures Value() == EnsuredAll(EMPTY_STATE, tenants) && this.limits == limits
    {
      this.limits := limits;
      slots, globalActive, nextQueue := map[], 0, 0;
      new;
      var n := 0;
      while n < |tenants|
        invariant n <= |tenants| && Value() == EnsuredAll(EMPTY_STATE, tenants[..n])
      {
        EnsureSlot(tenants[n]);
        assert tenants[..n + 1][..n] == tenants[..n];
        n := n + 1;
      }
      assert tenants[..n] == tenants;
    }

    method EnsureSlot(c: Tenant)
      modifies this
      ensures Value() == Ensured(old(Value()), c)
    {
      if c.clientId !in slots {
        slots := slots[c.clientId := Slot(Queue(nextQueue, c.maxConcurrency), 0, c.maxConcurrency, c.maxPending, false)];
        nextQueue := nextQueue + 1;
        return;
      }
      var slot := slots[c.clientId];
      if slot.maxConcurrency != c.maxConcurrency {
        slot := slot.(maxConcurrency := c.maxConcurrency, queue := slot.queue.(concurrency := c.maxConcurrency));
      }
      slots := slots[c.clientId := slot.(maxPending := c.maxPending, retired := false)];
    }

    method SyncClients(tenants: seq<Tenant>)
      modifies this
      ensures Value() == Synced(old(Value()), tenants)
    {
      var live: set<string> := {};
      var n := 0;
      while n < |tenants|
        invariant n <= |tenants| && live == Ids(tenants[..n])
        invariant Value() == EnsuredAll(old(Value()), tenants[..n])
      {
        live := live + {tenants[n].clientId};
        EnsureSlot(tenants[n]);
        assert tenants[..n + 1][..n] == tenants[..n];
        assert Ids(tenants[..n + 1]) == Ids(tenants[..n]) + {tenants[n].clientId} by {
          assert tenants[..n + 1][n] == tenants[n];
          assert forall i :: 0 <= i < n ==> tenants[..n + 1][i] == tenants[..n][i];
        }
        n := n + 1;
      }
      assert tenants[..n] == tenants;
      RetireVanished(live);
    }

    /** The second half of syncClients: every slot of a tenant that is not live goes or is retired. */
    method RetireVanished(live: set<string>)
      modifies `slots
      ensures Value() == Retired(old(Value()), live)
    {
      ghost var before, kept := Value(), Retired(Value(), live).slots;
      var todo := slots.Keys;
      while todo != {}
        invariant todo <= before.slots.Keys
        invariant slots.Keys == kept.Keys + todo
        invariant forall id :: id in slots ==> slots[id] == if id in todo then before.slots[id] else kept[id]
        decreases todo
      {
        var id :| id in todo;
        todo := todo - {id};
        if id !in live {
          if slots[id].active == 0 {
            slots := slots - {id};
          } else {
            slots := slots[id := slots[id].(retired := true)];
          }
        }
      }
      assert slots == kept;
    }

    method TryAdmit(client: Tenant, dedupSize: nat) returns (r: AdmitResult)
      modifies this
      ensures r == Verdict(old(Value()), limits, client, dedupSize)
      ensures Value() == Admitted(old(Value()), limits, client, dedupSize)
    {
      EnsureSlot(client);
      var slot := slots[client.clientId];
      if slot.active >= slot.maxConcurrency + slot.maxPending {
        return ClientFull;
      }
      if globalActive >= limits.globalMaxPending {
        return GlobalFull;
      }
      if dedupSize >= limits.maxActiveDedupKeys {
        return DedupFull;
      }
      slots := slots[client.clientId := slot.(active := slot.active + 1)];
      globalActive := globalActive + 1;
      r := Ok;
    }

    method Release(clientId: string)
      modifies this
      ensures Value() == Released(old(Value()), clientId)
    {
      if clientId in slots {
        var slot := slots[clientId];
        slot := slot.(active := Minus(slot.active, 1));
        slots := slots[clientId := slot];
        if slot.retired && slot.active == 0 {
          slots := slots - {clientId};
          assert slots == old(slots) - {clientId};
        }
      }
      globalActive := Minus(globalActive, 1);
    }

    method MeasureDrift(byClient: map<string, nat>, total: nat) returns (drift: map<string, int>)
      ensures drift == Drift(Value(), byClient, total)
    {
      drift := map[];
      var todo := slots.Keys;
      ghost var all := ClientDrift(Value(), byClient);
      while todo != {}
        invariant todo <= slots.Keys && drift == all - todo
        decreases todo
      {
        var id :| id in todo;
        todo := todo - {id};
        var actual := if id in byClient then byClient[id] else 0;
        if slots[id].active != actual {
          drift := drift[id := slots[id].active - actual];
        }
      }
      if globalActive != total {
        drift := drift[GLOBAL_SCOPE := globalActive - total];
      }
    }

    method ReleaseLeaked(scope: string, count: Amount)
      modifies this
      ensures Value() == match count
                         case Infinity => ReleasedLeaked(old(Value()), scope, Tracked(old(Value()), scope))
                         case Count(n) => if n <= 0 then old(Value()) else ReleasedLeaked(old(Value()), scope, n)
    {
      if count.Count? && count.slots <= 0 {
        return;
      }
      if scope == GLOBAL_SCOPE {
        globalActive := Left(globalActive, count);
        return;
      }
      if scope in slots {
        slots := slots[scope := slots[scope].(active := Left(slots[scope].active, count))];
      }
    }

    /** `Math.max(0, active - count)` */
    static function Left(active: nat, count: Amount): nat
      requires count.Count? ==> count.slots > 0
    {
      match count
      case Infinity => 0
      case Count(n) => Minus(active, n)
    }
  }

  /** A sample joins a window of at most `n`. */
  function Slide(samples: seq<int>, sample: int, n: nat): seq<int> {
    if |samples + [sample]| > n then (samples + [sample])[1..] else samples + [sample]
  }

  /** The scope's window after this tick's sample. */
  function Window(history: map<string, seq<int>>, drift: map<string, int>, n: nat, scope: string): seq<int> {
    Slide(if scope in history then history[scope] else [], if scope in drift then drift[scope] else 0, n)
  }

  function Min(samples: seq<int>): int
    requires |samples| > 0
  {
    if |samples| == 1 then samples[0]
    else if samples[0] < Min(samples[1..]) then samples[0]
    else Min(samples[1..])
  }

  /** What a tick gives back for a scope: the smallest excess of a full window, if positive. */
  function Sustained(window: seq<int>, n: nat): nat {
    if |window| < n || |window| == 0 || Min(window) <= 0 then 0 else Min(window)
  }

  /** The history after the scopes `done` were visited. */
  function TickHistory(history: map<string, seq<int>>, drift: map<string, int>, n: nat, done: set<string>): map<string, seq<int>> {
    map scope | scope in history.Keys + done ::
      if scope !in done then history[scope]
      else if Sustained(Window(history, drift, n, scope), n) > 0 then []
      else Window(history, drift, n, scope)
  }

  /**
   What a visited scope is given back: the sustained excess, or, with no window at all, everything,
   because the minimum of no samples is infinite.
   */
  function Due(s: State, history: map<string, seq<int>>, drift: map<string, int>, n: nat, scope: string): nat {
    if n == 0 then Tracked(s, scope) else Sustained(Window(history, drift, n, scope), n)
  }

  /** What each visited scope is given back. */
  function GivenBack(s: State, history: map<string, seq<int>>, drift: map<string, int>, n: nat, done: set<string>): map<string, nat> {
    map scope | scope in done :: Due(s, history, drift, n, scope)
  }

  function AmountOf(given: map<string, nat>, scope: string): nat {
    if scope in given then given[scope] else 0
  }

  /** The tenants' slots after each lost its own amount; the key of the shared counter is not theirs. */
  function SlotsLeft(slots: map<string, Slot>, given: map<string, nat>): map<string, Slot> {
    map id | id in slots ::
      if id == GLOBAL_SCOPE then slots[id]
      else slots[id].(active := Minus(slots[id].active, AmountOf(given, id)))
  }

  /** Every counter loses its own amount. */
  function Subtracted(s: State, given: map<string, nat>): State {
    s.(globalActive := Minus(s.globalActive, AmountOf(given, GLOBAL_SCOPE)), slots := SlotsLeft(s.slots, given))
  }

  lemma SlotsLeftOne(slots: map<string, Slot>, given: map<string, nat>, scope: string, amount: nat)
    requires scope !in given
    ensures var left := SlotsLeft(slots, given);
            SlotsLeft(slots, given[scope := amount]) ==
            if scope == GLOBAL_SCOPE || scope !in slots then left
            else left[scope := left[scope].(active := Minus(left[scope].active, amount))]
  {
    var left, more := SlotsLeft(slots, given), SlotsLeft(slots, given[scope := amount]);
    assert left.Keys == more.Keys == slots.Keys;
    assert AmountOf(given, scope) == 0 && AmountOf(given[scope := amount], scope) == amount;
    assert forall id :: id != scope ==> AmountOf(given[scope := amount], id) == AmountOf(given, id);
    hide AmountOf;
  }

  /** The counters after the scopes `done` were visited. */
  function TickState(s: State, history: map<string, seq<int>>, drift: map<string, int>, n: nat, done: set<string>): State {
    Subtracted(s, GivenBack(s, history, drift, n, done))
  }

  /** Visiting one more scope touches that scope alone, so the order of the visits does not matter. */
  lemma SubtractOne(s: State, given: map<string, nat>, scope: string, amount: nat)
    requires scope !in given
    ensures Subtracted(s, given[scope := amount]) ==
            if amount > 0 then ReleasedLeaked(Subtracted(s, given), scope, amount) else Subtracted(s, given)
  {
    hide SlotsLeft;
    SlotsLeftOne(s.slots, given, scope, amount);
    LeftKeys(s.slots, given);
    if amount == 0 && scope in s.slots && scope != GLOBAL_SCOPE {
      var left := SlotsLeft(s.slots, given);
      assert left[scope := left[scope].(active := Minus(left[scope].active, amount))] == left;
    }
  }

  lemma LeftKeys(slots: map<string, Slot>, given: map<string, nat>)
    ensures SlotsLeft(slots, given).Keys == slots.Keys
  {
  }

  lemma NothingReleased(s: State, scope: string)
    ensures ReleasedLeaked(s, scope, 0) == s
  {
  }

  class FairnessReconciler {
    const sustainTicks: nat
    var history: map<string, seq<int>>

    /** No window is longer than `sustainTicks`. */
    ghost predicate Valid()
      reads this
    {
      forall scope :: scope in history ==> |history[scope]| <= sustainTicks
    }

    constructor (sustainTicks: nat)
      ensures Valid() && this.sustainTicks == sustainTicks && history == map[]
    {
      this.sustainTicks := sustainTicks;
      history := map[];
    }

    /** `Math.min(...samples)` */
    static method Smallest(samples: seq<int>) returns (m: int)
      requires |samples| > 0
      ensures m == Min(samples)
    {
      var n := |samples| - 1;
      m := samples[n];
      while n > 0
        invariant 0 <= n < |samples| && m == Min(samples[n..])
      {
        n := n - 1;
        assert samples[n..][1..] == samples[n + 1..];
        if samples[n] < m {
          m := samples[n];
        }
      }
    }

    /**
     One scope of a tick: its window moves on, and a full positive window is given back and restarted.
     Without a window the scope loses everything it has at the moment.
     */
    method Visit(fairness: FairnessManager, drift: map<string, int>, scope: string)
      requires Valid()
      modifies this, fairness
      ensures Valid()
      ensures var window := Window(old(history), drift, sustainTicks, scope);
              var given := Due(old(fairness.Value()), old(history), drift, sustainTicks, scope);
              && history == old(history)[scope := if Sustained(window, sustainTicks) > 0 then [] else window]
              && fairness.Value() == if given > 0 then ReleasedLeaked(old(fairness.Value()), scope, given)
                                     else old(fairness.Value())
    {
      hide ReleasedLeaked, Tracked, Min;
      NothingReleased(fairness.Value(), scope);
      PushSample(drift, scope);
      var samples := history[scope];
      if |samples| < sustainTicks {
        return;
      }
      var sustained := Infinity;
      if samples != [] {
        var least := Smallest(samples);
        sustained := Count(least);
        if least <= 0 {
          return;
        }
      }
      fairness.ReleaseLeaked(scope, sustained);
      history := history[scope := []];
    }

    /** The sample joins the scope's window, and the oldest leaves it when it is full. */
    method PushSample(drift: map<string, int>, scope: string)
      requires Valid()
      modifies this
      ensures Valid() && history == old(history)[scope := Window(old(history), drift, sustainTicks, scope)]
    {
      var samples := if scope in history then history[scope] else [];
      samples := samples + [if scope in drift then drift[scope] else 0];
      if |samples| > sustainTicks {
        samples := samples[1..];
      }
      history := history[scope := samples];
    }

    method Tick(fairness: FairnessManager, byClient: map<string, nat>, total: nat)
      requires Valid()
      modifies this, fairness
      ensures Valid()
      ensures var drift := Drift(old(fairness.Value()), byClient, total);
              var scopes := old(history).Keys + drift.Keys;
              && history == TickHistory(old(history), drift, sustainTicks, scopes)
              && fairness.Value() == TickState(old(fairness.Value()), old(history), drift, sustainTicks, scopes)
    {
      hide Window, Subtracted, Drift;
      var drift := fairness.MeasureDrift(byClient, total);
      var scopes := history.Keys + drift.Keys;
      var todo := scopes;
      ghost var before, past, done := fairness.Value(), history, {};
      NothingVisited(before, past, drift, sustainTicks);
      while todo != {}
        invariant Valid() && done + todo == scopes && done !! todo
        invariant history == TickHistory(past, drift, sustainTicks, done)
        invariant fairness.Value() == TickState(before, past, drift, sustainTicks, done)
        decreases todo
      {
        var scope :| scope in todo;
        VisitOneHistory(past, drift, sustainTicks, done, scope);
        VisitOneState(before, past, drift, sustainTicks, done, scope);
        Visit(fairness, drift, scope);
        done, todo := done + {scope}, todo - {scope};
      }
      assert done == scopes;
    }
  }

  lemma NothingVisited(s: State, history: map<string, seq<int>>, drift: map<string, int>, n: nat)
    ensures TickHistory(history, drift, n, {}) == history
    ensures TickState(s, history, drift, n, {}) == s
  {
    assert TickState(s, history, drift, n, {}).slots == s.slots;
  }

  lemma VisitOneState(s: State, history: map<string, seq<int>>, drift: map<string, int>, n: nat, done: set<string>, scope: string)
    requires scope !in done
    ensures var t := TickState(s, history, drift, n, done);
            var given := Due(t, TickHistory(history, drift, n, done), drift, n, scope);
            TickState(s, history, drift, n, done + {scope}) == if given > 0 then ReleasedLeaked(t, scope, given) else t
  {
    hide Subtracted;
    var given := GivenBack(s, history, drift, n, done);
    SubtractedElsewhere(s, given, scope);
    WindowUntouched(history, drift, n, done, scope);
    assert GivenBack(s, history, drift, n, done + {scope}) == given[scope := Due(s, history, drift, n, scope)];
    SubtractOne(s, given, scope, Due(s, history, drift, n, scope));
  }

  lemma SubtractedElsewhere(s: State, given: map<string, nat>, scope: string)
    requires scope !in given
    ensures Tracked(Subtracted(s, given), scope) == Tracked(s, scope)
  {
  }

  lemma WindowUntouched(history: map<string, seq<int>>, drift: map<string, int>, n: nat, done: set<string>, scope: string)
    requires scope !in done
    ensures Window(TickHistory(history, drift, n, done), drift, n, scope) == Window(history, drift, n, scope)
  {
    assert scope in TickHistory(history, drift, n, done) <==> scope in history;
  }

  lemma VisitOneHistory(history: map<string, seq<int>>, drift: map<string, int>, n: nat, done: set<string>, scope: string)
    requires scope !in done
    ensures var window := Window(TickHistory(history, drift, n, done), drift, n, scope);
            TickHistory(history, drift, n, done + {scope}) ==
            TickHistory(history, drift, n, done)[scope := if Sustained(window, n) > 0 then [] else window]
  {
    WindowUntouched(history, drift, n, done, scope);
    var window := Window(history, drift, n, scope);
    var after := TickHistory(history, drift, n, done + {scope});
    var update := TickHistory(history, drift, n, done)[scope := if Sustained(window, n) > 0 then [] else window];
    assert after.Keys == update.Keys;
    forall id | id in after
      ensures after[id] == update[id]
    {
    }
  }
}
