/**
 Progress of the leak repair of src/concurrency/reconcile.ts: what was lost is given back. Nothing is
 assumed of the counters or of earlier ticks; where live requests' slots were taken, it still holds.
 */
module LeakProgress {
  import opened Fairness
  import opened LeakRepair

  function TickCount(steps: seq<Step>): nat {
    if steps == [] then 0
    else TickCount(steps[..|steps| - 1]) + if steps[|steps| - 1].Tick? then 1 else 0
  }

  /** At no tick of the run is a request of the scope registered that no longer holds its slot. */
  predicate LateFree(w: World, limits: Limits, n: nat, steps: seq<Step>, scope: string) {
    forall i :: 0 <= i < |steps| && steps[i].Tick? ==> NoLateRegistration(Exec(w, limits, n, steps[..i]), scope)
  }

  predicate LastAtLeast(samples: seq<int>, c: nat, d: int) {
    c <= |samples| && forall k :: |samples| - c <= k < |samples| ==> samples[k] >= d
  }

  /**
   After `c` ticks with `d` slots still to give back: either no repair happened yet and the last `c`
   samples show them all, or one happened within the first n - 1 ticks and the window restarted.
   */
  predicate Converging(samples: seq<int>, n: nat, c: nat, d: int) {
    || d <= 0
    || (c < n && LastAtLeast(samples, c, d))
    || (|samples| < n && c < n + |samples| && LastAtLeast(samples, |samples|, d))
  }

  lemma ConvergingTick(samples: seq<int>, sample: int, n: nat, c: nat, d: int)
    requires n > 0 && |samples| <= n && d > 0 && sample >= d && Converging(samples, n, c, d)
    ensures var window := Slide(samples, sample, n);
            var given := Sustained(window, n);
            Converging(if given > 0 then [] else window, n, c + 1, d - given)
  {
    var window := Slide(samples, sample, n);
    if c < n && LastAtLeast(samples, c, d) {
      assert forall k :: 0 <= k < |window| - 1 ==> window[k] == samples[k + |samples| - (|window| - 1)];
      assert LastAtLeast(window, c + 1, d);
    } else {
      assert LastAtLeast(window, |window|, d);
    }
    if |window| == n && LastAtLeast(window, n, d) {
      MinIsAnElement(window, 0);
      assert Min(window) >= d;
    }
  }

  /** What is left of `owed` slots, and how far the scope's window is from giving them back. */
  ghost predicate OnTheWay(w: World, n: nat, scope: string, owed: int, c: nat) {
    && Named(w) && |Past(w, scope)| <= n
    && Lost(w, scope) >= owed
    && Converging(Past(w, scope), n, c, owed - Given(w, scope))
  }

  /** A tick that owes something sees at least what it owes. */
  lemma TickOnTheWay(w: World, n: nat, scope: string, owed: int, c: nat)
    requires n > 0 && NoLateRegistration(w, scope) && OnTheWay(w, n, scope, owed, c)
    ensures OnTheWay(Ticked(w, n), n, scope, owed, c + 1)
  {
    hide Ticked, Named, Lost, Given, NoLateRegistration, Sustained;
    var d := owed - Given(w, scope);
    TickMoves(w, n, scope);
    if d > 0 {
      LateFreeSample(w, scope);
      SampledIsVisited(w, scope);
      ConvergingTick(Past(w, scope), Sample(w, scope), n, c, d);
    }
  }

  lemma SampledIsVisited(w: World, scope: string)
    requires Sample(w, scope) > 0
    ensures Visited(w, scope)
  {
  }

  lemma MoveOnTheWay(w: World, v: World, n: nat, scope: string, owed: int, c: nat)
    requires Moves(w, v, scope) && OnTheWay(w, n, scope, owed, c)
    ensures OnTheWay(v, n, scope, owed, c)
  {
    hide Named, Lost, Given, LastAtLeast;
  }

  lemma StepOnTheWay(w: World, limits: Limits, n: nat, step: Step, scope: string, owed: int, c: nat)
    requires StepNamed(step) && n > 0 && OnTheWay(w, n, scope, owed, c)
    requires step.Tick? ==> NoLateRegistration(w, scope)
    ensures OnTheWay(Next(w, limits, n, step), n, scope, owed, c + if step.Tick? then 1 else 0)
  {
    hide Moves, NoLateRegistration, Converging, Lost, Given, TickState, TickHistory;
    if step.Tick? {
      TickOnTheWay(w, n, scope, owed, c);
    } else {
      StepMoves(w, limits, n, step, scope);
      MoveOnTheWay(w, Next(w, limits, n, step), n, scope, owed, c);
    }
  }

  lemma LateFreePrefix(w: World, limits: Limits, n: nat, steps: seq<Step>, scope: string)
    requires steps != [] && LateFree(w, limits, n, steps, scope)
    ensures LateFree(w, limits, n, steps[..|steps| - 1], scope)
    ensures steps[|steps| - 1].Tick? ==> NoLateRegistration(Exec(w, limits, n, steps[..|steps| - 1]), scope)
  {
    var front := steps[..|steps| - 1];
    forall i | 0 <= i < |front| && front[i].Tick?
      ensures NoLateRegistration(Exec(w, limits, n, front[..i]), scope)
    {
      assert front[..i] == steps[..i];
    }
  }

  lemma {:induction false} RunOnTheWay(w: World, limits: Limits, n: nat, steps: seq<Step>, scope: string)
    requires Named(w) && |Past(w, scope)| <= n && StepsNamed(steps) && n > 0 && LateFree(w, limits, n, steps, scope)
    ensures OnTheWay(Exec(w, limits, n, steps), n, scope, Lost(w, scope), TickCount(steps))
    decreases |steps|
  {
    hide Next, Named, Lost, Given, NoLateRegistration;
    if steps != [] {
      var front := steps[..|steps| - 1];
      LateFreePrefix(w, limits, n, steps, scope);
      RunOnTheWay(w, limits, n, front, scope);
      StepOnTheWay(Exec(w, limits, n, front), limits, n, steps[|front|], scope, Lost(w, scope), TickCount(front));
    }
  }

  /**
   Progress, scope by scope: over any run with 2n - 1 ticks at which nothing of the scope is registered
   after its release, every slot lost before the run has been given back.
   */
  lemma LeaksAreGivenBack(w: World, limits: Limits, n: nat, steps: seq<Step>, scope: string)
    requires Named(w) && |Past(w, scope)| <= n && StepsNamed(steps) && n > 0
    requires LateFree(w, limits, n, steps, scope) && TickCount(steps) >= 2 * n - 1
    ensures Given(Exec(w, limits, n, steps), scope) >= Lost(w, scope)
    ensures Given(Exec(w, limits, n, steps), scope) - Given(w, scope) >= Leak(w, scope)
  {
    hide Exec, LateFree, Lost, Given;
    RunOnTheWay(w, limits, n, steps, scope);
  }

  /** Every run from the start is one to which this applies: names and window lengths are kept by every step. */
  lemma {:induction false} RunNamed(tenants: seq<Tenant>, limits: Limits, n: nat, steps: seq<Step>, scope: string)
    requires Distinct(tenants) && StepsNamed(steps) && n > 0
    ensures var w := Exec(Init(tenants), limits, n, steps);
            Named(w) && |Past(w, scope)| <= n
    decreases |steps|
  {
    hide Next, Named;
    if steps == [] {
      InitOk(tenants, n, scope);
    } else {
      RunNamed(tenants, limits, n, steps[..|steps| - 1], scope);
      StepNames(Exec(Init(tenants), limits, n, steps[..|steps| - 1]), limits, n, steps[|steps| - 1], scope);
    }
  }

  lemma StepNames(w: World, limits: Limits, n: nat, step: Step, scope: string)
    requires Named(w) && |Past(w, scope)| <= n && StepNamed(step) && n > 0
    ensures Named(Next(w, limits, n, step)) && |Past(Next(w, limits, n, step), scope)| <= n
  {
    hide Named, Ticked, Lost, Given, Sustained;
    if step.Tick? {
      TickMoves(w, n, scope);
    } else {
      StepMoves(w, limits, n, step, scope);
    }
  }

  /** In any run, the slots lost by some moment are given back with 2n - 1 more ticks free of late registrations. */
  lemma LostBecomesGiven(tenants: seq<Tenant>, limits: Limits, n: nat, before: seq<Step>, steps: seq<Step>, scope: string)
    requires Distinct(tenants) && StepsNamed(before) && StepsNamed(steps) && n > 0
    requires LateFree(Exec(Init(tenants), limits, n, before), limits, n, steps, scope) && TickCount(steps) >= 2 * n - 1
    ensures var w := Exec(Init(tenants), limits, n, before);
            Given(Exec(w, limits, n, steps), scope) >= Lost(w, scope)
  {
    hide Exec, LateFree, Lost, Given;
    RunNamed(tenants, limits, n, before, scope);
    LeaksAreGivenBack(Exec(Init(tenants), limits, n, before), limits, n, steps, scope);
  }
}
