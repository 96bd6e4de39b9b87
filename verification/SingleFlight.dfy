/** Joining equal requests under way: ActiveRequests of src/dedup/active-requests.ts. */
module SingleFlight {
  /** Promises are numbered in the order in which the factory made them. */
  datatype Entry = Entry(promise: nat, executionId: string)

  /** One run of the factory. */
  datatype Execution = Execution(key: string, executionId: string, settled: bool)

  datatype Outcome = Tracked(promise: nat, joined: bool, executionId: string) | DedupFull(size: nat)

  /** The map; with it, as history, the runs of the factory and what every caller was given. */
  datatype State = State(entries: map<string, Entry>, executions: seq<Execution>, handed: seq<Outcome>)

  const NEW := State(map[], [], [])

  /** What registerOrJoinTracked answers. */
  function Answer(s: State, cap: nat, key: string, executionId: string): Outcome {
    if key in s.entries then Tracked(s.entries[key].promise, true, s.entries[key].executionId)
    else if |s.entries| >= cap then DedupFull(|s.entries|)
    else Tracked(|s.executions|, false, executionId)
  }

  function Registered(s: State, cap: nat, key: string, executionId: string): State {
    var answer := Answer(s, cap, key, executionId);
    if answer.Tracked? && !answer.joined then
      State(s.entries[key := Entry(|s.executions|, executionId)],
            s.executions + [Execution(key, executionId, false)], s.handed + [answer])
    else s.(handed := s.handed + [answer])
  }

  /** A run of the factory ends, and its callback deletes the key it was registered under. */
  function Settled(s: State, promise: nat): State
    requires promise < |s.executions|
  {
    s.(entries := s.entries - {s.executions[promise].key},
       executions := s.executions[promise := s.executions[promise].(settled := true)])
  }

  class ActiveRequests {
    const cap: nat
    var entries: map<string, Entry>
    /** How often the factory was run. */
    var started: nat
    ghost var history: State

    ghost predicate Valid()
      reads this
    {
      history.entries == entries && |history.executions| == started && Consistent(history, cap)
    }

    constructor (cap: nat)
      ensures Valid() && history == NEW && this.cap == cap
    {
      this.cap := cap;
      entries, started, history := map[], 0, NEW;
    }

    /** registerOrJoinTracked */
    method RegisterOrJoinTracked(key: string, executionId: string) returns (r: Outcome)
      requires Valid()
      modifies this
      ensures Valid() && history == Registered(old(history), cap, key, executionId)
      ensures r == Answer(old(history), cap, key, executionId)
    {
      RegisteringKeepsConsistent(history, cap, key, executionId);
      history := Registered(history, cap, key, executionId);
      if key in entries {
        return Tracked(entries[key].promise, true, entries[key].executionId);
      }
      if |entries| >= cap {
        return DedupFull(|entries|);
      }
      var promise := started;
      started := started + 1;
      entries := entries[key := Entry(promise, executionId)];
      r := Tracked(promise, false, executionId);
    }

    /** The callback of one run: it deletes the entry of that run and of no other. */
    method OnSettled(promise: nat, key: string)
      requires Valid() && promise < |history.executions|
      requires !history.executions[promise].settled && history.executions[promise].key == key
      modifies this
      ensures Valid() && history == Settled(old(history), promise)
      ensures key in old(entries) && old(entries)[key].promise == promise
      ensures forall k :: k != key ==> (k in entries <==> k in old(entries)) && (k in entries ==> entries[k] == old(entries)[k])
    {
      SettlingKeepsConsistent(history, cap, promise);
      history := Settled(history, promise);
      entries := entries - {key};
    }
  }

  /** Entries and unsettled executions are the same thing, each key has at most one, and the cap holds. */
  ghost predicate Consistent(s: State, cap: nat) {
    && |s.entries| <= cap
    && (forall key :: key in s.entries ==> IsUnderWay(s, key, s.entries[key]))
    && (forall p :: 0 <= p < |s.executions| && !s.executions[p].settled ==>
          s.executions[p].key in s.entries && s.entries[s.executions[p].key].promise == p)
  }

  predicate IsUnderWay(s: State, key: string, e: Entry) {
    && e.promise < |s.executions|
    && s.executions[e.promise] == Execution(key, e.executionId, false)
  }

  lemma RegisteringKeepsConsistent(s: State, cap: nat, key: string, executionId: string)
    requires Consistent(s, cap)
    ensures Consistent(Registered(s, cap, key, executionId), cap)
  {
    var t := Registered(s, cap, key, executionId);
    if t.executions != s.executions {
      assert t.entries.Keys == s.entries.Keys + {key};
      forall k | k in t.entries
        ensures IsUnderWay(t, k, t.entries[k])
      {
        if k != key {
          assert IsUnderWay(s, k, s.entries[k]);
        }
      }
    }
  }

  lemma SettlingKeepsConsistent(s: State, cap: nat, promise: nat)
    requires Consistent(s, cap) && promise < |s.executions| && !s.executions[promise].settled
    ensures Consistent(Settled(s, promise), cap)
  {
    var t, key := Settled(s, promise), s.executions[promise].key;
    assert t.entries.Keys == s.entries.Keys - {key};
    forall k | k in t.entries
      ensures IsUnderWay(t, k, t.entries[k])
    {
      assert IsUnderWay(s, k, s.entries[k]);
    }
  }

  datatype Step = Register(key: string, executionId: string) | Settle(promise: nat)

  /** A run settles at most once, and only after it has begun. */
  predicate Enabled(s: State, step: Step) {
    step.Settle? ==> step.promise < |s.executions| && !s.executions[step.promise].settled
  }

  function Next(s: State, cap: nat, step: Step): State
    requires Enabled(s, step)
  {
    match step {
      case Register(key, executionId) => Registered(s, cap, key, executionId)
      case Settle(promise) => Settled(s, promise)
    }
  }

  predicate Possible(s: State, cap: nat, steps: seq<Step>)
    decreases |steps|
  {
    steps != [] ==> Enabled(s, steps[0]) && Possible(Next(s, cap, steps[0]), cap, steps[1..])
  }

  function After(s: State, cap: nat, steps: seq<Step>): State
    requires Possible(s, cap, steps)
    decreases |steps|
  {
    if steps == [] then s else After(Next(s, cap, steps[0]), cap, steps[1..])
  }

  lemma StepKeepsConsistent(s: State, cap: nat, step: Step)
    requires Consistent(s, cap) && Enabled(s, step)
    ensures Consistent(Next(s, cap, step), cap)
  {
    match step {
      case Register(key, executionId) => RegisteringKeepsConsistent(s, cap, key, executionId);
      case Settle(promise) => SettlingKeepsConsistent(s, cap, promise);
    }
  }

  lemma {:induction false} RunKeepsConsistent(s: State, cap: nat, steps: seq<Step>)
    requires Consistent(s, cap) && Possible(s, cap, steps)
    ensures Consistent(After(s, cap, steps), cap)
    decreases |steps|
  {
    if steps != [] {
      StepKeepsConsistent(s, cap, steps[0]);
      RunKeepsConsistent(Next(s, cap, steps[0]), cap, steps[1..]);
    }
  }

  /** Of one key's executions at most one is unsettled, whatever happened. */
  lemma OneFlightPerKey(cap: nat, steps: seq<Step>, p: nat, q: nat)
    requires Possible(NEW, cap, steps)
    requires var s := After(NEW, cap, steps);
             && p < |s.executions| && q < |s.executions| && !s.executions[p].settled && !s.executions[q].settled
             && s.executions[p].key == s.executions[q].key
    ensures p == q
  {
    RunKeepsConsistent(NEW, cap, steps);
  }

  /** No answer in `handed` from `from` on, given for this key, differs from the entry. */
  predicate AllJoin(s: State, cap: nat, steps: seq<Step>, key: string, e: Entry)
    requires Possible(s, cap, steps)
    decreases |steps|
  {
    steps != [] ==>
      && (steps[0].Register? && steps[0].key == key ==>
            Answer(s, cap, key, steps[0].executionId) == Tracked(e.promise, true, e.executionId))
      && AllJoin(Next(s, cap, steps[0]), cap, steps[1..], key, e)
  }

  lemma EntryIsUnderWay(s: State, cap: nat, key: string)
    requires Consistent(s, cap) && key in s.entries
    ensures IsUnderWay(s, key, s.entries[key])
    ensures forall p :: 0 <= p < |s.executions| && !s.executions[p].settled && s.executions[p].key == key ==>
              p == s.entries[key].promise
  {
  }

  /**
   From a registration to its settlement every caller with the key joins it: the same promise and
   the same execution. Nothing else removes the entry, be the map full or not.
   */
  lemma {:induction false} FlightIsShared(s: State, cap: nat, steps: seq<Step>, key: string, e: Entry)
    requires Consistent(s, cap) && Possible(s, cap, steps)
    requires key in s.entries && s.entries[key] == e && Settle(e.promise) !in steps
    ensures AllJoin(s, cap, steps, key, e)
    ensures key in After(s, cap, steps).entries && After(s, cap, steps).entries[key] == e
    decreases |steps|
  {
    hide Consistent;
    if steps != [] {
      StepKeepsConsistent(s, cap, steps[0]);
      assert steps[0] in steps;
      EntryIsUnderWay(s, cap, key);
      FlightIsShared(Next(s, cap, steps[0]), cap, steps[1..], key, e);
    }
  }

  /** Candidate ids are fresh: none was proposed before. */
  predicate FreshIds(steps: seq<Step>) {
    forall i, j :: 0 <= i < j < |steps| && steps[i].Register? && steps[j].Register? ==>
      steps[i].executionId != steps[j].executionId
  }

  function HandedIds(s: State): set<string> {
    set i | 0 <= i < |s.handed| && s.handed[i].Tracked? :: s.handed[i].executionId
  }

  predicate HasRun(executions: seq<Execution>, id: string) {
    exists p :: 0 <= p < |executions| && executions[p].executionId == id
  }

  /** The ids handed out are those of the factory's runs, one for each run, and all were proposed. */
  ghost predicate IdsMatch(executions: seq<Execution>, handed: set<string>, proposed: set<string>) {
    && (forall p, q :: 0 <= p < q < |executions| ==> executions[p].executionId != executions[q].executionId)
    && (forall p :: 0 <= p < |executions| ==> executions[p].executionId in handed * proposed)
    && (forall id :: id in handed ==> HasRun(executions, id))
  }

  function Proposed(steps: seq<Step>): set<string> {
    set i | 0 <= i < |steps| && steps[i].Register? :: steps[i].executionId
  }

  lemma OneMoreAnswer(s: State, cap: nat, key: string, executionId: string)
    ensures var answer := Answer(s, cap, key, executionId);
            HandedIds(Registered(s, cap, key, executionId)) ==
            HandedIds(s) + if answer.Tracked? then {answer.executionId} else {}
  {
    var answer, t := Answer(s, cap, key, executionId), Registered(s, cap, key, executionId);
    assert forall i :: 0 <= i < |s.handed| ==> t.handed[i] == s.handed[i];
    assert t.handed[|s.handed|] == answer;
  }

  lemma OneMoreRun(executions: seq<Execution>, handed: set<string>, proposed: set<string>, x: Execution)
    requires IdsMatch(executions, handed, proposed) && x.executionId !in proposed
    ensures IdsMatch(executions + [x], handed + {x.executionId}, proposed + {x.executionId})
  {
    var more := executions + [x];
    forall id | id in handed + {x.executionId}
      ensures HasRun(more, id)
    {
      if id in handed {
        assert HasRun(executions, id);
        var p :| 0 <= p < |executions| && executions[p].executionId == id;
        assert more[p].executionId == id;
      } else {
        assert more[|executions|].executionId == id;
      }
    }
  }

  lemma MoreProposed(executions: seq<Execution>, handed: set<string>, proposed: set<string>, id: string)
    requires IdsMatch(executions, handed, proposed)
    ensures IdsMatch(executions, handed, proposed + {id})
  {
    hide HasRun;
  }

  lemma JoinedId(s: State, cap: nat, key: string, proposed: set<string>)
    requires Consistent(s, cap) && key in s.entries && IdsMatch(s.executions, HandedIds(s), proposed)
    ensures s.entries[key].executionId in HandedIds(s)
  {
    hide HasRun, HandedIds;
    assert IsUnderWay(s, key, s.entries[key]);
  }

  lemma IdsMatchRegister(s: State, cap: nat, key: string, executionId: string, proposed: set<string>)
    requires Consistent(s, cap) && IdsMatch(s.executions, HandedIds(s), proposed) && executionId !in proposed
    ensures var t := Registered(s, cap, key, executionId);
            IdsMatch(t.executions, HandedIds(t), proposed + {executionId})
  {
    hide HandedIds, Consistent, IdsMatch;
    OneMoreAnswer(s, cap, key, executionId);
    MoreProposed(s.executions, HandedIds(s), proposed, executionId);
    if key in s.entries {
      JoinedId(s, cap, key, proposed);
      assert HandedIds(s) + {s.entries[key].executionId} == HandedIds(s);
    } else if |s.entries| >= cap {
      assert HandedIds(s) + {} == HandedIds(s);
    } else {
      OneMoreRun(s.executions, HandedIds(s), proposed, Execution(key, executionId, false));
    }
  }

  lemma IdsMatchSettle(s: State, promise: nat, proposed: set<string>)
    requires promise < |s.executions| && IdsMatch(s.executions, HandedIds(s), proposed)
    ensures IdsMatch(Settled(s, promise).executions, HandedIds(Settled(s, promise)), proposed)
  {
    var t := Settled(s, promise);
    assert HandedIds(t) == HandedIds(s);
    forall id | id in HandedIds(t)
      ensures HasRun(t.executions, id)
    {
      var p :| 0 <= p < |s.executions| && s.executions[p].executionId == id;
      assert t.executions[p].executionId == id;
    }
  }

  function ProposedBy(step: Step): set<string> {
    if step.Register? then {step.executionId} else {}
  }

  lemma FirstAndRest(steps: seq<Step>)
    requires steps != []
    ensures Proposed(steps) == ProposedBy(steps[0]) + Proposed(steps[1..])
    ensures FreshIds(steps) ==> FreshIds(steps[1..]) && ProposedBy(steps[0]) !! Proposed(steps[1..])
  {
    assert forall i :: 0 <= i < |steps[1..]| ==> steps[1..][i] == steps[i + 1];
    assert forall i :: 1 <= i < |steps| ==> steps[1..][i - 1] == steps[i];
  }

  lemma {:induction false} IdsMatchRun(s: State, cap: nat, steps: seq<Step>, proposed: set<string>)
    requires Consistent(s, cap) && Possible(s, cap, steps) && IdsMatch(s.executions, HandedIds(s), proposed)
    requires FreshIds(steps) && Proposed(steps) !! proposed
    ensures IdsMatch(After(s, cap, steps).executions, HandedIds(After(s, cap, steps)), proposed + Proposed(steps))
    decreases |steps|
  {
    hide Consistent, IdsMatch, FreshIds, Registered, Settled, HandedIds;
    if steps == [] {
      assert proposed + Proposed(steps) == proposed;
    } else {
      hide Proposed;
      FirstAndRest(steps);
      StepKeepsConsistent(s, cap, steps[0]);
      match steps[0] {
        case Register(key, executionId) => IdsMatchRegister(s, cap, key, executionId, proposed);
        case Settle(promise) => IdsMatchSettle(s, promise, proposed);
      }
      assert proposed + {} == proposed;
      IdsMatchRun(Next(s, cap, steps[0]), cap, steps[1..], proposed + ProposedBy(steps[0]));
      assert proposed + ProposedBy(steps[0]) + Proposed(steps[1..]) == proposed + Proposed(steps);
    }
  }

  lemma {:induction false} DistinctIds(xs: seq<Execution>)
    requires forall p, q :: 0 <= p < q < |xs| ==> xs[p].executionId != xs[q].executionId
    ensures |set p | 0 <= p < |xs| :: xs[p].executionId| == |xs|
  {
    if xs != [] {
      var n := |xs| - 1;
      DistinctIds(xs[..n]);
      var before := set p | 0 <= p < |xs[..n]| :: xs[..n][p].executionId;
      assert (set p | 0 <= p < |xs| :: xs[p].executionId) == before + {xs[n].executionId};
    }
  }

  /** Over any interleaving the factory ran as often as distinct execution ids were handed out. */
  lemma RunsAreIds(cap: nat, steps: seq<Step>)
    requires Possible(NEW, cap, steps) && FreshIds(steps)
    ensures |HandedIds(After(NEW, cap, steps))| == |After(NEW, cap, steps).executions|
  {
    IdsMatchRun(NEW, cap, steps, {});
    var s := After(NEW, cap, steps);
    DistinctIds(s.executions);
    assert HandedIds(s) == set p | 0 <= p < |s.executions| :: s.executions[p].executionId by {
      forall id | id in HandedIds(s)
        ensures id in set p | 0 <= p < |s.executions| :: s.executions[p].executionId
      {
        assert HasRun(s.executions, id);
      }
    }
  }
}
