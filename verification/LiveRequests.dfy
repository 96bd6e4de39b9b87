/**
 The registry of live requests, src/concurrency/active-metrics.ts: its admitted counts are the
 reference that the admission counters are compared with.
 */
module LiveRequests {
  datatype LiveRequest = LiveRequest(clientId: string, admitted: bool)

  /** The registered requests that hold a slot of the client. */
  function AdmittedOf(active: map<nat, LiveRequest>, clientId: string): set<nat> {
    set id | id in active && active[id].admitted && active[id].clientId == clientId
  }

  function AllAdmitted(active: map<nat, LiveRequest>): set<nat> {
    set id | id in active && active[id].admitted
  }

  function Clients(active: map<nat, LiveRequest>): set<string> {
    set id | id in active && active[id].admitted :: active[id].clientId
  }

  /** The counts by client; a client without admitted requests has no entry. */
  function Counts(active: map<nat, LiveRequest>): map<string, nat> {
    map c | c in Clients(active) :: |AdmittedOf(active, c)|
  }

  class ActiveMetrics {
    var active: map<nat, LiveRequest>

    constructor ()
      ensures active == map[]
    {
      active := map[];
    }

    method Register(liveId: nat, clientId: string, admitted: bool)
      modifies this
      ensures active == old(active)[liveId := LiveRequest(clientId, admitted)]
    {
      active := active[liveId := LiveRequest(clientId, admitted)];
    }

    method Unregister(liveId: nat)
      modifies this
      ensures active == old(active) - {liveId}
    {
      active := active - {liveId};
    }

    method CountAdmittedByClient() returns (counts: map<string, nat>)
      ensures counts == Counts(active)
    {
      counts := map[];
      var todo, done := active.Keys, map[];
      while todo != {}
        invariant todo <= active.Keys && done == active - todo
        invariant counts == Counts(done)
        decreases todo
      {
        var id :| id in todo;
        todo := todo - {id};
        ghost var before := done;
        done := done[id := active[id]];
        assert done == active - todo;
        CountOneMore(before, id, active[id]);
        if active[id].admitted {
          var c := active[id].clientId;
          counts := counts[c := (if c in counts then counts[c] else 0) + 1];
        }
      }
      assert done == active;
    }

    method CountAdmittedTotal() returns (n: nat)
      ensures n == |AllAdmitted(active)|
    {
      n := 0;
      var todo := active.Keys;
      ghost var counted: set<nat> := {};
      while todo != {}
        invariant todo <= active.Keys && n == |counted|
        invariant counted == set id | id in AllAdmitted(active) && id !in todo
        decreases todo
      {
        var id :| id in todo;
        todo := todo - {id};
        if active[id].admitted {
          counted := counted + {id};
          n := n + 1;
        }
      }
      assert counted == AllAdmitted(active);
    }
  }

  lemma AdmittedOneMore(active: map<nat, LiveRequest>, id: nat, r: LiveRequest, c: string)
    requires id !in active
    ensures |AdmittedOf(active[id := r], c)| == |AdmittedOf(active, c)| + if r.admitted && c == r.clientId then 1 else 0
  {
    assert AdmittedOf(active[id := r], c) == AdmittedOf(active, c) + if r.admitted && c == r.clientId then {id} else {};
  }

  lemma ClientsOneMore(active: map<nat, LiveRequest>, id: nat, r: LiveRequest)
    requires id !in active
    ensures Clients(active[id := r]) == Clients(active) + if r.admitted then {r.clientId} else {}
  {
    var more := active[id := r];
    if r.admitted {
      assert more[id].clientId == r.clientId;
    }
    forall c | c in Clients(active)
      ensures c in Clients(more)
    {
      var i :| i in active && active[i].admitted && active[i].clientId == c;
      assert more[i].clientId == c;
    }
  }

  lemma NoneAdmitted(active: map<nat, LiveRequest>, c: string)
    ensures c !in Clients(active) ==> AdmittedOf(active, c) == {}
  {
  }

  /** One more entry raises the count of its client by one, if it was admitted. */
  lemma CountOneMore(active: map<nat, LiveRequest>, id: nat, r: LiveRequest)
    requires id !in active
    ensures Counts(active[id := r]) ==
            if !r.admitted then Counts(active)
            else Counts(active)[r.clientId := (if r.clientId in Counts(active) then Counts(active)[r.clientId] else 0) + 1]
  {
    ClientsOneMore(active, id, r);
    var after := Counts(active[id := r]);
    var expected := if !r.admitted then Counts(active)
      else Counts(active)[r.clientId := (if r.clientId in Counts(active) then Counts(active)[r.clientId] else 0) + 1];
    hide Clients;
    assert after.Keys == expected.Keys;
    forall c | c in after
      ensures after[c] == expected[c]
    {
      AdmittedOneMore(active, id, r, c);
      NoneAdmitted(active, c);
      hide AdmittedOf;
    }
  }
}
