/**
 The history of the OpenRouter catalogue: `upsertPriceVersions` of src/storage/billing-repo.ts writes a
 version only when the pricing changed. The compact table answers every point-in-time query like the
 log of all snapshots would.
 */
module PriceHistory {
  import opened Wrappers

  /** A version of a model's pricing; the hash stands for the pricing (equal hashes, equal pricing). */
  datatype Version = Version(modelId: string, observedAt: int, pricingHash: string)

  /** The table; a row's id is its position. */
  type Table = seq<Version>

  predicate Hit(v: Version, m: string, ts: Option<int>) {
    v.modelId == m && (ts.None? || v.observedAt <= ts.value)
  }

  /**
   The query `WHERE model_id = m AND observed_at <= ts ORDER BY observed_at DESC, id DESC LIMIT 1`;
   without a bound it is latestPriceVersion.
   */
  function Latest(t: Table, m: string, ts: Option<int>): Option<Version> {
    if t == [] then None
    else
      var last := t[|t| - 1];
      var rest := Latest(t[..|t| - 1], m, ts);
      if Hit(last, m, ts) && (rest.None? || rest.value.observedAt <= last.observedAt) then Some(last) else rest
  }

  /** Row i is a hit, and every other hit was observed earlier, or at the same time with a smaller id. */
  predicate ComesLast(t: Table, m: string, ts: Option<int>, i: nat) {
    && i < |t| && Hit(t[i], m, ts)
    && forall j :: 0 <= j < |t| && Hit(t[j], m, ts) ==>
         t[j].observedAt < t[i].observedAt || (t[j].observedAt == t[i].observedAt && j <= i)
  }

  /** A last row that hits comes last if no earlier hit was observed after it. */
  lemma LastRowComesLast(front: Table, last: Version, m: string, ts: Option<int>)
    requires Hit(last, m, ts)
    requires forall j :: 0 <= j < |front| && Hit(front[j], m, ts) ==> front[j].observedAt <= last.observedAt
    ensures ComesLast(front + [last], m, ts, |front|)
  {
  }

  /** A last row that was observed earlier than a hit, or is none, changes nothing. */
  lemma EarlierRowDoesNot(front: Table, last: Version, m: string, ts: Option<int>, i: nat)
    requires ComesLast(front, m, ts, i) && (Hit(last, m, ts) ==> last.observedAt < front[i].observedAt)
    ensures ComesLast(front + [last], m, ts, i)
  {
  }

  /** The query finds the last hit, and nothing exactly when there is no hit. */
  lemma {:induction false} LatestMeaning(t: Table, m: string, ts: Option<int>)
    ensures var r := Latest(t, m, ts);
            && (r.Some? ==> exists i: nat :: ComesLast(t, m, ts, i) && t[i] == r.value)
            && (r.None? ==> forall j :: 0 <= j < |t| ==> !Hit(t[j], m, ts))
  {
    if t != [] {
      var front, last := t[..|t| - 1], t[|t| - 1];
      LatestMeaning(front, m, ts);
      assert t == front + [last];
      var rest := Latest(front, m, ts);
      if rest.Some? {
        var i: nat :| ComesLast(front, m, ts, i) && front[i] == rest.value;
        if Hit(last, m, ts) && rest.value.observedAt <= last.observedAt {
          LastRowComesLast(front, last, m, ts);
        } else {
          hide Hit;
          EarlierRowDoesNot(front, last, m, ts, i);
          assert t[i] == front[i];
        }
      } else if Hit(last, m, ts) {
        LastRowComesLast(front, last, m, ts);
      }
    }
  }

  /** A row is written unless the model's latest version has the same hash. */
  function Upserted(t: Table, row: Version): Table {
    var latest := Latest(t, row.modelId, None);
    if latest.Some? && latest.value.pricingHash == row.pricingHash then t else t + [row]
  }

  function UpsertedAll(t: Table, rows: seq<Version>): Table {
    if rows == [] then t else Upserted(UpsertedAll(t, rows[..|rows| - 1]), rows[|rows| - 1])
  }

  class BillingRepo {
    var versions: Table

    constructor ()
      ensures versions == []
    {
      versions := [];
    }

    method LatestPriceVersion(m: string) returns (r: Option<Version>)
      ensures r == Latest(versions, m, None)
    {
      r := Query(m, None);
    }

    method PriceVersionAt(m: string, ts: int) returns (r: Option<Version>)
      ensures r == Latest(versions, m, Some(ts))
    {
      r := Query(m, Some(ts));
    }

    method Query(m: string, ts: Option<int>) returns (r: Option<Version>)
      ensures r == Latest(versions, m, ts)
    {
      r := None;
      var n := 0;
      while n < |versions|
        invariant n <= |versions| && r == Latest(versions[..n], m, ts)
      {
        assert versions[..n + 1][..n] == versions[..n];
        var row := versions[n];
        if Hit(row, m, ts) && (r.None? || r.value.observedAt <= row.observedAt) {
          r := Some(row);
        }
        n := n + 1;
      }
      assert versions[..n] == versions;
    }

    /** The transaction over one batch; returns the number of versions written. */
    method UpsertPriceVersions(rows: seq<Version>) returns (written: nat)
      modifies this
      ensures versions == UpsertedAll(old(versions), rows)
      ensures |versions| == |old(versions)| + written
    {
      written := 0;
      var n := 0;
      while n < |rows|
        invariant n <= |rows| && versions == UpsertedAll(old(versions), rows[..n])
        invariant |versions| == |old(versions)| + written
      {
        assert rows[..n + 1][..n] == rows[..n];
        var latest := LatestPriceVersion(rows[n].modelId);
        if !(latest.Some? && latest.value.pricingHash == rows[n].pricingHash) {
          versions := versions + [rows[n]];
          written := written + 1;
        }
        n := n + 1;
      }
      assert rows[..n] == rows;
    }
  }

  /** Of each model no row was observed before an earlier one; rows of one sync share its time. */
  predicate Chronological(rows: seq<Version>) {
    forall i, j :: 0 <= i <= j < |rows| && rows[i].modelId == rows[j].modelId ==> rows[i].observedAt <= rows[j].observedAt
  }

  /** No row of the model is later. */
  predicate Happened(t: Table, m: string, now: int) {
    forall i :: 0 <= i < |t| && t[i].modelId == m ==> t[i].observedAt <= now
  }

  function HashOf(v: Option<Version>): Option<string> {
    if v.Some? then Some(v.value.pricingHash) else None
  }

  lemma {:induction false} LatestAppend(t: Table, row: Version, m: string, ts: Option<int>)
    ensures var rest := Latest(t, m, ts);
            Latest(t + [row], m, ts) ==
            if Hit(row, m, ts) && (rest.None? || rest.value.observedAt <= row.observedAt) then Some(row) else rest
  {
    assert (t + [row])[..|t|] == t;
  }

  lemma {:induction false} LatestHappened(t: Table, m: string, ts: Option<int>, now: int)
    requires Happened(t, m, now)
    ensures Latest(t, m, ts).Some? ==> Latest(t, m, ts).value.observedAt <= now && Latest(t, m, ts).value.modelId == m
    ensures ts.Some? && ts.value >= now ==> Latest(t, m, ts) == Latest(t, m, None)
  {
    if t != [] {
      LatestHappened(t[..|t| - 1], m, ts, now);
    }
  }

  /** The compact table answers every point-in-time query like the log. */
  ghost predicate SameAnswers(compact: Table, log: Table) {
    forall m, ts :: HashOf(Latest(compact, m, Some(ts))) == HashOf(Latest(log, m, Some(ts)))
  }

  /** The model was observed after `at` and by `ts`. */
  predicate SeenBetween(t: Table, m: string, at: int, ts: int) {
    exists i :: 0 <= i < |t| && t[i].modelId == m && at < t[i].observedAt <= ts
  }

  /** Nothing was seen between: the answers are the same. */
  lemma {:induction false} AnswerStays(t: Table, m: string, at: int, ts: int)
    requires at <= ts && !SeenBetween(t, m, at, ts)
    ensures Latest(t, m, Some(ts)) == Latest(t, m, Some(at))
  {
    if t != [] {
      var front := t[..|t| - 1];
      forall i | 0 <= i < |front|
        ensures !(front[i].modelId == m && at < front[i].observedAt <= ts)
      {
        assert front[i] == t[i];
      }
      AnswerStays(front, m, at, ts);
    }
  }

  /** Something was seen between: the answer is as late. */
  lemma SeenIsLater(t: Table, m: string, at: int, ts: int)
    ensures SeenBetween(t, m, at, ts) <==> Latest(t, m, Some(ts)).Some? && Latest(t, m, Some(ts)).value.observedAt > at
  {
    LatestMeaning(t, m, Some(ts));
    if i :| 0 <= i < |t| && t[i].modelId == m && at < t[i].observedAt <= ts {
      assert Hit(t[i], m, Some(ts));
    }
  }

  /** An answer with one more row: the row if it was observed by then and nothing of its model was seen since. */
  lemma AnswerWith(t: Table, row: Version, m: string, ts: int)
    ensures Latest(t + [row], m, Some(ts)) ==
            if row.modelId == m && row.observedAt <= ts && !SeenBetween(t, m, row.observedAt, ts) then Some(row)
            else Latest(t, m, Some(ts))
  {
    LatestAppend(t, row, m, Some(ts));
    SeenIsLater(t, m, row.observedAt, ts);
  }

  predicate Skipped(compact: Table, row: Version) {
    HashOf(Latest(compact, row.modelId, None)) == Some(row.pricingHash)
  }

  /** Every observation of the row's model in the log after the row comes with or after a stored one. */
  predicate NothingSeenSince(compact: Table, log: Table, row: Version) {
    forall i :: 0 <= i < |log| && log[i].modelId == row.modelId && log[i].observedAt > row.observedAt ==>
      SeenBetween(compact, row.modelId, row.observedAt, log[i].observedAt)
  }

  /**
   The row may be synced: at its own time the table has its pricing already, or it is written and no
   observation that was skipped confirms another pricing after it.
   */
  predicate Fits(compact: Table, log: Table, row: Version) {
    || HashOf(Latest(compact, row.modelId, Some(row.observedAt))) == Some(row.pricingHash)
    || (!Skipped(compact, row) && NothingSeenSince(compact, log, row))
  }

  /** Every row of the table is one of the log. */
  predicate Within(compact: Table, log: Table) {
    forall i :: 0 <= i < |compact| ==> compact[i] in log
  }

  lemma SeenInLog(compact: Table, log: Table, m: string, at: int, ts: int)
    requires Within(compact, log) && SeenBetween(compact, m, at, ts)
    ensures SeenBetween(log, m, at, ts)
  {
    var i :| 0 <= i < |compact| && compact[i].modelId == m && at < compact[i].observedAt <= ts;
    var j :| 0 <= j < |log| && log[j] == compact[i];
  }

  lemma SeenSince(compact: Table, log: Table, row: Version, ts: int)
    requires NothingSeenSince(compact, log, row) && SeenBetween(log, row.modelId, row.observedAt, ts)
    ensures SeenBetween(compact, row.modelId, row.observedAt, ts)
  {
    var i :| 0 <= i < |log| && log[i].modelId == row.modelId && row.observedAt < log[i].observedAt <= ts;
    var j :| 0 <= j < |compact| && compact[j].modelId == row.modelId && row.observedAt < compact[j].observedAt <= log[i].observedAt;
  }

  /** One point in time at which a row that fits changes both answers alike. */
  lemma FittingRowKeepsAnswer(compact: Table, log: Table, row: Version, m: string, ts: int)
    requires SameAnswers(compact, log) && Within(compact, log) && Fits(compact, log, row)
    ensures HashOf(Latest(Upserted(compact, row), m, Some(ts))) == HashOf(Latest(log + [row], m, Some(ts)))
  {
    var at := row.observedAt;
    AnswerWith(compact, row, m, ts);
    AnswerWith(log, row, m, ts);
    assert HashOf(Latest(compact, m, Some(ts))) == HashOf(Latest(log, m, Some(ts)));
    if m == row.modelId && at <= ts {
      if SeenBetween(compact, m, at, ts) {
        SeenInLog(compact, log, m, at, ts);
      } else {
        AnswerStays(compact, m, at, ts);
        if !Skipped(compact, row) && NothingSeenSince(compact, log, row) && SeenBetween(log, m, at, ts) {
          SeenSince(compact, log, row, ts);
        }
      }
    }
  }

  /** A row that does not fit is lost at its own time, or hides a pricing that was confirmed after it. */
  lemma UnfitRowLosesAnswer(compact: Table, log: Table, row: Version)
    requires SameAnswers(compact, log) && !Fits(compact, log, row)
    ensures exists ts :: HashOf(Latest(Upserted(compact, row), row.modelId, Some(ts))) != HashOf(Latest(log + [row], row.modelId, Some(ts)))
  {
    var m, at := row.modelId, row.observedAt;
    if Skipped(compact, row) {
      AnswerWith(log, row, m, at);
      assert HashOf(Latest(compact, m, Some(at))) != HashOf(Latest(log + [row], m, Some(at)));
    } else {
      var i :| 0 <= i < |log| && log[i].modelId == m && log[i].observedAt > at && !SeenBetween(compact, m, at, log[i].observedAt);
      var ts := log[i].observedAt;
      AnswerWith(log, row, m, ts);
      AnswerWith(compact, row, m, ts);
      AnswerStays(compact, m, at, ts);
      assert HashOf(Latest(compact, m, Some(ts))) == HashOf(Latest(log, m, Some(ts)));
      assert HashOf(Latest(compact + [row], m, Some(ts))) != HashOf(Latest(log + [row], m, Some(ts)));
    }
  }

  /** A sync keeps every point-in-time answer that of the log if and only if the row fits, whatever its time. */
  lemma SyncKeepsAnswersExactly(compact: Table, log: Table, row: Version)
    requires SameAnswers(compact, log) && Within(compact, log)
    ensures SameAnswers(Upserted(compact, row), log + [row]) <==> Fits(compact, log, row)
  {
    hide Fits, Upserted, Within;
    if Fits(compact, log, row) {
      forall m, ts
        ensures HashOf(Latest(Upserted(compact, row), m, Some(ts))) == HashOf(Latest(log + [row], m, Some(ts)))
      {
        FittingRowKeepsAnswer(compact, log, row, m, ts);
      }
    } else {
      UnfitRowLosesAnswer(compact, log, row);
    }
  }
  lemma {:induction false} UpsertedWithin(log: seq<Version>)
    ensures Within(UpsertedAll([], log), log)
  {
    if log != [] {
      UpsertedWithin(log[..|log| - 1]);
    }
  }

  /** The table is right after every sync of the log. */
  ghost predicate AlwaysAgrees(log: seq<Version>) {
    forall n :: 0 <= n <= |log| ==> SameAnswers(UpsertedAll([], log[..n]), log[..n])
  }

  /** Every row fits when its turn comes. */
  predicate AllFit(log: seq<Version>) {
    forall n :: 0 <= n < |log| ==> Fits(UpsertedAll([], log[..n]), log[..n], log[n])
  }

  /**
   For every log, in whatever order: after each sync every point-in-time query is answered as by the
   log of all snapshots if and only if every row fits when its turn comes.
   */
  lemma AgreesExactly(log: seq<Version>)
    ensures AlwaysAgrees(log) <==> AllFit(log)
  {
    hide Fits, SameAnswers;
    if AllFit(log) {
      forall n | 0 <= n <= |log|
        ensures SameAnswers(UpsertedAll([], log[..n]), log[..n])
      {
        FittingRowsAgree(log, n);
      }
    } else if AlwaysAgrees(log) {
      var n :| 0 <= n < |log| && !Fits(UpsertedAll([], log[..n]), log[..n], log[n]);
      assert SameAnswers(UpsertedAll([], log[..n]), log[..n]) && SameAnswers(UpsertedAll([], log[..n + 1]), log[..n + 1]);
      OneMoreSync(log, n);
    }
  }

  lemma OneMoreSync(log: seq<Version>, n: nat)
    requires n < |log| && SameAnswers(UpsertedAll([], log[..n]), log[..n])
    ensures SameAnswers(UpsertedAll([], log[..n + 1]), log[..n + 1]) <==> Fits(UpsertedAll([], log[..n]), log[..n], log[n])
  {
    hide Fits, SameAnswers, Upserted, Within;
    UpsertedWithin(log[..n]);
    SyncKeepsAnswersExactly(UpsertedAll([], log[..n]), log[..n], log[n]);
    assert log[..n + 1] == log[..n] + [log[n]] && log[..n + 1][..n] == log[..n];
  }

  lemma {:induction false} FittingRowsAgree(log: seq<Version>, n: nat)
    requires n <= |log| && AllFit(log)
    ensures SameAnswers(UpsertedAll([], log[..n]), log[..n])
  {
    if n > 0 {
      FittingRowsAgree(log, n - 1);
      OneMoreSync(log, n - 1);
    }
  }

  /** In chronological order every row fits. */
  lemma ChronologicalFits(log: seq<Version>, n: nat)
    requires Chronological(log) && n < |log|
    ensures Fits(UpsertedAll([], log[..n]), log[..n], log[n])
  {
    var compact, row := UpsertedAll([], log[..n]), log[n];
    UpsertedHappened(log[..n], row.modelId, row.observedAt);
    LatestHappened(compact, row.modelId, Some(row.observedAt), row.observedAt);
  }

  lemma UpsertedHappened(log: seq<Version>, m: string, now: int)
    requires Happened(log, m, now)
    ensures Happened(UpsertedAll([], log), m, now)
  {
    UpsertedWithin(log);
  }

  /** A moment by which all versions of the model were observed. */
  lemma {:induction false} LastMoment(t: Table, m: string) returns (now: int)
    ensures Happened(t, m, now)
  {
    now := 0;
    if t != [] {
      now := LastMoment(t[..|t| - 1], m);
      if t[|t| - 1].observedAt > now {
        now := t[|t| - 1].observedAt;
      }
    }
  }

  /**
   Compacting loses nothing: for all syncs that are chronological for each model, every point-in-time
   query, and that for the latest version, finds the pricing that the log of all snapshots would give.
   */
  lemma CompactionLosesNothing(log: seq<Version>, m: string, ts: Option<int>)
    requires Chronological(log)
    ensures HashOf(Latest(UpsertedAll([], log), m, ts)) == HashOf(Latest(log, m, ts))
  {
    forall n | 0 <= n < |log|
      ensures Fits(UpsertedAll([], log[..n]), log[..n], log[n])
    {
      ChronologicalFits(log, n);
    }
    hide Fits;
    FittingRowsAgree(log, |log|);
    assert log[..|log|] == log;
    var now := LastMoment(log, m);
    UpsertedHappened(log, m, now);
    LatestHappened(log, m, Some(now), now);
    LatestHappened(UpsertedAll([], log), m, Some(now), now);
    var at := if ts.Some? then ts.value else now;
    assert HashOf(Latest(UpsertedAll([], log), m, Some(at))) == HashOf(Latest(log, m, Some(at)));
  }

  /** Batches one after the other are one long batch. */
  lemma {:induction false} BatchesCompose(t: Table, a: seq<Version>, b: seq<Version>)
    ensures UpsertedAll(UpsertedAll(t, a), b) == UpsertedAll(t, a + b)
    decreases |b|
  {
    if b == [] {
      assert a + b == a;
    } else {
      assert (a + b)[..|a + b| - 1] == a + b[..|b| - 1];
      BatchesCompose(t, a, b[..|b| - 1]);
    }
  }

  /** The versions of one model, in id order. */
  function Of(t: Table, m: string): seq<Version> {
    if t == [] then []
    else Of(t[..|t| - 1], m) + if t[|t| - 1].modelId == m then [t[|t| - 1]] else []
  }

  lemma {:induction false} LatestIsLast(t: Table, m: string)
    requires Chronological(t)
    ensures Latest(t, m, None) == if Of(t, m) == [] then None else Some(Of(t, m)[|Of(t, m)| - 1])
  {
    if t != [] {
      var front := t[..|t| - 1];
      LatestIsLast(front, m);
      if t[|t| - 1].modelId == m {
        LatestHappened(front, m, None, t[|t| - 1].observedAt);
      }
    }
  }

  lemma {:induction false} UpsertedChronological(log: seq<Version>)
    requires Chronological(log)
    ensures Chronological(UpsertedAll([], log))
  {
    if log != [] {
      var front, last := log[..|log| - 1], log[|log| - 1];
      UpsertedChronological(front);
      UpsertedHappened(front, last.modelId, last.observedAt);
    }
  }

  predicate NoRepeats(vs: seq<Version>) {
    forall i :: 0 < i < |vs| ==> vs[i].pricingHash != vs[i - 1].pricingHash
  }

  lemma OfAppend(t: Table, row: Version, m: string)
    ensures Of(t + [row], m) == Of(t, m) + if row.modelId == m then [row] else []
  {
    assert (t + [row])[..|t|] == t;
  }

  /** No two consecutive versions of a model have the same pricing. */
  lemma {:induction false} NoRepeatedVersions(log: seq<Version>, m: string)
    requires Chronological(log)
    ensures NoRepeats(Of(UpsertedAll([], log), m))
  {
    if log != [] {
      var front := log[..|log| - 1];
      var row := log[|log| - 1];
      var t := UpsertedAll([], front);
      NoRepeatedVersions(front, m);
      UpsertedChronological(front);
      LatestIsLast(t, row.modelId);
      OfAppend(t, row, m);
      assert Of(t, m) + [] == Of(t, m);
    }
  }

  /** With a clock that runs backwards a version can be lost: a repeated price seen earlier than the stored one. */
  lemma BackwardClockLosesAVersion(m: string, hash: string, ts: int)
    ensures var log := [Version(m, ts + 1, hash), Version(m, ts, hash)];
            Latest(UpsertedAll([], log), m, Some(ts)) == None && Latest(log, m, Some(ts)).Some?
  {
    var a, b := Version(m, ts + 1, hash), Version(m, ts, hash);
    LatestAppend([], a, m, None);
    LatestAppend([], a, m, Some(ts));
    LatestAppend([a], b, m, Some(ts));
    assert [] + [a] == [a] && [a] + [b] == [a, b];
    assert [a, b][..1] == [a] && [a][..0] == [];
    assert UpsertedAll([], [a]) == Upserted(UpsertedAll([], [a][..0]), a);
  }
}
