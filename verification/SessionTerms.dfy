/**
 The terms of a session by the clock: what a refresh and an access check answer, told by the moments of
 the login, of the issue of a token and of its use, and not by what the table stores.
 */
module SessionTerms {
  import opened Wrappers
  import opened Sessions
  import opened SessionRuns

  /** A row's terms are those that follow from the record. */
  predicate RowTerms(w: World, cfg: Config, k: string)
    requires k in w.table.rows
  {
    var row := w.table.rows[k];
    && k in w.times.issue && row.familyId in w.times.login
    && row.absoluteExpiresAt == w.times.login[row.familyId] + cfg.absoluteTtl
    && (row.expiresAt == w.times.issue[k] + cfg.refreshTtl || row.expiresAt == row.absoluteExpiresAt)
    && row.expiresAt <= w.times.issue[k] + cfg.refreshTtl && row.expiresAt <= row.absoluteExpiresAt
    && (row.replacedBy.Some? ==> k in w.times.use && row.replacedAt == Some(w.times.use[k]))
  }

  predicate TermsOk(w: World, cfg: Config) {
    && (forall k :: k in w.table.rows ==> RowTerms(w, cfg, k))
    && w.times.issue.Keys <= w.issued && w.times.login.Keys <= w.families.Keys
  }

  /** Rows may go or be revoked, nothing else changes. */
  ghost predicate KeepsTerms(w: World, v: World) {
    && v.times == w.times && v.issued == w.issued && v.families.Keys == w.families.Keys
    && forall k :: k in v.table.rows ==> k in w.table.rows && v.table.rows[k].(revoked := false) == w.table.rows[k].(revoked := false)
  }

  lemma KeptTerms(w: World, v: World, cfg: Config)
    requires TermsOk(w, cfg) && KeepsTerms(w, v)
    ensures TermsOk(v, cfg)
  {
    forall k | k in v.table.rows
      ensures RowTerms(v, cfg, k)
    {
      assert RowTerms(w, cfg, k);
    }
  }

  lemma LoginTerms(w: World, cfg: Config, adminId: nat, familyId: string, token: string, now: int)
    requires TermsOk(w, cfg) && Inv(w) && familyId !in w.families && token !in w.issued
    ensures TermsOk(LoggedIn(w, cfg, adminId, familyId, token, now), cfg)
  {
    var v := LoggedIn(w, cfg, adminId, familyId, token, now);
    hide ChainOk;
    forall k | k in v.table.rows
      ensures RowTerms(v, cfg, k)
    {
      if k != token {
        assert RowTerms(w, cfg, k) && RowOk(w, k);
      }
    }
  }

  lemma RotateTerms(w: World, cfg: Config, presented: string, token: string, now: int)
    requires TermsOk(w, cfg) && Inv(w) && presented in w.table.rows && token !in w.issued
    requires w.table.rows[presented].familyId in w.families
    ensures TermsOk(Rotated(w, cfg, presented, token, now), cfg)
  {
    hide ChainOk;
    var v := Rotated(w, cfg, presented, token, now);
    forall k | k in w.table.rows
      ensures RowOk(w, k) && RowTerms(w, cfg, k) && k != token
    {
    }
    RotatedRows(w, cfg, presented, token, now);
    hide MarkedReplaced, Issued;
    forall k | k in v.table.rows
      ensures RowTerms(v, cfg, k)
    {
    }
  }

  lemma StepTerms(w: World, cfg: Config, step: Step)
    requires TermsOk(w, cfg) && Inv(w)
    ensures TermsOk(Next(w, cfg, step), cfg)
  {
    hide TermsOk, Inv;
    match step {
      case Login(adminId, familyId, token, now) =>
        PurgeKeeps(w, now);
        KeptTerms(w, PurgedWorld(w, now), cfg);
        PurgeOk(w, now);
        if Next(w, cfg, step) != w {
          LoginTerms(PurgedWorld(w, now), cfg, adminId, familyId, token, now);
        }
      case Refresh(presented, token, now) =>
        if Next(w, cfg, step) != w {
          if Outcome(w.table, cfg, w.enabled, presented, now) == Ok {
            RotateTerms(w, cfg, presented, token, now);
          } else {
            KillKeeps(w, w.table.rows[presented].familyId);
            KeptTerms(w, KilledFamily(w, w.table.rows[presented].familyId), cfg);
          }
        }
      case Logout(sid, refresh) =>
        var v := if sid.Some? then KilledFamily(w, sid.value) else w;
        if sid.Some? {
          KillKeeps(w, sid.value);
          KeptTerms(w, v, cfg);
        }
        if refresh.Some? && refresh.value in v.table.rows {
          KillKeeps(v, v.table.rows[refresh.value].familyId);
          KeptTerms(v, KilledFamily(v, v.table.rows[refresh.value].familyId), cfg);
        }
      case _ =>
        OtherKeeps(w, cfg, step);
        KeptTerms(w, Next(w, cfg, step), cfg);
    }
  }

  lemma PurgeKeeps(w: World, now: int)
    ensures KeepsTerms(w, PurgedWorld(w, now))
  {
  }

  lemma KillKeeps(w: World, familyId: string)
    ensures KeepsTerms(w, KilledFamily(w, familyId))
  {
  }

  lemma OtherKeeps(w: World, cfg: Config, step: Step)
    requires step.RevokeAll? || step.Purge? || step.SetEnabled?
    ensures KeepsTerms(w, Next(w, cfg, step))
  {
  }

  lemma {:induction false} RunTerms(cfg: Config, steps: seq<Step>)
    ensures TermsOk(Exec(START, cfg, steps), cfg) && Inv(Exec(START, cfg, steps))
    decreases |steps|
  {
    hide Next, TermsOk, Inv;
    if steps == [] {
      StartTerms(cfg);
    } else {
      RunTerms(cfg, steps[..|steps| - 1]);
      StepTerms(Exec(START, cfg, steps[..|steps| - 1]), cfg, steps[|steps| - 1]);
      StepOk(Exec(START, cfg, steps[..|steps| - 1]), cfg, steps[|steps| - 1]);
    }
  }

  lemma StartTerms(cfg: Config)
    ensures TermsOk(START, cfg) && Inv(START)
  {
  }

  /** The newest token of its family. */
  predicate IsNewest(w: World, f: string, k: string) {
    f in w.families && w.families[f].chain != [] && w.families[f].chain[|w.families[f].chain| - 1] == k
  }

  /**
   What a refresh answers, by the clock, after every run: a family that was ended answers invalid. Of
   any other the newest token succeeds if and only if its admin is enabled, its own term since its issue
   and the family's term since the login are not over; an older token is a conflict as long as the grace
   period since its own use lasts, and a reuse afterwards.
   */
  lemma RefreshByTheClock(cfg: Config, steps: seq<Step>, k: string, now: int)
    requires k in Exec(START, cfg, steps).table.rows
    ensures var w := Exec(START, cfg, steps);
            var f := w.table.rows[k].familyId;
            && f in w.families && f in w.times.login && k in w.times.issue
            && (!IsNewest(w, f, k) ==> k in w.times.use)
            && Outcome(w.table, cfg, w.enabled, k, now) ==
               if w.families[f].dead then Invalid
               else if !IsNewest(w, f, k) then (if now <= w.times.use[k] + cfg.reuseGrace then Conflict else Reuse)
               else if && w.families[f].adminId in w.enabled && now < w.times.issue[k] + cfg.refreshTtl
                       && now < w.times.login[f] + cfg.absoluteTtl then Ok
               else Invalid
  {
    hide Exec;
    var w := Exec(START, cfg, steps);
    RunTerms(cfg, steps);
    RefreshExactly(w, cfg, k, now);
    assert RowTerms(w, cfg, k) && RowOk(w, k);
    hide Inv, ChainOk;
    var row := w.table.rows[k];
    if !IsNewest(w, row.familyId, k) {
      OlderIsReplaced(w, k);
    }
  }

  lemma OlderIsReplaced(w: World, k: string)
    requires Inv(w) && k in w.table.rows && !IsNewest(w, w.table.rows[k].familyId, k)
    ensures w.table.rows[k].replacedBy.Some?
  {
    if w.table.rows[k].replacedBy.None? {
      UnreplacedIsHead(w, k);
    }
  }

  /** An access check passes if and only if the family was not ended, its admin is enabled and its term since the login is not over. */
  lemma AccessByTheClock(cfg: Config, steps: seq<Step>, f: string, adminId: nat, now: int)
    ensures var w := Exec(START, cfg, steps);
            FamilyActive(w.table, w.enabled, f, adminId, now) <==>
            && f in w.families && !w.families[f].dead && !w.families[f].purged
            && w.families[f].adminId == adminId && adminId in w.enabled
            && f in w.times.login && now < w.times.login[f] + cfg.absoluteTtl
  {
    hide Exec;
    var w := Exec(START, cfg, steps);
    RunTerms(cfg, steps);
    ActiveExactly(w, f, adminId, now);
    if f in w.families && !w.families[f].purged {
      HeadTerms(w, cfg, f);
    }
  }

  lemma HeadTerms(w: World, cfg: Config, f: string)
    requires Inv(w) && TermsOk(w, cfg) && f in w.families && !w.families[f].purged
    ensures f in w.times.login && w.families[f].absolute == w.times.login[f] + cfg.absoluteTtl
  {
    var chain := w.families[f].chain;
    assert ChainOk(w.table.rows, f, chain);
    var head := chain[|chain| - 1];
    assert RowOk(w, head) && RowTerms(w, cfg, head);
  }
}
