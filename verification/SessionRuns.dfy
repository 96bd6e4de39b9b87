/**
 Whole runs of logins, refreshes, logouts, revocations and purges. The world records beside the table
 what happened to every family; the table is proved to agree with that record.
 */
module SessionRuns {
  import opened Wrappers
  import opened Sessions

  /**
   The record of a family: its admin, its absolute expiry, whether it was revoked, whether it was
   purged, and its refresh tokens in the order they were issued.
   */
  datatype Family = Family(adminId: nat, absolute: int, dead: bool, purged: bool, chain: seq<string>)

  /** When each family's login was, when each token was issued, and when it was used with success. */
  datatype Times = Times(login: map<string, int>, issue: map<string, int>, use: map<string, int>)

  /** `used`: the tokens whose refresh succeeded; `issued`: all refresh tokens ever issued. */
  datatype World = World(table: Table, enabled: set<nat>, families: map<string, Family>, used: set<string>, issued: set<string>,
                         times: Times)

  datatype Step =
    | Login(adminId: nat, familyId: string, token: string, now: int)
    | Refresh(presented: string, token: string, now: int)
    | Logout(sid: Option<string>, refresh: Option<string>)
    | RevokeAll(adminId: nat)
    | Purge(now: int)
    | SetEnabled(admins: set<nat>)

  const START: World := World(Table(map[], 0), {}, map[], {}, {}, Times(map[], map[], map[]))

  function Killed(families: map<string, Family>, familyId: string): map<string, Family> {
    if familyId in families then families[familyId := families[familyId].(dead := true)] else families
  }

  function KilledOf(families: map<string, Family>, adminId: nat): map<string, Family> {
    map f | f in families :: if families[f].adminId == adminId then families[f].(dead := true) else families[f]
  }

  function PurgedOf(families: map<string, Family>, now: int): map<string, Family> {
    map f | f in families :: if families[f].absolute < now then families[f].(purged := true) else families[f]
  }

  function PurgedWorld(w: World, now: int): World {
    w.(table := Purged(w.table, now), families := PurgedOf(w.families, now))
  }

  function LoggedIn(w: World, cfg: Config, adminId: nat, familyId: string, token: string, now: int): World {
    w.(table := Issued(w.table, cfg, token, adminId, familyId, None, now),
       families := w.families[familyId := Family(adminId, now + cfg.absoluteTtl, false, false, [token])],
       issued := w.issued + {token},
       times := w.times.(login := w.times.login[familyId := now], issue := w.times.issue[token := now]))
  }

  function FamilyOf(w: World, token: string): Option<string> {
    if token in w.table.rows then Some(w.table.rows[token].familyId) else None
  }

  function KilledFamily(w: World, familyId: string): World {
    w.(table := RevokedFamily(w.table, familyId), families := Killed(w.families, familyId))
  }

  function Rotated(w: World, cfg: Config, presented: string, token: string, now: int): World
    requires presented in w.table.rows && w.table.rows[presented].familyId in w.families
  {
    var row := w.table.rows[presented];
    var family := w.families[row.familyId];
    w.(table := MarkedReplaced(Issued(w.table, cfg, token, row.adminId, row.familyId, Some(row.absoluteExpiresAt), now),
                               row.id, w.table.nextId, now),
       families := w.families[row.familyId := family.(chain := family.chain + [token])],
       used := w.used + {presented}, issued := w.issued + {token},
       times := w.times.(issue := w.times.issue[token := now], use := w.times.use[presented := now]))
  }

  /** A login needs an enabled admin; a login or rotation with a token or family seen before is not taken. */
  function Next(w: World, cfg: Config, step: Step): World {
    match step
    case Login(adminId, familyId, token, now) =>
      if adminId !in w.enabled || familyId in w.families || token in w.issued then w
      else LoggedIn(PurgedWorld(w, now), cfg, adminId, familyId, token, now)
    case Refresh(presented, token, now) =>
      if presented !in w.table.rows || w.table.rows[presented].revoked || token in w.issued
         || w.table.rows[presented].familyId !in w.families then w
      else (
        match Outcome(w.table, cfg, w.enabled, presented, now)
        case Ok => Rotated(w, cfg, presented, token, now)
        case Conflict => w
        case _ => KilledFamily(w, w.table.rows[presented].familyId)
      )
    case Logout(sid, refresh) =>
      var v := if sid.Some? then KilledFamily(w, sid.value) else w;
      if refresh.Some? && refresh.value in v.table.rows then KilledFamily(v, v.table.rows[refresh.value].familyId) else v
    case RevokeAll(adminId) => w.(table := RevokedAdmin(w.table, adminId), families := KilledOf(w.families, adminId))
    case Purge(now) => PurgedWorld(w, now)
    case SetEnabled(admins) => w.(enabled := admins)
  }

  function Exec(w: World, cfg: Config, steps: seq<Step>): World {
    if steps == [] then w else Next(Exec(w, cfg, steps[..|steps| - 1]), cfg, steps[|steps| - 1])
  }

  lemma OneMoreStep(w: World, cfg: Config, steps: seq<Step>, step: Step)
    ensures Exec(w, cfg, []) == w && Exec(w, cfg, steps + [step]) == Next(Exec(w, cfg, steps), cfg, step)
  {
    hide Next;
    assert (steps + [step])[..|steps|] == steps;
  }

  /** A row belongs to a recorded family and shares its admin, its absolute expiry and its fate. */
  predicate RowOk(w: World, k: string)
    requires k in w.table.rows
  {
    var row := w.table.rows[k];
    && row.id < w.table.nextId && k in w.issued
    && row.familyId in w.families
    && var family := w.families[row.familyId];
       && !family.purged && k in family.chain
       && row.adminId == family.adminId && row.absoluteExpiresAt == family.absolute
       && row.expiresAt <= row.absoluteExpiresAt && row.revoked == family.dead
  }

  /** The rows of a family are one chain of replacements; only its last row is unreplaced. */
  predicate ChainOk(rows: map<string, Row>, f: string, chain: seq<string>) {
    && |chain| > 0
    && (forall i, j :: 0 <= i < j < |chain| ==> chain[i] != chain[j])
    && (forall i :: 0 <= i < |chain| ==> chain[i] in rows && rows[chain[i]].familyId == f)
    && (forall i :: 0 <= i < |chain| - 1 ==> rows[chain[i]].replacedBy == Some(rows[chain[i + 1]].id))
    && rows[chain[|chain| - 1]].replacedBy == None
  }

  predicate IdsDistinct(rows: map<string, Row>) {
    forall k, l :: k in rows && l in rows && rows[k].id == rows[l].id ==> k == l
  }

  predicate Inv(w: World) {
    && IdsDistinct(w.table.rows)
    && (forall k :: k in w.table.rows ==> RowOk(w, k))
    && (forall f :: f in w.families && !w.families[f].purged ==> ChainOk(w.table.rows, f, w.families[f].chain))
    && (forall k :: k in w.used ==> k in w.issued && (k in w.table.rows ==> w.table.rows[k].replacedBy.Some?))
  }

  /** Same id, family and replacement. */
  predicate SameLinks(a: Row, b: Row) {
    a.id == b.id && a.familyId == b.familyId && a.replacedBy == b.replacedBy
  }

  lemma ChainFrame(before: map<string, Row>, after: map<string, Row>, f: string, chain: seq<string>)
    requires ChainOk(before, f, chain)
    requires forall i :: 0 <= i < |chain| ==> chain[i] in after && SameLinks(after[chain[i]], before[chain[i]])
    ensures ChainOk(after, f, chain)
  {
  }

  /** The table lost rows only with whole families and the links of the others are as before. */
  ghost predicate Frames(w: World, v: World) {
    && v.used == w.used && v.issued == w.issued && v.families.Keys == w.families.Keys
    && (forall k :: k in v.table.rows ==> k in w.table.rows && SameLinks(v.table.rows[k], w.table.rows[k]))
    && (forall f :: f in v.families ==>
          v.families[f].chain == w.families[f].chain && (w.families[f].purged ==> v.families[f].purged))
    && (forall f :: f in v.families && !v.families[f].purged ==>
          forall k :: k in w.table.rows && w.table.rows[k].familyId == f ==> k in v.table.rows)
  }

  lemma FramesOk(w: World, v: World)
    requires Inv(w) && Frames(w, v)
    requires forall k :: k in v.table.rows ==> RowOk(v, k)
    ensures Inv(v)
  {
    hide RowOk;
    forall f | f in v.families && !v.families[f].purged
      ensures ChainOk(v.table.rows, f, v.families[f].chain)
    {
      ChainFrame(w.table.rows, v.table.rows, f, v.families[f].chain);
    }
  }

  lemma PurgeOk(w: World, now: int)
    requires Inv(w)
    ensures Inv(PurgedWorld(w, now))
  {
    hide ChainOk;
    var v := PurgedWorld(w, now);
    forall k | k in w.table.rows
      ensures k in v.table.rows ==> RowOk(v, k)
      ensures k !in v.table.rows ==> v.families[w.table.rows[k].familyId].purged
    {
      assert RowOk(w, k);
    }
    FramesOk(w, v);
  }

  lemma KilledRows(w: World, familyId: string)
    requires forall k :: k in w.table.rows ==> RowOk(w, k)
    ensures var v := KilledFamily(w, familyId);
            forall k :: k in v.table.rows ==> RowOk(v, k)
  {
    var v := KilledFamily(w, familyId);
    forall k | k in v.table.rows
      ensures RowOk(v, k)
    {
      assert RowOk(w, k);
    }
  }

  lemma KillFrames(w: World, familyId: string)
    requires Inv(w)
    ensures Frames(w, KilledFamily(w, familyId))
  {
    hide ChainOk, RowOk;
  }

  lemma KillOk(w: World, familyId: string)
    requires Inv(w)
    ensures Inv(KilledFamily(w, familyId))
  {
    hide ChainOk;
    var v := KilledFamily(w, familyId);
    hide RowOk;
    KilledRows(w, familyId);
    KillFrames(w, familyId);
    hide Frames, KilledFamily;
    FramesOk(w, v);
  }

  lemma RevokeAllOk(w: World, adminId: nat)
    requires Inv(w)
    ensures Inv(w.(table := RevokedAdmin(w.table, adminId), families := KilledOf(w.families, adminId)))
  {
    hide ChainOk;
    var v := w.(table := RevokedAdmin(w.table, adminId), families := KilledOf(w.families, adminId));
    forall k | k in v.table.rows
      ensures RowOk(v, k)
    {
      assert RowOk(w, k);
    }
    FramesOk(w, v);
  }

  lemma LoginOk(w: World, cfg: Config, adminId: nat, familyId: string, token: string, now: int)
    requires Inv(w) && familyId !in w.families && token !in w.issued
    ensures Inv(LoggedIn(w, cfg, adminId, familyId, token, now))
  {
    hide ChainOk;
    var v := LoggedIn(w, cfg, adminId, familyId, token, now);
    forall k | k in v.table.rows
      ensures RowOk(v, k) && (k != token ==> k in w.table.rows && RowOk(w, k))
    {
      if k != token {
        assert RowOk(w, k);
      }
    }
    hide RowOk;
    forall f | f in v.families && !v.families[f].purged
      ensures ChainOk(v.table.rows, f, v.families[f].chain)
    {
      LoginChain(w.table.rows, v.table.rows, familyId, token, f, v.families[f].chain);
    }
  }

  lemma LoginChain(before: map<string, Row>, after: map<string, Row>, familyId: string, token: string, f: string, chain: seq<string>)
    requires token !in before && token in after && after == before[token := after[token]]
    requires after[token].familyId == familyId && after[token].replacedBy.None?
    requires if f == familyId then chain == [token] else ChainOk(before, f, chain)
    ensures ChainOk(after, f, chain)
  {
  }

  lemma InnerIsReplaced(rows: map<string, Row>, f: string, chain: seq<string>, i: nat)
    requires ChainOk(rows, f, chain) && i < |chain|
    ensures i < |chain| - 1 ==> rows[chain[i]].replacedBy == Some(rows[chain[i + 1]].id)
  {
  }

  /** An unreplaced row is the last of its family's chain. */
  lemma UnreplacedIsHead(w: World, k: string)
    requires Inv(w) && k in w.table.rows && w.table.rows[k].replacedBy.None?
    ensures w.table.rows[k].familyId in w.families
    ensures var chain := w.families[w.table.rows[k].familyId].chain;
            |chain| > 0 && chain[|chain| - 1] == k
  {
    assert RowOk(w, k);
    var f := w.table.rows[k].familyId;
    var chain := w.families[f].chain;
    assert ChainOk(w.table.rows, f, chain);
    var i :| 0 <= i < |chain| && chain[i] == k;
    InnerIsReplaced(w.table.rows, f, chain, i);
  }

  /** The rows after a rotation: the presented row is replaced, the new row is added. */
  lemma RotatedRows(w: World, cfg: Config, presented: string, token: string, now: int)
    requires IdsDistinct(w.table.rows) && presented in w.table.rows && token !in w.table.rows
    requires forall k :: k in w.table.rows ==> w.table.rows[k].id < w.table.nextId
    requires w.table.rows[presented].familyId in w.families
    ensures var v := Rotated(w, cfg, presented, token, now);
            var row := w.table.rows[presented];
            v.table.rows == w.table.rows[presented := row.(replacedBy := Some(w.table.nextId), replacedAt := Some(now))]
                                        [token := Row(w.table.nextId, row.adminId, row.familyId,
                                                      Earlier(now + cfg.refreshTtl, row.absoluteExpiresAt),
                                                      row.absoluteExpiresAt, false, None, None)]
  {
  }

  lemma ChainGrows(before: map<string, Row>, after: map<string, Row>, f: string, chain: seq<string>, token: string)
    requires ChainOk(before, f, chain) && token !in before && token in after
    requires after[token].familyId == f && after[token].replacedBy == None
    requires var last := chain[|chain| - 1];
             last in after && after[last].familyId == f && after[last].id == before[last].id
             && after[last].replacedBy == Some(after[token].id)
    requires forall i :: 0 <= i < |chain| - 1 ==> chain[i] in after && after[chain[i]] == before[chain[i]]
    ensures ChainOk(after, f, chain + [token])
  {
  }

  lemma RotateOk(w: World, cfg: Config, presented: string, token: string, now: int)
    requires Inv(w) && presented in w.table.rows && w.table.rows[presented].replacedBy.None?
    requires !w.table.rows[presented].revoked && token !in w.issued
    ensures w.table.rows[presented].familyId in w.families
    ensures Inv(Rotated(w, cfg, presented, token, now))
  {
    hide ChainOk, Rotated;
    UnreplacedIsHead(w, presented);
    forall k | k in w.table.rows
      ensures RowOk(w, k) && k != token && w.table.rows[k].id < w.table.nextId
    {
      assert RowOk(w, k);
    }
    RotatedRows(w, cfg, presented, token, now);
    RotatedRest(w, cfg, presented, token, now);
    RotatedChains(w, Rotated(w, cfg, presented, token, now), presented, token);
  }

  lemma RotatedRest(w: World, cfg: Config, presented: string, token: string, now: int)
    requires presented in w.table.rows && w.table.rows[presented].familyId in w.families
    ensures var v := Rotated(w, cfg, presented, token, now);
            var f := w.table.rows[presented].familyId;
            && v.families == w.families[f := w.families[f].(chain := w.families[f].chain + [token])]
            && v.table.nextId == w.table.nextId + 1
            && v.used == w.used + {presented} && v.issued == w.issued + {token}
  {
  }

  lemma RotatedChains(w: World, v: World, presented: string, token: string)
    requires presented in w.table.rows && token !in w.table.rows && presented in v.table.rows && token in v.table.rows
    requires var f := w.table.rows[presented].familyId;
             && f in w.families && !w.families[f].purged && |w.families[f].chain| > 0
             && w.families[f].chain[|w.families[f].chain| - 1] == presented
             && v.families == w.families[f := w.families[f].(chain := w.families[f].chain + [token])]
             && v.table.rows[token].familyId == f == v.table.rows[presented].familyId
             && v.table.rows[token].replacedBy == None
             && v.table.rows[presented].id == w.table.rows[presented].id
             && v.table.rows[presented].replacedBy == Some(v.table.rows[token].id)
    requires forall k :: k in w.table.rows && k != presented ==> k in v.table.rows && v.table.rows[k] == w.table.rows[k]
    requires forall g :: g in w.families && !w.families[g].purged ==> ChainOk(w.table.rows, g, w.families[g].chain)
    ensures forall g :: g in v.families && !v.families[g].purged ==> ChainOk(v.table.rows, g, v.families[g].chain)
  {
    var f := w.table.rows[presented].familyId;
    forall g | g in v.families && !v.families[g].purged
      ensures ChainOk(v.table.rows, g, v.families[g].chain)
    {
      var chain := w.families[g].chain;
      assert ChainOk(w.table.rows, g, chain);
      if g == f {
        ChainGrows(w.table.rows, v.table.rows, f, chain, token);
      } else {
        assert forall i :: 0 <= i < |chain| ==> chain[i] != presented;
        ChainFrame(w.table.rows, v.table.rows, g, chain);
      }
    }
  }

  lemma StepOk(w: World, cfg: Config, step: Step)
    requires Inv(w)
    ensures Inv(Next(w, cfg, step))
  {
    hide Inv, RowOk, ChainOk;
    match step {
      case Login(adminId, familyId, token, now) =>
        if Next(w, cfg, step) != w {
          PurgeOk(w, now);
          LoginOk(PurgedWorld(w, now), cfg, adminId, familyId, token, now);
        }
      case Refresh(presented, token, now) =>
        if Next(w, cfg, step) != w {
          if Outcome(w.table, cfg, w.enabled, presented, now) == Ok {
            RotateOk(w, cfg, presented, token, now);
          } else {
            KillOk(w, w.table.rows[presented].familyId);
          }
        }
      case Logout(sid, refresh) =>
        var v := if sid.Some? then KilledFamily(w, sid.value) else w;
        if sid.Some? {
          KillOk(w, sid.value);
        }
        if refresh.Some? && refresh.value in v.table.rows {
          KillOk(v, v.table.rows[refresh.value].familyId);
        }
      case RevokeAll(adminId) => RevokeAllOk(w, adminId);
      case Purge(now) => PurgeOk(w, now);
      case SetEnabled(admins) => EnabledDoesNotMatter(w, admins);
    }
  }

  lemma EnabledDoesNotMatter(w: World, admins: set<nat>)
    requires Inv(w)
    ensures Inv(w.(enabled := admins))
  {
    hide ChainOk;
    var v := w.(enabled := admins);
    forall k | k in v.table.rows
      ensures RowOk(v, k)
    {
      assert RowOk(w, k);
    }
    FramesOk(w, v);
  }

  lemma {:induction false} RunOk(w: World, cfg: Config, steps: seq<Step>)
    requires Inv(w)
    ensures Inv(Exec(w, cfg, steps))
    decreases |steps|
  {
    hide Next, Inv;
    if steps != [] {
      RunOk(w, cfg, steps[..|steps| - 1]);
      StepOk(Exec(w, cfg, steps[..|steps| - 1]), cfg, steps[|steps| - 1]);
    }
  }

  /** The unreplaced rows of a family. */
  function Heads(t: Table, f: string): set<string> {
    set k | k in t.rows && t.rows[k].familyId == f && t.rows[k].replacedBy.None?
  }

  /**
   In every reachable table a family with any row has exactly one unreplaced row, and all its rows
   have one admin, one absolute expiry, and are all revoked or all unrevoked.
   */
  lemma FamiliesAreWhole(cfg: Config, steps: seq<Step>, k: string, l: string)
    requires var rows := Exec(START, cfg, steps).table.rows;
             k in rows && l in rows && rows[k].familyId == rows[l].familyId
    ensures var t := Exec(START, cfg, steps).table;
            && |Heads(t, t.rows[k].familyId)| == 1
            && t.rows[k].adminId == t.rows[l].adminId
            && t.rows[k].absoluteExpiresAt == t.rows[l].absoluteExpiresAt
            && t.rows[k].revoked == t.rows[l].revoked
  {
    RunOk(START, cfg, steps);
    var w := Exec(START, cfg, steps);
    assert RowOk(w, k) && RowOk(w, l);
    OneHead(w, w.table.rows[k].familyId);
  }

  lemma OneHead(w: World, f: string)
    requires Inv(w) && f in w.families && !w.families[f].purged
    ensures |w.families[f].chain| > 0
    ensures Heads(w.table, f) == {w.families[f].chain[|w.families[f].chain| - 1]}
  {
    var chain := w.families[f].chain;
    assert ChainOk(w.table.rows, f, chain);
    forall k | k in Heads(w.table, f)
      ensures k == chain[|chain| - 1]
    {
      UnreplacedIsHead(w, k);
    }
  }

  /**
   The chain of replacements is single: from the first token of a family every row leads to the next
   one that was issued, up to the head.
   */
  lemma OneChain(cfg: Config, steps: seq<Step>, f: string)
    requires var w := Exec(START, cfg, steps); f in w.families && !w.families[f].purged
    ensures var w := Exec(START, cfg, steps);
            && ChainOk(w.table.rows, f, w.families[f].chain)
            && forall k :: k in w.families[f].chain <==> k in w.table.rows && w.table.rows[k].familyId == f
  {
    RunOk(START, cfg, steps);
    var w := Exec(START, cfg, steps);
    forall k | k in w.table.rows && w.table.rows[k].familyId == f
      ensures k in w.families[f].chain
    {
      assert RowOk(w, k);
    }
    assert ChainOk(w.table.rows, f, w.families[f].chain);
  }

  /** isFamilyActive says exactly: not revoked, not purged, the admin enabled, the absolute term not over. */
  lemma ActiveExactly(w: World, f: string, adminId: nat, now: int)
    requires Inv(w)
    ensures FamilyActive(w.table, w.enabled, f, adminId, now) <==>
            && f in w.families && !w.families[f].dead && !w.families[f].purged
            && w.families[f].adminId == adminId && adminId in w.enabled && now < w.families[f].absolute
  {
    if FamilyActive(w.table, w.enabled, f, adminId, now) {
      var k :| k in w.table.rows && w.table.rows[k].familyId == f && w.table.rows[k].adminId == adminId
        && !w.table.rows[k].revoked && w.table.rows[k].replacedBy.None? && w.table.rows[k].absoluteExpiresAt > now;
      assert RowOk(w, k);
    } else if f in w.families && !w.families[f].purged {
      OneHead(w, f);
      var head := w.families[f].chain[|w.families[f].chain| - 1];
      assert head in Heads(w.table, f);
      assert RowOk(w, head);
    }
  }

  /** The step is taken: a login needs an enabled admin, and random ids and tokens never repeat. */
  predicate Taken(w: World, step: Step) {
    match step
    case Login(adminId, familyId, token, _) => adminId in w.enabled && familyId !in w.families && token !in w.issued
    case Refresh(_, token, _) => token !in w.issued
    case _ => true
  }

  /** The steps of a run change the table as the session service's methods do. */
  lemma StepsAreTheService(w: World, cfg: Config, step: Step)
    requires Inv(w) && Taken(w, step)
    ensures Next(w, cfg, step).table ==
            match step
            case Login(adminId, familyId, token, now) => Issued(Purged(w.table, now), cfg, token, adminId, familyId, None, now)
            case Refresh(presented, token, now) => Refreshed(w.table, cfg, w.enabled, presented, token, now)
            case Logout(sid, refresh) => LoggedOut(w.table, sid, refresh)
            case RevokeAll(adminId) => RevokedAdmin(w.table, adminId)
            case Purge(now) => Purged(w.table, now)
            case SetEnabled(_) => w.table
  {
    hide ChainOk, RevokedFamily, Issued, MarkedReplaced, Purged, RevokedAdmin;
    if step.Refresh? && step.presented in w.table.rows {
      assert RowOk(w, step.presented);
    }
  }

  /** What no step forgets: used tokens, and each family's admin, end, death and purge. */
  predicate Remembers(w: World, v: World) {
    && w.used <= v.used
    && (forall f :: f in w.families ==>
          && f in v.families
          && v.families[f].adminId == w.families[f].adminId && v.families[f].absolute == w.families[f].absolute
          && (w.families[f].dead ==> v.families[f].dead) && (w.families[f].purged ==> v.families[f].purged))
  }

  lemma KillRemembers(w: World, familyId: string)
    ensures Remembers(w, KilledFamily(w, familyId))
  {
  }

  lemma PurgeRemembers(w: World, now: int)
    ensures Remembers(w, PurgedWorld(w, now))
  {
  }

  lemma StepRemembers(w: World, cfg: Config, step: Step)
    ensures Remembers(w, Next(w, cfg, step))
  {
    hide KilledFamily, PurgedWorld, Outcome;
    match step {
      case Login(_, _, _, now) => PurgeRemembers(w, now);
      case Refresh(presented, _, _) =>
        if presented in w.table.rows {
          KillRemembers(w, w.table.rows[presented].familyId);
        }
      case Logout(sid, refresh) =>
        if sid.Some? {
          KillRemembers(w, sid.value);
        }
        var v := if sid.Some? then KilledFamily(w, sid.value) else w;
        if refresh.Some? && refresh.value in v.table.rows {
          KillRemembers(v, v.table.rows[refresh.value].familyId);
        }
      case Purge(now) => PurgeRemembers(w, now);
      case _ =>
    }
  }

  lemma {:induction false} RunRemembers(w: World, cfg: Config, steps: seq<Step>, f: string)
    ensures var v := Exec(w, cfg, steps);
            && w.used <= v.used
            && (f in w.families ==>
                 && f in v.families
                 && v.families[f].adminId == w.families[f].adminId && v.families[f].absolute == w.families[f].absolute
                 && (w.families[f].dead ==> v.families[f].dead) && (w.families[f].purged ==> v.families[f].purged))
    decreases |steps|
  {
    hide Next;
    if steps != [] {
      RunRemembers(w, cfg, steps[..|steps| - 1], f);
      StepRemembers(Exec(w, cfg, steps[..|steps| - 1]), cfg, steps[|steps| - 1]);
    }
  }

  /** The steps that end a family: a reuse outside the grace window, an expired refresh, a logout, a revocation. */
  predicate Ends(w: World, cfg: Config, step: Step, f: string) {
    match step
    case Refresh(presented, token, now) =>
      && FamilyOf(w, presented) == Some(f) && !w.table.rows[presented].revoked && token !in w.issued
      && Outcome(w.table, cfg, w.enabled, presented, now) in {Reuse, Invalid}
    case Logout(sid, refresh) => sid == Some(f) || (refresh.Some? && FamilyOf(w, refresh.value) == Some(f))
    case RevokeAll(adminId) => f in w.families && w.families[f].adminId == adminId
    case Purge(now) => f in w.families && w.families[f].absolute < now
    case _ => false
  }

  lemma EndsFamily(w: World, cfg: Config, step: Step, f: string)
    requires Inv(w) && f in w.families && Ends(w, cfg, step, f)
    ensures f in Next(w, cfg, step).families
    ensures Next(w, cfg, step).families[f].dead || Next(w, cfg, step).families[f].purged
  {
    hide ChainOk, KilledFamily, Outcome;
    match step {
      case Refresh(presented, _, _) =>
        assert RowOk(w, presented);
        KillEnds(w, f);
      case Logout(sid, refresh) =>
        LogoutEnds(w, cfg, sid, refresh, f);
      case _ =>
    }
  }

  /** Nothing else ends a family: it is revoked only by these steps, and purged only after its term. */
  lemma OnlyTheseEnd(w: World, cfg: Config, step: Step, f: string)
    requires Inv(w) && f in w.families && !Ends(w, cfg, step, f)
    ensures f in Next(w, cfg, step).families
    ensures Next(w, cfg, step).families[f].dead == w.families[f].dead
    ensures Next(w, cfg, step).families[f].purged && !w.families[f].purged ==> step.Login? && w.families[f].absolute < step.now
  {
    hide ChainOk, Outcome, RevokedFamily, Purged, MarkedReplaced, Issued;
    if step.Logout? && step.sid.Some? {
      KillEnds(w, step.sid.value);
    }
  }

  lemma KillEnds(w: World, f: string)
    ensures var v := KilledFamily(w, f);
            && v.families.Keys == w.families.Keys && (f in w.families ==> v.families[f].dead)
            && (forall k :: FamilyOf(v, k) == FamilyOf(w, k))
  {
  }

  lemma LogoutEnds(w: World, cfg: Config, sid: Option<string>, refresh: Option<string>, f: string)
    requires f in w.families && Ends(w, cfg, Logout(sid, refresh), f)
    ensures f in Next(w, cfg, Logout(sid, refresh)).families && Next(w, cfg, Logout(sid, refresh)).families[f].dead
  {
    hide KilledFamily;
    var v := if sid.Some? then KilledFamily(w, sid.value) else w;
    if sid.Some? {
      KillEnds(w, sid.value);
      KillRemembers(w, sid.value);
    }
    if refresh.Some? && refresh.value in v.table.rows {
      KillEnds(v, v.table.rows[refresh.value].familyId);
      KillRemembers(v, v.table.rows[refresh.value].familyId);
    }
    assert refresh.Some? ==> FamilyOf(v, refresh.value) == FamilyOf(w, refresh.value);
  }

  /** A family that was ended is never active again, whatever follows, at any time, for any admin. */
  lemma EndedForever(w: World, cfg: Config, step: Step, later: seq<Step>, f: string, adminId: nat, now: int)
    requires Inv(w) && f in w.families && Ends(w, cfg, step, f)
    ensures var v := Exec(Next(w, cfg, step), cfg, later);
            !FamilyActive(v.table, v.enabled, f, adminId, now)
  {
    hide Next, Inv;
    var v := Next(w, cfg, step);
    EndsFamily(w, cfg, step, f);
    StepOk(w, cfg, step);
    RunOk(v, cfg, later);
    RunRemembers(v, cfg, later, f);
    ActiveExactly(Exec(v, cfg, later), f, adminId, now);
  }

  /** The refresh is taken and succeeds. */
  predicate Succeeds(w: World, cfg: Config, presented: string, token: string, now: int) {
    && Outcome(w.table, cfg, w.enabled, presented, now) == Ok && token !in w.issued
  }

  function ReplacedAt(row: Row): int {
    if row.replacedAt.Some? then row.replacedAt.value else 0
  }

  /** The row's refresh term, the family's absolute term and its admin allow a rotation. */
  predicate WithinTerms(w: World, row: Row, now: int) {
    row.adminId in w.enabled && now < row.expiresAt && now < row.absoluteExpiresAt
  }

  /**
   In every reachable table a refresh succeeds exactly with the newest token of a family that was not
   ended, within both terms; an older token of such a family is a conflict within the grace window after
   its replacement and a reuse after it.
   */
  lemma RefreshExactly(w: World, cfg: Config, k: string, now: int)
    requires Inv(w) && k in w.table.rows
    ensures w.table.rows[k].familyId in w.families
    ensures var row := w.table.rows[k];
            var family := w.families[row.familyId];
            var outcome := Outcome(w.table, cfg, w.enabled, k, now);
            && |family.chain| > 0
            && var newest := family.chain[|family.chain| - 1] == k;
               && (outcome == Ok <==> newest && !family.dead && WithinTerms(w, row, now))
               && (outcome in {Conflict, Reuse} <==> !newest && !family.dead)
               && (outcome == Conflict ==> now - ReplacedAt(row) <= cfg.reuseGrace)
               && (outcome == Reuse ==> now - ReplacedAt(row) > cfg.reuseGrace)
               && (outcome == Invalid <==> family.dead || (newest && !WithinTerms(w, row, now)))
  {
    assert RowOk(w, k);
    var f := w.table.rows[k].familyId;
    assert ChainOk(w.table.rows, f, w.families[f].chain);
    if w.table.rows[k].replacedBy.None? {
      UnreplacedIsHead(w, k);
    }
  }

  /** Each refresh token succeeds at most once in a run. */
  lemma SucceedsAtMostOnce(w: World, cfg: Config, presented: string, token: string, now: int, later: seq<Step>,
                           token2: string, now2: int)
    requires Inv(w) && Succeeds(w, cfg, presented, token, now)
    ensures var v := Exec(Next(w, cfg, Refresh(presented, token, now)), cfg, later);
            !Succeeds(v, cfg, presented, token2, now2)
  {
    var step := Refresh(presented, token, now);
    var u := Next(w, cfg, step);
    assert RowOk(w, presented);
    assert presented in u.used;
    StepOk(w, cfg, step);
    AfterUse(u, cfg, presented, later, token2, now2);
  }

  lemma AfterUse(u: World, cfg: Config, presented: string, later: seq<Step>, token: string, now: int)
    requires Inv(u) && presented in u.used
    ensures !Succeeds(Exec(u, cfg, later), cfg, presented, token, now)
  {
    RunOk(u, cfg, later);
    RunRemembers(u, cfg, later, "");
    hide Next, RowOk, ChainOk;
    var v := Exec(u, cfg, later);
    assert presented in v.used;
  }

  /**
   No chain of refreshes outlives its login: however often a session is refreshed, neither an access
   check nor a refresh passes once the absolute term that began with the login is over.
   */
  lemma NothingOutlivesLogin(w: World, cfg: Config, adminId: nat, f: string, token: string, start: int, later: seq<Step>,
                             presented: string, token2: string, admin2: nat, now: int)
    requires Inv(w) && adminId in w.enabled && f !in w.families && token !in w.issued
    ensures var v := Exec(Next(w, cfg, Login(adminId, f, token, start)), cfg, later);
            && (FamilyActive(v.table, v.enabled, f, admin2, now) ==> now < start + cfg.absoluteTtl)
            && (FamilyOf(v, presented) == Some(f) && Succeeds(v, cfg, presented, token2, now) ==> now < start + cfg.absoluteTtl)
  {
    var step := Login(adminId, f, token, start);
    var u := Next(w, cfg, step);
    assert f in u.families && u.families[f].absolute == start + cfg.absoluteTtl;
    StepOk(w, cfg, step);
    Outlives(u, cfg, f, later, presented, token2, admin2, now);
  }

  lemma Outlives(u: World, cfg: Config, f: string, later: seq<Step>, presented: string, token: string, adminId: nat, now: int)
    requires Inv(u) && f in u.families
    ensures var v := Exec(u, cfg, later);
            && (FamilyActive(v.table, v.enabled, f, adminId, now) ==> now < u.families[f].absolute)
            && (FamilyOf(v, presented) == Some(f) && Succeeds(v, cfg, presented, token, now) ==> now < u.families[f].absolute)
  {
    RunOk(u, cfg, later);
    RunRemembers(u, cfg, later, f);
    var v := Exec(u, cfg, later);
    hide Next, ChainOk;
    ActiveExactly(v, f, adminId, now);
    if FamilyOf(v, presented) == Some(f) {
      assert RowOk(v, presented);
    }
  }
}
