/**
 Administrator sessions: the rows of src/storage/admin-sessions-repo.ts and the refresh rotation of
 src/admin/auth/session-service.ts. Hashes are injective, so a row is keyed by its refresh token;
 tokens and family ids are random, so a step with one that was used before is not taken.
 */
module Sessions {
  import opened Wrappers

  datatype Row = Row(id: nat, adminId: nat, familyId: string, expiresAt: int, absoluteExpiresAt: int,
                     revoked: bool, replacedBy: Option<nat>, replacedAt: Option<int>)

  /** The table, keyed by the token's hash; ids are never reused. */
  datatype Table = Table(rows: map<string, Row>, nextId: nat)

  /** Milliseconds. */
  datatype Config = Config(refreshTtl: nat, absoluteTtl: nat, reuseGrace: nat)

  datatype RefreshOutcome = Ok | Conflict | Reuse | Invalid

  function Earlier(a: int, b: int): int {
    if a < b then a else b
  }

  /** A new row of a family; without `absolute` it starts the family's clock. */
  function Issued(t: Table, cfg: Config, token: string, adminId: nat, familyId: string, absolute: Option<int>, now: int): Table {
    var end := if absolute.Some? then absolute.value else now + cfg.absoluteTtl;
    Table(t.rows[token := Row(t.nextId, adminId, familyId, Earlier(now + cfg.refreshTtl, end), end, false, None, None)],
          t.nextId + 1)
  }

  function MarkedReplaced(t: Table, id: nat, newId: nat, now: int): Table {
    t.(rows := map k | k in t.rows ::
      if t.rows[k].id == id then t.rows[k].(replacedBy := Some(newId), replacedAt := Some(now)) else t.rows[k])
  }

  function RevokedFamily(t: Table, familyId: string): Table {
    t.(rows := map k | k in t.rows ::
      if t.rows[k].familyId == familyId then t.rows[k].(revoked := true) else t.rows[k])
  }

  function RevokedAdmin(t: Table, adminId: nat): Table {
    t.(rows := map k | k in t.rows ::
      if t.rows[k].adminId == adminId then t.rows[k].(revoked := true) else t.rows[k])
  }

  function Purged(t: Table, now: int): Table {
    t.(rows := map k | k in t.rows && t.rows[k].absoluteExpiresAt >= now :: t.rows[k])
  }

  function Outcome(t: Table, cfg: Config, enabled: set<nat>, presented: string, now: int): RefreshOutcome {
    if presented !in t.rows || t.rows[presented].revoked then Invalid
    else
      var row := t.rows[presented];
      if row.replacedBy.Some? then
        if now - (if row.replacedAt.Some? then row.replacedAt.value else 0) <= cfg.reuseGrace then Conflict else Reuse
      else if row.adminId !in enabled || row.expiresAt <= now || row.absoluteExpiresAt <= now then Invalid
      else Ok
  }

  /** The table after a refresh; an expired head and a reuse outside the grace window revoke the family. */
  function Refreshed(t: Table, cfg: Config, enabled: set<nat>, presented: string, token: string, now: int): Table {
    if presented !in t.rows || t.rows[presented].revoked then t
    else
      var row := t.rows[presented];
      match Outcome(t, cfg, enabled, presented, now)
      case Ok => MarkedReplaced(Issued(t, cfg, token, row.adminId, row.familyId, Some(row.absoluteExpiresAt), now),
                                row.id, t.nextId, now)
      case Conflict => t
      case _ => RevokedFamily(t, row.familyId)
  }

  function LoggedOut(t: Table, sid: Option<string>, refresh: Option<string>): Table {
    var u := if sid.Some? then RevokedFamily(t, sid.value) else t;
    if refresh.Some? && refresh.value in u.rows then RevokedFamily(u, u.rows[refresh.value].familyId) else u
  }

  /** isFamilyActive: an unrevoked, unreplaced row of the family and admin, within its absolute term. */
  predicate FamilyActive(t: Table, enabled: set<nat>, familyId: string, adminId: nat, now: int) {
    && adminId in enabled
    && exists k :: k in t.rows && t.rows[k].familyId == familyId && t.rows[k].adminId == adminId
         && !t.rows[k].revoked && t.rows[k].replacedBy.None? && t.rows[k].absoluteExpiresAt > now
  }

  class SessionService {
    const cfg: Config
    var rows: map<string, Row>
    var nextId: nat
    var enabled: set<nat>

    function Value(): Table
      reads this
    {
      Table(rows, nextId)
    }

    constructor (cfg: Config)
      ensures Value() == Table(map[], 0) && this.cfg == cfg && enabled == {}
    {
      this.cfg := cfg;
      rows, nextId, enabled := map[], 0, {};
    }

    method Issue(token: string, adminId: nat, familyId: string, absolute: Option<int>, now: int) returns (id: nat)
      modifies `rows, `nextId
      ensures Value() == Issued(old(Value()), cfg, token, adminId, familyId, absolute, now) && id == old(nextId)
    {
      var end := now + cfg.absoluteTtl;
      if absolute.Some? {
        end := absolute.value;
      }
      id := nextId;
      rows := rows[token := Row(id, adminId, familyId, Earlier(now + cfg.refreshTtl, end), end, false, None, None)];
      nextId := nextId + 1;
    }

    method RevokeFamily(familyId: string)
      modifies `rows
      ensures Value() == RevokedFamily(old(Value()), familyId)
    {
      rows := map k | k in rows :: if rows[k].familyId == familyId then rows[k].(revoked := true) else rows[k];
    }

    method RevokeAllForAdmin(adminId: nat)
      modifies `rows
      ensures Value() == RevokedAdmin(old(Value()), adminId)
    {
      rows := map k | k in rows :: if rows[k].adminId == adminId then rows[k].(revoked := true) else rows[k];
    }

    method PurgeExpired(now: int)
      modifies `rows
      ensures Value() == Purged(old(Value()), now)
    {
      rows := map k | k in rows && rows[k].absoluteExpiresAt >= now :: rows[k];
    }

    method MarkReplaced(id: nat, newId: nat, now: int)
      modifies `rows
      ensures Value() == MarkedReplaced(old(Value()), id, newId, now)
    {
      rows := map k | k in rows ::
        if rows[k].id == id then rows[k].(replacedBy := Some(newId), replacedAt := Some(now)) else rows[k];
    }

    /** A successful login: expired rows go, a new family starts. */
    method Login(adminId: nat, familyId: string, token: string, now: int)
      modifies `rows, `nextId
      ensures Value() == Issued(Purged(old(Value()), now), cfg, token, adminId, familyId, None, now)
    {
      PurgeExpired(now);
      var _ := Issue(token, adminId, familyId, None, now);
    }

    method Refresh(presented: string, token: string, now: int) returns (r: RefreshOutcome)
      modifies `rows, `nextId
      ensures r == Outcome(old(Value()), cfg, enabled, presented, now)
      ensures Value() == Refreshed(old(Value()), cfg, enabled, presented, token, now)
    {
      if presented !in rows || rows[presented].revoked {
        return Invalid;
      }
      var row := rows[presented];
      if row.replacedBy.Some? {
        var replacedAt := if row.replacedAt.Some? then row.replacedAt.value else 0;
        if now - replacedAt <= cfg.reuseGrace {
          return Conflict;
        }
        RevokeFamily(row.familyId);
        return Reuse;
      }
      if row.adminId !in enabled || row.expiresAt <= now || row.absoluteExpiresAt <= now {
        RevokeFamily(row.familyId);
        return Invalid;
      }
      var newId := Issue(token, row.adminId, row.familyId, Some(row.absoluteExpiresAt), now);
      MarkReplaced(row.id, newId, now);
      r := Ok;
    }

    method Logout(sid: Option<string>, refresh: Option<string>)
      modifies `rows
      ensures Value() == LoggedOut(old(Value()), sid, refresh)
    {
      if sid.Some? {
        RevokeFamily(sid.value);
      }
      if refresh.Some? && refresh.value in rows {
        RevokeFamily(rows[refresh.value].familyId);
      }
    }

    method IsFamilyActive(familyId: string, adminId: nat, now: int) returns (active: bool)
      ensures active == FamilyActive(Value(), enabled, familyId, adminId, now)
    {
      active := adminId in enabled &&
        exists k :: k in rows && rows[k].familyId == familyId && rows[k].adminId == adminId &&
                    !rows[k].revoked && rows[k].replacedBy.None? && rows[k].absoluteExpiresAt > now;
    }
  }
}
