/** The session half of the auth service over its mutable stores. */
module AuthServices {
  import opened Options
  import opened AuthRoles
  import opened AuthSessions

  class AuthService {
    var rows: map<Hash, RefreshRow>
    var issued: seq<AccessToken>
    var blocklist: set<Jti>
    ghost var origin: map<Hash, Hash>

    ghost function Contents(): Sessions
      reads this
    {
      Sessions(rows, origin, issued, blocklist)
    }

    constructor ()
      ensures Start(Contents())
    {
      rows, issued, blocklist, origin := map[], [], {}, map[];
    }

    method FilterRolesForApp(all: seq<RoleView>, app: App) returns (roles: seq<RoleView>)
      ensures roles == RolesForApp(all, app)
    {
      roles := Filter(all, app);
      if roles == [] && app.ParentApp? { roles := [UNSCOPED]; }
    }

    method IssueTokensForUser(user: Id, app: App, requested: Option<Id>, d: Directory, hash: Hash, expiresAt: int)
      returns (r: Result<AccessToken, Error>)
      modifies this
      ensures var call := LoginCall(old(Contents()), user, app, requested, d, hash, expiresAt);
        && Contents() == call.after
        && (if r.Err? then call.error == Some(r.error) else call.error.None? && issued == old(issued) + [r.value])
    {
      var all, kgs := AssembleRoles(d);
      var roles := FilterRolesForApp(all, app);
      if roles == [] { return Err(NoRoleForApp); }
      var chosen: Option<RoleView> := None;
      if app.ParentApp? {
        var distinctKgs := KindergartensFromRoles(roles);
        chosen := Some(if |distinctKgs| > 1 then UNSCOPED else roles[0]);
      } else if requested.Some? {
        chosen := FindKg(roles, requested);
      }
      if chosen.None? && |roles| == 1 { chosen := Some(roles[0]); }
      if chosen.None? {
        var pending := AccessToken(user, None, None, Some(app), None);
        issued := issued + [pending];
        return Ok(pending);
      }
      if hash in rows { return Err(DuplicateKey); }
      var token := AccessToken(user, Some(chosen.value.role), chosen.value.kindergarten, Some(app), Some(hash));
      Create(hash, RefreshRow(user, chosen.value.kindergarten, Some(app), expiresAt, None));
      issued := issued + [token];
      r := Ok(token);
    }

    /** Revokes a presented access token, unless a claim is missing. */
    method BlockOld(presented: OldAccess)
      modifies this`blocklist
      ensures Contents() == Blocked(old(Contents()), presented)
    {
      if presented.jti != "" && presented.exp.Some? { blocklist := blocklist + {presented.jti}; }
    }

    method SelectRole(caller: AccessToken, kg: Id, wanted: Wanted, presented: OldAccess, d: Directory, userExists: bool,
                      hash: Hash, expiresAt: int) returns (r: Result<AccessToken, Error>)
      modifies this
      ensures var was := old(Contents());
        var call := SelectRoleCall(was, caller, kg, wanted, presented, d, userExists, hash, expiresAt);
        && Contents() == call.after
        && (if r.Err? then call.error == Some(r.error) else call.error.None? && issued == old(issued) + [r.value])
    {
      if caller.role.Some? { return Err(RoleSelectNotRequired); }
      var role := MatchStaff(d.staff, kg, wanted);
      if role.None? {
        if !(wanted == AnyRole || wanted == Named(Parent)) || kg !in d.guardianKgs { return Err(RoleNotAvailable); }
        role := Some(Parent);
      }
      BlockOld(presented);
      if hash in rows { return Err(DuplicateKey); }
      var audience := if role.value.Parent? then ParentApp else AudienceForRole(role.value);
      Create(hash, RefreshRow(caller.sub, Some(kg), Some(audience), expiresAt, None));
      if !userExists { return Err(RefreshInvalid); }
      var token := AccessToken(caller.sub, role, Some(kg), Some(audience), Some(hash));
      issued := issued + [token];
      r := Ok(token);
    }

    method RefreshToken(hash: Hash, newHash: Hash, now: int, newExpiresAt: int, presented: OldAccess, d: Directory,
                        userExists: bool, ambient: bool) returns (r: Result<AccessToken, Error>)
      modifies this
      ensures var was := old(Contents());
        var call := RefreshCall(was, hash, newHash, now, newExpiresAt, presented, d, userExists, ambient);
        && Contents() == call.after
        && (if r.Err? then call.error == Some(r.error) else call.error.None? && issued == old(issued) + [r.value])
    {
      var saved := rows;
      ghost var savedOrigin := origin;
      if hash !in rows || rows[hash].revokedAt.Some? || rows[hash].expiresAt <= now { return Err(RefreshInvalid); }
      if newHash in rows { return Err(DuplicateKey); }
      var row := rows[hash];
      rows := rows[hash := row.(revokedAt := Some(now))];
      rows := rows[newHash := RefreshRow(row.userId, row.kindergarten, row.audience, newExpiresAt, None)];
      origin := origin[newHash := if hash in origin then origin[hash] else hash];
      BlockOld(presented);

      var all, kgs := AssembleRoles(d);
      var roles := all;
      if row.audience.Some? { roles := FilterRolesForApp(all, row.audience.value); }
      var matched := PickForRotation(roles, row.kindergarten);
      if !userExists || roles == [] || matched.None? {
        if ambient { rows, origin := saved, savedOrigin; }
        return Err(if !userExists then RefreshInvalid else NoActiveRoles);
      }
      var picked := matched.value;
      var token := AccessToken(row.userId, Some(picked.role), picked.kindergarten, row.audience, Some(newHash));
      issued := issued + [token];
      r := Ok(token);
    }

    method Logout(user: Id, session: Option<Hash>, now: int, presented: OldAccess)
      modifies this
      ensures Contents() == LogoutCall(old(Contents()), user, session, now, presented)
    {
      if session.Some? {
        rows := map h | h in rows ::
          if h == session.value && rows[h].revokedAt.None? then rows[h].(revokedAt := Some(now)) else rows[h];
      } else {
        rows := map h | h in rows ::
          if rows[h].userId == user && rows[h].revokedAt.None? then rows[h].(revokedAt := Some(now)) else rows[h];
      }
      BlockOld(presented);
    }

    /** Inserts a row that begins a chain of its own. */
    method Create(hash: Hash, row: RefreshRow)
      modifies this`rows, this`origin
      ensures rows == old(rows)[hash := row] && origin == old(origin)[hash := hash]
    {
      rows, origin := rows[hash := row], origin[hash := hash];
    }
  }
}
