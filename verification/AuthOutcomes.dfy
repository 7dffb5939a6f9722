/** What each auth call is for, in the user's own staff rows and guardian links
    and in the fields of the session and token it leaves. */
module AuthOutcomes {
  import opened Options
  import opened Refusals
  import opened AuthRoles
  import opened AuthSessions

  // ── Roles ───────────────────────────────────────────────────────────────

  /** Which roles each app admits. */
  lemma AppRoles(app: App, role: Role)
    ensures Allowed(app, role) <==>
      (app, role) in {(ParentApp, Parent), (StaffApp, Mentor), (StaffApp, Specialist), (StaffApp, Reception),
                      (AdminApp, Admin)}
  {
  }

  /** A guardian link that counts: no staff row in that kindergarten. */
  predicate GuardianAt(d: Directory, kg: Id) { kg in d.guardianKgs && !StaffAt(d.staff, kg) }

  lemma StaffIsAssembled(d: Directory, s: StaffEntry)
    requires s in d.staff
    ensures StaffView(d, s) in Assembled(d)
  {
    hide ParentViews;
    var i :| 0 <= i < |d.staff| && d.staff[i] == s;
    assert Assembled(d)[i] == StaffView(d, s);
  }

  lemma GuardianIsAssembled(d: Directory, kg: Id)
    requires GuardianAt(d, kg)
    ensures ParentAt(kg) in Assembled(d)
  {
    ParentViewsShape(d.staff, d.guardianKgs);
    var i :| 0 <= i < |ParentViews(d.staff, d.guardianKgs)| && ParentViews(d.staff, d.guardianKgs)[i] == ParentAt(kg);
    assert Assembled(d)[|d.staff| + i] == ParentAt(kg);
  }

  /** The views a user has: one for each staff row, with its group only for a
      mentor, one for each guardian link that counts, and the unscoped parent
      only for a user with neither. */
  lemma AssembledExactly(d: Directory, r: RoleView)
    requires Consistent(d)
    ensures r in Assembled(d) <==>
      || (exists s :: s in d.staff && r == RoleView(s.role, Some(s.kindergarten),
            if s.role == Mentor then PrimaryGroup(d.mentors, s.kindergarten) else None, s.specialistType))
      || (exists kg :: GuardianAt(d, kg) && r == RoleView(Parent, Some(kg), None, None))
      || (d.staff == [] && d.guardianKgs == [] && r == RoleView(Parent, None, None, None))
  {
    hide Assembled, ParentViews, Consistent, PrimaryGroup;
    ParentViewsShape(d.staff, d.guardianKgs);
    if r in Assembled(d) && Assembled(d) != [UNSCOPED] {
      var i :| 0 <= i < |Assembled(d)| && Assembled(d)[i] == r;
      RoleAt(d, i);
      if i < |d.staff| { assert d.staff[i] in d.staff; }
      else { assert r in ParentViews(d.staff, d.guardianKgs); }
    }
    AloneOnlyWithNeither(d);
    forall s | s in d.staff ensures StaffView(d, s) in Assembled(d) { StaffIsAssembled(d, s); }
    forall kg | GuardianAt(d, kg) ensures ParentAt(kg) in Assembled(d) { GuardianIsAssembled(d, kg); }
  }

  lemma AloneOnlyWithNeither(d: Directory)
    requires Consistent(d)
    ensures Assembled(d) == [UNSCOPED] <==> d.staff == [] && d.guardianKgs == []
  {
    ParentViewsShape(d.staff, d.guardianKgs);
    if d.staff != [] { StaffIsAssembled(d, d.staff[0]); }
    if d.staff == [] && d.guardianKgs != [] {
      assert GuardianAt(d, d.guardianKgs[0]);
      GuardianIsAssembled(d, d.guardianKgs[0]);
    }
  }

  /** The distinct kindergartens of a role list, in order of first appearance. */
  lemma {:induction false} KindergartensExactly(roles: seq<RoleView>)
    ensures forall kg :: kg in Kindergartens(roles) <==> exists r :: r in roles && r.kindergarten == Some(kg)
    ensures forall i, j :: 0 <= i < j < |Kindergartens(roles)| ==> Kindergartens(roles)[i] != Kindergartens(roles)[j]
  {
    if roles != [] {
      var n := |roles| - 1;
      KindergartensExactly(roles[..n]);
      assert roles == roles[..n] + [roles[n]];
    }
  }

  lemma KindergartensGrow(roles: seq<RoleView>, r: RoleView)
    ensures Kindergartens(roles + [r]) == Kindergartens(roles)
      + if r.kindergarten.Some? && r.kindergarten.value !in Kindergartens(roles) then [r.kindergarten.value] else []
  {
    assert (roles + [r])[..|roles|] == roles;
  }

  // ── Login ───────────────────────────────────────────────────────────────

  /** A staff row the app admits. */
  predicate Holds(d: Directory, app: App, s: StaffEntry) { s in d.staff && Allowed(app, s.role) }

  lemma StaffRoles(d: Directory, app: App, r: RoleView)
    requires Consistent(d) && !app.ParentApp?
    ensures r in RolesForApp(Assembled(d), app) <==> exists s :: Holds(d, app, s) && r == StaffView(d, s)
  {
    hide Assembled, Consistent, PrimaryGroup;
    AssembledExactly(d, r);
    forall s | s in d.staff ensures StaffView(d, s) in Assembled(d) { StaffIsAssembled(d, s); }
  }

  /** A session opened: its row, and the token handed out with it. */
  predicate Opened(s: Sessions, after: Sessions, hash: Hash, user: Id, role: Role, kg: Option<Id>, aud: App, exp: int) {
    && after.rows == s.rows[hash := RefreshRow(user, kg, Some(aud), exp, None)]
    && after.issued == s.issued + [AccessToken(user, Some(role), kg, Some(aud), Some(hash))]
  }

  /** A user who holds a role for the app in the requested kindergarten gets a
      session bound to it, with that role. */
  lemma RequestedKindergartenIsGranted(s: Sessions, user: Id, app: App, d: Directory, hash: Hash, exp: int,
                                       e: StaffEntry)
    requires Consistent(d) && !app.ParentApp? && Holds(d, app, e) && hash !in s.rows
    ensures var r := LoginCall(s, user, app, Some(e.kindergarten), d, hash, exp);
      r.error == None && Opened(s, r.after, hash, user, e.role, Some(e.kindergarten), app, exp)
  {
    hide Assembled, Consistent, RolesForApp, PrimaryGroup;
    var roles := RolesForApp(Assembled(d), app);
    StaffRoles(d, app, StaffView(d, e));
    StaffRoles(d, app, FindKg(roles, Some(e.kindergarten)).value);
    var f :| Holds(d, app, f) && FindKg(roles, Some(e.kindergarten)).value == StaffView(d, f);
    SamePost(d, e, f);
  }

  /** One staff row per kindergarten. */
  lemma SamePost(d: Directory, e: StaffEntry, f: StaffEntry)
    requires Consistent(d) && e in d.staff && f in d.staff && e.kindergarten == f.kindergarten
    ensures e == f
  {
    var i :| 0 <= i < |d.staff| && d.staff[i] == e;
    var j :| 0 <= j < |d.staff| && d.staff[j] == f;
    assert i == j;
  }

  /** A user whose only role for the app is elsewhere, or who asked for none,
      gets a session bound to that one. */
  lemma OnlyRoleIsGranted(s: Sessions, user: Id, app: App, requested: Option<Id>, d: Directory, hash: Hash, exp: int,
                          e: StaffEntry)
    requires Consistent(d) && !app.ParentApp? && Holds(d, app, e) && hash !in s.rows
    requires forall f :: Holds(d, app, f) ==> f == e
    ensures var r := LoginCall(s, user, app, requested, d, hash, exp);
      r.error == None && Opened(s, r.after, hash, user, e.role, Some(e.kindergarten), app, exp)
  {
    hide Assembled, Consistent, RolesForApp, PrimaryGroup;
    var roles := RolesForApp(Assembled(d), app);
    StaffRoles(d, app, StaffView(d, e));
    forall i | 0 <= i < |roles| ensures roles[i] == StaffView(d, e) { StaffRoles(d, app, roles[i]); }
    FilteredOnce(d, app);
    AllTheSame(roles, StaffView(d, e));
  }

  lemma AllTheSame(roles: seq<RoleView>, r: RoleView)
    requires OncePerKindergarten(roles) && r in roles && forall i :: 0 <= i < |roles| ==> roles[i] == r
    ensures |roles| == 1 && roles[0] == r
  {
    if |roles| >= 2 { FirstTwo(roles); }
  }

  lemma FirstTwo(roles: seq<RoleView>)
    requires OncePerKindergarten(roles) && |roles| >= 2
    ensures roles[0].kindergarten != roles[1].kindergarten
  {
  }

  lemma TwoAtLeast(roles: seq<RoleView>, a: RoleView, b: RoleView)
    requires a in roles && b in roles && a != b
    ensures |roles| >= 2
  {
  }

  lemma FilteredOnce(d: Directory, app: App)
    requires Consistent(d)
    ensures OncePerKindergarten(RolesForApp(Assembled(d), app))
  {
    hide Assembled;
    OneRolePerKindergarten(d);
    FilterKeepsOnce(Assembled(d), app);
  }

  /** With two roles for the app and none in the kindergarten asked for, the
      login pends: a token without role or session. */
  lemma OtherwiseTheLoginPends(s: Sessions, user: Id, app: App, requested: Option<Id>, d: Directory, hash: Hash,
                               exp: int, e: StaffEntry, f: StaffEntry)
    requires Consistent(d) && !app.ParentApp? && Holds(d, app, e) && Holds(d, app, f) && e != f
    requires forall g :: Holds(d, app, g) ==> requested != Some(g.kindergarten)
    ensures LoginCall(s, user, app, requested, d, hash, exp)
         == Reply(s.(issued := s.issued + [AccessToken(user, None, None, Some(app), None)]), None)
  {
    hide Assembled, Consistent, RolesForApp, PrimaryGroup;
    var roles := RolesForApp(Assembled(d), app);
    StaffRoles(d, app, StaffView(d, e));
    StaffRoles(d, app, StaffView(d, f));
    if e.kindergarten == f.kindergarten { SamePost(d, e, f); }
    assert StaffView(d, e) != StaffView(d, f);
    forall r | r in roles ensures requested.Some? ==> r.kindergarten != requested { StaffRoles(d, app, r); }
    LoginPendsExactlyWhen(roles, app, requested);
    TwoAtLeast(roles, StaffView(d, e), StaffView(d, f));
  }

  /** Without a role for the app the login is refused. */
  lemma NoRoleNoLogin(s: Sessions, user: Id, app: App, requested: Option<Id>, d: Directory, hash: Hash, exp: int)
    requires Consistent(d) && !app.ParentApp?
    ensures LoginCall(s, user, app, requested, d, hash, exp).error == Some(NoRoleForApp)
       <==> forall e :: e in d.staff ==> !Holds(d, app, e)
  {
    hide Assembled, Consistent, PrimaryGroup, ChooseAtLogin;
    var roles := RolesForApp(Assembled(d), app);
    if roles != [] { StaffRoles(d, app, roles[0]); }
    forall e | e in d.staff && Holds(d, app, e) ensures StaffView(d, e) in roles {
      StaffRoles(d, app, StaffView(d, e));
    }
  }

  lemma ParentRoles(d: Directory, r: RoleView)
    requires Consistent(d)
    ensures r in RolesForApp(Assembled(d), ParentApp) <==>
      || (exists kg :: GuardianAt(d, kg) && r == ParentAt(kg))
      || (r == UNSCOPED && forall kg :: !GuardianAt(d, kg))
  {
    hide Consistent, PrimaryGroup;
    var roles := RolesForApp(Assembled(d), ParentApp);
    AssembledExactly(d, r);
    NoStaffParent(d);
    forall kg | GuardianAt(d, kg) ensures ParentAt(kg) in Filter(Assembled(d), ParentApp) {
      GuardianIsAssembled(d, kg);
    }
    if Filter(Assembled(d), ParentApp) != [] {
      AssembledExactly(d, Filter(Assembled(d), ParentApp)[0]);
    }
    if d.staff == [] && d.guardianKgs == [] { AloneOnlyWithNeither(d); }
  }

  lemma NoStaffParent(d: Directory)
    requires Consistent(d)
    ensures forall s :: s in d.staff ==> !s.role.Parent?
  {
  }

  /** A parent login always opens a parent session: bound to the user's
      kindergarten as a guardian if there is exactly one, and to none otherwise. */
  lemma ParentLogin(s: Sessions, user: Id, requested: Option<Id>, d: Directory, hash: Hash, exp: int)
    requires Consistent(d) && hash !in s.rows
    ensures var r := LoginCall(s, user, ParentApp, requested, d, hash, exp);
      r.error == None && hash in r.after.rows
      && Opened(s, r.after, hash, user, Parent, r.after.rows[hash].kindergarten, ParentApp, exp)
    ensures var kg := LoginCall(s, user, ParentApp, requested, d, hash, exp).after.rows[hash].kindergarten;
      forall k :: kg == Some(k) <==> GuardianAt(d, k) && forall l :: GuardianAt(d, l) ==> l == k
  {
    hide Assembled, Consistent, RolesForApp, GuardianAt, PrimaryGroup;
    var roles := RolesForApp(Assembled(d), ParentApp);
    KindergartensExactly(roles);
    forall r ensures r in roles <==>
      || (exists kg :: GuardianAt(d, kg) && r == ParentAt(kg)) || (r == UNSCOPED && forall kg :: !GuardianAt(d, kg))
    {
      ParentRoles(d, r);
    }
    assert roles[0] in roles;
    var kgs := Kindergartens(roles);
    forall kg ensures kg in kgs <==> GuardianAt(d, kg) {
      if GuardianAt(d, kg) { assert ParentAt(kg) in roles && ParentAt(kg).kindergarten == Some(kg); }
    }
    if |kgs| > 1 { assert GuardianAt(d, kgs[0]) && GuardianAt(d, kgs[1]) && kgs[0] != kgs[1]; }
    if |kgs| == 1 { assert forall kg :: GuardianAt(d, kg) ==> kg == kgs[0]; }
  }

  // ── Role selection ──────────────────────────────────────────────────────

  predicate Names(wanted: Wanted, role: Role) { wanted == AnyRole || wanted == Named(role) }

  lemma {:induction false} MatchExactly(staff: seq<StaffEntry>, kg: Id, wanted: Wanted)
    ensures MatchStaff(staff, kg, wanted).Some? <==>
      exists s :: s in staff && s.kindergarten == kg && Names(wanted, s.role)
    ensures MatchStaff(staff, kg, wanted).Some? ==>
      exists s :: s in staff && s.kindergarten == kg && Names(wanted, s.role)
        && s.role == MatchStaff(staff, kg, wanted).value
  {
    if staff != [] { MatchExactly(staff[1..], kg, wanted); }
  }

  /** The role a selection gives: the user's post in the kindergarten if it is the
      one named, else parent if that is named and the user is a guardian there. */
  lemma SelectedExactly(d: Directory, kg: Id, wanted: Wanted, role: Role)
    requires Consistent(d)
    ensures SelectedRole(d, kg, wanted) == Some(role) <==>
      var post := exists s :: s in d.staff && s.kindergarten == kg && Names(wanted, s.role);
      if post then exists s :: s in d.staff && s.kindergarten == kg && Names(wanted, s.role) && s.role == role
      else role == Parent && Names(wanted, Parent) && kg in d.guardianKgs
  {
    hide MatchStaff, Consistent;
    MatchExactly(d.staff, kg, wanted);
    forall e, f | e in d.staff && f in d.staff && e.kindergarten == f.kindergarten ensures e == f { SamePost(d, e, f); }
  }

  /** A selection needs a pending token and a role to give; it opens a session of
      the holder in that kindergarten, for the app of the role. */
  lemma SelectionOutcome(s: Sessions, caller: AccessToken, kg: Id, wanted: Wanted, presented: OldAccess, d: Directory,
                         userExists: bool, hash: Hash, exp: int)
    ensures var r := SelectRoleCall(s, caller, kg, wanted, presented, d, userExists, hash, exp);
      OfOption(r.error) ==
        When(caller.role != None, RoleSelectNotRequired)
        .Or(When(SelectedRole(d, kg, wanted) == None, RoleNotAvailable))
        .Or(When(hash in s.rows, DuplicateKey))
        .Or(When(!userExists, RefreshInvalid))
    ensures var r := SelectRoleCall(s, caller, kg, wanted, presented, d, userExists, hash, exp);
      r.error == None ==>
        var role := SelectedRole(d, kg, wanted).value;
        var aud := if role == Parent then ParentApp else if role == Admin then AdminApp else StaffApp;
        Opened(s, r.after, hash, caller.sub, role, Some(kg), aud, exp)
  {
    hide SelectedRole;
  }

  // ── Refresh and logout ──────────────────────────────────────────────────

  /** A refresh token is good while it is known, not revoked and not expired. */
  predicate Good(s: Sessions, hash: Hash, now: int) {
    hash in s.rows && s.rows[hash].revokedAt == None && now < s.rows[hash].expiresAt
  }

  /** The errors of a refresh, given the role it would re-issue. */
  lemma RefreshErrors(s: Sessions, hash: Hash, newHash: Hash, now: int, exp: int, presented: OldAccess, d: Directory,
                      userExists: bool, ambient: bool)
    ensures var r := RefreshCall(s, hash, newHash, now, exp, presented, d, userExists, ambient);
      OfOption(r.error) ==
        When(!Good(s, hash, now), RefreshInvalid)
        .Or(When(newHash in s.rows, DuplicateKey))
        .Or(When(!userExists, RefreshInvalid))
        .Or(When(hash in s.rows && Reissued(d, s.rows[hash]) == None, NoActiveRoles))
  {
    hide Assembled, PickForRotation;
    if hash in s.rows { NothingToPick(s.rows[hash].kindergarten); }
  }

  function Reissued(d: Directory, row: RefreshRow): Option<RoleView> {
    PickForRotation(RolesForAudience(d, row.audience), row.kindergarten)
  }

  lemma NothingToPick(bound: Option<Id>)
    ensures PickForRotation([], bound) == None
  {
  }

  /** A refresh that succeeds revokes the old row, opens one of the same user,
      kindergarten and audience under the new expiry, and hands out its token. */
  lemma RefreshLeaves(s: Sessions, hash: Hash, newHash: Hash, now: int, exp: int, presented: OldAccess, d: Directory,
                      userExists: bool, ambient: bool)
    requires RefreshCall(s, hash, newHash, now, exp, presented, d, userExists, ambient).error == None
    ensures Good(s, hash, now) && newHash !in s.rows && Reissued(d, s.rows[hash]).Some?
    ensures var c := RefreshCall(s, hash, newHash, now, exp, presented, d, userExists, ambient).after;
      var row, r := s.rows[hash], Reissued(d, s.rows[hash]).value;
      && c.rows == s.rows[hash := row.(revokedAt := Some(now))]
                         [newHash := RefreshRow(row.userId, row.kindergarten, row.audience, exp, None)]
      && c.issued == s.issued + [AccessToken(row.userId, Some(r.role), r.kindergarten, row.audience, Some(newHash))]
  {
    hide Assembled, PickForRotation, RolesForAudience;
  }

  /** A session bound to a kindergarten is re-issued the post the user holds there,
      if its app admits it. */
  lemma PostIsReissued(d: Directory, row: RefreshRow, e: StaffEntry)
    requires Consistent(d) && e in d.staff && row.kindergarten == Some(e.kindergarten)
    requires row.audience.Some? ==> Allowed(row.audience.value, e.role)
    ensures Reissued(d, row).Some? && Reissued(d, row).value.role == e.role
    ensures Reissued(d, row).value.kindergarten == Some(e.kindergarten)
  {
    hide Assembled, Consistent, PrimaryGroup;
    var roles := RolesForAudience(d, row.audience);
    StaffIsAssembled(d, e);
    FilterKeepsMember(Assembled(d), row.audience, StaffView(d, e));
    OneRolePerKindergarten(d);
    if row.audience.Some? { FilterKeepsOnce(Assembled(d), row.audience.value); }
    OnlyOneAt(roles, StaffView(d, e));
    NoStaffParent(d);
  }

  lemma FilterKeepsMember(roles: seq<RoleView>, audience: Option<App>, r: RoleView)
    requires r in roles && (audience.Some? ==> Allowed(audience.value, r.role))
    ensures audience.Some? ==>
      var kept := RolesForApp(roles, audience.value);
      r in kept && kept == Filter(roles, audience.value)
  {
  }

  /** Or the parent role, if the user is only a guardian there and its app is the
      parents', or nothing if the user has lost both. */
  lemma GuardianIsReissued(d: Directory, row: RefreshRow, kg: Id)
    requires Consistent(d) && row.kindergarten == Some(kg) && row.audience == Some(ParentApp)
    ensures if GuardianAt(d, kg) then Reissued(d, row) == Some(ParentAt(kg)) else Reissued(d, row) == None
  {
    hide Assembled, Consistent, PrimaryGroup;
    var roles := RolesForApp(Assembled(d), ParentApp);
    ParentRoles(d, ParentAt(kg));
    FilteredOnce(d, ParentApp);
    if GuardianAt(d, kg) {
      OnlyOneAt(roles, ParentAt(kg));
    } else {
      forall r | r in roles ensures r.kindergarten != Some(kg) { ParentRoles(d, r); }
    }
  }

  /** A logout revokes, of the rows not revoked yet, the one named, or without a
      name all of the user's, and touches nothing else. */
  lemma LogoutOutcome(s: Sessions, user: Id, session: Option<Hash>, now: int, presented: OldAccess, h: Hash)
    requires h in s.rows
    ensures var c := LogoutCall(s, user, session, now, presented); var row := s.rows[h];
      && c.rows.Keys == s.rows.Keys && c.issued == s.issued
      && c.rows[h] == (if row.revokedAt == None && (session == Some(h) || (session == None && row.userId == user))
                       then row.(revokedAt := Some(now)) else row)
      && c.blocklist == s.blocklist + if presented.jti != "" && presented.exp.Some? then {presented.jti} else {}
  {
  }
}
