/** Refresh sessions and the access tokens issued from them, over all runs of
    login, role selection, refresh and logout. */
module AuthSessions {
  import opened Options
  import opened AuthRoles

  type Hash = string

  datatype RefreshRow = RefreshRow(
    userId: Id, kindergarten: Option<Id>, audience: Option<App>, expiresAt: int, revokedAt: Option<int>)

  /** An access token handed out; `role` is None while role selection pends, and
      `session` names the refresh row handed out with it. */
  datatype AccessToken = AccessToken(
    sub: Id, role: Option<Role>, kindergarten: Option<Id>, aud: Option<App>, session: Option<Hash>)

  type Jti = string

  /** The claims of the access token a request presented: its id, empty when it
      has none, and its expiry, None when missing. */
  datatype OldAccess = OldAccess(jti: Jti, exp: Option<int>)

  /** `origin` follows each row back to the login or selection its chain began
      with; `blocklist` holds the ids of access tokens revoked early. */
  datatype Sessions = Sessions(
    rows: map<Hash, RefreshRow>, origin: map<Hash, Hash>, issued: seq<AccessToken>, blocklist: set<Jti>)

  datatype Error =
    | NoRoleForApp | NoActiveRoles | RefreshInvalid | RoleSelectNotRequired | RoleNotAvailable | DuplicateKey

  /** The state a call leaves and the error it throws, if any. */
  datatype Reply = Reply(after: Sessions, error: Option<Error>)

  function Begun(s: Sessions, hash: Hash, row: RefreshRow, t: AccessToken): Sessions {
    s.(rows := s.rows[hash := row], origin := s.origin[hash := hash], issued := s.issued + [t])
  }

  predicate Blockable(presented: OldAccess) { presented.jti != "" && presented.exp.Some? }

  /** Blocklisting is outside the transaction: nothing undoes it. */
  function Blocked(s: Sessions, presented: OldAccess): Sessions {
    if Blockable(presented) then s.(blocklist := s.blocklist + {presented.jti}) else s
  }

  // ── Calls ───────────────────────────────────────────────────────────────

  /** `issueTokensForUser`: pending logins get no refresh row. */
  function LoginCall(s: Sessions, user: Id, app: App, requested: Option<Id>, d: Directory, hash: Hash,
                     expiresAt: int): Reply {
    var roles := RolesForApp(Assembled(d), app);
    if roles == [] then Reply(s, Some(NoRoleForApp))
    else
      match ChooseAtLogin(roles, app, requested)
      case None => Reply(s.(issued := s.issued + [AccessToken(user, None, None, Some(app), None)]), None)
      case Some(r) =>
        if hash in s.rows then Reply(s, Some(DuplicateKey))
        else Reply(Begun(s, hash, RefreshRow(user, r.kindergarten, Some(app), expiresAt, None),
                         AccessToken(user, Some(r.role), r.kindergarten, Some(app), Some(hash))), None)
  }

  /** The role name a client asks for: none, a known one, or some other string. */
  datatype Wanted = AnyRole | Named(role: Role) | UnknownName

  function MatchStaff(staff: seq<StaffEntry>, kg: Id, wanted: Wanted): (found: Option<Role>)
    ensures found.Some? ==> exists s :: s in staff && s.role == found.value
  {
    if staff == [] then None
    else if staff[0].kindergarten == kg && wanted in {AnyRole, Named(staff[0].role)} then Some(staff[0].role)
    else MatchStaff(staff[1..], kg, wanted)
  }

  function SelectedRole(d: Directory, kg: Id, wanted: Wanted): Option<Role> {
    match MatchStaff(d.staff, kg, wanted)
    case Some(role) => Some(role)
    case None => if wanted in {AnyRole, Named(Parent)} && kg in d.guardianKgs then Some(Parent) else None
  }

  /** `selectRole` by the holder of a token: the old access token is blocked, and
      the new row committed, before the user lookup. */
  function SelectRoleCall(s: Sessions, caller: AccessToken, kg: Id, wanted: Wanted, presented: OldAccess, d: Directory,
                          userExists: bool, hash: Hash, expiresAt: int): Reply {
    if caller.role.Some? then Reply(s, Some(RoleSelectNotRequired))
    else
      match SelectedRole(d, kg, wanted)
      case None => Reply(s, Some(RoleNotAvailable))
      case Some(role) =>
        var blocked := Blocked(s, presented);
        if hash in s.rows then Reply(blocked, Some(DuplicateKey))
        else
          var aud := AudienceForRole(role);
          var begun := Begun(blocked, hash, RefreshRow(caller.sub, Some(kg), Some(aud), expiresAt, None),
                             AccessToken(caller.sub, Some(role), Some(kg), Some(aud), Some(hash)));
          if userExists then Reply(begun, None) else Reply(begun.(issued := s.issued), Some(RefreshInvalid))
  }

  predicate Usable(s: Sessions, hash: Hash, now: int) {
    hash in s.rows && s.rows[hash].revokedAt.None? && s.rows[hash].expiresAt > now
  }

  /** `rotate`: revokes the old row and carries user, kindergarten and audience over. */
  function Rotated(s: Sessions, hash: Hash, newHash: Hash, now: int, newExpiresAt: int): Sessions
    requires hash in s.rows
  {
    var row := s.rows[hash];
    var renewed := row.(expiresAt := newExpiresAt, revokedAt := None);
    s.(rows := s.rows[hash := row.(revokedAt := Some(now))][newHash := renewed],
       origin := s.origin[newHash := if hash in s.origin then s.origin[hash] else hash])
  }

  function RolesForAudience(d: Directory, audience: Option<App>): seq<RoleView> {
    if audience.None? then Assembled(d) else RolesForApp(Assembled(d), audience.value)
  }

  /** `refreshToken`; when the handler has a transaction of its own around the
      rotation, a later error undoes it, otherwise the rotation stays. */
  function RefreshCall(s: Sessions, hash: Hash, newHash: Hash, now: int, newExpiresAt: int, presented: OldAccess,
                       d: Directory, userExists: bool, ambient: bool): Reply {
    if !Usable(s, hash, now) then Reply(s, Some(RefreshInvalid))
    else if newHash in s.rows then Reply(s, Some(DuplicateKey))
    else
      var row := s.rows[hash];
      var rotated := Blocked(Rotated(s, hash, newHash, now, newExpiresAt), presented);
      var undone := if ambient then Blocked(s, presented) else rotated;
      var roles := RolesForAudience(d, row.audience);
      if !userExists then Reply(undone, Some(RefreshInvalid))
      else if roles == [] then Reply(undone, Some(NoActiveRoles))
      else
        match PickForRotation(roles, row.kindergarten)
        case None => Reply(undone, Some(NoActiveRoles))
        case Some(r) =>
          Reply(rotated.(issued := s.issued +
            [AccessToken(row.userId, Some(r.role), r.kindergarten, row.audience, Some(newHash))]), None)
  }

  /** `logout`: revokes one session, or all of a user's, and the access token. */
  function LogoutCall(s: Sessions, user: Id, hash: Option<Hash>, now: int, presented: OldAccess): Sessions {
    Blocked(s, presented).(rows := map h | h in s.rows ::
      if s.rows[h].revokedAt.None? && (if hash.Some? then h == hash.value else s.rows[h].userId == user)
      then s.rows[h].(revokedAt := Some(now)) else s.rows[h])
  }

  // ── Runs ────────────────────────────────────────────────────────────────

  datatype Call =
    | Login(user: Id, app: App, requested: Option<Id>, d: Directory, hash: Hash, expiresAt: int)
    | SelectRole(caller: AccessToken, kg: Id, wanted: Wanted, presented: OldAccess, d: Directory, userExists: bool,
                 hash: Hash, expiresAt: int)
    | Refresh(hash: Hash, newHash: Hash, now: int, newExpiresAt: int, presented: OldAccess, d: Directory,
              userExists: bool, ambient: bool)
    | Logout(user: Id, session: Option<Hash>, now: int, presented: OldAccess)

  predicate WellFormed(c: Call) { c.Logout? || Consistent(c.d) }

  /** Only the holder of a token handed out selects a role with it. */
  predicate Enabled(s: Sessions, c: Call) { c.SelectRole? ==> c.caller in s.issued }

  /** What the call leaves and throws; logout throws nothing. */
  function Outcome(s: Sessions, c: Call): Reply {
    match c
    case Login(user, app, requested, d, hash, exp) => LoginCall(s, user, app, requested, d, hash, exp)
    case SelectRole(caller, kg, wanted, presented, d, userExists, hash, exp) =>
      SelectRoleCall(s, caller, kg, wanted, presented, d, userExists, hash, exp)
    case Refresh(hash, newHash, now, exp, presented, d, userExists, ambient) =>
      RefreshCall(s, hash, newHash, now, exp, presented, d, userExists, ambient)
    case Logout(user, session, now, presented) => Reply(LogoutCall(s, user, session, now, presented), None)
  }

  function Step(s: Sessions, c: Call): Sessions { if Enabled(s, c) then Outcome(s, c).after else s }

  function Run(s: Sessions, calls: seq<Call>): Sessions {
    if calls == [] then s else Step(Run(s, calls[..|calls| - 1]), calls[|calls| - 1])
  }

  /** Where runs start: no token issued, every row its own origin, and no
      audience on those from before apps were told apart. */
  predicate Start(s: Sessions) {
    && s.issued == [] && s.origin.Keys == s.rows.Keys
    && forall h :: h in s.rows ==> s.origin[h] == h && s.rows[h].audience.None?
  }

  // ── What every run keeps ────────────────────────────────────────────────

  predicate SameSession(a: RefreshRow, b: RefreshRow) {
    a.userId == b.userId && a.kindergarten == b.kindergarten && a.audience == b.audience
  }

  /** A chain keeps its user, kindergarten and audience, and has one usable row. */
  predicate ChainsSound(s: Sessions) {
    && s.origin.Keys == s.rows.Keys
    && s.origin.Values <= s.rows.Keys
    && (forall h, k :: h in s.rows && k in s.rows ==>
          (s.origin[h] == s.origin[k] ==> OneSession(s.rows[h], s.rows[k], h == k)))
  }

  /** Two rows of one chain: the same session, and not both usable. */
  predicate OneSession(a: RefreshRow, b: RefreshRow, same: bool) {
    SameSession(a, b) && (a.revokedAt.None? && b.revokedAt.None? ==> same)
  }

  /** A pending token carries an audience and no session; any other carries a
      role its audience allows and stays within its session's kindergarten. */
  predicate TokenSound(s: Sessions, t: AccessToken) {
    if t.role.None? then t.session.None? && t.kindergarten.None? && t.aud in {Some(StaffApp), Some(AdminApp)}
    else
      && t.session.Some? && t.session.value in s.rows
      && t.sub == s.rows[t.session.value].userId && t.aud == s.rows[t.session.value].audience
      && (t.aud.Some? ==> Allowed(t.aud.value, t.role.value))
      && (s.rows[t.session.value].kindergarten.Some? ==> t.kindergarten == s.rows[t.session.value].kindergarten)
      && (s.rows[t.session.value].kindergarten.None? ==> t.role == Some(Parent))
  }

  predicate Sound(s: Sessions) { ChainsSound(s) && forall t :: t in s.issued ==> TokenSound(s, t) }

  lemma TokensSurvive(s: Sessions, after: Sessions)
    requires forall h :: h in s.rows ==> h in after.rows && SameSession(after.rows[h], s.rows[h])
    ensures forall t :: TokenSound(s, t) ==> TokenSound(after, t)
  {
    hide Allowed;
  }

  lemma NewChain(s: Sessions, hash: Hash, row: RefreshRow)
    requires ChainsSound(s) && hash !in s.rows
    ensures ChainsSound(s.(rows := s.rows[hash := row], origin := s.origin[hash := hash]))
  {
  }

  /** A new session with its token. */
  lemma BeginKeepsSound(s: Sessions, hash: Hash, row: RefreshRow, t: AccessToken)
    requires Sound(s) && hash !in s.rows
    requires TokenSound(s.(rows := s.rows[hash := row]), t)
    ensures Sound(Begun(s, hash, row, t)) && Sound(Begun(s, hash, row, t).(issued := s.issued))
  {
    hide TokenSound, ChainsSound;
    var after := Begun(s, hash, row, t);
    NewChain(s, hash, row);
    ChainsIgnoreTokens(s.(rows := after.rows, origin := after.origin), after);
    TokensSurvive(s, after);
    TokensSurvive(s.(rows := after.rows), after);
    TokensSurvive(s, after.(issued := s.issued));
  }

  lemma ChainsIgnoreTokens(s: Sessions, after: Sessions)
    requires ChainsSound(s) && after.rows == s.rows && after.origin == s.origin
    ensures ChainsSound(after)
  {
  }

  /** Revoking rows keeps a chain to one usable row. */
  lemma RevokeKeepsChains(s: Sessions, after: Sessions)
    requires ChainsSound(s) && after.origin == s.origin && after.rows.Keys == s.rows.Keys
    requires forall h :: h in s.rows ==> Revokes(s.rows[h], after.rows[h])
    ensures ChainsSound(after)
  {
    hide OneSession;
    forall h, k | h in after.rows && k in after.rows && after.origin[h] == after.origin[k]
      ensures OneSession(after.rows[h], after.rows[k], h == k)
    {
      RevokedStaysOne(s.rows[h], s.rows[k], after.rows[h], after.rows[k], h == k);
    }
  }

  /** The same session, usable only if it was. */
  predicate Revokes(a: RefreshRow, b: RefreshRow) {
    SameSession(a, b) && (b.revokedAt.None? ==> a.revokedAt.None?)
  }

  lemma RevokedStaysOne(a: RefreshRow, b: RefreshRow, c: RefreshRow, d: RefreshRow, same: bool)
    requires OneSession(a, b, same) && Revokes(a, c) && Revokes(b, d)
    ensures OneSession(c, d, same)
  {
  }

  /** A new row joins a chain that has no usable row left. */
  lemma JoinKeepsChains(s: Sessions, hash: Hash, newHash: Hash, row: RefreshRow)
    requires ChainsSound(s) && hash in s.rows && newHash !in s.rows && SameSession(s.rows[hash], row)
    requires forall h :: h in s.rows && s.origin[h] == s.origin[hash] ==> s.rows[h].revokedAt.Some?
    ensures ChainsSound(s.(rows := s.rows[newHash := row], origin := s.origin[newHash := s.origin[hash]]))
  {
  }

  lemma RotateKeepsSound(s: Sessions, hash: Hash, newHash: Hash, now: int, newExpiresAt: int)
    requires Sound(s) && Usable(s, hash, now) && newHash !in s.rows
    ensures Sound(Rotated(s, hash, newHash, now, newExpiresAt))
  {
    hide TokenSound, ChainsSound;
    var row := s.rows[hash];
    var revoked := s.(rows := s.rows[hash := row.(revokedAt := Some(now))]);
    RevokeKeepsChains(s, revoked);
    NoneLeftUsable(s, hash);
    InOrigin(s, hash);
    JoinKeepsChains(revoked, hash, newHash, row.(expiresAt := newExpiresAt, revokedAt := None));
    TokensSurvive(s, Rotated(s, hash, newHash, now, newExpiresAt));
  }

  lemma InOrigin(s: Sessions, hash: Hash)
    requires ChainsSound(s) && hash in s.rows
    ensures s.origin.Keys == s.rows.Keys
  {
  }

  lemma NoneLeftUsable(s: Sessions, hash: Hash)
    requires ChainsSound(s) && hash in s.rows && s.rows[hash].revokedAt.None?
    ensures forall h :: h in s.rows && h != hash && s.origin[h] == s.origin[hash] ==> s.rows[h].revokedAt.Some?
  {
  }

  lemma IssueKeepsSound(s: Sessions, t: AccessToken)
    requires Sound(s) && TokenSound(s, t)
    ensures Sound(s.(issued := s.issued + [t]))
  {
  }

  lemma BlockKeepsSound(s: Sessions, presented: OldAccess)
    requires Sound(s)
    ensures Sound(Blocked(s, presented))
  {
    hide TokenSound, ChainsSound;
    TokensSurvive(s, Blocked(s, presented));
    ChainsIgnoreTokens(s, Blocked(s, presented));
  }

  lemma LoginKeepsSound(s: Sessions, c: Call)
    requires Sound(s) && c.Login? && WellFormed(c)
    ensures Sound(Step(s, c))
  {
    hide Sound, Assembled, Consistent, RolesForApp, ChooseAtLogin, Allowed;
    var roles := RolesForApp(Assembled(c.d), c.app);
    if roles != [] {
      LoginChoosesAnAllowedRole(c.d, c.app, c.requested);
      LoginPendsExactlyWhen(roles, c.app, c.requested);
      UnboundLoginIsParent(c.d, c.app, c.requested);
      match ChooseAtLogin(roles, c.app, c.requested)
      case None => IssueKeepsSound(s, AccessToken(c.user, None, None, Some(c.app), None));
      case Some(r) =>
        if c.hash !in s.rows {
          BeginKeepsSound(s, c.hash, RefreshRow(c.user, r.kindergarten, Some(c.app), c.expiresAt, None),
                          AccessToken(c.user, Some(r.role), r.kindergarten, Some(c.app), Some(c.hash)));
        }
    }
  }

  lemma UnboundLoginIsParent(d: Directory, app: App, requested: Option<Id>)
    requires Consistent(d) && RolesForApp(Assembled(d), app) != []
    ensures var chosen := ChooseAtLogin(RolesForApp(Assembled(d), app), app, requested);
      chosen.Some? && chosen.value.kindergarten.None? ==> chosen.value.role.Parent?
  {
    LoginChoosesAnAllowedRole(d, app, requested);
  }

  lemma SelectKeepsSound(s: Sessions, c: Call)
    requires Sound(s) && c.SelectRole? && WellFormed(c)
    ensures Sound(Step(s, c))
  {
    hide Sound, Consistent, SelectedRole, Allowed, AudienceForRole;
    var blocked := Blocked(s, c.presented);
    BlockKeepsSound(s, c.presented);
    if c.caller.role.None? && SelectedRole(c.d, c.kg, c.wanted).Some? && c.hash !in s.rows {
      var role := SelectedRole(c.d, c.kg, c.wanted).value;
      var aud := AudienceForRole(role);
      AudienceIsTheOneThatAllows(role, aud);
      BeginKeepsSound(blocked, c.hash, RefreshRow(c.caller.sub, Some(c.kg), Some(aud), c.expiresAt, None),
                      AccessToken(c.caller.sub, Some(role), Some(c.kg), Some(aud), Some(c.hash)));
    }
  }

  lemma RefreshKeepsSound(s: Sessions, c: Call)
    requires Sound(s) && c.Refresh? && WellFormed(c)
    ensures Sound(Step(s, c))
  {
    hide Sound, ChainsSound, Assembled, Consistent, PickForRotation, Allowed;
    if Usable(s, c.hash, c.now) && c.newHash !in s.rows {
      var row := s.rows[c.hash];
      var rotated := Blocked(Rotated(s, c.hash, c.newHash, c.now, c.newExpiresAt), c.presented);
      RotateKeepsSound(s, c.hash, c.newHash, c.now, c.newExpiresAt);
      BlockKeepsSound(Rotated(s, c.hash, c.newHash, c.now, c.newExpiresAt), c.presented);
      BlockKeepsSound(s, c.presented);
      var roles := RolesForAudience(c.d, row.audience);
      RotationStaysInTenant(c.d, roles, row.kindergarten);
      match PickForRotation(roles, row.kindergarten)
      case None =>
      case Some(r) =>
        IssueKeepsSound(rotated, AccessToken(row.userId, Some(r.role), r.kindergarten, row.audience, Some(c.newHash)));
    }
  }

  lemma LogoutKeepsSound(s: Sessions, c: Call)
    requires Sound(s) && c.Logout?
    ensures Sound(Step(s, c))
  {
    hide TokenSound, ChainsSound;
    var after := Step(s, c);
    TokensSurvive(s, after);
    RevokeKeepsChains(s, after);
  }

  lemma {:induction false} RunsAreSound(s: Sessions, calls: seq<Call>)
    requires Start(s) && forall c :: c in calls ==> WellFormed(c)
    ensures Sound(Run(s, calls))
  {
    hide Step, WellFormed, Sound;
    if calls == [] {
      StartIsSound(s);
    } else {
      var before, c := Run(s, calls[..|calls| - 1]), calls[|calls| - 1];
      RunsAreSound(s, calls[..|calls| - 1]);
      match c
      case Login(_, _, _, _, _, _) => LoginKeepsSound(before, c);
      case SelectRole(_, _, _, _, _, _, _, _) => SelectKeepsSound(before, c);
      case Refresh(_, _, _, _, _, _, _, _) => RefreshKeepsSound(before, c);
      case Logout(_, _, _, _) => LogoutKeepsSound(before, c);
    }
  }

  lemma StartIsSound(s: Sessions)
    requires Start(s)
    ensures Sound(s)
  {
  }

  /** In every run, each token with an audience carries a role that audience
      allows; it never leaves its session's kindergarten, and a session bound
      to none issues only the parent role. */
  lemma TokensStayInAudienceAndTenant(s: Sessions, calls: seq<Call>, t: AccessToken)
    requires Start(s) && forall c :: c in calls ==> WellFormed(c)
    requires t in Run(s, calls).issued && t.role.Some?
    ensures t.aud.Some? ==> Allowed(t.aud.value, t.role.value)
    ensures t.session.Some? && t.session.value in Run(s, calls).rows
    ensures var row := Run(s, calls).rows[t.session.value];
      && t.aud == row.audience
      && (if row.kindergarten.Some? then t.kindergarten == row.kindergarten else t.role == Some(Parent))
  {
    hide Run, WellFormed;
    RunsAreSound(s, calls);
    assert TokenSound(Run(s, calls), t);
  }

  /** Along a rotation chain user, kindergarten and audience never change, and
      at most one of its rows can still be used. */
  lemma ChainsNeverDrift(s: Sessions, calls: seq<Call>, h: Hash, k: Hash)
    requires Start(s) && forall c :: c in calls ==> WellFormed(c)
    requires h in Run(s, calls).rows && k in Run(s, calls).rows
    ensures h in Run(s, calls).origin && k in Run(s, calls).origin
    ensures var t := Run(s, calls);
      t.origin[h] == t.origin[k] ==> OneSession(t.rows[h], t.rows[k], h == k)
  {
    hide Run, WellFormed;
    RunsAreSound(s, calls);
  }

  // ── Refresh tokens are used once ────────────────────────────────────────

  predicate Spent(s: Sessions, h: Hash) { h in s.rows && s.rows[h].revokedAt.Some? }

  lemma SpentAfter(s: Sessions, c: Call, h: Hash)
    requires Spent(s, h)
    ensures Spent(Step(s, c), h)
  {
    hide SelectedRole, PickForRotation, RolesForAudience, ChooseAtLogin, RolesForApp, Assembled, AudienceForRole;
  }

  /** A refresh honours the token it was given. */
  predicate Honours(s: Sessions, c: Call, h: Hash) { c.Refresh? && c.hash == h && Outcome(s, c).error.None? }

  lemma HonouredIsSpent(s: Sessions, c: Call, h: Hash)
    requires Honours(s, c, h)
    ensures !Spent(s, h) && Spent(Step(s, c), h)
  {
    hide PickForRotation, RolesForAudience, Assembled;
  }

  function TimesHonoured(s: Sessions, calls: seq<Call>, h: Hash): nat {
    if calls == [] then 0
    else
      TimesHonoured(s, calls[..|calls| - 1], h)
      + if Honours(Run(s, calls[..|calls| - 1]), calls[|calls| - 1], h) then 1 else 0
  }

  /** Over any run, from any state, a refresh token is honoured at most once,
      and never when it was revoked before. */
  lemma {:induction false} HonouredAtMostOnce(s: Sessions, calls: seq<Call>, h: Hash)
    ensures TimesHonoured(s, calls, h) <= 1
    ensures TimesHonoured(s, calls, h) == 1 ==> Spent(Run(s, calls), h)
    ensures Spent(s, h) ==> TimesHonoured(s, calls, h) == 0 && Spent(Run(s, calls), h)
  {
    hide Step, Spent, Honours;
    if calls != [] {
      var before, c := Run(s, calls[..|calls| - 1]), calls[|calls| - 1];
      HonouredAtMostOnce(s, calls[..|calls| - 1], h);
      if Spent(before, h) { SpentAfter(before, c, h); }
      if Honours(before, c, h) { HonouredIsSpent(before, c, h); }
    }
  }

  // ── Role selection ──────────────────────────────────────────────────────

  /** Selection looks at the user's roles, not at the app the pending login was
      for: the session it begins is of that app exactly when the selected role
      is one the app allows. */
  lemma SelectionKeepsTheAppExactlyWhen(s: Sessions, c: Call)
    requires c.SelectRole? && Outcome(s, c).error.None? && c.caller.aud.Some?
    ensures SelectedRole(c.d, c.kg, c.wanted).Some?
    ensures c.hash in Outcome(s, c).after.rows && Outcome(s, c).after.rows[c.hash].userId == c.caller.sub
    ensures Outcome(s, c).after.rows[c.hash].audience == c.caller.aud
       <==> Allowed(c.caller.aud.value, SelectedRole(c.d, c.kg, c.wanted).value)
  {
    hide Allowed, AudienceForRole, SelectedRole;
    var role := SelectedRole(c.d, c.kg, c.wanted).value;
    AudienceIsTheOneThatAllows(role, c.caller.aud.value);
  }

  const MENTOR_A: StaffEntry := StaffEntry("a", Mentor, None)
  const MENTOR_B: StaffEntry := StaffEntry("b", Mentor, None)
  const ADMIN_C: StaffEntry := StaffEntry("c", Admin, None)
  const THREE_POSTS: Directory := Directory([MENTOR_A, MENTOR_B, ADMIN_C], [], [])

  lemma TwoStaffRoles()
    ensures |RolesForApp(Assembled(THREE_POSTS), StaffApp)| == 2
  {
    var d := THREE_POSTS;
    var va, vb, vc := StaffView(d, MENTOR_A), StaffView(d, MENTOR_B), StaffView(d, ADMIN_C);
    assert Assembled(d) == [va, vb, vc];
    assert [va, vb, vc][1..] == [vb, vc] && [vb, vc][1..] == [vc] && [vc][1..] == [];
    assert Filter([], StaffApp) == [];
    assert Filter([vc], StaffApp) == [];
    assert Filter([vb, vc], StaffApp) == [vb] + Filter([vc], StaffApp) == [vb];
    assert Filter([va, vb, vc], StaffApp) == [va] + Filter([vb, vc], StaffApp) == [va, vb];
  }

  lemma AdminAtC()
    ensures SelectedRole(THREE_POSTS, "c", AnyRole) == Some(Admin)
  {
    var a, b, c := MENTOR_A, MENTOR_B, ADMIN_C;
    assert [a, b, c][1..] == [b, c] && [b, c][1..] == [c];
    assert MatchStaff([c], "c", AnyRole) == Some(Admin) && MatchStaff([b, c], "c", AnyRole) == Some(Admin);
  }

  /** A login to the staff app that pends between two kindergartens may select
      the third, where the user is an admin, and ends up in the admin app. */
  lemma PendingStaffLoginSelectsAdmin(s: Sessions, user: Id)
    requires "h" !in s.rows
    ensures var pending := AccessToken(user, None, None, Some(StaffApp), None);
      var login := LoginCall(s, user, StaffApp, None, THREE_POSTS, "h", 0);
      var none := OldAccess("", None);
      var selected := SelectRoleCall(login.after, pending, "c", AnyRole, none, THREE_POSTS, true, "h", 0);
      && Consistent(THREE_POSTS) && login.error.None? && pending in login.after.issued
      && selected.error.None? && "h" in selected.after.rows && selected.after.rows["h"].audience == Some(AdminApp)
  {
    hide RolesForApp, Assembled, SelectedRole;
    TwoStaffRoles();
    AdminAtC();
    LoginPendsExactlyWhen(RolesForApp(Assembled(THREE_POSTS), StaffApp), StaffApp, None);
  }

  // ── The blocklist ───────────────────────────────────────────────────────

  /** A presented access token is blocked exactly by the calls that get as far
      as replacing it, whether or not they fail later. */
  lemma PresentedTokenIsBlockedExactlyWhen(s: Sessions, c: Call)
    requires !c.Login? && Blockable(c.presented) && c.presented.jti !in s.blocklist
    ensures c.presented.jti in Outcome(s, c).after.blocklist <==>
      match c
      case SelectRole(caller, kg, wanted, _, d, _, _, _) => caller.role.None? && SelectedRole(d, kg, wanted).Some?
      case Refresh(hash, newHash, now, _, _, _, _, _) => Usable(s, hash, now) && newHash !in s.rows
      case _ => true
  {
    hide SelectedRole, PickForRotation, Assembled;
  }

  /** Nothing in a run unblocks a token. */
  lemma {:induction false} BlocklistOnlyGrows(s: Sessions, calls: seq<Call>)
    ensures s.blocklist <= Run(s, calls).blocklist
  {
    hide Step;
    if calls != [] {
      BlocklistOnlyGrows(s, calls[..|calls| - 1]);
      StepKeepsBlocked(Run(s, calls[..|calls| - 1]), calls[|calls| - 1]);
    }
  }

  /** The access token a selection or refresh presented, once it succeeded. */
  predicate Replaces(s: Sessions, c: Call, jti: Jti) {
    && (c.SelectRole? || c.Refresh?) && Enabled(s, c) && Outcome(s, c).error.None?
    && Blockable(c.presented) && c.presented.jti == jti
  }

  lemma ReplacedIsBlocked(s: Sessions, c: Call, jti: Jti)
    requires Replaces(s, c, jti)
    ensures jti in Step(s, c).blocklist
  {
    hide SelectedRole, PickForRotation, RolesForAudience, Assembled, AudienceForRole;
  }

  /** In every run each access token that a successful selection or refresh
      replaced, or a logout presented, is on the blocklist at the end. */
  lemma {:induction false} ReplacedTokensStayBlocked(s: Sessions, calls: seq<Call>, i: nat)
    requires i < |calls| && !calls[i].Login? && Blockable(calls[i].presented)
    requires calls[i].Logout? || Replaces(Run(s, calls[..i]), calls[i], calls[i].presented.jti)
    ensures calls[i].presented.jti in Run(s, calls).blocklist
  {
    hide Replaces;
    var n := |calls| - 1;
    var before := Run(s, calls[..n]);
    if i < n {
      assert calls[..n][..i] == calls[..i];
      ReplacedTokensStayBlocked(s, calls[..n], i);
      StepKeepsBlocked(before, calls[n]);
    } else if !calls[i].Logout? {
      ReplacedIsBlocked(before, calls[i], calls[i].presented.jti);
    }
  }

  lemma StepKeepsBlocked(s: Sessions, c: Call)
    ensures s.blocklist <= Step(s, c).blocklist
  {
    hide SelectedRole, PickForRotation, RolesForAudience, Assembled, ChooseAtLogin, RolesForApp, AudienceForRole;
  }
}
