/** Which roles a user has, which of them an app may see, and which one a session
    is bound to. */
module AuthRoles {
  import opened Options

  type Id = string

  /** Staff rows carry the first four (a CHECK of `staff_members`). */
  datatype Role = Admin | Mentor | Specialist | Reception | Parent

  datatype App = ParentApp | StaffApp | AdminApp

  datatype StaffEntry = StaffEntry(kindergarten: Id, role: Role, specialistType: Option<string>)

  datatype Assignment = Assignment(kindergarten: Id, groupId: Id, isPrimary: bool)

  /** What the database says of a user at one moment: active staff rows,
      kindergartens with an approved guardian link, active mentor assignments. */
  datatype Directory = Directory(staff: seq<StaffEntry>, guardianKgs: seq<Id>, mentors: seq<Assignment>)

  /** One active staff row per kindergarten, none of them a parent, and distinct
      guardian kindergartens: what the schema and the query ensure. */
  predicate Consistent(d: Directory) {
    && (forall i, j :: 0 <= i < j < |d.staff| ==> d.staff[i].kindergarten != d.staff[j].kindergarten)
    && (forall i, j :: 0 <= i < j < |d.guardianKgs| ==> d.guardianKgs[i] != d.guardianKgs[j])
    && (forall s :: s in d.staff ==> !s.role.Parent?)
  }

  datatype RoleView = RoleView(
    role: Role, kindergarten: Option<Id>, groupId: Option<Id>, specialistType: Option<string>)

  const UNSCOPED: RoleView := RoleView(Parent, None, None, None)

  // ── Role assembly ───────────────────────────────────────────────────────

  /** The group a mentor is shown with: the last primary assignment in the
      kindergarten, else the first. */
  function PrimaryGroup(mentors: seq<Assignment>, kg: Id): Option<Id> {
    match LastPrimary(mentors, kg)
    case Some(g) => Some(g)
    case None => FirstGroup(mentors, kg)
  }

  function LastPrimary(mentors: seq<Assignment>, kg: Id): Option<Id> {
    if mentors == [] then None
    else
      var a := mentors[|mentors| - 1];
      if a.kindergarten == kg && a.isPrimary then Some(a.groupId) else LastPrimary(mentors[..|mentors| - 1], kg)
  }

  function FirstGroup(mentors: seq<Assignment>, kg: Id): Option<Id> {
    if mentors == [] then None
    else
      match FirstGroup(mentors[..|mentors| - 1], kg)
      case Some(g) => Some(g)
      case None =>
        var a := mentors[|mentors| - 1];
        if a.kindergarten == kg then Some(a.groupId) else None
  }

  function StaffView(d: Directory, s: StaffEntry): RoleView {
    RoleView(s.role, Some(s.kindergarten),
             if s.role.Mentor? then PrimaryGroup(d.mentors, s.kindergarten) else None, s.specialistType)
  }

  predicate StaffAt(staff: seq<StaffEntry>, kg: Id) { exists i | 0 <= i < |staff| :: staff[i].kindergarten == kg }

  function ParentViews(staff: seq<StaffEntry>, kgs: seq<Id>): seq<RoleView> {
    if kgs == [] then []
    else
      var kg := kgs[|kgs| - 1];
      ParentViews(staff, kgs[..|kgs| - 1])
      + if StaffAt(staff, kg) then [] else [RoleView(Parent, Some(kg), None, None)]
  }

  /** `assembleRoles`: staff rows first, then a parent row for each kindergarten
      where the user is only a guardian, and an unscoped parent if that is all. */
  function Assembled(d: Directory): (roles: seq<RoleView>)
    ensures roles != []
  {
    var staff := seq(|d.staff|, i requires 0 <= i < |d.staff| => StaffView(d, d.staff[i]));
    var roles := staff + ParentViews(d.staff, d.guardianKgs);
    if roles == [] then [UNSCOPED] else roles
  }

  /** `kindergartensFromRoles`: kindergartens in order of first appearance. */
  function Kindergartens(roles: seq<RoleView>): seq<Id> {
    if roles == [] then []
    else
      var front := Kindergartens(roles[..|roles| - 1]);
      match roles[|roles| - 1].kindergarten
      case None => front
      case Some(kg) => if kg in front then front else front + [kg]
  }

  method KindergartensFromRoles(roles: seq<RoleView>) returns (out: seq<Id>)
    ensures out == Kindergartens(roles)
  {
    var seen: set<Id> := {};
    out := [];
    var i := 0;
    while i < |roles|
      invariant 0 <= i <= |roles|
      invariant out == Kindergartens(roles[..i])
      invariant forall kg :: kg in seen <==> kg in out
    {
      assert roles[..i + 1][..i] == roles[..i];
      var r := roles[i];
      if r.kindergarten.Some? && r.kindergarten.value !in seen {
        seen := seen + {r.kindergarten.value};
        out := out + [r.kindergarten.value];
      }
      i := i + 1;
    }
    assert roles[..i] == roles;
  }

  method AssembleRoles(d: Directory) returns (roles: seq<RoleView>, kindergartens: seq<Id>)
    ensures roles == Assembled(d) && kindergartens == Kindergartens(roles)
  {
    var primaryGroupByKg: map<Id, Id> := map[];
    var i := 0;
    while i < |d.mentors|
      invariant 0 <= i <= |d.mentors|
      invariant forall kg :: (kg in primaryGroupByKg <==> PrimaryGroup(d.mentors[..i], kg).Some?)
      invariant forall kg :: kg in primaryGroupByKg ==> PrimaryGroup(d.mentors[..i], kg) == Some(primaryGroupByKg[kg])
    {
      assert d.mentors[..i + 1][..i] == d.mentors[..i];
      var a := d.mentors[i];
      if a.isPrimary || a.kindergarten !in primaryGroupByKg {
        primaryGroupByKg := primaryGroupByKg[a.kindergarten := a.groupId];
      }
      i := i + 1;
    }
    assert d.mentors[..i] == d.mentors;

    roles := [];
    i := 0;
    while i < |d.staff|
      invariant 0 <= i <= |d.staff| && |roles| == i
      invariant forall j :: 0 <= j < i ==> roles[j] == StaffView(d, d.staff[j])
    {
      var s := d.staff[i];
      var grouped := s.role.Mentor? && s.kindergarten in primaryGroupByKg;
      var group := if grouped then Some(primaryGroupByKg[s.kindergarten]) else None;
      roles := roles + [RoleView(s.role, Some(s.kindergarten), group, s.specialistType)];
      i := i + 1;
    }
    ghost var staffRoles := roles;

    var staffKgIds := set s | s in d.staff :: s.kindergarten;
    i := 0;
    while i < |d.guardianKgs|
      invariant 0 <= i <= |d.guardianKgs|
      invariant roles == staffRoles + ParentViews(d.staff, d.guardianKgs[..i])
    {
      assert d.guardianKgs[..i + 1][..i] == d.guardianKgs[..i];
      var kg := d.guardianKgs[i];
      assert kg in staffKgIds <==> StaffAt(d.staff, kg);
      if kg !in staffKgIds {
        roles := roles + [RoleView(Parent, Some(kg), None, None)];
      }
      i := i + 1;
    }
    assert d.guardianKgs[..i] == d.guardianKgs;
    assert staffRoles == seq(|d.staff|, j requires 0 <= j < |d.staff| => StaffView(d, d.staff[j]));
    if roles == [] {
      assert Kindergartens([UNSCOPED]) == [] by { assert [UNSCOPED][..0] == []; }
      return [UNSCOPED], [];
    }
    kindergartens := KindergartensFromRoles(roles);
  }

  // ── What assembly guarantees ────────────────────────────────────────────

  predicate OncePerKindergarten(roles: seq<RoleView>) {
    forall i, j :: 0 <= i < j < |roles| ==> roles[i].kindergarten != roles[j].kindergarten
  }

  lemma {:induction false} ParentViewsShape(staff: seq<StaffEntry>, kgs: seq<Id>)
    ensures forall r :: r in ParentViews(staff, kgs) ==>
      && r.kindergarten.Some? && r == ParentAt(r.kindergarten.value)
      && r.kindergarten.value in kgs && !StaffAt(staff, r.kindergarten.value)
    ensures forall kg :: kg in kgs && !StaffAt(staff, kg) ==>
      RoleView(Parent, Some(kg), None, None) in ParentViews(staff, kgs)
  {
    if kgs != [] { ParentViewsShape(staff, kgs[..|kgs| - 1]); }
  }

  lemma {:induction false} ParentViewsOnce(staff: seq<StaffEntry>, kgs: seq<Id>)
    requires forall i, j :: 0 <= i < j < |kgs| ==> kgs[i] != kgs[j]
    ensures OncePerKindergarten(ParentViews(staff, kgs))
  {
    if kgs != [] {
      ParentViewsOnce(staff, kgs[..|kgs| - 1]);
      ParentViewsShape(staff, kgs[..|kgs| - 1]);
    }
  }

  /** Where a role comes from: its own staff row, or a guardian link elsewhere. */
  lemma RoleAt(d: Directory, i: nat)
    requires Consistent(d) && i < |Assembled(d)| && Assembled(d) != [UNSCOPED]
    ensures i < |d.staff| ==> Assembled(d)[i] == StaffView(d, d.staff[i]) && !d.staff[i].role.Parent?
    ensures i >= |d.staff| ==>
      i - |d.staff| < |ParentViews(d.staff, d.guardianKgs)|
      && Assembled(d)[i] == ParentViews(d.staff, d.guardianKgs)[i - |d.staff|]
  {
    hide ParentViews;
    if i < |d.staff| { assert d.staff[i] in d.staff; }
  }

  lemma PairwiseApart(d: Directory, i: nat, j: nat)
    requires Consistent(d) && i < j < |Assembled(d)|
    ensures Assembled(d)[i].kindergarten != Assembled(d)[j].kindergarten
  {
    hide Assembled, Consistent;
    var roles := Assembled(d);
    assert roles != [UNSCOPED];
    ParentViewsShape(d.staff, d.guardianKgs);
    RoleAt(d, i);
    RoleAt(d, j);
    if i < |d.staff| && j >= |d.staff| {
      assert roles[j] in ParentViews(d.staff, d.guardianKgs);
    } else {
      ConsistentApart(d);
    }
  }

  lemma ConsistentApart(d: Directory)
    requires Consistent(d)
    ensures forall i, j :: 0 <= i < j < |d.staff| ==> d.staff[i].kindergarten != d.staff[j].kindergarten
    ensures OncePerKindergarten(ParentViews(d.staff, d.guardianKgs))
  {
    ParentViewsOnce(d.staff, d.guardianKgs);
  }

  /** At most one role per kindergarten, staff winning over parent; a role
      without a kindergarten only for a user with neither. */
  lemma OneRolePerKindergarten(d: Directory)
    requires Consistent(d)
    ensures OncePerKindergarten(Assembled(d))
    ensures forall r :: r in Assembled(d) && r.kindergarten.Some? ==>
      (r.role.Parent? <==> !StaffAt(d.staff, r.kindergarten.value))
    ensures forall r :: r in Assembled(d) && r.kindergarten.None? ==> Assembled(d) == [UNSCOPED]
  {
    hide Assembled, Consistent, ParentViews, StaffAt;
    var roles := Assembled(d);
    forall i, j | 0 <= i < j < |roles| ensures roles[i].kindergarten != roles[j].kindergarten {
      PairwiseApart(d, i, j);
    }
    ParentViewsShape(d.staff, d.guardianKgs);
    if roles != [UNSCOPED] {
      forall i | 0 <= i < |roles|
        ensures roles[i].kindergarten.Some?
        ensures roles[i].role.Parent? <==> !StaffAt(d.staff, roles[i].kindergarten.value)
      {
        RoleAt(d, i);
        if i < |d.staff| { StaffIsThere(d.staff, i); }
      }
    }
  }

  lemma StaffIsThere(staff: seq<StaffEntry>, i: nat)
    requires i < |staff|
    ensures StaffAt(staff, staff[i].kindergarten)
  {
  }

  predicate IsLastPrimary(mentors: seq<Assignment>, kg: Id, i: int) {
    && 0 <= i < |mentors| && mentors[i].kindergarten == kg && mentors[i].isPrimary
    && forall j :: i < j < |mentors| && mentors[j].kindergarten == kg ==> !mentors[j].isPrimary
  }

  predicate IsFirst(mentors: seq<Assignment>, kg: Id, i: int) {
    && 0 <= i < |mentors| && mentors[i].kindergarten == kg
    && forall j :: 0 <= j < i ==> mentors[j].kindergarten != kg
  }

  lemma {:induction false} LastPrimaryIs(mentors: seq<Assignment>, kg: Id)
    ensures LastPrimary(mentors, kg).None? <==> forall a :: a in mentors && a.kindergarten == kg ==> !a.isPrimary
    ensures forall i :: IsLastPrimary(mentors, kg, i) ==> LastPrimary(mentors, kg) == Some(mentors[i].groupId)
  {
    if mentors != [] {
      var front, a := mentors[..|mentors| - 1], mentors[|mentors| - 1];
      assert mentors == front + [a];
      LastPrimaryIs(front, kg);
      forall i | IsLastPrimary(mentors, kg, i) ensures LastPrimary(mentors, kg) == Some(mentors[i].groupId) {
        if i < |front| { assert IsLastPrimary(front, kg, i) && mentors[|front|] == a; }
      }
    }
  }

  lemma {:induction false} FirstGroupIs(mentors: seq<Assignment>, kg: Id)
    ensures FirstGroup(mentors, kg).None? <==> forall a :: a in mentors ==> a.kindergarten != kg
    ensures forall i :: IsFirst(mentors, kg, i) ==> FirstGroup(mentors, kg) == Some(mentors[i].groupId)
  {
    if mentors != [] {
      var front, a := mentors[..|mentors| - 1], mentors[|mentors| - 1];
      assert mentors == front + [a];
      FirstGroupIs(front, kg);
      forall i | IsFirst(mentors, kg, i) ensures FirstGroup(mentors, kg) == Some(mentors[i].groupId) {
        if i < |front| { assert IsFirst(front, kg, i); }
        else { assert forall x :: x in front ==> x.kindergarten != kg; }
      }
    }
  }

  /** A mentor's group is the last assignment flagged primary there, else the
      first one there, and there is none only without any assignment there. */
  lemma MentorGroup(mentors: seq<Assignment>, kg: Id)
    ensures PrimaryGroup(mentors, kg).None? <==> forall a :: a in mentors ==> a.kindergarten != kg
    ensures forall i :: IsLastPrimary(mentors, kg, i) ==> PrimaryGroup(mentors, kg) == Some(mentors[i].groupId)
    ensures (forall a :: a in mentors && a.kindergarten == kg ==> !a.isPrimary) ==>
      forall i :: IsFirst(mentors, kg, i) ==> PrimaryGroup(mentors, kg) == Some(mentors[i].groupId)
  {
    hide LastPrimary, FirstGroup;
    LastPrimaryIs(mentors, kg);
    FirstGroupIs(mentors, kg);
  }

  // ── The app's view of the roles ─────────────────────────────────────────

  predicate Allowed(app: App, role: Role) {
    match app
    case ParentApp => role.Parent?
    case StaffApp => role.Mentor? || role.Specialist? || role.Reception?
    case AdminApp => role.Admin?
  }

  function AudienceForRole(role: Role): App {
    if role.Admin? then AdminApp else if role.Parent? then ParentApp else StaffApp
  }

  lemma AudienceIsTheOneThatAllows(role: Role, app: App)
    ensures Allowed(app, role) <==> app == AudienceForRole(role)
  {
  }

  function Filter(roles: seq<RoleView>, app: App): (kept: seq<RoleView>)
    ensures forall r :: r in kept <==> r in roles && Allowed(app, r.role)
  {
    if roles == [] then []
    else if Allowed(app, roles[0].role) then [roles[0]] + Filter(roles[1..], app)
    else Filter(roles[1..], app)
  }

  /** `filterRolesForApp`: a parent session is open to anybody. */
  function RolesForApp(roles: seq<RoleView>, app: App): (kept: seq<RoleView>)
    ensures forall r :: r in kept ==> Allowed(app, r.role)
    ensures app.ParentApp? ==> kept != []
  {
    var kept := Filter(roles, app);
    if kept == [] && app.ParentApp? then [UNSCOPED] else kept
  }

  lemma {:induction false} FilterKeepsOnce(roles: seq<RoleView>, app: App)
    requires OncePerKindergarten(roles)
    ensures OncePerKindergarten(Filter(roles, app))
  {
    if roles != [] {
      FilterKeepsOnce(roles[1..], app);
      assert forall r :: r in roles[1..] ==> r.kindergarten != roles[0].kindergarten;
      assert forall r :: r in Filter(roles[1..], app) ==> r in roles[1..];
    }
  }

  // ── The role a session is bound to ──────────────────────────────────────

  function FindKg(roles: seq<RoleView>, kg: Option<Id>): (found: Option<RoleView>)
    ensures found.Some? ==> found.value in roles && found.value.kindergarten == kg
    ensures found.None? ==> forall r :: r in roles ==> r.kindergarten != kg
  {
    if roles == [] then None
    else if roles[0].kindergarten == kg then Some(roles[0])
    else FindKg(roles[1..], kg)
  }

  function FindRole(roles: seq<RoleView>, parent: bool): (found: Option<RoleView>)
    ensures found.Some? ==> found.value in roles && found.value.role.Parent? == parent
    ensures found.None? ==> forall r :: r in roles ==> r.role.Parent? != parent
  {
    if roles == [] then None
    else if roles[0].role.Parent? == parent then Some(roles[0])
    else FindRole(roles[1..], parent)
  }

  function AtKg(roles: seq<RoleView>, kg: Option<Id>): (kept: seq<RoleView>)
    ensures forall r :: r in kept <==> r in roles && r.kindergarten == kg
    ensures kept == [] <==> forall r :: r in roles ==> r.kindergarten != kg
  {
    if roles == [] then []
    else if roles[0].kindergarten == kg then [roles[0]] + AtKg(roles[1..], kg)
    else AtKg(roles[1..], kg)
  }

  /** `pickRoleForRotation`. */
  function PickForRotation(roles: seq<RoleView>, bound: Option<Id>): Option<RoleView> {
    if bound.None? then
      var unscoped := FindKg(roles, None);
      if unscoped.Some? then unscoped else FindRole(roles, true)
    else
      var matching := AtKg(roles, bound);
      if matching == [] then None
      else
        var staff := FindRole(matching, false);
        if staff.Some? then staff else Some(matching[0])
  }

  /** `issueTokensForUser`'s choice; None is role selection pending. */
  function ChooseAtLogin(roles: seq<RoleView>, app: App, requested: Option<Id>): Option<RoleView>
    requires roles != []
  {
    if app.ParentApp? then Some(if |Kindergartens(roles)| > 1 then UNSCOPED else roles[0])
    else
      var chosen := if requested.Some? then FindKg(roles, requested) else None;
      if chosen.None? && |roles| == 1 then Some(roles[0]) else chosen
  }

  /** A staff or admin login pends exactly when two or more roles remain and
      none is in the requested kindergarten; a parent login never does. */
  lemma LoginPendsExactlyWhen(roles: seq<RoleView>, app: App, requested: Option<Id>)
    requires roles != []
    ensures ChooseAtLogin(roles, app, requested).None? <==>
      !app.ParentApp? && |roles| >= 2 && (requested.Some? ==> forall r :: r in roles ==> r.kindergarten != requested)
  {
  }

  /** Whatever is chosen is one of the app's roles; a parent with roles in
      several kindergartens gets a session bound to none, others one bound to
      the role's own. */
  lemma LoginChoosesAnAllowedRole(d: Directory, app: App, requested: Option<Id>)
    requires Consistent(d) && RolesForApp(Assembled(d), app) != []
    ensures var roles := RolesForApp(Assembled(d), app); var chosen := ChooseAtLogin(roles, app, requested);
      && (chosen.Some? ==> Allowed(app, chosen.value.role) && (chosen.value in roles || chosen.value == UNSCOPED))
      && (chosen.Some? && !app.ParentApp? ==> chosen.value.kindergarten.Some?)
  {
    OneRolePerKindergarten(d);
  }

  /** A rotation of a session bound to a kindergarten picks only that one, of
      an unbound session only the parent role. */
  lemma RotationStaysInTenant(d: Directory, roles: seq<RoleView>, bound: Option<Id>)
    requires Consistent(d) && forall r :: r in roles ==> r in Assembled(d) || r == UNSCOPED
    ensures var picked := PickForRotation(roles, bound);
      && (picked.Some? ==> picked.value in roles)
      && (picked.Some? && bound.Some? ==> picked.value.kindergarten == bound)
      && (picked.Some? && bound.None? ==> picked.value.role.Parent?)
  {
    OneRolePerKindergarten(d);
  }

  /** A refresh re-issues the very role the login chose, as long as the user's
      roles stay the same, except for a parent in several kindergartens: that
      session is bound to none, and narrows to one of them when refreshed. */
  lemma RefreshKeepsTheRoleExactlyWhen(d: Directory, app: App, requested: Option<Id>)
    requires Consistent(d) && RolesForApp(Assembled(d), app) != []
    ensures var roles := RolesForApp(Assembled(d), app); var chosen := ChooseAtLogin(roles, app, requested);
      chosen.Some? ==>
        var again := PickForRotation(roles, chosen.value.kindergarten);
        (again == chosen <==> !app.ParentApp? || |Kindergartens(roles)| <= 1)
  {
    hide Assembled, Consistent;
    OneRolePerKindergarten(d);
    var roles := RolesForApp(Assembled(d), app);
    FilterKeepsOnce(Assembled(d), app);
    UnscopedHasNoKindergarten();
    var chosen := ChooseAtLogin(roles, app, requested);
    assert OncePerKindergarten(roles);
    assert forall r :: r in roles && r.kindergarten.None? ==> roles == [UNSCOPED];
    if chosen.Some? && chosen.value in roles { OnlyOneAt(roles, chosen.value); }
  }

  function ParentAt(kg: Id): RoleView { RoleView(Parent, Some(kg), None, None) }

  lemma {:induction false} OnlyParent(kgs: seq<Id>)
    ensures |ParentViews([], kgs)| == |kgs|
    ensures forall i :: 0 <= i < |kgs| ==> ParentViews([], kgs)[i] == ParentAt(kgs[i])
  {
    if kgs != [] { OnlyParent(kgs[..|kgs| - 1]); }
  }

  lemma {:induction false} AllDistinct(roles: seq<RoleView>, kgs: seq<Id>)
    requires |roles| == |kgs| && forall i :: 0 <= i < |kgs| ==> roles[i] == ParentAt(kgs[i])
    requires forall i, j :: 0 <= i < j < |kgs| ==> kgs[i] != kgs[j]
    ensures Kindergartens(roles) == kgs
  {
    if kgs != [] {
      var n := |kgs| - 1;
      AllDistinct(roles[..n], kgs[..n]);
      assert kgs == kgs[..n] + [kgs[n]];
    }
  }

  lemma {:induction false} FilterKeepsAll(roles: seq<RoleView>, app: App)
    requires forall r :: r in roles ==> Allowed(app, r.role)
    ensures Filter(roles, app) == roles
  {
    if roles != [] { FilterKeepsAll(roles[1..], app); }
  }

  /** The failing family: a user who is only a guardian, in two kindergartens or
      more, logs in bound to none and is refreshed into the first. */
  lemma GuardianOfSeveralNarrows(kgs: seq<Id>)
    requires |kgs| >= 2 && forall i, j :: 0 <= i < j < |kgs| ==> kgs[i] != kgs[j]
    ensures var roles := RolesForApp(Assembled(Directory([], kgs, [])), ParentApp);
      && ChooseAtLogin(roles, ParentApp, None) == Some(UNSCOPED)
      && PickForRotation(roles, UNSCOPED.kindergarten) == Some(ParentAt(kgs[0]))
  {
    hide ParentViews, Kindergartens, Filter, FindKg, AtKg;
    var roles := ParentViews([], kgs);
    OnlyParent(kgs);
    AllDistinct(roles, kgs);
    FilterKeepsAll(roles, ParentApp);
    OnlyGuardian(kgs);
    assert roles[0] == ParentAt(kgs[0]);
  }

  lemma OnlyGuardian(kgs: seq<Id>)
    requires ParentViews([], kgs) != []
    ensures Assembled(Directory([], kgs, [])) == ParentViews([], kgs)
  {
    hide ParentViews;
  }

  lemma UnscopedHasNoKindergarten()
    ensures Kindergartens([UNSCOPED]) == []
  {
    assert [UNSCOPED][..0] == [];
  }

  lemma {:induction false} OnlyOneAt(roles: seq<RoleView>, r: RoleView)
    requires OncePerKindergarten(roles) && r in roles
    ensures AtKg(roles, r.kindergarten) == [r] && FindKg(roles, r.kindergarten) == Some(r)
  {
    if roles[0] == r {
      assert forall x :: x in roles[1..] ==> x.kindergarten != r.kindergarten;
    } else {
      OnlyOneAt(roles[1..], r);
    }
  }
}
