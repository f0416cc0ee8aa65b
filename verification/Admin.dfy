/** User and role administration.  Each handler is one atomic step over the stored users,
    roles and role assignments; a request a guard refuses, or that names something that
    does not exist, leaves the store alone. */
module Admin {

  type UserId = nat
  type RoleId = nat

  datatype User = User(isSuper: bool, disabled: bool)
  datatype Role = Role(name: string, builtin: bool, perms: set<string>)

  datatype State = State(
    users: map<UserId, User>, roles: map<RoleId, Role>,
    grants: set<(UserId, RoleId)>,  // user_roles
    catalog: set<string>)           // the permission keys that exist

  const SUPER_ROLE := "Super Administrator"
  const WILDCARD := "Admin.All"

  datatype Request =
    | CreateUser(id: UserId, super: bool, named: bool, valid: bool)
    | UpdateUser(uid: UserId, disabled: bool)
    | DisableUser(uid: UserId, disabled: bool)
    | DeleteUser(uid: UserId)
    | SetSuperAdmin(uid: UserId, super: bool)
    | AssignRole(uid: UserId, rid: RoleId)
    | RemoveRole(uid: UserId, rid: RoleId)
    | CreateRole(id: RoleId, name: string)
    | DeleteRole(rid: RoleId)
    | SetRolePermissions(rid: RoleId, perms: seq<string>)

  /** HTTP status a handler answers with. */
  datatype Answer = Done | BadRequest | Forbidden | ServerError

  // ----- reading the store -----

  predicate Granted(s: State, u: UserId, p: string) {
    exists g :: g in s.grants && g.0 == u && g.1 in s.roles && p in s.roles[g.1].perms
  }

  /** Principal.Has for an account that is not a super administrator. */
  predicate Holds(s: State, u: UserId, p: string) { Granted(s, u, WILDCARD) || Granted(s, u, p) }

  predicate IsSuper(s: State, u: UserId) { u in s.users && s.users[u].isSuper }

  predicate Has(s: State, u: UserId, p: string) { IsSuper(s, u) || Holds(s, u, p) }

  function RoleName(s: State, rid: RoleId): string { if rid in s.roles then s.roles[rid].name else "" }

  function RolePerms(s: State, rid: RoleId): set<string> { if rid in s.roles then s.roles[rid].perms else {} }

  function ActiveSupers(s: State): set<UserId> {
    set u | u in s.users && s.users[u].isSuper && !s.users[u].disabled
  }

  // ----- the guards -----

  /** The request is authenticated and passes the route's permission check. */
  predicate Admitted(s: State, actor: UserId, permission: string) {
    actor in s.users && !s.users[actor].disabled && Has(s, actor, permission)
  }

  predicate Ungrantable(s: State, actor: UserId, perms: set<string>) {
    exists p :: p in perms && !Has(s, actor, p)
  }

  predicate SuperTarget(s: State, actor: UserId, target: UserId) { !IsSuper(s, actor) && IsSuper(s, target) }

  predicate LastSuper(s: State, target: UserId) {
    target in s.users && s.users[target].isSuper && !s.users[target].disabled && |ActiveSupers(s)| <= 1
  }

  // ----- the store's writes -----

  function SetDisabled(s: State, u: UserId, disabled: bool): State {
    if u in s.users then s.(users := s.users[u := s.users[u].(disabled := disabled)]) else s
  }

  function SetSuper(s: State, u: UserId, super: bool): State {
    if u in s.users then s.(users := s.users[u := s.users[u].(isSuper := super)]) else s
  }

  function Grant(s: State, u: UserId, rid: RoleId): State {
    if u in s.users && rid in s.roles then s.(grants := s.grants + {(u, rid)}) else s
  }

  function Revoke(s: State, u: UserId, rid: RoleId): State { s.(grants := s.grants - {(u, rid)}) }

  function GrantByName(s: State, u: UserId, name: string): State {
    if u in s.users
    then s.(grants := s.grants + set r | r in s.roles && s.roles[r].name == name :: (u, r)) else s
  }

  function RevokeByName(s: State, u: UserId, name: string): State {
    s.(grants := set g | g in s.grants && !(g.0 == u && g.1 in s.roles && s.roles[g.1].name == name))
  }

  function DropUser(s: State, u: UserId): State {
    s.(users := s.users - {u}, grants := set g | g in s.grants && g.0 != u)
  }

  // ----- the handlers -----

  /** The first thing that stands in the request's way.  For a new account `named` is a proper user name
      with a password, `valid` an acceptable e-mail address and password. */
  function AnswerTo(s: State, actor: UserId, q: Request): Answer {
    match q
    case CreateUser(id, super, named, valid) =>
      if !Admitted(s, actor, "User.Create") then Forbidden
      else if !named then BadRequest
      else if super && !IsSuper(s, actor) then Forbidden
      else if !valid then BadRequest
      else if id in s.users then ServerError else Done
    case UpdateUser(u, disabled) => DisableAnswer(s, actor, u, disabled)
    case DisableUser(u, disabled) => DisableAnswer(s, actor, u, disabled)
    case DeleteUser(u) =>
      if !Admitted(s, actor, "User.Delete") || SuperTarget(s, actor, u) then Forbidden
      else if LastSuper(s, u) then BadRequest else Done
    case SetSuperAdmin(u, super) =>
      if !Admitted(s, actor, "User.Edit") || !IsSuper(s, actor) then Forbidden
      else if !super && LastSuper(s, u) then BadRequest else Done
    case AssignRole(u, rid) =>
      if !Admitted(s, actor, "Role.Edit") || Ungrantable(s, actor, RolePerms(s, rid))
         || (RoleName(s, rid) == SUPER_ROLE && !IsSuper(s, actor))
      then Forbidden else if u in s.users && rid in s.roles then Done else ServerError
    case RemoveRole(u, rid) =>
      if !Admitted(s, actor, "Role.Edit") || (RoleName(s, rid) == SUPER_ROLE && !IsSuper(s, actor)) then Forbidden
      else if RoleName(s, rid) == SUPER_ROLE && LastSuper(s, u) then BadRequest else Done
    case CreateRole(id, name) =>
      if !Admitted(s, actor, "Role.Create") then Forbidden
      else if name == "" then BadRequest
      else if id in s.roles || (exists r :: r in s.roles && s.roles[r].name == name) then ServerError else Done
    case DeleteRole(_) => if Admitted(s, actor, "Role.Delete") then Done else Forbidden
    case SetRolePermissions(rid, keys) =>
      if !Admitted(s, actor, "Role.Edit") || Ungrantable(s, actor, Elements(keys)) then Forbidden
      else if keys != [] && !(rid in s.roles && Elements(keys) <= s.catalog) then ServerError else Done
  }

  function DisableAnswer(s: State, actor: UserId, u: UserId, disabled: bool): Answer {
    if !Admitted(s, actor, "User.Edit") || SuperTarget(s, actor, u) then Forbidden
    else if disabled && LastSuper(s, u) then BadRequest else Done
  }

  function Elements(keys: seq<string>): set<string> { set k | k in keys }

  /** What the store makes of a request nothing stands in the way of. */
  function Perform(s: State, q: Request): State {
    match q
    case CreateUser(id, super, _, _) =>
      var s1 := s.(users := s.users[id := User(super, false)]);
      if super then GrantByName(s1, id, SUPER_ROLE) else s1
    case UpdateUser(u, disabled) => SetDisabled(s, u, disabled)
    case DisableUser(u, disabled) => SetDisabled(s, u, disabled)
    case DeleteUser(u) => DropUser(s, u)
    case SetSuperAdmin(u, super) =>
      var s1 := SetSuper(s, u, super);
      if super then GrantByName(s1, u, SUPER_ROLE) else RevokeByName(s1, u, SUPER_ROLE)
    case AssignRole(u, rid) => Grant(if RoleName(s, rid) == SUPER_ROLE then SetSuper(s, u, true) else s, u, rid)
    case RemoveRole(u, rid) => Revoke(if RoleName(s, rid) == SUPER_ROLE then SetSuper(s, u, false) else s, u, rid)
    case CreateRole(id, name) => s.(roles := s.roles[id := Role(name, false, {})])
    case DeleteRole(rid) =>
      if rid in s.roles && !s.roles[rid].builtin
      then s.(roles := s.roles - {rid}, grants := set g | g in s.grants && g.1 != rid) else s
    case SetRolePermissions(rid, keys) =>
      if rid in s.roles then s.(roles := s.roles[rid := s.roles[rid].(perms := Elements(keys))]) else s
  }

  function Step(s: State, actor: UserId, q: Request): State {
    if AnswerTo(s, actor, q) == Done then Perform(s, q) else s
  }

  function Run(s: State, qs: seq<(UserId, Request)>): State
    decreases |qs|
  {
    if qs == [] then s else Run(Step(s, qs[0].0, qs[0].1), qs[1..])
  }

  // ----- what every run keeps -----

  /** Role assignments name existing users and roles, role names are unique, and the built-in
      Super Administrator role is there. */
  ghost predicate WellFormed(s: State) {
    && (forall g :: g in s.grants ==> g.0 in s.users && g.1 in s.roles)
    && (forall r, q :: r in s.roles && q in s.roles && s.roles[r].name == s.roles[q].name ==> r == q)
    && (exists r :: r in s.roles && s.roles[r].name == SUPER_ROLE && s.roles[r].builtin)
  }

  predicate HoldsSuperRole(s: State, u: UserId) {
    exists g :: g in s.grants && g.0 == u && g.1 in s.roles && s.roles[g.1].name == SUPER_ROLE
  }

  /** The built-in role and the is_super_admin flag say the same thing about every user. */
  ghost predicate Mirrored(s: State) {
    forall u :: u in s.users ==> (s.users[u].isSuper <==> HoldsSuperRole(s, u))
  }

  ghost predicate Inv(s: State) { WellFormed(s) && Mirrored(s) && ActiveSupers(s) != {} }

  lemma RolesStayWellFormed(s: State, actor: UserId, q: Request)
    requires WellFormed(s) && (q.CreateRole? || q.DeleteRole? || q.SetRolePermissions?)
    ensures WellFormed(Step(s, actor, q))
  {
    var s' := Step(s, actor, q);
    var r :| r in s.roles && s.roles[r].name == SUPER_ROLE && s.roles[r].builtin;
    assert r in s'.roles && s'.roles[r].name == SUPER_ROLE && s'.roles[r].builtin;
  }

  lemma UsersStayWellFormed(s: State, actor: UserId, q: Request)
    requires WellFormed(s) && !(q.CreateRole? || q.DeleteRole? || q.SetRolePermissions?)
    ensures WellFormed(Step(s, actor, q))
  {
    var s' := Step(s, actor, q);
    assert s'.roles == s.roles;
  }

  lemma WellFormedStep(s: State, actor: UserId, q: Request)
    requires WellFormed(s)
    ensures WellFormed(Step(s, actor, q))
  {
    if q.CreateRole? || q.DeleteRole? || q.SetRolePermissions? { RolesStayWellFormed(s, actor, q); }
    else { UsersStayWellFormed(s, actor, q); }
  }

  /** `sr` is the one Super Administrator role. */
  predicate IsSuperRole(s: State, sr: RoleId) {
    && sr in s.roles && s.roles[sr].name == SUPER_ROLE && s.roles[sr].builtin
    && forall r :: r in s.roles && s.roles[r].name == SUPER_ROLE ==> r == sr
  }

  predicate MirroredAt(s: State, sr: RoleId) {
    forall u :: u in s.users ==> (s.users[u].isSuper <==> (u, sr) in s.grants)
  }

  lemma MirroredIffAt(s: State, sr: RoleId)
    requires WellFormed(s) && IsSuperRole(s, sr)
    ensures Mirrored(s) <==> MirroredAt(s, sr)
  {
    forall u | u in s.users ensures HoldsSuperRole(s, u) <==> (u, sr) in s.grants {
      if (u, sr) in s.grants { assert (u, sr).0 == u; }
    }
  }

  lemma FlagStepsMirror(s: State, actor: UserId, q: Request, sr: RoleId)
    requires WellFormed(s) && IsSuperRole(s, sr) && MirroredAt(s, sr)
    requires q.CreateUser? || q.SetSuperAdmin? || q.DisableUser? || q.UpdateUser? || q.DeleteUser?
    ensures MirroredAt(Step(s, actor, q), sr)
  {
  }

  lemma RoleStepsMirror(s: State, actor: UserId, q: Request, sr: RoleId)
    requires WellFormed(s) && IsSuperRole(s, sr) && MirroredAt(s, sr)
    requires !(q.CreateUser? || q.SetSuperAdmin? || q.DisableUser? || q.UpdateUser? || q.DeleteUser?)
    ensures MirroredAt(Step(s, actor, q), sr)
  {
  }

  lemma MirroredStep(s: State, actor: UserId, q: Request)
    requires WellFormed(s) && Mirrored(s)
    ensures Mirrored(Step(s, actor, q))
  {
    var s' := Step(s, actor, q);
    WellFormedStep(s, actor, q);
    var sr :| sr in s.roles && s.roles[sr].name == SUPER_ROLE && s.roles[sr].builtin;
    MirroredIffAt(s, sr);
    if q.CreateUser? || q.SetSuperAdmin? || q.DisableUser? || q.UpdateUser? || q.DeleteUser? {
      FlagStepsMirror(s, actor, q, sr);
    } else {
      RoleStepsMirror(s, actor, q, sr);
    }
    SuperRoleStays(s, actor, q, sr);
    MirroredIffAt(s', sr);
  }

  lemma SuperRoleStays(s: State, actor: UserId, q: Request, sr: RoleId)
    requires IsSuperRole(s, sr)
    ensures IsSuperRole(Step(s, actor, q), sr)
  {
  }

  /** Removing one of at least two leaves one. */
  lemma OneRemains(a: set<UserId>, u: UserId)
    requires |a| > 1
    ensures a - {u} != {}
  {
    assert |a - {u}| >= |a| - 1;
  }

  lemma SupersStep(s: State, actor: UserId, q: Request)
    requires ActiveSupers(s) != {}
    ensures ActiveSupers(Step(s, actor, q)) != {}
  {
    var s' := Step(s, actor, q);
    var w :| w in ActiveSupers(s);
    if w !in ActiveSupers(s') {
      if |ActiveSupers(s)| <= 1 {
        assert false;
      }
      OneRemains(ActiveSupers(s), w);
      var v :| v in ActiveSupers(s) - {w};
      assert v in ActiveSupers(s');
    }
  }

  lemma StepKeepsInv(s: State, actor: UserId, q: Request)
    requires Inv(s)
    ensures Inv(Step(s, actor, q))
  {
    WellFormedStep(s, actor, q);
    MirroredStep(s, actor, q);
    SupersStep(s, actor, q);
  }

  /** Every run keeps an enabled super administrator and keeps role and flag in step. */
  lemma {:induction false} RunKeepsInv(s: State, qs: seq<(UserId, Request)>)
    requires Inv(s)
    ensures Inv(Run(s, qs))
    decreases |qs|
  {
    if qs != [] {
      StepKeepsInv(s, qs[0].0, qs[0].1);
      RunKeepsInv(Step(s, qs[0].0, qs[0].1), qs[1..]);
    }
  }

  // ----- what an answer means -----

  /** The store is as the request wanted it. */
  predicate Achieved(s: State, q: Request) {
    match q
    case CreateUser(id, super, _, _) => id in s.users && s.users[id] == User(super, false)
    case UpdateUser(u, disabled) => u in s.users && s.users[u].disabled == disabled
    case DisableUser(u, disabled) => u in s.users && s.users[u].disabled == disabled
    case DeleteUser(u) => u !in s.users && forall g :: g in s.grants ==> g.0 != u
    case SetSuperAdmin(u, super) => u in s.users && s.users[u].isSuper == super && HoldsSuperRole(s, u) == super
    case AssignRole(u, rid) => (u, rid) in s.grants
    case RemoveRole(u, rid) => (u, rid) !in s.grants
    case CreateRole(id, name) => id in s.roles && s.roles[id] == Role(name, false, {})
    case DeleteRole(rid) => rid !in s.roles && forall g :: g in s.grants ==> g.1 != rid
    case SetRolePermissions(rid, keys) => rid in s.roles && s.roles[rid].perms == Elements(keys)
  }

  /** What the request is about can be had: accounts to change and roles to fill exist, and a role to
      delete is not built in. */
  predicate TargetThere(s: State, q: Request) {
    match q
    case UpdateUser(u, _) => u in s.users
    case DisableUser(u, _) => u in s.users
    case SetSuperAdmin(u, _) => u in s.users
    case DeleteRole(rid) => rid !in s.roles || !s.roles[rid].builtin
    case SetRolePermissions(rid, _) => rid in s.roles
    case _ => true
  }

  lemma SuperRoleFollows(s: State, actor: UserId, q: Request)
    requires Inv(s) && q.SetSuperAdmin? && AnswerTo(s, actor, q) == Done && q.uid in s.users
    ensures Achieved(Step(s, actor, q), q)
  {
    StepKeepsInv(s, actor, q);
    assert q.uid in Step(s, actor, q).users;
  }

  /** A request answered with success took effect exactly when its target was there; any other answer means
      nothing changed. */
  lemma AnswerMeans(s: State, actor: UserId, q: Request)
    requires Inv(s)
    ensures AnswerTo(s, actor, q) == Done ==> (Achieved(Step(s, actor, q), q) <==> TargetThere(s, q))
    ensures AnswerTo(s, actor, q) != Done ==> Step(s, actor, q) == s
  {
    if AnswerTo(s, actor, q) == Done && q.SetSuperAdmin? && q.uid in s.users { SuperRoleFollows(s, actor, q); }
  }

  /** Success without the target is success without any effect. */
  lemma SuccessWithoutEffect(s: State, actor: UserId, q: Request)
    requires WellFormed(s) && AnswerTo(s, actor, q) == Done && !TargetThere(s, q)
    ensures Step(s, actor, q) == s
  {
    if q.SetSuperAdmin? { assert forall g :: g in s.grants ==> g.0 != q.uid; }
  }

  /** Such answers are given: to anyone who may delete roles, for a built-in role; to anyone who may edit
      accounts, for one that does not exist; and to anyone who may edit roles, for no permissions at all in a
      role that does not exist. */
  lemma SuccessIsNotEffect(s: State, actor: UserId, rid: RoleId, none: RoleId, u: UserId, disabled: bool)
    requires rid in s.roles && s.roles[rid].builtin && none !in s.roles && u !in s.users
    ensures Admitted(s, actor, "Role.Delete") ==>
              AnswerTo(s, actor, DeleteRole(rid)) == Done && !TargetThere(s, DeleteRole(rid))
    ensures Admitted(s, actor, "User.Edit") ==>
              AnswerTo(s, actor, DisableUser(u, disabled)) == Done && !TargetThere(s, DisableUser(u, disabled))
    ensures Admitted(s, actor, "Role.Edit") ==>
              AnswerTo(s, actor, SetRolePermissions(none, [])) == Done && !TargetThere(s, SetRolePermissions(none, []))
  {
    assert Elements([]) == {};
  }

  // ----- authority of those who are not super administrators -----

  /** Every request of the run comes from someone who is not a super administrator then. */
  ghost predicate ByNonSupers(s: State, qs: seq<(UserId, Request)>)
    decreases |qs|
  {
    qs == [] || (!IsSuper(s, qs[0].0) && ByNonSupers(Step(s, qs[0].0, qs[0].1), qs[1..]))
  }

  /** Somebody who is not a super administrator effectively holds the permission. */
  ghost predicate Reachable(s: State, p: string) {
    exists u :: u in s.users && !s.users[u].isSuper && Holds(s, u, p)
  }

  /** Nobody but a super administrator can touch who is one, or such an account's state. */
  lemma SupersUntouchedStep(s: State, actor: UserId, q: Request, u: UserId)
    requires !IsSuper(s, actor)
    ensures IsSuper(Step(s, actor, q), u) <==> IsSuper(s, u)
    ensures IsSuper(s, u) ==> Step(s, actor, q).users[u] == s.users[u]
  {
  }

  /** A permission in a role somebody newly gets, or newly in a role somebody has, was the actor's. */
  lemma GrantIsBacked(s: State, actor: UserId, q: Request, u: UserId, k: string)
    requires WellFormed(s) && !IsSuper(s, actor) && u in Step(s, actor, q).users
    requires Granted(Step(s, actor, q), u, k)
    ensures (u in s.users && Granted(s, u, k)) || (actor in s.users && Holds(s, actor, k))
  {
    var s' := Step(s, actor, q);
    var g :| g in s'.grants && g.0 == u && g.1 in s'.roles && k in s'.roles[g.1].perms;
    if g in s.grants && g.1 in s.roles && k in s.roles[g.1].perms {
    } else if q.AssignRole? {
      assert k in RolePerms(s, q.rid) && Has(s, actor, k);
    } else {
      assert q.SetRolePermissions? && k in Elements(q.perms) && Has(s, actor, k);
    }
  }

  lemma NoEscalationStep(s: State, actor: UserId, q: Request, p: string)
    requires WellFormed(s) && !IsSuper(s, actor) && Reachable(Step(s, actor, q), p)
    ensures Reachable(s, p)
  {
    var s' := Step(s, actor, q);
    var u :| u in s'.users && !s'.users[u].isSuper && Holds(s', u, p);
    var k := if Granted(s', u, WILDCARD) then WILDCARD else p;
    GrantIsBacked(s, actor, q, u, k);
    SupersUntouchedStep(s, actor, q, u);
    if u in s.users && Granted(s, u, k) {
      assert Holds(s, u, p);
    } else {
      assert Holds(s, actor, p);
    }
  }

  /** Over any run of requests by accounts that are not super administrators, those accounts' combined
      authority never grows: a permission one of them holds at the end, one of them held at the start. */
  lemma {:induction false} NoEscalation(s: State, qs: seq<(UserId, Request)>, p: string)
    requires WellFormed(s) && ByNonSupers(s, qs) && Reachable(Run(s, qs), p)
    ensures Reachable(s, p)
    decreases |qs|
  {
    if qs != [] {
      WellFormedStep(s, qs[0].0, qs[0].1);
      NoEscalation(Step(s, qs[0].0, qs[0].1), qs[1..], p);
      NoEscalationStep(s, qs[0].0, qs[0].1, p);
    }
  }

  /** Over such a run the super administrators stay exactly who they were, each as enabled as before. */
  lemma {:induction false} SupersUntouched(s: State, qs: seq<(UserId, Request)>, u: UserId)
    requires ByNonSupers(s, qs)
    ensures IsSuper(Run(s, qs), u) <==> IsSuper(s, u)
    ensures IsSuper(s, u) ==> Run(s, qs).users[u] == s.users[u]
    decreases |qs|
  {
    if qs != [] {
      SupersUntouchedStep(s, qs[0].0, qs[0].1, u);
      SupersUntouched(Step(s, qs[0].0, qs[0].1), qs[1..], u);
    }
  }
}
