/** Who may do what in administration, and what else a request may touch: stated apart from the handlers'
    checks, and shown to be exactly what they decide. */
module AdminLaws {
  import opened Admin

  /** The permission each request needs. */
  function Route(q: Request): string {
    match q
    case CreateUser(_, _, _, _) => "User.Create"
    case UpdateUser(_, _) => "User.Edit"
    case DisableUser(_, _) => "User.Edit"
    case SetSuperAdmin(_, _) => "User.Edit"
    case DeleteUser(_) => "User.Delete"
    case AssignRole(_, _) => "Role.Edit"
    case RemoveRole(_, _) => "Role.Edit"
    case SetRolePermissions(_, _) => "Role.Edit"
    case CreateRole(_, _) => "Role.Create"
    case DeleteRole(_) => "Role.Delete"
  }

  /** Somebody holds a permission as a super administrator, through the wildcard, or through a role of theirs. */
  predicate MayUse(s: State, u: UserId, p: string) {
    || (u in s.users && s.users[u].isSuper)
    || exists r :: r in s.roles && (u, r) in s.grants && (p in s.roles[r].perms || "Admin.All" in s.roles[r].perms)
  }

  lemma HasIsMayUse(s: State, u: UserId, p: string)
    ensures Has(s, u, p) <==> MayUse(s, u, p)
  {
    if MayUse(s, u, p) && !(u in s.users && s.users[u].isSuper) {
      var r :| r in s.roles && (u, r) in s.grants && (p in s.roles[r].perms || "Admin.All" in s.roles[r].perms);
      assert (u, r).0 == u && (u, r).1 == r;
    }
    if Granted(s, u, WILDCARD) {
      var g :| g in s.grants && g.0 == u && g.1 in s.roles && WILDCARD in s.roles[g.1].perms;
      assert (u, g.1) == g;
    }
    if Granted(s, u, p) {
      var g :| g in s.grants && g.0 == u && g.1 in s.roles && p in s.roles[g.1].perms;
      assert (u, g.1) == g;
    }
  }

  /** The account exists, is enabled and holds what the request needs. */
  predicate Entitled(s: State, actor: UserId, q: Request) {
    actor in s.users && !s.users[actor].disabled && MayUse(s, actor, Route(q))
  }

  /** The request is about super-administrator status, or about an account that has it. */
  predicate ConcernsSuper(s: State, q: Request) {
    match q
    case CreateUser(_, super, _, _) => super
    case UpdateUser(u, _) => u in s.users && s.users[u].isSuper
    case DisableUser(u, _) => u in s.users && s.users[u].isSuper
    case DeleteUser(u) => u in s.users && s.users[u].isSuper
    case SetSuperAdmin(_, _) => true
    case AssignRole(_, rid) => rid in s.roles && s.roles[rid].name == "Super Administrator"
    case RemoveRole(_, rid) => rid in s.roles && s.roles[rid].name == "Super Administrator"
    case _ => false
  }

  /** The permissions the request hands out. */
  function Confers(s: State, q: Request): set<string> {
    match q
    case AssignRole(_, rid) => if rid in s.roles then s.roles[rid].perms else {}
    case SetRolePermissions(_, keys) => set k | k in keys
    case _ => {}
  }

  /** It hands out a permission the account does not hold itself. */
  predicate Overreaches(s: State, actor: UserId, q: Request) {
    exists p :: p in Confers(s, q) && !MayUse(s, actor, p)
  }

  /** The account has the authority the request takes. */
  predicate Authorised(s: State, actor: UserId, q: Request) {
    && Entitled(s, actor, q)
    && (ConcernsSuper(s, q) ==> s.users[actor].isSuper)
    && !Overreaches(s, actor, q)
  }

  /** Carrying the request out would leave no enabled super administrator. */
  predicate Orphans(s: State, q: Request) {
    forall u :: u in Perform(s, q).users ==> !(Perform(s, q).users[u].isSuper && !Perform(s, q).users[u].disabled)
  }

  predicate IllFormed(q: Request) {
    (q.CreateUser? && (!q.named || !q.valid)) || (q.CreateRole? && q.name == "")
  }

  /** The store cannot take it: a name or id is taken, or something it refers to is missing. */
  predicate Conflicts(s: State, q: Request) {
    match q
    case CreateUser(id, _, _, _) => id in s.users
    case CreateRole(id, name) => id in s.roles || exists r :: r in s.roles && s.roles[r].name == name
    case AssignRole(u, rid) => u !in s.users || rid !in s.roles
    case SetRolePermissions(rid, keys) => exists k :: k in keys && (rid !in s.roles || k !in s.catalog)
    case _ => false
  }

  lemma AdmittedIs(s: State, actor: UserId, q: Request)
    ensures Entitled(s, actor, q) <==> Admitted(s, actor, Route(q))
  {
    HasIsMayUse(s, actor, Route(q));
  }

  lemma GrantableIs(s: State, actor: UserId, perms: set<string>)
    ensures Ungrantable(s, actor, perms) <==> exists p :: p in perms && !MayUse(s, actor, p)
  {
    forall p | p in perms ensures Has(s, actor, p) <==> MayUse(s, actor, p) { HasIsMayUse(s, actor, p); }
  }

  /** Losing one account orphans the deployment exactly when it is the last enabled super administrator. */
  lemma LastIs(s: State, u: UserId, after: map<UserId, User>)
    requires ActiveSupers(s) != {}
    requires forall v :: v != u ==> (v in after && after[v].isSuper && !after[v].disabled <==> v in ActiveSupers(s))
    requires !(u in after && after[u].isSuper && !after[u].disabled)
    ensures LastSuper(s, u) <==> forall v :: v in after ==> !(after[v].isSuper && !after[v].disabled)
  {
    var a := ActiveSupers(s);
    if LastSuper(s, u) {
      assert u in a && |a| <= 1;
      OnlyOne(a, u);
    } else if u in a {
      OneRemains(a, u);
      var v :| v in a - {u};
      assert v in after;
    } else {
      var v :| v in a;
      assert v in after;
    }
  }

  lemma OnlyOne(a: set<UserId>, u: UserId)
    requires u in a && |a| <= 1
    ensures a == {u}
  {
    assert |a - {u}| == |a| - 1;
  }

  /** Nothing else about who is an enabled super administrator changes. */
  lemma OthersStay(s: State, q: Request, u: UserId, v: UserId)
    requires v != u && (q == DeleteUser(u) || q == UpdateUser(u, true) || q == DisableUser(u, true)
                        || q == SetSuperAdmin(u, false) || (q.RemoveRole? && q.uid == u))
    ensures var after := Perform(s, q).users;
            v in after && after[v].isSuper && !after[v].disabled <==> v in ActiveSupers(s)
  {
  }

  lemma OrphansIs(s: State, q: Request, u: UserId)
    requires ActiveSupers(s) != {}
    requires q == DeleteUser(u) || q == UpdateUser(u, true) || q == DisableUser(u, true) || q == SetSuperAdmin(u, false)
             || (q.RemoveRole? && q.uid == u && RoleName(s, q.rid) == SUPER_ROLE)
    ensures Orphans(s, q) <==> LastSuper(s, u)
  {
    var after := Perform(s, q).users;
    forall v | v != u ensures v in after && after[v].isSuper && !after[v].disabled <==> v in ActiveSupers(s) {
      OthersStay(s, q, u, v);
    }
    LastIs(s, u, after);
  }

  /** Requests that take nobody's status away orphan nothing. */
  predicate Harmless(s: State, q: Request) {
    match q
    case DeleteUser(_) => false
    case UpdateUser(_, disabled) => !disabled
    case DisableUser(_, disabled) => !disabled
    case SetSuperAdmin(_, super) => super
    case RemoveRole(_, rid) => RoleName(s, rid) != SUPER_ROLE
    case CreateUser(id, _, _, _) => id !in s.users
    case _ => true
  }

  lemma HarmlessKeep(s: State, q: Request)
    requires ActiveSupers(s) != {} && Harmless(s, q)
    ensures !Orphans(s, q)
  {
    var u :| u in ActiveSupers(s);
    var after := Perform(s, q).users;
    assert u in after && after[u].isSuper && !after[u].disabled;
  }

  lemma StoreRefuses(s: State, rid: RoleId, keys: seq<string>)
    ensures Conflicts(s, SetRolePermissions(rid, keys))
            <==> keys != [] && !(rid in s.roles && Elements(keys) <= s.catalog)
  {
    if keys != [] && rid !in s.roles { assert keys[0] in keys; }
    if k :| k in Elements(keys) && k !in s.catalog { assert k in keys; }
  }

  lemma GuardsFacts(s: State, actor: UserId, q: Request)
    requires ActiveSupers(s) != {}
    ensures Entitled(s, actor, q) <==> Admitted(s, actor, Route(q))
    ensures q.AssignRole? ==> (Ungrantable(s, actor, RolePerms(s, q.rid)) <==> Overreaches(s, actor, q))
    ensures q.SetRolePermissions? ==> (Ungrantable(s, actor, Elements(q.perms)) <==> Overreaches(s, actor, q))
  {
    AdmittedIs(s, actor, q);
    if q.AssignRole? { GrantableIs(s, actor, RolePerms(s, q.rid)); }
    if q.SetRolePermissions? { GrantableIs(s, actor, Elements(q.perms)); }
  }

  lemma OrphanFacts(s: State, q: Request)
    requires ActiveSupers(s) != {}
    ensures q.DeleteUser? ==> (Orphans(s, q) <==> LastSuper(s, q.uid))
    ensures q.UpdateUser? || q.DisableUser? ==> (Orphans(s, q) <==> q.disabled && LastSuper(s, q.uid))
    ensures q.SetSuperAdmin? ==> (Orphans(s, q) <==> !q.super && LastSuper(s, q.uid))
    ensures q.RemoveRole? ==> (Orphans(s, q) <==> RoleName(s, q.rid) == SUPER_ROLE && LastSuper(s, q.uid))
    ensures q.CreateUser? && q.id !in s.users ==> !Orphans(s, q)
    ensures q.AssignRole? || q.CreateRole? || q.DeleteRole? || q.SetRolePermissions? ==> !Orphans(s, q)
  {
    if Harmless(s, q) {
      HarmlessKeep(s, q);
    } else if !q.CreateUser? {
      OrphansIs(s, q, q.uid);
    }
  }

  /** A request succeeds exactly when the account has the authority it takes, an enabled super administrator would
      be left, it is well formed, and the store can take it. */
  lemma SucceedsIff(s: State, actor: UserId, q: Request)
    requires ActiveSupers(s) != {}
    ensures AnswerTo(s, actor, q) == Done
            <==> Authorised(s, actor, q) && !IllFormed(q) && !Conflicts(s, q) && !Orphans(s, q)
  {
    GuardsFacts(s, actor, q);
    OrphanFacts(s, q);
    if q.SetRolePermissions? { StoreRefuses(s, q.rid, q.perms); }
  }

  /** And each refusal says why: forbidden means the authority is missing, a bad request that it is ill formed or
      would leave no enabled super administrator, a server error that the store cannot take it. */
  lemma RefusalMeans(s: State, actor: UserId, q: Request)
    requires ActiveSupers(s) != {}
    ensures AnswerTo(s, actor, q) == Forbidden ==> !Authorised(s, actor, q)
    ensures AnswerTo(s, actor, q) == BadRequest ==> IllFormed(q) || Orphans(s, q)
    ensures AnswerTo(s, actor, q) == ServerError ==> Conflicts(s, q)
    ensures !Entitled(s, actor, q) ==> AnswerTo(s, actor, q) == Forbidden
  {
    GuardsFacts(s, actor, q);
    OrphanFacts(s, q);
    if q.SetRolePermissions? { StoreRefuses(s, q.rid, q.perms); }
  }

  // ----- what a request leaves alone -----

  predicate ConcernsUser(q: Request, u: UserId) {
    match q
    case CreateUser(id, _, _, _) => u == id
    case UpdateUser(uid, _) => u == uid
    case DisableUser(uid, _) => u == uid
    case DeleteUser(uid) => u == uid
    case SetSuperAdmin(uid, _) => u == uid
    case AssignRole(uid, _) => u == uid
    case RemoveRole(uid, _) => u == uid
    case _ => false
  }

  predicate ConcernsRole(q: Request, r: RoleId) {
    match q
    case CreateRole(id, _) => r == id
    case DeleteRole(rid) => r == rid
    case SetRolePermissions(rid, _) => r == rid
    case _ => false
  }

  predicate ConcernsGrant(s: State, q: Request, u: UserId, r: RoleId) {
    match q
    case CreateUser(id, super, _, _) => u == id && super && RoleName(s, r) == SUPER_ROLE
    case SetSuperAdmin(uid, _) => u == uid && RoleName(s, r) == SUPER_ROLE
    case DeleteUser(uid) => u == uid
    case DeleteRole(rid) => r == rid
    case AssignRole(uid, rid) => u == uid && r == rid
    case RemoveRole(uid, rid) => u == uid && r == rid
    case _ => false
  }

  /** A step changes no account, role or assignment other than those the request concerns. */
  lemma StepFrame(s: State, actor: UserId, q: Request, u: UserId, r: RoleId)
    ensures var s' := Step(s, actor, q);
            && s'.catalog == s.catalog
            && (!ConcernsUser(q, u) ==> (u in s'.users <==> u in s.users) && (u in s.users ==> s'.users[u] == s.users[u]))
            && (!ConcernsRole(q, r) ==> (r in s'.roles <==> r in s.roles) && (r in s.roles ==> s'.roles[r] == s.roles[r]))
            && (!ConcernsGrant(s, q, u, r) ==> ((u, r) in s'.grants <==> (u, r) in s.grants))
  {
  }

  /** Of what it does concern, it changes only what it is about: switching an account on or off leaves its rank,
      changing its rank leaves it on or off, and filling a role leaves its name and whether it is built in. */
  lemma TargetFrame(s: State, actor: UserId, q: Request)
    ensures var s' := Step(s, actor, q);
            && ((q.UpdateUser? || q.DisableUser?) && q.uid in s.users ==>
                  q.uid in s'.users && s'.users[q.uid].isSuper == s.users[q.uid].isSuper)
            && ((q.SetSuperAdmin? || q.AssignRole? || q.RemoveRole?) && q.uid in s.users ==>
                  q.uid in s'.users && s'.users[q.uid].disabled == s.users[q.uid].disabled)
            && ((q.AssignRole? || q.RemoveRole?) && q.uid in s.users && RoleName(s, q.rid) != SUPER_ROLE ==>
                  s'.users[q.uid] == s.users[q.uid])
            && (q.SetRolePermissions? && q.rid in s.roles ==>
                  q.rid in s'.roles && s'.roles[q.rid].name == s.roles[q.rid].name
                  && s'.roles[q.rid].builtin == s.roles[q.rid].builtin)
  {
  }
}
