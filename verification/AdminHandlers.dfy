/** The administration handlers over a mutable store, guard by guard as they are served. */
module AdminHandlers {
  import opened Admin

  /** How a request was served: the store moved by the step the run theorems are about, the answer names the
      first obstacle, and success means the request took effect exactly when its target was there. */
  ghost predicate Served(before: State, after: State, actor: UserId, q: Request, a: Answer) {
    && after == Step(before, actor, q) && a == AnswerTo(before, actor, q)
    && (a != Done ==> after == before)
    && (Inv(before) && a == Done ==> (Achieved(after, q) <==> TargetThere(before, q)))
  }

  lemma StepIsServed(s: State, actor: UserId, q: Request)
    ensures Served(s, Step(s, actor, q), actor, q, AnswerTo(s, actor, q))
    ensures Inv(s) ==> Inv(Step(s, actor, q))
  {
    if Inv(s) {
      StepKeepsInv(s, actor, q);
      AnswerMeans(s, actor, q);
    }
  }

  class Handler {
    var users: map<UserId, User>
    var roles: map<RoleId, Role>
    var grants: set<(UserId, RoleId)>
    const catalog: set<string>

    constructor (s: State)
      ensures View() == s && (Inv(s) ==> Valid())
    {
      users, roles, grants, catalog := s.users, s.roles, s.grants, s.catalog;
    }

    /** What every method keeps. */
    ghost predicate Valid()
      reads this
    {
      Inv(View())
    }

    function View(): State
      reads this
    {
      State(users, roles, grants, catalog)
    }

    /** Searches the permissions for one the actor does not hold. */
    method GuardGrantable(actor: UserId, perms: set<string>) returns (blocked: bool)
      ensures blocked <==> Ungrantable(View(), actor, perms)
    {
      var left := perms;
      while left != {}
        invariant left <= perms
        invariant forall p :: p in perms - left ==> Has(View(), actor, p)
      {
        var p :| p in left;
        if !Has(View(), actor, p) { return true; }
        left := left - {p};
      }
      return false;
    }

    method GuardSuperTarget(actor: UserId, target: UserId) returns (blocked: bool)
      ensures blocked <==> SuperTarget(View(), actor, target)
    {
      if IsSuper(View(), actor) { return false; }
      if target in users && users[target].isSuper { return true; }
      return false;
    }

    method GuardLastSuper(target: UserId) returns (blocked: bool)
      ensures blocked <==> LastSuper(View(), target)
    {
      if target !in users || !users[target].isSuper || users[target].disabled { return false; }
      if |ActiveSupers(View())| <= 1 { return true; }
      return false;
    }

    method CreateUser(actor: UserId, id: UserId, super: bool, named: bool, valid: bool) returns (a: Answer)
      modifies this
      ensures Served(old(View()), View(), actor, Request.CreateUser(id, super, named, valid), a)
      ensures old(Valid()) ==> Valid()
    {
      StepIsServed(View(), actor, Request.CreateUser(id, super, named, valid));
      if !Admitted(View(), actor, "User.Create") { return Forbidden; }
      if !named { return BadRequest; }
      if super && !IsSuper(View(), actor) { return Forbidden; }
      if !valid { return BadRequest; }
      if id in users { return ServerError; }
      users := users[id := User(super, false)];
      if super { grants := GrantByName(View(), id, SUPER_ROLE).grants; }
      return Done;
    }

    method UpdateUser(actor: UserId, uid: UserId, disabled: bool) returns (a: Answer)
      modifies this
      ensures Served(old(View()), View(), actor, Request.UpdateUser(uid, disabled), a)
      ensures old(Valid()) ==> Valid()
    {
      StepIsServed(View(), actor, Request.UpdateUser(uid, disabled));
      a := DisableUser(actor, uid, disabled);
    }

    method DisableUser(actor: UserId, uid: UserId, disabled: bool) returns (a: Answer)
      modifies this
      ensures Served(old(View()), View(), actor, Request.DisableUser(uid, disabled), a)
      ensures old(Valid()) ==> Valid()
    {
      StepIsServed(View(), actor, Request.DisableUser(uid, disabled));
      if !Admitted(View(), actor, "User.Edit") { return Forbidden; }
      var blocked := GuardSuperTarget(actor, uid);
      if blocked { return Forbidden; }
      if disabled {
        blocked := GuardLastSuper(uid);
        if blocked { return BadRequest; }
      }
      if uid in users { users := users[uid := users[uid].(disabled := disabled)]; }
      return Done;
    }

    method DeleteUser(actor: UserId, uid: UserId) returns (a: Answer)
      modifies this
      ensures Served(old(View()), View(), actor, Request.DeleteUser(uid), a)
      ensures old(Valid()) ==> Valid()
    {
      StepIsServed(View(), actor, Request.DeleteUser(uid));
      if !Admitted(View(), actor, "User.Delete") { return Forbidden; }
      var blocked := GuardSuperTarget(actor, uid);
      if blocked { return Forbidden; }
      blocked := GuardLastSuper(uid);
      if blocked { return BadRequest; }
      users, grants := users - {uid}, set g | g in grants && g.0 != uid;
      return Done;
    }

    method SetSuperAdmin(actor: UserId, uid: UserId, super: bool) returns (a: Answer)
      modifies this
      ensures Served(old(View()), View(), actor, Request.SetSuperAdmin(uid, super), a)
      ensures old(Valid()) ==> Valid()
    {
      StepIsServed(View(), actor, Request.SetSuperAdmin(uid, super));
      if !Admitted(View(), actor, "User.Edit") || !IsSuper(View(), actor) { return Forbidden; }
      if !super {
        var blocked := GuardLastSuper(uid);
        if blocked { return BadRequest; }
      }
      if uid in users { users := users[uid := users[uid].(isSuper := super)]; }
      if super {
        grants := GrantByName(View(), uid, SUPER_ROLE).grants;
      } else {
        grants := RevokeByName(View(), uid, SUPER_ROLE).grants;
      }
      return Done;
    }

    method AssignRole(actor: UserId, uid: UserId, rid: RoleId) returns (a: Answer)
      modifies this
      ensures Served(old(View()), View(), actor, Request.AssignRole(uid, rid), a)
      ensures old(Valid()) ==> Valid()
    {
      StepIsServed(View(), actor, Request.AssignRole(uid, rid));
      if !Admitted(View(), actor, "Role.Edit") { return Forbidden; }
      var blocked := GuardGrantable(actor, RolePerms(View(), rid));
      if blocked { return Forbidden; }
      if RoleName(View(), rid) == SUPER_ROLE {
        if !IsSuper(View(), actor) { return Forbidden; }
        if uid in users { users := users[uid := users[uid].(isSuper := true)]; }
      }
      if uid !in users || rid !in roles { return ServerError; }
      grants := grants + {(uid, rid)};
      return Done;
    }

    method RemoveRole(actor: UserId, uid: UserId, rid: RoleId) returns (a: Answer)
      modifies this
      ensures Served(old(View()), View(), actor, Request.RemoveRole(uid, rid), a)
      ensures old(Valid()) ==> Valid()
    {
      StepIsServed(View(), actor, Request.RemoveRole(uid, rid));
      if !Admitted(View(), actor, "Role.Edit") { return Forbidden; }
      if RoleName(View(), rid) == SUPER_ROLE {
        if !IsSuper(View(), actor) { return Forbidden; }
        var blocked := GuardLastSuper(uid);
        if blocked { return BadRequest; }
        if uid in users { users := users[uid := users[uid].(isSuper := false)]; }
      }
      grants := grants - {(uid, rid)};
      return Done;
    }

    method CreateRole(actor: UserId, id: RoleId, name: string) returns (a: Answer)
      modifies this
      ensures Served(old(View()), View(), actor, Request.CreateRole(id, name), a)
      ensures old(Valid()) ==> Valid()
    {
      StepIsServed(View(), actor, Request.CreateRole(id, name));
      if !Admitted(View(), actor, "Role.Create") { return Forbidden; }
      if name == "" { return BadRequest; }
      if id in roles || exists r :: r in roles && roles[r].name == name { return ServerError; }
      roles := roles[id := Role(name, false, {})];
      return Done;
    }

    method DeleteRole(actor: UserId, rid: RoleId) returns (a: Answer)
      modifies this
      ensures Served(old(View()), View(), actor, Request.DeleteRole(rid), a)
      ensures old(Valid()) ==> Valid()
    {
      StepIsServed(View(), actor, Request.DeleteRole(rid));
      if !Admitted(View(), actor, "Role.Delete") { return Forbidden; }
      if rid in roles && !roles[rid].builtin {
        roles, grants := roles - {rid}, set g | g in grants && g.1 != rid;
      }
      return Done;
    }

    /** Replaces the role's permission rows in one transaction; an unknown role or key aborts it. */
    method SetRolePermissions(actor: UserId, rid: RoleId, keys: seq<string>) returns (a: Answer)
      modifies this
      ensures Served(old(View()), View(), actor, Request.SetRolePermissions(rid, keys), a)
      ensures old(Valid()) ==> Valid()
    {
      StepIsServed(View(), actor, Request.SetRolePermissions(rid, keys));
      if !Admitted(View(), actor, "Role.Edit") { return Forbidden; }
      var blocked := GuardGrantable(actor, Elements(keys));
      if blocked { return Forbidden; }
      var rows: set<string> := {};
      for n := 0 to |keys|
        invariant rows == Elements(keys[..n]) && rows <= catalog && (n > 0 ==> rid in roles)
      {
        assert keys[n] in Elements(keys);
        if rid !in roles || keys[n] !in catalog { return ServerError; }
        assert keys[..n + 1] == keys[..n] + [keys[n]];
        rows := rows + {keys[n]};
      }
      assert keys[..|keys|] == keys;
      if rid in roles { roles := roles[rid := roles[rid].(perms := rows)]; }
      return Done;
    }
  }
}
