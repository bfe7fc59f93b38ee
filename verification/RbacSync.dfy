/**
 * The sync as it runs: the plan is read off the three tables in loops over grants and targets, and applied one row at a
 * time. No transaction surrounds the writes, so a run that throws leaves what it had written; the methods are proved equal
 * to the functions that the convergence theorems are about, including where they stop.
 */
module RbacSync {
  import opened Wrappers
  import opened Rbac
  import RegionCodes

  class RbacStore {
    var roles: seq<Role>
    var permissions: seq<Permission>
    var grants: seq<Grant>
    var next: nat

    function View(): Tables
      reads this
    {
      Tables(roles, permissions, grants, next)
    }

    method CreateRole(name: string)
      modifies this
      ensures View() == UpsertRole(old(View()), name)
    {
      if !HasRole(View(), name) {
        roles, next := roles + [Role(next, name)], next + 1;
      }
    }

    method CreatePermission(perm: Perm)
      modifies this
      ensures View() == UpsertPermission(old(View()), perm)
    {
      if !HasPerm(View(), perm) {
        permissions, next := permissions + [Permission(next, perm)], next + 1;
      }
    }

    method CreateGrant(g: Grant)
      modifies `grants
      ensures grants == if g in old(grants) then old(grants) else old(grants) + [g]
    {
      if g !in grants {
        grants := grants + [g];
      }
    }

    method DeleteGrants(g: Grant)
      modifies `grants
      ensures grants == Without(old(grants), g)
    {
      grants := Without(grants, g);
    }
  }

  function HeldIn(current: map<string, seq<string>>, role: string): seq<string> {
    if role in current then current[role] else []
  }

  /** The keys that each role holds, gathered grant by grant. */
  method GatherGrants(t: Tables) returns (current: map<string, seq<string>>)
    ensures forall role :: HeldIn(current, role) == Held(t, role)
  {
    current := map[];
    for i := 0 to |t.grants|
      invariant forall role :: HeldIn(current, role) == HeldBy(t, role, i)
    {
      var granted := Granted(t, t.grants[i]);
      if granted.Some? {
        var (role, key) := granted.value;
        var held := HeldIn(current, role);
        current := current[role := if key in held then held else held + [key]];
      }
    }
  }

  /** The entries for the keys that `other` lacks. */
  method PushBeyond(role: string, keys: seq<string>, other: seq<string>) returns (entries: seq<string>)
    ensures entries == EntriesBeyond(role, keys, other)
  {
    entries := [];
    for j := 0 to |keys|
      invariant entries == EntriesBeyond(role, keys[..j], other)
    {
      assert keys[..j + 1][..j] == keys[..j];
      if keys[j] !in other {
        entries := entries + [Entry(role, keys[j])];
      }
    }
    assert keys[..|keys|] == keys;
  }

  /** What each target lacks and has beyond its keys, target after target. */
  method CompareGrants(targets: seq<RoleGrants>, t: Tables, current: map<string, seq<string>>)
    returns (grantsToAdd: seq<string>, grantsToRemove: seq<string>)
    requires forall role :: HeldIn(current, role) == Held(t, role)
    ensures grantsToAdd == Adds(targets, t)
    ensures grantsToRemove == Removes(targets, t)
  {
    grantsToAdd, grantsToRemove := [], [];
    for i := 0 to |targets|
      invariant grantsToAdd == Adds(targets[..i], t)
      invariant grantsToRemove == Removes(targets[..i], t)
    {
      assert targets[..i + 1][..i] == targets[..i];
      var role, target, held := targets[i].role, targets[i].keys, HeldIn(current, targets[i].role);
      var missing := PushBeyond(role, target, held);
      grantsToAdd := grantsToAdd + missing;
      if role != SUPER_ADMIN {
        var surplus := PushBeyond(role, held, target);
        grantsToRemove := grantsToRemove + surplus;
      }
    }
    assert targets[..|targets|] == targets;
  }

  method PlanRbacSync(store: RbacStore, c: Catalogue) returns (plan: Plan)
    ensures plan == PlanOf(c, store.View())
  {
    var t := store.View();
    var current := GatherGrants(t);
    var grantsToAdd, grantsToRemove := CompareGrants(Targets(c), t, current);
    plan := Plan(
      MissingRoles(c.roles, t),
      MissingPermissions(c.permissions, t),
      RegionCodes.SortCodes(grantsToAdd),
      RegionCodes.SortCodes(grantsToRemove),
      RegionCodes.SortCodes(LegacyKeys(c, t.permissions)));
  }

  method CreateRows(store: RbacStore, plan: Plan)
    modifies store
    ensures store.View() == WithRows(old(store.View()), plan)
  {
    ghost var was := store.View();
    for i := 0 to |plan.missingRoles|
      invariant store.View() == UpsertRoles(was, plan.missingRoles[..i])
    {
      assert plan.missingRoles[..i + 1][..i] == plan.missingRoles[..i];
      store.CreateRole(plan.missingRoles[i]);
    }
    assert plan.missingRoles[..|plan.missingRoles|] == plan.missingRoles;
    ghost var withRoles := store.View();
    for i := 0 to |plan.missingPermissions|
      invariant store.View() == UpsertPermissions(withRoles, plan.missingPermissions[..i])
    {
      assert plan.missingPermissions[..i + 1][..i] == plan.missingPermissions[..i];
      store.CreatePermission(plan.missingPermissions[i]);
    }
    assert plan.missingPermissions[..|plan.missingPermissions|] == plan.missingPermissions;
  }

  lemma {:induction false} AddsStop(run: Run, entries: seq<string>, i: nat)
    requires i <= |entries| && AddGrants(run, entries[..i]).thrown
    ensures AddGrants(run, entries) == AddGrants(run, entries[..i])
    decreases |entries|
  {
    if i == |entries| {
      assert entries[..i] == entries;
    } else {
      assert entries[..|entries| - 1][..i] == entries[..i];
      AddsStop(run, entries[..|entries| - 1], i);
    }
  }

  lemma {:induction false} RemovesStop(run: Run, entries: seq<string>, i: nat)
    requires i <= |entries| && RemoveGrants(run, entries[..i]).thrown
    ensures RemoveGrants(run, entries) == RemoveGrants(run, entries[..i])
    decreases |entries|
  {
    if i == |entries| {
      assert entries[..i] == entries;
    } else {
      assert entries[..|entries| - 1][..i] == entries[..i];
      RemovesStop(run, entries[..|entries| - 1], i);
    }
  }

  method AddEach(store: RbacStore, entries: seq<string>) returns (thrown: bool)
    modifies store
    ensures Run(store.View(), thrown) == AddGrants(Run(old(store.View()), false), entries)
  {
    ghost var start := Run(store.View(), false);
    for i := 0 to |entries|
      invariant Run(store.View(), false) == AddGrants(start, entries[..i])
    {
      assert entries[..i + 1][..i] == entries[..i];
      var ids := Resolve(store.View(), entries[i]);
      if ids.None? {
        AddsStop(start, entries, i + 1);
        return true;
      }
      store.CreateGrant(ids.value);
    }
    assert entries[..|entries|] == entries;
    return false;
  }

  method RemoveEach(store: RbacStore, entries: seq<string>) returns (thrown: bool)
    modifies store
    ensures Run(store.View(), thrown) == RemoveGrants(Run(old(store.View()), false), entries)
  {
    ghost var start := Run(store.View(), false);
    for i := 0 to |entries|
      invariant Run(store.View(), false) == RemoveGrants(start, entries[..i])
    {
      assert entries[..i + 1][..i] == entries[..i];
      var ids := Resolve(store.View(), entries[i]);
      if ids.None? {
        RemovesStop(start, entries, i + 1);
        return true;
      }
      store.DeleteGrants(ids.value);
    }
    assert entries[..|entries|] == entries;
    return false;
  }

  method ApplyRbacPlan(store: RbacStore, plan: Plan) returns (thrown: bool)
    modifies store
    ensures Run(store.View(), thrown) == Apply(old(store.View()), plan)
  {
    CreateRows(store, plan);
    ghost var start := Run(store.View(), false);
    thrown := AddEach(store, plan.grantsToAdd);
    if thrown {
      ThrownStays(AddGrants(start, plan.grantsToAdd), plan.grantsToRemove);
      return;
    }
    thrown := RemoveEach(store, plan.grantsToRemove);
  }

  lemma {:induction false} ThrownStays(run: Run, entries: seq<string>)
    requires run.thrown
    ensures RemoveGrants(run, entries) == run
    decreases |entries|
  {
    if entries != [] {
      ThrownStays(run, entries[..|entries| - 1]);
    }
  }

  datatype Ensured = Ensured(superAdminRoleId: nat, roles: nat, permissions: nat, plan: Plan)

  /** Plan and apply, as the seed, the bootstrap and the operator's sync all do; None when a statement throws. */
  method EnsureRbac(store: RbacStore, c: Catalogue) returns (r: Option<Ensured>)
    modifies store
    ensures Run(store.View(), r.None?) == Ensure(c, old(store.View()))
    ensures r.Some? ==>
              && r.value.plan == PlanOf(c, old(store.View()))
              && Some(r.value.superAdminRoleId) == IdOfRole(store.roles, SUPER_ADMIN)
              && r.value.roles == |c.roles| && r.value.permissions == |c.permissions|
  {
    var plan := PlanRbacSync(store, c);
    var thrown := ApplyRbacPlan(store, plan);
    if thrown {
      return None;
    }
    var superAdmin := IdOfRole(store.roles, SUPER_ADMIN);
    if superAdmin.None? {
      return None;
    }
    return Some(Ensured(superAdmin.value, |c.roles|, |c.permissions|, plan));
  }
}
