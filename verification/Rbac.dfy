/**
 * The role and permission sync: a read-only plan that names what differs from the code's catalogue, and the step that
 * applies it. Grants travel through the plan as strings, `ROLE:Subject.action`, and are split apart again when applied.
 */
module Rbac {
  import opened Wrappers
  import Text
  import RegionCodes

  datatype Perm = Perm(subject: string, action: string)

  /** What one system role is to hold, as `Subject.action`. */
  datatype RoleGrants = RoleGrants(role: string, keys: seq<string>)

  datatype Catalogue = Catalogue(roles: seq<string>, permissions: seq<Perm>, matrix: seq<RoleGrants>)

  datatype Role = Role(id: nat, name: string)

  datatype Permission = Permission(id: nat, perm: Perm)

  datatype Grant = Grant(roleId: nat, permissionId: nat)

  /** The three tables; `next` is an id that no row has. */
  datatype Tables = Tables(roles: seq<Role>, permissions: seq<Permission>, grants: seq<Grant>, next: nat)

  datatype Plan = Plan(
    missingRoles: seq<string>,
    missingPermissions: seq<Perm>,
    grantsToAdd: seq<string>,
    grantsToRemove: seq<string>,
    legacyPermissions: seq<string>)

  const SUPER_ADMIN := "SUPER_ADMIN"

  function Key(p: Perm): string {
    p.subject + "." + p.action
  }

  function Entry(role: string, key: string): string {
    role + ":" + key
  }

  function Keys(permissions: seq<Perm>): seq<string> {
    seq(|permissions|, i requires 0 <= i < |permissions| => Key(permissions[i]))
  }

  // Reading

  function NameById(roles: seq<Role>, id: nat): Option<string> {
    if roles == [] then None
    else if roles[|roles| - 1].id == id then Some(roles[|roles| - 1].name)
    else NameById(roles[..|roles| - 1], id)
  }

  function PermById(permissions: seq<Permission>, id: nat): Option<Perm> {
    if permissions == [] then None
    else if permissions[|permissions| - 1].id == id then Some(permissions[|permissions| - 1].perm)
    else PermById(permissions[..|permissions| - 1], id)
  }

  /** The role that a grant row is for, if the row counts: both ends exist and the name is not empty. */
  function Granted(t: Tables, g: Grant): Option<(string, string)> {
    var name, perm := NameById(t.roles, g.roleId), PermById(t.permissions, g.permissionId);
    if name.None? || name.value == "" || perm.None? then None else Some((name.value, Key(perm.value)))
  }

  /** The keys that a role holds by the first `n` grants, each once. */
  function HeldBy(t: Tables, role: string, n: nat): seq<string>
    requires n <= |t.grants|
  {
    if n == 0 then []
    else
      var before, granted := HeldBy(t, role, n - 1), Granted(t, t.grants[n - 1]);
      if granted.None? || granted.value.0 != role || granted.value.1 in before then before
      else before + [granted.value.1]
  }

  function Held(t: Tables, role: string): seq<string> {
    HeldBy(t, role, |t.grants|)
  }

  /** The values of `s`, each once, in the order of their first occurrence. */
  function Unique(s: seq<string>): seq<string> {
    if s == [] then []
    else
      var before := Unique(s[..|s| - 1]);
      if s[|s| - 1] in before then before else before + [s[|s| - 1]]
  }

  function Targets(c: Catalogue): seq<RoleGrants> {
    [RoleGrants(SUPER_ADMIN, Unique(Keys(c.permissions)))] + UniqueAll(c.matrix)
  }

  function UniqueAll(matrix: seq<RoleGrants>): seq<RoleGrants> {
    seq(|matrix|, i requires 0 <= i < |matrix| => RoleGrants(matrix[i].role, Unique(matrix[i].keys)))
  }

  /** An entry for every key that `other` lacks. */
  function EntriesBeyond(role: string, keys: seq<string>, other: seq<string>): seq<string> {
    if keys == [] then []
    else
      EntriesBeyond(role, keys[..|keys| - 1], other)
      + if keys[|keys| - 1] in other then [] else [Entry(role, keys[|keys| - 1])]
  }

  function Adds(targets: seq<RoleGrants>, t: Tables): seq<string> {
    if targets == [] then []
    else
      var last := targets[|targets| - 1];
      Adds(targets[..|targets| - 1], t) + EntriesBeyond(last.role, last.keys, Held(t, last.role))
  }

  /** The extra grants of SUPER_ADMIN are left alone. */
  function Removes(targets: seq<RoleGrants>, t: Tables): seq<string> {
    if targets == [] then []
    else
      var last := targets[|targets| - 1];
      Removes(targets[..|targets| - 1], t)
      + if last.role == SUPER_ADMIN then [] else EntriesBeyond(last.role, Held(t, last.role), last.keys)
  }

  predicate HasRole(t: Tables, name: string) {
    exists i | 0 <= i < |t.roles| :: t.roles[i].name == name
  }

  predicate HasKey(t: Tables, key: string) {
    exists i | 0 <= i < |t.permissions| :: Key(t.permissions[i].perm) == key
  }

  function MissingRoles(names: seq<string>, t: Tables): seq<string> {
    if names == [] then []
    else MissingRoles(names[..|names| - 1], t) + if HasRole(t, names[|names| - 1]) then [] else [names[|names| - 1]]
  }

  function MissingPermissions(perms: seq<Perm>, t: Tables): seq<Perm> {
    if perms == [] then []
    else
      MissingPermissions(perms[..|perms| - 1], t)
      + if HasKey(t, Key(perms[|perms| - 1])) then [] else [perms[|perms| - 1]]
  }

  function LegacyKeys(c: Catalogue, permissions: seq<Permission>): seq<string> {
    if permissions == [] then []
    else
      var before, key := LegacyKeys(c, permissions[..|permissions| - 1]), Key(permissions[|permissions| - 1].perm);
      if key in Keys(c.permissions) || key in before then before else before + [key]
  }

  function PlanOf(c: Catalogue, t: Tables): Plan {
    Plan(
      MissingRoles(c.roles, t),
      MissingPermissions(c.permissions, t),
      RegionCodes.SortCodes(Adds(Targets(c), t)),
      RegionCodes.SortCodes(Removes(Targets(c), t)),
      RegionCodes.SortCodes(LegacyKeys(c, t.permissions)))
  }

  // Writing

  function UpsertRole(t: Tables, name: string): Tables {
    if HasRole(t, name) then t else t.(roles := t.roles + [Role(t.next, name)], next := t.next + 1)
  }

  function UpsertRoles(t: Tables, names: seq<string>): Tables {
    if names == [] then t else UpsertRole(UpsertRoles(t, names[..|names| - 1]), names[|names| - 1])
  }

  predicate HasPerm(t: Tables, perm: Perm) {
    exists i | 0 <= i < |t.permissions| :: t.permissions[i].perm == perm
  }

  function UpsertPermission(t: Tables, perm: Perm): Tables {
    if HasPerm(t, perm) then t else t.(permissions := t.permissions + [Permission(t.next, perm)], next := t.next + 1)
  }

  function UpsertPermissions(t: Tables, perms: seq<Perm>): Tables {
    if perms == [] then t else UpsertPermission(UpsertPermissions(t, perms[..|perms| - 1]), perms[|perms| - 1])
  }

  function IdOfRole(roles: seq<Role>, name: string): Option<nat> {
    if roles == [] then None
    else if roles[|roles| - 1].name == name then Some(roles[|roles| - 1].id)
    else IdOfRole(roles[..|roles| - 1], name)
  }

  function IdOfPerm(permissions: seq<Permission>, perm: Perm): Option<nat> {
    if permissions == [] then None
    else if permissions[|permissions| - 1].perm == perm then Some(permissions[|permissions| - 1].id)
    else IdOfPerm(permissions[..|permissions| - 1], perm)
  }

  /** An entry split back into the role and the permission that it names. */
  function Parsed(entry: string): Option<(string, Perm)> {
    var pieces := Text.Split(entry, ':');
    if |pieces| < 2 then None
    else
      var parts := Text.Split(pieces[1], '.');
      if |parts| < 2 then None else Some((pieces[0], Perm(parts[0], parts[1])))
  }

  /** The grant row that an entry stands for; without its role or its permission the run throws. */
  function Resolve(t: Tables, entry: string): Option<Grant> {
    match Parsed(entry)
    case None => None
    case Some((role, perm)) =>
      var roleId, permissionId := IdOfRole(t.roles, role), IdOfPerm(t.permissions, perm);
      if roleId.None? || permissionId.None? then None else Some(Grant(roleId.value, permissionId.value))
  }

  function Without(grants: seq<Grant>, g: Grant): seq<Grant> {
    if grants == [] then []
    else Without(grants[..|grants| - 1], g) + if grants[|grants| - 1] == g then [] else [grants[|grants| - 1]]
  }

  /** The tables so far, and whether the run has thrown. No transaction surrounds the writes. */
  datatype Run = Run(tables: Tables, thrown: bool)

  function AddGrant(run: Run, entry: string): Run {
    if run.thrown then run
    else
      match Resolve(run.tables, entry)
      case None => run.(thrown := true)
      case Some(g) =>
        if g in run.tables.grants then run
        else run.(tables := run.tables.(grants := run.tables.grants + [g]))
  }

  function AddGrants(run: Run, entries: seq<string>): Run {
    if entries == [] then run else AddGrant(AddGrants(run, entries[..|entries| - 1]), entries[|entries| - 1])
  }

  function RemoveGrant(run: Run, entry: string): Run {
    if run.thrown then run
    else
      match Resolve(run.tables, entry)
      case None => run.(thrown := true)
      case Some(g) => run.(tables := run.tables.(grants := Without(run.tables.grants, g)))
  }

  function RemoveGrants(run: Run, entries: seq<string>): Run {
    if entries == [] then run else RemoveGrant(RemoveGrants(run, entries[..|entries| - 1]), entries[|entries| - 1])
  }

  function WithRows(t: Tables, plan: Plan): Tables {
    UpsertPermissions(UpsertRoles(t, plan.missingRoles), plan.missingPermissions)
  }

  function Apply(t: Tables, plan: Plan): Run {
    RemoveGrants(AddGrants(Run(WithRows(t, plan), false), plan.grantsToAdd), plan.grantsToRemove)
  }

  /** Plan and apply, then look up SUPER_ADMIN, which throws when there is none. */
  function Ensure(c: Catalogue, t: Tables): Run {
    var run := Apply(t, PlanOf(c, t));
    if IdOfRole(run.tables.roles, SUPER_ADMIN).None? then run.(thrown := true) else run
  }
}
