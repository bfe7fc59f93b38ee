/** What one sync leaves behind, and exactly when that is the catalogue. */
module RbacConverges {
  import opened Wrappers
  import opened Rbac
  import opened RbacProofs

  // The rows that come first

  /** `later` has all rows of `t` and the same grants. */
  ghost predicate RowsGrow(t: Tables, later: Tables) {
    t.roles <= later.roles && t.permissions <= later.permissions && t.grants == later.grants
  }

  lemma {:induction false} NameStays(roles: seq<Role>, last: Role, id: nat)
    requires NameById(roles, id).Some? && RolesAreRows(roles + [last])
    ensures NameById(roles + [last], id) == NameById(roles, id)
  {
    RoleFound(roles, NameById(roles, id).value, id);
    assert (roles + [last])[..|roles|] == roles;
    var i :| 0 <= i < |roles| && roles[i].id == id;
    assert (roles + [last])[i] == roles[i] && (roles + [last])[|roles|] == last;
  }

  lemma {:induction false} PermStays(permissions: seq<Permission>, last: Permission, id: nat)
    requires PermById(permissions, id).Some? && PermissionsAreRows(permissions + [last])
    ensures PermById(permissions + [last], id) == PermById(permissions, id)
  {
    PermFound(permissions, PermById(permissions, id).value, id);
    assert (permissions + [last])[..|permissions|] == permissions;
    var i :| 0 <= i < |permissions| && permissions[i].id == id;
    assert (permissions + [last])[i] == permissions[i] && (permissions + [last])[|permissions|] == last;
  }

  lemma {:induction false} UpsertRoleKeeps(t: Tables, name: string)
    requires IsStored(t)
    ensures IsStored(UpsertRole(t, name)) && RowsGrow(t, UpsertRole(t, name)) && HasRole(UpsertRole(t, name), name)
    ensures UpsertRole(t, name).permissions == t.permissions
  {
    if !HasRole(t, name) {
      var last := Role(t.next, name);
      var later := UpsertRole(t, name);
      assert later.roles[|t.roles|] == last;
      forall i, j | 0 <= i < j < |later.roles|
        ensures later.roles[i].id != later.roles[j].id && later.roles[i].name != later.roles[j].name
      {
        assert later.roles[i] == t.roles[i] && t.roles[i] in t.roles;
      }
      forall g | g in later.grants
        ensures NameById(later.roles, g.roleId).Some?
      {
        NameStays(t.roles, last, g.roleId);
      }
    }
  }

  lemma {:induction false} UpsertPermissionKeeps(t: Tables, perm: Perm)
    requires IsStored(t)
    ensures IsStored(UpsertPermission(t, perm)) && RowsGrow(t, UpsertPermission(t, perm))
    ensures HasPerm(UpsertPermission(t, perm), perm) && UpsertPermission(t, perm).roles == t.roles
  {
    if !HasPerm(t, perm) {
      var last := Permission(t.next, perm);
      var later := UpsertPermission(t, perm);
      assert later.permissions[|t.permissions|] == last;
      forall i, j | 0 <= i < j < |later.permissions|
        ensures later.permissions[i].id != later.permissions[j].id && later.permissions[i].perm != later.permissions[j].perm
      {
        assert later.permissions[i] == t.permissions[i] && t.permissions[i] in t.permissions;
      }
      forall g | g in later.grants
        ensures PermById(later.permissions, g.permissionId).Some?
      {
        PermStays(t.permissions, last, g.permissionId);
      }
    }
  }

  lemma {:induction false} UpsertRolesKeep(t: Tables, names: seq<string>)
    requires IsStored(t)
    ensures IsStored(UpsertRoles(t, names)) && RowsGrow(t, UpsertRoles(t, names))
    ensures forall name | name in names :: HasRole(UpsertRoles(t, names), name)
    ensures UpsertRoles(t, names).permissions == t.permissions
    decreases |names|
  {
    if names != [] {
      var front, last := names[..|names| - 1], names[|names| - 1];
      UpsertRolesKeep(t, front);
      var before := UpsertRoles(t, front);
      UpsertRoleKeeps(before, last);
      forall name | name in names
        ensures HasRole(UpsertRoles(t, names), name)
      {
        if name != last {
          assert name in front;
          RoleRemains(before, UpsertRoles(t, names), name);
        }
      }
    }
  }

  lemma {:induction false} RoleRemains(t: Tables, later: Tables, name: string)
    requires t.roles <= later.roles && HasRole(t, name)
    ensures HasRole(later, name)
  {
    var i :| 0 <= i < |t.roles| && t.roles[i].name == name;
    assert later.roles[i] == t.roles[i];
  }

  lemma {:induction false} PermRemains(t: Tables, later: Tables, perm: Perm)
    requires t.permissions <= later.permissions && HasPerm(t, perm)
    ensures HasPerm(later, perm)
  {
    var i :| 0 <= i < |t.permissions| && t.permissions[i].perm == perm;
    assert later.permissions[i] == t.permissions[i];
  }

  lemma {:induction false} UpsertPermissionsKeep(t: Tables, perms: seq<Perm>)
    requires IsStored(t)
    ensures IsStored(UpsertPermissions(t, perms)) && RowsGrow(t, UpsertPermissions(t, perms))
    ensures forall perm | perm in perms :: HasPerm(UpsertPermissions(t, perms), perm)
    ensures UpsertPermissions(t, perms).roles == t.roles
    decreases |perms|
  {
    if perms != [] {
      var front, last := perms[..|perms| - 1], perms[|perms| - 1];
      UpsertPermissionsKeep(t, front);
      var before := UpsertPermissions(t, front);
      UpsertPermissionKeeps(before, last);
      forall perm | perm in perms
        ensures HasPerm(UpsertPermissions(t, perms), perm)
      {
        if perm != last {
          assert perm in front;
          PermRemains(before, UpsertPermissions(t, perms), perm);
        }
      }
    }
  }

  lemma {:induction false} MissingRolesMembers(names: seq<string>, t: Tables, name: string)
    ensures name in MissingRoles(names, t) <==> name in names && !HasRole(t, name)
    decreases |names|
  {
    if names != [] {
      MissingRolesMembers(names[..|names| - 1], t, name);
      assert names == names[..|names| - 1] + [names[|names| - 1]];
    }
  }

  lemma {:induction false} MissingPermissionsMembers(perms: seq<Perm>, t: Tables, perm: Perm)
    ensures perm in MissingPermissions(perms, t) <==> perm in perms && !HasKey(t, Key(perm))
    decreases |perms|
  {
    if perms != [] {
      MissingPermissionsMembers(perms[..|perms| - 1], t, perm);
      assert perms == perms[..|perms| - 1] + [perms[|perms| - 1]];
    }
  }

  /** After the rows are written every catalogue role and permission is there. */
  ghost predicate HasCatalogue(c: Catalogue, t: Tables) {
    (forall role | role in c.roles :: HasRole(t, role)) && forall perm | perm in c.permissions :: HasPerm(t, perm)
  }

  lemma {:induction false} KeyHasItsRow(t: Tables, perm: Perm)
    requires !IsOdd(perm) && HasKey(t, Key(perm))
    ensures HasPerm(t, perm)
  {
    var i :| 0 <= i < |t.permissions| && Key(t.permissions[i].perm) == Key(perm);
    PlainKeyIsUnique(perm, t.permissions[i].perm);
  }

  lemma {:induction false} RowsAreWritten(c: Catalogue, t: Tables)
    requires IsCatalogue(c) && IsStored(t)
    ensures var w := WithRows(t, PlanOf(c, t)); IsStored(w) && RowsGrow(t, w) && HasCatalogue(c, w)
  {
    var missingRoles, missingPermissions := MissingRoles(c.roles, t), MissingPermissions(c.permissions, t);
    var r := UpsertRoles(t, missingRoles);
    var w := UpsertPermissions(r, missingPermissions);
    UpsertRolesKeep(t, missingRoles);
    UpsertPermissionsKeep(r, missingPermissions);
    forall role | role in c.roles
      ensures HasRole(w, role)
    {
      MissingRolesMembers(c.roles, t, role);
      if HasRole(t, role) {
        RoleRemains(t, r, role);
      }
      RoleRemains(r, w, role);
    }
    forall perm | perm in c.permissions
      ensures HasPerm(w, perm)
    {
      MissingPermissionsMembers(c.permissions, t, perm);
      if HasKey(t, Key(perm)) {
        KeyHasItsRow(t, perm);
        PermRemains(t, w, perm);
      }
    }
  }

  // The grants that are written

  /** The rows of `later` but for the grants. */
  ghost predicate SameRows(t: Tables, later: Tables) {
    t.roles == later.roles && t.permissions == later.permissions && t.next == later.next
  }

  lemma {:induction false} WithoutMembers(grants: seq<Grant>, g: Grant)
    ensures forall x :: x in Without(grants, g) <==> x in grants && x != g
    decreases |grants|
  {
    if grants != [] {
      WithoutMembers(grants[..|grants| - 1], g);
      assert grants == grants[..|grants| - 1] + [grants[|grants| - 1]];
    }
  }

  ghost predicate Names(t: Tables, entries: seq<string>, g: Grant) {
    exists e :: e in entries && Resolve(t, e) == Some(g)
  }

  ghost predicate AllResolve(t: Tables, entries: seq<string>) {
    forall e | e in entries :: Resolve(t, e).Some?
  }

  lemma {:induction false} SameRowsResolve(t: Tables, later: Tables, e: string)
    requires SameRows(t, later)
    ensures Resolve(later, e) == Resolve(t, e)
  {
  }

  /** Adding: only grants that entries name come in, none goes, and all come in unless the run throws. */
  lemma {:induction false} AddsAre(t: Tables, entries: seq<string>)
    ensures var run := AddGrants(Run(t, false), entries);
      && SameRows(t, run.tables) && (run.thrown <==> !AllResolve(t, entries))
      && (forall g | g in t.grants :: g in run.tables.grants)
      && (forall g | g in run.tables.grants :: g in t.grants || Names(t, entries, g))
      && (!run.thrown ==> forall g | Names(t, entries, g) :: g in run.tables.grants)
    decreases |entries|
  {
    if entries != [] {
      var front, last := entries[..|entries| - 1], entries[|entries| - 1];
      AddsAre(t, front);
      assert entries == front + [last];
      var before, run := AddGrants(Run(t, false), front), AddGrants(Run(t, false), entries);
      SameRowsResolve(t, before.tables, last);
      forall g | Names(t, front, g)
        ensures Names(t, entries, g)
      {
        var e :| e in front && Resolve(t, e) == Some(g);
        assert e in entries;
      }
      if !before.thrown && Resolve(t, last).Some? {
        assert last in entries;
        assert Names(t, entries, Resolve(t, last).value);
        forall g | Names(t, entries, g)
          ensures g in run.tables.grants
        {
          var e :| e in entries && Resolve(t, e) == Some(g);
          assert e in front ==> Names(t, front, g);
        }
      }
    }
  }

  /** Removing: only grants that entries name go, none comes in, and all go unless the run throws. */
  lemma {:induction false} RemovesAre(t: Tables, entries: seq<string>)
    ensures var run := RemoveGrants(Run(t, false), entries);
      && SameRows(t, run.tables) && (run.thrown <==> !AllResolve(t, entries))
      && (forall g | g in run.tables.grants :: g in t.grants)
      && (forall g | g in t.grants :: g in run.tables.grants || Names(t, entries, g))
      && (!run.thrown ==> forall g | Names(t, entries, g) :: g !in run.tables.grants)
    decreases |entries|
  {
    if entries != [] {
      var front, last := entries[..|entries| - 1], entries[|entries| - 1];
      RemovesAre(t, front);
      assert entries == front + [last];
      var before, run := RemoveGrants(Run(t, false), front), RemoveGrants(Run(t, false), entries);
      SameRowsResolve(t, before.tables, last);
      forall g | Names(t, front, g)
        ensures Names(t, entries, g)
      {
        var e :| e in front && Resolve(t, e) == Some(g);
        assert e in entries;
      }
      if !before.thrown && Resolve(t, last).Some? {
        WithoutMembers(before.tables.grants, Resolve(t, last).value);
        assert last in entries;
        assert Names(t, entries, Resolve(t, last).value);
        forall g | Names(t, entries, g)
          ensures g !in run.tables.grants
        {
          var e :| e in entries && Resolve(t, e) == Some(g);
          assert e in front ==> Names(t, front, g);
        }
      }
    }
  }

  // The same in terms of roles and permissions

  ghost predicate Mentions(entries: seq<string>, role: string, perm: Perm) {
    exists e :: e in entries && Parsed(e) == Some((role, perm))
  }

  lemma {:induction false} NamesMentions(t: Tables, entries: seq<string>, role: string, perm: Perm, g: Grant)
    requires IsStored(t) && IdOfRole(t.roles, role) == Some(g.roleId) && IdOfPerm(t.permissions, perm) == Some(g.permissionId)
    ensures Names(t, entries, g) <==> Mentions(entries, role, perm)
  {
    if Names(t, entries, g) {
      var e :| e in entries && Resolve(t, e) == Some(g);
      var (r, p) := Parsed(e).value;
      RoleIdAndName(t.roles, r, g.roleId);
      RoleIdAndName(t.roles, role, g.roleId);
      PermIdAndName(t.permissions, p, g.permissionId);
      PermIdAndName(t.permissions, perm, g.permissionId);
    }
    if Mentions(entries, role, perm) {
      var e :| e in entries && Parsed(e) == Some((role, perm));
      assert Resolve(t, e) == Some(g);
    }
  }

  lemma {:induction false} NamesStayOver(t: Tables, w: Tables, g: Grant)
    requires IsStored(t) && IsStored(w) && RowsGrow(t, w) && g in t.grants
    ensures NameById(w.roles, g.roleId) == NameById(t.roles, g.roleId)
    ensures PermById(w.permissions, g.permissionId) == PermById(t.permissions, g.permissionId)
  {
    var name, perm := NameById(t.roles, g.roleId).value, PermById(t.permissions, g.permissionId).value;
    RoleFound(t.roles, name, g.roleId);
    PermFound(t.permissions, perm, g.permissionId);
    var i :| 0 <= i < |t.roles| && t.roles[i] == Role(g.roleId, name);
    var j :| 0 <= j < |t.permissions| && t.permissions[j] == Permission(g.permissionId, perm);
    RoleLookups(w.roles, i);
    PermLookups(w.permissions, j);
  }

  lemma {:induction false} HoldsAlike(t: Tables, w: Tables, role: string, perm: Perm)
    requires IsStored(t) && IsStored(w) && RowsGrow(t, w)
    ensures Holds(w, role, perm) <==> Holds(t, role, perm)
  {
    HoldsByGrant(t, role, perm);
    HoldsByGrant(w, role, perm);
    forall g | g in t.grants
      ensures NameById(w.roles, g.roleId) == NameById(t.roles, g.roleId)
      ensures PermById(w.permissions, g.permissionId) == PermById(t.permissions, g.permissionId)
    {
      NamesStayOver(t, w, g);
    }
  }

  lemma {:induction false} SameRowsStored(t: Tables, later: Tables, entries: seq<string>)
    requires IsStored(t) && SameRows(t, later)
    requires forall g | g in later.grants :: g in t.grants || Names(t, entries, g)
    ensures IsStored(later)
  {
    forall g | g in later.grants
      ensures NameById(t.roles, g.roleId).Some? && PermById(t.permissions, g.permissionId).Some?
    {
      if g !in t.grants {
        var e :| e in entries && Resolve(t, e) == Some(g);
        var (role, perm) := Parsed(e).value;
        RoleIdAndName(t.roles, role, g.roleId);
        PermIdAndName(t.permissions, perm, g.permissionId);
      }
    }
  }

  /** What a role holds after the grants of `entries` have been added. */
  lemma {:induction false} HeldAfterAdding(t: Tables, entries: seq<string>, role: string, perm: Perm)
    requires IsStored(t) && AllResolve(t, entries)
    ensures IsStored(AddGrants(Run(t, false), entries).tables)
    ensures Holds(AddGrants(Run(t, false), entries).tables, role, perm)
       <==> Holds(t, role, perm) || Mentions(entries, role, perm)
  {
    AddsAre(t, entries);
    var later := AddGrants(Run(t, false), entries).tables;
    SameRowsStored(t, later, entries);
    if Mentions(entries, role, perm) {
      var e :| e in entries && Parsed(e) == Some((role, perm));
      var g := Resolve(t, e).value;
      assert Names(t, entries, g);
    }
    if Holds(later, role, perm) {
      var g :| g in later.grants && IdOfRole(t.roles, role) == Some(g.roleId) && IdOfPerm(t.permissions, perm) == Some(g.permissionId);
      NamesMentions(t, entries, role, perm, g);
    }
  }

  /** What a role holds after the grants of `entries` have been removed. */
  lemma {:induction false} HeldAfterRemoving(t: Tables, entries: seq<string>, role: string, perm: Perm)
    requires IsStored(t)
    ensures IsStored(RemoveGrants(Run(t, false), entries).tables)
    ensures Holds(RemoveGrants(Run(t, false), entries).tables, role, perm) ==> Holds(t, role, perm)
    ensures Holds(t, role, perm) && !Mentions(entries, role, perm)
        ==> Holds(RemoveGrants(Run(t, false), entries).tables, role, perm)
    ensures AllResolve(t, entries) && Mentions(entries, role, perm)
        ==> !Holds(RemoveGrants(Run(t, false), entries).tables, role, perm)
  {
    RemovesAre(t, entries);
    var later := RemoveGrants(Run(t, false), entries).tables;
    SameRowsStored(t, later, []);
    if Holds(t, role, perm) {
      var g :| g in t.grants && IdOfRole(t.roles, role) == Some(g.roleId) && IdOfPerm(t.permissions, perm) == Some(g.permissionId);
      NamesMentions(t, entries, role, perm, g);
    }
  }

  // What the plan mentions

  /** The catalogue grants the key to the system role. */
  ghost predicate IsTarget(c: Catalogue, role: string, key: string) {
    (role == SUPER_ADMIN && key in Keys(c.permissions)) || exists m :: m in c.matrix && m.role == role && key in m.keys
  }

  ghost predicate IsGoverned(c: Catalogue, role: string) {
    exists m :: m in c.matrix && m.role == role
  }

  lemma {:induction false} RowIsListed(c: Catalogue, i: nat)
    requires i < |c.matrix|
    ensures var m := Targets(c)[i + 1];
      m in Targets(c) && m.role == c.matrix[i].role && forall key :: key in m.keys <==> key in c.matrix[i].keys
  {
    UniqueMembers(c.matrix[i].keys);
  }

  lemma {:induction false} ListedIsTarget(c: Catalogue, m: RoleGrants, key: string)
    requires m in Targets(c) && key in m.keys
    ensures IsTarget(c, m.role, key)
  {
    var i :| 0 <= i < |Targets(c)| && Targets(c)[i] == m;
    if i == 0 {
      UniqueMembers(Keys(c.permissions));
    } else {
      RowIsListed(c, i - 1);
      assert c.matrix[i - 1] in c.matrix;
    }
  }

  lemma {:induction false} TargetIsListed(c: Catalogue, role: string, key: string)
    requires IsTarget(c, role, key)
    ensures exists m :: m in Targets(c) && m.role == role && key in m.keys
  {
    if role == SUPER_ADMIN && key in Keys(c.permissions) {
      UniqueMembers(Keys(c.permissions));
      assert Targets(c)[0] in Targets(c);
    } else {
      var m :| m in c.matrix && m.role == role && key in m.keys;
      var i :| 0 <= i < |c.matrix| && c.matrix[i] == m;
      RowIsListed(c, i);
    }
  }

  /** A target key is the key of a catalogue permission, which is plain. */
  lemma {:induction false} TargetIsPlain(c: Catalogue, role: string, key: string) returns (perm: Perm)
    requires IsCatalogue(c) && IsTarget(c, role, key)
    ensures perm in c.permissions && Key(perm) == key && !IsOdd(perm)
    ensures role in c.roles && Lacks(role, ':') && role != ""
  {
    if role != SUPER_ADMIN || key !in Keys(c.permissions) {
      var m :| m in c.matrix && m.role == role && key in m.keys;
      assert key in Keys(c.permissions);
    }
    var i :| 0 <= i < |Keys(c.permissions)| && Keys(c.permissions)[i] == key;
    perm := c.permissions[i];
  }

  lemma {:induction false} AddMeans(c: Catalogue, t: Tables, e: string)
    ensures e in PlanOf(c, t).grantsToAdd
       <==> exists role, key :: IsTarget(c, role, key) && key !in Held(t, role) && e == Entry(role, key)
  {
    PlanMembers(c, t, e);
    if IsAdd(Targets(c), t, e) {
      var m, key :| m in Targets(c) && key in m.keys && key !in Held(t, m.role) && e == Entry(m.role, key);
      ListedIsTarget(c, m, key);
    }
    if role, key :| IsTarget(c, role, key) && key !in Held(t, role) && e == Entry(role, key) {
      TargetIsListed(c, role, key);
    }
  }

  lemma {:induction false} MatrixTarget(c: Catalogue, m: RoleGrants)
    requires IsCatalogue(c) && m in Targets(c)
    ensures m.role != SUPER_ADMIN <==> IsGoverned(c, m.role)
    ensures forall key :: key in m.keys <==> IsTarget(c, m.role, key)
  {
    var i :| 0 <= i < |Targets(c)| && Targets(c)[i] == m;
    if i == 0 {
      UniqueMembers(Keys(c.permissions));
    } else {
      var row := c.matrix[i - 1];
      assert row in c.matrix;
      UniqueMembers(row.keys);
    }
  }

  lemma {:induction false} GovernedTarget(c: Catalogue, role: string) returns (m: RoleGrants)
    requires IsCatalogue(c) && IsGoverned(c, role)
    ensures m in Targets(c) && m.role == role && role != SUPER_ADMIN
  {
    var row :| row in c.matrix && row.role == role;
    var i :| 0 <= i < |c.matrix| && c.matrix[i] == row;
    m := Targets(c)[i + 1];
  }

  lemma {:induction false} RemoveMeans(c: Catalogue, t: Tables, e: string)
    requires IsCatalogue(c)
    ensures e in PlanOf(c, t).grantsToRemove
       <==> exists role, key :: IsGoverned(c, role) && key in Held(t, role) && !IsTarget(c, role, key) && e == Entry(role, key)
  {
    PlanMembers(c, t, e);
    if IsRemove(Targets(c), t, e) {
      var m, key :| m in Targets(c) && m.role != SUPER_ADMIN && key in Held(t, m.role) && key !in m.keys && e == Entry(m.role, key);
      MatrixTarget(c, m);
    }
    if role, key :| IsGoverned(c, role) && key in Held(t, role) && !IsTarget(c, role, key) && e == Entry(role, key) {
      var m := GovernedTarget(c, role);
      MatrixTarget(c, m);
    }
  }

  lemma {:induction false} GovernedFacts(c: Catalogue, role: string)
    requires IsCatalogue(c) && IsGoverned(c, role)
    ensures role in c.roles && role != "" && role != SUPER_ADMIN && Lacks(role, ':')
  {
  }

  /** The additions are the missing target permissions. */
  lemma {:induction false} AddsMention(c: Catalogue, t: Tables, role: string, perm: Perm)
    requires IsCatalogue(c)
    ensures Mentions(PlanOf(c, t).grantsToAdd, role, perm) <==> IsTarget(c, role, Key(perm)) && Key(perm) !in Held(t, role)
  {
    var entries := PlanOf(c, t).grantsToAdd;
    if Mentions(entries, role, perm) {
      var e :| e in entries && Parsed(e) == Some((role, perm));
      AddMeans(c, t, e);
      var r, key :| IsTarget(c, r, key) && key !in Held(t, r) && e == Entry(r, key);
      var p := TargetIsPlain(c, r, key);
      PlainEntryParses(r, p);
    }
    if IsTarget(c, role, Key(perm)) && Key(perm) !in Held(t, role) {
      var p := TargetIsPlain(c, role, Key(perm));
      PlainKeyIsUnique(p, perm);
      PlainEntryParses(role, perm);
      AddMeans(c, t, Entry(role, Key(perm)));
    }
  }

  lemma {:induction false} AddsResolve(c: Catalogue, t: Tables, w: Tables)
    requires IsCatalogue(c) && HasCatalogue(c, w)
    ensures AllResolve(w, PlanOf(c, t).grantsToAdd)
  {
    forall e | e in PlanOf(c, t).grantsToAdd
      ensures Resolve(w, e).Some?
    {
      AddMeans(c, t, e);
      var role, key :| IsTarget(c, role, key) && key !in Held(t, role) && e == Entry(role, key);
      var p := TargetIsPlain(c, role, key);
      PlainEntryParses(role, p);
      EntryResolves(w, role, p);
    }
  }

  lemma {:induction false} EntryResolves(w: Tables, role: string, p: Perm)
    requires HasRole(w, role) && HasPerm(w, p)
    ensures IdOfRole(w.roles, role).Some? && IdOfPerm(w.permissions, p).Some?
  {
    RoleFound(w.roles, role, 0);
    PermFound(w.permissions, p, 0);
  }

  // The condition

  /** No governed role holds a permission with a dot or a colon in its subject or action. */
  ghost predicate NoOddGrant(c: Catalogue, t: Tables) {
    forall role, perm | IsGoverned(c, role) && Holds(t, role, perm) :: !IsOdd(perm)
  }

  /** Every governed role holds exactly its matrix. */
  ghost predicate IsExact(c: Catalogue, t: Tables) {
    forall role, perm | IsGoverned(c, role) :: Holds(t, role, perm) <==> IsTarget(c, role, Key(perm))
  }

  /** Without odd grants the removals are the surplus permissions. */
  lemma {:induction false} RemovesMention(c: Catalogue, t: Tables, role: string, perm: Perm)
    requires IsCatalogue(c) && IsStored(t) && NoOddGrant(c, t)
    ensures Mentions(PlanOf(c, t).grantsToRemove, role, perm)
       <==> IsGoverned(c, role) && Holds(t, role, perm) && !IsTarget(c, role, Key(perm))
  {
    var entries := PlanOf(c, t).grantsToRemove;
    if Mentions(entries, role, perm) {
      var e :| e in entries && Parsed(e) == Some((role, perm));
      RemoveMeans(c, t, e);
      var r, key :| IsGoverned(c, r) && key in Held(t, r) && !IsTarget(c, r, key) && e == Entry(r, key);
      GovernedFacts(c, r);
      HeldMeans(t, r, key);
      var p :| Holds(t, r, p) && Key(p) == key;
      PlainEntryParses(r, p);
    }
    if IsGoverned(c, role) && Holds(t, role, perm) && !IsTarget(c, role, Key(perm)) {
      GovernedFacts(c, role);
      HeldMeans(t, role, Key(perm));
      PlainEntryParses(role, perm);
      RemoveMeans(c, t, Entry(role, Key(perm)));
    }
  }

  lemma {:induction false} RemoveResolves(c: Catalogue, t: Tables, w: Tables, e: string)
    requires IsCatalogue(c) && IsStored(t) && NoOddGrant(c, t) && HasCatalogue(c, w) && t.permissions <= w.permissions
    requires e in PlanOf(c, t).grantsToRemove
    ensures Resolve(w, e).Some?
  {
    RemoveMeans(c, t, e);
    var role, key :| IsGoverned(c, role) && key in Held(t, role) && !IsTarget(c, role, key) && e == Entry(role, key);
    GovernedFacts(c, role);
    HeldMeans(t, role, key);
    var p :| Holds(t, role, p) && Key(p) == key;
    PlainEntryParses(role, p);
    PermFound(t.permissions, p, 0);
    PermRemains(t, w, p);
    EntryResolves(w, role, p);
  }

  lemma {:induction false} RemovesResolve(c: Catalogue, t: Tables, w: Tables)
    requires IsCatalogue(c) && IsStored(t) && NoOddGrant(c, t) && HasCatalogue(c, w) && t.permissions <= w.permissions
    ensures AllResolve(w, PlanOf(c, t).grantsToRemove)
  {
    forall e | e in PlanOf(c, t).grantsToRemove
      ensures Resolve(w, e).Some?
    {
      RemoveResolves(c, t, w, e);
    }
  }

  lemma {:induction false} SameRowsCatalogue(c: Catalogue, t: Tables, later: Tables)
    requires HasCatalogue(c, t) && SameRows(t, later)
    ensures HasCatalogue(c, later)
  {
    forall role | role in c.roles
      ensures HasRole(later, role)
    {
      RoleRemains(t, later, role);
    }
    forall perm | perm in c.permissions
      ensures HasPerm(later, perm)
    {
      PermRemains(t, later, perm);
    }
  }

  /** The states of a sync without odd grants: nothing throws. */
  lemma {:induction false} EnsureRuns(c: Catalogue, t: Tables) returns (w: Tables, a: Tables, z: Tables)
    requires IsCatalogue(c) && IsStored(t) && NoOddGrant(c, t)
    ensures w == WithRows(t, PlanOf(c, t)) && IsStored(w) && RowsGrow(t, w)
    ensures AllResolve(w, PlanOf(c, t).grantsToAdd)
    ensures a == AddGrants(Run(w, false), PlanOf(c, t).grantsToAdd).tables && IsStored(a) && SameRows(w, a)
    ensures AllResolve(a, PlanOf(c, t).grantsToRemove)
    ensures z == RemoveGrants(Run(a, false), PlanOf(c, t).grantsToRemove).tables
    ensures IsStored(z) && SameRows(w, z) && HasCatalogue(c, z)
    ensures Ensure(c, t) == Run(z, false)
  {
    var plan := PlanOf(c, t);
    w := WithRows(t, plan);
    RowsAreWritten(c, t);
    AddsResolve(c, t, w);
    AddsAre(w, plan.grantsToAdd);
    var added := AddGrants(Run(w, false), plan.grantsToAdd);
    a := added.tables;
    assert added == Run(a, false);
    SameRowsCatalogue(c, w, a);
    SameRowsStored(w, a, plan.grantsToAdd);
    RemovesResolve(c, t, a);
    RemovesAre(a, plan.grantsToRemove);
    z := RemoveGrants(Run(a, false), plan.grantsToRemove).tables;
    SameRowsCatalogue(c, a, z);
    SameRowsStored(a, z, []);
    RoleFound(z.roles, SUPER_ADMIN, 0);
  }

  /** What every role holds after a sync without odd grants. */
  lemma {:induction false} HeldAfterSync(c: Catalogue, t: Tables, role: string, perm: Perm)
    requires IsCatalogue(c) && IsStored(t) && NoOddGrant(c, t)
    ensures Holds(Ensure(c, t).tables, role, perm)
       <==> if IsGoverned(c, role) then IsTarget(c, role, Key(perm))
            else Holds(t, role, perm) || (IsTarget(c, role, Key(perm)) && Key(perm) !in Held(t, role))
  {
    var w, a, z := EnsureRuns(c, t);
    HoldsAlike(t, w, role, perm);
    HeldAfterAdding(w, PlanOf(c, t).grantsToAdd, role, perm);
    HeldAfterRemoving(a, PlanOf(c, t).grantsToRemove, role, perm);
    AddsMention(c, t, role, perm);
    RemovesMention(c, t, role, perm);
    if IsGoverned(c, role) && Key(perm) in Held(t, role) {
      GovernedFacts(c, role);
      HeldMeans(t, role, Key(perm));
      var p :| Holds(t, role, p) && Key(p) == Key(perm);
      PlainKeyIsUnique(p, perm);
    }
  }

  /** An odd grant of a governed role survives the sync, whether or not the run throws. */
  lemma {:induction false} OddGrantSurvives(c: Catalogue, t: Tables, role: string, perm: Perm)
    requires IsCatalogue(c) && IsStored(t) && IsGoverned(c, role) && Holds(t, role, perm) && IsOdd(perm)
    ensures Holds(Ensure(c, t).tables, role, perm) && !IsTarget(c, role, Key(perm))
  {
    var plan := PlanOf(c, t);
    var w := WithRows(t, plan);
    RowsAreWritten(c, t);
    HoldsAlike(t, w, role, perm);
    AddsResolve(c, t, w);
    AddsAre(w, plan.grantsToAdd);
    HeldAfterAdding(w, plan.grantsToAdd, role, perm);
    var a := AddGrants(Run(w, false), plan.grantsToAdd).tables;
    assert AddGrants(Run(w, false), plan.grantsToAdd) == Run(a, false);
    HeldAfterRemoving(a, plan.grantsToRemove, role, perm);
    RemovesMentionPlain(c, t, role, perm);
    if IsTarget(c, role, Key(perm)) {
      var p := TargetIsPlain(c, role, Key(perm));
      PlainKeyIsUnique(p, perm);
    }
  }

  lemma {:induction false} RemovesMentionPlain(c: Catalogue, t: Tables, role: string, perm: Perm)
    requires IsCatalogue(c)
    ensures Mentions(PlanOf(c, t).grantsToRemove, role, perm) ==> !IsOdd(perm)
  {
    if Mentions(PlanOf(c, t).grantsToRemove, role, perm) {
      var e :| e in PlanOf(c, t).grantsToRemove && Parsed(e) == Some((role, perm));
      RemoveMeans(c, t, e);
      var r, key :| IsGoverned(c, r) && key in Held(t, r) && !IsTarget(c, r, key) && e == Entry(r, key);
      GovernedFacts(c, r);
      EntryParsesPlain(r, key);
    }
  }

  /**
   * A sync runs through and leaves every governed role with exactly its matrix precisely when, before it, no governed role
   * held a permission with a dot or a colon in its subject or action.
   */
  lemma {:induction false} SyncConvergesExactly(c: Catalogue, t: Tables)
    requires IsCatalogue(c) && IsStored(t)
    ensures !Ensure(c, t).thrown && IsExact(c, Ensure(c, t).tables) <==> NoOddGrant(c, t)
  {
    if NoOddGrant(c, t) {
      var w, a, z := EnsureRuns(c, t);
      forall role, perm | IsGoverned(c, role)
        ensures Holds(z, role, perm) <==> IsTarget(c, role, Key(perm))
      {
        HeldAfterSync(c, t, role, perm);
      }
    } else {
      var role, perm :| IsGoverned(c, role) && Holds(t, role, perm) && IsOdd(perm);
      OddGrantSurvives(c, t, role, perm);
    }
  }

  lemma {:induction false} SplitPrefix(a: string, c: char, b: string)
    requires Lacks(a, c)
    ensures Text.Split(a + b, c)[0] == a + Text.Split(b, c)[0]
    decreases |a|
  {
    if a == "" {
      assert a + b == b;
    } else {
      assert forall i | 0 <= i < |a[1..]| :: a[1..][i] == a[i + 1];
      assert (a + b)[0] == a[0] && (a + b)[1..] == a[1..] + b;
      SplitPrefix(a[1..], c, b);
    }
  }

  /** Of a longer dotted name only the first two parts are read back. */
  lemma {:induction false} LongKeyIsCut(role: string, p: Perm, rest: string)
    requires Lacks(role, ':') && !IsOdd(p)
    ensures Parsed(Entry(role, Key(p) + "." + rest)) == Some((role, p))
  {
    var front := Key(p) + ".";
    assert Lacks(front, ':');
    assert Entry(role, front + rest) == role + [':'] + (front + rest);
    SplitAt(role, ':', front + rest);
    SplitPrefix(front, ':', rest);
    var tail := Text.Split(rest, ':')[0];
    assert front + tail == p.subject + ['.'] + (p.action + ['.'] + tail);
    SplitAt(p.subject, '.', p.action + ['.'] + tail);
    SplitAt(p.action, '.', tail);
  }

  /**
   * What goes wrong otherwise: where a governed role holds an odd permission whose subject is itself the name of a matrix
   * permission, the sync takes that matrix permission away and leaves the odd one.
   */
  lemma {:induction false} OddGrantCostsTheMatrixGrant(c: Catalogue, t: Tables, role: string, p: Perm, action: string)
    requires IsCatalogue(c) && IsStored(t) && IsGoverned(c, role) && IsTarget(c, role, Key(p)) && !IsOdd(p)
    requires Holds(t, role, Perm(Key(p), action)) && !Ensure(c, t).thrown
    ensures Holds(Ensure(c, t).tables, role, Perm(Key(p), action)) && !Holds(Ensure(c, t).tables, role, p)
  {
    var odd := Perm(Key(p), action);
    assert odd.subject[|p.subject|] == '.';
    OddGrantSurvives(c, t, role, odd);
    GovernedFacts(c, role);
    HeldMeans(t, role, Key(odd));
    RemoveMeans(c, t, Entry(role, Key(odd)));
    LongKeyIsCut(role, p, action);
    var plan := PlanOf(c, t);
    assert Mentions(plan.grantsToRemove, role, p);
    var w := WithRows(t, plan);
    RowsAreWritten(c, t);
    AddsResolve(c, t, w);
    AddsAre(w, plan.grantsToAdd);
    HeldAfterAdding(w, plan.grantsToAdd, role, p);
    var a := AddGrants(Run(w, false), plan.grantsToAdd).tables;
    assert AddGrants(Run(w, false), plan.grantsToAdd) == Run(a, false);
    RemovesAre(a, plan.grantsToRemove);
    HeldAfterRemoving(a, plan.grantsToRemove, role, p);
  }

  /** Then SUPER_ADMIN holds every catalogue permission and all it held before, and every other role what it held before. */
  lemma {:induction false} SyncKeepsTheRest(c: Catalogue, t: Tables)
    requires IsCatalogue(c) && IsStored(t) && NoOddGrant(c, t)
    ensures var z := Ensure(c, t).tables;
      && t.roles <= z.roles && t.permissions <= z.permissions && HasCatalogue(c, z) && IsStored(z)
      && (forall perm | perm in c.permissions :: Holds(z, SUPER_ADMIN, perm))
      && (forall perm | Holds(t, SUPER_ADMIN, perm) :: Holds(z, SUPER_ADMIN, perm))
      && (forall role, perm | role !in c.roles :: Holds(z, role, perm) <==> Holds(t, role, perm))
  {
    var w, a, z := EnsureRuns(c, t);
    assert !IsGoverned(c, SUPER_ADMIN);
    forall perm
      ensures perm in c.permissions || Holds(t, SUPER_ADMIN, perm) ==> Holds(z, SUPER_ADMIN, perm)
    {
      HeldAfterSync(c, t, SUPER_ADMIN, perm);
      if perm in c.permissions {
        var i :| 0 <= i < |c.permissions| && c.permissions[i] == perm;
        assert Keys(c.permissions)[i] == Key(perm);
        HeldMeans(t, SUPER_ADMIN, Key(perm));
        if p :| Holds(t, SUPER_ADMIN, p) && Key(p) == Key(perm) {
          PlainKeyIsUnique(perm, p);
        }
      }
    }
    forall role, perm | role !in c.roles
      ensures Holds(z, role, perm) <==> Holds(t, role, perm)
    {
      HeldAfterSync(c, t, role, perm);
    }
  }

  /** And the next plan has nothing to create, to grant or to remove. */
  lemma {:induction false} NextPlanIsEmpty(c: Catalogue, t: Tables)
    requires IsCatalogue(c) && IsStored(t) && NoOddGrant(c, t)
    ensures var next := PlanOf(c, Ensure(c, t).tables);
      next.missingRoles == [] && next.missingPermissions == [] && next.grantsToAdd == [] && next.grantsToRemove == []
  {
    var w, a, z := EnsureRuns(c, t);
    var next := PlanOf(c, z);
    SyncConvergesExactly(c, t);
    SyncKeepsTheRest(c, t);
    forall name
      ensures name !in next.missingRoles
    {
      MissingRolesMembers(c.roles, z, name);
    }
    forall perm
      ensures perm !in next.missingPermissions
    {
      MissingPermissionsMembers(c.permissions, z, perm);
      if perm in c.permissions {
        var i :| 0 <= i < |z.permissions| && z.permissions[i].perm == perm;
        assert Key(z.permissions[i].perm) == Key(perm);
      }
    }
    forall e
      ensures e !in next.grantsToAdd && e !in next.grantsToRemove
    {
      NothingToAdd(c, z, e);
      NothingToRemove(c, z, e);
    }
    NoMembers(next.missingRoles);
    NoMembers(next.missingPermissions);
    NoMembers(next.grantsToAdd);
    NoMembers(next.grantsToRemove);
  }

  lemma {:induction false} NoMembers<T>(s: seq<T>)
    ensures s == [] <==> forall x :: x !in s
  {
    if s != [] {
      assert s[0] in s;
    }
  }

  lemma {:induction false} NothingToAdd(c: Catalogue, z: Tables, e: string)
    requires IsCatalogue(c) && IsStored(z) && IsExact(c, z)
    requires forall perm | perm in c.permissions :: Holds(z, SUPER_ADMIN, perm)
    ensures e !in PlanOf(c, z).grantsToAdd
  {
    AddMeans(c, z, e);
    forall role, key | IsTarget(c, role, key)
      ensures key in Held(z, role)
    {
      var p := TargetIsPlain(c, role, key);
      assert Holds(z, role, p);
      HeldMeans(z, role, key);
    }
  }

  lemma {:induction false} NothingToRemove(c: Catalogue, z: Tables, e: string)
    requires IsCatalogue(c) && IsStored(z) && IsExact(c, z)
    ensures e !in PlanOf(c, z).grantsToRemove
  {
    RemoveMeans(c, z, e);
    forall role, key | IsGoverned(c, role) && key in Held(z, role)
      ensures IsTarget(c, role, key)
    {
      GovernedFacts(c, role);
      HeldMeans(z, role, key);
    }
  }
}
