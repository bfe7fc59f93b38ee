/**
 * What the plan of a sync lists, and what becomes of an entry on its way through a string. A permission without a dot or a
 * colon in its subject and action survives that way; whatever an entry is split back into is such a permission. The keys
 * gathered for a role are those of the permissions it holds.
 */
module RbacProofs {
  import opened Wrappers
  import opened Rbac
  import Text
  import RegionCodes

  // Entries and their parts

  predicate Lacks(s: string, c: char) {
    forall i | 0 <= i < |s| :: s[i] != c
  }

  predicate IsPlain(s: string) {
    Lacks(s, '.') && Lacks(s, ':')
  }

  /** A permission whose name does not survive the way through an entry. */
  predicate IsOdd(p: Perm) {
    !IsPlain(p.subject) || !IsPlain(p.action)
  }

  lemma {:induction false} SplitWhole(s: string, c: char)
    requires Lacks(s, c)
    ensures Text.Split(s, c) == [s]
    decreases |s|
  {
    if s != "" {
      assert forall i | 0 <= i < |s[1..]| :: s[1..][i] == s[i + 1];
      SplitWhole(s[1..], c);
      assert [s[0]] + s[1..] == s;
    }
  }

  lemma {:induction false} SplitAt(a: string, c: char, b: string)
    requires Lacks(a, c)
    ensures Text.Split(a + [c] + b, c) == [a] + Text.Split(b, c)
    decreases |a|
  {
    var s := a + [c] + b;
    if a == "" {
      assert s[1..] == b;
    } else {
      assert forall i | 0 <= i < |a[1..]| :: a[1..][i] == a[i + 1];
      assert s[0] == a[0] && s[1..] == a[1..] + [c] + b;
      SplitAt(a[1..], c, b);
      assert [a[0]] + a[1..] == a;
    }
  }

  predicate AllIn(piece: string, s: string) {
    forall k | 0 <= k < |piece| :: piece[k] in s
  }

  lemma {:induction false} PieceFacts(s: string, c: char, i: nat)
    requires i < |Text.Split(s, c)|
    ensures Lacks(Text.Split(s, c)[i], c) && AllIn(Text.Split(s, c)[i], s)
    decreases |s|
  {
    if s != "" {
      var rest := Text.Split(s[1..], c);
      assert forall x | x in s[1..] :: x in s;
      if i > 0 || s[0] != c {
        PieceFacts(s[1..], c, if s[0] == c then i - 1 else i);
      }
    }
  }

  /** A plain permission survives the way through its entry. */
  lemma {:induction false} PlainEntryParses(role: string, p: Perm)
    requires Lacks(role, ':') && !IsOdd(p)
    ensures Parsed(Entry(role, Key(p))) == Some((role, p))
  {
    var key := Key(p);
    assert Lacks(key, ':');
    assert Entry(role, key) == role + [':'] + key;
    SplitAt(role, ':', key);
    SplitWhole(key, ':');
    assert key == p.subject + ['.'] + p.action;
    SplitAt(p.subject, '.', p.action);
    SplitWhole(p.action, '.');
  }

  /** Whatever an entry of a role parses to, it is that role and a plain permission. */
  lemma {:induction false} EntryParsesPlain(role: string, key: string)
    requires Lacks(role, ':')
    ensures var parsed := Parsed(Entry(role, key)); parsed.Some? ==> parsed.value.0 == role && !IsOdd(parsed.value.1)
  {
    assert Entry(role, key) == role + [':'] + key;
    SplitAt(role, ':', key);
    var piece := Text.Split(key, ':')[0];
    PieceFacts(key, ':', 0);
    assert Text.Split(Entry(role, key), ':')[1] == piece;
    var parts := Text.Split(piece, '.');
    if |parts| >= 2 {
      PieceFacts(piece, '.', 0);
      PieceFacts(piece, '.', 1);
    }
  }

  lemma {:induction false} DotIsTheOnlyOne(p: Perm, k: nat)
    requires !IsOdd(p) && k < |Key(p)|
    ensures Key(p)[k] == '.' <==> k == |p.subject|
  {
    if k < |p.subject| {
      assert Key(p)[k] == p.subject[k];
    } else if k > |p.subject| {
      assert Key(p)[k] == p.action[k - |p.subject| - 1];
    }
  }

  /** Only a plain permission has a plain permission's key. */
  lemma {:induction false} PlainKeyIsUnique(p: Perm, q: Perm)
    requires !IsOdd(p) && Key(p) == Key(q)
    ensures p == q
  {
    assert Key(p) == p.subject + ['.'] + p.action && Key(q) == q.subject + ['.'] + q.action;
    var n, m := |p.subject|, |q.subject|;
    assert Key(p)[n] == '.' && Key(q)[m] == '.';
    DotIsTheOnlyOne(p, m);
    assert p.subject == Key(p)[..n] && q.subject == Key(q)[..n];
    assert p.action == Key(p)[n + 1..] && q.action == Key(q)[n + 1..];
  }

  // What the catalogue and the tables promise

  ghost predicate IsCatalogue(c: Catalogue) {
    && SUPER_ADMIN in c.roles
    && (forall p | p in c.permissions :: !IsOdd(p))
    && (forall m | m in c.matrix :: m.role in c.roles && m.role != SUPER_ADMIN && m.role != "" && Lacks(m.role, ':'))
    && (forall m, n | m in c.matrix && n in c.matrix && m.role == n.role :: m == n)
    && (forall m, key | m in c.matrix && key in m.keys :: key in Keys(c.permissions))
  }

  ghost predicate RolesAreRows(roles: seq<Role>) {
    forall i, j | 0 <= i < j < |roles| :: roles[i].id != roles[j].id && roles[i].name != roles[j].name
  }

  ghost predicate PermissionsAreRows(permissions: seq<Permission>) {
    forall i, j | 0 <= i < j < |permissions| ::
      permissions[i].id != permissions[j].id && permissions[i].perm != permissions[j].perm
  }

  /** Unique ids, unique role names, unique (subject, action), and ids below the next one; grants refer to rows. */
  ghost predicate IsStored(t: Tables) {
    && RolesAreRows(t.roles) && PermissionsAreRows(t.permissions)
    && (forall r | r in t.roles :: r.id < t.next)
    && (forall p | p in t.permissions :: p.id < t.next)
    && forall g | g in t.grants :: NameById(t.roles, g.roleId).Some? && PermById(t.permissions, g.permissionId).Some?
  }

  /** The role holds the permission. */
  ghost predicate Holds(t: Tables, role: string, perm: Perm) {
    exists g :: g in t.grants && IdOfRole(t.roles, role) == Some(g.roleId) && IdOfPerm(t.permissions, perm) == Some(g.permissionId)
  }

  // Lookups

  lemma {:induction false} RoleLookups(roles: seq<Role>, i: nat)
    requires RolesAreRows(roles) && i < |roles|
    ensures NameById(roles, roles[i].id) == Some(roles[i].name) && IdOfRole(roles, roles[i].name) == Some(roles[i].id)
    decreases |roles|
  {
    if i < |roles| - 1 {
      RoleLookups(roles[..|roles| - 1], i);
    }
  }

  lemma {:induction false} RoleFound(roles: seq<Role>, name: string, id: nat)
    ensures IdOfRole(roles, name) == Some(id) ==> Role(id, name) in roles
    ensures NameById(roles, id) == Some(name) ==> Role(id, name) in roles
    ensures IdOfRole(roles, name).None? <==> forall i | 0 <= i < |roles| :: roles[i].name != name
    decreases |roles|
  {
    if roles != [] {
      RoleFound(roles[..|roles| - 1], name, id);
      assert roles == roles[..|roles| - 1] + [roles[|roles| - 1]];
    }
  }

  /** The two lookups agree. */
  lemma {:induction false} RoleIdAndName(roles: seq<Role>, name: string, id: nat)
    requires RolesAreRows(roles)
    ensures IdOfRole(roles, name) == Some(id) <==> NameById(roles, id) == Some(name)
  {
    RoleFound(roles, name, id);
    if Role(id, name) in roles {
      var i :| 0 <= i < |roles| && roles[i] == Role(id, name);
      RoleLookups(roles, i);
    }
  }

  lemma {:induction false} PermLookups(permissions: seq<Permission>, i: nat)
    requires PermissionsAreRows(permissions) && i < |permissions|
    ensures PermById(permissions, permissions[i].id) == Some(permissions[i].perm)
    ensures IdOfPerm(permissions, permissions[i].perm) == Some(permissions[i].id)
    decreases |permissions|
  {
    if i < |permissions| - 1 {
      PermLookups(permissions[..|permissions| - 1], i);
    }
  }

  lemma {:induction false} PermFound(permissions: seq<Permission>, perm: Perm, id: nat)
    ensures IdOfPerm(permissions, perm) == Some(id) ==> Permission(id, perm) in permissions
    ensures PermById(permissions, id) == Some(perm) ==> Permission(id, perm) in permissions
    ensures IdOfPerm(permissions, perm).None? <==> forall i | 0 <= i < |permissions| :: permissions[i].perm != perm
    decreases |permissions|
  {
    if permissions != [] {
      PermFound(permissions[..|permissions| - 1], perm, id);
      assert permissions == permissions[..|permissions| - 1] + [permissions[|permissions| - 1]];
    }
  }

  lemma {:induction false} PermIdAndName(permissions: seq<Permission>, perm: Perm, id: nat)
    requires PermissionsAreRows(permissions)
    ensures IdOfPerm(permissions, perm) == Some(id) <==> PermById(permissions, id) == Some(perm)
  {
    PermFound(permissions, perm, id);
    if Permission(id, perm) in permissions {
      var i :| 0 <= i < |permissions| && permissions[i] == Permission(id, perm);
      PermLookups(permissions, i);
    }
  }

  /** A role holds a permission by a grant row between their ids. */
  lemma {:induction false} HoldsByGrant(t: Tables, role: string, perm: Perm)
    requires IsStored(t)
    ensures Holds(t, role, perm)
       <==> exists g :: g in t.grants && NameById(t.roles, g.roleId) == Some(role) && PermById(t.permissions, g.permissionId) == Some(perm)
  {
    forall g | g in t.grants
      ensures IdOfRole(t.roles, role) == Some(g.roleId) <==> NameById(t.roles, g.roleId) == Some(role)
      ensures IdOfPerm(t.permissions, perm) == Some(g.permissionId) <==> PermById(t.permissions, g.permissionId) == Some(perm)
    {
      RoleIdAndName(t.roles, role, g.roleId);
      PermIdAndName(t.permissions, perm, g.permissionId);
    }
  }

  // What the plan lists

  lemma {:induction false} HeldByMembers(t: Tables, role: string, n: nat, key: string)
    requires n <= |t.grants|
    ensures key in HeldBy(t, role, n) <==> exists i | 0 <= i < n :: Granted(t, t.grants[i]) == Some((role, key))
    decreases n
  {
    if n > 0 {
      HeldByMembers(t, role, n - 1, key);
    }
  }

  /** The keys listed for a role are those of the permissions it holds. */
  lemma {:induction false} HeldMeans(t: Tables, role: string, key: string)
    requires IsStored(t) && role != ""
    ensures key in Held(t, role) <==> exists perm :: Holds(t, role, perm) && Key(perm) == key
  {
    HeldByMembers(t, role, |t.grants|, key);
    if key in Held(t, role) {
      var i :| 0 <= i < |t.grants| && Granted(t, t.grants[i]) == Some((role, key));
      var perm := PermById(t.permissions, t.grants[i].permissionId).value;
      HoldsByGrant(t, role, perm);
      assert t.grants[i] in t.grants;
    }
    if perm :| Holds(t, role, perm) && Key(perm) == key {
      HoldsByGrant(t, role, perm);
      var g :| g in t.grants && NameById(t.roles, g.roleId) == Some(role) && PermById(t.permissions, g.permissionId) == Some(perm);
      var i :| 0 <= i < |t.grants| && t.grants[i] == g;
      assert Granted(t, t.grants[i]) == Some((role, key));
    }
  }

  lemma {:induction false} UniqueMembers(s: seq<string>)
    ensures forall x :: x in Unique(s) <==> x in s
    decreases |s|
  {
    if s != [] {
      UniqueMembers(s[..|s| - 1]);
      assert s == s[..|s| - 1] + [s[|s| - 1]];
    }
  }

  lemma {:induction false} EntriesMembers(role: string, keys: seq<string>, other: seq<string>, e: string)
    ensures e in EntriesBeyond(role, keys, other) <==> exists key :: key in keys && key !in other && e == Entry(role, key)
    decreases |keys|
  {
    if keys != [] {
      EntriesMembers(role, keys[..|keys| - 1], other, e);
      assert keys == keys[..|keys| - 1] + [keys[|keys| - 1]];
    }
  }

  ghost predicate IsAdd(targets: seq<RoleGrants>, t: Tables, e: string) {
    exists m, key :: m in targets && key in m.keys && key !in Held(t, m.role) && e == Entry(m.role, key)
  }

  ghost predicate IsRemove(targets: seq<RoleGrants>, t: Tables, e: string) {
    exists m, key :: m in targets && m.role != SUPER_ADMIN && key in Held(t, m.role) && key !in m.keys && e == Entry(m.role, key)
  }

  lemma {:induction false} AddsMembers(targets: seq<RoleGrants>, t: Tables, e: string)
    ensures e in Adds(targets, t) <==> IsAdd(targets, t, e)
    decreases |targets|
  {
    if targets != [] {
      var front, last := targets[..|targets| - 1], targets[|targets| - 1];
      AddsMembers(front, t, e);
      EntriesMembers(last.role, last.keys, Held(t, last.role), e);
      assert targets == front + [last];
    }
  }

  lemma {:induction false} IsRemoveOneMore(front: seq<RoleGrants>, last: RoleGrants, t: Tables, e: string)
    ensures IsRemove(front + [last], t, e) <==> IsRemove(front, t, e) || IsRemove([last], t, e)
  {
  }

  lemma {:induction false} IsRemoveOfOne(m: RoleGrants, t: Tables, e: string)
    ensures IsRemove([m], t, e) <==> m.role != SUPER_ADMIN && e in EntriesBeyond(m.role, Held(t, m.role), m.keys)
  {
    EntriesMembers(m.role, Held(t, m.role), m.keys, e);
    assert m in [m];
  }

  lemma {:induction false} RemovesMembers(targets: seq<RoleGrants>, t: Tables, e: string)
    ensures e in Removes(targets, t) <==> IsRemove(targets, t, e)
    decreases |targets|
  {
    if targets != [] {
      var front, last := targets[..|targets| - 1], targets[|targets| - 1];
      RemovesMembers(front, t, e);
      assert targets == front + [last];
      IsRemoveOneMore(front, last, t, e);
      IsRemoveOfOne(last, t, e);
    }
  }

  lemma {:induction false} InsertMembers(x: string, s: seq<string>)
    ensures forall y :: y in RegionCodes.Insert(x, s) <==> y == x || y in s
    decreases |s|
  {
    if s != [] && !RegionCodes.Less(x, s[0]) {
      InsertMembers(x, s[1..]);
      assert s == [s[0]] + s[1..];
    }
  }

  lemma {:induction false} SortMembers(s: seq<string>)
    ensures forall y :: y in RegionCodes.SortCodes(s) <==> y in s
    decreases |s|
  {
    if s != [] {
      SortMembers(s[1..]);
      InsertMembers(s[0], RegionCodes.SortCodes(s[1..]));
      assert s == [s[0]] + s[1..];
    }
  }

  lemma {:induction false} PlanMembers(c: Catalogue, t: Tables, e: string)
    ensures e in PlanOf(c, t).grantsToAdd <==> IsAdd(Targets(c), t, e)
    ensures e in PlanOf(c, t).grantsToRemove <==> IsRemove(Targets(c), t, e)
  {
    AddsMembers(Targets(c), t, e);
    RemovesMembers(Targets(c), t, e);
    SortMembers(Adds(Targets(c), t));
    SortMembers(Removes(Targets(c), t));
  }
}
