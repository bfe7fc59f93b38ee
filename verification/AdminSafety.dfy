/** What the lock guarantees over every interleaving of the admin programs, and what happens without it. */
module AdminSafety {
  import opened Wrappers
  import opened AdminLifecycle

  // Queries and what they mean

  lemma {:induction false} FoundByEmail(admins: seq<Admin>, email: string)
    ensures var found := FindByEmail(admins, email);
      && (found.Some? ==> found.value in admins && found.value.email == email)
      && (found.None? <==> forall a | a in admins :: a.email != email)
    decreases |admins|
  {
    if admins != [] {
      FoundByEmail(admins[..|admins| - 1], email);
      assert admins == admins[..|admins| - 1] + [admins[|admins| - 1]];
    }
  }

  lemma {:induction false} NoSupers(admins: seq<Admin>)
    ensures CountSupers(admins) == 0 <==> forall a | a in admins :: !IsSuper(a)
    decreases |admins|
  {
    if admins != [] {
      NoSupers(admins[..|admins| - 1]);
      assert admins == admins[..|admins| - 1] + [admins[|admins| - 1]];
    }
  }

  lemma {:induction false} OtherActiveSupers(admins: seq<Admin>, id: nat)
    ensures CountOtherActiveSupers(admins, id) > 0 <==> exists a :: a in admins && IsSuper(a) && a.isActive && a.id != id
    decreases |admins|
  {
    if admins != [] {
      OtherActiveSupers(admins[..|admins| - 1], id);
      assert admins == admins[..|admins| - 1] + [admins[|admins| - 1]];
    }
  }

  lemma {:induction false} SupersOfMore(admins: seq<Admin>, a: Admin)
    ensures CountSupers(admins + [a]) == CountSupers(admins) + if IsSuper(a) then 1 else 0
  {
    assert (admins + [a])[..|admins|] == admins;
  }

  lemma {:induction false} SupersStay(admins: seq<Admin>, id: nat)
    ensures CountSupers(Deactivated(admins, id)) == CountSupers(admins)
    decreases |admins|
  {
    if admins != [] {
      SupersStay(admins[..|admins| - 1], id);
      var now := Deactivated(admins, id);
      assert now[..|admins| - 1] == Deactivated(admins[..|admins| - 1], id);
    }
  }

  // The invariant

  ghost predicate AreRows(db: Db) {
    && (forall a | a in db.admins :: a.id < db.next)
    && (forall i, j | 0 <= i < j < |db.admins| ::
          db.admins[i].id != db.admins[j].id && db.admins[i].email != db.admins[j].email)
  }

  ghost predicate IsFree(db: Db, email: string) {
    forall a | a in db.admins :: a.email != email
  }

  ghost predicate HasAnotherActiveSuper(db: Db, id: nat) {
    exists a :: a in db.admins && IsSuper(a) && a.isActive && a.id != id
  }

  /** What a run in its transaction has read still holds of the committed tables. */
  ghost predicate StillTrue(db: Db, proc: Proc) {
    match proc.stage
    case ReadOnce(admin) =>
      (match proc.job
       case BootstrapJob(email, _, _) => IsFree(db, email)
       case CreateJob(_, _, role, _) => role in db.roles
       case DisableJob(email) => admin.Some? && admin.value in db.admins && admin.value.email == email && admin.value.isActive)
    case ReadTwice(admin) =>
      (match proc.job
       case BootstrapJob(email, _, _) => IsFree(db, email) && CountSupers(db.admins) == 0
       case CreateJob(email, _, role, _) => role in db.roles && IsFree(db, email)
       case DisableJob(email) =>
         && admin.Some? && admin.value in db.admins && admin.value.email == email && admin.value.isActive
         && (IsSuper(admin.value) ==> HasAnotherActiveSuper(db, admin.value.id)))
    case Written(write) => WriteIsSafe(db, proc.job, write)
    case _ => true
  }

  /** The pending write is the job's own and may be committed. */
  ghost predicate WriteIsSafe(db: Db, job: Job, write: Write) {
    match job
    case BootstrapJob(email, name, hash) =>
      && write == Insert(Admin(db.next, email, name, hash, true, {SUPER_ADMIN}), false)
      && IsFree(db, email) && CountSupers(db.admins) == 0
    case CreateJob(email, name, role, hash) =>
      && write == Insert(Admin(db.next, email, name, hash, true, {role}), true)
      && IsFree(db, email) && role in db.roles
    case DisableJob(email) =>
      && write.Deactivate? && write.admin in db.admins && write.admin.email == email && write.admin.isActive
      && (IsSuper(write.admin) ==> HasAnotherActiveSuper(db, write.admin.id))
  }

  /** Past its first step a creation is of an assignable role. */
  ghost predicate IsAssignable(proc: Proc) {
    proc.job.CreateJob? && !proc.stage.Started? && !proc.stage.Ended? ==> proc.job.role in ASSIGNABLE_ADMIN_ROLES
  }

  ghost predicate Sound(s: Sys) {
    && AreRows(s.db)
    && (forall pid | pid in s.procs :: InTransaction(s.procs[pid].stage) ==> s.holder == Some(pid))
    && (forall pid | pid in s.procs :: StillTrue(s.db, s.procs[pid]) && IsAssignable(s.procs[pid]))
  }

  // What one event may do to the tables

  ghost predicate HasActiveSuper(db: Db) {
    exists a :: a in db.admins && IsSuper(a) && a.isActive
  }

  /** The same admin, at most disabled since. */
  predicate SameAdmin(was: Admin, now: Admin) {
    now == was || (was.isActive && now == was.(isActive := false))
  }

  /** Rows stay where they are and at most lose their activity; new ones come after them. */
  ghost predicate RowsKept(db: Db, later: Db) {
    && |db.admins| <= |later.admins|
    && forall i | 0 <= i < |db.admins| :: SameAdmin(db.admins[i], later.admins[i])
  }

  ghost predicate IsSafeChange(db: Db, later: Db) {
    && RowsKept(db, later)
    && (HasActiveSuper(db) ==> HasActiveSuper(later))
    && (CountSupers(db.admins) > 0 ==> CountSupers(later.admins) == CountSupers(db.admins))
    && (CountSupers(db.admins) == 0 ==> CountSupers(later.admins) <= 1)
    && db.audit <= later.audit && db.roles <= later.roles
  }

  lemma {:induction false} InsertIsSafe(db: Db, job: Job, write: Write)
    requires AreRows(db) && WriteIsSafe(db, job, write) && !job.DisableJob?
    requires job.CreateJob? ==> job.role in ASSIGNABLE_ADMIN_ROLES
    ensures AreRows(Commit(db, write)) && IsSafeChange(db, Commit(db, write))
    ensures Commit(db, write).admins == db.admins + [write.admin]
  {
    var later := Commit(db, write);
    SupersOfMore(db.admins, write.admin);
    NoSupers(db.admins);
    if HasActiveSuper(db) {
      var a :| a in db.admins && IsSuper(a) && a.isActive;
      assert a in later.admins;
    }
    forall i, j | 0 <= i < j < |later.admins|
      ensures later.admins[i].id != later.admins[j].id && later.admins[i].email != later.admins[j].email
    {
      assert later.admins[i] in db.admins;
    }
  }

  lemma {:induction false} RowOf(db: Db, a: Admin) returns (k: nat)
    requires a in db.admins
    ensures k < |db.admins| && db.admins[k] == a
  {
    k :| k < |db.admins| && db.admins[k] == a;
  }

  /** All rows stay as they are but that one admin's, which is turned off. */
  ghost predicate OnlyOneOff(db: Db, later: Db, admin: Admin) {
    && |later.admins| == |db.admins|
    && forall i | 0 <= i < |db.admins| ::
         later.admins[i] == if db.admins[i] == admin then admin.(isActive := false) else db.admins[i]
  }

  lemma {:induction false} DisableTurnsOneOff(db: Db, admin: Admin)
    requires AreRows(db) && admin in db.admins
    ensures OnlyOneOff(db, Commit(db, Deactivate(admin)), admin)
  {
    var k := RowOf(db, admin);
    forall i | 0 <= i < |db.admins|
      ensures db.admins[i].id == admin.id <==> db.admins[i] == admin
    {
      assert i != k ==> db.admins[i].id != db.admins[k].id;
    }
  }

  lemma {:induction false} ActiveSuperStays(db: Db, admin: Admin)
    requires AreRows(db) && admin in db.admins && HasActiveSuper(db)
    requires IsSuper(admin) ==> HasAnotherActiveSuper(db, admin.id)
    ensures HasActiveSuper(Commit(db, Deactivate(admin)))
  {
    var a :| a in db.admins && IsSuper(a) && a.isActive;
    if a.id != admin.id {
      OtherStays(db, admin.id, a);
    } else {
      var k := RowOf(db, admin);
      var m := RowOf(db, a);
      assert k == m;
      var other :| other in db.admins && IsSuper(other) && other.isActive && other.id != admin.id;
      OtherStays(db, admin.id, other);
    }
  }

  lemma {:induction false} OneOffKeepsRows(db: Db, later: Db, admin: Admin)
    requires AreRows(db) && OnlyOneOff(db, later, admin) && later.next == db.next
    ensures AreRows(later)
  {
    forall a | a in later.admins
      ensures a.id < later.next
    {
      var i :| 0 <= i < |later.admins| && later.admins[i] == a;
      assert db.admins[i] in db.admins;
    }
    forall i | 0 <= i < |later.admins|
      ensures later.admins[i].id == db.admins[i].id && later.admins[i].email == db.admins[i].email
    {
    }
  }

  lemma {:induction false} DisableIsSafe(db: Db, admin: Admin)
    requires AreRows(db) && admin in db.admins && admin.isActive
    requires IsSuper(admin) ==> HasAnotherActiveSuper(db, admin.id)
    ensures AreRows(Commit(db, Deactivate(admin))) && IsSafeChange(db, Commit(db, Deactivate(admin)))
    ensures OnlyOneOff(db, Commit(db, Deactivate(admin)), admin)
  {
    var later := Commit(db, Deactivate(admin));
    DisableTurnsOneOff(db, admin);
    OneOffKeepsRows(db, later, admin);
    SupersStay(db.admins, admin.id);
    NoSupers(db.admins);
    if HasActiveSuper(db) {
      ActiveSuperStays(db, admin);
    }
  }

  lemma {:induction false} OtherStays(db: Db, id: nat, a: Admin)
    requires a in db.admins && a.id != id
    ensures a in Deactivated(db.admins, id)
  {
    var m := RowOf(db, a);
    assert Deactivated(db.admins, id)[m] == a;
  }

  lemma {:induction false} NothingChanged(db: Db, later: Db)
    requires later == db.(roles := later.roles) && db.roles <= later.roles
    ensures IsSafeChange(db, later)
    ensures AreRows(db) ==> AreRows(later)
  {
  }

  lemma {:induction false} CommitIsSafe(db: Db, proc: Proc)
    requires AreRows(db) && proc.stage.Written? && StillTrue(db, proc) && IsAssignable(proc)
    ensures AreRows(Commit(db, proc.stage.write)) && IsSafeChange(db, Commit(db, proc.stage.write))
    ensures db.roles == Commit(db, proc.stage.write).roles
  {
    if proc.job.DisableJob? {
      DisableIsSafe(db, proc.stage.write.admin);
    } else {
      InsertIsSafe(db, proc.job, proc.stage.write);
    }
  }

  /** The next stage knows what its query has just read. */
  lemma {:induction false} QueriesTellTheTruth(db: Db, proc: Proc, stage: Stage)
    requires StillTrue(db, proc) && IsAssignable(proc)
    requires match proc.stage
             case Locked => stage == FirstQuery(db, proc.job)
             case ReadOnce(admin) => stage == SecondQuery(db, proc.job, admin)
             case ReadTwice(admin) => stage == WriteStatement(db, proc.job, admin)
             case _ => false
    ensures StillTrue(db, proc.(stage := stage)) && IsAssignable(proc.(stage := stage))
  {
    FoundByEmail(db.admins, proc.job.email);
    if proc.stage.ReadOnce? && proc.stage.admin.Some? {
      OtherActiveSupers(db.admins, proc.stage.admin.value.id);
    }
  }

  /** With more roles and the same admins everything read still holds. */
  lemma {:induction false} MoreRolesKeepTruth(db: Db, later: Db, proc: Proc)
    requires later == db.(roles := later.roles) && db.roles <= later.roles && StillTrue(db, proc)
    ensures StillTrue(later, proc)
  {
  }

  lemma {:induction false} StartKeepsSound(s: Sys, pid: nat, job: Job)
    requires Sound(s)
    ensures Sound(Happen(s, Start(pid, job), true)) && Happen(s, Start(pid, job), true).db == s.db
  {
  }

  lemma {:induction false} CrashKeepsSound(s: Sys, pid: nat)
    requires Sound(s)
    ensures Sound(Happen(s, Crash(pid), true)) && Happen(s, Crash(pid), true).db == s.db
  {
  }

  /** A run moves to a stage whose knowledge holds, and the lock with it. */
  lemma {:induction false} MoveKeepsSound(s: Sys, pid: nat, stage: Stage)
    requires Sound(s) && pid in s.procs
    requires InTransaction(stage) ==> InTransaction(s.procs[pid].stage)
    requires StillTrue(s.db, s.procs[pid].(stage := stage)) && IsAssignable(s.procs[pid].(stage := stage))
    ensures Sound(Moved(s, pid, stage)) && Moved(s, pid, stage).db == s.db
  {
  }

  lemma {:induction false} RolesKeepSound(s: Sys, roles: set<string>)
    requires Sound(s) && s.db.roles <= roles
    ensures Sound(s.(db := s.db.(roles := roles)))
  {
    forall pid | pid in s.procs
      ensures StillTrue(s.db.(roles := roles), s.procs[pid])
    {
      MoreRolesKeepTruth(s.db, s.db.(roles := roles), s.procs[pid]);
    }
  }

  lemma {:induction false} LockKeepsSound(s: Sys, pid: nat)
    requires Sound(s) && pid in s.procs && s.procs[pid].stage.Waiting? && s.holder.None?
    ensures Sound(Moved(s.(holder := Some(pid)), pid, Locked))
  {
  }

  lemma {:induction false} ProgressKeepsSound(s: Sys, pid: nat)
    requires Sound(s) && pid in s.procs && !s.procs[pid].stage.Written?
    ensures Sound(Advance(s, pid, true))
    ensures Advance(s, pid, true).db == s.db.(roles := Advance(s, pid, true).db.roles)
    ensures s.db.roles <= Advance(s, pid, true).db.roles
  {
    var proc := s.procs[pid];
    match proc.stage
    case Started =>
      if proc.job.CreateJob? && proc.job.role !in ASSIGNABLE_ADMIN_ROLES {
        MoveKeepsSound(s, pid, Ended(Refused(ROLE_NOT_ASSIGNABLE)));
      } else if proc.job.BootstrapJob? {
        RolesKeepSound(s, s.db.roles + SYSTEM_ROLES);
        MoveKeepsSound(s.(db := s.db.(roles := s.db.roles + SYSTEM_ROLES)), pid, Waiting);
      } else {
        MoveKeepsSound(s, pid, Waiting);
      }
    case Waiting =>
      if s.holder.None? {
        LockKeepsSound(s, pid);
      }
    case Locked =>
      QueriesTellTheTruth(s.db, proc, FirstQuery(s.db, proc.job));
      MoveKeepsSound(s, pid, FirstQuery(s.db, proc.job));
    case ReadOnce(admin) =>
      QueriesTellTheTruth(s.db, proc, SecondQuery(s.db, proc.job, admin));
      MoveKeepsSound(s, pid, SecondQuery(s.db, proc.job, admin));
    case ReadTwice(admin) =>
      QueriesTellTheTruth(s.db, proc, WriteStatement(s.db, proc.job, admin));
      MoveKeepsSound(s, pid, WriteStatement(s.db, proc.job, admin));
    case Ended(_) =>
  }

  /** Only the run that holds the lock has read anything, so a commit cannot contradict another run. */
  lemma {:induction false} EventKeepsSound(s: Sys, e: Event)
    requires Sound(s)
    ensures Sound(Happen(s, e, true)) && IsSafeChange(s.db, Happen(s, e, true).db)
  {
    var later := Happen(s, e, true);
    if Commits(s, e) {
      CommitKeepsSound(s, e.pid);
    } else {
      match e {
        case Start(pid, job) => StartKeepsSound(s, pid, job);
        case Crash(pid) => CrashKeepsSound(s, pid);
        case Progress(pid) =>
          if pid in s.procs {
            ProgressKeepsSound(s, pid);
          }
      }
      NothingChanged(s.db, later.db);
    }
  }

  lemma {:induction false} CommitKeepsSound(s: Sys, pid: nat)
    requires Sound(s) && pid in s.procs && s.procs[pid].stage.Written?
    ensures Sound(Advance(s, pid, true)) && IsSafeChange(s.db, Advance(s, pid, true).db)
  {
    var later := Advance(s, pid, true);
    CommitIsSafe(s.db, s.procs[pid]);
    assert s.holder == Some(pid);
    forall q | q in later.procs
      ensures StillTrue(later.db, later.procs[q]) && IsAssignable(later.procs[q])
      ensures InTransaction(later.procs[q].stage) ==> later.holder == Some(q)
    {
      if q != pid {
        assert !InTransaction(s.procs[q].stage);
      }
    }
  }

  lemma {:induction false} SafeChangesCompose(a: Db, b: Db, c: Db)
    requires IsSafeChange(a, b) && IsSafeChange(b, c)
    ensures IsSafeChange(a, c)
  {
    forall i | 0 <= i < |a.admins|
      ensures SameAdmin(a.admins[i], c.admins[i])
    {
      assert SameAdmin(a.admins[i], b.admins[i]) && SameAdmin(b.admins[i], c.admins[i]);
    }
  }

  /**
   * Over every interleaving, crashes included: an active SUPER_ADMIN once there is always there, no second SUPER_ADMIN is
   * ever made, emails stay unique, and an existing admin never changes but by being disabled.
   */
  lemma {:induction false} EveryInterleavingIsSafe(s: Sys, events: seq<Event>)
    requires Sound(s)
    ensures Sound(RunAll(s, events, true)) && IsSafeChange(s.db, RunAll(s, events, true).db)
    decreases |events|
  {
    if events == [] {
      NothingChanged(s.db, s.db);
    } else {
      var front, last := events[..|events| - 1], events[|events| - 1];
      EveryInterleavingIsSafe(s, front);
      var between := RunAll(s, front, true);
      EventKeepsSound(between, last);
      SafeChangesCompose(s.db, between.db, Happen(between, last, true).db);
    }
  }

  /** Tables with distinct admins and no run under way are a sound beginning. */
  lemma {:induction false} BeginningIsSound(db: Db)
    requires AreRows(db)
    ensures Sound(Sys(db, map[], None))
  {
  }

  // What each event does to the rows

  /** Which run commits, if the event is a commit. */
  ghost predicate Commits(s: Sys, e: Event) {
    e.Progress? && e.pid in s.procs && s.procs[e.pid].stage.Written?
  }

  /**
   * Only commits change admins. A creation adds its one admin and touches none; a disabling turns one active or inactive
   * row off. Each of the two leaves exactly one audit row for its admin, the bootstrap none.
   */
  lemma {:induction false} OnlyCommitsChangeAdmins(s: Sys, e: Event)
    requires Sound(s)
    ensures !Commits(s, e) ==> Happen(s, e, true).db.admins == s.db.admins && Happen(s, e, true).db.audit == s.db.audit
    ensures Commits(s, e) ==>
              var job, write, later := s.procs[e.pid].job, s.procs[e.pid].stage.write, Happen(s, e, true).db;
              match job
              case BootstrapJob(email, name, hash) =>
                && later.admins == s.db.admins + [Admin(s.db.next, email, name, hash, true, {SUPER_ADMIN})]
                && later.audit == s.db.audit
              case CreateJob(email, name, role, hash) =>
                && later.admins == s.db.admins + [Admin(s.db.next, email, name, hash, true, {role})]
                && role != SUPER_ADMIN
                && later.audit == s.db.audit + [AuditRow(CREATE, s.db.next, email)]
              case DisableJob(email) =>
                && write.admin in s.db.admins && write.admin.email == email && OnlyOneOff(s.db, later, write.admin)
                && later.audit == s.db.audit + [AuditRow(DEACTIVATE, write.admin.id, email)]
  {
    if Commits(s, e) {
      var proc := s.procs[e.pid];
      if proc.job.DisableJob? {
        DisableIsSafe(s.db, proc.stage.write.admin);
      }
    }
  }

  lemma {:induction false} OneActive(admins: seq<Admin>, k: nat)
    requires forall i, j | 0 <= i < j < |admins| :: admins[i].id != admins[j].id
    requires k < |admins| && admins[k].isActive
    ensures CountActive(admins, admins[k].id) == 1
    decreases |admins|
  {
    var front, id := admins[..|admins| - 1], admins[k].id;
    if k < |front| {
      OneActive(front, k);
    } else {
      NoneActive(front, id);
    }
  }

  lemma {:induction false} NoneActive(admins: seq<Admin>, id: nat)
    requires forall i | 0 <= i < |admins| :: admins[i].id != id
    ensures CountActive(admins, id) == 0
    decreases |admins|
  {
    if admins != [] {
      NoneActive(admins[..|admins| - 1], id);
    }
  }

  /** Under the lock the compare-and-set of a disabling never finds the admin changed. */
  lemma {:induction false} NothingChangesConcurrently(s: Sys, pid: nat)
    requires Sound(s) && pid in s.procs && s.procs[pid].stage.ReadTwice?
    ensures Advance(s, pid, true).procs[pid].stage.Written?
  {
    var proc := s.procs[pid];
    if proc.job.DisableJob? {
      var k := RowOf(s.db, proc.stage.checked.value);
      OneActive(s.db.admins, k);
    }
  }

  // Without the lock

  /** Two active Super Admins. */
  function TwoSupers(): Db {
    Db(SYSTEM_ROLES,
       [Admin(0, "a@x.id", "A", "h", true, {SUPER_ADMIN}), Admin(1, "b@x.id", "B", "h", true, {SUPER_ADMIN})], [], 2)
  }

  /** A run disabling each of them, at the given stages. */
  function EachDisabled(db: Db, a: Stage, b: Stage): Sys {
    Sys(db, map[0 := Proc(DisableJob("a@x.id"), a), 1 := Proc(DisableJob("b@x.id"), b)], None)
  }

  /** Both runs make each of their six steps side by side. */
  function SideBySide(n: nat): seq<Event> {
    if n == 0 then [] else SideBySide(n - 1) + [Progress(0), Progress(1)]
  }

  lemma {:induction false} OnePairMore(s: Sys, n: nat)
    ensures RunAll(s, SideBySide(n + 1), false)
         == Happen(Happen(RunAll(s, SideBySide(n), false), Progress(0), false), Progress(1), false)
  {
    var all, before := SideBySide(n + 1), SideBySide(n);
    assert all[..|all| - 1] == before + [Progress(0)];
    assert (before + [Progress(0)])[..|before|] == before;
  }

  /** One pair of steps before any commit: both runs move on, and the tables stay. */
  lemma {:induction false} OnePair(db: Db, a: Stage, b: Stage, c: Stage, d: Stage)
    requires !a.Written? && !b.Written?
    requires EachDisabled(db, c, b) == Happen(EachDisabled(db, a, b), Progress(0), false)
    requires EachDisabled(db, c, d) == Happen(EachDisabled(db, c, b), Progress(1), false)
    ensures Happen(Happen(EachDisabled(db, a, b), Progress(0), false), Progress(1), false) == EachDisabled(db, c, d)
  {
  }

  lemma {:induction false} BothSeeTheOther()
    ensures var db := TwoSupers(); var a, b := db.admins[0], db.admins[1];
      && FindByEmail(db.admins, "a@x.id") == Some(a) && FindByEmail(db.admins, "b@x.id") == Some(b)
      && CountOtherActiveSupers(db.admins, 0) == 1 && CountOtherActiveSupers(db.admins, 1) == 1
      && CountActive(db.admins, 0) == 1 && CountActive(db.admins, 1) == 1
  {
    var db := TwoSupers();
    var front := db.admins[..1];
    assert front[..0] == [] && front == [db.admins[0]];
    assert FindByEmail(front, "a@x.id") == Some(db.admins[0]);
    assert CountOtherActiveSupers(front, 0) == 0 && CountOtherActiveSupers(front, 1) == 1;
    assert CountActive(front, 0) == 1 && CountActive(front, 1) == 0;
  }

  function BothWritten(): Sys {
    var db := TwoSupers();
    EachDisabled(db, Written(Deactivate(db.admins[0])), Written(Deactivate(db.admins[1])))
  }

  lemma {:induction false} BothLock()
    ensures RunAll(EachDisabled(TwoSupers(), Started, Started), SideBySide(2), false)
         == EachDisabled(TwoSupers(), Locked, Locked)
  {
    var db := TwoSupers();
    var s := EachDisabled(db, Started, Started);
    OnePairMore(s, 0);
    OnePair(db, Started, Started, Waiting, Waiting);
    OnePairMore(s, 1);
    OnePair(db, Waiting, Waiting, Locked, Locked);
  }

  lemma {:induction false} BothRead()
    ensures RunAll(EachDisabled(TwoSupers(), Started, Started), SideBySide(4), false)
         == EachDisabled(TwoSupers(), ReadTwice(Some(TwoSupers().admins[0])), ReadTwice(Some(TwoSupers().admins[1])))
  {
    var db := TwoSupers();
    var a, b := db.admins[0], db.admins[1];
    var s := EachDisabled(db, Started, Started);
    BothSeeTheOther();
    BothLock();
    OnePairMore(s, 2);
    OnePair(db, Locked, Locked, ReadOnce(Some(a)), ReadOnce(Some(b)));
    OnePairMore(s, 3);
    OnePair(db, ReadOnce(Some(a)), ReadOnce(Some(b)), ReadTwice(Some(a)), ReadTwice(Some(b)));
  }

  lemma {:induction false} BothReachTheirWrites()
    ensures RunAll(EachDisabled(TwoSupers(), Started, Started), SideBySide(5), false) == BothWritten()
  {
    var db := TwoSupers();
    var a, b := db.admins[0], db.admins[1];
    BothSeeTheOther();
    BothRead();
    OnePairMore(EachDisabled(db, Started, Started), 4);
    OnePair(db, ReadTwice(Some(a)), ReadTwice(Some(b)), Written(Deactivate(a)), Written(Deactivate(b)));
  }

  lemma {:induction false} BothCommit()
    ensures !HasActiveSuper(Happen(Happen(BothWritten(), Progress(0), false), Progress(1), false).db)
  {
    var admins := TwoSupers().admins;
    var first := Happen(BothWritten(), Progress(0), false);
    assert first.db.admins == Deactivated(admins, 0) == [admins[0].(isActive := false), admins[1]];
    assert first.procs[1] == BothWritten().procs[1];
    var second := Happen(first, Progress(1), false);
    assert second.db.admins == Deactivated(first.db.admins, 1) == [admins[0].(isActive := false), admins[1].(isActive := false)];
  }

  lemma {:induction false} TwoSupersAreSound()
    ensures Sound(EachDisabled(TwoSupers(), Started, Started)) && HasActiveSuper(TwoSupers())
  {
    assert TwoSupers().admins[0] in TwoSupers().admins;
  }

  /** Why the lock is there: without it, two runs that each disable one of two Super Admins leave none active. */
  lemma {:induction false} WithoutTheLockNoneIsLeft() returns (s: Sys, events: seq<Event>)
    ensures Sound(s) && HasActiveSuper(s.db) && !HasActiveSuper(RunAll(s, events, false).db)
  {
    s, events := EachDisabled(TwoSupers(), Started, Started), SideBySide(6);
    TwoSupersAreSound();
    BothReachTheirWrites();
    OnePairMore(s, 5);
    BothCommit();
  }
}
