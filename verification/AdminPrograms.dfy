/**
 * The three admin programs as written, each from its first statement to its last, and what one undisturbed run does. The
 * methods state the whole effect of a run on the tables and its outcome; a lemma shows that the step machine, run without
 * interruption while the lock is free, ends with that same effect.
 */
module AdminPrograms {
  import opened Wrappers
  import opened AdminLifecycle

  /** The tables and the outcome that one undisturbed run leaves. */
  function Effect(db: Db, job: Job): (Db, Outcome) {
    match job
    case BootstrapJob(email, name, hash) =>
      var synced := db.(roles := db.roles + SYSTEM_ROLES);
      var existing := FindByEmail(db.admins, email);
      if existing.Some? then (synced, Unchanged(existing.value.id))
      else if CountSupers(db.admins) > 0 then (synced, Refused(SUPER_ADMIN_EXISTS))
      else (Commit(synced, Insert(Admin(db.next, email, name, hash, true, {SUPER_ADMIN}), false)), DoneWell(db.next))
    case CreateJob(email, name, role, hash) =>
      if role !in ASSIGNABLE_ADMIN_ROLES then (db, Refused(ROLE_NOT_ASSIGNABLE))
      else if role !in db.roles then (db, Refused(ROLE_NOT_FOUND))
      else if FindByEmail(db.admins, email).Some? then (db, Refused(EMAIL_TAKEN))
      else (Commit(db, Insert(Admin(db.next, email, name, hash, true, {role}), true)), DoneWell(db.next))
    case DisableJob(email) =>
      var admin := FindByEmail(db.admins, email);
      if admin.None? then (db, Refused(NO_SUCH_ADMIN))
      else if !admin.value.isActive then (db, Refused(ALREADY_INACTIVE))
      else if IsSuper(admin.value) && CountOtherActiveSupers(db.admins, admin.value.id) == 0 then (db, Refused(LAST_SUPER_ADMIN))
      else if CountActive(db.admins, admin.value.id) != 1 then (db, Refused(CHANGED_CONCURRENTLY))
      else (Commit(db, Deactivate(admin.value)), DoneWell(admin.value.id))
  }

  function StepsOf(pid: nat, n: nat): seq<Event> {
    seq(n, i => Progress(pid))
  }

  lemma {:induction false} OneStepMore(s: Sys, pid: nat, n: nat)
    requires pid in s.procs
    ensures RunAll(s, StepsOf(pid, n + 1), true) == Happen(RunAll(s, StepsOf(pid, n), true), Progress(pid), true)
  {
    assert StepsOf(pid, n + 1)[..n] == StepsOf(pid, n);
  }

  function After(s: Sys, pid: nat, db: Db, stage: Stage, holder: Option<nat>): Sys
    requires pid in s.procs
  {
    Sys(db, s.procs[pid := s.procs[pid].(stage := stage)], holder)
  }

  lemma {:induction false} EndedStays(s: Sys, pid: nat, n: nat, m: nat)
    requires pid in s.procs && n <= m
    requires var r := RunAll(s, StepsOf(pid, n), true); pid in r.procs && r.procs[pid].stage.Ended?
    ensures RunAll(s, StepsOf(pid, m), true) == RunAll(s, StepsOf(pid, n), true)
    decreases m
  {
    if n < m {
      EndedStays(s, pid, n, m - 1);
      OneStepMore(s, pid, m - 1);
      EndedRuns(RunAll(s, StepsOf(pid, n), true), pid);
    }
  }

  lemma {:induction false} EndedRuns(s: Sys, pid: nat)
    requires pid in s.procs && s.procs[pid].stage.Ended?
    ensures Happen(s, Progress(pid), true) == s
  {
  }

  /** The stages up to the first query. */
  lemma {:induction false} ReachesTheQuery(s: Sys, pid: nat, roles: set<string>)
    requires pid in s.procs && s.procs[pid].stage == Started && s.holder.None?
    requires !(s.procs[pid].job.CreateJob? && s.procs[pid].job.role !in ASSIGNABLE_ADMIN_ROLES)
    requires roles == s.db.roles + if s.procs[pid].job.BootstrapJob? then SYSTEM_ROLES else {}
    ensures RunAll(s, StepsOf(pid, 2), true) == After(s, pid, s.db.(roles := roles), Locked, Some(pid))
  {
    assert StepsOf(pid, 0) == [];
    OneStepMore(s, pid, 0);
    OneStepMore(s, pid, 1);
    assert RunAll(s, StepsOf(pid, 1), true) == After(s, pid, s.db.(roles := roles), Waiting, None);
  }

  /** A run whose every step goes undisturbed, the lock being free, has exactly its effect. */
  lemma {:induction false} AloneHasItsEffect(s: Sys, pid: nat)
    requires pid in s.procs && s.procs[pid].stage == Started && s.holder.None?
    ensures RunAll(s, StepsOf(pid, 6), true)
         == After(s, pid, Effect(s.db, s.procs[pid].job).0, Ended(Effect(s.db, s.procs[pid].job).1), None)
  {
    var job := s.procs[pid].job;
    if job.CreateJob? && job.role !in ASSIGNABLE_ADMIN_ROLES {
      assert StepsOf(pid, 0) == [];
      OneStepMore(s, pid, 0);
      EndedStays(s, pid, 1, 6);
    } else {
      var roles := s.db.roles + if job.BootstrapJob? then SYSTEM_ROLES else {};
      ReachesTheQuery(s, pid, roles);
      FromTheQuery(s, pid, s.db.(roles := roles));
      assert !job.BootstrapJob? ==> s.db.(roles := roles) == s.db;
    }
  }

  lemma {:induction false} FromTheQuery(s: Sys, pid: nat, db: Db)
    requires pid in s.procs && !(s.procs[pid].job.CreateJob? && s.procs[pid].job.role !in ASSIGNABLE_ADMIN_ROLES)
    requires RunAll(s, StepsOf(pid, 2), true) == After(s, pid, db, Locked, Some(pid))
    requires s.procs[pid].job.BootstrapJob? ==> SYSTEM_ROLES <= db.roles
    ensures RunAll(s, StepsOf(pid, 6), true)
         == After(s, pid, Effect(db, s.procs[pid].job).0, Ended(Effect(db, s.procs[pid].job).1), None)
  {
    var job := s.procs[pid].job;
    assert job.BootstrapJob? ==> db.(roles := db.roles + SYSTEM_ROLES) == db;
    OneStepMore(s, pid, 2);
    var first := FirstQuery(db, job);
    if first.Ended? {
      EndedStays(s, pid, 3, 6);
    } else {
      assert RunAll(s, StepsOf(pid, 3), true) == After(s, pid, db, first, Some(pid));
      FromTheSecondQuery(s, pid, db);
    }
  }

  lemma {:induction false} FromTheSecondQuery(s: Sys, pid: nat, db: Db)
    requires pid in s.procs && FirstQuery(db, s.procs[pid].job).ReadOnce?
    requires RunAll(s, StepsOf(pid, 3), true) == After(s, pid, db, FirstQuery(db, s.procs[pid].job), Some(pid))
    requires !(s.procs[pid].job.CreateJob? && s.procs[pid].job.role !in ASSIGNABLE_ADMIN_ROLES)
    requires s.procs[pid].job.BootstrapJob? ==> db.(roles := db.roles + SYSTEM_ROLES) == db
    ensures RunAll(s, StepsOf(pid, 6), true)
         == After(s, pid, Effect(db, s.procs[pid].job).0, Ended(Effect(db, s.procs[pid].job).1), None)
  {
    var job := s.procs[pid].job;
    var second := SecondQuery(db, job, FirstQuery(db, job).admin);
    OneStepMore(s, pid, 3);
    if second.Ended? {
      EndedStays(s, pid, 4, 6);
      assert Effect(db, job) == (db, second.outcome);
    } else {
      assert RunAll(s, StepsOf(pid, 4), true) == After(s, pid, db, second, Some(pid));
      FromTheWrite(s, pid, db, second);
      EffectOfTheWrite(db, job, WriteStatement(db, job, second.checked));
    }
  }

  /** The write and the commit. */
  lemma {:induction false} FromTheWrite(s: Sys, pid: nat, db: Db, second: Stage)
    requires pid in s.procs && second.ReadTwice?
    requires RunAll(s, StepsOf(pid, 4), true) == After(s, pid, db, second, Some(pid))
    ensures var third := WriteStatement(db, s.procs[pid].job, second.checked);
      RunAll(s, StepsOf(pid, 6), true)
      == (if third.Ended? then After(s, pid, db, third, None)
          else After(s, pid, Commit(db, third.write), Ended(DoneWell(IdOf(third.write))), None))
  {
    var third := WriteStatement(db, s.procs[pid].job, second.checked);
    if third.Ended? {
      OneStepMore(s, pid, 4);
      EndedStays(s, pid, 5, 6);
    } else {
      AtTheWrite(s, pid, db, second);
      OneStepMore(s, pid, 5);
    }
  }

  lemma {:induction false} AtTheWrite(s: Sys, pid: nat, db: Db, second: Stage)
    requires pid in s.procs && second.ReadTwice?
    requires RunAll(s, StepsOf(pid, 4), true) == After(s, pid, db, second, Some(pid))
    requires !WriteStatement(db, s.procs[pid].job, second.checked).Ended?
    ensures RunAll(s, StepsOf(pid, 5), true)
         == After(s, pid, db, WriteStatement(db, s.procs[pid].job, second.checked), Some(pid))
  {
    OneStepMore(s, pid, 4);
  }

  lemma {:induction false} EffectOfTheWrite(db: Db, job: Job, third: Stage)
    requires FirstQuery(db, job).ReadOnce? && SecondQuery(db, job, FirstQuery(db, job).admin).ReadTwice?
    requires third == WriteStatement(db, job, SecondQuery(db, job, FirstQuery(db, job).admin).checked)
    requires !(job.CreateJob? && job.role !in ASSIGNABLE_ADMIN_ROLES)
    requires job.BootstrapJob? ==> db.(roles := db.roles + SYSTEM_ROLES) == db
    ensures Effect(db, job)
         == if third.Ended? then (db, third.outcome) else (Commit(db, third.write), DoneWell(IdOf(third.write)))
  {
  }

  class AdminStore {
    var roles: set<string>
    var admins: seq<Admin>
    var audit: seq<AuditRow>
    var next: nat

    function View(): Db
      reads this
    {
      Db(roles, admins, audit, next)
    }

    method InsertAdmin(email: string, name: string, hash: string, role: string) returns (admin: Admin)
      modifies `admins, `next
      ensures admin == Admin(old(next), email, name, hash, true, {role})
      ensures admins == old(admins) + [admin] && next == old(next) + 1
    {
      admin := Admin(next, email, name, hash, true, {role});
      admins, next := admins + [admin], next + 1;
    }

    /** `updateMany` on the active admin with this id: every matching row is turned off and counted. */
    method TurnOff(id: nat) returns (count: nat)
      modifies `admins
      ensures admins == Deactivated(old(admins), id) && count == CountActive(old(admins), id)
    {
      count := 0;
      var rows := admins;
      for i := 0 to |rows|
        invariant |admins| == |rows| && count == CountActive(rows[..i], id)
        invariant forall k | 0 <= k < |rows| :: admins[k] == if k < i then Deactivated(rows, id)[k] else rows[k]
      {
        assert rows[..i + 1][..i] == rows[..i];
        if rows[i].id == id {
          if rows[i].isActive {
            count := count + 1;
          }
          admins := admins[i := rows[i].(isActive := false)];
        }
      }
      assert rows[..|rows|] == rows;
    }

    method BootstrapProduction(email: string, name: string, hash: string) returns (outcome: Outcome)
      modifies this
      ensures (View(), outcome) == Effect(old(View()), BootstrapJob(email, name, hash))
    {
      roles := roles + SYSTEM_ROLES;
      var existing := FindByEmail(admins, email);
      if existing.Some? {
        return Unchanged(existing.value.id);
      }
      if CountSupers(admins) > 0 {
        return Refused(SUPER_ADMIN_EXISTS);
      }
      assert audit == audit + [];
      var admin := InsertAdmin(email, name, hash, SUPER_ADMIN);
      return DoneWell(admin.id);
    }

    method CreateAdmin(email: string, name: string, role: string, hash: string) returns (outcome: Outcome)
      modifies this
      ensures (View(), outcome) == Effect(old(View()), CreateJob(email, name, role, hash))
    {
      if role !in ASSIGNABLE_ADMIN_ROLES {
        return Refused(ROLE_NOT_ASSIGNABLE);
      }
      if role !in roles {
        return Refused(ROLE_NOT_FOUND);
      }
      if FindByEmail(admins, email).Some? {
        return Refused(EMAIL_TAKEN);
      }
      var admin := InsertAdmin(email, name, hash, role);
      audit := audit + [AuditRow(CREATE, admin.id, admin.email)];
      return DoneWell(admin.id);
    }

    /** A refusal after the update rolls the update back. */
    method DisableAdmin(email: string) returns (outcome: Outcome)
      modifies this
      ensures (View(), outcome) == Effect(old(View()), DisableJob(email))
    {
      var found := FindByEmail(admins, email);
      if found.None? {
        return Refused(NO_SUCH_ADMIN);
      }
      var admin := found.value;
      if !admin.isActive {
        return Refused(ALREADY_INACTIVE);
      }
      if IsSuper(admin) && CountOtherActiveSupers(admins, admin.id) == 0 {
        return Refused(LAST_SUPER_ADMIN);
      }
      var before := admins;
      var count := TurnOff(admin.id);
      if count != 1 {
        admins := before;
        return Refused(CHANGED_CONCURRENTLY);
      }
      audit := audit + [AuditRow(DEACTIVATE, admin.id, admin.email)];
      return DoneWell(admin.id);
    }
  }
}
