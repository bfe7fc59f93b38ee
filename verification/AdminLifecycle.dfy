/**
 * The three programs that change admin accounts, statement by statement: the production bootstrap, the creation of an admin
 * and the disabling of one. Each runs its statements in one transaction, whose first statement waits for one shared lock;
 * what it writes becomes visible when it commits. Any number of runs may be under way at once, and any may crash.
 */
module AdminLifecycle {
  import opened Wrappers

  datatype Admin = Admin(id: nat, email: string, name: string, passwordHash: string, isActive: bool, roles: set<string>)

  datatype AuditAction = CREATE | DEACTIVATE

  datatype AuditRow = AuditRow(action: AuditAction, adminId: nat, email: string)

  /** The committed tables; `next` is an id that no admin has. */
  datatype Db = Db(roles: set<string>, admins: seq<Admin>, audit: seq<AuditRow>, next: nat)

  const SUPER_ADMIN := "SUPER_ADMIN"
  const SYSTEM_ROLES: set<string> := {"SUPER_ADMIN", "ADMIN", "MANAGER", "STAFF", "CUSTOMER"}
  const ASSIGNABLE_ADMIN_ROLES: set<string> := {"ADMIN", "MANAGER", "STAFF"}

  /** What a run was started with: a normalised email and, for a new admin, its name, role and password hash. */
  datatype Job =
    | BootstrapJob(email: string, name: string, passwordHash: string)
    | CreateJob(email: string, name: string, role: string, passwordHash: string)
    | DisableJob(email: string)

  datatype Refusal =
    | ROLE_NOT_ASSIGNABLE
    | ROLE_NOT_FOUND
    | EMAIL_TAKEN
    | SUPER_ADMIN_EXISTS
    | NO_SUCH_ADMIN
    | ALREADY_INACTIVE
    | LAST_SUPER_ADMIN
    | CHANGED_CONCURRENTLY

  datatype Outcome = DoneWell(adminId: nat) | Unchanged(existingId: nat) | Refused(reason: Refusal) | Crashed

  /** A write that has been made but not committed. */
  datatype Write = Insert(admin: Admin, audited: bool) | Deactivate(admin: Admin)

  datatype Stage =
    | Started
    | Waiting
    | Locked
    | ReadOnce(admin: Option<Admin>)
    | ReadTwice(checked: Option<Admin>)
    | Written(write: Write)
    | Ended(outcome: Outcome)

  datatype Proc = Proc(job: Job, stage: Stage)

  /** All runs by number, and which of them has the lock. */
  datatype Sys = Sys(db: Db, procs: map<nat, Proc>, holder: Option<nat>)

  // Queries

  function FindByEmail(admins: seq<Admin>, email: string): Option<Admin> {
    if admins == [] then None
    else if admins[|admins| - 1].email == email then Some(admins[|admins| - 1])
    else FindByEmail(admins[..|admins| - 1], email)
  }

  predicate IsSuper(a: Admin) {
    SUPER_ADMIN in a.roles
  }

  /** The rows that link an admin to SUPER_ADMIN, of active and inactive admins alike. */
  function CountSupers(admins: seq<Admin>): nat {
    if admins == [] then 0
    else CountSupers(admins[..|admins| - 1]) + if IsSuper(admins[|admins| - 1]) then 1 else 0
  }

  function CountOtherActiveSupers(admins: seq<Admin>, id: nat): nat {
    if admins == [] then 0
    else
      var last := admins[|admins| - 1];
      CountOtherActiveSupers(admins[..|admins| - 1], id) + if IsSuper(last) && last.isActive && last.id != id then 1 else 0
  }

  // Updates

  function Deactivated(admins: seq<Admin>, id: nat): (now: seq<Admin>)
    ensures |now| == |admins|
  {
    seq(|admins|, i requires 0 <= i < |admins| => if admins[i].id == id then admins[i].(isActive := false) else admins[i])
  }

  /** How many active admins carry the id: what `updateMany` reports. */
  function CountActive(admins: seq<Admin>, id: nat): nat {
    if admins == [] then 0
    else
      var last := admins[|admins| - 1];
      CountActive(admins[..|admins| - 1], id) + if last.id == id && last.isActive then 1 else 0
  }

  function Commit(db: Db, write: Write): Db {
    match write
    case Insert(admin, audited) =>
      db.(admins := db.admins + [admin],
          audit := db.audit + if audited then [AuditRow(CREATE, admin.id, admin.email)] else [],
          next := db.next + 1)
    case Deactivate(admin) =>
      db.(admins := Deactivated(db.admins, admin.id), audit := db.audit + [AuditRow(DEACTIVATE, admin.id, admin.email)])
  }

  // One statement of each program

  /** The statement that follows the lock: the first query and the refusals it leads to. */
  function FirstQuery(db: Db, job: Job): Stage {
    match job
    case BootstrapJob(email, _, _) =>
      var existing := FindByEmail(db.admins, email);
      if existing.Some? then Ended(Unchanged(existing.value.id)) else ReadOnce(None)
    case CreateJob(_, _, role, _) =>
      if role !in db.roles then Ended(Refused(ROLE_NOT_FOUND)) else ReadOnce(None)
    case DisableJob(email) =>
      var admin := FindByEmail(db.admins, email);
      if admin.None? then Ended(Refused(NO_SUCH_ADMIN))
      else if !admin.value.isActive then Ended(Refused(ALREADY_INACTIVE))
      else ReadOnce(admin)
  }

  /** The second query. Disabling an admin without SUPER_ADMIN makes none. */
  function SecondQuery(db: Db, job: Job, admin: Option<Admin>): Stage {
    match job
    case BootstrapJob(_, _, _) =>
      if CountSupers(db.admins) > 0 then Ended(Refused(SUPER_ADMIN_EXISTS)) else ReadTwice(None)
    case CreateJob(email, _, _, _) =>
      if FindByEmail(db.admins, email).Some? then Ended(Refused(EMAIL_TAKEN)) else ReadTwice(None)
    case DisableJob(_) =>
      if admin.Some? && IsSuper(admin.value) && CountOtherActiveSupers(db.admins, admin.value.id) == 0
      then Ended(Refused(LAST_SUPER_ADMIN))
      else ReadTwice(admin)
  }

  function WriteStatement(db: Db, job: Job, admin: Option<Admin>): Stage {
    match job
    case BootstrapJob(email, name, hash) => Written(Insert(Admin(db.next, email, name, hash, true, {SUPER_ADMIN}), false))
    case CreateJob(email, name, role, hash) => Written(Insert(Admin(db.next, email, name, hash, true, {role}), true))
    case DisableJob(_) =>
      if admin.Some? && CountActive(db.admins, admin.value.id) == 1 then Written(Deactivate(admin.value))
      else Ended(Refused(CHANGED_CONCURRENTLY))
  }

  function IdOf(write: Write): nat {
    write.admin.id
  }

  // Events

  /** A run starts, makes its next step, or dies. Without `locking` the lock statement does not wait. */
  datatype Event = Start(pid: nat, job: Job) | Progress(pid: nat) | Crash(pid: nat)

  predicate InTransaction(stage: Stage) {
    stage.Locked? || stage.ReadOnce? || stage.ReadTwice? || stage.Written?
  }

  /** The run at `pid` moved to a stage, giving the lock back where the stage ends its transaction. */
  function Moved(s: Sys, pid: nat, stage: Stage): Sys
    requires pid in s.procs
  {
    s.(procs := s.procs[pid := s.procs[pid].(stage := stage)],
       holder := if s.holder == Some(pid) && !InTransaction(stage) then None else s.holder)
  }

  function Advance(s: Sys, pid: nat, locking: bool): Sys
    requires pid in s.procs
  {
    var proc := s.procs[pid];
    match proc.stage
    case Started =>
      if proc.job.CreateJob? && proc.job.role !in ASSIGNABLE_ADMIN_ROLES then Moved(s, pid, Ended(Refused(ROLE_NOT_ASSIGNABLE)))
      else if proc.job.BootstrapJob? then Moved(s.(db := s.db.(roles := s.db.roles + SYSTEM_ROLES)), pid, Waiting)
      else Moved(s, pid, Waiting)
    case Waiting =>
      if !locking then Moved(s, pid, Locked)
      else if s.holder.Some? then s
      else Moved(s.(holder := Some(pid)), pid, Locked)
    case Locked => Moved(s, pid, FirstQuery(s.db, proc.job))
    case ReadOnce(admin) => Moved(s, pid, SecondQuery(s.db, proc.job, admin))
    case ReadTwice(admin) => Moved(s, pid, WriteStatement(s.db, proc.job, admin))
    case Written(write) => Moved(s.(db := Commit(s.db, write)), pid, Ended(DoneWell(IdOf(write))))
    case Ended(_) => s
  }

  function Happen(s: Sys, e: Event, locking: bool): Sys {
    match e
    case Start(pid, job) => if pid in s.procs then s else s.(procs := s.procs[pid := Proc(job, Started)])
    case Progress(pid) => if pid !in s.procs then s else Advance(s, pid, locking)
    case Crash(pid) =>
      if pid !in s.procs || s.procs[pid].stage.Ended? then s else Moved(s, pid, Ended(Crashed))
  }

  function RunAll(s: Sys, events: seq<Event>, locking: bool): Sys {
    if events == [] then s else Happen(RunAll(s, events[..|events| - 1], locking), events[|events| - 1], locking)
  }
}
