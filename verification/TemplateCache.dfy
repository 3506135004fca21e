/** The postgres template cache as a state machine
    (CreateDB, createDatabaseFromMigrations and the template part of Start in
    internal/database/postgres/pg.go).

    A server is a map from database name to content. Every statement a request sends is one
    atomic step on that map, requests interleave without any bound, any step may fail, and a
    step that took effect may still be reported as failed. */
module TemplateCache {
  import opened Prelude
  import opened Identifiers

  /** The content of one database. */
  type Db(!new)

  /** A migration or fixture file: its path relative to its directory, and its text. */
  datatype File = File(name: string, content: string)

  /** What is fixed for one running instance.
      exec is the effect of running one file in one transaction: a new content, or an error
      that is rolled back. initial is the content of the maintenance database when the
      container comes up, boot what Start was asked to apply to it. */
  datatype Env = Env(
    empty: Db,
    initial: Db,
    exec: (Db, string) -> Option<Db>,
    digest: string -> Digest,
    maintenance: string,
    boot: Job)

  datatype Kind = Plain | FromDefault | FromMigrations | Boot

  datatype Job = Job(kind: Kind, migrations: seq<File>, fixtures: seq<File>)

  /** Where a request stands. Migrate(n) with all n files applied is the point right before the
      snapshot, Fixture(n) with all n files applied the point right before the answer. */
  datatype Phase = Begin | Create | Migrate(done: nat) | Fixture(done: nat)

  datatype Status = Active | Failed | Live | Gone

  /** handed is the content its database had when its uri was released. */
  datatype Request = Request(job: Job, db: string, phase: Phase, status: Status, handed: Option<Db>)

  datatype State = State(dbs: map<string, Db>, requests: map<nat, Request>)

  /** LostReply: the statement took effect but its answer never arrived. */
  datatype Fault = NoFault | Refused | LostReply

  datatype Event =
    | Arrive(id: nat, job: Job, nanos: int)
    | Step(id: nat, fault: Fault)
    | Write(id: nat, content: Db)
    | Drop(name: string)

  /** The bytes templateName feeds to its digest. */
  function Stream(files: seq<File>): string {
    if files == [] then "" else Stream(files[..|files| - 1]) + files[|files| - 1].name + files[|files| - 1].content
  }

  function TemplateOf(env: Env, files: seq<File>): string {
    HashedTemplate(env.digest(Stream(files)))
  }

  /** Running every file in order, one transaction each. */
  function RunFiles(env: Env, db: Db, files: seq<File>): Option<Db> {
    if files == [] then Some(db)
    else match RunFiles(env, db, files[..|files| - 1])
      case None => None
      case Some(before) => env.exec(before, files[|files| - 1].content)
  }

  function StartContent(env: Env, job: Job): Db {
    if job.kind.Boot? then env.initial else env.empty
  }

  function Template(env: Env, job: Job): string {
    if job.kind.FromMigrations? then TemplateOf(env, job.migrations) else DEFAULT_TEMPLATE
  }

  /** The schema a request asked for, were there no cache at all. */
  function Schema(env: Env, job: Job): Option<Db> {
    match job.kind
    case Plain => Some(env.empty)
    case FromDefault => RunFiles(env, env.initial, env.boot.migrations)
    case FromMigrations => RunFiles(env, env.empty, job.migrations)
    case Boot => RunFiles(env, env.initial, job.migrations)
  }

  /** What the database handed out for a job has to hold. */
  function Expected(env: Env, job: Job): Option<Db> {
    match Schema(env, job)
    case None => None
    case Some(schema) => RunFiles(env, schema, job.fixtures)
  }

  /** Start loads fixtures only when it also has migrations. */
  predicate SkipsFixtures(job: Job) {
    job.kind.Boot? && job.migrations == []
  }

  /** Fixtures that are skipped would have made no difference. */
  ghost predicate StartServes(env: Env) {
    env.boot.migrations != [] || RunFiles(env, env.initial, env.boot.fixtures) == Some(env.initial)
  }

  function FirstPhase(job: Job): Phase {
    if job.kind.FromDefault? || (job.kind.FromMigrations? && job.migrations != []) then Begin else Create
  }

  function AfterCreate(job: Job): Phase {
    if job.kind.FromMigrations? && job.migrations != [] then Migrate(0) else Fixture(0)
  }

  function Fail(r: Request): Request {
    r.(status := Failed)
  }

  /** Moves on after a statement that took effect. */
  function Advance(r: Request, phase: Phase, fault: Fault): Request {
    if fault.LostReply? then r.(phase := phase, status := Failed) else r.(phase := phase)
  }

  /** Runs one file in one transaction. */
  function StepFile(env: Env, dbs: map<string, Db>, r: Request, file: File, next: Phase, fault: Fault)
    : (map<string, Db>, Request)
  {
    if r.db !in dbs then (dbs, Fail(r))
    else match env.exec(dbs[r.db], file.content)
      case None => (dbs, Fail(r))
      case Some(db) => (dbs[r.db := db], Advance(r, next, fault))
  }

  /** create database name with template source */
  function StepClone(env: Env, dbs: map<string, Db>, r: Request, fault: Fault): (map<string, Db>, Request) {
    var t := Template(env, r.job);
    if t !in dbs then
      if r.job.kind.FromMigrations? && fault.NoFault? then (dbs, r.(phase := Create)) else (dbs, Fail(r))
    else if r.db in dbs then (dbs, Fail(r))
    else (dbs[r.db := dbs[t]], Advance(r, Fixture(0), fault))
  }

  /** Saves the migrated database as a template. Whatever goes wrong is only logged. */
  function StepSnapshot(env: Env, dbs: map<string, Db>, r: Request, fault: Fault): (map<string, Db>, Request) {
    var t := Template(env, r.job);
    var r' := r.(phase := Fixture(0));
    if fault.Refused? || t in dbs || r.db !in dbs then (dbs, r') else (dbs[t := dbs[r.db]], r')
  }

  function StepRequest(env: Env, dbs: map<string, Db>, r: Request, fault: Fault): (map<string, Db>, Request) {
    if r.phase.Migrate? && r.phase.done >= |r.job.migrations| then StepSnapshot(env, dbs, r, fault)
    else if fault.Refused? then (dbs, Fail(r))
    else match r.phase
      case Begin => StepClone(env, dbs, r, fault)
      case Create =>
        if r.db in dbs then (dbs, Fail(r))
        else (dbs[r.db := env.empty], Advance(r, AfterCreate(r.job), fault))
      case Migrate(k) => StepFile(env, dbs, r, r.job.migrations[k], Migrate(k + 1), fault)
      case Fixture(j) =>
        if j < |r.job.fixtures| then StepFile(env, dbs, r, r.job.fixtures[j], Fixture(j + 1), fault)
        else if fault.LostReply? then (dbs, Fail(r))
        else (dbs, r.(status := Live, handed := if r.db in dbs then Some(dbs[r.db]) else None))
  }

  /** The request's own create statement went through and its database was not dropped since. */
  predicate Owns(r: Request) {
    !r.status.Gone? && (r.phase.Migrate? || r.phase.Fixture?)
  }

  /** Nobody knows the name of a database before its uri is released. */
  predicate MayDrop(s: State, name: string) {
    forall id :: id in s.requests ==> !(s.requests[id].status.Active? && Owns(s.requests[id]) && s.requests[id].db == name)
  }

  function Dropped(s: State, name: string): State {
    State(s.dbs - {name},
          map id | id in s.requests ::
            if Owns(s.requests[id]) && s.requests[id].db == name then s.requests[id].(status := Gone)
            else s.requests[id])
  }

  /** One event. An event that is not possible in a state leaves it as it is. */
  function Apply(env: Env, s: State, e: Event): State {
    match e
    case Arrive(id, job, nanos) =>
      if id in s.requests || job.kind.Boot? then s
      else s.(requests := s.requests[id := Request(job, GeneratedName(nanos), FirstPhase(job), Active, None)])
    case Step(id, fault) =>
      if id !in s.requests || !s.requests[id].status.Active? then s
      else
        var (dbs, r) := StepRequest(env, s.dbs, s.requests[id], fault);
        State(dbs, s.requests[id := r])
    case Write(id, content) =>
      if id in s.requests && s.requests[id].status.Live? then s.(dbs := s.dbs[s.requests[id].db := content]) else s
    case Drop(name) =>
      if MayDrop(s, name) then Dropped(s, name) else s
  }

  const BOOT: nat := 0

  /** A fresh container: the maintenance database, with Start about to migrate it. */
  function Init(env: Env): State {
    var r := Request(env.boot, env.maintenance, Migrate(0), Active, None);
    var r' := if env.boot.migrations == [] then r.(phase := Fixture(0), status := Live, handed := Some(env.initial)) else r;
    State(map[env.maintenance := env.initial], map[BOOT := r'])
  }

  function RunFrom(env: Env, s: State, events: seq<Event>): State {
    if events == [] then s else Apply(env, RunFrom(env, s, events[..|events| - 1]), events[|events| - 1])
  }

  /** Every state of every run is Run(env, events) for some events. */
  function Run(env: Env, events: seq<Event>): State {
    RunFrom(env, Init(env), events)
  }

  predicate ValidEnv(env: Env) {
    env.boot.kind.Boot? && !IsTemplate(env.maintenance)
  }

  lemma RunSnoc(env: Env, events: seq<Event>, e: Event)
    ensures Run(env, events + [e]) == Apply(env, Run(env, events), e)
  {
    assert (events + [e])[..|events|] == events;
  }

  /** Every request of the run sends one of the given migration lists. */
  ghost predicate ArrivalsIn(lists: iset<seq<File>>, events: seq<Event>) {
    forall i :: 0 <= i < |events| && events[i].Arrive? && events[i].job.kind.FromMigrations? ==>
      events[i].job.migrations in lists
  }

  /** A migration list is one of the given ones, or uses none of their template names. */
  ghost predicate Separate(env: Env, lists: iset<seq<File>>, files: seq<File>) {
    files == [] || files in lists || forall other :: other in lists && other != [] ==> TemplateOf(env, other) != TemplateOf(env, files)
  }

  /** Nobody else uses the template names of the given lists. */
  ghost predicate Confined(env: Env, lists: iset<seq<File>>, events: seq<Event>) {
    forall i :: 0 <= i < |events| && events[i].Arrive? && events[i].job.kind.FromMigrations? ==>
      Separate(env, lists, events[i].job.migrations)
  }

  /** Jobs that are not about templates outside the given lists. */
  ghost predicate Covered(lists: iset<seq<File>>, job: Job) {
    job.kind.FromMigrations? && job.migrations != [] ==> job.migrations in lists
  }

  /** Lists that share a template name have the same effect. */
  ghost predicate Coherent(env: Env, lists: iset<seq<File>>) {
    forall a, b ::
      a in lists && b in lists && a != [] && b != [] && TemplateOf(env, a) == TemplateOf(env, b) ==>
        RunFiles(env, env.empty, a) == RunFiles(env, env.empty, b)
  }

  /** The cache agrees with running everything from scratch: what is handed out, and what is
      stored as a template. */
  ghost predicate Agrees(env: Env, lists: iset<seq<File>>, s: State) {
    && TemplatesComplete(env, lists, s.dbs)
    && forall id :: id in s.requests && s.requests[id].handed.Some? && Covered(lists, s.requests[id].job) && !SkipsFixtures(s.requests[id].job) ==>
        s.requests[id].handed == Expected(env, s.requests[id].job)
  }

  ghost predicate TemplatesComplete(env: Env, lists: iset<seq<File>>, dbs: map<string, Db>) {
    && (DEFAULT_TEMPLATE in dbs ==> RunFiles(env, env.initial, env.boot.migrations) == Some(dbs[DEFAULT_TEMPLATE]))
    && forall files :: files in lists && files != [] && TemplateOf(env, files) in dbs ==>
        RunFiles(env, env.empty, files) == Some(dbs[TemplateOf(env, files)])
  }
}
