/** What every step of the template cache keeps, and what follows for whole runs. */
module TemplateCacheSafety {
  import opened Prelude
  import opened Identifiers
  import opened TemplateCache

  predicate PhaseFits(job: Job, phase: Phase) {
    match phase
    case Begin => job.kind.FromDefault? || (job.kind.FromMigrations? && job.migrations != [])
    case Create => job.kind.Plain? || job.kind.FromMigrations?
    case Migrate(k) => k <= |job.migrations| && job.migrations != [] && (job.kind.FromMigrations? || job.kind.Boot?)
    case Fixture(j) => j <= |job.fixtures|
  }

  /** The files applied so far, and nothing else, make up the database. */
  ghost predicate HoldsPrefix(env: Env, job: Job, phase: Phase, db: Db) {
    match phase
    case Begin => true
    case Create => true
    case Migrate(k) => k <= |job.migrations| && RunFiles(env, StartContent(env, job), job.migrations[..k]) == Some(db)
    case Fixture(j) =>
      && j <= |job.fixtures|
      && (job.kind.Boot? ==> job.migrations != [])
      && Schema(env, job).Some?
      && RunFiles(env, Schema(env, job).value, job.fixtures[..j]) == Some(db)
  }

  /** What a database holds can be told for covered jobs, and for any job before its snapshot. */
  ghost predicate ContentOk(env: Env, lists: iset<seq<File>>, dbs: map<string, Db>, r: Request) {
    && (Owns(r) && !r.status.Live? && r.db in dbs && (Covered(lists, r.job) || r.phase.Migrate?) ==>
        HoldsPrefix(env, r.job, r.phase, dbs[r.db]))
    && (r.handed.Some? && SkipsFixtures(r.job) ==> r.handed == Some(env.initial))
    && (r.handed.Some? && Covered(lists, r.job) && !SkipsFixtures(r.job) ==> r.handed == Expected(env, r.job))
  }

  ghost predicate RequestOk(env: Env, lists: iset<seq<File>>, dbs: map<string, Db>, r: Request) {
    && !IsTemplate(r.db)
    && (r.job.kind.FromMigrations? ==> Separate(env, lists, r.job.migrations))
    && (r.job.kind.Boot? ==> r.job == env.boot)
    && PhaseFits(r.job, r.phase)
    && (Owns(r) ==> r.db in dbs)
    && (r.status.Live? ==> Owns(r) && r.handed.Some?)
    && ContentOk(env, lists, dbs, r)
  }

  ghost predicate SoleOwners(s: State) {
    forall i, j :: i in s.requests && j in s.requests && i != j && Owns(s.requests[i]) && Owns(s.requests[j]) ==>
      s.requests[i].db != s.requests[j].db
  }

  ghost predicate Inv(env: Env, lists: iset<seq<File>>, s: State) {
    && TemplatesComplete(env, lists, s.dbs)
    && (forall id :: id in s.requests ==> RequestOk(env, lists, s.dbs, s.requests[id]))
    && SoleOwners(s)
  }

  lemma RunFilesNext(env: Env, db: Db, files: seq<File>, k: nat)
    requires k < |files|
    ensures RunFiles(env, db, files[..k + 1]) ==
      match RunFiles(env, db, files[..k]) { case None => None case Some(d) => env.exec(d, files[k].content) }
  {
    assert files[..k + 1][..k] == files[..k];
  }

  /** A step writes its own database and may add a template; it never changes or removes
      anything else, and it takes a name only while that name is free. */
  lemma StepFrame(env: Env, dbs: map<string, Db>, r: Request, fault: Fault)
    requires !IsTemplate(r.db) && r.status.Active?
    ensures
      var (dbs', r') := StepRequest(env, dbs, r, fault);
      && r'.job == r.job && r'.db == r.db
      && (forall n :: n in dbs && n != r.db ==> n in dbs' && dbs'[n] == dbs[n])
      && (forall n :: n in dbs' && n !in dbs ==> n == r.db || n == Template(env, r.job))
      && (Owns(r') && !Owns(r) ==> r.db !in dbs)
      && (!Owns(r) && !Owns(r') ==> dbs' == dbs)
  {
  }

  lemma StepKeepsMigrating(env: Env, lists: iset<seq<File>>, dbs: map<string, Db>, r: Request, fault: Fault)
    requires RequestOk(env, lists, dbs, r) && r.status.Active?
    requires r.phase.Migrate? && r.phase.done < |r.job.migrations|
    ensures
      var (dbs', r') := StepRequest(env, dbs, r, fault);
      RequestOk(env, lists, dbs', r')
  {
    RunFilesNext(env, StartContent(env, r.job), r.job.migrations, r.phase.done);
  }

  lemma StepKeepsFixtures(env: Env, lists: iset<seq<File>>, dbs: map<string, Db>, r: Request, fault: Fault)
    requires RequestOk(env, lists, dbs, r) && r.status.Active? && r.phase.Fixture?
    ensures
      var (dbs', r') := StepRequest(env, dbs, r, fault);
      RequestOk(env, lists, dbs', r')
  {
    if !Covered(lists, r.job) {
    } else if r.phase.done < |r.job.fixtures| {
      RunFilesNext(env, Schema(env, r.job).value, r.job.fixtures, r.phase.done);
    } else {
      assert r.job.fixtures[..r.phase.done] == r.job.fixtures;
    }
  }

  lemma StepKeepsRequest(env: Env, lists: iset<seq<File>>, dbs: map<string, Db>, r: Request, fault: Fault)
    requires TemplatesComplete(env, lists, dbs) && RequestOk(env, lists, dbs, r) && r.status.Active?
    ensures
      var (dbs', r') := StepRequest(env, dbs, r, fault);
      RequestOk(env, lists, dbs', r')
  {
    match r.phase
    case Begin =>
    case Create =>
    case Migrate(k) =>
      if k < |r.job.migrations| {
        StepKeepsMigrating(env, lists, dbs, r, fault);
      } else {
        assert r.job.migrations[..k] == r.job.migrations;
      }
    case Fixture(j) =>
      StepKeepsFixtures(env, lists, dbs, r, fault);
  }

  lemma StepKeepsTemplates(env: Env, lists: iset<seq<File>>, dbs: map<string, Db>, r: Request, fault: Fault)
    requires Coherent(env, lists)
    requires TemplatesComplete(env, lists, dbs) && RequestOk(env, lists, dbs, r) && r.status.Active?
    ensures TemplatesComplete(env, lists, StepRequest(env, dbs, r, fault).0)
  {
    var dbs' := StepRequest(env, dbs, r, fault).0;
    StepFrame(env, dbs, r, fault);
    forall files | files in lists && files != [] && TemplateOf(env, files) in dbs'
      ensures RunFiles(env, env.empty, files) == Some(dbs'[TemplateOf(env, files)])
    {
      assert IsTemplate(TemplateOf(env, files));
      if TemplateOf(env, files) !in dbs {
        assert r.job.migrations[..|r.job.migrations|] == r.job.migrations;
        TemplateIsNotDefault(env, files);
      }
    }
    if DEFAULT_TEMPLATE in dbs' && DEFAULT_TEMPLATE !in dbs {
      assert r.job.migrations[..|r.job.migrations|] == r.job.migrations;
      if r.job.kind.FromMigrations? { TemplateIsNotDefault(env, r.job.migrations); }
    }
  }

  lemma TemplateIsNotDefault(env: Env, files: seq<File>)
    ensures TemplateOf(env, files) != DEFAULT_TEMPLATE
  {
    NameSpaces(0, 0, env.digest(Stream(files)), env.digest(Stream(files)));
  }

  lemma StepKeeps(env: Env, lists: iset<seq<File>>, s: State, id: nat, fault: Fault)
    requires Coherent(env, lists) && Inv(env, lists, s)
    ensures Inv(env, lists, Apply(env, s, Step(id, fault)))
  {
    if id in s.requests && s.requests[id].status.Active? {
      var r := s.requests[id];
      var (dbs', r') := StepRequest(env, s.dbs, r, fault);
      StepFrame(env, s.dbs, r, fault);
      StepKeepsRequest(env, lists, s.dbs, r, fault);
      StepKeepsTemplates(env, lists, s.dbs, r, fault);
      var s' := State(dbs', s.requests[id := r']);
      assert Apply(env, s, Step(id, fault)) == s';
      forall i | i in s'.requests && i != id ensures RequestOk(env, lists, dbs', s'.requests[i]) {
        assert RequestOk(env, lists, s.dbs, s.requests[i]);
      }
    }
  }

  lemma ArriveKeeps(env: Env, lists: iset<seq<File>>, s: State, id: nat, job: Job, nanos: int)
    requires Inv(env, lists, s)
    requires job.kind.FromMigrations? ==> Separate(env, lists, job.migrations)
    ensures Inv(env, lists, Apply(env, s, Arrive(id, job, nanos)))
  {
    GeneratedNameIsNoTemplate(nanos);
  }

  lemma WriteKeeps(env: Env, lists: iset<seq<File>>, s: State, id: nat, content: Db)
    requires Inv(env, lists, s)
    ensures Inv(env, lists, Apply(env, s, Write(id, content)))
  {
    var s' := Apply(env, s, Write(id, content));
    if s' != s {
      assert RequestOk(env, lists, s.dbs, s.requests[id]);
      forall files | files in lists && files != [] && TemplateOf(env, files) in s'.dbs
        ensures RunFiles(env, env.empty, files) == Some(s'.dbs[TemplateOf(env, files)])
      {
        assert IsTemplate(TemplateOf(env, files));
      }
      forall i | i in s'.requests ensures RequestOk(env, lists, s'.dbs, s'.requests[i]) {
        assert RequestOk(env, lists, s.dbs, s.requests[i]);
      }
    }
  }

  lemma DropKeeps(env: Env, lists: iset<seq<File>>, s: State, name: string)
    requires Inv(env, lists, s)
    ensures Inv(env, lists, Apply(env, s, Drop(name)))
  {
    var s' := Apply(env, s, Drop(name));
    forall i | i in s'.requests ensures RequestOk(env, lists, s'.dbs, s'.requests[i]) {
      assert RequestOk(env, lists, s.dbs, s.requests[i]);
    }
  }

  lemma InitHolds(env: Env, lists: iset<seq<File>>)
    requires ValidEnv(env)
    ensures Inv(env, lists, Init(env))
  {
    var s := Init(env);
    forall files | files in lists ensures TemplateOf(env, files) !in s.dbs {
      assert IsTemplate(TemplateOf(env, files));
    }
    assert env.boot.migrations[..0] == [];
  }

  lemma {:induction false} RunKeeps(env: Env, lists: iset<seq<File>>, events: seq<Event>)
    requires ValidEnv(env) && Coherent(env, lists) && Confined(env, lists, events)
    ensures Inv(env, lists, Run(env, events))
  {
    if events == [] {
      InitHolds(env, lists);
    } else {
      var before := events[..|events| - 1];
      RunKeeps(env, lists, before);
      var s := Run(env, before);
      match events[|events| - 1]
      case Arrive(id, job, nanos) => ArriveKeeps(env, lists, s, id, job, nanos);
      case Step(id, fault) => StepKeeps(env, lists, s, id, fault);
      case Write(id, content) => WriteKeeps(env, lists, s, id, content);
      case Drop(name) => DropKeeps(env, lists, s, name);
    }
  }

  /** In every interleaving of any number of requests, with any failures, every template of the
      given lists is a complete migration run and every database handed out for them is what a run
      from scratch gives, as long as nobody else uses their template names. */
  lemma CacheAgreement(env: Env, lists: iset<seq<File>>, events: seq<Event>)
    requires ValidEnv(env) && Coherent(env, lists) && Confined(env, lists, events)
    ensures Agrees(env, lists, Run(env, events))
  {
    RunKeeps(env, lists, events);
    var s := Run(env, events);
    forall id | id in s.requests && s.requests[id].handed.Some? && Covered(lists, s.requests[id].job) && !SkipsFixtures(s.requests[id].job)
      ensures s.requests[id].handed == Expected(env, s.requests[id].job)
    {
      assert RequestOk(env, lists, s.dbs, s.requests[id]);
    }
  }

  /** Whatever the keys do: a request that has released its uri was handed an existing database,
      that database is still there unless it was dropped since, it is no template, and nobody else
      has it. */
  lemma HandedOutExists(env: Env, events: seq<Event>, id: nat)
    requires ValidEnv(env) && id in Run(env, events).requests
    requires Run(env, events).requests[id].status.Live?
    ensures
      var s := Run(env, events);
      var r := s.requests[id];
      && r.handed.Some? && r.db in s.dbs && !IsTemplate(r.db)
      && forall other :: other in s.requests && other != id && Owns(s.requests[other]) ==> s.requests[other].db != r.db
  {
    RunKeeps(env, iset{}, events);
    assert RequestOk(env, iset{}, Run(env, events).dbs, Run(env, events).requests[id]);
  }

  /** A request that failed, or is still running, holds exactly the files applied so far and no
      half of the next one; nobody else's database has its name. Before the snapshot this needs
      nothing of the keys. */
  lemma PartialRunsHoldAPrefix(env: Env, lists: iset<seq<File>>, events: seq<Event>, id: nat)
    requires ValidEnv(env) && Coherent(env, lists) && Confined(env, lists, events)
    requires id in Run(env, events).requests
    requires var r := Run(env, events).requests[id];
      Owns(r) && (r.status.Failed? || r.status.Active?) && (Covered(lists, r.job) || r.phase.Migrate?)
    ensures
      var s := Run(env, events);
      var r := s.requests[id];
      && r.db in s.dbs
      && HoldsPrefix(env, r.job, r.phase, s.dbs[r.db])
      && !IsTemplate(r.db)
      && forall other :: other in s.requests && other != id && Owns(s.requests[other]) ==> s.requests[other].db != r.db
  {
    RunKeeps(env, lists, events);
    assert RequestOk(env, lists, Run(env, events).dbs, Run(env, events).requests[id]);
  }

  // ---- Start ----------------------------------------------------------------------------

  lemma {:induction false} BootStays(env: Env, events: seq<Event>)
    requires ValidEnv(env)
    ensures BOOT in Run(env, events).requests && Run(env, events).requests[BOOT].job == env.boot
    ensures Run(env, events).requests[BOOT].db == env.maintenance
  {
    if events != [] {
      var before := events[..|events| - 1];
      BootStays(env, before);
      RunKeeps(env, iset{}, before);
      var s, e := Run(env, before), events[|events| - 1];
      if e.Step? && e.id in s.requests && s.requests[e.id].status.Active? {
        assert RequestOk(env, iset{}, s.dbs, s.requests[e.id]);
        StepFrame(env, s.dbs, s.requests[e.id], e.fault);
      }
    }
  }

  /** What Start leaves in the maintenance database is what it was asked for exactly when it had
      migrations, or fixtures that change nothing. */
  lemma StartServesIff(env: Env, events: seq<Event>)
    requires ValidEnv(env) && BOOT in Run(env, events).requests && Run(env, events).requests[BOOT].handed.Some?
    ensures Run(env, events).requests[BOOT].handed == Expected(env, env.boot) <==> StartServes(env)
  {
    BootStays(env, events);
    RunKeeps(env, iset{}, events);
    assert RequestOk(env, iset{}, Run(env, events).dbs, Run(env, events).requests[BOOT]);
  }

  /** A start with one fixture file and no migrations, on any server where the file changes
      anything: the fixture is never loaded. */
  lemma FixturesWithoutMigrations(before: Db, after: Db, digest: string -> Digest) returns (env: Env)
    requires before != after
    ensures ValidEnv(env) && env.boot == Job(Boot, [], [File("users.sql", "insert into users values (1)")])
    ensures Run(env, []).requests[BOOT].handed == Some(before) && Expected(env, env.boot) == Some(after)
  {
    var fixture := File("users.sql", "insert into users values (1)");
    env := Env(before, before, (db, content) => Some(after), digest, "postgres", Job(Boot, [], [fixture]));
    assert [fixture][..0] == [];
  }
}
