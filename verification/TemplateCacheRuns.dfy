/** Properties of whole runs of the template cache: hits never migrate, interleaving does not
    show, and exactly when the digest key is good enough. */
module TemplateCacheRuns {
  import opened Prelude
  import opened Identifiers
  import opened TemplateCache
  import opened TemplateCacheSafety

  // ---- A template that is there is used -------------------------------------------------

  /** Holds in every run, whatever the key does. */
  ghost predicate NamesOk(s: State) {
    forall id :: id in s.requests ==> !IsTemplate(s.requests[id].db)
  }

  lemma ApplyKeepsNames(env: Env, s: State, e: Event)
    requires NamesOk(s)
    ensures NamesOk(Apply(env, s, e))
  {
    if e.Arrive? { GeneratedNameIsNoTemplate(e.nanos); }
    if e.Step? && e.id in s.requests && s.requests[e.id].status.Active? {
      StepFrame(env, s.dbs, s.requests[e.id], e.fault);
    }
  }

  /** Only dropping it removes or changes a template. */
  lemma ApplyKeepsTemplate(env: Env, s: State, e: Event, t: string)
    requires NamesOk(s) && IsTemplate(t) && t in s.dbs && e != Drop(t)
    ensures t in Apply(env, s, e).dbs && Apply(env, s, e).dbs[t] == s.dbs[t]
  {
    if e.Step? && e.id in s.requests && s.requests[e.id].status.Active? {
      StepFrame(env, s.dbs, s.requests[e.id], e.fault);
    }
  }

  lemma {:induction false} RunKeepsNames(env: Env, s: State, events: seq<Event>)
    requires NamesOk(s)
    ensures NamesOk(RunFrom(env, s, events))
  {
    if events != [] {
      RunKeepsNames(env, s, events[..|events| - 1]);
      ApplyKeepsNames(env, RunFrom(env, s, events[..|events| - 1]), events[|events| - 1]);
    }
  }

  lemma {:induction false} RunKeepsTemplate(env: Env, s: State, events: seq<Event>, t: string)
    requires NamesOk(s) && IsTemplate(t) && t in s.dbs && Drop(t) !in events
    ensures t in RunFrom(env, s, events).dbs && RunFrom(env, s, events).dbs[t] == s.dbs[t]
  {
    if events != [] {
      var before := events[..|events| - 1];
      RunKeepsTemplate(env, s, before, t);
      RunKeepsNames(env, s, before);
      assert events[|events| - 1] in events;
      ApplyKeepsTemplate(env, RunFrom(env, s, before), events[|events| - 1], t);
    }
  }

  /** Had not yet tried its template when the run stood at s. */
  ghost predicate TriesLater(s: State, id: nat) {
    id in s.requests ==> s.requests[id].phase.Begin?
  }

  ghost predicate UsesTemplate(env: Env, job: Job, t: string) {
    FirstPhase(job).Begin? && Template(env, job) == t
  }

  /** From the moment a template exists until it is dropped, no request that tries it creates an
      empty database or runs a migration file: it clones, or it fails. */
  lemma {:induction false} HitsNeverMigrate(env: Env, s: State, events: seq<Event>, t: string, id: nat)
    requires NamesOk(s) && IsTemplate(t) && t in s.dbs && Drop(t) !in events
    requires TriesLater(s, id)
    requires var r := RunFrom(env, s, events).requests; id in r && UsesTemplate(env, r[id].job, t)
    ensures var r := RunFrom(env, s, events).requests[id]; r.phase.Begin? || r.phase.Fixture?
  {
    if events != [] {
      var before := events[..|events| - 1];
      var e := events[|events| - 1];
      var mid := RunFrom(env, s, before);
      RunKeepsTemplate(env, s, before, t);
      RunKeepsNames(env, s, before);
      if id in mid.requests {
        if e.Step? && e.id == id && mid.requests[id].status.Active? {
          StepFrame(env, mid.dbs, mid.requests[id], e.fault);
        }
        HitsNeverMigrate(env, s, before, t, id);
      }
    }
  }

  lemma RunHasGoodNames(env: Env, events: seq<Event>)
    requires ValidEnv(env)
    ensures NamesOk(Run(env, events))
  {
    RunKeepsNames(env, Init(env), events);
  }

  /** What a job is handed does not depend on the run it is part of: not on hits and misses, not
      on who wins the race to store a template, not on other requests' failures. */
  lemma SameJobSameDatabase(env: Env, lists: iset<seq<File>>, events: seq<Event>, events': seq<Event>, id: nat, id': nat)
    requires ValidEnv(env) && Coherent(env, lists) && Confined(env, lists, events) && Confined(env, lists, events')
    requires id in Run(env, events).requests && id' in Run(env, events').requests
    requires Run(env, events).requests[id].job == Run(env, events').requests[id'].job
    requires Run(env, events).requests[id].handed.Some? && Run(env, events').requests[id'].handed.Some?
    requires Covered(lists, Run(env, events).requests[id].job)
    ensures Run(env, events).requests[id].handed == Run(env, events').requests[id'].handed
  {
    RunKeeps(env, lists, events);
    RunKeeps(env, lists, events');
    assert RequestOk(env, lists, Run(env, events).dbs, Run(env, events).requests[id]);
    assert RequestOk(env, lists, Run(env, events').dbs, Run(env, events').requests[id']);
  }

  // ---- Exactly when the key is good enough ----------------------------------------------

  ghost predicate Reachable(env: Env, lists: iset<seq<File>>, s: State) {
    exists events :: ArrivalsIn(lists, events) && Run(env, events) == s
  }

  /** Every database handed out is the one that was asked for. */
  ghost predicate Serves(env: Env, s: State) {
    forall id :: id in s.requests && s.requests[id].handed.Some? ==>
      s.requests[id].handed == Expected(env, s.requests[id].job)
  }

  ghost predicate AlwaysServes(env: Env, lists: iset<seq<File>>) {
    forall s :: Reachable(env, lists, s) ==> Serves(env, s)
  }

  lemma InitReachable(env: Env, lists: iset<seq<File>>)
    ensures Reachable(env, lists, Init(env))
  {
    assert ArrivalsIn(lists, []) && Run(env, []) == Init(env);
  }

  lemma ReachNext(env: Env, lists: iset<seq<File>>, s: State, e: Event)
    requires Reachable(env, lists, s)
    requires e.Arrive? && e.job.kind.FromMigrations? ==> e.job.migrations in lists
    ensures Reachable(env, lists, Apply(env, s, e))
  {
    var events :| ArrivalsIn(lists, events) && Run(env, events) == s;
    var events' := events + [e];
    assert events'[..|events'| - 1] == events;
    assert ArrivalsIn(lists, events') && Run(env, events') == Apply(env, s, e);
  }

  lemma {:induction false} PrefixRuns(env: Env, db: Db, files: seq<File>, k: nat)
    requires k <= |files| && RunFiles(env, db, files).Some?
    ensures RunFiles(env, db, files[..k]).Some?
    decreases |files| - k
  {
    if k == |files| {
      assert files[..k] == files;
    } else {
      PrefixRuns(env, db, files, k + 1);
      RunFilesNext(env, db, files, k);
    }
  }

  function MigrationJob(files: seq<File>): Job {
    Job(FromMigrations, files, [])
  }

  /** The state in which request 1 alone has applied its first k files. */
  function Migrating(env: Env, db: string, files: seq<File>, k: nat, content: Db): State {
    var s := Init(env);
    State(s.dbs[db := content], s.requests[1 := Request(MigrationJob(files), db, Migrate(k), Active, None)])
  }

  /** A request alone on a fresh server misses its template and creates an empty database. */
  lemma MissThenCreate(env: Env, s: State, nanos: int, files: seq<File>)
    requires files != [] && ValidEnv(env) && GeneratedName(nanos) != env.maintenance
    requires s == Apply(env, Init(env), Arrive(1, MigrationJob(files), nanos))
    ensures
      var s' := Apply(env, s, Step(1, NoFault));
      Apply(env, s', Step(1, NoFault)) == Migrating(env, GeneratedName(nanos), files, 0, env.empty)
  {
    assert IsTemplate(TemplateOf(env, files));
    var r := Request(MigrationJob(files), GeneratedName(nanos), Begin, Active, None);
    assert s == Init(env).(requests := Init(env).requests[1 := r]);
    var s' := Apply(env, s, Step(1, NoFault));
    assert s' == s.(requests := s.requests[1 := r.(phase := Create)]);
    assert Apply(env, s', Step(1, NoFault)).dbs == Init(env).dbs[GeneratedName(nanos) := env.empty];
  }

  lemma MigrateNext(env: Env, db: string, files: seq<File>, k: nat, content: Db)
    requires k < |files| && env.exec(content, files[k].content).Some?
    ensures Apply(env, Migrating(env, db, files, k, content), Step(1, NoFault)) ==
      Migrating(env, db, files, k + 1, env.exec(content, files[k].content).value)
  {
    var s := Migrating(env, db, files, k, content);
    var s' := Migrating(env, db, files, k + 1, env.exec(content, files[k].content).value);
    assert s.dbs[db := s'.dbs[db]] == s'.dbs;
    assert s.requests[1 := s'.requests[1]] == s'.requests;
  }

  lemma ReachCreated(env: Env, lists: iset<seq<File>>, nanos: int, files: seq<File>)
    requires files in lists && files != [] && ValidEnv(env) && GeneratedName(nanos) != env.maintenance
    ensures Reachable(env, lists, Migrating(env, GeneratedName(nanos), files, 0, env.empty))
  {
    var e, step := Arrive(1, MigrationJob(files), nanos), Step(1, NoFault);
    InitReachable(env, lists);
    var s := ReachThree(env, lists, Init(env), e, step);
    MissThenCreate(env, Apply(env, Init(env), e), nanos, files);
  }

  lemma {:induction false} ReachMigrating(env: Env, lists: iset<seq<File>>, nanos: int, files: seq<File>, k: nat)
    requires files in lists && files != [] && RunFiles(env, env.empty, files).Some?
    requires ValidEnv(env) && GeneratedName(nanos) != env.maintenance && k <= |files|
    ensures RunFiles(env, env.empty, files[..k]).Some?
    ensures Reachable(env, lists, Migrating(env, GeneratedName(nanos), files, k, RunFiles(env, env.empty, files[..k]).value))
  {
    PrefixRuns(env, env.empty, files, k);
    if k == 0 {
      ReachCreated(env, lists, nanos, files);
      assert files[..0] == [];
    } else {
      ReachMigrating(env, lists, nanos, files, k - 1);
      RunFilesNext(env, env.empty, files, k - 1);
      var content := RunFiles(env, env.empty, files[..k - 1]).value;
      ReachNext(env, lists, Migrating(env, GeneratedName(nanos), files, k - 1, content), Step(1, NoFault));
      MigrateNext(env, GeneratedName(nanos), files, k - 1, content);
    }
  }

  /** Some run stores the result of the given list under its template name. */
  lemma ReachTemplate(env: Env, lists: iset<seq<File>>, nanos: int, files: seq<File>) returns (s: State)
    requires files in lists && files != [] && RunFiles(env, env.empty, files).Some?
    requires ValidEnv(env) && GeneratedName(nanos) != env.maintenance
    ensures Reachable(env, lists, s)
    ensures s.requests.Keys == {BOOT, 1}
    ensures s.dbs.Keys == {env.maintenance, GeneratedName(nanos), TemplateOf(env, files)}
    ensures RunFiles(env, env.empty, files) == Some(s.dbs[TemplateOf(env, files)])
  {
    var db, n := GeneratedName(nanos), |files|;
    ReachMigrating(env, lists, nanos, files, n);
    assert files[..n] == files;
    var before := Migrating(env, db, files, n, RunFiles(env, env.empty, files).value);
    GeneratedNameIsNoTemplate(nanos);
    assert IsTemplate(TemplateOf(env, files));
    ReachNext(env, lists, before, Step(1, NoFault));
    s := Apply(env, before, Step(1, NoFault));
  }

  /** Two names that neither collide with each other nor with the maintenance database. */
  lemma FreeNames(maintenance: string) returns (a: int, b: int)
    ensures GeneratedName(a) != GeneratedName(b)
    ensures GeneratedName(a) != maintenance && GeneratedName(b) != maintenance
  {
    var d: Digest := seq(32, _ => '0');
    NameSpaces(1, 2, d, d);
    NameSpaces(1, 3, d, d);
    NameSpaces(2, 3, d, d);
    a, b := if GeneratedName(1) == maintenance then 3 else 1, if GeneratedName(2) == maintenance then 3 else 2;
  }

  /** A request that finds its template is handed what the template holds. */
  lemma HitThenAnswer(env: Env, s: State, id: nat, nanos: int, files: seq<File>)
    requires id !in s.requests && files != [] && TemplateOf(env, files) in s.dbs && GeneratedName(nanos) !in s.dbs
    ensures
      var arrived := Apply(env, s, Arrive(id, MigrationJob(files), nanos));
      var served := Apply(env, Apply(env, arrived, Step(id, NoFault)), Step(id, NoFault));
      && id in served.requests && served.requests[id].job == MigrationJob(files)
      && served.requests[id].handed == Some(s.dbs[TemplateOf(env, files)])
  {
    var arrived := Apply(env, s, Arrive(id, MigrationJob(files), nanos));
    var cloned := Apply(env, arrived, Step(id, NoFault));
    assert cloned.requests[id] == Request(MigrationJob(files), GeneratedName(nanos), Fixture(0), Active, None);
  }

  /** With the template of one list in place, a request for another list with the same template
      name is handed the first list's schema. */
  lemma CollisionServesTheOther(env: Env, lists: iset<seq<File>>, a: seq<File>, b: seq<File>) returns (s: State)
    requires ValidEnv(env) && a in lists && b in lists && a != [] && b != []
    requires TemplateOf(env, a) == TemplateOf(env, b) && RunFiles(env, env.empty, a).Some?
    ensures Reachable(env, lists, s) && 2 in s.requests
    ensures s.requests[2].job == MigrationJob(b)
    ensures s.requests[2].handed == RunFiles(env, env.empty, a)
  {
    var n1, n2 := FreeNames(env.maintenance);
    var s0 := ReachTemplate(env, lists, n1, a);
    GeneratedNameIsNoTemplate(n2);
    HitThenAnswer(env, s0, 2, n2, b);
    s := ReachThree(env, lists, s0, Arrive(2, MigrationJob(b), n2), Step(2, NoFault));
  }

  lemma ReachThree(env: Env, lists: iset<seq<File>>, s: State, first: Event, next: Event) returns (s': State)
    requires Reachable(env, lists, s) && next.Step?
    requires first.Arrive? && first.job.kind.FromMigrations? ==> first.job.migrations in lists
    ensures s' == Apply(env, Apply(env, Apply(env, s, first), next), next) && Reachable(env, lists, s')
  {
    ReachNext(env, lists, s, first);
    ReachNext(env, lists, Apply(env, s, first), next);
    ReachNext(env, lists, Apply(env, Apply(env, s, first), next), next);
    s' := Apply(env, Apply(env, Apply(env, s, first), next), next);
  }

  lemma {:induction false} JobsIn(env: Env, lists: iset<seq<File>>, events: seq<Event>, id: nat)
    requires ValidEnv(env) && ArrivalsIn(lists, events) && id in Run(env, events).requests
    ensures Covered(lists, Run(env, events).requests[id].job)
  {
    if events == [] {
      assert id == BOOT;
    } else {
      var before, e := events[..|events| - 1], events[|events| - 1];
      var s := Run(env, before);
      if id in s.requests { JobsIn(env, lists, before, id); }
      if e.Step? && e.id in s.requests && s.requests[e.id].status.Active? {
        RunHasGoodNames(env, before);
        StepFrame(env, s.dbs, s.requests[e.id], e.fault);
      }
    }
  }

  lemma ServesIn(env: Env, lists: iset<seq<File>>, events: seq<Event>)
    requires ValidEnv(env) && Coherent(env, lists) && StartServes(env) && ArrivalsIn(lists, events)
    ensures Serves(env, Run(env, events))
  {
    RunKeeps(env, lists, events);
    var s := Run(env, events);
    forall id | id in s.requests && s.requests[id].handed.Some? ensures s.requests[id].handed == Expected(env, s.requests[id].job) {
      JobsIn(env, lists, events, id);
      assert RequestOk(env, lists, s.dbs, s.requests[id]);
    }
  }

  /** Every run over a set of migration lists hands out what was asked for exactly when lists that
      share a template name have the same effect, and Start does not skip fixtures that matter. */
  lemma CacheInvisibleIff(env: Env, lists: iset<seq<File>>)
    requires ValidEnv(env)
    ensures AlwaysServes(env, lists) <==> Coherent(env, lists) && StartServes(env)
  {
    if Coherent(env, lists) && StartServes(env) {
      forall s | Reachable(env, lists, s) ensures Serves(env, s) {
        var events :| ArrivalsIn(lists, events) && Run(env, events) == s;
        ServesIn(env, lists, events);
      }
    }
    if AlwaysServes(env, lists) {
      InitReachable(env, lists);
      StartIsServed(env, Init(env));
      forall a, b | a in lists && b in lists && a != [] && b != [] && TemplateOf(env, a) == TemplateOf(env, b)
        ensures RunFiles(env, env.empty, a) == RunFiles(env, env.empty, b)
      {
        ServedAlike(env, lists, a, b);
        ServedAlike(env, lists, b, a);
      }
    }
  }

  lemma StartIsServed(env: Env, s: State)
    requires ValidEnv(env) && s == Init(env) && Serves(env, s)
    ensures StartServes(env)
  {
    if env.boot.migrations == [] {
      assert s.requests[BOOT].handed == Expected(env, env.boot);
    }
  }

  lemma ServedAlike(env: Env, lists: iset<seq<File>>, a: seq<File>, b: seq<File>)
    requires ValidEnv(env) && AlwaysServes(env, lists) && a in lists && b in lists && a != [] && b != []
    requires TemplateOf(env, a) == TemplateOf(env, b)
    ensures RunFiles(env, env.empty, a).Some? ==> RunFiles(env, env.empty, b) == RunFiles(env, env.empty, a)
  {
    if RunFiles(env, env.empty, a).Some? {
      var s := CollisionServesTheOther(env, lists, a, b);
      assert Serves(env, s);
      assert Expected(env, MigrationJob(b)) == RunFiles(env, env.empty, b);
    }
  }

  // ---- What the stream says about the list ----------------------------------------------

  /** Names and contents are hashed with nothing in between: two files can always be told as one,
      whose content goes on with the name and the content of the second. */
  lemma TwoFilesAsOne(first: File, second: File)
    ensures Stream([first, second]) == Stream([File(first.name, first.content + (second.name + second.content))])
  {
    var two := [first, second];
    var one := [File(first.name, first.content + (second.name + second.content))];
    assert two[..1] == [first] && [first][..0] == [] && one[..0] == [];
    assert Stream([first]) == "" + first.name + first.content;
  }

  /** Two migration directories: one file that creates a table and ends in a comment, and the same
      with the comment cut short by the beginning of a second file. */
  const FIRST := File("a.sql", "create table a();--")
  const SECOND := File("b.sql", "create table b();")
  const TWO_FILES := [FIRST, SECOND]
  const ONE_FILE := [File(FIRST.name, FIRST.content + (SECOND.name + SECOND.content))]

  /** Different migration directories can have the same template name, whatever the digest. */
  lemma StreamIsAmbiguous(env: Env)
    ensures ONE_FILE != TWO_FILES && Stream(ONE_FILE) == Stream(TWO_FILES)
    ensures TemplateOf(env, ONE_FILE) == TemplateOf(env, TWO_FILES)
  {
    TwoFilesAsOne(FIRST, SECOND);
    assert |ONE_FILE| != |TWO_FILES|;
  }

  /** On every server where the two directories run and make a difference, some run hands the
      schema of one to a request for the other. */
  lemma AmbiguityServesTheOther(env: Env) returns (s: State)
    requires ValidEnv(env) && RunFiles(env, env.empty, ONE_FILE).Some?
    requires RunFiles(env, env.empty, ONE_FILE) != RunFiles(env, env.empty, TWO_FILES)
    ensures Reachable(env, iset{ONE_FILE, TWO_FILES}, s) && 2 in s.requests && s.requests[2].job == MigrationJob(TWO_FILES)
    ensures s.requests[2].handed == RunFiles(env, env.empty, ONE_FILE) != Expected(env, MigrationJob(TWO_FILES))
  {
    StreamIsAmbiguous(env);
    s := CollisionServesTheOther(env, iset{ONE_FILE, TWO_FILES}, ONE_FILE, TWO_FILES);
  }

  predicate SameShape(a: seq<File>, b: seq<File>) {
    && |a| == |b|
    && forall i :: 0 <= i < |a| ==> |a[i].name| == |b[i].name| && |a[i].content| == |b[i].content|
  }

  lemma PartsAlike(a: string, b: string, c: string, x: string, y: string, z: string)
    requires a + b + c == x + y + z && |b| == |y| && |c| == |z|
    ensures a == x && b == y && c == z
  {
    var s := a + b + c;
    assert |a| == |x|;
    assert s[..|a|] == a && s[..|x|] == x;
    assert s[|a|..|a| + |b|] == b && s[|x|..|x| + |y|] == y;
    assert s[|a| + |b|..] == c && s[|x| + |y|..] == z;
  }

  /** Lists of the same shape are told apart by their stream. */
  lemma {:induction false} StreamDeterminesFiles(a: seq<File>, b: seq<File>)
    requires SameShape(a, b) && Stream(a) == Stream(b)
    ensures a == b
  {
    if a != [] {
      var n := |a| - 1;
      var x, y := a[n], b[n];
      PartsAlike(Stream(a[..n]), x.name, x.content, Stream(b[..n]), y.name, y.content);
      StreamDeterminesFiles(a[..n], b[..n]);
      assert a == a[..n] + [x] && b == b[..n] + [y];
    }
  }

  /** The assumption a deployment makes: no digest collision among the streams it sees, and
      streams that tell its lists apart. It is enough. */
  lemma DistinctStreamsAreCoherent(env: Env, lists: iset<seq<File>>)
    requires forall a, b :: a in lists && b in lists && env.digest(Stream(a)) == env.digest(Stream(b)) ==> Stream(a) == Stream(b)
    requires forall a, b :: a in lists && b in lists && Stream(a) == Stream(b) ==> a == b
    ensures Coherent(env, lists)
  {
    forall a, b | a in lists && b in lists && a != [] && b != [] && TemplateOf(env, a) == TemplateOf(env, b)
      ensures RunFiles(env, env.empty, a) == RunFiles(env, env.empty, b)
    {
      NameSpaces(0, 0, env.digest(Stream(a)), env.digest(Stream(b)));
    }
  }
}
