/** The code of internal/database/postgres/pg.go on a server whose databases change in place.
    Every statement it sends is recorded as one event of the template cache protocol. Between two
    statements of a request, any events of others may happen. */
module PostgresServer {
  import opened Prelude
  import opened Identifiers
  import opened TemplateCache
  import opened TemplateCacheSafety
  import opened TemplateCacheRuns
  import Connections
  import Encoding
  import Decimal

  /** Missing is errDatabaseNotExists. */
  datatype Outcome = Done | Missing | Error

  /** create database name with template source. The server looks the template up first. */
  function CloneEffect(dbs: map<string, Db>, name: string, source: string, fault: Fault): (map<string, Db>, Outcome) {
    if fault.Refused? then (dbs, Error)
    else if source !in dbs then (dbs, if fault.LostReply? then Error else Missing)
    else if name in dbs then (dbs, Error)
    else (dbs[name := dbs[source]], if fault.LostReply? then Error else Done)
  }

  /** create database name */
  function CreateEffect(dbs: map<string, Db>, empty: Db, name: string, fault: Fault): (map<string, Db>, bool) {
    if fault.Refused? || name in dbs then (dbs, false)
    else (dbs[name := empty], !fault.LostReply?)
  }

  /** One file in one transaction, rolled back when it fails. */
  function FileEffect(env: Env, dbs: map<string, Db>, name: string, content: string, fault: Fault): (map<string, Db>, bool) {
    if fault.Refused? || name !in dbs then (dbs, false)
    else match env.exec(dbs[name], content)
      case None => (dbs, false)
      case Some(db) => (dbs[name := db], !fault.LostReply?)
  }

  /** Creating from a template copies it under a new name and touches nothing that exists, whatever
      goes wrong. Missing is reported exactly when the template is not there. */
  lemma CloneCopiesOrNothing(dbs: map<string, Db>, name: string, source: string, fault: Fault)
    ensures
      var (dbs', outcome) := CloneEffect(dbs, name, source, fault);
      && (forall n :: n in dbs ==> n in dbs' && dbs'[n] == dbs[n])
      && (forall n :: n in dbs' && n !in dbs ==> n == name && source in dbs && dbs'[n] == dbs[source])
      && (outcome.Done? ==> name !in dbs && name in dbs')
      && (outcome.Missing? <==> source !in dbs && fault.NoFault?)
      && (outcome.Error? && name !in dbs && name in dbs' ==> fault.LostReply?)
  {
  }

  /** A file takes effect whole or not at all, in one database only. It is reported as applied only
      when it was, and as failed after it was applied only when the answer got lost. */
  lemma FileAllOrNothing(env: Env, dbs: map<string, Db>, name: string, content: string, fault: Fault)
    ensures
      var (dbs', ok) := FileEffect(env, dbs, name, content, fault);
      && dbs'.Keys == dbs.Keys && (forall n :: n in dbs && n != name ==> dbs'[n] == dbs[n])
      && (name in dbs ==> dbs'[name] == dbs[name] || env.exec(dbs[name], content) == Some(dbs'[name]))
      && (ok ==> name in dbs && env.exec(dbs[name], content) == Some(dbs'[name]))
      && (!ok ==> dbs' == dbs || fault.LostReply?)
  {
  }

  /** What a file statement of a request does, seen from the protocol. */
  ghost predicate FileStepped(env: Env, s: State, s': State, id: nat, content: string, next: Phase, fault: Fault)
    requires id in s.requests
  {
    var r := s.requests[id];
    var (dbs, ok) := FileEffect(env, s.dbs, r.db, content, fault);
    && s'.dbs == dbs && OnlyChanged(s.requests, s'.requests, id)
    && (ok ==> s'.requests[id] == r.(phase := next))
    && (!ok ==> exists phase :: s'.requests[id] == r.(status := Failed, phase := phase) && (phase == r.phase || phase == next))
  }

  lemma MigrationStep(env: Env, s: State, id: nat, fault: Fault, k: nat)
    requires id in s.requests && s.requests[id].status.Active?
    requires s.requests[id].phase == Migrate(k) && k < |s.requests[id].job.migrations|
    ensures FileStepped(env, s, Apply(env, s, Step(id, fault)), id, s.requests[id].job.migrations[k].content, Migrate(k + 1), fault)
  {
    var r' := Apply(env, s, Step(id, fault)).requests[id];
    assert r'.status.Failed? ==> r' == s.requests[id].(status := Failed, phase := r'.phase);
  }

  lemma FixtureStep(env: Env, s: State, id: nat, fault: Fault, k: nat)
    requires id in s.requests && s.requests[id].status.Active?
    requires s.requests[id].phase == Fixture(k) && k < |s.requests[id].job.fixtures|
    ensures FileStepped(env, s, Apply(env, s, Step(id, fault)), id, s.requests[id].job.fixtures[k].content, Fixture(k + 1), fault)
  {
    var r' := Apply(env, s, Step(id, fault)).requests[id];
    assert r'.status.Failed? ==> r' == s.requests[id].(status := Failed, phase := r'.phase);
  }

  /** Other databases are as they were. */
  ghost predicate SameBut(before: map<string, Db>, after: map<string, Db>, name: string) {
    forall n :: n != name ==> (n in after <==> n in before) && (n in before ==> after[n] == before[n])
  }

  /** The schema a job can have from a server as it is: a template that is there is used. */
  function SchemaNow(env: Env, dbs: map<string, Db>, job: Job): Option<Db> {
    if job.kind.Plain? || (job.kind.FromMigrations? && job.migrations == []) then Some(env.empty)
    else if Template(env, job) in dbs then Some(dbs[Template(env, job)])
    else if job.kind.FromMigrations? then RunFiles(env, env.empty, job.migrations)
    else None
  }

  /** The server once a job's schema is there: with a template where there was none. */
  function WithSchema(env: Env, dbs: map<string, Db>, name: string, job: Job, schema: Db): map<string, Db> {
    if job.kind.FromMigrations? && job.migrations != [] && TemplateOf(env, job.migrations) !in dbs then
      dbs[name := schema][TemplateOf(env, job.migrations) := schema]
    else dbs[name := schema]
  }

  /** The database a uri asks to remove. */
  function Removable(uri: string): (name: Option<string>)
    ensures name.Some? <==> Connections.DatabaseIn(uri).Ok? && Connections.DatabaseIn(uri).value != ""
    ensures name.Some? ==> Connections.DatabaseIn(uri) == Ok(name.value)
  {
    match Connections.DatabaseIn(uri)
    case Err(_) => None
    case Ok(name) => if name == "" then None else Some(name)
  }

  /** The uri a client is given for a database, whatever the credentials and wherever the server
      runs, removes that database and no other. */
  lemma UriRemovesItsDatabase(user: seq<Encoding.Byte>, pass: seq<Encoding.Byte>, port: nat, nanos: int, inside: bool)
    requires port < Decimal.UINT32_LIMIT
    ensures Removable(Connections.HostUri(inside, Connections.PostgresUri(user, pass, port, GeneratedName(nanos), inside))) ==
      Some(GeneratedName(nanos))
  {
    Connections.PostgresReadsBack(user, pass, port, nanos, inside);
  }

  /** One more file, answered: all of them so far ran, or they never will as a whole. */
  lemma ApplyNext(env: Env, before: map<string, Db>, name: string, files: seq<File>, k: nat, after: map<string, Db>, ok: bool)
    requires name in before && k < |files| && RunFiles(env, before[name], files[..k]).Some?
    requires (after, ok) ==
      FileEffect(env, before[name := RunFiles(env, before[name], files[..k]).value], name, files[k].content, NoFault)
    ensures SameBut(before, after, name)
    ensures ok ==> RunFiles(env, before[name], files[..k + 1]).Some? && after == before[name := RunFiles(env, before[name], files[..k + 1]).value]
    ensures !ok ==> RunFiles(env, before[name], files).None?
  {
    RunFilesNext(env, before[name], files, k);
    if !ok && RunFiles(env, before[name], files).Some? { PrefixRuns(env, before[name], files, k + 1); }
  }

  /** Not something this request or its client does. */
  predicate Foreign(id: nat, e: Event) {
    e.Drop? || e.id != id
  }

  /** Others cannot change the record of a request that is under way. */
  lemma ForeignKeepsRecord(env: Env, s: State, e: Event, id: nat)
    requires Foreign(id, e) && id in s.requests && s.requests[id].status.Active?
    ensures id in Apply(env, s, e).requests && Apply(env, s, e).requests[id] == s.requests[id]
  {
  }

  /** A server. view follows the protocol: the databases and every request under way. alone says
      that requests are served one at a time, answers what becomes of the n-th event if it is a
      statement of this program. */
  class Server {
    const env: Env
    const alone: bool
    const answers: nat -> Fault
    var dbs: map<string, Db>
    var view: State
    var sent: nat
    ghost var history: seq<Event>

    ghost predicate Valid()
      reads this
    {
      ValidEnv(env) && dbs == view.dbs && view == Run(env, history) && sent == |history|
    }

    /** From some event on, everything is answered and nobody else uses the server. */
    ghost predicate Calm(from: nat) {
      alone && forall n: nat :: n >= from ==> answers(n) == NoFault
    }

    /** Only events of this request were added. */
    ghost predicate Only(id: nat, before: seq<Event>)
      reads this
    {
      && before <= history
      && forall i :: |before| <= i < |history| ==> (history[i].Arrive? || history[i].Step?) && history[i].id == id
    }

    /** What a method may add to the history, and whose records it may change. */
    twostate predicate Serving(id: nat)
      reads this
    {
      && old(history) <= history
      && (alone ==> Only(id, old(history)) && OnlyChanged(old(view.requests), view.requests, id))
    }

    constructor (env: Env, alone: bool, answers: nat -> Fault)
      requires ValidEnv(env)
      ensures Valid() && this.env == env && this.alone == alone && this.answers == answers
      ensures history == [] && dbs == Init(env).dbs
    {
      this.env, this.alone, this.answers := env, alone, answers;
      this.dbs := map[env.maintenance := env.initial];
      this.history, this.sent := [], 0;
      this.view := Init(env);
    }

    method Record(e: Event)
      requires view == Run(env, history) && sent == |history|
      modifies this`history, this`view, this`sent
      ensures history == old(history) + [e] && sent == |history|
      ensures view == Apply(env, old(view), e) == Run(env, history)
    {
      RunSnoc(env, history, e);
      history := history + [e];
      view := Apply(env, view, e);
      sent := sent + 1;
    }

    /** Whatever others do in between. */
    method Interleave(id: nat)
      requires Valid() && id in view.requests && view.requests[id].status.Active?
      modifies this
      ensures Valid() && old(history) <= history
      ensures id in view.requests && view.requests[id] == old(view.requests[id])
      ensures alone ==> history == old(history) && view == old(view)
    {
      if alone { return; }
      var more: int := *;
      while more > 0
        invariant Valid() && old(history) <= history
        invariant id in view.requests && view.requests[id] == old(view.requests[id])
      {
        var e: Event := *;
        if Foreign(id, e) {
          ForeignKeepsRecord(env, view, e, id);
          Record(e);
          dbs := view.dbs;
        }
        more := more - 1;
      }
    }

    method CreateDatabaseWithTemplate(name: string, source: string) returns (outcome: Outcome)
      modifies this`dbs
      ensures (dbs, outcome) == CloneEffect(old(dbs), name, source, answers(sent))
    {
      var fault := answers(sent);
      if fault.Refused? { return Error; }
      if source !in dbs { return if fault.LostReply? then Error else Missing; }
      if name in dbs { return Error; }
      dbs := dbs[name := dbs[source]];
      return if fault.LostReply? then Error else Done;
    }

    method CreateDatabase(name: string) returns (ok: bool)
      modifies this`dbs
      ensures (dbs, ok) == CreateEffect(old(dbs), env.empty, name, answers(sent))
    {
      if answers(sent).Refused? || name in dbs { return false; }
      dbs := dbs[name := env.empty];
      return !answers(sent).LostReply?;
    }

    method ApplyInTx(name: string, content: string) returns (ok: bool)
      modifies this`dbs
      ensures (dbs, ok) == FileEffect(env, old(dbs), name, content, answers(sent))
    {
      if answers(sent).Refused? || name !in dbs { return false; }
      match env.exec(dbs[name], content) {
        case None => return false;
        case Some(db) =>
          dbs := dbs[name := db];
          return !answers(sent).LostReply?;
      }
    }

    /** How far files were applied to a database that had some content before: all of them, or it
        failed and no other database changed. */
    ghost predicate Applied(before: map<string, Db>, name: string, files: seq<File>, ok: bool)
      reads this
      requires name in before
    {
      var done := RunFiles(env, before[name], files);
      && (ok <==> done.Some?) && (ok ==> dbs == before[name := done.value]) && SameBut(before, dbs, name)
    }

    /** Runs the migrations of a request one after the other and stops at the first failure. */
    method RunMigrations(id: nat, name: string, files: seq<File>) returns (ok: bool)
      requires Valid() && id in view.requests
      requires var r := view.requests[id]; r.db == name && r.job.migrations == files && r.phase == Migrate(0) && r.status.Active?
      modifies this
      ensures Valid() && id in view.requests && Serving(id)
      ensures ok ==> view.requests[id] == old(view.requests[id]).(phase := Migrate(|files|))
      ensures !ok ==> view.requests[id].status.Failed? && view.requests[id].phase.Migrate?
      ensures view.requests[id].job == old(view.requests[id].job)
      ensures Calm(old(sent)) && name in old(dbs) ==> Applied(old(dbs), name, files, ok)
    {
      ghost var r := view.requests[id];
      assert files[..0] == [];
      for k := 0 to |files|
        invariant Valid() && id in view.requests && Serving(id)
        invariant view.requests[id] == r.(phase := Migrate(k))
        invariant Calm(old(sent)) && name in old(dbs) ==> Applied(old(dbs), name, files[..k], true)
      {
        var step := ApplyInTx(name, files[k].content);
        MigrationStep(env, view, id, answers(sent), k);
        Record(Step(id, answers(sent)));
        if Calm(old(sent)) && name in old(dbs) { ApplyNext(env, old(dbs), name, files, k, dbs, step); }
        if !step { return false; }
        Interleave(id);
      }
      assert files[..|files|] == files;
      return true;
    }

    method ApplyFixtures(id: nat, name: string, files: seq<File>) returns (ok: bool)
      requires Valid() && id in view.requests
      requires var r := view.requests[id]; r.db == name && r.job.fixtures == files && r.phase == Fixture(0) && r.status.Active?
      modifies this
      ensures Valid() && id in view.requests && Serving(id)
      ensures ok ==> view.requests[id] == old(view.requests[id]).(phase := Fixture(|files|))
      ensures !ok ==> view.requests[id].status.Failed? && view.requests[id].phase.Fixture?
      ensures view.requests[id].job == old(view.requests[id].job)
      ensures Calm(old(sent)) && name in old(dbs) ==> Applied(old(dbs), name, files, ok)
    {
      ghost var r := view.requests[id];
      assert files[..0] == [];
      for k := 0 to |files|
        invariant Valid() && id in view.requests && Serving(id)
        invariant view.requests[id] == r.(phase := Fixture(k))
        invariant Calm(old(sent)) && name in old(dbs) ==> Applied(old(dbs), name, files[..k], true)
      {
        var step := ApplyInTx(name, files[k].content);
        FixtureStep(env, view, id, answers(sent), k);
        Record(Step(id, answers(sent)));
        if Calm(old(sent)) && name in old(dbs) { ApplyNext(env, old(dbs), name, files, k, dbs, step); }
        if !step { return false; }
        Interleave(id);
      }
      assert files[..|files|] == files;
      return true;
    }

    /** Tries to create the database from the template an earlier request built. */
    method TryTemplate(id: nat, name: string, template: string) returns (outcome: Outcome)
      requires Valid() && id in view.requests
      requires var r := view.requests[id];
        r.db == name && r.phase.Begin? && r.status.Active? && Template(env, r.job) == template
      modifies this
      ensures Valid() && id in view.requests && Serving(id)
      ensures (dbs, outcome) == CloneEffect(old(dbs), name, template, answers(old(sent)))
      ensures outcome.Done? ==> view.requests[id] == old(view.requests[id]).(phase := Fixture(0))
      ensures outcome.Missing? && old(view.requests[id]).job.kind.FromMigrations? ==>
        view.requests[id] == old(view.requests[id]).(phase := Create)
      ensures outcome.Error? || (outcome.Missing? && !old(view.requests[id]).job.kind.FromMigrations?) ==>
        view.requests[id].status.Failed?
      ensures view.requests[id].job == old(view.requests[id].job)
    {
      outcome := CreateDatabaseWithTemplate(name, template);
      Record(Step(id, answers(sent)));
    }

    method CreateEmpty(id: nat, name: string) returns (ok: bool)
      requires Valid() && id in view.requests
      requires var r := view.requests[id]; r.db == name && r.phase.Create? && r.status.Active?
      modifies this
      ensures Valid() && id in view.requests && Serving(id)
      ensures (dbs, ok) == CreateEffect(old(dbs), env.empty, name, answers(old(sent)))
      ensures ok ==> view.requests[id] == old(view.requests[id]).(phase := AfterCreate(old(view.requests[id]).job))
      ensures !ok ==> view.requests[id].status.Failed?
      ensures view.requests[id].job == old(view.requests[id].job)
    {
      ok := CreateDatabase(name);
      Record(Step(id, answers(sent)));
    }

    /** Saves the migrated database for the next request. The outcome is only logged: another
        request may have been faster, which is harmless. */
    method SaveTemplate(id: nat, name: string, template: string)
      requires Valid() && id in view.requests
      requires var r := view.requests[id];
        r.db == name && r.phase == Migrate(|r.job.migrations|) && r.status.Active? && Template(env, r.job) == template
      modifies this
      ensures Valid() && id in view.requests && Serving(id)
      ensures dbs == CloneEffect(old(dbs), template, name, answers(old(sent))).0
      ensures view.requests[id] == old(view.requests[id]).(phase := Fixture(0))
    {
      var _ := CreateDatabaseWithTemplate(template, name);
      Record(Step(id, answers(sent)));
    }

    /** createDatabaseFromMigrations, with at least one migration file. With everything answered it
        succeeds exactly when the name is free and there is a template or the migrations run, and it
        leaves a template behind. */
    method CreateFromMigrations(id: nat, name: string, files: seq<File>) returns (ok: bool)
      requires Valid() && files != [] && id in view.requests
      requires var r := view.requests[id];
        r.db == name && r.job.kind.FromMigrations? && r.job.migrations == files && r.phase.Begin? && r.status.Active?
      modifies this
      ensures Valid() && id in view.requests && Serving(id)
      ensures ok ==> view.requests[id] == old(view.requests[id]).(phase := Fixture(0))
      ensures !ok ==> view.requests[id].status.Failed?
      ensures view.requests[id].job == old(view.requests[id].job)
      ensures Calm(old(sent)) && !IsTemplate(name) ==> HasSchema(old(dbs), name, old(view.requests[id].job), ok)
    {
      var template := TemplateOf(env, files);
      var outcome := TryTemplate(id, name, template);
      if outcome.Done? { return true; }
      if outcome.Error? { return false; }
      Interleave(id);
      ok := MigrateNew(id, name, files);
    }

    /** A miss: create, migrate, save. */
    method MigrateNew(id: nat, name: string, files: seq<File>) returns (ok: bool)
      requires Valid() && files != [] && id in view.requests
      requires var r := view.requests[id];
        r.db == name && r.job.kind.FromMigrations? && r.job.migrations == files && r.phase.Create? && r.status.Active?
      modifies this
      ensures Valid() && id in view.requests && Serving(id)
      ensures ok ==> view.requests[id] == old(view.requests[id]).(phase := Fixture(0))
      ensures !ok ==> view.requests[id].status.Failed?
      ensures view.requests[id].job == old(view.requests[id].job)
      ensures Calm(old(sent)) && !IsTemplate(name) && TemplateOf(env, files) !in old(dbs) ==>
        HasSchema(old(dbs), name, old(view.requests[id].job), ok)
    {
      ok := CreateEmpty(id, name);
      if !ok { return; }
      Interleave(id);
      ok := RunMigrations(id, name, files);
      if !ok { return; }
      SaveTemplate(id, name, TemplateOf(env, files));
    }

    /** What an answered creation of a schema comes to. */
    ghost predicate HasSchema(before: map<string, Db>, name: string, job: Job, ok: bool)
      reads this
    {
      var schema := SchemaNow(env, before, job);
      && (ok <==> name !in before && schema.Some?)
      && (ok ==> dbs == WithSchema(env, before, name, job, schema.value))
    }

    /** The part of CreateDB that brings the database into being. */
    method CreateSchema(id: nat, name: string, job: Job) returns (ok: bool)
      requires Valid() && !job.kind.Boot? && id in view.requests
      requires view.requests[id] == Request(job, name, FirstPhase(job), Active, None)
      modifies this
      ensures Valid() && id in view.requests && Serving(id)
      ensures ok ==> view.requests[id] == old(view.requests[id]).(phase := Fixture(0))
      ensures !ok ==> view.requests[id].status.Failed? && view.requests[id].job == job
      ensures Calm(old(sent)) && !IsTemplate(name) ==> HasSchema(old(dbs), name, job, ok)
    {
      if job.kind.FromDefault? {
        var outcome := TryTemplate(id, name, DEFAULT_TEMPLATE);
        return outcome.Done?;
      }
      if job.kind.Plain? || job.migrations == [] {
        ok := CreateEmpty(id, name);
        return;
      }
      ok := CreateFromMigrations(id, name, job.migrations);
    }

    /** A request arrives and is given a database name from the clock. */
    method Register(id: nat, job: Job, nanos: int) returns (name: string)
      requires Valid() && !job.kind.Boot? && id !in view.requests
      modifies this`history, this`view, this`sent
      ensures Valid() && id in view.requests && Serving(id) && name == GeneratedName(nanos)
      ensures view.requests[id] == Request(job, name, FirstPhase(job), Active, None)
    {
      Record(Arrive(id, job, nanos));
      return GeneratedName(nanos);
    }

    /** CreateDB, with others' events between any two of its statements. On success the caller gets
        the name of a database that is there, whatever the keys do, and that holds exactly what a
        run from scratch would put there, as long as the keys are good enough; on failure no uri is
        released. On a server that is alone nothing else happens, and if everything is answered it
        succeeds exactly when the name is free, the schema can be had and the fixtures run on it. */
    method CreateDB(id: nat, job: Job, nanos: int) returns (res: Option<string>)
      requires Valid() && !job.kind.Boot? && id !in view.requests
      modifies this
      ensures Valid() && id in view.requests && Serving(id)
      ensures view.requests[id].job == job
      ensures res.None? ==> view.requests[id].status.Failed?
      ensures res.Some? ==> view.requests[id].status.Live? && res.value == GeneratedName(nanos) && res.value in dbs
      ensures res.Some? ==> forall other :: other in view.requests && other != id && Owns(view.requests[other]) ==>
        view.requests[other].db != res.value
      ensures forall lists: iset<seq<File>> ::
        res.Some? && Covered(lists, job) && Coherent(env, lists) && Confined(env, lists, history) ==>
          Expected(env, job) == Some(dbs[res.value])
      ensures Calm(old(sent)) ==> Delivers(old(dbs), GeneratedName(nanos), job, res.Some?)
    {
      GeneratedNameIsNoTemplate(nanos);
      var name := Register(id, job, nanos);
      Interleave(id);
      var created := CreateSchema(id, name, job);
      if !created { return None; }
      var loaded := Finish(id, name, job.fixtures);
      return if loaded then Some(name) else None;
    }

    /** What an answered CreateDB comes to: when it succeeds, when the schema was had, and what is on
        the server then, templates included. */
    ghost predicate Delivers(before: map<string, Db>, name: string, job: Job, ok: bool)
      reads this
    {
      var schema := SchemaNow(env, before, job);
      && (ok <==> name !in before && schema.Some? && RunFiles(env, schema.value, job.fixtures).Some?)
      && (name !in before && schema.Some? ==> SameBut(WithSchema(env, before, name, job, schema.value), dbs, name))
      && (ok ==> name in dbs && RunFiles(env, schema.value, job.fixtures) == Some(dbs[name]))
    }

    /** Fixtures, then the answer. */
    method Finish(id: nat, name: string, fixtures: seq<File>) returns (ok: bool)
      requires Valid() && id in view.requests
      requires var r := view.requests[id];
        r.db == name && r.phase == Fixture(0) && r.status.Active? && r.job.fixtures == fixtures && !SkipsFixtures(r.job)
      modifies this
      ensures Valid() && id in view.requests && Serving(id)
      ensures view.requests[id].job == old(view.requests[id].job)
      ensures !ok ==> view.requests[id].status.Failed?
      ensures ok ==> view.requests[id].status.Live? && name in dbs
      ensures ok ==> forall other :: other in view.requests && other != id && Owns(view.requests[other]) ==>
        view.requests[other].db != name
      ensures forall lists: iset<seq<File>> ::
        ok && Covered(lists, view.requests[id].job) && Coherent(env, lists) && Confined(env, lists, history) ==>
          Expected(env, view.requests[id].job) == Some(dbs[name])
      ensures Calm(old(sent)) && name in old(dbs) ==> Applied(old(dbs), name, fixtures, ok)
    {
      Interleave(id);
      ok := ApplyFixtures(id, name, fixtures);
      if !ok { return; }
      Interleave(id);
      Answer(id, name);
    }

    /** Releases the uri. */
    method Answer(id: nat, name: string)
      requires Valid() && id in view.requests
      requires var r := view.requests[id];
        r.db == name && r.phase == Fixture(|r.job.fixtures|) && r.status.Active? && !SkipsFixtures(r.job)
      modifies this
      ensures Valid() && id in view.requests && Serving(id)
      ensures view.requests[id].job == old(view.requests[id].job)
      ensures view.requests[id].status.Live? && name in dbs && dbs == old(dbs)
      ensures forall other :: other in view.requests && other != id && Owns(view.requests[other]) ==>
        view.requests[other].db != name
      ensures forall lists: iset<seq<File>> ::
        Covered(lists, view.requests[id].job) && Coherent(env, lists) && Confined(env, lists, history) ==>
          Expected(env, view.requests[id].job) == Some(dbs[name])
    {
      Record(Step(id, NoFault));
      HandedOutExists(env, history, id);
      forall lists: iset<seq<File>> |
        Covered(lists, view.requests[id].job) && Coherent(env, lists) && Confined(env, lists, history)
        ensures Expected(env, view.requests[id].job) == Some(dbs[name])
      {
        RunKeeps(env, lists, history);
        assert RequestOk(env, lists, dbs, view.requests[id]);
      }
    }

    /** RemoveDB: drops the database the uri names, unless it is refused. A uri that does not parse or
        has no database name is an error, and a drop may go through without being answered. The
        protocol is followed when nobody is still building that database. */
    method RemoveDB(uri: string) returns (ok: bool)
      requires Valid()
      modifies this
      ensures ok <==> Removable(uri).Some? && answers(old(sent)).NoFault?
      ensures Removable(uri).None? || answers(old(sent)).Refused? ==> Valid() && dbs == old(dbs) && history == old(history)
      ensures Removable(uri).Some? && !answers(old(sent)).Refused? ==> dbs == old(dbs) - {Removable(uri).value}
      ensures Removable(uri).Some? && !answers(old(sent)).Refused? && MayDrop(old(view), Removable(uri).value) ==>
        Valid() && view == Dropped(old(view), Removable(uri).value)
    {
      var name := Connections.DatabaseIn(uri);
      if name.Err? || name.value == "" { return false; }
      var fault := answers(sent);
      if fault.Refused? { return false; }
      Record(Drop(name.value));
      dbs := dbs - {name.value};
      return fault.NoFault?;
    }

    /** What an answered Start comes to. */
    ghost predicate Starts(ok: bool)
      reads this
    {
      var migrated := RunFiles(env, env.initial, env.boot.migrations);
      && (ok <==> env.boot.migrations == [] || (migrated.Some? && RunFiles(env, migrated.value, env.boot.fixtures).Some?))
      && (env.boot.migrations != [] && migrated.Some? ==> DEFAULT_TEMPLATE in dbs && dbs[DEFAULT_TEMPLATE] == migrated.value)
    }

    /** The database part of Start on a fresh instance: migrate the maintenance database, save it
        as the default template, then load fixtures into it. When it succeeds, the maintenance
        database is what was asked for exactly when there were migrations, or fixtures that change
        nothing. With everything answered it succeeds exactly when the migrations, if any, and then
        the fixtures run, and the default template is there once the migrations ran. */
    method Start() returns (ok: bool)
      requires Valid() && history == []
      modifies this
      ensures Valid() && Serving(BOOT)
      ensures ok ==> env.maintenance in dbs
      ensures ok ==> (Expected(env, env.boot) == Some(dbs[env.maintenance]) <==> StartServes(env))
      ensures DEFAULT_TEMPLATE in dbs ==> RunFiles(env, env.initial, env.boot.migrations) == Some(dbs[DEFAULT_TEMPLATE])
      ensures Calm(old(sent)) ==> Starts(ok)
    {
      if env.boot.migrations == [] {
        RunKeeps(env, iset{}, history);
        return true;
      }
      ok := Boot();
      RunKeeps(env, iset{}, history);
    }

    /** Start with at least one migration. */
    method Boot() returns (ok: bool)
      requires Valid() && history == [] && env.boot.migrations != []
      modifies this
      ensures Valid() && Serving(BOOT)
      ensures ok ==> env.maintenance in dbs && Expected(env, env.boot) == Some(dbs[env.maintenance])
      ensures Calm(old(sent)) ==> Starts(ok)
    {
      assert view == Init(env);
      ok := RunMigrations(BOOT, env.maintenance, env.boot.migrations);
      if !ok { return; }
      SaveTemplate(BOOT, env.maintenance, DEFAULT_TEMPLATE);
      ok := Finish(BOOT, env.maintenance, env.boot.fixtures);
      if !ok { return; }
      assert Covered(iset{}, env.boot) && Confined(env, iset{}, history);
    }
  }
}
