/** A create request for postgres from its uploaded parts to its database: CreateDB in
    internal/apiserver/server.go, then CreateDB in internal/database/postgres/pg.go. */
module PostgresRequests {
  import opened Prelude
  import opened Identifiers
  import opened Migrations
  import opened Upload
  import opened TemplateCache
  import opened TemplateCacheSafety
  import PostgresServer

  /** One uploaded directory: where it is unpacked, its parts, and the order in which it is walked. */
  datatype Uploaded = Uploaded(dst: string, parts: seq<Part>, walk: seq<string>)

  /** The tree the parts make, when all of them are taken. */
  function TreeOf(u: Uploaded): Option<Tree> {
    ReceiveAll(u.parts)
  }

  ghost predicate WalksIt(u: Uploaded) {
    TreeOf(u).Some? ==> Walks(u.walk, TreeOf(u).value)
  }

  /** The job two uploaded trees ask for. */
  ghost function Asked(migrations: Uploaded, fixtures: Uploaded): Job
    requires TreeOf(migrations).Some? && TreeOf(fixtures).Some? && WalksIt(migrations) && WalksIt(fixtures)
  {
    Job(FromMigrations, MigrationsOf(TreeOf(migrations).value, migrations.walk), FixturesOf(TreeOf(fixtures).value, fixtures.walk))
  }

  /** Unpacks the parts, finds and reads migrations and fixtures, and creates the database, with
      others' events in between. A released uri means that every part was taken, and that the database
      holds what the uploaded trees ask for; a failed upload never reaches the server. With everything
      answered, success is that of CreateDB. */
  method CreateFromUpload(server: PostgresServer.Server, disk: Disk, id: nat, migrations: Uploaded, fixtures: Uploaded, nanos: int)
      returns (res: Option<string>)
    requires server.Valid() && id !in server.view.requests
    requires FreshDir(migrations.dst, disk.files) && FreshDir(fixtures.dst, disk.files) && Apart(migrations.dst, fixtures.dst)
    requires WalksIt(migrations) && WalksIt(fixtures)
    modifies server, disk
    ensures server.Valid()
    ensures TreeOf(migrations).None? || TreeOf(fixtures).None? ==>
      res.None? && server.history == old(server.history) && server.dbs == old(server.dbs)
    ensures res.Some? ==> TreeOf(migrations).Some? && TreeOf(fixtures).Some? && res.value in server.dbs
    ensures forall lists: iset<seq<File>> ::
      res.Some? && Asked(migrations, fixtures).migrations in lists
      && Coherent(server.env, lists) && Confined(server.env, lists, server.history) ==>
        Expected(server.env, Asked(migrations, fixtures)) == Some(server.dbs[res.value])
    ensures TreeOf(migrations).Some? && TreeOf(fixtures).Some? && server.Calm(old(server.sent)) ==>
      server.Delivers(old(server.dbs), GeneratedName(nanos), Asked(migrations, fixtures), res.Some?)
  {
    var unpacked := UnpackBoth(disk, migrations, fixtures);
    if !unpacked { return None; }
    var ms := ReadMigrations(disk, TreeOf(migrations).value, migrations);
    var fs := ReadFixtures(disk, TreeOf(fixtures).value, fixtures);
    res := server.CreateDB(id, Job(FromMigrations, ms, fs), nanos);
  }

  /** Both directories are unpacked, or the request has failed. */
  method UnpackBoth(disk: Disk, a: Uploaded, b: Uploaded) returns (ok: bool)
    requires FreshDir(a.dst, disk.files) && FreshDir(b.dst, disk.files) && Apart(a.dst, b.dst)
    modifies disk
    ensures ok <==> TreeOf(a).Some? && TreeOf(b).Some?
    ensures ok ==> Unpacked(a.dst, TreeOf(a).value, disk.files) && Unpacked(b.dst, TreeOf(b).value, disk.files)
  {
    ghost var done;
    ok, done := disk.ReadMultipartFiles(a.dst, a.parts);
    if !ok { return; }
    assert a.parts[..|a.parts|] == a.parts && b.parts[..|b.parts|] == b.parts;
    StaysFresh(old(disk.files), a.dst, b.dst, TreeOf(a).value, disk.files);
    ok, done := disk.ReadMultipartFiles(b.dst, b.parts);
  }

  /** The migration files of the directory a tree was unpacked into. */
  method ReadMigrations(disk: Disk, ghost tree: Tree, u: Uploaded) returns (files: seq<File>)
    requires Walks(u.walk, tree) && Unpacked(u.dst, tree, disk.files) && u.dst != ""
    ensures files == MigrationsOf(tree, u.walk)
  {
    ReadsTheTree(u.dst, tree, u.walk, disk.files);
    var found := GetFiles(u.dst, u.dst, Directory(u.walk));
    var paths := MigrationFiles(found.value);
    assert Readable(paths, disk.files);
    files := Load(u.dst, paths, disk.files);
  }

  /** applyFixturesFromDir reads every sql file. */
  method ReadFixtures(disk: Disk, ghost tree: Tree, u: Uploaded) returns (files: seq<File>)
    requires Walks(u.walk, tree) && Unpacked(u.dst, tree, disk.files) && u.dst != ""
    ensures files == FixturesOf(tree, u.walk)
  {
    ReadsTheFixtures(u.dst, tree, u.walk, disk.files);
    var found := GetFiles(u.dst, u.dst, Directory(u.walk));
    files := Load(u.dst, found.value, disk.files);
  }
}
