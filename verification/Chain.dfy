/** From start to remove: the details an instance was started with, on their way through labels,
    discovery, an empty create request, the uri the client gets, and the remover that reads it
    (internal/database/database.go, internal/apiserver/server.go and the uris of each database). */
module Chain {
  import opened Prelude
  import opened Decimal
  import opened Encoding
  import opened Identifiers
  import opened Connections
  import opened Discovery

  /** What the remover is configured with, as far as a was concerned. */
  function Reached(a: Access): Result<Details> {
    Ok(Details(a.user, a.pass, a.port))
  }

  /** Host rewriting leaves the credentials alone. */
  predicate Unrewritten(inside: bool, a: Access)
    requires IsBytes(a.user) && IsBytes(a.pass)
  {
    !(inside && (Contains(a.user, DOCKER_HOST) || Contains(a.pass, DOCKER_HOST)))
  }

  /** An empty request reaches the details of the only match, its gaps filled. */
  lemma ResolvedIs(dbType: string, running: seq<Container>, tag: string, c: Container, a: Access, custom: string)
    requires OnlyMatch(running, dbType, tag, c, a, custom)
    ensures Resolved(dbType, map[], running, tag) == Filled(a, Defaults(dbType))
    ensures IsBytes(a.user) && IsBytes(a.pass) ==>
      var r := Filled(a, Defaults(dbType)); IsBytes(r.user) && IsBytes(r.pass) && r.port < UINT32_LIMIT
  {
    StartedIsFound(running, dbType, tag, c, a, custom);
    FilledFromNothing(a);
    FilledIsBytes(a, Defaults(dbType));
  }

  lemma FilledFromNothing(a: Access)
    ensures Filled(Access("", "", "", 0), a) == a
  {
  }

  lemma FilledIsBytes(a: Access, b: Access)
    requires a.port < UINT32_LIMIT && b.port < UINT32_LIMIT && IsBytes(b.user) && IsBytes(b.pass)
    ensures Filled(a, b).port < UINT32_LIMIT
    ensures IsBytes(a.user) && IsBytes(a.pass) ==> IsBytes(Filled(a, b).user) && IsBytes(Filled(a, b).pass)
  {
  }

  /** For postgres, the database that is created is the one that is removed, and it is looked for
      with exactly the details the instance was started with if and only if these have a user, a
      password and a port, and host rewriting does not hit the credentials. */
  lemma PostgresChainIff(running: seq<Container>, tag: string, c: Container, a: Access, custom: string, nanos: int, inside: bool)
    requires OnlyMatch(running, "postgres", tag, c, a, custom) && IsBytes(a.user) && IsBytes(a.pass)
    ensures var r := Resolved("postgres", map[], running, tag);
      && IsBytes(r.user) && IsBytes(r.pass)
      && var uri := HostUri(inside, PostgresUri(r.user, r.pass, r.port, GeneratedName(nanos), inside));
      && DatabaseIn(uri) == Ok(GeneratedName(nanos))
      && (Configured(PG_DEFAULTS, uri) == Reached(a) <==> a.user != "" && a.pass != "" && a.port != 0 && Unrewritten(inside, a))
  {
    ResolvedIs("postgres", running, tag, c, a, custom);
    var r := Filled(a, Defaults("postgres"));
    PostgresReadsBack(r.user, r.pass, r.port, nanos, inside);
    RewrittenIsSame(inside, r.user);
    RewrittenIsSame(inside, r.pass);
    RewrittenEmpty(inside, r.user);
    RewrittenEmpty(inside, r.pass);
  }

  /** The same for redis, where a user or the absence of a password is needed, and a port. */
  lemma RedisChainIff(running: seq<Container>, tag: string, c: Container, a: Access, custom: string, index: int, inside: bool)
    requires OnlyMatch(running, "redis", tag, c, a, custom) && IsBytes(a.user) && IsBytes(a.pass)
    requires -INT64_LIMIT <= index < INT64_LIMIT
    ensures var r := Resolved("redis", map[], running, tag);
      && IsBytes(r.user) && IsBytes(r.pass)
      && var uri := HostUri(inside, RedisUri(r.user, r.pass, r.port, index, inside));
      && DatabaseIn(uri) == Ok(Itoa(index))
      && (Configured(REDIS_DEFAULTS, uri) == Reached(a) <==> (a.user != "" || a.pass == "") && a.port != 0 && Unrewritten(inside, a))
  {
    ResolvedIs("redis", running, tag, c, a, custom);
    var r := Filled(a, Defaults("redis"));
    RedisReadsBack(r.user, r.pass, r.port, index, inside);
    RewrittenIsSame(inside, r.user);
    RewrittenIsSame(inside, r.pass);
  }

  /** The same for mongodb, where credentials with spaces do not come back either. */
  lemma MongoChainIff(running: seq<Container>, tag: string, c: Container, a: Access, custom: string, nanos: int, inside: bool)
    requires OnlyMatch(running, "mongodb", tag, c, a, custom) && IsBytes(a.user) && IsBytes(a.pass)
    ensures var r := Resolved("mongodb", map[], running, tag);
      && IsBytes(r.user) && IsBytes(r.pass)
      && var uri := HostUri(inside, MongoUri(r.user, r.pass, r.port, GeneratedName(nanos), inside));
      && DatabaseIn(uri) == Ok(GeneratedName(nanos))
      && (Configured(MONGO_DEFAULTS, uri) == Reached(a) <==>
          && a.user != "" && a.pass != "" && a.port != 0 && ' ' !in a.user && ' ' !in a.pass && Unrewritten(inside, a))
  {
    ResolvedIs("mongodb", running, tag, c, a, custom);
    var r := Filled(a, Defaults("mongodb"));
    MongoReadsBack(r.user, r.pass, r.port, nanos, inside);
    PlusAndRewriteAreSameIff(inside, r.user);
    PlusAndRewriteAreSameIff(inside, r.pass);
    RewrittenEmpty(inside, r.user);
    RewrittenEmpty(inside, r.pass);
  }

  /** What an access is to a remover. */
  function AsDetails(a: Access): Details {
    Details(a.user, a.pass, a.port)
  }

  /** The server's defaults are those of each package, so that an instance nobody has discovered is
      created on and removed from with the same details. */
  lemma DefaultsAgree()
    ensures AsDetails(Resolved("postgres", map[], [], "")) == PG_DEFAULTS == Details("postgres", "postgres", 15432)
    ensures AsDetails(Resolved("redis", map[], [], "")) == REDIS_DEFAULTS == Details("", "", 16379)
    ensures AsDetails(Resolved("mongodb", map[], [], "")) == MONGO_DEFAULTS == Details("mongodb", "mongodb", 27017)
    ensures Resolved("postgres", map[], [], "").name == "postgres" && Resolved("mongodb", map[], [], "").name == "admin"
  {
  }
}
