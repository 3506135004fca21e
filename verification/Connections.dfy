/** Connection details as text: the uris CreateDB returns and what WithURI and RemoveDB read out of
    them (pg.go, redis.go, mongodb.go and the config.go of each). */
module Connections {
  import opened Prelude
  import opened Decimal
  import opened Encoding
  import opened Uri
  import opened Identifiers

  /** The part of a config that says how to reach an instance. */
  datatype Details = Details(user: string, pass: string, port: nat)

  const PG_DEFAULTS := Details("postgres", "postgres", 15432)
  const REDIS_DEFAULTS := Details("", "", 16379)
  const MONGO_DEFAULTS := Details("mongodb", "mongodb", 27017)

  const DOCKER_HOST: seq<Byte> := "host.docker.internal"
  const LOCALHOST: seq<Byte> := "localhost"

  /** Details with the credentials a uri has. */
  function WithCredentials(d: Details, user: Option<Userinfo>): Details {
    Details(
      if user.Some? && user.value.name != "" then user.value.name else d.user,
      if user.Some? && user.value.pass.Some? then user.value.pass.value else d.pass,
      d.port)
  }

  /** What WithURI leaves in a config, the same for all three databases. */
  function Configured(d: Details, uri: string): Result<Details> {
    if uri == "" then Ok(d)
    else match Parse(uri)
      case Err(e) => Err("parse database uri failed")
      case Ok(u) =>
        var p := Port(u.host);
        if p == "" then Ok(WithCredentials(d, u.user))
        else match ParseUint(p, UINT32_LIMIT)
          case None => Err("invalid port in database uri")
          case Some(port) => Ok(WithCredentials(d, u.user).(port := port))
  }

  /** A config whose fields the option closures write. */
  class Config {
    var user: string
    var pass: string
    var port: nat

    ghost function Value(): Details
      reads this
    {
      Details(user, pass, port)
    }

    constructor (defaults: Details)
      ensures Value() == defaults
    {
      user, pass, port := defaults.user, defaults.pass, defaults.port;
    }

    /** WithURI. On an invalid port the credentials have been taken over already. */
    method WithURI(uri: string) returns (ok: bool)
      modifies this
      ensures ok <==> Configured(old(Value()), uri).Ok?
      ensures ok ==> Configured(old(Value()), uri) == Ok(Value())
      ensures !ok ==> Value() == if Parse(uri).Ok? then WithCredentials(old(Value()), Parse(uri).value.user) else old(Value())
    {
      if uri == "" { return true; }
      var parsed := Parse(uri);
      if parsed.Err? { return false; }
      var u := parsed.value;
      if u.user.Some? {
        if u.user.value.name != "" { user := u.user.value.name; }
        if u.user.value.pass.Some? { pass := u.user.value.pass.value; }
      }
      var p := Port(u.host);
      if p != "" {
        var n := ParseUint(p, UINT32_LIMIT);
        if n.None? { return false; }
        port := n.value;
      }
      return true;
    }
  }

  /** strings.TrimPrefix(u.Path, "/") */
  function DatabaseIn(uri: string): Result<string> {
    match Parse(uri)
    case Err(e) => Err(e)
    case Ok(u) => Ok(if "/" <= u.path then u.path[1..] else u.path)
  }

  function Address(inside: bool): seq<Byte> {
    if inside then DOCKER_HOST else LOCALHOST
  }

  /** user[:password] */
  function Credentials(mode: Mode, user: seq<Byte>, pass: Option<seq<Byte>>): seq<Byte> {
    if pass.Some? then Escape(mode, user) + (":" + Escape(mode, pass.value)) else Escape(mode, user)
  }

  /** URI() of each package for a database that CreateDB made. inside is whether the server runs
      in a container itself. */
  function PostgresUri(user: seq<Byte>, pass: seq<Byte>, port: nat, name: string, inside: bool): string {
    Text("postgres", Some(Credentials(UserPassword, user, Some(pass))), Address(inside), Utoa(port), name + "?sslmode=disable")
  }

  function RedisUri(user: seq<Byte>, pass: seq<Byte>, port: nat, index: int, inside: bool): string {
    var credentials :=
      if user == [] then None
      else Some(Credentials(UserPassword, user, if pass == [] then None else Some(pass)));
    Text("redis", credentials, Address(inside), Utoa(port), Itoa(index) + "")
  }

  function MongoUri(user: seq<Byte>, pass: seq<Byte>, port: nat, name: string, inside: bool): string {
    Text("mongodb", Some(Credentials(Query, user, Some(pass))), Address(inside), Utoa(port), name + "")
  }

  /** hostURI: what the client is given. */
  function HostUri(inside: bool, uri: string): string {
    if inside then ReplaceAll(uri, DOCKER_HOST, LOCALHOST) else uri
  }

  /** What host rewriting does to a credential on its way. */
  function Rewritten(inside: bool, s: seq<Byte>): seq<Byte> {
    if inside then ReplaceBytes(s, DOCKER_HOST, LOCALHOST) else s
  }

  // ---- Rewriting the host ---------------------------------------------------------------

  lemma Hosts()
    ensures PlainText(DOCKER_HOST) && PlainText(LOCALHOST) && Separators(DOCKER_HOST) && HostName(LOCALHOST)
    ensures |LOCALHOST| < |DOCKER_HOST| && DOCKER_HOST[0] == 'h'
  {
  }

  lemma RewriteCredentials(mode: Mode, user: seq<Byte>, pass: Option<seq<Byte>>, old_: seq<Byte>, new_: seq<Byte>)
    requires PlainText(old_) && PlainText(new_) && old_ != []
    ensures ReplaceAll(Credentials(mode, user, pass), old_, new_) ==
      Credentials(mode, ReplaceBytes(user, old_, new_), if pass.Some? then Some(ReplaceBytes(pass.value, old_, new_)) else None)
  {
    var u, u' := Escape(mode, user), Escape(mode, ReplaceBytes(user, old_, new_));
    assert ReplaceAll(u, old_, new_) == u' by { ReplaceInEscaped(mode, user, old_, new_); }
    if pass.Some? {
      var p, p' := Escape(mode, pass.value), Escape(mode, ReplaceBytes(pass.value, old_, new_));
      assert ReplaceAll(p, old_, new_) == p' by { ReplaceInEscaped(mode, pass.value, old_, new_); }
      assert ReplaceAll(u + (":" + p), old_, new_) == u' + (":" + p') by { RewritePair(u, p, old_, new_); }
    }
  }

  lemma RewritePair(a: string, b: string, old_: string, new_: string)
    requires PlainText(old_) && old_ != ""
    ensures ReplaceAll(a + (":" + b), old_, new_) == ReplaceAll(a, old_, new_) + (":" + ReplaceAll(b, old_, new_))
  {
    ReplaceAroundSeparator(a, ':', b, old_, new_);
    assert a + [':'] + b == a + (":" + b);
  }

  function RewrittenOption(inside: bool, s: Option<seq<Byte>>): Option<seq<Byte>> {
    if s.Some? then Some(Rewritten(inside, s.value)) else None
  }

  /** The uri a client gets is the uri for localhost with rewritten credentials. */
  lemma RewriteUri(scheme: string, mode: Mode, user: seq<Byte>, pass: Option<seq<Byte>>, port: nat, rest: string, inside: bool)
    requires 'h' !in scheme && 'h' !in rest
    ensures HostUri(inside, Text(scheme, Some(Credentials(mode, user, pass)), Address(inside), Utoa(port), rest)) ==
      Text(scheme, Some(Credentials(mode, Rewritten(inside, user), RewrittenOption(inside, pass))), LOCALHOST, Utoa(port), rest)
  {
    if inside {
      Hosts();
      DigitsLackH(Utoa(port));
      RewriteCredentials(mode, user, pass, DOCKER_HOST, LOCALHOST);
      RewriteText(scheme, Some(Credentials(mode, user, pass)), Utoa(port), rest, DOCKER_HOST, LOCALHOST);
    } else {
      SameOption(pass);
    }
  }

  lemma SameOption(pass: Option<seq<Byte>>)
    ensures RewrittenOption(false, pass) == pass
  {
  }

  lemma DigitsLackH(digits: string)
    requires AllDigits(digits)
    ensures 'h' !in digits
  {
  }

  // ---- Reading a uri back ---------------------------------------------------------------

  lemma EncodedIsHarmless(mode: Mode, s: seq<Byte>)
    requires mode.UserPassword? || mode.Query?
    ensures forall c :: c in Escape(mode, s) ==>
      UserinfoChar(c) && c != '#' && !IsControl(c) && c != '/' && c != '?' && c != ':' && c != '@'
  {
    EscapeAlphabet(mode, s);
  }

  lemma CredentialsAreValid(mode: Mode, user: seq<Byte>, pass: Option<seq<Byte>>)
    requires mode.UserPassword? || mode.Query?
    ensures ValidUserinfo(Credentials(mode, user, pass)) && Piece(Credentials(mode, user, pass))
  {
    EncodedIsHarmless(mode, user);
    if pass.Some? { EncodedIsHarmless(mode, pass.value); }
    var text := Credentials(mode, user, pass);
    forall c | c in text ensures UserinfoChar(c) && c != '#' && !IsControl(c) && c != '/' && c != '?' {
      assert c in Escape(mode, user) || c == ':' || c in Escape(mode, pass.value);
    }
  }

  lemma CredentialsAreCut(mode: Mode, user: seq<Byte>, pass: Option<seq<Byte>>)
    requires mode.UserPassword? || mode.Query?
    ensures CutAt(Credentials(mode, user, pass), ':') ==
      (Escape(mode, user), if pass.Some? then Some(Escape(mode, pass.value)) else None)
  {
    var u := Escape(mode, user);
    assert ':' !in u by { EncodedIsHarmless(mode, user); }
    if pass.Some? {
      var p := Escape(mode, pass.value);
      assert u + (":" + p) == u + [':'] + p;
      CutFirst(u, ':', p);
    } else {
      CutNone(u, ':');
    }
  }

  /** Credentials parse back, with a query-encoded space read as a plus. */
  lemma CredentialsReadBack(mode: Mode, user: seq<Byte>, pass: Option<seq<Byte>>)
    requires mode.UserPassword? || mode.Query?
    ensures ParseUserinfo(Credentials(mode, user, pass)) ==
      Some(Userinfo(DecodedAll(mode, user), if pass.Some? then Some(DecodedAll(mode, pass.value)) else None))
    ensures CleanCredentials(Credentials(mode, user, pass))
  {
    CredentialsAreValid(mode, user, pass);
    CredentialsAreCut(mode, user, pass);
    UnescapeEscape(mode, user);
    if pass.Some? { UnescapeEscape(mode, pass.value); }
  }

  /** Reading details out of a uri. */
  lemma ConfiguredFrom(defaults: Details, uri: string, user: Option<Userinfo>, port: nat, name: string)
    requires port < UINT32_LIMIT && uri != ""
    requires Parse(uri) == Ok(Url(user, LOCALHOST + ":" + Utoa(port), "/" + name))
    ensures DatabaseIn(uri) == Ok(name)
    ensures Configured(defaults, uri) == Ok(Details(
      if user.Some? && user.value.name != "" then user.value.name else defaults.user,
      if user.Some? && user.value.pass.Some? then user.value.pass.value else defaults.pass,
      port))
  {
    Hosts();
    HostWithPort(LOCALHOST, Utoa(port));
    ParseOfUtoa(port, UINT32_LIMIT);
    assert ("/" + name)[1..] == name;
  }

  /** Credentials, port and name survive the trip into a uri, through host rewriting, and back. */
  lemma UriReadsBack(defaults: Details, scheme: string, mode: Mode, user: seq<Byte>, pass: Option<seq<Byte>>, port: nat,
                     name: string, query: string, inside: bool)
    requires port < UINT32_LIMIT && Letters(scheme) && PlainName(name) && QueryText(query)
    requires 'h' !in scheme && 'h' !in name && 'h' !in query && (mode.UserPassword? || mode.Query?)
    ensures
      var uri := HostUri(inside, Text(scheme, Some(Credentials(mode, user, pass)), Address(inside), Utoa(port), name + query));
      var u := DecodedAll(mode, Rewritten(inside, user));
      && DatabaseIn(uri) == Ok(name)
      && Configured(defaults, uri) == Ok(Details(
          if user != [] then u else defaults.user,
          if pass.Some? then DecodedAll(mode, Rewritten(inside, pass.value)) else defaults.pass,
          port))
  {
    var u, p := Rewritten(inside, user), RewrittenOption(inside, pass);
    var c := Credentials(mode, u, p);
    var uri := Text(scheme, Some(c), LOCALHOST, Utoa(port), name + query);
    RewriteUri(scheme, mode, user, pass, port, name + query, inside);
    CredentialsReadBack(mode, u, p);
    Hosts();
    TextReadsBack(scheme, Some(c), LOCALHOST, Utoa(port), name, query);
    ConfiguredFrom(defaults, uri, ParseUserinfo(c), port, name);
    RewrittenEmpty(inside, user);
  }

  lemma RewrittenEmpty(inside: bool, s: seq<Byte>)
    ensures Rewritten(inside, s) == [] <==> s == []
  {
    ReplaceEmpty(s, DOCKER_HOST, LOCALHOST);
  }

  lemma ReplaceEmpty(s: seq<Byte>, old_: seq<Byte>, new_: seq<Byte>)
    requires old_ != [] && new_ != []
    ensures ReplaceBytes(s, old_, new_) == [] <==> s == []
  {
  }

  lemma GeneratedIsPlain(nanos: int)
    ensures PlainName(GeneratedName(nanos)) && 'h' !in GeneratedName(nanos)
  {
    ItoaIsPlain(nanos);
  }

  lemma ItoaIsPlain(n: int)
    ensures PlainName(Itoa(n)) && 'h' !in Itoa(n)
  {
    var digits := Utoa(if n < 0 then -n else n);
    assert AllDigits(digits);
    DigitsLackH(digits);
    forall i | 0 <= i < |digits| ensures Unreserved(digits[i]) { assert IsDigit(digits[i]); }
  }

  // ---- Create and remove talk about the same thing --------------------------------------

  lemma PostgresTexts()
    ensures Letters("postgres") && 'h' !in "postgres" && QueryText("?sslmode=disable") && 'h' !in "?sslmode=disable"
  {
  }

  /** Whatever the credentials, the uri a postgres database is handed out with leads back to its
      port and its name; the credentials come back as host rewriting left them, and an empty user
      as the default one. */
  lemma PostgresReadsBack(user: seq<Byte>, pass: seq<Byte>, port: nat, nanos: int, inside: bool)
    requires port < UINT32_LIMIT
    ensures
      var uri := HostUri(inside, PostgresUri(user, pass, port, GeneratedName(nanos), inside));
      && DatabaseIn(uri) == Ok(GeneratedName(nanos))
      && Configured(PG_DEFAULTS, uri) ==
          Ok(Details(if user == [] then PG_DEFAULTS.user else Rewritten(inside, user), Rewritten(inside, pass), port))
  {
    GeneratedIsPlain(nanos);
    PostgresTexts();
    DecodedIsSame(UserPassword, Rewritten(inside, user));
    DecodedIsSame(UserPassword, Rewritten(inside, pass));
    UriReadsBack(PG_DEFAULTS, "postgres", UserPassword, user, Some(pass), port, GeneratedName(nanos), "?sslmode=disable", inside);
  }

  lemma RewrittenIsSame(inside: bool, s: seq<Byte>)
    ensures Rewritten(inside, s) == s <==> !(inside && Contains(s, DOCKER_HOST))
  {
    Hosts();
    ReplaceIsIdentityIff(s, DOCKER_HOST, LOCALHOST);
  }

  /** Removing a postgres database reaches the instance it was created on with the same
      credentials exactly when there is a user name and no credential is caught by rewriting. */
  lemma PostgresRoundTripIff(user: seq<Byte>, pass: seq<Byte>, port: nat, nanos: int, inside: bool)
    requires port < UINT32_LIMIT
    ensures
      var uri := HostUri(inside, PostgresUri(user, pass, port, GeneratedName(nanos), inside));
      Configured(PG_DEFAULTS, uri) == Ok(Details(user, pass, port)) <==>
        user != [] && !(inside && (Contains(user, DOCKER_HOST) || Contains(pass, DOCKER_HOST)))
  {
    PostgresReadsBack(user, pass, port, nanos, inside);
    RewrittenIsSame(inside, user);
    RewrittenIsSame(inside, pass);
  }

  /** The same for mongodb, whose printer encodes for a query: spaces come back as plus signs. */
  lemma MongoReadsBack(user: seq<Byte>, pass: seq<Byte>, port: nat, nanos: int, inside: bool)
    requires port < UINT32_LIMIT
    ensures
      var uri := HostUri(inside, MongoUri(user, pass, port, GeneratedName(nanos), inside));
      && DatabaseIn(uri) == Ok(GeneratedName(nanos))
      && Configured(MONGO_DEFAULTS, uri) ==
          Ok(Details(if user == [] then MONGO_DEFAULTS.user else DecodedAll(Query, Rewritten(inside, user)),
                     DecodedAll(Query, Rewritten(inside, pass)), port))
  {
    GeneratedIsPlain(nanos);
    UriReadsBack(MONGO_DEFAULTS, "mongodb", Query, user, Some(pass), port, GeneratedName(nanos), "", inside);
  }

  /** A rewritten text with spaces read as plus signs is the original exactly when neither change
      applied. */
  lemma PlusAndRewriteAreSameIff(inside: bool, s: seq<Byte>)
    ensures DecodedAll(Query, Rewritten(inside, s)) == s <==> ' ' !in s && !(inside && Contains(s, DOCKER_HOST))
  {
    Hosts();
    RewrittenIsSame(inside, s);
    DecodedIsSame(Query, s);
    ReplaceShrinks(s, DOCKER_HOST, LOCALHOST);
  }

  lemma MongoRoundTripIff(user: seq<Byte>, pass: seq<Byte>, port: nat, nanos: int, inside: bool)
    requires port < UINT32_LIMIT
    ensures
      var uri := HostUri(inside, MongoUri(user, pass, port, GeneratedName(nanos), inside));
      Configured(MONGO_DEFAULTS, uri) == Ok(Details(user, pass, port)) <==>
        && user != [] && ' ' !in user && ' ' !in pass
        && !(inside && (Contains(user, DOCKER_HOST) || Contains(pass, DOCKER_HOST)))
  {
    MongoReadsBack(user, pass, port, nanos, inside);
    PlusAndRewriteAreSameIff(inside, user);
    PlusAndRewriteAreSameIff(inside, pass);
  }

  lemma RewriteAnonymous(digits: string, rest: string, inside: bool)
    requires AllDigits(digits) && 'h' !in rest
    ensures HostUri(inside, Text("redis", None, Address(inside), digits, rest)) == Text("redis", None, LOCALHOST, digits, rest)
  {
    if inside {
      Hosts();
      DigitsLackH(digits);
      RewriteText("redis", None, digits, rest, DOCKER_HOST, LOCALHOST);
    }
  }

  /** Without credentials. */
  lemma AnonymousReadsBack(port: nat, name: string, inside: bool)
    requires port < UINT32_LIMIT && PlainName(name) && 'h' !in name
    ensures
      var uri := HostUri(inside, Text("redis", None, Address(inside), Utoa(port), name + ""));
      DatabaseIn(uri) == Ok(name) && Configured(REDIS_DEFAULTS, uri) == Ok(Details("", "", port))
  {
    RewriteAnonymous(Utoa(port), name + "", inside);
    assert HostName(LOCALHOST) by { Hosts(); }
    TextReadsBack("redis", None, LOCALHOST, Utoa(port), name, "");
    ConfiguredFrom(REDIS_DEFAULTS, Text("redis", None, LOCALHOST, Utoa(port), name + ""), None, port, name);
  }

  /** A redis uri leads back to its index and port; a password without a user is not in it. */
  lemma RedisReadsBack(user: seq<Byte>, pass: seq<Byte>, port: nat, index: int, inside: bool)
    requires port < UINT32_LIMIT && -INT64_LIMIT <= index < INT64_LIMIT
    ensures
      var uri := HostUri(inside, RedisUri(user, pass, port, index, inside));
      && DatabaseIn(uri) == Ok(Itoa(index)) && Atoi(Itoa(index)) == Some(index)
      && Configured(REDIS_DEFAULTS, uri) ==
          Ok(Details(Rewritten(inside, user), if user == [] then [] else Rewritten(inside, pass), port))
  {
    ItoaIsPlain(index);
    AtoiOfItoa(index);
    RewrittenEmpty(inside, user);
    RewrittenEmpty(inside, pass);
    if user == [] {
      AnonymousReadsBack(port, Itoa(index), inside);
    } else {
      DecodedIsSame(UserPassword, Rewritten(inside, user));
      DecodedIsSame(UserPassword, Rewritten(inside, pass));
      UriReadsBack(REDIS_DEFAULTS, "redis", UserPassword, user, if pass == [] then None else Some(pass), port, Itoa(index), "", inside);
    }
  }

  lemma RedisRoundTripIff(user: seq<Byte>, pass: seq<Byte>, port: nat, index: int, inside: bool)
    requires port < UINT32_LIMIT && -INT64_LIMIT <= index < INT64_LIMIT
    ensures
      var uri := HostUri(inside, RedisUri(user, pass, port, index, inside));
      Configured(REDIS_DEFAULTS, uri) == Ok(Details(user, pass, port)) <==>
        && (user != [] || pass == [])
        && !(inside && (Contains(user, DOCKER_HOST) || Contains(pass, DOCKER_HOST)))
  {
    RedisReadsBack(user, pass, port, index, inside);
    RewrittenIsSame(inside, user);
    RewrittenIsSame(inside, pass);
  }

  // ---- What a uri shows -----------------------------------------------------------------

  /** Where a server is looked for: on this machine, or on the one its container runs on. */
  function ServerHost(inside: bool, port: nat): string {
    (if inside then "host.docker.internal" else "localhost") + ":" + Utoa(port)
  }

  lemma PlainIsHostName(s: string)
    requires PlainText(s)
    ensures HostName(s)
  {
  }

  lemma HostNames()
    ensures HostName(DOCKER_HOST) && HostName(LOCALHOST)
    ensures DOCKER_HOST == "host.docker.internal" && LOCALHOST == "localhost"
  {
    assert PlainText(DOCKER_HOST) && PlainText(LOCALHOST) by { Hosts(); }
    PlainIsHostName(DOCKER_HOST);
    PlainIsHostName(LOCALHOST);
  }

  lemma Schemes()
    ensures Letters("redis") && Letters("mongodb") && 'h' !in "redis" && 'h' !in "mongodb" && 'h' !in "" && QueryText("")
    ensures "?sslmode=disable"[1..] == "sslmode=disable"
  {
  }

  /** The uri a client is given has the scheme and the query it was composed with. */
  lemma HandedShows(scheme: string, mode: Mode, user: seq<Byte>, pass: Option<seq<Byte>>, port: nat, name: string, query: string, inside: bool)
    requires Letters(scheme) && PlainName(name) && QueryText(query) && (mode.UserPassword? || mode.Query?)
    requires 'h' !in scheme && 'h' !in name && 'h' !in query
    ensures
      var uri := HostUri(inside, Text(scheme, Some(Credentials(mode, user, pass)), Address(inside), Utoa(port), name + query));
      && SchemeEnd(uri, 0) == Ok(Some(|scheme|)) && uri[..|scheme|] == scheme
      && CutAt(uri, '?').1 == if query == "" then None else Some(query[1..])
  {
    var u, p := Rewritten(inside, user), RewrittenOption(inside, pass);
    RewriteUri(scheme, mode, user, pass, port, name + query, inside);
    CredentialsReadBack(mode, u, p);
    HostNames();
    TextShows(scheme, Some(Credentials(mode, u, p)), LOCALHOST, Utoa(port), name, query);
  }

  /** The uri the server itself uses leads to the host of the instance. */
  lemma OwnHost(scheme: string, credentials: Option<string>, port: nat, name: string, query: string, inside: bool)
    requires Letters(scheme) && PlainName(name) && QueryText(query) && (credentials.Some? ==> CleanCredentials(credentials.value))
    ensures var parsed := Parse(Text(scheme, credentials, Address(inside), Utoa(port), name + query));
      parsed.Ok? && parsed.value.host == ServerHost(inside, port)
  {
    HostNames();
    TextReadsBack(scheme, credentials, Address(inside), Utoa(port), name, query);
  }

  /** A postgres uri is for postgres, without TLS, and leads to the instance's host and port. */
  lemma PostgresUriShows(user: seq<Byte>, pass: seq<Byte>, port: nat, nanos: int, inside: bool)
    ensures
      var own := PostgresUri(user, pass, port, GeneratedName(nanos), inside);
      var uri := HostUri(inside, own);
      && SchemeEnd(uri, 0) == Ok(Some(8)) && uri[..8] == "postgres" && CutAt(uri, '?').1 == Some("sslmode=disable")
      && Parse(own).Ok? && Parse(own).value.host == ServerHost(inside, port)
  {
    GeneratedIsPlain(nanos);
    PostgresTexts();
    Schemes();
    HandedShows("postgres", UserPassword, user, Some(pass), port, GeneratedName(nanos), "?sslmode=disable", inside);
    CredentialsReadBack(UserPassword, user, Some(pass));
    OwnHost("postgres", Some(Credentials(UserPassword, user, Some(pass))), port, GeneratedName(nanos), "?sslmode=disable", inside);
  }

  lemma MongoUriShows(user: seq<Byte>, pass: seq<Byte>, port: nat, nanos: int, inside: bool)
    ensures
      var own := MongoUri(user, pass, port, GeneratedName(nanos), inside);
      var uri := HostUri(inside, own);
      && SchemeEnd(uri, 0) == Ok(Some(7)) && uri[..7] == "mongodb" && CutAt(uri, '?').1 == None
      && Parse(own).Ok? && Parse(own).value.host == ServerHost(inside, port)
  {
    GeneratedIsPlain(nanos);
    Schemes();
    HandedShows("mongodb", Query, user, Some(pass), port, GeneratedName(nanos), "", inside);
    CredentialsReadBack(Query, user, Some(pass));
    OwnHost("mongodb", Some(Credentials(Query, user, Some(pass))), port, GeneratedName(nanos), "", inside);
  }

  lemma RedisUriShows(user: seq<Byte>, pass: seq<Byte>, port: nat, index: int, inside: bool)
    ensures
      var own := RedisUri(user, pass, port, index, inside);
      var uri := HostUri(inside, own);
      && SchemeEnd(uri, 0) == Ok(Some(5)) && uri[..5] == "redis" && CutAt(uri, '?').1 == None
      && Parse(own).Ok? && Parse(own).value.host == ServerHost(inside, port)
  {
    ItoaIsPlain(index);
    Schemes();
    if user == [] {
      RewriteAnonymous(Utoa(port), Itoa(index) + "", inside);
      HostNames();
      TextShows("redis", None, LOCALHOST, Utoa(port), Itoa(index), "");
      OwnHost("redis", None, port, Itoa(index), "", inside);
    } else {
      var p := if pass == [] then None else Some(pass);
      HandedShows("redis", UserPassword, user, p, port, Itoa(index), "", inside);
      CredentialsReadBack(UserPassword, user, p);
      OwnHost("redis", Some(Credentials(UserPassword, user, p)), port, Itoa(index), "", inside);
    }
  }

  // ---- Uris with gaps -------------------------------------------------------------------

  /** A uri without a port leaves the configured port alone, and one without credentials these. */
  lemma PortlessKeepsPort(defaults: Details, scheme: string, credentials: Option<string>, address: string, name: string)
    requires Letters(scheme) && HostName(address) && PlainName(name)
    requires credentials.Some? ==> CleanCredentials(credentials.value)
    ensures var configured := Configured(defaults, PortlessText(scheme, credentials, address, name + ""));
      && configured.Ok? && configured.value.port == defaults.port
      && (credentials.None? ==> configured == Ok(defaults))
  {
    PortlessReadsBack(scheme, credentials, address, name);
    HostWithoutPort(address);
  }

  /** A port that does not fit 32 bits is an error. */
  lemma PortTooLarge(defaults: Details, scheme: string, credentials: Option<string>, address: string, port: nat, name: string)
    requires Letters(scheme) && HostName(address) && PlainName(name) && port >= UINT32_LIMIT
    requires credentials.Some? ==> CleanCredentials(credentials.value)
    ensures Configured(defaults, Text(scheme, credentials, address, Utoa(port), name + "")).Err?
  {
    TextReadsBack(scheme, credentials, address, Utoa(port), name, "");
    HostWithPort(address, Utoa(port));
    ValueOfUtoa(port);
  }
}
