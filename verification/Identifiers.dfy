/** Names of databases on a postgres server and the way they are put into statements
    (internal/database/postgres/pg.go, config.go). */
module Identifiers {
  import opened Prelude
  import opened Decimal

  const DEFAULT_TEMPLATE := "dbctl_template"
  const HASHED_PREFIX := "dbctl_tpl_"
  const MAX_IDENTIFIER_BYTES := 63

  predicate IsHexDigit(c: char) {
    '0' <= c <= '9' || 'a' <= c <= 'f'
  }

  /** The first 32 hexadecimal digits of a digest. */
  type Digest = d: string | |d| == 32 && forall i :: 0 <= i < |d| ==> IsHexDigit(d[i])
    witness seq(32, _ => '0')

  /** The name CreateDB makes up from the clock. */
  function GeneratedName(nanos: int): string {
    "dbctl_" + Itoa(nanos)
  }

  /** The name of the template caching one set of migrations. */
  function HashedTemplate(digest: Digest): string {
    HASHED_PREFIX + digest
  }

  /** Names that only ever denote templates. */
  predicate IsTemplate(name: string) {
    name == DEFAULT_TEMPLATE || HASHED_PREFIX <= name
  }

  lemma GeneratedNameIsNoTemplate(nanos: int)
    ensures !IsTemplate(GeneratedName(nanos))
  {
    var name := GeneratedName(nanos);
    assert name[6] == Itoa(nanos)[0];
    assert IsDigit(Utoa(if nanos < 0 then -nanos else nanos)[0]);
    assert name[6] != HASHED_PREFIX[6];
  }

  /** The three name spaces never meet, names identify what they were made from, and
      a template name survives postgres' identifier limit. */
  lemma NameSpaces(nanos: int, nanos': int, digest: Digest, digest': Digest)
    ensures GeneratedName(nanos) != HashedTemplate(digest)
    ensures GeneratedName(nanos) != DEFAULT_TEMPLATE
    ensures HashedTemplate(digest) != DEFAULT_TEMPLATE
    ensures GeneratedName(nanos) == GeneratedName(nanos') ==> nanos == nanos'
    ensures HashedTemplate(digest) == HashedTemplate(digest') ==> digest == digest'
    ensures |HashedTemplate(digest)| <= MAX_IDENTIFIER_BYTES
  {
    GeneratedNameIsNoTemplate(nanos);
    assert HashedTemplate(digest)[..10] == HASHED_PREFIX;
    assert HashedTemplate(digest)[7] == 'p';
    assert HashedTemplate(digest)[10..] == digest;
    assert HashedTemplate(digest')[10..] == digest';
    if GeneratedName(nanos) == GeneratedName(nanos') {
      assert GeneratedName(nanos)[6..] == Itoa(nanos);
      assert GeneratedName(nanos')[6..] == Itoa(nanos');
      ItoaInjective(nanos, nanos');
    }
  }

  /** strings.ReplaceAll(name, `"`, `""`) */
  function DoubleQuotes(name: string): string {
    if name == "" then ""
    else (if name[0] == '"' then "\"\"" else [name[0]]) + DoubleQuotes(name[1..])
  }

  function QuoteIdentifier(name: string): string {
    "\"" + DoubleQuotes(name) + "\""
  }

  /** The body of a quoted identifier after its opening quote (section 4.1.1 of the
      PostgreSQL documentation): a doubled quote stands for one quote, a single quote ends
      the identifier. Gives the identifier and what follows it. */
  function LexBody(s: string): Option<(string, string)> {
    if s == "" then None
    else if s[0] != '"' then
      match LexBody(s[1..])
      case None => None
      case Some((id, rest)) => Some(([s[0]] + id, rest))
    else if |s| >= 2 && s[1] == '"' then
      match LexBody(s[2..])
      case None => None
      case Some((id, rest)) => Some(("\"" + id, rest))
    else Some(("", s[1..]))
  }

  function LexQuoted(s: string): Option<(string, string)> {
    if s != "" && s[0] == '"' then LexBody(s[1..]) else None
  }

  lemma LexPlain(c: char, tail: string)
    requires c != '"'
    ensures LexBody([c] + tail) ==
      match LexBody(tail) { case None => None case Some((id, rest)) => Some(([c] + id, rest)) }
  {
    assert ([c] + tail)[1..] == tail;
  }

  lemma LexDoubled(tail: string)
    ensures LexBody("\"\"" + tail) ==
      match LexBody(tail) { case None => None case Some((id, rest)) => Some(("\"" + id, rest)) }
  {
    assert ("\"\"" + tail)[2..] == tail;
  }

  lemma {:induction false} LexBodyReadsBack(name: string, rest: string)
    requires rest == "" || rest[0] != '"'
    ensures LexBody(DoubleQuotes(name) + "\"" + rest) == Some((name, rest))
  {
    if name == "" {
      assert DoubleQuotes(name) + "\"" + rest == "\"" + rest;
      assert ("\"" + rest)[1..] == rest;
    } else {
      LexBodyReadsBack(name[1..], rest);
      assert name == [name[0]] + name[1..];
      var tail := DoubleQuotes(name[1..]) + "\"" + rest;
      var first := if name[0] == '"' then "\"\"" else [name[0]];
      ConcatAssociates(first, DoubleQuotes(name[1..]), "\"");
      ConcatAssociates(first, DoubleQuotes(name[1..]) + "\"", rest);
      if name[0] == '"' { LexDoubled(tail); } else { LexPlain(name[0], tail); }
    }
  }

  /** Lexing a quoted name takes exactly the quoted text and gives the name back, whatever
      characters it holds. */
  lemma QuotedNameReadsBack(name: string, rest: string)
    requires rest == "" || rest[0] != '"'
    ensures LexQuoted(QuoteIdentifier(name) + rest) == Some((name, rest))
  {
    LexBodyReadsBack(name, rest);
    assert QuoteIdentifier(name) + rest == "\"" + (DoubleQuotes(name) + "\"" + rest);
  }

  const CREATE := "create database "
  const WITH_TEMPLATE := " with template "

  function CloneStatement(name: string, template: string): string {
    CREATE + QuoteIdentifier(name) + WITH_TEMPLATE + QuoteIdentifier(template)
  }

  /** How the server reads a create statement: the name and the template it asks for. */
  function ReadClone(statement: string): Option<(string, string)> {
    if !(CREATE <= statement) then None
    else match LexQuoted(statement[|CREATE|..])
      case None => None
      case Some((name, rest)) =>
        if !(WITH_TEMPLATE <= rest) then None
        else match LexQuoted(rest[|WITH_TEMPLATE|..])
          case None => None
          case Some((template, end)) => if end == "" then Some((name, template)) else None
  }

  /** No name can change what a create statement means. */
  lemma CloneStatementReadsBack(name: string, template: string)
    ensures ReadClone(CloneStatement(name, template)) == Some((name, template))
  {
    var s := CloneStatement(name, template);
    var afterName := WITH_TEMPLATE + QuoteIdentifier(template);
    assert s == CREATE + (QuoteIdentifier(name) + afterName);
    assert s[|CREATE|..] == QuoteIdentifier(name) + afterName;
    QuotedNameReadsBack(name, afterName);
    assert afterName[|WITH_TEMPLATE|..] == QuoteIdentifier(template) + "";
    QuotedNameReadsBack(template, "");
  }

  /** The statement is the one postgres documents. */
  lemma CloneStatementIs()
    ensures CloneStatement("a", "b") == "create database \"a\" with template \"b\""
  {
    assert QuoteIdentifier("a") == "\"a\"" && QuoteIdentifier("b") == "\"b\"";
  }
}
