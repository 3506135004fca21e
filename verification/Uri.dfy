/** url.Parse as far as connection uris need it. Hosts are names or addresses without brackets;
    a bracketed IPv6 host is reported as an error. */
module Uri {
  import opened Prelude
  import opened Decimal
  import opened Encoding

  datatype Userinfo = Userinfo(name: string, pass: Option<string>)

  datatype Url = Url(user: Option<Userinfo>, host: string, path: string)

  /** strings.Cut: what is before the first c, and what is after it if there is one. */
  function CutAt(s: string, c: char): (string, Option<string>) {
    if s == "" then ("", None)
    else if s[0] == c then ("", Some(s[1..]))
    else
      var (before, after) := CutAt(s[1..], c);
      ([s[0]] + before, after)
  }

  /** strings.LastIndex of one byte */
  function LastIndex(s: string, c: char): (i: int)
    ensures -1 <= i < |s|
  {
    if s == "" then -1 else if s[|s| - 1] == c then |s| - 1 else LastIndex(s[..|s| - 1], c)
  }

  predicate IsControl(c: char) {
    c as int < 0x20 || c as int == 0x7f
  }

  predicate IsLetter(c: char) {
    'a' <= c <= 'z' || 'A' <= c <= 'Z'
  }

  /** Where the scheme ends: the index of its colon, or None when there is no scheme. */
  function SchemeEnd(s: string, i: nat): (r: Result<Option<nat>>)
    ensures r.Ok? && r.value.Some? ==> r.value.value < |s|
    decreases |s| - i
  {
    if i >= |s| then Ok(None)
    else if IsLetter(s[i]) then SchemeEnd(s, i + 1)
    else if IsDigit(s[i]) || s[i] == '+' || s[i] == '-' || s[i] == '.' then if i == 0 then Ok(None) else SchemeEnd(s, i + 1)
    else if s[i] == ':' then if i == 0 then Err("missing protocol scheme") else Ok(Some(i))
    else Ok(None)
  }

  predicate UserinfoChar(c: char) {
    || Unreserved(c) || c == ':' || c == '!' || c == '$' || c == '&' || c == '\'' || c == '(' || c == ')'
    || c == '*' || c == '+' || c == ',' || c == ';' || c == '=' || c == '%' || c == '@'
  }

  predicate ValidUserinfo(s: string) {
    forall i :: 0 <= i < |s| ==> UserinfoChar(s[i])
  }

  function ParseUserinfo(s: string): Option<Userinfo> {
    if !ValidUserinfo(s) then None
    else
      var (name, pass) := CutAt(s, ':');
      if Unescape(name).None? then None
      else match pass
        case None => Some(Userinfo(Unescape(name).value, None))
        case Some(p) =>
          if Unescape(p).None? then None else Some(Userinfo(Unescape(name).value, Some(Unescape(p).value)))
  }

  predicate HostSafe(c: char) {
    || Unreserved(c) || c == '!' || c == '$' || c == '&' || c == '\'' || c == '(' || c == ')' || c == '*'
    || c == '+' || c == ',' || c == ';' || c == '=' || c == ':' || c == '<' || c == '>' || c == '"'
  }

  /** In a host, only bytes outside ASCII and the percent sign may be percent encoded. */
  function UnescapeHost(s: string): Option<string> {
    if s == "" then Some("")
    else if s[0] == '%' then
      if |s| < 3 || HexValue(s[1]).None? || HexValue(s[2]).None? || (HexValue(s[1]).value < 8 && s[..3] != "%25") then None
      else match UnescapeHost(s[3..])
        case None => None
        case Some(rest) => Some([(16 * HexValue(s[1]).value + HexValue(s[2]).value) as char] + rest)
    else if s[0] as int < 0x80 && !HostSafe(s[0]) then None
    else match UnescapeHost(s[1..])
      case None => None
      case Some(rest) => Some([s[0]] + rest)
  }

  function ParseHost(s: string): Option<string> {
    var i := LastIndex(s, ':');
    if i >= 0 && !AllDigits(s[i + 1..]) then None else UnescapeHost(s)
  }

  /** Splits off the credentials at the last @. */
  function ParseAuthority(s: string): Option<(Option<Userinfo>, string)> {
    var i := LastIndex(s, '@');
    match ParseHost(s[i + 1..])
    case None => None
    case Some(host) =>
      if i < 0 then Some((None, host))
      else match ParseUserinfo(s[..i])
        case None => None
        case Some(user) => Some((Some(user), host))
  }

  function Assemble(authority: Option<string>, path: string): Result<Url> {
    var parsed := if authority.None? then Some((None, "")) else ParseAuthority(authority.value);
    if parsed.None? then Err("invalid authority")
    else match Unescape(path)
      case None => Err("invalid path")
      case Some(p) => Ok(Url(parsed.value.0, parsed.value.1, p))
  }

  /** Everything after the scheme and before the query. */
  function ParseRest(hasScheme: bool, rest: string): Result<Url> {
    if !("/" <= rest) && hasScheme then Ok(Url(None, "", ""))
    else if !("/" <= rest) && ':' in CutAt(rest, '/').0 then Err("first path segment in URL cannot contain colon")
    else if (hasScheme || !("///" <= rest)) && "//" <= rest then
      var (authority, path) := CutAt(rest[2..], '/');
      Assemble(Some(authority), if path.None? then "" else "/" + path.value)
    else Assemble(None, rest)
  }

  function Parse(raw: string): Result<Url> {
    var (text, fragment) := CutAt(raw, '#');
    if exists i :: 0 <= i < |text| && IsControl(text[i]) then Err("invalid control character in URL")
    else if fragment.Some? && Unescape(fragment.value).None? then Err("invalid fragment")
    else if text == "*" then Ok(Url(None, "", "*"))
    else match SchemeEnd(text, 0)
      case Err(e) => Err(e)
      case Ok(None) => ParseRest(false, CutAt(text, '?').0)
      case Ok(Some(i)) => ParseRest(true, CutAt(text[i + 1..], '?').0)
  }

  /** u.Port() */
  function Port(host: string): string {
    var i := LastIndex(host, ':');
    if i >= 0 && AllDigits(host[i + 1..]) then host[i + 1..] else ""
  }

  // ---- Parsing composed text ------------------------------------------------------------

  lemma {:induction false} CutFirst(a: string, c: char, b: string)
    requires c !in a
    ensures CutAt(a + [c] + b, c) == (a, Some(b))
  {
    var s := a + [c] + b;
    if a == "" {
      assert s[1..] == b;
    } else {
      CutFirst(a[1..], c, b);
      assert s[1..] == a[1..] + [c] + b && s[0] == a[0] && a == [a[0]] + a[1..];
    }
  }

  lemma {:induction false} CutNone(a: string, c: char)
    requires c !in a
    ensures CutAt(a, c) == (a, None)
  {
    if a != "" {
      CutNone(a[1..], c);
      assert a == [a[0]] + a[1..];
    }
  }

  lemma {:induction false} LastIndexIs(a: string, c: char, b: string)
    requires c !in b
    ensures LastIndex(a + [c] + b, c) == |a|
  {
    var s := a + [c] + b;
    if b != "" {
      assert s[|s| - 1] == b[|b| - 1] && s[..|s| - 1] == a + [c] + b[..|b| - 1];
      LastIndexIs(a, c, b[..|b| - 1]);
    }
  }

  lemma {:induction false} LastIndexNone(a: string, c: char)
    requires c !in a
    ensures LastIndex(a, c) == -1
  {
    if a != "" { LastIndexNone(a[..|a| - 1], c); }
  }

  predicate Letters(s: string) {
    s != "" && forall i :: 0 <= i < |s| ==> IsLetter(s[i])
  }

  lemma {:induction false} SchemeEndIs(scheme: string, rest: string, i: nat)
    requires Letters(scheme) && i <= |scheme|
    ensures SchemeEnd(scheme + ":" + rest, i) == Ok(Some(|scheme|))
    decreases |scheme| - i
  {
    var s := scheme + ":" + rest;
    if i < |scheme| {
      assert s[i] == scheme[i];
      SchemeEndIs(scheme, rest, i + 1);
    } else {
      assert s[i] == ':';
    }
  }

  /** Characters that neither end the text nor are refused. */
  predicate Visible(s: string) {
    forall i :: 0 <= i < |s| ==> s[i] != '#' && !IsControl(s[i])
  }

  lemma VisibleIsWhole(s: string)
    requires Visible(s)
    ensures CutAt(s, '#') == (s, None) && !exists i :: 0 <= i < |s| && IsControl(s[i])
  {
    CutNone(s, '#');
  }

  /** A query, if any, is cut off. */
  lemma QueryIsCut(a: string, query: string)
    requires '?' !in a && (query == "" || query[0] == '?')
    ensures CutAt(a + query, '?').0 == a
  {
    if query == "" {
      CutNone(a, '?');
      assert a + query == a;
    } else {
      CutFirst(a, '?', query[1..]);
      assert a + query == a + ['?'] + query[1..];
    }
  }

  /** Visible text with a scheme is what follows the scheme, up to the query. */
  lemma ParseScheme(scheme: string, rest: string, query: string)
    requires Letters(scheme) && '?' !in rest && (query == "" || query[0] == '?')
    requires Visible(scheme + ":" + (rest + query))
    ensures Parse(scheme + ":" + (rest + query)) == ParseRest(true, rest)
  {
    var raw := scheme + ":" + (rest + query);
    VisibleIsWhole(raw);
    SchemeEndIs(scheme, rest + query, 0);
    assert raw[|scheme| + 1..] == rest + query;
    QueryIsCut(rest, query);
    assert |raw| >= 2;
  }

  lemma ParseSlashes(authority: string, path: string)
    requires '/' !in authority
    ensures ParseRest(true, "//" + authority + "/" + path) == Assemble(Some(authority), "/" + path)
  {
    var rest := "//" + authority + "/" + path;
    assert rest[2..] == authority + ['/'] + path;
    CutFirst(authority, '/', path);
    assert "//" <= rest && "/" <= rest;
  }

  /** Text with a scheme, an authority and a path is taken apart at those places. */
  lemma ParseComposed(scheme: string, authority: string, path: string, query: string)
    requires Letters(scheme) && '?' !in authority && '?' !in path && '/' !in authority
    requires query == "" || query[0] == '?'
    requires Visible(scheme + ":" + ("//" + authority + "/" + path + query))
    ensures Parse(scheme + ":" + ("//" + authority + "/" + path + query)) == Assemble(Some(authority), "/" + path)
  {
    ParseScheme(scheme, "//" + authority + "/" + path, query);
    ParseSlashes(authority, path);
  }

  lemma {:induction false} PlainHostUnescapes(s: string)
    requires forall i :: 0 <= i < |s| ==> HostSafe(s[i])
    ensures UnescapeHost(s) == Some(s)
  {
    if s != "" {
      PlainHostUnescapes(s[1..]);
      assert s == [s[0]] + s[1..];
    }
  }

  /** name:port */
  lemma HostWithPort(name: string, digits: string)
    requires AllDigits(digits) && digits != ""
    requires forall i :: 0 <= i < |name| ==> HostSafe(name[i])
    ensures
      var host := name + ":" + digits;
      ParseHost(host) == Some(host) && Port(host) == digits
  {
    var host := name + ":" + digits;
    assert ':' !in digits;
    LastIndexIs(name, ':', digits);
    assert host[|name| + 1..] == digits;
    forall i | 0 <= i < |host| ensures HostSafe(host[i]) {
      if i > |name| { assert host[i] == digits[i - |name| - 1]; }
    }
    PlainHostUnescapes(host);
  }

  // ---- Connection uris ------------------------------------------------------------------

  /** [credentials@]address:digits */
  function Authority(credentials: Option<string>, address: string, digits: string): string {
    if credentials.Some? then credentials.value + "@" + (address + ":" + digits) else address + ":" + digits
  }

  /** scheme://[credentials@]address:digits/rest */
  function Text(scheme: string, credentials: Option<string>, address: string, digits: string, rest: string): string {
    scheme + ":" + ("//" + Authority(credentials, address, digits) + "/" + rest)
  }

  predicate Separators(s: string) {
    ':' !in s && '/' !in s && '@' !in s
  }

  lemma {:induction false} LacksFirst(s: string, part: string)
    requires part != "" && part[0] !in s
    ensures !Contains(s, part)
  {
    if s != "" { LacksFirst(s[1..], part); }
  }

  lemma Untouched(s: string, old_: string, new_: string)
    requires old_ != "" && old_[0] !in s
    ensures ReplaceAll(s, old_, new_) == s
  {
    LacksFirst(s, old_);
    ReplaceNothing(s, old_, new_);
  }

  lemma ReplaceWhole(old_: string, new_: string)
    requires old_ != ""
    ensures ReplaceAll(old_, old_, new_) == new_
  {
    assert old_[|old_|..] == "";
    assert new_ + "" == new_;
  }

  lemma RewriteAuthority(credentials: Option<string>, digits: string, old_: string, new_: string)
    requires old_ != "" && Separators(old_) && old_[0] !in digits
    ensures ReplaceAll(Authority(credentials, old_, digits), old_, new_) ==
      Authority(if credentials.Some? then Some(ReplaceAll(credentials.value, old_, new_)) else None, new_, digits)
  {
    ReplaceWhole(old_, new_);
    Untouched(digits, old_, new_);
    ReplaceAroundSeparator(old_, ':', digits, old_, new_);
    if credentials.Some? {
      ReplaceAroundSeparator(credentials.value, '@', old_ + ":" + digits, old_, new_);
    }
  }

  lemma RewriteAfterSlash(b: string, old_: string, new_: string)
    requires old_ != "" && Separators(old_)
    ensures ReplaceAll("/" + b, old_, new_) == "/" + ReplaceAll(b, old_, new_)
  {
    var s := "/" + b;
    assert s[0] == '/' && s[1..] == b;
    assert old_[0] in old_;
    assert !(old_ <= s);
  }

  lemma RewriteAfterSlashes(b: string, old_: string, new_: string)
    requires old_ != "" && Separators(old_)
    ensures ReplaceAll("//" + b, old_, new_) == "//" + ReplaceAll(b, old_, new_)
  {
    RewriteAfterSlash(b, old_, new_);
    RewriteAfterSlash("/" + b, old_, new_);
    ConcatAssociates("/", "/", b);
    ConcatAssociates("/", "/", ReplaceAll(b, old_, new_));
  }

  lemma SlashesAssociate(authority: string, rest: string)
    ensures "//" + (authority + "/" + rest) == "//" + authority + "/" + rest
  {
  }

  /** Everything behind the scheme. */
  lemma RewriteBehindScheme(authority: string, rest: string, old_: string, new_: string)
    requires old_ != "" && Separators(old_) && old_[0] !in rest
    ensures ReplaceAll("//" + authority + "/" + rest, old_, new_) == "//" + ReplaceAll(authority, old_, new_) + "/" + rest
  {
    Untouched(rest, old_, new_);
    ReplaceAroundSeparator(authority, '/', rest, old_, new_);
    RewriteAfterSlashes(authority + "/" + rest, old_, new_);
    SlashesAssociate(authority, rest);
    SlashesAssociate(ReplaceAll(authority, old_, new_), rest);
  }

  /** Replacing the address in a uri replaces it in the credentials too, and nowhere else. */
  lemma RewriteText(scheme: string, credentials: Option<string>, digits: string, rest: string, old_: string, new_: string)
    requires old_ != "" && Separators(old_) && old_[0] !in scheme && old_[0] !in digits && old_[0] !in rest
    ensures ReplaceAll(Text(scheme, credentials, old_, digits, rest), old_, new_) ==
      Text(scheme, if credentials.Some? then Some(ReplaceAll(credentials.value, old_, new_)) else None, new_, digits, rest)
  {
    var authority := Authority(credentials, old_, digits);
    RewriteAuthority(credentials, digits, old_, new_);
    Untouched(scheme, old_, new_);
    RewriteBehindScheme(authority, rest, old_, new_);
    ReplaceAroundSeparator(scheme, ':', "//" + authority + "/" + rest, old_, new_);
  }

  predicate CleanCredentials(s: string) {
    Visible(s) && '/' !in s && '?' !in s && ParseUserinfo(s).Some?
  }

  /** An address: a host name. */
  predicate HostName(s: string) {
    Visible(s) && Separators(s) && '?' !in s && forall i :: 0 <= i < |s| ==> HostSafe(s[i])
  }

  /** A piece of a uri's text with none of the characters that end it. */
  predicate Piece(s: string) {
    Visible(s) && '/' !in s && '?' !in s
  }

  lemma PieceConcat(a: string, c: char, b: string)
    requires Piece(a) && Piece(b) && (c == '@' || c == ':')
    ensures Piece(a + [c] + b)
  {
  }

  lemma DigitsArePiece(digits: string)
    requires AllDigits(digits)
    ensures Piece(digits) && '@' !in digits
  {
  }

  lemma AuthorityAt(s: string, i: int, credentials: string, host: string)
    requires LastIndex(s, '@') == i >= 0 && s[i + 1..] == host && s[..i] == credentials
    requires ParseHost(host) == Some(host) && ParseUserinfo(credentials).Some?
    ensures ParseAuthority(s) == Some((ParseUserinfo(credentials), host))
  {
  }

  lemma SplitsAtLast(credentials: string, host: string)
    requires '@' !in host && ParseHost(host) == Some(host) && ParseUserinfo(credentials).Some?
    ensures ParseAuthority(credentials + ['@'] + host) == Some((ParseUserinfo(credentials), host))
  {
    BothSides(credentials, '@', host);
    LastIndexIs(credentials, '@', host);
    AuthorityAt(credentials + ['@'] + host, |credentials|, credentials, host);
  }

  lemma AuthorityReadsBack(credentials: Option<string>, address: string, digits: string)
    requires HostName(address) && AllDigits(digits) && digits != ""
    requires credentials.Some? ==> CleanCredentials(credentials.value)
    ensures var authority := Authority(credentials, address, digits);
      && Piece(authority)
      && ParseAuthority(authority) ==
          Some((if credentials.Some? then ParseUserinfo(credentials.value) else None, address + ":" + digits))
  {
    var host := address + ":" + digits;
    HostWithPort(address, digits);
    DigitsArePiece(digits);
    PieceConcat(address, ':', digits);
    assert '@' !in host;
    if credentials.Some? {
      SplitsAtLast(credentials.value, host);
      PieceConcat(credentials.value, '@', host);
    } else {
      LastIndexNone(host, '@');
      assert host[0..] == host;
    }
  }

  lemma {:induction false} PlainUnescapes(s: seq<Byte>)
    requires '%' !in s
    ensures Unescape(s) == Some(s)
  {
    if s != [] {
      PlainUnescapes(s[1..]);
      assert s == [s[0]] + s[1..];
    }
  }

  /** A name that is its own encoding. */
  predicate PlainName(name: string) {
    forall i :: 0 <= i < |name| ==> Unreserved(name[i])
  }

  predicate QueryText(query: string) {
    Visible(query) && (query == "" || query[0] == '?')
  }

  lemma VisibleParts(scheme: string, authority: string, name: string, query: string)
    requires Visible(scheme) && Visible(authority) && Visible(name) && Visible(query)
    ensures Visible(scheme + ":" + ("//" + authority + "/" + name + query))
  {
  }

  lemma PlainNameReadsBack(name: string)
    requires PlainName(name)
    ensures Unescape("/" + name) == Some("/" + name)
    ensures Visible(name) && '?' !in name
  {
    var path: seq<Byte> := "/" + name;
    PlainUnescapes(path);
  }

  lemma LettersAreVisible(s: string)
    requires Letters(s)
    ensures Visible(s)
  {
  }

  /** A uri is taken apart where it was put together. */
  lemma TextReadsBack(scheme: string, credentials: Option<string>, address: string, digits: string, name: string, query: string)
    requires Letters(scheme) && HostName(address) && AllDigits(digits) && digits != "" && PlainName(name) && QueryText(query)
    requires credentials.Some? ==> CleanCredentials(credentials.value)
    ensures Parse(Text(scheme, credentials, address, digits, name + query)) ==
      Ok(Url(if credentials.Some? then ParseUserinfo(credentials.value) else None, address + ":" + digits, "/" + name))
  {
    var authority := Authority(credentials, address, digits);
    AuthorityReadsBack(credentials, address, digits);
    PlainNameReadsBack(name);
    LettersAreVisible(scheme);
    VisibleParts(scheme, authority, name, query);
    SameText(scheme, authority, name, query);
    ParseComposed(scheme, authority, name, query);
  }

  lemma SameText(scheme: string, authority: string, name: string, query: string)
    ensures scheme + ":" + ("//" + authority + "/" + (name + query)) == scheme + ":" + ("//" + authority + "/" + name + query)
  {
    assert "//" + authority + "/" + (name + query) == "//" + authority + "/" + name + query;
  }

  // ---- Scheme, query, and hosts without a port ------------------------------------------

  /** A uri shows the scheme it was composed with, and its query is what follows the question mark. */
  lemma TextShows(scheme: string, credentials: Option<string>, address: string, digits: string, name: string, query: string)
    requires Letters(scheme) && HostName(address) && AllDigits(digits) && digits != "" && PlainName(name) && QueryText(query)
    requires credentials.Some? ==> CleanCredentials(credentials.value)
    ensures var uri := Text(scheme, credentials, address, digits, name + query);
      && SchemeEnd(uri, 0) == Ok(Some(|scheme|)) && uri[..|scheme|] == scheme
      && CutAt(uri, '?').1 == if query == "" then None else Some(query[1..])
  {
    var authority := Authority(credentials, address, digits);
    var rest := "//" + authority + "/" + name;
    assert '?' !in rest by {
      AuthorityReadsBack(credentials, address, digits);
      PlainNameReadsBack(name);
      NoQueryIn(authority, name);
    }
    SameText(scheme, authority, name, query);
    SchemeEndIs(scheme, rest + query, 0);
    SchemeFirst(scheme, rest + query);
    QueryShows(scheme, rest, query);
  }

  lemma SchemeFirst(scheme: string, rest: string)
    ensures (scheme + ":" + rest)[..|scheme|] == scheme
  {
  }

  lemma NoQueryIn(authority: string, name: string)
    requires Piece(authority) && '?' !in name
    ensures '?' !in "//" + authority + "/" + name
  {
  }

  lemma QueryShows(scheme: string, rest: string, query: string)
    requires Letters(scheme) && '?' !in rest && (query == "" || query[0] == '?')
    ensures CutAt(scheme + ":" + (rest + query), '?').1 == if query == "" then None else Some(query[1..])
  {
    var front := scheme + ":" + rest;
    assert '?' !in scheme && '?' !in front;
    ConcatAssociates(scheme + ":", rest, query);
    if query == "" {
      assert front + query == front;
      CutNone(front, '?');
    } else {
      assert front + query == front + ['?'] + query[1..];
      CutFirst(front, '?', query[1..]);
    }
  }

  /** scheme://[credentials@]address/rest */
  function PortlessText(scheme: string, credentials: Option<string>, address: string, rest: string): string {
    scheme + ":" + ("//" + PortlessAuthority(credentials, address) + "/" + rest)
  }

  function PortlessAuthority(credentials: Option<string>, address: string): string {
    if credentials.Some? then credentials.value + "@" + address else address
  }

  lemma HostWithoutPort(address: string)
    requires HostName(address)
    ensures ParseHost(address) == Some(address) && Port(address) == ""
  {
    assert LastIndex(address, ':') == -1 by { LastIndexNone(address, ':'); }
    assert UnescapeHost(address) == Some(address) by { PlainHostUnescapes(address); }
    NoColon(address);
  }

  lemma NoColon(s: string)
    requires LastIndex(s, ':') == -1 && UnescapeHost(s) == Some(s)
    ensures ParseHost(s) == Some(s) && Port(s) == ""
  {
  }

  lemma PortlessAuthorityReadsBack(credentials: Option<string>, address: string)
    requires HostName(address) && (credentials.Some? ==> CleanCredentials(credentials.value))
    ensures var authority := PortlessAuthority(credentials, address);
      && Piece(authority)
      && ParseAuthority(authority) == Some((if credentials.Some? then ParseUserinfo(credentials.value) else None, address))
  {
    HostWithoutPort(address);
    if credentials.Some? {
      SplitsAtLast(credentials.value, address);
      PieceConcat(credentials.value, '@', address);
    } else {
      LastIndexNone(address, '@');
      assert address[0..] == address;
    }
  }

  lemma PortlessReadsBack(scheme: string, credentials: Option<string>, address: string, name: string)
    requires Letters(scheme) && HostName(address) && PlainName(name)
    requires credentials.Some? ==> CleanCredentials(credentials.value)
    ensures Parse(PortlessText(scheme, credentials, address, name + "")) ==
      Ok(Url(if credentials.Some? then ParseUserinfo(credentials.value) else None, address, "/" + name))
  {
    var authority := PortlessAuthority(credentials, address);
    PortlessAuthorityReadsBack(credentials, address);
    PlainNameReadsBack(name);
    LettersAreVisible(scheme);
    VisibleParts(scheme, authority, name, "");
    SameText(scheme, authority, name, "");
    ParseComposed(scheme, authority, name, "");
  }
}
