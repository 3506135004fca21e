/** Redis fixture files (internal/database/redis/fixtures.go): a quote automaton inside a line
    splitter. Text is a sequence of runes. */
module Tokenizer {
  import opened Prelude
  import opened RedisAllocator
  import opened Splitting

  /** unicode.IsSpace */
  predicate IsSpace(c: char) {
    var n := c as int;
    || 9 <= n <= 13 || n == 0x20 || n == 0x85 || n == 0xA0 || n == 0x1680 || 0x2000 <= n <= 0x200A
    || n == 0x2028 || n == 0x2029 || n == 0x202F || n == 0x205F || n == 0x3000
  }

  predicate IsQuote(c: char) {
    c == '\'' || c == '"'
  }

  /** The variables of splitCommand's loop. */
  datatype Scan = Scan(args: seq<string>, current: string, quote: Option<char>, started: bool)

  const START := Scan([], "", None, false)

  function Feed(s: Scan, c: char): Scan {
    if s.quote.Some? then
      if c == s.quote.value then s.(quote := None) else s.(current := s.current + [c])
    else if IsQuote(c) then s.(quote := Some(c), started := true)
    else if IsSpace(c) then
      if s.started then s.(args := s.args + [s.current], current := "", started := false) else s
    else s.(current := s.current + [c], started := true)
  }

  function FeedAll(s: Scan, line: string): Scan {
    if line == "" then s else Feed(FeedAll(s, line[..|line| - 1]), line[|line| - 1])
  }

  function Finish(s: Scan): Result<seq<string>> {
    if s.quote.Some? then Err("unbalanced quote")
    else Ok(if s.started then s.args + [s.current] else s.args)
  }

  /** The arguments of a command line. */
  function Split(line: string): Result<seq<string>> {
    Finish(FeedAll(START, line))
  }

  method SplitCommand(line: string) returns (r: Result<seq<string>>)
    ensures r == Split(line)
  {
    var args: seq<string>, current, quote: Option<char>, started := [], "", None, false;
    for i := 0 to |line|
      invariant Scan(args, current, quote, started) == FeedAll(START, line[..i])
    {
      var c := line[i];
      assert line[..i + 1][..i] == line[..i];
      if quote.Some? {
        if c == quote.value { quote := None; } else { current := current + [c]; }
      } else if IsQuote(c) {
        quote, started := Some(c), true;
      } else if IsSpace(c) {
        if started {
          args, current, started := args + [current], "", false;
        }
      } else {
        current, started := current + [c], true;
      }
    }
    assert line[..|line|] == line;
    if quote.Some? { return Err("unbalanced quote"); }
    if started { args := args + [current]; }
    return Ok(args);
  }

  /** The quote a reader who looks at quotes only is inside of at the end of a line. */
  function QuoteAfter(line: string): Option<char> {
    if line == "" then None
    else
      var c := line[|line| - 1];
      match QuoteAfter(line[..|line| - 1])
      case None => if IsQuote(c) then Some(c) else None
      case Some(q) => if c == q then None else Some(q)
  }

  lemma {:induction false} ScanTracksQuote(line: string)
    ensures FeedAll(START, line).quote == QuoteAfter(line)
  {
    if line != "" { ScanTracksQuote(line[..|line| - 1]); }
  }

  /** splitCommand fails exactly when the line ends inside a quote. */
  lemma SplitFailsIff(line: string)
    ensures Split(line).Err? <==> QuoteAfter(line).Some?
  {
    ScanTracksQuote(line);
  }

  lemma {:induction false} FeedConcat(s: Scan, a: string, b: string)
    ensures FeedAll(s, a + b) == FeedAll(FeedAll(s, a), b)
  {
    if b == "" {
      assert a + b == a;
    } else {
      FeedConcat(s, a, b[..|b| - 1]);
      assert (a + b)[..|a + b| - 1] == a + b[..|b| - 1];
    }
  }

  /** Arguments that are complete do not influence what follows. */
  lemma {:induction false} FeedAfterArgs(done: seq<string>, s: Scan, line: string)
    ensures FeedAll(s.(args := done + s.args), line) == FeedAll(s, line).(args := done + FeedAll(s, line).args)
  {
    if line != "" {
      FeedAfterArgs(done, s, line[..|line| - 1]);
      var t := FeedAll(s, line[..|line| - 1]);
      assert done + (t.args + [t.current]) == (done + t.args) + [t.current];
    }
  }

  /** Outside quotes, white space separates: what is on its left and on its right is split
      independently. */
  lemma SplitAtSpace(a: string, space: char, b: string)
    requires QuoteAfter(a).None? && IsSpace(space)
    ensures Split(a).Ok?
    ensures Split(a + [space] + b) ==
      match Split(b) { case Err(e) => Err(e) case Ok(args) => Ok(Split(a).value + args) }
  {
    FeedSpace(a, space);
    FeedConcat(START, a + [space], b);
    FinishAfterArgs(Split(a).value, b);
  }

  /** White space outside quotes leaves nothing behind but complete arguments. */
  lemma FeedSpace(a: string, space: char)
    requires QuoteAfter(a).None? && IsSpace(space)
    ensures Split(a).Ok? && FeedAll(START, a + [space]) == START.(args := Split(a).value)
  {
    ScanTracksQuote(a);
    CurrentEmptyUnlessStarted(a);
    assert (a + [space])[..|a|] == a;
  }

  lemma FinishAfterArgs(done: seq<string>, line: string)
    ensures Finish(FeedAll(START.(args := done), line)) ==
      match Split(line) { case Err(e) => Err(e) case Ok(args) => Ok(done + args) }
  {
    FeedAfterArgs(done, START, line);
    assert done + START.args == done;
    var t := FeedAll(START, line);
    ConcatAssociates(done, t.args, [t.current]);
  }

  lemma {:induction false} CurrentEmptyUnlessStarted(line: string)
    ensures var t := FeedAll(START, line); t.started || (t.current == "" && t.quote.None?)
  {
    if line != "" { CurrentEmptyUnlessStarted(line[..|line| - 1]); }
  }

  function TrimLeft(s: string): string {
    if s != "" && IsSpace(s[0]) then TrimLeft(s[1..]) else s
  }

  function TrimRight(s: string): string {
    if s != "" && IsSpace(s[|s| - 1]) then TrimRight(s[..|s| - 1]) else s
  }

  /** strings.TrimSpace */
  function Trim(s: string): string {
    TrimRight(TrimLeft(s))
  }

  lemma {:induction false} SplitIgnoresLeading(line: string)
    ensures Split(TrimLeft(line)) == Split(line)
  {
    if line != "" && IsSpace(line[0]) {
      SplitIgnoresLeading(line[1..]);
      assert line == [line[0]] + line[1..];
      FeedConcat(START, [line[0]], line[1..]);
      assert [line[0]][..0] == "";
      assert FeedAll(START, [line[0]]) == Feed(START, line[0]);
    }
  }

  lemma {:induction false} OpenQuoteIsAQuote(line: string)
    ensures QuoteAfter(line).Some? ==> IsQuote(QuoteAfter(line).value)
  {
    if line != "" { OpenQuoteIsAQuote(line[..|line| - 1]); }
  }

  lemma {:induction false} SplitIgnoresTrailing(line: string)
    ensures Split(TrimRight(line)) == Split(line)
  {
    if line != "" && IsSpace(line[|line| - 1]) {
      SplitIgnoresTrailing(line[..|line| - 1]);
      ScanTracksQuote(line[..|line| - 1]);
      OpenQuoteIsAQuote(line[..|line| - 1]);
    }
  }

  /** Trimming a line changes neither its arguments nor whether it is an error. */
  lemma SplitIgnoresTrim(line: string)
    ensures Split(Trim(line)) == Split(line)
  {
    SplitIgnoresLeading(line);
    SplitIgnoresTrailing(TrimLeft(line));
  }

  predicate AllSpace(s: string) {
    forall i :: 0 <= i < |s| ==> IsSpace(s[i])
  }

  lemma {:induction false} NothingScannedIff(line: string)
    ensures var t := FeedAll(START, line); (t.args == [] && !t.started) <==> AllSpace(line)
  {
    if line != "" {
      var front := line[..|line| - 1];
      NothingScannedIff(front);
      CurrentEmptyUnlessStarted(front);
      assert line == front + [line[|line| - 1]];
      assert AllSpace(line) <==> AllSpace(front) && IsSpace(line[|line| - 1]);
    }
  }

  /** A line yields no argument exactly when it is blank, so a line that survives trimming and
      parses is always a command. */
  lemma NoArgumentsIff(line: string)
    ensures Split(line) == Ok([]) <==> AllSpace(line)
  {
    NothingScannedIff(line);
    CurrentEmptyUnlessStarted(line);
  }

  /** Text without quotes and white space goes to the argument that is being read. */
  lemma {:induction false} FeedPlain(s: Scan, word: string)
    requires s.quote.None? && forall i :: 0 <= i < |word| ==> !IsQuote(word[i]) && !IsSpace(word[i])
    ensures FeedAll(s, word) == s.(current := s.current + word, started := s.started || word != "")
  {
    if word == "" {
      assert s.current + word == s.current;
    } else {
      FeedPlain(s, word[..|word| - 1]);
      assert s.current + word[..|word| - 1] + [word[|word| - 1]] == s.current + word;
    }
  }

  /** So does everything between two quotes of one kind, quotes of the other kind included. */
  lemma FeedQuoted(s: Scan, q: char, text: string)
    requires s.quote.None? && IsQuote(q) && q !in text
    ensures FeedAll(s, [q] + text + [q]) == s.(current := s.current + text, started := true)
  {
    var open := s.(quote := Some(q), started := true);
    assert [q][..0] == "";
    assert FeedAll(s, [q]) == Feed(s, q) == open;
    FeedConcat(s, [q] + text, [q]);
    FeedConcat(s, [q], text);
    FeedInside(open, q, text);
    assert FeedAll(FeedAll(open, text), [q]) == Feed(FeedAll(open, text), q);
  }

  lemma {:induction false} FeedInside(s: Scan, q: char, text: string)
    requires s.quote == Some(q) && q !in text
    ensures FeedAll(s, text) == s.(current := s.current + text)
  {
    if text == "" {
      assert s.current + text == s.current;
    } else {
      FeedInside(s, q, text[..|text| - 1]);
      assert s.current + text[..|text| - 1] + [text[|text| - 1]] == s.current + text;
    }
  }

  /** A word is one argument; with SplitAtSpace, so is every word of a line. */
  lemma SplitWord(word: string)
    requires word != "" && forall i :: 0 <= i < |word| ==> !IsQuote(word[i]) && !IsSpace(word[i])
    ensures Split(word) == Ok([word]) && QuoteAfter(word).None?
  {
    FeedPlain(START, word);
    assert "" + word == word;
    var none: seq<string> := [];
    assert none + [word] == [word];
    ScanTracksQuote(word);
  }

  /** Which bytes are white space. */
  lemma SpacesAre(c: char)
    ensures IsSpace(c) && c as int < 0x80 <==> c in "\t\n\U{0B}\U{0C}\r "
    ensures IsSpace(c) && 0x80 <= c as int < 0x100 <==> c in "\U{85}\U{A0}"
  {
  }

  // ---- Files ----------------------------------------------------------------------------

  function Lines(content: string): seq<string> {
    SplitOn(content, '\n')
  }

  function LineActions(line: string): seq<Action> {
    var t := Trim(line);
    if t == "" || t[0] == '#' then []
    else match Split(t)
      case Err(_) => [Malformed]
      case Ok(args) => if args == [] then [] else [Command(args)]
  }

  function LinesActions(lines: seq<string>): seq<Action> {
    if lines == [] then [] else LinesActions(lines[..|lines| - 1]) + LineActions(lines[|lines| - 1])
  }

  /** What a command file asks for, line by line. */
  function FileActions(content: string): seq<Action> {
    LinesActions(Lines(content))
  }

  lemma {:induction false} LinesActionsConcat(a: seq<string>, b: seq<string>)
    ensures LinesActions(a + b) == LinesActions(a) + LinesActions(b)
  {
    if b == [] {
      assert a + b == a;
    } else {
      var front, last := b[..|b| - 1], b[|b| - 1];
      LinesActionsConcat(a, front);
      assert (a + b)[..|a + b| - 1] == a + front && (a + b)[|a + b| - 1] == last;
      ConcatAssociates(LinesActions(a), LinesActions(front), LineActions(last));
    }
  }

  /** Putting two files one below the other does one's work and then the other's. */
  lemma FileActionsConcat(a: string, b: string)
    ensures FileActions(a + "\n" + b) == FileActions(a) + FileActions(b)
  {
    SplitConcat(a, b, '\n');
    LinesActionsConcat(Lines(a), Lines(b));
  }

  /** A line of white space does nothing. */
  lemma BlankLine(line: string)
    requires AllSpace(line)
    ensures LineActions(line) == []
  {
    TrimLeftBlank(line);
  }

  lemma {:induction false} TrimLeftBlank(line: string)
    requires AllSpace(line)
    ensures TrimLeft(line) == ""
  {
    if line != "" { TrimLeftBlank(line[1..]); }
  }

  /** Nor does a line whose first character other than white space is #, whatever follows it. */
  lemma CommentLine(space: string, rest: string)
    requires AllSpace(space)
    ensures LineActions(space + "#" + rest) == []
  {
    TrimLeftSpace(space, "#" + rest);
    assert space + "#" + rest == space + ("#" + rest);
    TrimRightKeeps('#', rest);
  }

  lemma {:induction false} TrimLeftSpace(space: string, rest: string)
    requires AllSpace(space)
    ensures TrimLeft(space + rest) == TrimLeft(rest)
  {
    if space == "" {
      assert space + rest == rest;
    } else {
      TrimLeftSpace(space[1..], rest);
      assert (space + rest)[1..] == space[1..] + rest;
    }
  }

  lemma {:induction false} TrimRightKeeps(c: char, rest: string)
    requires !IsSpace(c)
    ensures [c] <= TrimRight([c] + rest)
    decreases |rest|
  {
    if rest != "" {
      TrimRightKeeps(c, rest[..|rest| - 1]);
      assert ([c] + rest)[..|[c] + rest| - 1] == [c] + rest[..|rest| - 1];
    }
  }

  /** A line that does nothing may stand anywhere in a file. */
  lemma IdleLine(a: string, line: string, b: string)
    requires '\n' !in line && LineActions(line) == []
    ensures FileActions(a + "\n" + line + "\n" + b) == FileActions(a) + FileActions(b)
  {
    assert FileActions(line) == [] by {
      SplitSingle(line, '\n');
      OneLineFile(line);
    }
    FileActionsConcat(a, line);
    NothingMore(FileActions(a));
    FileActionsConcat(a + "\n" + line, b);
  }

  lemma NothingMore(actions: seq<Action>)
    ensures actions + [] == actions
  {
  }

  /** Comments, indented or not, and blank lines are skipped. */
  lemma CommentsAreSkipped(a: string, space: string, comment: string, b: string)
    requires AllSpace(space) && '\n' !in space && '\n' !in comment
    ensures FileActions(a + "\n" + (space + "#" + comment) + "\n" + b) == FileActions(a) + FileActions(b)
    ensures FileActions(a + "\n" + space + "\n" + b) == FileActions(a) + FileActions(b)
  {
    CommentLine(space, comment);
    IdleLine(a, space + "#" + comment, b);
    BlankLine(space);
    IdleLine(a, space, b);
  }

  /** Any other line that splits is the command it spells, and one that does not is an error. */
  lemma OtherLines(line: string)
    requires !AllSpace(line) && !("#" <= TrimLeft(line))
    ensures LineActions(line) == match Split(line) { case Err(_) => [Malformed] case Ok(args) => [Command(args)] }
  {
    SplitIgnoresTrim(line);
    NoArgumentsIff(line);
    TrimStarts(TrimLeft(line));
    NoArgumentsIff(Trim(line));
  }

  lemma {:induction false} TrimStarts(s: string)
    ensures TrimRight(s) <= s
  {
    if s != "" { TrimStarts(s[..|s| - 1]); }
  }

  // ---- Running a file over a connection -------------------------------------------------

  /** Runs actions until one fails: what is left in the keyspace, and whether all went through. */
  function Progress(env: Env, keys: Keyspace, actions: seq<Action>): (Keyspace, bool) {
    if actions == [] then (keys, true)
    else
      var (before, ok) := Progress(env, keys, actions[..|actions| - 1]);
      var a := actions[|actions| - 1];
      if !ok || a.Malformed? then (before, false) else env.exec(before, a)
  }

  /** A connection to one database. */
  class Conn {
    const env: Env
    var keys: Keyspace

    constructor (env: Env, keys: Keyspace)
      ensures this.env == env && this.keys == keys
    {
      this.env := env;
      this.keys := keys;
    }

    method Do(a: Action) returns (ok: bool)
      modifies this
      ensures (keys, ok) == env.exec(old(keys), a)
    {
      var (keys', ok') := env.exec(keys, a);
      keys := keys';
      return ok';
    }
  }

  lemma ProgressNext(env: Env, keys: Keyspace, actions: seq<Action>, a: Action)
    ensures Progress(env, keys, actions + [a]) ==
      var (before, ok) := Progress(env, keys, actions);
      if !ok || a.Malformed? then (before, false) else env.exec(before, a)
  {
    assert (actions + [a])[..|actions|] == actions;
  }

  /** Once an action failed, nothing after it runs. */
  lemma {:induction false} ProgressStops(env: Env, keys: Keyspace, actions: seq<Action>, rest: seq<Action>)
    requires !Progress(env, keys, actions).1
    ensures Progress(env, keys, actions + rest) == Progress(env, keys, actions)
  {
    if rest == [] {
      assert actions + rest == actions;
    } else {
      ProgressStops(env, keys, actions, rest[..|rest| - 1]);
      assert (actions + rest)[..|actions + rest| - 1] == actions + rest[..|rest| - 1];
    }
  }

  lemma {:induction false} ProgressIsRun(env: Env, keys: Keyspace, actions: seq<Action>)
    ensures var (after, ok) := Progress(env, keys, actions);
      RunActions(env, keys, actions) == if ok then Some(after) else None
  {
    if actions != [] { ProgressIsRun(env, keys, actions[..|actions| - 1]); }
  }

  lemma LinesNext(lines: seq<string>, i: nat)
    requires i < |lines|
    ensures LinesActions(lines[..i + 1]) == LinesActions(lines[..i]) + LineActions(lines[i])
  {
    assert lines[..i + 1][..i] == lines[..i];
  }

  lemma LinesStop(env: Env, keys: Keyspace, lines: seq<string>, k: nat)
    requires k <= |lines| && !Progress(env, keys, LinesActions(lines[..k])).1
    ensures Progress(env, keys, LinesActions(lines)) == Progress(env, keys, LinesActions(lines[..k]))
  {
    assert lines == lines[..k] + lines[k..];
    LinesActionsConcat(lines[..k], lines[k..]);
    ProgressStops(env, keys, LinesActions(lines[..k]), LinesActions(lines[k..]));
  }

  /** One line of applyCommands. */
  method ApplyLine(conn: Conn, text: string, ghost keys: Keyspace, ghost done: seq<Action>) returns (ok: bool)
    requires (conn.keys, true) == Progress(conn.env, keys, done)
    modifies conn
    ensures (conn.keys, ok) == Progress(conn.env, keys, done + LineActions(text))
  {
    assert done + [] == done;
    var line := Trim(text);
    if line == "" || line[0] == '#' { return true; }
    var split := SplitCommand(line);
    if split.Err? {
      ProgressNext(conn.env, keys, done, Malformed);
      return false;
    }
    if split.value == [] { return true; }
    ProgressNext(conn.env, keys, done, Command(split.value));
    ok := conn.Do(Command(split.value));
  }

  /** applyCommands */
  method ApplyCommands(conn: Conn, content: string) returns (ok: bool)
    modifies conn
    ensures (conn.keys, ok) == Progress(conn.env, old(conn.keys), FileActions(content))
  {
    var lines := Lines(content);
    for i := 0 to |lines|
      invariant (conn.keys, true) == Progress(conn.env, old(conn.keys), LinesActions(lines[..i]))
    {
      LinesNext(lines, i);
      var done := ApplyLine(conn, lines[i], old(conn.keys), LinesActions(lines[..i]));
      if !done {
        LinesStop(conn.env, old(conn.keys), lines, i + 1);
        return false;
      }
    }
    assert lines[..|lines|] == lines;
    return true;
  }

  // ---- A printer the tokenizer undoes ---------------------------------------------------

  function QuoteChar(c: char): string {
    if c == '"' then "'\"'" else "\"" + [c] + "\""
  }

  function QuoteChars(arg: string): string {
    if arg == "" then "" else QuoteChars(arg[..|arg| - 1]) + QuoteChar(arg[|arg| - 1])
  }

  /** An argument as quoted text; pieces in different quotes join up. */
  function PrintArg(arg: string): string {
    "\"\"" + QuoteChars(arg)
  }

  function PrintCommand(args: seq<string>): string {
    if args == [] then ""
    else if |args| == 1 then PrintArg(args[0])
    else PrintCommand(args[..|args| - 1]) + " " + PrintArg(args[|args| - 1])
  }

  function PrintFile(commands: seq<seq<string>>): string {
    if commands == [] then ""
    else if |commands| == 1 then PrintCommand(commands[0])
    else PrintFile(commands[..|commands| - 1]) + "\n" + PrintCommand(commands[|commands| - 1])
  }

  lemma FeedQuoteChar(s: Scan, c: char)
    requires s.quote.None? && s.started
    ensures FeedAll(s, QuoteChar(c)) == s.(current := s.current + [c])
  {
    var q := QuoteChar(c);
    assert q[..2][..1] == q[..1] && q[..1][..0] == "" && q[..3] == q;
    assert FeedAll(s, q[..1]) == Feed(s, q[0]);
    assert FeedAll(s, q[..2]) == Feed(FeedAll(s, q[..1]), q[1]);
  }

  lemma {:induction false} FeedQuoteChars(s: Scan, arg: string)
    requires s.quote.None? && s.started
    ensures FeedAll(s, QuoteChars(arg)) == s.(current := s.current + arg)
  {
    if arg == "" {
      assert s.current + arg == s.current;
    } else {
      var front := arg[..|arg| - 1];
      FeedQuoteChars(s, front);
      FeedConcat(s, QuoteChars(front), QuoteChar(arg[|arg| - 1]));
      FeedQuoteChar(FeedAll(s, QuoteChars(front)), arg[|arg| - 1]);
      assert s.current + front + [arg[|arg| - 1]] == s.current + arg;
    }
  }

  lemma SplitPrintedArg(arg: string)
    ensures Split(PrintArg(arg)) == Ok([arg]) && QuoteAfter(PrintArg(arg)).None?
  {
    var open := "\"\"";
    assert open[..1][..0] == "" && open[..2] == open;
    assert FeedAll(START, open[..1]) == Feed(START, '"');
    assert FeedAll(START, open) == START.(started := true);
    FeedConcat(START, open, QuoteChars(arg));
    FeedQuoteChars(START.(started := true), arg);
    assert "" + arg == arg;
    var none: seq<string> := [];
    assert FeedAll(START, PrintArg(arg)) == Scan(none, arg, None, true) && none + [arg] == [arg];
    ScanTracksQuote(PrintArg(arg));
  }

  lemma SplitAppendArg(p: string, args: seq<string>, q: string, arg: string)
    requires QuoteAfter(p).None? && Split(p) == Ok(args) && Split(q) == Ok([arg])
    ensures Split(p + " " + q) == Ok(args + [arg])
  {
    SplitAtSpace(p, ' ', q);
  }

  /** Every non-empty list of arguments, whatever characters they hold, has a line that splits
      back into it. */
  lemma {:induction false} SplitPrintedCommand(args: seq<string>)
    requires args != []
    ensures Split(PrintCommand(args)) == Ok(args) && QuoteAfter(PrintCommand(args)).None?
  {
    var front, last := args[..|args| - 1], args[|args| - 1];
    assert args == front + [last];
    SplitPrintedArg(last);
    if |args| > 1 {
      SplitPrintedCommand(front);
      SplitAppendArg(PrintCommand(front), front, PrintArg(last), last);
    }
    SplitFailsIff(PrintCommand(args));
  }

  predicate OneLine(s: string) {
    forall i :: 0 <= i < |s| ==> s[i] != '\n'
  }

  /** A command that fits on one line of a fixture file. */
  predicate Printable(args: seq<string>) {
    args != [] && forall i :: 0 <= i < |args| ==> OneLine(args[i])
  }

  predicate Quoted(p: string) {
    OneLine(p) && |p| >= 2 && IsQuote(p[0]) && IsQuote(p[|p| - 1])
  }

  lemma QuoteCharShape(c: char)
    requires c != '\n'
    ensures var q := QuoteChar(c); OneLine(q) && |q| == 3 && IsQuote(q[2])
  {
  }

  lemma {:induction false} QuoteCharsShape(arg: string)
    requires OneLine(arg)
    ensures var q := QuoteChars(arg); OneLine(q) && (q != "" ==> IsQuote(q[|q| - 1]))
  {
    if arg != "" {
      QuoteCharsShape(arg[..|arg| - 1]);
      QuoteCharShape(arg[|arg| - 1]);
    }
  }

  lemma PrintedArgShape(arg: string)
    requires OneLine(arg)
    ensures Quoted(PrintArg(arg))
  {
    QuoteCharsShape(arg);
  }

  lemma QuotedConcat(a: string, b: string)
    requires Quoted(a) && Quoted(b)
    ensures Quoted(a + " " + b)
  {
  }

  /** A printed command is one line that starts and ends with a quote. */
  lemma {:induction false} PrintedShape(args: seq<string>)
    requires Printable(args)
    ensures Quoted(PrintCommand(args))
  {
    PrintedArgShape(args[|args| - 1]);
    if |args| > 1 {
      PrintedShape(args[..|args| - 1]);
      QuotedConcat(PrintCommand(args[..|args| - 1]), PrintArg(args[|args| - 1]));
    }
  }

  lemma QuotedIsTrimmed(p: string)
    requires Quoted(p)
    ensures Trim(p) == p
  {
    assert !IsSpace(p[0]) && !IsSpace(p[|p| - 1]);
    assert TrimLeft(p) == p;
  }

  lemma OneLineFile(p: string)
    requires Lines(p) == [p]
    ensures FileActions(p) == LineActions(p)
  {
    assert [p][..0] == [];
    assert LinesActions([p]) == LinesActions([]) + LineActions(p);
  }

  lemma CommandLine(p: string, args: seq<string>)
    requires Trim(p) == p && p != "" && p[0] != '#' && Split(p) == Ok(args) && args != []
    ensures LineActions(p) == [Command(args)]
  {
  }

  lemma PrintedLineActions(args: seq<string>)
    requires Printable(args)
    ensures FileActions(PrintCommand(args)) == [Command(args)]
  {
    var p := PrintCommand(args);
    PrintedShape(args);
    SplitPrintedCommand(args);
    SplitSingle(p, '\n');
    QuotedIsTrimmed(p);
    CommandLine(p, args);
    OneLineFile(p);
  }

  function AsActions(commands: seq<seq<string>>): seq<Action> {
    seq(|commands|, i requires 0 <= i < |commands| => Command(commands[i]))
  }

  /** Printing commands one per line and reading the file issues exactly those commands in that
      order: empty arguments, spaces, both kinds of quotes and a leading # included. */
  lemma {:induction false} PrintedFileActions(commands: seq<seq<string>>)
    requires forall i :: 0 <= i < |commands| ==> Printable(commands[i])
    ensures FileActions(PrintFile(commands)) == AsActions(commands)
  {
    if commands == [] {
      OneLineFile("");
    } else {
      var front, last := commands[..|commands| - 1], commands[|commands| - 1];
      PrintedLineActions(last);
      AsActionsSnoc(commands);
      if |commands| > 1 {
        PrintedFileActions(front);
        FileActionsConcat(PrintFile(front), PrintCommand(last));
      }
    }
  }

  lemma AsActionsSnoc(commands: seq<seq<string>>)
    requires commands != []
    ensures AsActions(commands) == AsActions(commands[..|commands| - 1]) + [Command(commands[|commands| - 1])]
  {
  }

  // ---- All fixture files ----------------------------------------------------------------

  datatype Fixture = Fixture(lua: bool, content: string)

  function OneFixtureActions(f: Fixture): seq<Action> {
    if f.lua then [Script(f.content)] else FileActions(f.content)
  }

  function FixtureActions(files: seq<Fixture>): seq<Action> {
    if files == [] then [] else FixtureActions(files[..|files| - 1]) + OneFixtureActions(files[|files| - 1])
  }

  /** A script is run as a whole, a command file line by line. */
  lemma OneFixture(content: string)
    ensures FixtureActions([Fixture(true, content)]) == [Script(content)]
    ensures FixtureActions([Fixture(false, content)]) == FileActions(content)
  {
    FixturesNext([], Fixture(true, content));
    FixturesNext([], Fixture(false, content));
    assert [] + [Fixture(true, content)] == [Fixture(true, content)];
    assert [] + [Fixture(false, content)] == [Fixture(false, content)];
  }

  lemma FixturesNext(files: seq<Fixture>, f: Fixture)
    ensures FixtureActions(files + [f]) == FixtureActions(files) + OneFixtureActions(f)
  {
    assert (files + [f])[..|files|] == files;
  }

  /** Files are loaded one after the other, in the order they are given. */
  lemma {:induction false} FixturesInOrder(a: seq<Fixture>, b: seq<Fixture>)
    ensures FixtureActions(a + b) == FixtureActions(a) + FixtureActions(b)
  {
    if b == [] {
      assert a + b == a;
    } else {
      var front, last := b[..|b| - 1], b[|b| - 1];
      FixturesInOrder(a, front);
      assert (a + b)[..|a + b| - 1] == a + front && (a + b)[|a + b| - 1] == last;
      ConcatAssociates(FixtureActions(a), FixtureActions(front), OneFixtureActions(last));
    }
  }
}
