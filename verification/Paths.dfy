/** Slash-separated paths: filepath.Clean, Base and Ext on Unix, and the names of uploaded files
    (internal/apiserver/server.go). */
module Paths {
  import opened Prelude
  import opened Encoding
  import opened Splitting

  /** An element that names an entry of a directory. */
  predicate Normal(e: string) {
    e != "" && e != "." && e != ".." && '/' !in e
  }

  function Push(stack: seq<string>, e: string, rooted: bool): seq<string> {
    if e == "" || e == "." then stack
    else if e != ".." then stack + [e]
    else if stack != [] && stack[|stack| - 1] != ".." then stack[..|stack| - 1]
    else if rooted then stack
    else stack + [".."]
  }

  function Reduce(elements: seq<string>, rooted: bool): seq<string> {
    if elements == [] then [] else Push(Reduce(elements[..|elements| - 1], rooted), elements[|elements| - 1], rooted)
  }

  predicate Rooted(s: string) {
    "/" <= s
  }

  /** filepath.Clean */
  function Clean(s: string): string {
    var stack := Reduce(SplitOn(s, '/'), Rooted(s));
    if stack == [] then if Rooted(s) then "/" else "."
    else (if Rooted(s) then "/" else "") + JoinWith(stack, '/')
  }

  /** What cleaning leaves: normal elements, after leading parent references of a relative path. */
  predicate Cleaned(stack: seq<string>, rooted: bool) {
    forall i :: 0 <= i < |stack| ==>
      Normal(stack[i]) || (stack[i] == ".." && !rooted && forall j :: 0 <= j < i ==> stack[j] == "..")
  }

  lemma {:induction false} ReduceCleans(elements: seq<string>, rooted: bool)
    requires forall i :: 0 <= i < |elements| ==> '/' !in elements[i]
    ensures Cleaned(Reduce(elements, rooted), rooted)
  {
    if elements != [] { ReduceCleans(elements[..|elements| - 1], rooted); }
  }

  lemma {:induction false} ReduceNormal(elements: seq<string>, rooted: bool)
    requires forall i :: 0 <= i < |elements| ==> Normal(elements[i])
    ensures Reduce(elements, rooted) == elements
  {
    if elements != [] {
      ReduceNormal(elements[..|elements| - 1], rooted);
      assert elements == elements[..|elements| - 1] + [elements[|elements| - 1]];
    }
  }

  predicate AllNormal(elements: seq<string>) {
    elements != [] && forall i :: 0 <= i < |elements| ==> Normal(elements[i])
  }

  /** A clean path relative to some directory that does not begin with "..". */
  predicate SafeRelative(path: string) {
    AllNormal(SplitOn(path, '/')) && !(".." <= path)
  }

  lemma {:induction false} JoinStart(parts: seq<string>)
    requires parts != []
    ensures var s := JoinWith(parts, '/'); parts[0] <= s && (|s| > |parts[0]| ==> s[|parts[0]|] == '/')
  {
    if |parts| > 1 { JoinStart(parts[..|parts| - 1]); }
  }

  lemma NormalIsClean(path: string)
    requires AllNormal(SplitOn(path, '/'))
    ensures Clean(path) == path && !Rooted(path) && path != "." && path != ""
  {
    var elements := SplitOn(path, '/');
    JoinOfSplit(path, '/');
    JoinStart(elements);
    assert elements[0] <= path && Normal(elements[0]);
    ReduceNormal(elements, false);
    if path == "." { SplitSingle(path, '/'); }
  }

  /** uploadPath */
  function UploadPath(filename: string): Result<string> {
    var name := Clean(if Unescape(filename).Some? then Unescape(filename).value else filename);
    if name == "." || name == "/" || name == "" then Err("invalid file name")
    else if Rooted(name) || ".." <= name then Err("file name is outside the upload directory")
    else Ok(name)
  }

  lemma CleanedIsSafe(stack: seq<string>)
    requires stack != [] && Cleaned(stack, false) && !(".." <= JoinWith(stack, '/'))
    ensures SafeRelative(JoinWith(stack, '/'))
  {
    JoinStart(stack);
    assert stack[0] != "..";
    assert forall i :: 0 <= i < |stack| ==> Normal(stack[i]);
    SplitOfJoin(stack, '/');
  }

  /** Whatever name a client sends, the path that is accepted is clean, relative, and never leaves
      the directory it is put in. */
  lemma UploadPathIsSafe(filename: string)
    requires UploadPath(filename).Ok?
    ensures SafeRelative(UploadPath(filename).value)
  {
    CleanIsSafe(if Unescape(filename).Some? then Unescape(filename).value else filename);
  }

  lemma CleanIsSafe(s: string)
    requires Clean(s) != "." && !Rooted(Clean(s)) && !(".." <= Clean(s))
    ensures SafeRelative(Clean(s))
  {
    var stack := Reduce(SplitOn(s, '/'), Rooted(s));
    PartsLackSeparator(s, '/');
    ReduceCleans(SplitOn(s, '/'), Rooted(s));
    assert stack != [] && !Rooted(s);
    assert Clean(s) == JoinWith(stack, '/');
    CleanedIsSafe(stack);
  }

  /** filepath.Join for a clean absolute directory */
  function Join(dir: string, name: string): string {
    Clean(dir + "/" + name)
  }

  lemma CleanRooted(s: string, rest: string)
    requires s == "/" + rest && AllNormal(SplitOn(rest, '/'))
    ensures Clean(s) == s
  {
    var elements := SplitOn(rest, '/');
    assert SplitOn(s, '/') == [""] + elements by {
      SplitConcat("", rest, '/');
      assert "" + ['/'] + rest == s;
    }
    ReduceAfterEmpty(elements, true);
    ReduceNormal(elements, true);
    JoinOfSplit(rest, '/');
  }

  /** An absolute path in its shortest form, other than the root. */
  predicate CleanDir(dir: string) {
    |dir| > 1 && dir[0] == '/' && AllNormal(SplitOn(dir[1..], '/'))
  }

  /** The target of an upload lies below its directory: the directory, a slash, and the name. */
  lemma UploadStaysBelow(dir: string, filename: string)
    requires CleanDir(dir) && UploadPath(filename).Ok?
    ensures Join(dir, UploadPath(filename).value) == dir + "/" + UploadPath(filename).value
    ensures AllNormal(SplitOn(UploadPath(filename).value, '/'))
  {
    UploadPathIsSafe(filename);
    BelowIsClean(dir, UploadPath(filename).value);
  }

  lemma AllNormalConcat(a: seq<string>, b: seq<string>)
    requires AllNormal(a) && AllNormal(b)
    ensures AllNormal(a + b)
  {
  }

  lemma NormalBelow(inner: string, name: string)
    requires AllNormal(SplitOn(inner, '/')) && AllNormal(SplitOn(name, '/'))
    ensures AllNormal(SplitOn(inner + ['/'] + name, '/'))
  {
    SplitConcat(inner, name, '/');
    AllNormalConcat(SplitOn(inner, '/'), SplitOn(name, '/'));
  }

  lemma BelowIsClean(dir: string, name: string)
    requires CleanDir(dir) && AllNormal(SplitOn(name, '/'))
    ensures Clean(dir + "/" + name) == dir + "/" + name
  {
    NormalBelow(dir[1..], name);
    SlashFirst(dir, name);
    CleanRooted(dir + "/" + name, dir[1..] + ['/'] + name);
  }

  lemma SlashFirst(dir: string, name: string)
    requires dir != "" && dir[0] == '/'
    ensures dir + "/" + name == "/" + (dir[1..] + ['/'] + name)
  {
  }

  lemma {:induction false} ReduceAfterEmpty(elements: seq<string>, rooted: bool)
    ensures Reduce([""] + elements, rooted) == Reduce(elements, rooted)
  {
    var all := [""] + elements;
    if elements == [] {
      assert all[..0] == [];
    } else {
      ReduceAfterEmpty(elements[..|elements| - 1], rooted);
      assert all[..|all| - 1] == [""] + elements[..|elements| - 1];
    }
  }

  // ---- Two encoders, one decoder --------------------------------------------------------

  /** Both clients' encodings of a path have no separator and are read as that path, and it is
      accepted exactly when it does not begin with "..", not even as part of a longer name. */
  lemma EncodedPathComesBack(mode: Mode, path: seq<Byte>)
    requires (mode.PathSegment? || mode.Python?) && AllNormal(SplitOn(path, '/'))
    ensures '/' !in Escape(mode, path) && Base(Escape(mode, path)) == Escape(mode, path)
    ensures UploadPath(Escape(mode, path)).Ok? <==> !(".." <= path)
    ensures UploadPath(Escape(mode, path)).Ok? ==> UploadPath(Escape(mode, path)) == Ok(path)
  {
    var e := Escape(mode, path);
    assert '/' !in e by { EscapeAlphabet(mode, path); }
    assert e != [] by { NormalIsClean(path); EscapeEmpty(mode, path); }
    BaseOfSingle(e);
    assert Unescape(e) == Some(path) by { UnescapeEscape(mode, path); DecodedIsSame(mode, path); }
    DecodedIsAccepted(e, path);
  }

  lemma DecodedIsAccepted(filename: string, path: string)
    requires Unescape(filename) == Some(path) && AllNormal(SplitOn(path, '/'))
    ensures UploadPath(filename) == if ".." <= path then Err("file name is outside the upload directory") else Ok(path)
  {
    NormalIsClean(path);
  }

  function TrimSlashes(s: string): string {
    if s != "" && s[|s| - 1] == '/' then TrimSlashes(s[..|s| - 1]) else s
  }

  /** The last element of a path. */
  function LastElement(s: string): string {
    var parts := SplitOn(s, '/');
    parts[|parts| - 1]
  }

  /** filepath.Base, which multipart parsing applies to the name of every part. */
  function Base(s: string): string {
    if s == "" then "."
    else if TrimSlashes(s) == "" then "/"
    else LastElement(TrimSlashes(s))
  }

  lemma BaseOfSingle(s: string)
    requires s != "" && '/' !in s
    ensures Base(s) == s
  {
    assert s[|s| - 1] in s;
    SplitSingle(s, '/');
  }

  /** filepath.Ext of a name without separators: from its last dot on. */
  function Ext(name: string): string {
    if name == "" then ""
    else if name[|name| - 1] == '.' then "."
    else
      var e := Ext(name[..|name| - 1]);
      if e == "" then "" else e + [name[|name| - 1]]
  }

  lemma {:induction false} ExtIs(stem: string, e: string)
    requires '.' !in e
    ensures Ext(stem + "." + e) == "." + e
  {
    var name := stem + "." + e;
    if e == "" {
      assert name[|name| - 1] == '.' && "." + e == ".";
    } else {
      ExtIs(stem, e[..|e| - 1]);
      assert name[..|name| - 1] == stem + "." + e[..|e| - 1];
      assert name[|name| - 1] == e[|e| - 1];
    }
  }

  lemma {:induction false} ExtNone(name: string)
    requires '.' !in name
    ensures Ext(name) == ""
  {
    if name != "" { ExtNone(name[..|name| - 1]); }
  }

  // ---- What cleaning and base names mean ------------------------------------------------

  lemma {:induction false} ReduceWithout(a: seq<string>, nothing: seq<string>, b: seq<string>, rooted: bool)
    requires Reduce(a + nothing, rooted) == Reduce(a, rooted)
    ensures Reduce(a + nothing + b, rooted) == Reduce(a + b, rooted)
  {
    if b == [] {
      assert a + nothing + b == a + nothing && a + b == a;
    } else {
      var front := b[..|b| - 1];
      ReduceWithout(a, nothing, front, rooted);
      assert (a + nothing + b)[..|a + nothing + b| - 1] == a + nothing + front;
      assert (a + b)[..|a + b| - 1] == a + front;
    }
  }

  lemma ReduceSnoc(elements: seq<string>, e: string, rooted: bool)
    ensures Reduce(elements + [e], rooted) == Push(Reduce(elements, rooted), e, rooted)
  {
    assert (elements + [e])[..|elements|] == elements;
  }

  lemma SplitAround(a: string, e: string, b: string)
    requires '/' !in e
    ensures SplitOn(a + ['/'] + e + ['/'] + b, '/') == SplitOn(a, '/') + [e] + SplitOn(b, '/')
  {
    SplitConcat(a + ['/'] + e, b, '/');
    SplitConcat(a, e, '/');
    SplitSingle(e, '/');
  }

  lemma RootedAround(a: string, more: string)
    ensures Rooted(a + ['/'] + more) <==> a == "" || Rooted(a)
  {
    var s := a + ['/'] + more;
    assert s[0] == if a == "" then '/' else a[0];
  }

  /** Paths that reduce to the same elements are cleaned to the same path. */
  lemma CleanAlike(s: string, t: string)
    requires Rooted(s) == Rooted(t) && Reduce(SplitOn(s, '/'), Rooted(s)) == Reduce(SplitOn(t, '/'), Rooted(t))
    ensures Clean(s) == Clean(t)
  {
  }

  /** An element that leaves the elements before it as they are may be left out. */
  lemma CleanWithout(a: string, e: string, b: string)
    requires '/' !in e
    requires Push(Reduce(SplitOn(a, '/'), a == "" || Rooted(a)), e, a == "" || Rooted(a)) == Reduce(SplitOn(a, '/'), a == "" || Rooted(a))
    ensures Clean(a + ['/'] + e + ['/'] + b) == Clean(a + ['/'] + b)
  {
    var s, t, rooted := a + ['/'] + e + ['/'] + b, a + ['/'] + b, a == "" || Rooted(a);
    assert Rooted(t) == rooted by { RootedAround(a, b); }
    assert Rooted(s) == rooted by {
      RootedAround(a, e + ['/'] + b);
      ConcatAssociates(a + ['/'], e, ['/']);
      ConcatAssociates(a + ['/'], e + ['/'], b);
    }
    SplitAround(a, e, b);
    SplitConcat(a, b, '/');
    ReduceSnoc(SplitOn(a, '/'), e, rooted);
    ReduceWithout(SplitOn(a, '/'), [e], SplitOn(b, '/'), rooted);
    CleanAlike(s, t);
  }

  /** A dot and a second slash are nothing. */
  lemma CleanSkips(a: string, e: string, b: string)
    requires e == "" || e == "."
    ensures Clean(a + ['/'] + e + ['/'] + b) == Clean(a + ['/'] + b)
  {
    CleanWithout(a, e, b);
  }

  /** The root has no parent. */
  lemma RootHasNoParent(b: string)
    ensures Clean("" + ['/'] + ".." + ['/'] + b) == Clean("" + ['/'] + b)
  {
    assert SplitOn("", '/') == [""];
    assert [""][..0] == [];
    CleanWithout("", "..", b);
  }

  /** A step down and up again is nothing. */
  lemma CleanStepsBack(a: string, x: string, b: string)
    requires Normal(x)
    ensures Clean(a + ['/'] + x + ['/'] + ".." + ['/'] + b) == Clean(a + ['/'] + b)
  {
    var p, q, rooted := SplitOn(a, '/'), SplitOn(b, '/'), a == "" || Rooted(a);
    SplitStepBack(a, x, b);
    SplitConcat(a, b, '/');
    StepAndBack(p, x, rooted);
    ReduceWithout(p, [x, ".."], q, rooted);
    SameStart(a, x, b);
    ReducesAlike(a + ['/'] + x + ['/'] + ".." + ['/'] + b, a + ['/'] + b, p + [x, ".."] + q, p + q, rooted);
  }

  lemma ReducesAlike(s: string, t: string, p: seq<string>, q: seq<string>, rooted: bool)
    requires SplitOn(s, '/') == p && SplitOn(t, '/') == q && Rooted(s) == Rooted(t) == rooted
    requires Reduce(p, rooted) == Reduce(q, rooted)
    ensures Clean(s) == Clean(t)
  {
  }

  lemma SplitStepBack(a: string, x: string, b: string)
    requires '/' !in x
    ensures SplitOn(a + ['/'] + x + ['/'] + ".." + ['/'] + b, '/') == SplitOn(a, '/') + [x, ".."] + SplitOn(b, '/')
  {
    SplitAround(a + ['/'] + x, "..", b);
    SplitConcat(a, x, '/');
    SplitSingle(x, '/');
    assert SplitOn(a, '/') + [x] + [".."] == SplitOn(a, '/') + [x, ".."];
  }

  lemma SameStart(a: string, x: string, b: string)
    ensures Rooted(a + ['/'] + x + ['/'] + ".." + ['/'] + b) == Rooted(a + ['/'] + b) == (a == "" || Rooted(a))
  {
    var s, t := a + ['/'] + x + ['/'] + ".." + ['/'] + b, a + ['/'] + b;
    assert s[0] == t[0];
    RootedAround(a, b);
  }

  lemma StepAndBack(elements: seq<string>, x: string, rooted: bool)
    requires Normal(x)
    ensures Reduce(elements + [x, ".."], rooted) == Reduce(elements, rooted)
  {
    var stack := Reduce(elements, rooted);
    ReduceSnoc(elements, x, rooted);
    ReduceSnoc(elements + [x], "..", rooted);
    assert elements + [x] + [".."] == elements + [x, ".."];
    assert (stack + [x])[..|stack|] == stack;
  }

  /** A relative path keeps the parents it starts with. */
  lemma ParentStays(b: string)
    requires AllNormal(SplitOn(b, '/'))
    ensures Clean(".." + ['/'] + b) == ".." + ['/'] + b
  {
    var s, elements := ".." + ['/'] + b, SplitOn(b, '/');
    assert SplitOn(s, '/') == [".."] + elements by {
      SplitConcat("..", b, '/');
      SplitSingle("..", '/');
    }
    ReduceAfterParent(elements);
    assert s[0] == '.';
    CleanIsJoin(s);
  }

  /** A path that reduces to its own elements is clean. */
  lemma CleanIsJoin(s: string)
    requires !Rooted(s) && Reduce(SplitOn(s, '/'), false) == SplitOn(s, '/')
    ensures Clean(s) == s
  {
    JoinOfSplit(s, '/');
    assert "" + s == s;
  }

  lemma {:induction false} ReduceAfterParent(elements: seq<string>)
    requires forall i :: 0 <= i < |elements| ==> Normal(elements[i])
    ensures Reduce([".."] + elements, false) == [".."] + elements
  {
    var all := [".."] + elements;
    if elements == [] {
      assert all[..0] == [];
    } else {
      ReduceAfterParent(elements[..|elements| - 1]);
      assert all[..|all| - 1] == [".."] + elements[..|elements| - 1];
      assert all == [".."] + elements[..|elements| - 1] + [elements[|elements| - 1]];
    }
  }

  /** The base of a path is its last name, trailing slashes or not. */
  lemma BaseBelow(dir: string, name: string, slashes: string)
    requires name != "" && '/' !in name && forall c :: c in slashes ==> c == '/'
    ensures Base(dir + ['/'] + name + slashes) == name && Base(name + slashes) == name
  {
    var last := name[|name| - 1];
    assert last in name && last != '/';
    var path := dir + ['/'] + name;
    assert path[|path| - 1] == last;
    TrimAll(dir + ['/'] + name, slashes);
    TrimAll(name, slashes);
    SplitConcat(dir, name, '/');
    SplitSingle(name, '/');
  }

  lemma {:induction false} TrimAll(s: string, slashes: string)
    requires s != "" && s[|s| - 1] != '/' && forall c :: c in slashes ==> c == '/'
    ensures TrimSlashes(s + slashes) == s
  {
    if slashes == "" {
      assert s + slashes == s;
    } else {
      var front := slashes[..|slashes| - 1];
      forall c | c in front ensures c == '/' { assert c in slashes; }
      TrimAll(s, front);
      assert (s + slashes)[..|s + slashes| - 1] == s + front;
      assert slashes[|slashes| - 1] in slashes;
    }
  }

  /** A name that does not decode is taken as it is. */
  lemma UndecodedIsTaken(filename: string)
    requires Unescape(filename).None? && AllNormal(SplitOn(filename, '/')) && !(".." <= filename)
    ensures UploadPath(filename) == Ok(filename)
  {
    NormalIsClean(filename);
  }
}
