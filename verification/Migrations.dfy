/** Which files of a migrations directory are applied, in which order, and under which template
    name (getFiles, MigrationFiles and templateName in internal/database/postgres/config.go). */
module Migrations {
  import opened Prelude
  import opened Identifiers
  import opened Ordering
  import opened Splitting
  import opened Paths
  import opened TemplateCache

  /** strings.EqualFold(ext, ".sql"). Simple folding also takes U+017F, whose two bytes in UTF-8 are
      C5 and BF, for an s. */
  predicate IsSqlExt(ext: string) {
    ext != "" && ext[0] == '.' &&
    var s := ext[1..];
    var n := if "\U{C5}\U{BF}" <= s then 2 else 1;
    && |s| == n + 2 && (n == 2 || s[0] == 's' || s[0] == 'S')
    && (s[n] == 'q' || s[n] == 'Q') && (s[n + 1] == 'l' || s[n + 1] == 'L')
  }

  predicate SqlFile(path: string) {
    IsSqlExt(Ext(LastElement(path)))
  }

  function Lower(c: char): char {
    if 'A' <= c <= 'Z' then c + ('a' - 'A') else c
  }

  const DOWN := "down.sql"

  /** strings.HasSuffix(strings.ToLower(path), "down.sql"). Lower-casing maps nothing outside ASCII to a letter of
      this suffix, so only the last eight bytes matter. */
  predicate DownFile(path: string) {
    |path| >= |DOWN| &&
    var tail := path[|path| - |DOWN|..];
    forall i :: 0 <= i < |DOWN| ==> Lower(tail[i]) == DOWN[i]
  }

  predicate IsMigration(path: string) {
    SqlFile(path) && !DownFile(path)
  }

  function Filter(keep: string -> bool, s: seq<string>): seq<string> {
    if s == [] then []
    else Filter(keep, s[..|s| - 1]) + if keep(s[|s| - 1]) then [s[|s| - 1]] else []
  }

  /** The directory part in front of every path below root. */
  function Prefix(root: string): string {
    if root == "/" then "/" else root + "/"
  }

  function Below(root: string, names: seq<string>): (r: seq<string>)
    ensures |r| == |names| && forall i :: 0 <= i < |names| ==> r[i] == Prefix(root) + names[i]
  {
    if names == [] then [] else Below(root, names[..|names| - 1]) + [Prefix(root) + names[|names| - 1]]
  }

  /** getFiles on a directory, which WalkDir visits in some order. */
  function Found(root: string, walk: seq<string>): seq<string> {
    Sort(Filter(SqlFile, Below(root, walk)))
  }

  /** What is at a path. */
  datatype Entry = Nothing | RegularFile | Directory(walk: seq<string>)

  /** getFiles. A single file is taken as it is, whatever its extension. */
  method GetFiles(path: string, absolute: string, entry: Entry) returns (r: Result<seq<string>>)
    ensures path == "" ==> r == Ok([])
    ensures path != "" && entry.Nothing? ==> r.Err?
    ensures path != "" && entry.RegularFile? ==> r == Ok([path])
    ensures path != "" && entry.Directory? ==> r == Ok(Found(absolute, entry.walk))
  {
    if path == "" { return Ok([]); }
    if entry.Nothing? { return Err("get path information failed"); }
    if entry.RegularFile? { return Ok([path]); }
    var found := FindBelow(absolute, entry.walk);
    r := Ok(Sort(found));
  }

  /** The walk of getFiles. */
  method FindBelow(absolute: string, walk: seq<string>) returns (found: seq<string>)
    ensures found == Filter(SqlFile, Below(absolute, walk))
  {
    found := [];
    ghost var all := Below(absolute, walk);
    for i := 0 to |walk|
      invariant found == Filter(SqlFile, all[..i])
    {
      assert all[..i + 1][..i] == all[..i];
      var p := Prefix(absolute) + walk[i];
      if SqlFile(p) { found := found + [p]; }
    }
    assert all[..|walk|] == all;
  }

  method MigrationFiles(files: seq<string>) returns (out: seq<string>)
    ensures out == Filter(f => !DownFile(f), files)
  {
    out := [];
    for i := 0 to |files|
      invariant out == Filter(f => !DownFile(f), files[..i])
    {
      assert files[..i + 1][..i] == files[..i];
      if !DownFile(files[i]) { out := out + [files[i]]; }
    }
    assert files[..|files|] == files;
  }

  /** filepath.Rel of an absolute root and a file that getFiles found: a path below the root, or the
      path of a single file, which is the root itself or, when it was given as a relative path, has
      no name relative to the root and goes by its base. */
  function RelativeName(root: string, path: string): string {
    if Prefix(root) <= path then path[|Prefix(root)|..]
    else if path == root then "."
    else Base(path)
  }

  predicate Readable(paths: seq<string>, disk: map<string, string>) {
    forall i :: 0 <= i < |paths| ==> paths[i] in disk
  }

  /** The files at the given paths, named relative to root. */
  function Load(root: string, paths: seq<string>, disk: map<string, string>): seq<File>
    requires Readable(paths, disk)
  {
    if paths == [] then []
    else
      var p := paths[|paths| - 1];
      Load(root, paths[..|paths| - 1], disk) + [File(RelativeName(root, p), disk[p])]
  }

  lemma StreamNext(root: string, paths: seq<string>, disk: map<string, string>, i: nat)
    requires i < |paths| && Readable(paths[..i + 1], disk)
    ensures Readable(paths[..i], disk)
    ensures Stream(Load(root, paths[..i + 1], disk)) ==
      Stream(Load(root, paths[..i], disk)) + RelativeName(root, paths[i]) + disk[paths[i]]
  {
    assert paths[..i + 1][..i] == paths[..i];
    forall k | 0 <= k < i ensures paths[..i][k] in disk { assert paths[..i + 1][k] in disk; }
    var before, file := Load(root, paths[..i], disk), File(RelativeName(root, paths[i]), disk[paths[i]]);
    assert (before + [file])[..|before|] == before;
  }

  /** templateName. The digest is fed name and content of every file, one after the other. */
  method TemplateName(env: Env, root: string, paths: seq<string>, disk: map<string, string>) returns (r: Result<string>)
    ensures r.Ok? <==> Readable(paths, disk)
    ensures r.Ok? ==> r.value == TemplateOf(env, Load(root, paths, disk))
  {
    var stream := "";
    for i := 0 to |paths|
      invariant Readable(paths[..i], disk) && stream == Stream(Load(root, paths[..i], disk))
    {
      if paths[i] !in disk { return Err("read migration file failed"); }
      assert Readable(paths[..i + 1], disk);
      StreamNext(root, paths, disk, i);
      stream := stream + RelativeName(root, paths[i]) + disk[paths[i]];
    }
    assert paths[..|paths|] == paths;
    return Ok(HashedTemplate(env.digest(stream)));
  }

  // ---- The directory does not matter ----------------------------------------------------

  predicate Prefixed(p: string, s: seq<string>, ps: seq<string>) {
    |ps| == |s| && forall i :: 0 <= i < |s| ==> ps[i] == p + s[i]
  }

  lemma PrefixedCons(p: string, x: string, s: seq<string>, ps: seq<string>)
    requires Prefixed(p, s, ps)
    ensures Prefixed(p, [x] + s, [p + x] + ps)
  {
  }

  lemma {:induction false} InsertPrefix(p: string, x: string, s: seq<string>, ps: seq<string>)
    requires Sorted(s) && Sorted(ps) && Prefixed(p, s, ps)
    ensures Prefixed(p, Insert(x, s), Insert(p + x, ps))
  {
    if s != [] {
      LexPrefix(p, x, s[0]);
      if LexLe(x, s[0]) {
        PrefixedCons(p, x, s, ps);
      } else {
        InsertPrefix(p, x, s[1..], ps[1..]);
        PrefixedCons(p, s[0], Insert(x, s[1..]), Insert(p + x, ps[1..]));
      }
    }
  }

  /** Sorting paths below a directory is sorting their relative names. */
  lemma {:induction false} SortPrefix(p: string, s: seq<string>, ps: seq<string>)
    requires Prefixed(p, s, ps)
    ensures Prefixed(p, Sort(s), Sort(ps))
  {
    if s != [] {
      SortPrefix(p, s[1..], ps[1..]);
      InsertPrefix(p, s[0], Sort(s[1..]), Sort(ps[1..]));
    }
  }

  /** The last element of a path below a directory is that of its relative name. */
  lemma LastElementBelow(root: string, name: string)
    ensures LastElement(Prefix(root) + name) == LastElement(name)
  {
    var dir := if root == "/" then "" else root;
    assert Prefix(root) + name == dir + ['/'] + name;
    SplitConcat(dir, name, '/');
  }

  /** "down.sql" has no slash, so it cannot match across the end of the directory part. */
  lemma DownFileBelow(root: string, name: string)
    ensures DownFile(Prefix(root) + name) == DownFile(name)
  {
    var p, path := Prefix(root), Prefix(root) + name;
    assert path[|p| - 1] == '/';
    if |name| < |DOWN| <= |path| {
      var i := |p| - 1 - (|path| - |DOWN|);
      assert 0 <= i < |DOWN| && path[|path| - |DOWN|..][i] == '/';
      assert DOWN[i] != Lower('/');
    } else if |name| >= |DOWN| {
      assert path[|path| - |DOWN|..] == name[|name| - |DOWN|..];
    }
  }

  lemma {:induction false} FilterBelow(root: string, keep: string -> bool, names: seq<string>)
    requires forall n :: keep(Prefix(root) + n) == keep(n)
    ensures Filter(keep, Below(root, names)) == Below(root, Filter(keep, names))
  {
    if names != [] {
      FilterBelow(root, keep, names[..|names| - 1]);
      var front := Filter(keep, names[..|names| - 1]);
      if keep(names[|names| - 1]) {
        assert (front + [names[|names| - 1]])[..|front|] == front;
      }
    }
  }

  lemma {:induction false} FilterTwice(a: string -> bool, b: string -> bool, both: string -> bool, s: seq<string>)
    requires forall x :: both(x) == (a(x) && b(x))
    ensures Filter(b, Filter(a, s)) == Filter(both, s)
  {
    if s != [] {
      FilterTwice(a, b, both, s[..|s| - 1]);
      var front := Filter(a, s[..|s| - 1]);
      if a(s[|s| - 1]) {
        assert (front + [s[|s| - 1]])[..|front|] == front;
      } else {
        assert Filter(a, s) == front;
      }
    }
  }

  lemma {:induction false} FilterCount(keep: string -> bool, s: seq<string>, x: string)
    ensures multiset(Filter(keep, s))[x] == if keep(x) then multiset(s)[x] else 0
  {
    if s != [] {
      FilterCount(keep, s[..|s| - 1], x);
      assert s == s[..|s| - 1] + [s[|s| - 1]];
    }
  }

  lemma FilterSameElements(keep: string -> bool, a: seq<string>, b: seq<string>)
    requires multiset(a) == multiset(b)
    ensures multiset(Filter(keep, a)) == multiset(Filter(keep, b))
  {
    forall x ensures multiset(Filter(keep, a))[x] == multiset(Filter(keep, b))[x] {
      FilterCount(keep, a, x);
      FilterCount(keep, b, x);
    }
  }

  lemma {:induction false} FilterSorted(keep: string -> bool, s: seq<string>)
    requires Sorted(s)
    ensures Sorted(Filter(keep, s)) && forall x :: x in Filter(keep, s) ==> x in s
  {
    if s != [] {
      var front, last := s[..|s| - 1], s[|s| - 1];
      FilterSorted(keep, front);
      assert s == front + [last];
      forall x | x in Filter(keep, front) ensures LexLe(x, last) {
        var i :| 0 <= i < |front| && front[i] == x;
        assert LexLe(s[i], s[|s| - 1]);
      }
    }
  }

  /** Dropping files before or after sorting is the same. */
  lemma FilterOfSort(keep: string -> bool, s: seq<string>)
    ensures Filter(keep, Sort(s)) == Sort(Filter(keep, s))
  {
    FilterSorted(keep, Sort(s));
    FilterSameElements(keep, Sort(s), s);
    SortedUnique(Filter(keep, Sort(s)), Sort(Filter(keep, s)));
  }

  lemma SortBelow(root: string, names: seq<string>)
    ensures Sort(Below(root, names)) == Below(root, Sort(names))
  {
    SortPrefix(Prefix(root), names, Below(root, names));
  }

  /** The paths that are found are the sql files of the tree, sorted by relative name. */
  lemma FoundPaths(root: string, walk: seq<string>)
    ensures Found(root, walk) == Below(root, Sort(Filter(SqlFile, walk)))
  {
    forall n ensures SqlFile(Prefix(root) + n) == SqlFile(n) { LastElementBelow(root, n); }
    FilterBelow(root, SqlFile, walk);
    SortBelow(root, Filter(SqlFile, walk));
  }

  /** The paths that are applied are the migrations of the tree, sorted by relative name. */
  lemma AppliedPaths(root: string, walk: seq<string>)
    ensures Filter(f => !DownFile(f), Found(root, walk)) == Below(root, Sort(Filter(IsMigration, walk)))
  {
    var up := (f: string) => !DownFile(f);
    forall n ensures up(Prefix(root) + n) == up(n) { DownFileBelow(root, n); }
    FoundPaths(root, walk);
    FilterBelow(root, up, Sort(Filter(SqlFile, walk)));
    FilterOfSort(up, Filter(SqlFile, walk));
    FilterTwice(SqlFile, up, IsMigration, walk);
  }

  /** A directory tree: relative names and contents. */
  type Tree = map<string, string>

  /** walk visits every file of the tree once. */
  ghost predicate Walks(walk: seq<string>, tree: Tree) {
    multiset(walk) == multiset(tree.Keys)
  }

  /** The tree is unpacked below root. */
  ghost predicate Unpacked(root: string, tree: Tree, disk: map<string, string>) {
    forall n :: n in tree ==> Prefix(root) + n in disk && disk[Prefix(root) + n] == tree[n]
  }

  function Named(tree: Tree, names: seq<string>): seq<File>
    requires forall i :: 0 <= i < |names| ==> names[i] in tree
  {
    if names == [] then [] else Named(tree, names[..|names| - 1]) + [File(names[|names| - 1], tree[names[|names| - 1]])]
  }

  lemma KeptInTree(keep: string -> bool, walk: seq<string>, tree: Tree)
    requires Walks(walk, tree)
    ensures forall i :: 0 <= i < |Sort(Filter(keep, walk))| ==> Sort(Filter(keep, walk))[i] in tree
  {
    var names := Sort(Filter(keep, walk));
    forall i | 0 <= i < |names| ensures names[i] in tree {
      assert names[i] in multiset(names);
      FilterCount(keep, walk, names[i]);
      assert names[i] in multiset(walk);
    }
  }

  /** Files of a tree in the order of their names. */
  ghost function Kept(keep: string -> bool, tree: Tree, walk: seq<string>): seq<File>
    requires Walks(walk, tree)
  {
    KeptInTree(keep, walk, tree);
    Named(tree, Sort(Filter(keep, walk)))
  }

  /** The migrations of a tree in the order they are applied. */
  ghost function MigrationsOf(tree: Tree, walk: seq<string>): seq<File>
    requires Walks(walk, tree)
  {
    Kept(IsMigration, tree, walk)
  }

  /** The fixtures of a tree in the order they are applied: down files are not left out. */
  ghost function FixturesOf(tree: Tree, walk: seq<string>): seq<File>
    requires Walks(walk, tree)
  {
    Kept(SqlFile, tree, walk)
  }

  lemma {:induction false} LoadBelow(root: string, names: seq<string>, tree: Tree, disk: map<string, string>)
    requires Unpacked(root, tree, disk) && forall i :: 0 <= i < |names| ==> names[i] in tree
    ensures Readable(Below(root, names), disk) && Load(root, Below(root, names), disk) == Named(tree, names)
  {
    if names != [] {
      var front, last := names[..|names| - 1], names[|names| - 1];
      LoadBelow(root, front, tree, disk);
      assert Below(root, names)[..|names| - 1] == Below(root, front);
      assert (Prefix(root) + last)[|Prefix(root)|..] == last;
    }
  }

  /** The order in which the walk meets the files does not matter. */
  lemma WalkOrderIrrelevant(tree: Tree, walk: seq<string>, walk': seq<string>)
    requires Walks(walk, tree) && Walks(walk', tree)
    ensures MigrationsOf(tree, walk) == MigrationsOf(tree, walk')
  {
    FilterSameElements(IsMigration, walk, walk');
    SortIgnoresOrder(Filter(IsMigration, walk), Filter(IsMigration, walk'));
    KeptInTree(IsMigration, walk, tree);
    KeptInTree(IsMigration, walk', tree);
  }

  function Names(files: seq<File>): seq<string> {
    seq(|files|, i requires 0 <= i < |files| => files[i].name)
  }

  lemma {:induction false} NamedIs(tree: Tree, names: seq<string>)
    requires forall i :: 0 <= i < |names| ==> names[i] in tree
    ensures Names(Named(tree, names)) == names
    ensures forall f :: f in Named(tree, names) <==> f.name in names && f.content == tree[f.name]
  {
    if names != [] {
      var front, last := names[..|names| - 1], names[|names| - 1];
      NamedIs(tree, front);
      assert names == front + [last];
      assert Named(tree, names) == Named(tree, front) + [File(last, tree[last])];
      assert Names(Named(tree, names)) == Names(Named(tree, front)) + [last];
    }
  }

  lemma {:induction false} CountsAreDistinct(s: seq<string>)
    requires forall x :: multiset(s)[x] <= 1
    ensures Distinct(s)
  {
    if s != [] {
      var front, last := s[..|s| - 1], s[|s| - 1];
      assert s == front + [last];
      forall x ensures multiset(front)[x] <= 1 { assert multiset(front)[x] <= multiset(s)[x]; }
      CountsAreDistinct(front);
      assert multiset(s)[last] == multiset(front)[last] + 1;
      assert last !in multiset(front);
      forall i | 0 <= i < |front| ensures front[i] != last { assert front[i] in multiset(front); }
    }
  }

  /** The names that are kept: every file of the tree that qualifies, once. */
  lemma KeptNames(keep: string -> bool, tree: Tree, walk: seq<string>)
    requires Walks(walk, tree)
    ensures Distinct(Sort(Filter(keep, walk)))
    ensures forall n :: n in Sort(Filter(keep, walk)) <==> n in tree && keep(n)
  {
    var names := Sort(Filter(keep, walk));
    forall x ensures multiset(names)[x] == if x in tree && keep(x) then 1 else 0 {
      FilterCount(keep, walk, x);
    }
    CountsAreDistinct(names);
    forall n ensures n in names <==> n in tree && keep(n) {
      assert n in names <==> n in multiset(names);
    }
  }

  lemma KeptAre(keep: string -> bool, tree: Tree, walk: seq<string>)
    requires Walks(walk, tree)
    ensures var files := Kept(keep, tree, walk);
      && Sorted(Names(files)) && Distinct(Names(files))
      && forall f :: f in files <==> f.name in tree && keep(f.name) && f.content == tree[f.name]
  {
    KeptInTree(keep, walk, tree);
    KeptNames(keep, tree, walk);
    NamedIs(tree, Sort(Filter(keep, walk)));
  }

  /** The migrations of a tree: its non-down sql files with their contents, sorted by name. */
  lemma MigrationsAre(tree: Tree, walk: seq<string>)
    requires Walks(walk, tree)
    ensures var files := MigrationsOf(tree, walk);
      && Sorted(Names(files)) && Distinct(Names(files))
      && forall f :: f in files <==> f.name in tree && IsMigration(f.name) && f.content == tree[f.name]
  {
    KeptAre(IsMigration, tree, walk);
  }

  /** The fixtures of a tree: all its sql files with their contents, sorted by name. */
  lemma FixturesAre(tree: Tree, walk: seq<string>)
    requires Walks(walk, tree)
    ensures var files := FixturesOf(tree, walk);
      && Sorted(Names(files)) && Distinct(Names(files))
      && forall f :: f in files <==> f.name in tree && SqlFile(f.name) && f.content == tree[f.name]
  {
    KeptAre(SqlFile, tree, walk);
  }

  /** What CreateDB reads out of a directory. */
  ghost function Read(root: string, walk: seq<string>, disk: map<string, string>): Option<seq<File>> {
    var paths := Filter(f => !DownFile(f), Found(root, walk));
    if Readable(paths, disk) then Some(Load(root, paths, disk)) else None
  }

  lemma ReadsTheTree(root: string, tree: Tree, walk: seq<string>, disk: map<string, string>)
    requires Walks(walk, tree) && Unpacked(root, tree, disk)
    ensures Read(root, walk, disk) == Some(MigrationsOf(tree, walk))
  {
    KeptInTree(IsMigration, walk, tree);
    AppliedPaths(root, walk);
    LoadBelow(root, Sort(Filter(IsMigration, walk)), tree, disk);
  }

  /** The fixtures read out of a directory are those of the tree in it. */
  lemma ReadsTheFixtures(root: string, tree: Tree, walk: seq<string>, disk: map<string, string>)
    requires Walks(walk, tree) && Unpacked(root, tree, disk)
    ensures Readable(Found(root, walk), disk) && Load(root, Found(root, walk), disk) == FixturesOf(tree, walk)
  {
    KeptInTree(SqlFile, walk, tree);
    FoundPaths(root, walk);
    LoadBelow(root, Sort(Filter(SqlFile, walk)), tree, disk);
  }

  /** A tree gives the same files in the same order, and the same template name, from any two
      directories it is unpacked into and in any order the walks take. */
  lemma RelocationInvariance(env: Env, tree: Tree, root: string, walk: seq<string>, disk: map<string, string>,
                             root': string, walk': seq<string>, disk': map<string, string>)
    requires Walks(walk, tree) && Unpacked(root, tree, disk)
    requires Walks(walk', tree) && Unpacked(root', tree, disk')
    ensures Read(root, walk, disk).Some? && Read(root, walk, disk) == Read(root', walk', disk')
    ensures TemplateOf(env, Read(root, walk, disk).value) == TemplateOf(env, Read(root', walk', disk').value)
  {
    ReadsTheTree(root, tree, walk, disk);
    ReadsTheTree(root', tree, walk', disk');
    WalkOrderIrrelevant(tree, walk, walk');
  }

  // ---- Which names are migrations -------------------------------------------------------

  /** s spells the lower-case word, in capitals or not. */
  predicate Casing(s: string, word: string) {
    |s| == |word| && forall i :: 0 <= i < |s| ==> s[i] == word[i] || ('a' <= word[i] <= 'z' && s[i] == word[i] - ('a' - 'A'))
  }

  /** Down migrations are the files whose name ends in down.sql, in capitals or not. */
  lemma DownFileIff(path: string)
    ensures DownFile(path) <==> |path| >= 8 && Casing(path[|path| - 8..], "down.sql")
  {
    if |path| >= 8 {
      var tail, word := path[|path| - 8..], "down.sql";
      assert forall i :: 0 <= i < 8 ==> (Lower(tail[i]) == word[i] <==> tail[i] == word[i] || ('a' <= word[i] <= 'z' && tail[i] == word[i] - ('a' - 'A')));
    }
  }

  lemma DownNames(p: string, s: string)
    requires Casing(s, "down.sql")
    ensures DownFile(p + s)
  {
    assert (p + s)[|p + s| - 8..] == s;
    DownFileIff(p + s);
  }

  lemma OtherNames(p: string, c: char)
    requires c != 'n' && c != 'N'
    ensures !DownFile(p + [c] + ".sql")
  {
    var path := p + [c] + ".sql";
    if |path| >= 8 { assert path[|path| - 8..][3] == c; }
    DownFileIff(path);
  }

  lemma SqlCasings(e: string)
    ensures Casing(e, "sql") <==> |e| == 3 && (e[0] == 's' || e[0] == 'S') && (e[1] == 'q' || e[1] == 'Q') && (e[2] == 'l' || e[2] == 'L')
    ensures Casing(e, "ql") <==> |e| == 2 && (e[0] == 'q' || e[0] == 'Q') && (e[1] == 'l' || e[1] == 'L')
  {
    var sql, ql := "sql", "ql";
    assert sql[0] == 's' && sql[1] == 'q' && sql[2] == 'l' && ql[0] == 'q' && ql[1] == 'l';
  }

  lemma SqlExtIff(e: string)
    ensures IsSqlExt("." + e) <==> Casing(e, "sql") || ("\U{C5}\U{BF}" <= e && Casing(e[2..], "ql"))
  {
    assert ("." + e)[1..] == e;
    SqlCasings(e);
    if "\U{C5}\U{BF}" <= e { SqlCasings(e[2..]); }
  }

  /** A file with an extension is an sql file exactly when the extension spells sql, in capitals or
      not, or with a long s. */
  lemma SqlFileIff(dir: string, stem: string, e: string)
    requires '/' !in stem && '/' !in e && '.' !in e
    ensures var sql := Casing(e, "sql") || ("\U{C5}\U{BF}" <= e && Casing(e[2..], "ql"));
      && (SqlFile(stem + "." + e) <==> sql)
      && (SqlFile(dir + ['/'] + (stem + "." + e)) <==> sql)
  {
    var name := stem + "." + e;
    ExtIs(stem, e);
    SqlExtIff(e);
    SplitSingle(name, '/');
    SplitConcat(dir, name, '/');
  }

  lemma NoExtension(name: string)
    requires '/' !in name && '.' !in name
    ensures !SqlFile(name)
  {
    SplitSingle(name, '/');
    ExtNone(name);
  }

  /** Of an up and a down migration, up is applied and down is not; as fixtures, both are. */
  lemma UpAndDown(dir: string, stem: string)
    requires '/' !in stem
    ensures IsMigration(dir + ['/'] + (stem + ".up" + "." + "sql"))
    ensures !IsMigration(dir + ['/'] + (stem + ".down" + "." + "sql")) && SqlFile(dir + ['/'] + (stem + ".down" + "." + "sql"))
  {
    UpIsSql(dir, stem, ".up");
    UpIsSql(dir, stem, ".down");
    UpIsNotDown(dir + ['/'] + stem);
    Regroup(dir, stem, ".up");
    Regroup(dir, stem, ".down");
  }

  lemma UpIsSql(dir: string, stem: string, mark: string)
    requires '/' !in stem && '/' !in mark
    ensures SqlFile(dir + ['/'] + (stem + mark + "." + "sql"))
  {
    SqlFileIff(dir, stem + mark, "sql");
  }

  lemma Regroup(dir: string, stem: string, mark: string)
    ensures dir + ['/'] + (stem + mark + "." + "sql") == dir + ['/'] + stem + mark + ".sql"
  {
    ConcatAssociates(stem + mark, ".", "sql");
    ConcatAssociates(dir + ['/'], stem + mark, ".sql");
    ConcatAssociates(dir + ['/'], stem, mark);
  }

  lemma UpIsNotDown(p: string)
    ensures !DownFile(p + ".up" + ".sql") && DownFile(p + ".down" + ".sql")
  {
    assert p + ".up" == p + ".u" + ['p'];
    OtherNames(p + ".u", 'p');
    assert p + ".down" + ".sql" == (p + ".") + "down.sql";
    DownNames(p + ".", "down.sql");
  }

  /** A single migration file given by a relative path goes by its base, so the directory it is in
      does not show in the template name; one given by an absolute path goes by a dot. */
  lemma SingleFile(env: Env, root: string, path: string, disk: map<string, string>)
    requires Rooted(root) && root != "/" && path in disk && (path == root || !Rooted(path))
    ensures Load(root, [path], disk) == [File(if path == root then "." else Base(path), disk[path])]
  {
    assert [path][..0] == [];
    assert Prefix(root)[0] == '/';
    assert Load(root, [path], disk) == Load(root, [], disk) + [File(RelativeName(root, path), disk[path])];
    assert path == root ==> |Prefix(root)| > |path|;
  }
}
