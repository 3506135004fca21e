/** A directory on its way from a client to the server: walked, encoded, sent part by part, decoded,
    written into a fresh directory, and read back (clients/dbctlgo/client.go,
    clients/python/src/dbctl/dbctl.py, internal/apiserver/server.go). */
module Upload {
  import opened Prelude
  import opened Encoding
  import opened Ordering
  import opened Splitting
  import opened Paths
  import opened Migrations
  import opened TemplateCache
  import opened TemplateCacheRuns

  datatype Part = Part(filename: string, content: string)

  function AsBytes(s: string): (r: seq<Byte>)
    requires IsBytes(s)
    ensures r == s
  {
    s
  }

  /** What a real directory can hold: clean names, and no file that is also a directory. */
  ghost predicate RealTree(tree: Tree) {
    && (forall n :: n in tree ==> IsBytes(n) && AllNormal(SplitOn(n, '/')))
    && (forall a, b :: a in tree && b in tree ==> !(a + "/" <= b))
  }

  /** Names the server takes. */
  predicate Acceptable(name: string) {
    !(".." <= name)
  }

  /** getFilesList and get_files_list: the files that match, sorted by relative name. */
  method FilesToSend(walk: seq<string>, matches: string -> bool) returns (names: seq<string>)
    ensures names == Sort(Filter(matches, walk))
  {
    var out := [];
    for i := 0 to |walk|
      invariant out == Filter(matches, walk[..i])
    {
      assert walk[..i + 1][..i] == walk[..i];
      if matches(walk[i]) { out := out + [walk[i]]; }
    }
    assert walk[..|walk|] == walk;
    names := Sort(out);
  }

  /** The parts of a request, one per file; mode is the client's way of encoding names. */
  function Parts(mode: Mode, tree: Tree, names: seq<string>): seq<Part>
    requires forall i :: 0 <= i < |names| ==> names[i] in tree && IsBytes(names[i])
  {
    if names == [] then []
    else
      var n := names[|names| - 1];
      Parts(mode, tree, names[..|names| - 1]) + [Part(Escape(mode, AsBytes(n)), tree[n])]
  }

  /** Creating a file fails where a directory is, and below a file. */
  predicate Blocked(files: Tree, name: string) {
    exists other :: other in files && (other + "/" <= name || name + "/" <= other)
  }

  /** Multipart parsing keeps the base of the file name; writeMultipartFile does the rest. */
  function Receive(files: Tree, part: Part): Option<Tree> {
    match UploadPath(Base(part.filename))
    case Err(_) => None
    case Ok(name) => if Blocked(files, name) then None else Some(files[name := part.content])
  }

  function ReceiveAll(parts: seq<Part>): Option<Tree> {
    if parts == [] then Some(map[])
    else match ReceiveAll(parts[..|parts| - 1])
      case None => None
      case Some(files) => Receive(files, parts[|parts| - 1])
  }

  // ---- Writing below a directory --------------------------------------------------------

  /** writeMultipartFile on a disk: the target is joined to the directory. */
  function WritePart(dst: string, disk: map<string, string>, part: Part): Option<map<string, string>> {
    match UploadPath(Base(part.filename))
    case Err(_) => None
    case Ok(name) => if Blocked(disk, Join(dst, name)) then None else Some(disk[Join(dst, name) := part.content])
  }

  function WriteAll(dst: string, disk: map<string, string>, parts: seq<Part>): Option<map<string, string>> {
    if parts == [] then Some(disk)
    else match WriteAll(dst, disk, parts[..|parts| - 1])
      case None => None
      case Some(d) => WritePart(dst, d, parts[|parts| - 1])
  }

  /** A new directory: nothing is below it, and no file is on the way to it. */
  ghost predicate FreshDir(dst: string, disk: map<string, string>) {
    CleanDir(dst) && forall p :: p in disk ==> !(Prefix(dst) <= p) && !(p + "/" <= Prefix(dst))
  }

  /** The tree was put below a new directory, and nothing else changed. */
  ghost predicate PutBelow(before: map<string, string>, dst: string, tree: Tree, disk: map<string, string>) {
    && (forall p :: p in before ==> p in disk && disk[p] == before[p])
    && (forall p :: p in disk && p !in before ==> Prefix(dst) <= p)
    && (forall n :: n in tree <==> Prefix(dst) + n in disk)
    && Unpacked(dst, tree, disk)
  }

  /** Below a common prefix, one file is in the way of another as it is without the prefix. */
  lemma InTheWayBelow(p: string, a: string, b: string)
    ensures p + a + "/" <= p + b <==> a + "/" <= b
  {
    ConcatAssociates(p, a, "/");
    PrefixCancels(p, a + "/", b);
  }

  /** Below a new directory, files are in the way exactly when they are in the tree. */
  lemma BlockedBelow(before: map<string, string>, dst: string, tree: Tree, disk: map<string, string>, name: string)
    requires FreshDir(dst, before) && PutBelow(before, dst, tree, disk)
    ensures Blocked(disk, Prefix(dst) + name) <==> Blocked(tree, name)
  {
    if Blocked(tree, name) { BlockedByTree(before, dst, tree, disk, name); }
    if Blocked(disk, Prefix(dst) + name) { BlockedOnDisk(before, dst, tree, disk, name); }
  }

  lemma BlockedByTree(before: map<string, string>, dst: string, tree: Tree, disk: map<string, string>, name: string)
    requires FreshDir(dst, before) && PutBelow(before, dst, tree, disk) && Blocked(tree, name)
    ensures Blocked(disk, Prefix(dst) + name)
  {
    var p := Prefix(dst);
    var n :| n in tree && (n + "/" <= name || name + "/" <= n);
    assert p + n in disk;
    InTheWayBelow(p, n, name);
    InTheWayBelow(p, name, n);
  }

  lemma BlockedOnDisk(before: map<string, string>, dst: string, tree: Tree, disk: map<string, string>, name: string)
    requires FreshDir(dst, before) && PutBelow(before, dst, tree, disk) && Blocked(disk, Prefix(dst) + name)
    ensures Blocked(tree, name)
  {
    var p := Prefix(dst);
    var other :| other in disk && (other + "/" <= p + name || p + name + "/" <= other);
    BlockerIsBelow(before, dst, disk, name, other);
    var n := BelowPrefix(p, other);
    BlockerInTree(p, tree, disk, name, n);
  }

  lemma BelowPrefix(p: string, path: string) returns (n: string)
    requires p <= path
    ensures path == p + n
  {
    n := path[|p|..];
  }

  lemma BlockerInTree(p: string, tree: Tree, disk: map<string, string>, name: string, n: string)
    requires forall m :: m in tree <==> p + m in disk
    requires p + n in disk && (p + n + "/" <= p + name || p + name + "/" <= p + n)
    ensures Blocked(tree, name)
  {
    InTheWayBelow(p, n, name);
    InTheWayBelow(p, name, n);
  }

  lemma PrefixCancels(p: string, a: string, b: string)
    ensures p + a <= p + b <==> a <= b
  {
    assert (p + a)[|p|..] == a && (p + b)[|p|..] == b;
    if a <= b { assert p + b == p + a + b[|a|..]; }
    if p + a <= p + b { assert (p + b)[..|p + a|][|p|..] == a; assert b[..|a|] == a; }
  }

  lemma AboveOrBelow(p: string, name: string, other: string)
    requires other + "/" <= p + name
    ensures other + "/" <= p || p <= other
  {
    var s := p + name;
    assert s[..|p|] == p && s[..|other| + 1] == other + "/";
    if |other| < |p| {
      assert p[..|other| + 1] == s[..|other| + 1];
    } else {
      assert other[..|p|] == s[..|p|];
    }
  }

  lemma BlockerIsBelow(before: map<string, string>, dst: string, disk: map<string, string>, name: string, other: string)
    requires FreshDir(dst, before) && other in disk && (other !in before ==> Prefix(dst) <= other)
    requires other + "/" <= Prefix(dst) + name || Prefix(dst) + name + "/" <= other
    ensures Prefix(dst) <= other
  {
    if other + "/" <= Prefix(dst) + name {
      AboveOrBelow(Prefix(dst), name, other);
    } else {
      assert other[..|Prefix(dst)|] == Prefix(dst);
    }
  }

  lemma PrefixInjective(p: string, a: string, b: string)
    ensures p + a == p + b <==> a == b
  {
    assert (p + a)[|p|..] == a && (p + b)[|p|..] == b;
  }

  lemma PutOneMore(before: map<string, string>, dst: string, tree: Tree, disk: map<string, string>, name: string, content: string)
    requires FreshDir(dst, before) && PutBelow(before, dst, tree, disk)
    ensures PutBelow(before, dst, tree[name := content], disk[Prefix(dst) + name := content])
  {
    var p := Prefix(dst);
    var tree', disk' := tree[name := content], disk[p + name := content];
    assert p <= p + name;
    assert p + name !in before;
    forall n ensures n in tree' <==> p + n in disk' { PrefixInjective(p, n, name); }
    forall n | n in tree' ensures disk'[p + n] == tree'[n] { PrefixInjective(p, n, name); }
  }

  /** Writing parts below a new directory puts exactly the received tree there. */
  lemma {:induction false} WrittenIsReceived(dst: string, disk: map<string, string>, parts: seq<Part>)
    requires FreshDir(dst, disk)
    ensures WriteAll(dst, disk, parts).Some? <==> ReceiveAll(parts).Some?
    ensures ReceiveAll(parts).Some? ==> PutBelow(disk, dst, ReceiveAll(parts).value, WriteAll(dst, disk, parts).value)
  {
    if parts == [] {
      forall n ensures Prefix(dst) + n !in disk { assert Prefix(dst) <= Prefix(dst) + n; }
    } else {
      var front, part := parts[..|parts| - 1], parts[|parts| - 1];
      WrittenIsReceived(dst, disk, front);
      if ReceiveAll(front).Some? && UploadPath(Base(part.filename)).Ok? {
        var name := UploadPath(Base(part.filename)).value;
        UploadStaysBelow(dst, Base(part.filename));
        assert Join(dst, name) == Prefix(dst) + name;
        BlockedBelow(disk, dst, ReceiveAll(front).value, WriteAll(dst, disk, front).value, name);
        PutOneMore(disk, dst, ReceiveAll(front).value, WriteAll(dst, disk, front).value, name, part.content);
      }
    }
  }

  lemma WriteNext(dst: string, disk: map<string, string>, parts: seq<Part>, i: nat)
    requires i < |parts| && WriteAll(dst, disk, parts[..i]).Some?
    ensures WriteAll(dst, disk, parts[..i + 1]) == WritePart(dst, WriteAll(dst, disk, parts[..i]).value, parts[i])
  {
    assert parts[..i + 1][..i] == parts[..i];
  }

  /** Parts up to one that cannot be written. */
  lemma WriteStops(dst: string, disk: map<string, string>, parts: seq<Part>, i: nat)
    requires FreshDir(dst, disk) && i < |parts|
    requires WriteAll(dst, disk, parts[..i]).Some? && WriteAll(dst, disk, parts[..i + 1]).None?
    ensures ReceiveAll(parts[..i]).Some? && ReceiveAll(parts[..i + 1]).None? && ReceiveAll(parts).None?
    ensures PutBelow(disk, dst, ReceiveAll(parts[..i]).value, WriteAll(dst, disk, parts[..i]).value)
  {
    WrittenIsReceived(dst, disk, parts[..i]);
    WrittenIsReceived(dst, disk, parts[..i + 1]);
    ReceiveStops(parts, i + 1);
  }

  /** The server's disk. */
  class Disk {
    var files: map<string, string>

    constructor (files: map<string, string>)
      ensures this.files == files
    {
      this.files := files;
    }

    /** readMulipartFiles. It stops at the first part that is refused or in the way; what came before
        stays. */
    method ReadMultipartFiles(dst: string, parts: seq<Part>) returns (ok: bool, ghost done: nat)
      requires FreshDir(dst, files)
      modifies this
      ensures done <= |parts| && ReceiveAll(parts[..done]).Some?
      ensures PutBelow(old(files), dst, ReceiveAll(parts[..done]).value, files)
      ensures ok <==> done == |parts|
      ensures !ok ==> ReceiveAll(parts[..done + 1]).None? && ReceiveAll(parts).None?
      ensures ok ==> ReceiveAll(parts).Some? && WriteAll(dst, old(files), parts) == Some(files)
    {
      ok, done := WriteParts(dst, parts);
      assert parts[..|parts|] == parts;
      if ok {
        WrittenIsReceived(dst, old(files), parts);
      } else {
        WriteStops(dst, old(files), parts, done);
      }
    }

    /** The same, told by what is written. */
    method WriteParts(dst: string, parts: seq<Part>) returns (ok: bool, ghost done: nat)
      modifies this
      ensures done <= |parts| && WriteAll(dst, old(files), parts[..done]) == Some(files)
      ensures ok <==> done == |parts|
      ensures !ok ==> WriteAll(dst, old(files), parts[..done + 1]).None?
    {
      for i := 0 to |parts|
        invariant WriteAll(dst, old(files), parts[..i]) == Some(files)
      {
        WriteNext(dst, old(files), parts, i);
        var written := WriteMultipartFile(dst, parts[i]);
        if !written { return false, i; }
      }
      return true, |parts|;
    }

    method WriteMultipartFile(dst: string, part: Part) returns (ok: bool)
      modifies this
      ensures ok <==> WritePart(dst, old(files), part).Some?
      ensures files == if ok then WritePart(dst, old(files), part).value else old(files)
    {
      var name := UploadPath(Base(part.filename));
      if name.Err? || Blocked(files, Join(dst, name.value)) { return false; }
      files := files[Join(dst, name.value) := part.content];
      return true;
    }
  }

  /** Two directories, neither inside the other. */
  predicate Apart(a: string, b: string) {
    !(Prefix(a) <= Prefix(b)) && !(Prefix(b) <= Prefix(a))
  }

  lemma PrefixesCompare(a: string, b: string, s: string)
    requires a <= s && b <= s
    ensures a <= b || b <= a
  {
    if |a| <= |b| { assert b[..|a|] == s[..|a|]; } else { assert a[..|b|] == s[..|b|]; }
  }

  lemma PrefixThrough(a: string, p: string, b: string)
    requires a <= p && p + "/" <= b
    ensures a <= b
  {
    assert b[..|p| + 1] == p + "/" && (p + "/")[..|a|] == p[..|a|];
  }

  /** Unpacking into one directory leaves the other as new as it was. */
  lemma StaysFresh(before: map<string, string>, a: string, b: string, tree: Tree, files: map<string, string>)
    requires FreshDir(a, before) && FreshDir(b, before) && Apart(a, b) && PutBelow(before, a, tree, files)
    ensures FreshDir(b, files)
  {
    forall p | p in files ensures !(Prefix(b) <= p) && !(p + "/" <= Prefix(b)) {
      if p !in before {
        if Prefix(b) <= p { PrefixesCompare(Prefix(a), Prefix(b), p); }
        if p + "/" <= Prefix(b) { PrefixThrough(Prefix(a), p, Prefix(b)); }
      }
    }
  }

  lemma {:induction false} ReceiveStops(parts: seq<Part>, k: nat)
    requires k <= |parts| && ReceiveAll(parts[..k]).None?
    ensures ReceiveAll(parts).None?
    decreases |parts| - k
  {
    if k == |parts| {
      assert parts[..k] == parts;
    } else {
      assert parts[..k + 1][..k] == parts[..k];
      ReceiveStops(parts, k + 1);
    }
  }

  function Restrict(tree: Tree, names: seq<string>): Tree {
    map n | n in names && n in tree :: tree[n]
  }

  predicate IsClient(mode: Mode) {
    mode.PathSegment? || mode.Python?
  }

  /** One part arrives as the file it was made from, or is refused for its name. */
  lemma ReceiveOne(mode: Mode, tree: Tree, files: Tree, n: string)
    requires RealTree(tree) && IsClient(mode) && n in tree && IsBytes(n) && files.Keys <= tree.Keys
    ensures Receive(files, Part(Escape(mode, AsBytes(n)), tree[n])) == if Acceptable(n) then Some(files[n := tree[n]]) else None
  {
    var e := Escape(mode, AsBytes(n));
    assert Base(e) == e && UploadPath(e) == if Acceptable(n) then Ok(n) else UploadPath(e) by {
      EncodedPathComesBack(mode, AsBytes(n));
    }
    assert UploadPath(e).Ok? <==> Acceptable(n) by { EncodedPathComesBack(mode, AsBytes(n)); }
    NotBlocked(tree, files, n);
  }

  lemma NotBlocked(tree: Tree, files: Tree, n: string)
    requires RealTree(tree) && n in tree && files.Keys <= tree.Keys
    ensures !Blocked(files, n)
  {
    forall other | other in files ensures !(other + "/" <= n) && !(n + "/" <= other) {
      assert other in tree;
    }
  }

  lemma RestrictNext(tree: Tree, front: seq<string>, n: string)
    requires n in tree
    ensures Restrict(tree, front)[n := tree[n]] == Restrict(tree, front + [n])
  {
  }

  lemma ReceiveSnoc(parts: seq<Part>, part: Part)
    ensures ReceiveAll(parts + [part]) == match ReceiveAll(parts) { case None => None case Some(files) => Receive(files, part) }
  {
    assert (parts + [part])[..|parts|] == parts;
  }

  predicate Sends(tree: Tree, names: seq<string>) {
    forall i :: 0 <= i < |names| ==> names[i] in tree && IsBytes(names[i])
  }

  lemma PartsSnoc(mode: Mode, tree: Tree, front: seq<string>, n: string)
    requires Sends(tree, front) && n in tree && IsBytes(n)
    ensures Sends(tree, front + [n])
    ensures Parts(mode, tree, front + [n]) == Parts(mode, tree, front) + [Part(Escape(mode, AsBytes(n)), tree[n])]
  {
    assert (front + [n])[..|front|] == front;
  }

  /** Sending files of a tree, in any order, recreates exactly those files, or fails exactly when
      one of their names begins with two dots. */
  lemma {:induction false} ReceivedIsSent(mode: Mode, tree: Tree, names: seq<string>)
    requires RealTree(tree) && IsClient(mode) && Sends(tree, names)
    ensures ReceiveAll(Parts(mode, tree, names)) ==
      if forall i :: 0 <= i < |names| ==> Acceptable(names[i]) then Some(Restrict(tree, names)) else None
  {
    if names == [] {
      assert Restrict(tree, names) == map[];
    } else {
      var front, n := names[..|names| - 1], names[|names| - 1];
      assert names == front + [n];
      ReceivedIsSent(mode, tree, front);
      PartsSnoc(mode, tree, front, n);
      ReceiveSnoc(Parts(mode, tree, front), Part(Escape(mode, AsBytes(n)), tree[n]));
      ReceiveOne(mode, tree, Restrict(tree, front), n);
      RestrictNext(tree, front, n);
    }
  }

  ghost predicate Permutation(a: seq<string>, b: seq<string>) {
    multiset(a) == multiset(b)
  }

  /** The files of a tree that a client sends. */
  function Matching(tree: Tree, matches: string -> bool): Tree {
    map n | n in tree && matches(n) :: tree[n]
  }

  /** A list with the elements of a filtered walk names exactly the matching files. */
  lemma SentNames(tree: Tree, walk: seq<string>, matches: string -> bool, sent: seq<string>)
    requires Walks(walk, tree) && Permutation(sent, Filter(matches, walk))
    ensures forall n :: n in sent <==> n in tree && matches(n)
  {
    forall n ensures n in sent <==> n in tree && matches(n) {
      FilterCount(matches, walk, n);
      assert n in sent <==> n in multiset(sent);
      assert n in walk <==> n in multiset(walk);
    }
  }

  predicate NamedAs(part: Part, name: string) {
    UploadPath(Base(part.filename)) == Ok(name)
  }

  lemma TwoParts(p: Part, q: Part)
    ensures ReceiveAll([p, q]) == match Receive(map[], p) { case None => None case Some(files) => Receive(files, q) }
  {
    assert [p, q] == [p] + [q] && [p] == [] + [p];
    ReceiveSnoc([], p);
    ReceiveSnoc([p], q);
  }

  lemma OnePart(p: Part, n: string)
    requires NamedAs(p, n)
    ensures Receive(map[], p) == Some(map[n := p.content])
  {
    assert !Blocked(map[], n);
  }

  /** A file and a directory of one name do not go together, whichever comes first. */
  lemma FileAndDirectory(p: Part, q: Part, n: string, m: string)
    requires NamedAs(p, n) && NamedAs(q, m) && n + "/" <= m
    ensures ReceiveAll([p, q]).None? && ReceiveAll([q, p]).None?
  {
    TwoParts(p, q);
    TwoParts(q, p);
    OnePart(p, n);
    OnePart(q, m);
    var first, second := map[n := p.content], map[m := q.content];
    assert n in first && Blocked(first, m);
    assert m in second && Blocked(second, n);
  }

  /** Of two parts for one file, the later one stays. */
  lemma LaterPartStays(p: Part, q: Part, n: string)
    requires NamedAs(p, n) && NamedAs(q, n)
    ensures ReceiveAll([p, q]) == Some(map[n := q.content])
  {
    TwoParts(p, q);
    OnePart(p, n);
    NotInOwnWay(map[n := p.content], n);
    assert map[n := p.content][n := q.content] == map[n := q.content];
  }

  lemma NotInOwnWay(files: Tree, n: string)
    requires files.Keys == {n}
    ensures !Blocked(files, n)
  {
    forall other | other in files ensures !(other + "/" <= n) && !(n + "/" <= other) {
      assert other == n && |n + "/"| > |n|;
    }
  }

  /** However the parts are ordered, the server ends up with the client's matching files, exactly
      when none of them has a name that begins with two dots; otherwise the upload fails. */
  lemma UploadRecreatesTree(mode: Mode, tree: Tree, walk: seq<string>, matches: string -> bool, sent: seq<string>)
    requires RealTree(tree) && IsClient(mode) && Walks(walk, tree)
    requires Permutation(sent, Filter(matches, walk))
    ensures Sends(tree, sent)
    ensures ReceiveAll(Parts(mode, tree, sent)) ==
      if forall n :: n in tree && matches(n) ==> Acceptable(n) then Some(Matching(tree, matches)) else None
  {
    SentNames(tree, walk, matches, sent);
    forall i | 0 <= i < |sent| ensures sent[i] in tree && IsBytes(sent[i]) {
      assert sent[i] in sent;
    }
    assert Restrict(tree, sent) == Matching(tree, matches);
    ReceivedIsSent(mode, tree, sent);
  }

  /** walk visits every file below a directory once. */
  ghost predicate WalksDir(walk: seq<string>, dst: string, disk: map<string, string>) {
    multiset(walk) == multiset(set p | p in disk && Prefix(dst) <= p :: p[|Prefix(dst)|..])
  }

  lemma WalksTheTree(before: map<string, string>, dst: string, tree: Tree, disk: map<string, string>, walk: seq<string>)
    requires FreshDir(dst, before) && PutBelow(before, dst, tree, disk) && WalksDir(walk, dst, disk)
    ensures Walks(walk, tree)
  {
    var p := Prefix(dst);
    var found := set q | q in disk && p <= q :: q[|p|..];
    forall n ensures n in found <==> n in tree {
      assert (p + n)[|p|..] == n && p <= p + n;
      if n in found {
        var q :| q in disk && p <= q && q[|p|..] == n;
        assert q == p + n;
      }
    }
    assert found == tree.Keys;
  }

  /** End to end: from either client, with the parts in any order, unpacked into any new directory
      and walked in any order, the server applies the non-down sql files that match, sorted by their
      path relative to the client's directory, with their contents. */
  lemma UploadPipeline(mode: Mode, tree: Tree, walk: seq<string>, matches: string -> bool, sent: seq<string>,
                       dst: string, before: map<string, string>, walk': seq<string>)
    requires RealTree(tree) && IsClient(mode) && Walks(walk, tree)
    requires Permutation(sent, Filter(matches, walk))
    requires forall n :: n in tree && matches(n) ==> Acceptable(n)
    requires FreshDir(dst, before)
    ensures Sends(tree, sent) && WriteAll(dst, before, Parts(mode, tree, sent)).Some?
    ensures
      var disk := WriteAll(dst, before, Parts(mode, tree, sent)).value;
      WalksDir(walk', dst, disk) ==>
        && Read(dst, walk', disk).Some?
        && var files := Read(dst, walk', disk).value;
        && Sorted(Names(files)) && Distinct(Names(files))
        && forall f :: f in files <==> f.name in tree && matches(f.name) && IsMigration(f.name) && f.content == tree[f.name]
  {
    UploadRecreatesTree(mode, tree, walk, matches, sent);
    var parts := Parts(mode, tree, sent);
    WrittenIsReceived(dst, before, parts);
    var disk := WriteAll(dst, before, parts).value;
    if WalksDir(walk', dst, disk) { AppliesMatching(tree, matches, dst, before, disk, walk'); }
  }

  lemma AppliesMatching(tree: Tree, matches: string -> bool, dst: string, before: map<string, string>,
                        disk: map<string, string>, walk: seq<string>)
    requires FreshDir(dst, before) && PutBelow(before, dst, Matching(tree, matches), disk) && WalksDir(walk, dst, disk)
    ensures Read(dst, walk, disk).Some?
    ensures
      var files := Read(dst, walk, disk).value;
      && Sorted(Names(files)) && Distinct(Names(files))
      && forall f :: f in files <==> f.name in tree && matches(f.name) && IsMigration(f.name) && f.content == tree[f.name]
  {
    WalksTheTree(before, dst, Matching(tree, matches), disk, walk);
    ReadsTheTree(dst, Matching(tree, matches), walk, disk);
    MigrationsAre(Matching(tree, matches), walk);
  }

  /** Uploading the same tree again, into whatever directory, is served from the template the first
      upload left behind: from then until the template is dropped, the later request never creates
      an empty database or runs a migration. */
  lemma SameTreeIsReused(env: Env, tree: Tree, root: string, walk: seq<string>, disk: map<string, string>,
                         root': string, walk': seq<string>, disk': map<string, string>,
                         earlier: seq<Event>, events: seq<Event>, id: nat, files: seq<File>)
    requires ValidEnv(env) && Walks(walk, tree) && Unpacked(root, tree, disk) && Walks(walk', tree) && Unpacked(root', tree, disk')
    requires Read(root, walk, disk) == Some(files) && files != []
    requires TemplateOf(env, files) in Run(env, earlier).dbs && Drop(TemplateOf(env, files)) !in events
    requires id !in Run(env, earlier).requests && id in RunFrom(env, Run(env, earlier), events).requests
    requires var job := RunFrom(env, Run(env, earlier), events).requests[id].job;
      job.kind.FromMigrations? && Read(root', walk', disk') == Some(job.migrations)
    ensures var r := RunFrom(env, Run(env, earlier), events).requests[id]; r.phase.Begin? || r.phase.Fixture?
  {
    RelocationInvariance(env, tree, root, walk, disk, root', walk', disk');
    RunHasGoodNames(env, earlier);
    HitsNeverMigrate(env, Run(env, earlier), events, TemplateOf(env, files), id);
  }
}
