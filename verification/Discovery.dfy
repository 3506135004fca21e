/** Finding a running instance by the labels of its container, filling in what a request leaves
    out, and removing containers by label (internal/database/database.go,
    internal/apiserver/server.go, internal/container, cmd/stop.go). */
module Discovery {
  import opened Prelude
  import opened Decimal

  const LABEL_MANAGED := "managed_by"
  const LABEL_TYPE := "dbctl_type"
  const LABEL_CUSTOM := "dbctl_custom"
  const LABEL_PORT := "dbctl_port"
  const LABEL_USER := "dbctl_user"
  const LABEL_PASS := "dbctl_pass"
  const LABEL_NAME := "dbctl_name"
  const DBCTL := "dbctl"

  type Labels = map<string, string>

  datatype Container = Container(id: string, labels: Labels)

  /** How to reach an instance. */
  datatype Access = Access(user: string, pass: string, name: string, port: nat)

  datatype Instance = Instance(id: string, dbType: string, tag: string, access: Access)

  function InstanceLabels(dbType: string, tag: string): Labels {
    if tag == "" then map[LABEL_TYPE := dbType] else map[LABEL_TYPE := dbType, LABEL_CUSTOM := tag]
  }

  function ConnectionLabels(a: Access): Labels {
    map[LABEL_PORT := Utoa(a.port), LABEL_USER := a.user, LABEL_PASS := a.pass, LABEL_NAME := a.name]
  }

  /** The labels a container is started with. */
  function StartLabels(dbType: string, a: Access, tag: string): Labels {
    var base := map[LABEL_MANAGED := DBCTL] + map[LABEL_TYPE := dbType] + ConnectionLabels(a);
    if tag == "" then base else base[LABEL_CUSTOM := tag]
  }

  /** A missing label reads as the empty string. */
  function Lookup(labels: Labels, key: string): string {
    if key in labels then labels[key] else ""
  }

  predicate Matches(c: Container, filter: Labels) {
    && LABEL_MANAGED in c.labels && c.labels[LABEL_MANAGED] == DBCTL
    && forall k :: k in filter ==> k in c.labels && c.labels[k] == filter[k]
  }

  /** container.List */
  function List(running: seq<Container>, filter: Labels): seq<Container> {
    if running == [] then []
    else List(running[..|running| - 1], filter) + if Matches(running[|running| - 1], filter) then [running[|running| - 1]] else []
  }

  datatype Finding = Found(instance: Instance) | NoInstance | Ambiguous | BadPort

  function FindInstance(running: seq<Container>, dbType: string, tag: string): Finding {
    var found := List(running, InstanceLabels(dbType, tag));
    if |found| == 0 then NoInstance
    else if |found| > 1 then Ambiguous
    else
      var c := found[0];
      var port := Lookup(c.labels, LABEL_PORT);
      var parsed := if port == "" then Some(0) else ParseUint(port, UINT32_LIMIT);
      match parsed
      case None => BadPort
      case Some(n) =>
        Found(Instance(c.id, dbType, Lookup(c.labels, LABEL_CUSTOM),
                       Access(Lookup(c.labels, LABEL_USER), Lookup(c.labels, LABEL_PASS), Lookup(c.labels, LABEL_NAME), n)))
  }

  const TYPES: seq<string> := ["postgres", "redis", "mongodb"]

  /** FindInstances. A type is left out when no instance or several match; a broken port label
      is an error. */
  method FindInstances(running: seq<Container>, tag: string) returns (r: Result<map<string, Instance>>)
    ensures r.Err? <==> exists t :: t in TYPES && FindInstance(running, t, tag).BadPort?
    ensures r.Ok? ==> forall t ::
      t in r.value <==> t in TYPES && |List(running, InstanceLabels(t, tag))| == 1
    ensures r.Ok? ==> forall t :: t in r.value ==> FindInstance(running, t, tag) == Found(r.value[t])
  {
    var out: map<string, Instance> := map[];
    for i := 0 to |TYPES|
      invariant forall t :: t in TYPES[..i] ==> !FindInstance(running, t, tag).BadPort?
      invariant forall t :: t in out <==> t in TYPES[..i] && |List(running, InstanceLabels(t, tag))| == 1
      invariant forall t :: t in out ==> FindInstance(running, t, tag) == Found(out[t])
    {
      var t := TYPES[i];
      assert TYPES[..i + 1] == TYPES[..i] + [t];
      match FindInstance(running, t, tag) {
        case Found(instance) => out := out[t := instance];
        case NoInstance =>
        case Ambiguous =>
        case BadPort => return Err("invalid port label");
      }
    }
    assert TYPES[..|TYPES|] == TYPES;
    return Ok(out);
  }

  function Defaults(dbType: string): Access {
    if dbType == "postgres" then Access("postgres", "postgres", "postgres", 15432)
    else if dbType == "redis" then Access("", "", "", 16379)
    else Access("mongodb", "mongodb", "admin", 27017)
  }

  function First(a: string, b: string): string {
    if a != "" then a else b
  }

  /** Fills the gaps of one set of details from another. */
  function Filled(a: Access, b: Access): Access {
    Access(First(a.user, b.user), First(a.pass, b.pass), First(a.name, b.name), if a.port != 0 then a.port else b.port)
  }

  /** A create request on its way through the server. */
  class CreateRequest {
    const dbType: string
    var access: Access

    constructor (dbType: string, access: Access)
      ensures this.dbType == dbType && this.access == access
    {
      this.dbType, this.access := dbType, access;
    }

    /** instanceFor and applyInstance: the snapshot taken at start up comes first, then docker. */
    method ApplyInstance(snapshot: map<string, Instance>, running: seq<Container>, tag: string)
      modifies this
      ensures access ==
        if dbType in snapshot then Filled(old(access), snapshot[dbType].access)
        else if FindInstance(running, dbType, tag).Found? then
          Filled(old(access), FindInstance(running, dbType, tag).instance.access)
        else old(access)
    {
      var instance: Option<Instance> := None;
      if dbType in snapshot {
        instance := Some(snapshot[dbType]);
      } else {
        var found := FindInstance(running, dbType, tag);
        if found.Found? { instance := Some(found.instance); }
      }
      if instance.None? { return; }
      var i := instance.value.access;
      if access.port == 0 { access := access.(port := i.port); }
      if access.user == "" { access := access.(user := i.user); }
      if access.pass == "" { access := access.(pass := i.pass); }
      if access.name == "" { access := access.(name := i.name); }
    }

    /** The defaults createPostgresDB, createRedisDB and createMongoDBDB fall back to. */
    method ApplyDefaults()
      modifies this
      ensures access == Filled(old(access), Defaults(dbType))
    {
      var d := Defaults(dbType);
      if access.port == 0 { access := access.(port := d.port); }
      if access.user == "" { access := access.(user := d.user); }
      if access.pass == "" { access := access.(pass := d.pass); }
      if access.name == "" { access := access.(name := d.name); }
    }

    /** An empty request reaches the one instance its server is responsible for, whether it is
        looked up now or was already there at start up; a snapshot that says otherwise wins. The
        details are exactly those it was started with, unless a gap in them was filled. */
    method Resolve(snapshot: map<string, Instance>, running: seq<Container>, tag: string,
                   ghost c: Container, ghost a: Access, ghost custom: string)
      requires access == Access("", "", "", 0)
      modifies this
      ensures access == Resolved(dbType, snapshot, running, tag)
      ensures dbType in snapshot ==> access == Filled(snapshot[dbType].access, Defaults(dbType))
      ensures OnlyMatch(running, dbType, tag, c, a, custom) && dbType !in snapshot ==>
        access == Filled(a, Defaults(dbType)) && (access == a <==> NoGap(a, Defaults(dbType)))
      ensures dbType !in snapshot && !FindInstance(running, dbType, tag).Found? ==> access == Defaults(dbType)
    {
      if OnlyMatch(running, dbType, tag, c, a, custom) { StartedIsFound(running, dbType, tag, c, a, custom); }
      FilledIsSame(a, Defaults(dbType));
      ApplyInstance(snapshot, running, tag);
      ApplyDefaults();
    }
  }

  /** The details an empty request ends up with. */
  function Resolved(dbType: string, snapshot: map<string, Instance>, running: seq<Container>, tag: string): Access {
    var nothing := Access("", "", "", 0);
    var known :=
      if dbType in snapshot then Filled(nothing, snapshot[dbType].access)
      else if FindInstance(running, dbType, tag).Found? then Filled(nothing, FindInstance(running, dbType, tag).instance.access)
      else nothing;
    Filled(known, Defaults(dbType))
  }

  /** One running container answers, and it was started with details a. */
  ghost predicate OnlyMatch(running: seq<Container>, dbType: string, tag: string, c: Container, a: Access, custom: string) {
    List(running, InstanceLabels(dbType, tag)) == [c] && c.labels == StartLabels(dbType, a, custom) && a.port < UINT32_LIMIT
  }

  /** b has nothing to add to a. */
  predicate NoGap(a: Access, b: Access) {
    && (a.user == "" ==> b.user == "") && (a.pass == "" ==> b.pass == "")
    && (a.name == "" ==> b.name == "") && (a.port == 0 ==> b.port == 0)
  }

  lemma FilledIsSame(a: Access, b: Access)
    ensures Filled(a, b) == a <==> NoGap(a, b)
  {
  }

  lemma LabelsReadBack(dbType: string, a: Access, tag: string)
    ensures var labels := StartLabels(dbType, a, tag);
      && Lookup(labels, LABEL_PORT) == Utoa(a.port) && Lookup(labels, LABEL_USER) == a.user
      && Lookup(labels, LABEL_PASS) == a.pass && Lookup(labels, LABEL_NAME) == a.name
      && Lookup(labels, LABEL_CUSTOM) == tag
  {
  }

  /** Reading the labels of the only match gives back what it was started with. */
  lemma StartedIsFound(running: seq<Container>, dbType: string, tag: string, c: Container, a: Access, custom: string)
    requires OnlyMatch(running, dbType, tag, c, a, custom)
    ensures FindInstance(running, dbType, tag) == Found(Instance(c.id, dbType, custom, a))
  {
    LabelsReadBack(dbType, a, custom);
    ParseOfUtoa(a.port, UINT32_LIMIT);
  }

  /** A started container answers to its own type, and to no label or its own label only. */
  lemma StartedMatchesIff(c: Container, dbType: string, a: Access, custom: string, wanted: string, tag: string)
    requires c.labels == StartLabels(dbType, a, custom)
    ensures Matches(c, InstanceLabels(wanted, tag)) <==> wanted == dbType && (tag == "" || tag == custom)
  {
    var filter := InstanceLabels(wanted, tag);
    assert LABEL_TYPE in filter && filter[LABEL_TYPE] == wanted;
    assert tag != "" ==> LABEL_CUSTOM in filter && filter[LABEL_CUSTOM] == tag;
    assert c.labels[LABEL_TYPE] == dbType && c.labels[LABEL_MANAGED] == DBCTL;
    assert custom == "" ==> LABEL_CUSTOM !in c.labels;
  }

  // ---- Stopping by label --------------------------------------------------------------

  function Without(running: seq<Container>, ids: set<string>): seq<Container> {
    if running == [] then []
    else Without(running[..|running| - 1], ids) + if running[|running| - 1].id in ids then [] else [running[|running| - 1]]
  }

  function NotMatching(running: seq<Container>, filter: Labels): seq<Container> {
    if running == [] then []
    else NotMatching(running[..|running| - 1], filter) + if Matches(running[|running| - 1], filter) then [] else [running[|running| - 1]]
  }

  function Ids(s: seq<Container>): set<string> {
    set c | c in s :: c.id
  }

  predicate DistinctIds(s: seq<Container>) {
    forall i, j :: 0 <= i < j < |s| ==> s[i].id != s[j].id
  }

  lemma {:induction false} ListIs(running: seq<Container>, filter: Labels)
    ensures forall c :: c in List(running, filter) <==> c in running && Matches(c, filter)
  {
    if running != [] {
      ListIs(running[..|running| - 1], filter);
      assert running == running[..|running| - 1] + [running[|running| - 1]];
    }
  }

  lemma {:induction false} WithoutIs(running: seq<Container>, ids: set<string>)
    ensures forall c :: c in Without(running, ids) <==> c in running && c.id !in ids
  {
    if running != [] {
      WithoutIs(running[..|running| - 1], ids);
      assert running == running[..|running| - 1] + [running[|running| - 1]];
    }
  }

  lemma {:induction false} WithoutNothing(running: seq<Container>)
    ensures Without(running, {}) == running
  {
    if running != [] {
      WithoutNothing(running[..|running| - 1]);
      assert running == running[..|running| - 1] + [running[|running| - 1]];
    }
  }

  lemma {:induction false} WithoutTwice(running: seq<Container>, a: set<string>, b: set<string>)
    ensures Without(Without(running, a), b) == Without(running, a + b)
  {
    if running != [] {
      var front, last := running[..|running| - 1], running[|running| - 1];
      WithoutTwice(front, a, b);
      var kept := Without(front, a);
      if last.id !in a {
        assert (kept + [last])[..|kept|] == kept;
      } else {
        assert Without(running, a) == kept;
      }
    }
  }

  lemma {:induction false} WithoutListed(running: seq<Container>, filter: Labels, ids: set<string>)
    requires forall c :: c in running ==> (c.id in ids <==> Matches(c, filter))
    ensures Without(running, ids) == NotMatching(running, filter)
  {
    if running != [] {
      assert running[|running| - 1] in running;
      WithoutListed(running[..|running| - 1], filter, ids);
    }
  }

  lemma WithoutNext(running: seq<Container>, items: seq<Container>, k: nat)
    requires k < |items|
    ensures Without(Without(running, Ids(items[..k])), {items[k].id}) == Without(running, Ids(items[..k + 1]))
  {
    WithoutTwice(running, Ids(items[..k]), {items[k].id});
    assert items[..k + 1] == items[..k] + [items[k]];
    assert Ids(items[..k + 1]) == Ids(items[..k]) + {items[k].id};
  }

  lemma SameIdSameContainer(s: seq<Container>, a: Container, b: Container)
    requires DistinctIds(s) && a in s && b in s && a.id == b.id
    ensures a == b
  {
    var i :| 0 <= i < |s| && s[i] == a;
    var j :| 0 <= j < |s| && s[j] == b;
  }

  /** The containers docker runs. */
  class Docker {
    var running: seq<Container>

    constructor (running: seq<Container>)
      ensures this.running == running
    {
      this.running := running;
    }

    method TerminateByID(id: string) returns (ok: bool)
      modifies this
      ensures running == if ok then Without(old(running), {id}) else old(running)
    {
      ok := *;
      if ok { running := Without(running, {id}); }
    }

    /** removeByInfo and removeByLabel: terminates what the filter lists, one by one, and gives up
        at the first failure. What was counted is gone and nothing else; containers the filter does
        not list are never touched. */
    method RemoveListed(filter: Labels) returns (removed: nat, ok: bool)
      requires DistinctIds(running)
      modifies this
      ensures removed <= |List(old(running), filter)|
      ensures running == Without(old(running), Ids(List(old(running), filter)[..removed]))
      ensures ok <==> removed == |List(old(running), filter)|
      ensures ok ==> running == NotMatching(old(running), filter)
      ensures forall c :: c in old(running) && !Matches(c, filter) ==> c in running
      ensures forall c :: c in running ==> c in old(running)
    {
      var items := List(running, filter);
      ghost var all := running;
      WithoutNothing(all);
      removed := 0;
      assert Ids(items[..0]) == {};
      while removed < |items|
        invariant removed <= |items|
        invariant running == Without(all, Ids(items[..removed]))
      {
        var done := TerminateByID(items[removed].id);
        if !done {
          SomeRemoved(all, filter, removed);
          return removed, false;
        }
        WithoutNext(all, items, removed);
        removed := removed + 1;
      }
      SomeRemoved(all, filter, removed);
      AllRemoved(all, filter);
      return removed, true;
    }
  }

  /** Part of what a filter lists is gone. */
  lemma SomeRemoved(all: seq<Container>, filter: Labels, k: nat)
    requires DistinctIds(all) && k <= |List(all, filter)|
    ensures forall c :: c in all && !Matches(c, filter) ==> c in Without(all, Ids(List(all, filter)[..k]))
    ensures forall c :: c in Without(all, Ids(List(all, filter)[..k])) ==> c in all
  {
    ListIs(all, filter);
    KeepsOthers(all, filter, List(all, filter)[..k]);
  }

  lemma AllRemoved(all: seq<Container>, filter: Labels)
    requires DistinctIds(all)
    ensures Without(all, Ids(List(all, filter)[..|List(all, filter)|])) == NotMatching(all, filter)
  {
    var items := List(all, filter);
    assert items[..|items|] == items;
    ListedIds(all, filter);
    WithoutListed(all, filter, Ids(items));
  }

  lemma ListedIds(all: seq<Container>, filter: Labels)
    requires DistinctIds(all)
    ensures forall c :: c in all ==> (c.id in Ids(List(all, filter)) <==> Matches(c, filter))
  {
    ListIs(all, filter);
    forall c | c in all && c.id in Ids(List(all, filter)) ensures Matches(c, filter) {
      var d :| d in List(all, filter) && d.id == c.id;
      SameIdSameContainer(all, c, d);
    }
  }

  lemma KeepsOthers(all: seq<Container>, filter: Labels, items: seq<Container>)
    requires DistinctIds(all) && forall c :: c in items ==> c in all && Matches(c, filter)
    ensures forall c :: c in Without(all, Ids(items)) ==> c in all
    ensures forall c :: c in all && !Matches(c, filter) ==> c in Without(all, Ids(items))
  {
    WithoutIs(all, Ids(items));
    forall c | c in all && !Matches(c, filter) ensures c.id !in Ids(items) {
      if c.id in Ids(items) {
        var d :| d in items && d.id == c.id;
        SameIdSameContainer(all, c, d);
      }
    }
  }

  // ---- What finding and filling mean ----------------------------------------------------

  /** Nothing, several, or one: and then its port label decides. An instance without one comes from
      an older dbctl and has no port. */
  lemma FindInstanceIs(running: seq<Container>, dbType: string, tag: string)
    ensures var found := FindInstance(running, dbType, tag);
      && (found.NoInstance? <==> List(running, InstanceLabels(dbType, tag)) == [])
      && (found.Ambiguous? <==> |List(running, InstanceLabels(dbType, tag))| > 1)
      && forall c :: List(running, InstanceLabels(dbType, tag)) == [c] ==>
          && (LABEL_PORT !in c.labels ==> found.Found? && found.instance.access.port == 0)
          && (LABEL_PORT in c.labels && c.labels[LABEL_PORT] != "" ==>
              (found.Found? <==> ParseUint(c.labels[LABEL_PORT], UINT32_LIMIT).Some?))
  {
  }

  /** A container that dbctl does not manage is never listed, whatever its other labels. */
  lemma {:induction false} UnmanagedIsSpared(running: seq<Container>, filter: Labels, c: Container)
    requires Lookup(c.labels, "managed_by") != "dbctl"
    ensures c !in List(running, filter)
  {
    ListIs(running, filter);
  }

  /** Each detail that was sent is kept, and each gap is filled from the same detail. */
  lemma SentDetailsWin(a: Access, b: Access)
    ensures var f := Filled(a, b);
      && f.user == (if a.user == "" then b.user else a.user) && f.pass == (if a.pass == "" then b.pass else a.pass)
      && f.name == (if a.name == "" then b.name else a.name) && f.port == (if a.port == 0 then b.port else a.port)
  {
  }
}
