/** What every step of the redis allocator keeps, and what follows for whole runs. */
module RedisSafety {
  import opened Prelude
  import opened Decimal
  import opened RedisAllocator

  ghost predicate IndexOk(env: Env, dbs: map<int, Keyspace>, r: Request) {
    Holds(r) ==>
      && 1 <= r.phase.index < r.count
      && (r.phase.Orphaned? || r.phase.index < env.databases)
      && ClaimKey(r.phase.index) !in Content(env.initial, 0)
      && !Free(dbs, r.phase.index)
  }

  ghost predicate ContentOk(env: Env, dbs: map<int, Keyspace>, r: Request) {
    && (r.phase.Loading? ==>
        r.phase.done <= |r.actions| && RunActions(env, map[], r.actions[..r.phase.done]) == Some(Content(dbs, r.phase.index)))
    && (r.handed.Some? ==> r.handed == RunActions(env, map[], r.actions))
    && (r.phase.Holding? ==> r.handed.Some?)
  }

  ghost predicate RequestOk(env: Env, dbs: map<int, Keyspace>, r: Request) {
    IndexOk(env, dbs, r) && ContentOk(env, dbs, r) && r.count < INT64_LIMIT
  }

  /** The index a request has claimed and not released: in flight, live or orphaned. */
  function Held(s: State, id: nat): Option<int> {
    if id in s.requests && Holds(s.requests[id]) then Some(s.requests[id].phase.index) else None
  }

  /** No two unreleased claims share an index. */
  ghost predicate Exclusive(s: State) {
    forall i, j :: i != j && Held(s, i).Some? ==> Held(s, i) != Held(s, j)
  }

  ghost predicate ClaimedBy(s: State, key: string) {
    exists id :: Held(s, id).Some? && key == ClaimKey(Held(s, id).value)
  }

  /** Index 0 holds what it held at the start plus exactly one claim key per unreleased index. */
  ghost predicate Conserved(env: Env, s: State) {
    && (forall key :: key in Content(s.dbs, 0) <==> key in Content(env.initial, 0) || ClaimedBy(s, key))
    && (forall key :: key in Content(env.initial, 0) ==> Content(s.dbs, 0)[key] == Content(env.initial, 0)[key])
  }

  ghost predicate Inv(env: Env, s: State) {
    && (forall id :: id in s.requests ==> RequestOk(env, s.dbs, s.requests[id]))
    && Exclusive(s)
    && Conserved(env, s)
  }

  lemma RunActionsNext(env: Env, keys: Keyspace, actions: seq<Action>, k: nat)
    requires k < |actions|
    ensures RunActions(env, keys, actions[..k + 1]) ==
      match RunActions(env, keys, actions[..k]) {
        case None => None
        case Some(before) =>
          var (after, ok) := env.exec(before, actions[k]);
          if ok && !actions[k].Malformed? then Some(after) else None
      }
  {
    assert actions[..k + 1][..k] == actions[..k];
  }

  /** A claim adds its own key to index 0, flushes its own index, and changes nothing else. */
  lemma AcquireFrame(env: Env, dbs: map<int, Keyspace>, count: int)
    ensures
      var (dbs', got) := AcquireEffect(env, dbs, count);
      match got
      case NoneLeft => dbs' == dbs && forall i :: 1 <= i < count ==> !Free(dbs, i)
      case ScriptError(i) =>
        && 1 <= i < count && i >= env.databases && Free(dbs, i) && (forall j :: 1 <= j < i ==> !Free(dbs, j))
        && Content(dbs', 0) == Content(dbs, 0)[ClaimKey(i) := "1"]
        && forall j :: j != 0 ==> Content(dbs', j) == Content(dbs, j)
      case Claimed(i) =>
        && 1 <= i < count && i < env.databases && Free(dbs, i) && (forall j :: 1 <= j < i ==> !Free(dbs, j))
        && Content(dbs', 0) == Content(dbs, 0)[ClaimKey(i) := "1"]
        && Content(dbs', i) == map[]
        && forall j :: j != 0 && j != i ==> Content(dbs', j) == Content(dbs, j)
  {
  }

  lemma ConservedAfterClaim(env: Env, s: State, s': State, id: nat, index: int)
    requires Conserved(env, s) && Held(s, id).None? && Held(s', id) == Some(index)
    requires Content(s'.dbs, 0) == Content(s.dbs, 0)[ClaimKey(index) := "1"] && Free(s.dbs, index)
    requires forall i :: i != id ==> Held(s', i) == Held(s, i)
    ensures Conserved(env, s')
  {
    forall key | ClaimedBy(s, key) ensures ClaimedBy(s', key) {
      var i :| Held(s, i).Some? && key == ClaimKey(Held(s, i).value);
      assert Held(s', i) == Held(s, i);
    }
    forall key | ClaimedBy(s', key) && key != ClaimKey(index) ensures ClaimedBy(s, key) {
      var i :| Held(s', i).Some? && key == ClaimKey(Held(s', i).value);
      assert Held(s', i) == Held(s, i);
    }
    assert ClaimedBy(s', ClaimKey(index));
  }

  /** A step that changes neither index 0 nor which indexes are held keeps the books. */
  lemma ConservedUnchanged(env: Env, s: State, s': State)
    requires Conserved(env, s) && Content(s'.dbs, 0) == Content(s.dbs, 0)
    requires forall id :: Held(s', id) == Held(s, id)
    ensures Conserved(env, s')
  {
    forall key ensures ClaimedBy(s, key) <==> ClaimedBy(s', key) {
      if ClaimedBy(s, key) {
        var i :| Held(s, i).Some? && key == ClaimKey(Held(s, i).value);
        assert Held(s', i) == Held(s, i);
      }
      if ClaimedBy(s', key) {
        var i :| Held(s', i).Some? && key == ClaimKey(Held(s', i).value);
        assert Held(s', i) == Held(s, i);
      }
    }
  }

  /** Other requests do not notice a step that leaves their claim and their index alone. */
  lemma OthersKeep(env: Env, s: State, s': State, id: nat)
    requires forall j :: j in s.requests ==> RequestOk(env, s.dbs, s.requests[j])
    requires s'.requests.Keys == s.requests.Keys + {id}
    requires forall j :: j in s.requests && j != id ==> s'.requests[j] == s.requests[j]
    requires forall j :: j != id && Held(s, j).Some? ==>
      Content(s'.dbs, Held(s, j).value) == Content(s.dbs, Held(s, j).value) && !Free(s'.dbs, Held(s, j).value)
    ensures forall j :: j in s'.requests && j != id ==> RequestOk(env, s'.dbs, s'.requests[j])
  {
    forall j | j in s'.requests && j != id ensures RequestOk(env, s'.dbs, s'.requests[j]) {
      assert RequestOk(env, s.dbs, s.requests[j]);
      assert Held(s, j).Some? <==> Holds(s.requests[j]);
    }
  }

  /** Held indexes are claimed and never index 0. */
  lemma HeldIsClaimed(env: Env, s: State, id: nat)
    requires Inv(env, s) && Held(s, id).Some?
    ensures !Free(s.dbs, Held(s, id).value) && 1 <= Held(s, id).value
    ensures s.requests[id].phase.Orphaned? || Held(s, id).value < env.databases
    ensures ClaimKey(Held(s, id).value) !in Content(env.initial, 0)
  {
    assert RequestOk(env, s.dbs, s.requests[id]);
  }

  /** A claim of a free index by a request that had none. */
  lemma ClaimKeeps(env: Env, s: State, s': State, id: nat, i: int)
    requires Inv(env, s) && Held(s, id).None? && Held(s', id) == Some(i) && Free(s.dbs, i)
    requires s'.requests.Keys == s.requests.Keys + {id} && RequestOk(env, s'.dbs, s'.requests[id])
    requires forall j :: j in s.requests && j != id ==> s'.requests[j] == s.requests[j]
    requires Content(s'.dbs, 0) == Content(s.dbs, 0)[ClaimKey(i) := "1"]
    requires forall j :: j != 0 && j != i ==> Content(s'.dbs, j) == Content(s.dbs, j)
    ensures Inv(env, s')
  {
    forall j | j != id ensures Held(s', j) == Held(s, j) {}
    assert Conserved(env, s') by { ConservedAfterClaim(env, s, s', id, i); }
    forall j | j != id && Held(s, j).Some?
      ensures Content(s'.dbs, Held(s, j).value) == Content(s.dbs, Held(s, j).value)
      ensures !Free(s'.dbs, Held(s, j).value) && Held(s, j).value != i
    {
      HeldIsClaimed(env, s, j);
    }
    OthersKeep(env, s, s', id);
  }

  lemma AcquireKeeps(env: Env, s: State, id: nat, fault: Fault)
    requires Inv(env, s) && id in s.requests && s.requests[id].phase.Acquiring?
    ensures Inv(env, Apply(env, s, Step(id, fault)))
  {
    var s' := Apply(env, s, Step(id, fault));
    AcquireFrame(env, s.dbs, s.requests[id].count);
    if Held(s', id).Some? {
      assert RequestOk(env, s.dbs, s.requests[id]);
      AcquiredIsOk(env, s.dbs, s.requests[id], fault);
      ClaimKeeps(env, s, s', id, Held(s', id).value);
    } else {
      assert RequestOk(env, s.dbs, s.requests[id]);
      NothingHeldKeeps(env, s, s', id);
    }
  }

  /** A request that holds nothing before and after, on an unchanged server. */
  lemma NothingHeldKeeps(env: Env, s: State, s': State, id: nat)
    requires Inv(env, s) && s'.dbs == s.dbs && Held(s, id).None? && Held(s', id).None?
    requires s'.requests.Keys == s.requests.Keys + {id}
    requires forall j :: j in s.requests && j != id ==> s'.requests[j] == s.requests[j]
    requires id in s.requests ==> s'.requests[id].handed == s.requests[id].handed && s'.requests[id].actions == s.requests[id].actions
    requires id !in s.requests ==> s'.requests[id].handed.None?
    requires s'.requests[id].count < INT64_LIMIT
    ensures Inv(env, s')
  {
    forall j ensures Held(s', j) == Held(s, j) {}
    ConservedUnchanged(env, s, s');
    assert id in s.requests ==> RequestOk(env, s.dbs, s.requests[id]);
    forall j | Held(s, j).Some? ensures !Free(s.dbs, Held(s, j).value) { HeldIsClaimed(env, s, j); }
    OthersKeep(env, s, s', id);
    assert RequestOk(env, s'.dbs, s'.requests[id]);
  }

  lemma AcquiredIsOk(env: Env, dbs: map<int, Keyspace>, r: Request, fault: Fault)
    requires r.phase.Acquiring? && ContentOk(env, dbs, r) && r.count < INT64_LIMIT
    requires forall key :: key in Content(env.initial, 0) ==> key in Content(dbs, 0)
    ensures var (dbs', r') := StepAcquire(env, dbs, r, fault); RequestOk(env, dbs', r')
  {
    AcquireFrame(env, dbs, r.count);
    assert r.actions[..0] == [];
  }

  lemma LoadedIsOk(env: Env, dbs: map<int, Keyspace>, r: Request, fault: Fault)
    requires r.phase.Loading? && RequestOk(env, dbs, r)
    ensures var (dbs', r') := StepLoad(env, dbs, r, fault); RequestOk(env, dbs', r')
  {
    LoadFrame(env, dbs, r, fault);
    if r.phase.done < |r.actions| {
      RunActionsNext(env, map[], r.actions, r.phase.done);
    } else {
      assert r.actions[..r.phase.done] == r.actions;
    }
  }

  /** Loading writes its own index and keeps its claim. */
  lemma LoadFrame(env: Env, dbs: map<int, Keyspace>, r: Request, fault: Fault)
    requires r.phase.Loading?
    ensures
      var (dbs', r') := StepLoad(env, dbs, r, fault);
      && Holds(r') && r'.phase.index == r.phase.index
      && forall i :: i != r.phase.index ==> Content(dbs', i) == Content(dbs, i)
  {
  }

  lemma LoadKeeps(env: Env, s: State, id: nat, fault: Fault)
    requires Inv(env, s) && id in s.requests && s.requests[id].phase.Loading?
    ensures Inv(env, Apply(env, s, Step(id, fault)))
  {
    assert RequestOk(env, s.dbs, s.requests[id]);
    LoadedIsOk(env, s.dbs, s.requests[id], fault);
    LoadFrame(env, s.dbs, s.requests[id], fault);
    OwnIndexOnly(env, s, Apply(env, s, Step(id, fault)), id);
  }

  /** A step that touches one held index only, and gives up no claim, keeps the invariant. */
  lemma OwnIndexOnly(env: Env, s: State, s': State, id: nat)
    requires Inv(env, s) && Held(s, id).Some? && Held(s', id) == Held(s, id)
    requires s'.requests.Keys == s.requests.Keys
    requires forall j :: j in s.requests && j != id ==> s'.requests[j] == s.requests[j]
    requires forall i :: i != Held(s, id).value ==> Content(s'.dbs, i) == Content(s.dbs, i)
    requires RequestOk(env, s'.dbs, s'.requests[id])
    ensures Inv(env, s')
  {
    HeldIsClaimed(env, s, id);
    forall j ensures Held(s', j) == Held(s, j) {}
    ConservedUnchanged(env, s, s');
    forall j | j != id && Held(s, j).Some?
      ensures Content(s'.dbs, Held(s, j).value) == Content(s.dbs, Held(s, j).value) && !Free(s'.dbs, Held(s, j).value)
    {
      HeldIsClaimed(env, s, j);
    }
    OthersKeep(env, s, s', id);
  }

  lemma WriteKeeps(env: Env, s: State, id: nat, content: Keyspace)
    requires Inv(env, s)
    ensures Inv(env, Apply(env, s, Write(id, content)))
  {
    var s' := Apply(env, s, Write(id, content));
    if id in s.requests && s.requests[id].phase.Holding? {
      assert RequestOk(env, s.dbs, s.requests[id]);
      OwnIndexOnly(env, s, s', id);
    }
  }

  /** Releasing takes exactly one key out of index 0 and empties exactly one other index. */
  lemma RemoveFrame(env: Env, dbs: map<int, Keyspace>, index: int)
    requires 0 < index < env.databases
    ensures
      var dbs' := RemoveEffect(env, dbs, index).0;
      && Content(dbs', 0) == Content(dbs, 0) - {ClaimKey(index)}
      && Content(dbs', index) == map[]
      && forall j :: j != 0 && j != index ==> Content(dbs', j) == Content(dbs, j)
  {
  }

  lemma RemoveConserves(env: Env, s: State, s': State, id: nat, index: int)
    requires Conserved(env, s) && Exclusive(s)
    requires Held(s, id) == Some(index) && Held(s', id).None? && ClaimKey(index) !in Content(env.initial, 0)
    requires Content(s'.dbs, 0) == Content(s.dbs, 0) - {ClaimKey(index)}
    requires forall i :: i != id ==> Held(s', i) == Held(s, i)
    ensures Conserved(env, s')
  {
    forall key | ClaimedBy(s, key) && key != ClaimKey(index) ensures ClaimedBy(s', key) {
      var i :| Held(s, i).Some? && key == ClaimKey(Held(s, i).value);
      assert Held(s', i) == Held(s, i);
    }
    forall key | ClaimedBy(s', key) ensures ClaimedBy(s, key) && key != ClaimKey(index) {
      var i :| Held(s', i).Some? && key == ClaimKey(Held(s', i).value);
      assert Held(s', i) == Held(s, i);
      if key == ClaimKey(index) { ClaimKeyInjective(Held(s, i).value, index); }
    }
  }

  /** Releasing one index leaves the other claims and databases alone. */
  lemma RemoveSparesOthers(env: Env, s: State, id: nat, index: int, j: nat)
    requires Inv(env, s) && Held(s, id) == Some(index) && index < env.databases && j != id && Held(s, j).Some?
    ensures
      var dbs' := RemoveEffect(env, s.dbs, index).0;
      Content(dbs', Held(s, j).value) == Content(s.dbs, Held(s, j).value) && !Free(dbs', Held(s, j).value)
  {
    HeldIsClaimed(env, s, id);
    HeldIsClaimed(env, s, j);
    RemoveFrame(env, s.dbs, index);
    assert Held(s, j) != Held(s, id);
    if ClaimKey(Held(s, j).value) == ClaimKey(index) { ClaimKeyInjective(Held(s, j).value, index); }
  }

  /** RemoveDB by a holder, after which its request holds nothing. */
  lemma ReleaseKeeps(env: Env, s: State, s': State, id: nat, index: int)
    requires Inv(env, s) && Held(s, id) == Some(index) && index < env.databases
    requires s'.dbs == RemoveEffect(env, s.dbs, index).0
    requires s'.requests == s.requests[id := s.requests[id].(phase := Released)]
    ensures Inv(env, s')
  {
    forall j | j != id ensures Held(s', j) == Held(s, j) {}
    assert Conserved(env, s') by {
      HeldIsClaimed(env, s, id);
      RemoveFrame(env, s.dbs, index);
      RemoveConserves(env, s, s', id, index);
    }
    forall j | j != id && Held(s, j).Some?
      ensures Content(s'.dbs, Held(s, j).value) == Content(s.dbs, Held(s, j).value) && !Free(s'.dbs, Held(s, j).value)
    {
      RemoveSparesOthers(env, s, id, index, j);
    }
    OthersKeep(env, s, s', id);
    assert RequestOk(env, s.dbs, s.requests[id]);
    assert RequestOk(env, s'.dbs, s'.requests[id]);
  }

  lemma RemoveKeeps(env: Env, s: State, id: nat, fault: Fault)
    requires Inv(env, s)
    ensures Inv(env, Apply(env, s, Remove(id, fault)))
  {
    if id in s.requests && s.requests[id].phase.Holding? && !fault.Refused? {
      HeldIsClaimed(env, s, id);
      ReleaseKeeps(env, s, Apply(env, s, Remove(id, fault)), id, s.requests[id].phase.index);
    }
  }

  /** A holder may release its index: it is a real one, and comes out empty and free. */
  lemma HolderReleases(env: Env, events: seq<Event>, id: nat)
    requires id in Run(env, events).requests && Run(env, events).requests[id].phase.Holding?
    ensures
      var s := Run(env, events);
      var index := s.requests[id].phase.index;
      var (dbs', ok) := RemoveEffect(env, s.dbs, index);
      && 0 < index < env.databases && index < INT64_LIMIT && ok && Free(dbs', index) && Content(dbs', index) == map[]
      && Content(dbs', 0) == Content(s.dbs, 0) - {ClaimKey(index)}
      && forall j :: j != 0 && j != index ==> Content(dbs', j) == Content(s.dbs, j)
  {
    RunKeeps(env, events);
    var s := Run(env, events);
    assert RequestOk(env, s.dbs, s.requests[id]);
    HeldIsClaimed(env, s, id);
    RemoveFrame(env, s.dbs, s.requests[id].phase.index);
  }

  /** Requests that have claimed nothing may come and go. */
  lemma BeforeClaimKeeps(env: Env, s: State, e: Event)
    requires Inv(env, s) && (e.Arrive? || e.Count?)
    ensures Inv(env, Apply(env, s, e))
  {
    var s' := Apply(env, s, e);
    if s' != s { NothingHeldKeeps(env, s, s', e.id); }
  }

  lemma ApplyKeeps(env: Env, s: State, e: Event)
    requires Inv(env, s)
    ensures Inv(env, Apply(env, s, e))
  {
    match e
    case Arrive(_, _) => BeforeClaimKeeps(env, s, e);
    case Count(_, _) => BeforeClaimKeeps(env, s, e);
    case Step(id, fault) =>
      if id in s.requests && s.requests[id].phase.Acquiring? {
        AcquireKeeps(env, s, id, fault);
      } else if id in s.requests && s.requests[id].phase.Loading? {
        LoadKeeps(env, s, id, fault);
      }
    case Write(id, content) => WriteKeeps(env, s, id, content);
    case Remove(id, fault) => RemoveKeeps(env, s, id, fault);
  }

  lemma InitHolds(env: Env)
    ensures Inv(env, Init(env))
  {
  }

  lemma {:induction false} RunFromKeeps(env: Env, s: State, events: seq<Event>)
    requires Inv(env, s)
    ensures Inv(env, RunFrom(env, s, events))
  {
    if events != [] {
      RunFromKeeps(env, s, events[..|events| - 1]);
      ApplyKeeps(env, RunFrom(env, s, events[..|events| - 1]), events[|events| - 1]);
    }
  }

  lemma RunKeeps(env: Env, events: seq<Event>)
    ensures Inv(env, Run(env, events))
  {
    InitHolds(env);
    RunFromKeeps(env, Init(env), events);
  }

  // ---- Main results ---------------------------------------------------------------------

  /** In every run, no two unreleased claims share an index, every claimed index lies in
      1..count-1 for the count its own caller saw, and a database that is being filled or handed
      out really exists. Index 0 is never among them. */
  lemma Exclusion(env: Env, events: seq<Event>)
    ensures Exclusive(Run(env, events))
    ensures forall id :: Held(Run(env, events), id).Some? ==>
      var r := Run(env, events).requests[id];
      1 <= r.phase.index < r.count && (r.phase.Orphaned? || r.phase.index < env.databases)
  {
    RunKeeps(env, events);
    var s := Run(env, events);
    forall id | Held(s, id).Some?
      ensures 1 <= s.requests[id].phase.index < s.requests[id].count
      ensures s.requests[id].phase.Orphaned? || s.requests[id].phase.index < env.databases
    {
      assert RequestOk(env, s.dbs, s.requests[id]);
    }
  }

  /** In every run, index 0 keeps what it held and gains exactly the claim keys of the indexes
      being filled, handed out or orphaned; an index is free exactly when nobody holds it. */
  lemma Conservation(env: Env, events: seq<Event>, index: int)
    ensures Conserved(env, Run(env, events))
    ensures Free(Run(env, events).dbs, index) <==>
      ClaimKey(index) !in Content(env.initial, 0) && forall id :: Held(Run(env, events), id) != Some(index)
  {
    RunKeeps(env, events);
    FreeIff(env, Run(env, events), index);
  }

  lemma FreeIff(env: Env, s: State, index: int)
    requires Conserved(env, s)
    ensures Free(s.dbs, index) <==> ClaimKey(index) !in Content(env.initial, 0) && forall id :: Held(s, id) != Some(index)
  {
    if ClaimedBy(s, ClaimKey(index)) {
      var i :| Held(s, i).Some? && ClaimKey(index) == ClaimKey(Held(s, i).value);
      ClaimKeyInjective(index, Held(s, i).value);
    }
    if id :| Held(s, id) == Some(index) {
      assert ClaimedBy(s, ClaimKey(index));
    }
  }

  /** Whatever earlier holders left behind, a database that was handed out held exactly what the
      fixtures put into an empty one. */
  lemma Freshness(env: Env, events: seq<Event>, id: nat)
    requires id in Run(env, events).requests && Run(env, events).requests[id].handed.Some?
    ensures Run(env, events).requests[id].handed == RunActions(env, map[], Run(env, events).requests[id].actions)
  {
    RunKeeps(env, events);
    assert RequestOk(env, Run(env, events).dbs, Run(env, events).requests[id]);
  }

  /** A step of a request changes no index but 0 and the one it holds before or after. */
  lemma StepTouchesOwn(env: Env, s: State, id: nat, fault: Fault, index: int)
    requires index != 0
    ensures var s' := Apply(env, s, Step(id, fault));
      Held(s, id) != Some(index) && Held(s', id) != Some(index) ==> Content(s'.dbs, index) == Content(s.dbs, index)
  {
    if id in s.requests && s.requests[id].phase.Acquiring? {
      AcquireFrame(env, s.dbs, s.requests[id].count);
    } else if id in s.requests && s.requests[id].phase.Loading? {
      LoadFrame(env, s.dbs, s.requests[id], fault);
    }
  }

  lemma EventTouchesOwn(env: Env, s: State, e: Event, index: int)
    requires index != 0
    ensures var s' := Apply(env, s, e);
      Held(s, e.id) != Some(index) && Held(s', e.id) != Some(index) ==> Content(s'.dbs, index) == Content(s.dbs, index)
  {
    if e.Step? { StepTouchesOwn(env, s, e.id, e.fault, index); }
  }

  lemma OnlyOwnRequest(env: Env, s: State, e: Event, other: nat)
    requires other in s.requests && other != e.id
    ensures other in Apply(env, s, e).requests && Apply(env, s, e).requests[other] == s.requests[other]
  {
  }

  /** Nothing one request or its client does changes any index but 0 and its own, whether the index
      is free, was claimed before the run began, or is held by another request; and no other
      request's record. */
  lemma Isolation(env: Env, events: seq<Event>, e: Event, index: int)
    requires index != 0
    ensures
      var s, s' := Run(env, events), Apply(env, Run(env, events), e);
      && (Held(s, e.id) != Some(index) && Held(s', e.id) != Some(index) ==> Content(s'.dbs, index) == Content(s.dbs, index))
      && (forall other :: other in s.requests && other != e.id ==> other in s'.requests && s'.requests[other] == s.requests[other])
      && (forall other :: other != e.id && Held(s, other) == Some(index) ==> Content(s'.dbs, index) == Content(s.dbs, index))
  {
    var s, s' := Run(env, events), Apply(env, Run(env, events), e);
    EventTouchesOwn(env, s, e, index);
    forall other | other in s.requests && other != e.id
      ensures other in s'.requests && s'.requests[other] == s.requests[other]
    {
      OnlyOwnRequest(env, s, e, other);
    }
    forall other | other != e.id && Held(s, other) == Some(index)
      ensures Held(s, e.id) != Some(index) && Held(s', e.id) != Some(index)
    {
      RunKeeps(env, events);
      NotOwn(env, s, e, other);
    }
  }

  lemma NotOwn(env: Env, s: State, e: Event, other: nat)
    requires Inv(env, s) && other != e.id && Held(s, other).Some?
    ensures Held(Apply(env, s, e), e.id) != Held(s, other)
  {
    OnlyOwnRequest(env, s, e, other);
    ApplyKeeps(env, s, e);
    assert Held(Apply(env, s, e), other) == Held(s, other);
  }

  /** An acquire that is answered gives the least index nobody holds. It is turned away exactly when
      every index below the caller's count is claimed, and gets an index to work with exactly when
      the least free one is a database the server has: otherwise the claim is made, and lost. */
  lemma AcquireGivesLeast(env: Env, events: seq<Event>, id: nat)
    requires id in Run(env, events).requests && Run(env, events).requests[id].phase.Acquiring?
    ensures
      var s := Run(env, events);
      var s' := Apply(env, s, Step(id, NoFault));
      var least := LeastFree(s.dbs, 1, s.requests[id].count);
      && (s'.requests[id].phase.Failed? <==> forall i :: 1 <= i < s.requests[id].count ==> !Free(s.dbs, i))
      && (s'.requests[id].phase.Loading? <==> least.Some? && least.value < env.databases)
      && (s'.requests[id].phase.Orphaned? <==> least.Some? && least.value >= env.databases)
      && (!s'.requests[id].phase.Failed? ==>
          && Held(s', id).Some? && Held(s', id) == least
          && (forall other :: Held(s, other) != Held(s', id))
          && forall i :: 1 <= i < Held(s', id).value ==> !Free(s.dbs, i))
      && (s'.requests[id].phase.Loading? ==> Content(s'.dbs, Held(s', id).value) == map[])
  {
    RunKeeps(env, events);
    var s := Run(env, events);
    AcquireFrame(env, s.dbs, s.requests[id].count);
    var s' := Apply(env, s, Step(id, NoFault));
    if Held(s', id).Some? {
      FreeIff(env, s, Held(s', id).value);
    }
  }
}
