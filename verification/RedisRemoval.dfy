/** What happens when RemoveDB is called with an index by somebody who need not hold it
    (internal/database/redis/redis.go). */
module RedisRemoval {
  import opened Prelude
  import opened Decimal
  import opened RedisAllocator
  import opened RedisSafety

  function StrayRemove(env: Env, s: State, index: int): State {
    s.(dbs := RemoveEffect(env, s.dbs, index).0)
  }

  ghost predicate NoRemoves(events: seq<Event>) {
    forall i :: 0 <= i < |events| ==> !events[i].Remove?
  }

  /** Some continuation without a remove gives an index that was taken in s, in this run or before
      it, to a request that did not have it in s. */
  ghost predicate GivesAway(env: Env, s: State, s': State, more: seq<Event>, id: nat, taken: int) {
    NoRemoves(more) && !Free(s.dbs, taken) && Held(RunFrom(env, s', more), id) == Some(taken) && Held(s, id) != Some(taken)
  }

  /** What a caller can observe: no taken index lost its content, and none will be given away. */
  ghost predicate Harmless(env: Env, s: State, index: int) {
    var s' := StrayRemove(env, s, index);
    && (forall taken :: taken != 0 && !Free(s.dbs, taken) ==> Content(s'.dbs, taken) == Content(s.dbs, taken))
    && (forall more, id, taken :: !GivesAway(env, s, s', more, id, taken))
  }

  // ---- Taken indexes stay taken ---------------------------------------------------------

  /** Only removing takes a key out of index 0. */
  lemma KeysStay(env: Env, s: State, e: Event, key: string)
    requires Inv(env, s) && !e.Remove? && key in Content(s.dbs, 0)
    ensures key in Content(Apply(env, s, e).dbs, 0)
  {
    if e.id in s.requests {
      var r := s.requests[e.id];
      assert IndexOk(env, s.dbs, r);
      if r.phase.Acquiring? { AcquireFrame(env, s.dbs, r.count); }
      if e.Step? && r.phase.Loading? { LoadFrame(env, s.dbs, r, e.fault); }
    }
  }

  /** An index that is newly held was free. */
  lemma NewWasFree(env: Env, s: State, e: Event, id: nat)
    requires Held(Apply(env, s, e), id).Some? && Held(Apply(env, s, e), id) != Held(s, id)
    ensures Free(s.dbs, Held(Apply(env, s, e), id).value)
  {
    if id in s.requests { AcquireFrame(env, s.dbs, s.requests[id].count); }
  }

  lemma TakenStep(env: Env, s: State, e: Event, taken: int)
    requires Inv(env, s) && !e.Remove? && !Free(s.dbs, taken)
    ensures !Free(Apply(env, s, e).dbs, taken)
    ensures forall id :: Held(Apply(env, s, e), id) == Some(taken) ==> Held(s, id) == Some(taken)
  {
    KeysStay(env, s, e, ClaimKey(taken));
    forall id | Held(Apply(env, s, e), id) == Some(taken) ensures Held(s, id) == Some(taken) {
      if Held(s, id) != Some(taken) { NewWasFree(env, s, e, id); }
    }
  }

  lemma {:induction false} TakenStays(env: Env, s: State, more: seq<Event>, taken: int)
    requires Inv(env, s) && NoRemoves(more) && !Free(s.dbs, taken)
    ensures !Free(RunFrom(env, s, more).dbs, taken)
    ensures forall id :: Held(RunFrom(env, s, more), id) == Some(taken) ==> Held(s, id) == Some(taken)
  {
    if more != [] {
      var before := more[..|more| - 1];
      TakenStays(env, s, before, taken);
      RunFromKeeps(env, s, before);
      TakenStep(env, RunFrom(env, s, before), more[|more| - 1], taken);
    }
  }

  /** Removing an index that is free, or that is no database, leaves the books as they are. */
  lemma StrayKeeps(env: Env, s: State, index: int)
    requires Inv(env, s) && (!(0 < index < env.databases) || Free(s.dbs, index))
    ensures Inv(env, StrayRemove(env, s, index))
    ensures Content(StrayRemove(env, s, index).dbs, 0) == Content(s.dbs, 0)
  {
    var s' := StrayRemove(env, s, index);
    if 0 < index < env.databases {
      RemoveFrame(env, s.dbs, index);
      assert Content(s'.dbs, 0) == Content(s.dbs, 0);
      forall j ensures Held(s', j) == Held(s, j) {}
      ConservedUnchanged(env, s, s');
      forall j | j in s.requests ensures RequestOk(env, s'.dbs, s'.requests[j]) {
        assert RequestOk(env, s.dbs, s.requests[j]);
      }
    }
  }

  // ---- A freed index is given out again -------------------------------------------------

  lemma {:induction false} Bound(ids: set<nat>) returns (b: nat)
    ensures forall id :: id in ids ==> id < b
    decreases |ids|
  {
    if ids == {} {
      b := 0;
    } else {
      var x :| x in ids;
      var rest := Bound(ids - {x});
      b := if rest > x then rest else x + 1;
      forall id | id in ids ensures id < b {
        assert id == x || id in ids - {x};
      }
    }
  }

  /** A new caller who sees just enough databases to be given index. */
  function Caller(id: nat, index: nat): seq<Event> {
    [Arrive(id, []), Count(id, Some(["databases", Itoa(index + 1)])), Step(id, NoFault)]
  }

  lemma CallerRuns(env: Env, s: State, id: nat, index: nat)
    requires id !in s.requests && 0 < index < INT64_LIMIT - 1
    ensures RunFrom(env, s, Caller(id, index)) ==
      Apply(env, s.(requests := s.requests[id := Request([], index + 1, Acquiring, None)]), Step(id, NoFault))
  {
    var reply := Some(["databases", Itoa(index + 1)]);
    ReportIsBelieved("databases", index + 1);
    ThreeEvents(env, s, Arrive(id, []), Count(id, reply), Step(id, NoFault));
    ArriveAndCount(env, s, id, [], reply);
  }

  /** The caller claims the least free index. */
  lemma CallerClaims(env: Env, s: State, id: nat, index: nat) returns (s': State, i: int)
    requires id !in s.requests && 0 < index < env.databases < INT64_LIMIT && Free(s.dbs, index)
    ensures s' == RunFrom(env, s, Caller(id, index))
    ensures 1 <= i <= index && Free(s.dbs, i) && (forall j :: 1 <= j < i ==> !Free(s.dbs, j))
    ensures s'.requests == s.requests[id := Request([], index + 1, Loading(i, 0), None)]
    ensures Content(s'.dbs, 0) == Content(s.dbs, 0)[ClaimKey(i) := "1"]
  {
    CallerRuns(env, s, id, index);
    AcquireFrame(env, s.dbs, index + 1);
    s' := RunFrom(env, s, Caller(id, index));
    i := LeastFree(s.dbs, 1, index + 1).value;
  }

  /** One claim later, everything up to it is taken and what was free above it still is. */
  lemma ClaimLeaves(dbs: map<int, Keyspace>, dbs': map<int, Keyspace>, i: int, index: int)
    requires Content(dbs', 0) == Content(dbs, 0)[ClaimKey(i) := "1"] && i != index && Free(dbs, index)
    requires forall j :: 1 <= j < i ==> !Free(dbs, j)
    ensures Free(dbs', index) && forall j :: 1 <= j < i + 1 ==> !Free(dbs', j)
  {
    if ClaimKey(i) == ClaimKey(index) { ClaimKeyInjective(i, index); }
    forall j | 1 <= j < i + 1 ensures !Free(dbs', j) {
      assert j < i ==> !Free(dbs, j);
    }
  }

  ghost predicate RecordsStay(s: State, s': State) {
    forall other :: other in s.requests ==> other in s'.requests && s'.requests[other] == s.requests[other]
  }

  /** From any state in which an index is free, enough new callers get to it. */
  lemma {:induction false} TakeFreed(env: Env, s: State, index: nat, low: nat) returns (more: seq<Event>, id: nat)
    requires 0 < index < env.databases < INT64_LIMIT && Free(s.dbs, index)
    requires 1 <= low <= index && forall j :: 1 <= j < low ==> !Free(s.dbs, j)
    ensures id !in s.requests && NoRemoves(more) && Held(RunFrom(env, s, more), id) == Some(index)
    ensures RecordsStay(s, RunFrom(env, s, more))
    decreases index - low
  {
    id := Bound(s.requests.Keys);
    more := Caller(id, index);
    var s', i := CallerClaims(env, s, id, index);
    if i < index {
      ClaimLeaves(s.dbs, s'.dbs, i, index);
      var rest, next := TakeFreed(env, s', index, i + 1);
      RunConcat(env, s, more, rest);
      more, id := more + rest, next;
    }
  }

  // ---- Main results ---------------------------------------------------------------------

  /** In every run, a remove by somebody else is harmless exactly when the index is not a database
      of this server, or nobody has it: neither a request of this run nor anyone from before. */
  lemma StrayRemoveHarmlessIff(env: Env, events: seq<Event>, index: int)
    requires env.databases < INT64_LIMIT
    ensures Harmless(env, Run(env, events), index) <==> !(0 < index < env.databases) || Free(Run(env, events).dbs, index)
  {
    var s := Run(env, events);
    RunKeeps(env, events);
    if !(0 < index < env.databases) || Free(s.dbs, index) {
      FreeIsHarmless(env, s, index);
    } else {
      var s' := StrayRemove(env, s, index);
      RemoveFrame(env, s.dbs, index);
      var more, id := TakeFreed(env, s', index, 1);
      assert GivesAway(env, s, s', more, id, index);
    }
  }

  lemma FreeIsHarmless(env: Env, s: State, index: int)
    requires Inv(env, s) && (!(0 < index < env.databases) || Free(s.dbs, index))
    ensures Harmless(env, s, index)
  {
    var s' := StrayRemove(env, s, index);
    StrayKeeps(env, s, index);
    forall more, id, taken ensures !GivesAway(env, s, s', more, id, taken) {
      if NoRemoves(more) && !Free(s.dbs, taken) {
        assert !Free(s'.dbs, taken) && Held(s', id) == Held(s, id);
        TakenStays(env, s', more, taken);
      }
    }
    if 0 < index < env.databases { RemoveFrame(env, s.dbs, index); }
  }

  /** In every run, after a second remove of an index that somebody holds by now, there is a
      continuation in which two requests hold it. */
  lemma StaleRemoveShares(env: Env, events: seq<Event>, holder: nat, index: int) returns (more: seq<Event>, next: nat)
    requires env.databases < INT64_LIMIT && index < env.databases && Held(Run(env, events), holder) == Some(index)
    ensures
      var s := RunFrom(env, StrayRemove(env, Run(env, events), index), more);
      && next != holder && Held(s, next) == Held(s, holder) == Some(index) && !Exclusive(s)
  {
    var s := Run(env, events);
    RunKeeps(env, events);
    HeldIsClaimed(env, s, holder);
    RemoveFrame(env, s.dbs, index);
    more, next := TakeFreed(env, StrayRemove(env, s, index), index, 1);
    assert Held(RunFrom(env, StrayRemove(env, s, index), more), holder) == Some(index);
  }
}
