/** The code of internal/database/redis/redis.go on a server whose keyspaces change in place.
    Every call is recorded as one event of the allocator protocol. Between two calls of a request,
    any events of others may happen. */
module RedisServer {
  import opened Prelude
  import opened Decimal
  import opened RedisAllocator
  import opened RedisSafety
  import opened RedisLeaks
  import opened Tokenizer
  import Connections
  import Encoding

  ghost predicate SameElsewhere(before: map<int, Keyspace>, after: map<int, Keyspace>, index: int) {
    forall j :: j != index ==> Content(after, j) == Content(before, j)
  }

  /** The index a uri names. */
  function Named(uri: string): Option<int> {
    match Connections.DatabaseIn(uri)
    case Err(_) => None
    case Ok(path) => Atoi(path)
  }

  /** The uri a client is given for an index, whatever the credentials and wherever the server
      runs, names that index. */
  lemma UriNamesItsIndex(user: seq<Encoding.Byte>, pass: seq<Encoding.Byte>, port: nat, index: int, inside: bool)
    requires port < UINT32_LIMIT && 0 <= index < INT64_LIMIT
    ensures Named(Connections.HostUri(inside, Connections.RedisUri(user, pass, port, index, inside))) == Some(index)
  {
    Connections.RedisReadsBack(user, pass, port, index, inside);
  }

  /** Others leave the record of a request as it was, and the content of the index it holds. */
  lemma ForeignKeeps(env: Env, events: seq<Event>, e: Event, id: nat)
    requires e.id != id && id in Run(env, events).requests
    ensures
      var s, s' := Run(env, events), Apply(env, Run(env, events), e);
      && id in s'.requests && s'.requests[id] == s.requests[id]
      && (Held(s, id).Some? ==> Content(s'.dbs, Held(s, id).value) == Content(s.dbs, Held(s, id).value))
  {
    var s := Run(env, events);
    OnlyOwnRequest(env, s, e, id);
    if Held(s, id).Some? {
      RunKeeps(env, events);
      HeldIsClaimed(env, s, id);
      Isolation(env, events, e, Held(s, id).value);
    }
  }

  /** Where, from some point on, a request makes its first call. */
  ghost predicate FirstCall(h: seq<Event>, from: nat, at: nat, id: nat) {
    && from <= at < |h| && h[at].Step? && h[at].id == id
    && forall i :: from <= i < at ==> !(h[i].Step? && h[i].id == id)
  }

  lemma FirstCallStays(h: seq<Event>, h': seq<Event>, from: nat, at: nat, id: nat)
    requires FirstCall(h, from, at, id) && h <= h'
    ensures FirstCall(h', from, at, id) && h'[..at] == h[..at] && h'[at] == h[at]
  {
  }

  /** What a holder's remove that takes effect does to the protocol's state. */
  lemma ReleaseState(env: Env, events: seq<Event>, id: nat, fault: Fault)
    requires id in Run(env, events).requests && Run(env, events).requests[id].phase.Holding? && !fault.Refused?
    ensures
      var s := Run(env, events);
      var s' := Apply(env, s, Remove(id, fault));
      var index := s.requests[id].phase.index;
      && 0 < index < INT64_LIMIT && s'.dbs == RemoveEffect(env, s.dbs, index).0 && RemoveEffect(env, s.dbs, index).1
      && OnlyChanged(s.requests, s'.requests, id) && s'.requests[id].phase.Released?
      && Free(s'.dbs, index) && Content(s'.dbs, index) == map[] && Content(s'.dbs, 0) == Content(s.dbs, 0) - {ClaimKey(index)}
      && forall j :: j != 0 && j != index ==> Content(s'.dbs, j) == Content(s.dbs, j)
  {
    HolderReleases(env, events, id);
  }

  /** A server. view follows the protocol: the keyspaces and every request under way. alone says
      that requests are served one at a time, answers what becomes of the n-th event if it is a call
      of this program. */
  class Server {
    const env: Env
    const alone: bool
    const answers: nat -> Fault
    var dbs: map<int, Keyspace>
    var view: State
    var sent: nat
    ghost var history: seq<Event>

    ghost predicate Valid()
      reads this
    {
      dbs == view.dbs && view == Run(env, history) && sent == |history|
    }

    /** From some event on, everything is answered. */
    ghost predicate Answering(from: nat) {
      forall n: nat :: n >= from ==> answers(n) == NoFault
    }

    /** Only the record of this request changed, and only index 0 and its own index. */
    twostate predicate Serving(id: nat)
      reads this
    {
      && OnlyChanged(old(view.requests), view.requests, id)
      && forall j :: j != 0 && Held(old(view), id) != Some(j) && Held(view, id) != Some(j) ==>
          Content(dbs, j) == Content(old(dbs), j)
    }

    /** Index 0 has gained the claim key of the request's index, if it has one, and nothing else. */
    twostate predicate ClaimsOnly(id: nat)
      reads this
    {
      Content(dbs, 0) ==
        if Held(view, id).Some? then Content(old(dbs), 0)[ClaimKey(Held(view, id).value) := "1"] else Content(old(dbs), 0)
    }

    constructor (env: Env, alone: bool, answers: nat -> Fault)
      ensures Valid() && this.env == env && this.alone == alone && this.answers == answers && history == []
    {
      this.env, this.alone, this.answers := env, alone, answers;
      this.dbs := env.initial;
      this.history, this.sent := [], 0;
      this.view := Init(env);
    }

    method Record(e: Event)
      requires view == Run(env, history) && sent == |history|
      modifies this`history, this`view, this`sent
      ensures history == old(history) + [e] && sent == |history|
      ensures view == Apply(env, old(view), e) == Run(env, history)
    {
      RunSnoc(env, Init(env), history, e);
      history := history + [e];
      view := Apply(env, view, e);
      sent := sent + 1;
    }

    /** No call of the request to the server was added. */
    ghost predicate Idle(id: nat, before: seq<Event>)
      reads this
    {
      before <= history && forall i :: |before| <= i < |history| ==> !(history[i].Step? && history[i].id == id)
    }

    /** Whatever others do in between. */
    method Interleave(id: nat)
      requires Valid() && id in view.requests
      modifies this
      ensures Valid() && Idle(id, old(history))
      ensures id in view.requests && view.requests[id] == old(view.requests[id])
      ensures Held(view, id).Some? ==> Content(dbs, Held(view, id).value) == old(Content(dbs, Held(view, id).value))
      ensures alone ==> history == old(history) && view == old(view)
    {
      if alone { return; }
      var more: int := *;
      while more > 0
        invariant Valid() && Idle(id, old(history))
        invariant id in view.requests && view.requests[id] == old(view.requests[id])
        invariant Held(view, id).Some? ==> Content(dbs, Held(view, id).value) == old(Content(dbs, Held(view, id).value))
      {
        var e: Event := *;
        if e.id != id {
          ForeignKeeps(env, history, e, id);
          Record(e);
          dbs := view.dbs;
        }
        more := more - 1;
      }
    }

    /** The Lua script of acquireDBIndex. */
    method AcquireScript(count: int) returns (got: Acquired)
      modifies this`dbs
      ensures (dbs, got) == AcquireEffect(env, old(dbs), count)
    {
      var index := 1;
      while index < count
        invariant dbs == old(dbs) && LeastFree(dbs, index, count) == LeastFree(dbs, 1, count)
        decreases count - index
      {
        // SETNX
        if ClaimKey(index) !in Content(dbs, 0) {
          dbs := dbs[0 := Content(dbs, 0)[ClaimKey(index) := "1"]];
          // SELECT
          if index >= env.databases { return ScriptError(index); }
          // FLUSHDB
          dbs := dbs[index := map[]];
          return Claimed(index);
        }
        index := index + 1;
      }
      return NoneLeft;
    }

    /** The Lua script of RemoveDB, for an index other than 0. */
    method RemoveScript(index: int) returns (ok: bool)
      requires index != 0
      modifies this`dbs
      ensures (dbs, ok) == RemoveEffect(env, old(dbs), index)
    {
      if index < 0 || index >= env.databases { return false; }
      dbs := dbs[index := map[]];
      dbs := dbs[0 := Content(dbs, 0) - {ClaimKey(index)}];
      return true;
    }

    /** acquireDBIndex for one request. It succeeds exactly when it is answered and the least free
        index is a database; without an answer, or beyond what the server has, the claim stays. */
    method AcquireDBIndex(id: nat, count: nat) returns (index: Option<int>)
      requires Valid() && id in view.requests && view.requests[id].phase.Acquiring? && view.requests[id].count == count
      modifies this
      ensures Valid() && Serving(id) && ClaimsOnly(id) && history == old(history) + [Step(id, answers(old(sent)))]
      ensures
        var least, fault := LeastFree(old(dbs), 1, count), answers(old(sent));
        && (index.Some? <==> fault.NoFault? && least.Some? && least.value < env.databases)
        && (index.Some? ==>
            && index == least && Content(dbs, least.value) == map[]
            && view.requests[id] == old(view.requests[id]).(phase := Loading(least.value, 0)))
        && (index.None? && (fault.Refused? || least.None?) ==> view.requests[id].phase.Failed? && dbs == old(dbs))
        && (index.None? && !fault.Refused? && least.Some? ==> view.requests[id].phase == Orphaned(least.value))
    {
      AcquireFrame(env, dbs, count);
      var fault := answers(sent);
      if fault.Refused? {
        Record(Step(id, fault));
        return None;
      }
      var got := AcquireScript(count);
      Record(Step(id, fault));
      return if got.Claimed? && !fault.LostReply? then Some(got.index) else None;
    }

    /** The request is still there; alone, nothing else but its index changed. */
    twostate predicate Filling(id: nat, index: int)
      reads this
    {
      && old(history) <= history && id in view.requests
      && (alone ==> OnlyChanged(old(view.requests), view.requests, id) && SameElsewhere(old(dbs), dbs, index))
    }

    /** Loads fixture actions one by one. A failure keeps the claim: the index is orphaned. Without
        faults, loading fails exactly when the actions do not go through on an empty database. */
    method LoadFixtures(id: nat, index: int, actions: seq<Action>) returns (ok: bool)
      requires Valid() && id in view.requests && view.requests[id].phase == Loading(index, 0) && view.requests[id].actions == actions
      requires index != 0 && Content(dbs, index) == map[]
      modifies this
      ensures Valid() && Filling(id, index)
      ensures ok ==> view.requests[id] == old(view.requests[id]).(phase := Loading(index, |actions|))
      ensures !ok ==> view.requests[id].phase == Orphaned(index)
      ensures ok ==> RunActions(env, map[], actions).Some?
      ensures !ok && Answering(old(sent)) ==> RunActions(env, map[], actions).None?
    {
      ghost var r := view.requests[id];
      assert actions[..0] == [];
      for k := 0 to |actions|
        invariant Valid() && Filling(id, index)
        invariant view.requests[id] == r.(phase := Loading(index, k))
        invariant RunActions(env, map[], actions[..k]) == Some(Content(dbs, index))
      {
        ghost var n := sent;
        var step := LoadAction(id, index, actions, k);
        if !step {
          if answers(n).NoFault? { RunActionsFails(env, map[], actions, k + 1); }
          return false;
        }
        Interleave(id);
      }
      assert actions[..|actions|] == actions;
      return true;
    }

    /** One fixture action. */
    method LoadAction(id: nat, index: int, actions: seq<Action>, k: nat) returns (ok: bool)
      requires Valid() && id in view.requests && view.requests[id].phase == Loading(index, k) && view.requests[id].actions == actions
      requires index != 0 && k < |actions| && RunActions(env, map[], actions[..k]) == Some(Content(dbs, index))
      modifies this
      ensures Valid() && Filling(id, index)
      ensures ok ==> view.requests[id] == old(view.requests[id]).(phase := Loading(index, k + 1))
      ensures !ok ==> view.requests[id].phase == Orphaned(index)
      ensures ok ==> RunActions(env, map[], actions[..k + 1]) == Some(Content(dbs, index))
      ensures !ok && answers(old(sent)).NoFault? ==> RunActions(env, map[], actions[..k + 1]).None?
    {
      RunActionsNext(env, map[], actions, k);
      var fault := answers(sent);
      if fault.Refused? || actions[k].Malformed? {
        Record(Step(id, fault));
        return false;
      }
      var (keys, done) := env.exec(Content(dbs, index), actions[k]);
      dbs := dbs[index := keys];
      Record(Step(id, fault));
      return done && !fault.LostReply?;
    }

    /** A create arrives. */
    method Register(id: nat, actions: seq<Action>)
      requires Valid() && id !in view.requests
      modifies this`history, this`view, this`sent
      ensures Valid() && Idle(id, old(history))
      ensures view == old(view).(requests := old(view).requests[id := Request(actions, 0, Counting, None)])
    {
      Record(Arrive(id, actions));
    }

    /** Asks the server how many databases it has. */
    method AskCount(id: nat, reply: Option<seq<string>>) returns (count: nat)
      requires Valid() && id in view.requests && view.requests[id].phase.Counting?
      modifies this`history, this`view, this`sent
      ensures Valid() && Idle(id, old(history)) && count == DatabaseCount(reply)
      ensures view == old(view).(requests := old(view).requests[id := old(view.requests[id]).(count := count, phase := Acquiring)])
    {
      Record(Count(id, reply));
      return DatabaseCount(reply);
    }

    /** Registers a create and asks the server how many databases it has. */
    method CountDatabases(id: nat, reply: Option<seq<string>>, actions: seq<Action>) returns (count: nat)
      requires Valid() && id !in view.requests
      modifies this
      ensures Valid() && Idle(id, old(history)) && id in view.requests
      ensures alone ==> OnlyOwn(id, old(view.requests), old(dbs)) && dbs == old(dbs)
      ensures count == DatabaseCount(reply) && view.requests[id] == Request(actions, count, Acquiring, None)
    {
      Register(id, actions);
      Interleave(id);
      count := AskCount(id, reply);
      Interleave(id);
    }

    /** The keyspaces right before some event. */
    ghost function Before(at: nat): map<int, Keyspace>
      reads this
    {
      if at <= |history| then Run(env, history[..at]).dbs else map[]
    }

    /** Since some state, only the record of this new request and its own index changed, and index 0
        has gained the claim key of that index, if it has one, and nothing else. */
    ghost predicate OnlyOwn(id: nat, requests: map<nat, Request>, before: map<int, Keyspace>)
      reads this
    {
      && OnlyChanged(requests, view.requests, id)
      && (forall j :: j != 0 && Held(view, id) != Some(j) ==> Content(dbs, j) == Content(before, j))
      && Content(dbs, 0) ==
          if Held(view, id).Some? then Content(before, 0)[ClaimKey(Held(view, id).value) := "1"] else Content(before, 0)
    }

    /** CreateDB, with others' events between any two of its calls. The index it returns is nobody
        else's, is one the caller may be told about, and holds exactly what the fixtures make of an
        empty database. at is its first call after the count, where it acquires. When everything is answered, it succeeds exactly
        when the least index that is free there is a database and the fixtures go through, and it
        fails without giving the index back exactly when there was a free one. On a server that is
        alone no other index changes, and index 0 gains at most the one claim key. */
    method CreateDB(id: nat, reply: Option<seq<string>>, files: seq<Fixture>)
        returns (res: Option<int>, ghost at: nat)
      requires Valid() && id !in view.requests
      modifies this
      ensures Valid() && old(history) <= history && id in view.requests
      ensures res.None? ==> view.requests[id].phase.Failed? || view.requests[id].phase.Orphaned?
      ensures res.Some? ==>
        && view.requests[id].phase == Holding(res.value)
        && 1 <= res.value < DatabaseCount(reply)
        && RunActions(env, map[], FixtureActions(files)) == Some(Content(dbs, res.value))
        && forall other :: other != id ==> Held(view, other) != res
      ensures FirstCall(history, |old(history)|, at, id) && history[at] == Step(id, answers(at))
      ensures Answering(old(sent)) ==>
        var least := LeastFree(Before(at), 1, DatabaseCount(reply));
        && (res.Some? <==> least.Some? && least.value < env.databases && RunActions(env, map[], FixtureActions(files)).Some?)
        && (res.None? ==> (view.requests[id].phase.Orphaned? <==> least.Some?))
      ensures alone ==> OnlyOwn(id, old(view.requests), old(dbs)) && Before(at) == old(dbs)
      ensures alone && view.requests[id].phase.Failed? ==> dbs == old(dbs)
    {
      var actions := FixtureActions(files);
      var index;
      index, at := Claim(id, reply, actions);
      if index.None? { return None, at; }
      var loaded := FillClaimed(id, index.value, actions, old(view.requests), old(dbs), |old(history)|, at);
      return if loaded then index else None, at;
    }

    /** Asks for the number of databases, then for an index. */
    method Claim(id: nat, reply: Option<seq<string>>, actions: seq<Action>)
        returns (index: Option<int>, ghost at: nat)
      requires Valid() && id !in view.requests
      modifies this
      ensures Valid() && old(history) <= history && id in view.requests
      ensures FirstCall(history, |old(history)|, at, id) && history[at] == Step(id, answers(at))
      ensures
        var least, fault := LeastFree(Before(at), 1, DatabaseCount(reply)), answers(at);
        && (index.Some? <==> fault.NoFault? && least.Some? && least.value < env.databases)
        && (index.Some? ==>
            && index == least && Content(dbs, least.value) == map[]
            && view.requests[id] == Request(actions, DatabaseCount(reply), Loading(least.value, 0), None))
        && (index.None? && (fault.Refused? || least.None?) ==> view.requests[id].phase.Failed?)
        && (index.None? && !fault.Refused? && least.Some? ==> view.requests[id].phase == Orphaned(least.value))
      ensures alone ==> OnlyOwn(id, old(view.requests), old(dbs)) && Before(at) == old(dbs)
      ensures alone && view.requests[id].phase.Failed? ==> dbs == old(dbs)
    {
      var count := CountDatabases(id, reply, actions);
      at := |history|;
      index := AcquireFirst(id, count, old(view.requests), old(dbs));
    }

    /** The first call of a new request. */
    method AcquireFirst(id: nat, count: nat, ghost requests: map<nat, Request>, ghost before: map<int, Keyspace>)
        returns (index: Option<int>)
      requires Valid() && id in view.requests && view.requests[id].phase.Acquiring? && view.requests[id].count == count
      requires alone ==> OnlyOwn(id, requests, before)
      modifies this
      ensures Valid() && id in view.requests && history == old(history) + [Step(id, answers(old(sent)))]
      ensures Before(|old(history)|) == old(dbs)
      ensures
        var least, fault := LeastFree(old(dbs), 1, count), answers(old(sent));
        && (index.Some? <==> fault.NoFault? && least.Some? && least.value < env.databases)
        && (index.Some? ==>
            && index == least && Content(dbs, least.value) == map[]
            && view.requests[id] == old(view.requests[id]).(phase := Loading(least.value, 0)))
        && (index.None? && (fault.Refused? || least.None?) ==> view.requests[id].phase.Failed? && dbs == old(dbs))
        && (index.None? && !fault.Refused? && least.Some? ==> view.requests[id].phase == Orphaned(least.value))
      ensures alone ==> OnlyOwn(id, requests, before)
    {
      index := AcquireDBIndex(id, count);
      assert history[..|old(history)|] == old(history);
    }

    /** Fixtures and the answer do not change what has been. */
    method FillClaimed(id: nat, index: int, actions: seq<Action>, ghost requests: map<nat, Request>,
                       ghost before: map<int, Keyspace>, ghost from: nat, ghost at: nat) returns (ok: bool)
      requires Valid() && id in view.requests && view.requests[id].phase == Loading(index, 0) && view.requests[id].actions == actions
      requires index != 0 && Content(dbs, index) == map[] && FirstCall(history, from, at, id)
      requires alone ==> OnlyOwn(id, requests, before)
      modifies this
      ensures Valid() && old(history) <= history && id in view.requests
      ensures alone ==> OnlyOwn(id, requests, before)
      ensures FirstCall(history, from, at, id) && history[at] == old(history)[at] && Before(at) == old(Before(at))
      ensures view.requests[id].phase == if ok then Holding(index) else Orphaned(index)
      ensures ok ==>
        && 1 <= index < old(view.requests[id]).count
        && RunActions(env, map[], actions) == Some(Content(dbs, index))
        && forall other :: other != id ==> Held(view, other) != Some(index)
      ensures !ok && Answering(old(sent)) ==> RunActions(env, map[], actions).None?
    {
      ok := Fill(id, index, actions);
      FirstCallStays(old(history), history, from, at, id);
    }

    /** Fixtures, then the answer. */
    method Fill(id: nat, index: int, actions: seq<Action>) returns (ok: bool)
      requires Valid() && id in view.requests && view.requests[id].phase == Loading(index, 0) && view.requests[id].actions == actions
      requires index != 0 && Content(dbs, index) == map[]
      modifies this
      ensures Valid() && Filling(id, index)
      ensures view.requests[id].phase == if ok then Holding(index) else Orphaned(index)
      ensures ok ==>
        && 1 <= index < old(view.requests[id]).count
        && RunActions(env, map[], actions) == Some(Content(dbs, index))
        && forall other :: other != id ==> Held(view, other) != Some(index)
      ensures !ok && Answering(old(sent)) ==> RunActions(env, map[], actions).None?
    {
      Interleave(id);
      ok := LoadFixtures(id, index, actions);
      if ok { Answer(id, index); }
    }

    /** Releases the uri of a loaded index. */
    method Answer(id: nat, index: int)
      requires Valid() && id in view.requests
      requires view.requests[id].phase == Loading(index, |view.requests[id].actions|)
      modifies this
      ensures Valid() && Filling(id, index)
      ensures dbs == old(dbs) && view.requests[id].phase == Holding(index)
      ensures 1 <= index < old(view.requests[id]).count
      ensures RunActions(env, map[], old(view.requests[id]).actions) == Some(Content(dbs, index))
      ensures forall other :: other != id ==> Held(view, other) != Some(index)
    {
      Record(Step(id, NoFault));
      RunKeeps(env, history);
      assert RequestOk(env, dbs, view.requests[id]);
      assert Held(view, id) == Some(index);
    }

    /** RemoveDB. It succeeds exactly when the uri names index 0 or a database of the server. Index 0
        is left alone; any other index ends up free and empty, exactly its claim key is gone, and no
        other index changes. An error changes nothing. */
    method RemoveByUri(uri: string) returns (ok: bool)
      modifies this`dbs
      ensures ok <==> Named(uri).Some? && (Named(uri).value == 0 || 0 < Named(uri).value < env.databases)
      ensures !ok || Named(uri) == Some(0) ==> dbs == old(dbs)
      ensures ok && Named(uri) != Some(0) ==>
        var index := Named(uri).value;
        && Free(dbs, index) && Content(dbs, index) == map[]
        && Content(dbs, 0) == Content(old(dbs), 0) - {ClaimKey(index)}
        && forall j :: j != 0 && j != index ==> Content(dbs, j) == Content(old(dbs), j)
    {
      var path := Connections.DatabaseIn(uri);
      if path.Err? { return false; }
      var index := Atoi(path.value);
      if index.None? { return false; }
      if index.value == 0 { return true; }
      if 0 < index.value < env.databases { RemoveFrame(env, dbs, index.value); }
      ok := RemoveScript(index.value);
    }

    /** RemoveDB by the holder of an index, with a uri that names it, as the one CreateDB returned
        does: flushes the index and gives it back, whether or not the reply arrives. */
    method RemoveDB(id: nat, uri: string) returns (ok: bool)
      requires Valid() && id in view.requests && view.requests[id].phase.Holding?
      requires Named(uri) == Some(view.requests[id].phase.index)
      modifies this
      ensures Valid() && Serving(id) && Released(id, Named(uri).value)
      ensures ok <==> answers(old(sent)).NoFault?
      ensures view.requests[id].phase.Released? <==> !answers(old(sent)).Refused?
    {
      var path := Connections.DatabaseIn(uri).value;
      ok := Release(id, Atoi(path).value);
    }

    /** Either the index is free and empty and its claim key is gone, or nothing happened. */
    twostate predicate Released(id: nat, index: int)
      reads this
      requires id in old(view.requests) && id in view.requests
    {
      if view.requests[id].phase.Released? then
        Free(dbs, index) && Content(dbs, index) == map[] && Content(dbs, 0) == Content(old(dbs), 0) - {ClaimKey(index)}
      else
        dbs == old(dbs) && view.requests[id] == old(view.requests[id])
    }

    method Release(id: nat, index: int) returns (ok: bool)
      requires Valid() && id in view.requests && view.requests[id].phase == Holding(index)
      modifies this
      ensures Valid() && Serving(id) && Released(id, index)
      ensures ok <==> answers(old(sent)).NoFault?
      ensures view.requests[id].phase.Released? <==> !answers(old(sent)).Refused?
    {
      var fault := answers(sent);
      if fault.Refused? {
        Record(Remove(id, fault));
        return false;
      }
      ReleaseState(env, history, id, fault);
      var done := RemoveScript(index);
      Record(Remove(id, fault));
      return done && fault.NoFault?;
    }
  }
}
