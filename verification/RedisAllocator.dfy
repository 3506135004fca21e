/** The redis index allocator as a state machine
    (CreateDB, acquireDBIndex, databaseCount and RemoveDB in internal/database/redis/redis.go).

    A server is a set of numbered keyspaces. The two Lua scripts are one atomic step each, every
    fixture command is a step of its own, and any number of creates, fixture loads, client writes
    and removes interleave. */
module RedisAllocator {
  import opened Prelude
  import opened Decimal

  type Keyspace = map<string, string>

  /** One unit of fixture work: a command line, a script file, or a line that does not parse. */
  datatype Action = Command(args: seq<string>) | Script(text: string) | Malformed

  /** exec is the effect of one action on the selected keyspace, and whether it went through. A
      failing script may leave changes behind. databases is how many keyspaces the server really
      has, initial what they held when this run began. */
  datatype Env = Env(
    exec: (Keyspace, Action) -> (Keyspace, bool),
    databases: nat,
    initial: map<int, Keyspace>)

  const CLAIM_PREFIX := "dbctl:db:"
  const DEFAULT_COUNT := 16

  function ClaimKey(index: int): string {
    CLAIM_PREFIX + Itoa(index)
  }

  lemma ClaimKeyInjective(i: int, j: int)
    requires ClaimKey(i) == ClaimKey(j)
    ensures i == j
  {
    assert ClaimKey(i)[9..] == Itoa(i) && ClaimKey(j)[9..] == Itoa(j);
    ItoaInjective(i, j);
  }

  function Content(dbs: map<int, Keyspace>, index: int): Keyspace {
    if index in dbs then dbs[index] else map[]
  }

  predicate Free(dbs: map<int, Keyspace>, index: int) {
    ClaimKey(index) !in Content(dbs, 0)
  }

  /** The smallest free index from low up to, not including, count. */
  function LeastFree(dbs: map<int, Keyspace>, low: int, count: int): (r: Option<int>)
    ensures r.Some? ==> low <= r.value < count && Free(dbs, r.value) && forall i :: low <= i < r.value ==> !Free(dbs, i)
    ensures r.None? ==> forall i :: low <= i < count ==> !Free(dbs, i)
    decreases count - low
  {
    if low >= count then None
    else if Free(dbs, low) then Some(low)
    else LeastFree(dbs, low + 1, count)
  }

  datatype Acquired = Claimed(index: int) | NoneLeft | ScriptError(index: int)

  function Claim(dbs: map<int, Keyspace>, index: int): map<int, Keyspace> {
    dbs[0 := Content(dbs, 0)[ClaimKey(index) := "1"]]
  }

  /** What the acquire script does. Selecting a database the server does not have aborts the
      script, but the claim it just made stays. */
  function AcquireEffect(env: Env, dbs: map<int, Keyspace>, count: int): (map<int, Keyspace>, Acquired) {
    match LeastFree(dbs, 1, count)
    case None => (dbs, NoneLeft)
    case Some(i) =>
      if i >= env.databases then (Claim(dbs, i), ScriptError(i))
      else (Claim(dbs, i)[i := map[]], Claimed(i))
  }

  /** What RemoveDB does for an index, and whether it reports success. */
  function RemoveEffect(env: Env, dbs: map<int, Keyspace>, index: int): (map<int, Keyspace>, bool) {
    if index == 0 then (dbs, true)
    else if index < 0 || index >= env.databases then (dbs, false)
    else
      var flushed := dbs[index := map[]];
      (flushed[0 := Content(flushed, 0) - {ClaimKey(index)}], true)
  }

  /** How many databases a caller believes the server has, from the reply to CONFIG GET: what the
      reply says, if it is readable and at least 2, and else what redis has by default. */
  function DatabaseCount(reply: Option<seq<string>>): (count: nat)
    ensures 2 <= count < INT64_LIMIT
    ensures reply.None? || |reply.value| != 2 ==> count == 16
    ensures count != DEFAULT_COUNT ==> reply.Some? && |reply.value| == 2 && Atoi(reply.value[1]) == Some(count)
    ensures reply.Some? && |reply.value| == 2 && Atoi(reply.value[1]).Some? && Atoi(reply.value[1]).value >= 2 ==>
      Atoi(reply.value[1]) == Some(count)
  {
    if reply.None? || |reply.value| != 2 then DEFAULT_COUNT
    else match Atoi(reply.value[1])
      case None => DEFAULT_COUNT
      case Some(n) => if n < 2 then DEFAULT_COUNT else n
  }

  /** What a server with at least two databases says about itself is believed. */
  lemma ReportIsBelieved(key: string, databases: nat)
    requires 2 <= databases < INT64_LIMIT
    ensures DatabaseCount(Some([key, Itoa(databases)])) == databases
  {
    AtoiOfItoa(databases);
  }

  /** Orphaned: claimed, then the create failed without giving the index back. */
  datatype Phase =
    | Counting
    | Acquiring
    | Loading(index: int, done: nat)
    | Holding(index: int)
    | Orphaned(index: int)
    | Failed
    | Released

  datatype Request = Request(actions: seq<Action>, count: nat, phase: Phase, handed: Option<Keyspace>)

  datatype State = State(dbs: map<int, Keyspace>, requests: map<nat, Request>)

  datatype Fault = NoFault | Refused | LostReply

  datatype Event =
    | Arrive(id: nat, actions: seq<Action>)
    | Count(id: nat, reply: Option<seq<string>>)
    | Step(id: nat, fault: Fault)
    | Write(id: nat, content: Keyspace)
    | Remove(id: nat, fault: Fault)

  predicate Holds(r: Request) {
    r.phase.Loading? || r.phase.Holding? || r.phase.Orphaned?
  }

  /** Running fixture actions in order over a keyspace, as long as each goes through. */
  function RunActions(env: Env, keys: Keyspace, actions: seq<Action>): Option<Keyspace> {
    if actions == [] then Some(keys)
    else match RunActions(env, keys, actions[..|actions| - 1])
      case None => None
      case Some(before) =>
        var (after, ok) := env.exec(before, actions[|actions| - 1]);
        if ok && !actions[|actions| - 1].Malformed? then Some(after) else None
  }

  function StepAcquire(env: Env, dbs: map<int, Keyspace>, r: Request, fault: Fault): (map<int, Keyspace>, Request) {
    if fault.Refused? then (dbs, r.(phase := Failed))
    else
      var (dbs', got) := AcquireEffect(env, dbs, r.count);
      match got
      case NoneLeft => (dbs', r.(phase := Failed))
      case ScriptError(i) => (dbs', r.(phase := Orphaned(i)))
      case Claimed(i) => (dbs', r.(phase := if fault.LostReply? then Orphaned(i) else Loading(i, 0)))
  }

  function StepLoad(env: Env, dbs: map<int, Keyspace>, r: Request, fault: Fault): (map<int, Keyspace>, Request)
    requires r.phase.Loading?
  {
    var i, k := r.phase.index, r.phase.done;
    if fault.Refused? then (dbs, r.(phase := Orphaned(i)))
    else if k >= |r.actions| then
      if fault.LostReply? then (dbs, r.(phase := Orphaned(i)))
      else (dbs, r.(phase := Holding(i), handed := Some(Content(dbs, i))))
    else if r.actions[k].Malformed? then (dbs, r.(phase := Orphaned(i)))
    else
      var (keys, ok) := env.exec(Content(dbs, i), r.actions[k]);
      (dbs[i := keys], r.(phase := if ok && fault.NoFault? then Loading(i, k + 1) else Orphaned(i)))
  }

  function Apply(env: Env, s: State, e: Event): State {
    match e
    case Arrive(id, actions) =>
      if id in s.requests then s
      else s.(requests := s.requests[id := Request(actions, 0, Counting, None)])
    case Count(id, reply) =>
      if id !in s.requests || !s.requests[id].phase.Counting? then s
      else s.(requests := s.requests[id := s.requests[id].(count := DatabaseCount(reply), phase := Acquiring)])
    case Step(id, fault) =>
      if id in s.requests && s.requests[id].phase.Acquiring? then
        var (dbs, r) := StepAcquire(env, s.dbs, s.requests[id], fault);
        State(dbs, s.requests[id := r])
      else if id in s.requests && s.requests[id].phase.Loading? then
        var (dbs, r) := StepLoad(env, s.dbs, s.requests[id], fault);
        State(dbs, s.requests[id := r])
      else s
    case Write(id, content) =>
      if id !in s.requests || !s.requests[id].phase.Holding? then s
      else s.(dbs := s.dbs[s.requests[id].phase.index := content])
    case Remove(id, fault) =>
      if id !in s.requests || !s.requests[id].phase.Holding? || fault.Refused? then s
      else
        State(RemoveEffect(env, s.dbs, s.requests[id].phase.index).0,
              s.requests[id := s.requests[id].(phase := Released)])
  }

  function Init(env: Env): State {
    State(env.initial, map[])
  }

  function RunFrom(env: Env, s: State, events: seq<Event>): State {
    if events == [] then s else Apply(env, RunFrom(env, s, events[..|events| - 1]), events[|events| - 1])
  }

  /** Every state of every run is Run(env, events) for some events. */
  function Run(env: Env, events: seq<Event>): State {
    RunFrom(env, Init(env), events)
  }

  lemma RunSnoc(env: Env, s: State, events: seq<Event>, e: Event)
    ensures RunFrom(env, s, events + [e]) == Apply(env, RunFrom(env, s, events), e)
  {
    assert (events + [e])[..|events|] == events;
  }

  lemma {:induction false} RunConcat(env: Env, s: State, a: seq<Event>, b: seq<Event>)
    ensures RunFrom(env, s, a + b) == RunFrom(env, RunFrom(env, s, a), b)
  {
    if b == [] {
      assert a + b == a;
    } else {
      RunConcat(env, s, a, b[..|b| - 1]);
      assert (a + b)[..|a + b| - 1] == a + b[..|b| - 1];
    }
  }

  lemma ThreeEvents(env: Env, s: State, a: Event, b: Event, c: Event)
    ensures RunFrom(env, s, [a, b, c]) == Apply(env, Apply(env, Apply(env, s, a), b), c)
  {
    assert [a, b, c] == [a, b] + [c] && [a, b] == [a] + [b] && [a] == [] + [a];
    RunSnoc(env, s, [a, b], c);
    RunSnoc(env, s, [a], b);
    RunSnoc(env, s, [], a);
  }

  /** A new request that has asked for the number of databases. */
  lemma ArriveAndCount(env: Env, s: State, id: nat, actions: seq<Action>, reply: Option<seq<string>>)
    requires id !in s.requests
    ensures Apply(env, Apply(env, s, Arrive(id, actions)), Count(id, reply)) ==
      s.(requests := s.requests[id := Request(actions, DatabaseCount(reply), Acquiring, None)])
  {
    var first, r := Request(actions, 0, Counting, None), Request(actions, DatabaseCount(reply), Acquiring, None);
    assert s.requests[id := first][id := r] == s.requests[id := r];
  }
}
