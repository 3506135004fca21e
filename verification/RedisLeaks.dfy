/** When a create that fails keeps the index it claimed, and for how long
    (internal/database/redis/redis.go: nothing after acquireDBIndex gives an index back). */
module RedisLeaks {
  import opened Prelude
  import opened Decimal
  import opened RedisAllocator
  import opened RedisSafety
  import opened Splitting
  import opened Tokenizer

  /** Every statement of the request was answered. */
  ghost predicate Answered(id: nat, events: seq<Event>) {
    forall i :: 0 <= i < |events| && events[i].Step? && events[i].id == id ==> events[i].fault.NoFault?
  }

  /** Actions that fail at some point fail as a whole. */
  lemma {:induction false} RunActionsFails(env: Env, keys: Keyspace, actions: seq<Action>, k: nat)
    requires k <= |actions| && RunActions(env, keys, actions[..k]).None?
    ensures RunActions(env, keys, actions).None?
    decreases |actions| - k
  {
    if k == |actions| {
      assert actions[..k] == actions;
    } else {
      RunActionsNext(env, keys, actions, k);
      RunActionsFails(env, keys, actions, k + 1);
    }
  }

  /** Why an answered step leaves an orphan behind. */
  lemma StepOrphans(env: Env, s: State, id: nat)
    requires Inv(env, s) && id in s.requests && (s.requests[id].phase.Acquiring? || s.requests[id].phase.Loading?)
    requires Apply(env, s, Step(id, NoFault)).requests[id].phase.Orphaned?
    ensures var r := Apply(env, s, Step(id, NoFault)).requests[id];
      r.phase.index >= env.databases || RunActions(env, map[], r.actions).None?
  {
    var r := s.requests[id];
    if r.phase.Acquiring? {
      AcquireFrame(env, s.dbs, r.count);
    } else {
      assert RequestOk(env, s.dbs, r);
      RunActionsNext(env, map[], r.actions, r.phase.done);
      RunActionsFails(env, map[], r.actions, r.phase.done + 1);
    }
  }

  lemma {:induction false} OrphanedBecause(env: Env, events: seq<Event>, id: nat)
    requires Answered(id, events) && id in Run(env, events).requests && Run(env, events).requests[id].phase.Orphaned?
    ensures var r := Run(env, events).requests[id];
      r.phase.index >= env.databases || RunActions(env, map[], r.actions).None?
  {
    var before, e := events[..|events| - 1], events[|events| - 1];
    var s := Run(env, before);
    RunKeeps(env, before);
    if id in s.requests && s.requests[id].phase.Orphaned? {
      OrphanedBecause(env, before, id);
      if e.id != id { OnlyOwnRequest(env, s, e, id); }
    } else if e.id == id {
      assert e.Step? && e.fault.NoFault?;
      StepOrphans(env, s, id);
    } else {
      OnlyNewRequest(env, s, e, id);
    }
  }

  lemma OnlyNewRequest(env: Env, s: State, e: Event, other: nat)
    requires other != e.id && other in Apply(env, s, e).requests
    ensures other in s.requests && Apply(env, s, e).requests[other] == s.requests[other]
  {
  }

  /** A create whose statements were all answered, and that claimed an index, keeps the index
      without handing it out exactly when the index is beyond what the server has or the fixtures
      do not go through on an empty database. */
  lemma LeaksIff(env: Env, events: seq<Event>, id: nat)
    requires Answered(id, events) && id in Run(env, events).requests
    requires Run(env, events).requests[id].phase.Orphaned? || Run(env, events).requests[id].phase.Holding?
    ensures var r := Run(env, events).requests[id];
      r.phase.Orphaned? <==> r.phase.index >= env.databases || RunActions(env, map[], r.actions).None?
  {
    RunKeeps(env, events);
    assert RequestOk(env, Run(env, events).dbs, Run(env, events).requests[id]);
    if Run(env, events).requests[id].phase.Orphaned? { OrphanedBecause(env, events, id); }
  }

  /** An orphaned index is never free again, and nobody is ever given it. */
  lemma {:induction false} OrphanedForever(env: Env, events: seq<Event>, more: seq<Event>, id: nat)
    requires id in Run(env, events).requests && Run(env, events).requests[id].phase.Orphaned?
    ensures
      var r := Run(env, events).requests[id];
      var s := Run(env, events + more);
      && id in s.requests && s.requests[id] == r && !Free(s.dbs, r.phase.index)
      && forall other :: other != id ==> Held(s, other) != Some(r.phase.index)
  {
    OrphanStays(env, Run(env, events), more, id);
    RunConcat(env, Init(env), events, more);
    RunKeeps(env, events + more);
    var s := Run(env, events + more);
    HeldIsClaimed(env, s, id);
    assert Held(s, id).Some?;
  }

  lemma {:induction false} OrphanStays(env: Env, s: State, more: seq<Event>, id: nat)
    requires id in s.requests && s.requests[id].phase.Orphaned?
    ensures id in RunFrom(env, s, more).requests && RunFrom(env, s, more).requests[id] == s.requests[id]
  {
    if more != [] {
      OrphanStays(env, s, more[..|more| - 1], id);
      var mid, e := RunFrom(env, s, more[..|more| - 1]), more[|more| - 1];
      if e.id != id { OnlyOwnRequest(env, mid, e, id); }
    }
  }

  ghost predicate Lost(s: State, index: int) {
    exists id :: id in s.requests && s.requests[id].phase == Orphaned(index)
  }

  /** Once every index below some number is orphaned, every later create that sees no more than that
      many databases is turned away. */
  lemma ExhaustedForever(env: Env, events: seq<Event>, more: seq<Event>, count: nat, id: nat)
    requires forall i :: 1 <= i < count ==> Lost(Run(env, events), i)
    requires id in Run(env, events + more).requests && Run(env, events + more).requests[id].phase.Acquiring?
    requires Run(env, events + more).requests[id].count <= count
    ensures Apply(env, Run(env, events + more), Step(id, NoFault)).requests[id].phase.Failed?
  {
    forall i | 1 <= i < count ensures !Free(Run(env, events + more).dbs, i) {
      assert Lost(Run(env, events), i);
      var o :| o in Run(env, events).requests && Run(env, events).requests[o].phase == Orphaned(i);
      OrphanedForever(env, events, more, o);
    }
    AcquireGivesLeast(env, events + more, id);
  }

  // ---- An input that leaks --------------------------------------------------------------

  predicate NoQuotes(s: string) {
    forall i :: 0 <= i < |s| ==> !IsQuote(s[i])
  }

  lemma {:induction false} QuoteAfterNone(p: string)
    requires NoQuotes(p)
    ensures QuoteAfter(p).None?
  {
    if p != "" { QuoteAfterNone(p[..|p| - 1]); }
  }

  lemma {:induction false} QuoteAfterOne(p: string, q: string)
    requires NoQuotes(p) && NoQuotes(q)
    ensures QuoteAfter(p + "'" + q) == Some('\'')
  {
    var s := p + "'" + q;
    if q == "" {
      assert s[..|s| - 1] == p;
      QuoteAfterNone(p);
    } else {
      assert s[..|s| - 1] == p + "'" + q[..|q| - 1];
      QuoteAfterOne(p, q[..|q| - 1]);
    }
  }

  /** A line with one quote in it is malformed, wherever the quote is. */
  lemma LoneQuoteIsMalformed(p: string, q: string)
    requires NoQuotes(p) && NoQuotes(q) && OneLine(p) && OneLine(q)
    requires var line := p + "'" + q; Trim(line) == line && line[0] != '#'
    ensures FixtureActions([Fixture(false, p + "'" + q)]) == [Malformed]
  {
    var line := p + "'" + q;
    QuoteAfterOne(p, q);
    SplitFailsIff(line);
    SplitSingle(line, '\n');
    OneLineFile(line);
    var files := [Fixture(false, line)];
    assert files[..0] == [];
    assert FixtureActions(files) == FixtureActions([]) + FileActions(line);
  }

  const BROKEN := Fixture(false, "set k " + "'" + "v")

  lemma BrokenIsMalformed()
    ensures FixtureActions([BROKEN]) == [Malformed]
  {
    var line := "set k " + "'" + "v";
    assert line[0] == 's' && line[|line| - 1] == 'v';
    assert TrimLeft(line) == line && TrimRight(line) == line;
    LoneQuoteIsMalformed("set k ", "v");
  }

  /** One create, every statement of it answered. */
  function Create(actions: seq<Action>): seq<Event> {
    [Arrive(1, actions), Count(1, None), Step(1, NoFault), Step(1, NoFault)]
  }

  lemma CreateRuns(env: Env, actions: seq<Action>)
    ensures
      var counted := State(env.initial, map[1 := Request(actions, DEFAULT_COUNT, Acquiring, None)]);
      Run(env, Create(actions)) == Apply(env, Apply(env, counted, Step(1, NoFault)), Step(1, NoFault))
  {
    var a, b, step := Arrive(1, actions), Count(1, None), Step(1, NoFault);
    ThreeEvents(env, Init(env), a, b, step);
    ArriveAndCount(env, Init(env), 1, actions, None);
    assert Create(actions) == [a, b, step] + [step];
    RunSnoc(env, Init(env), [a, b, step], step);
  }

  /** On every server that can hand out index 1, a create with one fixture line that ends inside a
      quote, every statement of it answered, keeps index 1 for good. */
  lemma BrokenFixtureLeaks(env: Env, more: seq<Event>)
    requires env.databases > 1 && Free(env.initial, 1)
    ensures
      var events := Create(FixtureActions([BROKEN]));
      var s, s' := Run(env, events), Run(env, events + more);
      && Answered(1, events)
      && 1 in s.requests && s.requests[1].phase == Orphaned(1)
      && 1 in s'.requests && s'.requests[1].phase == Orphaned(1) && !Free(s'.dbs, 1)
  {
    BrokenIsMalformed();
    CreateRuns(env, [Malformed]);
    AcquireFrame(env, env.initial, DEFAULT_COUNT);
    OrphanedForever(env, Create([Malformed]), more, 1);
  }
}
