/** Every interleaving of one agent's commands with any number of forced commands: a grant
    is consumed at most once. Times are in seconds and the clock never goes back. */
module GrantRuns {
  import opened Wire
  import opened PeerGrants

  /** How long a grant lives, and the longest a forced command may take until its claim. */
  datatype Config = Config(ttl: nat, longest: nat)

  /** What the agent is in the middle of; its commands run one at a time, and the sweep
      runs alone when it starts. */
  datatype Agent =
    | Idle
    | Authorizing(grant: Grant)
    | Revoking(id: string)
    | Sweeping(start: int)
    | Removing(start: int, id: string)

  datatype Progress = Started | Unmarked | HasGrant

  /** One forced command: it takes the time once, then looks for a marker, then reads the
      grant, then claims it. */
  datatype Call = Call(id: string, start: int, at: Progress)

  datatype State = State(
    clock: int,
    grants: map<string, Grant>,
    used: UsedDir,
    agent: Agent,
    calls: map<nat, Call>,
    since: map<string, int>,         // when the authorization now in force was given
    claims: map<string, seq<int>>)   // when it has been consumed

  const INITIAL := State(0, map[], map[], Idle, map[], map[], map[])

  datatype Step =
    | Tick(to: int)
    | BeginAuthorize(grant: Grant)
    | WriteGrant
    | BeginRevoke(id: string)
    | EndRevoke
    | BeginSweep
    | LookAtMarker(id: string)
    | RemoveMarker
    | EndSweep
    | AgentRestart
    | Serve(call: nat, id: string)
    | StatMarker(call: nat)
    | Read(call: nat)
    | Refuse(call: nat)
    | Claim(call: nat)

  predicate At(s: State, call: nat, p: Progress) {
    call in s.calls && s.calls[call].at == p
  }

  predicate Enabled(c: Config, s: State, step: Step) {
    match step
    case Tick(to) => to >= s.clock
    case BeginAuthorize(g) => s.agent == Idle && g.transferId !in s.grants && g.expiresAt == s.clock + c.ttl
    case WriteGrant => s.agent.Authorizing?
    case BeginRevoke(_) => s.agent == Idle
    case EndRevoke => s.agent.Revoking?
    case BeginSweep => s.agent == Idle
    case LookAtMarker(id) => s.agent.Sweeping? && id in s.used && s.agent.start - s.used[id] > c.ttl
    case RemoveMarker => s.agent.Removing?
    case EndSweep => s.agent.Sweeping?
    case AgentRestart => true
    case Serve(call, _) => call !in s.calls
    case StatMarker(call) => At(s, call, Started)
    case Read(call) => At(s, call, Unmarked)
    case Refuse(call) => call in s.calls
    case Claim(call) => At(s, call, HasGrant) && s.clock <= s.calls[call].start + c.longest
  }

  function Advance(s: State, call: nat, p: Progress): State
    requires call in s.calls
  {
    s.(calls := s.calls[call := s.calls[call].(at := p)])
  }

  function Drop(s: State, call: nat): State {
    s.(calls := s.calls - {call})
  }

  function Do(c: Config, s: State, step: Step): State
    requires Enabled(c, s, step)
  {
    match step
    case Tick(to) => s.(clock := to)
    case BeginAuthorize(g) => s.(agent := Authorizing(g))
    case WriteGrant =>
      var g := s.agent.grant;
      s.(agent := Idle, grants := s.grants[g.transferId := g],
      since := s.since[g.transferId := s.clock], claims := s.claims[g.transferId := []])
    case BeginRevoke(id) =>
      s.(agent := Revoking(id), grants := s.grants - {id}, since := s.since - {id}, claims := s.claims - {id})
    case EndRevoke => s.(agent := Idle, used := s.used - {s.agent.id})
    case BeginSweep =>
      s.(agent := Sweeping(s.clock), grants := map id | id in s.grants && s.clock < s.grants[id].expiresAt :: s.grants[id])
    case LookAtMarker(id) => s.(agent := Removing(s.agent.start, id))
    case RemoveMarker => s.(agent := Sweeping(s.agent.start), used := s.used - {s.agent.id})
    case EndSweep => s.(agent := Idle)
    case AgentRestart => s.(agent := Idle)
    case Serve(call, id) => s.(calls := s.calls[call := Call(id, s.clock, Started)])
    case StatMarker(call) => if s.calls[call].id in s.used then Drop(s, call) else Advance(s, call, Unmarked)
    case Read(call) =>
      var k := s.calls[call];
      if k.id in s.grants && k.start < s.grants[k.id].expiresAt then Advance(s, call, HasGrant) else Drop(s, call)
    case Refuse(call) => Drop(s, call)
    case Claim(call) =>
      var id := s.calls[call].id;
      if id in s.used then Drop(s, call)
      else Drop(s, call).(used := s.used[id := s.clock],
        claims := if id in s.claims then s.claims[id := s.claims[id] + [s.clock]] else s.claims)
  }

  function Run(c: Config, s: State, steps: seq<Step>): State {
    if steps == [] then s
    else
      var before := Run(c, s, steps[..|steps| - 1]);
      if Enabled(c, before, steps[|steps| - 1]) then Do(c, before, steps[|steps| - 1]) else before
  }

  // --- The invariant ---

  /** A grant of no TTL can be read only by a call that began before it was given. */
  function Lead(c: Config): nat {
    if c.ttl == 0 then 1 else 0
  }

  /** No forced command outlives the TTL; or, with no TTL at all, none takes over a second. */
  predicate Timely(c: Config) {
    c.longest < Lead(c) + c.ttl + 1
  }

  ghost predicate Clocked(c: Config, s: State) {
    && (forall k :: k in s.calls ==> s.calls[k].start + (if s.calls[k].at == HasGrant then Lead(c) else 0) <= s.clock)
    && s.claims.Keys == s.since.Keys && s.grants.Keys <= s.since.Keys
    && (forall id :: id in s.since ==> s.since[id] <= s.clock)
    && (forall id :: id in s.grants ==> s.grants[id].expiresAt <= s.since[id] + c.ttl)
  }

  ghost predicate AgentGood(c: Config, s: State) {
    match s.agent
    case Idle => true
    case Authorizing(g) => g.expiresAt <= s.clock + c.ttl
    case Revoking(id) => id !in s.since
    case Sweeping(start) => start <= s.clock && forall id :: id in s.grants ==> start < s.grants[id].expiresAt
    case Removing(start, id) =>
      && start <= s.clock && (forall i :: i in s.grants ==> start < s.grants[i].expiresAt)
      && id in s.used && start - s.used[id] > c.ttl
  }

  /** A consumed grant: while its marker stands every call that saw none began before it;
      once the marker is swept the grant is gone, and a call that still holds it is late. */
  ghost predicate Consumed(c: Config, s: State, id: string, t: int) {
    && id in s.since && s.since[id] <= t <= s.clock
    && (|| (&& id in s.used && s.used[id] == t
            && (forall k :: k in s.calls && s.calls[k].id == id && s.calls[k].at != Started ==> s.calls[k].start <= t)
            && (forall k :: k in s.calls && s.calls[k].id == id && s.calls[k].at == HasGrant ==> s.calls[k].start + Lead(c) <= t))
        || (&& id !in s.grants && s.clock > t + c.ttl
            && forall k :: k in s.calls && s.calls[k].id == id && s.calls[k].at == HasGrant ==> s.calls[k].start + Lead(c) <= t))
  }

  ghost predicate OnceEach(c: Config, s: State) {
    forall id :: id in s.claims ==> |s.claims[id]| <= 1 && (|s.claims[id]| == 1 ==> Consumed(c, s, id, s.claims[id][0]))
  }

  ghost predicate Inv(c: Config, s: State) {
    Clocked(c, s) && AgentGood(c, s) && OnceEach(c, s)
  }

  lemma SweepKeepsInv(c: Config, s: State, step: Step)
    requires Inv(c, s) && Enabled(c, s, step) && (step.BeginSweep? || step.LookAtMarker? || step.RemoveMarker? || step.EndSweep?)
    ensures Inv(c, Do(c, s, step))
  {
    var s' := Do(c, s, step);
    forall id | id in s'.claims && |s'.claims[id]| == 1 ensures Consumed(c, s', id, s'.claims[id][0]) {
      assert Consumed(c, s, id, s.claims[id][0]);
    }
  }

  lemma TimeKeepsInv(c: Config, s: State, step: Step)
    requires Inv(c, s) && Enabled(c, s, step) && (step.Tick? || step.AgentRestart? || step.BeginAuthorize? || step.EndRevoke?)
    ensures Inv(c, Do(c, s, step))
  {
    var s' := Do(c, s, step);
    forall id | id in s'.claims && |s'.claims[id]| == 1 ensures Consumed(c, s', id, s'.claims[id][0]) {
      assert Consumed(c, s, id, s.claims[id][0]);
    }
  }

  lemma AgentKeepsInv(c: Config, s: State, step: Step)
    requires Inv(c, s) && Enabled(c, s, step) && (step.WriteGrant? || step.BeginRevoke?)
    ensures Inv(c, Do(c, s, step))
  {
    var s' := Do(c, s, step);
    forall id | id in s'.claims && |s'.claims[id]| == 1 ensures Consumed(c, s', id, s'.claims[id][0]) {
      assert Consumed(c, s, id, s.claims[id][0]);
    }
  }

  lemma StatKeepsInv(c: Config, s: State, call: nat)
    requires Inv(c, s) && Enabled(c, s, StatMarker(call))
    ensures Inv(c, Do(c, s, StatMarker(call)))
  {
    var s' := Do(c, s, StatMarker(call));
    forall id | id in s'.claims && |s'.claims[id]| == 1 ensures Consumed(c, s', id, s'.claims[id][0]) {
      assert Consumed(c, s, id, s.claims[id][0]);
    }
  }

  lemma ReadKeepsInv(c: Config, s: State, call: nat)
    requires Inv(c, s) && Enabled(c, s, Read(call))
    ensures Inv(c, Do(c, s, Read(call)))
  {
    var s' := Do(c, s, Read(call));
    forall id | id in s'.claims && |s'.claims[id]| == 1 ensures Consumed(c, s', id, s'.claims[id][0]) {
      assert Consumed(c, s, id, s.claims[id][0]);
    }
  }

  lemma CallsKeepInv(c: Config, s: State, step: Step)
    requires Inv(c, s) && Enabled(c, s, step) && (step.Serve? || step.Refuse?)
    ensures Inv(c, Do(c, s, step))
  {
    var s' := Do(c, s, step);
    forall id | id in s'.claims && |s'.claims[id]| == 1 ensures Consumed(c, s', id, s'.claims[id][0]) {
      assert Consumed(c, s, id, s.claims[id][0]);
    }
  }

  /** A claim that succeeds is the first of its authorization. */
  lemma ClaimIsFirst(c: Config, s: State, call: nat)
    requires Timely(c) && Inv(c, s) && Enabled(c, s, Claim(call)) && s.calls[call].id !in s.used
    ensures s.calls[call].id in s.claims ==> s.claims[s.calls[call].id] == []
  {
    var id := s.calls[call].id;
    assert id in s.claims ==> |s.claims[id]| <= 1 && (|s.claims[id]| == 1 ==> Consumed(c, s, id, s.claims[id][0]));
  }

  lemma ClaimKeepsInv(c: Config, s: State, call: nat)
    requires Timely(c) && Inv(c, s) && Enabled(c, s, Claim(call))
    ensures Inv(c, Do(c, s, Claim(call)))
  {
    var s' := Do(c, s, Claim(call));
    var mine := s.calls[call].id;
    if mine !in s.used {
      ClaimIsFirst(c, s, call);
    }
    forall id | id in s'.claims
      ensures |s'.claims[id]| <= 1 && (|s'.claims[id]| == 1 ==> Consumed(c, s', id, s'.claims[id][0]))
    {
      if |s.claims[id]| == 1 {
        assert Consumed(c, s, id, s.claims[id][0]);
      }
    }
  }

  lemma {:induction false} EveryRunKeepsInv(c: Config, steps: seq<Step>)
    requires Timely(c)
    ensures Inv(c, Run(c, INITIAL, steps))
  {
    if steps != [] {
      var s := Run(c, INITIAL, steps[..|steps| - 1]);
      var step := steps[|steps| - 1];
      EveryRunKeepsInv(c, steps[..|steps| - 1]);
      if Enabled(c, s, step) {
        if step.BeginSweep? || step.LookAtMarker? || step.RemoveMarker? || step.EndSweep? {
          SweepKeepsInv(c, s, step);
        } else if step.StatMarker? {
          StatKeepsInv(c, s, step.call);
        } else if step.Read? {
          ReadKeepsInv(c, s, step.call);
        } else if step.Serve? || step.Refuse? {
          CallsKeepInv(c, s, step);
        } else if step.Claim? {
          ClaimKeepsInv(c, s, step.call);
        } else if step.WriteGrant? || step.BeginRevoke? {
          AgentKeepsInv(c, s, step);
        } else {
          TimeKeepsInv(c, s, step);
        }
      }
    }
  }

  // --- What grants promise ---

  /** From one authorization of a transfer until its next revocation (or its next
      authorization), at most one forced command consumes it, in every interleaving of calls
      that last at most the TTL. */
  lemma ConsumedAtMostOnce(c: Config, steps: seq<Step>, id: string)
    requires Timely(c)
    ensures OnceOnly(Run(c, INITIAL, steps), id)
  {
    EveryRunKeepsInv(c, steps);
  }

  predicate OnceOnly(s: State, id: string) {
    id in s.claims ==> |s.claims[id]| <= 1
  }

  /** Sweeping a marker never revives its grant: a consumed authorization without a marker
      has no grant file left either, and no call that still holds it can claim it. */
  lemma SweptMarkerRevivesNothing(c: Config, steps: seq<Step>, id: string)
    requires Timely(c)
    requires var s := Run(c, INITIAL, steps);
             id in s.claims && s.claims[id] != [] && id !in s.used
    ensures var s := Run(c, INITIAL, steps);
            && id !in s.grants
            && forall k :: k in s.calls && s.calls[k].id == id ==> !Enabled(c, s, Claim(k))
  {
    EveryRunKeepsInv(c, steps);
    var s := Run(c, INITIAL, steps);
    assert Consumed(c, s, id, s.claims[id][0]);
  }

  // --- The bound on calls is exact ---

  lemma Take(c: Config, steps: seq<Step>, s: State, step: Step) returns (steps': seq<Step>, s': State)
    requires Run(c, INITIAL, steps) == s && Enabled(c, s, step)
    ensures Run(c, INITIAL, steps') == s' == Do(c, s, step)
  {
    steps', s' := steps + [step], Do(c, s, step);
    assert steps'[..|steps|] == steps;
  }

  function OneGrant(c: Config, id: string): map<string, Grant> {
    map[id := Grant(id, "", [], "/", [], Lead(c) + c.ttl)]
  }

  lemma TwoCallsWait(c: Config, id: string) returns (steps: seq<Step>)
    ensures Run(c, INITIAL, steps) ==
              State(Lead(c), OneGrant(c, id), map[], Idle, map[1 := Call(id, 0, Started), 2 := Call(id, 0, Started)],
                    map[id := Lead(c)], map[id := []])
  {
    var s := INITIAL;
    steps := [];
    hide Run;
    assert Run(c, INITIAL, []) == INITIAL by { NoSteps(c); }
    steps, s := Take(c, steps, s, Serve(1, id));
    steps, s := Take(c, steps, s, Serve(2, id));
    steps, s := Take(c, steps, s, Tick(Lead(c)));
    steps, s := Take(c, steps, s, BeginAuthorize(OneGrant(c, id)[id]));
    steps, s := Take(c, steps, s, WriteGrant);
  }

  lemma NoSteps(c: Config)
    ensures Run(c, INITIAL, []) == INITIAL
  {
  }

  lemma TwoCallsRead(c: Config, id: string) returns (steps: seq<Step>)
    ensures Run(c, INITIAL, steps) ==
              State(Lead(c), OneGrant(c, id), map[], Idle, map[1 := Call(id, 0, HasGrant), 2 := Call(id, 0, HasGrant)],
                    map[id := Lead(c)], map[id := []])
  {
    hide Run;
    steps := TwoCallsWait(c, id);
    var s := Run(c, INITIAL, steps);
    steps, s := Take(c, steps, s, StatMarker(1));
    steps, s := Take(c, steps, s, Read(1));
    steps, s := Take(c, steps, s, StatMarker(2));
    steps, s := Take(c, steps, s, Read(2));
    assert s.calls == map[1 := Call(id, 0, HasGrant), 2 := Call(id, 0, HasGrant)];
  }

  lemma OneCallConsumes(c: Config, id: string) returns (steps: seq<Step>)
    requires !Timely(c)
    ensures Run(c, INITIAL, steps) ==
              State(Lead(c), OneGrant(c, id), map[id := Lead(c)], Idle, map[1 := Call(id, 0, HasGrant)],
                    map[id := Lead(c)], map[id := [Lead(c)]])
  {
    hide Run;
    steps := TwoCallsRead(c, id);
    var s := Run(c, INITIAL, steps);
    steps, s := Take(c, steps, s, Claim(2));
    assert s.calls == map[1 := Call(id, 0, HasGrant)] && s.used == map[id := Lead(c)];
    assert [] + [Lead(c)] == [Lead(c)] && s.claims == map[id := [Lead(c)]];
  }

  /** For every TTL, a forced command stalled past it between reading its grant and claiming it,
      across an agent restart, consumes the grant a second time. */
  lemma StalledCallConsumesTwice(c: Config, id: string) returns (steps: seq<Step>)
    requires !Timely(c)
    ensures var s := Run(c, INITIAL, steps);
            id in s.claims && s.claims[id] == [Lead(c), Lead(c) + c.ttl + 1]
  {
    hide Run;
    steps := OneCallConsumes(c, id);
    var s := Run(c, INITIAL, steps);
    steps, s := Take(c, steps, s, Tick(Lead(c) + c.ttl + 1));
    steps, s := Take(c, steps, s, AgentRestart);
    steps, s := Take(c, steps, s, BeginSweep);
    steps, s := Take(c, steps, s, LookAtMarker(id));
    steps, s := Take(c, steps, s, RemoveMarker);
    steps, s := Take(c, steps, s, Claim(1));
    assert [Lead(c)] + [Lead(c) + c.ttl + 1] == [Lead(c), Lead(c) + c.ttl + 1];
  }

  /** Grants are consumed at most once in every run exactly when no forced command takes longer
      than the TTL (or, with a TTL of zero, than one second). */
  lemma OnceOnlyIff(c: Config)
    ensures (forall steps, id :: OnceOnly(Run(c, INITIAL, steps), id)) <==> c.longest <= c.ttl || c.longest <= 1
  {
    if Timely(c) {
      forall steps, id ensures OnceOnly(Run(c, INITIAL, steps), id) {
        ConsumedAtMostOnce(c, steps, id);
      }
    } else {
      var steps := StalledCallConsumesTwice(c, "t");
      assert !OnceOnly(Run(c, INITIAL, steps), "t");
    }
  }
}
