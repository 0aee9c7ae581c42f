/**
 Who prints a job: the agent or the legacy path (`MigratingPrinterProvider.print` in providers.ts
 over the durable `RoutingStore` of routing.ts).

 Any number of calls run at once, in several tabs; each `await` is a point where others may run,
 where the connection may change and where the page may be closed.
 */
module Routes {
  import opened Prelude

  datatype Route = Agent | Legacy

  type Routing = map<string, Route>

  /** The store's one transaction: the first claim of a job writes it, later ones read it. */
  function Claimed(routes: Routing, job: string, route: Route): Routing {
    if job in routes then routes else routes[job := route]
  }

  class RoutingStore {
    var routes: Routing

    method Lookup(job: string) returns (r: Option<Route>)
      ensures r == if job in routes then Some(routes[job]) else None
    {
      if job in routes { return Some(routes[job]); }
      return None;
    }

    method Claim(job: string, route: Route) returns (selected: Route, created: bool)
      modifies this
      ensures routes == Claimed(old(routes), job, route)
      ensures job in routes && selected == routes[job]
      ensures created <==> job !in old(routes)
      ensures forall j :: j in old(routes) ==> j in routes && routes[j] == old(routes)[j]
    {
      selected, created := route, false;
      if job in routes {
        selected := routes[job];
      } else {
        created := true;
        routes := routes[job := route];
      }
    }
  }

  // ----- one call -----

  datatype Stage =
    | Begun
    | Looked(seen: Option<Route>)
    | WantsLegacy
    | Online
    | GotLegacy(selected: Route, created: bool)
    | GotAgent(chosen: Route)
    | Ended

  datatype Call = Call(job: string, stage: Stage)

  /** How connecting went: done, the agent is not there, or some other failure. */
  datatype Connection = Connected | Unavailable | OtherError

  datatype System = System(routes: Routing, calls: map<nat, Call>, legacy: multiset<string>, agent: multiset<string>)

  datatype Step =
    | Begin(call: nat, job: string)
    | Look(call: nat)
    | Connect(call: nat, outcome: Connection, allowLegacy: bool)
    | ClaimLegacy(call: nat)
    | HandLegacy(call: nat)
    | ClaimAgent(call: nat)
    | HandAgent(call: nat)
    | Close(call: nat)
    | Restart

  const START := System(map[], map[], multiset{}, multiset{})

  function At(s: System, c: nat): Stage { if c in s.calls then s.calls[c].stage else Ended }

  function Move(s: System, c: nat, stage: Stage): System
    requires c in s.calls
  {
    s.(calls := s.calls[c := s.calls[c].(stage := stage)])
  }

  function Next(s: System, step: Step): System {
    match step
    case Begin(c, job) => if c in s.calls then s else s.(calls := s.calls[c := Call(job, Begun)])
    case Look(c) =>
      if At(s, c) == Begun
      then Move(s, c, Looked(if s.calls[c].job in s.routes then Some(s.routes[s.calls[c].job]) else None)) else s
    case Connect(c, outcome, allow) =>
      if !At(s, c).Looked? then s
      else if At(s, c).seen == Some(Legacy) then Move(s, c, Ended)
      else if outcome.Connected? then Move(s, c, Online)
      else if At(s, c).seen.None? && outcome.Unavailable? && allow then Move(s, c, WantsLegacy)
      else Move(s, c, Ended)
    case ClaimLegacy(c) => if At(s, c).WantsLegacy? then NextClaim(s, c, Legacy) else s
    case HandLegacy(c) =>
      if !At(s, c).GotLegacy? then s
      else if At(s, c).selected == Legacy && At(s, c).created
      then Move(s, c, Ended).(legacy := s.legacy + multiset{s.calls[c].job})
      else Move(s, c, Ended)
    case ClaimAgent(c) => if At(s, c).Online? then NextClaim(s, c, Agent) else s
    case HandAgent(c) =>
      if !At(s, c).GotAgent? then s
      else if At(s, c).chosen == Agent
      then Move(s, c, Ended).(agent := s.agent + multiset{s.calls[c].job})
      else Move(s, c, Ended)
    case Close(c) => s.(calls := s.calls - {c})
    case Restart => s.(calls := map[])
  }

  function NextClaim(s: System, c: nat, route: Route): System
    requires c in s.calls
  {
    var job := s.calls[c].job;
    var routes := Claimed(s.routes, job, route);
    var stage := if route == Legacy then GotLegacy(routes[job], job !in s.routes) else GotAgent(routes[job]);
    Move(s, c, stage).(routes := routes)
  }

  function Run(s: System, steps: seq<Step>): System
    decreases |steps|
  {
    if |steps| == 0 then s else Run(Next(s, steps[0]), steps[1..])
  }

  // ----- the invariant -----

  /** This call created the route and is about to hand the job to legacy printing. */
  predicate Holds(s: System, c: nat) {
    c in s.calls && s.calls[c].stage == GotLegacy(Legacy, true)
  }

  ghost predicate CallSound(s: System, c: nat)
    requires c in s.calls
  {
    var job := s.calls[c].job;
    && (Holds(s, c) ==> job in s.routes && s.routes[job] == Legacy && s.legacy[job] == 0)
    && (s.calls[c].stage == GotAgent(Agent) ==> job in s.routes && s.routes[job] == Agent)
  }

  ghost predicate Inv(s: System) {
    && (forall job :: s.legacy[job] <= 1)
    && (forall job :: s.legacy[job] > 0 ==> job in s.routes && s.routes[job] == Legacy)
    && (forall job :: s.agent[job] > 0 ==> job in s.routes && s.routes[job] == Agent)
    && (forall c :: c in s.calls ==> CallSound(s, c))
    && (forall c, d :: Holds(s, c) && Holds(s, d) && s.calls[c].job == s.calls[d].job ==> c == d)
  }

  lemma ClaimKeepsInv(s: System, c: nat, route: Route)
    requires Inv(s) && c in s.calls && !Holds(s, c)
    ensures Inv(NextClaim(s, c, route))
  {
    var s' := NextClaim(s, c, route);
    forall d | d in s'.calls
      ensures CallSound(s', d)
    {
      if d != c { assert CallSound(s, d) && s'.calls[d] == s.calls[d]; }
    }
    forall d, e | Holds(s', d) && Holds(s', e) && s'.calls[d].job == s'.calls[e].job
      ensures d == e
    {
      assert d != c ==> Holds(s, d) && CallSound(s, d);
      assert e != c ==> Holds(s, e) && CallSound(s, e);
    }
  }

  lemma LegacyKeepsInv(s: System, c: nat)
    requires Inv(s) && Holds(s, c)
    ensures Inv(Move(s, c, Ended).(legacy := s.legacy + multiset{s.calls[c].job}))
  {
    var s' := Move(s, c, Ended).(legacy := s.legacy + multiset{s.calls[c].job});
    assert CallSound(s, c);
    forall d | d in s'.calls
      ensures CallSound(s', d)
    {
      assert CallSound(s, d);
      assert Holds(s', d) ==> Holds(s, d) && d != c;
    }
    forall d, e | Holds(s', d) && Holds(s', e) && s'.calls[d].job == s'.calls[e].job
      ensures d == e
    {
      assert Holds(s, d) && Holds(s, e);
    }
  }

  lemma AgentKeepsInv(s: System, c: nat)
    requires Inv(s) && c in s.calls && s.calls[c].stage == GotAgent(Agent)
    ensures Inv(Move(s, c, Ended).(agent := s.agent + multiset{s.calls[c].job}))
  {
    var m := Move(s, c, Ended);
    QuietKeepsInv(s, m);
    assert CallSound(s, c);
    var s' := m.(agent := s.agent + multiset{s.calls[c].job});
    forall d | d in s'.calls
      ensures CallSound(s', d)
    {
      assert CallSound(m, d);
    }
    assert forall d :: Holds(s', d) <==> Holds(m, d);
  }

  /** Dropping calls, or moving one to a stage that holds nothing, is harmless. */
  lemma QuietKeepsInv(s: System, s': System)
    requires Inv(s) && s'.routes == s.routes && s'.legacy == s.legacy && s'.agent == s.agent
    requires forall c :: c in s'.calls ==>
               (c in s.calls && s'.calls[c] == s.calls[c])
               || !(s'.calls[c].stage.GotLegacy? || s'.calls[c].stage.GotAgent?)
    ensures Inv(s')
  {
    forall d | d in s'.calls
      ensures CallSound(s', d)
    {
      if d in s.calls { assert CallSound(s, d); }
    }
    forall d, e | Holds(s', d) && Holds(s', e) && s'.calls[d].job == s'.calls[e].job
      ensures d == e
    {
      assert Holds(s, d) && Holds(s, e);
    }
  }

  predicate QuietStep(step: Step) {
    step.Begin? || step.Look? || step.Connect? || step.Close? || step.Restart?
  }

  lemma QuietShape(s: System, step: Step)
    requires QuietStep(step)
    ensures var s' := Next(s, step);
      && s'.routes == s.routes && s'.legacy == s.legacy && s'.agent == s.agent
      && forall c :: c in s'.calls ==>
           (c in s.calls && s'.calls[c] == s.calls[c])
           || !(s'.calls[c].stage.GotLegacy? || s'.calls[c].stage.GotAgent?)
  {
  }

  lemma HandLegacyKeepsInv(s: System, c: nat)
    requires Inv(s)
    ensures Inv(Next(s, HandLegacy(c)))
  {
    hide Inv;
    if Holds(s, c) { LegacyKeepsInv(s, c); } else if At(s, c).GotLegacy? { QuietKeepsInv(s, Move(s, c, Ended)); }
  }

  lemma HandAgentKeepsInv(s: System, c: nat)
    requires Inv(s)
    ensures Inv(Next(s, HandAgent(c)))
  {
    hide Inv;
    if At(s, c) == GotAgent(Agent) { AgentKeepsInv(s, c); }
    else if At(s, c).GotAgent? { QuietKeepsInv(s, Move(s, c, Ended)); }
  }

  lemma StepKeepsInv(s: System, step: Step)
    requires Inv(s)
    ensures Inv(Next(s, step))
  {
    hide Inv;
    if QuietStep(step) {
      QuietShape(s, step);
      QuietKeepsInv(s, Next(s, step));
    } else {
      match step
      case ClaimLegacy(c) => if At(s, c).WantsLegacy? { ClaimKeepsInv(s, c, Legacy); }
      case ClaimAgent(c) => if At(s, c).Online? { ClaimKeepsInv(s, c, Agent); }
      case HandLegacy(c) => HandLegacyKeepsInv(s, c);
      case HandAgent(c) => HandAgentKeepsInv(s, c);
    }
  }

  lemma {:induction false} RunKeepsInv(s: System, steps: seq<Step>)
    requires Inv(s)
    ensures Inv(Run(s, steps))
    decreases |steps|
  {
    if |steps| > 0 {
      StepKeepsInv(s, steps[0]);
      RunKeepsInv(Next(s, steps[0]), steps[1..]);
    }
  }

  /**
   In every interleaving of calls, disconnections and restarts: a job is handed to legacy printing
   at most once, and never to both.
   */
  lemma Exclusive(steps: seq<Step>, job: string)
    ensures var s := Run(START, steps);
            s.legacy[job] <= 1 && !(s.legacy[job] > 0 && s.agent[job] > 0)
  {
    RunKeepsInv(START, steps);
  }

  /** A route, once written, is never rewritten. */
  lemma {:induction false} RouteStable(s: System, steps: seq<Step>, job: string)
    requires job in s.routes
    ensures job in Run(s, steps).routes && Run(s, steps).routes[job] == s.routes[job]
    decreases |steps|
  {
    if |steps| > 0 {
      RouteStable(Next(s, steps[0]), steps[1..], job);
    }
  }

  // ----- and a call does go somewhere -----

  /** The steps of one undisturbed call when the agent is there, and when it is not and legacy printing is allowed. */
  function AgentCall(c: nat, job: string): seq<Step> {
    [Begin(c, job), Look(c), Connect(c, Connected, false), ClaimAgent(c), HandAgent(c)]
  }

  function LegacyCall(c: nat, job: string): seq<Step> {
    [Begin(c, job), Look(c), Connect(c, Unavailable, true), ClaimLegacy(c), HandLegacy(c)]
  }

  lemma RunFive(s: System, a: Step, b: Step, c: Step, d: Step, e: Step)
    ensures Run(s, [a, b, c, d, e]) == Next(Next(Next(Next(Next(s, a), b), c), d), e)
  {
    hide Next;
    assert [a, b, c, d, e] == [a] + [b, c, d, e] && [b, c, d, e] == [b] + [c, d, e];
    assert [c, d, e] == [c] + [d, e] && [d, e] == [d] + [e] && [e] == [e] + [];
    RunFirst(s, a, [b, c, d, e]);
    RunFirst(Next(s, a), b, [c, d, e]);
    RunFirst(Next(Next(s, a), b), c, [d, e]);
    RunFirst(Next(Next(Next(s, a), b), c), d, [e]);
    RunFirst(Next(Next(Next(Next(s, a), b), c), d), e, []);
  }

  lemma RunFirst(s: System, step: Step, rest: seq<Step>)
    ensures Run(s, [step] + rest) == Run(Next(s, step), rest)
  {
    assert ([step] + rest)[1..] == rest;
  }

  /** With the agent there, a job that is not legacy's is handed to it, each time it is asked for. */
  lemma AgentPrints(s: System, c: nat, job: string)
    requires c !in s.calls && (job in s.routes ==> s.routes[job] == Agent)
    ensures var t := Run(s, AgentCall(c, job));
      t.agent == s.agent + multiset{job} && t.legacy == s.legacy && t.routes == s.routes[job := Agent]
  {
    RunFive(s, Begin(c, job), Look(c), Connect(c, Connected, false), ClaimAgent(c), HandAgent(c));
    var begun := Next(s, Begin(c, job));
    assert At(begun, c) == Begun && begun.calls[c].job == job;
    var looked := Next(begun, Look(c));
    assert At(looked, c).Looked? && At(looked, c).seen != Some(Legacy);
    var online := Next(looked, Connect(c, Connected, false));
    assert At(online, c) == Online;
    var got := Next(online, ClaimAgent(c));
    assert got.routes == s.routes[job := Agent];
    assert At(got, c) == GotAgent(Agent);
  }

  /** Without it, a job that has no route yet goes to legacy printing, and one that has goes nowhere. */
  lemma LegacyPrints(s: System, c: nat, job: string)
    requires c !in s.calls
    ensures var t := Run(s, LegacyCall(c, job));
      && t.agent == s.agent
      && (job !in s.routes ==> t.legacy == s.legacy + multiset{job} && t.routes == s.routes[job := Legacy])
      && (job in s.routes ==> t.legacy == s.legacy && t.routes == s.routes)
  {
    RunFive(s, Begin(c, job), Look(c), Connect(c, Unavailable, true), ClaimLegacy(c), HandLegacy(c));
  }
}
