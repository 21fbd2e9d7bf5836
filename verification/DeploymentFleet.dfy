/** Which processes run and which of them the route table names, over every run. */
module DeploymentFleet {
  import opened Wrappers
  import opened Supervisor
  import opened Deployment
  import opened DeploymentVersions
  import Gateway

  /** The candidate process of an update in progress. */
  function Candidate(phase: Phase): Option<(Generation, nat)>
  {
    match phase
    case Probing(g, p, _) => Some((g, p))
    case Ready(g, p, _) => Some((g, p))
    case Committed(g, p, _) => Some((g, p))
    case _ => None
  }

  /** The processes the supervisor answers for. */
  function Processes(s: Sup): set<nat>
  {
    {s.child} + (if s.retired.Some? then {s.retired.value.child} else {})
    + (if Candidate(s.phase).Some? then {Candidate(s.phase).value.1} else {})
  }

  /** A generation on a used port, whose process, if running, runs that generation. */
  ghost predicate Placed(w: World, g: Generation, process: nat)
  {
    && g.port != 0 && g.port in w.log.ports && process < w.log.processes
    && (process in w.live ==> w.live[process] == g)
  }

  /** Only the deployment found at the first start may lack a tag; it is then the legacy one. */
  predicate Tagged(w: World, s: Sup, g: Generation)
  {
    g.blue || (s.legacy == Some(g.revision) && g.revision == w.log.origin)
  }

  ghost predicate SupPlaced(w: World, s: Sup)
  {
    && Placed(w, s.active, s.child) && Tagged(w, s, s.active)
    && (s.legacy.Some? ==> s.legacy == Some(w.log.origin))
    && w.live.Keys <= Processes(s)
    && (s.retired.Some? ==>
          var kept := s.retired.value;
          && Placed(w, kept.generation, kept.child) && Tagged(w, s, kept.generation)
          && kept.child != s.child && kept.generation.port != s.active.port)
    && (Candidate(s.phase).Some? ==>
          var (g, p) := Candidate(s.phase).value;
          && Placed(w, g, p) && g.blue && p != s.child && g.port != s.active.port)
    && (s.phase.RollingBack? ==> s.child !in w.live)
  }

  predicate SavedTagged(w: World, saved: Saved)
  {
    saved.active.Some? ==> saved.active.value.blue || saved.active.value.revision == w.log.origin
  }

  ghost predicate Fleet(w: World)
  {
    && (w.sup.None? ==> w.live == map[])
    && (w.net.up ==> w.sup.Some? && !InBoot(w.sup.value.phase))
    && (w.disk.state.Some? ==> SavedTagged(w, w.disk.state.value))
    && (w.sup.Some? ==> SupPlaced(w, w.sup.value) && SavedTagged(w, w.sup.value.state))
  }

  lemma FleetBoot(w: World, step: BootStep)
    requires Versioned(w) && Fleet(w) && NextBoot(w, step).Some?
    ensures Fleet(NextBoot(w, step).value)
  {
    hide IsCounter, Routes, Numbered;
  }

  lemma FleetStart(w: World, step: UpdateStep)
    requires Versioned(w) && Fleet(w) && NextUpdate(w, step).Some? && step.Start?
    ensures Fleet(NextUpdate(w, step).value)
  {
    hide Numbered;
  }

  lemma FleetSwitch(w: World, step: UpdateStep)
    requires Versioned(w) && Fleet(w) && NextUpdate(w, step).Some? && step.Switch?
    ensures Fleet(NextUpdate(w, step).value)
  {
    hide Routes, Numbered;
  }

  lemma FleetCommit(w: World, step: UpdateStep)
    requires Versioned(w) && Fleet(w) && NextUpdate(w, step).Some? && step.Commit?
    ensures Fleet(NextUpdate(w, step).value)
  {
    hide Routes, Numbered;
  }

  lemma FleetUpdate(w: World, step: UpdateStep)
    requires Versioned(w) && Fleet(w) && NextUpdate(w, step).Some?
    ensures Fleet(NextUpdate(w, step).value)
  {
    if step.Start? {
      FleetStart(w, step);
    } else if step.Switch? {
      FleetSwitch(w, step);
    } else if step.Commit? {
      FleetCommit(w, step);
    } else {
      hide Routes, Numbered, Published;
    }
  }

  lemma FleetRestart(w: World, step: MaintainStep)
    requires Versioned(w) && Fleet(w) && NextMaintain(w, step).Some? && step.Restart?
    ensures Fleet(NextMaintain(w, step).value)
  {
    hide Routes, Numbered;
  }

  lemma FleetMaintain(w: World, step: MaintainStep)
    requires Versioned(w) && Fleet(w) && NextMaintain(w, step).Some?
    ensures Fleet(NextMaintain(w, step).value)
  {
    if step.Restart? {
      FleetRestart(w, step);
    } else {
      hide Routes, Numbered, MayRetire, IsFresh, IsBusy;
    }
  }

  lemma FleetTraffic(w: World, step: TrafficStep)
    requires Fleet(w) && NextTraffic(w, step).Some?
    ensures Fleet(NextTraffic(w, step).value)
  {
    hide NextTraffic, Routes;
    TrafficFrame(w, step);
  }

  lemma FleetFault(w: World, step: FaultStep)
    requires Fleet(w) && NextFault(w, step).Some?
    ensures Fleet(NextFault(w, step).value)
  {
  }

  lemma FleetAdvance(w: World, now: real)
    requires Fleet(w) && w.now <= now
    ensures Fleet(w.(now := now))
  {
  }

  lemma FleetStep(w: World, step: Step)
    requires Versioned(w) && Fleet(w) && Next(w, step).Some?
    ensures Fleet(Next(w, step).value)
  {
    hide NextBoot, NextUpdate, NextMaintain, NextTraffic, NextFault, Fleet;
    match step
    case Boot(b) => FleetBoot(w, b);
    case Update(u) => FleetUpdate(w, u);
    case Maintain(m) => FleetMaintain(w, m);
    case Traffic(t) => FleetTraffic(w, t);
    case Fault(f) => FleetFault(w, f);
    case Advance(dt) => FleetAdvance(w, w.now + dt);
  }

  // ------------------------------------------------------------- the route table

  /** The table the supervisor has published. */
  function Expected(s: Sup): Gateway.RouteTable
  {
    var kept := if s.retired.Some? then Some(s.retired.value.generation) else None;
    match s.phase
    case Retiring => Routes(s.active, None, s.legacy)
    case RollingBack => if kept.Some? then Routes(kept.value, None, s.legacy) else Routes(s.active, None, s.legacy)
    case _ => Routes(s.active, kept, s.legacy)
  }

  ghost predicate Routed(w: World)
  {
    w.sup.Some? && !InBoot(w.sup.value.phase) ==> w.disk.routes == Some(Expected(w.sup.value))
  }

  lemma RoutedBoot(w: World, step: BootStep)
    requires Versioned(w) && Routed(w) && NextBoot(w, step).Some?
    ensures Routed(NextBoot(w, step).value)
  {
    hide Routes, Numbered, IsCounter;
  }

  lemma RoutedUpdate(w: World, step: UpdateStep)
    requires Versioned(w) && Routed(w) && NextUpdate(w, step).Some?
    ensures Routed(NextUpdate(w, step).value)
  {
    hide Routes, Numbered;
  }

  lemma RoutedMaintain(w: World, step: MaintainStep)
    requires Versioned(w) && Routed(w) && NextMaintain(w, step).Some?
    ensures Routed(NextMaintain(w, step).value)
  {
    hide Routes, Numbered, MayRetire, IsFresh, IsBusy;
  }

  lemma RoutedTraffic(w: World, step: TrafficStep)
    requires Routed(w) && NextTraffic(w, step).Some?
    ensures Routed(NextTraffic(w, step).value)
  {
    hide NextTraffic, Routes;
    TrafficFrame(w, step);
  }

  lemma RoutedFault(w: World, step: FaultStep)
    requires Routed(w) && NextFault(w, step).Some?
    ensures Routed(NextFault(w, step).value)
  {
  }

  lemma RoutedAdvance(w: World, now: real)
    requires Routed(w) && w.now <= now
    ensures Routed(w.(now := now))
  {
  }

  lemma RoutedStep(w: World, step: Step)
    requires Versioned(w) && Routed(w) && Next(w, step).Some?
    ensures Routed(Next(w, step).value)
  {
    hide NextBoot, NextUpdate, NextMaintain, NextTraffic, NextFault, Routed;
    match step
    case Boot(b) => RoutedBoot(w, b);
    case Update(u) => RoutedUpdate(w, u);
    case Maintain(m) => RoutedMaintain(w, m);
    case Traffic(t) => RoutedTraffic(w, t);
    case Fault(f) => RoutedFault(w, f);
    case Advance(dt) => RoutedAdvance(w, w.now + dt);
  }

  // ------------------------------------------------------------- what passed readiness

  /** The release pair a revision was staged from; none for the operator's own deployment. */
  function PairOf(w: World, revision: nat): Option<string>
  {
    if revision in w.log.pairs then Some(w.log.pairs[revision]) else None
  }

  predicate SavedCertified(w: World, saved: Saved)
  {
    && (saved.active.Some? ==> saved.active.value.revision in w.log.passed)
    && saved.pair == PairOf(w, if saved.active.Some? then saved.active.value.revision else w.log.origin)
  }

  ghost predicate SupCertified(w: World, s: Sup)
  {
    && s.state.pair == PairOf(w, s.active.revision)
    && (s.phase.Booting? ==> SavedCertified(w, s.state))
    && (!s.phase.Booting? ==> s.state.active == Some(s.active) && s.active.revision in w.log.passed)
    && (s.retired.Some? ==>
          && s.retired.value.generation.revision in w.log.passed
          && s.retired.value.pair == PairOf(w, s.retired.value.generation.revision))
    && (match s.phase
        case Staged(r, pair) => PairOf(w, r) == Some(pair)
        case Reserved(r, pair) => PairOf(w, r) == Some(pair)
        case Probing(g, _, pair) => PairOf(w, g.revision) == Some(pair)
        case Ready(g, _, pair) => PairOf(w, g.revision) == Some(pair) && g.revision in w.log.passed
        case Committed(g, _, pair) => PairOf(w, g.revision) == Some(pair) && g.revision in w.log.passed
        case _ => true)
  }

  ghost predicate Certified(w: World)
  {
    && (forall r :: r in w.log.pairs ==> InPlay(w, r))
    && (if w.disk.state.Some? then SavedCertified(w, w.disk.state.value) else PairOf(w, w.log.origin) == None)
    && (w.sup.Some? ==> SupCertified(w, w.sup.value))
  }

  lemma CertifiedBoot(w: World, step: BootStep)
    requires Versioned(w) && Certified(w) && NextBoot(w, step).Some?
    ensures Certified(NextBoot(w, step).value)
  {
    hide IsCounter, Routes;
  }

  lemma CertifiedUpdate(w: World, step: UpdateStep)
    requires Versioned(w) && Certified(w) && NextUpdate(w, step).Some?
    ensures Certified(NextUpdate(w, step).value)
  {
    hide Routes, Increasing;
  }

  lemma CertifiedMaintain(w: World, step: MaintainStep)
    requires Versioned(w) && Certified(w) && NextMaintain(w, step).Some?
    ensures Certified(NextMaintain(w, step).value)
  {
    hide Routes, Increasing, MayRetire, IsFresh, IsBusy;
  }

  lemma CertifiedTraffic(w: World, step: TrafficStep)
    requires Certified(w) && NextTraffic(w, step).Some?
    ensures Certified(NextTraffic(w, step).value)
  {
    hide NextTraffic;
    TrafficFrame(w, step);
  }

  lemma CertifiedFault(w: World, step: FaultStep)
    requires Certified(w) && NextFault(w, step).Some?
    ensures Certified(NextFault(w, step).value)
  {
  }

  lemma CertifiedAdvance(w: World, now: real)
    requires Certified(w) && w.now <= now
    ensures Certified(w.(now := now))
  {
  }

  lemma CertifiedStep(w: World, step: Step)
    requires Versioned(w) && Certified(w) && Next(w, step).Some?
    ensures Certified(Next(w, step).value)
  {
    hide NextBoot, NextUpdate, NextMaintain, NextTraffic, NextFault, Certified;
    match step
    case Boot(b) => CertifiedBoot(w, b);
    case Update(u) => CertifiedUpdate(w, u);
    case Maintain(m) => CertifiedMaintain(w, m);
    case Traffic(t) => CertifiedTraffic(w, t);
    case Fault(f) => CertifiedFault(w, f);
    case Advance(dt) => CertifiedAdvance(w, w.now + dt);
  }

  ghost predicate Sound(w: World)
  {
    Versioned(w) && Fleet(w) && Routed(w) && Certified(w)
  }

  lemma {:induction false} SoundRun(w: World, steps: seq<Step>)
    requires Sound(w) && Run(w, steps).Some?
    ensures Sound(Run(w, steps).value)
    decreases |steps|
  {
    hide Versioned, Fleet, Routed, Certified, Next;
    if steps != [] {
      VersionedStep(w, steps[0]);
      FleetStep(w, steps[0]);
      RoutedStep(w, steps[0]);
      CertifiedStep(w, steps[0]);
      SoundRun(Next(w, steps[0]).value, steps[1..]);
    }
  }
}
