/** Safety of the fleet over every run: agreement of memory and files, the table's targets, and what is ever stopped. */
module DeploymentSafety {
  import opened Wrappers
  import opened Supervisor
  import opened Deployment
  import opened DeploymentVersions
  import opened DeploymentFleet
  import Gateway
  import Version

  /** Generation and pair named by `state.json` are those the supervisor's phase calls for. */
  ghost predicate Agreed(w: World)
  {
    && (w.sup.Some? && (InBoot(w.sup.value.phase) || NewRevision(w.sup.value.phase).Some?) ==>
          w.sup.value.retired.None?)
    && (w.sup.Some? && !w.sup.value.phase.Booting? && !w.sup.value.phase.Checked? ==> SavedAgrees(w, w.sup.value))
  }

  ghost predicate SavedAgrees(w: World, s: Sup)
  {
    && w.disk.state.Some?
    && (if s.phase.Committed? then
          && w.disk.state.value.active == Some(s.phase.candidate) && w.disk.state.value.pair == Some(s.phase.pair)
          && w.disk.state.value.previous == Some(s.active)
        else
          && w.disk.state.value.active == s.state.active && w.disk.state.value.pair == s.state.pair
          && w.disk.state.value.previous == s.state.previous)
    && (s.retired.Some? ==> s.state.previous == Some(s.retired.value.generation))
  }

  lemma AgreedUpdate(w: World, step: UpdateStep)
    requires Agreed(w) && NextUpdate(w, step).Some?
    ensures Agreed(NextUpdate(w, step).value)
  {
    hide Routes;
  }

  lemma AgreedStep(w: World, step: Step)
    requires Agreed(w) && Next(w, step).Some?
    ensures Agreed(Next(w, step).value)
  {
    hide Routes, MayRetire, IsFresh, IsBusy, IsCounter, Reaches, MayDraw, Selected, Gateway.Bump, Gateway.Drop;
    hide NextUpdate;
    match step
    case Boot(b) =>
    case Update(u) => AgreedUpdate(w, u);
    case Maintain(m) =>
    case Traffic(t) =>
    case Fault(f) =>
    case Advance(dt) =>
  }

  lemma {:induction false} AgreedRun(w: World, steps: seq<Step>)
    requires Agreed(w) && Run(w, steps).Some?
    ensures Agreed(Run(w, steps).value)
    decreases |steps|
  {
    hide Agreed, Next;
    if steps != [] {
      AgreedStep(w, steps[0]);
      AgreedRun(Next(w, steps[0]).value, steps[1..]);
    }
  }

  // ------------------------------------------------------------- first starts

  /** No process runs, nothing is in flight, and no token has been issued; an old statistics file may lie about. */
  ghost predicate AtRest(w: World)
  {
    && w.sup.None? && w.live == map[] && w.book.challenges == map[] && w.book.grants == map[]
    && !w.net.up && w.net.counts == map[] && w.net.flights == map[] && w.net.uploads == map[] && w.net.pending.None?
    && w.net.lag >= 0.0
    && (w.net.stats.Some? ==>
          w.net.takenAt <= w.net.stats.value.mtime <= w.now && w.net.stats.value.mtime - w.net.takenAt <= w.net.lag)
  }

  /** The generation files are those of the revisions allocated so far, in order and in range. */
  ghost predicate FilesInOrder(w: World)
  {
    && Increasing(w.log.numbers) && (forall r :: r in w.disk.generations <==> r in w.log.numbers)
    && (forall r :: r in w.disk.generations ==> 0 < r <= Version.MAX_REVISION)
    && (forall r :: r in w.log.pairs ==> r == w.log.origin || r in w.disk.generations)
  }

  /**
   * What the first start may find on disk: nothing, or the well-formed state of an earlier
   * deployment, whose active generation need not support blue/green routing. Its counter is
   * at or above its revision, it had passed readiness, and its pair is its own.
   */
  ghost predicate Initial(w: World)
  {
    && AtRest(w) && FilesInOrder(w)
    && match w.disk.state
       case None => w.log.origin == 0 && w.log.origin !in w.log.pairs
       case Some(saved) =>
         && w.log.origin <= saved.counter <= Version.MAX_REVISION
         && (if saved.active.Some? then saved.active.value.revision == w.log.origin else w.log.origin == 0)
         && (saved.active.Some? ==> w.log.origin in w.log.passed)
         && saved.pair == PairOf(w, w.log.origin)
  }

  lemma EmptyDiskIsInitial(now: real)
    ensures Initial(Init(now))
  {
  }

  /** The migration from a deployment of revision r whose binary predates blue/green routing. */
  lemma OldDeploymentIsInitial(now: real, r: nat, counter: nat, port: nat, pair: string, newPort: nat, blue: bool)
    requires 0 < r <= counter <= Version.MAX_REVISION && newPort != 0
    ensures var saved := Saved(counter, Some(Generation(r, port, false)), None, Some(pair));
            var found := Init(now).(disk := Disk(Some(saved), None, {r}),
                                    log := Log([r], {r}, map[r := pair], {}, 0, r));
            var w := Next(found, Boot(Begin(newPort, blue)));
            && Initial(found)
            && w.Some? && w.value.sup.Some?
            && w.value.sup.value.active == Generation(r, newPort, false) && w.value.sup.value.legacy == Some(r)
  {
  }

  lemma InitialSound(w: World)
    requires Initial(w)
    ensures Sound(w) && Agreed(w)
  {
    hide Increasing;
  }

  // ------------------------------------------------------------- every run

  /**
   * All-or-nothing cutover. Whenever the main loop is idle, memory, `state.json` and
   * `routes.json` name one generation and its own pair, and `state.json` names the retained
   * one as the previous; and whatever the crash point, the durable active generation had
   * passed readiness and the durable pair is its own.
   */
  lemma CutoverIsAllOrNothing(w0: World, steps: seq<Step>)
    requires Initial(w0) && Run(w0, steps).Some?
    ensures var w := Run(w0, steps).value;
            && (w.sup.Some? && w.sup.value.phase.Idle? ==>
                  var s := w.sup.value;
                  && s.state.active == Some(s.active) && s.state.pair == PairOf(w, s.active.revision)
                  && w.disk.state.Some? && w.disk.state.value.active == Some(s.active)
                  && w.disk.state.value.pair == s.state.pair
                  && (s.retired.Some? ==> w.disk.state.value.previous == Some(s.retired.value.generation))
                  && w.disk.routes.Some? && w.disk.routes.value.active == s.active.revision
                  && s.active.revision in w.disk.routes.value.targets
                  && w.disk.routes.value.targets[s.active.revision] == s.active.port)
            && (w.disk.state.Some? && w.disk.state.value.active.Some? ==>
                  && w.disk.state.value.active.value.revision in w.log.passed
                  && w.disk.state.value.pair == PairOf(w, w.disk.state.value.active.value.revision))
  {
    InitialSound(w0);
    SoundRun(w0, steps);
    AgreedRun(w0, steps);
  }

  lemma AtMostTwo(a: nat, b: nat, s: set<nat>)
    requires s <= {a, b}
    ensures |s| <= 2
  {
    assert {a, b} == s + ({a, b} - s);
    assert |{a, b}| <= 2;
  }

  /** The two processes a phase may have. */
  lemma TwoProcesses(w: World, s: Sup)
    requires Versioned(w) && Fleet(w) && w.sup == Some(s)
    ensures |w.live| <= 2
  {
    var other := if s.retired.Some? then s.retired.value.child
                 else if Candidate(s.phase).Some? then Candidate(s.phase).value.1 else s.child;
    assert NewRevision(s.phase).Some? ==> s.retired.None?;
    assert Processes(s) == {s.child, other};
    AtMostTwo(s.child, other, w.live.Keys);
    assert |w.live| == |w.live.Keys|;
  }

  /**
   * In every reachable state at most two workers live. Outside the moments between
   * two table writes, the table names exactly the active worker and the retained
   * one, under distinct revisions and ports, and each had passed readiness; it names the
   * legacy generation exactly while that is one of the two.
   */
  lemma FleetIsSafe(w0: World, steps: seq<Step>)
    requires Initial(w0) && Run(w0, steps).Some?
    ensures var w := Run(w0, steps).value;
            && |w.live| <= 2
            && (w.net.up ==>
                  && w.sup.Some? && w.disk.routes.Some?
                  && w.disk.routes.value.active in w.disk.routes.value.targets
                  && forall r <- w.disk.routes.value.targets :: r in w.log.passed)
            && (w.sup.Some? && w.sup.value.phase.Idle? ==>
                  var s := w.sup.value;
                  w.disk.routes.Some? &&
                  var targets, legacy := w.disk.routes.value.targets, w.disk.routes.value.legacy;
                  && (legacy.Some? <==> s.legacy.Some? && s.legacy.value in targets)
                  && (legacy.Some? ==> legacy == s.legacy)
                  && (s.retired.None? ==> targets == map[s.active.revision := s.active.port])
                  && (s.retired.Some? ==>
                        var kept := s.retired.value.generation;
                        && kept.revision != s.active.revision && kept.port != s.active.port
                        && targets == map[s.active.revision := s.active.port, kept.revision := kept.port]))
  {
    InitialSound(w0);
    SoundRun(w0, steps);
    var w := Run(w0, steps).value;
    if w.sup.Some? {
      TwoProcesses(w, w.sup.value);
    }
  }

  lemma UpdateSpares(w: World, step: UpdateStep, process: nat)
    requires Sound(w) && w.net.up && NextUpdate(w, step).Some?
    requires process in w.live && process !in NextUpdate(w, step).value.live
    ensures w.disk.routes.Some? && w.live[process].port !in w.disk.routes.value.targets.Values
  {
    hide Numbered, Certified;
  }

  lemma MaintainSpares(w: World, step: MaintainStep, process: nat)
    requires Sound(w) && w.net.up && NextMaintain(w, step).Some?
    requires process in w.live && process !in NextMaintain(w, step).value.live
    ensures w.disk.routes.Some? && w.live[process].port !in w.disk.routes.value.targets.Values
  {
    hide Numbered, Certified, MayRetire, IsFresh, IsBusy;
  }

  /**
   * No step of the supervisor ends a worker whose port the current table names:
   * a rejected candidate was never published, and a drained worker was dropped
   * from the table first.
   */
  lemma NeverStopsANamedWorker(w0: World, steps: seq<Step>, step: Step, process: nat)
    requires Initial(w0) && Run(w0, steps).Some?
    requires var w := Run(w0, steps).value;
             && (step.Update? || step.Maintain?) && Next(w, step).Some? && w.net.up
             && process in w.live && process !in Next(w, step).value.live
    ensures var w := Run(w0, steps).value;
            w.disk.routes.Some? && w.live[process].port !in w.disk.routes.value.targets.Values
  {
    hide Sound, NextUpdate, NextMaintain, Run;
    InitialSound(w0);
    SoundRun(w0, steps);
    var w := Run(w0, steps).value;
    if step.Update? {
      UpdateSpares(w, step.update, process);
    } else {
      MaintainSpares(w, step.maintain, process);
    }
  }

  /**
   * Over any mix of failed stages, failed writes, crashes and restarts: allocated
   * revisions strictly increase and stay in range, and the next one is never
   * refused because its generation already exists.
   */
  lemma RevisionsNeverReused(w0: World, steps: seq<Step>, compiled: nat, pair: string)
    requires Initial(w0) && Run(w0, steps).Some?
    ensures var w := Run(w0, steps).value;
            && Increasing(w.log.numbers)
            && (forall r <- w.log.numbers :: 0 < r && Version.BASE_CODE + r <= Version.MAX_CODE)
            && (w.sup.Some? && w.sup.value.phase.Idle? ==>
                  var next := Version.NextRevision(w.sup.value.state.counter, compiled);
                  next.Some? ==> next.value !in w.disk.generations && forall r <- w.log.numbers :: r < next.value)
  {
    VersionedRun(w0, steps);
    var w := Run(w0, steps).value;
    if w.sup.Some? && w.sup.value.phase.Idle? {
      NextIsUnused(w, compiled);
    }
  }
}
