/**
 * The methods of BlueGreen against the state machine: whatever `activate` and `maintain` do,
 * some sequence of machine steps does, from any state the objects represent. The theorems
 * about runs are therefore about the methods.
 */
module DeploymentSimulation {
  import opened Wrappers
  import opened Supervisor
  import opened Deployment
  import Gateway

  function AsDocument<T>(value: Option<T>): Document<T>
  {
    match value
    case None => Absent
    case Some(v) => Whole(v)
  }

  function FilesOf(w: World): Durable { Durable(AsDocument(w.disk.state), AsDocument(w.disk.routes)) }

  /** The objects hold what the machine's supervisor, files and processes hold. */
  ghost predicate Represents(w: World, b: BlueGreen, state: Dictionary, active: Generation, child: nat)
    reads b, b.routes, b.statePath, state
  {
    && w.sup.Some?
    && w.sup.value.active == active && w.sup.value.child == child
    && w.sup.value.state == state.value && w.sup.value.legacy == b.legacy && w.sup.value.retired == b.retired
    && FilesOf(w) == b.OnDisk() && w.live.Keys == b.live
  }

  /** The machine reaches `w'` from `w` by these steps. */
  ghost predicate Takes(w: World, steps: seq<Step>, w': World)
  {
    Run(w, steps) == Some(w')
  }

  lemma Extend(w: World, steps: seq<Step>, w': World, step: Step) returns (longer: seq<Step>, w'': World)
    requires Takes(w, steps, w') && Next(w', step).Some?
    ensures longer == steps + [step] && Next(w', step) == Some(w'') && Takes(w, longer, w'')
  {
    longer, w'' := steps + [step], Next(w', step).value;
    OneMoreStep(w, steps, step);
  }

  // ------------------------------------------------------------- activate

  /** The surroundings of an attempt, as the machine at `w` would meet them. */
  predicate Fits(w: World, env: Attempt)
  {
    && (env.port.Some? ==> env.port.value != 0 && env.port.value !in w.log.ports)
    && (env.process.Some? ==> env.process.value == w.log.processes && env.process.value !in w.live)
    && w.now <= env.now
  }

  /** The candidate is started and asked whether it is ready. */
  predicate Starts(env: Attempt) { env.supported && env.port.Some? && env.process.Some? }

  /** What a call of `activate` adds to the revisions that passed readiness. */
  function NewlyPassed(env: Attempt, candidate: Generation): set<nat>
  {
    if Starts(env) && env.ready then {candidate.revision} else {}
  }

  /** The candidate is started, and approved if it is ready. */
  lemma Started(w: World, env: Attempt, candidate: Generation, pair: string) returns (steps: seq<Step>, w': World)
    requires w.sup.Some? && w.sup.value.phase == Reserved(candidate.revision, pair) && candidate.blue
    requires Fits(w, env) && Starts(env)
    ensures Takes(w, steps, w') && |steps| == if env.ready then 2 else 1
    ensures var placed, process := candidate.(port := env.port.value), env.process.value;
            && w'.sup == Some(w.sup.value.(phase := if env.ready then Phase.Ready(placed, process, pair)
                                                    else Probing(placed, process, pair)))
            && w'.disk == w.disk && w'.live == w.live[process := placed] && w'.now == w.now
    ensures w'.log.passed == w.log.passed + NewlyPassed(env, candidate)
  {
    hide Run;
    steps, w' := [], w;
    Still(w);
    steps, w' := Extend(w, steps, w', Update(Start(env.port.value)));
    if env.ready {
      steps, w' := Extend(w, steps, w', Update(Approve));
    }
  }

  lemma Still(w: World)
    ensures Takes(w, [], w)
  {
  }

  /** What one call of `activate` does, as steps of the machine; `committed` is where the state file was written. */
  lemma AttemptSteps(w: World, env: Attempt, candidate: Generation, pair: string)
    returns (steps: seq<Step>, w': World, committed: World)
    requires w.sup.Some? && w.sup.value.phase == Reserved(candidate.revision, pair)
    requires candidate.blue == env.supported && Fits(w, env) && w.disk.state == Some(w.sup.value.state)
    ensures Takes(w, steps, w') && w'.sup.Some? && w'.sup.value.phase.Idle?
    ensures var s, s' := w.sup.value, w'.sup.value;
            s'.legacy == s.legacy &&
            if env.Succeeds() then
              var placed := candidate.(port := env.port.value);
              && s'.active == placed && s'.child == env.process.value
              && s'.state == Published(s.state, s.active, placed, pair)
              && s'.retired == Some(Retired(s.active, s.child, env.now, env.now, s.state.pair))
              && w'.disk == w.disk.(state := Some(s'.state), routes := Some(Routes(placed, Some(s.active), s.legacy)))
              && w'.live.Keys == w.live.Keys + {env.process.value}
            else
              && s'.active == s.active && s'.child == s.child && s'.state == s.state && s'.retired == s.retired
              && w'.disk == w.disk && w'.live.Keys == w.live.Keys
    ensures w'.log.passed == w.log.passed + NewlyPassed(env, candidate)
    ensures env.Healthy() && env.stateWrite.Nowhere? ==>
              && |steps| > 3 && Takes(w, steps[..3], committed)
              && committed.disk == w.disk.(state := Some(Published(w.sup.value.state, w.sup.value.active,
                                                                  candidate.(port := env.port.value), pair)))
  {
    hide Run, Routes, Takes, NextBoot, NextMaintain, NextTraffic, NextFault;
    steps, w', committed := [], w, w;
    Still(w);
    if !Starts(env) {
      steps, w' := Extend(w, steps, w', Update(Decline));
    } else {
      steps, w' := Started(w, env, candidate, pair);
      if !env.Healthy() {
        steps, w' := Extend(w, steps, w', Update(Reject));
      } else {
        steps, w' := Extend(w, steps, w', Update(Commit(env.stateWrite.Nowhere?)));
        committed := w';
        ghost var first := steps;
        if env.stateWrite.Nowhere? {
          if env.routeWrite.Nowhere? {
            steps, w' := Extend(w, steps, w', Advance(env.now - w.now));
          }
          steps, w' := Extend(w, steps, w', Update(Switch(env.routeWrite.Nowhere?)));
          assert steps[..3] == first;
        }
      }
    }
  }

  /**
   * `activate` is a sequence of machine steps; the files after its state write and at its end
   * are those of the machine after the commit and at its end. The machine records the
   * candidate as having passed readiness exactly when it was found ready.
   */
  method ActivateFollowsMachine(
    b: BlueGreen, state: Dictionary, active: Generation, child: nat, candidate: Generation, pair: string, env: Attempt,
    ghost w: World)
    returns (nowActive: Generation, nowChild: nat, ghost steps: seq<Step>, ghost w': World,
             ghost trace: seq<Durable>, ghost committed: World)
    requires b.routes as object != b.statePath as object
    requires Represents(w, b, state, active, child) && w.sup.value.phase == Reserved(candidate.revision, pair)
    requires candidate.blue == env.supported && Fits(w, env) && w.disk.state == Some(state.value)
    modifies b`retired, b`live, b.routes, b.statePath, state
    ensures Takes(w, steps, w') && Represents(w', b, state, nowActive, nowChild) && w'.sup.value.phase.Idle?
    ensures w'.log.passed == w.log.passed + NewlyPassed(env, candidate)
    ensures trace != [] ==>
              && |steps| > 3 && Takes(w, steps[..3], committed)
              && trace == [FilesOf(committed), FilesOf(w')]
  {
    nowActive, nowChild, trace := b.Activate(candidate, active, child, state, pair, env);
    steps, w', committed := AttemptSteps(w, env, candidate, pair);
    hide Run, Routes, Takes, Attempt.Healthy;
  }

  // ------------------------------------------------------------- maintain

  /** One call of `maintain` that returns, as steps of the machine. */
  lemma LookSteps(w: World, now: real) returns (steps: seq<Step>, w': World)
    requires w.sup.Some? && w.sup.value.phase.Idle? && w.net.up && w.now <= now
    requires w.sup.value.child in w.live
             || (w.sup.value.retired.Some? && w.sup.value.retired.value.child in w.live)
    ensures Takes(w, steps, w') && w'.sup.Some? && w'.sup.value.phase.Idle? && w'.now == now
    ensures w'.log == w.log && w'.book == w.book && w'.net == w.net
    ensures var s, s' := w.sup.value, w'.sup.value;
            && s'.legacy == s.legacy
            && if s.child !in w.live then
                 var kept := s.retired.value;
                 && s'.active == kept.generation && s'.child == kept.child && s'.retired == None
                 && s'.state == RolledBack(s.state, kept) && w'.live == w.live
                 && w'.disk == w.disk.(state := Some(s'.state), routes := Some(Routes(kept.generation, None, s.legacy)))
               else if s.retired.None? then
                 s'.active == s.active && s'.child == s.child && s'.state == s.state && s'.retired == None
                 && w'.disk == w.disk && w'.live == w.live
               else
                 var seen := Observed(s.retired.value, w.net.stats, now);
                 && s'.active == s.active && s'.child == s.child && s'.state == s.state
                 && if MayRetire(seen, w.net.stats, now) then
                      && s'.retired == None && w'.live == w.live - {seen.child}
                      && w'.disk == w.disk.(routes := Some(Routes(s.active, None, s.legacy)))
                    else s'.retired == Some(seen) && w'.disk == w.disk && w'.live == w.live
  {
    hide Run, Routes, MayRetire, IsFresh, IsBusy;
    steps, w' := [], w;
    Still(w);
    steps, w' := Extend(w, steps, w', Advance(now - w.now));
    if w.sup.value.child in w.live {
      steps, w' := Extend(w, steps, w', Maintain(Tick));
      if w'.sup.value.phase.Retiring? {
        steps, w' := Extend(w, steps, w', Maintain(Drain));
      }
    } else {
      steps, w' := Extend(w, steps, w', Maintain(RollBack));
      steps, w' := Extend(w, steps, w', Maintain(RecordRollBack));
    }
  }

  /** The write of the route table before the one of the state file fails: where the call raises in a rollback. */
  lemma HalfRollBack(w: World) returns (steps: seq<Step>, w': World)
    requires w.sup.Some? && w.sup.value.phase.Idle? && w.net.up && w.sup.value.child !in w.live
    requires w.sup.value.retired.Some? && w.sup.value.retired.value.child in w.live
    ensures Takes(w, steps, w') && w'.log == w.log && w'.book == w.book && w'.net == w.net
    ensures w'.disk == w.disk.(routes := Some(Routes(w.sup.value.retired.value.generation, None, w.sup.value.legacy)))
  {
    hide Run, Routes;
    steps, w' := [], w;
    Still(w);
    steps, w' := Extend(w, steps, w', Maintain(RollBack));
  }

  /**
   * `maintain` is a sequence of machine steps. Where it raises, and `main` shuts everything
   * down, the files are those of a state the machine can crash in. Tokens, traffic and the
   * record of revisions are untouched.
   */
  method MaintainFollowsMachine(
    b: BlueGreen, state: Dictionary, active: Generation, child: nat, now: real, routeWrite: Fault, stateWrite: Fault,
    stats: Option<Stats>, gatewayUp: bool, ghost w: World)
    returns (r: Result<(Generation, nat), MaintainError>, ghost steps: seq<Step>, ghost w': World)
    requires b.routes as object != b.statePath as object
    requires Represents(w, b, state, active, child) && w.sup.value.phase.Idle? && w.now <= now
    requires gatewayUp == w.net.up && stats == w.net.stats
    modifies b`retired, b`live, b.routes, b.statePath, state
    ensures Takes(w, steps, w') && FilesOf(w') == b.OnDisk()
    ensures w'.log == w.log && w'.book == w.book && w'.net == w.net
    ensures r.Ok? ==> Represents(w', b, state, r.value.0, r.value.1) && w'.sup.value.phase.Idle? && w'.now == now
  {
    r := b.Maintain(active, child, state, gatewayUp, stats, now, routeWrite, stateWrite);
    steps, w' := [], w;
    Still(w);
    hide Run, Routes, Takes, MayRetire, Observed;
    if r.Ok? {
      steps, w' := LookSteps(w, now);
    } else if gatewayUp && child !in w.live && w.sup.value.retired.Some? && w.sup.value.retired.value.child in w.live {
      if routeWrite.Nowhere? {
        steps, w' := HalfRollBack(w);
      }
    }
  }
}
