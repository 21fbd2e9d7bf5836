/**
 * What the deployment does, not only what it avoids: when a retained worker is retired, that
 * a boot, an update and the exchanges of a client go through, over every run.
 */
module DeploymentProgress {
  import opened Wrappers
  import opened Tokens
  import opened Supervisor
  import opened Deployment
  import opened DeploymentVersions
  import opened DeploymentFleet
  import opened DeploymentSafety
  import opened DeploymentTokens
  import opened DeploymentRetirement
  import opened DeploymentTheorems
  import Gateway
  import Version

  // ------------------------------------------------------------- when the old worker is retired

  /** The statistics file is less than 5 s old and counts nothing for the retained generation. */
  predicate Quiet(w: World)
  {
    && w.sup.Some? && w.sup.value.retired.Some? && w.net.stats.Some?
    && w.now - w.net.stats.value.mtime < 5.0
    && var revision, counts := w.sup.value.retired.value.generation.revision, w.net.stats.value.counts;
       revision in counts ==> counts[revision] == 0
  }

  predicate IsCutover(step: Step) { step.Update? && step.update == Switch(true) }

  /** A look of `maintain` that finds the old generation busy, or cannot tell. */
  predicate IsLoud(w: World, step: Step) { step == Maintain(Tick) && !Quiet(w) }

  /** When the last cutover of the run was; `time` if it has none. */
  ghost function Cutover(w: World, steps: seq<Step>, time: real): real
    requires Run(w, steps).Some?
    decreases |steps|
  {
    if steps == [] then time
    else Cutover(Next(w, steps[0]).value, steps[1..], if IsCutover(steps[0]) then w.now else time)
  }

  /** When the last cutover or loud look of the run was; `time` if it has none. */
  ghost function Loudest(w: World, steps: seq<Step>, time: real): real
    requires Run(w, steps).Some?
    decreases |steps|
  {
    if steps == [] then time
    else
      Loudest(Next(w, steps[0]).value, steps[1..], if IsCutover(steps[0]) || IsLoud(w, steps[0]) then w.now else time)
  }

  /** The supervisor's record of the retained worker is what the run so far says. */
  predicate Recalls(w: World, cutover: real, loudest: real)
  {
    w.sup.Some? && w.sup.value.retired.Some? ==>
      w.sup.value.retired.value.since == cutover && w.sup.value.retired.value.lastBusy == loudest
  }

  lemma RecallsStep(w: World, step: Step, cutover: real, loudest: real)
    requires Recalls(w, cutover, loudest) && Next(w, step).Some?
    ensures Recalls(Next(w, step).value, if IsCutover(step) then w.now else cutover,
                    if IsCutover(step) || IsLoud(w, step) then w.now else loudest)
  {
    hide Routes, IsCounter, Reaches, MayDraw, Selected, Gateway.Bump, Gateway.Drop, Published, RolledBack;
    match step
    case Boot(b) =>
    case Update(u) =>
    case Maintain(m) =>
    case Traffic(t) =>
    case Fault(f) =>
    case Advance(dt) =>
  }

  lemma {:induction false} RecallsRun(w: World, steps: seq<Step>, cutover: real, loudest: real)
    requires Recalls(w, cutover, loudest) && Run(w, steps).Some?
    ensures Recalls(Run(w, steps).value, Cutover(w, steps, cutover), Loudest(w, steps, loudest))
    decreases |steps|
  {
    hide Recalls, Next, IsCutover, IsLoud;
    if steps != [] {
      RecallsStep(w, steps[0], cutover, loudest);
      RecallsRun(Next(w, steps[0]).value, steps[1..], if IsCutover(steps[0]) then w.now else cutover,
                 if IsCutover(steps[0]) || IsLoud(w, steps[0]) then w.now else loudest);
    }
  }

  /** The main loop is about to look at a retained worker, with gateway and active worker running. */
  predicate Looks(w: World)
  {
    && w.sup.Some? && w.sup.value.phase.Idle? && w.net.up && w.sup.value.child in w.live
    && w.sup.value.retired.Some?
  }

  /**
   * Exactly when a look retires the old worker: it is quiet, the last cutover of the run is at
   * least 780 s ago, and the last look that was not quiet at least 600 s. Then the table keeps
   * only the active generation, and the drain that follows ends just the old process;
   * otherwise files and processes are left alone. `time` only fills in for a run without a
   * cutover, which retains nothing.
   */
  lemma RetiresExactly(w0: World, steps: seq<Step>, time: real)
    requires Initial(w0) && Run(w0, steps).Some? && Looks(Run(w0, steps).value)
    ensures var w := Run(w0, steps).value;
            var s, kept := w.sup.value, w.sup.value.retired.value;
            var look := Next(w, Maintain(Tick));
            && look.Some? && look.value.live == w.live && look.value.disk.state == w.disk.state
            && if Quiet(w) && w.now - Cutover(w0, steps, time) >= 780.0
                  && w.now - Loudest(w0, steps, time) >= 600.0 then
                 && look.value.disk.routes.Some?
                 && look.value.disk.routes.value.targets == map[s.active.revision := s.active.port]
                 && kept.generation.revision !in look.value.disk.routes.value.targets
                 && var drained := Next(look.value, Maintain(Drain));
                    && drained.Some? && drained.value.live == w.live - {kept.child}
                    && drained.value.disk == look.value.disk
                    && drained.value.sup == Some(look.value.sup.value.(phase := Idle, retired := None))
               else
                 && look.value.disk == w.disk && look.value.sup.Some? && look.value.sup.value.phase.Idle?
                 && look.value.sup.value.retired.Some? && look.value.sup.value.retired.value.child == kept.child
  {
    hide Run, Sound;
    InitialSound(w0);
    SoundRun(w0, steps);
    RecallsRun(w0, steps, time, time);
    var w := Run(w0, steps).value;
    KeptIsAnother(w);
    var cutover, loudest := Cutover(w0, steps, time), Loudest(w0, steps, time);
    hide Cutover, Loudest;
    LookRetires(w, cutover, loudest);
  }

  lemma KeptIsAnother(w: World)
    requires Sound(w) && w.sup.Some? && w.sup.value.retired.Some?
    ensures w.sup.value.retired.value.generation.revision != w.sup.value.active.revision
  {
    hide Fleet, Routed, Certified, Numbered;
  }

  lemma LookRetires(w: World, cutover: real, loudest: real)
    requires Looks(w) && Recalls(w, cutover, loudest)
    requires w.sup.value.retired.value.generation.revision != w.sup.value.active.revision
    ensures var s, kept := w.sup.value, w.sup.value.retired.value;
            var look := Next(w, Maintain(Tick));
            && look.Some? && look.value.live == w.live && look.value.disk.state == w.disk.state
            && if Quiet(w) && w.now - cutover >= 780.0 && w.now - loudest >= 600.0 then
                 && look.value.disk.routes.Some?
                 && look.value.disk.routes.value.targets == map[s.active.revision := s.active.port]
                 && kept.generation.revision !in look.value.disk.routes.value.targets
                 && var drained := Next(look.value, Maintain(Drain));
                    && drained.Some? && drained.value.live == w.live - {kept.child}
                    && drained.value.disk == look.value.disk
                    && drained.value.sup == Some(look.value.sup.value.(phase := Idle, retired := None))
               else
                 && look.value.disk == w.disk && look.value.sup.Some? && look.value.sup.value.phase.Idle?
                 && look.value.sup.value.retired.Some? && look.value.sup.value.retired.value.child == kept.child
  {
  }

  /** No look of the run after `time` is loud, and neither is there a cutover. */
  ghost predicate QuietSince(w: World, steps: seq<Step>, time: real)
    requires Run(w, steps).Some?
    decreases |steps|
  {
    steps != [] ==>
      && (w.now > time ==> !IsCutover(steps[0]) && !IsLoud(w, steps[0]))
      && QuietSince(Next(w, steps[0]).value, steps[1..], time)
  }

  lemma {:induction false} NothingLouder(w: World, steps: seq<Step>, time: real, from: real)
    requires Run(w, steps).Some? && QuietSince(w, steps, time) && from <= time
    ensures Loudest(w, steps, from) <= time
    decreases |steps|
  {
    hide Next, IsCutover, IsLoud;
    if steps != [] {
      NothingLouder(Next(w, steps[0]).value, steps[1..], time,
                    if IsCutover(steps[0]) || IsLoud(w, steps[0]) then w.now else from);
    }
  }

  /** If every look of the last 600 s was quiet, this one too, and the cutover is 780 s ago, the look retires. */
  lemma QuietLooksRetire(w0: World, steps: seq<Step>)
    requires Initial(w0) && Run(w0, steps).Some? && Looks(Run(w0, steps).value)
    requires var w := Run(w0, steps).value;
             && Quiet(w) && QuietSince(w0, steps, w.now - 600.0)
             && w.now >= Cutover(w0, steps, w.now - 780.0) + 780.0
    ensures var w := Run(w0, steps).value;
            var look := Next(w, Maintain(Tick));
            && look.Some? && look.value.disk.routes.Some?
            && w.sup.value.retired.value.generation.revision !in look.value.disk.routes.value.targets
  {
    hide Run, Cutover, Loudest;
    var now := Run(w0, steps).value.now;
    RetiresExactly(w0, steps, now - 780.0);
    NothingLouder(w0, steps, now - 600.0, now - 780.0);
  }

  // ------------------------------------------------------------- boots and updates go through

  /** The steps of an update that nothing interrupts. */
  function UpdateSteps(compiled: nat, pair: string, port: nat): seq<Step>
  {
    [Update(Stage(compiled, pair)), Update(WriteCounter(true)), Update(Start(port)), Update(Approve),
     Update(Commit(true)), Update(Switch(true))]
  }

  lemma {:induction false} RunStep(w: World, steps: seq<Step>)
    requires steps != [] && Next(w, steps[0]).Some?
    ensures Run(w, steps) == Run(Next(w, steps[0]).value, steps[1..])
  {
  }

  /** Where an update that nothing interrupts ends. */
  function Updated(w: World, revision: nat, pair: string, port: nat): World
    requires w.sup.Some?
  {
    var s, g := w.sup.value, Generation(revision, port, true);
    var state := Saved(revision, Some(g), Some(s.active), Some(pair));
    w.(sup := Some(s.(active := g, child := w.log.processes, state := state, lastTick := w.now, gap := 0.0,
                      retired := Some(Retired(s.active, s.child, w.now, w.now, s.state.pair)))),
       disk := Disk(Some(state), Some(Routes(g, Some(s.active), s.legacy)), w.disk.generations + {revision}),
       live := w.live[w.log.processes := g],
       log := w.log.(numbers := w.log.numbers + [revision], pairs := w.log.pairs[revision := pair],
                     passed := w.log.passed + {revision}, ports := w.log.ports + {port},
                     processes := w.log.processes + 1))
  }

  /**
   * From every reachable idle state without a retained worker, a release pair that is not the
   * current one can be brought to a cutover, under the least revision above the counter and not
   * below the binary's own, as long as that is at most 2099200000.
   */
  lemma UpdatesGoThrough(w0: World, steps: seq<Step>, compiled: nat, pair: string, port: nat)
    requires Initial(w0) && Run(w0, steps).Some?
    requires var w := Run(w0, steps).value;
             && w.sup.Some? && w.sup.value.phase.Idle? && w.sup.value.retired.None?
             && w.sup.value.state.pair != Some(pair) && port != 0 && port !in w.log.ports
             && w.sup.value.state.counter < 2099200000 && compiled <= 2099200000
    ensures var w := Run(w0, steps).value;
            var next := w.sup.value.state.counter + 1;
            Run(w, UpdateSteps(compiled, pair, port))
            == Some(Updated(w, if next >= compiled then next else compiled, pair, port))
  {
    hide Run, Updated, Begun;
    InitialSound(w0);
    VersionedRun(w0, steps);
    var w := Run(w0, steps).value;
    NextIsUnused(w, compiled);
    var revision := Version.NextRevision(w.sup.value.state.counter, compiled).value;
    UpdateBegins(w, compiled, revision, pair, port);
    UpdateEnds(w, compiled, revision, pair, port);
  }

  /** The candidate of that update is running. */
  function Begun(w: World, revision: nat, pair: string, port: nat): World
    requires w.sup.Some?
  {
    var s, g := w.sup.value, Generation(revision, port, true);
    var state := s.state.(counter := revision);
    w.(sup := Some(s.(state := state, phase := Probing(g, w.log.processes, pair))),
       disk := w.disk.(state := Some(state), generations := w.disk.generations + {revision}),
       live := w.live[w.log.processes := g],
       log := w.log.(numbers := w.log.numbers + [revision], pairs := w.log.pairs[revision := pair],
                     ports := w.log.ports + {port}, processes := w.log.processes + 1))
  }

  lemma UpdateBegins(w: World, compiled: nat, revision: nat, pair: string, port: nat)
    requires w.sup.Some? && w.sup.value.phase.Idle? && w.sup.value.retired.None?
    requires w.sup.value.state.pair != Some(pair) && port != 0 && port !in w.log.ports
    requires Version.NextRevision(w.sup.value.state.counter, compiled) == Some(revision)
    requires revision !in w.disk.generations
    ensures Run(w, UpdateSteps(compiled, pair, port)) ==
            Run(Begun(w, revision, pair, port), UpdateSteps(compiled, pair, port)[3..])
  {
    hide Version.NextRevision, Routes, Run, NextBoot, NextMaintain, NextTraffic, NextFault;
    var steps := UpdateSteps(compiled, pair, port);
    var w1 := Next(w, steps[0]).value;
    var w2 := Next(w1, steps[1]).value;
    var w3 := Next(w2, steps[2]).value;
    assert w3 == Begun(w, revision, pair, port);
    hide NextUpdate, Next;
    RunStep(w, steps);
    RunStep(w1, steps[1..]);
    RunStep(w2, steps[2..]);
  }

  lemma UpdateEnds(w: World, compiled: nat, revision: nat, pair: string, port: nat)
    requires w.sup.Some? && w.sup.value.phase.Idle?
    ensures Run(Begun(w, revision, pair, port), UpdateSteps(compiled, pair, port)[3..])
            == Some(Updated(w, revision, pair, port))
  {
    hide Routes, Run, NextBoot, NextMaintain, NextTraffic, NextFault;
    var steps := UpdateSteps(compiled, pair, port)[3..];
    var w3 := Begun(w, revision, pair, port);
    var w4 := Next(w3, steps[0]).value;
    var w5 := Next(w4, steps[1]).value;
    var w6 := Next(w5, steps[2]).value;
    assert w6 == Updated(w, revision, pair, port);
    hide NextUpdate, Next;
    RunStep(w3, steps);
    RunStep(w4, steps[1..]);
    RunStep(w5, steps[2..]);
    NoSteps(w6, steps[3..]);
  }

  lemma NoSteps(w: World, steps: seq<Step>)
    requires steps == []
    ensures Run(w, steps) == Some(w)
  {
  }

  // ------------------------------------------------------------- boots

  function BootSteps(port: nat, blue: bool, reported: nat, counter: nat): seq<Step>
  {
    [Boot(Begin(port, blue)), Boot(Respond(reported, counter)), Boot(Record), Boot(Publish)]
  }

  /** The generation `state.json` names, or the operator's own. */
  function Found(w: World, blue: bool): Generation
  {
    if w.disk.state.Some? && w.disk.state.value.active.Some? then w.disk.state.value.active.value
    else Generation(0, 0, blue)
  }

  /** The largest of the saved counter, the reported revision and the generation files. */
  predicate IsLargest(w: World, reported: nat, counter: nat)
  {
    var saved := if w.disk.state.Some? then w.disk.state.value.counter else 0;
    && saved <= counter && reported <= counter && (forall r <- w.disk.generations :: r <= counter)
    && (counter == saved || counter == reported || counter in w.disk.generations)
  }

  /** The supervisor runs generation g alone, as found in `w`, and both files say so. */
  ghost predicate Serves(w: World, w': World, g: Generation, counter: nat)
  {
    && w'.sup.Some? && w'.net.up && w'.disk.routes.Some?
    && var s := w'.sup.value;
       && s.phase.Idle? && s.active == g && s.retired.None? && w'.live == map[s.child := g]
       && s.state.counter == counter && s.state.active == Some(g) && w'.disk.state == Some(s.state)
       && (w.disk.state.Some? ==> s.state.pair == w.disk.state.value.pair)
       && s.legacy == (if g.blue then None else Some(g.revision))
       && w'.disk.routes.value == Gateway.RouteTable(g.revision, map[g.revision := g.port], s.legacy)
  }

  /**
   * Whatever a run left when its supervisor went, one that starts brings the generation the
   * state file names back on a new port, with the counter at the largest number seen anywhere,
   * provided the worker answers with that generation's number.
   */
  lemma BootsGoThrough(w0: World, steps: seq<Step>, port: nat, blue: bool, reported: nat, counter: nat)
    requires Initial(w0) && Run(w0, steps).Some?
    requires var w := Run(w0, steps).value;
             && w.sup.None? && port != 0 && port !in w.log.ports && IsLargest(w, reported, counter)
             && 0 < reported <= 2099200000 && (Found(w, blue).revision != 0 ==> reported == Found(w, blue).revision)
    ensures var w := Run(w0, steps).value;
            var end := Run(w, BootSteps(port, blue, reported, counter));
            end.Some? && Serves(w, end.value, Found(w, blue).(port := port), counter)
  {
    hide Run, Serves, IsLargest;
    InitialSound(w0);
    SoundRun(w0, steps);
    var w := Run(w0, steps).value;
    NothingRuns(w);
    BootRuns(w, port, blue, reported, counter);
  }

  lemma NothingRuns(w: World)
    requires Sound(w) && w.sup.None?
    ensures w.live == map[]
  {
    hide Versioned, Routed, Certified;
  }

  lemma BootRuns(w: World, port: nat, blue: bool, reported: nat, counter: nat)
    requires w.sup.None? && w.live == map[] && port != 0 && port !in w.log.ports && IsLargest(w, reported, counter)
    requires 0 < reported <= 2099200000 && (Found(w, blue).revision != 0 ==> reported == Found(w, blue).revision)
    ensures var end := Run(w, BootSteps(port, blue, reported, counter));
            end.Some? && Serves(w, end.value, Found(w, blue).(port := port), counter)
  {
    hide Run, NextUpdate, NextMaintain, NextTraffic, NextFault;
    var steps := BootSteps(port, blue, reported, counter);
    var w1 := Next(w, steps[0]).value;
    var w2 := Next(w1, steps[1]).value;
    var w3 := Next(w2, steps[2]).value;
    var w4 := Next(w3, steps[3]).value;
    assert w4.sup.value.active == Found(w, blue).(port := port);
    hide NextBoot, Next;
    RunStep(w, steps);
    RunStep(w1, steps[1..]);
    RunStep(w2, steps[2..]);
    RunStep(w3, steps[3..]);
    NoSteps(w4, steps[4..]);
  }

  // ------------------------------------------------------------- exchanges

  lemma ActiveIsReached(w: World, path: string, body: Gateway.ProofBody)
    requires Sound(w) && w.net.up && w.sup.Some? && w.sup.value.phase.Idle? && w.sup.value.child in w.live
    requires Gateway.IsFixed(path) && path != "/api/v1/prebuilt/prove"
    requires path == "/api/v1/patch" ==> w.sup.value.legacy != Some(w.sup.value.active.revision)
    ensures Reaches(w, path, body, w.sup.value.child)
  {
    hide Numbered, Certified, Gateway.Select;
    Gateway.FixedPathsExactly(w.disk.routes.value, path, body);
  }

  /**
   * In every reachable idle state, a challenge asked for is issued by the active worker for 180
   * whole seconds, and an upload is taken by it unless it is the legacy worker.
   */
  lemma NewWorkIsTaken(w0: World, steps: seq<Step>, raw: string, id: nat)
    requires Initial(w0) && Run(w0, steps).Some?
    requires var w := Run(w0, steps).value;
             && w.net.up && w.sup.Some? && w.sup.value.phase.Idle? && w.sup.value.child in w.live
             && MayDraw(w, raw) && id !in w.net.flights
    ensures var w := Run(w0, steps).value;
            var s := w.sup.value;
            var asked, key := Next(w, Traffic(Ask(s.child, raw))), TagToken(Tag(s.active), raw);
            && asked.Some? && key in asked.value.book.challenges
            && asked.value.book.challenges[key] == Issue(s.active, s.child, raw, w.now, w.now.Floor + 180, false)
            && (s.legacy != Some(s.active.revision) ==>
                  var taken := Next(w, Traffic(StartUpload(s.child, id)));
                  && taken.Some? && id in taken.value.net.uploads && taken.value.net.uploads[id] == s.child
                  && id in taken.value.net.flights && taken.value.net.flights[id] == s.active.revision)
  {
    hide Run, Sound, MayDraw, TagToken, Gateway.Bump, Reaches;
    InitialSound(w0);
    SoundRun(w0, steps);
    var w := Run(w0, steps).value;
    ActiveIsReached(w, "/api/v1/prebuilt/challenge", Gateway.Malformed);
    LiveActive(w);
    if w.sup.value.legacy != Some(w.sup.value.active.revision) {
      ActiveIsReached(w, "/api/v1/patch", Gateway.Malformed);
      UploadsAreCounted(w);
    }
  }

  lemma LiveActive(w: World)
    requires Sound(w) && w.sup.Some? && w.sup.value.child in w.live
    ensures w.live[w.sup.value.child] == w.sup.value.active
  {
    hide Versioned, Routed, Certified;
  }

  lemma UploadsAreCounted(w: World)
    requires Sound(w) && w.net.up && w.sup.Some? && w.sup.value.phase.Idle?
    requires w.sup.value.legacy != Some(w.sup.value.active.revision)
    ensures Selected(w, "/api/v1/patch", Gateway.Malformed) == w.sup.value.active.revision
  {
    hide Numbered, Certified, Gateway.Select;
    Gateway.FixedPathsExactly(w.disk.routes.value, "/api/v1/patch", Gateway.Malformed);
  }

  /**
   * In every reachable state, a challenge in time whose issuer lives can be proved to it, which
   * grants a download for 600 whole seconds under a new key; and a grant in time whose issuer
   * lives can be downloaded from it.
   */
  lemma TokensAreHonoured(w0: World, steps: seq<Step>, request: Gateway.Continuation, raw: string, id: nat)
    requires Initial(w0) && Run(w0, steps).Some?
    requires var w := Run(w0, steps).value;
             && w.net.up && IssueOf(w, request).Some? && InTime(w, request, IssueOf(w, request).value)
             && MayDraw(w, raw) && id !in w.net.flights
    requires var w := Run(w0, steps).value; IssueOf(w, request).value.process in w.live
    ensures var w := Run(w0, steps).value;
            var issue := IssueOf(w, request).value;
            if request.ProveWith? then
              var paid, key := Next(w, Traffic(Prove(issue.process, request.nonce, raw))),
                               TagToken(Tag(w.live[issue.process]), raw);
              && paid.Some? && key !in w.book.grants && key in paid.value.book.grants
              && paid.value.book.grants[key]
                 == Issue(w.live[issue.process], issue.process, raw, w.now, w.now.Floor + 600, true)
            else
              var started := Next(w, Traffic(StartDownload(issue.process, request.token, id)));
              started.Some? && id in started.value.net.flights
  {
    hide Run, MayDraw, TagToken, Gateway.Bump, Reaches, InTime;
    UnexpiredTokensReachTheirIssuer(w0, steps, request);
    var w := Run(w0, steps).value;
    var issue := IssueOf(w, request).value;
    if request.ProveWith? {
      FreshGrantIsNew(w0, steps, issue.process, raw);
      assert w.now.Floor <= issue.expires by {
        assert InTime(w, request, issue);
        InTimeProof(w, request, issue);
      }
      assert request.Path() == Gateway.PROVE && request.Body() == Gateway.Proof(Some(request.nonce));
    } else {
      assert request.Path() == Gateway.DOWNLOAD + request.token;
    }
  }

  lemma InTimeProof(w: World, request: Gateway.Continuation, issue: Issue)
    requires request.ProveWith? && InTime(w, request, issue)
    ensures w.now.Floor <= issue.expires
  {
  }

  lemma FreshGrantIsNew(w0: World, steps: seq<Step>, process: nat, raw: string)
    requires Initial(w0) && Run(w0, steps).Some?
    requires process in Run(w0, steps).value.live && MayDraw(Run(w0, steps).value, raw)
    ensures var w := Run(w0, steps).value; TagToken(Tag(w.live[process]), raw) !in w.book.grants
  {
    hide Run, TagToken, MayDraw;
    FreshKeysAreNew(w0, steps, process, raw);
  }

  /**
   * In every reachable state, an upload in flight to a living worker can finish, which grants
   * a download for 600 whole seconds under a new key, and a request in flight can end, which
   * takes one off its generation's counter.
   */
  lemma FlightsEnd(w0: World, steps: seq<Step>, id: nat, raw: string)
    requires Initial(w0) && Run(w0, steps).Some?
    requires var w := Run(w0, steps).value; id in w.net.flights && MayDraw(w, raw)
    ensures var w := Run(w0, steps).value;
            var revision, ended := w.net.flights[id], Next(w, Traffic(End(id)));
            && revision in w.net.counts && w.net.counts[revision] > 0 && ended.Some?
            && ended.value.net.counts == w.net.counts[revision := w.net.counts[revision] - 1]
            && ended.value.net.flights == w.net.flights - {id} && ended.value.net.uploads == w.net.uploads - {id}
    ensures var w := Run(w0, steps).value;
            id in w.net.uploads && w.net.uploads[id] in w.live ==>
              var process := w.net.uploads[id];
              var finished, key := Next(w, Traffic(FinishUpload(id, raw))), TagToken(Tag(w.live[process]), raw);
              && finished.Some? && key !in w.book.grants && key in finished.value.book.grants
              && finished.value.book.grants[key]
                 == Issue(w.live[process], process, raw, w.now, w.now.Floor + 600, false)
  {
    hide Run, MayDraw, TagToken, Sound, Issuance, Clocked, Windowed, Witnessed, Quieted, Gateway.Counted;
    SteadyRun(w0, steps);
    var w := Run(w0, steps).value;
    FlightIsCounted(w, id);
    if id in w.net.uploads && w.net.uploads[id] in w.live {
      FreshGrantIsNew(w0, steps, w.net.uploads[id], raw);
    }
  }

  lemma FlightIsCounted(w: World, id: nat)
    requires Sampled(w) && id in w.net.flights
    ensures w.net.flights[id] in w.net.counts && w.net.counts[w.net.flights[id]] > 0
  {
    Gateway.DropCounts(w.net.counts, w.net.flights, id);
  }

  /** While the gateway runs, its counters can be read and posted: the statistics file then holds just them. */
  lemma CountersArePosted(w: World)
    requires w.net.up
    ensures Run(w, [Traffic(Take), Traffic(Post)]).Some?
    ensures var posted := Run(w, [Traffic(Take), Traffic(Post)]).value;
            posted.net.stats == Some(Stats(w.net.counts, w.now)) && posted.net.takenAt == w.now
            && posted.net.counts == w.net.counts
  {
    hide Run, NextBoot, NextUpdate, NextMaintain, NextFault;
    var steps := [Traffic(Take), Traffic(Post)];
    var w1 := Next(w, steps[0]).value;
    var w2 := Next(w1, steps[1]).value;
    hide Next, NextTraffic;
    RunStep(w, steps);
    RunStep(w1, steps[1..]);
    NoSteps(w2, steps[2..]);
  }

  /** A dead active worker can be started again, under its own generation, by a new process. */
  lemma DeadWorkerIsRestarted(w: World)
    requires w.sup.Some? && w.sup.value.phase.Idle? && w.sup.value.child !in w.live
    ensures var restarted := Next(w, Maintain(Restart));
            && restarted.Some? && restarted.value.sup == Some(w.sup.value.(child := w.log.processes))
            && restarted.value.live == w.live[w.log.processes := w.sup.value.active]
            && restarted.value.disk == w.disk && restarted.value.net == w.net && restarted.value.book == w.book
  {
    hide NextBoot, NextUpdate, NextTraffic, NextFault;
  }
}
