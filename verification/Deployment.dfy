/**
 * The whole deployment as a state machine: the supervisor's main loop, the two
 * durable files, the worker processes, the gateway's traffic and counters, and
 * the tokens handed out so far. One step is one durable write, one process
 * event, one look of `maintain`, one request event, or the passing of time.
 */
module Deployment {
  import opened Wrappers
  import opened Tokens
  import opened Supervisor
  import Gateway
  import Version

  datatype Phase =
    | Booting                                                       // initial worker started
    | Checked                                                       // it is ready; counter raised
    | Recorded                                                      // state.json written
    | Idle                                                          // main loop, gateway up
    | Staged(revision: nat, pair: string)                           // generation file written
    | Reserved(revision: nat, pair: string)                         // counter in state.json
    | Probing(candidate: Generation, process: nat, pair: string)    // candidate started
    | Ready(candidate: Generation, process: nat, pair: string)      // ready and settled
    | Committed(candidate: Generation, process: nat, pair: string)  // state.json names the candidate
    | Retiring                                                      // table dropped the old worker; draining
    | RollingBack                                                   // table names the old worker again

  /** The supervisor process. `lastTick` and `gap` record when `maintain` last looked and its longest pause. */
  datatype Sup = Sup(
    active: Generation, child: nat, state: Saved, legacy: Option<nat>, retired: Option<Retired>,
    phase: Phase, lastTick: real, gap: real)

  datatype Disk = Disk(state: Option<Saved>, routes: Option<Gateway.RouteTable>, generations: set<nat>)

  datatype Snap = Snap(counts: map<nat, nat>, takenAt: real)

  /**
   * The gateway: its counters, the requests in flight (by counted revision), the
   * uploads among them (by worker process), and the statistics task. `lag` is the
   * longest time between reading the counters and the file's mtime.
   */
  datatype Net = Net(
    up: bool, counts: map<nat, nat>, flights: map<nat, nat>, uploads: map<nat, nat>,
    pending: Option<Snap>, stats: Option<Stats>, takenAt: real, lag: real)

  /** A token's issue: by which generation and process, over which random value, when, until when. */
  datatype Issue = Issue(generation: Generation, process: nat, raw: string, at: real, expires: int, proof: bool)

  /** Every challenge and every grant ever issued, and every random value drawn. */
  datatype Book = Book(challenges: map<string, Issue>, grants: map<string, Issue>, drawn: set<string>)

  /**
   * What has happened: allocated revisions in order, revisions that passed readiness, release
   * pairs, ports and processes used. `origin` is the revision of the deployment found at the
   * first start, 0 if there was none.
   */
  datatype Log = Log(
    numbers: seq<nat>, passed: set<nat>, pairs: map<nat, string>, ports: set<nat>, processes: nat, origin: nat)

  datatype World = World(
    now: real, sup: Option<Sup>, disk: Disk, live: map<nat, Generation>, net: Net, book: Book, log: Log)

  const QUIET_NET := Net(false, map[], map[], map[], None, None, 0.0, 0.0)

  /** A first start on an empty disk. */
  function Init(now: real): World
  {
    World(now, None, Disk(None, None, {}), map[], QUIET_NET, Book(map[], map[], {}), Log([], {}, map[], {}, 0, 0))
  }

  function Tag(g: Generation): Option<nat> { if g.blue then Some(g.revision) else None }

  function Max(a: real, b: real): real { if a >= b then a else b }

  // ------------------------------------------------------------- boot

  datatype BootStep =
    | Begin(port: nat, blue: bool)
    | Respond(reported: nat, counter: nat)
    | Record
    | Publish

  /** `counter` is the maximum of the saved counter, the reported revision and every generation file. */
  predicate IsCounter(counter: nat, saved: nat, reported: nat, generations: set<nat>)
  {
    && (counter == saved || counter == reported || counter in generations)
    && counter >= saved && counter >= reported && forall r <- generations :: counter >= r
  }

  function NextBoot(w: World, step: BootStep): Option<World>
  {
    match step
    case Begin(port, blue) =>
      if w.sup.Some? || port == 0 || port in w.log.ports then None
      else
        var saved := if w.disk.state.Some? then w.disk.state.value else Saved(0, None, None, None);
        var base := if saved.active.Some? then saved.active.value else Generation(0, 0, blue);
        var g := base.(port := port);
        var legacy := if g.blue then None else Some(g.revision);
        Some(w.(sup := Some(Sup(g, w.log.processes, saved, legacy, None, Booting, w.now, 0.0)),
                live := w.live[w.log.processes := g],
                log := w.log.(ports := w.log.ports + {port}, processes := w.log.processes + 1)))
    case Respond(reported, counter) =>
      if w.sup.None? || !w.sup.value.phase.Booting? then None
      else
        var s := w.sup.value;
        if s.child !in w.live || !(0 < reported <= Version.MAX_REVISION)
           || (s.active.revision != 0 && reported != s.active.revision)
           || !IsCounter(counter, s.state.counter, reported, w.disk.generations) then None
        else
          Some(w.(sup := Some(s.(state := s.state.(counter := counter, active := Some(s.active)), phase := Checked)),
                  log := w.log.(passed := w.log.passed + {s.active.revision})))
    case Record =>
      if w.sup.None? || !w.sup.value.phase.Checked? then None
      else
        var s := w.sup.value;
        Some(w.(sup := Some(s.(phase := Recorded)), disk := w.disk.(state := Some(s.state))))
    case Publish =>
      if w.sup.None? || !w.sup.value.phase.Recorded? then None
      else
        var s := w.sup.value;
        Some(w.(sup := Some(s.(phase := Idle)),
                disk := w.disk.(routes := Some(Routes(s.active, None, s.legacy))),
                net := w.net.(up := true)))
  }

  // ------------------------------------------------------------- update

  datatype UpdateStep =
    | Stage(compiled: nat, pair: string)
    | WriteCounter(ok: bool)
    | Decline
    | Start(port: nat)
    | Reject
    | Approve
    | Commit(ok: bool)
    | Switch(ok: bool)

  function NextUpdate(w: World, step: UpdateStep): Option<World>
  {
    if w.sup.None? then None
    else
      var s := w.sup.value;
      match step
      case Stage(compiled, pair) =>
        if !s.phase.Idle? || s.retired.Some? || s.state.pair == Some(pair) then None
        else
          var next := Version.NextRevision(s.state.counter, compiled);
          // Refused: exhausted, or "generation already exists".
          if next.None? || next.value in w.disk.generations then Some(w)
          else
            var r := next.value;
            Some(w.(sup := Some(s.(state := s.state.(counter := r), phase := Staged(r, pair))),
                    disk := w.disk.(generations := w.disk.generations + {r}),
                    log := w.log.(numbers := w.log.numbers + [r], pairs := w.log.pairs[r := pair])))
      case WriteCounter(ok) =>
        if !s.phase.Staged? then None
        else if ok then
          Some(w.(sup := Some(s.(phase := Reserved(s.phase.revision, s.phase.pair))),
                  disk := w.disk.(state := Some(s.state))))
        else Some(w.(sup := Some(s.(phase := Idle))))
      case Decline =>
        if !s.phase.Reserved? then None else Some(w.(sup := Some(s.(phase := Idle))))
      case Start(port) =>
        if !s.phase.Reserved? || port == 0 || port in w.log.ports then None
        else
          var g := Generation(s.phase.revision, port, true);
          Some(w.(sup := Some(s.(phase := Probing(g, w.log.processes, s.phase.pair))),
                  live := w.live[w.log.processes := g],
                  log := w.log.(ports := w.log.ports + {port}, processes := w.log.processes + 1)))
      case Reject =>
        if !s.phase.Probing? && !s.phase.Ready? then None
        else Some(w.(sup := Some(s.(phase := Idle)), live := w.live - {s.phase.process}))
      case Approve =>
        if !s.phase.Probing? || s.phase.process !in w.live then None
        else
          Some(w.(sup := Some(s.(phase := Ready(s.phase.candidate, s.phase.process, s.phase.pair))),
                  log := w.log.(passed := w.log.passed + {s.phase.candidate.revision})))
      case Commit(ok) =>
        if !s.phase.Ready? then None
        else if ok then
          Some(w.(sup := Some(s.(phase := Committed(s.phase.candidate, s.phase.process, s.phase.pair))),
                  disk := w.disk.(state := Some(Published(s.state, s.active, s.phase.candidate, s.phase.pair)))))
        else Some(w.(sup := Some(s.(phase := Idle)), live := w.live - {s.phase.process}))
      case Switch(ok) =>
        if !s.phase.Committed? then None
        else if ok then
          var g := s.phase.candidate;
          Some(w.(sup := Some(s.(active := g, child := s.phase.process,
                                 state := Published(s.state, s.active, g, s.phase.pair),
                                 retired := Some(Retired(s.active, s.child, w.now, w.now, s.state.pair)),
                                 phase := Idle, lastTick := w.now, gap := 0.0)),
                  disk := w.disk.(routes := Some(Routes(g, Some(s.active), s.legacy)))))
        else
          Some(w.(sup := Some(s.(phase := Idle)), disk := w.disk.(state := Some(s.state)),
                  live := w.live - {s.phase.process}))
  }

  // ------------------------------------------------------------- maintain

  datatype MaintainStep = Tick | Drain | RollBack | RecordRollBack | Restart

  function NextMaintain(w: World, step: MaintainStep): Option<World>
  {
    if w.sup.None? then None
    else
      var s := w.sup.value;
      match step
      case Tick =>
        if !s.phase.Idle? || !w.net.up || s.child !in w.live then None
        else if s.retired.None? then Some(w)
        else
          var seen := Observed(s.retired.value, w.net.stats, w.now);
          var s' := s.(retired := Some(seen), lastTick := w.now, gap := Max(s.gap, w.now - s.lastTick));
          if MayRetire(seen, w.net.stats, w.now) then
            Some(w.(sup := Some(s'.(phase := Retiring)),
                    disk := w.disk.(routes := Some(Routes(s.active, None, s.legacy)))))
          else Some(w.(sup := Some(s')))
      case Drain =>
        if !s.phase.Retiring? || s.retired.None? then None
        else Some(w.(sup := Some(s.(retired := None, phase := Idle)), live := w.live - {s.retired.value.child}))
      case RollBack =>
        if !s.phase.Idle? || !w.net.up || s.child in w.live || s.retired.None?
           || s.retired.value.child !in w.live then None
        else
          Some(w.(sup := Some(s.(phase := RollingBack)),
                  disk := w.disk.(routes := Some(Routes(s.retired.value.generation, None, s.legacy)))))
      case RecordRollBack =>
        if !s.phase.RollingBack? || s.retired.None? then None
        else
          var state := RolledBack(s.state, s.retired.value);
          Some(w.(sup := Some(s.(active := s.retired.value.generation, child := s.retired.value.child, state := state,
                                 retired := None, phase := Idle)),
                  disk := w.disk.(state := Some(state))))
      case Restart =>
        if !s.phase.Idle? || s.child in w.live then None
        else
          Some(w.(sup := Some(s.(child := w.log.processes)), live := w.live[w.log.processes := s.active],
                  log := w.log.(processes := w.log.processes + 1)))
  }

  // ------------------------------------------------------------- traffic

  datatype TrafficStep =
    | Ask(process: nat, raw: string)
    | Prove(process: nat, key: string, raw: string)
    | StartUpload(process: nat, id: nat)
    | FinishUpload(id: nat, raw: string)
    | StartDownload(process: nat, token: string, id: nat)
    | End(id: nat)
    | Take
    | Post

  /** The gateway forwards this request to `process`. */
  predicate Reaches(w: World, path: string, body: Gateway.ProofBody, process: nat)
  {
    && w.net.up && w.disk.routes.Some? && process in w.live
    && var d := Gateway.Select(Gateway.Table(w.disk.routes.value), path, body);
       d.Forward? && w.live[process].port == d.port
  }

  function Selected(w: World, path: string, body: Gateway.ProofBody): nat
    requires w.disk.routes.Some?
  {
    var d := Gateway.Select(Gateway.Table(w.disk.routes.value), path, body);
    if d.Forward? then d.revision else 0
  }

  function Issued(w: World, process: nat, raw: string, ttl: int, proof: bool): Issue
    requires process in w.live
  {
    Issue(w.live[process], process, raw, w.now, w.now.Floor + ttl, proof)
  }

  predicate MayDraw(w: World, raw: string)
  {
    raw !in w.book.drawn && IsRandomToken(raw)
  }

  function NextTraffic(w: World, step: TrafficStep): Option<World>
  {
    match step
    case Ask(process, raw) =>
      if !Reaches(w, Gateway.CHALLENGE, Gateway.Malformed, process) || !MayDraw(w, raw) then None
      else
        Some(w.(book := w.book.(challenges := w.book.challenges[TagToken(Tag(w.live[process]), raw) :=
                                                                  Issued(w, process, raw, CHALLENGE_TTL, false)],
                                drawn := w.book.drawn + {raw})))
    case Prove(process, key, raw) =>
      if !Reaches(w, Gateway.PROVE, Gateway.Proof(Some(key)), process) || !MayDraw(w, raw)
         || key !in w.book.challenges || w.book.challenges[key].process != process
         || w.now.Floor > w.book.challenges[key].expires then None
      else
        Some(w.(book := w.book.(grants := w.book.grants[TagToken(Tag(w.live[process]), raw) :=
                                                          Issued(w, process, raw, GRANT_TTL, true)],
                                drawn := w.book.drawn + {raw})))
    case StartUpload(process, id) =>
      if !Reaches(w, Gateway.PATCH, Gateway.Malformed, process) || id in w.net.flights then None
      else
        var r := Selected(w, Gateway.PATCH, Gateway.Malformed);
        Some(w.(net := w.net.(counts := Gateway.Bump(w.net.counts, r), flights := w.net.flights[id := r],
                              uploads := w.net.uploads[id := process])))
    case FinishUpload(id, raw) =>
      if id !in w.net.uploads || w.net.uploads[id] !in w.live || !MayDraw(w, raw) then None
      else
        var process := w.net.uploads[id];
        Some(w.(book := w.book.(grants := w.book.grants[TagToken(Tag(w.live[process]), raw) :=
                                                          Issued(w, process, raw, GRANT_TTL, false)],
                                drawn := w.book.drawn + {raw})))
    case StartDownload(process, token, id) =>
      if !Reaches(w, Gateway.DOWNLOAD + token, Gateway.Malformed, process) || id in w.net.flights then None
      else
        var r := Selected(w, Gateway.DOWNLOAD + token, Gateway.Malformed);
        Some(w.(net := w.net.(counts := Gateway.Bump(w.net.counts, r), flights := w.net.flights[id := r])))
    case End(id) =>
      if id !in w.net.flights || w.net.flights[id] !in w.net.counts || w.net.counts[w.net.flights[id]] == 0 then None
      else
        Some(w.(net := w.net.(counts := Gateway.Drop(w.net.counts, w.net.flights[id]), flights := w.net.flights - {id},
                              uploads := w.net.uploads - {id})))
    case Take =>
      if !w.net.up then None else Some(w.(net := w.net.(pending := Some(Snap(w.net.counts, w.now)))))
    case Post =>
      if !w.net.up || w.net.pending.None? then None
      else
        var snap := w.net.pending.value;
        Some(w.(net := w.net.(pending := None, stats := Some(Stats(snap.counts, w.now)), takenAt := snap.takenAt,
                              lag := Max(w.net.lag, w.now - snap.takenAt))))
  }

  /** Traffic touches only the gateway's memory and the book of tokens. */
  lemma TrafficFrame(w: World, step: TrafficStep)
    requires NextTraffic(w, step).Some?
    ensures var w' := NextTraffic(w, step).value; w' == w.(book := w'.book, net := w'.net) && w'.net.up == w.net.up
  {
    hide Reaches, MayDraw, Selected, Gateway.Bump, Gateway.Drop;
  }

  // ------------------------------------------------------------- faults and time

  datatype FaultStep = Exit(process: nat) | GatewayExit | Crash

  /** The gateway's memory is lost; the statistics file stays. */
  function Down(net: Net): Net
  {
    net.(up := false, counts := map[], flights := map[], uploads := map[], pending := None)
  }

  function NextFault(w: World, step: FaultStep): Option<World>
  {
    match step
    case Exit(process) => Some(w.(live := w.live - {process}))
    case GatewayExit => Some(w.(net := Down(w.net)))
    case Crash => Some(w.(sup := None, live := map[], net := Down(w.net)))
  }

  datatype Step =
    | Boot(boot: BootStep)
    | Update(update: UpdateStep)
    | Maintain(maintain: MaintainStep)
    | Traffic(traffic: TrafficStep)
    | Fault(fault: FaultStep)
    | Advance(dt: real)

  /** The world after a step, if the step is possible. */
  function Next(w: World, step: Step): Option<World>
  {
    match step
    case Boot(b) => NextBoot(w, b)
    case Update(u) => NextUpdate(w, u)
    case Maintain(m) => NextMaintain(w, m)
    case Traffic(t) => NextTraffic(w, t)
    case Fault(f) => NextFault(w, f)
    case Advance(dt) => if dt < 0.0 then None else Some(w.(now := w.now + dt))
  }

  function Run(w: World, steps: seq<Step>): Option<World>
    decreases |steps|
  {
    if steps == [] then Some(w)
    else
      var w' := Next(w, steps[0]);
      if w'.None? then None else Run(w'.value, steps[1..])
  }

  lemma {:induction false} RunThen(w: World, first: seq<Step>, rest: seq<Step>)
    requires Run(w, first).Some?
    ensures Run(w, first + rest) == Run(Run(w, first).value, rest)
    decreases |first|
  {
    if first == [] {
      assert first + rest == rest;
    } else {
      assert (first + rest)[1..] == first[1..] + rest;
      RunThen(Next(w, first[0]).value, first[1..], rest);
    }
  }

  /** A run and one more step. */
  lemma OneMoreStep(w: World, steps: seq<Step>, step: Step)
    requires Run(w, steps).Some? && Next(Run(w, steps).value, step).Some?
    ensures Run(w, steps + [step]) == Next(Run(w, steps).value, step)
  {
    var w' := Run(w, steps).value;
    RunThen(w, steps, [step]);
    assert Run(Next(w', step).value, [step][1..]) == Next(w', step);
  }
}
