/**
 * The blue/green supervisor (deploy/run_managed.py): class BlueGreen with the
 * durable files it writes and the processes it starts and stops.
 */
module Supervisor {
  import opened Wrappers
  import opened Gateway

  /** A worker generation on a private port; `blue` is whether its binary supports blue/green routing. */
  datatype Generation = Generation(revision: nat, port: nat, blue: bool)

  /** `state.json` (and the `state` dictionary in memory). */
  datatype Saved = Saved(counter: nat, active: Option<Generation>, previous: Option<Generation>, pair: Option<string>)

  /** The retained worker: its process, when it was retired, when it was last seen busy, and its release pair. */
  datatype Retired = Retired(generation: Generation, child: nat, since: real, lastBusy: real, pair: Option<string>)

  /** `routes.stats.json` as the supervisor finds it. */
  datatype Stats = Stats(counts: map<nat, nat>, mtime: real)

  const RETAIN: real := 780.0
  const QUIET: real := 600.0
  const FRESH: real := 5.0

  // ------------------------------------------------------------- decisions

  /** The table `publish` writes. */
  function Routes(active: Generation, retained: Option<Generation>, legacy: Option<nat>): RouteTable
  {
    var first := map[active.revision := active.port];
    var targets := if retained.Some? then first[retained.value.revision := retained.value.port] else first;
    RouteTable(active.revision, targets, if legacy.Some? && legacy.value in targets then legacy else None)
  }

  function Published(state: Saved, active: Generation, candidate: Generation, pair: string): Saved
  {
    state.(previous := Some(active), active := Some(candidate), pair := Some(pair))
  }

  function RolledBack(state: Saved, retired: Retired): Saved
  {
    state.(active := Some(retired.generation), pair := retired.pair)
  }

  predicate IsFresh(stats: Option<Stats>, now: real)
  {
    stats.Some? && now - stats.value.mtime < FRESH
  }

  /** An unreadable statistics file counts as busy. */
  predicate IsBusy(stats: Option<Stats>, revision: nat)
  {
    stats.Some? ==> revision in stats.value.counts && stats.value.counts[revision] != 0
  }

  /** The retained worker after one look at the statistics. */
  function Observed(retired: Retired, stats: Option<Stats>, now: real): Retired
  {
    if IsBusy(stats, retired.generation.revision) || !IsFresh(stats, now) then retired.(lastBusy := now) else retired
  }

  /** `seen` is the retained worker after this look. */
  predicate MayRetire(seen: Retired, stats: Option<Stats>, now: real)
  {
    && IsFresh(stats, now) && !IsBusy(stats, seen.generation.revision)
    && now - seen.since >= RETAIN && now - seen.lastBusy >= QUIET
  }

  // ------------------------------------------------------------- durable files

  /** Where `atomic_json` fails, if it does. */
  datatype Fault = Nowhere | WhileWriting | AtReplace

  /** What a file system holds at a path: nothing, a complete document, or a torn one. */
  datatype Document<T> = Absent | Torn | Whole(value: T)

  class JsonFile<T> {
    var content: Document<T>
    var temporary: Document<T>
    /** `content` after every file-system operation so far: what a crash may leave. */
    ghost var crashes: seq<Document<T>>

    constructor (content: Document<T>)
      ensures this.content == content && temporary.Absent? && crashes == [content]
    {
      this.content, temporary, crashes := content, Absent, [content];
    }

    /** `atomic_json`: write and sync a temporary file, then rename it over the path. */
    method AtomicJson(value: T, fault: Fault) returns (ok: bool)
      modifies this
      ensures ok <==> fault.Nowhere?
      ensures content == if ok then Whole(value) else old(content)
      ensures old(crashes) <= crashes
      ensures forall i :: |old(crashes)| <= i < |crashes| ==> crashes[i] == old(content) || crashes[i] == Whole(value)
    {
      temporary := Torn;
      crashes := crashes + [content];
      if fault.WhileWriting? {
        return false;
      }
      temporary := Whole(value);
      crashes := crashes + [content];
      if fault.AtReplace? {
        return false;
      }
      content, temporary := temporary, Absent;
      crashes := crashes + [content];
      return true;
    }
  }

  /** The two durable files together. */
  datatype Durable = Durable(state: Document<Saved>, routes: Document<RouteTable>)

  // ------------------------------------------------------------- BlueGreen

  /** The `state` dictionary, shared by reference between `main` and BlueGreen. */
  class Dictionary {
    var value: Saved

    constructor (value: Saved)
      ensures this.value == value
    {
      this.value := value;
    }
  }

  /** Everything the surroundings decide during one `activate`. */
  datatype Attempt = Attempt(
    supported: bool,       // --network-capabilities reports blueGreen
    port: Option<nat>,     // the free port, unless `backend` raises
    process: Option<nat>,  // the started process, unless Popen raises
    ready: bool,
    probes: seq<bool>,     // one health probe per pass of the stabilization loop
    stopping: bool,        // STOP seen at or before the cutover check
    stateWrite: Fault,
    routeWrite: Fault,
    now: real)
  {
    /** The candidate came up and stayed healthy up to the cutover check. */
    predicate Healthy()
    {
      && supported && port.Some? && process.Some? && ready && !stopping
      && forall i :: 0 <= i < |probes| ==> probes[i]
    }

    predicate Succeeds() { Healthy() && stateWrite.Nowhere? && routeWrite.Nowhere? }
  }

  datatype MaintainError = GatewayExited | NoRollbackTarget | WriteFailed

  class BlueGreen {
    const legacy: Option<nat>
    const routes: JsonFile<RouteTable>
    const statePath: JsonFile<Saved>
    var retired: Option<Retired>
    /** The processes now running. */
    var live: set<nat>

    constructor (legacy: Option<nat>, routes: JsonFile<RouteTable>, statePath: JsonFile<Saved>, live: set<nat>)
      ensures this.legacy == legacy && this.routes == routes && this.statePath == statePath
      ensures retired == None && this.live == live
    {
      this.legacy, this.routes, this.statePath := legacy, routes, statePath;
      retired, this.live := None, live;
    }

    ghost function OnDisk(): Durable
      reads this, routes, statePath
    {
      Durable(statePath.content, routes.content)
    }

    method Publish(active: Generation, retained: Option<Generation>, fault: Fault) returns (ok: bool)
      modifies routes
      ensures ok <==> fault.Nowhere?
      ensures routes.content == if ok then Whole(Routes(active, retained, legacy)) else old(routes.content)
      ensures ok ==>
                var table := routes.content.value;
                && table.active == active.revision
                && (retained.None? ==> table.targets == map[active.revision := active.port])
                && (retained.Some? ==>
                     table.targets
                     == map[active.revision := active.port, retained.value.revision := retained.value.port])
                && (table.legacy.Some? <==> legacy.Some? && legacy.value in table.targets)
                && (table.legacy.Some? ==> table.legacy == legacy)
    {
      var targets := map[active.revision := active.port];
      if retained.Some? {
        targets := targets[retained.value.revision := retained.value.port];
      }
      var named := if legacy.Some? && legacy.value in targets then legacy else None;
      var table := RouteTable(active.revision, targets, named);
      ok := routes.AtomicJson(table, fault);
    }

    /**
     * All-or-nothing cutover. On success memory, state file and route file all name
     * the new generation and its pair; otherwise all are as before and only the
     * candidate process was stopped. `trace` is the pair of durable files after each write.
     */
    method Activate(
      candidate: Generation, active: Generation, child: nat, state: Dictionary, pair: string, env: Attempt)
      returns (nowActive: Generation, nowChild: nat, ghost trace: seq<Durable>)
      requires routes as object != statePath as object
      requires env.process.Some? ==> env.process.value !in live
      modifies this`retired, this`live, routes, statePath, state
      ensures live != old(live) <==>
                && env.supported && env.port.Some? && env.process.Some? && env.ready && !env.stopping
                && (forall i :: 0 <= i < |env.probes| ==> env.probes[i])
                && env.stateWrite.Nowhere? && env.routeWrite.Nowhere?
      ensures !env.Succeeds() ==>
                && nowActive == active && nowChild == child
                && state.value == old(state.value) && retired == old(retired) && live == old(live)
                && routes.content == old(routes.content)
                && (old(statePath.content) == Whole(old(state.value)) ==> OnDisk() == old(OnDisk()))
      ensures env.Succeeds() ==>
                && nowActive == candidate.(port := env.port.value) && nowChild == env.process.value
                && state.value == Published(old(state.value), active, nowActive, pair)
                && state.value == Saved(old(state.value).counter, Some(nowActive), Some(active), Some(pair))
                && OnDisk() == Durable(Whole(state.value), Whole(Routes(nowActive, Some(active), legacy)))
                && retired == Some(Retired(active, child, env.now, env.now, old(state.value).pair))
                && live == old(live) + {nowChild}
      ensures trace ==
              if !env.Healthy() || !env.stateWrite.Nowhere? then []
              else
                var placed := candidate.(port := env.port.value);
                var first := Whole(Published(old(state.value), active, placed, pair));
                [Durable(first, old(routes.content)),
                 if env.routeWrite.Nowhere? then Durable(first, Whole(Routes(placed, Some(active), legacy)))
                 else Durable(Whole(old(state.value)), old(routes.content))]
    {
      nowActive, nowChild, trace := active, child, [];
      if !env.supported {
        return;
      }
      if env.port.None? {
        return; // `backend` raised before any process was started
      }
      var placed := candidate.(port := env.port.value);
      if env.process.None? {
        return; // nothing to stop
      }
      var newChild := env.process.value;
      live := live + {newChild};
      var healthy := env.ready;
      var i := 0;
      while healthy && i < |env.probes|
        invariant 0 <= i <= |env.probes|
        invariant healthy ==> env.ready && forall j :: 0 <= j < i ==> env.probes[j]
        invariant !healthy ==> !env.Healthy()
        modifies {}
      {
        healthy := env.probes[i];
        i := i + 1;
      }
      if !healthy || env.stopping {
        live := live - {newChild};
        return;
      }
      var published := Published(state.value, active, placed, pair);
      var written := statePath.AtomicJson(published, env.stateWrite);
      if !written {
        live := live - {newChild};
        return;
      }
      trace := trace + [OnDisk()];
      var switched := Publish(placed, Some(active), env.routeWrite);
      if !switched {
        var _ := statePath.AtomicJson(state.value, Nowhere);
        trace := trace + [OnDisk()];
        live := live - {newChild};
        return;
      }
      trace := trace + [OnDisk()];
      retired := Some(Retired(active, child, env.now, env.now, state.value.pair));
      state.value := published;
      return placed, newChild, trace;
    }

    /** One pass of `maintain`. */
    method Maintain(
      active: Generation, child: nat, state: Dictionary, gatewayUp: bool, stats: Option<Stats>, now: real,
      routeWrite: Fault, stateWrite: Fault)
      returns (r: Result<(Generation, nat), MaintainError>)
      requires routes as object != statePath as object
      modifies this`retired, this`live, routes, statePath, state
      ensures !gatewayUp ==>
                && r == Err(GatewayExited) && OnDisk() == old(OnDisk()) && live == old(live)
                && state.value == old(state.value) && retired == old(retired)
      ensures gatewayUp && child !in old(live) && (old(retired).None? || old(retired).value.child !in old(live)) ==>
                && r == Err(NoRollbackTarget) && OnDisk() == old(OnDisk()) && live == old(live)
                && state.value == old(state.value) && retired == old(retired)
      ensures gatewayUp && child !in old(live) && old(retired).Some? && old(retired).value.child in old(live) ==>
                var back := old(retired).value;
                && live == old(live)
                && (r.Ok? <==> routeWrite.Nowhere? && stateWrite.Nowhere?)
                && (r.Ok? ==>
                     && r.value == (back.generation, back.child) && retired == None
                     && state.value == RolledBack(old(state.value), back)
                     && state.value == old(state.value).(active := Some(back.generation), pair := back.pair)
                     && OnDisk() == Durable(Whole(state.value), Whole(Routes(back.generation, None, legacy))))
                && (r.Err? ==>
                     && r == Err(WriteFailed) && retired == old(retired) && statePath.content == old(statePath.content)
                     && (if routeWrite.Nowhere? then
                           state.value == RolledBack(old(state.value), back)
                           && routes.content == Whole(Routes(back.generation, None, legacy))
                         else state.value == old(state.value) && routes.content == old(routes.content)))
      ensures gatewayUp && child in old(live) ==>
                && state.value == old(state.value) && statePath.content == old(statePath.content)
                && (r.Ok? ==> r.value == (active, child))
                && (old(retired).None? ==> r.Ok? && retired == None && OnDisk() == old(OnDisk()) && live == old(live))
      ensures gatewayUp && child in old(live) && old(retired).Some? ==>
                var kept := old(retired).value;
                var quiet := stats.Some? && now - stats.value.mtime < 5.0 &&
                             (kept.generation.revision in stats.value.counts ==>
                                stats.value.counts[kept.generation.revision] == 0);
                && (retired.None? <==> quiet && now - kept.since >= 780.0 && now - kept.lastBusy >= 600.0
                                       && routeWrite.Nowhere?)
                && (retired.Some? ==> retired == Some(kept.(lastBusy := if quiet then kept.lastBusy else now)))
                && live == if retired.None? then old(live) - {kept.child} else old(live)
      ensures gatewayUp && child in old(live) && old(retired).Some? ==>
                var seen := Observed(old(retired).value, stats, now);
                if !MayRetire(seen, stats, now) then
                  r.Ok? && retired == Some(seen) && OnDisk() == old(OnDisk()) && live == old(live)
                else if !routeWrite.Nowhere? then
                  r == Err(WriteFailed) && retired == Some(seen) && OnDisk() == old(OnDisk()) && live == old(live)
                else
                  && r.Ok? && retired == None && live == old(live) - {seen.child}
                  && routes.content == Whole(Routes(active, None, legacy))
    {
      if !gatewayUp {
        return Err(GatewayExited);
      }
      if child !in live {
        if retired.None? || retired.value.child !in live {
          return Err(NoRollbackTarget);
        }
        var kept := retired.value;
        var published := Publish(kept.generation, None, routeWrite);
        if !published {
          return Err(WriteFailed);
        }
        state.value := state.value.(active := Some(kept.generation), pair := kept.pair);
        var written := statePath.AtomicJson(state.value, stateWrite);
        if !written {
          return Err(WriteFailed);
        }
        retired := None;
        return Ok((kept.generation, kept.child));
      }
      if retired.Some? {
        var kept := retired.value;
        var recent, busy := false, true;
        if stats.Some? {
          recent := now - stats.value.mtime < FRESH;
          busy := kept.generation.revision in stats.value.counts && stats.value.counts[kept.generation.revision] != 0;
        }
        var lastBusy := kept.lastBusy;
        if busy || !recent {
          lastBusy := now;
        }
        retired := Some(kept.(lastBusy := lastBusy));
        if recent && !busy && now - kept.since >= RETAIN && now - lastBusy >= QUIET {
          var published := Publish(active, None, routeWrite);
          if !published {
            return Err(WriteFailed);
          }
          live := live - {kept.child};
          retired := None;
        }
      }
      return Ok((active, child));
    }
  }
}
