/** Revision numbers over every run: allocated once, in order, never lost to a crash. */
module DeploymentVersions {
  import opened Wrappers
  import opened Supervisor
  import opened Deployment
  import Gateway
  import Version

  ghost predicate Increasing(s: seq<nat>)
  {
    forall i, j :: 0 <= i < j < |s| ==> s[i] < s[j]
  }

  predicate InBoot(phase: Phase) { phase.Booting? || phase.Checked? || phase.Recorded? }

  /** The revision an update in progress has been given. */
  function NewRevision(phase: Phase): Option<nat>
  {
    match phase
    case Staged(r, _) => Some(r)
    case Reserved(r, _) => Some(r)
    case Probing(g, _, _) => Some(g.revision)
    case Ready(g, _, _) => Some(g.revision)
    case Committed(g, _, _) => Some(g.revision)
    case _ => None
  }

  /** The deployment found at the first start, or a generation allocated since or before. */
  predicate InPlay(w: World, revision: nat) { revision == w.log.origin || revision in w.disk.generations }

  ghost predicate Numbered(w: World)
  {
    && Increasing(w.log.numbers)
    && (forall r :: r in w.disk.generations <==> r in w.log.numbers)
    && (forall r :: r in w.disk.generations ==> 0 < r <= Version.MAX_REVISION)
    && w.log.origin <= Version.MAX_REVISION
  }

  predicate SavedOk(w: World, saved: Saved)
  {
    && w.log.origin <= saved.counter <= Version.MAX_REVISION
    && (if saved.active.Some? then InPlay(w, saved.active.value.revision) else w.log.origin == 0)
  }

  ghost predicate SupNumbered(w: World, s: Sup)
  {
    && SavedOk(w, s.state) && InPlay(w, s.active.revision)
    && (!s.phase.Booting? ==> forall r :: r in w.disk.generations ==> r <= s.state.counter)
    && (s.retired.Some? ==>
          && InPlay(w, s.retired.value.generation.revision)
          && s.retired.value.generation.revision != s.active.revision)
    && (NewRevision(s.phase).Some? ==>
          && s.retired.None?
          && NewRevision(s.phase).value in w.disk.generations
          && NewRevision(s.phase).value != s.active.revision)
    && (InBoot(s.phase) ==> s.retired.None?)
    && (s.phase.Retiring? || s.phase.RollingBack? ==> s.retired.Some?)
  }

  ghost predicate Versioned(w: World)
  {
    && Numbered(w)
    && (if w.disk.state.Some? then SavedOk(w, w.disk.state.value) else w.log.origin == 0)
    && (w.sup.Some? ==> SupNumbered(w, w.sup.value))
  }

  lemma VersionedBoot(w: World, step: BootStep)
    requires Versioned(w) && NextBoot(w, step).Some?
    ensures Versioned(NextBoot(w, step).value)
  {
    hide Increasing, Routes;
  }

  /** The number handed out next is above every number handed out before. */
  lemma NextIsUnused(w: World, compiled: nat)
    requires Versioned(w) && w.sup.Some? && !w.sup.value.phase.Booting?
    ensures var next := Version.NextRevision(w.sup.value.state.counter, compiled);
            next.Some? ==> !InPlay(w, next.value) && (forall r <- w.log.numbers :: r < next.value)
  {
  }

  lemma AppendIncreasing(s: seq<nat>, r: nat)
    requires Increasing(s) && forall x <- s :: x < r
    ensures Increasing(s + [r])
  {
    forall i | 0 <= i < |s| ensures s[i] < r {
      assert s[i] in s;
    }
  }

  lemma VersionedStage(w: World, step: UpdateStep)
    requires Versioned(w) && step.Stage? && NextUpdate(w, step).Some?
    ensures Versioned(NextUpdate(w, step).value)
  {
    NextIsUnused(w, step.compiled);
    var next := Version.NextRevision(w.sup.value.state.counter, step.compiled);
    if next.Some? {
      AppendIncreasing(w.log.numbers, next.value);
    }
    hide Increasing;
  }

  lemma VersionedSwitch(w: World, step: UpdateStep)
    requires Versioned(w) && (step.Switch? || step.Commit?) && NextUpdate(w, step).Some?
    ensures Versioned(NextUpdate(w, step).value)
  {
    hide Increasing, Routes;
  }

  lemma VersionedWrite(w: World, step: UpdateStep)
    requires Versioned(w) && (step.Start? || step.WriteCounter?) && NextUpdate(w, step).Some?
    ensures Versioned(NextUpdate(w, step).value)
  {
    hide Increasing;
  }

  lemma VersionedUpdate(w: World, step: UpdateStep)
    requires Versioned(w) && NextUpdate(w, step).Some?
    ensures Versioned(NextUpdate(w, step).value)
  {
    if step.Stage? {
      VersionedStage(w, step);
    } else if step.Switch? || step.Commit? {
      VersionedSwitch(w, step);
    } else if step.Start? || step.WriteCounter? {
      VersionedWrite(w, step);
    } else {
      hide Increasing, Routes, Published;
    }
  }

  lemma VersionedMaintain(w: World, step: MaintainStep)
    requires Versioned(w) && NextMaintain(w, step).Some?
    ensures Versioned(NextMaintain(w, step).value)
  {
    hide Increasing, Routes, MayRetire, IsFresh, IsBusy;
  }

  lemma VersionedTraffic(w: World, step: TrafficStep)
    requires Versioned(w) && NextTraffic(w, step).Some?
    ensures Versioned(NextTraffic(w, step).value)
  {
    hide NextTraffic, Increasing;
    TrafficFrame(w, step);
  }

  lemma VersionedFault(w: World, step: FaultStep)
    requires Versioned(w) && NextFault(w, step).Some?
    ensures Versioned(NextFault(w, step).value)
  {
    hide Increasing;
  }

  lemma VersionedAdvance(w: World, now: real)
    requires Versioned(w)
    ensures Versioned(w.(now := now))
  {
    hide Increasing;
  }

  lemma VersionedStep(w: World, step: Step)
    requires Versioned(w) && Next(w, step).Some?
    ensures Versioned(Next(w, step).value)
  {
    hide NextBoot, NextUpdate, NextMaintain, NextTraffic, NextFault, Versioned;
    match step
    case Boot(b) => VersionedBoot(w, b);
    case Update(u) => VersionedUpdate(w, u);
    case Maintain(m) => VersionedMaintain(w, m);
    case Traffic(t) => VersionedTraffic(w, t);
    case Fault(f) => VersionedFault(w, f);
    case Advance(dt) => VersionedAdvance(w, w.now + dt);
  }

  lemma {:induction false} VersionedRun(w: World, steps: seq<Step>)
    requires Versioned(w) && Run(w, steps).Some?
    ensures Versioned(Run(w, steps).value)
    decreases |steps|
  {
    hide Versioned, Next;
    if steps != [] {
      VersionedStep(w, steps[0]);
      VersionedRun(Next(w, steps[0]).value, steps[1..]);
    }
  }
}
