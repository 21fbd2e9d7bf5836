/**
 * Timed retirement, over every run: what has expired by the time the retained
 * worker is dropped from the route table.
 */
module DeploymentRetirement {
  import opened Wrappers
  import opened Supervisor
  import opened Deployment
  import opened DeploymentVersions
  import opened DeploymentFleet
  import opened DeploymentSafety
  import opened DeploymentTokens
  import opened Tokens
  import Gateway

  /** A worker is retained, and no rollback to it is under way. */
  predicate Retaining(w: World)
  {
    w.sup.Some? && w.sup.value.retired.Some? && !w.sup.value.phase.RollingBack?
  }

  function KeptRevision(w: World): nat
    requires Retaining(w)
  {
    w.sup.value.retired.value.generation.revision
  }

  // ------------------------------------------------------------- challenges and proofs

  ghost predicate ChallengesEnd(w: World, revision: nat, last: int)
  {
    forall key :: key in w.book.challenges && w.book.challenges[key].generation.revision == revision ==>
      w.book.challenges[key].expires <= last
  }

  ghost predicate ProofsEnd(w: World, revision: nat, last: int)
  {
    forall key :: key in w.book.grants && w.book.grants[key].proof
                  && w.book.grants[key].generation.revision == revision ==>
      w.book.grants[key].expires <= last
  }

  ghost predicate Clocked(w: World)
  {
    Retaining(w) ==>
      var s := w.sup.value;
      var kept := s.retired.value;
      && kept.since <= kept.lastBusy <= s.lastTick <= w.now && s.gap >= 0.0
      && (s.phase.Retiring? ==> s.lastTick - kept.since >= RETAIN && s.lastTick - kept.lastBusy >= QUIET)
  }

  ghost predicate Windowed(w: World)
  {
    Retaining(w) ==>
      var since := w.sup.value.retired.value.since;
      && ChallengesEnd(w, KeptRevision(w), since.Floor + 180)
      && ProofsEnd(w, KeptRevision(w), since.Floor + 780)
  }

  lemma ClockedStep(w: World, step: Step)
    requires Clocked(w) && Next(w, step).Some?
    ensures Clocked(Next(w, step).value)
  {
    hide Routes, IsFresh, IsBusy, IsCounter, Reaches, MayDraw, Selected, Gateway.Bump, Gateway.Drop;
    match step
    case Boot(b) =>
    case Update(u) =>
    case Maintain(m) =>
    case Traffic(t) =>
    case Fault(f) =>
    case Advance(dt) =>
  }

  /** Whatever was issued by `now` ends within the windows that start now. */
  lemma IssuedSoFarEnds(w: World, revision: nat)
    requires Issuance(w)
    ensures ChallengesEnd(w, revision, w.now.Floor + 180) && ProofsEnd(w, revision, w.now.Floor + 780)
  {
    hide TagToken, IsRandomToken;
  }

  lemma WindowedUpdate(w: World, step: UpdateStep)
    requires Versioned(w) && Issuance(w) && Windowed(w) && NextUpdate(w, step).Some?
    ensures Windowed(NextUpdate(w, step).value)
  {
    hide Routes, Increasing, Numbered, Issuance, ChallengesEnd, ProofsEnd;
    var w' := NextUpdate(w, step).value;
    SameBook(w, w');
    if step.Switch? && step.ok {
      IssuedSoFarEnds(w, w.sup.value.active.revision);
    }
  }

  /** The windows read only the book. */
  lemma SameBook(w: World, w': World)
    requires w'.book == w.book || w'.book == w.book.(drawn := w'.book.drawn)
    ensures forall r: nat, last: int :: ChallengesEnd(w, r, last) ==> ChallengesEnd(w', r, last)
    ensures forall r: nat, last: int :: ProofsEnd(w, r, last) ==> ProofsEnd(w', r, last)
  {
  }

  lemma WindowedMaintain(w: World, step: MaintainStep)
    requires Windowed(w) && NextMaintain(w, step).Some?
    ensures Windowed(NextMaintain(w, step).value)
  {
    hide Routes, MayRetire, IsFresh, IsBusy, ChallengesEnd, ProofsEnd;
    SameBook(w, NextMaintain(w, step).value);
  }

  lemma WindowedAsk(w: World, step: TrafficStep)
    requires Sound(w) && Windowed(w) && step.Ask? && NextTraffic(w, step).Some?
    ensures Windowed(NextTraffic(w, step).value)
  {
    hide Reaches, MayDraw, Fleet, Routed, Certified, Numbered;
    NewWorkReachesReceiver(w, Gateway.CHALLENGE, Gateway.Malformed, step.process);
    var w' := NextTraffic(w, step).value;
    ReachedIsLive(w, Gateway.CHALLENGE, Gateway.Malformed, step.process);
    assert w'.book.grants == w.book.grants;
  }

  lemma WindowedProve(w: World, step: TrafficStep)
    requires Sound(w) && Issuance(w) && Windowed(w) && step.Prove? && NextTraffic(w, step).Some?
    ensures Windowed(NextTraffic(w, step).value)
  {
    hide Reaches, MayDraw, Fleet, Routed, Certified, Versioned, GrantsKept, UploadsKept;
    var w' := NextTraffic(w, step).value;
    ReachedIsLive(w, Gateway.PROVE, Gateway.Proof(Some(step.key)), step.process);
    assert w'.book.challenges == w.book.challenges;
    assert Kept(w, step.key, w.book.challenges[step.key]);
  }

  lemma WindowedTraffic(w: World, step: TrafficStep)
    requires Sound(w) && Issuance(w) && Windowed(w) && NextTraffic(w, step).Some?
    ensures Windowed(NextTraffic(w, step).value)
  {
    if step.Ask? {
      WindowedAsk(w, step);
    } else if step.Prove? {
      WindowedProve(w, step);
    } else {
      hide Reaches, MayDraw, Sound, Issuance, Selected, Gateway.Bump, Gateway.Drop;
      var w' := NextTraffic(w, step).value;
      assert w'.book.challenges == w.book.challenges;
    }
  }

  lemma WindowedStep(w: World, step: Step)
    requires Sound(w) && Issuance(w) && Windowed(w) && Next(w, step).Some?
    ensures Windowed(Next(w, step).value)
  {
    match step
    case Boot(b) => hide Routes, IsCounter, Numbered, Issuance;
    case Update(u) => WindowedUpdate(w, u);
    case Maintain(m) => WindowedMaintain(w, m);
    case Traffic(t) => WindowedTraffic(w, t);
    case Fault(f) =>
    case Advance(dt) =>
  }

  // ------------------------------------------------------------- uploads

  ghost predicate NoUploadsTo(w: World, revision: nat)
  {
    forall id :: id in w.net.uploads && id in w.net.flights ==> w.net.flights[id] != revision
  }

  ghost predicate UploadGrantsBy(w: World, revision: nat, time: real)
  {
    forall key :: key in w.book.grants && !w.book.grants[key].proof
                  && w.book.grants[key].generation.revision == revision ==>
      w.book.grants[key].at <= time
  }

  predicate CountsNone(counts: map<nat, nat>, revision: nat)
  {
    revision !in counts || counts[revision] == 0
  }

  /** A snapshot taken after the cutover that counts nothing is conclusive: uploads to the old worker are over. */
  ghost predicate Conclusive(w: World, counts: map<nat, nat>, takenAt: real)
    requires Retaining(w)
  {
    takenAt > w.sup.value.retired.value.since && CountsNone(counts, KeptRevision(w)) ==>
      NoUploadsTo(w, KeptRevision(w)) && UploadGrantsBy(w, KeptRevision(w), takenAt)
  }

  ghost predicate Sampled(w: World)
  {
    && Gateway.Counted(w.net.counts, w.net.flights)
    && w.net.lag >= 0.0
    && (w.net.pending.Some? ==> w.net.pending.value.takenAt <= w.now)
    && (w.net.stats.Some? ==>
          w.net.takenAt <= w.net.stats.value.mtime <= w.now && w.net.stats.value.mtime - w.net.takenAt <= w.net.lag)
  }

  ghost predicate Witnessed(w: World)
  {
    Retaining(w) ==>
      && (w.net.pending.Some? ==> Conclusive(w, w.net.pending.value.counts, w.net.pending.value.takenAt))
      && (w.net.stats.Some? ==> Conclusive(w, w.net.stats.value.counts, w.net.takenAt))
  }

  /** How late an upload may have issued a grant, once a look of `maintain` has been quiet. */
  function LastUpload(s: Sup, lag: real): real
    requires s.retired.Some?
  {
    s.retired.value.lastBusy + s.gap + FRESH + lag
  }

  ghost predicate Quieted(w: World)
  {
    Retaining(w) && w.sup.value.lastTick > w.sup.value.retired.value.lastBusy
    && w.sup.value.lastTick >= w.sup.value.retired.value.since + FRESH + w.net.lag ==>
      NoUploadsTo(w, KeptRevision(w)) && UploadGrantsBy(w, KeptRevision(w), LastUpload(w.sup.value, w.net.lag))
  }

  lemma SampledTraffic(w: World, step: TrafficStep)
    requires Sampled(w) && NextTraffic(w, step).Some?
    ensures Sampled(NextTraffic(w, step).value)
  {
    hide MayDraw, Selected, Gateway.Bump, Gateway.Drop, Gateway.Counted, Gateway.Select;
    match step
    case StartUpload(_, id) =>
      Gateway.BumpCounts(w.net.counts, w.net.flights, id, Selected(w, Gateway.PATCH, Gateway.Malformed));
    case StartDownload(_, token, id) =>
      Gateway.BumpCounts(w.net.counts, w.net.flights, id, Selected(w, Gateway.DOWNLOAD + token, Gateway.Malformed));
    case End(id) => Gateway.DropCounts(w.net.counts, w.net.flights, id);
    case _ =>
  }

  lemma NothingCounted()
    ensures Gateway.Counted(map[], map[])
  {
    forall r: nat ensures |Gateway.Holding(map[], r)| == 0 {
      assert Gateway.Holding(map[], r) == {};
    }
  }

  lemma SampledStep(w: World, step: Step)
    requires Sampled(w) && Next(w, step).Some?
    ensures Sampled(Next(w, step).value)
  {
    hide Gateway.Counted, Routes, MayRetire, Observed, IsCounter, NextTraffic;
    match step
    case Boot(b) =>
    case Update(u) =>
    case Maintain(m) =>
    case Traffic(t) => SampledTraffic(w, t);
    case Fault(f) => NothingCounted();
    case Advance(dt) =>
  }

  /** With no upload left, the grants from uploads are all in the past. */
  lemma TakenIsConclusive(w: World)
    requires Issuance(w) && Sampled(w) && Retaining(w)
    ensures Conclusive(w, w.net.counts, w.now)
  {
    hide Kept, Gateway.Counted;
    if CountsNone(w.net.counts, KeptRevision(w)) {
      Gateway.ZeroCountMeansQuiet(w.net.counts, w.net.flights, KeptRevision(w));
      GrantsArePast(w);
    }
  }

  lemma GrantsArePast(w: World)
    requires Issuance(w)
    ensures forall r: nat :: UploadGrantsBy(w, r, w.now)
  {
    hide TagToken, IsRandomToken;
  }

  /** A step that starts no upload to the kept worker and finishes none leaves every conclusion standing. */
  ghost predicate Undisturbed(w: World, w': World, revision: nat)
  {
    && (NoUploadsTo(w, revision) ==> NoUploadsTo(w', revision))
    && (NoUploadsTo(w, revision) ==>
          forall time: real :: UploadGrantsBy(w, revision, time) ==> UploadGrantsBy(w', revision, time))
  }

  lemma TrafficUndisturbed(w: World, step: TrafficStep)
    requires Sound(w) && Issuance(w) && Retaining(w) && NextTraffic(w, step).Some?
    ensures Undisturbed(w, NextTraffic(w, step).value, KeptRevision(w))
  {
    hide Reaches, MayDraw, Kept, Fleet, Routed, Certified, Numbered, Gateway.Bump, Gateway.Drop, Selected;
    var w' := NextTraffic(w, step).value;
    match step
    case Ask(_, _) => assert w'.book.grants == w.book.grants;
    case StartUpload(process, _) => NewWorkReachesReceiver(w, Gateway.PATCH, Gateway.Malformed, process);
    case FinishUpload(id, _) =>
    case _ =>
  }

  /** A conclusion outlives steps that do not disturb it. */
  lemma ConclusiveStays(w: World, w': World, counts: map<nat, nat>, takenAt: real)
    requires Retaining(w) && Retaining(w') && w'.sup == w.sup && Undisturbed(w, w', KeptRevision(w))
    requires Conclusive(w, counts, takenAt)
    ensures Conclusive(w', counts, takenAt)
  {
    hide NoUploadsTo, UploadGrantsBy;
  }

  lemma WitnessedTraffic(w: World, step: TrafficStep)
    requires Sound(w) && Issuance(w) && Sampled(w) && Witnessed(w) && NextTraffic(w, step).Some?
    ensures Witnessed(NextTraffic(w, step).value)
  {
    var w' := NextTraffic(w, step).value;
    TrafficFrame(w, step);
    SnapshotFrame(w, step);
    if Retaining(w) {
      TrafficUndisturbed(w, step);
      TakenIsConclusive(w);
      hide Sound, Issuance, Sampled, Undisturbed, Conclusive, NextTraffic;
      ConclusiveStays(w, w', w.net.counts, w.now);
      if w.net.pending.Some? {
        ConclusiveStays(w, w', w.net.pending.value.counts, w.net.pending.value.takenAt);
      }
      if w.net.stats.Some? {
        ConclusiveStays(w, w', w.net.stats.value.counts, w.net.takenAt);
      }
    }
  }

  /** A snapshot in hand after traffic was in hand before it, or was taken from the counters just now. */
  lemma SnapshotFrame(w: World, step: TrafficStep)
    requires NextTraffic(w, step).Some?
    ensures var net := NextTraffic(w, step).value.net;
            && (net.pending == w.net.pending || net.pending.None?
                || (step.Take? && net.pending == Some(Snap(w.net.counts, w.now))))
            && ((net.stats == w.net.stats && net.takenAt == w.net.takenAt)
                || (w.net.pending.Some? && net.stats.Some? && net.stats.value.counts == w.net.pending.value.counts
                    && net.takenAt == w.net.pending.value.takenAt))
  {
    hide Reaches, MayDraw, Selected, Gateway.Bump, Gateway.Drop;
  }

  /** Taking or posting a snapshot changes neither uploads nor grants. */
  lemma SameNet(w: World, w': World)
    ensures w'.net.uploads == w.net.uploads && w'.net.flights == w.net.flights ==>
              forall r: nat :: NoUploadsTo(w, r) ==> NoUploadsTo(w', r)
    ensures w'.book.grants == w.book.grants ==>
              forall r: nat, t: real :: UploadGrantsBy(w, r, t) ==> UploadGrantsBy(w', r, t)
  {
  }

  /** Steps that leave the gateway and the book alone carry every conclusion over, unless they set a new `since`. */
  lemma WitnessedFrame(w: World, w': World)
    requires Witnessed(w) && w'.book == w.book
    requires w'.net.uploads == w.net.uploads && w'.net.flights == w.net.flights && w'.net.stats == w.net.stats
    requires w'.net.takenAt == w.net.takenAt && (w'.net.pending == w.net.pending || w'.net.pending.None?)
    requires Retaining(w') ==>
               && Retaining(w) && KeptRevision(w') == KeptRevision(w)
               && w'.sup.value.retired.value.since == w.sup.value.retired.value.since
    ensures Witnessed(w')
  {
    SameNet(w, w');
    hide NoUploadsTo, UploadGrantsBy;
  }

  lemma WitnessedUpdate(w: World, step: UpdateStep)
    requires Versioned(w) && Sampled(w) && Witnessed(w) && NextUpdate(w, step).Some?
    ensures Witnessed(NextUpdate(w, step).value)
  {
    hide NoUploadsTo, UploadGrantsBy, Routes, Numbered, Gateway.Counted;
    if !(step.Switch? && step.ok) {
      hide Witnessed;
      WitnessedFrame(w, NextUpdate(w, step).value);
    }
  }

  lemma WitnessedOthers(w: World, step: Step)
    requires Versioned(w) && Witnessed(w) && Next(w, step).Some? && (step.Boot? || step.Maintain? || step.Advance?)
    ensures Witnessed(Next(w, step).value)
  {
    hide Witnessed, Routes, Numbered, MayRetire, IsFresh, IsBusy, IsCounter;
    WitnessedFrame(w, Next(w, step).value);
  }

  lemma WitnessedFault(w: World, step: FaultStep)
    requires Witnessed(w) && NextFault(w, step).Some?
    ensures Witnessed(NextFault(w, step).value)
  {
    var w' := NextFault(w, step).value;
    SameNet(w, w');
    NoUploadsWhenDown(w');
    hide NoUploadsTo, UploadGrantsBy;
  }

  lemma WitnessedStep(w: World, step: Step)
    requires Sound(w) && Issuance(w) && Sampled(w) && Witnessed(w) && Next(w, step).Some?
    ensures Witnessed(Next(w, step).value)
  {
    hide NextBoot, NextUpdate, NextMaintain, NextTraffic, NextFault;
    hide Witnessed, Sampled, Issuance, Versioned, Fleet, Routed, Certified;
    match step
    case Update(u) => WitnessedUpdate(w, u);
    case Traffic(t) => WitnessedTraffic(w, t);
    case Fault(f) => WitnessedFault(w, f);
    case _ => WitnessedOthers(w, step);
  }

  lemma NoUploadsWhenDown(w: World)
    ensures w.net.uploads == map[] ==> forall r: nat :: NoUploadsTo(w, r)
  {
  }

  /** A quiet look: fresh, nothing counted, long enough after the cutover for the snapshot to postdate it. */
  lemma QuietLook(w: World, time: real)
    requires Retaining(w) && Sampled(w) && Witnessed(w) && time <= w.now
    requires time >= w.sup.value.retired.value.since + FRESH + w.net.lag
    requires IsFresh(w.net.stats, time) && !IsBusy(w.net.stats, KeptRevision(w))
    ensures NoUploadsTo(w, KeptRevision(w)) && UploadGrantsBy(w, KeptRevision(w), w.now)
  {
    hide NoUploadsTo, Gateway.Counted;
    assert w.net.takenAt > w.sup.value.retired.value.since;
  }

  lemma QuietedTick(w: World)
    requires Issuance(w) && Clocked(w) && Sampled(w) && Witnessed(w) && Quieted(w) && NextMaintain(w, Tick).Some?
    ensures Quieted(NextMaintain(w, Tick).value)
  {
    hide NoUploadsTo, UploadGrantsBy, Gateway.Counted, Routes, Issuance;
    var w' := NextMaintain(w, Tick).value;
    SameNet(w, w');
    if Retaining(w) {
      var s, s' := w.sup.value, w'.sup.value;
      var kept := s.retired.value;
      if s'.lastTick > s'.retired.value.lastBusy && w.now >= kept.since + FRESH + w.net.lag {
        QuietLook(w, w.now);
        var r := KeptRevision(w);
        if s.lastTick > kept.lastBusy && s.lastTick >= kept.since + FRESH + w.net.lag {
          GrantsByLater(w, r, LastUpload(s, w.net.lag), LastUpload(s', w.net.lag));
        } else {
          assert w.now <= s.lastTick + s'.gap;
          GrantsByLater(w, r, w.now, LastUpload(s', w.net.lag));
        }
      }
    }
  }

  lemma GrantsByLater(w: World, revision: nat, early: real, late: real)
    requires UploadGrantsBy(w, revision, early) && early <= late
    ensures UploadGrantsBy(w, revision, late)
  {
  }

  lemma QuietedTraffic(w: World, step: TrafficStep)
    requires Sound(w) && Issuance(w) && Sampled(w) && Quieted(w) && NextTraffic(w, step).Some?
    ensures Quieted(NextTraffic(w, step).value)
  {
    var w' := NextTraffic(w, step).value;
    if Retaining(w) {
      TrafficUndisturbed(w, step);
    }
    hide Sound, Issuance, Sampled, Reaches, MayDraw, NoUploadsTo, UploadGrantsBy, Gateway.Bump, Gateway.Drop, Selected;
    assert w'.sup == w.sup && w'.net.lag >= w.net.lag;
    if Retaining(w) && NoUploadsTo(w, KeptRevision(w))
       && UploadGrantsBy(w, KeptRevision(w), LastUpload(w.sup.value, w.net.lag)) {
      GrantsByLater(w', KeptRevision(w), LastUpload(w.sup.value, w.net.lag), LastUpload(w.sup.value, w'.net.lag));
    }
  }

  lemma QuietedFrame(w: World, w': World)
    requires Quieted(w) && w'.book == w.book && w'.net.lag == w.net.lag
    requires (w'.net.uploads == w.net.uploads && w'.net.flights == w.net.flights) || w'.net.uploads == map[]
    requires Retaining(w') ==>
               || w'.sup.value.lastTick == w'.sup.value.retired.value.lastBusy
               || (Retaining(w) && w'.sup.value.retired == w.sup.value.retired
                   && w'.sup.value.lastTick == w.sup.value.lastTick && w'.sup.value.gap == w.sup.value.gap)
    ensures Quieted(w')
  {
    SameNet(w, w');
    NoUploadsWhenDown(w');
    hide NoUploadsTo, UploadGrantsBy;
  }

  lemma QuietedUpdate(w: World, step: UpdateStep)
    requires Versioned(w) && Quieted(w) && NextUpdate(w, step).Some?
    ensures Quieted(NextUpdate(w, step).value)
  {
    hide Quieted, Routes, Numbered;
    QuietedFrame(w, NextUpdate(w, step).value);
  }

  lemma QuietedOthers(w: World, step: Step)
    requires Versioned(w) && Quieted(w) && Next(w, step).Some?
    requires step != Maintain(Tick) && !step.Traffic? && !step.Update?
    ensures Quieted(Next(w, step).value)
  {
    hide Quieted, Routes, Numbered, IsCounter;
    QuietedFrame(w, Next(w, step).value);
  }

  lemma QuietedStep(w: World, step: Step)
    requires Sound(w) && Issuance(w) && Clocked(w) && Sampled(w) && Witnessed(w) && Quieted(w) && Next(w, step).Some?
    ensures Quieted(Next(w, step).value)
  {
    hide NextBoot, NextUpdate, NextMaintain, NextTraffic, NextFault, Witnessed, Sampled, Issuance, Quieted, Clocked;
    hide Versioned, Fleet, Routed, Certified;
    if step.Traffic? {
      QuietedTraffic(w, step.traffic);
    } else if step == Maintain(Tick) {
      QuietedTick(w);
    } else if step.Update? {
      QuietedUpdate(w, step.update);
    } else {
      QuietedOthers(w, step);
    }
  }

  // ------------------------------------------------------------- every run

  ghost predicate Steady(w: World)
  {
    Sound(w) && Issuance(w) && Clocked(w) && Windowed(w) && Sampled(w) && Witnessed(w) && Quieted(w)
  }

  lemma SoundStep(w: World, step: Step)
    requires Sound(w) && Next(w, step).Some?
    ensures Sound(Next(w, step).value)
  {
    hide Versioned, Fleet, Routed, Certified, Next;
    VersionedStep(w, step);
    FleetStep(w, step);
    RoutedStep(w, step);
    CertifiedStep(w, step);
  }

  lemma SteadyStep(w: World, step: Step)
    requires Steady(w) && Next(w, step).Some?
    ensures Steady(Next(w, step).value)
  {
    hide Sound, Issuance, Clocked, Windowed, Sampled, Witnessed, Quieted, Next;
    SoundStep(w, step);
    IssuanceStep(w, step);
    ClockedStep(w, step);
    WindowedStep(w, step);
    SampledStep(w, step);
    WitnessedStep(w, step);
    QuietedStep(w, step);
  }

  lemma {:induction false} SteadyFrom(w: World, steps: seq<Step>)
    requires Steady(w) && Run(w, steps).Some?
    ensures Steady(Run(w, steps).value)
    decreases |steps|
  {
    hide Steady, Next;
    if steps != [] {
      SteadyStep(w, steps[0]);
      SteadyFrom(Next(w, steps[0]).value, steps[1..]);
    }
  }

  lemma SteadyRun(w0: World, steps: seq<Step>)
    requires Initial(w0) && Run(w0, steps).Some?
    ensures Steady(Run(w0, steps).value)
  {
    InitialSound(w0);
    NothingCounted();
    SteadyFrom(w0, steps);
  }

  // ------------------------------------------------------------- timed retirement

  /** The look of `maintain` at `w` drops the retained worker from the table. */
  ghost predicate Retires(w: World)
  {
    && NextMaintain(w, Tick).Some? && w.sup.value.retired.Some?
    && NextMaintain(w, Tick).value.sup.value.phase.Retiring?
  }

  lemma UploadsAreOver(w: World)
    requires Steady(w) && Retires(w)
    ensures var s' := NextMaintain(w, Tick).value.sup.value;
            && UploadGrantsBy(w, KeptRevision(w), w.now - QUIET + s'.gap + FRESH + w.net.lag)
            && (w.net.lag <= RETAIN - FRESH ==> NoUploadsTo(w, KeptRevision(w)))
  {
    hide NoUploadsTo, UploadGrantsBy, Gateway.Counted, Routes, Sound, Windowed, Witnessed;
    var w' := NextMaintain(w, Tick).value;
    var s' := w'.sup.value;
    SameNet(w', w);
    if w.net.lag <= RETAIN - FRESH {
      QuietedTick(w);
      GrantsByLater(w, KeptRevision(w), LastUpload(s', w.net.lag), w.now - QUIET + s'.gap + FRESH + w.net.lag);
    } else {
      GrantsArePast(w);
      GrantsByLater(w, KeptRevision(w), w.now, w.now - QUIET + s'.gap + FRESH + w.net.lag);
    }
  }

  /**
   * Timed retirement. When the table drops the old generation, every challenge and
   * every proof-paid grant it issued has reached its `expires_at`; no upload to it is
   * in flight; and a grant from an upload is cut at most D + 5 seconds early, where
   * `gap` is the longest pause D between looks since the cutover and `lag` how far
   * the statistics file's mtime trails the counters.
   */
  lemma TimedRetirement(w0: World, steps: seq<Step>)
    requires Initial(w0) && Run(w0, steps).Some? && Retires(Run(w0, steps).value)
    ensures var w := Run(w0, steps).value;
            var s' := NextMaintain(w, Tick).value.sup.value;
            var r := w.sup.value.retired.value.generation.revision;
            && (forall key :: key in w.book.challenges && w.book.challenges[key].generation.revision == r ==>
                  w.book.challenges[key].expires < w.now.Floor)
            && (forall key :: key in w.book.grants && w.book.grants[key].generation.revision == r ==>
                  if w.book.grants[key].proof then w.book.grants[key].expires <= w.now.Floor
                  else w.book.grants[key].expires as real <= w.now + s'.gap + FRESH + w.net.lag)
            && (w.net.lag <= RETAIN - FRESH ==>
                  forall id :: id in w.net.uploads && id in w.net.flights ==> w.net.flights[id] != r)
  {
    hide Sound, Clocked, Sampled, Witnessed, Quieted, Routes, Run;
    SteadyRun(w0, steps);
    var w := Run(w0, steps).value;
    UploadsAreOver(w);
    var since := w.sup.value.retired.value.since;
    assert w.now.Floor >= since.Floor + 780;
    GrantsRunTenMinutes(w);
  }

  lemma GrantsRunTenMinutes(w: World)
    requires Issuance(w)
    ensures forall key :: key in w.book.grants ==> w.book.grants[key].expires == w.book.grants[key].at.Floor + 600
  {
    hide Kept;
  }

  /**
   * A challenge until it expires, a proof-paid grant strictly before its last second, and a
   * grant from an upload; the last, while an old worker drains, only as long as it has more
   * than D + 5 seconds and the lag of the statistics file left.
   */
  predicate InTime(w: World, request: Gateway.Continuation, issue: Issue)
  {
    if request.ProveWith? then w.now.Floor <= issue.expires
    else if issue.proof then w.now.Floor < issue.expires
    else
      w.sup.Some? && w.sup.value.phase.Retiring? ==>
        && w.net.lag <= RETAIN - FRESH
        && issue.expires as real > w.now + w.sup.value.gap + FRESH + w.net.lag
  }

  function IssueOf(w: World, request: Gateway.Continuation): Option<Issue>
  {
    if request.ProveWith? then
      if request.nonce in w.book.challenges then Some(w.book.challenges[request.nonce]) else None
    else if request.token in w.book.grants then Some(w.book.grants[request.token]) else None
  }

  /**
   * While its issuer lives, every token in time is routed to the very process that issued
   * it: across cutover, retirement, draining and rollback.
   */
  lemma UnexpiredTokensReachTheirIssuer(w0: World, steps: seq<Step>, request: Gateway.Continuation)
    requires Initial(w0) && Run(w0, steps).Some?
    requires var w := Run(w0, steps).value;
             w.net.up && IssueOf(w, request).Some? && InTime(w, request, IssueOf(w, request).value)
    requires var w := Run(w0, steps).value; IssueOf(w, request).value.process in w.live
    ensures var w := Run(w0, steps).value;
            Reaches(w, request.Path(), request.Body(), IssueOf(w, request).value.process)
  {
    hide Run, Sampled, Witnessed, Quieted;
    SteadyRun(w0, steps);
    var w := Run(w0, steps).value;
    var issue := IssueOf(w, request).value;
    assert Kept(w, request.Token(), issue);
    IssuerIsNamed(w, issue, request);
    NamedIssuerIsReached(w, issue, request);
  }

  lemma IssuerIsNamed(w: World, issue: Issue, request: Gateway.Continuation)
    requires Steady(w) && w.net.up && Kept(w, request.Token(), issue) && issue.process in w.live
    requires IssueOf(w, request) == Some(issue) && InTime(w, request, issue)
    ensures w.disk.routes.Some? && issue.generation.revision in w.disk.routes.value.targets
    ensures w.disk.routes.value.targets[issue.generation.revision] == issue.generation.port
  {
    hide Tokens.TagToken, Numbered, Certified, IsRandomToken, Issuance, Sampled, Witnessed, NoUploadsTo;
    if request.DownloadWith? && !issue.proof && w.sup.value.phase.Retiring?
       && issue.generation.revision == KeptRevision(w) {
      DrainingOutlasts(w, request.token);
    }
    hide Quieted;
  }

  /** While the old worker drains, each of its grants from an upload is nearly over. */
  lemma DrainingOutlasts(w: World, token: string)
    requires Steady(w) && token in w.book.grants && !w.book.grants[token].proof
    requires w.sup.Some? && w.sup.value.phase.Retiring? && w.sup.value.retired.Some? && w.net.lag <= RETAIN - FRESH
    requires w.book.grants[token].generation.revision == w.sup.value.retired.value.generation.revision
    ensures w.book.grants[token].expires as real <= w.now + w.sup.value.gap + FRESH + w.net.lag
  {
    hide Sound, Windowed, Witnessed, NoUploadsTo;
    GrantsRunTenMinutes(w);
  }
}
