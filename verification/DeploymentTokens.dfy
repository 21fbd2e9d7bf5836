/** Where every issued token can still be used, over every run. */
module DeploymentTokens {
  import opened Wrappers
  import opened Tokens
  import opened Supervisor
  import opened Deployment
  import opened DeploymentVersions
  import opened DeploymentFleet
  import opened DeploymentSafety
  import Gateway
  import Version

  /** A token's record is true to its issuer, which is not the generation still being tried. */
  ghost predicate Kept(w: World, key: string, issue: Issue)
  {
    && key == TagToken(Tag(issue.generation), issue.raw) && IsRandomToken(issue.raw) && issue.raw in w.book.drawn
    && issue.at <= w.now && issue.process < w.log.processes
    && (issue.process in w.live ==> w.live[issue.process] == issue.generation)
    && InPlay(w, issue.generation.revision)
    && (issue.generation.blue || issue.generation.revision == w.log.origin)
    && (w.sup.Some? ==> NewRevision(w.sup.value.phase) != Some(issue.generation.revision))
  }

  ghost predicate ChallengesKept(w: World)
  {
    forall key :: key in w.book.challenges ==>
      Kept(w, key, w.book.challenges[key])
      && w.book.challenges[key].expires == w.book.challenges[key].at.Floor + 180
  }

  ghost predicate GrantsKept(w: World)
  {
    forall key :: key in w.book.grants ==>
      Kept(w, key, w.book.grants[key]) && w.book.grants[key].expires == w.book.grants[key].at.Floor + 600
  }

  /** An upload runs on the generation it is counted for. */
  ghost predicate UploadsKept(w: World)
  {
    forall id :: id in w.net.uploads ==>
      && id in w.net.flights && w.net.uploads[id] < w.log.processes
      && (w.net.uploads[id] in w.live ==> w.live[w.net.uploads[id]].revision == w.net.flights[id])
      && InPlay(w, w.net.flights[id])
      && (w.sup.Some? ==> NewRevision(w.sup.value.phase) != Some(w.net.flights[id]))
  }

  ghost predicate Issuance(w: World)
  {
    ChallengesKept(w) && GrantsKept(w) && UploadsKept(w)
  }

  /** The generation the table sends new work to. */
  function Receiver(s: Sup): Generation
  {
    if s.phase.RollingBack? && s.retired.Some? then s.retired.value.generation else s.active
  }

  /** New work reaches only the receiver's own process. */
  lemma NewWorkReachesReceiver(w: World, path: string, body: Gateway.ProofBody, process: nat)
    requires Sound(w) && Reaches(w, path, body, process) && path in [Gateway.PATCH, Gateway.CHALLENGE]
    ensures w.sup.Some? && w.live[process] == Receiver(w.sup.value)
    ensures Selected(w, path, body) == Receiver(w.sup.value).revision
    ensures NewRevision(w.sup.value.phase) != Some(Receiver(w.sup.value).revision)
    ensures Receiver(w.sup.value).blue || Receiver(w.sup.value).revision == w.log.origin
    ensures InPlay(w, Receiver(w.sup.value).revision)
  {
    hide Gateway.Select, Numbered, Certified;
    Gateway.NewWorkReachesActive(w.disk.routes.value, path, body);
  }

  /** What a step leaves of the records kept before it. */
  ghost predicate Continues(w: World, w': World)
  {
    && w.now <= w'.now && w.log.processes <= w'.log.processes && w.book.drawn <= w'.book.drawn
    && w.disk.generations <= w'.disk.generations && w'.log.origin == w.log.origin
    && (forall p :: p in w'.live && p < w.log.processes ==> p in w.live && w'.live[p] == w.live[p])
    && (w'.sup.Some? && NewRevision(w'.sup.value.phase).Some? ==>
          || !InPlay(w, NewRevision(w'.sup.value.phase).value)
          || (w.sup.Some? && NewRevision(w.sup.value.phase) == NewRevision(w'.sup.value.phase)))
  }

  lemma KeptLater(w: World, w': World, key: string, issue: Issue)
    requires Kept(w, key, issue) && Continues(w, w')
    ensures Kept(w', key, issue)
  {
    hide TagToken, IsRandomToken;
  }

  lemma IssuanceContinues(w: World, w': World)
    requires Issuance(w) && Continues(w, w')
    requires w'.book.challenges == w.book.challenges && w'.book.grants == w.book.grants
    requires w'.net.uploads == w.net.uploads && w'.net.flights == w.net.flights
    ensures Issuance(w')
  {
    hide Kept;
    forall key | key in w.book.challenges ensures Kept(w', key, w.book.challenges[key]) {
      KeptLater(w, w', key, w.book.challenges[key]);
    }
    forall key | key in w.book.grants ensures Kept(w', key, w.book.grants[key]) {
      KeptLater(w, w', key, w.book.grants[key]);
    }
  }

  lemma ContinuesBoot(w: World, step: BootStep)
    requires Versioned(w) && Fleet(w) && NextBoot(w, step).Some?
    ensures Continues(w, NextBoot(w, step).value)
  {
    hide Routes, IsCounter, Increasing;
  }

  lemma ContinuesUpdate(w: World, step: UpdateStep)
    requires Versioned(w) && Fleet(w) && NextUpdate(w, step).Some?
    ensures Continues(w, NextUpdate(w, step).value)
  {
    hide Routes, Increasing;
    if step.Stage? && w.sup.Some? && !w.sup.value.phase.Booting? {
      NextIsUnused(w, step.compiled);
    }
  }

  lemma ContinuesMaintain(w: World, step: MaintainStep)
    requires Versioned(w) && Fleet(w) && NextMaintain(w, step).Some?
    ensures Continues(w, NextMaintain(w, step).value)
  {
    hide Routes, Increasing, MayRetire, IsFresh, IsBusy;
  }

  lemma IssuanceFault(w: World, step: FaultStep)
    requires Issuance(w) && NextFault(w, step).Some?
    ensures Issuance(NextFault(w, step).value)
  {
    var w' := NextFault(w, step).value;
    var still := w'.(net := w.net);
    assert Continues(w, still);
    IssuanceContinues(w, still);
    hide Kept;
    forall key | key in w.book.challenges ensures Kept(w', key, w.book.challenges[key]) {
      KeptLater(still, w', key, w.book.challenges[key]);
    }
    forall key | key in w.book.grants ensures Kept(w', key, w.book.grants[key]) {
      KeptLater(still, w', key, w.book.grants[key]);
    }
  }

  // ------------------------------------------------------------- issuing

  /** A live process that receives work issues well-kept tokens. */
  lemma FreshIssueKept(w: World, process: nat, raw: string, ttl: int, proof: bool)
    requires Fleet(w) && process in w.live && MayDraw(w, raw)
    requires InPlay(w, w.live[process].revision) && (w.live[process].blue || w.live[process].revision == w.log.origin)
    requires w.sup.Some? ==> NewRevision(w.sup.value.phase) != Some(w.live[process].revision)
    ensures var w' := w.(book := w.book.(drawn := w.book.drawn + {raw}));
            Kept(w', TagToken(Tag(w.live[process]), raw), Issued(w, process, raw, ttl, proof))
  {
    hide TagToken, IsRandomToken, Routes;
  }

  lemma IssuanceAsk(w: World, step: TrafficStep)
    requires Sound(w) && Issuance(w) && step.Ask? && NextTraffic(w, step).Some?
    ensures Issuance(NextTraffic(w, step).value)
  {
    hide Sound, Reaches, MayDraw, Kept, TagToken, Fleet;
    var w' := NextTraffic(w, step).value;
    SoundFleet(w);
    ReachedIsLive(w, Gateway.CHALLENGE, Gateway.Malformed, step.process);
    NewWorkReachesReceiver(w, Gateway.CHALLENGE, Gateway.Malformed, step.process);
    var mid := w.(book := w.book.(drawn := w.book.drawn + {step.raw}));
    IssuanceContinues(w, mid);
    FreshIssueKept(w, step.process, step.raw, 180, false);
    SameKept(mid, w');
  }

  lemma SoundFleet(w: World)
    requires Sound(w)
    ensures Fleet(w)
  {
  }

  /** Records read only the values drawn from the book. */
  lemma SameKept(w: World, w': World)
    requires w' == w.(book := w'.book, net := w'.net) && w'.book.drawn == w.book.drawn
    ensures forall key, issue :: Kept(w, key, issue) ==> Kept(w', key, issue)
  {
    hide TagToken, IsRandomToken;
  }

  lemma IssuanceProve(w: World, step: TrafficStep)
    requires Sound(w) && Issuance(w) && step.Prove? && NextTraffic(w, step).Some?
    ensures Issuance(NextTraffic(w, step).value)
  {
    hide Sound, Reaches, MayDraw, TagToken, Fleet;
    var w' := NextTraffic(w, step).value;
    SoundFleet(w);
    ReachedIsLive(w, Gateway.PROVE, Gateway.Proof(Some(step.key)), step.process);
    var c := w.book.challenges[step.key];
    assert Kept(w, step.key, c);
    var mid := w.(book := w.book.(drawn := w.book.drawn + {step.raw}));
    IssuanceContinues(w, mid);
    FreshIssueKept(w, step.process, step.raw, 600, true);
    hide Kept;
    SameKept(mid, w');
  }

  lemma ReachedIsLive(w: World, path: string, body: Gateway.ProofBody, process: nat)
    requires Reaches(w, path, body, process)
    ensures process in w.live
  {
  }

  lemma LiveIsTagged(w: World, process: nat)
    requires Fleet(w) && process in w.live
    ensures w.live[process].blue || w.live[process].revision == w.log.origin
  {
    hide Routes;
  }

  lemma IssuanceFinish(w: World, step: TrafficStep)
    requires Sound(w) && Issuance(w) && step.FinishUpload? && NextTraffic(w, step).Some?
    ensures Issuance(NextTraffic(w, step).value)
  {
    hide Sound, MayDraw, TagToken, Fleet, Kept;
    var w' := NextTraffic(w, step).value;
    SoundFleet(w);
    LiveIsTagged(w, w.net.uploads[step.id]);
    var mid := w.(book := w.book.(drawn := w.book.drawn + {step.raw}));
    IssuanceContinues(w, mid);
    FreshIssueKept(w, w.net.uploads[step.id], step.raw, 600, false);
    SameKept(mid, w');
  }

  lemma IssuanceUpload(w: World, step: TrafficStep)
    requires Sound(w) && Issuance(w) && step.StartUpload? && NextTraffic(w, step).Some?
    ensures Issuance(NextTraffic(w, step).value)
  {
    hide Sound, Reaches, Kept, Fleet, Gateway.Bump, Selected;
    var w' := NextTraffic(w, step).value;
    SoundFleet(w);
    ReachedIsLive(w, Gateway.PATCH, Gateway.Malformed, step.process);
    NewWorkReachesReceiver(w, Gateway.PATCH, Gateway.Malformed, step.process);
    LiveIsNumbered(w, step.process);
    SameKept(w, w');
  }

  lemma LiveIsNumbered(w: World, process: nat)
    requires Fleet(w) && process in w.live
    ensures process < w.log.processes
  {
  }

  lemma IssuanceOther(w: World, step: TrafficStep)
    requires Issuance(w) && NextTraffic(w, step).Some?
    requires step.StartDownload? || step.End? || step.Take? || step.Post?
    ensures Issuance(NextTraffic(w, step).value)
  {
    hide Reaches, Kept, Gateway.Bump, Gateway.Drop, Selected;
    SameKept(w, NextTraffic(w, step).value);
  }

  lemma IssuanceStep(w: World, step: Step)
    requires Sound(w) && Issuance(w) && Next(w, step).Some?
    ensures Issuance(Next(w, step).value)
  {
    hide Issuance, Continues, NextBoot, NextUpdate, NextMaintain, NextTraffic, NextFault;
    match step
    case Boot(b) => ContinuesBoot(w, b); BootFrame(w, b); IssuanceContinues(w, Next(w, step).value);
    case Update(u) => ContinuesUpdate(w, u); UpdateFrame(w, u); IssuanceContinues(w, Next(w, step).value);
    case Maintain(m) => ContinuesMaintain(w, m); MaintainFrame(w, m); IssuanceContinues(w, Next(w, step).value);
    case Traffic(t) =>
      if t.Ask? { IssuanceAsk(w, t); }
      else if t.Prove? { IssuanceProve(w, t); }
      else if t.FinishUpload? { IssuanceFinish(w, t); }
      else if t.StartUpload? { IssuanceUpload(w, t); }
      else { IssuanceOther(w, t); }
    case Fault(f) => IssuanceFault(w, f);
    case Advance(dt) => AdvanceContinues(w, dt); IssuanceContinues(w, Next(w, step).value);
  }

  lemma AdvanceContinues(w: World, dt: real)
    requires dt >= 0.0
    ensures Continues(w, w.(now := w.now + dt))
  {
  }

  lemma BootFrame(w: World, step: BootStep)
    requires NextBoot(w, step).Some?
    ensures var w' := NextBoot(w, step).value;
            w'.book == w.book && w'.net.uploads == w.net.uploads && w'.net.flights == w.net.flights
  {
    hide Routes, IsCounter;
  }

  lemma UpdateFrame(w: World, step: UpdateStep)
    requires NextUpdate(w, step).Some?
    ensures var w' := NextUpdate(w, step).value; w'.book == w.book && w'.net == w.net
  {
    hide Routes;
  }

  lemma MaintainFrame(w: World, step: MaintainStep)
    requires NextMaintain(w, step).Some?
    ensures var w' := NextMaintain(w, step).value; w'.book == w.book && w'.net == w.net
  {
    hide Routes, MayRetire, Observed;
  }

  // ------------------------------------------------------------- routing

  /** No two tokens share a key: a freshly drawn value never overwrites a record. */
  lemma FreshKeyIsNew(w: World, g: Generation, raw: string)
    requires Versioned(w) && Issuance(w) && MayDraw(w, raw) && InPlay(w, g.revision)
    ensures TagToken(Tag(g), raw) !in w.book.challenges && TagToken(Tag(g), raw) !in w.book.grants
  {
    forall key, issue | Kept(w, key, issue) ensures key != TagToken(Tag(g), raw) {
      SameKeySameValue(w, g, raw, issue);
    }
  }

  lemma SameKeySameValue(w: World, g: Generation, raw: string, issue: Issue)
    requires Versioned(w) && InPlay(w, g.revision) && InPlay(w, issue.generation.revision)
    requires IsRandomToken(raw) && IsRandomToken(issue.raw)
    ensures TagToken(Tag(g), raw) == TagToken(Tag(issue.generation), issue.raw) ==> raw == issue.raw
  {
    if g.blue {
      TagRoundTrip(g.revision, raw);
    } else {
      HexIsUntagged(raw);
    }
    if issue.generation.blue {
      TagRoundTrip(issue.generation.revision, issue.raw);
    } else {
      HexIsUntagged(issue.raw);
    }
  }

  /**
   * A proof or a download with an issued token is never forwarded to another
   * generation, whatever crashes, cutovers and rollbacks lie between.
   */
  lemma NeverAnotherGeneration(w: World, issue: Issue, request: Gateway.Continuation)
    requires Sound(w) && w.net.up && Kept(w, request.Token(), issue)
    ensures w.disk.routes.Some?
    ensures var d := Gateway.Select(Gateway.Table(w.disk.routes.value), request.Path(), request.Body());
            d.Forward? ==> d.revision == issue.generation.revision
  {
    hide Gateway.Select, TagToken, TokenRevision, Numbered, Certified;
    var table := w.disk.routes.value;
    if issue.generation.blue {
      RevisionInRange(w, issue.generation.revision);
      Gateway.ContinuationReachesIssuer(table, issue.generation.revision, issue.raw, request);
    } else {
      HexIsUntagged(issue.raw);
      Untagged(issue);
      Gateway.UntaggedReachesLegacyOnly(table, request);
      LegacyIsOrigin(w);
    }
  }

  lemma Untagged(issue: Issue)
    requires !issue.generation.blue
    ensures TagToken(Tag(issue.generation), issue.raw) == issue.raw
  {
  }

  lemma LegacyIsOrigin(w: World)
    requires Sound(w) && w.net.up
    ensures w.disk.routes.Some?
    ensures w.disk.routes.value.legacy.Some? ==> (w.disk.routes.value.legacy == Some(w.log.origin))
  {
    hide Numbered, Certified;
  }

  lemma RevisionInRange(w: World, revision: nat)
    requires Versioned(w) && InPlay(w, revision)
    ensures revision <= U32_MAX
  {
  }

  /** A live issuer named by the table gets its own tokens back. */
  lemma NamedIssuerIsReached(w: World, issue: Issue, request: Gateway.Continuation)
    requires Sound(w) && w.net.up && Kept(w, request.Token(), issue) && issue.process in w.live
    requires w.disk.routes.Some? && issue.generation.revision in w.disk.routes.value.targets
    requires w.disk.routes.value.targets[issue.generation.revision] == issue.generation.port
    ensures Reaches(w, request.Path(), request.Body(), issue.process)
  {
    hide TagToken, TokenRevision, Numbered, Certified, Gateway.Select, IsRandomToken;
    var table := w.disk.routes.value;
    assert issue.generation.port != 0;
    if issue.generation.blue {
      RevisionInRange(w, issue.generation.revision);
      TaggedPathAllowed(w, issue, request);
      Gateway.ContinuationReachesIssuer(table, issue.generation.revision, issue.raw, request);
    } else {
      LegacyReached(w, issue, request);
    }
  }

  lemma TaggedPathAllowed(w: World, issue: Issue, request: Gateway.Continuation)
    requires Versioned(w) && Kept(w, request.Token(), issue)
    ensures Gateway.AllowedPath(request.Path())
  {
    hide TagToken, IsRandomToken;
    RevisionInRange(w, issue.generation.revision);
    if request.DownloadWith? {
      Gateway.IssuedTokenPathAllowed(Tag(issue.generation), issue.raw);
    }
  }

  lemma LegacyReached(w: World, issue: Issue, request: Gateway.Continuation)
    requires Sound(w) && w.net.up && Kept(w, request.Token(), issue) && issue.process in w.live
    requires !issue.generation.blue
    requires w.disk.routes.Some? && issue.generation.revision in w.disk.routes.value.targets
    requires w.disk.routes.value.targets[issue.generation.revision] == issue.generation.port
    ensures Reaches(w, request.Path(), request.Body(), issue.process)
  {
    hide Numbered, Certified;
    TaggedPathAllowed(w, issue, request);
    HexIsUntagged(issue.raw);
    hide IsRandomToken, TokenRevision, Gateway.AllowedPath;
    assert w.disk.routes.value.legacy == Some(issue.generation.revision);
    if request.DownloadWith? {
      Gateway.DownloadPathIsNotFixed(request.token);
    }
  }
}
