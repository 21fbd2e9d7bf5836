/** The routing and counting results, stated over every run from every first start. */
module DeploymentTheorems {
  import opened Wrappers
  import opened Tokens
  import opened Supervisor
  import opened Deployment
  import opened DeploymentVersions
  import opened DeploymentFleet
  import opened DeploymentSafety
  import opened DeploymentTokens
  import opened DeploymentRetirement
  import Gateway

  /**
   * A proof or a download bearing a token issued at any time in the run, tagged or not, is
   * forwarded to the generation that issued it or not at all, whatever crashes, cutovers,
   * retirements and rollbacks lie between.
   */
  lemma TokensNeverReachAnotherGeneration(w0: World, steps: seq<Step>, request: Gateway.Continuation)
    requires Initial(w0) && Run(w0, steps).Some?
    requires Run(w0, steps).value.net.up
    ensures var w := Run(w0, steps).value;
            && w.disk.routes.Some?
            && var d := Gateway.Select(Gateway.Table(w.disk.routes.value), request.Path(), request.Body());
               && (d.Forward? && request.Token() in w.book.challenges ==>
                     d.revision == w.book.challenges[request.Token()].generation.revision)
               && (d.Forward? && request.Token() in w.book.grants ==>
                     d.revision == w.book.grants[request.Token()].generation.revision)
  {
    hide Run, Kept, Gateway.Select, Clocked, Windowed, Sampled, Witnessed, Quieted;
    SteadyRun(w0, steps);
    var w := Run(w0, steps).value;
    if request.Token() in w.book.challenges {
      NeverAnotherGeneration(w, w.book.challenges[request.Token()], request);
    }
    if request.Token() in w.book.grants {
      NeverAnotherGeneration(w, w.book.grants[request.Token()], request);
    }
    LegacyIsOrigin(w);
  }

  /** A live worker's next token, over a value not drawn before in the run, has a key that was never issued. */
  lemma FreshKeysAreNew(w0: World, steps: seq<Step>, process: nat, raw: string)
    requires Initial(w0) && Run(w0, steps).Some?
    requires process in Run(w0, steps).value.live && MayDraw(Run(w0, steps).value, raw)
    ensures var w := Run(w0, steps).value;
            var key := TagToken(Tag(w.live[process]), raw);
            key !in w.book.challenges && key !in w.book.grants
  {
    hide Run, TagToken, MayDraw, Issuance, Clocked, Windowed, Sampled, Witnessed, Quieted;
    SteadyRun(w0, steps);
    var w := Run(w0, steps).value;
    LiveIsInPlay(w, process);
    FreshKeyIsNew(w, w.live[process], raw);
  }

  lemma LiveIsInPlay(w: World, process: nat)
    requires Sound(w) && process in w.live
    ensures InPlay(w, w.live[process].revision)
  {
    hide Routed, Certified, Numbered;
  }

  /**
   * In every reachable state uploads and challenges reach only the process that serves the
   * generation the supervisor has made active, or is rolling back to: never a candidate, and
   * never a worker retained beside another.
   */
  lemma NewWorkReachesOneWorker(w0: World, steps: seq<Step>, path: string, body: Gateway.ProofBody, process: nat)
    requires Initial(w0) && Run(w0, steps).Some?
    requires path in [Gateway.PATCH, Gateway.CHALLENGE] && Reaches(Run(w0, steps).value, path, body, process)
    ensures var w := Run(w0, steps).value;
            w.sup.Some? && w.live[process] == Receiver(w.sup.value)
  {
    hide Run, Sound, Reaches;
    InitialSound(w0);
    SoundRun(w0, steps);
    NewWorkReachesReceiver(Run(w0, steps).value, path, body, process);
  }

  /**
   * In every reachable state with a retained worker, the counters now, a snapshot being
   * written and the statistics file are all conclusive: if they were read after the cutover
   * and count nothing for the old generation, its uploads are over and their grants past.
   */
  lemma SnapshotsAreConclusive(w0: World, steps: seq<Step>)
    requires Initial(w0) && Run(w0, steps).Some? && Retaining(Run(w0, steps).value)
    ensures var w := Run(w0, steps).value;
            && Conclusive(w, w.net.counts, w.now)
            && (w.net.pending.Some? ==> Conclusive(w, w.net.pending.value.counts, w.net.pending.value.takenAt))
            && (w.net.stats.Some? ==> Conclusive(w, w.net.stats.value.counts, w.net.takenAt))
  {
    hide Run, Sound, Conclusive, Clocked, Windowed, Quieted;
    SteadyRun(w0, steps);
    TakenIsConclusive(Run(w0, steps).value);
  }
}
