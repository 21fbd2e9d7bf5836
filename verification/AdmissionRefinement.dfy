/**
 * The shared, bounded, swept ledger against one machine per address that is never swept and
 * sees only its own events: same answers, as long as failures are reported in time.
 */
module AdmissionRefinement {
  import opened Wrappers
  import opened Admission
  import opened AdmissionRuns
  import opened AdmissionBans
  import opened AdmissionRates

  // ------------------------------------------------------------ the private machine

  /** A private machine remembers its client forever; None before the first attempt. */
  type Own = Option<Client>

  predicate Concerns(step: Step, ip: Ip)
  {
    match step
    case Arrive(i, _, _) => i == ip
    case Report(i, _, _) => i == ip
    case Depart(i) => i == ip
    case _ => false
  }

  function OwnStep(cfg: Config, own: Own, step: Step): (Own, Option<Outcome>)
    requires cfg.Valid()
  {
    match step
    case Arrive(_, class_, now) =>
      var (c, o) := AdmitClient(cfg, if own.Some? then own.value else NewClient(cfg, now), class_, now);
      (Some(c), Some(o))
    case Report(_, status, now) =>
      (if own.Some? && Counts(status) then Some(FailClient(cfg, own.value, now)) else own, None)
    case Depart(_) => (if own.Some? then Some(LeaveClient(own.value)) else own, None)
    case _ => (own, None)
  }

  /** The event reaches the private machine: it is its own and was not refused for capacity. */
  predicate Feeds(step: Step, outcome: Option<Outcome>, ip: Ip)
  {
    Concerns(step, ip) && outcome != Some(CapacityReached)
  }

  /** Both give the same outcome to every event of `ip` that got past the capacity check. */
  ghost predicate Agree(cfg: Config, s: Server, own: Own, ip: Ip, steps: seq<Step>)
    requires cfg.Valid() && Legal(cfg, s, steps)
    decreases |steps|
  {
    steps != [] ==>
      var (s', outcome) := Do(cfg, s, steps[0]);
      if Feeds(steps[0], outcome, ip) then
        var (own', outcome') := OwnStep(cfg, own, steps[0]);
        outcome == outcome' && Agree(cfg, s', own', ip, steps[1..])
      else Agree(cfg, s', own, ip, steps[1..])
  }

  /**
   * How long after a client's last attempt its failure may still open a window: such a window
   * is over before the client can be forgotten. For windows of 600 s or more this is 60 s.
   */
  function Grace(cfg: Config): real { cfg.TimeToLive() - cfg.failureWindow as real }

  /** Each counted failure of `ip` is reported within the grace after the last attempt its machine saw. */
  ghost predicate Timely(cfg: Config, s: Server, own: Own, ip: Ip, steps: seq<Step>)
    requires cfg.Valid() && Legal(cfg, s, steps)
    decreases |steps|
  {
    steps != [] ==>
      var (s', outcome) := Do(cfg, s, steps[0]);
      && (steps[0].Report? && steps[0].ip == ip && Counts(steps[0].status) && own.Some? ==>
            steps[0].now <= own.value.lastSeen + Grace(cfg))
      && Timely(cfg, s', if Feeds(steps[0], outcome, ip) then OwnStep(cfg, own, steps[0]).0 else own, ip, steps[1..])
  }

  // ------------------------------------------------------------ equivalence of clients

  /** Two buckets that show the same tokens at every time from `t` on. */
  predicate SameBucket(b: Bucket, b': Bucket, cap: nat, period: nat, t: real)
    requires period > 0
  {
    b == b' || (Full(b, cap, period, t) && Full(b', cap, period, t))
  }

  predicate Full(b: Bucket, cap: nat, period: nat, t: real)
    requires period > 0
  {
    Refilled(b, cap, period, t) == cap as real
  }

  lemma FullStaysFull(b: Bucket, cap: nat, period: nat, t: real, now: real)
    requires period > 0 && t <= now && Full(b, cap, period, t)
    ensures Full(b, cap, period, now)
  {
    hide Gain;
    GainMonotone(Since(b.updated, t), Since(b.updated, now), cap, period);
  }

  lemma SameBucketTakesSame(b: Bucket, b': Bucket, cap: nat, period: nat, t: real, now: real)
    requires cap > 0 && period > 0 && t <= now && SameBucket(b, b', cap, period, t)
    ensures Take(b, cap, period, now) == Take(b', cap, period, now)
    ensures SameBucket(b, b', cap, period, now)
  {
    hide Refilled;
    if b != b' {
      FullStaysFull(b, cap, period, t, now);
      FullStaysFull(b', cap, period, t, now);
    }
  }

  /** The next counted failure will open a new window. */
  predicate Stale(cfg: Config, c: Client, t: real)
  {
    c.failures == 0 || Since(c.failureStart, t) >= cfg.failureWindow as real
  }

  ghost predicate SameBuckets(cfg: Config, c: Client, o: Client, t: real)
  {
    forall k: Class :: SameBucket(c.buckets.Get(k), o.buckets.Get(k), cfg.Cap(k), Period(k), t)
  }

  /** Clients no event from `t` on can tell apart. */
  ghost predicate Equivalent(cfg: Config, c: Client, o: Client, t: real)
  {
    && c.inFlight == o.inFlight && c.lastSeen == o.lastSeen && c.bannedUntil == o.bannedUntil
    && ((c.failures == o.failures && c.failureStart == o.failureStart) || (Stale(cfg, c, t) && Stale(cfg, o, t)))
    && SameBuckets(cfg, c, o, t)
  }

  /** A client that a new one can stand in for: idle, unbanned, refilled, its failures spent. */
  ghost predicate Dormant(cfg: Config, o: Client, t: real)
  {
    && o.inFlight == 0
    && (o.bannedUntil.Some? ==> o.bannedUntil.value <= t)
    && (o.bannedUntil.Some? || Stale(cfg, o, t))
    && forall k: Class :: Full(o.buckets.Get(k), cfg.Cap(k), Period(k), t)
  }

  lemma ChargeSame(cfg: Config, c: Client, o: Client, k: Class, t: real, now: real)
    requires cfg.Valid() && t <= now && SameBuckets(cfg, c, o, t)
    ensures Charge(cfg, c, k, now).1 == Charge(cfg, o, k, now).1
    ensures SameBuckets(cfg, Charge(cfg, c, k, now).0, Charge(cfg, o, k, now).0, now)
  {
    hide Take, SameBucket;
    forall j: Class
      ensures Take(c.buckets.Get(j), cfg.Cap(j), Period(j), now) == Take(o.buckets.Get(j), cfg.Cap(j), Period(j), now)
      ensures SameBucket(c.buckets.Get(j), o.buckets.Get(j), cfg.Cap(j), Period(j), now)
    {
      SameBucketTakesSame(c.buckets.Get(j), o.buckets.Get(j), cfg.Cap(j), Period(j), t, now);
    }
    forall j: Class
      ensures SameBucket(Charge(cfg, c, k, now).0.buckets.Get(j), Charge(cfg, o, k, now).0.buckets.Get(j),
                         cfg.Cap(j), Period(j), now)
    {
      if j == k {
        SameIsSame(Take(c.buckets.Get(k), cfg.Cap(k), Period(k), now).0, cfg.Cap(k), Period(k), now);
      }
    }
  }

  lemma SameIsSame(b: Bucket, cap: nat, period: nat, t: real)
    requires period > 0
    ensures SameBucket(b, b, cap, period, t)
  {
  }

  lemma UnbannedSame(cfg: Config, c: Client, o: Client, class_: Class, now: real)
    requires cfg.Valid() && Equivalent(cfg, c, o, now)
    ensures AdmitUnbanned(cfg, c, class_, now).1 == AdmitUnbanned(cfg, o, class_, now).1
    ensures Equivalent(cfg, AdmitUnbanned(cfg, c, class_, now).0, AdmitUnbanned(cfg, o, class_, now).0, now)
  {
    hide Take, Stale, SameBucket;
    ChargeSame(cfg, c, o, General, now, now);
    var c1, o1 := Charge(cfg, c, General, now).0, Charge(cfg, o, General, now).0;
    StaleIgnoresBuckets(cfg, c, c1, now);
    StaleIgnoresBuckets(cfg, o, o1, now);
    ChargeSame(cfg, c1, o1, class_, now, now);
    var c2, o2 := Charge(cfg, c1, class_, now).0, Charge(cfg, o1, class_, now).0;
    StaleIgnoresBuckets(cfg, c1, c2, now);
    StaleIgnoresBuckets(cfg, o1, o2, now);
    StaleIgnoresBuckets(cfg, c1, c1.(inFlight := c1.inFlight + 1), now);
    StaleIgnoresBuckets(cfg, o1, o1.(inFlight := o1.inFlight + 1), now);
    StaleIgnoresBuckets(cfg, c2, c2.(inFlight := c2.inFlight + 1), now);
    StaleIgnoresBuckets(cfg, o2, o2.(inFlight := o2.inFlight + 1), now);
  }

  lemma StaleIgnoresBuckets(cfg: Config, c: Client, c': Client, t: real)
    requires c.failures == c'.failures && c.failureStart == c'.failureStart
    ensures Stale(cfg, c, t) == Stale(cfg, c', t)
  {
  }

  /** What the shared table holds for `ip` against what its private machine holds, from `t` on. */
  ghost predicate Related(cfg: Config, shared: Option<Client>, own: Own, t: real)
  {
    match (shared, own)
    case (None, None) => true
    case (None, Some(o)) => Dormant(cfg, o, t)
    case (Some(_), None) => false
    case (Some(c), Some(o)) => Equivalent(cfg, c, o, t)
  }

  lemma EquivalentLater(cfg: Config, c: Client, o: Client, t: real, now: real)
    requires cfg.Valid() && t <= now && Equivalent(cfg, c, o, t)
    ensures Equivalent(cfg, c, o, now)
  {
    hide Take;
    ChargeSame(cfg, c, o, General, t, now);
    forall k: Class
      ensures SameBucket(c.buckets.Get(k), o.buckets.Get(k), cfg.Cap(k), Period(k), now)
    {
      SameBucketTakesSame(c.buckets.Get(k), o.buckets.Get(k), cfg.Cap(k), Period(k), t, now);
    }
  }

  lemma DormantLater(cfg: Config, o: Client, t: real, now: real)
    requires cfg.Valid() && t <= now && Dormant(cfg, o, t)
    ensures Dormant(cfg, o, now)
  {
    hide Refilled;
    forall k: Class ensures Full(o.buckets.Get(k), cfg.Cap(k), Period(k), now) {
      FullStaysFull(o.buckets.Get(k), cfg.Cap(k), Period(k), t, now);
    }
  }

  lemma RelatedLater(cfg: Config, shared: Option<Client>, own: Own, t: real, now: real)
    requires cfg.Valid() && t <= now && Related(cfg, shared, own, t)
    ensures Related(cfg, shared, own, now)
  {
    hide Equivalent, Dormant;
    if own.Some? {
      if shared.Some? {
        EquivalentLater(cfg, shared.value, own.value, t, now);
      } else {
        DormantLater(cfg, own.value, t, now);
      }
    }
  }

  lemma SameBucketsRefl(cfg: Config, c: Client, c': Client, t: real)
    requires cfg.Valid() && c.buckets == c'.buckets
    ensures SameBuckets(cfg, c, c', t)
  {
  }

  /** An attempt gets the same answer from both sides and leaves them equivalent. */
  lemma AdmitSame(cfg: Config, shared: Option<Client>, own: Own, class_: Class, now: real)
    requires cfg.Valid() && Related(cfg, shared, own, now)
    ensures var c := if shared.Some? then shared.value else NewClient(cfg, now);
            var o := if own.Some? then own.value else NewClient(cfg, now);
            && AdmitClient(cfg, c, class_, now).1 == AdmitClient(cfg, o, class_, now).1
            && Equivalent(cfg, AdmitClient(cfg, c, class_, now).0, AdmitClient(cfg, o, class_, now).0, now)
  {
    hide AdmitUnbanned, SameBucket;
    var c := if shared.Some? then shared.value else NewClient(cfg, now);
    var o := if own.Some? then own.value else NewClient(cfg, now);
    SameBucketsRefl(cfg, c, c, now);
    if shared.None? && own.Some? {
      NewIsSameAsFull(cfg, o, now);
    }
    var c1, o1 := c.(lastSeen := now), o.(lastSeen := now);
    if !(c1.bannedUntil.Some? && c1.bannedUntil.value > now) {
      var c2 := if c1.bannedUntil.Some? then c1.(bannedUntil := None, failures := 0) else c1;
      var o2 := if o1.bannedUntil.Some? then o1.(bannedUntil := None, failures := 0) else o1;
      assert SameBuckets(cfg, c2, o2, now);
      UnbannedSame(cfg, c2, o2, class_, now);
    }
  }

  lemma NewIsSameAsFull(cfg: Config, o: Client, now: real)
    requires cfg.Valid()
    requires forall k: Class :: Full(o.buckets.Get(k), cfg.Cap(k), Period(k), now)
    ensures SameBuckets(cfg, NewClient(cfg, now), o, now)
  {
    hide Gain;
    forall k: Class
      ensures SameBucket(NewClient(cfg, now).buckets.Get(k), o.buckets.Get(k), cfg.Cap(k), Period(k), now)
    {
      GainOfNothing(cfg.Cap(k), Period(k));
    }
  }

  // ------------------------------------------------------------ the refinement

  /** What the private machine guarantees about its client when failures arrive in time. */
  ghost predicate Sound(cfg: Config, own: Own, t: real)
  {
    own.Some? ==>
      var o := own.value;
      && o.lastSeen <= t
      && (o.failures > 0 ==> o.failureStart <= o.lastSeen + Grace(cfg))
      && forall k: Class ::
           o.buckets.Get(k).updated <= o.lastSeen && 0.0 <= o.buckets.Get(k).tokens <= cfg.Cap(k) as real
  }

  /** A sweep only forgets clients a new one can stand in for: this is what the 660 s minimum is for. */
  lemma SweepForgetsOnlyDormant(cfg: Config, l: Ledger, own: Own, ip: Ip, now: real)
    requires cfg.Valid() && Related(cfg, l.Get(ip), own, now) && Sound(cfg, own, now)
    ensures Related(cfg, Sweep(cfg, l, now).Get(ip), own, now)
  {
    if ip in l.clients && ip !in Sweep(cfg, l, now).clients {
      var o := own.value;
      assert now - o.lastSeen >= cfg.TimeToLive();
      forall k: Class ensures Full(o.buckets.Get(k), cfg.Cap(k), Period(k), now) {
        hide Gain;
        GainOfPeriod(Since(o.buckets.Get(k).updated, now), cfg.Cap(k), Period(k));
      }
    }
  }

  lemma AdmitSound(cfg: Config, own: Own, class_: Class, now: real)
    requires cfg.Valid() && Sound(cfg, own, now)
    ensures var o := if own.Some? then own.value else NewClient(cfg, now);
            Sound(cfg, Some(AdmitClient(cfg, o, class_, now).0), now)
  {
    var o := if own.Some? then own.value else NewClient(cfg, now);
    var o' := AdmitClient(cfg, o, class_, now).0;
    forall k: Class
      ensures o'.buckets.Get(k).updated <= o'.lastSeen && 0.0 <= o'.buckets.Get(k).tokens <= cfg.Cap(k) as real
    {
      hide Gain, AdmitClient;
      AttemptOnBudget(cfg, o, class_, now, k);
      NewClientBudget(cfg, now, k);
      TakeUnderPotential(cfg, o.buckets.Get(k), k, now, now - o.buckets.Get(k).updated);
    }
    AttemptKeepsFailures(cfg, o, class_, now);
  }

  lemma AttemptKeepsFailures(cfg: Config, c: Client, class_: Class, now: real)
    requires cfg.Valid()
    ensures var c' := AdmitClient(cfg, c, class_, now).0;
            && c'.lastSeen == now && c'.failureStart == c.failureStart
            && (c'.failures == c.failures || c'.failures == 0)
  {
    hide Take;
  }

  lemma FailSame(cfg: Config, c: Client, o: Client, now: real)
    requires cfg.Valid() && Equivalent(cfg, c, o, now)
    ensures Equivalent(cfg, FailClient(cfg, c, now), FailClient(cfg, o, now), now)
  {
    hide SameBucket;
    SameBucketsKept(cfg, c, o, FailClient(cfg, c, now), FailClient(cfg, o, now), now);
  }

  lemma SameBucketsKept(cfg: Config, c: Client, o: Client, c': Client, o': Client, t: real)
    requires cfg.Valid() && SameBuckets(cfg, c, o, t) && c'.buckets == c.buckets && o'.buckets == o.buckets
    ensures SameBuckets(cfg, c', o', t)
  {
  }

  /** One event of the whole ledger, seen from one address. */
  lemma RefinementArrive(cfg: Config, s: Server, own: Own, ip: Ip, clock: real, step: Step)
    requires cfg.Valid() && Enabled(s, step) && clock <= Tick(clock, step) && step.Arrive?
    requires Related(cfg, s.ledger.Get(ip), own, clock) && Sound(cfg, own, clock)
    ensures var (s', outcome) := Do(cfg, s, step);
            var (own', outcome') := OwnStep(cfg, own, step);
            if Feeds(step, outcome, ip) then
              && outcome == outcome'
              && Related(cfg, s'.ledger.Get(ip), own', Tick(clock, step)) && Sound(cfg, own', Tick(clock, step))
            else Related(cfg, s'.ledger.Get(ip), own, Tick(clock, step)) && Sound(cfg, own, Tick(clock, step))
  {
    var now := Tick(clock, step);
    RelatedLater(cfg, s.ledger.Get(ip), own, clock, now);
    hide Sound, Related, AdmitClient, Sweep;
    SoundLater(cfg, own, clock, now);
    SweepForgetsOnlyDormant(cfg, s.ledger, own, ip, now);
    if step.ip == ip {
      AdmitSame(cfg, Sweep(cfg, s.ledger, now).Get(ip), own, step.class_, now);
      AdmitSound(cfg, own, step.class_, now);
      AttemptOnBoth(cfg, Sweep(cfg, s.ledger, now), own, ip, step.class_, now);
    }
  }

  lemma RefinementStep(cfg: Config, s: Server, own: Own, ip: Ip, clock: real, step: Step)
    requires cfg.Valid() && Enabled(s, step) && Conserved(cfg, s) && clock <= Tick(clock, step)
    requires Related(cfg, s.ledger.Get(ip), own, clock) && Sound(cfg, own, clock)
    requires step.Report? && step.ip == ip && Counts(step.status) && own.Some? ==>
               step.now <= own.value.lastSeen + Grace(cfg)
    ensures var (s', outcome) := Do(cfg, s, step);
            var (own', outcome') := OwnStep(cfg, own, step);
            if Feeds(step, outcome, ip) then
              && outcome == outcome'
              && Related(cfg, s'.ledger.Get(ip), own', Tick(clock, step)) && Sound(cfg, own', Tick(clock, step))
            else Related(cfg, s'.ledger.Get(ip), own, Tick(clock, step)) && Sound(cfg, own, Tick(clock, step))
  {
    var now := Tick(clock, step);
    if step.Arrive? {
      RefinementArrive(cfg, s, own, ip, clock, step);
    } else {
      hide Admit, AdmitClient;
      RelatedLater(cfg, s.ledger.Get(ip), own, clock, now);
      match step {
        case Report(who, status, t) =>
          if who == ip {
            LeaseHolderIsPresent(cfg, s, ip);
            FailSame(cfg, s.ledger.clients[ip], own.value, now);
          }
        case Depart(who) =>
          if who == ip {
            LeaseHolderIsPresent(cfg, s, ip);
            var c := s.ledger.clients[ip];
            SameBucketsKept(cfg, c, own.value, LeaveClient(c), LeaveClient(own.value), now);
          }
        case _ =>
      }
    }
  }

  lemma SoundLater(cfg: Config, own: Own, t: real, now: real)
    requires t <= now && Sound(cfg, own, t)
    ensures Sound(cfg, own, now)
  {
  }

  /** Unless refused for capacity, the ledger's answer is the client machine's. */
  lemma AttemptOnBoth(cfg: Config, swept: Ledger, own: Own, ip: Ip, class_: Class, now: real)
    requires cfg.Valid()
    requires var c := if ip in swept.clients then swept.clients[ip] else NewClient(cfg, now);
             var o := if own.Some? then own.value else NewClient(cfg, now);
             Equivalent(cfg, AdmitClient(cfg, c, class_, now).0, AdmitClient(cfg, o, class_, now).0, now)
    ensures var c := if ip in swept.clients then swept.clients[ip] else NewClient(cfg, now);
            && Related(cfg, Some(AdmitClient(cfg, c, class_, now).0), OwnStep(cfg, own, Arrive(ip, class_, now)).0, now)
            && !AdmitClient(cfg, c, class_, now).1.CapacityReached?
  {
    hide Equivalent;
    AttemptIsNotCapacity(cfg, if ip in swept.clients then swept.clients[ip] else NewClient(cfg, now), class_, now);
  }

  /**
   * For every run and every address: if failures of that address are reported in time, the
   * shared ledger answers each of its attempts exactly as its own, never-swept machine would.
   */
  lemma {:induction false} PerIpRefinement(cfg: Config, s: Server, own: Own, ip: Ip, clock: real, steps: seq<Step>)
    requires cfg.Valid() && Legal(cfg, s, steps) && InOrder(clock, steps) && Conserved(cfg, s)
    requires Related(cfg, s.ledger.Get(ip), own, clock) && Sound(cfg, own, clock)
    requires Timely(cfg, s, own, ip, steps)
    ensures Agree(cfg, s, own, ip, steps)
    decreases |steps|
  {
    if steps != [] {
      hide Related, Sound, Conserved, Do, OwnStep;
      RefinementStep(cfg, s, own, ip, clock, steps[0]);
      ConservedStep(cfg, s, steps[0]);
      var (s', outcome) := Do(cfg, s, steps[0]);
      var own' := if Feeds(steps[0], outcome, ip) then OwnStep(cfg, own, steps[0]).0 else own;
      PerIpRefinement(cfg, s', own', ip, Tick(clock, steps[0]), steps[1..]);
    }
  }

  /** From an empty ledger. */
  lemma SharedLedgerRefinesPrivateMachines(cfg: Config, start: real, ip: Ip, steps: seq<Step>)
    requires cfg.Valid() && Legal(cfg, Start(cfg, start), steps) && InOrder(start, steps)
    requires Timely(cfg, Start(cfg, start), None, ip, steps)
    ensures Agree(cfg, Start(cfg, start), None, ip, steps)
  {
    StartIsConserved(cfg, start);
    PerIpRefinement(cfg, Start(cfg, start), None, ip, start, steps);
  }

  // ------------------------------------------------------------ when forgetting shows

  ghost function Outcomes(cfg: Config, own: Own, steps: seq<Step>): seq<Option<Outcome>>
    requires cfg.Valid()
    decreases |steps|
  {
    if steps == [] then []
    else [OwnStep(cfg, own, steps[0]).1] + Outcomes(cfg, OwnStep(cfg, own, steps[0]).0, steps[1..])
  }

  /** Events of one address in which failures and departures come from admitted requests. */
  ghost predicate OwnLegal(cfg: Config, own: Own, ip: Ip, steps: seq<Step>)
    requires cfg.Valid()
    decreases |steps|
  {
    steps != [] ==>
      && Concerns(steps[0], ip)
      && (steps[0].Arrive? || (own.Some? && own.value.inFlight > 0))
      && OwnLegal(cfg, OwnStep(cfg, own, steps[0]).0, ip, steps[1..])
  }

  lemma {:induction false} RelatedAnswerAlike(cfg: Config, shared: Own, own: Own, ip: Ip, t: real, steps: seq<Step>)
    requires cfg.Valid() && Related(cfg, shared, own, t)
    requires OwnLegal(cfg, own, ip, steps) && InOrder(t, steps)
    ensures Outcomes(cfg, shared, steps) == Outcomes(cfg, own, steps)
    decreases |steps|
  {
    if steps != [] {
      var step, now := steps[0], Tick(t, steps[0]);
      RelatedLater(cfg, shared, own, t, now);
      match step {
        case Arrive(_, class_, _) =>
          hide AdmitClient;
          AdmitSame(cfg, shared, own, class_, now);
        case Report(_, status, _) =>
          if Counts(status) {
            FailSame(cfg, shared.value, own.value, now);
          }
        case Depart(_) =>
          SameBucketsKept(cfg, shared.value, own.value, LeaveClient(shared.value), LeaveClient(own.value), now);
      }
      RelatedAnswerAlike(cfg, OwnStep(cfg, shared, step).0, OwnStep(cfg, own, step).0, ip, now, steps[1..]);
    }
  }

  /** A client `retain` may drop: idle, unbanned, refilled; a count at the limit implies a ban. */
  ghost predicate Droppable(cfg: Config, o: Client, t: real)
  {
    && o.inFlight == 0
    && (o.bannedUntil.Some? ==> o.bannedUntil.value <= t)
    && (o.failures >= cfg.failuresBeforeBan ==> o.bannedUntil.Some?)
    && forall k: Class :: Full(o.buckets.Get(k), cfg.Cap(k), Period(k), t)
  }

  /** `n` failures at one instant. */
  function Burst(ip: Ip, n: nat, t: real): seq<Step>
  {
    if n == 0 then [] else [Report(ip, 400, t)] + Burst(ip, n - 1, t)
  }

  lemma {:induction false} BurstBans(cfg: Config, c: Client, ip: Ip, n: nat, t: real, rest: seq<Step>)
    requires cfg.Valid() && n > 0 && c.inFlight > 0 && c.failureStart + cfg.failureWindow as real > t
    requires c.bannedUntil.None? && 0 < c.failures && c.failures + n == cfg.failuresBeforeBan
    requires rest == [Arrive(ip, General, t)]
    ensures OwnLegal(cfg, Some(c), ip, Burst(ip, n, t) + rest) && InOrder(t, Burst(ip, n, t) + rest)
    ensures var o := Outcomes(cfg, Some(c), Burst(ip, n, t) + rest); |o| == n + 1 && o[n].Some? && o[n].value.Banned?
    decreases n
  {
    var steps := Burst(ip, n, t) + rest;
    var c' := FailClient(cfg, c, t);
    assert steps[0] == Report(ip, 400, t) && steps[1..] == Burst(ip, n - 1, t) + rest;
    if n == 1 {
      assert steps[1..] == rest && rest[1..] == [];
      assert c'.bannedUntil == Some(t + cfg.banSeconds as real);
      LastOutcome(cfg, Some(c'), rest[0]);
    } else {
      BurstBans(cfg, c', ip, n - 1, t, rest);
    }
  }

  lemma {:induction false} BurstSpares(cfg: Config, c: Client, ip: Ip, n: nat, t: real, rest: seq<Step>)
    requires cfg.Valid() && c.bannedUntil.None? && (c.failures > 0 ==> c.failureStart == t)
    requires c.failures + n < cfg.failuresBeforeBan
    requires rest == [Arrive(ip, General, t)]
    ensures var o := Outcomes(cfg, Some(c), Burst(ip, n, t) + rest); |o| == n + 1 && o[n].Some? && !o[n].value.Banned?
    decreases n
  {
    var steps := Burst(ip, n, t) + rest;
    if n == 0 {
      assert steps == rest && rest[1..] == [];
    } else {
      assert steps[0] == Report(ip, 400, t) && steps[1..] == Burst(ip, n - 1, t) + rest;
      BurstSpares(cfg, FailClient(cfg, c, t), ip, n - 1, t, rest);
    }
  }

  lemma LastOutcome(cfg: Config, own: Own, step: Step)
    requires cfg.Valid()
    ensures Outcomes(cfg, own, [step]) == [OwnStep(cfg, own, step).1]
  {
    assert [step][1..] == [];
  }

  /** The continuation that exposes a forgotten failure: an attempt, enough failures, an attempt. */
  function Exposing(cfg: Config, o: Client, ip: Ip, t: real): seq<Step>
    requires o.failures < cfg.failuresBeforeBan
  {
    [Arrive(ip, General, t)] + (Burst(ip, cfg.failuresBeforeBan - o.failures, t) + [Arrive(ip, General, t)])
  }

  lemma ExposedWhenFresh(cfg: Config, o: Client, ip: Ip, t: real)
    requires cfg.Valid() && Droppable(cfg, o, t) && o.bannedUntil.None? && !Stale(cfg, o, t)
    ensures OwnLegal(cfg, Some(o), ip, Exposing(cfg, o, ip, t)) && InOrder(t, Exposing(cfg, o, ip, t))
    ensures Outcomes(cfg, Some(o), Exposing(cfg, o, ip, t)) != Outcomes(cfg, None, Exposing(cfg, o, ip, t))
  {
    var steps, n := Exposing(cfg, o, ip, t), cfg.failuresBeforeBan - o.failures;
    var rest := [Arrive(ip, General, t)];
    assert steps[0] == Arrive(ip, General, t) && steps[1..] == Burst(ip, n, t) + rest;
    assert Full(o.buckets.Get(General), cfg.Cap(General), Period(General), t);
    var c := OwnStep(cfg, Some(o), steps[0]).0.value;
    var d := OwnStep(cfg, None, steps[0]).0.value;
    NewIsAdmitted(cfg, t);
    BurstBans(cfg, c, ip, n, t, rest);
    BurstSpares(cfg, d, ip, n, t, rest);
    assert Outcomes(cfg, Some(o), steps)[n + 1] == Outcomes(cfg, Some(c), steps[1..])[n];
    assert Outcomes(cfg, None, steps)[n + 1] == Outcomes(cfg, Some(d), steps[1..])[n];
  }

  lemma NewIsAdmitted(cfg: Config, t: real)
    requires cfg.Valid()
    ensures var (c, o) := AdmitClient(cfg, NewClient(cfg, t), General, t);
            o == Admitted && c.failures == 0 && c.bannedUntil == None
  {
    assert Since(t, t) == 0.0;
  }

  /**
   * Exactly when forgetting a droppable client is invisible to every later event of its
   * address: its ban is due to be lifted, or its failure window has run out.
   */
  lemma ForgettingIsInvisibleExactly(cfg: Config, o: Client, ip: Ip, t: real)
    requires cfg.Valid() && Droppable(cfg, o, t)
    ensures o.bannedUntil.Some? || Stale(cfg, o, t) <==>
              forall steps | OwnLegal(cfg, Some(o), ip, steps) && InOrder(t, steps) ::
                Outcomes(cfg, Some(o), steps) == Outcomes(cfg, None, steps)
  {
    if o.bannedUntil.Some? || Stale(cfg, o, t) {
      forall steps | OwnLegal(cfg, Some(o), ip, steps) && InOrder(t, steps)
        ensures Outcomes(cfg, Some(o), steps) == Outcomes(cfg, None, steps)
      {
        RelatedAnswerAlike(cfg, None, Some(o), ip, t, steps);
      }
    } else {
      ExposedWhenFresh(cfg, o, ip, t);
    }
  }

  // ------------------------------------------------------------ the hypothesis is needed

  /** The default limits, except that two failures ban. */
  const STRICT := Config(60, 20, 2, 4, 2, 600, 900, 8192, 32, 4)

  /** The client of an upload admitted at 0 s that fails at 100 s and then departs. */
  function SlowUploader(): Client
  {
    LeaveClient(FailClient(STRICT, AdmitClient(STRICT, NewClient(STRICT, 0.0), Upload, 0.0).0, 100.0))
  }

  /** A sweep 660 s after the admission drops it, and later attempts are answered differently. */
  lemma LateFailureIsForgotten()
    ensures SlowUploader().failureStart > SlowUploader().lastSeen + Grace(STRICT)
    ensures !Kept(STRICT, SlowUploader(), 660.0)
    ensures exists steps ::
              && OwnLegal(STRICT, Some(SlowUploader()), 1, steps) && InOrder(660.0, steps)
              && Outcomes(STRICT, Some(SlowUploader()), steps) != Outcomes(STRICT, None, steps)
  {
    var cfg := STRICT;
    var admitted := AdmitClient(cfg, NewClient(cfg, 0.0), Upload, 0.0).0;
    assert Since(0.0, 0.0) == 0.0;
    assert admitted.buckets == Buckets(Bucket(59.0, 0.0), Bucket(20.0, 0.0), Bucket(1.0, 0.0), Bucket(4.0, 0.0));
    var o := SlowUploader();
    assert o.failures == 1 && o.failureStart == 100.0 && o.bannedUntil.None? && o.lastSeen == 0.0 && o.inFlight == 0;
    forall k: Class ensures Full(o.buckets.Get(k), cfg.Cap(k), Period(k), 660.0) {
      hide Gain;
      GainOfPeriod(660.0, cfg.Cap(k), Period(k));
    }
    ForgettingIsInvisibleExactly(cfg, o, 1, 660.0);
  }

  /** A client banned until 900 s whose last attempt was at 0 s. */
  function BannedClient(): Client
  {
    NewClient(STRICT, 0.0).(failures := 2, bannedUntil := Some(900.0))
  }

  /**
   * The lock order matters: a sweep stamped at the ban's end forgets the client, and an
   * attempt stamped a second earlier that takes the lock after it is let in.
   */
  lemma OutOfOrderAttemptIsSeen()
    ensures !Kept(STRICT, BannedClient(), 900.0)
    ensures var late := [Arrive(1, General, 899.0)];
            Outcomes(STRICT, Some(BannedClient()), late) != Outcomes(STRICT, None, late)
  {
    LastOutcome(STRICT, Some(BannedClient()), Arrive(1, General, 899.0));
    LastOutcome(STRICT, None, Arrive(1, General, 899.0));
    NewIsAdmitted(STRICT, 899.0);
  }
}
