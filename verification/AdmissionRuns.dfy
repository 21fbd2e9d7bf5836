/**
 * Runs of the admission layer: any interleaving of requests acquiring a permit, being
 * admitted or refused, failing, being cancelled and dropping their lease
 * (crates/patcher-web/src/security.rs, protect_inner and Lease).
 */
module AdmissionRuns {
  import opened Wrappers
  import opened Admission

  datatype Step =
    | Acquire                                   // try_acquire_owned; refused when no permit is free
    | Abandon                                   // cancelled between permit and admit
    | Arrive(ip: Ip, class_: Class, now: real)  // admit; a refusal returns the permit
    | Report(ip: Ip, status: nat, now: real)    // failed, by a request that holds a lease
    | Depart(ip: Ip)                            // Lease::drop calls leave
    | Release                                   // then the permit field is dropped

  /** `pending` permits await admission, `draining` ones their release after leave. */
  datatype Server = Server(ledger: Ledger, free: nat, pending: nat, leases: multiset<Ip>, draining: nat)

  function Start(cfg: Config, now: real): Server
  {
    Server(Ledger(map[], now), cfg.maxInFlight, 0, multiset{}, 0)
  }

  predicate Enabled(s: Server, step: Step)
  {
    match step
    case Acquire => true
    case Abandon => s.pending > 0
    case Arrive(_, _, _) => s.pending > 0
    case Report(ip, _, _) => ip in s.leases
    case Depart(ip) => ip in s.leases
    case Release => s.draining > 0
  }

  function Do(cfg: Config, s: Server, step: Step): (Server, Option<Outcome>)
    requires cfg.Valid() && Enabled(s, step)
  {
    match step
    case Acquire => (if s.free > 0 then s.(free := s.free - 1, pending := s.pending + 1) else s, None)
    case Abandon => (s.(pending := s.pending - 1, free := s.free + 1), None)
    case Arrive(ip, class_, now) =>
      var (ledger, outcome) := Admit(cfg, s.ledger, ip, class_, now);
      if outcome.Admitted?
      then (s.(ledger := ledger, pending := s.pending - 1, leases := s.leases + multiset{ip}), Some(outcome))
      else (s.(ledger := ledger, pending := s.pending - 1, free := s.free + 1), Some(outcome))
    case Report(ip, status, now) => (s.(ledger := Fail(cfg, s.ledger, ip, status, now)), None)
    case Depart(ip) =>
      (s.(ledger := Leave(s.ledger, ip), leases := s.leases - multiset{ip}, draining := s.draining + 1), None)
    case Release => (s.(draining := s.draining - 1, free := s.free + 1), None)
  }

  function Next(cfg: Config, s: Server, step: Step): Server
    requires cfg.Valid() && Enabled(s, step)
  {
    Do(cfg, s, step).0
  }

  ghost predicate Legal(cfg: Config, s: Server, steps: seq<Step>)
    requires cfg.Valid()
    decreases |steps|
  {
    steps != [] ==> Enabled(s, steps[0]) && Legal(cfg, Next(cfg, s, steps[0]), steps[1..])
  }

  ghost function After(cfg: Config, s: Server, steps: seq<Step>): Server
    requires cfg.Valid() && Legal(cfg, s, steps)
    decreases |steps|
  {
    if steps == [] then s else After(cfg, Next(cfg, s, steps[0]), steps[1..])
  }

  // ------------------------------------------------------------ lease conservation

  function InFlight(l: Ledger, ip: Ip): nat { if ip in l.clients then l.clients[ip].inFlight else 0 }

  /** Every permit is accounted for, and each client's count is the number of its live leases. */
  ghost predicate Conserved(cfg: Config, s: Server)
  {
    && s.free + s.pending + |s.leases| + s.draining == cfg.maxInFlight
    && |s.ledger.clients| <= cfg.maxTrackedIps
    && forall ip: Ip :: s.leases[ip] == InFlight(s.ledger, ip) <= cfg.maxInFlightPerIp
  }

  lemma SweepKeepsLeased(cfg: Config, l: Ledger, now: real, ip: Ip)
    ensures InFlight(Sweep(cfg, l, now), ip) == InFlight(l, ip)
  {
  }

  lemma AdmitLeases(cfg: Config, l: Ledger, ip: Ip, class_: Class, now: real, other: Ip)
    requires cfg.Valid()
    requires InFlight(l, ip) <= cfg.maxInFlightPerIp
    ensures var (l', o) := Admit(cfg, l, ip, class_, now);
            && InFlight(l', other) == InFlight(l, other) + (if o.Admitted? && other == ip then 1 else 0)
            && InFlight(l', ip) <= cfg.maxInFlightPerIp
  {
    hide Take, Kept;
    SweepKeepsLeased(cfg, l, now, other);
    SweepKeepsLeased(cfg, l, now, ip);
  }

  lemma ConservedArrive(cfg: Config, s: Server, step: Step)
    requires cfg.Valid() && Conserved(cfg, s) && Enabled(s, step) && step.Arrive?
    ensures Conserved(cfg, Next(cfg, s, step))
  {
    hide Admit;
    var s' := Next(cfg, s, step);
    TableBounded(cfg, s.ledger, step.ip, step.class_, step.now);
    forall ip: Ip ensures s'.leases[ip] == InFlight(s'.ledger, ip) <= cfg.maxInFlightPerIp {
      assert s.leases[ip] == InFlight(s.ledger, ip);
      AdmitLeases(cfg, s.ledger, step.ip, step.class_, step.now, ip);
    }
  }

  lemma SameSize<K, V>(a: map<K, V>, b: map<K, V>)
    requires a.Keys == b.Keys
    ensures |a| == |b|
  {
    assert |a| == |a.Keys| && |b| == |b.Keys|;
  }

  lemma ConservedReport(cfg: Config, s: Server, step: Step)
    requires cfg.Valid() && Conserved(cfg, s) && Enabled(s, step) && step.Report?
    ensures Conserved(cfg, Next(cfg, s, step))
  {
    var s' := Next(cfg, s, step);
    assert s.leases[step.ip] == InFlight(s.ledger, step.ip) > 0;
    SameSize(s'.ledger.clients, s.ledger.clients);
    forall ip: Ip ensures s'.leases[ip] == InFlight(s'.ledger, ip) <= cfg.maxInFlightPerIp {
      assert s.leases[ip] == InFlight(s.ledger, ip);
    }
  }

  lemma ConservedDepart(cfg: Config, s: Server, step: Step)
    requires cfg.Valid() && Conserved(cfg, s) && Enabled(s, step) && step.Depart?
    ensures Conserved(cfg, Next(cfg, s, step))
  {
    var s' := Next(cfg, s, step);
    assert s.leases[step.ip] == InFlight(s.ledger, step.ip) > 0;
    SameSize(s'.ledger.clients, s.ledger.clients);
    forall ip: Ip ensures s'.leases[ip] == InFlight(s'.ledger, ip) <= cfg.maxInFlightPerIp {
      assert s.leases[ip] == InFlight(s.ledger, ip);
    }
  }

  lemma ConservedStep(cfg: Config, s: Server, step: Step)
    requires cfg.Valid() && Conserved(cfg, s) && Enabled(s, step)
    ensures Conserved(cfg, Next(cfg, s, step))
  {
    hide Admit, Fail, Leave;
    match step
    case Arrive(_, _, _) => ConservedArrive(cfg, s, step);
    case Report(_, _, _) => ConservedReport(cfg, s, step);
    case Depart(_) => ConservedDepart(cfg, s, step);
    case _ =>
  }

  /**
   * Over every interleaving permits are conserved and each client's in-flight count is its
   * number of live leases, within the per-address limit.
   */
  lemma {:induction false} LeaseConservation(cfg: Config, s: Server, steps: seq<Step>)
    requires cfg.Valid() && Conserved(cfg, s) && Legal(cfg, s, steps)
    ensures Conserved(cfg, After(cfg, s, steps))
    decreases |steps|
  {
    if steps != [] {
      ConservedStep(cfg, s, steps[0]);
      LeaseConservation(cfg, Next(cfg, s, steps[0]), steps[1..]);
    }
  }

  lemma StartIsConserved(cfg: Config, now: real)
    ensures Conserved(cfg, Start(cfg, now))
  {
  }

  /** `leave` never saturates and `failed` never misses its client. */
  lemma LeaseHolderIsPresent(cfg: Config, s: Server, ip: Ip)
    requires cfg.Valid() && Conserved(cfg, s) && ip in s.leases
    ensures ip in s.ledger.clients && s.ledger.clients[ip].inFlight > 0
    ensures Leave(s.ledger, ip).clients[ip].inFlight == s.ledger.clients[ip].inFlight - 1
  {
    assert s.leases[ip] == InFlight(s.ledger, ip);
  }
}
