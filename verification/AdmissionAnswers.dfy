/**
 * The exact answer to every admission attempt and the exact effect of every failure, in terms
 * of what the ledger shows and of the leases that are out, over every run.
 */
module AdmissionAnswers {
  import opened Wrappers
  import opened Admission
  import opened AdmissionRuns
  import opened AdmissionBans
  import opened AdmissionRates

  // ------------------------------------------------------------ what the ledger shows

  function Limit(cfg: Config, k: Class): real
  {
    match k
    case General => cfg.requestsPerMinute as real
    case Api => cfg.apiPerMinute as real
    case Upload => cfg.uploadsPerTenMinutes as real
    case Download => cfg.downloadsPerTenMinutes as real
  }

  function Seconds(k: Class): real { if k == General || k == Api then 60.0 else 600.0 }

  function Elapsed(from: real, now: real): real { if now > from then now - from else 0.0 }

  /**
   * The attempt at `now` still finds the address: a sweep, due 60 s after the last, drops only
   * an idle, unbanned one not seen for the failure window or 600 s, whichever is longer, and 60 s.
   */
  predicate Remembers(cfg: Config, l: Ledger, ip: Ip, now: real)
  {
    && ip in l.clients
    && var c := l.clients[ip];
       || Elapsed(l.lastSweep, now) < 60.0
       || c.inFlight > 0
       || (c.bannedUntil.Some? && c.bannedUntil.value > now)
       || Elapsed(c.lastSeen, now) < (if cfg.failureWindow > 600 then cfg.failureWindow else 600) as real + 60.0
  }

  ghost function Remembered(cfg: Config, l: Ledger, now: real): set<Ip>
  {
    set ip | ip in l.clients && Remembers(cfg, l, ip, now)
  }

  /** The tokens the address has for a class of work: refilled at its rate up to its limit; all, if forgotten. */
  function Shows(cfg: Config, l: Ledger, ip: Ip, k: Class, now: real): real
    requires cfg.Valid()
  {
    if !Remembers(cfg, l, ip, now) then Limit(cfg, k)
    else
      var b := l.clients[ip].buckets.Get(k);
      var earned := b.tokens + Elapsed(b.updated, now) * Limit(cfg, k) / Seconds(k);
      if earned < Limit(cfg, k) then earned else Limit(cfg, k)
  }

  predicate IsBanned(cfg: Config, l: Ledger, ip: Ip, now: real)
  {
    && Remembers(cfg, l, ip, now)
    && l.clients[ip].bannedUntil.Some? && l.clients[ip].bannedUntil.value > now
  }

  /** `s` is the least whole number of seconds after which a whole token is there. */
  predicate LeastWait(cfg: Config, k: Class, tokens: real, s: int)
  {
    && s >= 1
    && tokens + s as real * Limit(cfg, k) / Seconds(k) >= 1.0
    && tokens + (s - 1) as real * Limit(cfg, k) / Seconds(k) < 1.0
  }

  // ------------------------------------------------------------ the sweep

  lemma RemembersIsKept(cfg: Config, l: Ledger, ip: Ip, now: real)
    ensures Remembers(cfg, l, ip, now) <==> ip in Sweep(cfg, l, now).clients
    ensures Remembers(cfg, l, ip, now) ==> Sweep(cfg, l, now).clients[ip] == l.clients[ip]
  {
  }

  lemma RememberedAreKept(cfg: Config, l: Ledger, now: real)
    ensures Remembered(cfg, l, now) == Sweep(cfg, l, now).clients.Keys
    ensures |Remembered(cfg, l, now)| == |Sweep(cfg, l, now).clients|
  {
    hide Remembers, Sweep;
    forall ip: Ip ensures Remembers(cfg, l, ip, now) <==> ip in Sweep(cfg, l, now).clients {
      RemembersIsKept(cfg, l, ip, now);
    }
    assert Remembered(cfg, l, now) == Sweep(cfg, l, now).clients.Keys by {
      forall ip | ip in Sweep(cfg, l, now).clients ensures ip in l.clients {
        SweptWasThere(cfg, l, ip, now);
      }
    }
    assert |Sweep(cfg, l, now).clients| == |Sweep(cfg, l, now).clients.Keys|;
  }

  lemma SweptWasThere(cfg: Config, l: Ledger, ip: Ip, now: real)
    requires ip in Sweep(cfg, l, now).clients
    ensures ip in l.clients
  {
  }

  // ------------------------------------------------------------ the answer

  /** A ban's hint always suffices; a second less does exactly when the ban ends a whole number of seconds ahead. */
  predicate BanWait(until: real, now: real, s: int)
  {
    && s >= 1 && now + s as real > until
    && now + (s - 1) as real <= until
  }

  /** The answer to an attempt, from the leases that are out and the tokens the ledger shows. */
  ghost predicate AnswersAs(cfg: Config, s: Server, ip: Ip, class_: Class, now: real, o: Outcome)
    requires cfg.Valid()
  {
    var l := s.ledger;
    if !Remembers(cfg, l, ip, now) && |Remembered(cfg, l, now)| >= cfg.maxTrackedIps then o == CapacityReached
    else if IsBanned(cfg, l, ip, now) then o.Banned? && BanWait(l.clients[ip].bannedUntil.value, now, o.retry)
    else if s.leases[ip] == cfg.maxInFlightPerIp then o == TooManyActive
    else if Shows(cfg, l, ip, General, now) < 1.0 then
      o.RequestRate? && LeastWait(cfg, General, Shows(cfg, l, ip, General, now), o.retry)
    else if class_ != General && Shows(cfg, l, ip, class_, now) < 1.0 then
      o.OperationRate? && LeastWait(cfg, class_, Shows(cfg, l, ip, class_, now), o.retry)
    else o == Admitted
  }

  /** What the attempt leaves of one budget: one token less if it was there and asked for, and brought up to date. */
  predicate ChargesAs(cfg: Config, s: Server, ip: Ip, class_: Class, now: real, o: Outcome, k: Class, b: Bucket)
    requires cfg.Valid()
  {
    var shown := Shows(cfg, s.ledger, ip, k, now);
    if k == General && (o.OperationRate? || o.Admitted?) then b == Bucket(shown - 1.0, now)
    else if k == General && o.RequestRate? then b == Bucket(shown, now)
    else if k == class_ && o.Admitted? then b == Bucket(shown - 1.0, now)
    else if k == class_ && o.OperationRate? then b == Bucket(shown, now)
    else if Remembers(cfg, s.ledger, ip, now) then b == s.ledger.clients[ip].buckets.Get(k)
    else b == Bucket(Limit(cfg, k), now)
  }

  /** The table after an attempt, and what it leaves alone. */
  ghost predicate TableAs(cfg: Config, l: Ledger, ip: Ip, now: real, o: Outcome, l': Ledger)
  {
    && l'.clients.Keys == Remembered(cfg, l, now) + (if o.CapacityReached? then {} else {ip})
    && (forall i :: i in l'.clients && i != ip ==> i in l.clients && l'.clients[i] == l.clients[i])
    && l'.lastSweep == (if Elapsed(l.lastSweep, now) >= 60.0 then now else l.lastSweep)
  }

  /** The address's own entry after an attempt. */
  ghost predicate EntryAs(cfg: Config, s: Server, ip: Ip, class_: Class, now: real, o: Outcome, c': Client)
    requires cfg.Valid()
  {
    && c'.lastSeen == now
    && (forall k: Class :: ChargesAs(cfg, s, ip, class_, now, o, k, c'.buckets.Get(k)))
    && if Remembers(cfg, s.ledger, ip, now) then
         var c := s.ledger.clients[ip];
         && c'.failureStart == c.failureStart
         && (if c.bannedUntil.Some? && c.bannedUntil.value <= now then c'.failures == 0 && c'.bannedUntil == None
             else c'.failures == c.failures && c'.bannedUntil == c.bannedUntil)
       else c'.failures == 0 && c'.bannedUntil == None
  }

  /** The state an attempt leaves behind: what it charges and records, and what it leaves alone. */
  ghost predicate LeavesAs(cfg: Config, s: Server, ip: Ip, class_: Class, now: real, o: Outcome, s': Server)
    requires cfg.Valid() && s.pending > 0
  {
    && TableAs(cfg, s.ledger, ip, now, o, s'.ledger)
    && (!o.CapacityReached? ==>
          ip in s'.ledger.clients && EntryAs(cfg, s, ip, class_, now, o, s'.ledger.clients[ip]))
    && s' == if o.Admitted? then
               s.(ledger := s'.ledger, pending := s.pending - 1, leases := s.leases + multiset{ip})
             else s.(ledger := s'.ledger, pending := s.pending - 1, free := s.free + 1)
  }

  function Earned(cfg: Config, b: Bucket, k: Class, now: real): real
    requires cfg.Valid()
  {
    var earned := b.tokens + Elapsed(b.updated, now) * Limit(cfg, k) / Seconds(k);
    if earned < Limit(cfg, k) then earned else Limit(cfg, k)
  }

  lemma LimitsAgree(cfg: Config, k: Class)
    requires cfg.Valid()
    ensures Limit(cfg, k) == cfg.Cap(k) as real > 0.0 && Seconds(k) == Period(k) as real > 0.0
  {
  }

  lemma EarnedIsRefilled(cfg: Config, b: Bucket, k: Class, now: real)
    requires cfg.Valid()
    ensures Refilled(b, cfg.Cap(k), Period(k), now) == Earned(cfg, b, k, now)
  {
    LimitsAgree(cfg, k);
    hide Period, Seconds, Limit;
    assert Since(b.updated, now) == Elapsed(b.updated, now);
  }

  lemma GainIs(cfg: Config, k: Class, x: real)
    requires cfg.Valid()
    ensures Gain(x, cfg.Cap(k), Period(k)) == x * Limit(cfg, k) / Seconds(k)
  {
    LimitsAgree(cfg, k);
    hide Period, Seconds, Limit;
  }

  lemma WaitIsLeast(cfg: Config, k: Class, tokens: real)
    requires cfg.Valid() && tokens < 1.0
    ensures LeastWait(cfg, k, tokens, RetryAfter(tokens, cfg.Cap(k), Period(k)))
  {
    LimitsPositive(cfg, k);
    var cap, period := cfg.Cap(k), Period(k);
    var s := RetryAfter(tokens, cap, period);
    GainIs(cfg, k, s as real);
    GainIs(cfg, k, (s - 1) as real);
    hide Period, Seconds, Limit, Need, Ceiling, Gain;
    NeedIsPositive(tokens, cap, period);
    CeilingIsLeast(Need(tokens, cap, period));
    NeedIsExact(tokens, cap, period, s as real);
    NeedIsExact(tokens, cap, period, (s - 1) as real);
    assert (s - 1) as real == s as real - 1.0;
  }

  /** One bucket, asked for a token. */
  lemma TakenExactly(cfg: Config, b: Bucket, k: Class, now: real)
    requires cfg.Valid()
    ensures var (b', wait) := Take(b, cfg.Cap(k), Period(k), now);
            var shown := Earned(cfg, b, k, now);
            && (wait.None? <==> shown >= 1.0)
            && b' == Bucket(if wait.None? then shown - 1.0 else shown, now)
            && (wait.Some? ==> LeastWait(cfg, k, shown, wait.value))
  {
    EarnedIsRefilled(cfg, b, k, now);
    hide Refilled, Earned, RetryAfter, LeastWait, Limit, Seconds, Period;
    LimitsPositive(cfg, k);
    if Earned(cfg, b, k, now) < 1.0 {
      WaitIsLeast(cfg, k, Earned(cfg, b, k, now));
    }
  }

  lemma LimitsPositive(cfg: Config, k: Class)
    requires cfg.Valid()
    ensures cfg.Cap(k) > 0 && Period(k) > 0
  {
  }

  lemma BanHint(until: real, now: real)
    requires until > now
    ensures BanWait(until, now, (until - now).Floor + 1)
  {
  }

  /** The client the attempt deals with. */
  function ClientFor(cfg: Config, l: Ledger, ip: Ip, now: real): Client
  {
    if ip in Sweep(cfg, l, now).clients then Sweep(cfg, l, now).clients[ip] else NewClient(cfg, now)
  }

  lemma ShownByClient(cfg: Config, l: Ledger, ip: Ip, k: Class, now: real)
    requires cfg.Valid()
    ensures Earned(cfg, ClientFor(cfg, l, ip, now).buckets.Get(k), k, now) == Shows(cfg, l, ip, k, now)
    ensures !Remembers(cfg, l, ip, now) ==>
              ClientFor(cfg, l, ip, now).buckets.Get(k) == Bucket(Limit(cfg, k), now)
  {
    RemembersIsKept(cfg, l, ip, now);
    hide Sweep, Remembers;
    NewClientBudget(cfg, now, k);
  }

  /** What one client answers, over the tokens its buckets show. */
  lemma ClientAnswers(cfg: Config, c: Client, class_: Class, now: real)
    requires cfg.Valid()
    ensures var (c', o) := AdmitClient(cfg, c, class_, now);
            var page, work := Earned(cfg, c.buckets.Get(General), General, now),
                              Earned(cfg, c.buckets.Get(class_), class_, now);
            if c.bannedUntil.Some? && c.bannedUntil.value > now then
              o.Banned? && BanWait(c.bannedUntil.value, now, o.retry)
            else if c.inFlight >= cfg.maxInFlightPerIp then o == TooManyActive
            else if page < 1.0 then o.RequestRate? && LeastWait(cfg, General, page, o.retry)
            else if class_ != General && work < 1.0 then o.OperationRate? && LeastWait(cfg, class_, work, o.retry)
            else o == Admitted
  {
    hide Take, Earned, LeastWait, BanWait;
    TakenExactly(cfg, c.buckets.Get(General), General, now);
    TakenExactly(cfg, c.buckets.Get(class_), class_, now);
    if c.bannedUntil.Some? && c.bannedUntil.value > now {
      BanHint(c.bannedUntil.value, now);
    }
  }

  /** What it leaves of each budget and of the failure state. */
  lemma ClientLeaves(cfg: Config, c: Client, class_: Class, now: real, k: Class)
    requires cfg.Valid()
    ensures var (c', o) := AdmitClient(cfg, c, class_, now);
            var b', shown := c'.buckets.Get(k), Earned(cfg, c.buckets.Get(k), k, now);
            && c'.lastSeen == now && c'.failureStart == c.failureStart && !o.CapacityReached?
            && (if c.bannedUntil.Some? && c.bannedUntil.value <= now then c'.failures == 0 && c'.bannedUntil == None
                else c'.failures == c.failures && c'.bannedUntil == c.bannedUntil)
            && (if k == General && (o.OperationRate? || o.Admitted?) then b' == Bucket(shown - 1.0, now)
                else if k == General && o.RequestRate? then b' == Bucket(shown, now)
                else if k == class_ && o.Admitted? then b' == Bucket(shown - 1.0, now)
                else if k == class_ && o.OperationRate? then b' == Bucket(shown, now)
                else b' == c.buckets.Get(k))
  {
    hide Take, Earned;
    TakenExactly(cfg, c.buckets.Get(k), k, now);
  }

  lemma AnswerInLedger(cfg: Config, s: Server, ip: Ip, class_: Class, now: real)
    requires cfg.Valid() && Conserved(cfg, s)
    ensures AnswersAs(cfg, s, ip, class_, now, Admit(cfg, s.ledger, ip, class_, now).1)
  {
    var l := s.ledger;
    RemembersIsKept(cfg, l, ip, now);
    RememberedAreKept(cfg, l, now);
    ClientAnswers(cfg, ClientFor(cfg, l, ip, now), class_, now);
    ShownByClient(cfg, l, ip, General, now);
    ShownByClient(cfg, l, ip, class_, now);
    SweepKeepsLeased(cfg, l, now, ip);
    assert s.leases[ip] == InFlight(l, ip) <= cfg.maxInFlightPerIp;
    hide AdmitClient, Sweep, Remembers, Remembered, Shows, Earned, LeastWait, BanWait;
  }

  lemma AdmitOnSwept(cfg: Config, l: Ledger, ip: Ip, class_: Class, now: real)
    requires cfg.Valid()
    ensures var (l', o) := Admit(cfg, l, ip, class_, now);
            var swept, c := Sweep(cfg, l, now), ClientFor(cfg, l, ip, now);
            if o.CapacityReached? then l' == swept && ip !in swept.clients
            else
              && o == AdmitClient(cfg, c, class_, now).1
              && l' == swept.(clients := swept.clients[ip := AdmitClient(cfg, c, class_, now).0])
  {
    AttemptIsNotCapacity(cfg, ClientFor(cfg, l, ip, now), class_, now);
    hide AdmitClient, Sweep;
  }

  lemma SweptTable(cfg: Config, l: Ledger, now: real)
    ensures var swept := Sweep(cfg, l, now);
            && swept.clients.Keys == Remembered(cfg, l, now)
            && (forall i :: i in swept.clients ==> i in l.clients && swept.clients[i] == l.clients[i])
            && swept.lastSweep == (if Elapsed(l.lastSweep, now) >= 60.0 then now else l.lastSweep)
  {
    RememberedAreKept(cfg, l, now);
    hide Remembered, Kept;
  }

  lemma TableAfter(cfg: Config, l: Ledger, ip: Ip, class_: Class, now: real)
    requires cfg.Valid()
    ensures var (l', o) := Admit(cfg, l, ip, class_, now); TableAs(cfg, l, ip, now, o, l')
  {
    SweptTable(cfg, l, now);
    AdmitOnSwept(cfg, l, ip, class_, now);
    hide Admit, AdmitClient, Sweep, Remembered, ClientFor, Elapsed;
  }

  lemma EntryAfter(cfg: Config, s: Server, ip: Ip, class_: Class, now: real)
    requires cfg.Valid()
    ensures var (c', o) := AdmitClient(cfg, ClientFor(cfg, s.ledger, ip, now), class_, now);
            EntryAs(cfg, s, ip, class_, now, o, c')
  {
    var c := ClientFor(cfg, s.ledger, ip, now);
    var (c', o) := AdmitClient(cfg, c, class_, now);
    ClientLeaves(cfg, c, class_, now, General);
    RemembersIsKept(cfg, s.ledger, ip, now);
    assert !Remembers(cfg, s.ledger, ip, now) ==> c.failures == 0 && c.bannedUntil == None;
    hide AdmitClient, Sweep, Remembers, ChargesAs, Earned;
    forall k: Class ensures ChargesAs(cfg, s, ip, class_, now, o, k, c'.buckets.Get(k)) {
      BudgetAfter(cfg, s, ip, class_, now, k);
    }
  }

  lemma LedgerAfter(cfg: Config, s: Server, ip: Ip, class_: Class, now: real)
    requires cfg.Valid() && Enabled(s, Arrive(ip, class_, now))
    ensures var (s', o) := Do(cfg, s, Arrive(ip, class_, now)); LeavesAs(cfg, s, ip, class_, now, o.value, s')
  {
    hide Admit, AdmitClient, ClientFor, TableAs, EntryAs;
    TableAfter(cfg, s.ledger, ip, class_, now);
    AdmitOnSwept(cfg, s.ledger, ip, class_, now);
    EntryAfter(cfg, s, ip, class_, now);
  }

  lemma BudgetAfter(cfg: Config, s: Server, ip: Ip, class_: Class, now: real, k: Class)
    requires cfg.Valid()
    ensures var (c', o) := AdmitClient(cfg, ClientFor(cfg, s.ledger, ip, now), class_, now);
            ChargesAs(cfg, s, ip, class_, now, o, k, c'.buckets.Get(k))
  {
    ClientLeaves(cfg, ClientFor(cfg, s.ledger, ip, now), class_, now, k);
    ShownByClient(cfg, s.ledger, ip, k, now);
    RemembersIsKept(cfg, s.ledger, ip, now);
    hide AdmitClient, Sweep, Remembers, Shows, Earned, Limit;
  }

  /**
   * Over every run, the answer to every attempt of every class: no room, banned, too many
   * requests in flight, no page token, no token of the class, or admitted, in this order, with
   * the least sufficient hint; and everything the attempt changes.
   */
  lemma AnsweredExactly(cfg: Config, start: real, steps: seq<Step>, ip: Ip, class_: Class, now: real)
    requires cfg.Valid() && Legal(cfg, Start(cfg, start), steps)
    requires Enabled(After(cfg, Start(cfg, start), steps), Arrive(ip, class_, now))
    ensures var s := After(cfg, Start(cfg, start), steps);
            var (s', o) := Do(cfg, s, Arrive(ip, class_, now));
            && o.Some? && AnswersAs(cfg, s, ip, class_, now, o.value) && LeavesAs(cfg, s, ip, class_, now, o.value, s')
  {
    hide AnswersAs, LeavesAs, Admit;
    StartIsConserved(cfg, start);
    LeaseConservation(cfg, Start(cfg, start), steps);
    var s := After(cfg, Start(cfg, start), steps);
    AnswerInLedger(cfg, s, ip, class_, now);
    LedgerAfter(cfg, s, ip, class_, now);
  }

  // ------------------------------------------------------------ permits

  /** Over every run, a request gets a permit exactly while fewer than the limit are out. */
  lemma PermitsExactly(cfg: Config, start: real, steps: seq<Step>)
    requires cfg.Valid() && Legal(cfg, Start(cfg, start), steps)
    ensures var s := After(cfg, Start(cfg, start), steps);
            if s.pending + |s.leases| + s.draining < cfg.maxInFlight then
              s.free > 0 && Next(cfg, s, Acquire) == s.(pending := s.pending + 1, free := s.free - 1)
            else Next(cfg, s, Acquire) == s
  {
    StartIsConserved(cfg, start);
    LeaseConservation(cfg, Start(cfg, start), steps);
    hide After, Legal;
  }

  // ------------------------------------------------------------ failures

  /** The answers that are held against a client. */
  predicate IsClientError(status: nat)
  {
    || status == 400 || status == 401 || status == 403 || status == 404
    || status == 405 || status == 413 || status == 415 || status == 422
  }

  predicate IsFailure(step: Step, ip: Ip) { step.Report? && step.ip == ip && IsClientError(step.status) }

  /** A failure at `now` opens a new window: none is counted, or the last window is over. */
  predicate OpensWindow(cfg: Config, c: Client, now: real)
  {
    c.failures == 0 || Elapsed(c.failureStart, now) >= cfg.failureWindow as real
  }

  /** The state a reported status leaves behind. */
  predicate FailsAs(cfg: Config, s: Server, ip: Ip, status: nat, now: real, s': Server)
  {
    if !IsClientError(status) then s' == s
    else
      && ip in s.ledger.clients
      && var c := s.ledger.clients[ip];
         var count := if OpensWindow(cfg, c, now) then 1 else c.failures + 1;
         var counted := c.(failures := count,
                           failureStart := if OpensWindow(cfg, c, now) then now else c.failureStart,
                           bannedUntil := if count >= cfg.failuresBeforeBan
                                          then Some(now + cfg.banSeconds as real) else c.bannedUntil);
         s' == s.(ledger := s.ledger.(clients := s.ledger.clients[ip := counted]))
  }

  /**
   * Over every run, what a reported status does: nothing, unless it is one of the eight; else
   * it opens a window or counts in the open one, and bans from the configured number on.
   */
  lemma FailedExactly(cfg: Config, start: real, steps: seq<Step>, ip: Ip, status: nat, now: real)
    requires cfg.Valid() && Legal(cfg, Start(cfg, start), steps)
    requires Enabled(After(cfg, Start(cfg, start), steps), Report(ip, status, now))
    ensures var s := After(cfg, Start(cfg, start), steps);
            var s' := Next(cfg, s, Report(ip, status, now));
            FailsAs(cfg, s, ip, status, now, s')
  {
    StartIsConserved(cfg, start);
    LeaseConservation(cfg, Start(cfg, start), steps);
    hide After, Legal;
    LeaseHolderIsPresent(cfg, After(cfg, Start(cfg, start), steps), ip);
    FailureCounts(cfg, After(cfg, Start(cfg, start), steps), ip, status, now);
  }

  lemma FailureCounts(cfg: Config, s: Server, ip: Ip, status: nat, now: real)
    requires cfg.Valid() && Enabled(s, Report(ip, status, now)) && ip in s.ledger.clients
    ensures var s' := Next(cfg, s, Report(ip, status, now));
            FailsAs(cfg, s, ip, status, now, s')
  {
  }

  /** The failures of an address in a stretch of a run. */
  function Failures(ip: Ip, steps: seq<Step>): nat
    decreases |steps|
  {
    if steps == [] then 0 else (if IsFailure(steps[0], ip) then 1 else 0) + Failures(ip, steps[1..])
  }

  ghost predicate Until(steps: seq<Step>, end: real)
  {
    forall step <- steps :: Stamp(step).Some? ==> Stamp(step).value < end
  }

  /** The address has a window open since `opening` with `count` failures, and cannot be forgotten in it. */
  predicate Accruing(cfg: Config, s: Server, ip: Ip, opening: real, count: nat)
  {
    && ip in s.ledger.clients
    && var c := s.ledger.clients[ip];
       && c.bannedUntil.None? && c.failures == count && c.failureStart == opening
       && opening + cfg.failureWindow as real <= c.lastSeen + LongestAbsence(cfg)
  }

  function LongestAbsence(cfg: Config): real
  {
    (if cfg.failureWindow > 600 then cfg.failureWindow else 600) as real + 60.0
  }

  lemma AccruingStep(cfg: Config, s: Server, ip: Ip, opening: real, count: nat, clock: real, step: Step)
    requires cfg.Valid() && Conserved(cfg, s) && Enabled(s, step) && Accruing(cfg, s, ip, opening, count)
    requires opening <= clock <= Tick(clock, step) && count > 0
    requires Stamp(step).Some? ==> Stamp(step).value < opening + cfg.failureWindow as real
    ensures IsFailure(step, ip) && count + 1 >= cfg.failuresBeforeBan ==>
              BanOf(Next(cfg, s, step), ip) == Some(step.now + cfg.banSeconds as real)
    ensures !(IsFailure(step, ip) && count + 1 >= cfg.failuresBeforeBan) ==>
              Accruing(cfg, Next(cfg, s, step), ip, opening, if IsFailure(step, ip) then count + 1 else count)
  {
    match step
    case Arrive(who, class_, now) =>
      AccruingArrive(cfg, s, ip, opening, count, step);
    case Report(who, status, now) =>
      LeaseHolderIsPresent(cfg, s, who);
      FailureCounts(cfg, s, who, status, now);
      hide Next;
    case _ =>
  }

  lemma AccruingArrive(cfg: Config, s: Server, ip: Ip, opening: real, count: nat, step: Step)
    requires cfg.Valid() && Enabled(s, step) && Accruing(cfg, s, ip, opening, count)
    requires step.Arrive? && opening <= step.now < opening + cfg.failureWindow as real
    ensures Accruing(cfg, Next(cfg, s, step), ip, opening, count)
  {
    assert Remembers(cfg, s.ledger, ip, step.now);
    TableAfter(cfg, s.ledger, step.ip, step.class_, step.now);
    EntryAfter(cfg, s, step.ip, step.class_, step.now);
    AdmitOnSwept(cfg, s.ledger, step.ip, step.class_, step.now);
    RemembersIsKept(cfg, s.ledger, ip, step.now);
    hide Admit, AdmitClient, Sweep, Remembers, ChargesAs, Elapsed, ClientFor;
  }

  lemma {:induction false} AccruingRun(
    cfg: Config, s: Server, ip: Ip, opening: real, count: nat, clock: real, steps: seq<Step>)
    requires cfg.Valid() && Conserved(cfg, s) && Legal(cfg, s, steps) && Accruing(cfg, s, ip, opening, count)
    requires opening <= clock && InOrder(clock, steps) && count > 0
    requires Until(steps, opening + cfg.failureWindow as real) && count + Failures(ip, steps) <= cfg.failuresBeforeBan
    requires count < cfg.failuresBeforeBan
    ensures count + Failures(ip, steps) < cfg.failuresBeforeBan ==> BanOf(After(cfg, s, steps), ip) == None
    ensures count + Failures(ip, steps) == cfg.failuresBeforeBan && IsFailure(steps[|steps| - 1], ip) ==>
              BanOf(After(cfg, s, steps), ip) == Some(steps[|steps| - 1].now + cfg.banSeconds as real)
    decreases |steps|
  {
    hide Conserved, Next, InFlight;
    if steps != [] {
      var step, rest := steps[0], steps[1..];
      assert step in steps && Until(rest, opening + cfg.failureWindow as real);
      AccruingStep(cfg, s, ip, opening, count, clock, step);
      ConservedStep(cfg, s, step);
      var more := if IsFailure(step, ip) then count + 1 else count;
      if more < cfg.failuresBeforeBan {
        AccruingRun(cfg, Next(cfg, s, step), ip, opening, more, Tick(clock, step), rest);
        assert rest != [] ==> rest[|rest| - 1] == steps[|steps| - 1];
      } else {
        assert Failures(ip, rest) == 0;
        if IsFailure(steps[|steps| - 1], ip) {
          LastFailureCounts(ip, steps);
        }
      }
    }
  }

  /** A failure at the end of a longer stretch is not counted by its first step. */
  lemma {:induction false} LastFailureCounts(ip: Ip, steps: seq<Step>)
    requires steps != [] && IsFailure(steps[|steps| - 1], ip)
    ensures Failures(ip, steps) >= 1
    ensures |steps| > 1 ==> Failures(ip, steps[1..]) >= 1
    decreases |steps|
  {
    if |steps| > 1 {
      assert steps[1..][|steps| - 2] == steps[|steps| - 1];
      LastFailureCounts(ip, steps[1..]);
    }
  }

  lemma FirstFailure(cfg: Config, s: Server, ip: Ip, step: Step)
    requires cfg.Valid() && Enabled(s, step) && IsFailure(step, ip) && ip in s.ledger.clients
    requires var c := s.ledger.clients[ip];
             && c.bannedUntil.None? && OpensWindow(cfg, c, step.now)
             && step.now + cfg.failureWindow as real <= c.lastSeen + LongestAbsence(cfg)
    ensures if cfg.failuresBeforeBan > 1 then Accruing(cfg, Next(cfg, s, step), ip, step.now, 1)
            else BanOf(Next(cfg, s, step), ip) == Some(step.now + cfg.banSeconds as real)
  {
    FailureCounts(cfg, s, ip, step.status, step.now);
    hide Next;
  }

  /**
   * Enough failures ban: from a failure that opens a window, soon enough after the client was
   * last seen, the configured number of failures within the window bans it from the last of
   * them, and fewer do not, whatever else happens in between.
   */
  lemma {:induction false} EnoughFailuresBan(cfg: Config, s: Server, ip: Ip, steps: seq<Step>)
    requires cfg.Valid() && Conserved(cfg, s) && Legal(cfg, s, steps)
    requires steps != [] && IsFailure(steps[0], ip) && InOrder(steps[0].now, steps)
    requires Until(steps, steps[0].now + cfg.failureWindow as real) && Failures(ip, steps) <= cfg.failuresBeforeBan
    requires ip in s.ledger.clients
    requires var c := s.ledger.clients[ip];
             && c.bannedUntil.None? && OpensWindow(cfg, c, steps[0].now)
             && steps[0].now + cfg.failureWindow as real <= c.lastSeen + LongestAbsence(cfg)
    ensures Failures(ip, steps) < cfg.failuresBeforeBan ==> BanOf(After(cfg, s, steps), ip) == None
    ensures Failures(ip, steps) == cfg.failuresBeforeBan && IsFailure(steps[|steps| - 1], ip) ==>
              BanOf(After(cfg, s, steps), ip) == Some(steps[|steps| - 1].now + cfg.banSeconds as real)
  {
    var step, rest := steps[0], steps[1..];
    var s' := Next(cfg, s, step);
    FirstFailure(cfg, s, ip, step);
    ConservedStep(cfg, s, step);
    assert After(cfg, s, steps) == After(cfg, s', rest) && Legal(cfg, s', rest);
    assert Failures(ip, steps) == 1 + Failures(ip, rest);
    assert InOrder(step.now, rest) && Until(rest, step.now + cfg.failureWindow as real);
    hide Conserved, Next, Accruing, OpensWindow, IsClientError, BanOf, After, Legal, InOrder, Until, Failures;
    if cfg.failuresBeforeBan > 1 {
      AccruingRun(cfg, s', ip, step.now, 1, step.now, rest);
      NoFailures(ip);
      assert rest != [] ==> rest[|rest| - 1] == steps[|steps| - 1];
    } else if IsFailure(steps[|steps| - 1], ip) {
      LastFailureCounts(ip, steps);
      assert |steps| == 1;
      NothingAfter(cfg, s');
    }
  }

  lemma NoFailures(ip: Ip)
    ensures Failures(ip, []) == 0
  {
  }

  lemma NothingAfter(cfg: Config, s: Server)
    requires cfg.Valid()
    ensures Legal(cfg, s, []) && After(cfg, s, []) == s
  {
  }
}
