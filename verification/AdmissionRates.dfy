/**
 * What the token buckets guarantee: the retry hint of a refusal (section 10.2.3 of
 * RFC 9110), and a bound on admissions over any stretch of a run of the shared ledger.
 */
module AdmissionRates {
  import opened Wrappers
  import opened Admission
  import opened AdmissionRuns

  lemma GainAdds(x: real, y: real, cap: nat, period: nat)
    requires period > 0
    ensures Gain(x + y, cap, period) == Gain(x, cap, period) + Gain(y, cap, period)
  {
    assert (x + y) * cap as real == x * cap as real + y * cap as real;
  }

  lemma GainMonotone(x: real, y: real, cap: nat, period: nat)
    requires period > 0 && x <= y
    ensures Gain(x, cap, period) <= Gain(y, cap, period)
  {
    assert (y - x) * cap as real >= 0.0;
    GainAdds(x, y - x, cap, period);
  }

  lemma Cancel(x: real, period: nat)
    requires period > 0
    ensures x * period as real / period as real == x
  {
  }

  lemma GainOfPeriod(x: real, cap: nat, period: nat)
    requires period > 0 && x >= period as real
    ensures Gain(x, cap, period) >= cap as real
  {
    GainMonotone(period as real, x, cap, period);
    var p, c := period as real, cap as real;
    assert p * c == c * p;
    Cancel(c, period);
    assert Gain(p, cap, period) == p * c / p;
  }

  // ------------------------------------------------------------ retry hint

  /** Tries at these times, in order, all fail. */
  ghost predicate AllFail(b: Bucket, cap: nat, period: nat, tries: seq<real>)
    requires cap > 0 && period > 0
    decreases |tries|
  {
    tries != [] ==>
      && tries[0] >= b.updated && Take(b, cap, period, tries[0]).1.Some?
      && AllFail(Take(b, cap, period, tries[0]).0, cap, period, tries[1..])
  }

  ghost function AfterTries(b: Bucket, cap: nat, period: nat, tries: seq<real>): Bucket
    requires cap > 0 && period > 0
    decreases |tries|
  {
    if tries == [] then b else AfterTries(Take(b, cap, period, tries[0]).0, cap, period, tries[1..])
  }

  lemma {:induction false} FailuresOnlyAccrue(b: Bucket, cap: nat, period: nat, tries: seq<real>)
    requires cap > 0 && period > 0 && b.tokens < 1.0 && AllFail(b, cap, period, tries)
    ensures var e := AfterTries(b, cap, period, tries);
            && e.tokens < 1.0 && e.updated >= b.updated
            && e.tokens == b.tokens + Gain(e.updated - b.updated, cap, period)
    decreases |tries|
  {
    if tries == [] {
      assert Gain(0.0, cap, period) == 0.0;
    } else {
      var b' := Take(b, cap, period, tries[0]).0;
      var e := AfterTries(b', cap, period, tries[1..]);
      FailuresOnlyAccrue(b', cap, period, tries[1..]);
      GainAdds(tries[0] - b.updated, e.updated - tries[0], cap, period);
      assert Since(b.updated, tries[0]) == tries[0] - b.updated;
    }
  }

  lemma NeedIsExact(tokens: real, cap: nat, period: nat, d: real)
    requires cap > 0 && period > 0
    ensures tokens + Gain(d, cap, period) >= 1.0 <==> d >= Need(tokens, cap, period)
  {
    var n := Need(tokens, cap, period);
    assert n * cap as real == (1.0 - tokens) * period as real;
    Cancel(1.0 - tokens, period);
    if d >= n {
      GainMonotone(n, d, cap, period);
    } else {
      GainAdds(d, n - d, cap, period);
      assert (n - d) * cap as real > 0.0;
      assert Gain(n - d, cap, period) > 0.0;
    }
  }

  lemma TakeOutcome(b: Bucket, cap: nat, period: nat, t: real)
    requires cap > 0 && period > 0 && t >= b.updated
    ensures Take(b, cap, period, t).1.None? <==> b.tokens + Gain(t - b.updated, cap, period) >= 1.0
  {
    assert Since(b.updated, t) == t - b.updated;
  }

  /** The wait a refusal names is the exact need, rounded up. */
  lemma RefusalWait(b: Bucket, cap: nat, period: nat, now: real)
    requires cap > 0 && period > 0 && Take(b, cap, period, now).1.Some?
    ensures var (refused, s) := Take(b, cap, period, now);
            && refused.tokens < 1.0 && refused.updated == now
            && s.value == Ceiling(Need(refused.tokens, cap, period))
  {
    hide Gain, Need, Ceiling;
    var refused := Take(b, cap, period, now).0;
    NeedIsPositive(refused.tokens, cap, period);
    CeilingIsLeast(Need(refused.tokens, cap, period));
  }

  lemma NeedIsPositive(tokens: real, cap: nat, period: nat)
    requires cap > 0 && period > 0 && tokens < 1.0
    ensures Need(tokens, cap, period) > 0.0
  {
    assert (1.0 - tokens) * period as real > 0.0;
    PositiveQuotient((1.0 - tokens) * period as real, cap as real);
  }

  lemma PositiveQuotient(x: real, y: real)
    requires x > 0.0 && y > 0.0
    ensures x / y > 0.0
  {
  }

  lemma CeilingIsLeast(x: real)
    ensures Ceiling(x) as real >= x && Ceiling(x) as real - 1.0 < x
  {
  }

  /**
   * After a refusal that says `s`: whatever failing tries come first, the next try succeeds
   * exactly when `Need` seconds have passed; `s` seconds always suffice, `s - 1` never do.
   */
  lemma RetryHint(b: Bucket, cap: nat, period: nat, now: real, tries: seq<real>, t: real)
    requires cap > 0 && period > 0 && Take(b, cap, period, now).1.Some?
    requires var refused := Take(b, cap, period, now).0;
             AllFail(refused, cap, period, tries) && t >= AfterTries(refused, cap, period, tries).updated
    ensures var (refused, s) := Take(b, cap, period, now);
            var retry := Take(AfterTries(refused, cap, period, tries), cap, period, t);
            && (retry.1.None? <==> t - now >= Need(refused.tokens, cap, period))
            && (t >= now + s.value as real ==> retry.1.None?)
            && (t <= now + (s.value - 1) as real ==> retry.1.Some?)
  {
    hide Take, Gain, Need, Ceiling;
    RefusalWait(b, cap, period, now);
    var (refused, s) := Take(b, cap, period, now);
    FailuresOnlyAccrue(refused, cap, period, tries);
    var e := AfterTries(refused, cap, period, tries);
    GainAdds(e.updated - now, t - e.updated, cap, period);
    NeedIsExact(refused.tokens, cap, period, t - now);
    CeilingIsLeast(Need(refused.tokens, cap, period));
    TakeOutcome(e, cap, period, t);
  }

  // ------------------------------------------------------------ rate bound

  /** How far the clock of admission attempts moves forward, summed over the run. */
  ghost function Forward(clock: real, steps: seq<Step>): real
    decreases |steps|
  {
    if steps == [] then 0.0
    else if steps[0].Arrive? then Since(clock, steps[0].now) + Forward(steps[0].now, steps[1..])
    else Forward(clock, steps[1..])
  }

  /** Admissions of `ip` that were charged to the budget of `k`; every one is charged to General. */
  predicate Charged(step: Step, outcome: Option<Outcome>, ip: Ip, k: Class)
  {
    step.Arrive? && step.ip == ip && (k == General || step.class_ == k) && outcome == Some(Admitted)
  }

  ghost function Admissions(cfg: Config, s: Server, ip: Ip, k: Class, steps: seq<Step>): nat
    requires cfg.Valid() && Legal(cfg, s, steps)
    decreases |steps|
  {
    if steps == [] then 0
    else
      var (s', outcome) := Do(cfg, s, steps[0]);
      (if Charged(steps[0], outcome, ip, k) then 1 else 0) + Admissions(cfg, s', ip, k, steps[1..])
  }

  /**
   * `g` and `h` are the forward movement since the budget's bucket was last charged and since
   * the client was last seen; the clock cannot be further from those instants than that.
   */
  ghost predicate Tracked(cfg: Config, l: Ledger, ip: Ip, k: Class, clock: real, g: real, h: real)
  {
    ip in l.clients ==>
      var b := l.clients[ip].buckets.Get(k);
      && 0.0 <= h <= g
      && clock - b.updated <= g && clock - l.clients[ip].lastSeen <= h
      && 0.0 <= b.tokens <= cfg.Cap(k) as real
  }

  /** An upper bound on the tokens the budget can show; a forgotten client counts as full. */
  ghost function Potential(cfg: Config, l: Ledger, ip: Ip, k: Class, g: real): real
  {
    if ip in l.clients
    then RMin(cfg.Cap(k) as real, l.clients[ip].buckets.Get(k).tokens + Gain(g, cfg.Cap(k), Period(k)))
    else cfg.Cap(k) as real
  }

  function RMin(x: real, y: real): real { if x < y then x else y }

  /** A take at `now` leaves at most what the forward movement could have earned, less the charge. */
  lemma TakeUnderPotential(cfg: Config, b: Bucket, k: Class, now: real, g: real)
    requires cfg.Valid() && 0.0 <= b.tokens <= cfg.Cap(k) as real && 0.0 <= g && now - b.updated <= g
    ensures var (b', wait) := Take(b, cfg.Cap(k), Period(k), now);
            && 0.0 <= b'.tokens <= cfg.Cap(k) as real && b'.updated == now
            && b'.tokens + (if wait.None? then 1.0 else 0.0)
               <= RMin(cfg.Cap(k) as real, b.tokens + Gain(g, cfg.Cap(k), Period(k)))
  {
    hide Gain, RetryAfter;
    GainMonotone(Since(b.updated, now), g, cfg.Cap(k), Period(k));
    GainMonotone(0.0, Since(b.updated, now), cfg.Cap(k), Period(k));
    GainOfNothing(cfg.Cap(k), Period(k));
  }

  lemma GainOfNothing(cap: nat, period: nat)
    requires period > 0
    ensures Gain(0.0, cap, period) == 0.0
  {
  }

  /** Forward movement raises the potential by what it earns; a sweep forgets only full buckets. */
  lemma SweepPotential(cfg: Config, l: Ledger, ip: Ip, k: Class, clock: real, now: real, g: real, h: real)
    requires cfg.Valid() && Tracked(cfg, l, ip, k, clock, g, h)
    ensures var d := Since(clock, now);
            && Tracked(cfg, Sweep(cfg, l, now), ip, k, now, g + d, h + d)
            && Potential(cfg, Sweep(cfg, l, now), ip, k, g + d)
               <= Potential(cfg, l, ip, k, g) + Gain(d, cfg.Cap(k), Period(k))
  {
    hide Gain;
    var d := Since(clock, now);
    GainAdds(g, d, cfg.Cap(k), Period(k));
    GainOfNothing(cfg.Cap(k), Period(k));
    GainMonotone(0.0, d, cfg.Cap(k), Period(k));
    if ip in l.clients && ip !in Sweep(cfg, l, now).clients {
      GainOfPeriod(g + d, cfg.Cap(k), Period(k));
    }
  }

  /** Whether an attempt with this outcome drew on the budget of `k`. */
  predicate Drew(class_: Class, outcome: Outcome, k: Class)
  {
    if k == General then outcome.RequestRate? || outcome.OperationRate? || outcome.Admitted?
    else class_ == k && (outcome.OperationRate? || outcome.Admitted?)
  }

  /** What an attempt does to one of the client's budgets. */
  lemma AttemptOnBudget(cfg: Config, c: Client, class_: Class, now: real, k: Class)
    requires cfg.Valid()
    ensures var (c', o) := AdmitClient(cfg, c, class_, now);
            var (b, wait) := Take(c.buckets.Get(k), cfg.Cap(k), Period(k), now);
            && c'.lastSeen == now
            && c'.buckets.Get(k) == (if Drew(class_, o, k) then b else c.buckets.Get(k))
            && (o.Admitted? && (k == General || k == class_) ==> Drew(class_, o, k) && wait.None?)
  {
    hide Take;
  }

  lemma ArrivePotential(cfg: Config, l: Ledger, ip: Ip, k: Class, who: Ip, class_: Class,
                        clock: real, now: real, g: real, h: real)
    returns (g': real, h': real)
    requires cfg.Valid() && Tracked(cfg, l, ip, k, clock, g, h)
    ensures var (l', o) := Admit(cfg, l, who, class_, now);
            && Tracked(cfg, l', ip, k, now, g', h')
            && Potential(cfg, l', ip, k, g') + (if Charged(Arrive(who, class_, now), Some(o), ip, k) then 1.0 else 0.0)
               <= Potential(cfg, l, ip, k, g) + Gain(Since(clock, now), cfg.Cap(k), Period(k))
  {
    hide Gain, Sweep, Take, AdmitClient;
    var d := Since(clock, now);
    SweepPotential(cfg, l, ip, k, clock, now, g, h);
    g', h' := g + d, h + d;
    var swept := Sweep(cfg, l, now);
    var (l', o) := Admit(cfg, l, who, class_, now);
    if who == ip && !o.CapacityReached? {
      var fresh_ := ip !in swept.clients;
      var c := if fresh_ then NewClient(cfg, now) else swept.clients[ip];
      var start := if fresh_ then 0.0 else g';
      NewClientBudget(cfg, now, k);
      h' := 0.0;
      g' := if Drew(class_, o, k) then 0.0 else start;
      AttemptUnderPotential(cfg, c, class_, k, now, start);
      GainOfNothing(cfg.Cap(k), Period(k));
    } else if o.CapacityReached? {
      AttemptIsNotCapacity(cfg, if who in swept.clients then swept.clients[who] else NewClient(cfg, now), class_, now);
    }
  }

  /** One attempt on one client: what is left of a budget, and what was charged to it. */
  lemma AttemptUnderPotential(cfg: Config, c: Client, class_: Class, k: Class, now: real, g: real)
    requires cfg.Valid() && 0.0 <= c.buckets.Get(k).tokens <= cfg.Cap(k) as real && 0.0 <= g
    requires now - c.buckets.Get(k).updated <= g
    ensures var (c', o) := AdmitClient(cfg, c, class_, now);
            var b, b' := c.buckets.Get(k), c'.buckets.Get(k);
            && c'.lastSeen == now
            && (if Drew(class_, o, k) then b'.updated == now && 0.0 <= b'.tokens <= cfg.Cap(k) as real else b' == b)
            && (if Drew(class_, o, k) then b'.tokens
                else RMin(cfg.Cap(k) as real, b.tokens + Gain(g, cfg.Cap(k), Period(k))))
               + (if o.Admitted? && (k == General || k == class_) then 1.0 else 0.0)
               <= RMin(cfg.Cap(k) as real, b.tokens + Gain(g, cfg.Cap(k), Period(k)))
  {
    hide Gain, Take, AdmitClient;
    AttemptOnBudget(cfg, c, class_, now, k);
    TakeUnderPotential(cfg, c.buckets.Get(k), k, now, g);
  }

  lemma NewClientBudget(cfg: Config, now: real, k: Class)
    requires cfg.Valid()
    ensures NewClient(cfg, now).buckets.Get(k) == Bucket(cfg.Cap(k) as real, now) && NewClient(cfg, now).lastSeen == now
  {
  }

  lemma AttemptIsNotCapacity(cfg: Config, c: Client, class_: Class, now: real)
    requires cfg.Valid()
    ensures !AdmitClient(cfg, c, class_, now).1.CapacityReached?
  {
  }

  /**
   * In any stretch of a run, from any clock position, the admissions of one address charged to
   * one budget are at most its cap plus what the forward clock movement can earn, across every
   * sweep that forgets and recreates the client.
   */
  lemma {:induction false} RateBound(
    cfg: Config, s: Server, ip: Ip, k: Class, steps: seq<Step>, clock: real, g: real, h: real)
    requires cfg.Valid() && Legal(cfg, s, steps) && Tracked(cfg, s.ledger, ip, k, clock, g, h)
    ensures Admissions(cfg, s, ip, k, steps) as real
            <= Potential(cfg, s.ledger, ip, k, g) + Gain(Forward(clock, steps), cfg.Cap(k), Period(k))
    decreases |steps|
  {
    hide Gain, Admit, Potential, Tracked;
    if steps == [] {
      GainOfNothing(cfg.Cap(k), Period(k));
      PotentialNonNegative(cfg, s.ledger, ip, k, clock, g, h);
    } else {
      var step, s' := steps[0], Next(cfg, s, steps[0]);
      if step.Arrive? {
        var g', h' := ArrivePotential(cfg, s.ledger, ip, k, step.ip, step.class_, clock, step.now, g, h);
        RateBound(cfg, s', ip, k, steps[1..], step.now, g', h');
        GainAdds(Since(clock, step.now), Forward(step.now, steps[1..]), cfg.Cap(k), Period(k));
      } else {
        OtherPotential(cfg, s, step, ip, k, clock, g, h);
        RateBound(cfg, s', ip, k, steps[1..], clock, g, h);
      }
    }
  }

  /** Only admission attempts touch a budget. */
  lemma OtherPotential(cfg: Config, s: Server, step: Step, ip: Ip, k: Class, clock: real, g: real, h: real)
    requires cfg.Valid() && Enabled(s, step) && !step.Arrive? && Tracked(cfg, s.ledger, ip, k, clock, g, h)
    ensures Tracked(cfg, Next(cfg, s, step).ledger, ip, k, clock, g, h)
    ensures Potential(cfg, Next(cfg, s, step).ledger, ip, k, g) == Potential(cfg, s.ledger, ip, k, g)
  {
    hide Gain, Admit;
  }

  lemma PotentialNonNegative(cfg: Config, l: Ledger, ip: Ip, k: Class, clock: real, g: real, h: real)
    requires cfg.Valid() && Tracked(cfg, l, ip, k, clock, g, h)
    ensures 0.0 <= Potential(cfg, l, ip, k, g) <= cfg.Cap(k) as real
  {
    hide Gain;
    if ip in l.clients {
      GainMonotone(0.0, g, cfg.Cap(k), Period(k));
      GainOfNothing(cfg.Cap(k), Period(k));
    }
  }

  /** The clock of attempts after the run, and how far it ever stepped back. */
  ghost function LastAttempt(clock: real, steps: seq<Step>): real
    decreases |steps|
  {
    if steps == [] then clock
    else LastAttempt(if steps[0].Arrive? then steps[0].now else clock, steps[1..])
  }

  ghost function Backward(clock: real, steps: seq<Step>): real
    decreases |steps|
  {
    if steps == [] then 0.0
    else if steps[0].Arrive? then Since(steps[0].now, clock) + Backward(steps[0].now, steps[1..])
    else Backward(clock, steps[1..])
  }

  lemma {:induction false} ForwardIsNetPlusBackward(clock: real, steps: seq<Step>)
    ensures Forward(clock, steps) == LastAttempt(clock, steps) - clock + Backward(clock, steps)
    decreases |steps|
  {
    if steps != [] {
      ForwardIsNetPlusBackward(if steps[0].Arrive? then steps[0].now else clock, steps[1..]);
    }
  }

  /** Some tracking exists in every reachable state. */
  lemma {:induction false} TrackedRun(
    cfg: Config, s: Server, ip: Ip, k: Class, steps: seq<Step>, clock: real, g: real, h: real)
    returns (g': real, h': real)
    requires cfg.Valid() && Legal(cfg, s, steps) && Tracked(cfg, s.ledger, ip, k, clock, g, h)
    ensures Tracked(cfg, After(cfg, s, steps).ledger, ip, k, LastAttempt(clock, steps), g', h')
    decreases |steps|
  {
    hide Gain, Admit;
    if steps == [] {
      g', h' := g, h;
    } else {
      var step, s' := steps[0], Next(cfg, s, steps[0]);
      var g1, h1, clock1 := g, h, clock;
      if step.Arrive? {
        g1, h1 := ArrivePotential(cfg, s.ledger, ip, k, step.ip, step.class_, clock, step.now, g, h);
        clock1 := step.now;
      }
      g', h' := TrackedRun(cfg, s', ip, k, steps[1..], clock1, g1, h1);
    }
  }

  /** The stamp of the first attempt of a window, of any address. */
  ghost function FirstAttempt(clock: real, window: seq<Step>): real
    decreases |window|
  {
    if window == [] then clock
    else if window[0].Arrive? then window[0].now
    else FirstAttempt(clock, window[1..])
  }

  /** Tracking can be restarted at any clock, at the price of larger `g` and `h`. */
  lemma Retrack(cfg: Config, l: Ledger, ip: Ip, k: Class, clock: real, g: real, h: real, now: real)
    returns (g': real, h': real)
    requires cfg.Valid() && Tracked(cfg, l, ip, k, clock, g, h)
    ensures Tracked(cfg, l, ip, k, now, g', h')
  {
    var d := Since(clock, now);
    g', h' := g + d, h + d;
  }

  /**
   * In every run from an empty ledger, any window admits at most cap + T * cap / period
   * requests of one address on one budget, T being the time from the first attempt in the
   * window to its last, plus cap / period for each second the lock order set the clock back
   * between them.
   */
  lemma WindowBound(cfg: Config, start: real, before: seq<Step>, window: seq<Step>, ip: Ip, k: Class)
    requires cfg.Valid() && Legal(cfg, Start(cfg, start), before)
    requires Legal(cfg, After(cfg, Start(cfg, start), before), window)
    ensures var s := After(cfg, Start(cfg, start), before);
            var from := FirstAttempt(start, window);
            var elapsed := LastAttempt(from, window) - from;
            Admissions(cfg, s, ip, k, window) as real
            <= cfg.Cap(k) as real + Gain(elapsed, cfg.Cap(k), Period(k))
               + Gain(Backward(from, window), cfg.Cap(k), Period(k))
  {
    hide Gain, Tracked;
    NothingTracked(cfg, start, ip, k);
    var g, h := TrackedRun(cfg, Start(cfg, start), ip, k, before, start, 0.0, 0.0);
    var s, from := After(cfg, Start(cfg, start), before), FirstAttempt(start, window);
    g, h := Retrack(cfg, s.ledger, ip, k, LastAttempt(start, before), g, h, from);
    RateBound(cfg, s, ip, k, window, from, g, h);
    PotentialNonNegative(cfg, s.ledger, ip, k, from, g, h);
    ForwardIsNetPlusBackward(from, window);
    GainAdds(LastAttempt(from, window) - from, Backward(from, window), cfg.Cap(k), Period(k));
  }

  lemma NothingTracked(cfg: Config, start: real, ip: Ip, k: Class)
    ensures Tracked(cfg, Start(cfg, start).ledger, ip, k, start, 0.0, 0.0)
  {
  }
}
