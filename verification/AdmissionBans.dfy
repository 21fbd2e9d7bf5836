/** Ban safety and the retry hint, over whole runs of the shared, swept ledger. */
module AdmissionBans {
  import opened Wrappers
  import opened Admission
  import opened AdmissionRuns

  /** The instant an event was stamped with, before it took the ledger lock. */
  function Stamp(step: Step): Option<real>
  {
    match step
    case Arrive(_, _, now) => Some(now)
    case Report(_, _, now) => Some(now)
    case _ => None
  }

  function Tick(clock: real, step: Step): real
  {
    if Stamp(step).Some? then Stamp(step).value else clock
  }

  /** Events take the lock in the order of their stamps. */
  ghost predicate InOrder(clock: real, steps: seq<Step>)
    decreases |steps|
  {
    steps != [] ==> clock <= Tick(clock, steps[0]) && InOrder(Tick(clock, steps[0]), steps[1..])
  }

  predicate CountedFailure(step: Step, ip: Ip)
  {
    step.Report? && step.ip == ip && Counts(step.status)
  }

  /** The counted failures of `ip`, from position `first` on, stamped before the window opened at `from` ends. */
  function CountLate(history: seq<Step>, first: nat, ip: Ip, from: real, window: real): nat
  {
    if |history| <= first then 0
    else
      var last := history[|history| - 1];
      CountLate(history[..|history| - 1], first, ip, from, window)
      + if CountedFailure(last, ip) && last.now < from + window then 1 else 0
  }

  lemma CountSnoc(history: seq<Step>, step: Step, first: nat, ip: Ip, from: real, window: real)
    requires first <= |history|
    ensures CountLate(history + [step], first, ip, from, window)
            == CountLate(history, first, ip, from, window)
               + if CountedFailure(step, ip) && step.now < from + window then 1 else 0
  {
    assert (history + [step])[..|history|] == history;
  }

  /** The failure at position `first` opened the window at `from`; `count` counted failures came from there on. */
  ghost predicate Opened(cfg: Config, history: seq<Step>, first: nat, ip: Ip, from: real, count: nat)
  {
    && first < |history| && CountedFailure(history[first], ip) && history[first].now == from
    && count <= CountLate(history, first, ip, from, cfg.failureWindow as real)
  }

  /** A client's failure count is backed by that many failures since the one that opened its window. */
  ghost predicate ClientBacked(cfg: Config, c: Client, ip: Ip, history: seq<Step>)
  {
    c.failures > 0 ==> exists first :: Opened(cfg, history, first, ip, c.failureStart, c.failures)
  }

  ghost predicate Backed(cfg: Config, s: Server, history: seq<Step>)
  {
    forall ip | ip in s.ledger.clients :: ClientBacked(cfg, s.ledger.clients[ip], ip, history)
  }

  /** An admission attempt leaves the failure state alone, or clears it with an expired ban. */
  lemma AdmitClientFailures(cfg: Config, c: Client, class_: Class, now: real)
    requires cfg.Valid()
    ensures var c' := AdmitClient(cfg, c, class_, now).0;
            && c'.failureStart == c.failureStart
            && ((c'.failures == c.failures && c'.bannedUntil == c.bannedUntil)
                || (c'.failures == 0 && c'.bannedUntil == None))
  {
    hide Take;
  }

  /** Where a client's failure state comes from after an admission attempt. */
  lemma AdmitFailures(cfg: Config, l: Ledger, who: Ip, class_: Class, now: real, ip: Ip)
    requires cfg.Valid()
    requires ip in Admit(cfg, l, who, class_, now).0.clients
    ensures var c' := Admit(cfg, l, who, class_, now).0.clients[ip];
            || (c'.failures == 0 && c'.bannedUntil == None && c'.failureStart == now)
            || (ip in l.clients && var c := l.clients[ip];
                && c'.failureStart == c.failureStart
                && ((c'.failures == c.failures && c'.bannedUntil == c.bannedUntil)
                    || (c'.failures == 0 && c'.bannedUntil == None)))
  {
    var swept := Sweep(cfg, l, now);
    AdmitClientFailures(cfg, NewClient(cfg, now), class_, now);
    if who in swept.clients {
      AdmitClientFailures(cfg, swept.clients[who], class_, now);
    }
    hide AdmitClient, Kept;
  }

  /** What opened a window stays its opening. */
  lemma BackedLater(cfg: Config, c: Client, ip: Ip, history: seq<Step>, step: Step)
    requires ClientBacked(cfg, c, ip, history)
    ensures ClientBacked(cfg, c, ip, history + [step])
  {
    if c.failures > 0 {
      var first :| Opened(cfg, history, first, ip, c.failureStart, c.failures);
      CountSnoc(history, step, first, ip, c.failureStart, cfg.failureWindow as real);
      assert Opened(cfg, history + [step], first, ip, c.failureStart, c.failures);
    }
  }

  lemma FailureBacked(cfg: Config, c: Client, ip: Ip, history: seq<Step>, step: Step)
    requires cfg.Valid() && ClientBacked(cfg, c, ip, history) && CountedFailure(step, ip)
    ensures ClientBacked(cfg, FailClient(cfg, c, step.now), ip, history + [step])
  {
    var c' := FailClient(cfg, c, step.now);
    var window := cfg.failureWindow as real;
    if c'.failures == 1 && c'.failureStart == step.now {
      CountSnoc(history, step, |history|, ip, step.now, window);
      assert Opened(cfg, history + [step], |history|, ip, step.now, 1);
    } else {
      var first :| Opened(cfg, history, first, ip, c.failureStart, c.failures);
      CountSnoc(history, step, first, ip, c.failureStart, window);
      assert Opened(cfg, history + [step], first, ip, c.failureStart, c.failures + 1);
    }
  }

  lemma ArriveBacked(cfg: Config, s: Server, history: seq<Step>, step: Step, ip: Ip)
    requires cfg.Valid() && Enabled(s, step) && Backed(cfg, s, history) && step.Arrive?
    requires ip in Next(cfg, s, step).ledger.clients
    ensures ClientBacked(cfg, Next(cfg, s, step).ledger.clients[ip], ip, history + [step])
  {
    hide CountLate, Admit;
    AdmitFailures(cfg, s.ledger, step.ip, step.class_, step.now, ip);
    if ip in s.ledger.clients {
      BackedLater(cfg, s.ledger.clients[ip], ip, history, step);
    }
  }

  lemma OtherBacked(cfg: Config, s: Server, history: seq<Step>, step: Step, ip: Ip)
    requires cfg.Valid() && Enabled(s, step) && Backed(cfg, s, history) && !step.Arrive?
    requires ip in Next(cfg, s, step).ledger.clients
    ensures ClientBacked(cfg, Next(cfg, s, step).ledger.clients[ip], ip, history + [step])
  {
    var c := s.ledger.clients[ip];
    BackedLater(cfg, c, ip, history, step);
    if CountedFailure(step, ip) {
      FailureBacked(cfg, c, ip, history, step);
    }
    hide CountLate, Opened, FailClient;
  }

  lemma BackedStep(cfg: Config, s: Server, history: seq<Step>, step: Step)
    requires cfg.Valid() && Enabled(s, step) && Backed(cfg, s, history)
    ensures Backed(cfg, Next(cfg, s, step), history + [step])
  {
    hide Next, ClientBacked;
    forall ip | ip in Next(cfg, s, step).ledger.clients
      ensures ClientBacked(cfg, Next(cfg, s, step).ledger.clients[ip], ip, history + [step])
    {
      if step.Arrive? {
        ArriveBacked(cfg, s, history, step, ip);
      } else {
        OtherBacked(cfg, s, history, step, ip);
      }
    }
  }

  lemma {:induction false} BackedRun(cfg: Config, s: Server, history: seq<Step>, steps: seq<Step>)
    requires cfg.Valid() && Legal(cfg, s, steps) && Backed(cfg, s, history)
    ensures Backed(cfg, After(cfg, s, steps), history + steps)
    decreases |steps|
  {
    hide Next, Backed;
    if steps == [] {
      assert history + steps == history;
    } else {
      BackedStep(cfg, s, history, steps[0]);
      BackedRun(cfg, Next(cfg, s, steps[0]), history + [steps[0]], steps[1..]);
      assert history + [steps[0]] + steps[1..] == history + steps;
    }
  }

  ghost function BanOf(s: Server, ip: Ip): Option<real>
  {
    if ip in s.ledger.clients then s.ledger.clients[ip].bannedUntil else None
  }

  /** `step` starts or renews a ban of `ip` after the run `steps`. */
  ghost predicate Bans(cfg: Config, start: real, steps: seq<Step>, step: Step, ip: Ip)
    requires cfg.Valid() && Legal(cfg, Start(cfg, start), steps)
  {
    var s := After(cfg, Start(cfg, start), steps);
    Enabled(s, step) && BanOf(Next(cfg, s, step), ip).Some? && BanOf(Next(cfg, s, step), ip) != BanOf(s, ip)
  }

  /** Only a failure changes a ban for another. */
  lemma BannedByFailure(cfg: Config, s: Server, step: Step, ip: Ip)
    requires cfg.Valid() && Enabled(s, step)
    requires BanOf(Next(cfg, s, step), ip).Some? && BanOf(Next(cfg, s, step), ip) != BanOf(s, ip)
    ensures CountedFailure(step, ip) && BanOf(Next(cfg, s, step), ip) == Some(step.now + cfg.banSeconds as real)
    ensures ip in Next(cfg, s, step).ledger.clients
    ensures var c := Next(cfg, s, step).ledger.clients[ip];
            c.failures >= cfg.failuresBeforeBan && step.now < c.failureStart + cfg.failureWindow as real
  {
    if step.Arrive? {
      hide Admit;
      AdmitFailures(cfg, s.ledger, step.ip, step.class_, step.now, ip);
    }
  }

  /**
   * In every run from an empty ledger, whatever order the events take the lock in, a ban
   * begins or is renewed only by a counted failure of that same address, and only when the
   * configured number of its counted failures, from the one that opened the window on and
   * including this one, are stamped before the window's end.
   */
  lemma BanNeedsFailures(cfg: Config, start: real, steps: seq<Step>, step: Step, ip: Ip)
    requires cfg.Valid() && Legal(cfg, Start(cfg, start), steps) && Bans(cfg, start, steps, step, ip)
    ensures CountedFailure(step, ip)
    ensures BanOf(Next(cfg, After(cfg, Start(cfg, start), steps), step), ip) == Some(step.now + cfg.banSeconds as real)
    ensures exists first: nat, from: real ::
              && Opened(cfg, steps + [step], first, ip, from, cfg.failuresBeforeBan)
              && step.now < from + cfg.failureWindow as real
  {
    hide Next, CountLate, Opened;
    var s0 := Start(cfg, start);
    var s := After(cfg, s0, steps);
    BackedRun(cfg, s0, [], steps);
    assert [] + steps == steps;
    BackedStep(cfg, s, steps, step);
    BannedByFailure(cfg, s, step, ip);
    var c := Next(cfg, s, step).ledger.clients[ip];
    assert ClientBacked(cfg, c, ip, steps + [step]);
    var first :| Opened(cfg, steps + [step], first, ip, c.failureStart, c.failures);
    FewerOpened(cfg, steps + [step], first, ip, c.failureStart, c.failures, cfg.failuresBeforeBan);
  }

  lemma FewerOpened(cfg: Config, history: seq<Step>, first: nat, ip: Ip, from: real, count: nat, fewer: nat)
    requires Opened(cfg, history, first, ip, from, count) && fewer <= count
    ensures Opened(cfg, history, first, ip, from, fewer)
  {
  }

  /** In lock order, every stamp from the opening on lies in the window: its count is a count of stamps in it. */
  lemma {:induction false} LateIsWithin(
    start: real, history: seq<Step>, first: nat, ip: Ip, from: real, window: real)
    requires InOrder(start, history) && first < |history| && Stamp(history[first]) == Some(from)
    ensures CountLate(history, first, ip, from, window) <= CountWithin(history, ip, from, window)
    decreases |history|
  {
    var n := |history| - 1;
    InOrderFront(start, history);
    if Stamp(history[n]).Some? {
      StampsRise(start, history, first, n);
    }
    if first < n {
      LateIsWithin(start, history[..n], first, ip, from, window);
    } else {
      assert CountLate(history[..n], first, ip, from, window) == 0;
    }
  }

  /** The counted failures of `ip` stamped inside the window that starts at `from`. */
  function CountWithin(history: seq<Step>, ip: Ip, from: real, window: real): nat
  {
    if history == [] then 0
    else
      var last := history[|history| - 1];
      CountWithin(history[..|history| - 1], ip, from, window)
      + if CountedFailure(last, ip) && from <= last.now < from + window then 1 else 0
  }

  lemma {:induction false} InOrderFront(clock: real, steps: seq<Step>)
    requires InOrder(clock, steps) && steps != []
    ensures InOrder(clock, steps[..|steps| - 1])
    decreases |steps|
  {
    if |steps| > 1 {
      InOrderFront(Tick(clock, steps[0]), steps[1..]);
      assert steps[1..][..|steps| - 2] == steps[..|steps| - 1][1..];
    }
  }

  lemma {:induction false} StampsRise(clock: real, steps: seq<Step>, i: nat, j: nat)
    requires InOrder(clock, steps) && i <= j < |steps| && Stamp(steps[i]).Some? && Stamp(steps[j]).Some?
    ensures Stamp(steps[i]).value <= Stamp(steps[j]).value
    decreases |steps|
  {
    if i > 0 {
      StampsRise(Tick(clock, steps[0]), steps[1..], i - 1, j - 1);
    } else if j > 0 {
      StampsAfter(Tick(clock, steps[0]), steps[1..], j - 1);
    }
  }

  lemma {:induction false} StampsAfter(clock: real, steps: seq<Step>, j: nat)
    requires InOrder(clock, steps) && j < |steps| && Stamp(steps[j]).Some?
    ensures clock <= Stamp(steps[j]).value
    decreases |steps|
  {
    if j > 0 {
      StampsAfter(Tick(clock, steps[0]), steps[1..], j - 1);
    }
  }

  /** The window opened at `from` contains `now` and the configured number of failures. */
  predicate EnoughFailures(cfg: Config, history: seq<Step>, ip: Ip, from: real, now: real)
  {
    && from <= now < from + cfg.failureWindow as real
    && CountWithin(history, ip, from, cfg.failureWindow as real) >= cfg.failuresBeforeBan
  }

  /** When events take the lock in the order of their stamps, those failures all lie in one failure window. */
  lemma BanNeedsFailuresInOneWindow(cfg: Config, start: real, steps: seq<Step>, step: Step, ip: Ip)
    requires cfg.Valid() && Legal(cfg, Start(cfg, start), steps) && Bans(cfg, start, steps, step, ip)
    requires InOrder(start, steps + [step])
    ensures exists from: real :: EnoughFailures(cfg, steps + [step], ip, from, step.now)
  {
    hide Next, CountLate, CountWithin;
    BanNeedsFailures(cfg, start, steps, step, ip);
    var history, window := steps + [step], cfg.failureWindow as real;
    var first: nat, from: real :|
      Opened(cfg, history, first, ip, from, cfg.failuresBeforeBan) && step.now < from + window;
    LateIsWithin(start, history, first, ip, from, window);
    StampsRise(start, history, first, |steps|);
    assert EnoughFailures(cfg, history, ip, from, step.now);
  }

  // ------------------------------------------------------------ a ban holds

  ghost predicate Before(until: real, steps: seq<Step>)
  {
    forall step <- steps :: Stamp(step).Some? ==> Stamp(step).value < until
  }

  /** Every attempt of `ip` is refused as banned and costs it neither tokens nor slots. */
  ghost predicate Enforced(cfg: Config, s: Server, ip: Ip, steps: seq<Step>)
    requires cfg.Valid() && Legal(cfg, s, steps)
    decreases |steps|
  {
    steps != [] ==>
      var (s', outcome) := Do(cfg, s, steps[0]);
      && (steps[0].Arrive? && steps[0].ip == ip ==>
            && outcome.value.Banned?
            && ip in s.ledger.clients && ip in s'.ledger.clients
            && s'.ledger.clients[ip] == s.ledger.clients[ip].(lastSeen := steps[0].now)
            && s'.leases == s.leases)
      && Enforced(cfg, s', ip, steps[1..])
  }

  /** The ban of `ip` reaches `until`. */
  ghost predicate Barred(s: Server, ip: Ip, until: real)
  {
    && ip in s.ledger.clients && s.ledger.clients[ip].bannedUntil.Some?
    && until <= s.ledger.clients[ip].bannedUntil.value
  }

  /** No counted failure of `ip` is stamped so early that the ban it sets would end before `until`. */
  ghost predicate NoneEarly(cfg: Config, ip: Ip, until: real, steps: seq<Step>)
  {
    forall step <- steps :: CountedFailure(step, ip) ==> until <= step.now + cfg.banSeconds as real
  }

  lemma BarredStep(cfg: Config, s: Server, ip: Ip, until: real, step: Step)
    requires cfg.Valid() && Enabled(s, step) && Barred(s, ip, until)
    requires Stamp(step).Some? ==> Stamp(step).value < until
    requires CountedFailure(step, ip) ==> until <= step.now + cfg.banSeconds as real
    ensures Barred(Next(cfg, s, step), ip, until)
    ensures step.Arrive? && step.ip == ip ==>
              && Do(cfg, s, step).1.value.Banned?
              && Next(cfg, s, step).ledger.clients[ip] == s.ledger.clients[ip].(lastSeen := step.now)
              && Next(cfg, s, step).leases == s.leases
  {
    hide Take;
  }

  /**
   * While a ban lasts it survives every sweep and every attempt is refused; it is shortened
   * by nothing but a failure stamped before the one that set it, whatever the lock order.
   */
  lemma {:induction false} BanHolds(cfg: Config, s: Server, ip: Ip, until: real, steps: seq<Step>)
    requires cfg.Valid() && Legal(cfg, s, steps) && Before(until, steps) && NoneEarly(cfg, ip, until, steps)
    requires Barred(s, ip, until)
    ensures Enforced(cfg, s, ip, steps) && Barred(After(cfg, s, steps), ip, until)
    decreases |steps|
  {
    if steps != [] {
      BarredStep(cfg, s, ip, until, steps[0]);
      BanHolds(cfg, Next(cfg, s, steps[0]), ip, until, steps[1..]);
    }
  }

  lemma {:induction false} InOrderNoneEarly(cfg: Config, ip: Ip, until: real, clock: real, steps: seq<Step>)
    requires InOrder(clock, steps) && until <= clock + cfg.banSeconds as real
    ensures NoneEarly(cfg, ip, until, steps)
  {
    forall step | step in steps && CountedFailure(step, ip) ensures until <= step.now + cfg.banSeconds as real {
      var j :| 0 <= j < |steps| && steps[j] == step;
      StampsAfter(clock, steps, j);
    }
  }

  /** In lock order, a ban set by `clock` is never shortened. */
  lemma BanHoldsInOrder(cfg: Config, s: Server, ip: Ip, until: real, clock: real, steps: seq<Step>)
    requires cfg.Valid() && Legal(cfg, s, steps) && Before(until, steps) && InOrder(clock, steps)
    requires Barred(s, ip, until) && until <= clock + cfg.banSeconds as real
    ensures Enforced(cfg, s, ip, steps) && Barred(After(cfg, s, steps), ip, until)
  {
    InOrderNoneEarly(cfg, ip, until, clock, steps);
    BanHolds(cfg, s, ip, until, steps);
  }

  /**
   * The hypothesis is exact, step by step: a step stamped within the ban leaves it in force
   * up to `until` unless it is a counted failure, at the limit, stamped too early.
   */
  lemma ShortenedExactly(cfg: Config, s: Server, ip: Ip, until: real, step: Step)
    requires cfg.Valid() && Enabled(s, step) && Barred(s, ip, until)
    requires Stamp(step).Some? ==> Stamp(step).value < until
    ensures !Barred(Next(cfg, s, step), ip, until) <==>
              && CountedFailure(step, ip) && step.now + cfg.banSeconds as real < until
              && var c := s.ledger.clients[ip];
                 (if c.failures == 0 || Since(c.failureStart, step.now) >= cfg.failureWindow as real then 1
                  else c.failures + 1) >= cfg.failuresBeforeBan
  {
    hide Take;
  }
}
