/**
 * Admission control (crates/patcher-web/src/security.rs): per-address token buckets,
 * failure bans and in-flight limits in one shared, bounded, swept ledger, behind a
 * global semaphore. Times are seconds; token arithmetic is exact.
 */
module Admission {
  import opened Wrappers

  /** A canonical client address. */
  type Ip = nat

  datatype Class = General | Api | Upload | Download

  datatype Config = Config(
    requestsPerMinute: nat, apiPerMinute: nat, uploadsPerTenMinutes: nat, downloadsPerTenMinutes: nat,
    failuresBeforeBan: nat, failureWindow: nat, banSeconds: nat,
    maxTrackedIps: nat, maxInFlight: nat, maxInFlightPerIp: nat)
  {
    /** The limits `Security::new` insists on. */
    predicate Valid()
    {
      && 1 <= requestsPerMinute <= 10000 && 1 <= apiPerMinute <= 10000
      && 1 <= uploadsPerTenMinutes <= 10000 && 1 <= downloadsPerTenMinutes <= 10000
      && 1 <= failuresBeforeBan <= 10000
      && 1 <= maxTrackedIps <= 65536 && 1 <= maxInFlight <= 256 && 1 <= maxInFlightPerIp <= maxInFlight
      && 1 <= banSeconds <= 86400 && 1 <= failureWindow <= 86400
    }

    function Cap(k: Class): nat
    {
      match k
      case General => requestsPerMinute
      case Api => apiPerMinute
      case Upload => uploadsPerTenMinutes
      case Download => downloadsPerTenMinutes
    }

    /** How long an idle client is remembered: at least 660 s. */
    function TimeToLive(): real
    {
      (if failureWindow > 600 then failureWindow else 600) as real + 60.0
    }
  }

  function Period(k: Class): nat
  {
    match k
    case General => 60
    case Api => 60
    case Upload => 600
    case Download => 600
  }

  // ------------------------------------------------------------ buckets

  datatype Bucket = Bucket(tokens: real, updated: real)

  /** `saturating_duration_since` */
  function Since(earlier: real, now: real): real
  {
    if now > earlier then now - earlier else 0.0
  }

  /** Tokens earned in `seconds`. */
  function Gain(seconds: real, cap: nat, period: nat): real
    requires period > 0
  {
    seconds * cap as real / period as real
  }

  /** Seconds until a bucket at `tokens` regains a whole token. */
  function Need(tokens: real, cap: nat, period: nat): real
    requires cap > 0
  {
    (1.0 - tokens) * period as real / cap as real
  }

  function Refilled(b: Bucket, cap: nat, period: nat, now: real): real
    requires period > 0
  {
    var tokens := b.tokens + Gain(Since(b.updated, now), cap, period);
    if tokens < cap as real then tokens else cap as real
  }

  function Ceiling(x: real): int { -(-x).Floor }

  function RetryAfter(tokens: real, cap: nat, period: nat): nat
    requires cap > 0
  {
    var s := Ceiling(Need(tokens, cap, period));
    if s < 1 then 1 else s
  }

  /** `Bucket::take`: the new bucket, and the seconds to wait when refused. */
  function Take(b: Bucket, cap: nat, period: nat, now: real): (Bucket, Option<nat>)
    requires cap > 0 && period > 0
  {
    var tokens := Refilled(b, cap, period, now);
    if tokens >= 1.0 then (Bucket(tokens - 1.0, now), None)
    else (Bucket(tokens, now), Some(RetryAfter(tokens, cap, period)))
  }

  // ------------------------------------------------------------ one client

  datatype Buckets = Buckets(page: Bucket, control: Bucket, upload: Bucket, download: Bucket)
  {
    function Get(k: Class): Bucket
    {
      match k
      case General => page
      case Api => control
      case Upload => upload
      case Download => download
    }

    function Put(k: Class, b: Bucket): Buckets
    {
      match k
      case General => this.(page := b)
      case Api => this.(control := b)
      case Upload => this.(upload := b)
      case Download => this.(download := b)
    }
  }

  datatype Client = Client(
    buckets: Buckets, lastSeen: real, failures: nat, failureStart: real, bannedUntil: Option<real>, inFlight: nat)

  function FullBucket(cfg: Config, k: Class, now: real): Bucket { Bucket(cfg.Cap(k) as real, now) }

  function NewClient(cfg: Config, now: real): Client
  {
    Client(Buckets(FullBucket(cfg, General, now), FullBucket(cfg, Api, now),
                   FullBucket(cfg, Upload, now), FullBucket(cfg, Download, now)),
           now, 0, now, None, 0)
  }

  datatype Outcome =
    | Admitted
    | CapacityReached                // 503, Retry-After 60
    | Banned(retry: int)             // 429
    | TooManyActive                  // 429, Retry-After 5
    | RequestRate(retry: int)        // 429
    | OperationRate(retry: int)      // 429

  function Charge(cfg: Config, c: Client, k: Class, now: real): (Client, Option<nat>)
    requires cfg.Valid()
  {
    var (b, wait) := Take(c.buckets.Get(k), cfg.Cap(k), Period(k), now);
    (c.(buckets := c.buckets.Put(k, b)), wait)
  }

  /** `admit` for a client that is not banned. */
  function AdmitUnbanned(cfg: Config, c: Client, class_: Class, now: real): (Client, Outcome)
    requires cfg.Valid()
  {
    if c.inFlight >= cfg.maxInFlightPerIp then (c, TooManyActive)
    else
      var (paid, wait) := Charge(cfg, c, General, now);
      if wait.Some? then (paid, RequestRate(wait.value))
      else if class_ == General then (paid.(inFlight := paid.inFlight + 1), Admitted)
      else
        var (both, wait2) := Charge(cfg, paid, class_, now);
        if wait2.Some? then (both, OperationRate(wait2.value))
        else (both.(inFlight := both.inFlight + 1), Admitted)
  }

  /** `admit` once the client is in the table; an expired ban is lifted and its failures forgotten. */
  function AdmitClient(cfg: Config, c: Client, class_: Class, now: real): (Client, Outcome)
    requires cfg.Valid()
  {
    var seen := c.(lastSeen := now);
    if seen.bannedUntil.Some? && seen.bannedUntil.value > now then
      (seen, Banned((seen.bannedUntil.value - now).Floor + 1))
    else
      var unbanned := if seen.bannedUntil.Some? then seen.(bannedUntil := None, failures := 0) else seen;
      AdmitUnbanned(cfg, unbanned, class_, now)
  }

  /** The statuses that count as a client failure. */
  predicate Counts(status: nat) { status in {400, 401, 403, 404, 405, 413, 415, 422} }

  /** `failed`, for a status that counts. */
  function FailClient(cfg: Config, c: Client, now: real): Client
  {
    var reset := c.failures == 0 || Since(c.failureStart, now) >= cfg.failureWindow as real;
    var counted := if reset then c.(failureStart := now, failures := 1) else c.(failures := c.failures + 1);
    if counted.failures >= cfg.failuresBeforeBan
    then counted.(bannedUntil := Some(now + cfg.banSeconds as real))
    else counted
  }

  function LeaveClient(c: Client): Client
  {
    c.(inFlight := if c.inFlight > 0 then c.inFlight - 1 else 0)
  }

  // ------------------------------------------------------------ the shared ledger

  datatype Ledger = Ledger(clients: map<Ip, Client>, lastSweep: real)
  {
    function Get(ip: Ip): Option<Client> { if ip in clients then Some(clients[ip]) else None }
  }

  /** What `retain` keeps. */
  predicate Kept(cfg: Config, c: Client, now: real)
  {
    || c.inFlight != 0
    || (c.bannedUntil.Some? && c.bannedUntil.value > now)
    || Since(c.lastSeen, now) < cfg.TimeToLive()
  }

  function Sweep(cfg: Config, l: Ledger, now: real): Ledger
  {
    if Since(l.lastSweep, now) >= 60.0
    then Ledger(map ip | ip in l.clients && Kept(cfg, l.clients[ip], now) :: l.clients[ip], now)
    else l
  }

  function Admit(cfg: Config, l: Ledger, ip: Ip, class_: Class, now: real): (Ledger, Outcome)
    requires cfg.Valid()
  {
    var swept := Sweep(cfg, l, now);
    if ip !in swept.clients && |swept.clients| >= cfg.maxTrackedIps then (swept, CapacityReached)
    else
      var c := if ip in swept.clients then swept.clients[ip] else NewClient(cfg, now);
      var (c', outcome) := AdmitClient(cfg, c, class_, now);
      (swept.(clients := swept.clients[ip := c']), outcome)
  }

  function Fail(cfg: Config, l: Ledger, ip: Ip, status: nat, now: real): Ledger
  {
    if Counts(status) && ip in l.clients then l.(clients := l.clients[ip := FailClient(cfg, l.clients[ip], now)]) else l
  }

  function Leave(l: Ledger, ip: Ip): Ledger
  {
    if ip in l.clients then l.(clients := l.clients[ip := LeaveClient(l.clients[ip])]) else l
  }

  /** The table never outgrows its bound. */
  lemma TableBounded(cfg: Config, l: Ledger, ip: Ip, class_: Class, now: real)
    requires cfg.Valid() && |l.clients| <= cfg.maxTrackedIps
    ensures |Admit(cfg, l, ip, class_, now).0.clients| <= cfg.maxTrackedIps
  {
    var swept := Sweep(cfg, l, now);
    assert |swept.clients| <= |l.clients| by {
      assert swept.clients.Keys <= l.clients.Keys;
      SubsetSize(swept.clients.Keys, l.clients.Keys);
    }
    if ip in swept.clients {
      assert swept.clients[ip := AdmitClient(cfg, swept.clients[ip], class_, now).0].Keys == swept.clients.Keys;
    }
  }

  lemma SubsetSize<T>(a: set<T>, b: set<T>)
    requires a <= b
    ensures |a| <= |b|
  {
    assert b == a + (b - a);
  }

  // ------------------------------------------------------------ the mutable object

  class Security {
    const config: Config
    var clients: map<Ip, Client>
    var lastSweep: real

    ghost function Contents(): Ledger
      reads this
    {
      Ledger(clients, lastSweep)
    }

    constructor (config: Config, now: real)
      requires config.Valid()
      ensures this.config == config && Contents() == Ledger(map[], now)
    {
      this.config, clients, lastSweep := config, map[], now;
    }

    /** `admit`, under the ledger lock: sweep, find or create the client, then decide. */
    method AdmitRequest(ip: Ip, class_: Class, now: real) returns (outcome: Outcome)
      requires config.Valid()
      modifies this
      ensures (Contents(), outcome) == Admit(config, old(Contents()), ip, class_, now)
    {
      hide AdmitClient;
      if Since(lastSweep, now) >= 60.0 {
        clients := map i | i in clients && Kept(config, clients[i], now) :: clients[i];
        lastSweep := now;
      }
      ghost var swept := Sweep(config, old(Contents()), now);
      assert swept == Ledger(clients, lastSweep);
      if ip !in clients && |clients| >= config.maxTrackedIps {
        return CapacityReached;
      }
      if ip !in clients {
        clients := clients[ip := NewClient(config, now)];
      }
      ghost var c := clients[ip];
      outcome := Decide(ip, class_, now);
      assert clients == swept.clients[ip := AdmitClient(config, c, class_, now).0];
    }

    /** The rest of `admit`: the entry of `ip` is updated in place, also when refused. */
    method Decide(ip: Ip, class_: Class, now: real) returns (outcome: Outcome)
      requires config.Valid() && ip in clients
      modifies this`clients
      ensures var (c, o) := AdmitClient(config, old(clients[ip]), class_, now);
              clients == old(clients)[ip := c] && outcome == o
    {
      hide Take;
      var c := clients[ip];
      c := c.(lastSeen := now);
      if c.bannedUntil.Some? {
        if c.bannedUntil.value > now {
          clients := clients[ip := c];
          return Banned((c.bannedUntil.value - now).Floor + 1);
        }
        c := c.(bannedUntil := None, failures := 0);
      }
      if c.inFlight >= config.maxInFlightPerIp {
        clients := clients[ip := c];
        return TooManyActive;
      }
      var (page, wait) := Take(c.buckets.page, config.requestsPerMinute, 60, now);
      c := c.(buckets := c.buckets.(page := page));
      if wait.Some? {
        clients := clients[ip := c];
        return RequestRate(wait.value);
      }
      if class_ != General {
        var (b, wait2) := Take(c.buckets.Get(class_), config.Cap(class_), Period(class_), now);
        c := c.(buckets := c.buckets.Put(class_, b));
        if wait2.Some? {
          clients := clients[ip := c];
          return OperationRate(wait2.value);
        }
      }
      clients := clients[ip := c.(inFlight := c.inFlight + 1)];
      return Admitted;
    }

    method FailedRequest(ip: Ip, status: nat, now: real)
      modifies this
      ensures Contents() == Fail(config, old(Contents()), ip, status, now)
    {
      if !Counts(status) || ip !in clients {
        return;
      }
      var c := clients[ip];
      if c.failures == 0 || Since(c.failureStart, now) >= config.failureWindow as real {
        c := c.(failureStart := now, failures := 0);
      }
      c := c.(failures := c.failures + 1);
      if c.failures >= config.failuresBeforeBan {
        c := c.(bannedUntil := Some(now + config.banSeconds as real));
      }
      clients := clients[ip := c];
    }

    method LeaveRequest(ip: Ip)
      modifies this
      ensures Contents() == Leave(old(Contents()), ip)
    {
      if ip in clients {
        clients := clients[ip := LeaveClient(clients[ip])];
      }
    }
  }
}
