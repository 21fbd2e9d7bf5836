/**
 * The stable ingress (crates/patcher-web/src/gateway.rs): which upstream a request
 * reaches, and the per-generation counters the supervisor samples.
 */
module Gateway {
  import opened Wrappers
  import opened Tokens

  /** `routes.json`; a target maps a generation's revision to its private port. */
  datatype RouteTable = RouteTable(active: nat, targets: map<nat, nat>, legacy: Option<nat>)

  datatype RouteFile = Unreadable | Oversized | Table(table: RouteTable)

  /** A request as `forward` classifies it. `Other` is any fixed, stateless endpoint. */
  datatype ProofBody = Malformed | Proof(nonce: Option<string>)

  datatype Decision =
    | NotFound            // 404, path outside the allow list
    | BadRequest          // 400, unreadable proof body
    | Internal            // 500, route file unreadable
    | Unavailable         // 503
    | Gone                // 410, unknown or retired generation
    | Forward(revision: nat, port: nat)

  const DOWNLOAD := "/api/v1/download/"
  const PROVE := "/api/v1/prebuilt/prove"
  const PATCH := "/api/v1/patch"
  const CHALLENGE := "/api/v1/prebuilt/challenge"

  function StripPrefix(s: string, prefix: string): (r: Option<string>)
    ensures r.Some? <==> prefix <= s
    ensures r.Some? ==> s == prefix + r.value
  {
    if prefix <= s then Some(s[|prefix|..]) else None
  }

  predicate TokenChar(c: char)
  {
    IsDigit(c) || 'a' <= c <= 'z' || 'A' <= c <= 'Z' || c == '.' || c == '_' || c == '-'
  }

  predicate AllowedPath(path: string)
  {
    || path in ["/", "/healthz", "/api/v1/update", PATCH, CHALLENGE, PROVE]
    || (var token := StripPrefix(path, DOWNLOAD);
        token.Some? && 0 < |token.value| <= 128 && forall c <- token.value :: TokenChar(c))
  }

  /** The route selection of `forward`, in its order of checks. */
  function Select(file: RouteFile, path: string, body: ProofBody): Decision
  {
    if !AllowedPath(path) then NotFound
    else if path == PROVE && body.Malformed? then BadRequest
    else
      match file
      case Unreadable => Internal
      case Oversized => Unavailable
      case Table(table) =>
        var download := StripPrefix(path, DOWNLOAD);
        var token := if path == PROVE then body.nonce else download;
        var revision := if token.Some? then TokenRevision(token.value) else None;
        var selected :=
          if path == PROVE || download.Some? then
            if revision.Some? then revision else table.legacy
          else Some(table.active);
        if selected.None? then Gone
        else if path == PATCH && table.legacy == selected then Unavailable
        else if selected.value !in table.targets || table.targets[selected.value] == 0 then Gone
        else Forward(selected.value, table.targets[selected.value])
  }

  // ------------------------------------------------------------ issuer routing

  lemma DownloadPathIsNotFixed(token: string)
    ensures DOWNLOAD + token !in ["/", "/healthz", "/api/v1/update", PATCH, CHALLENGE, PROVE]
    ensures StripPrefix(DOWNLOAD + token, DOWNLOAD) == Some(token)
  {
    var path := DOWNLOAD + token;
    assert |path| >= 17 && path[8] == 'd';
  }

  /** Every token a worker issues, tagged or not, is an admissible download path. */
  lemma IssuedTokenPathAllowed(revision: Option<nat>, token: string)
    requires IsRandomToken(token)
    requires revision.Some? ==> revision.value <= U32_MAX
    ensures AllowedPath(DOWNLOAD + TagToken(revision, token))
  {
    var tagged := TagToken(revision, token);
    DownloadPathIsNotFixed(tagged);
    forall c | c in tagged ensures TokenChar(c) {
      if revision.Some? && c !in token && c !in Decimal(revision.value) {
        assert c == 'g' || c == '.';
      }
    }
    if revision.Some? {
      U32DecimalLength(revision.value);
      assert |tagged| == 1 + |Decimal(revision.value)| + 1 + 64;
    }
  }

  /** A proof or a download bears a token; both continue an earlier exchange. */
  datatype Continuation = ProveWith(nonce: string) | DownloadWith(token: string)
  {
    function Token(): string { if ProveWith? then nonce else token }
    function Path(): string { if ProveWith? then PROVE else DOWNLOAD + token }
    function Body(): ProofBody { if ProveWith? then Proof(Some(nonce)) else Malformed }
  }

  /**
   * The continuation of a token issued by generation r is forwarded to r's own
   * target or refused with 410 (or 404 when the path itself is inadmissible);
   * it is forwarded exactly when the table still names r.
   */
  lemma ContinuationReachesIssuer(table: RouteTable, revision: nat, token: string, request: Continuation)
    requires revision <= U32_MAX
    requires request.Token() == TagToken(Some(revision), token)
    ensures var d := Select(Table(table), request.Path(), request.Body());
            var named := revision in table.targets && table.targets[revision] != 0;
            d == if !AllowedPath(request.Path()) then NotFound
                 else if named then Forward(revision, table.targets[revision]) else Gone
  {
    TagRoundTrip(revision, token);
    if request.DownloadWith? {
      DownloadPathIsNotFixed(request.token);
    } else {
      assert !(DOWNLOAD <= PROVE) by { assert PROVE[8] == 'p' && DOWNLOAD[8] == 'd'; }
    }
  }

  /** A token without a tag can only reach the legacy worker. */
  lemma UntaggedReachesLegacyOnly(table: RouteTable, request: Continuation)
    requires TokenRevision(request.Token()) == None
    ensures var d := Select(Table(table), request.Path(), request.Body());
            d.Forward? ==> table.legacy == Some(d.revision) && d.port == table.targets[d.revision]
  {
    if request.DownloadWith? {
      DownloadPathIsNotFixed(request.token);
    }
  }

  /** New work never lands on the legacy worker, and otherwise only on the active one. */
  lemma NewWorkReachesActive(table: RouteTable, path: string, body: ProofBody)
    requires path in [PATCH, CHALLENGE]
    ensures var d := Select(Table(table), path, body);
            && (d.Forward? ==> d.revision == table.active && d.port == table.targets[table.active])
            && (path == PATCH && table.legacy == Some(table.active) ==> d == Unavailable)
  {
    assert PATCH[8] == 'p' && CHALLENGE[8] == 'p' && DOWNLOAD[8] == 'd';
  }

  /** Whatever a client sends, the only upstreams are the ports of a readable table, on an allowed path. */
  lemma ForwardsOnlyToTheTable(file: RouteFile, path: string, body: ProofBody)
    ensures var d := Select(file, path, body);
            d.Forward? ==>
              && AllowedPath(path) && file.Table?
              && d.revision in file.table.targets && d.port == file.table.targets[d.revision] && d.port != 0
              && (d.revision == file.table.active || file.table.legacy == Some(d.revision)
                  || path == PROVE || StripPrefix(path, DOWNLOAD).Some?)
  {
  }

  // ------------------------------------------------------------ exactly what is forwarded, and where

  /** An ASCII letter or digit, a dot, an underscore or a hyphen. */
  predicate IsSafe(c: char)
  {
    var code := c as int;
    65 <= code <= 90 || 97 <= code <= 122 || 48 <= code <= 57 || code == 46 || code == 95 || code == 45
  }

  /** The six fixed endpoints. */
  predicate IsFixed(path: string)
  {
    || path == "/" || path == "/healthz" || path == "/api/v1/update" || path == "/api/v1/patch"
    || path == "/api/v1/prebuilt/challenge" || path == "/api/v1/prebuilt/prove"
  }

  /** A download of a token of 1 to 128 safe characters. */
  predicate IsDownload(path: string, token: string)
  {
    && path == "/api/v1/download/" + token && 1 <= |token| <= 128
    && forall i :: 0 <= i < |token| ==> IsSafe(token[i])
  }

  /** Whatever the table and the body, 404 is the answer exactly to the paths that are none of these. */
  lemma AnsweredPathsExactly(file: RouteFile, path: string, body: ProofBody)
    ensures Select(file, path, body) != NotFound <==> IsFixed(path) || exists token :: IsDownload(path, token)
  {
    hide TokenRevision;
    assert forall c :: IsSafe(c) <==> TokenChar(c);
    hide IsSafe, TokenChar;
    if DOWNLOAD <= path {
      var token := path[|DOWNLOAD|..];
      assert path == DOWNLOAD + token;
      assert IsDownload(path, token) <==>
             0 < |token| <= 128 && forall c <- token :: TokenChar(c);
      forall t | IsDownload(path, t) ensures t == token {
      }
    }
  }

  /** No forwarded path can be read as another endpoint: no '%', and no '/' but those of its endpoint. */
  lemma ForwardedPathsAreLiteral(file: RouteFile, path: string, body: ProofBody)
    requires Select(file, path, body).Forward?
    ensures '%' !in path
    ensures IsFixed(path) || (exists token :: IsDownload(path, token) && '/' !in token)
  {
    AnsweredPathsExactly(file, path, body);
    assert !IsSafe('/') && !IsSafe('%');
    hide Select, IsSafe;
    if !IsFixed(path) {
      var token :| IsDownload(path, token);
      assert '/' !in token && '%' !in token;
      assert '%' !in "/api/v1/download/";
    } else {
      FixedPathsHaveNoPercent(path);
    }
  }

  lemma FixedPathsHaveNoPercent(path: string)
    requires IsFixed(path)
    ensures '%' !in path
  {
  }

  /** The port the table gives a generation, if it gives one. */
  function Target(table: RouteTable, revision: nat): Decision
  {
    if revision in table.targets && table.targets[revision] != 0 then Forward(revision, table.targets[revision])
    else Gone
  }

  /** Every request that is no continuation: the active generation, and no upload to the legacy worker. */
  lemma FixedPathsExactly(table: RouteTable, path: string, body: ProofBody)
    requires IsFixed(path) && path != "/api/v1/prebuilt/prove"
    ensures Select(Table(table), path, body) ==
            if path == "/api/v1/patch" && table.legacy == Some(table.active) then Unavailable
            else Target(table, table.active)
  {
    assert !(DOWNLOAD <= path) by {
      assert DOWNLOAD[8] == 'd' && |DOWNLOAD| == 17;
      assert |path| >= 17 ==> path[8] == 'p';
    }
    assert PATCH == "/api/v1/patch" && CHALLENGE == "/api/v1/prebuilt/challenge" && PROVE == "/api/v1/prebuilt/prove";
  }

  /** A proof or download with a tag goes to the tagged generation, one without to the legacy worker, or gets 410. */
  lemma ContinuationsExactly(table: RouteTable, request: Continuation)
    requires request.DownloadWith? ==> IsDownload(request.Path(), request.token)
    ensures var d := Select(Table(table), request.Path(), request.Body());
            && (forall plus, zeros, revision: nat, rest :: IsTagged(request.Token(), plus, zeros, revision, rest) ==>
                  d == Target(table, revision))
            && ((forall plus, zeros, revision: nat, rest :: !IsTagged(request.Token(), plus, zeros, revision, rest)) ==>
                  d == if table.legacy.Some? then Target(table, table.legacy.value) else Gone)
  {
    var token := request.Token();
    TaggedExactly(token);
    AnsweredPathsExactly(Table(table), request.Path(), request.Body());
    hide TokenRevision, IsTagged, IsDownload, IsFixed;
    if request.DownloadWith? {
      DownloadPathIsNotFixed(token);
    } else {
      assert !(DOWNLOAD <= PROVE) by { assert PROVE[8] == 'p' && DOWNLOAD[8] == 'd'; }
    }
    SelectsContinuation(table, request);
    var d := Select(Table(table), request.Path(), request.Body());
    forall plus, zeros, revision: nat, rest | IsTagged(token, plus, zeros, revision, rest)
      ensures d == Target(table, revision)
    {
      assert TokenRevision(token) == Some(revision);
    }
    if TokenRevision(token).Some? {
      var revision := TokenRevision(token).value;
      assert TokenRevision(token) == Some(revision);
      var plus, zeros, rest :| IsTagged(token, plus, zeros, revision, rest);
    }
  }

  /** The source's table reader and proof reader answer for themselves, in this order, on admissible paths. */
  lemma UnreadableExactly(file: RouteFile, path: string, body: ProofBody)
    requires IsFixed(path) || exists token :: IsDownload(path, token)
    ensures var d := Select(file, path, body);
            && (d == BadRequest <==> path == "/api/v1/prebuilt/prove" && body == Malformed)
            && (d == Internal <==> d != BadRequest && file == Unreadable)
            && (file == Oversized && d != BadRequest ==> d == Unavailable)
  {
    AnsweredPathsExactly(file, path, body);
    hide AllowedPath, TokenRevision;
  }

  lemma SelectsContinuation(table: RouteTable, request: Continuation)
    requires AllowedPath(request.Path())
    requires request.DownloadWith? ==> StripPrefix(request.Path(), DOWNLOAD) == Some(request.token)
    requires request.DownloadWith? ==> request.Path() != PROVE && request.Path() != PATCH
    requires request.ProveWith? ==> StripPrefix(PROVE, DOWNLOAD) == None
    ensures var revision := TokenRevision(request.Token());
            Select(Table(table), request.Path(), request.Body()) ==
            if revision.Some? then Target(table, revision.value)
            else if table.legacy.Some? then Target(table, table.legacy.value) else Gone
  {
    hide AllowedPath, StripPrefix, TokenRevision;
  }

  // ------------------------------------------------------------ flight counters

  function Bump(counts: map<nat, nat>, revision: nat): map<nat, nat>
  {
    counts[revision := (if revision in counts then counts[revision] else 0) + 1]
  }

  function Drop(counts: map<nat, nat>, revision: nat): map<nat, nat>
    requires revision in counts && counts[revision] > 0
  {
    counts[revision := counts[revision] - 1]
  }

  ghost function Holding(flights: map<nat, nat>, revision: nat): set<nat>
  {
    set id | id in flights && flights[id] == revision
  }

  /** Each counter equals the number of requests in flight to that generation. */
  ghost predicate Counted(counts: map<nat, nat>, flights: map<nat, nat>)
  {
    forall r: nat ::
      |Holding(flights, r)| == (if r in counts then counts[r] else 0)
  }

  lemma HoldingMore(flights: map<nat, nat>, id: nat, revision: nat, r: nat)
    requires id !in flights
    ensures |Holding(flights[id := revision], r)| == |Holding(flights, r)| + if r == revision then 1 else 0
  {
    if r == revision {
      assert Holding(flights[id := revision], r) == Holding(flights, r) + {id};
    } else {
      assert Holding(flights[id := revision], r) == Holding(flights, r);
    }
  }

  lemma HoldingLess(flights: map<nat, nat>, id: nat, r: nat)
    requires id in flights
    ensures |Holding(flights - {id}, r)| == |Holding(flights, r)| - if r == flights[id] then 1 else 0
  {
    if r == flights[id] {
      assert Holding(flights, r) == Holding(flights - {id}, r) + {id};
    } else {
      assert Holding(flights - {id}, r) == Holding(flights, r);
    }
  }

  lemma BumpCounts(counts: map<nat, nat>, flights: map<nat, nat>, id: nat, revision: nat)
    requires Counted(counts, flights) && id !in flights
    ensures Counted(Bump(counts, revision), flights[id := revision])
  {
    var counts', flights' := Bump(counts, revision), flights[id := revision];
    hide Holding;
    forall r: nat
      ensures |Holding(flights', r)| == (if r in counts' then counts'[r] else 0)
    {
      HoldingMore(flights, id, revision, r);
      assert |Holding(flights, r)| == (if r in counts then counts[r] else 0);
    }
  }

  lemma DropCounts(counts: map<nat, nat>, flights: map<nat, nat>, id: nat)
    requires Counted(counts, flights) && id in flights
    ensures flights[id] in counts && counts[flights[id]] > 0
    ensures Counted(Drop(counts, flights[id]), flights - {id})
  {
    var revision := flights[id];
    assert id in Holding(flights, revision);
    assert |Holding(flights, revision)| == (if revision in counts then counts[revision] else 0);
    assert counts[revision] > 0;
    var counts', flights' := Drop(counts, revision), flights - {id};
    hide Holding;
    forall r: nat
      ensures |Holding(flights', r)| == (if r in counts' then counts'[r] else 0)
    {
      HoldingLess(flights, id, r);
      assert |Holding(flights, r)| == (if r in counts then counts[r] else 0);
    }
  }

  /** A zero counter means no request of that generation is in flight. */
  lemma ZeroCountMeansQuiet(counts: map<nat, nat>, flights: map<nat, nat>, revision: nat)
    requires Counted(counts, flights)
    requires revision !in counts || counts[revision] == 0
    ensures forall id :: id in flights ==> flights[id] != revision
  {
    assert |Holding(flights, revision)| == 0;
    forall id | id in flights ensures flights[id] != revision {
      assert id !in Holding(flights, revision);
    }
  }

  /** The gateway's shared counters; a `Flight` guard holds one unit until dropped. */
  class Counters {
    var counts: map<nat, nat>
    ghost var flights: map<nat, nat>

    ghost predicate Valid()
      reads this
    {
      Counted(counts, flights)
    }

    constructor ()
      ensures Valid() && counts == map[] && flights == map[]
    {
      counts, flights := map[], map[];
      new;
      forall r: nat ensures |Holding(flights, r)| == 0 {
        assert Holding(flights, r) == {};
      }
    }

    method Begin(revision: nat, ghost id: nat)
      requires Valid() && id !in flights
      modifies this
      ensures Valid() && flights == old(flights)[id := revision]
      ensures counts == Bump(old(counts), revision)
    {
      BumpCounts(counts, flights, id, revision);
      counts := Bump(counts, revision);
      flights := flights[id := revision];
    }

    /** `Drop for Flight`: the decrement never wraps, because the flight is counted. */
    method End(revision: nat, ghost id: nat)
      requires Valid() && id in flights && flights[id] == revision
      modifies this
      ensures Valid() && flights == old(flights) - {id}
      ensures revision in old(counts) && old(counts)[revision] > 0
      ensures counts == Drop(old(counts), revision)
    {
      DropCounts(counts, flights, id);
      counts := Drop(counts, revision);
      flights := flights - {id};
    }
  }
}
