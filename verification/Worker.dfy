/**
 * A worker's single-use tokens (crates/patcher-web/src/main.rs): challenges are
 * proved at most once, download grants are redeemed at most once, and both maps
 * are swept of expired entries before they grow.
 */
module Worker {
  import opened Wrappers
  import opened Tokens
  import opened Bits32
  import Hex
  import Challenge

  const MAX_CHALLENGES := 128
  const MAX_DOWNLOADS := 256
  const CHUNK_SIZE: nat := 64 * 1024
  const CHUNK_COUNT: nat := 8

  datatype Grant = Grant(path: string, expiresAt: int)

  /** `revision` is GGFM_ROUTE_REVISION; `prebuilt` is the prepared package, if the operator has one. */
  datatype Store = Store(
    revision: Option<nat>,
    prebuilt: Option<string>,
    challenges: map<string, Challenge.State>,
    downloads: map<string, Grant>)

  datatype Refusal =
    | PrebuiltDisabled   // 404
    | UsePossession      // 409
    | UnsupportedSource  // 422
    | PreparedChanged    // 503
    | Capacity           // 429
    | IssueFailed        // 500
    | UnknownChallenge   // 400
    | ChallengeExpired   // 410
    | ProofRejected(reason: Challenge.Error) // 401
    | NoRandomness       // 500
    | UnknownDownload    // 404
    | GrantGone          // 410
    | OpenFailed         // 500

  // ------------------------------------------------------------- sweeping

  function LiveChallenges(challenges: map<string, Challenge.State>, now: int): map<string, Challenge.State>
  {
    map key | key in challenges && challenges[key].challenge.expiresAt >= now :: challenges[key]
  }

  function LiveDownloads(downloads: map<string, Grant>, now: int): map<string, Grant>
  {
    map token | token in downloads && downloads[token].expiresAt >= now :: downloads[token]
  }

  // ------------------------------------------------------------- handlers

  function ProofError(error: Challenge.Error): Refusal
  {
    if error.Expired? then ChallengeExpired else ProofRejected(error)
  }

  /**
   * `issue_challenge`; `issued` is what `ChallengeState::issue` returned. The key carries
   * the tag, the state does not.
   */
  function IssueChallenge(
    w: Store, now: int, sourceMatches: bool, metadataOk: bool, issued: Result<Challenge.State, Challenge.Error>)
    : (Store, Result<string, Refusal>)
  {
    if w.prebuilt.None? then (w, Err(PrebuiltDisabled))
    else if !sourceMatches then (w, Err(UnsupportedSource))
    else if !metadataOk then (w, Err(PreparedChanged))
    else
      var swept := LiveChallenges(w.challenges, now);
      if |swept| >= MAX_CHALLENGES then (w.(challenges := swept), Err(Capacity))
      else
        match issued
        case Err(_) => (w.(challenges := swept), Err(IssueFailed))
        case Ok(state) =>
          var key := TagToken(w.revision, state.challenge.nonce);
          (w.(challenges := swept[key := state]), Ok(key))
  }

  /** `grant_download`; `random` is what `random_token` returned. */
  function GrantDownload(w: Store, now: int, path: string, random: Option<string>): (Store, Result<string, Refusal>)
  {
    match random
    case None => (w, Err(NoRandomness))
    case Some(value) =>
      var token := TagToken(w.revision, value);
      var swept := LiveDownloads(w.downloads, now);
      if |swept| >= MAX_DOWNLOADS then (w.(downloads := swept), Err(Capacity))
      else (w.(downloads := swept[token := Grant(path, now + GRANT_TTL)]), Ok(token))
  }

  /** `prove_challenge`: the entry leaves the map before anything else is looked at. */
  function ProveChallenge(
    w: Store, now: int, proof: Challenge.Proof, decode: string -> Option<Bytes>, metadataOk: bool,
    random: Option<string>)
    : (Store, Result<string, Refusal>)
  {
    if w.prebuilt.None? then (w, Err(PrebuiltDisabled))
    else if proof.nonce !in w.challenges then (w, Err(UnknownChallenge))
    else
      var challenge := w.challenges[proof.nonce];
      var consumed := w.(challenges := w.challenges - {proof.nonce});
      var verdict := Challenge.Verdict(challenge, proof.(nonce := UntagToken(proof.nonce)), now, decode);
      if verdict.Some? then (consumed, Err(ProofError(verdict.value)))
      else if !metadataOk then (consumed, Err(PreparedChanged))
      else GrantDownload(consumed, now, w.prebuilt.value, random)
  }

  /** `patch_upload` once the body has been received and built into `path`. */
  function FinishUpload(w: Store, now: int, path: string, random: Option<string>): (Store, Result<string, Refusal>)
  {
    if w.prebuilt.Some? then (w, Err(UsePossession)) else GrantDownload(w, now, path, random)
  }

  /** `download`; `isFile`, `metadataOk` and `opens` are what the file system answers for the grant's path. */
  function Download(w: Store, now: int, token: string, isFile: bool, metadataOk: bool, opens: bool)
    : (Store, Result<string, Refusal>)
  {
    if token !in w.downloads then (w, Err(UnknownDownload))
    else
      var grant := w.downloads[token];
      var consumed := w.(downloads := w.downloads - {token});
      if now > grant.expiresAt || !isFile then (consumed, Err(GrantGone))
      else if w.prebuilt.Some? && !metadataOk then (consumed, Err(PreparedChanged))
      else if !opens then (consumed, Err(OpenFailed))
      else (consumed, Ok(grant.path))
  }

  // ------------------------------------------------------------- the mutable store

  /** `AppState`: the two maps behind their locks. */
  class AppState {
    const revision: Option<nat>
    const prebuilt: Option<string>
    var challenges: map<string, Challenge.State>
    var downloads: map<string, Grant>

    constructor (revision: Option<nat>, prebuilt: Option<string>)
      ensures Contents() == Store(revision, prebuilt, map[], map[])
    {
      this.revision, this.prebuilt := revision, prebuilt;
      challenges, downloads := map[], map[];
    }

    ghost function Contents(): Store
      reads this
    {
      Store(revision, prebuilt, challenges, downloads)
    }

    method Issue(source: Bytes, now: int, sourceMatches: bool, metadataOk: bool, nonce: Bytes)
      returns (reply: Result<Challenge.Public, Refusal>, ghost issued: Result<Challenge.State, Challenge.Error>)
      modifies this`challenges
      ensures issued.Ok? <==> |source| >= 2 * 65536
      ensures issued.Ok? ==>
                && Challenge.Issued(issued.value, source, 65536, 8, nonce)
                && issued.value.challenge.expiresAt
                   == (if now + 180 > 0x7FFF_FFFF_FFFF_FFFF then 0x7FFF_FFFF_FFFF_FFFF else now + 180)
      ensures Contents() == IssueChallenge(old(Contents()), now, sourceMatches, metadataOk, issued).0
      ensures match IssueChallenge(old(Contents()), now, sourceMatches, metadataOk, issued).1
              case Err(refusal) => reply == Err(refusal)
              case Ok(key) => reply == Ok(issued.value.challenge.(nonce := key))
    {
      hide Challenge.Issued;
      var result := Challenge.Issue(source, CHUNK_SIZE, CHUNK_COUNT, now, CHALLENGE_TTL, nonce);
      issued := result;
      if prebuilt.None? {
        return Err(PrebuiltDisabled), issued;
      }
      if !sourceMatches {
        return Err(UnsupportedSource), issued;
      }
      if !metadataOk {
        return Err(PreparedChanged), issued;
      }
      challenges := LiveChallenges(challenges, now);
      if |challenges| >= MAX_CHALLENGES {
        return Err(Capacity), issued;
      }
      if result.Err? {
        return Err(IssueFailed), issued;
      }
      var challenge := result.value.challenge;
      challenge := challenge.(nonce := TagToken(revision, challenge.nonce));
      challenges := challenges[challenge.nonce := result.value];
      return Ok(challenge), issued;
    }

    method AddGrant(now: int, path: string, random: Option<string>) returns (reply: Result<string, Refusal>)
      modifies this`downloads
      ensures (Contents(), reply) == GrantDownload(old(Contents()), now, path, random)
    {
      if random.None? {
        return Err(NoRandomness);
      }
      var token := TagToken(revision, random.value);
      downloads := LiveDownloads(downloads, now);
      if |downloads| >= MAX_DOWNLOADS {
        return Err(Capacity);
      }
      downloads := downloads[token := Grant(path, now + GRANT_TTL)];
      return Ok(token);
    }

    method Prove(
      now: int, proof: Challenge.Proof, decode: string -> Option<Bytes>, metadataOk: bool, random: Option<string>)
      returns (reply: Result<string, Refusal>)
      modifies this
      ensures (Contents(), reply) == ProveChallenge(old(Contents()), now, proof, decode, metadataOk, random)
    {
      hide Challenge.Verdict;
      if prebuilt.None? {
        return Err(PrebuiltDisabled);
      }
      if proof.nonce !in challenges {
        return Err(UnknownChallenge);
      }
      var challenge := challenges[proof.nonce];
      challenges := challenges - {proof.nonce};
      var untagged := proof.(nonce := UntagToken(proof.nonce));
      var verdict := Challenge.Verify(challenge, untagged, now, decode);
      if verdict.Some? {
        return Err(ProofError(verdict.value));
      }
      if !metadataOk {
        return Err(PreparedChanged);
      }
      reply := AddGrant(now, prebuilt.value, random);
    }

    method Redeem(now: int, token: string, isFile: bool, metadataOk: bool, opens: bool)
      returns (reply: Result<string, Refusal>)
      modifies this`downloads
      ensures (Contents(), reply) == Download(old(Contents()), now, token, isFile, metadataOk, opens)
    {
      if token !in downloads {
        return Err(UnknownDownload);
      }
      var grant := downloads[token];
      downloads := downloads - {token};
      if now > grant.expiresAt || !isFile {
        return Err(GrantGone);
      }
      if prebuilt.Some? && !metadataOk {
        return Err(PreparedChanged);
      }
      if !opens {
        return Err(OpenFailed);
      }
      return Ok(grant.path);
    }
  }

  // ------------------------------------------------------------- runs

  datatype Request =
    | Ask(now: int, sourceMatches: bool, metadataOk: bool, issued: Result<Challenge.State, Challenge.Error>)
    | Prove(now: int, proof: Challenge.Proof, decode: string -> Option<Bytes>, metadataOk: bool, random: Option<string>)
    | Upload(now: int, path: string, random: Option<string>)
    | Redeem(now: int, token: string, isFile: bool, metadataOk: bool, opens: bool)

  function Serve(w: Store, request: Request): (Store, Result<string, Refusal>)
  {
    match request
    case Ask(now, matches, ok, issued) => IssueChallenge(w, now, matches, ok, issued)
    case Prove(now, proof, decode, ok, random) => ProveChallenge(w, now, proof, decode, ok, random)
    case Upload(now, path, random) => FinishUpload(w, now, path, random)
    case Redeem(now, token, isFile, ok, opens) => Download(w, now, token, isFile, ok, opens)
  }

  /** The random value a request draws; challenge nonces and download tokens come from one generator. */
  function Drawn(request: Request): Option<string>
  {
    match request
    case Ask(_, _, _, issued) => if issued.Ok? then Some(issued.value.challenge.nonce) else None
    case Prove(_, _, _, _, random) => random
    case Upload(_, _, random) => random
    case Redeem(_, _, _, _, _) => None
  }

  /** A value drawn as hex; a challenge's state records the ttl it was issued with. */
  predicate WellDrawn(request: Request)
  {
    Drawn(request).Some? ==> IsRandomToken(Drawn(request).value)
  }

  /** The generator never repeats itself. */
  ghost predicate Distinct(requests: seq<Request>)
  {
    forall i, j :: 0 <= i < j < |requests| && Drawn(requests[i]).Some? ==> Drawn(requests[i]) != Drawn(requests[j])
  }

  /** What a run has handed out: grants with the challenge that paid for each, and completed downloads. */
  datatype History = History(granted: seq<(string, Option<string>)>, downloaded: seq<string>)

  function Record(h: History, request: Request, reply: Result<string, Refusal>): History
  {
    if reply.Err? then h
    else
      match request
      case Ask(_, _, _, _) => h
      case Prove(_, proof, _, _, _) => h.(granted := h.granted + [(reply.value, Some(proof.nonce))])
      case Upload(_, _, _) => h.(granted := h.granted + [(reply.value, None)])
      case Redeem(_, token, _, _, _) => h.(downloaded := h.downloaded + [token])
  }

  function Run(w: Store, h: History, requests: seq<Request>): (Store, History)
    decreases |requests|
  {
    if requests == [] then (w, h)
    else
      var (w', reply) := Serve(w, requests[0]);
      Run(w', Record(h, requests[0], reply), requests[1..])
  }

  function Fresh(revision: Option<nat>, prebuilt: Option<string>): Store { Store(revision, prebuilt, map[], map[]) }

  /** Each stored key untags to the nonce stored with it. */
  ghost predicate Keyed(w: Store)
  {
    && (w.revision.Some? ==> w.revision.value <= U32_MAX)
    && forall key :: key in w.challenges ==> key == TagToken(w.revision, w.challenges[key].challenge.nonce)
                                             && UntagToken(key) == w.challenges[key].challenge.nonce
  }

  ghost predicate Bounded(w: Store)
  {
    |w.challenges| <= MAX_CHALLENGES && |w.downloads| <= MAX_DOWNLOADS
  }

  lemma {:induction false} EncodedIsHex(bytes: Bytes)
    ensures |Hex.Encode(bytes)| == 2 * |bytes| && forall c <- Hex.Encode(bytes) :: IsHex(c)
  {
    if bytes != [] {
      EncodedIsHex(bytes[1..]);
      assert IsHex(Hex.UPPER[bytes[0] / 16]) && IsHex(Hex.UPPER[bytes[0] % 16]);
    }
  }

  /** A challenge drawn from 32 random bytes carries a nonce of 64 hex digits. */
  lemma IssuedIsWellDrawn(request: Request, source: Bytes, nonce: Bytes)
    requires request.Ask? && request.issued.Ok? && |nonce| == 32
    requires Challenge.Issued(request.issued.value, source, CHUNK_SIZE, CHUNK_COUNT, nonce)
    ensures WellDrawn(request)
  {
    EncodedIsHex(nonce);
  }

  lemma TaggedUntags(revision: Option<nat>, value: string)
    requires IsRandomToken(value) && (revision.Some? ==> revision.value <= U32_MAX)
    ensures UntagToken(TagToken(revision, value)) == value
  {
    if revision.Some? {
      TagRoundTrip(revision.value, value);
    } else {
      HexIsUntagged(value);
    }
  }

  lemma RemovalShrinks<V>(m: map<string, V>, key: string)
    ensures |m - {key}| <= |m|
  {
    assert (m - {key}).Keys <= m.Keys;
    SubsetSize((m - {key}).Keys, m.Keys);
    assert |m - {key}| == |(m - {key}).Keys|;
  }

  lemma SubsetSize(a: set<string>, b: set<string>)
    requires a <= b
    ensures |a| <= |b|
  {
    assert b == a + (b - a);
  }

  lemma SweepShrinks(w: Store, now: int)
    ensures |LiveChallenges(w.challenges, now)| <= |w.challenges|
    ensures |LiveDownloads(w.downloads, now)| <= |w.downloads|
  {
    SubsetSize(LiveChallenges(w.challenges, now).Keys, w.challenges.Keys);
    SubsetSize(LiveDownloads(w.downloads, now).Keys, w.downloads.Keys);
  }

  lemma InsertGrows<V>(m: map<string, V>, key: string, value: V)
    ensures |m[key := value]| <= |m| + 1
  {
    SubsetSize(m[key := value].Keys, m.Keys + {key});
    assert |m[key := value]| == |m[key := value].Keys|;
  }

  lemma GrantBounded(w: Store, now: int, path: string, random: Option<string>)
    requires Bounded(w)
    ensures Bounded(GrantDownload(w, now, path, random).0)
  {
    hide TagToken;
    SweepShrinks(w, now);
    if random.Some? {
      InsertGrows(LiveDownloads(w.downloads, now), TagToken(w.revision, random.value), Grant(path, now + GRANT_TTL));
    }
  }

  lemma AskBounded(w: Store, request: Request)
    requires Bounded(w) && request.Ask?
    ensures Bounded(Serve(w, request).0)
  {
    hide TagToken, LiveChallenges;
    SweepShrinks(w, request.now);
    if request.issued.Ok? {
      var state := request.issued.value;
      InsertGrows(LiveChallenges(w.challenges, request.now), TagToken(w.revision, state.challenge.nonce), state);
    }
  }

  lemma ProveBounded(w: Store, request: Request)
    requires Bounded(w) && request.Prove?
    ensures Bounded(Serve(w, request).0)
  {
    hide UntagToken, Challenge.Verdict, GrantDownload;
    var key := request.proof.nonce;
    RemovalShrinks(w.challenges, key);
    if w.prebuilt.Some? && key in w.challenges {
      GrantBounded(w.(challenges := w.challenges - {key}), request.now, w.prebuilt.value, request.random);
    }
  }

  lemma RedeemBounded(w: Store, request: Request)
    requires Bounded(w) && request.Redeem?
    ensures Bounded(Serve(w, request).0)
  {
    RemovalShrinks(w.downloads, request.token);
  }

  /** Both maps stay within their capacity whatever is asked. */
  lemma ServeBounded(w: Store, request: Request)
    requires Bounded(w)
    ensures Bounded(Serve(w, request).0)
  {
    hide IssueChallenge, ProveChallenge, GrantDownload, Download, Bounded;
    match request
    case Ask(_, _, _, _) => AskBounded(w, request);
    case Prove(_, _, _, _, _) => ProveBounded(w, request);
    case Upload(now, path, random) => GrantBounded(w, now, path, random);
    case Redeem(_, _, _, _, _) => RedeemBounded(w, request);
  }

  lemma ServeKeyed(w: Store, request: Request)
    requires Keyed(w) && WellDrawn(request)
    ensures Keyed(Serve(w, request).0) && Serve(w, request).0.revision == w.revision
  {
    hide TagToken, UntagToken, Challenge.Verdict, IsRandomToken;
    if request.Ask? && request.issued.Ok? {
      TaggedUntags(w.revision, request.issued.value.challenge.nonce);
    }
  }

  /** With every key untagging to its nonce, a proof is never refused for a nonce mismatch. */
  lemma NonceMismatchUnreachable(w: Store, request: Request)
    requires Keyed(w) && request.Prove?
    ensures Serve(w, request).1 != Err(ProofRejected(Challenge.NonceMismatch))
  {
    hide TagToken, UntagToken;
    if w.prebuilt.Some? && request.proof.nonce in w.challenges {
      var s := w.challenges[request.proof.nonce];
      var proof := request.proof.(nonce := UntagToken(request.proof.nonce));
      FaultIsNotAboutNonce(s, proof, 0, request.decode);
    }
  }

  lemma {:induction false} FaultIsNotAboutNonce(
    s: Challenge.State, proof: Challenge.Proof, i: nat, decode: string -> Option<Bytes>)
    ensures i <= |proof.chunks| == |s.digests| ==>
              Challenge.FirstFault(s, proof, i, decode) != Some(Challenge.NonceMismatch)
    decreases |proof.chunks| - i
  {
    if i < |proof.chunks| == |s.digests| {
      FaultIsNotAboutNonce(s, proof, i + 1, decode);
    }
  }

  // ------------------------------------------------------------- single use

  ghost predicate NoRepeats<T>(s: seq<T>)
  {
    forall i, j :: 0 <= i < j < |s| ==> s[i] != s[j]
  }

  /** No two grants were paid for by the same challenge, and no grant was issued twice. */
  ghost predicate GrantsDistinct(granted: seq<(string, Option<string>)>)
  {
    forall i, j :: 0 <= i < j < |granted| ==>
      granted[i].0 != granted[j].0 && (granted[i].1.Some? ==> granted[i].1 != granted[j].1)
  }

  ghost predicate WasGranted(h: History, token: string)
  {
    exists i :: 0 <= i < |h.granted| && h.granted[i].0 == token
  }

  ghost predicate PaidBy(h: History, key: string)
  {
    exists i :: 0 <= i < |h.granted| && h.granted[i].1 == Some(key)
  }

  /** Every value handed out so far was drawn from `used`. */
  ghost predicate DrawnFrom(revision: Option<nat>, key: string, used: set<string>)
  {
    exists value :: value in used && key == TagToken(revision, value)
  }

  ghost predicate GrantsDrawn(w: Store, h: History, used: set<string>)
  {
    forall i :: 0 <= i < |h.granted| ==> DrawnFrom(w.revision, h.granted[i].0, used)
  }

  /** A challenge that has paid is no longer stored, and cannot be drawn again. */
  ghost predicate PaidAreGone(w: Store, h: History, used: set<string>)
  {
    forall i :: 0 <= i < |h.granted| && h.granted[i].1.Some? ==>
      DrawnFrom(w.revision, h.granted[i].1.value, used) && h.granted[i].1.value !in w.challenges
  }

  ghost predicate ChallengesDrawn(w: Store, used: set<string>)
  {
    forall key :: key in w.challenges ==> DrawnFrom(w.revision, key, used)
  }

  ghost predicate DownloadsOpen(w: Store, h: History)
  {
    forall token :: token in w.downloads ==> token !in h.downloaded && WasGranted(h, token)
  }

  ghost predicate DownloadsGranted(h: History)
  {
    NoRepeats(h.downloaded) && forall token :: token in h.downloaded ==> WasGranted(h, token)
  }

  ghost predicate SingleUse(w: Store, h: History, used: set<string>)
  {
    && GrantsDistinct(h.granted)
    && DownloadsGranted(h)
    && GrantsDrawn(w, h, used)
    && PaidAreGone(w, h, used)
    && ChallengesDrawn(w, used)
    && DownloadsOpen(w, h)
  }

  lemma TagInjectiveAt(revision: Option<nat>, a: string, b: string)
    requires revision.Some? ==> revision.value <= U32_MAX
    requires TagToken(revision, a) == TagToken(revision, b)
    ensures a == b
  {
    if revision.Some? {
      TagInjective(revision.value, a, revision.value, b);
    }
  }

  /** A tag over an unused value is a tag over no used value. */
  lemma FreshTag(revision: Option<nat>, value: string, used: set<string>)
    requires (revision.Some? ==> revision.value <= U32_MAX) && value !in used
    ensures !DrawnFrom(revision, TagToken(revision, value), used)
    ensures DrawnFrom(revision, TagToken(revision, value), used + {value})
  {
    if DrawnFrom(revision, TagToken(revision, value), used) {
      var other :| other in used && TagToken(revision, value) == TagToken(revision, other);
      TagInjectiveAt(revision, value, other);
    }
    assert value in used + {value};
  }

  lemma MoreUsed(w: Store, h: History, used: set<string>, value: string)
    requires SingleUse(w, h, used)
    ensures SingleUse(w, h, used + {value})
  {
    hide TagToken;
    forall key | DrawnFrom(w.revision, key, used) ensures DrawnFrom(w.revision, key, used + {value}) {
      var v :| v in used && key == TagToken(w.revision, v);
      assert v in used + {value};
    }
  }

  function Granted(h: History, token: string, origin: Option<string>): History
  {
    h.(granted := h.granted + [(token, origin)])
  }

  lemma StillGranted(h: History, token: string, origin: Option<string>)
    ensures WasGranted(Granted(h, token, origin), token)
    ensures forall t :: WasGranted(h, t) ==> WasGranted(Granted(h, token, origin), t)
  {
    var h' := Granted(h, token, origin);
    assert h'.granted[|h.granted|].0 == token;
    forall t | WasGranted(h, t) ensures WasGranted(h', t) {
      var i :| 0 <= i < |h.granted| && h.granted[i].0 == t;
      assert h'.granted[i].0 == t;
    }
  }

  lemma GrantsGrow(w: Store, h: History, used: set<string>, token: string, origin: Option<string>)
    requires GrantsDistinct(h.granted) && GrantsDrawn(w, h, used) && !DrawnFrom(w.revision, token, used)
    requires origin.Some? ==> !PaidBy(h, origin.value)
    ensures GrantsDistinct(Granted(h, token, origin).granted)
  {
    hide DrawnFrom;
    var granted := Granted(h, token, origin).granted;
    forall i, j | 0 <= i < j < |granted|
      ensures granted[i].0 != granted[j].0 && (granted[i].1.Some? ==> granted[i].1 != granted[j].1)
    {
      if j == |h.granted| {
        assert DrawnFrom(w.revision, h.granted[i].0, used);
      }
    }
  }

  /** Recording a grant whose token is drawn from the one unused value. */
  lemma GrantRecorded(
    w: Store, h: History, used: set<string>, value: string, origin: Option<string>, downloads: map<string, Grant>)
    requires SingleUse(w, h, used) && value !in used
    requires w.revision.Some? ==> w.revision.value <= U32_MAX
    requires origin.Some? ==>
               DrawnFrom(w.revision, origin.value, used) && origin.value !in w.challenges && !PaidBy(h, origin.value)
    requires downloads.Keys <= w.downloads.Keys + {TagToken(w.revision, value)}
    ensures SingleUse(w.(downloads := downloads), Granted(h, TagToken(w.revision, value), origin), used + {value})
  {
    hide TagToken, DrawnFrom, PaidBy;
    var token := TagToken(w.revision, value);
    var h', used' := Granted(h, token, origin), used + {value};
    FreshTag(w.revision, value, used);
    NotYetDownloaded(w, h, used, token);
    GrantsGrow(w, h, used, token, origin);
    MoreUsed(w, h, used, value);
    if origin.Some? {
      UsedGrows(w.revision, origin.value, used, value);
    }
    StillGranted(h, token, origin);
    hide WasGranted;
    assert DownloadsOpen(w.(downloads := downloads), h');
  }

  lemma UsedGrows(revision: Option<nat>, key: string, used: set<string>, value: string)
    requires DrawnFrom(revision, key, used)
    ensures DrawnFrom(revision, key, used + {value})
  {
    var v :| v in used && key == TagToken(revision, v);
    assert v in used + {value};
  }

  lemma NotYetDownloaded(w: Store, h: History, used: set<string>, token: string)
    requires DownloadsGranted(h) && GrantsDrawn(w, h, used) && !DrawnFrom(w.revision, token, used)
    ensures token !in h.downloaded
  {
    hide DrawnFrom;
  }

  /** Handing out a grant drawn from an unused value, paid for by a challenge no longer stored. */
  lemma GrantKeepsSingleUse(
    w: Store, h: History, used: set<string>, now: int, path: string, value: string, origin: Option<string>)
    requires SingleUse(w, h, used) && value !in used
    requires w.revision.Some? ==> w.revision.value <= U32_MAX
    requires origin.Some? ==>
               DrawnFrom(w.revision, origin.value, used) && origin.value !in w.challenges && !PaidBy(h, origin.value)
    ensures var (w', reply) := GrantDownload(w, now, path, Some(value));
            SingleUse(w', if reply.Ok? then Granted(h, reply.value, origin) else h, used + {value})
  {
    hide TagToken, DrawnFrom, PaidBy, Granted;
    var (w', reply) := GrantDownload(w, now, path, Some(value));
    assert w' == w.(downloads := w'.downloads);
    if reply.Ok? {
      GrantRecorded(w, h, used, value, origin, w'.downloads);
    } else {
      MoreUsed(w, h, used, value);
      assert DownloadsOpen(w', h);
    }
  }

  lemma ProveKeepsSingleUse(w: Store, h: History, used: set<string>, request: Request)
    requires SingleUse(w, h, used) && (w.revision.Some? ==> w.revision.value <= U32_MAX)
    requires request.Prove? && (request.random.Some? ==> request.random.value !in used)
    ensures var (w', reply) := Serve(w, request);
            SingleUse(w', Record(h, request, reply), used + if request.random.Some? then {request.random.value} else {})
  {
    hide TagToken, UntagToken, Challenge.Verdict, DrawnFrom, GrantDownload;
    var key := request.proof.nonce;
    assert used + {} == used;
    if request.random.Some? {
      MoreUsed(w, h, used, request.random.value);
    }
    if w.prebuilt.Some? && key in w.challenges {
      var consumed := w.(challenges := w.challenges - {key});
      assert SingleUse(consumed, h, used) && DrawnFrom(w.revision, key, used);
      NotPaidYet(w, h, used, key);
      if request.random.Some? {
        MoreUsed(consumed, h, used, request.random.value);
        assert request.random == Some(request.random.value);
        GrantKeepsSingleUse(consumed, h, used, request.now, w.prebuilt.value, request.random.value, Some(key));
        var (w', reply) := Serve(w, request);
        hide SingleUse;
        if (w', reply) == GrantDownload(consumed, request.now, w.prebuilt.value, request.random) {
          assert reply.Ok? ==> Record(h, request, reply) == Granted(h, reply.value, Some(key));
        } else {
          assert w' == consumed && reply.Err?;
        }
      } else {
        NoRandomNoGrant(consumed, request.now, w.prebuilt.value);
      }
    }
  }

  lemma NotPaidYet(w: Store, h: History, used: set<string>, key: string)
    requires PaidAreGone(w, h, used) && key in w.challenges
    ensures !PaidBy(h, key)
  {
  }

  lemma NoRandomNoGrant(w: Store, now: int, path: string)
    ensures GrantDownload(w, now, path, None) == (w, Err(NoRandomness))
  {
  }

  lemma AskKeepsSingleUse(w: Store, h: History, used: set<string>, request: Request)
    requires SingleUse(w, h, used) && (w.revision.Some? ==> w.revision.value <= U32_MAX)
    requires request.Ask? && (request.issued.Ok? ==> request.issued.value.challenge.nonce !in used)
    ensures var drawn := if request.issued.Ok? then {request.issued.value.challenge.nonce} else {};
            SingleUse(Serve(w, request).0, h, used + drawn)
  {
    hide TagToken, DrawnFrom, WasGranted;
    assert used + {} == used;
    if request.issued.Ok? {
      var value := request.issued.value.challenge.nonce;
      MoreUsed(w, h, used, value);
      FreshTag(w.revision, value, used);
    }
  }

  lemma RedeemKeepsSingleUse(w: Store, h: History, used: set<string>, request: Request)
    requires SingleUse(w, h, used) && request.Redeem?
    ensures var (w', reply) := Serve(w, request); SingleUse(w', Record(h, request, reply), used)
  {
    hide DrawnFrom, TagToken;
    var (w', reply) := Serve(w, request);
    var h' := Record(h, request, reply);
    assert forall t :: WasGranted(h', t) == WasGranted(h, t);
    hide WasGranted;
  }

  lemma ServeSingleUse(w: Store, h: History, used: set<string>, request: Request)
    requires SingleUse(w, h, used) && (w.revision.Some? ==> w.revision.value <= U32_MAX)
    requires Drawn(request).Some? ==> Drawn(request).value !in used
    ensures var (w', reply) := Serve(w, request);
            SingleUse(w', Record(h, request, reply), used + if Drawn(request).Some? then {Drawn(request).value} else {})
  {
    hide SingleUse, IssueChallenge, ProveChallenge, GrantDownload, Download;
    match request
    case Ask(_, _, _, _) => AskKeepsSingleUse(w, h, used, request);
    case Prove(_, _, _, _, _) => ProveKeepsSingleUse(w, h, used, request);
    case Upload(now, path, random) =>
      if random.Some? {
        assert random == Some(random.value);
        GrantKeepsSingleUse(w, h, used, now, path, random.value, None);
        if w.prebuilt.Some? {
          MoreUsed(w, h, used, random.value);
        } else {
          var reply := GrantDownload(w, now, path, random).1;
          assert reply.Ok? ==> Record(h, request, reply) == Granted(h, reply.value, None);
        }
      } else {
        NoRandomNoGrant(w, now, path);
        assert used + {} == used;
      }
    case Redeem(_, _, _, _, _) =>
      RedeemKeepsSingleUse(w, h, used, request);
      assert used + {} == used;
  }

  lemma {:induction false} RunInvariant(w: Store, h: History, used: set<string>, requests: seq<Request>)
    requires Bounded(w) && Keyed(w) && SingleUse(w, h, used)
    requires Distinct(requests) && forall request <- requests :: WellDrawn(request)
    requires forall i :: 0 <= i < |requests| && Drawn(requests[i]).Some? ==> Drawn(requests[i]).value !in used
    ensures var (w', h') := Run(w, h, requests);
            Bounded(w') && Keyed(w') && GrantsDistinct(h'.granted) && NoRepeats(h'.downloaded)
            && forall token <- h'.downloaded :: WasGranted(h', token)
    decreases |requests|
  {
    hide Serve, Bounded, Keyed, WellDrawn;
    if requests != [] {
      var request := requests[0];
      var (w', reply) := Serve(w, request);
      ServeBounded(w, request);
      ServeKeyed(w, request);
      KeyedRevision(w);
      ServeSingleUse(w, h, used, request);
      var used' := used + if Drawn(request).Some? then {Drawn(request).value} else {};
      RunInvariant(w', Record(h, request, reply), used', requests[1..]);
    }
  }

  lemma KeyedRevision(w: Store)
    requires Keyed(w)
    ensures w.revision.Some? ==> w.revision.value <= U32_MAX
  {
  }

  /**
   * Over every run of a worker whose generator never repeats: the maps keep their
   * bounds, every key untags to its nonce, no challenge pays for two grants, no
   * token is granted twice, and every token downloaded was granted and is
   * downloaded once.
   */
  lemma TokensAreSingleUse(revision: Option<nat>, prebuilt: Option<string>, requests: seq<Request>)
    requires revision.Some? ==> revision.value <= U32_MAX
    requires Distinct(requests) && forall request <- requests :: WellDrawn(request)
    ensures var (w, h) := Run(Fresh(revision, prebuilt), History([], []), requests);
            Bounded(w) && Keyed(w) && GrantsDistinct(h.granted) && NoRepeats(h.downloaded)
            && forall token <- h.downloaded :: WasGranted(h, token)
  {
    RunInvariant(Fresh(revision, prebuilt), History([], []), {}, requests);
  }

  // ------------------------------------------------------------- sweeping is invisible

  /** The same handlers on a store from which no sweep ever drops anything. */
  function ServeUnswept(w: Store, request: Request): (Store, Result<string, Refusal>)
  {
    var (w', reply) := Serve(w, request);
    match request
    case Ask(_, _, _, _) => (w'.(challenges := w.challenges + w'.challenges), reply)
    case Prove(_, _, _, _, _) => (w'.(downloads := w.downloads + w'.downloads), reply)
    case Upload(_, _, _) => (w'.(downloads := w.downloads + w'.downloads), reply)
    case Redeem(_, _, _, _, _) => (w', reply)
  }

  function Replies(w: Store, requests: seq<Request>): (replies: seq<Result<string, Refusal>>)
    ensures |replies| == |requests|
    decreases |requests|
  {
    if requests == [] then []
    else
      var (w', reply) := Serve(w, requests[0]);
      [reply] + Replies(w', requests[1..])
  }

  function RepliesUnswept(w: Store, requests: seq<Request>): (replies: seq<Result<string, Refusal>>)
    ensures |replies| == |requests|
    decreases |requests|
  {
    if requests == [] then []
    else
      var (w', reply) := ServeUnswept(w, requests[0]);
      [reply] + RepliesUnswept(w', requests[1..])
  }

  ghost predicate AgreeChallenges(swept: map<string, Challenge.State>, full: map<string, Challenge.State>, now: int)
  {
    && (forall key :: key in swept ==> key in full && full[key] == swept[key])
    && (forall key :: key in full && key !in swept ==> full[key].challenge.expiresAt < now)
  }

  ghost predicate AgreeDownloads(swept: map<string, Grant>, full: map<string, Grant>, now: int)
  {
    && (forall token :: token in swept ==> token in full && full[token] == swept[token])
    && (forall token :: token in full && token !in swept ==> full[token].expiresAt < now)
  }

  /** The full store holds the swept one and, beyond it, only entries expired by `now`. */
  ghost predicate Agree(swept: Store, full: Store, now: int)
  {
    && swept.revision == full.revision && swept.prebuilt == full.prebuilt
    && AgreeChallenges(swept.challenges, full.challenges, now)
    && AgreeDownloads(swept.downloads, full.downloads, now)
  }

  /** Equal, or an expired token named "unknown" because its entry was already swept. */
  predicate SameReply(swept: Result<string, Refusal>, full: Result<string, Refusal>)
  {
    || swept == full
    || (swept == Err(UnknownChallenge) && full == Err(ChallengeExpired))
    || (swept == Err(UnknownDownload) && full == Err(GrantGone))
  }

  /** Sweeping two agreeing maps leaves the same live entries, and the swept one still agrees. */
  lemma LiveDownloadsAgree(swept: map<string, Grant>, full: map<string, Grant>, now: int)
    requires AgreeDownloads(swept, full, now)
    ensures LiveDownloads(swept, now) == LiveDownloads(full, now)
    ensures AgreeDownloads(LiveDownloads(swept, now), full, now)
  {
  }

  lemma LiveChallengesAgree(swept: map<string, Challenge.State>, full: map<string, Challenge.State>, now: int)
    requires AgreeChallenges(swept, full, now)
    ensures LiveChallenges(swept, now) == LiveChallenges(full, now)
    ensures AgreeChallenges(LiveChallenges(swept, now), full, now)
  {
  }

  lemma AddDownloadAgrees(live: map<string, Grant>, full: map<string, Grant>, now: int, token: string, grant: Grant)
    requires AgreeDownloads(live, full, now)
    ensures AgreeDownloads(live[token := grant], full + live[token := grant], now)
    ensures AgreeDownloads(live, full + live, now)
  {
  }

  lemma AddChallengeAgrees(
    live: map<string, Challenge.State>, full: map<string, Challenge.State>, now: int, key: string,
    state: Challenge.State)
    requires AgreeChallenges(live, full, now)
    ensures AgreeChallenges(live[key := state], full + live[key := state], now)
    ensures AgreeChallenges(live, full + live, now)
  {
  }

  lemma GrantsAgree(swept: Store, full: Store, now: int, path: string, random: Option<string>)
    requires Agree(swept, full, now)
    ensures var (s', r) := GrantDownload(swept, now, path, random);
            var (f', q) := GrantDownload(full, now, path, random);
            r == q && Agree(s', f'.(downloads := full.downloads + f'.downloads), now)
  {
    hide TagToken, LiveDownloads, AgreeChallenges;
    LiveDownloadsAgree(swept.downloads, full.downloads, now);
    assert full.downloads + full.downloads == full.downloads;
    if random.Some? {
      var token, grant := TagToken(swept.revision, random.value), Grant(path, now + GRANT_TTL);
      AddDownloadAgrees(LiveDownloads(swept.downloads, now), full.downloads, now, token, grant);
    }
    hide AgreeDownloads;
  }

  lemma AsksAgree(swept: Store, full: Store, request: Request)
    requires Agree(swept, full, request.now) && request.Ask?
    ensures var (s', r) := Serve(swept, request);
            var (f', q) := ServeUnswept(full, request);
            r == q && Agree(s', f', request.now)
  {
    hide TagToken, LiveChallenges, AgreeDownloads, AgreeChallenges;
    LiveChallengesAgree(swept.challenges, full.challenges, request.now);
    var live := LiveChallenges(swept.challenges, request.now);
    SelfUnion(full.challenges);
    if request.issued.Ok? {
      var state := request.issued.value;
      AddChallengeAgrees(live, full.challenges, request.now, TagToken(swept.revision, state.challenge.nonce), state);
    } else {
      UnionAgrees(live, full.challenges, request.now);
    }
  }

  lemma SelfUnion(m: map<string, Challenge.State>)
    ensures m + m == m
  {
  }

  lemma UnionAgrees(live: map<string, Challenge.State>, full: map<string, Challenge.State>, now: int)
    requires AgreeChallenges(live, full, now)
    ensures AgreeChallenges(live, full + live, now)
  {
  }

  lemma ProvesAgree(swept: Store, full: Store, request: Request)
    requires Agree(swept, full, request.now) && request.Prove?
    ensures var (s', r) := Serve(swept, request);
            var (f', q) := ServeUnswept(full, request);
            SameReply(r, q) && Agree(s', f', request.now)
  {
    hide TagToken, UntagToken, GrantDownload, Challenge.FirstFault;
    assert full.downloads + full.downloads == full.downloads;
    var key := request.proof.nonce;
    if swept.prebuilt.Some? {
      var s1, f1 := swept.(challenges := swept.challenges - {key}), full.(challenges := full.challenges - {key});
      assert Agree(s1, f1, request.now);
      GrantsAgree(s1, f1, request.now, swept.prebuilt.value, request.random);
    }
  }

  lemma ServesAgree(swept: Store, full: Store, request: Request)
    requires Agree(swept, full, request.now)
    ensures var (s', r) := Serve(swept, request);
            var (f', q) := ServeUnswept(full, request);
            SameReply(r, q) && Agree(s', f', request.now)
  {
    match request
    case Ask(_, _, _, _) => AsksAgree(swept, full, request);
    case Prove(_, _, _, _, _) => ProvesAgree(swept, full, request);
    case Upload(now, path, random) =>
      hide GrantDownload, Agree;
      if swept.prebuilt.None? {
        assert full.prebuilt.None?;
      }
      GrantsAgree(swept, full, now, path, random);
      assert full.downloads + full.downloads == full.downloads;
    case Redeem(_, _, _, _, _) =>
      hide AgreeChallenges;
  }

  ghost predicate TimesRise(requests: seq<Request>, from: int)
  {
    && (forall i :: 0 <= i < |requests| ==> from <= requests[i].now)
    && (forall i, j :: 0 <= i < j < |requests| ==> requests[i].now <= requests[j].now)
  }

  /**
   * Sweeping drops only entries that would be refused as expired: on requests in
   * time order, a worker answers as one that never sweeps, down to naming some
   * expired tokens "unknown".
   */
  lemma {:induction false} SweepingIsInvisible(swept: Store, full: Store, now: int, requests: seq<Request>)
    requires Agree(swept, full, now) && TimesRise(requests, now)
    ensures forall i :: 0 <= i < |requests| ==>
              SameReply(Replies(swept, requests)[i], RepliesUnswept(full, requests)[i])
    decreases |requests|
  {
    hide Serve, ServeUnswept, SameReply, AgreeChallenges, AgreeDownloads;
    if requests != [] {
      var request := requests[0];
      AgreeLater(swept, full, now, request.now);
      ServesAgree(swept, full, request);
      SweepingIsInvisible(Serve(swept, request).0, ServeUnswept(full, request).0, request.now, requests[1..]);
    }
  }

  lemma AgreeLater(swept: Store, full: Store, now: int, later: int)
    requires Agree(swept, full, now) && now <= later
    ensures Agree(swept, full, later)
  {
  }

  // ------------------------------------------------------------- the honest exchange

  /** The three requests of a client that owns the source. */
  datatype Exchange = Exchange(
    state: Challenge.State, asked: int, proof: Challenge.Proof, decode: string -> Option<Bytes>, proved: int,
    random: string, redeemed: int)

  /** The proof answers the challenge under its tagged key with the source's own ranges. */
  ghost predicate Honest(w: Store, source: Bytes, nonce: Bytes, x: Exchange)
  {
    && |nonce| == 32 && Challenge.Issued(x.state, source, CHUNK_SIZE, CHUNK_COUNT, nonce)
    && x.state.challenge.expiresAt == x.asked + CHALLENGE_TTL
    && x.proof.nonce == TagToken(w.revision, x.state.challenge.nonce) && |x.proof.chunks| == CHUNK_COUNT
    && (forall i :: 0 <= i < CHUNK_COUNT ==>
          x.decode(x.proof.chunks[i]) == Some(Challenge.Slice(source, x.state.challenge.offsets[i], CHUNK_SIZE)))
  }

  function AfterAsk(w: Store, x: Exchange): (Store, Result<string, Refusal>)
  {
    IssueChallenge(w, x.asked, true, true, Ok(x.state))
  }

  function AfterProof(w: Store, x: Exchange): (Store, Result<string, Refusal>)
  {
    ProveChallenge(AfterAsk(w, x).0, x.proved, x.proof, x.decode, true, Some(x.random))
  }

  /** In time and with room, the honest proof buys a grant; its challenge cannot be used again. */
  lemma HonestProofIsPaid(w: Store, source: Bytes, nonce: Bytes, x: Exchange)
    requires w.prebuilt.Some? && (w.revision.Some? ==> w.revision.value <= U32_MAX) && Honest(w, source, nonce, x)
    requires |LiveChallenges(w.challenges, x.asked)| < MAX_CHALLENGES
    requires x.asked <= x.proved <= x.asked + CHALLENGE_TTL && |LiveDownloads(w.downloads, x.proved)| < MAX_DOWNLOADS
    ensures var (w', reply) := AfterProof(w, x);
            && reply == Ok(TagToken(w.revision, x.random))
            && reply.value in w'.downloads
            && w'.downloads[reply.value] == Grant(w.prebuilt.value, x.proved + GRANT_TTL)
            && w'.prebuilt == w.prebuilt && x.proof.nonce !in w'.challenges
  {
    hide TagToken, UntagToken, LiveChallenges, LiveDownloads, Challenge.Slice;
    EncodedIsHex(nonce);
    TaggedUntags(w.revision, x.state.challenge.nonce);
    var asked := AfterAsk(w, x).0;
    assert asked.challenges[x.proof.nonce] == x.state;
    Challenge.HonestProofAccepted(x.state, source, CHUNK_SIZE, CHUNK_COUNT, nonce,
                                  x.proof.(nonce := x.state.challenge.nonce), x.proved, x.decode);
    hide Challenge.Verdict, Challenge.Issued;
  }

  /**
   * Asking, proving with the source's own bytes and redeeming yields the prepared package
   * up to and including `expires_at`, exactly once.
   */
  lemma HonestExchangeYieldsThePackage(w: Store, source: Bytes, nonce: Bytes, x: Exchange)
    requires w.prebuilt.Some? && (w.revision.Some? ==> w.revision.value <= U32_MAX) && Honest(w, source, nonce, x)
    requires |LiveChallenges(w.challenges, x.asked)| < MAX_CHALLENGES
    requires x.asked <= x.proved <= x.asked + CHALLENGE_TTL && |LiveDownloads(w.downloads, x.proved)| < MAX_DOWNLOADS
    ensures AfterProof(w, x).1.Ok?
    ensures var (paid, token) := AfterProof(w, x);
            var (done, first) := Download(paid, x.redeemed, token.value, true, true, true);
            && first == (if x.redeemed <= x.proved + GRANT_TTL then Ok(w.prebuilt.value) else Err(GrantGone))
            && Download(done, x.redeemed, token.value, true, true, true).1 == Err(UnknownDownload)
            && ProveChallenge(paid, x.redeemed, x.proof, x.decode, true, Some(x.random)).1 == Err(UnknownChallenge)
  {
    hide AfterProof, TagToken, UntagToken, Honest, LiveChallenges, LiveDownloads, Challenge.Verdict;
    HonestProofIsPaid(w, source, nonce, x);
  }
}
