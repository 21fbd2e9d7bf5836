/**
 * Every answer of a worker in terms of what was asked and answered before: which challenge can
 * still be proved, which grant can still be redeemed, for what, and when there is no room.
 */
module WorkerAnswers {
  import opened Wrappers
  import opened Tokens
  import opened Bits32
  import opened Worker
  import Challenge
  import Sha256Spec

  /** What a worker was started with, and the requests it has served, in the order of their times. */
  datatype Session = Session(revision: Option<nat>, prebuilt: Option<string>, requests: seq<Request>)
  {
    function Prefix(n: nat): Session
      requires n <= |requests|
    {
      this.(requests := requests[..n])
    }

    function Front(): Session
      requires requests != []
    {
      Prefix(|requests| - 1)
    }

    function Last(): Request
      requires requests != []
    {
      requests[|requests| - 1]
    }

    ghost predicate Valid()
    {
      && (revision.Some? ==> revision.value <= U32_MAX)
      && Distinct(requests) && (forall request <- requests :: WellDrawn(request))
      && forall i, j :: 0 <= i < j < |requests| ==> requests[i].now <= requests[j].now
    }
  }

  function StoreAfter(s: Session): Store
    decreases |s.requests|
  {
    if s.requests == [] then Store(s.revision, s.prebuilt, map[], map[])
    else Serve(StoreAfter(s.Front()), s.Last()).0
  }

  function ReplyAt(s: Session, i: nat): Result<string, Refusal>
    requires i < |s.requests|
  {
    Serve(StoreAfter(s.Prefix(i)), s.requests[i]).1
  }

  // ------------------------------------------------------------- what was handed out and not yet used

  /** Request i was answered with this download token. */
  predicate Grants(s: Session, i: nat, token: string)
  {
    i < |s.requests| && (s.requests[i].Prove? || s.requests[i].Upload?) && ReplyAt(s, i) == Ok(token)
  }

  predicate Redeems(request: Request, token: string) { request.Redeem? && request.token == token }

  predicate Proves(request: Request, key: string) { request.Prove? && request.proof.nonce == key }

  /** And no request since has tried to redeem it. */
  predicate Open(s: Session, i: nat, token: string)
  {
    Grants(s, i, token) && forall j :: i < j < |s.requests| ==> !Redeems(s.requests[j], token)
  }

  /** The file request i made available: an upload's own, or the prepared one. */
  function PathOf(s: Session, i: nat): string
    requires i < |s.requests|
  {
    if s.requests[i].Upload? then s.requests[i].path else if s.prebuilt.Some? then s.prebuilt.value else ""
  }

  /** Request i was answered with a challenge under this key. */
  predicate Issues(s: Session, i: nat, key: string)
  {
    i < |s.requests| && s.requests[i].Ask? && s.requests[i].issued.Ok? && ReplyAt(s, i) == Ok(key)
  }

  /** And no request since has tried to prove it. */
  predicate Pending(s: Session, i: nat, key: string)
  {
    Issues(s, i, key) && forall j :: i < j < |s.requests| ==> !Proves(s.requests[j], key)
  }

  /** The grants that are open and unexpired at `now`. */
  ghost function OpenAt(s: Session, now: int): set<nat>
  {
    set i | 0 <= i < |s.requests| && ReplyAt(s, i).Ok? && Open(s, i, ReplyAt(s, i).value)
            && now <= s.requests[i].now + 600
  }

  /** The challenges that are pending and unexpired at `now`. */
  ghost function PendingAt(s: Session, now: int): set<nat>
  {
    set i | 0 <= i < |s.requests| && ReplyAt(s, i).Ok? && Pending(s, i, ReplyAt(s, i).value)
            && now <= s.requests[i].issued.value.challenge.expiresAt
  }

  // ------------------------------------------------------------- prefixes

  lemma {:induction false} StoreConstants(s: Session)
    ensures StoreAfter(s).revision == s.revision && StoreAfter(s).prebuilt == s.prebuilt
    decreases |s.requests|
  {
    if s.requests != [] {
      StoreConstants(s.Front());
      ServeConstants(StoreAfter(s.Front()), s.Last());
      hide Serve;
    }
  }

  lemma ServeConstants(w: Store, request: Request)
    ensures Serve(w, request).0.revision == w.revision && Serve(w, request).0.prebuilt == w.prebuilt
  {
    hide Challenge.Verdict, TagToken, UntagToken, LiveChallenges, LiveDownloads;
  }

  lemma PrefixReplies(s: Session, i: nat)
    requires s.requests != [] && i < |s.requests| - 1
    ensures s.Front().requests[i] == s.requests[i] && ReplyAt(s.Front(), i) == ReplyAt(s, i)
  {
    assert s.Front().Prefix(i) == s.Prefix(i);
  }

  lemma FrontValid(s: Session)
    requires s.requests != [] && s.Valid()
    ensures s.Front().Valid()
  {
    hide WellDrawn, Drawn;
    assert forall request <- s.Front().requests :: request in s.requests;
  }

  lemma LastReply(s: Session)
    requires s.requests != []
    ensures ReplyAt(s, |s.requests| - 1) == Serve(StoreAfter(s.Front()), s.Last()).1
  {
  }

  lemma NoneSince(s: Session, i: nat, bad: Request -> bool)
    requires s.requests != [] && i < |s.requests| - 1
    ensures (forall j :: i < j < |s.requests| ==> !bad(s.requests[j])) <==>
              (forall j :: i < j < |s.Front().requests| ==> !bad(s.Front().requests[j])) && !bad(s.Last())
  {
    var n := |s.requests| - 1;
    assert forall j :: i < j < n ==> s.Front().requests[j] == s.requests[j];
  }

  lemma OpenBefore(s: Session, i: nat, token: string)
    requires s.requests != [] && i < |s.requests| - 1
    ensures Grants(s, i, token) <==> Grants(s.Front(), i, token)
    ensures Open(s, i, token) <==> Open(s.Front(), i, token) && !Redeems(s.Last(), token)
    ensures PathOf(s.Front(), i) == PathOf(s, i)
  {
    PrefixReplies(s, i);
    hide ReplyAt, Redeems;
    assert Grants(s, i, token) <==> Grants(s.Front(), i, token);
    hide Grants;
    NoneSince(s, i, request => Redeems(request, token));
  }

  lemma PendingBefore(s: Session, i: nat, key: string)
    requires s.requests != [] && i < |s.requests| - 1
    ensures Issues(s, i, key) <==> Issues(s.Front(), i, key)
    ensures Pending(s, i, key) <==> Pending(s.Front(), i, key) && !Proves(s.Last(), key)
  {
    PrefixReplies(s, i);
    hide ReplyAt, Proves;
    assert Issues(s, i, key) <==> Issues(s.Front(), i, key);
    hide Issues;
    NoneSince(s, i, request => Proves(request, key));
  }

  // ------------------------------------------------------------- tokens and keys are one request's own

  lemma OneReply(w: Store, request: Request)
    ensures var reply := Serve(w, request).1;
            (request.Ask? || request.Prove? || request.Upload?) && reply.Ok? ==>
              Drawn(request).Some? && reply.value == TagToken(w.revision, Drawn(request).value)
  {
    hide TagToken, Challenge.Verdict, UntagToken, LiveChallenges, LiveDownloads;
  }

  lemma ReplyIsTag(s: Session, i: nat)
    requires i < |s.requests| && ReplyAt(s, i).Ok? && !s.requests[i].Redeem?
    ensures Drawn(s.requests[i]).Some? && ReplyAt(s, i).value == TagToken(s.revision, Drawn(s.requests[i]).value)
  {
    StoreConstants(s.Prefix(i));
    hide Serve, StoreAfter, TagToken, Drawn;
    OneReply(StoreAfter(s.Prefix(i)), s.requests[i]);
  }

  /** No two requests are answered with one token or key. */
  lemma RepliesDistinct(s: Session, i: nat, j: nat)
    requires s.Valid() && i < |s.requests| && j < |s.requests| && !s.requests[i].Redeem? && !s.requests[j].Redeem?
    requires ReplyAt(s, i).Ok? && ReplyAt(s, i) == ReplyAt(s, j)
    ensures i == j
  {
    hide ReplyAt, TagToken, Drawn, WellDrawn;
    ReplyIsTag(s, i);
    ReplyIsTag(s, j);
    TagInjectiveAt(s.revision, Drawn(s.requests[i]).value, Drawn(s.requests[j]).value);
  }

  // ------------------------------------------------------------- the store is what the history says

  /** The token is stored as the open grant of request i. */
  predicate StoredAs(s: Session, i: nat, token: string)
  {
    && Open(s, i, token) && token in StoreAfter(s).downloads
    && StoreAfter(s).downloads[token] == Grant(PathOf(s, i), s.requests[i].now + 600)
  }

  /** The download map holds just open grants, and all of them that are unexpired. */
  ghost predicate GrantsStored(s: Session)
  {
    var downloads := StoreAfter(s).downloads;
    && (forall token :: token in downloads ==> exists i: nat :: StoredAs(s, i, token))
    && (forall i: nat, token :: Open(s, i, token) && s.requests[i].now + 600 >= s.Last().now ==> token in downloads)
  }

  /** The challenge map holds just pending challenges, and all of them that are unexpired. */
  ghost predicate ChallengesStored(s: Session)
  {
    var challenges := StoreAfter(s).challenges;
    && (forall key :: key in challenges ==>
          exists i: nat :: Pending(s, i, key) && challenges[key] == s.requests[i].issued.value)
    && (forall i: nat, key :: Pending(s, i, key) && s.requests[i].issued.value.challenge.expiresAt >= s.Last().now ==>
          key in challenges)
  }

  /** How a request changes the download map: it sweeps and adds its grant, removes one, or neither. */
  lemma DownloadsChange(w: Store, request: Request)
    ensures var (w', reply) := Serve(w, request);
            if (request.Prove? || request.Upload?) && reply.Ok? then
              w'.downloads == LiveDownloads(w.downloads, request.now)[reply.value :=
                                Grant(if request.Upload? then request.path
                                      else if w.prebuilt.Some? then w.prebuilt.value else "", request.now + 600)]
            else if request.Redeem? then w'.downloads == w.downloads - {request.token}
            else w'.downloads == w.downloads || w'.downloads == LiveDownloads(w.downloads, request.now)
  {
    hide GrantDownload, UntagToken, Challenge.Verdict, LiveChallenges;
    match request
    case Redeem(_, token, _, _, _) =>
      assert token !in w.downloads ==> w.downloads - {token} == w.downloads;
    case Prove(now, _, _, _, random) =>
      if w.prebuilt.Some? {
        GrantChange(w.(challenges := w.challenges - {request.proof.nonce}), now, w.prebuilt.value, random);
      }
    case Upload(now, path, random) => GrantChange(w, now, path, random);
    case _ =>
  }

  lemma GrantChange(w: Store, now: int, path: string, random: Option<string>)
    ensures var (w', reply) := GrantDownload(w, now, path, random);
            && w'.challenges == w.challenges
            && if reply.Ok? then
                 w'.downloads == LiveDownloads(w.downloads, now)[reply.value := Grant(path, now + 600)]
               else w'.downloads == w.downloads || w'.downloads == LiveDownloads(w.downloads, now)
  {
    hide TagToken, LiveDownloads;
  }

  lemma ChallengesChange(w: Store, request: Request)
    ensures var (w', reply) := Serve(w, request);
            if request.Ask? && reply.Ok? then
              && request.issued.Ok?
              && w'.challenges == LiveChallenges(w.challenges, request.now)[reply.value := request.issued.value]
            else if request.Prove? && w.prebuilt.Some? then w'.challenges == w.challenges - {request.proof.nonce}
            else w'.challenges == w.challenges || w'.challenges == LiveChallenges(w.challenges, request.now)
  {
    hide TagToken, UntagToken, Challenge.Verdict, LiveChallenges, LiveDownloads;
    if request.Prove? && request.proof.nonce !in w.challenges {
      assert w.challenges - {request.proof.nonce} == w.challenges;
    }
  }

  lemma GrantIsUnique(s: Session, i: nat, j: nat, token: string)
    requires s.Valid() && Grants(s, i, token) && Grants(s, j, token)
    ensures i == j
  {
    hide ReplyAt;
    RepliesDistinct(s, i, j);
  }

  lemma IssueIsUnique(s: Session, i: nat, j: nat, key: string)
    requires s.Valid() && Issues(s, i, key) && Issues(s, j, key)
    ensures i == j
  {
    hide ReplyAt;
    RepliesDistinct(s, i, j);
  }

  lemma TimesInOrder(s: Session)
    requires s.requests != [] && s.Valid()
    ensures s.Front().requests != [] ==> s.Front().Last().now <= s.Last().now
  {
    hide Distinct, WellDrawn;
  }

  /** A stored grant is the request's own or was there before. */
  lemma DownloadsKept(w: Store, request: Request, token: string)
    requires token in Serve(w, request).0.downloads
    ensures var (w', reply) := Serve(w, request);
            if (request.Prove? || request.Upload?) && reply == Ok(token) then
              w'.downloads[token] == Grant(if request.Upload? then request.path
                                           else if w.prebuilt.Some? then w.prebuilt.value else "", request.now + 600)
            else token in w.downloads && w'.downloads[token] == w.downloads[token] && !Redeems(request, token)
  {
    DownloadsChange(w, request);
    hide Serve;
  }

  /** What is stored was open and unspent before this request, or is its own grant. */
  lemma {:induction false} StoredAreOpen(s: Session, token: string)
    requires s.requests != [] && GrantsStored(s.Front()) && token in StoreAfter(s).downloads
    ensures exists i: nat :: StoredAs(s, i, token)
  {
    var w := StoreAfter(s.Front());
    assert StoreAfter(s) == Serve(w, s.Last()).0;
    DownloadsKept(w, s.Last(), token);
    LastReply(s);
    if (s.Last().Prove? || s.Last().Upload?) && Answer(s) == Ok(token) {
      hide Serve, ReplyAt, Redeems, StoreAfter, StoredAs;
      OwnIsStored(s, token);
    } else {
      hide Serve, ReplyAt, Redeems, StoreAfter, StoredAs;
      var i: nat :| StoredAs(s.Front(), i, token);
      OldIsStored(s, i, token);
    }
  }

  lemma OwnIsStored(s: Session, token: string)
    requires s.requests != [] && (s.Last().Prove? || s.Last().Upload?) && Answer(s) == Ok(token)
    ensures StoredAs(s, |s.requests| - 1, token)
  {
    OwnIsOpen(s, token);
    StoreConstants(s.Front());
    LastReply(s);
    DownloadsChange(StoreAfter(s.Front()), s.Last());
    hide Serve, ReplyAt, Open;
  }

  lemma OldIsStored(s: Session, i: nat, token: string)
    requires s.requests != [] && StoredAs(s.Front(), i, token) && !Redeems(s.Last(), token)
    requires token in StoreAfter(s).downloads
    requires StoreAfter(s).downloads[token] == StoreAfter(s.Front()).downloads[token]
    ensures StoredAs(s, i, token)
  {
    hide StoreAfter, Open, Redeems, PathOf;
    StillOpen(s, i, token);
  }

  lemma OwnIsOpen(s: Session, token: string)
    requires s.requests != [] && (s.Last().Prove? || s.Last().Upload?) && Answer(s) == Ok(token)
    ensures Open(s, |s.requests| - 1, token)
  {
    hide ReplyAt;
  }

  lemma StillOpen(s: Session, i: nat, token: string)
    requires s.requests != [] && Open(s.Front(), i, token) && !Redeems(s.Last(), token)
    ensures Open(s, i, token) && i < |s.requests| && s.Front().requests[i] == s.requests[i]
    ensures PathOf(s.Front(), i) == PathOf(s, i)
  {
    hide ReplyAt, Redeems;
    OpenIsGranted(s.Front(), i, token);
    OpenBefore(s, i, token);
  }

  lemma DownloadsStay(w: Store, request: Request, token: string)
    requires token in w.downloads && w.downloads[token].expiresAt >= request.now && !Redeems(request, token)
    ensures token in Serve(w, request).0.downloads
  {
    DownloadsChange(w, request);
    hide Serve;
  }

  /** What is open and unexpired is stored. */
  lemma {:induction false} OpenAreStored(s: Session, i: nat, token: string)
    requires s.requests != [] && s.Valid() && GrantsStored(s.Front())
    requires Open(s, i, token) && s.requests[i].now + 600 >= s.Last().now
    ensures token in StoreAfter(s).downloads
  {
    var n, w := |s.requests| - 1, StoreAfter(s.Front());
    assert StoreAfter(s) == Serve(w, s.Last()).0;
    LastReply(s);
    if i == n {
      DownloadsChange(w, s.Last());
    } else {
      OpenBefore(s, i, token);
      TimesInOrder(s);
      FrontValid(s);
      assert s.Front().requests[i] == s.requests[i];
      hide Serve, ReplyAt, StoreAfter, Distinct, WellDrawn, Redeems;
      StoredGrant(s.Front(), i, token);
      DownloadsStay(w, s.Last(), token);
    }
  }

  /** An unexpired open grant is stored with its own file and end. */
  lemma StoredGrant(s: Session, i: nat, token: string)
    requires s.Valid() && GrantsStored(s) && Open(s, i, token) && s.requests[i].now + 600 >= s.Last().now
    ensures token in StoreAfter(s).downloads
    ensures StoreAfter(s).downloads[token] == Grant(PathOf(s, i), s.requests[i].now + 600)
  {
    hide StoreAfter, ReplyAt, Distinct, WellDrawn;
    var j: nat :| StoredAs(s, j, token);
    GrantIsUnique(s, i, j, token);
  }

  /** A stored challenge is the request's own or was there before. */
  lemma ChallengesKept(w: Store, request: Request, key: string)
    requires key in Serve(w, request).0.challenges
    ensures var (w', reply) := Serve(w, request);
            if request.Ask? && reply == Ok(key) then request.issued.Ok? && w'.challenges[key] == request.issued.value
            else
              && key in w.challenges && w'.challenges[key] == w.challenges[key]
              && (w.prebuilt.Some? ==> !Proves(request, key))
  {
    ChallengesChange(w, request);
    hide Serve;
  }

  lemma ChallengesStay(w: Store, request: Request, key: string)
    requires key in w.challenges && w.challenges[key].challenge.expiresAt >= request.now && !Proves(request, key)
    ensures key in Serve(w, request).0.challenges
  {
    ChallengesChange(w, request);
    hide Serve;
  }

  lemma {:induction false} StoredIsPending(s: Session, key: string)
    requires s.requests != [] && ChallengesStored(s.Front()) && key in StoreAfter(s).challenges
    ensures exists i: nat :: Pending(s, i, key) && StoreAfter(s).challenges[key] == s.requests[i].issued.value
  {
    var n, w := |s.requests| - 1, StoreAfter(s.Front());
    assert StoreAfter(s) == Serve(w, s.Last()).0;
    ChallengesKept(w, s.Last(), key);
    LastReply(s);
    hide Serve, ReplyAt, StoreAfter;
    if s.Last().Ask? && Serve(w, s.Last()).1 == Ok(key) {
      assert Issues(s, n, key) && Pending(s, n, key);
    } else {
      var i: nat :| Pending(s.Front(), i, key) && w.challenges[key] == s.Front().requests[i].issued.value;
      hide Pending, ChallengesStored, Proves;
      StillPending(s, i, key);
    }
  }

  lemma StillPending(s: Session, i: nat, key: string)
    requires s.requests != [] && Pending(s.Front(), i, key)
    requires StoreAfter(s.Front()).prebuilt.Some? ==> !Proves(s.Last(), key)
    ensures Pending(s, i, key) && i < |s.requests| && s.Front().requests[i] == s.requests[i]
  {
    hide StoreAfter, ReplyAt, Proves;
    PendingIsIssued(s.Front(), i, key);
    StoreConstants(s.Front());
    IssuedNeedsPrebuilt(s.Front(), i, key);
    PendingBefore(s, i, key);
    hide Pending, Issues;
  }

  lemma IssuedNeedsPrebuilt(s: Session, i: nat, key: string)
    requires Issues(s, i, key)
    ensures s.prebuilt.Some?
  {
    StoreConstants(s.Prefix(i));
    hide TagToken, LiveChallenges;
  }

  lemma {:induction false} PendingAreStored(s: Session, i: nat, key: string)
    requires s.requests != [] && s.Valid() && ChallengesStored(s.Front())
    requires Pending(s, i, key) && s.requests[i].issued.value.challenge.expiresAt >= s.Last().now
    ensures key in StoreAfter(s).challenges
  {
    var n, w := |s.requests| - 1, StoreAfter(s.Front());
    assert StoreAfter(s) == Serve(w, s.Last()).0;
    LastReply(s);
    if i == n {
      ChallengesChange(w, s.Last());
    } else {
      PendingBefore(s, i, key);
      TimesInOrder(s);
      FrontValid(s);
      assert s.Front().requests[i] == s.requests[i];
      hide Serve, ReplyAt, StoreAfter, Distinct, WellDrawn, Proves;
      StoredChallenge(s.Front(), i, key);
      ChallengesStay(w, s.Last(), key);
    }
  }

  /** An unexpired pending challenge is stored with its own state. */
  lemma StoredChallenge(s: Session, i: nat, key: string)
    requires s.Valid() && ChallengesStored(s) && Pending(s, i, key)
    requires s.requests[i].issued.value.challenge.expiresAt >= s.Last().now
    ensures key in StoreAfter(s).challenges && StoreAfter(s).challenges[key] == s.requests[i].issued.value
  {
    hide StoreAfter, ReplyAt, Distinct, WellDrawn;
    var j: nat :| Pending(s, j, key) && StoreAfter(s).challenges[key] == s.requests[j].issued.value;
    IssueIsUnique(s, i, j, key);
  }

  lemma {:induction false} HistoryIsStored(s: Session)
    requires s.Valid()
    ensures GrantsStored(s) && ChallengesStored(s)
    decreases |s.requests|
  {
    if s.requests != [] {
      FrontValid(s);
      HistoryIsStored(s.Front());
      hide StoreAfter, Open, Pending, PathOf, Distinct, WellDrawn;
      forall token | token in StoreAfter(s).downloads
        ensures exists i: nat :: StoredAs(s, i, token)
      {
        StoredAreOpen(s, token);
      }
      forall i: nat, token | Open(s, i, token) && s.requests[i].now + 600 >= s.Last().now
        ensures token in StoreAfter(s).downloads
      {
        OpenAreStored(s, i, token);
      }
      forall key | key in StoreAfter(s).challenges
        ensures exists i: nat :: Pending(s, i, key) && StoreAfter(s).challenges[key] == s.requests[i].issued.value
      {
        StoredIsPending(s, key);
      }
      forall i: nat, key | Pending(s, i, key) && s.requests[i].issued.value.challenge.expiresAt >= s.Last().now
        ensures key in StoreAfter(s).challenges
      {
        PendingAreStored(s, i, key);
      }
    }
  }

  // ------------------------------------------------------------- room

  lemma {:induction false} ImageSize(indices: set<nat>, image: set<string>, name: nat -> string)
    requires forall i :: i in indices ==> name(i) in image
    requires forall t :: t in image ==> exists i :: i in indices && name(i) == t
    requires forall i, j :: i in indices && j in indices && name(i) == name(j) ==> i == j
    ensures |indices| == |image|
    decreases |indices|
  {
    if indices == {} {
      assert image == {};
    } else {
      var i :| i in indices;
      var rest, others := indices - {i}, image - {name(i)};
      forall t | t in others ensures exists j :: j in rest && name(j) == t {
        var j :| j in indices && name(j) == t;
        assert j in rest;
      }
      ImageSize(rest, others, name);
    }
  }

  /** The token or key request i was answered with. */
  function NameOf(s: Session, i: nat): string
  {
    if i < |s.requests| && ReplyAt(s, i).Ok? then ReplyAt(s, i).value else ""
  }

  lemma LiveIsOpen(s: Session, now: int, token: string)
    requires GrantsStored(s) && token in LiveDownloads(StoreAfter(s).downloads, now)
    ensures exists i :: i in OpenAt(s, now) && NameOf(s, i) == token
  {
    hide StoreAfter, ReplyAt;
    var i: nat :| StoredAs(s, i, token);
    OpenIsGranted(s, i, token);
    assert i in OpenAt(s, now) && NameOf(s, i) == token;
  }

  lemma OpenIsLive(s: Session, now: int, i: nat)
    requires s.Valid() && GrantsStored(s) && (s.requests != [] ==> s.Last().now <= now) && i in OpenAt(s, now)
    ensures NameOf(s, i) in LiveDownloads(StoreAfter(s).downloads, now)
  {
    hide StoreAfter, ReplyAt, Distinct, WellDrawn, Open;
    StoredGrant(s, i, NameOf(s, i));
  }

  lemma OpenNamesDiffer(s: Session, now: int, i: nat, j: nat)
    requires s.Valid() && i in OpenAt(s, now) && j in OpenAt(s, now) && NameOf(s, i) == NameOf(s, j)
    ensures i == j
  {
    hide StoreAfter, ReplyAt, Distinct, WellDrawn, Open;
    OpenIsGranted(s, i, NameOf(s, i));
    OpenIsGranted(s, j, NameOf(s, j));
    GrantIsUnique(s, i, j, NameOf(s, i));
  }

  /** A worker stores as many unexpired grants as are open. */
  lemma {:induction false} RoomForGrants(s: Session, now: int)
    requires s.Valid() && (s.requests != [] ==> s.Last().now <= now)
    ensures |LiveDownloads(StoreAfter(s).downloads, now)| == |OpenAt(s, now)|
  {
    HistoryIsStored(s);
    hide StoreAfter, NameOf, OpenAt, GrantsStored, ChallengesStored, LiveDownloads, Session.Valid;
    var live := LiveDownloads(StoreAfter(s).downloads, now).Keys;
    var name := (i: nat) => NameOf(s, i);
    forall i | i in OpenAt(s, now) ensures name(i) in live {
      OpenIsLive(s, now, i);
    }
    forall t | t in live ensures exists i :: i in OpenAt(s, now) && name(i) == t {
      LiveIsOpen(s, now, t);
    }
    forall i, j | i in OpenAt(s, now) && j in OpenAt(s, now) && name(i) == name(j) ensures i == j {
      OpenNamesDiffer(s, now, i, j);
    }
    ImageSize(OpenAt(s, now), live, name);
    assert |LiveDownloads(StoreAfter(s).downloads, now)| == |live|;
  }

  lemma OpenIsGranted(s: Session, i: nat, token: string)
    requires Open(s, i, token)
    ensures Grants(s, i, token) && i < |s.requests| && ReplyAt(s, i) == Ok(token) && !s.requests[i].Redeem?
  {
    hide ReplyAt;
  }

  lemma PendingIsIssued(s: Session, i: nat, key: string)
    requires Pending(s, i, key)
    ensures Issues(s, i, key) && i < |s.requests| && ReplyAt(s, i) == Ok(key) && s.requests[i].Ask?
  {
    hide ReplyAt;
  }

  lemma LiveIsPending(s: Session, now: int, key: string)
    requires ChallengesStored(s) && key in LiveChallenges(StoreAfter(s).challenges, now)
    ensures exists i :: i in PendingAt(s, now) && NameOf(s, i) == key
  {
    hide StoreAfter, ReplyAt;
    var i: nat :| Pending(s, i, key) && StoreAfter(s).challenges[key] == s.requests[i].issued.value;
    PendingIsIssued(s, i, key);
    assert i in PendingAt(s, now) && NameOf(s, i) == key;
  }

  lemma PendingIsLive(s: Session, now: int, i: nat)
    requires s.Valid() && ChallengesStored(s) && (s.requests != [] ==> s.Last().now <= now) && i in PendingAt(s, now)
    ensures NameOf(s, i) in LiveChallenges(StoreAfter(s).challenges, now)
  {
    hide StoreAfter, ReplyAt, Distinct, WellDrawn, Pending;
    StoredChallenge(s, i, NameOf(s, i));
  }

  lemma PendingNamesDiffer(s: Session, now: int, i: nat, j: nat)
    requires s.Valid() && i in PendingAt(s, now) && j in PendingAt(s, now) && NameOf(s, i) == NameOf(s, j)
    ensures i == j
  {
    hide StoreAfter, ReplyAt, Distinct, WellDrawn, Pending;
    PendingIsIssued(s, i, NameOf(s, i));
    PendingIsIssued(s, j, NameOf(s, j));
    IssueIsUnique(s, i, j, NameOf(s, i));
  }

  /** A worker stores as many unexpired challenges as are pending. */
  lemma {:induction false} RoomForChallenges(s: Session, now: int)
    requires s.Valid() && (s.requests != [] ==> s.Last().now <= now)
    ensures |LiveChallenges(StoreAfter(s).challenges, now)| == |PendingAt(s, now)|
  {
    HistoryIsStored(s);
    hide StoreAfter, NameOf, PendingAt, GrantsStored, ChallengesStored, LiveChallenges, Session.Valid;
    var live := LiveChallenges(StoreAfter(s).challenges, now).Keys;
    var name := (i: nat) => NameOf(s, i);
    forall i | i in PendingAt(s, now) ensures name(i) in live {
      PendingIsLive(s, now, i);
    }
    forall t | t in live ensures exists i :: i in PendingAt(s, now) && name(i) == t {
      LiveIsPending(s, now, t);
    }
    forall i, j | i in PendingAt(s, now) && j in PendingAt(s, now) && name(i) == name(j) ensures i == j {
      PendingNamesDiffer(s, now, i, j);
    }
    ImageSize(PendingAt(s, now), live, name);
    assert |LiveChallenges(StoreAfter(s).challenges, now)| == |live|;
  }

  // ------------------------------------------------------------- the answers

  /** The last request's answer. */
  function Answer(s: Session): Result<string, Refusal>
    requires s.requests != []
  {
    ReplyAt(s, |s.requests| - 1)
  }

  /**
   * Every answer to a redemption: an open grant in time is worth its own request's file,
   * whatever else was asked before; a late one is gone or already forgotten; and a token
   * that was never granted or was tried before is unknown.
   */
  lemma {:induction false} RedeemedExactly(s: Session)
    requires s.requests != [] && s.Valid() && s.Last().Redeem?
    ensures var r, before := s.Last(), s.Front();
            && ((forall i: nat :: !Open(before, i, r.token)) ==> Answer(s) == Err(UnknownDownload))
            && forall i: nat :: Open(before, i, r.token) ==>
                 if r.now > before.requests[i].now + 600 then Answer(s) in {Err(UnknownDownload), Err(GrantGone)}
                 else
                   Answer(s) == if !r.isFile then Err(GrantGone)
                                else if s.prebuilt.Some? && !r.metadataOk then Err(PreparedChanged)
                                else if !r.opens then Err(OpenFailed)
                                else Ok(PathOf(before, i))
  {
    var r, before := s.Last(), s.Front();
    var w := StoreAfter(before);
    FrontValid(s);
    HistoryIsStored(before);
    TimesInOrder(s);
    StoreConstants(before);
    LastReply(s);
    hide StoreAfter, ReplyAt, Distinct, WellDrawn, Open, PathOf, ChallengesStored;
    forall i: nat | Open(before, i, r.token)
      ensures i < |before.requests|
      ensures r.token in w.downloads ==>
                w.downloads[r.token] == Grant(PathOf(before, i), before.requests[i].now + 600)
      ensures r.now <= before.requests[i].now + 600 ==> r.token in w.downloads
    {
      StoredForm(before, i, r.token);
    }
    hide GrantsStored;
    if r.token in w.downloads {
      assert exists i: nat :: Open(before, i, r.token) by {
        StoredHasOpen(before, r.token);
      }
    }
  }

  lemma StoredHasOpen(s: Session, token: string)
    requires GrantsStored(s) && token in StoreAfter(s).downloads
    ensures exists i: nat :: Open(s, i, token)
  {
    hide StoreAfter, Open, PathOf;
  }

  /** If an open grant is stored, it is stored with its own file and end. */
  lemma StoredForm(s: Session, i: nat, token: string)
    requires s.Valid() && GrantsStored(s) && Open(s, i, token)
    ensures i < |s.requests|
    ensures token in StoreAfter(s).downloads ==>
              StoreAfter(s).downloads[token] == Grant(PathOf(s, i), s.requests[i].now + 600)
    ensures s.requests[i].now + 600 >= s.Last().now ==> token in StoreAfter(s).downloads
  {
    hide StoreAfter, ReplyAt, Distinct, WellDrawn;
    if token in StoreAfter(s).downloads {
      var j: nat :| StoredAs(s, j, token);
      GrantIsUnique(s, i, j, token);
    }
  }

  /** A grant is refused for want of randomness, or while 256 unexpired grants are open; else it bears the tag. */
  ghost predicate PaysAs(s: Session, random: Option<string>)
    requires s.requests != []
  {
    Answer(s) == if random.None? then Err(NoRandomness)
                 else if |OpenAt(s.Front(), s.Last().now)| >= 256 then Err(Capacity)
                 else Ok(TagToken(s.revision, random.value))
  }

  lemma GrantPays(s: Session, challenges: map<string, Challenge.State>, path: string, random: Option<string>)
    requires s.requests != [] && s.Valid()
    requires Answer(s) == GrantDownload(StoreAfter(s.Front()).(challenges := challenges), s.Last().now, path, random).1
    ensures PaysAs(s, random)
  {
    FrontValid(s);
    TimesInOrder(s);
    RoomForGrants(s.Front(), s.Last().now);
    StoreConstants(s.Front());
    hide StoreAfter, ReplyAt, LiveDownloads, OpenAt, TagToken, Session.Valid;
  }

  /** Every answer to a finished upload. */
  lemma UploadedExactly(s: Session)
    requires s.requests != [] && s.Valid() && s.Last().Upload?
    ensures if s.prebuilt.Some? then Answer(s) == Err(UsePossession) else PaysAs(s, s.Last().random)
  {
    LastReply(s);
    StoreConstants(s.Front());
    hide StoreAfter, ReplyAt, OpenAt, GrantDownload, Session.Valid;
    if s.prebuilt.None? {
      GrantPays(s, StoreAfter(s.Front()).challenges, s.Last().path, s.Last().random);
    }
  }

  /** Every answer to a request for a challenge: at most 128 unexpired ones are pending. */
  lemma AskedExactly(s: Session)
    requires s.requests != [] && s.Valid() && s.Last().Ask?
    ensures var r := s.Last();
            Answer(s) == if s.prebuilt.None? then Err(PrebuiltDisabled)
                         else if !r.sourceMatches then Err(UnsupportedSource)
                         else if !r.metadataOk then Err(PreparedChanged)
                         else if |PendingAt(s.Front(), r.now)| >= 128 then Err(Capacity)
                         else if r.issued.Err? then Err(IssueFailed)
                         else Ok(TagToken(s.revision, r.issued.value.challenge.nonce))
  {
    LastReply(s);
    FrontValid(s);
    TimesInOrder(s);
    RoomForChallenges(s.Front(), s.Last().now);
    StoreConstants(s.Front());
    hide StoreAfter, ReplyAt, LiveChallenges, PendingAt, TagToken, Session.Valid;
  }

  /** What a proof of this challenge in time is answered: the first bad chunk, or as a grant. */
  ghost predicate ProvesAs(s: Session, state: Challenge.State)
    requires s.requests != [] && s.Last().Prove?
  {
    var r := s.Last();
    if |r.proof.chunks| != |state.digests| then Answer(s) == Err(ProofRejected(Challenge.ChunkCount))
    else
      && (forall k: nat, error :: Challenge.FirstRefused(state, r.proof, 0, k, r.decode, error) ==>
            Answer(s) == Err(ProofRejected(error)))
      && ((forall j :: 0 <= j < |r.proof.chunks| ==> Challenge.Passes(state, r.proof, j, r.decode)) ==>
            if !r.metadataOk then Answer(s) == Err(PreparedChanged) else PaysAs(s, r.random))
  }

  /**
   * Every answer to a proof: one of a pending challenge in time is judged chunk by chunk, and
   * bought with it a grant if all pass; a late one has expired or is already forgotten; and
   * one of a challenge never issued, or tried before, is unknown.
   */
  lemma {:induction false} ProvedExactly(s: Session)
    requires s.requests != [] && s.Valid() && s.Last().Prove?
    ensures var r, before := s.Last(), s.Front();
            && (s.prebuilt.None? ==> Answer(s) == Err(PrebuiltDisabled))
            && (s.prebuilt.Some? && (forall i: nat :: !Pending(before, i, r.proof.nonce)) ==>
                  Answer(s) == Err(UnknownChallenge))
            && forall i: nat :: Pending(before, i, r.proof.nonce) ==>
                 var state := before.requests[i].issued.value;
                 if r.now > state.challenge.expiresAt then Answer(s) in {Err(UnknownChallenge), Err(ChallengeExpired)}
                 else ProvesAs(s, state)
  {
    var r, before := s.Last(), s.Front();
    var w, key := StoreAfter(before), r.proof.nonce;
    FrontValid(s);
    HistoryIsStored(before);
    TimesInOrder(s);
    StoreConstants(before);
    LastReply(s);
    hide StoreAfter, ReplyAt, Distinct, WellDrawn, GrantsStored, Pending, ProvesAs;
    if key in w.challenges {
      StoredHasPending(before, key);
    }
    forall i: nat | Pending(before, i, key)
      ensures var state := before.requests[i].issued.value;
              if r.now > state.challenge.expiresAt then Answer(s) in {Err(UnknownChallenge), Err(ChallengeExpired)}
              else ProvesAs(s, state)
    {
      PendingProof(s, i);
    }
    hide ChallengesStored, GrantDownload, Challenge.Verdict;
  }

  lemma StoredHasPending(s: Session, key: string)
    requires ChallengesStored(s) && key in StoreAfter(s).challenges
    ensures exists i: nat :: Pending(s, i, key)
  {
    hide StoreAfter, Pending;
  }

  /** If a pending challenge is stored, it is stored with its own state. */
  lemma StoredState(s: Session, i: nat, key: string)
    requires s.Valid() && ChallengesStored(s) && Pending(s, i, key)
    ensures i < |s.requests| && s.requests[i].Ask? && s.requests[i].issued.Ok?
    ensures key in StoreAfter(s).challenges ==> StoreAfter(s).challenges[key] == s.requests[i].issued.value
    ensures s.requests[i].issued.value.challenge.expiresAt >= s.Last().now ==> key in StoreAfter(s).challenges
    ensures UntagToken(key) == s.requests[i].issued.value.challenge.nonce && s.prebuilt.Some?
  {
    IssuedNeedsPrebuilt(s, i, key);
    hide StoreAfter, ReplyAt, Distinct, TagToken, UntagToken, IsRandomToken;
    ReplyIsTag(s, i);
    TaggedUntags(s.revision, s.requests[i].issued.value.challenge.nonce) by {
      assert s.requests[i] in s.requests && WellDrawn(s.requests[i]);
    }
    if key in StoreAfter(s).challenges {
      var j: nat :| Pending(s, j, key) && StoreAfter(s).challenges[key] == s.requests[j].issued.value;
      IssueIsUnique(s, i, j, key);
    }
  }

  lemma {:induction false} PendingProof(s: Session, i: nat)
    requires s.requests != [] && s.Valid() && s.Last().Prove? && ChallengesStored(s.Front())
    requires Pending(s.Front(), i, s.Last().proof.nonce)
    ensures i < |s.Front().requests| && s.Front().requests[i].Ask? && s.Front().requests[i].issued.Ok?
    ensures var state := s.Front().requests[i].issued.value;
            if s.Last().now > state.challenge.expiresAt then
              Answer(s) in {Err(UnknownChallenge), Err(ChallengeExpired)}
            else ProvesAs(s, state)
  {
    var r, before := s.Last(), s.Front();
    var w := StoreAfter(before);
    FrontValid(s);
    TimesInOrder(s);
    StoreConstants(before);
    StoredState(before, i, r.proof.nonce);
    LastReply(s);
    hide StoreAfter, ReplyAt, Session.Valid, ChallengesStored, Pending;
    var state := before.requests[i].issued.value;
    var proof := r.proof.(nonce := state.challenge.nonce);
    JudgedAlike(state, r.proof, proof, r.now, r.decode);
    hide Challenge.Verdict, Challenge.FirstRefused, Challenge.Passes, GrantDownload, UntagToken, OpenAt;
    if r.now <= state.challenge.expiresAt {
      if Challenge.Verdict(state, proof, r.now, r.decode).None? && r.metadataOk {
        GrantPays(s, w.challenges - {r.proof.nonce}, s.prebuilt.value, r.random);
      }
    }
  }

  /** The verdict on a proof under the challenge's own nonce, chunk by chunk. */
  lemma JudgedAlike(
    state: Challenge.State, proof: Challenge.Proof, untagged: Challenge.Proof, now: int,
    decode: string -> Option<Bytes>)
    requires untagged == proof.(nonce := state.challenge.nonce)
    ensures var verdict := Challenge.Verdict(state, untagged, now, decode);
            && (verdict == Some(Challenge.Expired) <==> now > state.challenge.expiresAt)
            && (now <= state.challenge.expiresAt ==>
                  && (verdict == Some(Challenge.ChunkCount) <==> |proof.chunks| != |state.digests|)
                  && (|proof.chunks| == |state.digests| ==>
                        && (forall k: nat, error :: Challenge.FirstRefused(state, proof, 0, k, decode, error) ==>
                              verdict == Some(error) && error != Challenge.Expired)
                        && ((forall j :: 0 <= j < |proof.chunks| ==> Challenge.Passes(state, proof, j, decode)) ==>
                              verdict == None)))
  {
    if |proof.chunks| == |state.digests| {
      SameChunks(state, proof, untagged, decode);
      FirstIsRefused(state, proof, decode);
    }
    forall error ensures Challenge.Verdict(state, untagged, now, decode) == Some(error) <==>
              if now > state.challenge.expiresAt then error == Challenge.Expired
              else if |untagged.chunks| != |state.digests| then error == Challenge.ChunkCount
              else exists k: nat :: Challenge.FirstRefused(state, untagged, 0, k, decode, error)
    {
      Challenge.RefusedExactly(state, untagged, now, decode, error);
    }
    hide Challenge.Verdict, Challenge.FirstRefused, Challenge.Passes;
    var verdict := Challenge.Verdict(state, untagged, now, decode);
    if now <= state.challenge.expiresAt && |proof.chunks| == |state.digests| && verdict.Some? {
      var k: nat :| Challenge.FirstRefused(state, untagged, 0, k, decode, verdict.value);
      RefusedIsNotPassed(state, proof, k, decode, verdict.value);
    }
  }

  lemma FirstIsRefused(state: Challenge.State, proof: Challenge.Proof, decode: string -> Option<Bytes>)
    requires |proof.chunks| == |state.digests|
    ensures forall k: nat, error :: Challenge.FirstRefused(state, proof, 0, k, decode, error) ==>
              error in {Challenge.Encoding, Challenge.ChunkLength, Challenge.ProofMismatch}
  {
    forall k: nat, error | Challenge.FirstRefused(state, proof, 0, k, decode, error)
      ensures error in {Challenge.Encoding, Challenge.ChunkLength, Challenge.ProofMismatch}
    {
      RefusedIsNotPassed(state, proof, k, decode, error);
    }
  }

  lemma RefusedIsNotPassed(
    state: Challenge.State, proof: Challenge.Proof, k: nat, decode: string -> Option<Bytes>, error: Challenge.Error)
    requires |proof.chunks| == |state.digests| && Challenge.FirstRefused(state, proof, 0, k, decode, error)
    ensures k < |proof.chunks| && !Challenge.Passes(state, proof, k, decode)
    ensures error in {Challenge.Encoding, Challenge.ChunkLength, Challenge.ProofMismatch}
  {
    hide Sha256Spec.Digest;
  }

  /** What a chunk is judged by does not include the nonce. */
  lemma SameChunks(
    state: Challenge.State, proof: Challenge.Proof, untagged: Challenge.Proof, decode: string -> Option<Bytes>)
    requires untagged.chunks == proof.chunks && |proof.chunks| == |state.digests|
    ensures forall k: nat, error :: Challenge.FirstRefused(state, proof, 0, k, decode, error)
                                    <==> Challenge.FirstRefused(state, untagged, 0, k, decode, error)
  {
    hide Sha256Spec.Digest;
    forall j: nat, error | j < |proof.chunks|
      ensures Challenge.Refused(state, proof, j, decode, error) == Challenge.Refused(state, untagged, j, decode, error)
    {
    }
    hide Challenge.Refused;
    forall j: nat | j < |proof.chunks|
      ensures Challenge.Passes(state, proof, j, decode) == Challenge.Passes(state, untagged, j, decode)
    {
    }
  }
}
