# A verified model of the memorial patcher's deployment

This project models, in Dafny 4.11, the four parts of the patcher repository whose correctness depends on
histories rather than on single calls, and proves what they promise:

* **Blue/green deployment** (`deploy/run_managed.py`, `gateway.rs`, the token handlers of `main.rs`). A supervisor
  starts a candidate worker, commits `state.json`, publishes `routes.json`, keeps the old worker while its tokens
  may still be used, and later retires it or rolls back to it. `Supervisor` holds `BlueGreen` itself as a class whose
  methods are proved against exact contracts; `Deployment` is the whole system as a state machine (supervisor phases,
  the two durable files, processes, gateway traffic and counters, statistics snapshots, tokens, crashes, time), which
  uses the same decision functions. Tokens there are kept as a history of everything issued; `Worker.SweepingIsInvisible`
  is why a worker's sweeps do not matter to it. `DeploymentVersions`, `DeploymentFleet`, `DeploymentSafety`, `DeploymentTokens`,
  `DeploymentRetirement` and `DeploymentTheorems` prove invariants over every run from every first start: an empty
  disk, or the files an earlier deployment left, whose binary need not support blue/green routing.
  `DeploymentProgress` says what it does: exactly when it retires, and that boots, updates and exchanges go through.
  `DeploymentSimulation` shows that the methods of `BlueGreen` are sequences of machine steps, and
  `DeploymentLastSecond` shows exactly when one bound is tight. `Tokens`, `Gateway`, `Version`, `Challenge` and `Worker` are the pieces: tagged tokens, route selection
  and flight counters, release identities, the possession challenge, and a worker's single-use token maps;
  `WorkerAnswers` gives every answer of a worker from the history of its requests.
* **The build cache** both workers share (`BuildCache`): any number of processes, crashing anywhere, under one lock.
* **Admission control** (`security.rs`): `Admission` is the ledger and its mutable class; `AdmissionRuns`,
  `AdmissionBans`, `AdmissionRates` and `AdmissionRefinement` prove lease conservation, ban safety, rate bounds, the
  retry hint, and that one shared swept table behaves like a private never-swept machine per address;
  `AdmissionAnswers` gives the exact answer to every attempt and the exact effect of every failure.
* **Byte-level algorithms**: the ELF reader of `pipeline.rs` (`LittleEndian`, `Elf`, `ElfEncoding`, `ElfAnswers`, `ElfImages`,
  after chapters 4 and 5 of the System V ABI) and the streaming SHA-256 of `web/index.html` (`Bits32`, `Sha256Spec`, `Hex`,
  `Browser`, after FIPS 180-4 sections 5.1.1, 5.2.1 and 6.2.2; `NativeWords`, `NativeSha256` and `Sha256Vectors` work the
  two published examples on machine words).

Code that updates state in place is a class or a method with loops (`BlueGreen`, `JsonFile`, `AppState`, `Counters`,
`Security`, `SHA256`, `Directory`, the ELF methods); each is proved equal to a specification function or against a
contract that fixes its whole new state, and the theorems are about those functions. `dafny verify dfyconfig.toml`
checks everything.

## Where the code and its stated intent differ

* **The last second of a grant.** The supervisor's comment says expired tokens are gone at retirement. A grant is
  still valid at exactly `expires_at` (`main.rs:634`), so the exact statement is `expires_at <= now`, proved for
  every run by `TimedRetirement`. `LastSecondCanBeCut` gives a run in which equality happens, and
  `CutExactlyInTheLastSecond` the condition: a grant is cut exactly when retirement falls in the 780th second after the
  cutover and the grant ends in it, so waiting for `now > since + 780` in whole seconds would cut none.
* **Late failures.** `last_seen` moves only in `admit`. A slow upload that fails later after its admission than the
  ledger's time to live less the failure window (60 s for windows of 600 s or more) can be forgotten before its failure
  window ends: `LateFailureIsForgotten` is a concrete client.
  `ForgettingIsInvisibleExactly` says for which clients forgetting cannot be noticed, in both directions.
* **Lock order.** Times are taken before the ledger lock. A sweep stamped at a ban's end followed by an attempt stamped
  earlier lets that attempt in (`OutOfOrderAttemptIsSeen`), and only a counted failure stamped too early can shorten a
  ban (`ShortenedExactly`); the results that need lock order say so.
* **The hint of a ban.** `Retry-After` of a banned client is the seconds left, rounded down, plus one: a second more than
  needed exactly when the ban ends a whole number of seconds ahead (`AnsweredExactly`, through `BanWait`).
* **Unnumbered binaries.** `next_revision` hands a revision to any candidate, but a binary whose embedded revision is 0
  refuses it at start: `AllocatedRevisionAccepted` is an if-and-only-if.
* **A crash between output and sidecar** leaves an output that is refused from then on; the key is neither returned nor
  rebuilt until an operator removes the file (`OrphanIsRefusedForever`).
* **Damage before the sidecar.** The digest is taken from what is read back, so an output that rots between publication
  and digest is certified (`EarlyDamageIsCertified`); an output that rots beside an intact sidecar is always caught.
* **ELF class.** The 4 MiB limit on the dynamic table counts bytes, so between 262144 and 524288 entries an ELF32 image is
  read and the ELF64 image of the same segments is refused; where the named strings lie in bytes common to both classes
  that is the only difference (`ClassDoesNotMatter`). A string table whose address falls into entries, whose width depends
  on the class, is read differently by the two (`ClassMattersWhenEntriesShift`).

## Assumptions

* One clock, never running backward, serves `time.monotonic`, `time.time` and `unix_now`; the last is its floor.
* `stop` returns with the process gone; a crash of the supervisor takes its processes with it, as the service unit's
  control group does; a private port is never handed out twice.
* A compensating state write succeeds (a double fault is outside the model).
* Challenge, proof and download checks are single steps; uploads start and finish at different times, and every
  streamed request is counted between its start and its end. Reading the table and counting the request is one step.
* The statistics file's contents and its modification time are read in one step; in the source a rename may fall between
  the two reads.
* A deployment found at the first start was certified by its own supervisor: its counter is at or above its revision and
  it had passed readiness.
* Random values never repeat; SHA-256, base64 decoding and UTF-8 validity are functions, the last two parameters.
* `usize` has 64 bits; browser numbers below 2^53 are exact; rate arithmetic is over exact rationals.

## Model

| member | source | states |
|---|---|---|
| DeploymentRetirement.TimedRetirement | deploy/run_managed.py:530-550 | Over every run, when the table drops the old generation: every challenge it issued has expired, every proof-paid grant has reached `expires_at`, no upload to it is in flight (unless the statistics lag by more than 775 s), and a grant from an upload is cut at most D + 5 s early plus the lag of the statistics file, D being the longest pause of `maintain` since the cutover |
| DeploymentLastSecond.LastSecondCanBeCut | crates/patcher-web/src/main.rs:634 | There is a run in which a proof-paid grant is still valid in the very second its issuer is dropped |
| DeploymentLastSecond.CutExactlyInTheLastSecond | deploy/run_managed.py:541-546 | Over every run, a proof-paid grant of the old generation is cut at retirement if and only if retirement falls in the 780th whole second after the cutover and the grant ends in that second; any later, all have strictly expired |
| DeploymentRetirement.UnexpiredTokensReachTheirIssuer | crates/patcher-web/src/gateway.rs:66-90 | While its issuer lives, an unexpired challenge, a proof-paid grant strictly before its last second, and an upload-paid grant (while an old worker drains: one with more than D + 5 s and the statistics lag left) is routed to the very process that issued it, across cutover, retirement, draining and rollback |
| DeploymentProgress.RetiresExactly | deploy/run_managed.py:530-550 | Over every run, a look of `maintain` drops the old generation from the table, and the drain ends just its process, if and only if the statistics are under 5 s old and count nothing for it, the last cutover of the run is at least 780 s ago and its last loud look at least 600 s; otherwise files and processes are left alone |
| DeploymentProgress.QuietLooksRetire | deploy/run_managed.py:530-550 | If every look of the last 600 s was quiet, this one too, and the cutover is 780 s ago, the look retires |
| DeploymentProgress.UpdatesGoThrough | deploy/run_managed.py:634-642 | From every reachable idle state without a retained worker, a new release pair can be brought to a cutover, under the least revision above the counter and not below the binary's own, as long as it is at most 2099200000; the whole resulting state |
| DeploymentProgress.BootsGoThrough | deploy/run_managed.py:580-620 | Whatever a run left when its supervisor went, a start brings the generation of the state file back alone on a new port, with the counter at the largest number seen, both files and the legacy entry agreeing |
| DeploymentProgress.NewWorkIsTaken | crates/patcher-web/src/gateway.rs:80-94 | In every reachable idle state the active worker issues challenges for 180 whole seconds and takes uploads unless it is the legacy one, counted under its revision |
| DeploymentProgress.TokensAreHonoured | crates/patcher-web/src/main.rs:587-660 | In every reachable state a challenge in time whose issuer lives can be proved to it for a new grant of 600 whole seconds, and a grant in time can be downloaded |
| DeploymentProgress.FlightsEnd | crates/patcher-web/src/main.rs:796-817 | In every reachable state an upload in flight to a living worker can finish for a new grant of 600 whole seconds, and a request in flight can end, which takes one off its generation's counter |
| DeploymentProgress.CountersArePosted | crates/patcher-web/src/gateway.rs:130-139 | While the gateway runs, the statistics file can come to hold just its counters |
| DeploymentProgress.DeadWorkerIsRestarted | deploy/run_managed.py:649-655 | A dead active worker can be started again under its own generation, leaving files and tokens alone |
| DeploymentTheorems.TokensNeverReachAnotherGeneration | crates/patcher-web/src/gateway.rs:80-90 | Over every run, a proof or download bearing any token issued in it, tagged or not, is never forwarded to another generation, whatever crashes, cutovers and rollbacks lie between |
| DeploymentTheorems.FreshKeysAreNew | crates/patcher-web/src/gateway.rs:17-28 | Over every run, a live worker's token over a freshly drawn value collides with no token issued before, tagged or untagged |
| DeploymentTheorems.NewWorkReachesOneWorker | crates/patcher-web/src/gateway.rs:80-90 | Over every run, challenges and uploads reach only the process of the generation the supervisor has made active (or is rolling back to), never a candidate or a worker retained beside it |
| DeploymentTheorems.SnapshotsAreConclusive | crates/patcher-web/src/gateway.rs:130-139 | Over every run, counters, a snapshot in the making or the statistics file that were read after the cutover and count nothing for the old generation show its uploads are over and all their grants past |
| DeploymentSafety.CutoverIsAllOrNothing | deploy/run_managed.py:478-515 | Over every run: when the main loop is idle, memory, `state.json` and `routes.json` name one generation and its own pair; after a crash at any point the durable active generation had passed readiness and the durable pair is its own |
| DeploymentSafety.FleetIsSafe | deploy/run_managed.py:620-655 | Over every run: at most two workers live; when idle the targets are exactly the active worker and the retained one, under distinct revisions and ports; every target of a serving table had passed readiness |
| DeploymentSafety.NeverStopsANamedWorker | deploy/run_managed.py:511-550 | While the gateway runs, no step of the supervisor ends a worker whose port the current table names |
| DeploymentSafety.RevisionsNeverReused | deploy/run_managed.py:609-642 | Over any mix of failed stages, failed writes, crashes and restarts, from an empty disk or an earlier deployment: allocated revisions strictly increase, their version codes stay within 2100000000, and the "generation already exists" error is unreachable |
| DeploymentSafety.OldDeploymentIsInitial | deploy/run_managed.py:580-602 | The files of an earlier deployment of revision r > 0 whose binary predates blue/green routing are a first start covered by the theorems, and booting from them makes r the legacy revision |
| DeploymentVersions.NextIsUnused | deploy/run_managed.py:161-165 | The next revision exceeds every revision allocated in the whole history |
| Supervisor.BlueGreen.Activate | deploy/run_managed.py:478-515 | If start, readiness, any settling probe, the state write or the route write fails, memory, files and retained worker are as before and only the candidate was stopped; otherwise all name the new one; the exact sequence of durable states in between is given |
| Supervisor.BlueGreen.Maintain | deploy/run_managed.py:517-551 | Gateway death, rollback, missing rollback target, observation and retirement: for each, the exact condition, the whole new state, what is written, and what is stopped |
| DeploymentSimulation.ActivateFollowsMachine | deploy/run_managed.py:478-515 | From any state the objects represent, whatever `activate` does is a sequence of machine steps, the files on the way are the machine's, and the machine's record of revisions that passed readiness gains the candidate exactly when it was found ready |
| DeploymentSimulation.MaintainFollowsMachine | deploy/run_managed.py:517-551 | From any state the objects represent, whatever `maintain` does is a sequence of machine steps; where it raises, the files are those of a machine state; tokens, traffic and the record of revisions are untouched |
| Supervisor.BlueGreen.Publish | deploy/run_managed.py:464-469 | On success the route file holds the table of the active and the retained generation, with the legacy entry only while it is a target; on failure it is untouched |
| Supervisor.JsonFile.AtomicJson | deploy/run_managed.py:46-52 | Whatever operation a crash or failure follows, the path holds the old document or the whole new one, never a torn one |
| Tokens.TagRoundTrip | crates/patcher-web/src/gateway.rs:17-28 | Tagging, reading the revision and untagging undo each other for every u32 revision and every token |
| Tokens.UntagIdentity | crates/patcher-web/src/gateway.rs:22-28 | Untagging changes exactly the tokens that carry a revision |
| Tokens.TagInjective | crates/patcher-web/src/gateway.rs:17-21 | One tagged string has one issuer and one inner token |
| Tokens.TaggedExactly | crates/patcher-web/src/gateway.rs:22-28 | A token names revision r if and only if it reads "g", an optional plus, zeros, r in decimal within u32, a dot and any rest, and then untagging leaves that rest |
| Tokens.KnownTokens | crates/patcher-web/src/gateway.rs:192-197 | The tokens of the gateway's own test |
| Gateway.IssuedTokenPathAllowed | crates/patcher-web/src/gateway.rs:52-58 | The download path of every issued token, tagged or not, passes the allow list |
| Gateway.ContinuationReachesIssuer | crates/patcher-web/src/gateway.rs:66-90 | A continuation with generation r's token is forwarded to r's target exactly when the table names r, and otherwise gets 410 |
| Gateway.UntaggedReachesLegacyOnly | crates/patcher-web/src/gateway.rs:80-83 | A token without a tag reaches the legacy worker or nothing |
| Gateway.ForwardsOnlyToTheTable | crates/patcher-web/src/gateway.rs:59-90 | Whatever a client sends, the only upstreams are nonzero ports of a readable table, on an allowed path, and only continuations leave the active and legacy entries |
| Gateway.NewWorkReachesActive | crates/patcher-web/src/gateway.rs:80-90 | Uploads and challenges go to the active target only, and uploads never to the legacy worker |
| Gateway.AnsweredPathsExactly | crates/patcher-web/src/gateway.rs:52-65 | The answer is 404 if and only if the path is none of the six fixed endpoints and no download of 1 to 128 ASCII letters, digits, dots, underscores and hyphens |
| Gateway.ForwardedPathsAreLiteral | crates/patcher-web/src/gateway.rs:52-65 | A forwarded path has no "%" and no "/" but those of its endpoint |
| Gateway.FixedPathsExactly | crates/patcher-web/src/gateway.rs:80-90 | Every other endpoint goes to the active target if that has a nonzero port, else gets 410, except that an upload whose active generation is the legacy one gets 503 |
| Gateway.ContinuationsExactly | crates/patcher-web/src/gateway.rs:66-90 | A proof or download with a tag goes to the tagged generation, one without to the legacy one, if the table gives it a nonzero port, and else gets 410 |
| Gateway.UnreadableExactly | crates/patcher-web/src/gateway.rs:66-79 | Which admissible requests are answered 400, 500 or 503 for an unreadable proof or table |
| Gateway.BumpCounts | crates/patcher-web/src/gateway.rs:91-93 | Starting a flight keeps every counter equal to the number of requests in flight to that generation |
| Gateway.DropCounts | crates/patcher-web/src/gateway.rs:14-15 | Dropping a flight keeps the counters exact and never decrements a zero |
| Gateway.ZeroCountMeansQuiet | crates/patcher-web/src/gateway.rs:130-139 | A zero or missing count means no request of that generation is in flight |
| Gateway.Counters.Begin | crates/patcher-web/src/gateway.rs:91-93 | The counter map after a request is counted, with its exactness preserved |
| Gateway.Counters.End | crates/patcher-web/src/gateway.rs:14-15 | The counter map after a guard is dropped; the decrement cannot wrap |
| Version.AllocatedRevisionAccepted | crates/patcher-core/src/version.rs:32-71 | An allocated revision exceeds the counter, fits the version code, and is accepted by its own binary if and only if that binary is numbered |
| Version.DeploymentNeverRelabelsBelowRelease | crates/patcher-core/src/version.rs:32-71 | A deployment identity is never below the binary's own release and keeps the requested revision |
| Version.ExhaustedExactlyAtCeiling | deploy/run_managed.py:161-165 | Allocation fails exactly when the counter or the binary is at the ceiling |
| Version.LeastRevision | deploy/run_managed.py:161-165 | The revision allocated is the least above the counter and not below the binary's own, and there is one exactly while that is at most 2099200000 |
| Version.ResolvedExactly | crates/patcher-core/src/version.rs:48-71 | Which pairs of configured and compiled numbers give which identity and version code, and which error |
| Version.DeployedExactly | crates/patcher-core/src/version.rs:32-45 | A deployment revision is taken exactly when the base resolves, is not above it, and it is in range |
| Worker.TokensAreSingleUse | crates/patcher-web/src/main.rs:571-636 | Over every run without repeated random values: at most 128 challenges and 256 grants, no challenge pays for two grants, no token is granted twice, every downloaded token was granted and is downloaded once |
| Worker.HonestExchangeYieldsThePackage | crates/patcher-web/src/main.rs:551-660 | Asking, proving with the source's own bytes in time and redeeming yields the prepared package up to and including `expires_at`; the challenge and the token are then unknown |
| WorkerAnswers.RedeemedExactly | crates/patcher-web/src/main.rs:624-660 | Over every run in time order, the exact answer to a redemption from what was asked and answered before: an open grant in time is worth the file of its own upload or the prepared one; late, spent, unknown and file errors otherwise |
| WorkerAnswers.ProvedExactly | crates/patcher-web/src/main.rs:587-614 | Over every run in time order, the exact answer to a proof: chunk by chunk for a pending challenge in time, then as a grant; late, tried before, never issued otherwise |
| WorkerAnswers.AskedExactly | crates/patcher-web/src/main.rs:551-585 | Over every run in time order, the exact answer to a request for a challenge; capacity means 128 unexpired pending ones |
| WorkerAnswers.UploadedExactly | crates/patcher-web/src/main.rs:796-817 | Over every run in time order, the exact answer to a finished upload; capacity means 256 unexpired open grants |
| Worker.SweepingIsInvisible | crates/patcher-web/src/main.rs:571-577 | On requests in time order, the sweeping worker answers as one that never forgets, except that some expired tokens are called unknown; so sweeps drop only what would be refused as expired |
| Worker.ServeBounded | crates/patcher-web/src/main.rs:571-577 | No request takes either map beyond its capacity |
| Worker.ServeKeyed | crates/patcher-web/src/main.rs:579-583 | Every stored key keeps untagging to the nonce stored under it |
| Worker.NonceMismatchUnreachable | crates/patcher-web/src/main.rs:597-611 | With keys untagging to their nonces, a proof is never refused for a nonce mismatch |
| Worker.AppState.Issue | crates/patcher-web/src/main.rs:551-585 | The challenge map and reply in every branch, the stored state being one `ChallengeState::issue` draws from the source with ttl 180 |
| Worker.AppState.AddGrant | crates/patcher-web/src/main.rs:796-817 | The download map and reply in every branch of `grant_download` |
| Worker.AppState.Prove | crates/patcher-web/src/main.rs:587-614 | Both maps and the reply in every branch; the challenge is consumed first |
| Worker.AppState.Redeem | crates/patcher-web/src/main.rs:624-660 | The download map and reply in every branch; the grant is consumed first |
| Challenge.Issue | crates/patcher-core/src/challenge.rs:61-110 | The parameter and size errors; otherwise nonce-drawn ranges inside the source with the digest of each, and the saturated expiry |
| Challenge.Verify | crates/patcher-core/src/challenge.rs:112-135 | The first applicable refusal, chunk by chunk |
| Challenge.AcceptedProof | crates/patcher-core/src/challenge.rs:112-135 | A proof is accepted if and only if it is in time, names the nonce, has the right number of chunks, and each decodes to the right length and recorded digest |
| Challenge.RefusedExactly | crates/patcher-core/src/challenge.rs:112-135 | Which error a refused proof gets: too late, another nonce, another count, or that of the first chunk that fails, all before it passing |
| Challenge.RangesAreDrawn | crates/patcher-core/src/challenge.rs:83-104 | Each range of an issued challenge is its own draw: the first eight bytes of the digest of nonce and index are a multiple of the number of possible offsets above it; its digest is that of just these bytes of the source |
| Challenge.HonestProofAccepted | crates/patcher-core/src/challenge.rs:61-135 | Whoever answers an issued challenge in time with the source's own ranges is accepted |
| Challenge.ConstantTimeEqualIsEquality | crates/patcher-core/src/challenge.rs:138-146 | The folded XOR/OR accepts exactly equal byte strings |
| BuildCache.ReturnedBuildsAreValidated | crates/patcher-web/src/main.rs:662-722 | Over every interleaving with crashes and with outputs and sidecars that rot, vanish or appear: one process inside at a time, and every returned build carries its sidecar's digest, which is that of a build validated for that key, unless the sidecar was damaged or lost, or the output while it had no sidecar |
| BuildCache.EarlyDamageIsCertified | crates/patcher-web/src/main.rs:708-719 | A run in which an output damaged between publication and digest is certified and returned: the exception is real |
| BuildCache.OutputsNeverChange | crates/patcher-core/src/pipeline.rs:767-779 | No process ever replaces or removes a published output or sidecar |
| BuildCache.ReturnedIsGenuine | crates/patcher-web/src/main.rs:700-722 | Without damage, what a call returns is itself a build validated for its key, and no sidecar lacks its output |
| BuildCache.ReturnedBytesAreValidated | crates/patcher-web/src/main.rs:700-722 | Where SHA-256 does not collide on them, the returned bytes of an undamaged key are a build validated for it |
| BuildCache.FreshBuildIsReturned | crates/patcher-web/src/main.rs:700-722 | With the lock free and neither file there, a call whose build validates publishes both files and returns it |
| BuildCache.CachedBuildIsReturned | crates/patcher-web/src/main.rs:696-706 | With the lock free and the output there, a call returns it if and only if the sidecar spells its digest, in either case and with white space around |
| BuildCache.OrphanIsRefusedForever | crates/patcher-web/src/main.rs:700-719 | An output without sidecar whose builder is gone is never returned, rebuilt or certified in any continuation that leaves it there, rotten or not, and brings no sidecar from outside |
| BuildCache.CrashBetweenFilesOrphans | crates/patcher-web/src/main.rs:718-719 | A crash after the output and before the sidecar, of a key not damaged before, leaves exactly such an output |
| BuildCache.Directory.BuildOrReuse | crates/patcher-web/src/main.rs:700-722 | Both files in every branch; a returned key has an output matching its sidecar and nothing present was replaced |
| BuildCache.Directory.PublishOutput | crates/patcher-core/src/pipeline.rs:767-779 | The staged file appears exactly when nothing was there and no write failed |
| BuildCache.Directory.PublishSidecar | crates/patcher-web/src/main.rs:724-737 | The digest appears exactly when no sidecar was there and no write failed |
| BuildCache.MatchesIsEquality | crates/patcher-web/src/main.rs:700-706 | On digests the cache writes, the trimmed case-insensitive comparison is equality |
| BuildCache.MatchesExactly | crates/patcher-web/src/main.rs:700-706 | A digest passes against exactly the sidecars that spell it in either case with Unicode white space around |
| BuildCache.PlannedExactly | crates/patcher-core/src/plan.rs:40-66 | Exactly what `create` accepts, and otherwise the first error |
| BuildCache.PreimageExactly | crates/patcher-core/src/plan.rs:67-77 | The pre-image of an accepted plan: its eight fields in their order, with NULs between |
| BuildCache.PlanTupleInjective | crates/patcher-core/src/plan.rs:66-77 | Two plans that pass the checks of `create` share a pre-image if and only if all eight fields agree; the checks keep NULs out of the commit and fix the ABI, the other six texts are assumed free of them |
| BuildCache.CacheKeyIsIdentity | crates/patcher-web/src/main.rs:685-690 | For accepted plans with NUL-free texts and no hash collision of the inner tuples, two file-name pre-images agree if and only if plan, fingerprint and revision all agree |
| AdmissionRefinement.SharedLedgerRefinesPrivateMachines | crates/patcher-web/src/security.rs:292-389 | From an empty ledger, for every run and address whose counted failures come within the time to live less the failure window of its last attempt, each answer other than a capacity refusal is that of the address's own never-swept machine fed only its own events |
| AdmissionRefinement.PerIpRefinement | crates/patcher-web/src/security.rs:292-389 | The same from any pair of related states |
| AdmissionRefinement.SweepForgetsOnlyDormant | crates/patcher-web/src/security.rs:294-302 | A sweep drops only clients indistinguishable from new ones |
| AdmissionRefinement.ForgettingIsInvisibleExactly | crates/patcher-web/src/security.rs:294-302 | Forgetting an idle, refilled client is invisible to every later event of its address if and only if its ban is due to be lifted or its failure window has run out |
| AdmissionRefinement.LateFailureIsForgotten | crates/patcher-web/src/security.rs:294-302 | A concrete client whose late failure is swept away inside its window, with events that show the difference |
| AdmissionRefinement.OutOfOrderAttemptIsSeen | crates/patcher-web/src/security.rs:292-328 | A concrete client and an attempt stamped before a sweep but locked after it, answered differently: the lock-order hypothesis of the refinement is needed |
| AdmissionRuns.LeaseConservation | crates/patcher-web/src/security.rs:477-488 | Over every interleaving: free, pending, leased and draining permits add up to the limit, each client's count is its live leases and within the per-address limit |
| AdmissionAnswers.AnsweredExactly | crates/patcher-web/src/security.rs:292-363 | Over every run, the exact answer to every attempt of every class: no room, banned, as many leases out as allowed, no page token, no token of the class, or admitted, in this order, with the least whole number of seconds that suffices as the hint; and the whole state it leaves |
| AdmissionAnswers.FailedExactly | crates/patcher-web/src/security.rs:364-389 | Over every run, which statuses count, when a failure opens a window, and when it bans |
| AdmissionAnswers.EnoughFailuresBan | crates/patcher-web/src/security.rs:364-389 | From a failure that opens a window soon enough after the client was last seen, the configured number of failures within the window bans it from the last of them, and fewer do not, whatever else happens in between |
| AdmissionAnswers.PermitsExactly | crates/patcher-web/src/security.rs:477-480 | Over every run, a request gets a permit exactly while fewer than the limit are out |
| AdmissionRuns.LeaseHolderIsPresent | crates/patcher-web/src/security.rs:371-394 | `failed` always finds a lease holder and `leave` never saturates |
| AdmissionRuns.SweepKeepsLeased | crates/patcher-web/src/security.rs:294-302 | A sweep never removes a client with requests in flight |
| AdmissionBans.BanNeedsFailures | crates/patcher-web/src/security.rs:364-389 | In every run, in whatever order events take the lock, a ban begins or is renewed only by a counted failure of that address, with the configured number of its failures, from the one that opened the window on, stamped before the window's end |
| AdmissionBans.BanNeedsFailuresInOneWindow | crates/patcher-web/src/security.rs:364-389 | When events take the lock in the order of their stamps, those failures all lie in one failure window |
| AdmissionBans.BanHolds | crates/patcher-web/src/security.rs:294-328 | In whatever order events take the lock, a ban survives every sweep and each attempt stamped within it is refused without spending tokens or slots, as long as no counted failure of the address is stamped too early for a full ban |
| AdmissionBans.BanHoldsInOrder | crates/patcher-web/src/security.rs:294-328 | When events take the lock in the order of their stamps, nothing shortens a ban |
| AdmissionBans.ShortenedExactly | crates/patcher-web/src/security.rs:364-389 | A step stamped within a ban shortens it if and only if it is a counted failure, at the limit, stamped too early for a full ban |
| AdmissionRates.RetryHint | crates/patcher-web/src/security.rs:107-121 | After a refusal naming s seconds and any failing tries: a try succeeds exactly when the exact need has passed, s seconds always suffice, s - 1 never do |
| AdmissionRates.RateBound | crates/patcher-web/src/security.rs:107-121 | In any stretch of a run, admissions of one address on one budget are at most what the bucket shows plus what forward clock movement earns, across sweeps |
| AdmissionRates.WindowBound | crates/patcher-web/src/security.rs:294-360 | In any window of any run: at most cap + T cap/period admissions, T being the time from the window's first attempt to its last, plus cap/period per second the lock order stepped back between them |
| AdmissionRates.ForwardIsNetPlusBackward | crates/patcher-web/src/security.rs:292-302 | Forward clock movement is elapsed time plus the total backward step |
| Admission.Security.AdmitRequest | crates/patcher-web/src/security.rs:292-363 | The locked ledger after an admission attempt, and its outcome, equal the ledger specification |
| Admission.Security.Decide | crates/patcher-web/src/security.rs:313-362 | The per-client decision in the order of its checks |
| Admission.Security.FailedRequest | crates/patcher-web/src/security.rs:364-389 | The ledger after a reported status |
| Admission.Security.LeaveRequest | crates/patcher-web/src/security.rs:390-394 | The ledger after a lease ends |
| Admission.TableBounded | crates/patcher-web/src/security.rs:303-312 | The table never outgrows `max_tracked_ips` |
| Elf.ElfPrograms | crates/patcher-core/src/pipeline.rs:880-925 | The loop returns the program table of the header's layout or its error, with no overflow or read outside the file |
| Elf.RvaToFileOffset | crates/patcher-core/src/pipeline.rs:927-951 | The offset of the first executable load segment that contains the range, or which error, for every image; no overflow and no read outside the file |
| Elf.MappedBytesAreLoaded | crates/patcher-core/src/pipeline.rs:927-951 | For every returned offset the range lies in the file and in the first executable segment containing it, and the image a loader builds by placing the PT_LOAD segments in table order holds each of its bytes if and only if no later segment replaces it by a different one |
| Elf.MappedRangeIsLoaded | crates/patcher-core/src/pipeline.rs:927-951 | Where no other load segment covers the range, loaded memory at the RVA is the file at the returned offset, byte for byte |
| Elf.LastWriterWins | crates/patcher-core/src/pipeline.rs:927-951 | Loaded memory holds, at each address, the byte of the last load segment that covers it, and nothing elsewhere |
| Elf.ElfDynamic | crates/patcher-core/src/pipeline.rs:666-765 | Seeks, scan, table lookup and string reads return the reference meaning of the dynamic table, or its error |
| Elf.DynamicNeverFailsToRead | crates/patcher-core/src/pipeline.rs:666-765 | The only input that makes a read fail is a file shorter than a header |
| Elf.WalkNoteSegment | crates/patcher-core/src/pipeline.rs:962-984 | The cursor loop with saturating padding terminates on every byte string and returns what the note structure says |
| Elf.ElfGnuBuildId | crates/patcher-core/src/pipeline.rs:953-990 | The descriptor from the first note segment that yields one, or which error |
| Elf.PaddedEnds | crates/patcher-core/src/pipeline.rs:970-980 | From a 4-byte aligned start within 64 KiB the saturating additions and the mask compute exact 4-byte padding: they never saturate |
| ElfAnswers.TableExactly | crates/patcher-core/src/pipeline.rs:880-925 | For every file: which error, or which segments, read from the little-endian fields of the header and of each entry at the places of its class |
| ElfAnswers.HeaderExactly | crates/patcher-core/src/pipeline.rs:881-904 | For every file: which headers are accepted, and what is read from them |
| ElfAnswers.LookupExactly | crates/patcher-core/src/pipeline.rs:927-951 | For every readable table: the lookup is decided by the first PT_LOAD with the lowest flag bit set that has the range or whose end overflows, and answers its offset or which error |
| ElfAnswers.BuildIdExactly | crates/patcher-core/src/pipeline.rs:953-990 | For every image: the first note segment that is over 64 KiB or has a type-3 note named "GNU..." decides, with that note's descriptor, and nothing else does |
| ElfAnswers.EveryImageHolds | crates/patcher-core/src/pipeline.rs:953-990 | Whatever bytes lie in note segments, they are notes and an end |
| ElfAnswers.MeaningExactly | crates/patcher-core/src/pipeline.rs:711-718 | Of the entries before the first DT_NULL, every DT_NEEDED counts and of DT_STRTAB, DT_STRSZ and DT_SONAME the last |
| ElfAnswers.InterpretedExactly | crates/patcher-core/src/pipeline.rs:719-765 | Which error or which names a completed scan is answered; a string table of 1 byte to 4 MiB |
| ElfAnswers.StringExactly | crates/patcher-core/src/pipeline.rs:744-756 | A string offset names the text up to the first NUL from there, and which error otherwise |
| ElfAnswers.StringsExactly | crates/patcher-core/src/pipeline.rs:757-763 | A list of offsets is read if every one is, and otherwise fails as the first bad one does |
| ElfEncoding.ProgramTableRoundTrip | crates/patcher-core/src/pipeline.rs:880-925 | Reading a serialized header and table returns the same segments for both classes and any stride at or above the minimum |
| ElfEncoding.EntryRoundTrip | crates/patcher-core/src/pipeline.rs:905-919 | One serialized segment reads back |
| ElfEncoding.ScanRoundTrip | crates/patcher-core/src/pipeline.rs:695-722 | Scanning serialized dynamic entries of either class yields their class-free meaning |
| ElfImages.DynamicRoundTrip | crates/patcher-core/src/pipeline.rs:666-765 | Reading any image of either class whose program headers describe the segments, laid out in whatever way and sharing whatever bytes, yields what the entries mean over the first load segment that holds the named strings, or which refusal; "bad dynamic" exactly when the entries exceed 4 MiB in that class |
| ElfImages.TooLargeExactly | crates/patcher-core/src/pipeline.rs:686-691 | The limit on the dynamic table is 524288 entries in ELF32 and 262144 in ELF64 |
| ElfImages.ClassDoesNotMatter | crates/patcher-core/src/pipeline.rs:666-765 | When the named strings are not found through class-dependent bytes, any ELF32 and any ELF64 image of the same segments give the same DT_NEEDED list and SONAME, or fail alike, if and only if the entries do not exceed the 4 MiB limit in ELF64 alone |
| ElfImages.ClassMattersWhenEntriesShift | crates/patcher-core/src/pipeline.rs:729-742 | Two images of one list of segments, far below the limit, read to different names, because in ELF64 the named range lies inside the entries |
| ElfImages.SpansAreCarried | crates/patcher-core/src/pipeline.rs:880-925 | For any body and overlapping spans of it, either class has an image that carries the segments they cover |
| ElfImages.LibraryIsRead | crates/patcher-core/src/pipeline.rs:666-765 | In both classes, a library whose load segment contains its strings, its dynamic segment and bytes that depend on the class is read to its one needed name and its SONAME |
| ElfEncoding.NotesRoundTrip | crates/patcher-core/src/pipeline.rs:962-984 | On any serialized list of notes, whatever their padding and the incomplete note after them hold, the walk returns the descriptor of the first type-3 note whose name starts with "GNU" |
| Browser.HashPieces | web/index.html:55 | However the bytes are cut into `update` calls, one `hex` prints the FIPS 180-4 digest |
| Browser.SHA256.Update | web/index.html:55 | Appends to the message, whatever the fill level, keeping the chaining value that of the whole blocks so far |
| Browser.SHA256.Block | web/index.html:55 | One FIPS compression, from signed JavaScript intermediates |
| Browser.SHA256.Finish | web/index.html:55 | The hand-written padding at every fill level and 64-bit length is that of section 5.1.1 |
| Browser.SHA256.Hex | web/index.html:55 | Prints the digest of everything passed to `update` |
| Browser.HashFile | web/index.html:57 | The digest of the file, delivered exactly when the selection was the same at the start of every slice, where alone it is looked at |
| Browser.RoundReduces | web/index.html:55 | A round in JavaScript numbers is the FIPS round mod 2^32 |
| Browser.ScheduleReduces | web/index.html:55 | The message-schedule step in JavaScript numbers is the FIPS step mod 2^32 |
| Browser.AssembleIsBigEndian | web/index.html:55 | The shifted, OR-ed bytes are the big-endian word although the intermediate may be negative |
| Sha256Spec.ConstantsAreCubeRoots | web/index.html:56 | The 64 constants the page uses are the first 32 bits of the fractional parts of the cube roots of the first 64 primes |
| Sha256Spec.InitialStateIsSquareRoots | web/index.html:55 | The initial state the page uses is the first 32 bits of the fractional parts of the square roots of the first eight primes |
| NativeSha256.RoundIs | web/index.html:55 | The round of the specification is the one on 32-bit machine words |
| NativeWords.NativeOp | web/index.html:55 | And, or and exclusive or of the specification are those of the machine |
| NativeWords.NativeAdd | web/index.html:55 | Addition mod 2^32 is that of the machine |
| Sha256Vectors.AbcDigest | web/index.html:55 | The digest of "abc", as published |
| Sha256Vectors.LettersDigest | web/index.html:55 | The digest of the published message of two blocks |
| Hex.PrintedWord | web/index.html:55 | `toString(16)`, `padStart` and `toUpperCase` print the four bytes of a word |

## Left out

- GitHub queries, downloads, checkouts, virtualenvs and the rest of `stage`: success or failure only; the allocation at its end is modelled.
- The build tool chain inside `Pipeline::run` and manifest checks: a build is an abstract validated result.
- ZIP, JSON, base64, HTTP, TLS and UTF-8 libraries: parameters or abstract.
- Floating-point rounding in the buckets: tokens are exact rationals.
- The deployment without a gateway (`activate` outside `BlueGreen`): it stops the old worker first and keeps no tokens.
- The heavy-worker permit, body limits and time limits of `patch_upload`: an upload step may simply not happen.
- The class of a request (`Class::of` on its path): a parameter of an admission attempt.
- Header cleaning, gateway keys, origin and listen checks, configuration parsing: single-call checks.
- `docker/`, `tools/`, installers, page text and translations.
- Time inside one handler: one reading of the clock per request in `Worker`.
- Requests that read the old route table and are counted only after a later table was published: selection and counting are one step.
- DeploymentRetirement.UnexpiredTokensReachTheirIssuer: claims nothing for a proof-paid grant in its last valid second, nor for the last D + 5 s and statistics lag of an upload-paid grant of a draining worker, because retirement may fall there.
- Challenge.Issue: opening or reading the source and drawing the nonce do not fail.
- AdmissionRefinement.SharedLedgerRefinesPrivateMachines: attempts refused for table capacity are not fed to the private machine, and events take the lock in the order of their stamps.
- AdmissionRefinement.PerIpRefinement: the same two hypotheses.
- BuildCache.ReturnedBuildsAreValidated: every process takes the shared lock; the supervisor sets it for all its workers.
- Elf.MappedBytesAreLoaded: memory is what the file backs; zero fill, page rounding and relocation are not modelled.
