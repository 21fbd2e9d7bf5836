/**
 * The one second that timed retirement does not cover: a grant is still valid at
 * exactly `expires_at`, and the table may drop its issuer in that very second.
 */
module DeploymentLastSecond {
  import opened Wrappers
  import opened Tokens
  import opened Supervisor
  import opened Deployment
  import opened DeploymentFleet
  import opened DeploymentSafety
  import opened DeploymentTokens
  import opened DeploymentRetirement
  import Gateway
  import Version

  /** A run that retires a generation in the last second of one of its proof-paid grants. */
  ghost predicate CutsLastSecond(steps: seq<Step>, key: string)
  {
    && Run(Init(0.0), steps).Some?
    && var w := Run(Init(0.0), steps).value;
       && Retires(w) && key in w.book.grants && w.book.grants[key].proof
       && w.book.grants[key].generation == w.sup.value.retired.value.generation
       && w.book.grants[key].expires == w.now.Floor
  }

  /** One more step of a run from the empty disk. */
  lemma Append(steps: seq<Step>, w: World, step: Step) returns (longer: seq<Step>)
    requires Run(Init(0.0), steps) == Some(w) && Next(w, step).Some?
    ensures Run(Init(0.0), longer) == Next(w, step)
  {
    longer := steps + [step];
    OneMoreStep(Init(0.0), steps, step);
  }

  const OLD := Generation(0, 1, true)
  const NEW := Generation(2, 2, true)

  function Zeros(): string { seq(64, _ => '0') }
  function Ones(): string { seq(64, _ => '1') }
  function Key(): string { TagToken(Some(0), Zeros()) }
  function Token(): string { TagToken(Some(0), Ones()) }

  function Challenge(): Issue { Issue(OLD, 0, Zeros(), 0.0, 180, false) }
  function Grant(): Issue { Issue(OLD, 0, Ones(), 180.0, 780, true) }

  const FIRST := Saved(1, Some(OLD), None, None)
  const SECOND := Saved(2, Some(NEW), Some(OLD), Some("pair"))

  function Booted(): World
  {
    World(0.0, Some(Sup(OLD, 0, FIRST, None, None, Idle, 0.0, 0.0)),
          Disk(Some(FIRST), Some(Routes(OLD, None, None)), {}), map[0 := OLD], QUIET_NET.(up := true),
          Book(map[], map[], {}), Log([], {0}, map[], {1}, 1, 0))
  }

  function Asked(): World
  {
    Booted().(book := Book(map[Key() := Challenge()], map[], {Zeros()}))
  }

  function Switched(): World
  {
    World(0.0, Some(Sup(NEW, 1, SECOND, None, Some(Retired(OLD, 0, 0.0, 0.0, None)), Idle, 0.0, 0.0)),
          Disk(Some(SECOND), Some(Routes(NEW, Some(OLD), None)), {2}), map[0 := OLD, 1 := NEW], QUIET_NET.(up := true),
          Asked().book, Log([2], {0, 2}, map[2 := "pair"], {1, 2}, 2, 0))
  }

  function Proved(): World
  {
    Switched().(now := 180.0, book := Book(map[Key() := Challenge()], map[Token() := Grant()], {Zeros(), Ones()}))
  }

  function Last(): World
  {
    Proved().(now := 780.0, net := QUIET_NET.(up := true, stats := Some(Stats(map[], 780.0)), takenAt := 780.0))
  }

  lemma RunToBooted() returns (steps: seq<Step>)
    ensures Run(Init(0.0), steps) == Some(Booted())
  {
    var w := Init(0.0);
    steps := [];
    steps := Append(steps, w, Boot(Begin(1, true)));
    w := Next(w, Boot(Begin(1, true))).value;
    steps := Append(steps, w, Boot(Respond(1, 1)));
    w := Next(w, Boot(Respond(1, 1))).value;
    steps := Append(steps, w, Boot(Record));
    w := Next(w, Boot(Record)).value;
    steps := Append(steps, w, Boot(Publish));
    w := Next(w, Boot(Publish)).value;
    assert w.disk == Booted().disk && w.sup == Booted().sup;
    assert w.live == Booted().live && w.log == Booted().log;
  }

  lemma AskReachesOld()
    ensures Reaches(Booted(), Gateway.CHALLENGE, Gateway.Malformed, 0)
  {
    assert Gateway.CHALLENGE[8] == 'p' && Gateway.DOWNLOAD[8] == 'd';
    assert Gateway.AllowedPath(Gateway.CHALLENGE);
    assert Gateway.CHALLENGE != Gateway.PATCH && Gateway.CHALLENGE != Gateway.PROVE by {
      assert |Gateway.CHALLENGE| != |Gateway.PATCH| && |Gateway.CHALLENGE| != |Gateway.PROVE|;
    }
  }

  lemma RunToAsked() returns (steps: seq<Step>)
    ensures Run(Init(0.0), steps) == Some(Asked())
  {
    hide Run, Gateway.Select, TagToken, Gateway.AllowedPath;
    var before := RunToBooted();
    AskReachesOld();
    steps := Append(before, Booted(), Traffic(Ask(0, Zeros())));
    assert Next(Booted(), Traffic(Ask(0, Zeros()))).value.book == Asked().book;
  }

  /** The new generation is started and ready, and nothing has been published. */
  function Started(): World
  {
    Asked().(sup := Some(Sup(OLD, 0, FIRST.(counter := 2), None, None, Phase.Ready(NEW, 1, "pair"), 0.0, 0.0)),
             disk := Disk(Some(FIRST.(counter := 2)), Some(Routes(OLD, None, None)), {2}),
             live := map[0 := OLD, 1 := NEW],
             log := Log([2], {0, 2}, map[2 := "pair"], {1, 2}, 2, 0))
  }

  lemma RunToStarted() returns (steps: seq<Step>)
    ensures Run(Init(0.0), steps) == Some(Started())
  {
    hide Run, TagToken, Zeros, Routes;
    steps := RunToAsked();
    var w := Asked();
    steps := Append(steps, w, Update(Stage(0, "pair")));
    w := Next(w, Update(Stage(0, "pair"))).value;
    steps := Append(steps, w, Update(WriteCounter(true)));
    w := Next(w, Update(WriteCounter(true))).value;
    steps := Append(steps, w, Update(Start(2)));
    w := Next(w, Update(Start(2))).value;
    steps := Append(steps, w, Update(Approve));
    w := Next(w, Update(Approve)).value;
    assert w.disk == Started().disk && w.sup == Started().sup;
    assert w.live == Started().live && w.log == Started().log;
  }

  lemma RunToSwitched() returns (steps: seq<Step>)
    ensures Run(Init(0.0), steps) == Some(Switched())
  {
    hide Run, TagToken, Zeros, Routes;
    steps := RunToStarted();
    var w := Started();
    steps := Append(steps, w, Update(Commit(true)));
    w := Next(w, Update(Commit(true))).value;
    steps := Append(steps, w, Update(Switch(true)));
    w := Next(w, Update(Switch(true))).value;
    assert w.disk == Switched().disk && w.sup == Switched().sup;
    assert w.live == Switched().live && w.log == Switched().log;
  }

  lemma ProofReachesOld(w: World)
    requires w == Switched().(now := 180.0)
    ensures Reaches(w, Gateway.PROVE, Gateway.Proof(Some(Key())), 0)
  {
    hide Gateway.Select, TagToken;
    Gateway.ContinuationReachesIssuer(Routes(NEW, Some(OLD), None), 0, Zeros(), Gateway.ProveWith(Key()));
    assert Gateway.AllowedPath(Gateway.PROVE);
  }

  lemma RunToProved() returns (steps: seq<Step>)
    ensures Run(Init(0.0), steps) == Some(Proved())
  {
    hide Run, Gateway.Select, TagToken, Gateway.AllowedPath;
    steps := RunToSwitched();
    var w := Switched();
    steps := Append(steps, w, Advance(180.0));
    w := Next(w, Advance(180.0)).value;
    ProofReachesOld(w);
    Distinct();
    var prove := Traffic(Prove(0, Key(), Ones()));
    steps := Append(steps, w, prove);
    w := Next(w, prove).value;
    assert w.book.drawn == Proved().book.drawn && w.book.grants == Proved().book.grants;
  }

  lemma Distinct()
    ensures Zeros() != Ones() && IsRandomToken(Zeros()) && IsRandomToken(Ones())
  {
    assert Zeros()[0] != Ones()[0];
  }

  lemma RunToLast() returns (steps: seq<Step>)
    ensures Run(Init(0.0), steps) == Some(Last())
  {
    hide Run, TagToken, Zeros, Ones, Routes;
    steps := RunToProved();
    var w := Proved();
    steps := Append(steps, w, Advance(600.0));
    w := Next(w, Advance(600.0)).value;
    steps := Append(steps, w, Traffic(Take));
    w := Next(w, Traffic(Take)).value;
    steps := Append(steps, w, Traffic(Post));
    w := Next(w, Traffic(Post)).value;
    assert w.net == Last().net;
  }

  /** `expires <= now` at retirement cannot be sharpened to `expires < now`. */
  lemma LastSecondCanBeCut()
    ensures exists steps, key :: CutsLastSecond(steps, key)
  {
    hide Run, TagToken, Zeros, Ones, Routes;
    var steps := RunToLast();
    var w := Last();
    assert w.sup.value.retired.value == Retired(OLD, 0, 0.0, 0.0, None);
    assert Observed(w.sup.value.retired.value, w.net.stats, w.now) == w.sup.value.retired.value;
    assert Retires(w);
    assert Token() in w.book.grants && w.book.grants[Token()] == Grant();
    assert CutsLastSecond(steps, Token());
  }

  /** At retirement a worker would still honour the grant: it is refused only once `now > expires`. */
  predicate IsCut(w: World, grant: Issue) { w.now.Floor <= grant.expires }

  /**
   * When the failing second can occur: over every run, a proof-paid grant of the old
   * generation is cut at retirement exactly if retirement falls in the 780th second after the
   * cutover and the grant ends in that second. A supervisor that waited for
   * `now.Floor > since.Floor + 780` would cut none.
   */
  lemma CutExactlyInTheLastSecond(w0: World, steps: seq<Step>, key: string)
    requires Initial(w0) && Run(w0, steps).Some? && Retires(Run(w0, steps).value)
    requires var w := Run(w0, steps).value;
             && key in w.book.grants && w.book.grants[key].proof
             && w.book.grants[key].generation.revision == w.sup.value.retired.value.generation.revision
    ensures var w := Run(w0, steps).value;
            var last := w.sup.value.retired.value.since.Floor + 780;
            && (IsCut(w, w.book.grants[key]) <==> w.now.Floor == last && w.book.grants[key].expires == last)
            && (w.now.Floor > last ==> w.book.grants[key].expires < w.now.Floor)
  {
    hide Run, Sound, Issuance, Clocked, Sampled, Witnessed, Quieted, Routes;
    SteadyRun(w0, steps);
    var w := Run(w0, steps).value;
    var since := w.sup.value.retired.value.since;
    assert w.now.Floor >= since.Floor + 780;
  }
}
