/**
 * The build cache shared by the blue and the green worker
 * (crates/patcher-web/src/main.rs `build_or_reuse`, pipeline.rs `publish_noclobber`,
 * plan.rs cache key): every interleaving of processes that crash anywhere.
 */
module BuildCache {
  import opened Wrappers
  import opened Bits32
  import Tokens
  import Sha256Spec
  import Hex

  /** `sha256_file` */
  function Sum(content: Bytes): string
  {
    Hex.Encode(Sha256Spec.Digest(content))
  }

  // ------------------------------------------------------------- the sidecar comparison

  /** `char::is_whitespace`: the White_Space property of Unicode. */
  predicate IsSpace(c: char)
  {
    var code := c as int;
    || 9 <= code <= 13 || code == 0x20 || code == 0x85 || code == 0xA0 || code == 0x1680
    || 0x2000 <= code <= 0x200A || code == 0x2028 || code == 0x2029 || code == 0x202F || code == 0x205F
    || code == 0x3000
  }

  function TrimStart(s: string): string
  {
    if s != [] && IsSpace(s[0]) then TrimStart(s[1..]) else s
  }

  function TrimEnd(s: string): string
  {
    if s != [] && IsSpace(s[|s| - 1]) then TrimEnd(s[..|s| - 1]) else s
  }

  function Trim(s: string): string { TrimEnd(TrimStart(s)) }

  function Lower(c: char): char { if 'A' <= c <= 'Z' then (c as int + 32) as char else c }

  /** `eq_ignore_ascii_case` */
  predicate EqualIgnoringCase(a: string, b: string)
  {
    |a| == |b| && forall i :: 0 <= i < |a| ==> Lower(a[i]) == Lower(b[i])
  }

  /** The check a cached output must pass. */
  predicate Matches(actual: string, sidecar: string) { EqualIgnoringCase(actual, Trim(sidecar)) }

  predicate IsUpperHex(c: char) { 'A' <= c <= 'F' || '0' <= c <= '9' }

  lemma {:induction false} SumIsHex(bytes: Bytes)
    ensures forall c <- Hex.Encode(bytes) :: IsUpperHex(c)
  {
    if bytes != [] {
      SumIsHex(bytes[1..]);
      assert IsUpperHex(Hex.UPPER[bytes[0] / 16]) && IsUpperHex(Hex.UPPER[bytes[0] % 16]);
    }
  }

  lemma TrimKeepsHex(t: string)
    requires forall c <- t :: IsUpperHex(c)
    ensures Trim(t) == t
  {
    if t != [] {
      assert IsUpperHex(t[0]) && IsUpperHex(t[|t| - 1]);
    }
  }

  lemma CaseKeepsHex(s: string, t: string)
    requires (forall c <- s :: IsUpperHex(c)) && (forall c <- t :: IsUpperHex(c)) && EqualIgnoringCase(s, t)
    ensures s == t
  {
    forall i | 0 <= i < |s| ensures s[i] == t[i] {
      assert s[i] in s && t[i] in t && Lower(s[i]) == Lower(t[i]);
    }
  }

  /** On the digests the cache itself writes, trimming and case folding change nothing: the check is equality. */
  lemma MatchesIsEquality(a: Bytes, b: Bytes)
    ensures Matches(Hex.Encode(a), Hex.Encode(b)) <==> Hex.Encode(a) == Hex.Encode(b)
  {
    hide Hex.Encode, Trim;
    SumIsHex(a);
    SumIsHex(b);
    TrimKeepsHex(Hex.Encode(b));
    if Matches(Hex.Encode(a), Hex.Encode(b)) {
      CaseKeepsHex(Hex.Encode(a), Hex.Encode(b));
    }
  }

  /** Characters a sidecar may have around its digest. */
  predicate IsBlank(c: char)
  {
    c as int in {9, 10, 11, 12, 13, 0x20, 0x85, 0xA0, 0x1680, 0x2000, 0x2001, 0x2002, 0x2003, 0x2004, 0x2005, 0x2006,
                 0x2007, 0x2008, 0x2009, 0x200A, 0x2028, 0x2029, 0x202F, 0x205F, 0x3000}
  }

  predicate AllBlank(s: string) { forall c <- s :: IsBlank(c) }

  /** The text spells the upper-case digest, in either case. */
  predicate Spells(text: string, digest: string)
  {
    && |text| == |digest|
    && forall i :: 0 <= i < |text| ==>
         text[i] == digest[i] || ('A' <= digest[i] <= 'F' && text[i] as int == digest[i] as int + 32)
  }

  /** The sidecar spells the digest, with nothing but white space around. */
  ghost predicate SpelledBy(digest: string, sidecar: string)
  {
    exists before, text, after ::
      sidecar == before + text + after && AllBlank(before) && AllBlank(after) && Spells(text, digest)
  }

  lemma {:induction false} TrimStartSkips(before: string, s: string)
    requires AllBlank(before) && (s != [] ==> !IsBlank(s[0]))
    ensures TrimStart(before + s) == s
    decreases |before|
  {
    if before == [] {
      assert before + s == s;
    } else {
      assert before[0] in before && (before + s)[1..] == before[1..] + s;
      TrimStartSkips(before[1..], s);
    }
  }

  lemma {:induction false} TrimEndSkips(s: string, after: string)
    requires AllBlank(after) && (s != [] ==> !IsBlank(s[|s| - 1]))
    ensures TrimEnd(s + after) == s
    decreases |after|
  {
    if after == [] {
      assert s + after == s;
    } else {
      var front, last := after[..|after| - 1], after[|after| - 1];
      assert after == front + [last] && last in after;
      assert (s + after)[..|s + after| - 1] == s + front;
      TrimEndSkips(s, front);
    }
  }

  lemma {:induction false} TrimStartSplits(s: string) returns (before: string)
    ensures AllBlank(before) && s == before + TrimStart(s)
    decreases |s|
  {
    before := [];
    if s != [] && IsSpace(s[0]) {
      var rest := TrimStartSplits(s[1..]);
      before := [s[0]] + rest;
    }
  }

  lemma {:induction false} TrimEndSplits(s: string) returns (after: string)
    ensures AllBlank(after) && s == TrimEnd(s) + after
    decreases |s|
  {
    after := [];
    if s != [] && IsSpace(s[|s| - 1]) {
      var rest := TrimEndSplits(s[..|s| - 1]);
      after := rest + [s[|s| - 1]];
    }
  }

  lemma SpellsIsEqual(text: string, digest: string)
    requires forall c <- digest :: IsUpperHex(c)
    ensures EqualIgnoringCase(digest, text) <==> Spells(text, digest)
  {
    forall i | 0 <= i < |digest| && i < |text|
      ensures Lower(digest[i]) == Lower(text[i]) <==>
                text[i] == digest[i] || ('A' <= digest[i] <= 'F' && text[i] as int == digest[i] as int + 32)
    {
      assert digest[i] in digest;
    }
  }

  /**
   * Exactly which sidecars a digest passes against: those that spell it in either case, with
   * nothing but white space around.
   */
  lemma MatchesExactly(digest: string, sidecar: string)
    requires digest != [] && forall c <- digest :: IsUpperHex(c)
    ensures Matches(digest, sidecar) <==> SpelledBy(digest, sidecar)
  {
    SpellsIsEqual(digest, digest);
    if Matches(digest, sidecar) {
      var before := TrimStartSplits(sidecar);
      var after := TrimEndSplits(TrimStart(sidecar));
      SpellsIsEqual(Trim(sidecar), digest);
      assert sidecar == before + Trim(sidecar) + after;
    }
    forall before, text, after | sidecar == before + text + after && AllBlank(before) && AllBlank(after)
                                 && Spells(text, digest)
      ensures Matches(digest, sidecar)
    {
      TrimmedText(before, text, after, digest);
      SpellsIsEqual(text, digest);
    }
  }

  lemma TrimmedText(before: string, text: string, after: string, digest: string)
    requires digest != [] && (forall c <- digest :: IsUpperHex(c)) && Spells(text, digest)
    requires AllBlank(before) && AllBlank(after)
    ensures Trim(before + text + after) == text
  {
    assert digest[0] in digest && digest[|digest| - 1] in digest;
    assert !IsBlank(text[0]) && !IsBlank(text[|text| - 1]);
    assert before + text + after == before + (text + after);
    hide IsBlank;
    TrimStartSkips(before, text + after);
    TrimEndSkips(text, after);
  }

  // ------------------------------------------------------------- one call, under the lock

  datatype Failure = BuildFailed | NoSidecar | SidecarMismatch | OutputExists | SidecarExists | IoFailed

  /** Where a write fails, if it does; both files are written to a temporary and linked in place without replacing. */
  datatype Faults = Faults(publish: bool, digest: bool, sidecar: bool)

  class Directory {
    var outputs: map<string, Bytes>
    var sidecars: map<string, string>

    constructor ()
      ensures outputs == map[] && sidecars == map[]
    {
      outputs, sidecars := map[], map[];
    }

    /** `publish_noclobber` */
    method PublishOutput(key: string, staged: Bytes, fails: bool) returns (r: Result<(), Failure>)
      modifies this`outputs
      ensures r.Ok? <==> !fails && key !in old(outputs)
      ensures outputs == if r.Ok? then old(outputs)[key := staged] else old(outputs)
    {
      if fails {
        return Err(IoFailed);
      }
      if key in outputs {
        return Err(OutputExists);
      }
      outputs := outputs[key := staged];
      return Ok(());
    }

    /** `write_checksum_noclobber` */
    method PublishSidecar(key: string, digest: string, fails: bool) returns (r: Result<(), Failure>)
      modifies this`sidecars
      ensures r.Ok? <==> !fails && key !in old(sidecars)
      ensures sidecars == if r.Ok? then old(sidecars)[key := digest] else old(sidecars)
    {
      if fails {
        return Err(IoFailed);
      }
      if key in sidecars {
        return Err(SidecarExists);
      }
      sidecars := sidecars[key := digest];
      return Ok(());
    }

    /**
     * `build_or_reuse` once the plan's key is known; `built` is what the pipeline validated, if it succeeded.
     * A returned path always has a matching sidecar, and nothing already present is replaced.
     */
    method BuildOrReuse(key: string, built: Option<Bytes>, faults: Faults) returns (r: Result<string, Failure>)
      modifies this
      ensures r.Ok? ==> r.value == key && key in outputs && key in sidecars && Matches(Sum(outputs[key]), sidecars[key])
      ensures forall k :: k in old(outputs) ==> k in outputs && outputs[k] == old(outputs)[k]
      ensures forall k :: k in old(sidecars) ==> k in sidecars && sidecars[k] == old(sidecars)[k]
      ensures key in old(outputs) ==>
                && outputs == old(outputs) && sidecars == old(sidecars)
                && (r.Ok? <==> !faults.digest && key in sidecars && Matches(Sum(outputs[key]), sidecars[key]))
      ensures key !in old(outputs) ==>
                && outputs == (if built.Some? && !faults.publish then old(outputs)[key := built.value]
                               else old(outputs))
                && (r.Ok? <==> built.Some? && faults == Faults(false, false, false) && key !in old(sidecars))
                && sidecars == (if r.Ok? then old(sidecars)[key := Sum(built.value)] else old(sidecars))
    {
      hide Hex.Encode, Sha256Spec.Digest, Trim;
      if key in outputs {
        if key !in sidecars {
          return Err(NoSidecar);
        }
        if faults.digest {
          return Err(IoFailed);
        }
        if !Matches(Sum(outputs[key]), sidecars[key]) {
          return Err(SidecarMismatch);
        }
        return Ok(key);
      }
      if built.None? {
        return Err(BuildFailed);
      }
      var _ :- PublishOutput(key, built.value, faults.publish);
      if faults.digest {
        return Err(IoFailed);
      }
      var digest := Sum(outputs[key]);
      var _ :- PublishSidecar(key, digest, faults.sidecar);
      MatchesIsEquality(Sha256Spec.Digest(outputs[key]), Sha256Spec.Digest(outputs[key]));
      return Ok(key);
    }
  }

  // ------------------------------------------------------------- processes that interleave and crash

  /** How far one process is through `build_or_reuse`. */
  datatype Job =
    | Out
    | Held(key: string)                   // lock taken, key computed
    | Built(key: string, content: Bytes)  // pipeline finished and validated
    | Published(key: string)              // output in place
    | Digested(key: string, digest: string)

  /**
   * `validated` and `returned` record what pipelines validated and what calls returned (the
   * file, if it was still there); `tainted` the keys whose sidecar was damaged or lost, or
   * whose output was damaged or lost while it had no sidecar.
   */
  datatype World = World(
    lock: Option<nat>, jobs: map<nat, Job>, outputs: map<string, Bytes>, sidecars: map<string, string>,
    validated: set<(string, Bytes)>, returned: seq<(string, Option<Bytes>)>, tainted: set<string>)

  datatype Step =
    | Acquire(process: nat, key: string)
    | Hit(process: nat)
    | Build(process: nat, built: Option<Bytes>)
    | Publish(process: nat, fails: bool)
    | Digest(process: nat, fails: bool)
    | Finish(process: nat, fails: bool)
    | Crash(process: nat)
    | Damage(key: string, output: Option<Bytes>, sidecar: Option<string>)  // the files of a key rot or vanish

  function At<T>(files: map<string, T>, key: string): Option<T> { if key in files then Some(files[key]) else None }

  function Put<T>(files: map<string, T>, key: string, file: Option<T>): map<string, T>
  {
    if file.Some? then files[key := file.value] else files - {key}
  }

  function JobOf(w: World, process: nat): Job { if process in w.jobs then w.jobs[process] else Out }

  function Init(): World { World(None, map[], map[], map[], {}, [], {}) }

  /** The call ends and the open lock file is dropped. */
  function Leave(w: World, process: nat): World
  {
    w.(lock := None, jobs := w.jobs[process := Out])
  }

  /** The sidecar is changed, or the output while it has none. */
  predicate Taints(w: World, key: string, output: Option<Bytes>, sidecar: Option<string>)
  {
    At(w.sidecars, key) != sidecar || (sidecar.None? && At(w.outputs, key) != output)
  }

  function Next(w: World, step: Step): Option<World>
  {
    match step
    case Acquire(p, key) =>
      if w.lock.Some? || !JobOf(w, p).Out? then None
      else Some(w.(lock := Some(p), jobs := w.jobs[p := Held(key)]))
    case Hit(p) =>
      var job := JobOf(w, p);
      if !job.Held? || job.key !in w.outputs then None
      else if job.key in w.sidecars && Matches(Sum(w.outputs[job.key]), w.sidecars[job.key]) then
        Some(Leave(w, p).(returned := w.returned + [(job.key, At(w.outputs, job.key))]))
      else Some(Leave(w, p))
    case Build(p, built) =>
      var job := JobOf(w, p);
      if !job.Held? || job.key in w.outputs then None
      else if built.None? then Some(Leave(w, p))
      else
        Some(w.(jobs := w.jobs[p := Built(job.key, built.value)],
                validated := w.validated + {(job.key, built.value)}))
    case Publish(p, fails) =>
      var job := JobOf(w, p);
      if !job.Built? then None
      else if fails || job.key in w.outputs then Some(Leave(w, p))
      else Some(w.(outputs := w.outputs[job.key := job.content], jobs := w.jobs[p := Published(job.key)]))
    case Digest(p, fails) =>
      var job := JobOf(w, p);
      if !job.Published? then None
      else if fails || job.key !in w.outputs then Some(Leave(w, p))
      else Some(w.(jobs := w.jobs[p := Digested(job.key, Sum(w.outputs[job.key]))]))
    case Finish(p, fails) =>
      var job := JobOf(w, p);
      if !job.Digested? then None
      else if fails || job.key in w.sidecars then Some(Leave(w, p))
      else
        Some(Leave(w, p).(sidecars := w.sidecars[job.key := job.digest],
                          returned := w.returned + [(job.key, At(w.outputs, job.key))]))
    case Crash(p) =>
      Some(if w.lock == Some(p) then Leave(w, p) else w.(jobs := w.jobs[p := Out]))
    case Damage(key, output, sidecar) =>
      Some(w.(outputs := Put(w.outputs, key, output), sidecars := Put(w.sidecars, key, sidecar),
              tainted := if Taints(w, key, output, sidecar) then w.tainted + {key} else w.tainted))
  }

  function Run(w: World, steps: seq<Step>): Option<World>
    decreases |steps|
  {
    if steps == [] then Some(w)
    else
      var w' := Next(w, steps[0]);
      if w'.None? then None else Run(w'.value, steps[1..])
  }

  // ------------------------------------------------------------- safety

  ghost predicate Exclusive(w: World)
  {
    forall p :: p in w.jobs && !w.jobs[p].Out? ==> w.lock == Some(p)
  }

  /** Some pipeline validated, for this key, a build with this digest. */
  ghost predicate Vouched(w: World, key: string, digest: string)
  {
    exists content :: (key, content) in w.validated && Sum(content) == digest
  }

  /** No sidecar yet, and nothing of the key was damaged that matters. */
  predicate Uncertified(w: World, key: string) { key !in w.sidecars && key !in w.tainted }

  ghost predicate JobSound(w: World, job: Job)
  {
    match job
    case Out => true
    case Held(_) => true
    case Built(key, content) => (key, content) in w.validated
    case Published(key) => Uncertified(w, key) ==> key in w.outputs && (key, w.outputs[key]) in w.validated
    case Digested(key, digest) =>
      Uncertified(w, key) ==>
        key in w.outputs && (key, w.outputs[key]) in w.validated && digest == Sum(w.outputs[key])
  }

  ghost predicate Safe(w: World)
  {
    JobsSound(w) && FilesSound(w) && ReturnsSound(w)
  }

  lemma VouchedStays(w: World, w': World)
    requires w.validated <= w'.validated
    ensures forall key, digest :: Vouched(w, key, digest) ==> Vouched(w', key, digest)
  {
    hide Sum;
    forall key, digest | Vouched(w, key, digest) ensures Vouched(w', key, digest) {
      var content :| (key, content) in w.validated && Sum(content) == digest;
      assert (key, content) in w'.validated;
    }
  }

  lemma VouchedMatch(w: World, key: string, sidecar: string, content: Bytes)
    requires Vouched(w, key, sidecar) && Matches(Sum(content), sidecar)
    ensures Sum(content) == sidecar
  {
    var v :| (key, v) in w.validated && Sum(v) == sidecar;
    MatchesIsEquality(Sha256Spec.Digest(content), Sha256Spec.Digest(v));
  }

  /** The clauses of `Safe` that concern the jobs. */
  ghost predicate JobsSound(w: World)
  {
    Exclusive(w) && forall p :: p in w.jobs ==> JobSound(w, w.jobs[p])
  }

  ghost predicate FilesSound(w: World)
  {
    && (forall key :: key in w.sidecars && key !in w.tainted ==> Vouched(w, key, w.sidecars[key]))
    && (forall key :: key in w.outputs && Uncertified(w, key) ==> (key, w.outputs[key]) in w.validated)
  }

  ghost predicate ReturnsSound(w: World)
  {
    forall i :: 0 <= i < |w.returned| && w.returned[i].0 !in w.tainted ==>
      && w.returned[i].0 in w.sidecars && w.returned[i].1.Some?
      && w.sidecars[w.returned[i].0] == Sum(w.returned[i].1.value)
  }

  lemma JobsStep(w: World, step: Step)
    requires JobsSound(w) && FilesSound(w) && Next(w, step).Some?
    ensures JobsSound(Next(w, step).value)
  {
    hide Sum, Matches, Vouched;
  }

  lemma FilesStep(w: World, step: Step)
    requires JobsSound(w) && FilesSound(w) && Next(w, step).Some?
    ensures FilesSound(Next(w, step).value)
  {
    hide Sum, Matches, Exclusive;
    var w' := Next(w, step).value;
    VouchedStays(w, w');
    if step.Finish? {
      var job := JobOf(w, step.process);
      assert Uncertified(w, job.key) ==> Vouched(w', job.key, Sum(w.outputs[job.key]));
    }
    hide Vouched;
  }

  lemma ReturnsStep(w: World, step: Step)
    requires JobsSound(w) && FilesSound(w) && ReturnsSound(w) && Next(w, step).Some?
    ensures ReturnsSound(Next(w, step).value)
  {
    hide Sum, Matches, Exclusive, Vouched;
    if step.Hit? {
      var key := JobOf(w, step.process).key;
      if key in w.sidecars && key !in w.tainted && key in w.outputs && Matches(Sum(w.outputs[key]), w.sidecars[key]) {
        VouchedMatch(w, key, w.sidecars[key], w.outputs[key]);
      }
    }
  }

  lemma SafeStep(w: World, step: Step)
    requires Safe(w) && Next(w, step).Some?
    ensures Safe(Next(w, step).value)
  {
    hide JobsSound, FilesSound, ReturnsSound, Next;
    JobsStep(w, step);
    FilesStep(w, step);
    ReturnsStep(w, step);
  }

  lemma {:induction false} SafeRun(w: World, steps: seq<Step>)
    requires Safe(w) && Run(w, steps).Some?
    ensures Safe(Run(w, steps).value)
    decreases |steps|
  {
    hide Safe, Next;
    if steps != [] {
      SafeStep(w, steps[0]);
      SafeRun(Next(w, steps[0]).value, steps[1..]);
    }
  }

  /**
   * Over every interleaving of any number of processes with crashes and with files that rot
   * or vanish: only the lock holder is inside; and whatever a call returned was a file with
   * the digest in its sidecar, which is the digest of a build validated for that very key,
   * unless the sidecar was damaged or lost, or the output while it had no sidecar.
   */
  lemma ReturnedBuildsAreValidated(steps: seq<Step>)
    requires Run(Init(), steps).Some?
    ensures var w := Run(Init(), steps).value;
            && Exclusive(w)
            && (forall i :: 0 <= i < |w.returned| && w.returned[i].0 !in w.tainted ==>
                  && w.returned[i].0 in w.sidecars && w.returned[i].1.Some?
                  && w.sidecars[w.returned[i].0] == Sum(w.returned[i].1.value)
                  && Vouched(w, w.returned[i].0, Sum(w.returned[i].1.value)))
  {
    hide Sum, Run;
    SafeRun(Init(), steps);
  }

  lemma {:induction false} EncodeInjective(a: Bytes, b: Bytes)
    requires |a| == |b| && Hex.Encode(a) == Hex.Encode(b)
    ensures a == b
    decreases |a|
  {
    if a != [] {
      var x, y := Hex.Encode(a), Hex.Encode(b);
      assert x[0] == Hex.UPPER[a[0] / 16] && x[1] == Hex.UPPER[a[0] % 16];
      assert y[0] == Hex.UPPER[b[0] / 16] && y[1] == Hex.UPPER[b[0] % 16];
      DigitInjective(a[0] / 16, b[0] / 16);
      DigitInjective(a[0] % 16, b[0] % 16);
      assert x[2..] == Hex.Encode(a[1..]) && y[2..] == Hex.Encode(b[1..]);
      EncodeInjective(a[1..], b[1..]);
      assert a == [a[0]] + a[1..] && b == [b[0]] + b[1..];
    }
  }

  lemma DigitInjective(d: nat, e: nat)
    requires d < 16 && e < 16 && Hex.UPPER[d] == Hex.UPPER[e]
    ensures d == e
  {
  }

  /**
   * Where no build validated for the key shares its SHA-256 digest with other bytes that were
   * returned, the returned bytes of an undamaged key are a build validated for it.
   */
  lemma ReturnedBytesAreValidated(steps: seq<Step>, i: nat)
    requires Run(Init(), steps).Some? && i < |Run(Init(), steps).value.returned|
    requires var w := Run(Init(), steps).value; w.returned[i].0 !in w.tainted && w.returned[i].1.Some?
    requires var w := Run(Init(), steps).value;
             forall content :: (w.returned[i].0, content) in w.validated
                               && Sha256Spec.Digest(content) == Sha256Spec.Digest(w.returned[i].1.value) ==>
               content == w.returned[i].1.value
    ensures var w := Run(Init(), steps).value; (w.returned[i].0, w.returned[i].1.value) in w.validated
  {
    hide Run, Sha256Spec.Digest, Hex.Encode;
    ReturnedBuildsAreValidated(steps);
    var w := Run(Init(), steps).value;
    var key, bytes := w.returned[i].0, w.returned[i].1.value;
    var content :| (key, content) in w.validated && Sum(content) == Sum(bytes);
    EncodeInjective(Sha256Spec.Digest(content), Sha256Spec.Digest(bytes));
  }

  const ROTTEN := [Acquire(0, "k"), Build(0, Some([1])), Publish(0, false), Damage("k", Some([2]), None),
                   Digest(0, false), Finish(0, false)]

  /** The exception is real: the code digests what it reads back, so it certifies what rotted before that. */
  lemma EarlyDamageIsCertified()
    ensures Run(Init(), ROTTEN).Some?
    ensures var w := Run(Init(), ROTTEN).value;
            && w.returned == [("k", Some([2]))] && w.tainted == {"k"} && ("k", [2]) !in w.validated
            && "k" in w.sidecars && w.sidecars["k"] == Sum([2])
  {
    hide Sum, Matches;
    var w := Init();
    var w1 := Next(w, ROTTEN[0]).value;
    var w2 := Next(w1, ROTTEN[1]).value;
    var w3 := Next(w2, ROTTEN[2]).value;
    var w4 := Next(w3, ROTTEN[3]).value;
    var w5 := Next(w4, ROTTEN[4]).value;
    var w6 := Next(w5, ROTTEN[5]).value;
    assert Run(w6, ROTTEN[6..]) == Some(w6);
    assert ROTTEN[5..][1..] == ROTTEN[6..] && Run(w5, ROTTEN[5..]) == Some(w6);
    assert ROTTEN[4..][1..] == ROTTEN[5..] && Run(w4, ROTTEN[4..]) == Some(w6);
    assert ROTTEN[3..][1..] == ROTTEN[4..] && Run(w3, ROTTEN[3..]) == Some(w6);
    assert ROTTEN[2..][1..] == ROTTEN[3..] && Run(w2, ROTTEN[2..]) == Some(w6);
    assert ROTTEN[1..][1..] == ROTTEN[2..] && Run(w1, ROTTEN[1..]) == Some(w6);
  }

  // ------------------------------------------------------------- without damage

  ghost predicate Undamaged(steps: seq<Step>) { forall step <- steps :: !step.Damage? }

  ghost predicate Grows(w: World, w': World)
  {
    && (forall key :: key in w.outputs ==> key in w'.outputs && w'.outputs[key] == w.outputs[key])
    && (forall key :: key in w.sidecars ==> key in w'.sidecars && w'.sidecars[key] == w.sidecars[key])
  }

  lemma GrowsStep(w: World, step: Step)
    requires Next(w, step).Some? && !step.Damage?
    ensures Grows(w, Next(w, step).value)
  {
    hide Sum, Matches;
  }

  /** No process ever replaces or removes a published output or sidecar. */
  lemma {:induction false} OutputsNeverChange(w: World, steps: seq<Step>)
    requires Run(w, steps).Some? && Undamaged(steps)
    ensures Grows(w, Run(w, steps).value)
    decreases |steps|
  {
    hide Next;
    if steps != [] {
      GrowsStep(w, steps[0]);
      OutputsNeverChange(Next(w, steps[0]).value, steps[1..]);
    }
  }

  ghost predicate Genuine(w: World)
  {
    && (forall key :: key in w.outputs ==> (key, w.outputs[key]) in w.validated)
    && (forall key :: key in w.sidecars ==> key in w.outputs)
    && (forall p :: p in w.jobs && (w.jobs[p].Published? || w.jobs[p].Digested?) ==> w.jobs[p].key in w.outputs)
    && (forall i :: 0 <= i < |w.returned| ==>
          w.returned[i].1.Some? && (w.returned[i].0, w.returned[i].1.value) in w.validated)
  }

  /** Without damage, what a call returns is itself a build validated for the key, and no sidecar lacks its output. */
  lemma {:induction false} ReturnedIsGenuine(w: World, steps: seq<Step>)
    requires Safe(w) && Genuine(w) && Run(w, steps).Some? && Undamaged(steps)
    ensures Genuine(Run(w, steps).value)
    decreases |steps|
  {
    hide Sum, Matches, Safe;
    if steps != [] {
      SafeStep(w, steps[0]);
      GenuineStep(w, steps[0]);
      ReturnedIsGenuine(Next(w, steps[0]).value, steps[1..]);
    }
  }

  lemma GenuineStep(w: World, step: Step)
    requires Safe(w) && Genuine(w) && Next(w, step).Some? && !step.Damage?
    ensures Genuine(Next(w, step).value)
  {
    hide Sum, Matches, Vouched;
  }

  // ------------------------------------------------------------- calls go through

  lemma RunStep(w: World, steps: seq<Step>)
    requires steps != [] && Next(w, steps[0]).Some?
    ensures Run(w, steps) == Run(Next(w, steps[0]).value, steps[1..])
  {
  }

  lemma NoSteps(w: World, steps: seq<Step>)
    requires steps == []
    ensures Run(w, steps) == Some(w)
  {
  }

  /** With the lock free and neither file there, a call whose build validates publishes and returns it. */
  lemma FreshBuildIsReturned(w: World, p: nat, key: string, content: Bytes)
    requires w.lock.None? && JobOf(w, p).Out? && key !in w.outputs && key !in w.sidecars
    ensures Run(w, [Acquire(p, key), Build(p, Some(content)), Publish(p, false), Digest(p, false), Finish(p, false)])
            == Some(w.(lock := None, jobs := w.jobs[p := Out], outputs := w.outputs[key := content],
                       sidecars := w.sidecars[key := Sum(content)], validated := w.validated + {(key, content)},
                       returned := w.returned + [(key, Some(content))]))
  {
    hide Sum, Matches, Run;
    var steps := [Acquire(p, key), Build(p, Some(content)), Publish(p, false), Digest(p, false), Finish(p, false)];
    var w1 := Next(w, steps[0]).value;
    var w2 := Next(w1, steps[1]).value;
    var w3 := Next(w2, steps[2]).value;
    var w4 := Next(w3, steps[3]).value;
    var w5 := Next(w4, steps[4]).value;
    assert w5.jobs == w.jobs[p := Out];
    hide Next;
    RunStep(w, steps);
    RunStep(w1, steps[1..]);
    RunStep(w2, steps[2..]);
    RunStep(w3, steps[3..]);
    RunStep(w4, steps[4..]);
    NoSteps(w5, steps[5..]);
  }

  /**
   * With the lock free and the output there, a call returns it exactly when the sidecar spells
   * its SHA-256 digest, in either case and with white space around; it changes no file.
   */
  lemma CachedBuildIsReturned(w: World, p: nat, key: string)
    requires w.lock.None? && JobOf(w, p).Out? && key in w.outputs
    ensures var spelled := key in w.sidecars && SpelledBy(Sum(w.outputs[key]), w.sidecars[key]);
            Run(w, [Acquire(p, key), Hit(p)])
            == Some(w.(lock := None, jobs := w.jobs[p := Out],
                       returned := if spelled then w.returned + [(key, Some(w.outputs[key]))] else w.returned))
  {
    if key in w.sidecars {
      SumIsHex(Sha256Spec.Digest(w.outputs[key]));
      SumIsNotEmpty(w.outputs[key]);
      MatchesExactly(Sum(w.outputs[key]), w.sidecars[key]);
    }
    hide Sum, Matches, Run, SpelledBy;
    HitRuns(w, p, key);
  }

  lemma HitRuns(w: World, p: nat, key: string)
    requires w.lock.None? && JobOf(w, p).Out? && key in w.outputs
    ensures Run(w, [Acquire(p, key), Hit(p)])
            == Some(w.(lock := None, jobs := w.jobs[p := Out],
                       returned := if key in w.sidecars && Matches(Sum(w.outputs[key]), w.sidecars[key])
                                   then w.returned + [(key, Some(w.outputs[key]))] else w.returned))
  {
    hide Sum, Matches, Run;
    var steps := [Acquire(p, key), Hit(p)];
    var w1 := Next(w, steps[0]).value;
    var w2 := Next(w1, steps[1]).value;
    assert w2.jobs == w.jobs[p := Out];
    hide Next;
    RunStep(w, steps);
    RunStep(w1, steps[1..]);
    NoSteps(w2, steps[2..]);
  }

  lemma SumIsNotEmpty(content: Bytes)
    ensures Sum(content) != []
  {
    hide Sha256Spec.Digest;
  }

  // ------------------------------------------------------------- a crash between the two files

  /** An output whose sidecar was never written, and whose builder is gone. */
  ghost predicate Orphaned(w: World, key: string)
  {
    && key in w.outputs && key !in w.sidecars
    && forall p :: p in w.jobs ==> !(w.jobs[p].Published? && w.jobs[p].key == key)
                                   && !(w.jobs[p].Digested? && w.jobs[p].key == key)
  }

  /** The step leaves the key's output in place, though perhaps rotten, and brings no sidecar from outside. */
  predicate Spares(step: Step, key: string)
  {
    step.Damage? && step.key == key ==> step.output.Some? && step.sidecar.None?
  }

  lemma OrphanStep(w: World, step: Step, key: string)
    requires Orphaned(w, key) && Spares(step, key) && Next(w, step).Some?
    ensures var w' := Next(w, step).value;
            && Orphaned(w', key)
            && (w'.returned == w.returned || (w'.returned == w.returned + [w'.returned[|w'.returned| - 1]]
                                              && w'.returned[|w'.returned| - 1].0 != key))
  {
    hide Sum, Matches;
  }

  ghost predicate NeverReturned(w: World, key: string)
  {
    forall i :: 0 <= i < |w.returned| ==> w.returned[i].0 != key
  }

  /**
   * A crash between output and sidecar leaves an output that no later call ever
   * returns, rebuilds or certifies: the key stays refused until the output is removed or a
   * sidecar is put beside it from outside.
   */
  lemma {:induction false} OrphanIsRefusedForever(w: World, key: string, steps: seq<Step>)
    requires Orphaned(w, key) && NeverReturned(w, key) && Run(w, steps).Some?
    requires forall step <- steps :: Spares(step, key)
    ensures Orphaned(Run(w, steps).value, key) && NeverReturned(Run(w, steps).value, key)
    decreases |steps|
  {
    hide Orphaned, Next;
    if steps != [] {
      OrphanStep(w, steps[0], key);
      OrphanIsRefusedForever(Next(w, steps[0]).value, key, steps[1..]);
    }
  }

  lemma UncertifiedIsUnreturned(w: World, key: string)
    requires Safe(w) && Uncertified(w, key)
    ensures NeverReturned(w, key)
  {
    hide Sum, Vouched, JobSound;
  }

  lemma BuilderIsAlone(w: World, process: nat)
    requires Safe(w) && !JobOf(w, process).Out?
    ensures w.lock == Some(process) && JobSound(w, JobOf(w, process))
    ensures forall p :: p in w.jobs && p != process ==> w.jobs[p].Out?
  {
    hide Sum, Vouched, JobSound;
  }

  lemma CrashLeaves(w: World, process: nat)
    requires w.lock == Some(process)
    ensures Next(w, Crash(process)) == Some(Leave(w, process))
  {
  }

  /** Such a crash does orphan the key. */
  lemma CrashBetweenFilesOrphans(w: World, process: nat, key: string)
    requires Safe(w) && Uncertified(w, key)
    requires JobOf(w, process) == Published(key) || (JobOf(w, process).Digested? && JobOf(w, process).key == key)
    ensures Next(w, Crash(process)).Some? && Orphaned(Next(w, Crash(process)).value, key) && NeverReturned(w, key)
  {
    hide Sum, Safe, NeverReturned, Vouched, Next, Orphaned, Leave;
    BuilderIsAlone(w, process);
    CrashLeaves(w, process);
    UncertifiedIsUnreturned(w, key);
    LeavingOrphans(w, process, key);
  }

  lemma LeavingOrphans(w: World, process: nat, key: string)
    requires key in w.outputs && key !in w.sidecars
    requires forall p :: p in w.jobs && p != process ==> w.jobs[p].Out?
    ensures Orphaned(Leave(w, process), key)
  {
  }

  // ------------------------------------------------------------- the key's pre-image

  datatype Package = Package(outerSha256: string)

  datatype Artifacts = Artifacts(
    patchCommit: string, patchVersion: string, serverVersion: string, serverSha256: string, serverAbi: nat,
    signerFingerprint: string)

  /** The arguments of `PatchPlan::create`; `memorialId` is the manifest's own application id. */
  datatype PlanInput = PlanInput(
    package: Package, artifacts: Artifacts, failClosed: bool, memorialId: string, requestedId: Option<string>)
  {
    function ApplicationId(): string { if requestedId.Some? then requestedId.value else memorialId }

    /** The texts `create` does not check hold no NUL. */
    predicate NulFreeTexts()
    {
      && NulFree(package.outerSha256) && NulFree(artifacts.patchVersion) && NulFree(artifacts.serverVersion)
      && NulFree(artifacts.serverSha256) && NulFree(artifacts.signerFingerprint) && NulFree(ApplicationId())
    }
  }

  datatype PlanError = NotFailClosed | UnpinnedPatch | UnsupportedServerAbi(abi: nat) | InvalidApplicationId

  const NUL: char := 0 as char

  function Join(fields: seq<string>): string
    requires fields != []
  {
    if |fields| == 1 then fields[0] else fields[0] + [NUL] + Join(fields[1..])
  }

  function Fields(package: Package, a: Artifacts, applicationId: string): (r: seq<string>)
    ensures |r| == 8
  {
    [package.outerSha256, a.patchCommit, a.patchVersion, a.serverVersion, a.serverSha256, Tokens.Decimal(a.serverAbi),
     applicationId, a.signerFingerprint]
  }

  /** The checks of `PatchPlan::create`, then the tuple it hashes. */
  function PlanTuple(input: PlanInput): Result<string, PlanError>
  {
    var a := input.artifacts;
    if !input.failClosed then Err(NotFailClosed)
    else if |a.patchCommit| != 40 || exists c <- a.patchCommit :: !Tokens.IsHex(c) then Err(UnpinnedPatch)
    else if a.serverAbi != 1 then Err(UnsupportedServerAbi(a.serverAbi))
    else if input.ApplicationId() != input.memorialId && !(input.memorialId + "." <= input.ApplicationId()) then
      Err(InvalidApplicationId)
    else Ok(Join(Fields(input.package, a, input.ApplicationId())))
  }

  predicate NulFree(s: string) { NUL !in s }

  lemma SplitAtNul(a: string, b: string, s: string, t: string)
    requires NulFree(a) && NulFree(b) && a + [NUL] + s == b + [NUL] + t
    ensures a == b && s == t
  {
    var left, right := a + [NUL] + s, b + [NUL] + t;
    assert left[|a|] == NUL && right[|b|] == NUL;
    forall i | 0 <= i < |a| ensures left[i] != NUL {
      assert a[i] in a;
    }
    forall i | 0 <= i < |b| ensures right[i] != NUL {
      assert b[i] in b;
    }
    assert a == left[..|a|] && b == right[..|a|];
    assert s == left[|a| + 1..] && t == right[|a| + 1..];
  }

  /** NUL-separated fields without NULs can be read back. */
  lemma {:induction false} JoinInjective(a: seq<string>, b: seq<string>)
    requires |a| == |b| > 0 && Join(a) == Join(b)
    requires forall i :: 0 <= i < |a| ==> NulFree(a[i]) && NulFree(b[i])
    ensures a == b
    decreases |a|
  {
    if |a| > 1 {
      SplitAtNul(a[0], b[0], Join(a[1..]), Join(b[1..]));
      JoinInjective(a[1..], b[1..]);
      assert a == [a[0]] + a[1..] && b == [b[0]] + b[1..];
    }
  }

  lemma DecimalInjective(m: nat, n: nat)
    requires Tokens.Decimal(m) == Tokens.Decimal(n)
    ensures m == n
  {
    Tokens.DecimalParses(m);
    Tokens.DecimalParses(n);
  }

  lemma DecimalNulFree(n: nat)
    ensures NulFree(Tokens.Decimal(n))
  {
    assert !Tokens.IsDigit(NUL);
  }

  ghost predicate NulFreeFields(fields: seq<string>) { forall i :: 0 <= i < |fields| ==> NulFree(fields[i]) }

  /** All eight fields agree. */
  predicate SamePlan(i: PlanInput, j: PlanInput)
  {
    i.package == j.package && i.artifacts == j.artifacts && i.ApplicationId() == j.ApplicationId()
  }

  /** `create` refuses a commit with a NUL. */
  lemma PlannedFieldsAreNulFree(i: PlanInput)
    requires PlanTuple(i).Ok? && i.NulFreeTexts()
    ensures NulFreeFields(Fields(i.package, i.artifacts, i.ApplicationId()))
  {
    DecimalNulFree(i.artifacts.serverAbi);
    assert !Tokens.IsHex(NUL);
  }

  /**
   * Two plans `create` accepts share a pre-image exactly when all eight fields agree; its
   * checks on the commit and the ABI leave six texts that must hold no NUL.
   */
  lemma PlanTupleInjective(i: PlanInput, j: PlanInput)
    requires PlanTuple(i).Ok? && PlanTuple(j).Ok? && i.NulFreeTexts() && j.NulFreeTexts()
    ensures PlanTuple(i) == PlanTuple(j) <==> SamePlan(i, j)
  {
    var f := Fields(i.package, i.artifacts, i.ApplicationId());
    var g := Fields(j.package, j.artifacts, j.ApplicationId());
    PlannedFieldsAreNulFree(i);
    PlannedFieldsAreNulFree(j);
    if PlanTuple(i) == PlanTuple(j) {
      JoinInjective(f, g);
      assert f[0] == g[0] && f[1] == g[1] && f[2] == g[2] && f[3] == g[3] && f[4] == g[4] && f[6] == g[6]
             && f[7] == g[7];
    }
  }

  /** Exactly what `create` accepts, and otherwise the first error. */
  lemma PlannedExactly(i: PlanInput)
    ensures var a, id := i.artifacts, if i.requestedId.Some? then i.requestedId.value else i.memorialId;
            var pinned := |a.patchCommit| == 40 && forall j :: 0 <= j < 40 ==>
                            '0' <= a.patchCommit[j] <= '9' || 'a' <= a.patchCommit[j] <= 'f'
                            || 'A' <= a.patchCommit[j] <= 'F';
            if !i.failClosed then PlanTuple(i) == Err(NotFailClosed)
            else if !pinned then PlanTuple(i) == Err(UnpinnedPatch)
            else if a.serverAbi != 1 then PlanTuple(i) == Err(UnsupportedServerAbi(a.serverAbi))
            else if id == i.memorialId || (exists rest :: id == i.memorialId + "." + rest) then PlanTuple(i).Ok?
            else PlanTuple(i) == Err(InvalidApplicationId)
  {
    var id, prefix := i.ApplicationId(), i.memorialId + ".";
    if prefix <= id {
      assert id == i.memorialId + "." + id[|prefix|..];
    }
    assert forall j :: 0 <= j < |i.artifacts.patchCommit| ==> i.artifacts.patchCommit[j] in i.artifacts.patchCommit;
    hide Join, Fields;
  }

  /** The pre-image of an accepted plan: its fields in this order, with NULs between. */
  lemma PreimageExactly(i: PlanInput)
    requires PlanTuple(i).Ok?
    ensures var a, nul := i.artifacts, [0 as char];
            var id := if i.requestedId.Some? then i.requestedId.value else i.memorialId;
            PlanTuple(i).value == i.package.outerSha256 + (nul + (a.patchCommit + (nul + (a.patchVersion + (nul
              + (a.serverVersion + (nul + (a.serverSha256 + (nul + ("1" + (nul + (id + (nul
              + a.signerFingerprint)))))))))))))
  {
    var f := Fields(i.package, i.artifacts, i.ApplicationId());
    assert Tokens.Decimal(1) == "1";
    hide Fields;
    JoinOne(f[7..]);
    JoinMore(f[6..]);
    JoinMore(f[5..]);
    JoinMore(f[4..]);
    JoinMore(f[3..]);
    JoinMore(f[2..]);
    JoinMore(f[1..]);
    JoinMore(f);
    hide Join;
  }

  lemma JoinOne(fields: seq<string>)
    requires |fields| == 1
    ensures Join(fields) == fields[0]
  {
  }

  lemma JoinMore(fields: seq<string>)
    requires |fields| > 1
    ensures Join(fields) == fields[0] + ([0 as char] + Join(fields[1..]))
  {
    assert fields[0] + [NUL] + Join(fields[1..]) == fields[0] + ([0 as char] + Join(fields[1..]));
  }

  /** The tuple hashed into the file name: plan key, deployment fingerprint, base revision. */
  function CacheTuple(planKey: string, fingerprint: string, revision: nat): string
  {
    Join([planKey, fingerprint, Tokens.Decimal(revision)])
  }

  /** Where the hash does not collide, one cache file serves one accepted plan under one deployment identity. */
  lemma CacheKeyIsIdentity(
    hash: string -> string, i: PlanInput, fp: string, r: nat, j: PlanInput, fq: string, t: nat)
    requires PlanTuple(i).Ok? && PlanTuple(j).Ok? && i.NulFreeTexts() && j.NulFreeTexts()
    requires NulFree(fp) && NulFree(fq) && forall s: string :: NulFree(hash(s))
    requires hash(PlanTuple(i).value) == hash(PlanTuple(j).value) ==> PlanTuple(i) == PlanTuple(j)
    ensures CacheTuple(hash(PlanTuple(i).value), fp, r) == CacheTuple(hash(PlanTuple(j).value), fq, t)
            <==> SamePlan(i, j) && fp == fq && r == t
  {
    PlanTupleInjective(i, j);
    hide PlanTuple, SamePlan;
    var h, k := hash(PlanTuple(i).value), hash(PlanTuple(j).value);
    if CacheTuple(h, fp, r) == CacheTuple(k, fq, t) {
      DecimalNulFree(r);
      DecimalNulFree(t);
      var f, g := [h, fp, Tokens.Decimal(r)], [k, fq, Tokens.Decimal(t)];
      JoinInjective(f, g);
      assert f[0] == g[0] && f[1] == g[1] && f[2] == g[2];
      DecimalInjective(r, t);
    }
  }
}
