/** The compiler configuration shared by all threads of a process: computed on demand outside the
    lock, remembered until the next `runtime_init`. */
module CompilerConfig {
  import opened Wrappers

  type Tid = int

  /** What `runtime_init` records. */
  datatype Roots = Roots(deepgemm: string, cudaHome: string)

  /** The compiler path, and the flag string identified with what it is computed from: the compiler
      asked for its version and the include roots. */
  datatype Config = Config(nvcc: string, includeRoot: string)

  function NvccPath(cudaHome: string): string { cudaHome + "/bin/nvcc" }

  /** The configuration that belongs to given roots. */
  function ConfigFor(roots: Roots): Config { Config(NvccPath(roots.cudaHome), roots.deepgemm) }

  /** The closing critical section of `compiler_config`: install unless somebody else did. */
  function Installed(cache: Option<Config>, mine: Config): Option<Config> {
    if cache.None? then Some(mine) else cache
  }

  /** Program points of one `compiler_config` call; the stamps record how many initialisations had
      happened when each half was read. */
  datatype Phase =
    | ReadCache
    | ReadNvcc
    | ReadIncludes(nvcc: string, nvccAt: nat)
    | Store(config: Config, nvccAt: nat, includesAt: nat)
    | Returned(config: Config)
    | Threw

  /** A value handed to a caller while `epoch` initialisations had happened. */
  datatype Reading = Reading(epoch: nat, config: Config)

  datatype State = State(
    history: seq<Roots>,
    cache: Option<Config>,
    calls: map<Tid, Phase>,
    readings: seq<Reading>)

  datatype Label = Reset(roots: Roots) | Call(tid: Tid) | Step(tid: Tid) | Fail(tid: Tid)

  predicate Ended(p: Phase) { p.Returned? || p.Threw? }

  /** Between the miss and the store. */
  predicate InFlight(p: Phase) { p.ReadNvcc? || p.ReadIncludes? || p.Store? }

  function Answer(s: State, tid: Tid, config: Config): State {
    s.(calls := s.calls[tid := Returned(config)], readings := s.readings + [Reading(|s.history|, config)])
  }

  predicate Next(s: State, l: Label, s': State) {
    match l
    case Reset(roots) => s' == s.(history := s.history + [roots], cache := None)
    case Call(tid) =>
      |s.history| > 0 && (tid in s.calls ==> Ended(s.calls[tid])) && s' == s.(calls := s.calls[tid := ReadCache])
    case Fail(tid) =>
      tid in s.calls && InFlight(s.calls[tid]) && s' == s.(calls := s.calls[tid := Threw])
    case Step(tid) =>
      tid in s.calls && |s.history| > 0 &&
      var now := s.history[|s.history| - 1];
      match s.calls[tid]
      case ReadCache =>
        s' == if s.cache.Some? then Answer(s, tid, s.cache.value) else s.(calls := s.calls[tid := ReadNvcc])
      case ReadNvcc =>
        s' == s.(calls := s.calls[tid := ReadIncludes(NvccPath(now.cudaHome), |s.history|)])
      case ReadIncludes(nvcc, nvccAt) =>
        s' == s.(calls := s.calls[tid := Store(Config(nvcc, now.deepgemm), nvccAt, |s.history|)])
      case Store(config, _, _) =>
        s' == Answer(s.(cache := Installed(s.cache, config)), tid, Installed(s.cache, config).value)
      case Returned(_) => false
      case Threw => false
  }

  ghost predicate Run(states: seq<State>, labels: seq<Label>) {
    |states| == |labels| + 1 && states[0] == State([], None, map[], [])
    && forall i :: 0 <= i < |labels| ==> Next(states[i], labels[i], states[i + 1])
  }

  // The imperative code

  /** What the rest of the process may do to a call between two of its critical sections: initialise,
      install, answer others, but not touch the call itself. */
  predicate Rely(s: State, s': State, tid: Tid) {
    && tid in s.calls && tid in s'.calls && s'.calls[tid] == s.calls[tid]
    && s.history <= s'.history && s.readings <= s'.readings
  }

  /** Whatever anybody else does satisfies it. */
  lemma OthersSatisfyRely(s: State, l: Label, s': State, tid: Tid)
    requires Next(s, l, s') && tid in s.calls
    requires match l case Reset(_) => true case Call(t) => t != tid case Step(t) => t != tid case Fail(t) => t != tid
    ensures Rely(s, s', tid)
  {
  }

  /** The globals behind the runtime mutex, with the state of the machine they belong to. Each method but
      the last two is one critical section, and is checked to be a step of the machine. */
  class RuntimeGlobals {
    var roots: Roots
    var cache: Option<Config>
    ghost var s: State

    ghost predicate Valid()
      reads this
    {
      s.cache == cache && roots == if s.history == [] then Roots("", "") else s.history[|s.history| - 1]
    }

    constructor ()
      ensures Valid() && s == State([], None, map[], [])
    {
      roots, cache, s := Roots("", ""), None, State([], None, map[], []);
    }

    /** `runtime_init` after its checks: new roots invalidate the configuration. */
    method RuntimeInit(deepgemm: string, cudaHome: string) returns (ok: bool)
      requires Valid()
      modifies this
      ensures Valid() && (ok <==> deepgemm != "" && cudaHome != "")
      ensures ok ==> Next(old(s), Reset(Roots(deepgemm, cudaHome)), s) && cache == None
      ensures !ok ==> roots == old(roots) && cache == old(cache) && s == old(s)
    {
      if deepgemm == "" || cudaHome == "" {
        return false;
      }
      roots := Roots(deepgemm, cudaHome);
      cache := None;
      s := s.(history := s.history + [roots], cache := None);
      return true;
    }

    /** The opening section of `compiler_config`. */
    method ReadRemembered(tid: Tid) returns (config: Option<Config>)
      requires Valid() && s.history != [] && tid in s.calls && s.calls[tid] == ReadCache
      modifies this`s
      ensures Valid() && Next(old(s), Step(tid), s) && config == cache
      ensures tid in s.calls && s.calls[tid] == if config.Some? then Returned(config.value) else ReadNvcc
    {
      config := cache;
      s := if cache.Some? then Answer(s, tid, cache.value) else s.(calls := s.calls[tid := ReadNvcc]);
    }

    /** `nvcc_path`. */
    method ReadCompiler(tid: Tid) returns (nvcc: string, ghost at: nat)
      requires Valid() && s.history != [] && tid in s.calls && s.calls[tid] == ReadNvcc
      modifies this`s
      ensures Valid() && Next(old(s), Step(tid), s)
      ensures tid in s.calls && s.calls[tid] == ReadIncludes(nvcc, at)
    {
      nvcc := NvccPath(roots.cudaHome);
      at := |s.history|;
      s := s.(calls := s.calls[tid := ReadIncludes(nvcc, at)]);
    }

    /** The section of `compiler_flags` that reads the include roots. */
    method ReadFlags(tid: Tid, nvcc: string, ghost at: nat) returns (config: Config)
      requires Valid() && s.history != [] && tid in s.calls && s.calls[tid] == ReadIncludes(nvcc, at)
      modifies this`s
      ensures Valid() && Next(old(s), Step(tid), s)
      ensures tid in s.calls && s.calls[tid].Store? && s.calls[tid].config == config
    {
      config := Config(nvcc, roots.deepgemm);
      s := s.(calls := s.calls[tid := Store(config, at, |s.history|)]);
    }

    /** The closing section: the dereference finds a value because the section itself provides one. */
    method InstallAndRead(tid: Tid, mine: Config) returns (config: Config)
      requires Valid() && s.history != [] && tid in s.calls && s.calls[tid].Store? && s.calls[tid].config == mine
      modifies this`cache, this`s
      ensures Valid() && Next(old(s), Step(tid), s) && cache == Some(config)
      ensures tid in s.calls && s.calls[tid] == Returned(config)
      ensures old(cache).Some? ==> cache == old(cache)
      ensures s.readings == old(s.readings) + [Reading(|s.history|, config)]
    {
      if cache.None? {
        cache := Some(mine);
      }
      config := cache.value;
      s := Answer(s.(cache := cache), tid, config);
    }

    /** Others run. */
    method Interfere(tid: Tid)
      requires Valid() && s.history != [] && tid in s.calls
      modifies this
      ensures Valid() && Rely(old(s), s, tid)
    {
      var initialise: bool := *;
      if initialise {
        var latest: Roots := *;
        roots, cache := latest, None;
        s := s.(history := s.history + [latest], cache := None);
      }
    }

    /** One call of `compiler_config`. It fails only on the way to a configuration of its own; otherwise
        the machine records exactly what it hands out, in the epoch in which it reads it. */
    method CompilerConfig(tid: Tid, fail: bool) returns (config: Option<Config>)
      requires Valid() && s.history != [] && tid in s.calls && s.calls[tid] == ReadCache
      modifies this
      ensures Valid() && tid in s.calls
      ensures s.calls[tid] == if config.Some? then Returned(config.value) else Threw
      ensures config.None? ==> fail
      ensures old(cache).Some? ==> config == old(cache) && s.history == old(s.history)
      ensures config.Some? ==> config == cache && s.readings != []
                               && s.readings[|s.readings| - 1] == Reading(|s.history|, config.value)
    {
      config := ReadRemembered(tid);
      if config.Some? {
        return;
      }
      Interfere(tid);
      var nvcc, at := ReadCompiler(tid);
      Interfere(tid);
      if fail {
        ghost var before := s;
        s := s.(calls := s.calls[tid := Threw]);
        assert Next(before, Label.Fail(tid), s);
        return None;
      }
      var mine := ReadFlags(tid, nvcc, at);
      Interfere(tid);
      var installed := InstallAndRead(tid, mine);
      return Some(installed);
    }
  }

  /** Readings of one epoch agree, and those of the current epoch agree with the cache. */
  ghost predicate Agree(s: State) {
    && (forall r :: r in s.readings ==> r.epoch <= |s.history|)
    && (forall r :: r in s.readings && r.epoch == |s.history| ==> s.cache == Some(r.config))
    && (forall r, q :: r in s.readings && q in s.readings && r.epoch == q.epoch ==> r.config == q.config)
  }

  lemma AgreeInductive(s: State, l: Label, s': State)
    requires Agree(s) && Next(s, l, s')
    ensures Agree(s')
  {
    forall r | r in s'.readings ensures r in s.readings || r == s'.readings[|s'.readings| - 1] {
    }
  }

  /** In every interleaving, all calls whose returning read falls between the same two
      initialisations return one identical configuration. */
  lemma {:induction false} ReadingsAgree(states: seq<State>, labels: seq<Label>, i: nat)
    requires Run(states, labels) && i < |states|
    ensures Agree(states[i])
  {
    if i > 0 {
      ReadingsAgree(states, labels, i - 1);
      assert Next(states[i - 1], labels[i - 1], states[i - 1 + 1]);
      AgreeInductive(states[i - 1], labels[i - 1], states[i]);
    }
  }

  /** A configuration assembled from the roots of two moments of the run. */
  predicate Assembled(history: seq<Roots>, config: Config, nvccAt: nat, includesAt: nat) {
    && 0 < nvccAt <= includesAt <= |history|
    && config == Config(NvccPath(history[nvccAt - 1].cudaHome), history[includesAt - 1].deepgemm)
  }

  predicate PhaseTraced(history: seq<Roots>, p: Phase) {
    match p
    case ReadIncludes(nvcc, nvccAt) =>
      0 < nvccAt <= |history| && nvcc == NvccPath(history[nvccAt - 1].cudaHome)
    case Store(config, nvccAt, includesAt) => Assembled(history, config, nvccAt, includesAt)
    case _ => true
  }

  /** Every configuration in circulation was assembled from roots installed no later than the moment
      it was read. */
  ghost predicate Traced(s: State) {
    && (forall tid :: tid in s.calls ==> PhaseTraced(s.history, s.calls[tid]))
    && (s.cache.Some? ==> exists i, j :: Assembled(s.history, s.cache.value, i, j))
    && (forall r :: r in s.readings ==>
          r.epoch <= |s.history| && exists i, j :: Assembled(s.history[..r.epoch], r.config, i, j))
  }

  lemma CacheTraced(s: State, l: Label, s': State)
    requires Traced(s) && Next(s, l, s') && s'.cache.Some?
    ensures exists i, j :: Assembled(s'.history, s'.cache.value, i, j)
  {
    assert forall i :: 0 <= i < |s.history| ==> s'.history[i] == s.history[i];
    if s.cache.Some? {
      var i, j :| Assembled(s.history, s.cache.value, i, j);
      assert Assembled(s'.history, s.cache.value, i, j);
    } else {
      assert s.calls[l.tid].Store?;
      assert Assembled(s'.history, s'.cache.value, s.calls[l.tid].nvccAt, s.calls[l.tid].includesAt);
    }
  }

  lemma ReadingTraced(s: State, l: Label, s': State, r: Reading)
    requires Traced(s) && Next(s, l, s') && r in s'.readings
    ensures r.epoch <= |s'.history| && exists i, j :: Assembled(s'.history[..r.epoch], r.config, i, j)
  {
    if r in s.readings {
      var i, j :| Assembled(s.history[..r.epoch], r.config, i, j);
      assert s'.history[..r.epoch] == s.history[..r.epoch];
      assert Assembled(s'.history[..r.epoch], r.config, i, j);
    } else {
      assert r == s'.readings[|s'.readings| - 1] && s'.cache == Some(r.config);
      CacheTraced(s, l, s');
      var i, j :| Assembled(s'.history, r.config, i, j);
      assert s'.history[..r.epoch] == s'.history;
      assert Assembled(s'.history[..r.epoch], r.config, i, j);
    }
  }

  lemma TracedInductive(s: State, l: Label, s': State)
    requires Traced(s) && Next(s, l, s')
    ensures Traced(s')
  {
    assert forall i :: 0 <= i < |s.history| ==> s'.history[i] == s.history[i];
    if s'.cache.Some? {
      CacheTraced(s, l, s');
    }
    forall r | r in s'.readings
      ensures r.epoch <= |s'.history| && exists i, j :: Assembled(s'.history[..r.epoch], r.config, i, j)
    {
      ReadingTraced(s, l, s', r);
    }
  }

  /** In every run, even with overlapping initialisations, a configuration returned in some epoch pairs
      a compiler and include roots that were each in force at or before that epoch, the compiler's
      being the older or the same. */
  lemma {:induction false} ReadingsTraced(states: seq<State>, labels: seq<Label>, i: nat)
    requires Run(states, labels) && i < |states|
    ensures Traced(states[i])
  {
    if i > 0 {
      ReadingsTraced(states, labels, i - 1);
      assert Next(states[i - 1], labels[i - 1], states[i - 1 + 1]);
      TracedInductive(states[i - 1], labels[i - 1], states[i]);
    }
  }

  /** What a call in flight holds is what the given roots would have given it. */
  predicate FreshFor(roots: Roots, p: Phase) {
    match p
    case ReadIncludes(nvcc, _) => nvcc == NvccPath(roots.cudaHome)
    case Store(config, _, _) => config == ConfigFor(roots)
    case _ => true
  }

  ghost predicate CallsFresh(roots: Roots, s: State) {
    forall tid :: tid in s.calls ==> FreshFor(roots, s.calls[tid])
  }

  /** Premise: an initialisation finds no call holding something that its roots would not have given.
      Calls that have read nothing yet, and initialisations that change nothing, are harmless. */
  ghost predicate HarmlessReset(s: State, l: Label) {
    l.Reset? ==> CallsFresh(l.roots, s)
  }

  ghost predicate Current(s: State) {
    && (|s.history| > 0 ==> CallsFresh(s.history[|s.history| - 1], s))
    && (s.cache.Some? ==> |s.history| > 0 && s.cache.value == ConfigFor(s.history[|s.history| - 1]))
    && (forall r :: r in s.readings ==> 0 < r.epoch <= |s.history| && r.config == ConfigFor(s.history[r.epoch - 1]))
  }

  lemma CurrentInductive(s: State, l: Label, s': State)
    requires Current(s) && Next(s, l, s') && HarmlessReset(s, l)
    ensures Current(s')
  {
    forall r | r in s'.readings ensures r in s.readings || r == s'.readings[|s'.readings| - 1] {
    }
    assert forall i :: 0 <= i < |s.history| ==> s'.history[i] == s.history[i];
  }

  /** If every initialisation is harmless, every reading is the configuration of the roots in force
      when it was made. */
  lemma {:induction false} HarmlessRunsReadCurrent(states: seq<State>, labels: seq<Label>, i: nat)
    requires Run(states, labels) && i < |states|
    requires forall j :: 0 <= j < |labels| ==> HarmlessReset(states[j], labels[j])
    ensures Current(states[i])
  {
    if i > 0 {
      HarmlessRunsReadCurrent(states, labels, i - 1);
      assert Next(states[i - 1], labels[i - 1], states[i - 1 + 1]);
      CurrentInductive(states[i - 1], labels[i - 1], states[i]);
    }
  }

  // Exactly when readings are current

  /** A continuation of s during which nobody initialises. */
  ghost predicate Continues(s: State, states: seq<State>, labels: seq<Label>) {
    && |states| == |labels| + 1 && states[0] == s
    && forall i :: 0 <= i < |labels| ==> !labels[i].Reset? && Next(states[i], labels[i], states[i + 1])
  }

  /** Readings only accumulate, and all those after the first `from` are of the given roots. */
  predicate ReadsOnly(s: State, from: nat, roots: Roots) {
    |s.readings| >= from && forall i :: from <= i < |s.readings| ==> s.readings[i].config == ConfigFor(roots)
  }

  /** A remembered configuration decides alone; without one, the calls in flight do. */
  ghost predicate Settled(s: State, roots: Roots) {
    if s.cache.Some? then s.cache.value == ConfigFor(roots) else CallsFresh(roots, s)
  }

  lemma SettledStep(s: State, l: Label, s': State, roots: Roots, from: nat)
    requires |s.history| > 0 && s.history[|s.history| - 1] == roots && Settled(s, roots) && ReadsOnly(s, from, roots)
    requires Next(s, l, s') && !l.Reset?
    ensures s'.history == s.history && Settled(s', roots) && ReadsOnly(s', from, roots)
  {
  }

  lemma {:induction false} SettledContinues(s: State, states: seq<State>, labels: seq<Label>, roots: Roots, i: nat)
    requires |s.history| > 0 && s.history[|s.history| - 1] == roots && Settled(s, roots)
    requires Continues(s, states, labels) && i < |states|
    ensures states[i].history == s.history && Settled(states[i], roots) && ReadsOnly(states[i], |s.readings|, roots)
  {
    if i > 0 {
      SettledContinues(s, states, labels, roots, i - 1);
      assert !labels[i - 1].Reset? && Next(states[i - 1], labels[i - 1], states[i - 1 + 1]);
      SettledStep(states[i - 1], labels[i - 1], states[i], roots, |s.readings|);
    }
  }

  ghost predicate AlwaysCurrent(s: State, roots: Roots) {
    forall states, labels :: Continues(s, states, labels) ==> ReadsOnly(states[|labels|], |s.readings|, roots)
  }

  /** The exact condition, for any state: until the next initialisation every reading is of the roots in
      force if and only if the remembered configuration is, or, when there is none, everything held
      by calls in flight is. */
  lemma CurrentExactlyWhenSettled(s: State)
    requires |s.history| > 0
    ensures AlwaysCurrent(s, s.history[|s.history| - 1]) <==> Settled(s, s.history[|s.history| - 1])
  {
    var roots := s.history[|s.history| - 1];
    if Settled(s, roots) {
      forall states, labels | Continues(s, states, labels)
        ensures ReadsOnly(states[|labels|], |s.readings|, roots)
      {
        SettledContinues(s, states, labels, roots, |labels|);
      }
    } else if s.cache.Some? {
      RememberedIsRead(s, roots);
    } else {
      var tid :| tid in s.calls && !FreshFor(roots, s.calls[tid]);
      HeldIsRead(s, roots, tid);
    }
  }

  lemma NewTid(used: set<int>) returns (tid: int)
    ensures forall x :: x in used ==> x < tid
  {
    tid := 0;
    if x :| x in used {
      var above := NewTid(used - {x});
      tid := if x < above then above else x + 1;
      forall y | y in used
        ensures y < tid
      {
        assert y == x || y in used - {x};
      }
    }
  }

  /** The call has found nothing remembered and is working on a configuration of its own. */
  predicate Computing(s: State, tid: Tid) { tid in s.calls && InFlight(s.calls[tid]) }

  /** What remembering is for: until the next initialisation, no call starts to compute once a
      configuration is remembered, and every call is answered with it. */
  lemma {:induction false} RememberedUntilReset(s: State, states: seq<State>, labels: seq<Label>, i: nat, tid: Tid)
    requires |s.history| > 0 && s.cache.Some? && Continues(s, states, labels) && i < |states|
    ensures states[i].cache == s.cache && states[i].history == s.history
    ensures Computing(states[i], tid) ==> Computing(s, tid)
    ensures i > 0 && |states[i].readings| > |states[i - 1].readings| ==>
              states[i].readings[|states[i].readings| - 1].config == s.cache.value
  {
    if i > 0 {
      RememberedUntilReset(s, states, labels, i - 1, tid);
      assert !labels[i - 1].Reset? && Next(states[i - 1], labels[i - 1], states[i - 1 + 1]);
    }
  }

  /** A new call reads what is remembered. */
  lemma RememberedIsRead(s: State, roots: Roots)
    requires |s.history| > 0 && s.cache.Some? && s.cache.value != ConfigFor(roots)
    ensures !AlwaysCurrent(s, roots)
  {
    var tid := NewTid(s.calls.Keys);
    var s1 := s.(calls := s.calls[tid := ReadCache]);
    var s2 := Answer(s1, tid, s.cache.value);
    var states, labels := [s, s1, s2], [Call(tid), Step(tid)];
    assert Next(s, Call(tid), s1) && Next(s1, Step(tid), s2);
    assert Continues(s, states, labels);
    assert s2.readings[|s.readings|].config == s.cache.value;
  }

  /** A call in flight installs and returns what it holds. */
  lemma HeldIsRead(s: State, roots: Roots, tid: Tid)
    requires |s.history| > 0 && s.history[|s.history| - 1] == roots && s.cache.None?
    requires tid in s.calls && !FreshFor(roots, s.calls[tid])
    ensures !AlwaysCurrent(s, roots)
  {
    if s.calls[tid].Store? {
      StoredIsRead(s, roots, tid, s, []);
    } else {
      var held := s.calls[tid];
      var s1 := s.(calls := s.calls[tid := Store(Config(held.nvcc, roots.deepgemm), held.nvccAt, |s.history|)]);
      assert Next(s, Step(tid), s1);
      StoredIsRead(s, roots, tid, s1, [Step(tid)]);
    }
  }

  lemma StoredIsRead(s: State, roots: Roots, tid: Tid, s1: State, before: seq<Label>)
    requires |s.history| > 0 && s1.history == s.history && s1.readings == s.readings && s1.cache.None?
    requires (before == [] && s1 == s) || (before == [Step(tid)] && Next(s, Step(tid), s1))
    requires tid in s1.calls && s1.calls[tid].Store? && s1.calls[tid].config != ConfigFor(roots)
    ensures !AlwaysCurrent(s, roots)
  {
    var config := s1.calls[tid].config;
    var s2 := Answer(s1.(cache := Some(config)), tid, config);
    assert Next(s1, Step(tid), s2);
    var states, labels := if before == [] then [s, s2] else [s, s1, s2], before + [Step(tid)];
    assert Continues(s, states, labels) && states[|labels|] == s2;
    assert s2.readings[|s.readings|].config == config;
  }

  ghost predicate Reaches(s: State) {
    exists states: seq<State>, labels: seq<Label> :: Run(states, labels) && states[|labels|] == s
  }

  lemma ReachesThen(s: State, l: Label, s': State)
    requires Reaches(s) && Next(s, l, s')
    ensures Reaches(s')
  {
    var states: seq<State>, labels: seq<Label> :| Run(states, labels) && states[|labels|] == s;
    var more, ls := states + [s'], labels + [l];
    forall i | 0 <= i < |ls| ensures Next(more[i], ls[i], more[i + 1]) {
      if i < |labels| { assert Next(states[i], labels[i], states[i + 1]); }
    }
    assert Run(more, ls) && more[|ls|] == s';
  }

  /** One thread of a run, at a given program point. */
  function Solo(history: seq<Roots>, cache: Option<Config>, p: Phase, readings: seq<Reading>): State {
    State(history, cache, map[1 := p], readings)
  }

  lemma ReachesStore(a: Roots)
    ensures Reaches(Solo([a], None, Store(ConfigFor(a), 1, 1), []))
  {
    var c := ConfigFor(a);
    var s0 := State([], None, map[], []);
    var none: seq<Label> := [];
    assert Run([s0], none) && [s0][|none|] == s0;
    ReachesThen(s0, Reset(a), State([a], None, map[], []));
    ReachesThen(State([a], None, map[], []), Call(1), Solo([a], None, ReadCache, []));
    assert Solo([a], None, ReadNvcc, []).calls == Solo([a], None, ReadCache, []).calls[1 := ReadNvcc];
    ReachesThen(Solo([a], None, ReadCache, []), Step(1), Solo([a], None, ReadNvcc, []));
    ReachesThen(Solo([a], None, ReadNvcc, []), Step(1), Solo([a], None, ReadIncludes(c.nvcc, 1), []));
    ReachesThen(Solo([a], None, ReadIncludes(c.nvcc, 1), []), Step(1), Solo([a], None, Store(c, 1, 1), []));
  }

  /** Reachable states that are not settled: a call that read the old roots before an initialisation
      installs them for the new epoch, and later calls agree on the old compiler. */
  lemma OverlappingResetLeavesStaleConfig(a: Roots, b: Roots)
    ensures Reaches(Solo([a, b], Some(ConfigFor(a)), Returned(ConfigFor(a)),
                         [Reading(2, ConfigFor(a)), Reading(2, ConfigFor(a))]))
  {
    var c := ConfigFor(a);
    var first := [Reading(2, c)];
    ReachesStore(a);
    assert [a] + [b] == [a, b];
    ReachesThen(Solo([a], None, Store(c, 1, 1), []), Reset(b), Solo([a, b], None, Store(c, 1, 1), []));
    assert [] + first == first;
    ReachesThen(Solo([a, b], None, Store(c, 1, 1), []), Step(1), Solo([a, b], Some(c), Returned(c), first));
    ReachesThen(Solo([a, b], Some(c), Returned(c), first), Call(1), Solo([a, b], Some(c), ReadCache, first));
    assert first + [Reading(2, c)] == [Reading(2, c), Reading(2, c)];
    ReachesThen(Solo([a, b], Some(c), ReadCache, first), Step(1),
                Solo([a, b], Some(c), Returned(c), [Reading(2, c), Reading(2, c)]));
  }
}
