/** Safety of the kernel cache over every run: an inductive invariant, and what it says of the
    directories that are visible, now and at every later moment. */
module KernelCacheSafety {
  import opened CacheKey
  import opened KernelCache
  import opened Wrappers

  /** A finished build of a request in play that belongs under this path. */
  predicate FiledAt(n: Naming, play: set<Request>, p: Path, d: Dir) {
    exists q :: q in play && Target(n, q) == p && d == Built(q)
  }

  /** Every directory visible in the cache is a finished build of a request filed there. */
  predicate DiskOk(n: Naming, play: set<Request>, disk: Disk) {
    forall p :: p in disk && p.Cache? ==> FiledAt(n, play, p, disk[p])
  }

  /** Every entry of a process's kernel map was loaded from the output for its own key. */
  predicate CacheOk(n: Naming, play: set<Request>, cache: map<string, Runtime>) {
    forall k :: k in cache ==> KernelOf(n, play, k, cache[k])
  }

  predicate Good(n: Naming, play: set<Request>, rt: Runtime, r: Request) { KernelOf(n, play, n.key(r), rt) }

  /** Events a call may have emitted by the time it returns or throws. */
  predicate ReturnEvents(events: seq<Event>) {
    || events == []
    || events == [Start(DiskCubin), Finish(DiskCubin, true)]
    || events == [Start(JitCompile), Finish(JitCompile, true)]
  }

  predicate ThrowEvents(events: seq<Event>) {
    || events == []
    || events == [Start(DiskCubin), Finish(DiskCubin, false)]
    || events == [Start(JitCompile), Finish(JitCompile, false)]
  }

  /** Events emitted so far, by program point. */
  predicate EventsOk(t: Thread) {
    match t.phase
    case Prologue => t.events == []
    case CheckMemory => t.events == []
    case CheckDisk => t.events == []
    case DiskLoad => t.events == [Start(DiskCubin)]
    case DiskInsert(_) => t.events == [Start(DiskCubin)]
    case DiskFinish(_) => t.events == [Start(DiskCubin)]
    case Returned(_) => ReturnEvents(t.events)
    case Threw(reason) =>
      ThrowEvents(t.events) && (t.events == [] ==> reason == SetupError || reason == IoError)
      && (reason == SetupError ==> t.events == [])
    case _ => t.events == [Start(JitCompile)]
  }

  /** What a thread may rely on about its private directory. */
  predicate PrivateOk(n: Naming, pid: Pid, t: Thread, disk: Disk) {
    var tmp := Private(n, t.req, pid);
    match t.phase
    case MakeTmp => tmp !in disk
    case WriteSource => tmp in disk && disk[tmp] == EMPTY
    case Compile => tmp in disk && disk[tmp].code == Some(t.req.code)
    case Rename => tmp in disk && disk[tmp] == Built(t.req)
    case _ => true
  }

  /** What a thread may rely on about the published directory. */
  predicate TargetOk(n: Naming, t: Thread, disk: Disk) {
    match t.phase
    case DiskLoad => Target(n, t.req) in disk
    case DiskInsert(_) => Target(n, t.req) in disk
    case DiskFinish(_) => Target(n, t.req) in disk
    case Load => Target(n, t.req) in disk
    case Insert(_) => Target(n, t.req) in disk
    case JitFinish(_) => Target(n, t.req) in disk
    case Returned(_) => t.events != [] ==> Target(n, t.req) in disk
    case LostCleanup => t.lost ==> Target(n, t.req) in disk
    case LostCheck => t.lost ==> Target(n, t.req) in disk
    case _ => true
  }

  /** Runtimes in hand, and the entry a successful call leaves in the process's map. */
  predicate ResultOk(n: Naming, play: set<Request>, t: Thread, cache: map<string, Runtime>) {
    match t.phase
    case DiskInsert(rt) => Good(n, play, rt, t.req)
    case Insert(rt) => Good(n, play, rt, t.req)
    case DiskFinish(rt) => Good(n, play, rt, t.req) && n.key(t.req) in cache
    case JitFinish(rt) => Good(n, play, rt, t.req) && n.key(t.req) in cache
    case Returned(rt) => Good(n, play, rt, t.req) && n.key(t.req) in cache
    case Threw(reason) => t.lost ==> reason == LoadError || reason == IoError
    case _ => true
  }

  /** A builder that lost the race is past its compile. */
  predicate LostOk(t: Thread) {
    t.lost ==>
      t.phase.LostCleanup? || t.phase.LostCheck? || t.phase.Load? || t.phase.Insert? || t.phase.JitFinish?
      || t.phase.Returned? || t.phase.Threw?
  }

  predicate ThreadOk(n: Naming, play: set<Request>, pid: Pid, t: Thread, cache: map<string, Runtime>, disk: Disk) {
    t.req in play && EventsOk(t) && PrivateOk(n, pid, t, disk) && TargetOk(n, t, disk)
    && ResultOk(n, play, t, cache) && LostOk(t)
  }

  ghost predicate ProcessOk(n: Naming, play: set<Request>, pid: Pid, p: Process, disk: Disk) {
    CacheOk(n, play, p.cache)
    && forall tid :: tid in p.threads ==> ThreadOk(n, play, pid, p.threads[tid], p.cache, disk)
  }

  ghost predicate Inv(n: Naming, play: set<Request>, s: State) {
    DiskOk(n, play, s.disk)
    && forall pid :: pid in s.procs ==> ProcessOk(n, play, pid, s.procs[pid], s.disk)
  }

  /** What a step of one thread may do to the shared disk, as seen by everyone else: only its own
      private directory and its own target change, and a non-empty target is never touched. */
  ghost predicate Confined(disk: Disk, disk': Disk, tmp: Path, target: Path) {
    && (forall p :: p != tmp && p != target ==> (p in disk <==> p in disk'))
    && (forall p :: p != tmp && p != target && p in disk && p in disk' ==> disk'[p] == disk[p])
    && (target in disk && disk[target] != EMPTY ==> target in disk' && disk'[target] == disk[target])
  }

  lemma StepConfined(n: Naming, pid: Pid, t: Thread, cache: map<string, Runtime>, disk: Disk,
                     t': Thread, cache': map<string, Runtime>, disk': Disk)
    requires ThreadStep(n, pid, t, cache, disk, t', cache', disk')
    ensures Confined(disk, disk', Private(n, t.req, pid), Target(n, t.req))
    ensures t'.req == t.req
    ensures disk' != disk ==> Compiling(t)
  {
  }

  /** A build that stops using its private directory leaves none behind, unless a file operation failed:
      a failed compile and a lost race remove it, and a publication moves it away. */
  lemma NothingLeftBehind(n: Naming, play: set<Request>, s: State, pid: Pid, tid: Tid, s': State)
    requires Next(n, play, s, Step(pid, tid), s') && Compiling(s.procs[pid].threads[tid])
    requires !Compiling(s'.procs[pid].threads[tid]) && s'.procs[pid].threads[tid].phase != Threw(IoError)
    ensures Private(n, s.procs[pid].threads[tid].req, pid) !in s'.disk
  {
  }

  lemma CompilingStepEvents(n: Naming, pid: Pid, t: Thread, cache: map<string, Runtime>, disk: Disk,
                            t': Thread, cache': map<string, Runtime>, disk': Disk)
    requires EventsOk(t) && LostOk(t) && Compiling(t)
    requires ThreadStep(n, pid, t, cache, disk, t', cache', disk')
    ensures EventsOk(t') && LostOk(t')
  {
  }

  lemma OutsideStepEvents(n: Naming, pid: Pid, t: Thread, cache: map<string, Runtime>, disk: Disk,
                          t': Thread, cache': map<string, Runtime>, disk': Disk)
    requires EventsOk(t) && LostOk(t) && !Compiling(t)
    requires ThreadStep(n, pid, t, cache, disk, t', cache', disk')
    ensures EventsOk(t') && LostOk(t')
  {
  }

  lemma OwnStepEvents(n: Naming, pid: Pid, t: Thread, cache: map<string, Runtime>, disk: Disk,
                      t': Thread, cache': map<string, Runtime>, disk': Disk)
    requires EventsOk(t) && LostOk(t)
    requires ThreadStep(n, pid, t, cache, disk, t', cache', disk')
    ensures EventsOk(t') && LostOk(t')
  {
    if Compiling(t) {
      CompilingStepEvents(n, pid, t, cache, disk, t', cache', disk');
    } else {
      OutsideStepEvents(n, pid, t, cache, disk, t', cache', disk');
    }
  }

  lemma OwnStepPrivate(n: Naming, pid: Pid, t: Thread, cache: map<string, Runtime>, disk: Disk,
                       t': Thread, cache': map<string, Runtime>, disk': Disk)
    requires PrivateOk(n, pid, t, disk)
    requires ThreadStep(n, pid, t, cache, disk, t', cache', disk')
    ensures PrivateOk(n, pid, t', disk')
  {
  }

  lemma OwnStepTarget(n: Naming, play: set<Request>, pid: Pid, t: Thread, cache: map<string, Runtime>, disk: Disk,
                      t': Thread, cache': map<string, Runtime>, disk': Disk)
    requires DiskOk(n, play, disk) && t.req in play
    requires PrivateOk(n, pid, t, disk) && TargetOk(n, t, disk) && LostOk(t) && EventsOk(t)
    requires ThreadStep(n, pid, t, cache, disk, t', cache', disk')
    ensures TargetOk(n, t', disk')
  {
  }

  /** A compiling thread has no runtime in hand yet. */
  lemma CompilingStepResult(n: Naming, play: set<Request>, pid: Pid, t: Thread, cache: map<string, Runtime>, disk: Disk,
                            t': Thread, cache': map<string, Runtime>, disk': Disk)
    requires LostOk(t) && Compiling(t)
    requires ThreadStep(n, pid, t, cache, disk, t', cache', disk')
    ensures ResultOk(n, play, t', cache')
  {
  }

  lemma OutsideStepResult(n: Naming, play: set<Request>, pid: Pid, t: Thread, cache: map<string, Runtime>, disk: Disk,
                          t': Thread, cache': map<string, Runtime>, disk': Disk)
    requires Distinct(n, play) && DiskOk(n, play, disk) && CacheOk(n, play, cache) && t.req in play
    requires TargetOk(n, t, disk) && ResultOk(n, play, t, cache) && LostOk(t) && !Compiling(t)
    requires ThreadStep(n, pid, t, cache, disk, t', cache', disk')
    ensures ResultOk(n, play, t', cache')
  {
    if HasCubin(disk, Target(n, t.req)) {
      FiledIsGood(n, play, disk, t.req);
    }
  }

  lemma OwnStepResult(n: Naming, play: set<Request>, pid: Pid, t: Thread, cache: map<string, Runtime>, disk: Disk,
                      t': Thread, cache': map<string, Runtime>, disk': Disk)
    requires Distinct(n, play) && DiskOk(n, play, disk) && CacheOk(n, play, cache) && t.req in play
    requires TargetOk(n, t, disk) && ResultOk(n, play, t, cache) && LostOk(t)
    requires ThreadStep(n, pid, t, cache, disk, t', cache', disk')
    ensures ResultOk(n, play, t', cache')
  {
    if Compiling(t) {
      CompilingStepResult(n, play, pid, t, cache, disk, t', cache', disk');
    } else {
      OutsideStepResult(n, play, pid, t, cache, disk, t', cache', disk');
    }
  }

  /** What is filed where a request looks is a kernel of its key. */
  lemma FiledIsGood(n: Naming, play: set<Request>, disk: Disk, r: Request)
    requires Distinct(n, play) && DiskOk(n, play, disk) && r in play && HasCubin(disk, Target(n, r))
    ensures Good(n, play, Runtime(disk[Target(n, r)].cubin.value), r)
  {
    var q :| q in play && Target(n, q) == Target(n, r) && disk[Target(n, r)] == Built(q);
    assert n.cacheDir(q) == n.cacheDir(r);
  }

  /** The step itself establishes what the stepping thread relies on next. */
  lemma OwnStepOk(n: Naming, play: set<Request>, pid: Pid, t: Thread, cache: map<string, Runtime>, disk: Disk,
                  t': Thread, cache': map<string, Runtime>, disk': Disk)
    requires Distinct(n, play) && DiskOk(n, play, disk) && CacheOk(n, play, cache)
    requires ThreadOk(n, play, pid, t, cache, disk)
    requires ThreadStep(n, pid, t, cache, disk, t', cache', disk')
    ensures ThreadOk(n, play, pid, t', cache', disk')
  {
    OwnStepEvents(n, pid, t, cache, disk, t', cache', disk');
    OwnStepPrivate(n, pid, t, cache, disk, t', cache', disk');
    OwnStepTarget(n, play, pid, t, cache, disk, t', cache', disk');
    OwnStepResult(n, play, pid, t, cache, disk, t', cache', disk');
    StepConfined(n, pid, t, cache, disk, t', cache', disk');
  }

  lemma OwnStepKeepsDisk(n: Naming, play: set<Request>, pid: Pid, t: Thread, cache: map<string, Runtime>, disk: Disk,
                         t': Thread, cache': map<string, Runtime>, disk': Disk)
    requires Distinct(n, play) && DiskOk(n, play, disk)
    requires ThreadOk(n, play, pid, t, cache, disk)
    requires ThreadStep(n, pid, t, cache, disk, t', cache', disk')
    ensures DiskOk(n, play, disk')
  {
  }

  lemma OwnStepKeepsCache(n: Naming, play: set<Request>, pid: Pid, t: Thread, cache: map<string, Runtime>, disk: Disk,
                          t': Thread, cache': map<string, Runtime>, disk': Disk)
    requires Distinct(n, play) && CacheOk(n, play, cache)
    requires ThreadOk(n, play, pid, t, cache, disk)
    requires ThreadStep(n, pid, t, cache, disk, t', cache', disk')
    ensures CacheOk(n, play, cache')
    ensures forall k :: k in cache ==> k in cache'
  {
  }

  /** A thread is not disturbed by a confined change elsewhere, nor by a growing kernel map. */
  lemma OtherStepHarmless(n: Naming, play: set<Request>, pid: Pid, u: Thread, cache: map<string, Runtime>, disk: Disk,
                          cache': map<string, Runtime>, disk': Disk, tmp: Path, target: Path)
    requires DiskOk(n, play, disk)
    requires ThreadOk(n, play, pid, u, cache, disk)
    requires Confined(disk, disk', tmp, target) && tmp.Tmp? && target.Cache?
    requires Compiling(u) ==> disk' == disk || Private(n, u.req, pid) != tmp
    requires forall k :: k in cache ==> k in cache'
    ensures ThreadOk(n, play, pid, u, cache', disk')
  {
  }

  /** In a state that satisfies the premise, the compiling thread's private directory is nobody
      else's. */
  lemma PrivateIsPrivate(n: Naming, play: set<Request>, s: State, pid: Pid, tid: Tid, pid2: Pid, tid2: Tid)
    requires Distinct(n, play) && Inv(n, play, s) && OneCompilePerKey(n, s)
    requires pid in s.procs && tid in s.procs[pid].threads
    requires pid2 in s.procs && tid2 in s.procs[pid2].threads
    requires pid != pid2 || tid != tid2
    requires Compiling(s.procs[pid].threads[tid]) && Compiling(s.procs[pid2].threads[tid2])
    ensures Private(n, s.procs[pid].threads[tid].req, pid) != Private(n, s.procs[pid2].threads[tid2].req, pid2)
  {
    var t, u := s.procs[pid].threads[tid], s.procs[pid2].threads[tid2];
    assert ThreadOk(n, play, pid, t, s.procs[pid].cache, s.disk);
    assert ThreadOk(n, play, pid2, u, s.procs[pid2].cache, s.disk);
  }

  lemma StepKeepsInv(n: Naming, play: set<Request>, s: State, pid: Pid, tid: Tid, s': State)
    requires Distinct(n, play) && Inv(n, play, s) && OneCompilePerKey(n, s)
    requires Next(n, play, s, Step(pid, tid), s')
    ensures Inv(n, play, s')
  {
    var p, p' := s.procs[pid], s'.procs[pid];
    var t, t' := p.threads[tid], p'.threads[tid];
    OwnStepOk(n, play, pid, t, p.cache, s.disk, t', p'.cache, s'.disk);
    OwnStepKeepsDisk(n, play, pid, t, p.cache, s.disk, t', p'.cache, s'.disk);
    OwnStepKeepsCache(n, play, pid, t, p.cache, s.disk, t', p'.cache, s'.disk);
    StepConfined(n, pid, t, p.cache, s.disk, t', p'.cache, s'.disk);
    forall pid2 | pid2 in s'.procs ensures ProcessOk(n, play, pid2, s'.procs[pid2], s'.disk) {
      forall tid2 | tid2 in s'.procs[pid2].threads
        ensures ThreadOk(n, play, pid2, s'.procs[pid2].threads[tid2], s'.procs[pid2].cache, s'.disk)
      {
        if pid2 != pid || tid2 != tid {
          var u := s.procs[pid2].threads[tid2];
          if Compiling(u) && Compiling(t) { PrivateIsPrivate(n, play, s, pid, tid, pid2, tid2); }
          OtherStepHarmless(n, play, pid2, u, s.procs[pid2].cache, s.disk, s'.procs[pid2].cache, s'.disk,
                            Private(n, t.req, pid), Target(n, t.req));
        }
      }
    }
  }

  /** The invariant is inductive: whatever happens next, including crashes and reuse of a pid. */
  lemma InvInductive(n: Naming, play: set<Request>, s: State, l: Label, s': State)
    requires Distinct(n, play) && Inv(n, play, s) && OneCompilePerKey(n, s)
    requires Next(n, play, s, l, s')
    ensures Inv(n, play, s')
  {
    match l {
      case Step(pid, tid) => StepKeepsInv(n, play, s, pid, tid, s');
      case _ =>
    }
  }

  /** Every state of every run that respects the premises satisfies the invariant. */
  lemma {:induction false} RunsSafe(n: Naming, play: set<Request>, states: seq<State>, labels: seq<Label>, i: nat)
    requires Distinct(n, play) && Run(n, play, states, labels) && i < |states|
    requires forall j :: 0 <= j < |states| ==> OneCompilePerKey(n, states[j])
    ensures Inv(n, play, states[i])
  {
    if i > 0 {
      RunsSafe(n, play, states, labels, i - 1);
      assert Next(n, play, states[i - 1], labels[i - 1], states[i - 1 + 1]);
      InvInductive(n, play, states[i - 1], labels[i - 1], states[i]);
    }
  }

  /** A published directory survives any single transition unchanged. */
  lemma PublishedStepStable(n: Naming, play: set<Request>, s: State, l: Label, s': State, name: string)
    requires Inv(n, play, s) && Next(n, play, s, l, s')
    requires Cache(name) in s.disk
    ensures Cache(name) in s'.disk && s'.disk[Cache(name)] == s.disk[Cache(name)]
  {
    if l.Step? {
      var p, p' := s.procs[l.pid], s'.procs[l.pid];
      var t := p.threads[l.tid];
      StepConfined(n, l.pid, t, p.cache, s.disk, p'.threads[l.tid], p'.cache, s'.disk);
      assert FiledAt(n, play, Cache(name), s.disk[Cache(name)]);
    }
  }

  ghost predicate SameDirectory(s: State, s': State, name: string) {
    Cache(name) in s.disk && Cache(name) in s'.disk && s'.disk[Cache(name)] == s.disk[Cache(name)]
  }

  lemma PublishedAtNext(n: Naming, play: set<Request>, states: seq<State>, labels: seq<Label>, i: nat, name: string)
    requires Distinct(n, play) && Run(n, play, states, labels) && i < |labels|
    requires forall k :: 0 <= k < |states| ==> OneCompilePerKey(n, states[k])
    requires Cache(name) in states[i].disk
    ensures SameDirectory(states[i], states[i + 1], name)
  {
    RunsSafe(n, play, states, labels, i);
    PublishedStepStable(n, play, states[i], labels[i], states[i + 1], name);
  }

  /** Once published, a kernel directory never changes for the rest of the run. */
  lemma {:induction false} PublishedForever(n: Naming, play: set<Request>, states: seq<State>, labels: seq<Label>,
                                            i: nat, j: nat, name: string)
    requires Distinct(n, play) && Run(n, play, states, labels) && i <= j < |states|
    requires forall k :: 0 <= k < |states| ==> OneCompilePerKey(n, states[k])
    requires Cache(name) in states[i].disk
    ensures Cache(name) in states[j].disk && states[j].disk[Cache(name)] == states[i].disk[Cache(name)]
    decreases j - i
  {
    if i < j {
      PublishedForever(n, play, states, labels, i, j - 1, name);
      PublishedAtNext(n, play, states, labels, j - 1, name);
    }
  }

  /** In every run of any number of processes, with crashes and pid reuse, a cubin visible at the
      cache path of a request is the complete compiler output for a request of exactly that key, and
      is still there, the same, at every later point of the run. If no other request in play has the
      key, it is the output for the request itself. Stated for the repository's own key and directory
      names; the naming premise is only that no two keys in play share a digest. */
  lemma VisibleCubinsComplete(play: set<Request>, states: seq<State>, labels: seq<Label>, i: nat, j: nat, r: Request)
    requires NoCollisions(play) && Run(NAMES, play, states, labels) && i <= j < |states|
    requires forall k :: 0 <= k < |states| ==> OneCompilePerKey(NAMES, states[k])
    requires r in play && HasCubin(states[i].disk, Target(NAMES, r))
    ensures HasCubin(states[j].disk, Target(NAMES, r))
    ensures states[j].disk[Target(NAMES, r)] == states[i].disk[Target(NAMES, r)]
    ensures KernelOf(NAMES, play, NAMES.key(r), Runtime(states[j].disk[Target(NAMES, r)].cubin.value))
    ensures OwnKey(NAMES, play, r) ==> states[j].disk[Target(NAMES, r)].cubin == Some(Complete(SourceOf(r)))
  {
    NamesDistinct(play);
    RunsSafe(NAMES, play, states, labels, i);
    PublishedForever(NAMES, play, states, labels, i, j, NAMES.cacheDir(r));
    FiledIsGood(NAMES, play, states[i].disk, r);
  }

  /** No file other than a finished build is ever visible anywhere below the cache directory. */
  lemma NothingElseVisible(play: set<Request>, states: seq<State>, labels: seq<Label>, i: nat, name: string)
    requires NoCollisions(play) && Run(NAMES, play, states, labels) && i < |states|
    requires forall k :: 0 <= k < |states| ==> OneCompilePerKey(NAMES, states[k])
    requires Cache(name) in states[i].disk
    ensures exists q :: q in play && name == NAMES.cacheDir(q) && states[i].disk[Cache(name)] == Built(q)
  {
    NamesDistinct(play);
    RunsSafe(NAMES, play, states, labels, i);
    assert FiledAt(NAMES, play, Cache(name), states[i].disk[Cache(name)]);
    var q :| q in play && Target(NAMES, q) == Cache(name) && states[i].disk[Cache(name)] == Built(q);
    assert name == NAMES.cacheDir(q);
  }

  // Reuse

  /** The call has begun to compile. */
  predicate BeganCompile(t: Thread) { t.events != [] && t.events[0] == Start(JitCompile) }

  predicate BeganCompileAt(s: State, pid: Pid, tid: Tid, target: Path, n: Naming) {
    && pid in s.procs && tid in s.procs[pid].threads
    && BeganCompile(s.procs[pid].threads[tid]) && Target(n, s.procs[pid].threads[tid].req) == target
  }

  /** A step begins a compile only out of the existence test, and only when that finds nothing. */
  lemma StepBeginsCompile(n: Naming, pid: Pid, t: Thread, cache: map<string, Runtime>, disk: Disk,
                          t': Thread, cache': map<string, Runtime>, disk': Disk)
    requires EventsOk(t) && LostOk(t) && ThreadStep(n, pid, t, cache, disk, t', cache', disk')
    requires BeganCompile(t') && !BeganCompile(t)
    ensures t.phase.CheckDisk? && !HasCubin(disk, Target(n, t.req))
  {
  }

  lemma NoCompileBegins(n: Naming, play: set<Request>, s: State, l: Label, s': State, pid: Pid, tid: Tid, target: Path)
    requires Inv(n, play, s) && Next(n, play, s, l, s') && HasCubin(s.disk, target)
    requires BeganCompileAt(s', pid, tid, target, n)
    ensures BeganCompileAt(s, pid, tid, target, n)
  {
    if l == Step(pid, tid) {
      var p, p' := s.procs[pid], s'.procs[pid];
      assert ThreadOk(n, play, pid, p.threads[tid], p.cache, s.disk);
      StepConfined(n, pid, p.threads[tid], p.cache, s.disk, p'.threads[tid], p'.cache, s'.disk);
      if !BeganCompile(p.threads[tid]) {
        StepBeginsCompile(n, pid, p.threads[tid], p.cache, s.disk, p'.threads[tid], p'.cache, s'.disk);
      }
    }
  }

  lemma NoCompileBeginsAt(n: Naming, play: set<Request>, states: seq<State>, labels: seq<Label>, i: nat, j: nat,
                          target: Path, pid: Pid, tid: Tid)
    requires Distinct(n, play) && Run(n, play, states, labels) && i <= j < |labels|
    requires forall k :: 0 <= k < |states| ==> OneCompilePerKey(n, states[k])
    requires target.Cache? && HasCubin(states[i].disk, target) && BeganCompileAt(states[j + 1], pid, tid, target, n)
    ensures BeganCompileAt(states[j], pid, tid, target, n)
  {
    RunsSafe(n, play, states, labels, j);
    PublishedForever(n, play, states, labels, i, j, target.name);
    assert Next(n, play, states[j], labels[j], states[j + 1]);
    NoCompileBegins(n, play, states[j], labels[j], states[j + 1], pid, tid, target);
  }

  /** What the disk tier is for: once a cubin is visible where a request looks, no call that looks there
      ever begins to compile, in any process, for the rest of the run; a call that is compiling later was
      compiling already. */
  lemma {:induction false} PublishedIsNeverCompiledAgain(n: Naming, play: set<Request>, states: seq<State>,
                                                         labels: seq<Label>, i: nat, j: nat, target: Path,
                                                         pid: Pid, tid: Tid)
    requires Distinct(n, play) && Run(n, play, states, labels) && i <= j < |states|
    requires forall k :: 0 <= k < |states| ==> OneCompilePerKey(n, states[k])
    requires target.Cache? && HasCubin(states[i].disk, target) && BeganCompileAt(states[j], pid, tid, target, n)
    ensures BeganCompileAt(states[i], pid, tid, target, n)
    decreases j - i
  {
    if i < j {
      NoCompileBeginsAt(n, play, states, labels, i, j - 1, target, pid, tid);
      PublishedIsNeverCompiledAgain(n, play, states, labels, i, j - 1, target, pid, tid);
    }
  }

  /** A call answered by loading or compiling leaves its kernel published, so that from then on nobody
      begins to compile for its key. */
  lemma CompiledOnce(n: Naming, play: set<Request>, states: seq<State>, labels: seq<Label>, i: nat, j: nat,
                     pid: Pid, tid: Tid, pid': Pid, tid': Tid)
    requires Distinct(n, play) && Run(n, play, states, labels) && i <= j < |states|
    requires forall k :: 0 <= k < |states| ==> OneCompilePerKey(n, states[k])
    requires pid in states[i].procs && tid in states[i].procs[pid].threads
    requires states[i].procs[pid].threads[tid].phase.Returned? && states[i].procs[pid].threads[tid].events != []
    ensures HasCubin(states[i].disk, Target(n, states[i].procs[pid].threads[tid].req))
    ensures var target := Target(n, states[i].procs[pid].threads[tid].req);
            BeganCompileAt(states[j], pid', tid', target, n) ==> BeganCompileAt(states[i], pid', tid', target, n)
  {
    RunsSafe(n, play, states, labels, i);
    var p := states[i].procs[pid];
    assert ThreadOk(n, play, pid, p.threads[tid], p.cache, states[i].disk);
    var target := Target(n, p.threads[tid].req);
    assert FiledAt(n, play, target, states[i].disk[target]);
    if BeganCompileAt(states[j], pid', tid', target, n) {
      PublishedIsNeverCompiledAgain(n, play, states, labels, i, j, target, pid', tid');
    }
  }
}
