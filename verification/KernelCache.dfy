/** The three-tier kernel cache as a state machine: any number of processes, each with any number of
    threads inside `build_kernel`, interleave over one shared cache directory tree.

    One step of a thread is one file-system call, one critical section, or one observable stage of
    the compiler. A compile is deterministic: its output is identified with what it compiled. */
module KernelCache {
  import opened CacheKey
  import opened Wrappers

  type Pid = int
  type Tid = int

  /** What the compiler's output depends on. */
  datatype Source = Source(nvcc: string, flags: string, code: string)

  function SourceOf(r: Request): Source { Source(r.nvcc, r.flags, r.code) }

  /** The file `kernel.cubin`: the complete output for a source, or an unfinished write. */
  datatype Cubin = Complete(source: Source) | Unfinished

  /** A kernel directory holds `kernel.cu` and `kernel.cubin`. */
  datatype Dir = Dir(code: Option<string>, cubin: Option<Cubin>)

  const EMPTY: Dir := Dir(None, None)

  datatype Path = Cache(name: string) | Tmp(name: string)

  type Disk = map<Path, Dir>

  /** A loaded library, by provenance: which file contents were loaded, and so which source they were
      compiled from. */
  datatype Runtime = Runtime(image: Cubin)

  /** How keys and directories are named. Instantiated with the repository's text by `NAMES`. */
  datatype Naming = Naming(
    key: Request -> string,
    cacheDir: Request -> string,
    tmpDir: (Request, Pid) -> string)

  const NAMES: Naming := Naming(r => CacheKey.Key(r), r => CacheKey.CacheDir(r), (r, p) => CacheKey.TmpDir(r, p))

  function Target(n: Naming, r: Request): Path { Cache(n.cacheDir(r)) }

  function Private(n: Naming, r: Request, pid: Pid): Path { Tmp(n.tmpDir(r, pid)) }

  /** The directory a finished build of r consists of. */
  function Built(r: Request): Dir { Dir(Some(r.code), Some(Complete(SourceOf(r)))) }

  /** The specification of a build without any cache: load what compiling the request produces. */
  function PlainCompile(r: Request): Runtime { Runtime(Complete(SourceOf(r))) }

  /** What a key promises: the compiled output of some request in play that has this key. */
  predicate KernelOf(n: Naming, play: set<Request>, key: string, rt: Runtime) {
    exists q :: q in play && n.key(q) == key && rt == PlainCompile(q)
  }

  datatype Origin = DiskCubin | JitCompile

  /** Materialization events; a FINISH carries the success flag. */
  datatype Event = Start(origin: Origin) | Finish(origin: Origin, success: bool)

  datatype Reason = SetupError | LoadError | CompileError | MoveError | IoError

  /** Program points of `load_cached_kernel` and `build_kernel`. In the prologue the call checks that the
      runtime is initialised, obtains the compiler configuration and locates the cache. */
  datatype Phase =
    | Prologue
    | CheckMemory
    | CheckDisk
    | DiskLoad
    | DiskInsert(loaded: Runtime)
    | DiskFinish(loaded: Runtime)
    | ClearTmp
    | MakeTmp
    | WriteSource
    | Compile
    | CompileCleanup
    | Rename
    | LostCleanup
    | LostCheck
    | Load
    | Insert(loaded: Runtime)
    | JitFinish(loaded: Runtime)
    | Returned(runtime: Runtime)
    | Threw(reason: Reason)

  /** One call, with the request that its prologue arrives at. `lost` records that the rename failed
      because the target already existed. */
  datatype Thread = Thread(req: Request, phase: Phase, events: seq<Event>, lost: bool)

  datatype Process = Process(cache: map<string, Runtime>, threads: map<Tid, Thread>)

  datatype State = State(disk: Disk, procs: map<Pid, Process>)

  datatype Label =
    | Spawn(pid: Pid)
    | Crash(pid: Pid)
    | Call(pid: Pid, tid: Tid, req: Request)
    | Step(pid: Pid, tid: Tid)

  predicate Ended(t: Thread) { t.phase.Returned? || t.phase.Threw? }

  /** Phases in which a thread uses its private directory. */
  predicate Compiling(t: Thread) {
    t.phase.ClearTmp? || t.phase.MakeTmp? || t.phase.WriteSource? || t.phase.Compile?
    || t.phase.CompileCleanup? || t.phase.Rename? || t.phase.LostCleanup?
  }

  predicate HasCubin(disk: Disk, p: Path) { p in disk && disk[p].cubin.Some? }

  function Go(t: Thread, phase: Phase): Thread { t.(phase := phase) }

  /** An exception leaves the open scope, whose destructor reports failure. */
  function Throw(t: Thread, reason: Reason, origin: Origin): Thread {
    t.(phase := Threw(reason), events := t.events + [Finish(origin, false)])
  }

  /** One unlink of `remove_all`, or its end once nothing is left. */
  predicate RemoveAll(disk: Disk, p: Path, disk': Disk, done: bool) {
    || (!done && p in disk && disk[p].code.Some? && disk' == disk[p := disk[p].(code := None)])
    || (!done && p in disk && disk[p].cubin.Some? && disk' == disk[p := disk[p].(cubin := None)])
    || (done && p in disk && disk[p] == EMPTY && disk' == disk - {p})
    || (done && p !in disk && disk' == disk)
  }

  /** One step of thread t in process pid, on the process's kernel map and the shared disk. */
  predicate ThreadStep(n: Naming, pid: Pid, t: Thread, cache: map<string, Runtime>, disk: Disk,
                       t': Thread, cache': map<string, Runtime>, disk': Disk)
  {
    var key, target, tmp := n.key(t.req), Target(n, t.req), Private(n, t.req, pid);
    match t.phase
    case Prologue =>
      cache' == cache && disk' == disk && (t' == Go(t, CheckMemory) || t' == Go(t, Threw(SetupError)))
    case CheckMemory =>
      cache' == cache && disk' == disk &&
      t' == if key in cache then Go(t, Returned(cache[key])) else Go(t, CheckDisk)
    case CheckDisk =>
      cache' == cache && disk' == disk &&
      (t' == (if HasCubin(disk, target)
              then t.(phase := DiskLoad, events := t.events + [Start(DiskCubin)])
              else t.(phase := ClearTmp, events := t.events + [Start(JitCompile)]))
       || t' == Go(t, Threw(IoError)))
    case DiskLoad =>
      cache' == cache && disk' == disk &&
      ((HasCubin(disk, target) && t' == Go(t, DiskInsert(Runtime(disk[target].cubin.value))))
       || t' == Throw(t, LoadError, DiskCubin))
    case DiskInsert(loaded) =>
      cache' == cache[key := loaded] && disk' == disk && t' == Go(t, DiskFinish(loaded))
    case DiskFinish(loaded) =>
      cache' == cache && disk' == disk &&
      t' == t.(phase := Returned(loaded), events := t.events + [Finish(DiskCubin, true)])
    case ClearTmp =>
      cache' == cache &&
      ((RemoveAll(disk, tmp, disk', false) && t' == t)
       || (RemoveAll(disk, tmp, disk', true) && t' == Go(t, MakeTmp))
       || (disk' == disk && t' == Throw(t, IoError, JitCompile)))
    case MakeTmp =>
      cache' == cache &&
      ((tmp !in disk && disk' == disk[tmp := EMPTY] && t' == Go(t, WriteSource))
       || (tmp in disk && disk' == disk && t' == Go(t, WriteSource))
       || (disk' == disk && t' == Throw(t, IoError, JitCompile)))
    case WriteSource =>
      cache' == cache &&
      ((tmp in disk && disk' == disk[tmp := disk[tmp].(code := Some(t.req.code))] && t' == Go(t, Compile))
       || (disk' == disk && t' == Throw(t, IoError, JitCompile)))
    case Compile =>
      cache' == cache &&
      ((tmp in disk && disk' == disk[tmp := disk[tmp].(cubin := Some(Unfinished))] && t' == t)
       || (tmp in disk && disk[tmp].code.Some? && t' == Go(t, Rename) &&
           disk' == disk[tmp := disk[tmp].(cubin :=
             Some(Complete(Source(t.req.nvcc, t.req.flags, disk[tmp].code.value))))])
       || (disk' == disk && t' == Go(t, CompileCleanup))
       || (disk' == disk && t' == Throw(t, IoError, JitCompile)))
    case CompileCleanup =>
      cache' == cache &&
      ((RemoveAll(disk, tmp, disk', false) && t' == t)
       || (RemoveAll(disk, tmp, disk', true) && t' == Throw(t, CompileError, JitCompile))
       || (disk' == disk && t' == Throw(t, IoError, JitCompile)))
    case Rename =>
      cache' == cache &&
      ((tmp in disk && (target !in disk || disk[target] == EMPTY) &&
        disk' == (disk - {tmp})[target := disk[tmp]] && t' == Go(t, Load))
       || (target in disk && disk[target] != EMPTY && disk' == disk && t' == t.(phase := LostCleanup, lost := true))
       || (disk' == disk && t' == Go(t, LostCleanup))
       || (disk' == disk && t' == Throw(t, IoError, JitCompile)))
    case LostCleanup =>
      cache' == cache &&
      ((RemoveAll(disk, tmp, disk', false) && t' == t)
       || (RemoveAll(disk, tmp, disk', true) && t' == Go(t, LostCheck))
       || (disk' == disk && t' == Throw(t, IoError, JitCompile)))
    case LostCheck =>
      cache' == cache && disk' == disk &&
      (t' == (if HasCubin(disk, target) then Go(t, Load) else Throw(t, MoveError, JitCompile))
       || t' == Throw(t, IoError, JitCompile))
    case Load =>
      cache' == cache && disk' == disk &&
      ((HasCubin(disk, target) && t' == Go(t, Insert(Runtime(disk[target].cubin.value))))
       || t' == Throw(t, LoadError, JitCompile))
    case Insert(loaded) =>
      cache' == cache[key := loaded] && disk' == disk && t' == Go(t, JitFinish(loaded))
    case JitFinish(loaded) =>
      cache' == cache && disk' == disk &&
      t' == t.(phase := Returned(loaded), events := t.events + [Finish(JitCompile, true)])
    case Returned(_) => false
    case Threw(_) => false
  }

  /** A transition of the whole system. Crashed processes leave their private directories behind, and
      their pid may be spawned again. */
  predicate Next(n: Naming, play: set<Request>, s: State, l: Label, s': State) {
    match l
    case Spawn(pid) =>
      pid !in s.procs && s' == s.(procs := s.procs[pid := Process(map[], map[])])
    case Crash(pid) =>
      pid in s.procs && s' == s.(procs := s.procs - {pid})
    case Call(pid, tid, req) =>
      pid in s.procs && req in play
      && var p := s.procs[pid];
         (tid in p.threads ==> Ended(p.threads[tid]))
         && s' == s.(procs := s.procs[pid := p.(threads := p.threads[tid := Thread(req, Prologue, [], false)])])
    case Step(pid, tid) =>
      pid in s.procs && pid in s'.procs
      && var p, p' := s.procs[pid], s'.procs[pid];
         tid in p.threads && tid in p'.threads
         && ThreadStep(n, pid, p.threads[tid], p.cache, s.disk, p'.threads[tid], p'.cache, s'.disk)
         && p'.threads == p.threads[tid := p'.threads[tid]]
         && s'.procs == s.procs[pid := p']
  }

  predicate Init(s: State) { s == State(map[], map[]) }

  ghost predicate Run(n: Naming, play: set<Request>, states: seq<State>, labels: seq<Label>) {
    |states| == |labels| + 1 && Init(states[0])
    && forall i :: 0 <= i < |labels| ==> Next(n, play, states[i], labels[i], states[i + 1])
  }

  /** Premise on callers: a process has at most one compile in flight per key. Private directories
      are named by process and key, not by thread. */
  ghost predicate OneCompilePerKey(n: Naming, s: State) {
    forall pid, a, b ::
      pid in s.procs && a in s.procs[pid].threads && b in s.procs[pid].threads && a != b
      && Compiling(s.procs[pid].threads[a]) && Compiling(s.procs[pid].threads[b])
      ==> n.key(s.procs[pid].threads[a].req) != n.key(s.procs[pid].threads[b].req)
  }

  /** Premise on names: within the requests in play, a cache directory identifies the key, and a
      private directory identifies the key and the process. Different requests may share a key. */
  ghost predicate Distinct(n: Naming, play: set<Request>) {
    && (forall r, q :: r in play && q in play && n.cacheDir(r) == n.cacheDir(q) ==> n.key(r) == n.key(q))
    && (forall r, q, p, p' :: r in play && q in play && n.tmpDir(r, p) == n.tmpDir(q, p') ==>
          n.key(r) == n.key(q) && p == p')
  }

  /** No two keys in play have the same digest. */
  ghost predicate NoCollisions(play: set<Request>) {
    forall r, q :: r in play && q in play && KeyDigest(r) == KeyDigest(q) ==> CacheKey.Key(r) == CacheKey.Key(q)
  }

  /** The repository's names satisfy the naming premise whenever digests do not collide. */
  lemma NamesDistinct(play: set<Request>)
    requires NoCollisions(play)
    ensures Distinct(NAMES, play)
  {
    forall r, q | r in play && q in play && NAMES.cacheDir(r) == NAMES.cacheDir(q)
      ensures NAMES.key(r) == NAMES.key(q)
    {
      CacheDirCharacterized(r, q);
    }
    forall r, q, p: Pid, p': Pid | r in play && q in play && NAMES.tmpDir(r, p) == NAMES.tmpDir(q, p')
      ensures NAMES.key(r) == NAMES.key(q) && p == p'
    {
      TmpDirCharacterized(r, p, q, p');
    }
  }

  /** No other request in play has the key of r. */
  predicate OwnKey(n: Naming, play: set<Request>, r: Request) {
    forall q :: q in play && n.key(q) == n.key(r) ==> q == r
  }

  /** A key without a further separator is its request's own, whatever else is in play. */
  lemma ReadableKeyIsOwn(play: set<Request>, r: Request)
    requires !ExtraSeparator(r)
    ensures OwnKey(NAMES, play, r)
  {
    if r.nvcc == "" || r.flags == "" {
      EmptyPartAddsSeparator(r);
    }
    KeyDeterminesRequest(r);
    forall q | q in play && NAMES.key(q) == NAMES.key(r)
      ensures q == r
    {
      assert CacheKey.Key(q) == CacheKey.Key(r);
    }
  }
}
