/** `build_kernel` and `load_cached_kernel` as they run in one thread, with the rest of the world
    acting between any two of their atomic regions. Each region is checked to be a step of the
    machine in `KernelCache`; what the others may do meanwhile is checked to be what the machine's
    other steps do. */
module BuildKernel {
  import opened CacheKey
  import opened KernelCache
  import opened KernelCacheSafety
  import opened Wrappers

  class EventLog {
    var events: seq<Event>

    constructor ()
      ensures events == []
    {
      events := [];
    }
  }

  /** Reports START when it is opened and FINISH exactly once, with failure if it is destroyed before
      success was reported. */
  class MaterializationScope {
    const origin: Origin
    const log: EventLog
    var finished: bool

    constructor (log: EventLog, origin: Origin)
      modifies log
      ensures this.log == log && this.origin == origin && !finished
      ensures log.events == old(log.events) + [Start(origin)]
    {
      this.log, this.origin, this.finished := log, origin, false;
      new;
      log.events := log.events + [Start(origin)];
    }

    method Finish(success: bool)
      modifies this, log
      ensures finished
      ensures log.events == old(log.events) + (if old(finished) then [] else [KernelCache.Finish(origin, success)])
    {
      if finished {
        return;
      }
      finished := true;
      log.events := log.events + [KernelCache.Finish(origin, success)];
    }

    method FinishSuccess()
      modifies this, log
      ensures finished
      ensures log.events == old(log.events) + (if old(finished) then [] else [KernelCache.Finish(origin, true)])
    {
      Finish(true);
    }

    /** The destructor. */
    method Destroy()
      modifies this, log
      ensures finished
      ensures log.events == old(log.events) + (if old(finished) then [] else [KernelCache.Finish(origin, false)])
    {
      Finish(false);
    }
  }

  /** Which fallible operations fail during one call. A rename that fails because its target exists
      is not a fault. */
  datatype Faults = Faults(
    setup: bool, look: bool, diskLoad: bool, clear: bool, make: bool, write: bool, start: bool, compile: bool,
    parent: bool, rename: bool, cleanup: bool, relook: bool, load: bool)

  predicate NoFaults(f: Faults) {
    && !f.setup && !f.look && !f.start && !f.parent && !f.relook && !f.diskLoad && !f.clear && !f.make && !f.write
    && !f.compile && !f.rename && !f.cleanup && !f.load
  }

  /** The failures that a reported reason stands for. */
  predicate Explains(f: Faults, reason: Reason) {
    match reason
    case SetupError => f.setup
    case LoadError => f.diskLoad || f.load
    case CompileError => f.compile && !f.cleanup
    case MoveError => f.rename && !f.cleanup
    case IoError => f.look || f.clear || f.make || f.write || f.start || f.parent || f.cleanup || f.relook
  }

  datatype Result = Ok(runtime: Runtime) | Raised(reason: Reason)

  datatype Lookup = Hit(runtime: Runtime) | Miss | Failed(reason: Reason)

  /** What the rest of the world may do while a thread is between two regions; `building` says whether
      the thread is using its private directory `tmp`. */
  predicate Rely(n: Naming, play: set<Request>, tmp: Path, building: bool,
                 cache: map<string, Runtime>, disk: Disk, cache': map<string, Runtime>, disk': Disk)
  {
    && DiskOk(n, play, disk') && CacheOk(n, play, cache')
    && (forall k :: k in cache ==> k in cache')
    && (forall p :: p in disk && p.Cache? ==> p in disk')
    && (building ==> (tmp in disk <==> tmp in disk') && (tmp in disk ==> disk'[tmp] == disk[tmp]))
  }

  lemma RelyKeepsThread(n: Naming, play: set<Request>, pid: Pid, t: Thread,
                        cache: map<string, Runtime>, disk: Disk, cache': map<string, Runtime>, disk': Disk)
    requires ThreadOk(n, play, pid, t, cache, disk)
    requires Rely(n, play, Private(n, t.req, pid), Compiling(t), cache, disk, cache', disk')
    ensures ThreadOk(n, play, pid, t, cache', disk')
  {
  }

  /** Does this transition leave thread tid of process pid in the middle of its call? */
  predicate Foreign(l: Label, pid: Pid, tid: Tid) {
    match l
    case Spawn(_) => true
    case Crash(p) => p != pid
    case Call(p, t, _) => p != pid || t != tid
    case Step(p, t) => p != pid || t != tid
  }

  /** Every transition of anybody else satisfies the rely condition: the interference assumed by the
      sequential code is the interference the machine produces. */
  lemma OthersSatisfyRely(n: Naming, play: set<Request>, s: State, l: Label, s': State, pid: Pid, tid: Tid)
    requires Distinct(n, play) && Inv(n, play, s) && OneCompilePerKey(n, s) && Next(n, play, s, l, s')
    requires pid in s.procs && tid in s.procs[pid].threads && Foreign(l, pid, tid)
    ensures pid in s'.procs && tid in s'.procs[pid].threads
    ensures s'.procs[pid].threads[tid] == s.procs[pid].threads[tid]
    ensures var u := s.procs[pid].threads[tid];
            Rely(n, play, Private(n, u.req, pid), Compiling(u),
                 s.procs[pid].cache, s.disk, s'.procs[pid].cache, s'.disk)
  {
    InvInductive(n, play, s, l, s');
    assert ProcessOk(n, play, pid, s'.procs[pid], s'.disk);
    forall p | p in s.disk && p.Cache? ensures p in s'.disk {
      PublishedStepStable(n, play, s, l, s', p.name);
    }
    if l.Step? {
      var p, p' := s.procs[l.pid], s'.procs[l.pid];
      var t := p.threads[l.tid];
      StepConfined(n, l.pid, t, p.cache, s.disk, p'.threads[l.tid], p'.cache, s'.disk);
      OwnStepKeepsCache(n, play, l.pid, t, p.cache, s.disk, p'.threads[l.tid], p'.cache, s'.disk);
      if Compiling(s.procs[pid].threads[tid]) && Compiling(t) {
        PrivateIsPrivate(n, play, s, l.pid, l.tid, pid, tid);
      }
    }
  }

  /** One process as seen by one of its threads. `t` is the thread's position in the machine. */
  class Builder {
    const n: Naming
    const pid: Pid
    const log: EventLog
    const play: set<Request>
    var disk: Disk
    var cache: map<string, Runtime>
    ghost var t: Thread

    ghost predicate Valid()
      reads this
    {
      Distinct(n, play) && DiskOk(n, play, disk) && CacheOk(n, play, cache) && ThreadOk(n, play, pid, t, cache, disk)
    }

    constructor (n: Naming, pid: Pid, log: EventLog, play: set<Request>, disk: Disk, ghost r: Request)
      requires Distinct(n, play) && DiskOk(n, play, disk) && r in play
      ensures Valid() && fresh(this) && this.log == log && this.disk == disk && cache == map[]
      ensures this.n == n && this.pid == pid && this.play == play
      ensures t == Thread(r, Prologue, [], false)
    {
      this.n, this.pid, this.log, this.play, this.disk, this.cache := n, pid, log, play, disk, map[];
      this.t := Thread(r, Prologue, [], false);
    }

    /** Others run. */
    method Interfere(r: Request, building: bool)
      requires Valid() && t.req == r && building == Compiling(t)
      modifies this`disk, this`cache
      ensures Valid() && Rely(n, play, Private(n, r, pid), building, old(cache), old(disk), cache, disk)
    {
      assert Rely(n, play, Private(n, r, pid), building, cache, disk, cache, disk);
      var d: Disk, c: map<string, Runtime> :| Rely(n, play, Private(n, r, pid), building, cache, disk, c, d);
      RelyKeepsThread(n, play, pid, t, cache, disk, c, d);
      disk, cache := d, c;
    }

    /** Records that the region just executed, which found the given disk and map, was a step of the
        machine. */
    ghost method Advance(d: Disk, c: map<string, Runtime>, next: Thread)
      requires Distinct(n, play) && DiskOk(n, play, d) && CacheOk(n, play, c) && ThreadOk(n, play, pid, t, c, d)
      requires ThreadStep(n, pid, t, c, d, next, cache, disk)
      modifies this`t
      ensures t == next && Valid()
      ensures forall k :: k in c ==> k in cache
    {
      OwnStepOk(n, play, pid, t, c, d, next, cache, disk);
      OwnStepKeepsDisk(n, play, pid, t, c, d, next, cache, disk);
      OwnStepKeepsCache(n, play, pid, t, c, d, next, cache, disk);
      t := next;
    }

    /** `remove_all` on the private directory, from a phase whose normal exit is `next`. */
    method RemovePrivate(r: Request, ghost next: Thread)
      requires Valid() && t.req == r && (t.phase.ClearTmp? || t.phase.CompileCleanup? || t.phase.LostCleanup?)
      requires next == match t.phase
                       case ClearTmp => Go(t, MakeTmp)
                       case CompileCleanup => Throw(t, CompileError, JitCompile)
                       case _ => Go(t, LostCheck)
      modifies this`disk, this`cache, this`t
      ensures Valid() && t == next
      ensures forall k :: k in old(cache) ==> k in cache
    {
      var tmp := Private(n, r, pid);
      if tmp in disk && disk[tmp].code.Some? {
        ghost var d := disk;
        disk := disk[tmp := disk[tmp].(code := None)];
        Advance(d, cache, t);
        Interfere(r, true);
      }
      if tmp in disk && disk[tmp].cubin.Some? {
        ghost var d := disk;
        disk := disk[tmp := disk[tmp].(cubin := None)];
        Advance(d, cache, t);
        Interfere(r, true);
      }
      ghost var d := disk;
      disk := disk - {tmp};
      assert RemoveAll(d, tmp, disk, true);
      Advance(d, cache, next);
    }

    /** The first two tiers. */
    method LoadCachedKernel(r: Request, f: Faults) returns (res: Lookup)
      requires Valid() && t == Thread(r, CheckMemory, [], false)
      modifies this`disk, this`cache, this`t, log
      ensures Valid() && t.req == r
      ensures res.Hit? ==> t.phase == Returned(res.runtime) && log.events == old(log.events) + t.events
      ensures res.Failed? ==> Explains(f, res.reason) && t.phase == Threw(res.reason)
                              && log.events == old(log.events) + t.events
      ensures res.Miss? ==> t == Jit(r, ClearTmp) && log.events == old(log.events)
      ensures n.key(r) in old(cache) ==> res.Hit? && log.events == old(log.events)
      ensures n.key(r) !in old(cache) && HasCubin(old(disk), Target(n, r)) && !f.look ==>
                (res.Hit? <==> !f.diskLoad) && log.events == old(log.events) + DiskPair(!f.diskLoad)
      ensures n.key(r) !in old(cache) && res.Hit? ==> HasCubin(disk, Target(n, r))
    {
      if n.key(r) in cache {
        res := Hit(cache[n.key(r)]);
        Advance(disk, cache, Go(t, Returned(cache[n.key(r)])));
        return;
      }
      Advance(disk, cache, Go(t, CheckDisk));
      var visible := LookOnDisk(r, f);
      if visible.None? {
        return Failed(IoError);
      }
      if !visible.value {
        return Miss;
      }
      res := LoadVisible(r, f);
    }

    /** The second tier with its event scope. */
    method LoadVisible(r: Request, f: Faults) returns (res: Lookup)
      requires Valid() && t == Thread(r, DiskLoad, [Start(DiskCubin)], false)
      modifies this`disk, this`cache, this`t, log
      ensures Valid() && (res == Failed(LoadError) || res.Hit?) && (res.Hit? <==> !f.diskLoad)
      ensures t == Thread(r, if res.Hit? then Returned(res.runtime) else Threw(LoadError),
                          DiskPair(!f.diskLoad), false)
      ensures log.events == old(log.events) + DiskPair(!f.diskLoad)
    {
      var scope := new MaterializationScope(log, DiskCubin);
      var runtime := LoadFromDisk(r, f);
      if runtime.None? {
        scope.Destroy();
        return Failed(LoadError);
      }
      scope.FinishSuccess();
      return Hit(runtime.value);
    }

    /** The existence test of the second tier; None when the test itself throws. */
    method LookOnDisk(r: Request, f: Faults) returns (visible: Option<bool>)
      requires Valid() && t == Thread(r, CheckDisk, [], false)
      modifies this`disk, this`cache, this`t
      ensures Valid() && visible.None? == f.look
      ensures HasCubin(old(disk), Target(n, r)) && !f.look ==> visible == Some(true)
      ensures t == match visible
                   case None => Thread(r, Threw(IoError), [], false)
                   case Some(found) =>
                     if found then Thread(r, DiskLoad, [Start(DiskCubin)], false) else Jit(r, ClearTmp)
    {
      Interfere(r, false);
      if f.look {
        Advance(disk, cache, Go(t, Threw(IoError)));
        return None;
      }
      var found := HasCubin(disk, Target(n, r));
      Advance(disk, cache, if found then Thread(r, DiskLoad, [Start(DiskCubin)], false) else Jit(r, ClearTmp));
      return Some(found);
    }

    /** Loading and remembering a kernel found on disk. */
    method LoadFromDisk(r: Request, f: Faults) returns (loaded: Option<Runtime>)
      requires Valid() && t == Thread(r, DiskLoad, [Start(DiskCubin)], false)
      modifies this`disk, this`cache, this`t
      ensures Valid() && loaded.Some? == !f.diskLoad
      ensures t == if loaded.Some?
                   then Thread(r, Returned(loaded.value), [Start(DiskCubin), Finish(DiskCubin, true)], false)
                   else Thread(r, Threw(LoadError), [Start(DiskCubin), Finish(DiskCubin, false)], false)
    {
      Interfere(r, false);
      if f.diskLoad {
        Advance(disk, cache, Throw(t, LoadError, DiskCubin));
        return None;
      }
      var runtime := Runtime(disk[Target(n, r)].cubin.value);
      Advance(disk, cache, Go(t, DiskInsert(runtime)));
      RememberFromDisk(r, runtime);
      return Some(runtime);
    }

    method RememberFromDisk(r: Request, runtime: Runtime)
      requires Valid() && t == Thread(r, DiskInsert(runtime), [Start(DiskCubin)], false)
      modifies this`disk, this`cache, this`t
      ensures Valid()
      ensures t == Thread(r, Returned(runtime), [Start(DiskCubin), Finish(DiskCubin, true)], false)
    {
      Interfere(r, false);
      ghost var c := cache;
      cache := cache[n.key(r) := runtime];
      Advance(disk, c, Go(t, DiskFinish(runtime)));
      Interfere(r, false);
      Advance(disk, cache, t.(phase := Returned(runtime), events := t.events + [Finish(DiskCubin, true)]));
    }

    /** All three tiers. Whatever the others do, a call that returns has a kernel of its own key (of its
        own request, unless another one in play has that key), leaves its key in the process's map,
        and emits the events of the machine; and it fails only if some operation other than an already
        published target failed. A kernel that is published when the call begins is never compiled
        again: it is found in memory or loaded from disk. And a call that was not answered from memory
        leaves the kernel published. */
    method Build(r: Request, f: Faults) returns (res: Result)
      requires Valid() && t == Thread(r, Prologue, [], false)
      modifies this`disk, this`cache, this`t, log
      ensures Valid() && t.req == r
      ensures res.Ok? ==> && KernelOf(n, play, n.key(r), res.runtime)
                          && n.key(r) in cache && t.phase == Returned(res.runtime)
      ensures res.Ok? && OwnKey(n, play, r) ==> res.runtime == PlainCompile(r)
      ensures res.Raised? ==> t.phase == Threw(res.reason) && Explains(f, res.reason)
      ensures NoFaults(f) ==> res.Ok?
      ensures log.events == old(log.events) + t.events
      ensures n.key(r) in old(cache) ==> (res.Ok? <==> !f.setup) && log.events == old(log.events)
      ensures HasCubin(old(disk), Target(n, r)) && !f.setup && !f.look ==>
                || (res.Ok? && log.events == old(log.events))
                || ((res.Ok? <==> !f.diskLoad) && log.events == old(log.events) + DiskPair(!f.diskLoad))
      ensures res.Ok? ==> log.events == old(log.events) || HasCubin(disk, Target(n, r))
    {
      var ready := SetUp(r, f);
      if !ready {
        return Raised(SetupError);
      }
      res := Answer(r, f);
    }

    /** The three tiers proper. */
    method Answer(r: Request, f: Faults) returns (res: Result)
      requires Valid() && t == Thread(r, CheckMemory, [], false)
      modifies this`disk, this`cache, this`t, log
      ensures Valid() && t.req == r
      ensures res.Ok? ==> t.phase == Returned(res.runtime)
      ensures res.Raised? ==> t.phase == Threw(res.reason) && Explains(f, res.reason)
      ensures NoFaults(f) ==> res.Ok?
      ensures log.events == old(log.events) + t.events
      ensures n.key(r) in old(cache) ==> res.Ok? && log.events == old(log.events)
      ensures n.key(r) !in old(cache) && HasCubin(old(disk), Target(n, r)) && !f.look ==>
                (res.Ok? <==> !f.diskLoad) && log.events == old(log.events) + DiskPair(!f.diskLoad)
    {
      var cached := LoadCachedKernel(r, f);
      match cached {
        case Hit(runtime) => return Ok(runtime);
        case Failed(reason) => return Raised(reason);
        case Miss =>
      }
      res := CompileKernel(r, f);
    }

    /** What precedes the first look into the map; no scope is open yet. */
    method SetUp(r: Request, f: Faults) returns (ok: bool)
      requires Valid() && t == Thread(r, Prologue, [], false)
      modifies this`disk, this`cache, this`t
      ensures Valid() && ok == !f.setup
      ensures t == Thread(r, if ok then CheckMemory else Threw(SetupError), [], false)
      ensures forall k :: k in old(cache) ==> k in cache
      ensures HasCubin(old(disk), Target(n, r)) ==> HasCubin(disk, Target(n, r))
    {
      if f.setup {
        Advance(disk, cache, Go(t, Threw(SetupError)));
        return false;
      }
      Advance(disk, cache, Go(t, CheckMemory));
      Interfere(r, false);
      return true;
    }

    /** The third tier with its event scope. */
    method CompileKernel(r: Request, f: Faults) returns (res: Result)
      requires Valid() && t == Jit(r, ClearTmp)
      modifies this`disk, this`cache, this`t, log
      ensures Valid() && JitEnded(r, res, t) && log.events == old(log.events) + t.events
      ensures res.Raised? ==> Explains(f, res.reason)
      ensures NoFaults(f) ==> res.Ok?
    {
      var scope := new MaterializationScope(log, JitCompile);
      res := Materialize(r, f);
      if res.Ok? {
        scope.FinishSuccess();
      } else {
        scope.Destroy();
      }
    }

    /** The third tier, inside its event scope: everything but the final FINISH. */
    method Materialize(r: Request, f: Faults) returns (res: Result)
      requires Valid() && t == Jit(r, ClearTmp)
      modifies this`disk, this`cache, this`t
      ensures Valid() && JitEnded(r, res, t)
      ensures res.Raised? ==> Explains(f, res.reason)
      ensures NoFaults(f) ==> res.Ok?
    {
      var ready := Prepare(r, f);
      if !ready {
        return Raised(IoError);
      }
      var compiled := RunCompiler(r, f);
      if compiled.Some? {
        return Raised(compiled.value);
      }
      var published := Publish(r, f);
      if published.Some? {
        return Raised(published.value);
      }
      res := LoadBuilt(r, f);
    }

    /** A fresh private directory holding the source text. */
    method Prepare(r: Request, f: Faults) returns (ok: bool)
      requires Valid() && t == Jit(r, ClearTmp)
      modifies this`disk, this`cache, this`t
      ensures Valid() && (ok <==> !f.clear && !f.make && !f.write)
      ensures t == if ok then Jit(r, Compile) else Throw(Jit(r, ClearTmp), IoError, JitCompile)
    {
      Interfere(r, true);
      if f.clear {
        Advance(disk, cache, Throw(t, IoError, JitCompile));
        return false;
      }
      RemovePrivate(r, Jit(r, MakeTmp));
      ok := MakeAndWrite(r, f);
    }

    method MakeAndWrite(r: Request, f: Faults) returns (ok: bool)
      requires Valid() && t == Jit(r, MakeTmp)
      modifies this`disk, this`cache, this`t
      ensures Valid() && (ok <==> !f.make && !f.write)
      ensures t == if ok then Jit(r, Compile) else Throw(Jit(r, ClearTmp), IoError, JitCompile)
    {
      var tmp := Private(n, r, pid);
      Interfere(r, true);
      if f.make {
        Advance(disk, cache, Throw(t, IoError, JitCompile));
        return false;
      }
      ghost var d := disk;
      disk := disk[tmp := EMPTY];
      Advance(d, cache, Jit(r, WriteSource));
      Interfere(r, true);
      if f.write {
        Advance(disk, cache, Throw(t, IoError, JitCompile));
        return false;
      }
      d := disk;
      disk := disk[tmp := disk[tmp].(code := Some(r.code))];
      Advance(d, cache, Jit(r, Compile));
      return true;
    }

    /** The compiler writes its output in stages; a failed compile removes the private directory, while a
        compiler that cannot be started leaves it. */
    method RunCompiler(r: Request, f: Faults) returns (failure: Option<Reason>)
      requires Valid() && t == Jit(r, Compile)
      modifies this`disk, this`cache, this`t
      ensures Valid() && (failure.None? <==> !f.start && !f.compile)
      ensures failure.None? ==> t == Jit(r, Rename)
      ensures failure.Some? ==> JitEnded(r, Raised(failure.value), t) && Explains(f, failure.value)
    {
      var tmp := Private(n, r, pid);
      Interfere(r, true);
      if f.start {
        Advance(disk, cache, Throw(t, IoError, JitCompile));
        return Some(IoError);
      }
      ghost var d := disk;
      disk := disk[tmp := disk[tmp].(cubin := Some(Unfinished))];
      Advance(d, cache, t);
      Interfere(r, true);
      if f.compile {
        Advance(disk, cache, Jit(r, CompileCleanup));
        failure := CleanUpCompile(r, f);
        return;
      }
      d := disk;
      disk := disk[tmp := disk[tmp].(cubin := Some(Complete(Source(r.nvcc, r.flags, disk[tmp].code.value))))];
      Advance(d, cache, Jit(r, Rename));
      return None;
    }

    method CleanUpCompile(r: Request, f: Faults) returns (failure: Option<Reason>)
      requires Valid() && t == Jit(r, CompileCleanup)
      modifies this`disk, this`cache, this`t
      ensures Valid() && failure == Some(if f.cleanup then IoError else CompileError)
      ensures JitEnded(r, Raised(failure.value), t)
    {
      Interfere(r, true);
      if f.cleanup {
        Advance(disk, cache, Throw(t, IoError, JitCompile));
        return Some(IoError);
      }
      RemovePrivate(r, Throw(t, CompileError, JitCompile));
      return Some(CompileError);
    }

    /** The rename, or the discovery that somebody else published first. */
    method Publish(r: Request, f: Faults) returns (failure: Option<Reason>)
      requires Valid() && t == Jit(r, Rename)
      modifies this`disk, this`cache, this`t
      ensures Valid() && t.req == r
      ensures failure.None? ==> t.phase == Load && t.events == [Start(JitCompile)]
      ensures failure.Some? ==> JitEnded(r, Raised(failure.value), t) && Explains(f, failure.value)
      ensures NoFaults(f) ==> failure.None?
    {
      var tmp, target := Private(n, r, pid), Target(n, r);
      Interfere(r, true);
      if f.parent {
        Advance(disk, cache, Throw(t, IoError, JitCompile));
        return Some(IoError);
      }
      ghost var d := disk;
      if !f.rename && (target !in disk || disk[target] == EMPTY) {
        disk := (disk - {tmp})[target := disk[tmp]];
        Advance(d, cache, Jit(r, Load));
        return None;
      }
      Advance(disk, cache, if f.rename then Jit(r, LostCleanup) else t.(phase := LostCleanup, lost := true));
      failure := RecoverFromLoss(r, f);
    }

    method RecoverFromLoss(r: Request, f: Faults) returns (failure: Option<Reason>)
      requires Valid() && t.req == r && t.phase == LostCleanup && (t.lost || f.rename)
      modifies this`disk, this`cache, this`t
      ensures Valid() && t.req == r
      ensures failure.None? ==> t.phase == Load && t.events == [Start(JitCompile)]
      ensures failure.Some? ==> JitEnded(r, Raised(failure.value), t) && Explains(f, failure.value)
      ensures NoFaults(f) ==> failure.None?
    {
      Interfere(r, true);
      if f.cleanup {
        Advance(disk, cache, Throw(t, IoError, JitCompile));
        return Some(IoError);
      }
      RemovePrivate(r, Go(t, LostCheck));
      failure := CheckWinner(r, f);
    }

    method CheckWinner(r: Request, f: Faults) returns (failure: Option<Reason>)
      requires Valid() && t.req == r && t.phase == LostCheck && (t.lost || f.rename)
      modifies this`disk, this`cache, this`t
      ensures Valid() && t.req == r
      ensures failure.None? ==> t.phase == Load && t.events == [Start(JitCompile)]
      ensures failure.Some? ==> failure.value == (if f.relook then IoError else MoveError)
                                && (f.rename || f.relook) && JitEnded(r, Raised(failure.value), t)
    {
      Interfere(r, false);
      if f.relook {
        Advance(disk, cache, Throw(t, IoError, JitCompile));
        return Some(IoError);
      }
      if !HasCubin(disk, Target(n, r)) {
        Advance(disk, cache, Throw(t, MoveError, JitCompile));
        return Some(MoveError);
      }
      Advance(disk, cache, Go(t, Load));
      return None;
    }

    /** Loading the published kernel. */
    method LoadBuilt(r: Request, f: Faults) returns (res: Result)
      requires Valid() && t.req == r && t.phase == Load
      modifies this`disk, this`cache, this`t
      ensures Valid() && JitEnded(r, res, t) && (res.Ok? <==> !f.load)
      ensures res.Raised? ==> res.reason == LoadError
    {
      Interfere(r, false);
      if f.load {
        Advance(disk, cache, Throw(t, LoadError, JitCompile));
        return Raised(LoadError);
      }
      var runtime := Runtime(disk[Target(n, r)].cubin.value);
      Advance(disk, cache, Go(t, Insert(runtime)));
      Remember(r, runtime);
      return Ok(runtime);
    }

    /** The last critical section and the success report. */
    method Remember(r: Request, runtime: Runtime)
      requires Valid() && t.req == r && t.phase == Insert(runtime)
      modifies this`disk, this`cache, this`t
      ensures Valid() && JitEnded(r, Ok(runtime), t)
    {
      Interfere(r, false);
      ghost var c := cache;
      cache := cache[n.key(r) := runtime];
      Advance(disk, c, Go(t, JitFinish(runtime)));
      ReportBuilt(r, runtime);
    }

    method ReportBuilt(r: Request, runtime: Runtime)
      requires Valid() && t == Thread(r, JitFinish(runtime), [Start(JitCompile)], t.lost)
      modifies this`disk, this`cache, this`t
      ensures Valid() && JitEnded(r, Ok(runtime), t)
    {
      Interfere(r, false);
      ghost var next := Thread(r, Returned(runtime), [Start(JitCompile), Finish(JitCompile, true)], t.lost);
      ReportStep(n, pid, r, runtime, t.lost, cache, disk);
      Advance(disk, cache, next);
    }
  }

  /** What a call answered by the second tier reports. */
  function DiskPair(success: bool): seq<Event> { [Start(DiskCubin), Finish(DiskCubin, success)] }

  /** A call in the third tier that has not lost a race. */
  function Jit(r: Request, phase: Phase): Thread { Thread(r, phase, [Start(JitCompile)], false) }

  lemma ReportStep(n: Naming, pid: Pid, r: Request, runtime: Runtime, lost: bool,
                   cache: map<string, Runtime>, disk: Disk)
    ensures ThreadStep(n, pid, Thread(r, JitFinish(runtime), [Start(JitCompile)], lost), cache, disk,
                       Thread(r, Returned(runtime), [Start(JitCompile), Finish(JitCompile, true)], lost), cache, disk)
  {
  }

  /** How a call that went through the third tier ends. */
  ghost predicate JitEnded(r: Request, res: Result, t: Thread) {
    t.req == r && t.events == [Start(JitCompile), Finish(JitCompile, res.Ok?)]
    && t.phase == match res case Ok(runtime) => Returned(runtime) case Raised(reason) => Threw(reason)
  }
}
