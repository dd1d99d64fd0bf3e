/** The cached builder implements the uncached one: seen from its callers, every run is a run of a
    system that compiles on every call. Also the event discipline of single calls, the fate of
    builders that lose the publication race, and a run showing why one compile per key and process
    is a premise. */
module KernelCacheRefinement {
  import opened CacheKey
  import opened KernelCache
  import opened KernelCacheSafety
  import opened Wrappers

  /** A call as its caller sees it. */
  datatype Outcome = Pending(req: Request) | Done(req: Request, runtime: Runtime) | Failed(req: Request)

  type Abstract = map<Pid, map<Tid, Outcome>>

  function OutcomeOf(t: Thread): Outcome {
    match t.phase
    case Returned(rt) => Done(t.req, rt)
    case Threw(_) => Failed(t.req)
    case _ => Pending(t.req)
  }

  function View(s: State): Abstract {
    map pid | pid in s.procs :: map tid | tid in s.procs[pid].threads :: OutcomeOf(s.procs[pid].threads[tid])
  }

  /** Moves of the specification: no memory map, no disk. A pending call ends with the runtime that
      compiling a request of its key produces, or fails; where no other request in play has the key,
      that is its own request. */
  datatype Move =
    | Idle
    | Appear(pid: Pid)
    | Vanish(pid: Pid)
    | Begin(pid: Pid, tid: Tid, req: Request)
    | Succeed(pid: Pid, tid: Tid, runtime: Runtime)
    | Fail(pid: Pid, tid: Tid)

  predicate IsPending(a: Abstract, pid: Pid, tid: Tid) {
    pid in a && tid in a[pid] && a[pid][tid].Pending?
  }

  function Put(a: Abstract, pid: Pid, tid: Tid, o: Outcome): Abstract
    requires pid in a
  {
    a[pid := a[pid][tid := o]]
  }

  predicate PlainNext(n: Naming, play: set<Request>, a: Abstract, m: Move, a': Abstract) {
    match m
    case Idle => a' == a
    case Appear(pid) => pid !in a && a' == a[pid := map[]]
    case Vanish(pid) => pid in a && a' == a - {pid}
    case Begin(pid, tid, req) =>
      pid in a && req in play && !IsPending(a, pid, tid) && a' == Put(a, pid, tid, Pending(req))
    case Succeed(pid, tid, runtime) =>
      && IsPending(a, pid, tid) && a' == Put(a, pid, tid, Done(a[pid][tid].req, runtime))
      && KernelOf(n, play, n.key(a[pid][tid].req), runtime)
      && (OwnKey(n, play, a[pid][tid].req) ==> runtime == PlainCompile(a[pid][tid].req))
    case Fail(pid, tid) =>
      IsPending(a, pid, tid) && a' == Put(a, pid, tid, Failed(a[pid][tid].req))
  }

  /** The move of the specification that a transition amounts to. */
  function MoveOf(s: State, l: Label, s': State): Move {
    match l
    case Spawn(pid) => Appear(pid)
    case Crash(pid) => Vanish(pid)
    case Call(pid, tid, req) => Begin(pid, tid, req)
    case Step(pid, tid) =>
      if pid in s'.procs && tid in s'.procs[pid].threads then
        match s'.procs[pid].threads[tid].phase
        case Returned(runtime) => Succeed(pid, tid, runtime)
        case Threw(_) => Fail(pid, tid)
        case _ => Idle
      else Idle
  }

  /** Replacing one thread replaces one outcome. */
  lemma ViewOfUpdate(s: State, pid: Pid, tid: Tid, p': Process, disk': Disk)
    requires pid in s.procs && tid in p'.threads
    requires p'.threads == s.procs[pid].threads[tid := p'.threads[tid]]
    ensures View(State(disk', s.procs[pid := p'])) == Put(View(s), pid, tid, OutcomeOf(p'.threads[tid]))
  {
    var s' := State(disk', s.procs[pid := p']);
    assert View(s')[pid] == View(s)[pid][tid := OutcomeOf(p'.threads[tid])];
  }

  lemma StepOutcome(n: Naming, play: set<Request>, pid: Pid, t: Thread, cache: map<string, Runtime>, disk: Disk,
                    t': Thread, cache': map<string, Runtime>, disk': Disk)
    requires ThreadStep(n, pid, t, cache, disk, t', cache', disk')
    requires ThreadOk(n, play, pid, t', cache', disk')
    ensures OutcomeOf(t) == Pending(t.req)
    ensures t'.phase.Returned? ==> && OutcomeOf(t') == Done(t.req, t'.phase.runtime)
                                   && KernelOf(n, play, n.key(t.req), t'.phase.runtime)
    ensures t'.phase.Threw? ==> OutcomeOf(t') == Failed(t.req)
    ensures !Ended(t') ==> OutcomeOf(t') == OutcomeOf(t)
  {
    StepConfined(n, pid, t, cache, disk, t', cache', disk');
  }

  lemma StepRefines(n: Naming, play: set<Request>, s: State, pid: Pid, tid: Tid, s': State)
    requires Inv(n, play, s') && Next(n, play, s, Step(pid, tid), s')
    ensures PlainNext(n, play, View(s), MoveOf(s, Step(pid, tid), s'), View(s'))
  {
    var p, p' := s.procs[pid], s'.procs[pid];
    var t, t' := p.threads[tid], p'.threads[tid];
    assert ThreadOk(n, play, pid, t', p'.cache, s'.disk) by {
      assert ProcessOk(n, play, pid, p', s'.disk);
    }
    StepOutcome(n, play, pid, t, p.cache, s.disk, t', p'.cache, s'.disk);
    ViewOfUpdate(s, pid, tid, p', s'.disk);
    assert s' == State(s'.disk, s.procs[pid := p']);
    var a := View(s);
    assert a[pid][tid] == Pending(t.req);
    if !Ended(t') {
      assert a[pid][tid := a[pid][tid]] == a[pid];
      assert Put(a, pid, tid, a[pid][tid]) == a;
    }
  }

  /** Every transition of the cached system is a move of the uncached one, or invisible. */
  lemma NextRefines(n: Naming, play: set<Request>, s: State, l: Label, s': State)
    requires Inv(n, play, s') && Next(n, play, s, l, s')
    ensures PlainNext(n, play, View(s), MoveOf(s, l, s'), View(s'))
  {
    match l {
      case Step(pid, tid) => StepRefines(n, play, s, pid, tid, s');
      case Spawn(pid) => assert View(s') == View(s)[pid := map[]];
      case Crash(pid) => assert View(s') == View(s) - {pid};
      case Call(pid, tid, req) =>
        ViewOfUpdate(s, pid, tid, s'.procs[pid], s.disk);
        assert s' == State(s.disk, s.procs[pid := s'.procs[pid]]);
        assert s'.procs[pid].threads[tid] == Thread(req, Prologue, [], false);
    }
  }

  /** Three tiers refine compiling every time, over whole runs. */
  lemma RunRefines(play: set<Request>, states: seq<State>, labels: seq<Label>)
    requires NoCollisions(play) && Run(NAMES, play, states, labels)
    requires forall k :: 0 <= k < |states| ==> OneCompilePerKey(NAMES, states[k])
    ensures View(states[0]) == map[]
    ensures forall i :: 0 <= i < |labels| ==> RefinedAt(NAMES, play, states, labels, i)
  {
    NamesDistinct(play);
    forall i | 0 <= i < |labels|
      ensures RefinedAt(NAMES, play, states, labels, i)
    {
      RunRefinesAt(NAMES, play, states, labels, i);
    }
  }

  ghost predicate RefinedAt(n: Naming, play: set<Request>, states: seq<State>, labels: seq<Label>, i: int)
    requires |states| == |labels| + 1 && 0 <= i < |labels|
  {
    PlainNext(n, play, View(states[i]), MoveOf(states[i], labels[i], states[i + 1]), View(states[i + 1]))
  }

  lemma RunRefinesAt(n: Naming, play: set<Request>, states: seq<State>, labels: seq<Label>, i: int)
    requires Distinct(n, play) && Run(n, play, states, labels) && 0 <= i < |labels|
    requires forall k :: 0 <= k < |states| ==> OneCompilePerKey(n, states[k])
    ensures RefinedAt(n, play, states, labels, i)
  {
    RunsSafe(n, play, states, labels, i + 1);
    NextRefines(n, play, states[i], labels[i], states[i + 1]);
  }

  /** Whichever tier answered, a call that returned holds a runtime loaded from the compiler output
      for a request of its own key, and so does every entry of every process's kernel map: for the
      request itself, unless another one in play has the same key. */
  lemma CallsReturnOwnKernel(play: set<Request>, states: seq<State>, labels: seq<Label>, i: nat, pid: Pid, tid: Tid)
    requires NoCollisions(play) && Run(NAMES, play, states, labels) && i < |states|
    requires forall k :: 0 <= k < |states| ==> OneCompilePerKey(NAMES, states[k])
    requires pid in states[i].procs && tid in states[i].procs[pid].threads
    ensures var t := states[i].procs[pid].threads[tid];
            t.phase.Returned? ==> && KernelOf(NAMES, play, NAMES.key(t.req), t.phase.runtime)
                                  && (OwnKey(NAMES, play, t.req) ==> t.phase.runtime == PlainCompile(t.req))
    ensures forall k :: k in states[i].procs[pid].cache ==> KernelOf(NAMES, play, k, states[i].procs[pid].cache[k])
  {
    NamesDistinct(play);
    RunsSafe(NAMES, play, states, labels, i);
    var p := states[i].procs[pid];
    assert ProcessOk(NAMES, play, pid, p, states[i].disk);
    assert ThreadOk(NAMES, play, pid, p.threads[tid], p.cache, states[i].disk);
  }

  predicate FinishedWith(events: seq<Event>, success: bool) {
    Finish(DiskCubin, success) in events || Finish(JitCompile, success) in events
  }

  predicate StartFinishPair(events: seq<Event>) {
    |events| == 2 && events[0].Start? && events[1].Finish? && events[0].origin == events[1].origin
  }

  /** Event discipline of one call: nothing, or one START/FINISH pair of one origin, complete exactly
      when the call has ended; failure is reported exactly when a scope was opened and the call threw,
      which only a failing prologue or existence test does without one; success is reported exactly when
      a scope was opened and the call returned, and only once the key is in the process's kernel map. */
  ghost predicate Disciplined(n: Naming, t: Thread, cache: map<string, Runtime>) {
    && (Ended(t) ==> t.events == [] || StartFinishPair(t.events))
    && (!Ended(t) ==> |t.events| <= 1 && !FinishedWith(t.events, true) && !FinishedWith(t.events, false))
    && (FinishedWith(t.events, false) <==> t.events != [] && t.phase.Threw?)
    && (FinishedWith(t.events, true) <==> t.events != [] && t.phase.Returned?)
    && (t.phase.Returned? ==> n.key(t.req) in cache)
    && (t.phase.Threw? && t.events == [] ==> t.phase.reason == SetupError || t.phase.reason == IoError)
  }

  /** What one process needs to remember for the discipline: no premise on names or on others. */
  predicate Accounted(n: Naming, t: Thread, cache: map<string, Runtime>) {
    && EventsOk(t) && LostOk(t)
    && (t.phase.DiskFinish? || t.phase.JitFinish? || t.phase.Returned? ==> n.key(t.req) in cache)
  }

  lemma AccountedIsDisciplined(n: Naming, t: Thread, cache: map<string, Runtime>)
    requires Accounted(n, t, cache)
    ensures Disciplined(n, t, cache)
  {
  }

  lemma StepKeepsAccount(n: Naming, pid: Pid, t: Thread, cache: map<string, Runtime>, disk: Disk,
                         t': Thread, cache': map<string, Runtime>, disk': Disk)
    requires Accounted(n, t, cache) && ThreadStep(n, pid, t, cache, disk, t', cache', disk')
    ensures Accounted(n, t', cache') && forall k :: k in cache ==> k in cache'
  {
    OwnStepEvents(n, pid, t, cache, disk, t', cache', disk');
    StepConfined(n, pid, t, cache, disk, t', cache', disk');
  }

  ghost predicate AllAccounted(n: Naming, s: State) {
    forall pid, tid :: pid in s.procs && tid in s.procs[pid].threads ==>
      Accounted(n, s.procs[pid].threads[tid], s.procs[pid].cache)
  }

  lemma AccountInductive(n: Naming, play: set<Request>, s: State, l: Label, s': State)
    requires AllAccounted(n, s) && Next(n, play, s, l, s')
    ensures AllAccounted(n, s')
  {
    if l.Step? {
      var p, p' := s.procs[l.pid], s'.procs[l.pid];
      StepKeepsAccount(n, l.pid, p.threads[l.tid], p.cache, s.disk, p'.threads[l.tid], p'.cache, s'.disk);
    }
  }

  lemma {:induction false} RunsAccount(n: Naming, play: set<Request>, states: seq<State>, labels: seq<Label>, i: nat)
    requires Run(n, play, states, labels) && i < |states|
    ensures AllAccounted(n, states[i])
  {
    if i > 0 {
      RunsAccount(n, play, states, labels, i - 1);
      assert Next(n, play, states[i - 1], labels[i - 1], states[i - 1 + 1]);
      AccountInductive(n, play, states[i - 1], labels[i - 1], states[i]);
    }
  }

  /** Every call in every run follows the event discipline: whatever the names, colliding or not, and
      however many compiles of one key are in flight. And a call whose lookup finds its key in memory
      returns in that step, without an event and without looking at the disk. */
  lemma EventDiscipline(n: Naming, play: set<Request>, states: seq<State>, labels: seq<Label>, i: nat,
                        pid: Pid, tid: Tid)
    requires Run(n, play, states, labels) && i < |states|
    requires pid in states[i].procs && tid in states[i].procs[pid].threads
    ensures Disciplined(n, states[i].procs[pid].threads[tid], states[i].procs[pid].cache)
    ensures var p := states[i].procs[pid];
            i < |labels| && labels[i] == Step(pid, tid) && p.threads[tid].phase == CheckMemory ==>
              && pid in states[i + 1].procs && tid in states[i + 1].procs[pid].threads
              && states[i + 1].disk == states[i].disk
              && var t := states[i + 1].procs[pid].threads[tid];
                 t.events == [] && (t.phase.Returned? <==> n.key(p.threads[tid].req) in p.cache)
  {
    RunsAccount(n, play, states, labels, i);
    var p := states[i].procs[pid];
    AccountedIsDisciplined(n, p.threads[tid], p.cache);
    if i < |labels| && labels[i] == Step(pid, tid) && p.threads[tid].phase == CheckMemory {
      assert Next(n, play, states[i], labels[i], states[i + 1]);
    }
  }

  /** A builder whose compile succeeded and whose rename failed because the target exists never fails
      with a move error: unless a load or a cleanup fails it ends with a kernel of its key. */
  lemma LostBuilderStillSucceeds(play: set<Request>, states: seq<State>, labels: seq<Label>, i: nat, pid: Pid, tid: Tid)
    requires NoCollisions(play) && Run(NAMES, play, states, labels) && i < |states|
    requires forall k :: 0 <= k < |states| ==> OneCompilePerKey(NAMES, states[k])
    requires pid in states[i].procs && tid in states[i].procs[pid].threads
    requires states[i].procs[pid].threads[tid].lost
    ensures var t, target := states[i].procs[pid].threads[tid], Target(NAMES, states[i].procs[pid].threads[tid].req);
            && t.phase != Threw(MoveError) && t.phase != Threw(CompileError)
            && (t.phase.Returned? ==> KernelOf(NAMES, play, NAMES.key(t.req), t.phase.runtime))
            && (t.phase.Returned? && OwnKey(NAMES, play, t.req) ==> t.phase.runtime == PlainCompile(t.req))
            && (t.phase.LostCheck? || t.phase.Load? ==>
                  && HasCubin(states[i].disk, target)
                  && KernelOf(NAMES, play, NAMES.key(t.req), Runtime(states[i].disk[target].cubin.value)))
  {
    NamesDistinct(play);
    RunsSafe(NAMES, play, states, labels, i);
    var p, disk := states[i].procs[pid], states[i].disk;
    var t := p.threads[tid];
    assert ThreadOk(NAMES, play, pid, t, p.cache, disk);
    if t.phase.LostCheck? || t.phase.Load? {
      assert FiledAt(NAMES, play, Target(NAMES, t.req), disk[Target(NAMES, t.req)]);
      FiledIsGood(NAMES, play, disk, t.req);
    }
  }

  /** Two threads of process 1 building the same request, at given program points. */
  function TwoThreads(disk: Disk, r: Request, a: Phase, b: Phase): State {
    State(disk, map[1 := Process(map[], map[1 := AtPhase(r, a), 2 := AtPhase(r, b)])])
  }

  function AtPhase(r: Request, phase: Phase): Thread {
    var events := if phase.Prologue? || phase.CheckMemory? || phase.CheckDisk? then [] else [Start(JitCompile)];
    Thread(r, phase, events, false)
  }

  lemma FirstMoves(n: Naming, r: Request, disk: Disk, disk': Disk, a: Phase, a': Phase, b: Phase)
    requires ThreadStep(n, 1, AtPhase(r, a), map[], disk, AtPhase(r, a'), map[], disk')
    ensures Next(n, {r}, TwoThreads(disk, r, a, b), Step(1, 1), TwoThreads(disk', r, a', b))
  {
    var p, p' := TwoThreads(disk, r, a, b).procs[1], TwoThreads(disk', r, a', b).procs[1];
    assert p'.threads == p.threads[1 := p'.threads[1]];
    assert TwoThreads(disk', r, a', b).procs == TwoThreads(disk, r, a, b).procs[1 := p'];
  }

  lemma SecondMoves(n: Naming, r: Request, disk: Disk, disk': Disk, a: Phase, b: Phase, b': Phase)
    requires ThreadStep(n, 1, AtPhase(r, b), map[], disk, AtPhase(r, b'), map[], disk')
    ensures Next(n, {r}, TwoThreads(disk, r, a, b), Step(1, 2), TwoThreads(disk', r, a, b'))
  {
    var p, p' := TwoThreads(disk, r, a, b).procs[1], TwoThreads(disk', r, a, b').procs[1];
    assert p'.threads == p.threads[2 := p'.threads[2]];
    assert TwoThreads(disk', r, a, b').procs == TwoThreads(disk, r, a, b).procs[1 := p'];
  }

  ghost predicate Reaches(n: Naming, play: set<Request>, s: State) {
    exists states, labels :: Run(n, play, states, labels) && states[|labels|] == s
  }

  lemma ReachesThen(n: Naming, play: set<Request>, s: State, l: Label, s': State)
    requires Reaches(n, play, s) && Next(n, play, s, l, s')
    ensures Reaches(n, play, s')
  {
    var states, labels :| Run(n, play, states, labels) && states[|labels|] == s;
    var more, ls := states + [s'], labels + [l];
    assert Run(n, play, more, ls) by {
      forall i | 0 <= i < |ls| ensures Next(n, play, more[i], ls[i], more[i + 1]) {
        if i < |labels| { assert Next(n, play, states[i], labels[i], states[i + 1]); }
      }
    }
    assert more[|ls|] == s';
  }

  lemma ReachesTwoThreads(n: Naming, r: Request)
    ensures Reaches(n, {r}, TwoThreads(map[], r, Prologue, Prologue))
  {
    var s0 := State(map[], map[]);
    var none: seq<Label> := [];
    assert Run(n, {r}, [s0], none) && [s0][|none|] == s0;
    var s1 := State(map[], map[1 := Process(map[], map[])]);
    ReachesThen(n, {r}, s0, Spawn(1), s1);
    var t := Thread(r, Prologue, [], false);
    var s2 := State(map[], map[1 := Process(map[], map[1 := t])]);
    assert s2.procs == s1.procs[1 := Process(map[], map[1 := t])];
    ReachesThen(n, {r}, s1, Call(1, 1, r), s2);
    var s3 := TwoThreads(map[], r, Prologue, Prologue);
    assert s3.procs[1].threads == s2.procs[1].threads[2 := t];
    assert s3.procs == s2.procs[1 := s3.procs[1]];
    ReachesThen(n, {r}, s2, Call(1, 2, r), s3);
  }

  lemma ReachFirst(n: Naming, r: Request, disk: Disk, disk': Disk, a: Phase, a': Phase, b: Phase)
    requires Reaches(n, {r}, TwoThreads(disk, r, a, b))
    requires ThreadStep(n, 1, AtPhase(r, a), map[], disk, AtPhase(r, a'), map[], disk')
    ensures Reaches(n, {r}, TwoThreads(disk', r, a', b))
  {
    FirstMoves(n, r, disk, disk', a, a', b);
    ReachesThen(n, {r}, TwoThreads(disk, r, a, b), Step(1, 1), TwoThreads(disk', r, a', b));
  }

  lemma ReachSecond(n: Naming, r: Request, disk: Disk, disk': Disk, a: Phase, b: Phase, b': Phase)
    requires Reaches(n, {r}, TwoThreads(disk, r, a, b))
    requires ThreadStep(n, 1, AtPhase(r, b), map[], disk, AtPhase(r, b'), map[], disk')
    ensures Reaches(n, {r}, TwoThreads(disk', r, a, b'))
  {
    SecondMoves(n, r, disk, disk', a, b, b');
    ReachesThen(n, {r}, TwoThreads(disk, r, a, b), Step(1, 2), TwoThreads(disk', r, a, b'));
  }

  /** The same step taken first by one thread and then by the other. */
  lemma ReachBoth(n: Naming, r: Request, disk: Disk, disk': Disk, a: Phase, b: Phase)
    requires Reaches(n, {r}, TwoThreads(disk, r, a, a))
    requires ThreadStep(n, 1, AtPhase(r, a), map[], disk, AtPhase(r, b), map[], disk')
    requires ThreadStep(n, 1, AtPhase(r, a), map[], disk', AtPhase(r, b), map[], disk')
    ensures Reaches(n, {r}, TwoThreads(disk', r, b, b))
  {
    ReachFirst(n, r, disk, disk', a, b, a);
    ReachSecond(n, r, disk', disk', b, a, b);
  }

  lemma ReachBothMaking(n: Naming, r: Request)
    ensures Reaches(n, {r}, TwoThreads(map[], r, MakeTmp, MakeTmp))
  {
    ReachesTwoThreads(n, r);
    ReachBoth(n, r, map[], map[], Prologue, CheckMemory);
    ReachBoth(n, r, map[], map[], CheckMemory, CheckDisk);
    ReachBoth(n, r, map[], map[], CheckDisk, ClearTmp);
    ReachBoth(n, r, map[], map[], ClearTmp, MakeTmp);
  }

  lemma ReachBothCompiling(n: Naming, r: Request)
    ensures Reaches(n, {r}, TwoThreads(map[Private(n, r, 1) := Dir(Some(r.code), None)], r, Compile, Compile))
  {
    var tmp := Private(n, r, 1);
    var made: Disk := map[tmp := EMPTY];
    var written: Disk := map[tmp := Dir(Some(r.code), None)];
    ReachBothMaking(n, r);
    ReachFirst(n, r, map[], made, MakeTmp, WriteSource, MakeTmp);
    ReachSecond(n, r, made, made, WriteSource, MakeTmp, WriteSource);
    assert written == made[tmp := made[tmp].(code := Some(r.code))];
    assert written == written[tmp := written[tmp].(code := Some(r.code))];
    ReachBoth(n, r, made, written, WriteSource, Compile);
  }

  /** Without the premise the cache is unsafe for any naming and any request: while one thread is
      about to publish its finished build, the other restarts the compiler in the same private
      directory, and an unfinished cubin becomes visible under the published name. */
  lemma SharedPrivateDirectoryIsUnsafe(n: Naming, r: Request)
    ensures exists s :: Reaches(n, {r}, s) && Target(n, r) in s.disk
                        && s.disk[Target(n, r)].cubin == Some(Unfinished)
  {
    var tmp, goal := Private(n, r, 1), Target(n, r);
    var written: Disk := map[tmp := Dir(Some(r.code), None)];
    var finished: Disk := map[tmp := Built(r)];
    var restarted: Disk := map[tmp := Dir(Some(r.code), Some(Unfinished))];
    var published: Disk := map[goal := Dir(Some(r.code), Some(Unfinished))];
    ReachBothCompiling(n, r);
    assert finished == written[tmp := written[tmp].(cubin := Some(Complete(SourceOf(r))))];
    ReachFirst(n, r, written, finished, Compile, Rename, Compile);
    assert restarted == finished[tmp := finished[tmp].(cubin := Some(Unfinished))];
    ReachSecond(n, r, finished, restarted, Rename, Compile, Compile);
    assert published == (restarted - {tmp})[goal := restarted[tmp]];
    ReachFirst(n, r, restarted, published, Rename, Load, Compile);
  }

  predicate UnfinishedAt(disk: Disk, p: Path) { p in disk && disk[p].cubin == Some(Unfinished) }

  /** Two threads of one process hold one private directory, a finished build is in it, and the first
      is about to publish. */
  predicate SharesFinishedBuild(n: Naming, s: State, pid: Pid, a: Tid, b: Tid) {
    && pid in s.procs && a in s.procs[pid].threads && b in s.procs[pid].threads && a != b
    && s.procs[pid].threads[a].phase == Rename
    && var r, q := s.procs[pid].threads[a].req, s.procs[pid].threads[b].req;
       && Private(n, r, pid) == Private(n, q, pid)
       && Private(n, r, pid) in s.disk && s.disk[Private(n, r, pid)].cubin.Some?
       && s.disk[Private(n, r, pid)].cubin.value.Complete?
       && (Target(n, r) in s.disk ==> s.disk[Target(n, r)] == EMPTY)
  }

  ghost predicate PublishesUnfinished(n: Naming, play: set<Request>, s: State, pid: Pid, a: Tid, b: Tid)
    requires pid in s.procs && a in s.procs[pid].threads
  {
    exists s1, s2 :: Next(n, play, s, Step(pid, b), s1) && Next(n, play, s1, Step(pid, a), s2)
                     && UnfinishedAt(s2.disk, Target(n, s.procs[pid].threads[a].req))
  }

  lemma OnlyCompileUnfinishes(n: Naming, pid: Pid, t: Thread, cache: map<string, Runtime>, disk: Disk,
                              t': Thread, cache': map<string, Runtime>, disk': Disk, p: Path)
    requires ThreadStep(n, pid, t, cache, disk, t', cache', disk') && t.phase != Compile
    requires UnfinishedAt(disk', p) && !UnfinishedAt(disk, p)
    ensures t.phase == Rename && UnfinishedAt(disk, Private(n, t.req, pid))
  {
  }

  lemma CompilePublishesUnfinished(n: Naming, play: set<Request>, s: State, pid: Pid, a: Tid, b: Tid)
    requires SharesFinishedBuild(n, s, pid, a, b) && s.procs[pid].threads[b].phase == Compile
    ensures PublishesUnfinished(n, play, s, pid, a, b)
  {
    var p := s.procs[pid];
    var t, u := p.threads[a], p.threads[b];
    var tmp, goal := Private(n, t.req, pid), Target(n, t.req);
    var disk1 := s.disk[tmp := s.disk[tmp].(cubin := Some(Unfinished))];
    var disk2 := (disk1 - {tmp})[goal := disk1[tmp]];
    var s1 := State(disk1, s.procs);
    var s2 := State(disk2, s.procs[pid := p.(threads := p.threads[a := Go(t, Load)])]);
    assert p.threads == p.threads[b := u] && s.procs == s.procs[pid := p];
    assert Next(n, play, s, Step(pid, b), s1);
    assert Next(n, play, s1, Step(pid, a), s2);
  }

  /** From there the other thread's next step lets an unfinished cubin be published exactly when that
      thread is in the compiler. */
  lemma UnfinishedExactlyBesideCompile(n: Naming, play: set<Request>, s: State, pid: Pid, a: Tid, b: Tid)
    requires SharesFinishedBuild(n, s, pid, a, b)
    ensures PublishesUnfinished(n, play, s, pid, a, b) <==> s.procs[pid].threads[b].phase == Compile
  {
    var p := s.procs[pid];
    var t, u := p.threads[a], p.threads[b];
    var tmp, goal := Private(n, t.req, pid), Target(n, t.req);
    if u.phase == Compile {
      CompilePublishesUnfinished(n, play, s, pid, a, b);
    } else if PublishesUnfinished(n, play, s, pid, a, b) {
      var s1, s2 :| Next(n, play, s, Step(pid, b), s1) && Next(n, play, s1, Step(pid, a), s2)
                    && UnfinishedAt(s2.disk, goal);
      var p1, p2 := s1.procs[pid], s2.procs[pid];
      assert p1.threads[a] == t;
      if UnfinishedAt(s1.disk, goal) {
        OnlyCompileUnfinishes(n, pid, u, p.cache, s.disk, p1.threads[b], p1.cache, s1.disk, goal);
      } else {
        OnlyCompileUnfinishes(n, pid, t, p1.cache, s1.disk, p2.threads[a], p2.cache, s2.disk, goal);
        OnlyCompileUnfinishes(n, pid, u, p.cache, s.disk, p1.threads[b], p1.cache, s1.disk, tmp);
      }
      assert false;
    }
  }
}
