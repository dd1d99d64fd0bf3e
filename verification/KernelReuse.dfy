/** Where the cache meets the search: a kernel that two GEMM calls share, for whatever sizes of m, was
    compiled for the launch parameters of both. */
module KernelReuse {
  import opened CacheKey
  import opened KernelCache
  import opened KernelCacheRefinement
  import AttentionSource
  import KernelText
  import GemmSource
  import GemmTypes
  import S90 = Sm90Search
  import Sel90 = Sm90Selection
  import S100 = Sm100Search
  import Sel100 = Sm100Selection

  /** The call of a thread has returned this runtime. */
  predicate ReturnedWith(s: State, pid: Pid, tid: Tid, r: Request, runtime: Runtime) {
    && pid in s.procs && tid in s.procs[pid].threads
    && s.procs[pid].threads[tid].req == r
    && s.procs[pid].threads[tid].phase == Returned(runtime)
  }

  /** A `Runtime` carries the source it was compiled from, so this is about where a kernel came from,
      not about machine code that happens to coincide. */
  lemma SharedRuntimeSharesSource(play: set<Request>, states: seq<State>, labels: seq<Label>, i: nat, j: nat,
                                  pid: Pid, tid: Tid, pid': Pid, tid': Tid, r: Request, q: Request, runtime: Runtime)
    requires NoCollisions(play) && Run(NAMES, play, states, labels) && i < |states| && j < |states|
    requires forall x :: 0 <= x < |states| ==> OneCompilePerKey(NAMES, states[x])
    requires OwnKey(NAMES, play, r) && OwnKey(NAMES, play, q)
    requires ReturnedWith(states[i], pid, tid, r, runtime) && ReturnedWith(states[j], pid', tid', q, runtime)
    ensures r.nvcc == q.nvcc && r.flags == q.flags && r.code == q.code
  {
    CallsReturnOwnKernel(play, states, labels, i, pid, tid);
    CallsReturnOwnKernel(play, states, labels, j, pid', tid');
    assert runtime == PlainCompile(r) && runtime == PlainCompile(q);
  }

  /** Compute capability 9: in any run, at any two moments, in any processes, and through any tier, two
      calls that hold the same kernel would launch it with the same threads, cluster, stages and
      shared memory. */
  lemma Sm90SharedKernelFitsBoth(play: set<Request>, states: seq<State>, labels: seq<Label>, i: nat, j: nat,
                                 pid: Pid, tid: Tid, pid': Pid, tid': Tid, r: Request, q: Request, runtime: Runtime,
                                 f: GemmSource.Frame, m: int, n: int, k: int, s: int, l: GemmTypes.GemmLayout,
                                 m': int, n': int, k': int, s': int, l': GemmTypes.GemmLayout)
    requires NoCollisions(play) && Run(NAMES, play, states, labels) && i < |states| && j < |states|
    requires forall x :: 0 <= x < |states| ==> OneCompilePerKey(NAMES, states[x])
    requires OwnKey(NAMES, play, r) && OwnKey(NAMES, play, q)
    requires ReturnedWith(states[i], pid, tid, r, runtime) && ReturnedWith(states[j], pid', tid', q, runtime)
    requires l in S90.Candidates(m, k, s) && l' in S90.Candidates(m', k', s')
    requires GemmTypes.PositiveBlocks(l) && S90.Storage(l).Some?
    requires GemmTypes.PositiveBlocks(l') && S90.Storage(l').Some?
    requires r.code == GemmSource.Sm90Text(f, n, k, Sel90.ConfigFor(k, l), s)
    requires q.code == GemmSource.Sm90Text(f, n', k', Sel90.ConfigFor(k', l'), s')
    ensures n == n' && k == k' && s == s' && Sel90.ConfigFor(k, l) == Sel90.ConfigFor(k', l')
  {
    SharedRuntimeSharesSource(play, states, labels, i, j, pid, tid, pid', tid', r, q, runtime);
    GemmSource.Sm90SourceDeterminesLaunch(f, m, n, k, s, l, m', n', k', s', l');
  }

  /** Compute capability 10, likewise. */
  lemma Sm100SharedKernelFitsBoth(play: set<Request>, states: seq<State>, labels: seq<Label>, i: nat, j: nat,
                                  pid: Pid, tid: Tid, pid': Pid, tid': Tid, r: Request, q: Request, runtime: Runtime,
                                  f: GemmSource.Frame,
                                  m: int, n: int, k: int, s: int, a: int, b: int, l: GemmTypes.GemmLayout,
                                  m': int, n': int, k': int, s': int, a': int, b': int, l': GemmTypes.GemmLayout)
    requires NoCollisions(play) && Run(NAMES, play, states, labels) && i < |states| && j < |states|
    requires forall x :: 0 <= x < |states| ==> OneCompilePerKey(NAMES, states[x])
    requires OwnKey(NAMES, play, r) && OwnKey(NAMES, play, q)
    requires ReturnedWith(states[i], pid, tid, r, runtime) && ReturnedWith(states[j], pid', tid', q, runtime)
    requires l in S100.Candidates(m, n, k, s) && l' in S100.Candidates(m', n', k', s')
    requires Sel100.Usable(l) && Sel100.Usable(l')
    requires r.code == GemmSource.Sm100Text(f, n, k, a, b, Sel100.ConfigFor(l, S100.Storage(l).value), s)
    requires q.code == GemmSource.Sm100Text(f, n', k', a', b', Sel100.ConfigFor(l', S100.Storage(l').value), s')
    ensures n == n' && k == k' && a == a' && b == b' && s == s'
    ensures Sel100.ConfigFor(l, S100.Storage(l).value) == Sel100.ConfigFor(l', S100.Storage(l').value)
  {
    SharedRuntimeSharesSource(play, states, labels, i, j, pid, tid, pid', tid', r, q, runtime);
    GemmSource.Sm100SourceDeterminesLaunch(f, m, n, k, s, a, b, l, m', n', k', s', a', b', l');
  }

  /** The attention kernels: calls that hold the same kernel ask for the same one, and launch it with
      the same threads, and the same shared memory unless it computes the metadata of compute
      capability 10. */
  lemma AttentionSharedKernelFitsBoth(play: set<Request>, states: seq<State>, labels: seq<Label>, i: nat, j: nat,
                                      pid: Pid, tid: Tid, pid': Pid, tid': Tid, r: Request, q: Request,
                                      runtime: Runtime, f: KernelText.Frame,
                                      c: AttentionSource.Call, d: AttentionSource.Call)
    requires NoCollisions(play) && Run(NAMES, play, states, labels) && i < |states| && j < |states|
    requires forall x :: 0 <= x < |states| ==> OneCompilePerKey(NAMES, states[x])
    requires OwnKey(NAMES, play, r) && OwnKey(NAMES, play, q)
    requires ReturnedWith(states[i], pid, tid, r, runtime) && ReturnedWith(states[j], pid', tid', q, runtime)
    requires AttentionSource.Accepted(c) && AttentionSource.Accepted(d)
    requires r.code == AttentionSource.Text(f, c) && q.code == AttentionSource.Text(f, d)
    ensures AttentionSource.Printed(c) == AttentionSource.Printed(d)
    ensures var l, l' := AttentionSource.LaunchOf(c), AttentionSource.LaunchOf(d);
            l.threads == l'.threads && (c.Sm100Metadata? || l.smemSize == l'.smemSize)
  {
    SharedRuntimeSharesSource(play, states, labels, i, j, pid, tid, pid', tid', r, q, runtime);
    AttentionSource.TextDeterminesPrinted(f, c, d);
    AttentionSource.TextDeterminesLaunch(f, c, d);
  }
}
