# Verification of the DeepGEMM host side

DeepGEMM binds GPU kernels; the code verified here is what runs around them on the host, and the two
small kernels whose source the host embeds. Six parts are modelled:

- **The JIT kernel cache.** `build_kernel` looks in a process-wide map, then in a directory shared by
  all processes, and otherwise compiles into a private directory and publishes it by renaming.
  `KernelCache` is the protocol as a state machine over one shared disk, with any number of processes
  and threads, crashes and reused process ids. A rename onto a non-empty directory fails, as
  `rename()` in IEEE Std 1003.1-2017 requires. `KernelCacheSafety` proves the invariant,
  `KernelCacheRefinement` that the tiers refine compiling every time, and `BuildKernel` proves the
  imperative code against the same machine with arbitrary interference between its steps.
  `CompilerConfig` does the same for the remembered compiler configuration. Below it lie the texts the
  protocol depends on: `TextTemplate` (printed numbers), `Fnv` (hash and hex), `CacheKey` (keys and
  directory names), `ShellText` (quoting and the compile command).
- **The GEMM configuration search.** `GemmTypes`, `Sm90Search`, `Sm90Selection`, `Sm100Search`,
  `Sm100Selection`: enumeration, pipeline sizing, the cost fold and the comparator fold. Costs are exact
  reals, infinity apart. `Sm90Reference` and `Sm100Reference` say in plain numbers, without any function
  of the search but its lexicographic order of ranks, what is considered, what its memory holds, what it
  costs and what is chosen.
- **Generated kernel source.** `GemmSource` shows that the source text determines the launch,
  `AttentionSource` what the texts of the attention kernels determine, and `KernelReuse` draws the
  conclusions for kernels shared through the cache. `KernelText` is a reader of header, function and
  template arguments; `GemmReading` and `AttentionReading` prove that it finds what the launch needs.
- **The broadcast kernels.** `ScaleIndexing`, `ScaleKernels`, `PackKernel`, `ScaleBits`: threads write
  one output array in an arbitrary order. Encodings are binary32 (section 3.4 of IEEE 754-2019) and
  E8M0 (section 5.4.1 of the OCP Microscaling Formats specification v1.0).
- **Layout arithmetic.** `ScaleLayout` and `ScaleTransform` compare the C API, the launch, the Rust
  wrapper and the Candle view, and `ScalePipeline` follows raw scales to an accepted product;
  `LogitsLayout` compares the attention-logits layouts with their launch.
- **Fused KV-cache pages.** `KvCachePages`, over the contiguity check of `Contiguous`.

`IntMath` and `Wrappers` are helpers. `dafny verify dfyconfig.toml` checks everything.

Safety of the cache rests on three premises. No two keys in play have the same digest
(`KernelCache.NoCollisions`), because disk lookup compares only name and digest; and a process has at
most one compile in flight per key (`KernelCache.OneCompilePerKey`), because private directories carry
the process id and no thread id. A run that breaks safety without the second is exhibited. The third is
built into the state (`KernelCache.State`, `Spawn`): live processes that share the cache have distinct
process ids. Within one system they do; containers or hosts that share one home directory do not
guarantee it, and there the results do not apply. Results speak
of a request's key; where no other request in play has that key (`KernelCache.OwnKey`), which holds for
every key text without a further `$$` (`KernelCache.ReadableKeyIsOwn`), they speak of the request
itself. The event discipline needs no premise.

Two places where a reader may expect otherwise. The hash is called FNV-1a, but its offset basis
(crates/deepgemm-sys/csrc/deepgemm_raw_runtime.cc:223) is not the published one; nothing proved here
depends on the basis. And a configuration computed before a reset can be installed after it
(`CompilerConfig.OverlappingResetLeavesStaleConfig`): exactly when returned configurations are those of
the current roots is stated by `CompilerConfig.CurrentExactlyWhenSettled`, while agreement between
callers holds in all runs.

## Model

| member | source | states |
|---|---|---|
| KernelCacheSafety.VisibleCubinsComplete | crates/deepgemm-sys/csrc/deepgemm_raw_runtime.cc:544-606 | in every run of any number of processes and threads, with crashes and pid reuse, a `kernel.cubin` visible at a request's cache path is, from then on, the complete compiler output of a request with that key: of the request itself unless another one in play has the same key |
| KernelCacheSafety.NothingElseVisible | crates/deepgemm-sys/csrc/deepgemm_raw_runtime.cc:560-596 | no other directory ever appears under the cache root: whatever is visible there is the finished build of a request filed under that name |
| KernelCacheSafety.PublishedForever | crates/deepgemm-sys/csrc/deepgemm_raw_runtime.cc:586-596 | once a kernel directory is published, no later step of anyone changes or removes it |
| KernelCacheSafety.PublishedIsNeverCompiledAgain | crates/deepgemm-sys/csrc/deepgemm_raw_runtime.cc:341-358 | what the disk tier is for: once a cubin is visible where a request looks, no call of any process that looks there begins to compile for the rest of the run; a call that is compiling later was compiling already |
| KernelCacheSafety.CompiledOnce | crates/deepgemm-sys/csrc/deepgemm_raw_runtime.cc:544-606 | a call answered by loading or compiling leaves its kernel published, so that from then on nobody begins to compile for its key |
| KernelCacheSafety.NothingLeftBehind | crates/deepgemm-sys/csrc/deepgemm_raw_runtime.cc:580-592 | a build that stops using its private directory, after a failed compile, a lost race or a publication, leaves none behind unless a file operation failed |
| KernelCacheSafety.RunsSafe | crates/deepgemm-sys/csrc/deepgemm_raw_runtime.cc:331-606 | the invariant behind the above holds in every state of every run, for any naming scheme whose directory names determine the key (and the process) |
| KernelCacheSafety.InvInductive | crates/deepgemm-sys/csrc/deepgemm_raw_runtime.cc:544-606 | each single transition (spawn, crash, call, step) keeps the invariant |
| KernelCacheSafety.PrivateIsPrivate | crates/deepgemm-sys/csrc/deepgemm_raw_runtime.cc:564-566 | under the one-compile-per-key premise, a step of any other thread in any process leaves a compiling thread's private directory alone |
| KernelCacheSafety.StepConfined | crates/deepgemm-sys/csrc/deepgemm_raw_runtime.cc:560-596 | a step touches only its own private directory and its own target, and never a non-empty target |
| KernelCacheSafety.OtherStepHarmless | crates/deepgemm-sys/csrc/deepgemm_raw_runtime.cc:544-606 | a step by another thread keeps everything a thread relies on |
| KernelCache.NamesDistinct | crates/deepgemm-sys/csrc/deepgemm_raw_runtime.cc:552-564 | the repository's cache directories determine the key, and its private directories the key and the process, whenever digests of the keys in play do not collide |
| KernelCache.ReadableKeyIsOwn | crates/deepgemm-sys/csrc/deepgemm_raw_runtime.cc:552 | a request whose key text holds no further separator shares its key with no other request, whatever else is in play |
| KernelCacheRefinement.RunRefines | crates/deepgemm-sys/csrc/deepgemm_raw_runtime.cc:331-606 | over whole runs, memory map, disk directory and compile together refine compiling every time: every transition maps to one move, or to none, of a system without caches in which a call ends with the compiled output of its key, and of its own request where the key is its own |
| KernelCacheRefinement.NextRefines | crates/deepgemm-sys/csrc/deepgemm_raw_runtime.cc:331-606 | the same for one transition |
| KernelCacheRefinement.CallsReturnOwnKernel | crates/deepgemm-sys/csrc/deepgemm_raw_runtime.cc:336-357 | whichever tier answered, a returned runtime was loaded from the output for the call's own key (its own request, where the key is its own), and every entry of every process map matches its key |
| KernelCacheRefinement.LostBuilderStillSucceeds | crates/deepgemm-sys/csrc/deepgemm_raw_runtime.cc:588-598 | a builder whose rename failed because the target exists never ends with a move or compile error, finds the published cubin of its key, and returns a kernel of its key if it returns |
| KernelCacheRefinement.EventDiscipline | crates/deepgemm-sys/csrc/deepgemm_raw_runtime.cc:59-106 | in every run, without any premise on names or on concurrent compiles: the events of one call are none or one START/FINISH pair of one origin; a failure is reported exactly for calls that opened a scope and then threw, a success exactly for calls that opened one and return, and then only after the key is in the process map; a call that throws without an event failed in the prologue or in the existence test; a memory hit ends the call in that step, without event or disk access |
| KernelCacheRefinement.SharedPrivateDirectoryIsUnsafe | crates/deepgemm-sys/csrc/deepgemm_raw_runtime.cc:564-566 | the premise of one compile per key and process is needed: without it, for any naming and any request, some run publishes an unfinished cubin |
| KernelCacheRefinement.UnfinishedExactlyBesideCompile | crates/deepgemm-sys/csrc/deepgemm_raw_runtime.cc:564-589 | when a thread about to publish shares its private directory with another thread of its process, one step of the other can make it publish an unfinished cubin if and only if the other is in the compiler |
| BuildKernel.OthersSatisfyRely | crates/deepgemm-sys/csrc/deepgemm_raw_runtime.cc:544-606 | every transition of anybody else satisfies the interference assumption under which the build methods are proved |
| BuildKernel.RelyKeepsThread | crates/deepgemm-sys/csrc/deepgemm_raw_runtime.cc:544-606 | that interference keeps a build's own assertions |
| BuildKernel.Builder.Build | crates/deepgemm-sys/csrc/deepgemm_raw_runtime.cc:544-606 | the imperative `build_kernel`, interfered with between any two steps: its result is a kernel of its key (of its own request, where the key is its own), left in the process map and, unless it came from there, published on disk; a kernel published when the call begins is not compiled again but found in memory or loaded, with exactly that pair of events; without faults it succeeds and every failure has its cause among the faults; a memory hit and a failing prologue are silent; what it logs is what the state machine emits |
| BuildKernel.Builder.LoadCachedKernel | crates/deepgemm-sys/csrc/deepgemm_raw_runtime.cc:331-358 | hit, miss or failure, with exactly the events of each: none when the existence test throws; a key already in the map always hits silently; a key that is not, but whose cubin is visible, is answered from disk |
| BuildKernel.Builder.LookOnDisk | crates/deepgemm-sys/csrc/deepgemm_raw_runtime.cc:341-343 | a cubin visible before the test is found by it |
| BuildKernel.Builder.Publish | crates/deepgemm-sys/csrc/deepgemm_raw_runtime.cc:586-598 | rename and recovery from a lost race: ends ready to load a published kernel, or with the failure that was injected |
| BuildKernel.MaterializationScope.Finish | crates/deepgemm-sys/csrc/deepgemm_raw_runtime.cc:85-99 | at most one FINISH per scope |
| BuildKernel.MaterializationScope.Destroy | crates/deepgemm-sys/csrc/deepgemm_raw_runtime.cc:76-78 | leaving a scope that was not finished reports failure; leaving a finished one reports nothing |
| CompilerConfig.ReadingsAgree | crates/deepgemm-sys/csrc/deepgemm_raw_runtime.cc:306-322 | in every interleaving with `runtime_init`, all calls whose returning read falls between the same two resets return one identical configuration |
| CompilerConfig.RuntimeGlobals.CompilerConfig | crates/deepgemm-sys/csrc/deepgemm_raw_runtime.cc:306-322 | the imperative `compiler_config`, with every other thread acting between its critical sections: each section is one step of the state machine, and what it returns is the value the machine records; a remembered configuration is returned as it is; it fails only by throwing before the last section |
| CompilerConfig.OthersSatisfyRely | crates/deepgemm-sys/csrc/deepgemm_raw_runtime.cc:306-322 | every transition of any other thread or of a reset satisfies the interference assumption under which that method is proved |
| CompilerConfig.RememberedUntilReset | crates/deepgemm-sys/csrc/deepgemm_raw_runtime.cc:306-312 | until the next reset no call starts to compute once a configuration is remembered, and every answer is that configuration |
| CompilerConfig.RuntimeGlobals.InstallAndRead | crates/deepgemm-sys/csrc/deepgemm_raw_runtime.cc:317-321 | the closing section is the machine's installing step: it finds a value, and an installed configuration is never replaced |
| CompilerConfig.RuntimeGlobals.RuntimeInit | crates/deepgemm-sys/csrc/deepgemm_raw_runtime.cc:448-470 | an accepted call is the machine's reset: new roots always drop the remembered configuration; rejected input changes nothing |
| CompilerConfig.ReadingsTraced | crates/deepgemm-sys/csrc/deepgemm_raw_runtime.cc:306-322 | a returned configuration pairs a compiler with include roots that were each in force at or before the moment of return, the compiler's being the older or the same |
| CompilerConfig.CurrentExactlyWhenSettled | crates/deepgemm-sys/csrc/deepgemm_raw_runtime.cc:306-322 | until the next reset, all configurations returned from a given state on are of the roots in force if and only if the remembered one is, or, when there is none, what every call in flight already holds is |
| CompilerConfig.HarmlessRunsReadCurrent | crates/deepgemm-sys/csrc/deepgemm_raw_runtime.cc:306-322 | so when every reset meets that condition, every configuration returned in the whole run is that of the roots in force |
| CompilerConfig.OverlappingResetLeavesStaleConfig | crates/deepgemm-sys/csrc/deepgemm_raw_runtime.cc:306-322 | a run exists that violates the condition and leaves a configuration of the old compiler installed after the reset |
| CacheKey.CacheDirCharacterized | crates/deepgemm-sys/csrc/deepgemm_raw_runtime.cc:552-554 | two requests share a cache directory exactly when name and digest agree |
| CacheKey.TmpDirCharacterized | crates/deepgemm-sys/csrc/deepgemm_raw_runtime.cc:564 | two builders share a private directory exactly when name, process id and digest agree |
| CacheKey.KeyCuts | crates/deepgemm-sys/csrc/deepgemm_raw_runtime.cc:552 | the key holds name, compiler, flags and code in this order, between separators |
| CacheKey.KeyDeterminesRequest | crates/deepgemm-sys/csrc/deepgemm_raw_runtime.cc:552 | a key text determines compiler, flags and code exactly when no extra separator can be read into it |
| CacheKey.AmbiguousKeyExample | crates/deepgemm-sys/csrc/deepgemm_raw_runtime.cc:552 | otherwise two different requests can have one key |
| CacheKey.OneByteChangesCacheDir | crates/deepgemm-sys/csrc/deepgemm_raw_runtime.cc:222-235 | keys of equal length that differ in one byte never share a digest or a cache directory |
| Fnv.Fnv1a64 | crates/deepgemm-sys/csrc/deepgemm_raw_runtime.cc:222-229 | the accumulator loop computes the fold of the step function over all bytes, in order |
| Fnv.StepInjective | crates/deepgemm-sys/csrc/deepgemm_raw_runtime.cc:225-226 | one hash step is injective in the state for each byte and in the byte for each state |
| Fnv.FoldInjectiveInState | crates/deepgemm-sys/csrc/deepgemm_raw_runtime.cc:224-227 | a common continuation never merges two different states |
| Fnv.TailPreservesCollisions | crates/deepgemm-sys/csrc/deepgemm_raw_runtime.cc:224-227 | two prefixes collide exactly when they collide after any common tail |
| Fnv.HexU64Injective | crates/deepgemm-sys/csrc/deepgemm_raw_runtime.cc:231-235 | sixteen-digit printing is injective on 64-bit values |
| Fnv.HexU64Reads | crates/deepgemm-sys/csrc/deepgemm_raw_runtime.cc:231-235 | sixteen lower-case digits that read back as the value |
| TextTemplate.DecimalPrefixUnique | crates/deepgemm-sys/csrc/deepgemm_raw_gemm.cc:754-775 | a printed integer is recovered from the front of a text as soon as what follows cannot continue it |
| TextTemplate.RenderInjective | crates/deepgemm-sys/csrc/deepgemm_raw_gemm.cc:754-775 | unique decodability of stream insertions: a template whose numbers are delimited renders to the same text only from the same values |
| TextTemplate.FieldsDetermined | crates/deepgemm-sys/csrc/deepgemm_raw_gemm.cc:754-775 | the same for values with fixed separators between a fixed head and tail |
| KernelText.FieldsRead | crates/deepgemm-sys/csrc/deepgemm_raw_gemm.cc:754-775 | values inserted between separators are read back one by one, in order, with the fixed words between them |
| KernelText.OpeningReads | crates/deepgemm-sys/csrc/deepgemm_raw_gemm.cc:754-760 | the header and the function are read back from the opening of any generated source |
| ShellText.QuoteRoundTrip | crates/deepgemm-sys/csrc/deepgemm_raw_runtime.cc:168-179 | the shell reads the quoted form as one word equal to the original exactly for strings without NUL, and otherwise finds an unterminated quote |
| ShellText.ShellQuote | crates/deepgemm-sys/csrc/deepgemm_raw_runtime.cc:168-179 | the accumulator loop computes the quoted form |
| ShellText.QuoteBodyReads | crates/deepgemm-sys/csrc/deepgemm_raw_runtime.cc:170-176 | inside the quotes, each character is read back as itself whatever follows |
| ShellText.LineLexes | crates/deepgemm-sys/csrc/deepgemm_raw_runtime.cc:572-576 | a line of bare words, quoted paths glued to option prefixes, and `&&` is recognised as exactly those words |
| ShellText.RedirectedLineLexes | crates/deepgemm-sys/csrc/deepgemm_raw_runtime.cc:181-183 | and followed by the appended redirection, as those words and the redirection |
| ShellText.CompileCommandLexes | crates/deepgemm-sys/csrc/deepgemm_raw_runtime.cc:237-304 | for arbitrary NUL-free paths, any switches and any versions, the whole line handed to the shell is recognised word by word as the change of directory, the compiler with its files, the flags in full (language standard, switched groups, the three include paths in order, the architecture named for device and compiler version, code generation), and the redirection of errors to output |
| GemmTypes.SwizzleIsWidest | crates/deepgemm-sys/csrc/deepgemm_raw_gemm.cc:137-145 | the swizzle width is the widest of 128, 64, 32, 16 that divides the row, and undefined exactly when 16 does not |
| GemmTypes.PipelineIsLargest | crates/deepgemm-sys/csrc/deepgemm_raw_gemm.cc:434-438 | the truncating division selects at least t stages exactly when t are allowed and fit |
| GemmTypes.PipelineSizing | crates/deepgemm-sys/csrc/deepgemm_raw_gemm.cc:434-438 | a non-empty pipeline fits shared memory, and one more stage would not or is capped |
| GemmTypes.PipelineAntitone | crates/deepgemm-sys/csrc/deepgemm_raw_gemm.cc:434-438 | more fixed bytes never give more stages |
| Sm90Search.LayoutCandidates | crates/deepgemm-sys/csrc/deepgemm_raw_gemm.cc:489-539 | the push_back loops produce the filtered grid, in enumeration order |
| Sm90Search.CandidateCharacterized | crates/deepgemm-sys/csrc/deepgemm_raw_gemm.cc:489-539 | a layout is a candidate exactly when its blocks are listed and every filter passes |
| Sm90Search.KeepShape | crates/deepgemm-sys/csrc/deepgemm_raw_gemm.cc:516-533 | the innermost checks decide acceptance |
| Sm90Search.StorageDefined | crates/deepgemm-sys/csrc/deepgemm_raw_gemm.cc:414-424 | no enumerated block makes the swizzle rule throw |
| Sm90Reference.CandidatesExactly | crates/deepgemm-sys/csrc/deepgemm_raw_gemm.cc:489-539 | the candidates in numbers: 64, 128 or 256 rows, also 16 or 32 where m is no more; multiples of 16 columns up to 160, and 192; not both above 128; one block, or two in either direction on an even number of SMs; and four stages of all its regions fit 232448 bytes (three from 24576 elements on) |
| Sm90Reference.OnlyExcludedTouchesThree | crates/deepgemm-sys/csrc/deepgemm_raw_gemm.cc:516-519 | the one width of the grid that the filter leaves out is the one whose tiles touch three rows of scales; all others touch at most two |
| Sm90Reference.CandidatesInOrder | crates/deepgemm-sys/csrc/deepgemm_raw_gemm.cc:489-539 | and they come by cluster, then height in the order 64, 128, 16, 32, 256, then width |
| Sm90Reference.SharedMemoryMeaning | crates/deepgemm-sys/csrc/deepgemm_raw_gemm.cc:426-439 | the bytes requested are those of the output tile, the barriers, the most rows of b's scales that any tile of that width touches, and the selected number of stages, each region rounded up to its unit; and no deeper pipeline up to 16 would fit |
| Sm90Reference.ConfigNumbers | crates/deepgemm-sys/csrc/deepgemm_raw_gemm.cc:414-447 | loads and stores of the block's own shape, swizzles of 128 bytes and of the widest that divides an output row, and the thread counts |
| Sm90Reference.CyclesAreScore | crates/deepgemm-sys/csrc/deepgemm_raw_gemm.cc:449-487 | the cost, computed through divided block counts, bandwidths and efficiencies, is 1/80000 of an integer: waves times the larger of 625 L1 bytes and 1250 L2 bytes, or 13 per SM from 97 SMs on |
| Sm90Reference.CostsCompareScores | crates/deepgemm-sys/csrc/deepgemm_raw_gemm.cc:483-487 | so costs compare as integers, with clusters that finish in one wave behind everything |
| Sm90Reference.SelectionMeaning | crates/deepgemm-sys/csrc/deepgemm_raw_gemm.cc:541-563 | the search selects the admitted layout that is cheaper than, or as cheap as and enumerated before, every other admitted one |
| Sm90Reference.ChosenUnique | crates/deepgemm-sys/csrc/deepgemm_raw_gemm.cc:541-563 | and there is at most one such layout |
| Sm90Selection.CandidatePipeline | crates/deepgemm-sys/csrc/deepgemm_raw_gemm.cc:426-439 | every candidate has at least three stages (four for all but the largest blocks), at most 16, within 232448 bytes, and no more would fit |
| Sm90Selection.ThreeStagesAttained | crates/deepgemm-sys/csrc/deepgemm_raw_gemm.cc:426-439 | and three is attained |
| Sm90Selection.CandidatesShrinkInK | crates/deepgemm-sys/csrc/deepgemm_raw_gemm.cc:489-539 | for k1 <= k2 the list for k2 is the list for k1 filtered once more, so a subsequence |
| Sm90Selection.CandidatesExistIff | crates/deepgemm-sys/csrc/deepgemm_raw_gemm.cc:541-545 | the list is non-empty exactly when ceil(k / 128) is at most 53568, 51520 or 47040 for m up to 16, up to 32, or larger |
| Sm90Selection.CandidatesExist | crates/deepgemm-sys/csrc/deepgemm_raw_gemm.cc:1064-1066 | in particular for every k up to 65536 |
| Sm90Selection.BottleneckClosedForm | crates/deepgemm-sys/csrc/deepgemm_raw_gemm.cc:463-486 | the cost equals all block slots of all waves times the slower of the two per-block transfer times; the block count cancels |
| Sm90Selection.ClusteringSavesTraffic | crates/deepgemm-sys/csrc/deepgemm_raw_gemm.cc:463-467 | a cluster of two halves the L2 traffic of the one operand it shares and leaves L1 traffic alone |
| Sm90Selection.ClusteringNeverCostsMore | crates/deepgemm-sys/csrc/deepgemm_raw_gemm.cc:463-482 | so beyond one wave a clustered candidate costs at most its unclustered twin |
| Sm90Selection.EarlierUnclusteredTwin | crates/deepgemm-sys/csrc/deepgemm_raw_gemm.cc:506-536 | each clustered candidate is preceded by the same blocks without a cluster |
| Sm90Selection.BestConfig | crates/deepgemm-sys/csrc/deepgemm_raw_gemm.cc:541-563 | selects the first candidate of minimum cost, with its storage, pipeline and launch; succeeds exactly when ceil(k / 128) is within the bound for m and the wave count of the smallest block shape fits 32 bits |
| Sm90Selection.SelectsExactly | crates/deepgemm-sys/csrc/deepgemm_raw_gemm.cc:441-487 | that condition on m, n, k and the SM count is the search's own: candidates exist and every one of their wave counts is defined |
| Sm90Selection.FirstMinimumUnique | crates/deepgemm-sys/csrc/deepgemm_raw_gemm.cc:547-555 | which index that is, is determined by the costs |
| Sm90Selection.SelectionNeverClustersOneWave | crates/deepgemm-sys/csrc/deepgemm_raw_gemm.cc:483-485 | a cheapest candidate is never a clustered layout finishing in one wave |
| Sm100Search.LayoutCandidates | crates/deepgemm-sys/csrc/deepgemm_raw_gemm.cc:643-721 | the push_back loops over both operand orders produce the two filtered grids, in enumeration order |
| Sm100Search.CandidateCharacterized | crates/deepgemm-sys/csrc/deepgemm_raw_gemm.cc:643-721 | a layout is a candidate exactly when its blocks are listed for its operand order and every filter passes |
| Sm100Search.CandidatesExist | crates/deepgemm-sys/csrc/deepgemm_raw_gemm.cc:723-727 | the list is never empty, for any input |
| Sm100Search.CandidatePipeline | crates/deepgemm-sys/csrc/deepgemm_raw_gemm.cc:582-600 | although enumeration never checks stages, every candidate has at least four, at most 32, within 232448 bytes, and no more would fit |
| Sm100Search.FourStagesAttained | crates/deepgemm-sys/csrc/deepgemm_raw_gemm.cc:582-600 | and four is attained |
| Sm100Search.ClustersTile | crates/deepgemm-sys/csrc/deepgemm_raw_gemm.cc:672-700 | clusters divide the block grid in each direction, the SM count and the last wave; tensor-memory columns stay within 512 |
| Sm100Search.LoadsMakeUpTile | crates/deepgemm-sys/csrc/deepgemm_raw_gemm.cc:570-574 | the parts loaded by the blocks of a cluster make up the whole tile, in multiples of eight rows |
| Sm100Reference.CandidatesExactly | crates/deepgemm-sys/csrc/deepgemm_raw_gemm.cc:643-721 | the candidates in numbers: 32, 64 or 128 rows by the range of m and 16 or a multiple of 32 columns up to 128 (k up to 256) or 224; or with operands swapped a multiple of 16 rows up to 240 and 128 columns; alone, or in pairs on an even number of SMs and of blocks in their direction |
| Sm100Reference.CandidatesInOrder | crates/deepgemm-sys/csrc/deepgemm_raw_gemm.cc:643-721 | and they come unswapped first, then by cluster, height and width |
| Sm100Reference.TensorMemoryMeaning | crates/deepgemm-sys/csrc/deepgemm_raw_gemm.cc:703-707 | two accumulators and four columns for every started 128 rows and columns of scales fit the 512 columns of tensor memory |
| Sm100Reference.SharedMemoryMeaning | crates/deepgemm-sys/csrc/deepgemm_raw_gemm.cc:582-600 | the bytes requested are those of two output stages, the barriers, a pointer and the selected number of stages of a block's share of both tiles and all their scales; and no deeper pipeline up to 32 would fit |
| Sm100Reference.StorageMeaning | crates/deepgemm-sys/csrc/deepgemm_raw_gemm.cc:570-580 | loads are the block's shares of the cluster's tiles, stores its rows at once or 16 at a time, swizzles 128 bytes and the widest that divides an output row |
| Sm100Reference.ConfigOf | crates/deepgemm-sys/csrc/deepgemm_raw_gemm.cc:602-610 | 256 threads, 128 that load and compute and 128 that store, as printed in the source |
| Sm100Reference.SelectionMeaning | crates/deepgemm-sys/csrc/deepgemm_raw_gemm.cc:723-746 | the search selects the admitted layout that ranks before, or like and enumerated before, every other admitted one, ranks counted from blocks and waves |
| Sm100Reference.ChosenUnique | crates/deepgemm-sys/csrc/deepgemm_raw_gemm.cc:723-746 | and there is at most one such layout |
| Sm100Selection.WavesCountBlocks | crates/deepgemm-sys/csrc/deepgemm_raw_gemm.cc:612-620 | (waves - 1) * SMs + last-wave blocks = blocks of the grid, with at least one wave and a non-empty last wave |
| Sm100Selection.IsBetterIsBefore | crates/deepgemm-sys/csrc/deepgemm_raw_gemm.cc:622-641 | with at least one wave each, the six-level comparator is the lexicographic order: single wave, larger cluster, fewer waves, fuller last wave, smaller extent, smaller area |
| Sm100Selection.IsBetterIsStrictWeakOrder | crates/deepgemm-sys/csrc/deepgemm_raw_gemm.cc:622-641 | hence a strict weak order |
| Sm100Selection.NoWavesBreaksTheOrder | crates/deepgemm-sys/csrc/deepgemm_raw_gemm.cc:622-641 | and not even acyclic without that premise |
| Sm100Selection.BestConfig | crates/deepgemm-sys/csrc/deepgemm_raw_gemm.cc:723-746 | selects the first candidate that no enumerated candidate beats; succeeds exactly when the wave counts of the narrowest block of each operand order fit 32 bits |
| Sm100Selection.SelectsExactly | crates/deepgemm-sys/csrc/deepgemm_raw_gemm.cc:605-620 | that condition on m, n and the SM count is equivalent to every candidate's wave count being defined |
| Sm100Selection.FirstBestStep | crates/deepgemm-sys/csrc/deepgemm_raw_gemm.cc:731-737 | one turn of the fold keeps its choice the first best |
| Sm100Selection.SelectionPriorities | crates/deepgemm-sys/csrc/deepgemm_raw_gemm.cc:622-641 | a grid that some candidate finishes in one wave is finished in one wave; otherwise the largest available cluster is used |
| GemmSource.Sm90SourceDeterminesLaunch | crates/deepgemm-sys/csrc/deepgemm_raw_gemm.cc:748-777 | for candidates chosen for any two m, source texts are equal exactly when n, k, SM count and the whole configuration (layout, swizzles, stages, threads, shared-memory size) are |
| GemmSource.Sm100SourceDeterminesLaunch | crates/deepgemm-sys/csrc/deepgemm_raw_gemm.cc:779-815 | likewise, with the two scale granularities and the operand order |
| GemmSource.Sm90SourceOfRepository | crates/deepgemm-sys/csrc/deepgemm_raw_gemm.cc:748-777 | the same for the repository's own fixed beginning and end |
| GemmSource.Sm100SourceOfRepository | crates/deepgemm-sys/csrc/deepgemm_raw_gemm.cc:779-814 | the same for the repository's own fixed beginning and end |
| KernelReuse.Sm90SharedKernelFitsBoth | crates/deepgemm-sys/csrc/deepgemm_raw_gemm.cc:896-910 | in any run of the cache, two calls that hold the same kernel, for whatever m and through whichever tier, have equal n, k, SM count and launch configuration |
| KernelReuse.Sm100SharedKernelFitsBoth | crates/deepgemm-sys/csrc/deepgemm_raw_gemm.cc:994-1010 | likewise for compute capability 10 |
| KernelReuse.AttentionSharedKernelFitsBoth | crates/deepgemm-sys/csrc/deepgemm_raw_runtime.cc:544-606 | likewise for the attention kernels: two calls that hold the same kernel agree on everything their texts print, launch with the same threads, and with the same shared memory unless it is the capability-10 metadata kernel |
| KernelReuse.SharedRuntimeSharesSource | crates/deepgemm-sys/csrc/deepgemm_raw_runtime.cc:544-606 | one runtime, taken with its provenance, never answers two different source texts |
| GemmSource.ShapeDeterminesLayout | crates/deepgemm-sys/csrc/deepgemm_raw_gemm.cc:768-769 | the printed cluster size and flag recover the cluster pair |
| GemmReading.Sm90Reads | crates/deepgemm-sys/csrc/deepgemm_raw_gemm.cc:748-777 | an independent reader of template arguments finds in the source of a configuration, position by position, the arguments that instantiate the kernel of that configuration |
| GemmReading.Sm100Reads | crates/deepgemm-sys/csrc/deepgemm_raw_gemm.cc:779-814 | likewise for compute capability 10 |
| AttentionSource.TextDeterminesPrinted | crates/deepgemm-sys/csrc/deepgemm_raw_mqa.cc:192-377 | two accepted calls of any of the seven attention kernels have equal source texts exactly when they agree on everything but the SM count of the cleaning and paged kernels and the batch of the metadata kernels (for capability 9, beyond its multiple of 32) |
| AttentionSource.TextDeterminesLaunch | crates/deepgemm-sys/csrc/deepgemm_raw_mqa.cc:394-1075 | calls with one text have equal thread counts; they have equal shared memory exactly unless they are capability-10 metadata of different batches, and equal grids exactly unless they are cleaning or paged kernels for different SM counts |
| AttentionSource.TextLeavesOpen | crates/deepgemm-sys/csrc/deepgemm_raw_mqa.cc:290-306 | both exceptions occur |
| AttentionSource.SourceOfRepository | crates/deepgemm-sys/csrc/deepgemm_raw_mqa.cc:192-377 | the determination for the repository's own fixed text |
| AttentionSource.SharedMemoryFits | crates/deepgemm-sys/csrc/deepgemm_raw_mqa.cc:485-495 | for every accepted shape the sums of the capability-9 launches stay within the 232448 bytes that capability 10 asks for outright |
| AttentionReading.SourceReads | crates/deepgemm-sys/csrc/deepgemm_raw_mqa.cc:192-377 | the reader finds each attention kernel's header, function and arguments, position by position |
| AttentionReading.ThreadsInNumbers | crates/deepgemm-sys/csrc/deepgemm_raw_mqa.cc:394-1075 | grid and threads of each launch: the threads are the two printed counts together, where they are printed |
| AttentionReading.LogitsMemory | crates/deepgemm-sys/csrc/deepgemm_raw_mqa.cc:485-495 | the shared memory of the capability-9 kernel holds the printed three stages of 128 query rows and 256 keys, their weights and scales, and the barriers |
| AttentionReading.PagedMemory | crates/deepgemm-sys/csrc/deepgemm_raw_mqa.cc:835-862 | and of the paged one three stages of one request's queries and, for each of four warp groups, of 64 keys, in units of eight rows |
| AttentionReading.OtherMemory | crates/deepgemm-sys/csrc/deepgemm_raw_mqa.cc:394-430 | and of the others a fixed size, a float per cleaned column, or a word or two per request |
| ScaleLayout.CApi.ScaleLayout | crates/deepgemm-sys/csrc/deepgemm_c_api.cc:372-410 | succeeds exactly on well-formed requests whose every intermediate value is representable, then writes the documented layout; on failure the output struct is untouched and an error is recorded |
| ScaleLayout.CApi.FillLayoutExplicit | crates/deepgemm-sys/csrc/deepgemm_c_api.cc:127-161 | writes all fields or none, by the same rule |
| ScaleLayout.CheckedMul | crates/deepgemm-sys/csrc/deepgemm_c_api.cc:57-63 | the division guard rejects exactly the products above 64 bits |
| ScaleLayout.CeilDivI64 | crates/deepgemm-sys/csrc/deepgemm_c_api.cc:82-91 | the guard rejects exactly the sums above 63 bits |
| ScaleLayout.AlignI64 | crates/deepgemm-sys/csrc/deepgemm_c_api.cc:65-80 | the guard rejects exactly the results above 63 bits |
| ScaleLayout.EveryoneAgrees | crates/deepgemm-sys/csrc/deepgemm_raw_gemm.cc:290-328 | on representable requests the Candle view is the layout's logical spec, the launch accepts that spec and no other, and its unguarded alignment does not overflow |
| ScaleLayout.LayoutConverts | crates/deepgemm/src/gemm.rs:320-340 | every field of a successful layout is in the range of the Rust types |
| ScaleLayout.AddressesDistinct | crates/deepgemm-sys/csrc/deepgemm_c_api.cc:401-409 | logical positions occupy distinct elements below element_count |
| ScaleLayout.PackedColumnsAgree | crates/deepgemm-sys/csrc/deepgemm_raw_gemm.cc:1103 | ceil(ceil(k / g) / 4) = ceil(k / 4g): kernel and layout agree on packed columns |
| ScaleLayout.TmaAlignedSizeIsAlignUp | crates/deepgemm-sys/csrc/deepgemm_raw_runtime.cc:692-699 | alignment by quotient and alignment by remainder coincide |
| ScaleTransform.PlanTransform | crates/deepgemm-sys/csrc/deepgemm_raw_gemm.cc:1034-1175 | for every scale, per row or blocked, the launch goes ahead exactly on what the Rust wrapper accepts and the launch's own limits allow (512 columns, 32-bit grid, and for blocked scales 32-bit aligned rows), with the documented extent or row plan |
| ScaleTransform.LaunchMeaning | crates/deepgemm/src/gemm.rs:236-255 | the two validators' conditions compared, both directions, for every granularity |
| ScaleTransform.RowPlanFits | crates/deepgemm-sys/csrc/deepgemm_raw_gemm.cc:1124-1175 | a per-row launch covers all rows with no block to spare, within the 232448 bytes of shared memory |
| ScaleTransform.RowPlanInNumbers | crates/deepgemm-sys/csrc/deepgemm_raw_gemm.cc:1124-1160 | blocks of 64 rows with the least odd number of floats that holds all columns, or of 48 rows where scales are packed |
| ScaleTransform.RowArgumentExact | crates/deepgemm-sys/csrc/deepgemm_raw_gemm.cc:1142-1169 | the row count that a per-row kernel receives, cast without a check, is the true one exactly below 2^32 |
| ScaleTransform.RowArgumentTruncated | crates/deepgemm-sys/csrc/deepgemm_raw_gemm.cc:1142-1169 | and accepted launches above exist: with 2^32 rows the kernel is told there are none |
| ScaleTransform.PlannedLaunchIsSafe | crates/deepgemm-sys/csrc/deepgemm_raw_gemm.cc:1070-1122 | whatever is launched has exactly the raw elements the kernels index and the output elements they write |
| ScaleTransform.RunTransform | crates/deepgemm-sys/csrc/deepgemm_raw_gemm.cc:1034-1122 | checks and kernel together: the call is refused exactly outside what both validators and the launch's limits admit, and then changes nothing; an accepted blocked transform traps exactly on packing a bad scale, with nothing but logical elements written, and otherwise leaves exactly the logical elements new |
| ScalePipeline.PipelineAcceptsExactly | crates/candle-deepgemm/src/gemm.rs:38-103 | end to end, for all 64-bit sizes: preparation with its transform launches succeeds, and the Rust validator and the product's launch accept what it prepared, if and only if the raw scales are the documented ones, n is a multiple of eight, n and the aligned m fit 32 bits, k is at most 65536, and the wave counts of the configuration search fit 32 bits |
| ScalePipeline.Prepare | crates/candle-deepgemm/src/gemm.rs:116-152 | preparing one scale, its transform launch included, succeeds exactly on a raw scale of the documented shape whose sizes that launch admits, and yields the layout's logical view |
| ScalePipeline.PrepareScales | crates/candle-deepgemm/src/gemm.rs:38-103 | both scales of a product are prepared by that rule, b with the granularity its shape shows, or passed on unchanged on compute capability 9 |
| ScalePipeline.GemmSizesPreparable | crates/deepgemm-sys/csrc/deepgemm_raw_gemm.cc:1064-1163 | for sizes the product admits, the transforms' limits come down to k <= 65536 |
| ScalePipeline.PreparedIsValid | crates/deepgemm/src/gemm.rs:256-303 | whatever was prepared passes the scale checks of the Rust validator exactly when n is a multiple of eight |
| ScalePipeline.PreparedIsLaunchable | crates/deepgemm-sys/csrc/deepgemm_raw_gemm.cc:841-980 | and then the size, search and scale checks of the product's launch exactly when m (aligned) and n fit 32 bits and the search's wave counts do |
| ScalePipeline.GranOfExactly | crates/candle-deepgemm/src/gemm.rs:84-96 | the row granularity read off a raw shape is the one that shape was made with |
| ScalePipeline.GranUnambiguous | crates/candle-deepgemm/src/gemm.rs:84-96 | the two admissible shapes coincide for a single row only |
| ScaleIndexing.AddressHasOwner | crates/deepgemm-sys/csrc/deepgemm_raw_gemm.cc:363-372 | the address written by a working thread determines that thread |
| ScaleIndexing.OwnerWritesAddress | crates/deepgemm-sys/csrc/deepgemm_raw_gemm.cc:363-372 | every logical position is written by some working thread; with the row above, by exactly one |
| ScaleIndexing.NoTruncation | crates/deepgemm-sys/csrc/deepgemm_raw_gemm.cc:363-372 | the 32- and 64-bit casts lose nothing on any accepted launch |
| ScaleIndexing.InputRowReached | crates/deepgemm-sys/csrc/deepgemm_raw_gemm.cc:392-400 | every raw row serves some output row |
| ScaleKernels.ReadInRange | crates/deepgemm-sys/csrc/deepgemm_raw_gemm.cc:369-372 | every read is inside the raw scale |
| ScaleKernels.BroadcastThread | crates/deepgemm-sys/csrc/deepgemm_raw_gemm.cc:360-373 | one thread writes one element, or nothing past the end |
| ScaleKernels.LaunchBroadcast | crates/deepgemm-sys/csrc/deepgemm_raw_gemm.cc:1082-1101 | any execution order of the launched threads leaves the same output: exactly the logical positions are new |
| ScaleKernels.BroadcastMeaning | crates/deepgemm-sys/csrc/deepgemm_raw_gemm.cc:369-372 | output (row, col) is raw (row / gran_mn, col), and padding rows keep their contents |
| PackKernel.PackScales | crates/deepgemm-sys/csrc/deepgemm_raw_gemm.cc:377-411 | in any execution order the launch traps exactly when some raw scale is not a positive normal power of two |
| PackKernel.LaunchPack | crates/deepgemm-sys/csrc/deepgemm_raw_gemm.cc:1103-1121 | and otherwise every logical position holds its packed word; positions outside never change, trap or not |
| PackKernel.EveryScaleIsRead | crates/deepgemm-sys/csrc/deepgemm_raw_gemm.cc:390-400 | every raw element is read by some thread and lane |
| PackKernel.PackLanes | crates/deepgemm-sys/csrc/deepgemm_raw_gemm.cc:394-407 | the lane loop traps exactly on a bad lane and otherwise builds the word of all four |
| PackKernel.PackMeaning | crates/deepgemm-sys/csrc/deepgemm_raw_gemm.cc:390-409 | lane by lane, output words unpack bit for bit to the raw scales of their row group, or to zero past the row |
| PackKernel.PaddingUntouched | crates/deepgemm-sys/csrc/deepgemm_raw_gemm.cc:408-409 | padding rows of a column keep their contents |
| ScaleBits.UnpackInvertsPack | crates/deepgemm-sys/csrc/deepgemm_raw_gemm.cc:405 | a lane byte shifted back by 23 is the packed bit pattern, and never the NaN encoding |
| ScaleBits.TrapsExactly | crates/deepgemm-sys/csrc/deepgemm_raw_gemm.cc:399-404 | the trap condition is the negation of being a positive normal power of two |
| ScaleBits.PackingKeepsValue | crates/deepgemm-sys/csrc/deepgemm_raw_gemm.cc:405 | the E8M0 byte denotes the number its binary32 source denotes |
| Contiguous.RequireContiguous | crates/deepgemm-sys/csrc/deepgemm_raw_mqa.cc:82-97 | accepts exactly positive shapes with row-major strides, for any rank |
| Contiguous.AddressUnique | crates/deepgemm-sys/csrc/deepgemm_raw_mqa.cc:82-97 | different indices of an accepted tensor have different addresses |
| Contiguous.AddressOnto | crates/deepgemm-sys/csrc/deepgemm_raw_mqa.cc:82-97 | and every address below the element count is some index's |
| KvCachePages.RequireFusedCache | crates/deepgemm-sys/csrc/deepgemm_raw_mqa.cc:1295-1318 | accepts exactly the documented cache tensors with whole-word page strides |
| KvCachePages.ViewsPartitionBuffer | crates/deepgemm-sys/csrc/deepgemm_raw_mqa.cc:1004-1012 | each byte of an accepted cache is the image of exactly one (page, token, byte) of the data view or the scale view |
| KvCachePages.SlotsAreDisjoint | crates/deepgemm-sys/csrc/deepgemm_raw_mqa.cc:792-824 | a slot's address is inside the buffer and determines the slot |
| KvCachePages.SlotsCoverBuffer | crates/deepgemm-sys/csrc/deepgemm_raw_mqa.cc:792-824 | and every byte has a slot |
| KvCachePages.ScalesAlignedIff | crates/deepgemm-sys/csrc/deepgemm_raw_mqa.cc:1316-1318 | scales start at multiples of four bytes exactly when the page stride passes the launch's check |
| KvCachePages.ScaleViewNeedsStride | crates/deepgemm-sys/csrc/deepgemm_raw_mqa.cc:816-824 | with two or more pages, the scale view reaches the second page's scales exactly when it does |
| LogitsLayout.MqaLogitsLayout | crates/deepgemm-sys/csrc/deepgemm_c_api.cc:232-285 | succeeds exactly on valid requests whose sizes are representable, then writes the layout; on failure nothing is written |
| LogitsLayout.PagedLogitsLayout | crates/deepgemm-sys/csrc/deepgemm_c_api.cc:287-328 | likewise for paged logits |
| LogitsLayout.LaunchAcceptsLayout | crates/deepgemm-sys/csrc/deepgemm_raw_mqa.cc:175-189 | the launch recomputes the layout's stride: it accepts the logical view and no other |
| LogitsLayout.StrideIsWholeKilobytes | crates/deepgemm-sys/csrc/deepgemm_c_api.cc:261-276 | rows start at multiples of 1024 bytes |
| LogitsLayout.AllocationIsLeast | crates/deepgemm-sys/csrc/deepgemm_c_api.cc:255-276 | nothing is allocated beyond whole row blocks and rows of whole kilobytes with, for full logits, one spare tile |
| LogitsLayout.AlignmentsCollapse | crates/deepgemm-sys/csrc/deepgemm_c_api.cc:271-275 | aligning to tiles and then to kilobytes is aligning to kilobytes |
| LogitsLayout.TilesStayInRow | crates/deepgemm-sys/csrc/deepgemm_c_api.cc:264-276 | a 256-column tile stays in its row from any column of full logits and any multiple of 256 of compressed ones |
| LogitsLayout.RowBlocksStayInAllocation | crates/deepgemm-sys/csrc/deepgemm_c_api.cc:255-259 | a block of query rows at a multiple of the block size stays in the allocation |
| LogitsLayout.TileElementsInAllocation | crates/deepgemm-sys/csrc/deepgemm_c_api.cc:278-284 | so every element of every tile of every row block is below element_count, and two of them share an address exactly when they are the same position |
| LogitsLayout.PagedLayoutFits | crates/deepgemm-sys/csrc/deepgemm_raw_mqa.cc:379-387 | the same for paged logits, whose stride the launch also recomputes |

## Left out

- The compiler is a function of compiler path, flags and source text; header contents, which the key does not contain either, are taken as fixed. A runtime is identified by its provenance, the source it was compiled from, so two sources never count as the same kernel even if their machine code would coincide.
- Children of a crashed process are taken to stop with it: an orphaned compiler still writing into a directory that a reused process id has been given is not modelled.
- Writing `kernel.cu` is one step, and unlinking a directory goes file by file; partial source files are not modelled.
- Removal of cache directories by others is not modelled: published directories are only ever added.
- The location of the cache root and the environment are constant during a call. Of shell redirections only the duplication that `run_command` appends is recognised.
- The materialization hook may be exchanged at any time; the model records the events handed to whichever hook is installed, without their durations.
- The refusal of compilers older than 12.3, and the reading of the compiler's version from its output.
- The prologue of a call (runtime check, compiler configuration, cache root) is one step that succeeds or throws; the request is the one it arrives at.
- In `CompilerConfig`, the override of the compiler path by an environment variable, and the checks of files on disk in `runtime_init`.
- Rounding of the SM90 cost to doubles, and the 32-bit product of wave count and SM count in it (deepgemm_raw_gemm.cc:481), which can overflow for wave counts that pass the range check.
- Dimensions of the search are unbounded integers; the source's are 32-bit, and its 64-bit block count then never overflows.
- LogitsLayout.MqaLogitsLayout: the source adds 256 to seq_len_kv before its overflow check, which is undefined within 256 of the 64-bit limit; the model lets the sum wrap, and the layout is then refused.
- ScaleLayout.TmaAlignedSizeIsAlignUp: exact integers; the launch adds without a check. For every representable layout the sum fits, which `EveryoneAgrees` states.
- Contiguous.RequireContiguous: the running product of dimensions is an exact integer; the source's is 64-bit and unchecked.
- Sm90Selection.BestConfig and Sm100Selection.BestConfig return a value where the source also fills an output record and prints the choice once per shape.
- PackKernel.LaunchPack: a trap ends the launch; which of the other threads still write before the device stops is left open only as far as some of the logical positions may or may not be written.
- Threads of the broadcast kernels run one after another in any order; each reads only input and writes once, so finer interleaving of their instructions adds no outcome.
- Float contents other than bit patterns, FP8 and FP4 arithmetic.
- Kernels whose source is upstream: GEMM and attention kernels, schedulers, the transposing kernels used when gran_mn is 1 (`Plan.PerRow`), paged schedule metadata.
- CUDA driver calls, tensor-map encoding beyond base, strides and extents, library loading, process pipes.
- Device and architecture tables, dtype tables, error wording, configuration printing, build scripts, Candle pointer extraction.
- AttentionSource.TextDeterminesLaunch: sizes are exact integers and only the shape conditions of the attention validators are kept; tensor maps and the rest of the arguments are not modelled. Source texts of the scale kernels are not modelled, nor texts of different families compared.
- ScalePipeline.PipelineAcceptsExactly: the launch is followed up to its tensor maps; the checks of a, b and d, the compile and the driver calls come beside or after.
- Candle's logits views are narrowed in columns only, so nothing is claimed about their row count; the full MQA validators of Rust and C++ differ in flat checks and are not compared.
