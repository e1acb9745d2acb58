# The Pearl proof-of-useful-work pipeline, verified

Pearl hides a proof-of-work lottery inside an int8 matrix product: operands are perturbed by keyed
low-rank noise, multiplied in wrapping int32 arithmetic block by block, and every 128-wide (generally:
rank-wide) chunk of the partial sums is XOR-hashed into the 16-word transcript of each hash tile. A tile
wins when the keyed BLAKE3 digest of its transcript does not exceed the target; afterwards the noise is
subtracted again. The repository holds a slow reference for this (`reference/pearl_reference.py`), an
integer-core GPU path, tensor-core kernels that hash straight from register fragments, a persistent device
context, and the loop that drives a miner against its gateway. They must agree bit for bit. This project
models each of them and proves that they do.

## How the files fit together

| file | models |
|---|---|
| `Bits`, `Words`, `Ring` | bit operations, 32-bit words, rotation, XOR reductions, 256-bit limbs, int8/int32 wrapping, matrices and wrapped dot products |
| `Transcript`, `Search` | the transcript recurrence; what a search over noised operands has to report |
| `TiledMatmul`, `Denoise`, `Reference`, `Noise`, `RunTheorem` | the reference: tiled matmul with ragged edges, the noise algebra, class `NoisyGemm`, the noise generator, whole runs |
| `Fragments`, `Pipeline`, `PipelineSafety`, `RegisterHash`, `FusedKernel`, `Progress`, `Mining` | the register fragments of `mma.sync.m16n8k32`, the double-buffered kernels as a state machine over threads, asynchronous copies and barriers, and what a launch leaves behind |
| `Schedules` | why blocks that step in any order come to an end |
| `Scan`, `ScanKernels`, `GpuSearch`, `BatchRun` | the proof-of-work scans with `atomicMin`/`atomicCAS`, batched, single and recorded; the host searches over noised and over raw operands |
| `NoiseGpu`, `Context` | noise generation on the device; the persistent context with its key buffers and cached graph |
| `Naive`, `NaiveRun` | the integer-core kernels and their host entry point |
| `MmaGemm`, `SmemGemm` | the three tensor-core GEMM kernels |
| `EndToEnd` | the context and the integer-core path against the reference, from raw operands |
| `Gateway`, `Backend`, `MineLoop` | the gateway, the backend with its header cache and nonce batches, and `mine_loop` over whole runs |

BLAKE3 is a function parameter of a 16-word message and an 8-word key, so everything holds for every hash.
int32 is modelled as integers with explicit wraps (`Ring.Wrap32`, `Ring.Wrap8`); bit patterns are words
below 2^32. A kernel is a set of threads that step in any order: the double-buffered kernels as a state
machine whose schedules are arbitrary (`FusedKernel.Schedule`), the others as methods that pick any pending
thread or element. `Mining.Mined` is the launch as a function, justified by `Mining.EveryScheduleMines`;
the host-side classes use it where the original launches a kernel.

Where code and documentation disagree, the code is modelled:

* The reference says C is always exactly A·B. What it returns is A·B modulo 2^32, and A·B for all valid
  operands if and only if k times the square of the largest entry magnitude fits int32: up to k = 524287 at
  noise_range 128 (`RunTheorem.ExactUpToBound`, `RunTheorem.ExactAtRange128`).
* The protocol notes bound noise entries by [-63, 62]. For an accepted generator that holds exactly when
  2 <= noise_range <= 64 (`Noise.DocumentedNoiseBound`); at 128 an entry of 63 occurs (`Noise.NoiseReaches63`).
  The int8 casts are exact all the same, except at noise_range 1 (`Noise.LosslessExactly`).
* The batched scan calls its sentinel 0x7f7f7f7f larger than any real index. For given sizes and number of
  attempts every batch is reported right if and only if the tiles of all attempts do not exceed it
  (`GpuSearch.SentinelIsTheBound`); `GpuSearch.FalseFind` is a batch beyond it that has no winner and is
  reported as a find. What decides a single batch, winners or not, is `ScanKernels.ScanSafe`: the least winning
  number is at most the sentinel, and no winning number becomes smaller by the cast to int. The model takes
  the allocation of such a buffer, over 137 GB of transcripts, to succeed; `prl_mine2_search` returns 4 at its
  cudaMalloc otherwise (`cuda/src/mine_sm86.cu:558`).
* A failed key-buffer allocation leaves the context's capacity stale; the context stays usable exactly when
  the capacity was still zero (`Context.PrlMineCtx.EnsureKeyBatch`). Otherwise the next call within the old
  capacity is told that all is well while a key buffer is null (`Context.PrlMineCtx.AfterFailedGrowth`).

## Model

| member | source | states |
|---|---|---|
| Words.RotlXor | reference/pearl_reference.py:52-55 | rotation distributes over XOR, so a transcript slot is linear in its hashes |
| Words.RotlAdd | reference/pearl_reference.py:52-55 | rotating by a and then by b is rotating by a + b modulo 32 |
| Words.RotlMeaning | cuda/src/mine_sm86.cu:136 | the shift-and-or rotation moves the high n bits to the bottom: value and parts, for every n |
| Words.XorGridTranspose | reference/pearl_reference.py:159-164 | an XOR over a tile does not depend on whether rows or columns are taken first |
| Words.XorGridFlat | reference/pearl_reference.py:159-164 | the flat XOR reduction equals the row-by-row one |
| Words.LimbsLeIsNumeric | cuda/src/mine_sm86.cu:156-162 | the limb loop from the top decides exactly the little-endian 256-bit comparison of the reference |
| Words.TargetRoundTrip | miner/cuda_mine.py:130 | the eight limbs handed to the device denote the job's target |
| Transcript.TileHashBits | reference/pearl_reference.py:159-164 | bit p of any tile's hash is the parity of how many of its exact dot products have bit p set in two's complement |
| Bits.BitsDetermine | reference/pearl_reference.py:159-164 | the low n bits determine a number below 2^n, so that parity is all there is to a hash |
| Transcript.OneCellHash | reference/pearl_reference.py:159-164 | the hash of a single cell is its exact dot product modulo 2^32 |
| Transcript.OneCellChangesHash | reference/pearl_reference.py:159-164 | two tiles that agree modulo 2^32 in all cells but one have different hashes |
| Transcript.TileTranscriptIsFolds | reference/pearl_reference.py:276-281 | the recurrence over cumulative chunks is a fold of the tile's chunk hashes |
| Transcript.ClosedForm | reference/pearl_reference.py:276-281 | after c reductions slot s is the XOR of the hashes of its reductions, each rotated by 13 times the number of later ones, modulo 32 |
| Bits.PowerOfTwoTest | reference/pearl_reference.py:72-75 | x & (x-1) == 0 holds for a positive x exactly when x is a power of two |
| Search.ReportsUnique | reference/pearl_reference.py:282-296 | found and opened_block are determined by the job: two searches that meet the specification agree |
| Search.EasierTargetFindsSooner | reference/pearl_reference.py:246-249 | raising the target keeps every find and never moves the opened tile later in scan order |
| Search.OpenedInside | reference/pearl_reference.py:286-292 | what a search opens is th rows of A and tw columns of B, inside the operands also at ragged edges |
| Search.SomeTile | reference/pearl_reference.py:266-276 | some full hash tile exists if and only if the first block has room for one |
| Search.EasiestTargetFinds | reference/pearl_reference.py:45-49 | the easiest target finds if and only if k >= r and the first block has room for a tile |
| TiledMatmul.InnerHashTileIsTileHash | reference/pearl_reference.py:159-180 | the hash of a stored block's tile is the hash of the wrapped prefix products it holds |
| TiledMatmul.FoldBlock | reference/pearl_reference.py:276-281 | one reduction advances the transcripts of all tiles of a block by one chunk |
| TiledMatmul.RunBlock | reference/pearl_reference.py:266-281 | a block ends with the full wrapped product, and its transcripts with all full chunks folded, ragged edges included |
| Reference.ScanBlock | reference/pearl_reference.py:282-294 | the scan of a block stops at its first winning tile in (hi, wi) order, or proves there is none |
| Reference.NoisyGemm.SearchBlock | reference/pearl_reference.py:265-295 | one block keeps "first winner so far" and the block's wrapped product |
| Reference.NoisyGemm.SearchBlocks | reference/pearl_reference.py:260-296 | over all blocks: C is the wrapped product, found holds iff some full tile wins, and the opened block is the first one |
| Reference.NoisyGemm.TiledMatmul | reference/pearl_reference.py:252-296 | the same with the argument checks: the error case exactly, and an untouched opened block when nothing is found |
| Reference.NoisyGemm.Create | reference/pearl_reference.py:197-219 | rejects exactly noise_range above 128 and matmul tiles smaller than hash tiles; otherwise parameters stored, nothing opened |
| Reference.NoisyGemm.Run | reference/pearl_reference.py:306-328 | rejects exactly the inadmissible calls; otherwise reports the search over the noised operands, opens a tile inside them, and returns the denoised product |
| Reference.RunReturnsProduct | reference/pearl_reference.py:298-310 | with exact casts the returned matrix is A·B modulo 2^32, and A·B exactly when A·B fits int32 |
| Denoise.WrappedLeft | reference/pearl_reference.py:299-301 | A·(E_BL·E_BR) through two wrapping products is congruent to A times the noise, whatever wrapped on the way |
| Denoise.WrappedRight | reference/pearl_reference.py:237-242 | the same for E_AL·(E_AR·B_noised) |
| Denoise.DenoiseResidue | reference/pearl_reference.py:230-242 | without any assumption on the noise, the denoised entry differs from A·B, modulo 2^32, exactly by what the int8 casts lost |
| Denoise.DenoiseExact | reference/pearl_reference.py:298-304 | with lossless casts every entry is A·B modulo 2^32 although the noised sums may wrap, and equals A·B iff A·B fits |
| Noise.LineStructure | reference/pearl_reference.py:125-132 | for every 32-bit draw u a permutation line has its +1 at u mod rank and its -1 at that position XOR 1 + mul_hi(rank - 1, u), distinct and inside the rank; the last mask is redundant |
| Noise.MulHiMeaning | reference/pearl_reference.py:58-60 | mul_hi of two words is the quotient of their product by 2^32 |
| Noise.EveryDistance | reference/pearl_reference.py:125-127 | every XOR distance from 1 to rank - 1 between the two is drawn by some word, exactly for ranks up to 2^32 |
| Noise.AssignLine | reference/pearl_reference.py:129-136 | one line is written, everything else is left alone |
| Noise.PermutationMatrix | reference/pearl_reference.py:107-137 | every line is assigned, with the word of its own draw, the partial last draw included |
| Noise.DenseMeaning | reference/pearl_reference.py:97-105 | a uniform entry is its byte modulo noise_range / 2, less noise_range / 4, the byte taken from the keyed hash of its own draw |
| Noise.MessagesDiffer | reference/pearl_reference.py:89-95 | two draws hash the same message exactly if number, seed and slot agree |
| Noise.DigestBytes | reference/pearl_reference.py:103 | bytes of a digest are those of its words, least significant first |
| Noise.NoiseOfA | reference/pearl_reference.py:232 | an entry of E_AL·E_AR is the difference of the two uniform entries its line selects |
| Noise.NoiseOfB | reference/pearl_reference.py:239 | the same for E_BL·E_BR |
| Noise.CastsAreExact | reference/pearl_reference.py:222-241 | for noise_range 2 to 128 noise stays within range/2 - 1, noised values within [-127, 126], and both casts lose nothing |
| Noise.NoiseReaches63 | docs/protocol-notes.md:169-170 | at noise_range 128 (and 1), for every accepted rank, seed and key, some hash makes a noise entry 63, one above the documented bound |
| Noise.DocumentedNoiseBound | docs/protocol-notes.md:169-170 | an accepted generator keeps every entry of both noise matrices in [-63, 62] for every hash, seed, key and size if and only if 2 <= noise_range <= 64 |
| Noise.GeneratedIsLossless | reference/pearl_reference.py:139-153 | generated noise is lossless on every operand in range, for every accepted rank and every noise_range from 2 to 128 |
| Noise.LosslessExactly | reference/pearl_reference.py:67-86 | over all hashes, seeds, keys and operands in range, an accepted generator never loses anything to the casts if and only if noise_range >= 2 |
| Noise.ShortProductsFit | reference/pearl_reference.py:222-227 | up to the bound every entry of every valid product fits int32 |
| Noise.LongProductOverflows | reference/pearl_reference.py:222-227 | one column further some valid product does not |
| RunTheorem.GeneratedRun | reference/pearl_reference.py:306-328 | a run over generated noise returns A·B modulo 2^32, and A·B iff it fits |
| RunTheorem.ExactUpToBound | reference/pearl_reference.py:307-311 | C is exactly A·B for all valid operands if and only if magnitude squared times k is at most 2^31 - 1 |
| RunTheorem.ExactAtRange128 | reference/pearl_reference.py:307-311 | at noise_range 128 that is k <= 524287 |
| Fragments.MmaIsProduct | cuda/src/mma_gemm_sm86.cu:9-14 | registers filled as the layout says make the warp-wide mma add the true 32-term product |
| Fragments.AHolderUnique | cuda/src/mma_gemm_sm86.cu:11-12 | every element of the 16x32 operand sits in exactly one register byte |
| Fragments.LoadsAreFragments | cuda/src/mine_sm86.cu:346-357 | ldmatrix with k_mine2's row addresses and the direct four-byte loads both yield the A fragment |
| Fragments.CellBijection | cuda/src/mine_sm86.cu:364-370 | (warp, lane, mrow, ncol, element) determines a cell of the 128x128 block and can be read back from it |
| Fragments.CellOnto | cuda/src/mine_sm86.cu:364-370 | every cell of the block is held by some thread and accumulator |
| PipelineSafety.InitInv | cuda/src/mine_sm86.cu:312-329 | the invariant holds at launch with arbitrary shared memory |
| PipelineSafety.StepKeeps | cuda/src/mine_sm86.cu:325-363 | every step of every thread, copy and barrier keeps it, for any number of k-steps |
| PipelineSafety.ReadA | cuda/src/mine_sm86.cu:349-356 | whenever a thread multiplies at step ks it reads slab ks of A from the buffer of its parity |
| PipelineSafety.ReadB | cuda/src/mine_sm86.cu:93-102 | the same for B read straight from its landing buffer |
| PipelineSafety.ReadBst | cuda/src/mine_sm86.cu:340-345 | the same for B read from its restaged copy |
| PipelineSafety.NoOverwriteWhileRead | cuda/src/mine_sm86.cu:330-363 | no copy in flight targets a buffer that some thread may still read |
| RegisterHash.ReduceDownIsXor | cuda/src/mine_sm86.cu:380-384 | the 4/2/1 shuffle-down leaves in lanes 0, 8, 16, 24 the XOR of exactly their eight lanes |
| RegisterHash.ReduceXorIsXor | cuda/src/mine_sm86.cu:129-131 | the butterfly shuffle leaves the XOR of all 32 lanes |
| RegisterHash.Mine2HashIsTile | cuda/src/mine_sm86.cu:364-389 | the reduced register words are the XORs over the two 2x64 tiles of the lane's segment |
| RegisterHash.MineHashIsTile | cuda/src/mine_sm86.cu:121-139 | the same for the 16x16 tiles of k_mine |
| FusedKernel.OneWriter | cuda/src/mine_sm86.cu:384-389 | distinct (block, warp, tile) write distinct transcript addresses |
| FusedKernel.WarpHashIsTrueHash | cuda/src/mine_sm86.cu:364-389 | what a warp computes from its registers is the reference's hash of that tile |
| FusedKernel.GridStepKeeps | cuda/src/mine_sm86.cu:312-395 | a step of one block keeps the invariant of the whole grid and all transcripts |
| FusedKernel.RunKeeps | cuda/src/mine_sm86.cu:312-395 | so does every schedule of every length |
| FusedKernel.FusedRefinesFolds | cuda/src/mine_sm86.cu:312-395 | after any complete run each transcript holds its former contents folded with the tile's chunk hashes |
| FusedKernel.FusedRefinesReference | cuda/src/mine_sm86.cu:312-395 | from zeroed transcripts these are the reference's 16 words, although the kernel wraps every 32 columns and the reference every 128 |
| FusedKernel.GemmCell | cuda/src/mma_gemm_sm86.cu:144-215 | at the end every cell of C is the full wrapped dot product in some accumulator |
| FusedKernel.GemmCellUnique | cuda/src/mma_gemm_sm86.cu:202-214 | and in one accumulator only |
| Progress.WarpsStayTogether | cuda/src/mine_sm86.cu:351-389 | lanes of a warp pass the warp-wide instructions together |
| Progress.NoDeadlock | cuda/src/mine_sm86.cu:330-363 | a block that is not finished can always step |
| Progress.StepsAreFinite | cuda/src/mine_sm86.cu:330-363 | every step uses up some of a natural number of remaining ones |
| Progress.RunKeepsTogether | cuda/src/mine_sm86.cu:312-395 | a run of any length keeps the grid invariant and the lanes of every warp together |
| Progress.EveryRunCompletes | cuda/src/mine_sm86.cu:312-395 | whatever a launch has done so far, by any schedule from its start, some continuation finishes every block |
| Progress.LaunchIsBounded | cuda/src/mine_sm86.cu:312-395 | and none goes on for ever: one bound holds for the length of all schedules of a launch |
| Mining.EveryScheduleMines | cuda/src/mine_sm86.cu:312-395 | all complete runs of a launch leave the same transcripts, a function of the inputs |
| Mining.MinedFromZeros | cuda/src/mine_sm86.cu:312-395 | from zeros that function gives the reference's transcripts at every attempt, row and column |
| Scan.DecodeEncode | cuda/src/mine_sm86.cu:146-154 | encoding a tile and decoding it gives the tile back, below the total |
| Scan.EncodeDecode | cuda/src/mine_sm86.cu:146-154 | and the other way round for every index below the total |
| Scan.DecodeKeepsOrder | cuda/src/mine_sm86.cu:146-154 | flat order is the reference's (i, j, hi, wi) order, both ways |
| Scan.TilesAreDigits | cuda/src/mine_sm86.cu:167-168 | with sizes divisible all the way down, the reference's full tiles are exactly the decodable ones |
| ScanKernels.ThreadWinsIsWins | cuda/src/mine_sm86.cu:171-176 | a scan thread's comparison decides whether its tile wins the job |
| ScanKernels.LeastIndexIsFirst | cuda/src/mine_sm86.cu:164-177 | the smallest winning index is the reference's first winner |
| ScanKernels.BatchWinsIsWins | cuda/src/mine_sm86.cu:228-237 | a flat batch number wins iff its tile wins the job of its attempt |
| ScanKernels.LeastIsFirstAttempt | cuda/src/mine_sm86.cu:221-238 | the least winning number names the first attempt with a winner and its first tile |
| ScanKernels.BestIsLeast | cuda/src/mine_sm86.cu:221-238 | what atomicMin leaves is the least winning number, or outside the batch when nothing wins, exactly when the least winning number is at most the sentinel and no winning number drops below it by the cast to int, or when nothing wins and the sentinel lies outside the batch |
| ScanKernels.EmittedExactly | cuda/src/mine_sm86.cu:240-252 | and exactly then an announced tile is the first winner of the first attempt that has one |
| ScanKernels.SafeWithinSentinel | cuda/src/mine_sm86.cu:222-223 | within the sentinel that condition always holds |
| ScanKernels.FirstAttemptUnique | cuda/src/mine_sm86.cu:221-223 | what has to be announced is unique |
| ScanKernels.OutcomeUnique | cuda/src/mine_sm86.cu:179-199 | found flag, location and, on a find, words are a function of the job |
| ScanKernels.ScanMemory.FindThread | cuda/src/mine_sm86.cu:224-238 | one thread lowers best to its number, cast to int, iff it wins |
| ScanKernels.ScanMemory.Find | cuda/src/mine_sm86.cu:224-238 | in every thread order best ends as the smallest of its former value and the winning numbers |
| ScanKernels.ScanMemory.EmitBatched | cuda/src/mine_sm86.cu:240-252 | no announcement outside the range, with stale words; inside it the tile of the number |
| ScanKernels.ScanMemory.Emit | cuda/src/mine_sm86.cu:179-199 | the same for a single attempt |
| ScanKernels.ScanMemory.EmitOnce | cuda/src/mine_sm86.cu:201-219 | only the first find passes the atomicCAS, later ones change nothing |
| ScanKernels.ScanMemory.ScanOne | cuda/src/mine_sm86.cu:771-774 | memset, find and emit report the job's outcome exactly when the tiles are safe, as they are within the sentinel |
| ScanKernels.ScanMemory.ScanBatch | cuda/src/mine_sm86.cu:530-533 | the lowest attempt with a winner and its first tile, or none, is reported exactly when ScanSafe holds of the attempts, with or without winners; it does within the sentinel, and past it a batch without a winner is announced as a find |
| ScanKernels.ScanMemory.ScanAttempt | cuda/src/mine_sm86.cu:713-716 | one recorded attempt changes the results iff none was found before and it has a winner (or more tiles than the sentinel); what it then announces is right exactly when its tiles are safe |
| ScanKernels.ScanMemory.ScanGraph | cuda/src/mine_sm86.cu:695-717 | a replay reports the first attempt with a winner, or none, exactly when its first attempt is safe by itself, as every attempt within the sentinel is |
| ScanKernels.GraphAgreesWithBatch | cuda/src/mine_sm86.cu:201-252 | replay and stacked scan of the same attempts report the same winner, location and words, or both none |
| GpuSearch.TilePosition | cuda/src/mine_sm86.cu:234 | the scan looks for a tile's transcript where the mining kernel put it |
| GpuSearch.SliceMined | cuda/src/mine_sm86.cu:320-321 | a launch over zeroed transcripts fills every attempt's slice with that attempt's transcripts |
| GpuSearch.Mine2Search | cuda/src/mine_sm86.cu:549-578 | the host search returns the lowest attempt with a winner and its first tile, or none, exactly when the attempts are safe for the scan, or the argument error |
| GpuSearch.SentinelIsTheBound | cuda/src/mine_sm86.cu:221-223 | for given sizes and number of attempts every search, whatever hash, operands, keys and target, is reported right if and only if attempts times tiles is at most 0x7f7f7f7f |
| GpuSearch.FalseFind | cuda/src/mine_sm86.cu:549-578 | 65279 attempts of 2048 x 128 x 2048 without a winner are reported as a find |
| GpuSearch.AgreesWithReference | cuda/src/mine_sm86.cu:544-548 | what it announces is what the reference opens for that attempt; attempts passed over are not found by the reference |
| BatchRun.NoiseAttempt | cuda/src/mine_sm86.cu:524-527 | one attempt's operand is noised with its own slice of the stacked factors |
| BatchRun.OneMoreAttempt | cuda/src/mine_sm86.cu:524-527 | appending an attempt leaves the noised operands before it as they were |
| BatchRun.Mine2BatchRun | cuda/src/mine_sm86.cu:501-542 | with the noising on the device, the batch returns the lowest attempt with a winner and its first tile, or none, exactly when the attempts are safe for the scan, or the argument error |
| NoiseGpu.NgDense | cuda/src/mine_sm86.cu:261-276 | in every thread order the buffer ends as the reference's uniform matrix, the partial last draw included |
| NoiseGpu.NgPerm | cuda/src/mine_sm86.cu:278-299 | on a zeroed buffer the result is the reference's permutation matrix although the last mask is omitted |
| NoiseGpu.NgTranspose | cuda/src/mine_sm86.cu:300-304 | the buffer ends as the transpose |
| NoiseGpu.NoiseKernel | cuda/src/mine_sm86.cu:57-68 | the kernel that casts once leaves the same noised operand as the reference that casts twice |
| Context.PrlMineCtx.Create | cuda/src/mine_sm86.cu:726-750 | null exactly for sizes not divisible by 128; otherwise a context with separate buffers of the right sizes, no key buffers and no graph |
| Context.PrlMineCtx.SetInputs | cuda/src/mine_sm86.cu:826-835 | the operands are the loaded ones |
| Context.SeedsSpell | cuda/src/mine_sm86.cu:744-747 | the seed words are the ASCII bytes of A_tensor and B_tensor followed by zeros |
| Context.PrlMineCtx.GenerateNoise | cuda/src/mine_sm86.cu:796-804 | the five noise kernels leave the uniform and permutation matrices of (A_tensor, keyA) in E_AL and E_AR, and the permutation and transposed uniform matrices of (B_tensor, keyB) in E_BL and E_BR |
| Context.PrlMineCtx.Run | cuda/src/mine_sm86.cu:752-783 | reports the outcome of the search the arguments describe, exactly when its tiles are safe for the scan (always within the sentinel), and loads A and B |
| Context.PrlMineCtx.RunKeyed | cuda/src/mine_sm86.cu:786-821 | the same with noise from two keys |
| Context.PrlMineCtx.RunKeyedPreloaded | cuda/src/mine_sm86.cu:837-869 | the same on the operands last loaded, which stay loaded |
| Context.PrlMineCtx.EnsureKeyBatch | cuda/src/mine_sm86.cu:671-684 | capacity grows to the count and the graph goes with the old buffers; after a failed allocation the capacity stays, a buffer is null, and the context is valid iff the capacity was zero |
| Context.PrlMineCtx.AfterFailedGrowth | cuda/src/mine_sm86.cu:671-684 | after a failed growth a call within the old capacity returns 0 while a key buffer is null |
| Context.PrlMineCtx.BuildBatchGraph | cuda/src/mine_sm86.cu:686-724 | the cached graph always refers to the live key buffers and has the requested count, within capacity |
| Context.PrlMineCtx.LaunchGraph | cuda/src/mine_sm86.cu:695-717 | a replay through the captured addresses reports the first of the attempts with a winner, exactly when the first attempt is safe by itself (always within the sentinel) |
| Context.PrlMineCtx.RunBatch | cuda/src/mine_sm86.cu:871-895 | the whole batch call: the same, or the argument error |
| Context.BatchOutcomeUnique | cuda/src/mine_sm86.cu:871-895 | a batch's report is a function of its jobs |
| Context.Play | cuda/src/mine_sm86.cu:752-895 | any sequence of successful calls keeps the context valid, and the loaded operands are those of the last call that set them |
| Context.LikeAFreshRun | cuda/src/mine_sm86.cu:837-869 | within the sentinel, after any history a keyed call returns what a new context returns for the same operands and keys |
| Context.LikeAFreshBatch | cuda/src/mine_sm86.cu:871-895 | the same for a batch |
| EndToEnd.OutcomeIsReport | cuda/src/mine_sm86.cu:179-199 | a device outcome and a reference report of one job say the same: flag, rows, columns, words |
| EndToEnd.SameJob | cuda/src/mine_sm86.cu:767-774 | context and reference search the same job for the same operands, factors, key and target |
| EndToEnd.KeyedRunsAgree | cuda/src/mine_sm86.cu:785-821 | run_keyed and the reference's run both report the search over the noise generated from (A_tensor, keyA) and (B_tensor, keyB) under keyA: the same tile with the same words or both nothing; the reference's C is A·B modulo 2^32 |
| EndToEnd.NaiveRunAgrees | cuda/src/naive_sm86.cu:202-252 | prl_naive_run and the reference's run both report the search over the given operands, factors, key and target: the same found flag, tile and words, and the same C where noising loses nothing |
| EndToEnd.NonceWinsInReference | miner/backends.py:164-195 | a nonce wins on the device exactly when the reference's search over the same header, keys and target finds |
| Naive.CellUnique | cuda/src/naive_sm86.cu:122-126 | every cell of Cscr belongs to one block and one element |
| Naive.TileUnique | cuda/src/naive_sm86.cu:137-138 | block-local tiles map to absolute transcripts without collision |
| Naive.NaiveGrid.Element | cuda/src/naive_sm86.cu:115-127 | zeroing an element or adding a chunk to it keeps the invariant of all blocks |
| Naive.NaiveGrid.Tile | cuda/src/naive_sm86.cu:131-141 | hashing a tile in place is the next step of the reference's transcript |
| Naive.NaiveGrid.Barrier | cuda/src/naive_sm86.cu:116-142 | a block passes its barrier only with nothing pending, and keeps the invariant |
| Naive.NaiveGrid.Play | cuda/src/naive_sm86.cu:105-144 | every interleaving of blocks and elements keeps the invariant |
| Naive.NaiveGrid.RunOn | cuda/src/naive_sm86.cu:105-144 | from every valid grid, however its blocks, elements and tiles are picked, all blocks get to their end |
| Naive.PlaceOf | cuda/src/naive_sm86.cu:118-143 | whatever a block has pending is an element or a tile of it that can be treated |
| Naive.StepCounts | cuda/src/naive_sm86.cu:118-143 | every barrier and every treated element or tile uses up some of the grid's remaining steps |
| Naive.NaiveTranscripts | cuda/src/naive_sm86.cu:102-104 | once all blocks are over the buffer holds the reference's transcript of every tile |
| Naive.GemmPlain | cuda/src/naive_sm86.cu:93-100 | C is A·B modulo 2^32, which is what the reference's run returns |
| Naive.PowScan.Scan | cuda/src/naive_sm86.cu:148-173 | the nested loops with early return report the job's outcome |
| Naive.NaiveSearch | cuda/src/naive_sm86.cu:236-238 | mining in any order, to its end, and then scanning gives the reference's found flag, origin and words |
| NaiveRun.PrlNaiveRun | cuda/src/naive_sm86.cu:202-252 | the host call from raw operands and factors: the argument error exactly for indivisible sizes; otherwise C is A·B modulo 2^32 and the outcome that of the search over the noised operands |
| MmaGemm.StepHolds | cuda/src/mma_gemm_sm86.cu:33-52 | one mma extends a tile's wrapped dot products by 32 columns |
| MmaGemm.CHolder | cuda/src/mma_gemm_sm86.cu:14 | every cell of a 16x8 tile is held by one lane and accumulator and by no other |
| MmaGemm.MmaGemmKernel | cuda/src/mma_gemm_sm86.cu:25-57 | the warp-per-tile kernel leaves A·B modulo 2^32 in C for all admissible sizes |
| SmemGemm.StepSound | cuda/src/mma_gemm_sm86.cu:79-116 | every step of a block, in any order between its barriers, keeps what its registers and shared memory hold, for any number of slabs |
| SmemGemm.OuterStep | cuda/src/mma_gemm_sm86.cu:117-129 | a tile written by one warp leaves those that any block has written as they are |
| SmemGemm.StepCounts | cuda/src/mma_gemm_sm86.cu:79-130 | every step uses up some of a block's remaining ones |
| MmaGemm.SubNumber | cuda/src/mma_gemm_sm86.cu:117-129 | every tile of a block belongs to one warp, row fragment and column fragment |
| SmemGemm.SmemGemmKernel | cuda/src/mma_gemm_sm86.cu:64-130 | for every interleaving of blocks, threads and warps the shared-memory kernel comes to its end with A·B modulo 2^32 in C |
| MmaGemm.CpAsyncStore | cuda/src/mma_gemm_sm86.cu:202-214 | after any complete run of the double-buffered kernel its write-out leaves A·B modulo 2^32 in C |
| Gateway.HeaderLayout | miner/mock_gateway.py:69-71 | a header is the eight letters PEARLHDR, the epoch in eight bytes, least significant first, and zeros up to 80 |
| Gateway.HeaderIdentity | miner/mock_gateway.py:69-71 | headers of different epochs have different bytes, below 2^64 rotations |
| Gateway.MockGateway.constructor | miner/mock_gateway.py:55-67 | a new gateway satisfies the accounting invariant |
| Gateway.MockGateway.NextJob | miner/mock_gateway.py:73-81 | paused exactly for the first calls, then the current header; the epoch grows by one exactly at every rotate_after-th call after the pause, so it is (calls - paused_first) / rotate_after rounded down |
| Gateway.MockGateway.RecordSubmit | miner/mock_gateway.py:83-91 | every submission is recorded and either accepted under its header or dropped, exactly when the header is not current |
| Backend.CudaMineBackend.Preload | miner/backends.py:166-172 | the operands on the device are those of the job's header, whatever was loaded before |
| Backend.CudaMineBackend.Search | miner/backends.py:164-195 | the attempts it reports, a whole batch if nothing is found, are nonces of which only the last can win; it finds iff that one wins, and shows its first tile |
| MineLoop.SafetyMonitor.CheckThermal | miner/runtime.py:82-91 | a reason iff some readable sensor is at its limit, the GPU's own first |
| MineLoop.JobManager.Poll | miner/runtime.py:107-115 | the current job, changed iff its header is new; a pause leaves the baseline alone |
| MineLoop.MoreNonces | miner/runtime.py:157-163 | a search extends the evaluated nonces of its header and the log of found results stays exact and ordered |
| MineLoop.Miner.Account | miner/runtime.py:158-163 | attempts, work units and log after a search |
| MineLoop.Miner.Submit | miner/runtime.py:178-190 | submitted grows by one, accepted or rejected as acknowledged, and the gateway receives the job unless the request is lost |
| MineLoop.Miner.Settle | miner/runtime.py:165-190 | a found result is counted stale if and only if it is confirmed and the confirming call is paused or shows another header, aborts if and only if confirming raises, and is submitted otherwise; nothing outdated arrives with stale_cancel |
| MineLoop.Miner.OneTurn | miner/runtime.py:136-195 | a pass that polls a job on a cool device evaluates nonces, a whole batch if it finds nothing; any other pass evaluates none; counters and submissions move exactly as the fate of a found result says; all accounts are kept |
| MineLoop.Miner.RunLoop | miner/runtime.py:136-197 | over every run: all but the paused cool turns evaluate nonces, stale moves only with stale_cancel and a rotating gateway, and the accounts below hold |
| MineLoop.Mine | miner/runtime.py:128-197 | every winning nonce below attempt of every header was reported once and nothing else was; found is submitted plus stale, submitted is accepted plus rejected; stale is 0 without stale_cancel or rotation, and then the gateway receives exactly one submission per winning nonce, in order; in general it receives some of them, each once and in order; dropped_stale does not move and the gateway's accepted total grows by metrics.accepted |

## Left out

- BLAKE3 internals and the message schedule: the hash is a parameter.
- `tests/`, golden vectors, benches, error strings, events, `cudaMalloc` failures other than those of the key buffers, ctypes marshalling and dtype checks.
- int64 intermediates of the reference are unbounded integers: truncation to int32 of a sum modulo 2^64 and of the exact sum agree.
- Integer overflow in index arithmetic (`m*k`, 2^31 or more tiles in a single attempt, `attempt` beyond 64 bits), runs on empty operands (create accepts them, a launch with an empty grid fails), more than 0x7f7f7f7f attempts in one graph, and launch limits such as 65535 blocks in z.
- Context.LikeAFreshRun: stated for contexts whose attempts stay within the scan's sentinel; beyond it `ScanKernels.Reported` says when a run is right.
- Context.LikeAFreshBatch: the same, with `ScanKernels.BatchReported`.
- EndToEnd.KeyedRunsAgree: the same.
- Backend.CudaMineBackend.Search: a context within the sentinel and batches of at most 0x7f7f7f7f nonces.
- Pipeline.Apply: k_mine and k_mma_gemm_cpasync fetch their B fragments once before the row loop; the second fetches them inside it, from memory that does not change in between.
- RegisterHash.Mine2HashIsTile: the shuffles of a warp, and its transcript updates after a chunk, are one atomic step of the state machine; no other thread touches those transcripts.
- Mining.Mined: host code runs a launch as one step; that all interleavings end there is `Mining.EveryScheduleMines`.
- Naive.NaiveSearch: a block's element (or tile) is treated in one step, although the kernel's thread spends several instructions on it; no other thread reads or writes what it changes.
- SmemGemm.SmemGemmKernel: a warp's mma on a tile, and its write-out of a tile, are one step each; no other thread touches those registers and cells.
- MmaGemm.CpAsyncStore: the threads of a block write in a fixed order.
- Backend.CudaMineBackend.Search: operands and keys synthesized from a header are uninterpreted functions of header and nonce; other backends (CPU, naive) are not modelled.
- MineLoop.Mine: clocks, sleeps, status lines and reconnects; the loop's exit and everything the environment does is a script of arbitrary length. Callbacks may raise only on the submit event.
- Gateway.MockGateway.RecordSubmit: submissions of other clients, and the exception that an epoch of 2^64 would raise.
- Metrics.status_line, `note_invalid_proof` (never called by the loop), configuration, NVML, pool clients, proofs and commitments: they rest on code outside these files or only format values.
- `cuda/src/noisy_gemm_sm86.cu`, `job_runner.cu`, `proof_extract_sm86.cu`: they return "not implemented".
