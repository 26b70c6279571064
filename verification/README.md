# VxEngine: a verified model of the software stack

VxEngine is a vector and matrix accelerator with two vector processing units (VPUs) of eight
hardware threads each. Its software compiles pipeline stages into programs of 64-bit command
words, checks and patches those programs, runs them in an emulator or on the hardware, and lets
many callers share buffers through a kernel driver. This project models that chain and proves
what it keeps.

Element arithmetic is abstract throughout: a product sum is a fixed left fold, so every statement
is an exact equality for any addition, multiplication and activation, rounding ones included.

| file | content |
|---|---|
| Isa, WordForms | command words, their fields, decoding and patching |
| Checker, Assembler | the static program checker as a function and as the in-place pass of emulator and kernel |
| Acceptance | which programs are accepted, said of the words alone |
| Demand | what a program asks of its resources, read off the words alone |
| Semantics, Commands, Executor | the abstract machine, what each command does to it, and the in-place single-threaded executor proved against it |
| Soundness, Tightness | accepted programs are safe and, if settled, independent of leftover thread states; refused ranges are real overruns |
| Verdicts | what verification of a stage decides, in integers |
| CodeGen, Stages, Pipeline | the code generator object, stage checks, the compile and update loops |
| Bindings, EnableCache, Completeness | bindings, the enable cache, and the demand of compiled code |
| Reference, Hazards | the meaning of stages, and exactly when the cut into batches shows |
| Elements | the results of compiled code, element by element, from the descriptors alone |
| Correctness, EndToEnd, Exactness, Fitting, Matrices | compiler correctness, and how exact its conditions are |
| MtProd | the multi-threaded executor as a step system |
| KernelProg, Rebinding | hardware accesses, kernel patching and re-binding |
| Backend, Recompile, UserPipeline | the emulator's buffer table, update against recompilation, and pipelines on top of it |
| KernelBuffers, Driver, References, Ownership, JobOrder, Leaks | the kernel driver as a step system |
| Progress | what each call into the driver achieves |
| Numerals, Tokens, AsmText, AsmRoundTrip, AsmProgram, AsmLines | assembler and disassembler |
| Wrappers, Totals | optional values, sums |

`dafny verify dfyconfig.toml` checks the whole project.

## Main results

- Compiler correctness (EndToEnd, Matrices, UserPipeline). For any list of verified stages of any
  sizes whose jobs lie in their buffers, and any VPU mask that leaves a VPU, the compiled program is
  accepted and, executed from any thread states, leaves memory as the stages evaluated in batches.
  It is the stages evaluated one by one if no job whose result remains reads what an earlier batch
  of its stage writes, and for a single stage only if (Hazards.BatchesHiddenIff,
  Exactness.StageCorrectIff). Elements says what that is for every vector, row and cell: the
  activated sum, from left to right, of its bias and the products of its operands.
- Checker soundness (Soundness) on arbitrary words and over whole histories of programs; the range
  checks are exact, refusing only what would overrun (Tightness.AcceptedIffDefined); acceptance
  as a property of the words (Acceptance); and exact completeness for compiled code (Fitting).
- Multi-threaded execution refines single-threaded execution in every interleaving, without
  deadlock, and ends under every scheduler, whatever its choices depend on (MtProd).
- The hardware touches exactly what the words say, every byte inside the DMA range of the buffer
  bound to the resource, after assembly (KernelProg.AssembledSafe) and, for a command buffer object
  with single lengths, after any history of swaps (KernelProg.CmdBufferSafe,
  Rebinding.CompiledBufferSafe); and exactly when a swap is safe (KernelProg.SwapSafeIff).
- Update equals recompilation, with exact bind counts (Backend, Recompile).
- Reference safety, command buffer exclusivity, first-in-first-out numbering, fences and the job
  limit over all runs of the driver (References, Ownership, JobOrder, Leaks); and every call
  succeeds with its whole effect where it should, or leaves nothing behind (Progress).
- The exact set of words and programs that survive disassembling and assembling (AsmRoundTrip,
  AsmProgram).

## What the proofs found

- An empty destination vector placed right behind its buffer passes the pipeline's verification,
  and the compiled program is then rejected; so is any descriptor whose index range wraps around
  32 bits. Fitting.CompiledAccepted gives the guard that is missing.
- A user mask that disables both VPUs compiles to a program that binds and computes nothing, and
  reports success (Bindings.GeneratedBindings).
- With a hazard inside a stage the result can depend on the number of usable threads:
  Exactness.MaskShows has a verified stage that computes one thing when the user allows one VPU and
  another when he allows both. Hazards.BatchesHiddenIff tells exactly which stages cannot.
- The checkers record the last length a resource is used with, not the greatest. Re-binding is safe
  exactly for programs with one length per resource, which all compiled ones are
  (KernelProg.SwapSafeIff, Rebinding.SwapCanOverrun).
- A failed kernel update keeps the bindings it made; the buffers concerned can never be destroyed
  again (Leaks.LeakedForever).
- The encoder of `relu` with a VPU operand leaves its payload uninitialised, so such a line comes
  back only if the payload happens to match (AsmRoundTrip.LineRoundTrip, parameter `junk`).
- A comma behind the last operand is an error at the end of a line, but passes in front of a
  comment (AsmLines.DanglingComma).
- A leaky ReLU word shows any non-zero scale factor as a negative number; the round trip holds all
  the same.

## Assumptions

- The device has two VPUs and executes with both enabled; compiling is modelled for every user mask.
- Descriptor offsets, lengths and dimensions are 32-bit and checked in 32 bits, wrap-around
  included. Data buffers hold fewer than 2^30 elements, resource tables at most 2^32 slots. A program for
  the emulator has fewer than 2^29 - 1 commands: its byte size is computed in 32 bits, and a longer
  one is copied past the end of its allocation.
- The error variables of the two checkers start at 0, which matters for empty programs only.
- A special operation of unknown type is reported but compiled as none, as in the code.
- Command words follow the bit layouts of sw/kd/vxe_prog.c:39-106. DMA buffers are 4-byte aligned
  within 40 bits. Bind counts do not overflow.
- The semaphores of the multi-threaded executor start at 0 and have a maximum of 1
  (sw/ud/src/backend/swemu/swemu_sema.hxx), so a signal to a raised semaphore is lost;
  MtProd.NoSignalLost shows that this never happens.
- Characters are classified as in the C locale; numbers follow strtoull and strtol with base 0 on a
  platform with 64-bit long.

## Model

| member | source | states |
|---|---|---|
| Isa.Decode | sw/kd/vxe_prog.c:39-106 | every word decodes to a command whose thread, length and address lie in their ranges |
| Isa.PatchDecodes | sw/ud/src/backend/swemu/swemu_prog.cxx:166-203 | patching a SETRx word sets its address and keeps opcode, register and thread |
| Isa.ReplacePatched | sw/kd/vxe_prog.c:684-692 | re-patching a patched word gives the word patched with the new address directly |
| WordForms.WordMeans | sw/kd/vxe_prog.c:39-106 | every word put together from opcode, VPU, thread and payload bits, and the command and operand it stands for, opcode by opcode |
| WordForms.ClosingSync | sw/ud/src/backend/swemu/swemu_prog.cxx:413-418 | the closing command stops the program and raises the interrupt |
| WordForms.PatchMeans | sw/ud/src/backend/swemu/swemu_prog.cxx:166-203 | patching replaces the payload by the address and keeps opcode, VPU and thread |
| Checker.RunAppend | sw/ud/src/backend/swemu/swemu_prog.cxx:360-421 | checking is compositional: a program is accepted iff its first part is and the rest is from there |
| Checker.VerifProdMeans | sw/ud/src/backend/swemu/swemu_prog.cxx:65-105 | PROD is accepted iff every reached thread is decided and every enabled one has accumulator, operands and length set and in range |
| Checker.VerifStoreMeans | sw/ud/src/backend/swemu/swemu_prog.cxx:108-137 | STORE is accepted iff every reached thread is decided and every enabled one has an accumulator and room for its result |
| Checker.VerifProdSplit | sw/kd/vxe_prog.c:357-377 | the broadcast over VPUs is one walk over all threads, the first failure deciding |
| Checker.Accepted | sw/ud/src/backend/swemu/swemu_prog.cxx:166-283 | in an accepted program the k-th SETRx takes resource k, is patched with its address and recorded as its command; all other words stay, unused resources are untouched |
| Acceptance.AcceptedMeans | sw/ud/src/backend/swemu/swemu_prog.cxx:65-137 | acceptance said of the words alone: no invalid opcode or stopping SYNC, every SETRx finds a resource that starts inside its buffer, every thread a PROD or STORE reaches has been decided and, when on, given all it needs with room for what it touches |
| Assembler.ProgramAssembler.constructor | sw/ud/src/backend/swemu/swemu_prog.cxx:354-357 | initial thread states, resources unrecorded, program copied in front of the reserved slot |
| Assembler.ProgramAssembler.VerifPROD | sw/ud/src/backend/swemu/swemu_prog.cxx:65-105 | in place, the lengths and the error of the walk over one VPU |
| Assembler.ProgramAssembler.VerifSTORE | sw/ud/src/backend/swemu/swemu_prog.cxx:108-137 | in place, the lengths and the error of the walk over one VPU |
| Assembler.ProgramAssembler.PrepPROD | sw/ud/src/backend/swemu/swemu_prog.cxx:299-317 | one VPU or all of them, equal to the walk over that thread range |
| Assembler.ProgramAssembler.PrepSTORE | sw/ud/src/backend/swemu/swemu_prog.cxx:320-338 | one VPU or all of them, equal to the walk over that thread range |
| Assembler.ProgramAssembler.PrepSETREG | sw/ud/src/backend/swemu/swemu_prog.cxx:166-203 | takes the next resource, binds it to the thread, patches and records the command, or reports EINVAL |
| Assembler.ProgramAssembler.PrepCommand | sw/ud/src/backend/swemu/swemu_prog.cxx:360-405 | one command of the opcode switch equals one step of the checker, later words untouched |
| Assembler.ProgramAssembler.PrepareProg | sw/ud/src/backend/swemu/swemu_prog.cxx:360-421 | the in-place pass returns EINVAL exactly when the checker rejects, else leaves its state, the patched words and the closing SYNC |
| Demand.AcceptIff | sw/kd/vxe_prog.c:311-354 | acceptance separates: accepted iff the words are well formed by themselves and every consumed resource has room for the greatest length it is used with; the recorded length is the last one |
| Demand.StepFactor | sw/ud/src/backend/swemu/swemu_prog.cxx:360-405 | one checker step is one step on the words alone plus the room check of the resources |
| Semantics.RunAppend | sw/ud/src/backend/swemu/swemu_exec.cxx:350-397 | execution is compositional, undefined behaviour included |
| Semantics.StoreKeepsShape | sw/ud/src/backend/swemu/swemu_exec.cxx:236-256 | STORE changes no buffer length |
| Semantics.StoreSplit | sw/ud/src/backend/swemu/swemu_exec.cxx:236-256 | STORE over all VPUs is STORE VPU by VPU in thread order |
| Commands.ProdMeans | sw/ud/src/backend/swemu/swemu_exec.cxx:176-196 | PROD is defined iff the vectors of every thread taking part lie in their buffers; each adds its products to its accumulator from left to right, and nothing else changes |
| Commands.StoreMeans | sw/ud/src/backend/swemu/swemu_exec.cxx:236-256 | an element holds the accumulator of the last thread taking part that points to it, or what it held before |
| Commands.ActMeans | sw/ud/src/backend/swemu/swemu_exec.cxx:259-296 | exactly the accumulators of the threads taking part are activated |
| Commands.SetMeans | sw/ud/src/backend/swemu/swemu_exec.cxx:94-173 | a register is set in one thread only, and only when its VPU is on |
| Commands.SetRegMeans | sw/ud/src/backend/swemu/swemu_exec.cxx:94-160 | SETRx is defined iff its resource number is bound and its index inside the buffer; it sets one pointer |
| Executor.ProgramExecutor.CompVecProd | sw/ud/src/backend/swemu/swemu_exec.cxx:299-306 | one thread accumulates its product left to right, or nothing when disabled |
| Executor.ProgramExecutor.ExecPROD | sw/ud/src/backend/swemu/swemu_exec.cxx:176-196 | every reached, enabled thread accumulates; all else unchanged |
| Executor.ProgramExecutor.ExecSTORE | sw/ud/src/backend/swemu/swemu_exec.cxx:236-256 | accumulators are written in thread order, later writers winning |
| Executor.ProgramExecutor.ExecACTF | sw/ud/src/backend/swemu/swemu_exec.cxx:259-296 | the activation is applied to every reached, enabled accumulator |
| Executor.ProgramExecutor.ExecCommand | sw/ud/src/backend/swemu/swemu_exec.cxx:350-397 | one command changes registers and memory as the abstract machine |
| Executor.ProgramExecutor.Execute | sw/ud/src/backend/swemu/swemu_exec.cxx:350-397 | a whole program ends where the abstract machine does, from the thread states left by the previous one |
| Soundness.StepSound | sw/ud/src/backend/swemu/swemu_prog.cxx:65-137 | one accepted command is defined on every machine the checker state describes, and the description holds afterwards |
| Soundness.SetRegSound | sw/ud/src/backend/swemu/swemu_exec.cxx:94-160 | a patched SETRx resolves to the buffer and index it was checked against |
| Soundness.RunSound | sw/ud/src/backend/swemu/swemu_prog.cxx:360-421 | simulation over any accepted words: execution is defined and the checker state describes its result |
| Soundness.CheckerSound | sw/ud/src/backend/swemu/swemu_prog.cxx:65-137 | for any 64-bit words: once accepted, execution from any thread states and under any VPU mask reads and writes inside the bound buffers only |
| Soundness.HistorySound | sw/ud/src/backend/swemu/swemu_exec.cxx:350-397 | the same over any sequence of accepted programs on one executor |
| Tightness.AcceptedIffDefined | sw/ud/src/backend/swemu/swemu_prog.cxx:65-137 | the range checks are exact: well-formed words are accepted iff executing them with both VPUs on is defined, from any thread states |
| Soundness.LeftoverIndependent | sw/ud/src/backend/swemu/swemu_exec.cxx:350-397 | two runs of an accepted program from equal buffers and any two thread states end in equal buffers when no activation reaches a set accumulator with an undecided enable bit |
| CodeGen.CodeGenerator.constructor | sw/ud/src/codegen.cxx:46-75 | threads of the enabled and disabled VPUs in order, nothing emitted |
| CodeGen.CodeGenerator.Reset | sw/ud/src/codegen.cxx:78-86 | forgets program, bindings and every remembered enable bit |
| CodeGen.CodeGenerator.PrepareThreads | sw/ud/src/codegen.cxx:89-94 | emits a disabling SETEN for every thread of a masked VPU |
| CodeGen.CodeGenerator.AllocThread | sw/ud/src/codegen.cxx:97-129 | fails exactly when no thread is left; else emits the load of the job and appends its three bindings |
| CodeGen.CodeGenerator.DisableThread | sw/ud/src/codegen.cxx:134-140 | emits a disabling SETEN unless the thread is known to be off |
| CodeGen.CodeGenerator.FinalizeBatch | sw/ud/src/codegen.cxx:132-143 | disables the threads not allocated and starts a new batch |
| CodeGen.CodeGenerator.Finish | sw/ud/src/pipeline.cxx:93-111 | finalize, PROD, activation, STORE |
| CodeGen.CodeGenerator.PlaceJob | sw/ud/src/pipeline.cxx:320-325 | allocates, finishing a full batch first |
| CodeGen.FreshOnDevice | sw/ud/src/codegen.cxx:46-75 | unless the mask disables both VPUs there are eight or sixteen usable threads, numbered in order, all with unknown enable bits |
| Stages.VerifyMeans | sw/ud/src/pipeline.cxx:181-302 | a stage passes iff each of its descriptors passes |
| Verdicts.VerdictMeans | sw/ud/src/pipeline.cxx:151-302 | success iff in every descriptor the lengths are at most 1048575, the last indexes lie inside the buffers in 32 bits, the dimensions and bias shapes agree and the destination has room; otherwise the first bad descriptor decides, out of range iff its first bad operand is short but outside |
| Stages.AdvanceClosed | sw/ud/src/pipeline.cxx:355-356 | stepping a 32-bit index k times is one multiplication modulo 2^32 |
| Stages.RowStartClosed | sw/ud/src/pipeline.cxx:376-390 | the index reached for row r, column c of a result is base + r * n + c modulo 2^32 |
| Pipeline.VerifyVxV | sw/ud/src/pipeline.cxx:181-216 | the loop returns the verdict of the first failing descriptor |
| Pipeline.VerifyMxV | sw/ud/src/pipeline.cxx:219-259 | the loop returns the verdict of the first failing descriptor |
| Pipeline.VerifyMxM | sw/ud/src/pipeline.cxx:262-302 | the loop returns the verdict of the first failing descriptor |
| Pipeline.CompileRows | sw/ud/src/pipeline.cxx:337-357 | the row loop places the jobs of a matrix-vector product in order |
| Pipeline.CompileCells | sw/ud/src/pipeline.cxx:377-388 | the inner loop places the jobs of one result row and leaves the result index behind it |
| Pipeline.CompileProduct | sw/ud/src/pipeline.cxx:369-391 | both loops place the jobs of a matrix product row by row |
| Pipeline.CompileStage | sw/ud/src/pipeline.cxx:305-396 | a stage emits its jobs in batches and closes the last one |
| Pipeline.UpdateRows | sw/ud/src/pipeline.cxx:413-429 | lists the bindings of the row jobs |
| Pipeline.UpdateCells | sw/ud/src/pipeline.cxx:440-448 | lists the bindings of one result row |
| Pipeline.UpdateProduct | sw/ud/src/pipeline.cxx:432-452 | lists the bindings of a matrix product |
| Pipeline.UpdateStage | sw/ud/src/pipeline.cxx:399-452 | lists exactly the bindings of the jobs of a stage |
| Pipeline.VerifyAll | sw/ud/src/pipeline.cxx:459-495 | succeeds iff every stage verifies, else returns the first failing verdict |
| Pipeline.Init | sw/ud/src/pipeline.cxx:459-512 | the first failing verdict, or after verification the program and bindings of all stages one after the other |
| Pipeline.Update | sw/ud/src/pipeline.cxx:533-576 | the first failing verdict, or after verification the bindings of all jobs of all stages |
| Bindings.GeneratedBindings | sw/ud/src/pipeline.cxx:459-530 | compiling records the three bindings of every job in order, or nothing at all when the mask leaves no thread |
| Bindings.RecompileOnlyRebinds | sw/ud/src/pipeline.cxx:399-452 | for equal shapes, biases and special operations recompiling gives the same words, and the bindings are the list update makes |
| Bindings.BindingLimit | sw/kd/vxe_ioctl.h:32-35 | 17 * bindings <= 10 * commands for any stages; a program within the command limit is within the binding limit |
| EnableCache.DecodeSetReg | sw/vxeasm/vxe_instr.hxx:176-199 | generated register loads decode to the thread, the register and the shifted address |
| EnableCache.DecodeTail | sw/ud/src/pipeline.cxx:93-111 | PROD, activation and STORE of a batch reach all sixteen threads |
| EnableCache.CacheInvariant | sw/ud/src/codegen.cxx:97-143 | after any calls every remembered enable bit, undefined ones included, is the one running the emitted program gives |
| EnableCache.LeanInvariant | sw/ud/src/codegen.cxx:97-143 | after any calls no emitted SETEN repeats what the program has already said of its thread |
| EnableCache.MaskMeans | sw/ud/src/codegen.cxx:46-94 | a thread is usable iff the mask has the bit of its VPU; all others are switched off first |
| EnableCache.FinalizeExact | sw/ud/src/codegen.cxx:132-143 | after finalize exactly the threads allocated since the previous one are enabled |
| Completeness.FinishTracks | sw/ud/src/pipeline.cxx:93-111 | closing a batch keeps the emitted program well formed and uses up exactly the pending bindings |
| Completeness.GeneratedDemand | sw/ud/src/pipeline.cxx:305-396 | every compiled program is well formed, consumes its bindings one by one and uses each with exactly one length |
| Correctness.AcceptedIffFits | sw/ud/src/backend/swemu/swemu_prog.cxx:360-421 | a compiled program is accepted with its own bindings iff every job lies inside its buffers |
| Correctness.BatchComputes | sw/ud/src/backend/swemu/swemu_exec.cxx:176-196 | PROD and activation on a loaded batch leave each job's value in its accumulator |
| Correctness.TailExecutes | sw/ud/src/pipeline.cxx:93-111 | the tail of a batch writes the results of its jobs in order |
| Fitting.CompiledAccepted | sw/ud/src/pipeline.cxx:151-178 | completeness, exactly: verified stages compile to an accepted program iff no used index range wraps and every scalar result index is inside its buffer |
| Fitting.StageFits | sw/ud/src/pipeline.cxx:151-178 | a verified stage's jobs fit iff its descriptors pass that guard |
| Fitting.MxVFits | sw/ud/src/pipeline.cxx:219-259 | the same for one matrix-vector descriptor |
| Fitting.MxMFits | sw/ud/src/pipeline.cxx:262-302 | the same for one matrix product descriptor |
| Fitting.EmptyDestinationRejected | sw/ud/src/pipeline.cxx:151-163 | an empty destination vector right behind its buffer verifies, and its program is rejected |
| Reference.LastWriter | sw/ud/src/backend/swemu/swemu_exec.cxx:236-256 | the last job writing an element determines it |
| Reference.Untouched | sw/ud/src/backend/swemu/swemu_exec.cxx:236-256 | elements no job writes keep their value |
| Reference.BatchesCompose | sw/ud/src/pipeline.cxx:320-325 | without hazards a stage may be cut into batches anywhere |
| Hazards.BatchSizeIrrelevant | sw/ud/src/pipeline.cxx:305-396 | without hazards the number of threads per batch does not show |
| Hazards.BatchedRemains | sw/ud/src/pipeline.cxx:320-325 | a result that remains was computed from the memory its own batch started with |
| Hazards.BatchedIsStage | sw/ud/src/pipeline.cxx:320-325 | batches of n do not show when no job whose result remains reads what an earlier batch writes, whatever the arithmetic |
| Hazards.BatchesHiddenIff | sw/ud/src/pipeline.cxx:320-325 | that condition is exact: for buffers of any lengths it holds if and only if batches of n never show, for any contents and arithmetic |
| Reference.HazardShows | sw/ud/src/pipeline.cxx:320-325 | for every batch size there are jobs whose result depends on it |
| EndToEnd.AllocExecutes | sw/ud/src/codegen.cxx:97-129 | executing the load of a job changes no memory and sets its accumulator to the bias |
| EndToEnd.FinishExecutes | sw/ud/src/pipeline.cxx:93-111 | executing a closed batch stores its results |
| EndToEnd.CompiledBatches | sw/ud/src/pipeline.cxx:305-396 | for all fitting stages: compiled, checked and executed from any thread states, memory is that of the stages evaluated in batches of as many jobs as there are usable threads |
| EndToEnd.CompilerCorrect | sw/ud/src/pipeline.cxx:305-396 | compiler correctness: if no job whose result remains reads what an earlier batch of its stage writes, memory is that of evaluating the stages one by one, last writer winning |
| Exactness.StageCorrectIff | sw/ud/src/pipeline.cxx:305-396 | for one compiled stage that condition is exact: it holds iff compiled code computes the stage for every arithmetic, contents and thread states |
| Exactness.MaskShows | sw/ud/src/pipeline.cxx:320-325 | a stage that verifies and is accepted, and computes different results when the user allows one VPU and when he allows two |
| Matrices.RowMeaning | sw/ud/src/pipeline.cxx:331-360 | row r of a matrix-vector product uses matrix row r, bias r and result element r |
| Matrices.CellMeaning | sw/ud/src/pipeline.cxx:363-396 | cell (r, k) of a product uses row r of the first and row k of the transposed second matrix, and bias and result number r * n + k |
| Matrices.ProductCell | sw/ud/src/pipeline.cxx:363-396 | after a matrix product stage of any number of descriptors each result cell holds its activated bias plus product sum, unless a later result matrix covers it |
| Elements.DotIsLastSum | sw/ud/src/backend/swemu/swemu_exec.cxx:299-306 | the product sum is the last of the partial sums acc, acc + x0 * y0, and so on |
| Elements.SignExtendMeans | sw/ud/src/backend/swemu/swemu_exec.cxx:259-296 | the 7-bit exponent is read as the number from -64 to 63 it is congruent to |
| Elements.VectorStageRuns | sw/ud/src/pipeline.cxx:305-328 | after compiling, checking and running a vector stage, each result that remains is the activated sum, by the operation in its descriptor, of its bias bits and the products of its vectors |
| Elements.RowStageRuns | sw/ud/src/pipeline.cxx:331-360 | the same for each row of a matrix-vector stage |
| Elements.CellStageRuns | sw/ud/src/pipeline.cxx:363-396 | the same for each cell of a matrix product stage |
| Elements.StagesInTurn | sw/ud/src/pipeline.cxx:459-530 | compiling stages together leaves what compiling them apart and running one after the other leaves |
| Matrices.VerifiedPipelineCorrect | sw/ud/src/pipeline.cxx:459-530 | compiler correctness stated on verified descriptors alone |
| MtProd.MultiRefinesSingle | sw/ud/src/backend/swemu/swemu_exec.cxx:199-233 | in every interleaving, when the program has ended the machine is the single-threaded one, workers sleep and semaphores are down |
| MtProd.StepKeeps | sw/ud/src/backend/swemu/swemu_exec.cxx:199-233 | every step of dispatcher or worker keeps the protocol invariant |
| MtProd.NoSignalLost | sw/ud/src/backend/swemu/swemu_sema.hxx:65-72 | a semaphore is raised only when it is down, so its maximum of one loses nothing |
| MtProd.NoDeadlock | sw/ud/src/backend/swemu/swemu_exec.cxx:199-233 | in every reachable state before the end some step is possible |
| MtProd.WorkersSafe | sw/ud/src/backend/swemu/swemu_exec.cxx:322-330 | a worker is blocked on its semaphore only, never on an invalid read |
| MtProd.EveryStepShrinks | sw/ud/src/backend/swemu/swemu_exec.cxx:199-233 | every step reaches the next command or leaves less of the present one |
| MtProd.EverySchedulerEnds | sw/ud/src/backend/swemu/swemu_exec.cxx:199-233 | under every scheduler, whatever part of the past it looks at, the program ends with the single-threaded result |
| MtProd.NoInfiniteRun | sw/ud/src/backend/swemu/swemu_exec.cxx:199-233 | no sequence of steps goes on for ever: one that steps from every state that is not final reaches a final one |
| KernelProg.InsideBuffer | sw/kd/vxe_prog.c:193-203 | a patched SETRx decodes to dma / 4 + index, and a touch in range is inside the DMA range of its buffer, byte for byte |
| KernelProg.SwapOkInBytes | sw/kd/vxe_prog.c:661-679 | the swap check in bytes: four times index plus length, for every used resource, at most the buffer size |
| KernelProg.AssembledSafe | sw/kd/vxe_prog.c:615-633 | from any register contents the hardware makes exactly the accesses the words describe, every byte inside the DMA range of the buffer bound to the resource |
| KernelProg.RunLocated | sw/kd/vxe_prog.c:174-293 | the accesses of a patched program are those of its words at the patched addresses |
| KernelProg.RangeIffRoom | sw/kd/vxe_prog.c:342-349 | all accesses are in range iff every used resource has room for its greatest length |
| KernelProg.CarriedMatchesAssembly | sw/kd/vxe_prog.c:681-692 | after any swaps every used command is the word fresh assembly with the present buffers writes, and the records agree |
| KernelProg.SwapSafeIff | sw/kd/vxe_prog.c:661-679 | the swap check protects every access, whatever the new buffers, iff the program uses each resource with a single length |
| KernelProg.HistorySafe | sw/kd/vxe_prog.c:650-698 | for such programs, after any history of attempted swaps all accesses are inside the last resources accepted |
| KernelProg.SwappedSafe | sw/kd/vxe_prog.c:650-698 | the same for DMA buffers: every byte touched is in the DMA range of the buffer bound last |
| KernelProg.CmdBufferSafe | sw/kd/vxe_prog.c:636-698 | the words a command buffer holds, SYNC included and after however many swaps, touch nothing but the DMA ranges of the buffers it holds |
| KernelProg.CmdBuffer.constructor | sw/kd/vxe_prog.c:636-647 | patched words and closing SYNC in the buffer, records taken over |
| KernelProg.CmdBuffer.VerifySwap | sw/kd/vxe_prog.c:661-679 | true iff every used resource has room for its recorded length |
| KernelProg.CmdBuffer.SwapRes | sw/kd/vxe_prog.c:650-698 | a refused swap changes no word and no resource; an accepted one patches the used commands and hands back the old buffers |
| Rebinding.CompiledSingleLength | sw/ud/src/pipeline.cxx:305-396 | compiled programs use every binding with a single length |
| Rebinding.CompiledHistorySafe | sw/kd/vxe_prog.c:650-698 | so compiled programs stay inside their resources through any history of swaps |
| Rebinding.CompiledBufferSafe | sw/kd/vxe_prog.c:636-698 | and a command buffer made from a compiled program stays inside the DMA ranges of the buffers it holds |
| Rebinding.SwapCanOverrun | sw/kd/vxe_prog.c:347-349 | a program with two lengths: the recorded last one lets buffers of one element pass where five are read |
| Backend.SlotMoved | sw/ud/src/backend/swemu/swemu_backend.cxx:490-501 | one slot moved from a buffer to another keeps every bind count equal to the number of slots naming the buffer |
| Backend.UpdateAccepted | sw/ud/src/backend/swemu/swemu_backend.cxx:469-488 | an update is accepted iff every used slot can take its binding: a data buffer with index + length inside; else the first that cannot decides between ENOENT and EINVAL |
| Backend.UpdateIffFresh | sw/ud/src/backend/swemu/swemu_backend.cxx:450-504 | for single lengths and all slots used, an update succeeds iff the program checker accepts the program with the new bindings |
| Backend.EmuContext.AllocId | sw/ud/src/backend/swemu/swemu_impl.hxx:48-58 | the id freed longest ago, else a new one up to the limit, else -1 |
| Backend.EmuContext.BufferCreate | sw/ud/src/backend/swemu/swemu_backend.cxx:267-292 | exact error code and id; an unbound entry of the rounded size, or the same table and the id given back |
| Backend.EmuContext.BufferDestroy | sw/ud/src/backend/swemu/swemu_backend.cxx:295-321 | ENOENT, EPERM while bound, else the entry is gone and a command buffer's bindings are returned |
| Backend.EmuContext.CmdBufferCreate | sw/ud/src/backend/swemu/swemu_backend.cxx:363-422 | exact error code, id and ids left; the entry is the checked program with its slots and the counts stay exact |
| Backend.EmuContext.CmdBufferUpdate | sw/ud/src/backend/swemu/swemu_backend.cxx:450-504 | exact error code; refused: nothing changes; accepted: used slots take the new bindings and all counts stay exact |
| Backend.EmuContext.SwapSlot | sw/ud/src/backend/swemu/swemu_backend.cxx:490-501 | one step of the swap loop |
| Backend.EmuContext.SwapSlots | sw/ud/src/backend/swemu/swemu_backend.cxx:490-501 | the swap loop |
| Backend.EmuContext.UnbindSlots | sw/ud/src/backend/swemu/swemu_backend.cxx:310-316 | destroying a command buffer counts its bindings down |
| Backend.EmuContext.Assemble | sw/ud/src/backend/swemu/swemu_backend.cxx:403-413 | the program checker's words and records are taken over |
| Backend.EmuContext.BindSlots | sw/ud/src/backend/swemu/swemu_backend.cxx:415-417 | binding every slot makes the counts exact again |
| Backend.SameAsFresh | sw/ud/src/backend/swemu/swemu_backend.cxx:450-504 | however often re-bound, an entry whose program uses single lengths is the one a fresh creation with the present bindings makes |
| Backend.RunsIff | sw/ud/src/backend/swemu/swemu_backend.cxx:425-447 | running an entry of a valid table is defined, from any thread states, iff a fresh creation with its present bindings would be accepted |
| Backend.RunsSafely | sw/ud/src/backend/swemu/swemu_backend.cxx:425-447 | so entries of programs with single lengths run safely for every mask, however often re-bound |
| Recompile.UpdateIsRecompile | sw/ud/src/pipeline.cxx:533-593 | an accepted update with the bindings of new descriptors leaves the entry that compiling and creating from them makes |
| UserPipeline.Create | sw/ud/src/pipeline.cxx:459-530 | verify, compile, create: exact result code, and on success the entry of the compiled stages |
| UserPipeline.Change | sw/ud/src/pipeline.cxx:533-593 | verify, list bindings, re-bind: exact result code; a refusal changes nothing |
| UserPipeline.CreationMeans | sw/ud/src/pipeline.cxx:459-530 | a verified pipeline is refused by the program checker exactly when some descriptor misses the guard |
| UserPipeline.ChangeIffFresh | sw/ud/src/pipeline.cxx:533-593 | an update is accepted iff creating the new pipeline afresh is: iff its descriptors pass the guard |
| UserPipeline.ErrorsReported | sw/ud/src/error.cxx:34-58 | which library error each driver error becomes |
| Backend.CreationErrors | sw/ud/src/backend/swemu/swemu_backend.cxx:363-422 | the error of every failing creation: no id, no memory or entry, first unresolved binding, refused program |
| UserPipeline.CompiledRuns | sw/ud/src/pipeline.cxx:305-396 | running the command buffer of a pipeline leaves memory as its stages evaluated one by one |
| UserPipeline.ChangedCompiled | sw/ud/src/pipeline.cxx:533-593 | after an accepted update the entry is that of the new stages, so running it computes those |
| KernelBuffers.BindUnlocked | sw/kd/vxe_buffer.c:237-246 | counts grow by multiplicity; LOCKED is set when a count leaves zero |
| KernelBuffers.UnbindUnlocked | sw/kd/vxe_buffer.c:249-258 | counts shrink by multiplicity, not below zero; LOCKED is cleared when one reaches zero |
| References.StepCounted | sw/kd/vxe_ioctl.c:131-434 | every step keeps bind_count equal to the references plus leaked ones, LOCKED equivalent to a positive count, and no reference to a freed buffer |
| References.RawIsFree | sw/kd/vxe_buffer.c:94-119 | an object being freed is unlisted and unbound |
| Ownership.StepTyped | sw/kd/vxe_ioctl.c:131-434 | resource lists hold data buffers only; a command buffer in use has its resources and one user at most |
| Ownership.StepUnlisted | sw/kd/vxe_buffer.c:94-119 | an unlisted live buffer has exactly one caller that frees it |
| Ownership.OneUser | sw/kd/vxe_ioctl.c:283-302 | two callers never hold the same command buffer |
| Ownership.RunInv | sw/kd/vxe_ioctl.c:131-434 | reference safety in every reachable state of every run |
| Leaks.ExactCounts | sw/kd/vxe_ioctl.c:384-434 | in runs where every swap succeeds bind_count is exactly the number of references |
| Leaks.FailedSwapLeaks | sw/kd/vxe_ioctl.c:410-414 | a failed swap leaks every binding it made and changes neither words nor resources |
| Leaks.LeakedForever | sw/kd/vxe_ioctl.c:410-414 | a buffer with a leaked binding is locked in every continuation, so it is never destroyed |
| JobOrder.Exclusive | sw/kd/vxe_ioctl.c:283-302 | a command buffer's bind_count is 0 or 1 and equals the number of jobs and callers using it |
| JobOrder.PendingStable | sw/kd/vxe_ioctl.c:283-313 | while a job is pending no step changes the words or resources of its command buffer, frees it or unlists it |
| JobOrder.PendingStableRun | sw/kd/vxe_device.c:55-128 | the same over whole runs, from submission to retirement |
| JobOrder.StepOrdered | sw/kd/vxe_device.c:72-121 | jobs carry consecutive numbers in submission order; the scheduler has the oldest unfinished one, the queue the rest; finished only grows |
| JobOrder.HeldAreLatest | sw/kd/vxe_device.c:72-121 | exactly the most recent jobs still hold their command buffers |
| JobOrder.FenceMeansRetired | sw/kd/vxe_ioctl.c:440-454 | when a wait for n succeeds every job that is still queued, running or holding its buffer has a greater number |
| JobOrder.FenceAccepted | sw/kd/vxe_ioctl.c:447-449 | a wait is accepted iff its number is 0 or that of a submitted job |
| JobOrder.StepLimited | sw/kd/vxe_ioctl.c:264-311 | jobs past the limit check and not yet taken off the counter never exceed max_jobs; the counter exceeds them only by callers about to back out |
| JobOrder.RunJobs | sw/kd/vxe_device.c:55-128 | order and limit in every reachable state of every run |
| JobOrder.SchedulerMoves | sw/kd/vxe_device.c:55-128 | the scheduler is never stuck while a job is pending |
| Progress.RunUnique | sw/kd/vxe_ioctl.c:131-434 | in every reachable state an id names at most one listed buffer of a context |
| Progress.Submits | sw/kd/vxe_ioctl.c:256-313 | below the limit and with an idle command buffer the steps of a submission are possible in turn, queue a job with the next number and hold the buffer |
| Progress.RefusedAtLimit | sw/kd/vxe_ioctl.c:264-268 | at the limit the caller is refused and the counter has its value again |
| Progress.RefusedUnready | sw/kd/vxe_ioctl.c:283-302 | an id that names no idle command buffer is refused and leaves nothing behind |
| Progress.AbandonedSubmission | sw/kd/vxe_ioctl.c:270-281 | a submission that fails early leaves nothing behind |
| Progress.Retires | sw/kd/vxe_device.c:55-128 | one round of the scheduler retires the oldest job, gives its buffer back and counts it finished |
| Progress.OldestReady | sw/kd/vxe_device.c:55-128 | in every reachable state with the device idle the oldest job is ready for that round |
| Progress.FenceOver | sw/kd/vxe_ioctl.c:440-454 | a wait returns iff its number is finished, and changes nothing else |
| Progress.FencePasses | sw/kd/vxe_ioctl.c:440-454 | a wait for a finished number passes at once |
| Progress.CreatesBuffer | sw/kd/vxe_ioctl.c:37-85 | creating a data buffer under a free id lists one, unbound |
| Progress.DestroysData | sw/kd/vxe_buffer.c:94-119 | an unlocked data buffer is unlisted and freed, a locked one stays |
| Progress.CreatesCommands | sw/kd/vxe_ioctl.c:131-253 | creating a command buffer binds its resources by occurrence and lists it, idle |
| Progress.RefusedBinding | sw/kd/vxe_ioctl.c:131-253 | with an id that names no data buffer nothing happens |
| Progress.AbandonedCreation | sw/kd/vxe_ioctl.c:131-253 | a creation that fails after binding gives everything back |
| Progress.Updates | sw/kd/vxe_ioctl.c:326-434 | an update puts new resources and words in place, binds them, gives up the old ones and leaves the buffer idle |
| Progress.RefusedUpdate | sw/kd/vxe_ioctl.c:326-434 | a command buffer in use is not updated |
| Progress.AbandonedUpdate | sw/kd/vxe_ioctl.c:326-434 | an update that fails before binding leaves the buffer idle as it was |
| Progress.DestroysCommands | sw/kd/vxe_buffer.c:94-119 | destroying an idle command buffer gives up its resources |
| Numerals.HexReads | sw/vxeasm/vxedisasm.cxx:127-136 | a printed hexadecimal number is read back |
| Numerals.IntReads | sw/vxeasm/vxeasm.cxx:95-118 | a printed signed number is read back |
| Tokens.ScanOperand | sw/vxeasm/vxeasm.cxx:169-242 | the index loop finds the token and position of the operand grammar, or throws |
| Tokens.ScanCommand | sw/vxeasm/vxeasm.cxx:245-303 | the index loop finds the opcode, or throws |
| Tokens.ScanLine | sw/vxeasm/vxeasm.cxx:306-329 | opcode and operands of a line |
| Tokens.PrintedReads | sw/vxeasm/vxeasm.cxx:306-329 | an opcode, blanks, operands separated by commas and a comment are read back as printed |
| AsmText.TextReads | sw/vxeasm/vxedisasm.cxx:106-124 | padding and the trailing comment do not disturb reading a printed line |
| AsmRoundTrip.VpuReads | sw/vxeasm/vxeasm.cxx:332-347 | only VPUs 0 and 1 have a name the assembler knows |
| AsmRoundTrip.VpuBack | sw/vxeasm/vxeasm.cxx:550-573 | PROD, STORE and RELU words come back iff destination and payload are ones the encoder makes |
| AsmRoundTrip.LReluBack | sw/vxeasm/vxeasm.cxx:611-626 | leaky ReLU words come back iff destination and reserved bits are ones the encoder makes |
| AsmRoundTrip.GeneratesBack | sw/vxeasm/vxeasm.cxx:639-674 | the command shown for a word assembles to it iff the word survives |
| AsmRoundTrip.LineRoundTrip | sw/vxeasm/vxedisasm.cxx:367-410 | printing a word and assembling the line gives it back iff it is canonical, has an unknown opcode or activation, or is a SETACC with exact text |
| AsmProgram.Compile | sw/vxeasm/vxeasm.cxx:677-689 | the compile loop over lines |
| AsmProgram.Disassemble | sw/vxeasm/vxedisasm.cxx:367-410 | the listing, one line per word |
| AsmProgram.ProgramRoundTrip | sw/vxeasm/vxedisasm.cxx:367-410 | a listing of any length assembles to its program iff every word survives by itself |
| AsmLines.NothingAssembled | sw/vxeasm/vxeasm.cxx:306-329 | a line adds no word iff it is blank up to its end or to a comment |
| AsmLines.Indented | sw/vxeasm/vxeasm.cxx:245-329 | blanks in front of a line do not matter |
| AsmLines.Commented | sw/vxeasm/vxeasm.cxx:169-329 | a comment behind a line that assembles changes nothing |
| AsmLines.DanglingComma | sw/vxeasm/vxeasm.cxx:169-242 | a comma that nothing follows is an error at the end of a line but not in front of a comment |
| AsmLines.CaseBlind | sw/vxeasm/vxeasm.cxx:639-674 | lines that differ in upper and lower case only assemble to the same |
| AsmLines.WrittenReads | sw/vxeasm/vxeasm.cxx:306-329 | a command is read whatever blanks and commas stand between its operands |
| AsmLines.ThreadCommands | sw/vxeasm/vxeasm.cxx:442-547 | the word of every command for a thread: opcode number, position of VPU and thread, value cut to its field |
| AsmLines.VpuCommands | sw/vxeasm/vxeasm.cxx:550-600 | the words of PROD, STORE, RELU and NOP |
| AsmLines.LReluCommands | sw/vxeasm/vxeasm.cxx:611-626 | leaky ReLU takes a number that is not positive, in seven bits |
| AsmLines.WrongArity | sw/vxeasm/vxeasm.cxx:442-674 | any other number of operands or opcode is an error |
| AsmLines.NumbersRead | sw/vxeasm/vxeasm.cxx:95-118 | decimal, hexadecimal and octal numbers, wrapping minus, refusal beyond 64 bits |
| AsmRoundTrip.LineShape | sw/vxeasm/vxedisasm.cxx:106-124 | every printed line has its comment at column 40 or one blank behind the command, with all sixteen digits of the word |

## Left out

- Soundness.LeftoverIndependent: gives a sufficient condition, that activations come after the enable bits they depend on; whether an unsettled program shows leftover state depends on the activation function.
- EndToEnd.CompilerCorrect: for several stages its condition is sufficient only, since a later stage may overwrite what a batch boundary changed; for one stage it is exact, and EndToEnd.CompiledBatches states the result without it.
- Backend.EmuContext.CmdBufferCreate: the error paths after the entry was made leave a pointer to a deleted object; the model keeps such an entry as Freed, and using its id is excluded as undefined behaviour, as is a program too long for a 32-bit byte size.
- MtProd.EverySchedulerEnds: creation and destruction of worker threads and their stop flag are not modelled, only the ready, compute, done protocol.
- Pipeline.Init: stops before the driver call that ends init; UserPipeline.Create includes it.
- Pipeline.Update: stops before the driver call that ends update; UserPipeline.Change includes it.
- JobOrder.FenceMeansRetired: a job's end is completion or timeout; a late interrupt after a timeout, which could mark the next job done, is not modelled.
- Driver.Next: user copies, allocations, identifier choice and the verdict of the program checker are up to the event; mapping to user space is left out, including an early return of vxe_buffer_mmap that keeps the buffer lock (sw/kd/vxe_buffer.c:142-146).
- Context and device teardown: frees buffers in identifier order and races with the scheduler.
- The kernel's program checker is not written a second time: it is the one of Assembler, with DMA word addresses in place of resource numbers.
- Floating point, the NaN rules of ReLU and the shift of leaky ReLU: one opaque function each.
- Text of floating point numbers: AsmText takes printing and parsing as parameters; default printing is lossy, so SETACC words come back only where the text is exact.
- Binary and hexadecimal file formats, command lines and error messages of the tools.
- hw_backend.cxx, buffer.cxx, context.cxx, instance.cxx, error.cxx and debug.cxx: thin wrappers.
- Simulation models, test benches, benchmarks, training and example programs: input, output or data.
