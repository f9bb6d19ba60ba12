# Revive: a verified model of the core, its simulator and its programs

The repository holds an in-order RISC-V core (`rtl/`), an instruction-set simulator for the same
machine (`sim/`), and the C programs and library that run on both (`tests/programs/`). This project
models the parts of the three that carry an argument and proves what they are for:

- **The core executes programs.** `Pipeline` is every register of the core as one record and one
  rising clock edge as a function: front end, decode, scoreboard, register fetch, execute with the
  multi-cycle multiply/divide unit, load/store unit, trap redirect and writeback, wired as in
  `rtl/revive.sv`. `Isa` is the same machine one instruction at a time. `Refinement` proves that in
  every cycle the retired instructions, the registers, memory and the list of writes made at the
  memory port are those of sequential execution, one for one and in order; `Liveness` proves that an instruction retires at least every 46 cycles, so the two runs
  are equal and not only a prefix. Program, decompressor, decode table, ALU, and the set of faulting
  addresses are parameters: the theorems hold for every choice. `Rtl` holds the same units as classes
  whose registers are updated in place, one `Clock` each, and a whole core that is clocked and proved
  to retire exactly the program's trace and to make exactly its writes.
- **The front end loses nothing.** `Frontend` proves that program counter, fetch register and aligner
  hand over exactly the parse of the half-word stream, under any stalls and redirects.
- **Multiplication and division are right.** `Mdu` proves the clocked unit and the simulator's direct
  computation against RV32M (sections 7.1 and 7.2 of the RISC-V Unprivileged ISA, 20191213).
- **Core and simulator read instructions alike.** `Rv32` transcribes the decompressor, field decoder
  and functional units on the one side and the simulator's direct execution on the other.
  `Rv32Agree` proves for every half-word, and `Rv32Long` for every 32-bit word outside the opcodes of
  the system and atomic units, that the two agree in every state exactly when the word is not one of
  an explicitly listed family. `Rv32Parting` says what
  each does there, and `Operations` pins, bit by bit and byte by byte, what the operations the two share
  compute. What stands for the core there is the machine `Pipeline` is proved
  against, unknown encodings included; for a breakpoint, which that machine does not take, it is the
  core's own trap entry, compared with the simulator's on the trap state of `Traps`.
- **Put together, the clocked core follows the simulator.** `Cosim` gives the core its own
  decompressor, decode table and arithmetic unit and proves that what it retires, cycle by cycle, is
  the simulator's run: same pcs, same register writes, same memory, same writes to memory in the same
  order.
- **The programs compute what they should**, in place on arrays as in C: radix sort (`Rsort`),
  quicksort with its 50-slot stack (`Qsort`), Towers of Hanoi on linked lists over one node pool
  (`Hanoi`, `Towers`), division, digits, printing and parsing (`Divide`, `Digits`, `Printf`,
  `Stdlib`).
- **Smaller machines**: the ring FIFO (`Fifo`), the UART receive ring shared by two threads (`Uart`),
  trap entry and return (`Traps`), Sv32 translation and fetch across pages (`PageFetch`).

Machine words are integers below 2^32 (`Words`); instruction words and immediates are bit vectors,
where bits are shuffled. Wrap-around, truncation and widths are written out.

Where the code and its surroundings differ, the model follows the code:

- A decoding the core does not know becomes a NOP that retires; the aligner leaves the decompressor's
  "unknown" output unconnected and hands on the word 0, which is such a NOP. The simulator panics on
  an unknown function code (outcome `Unknown`), and on a 32-bit opcode it has no case for it changes
  nothing and executes the same word again.
- On the half-words of `Divergent` core and simulator differ: all those the simulator panics on;
  C.ADDI4SPN with immediate 0, a NOP against a copy of x2; the reserved word forms beside C.SUBW (C.ADDW
  is an addition against an exclusive or, the other two are NOPs against OR and AND, the same only for
  twice the same register); C.MV or C.JR with rd = 0, NOPs against a breakpoint; and C.EBREAK, below.
- The core takes every breakpoint at machine level; the simulator delegates it like other exceptions.
  `Rv32Agree.BreakEntries` says exactly when the entries are the same. Page and alignment faults the core
  delegates to the supervisor, the simulator also to user level (`Rv32Agree.FaultEntries`).
- On the words of `DivergentLong` they differ because of EBREAK, and because the core goes on over opcodes and function codes
  the simulator does not know (the 64-bit word operations, loads and stores among them), looks at one
  bit of the function field of a multiplication, and takes every odd function code of the fence opcode
  for an instruction fence.
- The memory port serves an 8-byte access of the core with a load of zero or no store.
- A return from a trap does not set the previous enable and privilege fields, and the user-level
  interrupt test looks at the supervisor's enable bit. `Traps.UserReentry` says exactly when a
  user-level handler can be interrupted again at once.
- Instruction fetch is translated with the previous privilege when the modify-privilege bit is set.
- In a decimal number the parser accepts the letters a to f and counts them as zero digits.
- The printers return a count that leaves out signs, prefixes and a lone zero.

## Model

| member | source | states |
|---|---|---|
| Refinement.CoreRefinesExecution | rtl/revive.sv:353-389 | For every program and number of clocks, what writeback has retired is the trace of one-at-a-time execution, the register file with its pending write is that execution's, memory is that execution's at most two instructions on, and the memory port has made exactly the writes up to there, none twice, none dropped, in order |
| Refinement.StoreStep | rtl/core/lsu.sv:26-64 | What the memory port writes in one clock extends the sequential list of writes to where the memory stage stands after it |
| Refinement.StoresOfRun | rtl/core/lsu.sv:26-64 | After any number of clocks the list of writes made is the sequential one up to the memory stage |
| Refinement.ReplayIsMemory | sim/rtl.cc:211-222 | The sequential writes played into the first memory give, byte for byte, the memory after as many instructions |
| Refinement.SimulationStep | rtl/revive.sv:353-389 | One clock edge keeps the relation between the pipe and the sequential state, whatever mix of stalls, squashes and redirects it contains |
| Refinement.RunSimulates | rtl/revive.sv:353-389 | After any number of clocks the core relates to the sequential state reached by its retired instructions, and their events are the sequential trace |
| Refinement.RetireIsExecute | rtl/core/writeback.sv:38-70 | The register write and the redirect of a retiring instruction are those the instruction set gives it |
| Refinement.StepScoreboard | rtl/core/sched.sv:44-60 | Across an edge the in-flight writers stay pairwise disjoint and inside the in-use bits |
| Refinement.SettledReads | rtl/core/reg_fetch.sv:29-51 | A register no in-flight instruction writes reads as the value its last older writer leaves |
| Refinement.FlushEmpties | rtl/core/writeback.sv:52-70 | The edge of a flush empties every stage and the scoreboard and leaves the sequential state in place |
| Liveness.WaitShrinks | rtl/revive.sv:353-389 | Every cycle retires an instruction or strictly decreases the bounded distance to the next retirement |
| Liveness.AlwaysRetires | rtl/revive.sv:353-389 | Any 46 consecutive cycles retire at least one instruction |
| Liveness.EveryInstructionRetires | rtl/revive.sv:353-389 | After 46 n cycles the first n instructions of sequential execution have retired, in order |
| Liveness.ScoreboardAlways | rtl/core/sched.sv:32-60 | In every reachable cycle each register has at most one writer in flight and its bit is set, x0 has none, and with no redirect under way no other bit is set |
| Liveness.OperandsAlways | rtl/core/reg_fetch.sv:29-51 | In every reachable cycle the operands waiting to execute on the program's path are the values of the last older writers |
| Liveness.FaultsAlways | rtl/core/exec.sv:211-213 | In every reachable cycle an access on the program's path carries the exception of its kind exactly if it faults: misalignment before page fault, load apart from store |
| Liveness.ZeroRegister | rtl/lib/sram_1w2r.sv:54-66 | x0 is zero in the register file in every reachable cycle |
| Liveness.PreciseRedirect | rtl/core/writeback.sv:33-70 | Behind a redirecting instruction nothing stores or retires; after the flush every stage is empty, the scoreboard clear and fetch at the sequential pc |
| Rtl.Revive.Clock | rtl/revive.sv:353-389 | The clocked objects, each updating its own registers from the wires before the edge, make exactly the step of the proven core |
| Rtl.Revive.Simulate | rtl/revive.sv:353-389 | Clocked for any number of cycles, the core returns the sequential trace of its program, at least one instruction every 46 cycles, and the writes of that program up to at most two instructions further |
| Rtl.Scheduler.Clock | rtl/core/sched.sv:30-85 | In-use bits held in an array follow the scoreboard set, and issue happens exactly when all named registers are free or being written back |
| Rtl.RegisterFetch.Clock | rtl/core/reg_fetch.sv:29-58 | Operands are latched from the register file as it was before this edge's write |
| Rtl.MulDivUnit.Clock | rtl/core/fu/mdu.sv:63-181 | The registers updated step by step follow the clock function proved against RV32M |
| Rtl.ExecuteUnit.Clock | rtl/core/exec.sv:191-284 | Result, redirect and squashing of younger instructions until the flush |
| Rtl.LoadStoreUnit.Clock | rtl/core/lsu.sv:26-71 | One memory access in order, suppressed behind an exception; a page fault is turned into an exception |
| Rtl.CtrlStatusReg.Clock | rtl/core/csr.sv:235-262 | A faulting instruction becomes a jump to the trap vector, any other passes through |
| Rtl.WritebackUnit.Clock | rtl/core/writeback.sv:52-79 | Commit, redirect and the single flushing cycle |
| Rtl.Align.Clock | rtl/core/align.sv:43-158 | The kept half-word and the emitted instruction for each way a fetch word can be cut |
| Frontend.StreamStep | rtl/core/align.sv:98-158 | An unstalled edge emits the instruction at the stream position and advances past it, or emits nothing and stays; a kept half always sees a valid fetch word |
| Frontend.EmitsProgramText | rtl/core/align.sv:34-158 | Under any stall pattern the emitted sequence is exactly the parse of the program text from the position, one per unstalled edge beyond the bubbles due |
| Frontend.RedirectEmitsTarget | rtl/core/program_counter.sv:26-40 | After a redirect in any state, the same from the target, with at most one bubble beyond the fetch latency |
| Frontend.StalledStep | rtl/core/fetch.sv:39-59 | A stalled edge changes no register of the front end |
| Mdu.HeldJobStep | rtl/core/fu/mdu.sv:63-181 | While a job is held, each edge keeps its arithmetic invariant and an unstalled one brings delivery closer |
| Mdu.HeldRunDelivers | rtl/core/fu/mdu.sv:63-181 | For all eight operations, all operands and all stalls, a delivered word is the RV32M result and the simulator's |
| Mdu.ResultWithin35Edges | rtl/core/fu/mdu.sv:63-181 | Unstalled from rest, the result is out by the 35th edge |
| Mdu.FlushedJobNeverDelivers | rtl/core/fu/mdu.sv:65-72 | After a flush, nothing is delivered until a new job starts |
| Mdu.SimAgrees | sim/trace.cc:911-917 | The simulator's wrapping products, sign fix-ups and special cases of division equal RV32M on every operand pair |
| Cosim.CoreFollowsSimulator | sim/trace.cc:1876-1927 | While the simulator runs instructions outside the divergent families, the clocked core with its real tables retires the simulator's pcs and register writes one for one, has its registers, has its memory at most two instructions on, reached by the same writes in the same order, and keeps pace |
| Cosim.CoreFollowsForCycles | sim/trace.cc:1876-1927 | The same on a condition known before the run: the simulator's cycles are conforming for two more than the clocks |
| Cosim.ShortIsExecute | rtl/core/decode.sv:42-51 | The compared reading of a half-word is what the core's machine executes, state and writes, unknown encodings included |
| Cosim.LongIsExecute | rtl/core/decode.sv:42-51 | The same for a 32-bit word |
| Cosim.StepAgrees | sim/trace.cc:1876-1927 | One cycle of the simulator is one instruction of the machine the core is proved against, in the state it leaves and in what it writes |
| Cosim.SimRunIsExecution | sim/trace.cc:1876-1927 | Whole runs of the simulator are sequential execution, with the same list of writes |
| Cosim.TraceFollowsSimulator | sim/trace.cc:1876-1927 | The sequential trace that the clocked objects return is, event by event, what the simulator does to its pc and registers |
| Rv32Agree.ShortMeaning | rtl/core/decode/decompress.sv:59-304 | Decompressing, decoding and executing a half-word, an unknown one as a NOP, equals executing it directly, in every state, if and only if it is not in the listed family |
| Rv32Agree.DivergentDiffers | sim/trace.cc:1616-1762 | For every half-word of the family, a state after which the two readings differ in registers, pc, trap entry or in going on at all |
| Rv32Agree.Q0Agrees | sim/trace.cc:1740-1762 | Quadrant 0, state by state: agreement exactly outside the family, or where the copy of x2 that the core leaves out is already in place |
| Rv32Agree.Q1Agrees | sim/trace.cc:1653-1737 | Quadrant 1 outside the family: jumps, branches, constants and arithmetic agree in every state, among them OR and AND of a register with itself in their reserved forms |
| Rv32Agree.Q2Agrees | sim/trace.cc:1616-1650 | Quadrant 2: stack accesses, moves and register jumps agree exactly outside the family, which holds every encoding with rd = 0 of function code 4, breakpoints included |
| Rv32Agree.BreakEntries | rtl/core/csr.sv:298-307 | In a trap state the breakpoint entries of core and simulator are the same if and only if the exception is not delegated |
| Rv32Agree.FaultEntries | rtl/core/csr.sv:235-262 | For any other exception they are the same if and only if it is not delegated to user level |
| Rv32Agree.PairDiffers | rtl/core/decode/decompress.sv:59-304 | Every reserved word form on distinct registers, and the addition on any, leaves different registers from a state of zeros and ones chosen for it |
| Rv32Agree.BranchCase | rtl/core/fu/bru.sv:1-65 | A branch row in the units ends at the simulator's target, whose bit 0 needs no clearing |
| Rv32Agree.AluImmediate | rtl/core/fu/alu.sv:22-41 | An immediate row in the units computes the simulator's operation on the sign-extended immediate |
| Rv32Agree.LoadCase | rtl/core/lsu.sv:26-64 | A load row traps and loads where the simulator does |
| Rv32Long.LongMeaning | sim/trace.cc:1319-1508 | A 32-bit word outside the system and atomic opcodes, or EBREAK, has the same meaning in decoder and units as in the simulator, in every state, if and only if it is not in the listed family |
| Rv32Long.DivergentLongDiffers | rtl/core/decode/decode.sv:42-298 | For every word of the family, a state in which the two readings differ |
| Rv32Long.Coinciding | rtl/core/decode/decode.sv:42-298 | With x0 as operand, the operand patterns on which a product and the base operation of the same function code give the same value |
| Rv32Long.LoadKnown | sim/trace.cc:1360-1381 | In every state a load agrees exactly for the widths of a 32-bit machine; over the other function codes the core goes on and the simulator panics |
| Rv32Long.Branch | sim/trace.cc:1337-1361 | In every state a branch agrees exactly for the six conditions; function codes 2 and 3 are a NOP against a panic |
| Rv32Long.EbreakParts | sim/trace.cc:1219-1226 | The 32-bit breakpoint enters its trap differently where the exception is delegated |
| Rv32Long.Unlisted | sim/trace.cc:1319-1559 | On an opcode without a case in the simulator the core always moves on and the simulator never does |
| Rv32Long.RowsAreLegal | rtl/core/decode/decode.sv:39-298 | Every row of the field decoder has the shape the pipe is proved for |
| Rv32Parting.ShortParting | rtl/core/decode/decompress.sv:59-304 | For every half-word of the family and every state, what each reading does: NOP, copy, addition or gate, breakpoint or panic |
| Rv32Parting.WordParts | rtl/core/decode/decode.sv:220-251 | On opcodes the simulator does not list it stays; the core executes the accepted 64-bit word operations as the 32-bit ones of the same fields and retires a NOP otherwise |
| Rv32Parting.LoadParts | rtl/core/decode/decode.sv:143-161 | The loads of other function codes: a word load, a load of eight bytes that brings zero, or a NOP, against a panic |
| Rv32Parting.StoreParts | rtl/core/decode/decode.sv:163-181 | The stores of other function codes: a checked store of nothing or a NOP, against a panic |
| Rv32Parting.BranchParts | rtl/core/decode/decode.sv:120-141 | The branches of other function codes: a NOP against a panic |
| Rv32Parting.EbreakMeans | rtl/core/csr.sv:298-307 | The 32-bit breakpoint: the core's trap entry against the simulator's |
| Operations.GatesCompute | rtl/core/fu/alu.sv:30-32 | Bit k of AND, OR and XOR is the conjunction, disjunction or inequality of the operands' bits k, for every k |
| Operations.RightShiftsCompute | rtl/core/fu/alu.sv:33-41 | The right shifts are the quotient by 2^(amount mod 32) rounded down, of the unsigned number for SRL and of the signed one for SRA |
| Operations.LeftShiftComputes | rtl/core/fu/alu.sv:33-41 | The left shift moves every bit up by the amount modulo 32 and fills with zeros |
| Operations.SumsCompute | rtl/core/fu/alu.sv:27-29 | Sum, difference and upper immediate, each wrapped once at 2^32 |
| Operations.ComparisonsCompute | sim/trace.cc:904-905 | Comparisons and branch conditions, the signed ones by sign bit and magnitude |
| Operations.ProductCodes | rtl/core/decode/decode.sv:264-277 | Function codes 0 to 3 are the low and the three high words of a product with their signs |
| Operations.DivisionCodes | sim/trace.cc:912-917 | Codes 4 to 7 are quotient and remainder belonging together, rounded toward zero, with the overflow and the zero divisor |
| Operations.LoadIsLittleEndian | sim/rtl.cc:191-204 | An unsigned load is the little-endian number in its 2^size bytes, addresses wrapping |
| Operations.LoadExtendsSign | sim/rtl.cc:175-187 | A signed load is the signed number of its width with the same bits |
| Operations.LoadAfterStore | sim/rtl.cc:211-222 | What a store has put there is loaded, modulo its width, and no byte outside the access changes |
| Operations.PortShowsStore | sim/rtl.cc:211-222 | Address, width and low bytes of a store appear at the memory port |
| Operations.AlignedIsMultiple | sim/trace.cc:1256-1263 | An access is aligned exactly when its address is a multiple of its width |
| Operations.ShortBits | sim/trace.cc:1783-1786 | A half-word is an instruction of its own unless its two lowest bits are set |
| Rsort.Sort | tests/programs/rsort.c:40-107 | For every length and contents the array ends sorted, a permutation of its input, in the input array; nothing behind the n elements changes |
| Rsort.SortPass | tests/programs/rsort.c:49-104 | Counting, prefix sums and backward placement put into the scratch array the stable distribution by one digit |
| Rsort.CountDigits | tests/programs/rsort.c:51-66 | The loop unrolled by four and its rest count every digit |
| Rsort.PrefixSums | tests/programs/rsort.c:68-74 | The loop unrolled by two turns counts into bucket ends |
| Rsort.Distribute | tests/programs/rsort.c:77-97 | Backward placement, unrolled by four, fills every slot once and in stable order |
| Rsort.PassesSort | tests/programs/rsort.c:49-104 | After k passes the array is a permutation sorted by its low 8k bits |
| Rsort.FourPassesSort | tests/programs/rsort.c:40-107 | After four passes it is sorted as unsigned numbers |
| Qsort.Sort | tests/programs/qsort.c:70-135 | For every array shorter than 12 * 2^24 - 1 the parts fit the stack and the result is a sorted permutation, with all accesses in range; for every climbing array of that length or more the stack overflows, so the bound is exact |
| Qsort.Partition | tests/programs/qsort.c:93-116 | The part is rearranged into elements at most, equal and at least the median, with both rests strictly smaller; a part that climbs already is cut in its middle and left as it is |
| Qsort.ScanAndExchange | tests/programs/qsort.c:106-111 | Both inner scans stop inside the part because of the sentinels at its ends |
| Qsort.InsertionSort | tests/programs/qsort.c:45-61 | Sorts a short part in place and touches nothing else |
| Qsort.RoomToPush | tests/programs/qsort.c:72-133 | A part big enough to be split has at most 24 parts pending, so a push stays inside the stack |
| Qsort.RoomIsExact | tests/programs/qsort.c:72-133 | Among all part sizes and depths that halving allows, there is always room for a push if and only if the array has fewer than 12 * 2^24 - 1 elements |
| Qsort.RunningPushes | tests/programs/qsort.c:118-132 | A round that splits keeps the state of the main loop; on a long climbing array the part in hand is the first half of the first half, however often |
| Qsort.RunningFull | tests/programs/qsort.c:114-132 | A push behind the stack happens for arrays beyond the bound only |
| Qsort.SplitHalves | tests/programs/qsort.c:118-132 | Pushing the larger part leaves a current part of at most half the size |
| Hanoi.MovesCarryOver | tests/programs/towers.c:143-160 | The recursion moves exactly the top n discs in order, whatever they are |
| Hanoi.MovesAreLegal | tests/programs/towers.c:143-160 | It never puts a larger disc on a smaller one |
| Hanoi.MoveCount | tests/programs/towers.c:143-160 | It makes 2^n - 1 moves |
| Hanoi.MovesAreFewest | tests/programs/towers.c:192-194 | No legal play makes fewer moves, so the count the program checks is the least possible |
| Towers.TransferKeeps | tests/programs/towers.c:56-96 | Moving a node between lists keeps free list and pegs a partition of the pool |
| Towers.Towers.Push | tests/programs/towers.c:56-73 | Takes the top free node for the new disc; nothing else moves |
| Towers.Towers.Pop | tests/programs/towers.c:75-96 | Returns the top disc and its node to the free list |
| Towers.Towers.SolveH | tests/programs/towers.c:143-160 | Moves the top n discs, adds 2^n - 1 to the count and makes the moves of the recursion, keeping the partition |
| Towers.Towers.Verify | tests/programs/towers.c:167-197 | Returns 0 exactly for the finished game with the right count, and each of the codes 2 to 6 exactly when its check is the first to fail |
| Towers.Towers.Play | tests/programs/towers.c:202-240 | For any number of discs, with or without preallocation, the program reports success |
| Towers.PlayIsLegal | tests/programs/towers.c:143-165 | The logged moves are legal from start to end, keep every peg in order after each of them, and solve the puzzle |
| Towers.PlayIsShortest | tests/programs/towers.c:192-194 | No legal solution is shorter than the logged one |
| Divide.Clz | tests/programs/libc/math.c:65-83 | Leading zeros, with the shifted number reaching the top bit |
| Divide.Div | tests/programs/libc/math.c:263-318 | The remainder is right for all operands; the quotient is right if and only if it is below 2^32, and otherwise comes back with its upper 32 bits laid over the lower ones, because the quotient bit is a 32-bit constant |
| Divide.QuotientIsCut | tests/programs/libc/math.c:263-318 | 2^32 divided by 1 comes back odd |
| Digits.ValueOfNumeral | tests/programs/libc/printf.c:22-69 | The digits of a numeral add up to the number |
| Digits.ValueOfPadded | tests/programs/libc/printf.c:42-69 | The fixed number of digits loses nothing of a number that fits |
| Digits.StripOfPadded | tests/programs/libc/printf.c:118-150 | Dropping leading zeros of the padded digits gives the plain numeral |
| Printf.ToHex | tests/programs/libc/printf.c:22-52 | Every hexadecimal digit of the 32- or 64-bit number, by shifting it to the top and back |
| Printf.ToDec | tests/programs/libc/printf.c:34-69 | Every decimal digit, exactly, for every 32- and 64-bit number; each quotient on the way is a single digit |
| Printf.DecDigit | tests/programs/libc/printf.c:54-69 | One divider takes out one digit, at most nine, and leaves the rest of the number |
| Printf.Console.PrintNumber | tests/programs/libc/printf.c:94-200 | The text put out in each format and the count returned |
| Stdlib.Stou64 | tests/programs/libc/stdlib.c:28-65 | The value of the longest run of digits behind sign and prefix, modulo 2^64 |
| Stdlib.UnsignedRoundTrip | tests/programs/libc/stdlib.c:28-65 | Every unsigned, hexadecimal and pointer text is read back as its number, in every base that accepts it and whatever follows it |
| Stdlib.SignedRoundTrip | tests/programs/libc/stdlib.c:28-65 | Every signed text is read back modulo its width, most negative number included |
| Stdlib.HexTextReads | tests/programs/libc/stdlib.c:28-65 | A hexadecimal text in either case, behind either prefix and with or without a minus sign, is read as the value of its digits |
| Stdlib.XDigitStands | tests/programs/libc/stdlib.c:15-22 | Exactly the characters that stand for a digit in one of the two cases are accepted |
| Stdlib.WrappersRoundTrip | tests/programs/libc/stdlib.c:67-80 | The same through stou32 and stoi |
| Fifo.StepRefinesQueue | rtl/lib/fifo_1i1o.sv:47-154 | One clock is one queue step: writes and reads are acknowledged exactly when there is room and an entry, the read shows the oldest entry, a flush empties |
| Fifo.RunIsQueue | rtl/lib/fifo_1i1o.sv:30-154 | For every power-of-two depth and every run, the acknowledged reads are the acknowledged writes in order, short of what is still held |
| Fifo.Ring.Clock | rtl/lib/fifo_1i1o.sv:59-154 | The always blocks on their own registers make that step |
| Uart.StepKeepsInvariant | sim/uart.cc:93-157 | Each atomic step of either thread keeps the ring's invariant; no unread slot is overwritten |
| Uart.EveryInterleaving | sim/uart.cc:79-157 | In every interleaving the guest has read a prefix of the non-zero bytes received, the ring holds at most its size, and nothing is missing once it is drained |
| Uart.GuestReadsNext | sim/uart.cc:93-101 | What a guest has fetched is the next undelivered byte whatever the receiver does meanwhile |
| Uart.GuestReads | sim/uart.cc:93-101 | With a byte in the ring the guest's three steps are enabled in turn and deliver the next one; with none the test changes nothing |
| Uart.ByteArrives | sim/uart.cc:133-147 | Between bytes any byte can arrive; it counts unless it is zero |
| Uart.ReceiverStores | sim/uart.cc:140-156 | A waiting receiver gets room at its next test as soon as the ring is not full, and its byte is then appended; a zero byte is dropped |
| Uart.EveryRunCanFinish | sim/uart.cc:93-157 | From every reachable state there is a run after which everything received is delivered |
| Uart.UniAsyncRxTx.Store | sim/uart.cc:151-155 | The store of a byte by the receiver, on the shared array |
| Traps.EntryNeverLowers | sim/trace.cc:732-780 | Neither exception nor interrupt lowers the privilege |
| Traps.FirstCodeGoesFirst | sim/trace.cc:816-839 | The code taken is the known one of highest level and, there, external before software before timer; none exactly if the mask holds none of the nine |
| Traps.InterruptEffect | sim/trace.cc:841-892 | In every state: which level takes an interrupt, with which code, and every field it leaves, the vectored address included; when it panics and when nothing happens |
| Traps.ExceptEffect | sim/trace.cc:732-780 | In every state: the level an exception goes to and every field it leaves |
| Traps.VectoredAddress | sim/trace.cc:720-729 | The handler's address: four bytes per code in vectored mode, for interrupts only |
| Traps.ReturnUndoesEntry | sim/trace.cc:783-810 | With what entry saved in place, a return brings back pc, privilege and enable bit |
| Traps.TrapResumes | sim/trace.cc:732-892 | In every properly nested sequence each return resumes the interrupted context, at every depth; handlers need to save only if their own level traps again |
| Traps.SequenceResumes | sim/trace.cc:732-892 | A nested sequence ends at the privilege it started with, never goes below it, and leaves the saved state of levels it does not trap to alone |
| Traps.TakeHappens | sim/trace.cc:732-892 | Every exception enters a handler, and an interrupt exactly when a level can take one with a known code |
| Traps.HandleHappens | sim/trace.cc:732-810 | Exactly when a trap with its handler is a proper one |
| Traps.PerformHappens | sim/trace.cc:732-810 | Exactly when a sequence is proper, and that its report covers the privileges of all its parts |
| Traps.NestedIsProper | sim/trace.cc:732-810 | Exceptions in each other's handlers, each saving, are proper at every depth |
| Traps.UnsavedNestingIsLost | sim/trace.cc:769-780 | Why saving is needed, at every level: without it the outer return goes back into the handler, which is the interrupted place exactly if that was the handler's first instruction |
| Traps.MaskedAfterEntry | sim/trace.cc:841-892 | After an entry only a higher level interrupts, but for a user level whose supervisor enable bit is set |
| Traps.UserReentry | sim/trace.cc:877-891 | Exactly when a user-level handler is interrupted at its own level at once |
| Traps.ReentryHappens | sim/trace.cc:877-891 | A user program and handler where that happens at once and the place in the program is lost |
| Traps.TraceSimDriver.ExceptionEnter | sim/trace.cc:732-780 | The level by the delegation words, and by their numbers the CSRs and the status fields an exception leaves; no other CSR changes |
| Traps.TraceSimDriver.TakeInterrupt | sim/trace.cc:841-892 | The same for the interrupt of highest level and priority, or none, or a panic |
| Traps.TraceSimDriver.Return | sim/trace.cc:783-810 | The fields after a return |
| Traps.TraceSimDriver.FindFirstIntCode | sim/trace.cc:816-839 | The pending code that goes before all others, or none exactly if no known code is pending |
| Traps.TraceSimDriver.Layout | sim/trace.cc:732-892 | Which CSR numbers and status fields hold the state |
| PageFetch.UniformInPage | sim/trace.cc:55-140 | Two addresses of one page fault together or translate at the same distance, for 4 KiB pages and superpages |
| PageFetch.TranslateOnWords | sim/trace.cc:55-140 | On the raw words of the two table reads: translation succeeds exactly where the leaf's bits allow the access, with a clause each for U, SUM, MXR, R, W, X, A and D, and gives the leaf's page number with the offset |
| PageFetch.EntryLayout | sim/trace.cc:15-31 | Eight flags from bit 0, two ignored bits and the page number are read back as the entry they were put together from |
| PageFetch.Untranslated | sim/trace.cc:59-64 | Without translation, or at machine level, an address is its own |
| PageFetch.SecondHalf | sim/trace.cc:1784-1797 | Staying inside the physical page equals translating pc + 2 |
| PageFetch.FetchIsHalves | sim/trace.cc:1768-1803 | A fetch delivers exactly the half-words at the translations of pc and pc + 2, or those at the handler after one fault, and gives up exactly when the handler faults too |
| PageFetch.FaultEntersHandler | sim/trace.cc:1768-1780 | A faulting fetch enters the handler with code 12 and the pc as value, in every field |
| PageFetch.Fetcher.FetchInstr | sim/trace.cc:1768-1803 | The recursive method on the simulator's state computes that |
| PageFetch.Fetcher.TranslateVaddr | sim/trace.cc:55-140 | Two-level walk, superpages, access and permission checks |

## Left out

- Interrupts, AMOs, system instructions and CSR contents inside the core: a fault is an arbitrary set of addresses and one trap vector; address translation of the core is the identity.
- Stores into the running program: code memory is separate and constant.
- Instruction page faults in the core. Breakpoints, and words of the opcodes that the system and atomic units serve, are NOPs in `CoreMachine`: a run that reaches one is outside `Cosim`, whose conforming instructions are neither.
- Cosim.ShortIsExecute: half-words that expand to a breakpoint.
- Cosim.LongIsExecute: breakpoints, and rows of the system and atomic units.
- The side effects on CSRs of the instruction behind a page-faulting access.
- Rtl.ExecuteUnit.Clock: the branches for interrupts, system and atomic instructions.
- Rtl.LoadStoreUnit.Clock: atomic operations and address translation.
- Rtl.CtrlStatusReg.Clock: the updates of the CSRs themselves on the same edge.
- Rtl.Align.Clock: the fetch exception carried with each half-word.
- Cosim.StepAgrees: the interrupt check after the instruction, translation, and system and atomic instructions.
- Cosim.SimRunIsExecution: whole runs of the same restricted cycle.
- Cosim.TraceFollowsSimulator: events of the same restricted cycle.
- Rv32Agree.ShortMeaning: a faulting access goes to one trap vector in both readings; where the two delegate it differently is `Rv32Agree.FaultEntries`.
- Rv32Long.LongMeaning: the same for faulting accesses; the opcodes 0x73 and 0x2f and the data fence, whose units are not modelled.
- Cosim.CoreFollowsForCycles: as the next line says for the theorem it follows from.
- Cosim.CoreFollowsSimulator: the interrupt check, and system and atomic instructions; both sides share one set of faulting addresses and one trap vector, and a memory access reads the same bytes on both; CSR updates on a trap are `Traps`, not part of it.
- AND, OR and XOR of the two units are one function here, as are shifts, loads and stores; `Operations` says what each computes.
- The data fence, which the core hands to the atomic unit.
- Shift amounts of 32 and more in the simulator's macros: taken modulo 32 as the core takes them.
- Misaligned jump targets: with the compressed extension on, every even target is aligned.
- Logging, commit trace, performance counters, and the wiring of reset.
- Qsort.Sort: the array is exactly its n elements; what the code does after the write behind its stack, where the model stops, is not modelled.
- Rsort.Sort: pointer comparisons below the array for fewer than four elements are index comparisons.
- Towers.Towers.Verify: the shift that gives 2^n - 1 is unbounded; in C it needs fewer than 31 discs.
- Printf.Console.PrintNumber: the 64-bit binary format, whose mask is a 32-bit constant, and the format-string interpreter around the printers.
- Stdlib.Stou64: a null string pointer, which the code answers with 0.
- Divide.Div: a zero divisor, for which the shift amount leaves the word.
- Other functions of the C library's mathematics: multiplication, signed division, population counts.
- Uart.EveryInterleaving: byte counts are unbounded; the indices wrap after 2^64 bytes. The transmit ring drops bytes by design.
- Traps.TraceSimDriver.Return: the trap on a supervisor return.
- PageFetch.Fetcher.FetchInstr: physical memory protection, which the code does not implement.
- Caches, TLBs, the multi-bank FIFO and other unfinished modules, devices, file and terminal handling, ELF loading.
