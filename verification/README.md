# Proofs about lsh, Sweet16, minitalk and f2b

This project models five pieces of the repository in Dafny and proves what they are for. The
pieces are independent of each other.

**lsh: launching a pipeline** (`Launch*.dfy`). The shell forks one process per command and
coordinates them with three kinds of close-on-exec pipe: a control pipe that holds the first
process (the group leader) back, an error pipe per process on which end-of-file means "exec
succeeded", and data pipes between neighbours. `Launch` is a transition system of one parent and n
children, each with its own descriptor table; `Launch.ParentMove` and `Launch.ParentEffect` follow
lsh/execute.c:191-327 statement by statement, `Launch.ChildNext` follows lsh/execute.c:224-268, and
`Launch.ReadOn` gives end-of-file exactly when nobody holds the writing end. Pipes, forks, the
linking of pipes, redirects, taking the terminal and exec may fail at any time, setpgid fails when
the process or its group is gone, every child may end at any time and be reaped in the middle of
the launch, and steps interleave freely. `LaunchInv` holds the invariant, `LaunchProofs` its
preservation, `LaunchTheorems` the results; `LaunchReports` says what a failing or succeeding start-up
call leads to, `LaunchGroup` whom a failing launch signals, `LaunchOrphans` shows a run in which it
signals nobody, and `LaunchCleanup` says what stays open after it.

**Sweet16** (`Options`, `Bytes`, `Sweet16*.dfy`, `Cpu6502.dfy`). An 8-bit processor interprets a 16-bit
register machine. `Sweet16Isa` is the 16-bit machine, `Cpu6502.Cpu` the part of the 6502 that is
used, and `Sweet16` the interpreter, one method per routine, instruction by instruction. The
refinement is for all memory contents and all opcodes, including programs that use R0, R14, R15
or zero-page addresses as operands; only BK has no 16-bit meaning and ends in `Trap`.
`Sweet16Fixed` is the variant that reaches memory through a scratch pointer, `Sweet16Ports` two
places where the ports differ, `Sweet16Programs` what programs can rely on, `Sweet16Manual` the
instructions by opcode in terms of registers and memory, with what tests make branches do. STDAT is taken from
asm/sweet16/sweet16.asm:140 and BM1/BNM1 from asm/sweet16/jeff.s:437-458, where the comments and
the code agree. Carries out of bytes and words are written as case distinctions, which
`Bytes.WrapIsModulo` and `Bytes.SplitIsModulo` relate to division.

**lsh: tokens and processes** (`TokenSpec`, `Tokenizer`, `TokenRoundTrip`, `TokenTexts`, `CStrings`,
`Numerals`, `ProcessParser`, `RedirectTexts`). `TokenSpec.Tokens` says what splitting means: resolve escapes, cut at the
separators. `Tokenizer` is the one-pass code over one block of memory, a pointer table of 21 entries and
behind it a character buffer of length + 1. `ProcessParser` applies it to redirects and to one process.
`TokenTexts`, `Numerals` and `RedirectTexts` say what given texts are read as.

**lsh: the job lists** (`JobTable*.dfy`, `JobCommands.dfy`, `JobTraversal.dfy`, `JobLists.dfy`,
`JobShell.dfy`).
`JobTable` says on values what each launch, builtin, SIGCHLD handler run and prompt does;
`JobTableTheorems` is about all runs of these steps, `JobCommands` about what the user types and sees; `JobLists.HandleList` is the linked list
edited in place and `JobShell.Shell` the shell's three lists, each method tied to its step.

**minitalk and f2b** (`Talk.dfy`, `TalkLines.dfy`, `TalkServer.dfy`, `Fraction.dfy`, `FractionWrap.dfy`). `TalkServer.Server` is the
16-slot table of descriptor numbers, `Talk` the same server told in connections, which are never
reused; `TalkLines` says what typed lines do. `Fraction` is the loop that prints a decimal fraction in binary, `FractionWrap` what it
prints when words wrap.

## What is assumed

- Launch: descriptors 0, 1 and 2 are open when the call starts; closing an open descriptor
  succeeds; a redirect replaces standard descriptors by files or fails, and does not block; a
  process that was sent SIGTERM while starting takes no further step; interrupted reads are repeated;
  a failing fcntl in `create_pipe` is not told apart from a failing pipe.
- Launch, process groups: setpgid succeeds for a process that has neither been reaped nor, when the
  parent calls it, exec'd, as long as the group exists, and fails otherwise; the leader's own call
  always succeeds. The group exists from the leader's joining until its last member is reaped, or
  later if programs have left processes of their own in it. Programs do not leave their group, and
  the id of a reaped process is not reused during the launch. The SIGCHLD handler may reap any
  process that has ended, the launch not having masked the signal (lsh/main.c:104,
  lsh/execute.c:382); it finds no job waiting for its report at that moment, as otherwise
  lsh/utility.h:43 would dereference the missing handle.
- Job lists: each launch, builtin, handler run and prompt is one atomic step (SIGCHLD is masked
  only from lsh/execute.c:382 on), so no process ends between the two loops of a handler run. As
  the first loop reaps whatever has ended of the listed jobs, and launches are taken to succeed, so
  that no other process is there, the second loop (lsh/main.c:104-108) finds nothing. In the program
  a process that ends between the loops is reaped by the second one without being counted. waitpid
  reports each process ended once, and fork does not reuse the id of a group that still has
  unreaped processes. What waitpid reports is a parameter (`script`).
- Sweet16: the processor is not in decimal mode; the 6502 stack is separate from the 64K of memory;
  no store of a program changes the interpreter's own code, which ST @Rx could.
- Tokens: a pointer takes eight bytes.
- minitalk: accept returns a descriptor that is not open and not 0; what select and read return are
  parameters.

## Where the code does not do what one expects

- `parse_tokens` checks the number of pointers only when it pushes a non-empty token. 21 delimiters
  in a row store a pointer behind the table, on top of the buffer; the call still returns NULL. 24 of
  them store one outside the block: `Tokenizer.DelimitersOverrun`; `Tokenizer.ParseTokens` says
  exactly for which commands.
- A process of 20 or more words is treated as an empty line (lsh/parser.c:196-200), and a token
  with both arrows is read as an output redirect, because the test at lsh/parser.c:219 cannot
  succeed after the short cut at line 212. Both are in `ProcessParser.ProcessOf`.
- A job that was stopped and then ends is reported "(Stopped)" instead of "(Done)", because nothing
  clears the flag (lsh/job.c:70, lsh/main.c:80): `JobTableTheorems.ReportText`,
  `JobTableTheorems.KilledWhileStopped`. It is still reported exactly once.
- INDREG restores the flags before its last PLA, which sets two of them again
  (asm/sweet16/sweet16_fix.asm:306-307): `Sweet16Fixed.Indreg`.
- The rewritten loads differ from the originals when they read the scratch pair itself; the
  agreement lemmas of `Sweet16Fixed` give the exact condition.
- BM1/BNM1 of sweet16.asm compare with memory instead of a constant, and STDAT of jeff.s loads
  instead of storing: `Sweet16Ports` says exactly when they still work.
- minitalk takes an empty line as a choice of slot 0, as strtol returns 0 for it, and stores what
  strtol returns in an int, so only the low 32 bits of a choice count: 4294967299 selects slot 3, and
  a number below the smallest long selects slot 0 (`TalkLines.ChoosesByNumber`,
  `TalkLines.ChoosesByNegative`). Job indices and descriptors are read the same way.
- A start-up call that fails fails the launch, unless the process is killed before it has written its
  error: then the launch can succeed without it (`LaunchReports.FailedCallFailsLaunch`).
- After a failed launch of two or more forked processes the first error pipe stays open
  (`LaunchCleanup.FailedLaunchLeaks`).
- f2b is exact up to 18 digits. With 19 a shift can wrap, exactly when `FractionWrap.NoWrap` says;
  from 20 on the limit has wrapped as well. `FractionWrap.PrintedRight` gives the exact condition
  for any number of digits, in terms of the true remainders.
- A failing launch signals the job's group, but both setpgid calls ignore their results
  (lsh/execute.c:263, 281). If the leader has died and been reaped, the group does not exist any
  more, the later processes are in no group of the job, and nobody is signalled:
  `LaunchGroup.SignalledIffInTime` says exactly when, `LaunchOrphans.FailedLaunchMissesAll` shows
  that it happens to every pipeline.
- A Sweet16 program can put something into the prior-result byte that names no register, in three
  ways: `Sweet16Programs.Spoils`.

## Model

| member | source | states |
|---|---|---|
| LaunchProofs.StepInv | lsh/execute.c:191-317 | every step of the parent, of a child, of a killer or of the SIGCHLD handler keeps the invariant that fixes each process's descriptor table at each program point |
| LaunchProofs.RunInv | lsh/execute.c:191-317 | the invariant holds in every state of every run, for any number of processes |
| LaunchProofs.MoveInv | lsh/execute.c:208-306 | the parent's own table is the initial one plus exactly the pipe ends of its current phase, through every statement of the fork loop and behind it |
| LaunchProofs.ChildTabStep | lsh/execute.c:224-268 | each child statement keeps the child's table in the shape of its program point, up to exec and exit |
| LaunchProofs.ForkInv | lsh/execute.c:220-227 | a forked child starts with a table of the right shape, whatever the parent holds at that moment |
| LaunchProofs.ReadTells | lsh/execute.c:154-171 | end-of-file on child k's error pipe means that k has exec'd or died without an error; data means that it wrote one |
| LaunchProofs.LiveHoldsErrW | lsh/execute.c:228-267 | a child still starting holds the writing end of its error pipe |
| LaunchProofs.ControlPipeBlocks | lsh/execute.c:251-260 | a leader that was not signalled passes its read only after the parent has left the fork loop and closed the control pipe |
| LaunchTheorems.LeaderExecsLast | lsh/execute.c:191-308 | in every interleaving, when the leader runs its program all processes are forked and each later one has exec'd or exited without an error |
| LaunchTheorems.LostLeaderNeverExecs | lsh/execute.c:285-317 | once a process reports a start error or a pipe or fork fails, the leader does not run its program then or later |
| LaunchTheorems.ErrPipeHolder | lsh/execute.c:282-308 | when the parent has closed its copy, only child k can keep its error pipe open |
| LaunchTheorems.ControlPipeClosed | lsh/execute.c:301-303 | behind the fork loop nobody holds the control pipe's writing end while the leader waits on it |
| LaunchTheorems.NoDeadlock | lsh/execute.c:208-308 | in every reachable state some process can make a step, until the call has returned and every child has exec'd or exited |
| LaunchTheorems.StepDecreases | lsh/execute.c:208-317 | every step, failing or not, lowers a measure |
| LaunchTheorems.RunsTerminate | lsh/execute.c:191-327 | no run is longer than 35 n + 21 steps, deaths and reaping included |
| LaunchTheorems.StuckRunHasReturned | lsh/execute.c:191-327 | a run that cannot go on has ended: the call returned and every child is settled |
| LaunchTheorems.SuccessWiring | lsh/execute.c:197-308 | after success, process i without redirects has exactly the inherited descriptors, with stdin and stdout being the ends of pipes i-1 and i |
| LaunchTheorems.SuccessExclusive | lsh/execute.c:197-308 | after success nobody else holds those ends, and the control and error pipes are gone |
| LaunchTheorems.TableConserved | lsh/execute.c:301-308 | a successful call leaves the shell's descriptor table as it was |
| LaunchTheorems.ClosesAreExact | lsh/execute.c:271-306 | each close on the way to success names the intended end or no open descriptor; the repeated closes at the end hit nothing |
| LaunchTheorems.BaseSurvives | lsh/execute.c:310-327 | even a failing call keeps every descriptor the shell had |
| LaunchTheorems.UndisturbedLaunchSucceeds | lsh/execute.c:191-308 | if no system call fails and no process dies early, a complete run ends in success, every process running its program or having finished it |
| LaunchTheorems.LaunchCanSucceed | lsh/execute.c:191-308 | every job has such a run with all programs running, so success is reachable for every pipeline |
| LaunchReports.FailedStartReports | lsh/execute.c:173-181 | a process that nobody killed and that ended before running its program has written its error and its message |
| LaunchReports.SuccessMeansRunning | lsh/execute.c:224-308 | when the call has succeeded, every process that nobody killed runs its program or has finished it |
| LaunchReports.FailedCallFailsLaunch | lsh/execute.c:228-317 | after a failing link, redirect, terminal or exec call that process never runs its program, and the launch does not succeed unless the process is killed first |
| LaunchReports.FailedStartStopsLeader | lsh/execute.c:266-317 | once a process has exited over a failed start, the leader never runs and the launch never succeeds |
| LaunchReports.LeaderTookTerminal | lsh/execute.c:242-249 | the leader of a foreground job runs its program only behind a successful taking of the terminal |
| LaunchReports.OthersLeaveTerminal | lsh/execute.c:238-265 | no other process, and no leader of a background job, takes it |
| LaunchReports.RedirectedWiring | lsh/execute.c:229 | a running process has exactly the expected descriptors with the files of its redirects over them: redirects come after the pipes |
| LaunchReports.ChildCloses | lsh/execute.c:233-264 | already before its exec a child has closed its copies of the pipe ends it has linked and of the control pipe |
| LaunchReports.MessageRead | lsh/execute.c:154-171 | behind an error number the parent's second read gets the message, waits for it, or sees that the child has gone |
| LaunchReports.AnythingCanHappen | lsh/execute.c:191-317 | deaths, reaping, failing calls and any redirects of standard descriptors are possible at every point |
| LaunchCleanup.FailedLaunchCloses | lsh/execute.c:310-319 | after a failed launch the shell holds, besides its own descriptors, at most the first error pipe and the last data pipe it was to pass on |
| LaunchCleanup.FailedLaunchLeaks | lsh/execute.c:311-319 | and the first error pipe it does hold, if two processes were forked |
| LaunchGroup.InGroupIffJoined | lsh/execute.c:238-281 | a process is in the job's group iff one of the two setpgid calls for it, its own or the parent's, has succeeded |
| LaunchGroup.GroupedStep | lsh/execute.c:238-317 | every step keeps: a process past one of those calls is in the group or reaped, or the group does not exist; on the error exit all members left are signalled |
| LaunchGroup.GroupStaysAway | lsh/execute.c:277-281 | a group that does not exist once the parent is done with the leader never will |
| LaunchGroup.KillSignals | lsh/execute.c:310-316 | the error exit's SIGTERM reaches a process iff the group exists at that moment and the process has not been reaped |
| LaunchGroup.FailedLaunchSignals | lsh/execute.c:310-316 | after the error exit a process not yet reaped has been sent the SIGTERM iff the job's group exists: all of them, or none |
| LaunchGroup.FailedLaunchSignalsAll | lsh/execute.c:310-316 | as long as the leader has not been reaped, every forked process has been sent it or has been reaped |
| LaunchGroup.SignalledIffInTime | lsh/execute.c:281 | whether a process will be missed is decided at the parent's setpgid for it: it will be signalled iff the group exists then |
| LaunchOrphans.FailedLaunchMissesAll | lsh/execute.c:263-281 | for every pipeline a run in which the launch fails, all processes but the leader run their programs and none has been sent a signal |
| Sweet16Isa.ShownOnce | asm/sweet16/sweet16.asm:1-5 | the 64K of memory determine the 16-bit registers and the remaining memory, so `Cpu.M` is the state they hold |
| Sweet16Isa.AbsWrite | asm/sweet16/sweet16.asm:1-5 | storing a byte in memory is storing it in that state, register bytes included |
| Sweet16.ExecuteOne | asm/sweet16/sweet16.asm:18-233 | one pass of the byte-level dispatcher is one step of the 16-bit machine: registers, program counter, memory, prior result and carry |
| Sweet16.Interpret | asm/sweet16/sweet16.asm:16-17 | n passes of the loop are a run of n steps, up to RTN or BK |
| Sweet16.Decode | asm/sweet16/sweet16.asm:23-30 | the masked and shifted opcode gives twice the register in X and the operation in A |
| Sweet16.SelectOperation | asm/sweet16/sweet16.asm:31-38 | the prior-result byte becomes twice the register, and the carry is clear when a register routine starts |
| Sweet16.RegisterOpcode | asm/sweet16/sweet16.asm:31-94 | each register opcode performs its 16-bit operation, with any operand register |
| Sweet16.BranchOpcode | asm/sweet16/sweet16.asm:39-94 | each non-register opcode performs its 16-bit operation; BK ends the run |
| Sweet16.SetConstant | asm/sweet16/sweet16.asm:51-62 | SET loads the constant byte by byte and steps over it |
| Sweet16.Ld | asm/sweet16/sweet16.asm:100-105 | LD copies Rx to R0 |
| Sweet16.St | asm/sweet16/sweet16.asm:106-110 | ST copies R0 to Rx |
| Sweet16.Stat | asm/sweet16/sweet16.asm:111-118 | ST @Rx stores R0's low byte at Rx and advances Rx |
| Sweet16.Inr | asm/sweet16/sweet16.asm:115-118 | INR adds one modulo 65536 through two byte increments |
| Sweet16.Ldat | asm/sweet16/sweet16.asm:119-123 | LD @Rx loads a byte and advances Rx |
| Sweet16.PopByte | asm/sweet16/sweet16.asm:124-135 | POP @Rx steps back and loads a byte |
| Sweet16.Popd | asm/sweet16/sweet16.asm:126-135 | POPD @Rx steps back twice and loads a word |
| Sweet16.Lddat | asm/sweet16/sweet16.asm:136-139 | LDD @Rx loads a word and advances Rx by two |
| Sweet16.Stdat | asm/sweet16/sweet16.asm:140-143 | STD @Rx stores a word and advances Rx by two |
| Sweet16.Stpat | asm/sweet16/sweet16.asm:144-147 | STP @Rx steps back and stores a byte |
| Sweet16.Dcr | asm/sweet16/sweet16.asm:148-152 | DCR subtracts one modulo 65536 through two byte decrements |
| Sweet16.Cpr | asm/sweet16/sweet16.asm:154-164 | the byte-wise subtraction is the word difference, with the carry meaning no borrow, also when an operand is the result register |
| Sweet16.Sub | asm/sweet16/sweet16.asm:153-164 | SUB is CPR with R0 as result |
| Sweet16.AddR | asm/sweet16/sweet16.asm:165-171 | ADD is the word sum although it never clears the carry; R0 + R0 included |
| Sweet16.Bs | asm/sweet16/sweet16.asm:172-186 | BS pushes the program counter through R12 and branches |
| Sweet16.Br1 | asm/sweet16/sweet16.asm:178-186 | the displacement is sign-extended and added modulo 65536, given a clear carry |
| Sweet16.Bnc | asm/sweet16/sweet16.asm:177-186 | BNC branches if the prior result left no carry |
| Sweet16.Bc | asm/sweet16/sweet16.asm:187-188 | BC branches if it left one |
| Sweet16.IndexPrior | asm/sweet16/sweet16.asm:189-190 | doubling the prior-result index leaves the carry clear for the branch |
| Sweet16.Bp | asm/sweet16/sweet16.asm:189-193 | BP branches if the prior result's sign bit is clear |
| Sweet16.Bm | asm/sweet16/sweet16.asm:194-198 | BM branches if it is set |
| Sweet16.Bz | asm/sweet16/sweet16.asm:199-204 | BZ branches if the prior result word is zero |
| Sweet16.Bnz | asm/sweet16/sweet16.asm:205-210 | BNZ branches if it is not |
| Sweet16.Bm1 | asm/sweet16/jeff.s:437-446 | BM1 branches if the prior result word is minus one |
| Sweet16.Bnm1 | asm/sweet16/jeff.s:450-459 | BNM1 branches if it is not |
| Sweet16.Rs | asm/sweet16/sweet16.asm:225-232 | RS takes the program counter back through R12 |
| Sweet16Words.AddBytes | asm/sweet16/sweet16.asm:165-169 | two byte additions linked by the carry add words |
| Sweet16Words.SubBytes | asm/sweet16/sweet16.asm:154-160 | two byte subtractions linked by the carry subtract words |
| Sweet16Words.AddDisplacement | asm/sweet16/sweet16.asm:178-185 | adding a byte and its sign extension adds the signed displacement |
| Sweet16Programs.PriorInEveryRun | asm/sweet16/jeff.s:49-131 | over a run of any length the prior-result byte is always at most 31 if and only if no instruction of it is a SET R14 or ST R14 with a larger high byte or an STD whose second byte is a larger one stored at that very address |
| Sweet16Programs.PoliteStep | asm/sweet16/sweet16.asm:18-233 | the same for one instruction, exactly |
| Sweet16Programs.BranchesTestRegister | asm/sweet16/jeff.s:389-458 | in such a run each conditional branch tests the register that byte names |
| Sweet16Programs.SetSpoils | asm/sweet16/sweet16.asm:51-62 | a program that puts something else there: SET R14,$FF00 |
| Sweet16Programs.CompareOrders | asm/sweet16/sweet16.asm:154-164 | after CPR the prior result is zero iff R0 equals Rx and the carry is set iff R0 is not below Rx, for Rx = R13 too |
| Sweet16Programs.SubtractOrders | asm/sweet16/sweet16.asm:153-164 | the same for SUB and any result register |
| Sweet16Programs.PushThenPop | asm/sweet16/sweet16.asm:111-135 | ST @Rx then POP @Rx restores the byte and the pointer |
| Sweet16Programs.StoreThenPopDouble | asm/sweet16/sweet16.asm:126-143 | STD @Rx then POPD @Rx restores R0 and the pointer |
| Sweet16Programs.CallSaves | asm/sweet16/sweet16.asm:172-175 | BS saves the address behind it in the two cells at R12 and changes nothing else in memory |
| Sweet16Programs.ReturnRestores | asm/sweet16/sweet16.asm:225-232 | RS resumes at the address in the two cells below R12 |
| Sweet16Programs.BodyReturns | asm/sweet16/sweet16.asm:172-232 | a balanced subroutine body that leaves the saved return addresses alone returns behind its own BS |
| Sweet16Programs.CallsReturn | asm/sweet16/sweet16.asm:172-232 | for every well-nested tree of calls whose bodies end with the R12 they began with and leave the saved return addresses alone, whatever they push and pop in between, running the machine is the same as the structured meaning, in which control resumes behind each BS with R12 restored |
| Sweet16Programs.ExecuteRuns | asm/sweet16/sweet16.asm:16-17 | executing such a tree is a run of the interpreter for some number of instructions |
| Sweet16Programs.ExecuteIterates | asm/sweet16/sweet16.asm:16-17 | the same for any step function |
| Sweet16Manual.BranchDecides | asm/sweet16/sweet16.asm:63-94 | opcodes 1 to 9 branch on the carry, its absence, and on the named register being non-negative, negative, zero, non-zero, minus one or not minus one, and change only the program counter |
| Sweet16Manual.CompareThenBranch | asm/sweet16/sweet16.asm:154-210 | CPR Rx and then BZ, BNZ, BC or BNC branches iff R0 is Rx, is not, is not below it, or is below it |
| Sweet16Manual.LoadThenBranch | asm/sweet16/jeff.s:389-458 | LD Rx and then a branch asks for the sign of Rx, zero and minus one |
| Sweet16Manual.AddThenBranch | asm/sweet16/sweet16.asm:165-188 | ADD Rx and then BC or BNC asks whether the sum left the word |
| Sweet16Manual.LoopCounts | asm/sweet16/sweet16.asm:148-210 | a loop of DCR Rx and BNZ runs as often as Rx says, ends behind the BNZ with Rx zero, and changes nothing else |
| Sweet16Manual.SetRegister | asm/sweet16/sweet16.asm:51-62 | opcode 1x loads Rx with the two bytes behind it and steps over them |
| Sweet16Manual.Load | asm/sweet16/sweet16.asm:63-100 | opcode 2x copies Rx to R0 |
| Sweet16Manual.Store | asm/sweet16/sweet16.asm:63-110 | opcode 3x copies R0 to Rx |
| Sweet16Manual.LoadByte | asm/sweet16/sweet16.asm:63-123 | opcode 4x loads the byte at Rx and advances Rx |
| Sweet16Manual.StoreByte | asm/sweet16/sweet16.asm:63-118 | opcode 5x stores the low byte of R0 at Rx and advances Rx |
| Sweet16Manual.LoadWord | asm/sweet16/sweet16.asm:63-139 | opcode 6x loads two bytes, low byte first, and advances Rx by two |
| Sweet16Manual.StoreWord | asm/sweet16/sweet16.asm:63-143 | opcode 7x stores R0, low byte first, and advances Rx by two |
| Sweet16Manual.PopOne | asm/sweet16/sweet16.asm:63-135 | opcode 8x steps Rx back and loads the byte there |
| Sweet16Manual.StoreBack | asm/sweet16/sweet16.asm:63-147 | opcode 9x steps Rx back and stores the low byte of R0 there |
| Sweet16Manual.Sum | asm/sweet16/sweet16.asm:63-171 | opcode Ax adds Rx to R0 with the carry of the addition |
| Sweet16Manual.Difference | asm/sweet16/sweet16.asm:63-164 | opcode Bx subtracts Rx from R0, the carry meaning no borrow |
| Sweet16Manual.PopTwo | asm/sweet16/sweet16.asm:63-135 | opcode Cx steps Rx back by two and loads the word there |
| Sweet16Manual.Compare | asm/sweet16/sweet16.asm:63-164 | opcode Dx puts the difference of R0 and Rx into R13 |
| Sweet16Manual.Increment | asm/sweet16/sweet16.asm:63-118 | opcode Ex adds one to Rx |
| Sweet16Manual.Decrement | asm/sweet16/sweet16.asm:63-152 | opcode Fx subtracts one from Rx |
| Sweet16Manual.OtherOpcodes | asm/sweet16/sweet16.asm:63-94 | opcode 0 ends the run, A is a trap, D to F skip their second byte |
| Sweet16Fixed.Indreg | asm/sweet16/sweet16_fix.asm:300-308 | INDREG copies Rx to R16, keeping A, the carry and the stack, but sets the zero and negative flags from A |
| Sweet16Fixed.Stat | asm/sweet16/sweet16_fix.asm:115-123 | the rewritten ST @Rx, with R16 holding the pointer afterwards; like the four below it restores the stack its RTS needs |
| Sweet16Fixed.Ldat | asm/sweet16/sweet16_fix.asm:124-130 | the rewritten LD @Rx |
| Sweet16Fixed.PopByte | asm/sweet16/sweet16_fix.asm:131-151 | the rewritten POP, whose high byte travels over the stack |
| Sweet16Fixed.Popd | asm/sweet16/sweet16_fix.asm:133-151 | the rewritten POPD |
| Sweet16Fixed.Stpat | asm/sweet16/sweet16_fix.asm:179-188 | the rewritten STP |
| Sweet16Fixed.Shl | asm/sweet16/sweet16_fix.asm:163-165 | opcode 6 doubles Rx modulo 65536 |
| Sweet16Fixed.Shr | asm/sweet16/sweet16_fix.asm:176-178 | opcode 7 halves Rx |
| Sweet16Fixed.StatAgrees | asm/sweet16/sweet16_fix.asm:115-123 | the rewritten ST @Rx reaches the original's state, R16 aside, for all registers and memory |
| Sweet16Fixed.StpatAgrees | asm/sweet16/sweet16_fix.asm:179-188 | so does STP |
| Sweet16Fixed.LdatAgrees | asm/sweet16/sweet16_fix.asm:124-130 | LD @Rx agrees iff the pointer is not a scratch cell that holds something else than the pointer |
| Sweet16Fixed.PopAgrees | asm/sweet16/sweet16_fix.asm:131-151 | POP agrees iff the same holds one below the pointer |
| Sweet16Fixed.PopdAgrees | asm/sweet16/sweet16_fix.asm:133-151 | POPD agrees iff it holds for both cells |
| Sweet16Fixed.LdatDiffers | asm/sweet16/sweet16_fix.asm:124-130 | a state in which the rewritten load gives another result than the original |
| Sweet16Ports.Bm1ZeroPage | asm/sweet16/sweet16.asm:211-217 | BM1 of this file compares with the byte at address 255 |
| Sweet16Ports.Bnm1ZeroPage | asm/sweet16/sweet16.asm:218-224 | so does BNM1 |
| Sweet16Ports.MinusOneMask | asm/sweet16/sweet16.asm:211-224 | that test means minus one for every word iff the byte is 255 |
| Sweet16Ports.MinusOneMissed | asm/sweet16/sweet16.asm:211-217 | a word and a byte for which it goes wrong |
| Sweet16Ports.StdatViaLoad | asm/sweet16/jeff.s:298-301 | STDAT of this file loads a byte before it stores |
| Sweet16Ports.LoadStoresExactly | asm/sweet16/jeff.s:298-301 | it stores R0 iff R0 is the byte already there |
| Tokenizer.ParseTokens | lsh/parser.c:18-125 | the result is NULL or the tokens of the specification, stored and NULL-terminated; pointers stored behind the table overwrite the buffer, which follows it in the same block, and the result says exactly when one would leave the block |
| Tokenizer.ScanAll | lsh/parser.c:31-96 | the loop, up to the end of the command or an early return |
| Tokenizer.ScanOne | lsh/parser.c:33-95 | one character of the command keeps the loop's knowledge or ends the parse the way the specification says |
| Tokenizer.Separator | lsh/parser.c:33-54 | an unescaped delimiter closes a token, pushes an empty one or is skipped |
| Tokenizer.OpenArgument | lsh/parser.c:56-67 | the first character of a token pushes a pointer, and the twentieth push gives up |
| Tokenizer.Character | lsh/parser.c:69-93 | escapes are resolved in place |
| Tokenizer.Finish | lsh/parser.c:97-124 | the pending backslash or the last empty token, and the terminators |
| Tokenizer.NeverOverrunsNonEmpty | lsh/parser.c:41-67 | dropping empty tokens, no command passes the pointer table |
| Tokenizer.FewDelimitersSafe | lsh/parser.c:41-45 | with at most 20 unescaped delimiters no command passes the table, with at most 23 none leaves the block |
| Tokenizer.DelimitersOverrun | lsh/parser.c:41-45 | a line of n delimiters passes the table iff n is at least 21, and leaves the block iff n is at least 24 |
| Tokenizer.PassesTable | lsh/parser.c:41-67 | in general the table is passed iff two empty tokens at positions 19 and 20 are followed by a third token |
| Tokenizer.LeavesBlockExactly | lsh/parser.c:22-45 | a store leaves the block iff there are more tokens than pointers fit into it and those from position 19 on that fit are all empty |
| Tokenizer.StorePointer | lsh/parser.c:22-25 | a pointer stored behind the table overwrites eight buffer characters |
| TokenSpec.TokensNoNul | lsh/parser.c:31-96 | tokens contain no terminator, so a stored token reads back exactly |
| TokenRoundTrip.RoundTrip | lsh/parser.c:31-117 | escaping, joining and splitting gives back any non-empty list, or any list of non-empty tokens when empty ones are dropped |
| TokenRoundTrip.ParserRoundTrip | lsh/parser.c:18-125 | up to 19 tokens the code returns all of them, with more it returns NULL or is about to leave its block |
| TokenRoundTrip.PipelineRoundTrip | lsh/parser.c:195-269 | quoting for whitespace and then for '|' and splitting at both levels recovers a whole list of argument lists, of any size |
| TokenRoundTrip.ParserPipelineRoundTrip | lsh/parser.c:195-281 | the code at both levels: up to 19 processes of up to 19 words come back, more processes give NULL for the line and more words NULL for the process |
| TokenTexts.EscapeTaken | lsh/parser.c:33-80 | a backslash before a delimiter or a backslash is dropped and protects it |
| TokenTexts.EscapeKept | lsh/parser.c:83-88 | before any other character it stays |
| TokenTexts.EscapeLast | lsh/parser.c:97-101 | and at the end of the text too |
| TokenTexts.DelimiterCuts | lsh/parser.c:33-54 | an unescaped delimiter ends the token before it, and what follows is split by itself |
| TokenTexts.DropsEmpty | lsh/parser.c:41-49 | dropping empty tokens drops these and keeps each other one as often as it stands there |
| TokenTexts.DropsInOrder | lsh/parser.c:41-49 | and in the same order |
| Numerals.NumeralRead | lsh/parser.c:136-151 | a decimal numeral, blanks before it or not, reads as its value if an int holds it, as its low 32 bits if a long does, and as -1 above |
| Numerals.NegativeRead | lsh/parser.c:136-151 | with a minus sign as the opposite, and as 0 below the smallest long |
| Numerals.NumbersExactly | lsh/parser.c:136-151 | a string is read as a number iff it is blanks, perhaps a sign, and digits to its end |
| RedirectTexts.DefaultDescriptors | lsh/parser.c:130-133 | >file is descriptor 1 to the file and <file descriptor 0 from it |
| RedirectTexts.NumberedDescriptor | lsh/parser.c:134-139 | n>file and n<file name descriptor n |
| RedirectTexts.CopiedDescriptor | lsh/parser.c:144-152 | n>&m and n<&m name descriptors n and m |
| RedirectTexts.MeaninglessExactly | lsh/parser.c:127-159 | a text with one arrow means nothing iff its target is empty, its left side is no number, or its target is '&' without a number |
| RedirectTexts.TwoArrows | lsh/parser.c:164-169 | a text with two arrows of the deciding kind means nothing |
| ProcessParser.ParseRedirect | lsh/parser.c:127-187 | the redirect of a token, none if it is not one, or a table overrun |
| ProcessParser.CopyString | lsh/parser.c:172-174 | strdup of a stored token gives that token |
| ProcessParser.ParseProcess | lsh/parser.c:192-253 | the outcome is that of the token list; accepted words keep their pointers and every pointer behind them is NULL |
| ProcessParser.ReadTokens | lsh/parser.c:209-244 | the loop over the tokens |
| ProcessParser.ReadOne | lsh/parser.c:209-241 | one turn of that loop |
| ProcessParser.RedirectsMean | lsh/parser.c:224-231 | the redirects read are the meanings of the tokens, one by one and in order |
| ProcessParser.AcceptedExactly | lsh/parser.c:192-253 | accepted iff 1 to 19 tokens, at least one word, and behind the words only valid redirects, which are then the result in order |
| ProcessParser.RejectedExactly | lsh/parser.c:196-251 | no process iff there are no tokens or 20 and more; an error or a table overrun iff the token that comes first says so |
| ProcessParser.FirstArrow | lsh/parser.c:209-219 | the words before the first redirect |
| JobLists.HandleList.Remove | lsh/job.c:13-31 | the first handle with that process group, or the first of all, is unlinked and the others keep their order; the list stays acyclic |
| JobLists.HandleList.Unlink | lsh/job.c:22-25 | one link is redirected |
| JobLists.HandleList.AddLast | lsh/utility.h:22-31 | the handle becomes the last |
| JobLists.HandleList.AddFirst | lsh/utility.h:33-47 | the handle becomes the first |
| JobShell.DrainGroup | lsh/main.c:66-87 | the handler's inner loop over one group's events |
| JobShell.Shell.HandleChld | lsh/main.c:58-102 | the handler's walk with removal on the way: jobs with processes left stay in order, the finished ones go to the end of the removed list |
| JobShell.Shell.HandleOne | lsh/main.c:64-102 | one turn of the walk, which stands on the next handle afterwards |
| JobTraversal.MidwayTurn | lsh/main.c:64-102 | the turns of the walk add up to the order-preserving split |
| JobShell.AwaitGroup | lsh/execute.c:336-372 | the wait ends in a relisting iff as many stops as the job has processes are reported before any end; otherwise all are reaped |
| JobShell.Shell.WaitForFg | lsh/execute.c:330-376 | a stopped foreground job becomes the first of the list and is announced |
| JobShell.Shell.Launched | lsh/execute.c:378-393 | a started pipeline is waited for or listed |
| JobShell.Shell.GetJobHandle | lsh/execute.c:475-490 | the handle at the index is taken out, or the way it fails; the rest keeps its order |
| JobShell.Shell.DoBg | lsh/execute.c:515-529 | bg as a step of the table |
| JobShell.Shell.DoFg | lsh/execute.c:493-513 | fg as a step of the table, with and without the terminal |
| JobShell.Shell.DoJobs | lsh/execute.c:447-457 | the listing, numbered from 1 |
| JobShell.Shell.PrintPending | lsh/main.c:25-43 | announcements are dropped, then ended jobs are reported once each, in order |
| JobTableTheorems.StepInv | lsh/main.c:58-102 | every step keeps: the shell's counts are the kernel's, groups are distinct, each job is in exactly one place, announcements refer to existing jobs |
| JobTableTheorems.RunInv | lsh/execute.c:330-391 | this holds over every run of launches, fg, bg, handler runs and prompts |
| JobTableTheorems.WaitInv | lsh/execute.c:330-376 | a wait keeps it, because it relists a job only if none of its processes ended |
| JobTableTheorems.TakeAllCounts | lsh/main.c:71-76 | each reaped process lowers the shell's count by one |
| JobTableTheorems.ReportedOnce | lsh/main.c:34-40 | in every run a job is reported at most once, and then no list refers to it |
| JobTableTheorems.LiveJobListed | lsh/execute.c:364-391 | in every run each launched job is listed with processes left, ended and waiting for its report, waited for to its end, or reported |
| JobTableTheorems.ChldMovesExactly | lsh/main.c:89-101 | the handler moves a job, and the next prompt reports it, exactly when its last process was reaped |
| JobTableTheorems.SplitIds | lsh/main.c:64-102 | the handler's split neither loses nor doubles a job |
| JobTableTheorems.LiveOrder | lsh/main.c:64-102 | jobs that stay keep their order |
| JobTableTheorems.SelectsListed | lsh/execute.c:459-490 | the job selected is the one the listing numbers with the index, and none past the end |
| JobTableTheorems.BgMovesLast | lsh/execute.c:515-529 | after bg that job is the last, running, and the others keep their order |
| JobCommands.ArgumentsSelect | lsh/execute.c:459-490 | fg and bg without a number select line 1 of the listing, with the numeral n line n, and nothing if there is no such line |
| JobCommands.MalformedSelects | lsh/execute.c:461-474 | two or more arguments, or one that is no number, are the only syntax errors |
| JobCommands.BgByNumber | lsh/execute.c:515-529 | bg with the number n moves line n of the listing to the end, running and announced; the others close up |
| JobCommands.FgByNumber | lsh/execute.c:493-513 | fg with the number n takes line n off the listing; if the job is stopped it comes back as line 1, Stopped and announced, otherwise it has ended |
| JobCommands.FgWithoutTerminal | lsh/execute.c:501-505 | without the terminal the job moves to the end in the state it was in |
| JobCommands.NothingSelected | lsh/execute.c:493-529 | without such a line, or with a syntax error, neither changes anything |
| JobCommands.WaitsForAllStops | lsh/execute.c:336-372 | a wait relists the job iff the first reports, as many as it has processes, are all stops |
| JobCommands.LaunchLists | lsh/execute.c:378-393 | a background job, or a foreground job that is stopped, becomes line 1 and is announced; one that ends is never listed |
| JobCommands.ListedText | lsh/job.c:66-76 | a job that stays listed shows Stopped iff it was stopped before or one of its processes stopped meanwhile |
| JobCommands.ReportedLine | lsh/main.c:34-40 | a job whose last process is reaped gets a line without a number, Done iff none of its processes was seen stopped |
| JobCommands.PromptReports | lsh/main.c:25-43 | the prompt prints one line per ended job, in order, and forgets announcements and ended jobs |
| JobCommands.LaunchesPossible | lsh/execute.c:336-372 | any unused group can be launched, and a wait can see all processes end, or as many stops first |
| JobCommands.EventsPossible | lsh/main.c:66-87 | a handler run can see any events in which no job ends more often than it has processes |
| JobTableTheorems.ReportText | lsh/job.c:66-76 | a job is reported Done iff it was not marked stopped and none of its processes stopped since |
| JobTableTheorems.KilledWhileStopped | lsh/main.c:77-81 | a run in which a finished job is reported as stopped |
| TalkServer.Server.AcceptUser | minitalk/server_main.c:161-173 | a new connection takes the first free slot, whatever number the system gives it |
| TalkServer.Server.PrepareUsers | minitalk/server_main.c:175-197 | named users without a target wait for a choice |
| TalkServer.Server.RemoveUser | minitalk/server_main.c:92-104 | closing a descriptor clears its slot and every target that names it |
| TalkServer.Server.SelectUser | minitalk/server_main.c:232-251 | a valid choice becomes the target, any other removes the user |
| TalkServer.Server.TakeTurn | minitalk/server_main.c:216-268 | one user's turn on descriptors is the turn on connections |
| TalkServer.Server.TakeTurns | minitalk/server_main.c:214-269 | a whole round on descriptors is the round on connections, messages included |
| TalkServer.AcceptOk | minitalk/server_main.c:163-172 | reusing a number disturbs no target |
| TalkServer.RemoveOk | minitalk/server_main.c:92-104 | after a removal descriptors are distinct, free slots blank, and each target is a named user's descriptor |
| TalkServer.RemoveView | minitalk/server_main.c:92-104 | and in terms of connections exactly the leaving one is gone |
| TalkServer.SelectOk | minitalk/server_main.c:241-250 | a target is stored as the descriptor of a named user |
| Talk.RunGood | minitalk/server_main.c:146-298 | in every run each target is a named connection, the one last selected, and neither side has left since |
| Talk.RoundGood | minitalk/server_main.c:214-269 | a whole round keeps this |
| Talk.SentToSelected | minitalk/server_main.c:254-265 | every message goes to the connection its sender selected last |
| TalkLines.ChoosesByNumber | minitalk/server_main.c:232-251 | an awaiting user who types the numeral n selects the named user of the slot in the low 32 bits of n, or is thrown out |
| TalkLines.ChoosesByNegative | minitalk/server_main.c:232-251 | the same for negative numbers; those below the smallest long select slot 0 |
| TalkLines.ChoosesSlot | minitalk/server_main.c:232-251 | so a numeral below 16 selects that slot, and one of 16 or more, or of a slot without a named user, throws the user out |
| TalkLines.ChoosesByText | minitalk/server_main.c:233-238 | a text that is no number throws the user out, but an empty line selects slot 0 |
| TalkLines.TakesName | minitalk/server_main.c:221-226 | the first line of a connection becomes its name |
| TalkLines.Forwards | minitalk/server_main.c:254-265 | a line of a user with a target is forwarded whole iff the target is ready |
| TalkLines.Closes | minitalk/server_main.c:92-104 | a user whose closed connection is read leaves |
| TalkLines.LeavingFrees | minitalk/server_main.c:92-104 | leaving frees the slot and makes those who talked to it choose again |
| TalkLines.Conversation | minitalk/server_main.c:161-268 | a newcomer gives a name, chooses slot n and sends a line: it reaches the connection in slot n |
| TalkLines.RoundWritesOnce | minitalk/server_main.c:256-264 | in a round each connection is written to at most once, and only if it was ready |
| TalkLines.RoundOfOne | minitalk/server_main.c:214-269 | a round in which one connection is readable is that user's turn |
| Fraction.Convert | f2b.c:7-31 | the program prints the bits of the 64-bit loop |
| Fraction.PrintBits | f2b.c:17-31 | the loop, with its early exit |
| Fraction.DecimalPlaces | f2b.c:10 | digits are read as a decimal number: those in front count a power of ten for each behind |
| Fraction.BitsPlaces | f2b.c:17-31 | printed bits are read as a binary number |
| Fraction.EmitExact | f2b.c:17-31 | without wrapping, number * 2^k is B * limit plus a rest below limit for the k bits of value B, and fewer bits are printed only when nothing is left |
| Fraction.ConvertExact | f2b.c:10-31 | this holds for all inputs of up to 18 digits |
| Fraction.LimitExact | f2b.c:12-14 | up to 18 digits the limit is the power of ten and a shift cannot wrap |
| Fraction.NothingLeftEarlier | f2b.c:19-21 | no bit is printed once nothing is left |
| Fraction.StopsEarlyIffFinite | f2b.c:17-31 | the loop stops early only if 5^len divides the number, and then within len bits; if it does divide it and more than len bits are asked for, the loop stops early |
| FractionWrap.RightIffNoWrap | f2b.c:17-31 | for any number below any limit of one word, the printed bits are right if and only if no true remainder reaches 2^63 before a shift |
| FractionWrap.RightOrShort | f2b.c:17-31 | after a wrap they are too small by a whole unit, or end early |
| FractionWrap.NineteenDigitsRight | f2b.c:10-31 | the exact condition for 19 digits, also where atoll saturates |
| FractionWrap.NineteenDigitsWrap | f2b.c:19 | a 19-digit number whose second bit is wrong |
| FractionWrap.LimitIsModulo | f2b.c:12-14 | the limit is the power of ten modulo 2^64 |
| FractionWrap.TwentyDigitsLimit | f2b.c:12-14 | from 20 digits on it is less than the power of ten |
| FractionWrap.LargerLimitRight | f2b.c:17-31 | for a number below the wrapped limit and no shift wrapping, the bits are right iff the fraction over that limit does not end within them and has the same bits as the one over the power of ten |
| FractionWrap.NotBelowLimitWrong | f2b.c:19-25 | a number that is not below it, and that atoll represents, starts with a wrong bit |
| FractionWrap.RightIffTurnsTell | f2b.c:17-31 | for any starting word, limit and wraps: the bits are right iff in each turn the wrapped words compare with the limit and with zero as the true remainder does |
| FractionWrap.PrintedRight | f2b.c:7-31 | the same for the program: the exact condition for digits and precision of any size |
| FractionWrap.TwentyDigitsWrong | f2b.c:12-31 | a 20-digit number whose third bit is wrong |
| FractionWrap.SixtyFourDigitsOnes | f2b.c:12-31 | from 64 digits on the limit is zero and every printed bit is a one |

## Left out

- Launch.ParentMove: the parent's loop is written as program points rather than as a `while` loop, because its statements interleave with the children's; the assignments to its variables are the source's.
- Launch.ChildNext: what `do_redirects` does to descriptors is not claimed, as it closes the right-hand descriptor in every case (lsh/execute.c:81-83); it succeeds with some files or fails.
- LaunchCleanup.FailedLaunchCloses: which of the two pipes it names stays open is given for the first error pipe only.
- CStrings.WholeNumber: strtol is given only as far as its callers look, that is whether the whole string is a number and which int it becomes.
- TokenRoundTrip.PipelineRoundTrip: `interpret_line` around the two levels (trimming, '&', the 512-byte line buffer, builtins) is not modelled.
- Sweet16Programs.PushThenPop: stated for pointers above the register file, as a store into a register is not undone; StoreThenPopDouble likewise, and not across the end of memory.
- Sweet16Programs.CallsReturn: a BS whose return address would lie in the register file, across the end of memory or on another return address is not followed.
- JobShell.Shell.GetJobHandle: index 0 with an empty list dereferences a null handle; the model reports this as an outcome.
- JobShell.Shell.PrintPending: the text of the announcements and the memory of destroyed jobs are not modelled; a reported job is in no list any more.
- JobShell.Shell.DoFg: signals sent to the group, terminal ownership and termios are not modelled; whether the terminal is obtained is a parameter.
- Fraction.Convert: arguments with other characters than digits behind the point are not modelled.
- Cleanup at the shell's exit, `cd`, prompt text, real signal delivery inside a builtin, and launches that fail half way in the job lists.
- Dispatch by pushing routine addresses (the OPTBL and BRTBL tables, the single-page rule, `LDA >SET`): the routine is called directly.
- SAVE, RESTORE, RTNZ and the entry code of Sweet16.
- The minitalk menu text, sockets, timers, client, and the width passed to select.
- fuse, the x87 programs, mandelbrot, gcd, primes, and the other conversions.
