# DPSCalc in Dafny

DPSCalc simulates a fight: spells and auras are events on a queue, and Lua scripts decide what to cast and how
procs work. It brings its own Lua 5.1. This project models the parts of both whose correctness is not to be seen
from any one function, and proves it.

The code generator. `Views` says what code in the making means for an expression: a run of the virtual machine
(`Bytecode`) that ends with the value at hand or leaves by a jump of one of two lists, each of which may carry a value.
`JumpLists` follows runs through emitting and patching. `Delivering`, `Testing`, `Negating` and `Comparing` show what
each of the generator's operations does to that meaning, `CodeGen` contains the operations themselves, as a class over
the growing code, and `Parsing` the parser's recursion. The generator is wrong for some expressions: when a literal
decides a test while jumps are on hold, `luaK_jump` takes those jumps along, and they deliver the value that they
tested in place of the literal. `Expressions` defines the course that evaluation takes for every expression, so that
`CompileAndRun` can say exactly what comes out, and when that is the value denoted. `Straying` decides it from the
text.

Names. `Scoping` models the parser's functions, blocks and upvalues, `Closures` what becomes of them: the finished
functions, the closures made when the code runs, and the variables that they reach.

The collector. `ObjectGraph` holds the heap and the invariant, `Painting` the mark phase, `Sweeping` the sweep,
`Mutating` what the program does meanwhile, with barriers, open upvalues and strings, and `Collector` the collector
itself as a class over the global state.

Tables. `HashPart` models the nodes with their chains, `ArraySize` the choice of the size of the array part, `Tables`
whole tables, `References` the free list of `luaL_ref` in such a table.

`Patterns` defines the order in which a pattern's choices are tried; `Matcher` is the matcher with `find` and `gsub`.
`find` takes a pattern without special characters for a plain text, which differs from matching it exactly if it
contains a zero or a closing parenthesis (`PlainExactly`).
`Sorting` is `table.sort` in place. `Chunks` specifies the format of precompiled chunks, `ChunkIO` the dumper and the
loader.

Events. `Queues` is the queue and its order, `Auras` what auras wait for, `EventSystem` the simulator of aura events,
`Casting` casts and channels. Scripts are arbitrary functions of the time and of how often they have been called; for
the loop over the present to end they must stop adding to the present at some point, and nothing else is asked of
them. `EffectWorld` says what each aura event does to the world as a whole, which is what the simulator's handlers are
proved to do; `Effects` and `Stacking` are the procs with a cooldown, and those that stack, in that world. One thing
there is not as might be expected: an aura subject to haste that is applied for less than its period gets the length 0
and is never removed (`Auras.ShortStays`).

## Model

| member | source | states |
|---|---|---|
| `Parsing.CompileAndRun` | DPSCalc/lua/lparser.c:828-850 | an expression, compiled and run, evaluates exactly along `Course`, with the locals untouched; where no comparison is handed a wrong operand the result is the value denoted if and only if evaluation is not `Misled`; clean and literal-free expressions always are right, errors included |
| `Parsing.RunLost` | DPSCalc/lua/lcode.c:539-562 | a failing input: `((l0 or l1) and false) and l2` with `l0` equal to 1 gives 1 and denotes false |
| `Expressions.CourseMeans` | DPSCalc/lua/lcode.c:539-591 | where no comparison is handed a wrong operand, evaluation takes the right branch always, and comes to the value denoted unless a literal decided a test and took a jump on hold along |
| `Expressions.RightExactly` | DPSCalc/lua/lcode.c:539-591 | under the same condition, for every expression, environment and registers: the value come to is the one denoted if and only if evaluation is not `Misled` |
| `Straying.CleanRight` | DPSCalc/lua/lcode.c:539-591 | a condition on the text alone under which no input is misled |
| `Straying.CleanExactly` | DPSCalc/lua/lcode.c:539-591 | for expressions whose operands share no variables, with comparisons between variables or a variable and a literal, it is the exact condition: clean if and only if right on every input |
| `Straying.UncleanWrong` | DPSCalc/lua/lcode.c:539-591 | an expression of that kind that is not clean has variables for which the code gives a wrong value |
| `Straying.LiteralFreeClean` | DPSCalc/lua/lcode.c:539-591 | expressions without literals, but as operands of comparisons, are clean |
| `Straying.CleanThough` | DPSCalc/lua/lcode.c:594-626 | comparisons and `not` leave no values in jumps, so that literals behind them do no harm |
| `Parsing.Expression` | DPSCalc/lua/lparser.c:828-850 | the code added for any expression evaluates along its course, whatever jumps are on hold before it, and leaves everything pending as it was |
| `Denoting.LogicDenotes` | DPSCalc/lua/lcode.c:718-759 | from what the two operands mean to what `and` and `or` mean, once the jumps of the first have joined the list of the second |
| `Denoting.DenotesCompare` | DPSCalc/lua/lcode.c:681-694 | from what the two operands come to, in place, to what the comparison means |
| `Expressions.RelateNumbers` | DPSCalc/lua/lcode.c:681-694 | with numbers compared as numbers, the six operators tell the arithmetic truth |
| `CodeGen.FuncState.GoIfTrue` | DPSCalc/lua/lcode.c:539-564 | control goes on exactly for true values; all else leaves by one list, each jump carrying what it should; true jumps land here |
| `CodeGen.FuncState.GoIfFalse` | DPSCalc/lua/lcode.c:567-591 | the same for false values |
| `CodeGen.FuncState.JumpOnCond` | DPSCalc/lua/lcode.c:524-536 | the test and its jump; a `not` that was just emitted is undone and the test turned round |
| `CodeGen.FuncState.CodeNot` | DPSCalc/lua/lcode.c:594-626 | negates the value, however it is come by; the lists change places and give up their values |
| `CodeGen.FuncState.Exp2Reg` | DPSCalc/lua/lcode.c:390-411 | every way of coming by the value ends with it in the register |
| `CodeGen.FuncState.Exp2RK` | DPSCalc/lua/lcode.c:444-469 | the value as an operand, with code only where it is not in reach, and which constants there are then |
| `CodeGen.FuncState.CodeComp` | DPSCalc/lua/lcode.c:681-694 | one comparison over two operands in place, exchanged for `>` and `>=` |
| `CodeGen.FuncState.PosfixLogic` | DPSCalc/lua/lcode.c:745-759 | the list of the first operand joins that of the second |
| `CodeGen.FuncState.PatchListAux` | DPSCalc/lua/lcode.c:150-160 | exactly the jumps of the list are redirected, value producers one way and the rest another, at targets anywhere |
| `CodeGen.FuncState.Concat` | DPSCalc/lua/lcode.c:185-196 | the two lists in one, an empty list leaving the code alone; nothing but the last offset of the first changes |
| `CodeGen.FuncState.Jump` | DPSCalc/lua/lcode.c:59-66 | a new jump, at the head of those that were on hold |
| `CodeGen.FuncState.Code` | DPSCalc/lua/lcode.c:797-809 | an instruction at the end, where all jumps on hold land |
| `CodeGen.FuncState.NeedValue` | DPSCalc/lua/lcode.c:122-128 | true exactly when some jump of the list delivers no value |
| `CodeGen.FuncState.RemoveValues` | DPSCalc/lua/lcode.c:144-148 | exactly the tests of the list stop delivering values |
| `CodeGen.FuncState.AddK` | DPSCalc/lua/lcode.c:229-247 | a constant is there once, and this is its place |
| `JumpLists.RunEmit` | DPSCalc/lua/lcode.c:163-166 | what running means after code is added: what left at the end, or by a jump on hold, runs the new code; all else is as before |
| `JumpLists.RunPatch` | DPSCalc/lua/lcode.c:150-160 | patching a list of open jumps to targets ahead of them changes where exactly those exits go on, and which register they set |
| `Delivering.FinishYields` | DPSCalc/lua/lcode.c:390-411 | completed and patched code delivers the value in the register from every exit |
| `Testing.AlongTests` | DPSCalc/lua/lcode.c:539-551 | a literal decides the test: what leaves carries what the jumps on hold carried |
| `Negating.StripNegates` | DPSCalc/lua/lcode.c:615-626 | swapping the lists and removing their values completes the negation |
| `Bytecode.Execute` | DPSCalc/lua/lvm.c:403-581 | the interpreter loop computes the run that the proofs speak of |
| `Closures.ReachesDeclaration` | DPSCalc/lua/lparser.c:224-253 | over every run of the parser: what a name was resolved to is, when the finished code runs, the register of its innermost declaration in the activation of the function that declares it |
| `Closures.ParsedSound` | DPSCalc/lua/lparser.c:310-325 | whatever has been parsed, every OP_CLOSURE is followed by the instructions for exactly the upvalues of its function |
| `Closures.PathThere` | DPSCalc/lua/lparser.c:310-325 | every function that the parser was in ends up inside the main one, with all its upvalues |
| `Closures.Follows` | DPSCalc/lua/lvm.c:719-738 | following descriptors through closures leads to a register of the right activation |
| `Scoping.LexState.SingleVar` | DPSCalc/lua/lparser.c:224-253 | a name means its innermost active declaration, or is global; the variables captured on the way are exactly the one found; refused if and only if some function on the way has no upvalue for it and no room for one |
| `Scoping.LexState.NewLocalVar` | DPSCalc/lua/lparser.c:160-164 | a name is declared, with no effect on what any name means yet; refused if and only if there are as many variables as there may be |
| `Scoping.LexState.IndexUpvalue` | DPSCalc/lua/lparser.c:183-204 | the upvalue with that descriptor, found or added, and all upvalues still lead to their declarations; refused if and only if it is not there and there is no room |
| `Scoping.OnceOnly` | DPSCalc/lua/lparser.c:183-204 | two descriptors that lead to the same declaration are the same |
| `Scoping.LexState.LeaveBlock` | DPSCalc/lua/lparser.c:296-307 | OP_CLOSE is emitted exactly when a variable of the block has been captured |
| `Scoping.LexState.BreakStat` | DPSCalc/lua/lparser.c:975-988 | a break closes upvalues exactly when something inside the innermost loop has been captured, and then from a level at or below every such variable and above none from outside |
| `Scoping.LexState.CloseFunc` | DPSCalc/lua/lparser.c:310-325 | the finished function goes into the enclosing one, with its closure instruction |
| `Collector.GlobalState.FullGC` | DPSCalc/lua/lgc.c:636-659 | what is left is exactly what can be reached, and the fixed objects; everything that is left, and every root, finds all that it names |
| `Collector.GlobalState.SingleStep` | DPSCalc/lua/lgc.c:556-607 | from any state: the invariant holds, everything reachable survives with its contents and all that it names, and the cycle gets closer to its end |
| `Collector.GlobalState.Step` | DPSCalc/lua/lgc.c:610-633 | any number of steps: the same |
| `Collector.GlobalState.Atomic` | DPSCalc/lua/lgc.c:525-553 | after the flip, nothing is alive but the reachable and the fixed |
| `Collector.GlobalState.PropagateMark` | DPSCalc/lua/lgc.c:277-320 | one gray object less, all that it names marked, the tri-colour invariant kept |
| `Collector.GlobalState.ReallyMark` | DPSCalc/lua/lgc.c:69-112 | marks the object and all it must, and whitens nothing |
| `Collector.GlobalState.Barrier` | DPSCalc/lua/lgc.c:662-672 | after a store into a black object the invariant holds again, in every phase |
| `Collector.GlobalState.BarrierBack` | DPSCalc/lua/lgc.c:675-683 | a black table goes back to be traversed again |
| `Collector.GlobalState.SweepChain` | DPSCalc/lua/lgc.c:407-428 | exactly the dead strings of a chain go; the rest are of the current white |
| `Collector.GlobalState.FreeObject` | DPSCalc/lua/lgc.c:378-400 | a dead thread closes its upvalues first; nothing that is alive changes |
| `Collector.GlobalState.FindUpvalue` | DPSCalc/lua/lfunc.c:53-79 | one open upvalue for a slot, found, saved if dead, or made in its place |
| `Collector.GlobalState.CloseUpvals` | DPSCalc/lua/lfunc.c:96-112 | exactly the upvalues at or above the level are closed, with the values they had |
| `Collector.GlobalState.NewString` | DPSCalc/lua/lstring.c:50-93 | one string for a text, found even if dead, or made |
| `Collector.GlobalState.Resize` | DPSCalc/lua/lstring.c:22-47 | every string is in its chain of the new table; refused while strings are being swept |
| `Collector.GlobalState.SetUpvalue` | DPSCalc/lua/lvm.c:447-452 | all closures that share the variable see the new value, and nothing else does |
| `Collector.GlobalState.StoreTable` | DPSCalc/lua/lvm.c:134-158 | a write into a table with its barrier keeps the invariant |
| `Collector.OneUpvalue` | DPSCalc/lua/lfunc.c:53-79 | never two open upvalues for one slot |
| `Collector.Exactly` | DPSCalc/lua/lgc.c:636-659 | what survives a full cycle is the reachable, both ways |
| `Mutating.BarrierSettles` | DPSCalc/lua/lgc.c:662-672 | why the forward barrier restores the tri-colour invariant |
| `Mutating.ClosingKeeps` | DPSCalc/lua/lgc.c:695-710 | closing an upvalue keeps the invariant in each phase |
| `Painting.FlipKeeps` | DPSCalc/lua/lgc.c:525-553 | the flip of the white turns marked into alive |
| `Sweeping.SparesSound` | DPSCalc/lua/lgc.c:407-428 | sweeping keeps everything alive closed under references |
| `ObjectGraph.ReachableAlive` | DPSCalc/lua/lgc.c:407-428 | what the program can reach is there and not dead |
| `ObjectGraph.PointsExactly` | DPSCalc/lua/lgc.c:69-320 | what an object keeps alive is what it names, kind by kind: metatables, environments, prototypes, upvalues, constants, stacks, and the keys and values of entries that are not nil |
| `ObjectGraph.InvWhole` | DPSCalc/lua/lgc.c:407-428 | in every state that keeps the invariant, whatever a surviving object or a root names is there and not dead |
| `ObjectGraph.NoBlackToWhite` | DPSCalc/lua/lgc.c:277-320 | in every state that keeps the invariant, while marking, a black object refers to nothing white |
| `ObjectGraph.WhiteBehindGray` | DPSCalc/lua/lgc.c:277-320 | so that every path from a black object to a white one leads over a gray one |
| `Tables.Table.Put` | DPSCalc/lua/ltable.c:494-505 | an assignment changes the value of that key and of no other; nil and NaN are refused |
| `Tables.Table.Get` | DPSCalc/lua/ltable.c:469-491 | the value of any key, in the array part or along its chain |
| `Tables.Table.NewKey` | DPSCalc/lua/ltable.c:399-432 | the key gets a place, by way of a collision, a move or a rehash, and every value stays |
| `Tables.Table.Rehash` | DPSCalc/lua/ltable.c:333-349 | the array part gets the best size, every value stays, and there is room for the key |
| `Tables.Table.Traverse` | DPSCalc/lua/ltable.c:162-179 | `next` visits every key with a value exactly once |
| `Tables.Table.Next` | DPSCalc/lua/ltable.c:162-179 | the entry after that of a key, also of one collected during the traversal |
| `Tables.Table.GetN` | DPSCalc/lua/ltable.c:560-576 | a border, for a table of any shape |
| `Tables.Table.RemoveEntry` | DPSCalc/lua/lgc.c:62-66 | a collected key changes no value and breaks no chain |
| `ArraySize.ComputeSizes` | DPSCalc/lua/ltable.c:189-208 | the largest power of two more than half of whose slots are in use |
| `ArraySize.CountBound` | DPSCalc/lua/ltable.c:333-349 | no more integer keys are counted below a power of two than there are integers |
| `Tables.Table.FindNode` | DPSCalc/lua/ltable.c:469-491 | the walk along the links from the main position of a key ends at its node, and without one if and only if no node holds it |
| `HashPart.Squatter` | DPSCalc/lua/ltable.c:409-417 | a node that holds a key out of its main position is the main position of no key, so that a new key that hashes there may have it |
| `HashPart.MovedGood` | DPSCalc/lua/ltable.c:411-417 | moving the key that is out of place keeps all chains |
| `HashPart.AppendedGood` | DPSCalc/lua/ltable.c:418-423 | so does linking the new key behind its main position |
| `References.RefTable.Ref` | DPSCalc/lua/lauxlib.c:481-501 | a reference that is not in use, and under which nothing else is kept, in a table with any other keys; nothing changes but that slot and the head of the free list |
| `References.RefTable.Unref` | DPSCalc/lua/lauxlib.c:504-512 | gives back that reference alone; it will be the next to be handed out, and all other keys hold what they held |
| `Matcher.MatchState.Match` | DPSCalc/lua/lstrlib.c:365-440 | the first success in the order of choices, with its captures, or an error first, or none |
| `Matcher.Find` | DPSCalc/lua/lstrlib.c:513-531 | the leftmost start at which the pattern matches, an error if one comes before it, or none |
| `Matcher.StrFind` | DPSCalc/lua/lstrlib.c:495-535 | the plain search, if asked for or if the pattern has no special characters, gives the first occurrence; unless plain search was asked for, and for patterns without zeros and closing parentheses at all events, the outcome is that of the search for the pattern |
| `Matcher.PlainExactly` | DPSCalc/lua/lstrlib.c:502-511 | for patterns without special characters, taking them as they are agrees with matching them on every subject if and only if they contain neither a zero nor a closing parenthesis |
| `Matcher.Gsub` | DPSCalc/lua/lstrlib.c:644-680 | the subject is cut into first matches, replaced, and single characters, copied where nothing matches or only the empty string did; it stops only at the number of matches wanted, after the one try of an anchor, at the end once that has been tried, or with an error where the next match would be tried |
| `Matcher.OneResult` | DPSCalc/lua/lstrlib.c:644-680 | that leaves one way to cut the subject, one way to end, and one result |
| `Matcher.GsubSame` | DPSCalc/lua/lstrlib.c:644-680 | substituting each match for itself gives the subject back, for every pattern and every number of matches |
| `Matcher.MemFind` | DPSCalc/lua/lstrlib.c:444-463 | the first occurrence of the text |
| `Patterns.OneAnswer` | DPSCalc/lua/lstrlib.c:365-440 | there is one answer: a first success, an error, or none |
| `Patterns.Total` | DPSCalc/lua/lstrlib.c:365-440 | of two different ways to match, one is preferred, unless both are errors |
| `Patterns.OperatorDecides` | DPSCalc/lua/lstrlib.c:300-326 | a repeated item takes the largest number of repetitions from which the rest matches, for a minus the smallest; at least one for a plus, at most one for a question mark |
| `Patterns.OperatorFails` | DPSCalc/lua/lstrlib.c:300-326 | and fails if and only if the rest matches after no number of repetitions |
| `Patterns.OperatorAlone` | DPSCalc/lua/lstrlib.c:411-436 | with nothing behind it, it ends at the first character that does not match, or, for a minus, where it starts |
| `Patterns.CaptureAlone` | DPSCalc/lua/lstrlib.c:329-351 | in parentheses, what it goes over is captured |
| `Patterns.BalancedIs` | DPSCalc/lua/lstrlib.c:281-297 | from an opening character to the first place where as many have been closed as opened, or nowhere |
| `Patterns.ReferenceIs` | DPSCalc/lua/lstrlib.c:354-362 | a back reference goes over the captured text again, or is an error |
| `Patterns.ClassesAre` | DPSCalc/lua/lstrlib.c:226-242 | the character classes, and that capitals are their complements |
| `Sorting.Sort` | DPSCalc/lua/ltablib.c:256-264 | a sorted permutation, in place, for any strict weak order, with stack depth at most logarithmic |
| `Sorting.AuxSort` | DPSCalc/lua/ltablib.c:193-253 | the same for a stretch, leaving the rest alone |
| `Sorting.Partition` | DPSCalc/lua/ltablib.c:211-240 | a permutation split at the place returned |
| `Chunks.RoundTripExactly` | DPSCalc/lua/ldump.c:129-164 | loading what was dumped gives the function back if and only if every source name is there to be told |
| `Chunks.StrippedTrip` | DPSCalc/lua/ldump.c:111-141 | stripping loses debug information and nothing else |
| `Chunks.OnlyDebugLost` | DPSCalc/lua/ldump.c:111-141 | what loading a stripped function changes |
| `Chunks.LoadsSound` | DPSCalc/lua/lundump.c:161-181 | whatever bytes are accepted, the function is within the limits and has been verified |
| `Chunks.Reload` | DPSCalc/lua/lundump.c:195-209 | what has been loaded can be dumped and loaded again unchanged |
| `Chunks.SmallFunction` | DPSCalc/lua/ldump.c:129-141 | a small function, byte by byte |
| `ChunkIO.DumpThenLoad` | DPSCalc/lua/ldump.c:153-164 | the dumper and the loader themselves: what was written to a writer that took it all, handed back in pieces of any sizes, loads as the function dumped; the dumper stops only if the writer refuses |
| `ChunkIO.DumpState.Dump` | DPSCalc/lua/ldump.c:153-164 | writes exactly the encoding, or, if the writer refuses a block, a part from its front; the status is the first answer that is not 0 |
| `ChunkIO.LoadState.Undump` | DPSCalc/lua/lundump.c:195-209 | parses exactly as specified, errors included |
| `ChunkIO.Zio.Read` | DPSCalc/lua/lzio.c:58-71 | the next bytes across any pieces, and how many are missing |
| `Auras.HasteInvariantTicks` | DPSCalc/EventSystem.cpp:298-458 | whatever the haste, an aura never refreshed ticks `duration / period` times, at equal intervals, and ends one past its length |
| `Auras.RemovedOnTime` | DPSCalc/EventSystem.cpp:386-412 | an aura is removed when it fades, and never before unless its fade time was shortened |
| `Auras.OneRemoval` | DPSCalc/EventSystem.cpp:298-412 | a live aura that was applied for a time, and, if haste shortens it, for a period at least, has exactly one removal waiting |
| `Auras.NoRemoval` | DPSCalc/EventSystem.cpp:298-412 | any other aura has none, ever |
| `Auras.ShortStays` | DPSCalc/EventSystem.cpp:337-356 | a failing input: an aura subject to haste applied for 1 with a period of 2 stays for ever |
| `EventSystem.HastedIs` | DPSCalc/EventSystem.cpp:158-166 | a time shortened by haste is the largest number that, slowed down again, stays within the time |
| `EventSystem.MoreHaste` | DPSCalc/EventSystem.cpp:158-166 | more haste never makes it longer |
| `EventSystem.Simulator.AuraApplication` | DPSCalc/EventSystem.cpp:298-383 | after its script: a new aura, which lasts and ticks by its period shortened by the haste of the moment, with its removal and first tick waiting; or a refreshed one, with more stacks and the fade time that its shortened duration gives |
| `EventSystem.Simulator.AuraRemoval` | DPSCalc/EventSystem.cpp:386-412 | removes the aura after its script, waits until it fades, or finds itself stale, exactly |
| `EventSystem.Simulator.AuraPeriodic` | DPSCalc/EventSystem.cpp:414-458 | a tick between its two scripts, and the next one if there is time, exactly |
| `EventSystem.Simulator.RunFront` | DPSCalc/EventSystem.cpp:58-76 | the front event does to the world what `Turned` says, which is what the effects are proved about, and, in plain terms, what `Handled` says |
| `EventSystem.Simulator.ProcessEvent` | DPSCalc/EventSystem.cpp:50-92 | runs all that is due, one event after the other, whatever scripts do, as long as they stop adding to the present; or moves the clock to the next event, or as far as the player is busy if that is less |
| `EventSystem.Simulator.Run` | DPSCalc/EventSystem.cpp:50-92 | as many rounds, each of them one `ProcessEvent` and what the idle player asks for; and after every history each aura that has gone and was never refreshed ticked as often as the period in the database fits into its duration |
| `Queues.OrderedRun` | DPSCalc/EventSystem.cpp:26-92 | events run in order of time and, at one time, in order of posting |
| `Queues.RunsOnce` | DPSCalc/EventSystem.cpp:26-92 | no event runs twice, none that has run is still waiting |
| `Queues.OrderedAppend` | DPSCalc/EventSystem.cpp:26-43 | adding an event keeps the order |
| `Casting.CompletedOnce` | DPSCalc/EventSystem.cpp:533-690 | a cast is completed once, by a count of its completions, or not at all if it was stopped |
| `Casting.AllTicksFirst` | DPSCalc/EventSystem.cpp:576-690 | a channel that is not interrupted has run all its ticks, evenly, the last one instant before the end, and in order, before it is completed |
| `Casting.OffsetIs` | DPSCalc/EventSystem.cpp:601-608 | each tick is one instant before its share of the time is over, to the whole instant |
| `Casting.OneAtATime` | DPSCalc/Player.cpp:102-105 | one cast at most is under way |
| `Casting.NoOrphans` | DPSCalc/EventSystem.cpp:576-623 | a channel tick belongs to a cast that is under way and is completed later |
| `Casting.Caster.Act` | DPSCalc/LuaIntergration.cpp:864-946 | what each act of a script does: a cast asked for by an idle player joins the queue and the casts, stopping clears the current cast, sleeping delays an idle player, and other events join the queue |
| `Casting.Caster.Call` | DPSCalc/EventSystem.cpp:576-690 | a call into a script does its acts, one after the other |
| `Casting.ActsAsk` | DPSCalc/LuaIntergration.cpp:864-880 | a cast that a script asks for while the player is idle is among the casts after the call |
| `Casting.FirstCast` | DPSCalc/EventSystem.cpp:50-92 | the idle player asks for a cast in the first round, and it waits for its turn |
| `Casting.Caster.CastBegins` | DPSCalc/EventSystem.cpp:576-623 | refused unless the player is idle; otherwise, after the acts of its script, it is the current cast, underway for the time that haste gives, with its events posted; or a channel that missed |
| `Casting.Caster.CastEnds` | DPSCalc/EventSystem.cpp:625-690 | one more completion, with the acts of its script if it hits, the cooldowns set and the player free; or, for a cast that was stopped, nothing |
| `Casting.Caster.RunFront` | DPSCalc/EventSystem.cpp:58-76 | what becomes of a cast or a tick whose turn it is, exactly, the acts of its script included |
| `Casting.Caster.ProcessEvent` | DPSCalc/EventSystem.cpp:50-92 | the loop ends for every script that adds to the present only finitely often: the work due falls with every other event; or the clock moves, exactly as far as it should |
| `Casting.Caster.RunAll` | DPSCalc/EventSystem.cpp:50-92 | as many rounds, each of them one `ProcessEvent` and the acts of the script that an idle player calls; and after every history each cast over was completed once or stopped, and each channel completed has had all its ticks |
| `Effects.CooldownEffect.Run` | lua/Common/EffectPrototype.lua:46-119 | over every history, with cooldown at least fade time at least 1, choice by choice: applications and fades alternate, the statistic is raised by the boost, once, in between, and is what it would have been after a fade |
| `Effects.CooldownEffect.Rise` | lua/Common/EffectPrototype.lua:104-110 | the statistic is greater by exactly the boost, or one plus haste by exactly the factor |
| `Effects.CooldownEffect.Proc` | lua/Common/EffectPrototype.lua:63-71 | asks for the aura, at once, if and only if the condition and luck hold off cooldown |
| `Effects.CooldownEffect.Use` | lua/Common/EffectPrototype.lua:56-62 | and, when used, if and only if it is ready |
| `Effects.UpLifts` | DPSCalc/Player.h:29-34 | what a boost does to a statistic, as an equation |
| `Effects.DownUp` | DPSCalc/Player.h:29-34 | a change of haste is undone exactly by its opposite |
| `Effects.Commute` | DPSCalc/Player.h:29-34 | changes of haste may be undone in any order |
| `Stacking.StackableEffect.Run` | lua/Common/EffectPrototype.lua:140-216 | over every history, choice by choice, the statistic is the base with the boost given once for every stack, added or multiplied, with stacks bounded, and just the base without the aura |
| `Effects.RaisedLifts` | lua/Common/EffectPrototype.lua:196-206 | so many stacks are so many times the boost added, or that power of the factor |
| `EffectWorld.RemovalWaits` | DPSCalc/EventSystem.cpp:298-412 | the removal of an aura not refreshed waits for the time it fades |

## Left out

- JumpLists.RunPatch: targets behind a jump, as in loops, are not covered, because a run is defined by going forward; the code that `patchlistaux` produces for any target is stated by `CodeGen.FuncState.PatchListAux`.
- Parsing.CompileAndRun: where a comparison is handed a wrong operand only the course is stated, since the outcome then hangs on what the comparison answers for the wrong value.
- Straying.CleanExactly: the condition on the text is exact where the operands of `and` and `or` share no variables and comparisons are between variables or a variable and a literal; for other expressions it is sufficient, and `Misled` tells every input.
- Straying.UncleanWrong: as for `CleanExactly`.
- Bytecode.Execute: code that jumps back, as loops do, is not executed; the code of expressions only jumps ahead.
- The literal nil, arithmetic, concatenation, calls, indexing and assignment are not among the expressions; neither are the limits of the instruction format, the number of registers and the number of constants.
- Metamethods of comparisons are covered by leaving the comparison arbitrary, as long as it leaves registers alone.
- Line and range information for debugging is not kept by the parser's model, nor the limit on all variables of a function.
- Weak tables, finalizers, the marking of dead keys, byte accounting, the pacing of steps, and `checkSizes` are not part of the collector's model; a stack is the part of it in use, addresses of new objects are parameters, and the fixed bit is a set.
- A dead thread is closed and freed in one operation, in the order of the original but for the moment at which it is unlinked.
- Tables.Table.Put: the error for a table with more values than nodes can be counted is left out; there must be room, or a place for the key.
- Tables.Table.NewKey: likewise.
- Tables.Table.Rehash: likewise.
- References.RefTable.Ref: the table has not as many values as a table can have nodes, and whatever else is kept in it is kept under keys that no reference takes up.
- References.RefTable.Unref: a reference given back twice, which spoils the free list, is left out.
- The hash of a number is an arbitrary function; hashes of strings and addresses are given with the keys.
- The depth of recursion of the matcher, character classes of other locales than C, and captures as separate results are left out; a replacement is a function of the match and its captures.
- Sorting.Sort: comparison functions that are no strict weak order, with the error for them, are left out.
- Sorting.AuxSort: likewise.
- Chunks are those of a 32-bit little-endian machine; the header is a parameter, the bytecode verifier an arbitrary predicate, and memory errors are left out.
- The removal of an aura on demand, with its GUID, is left out, as are damage, critical hits, and the wrapping of times at 32 bits; reals stand for doubles.
- Casting.Caster.CastBegins: the cooldown that a spell adds to another, and what happens when the address of an event is used again, are left out; a channel takes at least as long as it has ticks.
- `EffectSimple`, the reporter, the settings and the user interface would add easy members only.
- EventSystem.Simulator.Run: spells are the events of `Casting`; the auras that they apply are applications made when the clock stops. Auras that are subject to haste are those that tick, and haste never makes a period vanish.
- Matcher.Gsub: errors raised by a replacement, for a capture that is not there or a value that is no text, are left out.
