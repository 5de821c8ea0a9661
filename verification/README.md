# Hammer in Dafny

Hammer is a library of parser combinators that runs one grammar language on several backends.  This project
models the backends and the data structures below them, and proves what they promise.  Each Dafny file holds one
module, `Basics` the tokens and results; `dafny verify dfyconfig.toml` checks all of them.

**Regular expressions** (`RegularLanguage`, `RvmCode`, `Svm`, `RvmPaths`, `RegexSoundness`, `RegexCompleteness`,
`RegexCompiler`, `SvmMachine`, `SparseArray`, `RvmThreads`, `RvmCoverage`, `RvmLabels`, `RvmDeterminism`, `RvmDriver`,
`RegexBackend`, `RvmMisses`, `RvmWords`).
The compiler inserts and patches instructions in a program; a thread simulation runs it and records a trace; a stack
machine replays the trace.  `RegularLanguage.Denotes` says independently what a combinator matches and with which token.
The main theorem is `RegexBackend.CompiledMeaning`: accepting runs of the compiled code, replayed, are exactly the
matches and their tokens.  The simulation is sound on every well-formed program and its thread loop terminates.  It does
not always find the longest match: the iteration macro of the sparse array (src/internal.h:144-147) hands out the first
entry twice and never the last, so of several waiting threads one is lost.  `RvmCoverage.VisitedExactly` says for every
program and input which instructions are visited, those a run gets to through waiting instructions that are the only ones or
not the last ones; `RvmCoverage.SimulatedExact` that the trace found is that of the last offset at which an ACCEPT is
visited, and `RegexBackend.LongestExactly` that the result is longest exactly when an ACCEPT is visited wherever a match
ends or later.  For deterministic combinators, where one byte tells how a match goes on (`RvmDeterminism.Deterministic`),
never more than one thread waits and the result is always longest.  For a choice of words the result is known on every
input (`RvmWords.ReturnsWord`).  It is longest on every input exactly when no two words begin with the same byte
(`RvmMisses.WordsFoundExactly`); of several that begin with the same byte and differ in their second, exactly one is lost,
the first of the choice (`RvmWords.FirstIsLost`, `RvmWords.OthersAreFound`).

**LR** (`Grammar`, `ByteStream`, `LrItems`, `LrAutomaton`, `LrPaths`, `LrTable`, `LrEngine`, `LrParse`, `LrCompile`, `Texts`,
`LrComplete`, `TokenPositions`).
The worklists build closed item sets and the LR(0) automaton; the table is filled from it and refined under lookahead.
The path lemma (`LrPaths.ReductionFits`) shows that a reduction finds its right-hand side on the stack and a goto below
it, for every lookahead.  An accepted prefix is derived by the grammar, and the token on top of the stack is the value
of its parse tree (`LrEngine.Engine.GetResult`, `LrParse.Parse`).  The other direction is `LrComplete.SentenceParsed`: with a
table that has been compiled without conflict, from lookahead sets that have every symbol that can come next, every sentence
is parsed to its end, with the value of its tree, or rejected by a validation.  So a sentence has only one value
(`LrComplete.OneValue`).  The byte tokens of a result, from left to right, are the bytes of the text (`TokenPositions`).

**LL(k)** (`StringMap`, `LlDriver`, `LlParse`, `LlHalting`, `StringSet`, `Languages`, `Nullable`, `FirstFollow`,
`GrammarAnalysis`, `LlRows`, `LlTable`, `LlSentences`, `LlComplete`, `FollowSets`, `LlFollow`, `LlOrder`).
The nullable analysis is exact.  FIRST, FOLLOW and predict sets are genuine for every k, every order of calls and every state
of the memo tables; without left recursion the FIRST sets miss no first symbol, for every k, so that FIRST_1 is exact.  Every
row of the table is described by the predict sets recorded in its rounds, for every kmax (`LlRows.RowResolves`): a lookup
returns the production that is alone in its round with the shortest beginning of the lookahead for which there is one.  The
table is filled without error exactly when no round leaves a conflict, which is an overlap of predict sets
(`LlRows.ContestedShares`), and always for productive grammars that are strong LL(k) (`LlTable.DisjointCloses`).  The
driver's stack with its MARK frames always stands for a leftmost derivation of what has been consumed, and without left
recursion its loop ends.

That every sentence of a strong LL(1) grammar without left recursion is parsed is not true of the code.  `h_follow`
(src/cfgrammar.c:555-617) enters a FOLLOW set in its memo table before it is complete, and what is computed meanwhile keeps
the part that was there.  For S -> A '!' | B '?', A -> 'x' B | "", B -> 'y' A | "" with the nonterminals walked in the order
A, B, S, the sentence "x!" is rejected (`LlOrder.LateRejects`); in the order S, A, B nothing is missing
(`LlOrder.EarlyCompletes`).  The order is that of a hash table.  `FollowSets.FollowRun` says what is computed in any order, and
`LlFollow.SentencesExactly` is the exact condition: all sentences are parsed if and only if the FOLLOW sets computed have
every symbol that can come next.  They have in every order when what the set of a nonterminal takes over from others is
well-founded (`LlFollow.RankedAccepts`); then every sentence is parsed with the value of its tree, or rejected by a validation.

**Chunks** (`Chunking`, `Suspended`).  Both engines are seen as machines that look one byte ahead; feeding an input in
any chunks ends where one run over the whole input ends.

**Packrat** (`Combinators`, `Matching`, `Packrat`, `DirectHalting`, `PermutationSearch`).  `Matching.Admits` says what the
combinators match, by one rule for each that speaks of places in the input and of what alternatives, elements and
separators do there.  The parser with its cache returns exactly what the rules admit, and it ends where there is no left
recursion and repetitions consume.  The permutation combinator finds the lexicographically least order of its parsers that
matches.

**Bits** (`Bits`, `BitReader`, `BitLaws`, `BitWriter`, `BitRoundTrip`).  Numbers are related to the bits of a stream in
all four combinations of byte and bit order; writing and reading undo each other.

**Containers** (`HashChain`, `HashTable`, `SparseArray`, `Arena`).  After any operations the hash table looks keys up like
a finite map.  That an empty bucket head has nothing behind it is not kept by a deletion (`HashChain.DelHeadOk`).  This
alone does no harm; but a put of a key that now lies behind a free head takes that head, and the key has two entries, the
older one behind (`HashTable.HashTable.Put`, the condition is exact).  Then the old value comes back with the next deletion
of the key (`HashChain.ExposedEntryReturns`, `HashTable.DeletionsDelete`) or the next rehash (`HashTable.PutThenRehash`).

Loops whose state the original updates in place are methods on classes or arrays, each proved against a function of the
old state; the theorems are lemmas about these functions.  Runs of the LR and LL engines and of the combinators may
diverge, so their methods take a ghost number of rounds that suffices; `LlHalting` and `DirectHalting` provide it where
there is no left recursion.

Where a comment and the code differ, the code is followed: the comment that calls the hash set comparison an equality
(src/datastructures.c:361-364) is the exception, see "Left out".

## Model

| member | source | states |
|---|---|---|
| RegexBackend.CompiledMeaning | src/backends/regex.c:198-352 | for programs emitted for a combinator, accepting runs whose replay returns token t at offset j exist exactly when the combinator matches the first j bytes with token t |
| RegexBackend.AcceptedMatch | src/backends/regex.c:198-259 | replaying any accepting run returns the token of the match it stands for, and eight times its length as bit length |
| RegexBackend.JumpsInside | src/backends/regex.c:284-308 | all jumps in the code of a combinator, patched ones included, stay inside that code; actions are in the table; no ACCEPT inside |
| RegexBackend.ProgramWellFormed | src/backends/regex.c:364-386 | a compiled program never leaves itself, and its only ACCEPT is its last instruction |
| RegexBackend.CompileRegex | src/backends/regex.c:364-386 | compiling yields the combinator's code followed by ACCEPT, for programs that fit 16-bit addresses |
| RegexBackend.Parse | src/backends/regex.c:388-390 | a result is a match from the start of the input with its token; it is what the simulated trace replays to; for deterministic combinators it is a longest match, or there is none |
| RegexBackend.ReturnsMatch | src/backends/regex.c:165-180 | whenever the simulation finds a trace its replay succeeds, and the result is a match with its token |
| RegexBackend.ReturnsLongest | src/backends/regex.c:76-180 | for deterministic combinators the result is a longest match, and None means no match |
| RegexBackend.LongestExactly | src/backends/regex.c:76-180 | for every combinator and input: the result is longest exactly when an ACCEPT is visited wherever a match ends, or later |
| RegexSoundness.Sound | src/backends/regex.c:350-352 | every run that enters the code of a combinator and leaves it passes its end, having matched the combinator and recorded events that push exactly its token |
| RegexSoundness.SoundCharset | src/parsers/charset.c:35-71 | the range tests of a charset let through exactly bytes of the set |
| RegexSoundness.SoundMany | src/parsers/many.c:141-194 | runs through a repetition match a separated list, with at least one element where that is demanded |
| RegexSoundness.SoundChoice | src/parsers/choice.c:54-70 | a run through a choice runs through one alternative, and the fall-through after the last one is dead |
| RegexSoundness.SoundWhitespace | src/parsers/whitespace.c:52-70 | a run through the whitespace loop skips white space and then matches the parser |
| RegexCompleteness.Complete | src/backends/regex.c:350-352 | every match of a combinator is traversed by some run of its code, which pushes its token |
| RegexCompiler.Program.InsertInsn | src/backends/regex.c:284-299 | an instruction is appended and its address, cut to 16 bits, returned |
| RegexCompiler.Program.PatchArg | src/backends/regex.c:305-308 | only the argument of one instruction changes |
| RegexCompiler.Program.CreateAction | src/backends/regex.c:261-282 | the number returned stands for the action, which is added only if it was not in the table |
| RegexCompiler.Program.Compile | src/backends/regex.c:350-352 | the code of the combinator is appended and nothing before it changes |
| RegexCompiler.Program.ChCtrvm | src/parsers/ch.c:33-42 | emits code that meets the specification of `h_ch` |
| RegexCompiler.Program.CharsetCtrvm | src/parsers/charset.c:35-71 | emits one range test for each maximal run of the set, all jumps patched |
| RegexCompiler.Program.CollectRanges | src/parsers/charset.c:41-60 | the loop over all byte values finds the maximal runs in order |
| RegexCompiler.Program.PatchGotos | src/parsers/charset.c:62-66 | every jump of the range tests and nothing else is patched |
| RegexCompiler.Program.LiteralCtrvm | src/parsers/token.c:59-68 | emits code that meets the specification of `h_token` |
| RegexCompiler.Program.SequenceCtrvm | src/parsers/sequence.c:79-88 | emits the parts between a mark and the sequence action |
| RegexCompiler.Program.ChoiceCtrvm | src/parsers/choice.c:54-70 | emits the alternatives with forks and jumps patched to the end |
| RegexCompiler.Program.ManyCtrvm | src/parsers/many.c:141-194 | emits the loop with its separator, the fork around it patched |
| RegexCompiler.Program.RepeatCtrvm | src/parsers/many.c:141-194 | emits the exact number of copies between a mark and the sequence action |
| RegexCompiler.Program.OptionalCtrvm | src/parsers/optional.c:70-79 | emits the fork around the parser, patched to the action |
| RegexCompiler.Program.WhitespaceCtrvm | src/parsers/whitespace.c:52-70 | emits the two range tests with jumps back, then the parser |
| RegexCompiler.Program.EpsilonCtrvm | src/parsers/epsilon.c:11-13 | emits nothing |
| RegexCompiler.Program.EndCtrvm | src/parsers/end.c:17-20 | emits the test for the end of the input |
| RegexCompiler.Program.NothingCtrvm | src/parsers/nothing.c:13-17 | emits two tests no byte passes |
| RvmCode.RunsCover | src/parsers/charset.c:41-60 | the runs collected for a charset cover every member |
| RvmCode.Runs | src/parsers/charset.c:41-60 | the runs collected hold members only |
| RvmCode.CodeForFrame | src/backends/regex.c:284-308 | emitting or patching outside a region keeps what the region means |
| RvmThreads.TurnKeeps | src/backends/regex.c:100-162 | a turn of the thread loop keeps the queue within the length of the program and lowers the termination measure |
| RvmThreads.ForkFits | src/backends/regex.c:124-133 | a successful fork uses up an unseen instruction, so the new thread fits in the queue |
| RvmThreads.ExecuteOnPath | src/backends/regex.c:105-158 | executing one instruction keeps every thread's trace the record of a run from the start |
| RvmThreads.SimulatedSound | src/backends/regex.c:53-180 | the trace found was recorded on a run from instruction 0 at offset 0 to an ACCEPT |
| RvmThreads.RunOfAccepted | src/backends/regex.c:108-112 | such a trace, inverted, is the action sequence of an accepting run that ends where it says |
| RvmCoverage.TurnTracks | src/backends/regex.c:100-162 | a turn loses nothing: what a processed instruction leads to is processed, queued, waiting, or has accepted |
| RvmCoverage.Spread | src/backends/regex.c:93-163 | when no thread is left, every instruction a run gets to at this offset from a processed one is processed |
| RvmCoverage.PassesHead | src/backends/regex.c:152-157 | a run to an offset passes an instruction that waits there |
| RvmCoverage.OffsetExact | src/backends/regex.c:78-164 | one offset, for every program: exactly the instructions behind a visited STEP wait next, and the trace changes exactly when an ACCEPT is visited |
| RvmCoverage.SimulatedExact | src/backends/regex.c:53-180 | for every program: the trace found accepts at the last offset at which an ACCEPT is visited, and there is none if none is visited |
| RvmCoverage.ThreadsConfined | src/backends/regex.c:94-162 | whatever is processed, waits or accepts stems from the instructions the threads began at |
| RvmCoverage.VisitedReachable | src/backends/regex.c:78-164 | what is visited lies on a run from the first instruction |
| RvmCoverage.SingleVisits | src/backends/regex.c:87-163 | while at most one instruction waits at every offset, everything a run reaches is visited |
| RvmCoverage.KeptVisited | src/internal.h:144-147 | of the waiting instructions exactly those are run that are alone or not the last |
| RvmCoverage.VisitedExactly | src/backends/regex.c:76-164 | for every program: an instruction is visited at an offset if and only if a run gets to it that enters every offset at a waiting instruction which is the only one or not the last |
| RvmLabels.ThenPiece | src/parsers/sequence.c:79-88 | two pieces of code in a row have one way on for every byte, if the first cannot go on with what the second begins with |
| RvmLabels.EitherPiece | src/parsers/choice.c:54-70 | a fork to one of two pieces has one way on, if they do not begin with the same byte |
| RvmLabels.LoopPiece | src/parsers/many.c:141-194 | a loop with separator has one way on, if neither element nor separator can go on with what follows it |
| RvmLabels.WhitePiece | src/parsers/whitespace.c:52-70 | the loops over white space have one way on, if the parser does not begin with white space |
| RvmDeterminism.PieceOf | src/backends/regex.c:350-352 | the code of a combinator without a choice in front of a byte has one way on from every entry |
| RvmDeterminism.RunLabelled | src/backends/regex.c:93-163 | a run that stays at an offset gets only to STEPs the labels tell of |
| RvmDeterminism.DeterministicSingle | src/backends/regex.c:76-164 | on the program of a deterministic combinator never more than one instruction waits |
| RvmMisses.SimulationMisses | src/backends/regex.c:87-163 | with two words that begin alike, the simulation does not find the longest match on an input that is one of the words beginning so |
| RvmMisses.WordsFoundExactly | src/parsers/choice.c:54-70 | for a choice of distinct non-empty words the result is longest on every input exactly when no two words begin with the same byte |
| RvmMisses.HeadOfWord | src/backends/regex.c:152-157 | what waits at offset 1 stands behind the first byte of a word that begins with that byte |
| RvmMisses.FirstAlike | src/backends/regex.c:76-163 | what waits at offset 1, and in which order, depends on the first byte alone |
| RvmMisses.SeenThrough | src/backends/regex.c:76-164 | what is visited later is reached from an instruction visited at offset 1 |
| RvmWords.ForkChain | src/parsers/choice.c:54-70 | the forks of a choice of words leave their threads on the queue, the last word on top |
| RvmWords.Unwind | src/backends/regex.c:94-162 | these threads are then run from the last word to the first, and those whose first byte is next wait |
| RvmWords.NextAlive | src/backends/regex.c:87-163 | what waits at the next offset stands behind the words visited now that go on with the byte read, in the same order |
| RvmWords.AliveWait | src/backends/regex.c:76-164 | for every input and offset: exactly the words that agree with it so far and have not been left out wait, the last word first |
| RvmWords.ReturnsWord | src/backends/regex.c:76-180 | for every choice of distinct non-empty words and every input, the result is the token of the longest word that ends while its thread is still visited, and nothing without one |
| RvmWords.FirstIsLost | src/backends/regex.c:124-133 | of several words that begin with the same byte, the first of the choice is not found on the input that is this word |
| RvmWords.OthersAreFound | src/backends/regex.c:124-133 | if they differ in their second byte, all others are found, each on itself |
| RvmDriver.Turn | src/backends/regex.c:100-162 | one turn on the arrays is the turn of the specification |
| RvmDriver.RunThreads | src/backends/regex.c:94-162 | the loop on the arrays terminates and computes the specified marks, waiting threads and trace |
| RvmDriver.RunHeads | src/backends/regex.c:87-163 | all waiting threads that the macro visits are run, in its order, and no others |
| RvmDriver.Foreach | src/internal.h:144-147 | the loop of the macro, with its two variables, runs the thread at entry 0, then those at 0, 1, 2, ... up to the last but one |
| RvmDriver.RunOffsets | src/backends/regex.c:76-164 | the two sparse arrays change places at every offset; the loop ends early when no thread is alive |
| RvmDriver.Run | src/backends/regex.c:53-180 | the result is the replay of the simulated trace, None without one |
| RvmDriver.SaveThread | src/backends/regex.c:152-157 | a stepping thread waits for the next offset and replaces the one at its instruction |
| SvmMachine.InvertTrace | src/backends/regex.c:36-51 | the trace is reversed |
| SvmMachine.RunTrace | src/backends/regex.c:198-259 | the replay loop returns what the specified replay up to the first ACCEPT leaves behind |
| SvmMachine.SvmContext.EnsureCap | src/backends/regex.c:187-196 | there is room for one more token and the stack keeps its contents |
| SvmMachine.SvmContext.PushMark | src/backends/regex.c:210-219 | a mark is pushed |
| SvmMachine.SvmContext.Capture | src/backends/regex.c:230-242 | the mark on top becomes the bytes between its position and the present one |
| SvmMachine.SvmContext.CountToMarkLoop | src/backends/regex.c:310-318 | counts the tokens above the topmost mark |
| SvmMachine.SvmContext.DoMakeSequence | src/backends/regex.c:321-337 | the mark and the tokens above it become one sequence |
| SvmMachine.SvmContext.DoClearToMark | src/backends/regex.c:339-346 | the mark and the tokens above it vanish |
| SvmMachine.SvmContext.DoOptional | src/parsers/optional.c:59-68 | the mark goes and its token stays, or the mark becomes TT_NONE |
| SvmMachine.SvmContext.DoChar | src/parsers/ch.c:21-31 | the bytes on top become their big-endian value |
| SvmMachine.RunSpecOfReplay | src/backends/regex.c:243-253 | a trace whose only ACCEPT is its last event returns what the others leave on the stack |
| Svm.ReplayConcat | src/backends/regex.c:208-254 | replaying two traces in a row is replaying the second on the stack the first leaves |
| Svm.FramedReplay | src/backends/regex.c:208-229 | between a mark and an action only the tokens above the mark are touched, on any stack |
| Svm.PushesSequence | src/backends/regex.c:321-337 | the sequence action leaves the stack below its mark and one sequence of the tokens above |
| Svm.PushesCleared | src/backends/regex.c:339-346 | a separator leaves the stack as it was |
| Svm.PushesOptional | src/parsers/optional.c:59-68 | an optional part leaves one token on any stack |
| Svm.PushesCapture | src/backends/regex.c:230-242 | mark and capture leave the bytes in between on any stack |
| Svm.PushesChar | src/parsers/ch.c:21-31 | a marked, captured and converted byte leaves its value on any stack |
| SparseArray.SparseArray.Get | src/internal.h:119-124 | the value that was set, or nothing, over uninitialised memory |
| SparseArray.SparseArray.IsSet | src/internal.h:115-118 | true exactly for the keys that were set since the last clear |
| SparseArray.SparseArray.Set | src/internal.h:126-134 | one key gets a value; a new key comes last in the iteration order |
| SparseArray.SparseArray.Clear | src/internal.h:136-138 | no key is set |
| SparseArray.SparseArray.RoomLeft | src/internal.h:126-134 | a new key always finds room in the node array |
| SparseArray.ForeachIsExhaustive | src/internal.h:144-147 | the iteration macro reaches every entry exactly when there is at most one |
| SparseArray.ForeachVisit | src/internal.h:144-147 | there are as many visits as entries; the first is of the first entry, every later one of the entry before its own |
| SparseArray.ForeachReaches | src/internal.h:144-147 | the entry at an index is visited if and only if it is the only one or not the last |
| LrItems.ExpandToClosure | src/backends/lr0.c:17-64 | the worklist ends with the least closed set around the given items |
| LrItems.ClosureOrigin | src/backends/lr0.c:17-64 | an item the closure added begins a rule that some item of the closure reads next |
| LrItems.AddProductions | src/backends/lr0.c:30-61 | all items of the symbol read next are added, those of a choice join the worklist if new |
| LrAutomaton.Lr0Dfa | src/backends/lr0.c:66-158 | terminates; all states are closed and distinct, and each has exactly one transition for every symbol behind a mark, to the closure of the advanced items |
| LrAutomaton.ProcessState | src/backends/lr0.c:99-145 | taking one state off the worklist keeps the partial automaton consistent and makes progress |
| LrAutomaton.AddNeighbor | src/backends/lr0.c:123-144 | exactly one symbol more is served from the state |
| LrAutomaton.Neighbors | src/backends/lr0.c:103-121 | the kernels are the advanced items for exactly the symbols behind a mark |
| LrAutomaton.EdgeAdded | src/backends/lr0.c:127-143 | one more transition, possibly to a new state, keeps the automaton consistent |
| LrPaths.PathSpellsItem | src/backends/lr0.c:66-158 | any path into a state spells what its items have read, and began in a state holding the item at its start |
| LrPaths.ItemBegins | src/backends/lr0.c:66-158 | where an item begins, its left-hand side can be shifted |
| LrPaths.NoReturn | src/backends/lr0.c:66-158 | no transition leads back to the initial state |
| LrPaths.ReductionFits | src/backends/lr.c:290-354 | a completed item's right-hand side is the end of every path there, and the state below has a goto for its left-hand side |
| LrTable.LrTable.PutShift | src/backends/lr0.c:165-181 | one cell is written, the row for nonterminals or for terminals |
| LrTable.LrTable.FillLr0 | src/backends/lr0.c:183-233 | rows hold exactly the transitions, the reduction of a lone completed item, and `inadeq` lists exactly the states with a choice |
| LrTable.LrTable.PutReductions | src/backends/lr0.c:204-229 | a conflict is reported exactly when there are two completed items, or one in a state with shifts |
| LrTable.LrTable.TerminalsPut | src/backends/lalr.c:151-191 | the action is entered for every lookahead symbol; a conflict is reported exactly when another action was there |
| LrTable.LrTable.Refine | src/backends/lalr.c:310-346 | one state loses its reduction for any lookahead and gets those under lookahead; a conflict is reported exactly when two actions compete for a symbol |
| LrTable.LrTable.ReplaceForAll | src/backends/lalr.c:306-347 | afterwards exactly the states with competing actions are listed; without any, the table is fit for the engine whatever the lookahead sets were |
| LrTable.AdequateRowOk | src/backends/lr0.c:183-233 | an LR(0) row without conflict is fit for the engine |
| LrCompile.Compile | src/backends/lalr.c:270-353 | the result is 0 exactly when no ambiguous state has competing actions under lookahead; then the table can drive the engine, has every reduction under its lookahead, and for any lookahead where there is no choice |
| LrCompile.AdequateResolves | src/backends/lr0.c:204-229 | elsewhere a completed item is entered for any lookahead |
| LrEngine.ReduceFinds | src/backends/lr.c:290-354 | a reduction never underflows the stack, pops its right-hand side and finds its goto |
| LrEngine.ReduceKeeps | src/backends/lr.c:290-354 | a reduction keeps the stack a path whose trees derive what was read, with their values |
| LrEngine.ShiftKeeps | src/backends/lr.c:355-361 | a shift keeps the same, with one byte more read |
| LrEngine.HandleIsEval | src/backends/lr.c:294-335 | the reshaped sequence of popped values is the value of the tree of the rule |
| LrEngine.EvalAllSuffix | src/backends/lr.c:299-317 | the values of the topmost trees are those of the topmost frames, at their positions |
| LrEngine.ActionKind | src/backends/lr.c:278-364 | the engine never meets a conflict entry |
| LrEngine.Engine.Lookup | src/backends/lr.c:226-256 | the reduction for any lookahead, else the entry for the next byte, or the end |
| LrEngine.Engine.Step | src/backends/lr.c:278-364 | one step is the specified one and keeps the derivation of all that was read |
| LrEngine.Engine.PopFrames | src/backends/lr.c:299-308 | the values of the popped frames are returned in order and the state rewound |
| LrEngine.Engine.DoReduce | src/backends/lr.c:290-354 | a reduction is the specified one and leaves the input alone |
| LrEngine.Engine.GetResult | src/backends/lr.c:366-379 | a result exists exactly in the end state; the text read is derivable from the start symbol and the result is its tree's value |
| LrParse.Parse | src/backends/lr.c:381-399 | the result is that of running the machine; a result means that a prefix of the input is derivable, with the value of its tree and its length |
| LrParse.ParseChunk | src/backends/lr.c:413-436 | a chunk continues the run; it asks for more only when all input is consumed |
| LrParse.Drive | src/backends/lr.c:392-396 | the loop runs the machine to its end or to where it needs input |
| LrParse.GetResult | src/backends/lr.c:438-447 | the result of the place the machine ended at |
| LrParse.LrLooksOneAhead | src/backends/lr.c:278-364 | a step depends on the next byte only, and reductions for any lookahead do not even need that |
| LrComplete.Begins | src/backends/lr0.c:17-64 | where a nonterminal stands in a sentence, the state reached holds all its productions, not yet begun |
| LrComplete.ReducesHere | src/backends/lr.c:226-256 | where a production has been read in a sentence, the lookup of what comes next, or of the end of the input, finds its reduction |
| LrComplete.ShiftsByte | src/backends/lr.c:355-361 | where a byte stands in a sentence it is shifted, with its token |
| LrComplete.ReducedTo | src/backends/lr.c:290-354 | reducing a production leaves its state and its tree's value, ends the parse at the start symbol, or stops where a validation fails |
| LrComplete.WalkTree | src/backends/lr.c:278-364 | the engine reads the text of a subtree and leaves one frame with its value, or stops where a validation in it fails |
| LrComplete.SentenceParsed | src/backends/lr.c:381-399 | with a table compiled without conflict, from lookahead sets that hold all that can come next in the states with a choice, every sentence is parsed: the result is the value of its tree and eight times its length, or none if a validation fails; the number of steps is finite |
| LrComplete.OneValue | src/backends/lr.c:381-399 | then all derivation trees of a text have the same value |
| LrComplete.ParseSentence | src/backends/lr.c:381-399 | the parse returns this result |
| TokenPositions.LrTokens | src/backends/lr.c:294-361 | without reshaping and actions the byte tokens in a result, from left to right, are one for every byte of the text parsed, each with its value and position |
| Chunking.RunOnPrefix | src/hammer.c:130-156 | a run on a part of the input is the beginning of the run on all of it |
| Chunking.RunInTwo | src/hammer.c:130-156 | running on a part and then on the whole ends as running on the whole |
| Chunking.FedIsOnTheWay | src/hammer.c:130-156 | the same for any number of chunks, cut anywhere |
| Chunking.EveryChunkSettles | src/hammer.c:130-156 | every chunk ends when the run on the whole input does |
| Chunking.StaysInside | src/hammer.c:130-156 | the position never runs past the input |
| Suspended.Parse | src/hammer.c:51-65 | one run over the whole input; a result derives a prefix of it |
| Suspended.SuspendedParser.constructor | src/hammer.c:107-128 | a parser that has seen no chunk |
| Suspended.SuspendedParser.ParseChunk | src/hammer.c:130-156 | the positions carried over make the run go on where it stopped; says whether the parser is done |
| Suspended.SuspendedParser.Finish | src/hammer.c:158-190 | the end of the input is signalled once, and the result is that of the run |
| Suspended.ChunksDoNotMatter | src/hammer.c:130-156 | after any chunks the run over the whole input goes on as if there had been none |
| Suspended.ParseInChunks | src/hammer.c:107-190 | start, chunks and finish return what one parse of the whole returns, bit length included |
| StringMap.LookaheadFinds | src/cfgrammar.c:353-380 | a lookup finds the entry of the shortest beginning of the lookahead that has one, else that of its end; it finds nothing only if no beginning has one |
| StringMap.GetLookahead | src/cfgrammar.c:353-380 | the loop on a copy of the stream is that lookup |
| LlDriver.RoundKeeps | src/backends/llk.c:400-524 | every successful turn extends a leftmost derivation of what has been consumed |
| LlDriver.PredictKeeps | src/backends/llk.c:407-437 | opening a frame for a production of the row's nonterminal extends the derivation |
| LlDriver.MatchKeeps | src/backends/llk.c:453-523 | a matched byte becomes a leaf with its token |
| LlDriver.ByteMatched | src/backends/llk.c:453-523 | with a terminal or charset on top, the round goes on if and only if the next byte is the symbol or in the set, and no validation of the set fails; then one byte is consumed, the stack popped and one value pushed |
| LlDriver.CloseKeeps | src/backends/llk.c:441-523 | at a MARK the frame's values, reshaped, are the value of the finished tree in the frame below |
| LlDriver.CompleteIsParse | src/backends/llk.c:526-530 | an empty stack means that the text is derived from the start symbol and the one value is its tree's |
| LlDriver.Driver.Turn | src/backends/llk.c:400-524 | one turn of the loop is the specified round |
| LlDriver.Driver.PredictNext | src/backends/llk.c:407-437 | the production the lookahead selects is pushed behind a new frame, or the input is short, or there is no parse |
| LlDriver.Driver.PushProduction | src/backends/llk.c:430-434 | symbols are pushed with the first one on top |
| LlDriver.Driver.ParseChunk | src/backends/llk.c:370-544 | the loop runs the rounds to their end and keeps the derivation |
| LlParse.LlLooksOneAhead | src/backends/llk.c:370-544 | with one symbol of lookahead a round depends on the next byte only |
| LlParse.RoundIsReaction | src/backends/llk.c:370-544 | a round of the driver is a reaction of that machine, and waiting leaves it where it is |
| LlParse.RoundsAreRun | src/backends/llk.c:370-544 | several rounds are a run of that machine; it starves only at the end of a chunk that is not the last |
| LlParse.Parse | src/backends/llk.c:560-572 | for any k, a result means that a prefix of the input is derivable, with the value of its tree and its length |
| LlParse.ParseChunk | src/backends/llk.c:579-586 | a chunk continues the run |
| LlParse.GetResult | src/backends/llk.c:546-558 | the result of the place the driver ended at |
| LlHalting.RoundLowers | src/backends/llk.c:400-524 | without left recursion every turn consumes a byte or lowers the number of turns that can pass before one is consumed |
| LlHalting.RoundsEnd | src/backends/llk.c:400-524 | so the loop ends, for every table, lookahead and input |
| LlHalting.LlHalts | src/backends/llk.c:370-544 | and so does every parse of the input in chunks |
| LlHalting.Parse | src/backends/llk.c:560-572 | the parse ends with the result of all its turns; a result means that a prefix of the input is derivable, with the value of its tree |
| Nullable.CollectNts | src/cfgrammar.c:93-129 | collects the least set of nonterminals that holds the symbol and is closed under productions |
| Nullable.CfGrammar | src/cfgrammar.c:60-91 | a start symbol that is not a choice is wrapped into one; the collected nonterminals are the least set closed under productions around it |
| Nullable.CollectGeneps | src/cfgrammar.c:197-233 | terminates with exactly the nonterminals that derive the empty string, for any iteration order |
| Nullable.NullableCollected | src/cfgrammar.c:197-233 | at the fixpoint every nonterminal with a derivation of the empty string is collected |
| Nullable.JustifiedDerives | src/cfgrammar.c:197-233 | one that is added derives the empty string |
| Nullable.DerivesEpsilonSeq | src/cfgrammar.c:185-194 | true exactly when all symbols are known to derive the empty string |
| Nullable.AnyProduction | src/cfgrammar.c:222-229 | true exactly when some production consists of such symbols |
| StringSet.InUpdate | src/cfgrammar.c:282-291 | an update is the union of both sets |
| StringSet.RemovesShorter | src/cfgrammar.c:526-546 | exactly the strings shorter than k that do not reach the end are removed |
| FirstFollow.ExtendEpsilon | src/cfgrammar.c:645-648 | for the empty string the continuations themselves are genuine, and nothing is lost |
| FirstFollow.ExtendEnd | src/cfgrammar.c:650-654 | nothing follows the end token |
| FirstFollow.ExtendAfter | src/cfgrammar.c:656-676 | a branch extended by recursion is genuine where it replaces another; at k = 1 nothing is lost |
| FirstFollow.SeqHeads | src/cfgrammar.c:459-489 | in each case of the code, no first symbol of a sequence is missing from its FIRST_k when none is from that of its first symbol and of its tail |
| FirstFollow.HeadsComplete | src/cfgrammar.c:399-445 | at k = 1 a set without a missing first symbol is complete |
| FirstFollow.CollectedOccur | src/cfgrammar.c:93-129 | collected nonterminals are usable: in a productive grammar they occur in sentential forms, so their FOLLOW sets are not empty |
| FirstFollow.WrappedYields | src/cfgrammar.c:67-83 | the wrapped grammar derives from the new start symbol what the old one derives from the old |
| GrammarAnalysis.Analysis.First | src/cfgrammar.c:399-445 | from every state of the memo tables all strings are genuine; without left recursion the first symbol of every sentence begins a string of the set, for every k, so that at k = 1 the set is exactly FIRST_1 |
| GrammarAnalysis.Analysis.FirstSeq | src/cfgrammar.c:459-489 | the same for a sequence of symbols |
| GrammarAnalysis.Analysis.Extend | src/cfgrammar.c:641-677 | what is new in the set is genuine; nothing is lost at k = 1, and for every k no first symbol is |
| GrammarAnalysis.Analysis.ExtendBranches | src/cfgrammar.c:656-676 | the recursion over the branches in any order |
| GrammarAnalysis.Analysis.Follow | src/cfgrammar.c:555-617 | all strings are genuine; computed at k = 1 the set holds the end for the start symbol, and what begins the tail behind every occurrence; without left recursion set and memo table are exactly those of `FollowSets.FollowRun`, for every order of the nonterminals |
| GrammarAnalysis.Analysis.FollowBegin | src/cfgrammar.c:578-585 | the set is entered before it is filled, with the end for the start symbol |
| GrammarAnalysis.Analysis.FollowFill | src/cfgrammar.c:586-614 | the loop over the nonterminals, at k = 1, takes the memo table through exactly the specified steps |
| GrammarAnalysis.Analysis.FollowAt | src/cfgrammar.c:597-612 | one occurrence adds genuine strings only, and all that begin its tail |
| GrammarAnalysis.Analysis.Predict | src/cfgrammar.c:619-638 | all strings are genuine and k long or ended; at k = 1 the set holds everything the production begins with and, if it vanishes, the FOLLOW set as it is then, and nothing else |
| GrammarAnalysis.WholeSound | src/cfgrammar.c:477-480 | the shortcut for a first symbol without short strings is right |
| GrammarAnalysis.TailSound | src/cfgrammar.c:472-475 | the shortcut for a first symbol that vanishes is right |
| GrammarAnalysis.TerminalExact | src/cfgrammar.c:420-433 | the sets of terminals and charsets are genuine and miss no sentence |
| GrammarAnalysis.ChoiceExact | src/cfgrammar.c:434-439 | a choice misses no first symbol when the set has those of all its productions |
| LlTable.StringmapMerge | src/backends/llk.c:85-131 | the merge over branches in any order gives the specified map and adds exactly the clashing alternatives |
| LlRows.MergedAt | src/backends/llk.c:67-131 | an entry of the merged map is the old one where the old map has decided already, else the new one, or a conflict of the two |
| LlRows.ClashesExactly | src/backends/llk.c:67-131 | an alternative is added to the work set if and only if the maps meet in some string with different entries, one of which it is |
| LlRows.RoundStep | src/backends/llk.c:146-169 | merging one more predict set in a round keeps the row describing the rounds before and the sets merged so far, and adds exactly the productions that now take part in a conflict |
| LlRows.RowCleared | src/backends/llk.c:179-180 | clearing the conflict markers leaves what the next round begins with |
| LlRows.ContestedShares | src/backends/llk.c:146-175 | a production takes part in a conflict only if another one has the same string in its predict set, in this round, or ended in this or an earlier one |
| LlRows.KeptAlone | src/backends/llk.c:134-185 | an entry is kept for a string if and only if one production alone has it in the round of its length, and no beginning of it was decided before |
| LlRows.KeptEnd | src/backends/llk.c:134-185 | for the end of the input what the rounds kept is the entry, unless a beginning has decided |
| LlRows.RowResolves | src/cfgrammar.c:353-380 | for every kmax, a lookup in a finished row returns the production alone in its round with the shortest beginning of the lookahead for which there is one, else the one kept for the end, else nothing |
| LlTable.OpenAmbiguous | src/backends/llk.c:175-184 | a conflict left by the last round means that two productions claim the same string |
| LlTable.MergedFlat | src/backends/llk.c:85-131 | merging predict sets for one symbol of lookahead leaves a row for one symbol |
| LlTable.FillRound | src/backends/llk.c:146-169 | one round merges the predict sets of the work set; the next work set is exactly the productions in a conflict |
| LlTable.FillTableRow | src/backends/llk.c:134-185 | for every kmax: the rounds go on while there are conflicts, up to kmax; 0 exactly when the last one left none, else -1; the row is the one the recorded predict sets of all rounds describe |
| LlTable.FillTable | src/backends/llk.c:190-219 | for every kmax: 0 exactly when this holds for every nonterminal, and -1 only with a conflict in some row |
| LlTable.RowLookup | src/backends/llk.c:24-34 | with one symbol of lookahead a lookup finds the only production whose predict set holds the next symbol, and nothing without one |
| LlTable.Compile | src/backends/llk.c:221-250 | for every grammar, start symbol and kmax: 0 exactly when no row has a conflict left, -1 only if two productions claim the same string after kmax rounds; then the rows are productions of their nonterminals and resolve every lookahead by the recorded predict sets; 0 for productive strong LL(k) grammars |
| LlTable.ClaimComes | src/backends/llk.c:146-169 | what a production claims can come where it stands in a text |
| LlTable.DisjointCloses | src/backends/llk.c:134-219 | so a row of a productive grammar that is strong LL(k), k being the number of rounds, has no conflict left |
| LlSentences.WalkTree | src/backends/llk.c:400-524 | the driver reads the text of a subtree and pushes its value, if every lookup on the way finds the production of the tree and no validation fails; it stops where one of them does |
| LlSentences.SentenceParsed | src/backends/llk.c:370-572 | on a whole sentence: the result is the value of its tree and eight times its length, or there is none, as the lookups on the way say |
| LlComplete.TreeFate | src/backends/llk.c:400-524 | with predict sets that hold what can come next, or do not overlap with it, no lookup finds another production than that of the tree |
| LlComplete.SentencesAccepted | src/backends/llk.c:560-572 | if every symbol that can come next where a production stands is in its predict set, every sentence is parsed with the value of its tree |
| LlComplete.SentenceRejected | src/backends/llk.c:407-437 | if one is missing, there is a sentence that is rejected |
| LlComplete.AcceptsExactly | src/backends/llk.c:560-572 | without overlap and rejecting validations: all sentences are parsed if and only if none is missing |
| FollowSets.ClosedHolds | src/cfgrammar.c:555-617 | a memo table closed under the rules for FOLLOW holds all that can follow |
| FollowSets.RunCloses | src/cfgrammar.c:555-617 | where the sets taken over are well-founded, a call leaves all entries closed but those that are still being filled |
| FollowSets.RankedCloses | src/cfgrammar.c:555-617 | then the FOLLOW sets behind a finished table are closed, for every order of the nonterminals |
| LlFollow.TellsAllExactly | src/cfgrammar.c:619-638 | no predict set misses a symbol if and only if the FOLLOW sets miss none behind productions that vanish |
| LlFollow.SentencesExactly | src/backends/llk.c:560-572 | for a compiled table of a productive strong LL(1) grammar without left recursion and hooks that never reject: every sentence is parsed if and only if the FOLLOW sets computed are complete |
| LlFollow.RankedAccepts | src/backends/llk.c:560-572 | where what FOLLOW sets take over is well-founded, every sentence is parsed, in every order of the nonterminals: with the value of its tree, or not at all if a validation fails |
| LlFollow.CompileOne | src/backends/llk.c:221-250 | compiling for one symbol of lookahead gives a table with these properties, and 0 for strong LL(1) grammars |
| LlFollow.ParseText | src/backends/llk.c:560-572 | the parse returns what these lemmas say |
| LlOrder.LateRejects | src/cfgrammar.c:555-617 | a productive strong LL(1) grammar without left recursion, an order of its nonterminals and a sentence that every table compiled in this order rejects |
| LlOrder.EarlyCompletes | src/cfgrammar.c:555-617 | in another order the FOLLOW sets of the same grammar are complete |
| TokenPositions.LlTokens | src/backends/llk.c:453-523 | without reshaping and actions the byte tokens in a result, from left to right, are one for every byte of the text parsed, each with its value and position |
| LlDriver.RoundRowed | src/backends/llk.c:407-437 | every nonterminal that gets on the stack has a row, so that the table lookup never misses one |
| Matching.AdmitsExactly | src/backends/packrat.c:27-57 | the rules admit an outcome if and only if direct evaluation gives it under some bound |
| Matching.AdmitsOnce | src/backends/packrat.c:181-229 | they admit at most one |
| Matching.ChoiceRaw | src/parsers/choice.c:10-22 | the rule of a choice, that the first alternative to succeed gives the outcome and all before it fail from the same place, or all fail, is met by its evaluation only |
| Matching.FirstOfGives | src/parsers/choice.c:10-22 | what a choice is evaluated to meets that rule |
| Matching.SequenceRaw | src/parsers/sequence.c:10-26 | the rule of a sequence, that parsers succeeding one after the other give the tokens there are, or the first to fail gives its failure, is met by its evaluation only |
| Matching.InSequenceGives | src/parsers/sequence.c:10-26 | what a sequence is evaluated to meets that rule |
| Matching.PickedRaw | src/parsers/ignoreseq.c:19-32 | the same rule, with the token of the parser picked, is met by its evaluation only |
| Matching.ManyRaw | src/parsers/many.c:11-46 | the rule of a repetition, a chain of elements with separators in between up to where another one fails or the exact number is reached, with failure below the minimum, is met by its evaluation only |
| Matching.ManyGives | src/parsers/many.c:11-46 | what a repetition is evaluated to meets that rule |
| Matching.TokenExactly | src/parsers/token.c:9-20 | a token succeeds exactly where its bytes can be read one after the other, and else fails behind the first byte that differs |
| Matching.SkipOnce | src/parsers/whitespace.c:5-16 | a run of white space up to a place not followed by any leads to one place only, where the parser is run |
| Matching.XorRaw | src/parsers/xor.c:9-32 | the rule that exactly one of two succeeds from the same place, with its own outcome, and else there is failure, is met by the evaluation only |
| Matching.AndRaw | src/parsers/and.c:3-10 | the rule that there is success without a token exactly where the parser succeeds, and the place is that of the beginning in any case, is met by the evaluation only |
| Matching.VerdictRaw | src/parsers/optional.c:4-13 | the rules of optional, ignored and negated parsers, with the place restored where the inner parser fails, are met by the evaluation only |
| Matching.ChangedRaw | src/parsers/endianness.c:19-41 | the rules of actions and predicates on tokens, and of parsers run in another order of bits and bytes, are met by the evaluation only |
| Matching.PermutationRaw | src/parsers/permutation.c:10-98 | the rule of a permutation, a trail of parsers passed over up to one that is taken and followed by a permutation of the others, is met by its evaluation only |
| Packrat.ParseState.DoParse | src/backends/packrat.c:181-229 | from every cache reachable in a parse, the result, its token and the position are those the rules of the combinators admit, which is what direct evaluation gives |
| Packrat.ParseState.Perform | src/backends/packrat.c:27-57 | a parse that overran its input fails; otherwise it is the parser's own result |
| Packrat.ParseState.Recall | src/backends/packrat.c:59-86 | without recursion heads the cache entry is returned as it is |
| Packrat.Recalled | src/backends/packrat.c:219-228 | a cache entry in use is the direct result and never a left-recursion marker |
| Packrat.Finished | src/backends/packrat.c:193-213 | entering a finished result keeps the cache right |
| Packrat.CacheOkLess | src/backends/packrat.c:181-229 | a right cache is right for every smaller evaluation |
| Packrat.ParseState.ParseCh | src/parsers/ch.c:5-15 | agrees with direct evaluation: the token of one equal byte, or failure behind that byte |
| Packrat.ParseState.ParseCharset | src/parsers/charset.c:6-16 | agrees with direct evaluation: the token of one byte of the set, or failure behind it |
| Packrat.ParseState.ParseToken | src/parsers/token.c:9-20 | the byte loop agrees with direct evaluation: failure right behind the first byte that differs |
| Packrat.ParseState.ParseBits | src/parsers/bits.c:9-18 | agrees with direct evaluation: the number of the given width and sign, in the present bit order |
| Packrat.ParseState.ParseSequence | src/parsers/sequence.c:10-26 | from any right cache: the tokens of all parsers in a row, or failure where one fails |
| Packrat.ParseState.ParseChoice | src/parsers/choice.c:10-22 | from any right cache: the first alternative that succeeds, each from where the choice began |
| Packrat.ParseState.ParseMany | src/parsers/many.c:11-46 | from any right cache: the loop is direct evaluation of the repetition, with separator, bounds and what is consumed before it stops |
| Packrat.ParseState.ParseOptional | src/parsers/optional.c:4-13 | from any right cache: the token, or TT_NONE with the position restored |
| Packrat.ParseState.ParseWhitespace | src/parsers/whitespace.c:5-16 | from any right cache: the parser runs in front of the first byte that is not white space |
| Packrat.ParseState.ParseIgnoreSeq | src/parsers/ignoreseq.c:19-32 | from any right cache: the token of one chosen parser of the row, all of which succeed |
| Packrat.ParseState.ParseXor | src/parsers/xor.c:9-32 | from any right cache: success exactly if one of the two succeeds and the other fails, from the same position |
| Packrat.ParseState.ParseAnd | src/parsers/and.c:3-10 | from any right cache: success if the parser succeeds, without consuming |
| Packrat.ParseState.ParseNot | src/parsers/not.c:3-11 | from any right cache: success exactly if the parser fails, without consuming |
| Packrat.ParseState.ParseEndianness | src/parsers/endianness.c:19-41 | from any right cache: the inner parser runs in the other order, which is switched back |
| Packrat.ParseState.ParsePermutation | src/parsers/permutation.c:73-98 | the search over the sets in the arrays is the specified one |
| Packrat.ParseState.PermutationTail | src/parsers/permutation.c:10-71 | the recursive search with its restored set, sequence and stream is the specified one |
| Packrat.PackratParse | src/backends/packrat.c:256-274 | where the rules admit an outcome at all, a parse from a fresh state returns the only one |
| DirectHalting.DirectBehind | src/backends/packrat.c:27-57 | no parser goes back in the input, and those that must read something go forward |
| DirectHalting.DirectEnds | src/backends/packrat.c:181-229 | direct evaluation ends without left recursion, if repetitions without a fixed number consume in every round |
| DirectHalting.Parse | src/backends/packrat.c:256-274 | without left recursion, if repetitions consume, the packrat parse ends with the only outcome the rules admit; no parser goes back |
| Combinators.DirectUnique | src/backends/packrat.c:181-229 | direct evaluation has at most one result, whatever the bound |
| Combinators.DirectMore | src/backends/packrat.c:181-229 | a larger bound does not change it |
| PermutationSearch.PermutationFinds | src/parsers/permutation.c:73-98 | for parsers that never yield TT_NONE: success exactly when some order matches, with the least such order, results at their parsers' places, and the input restored on failure, when no order matches under any bound |
| PermutationSearch.TailSearch | src/parsers/permutation.c:10-71 | the same for the parsers still active, with the active set restored on failure |
| PermutationSearch.TrySearch | src/parsers/permutation.c:18-54 | the loop over the candidates rules out every order it has passed |
| BitReader.ReadBits | src/bitreader.c:29-110 | the number formed by the next bits in the stream's orders, sign extended on demand; too short an input takes all bits and raises the flag |
| BitReader.ReadBytes | src/bitreader.c:54-67 | the fast path reads the same number |
| BitReader.ReadSegments | src/bitreader.c:68-107 | the segment loop reads that number, from any bit on |
| BitReader.SegmentRead | src/bitreader.c:70-96 | shift and mask select the next bits of the current byte |
| BitReader.MidwayStep | src/bitreader.c:98-105 | a segment takes its place in the number for either byte order |
| BitReader.FlipIsSignExtension | src/bitreader.c:34-109 | flipping the top bit and subtracting it is sign extension |
| BitLaws.PositionAdvances | src/internal.h:330-332 | a read within the input advances the position by exactly its width |
| BitLaws.ReadInTwo | src/bitreader.c:68-107 | with equal orders, reading a + b bits is reading a and then b and combining both, and leaves the same stream |
| BitLaws.NumberInTwo | src/bitreader.c:68-107 | the same for the numbers the bits stand for, of any width |
| BitLaws.UnreadAdvanced | src/bitreader.c:68-107 | a read removes exactly the bits it took |
| BitLaws.SwitchKeepsUnread | src/parsers/endianness.c:10-17 | switching the bit order keeps the position and the unread bits of the current byte, and undoes itself |
| BitLaws.SwitchReverses | src/parsers/endianness.c:10-17 | those bits are read in reverse |
| BitLaws.SwitchAround | src/parsers/endianness.c:19-41 | after switching, reading and switching back the position has advanced by what was read |
| BitWriter.BitWriter.Reserve | src/bitwriter.c:31-52 | capacity for the bits, old bytes kept, new ones zero |
| BitWriter.BitWriter.Put | src/bitwriter.c:55-92 | the value's bits are appended in the writer's orders, all accesses inside the buffer |
| BitWriter.BitWriter.PushByte | src/bitwriter.c:77-88 | a segment is appended to the current byte |
| BitWriter.SelectBits | src/bitwriter.c:62-75 | the share of the current byte is selected from the value |
| BitWriter.PushPartial | src/bitwriter.c:77-88 | the shift keeps a partly filled byte in the form the next segment needs |
| BitWriter.BitWriter.GetBuffer | src/bitwriter.c:95-103 | the buffer holds exactly the bits written |
| BitRoundTrip.RoundTrip | src/bitreader.c:29-110 | what was written with given widths is read back, in all four orders, to the last bit and without overrun |
| BitRoundTrip.ReadsBack | src/bitreader.c:29-110 | values are read back one after the other from where they were written |
| BitRoundTrip.WriteAll | src/bitwriter.c:55-103 | writing all values fills whole bytes exactly when the widths add up to them, and then they are read back |
| Bits.GatherScatter | src/bitwriter.c:62-90 | distributing a number's bits over bytes and collecting them again is the identity, for all orders and offsets |
| Bits.ScatterGather | src/bitreader.c:68-107 | and the other way round |
| Bits.GatherAlike | src/bitreader.c:68-107 | with equal orders byte boundaries do not show |
| Bits.BitOrDisjoint | src/bitreader.c:98-104 | or-ing disjoint bit patterns adds them |
| HashChain.GetPut | src/datastructures.c:212-240 | after a put, lookups find the new value for its key and the old ones otherwise |
| HashChain.PutUnique | src/datastructures.c:212-240 | after a put keys are unique exactly when they were before and no free head was taken in front of the same key |
| HashChain.GetDel | src/datastructures.c:286-310 | a deletion hides the first entry of its key only |
| HashChain.DelHeadOk | src/datastructures.c:286-310 | an empty head has nothing behind it after a deletion exactly when the deletion exposes no entry |
| HashChain.ExposedEntryReturns | src/datastructures.c:286-310 | three keys in one bucket for which a deleted value comes back |
| HashChain.LastPut | src/datastructures.c:212-240 | the entry just put is the last of its key unless a free head was taken in front of it |
| HashChain.LastIsFirst | src/datastructures.c:151-172 | with unique keys the first entry of a key is the last |
| HashTable.PutRefines | src/datastructures.c:212-240 | from every table a put on the buckets is a put on the map; a key gets a second entry exactly when a free head is taken in front of it |
| HashTable.DelRefines | src/datastructures.c:286-310 | from every table: the key is gone, or its second entry shows; without doubled keys it is gone, and heads stay in order exactly when nothing is exposed |
| HashTable.DeletionsDelete | src/datastructures.c:286-310 | every deletion deletes exactly when no key has two entries |
| HashTable.RehashTakesLast | src/datastructures.c:181-196 | a rehash keeps all keys, each with its last entry |
| HashTable.RehashKeeps | src/datastructures.c:181-196 | it keeps the map when no key has two entries |
| HashTable.PutThenRehash | src/datastructures.c:199-210 | a rehash after a put brings the old value back exactly when the put took a free head in front of its own key |
| HashTable.FoldedTable | src/datastructures.c:242-267 | putting all entries of a table without doubled keys, in any chain order, is merging its map |
| HashTable.HashTable.constructor | src/datastructures.c:133-149 | an empty table of 64 buckets |
| HashTable.HashTable.Get | src/datastructures.c:151-172 | from every table: the value in the map, or nothing |
| HashTable.HashTable.Present | src/datastructures.c:269-284 | from every table: true exactly for the keys in the map |
| HashTable.HashTable.PutRaw | src/datastructures.c:212-240 | from every table: the map with one entry put; no key is doubled afterwards exactly when none was and the put did not take a free head in front of its key |
| HashTable.HashTable.EnsureCapacity | src/datastructures.c:176-197 | the requested load stays below 10/13, the capacity a power of two; the map is kept unless a key has two entries, and a rehash leaves none doubled |
| HashTable.HashTable.Rehash | src/datastructures.c:181-196 | the larger table holds the last entry of every key, none doubled, all heads in order |
| HashTable.HashTable.Put | src/datastructures.c:199-210 | from every table: the map with one entry put, after the rehash if there was one; says exactly when a key gets a second entry; entries stay within 10/13 of the capacity |
| HashTable.HashTable.Delete | src/datastructures.c:286-310 | from every table: the map without the key, or with the value of its second entry; heads stay in order exactly when nothing was exposed |
| HashTable.HashTable.Update | src/datastructures.c:242-252 | from every table: all keys of both; the map is that of all these puts, when no rehash intervenes or no put takes a free head in front of its key |
| HashTable.HashTable.Merge | src/datastructures.c:254-267 | from every table: all keys of both; values are combined for the other table's keys, under the same condition |
| Arena.Arena.constructor | src/allocator.c:47-66 | an arena without blocks, with the default block size for 0 |
| Arena.Arena.Malloc | src/allocator.c:68-107 | a block of the size asked for, disjoint from all others and inside obtained memory; used plus wasted stays the total obtained; the head stays an ordinary link |
| Arena.Arena.Delete | src/allocator.c:113-125 | every link is freed exactly once, and every block lies in a freed link |
| Arena.BlocksTaken | src/allocator.c:68-107 | the new block is apart from all others in its link |
| Arena.BlockInside | src/allocator.c:68-107 | a block lies inside memory obtained from the allocator |

## Left out

- RegexCompiler.Program.Compile: code is promised below 65536 instructions only; above, addresses wrap as in the original and nothing is claimed about them.
- RegexBackend.ReturnsLongest: one byte of lookahead is enough but not necessary in general; the exact condition for all combinators, `RegexBackend.LongestExactly`, is about what the simulation visits, and an exact one on the combinator is given for choices of words only.
- RegexBackend.Parse: for programs below 65536 instructions, for the same reason.
- LlTable.DisjointCloses: for kmax above 1 that is one way only; a grammar that is LL(k) but not strong LL(k), or one whose predict sets are incomplete, may be compiled all the same.
- GrammarAnalysis.Analysis.Follow: for k above 1, where branches are replaced (src/cfgrammar.c:671-674), FOLLOW sets are shown to be genuine only; at k = 1 they are followed exactly for grammars without left recursion.
- LlFollow.RankedAccepts: that what FOLLOW sets take over is well-founded is sufficient, not necessary; the exact condition, `LlFollow.FollowsComplete`, is about the sets computed.
- GrammarAnalysis.Analysis.First: for grammars with an unproductive nonterminal only the shape of the strings is stated; that no first symbol is missing is shown for grammars with a ranking that excludes left recursion, and that no string is at k = 1.
- LrCompile.Compile: lookahead sets are arbitrary; the enhanced grammar that computes them (src/backends/lalr.c:49-246) is not modelled.
- LrComplete.SentenceParsed: for that reason it is a premise that the lookahead sets of states with a choice hold all that can come next; without such states it holds of all tables.
- LrParse.Parse: that the input is parsed within some number of rounds is assumed of the caller, as a table may make the engine reduce forever; on sentences `LrComplete.ParseSentence` needs no such assumption.
- LlParse.Parse: the same for the rounds of the LL driver, which left recursion makes predict forever; without it `LlHalting.Parse` needs no such assumption, and on sentences `LlFollow.ParseText` does not.
- Suspended.ParseInChunks: the same for both; `LlHalting.LlHalts` provides the number for LL grammars without left recursion.
- LlParse.ParseChunk: chunks are for one symbol of lookahead; the lookahead window for larger kmax (src/backends/llk.c:312-360) is not modelled.
- Packrat.ParseState.DoParse: for combinators on which direct evaluation ends (`DirectHalting.DirectEnds` gives a class of them), which excludes left recursion; bit lengths are not compared.
- PermutationSearch.PermutationFinds: for parsers that never yield TT_NONE; with optional parsers the search skips them as the code does, but no theorem about it is stated.
- BitReader.ReadBits: widths from 1 to 64 and inputs below 2^31 bytes, as the original's int demands.
- HashTable.HashTable.Delete: chains are sequences in an array instead of linked nodes, hash values are unbounded and the mask is a remainder; a stored NULL reads like an absent key.
- Arena.Arena.Delete: freeing is the list of freed regions; alignment of blocks is not modelled.
- SvmMachine.InvertTrace: the trace is a value, so that inverting it in place is not modelled.
- Suspended.SuspendedParser.ParseChunk: streams begin on byte boundaries, since the grammars of these backends read whole bytes.
- LrItems.ExpandToClosure: item sets are compared as sets; the length test of the original's comparison counts an empty bucket head as an entry (src/datastructures.c:328-337).
- Left-recursion growth in the packrat parser (`grow`, `lr_answer`, `setupLR`).
- GLR forking and merging.
- Desugaring of combinators into grammars; the reshape functions of sequences, repetitions and choices are parameters (`Hooks`) of the LR and LL engines.
- Combinators with effects or on results: `h_bind`, `h_put_value`, `h_get_value`, `h_butnot`, `h_difference`, `h_int_range`, `h_length_value`, `h_seek`, `h_tell`.
- User predicates and actions are pure functions; in the regex backend `h_ignore`, `h_ignoreseq`, `h_action` and `h_attr_bool` are not modelled.
- Sharing of tries and tokens: FIRST, FOLLOW and table maps are values, which the original's rule not to reuse submaps (src/cfgrammar.c:281) justifies.
- Iteration over hash tables is an arbitrary choice of the next entry; the order of the nonterminals, which matters for FOLLOW sets, is an arbitrary list.
- The instruction and action arrays grow as sequences; their reallocation is not modelled.
- Out of memory, long jumps, pretty printers, token type registry, language bindings.
