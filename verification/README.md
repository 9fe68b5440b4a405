# Eru in Dafny

Eru is a small compiler: text is lexed, parsed in two passes, checked by an
analyzer and lowered to a graph of basic blocks with `alloca`, `load` and
`store`. A second tool rewrites object files: it gives sections addresses,
repairs function sizes and writes data back with labels and relocated fields.
This project models the three and proves what they promise.

**The back end.** `Semantics` runs the source big-step with environments and a
memory of cells; calls take fuel, nothing else can loop. `Ir` is a small-step
machine with registers, a memory and a call stack. `Lowering` says what the
generator emits, and the classes of `Generator` emit it the way the code does:
a builder with an insertion point, and variables whose cell is made when first
needed, at the insertion point of the moment. A simulation (`Relation`,
`Simulation`, `Preservation`) connects the two, through nested scopes,
shadowing, pointers of any depth, chains of branches, early returns and calls.
`Numbers` says what literals and sums are, apart from both, and `Endings` that a
unit without recursion and without bare declarations always runs to its end.

The condition the code needs is not assumed but measured: a cell made inside a
branch need not exist after it. `Paths` defines, on the emitted graph alone,
that no path reaches a use of an undefined register; `Materialise` decides it
on the source; the two agree in both directions (`Dominance`, `Avoidance`).
`LateCell` has the smallest program outside: `int f(int a){ if(a){ a = 1 }
return a }` is accepted, and `f(0)` gets stuck.

The semantic theorems are about depth-exact programs: integers and pointers,
with equal pointer depths on both sides of an assignment, in arguments and in
returns (`DepthExact`). The analyzer itself checks depths only in part: every
depth-exact unit passes it, and `Looseness` says exactly which others do.

**The front end.** The lexer and the parser are classes that move an index over
the text, proved against functions over tokens (`Lexing`, `Grammar`). A
canonical layout (`Printer`) is read back to the same tree, from tokens and
from text, and every parsed tree has one (`Parsed`); what else may stand between
tokens is free (`Spacing`, `NewlineRuns`). Which streams are read as which block
is settled in both directions (`Derivations`, `Readings`). The operators in front of
an operand are counted into a net form that is compared, on any text, with the
operators one by one (`Indirections`). The first pass of the parser skips
bodies by counting braces, the second reads them; `Skipping` decides on every
token stream when both end a body at the same brace, and `OpenStrings` when the
loop over a string literal ends at all. The analyzer's registrations, types and
scopes (`Analysis`, `Registration`, `ScopeChain`, `Traces`) are tied to the
generator's, so that no lookup during lowering can miss. The code calls the
analyzer from inside the parser; `Interleaved` shows that this accepts the same
texts as one after the other. `Witness` has a text to which all of it applies.

**The rewriter.** Section placement, virtual addresses and boundary repair
(`Layout`, `Boundaries`) are proved by interval arithmetic on 64-bit words;
the emission loops (`Emission`, `Islands`, `Emitter`) against a streamer that
is a log: what bytes, labels and fields come out where (`Sections`).

Facts of the code that its own texts do not tell, and that the model follows:

- The limit test on indirections is a conjunction that looks unsatisfiable; it
  works because both comparisons are unsigned (`Prefixes.LimitTestExact`).
- A `&` in front of a read is dropped together with one `*`, so `&*x` is `x`
  even when `x` is an integer (`Indirections.DroppedAddress`); this is the only
  family in which a parsed prefix means more than its operators one by one.
- Behind every statement one token is dropped unseen, and it may be a brace
  that the first pass counts. Behind a call any brace can stand, and the two
  passes end the body at different places (`TwoPasses.DroppedBrace`). Behind
  the last `}` of a chain it can be the brace of the body itself, which the
  second pass then misses: `{ if (a) { x = 1 newline } }` is skipped and cannot
  be read (`TwoPasses.DroppedEnd`). The passes agree exactly when the dropped
  braces leave the count as it was without closing the body on the way
  (`Skipping.PassesAgreeExactly`).
- Whether a constant is a string or an integer is read off the token behind
  it; the failure of a directive behind a parameter list goes unnoticed.
- Blanks at the end of a text give a token of the terminating character.

## Model

| member | source | states |
|---|---|---|
| Compiler.TextCorrect | lib/Frontend/Compiler.cpp:20-46 | for every text whose unit is depth-exact and emitted in SSA form: it compiles, no call of it goes wrong, and every call the source semantics completes is completed by the emitted module with the same integer and the same globals |
| Compiler.TextReturns | lib/Frontend/Compiler.cpp:20-46 | if moreover functions call downwards and every variable gets its value where it is declared, every call halts in the emitted module, with the integer and the globals of the source run |
| Compiler.LayoutIgnored | lib/Frontend/Compiler.cpp:20-46 | two texts of the same tokens, blanks, comments and the number of newlines in a row apart, compile to the same or both do not |
| Witness.TextRuns | lib/Frontend/Compiler.cpp:20-46 | `int f(int a) { int b  b = a + 1  return b }`, as text, meets every hypothesis, and by the theorem its module gives n + 1 for each 32-bit integer n, and -2^31 for the largest |
| Witness.Tamed | lib/Frontend/Compiler.cpp:20-46 | the same text meets what `Compiler.TextReturns` asks for beyond that |
| Numbers.WrapExact | lib/IR/Expression.cpp:77-86 | a wrapped sum is the one 32-bit integer that differs from the exact one by a multiple of 2^32, so it is the exact one if that has 32 bits |
| Numbers.SumExact | lib/IR/Expression.cpp:58-94 | an expression and its sum over the unbounded integers have the same effects and failures, and the same value up to a multiple of 2^32; the very value if the sum has 32 bits, whatever it was on the way |
| Numbers.TwoOperands | lib/IR/Expression.cpp:77-86 | what `a + b` and `a - b` are, without and with overflow |
| Numbers.ReadsWritten | lib/IR/Expression.cpp:14-19 | reading is the inverse of writing: a number in decimals is read as that number, zeros in front of it change nothing, what is behind the digits is ignored, and more than 31 bits are refused |
| Numbers.ReadExact | lib/IR/Expression.cpp:14-19 | a literal is read as n if and only if it is written so |
| Numbers.LiteralMeans | lib/IR/VariableDeclaration.cpp:46-54 | a literal is its number in the source semantics, in the emitted code and as initial value, or refused in all of them |
| Numbers.InitialsExact | lib/IR/VariableDeclaration.cpp:46-61 | a global variable starts with the number it is given, and without a value exactly if it is given none |
| Compiler.Compile | lib/Frontend/Compiler.cpp:20-46 | the lexer, parser and generator objects in a row give the module of the pass functions, or fail exactly when one of them does |
| Compiler.CompileInterleaved | lib/Parser/CompilationUnit.cpp:41-92 | with the analyzer called from inside the parser, piece by piece, the same texts compile, to the same code |
| Interleaved.InterleavedSame | lib/Parser/CompilationUnit.cpp:41-92 | on any tokens: parsing and analyzing item by item and body by body gives the annotated items of the parser followed by the analyzer, or fails when one of them does |
| Interleaved.BlockSame | lib/Parser/Function.cpp:44-94 | the same for a block with its scope, statements, calls, chains and return, each handed to the analyzer where the code does it |
| Correctness.CompilerCorrect | lib/IR/Function.cpp:35-124 | with any fuel: if a call yields a value and a memory, the emitted module halts with the same result for integers and the same global variables |
| Correctness.NeverWrong | lib/Analyzer/Expression.cpp:74-119 | no call of a depth-exact unit with 32-bit integers dereferences an integer, reads past memory or misuses a value |
| Correctness.SourceCorrect | lib/IR/Function.cpp:35-124 | the same from the parsed items, through analysis and annotation |
| Preservation.SimInvoke | lib/IR/Function.cpp:84-124 | an activation started in related memories reaches its return with related values and memories; cells the caller knows keep their place |
| Preservation.SimBlock | lib/IR/Function.cpp:35-82 | a block with its own scope, statements and optional return is simulated by its emitted code |
| Preservation.SimGroup | lib/IR/Controlflow.cpp:39-101 | a chain runs its conditions in order up to the first that is not zero, one body at most, and the machine ends in the merge block or in the return |
| Preservation.SimTaken | lib/IR/Controlflow.cpp:62-95 | a taken branch: the block, then the jump to the merge block unless it returned |
| Preservation.SimSkipped | lib/IR/Controlflow.cpp:66-95 | a branch not taken leads to the test of the rest of the chain with the relation intact |
| Preservation.SimAssignment | lib/IR/Assignment.cpp:9-62 | the place is computed before the expression and the store hits the cell the source writes, through any number of pointers |
| Preservation.SimExpression | lib/IR/Expression.cpp:58-94 | the fold from left to right with 32-bit wrap-around yields the related value |
| Preservation.SimCall | lib/IR/Function.cpp:13-33 | arguments in order, the activation, and the caller's variables where they were |
| Simulation.SimGetAddress | lib/IR/ScopeVariable.cpp:34-55 | making the cell of a parameter keeps the relation and the injection of source cells into machine cells |
| Simulation.RelMaterialise | lib/IR/ScopeVariable.cpp:46-52 | a parameter that moves from a register to a cell keeps its value and its variable |
| Simulation.SimDereference | lib/IR/ScopeVariable.cpp:57-81 | the load chain reaches the cell that chasing the pointers reaches |
| Simulation.SimDereferenceExpression | lib/IR/ScopeVariable.cpp:95-162 | the value read through k pointers, with the integer load exactly at the declared depth |
| Simulation.SimUse | lib/IR/Expression.cpp:18-46 | plain, address and value uses of a variable yield the value that the source reads |
| Soundness.SoundInvoke | lib/Analyzer/Expression.cpp:84-117 | a typed memory stays typed through a call: every cell declared at depth d holds a value of depth d or nothing, and the result has the declared depth |
| Soundness.SoundExpression | lib/Analyzer/Expression.cpp:125-236 | a depth-exact expression never goes wrong and has its static depth |
| Soundness.SoundBlock | lib/Analyzer/Function.cpp:206-230 | a block never goes wrong, keeps the outer environment typed, and returns if it has a return value |
| Soundness.ChaseTyped | lib/IR/ScopeVariable.cpp:57-81 | k steps from a cell of depth d >= k read only pointers and end in a cell of depth d - k, unless one is uninitialised |
| Avoidance.DominanceExact | lib/IR/ScopeVariable.cpp:34-81 | the check on the source accepts a body if and only if no path of its graph uses an undefined register |
| Dominance.SafeBlock | lib/IR/ScopeVariable.cpp:46-52 | accepted code is safe on every path from where it starts |
| Avoidance.TraceChain | lib/IR/Controlflow.cpp:54-95 | a chain is rejected only when a path reaches a use its cell does not dominate |
| Units.UnitSafeExact | lib/IR/ScopeVariable.cpp:34-81 | the check on a whole unit decides SSA form of all its functions |
| Units.UnitLowered | lib/IR/Function.cpp:126-173 | the module holds, for each function, the code lowered from it with all globals and signatures known |
| LateCell.DominanceNeeded | lib/IR/ScopeVariable.cpp:46-52 | the program whose cell is made in a branch: depth-exact, lowered, not in SSA form, fine in the source and stuck in the machine |
| Graph.BodyWellFormed | lib/IR/Controlflow.cpp:54-95 | every block ends in its only terminator, targets exist, the order of filling is a permutation that every jump ascends, and there are 1 + sum over groups of (1 + 2 * branches) blocks |
| Graph.WalkForward | lib/IR/Controlflow.cpp:54-95 | no path comes back to a point it has left |
| Graph.ActivationEnds | lib/IR/Function.cpp:35-82 | without calls every activation reaches a return or gets stuck |
| Endings.RankedReturns | lib/IR/Function.cpp:84-124 | if functions call each other downwards, every call of an accepted unit halts with the value and the globals of the source run, unless that run reads an uninitialised variable |
| Endings.InitialisedReturns | lib/IR/Function.cpp:84-124 | if moreover every variable gets a value where it is declared, not made from itself, and every global has an initial value, every call halts, without exception |
| UnitGraphs.AcceptedGraphs | lib/Analyzer/Function.cpp:216-228 | every accepted unit of integers, pointers and plain operators emits exactly its bodies, each a well-formed graph of the counted size |
| Generator.Generate | lib/IR/Function.cpp:84-173 | the objects emit, for a list of items, exactly the functions and initial values of the lowering, or fail when it fails |
| Generator.IRGenerator.HandleBlock | lib/IR/Function.cpp:35-82 | pushing a scope, declaring the parameters, the statements, the return and the pop change the state as the lowering of the block |
| Generator.IRGenerator.HandleChain | lib/IR/Controlflow.cpp:57-95 | the loop over a chain with its moves of the insertion point changes the state as the lowering of the chain |
| Generator.IRGenerator.HandleGroup | lib/IR/Controlflow.cpp:39-101 | the merge block is made first and entered last |
| Generator.IRGenerator.GenerateComparison | lib/IR/Controlflow.cpp:11-37 | the comparison with zero, or the constant of an else |
| Generator.IRGenerator.HandleAssignment | lib/IR/Assignment.cpp:9-62 | place, expression, cast and store are emitted in this order |
| Generator.IRGenerator.HandleExpression | lib/IR/Expression.cpp:58-94 | the loop over units emits the fold; the boolean operators emit their operand only |
| Generator.IRGenerator.GetOperand | lib/IR/Expression.cpp:10-54 | literals, identifiers by their indirection and calls; a literal that is no 32-bit integer and a string fail |
| Generator.IRGenerator.HandleCall | lib/IR/Function.cpp:13-33 | arguments first, then the call of the declared function |
| Generator.IRGenerator.HandleDeclaration | lib/IR/VariableDeclaration.cpp:14-33 | an uninitialised cell at the insertion point, bound in the current scope unless the name is bound there |
| Generator.IRGenerator.HandleGlobal | lib/IR/VariableDeclaration.cpp:35-71 | a global with its initial value |
| Generator.IRGenerator.HandleFunctionDeclaration | lib/IR/Function.cpp:126-173 | the first declaration of a name is kept |
| Generator.IRGenerator.HandleFunctionBody | lib/IR/Function.cpp:84-124 | the entry block, the parameters as registers, the body, and no insertion point afterwards |
| Generator.ScopeVariable.GetValue | lib/IR/ScopeVariable.cpp:5-32 | a load for a cell, the register itself otherwise |
| Generator.ScopeVariable.GetAddress | lib/IR/ScopeVariable.cpp:34-55 | a parameter gets an alloca at the insertion point, a store, and is a cell from then on |
| Generator.ScopeVariable.Dereference | lib/IR/ScopeVariable.cpp:57-81 | the loop emits one load per step |
| Generator.ScopeVariable.DereferenceAssignment | lib/IR/ScopeVariable.cpp:83-93 | the place an assignment stores to |
| Generator.ScopeVariable.DereferenceExpression | lib/IR/ScopeVariable.cpp:95-162 | emits the loads of a read; the last one has the type of the variable exactly when all its pointers are followed |
| Corners.BooleansDropped | lib/IR/Expression.cpp:87-90 | operands behind `or` and `and` are evaluated and dropped: the value is the one in front of them |
| Corners.PointerStored | lib/IR/Assignment.cpp:53-61 | an assignment whose expression is marked stores a pointer and nothing else |
| Corners.CellWidth | lib/IR/IRGenerator.cpp:7-31 | the cell of a variable is a pointer, or has 32, 8 or 1 bits, or is the string structure, by its type |
| Corners.AddressOfAny | lib/Analyzer/Expression.cpp:84-117 | a pointer to INT may take the address of a variable of any type; a read through all pointers has the data type of the variable |
| Prefixes.LimitTestExact | lib/Parser/Expression.cpp:61-64 | the test holds if and only if the count is beyond 0xffff in either direction (section 7.4 of ISO/IEC 14882:2020) |
| Indirections.PrefixExact | lib/Parser/Expression.cpp:29-81 | on any tokens: the loop accepts if and only if the operators it takes have no `&&` and no count on the way is beyond the limit; then it gives their net count, which is at most 1, and the tokens behind them |
| Indirections.CountsFit | lib/Parser/Expression.cpp:31-64 | accepted or not, every count the loop comes to has 32 bits, so no step overflows and the limit test means what it says |
| Indirections.OperandSigns | lib/Parser/Expression.cpp:86-154 | a parsed identifier carries the net form of all operators in front of it; in front of literals and calls they cancel out |
| Indirections.ReferenceOnce | lib/Analyzer/Expression.cpp:84-116 | a parsed reference has one step, so the refusal of more cannot happen to parsed text; the analyzer refuses reads through too many pointers only |
| Indirections.TextMeaning | lib/Parser/Expression.cpp:29-81 | a parsed operand has the outcome of the operators in the text applied one by one, failures included, exactly unless a `&` in front of a read was dropped and the read gives no pointer |
| Indirections.TypedMeaning | lib/Parser/Expression.cpp:29-81 | in a typed memory, within the declared depth, the two part exactly on a `&` in front of the read of an integer |
| Indirections.RefusedMeansNothing | lib/Parser/Expression.cpp:41-47 | what is refused although no count is beyond the limit has no meaning one by one |
| Indirections.DroppedAddress | lib/Parser/Expression.cpp:69-80 | `&*x` for an integer `x` is parsed and read as `x` |
| Prefixes.MeaningExact | lib/Parser/Expression.cpp:69-80 | the same for any list of operators without `&&`: the outcome of the net form against the outcome one by one |
| ScopeChain.VisibleIsLookup | include/Support/Scope.h:60-87 | the recursion over parents is the innermost-first search of a stack of maps |
| ScopeChain.BalancedRestores | include/Support/Scope.h:169-213 | after a push, any balanced run and the pop, every binding is as before |
| ScopeChain.BodyContext | include/Support/Scope.h:164-213 | in the run of a body every local scope carries the context of its function, the enclosing function scope is found, and the pop leaves no context behind |
| Traces.BodyTrace | lib/Parser/Function.cpp:44-94 | what a body does to the scopes is such a run: at every point of it each scope carries the context of the function, and the last pop restores everything |
| Traces.AnalysisTraced | lib/Analyzer/Variable.cpp:91-110 | behind accepted statements the analyzer binds the types that this run leaves |
| Traces.LoweringTraced | lib/IR/Function.cpp:35-82 | behind lowered statements the generator binds the names that this run leaves |
| ScopeChain.ScopeHandler.Push | include/Support/Scope.h:169-189 | the linked chain gains a level; objects below are untouched |
| ScopeChain.ScopeHandler.Pop | include/Support/Scope.h:191-213 | the parent is current again, and the prepared context is dropped with a function scope |
| ScopeChain.ScopeHandler.FindFunctionFrom | include/Support/Scope.h:231-247 | the innermost function scope, if there is one |
| ScopeChain.Scope.GetVisibleDeclaredVariable | include/Support/Scope.h:60-87 | the chain of objects answers as the stack of maps |
| Lockstep.StepBody | lib/IR/Expression.cpp:29-34 | a body the analyzer accepts is lowered: the scopes of both bind the same names at every point |
| Lockstep.StepStatement | lib/Analyzer/Variable.cpp:91-110 | after a statement the two scope chains still bind the same names |
| Lockstep.StepChain | lib/IR/Controlflow.cpp:54-95 | a chain of accepted branches is lowered and leaves both chains as they were |
| Frontend.AcceptedLowers | lib/Parser/CompilationUnit.cpp:41-92 | every accepted unit of integers, pointers and plain operators is lowered: no lookup of a variable or function fails, wherever in the text it stands |
| Frontend.RegisterExact | lib/Analyzer/Variable.cpp:52-74 | the first pass is accepted if and only if global names are new and the functions of each name agree |
| Registration.RegistrationExact | lib/Analyzer/Function.cpp:12-101 | declarations and definitions are accepted if and only if each name has one definition and nothing else, or only declarations that agree |
| Registration.RegistrationUnordered | lib/Analyzer/Function.cpp:12-101 | reordering them changes nothing, although the code compares with the first entry only |
| Acceptance.ExactAccepted | lib/Analyzer/Expression.cpp:125-236 | every depth-exact unit is accepted, annotated with the depths the generator relies on, and lowered |
| Acceptance.AcceptExpression | lib/Analyzer/Expression.cpp:125-236 | a depth-exact expression gets the type of its depth |
| Acceptance.AcceptBlock | lib/Analyzer/Function.cpp:206-230 | a depth-exact block passes with the return rule of its scope |
| Looseness.AnalyzeExact | lib/Parser/CompilationUnit.cpp:41-92 | a unit of integers and pointers is accepted if and only if no global is declared twice, the functions of each name agree, and every body is well judged by pointer depths alone |
| Looseness.CallExact | lib/Analyzer/Function.cpp:133-164 | a call is accepted if and only if the function is known and the arguments are as many as the parameters, each judged to have the depth of its parameter |
| Looseness.ArgumentRefused | lib/Analyzer/Function.cpp:150-161 | `g(5)` for `int g(int& p)` is refused |
| Looseness.JudgeExpression | lib/Analyzer/Expression.cpp:125-236 | an expression is accepted if and only if it is judged well, and then has the type of its depth: the first operand decides, a later variable behind pointers may be followed to its integer or in as many steps as the sum has pointers, a literal goes with anything but a string |
| Looseness.JudgeAssignment | lib/Analyzer/Variable.cpp:112-196 | an assignment is accepted if and only if the target is known and either is behind at least as many pointers as there are stars, or is an integer and so is the value; the steps and the mark that are written are those of the depths |
| Looseness.JudgeBlock | lib/Analyzer/Function.cpp:206-230 | a block is accepted if and only if its statements are and what it returns has the depth of the function; a function's own block must return |
| Looseness.LiteralBehind | lib/Analyzer/Expression.cpp:18-45 | for operands of every type: which of them a literal may follow |
| Analyzer.Analyzer.ActOnExpression | lib/Analyzer/Expression.cpp:125-236 | the loop over units accepts what the typing function does and writes its type into the node |
| Analyzer.Analyzer.ActOnAssignment | lib/Analyzer/Variable.cpp:112-196 | the steps and the pointer mark written into the nodes; stars on a target that is no pointer are ignored |
| Analyzer.Analyzer.DeclareVariable | lib/Analyzer/Variable.cpp:91-110 | a name declared in the current scope is refused; outer declarations are hidden, and the declaration is marked exactly then |
| Analyzer.Analyzer.ActOnCall | lib/Analyzer/Function.cpp:133-180 | the function is known and the arguments agree in number and type |
| Analyzer.Analyzer.AddFunction | lib/Analyzer/Function.cpp:12-101 | the first entry is kept and the later ones must agree with it |
| Analyzer.Analyzer.ActOnParameters | lib/Analyzer/Function.cpp:182-204 | parameters are bound in a function scope and nowhere else |
| Analyzer.Analyzer.ActOnReturnValue | lib/Analyzer/Function.cpp:206-230 | a function scope must return its type, a local one may return it or nothing |
| Text.LexerRoundTrip | lib/Lexer/Lexer.cpp:61-212 | printed legal tokens are lexed to the same list, with a final newline if it had none, then the end of file |
| Text.Progress | lib/Lexer/Lexer.cpp:176-212 | a text of n characters has at most n tokens: every call but the last reads one |
| Lexing.NextToken | lib/Lexer/Lexer.cpp:96-212 | every token moves the index on, through comments too; only the end of file does not |
| Lexing.Lexer.GetNextToken | lib/Lexer/Lexer.cpp:176-212 | the loop over blanks, the readers and the comments give the token at the index and the index behind it |
| Lexing.Lexer.GetStringLiteral | lib/Lexer/Lexer.cpp:115-141 | the value with escapes resolved, for a string that is closed |
| OpenStrings.ClosesExactly | lib/Lexer/Lexer.cpp:115-141 | the loop over a string literal ends after some number of turns if and only if the string is closed |
| Lexing.Lexer.SkipComment | lib/Lexer/Lexer.cpp:96-113 | scanning goes on at the end of either kind of comment, or behind a lone slash |
| Lexing.CommentEnd | lib/Lexer/Lexer.cpp:96-113 | a line comment ends in front of the first line end behind it, a block comment at the slash of the first `*/` behind the slash it opens with, or else at the end of the text |
| Spacing.FreeLayout | lib/Lexer/Lexer.cpp:96-212 | however a list of tokens is laid out, with any blanks, comments and lone slashes in front of tokens wherever nothing runs on into anything, any escapes in strings and either line end, it is lexed to the list |
| Spacing.RemarksIgnored | lib/Lexer/Lexer.cpp:105-109 | a line comment in front of any newlines of a printed text changes no token |
| Spacing.SkipsLine | lib/Lexer/Lexer.cpp:105-109 | the token at a line comment is the token at the line end behind it, or the end of file |
| Spacing.SkipsBlock | lib/Lexer/Lexer.cpp:97-104 | the token at a block comment is the token behind its first `*/`, unless that is followed by `/` or `*` |
| Spacing.OpenComment | lib/Lexer/Lexer.cpp:97-104 | a block comment that nothing closes takes the rest of the text |
| Spacing.ClassesExact | lib/Lexer/Lexer.cpp:176-212 | which characters are letters, digits, blanks and line ends |
| Spacing.MarksExact | include/Lexer/Tokens.h:58-89 | the separators and the reserved words are those that print as themselves, and no others |
| Spacing.OddCharacters | lib/Lexer/Lexer.cpp:176-212 | any other character is a token of no kind, and so is the terminator behind a blank that ends the text |
| Lexing.Lexer.LookaheadTokenNotNewline | include/Lexer/Lexer.h:38-48 | the first token that is no newline; the index, and with it every later token, is unchanged |
| Lexing.Lexer.RestartFromIndex | include/Lexer/Lexer.h:58-74 | the token that starts one character before the index is current |
| RoundTrip.ExpressionRead | lib/Parser/Expression.cpp:184-208 | the layout of an expression is read back and nothing behind it is touched |
| RoundTrip.StatementRead | lib/Parser/Statement.cpp:100-190 | the same for every statement with a newline behind it |
| RoundTrip.ChainRead | lib/Parser/ControlFlow.cpp:60-83 | a chain is read to its last branch: the lookahead behind a brace decides |
| RoundTrip.SameLineBranch | lib/Parser/ControlFlow.cpp:76-80 | an elif or else on the line of the closing brace is not seen, and the chain ends there |
| RoundTrip.BlockRead | lib/Parser/Function.cpp:44-94 | a block is read back and reading stops right behind its closing brace |
| RoundTrip.VariableRead | lib/Parser/Type.cpp:8-55 | types of any pointer depth below the limit |
| NewlineRuns.RunsIgnored | lib/Parser/Parser.cpp:5-19 | every stream of at most a million tokens is parsed to the same unit, or refused, when each run of newlines in it is shrunk to one |
| NewlineRuns.FreeBlockRead | lib/Parser/Function.cpp:44-94 | a block is read back with any number of newlines, none included, in front of it, behind its opening brace and in front of its closing one |
| NewlineRuns.BlockSame | lib/Parser/Function.cpp:44-94 | the same for a block: newlines in front of it, behind its braces, between statements and around branches |
| Readings.BlockExact | lib/Parser/Function.cpp:44-94 | on every stream of at most a million tokens of the lexer: the parser reads a block in front of some rest if and only if a text of that block stands there, laid out by rules that say nothing of parsing: signs without `&&` and within the limit, operators and commas between, a newline behind declarations and assignments, any one token behind calls and chains, later branches on a new line, and newlines nowhere else than between lines and around braces |
| Readings.BlockReads | lib/Parser/Statement.cpp:100-190 | every such text is read as its block, whatever comes behind it |
| Derivations.BlockRead | lib/Parser/Statement.cpp:100-190 | whatever is read as a block is such a text, to the token |
| Derivations.ExpressionRead | lib/Parser/Expression.cpp:86-208 | whatever is read as an expression is operands with operators between, their signs, calls and commas in place |
| Derivations.GlobalRead | lib/Parser/CompilationUnit.cpp:8-39 | a global is read only from a type, a name and at most one literal, with a newline behind them |
| Derivations.HeaderRead | lib/Parser/Function.cpp:143-184 | a function is read only from a type, a name, parameters in parentheses and a directive; what begins behind them is the body or none of it |
| Derivations.LexedTidy | lib/Lexer/Lexer.cpp:61-212 | the lexer gives values to names and literals only |
| Parsed.NormalForm | lib/Parser/CompilationUnit.cpp:41-92 | every unit that is parsed, within the loop limits, has a layout, and parsing its layout gives the same unit |
| Parsed.BlockParsed | lib/Parser/Function.cpp:44-94 | every parsed block has a layout: one step for each reference, at most 0xffff for each read, no operator in front of the first unit only, an else never first |
| TwoPasses.PassesAgree | lib/Parser/Function.cpp:109-183 | the printed case: for every printable block, whatever follows it, the first pass skips to the very brace behind which the second pass stops, having read that block |
| Skipping.PassesAgreeExactly | lib/Parser/Function.cpp:109-183 | on every token stream that holds a body: the first pass stands on the brace the second one closes the body with if and only if the count, led through the braces of the blocks and the tokens dropped behind statements, is back at one where the body ends without having been at zero, and the limit of turns is not passed on the way |
| Skipping.CleanAgrees | lib/Parser/Statement.cpp:178-181 | with no brace among the dropped tokens only the limit of turns can part the passes |
| Skipping.UnbalancedParts | lib/Parser/Statement.cpp:178-181 | dropped braces that do not balance part the passes on every such text |
| Skipping.DefinitionsAgreeExactly | lib/Parser/Function.cpp:143-184 | a whole definition is left by both passes at the same token exactly under that condition on its body |
| Skipping.SkipIsClosing | lib/Parser/Function.cpp:117-138 | skipping ends at the first brace at which the nesting is back at zero, unless the limit of turns comes first |
| TwoPasses.ParserRoundTrip | lib/Parser/CompilationUnit.cpp:41-92 | a printed unit of globals, declarations and definitions is parsed by both passes to itself |
| TwoPasses.TextRoundTrip | lib/Parser/Parser.cpp:21-31 | the same from its text |
| TwoPasses.DirectiveIgnored | lib/Parser/Directive.cpp:5-19 | a header with `[ ]` behind it is read as the header without it, whatever follows; so is one with a `[` that nothing closes |
| TwoPasses.BetweenItems | lib/Parser/CompilationUnit.cpp:41-76 | which tokens are dropped between items, and that any other is refused |
| TwoPasses.StringAsInteger | lib/Parser/Expression.cpp:10-27 | a string as initial value is taken for an integer constant of its text |
| TwoPasses.RestartReproduces | include/Lexer/Lexer.h:58-74 | going back to a recorded index gives the same current token and the same text behind it |
| TwoPasses.RecordedRestarts | lib/Parser/Function.cpp:167-179 | on every recorded definition: going back to the recorded index gives the tokens that the body starts with |
| TwoPasses.DroppedBrace | lib/Parser/Statement.cpp:178-181 | a call with a brace behind it: a text on which the passes end the body at different braces |
| TwoPasses.DroppedEnd | lib/Parser/Statement.cpp:178-181 | a chain right in front of the closing brace: the first pass finds the end of the body and the second one cannot read it |
| Parser.Parser.Parse | lib/Parser/Parser.cpp:21-31 | the object parses the tokens of its lexer as the grammar does, bodies included, or fails when it fails |
| Parser.Parser.ParseTopLevelItems | lib/Parser/CompilationUnit.cpp:41-76 | the items in order, and for each body the index to restart from |
| Parser.Parser.ParseFunctionBodies | lib/Parser/CompilationUnit.cpp:78-92 | after all restarts every item has the body read from where it was recorded |
| Parser.Parser.ParseFunction | lib/Parser/Function.cpp:143-184 | header, directive, and the body recorded and skipped when a brace follows |
| Parser.Parser.SkipFunctionBody | lib/Parser/Function.cpp:109-141 | stands on the brace where the grammar stops skipping, or fails when the grammar does, at the end of file after the limit of turns |
| Parser.Parser.ParseBlock | lib/Parser/Function.cpp:44-94 | the block, or failure, and the tokens left are those of the grammar: newlines, `{`, statements, an optional return, `}`, nothing behind it read |
| Parser.Parser.ParseStatements | lib/Parser/Statement.cpp:100-190 | the loop collects what the grammar collects: one token dropped behind each statement, newlines skipped, an end at `return`, `}` or the limit |
| Parser.Parser.ParseOneStatement | lib/Parser/Statement.cpp:110-177 | the statement and the tokens left are those of the grammar; the current token alone decides between assignment or call, chain and declaration |
| Parser.Parser.ParseFunctionCallOrAssignment | lib/Parser/Statement.cpp:7-49 | assignment with its stars, or a call that keeps no trace of them, as in the grammar; anything else fails |
| Parser.Parser.ParseVariableAndMaybeAssignment | lib/Parser/Statement.cpp:51-98 | a declaration alone or with its assignment, the newline behind it required and left unread, as in the grammar |
| Parser.Parser.ParseAssignment | lib/Parser/Assignment.cpp:8-35 | the expression behind `=`; fails unless `=` is current and a newline follows |
| Parser.Parser.ParseConditionalBranchingGroup | lib/Parser/ControlFlow.cpp:60-83 | the loop reads the branches that the grammar reads, and goes on exactly when the first token behind the current one that is no newline is elif or else |
| Parser.Parser.ParseConditionalBranch | lib/Parser/ControlFlow.cpp:6-58 | the condition in parentheses unless the branch is an else, and the block; the first branch must be an if and no later one may be |
| Parser.Parser.ParseExpression | lib/Parser/Expression.cpp:184-208 | the loop collects the units the grammar collects and leaves the first token that is no operator |
| Parser.Parser.ParseOperand | lib/Parser/Expression.cpp:86-154 | the operand in net form and the tokens left are those of the grammar; indirections on literals and calls fail |
| Parser.Parser.ParseIndirection | lib/Parser/Expression.cpp:29-81 | the net count and the tokens left are those of the grammar; two ampersands in a row and a count beyond the limit fail |
| Parser.Parser.ParseFunctionCall | lib/Parser/Function.cpp:8-42 | the call with its arguments and the tokens behind `)`, as in the grammar |
| Parser.Parser.ParseArguments | include/Parser/Parser.h:115-165 | the loop collects the arguments up to `)` as the grammar does; anything but a comma between them fails |
| Parser.Parser.ParseParameters | include/Parser/Parser.h:115-165 | the same loop over variables |
| Parser.Parser.ParseType | lib/Parser/Type.cpp:8-55 | the type and the tokens left are those of the grammar: the number of ampersands is the pointer depth, up to the limit |
| Parser.Parser.SkipUntilNotNewline | lib/Parser/Parser.cpp:5-19 | what is left are the tokens without the newlines in front, up to the limit |
| Layout.PlacedApart | lib/Rewriter/Discover/Sections.cpp:18-61 | without overflow the placed sections are aligned, in range and pairwise disjoint |
| Layout.PlacedExact | lib/Rewriter/Discover/Sections.cpp:18-61 | for alignments and a first address of one word: nothing overflows if and only if the placed sections are aligned, in range and pairwise disjoint |
| Layout.PlacedTightly | lib/Rewriter/Discover/Sections.cpp:47-60 | without overflow the sections with a name are placed in their order, each at the least address of its alignment that is not in front of the end of the one before |
| Layout.AddressInjective | lib/Rewriter/Discover/VirtualAddress.cpp:7-28 | two places in sections with the same virtual address are the same place |
| Layout.AddressInside | lib/Rewriter/Discover/VirtualAddress.cpp:14-24 | a place in a section is moved into the range of that section |
| Layout.AddressKnown | lib/Rewriter/Discover/VirtualAddress.cpp:7-28 | a symbol of no section keeps its address; one of a section is known if and only if the file has a section of that name |
| Layout.OverflowOverlaps | lib/Rewriter/Discover/Sections.cpp:47-59 | a list of two sections that overflows and puts both over the same byte |
| Layout.DiscoverAndRegisterSections | lib/Rewriter/Discover/Sections.cpp:6-68 | the loop registers exactly the sections placed from 0x10000 on, maps their names and keeps the size of the text section; duplicates, missing relocations and a missing symbol table are reported |
| Boundaries.SimpleExact | lib/Rewriter/Discover/Symbols.cpp:50-70 | a function that does not start behind its section stays simple if and only if it was and its size fits in front of the next function and the end of its section, to which its largest size then reaches; sizes are at most the largest, and one that was set is kept |
| Boundaries.GapTaken | lib/Rewriter/Discover/Symbols.cpp:50-70 | a function without a size takes the whole gap up to the next function or the end of its section, one with a size keeps it, one that is too large is no longer simple; nothing else of it changes |
| Boundaries.SuccessorExact | lib/Rewriter/Discover/Symbols.cpp:36-70 | a function left simple ends in front of its successor if and only if it does not start behind its section, or had a size that fits there |
| Boundaries.SimpleWithin | lib/Rewriter/Discover/Symbols.cpp:36-70 | a simple function lies in its own section if and only if it starts there, and then no other starts inside it |
| Boundaries.SimpleApart | lib/Rewriter/Discover/Symbols.cpp:19-71 | a function left simple is disjoint from all functions behind it if and only if it ends in front of the next, under the same condition |
| Boundaries.StartOutside | lib/Rewriter/Discover/Symbols.cpp:50-60 | a function without a size that starts behind its section gets one that wraps around |
| Boundaries.BytesOwned | lib/Rewriter/Discover/Symbols.cpp:19-71 | with placed sections, a byte of a simple function is in no other simple function and in no other section |
| Boundaries.AdjustFunctionBoundaries | lib/Rewriter/Discover/Symbols.cpp:19-71 | the loop over the ordered functions leaves each as repaired against its successor |
| Emission.DataConserved | lib/Rewriter/Emit.cpp:94-151 | the stream of a section is as long as the section, every byte is the original or part of the field that covers it, every label is at its own offset, no symbol or relocation is lost or doubled |
| Emission.ConservedExactly | lib/Rewriter/Emit.cpp:118-151 | labels and fields all land at their offsets and the length is kept if and only if no field runs into the next place or out of the section |
| Emission.MergeExact | lib/Rewriter/Emit.cpp:94-151 | the same for the merged symbols and relocations of any section |
| Emission.MergePlaces | lib/Rewriter/Emit.cpp:94-108 | merging gives one place, in ascending order, for each offset of a symbol or relocation, with all of them in the order of the section |
| Emission.Overlaid | lib/Rewriter/Emit.cpp:118-151 | read at an offset: the byte of the contents outside the fields, the part of the covering field inside |
| Emission.MergedOrderly | lib/Rewriter/Emit.cpp:94-108 | merging separate symbols and relocations gives places in order, apart and in range |
| Emitter.BodyConserved | lib/Rewriter/Emit.cpp:74-151 | a data section with or without anything to merge keeps its bytes, and the labels and fields at their offsets |
| Sections.SectionTold | lib/Rewriter/Emit.cpp:74-151 | a section is skipped exactly when it is not allocated, holds no data or holds code; of any other the streamer is told as many bytes as the new or else the old contents have, every symbol as a label at its address less that of the section, the bytes where no field is, and the field of every relocation at its offset |
| Emitter.CollectData | lib/Rewriter/Emit.cpp:94-108 | the two loops build the ordered map of places |
| Emitter.EmitDataSection | lib/Rewriter/Emit.cpp:76-151 | the streamer is told the section, its alignment and its body, or nothing for a section that is skipped |
| Emitter.EmitDataSections | lib/Rewriter/Emit.cpp:74-152 | the sections in order |
| Islands.ChunkConserved | lib/Rewriter/Emit.cpp:315-359 | every relocation of a chunk once, every new label at its offset, the other bytes as in the function, and the length of the chunk |
| Islands.NewLabelsOnce | lib/Rewriter/Emit.cpp:344-348 | no symbol is emitted twice or after it was defined, and none is missed |
| Islands.IslandConserved | lib/Rewriter/Emit.cpp:315-359 | the chunks lie back to back and each is conserved |
| Emitter.EmitDataInRange | lib/Rewriter/Emit.cpp:277-304 | bytes and fields of a window, and the offset reached |
| Emitter.EmitIslandChunk | lib/Rewriter/Emit.cpp:315-359 | the sliding window over the relocations tells the streamer the chunk |
| Emitter.EmitConstantIsland | lib/Rewriter/Emit.cpp:255-360 | alignment, island label and chunks, or nothing without data |
| Emitter.FindLowerBound | lib/Rewriter/Emit.cpp:336-338 | the first relocation not in front of the label |

## Left out

- Correctness.CompilerCorrect: does not cover programs outside depth-exactness (pointer arithmetic, integers used as pointers), which the analyzer accepts, and says nothing when the source run reads an uninitialised cell or calls a function without a body; when neither happens is `Endings.InitialisedReturns`.
- Compiler.Compile: the object for the analyzer comes behind the one for the parser; that calling it from inside the parser makes no difference is shown on the passes as functions (`Compiler.CompileInterleaved`).
- Lockstep.StepBody: is about bodies without string literals, with literals of 32 bits and readable types; on the others the generator fails or aborts.
- Lockstep.StepStatement: the same for one statement.
- Lockstep.StepChain: the same for a chain.
- Generator.IRGenerator.GetOperand: does not model strings, bool and char values; a string operand fails.
- Generator.IRGenerator.HandleExpression: `or` and `and` keep their operand's code and no effect, as in the code; the theorems exclude them.
- Generator.IRGenerator.HandleGlobal: fails on a pointer global, where the code asks a builder that does not exist yet, and on a string initialiser, where it aborts.
- Generator.IRGenerator.HandleCall: a lookup that finds nothing counts as failure, where the code hands on a null value as success.
- Generator.IRGenerator.HandleFunctionDeclaration: does not model two things of one name, which LLVM renames; names of parameters are taken as they come and the first of a repeated name is kept.
- Graph.ActivationEnds: is about activations without calls, from any state of the machine; when they return, calls included, is `Endings.RankedReturns`. A recursive program may run forever.
- Preservation.SimInvoke: does not model the release of cells, so a pointer to a local stays valid after its function returns.
- Semantics: literals are read as `std::stoi` reads them; one outside 32 bits or without a leading digit fails.
- Analyzer.Analyzer.ActOnExpression: the nodes of expressions inside calls are values, so the types written into them are shown on the annotating functions only.
- Parser.Parser.Parse: does not make the calls into the analyzer while parsing; `Interleaved.InterleavedSame` is about the functions the two objects are proved against.
- Parser.Parser.ParseAssignment: an assignment node whose target is a declaration, which the tree allows and the parser never makes, is not modelled.
- Lexing.Lexer.GetNextToken: requires closed strings, because on an open one the code never returns (`OpenStrings.ClosesExactly`).
- Text.LexerRoundTrip: is about one layout; the others are in `Spacing.FreeLayout`, but for a comment that closes right in front of `/` or `*`, which is read on from its closing slash.
- TwoPasses.ParserRoundTrip: is about trees within the loop limits, with at most one `&` or 0xffff `*` in front of an identifier, and without string initialisers.
- Layout.DiscoverAndRegisterSections: the errors of the ELF reader and the offset of the text section in the file are left out.
- Boundaries.AdjustFunctionBoundaries: the functions come as a list in the order of their map.
- Islands.ChunkConserved: takes the chunks as given, because the code that builds them computes their end and drops it.
- Emitter.EmitDataSection: leaves out symbol attributes and symbol sizes, which move nothing in the stream; relocations that share an offset make one field of the size of the last, as in BOLT, which is not part of this model.
- Nested function scopes inside bodies: the parser opens them for bodies only.
- Drivers, files, linking, target selection, LLVM code generation and verification, BOLT disassembly, `RegisterSymbols` and the choice of relocation symbols.
- Error texts, call chains and the text kept for diagnostics.
