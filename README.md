# A verified model of the damn-toy-compiler pipeline

This project models the core of a small Java compiler for a straight-line
language (declarations, assignments, one `return`, integer `+ - *` with
parentheses). The compiler runs in five stages, and the model covers each one:

- **Lexical analyzer** (`lexer.dfy`, module `Lexer`). One left-to-right pass
  over the text. It produces punctuation, keyword, `id` and `IntConst` tokens
  and an end marker. Every identifier that is not a keyword goes into the
  symbol table.
- **LR driver** (`parser.dfy`, module `Parser`). It runs the
  shift/reduce/accept/error loop over a state stack and a symbol stack. It
  tells every registered observer about each event, in registration order.
- **Type observer** (`semantic.dfy`, module `Semantic`). It keeps a typed
  stack and writes the declared type into the symbol table on `S -> D id`.
- **IR observer** (`irgen.dfy`, module `IRGen`). It keeps a stack of IR values
  and appends one instruction for each assignment, return and arithmetic
  reduction. Arithmetic results go into fresh temporaries.
- **Assembly generator** (`legalize.dfy` and `asm.dfy`, modules `Legalize` and
  `Asm`). `loadIR` legalises operand shapes. It folds constants, reorders
  `add`, and moves immediates into temporaries. `run` allocates the seven
  registers `t0..t6` and emits one RISC-V line per instruction, up to the first
  `return`.

Supporting modules:

- `ir.dfy` holds the IR and a reference interpreter (`Exec`), which gives an
  instruction list its meaning.
- `grammar.dfy`, `tokens.dfy` and `symtab.dfy` hold the grammar, token and
  symbol-table values that the core uses.
- `wrappers.dfy` holds `Option`.

Each stateful Java class is a Dafny `class` whose methods are proved against
pure specification functions:

- The lexer's `Run` is proved against `Scan`.
- The driver's `Run` is proved against `Drive`. Each observer keeps a ghost record, `heard`, of the calls it received, appended by its own handlers; the driver's contracts say how every observer's record grows.
- `loadIR` is proved against `Normalize`.
- The assembly generator's `Run` is proved against the interpreter, with the
  corrected `allocate` described under "Findings": when the IR writes each
  variable before reading it and allocation succeeds, the emitted code returns
  in `a0` what the IR returns. The source's own `allocate` does not have this
  property; `AllocateAsWritten` models it as written, and
  `StaleEntryClobbersLiveValue` shows an input where its code returns the
  wrong value.

Java exceptions become typed results: `Fault`, `Stop` and `EmitError`.

## Model

| member | source | states |
|---|---|---|
| Lexer.RunEnd | src/cn/edu/hitsz/compiler/lexer/LexicalAnalyzer.java:84-87 | The run that starts at `i` is maximal: every character after `s[i]` up to the end extends it, and the next character does not |
| Lexer.Classify | src/cn/edu/hitsz/compiler/lexer/LexicalAnalyzer.java:61-111 | A character is rejected exactly when it is not white space, punctuation, a letter or a digit; a letter or digit extends the run it starts |
| Lexer.Lexeme | src/cn/edu/hitsz/compiler/lexer/LexicalAnalyzer.java:58-111 | Each turn of the loop resumes strictly after `i` and never past the end of the text |
| Lexer.ScanFrom | src/cn/edu/hitsz/compiler/lexer/LexicalAnalyzer.java:58-115 | From position `i` on, at most one identifier is declared per token, and every rejected character lies between `i` and the end |
| Lexer.Scan | src/cn/edu/hitsz/compiler/lexer/LexicalAnalyzer.java:58-115 | The whole scan yields at most one token or rejection per character, and every token is well formed and is not the end marker |
| Lexer.Declare | src/cn/edu/hitsz/compiler/lexer/LexicalAnalyzer.java:93-95 | Declaring names keeps every existing entry and its type, and every declared name ends up in the table |
| Lexer.LexicalAnalyzer.Load | src/cn/edu/hitsz/compiler/lexer/LexicalAnalyzer.java:44-47 | Loading sets the text and leaves the tokens as they were |
| Lexer.LexicalAnalyzer.LastOfRun | src/cn/edu/hitsz/compiler/lexer/LexicalAnalyzer.java:84-87 | The inner loop stops on the last character of the maximal run (`p + 1 == RunEnd`) |
| Lexer.LexicalAnalyzer.LexOne | src/cn/edu/hitsz/compiler/lexer/LexicalAnalyzer.java:59-111 | One turn appends the character's tokens, enters at most one identifier (an existing entry is kept), reports a rejected character, and resumes where `Lexeme` says |
| Lexer.LexicalAnalyzer.Advance | src/cn/edu/hitsz/compiler/lexer/LexicalAnalyzer.java:58-115 | One loop iteration moves strictly forward, and the tokens, the symbol table and the rejections so far stay the scan's, up to the new position |
| Lexer.LexicalAnalyzer.Run | src/cn/edu/hitsz/compiler/lexer/LexicalAnalyzer.java:55-117 | `run()` appends the whole scan and then the end marker, declares exactly the scanned identifiers in order, and reports the rejected characters |
| Lexer.ScanWellFormed | src/cn/edu/hitsz/compiler/lexer/LexicalAnalyzer.java:76-108 | Every scanned token is one punctuation character (`;` named Semicolon), an allowed keyword, an `id` word that is not a keyword, or a non-empty digit run; none is the end marker |
| Lexer.ScanLength | src/cn/edu/hitsz/compiler/lexer/LexicalAnalyzer.java:58-115 | The scan yields at most one token or rejection per character |
| Lexer.ScanIdents | src/cn/edu/hitsz/compiler/lexer/LexicalAnalyzer.java:88-96 | A name is declared if and only if it is the text of a scanned `id` token |
| Lexer.DeclareSpec | src/cn/edu/hitsz/compiler/lexer/LexicalAnalyzer.java:93-95 | Declaring adds exactly the missing names, each with no type yet, and keeps every existing entry unchanged |
| SymTab.SymbolTable.Has | src/cn/edu/hitsz/compiler/lexer/LexicalAnalyzer.java:93 | `has` answers exactly whether the name is entered |
| SymTab.SymbolTable.Add | src/cn/edu/hitsz/compiler/lexer/LexicalAnalyzer.java:94 | `add` enters the name with no type and leaves other entries alone |
| SymTab.SymbolTable.SetType | src/cn/edu/hitsz/compiler/parser/SemanticAnalyzer.java:31 | Setting a type succeeds exactly when the name is entered, and then changes only that entry; otherwise the table is unchanged |
| Lexer.ScanInvalid | src/cn/edu/hitsz/compiler/lexer/LexicalAnalyzer.java:109-111 | Rejected characters are reported in increasing position order; each one is the character at its position and is outside the alphabet |
| Lexer.RunEndsWithOneEof | src/cn/edu/hitsz/compiler/lexer/LexicalAnalyzer.java:116 | After a run on a fresh lexer, the token list ends with the end marker, holds it exactly once, and every token before it is well formed |
| Lexer.RunDeclaresIdents | src/cn/edu/hitsz/compiler/lexer/LexicalAnalyzer.java:91-95 | After a run, every `id` token's text is in the symbol table, and entries that existed before keep their types |
| Parser.StepEffect | src/cn/edu/hitsz/compiler/parser/SyntaxAnalyzer.java:116-133 | A shift pushes the action's state and the token and advances the cursor. A reduce pops the body from both stacks and pushes the goto state and the head, without moving the cursor. The event names the state on top |
| Parser.StepConfig | src/cn/edu/hitsz/compiler/parser/SyntaxAnalyzer.java:111-144 | Only a shift or a reduce keeps the loop going, and then the state stack is not empty for the next `peek` |
| Parser.Drive | src/cn/edu/hitsz/compiler/parser/SyntaxAnalyzer.java:109-145 | At most one event per turn; `Drive` itself never stops for a missing table or an observer's fault |
| Parser.DriveDepths | src/cn/edu/hitsz/compiler/parser/SyntaxAnalyzer.java:117-133 | Both stacks have equal depth, at least one, from start to end |
| Parser.DriveCursor | src/cn/edu/hitsz/compiler/parser/SyntaxAnalyzer.java:112-121 | The cursor advances by exactly the number of shift events sent |
| Parser.DriveHalts | src/cn/edu/hitsz/compiler/parser/SyntaxAnalyzer.java:134-142 | Unless fuel runs out, the loop stops where the last turn says stop, and that turn's event, if any, is the last one sent |
| Parser.StepAccept | src/cn/edu/hitsz/compiler/parser/SyntaxAnalyzer.java:134-142 | A turn sends an accept exactly when it stops with Accepted; an error turn sends nothing |
| Parser.DriveAccept | src/cn/edu/hitsz/compiler/parser/SyntaxAnalyzer.java:139-142 | The run is accepted if and only if the last event sent is an accept, and no earlier event is one |
| Parser.DriveExtend | src/cn/edu/hitsz/compiler/parser/SyntaxAnalyzer.java:111-145 | After `n` turns that all went on, one more turn that goes on moves `Drive` to that turn's configuration and adds its event at the end |
| Parser.DriveStops | src/cn/edu/hitsz/compiler/parser/SyntaxAnalyzer.java:111-145 | After `n` turns that all went on, if the next turn stops, every larger fuel stops there too, with that turn's event, if any, last |
| Parser.SyntaxAnalyzer.RegisterObserver | src/cn/edu/hitsz/compiler/parser/SyntaxAnalyzer.java:42-45 | Appends the observer and hands it the shared symbol table, leaving its stacks and what every observer has heard as they were |
| Parser.SyntaxAnalyzer.HandTable | src/cn/edu/hitsz/compiler/parser/SyntaxAnalyzer.java:44 | `setSymbolTable`: the observer now holds the shared table; its stacks and every observer's trace are unchanged |
| Parser.SyntaxAnalyzer.Append | src/cn/edu/hitsz/compiler/parser/SyntaxAnalyzer.java:43 | Appends the observer to the list |
| Parser.SyntaxAnalyzer.LoadTokens | src/cn/edu/hitsz/compiler/parser/SyntaxAnalyzer.java:82-90 | Appends the tokens in order |
| Parser.SyntaxAnalyzer.LoadLRTable | src/cn/edu/hitsz/compiler/parser/SyntaxAnalyzer.java:92-97 | Stores the table |
| Parser.SyntaxAnalyzer.TellShift | src/cn/edu/hitsz/compiler/parser/SyntaxAnalyzer.java:55 | Observer `k`'s trace grows by the shift; every other observer's is unchanged |
| Parser.SyntaxAnalyzer.TellReduce | src/cn/edu/hitsz/compiler/parser/SyntaxAnalyzer.java:67 | Observer `k`'s trace grows by the reduce, whether or not it faults; every other observer's is unchanged |
| Parser.SyntaxAnalyzer.TellAccept | src/cn/edu/hitsz/compiler/parser/SyntaxAnalyzer.java:78 | Observer `k`'s trace grows by the accept; every other observer's is unchanged |
| Parser.SyntaxAnalyzer.CallWhenInShift | src/cn/edu/hitsz/compiler/parser/SyntaxAnalyzer.java:53-57 | Every observer's own trace of the calls it received grows by exactly this shift |
| Parser.SyntaxAnalyzer.CallWhenInReduce | src/cn/edu/hitsz/compiler/parser/SyntaxAnalyzer.java:65-69 | Every observer's trace grows by exactly this reduce, in registration order. If one faults, the fan-out stops after it: that observer and those before it heard the reduce, those after it did not |
| Parser.SyntaxAnalyzer.CallWhenInAccept | src/cn/edu/hitsz/compiler/parser/SyntaxAnalyzer.java:76-80 | Every observer's trace grows by exactly this accept |
| Parser.SyntaxAnalyzer.Run | src/cn/edu/hitsz/compiler/parser/SyntaxAnalyzer.java:99-147 | With no table, stops with NoLRTable, leaves both stacks as they were and tells no one. Otherwise it pushes the initial state and the end marker; unless an observer faults, its stop and final stacks are those of `Drive` from there, and every observer heard exactly `Drive`'s events. On a fault, the stacks are `Drive`'s before the faulting reduce turn, and only observers up to the faulting one heard that reduce |
| Parser.SyntaxAnalyzer.Loop | src/cn/edu/hitsz/compiler/parser/SyntaxAnalyzer.java:109-145 | The `while (looping)` loop follows `Drive` turn by turn: the same stop, stacks and events, each event heard by every observer; on an observer's fault, as `Run` says |
| Parser.SyntaxAnalyzer.Turn | src/cn/edu/hitsz/compiler/parser/SyntaxAnalyzer.java:112-144 | One turn does what `StepConfig` says, to the stacks and the cursor, and every observer hears the turn's event. On an observer's fault the stacks are untouched and only observers up to the faulting one heard the reduce |
| Parser.SyntaxAnalyzer.Advance | src/cn/edu/hitsz/compiler/parser/SyntaxAnalyzer.java:111-145 | One loop iteration, as `Turn`, stated against the events heard so far; the loop goes on exactly when `StepConfig` continues |
| Parser.SyntaxAnalyzer.ReduceTurn | src/cn/edu/hitsz/compiler/parser/SyntaxAnalyzer.java:124-133 | The reduce turn: every observer hears the reduce, then the body is popped and the goto state and head pushed. If an observer faults, the stacks are still those from before the turn |
| Parser.SyntaxAnalyzer.ApplyReduce | src/cn/edu/hitsz/compiler/parser/SyntaxAnalyzer.java:127-132 | The stack moves of a reduce are those of `StepConfig`: popped and pushed when the state stack is deep enough, otherwise a StackUnderflow stop with the stacks unchanged |
| Parser.SyntaxAnalyzer.Pop | src/cn/edu/hitsz/compiler/parser/SyntaxAnalyzer.java:127-130 | Pops exactly `k` entries from each stack |
| Semantic.SemanticAnalyzer.WhenAccept | src/cn/edu/hitsz/compiler/parser/SemanticAnalyzer.java:19-21 | Records the accept in its trace and changes nothing else |
| Semantic.SemanticAnalyzer.WhenShift | src/cn/edu/hitsz/compiler/parser/SemanticAnalyzer.java:50-59 | Pushes exactly the token, typed `Int` if and only if its kind is `int`, and records the shift in its trace |
| Semantic.SemanticAnalyzer.WhenReduce | src/cn/edu/hitsz/compiler/parser/SemanticAnalyzer.java:23-48 | Declaration: pops id and type, and sets exactly that entry to the type. It faults when the stack is too short, the id is not a token, there is no table, or the name is undeclared (each if and only if). Type name: passes the type up. Others pop the body. Each pushes one head, only the declaration writes the table, and the reduce is recorded in the trace |
| Semantic.SemanticAnalyzer.SetSymbolTable | src/cn/edu/hitsz/compiler/parser/SemanticAnalyzer.java:61-64 | Stores the table |
| Semantic.ShiftType | src/cn/edu/hitsz/compiler/parser/SemanticAnalyzer.java:53-57 | A shifted token carries a type exactly when it is the `int` keyword, and that type is `Int` |
| IRGen.ShiftValue | src/cn/edu/hitsz/compiler/parser/IRGenerator.java:27-31 | Text matching `^\d+$` (and only such text) becomes an immediate with its decimal value; any other text becomes the variable of that name |
| IRGen.DecimalValue | src/cn/edu/hitsz/compiler/parser/IRGenerator.java:28 | The value of a digit string of length `k` is below 10^k |
| IRGen.Pops | src/cn/edu/hitsz/compiler/parser/IRGenerator.java:38-108 | A reduction pops one to three entries, or else its body length |
| IRGen.DecimalRoundTrip | src/cn/edu/hitsz/compiler/parser/IRGenerator.java:28 | Reading back the decimal text of `n` gives `n` |
| IRGen.DecimalLeadingZero | src/cn/edu/hitsz/compiler/parser/IRGenerator.java:28 | Leading zeros do not change the value read |
| IRGen.Arithmetic | src/cn/edu/hitsz/compiler/parser/IRGenerator.java:56-86 | The instruction an arithmetic production appends: running it sets the destination to the sum (production 8), difference (9) or product (11) of its operands' values, and leaves every other variable as it was |
| IRGen.ShiftValueBelow | src/cn/edu/hitsz/compiler/parser/IRGenerator.java:25-33 | A shifted value never names a temporary |
| IRGen.IRGenerator.WhenShift | src/cn/edu/hitsz/compiler/parser/IRGenerator.java:24-33 | Pushes exactly one symbol carrying the token's value, appends no instruction, keeps the temporary counter fresh, and records the shift in its trace |
| IRGen.IRGenerator.WhenReduce | src/cn/edu/hitsz/compiler/parser/IRGenerator.java:34-110 | Per production: the pops, the single instruction appended (`mov`, `ret`, or the operation into the next temporary), the value the head carries, and the faults (empty stack, non-variable target, missing value); the reduce is recorded in the trace |
| IRGen.IRGenerator.Reduce | src/cn/edu/hitsz/compiler/parser/IRGenerator.java:38-108 | The `switch` of `whenReduce`: faults with EmptyStack exactly when the stack is too short, and otherwise meets `ReduceOutcome` with at most one instruction appended |
| IRGen.IRGenerator.ReduceAssign | src/cn/edu/hitsz/compiler/parser/IRGenerator.java:39-48 | `S -> id = E`: pops three and appends `mov target, value`, or faults: `NotAVariable` when the target carries an immediate, checked first as the cast at line 44 comes first, and otherwise `MissingValue` when the target or the value carries none |
| IRGen.IRGenerator.ReduceReturn | src/cn/edu/hitsz/compiler/parser/IRGenerator.java:49-55 | `S -> return E`: pops two and appends `ret value`, or faults when the value is missing |
| IRGen.IRGenerator.ReduceArithmetic | src/cn/edu/hitsz/compiler/parser/IRGenerator.java:56-86 | `E -> E + A`, `E -> E - A`, `A -> A * B`: pops three and appends the operation into the fresh temporary at the counter, which the head carries; the counter moves up by one |
| IRGen.ReduceOutcome | src/cn/edu/hitsz/compiler/parser/IRGenerator.java:38-108 | A successful reduction appends at most one instruction, and when the stack's values lie below the counter, that instruction names no temporary but those and the fresh one at the counter |
| IRGen.IRGenerator.PopBody | src/cn/edu/hitsz/compiler/parser/IRGenerator.java:103-108 | Pops exactly `k` symbols |
| IRGen.IRGenerator.WhenAccept | src/cn/edu/hitsz/compiler/parser/IRGenerator.java:113-115 | Records the accept in its trace and changes nothing else |
| IRGen.IRGenerator.SetSymbolTable | src/cn/edu/hitsz/compiler/parser/IRGenerator.java:117-120 | Stores the table |
| Legalize.FirstRet | src/cn/edu/hitsz/compiler/asm/AssemblyGenerator.java:47-50 | Index of the first return: no return before it, and it is in range exactly when the list has a return |
| Legalize.Legal | src/cn/edu/hitsz/compiler/asm/AssemblyGenerator.java:59-97 | A legal `add` or `sub` reads a variable first, and a legal `mul` reads only variables |
| Legalize.LegalizeOne | src/cn/edu/hitsz/compiler/asm/AssemblyGenerator.java:59-97 | One instruction becomes one or two, and the counter moves up by at most one |
| Legalize.Normalize | src/cn/edu/hitsz/compiler/asm/AssemblyGenerator.java:44-101 | The output is at most twice as long as the input, and the counter moves up by at most the input's length |
| Legalize.LegalizeOneShape | src/cn/edu/hitsz/compiler/asm/AssemblyGenerator.java:51-97 | A non-return instruction becomes one or two legal non-return instructions. A temporary is used exactly when there are two, and then the first moves the immediate into it |
| Legalize.LegalizeOneLegal | src/cn/edu/hitsz/compiler/asm/AssemblyGenerator.java:86-97 | An instruction that is already legal passes through unchanged |
| Legalize.NormalizeLegal | src/cn/edu/hitsz/compiler/asm/AssemblyGenerator.java:44-101 | Every output instruction is legal: `add`/`sub` read a register first, and `mul` reads two |
| Legalize.NormalizeNoImmediatePairs | src/cn/edu/hitsz/compiler/asm/AssemblyGenerator.java:59-94 | No output operation has two immediates, no `sub` has an immediate left operand, and no `mul` has any immediate operand |
| Legalize.NormalizeStopsAtRet | src/cn/edu/hitsz/compiler/asm/AssemblyGenerator.java:45-50 | The output ends in a return exactly when the input has one. That return is the input's first return, and no other output instruction is a return |
| Legalize.NormalizeDropsAfterRet | src/cn/edu/hitsz/compiler/asm/AssemblyGenerator.java:47-50 | Whatever follows the first return has no effect |
| Legalize.NormalizeIdempotent | src/cn/edu/hitsz/compiler/asm/AssemblyGenerator.java:44-101 | Normalising a normalised list changes nothing |
| Legalize.NormalFormFixed | src/cn/edu/hitsz/compiler/asm/AssemblyGenerator.java:51-97 | A legal list whose only return is last is a fixed point |
| Legalize.NormalizeFresh | src/cn/edu/hitsz/compiler/asm/AssemblyGenerator.java:75-92 | The counter never goes down. The output names no temporary at or above the counter after it, and none numbered between the input's temporaries and the counter before it, so new temporaries never collide with the input's. The output is at most twice as long |
| Legalize.LegalizeOneFresh | src/cn/edu/hitsz/compiler/asm/AssemblyGenerator.java:75-92 | One rewrite uses only temporaries below the new counter |
| Legalize.LegalizeOneMeaning | src/cn/edu/hitsz/compiler/asm/AssemblyGenerator.java:59-97 | One rewrite has the effect of the original instruction on every variable except the fresh temporaries |
| Legalize.NormalizeMeaning | src/cn/edu/hitsz/compiler/asm/AssemblyGenerator.java:44-101 | From environments that agree except on the fresh temporaries, the normalised list returns what the original returns |
| Legalize.NormalizePreservesResult | src/cn/edu/hitsz/compiler/asm/AssemblyGenerator.java:44-101 | Normalisation keeps the returned value |
| Asm.AssemblyGenerator.constructor | src/cn/edu/hitsz/compiler/asm/AssemblyGenerator.java:30-33 | Starts with no instructions, empty maps and the listing `.text` |
| Asm.AssemblyGenerator.LoadIR | src/cn/edu/hitsz/compiler/asm/AssemblyGenerator.java:44-101 | Appends exactly `Normalize(origin)` and keeps every loaded instruction legal |
| Asm.AssemblyGenerator.LoadOne | src/cn/edu/hitsz/compiler/asm/AssemblyGenerator.java:51-97 | One non-return instruction is rewritten as `LegalizeOne` says |
| Asm.FirstFree | src/cn/edu/hitsz/compiler/asm/AssemblyGenerator.java:106-112 | First fit: the lowest-numbered free register, and there is none only when all seven are occupied |
| IR.Operands | src/cn/edu/hitsz/compiler/asm/AssemblyGenerator.java:116 | The values an instruction reads: one for a move or a return, two for an operation |
| Asm.UsedProtected | src/cn/edu/hitsz/compiler/asm/AssemblyGenerator.java:113-119 | The register of any value read at `idx` or later is never reclaimable |
| Asm.ReclaimSparesLive | src/cn/edu/hitsz/compiler/asm/AssemblyGenerator.java:113-125 | A reclaimed register's occupant is not read again |
| Asm.BindSpec | src/cn/edu/hitsz/compiler/asm/AssemblyGenerator.java:106-125 | Binding to a free or reclaimable register keeps the maps consistent and holds the value. Every value read later stays in its register, and no other value becomes held |
| Asm.AssemblyGenerator.Unused | src/cn/edu/hitsz/compiler/asm/AssemblyGenerator.java:113-119 | The scan leaves exactly the registers not named by an operand from `idx` on |
| Asm.AssemblyGenerator.Allocate | src/cn/edu/hitsz/compiler/asm/AssemblyGenerator.java:103-127 | The corrected `allocate` (see Findings): immediates and values still held in their register are untouched. Otherwise first fit, or with none free any reclaimable register, failing exactly when none is reclaimable. Live values keep their registers |
| Asm.AllocateAsWritten | src/cn/edu/hitsz/compiler/asm/AssemblyGenerator.java:103-127 | The source's `allocate`: any `v2r` entry, even a stale one, leaves the maps unchanged |
| Asm.AllocationOrder | src/cn/edu/hitsz/compiler/asm/AssemblyGenerator.java:145-195 | The values `run()` allocates for an instruction, in its order: the operands as `getOprands` lists them, then the destination; nothing for a return |
| Asm.AllocateEachAsWritten | src/cn/edu/hitsz/compiler/asm/AssemblyGenerator.java:149-151 | `allocate` as written on each value in turn: once one throws, the result is failure; otherwise every entry is kept and every variable handed in has an entry |
| Asm.AllocateRunAsWritten | src/cn/edu/hitsz/compiler/asm/AssemblyGenerator.java:139-195 | The as-written allocations of the first `n` instructions, from empty maps: a failure is never undone, and on success every variable allocated so far has an entry |
| Asm.StaleProgramNormal | src/cn/edu/hitsz/compiler/asm/AssemblyGenerator.java:44-101 | `loadIR` leaves the counterexample unchanged: it is already legal and its only return is last |
| Asm.RunBindStep | src/cn/edu/hitsz/compiler/asm/AssemblyGenerator.java:106-112 | In the as-written fold, `x = c` for a value with no entry binds `x` to the first free register |
| Asm.RunEvictStep | src/cn/edu/hitsz/compiler/asm/AssemblyGenerator.java:113-125 | In the as-written fold, `x = c` with no register free binds `x` to the only reclaimable register |
| Asm.RunKeepStep | src/cn/edu/hitsz/compiler/asm/AssemblyGenerator.java:104-105 | In the as-written fold, an instruction whose allocated values all have entries leaves the maps unchanged |
| Asm.Filled | src/cn/edu/hitsz/compiler/asm/AssemblyGenerator.java:106-112 | The maps once `x0..x(n-1)` took `t0..t(n-1)`: exactly those values and registers are entered, each with the other |
| Asm.FilledRun | src/cn/edu/hitsz/compiler/asm/AssemblyGenerator.java:103-112 | The first seven moves of the counterexample fill `t0..t6` with `x0..x6` in first-fit order |
| Asm.StaleProtected | src/cn/edu/hitsz/compiler/asm/AssemblyGenerator.java:113-119 | At instruction 7, only `t0` is reclaimable: `x1..x6` are read later and `x0` is not |
| Asm.StaleRun | src/cn/edu/hitsz/compiler/asm/AssemblyGenerator.java:139-188 | The as-written fold over instructions 0 to 10 reaches `StaleState`: `x7` took `t0`, and `x0` keeps its stale entry |
| Asm.StaleStateFacts | src/cn/edu/hitsz/compiler/asm/AssemblyGenerator.java:103-127 | In that state the maps are consistent, `x7` holds `t0`, and `x0` names `t0` without holding it |
| Asm.StaleLowering | src/cn/edu/hitsz/compiler/asm/AssemblyGenerator.java:105 | At instruction 11 the as-written `allocate(x0)` keeps the stale entry, so `x0 = 2` and `return x7` are lowered to `li t0, 2` and `mv a0, t0` |
| Asm.StaleEntryClobbersLiveValue | src/cn/edu/hitsz/compiler/asm/AssemblyGenerator.java:103-127 | `loadIR` leaves the counterexample as it is. Folding the as-written `allocate` over it from empty maps reaches a consistent state where `x7` holds `t0` and `x0` still names `t0`. The guard at line 105 keeps that stale `t0` for `x0`, so `li t0, 2` overwrites the live `x7`, and the emitted code returns 2 where the IR returns `x7` |
| Asm.Lower | src/cn/edu/hitsz/compiler/asm/AssemblyGenerator.java:145-206 | Each line uses the immediate mnemonic (`addi`, `subi`, `li`) exactly when the last operand is a literal, with that literal |
| Asm.LowerReadsHeld | src/cn/edu/hitsz/compiler/asm/AssemblyGenerator.java:145-206 | When every variable operand is in its register, each register the line reads holds the operand it stands for |
| Asm.LowerComputes | src/cn/edu/hitsz/compiler/asm/AssemblyGenerator.java:145-206 | With the operands' values in their registers, the line writes the destination's new value, or puts the returned value in `a0` |
| Asm.EmitLength | src/cn/edu/hitsz/compiler/asm/AssemblyGenerator.java:212-217 | A complete run emits the lines up to and including the first return, or all lines when there is none |
| Asm.EmitLengthAt | src/cn/edu/hitsz/compiler/asm/AssemblyGenerator.java:215-217 | With no return before `i`, emission goes past `i`, and ends at `i` when `i` is a return |
| Asm.EmitStep | src/cn/edu/hitsz/compiler/asm/AssemblyGenerator.java:142-214 | After one non-return line, every value written earlier and read later is in its register, and every held value's register holds its IR value |
| Asm.ReturnStep | src/cn/edu/hitsz/compiler/asm/AssemblyGenerator.java:202-206 | The return's `mv a0` line returns the IR's returned value |
| Asm.ContinueStep | src/cn/edu/hitsz/compiler/asm/AssemblyGenerator.java:142-214 | After a non-return line, the machine still runs and the IR continues with the next instruction; the register invariants carry over |
| Asm.AssemblyGenerator.EmitOne | src/cn/edu/hitsz/compiler/asm/AssemblyGenerator.java:143-213 | With the corrected `allocate`: allocates in the order lhs, rhs, destination (a move: source, then destination) and appends the line. Operands and destination end up in their registers, and live values keep theirs. The errors are out of registers, or the returned value has no register |
| Asm.AssemblyGenerator.AllocateBinary | src/cn/edu/hitsz/compiler/asm/AssemblyGenerator.java:145-188 | With the corrected `allocate`: lhs, rhs, then destination: all three end up held, or the first that could not be placed is reported |
| Asm.AssemblyGenerator.Run | src/cn/edu/hitsz/compiler/asm/AssemblyGenerator.java:139-219 | With the corrected `allocate`: emits one line per instruction up to the first return, each with the right mnemonic, or stops at the failing index. When every variable is written before it is read, the emitted code returns what the IR returns |
| Asm.AssemblyGenerator.Advance | src/cn/edu/hitsz/compiler/asm/AssemblyGenerator.java:142-217 | With the corrected `allocate`: one loop iteration appends one line, or fails with nothing appended, and keeps the simulation between registers and IR |

## Left out

- File and console I/O. `loadFile` is modelled once the lines are joined (`Load`). The IR and assembly dumps are left out, and so are the printed messages. Rejected characters are returned as a list instead of being printed.
- `TokenKind.isAllowed` is the parameter `keywords`. `Token`, `TokenKind`, `SymbolTable`, `LRTable`, `Production`, `Status` and `Instruction` are not part of this model. They are modelled by the behaviour the core uses from them.
- Lexer.Classify: uses ASCII letters and digits. `Character.isLetter`/`isDigit` also accept other Unicode letters and digits.
- IRGen.ShiftValue: reads decimal text as an unbounded number. `Integer.parseInt` fails on values above 2^31−1.
- Legalize.LegalizeOne: folds constants with unbounded integers. The source's `int` arithmetic wraps at 32 bits, and so do the RISC-V registers, which `Asm.ExecOp` treats as unbounded.
- IRGen.IRGenerator.WhenReduce: treats a popped symbol that carries no value as the fault `MissingValue`. `Instruction`'s factory methods are not part of this model, so what they do with `null` is not modelled. For `S -> id = E`, a target carrying an immediate is `NotAVariable` even when the value is missing, because the cast at line 44 comes before the factory call at line 46.
- Temporaries: each generator has its own counter, `nextTemp`. The source's `IRVariable.temp()` uses one global counter.
- Eviction choice: the model takes any reclaimable register. The source takes the first in `HashSet` iteration order.
- Parser.SyntaxAnalyzer.Run: runs for at most `fuel` turns. An LR table that reduces forever would make the source loop without end. Reading past the last token and peeking an empty stack become the stops `TokensExhausted` and `StackUnderflow`.
- Exceptions end the whole compiler. After an observer's fault, the driver's contracts state that the two stacks are those from before the reduce turn and which observers heard the reduce. What the faulting observer left in its own stacks is stated only as far as its `WhenReduce` contract goes (for the IR generator: the instructions and the counter are unchanged).
- Parser.SyntaxAnalyzer.RegisterObserver: requires the new observer to be a different object from those already registered. The source accepts the same observer twice and then calls it twice per event.
- IRGen.Pops: its contract is a bound (one to three entries, or the production's body length). The exact count per production is stated by `IRGen.IRGenerator.WhenReduce`.
- Asm.AssemblyGenerator.Allocate: models the corrected `allocate`, whose early return requires the value to be held in its register (`Held`), where line 105 returns on any `v2r` entry, stale or current. `EmitOne`, `AllocateBinary`, `Advance` and `Run` use it, so their contracts are about the corrected generator; the source's own `allocate` is modelled by `AllocateAsWritten`.
- Asm.AssemblyGenerator.Run: the result is proved equal to the IR's only when every variable is written before it is read. A variable never written reads 0 in the IR but is read from whatever register it has.
- The exact assembly text is not modelled: register names, formatting and the trailing `# ...` comment are abstracted into `Line(op, source)`. `subi` and `mov` are not base RISC-V mnemonics; the machine model gives them their evident meanings, `rs - imm` and a register copy.
- The `default` branches of `run` and `loadIR`, which print "wrong asm" or "error", are unreachable for the five instruction kinds. They are not modelled.

## Findings

| source | as written | input that shows it | evidently intended | confidence | as-written member | corrected member |
|---|---|---|---|---|---|---|
| src/cn/edu/hitsz/compiler/asm/AssemblyGenerator.java:105 | `allocate` returns as soon as the value has any `v2r` entry. That includes an entry left stale when its register was reclaimed for another value | IR handed to `loadIR`: `x0=1; x1=1; x2=1; x3=1; x4=1; x5=1; x6=1; x7=1; x1=x1+x2; x3=x3+x4; x5=x5+x6; x0=2; return x7`. `x7` takes `t0` from `x0`; then `x0=2` emits `li t0, 2` and `mv a0, t0` returns 2 instead of 1 | a value whose register was reclaimed gets a register again (the guard checks that the entry is current). With that change, `Asm.AssemblyGenerator.Run` proves that the code returns what the IR returns | not executed | Asm.StaleEntryClobbersLiveValue | Asm.AssemblyGenerator.Allocate |
