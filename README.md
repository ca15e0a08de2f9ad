# A verified model of the PL compiler core

PL is a small compiler written in Rust. This project models four of its
parts in Dafny and proves properties of each model.

- **`Infer` (infer.dfy), the unification engine of `src/infer.rs`.**
  - A type variable is a shared mutable cell. It is `Any` (unknown), `Equal`
    (an alias of another cell) or `Known` (a payload with child cells).
  - The model keeps every cell in an arena: the class `Arena`, whose field
    is a sequence of cells. A handle is an index into it, so aliasing through
    `Rc<RefCell<…>>` becomes two handles that reach the same index.
  - `Unify` overwrites cells in place, just as the Rust code does.
  - A ghost stamp per cell, taken from a ghost clock, keeps alias chains
    acyclic: every `Equal` points to a younger cell.
  - The outcome has three cases: success (`Ok`), `Err(())` (`Err`) and a
    Rust panic (`Abort`).

- **`Types` (ty.dfy), the type payloads of `src/ty.rs` and their merge
  (`unify`) and `concrete` rules.**
  - `Ty`, `IntTy` and `StructTy` are datatypes.
  - Child type references are opaque handles. The engine calls made on
    them and the reads of their concrete types are parameters: an `Engine`
    and a `Resolver`, each a record of functions.
  - The structural-field merges loop over maps and are methods.
  - A few concrete `Arena<IntTy>` scenarios tie the two modules together.

- **`Grammar` (parser_spec.dfy) and `Parsing` (parser.dfy), the
  recursive-descent, precedence-climbing parser of `src/parser.rs`.**
  - `Grammar` states what each parse routine does as a pure function of
    the token array and the cursor. It returns `Ok(value, next)`,
    `Err(token)` or `Abort` (an index past the end of the tokens, which
    panics in Rust).
  - `Parsing.Parser` is the class with the mutable cursor `index`. Each of
    its methods is proved to return what the matching `Grammar` function
    returns, and to leave the cursor where that function says.
  - The grammar's properties are lemmas about `Grammar`.

- **`Qbe` (qbe.dfy), the QBE instruction selection of `src/qbe.rs`.**
  - It covers the size and alignment tables, the opcode choice, temp
    numbering, stack-slot allocation and the lowering of expressions,
    assignments, statements, branches, blocks and the function prologue.
  - The emitted text is modelled as a sequence of instruction records.
  - The specification is a family of pure `...Code` functions. The
    `Compiler` class (fields `stackSlots`, `tempCount` and `output`) is
    proved to append exactly their code and to leave the counters where
    they say.

The three Rust files do not agree on one set of signatures. The model
makes these choices:

- **The engine follows `src/infer.rs`.** `unify` keeps `a`'s payload after
  a payload check. The check is a parameter of the arena, the function
  `check`.
- **The payload rules follow `src/ty.rs`.** They are `Types.UnifyInt`,
  `Types.UnifyTy` and `Types.UnifyStruct`, which return the merged
  payload.
- **The back end follows `src/qbe.rs`.** It works on already-concrete types
  (`BackendTy`: `None`, `Bool`, `Int`, `Pointer`), as `.concrete().unwrap()`
  gives them there.

## Model

The pure functions that the methods are proved equal to have no row of their own. These are `Grammar.ParseStmt`, `ParseTy`, `ParseIf`, `ParseBlock`, `ParseAssign`, `ParseFn`, `ParseArgs`, `ParseParams`, `ParseParam`, `InfixLoop`, `OptionalTy` and `OptionalInit` and the `Qbe` functions `ExprCode`, `AssignCode`, `StmtCode`, `StmtsCode`, `BranchCode`, `BlockCode`, `BlocksCode` and `PrologueCode`. Each one specifies the source function cited on its method's row, and the lemma rows of the table state its properties. The alignment table `Qbe.AlignBytes` (src/qbe.rs:41-52) has no row either: the lemma `Qbe.AlignIsSize` states what it gives.

| member | source | states |
|---|---|---|
| Infer.Arena.constructor | src/infer.rs:3-14 | a fresh arena holds no cells and the given payload check |
| Infer.Arena.Concrete | src/infer.rs:33-39 | `concrete` panics exactly when the end of the alias chain is `Any`; otherwise it is that cell's payload; it never returns `Err` |
| Infer.Arena.NewAny | src/infer.rs:21-23 | `any()` appends one `Any` cell, and `concrete` on it panics |
| Infer.Arena.NewKnown | src/infer.rs:24-26 | `known_with_args` appends one `Known` cell with the given payload and children, and `concrete` on it gives the payload |
| Infer.Arena.NewKnownLeaf | src/infer.rs:27-29 | `known(t)` appends a `Known` cell with no children, and `concrete` on it gives `t` |
| Infer.Arena.Alloc | src/infer.rs:21-29 | a new cell is appended at the next handle and nothing else changes |
| Infer.UnifyResult | src/infer.rs:42-84 | `unify` never returns `Err`, since no arm makes one and `?` only passes one on; on success both given cells hold the result; cells are only appended, and every handle stays in the arena |
| Infer.UnifiedResult | src/infer.rs:46-80 | the unified content of two distinct cells is never `Err`, and on success refers only to cells of the arena |
| Infer.UnifyArgsResult | src/infer.rs:72-76 | the args loop, on success, gives one handle per argument pair, each a cell the loop itself appended |
| Infer.UnifyFuelMonotone | src/infer.rs:42-84 | fuel only cuts the recursion short: an outcome other than a panic at some fuel is the same outcome, over the same arena, at every larger fuel, so it is what the unbounded `unify` returns |
| Infer.UnifiedFuelMonotone | src/infer.rs:46-80 | the same for the content computed for two distinct cells |
| Infer.ArgsFuelMonotone | src/infer.rs:72-75 | the same for the loop over the args |
| Infer.UnifyFrame | src/infer.rs:42-84 | a cell that no other cell holds, and is neither given handle, is neither written nor newly held by `unify` |
| Infer.UnifiedFrame | src/infer.rs:46-80 | the same frame for the unified content of two distinct cells |
| Infer.ArgsFrame | src/infer.rs:72-76 | the same frame for the args loop |
| Infer.ArgsChildren | src/infer.rs:72-76 | each fresh child holds exactly what unifying its argument pair gave, in the arena the earlier pairs left |
| Infer.ChaseStep | src/infer.rs:50-61 | an alias on the `a` side is chased first, then one on the `b` side; the result is the target's unification, written back into both given cells |
| Infer.DirectArms | src/infer.rs:63-83 | for two non-alias cells: Any×Any makes both alias one fresh `Any`; Any×Known in either order copies the known cell into both; a rejected payload pair or unequal arity panics and writes nothing; two accepted known cells give `a`'s payload over the fresh children, written into both |
| Infer.ChasedArms | src/infer.rs:50-83 | the same arms for any two handles of different alias classes, stated on their terminal cells, with every cell of both alias chains overwritten with the result |
| Infer.Arena.Chase | src/infer.rs:50-61 | `unify` on two handles of different alias classes is `unify` on their terminal cells, with the result written into every cell of both chains |
| Infer.Arena.ChaseSame | src/infer.rs:43-61 | two handles of one alias class unify, allocate nothing and leave their terminal cell as it was |
| Infer.UnifyWithOwnTarget | src/infer.rs:50-64 | an alias unified with the `Any` cell it points at gives `Any` in both cells: the alias is dropped |
| Infer.AliasThenRefine | src/infer.rs:50-64 | two unknown cells unified alias one fresh unknown cell; unifying the first with a known cell then fills that shared cell through the alias, and the second handle still aliases it |
| Infer.NestedUnify | src/infer.rs:66-83 | two known cells whose single children are distinct equal leaves unify; the result keeps the payload over one fresh child, which holds the unified leaf |
| Infer.Arena.Unify | src/infer.rs:42-84 | the arena afterwards and the outcome are exactly `UnifyResult` on the arena before; on success the two cells agree under `concrete`; acyclicity is kept |
| Infer.Arena.Unified | src/infer.rs:46-80 | the arena afterwards and the outcome are exactly `UnifiedResult` on the arena before |
| Infer.Arena.Overwrite | src/infer.rs:81-83 | both cells are overwritten with the unified content, and afterwards `concrete` agrees on them |
| Infer.Arena.UnifyArgs | src/infer.rs:72-76 | the arena afterwards and the outcome are exactly `UnifyArgsResult` on the arena before |
| Types.UnifyInt | src/ty.rs:93-103 | `Any` absorbs in both orders; two fixed ints unify iff they are equal; a mismatch is `Err`, never a panic |
| Types.UnifyIntIsMeet | src/ty.rs:93-103 | the result is the most general int type that refines both inputs, and on failure no int type refines both |
| Types.UnifyIntCommutes | src/ty.rs:93-103 | int unification does not depend on argument order |
| Types.ConcreteInt | src/ty.rs:104-109 | a fixed int is returned unchanged, and `Any` defaults to signed 32-bit |
| Types.ConcreteIntAfterUnify | src/ty.rs:93-109 | after a successful merge with a fixed int, `concrete` gives that int |
| Types.UnifyTy | src/ty.rs:68-78 | `Any` is a two-sided identity; `Bool`×`Bool` is `Bool`; `Ref`, `Int` and `Struct` pairs succeed exactly when the engine call on their children does; every other pairing is `Err`; a result is one of the inputs, of the same kind as `a` |
| Types.UnifyTyAnyIdentity | src/ty.rs:70-71 | `Any`×`t` and `t`×`Any` both give `t` |
| Types.ConcreteOf | src/ty.rs:79-87 | `Any` has no concrete type; `Bool` is `Bool`; `Ref`, `Int` and `Struct` are concrete exactly when their child is |
| Types.ConcreteAfterUnifyTy | src/ty.rs:68-87 | when the engine has made the children agree, the merged type and both inputs have the same concrete type |
| Types.FindField | src/ty.rs:122-129 | the position of the first declared field with that name, or none when no field has it |
| Types.UnifyNominalWithFields | src/ty.rs:122-129 | a nominal struct against a field map succeeds iff every required field exists and unifies with its declared type; the result is the nominal struct; a failure is the outcome of some required field |
| Types.UnifyFieldMaps | src/ty.rs:130-138 | two field maps succeed iff every shared key's types unify; the key set of the result is the union, and a shared key keeps `a`'s reference |
| Types.UnifyStruct | src/ty.rs:115-140 | two nominal structs succeed, giving the left one, iff the names agree; nominal against fields in either order yields the nominal struct; fields against fields merges the maps |
| Types.ConcreteFields | src/ty.rs:141-149 | the concrete field list exists iff every field type is concrete; names and order are kept |
| Types.ConcreteStruct | src/ty.rs:141-149 | a nominal struct is concrete iff every field type is; it keeps its name and its fields in order, each with its concrete type; a field map has no concrete form |
| Types.IntMismatch | src/infer.rs:66-70 | unifying two known cells with different fixed ints aborts |
| Types.IntMatch | src/infer.rs:66-83 | unifying two equal fixed ints succeeds, and `concrete` gives that int |
| Types.PayloadKeptFromLeft | src/infer.rs:76 | the engine keeps `a`'s payload: `Any` merged with a fixed int stays `Any` and defaults to signed 32-bit |
| Types.UnresolvedAfterAliasing | src/infer.rs:63 | after Any×Any both cells alias a fresh cell, and `concrete` on either still panics |
| Types.RefinementSeenThroughAlias | src/infer.rs:50-83 | after Any×Any, unifying one handle with a known `i8` makes `concrete` on the other handle give `i8` |
| Grammar.EatOrErr | src/parser.rs:47-56 | on a matching kind, gives that token and advances by one; on another kind, an error carrying the current token; past the end, a panic |
| Grammar.InfixOfLevels | src/parser.rs:22-29 | an operator is taken iff its level is at most the current one; `Ref` < `Product` < `Sum` < `Compare` < `Bracket`, and no operator is taken at `Ref` |
| Grammar.ParseExpr | src/parser.rs:69-116 | a parsed expression consumes at least one token and stops before a token that is not an operator admitted at the current level |
| Grammar.ParsePrefix | src/parser.rs:117-121 | a prefix expression wraps its operand with the operator read |
| Grammar.ParseInfix | src/parser.rs:122-130 | an infix expression keeps the left operand and the operator read |
| Grammar.ArgsListShape | src/parser.rs:57-68 | the argument list is empty exactly when the first token is `)`; the terminator is always consumed |
| Grammar.ArgsMissingTerminator | src/parser.rs:57-68 | after an item, a token that is neither separator nor terminator is an error carrying that token |
| Grammar.ArgsRest | src/parser.rs:61-66 | the list only grows, and it ends after a consumed `)` |
| Grammar.ParamsRest | src/parser.rs:61-66 | the parameter list only grows from the items already parsed, and it ends after a consumed `)` |
| Grammar.ParamsListShape | src/parser.rs:57-68 | the parameter list is empty exactly when the first token is `)`; the terminator is always consumed |
| Grammar.ParamsMissingTerminator | src/parser.rs:57-68 | after a parameter, a token that is neither separator nor terminator is an error carrying that token |
| Grammar.SameLevelNestsRight | src/parser.rs:104-130 | the right operand is parsed at the operator's own level, so a same-level chain nests to the right |
| Grammar.SubtractionNestsRight | src/parser.rs:104-130 | `a - b - c` parses as `a - (b - c)` |
| Grammar.ProductBindsTighter | src/parser.rs:104-130 | `a + b * c` parses as `a + (b * c)` |
| Grammar.ProductBindsTighterLeft | src/parser.rs:104-130 | `a * b + c` parses as `(a * b) + c` |
| Grammar.PrefixOperandIsAtom | src/parser.rs:71-72 | the operand of a prefix `*` or `&` is exactly one atom |
| Grammar.ParenSkipsNextToken | src/parser.rs:95-101 | a parenthesised expression consumes `(`, the expression, `)` and one further token |
| Grammar.ParenthesisedOperandDropsOperator | src/parser.rs:95-101 | so `(a) + b` parses as `a`, ending before `b` |
| Grammar.ParseTyShape | src/parser.rs:223-234 | `n` ampersands then a name give a type of `Ref` depth `n` on that name; any other token there is an error carrying it |
| Grammar.ParseAssignShape | src/parser.rs:146-157 | `n` stars then a name give an assignment target of `Deref` depth `n` on that name; any other token there is an error carrying it |
| Grammar.VarStmtShape | src/parser.rs:170-188 | a `var` statement is `var` and a name; it has a declared type iff `:` follows, and that type is what `parse_ty` reads after it; it has an initialiser iff `=` follows the type part, and that initialiser is the expression read after it; `;` comes right after, and the statement ends there |
| Grammar.ReturnStmtShape | src/parser.rs:189-198 | a `return` statement has no value exactly when `;` follows, and always ends in `;` |
| Grammar.ElsePart | src/parser.rs:134-138 | without `else` nothing is consumed |
| Grammar.ElseIfRejected | src/parser.rs:131-145 | `else if` is an error carrying the second `if` |
| Grammar.BlockStmts | src/parser.rs:235-243 | a block ends after a consumed `}` |
| Grammar.FnTail | src/parser.rs:254-272 | the function keeps the name and `extern` flag read before its parameters |
| Grammar.FnDecl | src/parser.rs:251-272 | a function after its optional `extern` consumes at least `fn`, the name and `(` |
| Grammar.OptionalBody | src/parser.rs:267-271 | without a body nothing is consumed, and another token must follow |
| Grammar.BodilessFnNeedsFollower | src/parser.rs:267-271 | a function without a body parses only when another token follows it |
| Grammar.ParseFns | src/parser.rs:3-14 | `parse` consumes every token or fails, and keeps the functions in order |
| Parsing.Parser.Next | src/parser.rs:39-43 | gives the current token and advances by one; past the end, a panic |
| Parsing.Parser.Peek | src/parser.rs:44-46 | gives the current kind without moving; past the end, a panic |
| Parsing.Parser.UnexpectedToken | src/parser.rs:54-56 | an error carrying the current token |
| Parsing.Parser.EatOrErr | src/parser.rs:47-53 | agrees with `Grammar.EatOrErr`, and the cursor does not move on an error |
| Parsing.Parser.ParseArgs | src/parser.rs:57-68 | `parse_list` over call arguments agrees with `Grammar.ParseArgs` |
| Parsing.Parser.ParseArgsRest | src/parser.rs:61-66 | the separator loop over call arguments, then the terminator, agrees with `Grammar.ArgsRest` |
| Parsing.Parser.ParseExpr | src/parser.rs:69-116 | agrees with `Grammar.ParseExpr` |
| Parsing.Parser.ParseOperand | src/parser.rs:71-102 | agrees with `Grammar.ExprAtom` |
| Parsing.Parser.ParseNameOrCall | src/parser.rs:74-83 | a name, or a call when `(` follows, agrees with `Grammar.NameOrCall` |
| Parsing.Parser.ParseParen | src/parser.rs:95-101 | a parenthesised expression agrees with `Grammar.ParenExpr` |
| Parsing.Parser.ParsePrefix | src/parser.rs:117-121 | agrees with `Grammar.ParsePrefix` |
| Parsing.Parser.ParseInfix | src/parser.rs:122-130 | agrees with `Grammar.ParseInfix` |
| Parsing.Parser.ParseIf | src/parser.rs:131-145 | agrees with `Grammar.ParseIf` |
| Parsing.Parser.ParseElse | src/parser.rs:134-143 | the optional `else` agrees with `Grammar.ElsePart` |
| Parsing.Parser.ParseAssign | src/parser.rs:146-157 | agrees with `Grammar.ParseAssign` |
| Parsing.Parser.ParseStmt | src/parser.rs:158-222 | agrees with `Grammar.ParseStmt` |
| Parsing.Parser.ParseWhile | src/parser.rs:164-169 | the `while` arm agrees with `Grammar.ParseWhile` |
| Parsing.Parser.ParseVar | src/parser.rs:170-188 | the `var` arm agrees with `Grammar.ParseVar` |
| Parsing.Parser.ParseOptionalTy | src/parser.rs:174-179 | the optional `:` and type agrees with `Grammar.OptionalTy`; a function's return type (lines 261-266) is read the same way |
| Parsing.Parser.ParseOptionalInit | src/parser.rs:180-185 | the optional `=` and initialiser agrees with `Grammar.OptionalInit` |
| Parsing.Parser.ParseReturn | src/parser.rs:189-198 | the `return` arm agrees with `Grammar.ParseReturn` |
| Parsing.Parser.ParseIdentStmt | src/parser.rs:199-211 | the call-or-assignment arm agrees with `Grammar.ParseIdentStmt` |
| Parsing.Parser.ParseDerefAssign | src/parser.rs:212-218 | the `*` assignment arm agrees with `Grammar.ParseDerefAssign` |
| Parsing.Parser.ParseTy | src/parser.rs:223-234 | agrees with `Grammar.ParseTy` |
| Parsing.Parser.ParseBlock | src/parser.rs:235-243 | agrees with `Grammar.ParseBlock` |
| Parsing.Parser.ParseParams | src/parser.rs:255-260 | `parse_list` over parameters agrees with `Grammar.ParseParams` |
| Parsing.Parser.ParseParamsRest | src/parser.rs:61-66 | the separator loop over parameters, then the terminator, agrees with `Grammar.ParamsRest` |
| Parsing.Parser.ParseParam | src/parser.rs:255-259 | one parameter, a name, `:` and a type, agrees with `Grammar.ParseParam` |
| Parsing.Parser.ParseFn | src/parser.rs:244-273 | agrees with `Grammar.ParseFn` |
| Parsing.Parser.ParseFnDecl | src/parser.rs:251-272 | agrees with `Grammar.FnDecl` |
| Parsing.Parser.ParseFnTail | src/parser.rs:254-272 | the parameter list, return type and body after the name agree with `Grammar.FnTail` |
| Parsing.Parser.ParseOptionalBody | src/parser.rs:267-271 | the optional body agrees with `Grammar.OptionalBody` |
| Parsing.Parse | src/parser.rs:3-14 | `parse` returns what `Grammar.ParseFns` gives from the first token |
| Qbe.SizeBytes | src/qbe.rs:28-39 | no type is wider than 8 bytes |
| Qbe.AlignIsSize | src/qbe.rs:41-52 | the alignment of every type equals its size, and is at most 8 |
| Qbe.AllocAlign | src/qbe.rs:141-151 | `alloc4` up to alignment 4, `alloc8` up to 8, `alloc16` up to 16, and a panic beyond |
| Qbe.AllocAlignReachable | src/qbe.rs:141-151 | since alignments are at most 8, only `alloc4` and `alloc8` are ever chosen |
| Qbe.BinaryOpcodeSelection | src/qbe.rs:200-216 | the opcode depends on signedness exactly for divide and the two comparisons; different operators never share an opcode |
| Qbe.LoadOpcode | src/qbe.rs:261-289 | an int load is `load` + `s` or `u` by signedness + a size letter |
| Qbe.LoadOpcodeInjective | src/qbe.rs:261-289 | the six int loads are distinct |
| Qbe.StoreIntOpcode | src/qbe.rs:241-260 | an int store is `store` + the size letter |
| Qbe.IntStoreLoadAgree | src/qbe.rs:241-289 | an int is stored and loaded at the same width |
| Qbe.LoadCode | src/qbe.rs:261-289 | `None` loads nothing and takes no temp; any other type takes one fresh temp and one load: `loadb` for Bool, the int table for Int, `loadl` for a pointer |
| Qbe.StoreCode | src/qbe.rs:241-260 | storing `None` panics; any other value is one store: `storeb` for Bool, by size for Int, `storew` for a pointer |
| Qbe.PointerStoreNarrowerThanLoad | src/qbe.rs:241-289 | an 8-byte pointer is stored with `storew` but loaded with `loadl` |
| Qbe.AllocCode | src/qbe.rs:141-152 | one fresh temp, one alloc of the type's size, and that temp appended to the stack slots |
| Qbe.ExprTempsFresh | src/qbe.rs:177-240 | the temps an expression defines are exactly the fresh ones, in increasing order |
| Qbe.BinaryResult | src/qbe.rs:189-223 | both operands are ints of one type; arithmetic gives an int of that type and a comparison a bool, held in the binary instruction's fresh temp |
| Qbe.AssignShape | src/qbe.rs:164-176 | the target panics exactly when its stack slot does not exist; otherwise one `loadl` per dereference, each in a fresh temp, and the address is the slot itself or the last temp |
| Qbe.StmtShape | src/qbe.rs:153-163 | an alloc statement appends one stack slot; an assignment ends in a store of the expression's value temp to the address its target computed, and panics on a `None` value |
| Qbe.StmtsStep | src/qbe.rs:111-113 | statements compile in order: a panic ends the block, otherwise the statement's code is appended |
| Qbe.StmtsAdvance | src/qbe.rs:111-113 | on compiler states: after the first `k` statements, compiling statement `k` either panics the whole block or gives the state after `k + 1` |
| Qbe.BranchShape | src/qbe.rs:114-138 | a branch ends in a terminator; a condition that is not a bool panics; a static branch is one jump |
| Qbe.BlockShape | src/qbe.rs:108-140 | a block starts with its label and ends in a terminator |
| Qbe.BlocksStep | src/qbe.rs:100-103 | blocks compile in order: a panic ends the function, otherwise the block's code is appended |
| Qbe.BlocksAdvance | src/qbe.rs:100-103 | on compiler states: after the first `k` blocks, compiling block `k` either panics the function or gives the state after `k + 1` |
| Qbe.ParamList | src/qbe.rs:79-87 | parameters of type `None` get no temp; the others get consecutive temps, with `l` for a pointer and `w` otherwise |
| Qbe.ParamListKeepsNonNone | src/qbe.rs:79-87 | the parameter list is exactly the non-`None` parameters, in order |
| Qbe.ParamValue | src/qbe.rs:91-99 | a parameter's value is in its own temp, and is `None` exactly for a `None` type |
| Qbe.PrologueDone | src/qbe.rs:91-99 | the prologue never panics on non-`None` parameters: each gets one stack slot, in order, the temp count moves past them, and the code has two instructions per parameter |
| Qbe.PrologueStores | src/qbe.rs:91-99 | instruction `2k` allocates parameter `k`'s slot as temp `count + k` with the type's size and its alignment rounded up to 4 or 8, and instruction `2k + 1` stores the parameter's own temp into that slot |
| Qbe.HeaderOf | src/qbe.rs:88-90 | the header lists every parameter with its letter and temp |
| Qbe.FunCode | src/qbe.rs:72-105 | compiled code starts with the header and the start label and ends with the closing brace |
| Qbe.FunHeaderParams | src/qbe.rs:72-105 | parameters take temps 0.., their slots the temps after them, and the function compiles iff its blocks do |
| Qbe.AssignTempsFresh | src/qbe.rs:164-176 | the loads of an assignment target define exactly the temps it took from `new_temp`, in increasing order |
| Qbe.StmtTempsFresh | src/qbe.rs:153-163 | a statement defines exactly the temps it took, in increasing order; the store defines none |
| Qbe.StmtsTempsFresh | src/qbe.rs:111-113 | the statements of a block together define exactly the temps they took, in increasing order |
| Qbe.BranchTempsFresh | src/qbe.rs:114-138 | a branch defines exactly the temps its expression took; the terminator defines none |
| Qbe.BlockTempsFresh | src/qbe.rs:108-140 | a block defines exactly the temps it took, in increasing order; its label defines none |
| Qbe.BlocksTempsFresh | src/qbe.rs:100-103 | the blocks compiled so far define exactly the temps they took, in increasing order |
| Qbe.PrologueTempsFresh | src/qbe.rs:91-99 | the prologue's allocs define exactly the temps they took; the stores define none |
| Qbe.FunTempsFresh | src/qbe.rs:72-105 | since `new_temp` only counts up, every temp a compiled function defines is numbered after the parameters' temps, and the defined temps are distinct and strictly increasing through the code |
| Qbe.FunDefs | src/qbe.rs:72-105 | the temps a compiled function defines are the consecutive counter values after the parameters' temps |
| Qbe.Compiler.constructor | src/qbe.rs:72-78 | a compiler starts with no slots, no temps and no output |
| Qbe.Compiler.NewTemp | src/qbe.rs:290-294 | returns the current count and increments it |
| Qbe.Compiler.AllocTy | src/qbe.rs:141-152 | emits and records what `AllocCode` gives |
| Qbe.Compiler.Load | src/qbe.rs:261-289 | emits what `LoadCode` gives |
| Qbe.Compiler.Store | src/qbe.rs:241-260 | emits what `StoreCode` gives, or panics with it |
| Qbe.Compiler.CompileAssign | src/qbe.rs:164-176 | emits what `AssignCode` gives |
| Qbe.Compiler.CompileExpr | src/qbe.rs:177-240 | emits what `ExprCode` gives |
| Qbe.Compiler.CompileBinary | src/qbe.rs:189-223 | emits what `ExprCode` gives for a binary expression: left operand, right operand, then the operation |
| Qbe.Compiler.CompileBinaryRight | src/qbe.rs:192-223 | after an int left operand, emits the right operand and the operation as `BinaryTail` gives them |
| Qbe.Compiler.EmitBinary | src/qbe.rs:200-222 | on two int values of one type, takes one fresh temp, emits one operation with the opcode `BinaryOpcode` picks, and gives an int of that type for arithmetic and a bool for a comparison |
| Qbe.Compiler.CompileStmt | src/qbe.rs:153-163 | emits what `StmtCode` gives |
| Qbe.Compiler.CompileStmts | src/qbe.rs:111-113 | emits what `StmtsCode` gives |
| Qbe.Compiler.CompileBranch | src/qbe.rs:114-138 | emits what `BranchCode` gives |
| Qbe.Compiler.CompileBlock | src/qbe.rs:108-140 | emits what `BlockCode` gives |
| Qbe.Compiler.CollectParams | src/qbe.rs:79-87 | builds the list `ParamList` gives and advances the temp count past it |
| Qbe.Compiler.CompilePrologue | src/qbe.rs:91-99 | emits what `PrologueCode` gives |
| Qbe.Compiler.CompileBlocks | src/qbe.rs:100-103 | emits what `BlocksCode` gives for every block in order |
| Qbe.CompileFun | src/qbe.rs:72-105 | the emitted function is exactly `FunCode` |

## Left out

- Writing text: `io::Write`, `writeln!` and `io::Result` in `src/qbe.rs`.
  Output is a sequence of instruction records with infallible writes. The
  `%v{n}`/`@l{n}` spelling of temps and labels, and the fixed function name
  `$test`, are not modelled.
- `Rc` reference counts and `RefCell` borrow panics. The arena replaces them.
- `HashMap` iteration order in `src/ty.rs`. Maps are Dafny `map`s. When a
  field merge fails, the model says only that the failure comes from some
  field, not which one comes first.
- The `token`, `ast`, `mir` and `symbols` modules are not part of this model.
  Tokens are a kind plus their text. `Token::as_str` is that text field.
  The AST and back-end datatypes follow the cases the code matches on.
- Temp numbers are unbounded. The `u32` wrap of `temp_count` is not
  modelled.
- `fun.blocks()` and `fun.get_block` come from the `mir` module, which is
  not part of this model. A function's blocks are a sequence, compiled in
  order, and a block's id is its position in that sequence (`BlocksCode`).
- Infer.Arena.Unify: recursion through aliases and children is bounded by a
  `fuel` argument, and running out of fuel aborts. An unbounded unification
  is not modelled. Fuel only cuts the recursion short: `UnifyFuelMonotone` proves that an outcome
  other than `Abort` is the same at every larger fuel. `unify` has no occurs check; a cell that comes to hold
  itself through its children is not excluded, and the model says nothing
  about it beyond what `UnifyResult` computes.
- Infer.Arena.Unified: its contract ties it exactly to `UnifiedResult`.
  What that function does arm by arm is stated by the lemmas `DirectArms`,
  `ChasedArms` and `Arena.Chase`, not in the method's `ensures`.
- Infer.Arena.UnifyArgs: its contract ties it exactly to `UnifyArgsResult`.
  What each fresh child holds is stated by the lemma `ArgsChildren`, not in
  the method's `ensures`.
- Types.UnifyNominalWithFields: the engine is a stateless `Engine` record, so the
  iff is proved only for field unifications that share no cells. In
  `src/ty.rs` the calls run on one arena, and an earlier field's
  unification can change what a later one sees. The `Engine` may also
  return `Err`, which the real engine never does.
- Types.UnifyFieldMaps: the same stateless `Engine` limit applies. The iff holds
  only when the shared-key unifications share no cells, and the `Engine`
  may return an `Err` the real engine never produces.
- Types.UnifyStruct: its field-based arms inherit the stateless `Engine` limit of
  `UnifyNominalWithFields` and `UnifyFieldMaps`.
- Types.UnifyTy: the engine calls on child references are a parameter
  (`Engine`). Their effect on the arena is not modelled here. The arena
  scenarios in `Types` exercise the engine on int payloads only.
- The commented-out `Display` impls in `src/ty.rs`.
- The signature drift between `src/ty.rs`, `src/infer.rs` and `src/qbe.rs`.
  One abstraction is chosen per file, as described above.
- `parse_list` takes a closure. It is modelled as two instantiations: call
  arguments (`ParseArgs`) and parameters (`ParseParams`).
- Reading a token past the end of the array panics in Rust. It is
  modelled as the `Abort`/`Panic` result, not excluded by a precondition.
- Behaviours modelled exactly as written, and stated as lemmas:
  - `else if` is rejected;
  - a parenthesised expression eats one extra token;
  - a pointer is stored with `storew` but loaded with `loadl`;
  - a bodiless function at the end of the input panics.
