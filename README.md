# pratt_parser in Dafny

A model of the arithmetic-expression parser `pratt_parser`: a tokenizer over a
character buffer (tlex.c), a region-chain bump allocator (arena.c), a
precedence-climbing ("Pratt") parser that builds its tree nodes in that arena
(pratt_parser.c), and the growable character array macro of include/da.h.

Modules, one per source file:

- `Tokens` (tokens.dfy): the `Token_type` enumeration and the `Token` record of include/tlex.h.
- `Tlex` (tlex.dfy): the tokenizer. `Scan` and `Tokenize` are the specification of one `peek_token`
  call and of a run of `next_token` calls. The class `Lexer` keeps the source's two cursors
  `start` and `cur` and runs the source's loops. `PeekToken`, `NextToken` and `Expect` are proved against
  `Scan` and `Tokenize`, and the loops of `Number` and `SkipWhitespace` against `DigitsEnd` and `SkipSpaces`.
- `Arena` (arena.dfy): the allocator. The chain `begin -> ... -> end` is a sequence of regions.
  A ghost list records the blocks handed out since the last reset.
  - `AllocOn` is the specification of one `arena_alloc`.
  - `ArenaOk` is the invariant that every allocation keeps: regions aligned and apart, and blocks inside their region's used prefix and apart from each other.
  - `AllocRun` is a run of allocations. Replaying, after a reset, a run that began on an empty chain (right after `arena_init` or `arena_reset`) retraces it without appending a region.
- `PrattParser` (pratt_parser.dfy): the binding-power tables and the tree type.
  - `ExprBp` and `Loop` specify `expr_bp` over a token sequence and a position.
  - The methods `ParseExpr` and `OperatorLoop` run `expr_bp` as the source does. They allocate one arena block per node, and are proved equal to that specification.
  - `Show` is the S-expression `print_tree` writes.
- `PrattProperties` (pratt_properties.dfy): what the parser guarantees.
  - The tree reads back as exactly the tokens consumed, and it holds one node per token.
  - The tree is nested as the precedence tiers and left associativity demand.
  - It stops only where the source's loop breaks.
  - It aborts exactly where the source exits.
- `PrattExamples` (pratt_examples.dfy): the text of the source's `main`,
  `-24 + 12 * 43 - 143 / 3`, tokenized and parsed to `(- (+ (- 24) (* 12 43)) (/ 143 3))`.
- `Da` (da.dfy): `Da_chars` as a class over an `array<char>`, and `DA_INSERT` with its growth rule.

Where the source calls `exit(-1)`, the model returns `Err`. The table lookups' unreachable
`default` cases are preconditions. Reading the token sequence past its end yields
end-of-input, as the tokenizer does once its text is exhausted.

The tokenizer produces tokens for `( ) [ ] ! ? : ;`, but `expr_bp` parses none of them.
- A term that opens with anything but a number, `+` or `-` aborts with "Expected a number or a prefix operator" (`ExpectedOperand` here).
- After a term, any token other than end-of-input or `+ - * /` aborts with "Expected a binary operator" (`ExpectedBinaryOperator` here).

## Model

| member | source | states |
|---|---|---|
| Tlex.SkipSpaces | tlex.c:60-64 | the cursor stops at the first character that is neither a space nor a newline, and every character passed over is one of the two |
| Tlex.DigitsEnd | tlex.c:52-55 | the cursor stops at the end of the longest run of decimal digits, every character passed over is a digit, and the character it stops on is not |
| Tlex.Scan | tlex.c:12-94 | one `peek_token`, with `make_token` and `error_token`. Its token starts after the skipped whitespace. It is EOF exactly at the end of the text, with length 0 and the cursor not moved. It is a number exactly when the first character is a digit, with the lexeme the maximal digit run. Otherwise it is one punctuation character with its table type and length 1, or an error token spanning one character that is neither a digit nor punctuation, whose lexeme is the message "Unexpected character." and whose `len` is the message's length. Every token cut from the text has lexeme `text[start..cur]` and `len == cur - start` |
| Tlex.Tokenize | tlex.c:96-100 | successive `next_token` calls yield a stream that ends with an EOF token and has no EOF before it |
| Tlex.Lexer.constructor | tlex.c:7-10 | `lexer_init` sets both cursors to the beginning of the text |
| Tlex.Lexer.Advance | tlex.c:33-37 | returns the character under the cursor and moves the cursor by one |
| Tlex.Lexer.Number | tlex.c:52-58 | the loop leaves `cur` at the end of the digit run and returns a number token over `[start, cur)` |
| Tlex.Lexer.SkipWhitespace | tlex.c:60-64 | the loop leaves `cur` where `SkipSpaces` says |
| Tlex.Lexer.PeekToken | tlex.c:12-94 | returns `Scan`'s token (built by `make_token` over `[start, cur)` or by `error_token`) for the old `start`, and leaves `start` past the whitespace and `cur` behind the token |
| Tlex.Lexer.NextToken | tlex.c:96-100 | returns what `PeekToken` would, and sets `start = cur` behind the token. The stream from the old `start` is this token followed by the stream from the new `start`, or just this token at EOF |
| Tlex.Lexer.Expect | tlex.c:102-109 | consumes exactly one token. `ok` is false exactly when its type differs from the requested one, which is where the source exits |
| Tlex.PeekTokenIdempotent | tlex.c:66-71 | rescanning from where a scan left `start` gives the same token and cursors, so repeated `peek_token` calls agree |
| Tlex.EofIsSticky | tlex.c:66-73 | once a scan yields EOF, scanning again from where it stopped yields EOF again |
| Tlex.PunctuationInjective | tlex.c:78-91 | no two characters of the punctuation switch map to the same token type |
| Arena.AlignForward | arena.c:25-34 | the result is the address rounded up to a multiple of 8: aligned, at least the input and less than 8 above it, and unchanged when the input is already aligned |
| Arena.AlignForwardIsLeast | arena.c:25-34 | no multiple of 8 lies between an address and its aligned value |
| Arena.AlignForwardShift | arena.c:61-66 | aligning the end of a block that starts at an aligned base is the base plus the aligned offset, so `used` stays aligned |
| Arena.FirstFit | arena.c:48-51 | the search stops at the first region, counted from `begin`, where `used + size <= capacity`, or past `end` when none fits |
| Arena.Emptied | arena.c:71-77 | after a reset every region has `used == 0`, and its buffer and capacity are unchanged |
| Arena.Searched | arena.c:5-59 | when no region fits, exactly one fresh region (`REGION_INIT`: the new buffer, capacity `REGION_INIT_CAP`, nothing used) is appended after `end`. The regions already in the chain are kept in order |
| Arena.AllocOn | arena.c:5-69 | the target is the first fit, or the appended region. The address returned is the target's `memory + used`, or the new region's buffer, and an appended region has capacity `REGION_INIT_CAP`. Only the target changes: it keeps its buffer and capacity, and its `memory + used` becomes the aligned end of the block (arena.c:66) |
| Arena.SearchedRegionsOk | arena.c:53-59 | appending a region keeps regions well formed and apart and keeps existing blocks in place. The target then has room for any request of at most `REGION_INIT_CAP` bytes |
| Arena.BumpOk | arena.c:61-67 | moving a region's cursor to the aligned end of a fitting block keeps `used` aligned and within the capacity (the assert at line 67) |
| Arena.AllocRegionsOk | arena.c:42-69 | after an allocation the returned address is 8-aligned (the assert at line 62), the regions are well formed and apart, and the block ends within the target's used prefix |
| Arena.AllocBlocksOk | arena.c:42-69 | the new block overlaps no block handed out before it, and all blocks stay inside their regions' used prefixes |
| Arena.AllocKeepsArenaOk | arena.c:42-69 | one allocation keeps the arena invariant and returns an aligned address |
| Arena.Arena.constructor | arena.c:5-21 | `arena_init` builds a chain of exactly one region that is both `begin` and `end`: the buffer obtained, capacity `REGION_INIT_CAP`, nothing used |
| Arena.Arena.FreshBase | arena.c:54-57 | the buffer a new region gets is 8-aligned and overlaps no existing region |
| Arena.Arena.Alloc | arena.c:42-69 | the search loop and the bump do what `AllocOn` says. The invariant is kept, the returned address is aligned, and the new block is recorded |
| Arena.Arena.Reset | arena.c:71-77 | the loop zeroes every cursor and keeps the chain otherwise. No block remains live |
| Arena.ResetAllocTakesBegin | arena.c:48-51 | after a reset the first region takes any request of at most `REGION_INIT_CAP`, so no region is appended |
| Arena.AllocRunKeepsRegions | arena.c:42-69 | a run of allocations keeps every region's buffer and capacity and only appends regions, each of capacity `REGION_INIT_CAP` |
| Arena.AllocOnFits | arena.c:48-69 | an allocation that finds room bumps the first region that fits and returns its old `memory + used` |
| Arena.ReplayFits | arena.c:48-69 | when a region of the chain fits, regions behind the chain do not change the allocation |
| Arena.ReplayAppends | arena.c:48-69 | when nothing in the chain fits, an empty region behind it at the buffer the allocation would obtain is taken in place of the appended one, with the same address and the same bump |
| Arena.ReplayRun | arena.c:42-77 | a run of allocations replayed on its starting chain followed by the emptied regions it appends yields the same chain and the same addresses |
| Arena.ResetReplayAppendsNothing | arena.c:42-77 | after a run that began on an empty chain, `arena_reset` and the same sequence of sizes again returns the same addresses, ends on the same chain and appends no region |
| PrattParser.PrefixBindingPower | pratt_parser.c:47-55 | the operand power of a prefix `+`/`-` exceeds the left power of every binary operator |
| PrattParser.InfixBindingPower | pratt_parser.c:57-67 | every binary operator's left power is below its right power (left associativity) |
| PrattParser.DigitPrefix | pratt_parser.c:101 | `strtol` reads the maximal run of leading decimal digits |
| PrattParser.TokenAt | pratt_parser.c:117-119 | any token other than end-of-input is a token of the stream at that position |
| PrattParser.ExprBp | pratt_parser.c:94-114 | a successful `expr_bp` consumes at least one token and stays within the stream |
| PrattParser.Loop | pratt_parser.c:116-140 | the operator loop never moves backwards and stays within the stream |
| PrattParser.ParseExpr | pratt_parser.c:94-141 | `expr_bp` with its arena. The result is `ExprBp`'s. The arena invariant is kept, and exactly one node-sized block is allocated per node of the returned tree |
| PrattParser.NewNode | pratt_parser.c:96 | one `arena_alloc(&nodes_arena, sizeof(Node))` leaves the chain as `AllocOn` gives it (first fit from `begin`, else a fresh region after `end`), returns the address of the node-sized block it records, keeps the arena invariant and returns an aligned address |
| PrattParser.ParseOperand | pratt_parser.c:131-132 | the right-hand side is `ExprBp`'s result, and one block per node of it plus one for the infix node that joins it is allocated |
| PrattParser.OperatorLoop | pratt_parser.c:116-140 | the `while(1)` loop computes `Loop`'s result and allocates one node-sized block per infix node it builds |
| PrattParser.NatToString | pratt_parser.c:145 | `%ld` writes at least one character, and all of them are decimal digits |
| PrattProperties.NatToStringValue | pratt_parser.c:145 | the digits `%ld` writes for a natural number are its decimal representation: their value is the number |
| PrattProperties.LeafPrintRoundTrip | pratt_parser.c:101-145 | `strtol` on what `print_tree` writes for a leaf of a natural number gives that number back |
| PrattProperties.BindingPowerTiers | pratt_parser.c:47-67 | both tiers are left associative. The multiplicative tier starts above where the additive tier ends. Prefix operators bind tighter than any infix operator, and `+` and `-` share one prefix power |
| PrattProperties.NodeTypeCharRoundTrip | pratt_parser.c:69-92 | the character printed for the node a binary operator builds is read back by the tokenizer as that operator |
| PrattProperties.PrefixCharRoundTrip | pratt_parser.c:82-92 | the characters printed for the prefix nodes are read back as `+` and `-` |
| PrattProperties.StrtolOfDigits | pratt_parser.c:101 | on a string of digits `strtol` reads the whole string |
| PrattProperties.NumberTokenValue | pratt_parser.c:99-102 | a number token from the tokenizer has a non-empty all-digit lexeme, so its leaf holds the value of all its digits |
| PrattProperties.FlattenLength | pratt_parser.c:143-161 | the infix reading of a tree has one symbol per node |
| PrattProperties.OpTokenOfNodeType | pratt_parser.c:69-80 | the node type built from a binary operator stands for that operator again |
| PrattProperties.FlattenJoin | pratt_parser.c:131-137 | an infix node built from a left-hand side, an operator and a right-hand side reads back as their three token runs, in order |
| PrattProperties.ExprBpFlattens | pratt_parser.c:94-141 | the returned tree, read in infix order, is exactly the tokens consumed, in order, with numbers as their values |
| PrattProperties.LoopFlattens | pratt_parser.c:116-138 | each iteration of the operator loop extends the left-hand side with an operator and a right-hand side, and these are exactly the tokens consumed |
| PrattProperties.NodeCountIsTokensConsumed | pratt_parser.c:94-137 | the parser allocates exactly one node per token it consumes |
| PrattProperties.LbpOfNodeType | pratt_parser.c:57-80 | the binding power read off a node type is the left power of the operator that built it |
| PrattProperties.ExprBpNested | pratt_parser.c:94-141 | every returned tree is nested as the tables demand. Prefix signs take no infix node, same-tier chains lean left, and a right child binds strictly tighter. The root binds at least as tightly as the floor. Parsing stops only at end-of-input or before an operator below the floor |
| PrattProperties.LoopNested | pratt_parser.c:116-138 | the operator loop keeps that nesting, given a left-hand side that the operator ahead does not out-bind |
| PrattProperties.OperandErrorFound | pratt_parser.c:94-141 | every "Expected a number or a prefix operator" abort of `expr_bp` names a token that is not a number, `+` or `-` |
| PrattProperties.LoopOperandErrorFound | pratt_parser.c:116-138 | the same holds for the aborts that come out of the operator loop's right-hand sides |
| PrattProperties.LeadTermRequired | pratt_parser.c:98-114 | `expr_bp` aborts with "Expected a number or a prefix operator" on the token where the term should open exactly when that token is not a number, `+` or `-` |
| PrattProperties.LoopDecisions | pratt_parser.c:116-128 | the loop returns its left-hand side at end-of-input and before an operator below the floor, and aborts on any other non-operator token |
| PrattProperties.SameTierGroupsLeft | pratt_parser.c:57-67 | `a o1 b o2 c` with operators of one tier parses as `(o2 (o1 a b) c)` |
| PrattProperties.HigherTierNestsRight | pratt_parser.c:57-67 | `a + b * c` (any additive then multiplicative operator) parses as `(+ a (* b c))` |
| PrattProperties.LowerTierClosesLeft | pratt_parser.c:57-67 | `a * b + c` parses as `(+ (* a b) c)` |
| PrattProperties.PrefixTakesOperandOnly | pratt_parser.c:103-110 | `-a o b` parses as `(o (- a) b)`: the sign takes only the number behind it |
| PrattProperties.MissingOperandAborts | pratt_parser.c:111-113 | `a o` with nothing after the operator aborts on the end-of-input token |
| PrattExamples.MainShape | pratt_parser.c:94-140 | any stream shaped like `main`'s expression, whatever its numbers, parses as `(- (+ (- a) (* b c)) (/ d e))` and consumes every token before end-of-input |
| PrattExamples.ThreeDigitValue | pratt_parser.c:101 | the digits `143` have the value 143 |
| PrattExamples.MainValuesLeft | pratt_parser.c:101 | `strtol` reads 24, 12 and 43 from the lexemes `24`, `12` and `43` |
| PrattExamples.MainValuesRight | pratt_parser.c:101 | `strtol` reads 143 and 3 from the lexemes `143` and `3` |
| PrattExamples.MainTokenize | tlex.c:96-100 | the `next_token` calls on `main`'s text `-24 + 12 * 43 - 143 / 3` yield the tokens `-`, `24`, `+`, `12`, `*`, `43`, `-`, `143`, `/`, `3` and end-of-input, with their lexemes and lengths |
| PrattExamples.MainTokensParse | pratt_parser.c:94-140 | those tokens parse to `(- (+ (- 24) (* 12 43)) (/ 143 3))`, with every token but end-of-input consumed |
| PrattExamples.MainExample | pratt_parser.c:166-169 | `expr_bp(&lexer, 0)` on the text `main` hands to `lexer_init` returns `(- (+ (- 24) (* 12 43)) (/ 143 3))` and consumes every token but end-of-input |
| PrattExamples.MainPrintedSum | pratt_parser.c:143-161 | `print_tree` writes the left operand of the outer `-` as `(+ (- 24) (* 12 43))` |
| PrattExamples.MainPrintedQuotient | pratt_parser.c:143-161 | `print_tree` writes the right operand of the outer `-` as `(/ 143 3)` |
| PrattExamples.MainPrinted | pratt_parser.c:143-161 | `print_tree` writes that tree as `(- (+ (- 24) (* 12 43)) (/ 143 3))` |
| Da.GrownCapacity | include/da.h:10-14 | the capacity never shrinks. It is unchanged when there is room. After growth there is room for one more element |
| Da.GrowthKeepsShape | include/da.h:10-14 | starting from 0, the capacity is always 0 or 32 times a power of two |
| Da.InsertKeepsCompact | include/da.h:13-19 | a buffer grown past 32 stays below twice its element count |
| Da.DaChars.constructor | include/da.h:3-7 | a zero-initialised `Da_chars` has no elements and no capacity |
| Da.DaChars.Insert | include/da.h:11-20 | `count <= capacity` is kept, the capacity follows `GrownCapacity`, and the contents become the old contents followed by `el`. The old elements survive growth, and the buffer is replaced only when it grows |

## Left out

- `arena_free` (arena.c:79-90) and `DA_FREE` (include/da.h:22) only release memory to the system allocator.
- The allocation-failure asserts at arena.c:8 and include/da.h:16 are not modelled. They are about the system allocator.
- Arena.Arena.Alloc: takes the buffer a new region would get as the parameter `newBase`. It requires that buffer to be 8-aligned and apart from every region, which is what `malloc` promises. The parser supplies `FreshBase()`.
- Arena.Arena.Alloc: a request larger than `REGION_INIT_CAP` is a precondition. The source appends a region and then fails the assert at arena.c:67.
- Arena.AlignForward: addresses are unbounded naturals, so the 64-bit wrap-around of `uintptr_t` arithmetic near the top of the address space is not modelled.
- Tlex.Lexer: the `peek(lexer) == EOF` test at tlex.c:45 depends on whether `char` is signed. Only the NUL terminator (the end of the string here) ends the text.
- PrattParser.DigitPrefix: `strtol`'s overflow of `long` is not modelled. Values are unbounded integers.
- PrattParser.ParseExpr: pulls tokens from the sequence `Tlex.Tokenize` yields, plus a position, not from a `Lexer` object. `Tlex.Lexer.NextToken` states that the two agree. `expr_bp` allocates the lead node before it inspects the token, and the model does too.
- PrattParser.ParseExpr: the arena model records the address and size of every block, not the bytes written into it. The tree is a value (`Node`), so aliasing between nodes is not modelled.
- PrattParser.NODE_SIZE: `sizeof(Node)` is taken as 24, its size on a 64-bit target.
- `main` and the `printf` calls of `print_tree` (pratt_parser.c:143-173) are console output. `Show` is the string they write.
- include/option.h has no behaviour to verify. The root tlex.h is an older copy of include/tlex.h and is not used. include/arena.h holds only declarations and `REGION_INIT_CAP`.
- Tlex.Scan: the text is a sequence of `char`, and each `char` stands for one byte of the C buffer. A character outside ASCII, which UTF-8 encodes in several bytes, gives one error token here but one per byte in tlex.c. The parser aborts at the first error token either way.
