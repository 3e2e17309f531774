# QASM circuit parser and lexer, modelled in Dafny

The repository turns OpenQASM programs into circuit graphs. This project
models its two front-end components and proves properties about them.

- **`QASM_Parser`** (parser/parser_qasm.py). `get_bits` reads the
  `qreg`/`creg` declarations into a table of bits named `q0, q1, …` and
  `c0, c1, …`. `get_gates` then goes through the instruction lines. Each
  gate line gets a gate `g_k`. The parser adds an edge to that gate from the
  last gate that wrote each operand, or from the bit itself if no gate has
  written it yet. After every line that makes a gate, a copy of the circuit
  graph is stored under the line counter.
- **The lexer** (qasm_parser.py). `strip_comments` removes block comments
  and then line comments. The `tokenize` generator splits text into typed
  tokens using the `TOKEN_RE` alternation, `TYPE_MAP` and `KEYWORDS`.
  `collect_declared_identifiers` lists the names declared after `qreg`,
  `creg`, `qubit`, `bit`, `gate` and `opaque`, without duplicates and in
  order of first appearance.

Layout:

| file | module | contents |
|---|---|---|
| wrappers.dfy | `Wrappers` | `Option`, `Result` |
| text.dfy | `Text` | the Python string operations both components use: `str.isspace`, `strip`/`rstrip`, `split(sep)`, `split('//')[0]`, `re.split` on a character class, `startswith`, and decimal rendering and parsing |
| parser_qasm_spec.dfy | `ParserQasmSpec` | `get_bit_info`, `get_bits` and `get_gates` as functions on values |
| parser_qasm_proofs.dfy | `ParserQasmProofs` | lemmas about those functions |
| parser_qasm.dfy | `ParserQasm` | class `QasmParser`: the same passes, run by updating its fields in place |
| qasm_lexer_spec.dfy | `QasmLexerSpec` | `strip_comments`, the `TOKEN_RE` matcher, the scan, `_next_id` and the collected dict, as functions |
| qasm_lexer_proofs.dfy | `QasmLexerProofs` | lemmas about them |
| qasm_lexer.dfy | `QasmLexer` | the loops of `tokenize` and `collect_declared_identifiers` as methods |

### How the model represents the source

**Imperative code becomes imperative Dafny.** The parser class and the two
lexer loops are written as methods. Each method's `ensures` states that its
result, or its new state, equals a specification function. The lemmas
about that function therefore also hold for the method.

**Python dict order.** `self.bits` becomes a map plus an insertion-order
list (`bitOrder`). Re-declaring an existing key replaces its value but keeps
its position, as a Python dict does.

**Shared bit dicts in snapshots.** Each bit node in `current_graph` is the
same dict object as the entry in `self.bits`. So a snapshot shows every
bit's `last_gate_connected` as it is when the snapshot is taken. The model
stores the graph's bits as keys (`graphBits`) and looks them up at snapshot
time.

**State after an exception.** When a pass raises, the model keeps the state
as it was at that moment. A `KeyError` on an undeclared operand comes after
the gate has been appended and the counter bumped, and the model keeps both.

**Regular expressions.** Each regular expression is written out as the
matcher it denotes. `\d` and `\w` are read as their ASCII sets, and
`[a-zA-Z]` is the ASCII letters, as in Python.
`\s`, `str.strip` and `str.isspace` use Python's exact whitespace set.

**The lexer's matcher and typing are parameters.** `TokenizeWith` takes the
matcher (`TOKEN_RE.match`) and the typing of a match as arguments.
`Tokenize` passes in the real ones.

## Behaviour of the code worth knowing

The model follows parser/parser_qasm.py as written, apart from what
"## Left out" lists. That includes places where a reader of an OpenQASM
program might expect something else:

- **`measure` lines make no gate.** A line such as `measure q[1] -> c[0];`
  splits into four tokens. The parser counts it but makes no gate, so it
  stores no snapshot for it (`ParserQasmProofs.FourTokenLineHasNoShape`).
  For the program

  ```
  qreg q[2];
  creg c[1];
  h q[0];
  cx q[0],q[1];
  measure q[1] -> c[0];
  ```

  the stored keys are `{0, 1, 2}`: 0 for the declarations, 1 for `h` and
  2 for `cx`. The `measure` line stores nothing.
- **Snapshot keys count lines, not gates.** A snapshot is stored under the
  number of counted lines so far. That number includes counted lines that
  made no gate (`ParserQasmProofs.GetGatesKeys`).
- **Bit ids use fixed prefixes.** Bit ids use the prefixes `q` and `c`, not
  the register's name. An operand on a register with any other name,
  including `qr` or `cr`, never names a declared bit
  (`ParserQasmProofs.ForeignRegisterFails`).

## Model

| member | source | states |
|---|---|---|
| ParserQasmProofs.GetBitInfoIff | parser/parser_qasm.py:4-11 | `get_bit_info` returns `(letter, number)` exactly when the argument starts with one or more ASCII letters followed by `[digits]`. Whatever follows the `]` is ignored. |
| ParserQasmProofs.GetBitInfoNoneIff | parser/parser_qasm.py:4-11 | It returns `(None, None)` exactly when no such prefix exists. |
| ParserQasmProofs.GetBitInfoSound | parser/parser_qasm.py:5-9 | The parts it returns are a letters-then-digits reference at the start of the argument. |
| ParserQasmProofs.GetBitInfoComplete | parser/parser_qasm.py:5-9 | Any `letters[digits]` followed by any tail gives back exactly those letters and digits. |
| ParserQasm.QasmParser.constructor | parser/parser_qasm.py:14-20 | A new parser has counter 0, no gates, no bits, no links and no snapshots, and keeps the file it was given. |
| ParserQasm.QasmParser.GetBits | parser/parser_qasm.py:22-50 | After `get_bits`, the table is what the declaration pass computes from the old table and the text. It returns the bits, or the error the pass raised. Gates, links, counter and snapshots are unchanged. |
| ParserQasm.QasmParser.DeclareLine | parser/parser_qasm.py:26-49 | One line of `get_bits` updates the table and `num_qubits` as `DeclLine` says. Only the table changes. |
| ParserQasm.QasmParser.DeclareBits | parser/parser_qasm.py:36-40 | The loop over `range(n)` writes the bits `prefix0 … prefix(n-1)` into the table. |
| ParserQasmProofs.DeclLineDeclares | parser/parser_qasm.py:32-49 | A matching `qreg name[n]` line declares `q0 … q(n-1)` as fresh qubits; a matching `creg` line declares `c0 … c(n-1)` as fresh classical bits. It raises nothing. Other keys keep their values. The order list gains exactly the keys that were new. |
| ParserQasmProofs.UnmatchedQregLine | parser/parser_qasm.py:32-36 | A `qreg` line the pattern does not match reuses the `num_qubits` of an earlier line. If there was none, it raises the unbound-local error. |
| ParserQasmProofs.DeclareOrder | parser/parser_qasm.py:36-49 | Declaring appends to the insertion order only the keys not already in the table. |
| ParserQasmProofs.DeclareKeys | parser/parser_qasm.py:36-49 | After a declaration, the table's keys are the old keys plus `prefix0 … prefix(n-1)`. |
| ParserQasmSpec.DeclLinesKeepsValid | parser/parser_qasm.py:26-49 | The declaration pass keeps the table consistent: each bit's id is its key, and the order list holds each key once. |
| ParserQasmProofs.GetBitsUndriven | parser/parser_qasm.py:32-49 | After `get_bits` on a fresh parser, every bit is keyed `q<digits>` or `c<digits>` to match its type, is named after its id, and has no last gate. |
| ParserQasmSpec.SearchDecl | parser/parser_qasm.py:33-42 | `re.search` succeeds only at a position where the declaration pattern matches. |
| ParserQasmSpec.SearchDeclLeftmost | parser/parser_qasm.py:33-42 | The position it finds is the leftmost match. If it finds none, the pattern matches nowhere. |
| ParserQasm.QasmParser.GetGates | parser/parser_qasm.py:52-252 | After `get_gates`, the state and the error are those of the instruction pass run on the stored text. |
| ParserQasm.QasmParser.ProcessLine | parser/parser_qasm.py:58-252 | One pass of the loop changes fields, locals and the error exactly as the one-line step says. |
| ParserQasm.QasmParser.OneOperandGate | parser/parser_qasm.py:81-203 | A one-operand gate line updates the state as the one-operand step says, including the state left when it raises. |
| ParserQasm.QasmParser.TwoOperandGate | parser/parser_qasm.py:120-245 | A two-operand gate line updates the state as the two-operand step says, including the state left when it raises. |
| ParserQasmProofs.StepOfCountedLine | parser/parser_qasm.py:59-70 | A line that is not skipped bumps the counter and is then handled according to its shape. |
| ParserQasmProofs.StepErrorIff | parser/parser_qasm.py:88-224 | A line raises exactly when it is counted, has a gate shape, and one of its operands is not `letters[digits]` or names no declared bit. |
| ParserQasmProofs.OneOperandError | parser/parser_qasm.py:87-187 | A malformed operand raises `ValueError` with nothing changed. An undeclared one raises `KeyError` after the gate was appended and the counter bumped, but before any edge, bit or snapshot was touched. |
| ParserQasmProofs.TwoOperandError | parser/parser_qasm.py:126-224 | With two operands, a malformed one raises `ValueError` naming the line, with nothing changed. Otherwise the first undeclared operand raises `KeyError` after the gate was appended. |
| ParserQasmProofs.OneOperandSuccess | parser/parser_qasm.py:91-203 | On a declared bit: one gate `g_k` (k the old counter) and the counter bumped. One edge to the gate, from the bit's last writer or else from the bit. That edge is also appended to `self.links`. The gate becomes the bit's last writer and no other bit changes. The graph is stored under the line counter. |
| ParserQasmProofs.TwoOperandSuccess | parser/parser_qasm.py:132-245 | The same, with two edges in operand order. Both sources are read before either bit is overwritten, so `cx q[0], q[0]` wires both edges from the old writer. The gate becomes the last writer of both bits. Each bit's record is otherwise unchanged, and no other bit changes. |
| ParserQasmProofs.ParenGateActsOnFirstOperand | parser/parser_qasm.py:75-87 | A gate like `name(params) x;` is a parameterised one-operand gate with operand `x`, and its key is the letters and digits of `x`. |
| ParserQasmProofs.FourTokenLineHasNoShape | parser/parser_qasm.py:167-249 | A line of four whitespace-separated tokens without parentheses, such as `measure q[0] -> c[0]`, makes no gate. |
| ParserQasmProofs.ForeignRegisterFails | parser/parser_qasm.py:36-137 | In any bit table whose keys are `q<digits>` or `c<digits>`, an operand whose register name is anything other than exactly `q` or `c` names an undeclared bit. This covers `a[0]`, and also `qr[0]`, which looks up `qr0`. It holds on every line of `get_gates`, before and after gates have set last writers (`GetBitsKeyed`, `FinishKeepsKeyed`). |
| ParserQasmProofs.GetBitsKeyed | parser/parser_qasm.py:32-49 | After `get_bits` on a fresh parser, every key is `q<digits>` or `c<digits>`, matching the bit's type. |
| ParserQasmProofs.StepKeepsKeyed | parser/parser_qasm.py:99-150 | One pass of `get_gates` changes only last writers, so every key keeps its `q<digits>` or `c<digits>` shape and type. |
| ParserQasmProofs.FinishKeepsKeyed | parser/parser_qasm.py:58-252 | The whole `get_gates` loop, to its end or to the line that raises, keeps every key's `q<digits>` or `c<digits>` shape and type. |
| ParserQasmProofs.ForeignKeyUndeclared | parser/parser_qasm.py:36-49 | The key `letters + digits` is never a declared `q<digits>` or `c<digits>` key unless the letters are exactly `q` or `c`. |
| ParserQasmProofs.StepTimestamps | parser/parser_qasm.py:59-252 | The counter moves exactly on counted lines. A snapshot is stored under the bumped counter exactly when the line made a gate. No other snapshot changes. |
| ParserQasmProofs.GetGatesKeys | parser/parser_qasm.py:54-252 | A `get_gates` run that raises nothing stores snapshots under exactly 0 plus the counter values of the gate-making lines. Counted lines that make no gate leave gaps. |
| ParserQasmProofs.FinishKeepsEarlier | parser/parser_qasm.py:70-252 | The line counter never decreases. A snapshot stored at or below the counter's start value is never changed. |
| ParserQasmProofs.GetGatesKeepsSnapshot0 | parser/parser_qasm.py:54-56 | Snapshot 0 survives `get_gates`, whatever it raises. |
| ParserQasmProofs.Snapshot0 | parser/parser_qasm.py:55 | Snapshot 0 holds exactly the declared bits, in insertion order, and no edges. |
| ParserQasmProofs.RunParserGrows | parser/parser_qasm.py:55-252 | Suppose `get_bits` then `get_gates` raise nothing. Then `self.links` equals the final graph's edge list, and gate `i` is `g_i` and its record in `self.gates`. For keys `k1 <= k2`, snapshot `k1`'s node ids and edges are prefixes of snapshot `k2`'s. The snapshots grow this way even when a line raises. |
| ParserQasmProofs.StepKeepsRunInv | parser/parser_qasm.py:58-252 | A pass of the loop that raises nothing keeps the run invariant. That invariant says: the links are the graph's edges, gate `i` is `g_i`, and every stored snapshot grows into the current graph. |
| ParserQasmProofs.ExtendsGates | parser/parser_qasm.py:91-158 | A gate-making line keeps `self.gates`, `self.links` and the counter in step with the graph. |
| ParserQasmSpec.StepKeepsValid | parser/parser_qasm.py:106-150 | Setting last writers keeps the bit table consistent. |
| QasmLexerProofs.StripCommentsSpec | qasm_parser.py:47-50 | After `strip_comments`, no `//` is left. A text with neither comment marker comes back unchanged. |
| QasmLexerProofs.StripBlockRemoves | qasm_parser.py:13 | A closed block comment is removed from its opening marker through the first closing marker after it. The text before it is kept, and the pass continues after it. |
| QasmLexerProofs.StripBlockUnclosed | qasm_parser.py:13 | An opening marker with no closing marker after it is kept, together with everything after it. |
| QasmLexerProofs.StripBlockNoComment | qasm_parser.py:13 | A text with no opening marker passes the block pass unchanged. |
| QasmLexerProofs.StripLineFirstLine | qasm_parser.py:12 | The line pass cuts each line at its first `//`, keeps the line break, and continues with the next line. |
| QasmLexerProofs.StripLineLastLine | qasm_parser.py:12 | The final line, with no line break after it, is cut at its first `//`. |
| QasmLexerProofs.StripLineLeavesNoComment | qasm_parser.py:12 | After the line pass, no `//` is left. |
| QasmLexerProofs.StripLineIdempotent | qasm_parser.py:12 | Running the line pass twice is the same as running it once. |
| QasmLexerSpec.MatchAt | qasm_parser.py:16-26 | A match is non-empty, fits in the text, and is as long as its own group's match. |
| QasmLexerProofs.MatchAtIff | qasm_parser.py:16-26 | Group `c` wins with length `n` exactly when it matches `n > 0` characters and every group listed before it matches none. |
| QasmLexerProofs.MatchAtNoneIff | qasm_parser.py:16-26 | The pattern fails exactly when no group matches. |
| QasmLexerProofs.IdentifierIsMaximal | qasm_parser.py:18 | An identifier runs while word characters follow. |
| QasmLexerProofs.ArrowBeatsSymbol | qasm_parser.py:21-23 | `->` is one arrow token, not two symbols. |
| QasmLexerProofs.OperatorBeatsSymbol | qasm_parser.py:22-23 | A two-character operator is one token. |
| QasmLexerProofs.DigitStartsNumber | qasm_parser.py:19 | A digit starts a number, never a symbol. |
| QasmLexerProofs.TypeOfGroup | qasm_parser.py:29-45 | Every group name is a key of `TYPE_MAP`, so the `lower()` fallback is never taken. Only an identifier in `KEYWORDS` becomes a keyword. |
| QasmLexer.Tokenize | qasm_parser.py:52-77 | The tokens match the scan of the whole text, and so does the refused character, if any. |
| QasmLexer.TokenizeWith | qasm_parser.py:54-77 | The same for any matcher that consumes at least one character per match. |
| QasmLexer.TokenizePass | qasm_parser.py:57-77 | One pass either moves forward and keeps the loop invariant, or stops with the scan's tokens and error. |
| QasmLexerProofs.TokenizeReassembles | qasm_parser.py:56-74 | The yielded values and the skipped blanks, in order, spell out the text up to where the scan stopped, or the whole text if nothing was refused. |
| QasmLexerProofs.ScanStopsAt | qasm_parser.py:71-77 | A scan stops only at a character that is not whitespace and starts no token. |
| QasmLexerProofs.ScanTokensWellFormed | qasm_parser.py:57-67 | Every yielded token has a non-empty value. A keyword is in `KEYWORDS`, and an identifier is not. Both are shaped like identifiers. |
| QasmLexerProofs.AsWrittenRaisesIndexError | qasm_parser.py:76-77 | As written, a refused character raises `IndexError` for field 2, not `SyntaxError`. |
| QasmLexerProofs.IntendedRaisesSyntaxError | qasm_parser.py:76-77 | With one argument per field, the `SyntaxError` is raised. |
| QasmLexerProofs.FormatIff | qasm_parser.py:77 | `str.format` with automatic numbering succeeds exactly when every field has an argument. Otherwise it fails at the first field index past the arguments. |
| QasmLexerSpec.RecordAt | qasm_parser.py:79-111 | A token records a name only under one of the five keys. The name is non-empty and is what `_next_id` returns for the next token. |
| QasmLexer.CollectDeclaredIdentifiers | qasm_parser.py:85-123 | The result equals the collected dict. |
| QasmLexer.RecordDeclarations | qasm_parser.py:96-112 | The first loop leaves exactly the five keys, each listing the names recorded under it in token order, duplicates kept. |
| QasmLexer.RecordPass | qasm_parser.py:101-112 | One pass keeps that invariant for one more token. |
| QasmLexer.DedupEachKey | qasm_parser.py:114-123 | The second loop replaces every key's list with its de-duplication. |
| QasmLexer.DedupKeepOrder | qasm_parser.py:116-121 | The inner loop computes the de-duplication of its list. |
| QasmLexerProofs.CollectedIff | qasm_parser.py:96-123 | Under each key, the result lists exactly the names some token records there, each once. |
| QasmLexerProofs.RecordedUpToIff | qasm_parser.py:98-112 | A name is listed under a key after the first loop exactly when some token records it there. |
| QasmLexerProofs.ScannedNamesAreIdentifiers | qasm_parser.py:98-112 | On the tokens of a scan, every collected name is an identifier and not a keyword. |
| QasmLexerProofs.DedupSpec | qasm_parser.py:114-122 | De-duplication keeps exactly the values of its input, each once. |
| QasmLexerProofs.DedupKeepsOrder | qasm_parser.py:114-122 | The de-duplication of a prefix is a prefix of the de-duplication. |
| QasmLexerProofs.DedupOfNoDup | qasm_parser.py:114-122 | A list with no repeats is its own de-duplication. |
| QasmLexerProofs.DedupIdempotent | qasm_parser.py:114-122 | De-duplicating twice changes nothing. |
| Text.SplitWhereSpec | parser/parser_qasm.py:26 | `split('\n')` gives one more part than there are line breaks. No part contains a line break. Joining the parts with the breaks gives the text back. |
| Text.SplitJoinRoundTrip | parser/parser_qasm.py:76 | Splitting parts that were joined with separators gives the parts back. |
| Text.SplitRunsSpec | parser/parser_qasm.py:168 | `re.split(r'[,\s]+', …)`: the first part is the text before the first separator. No part holds a separator, and no inner part is empty. The parts together are the text without its separators. Where the pieces break is fixed by `SplitRunsNone` and `SplitRunsCons`. |
| Text.SplitRunsNone | parser/parser_qasm.py:168 | A text with no separator splits into the one-part list holding the text itself. |
| Text.SplitRunsCons | parser/parser_qasm.py:168 | A separator-free piece, then a non-empty run of separators, then a rest that does not start with a separator: the split is the piece followed by the split of the rest. |
| Text.StripSpec | parser/parser_qasm.py:28 | `strip()` returns the slice of the text between a whitespace prefix and a whitespace suffix. The result is empty exactly when the text is all whitespace. Otherwise it neither starts nor ends with whitespace, so the prefix and suffix are the longest such runs. |
| Text.DigitsRoundTrip | parser/parser_qasm.py:35-37 | `int(f"{i}") == i`: the decimal rendering reads back as the same number. |

## Left out

- **File reading** (parser/parser_qasm.py:23-24). The program text is passed to `GetBits` directly, so the `with open(...)` block is not modelled.
- **`save_json` and the `__main__` blocks** (parser/parser_qasm.py:254-264; qasm_parser.py:125-178). These do file and console I/O and parse command-line arguments.
- **Calling `get_gates` before `get_bits`.** This raises `AttributeError`, because `self.qasm_code` is unset. `ParserQasm.QasmParser.GetGates` requires the text to be present instead of modelling that error.
- **`copy.deepcopy`.** Snapshots are values, so a copy is the value itself.
- **Unicode regex classes.** `\d` and `\w` are read as ASCII. On non-ASCII digits and word characters, Python's `re` would match more than the model does.
- **Exception messages.** Only the kind of exception and the bit, key or line it names are modelled. `repr` escaping in the lexer's message is left out too.
- **`raw_typ.lower()` in `tokenize`.** The fallback cannot be taken (`QasmLexerProofs.TypeOfGroup`), so no case folding is modelled.
- **Generator laziness.** `tokenize` is modelled by the tokens it yields before it stops, together with the error it stops on, if any.
- **Key order of the collected dict.** `QasmLexerSpec.Collected` returns a map, so the key order `qreg, creg, qubit, bit, gate` of the dict literal (qasm_parser.py:96) is not kept. Nothing depends on it: `main` reads the result by key (qasm_parser.py:156).
- **The regex engine.** Each pattern is written out as the matcher it denotes. The engine itself is not modelled.

## Findings

| source | as written | input that shows it | evidently intended | confidence | as-written member | corrected member |
|---|---|---|---|---|---|---|
| qasm_parser.py:77 | The `SyntaxError` message template has four replacement fields but gets two arguments (the character and the snippet), so `str.format` raises `IndexError` at field 2. | `tokenize("$")` | Raise `SyntaxError` naming the character, its line and column, and the snippet. | not executed | QasmLexerSpec.RaisedAsWritten (QasmLexerProofs.AsWrittenRaisesIndexError) | QasmLexerSpec.RaisedIntended (QasmLexerProofs.IntendedRaisesSyntaxError) |
