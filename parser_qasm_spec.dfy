/**
  The behaviour of `QASM_Parser` in parser/parser_qasm.py as functions on
  values: the bit-reference extractor `get_bit_info`, the declaration pass
  `get_bits`, and one line of the instruction pass `get_gates` together with
  the whole pass. The class in parser_qasm.dfy carries out the same passes
  by updating its fields in place and is proved equal to these functions.

  The state a pass leaves behind when it raises is part of the result: the
  object keeps every update made before the raise.
*/
module ParserQasmSpec {
  import opened Wrappers
  import opened Text

  /** The `"type"` of a bit dict. */
  datatype BitKind = Qubit | ClassicalBit {
    function TypeName(): string {
      match this
      case Qubit => "qubit"
      case ClassicalBit => "classical_bit"
    }
  }

  /** One entry of `self.bits`: `{"id", "type", "name", "last_gate_connected"}`. */
  datatype Bit = Bit(id: string, kind: BitKind, name: string, lastGate: Option<string>)

  /** The `"type"` of a gate: the parameterised one-operand form keeps the source's spelling. */
  datatype GateKind = SingleQubitGate | OneQuitGate | TwoQubitGate {
    function TypeName(): string {
      match this
      case SingleQubitGate => "single_qubit_gate"
      case OneQuitGate => "one_quit_gate"
      case TwoQubitGate => "two_qubit_gate"
    }
  }

  /** A gate dict; `info` is the `"gate_info"` entry, absent (`None`) in the plain forms. */
  datatype Gate = Gate(id: string, kind: GateKind, name: string, info: Option<string>)

  /** A node of `current_graph["nodes"]`: a bit dict (shared with `self.bits`) or a gate dict. */
  datatype Node = BitNode(bit: Bit) | GateNode(gate: Gate) {
    function Id(): string {
      match this
      case BitNode(b) => b.id
      case GateNode(g) => g.id
    }
  }

  datatype Edge = Edge(source: string, target: string)

  /** `{"nodes": [...], "edges": [...]}`; a stored snapshot is such a value taken at one moment. */
  datatype Graph = Graph(nodes: seq<Node>, edges: seq<Edge>)

  /** The exceptions the two passes can raise. */
  datatype ParseError =
    | BadBitFormat(text: string)  // ValueError: an operand is not `letters[digits]`
    | UnknownBit(key: string)     // KeyError: `self.bits[f"{letter}{number}"]`
    | UnboundNumQubits            // UnboundLocalError: a `qreg` line before any `qreg` that matched

  // ---------------------------------------------------------------------
  // get_bit_info
  // ---------------------------------------------------------------------

  /**
    `get_bit_info`: `re.match(r'([a-zA-Z]+)\[(\d+)\]', bit)`, anchored at the
    start and ignoring whatever follows the closing bracket.
  */
  function GetBitInfo(bit: string): Option<(string, string)>
  {
    var n := RunLen(bit, IsAsciiLetter);
    if n == 0 || n == |bit| || bit[n] != '[' then None
    else
      var rest := bit[n + 1..];
      var m := RunLen(rest, IsAsciiDigit);
      if m == 0 || m == |rest| || rest[m] != ']' then None
      else Some((bit[..n], rest[..m]))
  }

  // ---------------------------------------------------------------------
  // get_bits: the declaration pass
  // ---------------------------------------------------------------------

  /** What `kw\s+\w+\[(\d+)\]` matched: the blanks, the register name and the size digits. */
  datatype DeclMatch = DeclMatch(spaces: string, name: string, digits: string)

  predicate IsDeclMatch(s: string, kw: string, m: DeclMatch) {
    && m.spaces != [] && AllOf(m.spaces, IsSpace)
    && m.name != [] && AllOf(m.name, IsWordChar)
    && m.digits != [] && AllDigits(m.digits)
    && StartsWith(s, kw + m.spaces + m.name + "[" + m.digits + "]")
  }

  /** The pattern `kw\s+\w+\[(\d+)\]` tried at position `p` of `line`. */
  function DeclAt(line: string, p: nat, kw: string): (r: Option<DeclMatch>)
    requires p <= |line|
    ensures r.Some? ==> IsDeclMatch(line[p..], kw, r.value)
  {
    var s := line[p..];
    if !StartsWith(s, kw) then None
    else
      var a := |kw|;
      var b := a + RunLen(s[a..], IsSpace);
      var c := b + RunLen(s[b..], IsWordChar);
      if b == a || c == b || c == |s| || s[c] != '[' then None
      else
        var d := c + 1 + RunLen(s[c + 1..], IsAsciiDigit);
        if d == c + 1 || d == |s| || s[d] != ']' then None
        else
          DeclRuns(s, kw, b, c, d);
          Some(DeclMatch(s[a..b], s[b..c], s[c + 1..d]))
  }

  /** The three runs `DeclAt` measures, when its guards pass, delimit a match of the pattern. */
  lemma DeclRuns(s: string, kw: string, b: nat, c: nat, d: nat)
    requires StartsWith(s, kw) && b == |kw| + RunLen(s[|kw|..], IsSpace) && b != |kw|
    requires b <= |s| && c == b + RunLen(s[b..], IsWordChar) && c != b && c < |s| && s[c] == '['
    requires d == c + 1 + RunLen(s[c + 1..], IsAsciiDigit) && d != c + 1 && d < |s| && s[d] == ']'
    ensures IsDeclMatch(s, kw, DeclMatch(s[|kw|..b], s[b..c], s[c + 1..d]))
  {
    RunSlice(s, |kw|, b, IsSpace);
    RunSlice(s, b, c, IsWordChar);
    RunSlice(s, c + 1, d, IsAsciiDigit);
    DeclMatchAt(s, kw, b, c, d);
  }

  /** The run measured from position `a` of `s` ends at `b` and is a slice of `p`-characters. */
  lemma RunSlice(s: string, a: nat, b: nat, p: char -> bool)
    requires a <= |s| && b == a + RunLen(s[a..], p)
    ensures b <= |s| && AllOf(s[a..b], p)
  {
    RunLenSpec(s[a..], p);
    assert s[a..b] == s[a..][..RunLen(s[a..], p)];
  }

  /** The prefix of `s` through `d`, cut at `a`, `b`, `c` and `d`. */
  lemma PrefixCut(s: string, a: nat, b: nat, c: nat, d: nat)
    requires a <= b <= c < d < |s|
    ensures s[..d + 1] == s[..a] + s[a..b] + s[b..c] + [s[c]] + s[c + 1..d] + [s[d]]
  {
    assert s[..b] == s[..a] + s[a..b];
    assert s[..c] == s[..b] + s[b..c];
    assert s[..c + 1] == s[..c] + [s[c]];
    assert s[..d] == s[..c + 1] + s[c + 1..d];
    assert s[..d + 1] == s[..d] + [s[d]];
  }

  /** Three runs between the keyword and the brackets delimit a match of the pattern. */
  lemma DeclMatchAt(s: string, kw: string, b: nat, c: nat, d: nat)
    requires StartsWith(s, kw) && |kw| < b < c && c + 1 < d < |s| && s[c] == '[' && s[d] == ']'
    requires AllOf(s[|kw|..b], IsSpace) && AllOf(s[b..c], IsWordChar) && AllDigits(s[c + 1..d])
    ensures IsDeclMatch(s, kw, DeclMatch(s[|kw|..b], s[b..c], s[c + 1..d]))
  {
    PrefixCut(s, |kw|, b, c, d);
    assert s[..d + 1] == kw + s[|kw|..b] + s[b..c] + "[" + s[c + 1..d] + "]";
  }

  /** `re.search`: the first position at or after `p` where the pattern matches (leftmost: `SearchDeclLeftmost`). */
  function SearchDecl(line: string, kw: string, p: nat): (r: Option<(nat, DeclMatch)>)
    requires p <= |line|
    ensures r.Some? ==> p <= r.value.0 <= |line| && DeclAt(line, r.value.0, kw) == Some(r.value.1)
    decreases |line| - p
  {
    var here := DeclAt(line, p, kw);
    if here.Some? then Some((p, here.value))
    else if p == |line| then None
    else SearchDecl(line, kw, p + 1)
  }

  /** No position before the one `SearchDecl` reports matches, and none at all when it reports nothing. */
  lemma {:induction false} SearchDeclLeftmost(line: string, kw: string, p: nat, q: nat)
    requires p <= q <= |line|
    ensures SearchDecl(line, kw, p).Some? && q < SearchDecl(line, kw, p).value.0 ==> DeclAt(line, q, kw).None?
    ensures SearchDecl(line, kw, p).None? ==> DeclAt(line, q, kw).None?
    decreases |line| - p
  {
    if q > p {
      SearchDeclLeftmost(line, kw, p + 1, q);
    }
  }

  /** `int(match.group(1))` when `re.search(kw + r'\s+\w+\[(\d+)\]', line)` finds a match. */
  function DeclaredSize(line: string, kw: string): Option<nat>
  {
    match SearchDecl(line, kw, 0)
    case None => None
    case Some((_, m)) => Some(DigitsValue(m.digits))
  }

  /** `self.bits`: a dict of bit dicts, which remembers the order its keys were first inserted in. */
  datatype Table = Table(order: seq<string>, bits: map<string, Bit>)

  const EmptyTable := Table([], map[])

  /** The insertion order lists every key exactly once, and each bit's id is its key. */
  predicate TableValid(t: Table) {
    && (forall i, j :: 0 <= i < j < |t.order| ==> t.order[i] != t.order[j])
    && (forall k :: k in t.order ==> k in t.bits)
    && (forall k :: k in t.bits ==> k in t.order)
    && (forall k :: k in t.bits ==> t.bits[k].id == k)
  }

  /** `self.bits[key] = bit`: a new key goes to the end of the order, an existing one keeps its place. */
  function Put(t: Table, key: string, bit: Bit): Table
  {
    Table(if key in t.bits then t.order else t.order + [key], t.bits[key := bit])
  }

  /** Overwriting `last_gate_connected` of a bit keeps the table well formed. */
  lemma LastGateKeepsValid(t: Table, key: string, g: Option<string>)
    requires TableValid(t) && key in t.bits
    ensures TableValid(Table(t.order, t.bits[key := t.bits[key].(lastGate := g)]))
  {
  }

  /** A freshly declared bit: named after its id and not yet written by any gate. */
  function NewBit(id: string, kind: BitKind): Bit {
    Bit(id, kind, id, None)
  }

  /** `for i in range(n): self.bits[f'{prefix}{i}'] = {...}` */
  function Declare(t: Table, prefix: string, kind: BitKind, n: nat): Table
    decreases n
  {
    if n == 0 then t
    else
      var key := prefix + NatToString(n - 1);
      Put(Declare(t, prefix, kind, n - 1), key, NewBit(key, kind))
  }

  /** Storing a bit under its own id keeps the table well formed. */
  lemma PutKeepsValid(t: Table, key: string, bit: Bit)
    requires TableValid(t) && bit.id == key
    ensures TableValid(Put(t, key, bit))
  {
    if key !in t.bits {
      var order := t.order + [key];
      forall i, j | 0 <= i < j < |order|
        ensures order[i] != order[j]
      {
        if j == |t.order| {
          assert order[i] in t.order;
        }
      }
    }
  }

  lemma {:induction false} DeclareKeepsValid(t: Table, prefix: string, kind: BitKind, n: nat)
    requires TableValid(t)
    ensures TableValid(Declare(t, prefix, kind, n))
    decreases n
  {
    if n > 0 {
      DeclareKeepsValid(t, prefix, kind, n - 1);
      var key := prefix + NatToString(n - 1);
      PutKeepsValid(Declare(t, prefix, kind, n - 1), key, NewBit(key, kind));
    }
  }

  /** `raw_line.split('//')[0].strip()` */
  function CleanLine(raw: string): string {
    Strip(BeforeFirst(raw, "//"))
  }

  /** `self.qasm_code.split('\n')` */
  function Lines(code: string): seq<string> {
    SplitWhere(code, IsNewline)
  }

  /** The state of `get_bits` between lines: the table, the local `num_qubits`, and what it raised. */
  datatype DeclState = DeclState(table: Table, numQubits: Option<nat>, err: Option<ParseError>)

  /**
    One line of `get_bits`. A `qreg` line that the pattern does not match
    still runs its loop with the `num_qubits` of an earlier matching line,
    and raises when there was none. A line cannot start with both `qreg`
    and `creg`, so the source's two `if`s are exclusive.
  */
  function DeclLine(t: Table, numQubits: Option<nat>, raw: string): DeclState
  {
    var line := CleanLine(raw);
    if line == [] then DeclState(t, numQubits, None)
    else if StartsWith(line, "qreg") then
      var n := match DeclaredSize(line, "qreg") case Some(v) => Some(v) case None => numQubits;
      if n.None? then DeclState(t, n, Some(UnboundNumQubits))
      else DeclState(Declare(t, "q", Qubit, n.value), n, None)
    else if StartsWith(line, "creg") then
      match DeclaredSize(line, "creg")
      case Some(v) => DeclState(Declare(t, "c", ClassicalBit, v), numQubits, None)
      case None => DeclState(t, numQubits, None)
    else DeclState(t, numQubits, None)
  }

  /** The lines from `i` on, stopping at the first that raises. */
  function DeclLines(t: Table, numQubits: Option<nat>, lines: seq<string>, i: nat): DeclState
    requires i <= |lines|
    decreases |lines| - i
  {
    if i == |lines| then DeclState(t, numQubits, None)
    else
      var d := DeclLine(t, numQubits, lines[i]);
      if d.err.Some? then d else DeclLines(d.table, d.numQubits, lines, i + 1)
  }

  /** `get_bits` on a table `t`, with `num_qubits` unbound at the start. */
  function GetBitsSpec(t: Table, code: string): DeclState
  {
    DeclLines(t, None, Lines(code), 0)
  }

  lemma DeclLineKeepsValid(t: Table, numQubits: Option<nat>, raw: string)
    requires TableValid(t)
    ensures TableValid(DeclLine(t, numQubits, raw).table)
  {
    var line := CleanLine(raw);
    if line != [] && StartsWith(line, "qreg") {
      var n := match DeclaredSize(line, "qreg") case Some(v) => Some(v) case None => numQubits;
      if n.Some? {
        DeclareKeepsValid(t, "q", Qubit, n.value);
      }
    } else if line != [] && StartsWith(line, "creg") && DeclaredSize(line, "creg").Some? {
      DeclareKeepsValid(t, "c", ClassicalBit, DeclaredSize(line, "creg").value);
    }
  }

  lemma {:induction false} DeclLinesKeepsValid(t: Table, numQubits: Option<nat>, lines: seq<string>, i: nat)
    requires TableValid(t) && i <= |lines|
    ensures TableValid(DeclLines(t, numQubits, lines, i).table)
    decreases |lines| - i
  {
    if i < |lines| {
      DeclLineKeepsValid(t, numQubits, lines[i]);
      var d := DeclLine(t, numQubits, lines[i]);
      if d.err.None? {
        DeclLinesKeepsValid(d.table, d.numQubits, lines, i + 1);
      }
    }
  }

  // ---------------------------------------------------------------------
  // get_gates: the instruction pass
  // ---------------------------------------------------------------------

  /** The fields of the parser object that `get_gates` reads and writes. */
  datatype Fields = Fields(
    gateIdCounter: nat,
    gates: seq<Gate>,
    bits: map<string, Bit>,
    bitOrder: seq<string>,
    links: seq<Edge>,
    timestamps: map<nat, Graph>)

  /**
    The locals of `get_gates`: `line_counter` and `current_graph`. The bit
    nodes of `current_graph` are the very dicts of `self.bits`, so the graph
    keeps their keys (`graphBits`) and reads their current value.
  */
  datatype Locals = Locals(lineCounter: nat, graphBits: seq<string>, graphGates: seq<Gate>, edges: seq<Edge>)

  datatype StepResult = StepResult(fields: Fields, locals: Locals, err: Option<ParseError>)

  /** The bit dicts under the keys `ids`, in that order, as graph nodes. */
  function BitNodes(bits: map<string, Bit>, ids: seq<string>): seq<Node>
  {
    if ids == [] then []
    else (if ids[0] in bits then [BitNode(bits[ids[0]])] else []) + BitNodes(bits, ids[1..])
  }

  function GateNodes(gates: seq<Gate>): seq<Node>
  {
    if gates == [] then [] else [GateNode(gates[0])] + GateNodes(gates[1..])
  }

  /** `copy.deepcopy(current_graph)`: the graph as a value, its bit nodes as they are now. */
  function Snapshot(bits: map<string, Bit>, loc: Locals): Graph
  {
    Graph(BitNodes(bits, loc.graphBits) + GateNodes(loc.graphGates), loc.edges)
  }

  /** The lines `get_gates` passes over without counting them. */
  predicate SkippedLine(line: string) {
    || line == []
    || StartsWith(line, "//")
    || StartsWith(line, "OPENQASM")
    || StartsWith(line, "include")
    || StartsWith(line, "qreg")
    || StartsWith(line, "creg")
  }

  /** How a counted line is read: the source's shape tests, or no shape at all. */
  datatype Shape =
    | OneOperand(kind: GateKind, name: string, info: Option<string>, operand: string)
    | TwoOperand(kind: GateKind, name: string, info: Option<string>, operand1: string, operand2: string)
    | NoShape

  /** `part.strip().rstrip(';')` */
  function Operand(part: string): string {
    TrimEnd(Strip(part), IsSemicolon)
  }

  /**
    The shape tests of `get_gates`: a line holding both `(` and `)` is split
    at every parenthesis and needs 3 or 4 pieces; any other line is split at
    runs of commas and blanks and needs 2 or 3 pieces.
  */
  function Classify(line: string): Shape {
    if '(' in line && ')' in line then
      var parts := SplitWhere(line, IsParen);
      if |parts| == 3 then OneOperand(OneQuitGate, parts[0], Some(parts[1]), Operand(parts[2]))
      else if |parts| == 4 then TwoOperand(TwoQubitGate, parts[0], Some(parts[1]), Operand(parts[2]), Operand(parts[3]))
      else NoShape
    else
      var parts := SplitRuns(line, IsCommaOrSpace);
      if |parts| == 2 then OneOperand(SingleQubitGate, parts[0], None, Operand(parts[1]))
      else if |parts| == 3 then TwoOperand(TwoQubitGate, parts[0], None, Operand(parts[1]), Operand(parts[2]))
      else NoShape
  }

  /** `f"g_{self.gate_id_counter}"` */
  function GateId(k: nat): string {
    "g_" + NatToString(k)
  }

  /** The edge source for a bit: its last writer, or the bit itself when nothing has written it. */
  function SourceOf(b: Bit, key: string): string {
    match b.lastGate
    case None => key
    case Some(g) => g
  }

  /** The dict appended to `self.gates`: a two-operand gate's lacks `"gate_info"`. */
  function Record(g: Gate): Gate {
    if g.kind == TwoQubitGate then g.(info := None) else g
  }

  /** A one-operand gate on a counted line (`loc` already holds the bumped counter). */
  function OneOperandStep(f: Fields, loc: Locals, kind: GateKind, name: string, info: Option<string>, operand: string): (r: StepResult)
  {
    match GetBitInfo(operand)
    case None => StepResult(f, loc, Some(BadBitFormat(operand)))
    case Some((letter, number)) =>
      var gate := Gate(GateId(f.gateIdCounter), kind, name, info);
      var f1 := f.(gates := f.gates + [Record(gate)], gateIdCounter := f.gateIdCounter + 1);
      var key := letter + number;
      if key !in f1.bits then StepResult(f1, loc, Some(UnknownBit(key)))
      else
        var edge := Edge(SourceOf(f1.bits[key], key), gate.id);
        var bits := f1.bits[key := f1.bits[key].(lastGate := Some(gate.id))];
        var loc2 := loc.(graphGates := loc.graphGates + [gate], edges := loc.edges + [edge]);
        var f2 := f1.(links := f1.links + [edge], bits := bits);
        StepResult(f2.(timestamps := f2.timestamps[loc2.lineCounter := Snapshot(bits, loc2)]), loc2, None)
  }

  /**
    A two-operand gate on a counted line: both last writers are read before
    either bit is updated, and the two edges follow operand order.
  */
  function TwoOperandStep(f: Fields, loc: Locals, line: string, kind: GateKind, name: string, info: Option<string>, operand1: string, operand2: string): (r: StepResult)
  {
    var info1 := GetBitInfo(operand1);
    var info2 := GetBitInfo(operand2);
    if info1.None? || info2.None? then StepResult(f, loc, Some(BadBitFormat(line)))
    else
      var gate := Gate(GateId(f.gateIdCounter), kind, name, info);
      var f1 := f.(gates := f.gates + [Record(gate)], gateIdCounter := f.gateIdCounter + 1);
      var key1 := info1.value.0 + info1.value.1;
      var key2 := info2.value.0 + info2.value.1;
      if key1 !in f1.bits then StepResult(f1, loc, Some(UnknownBit(key1)))
      else if key2 !in f1.bits then StepResult(f1, loc, Some(UnknownBit(key2)))
      else
        var edge1 := Edge(SourceOf(f1.bits[key1], key1), gate.id);
        var edge2 := Edge(SourceOf(f1.bits[key2], key2), gate.id);
        var bits1 := f1.bits[key1 := f1.bits[key1].(lastGate := Some(gate.id))];
        var bits2 := bits1[key2 := bits1[key2].(lastGate := Some(gate.id))];
        var loc2 := loc.(graphGates := loc.graphGates + [gate], edges := loc.edges + [edge1, edge2]);
        var f2 := f1.(links := f1.links + [edge1, edge2], bits := bits2);
        StepResult(f2.(timestamps := f2.timestamps[loc2.lineCounter := Snapshot(bits2, loc2)]), loc2, None)
  }

  /** A counted line of shape `shape` (`loc` already holds the bumped line counter). */
  function ShapeStep(f: Fields, loc: Locals, line: string, shape: Shape): (r: StepResult)
  {
    match shape
    case NoShape => StepResult(f, loc, None)
    case OneOperand(kind, name, info, operand) => OneOperandStep(f, loc, kind, name, info, operand)
    case TwoOperand(kind, name, info, operand1, operand2) => TwoOperandStep(f, loc, line, kind, name, info, operand1, operand2)
  }

  /** One pass of the `for raw_line in ...` loop of `get_gates`. */
  function Step(f: Fields, loc: Locals, raw: string): (r: StepResult)
  {
    var line := CleanLine(raw);
    if SkippedLine(line) then StepResult(f, loc, None)
    else ShapeStep(f, loc.(lineCounter := loc.lineCounter + 1), line, Classify(line))
  }

  /** A pass of the loop only overwrites `last_gate_connected` entries, so `self.bits` stays well formed. */
  lemma StepKeepsValid(f: Fields, loc: Locals, raw: string)
    requires TableValid(Table(f.bitOrder, f.bits))
    ensures TableValid(Table(Step(f, loc, raw).fields.bitOrder, Step(f, loc, raw).fields.bits))
  {
    var line := CleanLine(raw);
    if !SkippedLine(line) {
      var loc1 := loc.(lineCounter := loc.lineCounter + 1);
      match Classify(line)
      case NoShape =>
      case OneOperand(kind, name, info, operand) =>
        var info1 := GetBitInfo(operand);
        if info1.Some? {
          var key := info1.value.0 + info1.value.1;
          var g := GateId(f.gateIdCounter);
          if key in f.bits {
            LastGateKeepsValid(Table(f.bitOrder, f.bits), key, Some(g));
          }
        }
      case TwoOperand(kind, name, info, operand1, operand2) =>
        var info1 := GetBitInfo(operand1);
        var info2 := GetBitInfo(operand2);
        if info1.Some? && info2.Some? {
          var key1 := info1.value.0 + info1.value.1;
          var key2 := info2.value.0 + info2.value.1;
          var g := GateId(f.gateIdCounter);
          if key1 in f.bits && key2 in f.bits {
            var t1 := Table(f.bitOrder, f.bits[key1 := f.bits[key1].(lastGate := Some(g))]);
            LastGateKeepsValid(Table(f.bitOrder, f.bits), key1, Some(g));
            LastGateKeepsValid(t1, key2, Some(g));
          }
        }
    }
  }

  /** The loop of `get_gates` from line `i` on, stopping at the first line that raises. */
  function Finish(f: Fields, loc: Locals, lines: seq<string>, i: nat): (r: StepResult)
    requires i <= |lines|
    decreases |lines| - i
  {
    if i == |lines| then StepResult(f, loc, None)
    else
      var r := Step(f, loc, lines[i]);
      if r.err.Some? then r else Finish(r.fields, r.locals, lines, i + 1)
  }

  /** The locals when the loop of `get_gates` starts: the graph holds the bits and nothing else. */
  function StartLocals(f: Fields): Locals {
    Locals(0, f.bitOrder, [], [])
  }

  /** `self.timestamps[0] = copy.deepcopy(current_graph)` */
  function StartFields(f: Fields): Fields
  {
    f.(timestamps := f.timestamps[0 := Snapshot(f.bits, StartLocals(f))])
  }

  /** `get_gates` on an object whose fields are `f` and whose source text is `code`. */
  function GetGatesSpec(f: Fields, code: string): (r: StepResult)
  {
    Finish(StartFields(f), StartLocals(f), Lines(code), 0)
  }

  /** The fields of a new parser object. */
  const FreshFields := Fields(0, [], map[], [], [], map[])

  /** `QASM_Parser(...)`, then `get_bits()`, then `get_gates()` unless `get_bits` raised. */
  function RunParser(code: string): StepResult
  {
    var d := GetBitsSpec(EmptyTable, code);
    var f := FreshFields.(bits := d.table.bits, bitOrder := d.table.order);
    if d.err.Some? then StepResult(f, StartLocals(f), d.err)
    else GetGatesSpec(f, code)
  }

  /** The snapshots of a run, or the exception it ended with. */
  function Parse(code: string): Result<map<nat, Graph>, ParseError>
  {
    var r := RunParser(code);
    if r.err.Some? then Failure(r.err.value) else Success(r.fields.timestamps)
  }
}
