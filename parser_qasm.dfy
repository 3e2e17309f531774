/**
  `QASM_Parser` of parser/parser_qasm.py as an object whose fields the two
  passes update in place. Each method is proved to leave the fields exactly
  as the functions of `ParserQasmSpec` say, so the lemmas of
  `ParserQasmProofs` are statements about this object as well.

  Reading the file is left to the caller: `GetBits` receives the text that
  `file.read()` would have returned.
*/
module ParserQasm {
  import opened Wrappers
  import opened Text
  import opened ParserQasmSpec
  import opened ParserQasmProofs

  class QasmParser {
    /** `self.qasm_file`, set by the constructor and never reassigned. */
    const qasmFile: string
    /** `self.qasm_code`, which exists only once `get_bits` has read the file. */
    var qasmCode: Option<string>
    var gateIdCounter: nat
    var gates: seq<Gate>
    /** `self.bits`: the bit dicts by key, and the order the keys were inserted in. */
    var bits: map<string, Bit>
    var bitOrder: seq<string>
    var links: seq<Edge>
    var timestamps: map<nat, Graph>

    /** `self.bits` is a well-formed dict: each key once in the order, each bit's id its key. */
    ghost predicate Valid()
      reads this
    {
      TableValid(Table(bitOrder, bits))
    }

    /** The fields the passes work on, as one value. */
    function State(): Fields
      reads this
    {
      Fields(gateIdCounter, gates, bits, bitOrder, links, timestamps)
    }

    constructor(qasmFile: string)
      ensures this.qasmFile == qasmFile && qasmCode == None
      ensures State() == FreshFields && Valid()
    {
      this.qasmFile := qasmFile;
      qasmCode := None;
      gateIdCounter := 0;
      gates := [];
      bits := map[];
      bitOrder := [];
      links := [];
      timestamps := map[];
    }

    /** `for i in range(n): self.bits[f'{prefix}{i}'] = {...}` */
    method DeclareBits(prefix: string, kind: BitKind, n: nat)
      requires Valid()
      modifies this
      ensures Valid()
      ensures Table(bitOrder, bits) == Declare(old(Table(bitOrder, bits)), prefix, kind, n)
      ensures qasmCode == old(qasmCode) && gateIdCounter == old(gateIdCounter) && gates == old(gates)
      ensures links == old(links) && timestamps == old(timestamps)
    {
      DeclareKeepsValid(Table(bitOrder, bits), prefix, kind, n);
      var order, table := bitOrder, bits;
      for i := 0 to n
        invariant Table(order, table) == Declare(Table(bitOrder, bits), prefix, kind, i)
      {
        var key := prefix + NatToString(i);
        if key !in table {
          order := order + [key];
        }
        table := table[key := NewBit(key, kind)];
      }
      bitOrder, bits := order, table;
    }

    /** One line of `get_bits`; `numQubits` is the function's local `num_qubits`. */
    method DeclareLine(numQubits: Option<nat>, raw: string) returns (numQubits': Option<nat>, err: Option<ParseError>)
      requires Valid()
      modifies this
      ensures Valid() && qasmCode == old(qasmCode)
      ensures DeclState(Table(bitOrder, bits), numQubits', err) == DeclLine(old(Table(bitOrder, bits)), numQubits, raw)
      ensures gateIdCounter == old(gateIdCounter) && gates == old(gates)
      ensures links == old(links) && timestamps == old(timestamps)
    {
      numQubits' := numQubits;
      err := None;
      var line := CleanLine(raw);
      if line == [] {
        return;
      }
      if StartsWith(line, "qreg") {
        var size := DeclaredSize(line, "qreg");
        if size.Some? {
          numQubits' := size;
        }
        if numQubits'.None? {
          return numQubits', Some(UnboundNumQubits);
        }
        DeclareBits("q", Qubit, numQubits'.value);
      } else if StartsWith(line, "creg") {
        // the source's second `if`: no line starts with both keywords
        var size := DeclaredSize(line, "creg");
        if size.Some? {
          DeclareBits("c", ClassicalBit, size.value);
        }
      }
    }

    /**
      `get_bits`, given the file's text. The result is the bit table, or the
      exception the pass raised; the fields keep what was declared before it.
    */
    method GetBits(contents: string) returns (res: Result<map<string, Bit>, ParseError>)
      requires Valid()
      modifies this
      ensures Valid()
      ensures qasmCode == Some(contents)
      ensures Table(bitOrder, bits) == GetBitsSpec(old(Table(bitOrder, bits)), contents).table
      ensures res == match GetBitsSpec(old(Table(bitOrder, bits)), contents).err
                     case Some(e) => Failure(e)
                     case None => Success(bits)
      ensures gateIdCounter == old(gateIdCounter) && gates == old(gates)
      ensures links == old(links) && timestamps == old(timestamps)
    {
      qasmCode := Some(contents);
      ghost var spec := GetBitsSpec(Table(bitOrder, bits), contents);
      var lines := Lines(contents);
      var numQubits: Option<nat> := None;
      var i := 0;
      while i < |lines|
        invariant 0 <= i <= |lines| && Valid() && qasmCode == Some(contents)
        invariant DeclLines(Table(bitOrder, bits), numQubits, lines, i) == spec
        invariant gateIdCounter == old(gateIdCounter) && gates == old(gates)
        invariant links == old(links) && timestamps == old(timestamps)
        decreases |lines| - i
      {
        var err;
        numQubits, err := DeclareLine(numQubits, lines[i]);
        i := i + 1;
        if err.Some? {
          return Failure(err.value);
        }
      }
      return Success(bits);
    }

    /**
      The one-operand branches of `get_gates` (`one_quit_gate` and
      `single_qubit_gate`): check the operand, record the gate, wire one
      edge from the bit's last writer, make the gate its last writer, and
      store a snapshot under the line counter.
    */
    method OneOperandGate(loc: Locals, kind: GateKind, name: string, info: Option<string>, operand: string)
      returns (loc': Locals, err: Option<ParseError>)
      modifies this
      ensures qasmCode == old(qasmCode)
      ensures StepResult(State(), loc', err) == OneOperandStep(old(State()), loc, kind, name, info, operand)
    {
      loc' := loc;
      var letterNumber := GetBitInfo(operand);
      if letterNumber.None? {
        return loc', Some(BadBitFormat(operand));
      }
      var (letter, number) := letterNumber.value;
      var gateId := GateId(gateIdCounter);
      var gate := Gate(gateId, kind, name, info);
      // the gate is recorded and the counter bumped before the bit is looked up
      gates, gateIdCounter := gates + [Record(gate)], gateIdCounter + 1;
      var key := letter + number;
      if key !in bits {
        return loc', Some(UnknownBit(key));
      }
      var edge := Edge(SourceOf(bits[key], key), gateId);
      var bits' := bits[key := bits[key].(lastGate := Some(gateId))];
      loc' := loc'.(graphGates := loc'.graphGates + [gate], edges := loc'.edges + [edge]);
      links, bits, timestamps := links + [edge], bits', timestamps[loc'.lineCounter := Snapshot(bits', loc')];
      err := None;
    }

    /**
      The two-operand branches of `get_gates`: both operands are checked and
      both last writers read before either bit is updated; the two edges
      follow operand order.
    */
    method TwoOperandGate(loc: Locals, line: string, kind: GateKind, name: string, info: Option<string>,
                          operand1: string, operand2: string)
      returns (loc': Locals, err: Option<ParseError>)
      modifies this
      ensures qasmCode == old(qasmCode)
      ensures StepResult(State(), loc', err) == TwoOperandStep(old(State()), loc, line, kind, name, info, operand1, operand2)
    {
      loc' := loc;
      var info1 := GetBitInfo(operand1);
      var info2 := GetBitInfo(operand2);
      if info1.None? || info2.None? {
        return loc', Some(BadBitFormat(line));
      }
      var gateId := GateId(gateIdCounter);
      var gate := Gate(gateId, kind, name, info);
      gates, gateIdCounter := gates + [Record(gate)], gateIdCounter + 1;
      var key1 := info1.value.0 + info1.value.1;
      var key2 := info2.value.0 + info2.value.1;
      if key1 !in bits {
        return loc', Some(UnknownBit(key1));
      }
      if key2 !in bits {
        return loc', Some(UnknownBit(key2));
      }
      var edge1 := Edge(SourceOf(bits[key1], key1), gateId);
      var edge2 := Edge(SourceOf(bits[key2], key2), gateId);
      var bits' := bits[key1 := bits[key1].(lastGate := Some(gateId))];
      bits' := bits'[key2 := bits'[key2].(lastGate := Some(gateId))];
      loc' := loc'.(graphGates := loc'.graphGates + [gate], edges := loc'.edges + [edge1, edge2]);
      links, bits, timestamps := links + [edge1, edge2], bits', timestamps[loc'.lineCounter := Snapshot(bits', loc')];
      err := None;
    }

    /** One pass of the loop of `get_gates`. */
    method ProcessLine(loc: Locals, raw: string) returns (loc': Locals, err: Option<ParseError>)
      modifies this
      ensures qasmCode == old(qasmCode)
      ensures StepResult(State(), loc', err) == Step(old(State()), loc, raw)
    {
      var line := CleanLine(raw);
      if SkippedLine(line) {
        return loc, None;
      }
      StepOfCountedLine(State(), loc, raw);
      loc' := loc.(lineCounter := loc.lineCounter + 1);
      var shape := Classify(line);
      match shape
      case NoShape =>
        err := None;
      case OneOperand(kind, name, info, operand) =>
        loc', err := OneOperandGate(loc', kind, name, info, operand);
      case TwoOperand(kind, name, info, operand1, operand2) =>
        loc', err := TwoOperandGate(loc', line, kind, name, info, operand1, operand2);
    }

    /**
      `get_gates`, on a parser whose `get_bits` has read the text. The result
      is the exception the pass raised, if any; the fields hold what the
      pass did up to that point.
    */
    method GetGates() returns (err: Option<ParseError>)
      requires Valid() && qasmCode.Some?
      modifies this
      ensures Valid() && qasmCode == old(qasmCode)
      ensures State() == GetGatesSpec(old(State()), qasmCode.value).fields
      ensures err == GetGatesSpec(old(State()), qasmCode.value).err
    {
      var loc := Locals(0, bitOrder, [], []);
      timestamps := timestamps[0 := Snapshot(bits, loc)];
      var lines := Lines(qasmCode.value);
      var i := 0;
      while i < |lines|
        invariant 0 <= i <= |lines| && Valid() && qasmCode == old(qasmCode)
        invariant Finish(State(), loc, lines, i) == GetGatesSpec(old(State()), qasmCode.value)
        decreases |lines| - i
      {
        StepKeepsValid(State(), loc, lines[i]);
        loc, err := ProcessLine(loc, lines[i]);
        i := i + 1;
        if err.Some? {
          return err;
        }
      }
      return None;
    }
  }
}
