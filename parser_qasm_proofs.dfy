/**
  Properties of the passes of parser/parser_qasm.py, stated on the functions
  of `ParserQasmSpec` and so holding for the object of `ParserQasm` as well.
*/
module ParserQasmProofs {
  import opened Wrappers
  import opened Text
  import opened ParserQasmSpec

  /** A line that is not passed over is counted and then handled by its shape. */
  lemma StepOfCountedLine(f: Fields, loc: Locals, raw: string)
    requires !SkippedLine(CleanLine(raw))
    ensures Step(f, loc, raw) == ShapeStep(f, loc.(lineCounter := loc.lineCounter + 1), CleanLine(raw), Classify(CleanLine(raw)))
  {
  }

  // ---------------------------------------------------------------------
  // get_bit_info
  // ---------------------------------------------------------------------

  /** `bit` begins with `letter[number]`: one or more ASCII letters, then one or more digits in brackets. */
  predicate IsBitRef(bit: string, letter: string, number: string) {
    && letter != [] && AllOf(letter, IsAsciiLetter)
    && number != [] && AllDigits(number)
    && StartsWith(bit, letter + "[" + number + "]")
  }

  /** What `get_bit_info` reports is a bit reference at the start of its argument. */
  lemma GetBitInfoSound(bit: string)
    ensures GetBitInfo(bit).Some? ==> IsBitRef(bit, GetBitInfo(bit).value.0, GetBitInfo(bit).value.1)
  {
    var n := RunLen(bit, IsAsciiLetter);
    RunLenSpec(bit, IsAsciiLetter);
    if GetBitInfo(bit).Some? {
      var rest := bit[n + 1..];
      var m := RunLen(rest, IsAsciiDigit);
      RunLenSpec(rest, IsAsciiDigit);
      var letter, number := bit[..n], rest[..m];
      assert GetBitInfo(bit).value == (letter, number);
      assert AllOf(letter, IsAsciiLetter) && AllDigits(number);
      assert bit[..n + 1 + m + 1] == letter + "[" + number + "]" by {
        assert bit[..n + 1 + m + 1] == bit[..n] + [bit[n]] + rest[..m] + [rest[m]];
      }
    }
  }

  /** A bit reference followed by anything is what `get_bit_info` reports. */
  lemma GetBitInfoComplete(letter: string, number: string, rest: string)
    requires letter != [] && AllOf(letter, IsAsciiLetter)
    requires number != [] && AllDigits(number)
    ensures GetBitInfo(letter + "[" + number + "]" + rest) == Some((letter, number))
  {
    var bit := letter + "[" + number + "]" + rest;
    var tail := "[" + number + "]" + rest;
    assert bit == letter + tail;
    RunLenExact(letter, tail, IsAsciiLetter);
    var n := |letter|;
    assert bit[n] == '[' && bit[..n] == letter;
    var after := "]" + rest;
    assert bit[n + 1..] == number + after;
    RunLenExact(number, after, IsAsciiDigit);
    assert (number + after)[..|number|] == number;
  }

  /** `get_bit_info(bit)` returns `(letter, number)` exactly when `bit` begins with `letter[number]`. */
  lemma GetBitInfoIff(bit: string, letter: string, number: string)
    ensures GetBitInfo(bit) == Some((letter, number)) <==> IsBitRef(bit, letter, number)
  {
    GetBitInfoSound(bit);
    if IsBitRef(bit, letter, number) {
      var pre := letter + "[" + number + "]";
      assert bit == pre + bit[|pre|..];
      GetBitInfoComplete(letter, number, bit[|pre|..]);
    }
  }

  /** The reference is unique: the letters stop at the bracket and the digits at the closing one. */
  lemma GetBitInfoNoneIff(bit: string)
    ensures GetBitInfo(bit).None? <==> forall letter, number :: !IsBitRef(bit, letter, number)
  {
    forall letter, number
      ensures GetBitInfo(bit).None? ==> !IsBitRef(bit, letter, number)
    {
      GetBitInfoIff(bit, letter, number);
    }
    if GetBitInfo(bit).Some? {
      GetBitInfoIff(bit, GetBitInfo(bit).value.0, GetBitInfo(bit).value.1);
    }
  }

  // ---------------------------------------------------------------------
  // get_bits
  // ---------------------------------------------------------------------

  /** The keys `f'{prefix}{i}'` for `i` in `range(n)`, in loop order. */
  function BitKeys(prefix: string, n: nat): seq<string>
    decreases n
  {
    if n == 0 then [] else BitKeys(prefix, n - 1) + [prefix + NatToString(n - 1)]
  }

  /** The keys among `ks` that `m` does not hold yet, in the order of `ks`. */
  function FreshKeys(m: map<string, Bit>, ks: seq<string>): seq<string>
    decreases |ks|
  {
    if ks == [] then []
    else FreshKeys(m, ks[..|ks| - 1]) + (if ks[|ks| - 1] in m then [] else [ks[|ks| - 1]])
  }

  lemma {:induction false} BitKeysIndex(prefix: string, n: nat)
    ensures |BitKeys(prefix, n)| == n
    ensures forall i :: 0 <= i < n ==> BitKeys(prefix, n)[i] == prefix + NatToString(i)
    decreases n
  {
    if n > 0 {
      BitKeysIndex(prefix, n - 1);
    }
  }

  /** The `n`-th key differs from every earlier one. */
  lemma NextKeyIsNew(prefix: string, n: nat)
    ensures prefix + NatToString(n) !in BitKeys(prefix, n)
  {
    BitKeysIndex(prefix, n);
    forall i | 0 <= i < n
      ensures BitKeys(prefix, n)[i] != prefix + NatToString(n)
    {
      NatToStringInjective(prefix, i, n);
    }
  }

  /** The declaration loop adds exactly the keys `f'{prefix}{i}'`, `i < n`, to the table. */
  lemma {:induction false} DeclareKeys(t: Table, prefix: string, kind: BitKind, n: nat)
    ensures forall k :: k in Declare(t, prefix, kind, n).bits <==> k in t.bits || k in BitKeys(prefix, n)
    decreases n
  {
    if n > 0 {
      DeclareKeys(t, prefix, kind, n - 1);
      var key := prefix + NatToString(n - 1);
      assert BitKeys(prefix, n) == BitKeys(prefix, n - 1) + [key];
      assert Declare(t, prefix, kind, n).bits == Declare(t, prefix, kind, n - 1).bits[key := NewBit(key, kind)];
    }
  }

  /** Each declared key holds a fresh bit, also when it was declared before. */
  lemma {:induction false} DeclareNewBits(t: Table, prefix: string, kind: BitKind, n: nat)
    ensures forall k :: k in BitKeys(prefix, n) ==> k in Declare(t, prefix, kind, n).bits && Declare(t, prefix, kind, n).bits[k] == NewBit(k, kind)
    decreases n
  {
    if n > 0 {
      DeclareNewBits(t, prefix, kind, n - 1);
      var key := prefix + NatToString(n - 1);
      assert BitKeys(prefix, n) == BitKeys(prefix, n - 1) + [key];
      assert Declare(t, prefix, kind, n).bits == Declare(t, prefix, kind, n - 1).bits[key := NewBit(key, kind)];
    }
  }

  /** The bits under other keys are left as they were. */
  lemma {:induction false} DeclareKeepsOthers(t: Table, prefix: string, kind: BitKind, n: nat)
    ensures forall k :: k in t.bits && k !in BitKeys(prefix, n) ==> k in Declare(t, prefix, kind, n).bits && Declare(t, prefix, kind, n).bits[k] == t.bits[k]
    decreases n
  {
    if n > 0 {
      DeclareKeepsOthers(t, prefix, kind, n - 1);
      var key := prefix + NatToString(n - 1);
      assert BitKeys(prefix, n) == BitKeys(prefix, n - 1) + [key];
      assert Declare(t, prefix, kind, n).bits == Declare(t, prefix, kind, n - 1).bits[key := NewBit(key, kind)];
    }
  }

  /** The last key of the range is fresh exactly when it is not yet in the table. */
  lemma FreshKeysStep(m: map<string, Bit>, prefix: string, n: nat)
    requires n > 0
    ensures var key := prefix + NatToString(n - 1);
            FreshKeys(m, BitKeys(prefix, n)) == FreshKeys(m, BitKeys(prefix, n - 1)) + (if key in m then [] else [key])
  {
    var ks := BitKeys(prefix, n);
    assert ks[..|ks| - 1] == BitKeys(prefix, n - 1);
  }

  /** One pass of the declaring loop appends its key to the order unless the key was there before. */
  lemma DeclareOrderStep(t: Table, prefix: string, kind: BitKind, n: nat)
    requires n > 0
    ensures var key := prefix + NatToString(n - 1);
            Declare(t, prefix, kind, n).order == Declare(t, prefix, kind, n - 1).order + (if key in t.bits then [] else [key])
  {
    DeclareKeys(t, prefix, kind, n - 1);
    NextKeyIsNew(prefix, n - 1);
  }

  /** The insertion order gains the declared keys that were not there yet, in loop order. */
  lemma {:induction false} DeclareOrder(t: Table, prefix: string, kind: BitKind, n: nat)
    ensures Declare(t, prefix, kind, n).order == t.order + FreshKeys(t.bits, BitKeys(prefix, n))
    decreases n
  {
    if n > 0 {
      DeclareOrder(t, prefix, kind, n - 1);
      FreshKeysStep(t.bits, prefix, n);
      DeclareOrderStep(t, prefix, kind, n);
    }
  }


  /** Declaring into an empty table lists exactly the new keys, in loop order. */
  lemma DeclareIntoEmpty(prefix: string, kind: BitKind, n: nat)
    ensures Declare(EmptyTable, prefix, kind, n).order == BitKeys(prefix, n)
  {
    DeclareOrder(EmptyTable, prefix, kind, n);
    FreshKeysOfEmpty(BitKeys(prefix, n));
  }

  lemma {:induction false} FreshKeysOfEmpty(ks: seq<string>)
    ensures FreshKeys(map[], ks) == ks
    decreases |ks|
  {
    if ks != [] {
      FreshKeysOfEmpty(ks[..|ks| - 1]);
    }
  }

  /**
    A matching `qreg name[n]` line declares `q0 .. q(n-1)` as fresh qubits,
    and a matching `creg name[n]` line `c0 .. c(n-1)` as fresh classical
    bits; the rest of the table is left as it was.
  */
  lemma DeclLineDeclares(t: Table, numQubits: Option<nat>, raw: string, n: nat)
    requires CleanLine(raw) != []
    requires || (StartsWith(CleanLine(raw), "qreg") && DeclaredSize(CleanLine(raw), "qreg") == Some(n))
             || (StartsWith(CleanLine(raw), "creg") && DeclaredSize(CleanLine(raw), "creg") == Some(n))
    ensures DeclLine(t, numQubits, raw).err.None?
    ensures var kind := if StartsWith(CleanLine(raw), "qreg") then Qubit else ClassicalBit;
            var ks := BitKeys(if kind == Qubit then "q" else "c", n);
            var r := DeclLine(t, numQubits, raw).table;
            && (forall k :: k in r.bits <==> k in t.bits || k in ks)
            && (forall k :: k in ks ==> k in r.bits && r.bits[k] == NewBit(k, kind))
            && (forall k :: k in t.bits && k !in ks ==> k in r.bits && r.bits[k] == t.bits[k])
            && r.order == t.order + FreshKeys(t.bits, ks)
  {
    var kind := if StartsWith(CleanLine(raw), "qreg") then Qubit else ClassicalBit;
    DeclLineIsDeclare(t, numQubits, raw, n);
    DeclareFacts(t, if kind == Qubit then "q" else "c", kind, n);
  }

  /** A `qreg`/`creg` line with a size declares that many bits under its prefix and raises nothing. */
  lemma DeclLineIsDeclare(t: Table, numQubits: Option<nat>, raw: string, n: nat)
    requires CleanLine(raw) != []
    requires || (StartsWith(CleanLine(raw), "qreg") && DeclaredSize(CleanLine(raw), "qreg") == Some(n))
             || (StartsWith(CleanLine(raw), "creg") && DeclaredSize(CleanLine(raw), "creg") == Some(n))
    ensures var kind := if StartsWith(CleanLine(raw), "qreg") then Qubit else ClassicalBit;
            && DeclLine(t, numQubits, raw).err.None?
            && DeclLine(t, numQubits, raw).table == Declare(t, if kind == Qubit then "q" else "c", kind, n)
  {
    var line := CleanLine(raw);
    if StartsWith(line, "qreg") {
      assert DeclaredSize(line, "qreg") == Some(n) by {
        assert line[0] == "qreg"[0];
      }
      assert DeclLine(t, numQubits, raw) == DeclState(Declare(t, "q", Qubit, n), Some(n), None);
    } else {
      assert StartsWith(line, "creg") && DeclaredSize(line, "creg") == Some(n);
      assert DeclLine(t, numQubits, raw) == DeclState(Declare(t, "c", ClassicalBit, n), numQubits, None);
    }
  }

  /** What `n` declarations under `prefix` do to the table, in one statement. */
  lemma DeclareFacts(t: Table, prefix: string, kind: BitKind, n: nat)
    ensures var ks := BitKeys(prefix, n);
            var r := Declare(t, prefix, kind, n);
            && (forall k :: k in r.bits <==> k in t.bits || k in ks)
            && (forall k :: k in ks ==> k in r.bits && r.bits[k] == NewBit(k, kind))
            && (forall k :: k in t.bits && k !in ks ==> k in r.bits && r.bits[k] == t.bits[k])
            && r.order == t.order + FreshKeys(t.bits, ks)
  {
    DeclareKeys(t, prefix, kind, n);
    DeclareNewBits(t, prefix, kind, n);
    DeclareKeepsOthers(t, prefix, kind, n);
    DeclareOrder(t, prefix, kind, n);
  }

  /** A `qreg` line the pattern does not match reuses the last size, and raises when there was none. */
  lemma UnmatchedQregLine(t: Table, numQubits: Option<nat>, raw: string)
    requires CleanLine(raw) != [] && StartsWith(CleanLine(raw), "qreg") && DeclaredSize(CleanLine(raw), "qreg").None?
    ensures numQubits.None? ==> DeclLine(t, numQubits, raw) == DeclState(t, None, Some(UnboundNumQubits))
    ensures numQubits.Some? ==> DeclLine(t, numQubits, raw) == DeclState(Declare(t, "q", Qubit, numQubits.value), numQubits, None)
  {
  }

  /** `key` is `q` or `c`, matching the bit's type, followed by decimal digits. */
  predicate DeclaredKey(key: string, kind: BitKind) {
    && |key| >= 2 && AllDigits(key[1..])
    && key[0] == (if kind == Qubit then 'q' else 'c')
  }

  /** Every bit is as declared: keyed `q<i>` or `c<i>`, named after its id, and written by no gate. */
  predicate Undriven(t: Table) {
    forall k :: k in t.bits ==> t.bits[k] == NewBit(k, t.bits[k].kind) && DeclaredKey(k, t.bits[k].kind)
  }

  lemma {:induction false} DeclareUndriven(t: Table, prefix: string, kind: BitKind, n: nat)
    requires Undriven(t) && prefix == (if kind == Qubit then "q" else "c")
    ensures Undriven(Declare(t, prefix, kind, n))
    decreases n
  {
    if n > 0 {
      DeclareUndriven(t, prefix, kind, n - 1);
      var key := prefix + NatToString(n - 1);
      NatToStringDigits(n - 1);
      assert key[1..] == NatToString(n - 1);
      assert DeclaredKey(key, kind);
    }
  }

  lemma DeclLineUndriven(t: Table, numQubits: Option<nat>, raw: string)
    requires Undriven(t)
    ensures Undriven(DeclLine(t, numQubits, raw).table)
  {
    var line := CleanLine(raw);
    if line != [] && StartsWith(line, "qreg") {
      var n := match DeclaredSize(line, "qreg") case Some(v) => Some(v) case None => numQubits;
      if n.Some? {
        DeclareUndriven(t, "q", Qubit, n.value);
      }
    } else if line != [] && StartsWith(line, "creg") && DeclaredSize(line, "creg").Some? {
      DeclareUndriven(t, "c", ClassicalBit, DeclaredSize(line, "creg").value);
    }
  }

  lemma {:induction false} DeclLinesUndriven(t: Table, numQubits: Option<nat>, lines: seq<string>, i: nat)
    requires Undriven(t) && i <= |lines|
    ensures Undriven(DeclLines(t, numQubits, lines, i).table)
    decreases |lines| - i
  {
    if i < |lines| {
      DeclLineUndriven(t, numQubits, lines[i]);
      var d := DeclLine(t, numQubits, lines[i]);
      if d.err.None? {
        DeclLinesUndriven(d.table, d.numQubits, lines, i + 1);
      }
    }
  }

  /** After `get_bits` on a new parser, every bit is `q<i>` or `c<i>` and no gate has written it yet. */
  lemma GetBitsUndriven(code: string)
    ensures Undriven(GetBitsSpec(EmptyTable, code).table)
  {
    DeclLinesUndriven(EmptyTable, None, Lines(code), 0);
  }

  // ---------------------------------------------------------------------
  // get_gates: one line
  // ---------------------------------------------------------------------

  /** The key `f"{letter}{number}"` an operand names, when it is a bit reference at all. */
  function KeyOf(operand: string): Option<string> {
    match GetBitInfo(operand)
    case None => None
    case Some((letter, number)) => Some(letter + number)
  }

  /** An operand the source rejects: not `letters[digits]`, or naming no declared bit. */
  predicate OperandFails(bits: map<string, Bit>, operand: string) {
    KeyOf(operand).None? || KeyOf(operand).value !in bits
  }

  /** A counted line of some shape, one of whose operands the source rejects. */
  predicate LineFails(bits: map<string, Bit>, raw: string) {
    var line := CleanLine(raw);
    && !SkippedLine(line)
    && match Classify(line)
       case NoShape => false
       case OneOperand(_, _, _, operand) => OperandFails(bits, operand)
       case TwoOperand(_, _, _, operand1, operand2) => OperandFails(bits, operand1) || OperandFails(bits, operand2)
  }

  /** A pass of the loop raises exactly when the line has a shape and an operand is malformed or undeclared. */
  lemma StepErrorIff(f: Fields, loc: Locals, raw: string)
    ensures Step(f, loc, raw).err.Some? <==> LineFails(f.bits, raw)
  {
    var line := CleanLine(raw);
    if !SkippedLine(line) {
      StepOfCountedLine(f, loc, raw);
    }
  }

  /**
    A malformed operand raises before anything changes; an undeclared one
    raises after the gate was appended and the counter bumped, and before
    any edge, bit or snapshot is touched.
  */
  lemma OneOperandError(f: Fields, loc: Locals, kind: GateKind, name: string, info: Option<string>, operand: string)
    requires OperandFails(f.bits, operand)
    ensures var r := OneOperandStep(f, loc, kind, name, info, operand);
            && r.locals == loc
            && (KeyOf(operand).None? ==> r.fields == f && r.err == Some(BadBitFormat(operand)))
            && (KeyOf(operand).Some? ==>
                  && r.err == Some(UnknownBit(KeyOf(operand).value))
                  && r.fields == f.(gates := f.gates + [Record(Gate(GateId(f.gateIdCounter), kind, name, info))],
                                    gateIdCounter := f.gateIdCounter + 1))
  {
  }

  /** Where the edge into a gate on bit `b` (under `key`) starts: its last writer if any, else the bit. */
  predicate WiredFrom(e: Edge, b: Bit, key: string, gateId: string) {
    && e.target == gateId
    && e.source == (if b.lastGate.Some? then b.lastGate.value else key)
  }

  /** `after` is `before` with the last writer of `key` set to `gateId` and nothing else changed. */
  predicate WrittenBy(before: map<string, Bit>, after: map<string, Bit>, key: string, gateId: string) {
    && after.Keys == before.Keys
    && key in before
    && after[key] == before[key].(lastGate := Some(gateId))
    && forall k :: k in before && k != key ==> after[k] == before[k]
  }

  lemma OneOperandFailsIff(f: Fields, loc: Locals, kind: GateKind, name: string, info: Option<string>, operand: string)
    ensures OneOperandStep(f, loc, kind, name, info, operand).err.Some? <==> OperandFails(f.bits, operand)
  {
  }

  lemma TwoOperandFailsIff(f: Fields, loc: Locals, line: string, kind: GateKind, name: string, info: Option<string>,
                           operand1: string, operand2: string)
    ensures TwoOperandStep(f, loc, line, kind, name, info, operand1, operand2).err.Some?
            <==> OperandFails(f.bits, operand1) || OperandFails(f.bits, operand2)
  {
  }

  /**
    A one-operand gate on a declared bit: one gate `g_k`, with `k` the
    counter, one edge from the bit's last writer (or the bit) to it, the
    gate becomes the bit's last writer, and the graph is stored under the
    line counter.
  */
  lemma OneOperandSuccess(f: Fields, loc: Locals, kind: GateKind, name: string, info: Option<string>, operand: string)
    requires !OperandFails(f.bits, operand)
    ensures var r := OneOperandStep(f, loc, kind, name, info, operand);
            var key := KeyOf(operand).value;
            var g := Gate(GateId(f.gateIdCounter), kind, name, info);
            && r.err.None?
            && r.fields.gateIdCounter == f.gateIdCounter + 1
            && r.fields.gates == f.gates + [Record(g)]
            && r.locals.graphGates == loc.graphGates + [g]
            && |r.locals.edges| == |loc.edges| + 1 && r.locals.edges[..|loc.edges|] == loc.edges
            && WiredFrom(r.locals.edges[|loc.edges|], f.bits[key], key, g.id)
            && r.fields.links == f.links + r.locals.edges[|loc.edges|..]
            && WrittenBy(f.bits, r.fields.bits, key, g.id)
            && r.locals.lineCounter == loc.lineCounter && r.locals.graphBits == loc.graphBits
            && r.fields.bitOrder == f.bitOrder
            && r.fields.timestamps == f.timestamps[loc.lineCounter := Snapshot(r.fields.bits, r.locals)]
  {
    var r := OneOperandStep(f, loc, kind, name, info, operand);
    assert r.locals.edges[..|loc.edges|] == loc.edges;
  }

  /**
    A two-operand gate on declared bits: one gate, two edges in operand
    order, each from its bit's last writer as it was before the line (both
    are read before either is overwritten, which matters when the two
    operands name the same bit), and the gate becomes the last writer of both.
  */
  lemma TwoOperandSuccess(f: Fields, loc: Locals, line: string, kind: GateKind, name: string, info: Option<string>,
                          operand1: string, operand2: string)
    requires !OperandFails(f.bits, operand1) && !OperandFails(f.bits, operand2)
    ensures var r := TwoOperandStep(f, loc, line, kind, name, info, operand1, operand2);
            var key1, key2 := KeyOf(operand1).value, KeyOf(operand2).value;
            var g := Gate(GateId(f.gateIdCounter), kind, name, info);
            var n := |loc.edges|;
            && r.err.None?
            && r.fields.gateIdCounter == f.gateIdCounter + 1
            && r.fields.gates == f.gates + [Record(g)]
            && r.locals.graphGates == loc.graphGates + [g]
            && |r.locals.edges| == n + 2 && r.locals.edges[..n] == loc.edges
            && WiredFrom(r.locals.edges[n], f.bits[key1], key1, g.id)
            && WiredFrom(r.locals.edges[n + 1], f.bits[key2], key2, g.id)
            && r.fields.links == f.links + r.locals.edges[n..]
            && r.fields.bits.Keys == f.bits.Keys
            && r.fields.bits[key1] == f.bits[key1].(lastGate := Some(g.id))
            && r.fields.bits[key2] == f.bits[key2].(lastGate := Some(g.id))
            && (forall k :: k in f.bits && k != key1 && k != key2 ==> r.fields.bits[k] == f.bits[k])
            && r.locals.lineCounter == loc.lineCounter && r.locals.graphBits == loc.graphBits
            && r.fields.bitOrder == f.bitOrder
            && r.fields.timestamps == f.timestamps[loc.lineCounter := Snapshot(r.fields.bits, r.locals)]
  {
    TwoOperandWiring(f, loc, line, kind, name, info, operand1, operand2);
    TwoOperandWriters(f, loc, line, kind, name, info, operand1, operand2);
  }

  /** The gate, edge and link part of `TwoOperandSuccess`. */
  lemma TwoOperandWiring(f: Fields, loc: Locals, line: string, kind: GateKind, name: string, info: Option<string>,
                         operand1: string, operand2: string)
    requires !OperandFails(f.bits, operand1) && !OperandFails(f.bits, operand2)
    ensures var r := TwoOperandStep(f, loc, line, kind, name, info, operand1, operand2);
            var key1, key2 := KeyOf(operand1).value, KeyOf(operand2).value;
            var g := Gate(GateId(f.gateIdCounter), kind, name, info);
            var n := |loc.edges|;
            && r.err.None?
            && r.fields.gateIdCounter == f.gateIdCounter + 1
            && r.fields.gates == f.gates + [Record(g)]
            && r.locals.graphGates == loc.graphGates + [g]
            && |r.locals.edges| == n + 2 && r.locals.edges[..n] == loc.edges
            && WiredFrom(r.locals.edges[n], f.bits[key1], key1, g.id)
            && WiredFrom(r.locals.edges[n + 1], f.bits[key2], key2, g.id)
            && r.fields.links == f.links + r.locals.edges[n..]
  {
    var r := TwoOperandStep(f, loc, line, kind, name, info, operand1, operand2);
    assert r.locals.edges[..|loc.edges|] == loc.edges;
  }

  /** The last-writer, counter and snapshot part of `TwoOperandSuccess`. */
  lemma TwoOperandWriters(f: Fields, loc: Locals, line: string, kind: GateKind, name: string, info: Option<string>,
                          operand1: string, operand2: string)
    requires !OperandFails(f.bits, operand1) && !OperandFails(f.bits, operand2)
    ensures var r := TwoOperandStep(f, loc, line, kind, name, info, operand1, operand2);
            var key1, key2 := KeyOf(operand1).value, KeyOf(operand2).value;
            var id := GateId(f.gateIdCounter);
            && r.fields.bits.Keys == f.bits.Keys
            && r.fields.bits[key1] == f.bits[key1].(lastGate := Some(id))
            && r.fields.bits[key2] == f.bits[key2].(lastGate := Some(id))
            && (forall k :: k in f.bits && k != key1 && k != key2 ==> r.fields.bits[k] == f.bits[k])
            && r.locals.lineCounter == loc.lineCounter && r.locals.graphBits == loc.graphBits
            && r.fields.bitOrder == f.bitOrder
            && r.fields.timestamps == f.timestamps[loc.lineCounter := Snapshot(r.fields.bits, r.locals)]
  {
  }

  /**
    A rejected operand pair: a malformed operand raises before anything
    changes; otherwise the first undeclared operand raises after the gate
    was appended and the counter bumped.
  */
  lemma TwoOperandError(f: Fields, loc: Locals, line: string, kind: GateKind, name: string, info: Option<string>,
                        operand1: string, operand2: string)
    requires OperandFails(f.bits, operand1) || OperandFails(f.bits, operand2)
    ensures var r := TwoOperandStep(f, loc, line, kind, name, info, operand1, operand2);
            var appended := f.(gates := f.gates + [Record(Gate(GateId(f.gateIdCounter), kind, name, info))],
                               gateIdCounter := f.gateIdCounter + 1);
            && r.locals == loc
            && (KeyOf(operand1).None? || KeyOf(operand2).None? ==> r.fields == f && r.err == Some(BadBitFormat(line)))
            && (KeyOf(operand1).Some? && KeyOf(operand2).Some? ==>
                  && r.fields == appended
                  && r.err == Some(UnknownBit(if KeyOf(operand1).value !in f.bits then KeyOf(operand1).value else KeyOf(operand2).value)))
  {
  }

  /** A line with one `(` and one `)` is a one-operand gate on whatever follows the `)`. */
  lemma ParenLineShape(name: string, params: string, rest: string)
    requires NoneOf(name, IsParen) && NoneOf(params, IsParen) && NoneOf(rest, IsParen)
    ensures Classify(name + "(" + params + ")" + rest) == OneOperand(OneQuitGate, name, Some(params), Operand(rest))
  {
    var line := name + "(" + params + ")" + rest;
    assert line == JoinWithSeps([name, params, rest], "()");
    SplitJoinRoundTrip([name, params, rest], "()", IsParen);
    assert line[|name|] == '(' && line[|name| + 1 + |params|] == ')';
  }

  /** `" x;".strip().rstrip(';')` is `x` when `x` starts with no blank and ends in `]`. */
  lemma OperandOfSpacedRef(x: string)
    requires x != [] && !IsSpace(x[0]) && x[|x| - 1] == ']'
    ensures Operand(" " + x + ";") == x
  {
    var s := " " + x + ";";
    assert s == " " + (x + ";");
    RunLenExact(" ", x + ";", IsSpace);
    assert TrimStart(s, IsSpace) == x + ";";
    var t := x + ";";
    assert TrimEnd(t, IsSpace) == t;
    assert t[..|t| - 1] == x;
    assert TrimEnd(x, IsSemicolon) == x;
  }

  /**
    A parameterised gate written with two operands, as in
    `cu1(pi/2) q[0],q[1];`, splits into three pieces at the parentheses and
    so is a one-operand gate whose operand is all of `q[0],q[1]`; the
    reference match stops at the first `]`, so the gate acts on the first
    operand's bit alone.
  */
  lemma ParenGateActsOnFirstOperand(name: string, params: string, x: string, letter: string, number: string, tail: string)
    requires NoneOf(name, IsParen) && NoneOf(params, IsParen) && NoneOf(x, IsParen)
    requires letter != [] && AllOf(letter, IsAsciiLetter) && number != [] && AllDigits(number)
    requires x == letter + "[" + number + "]" + tail && x[|x| - 1] == ']'
    ensures Classify(name + "(" + params + ") " + x + ";") == OneOperand(OneQuitGate, name, Some(params), x)
    ensures KeyOf(x) == Some(letter + number)
  {
    var rest := " " + x + ";";
    assert NoneOf(rest, IsParen) by {
      NoneOfAppend(" ", x, IsParen);
      NoneOfAppend(" " + x, ";", IsParen);
    }
    assert Operand(rest) == x by {
      assert x[0] == letter[0];
      OperandOfSpacedRef(x);
    }
    ParenLineShape(name, params, rest);
    assert name + "(" + params + ") " + x + ";" == name + "(" + params + ")" + rest;
    GetBitInfoComplete(letter, number, tail);
  }

  /**
    A line of four blank-separated tokens without parentheses, such as the
    measurement `measure q[0] -> c[0];`, has no gate shape: it is counted
    and makes no gate.
  */
  lemma FourTokenLineHasNoShape(t1: string, t2: string, t3: string, t4: string)
    requires t1 != [] && NoneOf(t1, IsCommaOrSpace) && NoneOf(t1, IsParen)
    requires t2 != [] && NoneOf(t2, IsCommaOrSpace) && NoneOf(t2, IsParen)
    requires t3 != [] && NoneOf(t3, IsCommaOrSpace) && NoneOf(t3, IsParen)
    requires t4 != [] && NoneOf(t4, IsCommaOrSpace) && NoneOf(t4, IsParen)
    ensures Classify(t1 + " " + t2 + " " + t3 + " " + t4) == NoShape
  {
    var r3 := t3 + " " + t4;
    var r2 := t2 + " " + r3;
    var line := t1 + " " + t2 + " " + t3 + " " + t4;
    assert line == t1 + " " + r2;
    assert |SplitRuns(line, IsCommaOrSpace)| == 4 by {
      SplitRunsNone(t4, IsCommaOrSpace);
      SplitRunsCons(t3, " ", t4, IsCommaOrSpace);
      assert r3[0] == t3[0];
      SplitRunsCons(t2, " ", r3, IsCommaOrSpace);
      assert r2[0] == t2[0];
      SplitRunsCons(t1, " ", r2, IsCommaOrSpace);
    }
    assert '(' !in line by {
      NoneOfAppend(t3 + " ", t4, IsParen);
      NoneOfAppend(t3, " ", IsParen);
      NoneOfAppend(t2 + " ", r3, IsParen);
      NoneOfAppend(t2, " ", IsParen);
      NoneOfAppend(t1 + " ", r2, IsParen);
      NoneOfAppend(t1, " ", IsParen);
    }
  }

  /** Every key of `bits` is `q` or `c`, matching the bit's type, followed by digits. */
  predicate Keyed(bits: map<string, Bit>) {
    forall k :: k in bits ==> DeclaredKey(k, bits[k].kind)
  }

  /**
    An operand on any register whose name is not exactly `q` or `c` (`a[0]`,
    but also `qr[0]`) names no bit of a table keyed like `get_bits` keys it,
    so the line raises.
  */
  lemma ForeignRegisterFails(bits: map<string, Bit>, operand: string, letter: string, number: string)
    requires Keyed(bits)
    requires GetBitInfo(operand) == Some((letter, number)) && letter != "q" && letter != "c"
    ensures OperandFails(bits, operand)
  {
    GetBitInfoSound(operand);
    ForeignKeyUndeclared(letter, number);
  }

  /** `get_bits` on a fresh parser keys every bit `q<digits>` or `c<digits>`. */
  lemma GetBitsKeyed(code: string)
    ensures Keyed(GetBitsSpec(EmptyTable, code).table.bits)
  {
    GetBitsUndriven(code);
  }

  /** A pass of `get_gates` only sets last writers, so the keys keep their shape. */
  lemma StepKeepsKeyed(f: Fields, loc: Locals, raw: string)
    requires Keyed(f.bits)
    ensures Keyed(Step(f, loc, raw).fields.bits)
  {
  }

  /** The whole loop of `get_gates` keeps the keys' shape, whatever it raises. */
  lemma {:induction false} FinishKeepsKeyed(f: Fields, loc: Locals, lines: seq<string>, i: nat)
    requires Keyed(f.bits) && i <= |lines|
    ensures Keyed(Finish(f, loc, lines, i).fields.bits)
    decreases |lines| - i
  {
    if i < |lines| {
      StepKeepsKeyed(f, loc, lines[i]);
      var r := Step(f, loc, lines[i]);
      if r.err.None? {
        FinishKeepsKeyed(r.fields, r.locals, lines, i + 1);
      }
    }
  }

  /** A key built from letters other than exactly `q` or `c` is not the key of a declared bit of either type. */
  lemma ForeignKeyUndeclared(letter: string, number: string)
    requires letter != [] && AllOf(letter, IsAsciiLetter) && number != [] && AllDigits(number)
    requires letter != "q" && letter != "c"
    ensures !DeclaredKey(letter + number, Qubit) && !DeclaredKey(letter + number, ClassicalBit)
  {
    var key := letter + number;
    if |letter| >= 2 {
      assert key[1..][0] == letter[1] && IsAsciiLetter(letter[1]);
    } else {
      assert letter == [key[0]];
    }
  }

  /** A line that `get_gates` counts. */
  predicate Counted(raw: string) {
    !SkippedLine(CleanLine(raw))
  }

  /** A counted line that has one of the gate shapes. */
  predicate HasShape(raw: string) {
    Counted(raw) && !Classify(CleanLine(raw)).NoShape?
  }

  /**
    A pass of the loop bumps the line counter exactly on counted lines, and
    stores a snapshot, under the bumped counter, exactly when the line made
    a gate; no other snapshot changes.
  */
  lemma StepTimestamps(f: Fields, loc: Locals, raw: string)
    ensures var r := Step(f, loc, raw);
            && r.locals.lineCounter == (if Counted(raw) then loc.lineCounter + 1 else loc.lineCounter)
            && (r.err.None? && HasShape(raw) ==>
                  r.fields.timestamps == f.timestamps[loc.lineCounter + 1 := Snapshot(r.fields.bits, r.locals)])
            && (r.err.Some? || !HasShape(raw) ==> r.fields.timestamps == f.timestamps)
  {
    if Counted(raw) {
      StepOfCountedLine(f, loc, raw);
      var line := CleanLine(raw);
      var loc1 := loc.(lineCounter := loc.lineCounter + 1);
      match Classify(line)
      case NoShape =>
      case OneOperand(kind, name, info, operand) =>
        OneOperandTimestamps(f, loc1, kind, name, info, operand);
      case TwoOperand(kind, name, info, operand1, operand2) =>
        TwoOperandTimestamps(f, loc1, line, kind, name, info, operand1, operand2);
    }
  }

  /** A one-operand gate line stores its snapshot under the current counter unless it raises. */
  lemma OneOperandTimestamps(f: Fields, loc: Locals, kind: GateKind, name: string, info: Option<string>, operand: string)
    ensures var r := OneOperandStep(f, loc, kind, name, info, operand);
            && r.locals.lineCounter == loc.lineCounter
            && (r.err.None? ==> r.fields.timestamps == f.timestamps[loc.lineCounter := Snapshot(r.fields.bits, r.locals)])
            && (r.err.Some? ==> r.fields.timestamps == f.timestamps)
  {
  }

  /** A two-operand gate line stores its snapshot under the current counter unless it raises. */
  lemma TwoOperandTimestamps(f: Fields, loc: Locals, line: string, kind: GateKind, name: string, info: Option<string>,
                             operand1: string, operand2: string)
    ensures var r := TwoOperandStep(f, loc, line, kind, name, info, operand1, operand2);
            && r.locals.lineCounter == loc.lineCounter
            && (r.err.None? ==> r.fields.timestamps == f.timestamps[loc.lineCounter := Snapshot(r.fields.bits, r.locals)])
            && (r.err.Some? ==> r.fields.timestamps == f.timestamps)
  {
  }

  // ---------------------------------------------------------------------
  // get_gates: the whole loop
  // ---------------------------------------------------------------------

  /** The number of counted lines from `i` on. */
  function CountedLines(lines: seq<string>, i: nat): nat
    requires i <= |lines|
    decreases |lines| - i
  {
    if i == |lines| then 0 else (if Counted(lines[i]) then 1 else 0) + CountedLines(lines, i + 1)
  }

  /**
    The counter values, starting from `c`, of the lines from `i` on that
    have a gate shape: every counted line moves the counter, only shaped
    lines leave a key behind.
  */
  function StoredKeys(lines: seq<string>, i: nat, c: nat): set<nat>
    requires i <= |lines|
    decreases |lines| - i
  {
    if i == |lines| then {}
    else
      var c' := if Counted(lines[i]) then c + 1 else c;
      (if HasShape(lines[i]) then {c'} else {}) + StoredKeys(lines, i + 1, c')
  }

  /** The counter only grows, and no snapshot stored at or below its start value is touched. */
  lemma {:induction false} FinishKeepsEarlier(f: Fields, loc: Locals, lines: seq<string>, i: nat)
    requires i <= |lines|
    ensures var r := Finish(f, loc, lines, i);
            && loc.lineCounter <= r.locals.lineCounter
            && forall k :: k in f.timestamps && k <= loc.lineCounter ==> k in r.fields.timestamps && r.fields.timestamps[k] == f.timestamps[k]
    decreases |lines| - i
  {
    if i < |lines| {
      StepTimestamps(f, loc, lines[i]);
      var r := Step(f, loc, lines[i]);
      if r.err.None? {
        FinishKeepsEarlier(r.fields, r.locals, lines, i + 1);
      }
    }
  }

  /**
    The loop of `get_gates` from line `i`, if nothing raises, bumps the
    counter once per counted line and stores a snapshot under exactly the
    counter values of the shaped lines.
  */
  ghost predicate KeysAfter(f: Fields, loc: Locals, lines: seq<string>, i: nat)
    requires i <= |lines|
  {
    var r := Finish(f, loc, lines, i);
    r.err.None? ==>
      && r.locals.lineCounter == loc.lineCounter + CountedLines(lines, i)
      && r.fields.timestamps.Keys == f.timestamps.Keys + StoredKeys(lines, i, loc.lineCounter)
  }

  /** One line more: if the loop from the next line keeps `KeysAfter`, so does the loop from this one. */
  lemma FinishKeysStep(f: Fields, loc: Locals, lines: seq<string>, i: nat)
    requires i < |lines|
    requires var r := Step(f, loc, lines[i]); r.err.None? ==> KeysAfter(r.fields, r.locals, lines, i + 1)
    ensures KeysAfter(f, loc, lines, i)
  {
    StepTimestamps(f, loc, lines[i]);
    var r := Step(f, loc, lines[i]);
    if r.err.None? {
      assert Finish(f, loc, lines, i) == Finish(r.fields, r.locals, lines, i + 1);
      var c := r.locals.lineCounter;
      var here: set<nat> := if HasShape(lines[i]) then {c} else {};
      assert r.fields.timestamps.Keys == f.timestamps.Keys + here;
      assert StoredKeys(lines, i, loc.lineCounter) == here + StoredKeys(lines, i + 1, c);
    }
  }

  /**
    A run of the loop that raises nothing counts every counted line, and
    adds exactly the keys of the shaped lines to the snapshots.
  */
  lemma {:induction false} FinishKeys(f: Fields, loc: Locals, lines: seq<string>, i: nat)
    requires i <= |lines|
    ensures KeysAfter(f, loc, lines, i)
    decreases |lines| - i
  {
    if i < |lines| {
      var r := Step(f, loc, lines[i]);
      if r.err.None? {
        FinishKeys(r.fields, r.locals, lines, i + 1);
      }
      FinishKeysStep(f, loc, lines, i);
    }
  }


  /**
    `get_gates` that raises nothing stores snapshot 0 and one snapshot per
    gate-making line, under the number of counted lines up to and including
    it; the other counted lines leave gaps.
  */
  lemma GetGatesKeys(f: Fields, code: string)
    ensures var r := GetGatesSpec(f, code);
            r.err.None? ==> r.fields.timestamps.Keys == f.timestamps.Keys + {0} + StoredKeys(Lines(code), 0, 0)
  {
    FinishKeys(StartFields(f), StartLocals(f), Lines(code), 0);
  }

  /** Snapshot 0 survives the loop, whatever it raises. */
  lemma GetGatesKeepsSnapshot0(f: Fields, code: string)
    ensures var r := GetGatesSpec(f, code);
            0 in r.fields.timestamps && r.fields.timestamps[0] == Snapshot(f.bits, StartLocals(f))
  {
    FinishKeepsEarlier(StartFields(f), StartLocals(f), Lines(code), 0);
  }

  // ---------------------------------------------------------------------
  // get_gates: the graph only grows
  // ---------------------------------------------------------------------

  function NodeIds(nodes: seq<Node>): seq<string>
    decreases |nodes|
  {
    if nodes == [] then [] else [nodes[0].Id()] + NodeIds(nodes[1..])
  }

  function GateIds(gates: seq<Gate>): seq<string>
    decreases |gates|
  {
    if gates == [] then [] else [gates[0].id] + GateIds(gates[1..])
  }

  lemma {:induction false} NodeIdsAppend(a: seq<Node>, b: seq<Node>)
    ensures NodeIds(a + b) == NodeIds(a) + NodeIds(b)
    decreases |a|
  {
    if a != [] {
      NodeIdsAppend(a[1..], b);
      assert (a + b)[0] == a[0] && (a + b)[1..] == a[1..] + b;
    } else {
      assert a + b == b;
    }
  }

  lemma {:induction false} GateIdsAppend(a: seq<Gate>, b: seq<Gate>)
    ensures GateIds(a + b) == GateIds(a) + GateIds(b)
    decreases |a|
  {
    if a != [] {
      GateIdsAppend(a[1..], b);
      assert (a + b)[0] == a[0] && (a + b)[1..] == a[1..] + b;
    } else {
      assert a + b == b;
    }
  }

  /** The bit nodes of declared keys are those bits, in key order. */
  lemma {:induction false} BitNodesOf(bits: map<string, Bit>, ids: seq<string>)
    requires forall k :: k in ids ==> k in bits
    ensures |BitNodes(bits, ids)| == |ids|
    ensures forall i :: 0 <= i < |ids| ==> BitNodes(bits, ids)[i] == BitNode(bits[ids[i]])
    decreases |ids|
  {
    if ids != [] {
      BitNodesOf(bits, ids[1..]);
    }
  }

  lemma {:induction false} BitNodeIds(bits: map<string, Bit>, ids: seq<string>)
    requires forall k :: k in ids ==> k in bits && bits[k].id == k
    ensures NodeIds(BitNodes(bits, ids)) == ids
    decreases |ids|
  {
    if ids != [] {
      BitNodeIds(bits, ids[1..]);
      NodeIdsAppend([BitNode(bits[ids[0]])], BitNodes(bits, ids[1..]));
    }
  }

  lemma {:induction false} GateNodeIds(gates: seq<Gate>)
    ensures NodeIds(GateNodes(gates)) == GateIds(gates)
    decreases |gates|
  {
    if gates != [] {
      GateNodeIds(gates[1..]);
      NodeIdsAppend([GateNode(gates[0])], GateNodes(gates[1..]));
    }
  }

  /** The node ids of a stored graph: the declared bits in insertion order, then the gates so far. */
  lemma SnapshotIds(bits: map<string, Bit>, loc: Locals)
    requires forall k :: k in loc.graphBits ==> k in bits && bits[k].id == k
    ensures NodeIds(Snapshot(bits, loc).nodes) == loc.graphBits + GateIds(loc.graphGates)
  {
    BitNodeIds(bits, loc.graphBits);
    GateNodeIds(loc.graphGates);
    NodeIdsAppend(BitNodes(bits, loc.graphBits), GateNodes(loc.graphGates));
  }

  /** Snapshot 0 holds exactly the declared bits, in insertion order, and no edge. */
  lemma Snapshot0(f: Fields)
    requires TableValid(Table(f.bitOrder, f.bits))
    ensures var g := Snapshot(f.bits, StartLocals(f));
            && |g.nodes| == |f.bitOrder| && g.edges == []
            && (forall i :: 0 <= i < |g.nodes| ==> g.nodes[i] == BitNode(f.bits[f.bitOrder[i]]))
            && NodeIds(g.nodes) == f.bitOrder
  {
    BitNodesOf(f.bits, f.bitOrder);
    SnapshotIds(f.bits, StartLocals(f));
    assert BitNodes(f.bits, f.bitOrder) + GateNodes([]) == BitNodes(f.bits, f.bitOrder);
  }

  /** `g1`'s node ids and edges are prefixes of `g2`'s: nothing was removed or reordered in between. */
  predicate GrowsInto(g1: Graph, g2: Graph) {
    NodeIds(g1.nodes) <= NodeIds(g2.nodes) && g1.edges <= g2.edges
  }

  /** Snapshots stored under smaller keys grow into those stored under larger ones. */
  predicate SnapshotsGrow(ts: map<nat, Graph>) {
    forall k1, k2 :: k1 in ts && k2 in ts && k1 <= k2 ==> GrowsInto(ts[k1], ts[k2])
  }

  /**
    What holds between lines of `get_gates` as long as nothing has raised:
    the graph's bits are `self.bits` in insertion order, `self.links` is
    the graph's edge list, the counter counts the gates, gate `i` is `g_i`
    and its record in `self.gates`, and every stored snapshot is under a
    key not above the line counter and grows into the current graph.
  */
  predicate RunInv(f: Fields, loc: Locals) {
    && TableValid(Table(f.bitOrder, f.bits))
    && loc.graphBits == f.bitOrder
    && f.links == loc.edges
    && f.gateIdCounter == |f.gates| == |loc.graphGates|
    && (forall i :: 0 <= i < |f.gates| ==> f.gates[i] == Record(loc.graphGates[i]) && loc.graphGates[i].id == GateId(i))
    && 0 in f.timestamps
    && (forall k :: k in f.timestamps ==> k <= loc.lineCounter && GrowsInto(f.timestamps[k], Snapshot(f.bits, loc)))
    && SnapshotsGrow(f.timestamps)
  }

  /** What every gate-making line does, whatever its shape: one gate and its edges appended, the graph stored. */
  predicate Extends(f: Fields, loc: Locals, f': Fields, loc': Locals) {
    var n := |loc.graphGates|;
    && f'.bitOrder == f.bitOrder && loc'.graphBits == loc.graphBits && loc'.lineCounter == loc.lineCounter
    && f'.gateIdCounter == f.gateIdCounter + 1
    && |loc'.graphGates| == n + 1 && loc'.graphGates[..n] == loc.graphGates
    && loc'.graphGates[n].id == GateId(f.gateIdCounter)
    && f'.gates == f.gates + [Record(loc'.graphGates[n])]
    && loc.edges <= loc'.edges && f'.links == f.links + loc'.edges[|loc.edges|..]
    && f'.timestamps == f.timestamps[loc.lineCounter := Snapshot(f'.bits, loc')]
  }

  lemma ShapeStepExtends(f: Fields, loc: Locals, line: string, shape: Shape)
    requires !shape.NoShape? && ShapeStep(f, loc, line, shape).err.None?
    ensures Extends(f, loc, ShapeStep(f, loc, line, shape).fields, ShapeStep(f, loc, line, shape).locals)
  {
    match shape
    case OneOperand(kind, name, info, operand) =>
      OneOperandFailsIff(f, loc, kind, name, info, operand);
      OneOperandSuccess(f, loc, kind, name, info, operand);
    case TwoOperand(kind, name, info, operand1, operand2) =>
      TwoOperandFailsIff(f, loc, line, kind, name, info, operand1, operand2);
      TwoOperandSuccess(f, loc, line, kind, name, info, operand1, operand2);
  }

  lemma GrowsTransitive(a: Graph, b: Graph, c: Graph)
    requires GrowsInto(a, b) && GrowsInto(b, c)
    ensures GrowsInto(a, c)
  {
  }

  /** Bumping the line counter keeps the invariant, and every stored key is then below the counter. */
  lemma RunInvBump(f: Fields, loc: Locals)
    requires RunInv(f, loc)
    ensures RunInv(f, loc.(lineCounter := loc.lineCounter + 1))
    ensures forall k :: k in f.timestamps ==> k < loc.lineCounter + 1
  {
    assert Snapshot(f.bits, loc.(lineCounter := loc.lineCounter + 1)) == Snapshot(f.bits, loc);
  }

  /** The graph after a gate-making line extends the graph before it. */
  lemma ExtendsGrows(f: Fields, loc: Locals, f': Fields, loc': Locals)
    requires TableValid(Table(f.bitOrder, f.bits)) && TableValid(Table(f'.bitOrder, f'.bits))
    requires loc.graphBits == f.bitOrder && Extends(f, loc, f', loc')
    ensures GrowsInto(Snapshot(f.bits, loc), Snapshot(f'.bits, loc'))
  {
    var n := |loc.graphGates|;
    SnapshotIds(f.bits, loc);
    SnapshotIds(f'.bits, loc');
    assert loc'.graphGates == loc.graphGates + [loc'.graphGates[n]];
    GateIdsAppend(loc.graphGates, [loc'.graphGates[n]]);
  }

  /** Storing the grown graph `next` under a key above all others keeps the snapshots growing. */
  lemma StoreKeepsGrowth(ts: map<nat, Graph>, ts': map<nat, Graph>, cur: Graph, next: Graph, c: nat)
    requires forall k :: k in ts ==> k < c && GrowsInto(ts[k], cur)
    requires SnapshotsGrow(ts) && GrowsInto(cur, next) && ts' == ts[c := next]
    ensures forall k :: k in ts' ==> k <= c && GrowsInto(ts'[k], next)
    ensures SnapshotsGrow(ts')
  {
    forall k | k in ts'
      ensures k <= c && GrowsInto(ts'[k], next)
    {
      if k != c {
        GrowsTransitive(ts[k], cur, next);
      }
    }
  }

  /** A gate-making line keeps the gate list in step with the graph. */
  lemma ExtendsGates(f: Fields, loc: Locals, f': Fields, loc': Locals)
    requires f.links == loc.edges && f.gateIdCounter == |f.gates| == |loc.graphGates|
    requires forall i :: 0 <= i < |f.gates| ==> f.gates[i] == Record(loc.graphGates[i]) && loc.graphGates[i].id == GateId(i)
    requires Extends(f, loc, f', loc')
    ensures f'.links == loc'.edges && f'.gateIdCounter == |f'.gates| == |loc'.graphGates|
    ensures forall i :: 0 <= i < |f'.gates| ==> f'.gates[i] == Record(loc'.graphGates[i]) && loc'.graphGates[i].id == GateId(i)
  {
    var n := |loc.graphGates|;
    forall i | 0 <= i < |f'.gates|
      ensures f'.gates[i] == Record(loc'.graphGates[i]) && loc'.graphGates[i].id == GateId(i)
    {
      if i < n {
        assert loc'.graphGates[i] == loc'.graphGates[..n][i];
      }
    }
  }

  /** A gate-making line keeps the invariant: it only appends, and its key is new and the largest. */
  lemma ExtendsKeepsRunInv(f: Fields, loc: Locals, f': Fields, loc': Locals)
    requires RunInv(f, loc) && (forall k :: k in f.timestamps ==> k < loc.lineCounter)
    requires Extends(f, loc, f', loc') && TableValid(Table(f'.bitOrder, f'.bits))
    ensures RunInv(f', loc')
  {
    ExtendsGrows(f, loc, f', loc');
    StoreKeepsGrowth(f.timestamps, f'.timestamps, Snapshot(f.bits, loc), Snapshot(f'.bits, loc'), loc.lineCounter);
    ExtendsGates(f, loc, f', loc');
  }

  /** A pass of the loop that raises nothing keeps the invariant. */
  lemma StepKeepsRunInv(f: Fields, loc: Locals, raw: string)
    requires RunInv(f, loc)
    ensures Step(f, loc, raw).err.None? ==> RunInv(Step(f, loc, raw).fields, Step(f, loc, raw).locals)
  {
    if Counted(raw) && Step(f, loc, raw).err.None? {
      var line := CleanLine(raw);
      var loc1 := loc.(lineCounter := loc.lineCounter + 1);
      StepOfCountedLine(f, loc, raw);
      RunInvBump(f, loc);
      if !Classify(line).NoShape? {
        ShapeStepExtends(f, loc1, line, Classify(line));
        StepKeepsValid(f, loc, raw);
        var r := Step(f, loc, raw);
        ExtendsKeepsRunInv(f, loc1, r.fields, r.locals);
      }
    }
  }

  /**
    The loop keeps the invariant while nothing raises; snapshot 0 and the
    growth of the snapshots hold even when a line raises, since a raising
    line stores no snapshot.
  */
  lemma {:induction false} FinishKeepsRunInv(f: Fields, loc: Locals, lines: seq<string>, i: nat)
    requires RunInv(f, loc) && i <= |lines|
    ensures var r := Finish(f, loc, lines, i);
            && (r.err.None? ==> RunInv(r.fields, r.locals))
            && 0 in r.fields.timestamps && SnapshotsGrow(r.fields.timestamps)
    decreases |lines| - i
  {
    if i < |lines| {
      StepKeepsRunInv(f, loc, lines[i]);
      StepTimestamps(f, loc, lines[i]);
      var r := Step(f, loc, lines[i]);
      if r.err.None? {
        FinishKeepsRunInv(r.fields, r.locals, lines, i + 1);
      }
    }
  }

  /** `get_gates` on a parser that has declared its bits and made no gate yet starts in the invariant. */
  lemma StartRunInv(f: Fields)
    requires TableValid(Table(f.bitOrder, f.bits))
    requires f.gateIdCounter == 0 && f.gates == [] && f.links == [] && f.timestamps == map[]
    ensures RunInv(StartFields(f), StartLocals(f))
  {
    var g := Snapshot(f.bits, StartLocals(f));
    assert StartFields(f).timestamps == map[0 := g];
  }

  /**
    A whole run of the parser: when it raises nothing, `self.links` is the
    final graph's edge list, gate `i` is `g_i`, and for keys `k1 <= k2` the
    node ids and edges of snapshot `k1` are prefixes of those of `k2`. The
    stored snapshots grow like this even when a line raises.
  */
  lemma RunParserGrows(code: string)
    ensures var r := RunParser(code);
            && (r.err.None? ==> RunInv(r.fields, r.locals))
            && SnapshotsGrow(r.fields.timestamps)
  {
    var d := GetBitsSpec(EmptyTable, code);
    DeclLinesKeepsValid(EmptyTable, None, Lines(code), 0);
    if d.err.None? {
      var f := FreshFields.(bits := d.table.bits, bitOrder := d.table.order);
      StartRunInv(f);
      FinishKeepsRunInv(StartFields(f), StartLocals(f), Lines(code), 0);
    }
  }
}
