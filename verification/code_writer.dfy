/** The code writer: one Hack block per VM command (CodeWriter.py).

    Each emitter returns the instructions of its template in order, with the
    template's `//` comment lines dropped.  Writing to the output file is
    replaced by returning the block.  Label synthesis uses two counters kept
    as explicit state: the comparison counter is a class attribute of the
    source (`CodeWriter.comp_index`), so it lives in `Shared`, the state
    common to every writer of a run; the call counter is assigned through
    `self` and so becomes a field of each writer (`Writer.callIndex`). */
module CodeWriter {

  import opened Base
  import opened Strings
  import opened Hack
  import opened Commands

  datatype Error =
    | UnknownSegment(segment: string)  // KeyError on the segment table
    | UnknownOperator(op: string)      // KeyError on the operator table

  /** State shared by all writers of one run: `CodeWriter.comp_index`. */
  datatype Shared = Shared(compIndex: nat)

  /** One writer: the base name of its VM file and its own `call_index`,
      which starts at the class value 0. */
  datatype Writer = Writer(fileName: string, callIndex: nat)

  function NewWriter(fileName: string): Writer {
    Writer(fileName, 0)
  }

  // ---------------------------------------------------------------------------
  // The two tables

  /** How a segment is addressed: through a pointer register, or from a
      fixed RAM base. */
  datatype SegmentBase = Pointer(register: string) | Fixed(base: int)

  /** `push_pop_dict` */
  const SegmentTable: map<string, SegmentBase> := map[
    "local" := Pointer("LCL"),
    "argument" := Pointer("ARG"),
    "this" := Pointer("THIS"),
    "that" := Pointer("THAT"),
    "temp" := Fixed(5),
    "pointer" := Fixed(3)]

  /** The text `op_dict` slots into a template. */
  datatype OpSymbol = Plus | Minus | Amp | Bar | Bang | EqSym | GtSym | LtSym

  /** `op_dict` */
  const OpTable: map<string, OpSymbol> := map[
    "add" := Plus,
    "sub" := Minus,
    "neg" := Minus,
    "eq" := EqSym,
    "gt" := GtSym,
    "lt" := LtSym,
    "and" := Amp,
    "or" := Bar,
    "not" := Bang]

  /** `@{seg}` for a table entry: a register name prints as a symbol, a fixed
      base as a number. */
  function BaseAddr(b: SegmentBase): Addr {
    match b
    case Pointer(r) => Sym(r)
    case Fixed(n) => Num(n)
  }

  // Shorthands for the C-instructions the templates spell out.
  const AeqM: Instr := CInstr(DestA, CompM, NoJump)
  const AeqD: Instr := CInstr(DestA, CompD, NoJump)
  const DeqA: Instr := CInstr(DestD, CompA, NoJump)
  const DeqM: Instr := CInstr(DestD, CompM, NoJump)
  const MeqD: Instr := CInstr(DestM, CompD, NoJump)
  const MeqMPlus1: Instr := CInstr(DestM, MPlusOne, NoJump)
  const MeqMMinus1: Instr := CInstr(DestM, MMinusOne, NoJump)
  const AtSP: Instr := AInstr(Sym("SP"))

  function At(name: string): Instr {
    AInstr(Sym(name))
  }

  // ---------------------------------------------------------------------------
  // push and pop

  /** `push_constant` (CodeWriter.py:85-102) */
  function PushConstant(n: int): seq<Instr> {
    [ AInstr(Num(n)),
      DeqA,
      AtSP,
      AeqM,
      MeqD,
      AtSP,
      MeqMPlus1 ]
  }

  /** `push` (CodeWriter.py:104-126): from `local`, `argument`, `this` or `that`. */
  function PushSegment(segment: string, index: int): Result<seq<Instr>, Error> {
    if segment !in SegmentTable then Err(UnknownSegment(segment))
    else Ok([ AInstr(Num(index)),
              DeqA,
              AInstr(BaseAddr(SegmentTable[segment])),
              CInstr(DestD, DPlusM, NoJump),
              AeqD,
              DeqM,
              AtSP,
              AeqM,
              MeqD,
              AtSP,
              MeqMPlus1 ])
  }

  /** `pop` (CodeWriter.py:128-152): into `local`, `argument`, `this` or `that`,
      using R13 to hold the target address. */
  function PopSegment(segment: string, index: int): Result<seq<Instr>, Error> {
    if segment !in SegmentTable then Err(UnknownSegment(segment))
    else Ok([ AInstr(BaseAddr(SegmentTable[segment])),
              DeqM,
              AInstr(Num(index)),
              CInstr(DestD, DPlusA, NoJump),
              At("R13"),
              MeqD,
              AtSP,
              MeqMMinus1,
              AeqM,
              DeqM,
              At("R13"),
              AeqM,
              MeqD ])
  }

  /** The symbol of static variable `index` of a file: the file's base name up
      to its first `.`, a `.`, and the index (CodeWriter.py:169, 184). */
  function StaticSymbol(fileName: string, index: int): string {
    Split(fileName, '.')[0] + "." + IntToString(index)
  }

  /** `push_static` (CodeWriter.py:154-170) */
  function PushStatic(w: Writer, index: int): seq<Instr> {
    [ At(StaticSymbol(w.fileName, index)),
      DeqM,
      AtSP,
      AeqM,
      MeqD,
      AtSP,
      MeqMPlus1 ]
  }

  /** `pop_static` (CodeWriter.py:172-185) */
  function PopStatic(w: Writer, index: int): seq<Instr> {
    [ AtSP,
      MeqMMinus1,
      AeqM,
      DeqM,
      At(StaticSymbol(w.fileName, index)),
      MeqD ]
  }

  predicate IsTempOrPointer(segment: string) {
    segment == "temp" || segment == "pointer"
  }

  /** The fixed base of `temp` (5) or `pointer` (3). */
  function FixedBase(segment: string): int
    requires IsTempOrPointer(segment)
  {
    SegmentTable[segment].base
  }

  /** `push_temp_pointer` (CodeWriter.py:202-220): reads the absolute cell
      `base + index`, written as a number. */
  function PushTempPointer(segment: string, index: int): seq<Instr>
    requires IsTempOrPointer(segment)
  {
    [ AInstr(Num(index + FixedBase(segment))),
      DeqM,
      AtSP,
      AeqM,
      MeqD,
      AtSP,
      MeqMPlus1 ]
  }

  /** The register symbol `R{n}` that `pop_temp_pointer` writes through. */
  function RegisterSymbol(n: int): string {
    "R" + IntToString(n)
  }

  /** `pop_temp_pointer` (CodeWriter.py:222-238): writes the cell
      `base + index`, named by the register symbol `R{base + index}`. */
  function PopTempPointer(segment: string, index: int): seq<Instr>
    requires IsTempOrPointer(segment)
  {
    [ AtSP,
      MeqMMinus1,
      AeqM,
      DeqM,
      At(RegisterSymbol(FixedBase(segment) + index)),
      MeqD ]
  }

  /** `write_push_pop` (CodeWriter.py:48-73): any kind other than `Push` is
      treated as a pop; `pop constant` reaches `pop` and fails on the table. */
  function WritePushPop(w: Writer, kind: CommandKind, segment: string, index: int): (r: Result<seq<Instr>, Error>)
    ensures r.Err? <==> (segment !in SegmentTable && segment != "static" && (kind != Push || segment != "constant"))
    ensures r.Err? ==> r.error == UnknownSegment(segment)
  {
    if kind == Push then
      if segment == "constant" then Ok(PushConstant(index))
      else if segment == "static" then Ok(PushStatic(w, index))
      else if IsTempOrPointer(segment) then Ok(PushTempPointer(segment, index))
      else PushSegment(segment, index)
    else
      if segment == "static" then Ok(PopStatic(w, index))
      else if IsTempOrPointer(segment) then Ok(PopTempPointer(segment, index))
      else PopSegment(segment, index)
  }

  // ---------------------------------------------------------------------------
  // Arithmetic and logic

  predicate IsUnary(op: string) {
    op == "neg" || op == "not"
  }

  predicate IsComparison(op: string) {
    op == "eq" || op == "gt" || op == "lt"
  }

  /** `one_operand` (CodeWriter.py:187-200): `M={-|!}M` on the top of the stack. */
  function OneOperand(op: string): seq<Instr>
    requires IsUnary(op)
  {
    [ AtSP,
      MeqMMinus1,
      AeqM,
      CInstr(DestM, if OpTable[op] == Minus then NegM else NotM, NoJump),
      AtSP,
      MeqMPlus1 ]
  }

  /** `M=D{sym}M` for the binary operator symbols. */
  function BinaryComp(sym: OpSymbol): Comp
    requires sym in {Plus, Minus, Amp, Bar}
  {
    match sym
    case Plus => DPlusM
    case Minus => DMinusM
    case Amp => DAndM
    case _ => DOrM
  }

  /** `lines.replace('D-M', 'M-D')`: the rewrite that makes `sub` compute
      second-popped minus first-popped. */
  function SwapSubtraction(code: seq<Instr>): (r: seq<Instr>)
    ensures |r| == |code|
    ensures forall k :: 0 <= k < |code| ==>
      r[k] == (if code[k].CInstr? && code[k].comp == DMinusM then code[k].(comp := MMinusD) else code[k])
  {
    if |code| == 0 then []
    else
      var i := code[0];
      [if i.CInstr? && i.comp == DMinusM then i.(comp := MMinusD) else i] + SwapSubtraction(code[1..])
  }

  /** `two_operands` (CodeWriter.py:240-259), reached by every operator that
      is neither unary nor a comparison; one outside the table is a KeyError. */
  function TwoOperands(op: string): Result<seq<Instr>, Error>
    requires !IsUnary(op) && !IsComparison(op)
  {
    if op !in OpTable then Err(UnknownOperator(op))
    else
      var template :=
        [ AtSP,
          MeqMMinus1,
          AeqM,
          DeqM,
          AtSP,
          MeqMMinus1,
          AeqM,
          CInstr(DestM, BinaryComp(OpTable[op]), NoJump),
          AtSP,
          MeqMPlus1 ];
      Ok(SwapSubtraction(template))
  }

  function TrueLabel(c: nat): string {
    "TRUE" + NatToString(c)
  }

  function FinishLabel(c: nat): string {
    "FINISHCOMP" + NatToString(c)
  }

  /** `D;J{EQ|GT|LT}` */
  function ComparisonJump(op: string): Jump
    requires IsComparison(op)
  {
    match OpTable[op]
    case EqSym => JEQ
    case GtSym => JGT
    case _ => JLT
  }

  /** `comparison_op` (CodeWriter.py:261-290): labels carry the shared
      comparison counter, which then advances by one. */
  function ComparisonOp(g: Shared, op: string): (seq<Instr>, Shared)
    requires IsComparison(op)
  {
    var c := g.compIndex;
    ([ AtSP,
       MeqMMinus1,
       AeqM,
       DeqM,
       AtSP,
       MeqMMinus1,
       AeqM,
       CInstr(DestD, MMinusD, NoJump),
       At(TrueLabel(c)),
       CInstr(NoDest, CompD, ComparisonJump(op)),
       CInstr(DestD, Zero, NoJump),
       At(FinishLabel(c)),
       CInstr(NoDest, Zero, JMP),
       LabelDecl(TrueLabel(c)),
       CInstr(DestD, MinusOne, NoJump),
       LabelDecl(FinishLabel(c)),
       AtSP,
       AeqM,
       MeqD,
       AtSP,
       MeqMPlus1 ],
     Shared(c + 1))
  }

  /** `write_arithmetic` (CodeWriter.py:33-46): emits a block for each of the
      nine operators, fails on any other name, and consumes one value of the
      shared comparison counter exactly for the comparisons. */
  function WriteArithmetic(g: Shared, op: string): (r: Result<(seq<Instr>, Shared), Error>)
    ensures r.Err? <==> op !in OpTable
    ensures r.Err? ==> r.error == UnknownOperator(op)
    ensures r.Ok? ==> r.value.1.compIndex == g.compIndex + (if IsComparison(op) then 1 else 0)
  {
    if IsUnary(op) then Ok((OneOperand(op), g))
    else if IsComparison(op) then Ok(ComparisonOp(g, op))
    else
      var code :- TwoOperands(op);
      Ok((code, g))
  }

  // ---------------------------------------------------------------------------
  // Program control

  /** `write_label` (CodeWriter.py:297-299) */
  function WriteLabel(name: string): seq<Instr> {
    [LabelDecl(name)]
  }

  /** `write_goto` (CodeWriter.py:301-305) */
  function WriteGoto(name: string): seq<Instr> {
    [At(name), CInstr(NoDest, Zero, JMP)]
  }

  /** `write_if` (CodeWriter.py:307-315): pops, then jumps when the popped value is not zero. */
  function WriteIf(name: string): seq<Instr> {
    [ AtSP,
      MeqMMinus1,
      AeqM,
      DeqM,
      At(name),
      CInstr(NoDest, CompD, JNE) ]
  }

  /** `write_function` (CodeWriter.py:317-319) is an unfinished stub that writes nothing. */
  function WriteFunction(name: string, nVars: int): seq<Instr> {
    []
  }

  /** `write_return` (CodeWriter.py:363-365) is an unfinished stub that writes nothing. */
  function WriteReturn(): seq<Instr> {
    []
  }

  /** `write_internal_push` (CodeWriter.py:354-361): pushes D. */
  function InternalPush(): seq<Instr> {
    [ AtSP,
      AeqM,
      MeqD,
      AtSP,
      MeqMPlus1 ]
  }

  /** The return-address label of the `k`-th call to `f` (CodeWriter.py:322, 351). */
  function ReturnLabel(f: string, k: nat): string {
    f + "$ret" + NatToString(k)
  }

  /** The block `write_call` emits with call counter `k` (CodeWriter.py:321-351). */
  function CallBlock(f: string, nArgs: int, k: nat): seq<Instr> {
    [At(ReturnLabel(f, k)), DeqA] + InternalPush()
    + [At("LCL"), DeqM] + InternalPush()
    + [At("ARG"), DeqM] + InternalPush()
    + [At("THIS"), DeqM] + InternalPush()
    + [At("THAT"), DeqM] + InternalPush()
    + [ AInstr(Num(nArgs + 5)),
        DeqA,
        AtSP,
        CInstr(DestD, MMinusD, NoJump),
        At("ARG"),
        MeqD,
        AtSP,
        DeqM,
        At("LCL"),
        MeqD ]
    + WriteGoto(f)
    + WriteLabel(ReturnLabel(f, k))
  }

  /** `write_call` (CodeWriter.py:321-352) as written: the return label uses
      this writer's own counter, which then advances by one.  The block
      first loads the address of the label it declares last. */
  function WriteCall(w: Writer, f: string, nArgs: int): (r: (seq<Instr>, Writer))
    ensures r.1.fileName == w.fileName && r.1.callIndex == w.callIndex + 1
    ensures |r.0| >= 2
    ensures r.0[0] == At(ReturnLabel(f, w.callIndex))
    ensures r.0[|r.0| - 1] == LabelDecl(ReturnLabel(f, w.callIndex))
  {
    (CallBlock(f, nArgs, w.callIndex), w.(callIndex := w.callIndex + 1))
  }

  /** The call emitter with the counter kept in the state shared by all
      writers of a run, as `comp_index` is. */
  function WriteCallShared(g: SharedCalls, f: string, nArgs: int): (r: (seq<Instr>, SharedCalls))
    ensures r.1.callIndex == g.callIndex + 1
    ensures |r.0| >= 2
    ensures r.0[0] == At(ReturnLabel(f, g.callIndex))
    ensures r.0[|r.0| - 1] == LabelDecl(ReturnLabel(f, g.callIndex))
  {
    (CallBlock(f, nArgs, g.callIndex), SharedCalls(g.callIndex + 1))
  }

  /** A run-wide call counter. */
  datatype SharedCalls = SharedCalls(callIndex: nat)
}
