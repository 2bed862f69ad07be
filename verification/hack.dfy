/** The Hack machine language (chapter 4 of "The Elements of Computing
    Systems"), restricted to the instruction forms the translator's
    templates emit, and a small interpreter for blocks of it.

    RAM is a map from addresses to values; an address never written reads
    as 0.  Values are integers read as signed 16-bit words: the ALU's
    arithmetic results wrap to that range, plain copies move values as they
    are.  The interpreter works on one block placed at ROM address
    `origin`.  Label declarations are kept as no-op slots so that a label
    declared at index `j` of the block stands for ROM address `origin + j`;
    the symbol table `env` is the assembler's finished table, holding the
    predefined symbols, the labels and the variables.  The assembler gives
    every name it has not seen declared as a label a variable cell from
    RAM[16] upward, so a finished table has an entry for every symbol of the
    program; a name missing from `env` lies outside the model, and the
    interpreter stops on it. */
module Hack {

  import opened Base
  import opened Strings

  // ---------------------------------------------------------------------------
  // Instructions

  /** The operand of an A-instruction `@x`: a symbol or a decimal constant. */
  datatype Addr = Sym(name: string) | Num(value: int)

  /** Destination of a C-instruction; the templates store into one register at a time. */
  datatype Dest = NoDest | DestA | DestD | DestM

  /** The ALU computations the templates use, named after their mnemonics. */
  datatype Comp =
    | Zero        // 0
    | MinusOne    // -1
    | CompD       // D
    | CompA       // A
    | CompM       // M
    | NotM        // !M
    | NegM        // -M
    | MPlusOne    // M+1
    | MMinusOne   // M-1
    | DPlusA      // D+A
    | DPlusM      // D+M
    | DMinusM     // D-M
    | MMinusD     // M-D
    | DAndM       // D&M
    | DOrM        // D|M

  datatype Jump = NoJump | JEQ | JGT | JLT | JNE | JMP

  datatype Instr =
    | AInstr(addr: Addr)                          // @x
    | CInstr(dest: Dest, comp: Comp, jump: Jump)  // dest=comp;jump
    | LabelDecl(name: string)                     // (name)

  // ---------------------------------------------------------------------------
  // 16-bit words

  const WordModulus: int := 0x1_0000

  predicate IsWord(x: int) {
    -0x8000 <= x < 0x8000
  }

  /** The 16-bit word that `x` leaves in a register, read as a signed number:
      congruent to `x` modulo 2^16, and `x` itself when `x` already fits. */
  function Wrap(x: int): (w: int)
    ensures IsWord(w)
    ensures (x - w) % WordModulus == 0
    ensures IsWord(x) ==> w == x
  {
    if IsWord(x) then x
    else
      var u := (x + 0x8000) % WordModulus;
      assert x + 0x8000 == WordModulus * ((x + 0x8000) / WordModulus) + u;
      u - 0x8000
  }

  /** `x` as an unsigned 16-bit pattern. */
  function Unsigned(x: int): (u: nat)
    ensures u < WordModulus
  {
    x % WordModulus
  }

  /** Bitwise and of the low `width` bits of two naturals. */
  function AndBits(x: nat, y: nat, width: nat): nat {
    if width == 0 then 0 else (x % 2) * (y % 2) + 2 * AndBits(x / 2, y / 2, width - 1)
  }

  /** Bitwise or of the low `width` bits of two naturals. */
  function OrBits(x: nat, y: nat, width: nat): nat {
    if width == 0 then 0
    else (if x % 2 == 1 || y % 2 == 1 then 1 else 0) + 2 * OrBits(x / 2, y / 2, width - 1)
  }

  /** The ALU's `x&y` on 16-bit words. */
  function BitAnd(x: int, y: int): int {
    Wrap(AndBits(Unsigned(x), Unsigned(y), 16))
  }

  /** The ALU's `x|y` on 16-bit words. */
  function BitOr(x: int, y: int): int {
    Wrap(OrBits(Unsigned(x), Unsigned(y), 16))
  }

  /** The ALU's `!x`: flipping all 16 bits of a two's-complement word `w`
      gives `-w - 1`. */
  function BitNot(x: int): int {
    Wrap(-1 - x)
  }

  // ---------------------------------------------------------------------------
  // Machine state and the standard symbol table

  /** The predefined RAM addresses of the Hack platform's virtual registers. */
  const SP: int := 0
  const LCL: int := 1
  const ARG: int := 2
  const THIS: int := 3
  const THAT: int := 4
  const R13: int := 13

  datatype State = State(ram: map<int, int>, a: int, d: int)

  /** `RAM[addr]`; cells never written hold 0. */
  function Read(ram: map<int, int>, addr: int): int {
    if addr in ram then ram[addr] else 0
  }

  /** The symbols every Hack assembler predefines. */
  const Predefined: map<string, int> := map[
    "SP" := 0, "LCL" := 1, "ARG" := 2, "THIS" := 3, "THAT" := 4,
    "R0" := 0, "R1" := 1, "R2" := 2, "R3" := 3, "R4" := 4, "R5" := 5,
    "R6" := 6, "R7" := 7, "R8" := 8, "R9" := 9, "R10" := 10, "R11" := 11,
    "R12" := 12, "R13" := 13, "R14" := 14, "R15" := 15,
    "SCREEN" := 16384, "KBD" := 24576]

  /** A symbol table an assembler could have produced: it agrees with the
      predefined symbols. */
  ghost predicate StandardSymbols(env: map<string, int>) {
    forall s :: s in Predefined ==> s in env && env[s] == Predefined[s]
  }

  /** The virtual-register symbols the templates name resolve to their
      predefined addresses. */
  predicate VirtualRegisters(env: map<string, int>) {
    && "SP" in env && env["SP"] == SP
    && "LCL" in env && env["LCL"] == LCL
    && "ARG" in env && env["ARG"] == ARG
    && "THIS" in env && env["THIS"] == THIS
    && "THAT" in env && env["THAT"] == THAT
    && "R13" in env && env["R13"] == R13
  }

  /** Every standard symbol table binds the virtual registers. */
  lemma StandardVirtualRegisters(env: map<string, int>)
    requires StandardSymbols(env)
    ensures VirtualRegisters(env)
  {
    assert Predefined["SP"] == SP;
    assert Predefined["LCL"] == LCL;
    assert Predefined["ARG"] == ARG;
    assert Predefined["THIS"] == THIS;
    assert Predefined["THAT"] == THAT;
    assert Predefined["R13"] == R13;
  }

  /** The label declarations of `block`, placed at ROM address `origin`,
      resolve in `env` to their own slots. */
  ghost predicate LabelsPlaced(block: seq<Instr>, env: map<string, int>, origin: int) {
    forall j :: 0 <= j < |block| && block[j].LabelDecl? ==>
      block[j].name in env && env[block[j].name] == origin + j
  }

  // ---------------------------------------------------------------------------
  // One instruction

  /** The ALU output for `comp` in state `st`. */
  function Eval(comp: Comp, st: State): int {
    var m := Read(st.ram, st.a);
    match comp
    case Zero => 0
    case MinusOne => -1
    case CompD => st.d
    case CompA => st.a
    case CompM => m
    case NotM => BitNot(m)
    case NegM => Wrap(-m)
    case MPlusOne => Wrap(m + 1)
    case MMinusOne => Wrap(m - 1)
    case DPlusA => Wrap(st.d + st.a)
    case DPlusM => Wrap(st.d + m)
    case DMinusM => Wrap(st.d - m)
    case MMinusD => Wrap(m - st.d)
    case DAndM => BitAnd(st.d, m)
    case DOrM => BitOr(st.d, m)
  }

  /** Whether `jump` transfers control when the ALU output is `v`. */
  predicate Jumps(jump: Jump, v: int) {
    match jump
    case NoJump => false
    case JEQ => v == 0
    case JGT => v > 0
    case JLT => v < 0
    case JNE => v != 0
    case JMP => true
  }

  datatype Fault =
    | UndefinedSymbol(name: string)   // `env` has no entry: outside the model
    | ConstantOutOfRange(value: int)  // `@n` only holds 0 <= n < 2^15

  datatype StepResult =
    | Next(st: State)
    | Jumped(st: State, target: int)
    | Stuck(fault: Fault)

  /** Executes one instruction.  A jump goes to the ROM address held in A
      before the instruction's own store. */
  function Step(i: Instr, env: map<string, int>, st: State): (r: StepResult)
    ensures r.Jumped? ==> i.CInstr? && Jumps(i.jump, Eval(i.comp, st)) && r.target == st.a
    ensures i.LabelDecl? ==> r == Next(st)
  {
    match i
    case LabelDecl(_) => Next(st)
    case AInstr(Num(n)) =>
      if 0 <= n < 0x8000 then Next(st.(a := n)) else Stuck(ConstantOutOfRange(n))
    case AInstr(Sym(s)) =>
      if s in env then Next(st.(a := env[s])) else Stuck(UndefinedSymbol(s))
    case CInstr(dest, comp, jump) =>
      var v := Eval(comp, st);
      var st' := match dest
        case NoDest => st
        case DestA => st.(a := v)
        case DestD => st.(d := v)
        case DestM => st.(ram := st.ram[st.a := v]);
      if Jumps(jump, v) then Jumped(st', st.a) else Next(st')
  }

  // ---------------------------------------------------------------------------
  // Blocks

  /** Straight-line execution: `Some` of the final state when every
      instruction steps to the next one, `None` on a fault or a taken jump. */
  function Exec(code: seq<Instr>, env: map<string, int>, st: State): Option<State>
    decreases |code|
  {
    if |code| == 0 then Some(st)
    else match Step(code[0], env, st)
      case Next(st') => Exec(code[1..], env, st')
      case _ => None
  }


  /** How one forward pass over a block ends: control falls off its end,
      leaves it for ROM address `target` (any jump that is not forward
      within the block), or the machine faults. */
  datatype Outcome =
    | FellThrough(st: State)
    | Exited(st: State, target: int)
    | Faulted(fault: Fault)

  /** Runs `block` (placed at ROM address `origin`) from index `pc`.  A taken
      jump to a later slot of the block, or just past its end, continues
      there; any other taken jump leaves the block. */
  function Run(block: seq<Instr>, env: map<string, int>, origin: int, st: State, pc: nat): Outcome
    decreases |block| - pc
  {
    if pc >= |block| then FellThrough(st)
    else match Step(block[pc], env, st)
      case Stuck(f) => Faulted(f)
      case Next(st') => Run(block, env, origin, st', pc + 1)
      case Jumped(st', t) =>
        if origin + pc < t <= origin + |block| then Run(block, env, origin, st', t - origin)
        else Exited(st', t)
  }

  /** Runs a whole block from its first instruction. */
  function RunBlock(block: seq<Instr>, env: map<string, int>, origin: int, st: State): Outcome {
    Run(block, env, origin, st, 0)
  }

  /** Straight-line execution of two pieces in a row is the execution of their concatenation. */
  lemma {:induction false} ExecAppend(p: seq<Instr>, q: seq<Instr>, env: map<string, int>, st: State)
    ensures Exec(p + q, env, st) == (match Exec(p, env, st) case None => None case Some(s) => Exec(q, env, s))
    decreases |p|
  {
    if |p| > 0 {
      assert (p + q)[0] == p[0];
      assert (p + q)[1..] == p[1..] + q;
      match Step(p[0], env, st)
      case Next(s) => ExecAppend(p[1..], q, env, s);
      case _ =>
    } else {
      assert p + q == q;
    }
  }

  /** Straight-line execution takes one step at a time. */
  lemma ExecStep(code: seq<Instr>, env: map<string, int>, st: State, st': State)
    requires |code| > 0
    requires Step(code[0], env, st) == Next(st')
    ensures Exec(code, env, st) == Exec(code[1..], env, st')
  {
  }

  /** Two straight-line pieces run one after the other. */
  lemma ExecThen(p: seq<Instr>, q: seq<Instr>, env: map<string, int>, st: State, mid: State, st': State)
    requires Exec(p, env, st) == Some(mid)
    requires Exec(q, env, mid) == Some(st')
    ensures Exec(p + q, env, st) == Some(st')
  {
    ExecAppend(p, q, env, st);
  }

  /** A straight-line stretch inside a block runs exactly as it does on its own. */
  lemma {:induction false} RunStraight(block: seq<Instr>, env: map<string, int>, origin: int,
                                       st: State, pc: nat, code: seq<Instr>, st': State)
    requires pc + |code| <= |block| && block[pc..pc + |code|] == code
    requires Exec(code, env, st) == Some(st')
    ensures Run(block, env, origin, st, pc) == Run(block, env, origin, st', pc + |code|)
    decreases |code|
  {
    if |code| > 0 {
      assert block[pc] == code[0];
      match Step(code[0], env, st)
      case Next(s) =>
        assert block[pc + 1..pc + |code|] == code[1..];
        RunStraight(block, env, origin, s, pc + 1, code[1..], st');
      case _ =>
    }
  }

  /** A block that is one straight-line stretch falls through with the state
      its straight-line execution reaches, whatever the jump targets. */
  lemma RunStraightBlock(block: seq<Instr>, env: map<string, int>, origin: int, st: State, st': State)
    requires Exec(block, env, st) == Some(st')
    ensures RunBlock(block, env, origin, st) == FellThrough(st')
  {
    RunStraight(block, env, origin, st, 0, block, st');
  }
}
