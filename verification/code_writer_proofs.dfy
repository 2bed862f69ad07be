/** What each block of the code writer does to the Hack machine.

    Every lemma runs one emitted block with the Hack interpreter and states
    the resulting RAM as an update of the initial RAM, so that the cells not
    named are unchanged.  The expected values come from the VM language's own
    semantics (chapters 7 and 8 of "The Elements of Computing Systems"),
    stated below independently of the templates.  The stack pointer is
    assumed to lie above the sixteen virtual registers, and to stay a 16-bit
    word. */
module CodeWriterProofs {

  import opened Base
  import opened Strings
  import opened Hack
  import opened CodeWriter
  import opened Commands

  // ---------------------------------------------------------------------------
  // The VM's meaning of each operator, independent of the templates

  /** `x op y` for the binary operators; `x` is the deeper stack entry. */
  function VMBinary(op: string, x: int, y: int): int {
    match op
    case "add" => Wrap(x + y)
    case "sub" => Wrap(x - y)
    case "and" => BitAnd(x, y)
    case _ => BitOr(x, y)
  }

  function VMUnary(op: string, x: int): int {
    if op == "neg" then Wrap(-x) else BitNot(x)
  }

  /** The VM's truth values: true is -1 (all ones), false is 0. */
  function VMBool(b: bool): int {
    if b then -1 else 0
  }

  function VMCompare(op: string, x: int, y: int): bool {
    match op
    case "eq" => x == y
    case "gt" => x > y
    case _ => x < y
  }

  // ---------------------------------------------------------------------------
  // Machine-level helpers

  function StackPointer(st: State): int {
    Read(st.ram, SP)
  }

  /** Writing SP twice and then a stack cell and SP again leaves only the
      stack cell and the last SP. */
  lemma StackPointerOverwritten(ram: map<int, int>, p1: int, p2: int, cell: int, v: int, p3: int)
    requires cell != SP
    ensures ram[SP := p1][SP := p2][cell := v][SP := p3] == ram[cell := v][SP := p3]
  {
  }

  /** Moving SP away, writing a cell other than SP and moving SP back leaves
      only the written cell. */
  lemma StackPointerRestored(ram: map<int, int>, p1: int, c: int, v: int)
    requires SP in ram
    requires c != SP
    ensures ram[SP := p1][c := v][SP := ram[SP]] == ram[c := v]
  {
  }

  /** The same with two cells written. */
  lemma StackPointerRestoredTwice(ram: map<int, int>, p1: int, c1: int, v1: int, c2: int, v2: int)
    requires SP in ram
    requires c1 != SP && c2 != SP
    ensures ram[SP := p1][c1 := v1][c2 := v2][SP := ram[SP]] == ram[c1 := v1][c2 := v2]
  {
  }

  /** The stack lies above the virtual registers and can grow by `k` cells. */
  predicate RoomToPush(st: State, k: nat) {
    16 <= StackPointer(st) && StackPointer(st) + k < 0x8000
  }

  /** At least `k` entries lie on a stack above the virtual registers. */
  predicate ItemsOnStack(st: State, k: nat) {
    16 + k <= StackPointer(st) < 0x8000
  }

  /** The ROM address where execution goes on after a block placed at `origin`. */
  function Continuation(o: Outcome, block: seq<Instr>, origin: int): int
    requires !o.Faulted?
  {
    if o.FellThrough? then origin + |block| else o.target
  }

  /** `write_internal_push` stores D on top of the stack and grows it by one. */
  lemma ExecInternalPush(env: map<string, int>, st: State)
    requires VirtualRegisters(env)
    requires RoomToPush(st, 1)
    ensures Exec(InternalPush(), env, st)
         == Some(State(st.ram[StackPointer(st) := st.d][SP := StackPointer(st) + 1], SP, st.d))
  {
    var sp := StackPointer(st);
    var code := InternalPush();
    var s1 := st.(a := SP);
    var s2 := s1.(a := sp);
    var s3 := s2.(ram := st.ram[sp := st.d]);
    var s4 := s3.(a := SP);
    var s5 := s4.(ram := s3.ram[SP := sp + 1]);
    assert Exec(code[4..], env, s4) == Some(s5);
    assert Exec(code[3..], env, s3) == Some(s5);
    assert Exec(code[2..], env, s2) == Some(s5);
    assert Exec(code[1..], env, s1) == Some(s5);
  }

  /** The pop prologue shared by many templates: `@SP, M=M-1, A=M, D=M`. */
  const PopToD: seq<Instr> := [AtSP, MeqMMinus1, AeqM, DeqM]

  /** Popping into D shrinks the stack by one and leaves the old top in D
      and its address in A. */
  lemma ExecPopToD(env: map<string, int>, st: State)
    requires VirtualRegisters(env)
    requires ItemsOnStack(st, 1)
    ensures Exec(PopToD, env, st)
         == Some(State(st.ram[SP := StackPointer(st) - 1], StackPointer(st) - 1, Read(st.ram, StackPointer(st) - 1)))
  {
    var sp := StackPointer(st);
    var s1 := st.(a := SP);
    var s2 := s1.(ram := st.ram[SP := sp - 1]);
    var s3 := s2.(a := sp - 1);
    var s4 := s3.(d := Read(st.ram, sp - 1));
    assert Exec(PopToD[3..], env, s3) == Some(s4);
    assert Exec(PopToD[2..], env, s2) == Some(s4);
    assert Exec(PopToD[1..], env, s1) == Some(s4);
  }

  /** A two-instruction load of D followed by `write_internal_push` pushes
      the loaded value. */
  lemma ExecLoadPush(load: seq<Instr>, env: map<string, int>, st: State, loaded: State)
    requires VirtualRegisters(env)
    requires Exec(load, env, st) == Some(loaded)
    requires RoomToPush(loaded, 1)
    ensures Exec(load + InternalPush(), env, st)
         == Some(State(loaded.ram[StackPointer(loaded) := loaded.d][SP := StackPointer(loaded) + 1], SP, loaded.d))
  {
    ExecInternalPush(env, loaded);
    ExecThen(load, InternalPush(), env, st, loaded, State(loaded.ram[StackPointer(loaded) := loaded.d][SP := StackPointer(loaded) + 1], SP, loaded.d));
  }

  // ---------------------------------------------------------------------------
  // push constant

  /** `push constant n` stores `n` at the old stack top and grows the stack
      by one, touching no other cell; a constant that does not fit an
      A-instruction stops the machine. */
  lemma PushConstantEffect(n: int, env: map<string, int>, origin: int, st: State)
    requires VirtualRegisters(env)
    requires RoomToPush(st, 1)
    ensures var o := RunBlock(PushConstant(n), env, origin, st);
      if 0 <= n < 0x8000 then
        o.FellThrough? && o.st.ram == st.ram[StackPointer(st) := n][SP := StackPointer(st) + 1]
      else
        o == Faulted(ConstantOutOfRange(n))
  {
    var block := PushConstant(n);
    if 0 <= n < 0x8000 {
      var load := [AInstr(Num(n)), DeqA];
      var loaded := st.(a := n, d := n);
      assert Exec(load[1..], env, st.(a := n)) == Some(loaded);
      assert block == load + InternalPush();
      ExecLoadPush(load, env, st, loaded);
      RunStraightBlock(block, env, origin, st, State(st.ram[StackPointer(st) := n][SP := StackPointer(st) + 1], SP, n));
    }
  }

  // ---------------------------------------------------------------------------
  // push and pop for local, argument, this, that

  predicate IsPointerSegment(segment: string) {
    segment == "local" || segment == "argument" || segment == "this" || segment == "that"
  }

  /** The virtual register holding a segment's base address (LCL, ARG, THIS, THAT). */
  function PointerCell(segment: string): int
    requires IsPointerSegment(segment)
  {
    match segment
    case "local" => LCL
    case "argument" => ARG
    case "this" => THIS
    case _ => THAT
  }

  /** The VM address of entry `index` of a pointer-based segment. */
  function SegmentAddress(ram: map<int, int>, segment: string, index: int): int
    requires IsPointerSegment(segment)
  {
    Read(ram, PointerCell(segment)) + index
  }

  /** The table entry of a pointer segment names the register holding its base. */
  lemma PointerSegmentResolves(segment: string, env: map<string, int>)
    requires IsPointerSegment(segment)
    requires VirtualRegisters(env)
    ensures segment in SegmentTable && BaseAddr(SegmentTable[segment]).Sym?
    ensures var name := BaseAddr(SegmentTable[segment]).name;
      name in env && env[name] == PointerCell(segment)
  {
  }

  /** First stage of `push`: D := the cell at (base register + index). */
  lemma ExecLoadSegment(reg: string, index: int, env: map<string, int>, st: State)
    requires reg in env
    requires 0 <= index < 0x8000
    requires IsWord(Read(st.ram, env[reg]) + index)
    ensures var addr := Read(st.ram, env[reg]) + index;
      Exec([AInstr(Num(index)), DeqA, AInstr(Sym(reg)), CInstr(DestD, DPlusM, NoJump), AeqD, DeqM], env, st)
      == Some(State(st.ram, addr, Read(st.ram, addr)))
  {
    var code := [AInstr(Num(index)), DeqA, AInstr(Sym(reg)), CInstr(DestD, DPlusM, NoJump), AeqD, DeqM];
    var cell := env[reg];
    var addr := Read(st.ram, cell) + index;
    var s1 := st.(a := index);
    var s2 := s1.(d := index);
    var s3 := s2.(a := cell);
    var s4 := s3.(d := addr);
    var s5 := s4.(a := addr);
    var s6 := s5.(d := Read(st.ram, addr));
    ExecStep(code, env, st, s1);
    ExecStep(code[1..], env, s1, s2);
    ExecStep(code[2..], env, s2, s3);
    assert Eval(DPlusM, s3) == Wrap(index + Read(st.ram, cell));
    ExecStep(code[3..], env, s3, s4);
    ExecStep(code[4..], env, s4, s5);
    ExecStep(code[5..], env, s5, s6);
    assert code[6..] == [];
  }

  /** `push segment i` for local/argument/this/that copies the cell at
      (base register + i) onto the stack and grows it by one, touching no
      other cell; an index that does not fit an A-instruction stops the
      machine. */
  lemma PushSegmentEffect(segment: string, index: int, env: map<string, int>, origin: int, st: State)
    requires IsPointerSegment(segment)
    requires VirtualRegisters(env)
    requires RoomToPush(st, 1)
    requires IsWord(SegmentAddress(st.ram, segment, index))
    ensures PushSegment(segment, index).Ok?
    ensures var o := RunBlock(PushSegment(segment, index).value, env, origin, st);
      var sp := StackPointer(st);
      if 0 <= index < 0x8000 then
        o.FellThrough?
        && o.st.ram == st.ram[sp := Read(st.ram, SegmentAddress(st.ram, segment, index))][SP := sp + 1]
      else
        o == Faulted(ConstantOutOfRange(index))
  {
    PointerSegmentResolves(segment, env);
    var block := PushSegment(segment, index).value;
    if 0 <= index < 0x8000 {
      var reg := BaseAddr(SegmentTable[segment]).name;
      var addr := SegmentAddress(st.ram, segment, index);
      var load := block[..6];
      var s6 := State(st.ram, addr, Read(st.ram, addr));
      assert load == [AInstr(Num(index)), DeqA, AInstr(Sym(reg)), CInstr(DestD, DPlusM, NoJump), AeqD, DeqM];
      ExecLoadSegment(reg, index, env, st);
      assert block == load + InternalPush();
      ExecLoadPush(load, env, st, s6);
      RunStraightBlock(block, env, origin, st,
        State(st.ram[StackPointer(st) := Read(st.ram, addr)][SP := StackPointer(st) + 1], SP, Read(st.ram, addr)));
    }
  }

  /** The final RAM of `pop segment i`: R13 holds the target address, the
      stack has shrunk by one, and the target holds the old top. */
  function PopSegmentRam(ram: map<int, int>, segment: string, index: int): map<int, int>
    requires IsPointerSegment(segment)
  {
    var sp := Read(ram, SP);
    var addr := SegmentAddress(ram, segment, index);
    ram[R13 := addr][SP := sp - 1][addr := Read(ram, sp - 1)]
  }

  /** First stage of `pop`: R13 := base register + index. */
  lemma ExecTargetToR13(reg: string, index: int, env: map<string, int>, st: State)
    requires VirtualRegisters(env)
    requires reg in env
    requires 0 <= index < 0x8000
    requires IsWord(Read(st.ram, env[reg]) + index)
    ensures var addr := Read(st.ram, env[reg]) + index;
      Exec([AInstr(Sym(reg)), DeqM, AInstr(Num(index)), CInstr(DestD, DPlusA, NoJump), At("R13"), MeqD], env, st)
      == Some(State(st.ram[R13 := addr], R13, addr))
  {
    var code := [AInstr(Sym(reg)), DeqM, AInstr(Num(index)), CInstr(DestD, DPlusA, NoJump), At("R13"), MeqD];
    var cell := env[reg];
    var addr := Read(st.ram, cell) + index;
    var s1 := st.(a := cell);
    var s2 := s1.(d := Read(st.ram, cell));
    var s3 := s2.(a := index);
    var s4 := s3.(d := addr);
    var s5 := s4.(a := R13);
    var s6 := s5.(ram := st.ram[R13 := addr]);
    ExecStep(code, env, st, s1);
    ExecStep(code[1..], env, s1, s2);
    ExecStep(code[2..], env, s2, s3);
    assert Eval(DPlusA, s3) == Wrap(Read(st.ram, cell) + index);
    ExecStep(code[3..], env, s3, s4);
    ExecStep(code[4..], env, s4, s5);
    ExecStep(code[5..], env, s5, s6);
    assert code[6..] == [];
  }

  /** Last stage of `pop` and of the call sequence's stores: `@R13, A=M, M=D`
      writes D to the address R13 holds. */
  lemma ExecStoreViaR13(env: map<string, int>, st: State)
    requires VirtualRegisters(env)
    ensures var addr := Read(st.ram, R13);
      Exec([At("R13"), AeqM, MeqD], env, st) == Some(State(st.ram[addr := st.d], addr, st.d))
  {
    var code := [At("R13"), AeqM, MeqD];
    var addr := Read(st.ram, R13);
    var s1 := st.(a := R13);
    var s2 := s1.(a := addr);
    var s3 := s2.(ram := st.ram[addr := st.d]);
    assert Exec(code[2..], env, s2) == Some(s3);
    assert Exec(code[1..], env, s1) == Some(s3);
  }

  /** The straight-line run of the `pop` block, stage by stage. */
  lemma ExecPopSegment(segment: string, index: int, env: map<string, int>, st: State)
    requires IsPointerSegment(segment)
    requires VirtualRegisters(env)
    requires ItemsOnStack(st, 1)
    requires IsWord(SegmentAddress(st.ram, segment, index))
    requires 0 <= index < 0x8000
    ensures PopSegment(segment, index).Ok?
    ensures var r := Exec(PopSegment(segment, index).value, env, st);
      r.Some? && r.value.ram == PopSegmentRam(st.ram, segment, index)
  {
    PointerSegmentResolves(segment, env);
    var reg := BaseAddr(SegmentTable[segment]).name;
    var block := PopSegment(segment, index).value;
    var sp := StackPointer(st);
    var addr := SegmentAddress(st.ram, segment, index);
    var setR13 := [AInstr(Sym(reg)), DeqM, AInstr(Num(index)), CInstr(DestD, DPlusA, NoJump), At("R13"), MeqD];
    var store := [At("R13"), AeqM, MeqD];
    assert block == setR13 + PopToD + store;
    ExecTargetToR13(reg, index, env, st);
    var ram1 := st.ram[R13 := addr];
    var s6 := State(ram1, R13, addr);
    assert ItemsOnStack(s6, 1);
    ExecPopToD(env, s6);
    var s7 := State(ram1[SP := sp - 1], sp - 1, Read(ram1, sp - 1));
    ExecStoreViaR13(env, s7);
    var s10 := State(s7.ram[addr := s7.d], addr, s7.d);
    ExecThen(setR13, PopToD, env, st, s6, s7);
    ExecThen(setR13 + PopToD, store, env, st, s7, s10);
  }

  /** `pop segment i` for local/argument/this/that shrinks the stack by one
      and writes its old top to (base register + i); besides the stack
      pointer and that cell, only R13 changes, holding the target address.
      An index that does not fit an A-instruction stops the machine. */
  lemma PopSegmentEffect(segment: string, index: int, env: map<string, int>, origin: int, st: State)
    requires IsPointerSegment(segment)
    requires VirtualRegisters(env)
    requires ItemsOnStack(st, 1)
    requires IsWord(SegmentAddress(st.ram, segment, index))
    ensures PopSegment(segment, index).Ok?
    ensures var o := RunBlock(PopSegment(segment, index).value, env, origin, st);
      var sp := StackPointer(st);
      var addr := SegmentAddress(st.ram, segment, index);
      if 0 <= index < 0x8000 then
        o.FellThrough?
        && o.st.ram == st.ram[R13 := addr][SP := sp - 1][addr := Read(st.ram, sp - 1)]
      else
        o == Faulted(ConstantOutOfRange(index))
  {
    PointerSegmentResolves(segment, env);
    var block := PopSegment(segment, index).value;
    if 0 <= index < 0x8000 {
      ExecPopSegment(segment, index, env, st);
      RunStraightBlock(block, env, origin, st, Exec(block, env, st).value);
    } else {
      PopSegmentBadIndex(segment, index, env, origin, st);
    }
  }

  lemma PopSegmentBadIndex(segment: string, index: int, env: map<string, int>, origin: int, st: State)
    requires IsPointerSegment(segment)
    requires VirtualRegisters(env)
    requires !(0 <= index < 0x8000)
    ensures PopSegment(segment, index).Ok?
    ensures RunBlock(PopSegment(segment, index).value, env, origin, st) == Faulted(ConstantOutOfRange(index))
  {
    PointerSegmentResolves(segment, env);
    var block := PopSegment(segment, index).value;
    var cell := PointerCell(segment);
    var s1 := st.(a := cell);
    var s2 := s1.(d := Read(st.ram, cell));
    assert Step(block[0], env, st) == Next(s1);
    assert Step(block[1], env, s1) == Next(s2);
    assert Exec(block[..2][1..], env, s1) == Some(s2);
    RunStraight(block, env, origin, st, 0, block[..2], s2);
  }

  // ---------------------------------------------------------------------------
  // static


  /** Popping into entry `i` of local/argument/this/that and pushing the
      same entry again leaves the stack as it was and the value in the
      entry (R13 keeps the address as scratch), provided the entry is
      neither the stack pointer nor the segment's own base register. */
  lemma SegmentRoundTrip(segment: string, index: int, env: map<string, int>, origin: int, origin': int, st: State)
    requires IsPointerSegment(segment)
    requires VirtualRegisters(env)
    requires ItemsOnStack(st, 1)
    requires 0 <= index < 0x8000
    requires IsWord(SegmentAddress(st.ram, segment, index))
    requires SegmentAddress(st.ram, segment, index) != SP
    requires SegmentAddress(st.ram, segment, index) != PointerCell(segment)
    ensures PopSegment(segment, index).Ok? && PushSegment(segment, index).Ok?
    ensures var o1 := RunBlock(PopSegment(segment, index).value, env, origin, st);
      o1.FellThrough? &&
      var o2 := RunBlock(PushSegment(segment, index).value, env, origin', o1.st);
      var sp := StackPointer(st);
      var addr := SegmentAddress(st.ram, segment, index);
      var v := Read(st.ram, sp - 1);
      o2.FellThrough? && o2.st.ram == st.ram[R13 := addr][addr := v][sp - 1 := v]
  {
    var sp := StackPointer(st);
    var addr := SegmentAddress(st.ram, segment, index);
    var v := Read(st.ram, sp - 1);
    PopSegmentEffect(segment, index, env, origin, st);
    var mid := RunBlock(PopSegment(segment, index).value, env, origin, st).st;
    assert mid.ram == st.ram[R13 := addr][SP := sp - 1][addr := v];
    assert StackPointer(mid) == sp - 1;
    assert Read(mid.ram, PointerCell(segment)) == Read(st.ram, PointerCell(segment));
    assert SegmentAddress(mid.ram, segment, index) == addr;
    PushSegmentEffect(segment, index, env, origin', mid);
    assert Read(mid.ram, addr) == v;
    assert SP in st.ram && st.ram[SP] == sp;
  }
  /** `push static i` copies the cell the assembler gave to the file's static
      symbol for `i` onto the stack and grows it by one. */
  lemma PushStaticEffect(w: Writer, index: int, env: map<string, int>, origin: int, st: State)
    requires VirtualRegisters(env)
    requires RoomToPush(st, 1)
    requires StaticSymbol(w.fileName, index) in env
    ensures var o := RunBlock(PushStatic(w, index), env, origin, st);
      var sp := StackPointer(st);
      o.FellThrough?
      && o.st.ram == st.ram[sp := Read(st.ram, env[StaticSymbol(w.fileName, index)])][SP := sp + 1]
  {
    var block := PushStatic(w, index);
    var addr := env[StaticSymbol(w.fileName, index)];
    var load := block[..2];
    var loaded := st.(a := addr, d := Read(st.ram, addr));
    assert Exec(load[1..], env, st.(a := addr)) == Some(loaded);
    assert block == load + InternalPush();
    ExecLoadPush(load, env, st, loaded);
    RunStraightBlock(block, env, origin, st,
      State(st.ram[StackPointer(st) := Read(st.ram, addr)][SP := StackPointer(st) + 1], SP, Read(st.ram, addr)));
  }

  /** `pop static i` shrinks the stack by one and writes its old top to the
      cell of the file's static symbol for `i`; nothing else changes. */
  lemma PopStaticEffect(w: Writer, index: int, env: map<string, int>, origin: int, st: State)
    requires VirtualRegisters(env)
    requires ItemsOnStack(st, 1)
    requires StaticSymbol(w.fileName, index) in env
    ensures var o := RunBlock(PopStatic(w, index), env, origin, st);
      var sp := StackPointer(st);
      o.FellThrough?
      && o.st.ram == st.ram[SP := sp - 1][env[StaticSymbol(w.fileName, index)] := Read(st.ram, sp - 1)]
  {
    var block := PopStatic(w, index);
    var sp := StackPointer(st);
    var addr := env[StaticSymbol(w.fileName, index)];
    ExecPopToD(env, st);
    var s1 := State(st.ram[SP := sp - 1], sp - 1, Read(st.ram, sp - 1));
    var s2 := s1.(a := addr);
    var s3 := s2.(ram := s1.ram[addr := Read(st.ram, sp - 1)]);
    var store := block[4..];
    assert Exec(store[1..], env, s2) == Some(s3);
    assert block == PopToD + store;
    ExecThen(PopToD, store, env, st, s1, s3);
    RunStraightBlock(block, env, origin, st, s3);
  }

  /** Popping into static `i` and pushing static `i` again leaves the stack
      as it was and the value in the static cell. */
  lemma StaticRoundTrip(w: Writer, index: int, env: map<string, int>, origin: int, origin': int, st: State)
    requires VirtualRegisters(env)
    requires ItemsOnStack(st, 1)
    requires StaticSymbol(w.fileName, index) in env
    requires env[StaticSymbol(w.fileName, index)] != SP
    ensures var o1 := RunBlock(PopStatic(w, index), env, origin, st);
      o1.FellThrough? &&
      var o2 := RunBlock(PushStatic(w, index), env, origin', o1.st);
      var sp := StackPointer(st);
      var v := Read(st.ram, sp - 1);
      o2.FellThrough?
      && o2.st.ram == st.ram[env[StaticSymbol(w.fileName, index)] := v][sp - 1 := v]
  {
    var sp := StackPointer(st);
    var addr := env[StaticSymbol(w.fileName, index)];
    var v := Read(st.ram, sp - 1);
    PopStaticEffect(w, index, env, origin, st);
    var mid := RunBlock(PopStatic(w, index), env, origin, st).st;
    assert mid.ram == st.ram[SP := sp - 1][addr := v];
    assert RoomToPush(mid, 1);
    PushStaticEffect(w, index, env, origin', mid);
    assert Read(mid.ram, addr) == v;
  }

  // ---------------------------------------------------------------------------
  // temp and pointer

  /** The VM address of `temp i` (RAM[5 + i]) or `pointer i` (RAM[3 + i]). */
  function FixedSegmentAddress(segment: string, index: int): int
    requires IsTempOrPointer(segment)
  {
    (if segment == "temp" then 5 else 3) + index
  }

  /** `push temp i` / `push pointer i` copies the fixed cell onto the stack
      and grows it by one; an address that does not fit an A-instruction
      stops the machine. */
  lemma PushTempPointerEffect(segment: string, index: int, env: map<string, int>, origin: int, st: State)
    requires IsTempOrPointer(segment)
    requires VirtualRegisters(env)
    requires RoomToPush(st, 1)
    ensures var o := RunBlock(PushTempPointer(segment, index), env, origin, st);
      var sp := StackPointer(st);
      var addr := FixedSegmentAddress(segment, index);
      if 0 <= addr < 0x8000 then
        o.FellThrough? && o.st.ram == st.ram[sp := Read(st.ram, addr)][SP := sp + 1]
      else
        o == Faulted(ConstantOutOfRange(addr))
  {
    var block := PushTempPointer(segment, index);
    var addr := FixedSegmentAddress(segment, index);
    assert block[0] == AInstr(Num(addr));
    if 0 <= addr < 0x8000 {
      var load := block[..2];
      var loaded := st.(a := addr, d := Read(st.ram, addr));
      ExecStep(load, env, st, st.(a := addr));
      ExecStep(load[1..], env, st.(a := addr), loaded);
      assert block == load + InternalPush();
      ExecLoadPush(load, env, st, loaded);
      RunStraightBlock(block, env, origin, st,
        State(st.ram[StackPointer(st) := Read(st.ram, addr)][SP := StackPointer(st) + 1], SP, Read(st.ram, addr)));
    }
  }

  /** `R0` .. `R9` are the letter and one digit. */
  lemma OneDigitRegisterSymbol(k: int)
    requires 0 <= k <= 9
    ensures RegisterSymbol(k) == ['R', DigitChar(k)]
  {
  }

  /** `R10` .. `R15` are the letter, a one and one more digit. */
  lemma TwoDigitRegisterSymbol(k: int)
    requires 10 <= k <= 15
    ensures RegisterSymbol(k) == ['R', '1', DigitChar(k - 10)]
  {
    assert NatToString(k) == NatToString(1) + [DigitChar(k - 10)];
  }

  /** The register symbols of the low registers, `R0` .. `R9`. */
  lemma LowRegisterSymbol(k: int)
    requires 0 <= k <= 9
    ensures RegisterSymbol(k) in Predefined && Predefined[RegisterSymbol(k)] == k
  {
    OneDigitRegisterSymbol(k);
    if k < 5 {
      if k == 0 { assert RegisterSymbol(k) == "R0"; }
      else if k == 1 { assert RegisterSymbol(k) == "R1"; }
      else if k == 2 { assert RegisterSymbol(k) == "R2"; }
      else if k == 3 { assert RegisterSymbol(k) == "R3"; }
      else { assert RegisterSymbol(k) == "R4"; }
    } else {
      if k == 5 { assert RegisterSymbol(k) == "R5"; }
      else if k == 6 { assert RegisterSymbol(k) == "R6"; }
      else if k == 7 { assert RegisterSymbol(k) == "R7"; }
      else if k == 8 { assert RegisterSymbol(k) == "R8"; }
      else { assert RegisterSymbol(k) == "R9"; }
    }
  }

  /** The register symbols of the high registers, `R10` .. `R15`. */
  lemma HighRegisterSymbol(k: int)
    requires 10 <= k <= 15
    ensures RegisterSymbol(k) in Predefined && Predefined[RegisterSymbol(k)] == k
  {
    TwoDigitRegisterSymbol(k);
    if k == 10 { assert RegisterSymbol(k) == "R10"; }
    else if k == 11 { assert RegisterSymbol(k) == "R11"; }
    else if k == 12 { assert RegisterSymbol(k) == "R12"; }
    else if k == 13 { assert RegisterSymbol(k) == "R13"; }
    else if k == 14 { assert RegisterSymbol(k) == "R14"; }
    else { assert RegisterSymbol(k) == "R15"; }
  }

  /** `R0` .. `R15` are predefined as RAM addresses 0 .. 15. */
  lemma RegisterSymbolResolves(k: int, env: map<string, int>)
    requires StandardSymbols(env)
    requires 0 <= k <= 15
    ensures RegisterSymbol(k) in env && env[RegisterSymbol(k)] == k
  {
    if k <= 9 { LowRegisterSymbol(k); } else { HighRegisterSymbol(k); }
  }

  /** `pop temp i` / `pop pointer i` shrinks the stack by one and writes its
      old top to the fixed cell, which the template names `R{5+i}` /
      `R{3+i}`; nothing else changes. */
  lemma PopTempPointerEffect(segment: string, index: int, env: map<string, int>, origin: int, st: State)
    requires IsTempOrPointer(segment)
    requires VirtualRegisters(env)
    requires ItemsOnStack(st, 1)
    requires var addr := FixedSegmentAddress(segment, index);
      RegisterSymbol(addr) in env && env[RegisterSymbol(addr)] == addr
    ensures var o := RunBlock(PopTempPointer(segment, index), env, origin, st);
      var sp := StackPointer(st);
      o.FellThrough?
      && o.st.ram == st.ram[SP := sp - 1][FixedSegmentAddress(segment, index) := Read(st.ram, sp - 1)]
  {
    var block := PopTempPointer(segment, index);
    var sp := StackPointer(st);
    var addr := FixedSegmentAddress(segment, index);
    assert block[4] == At(RegisterSymbol(addr));
    ExecPopToD(env, st);
    var s1 := State(st.ram[SP := sp - 1], sp - 1, Read(st.ram, sp - 1));
    var s2 := s1.(a := addr);
    var s3 := s2.(ram := s1.ram[addr := Read(st.ram, sp - 1)]);
    var store := block[4..];
    ExecStep(store, env, s1, s2);
    ExecStep(store[1..], env, s2, s3);
    assert store[2..] == [];
    assert block == PopToD + store;
    ExecThen(PopToD, store, env, st, s1, s3);
    RunStraightBlock(block, env, origin, st, s3);
  }

  /** The round trip through a fixed cell whose register symbol resolves. */
  lemma TempPointerRoundTripResolved(segment: string, index: int, env: map<string, int>, origin: int, origin': int, st: State)
    requires IsTempOrPointer(segment)
    requires VirtualRegisters(env)
    requires ItemsOnStack(st, 1)
    requires var addr := FixedSegmentAddress(segment, index);
      0 < addr <= 15 && RegisterSymbol(addr) in env && env[RegisterSymbol(addr)] == addr
    ensures var o1 := RunBlock(PopTempPointer(segment, index), env, origin, st);
      o1.FellThrough? &&
      var o2 := RunBlock(PushTempPointer(segment, index), env, origin', o1.st);
      var sp := StackPointer(st);
      var v := Read(st.ram, sp - 1);
      o2.FellThrough?
      && o2.st.ram == st.ram[FixedSegmentAddress(segment, index) := v][sp - 1 := v]
  {
    var sp := StackPointer(st);
    var addr := FixedSegmentAddress(segment, index);
    var v := Read(st.ram, sp - 1);
    PopTempPointerEffect(segment, index, env, origin, st);
    var mid := RunBlock(PopTempPointer(segment, index), env, origin, st).st;
    assert mid.ram == st.ram[SP := sp - 1][addr := v];
    assert StackPointer(mid) == sp - 1;
    PushTempPointerEffect(segment, index, env, origin', mid);
    assert Read(mid.ram, addr) == v;
    assert SP in st.ram && st.ram[SP] == sp;
    StackPointerRestoredTwice(st.ram, sp - 1, addr, v, sp - 1, v);
  }

  /** Popping into `temp i` / `pointer i` and pushing it again leaves the
      stack as it was and the value in the fixed cell, for every cell the
      standard symbols `R1` .. `R15` name. */
  lemma TempPointerRoundTrip(segment: string, index: int, env: map<string, int>, origin: int, origin': int, st: State)
    requires IsTempOrPointer(segment)
    requires StandardSymbols(env)
    requires ItemsOnStack(st, 1)
    requires 0 < FixedSegmentAddress(segment, index) <= 15
    ensures var o1 := RunBlock(PopTempPointer(segment, index), env, origin, st);
      o1.FellThrough? &&
      var o2 := RunBlock(PushTempPointer(segment, index), env, origin', o1.st);
      var sp := StackPointer(st);
      var v := Read(st.ram, sp - 1);
      o2.FellThrough?
      && o2.st.ram == st.ram[FixedSegmentAddress(segment, index) := v][sp - 1 := v]
  {
    StandardVirtualRegisters(env);
    RegisterSymbolResolves(FixedSegmentAddress(segment, index), env);
    TempPointerRoundTripResolved(segment, index, env, origin, origin', st);
  }

  // ---------------------------------------------------------------------------
  // Arithmetic and logic

  /** Bitwise and does not depend on the order of its operands. */
  lemma {:induction false} AndBitsCommute(x: nat, y: nat, width: nat)
    ensures AndBits(x, y, width) == AndBits(y, x, width)
  {
    if width > 0 {
      AndBitsCommute(x / 2, y / 2, width - 1);
    }
  }

  /** Bitwise or does not depend on the order of its operands. */
  lemma {:induction false} OrBitsCommute(x: nat, y: nat, width: nat)
    ensures OrBits(x, y, width) == OrBits(y, x, width)
  {
    if width > 0 {
      OrBitsCommute(x / 2, y / 2, width - 1);
    }
  }

  /** `@SP, M=M-1, A=M, M=comp, @SP, M=M+1` overwrites the top entry with
      `comp` evaluated there and leaves SP as it was: the whole unary
      template, and the end of the binary one once `y` is in D. */
  lemma ExecStoreTop(comp: Comp, env: map<string, int>, p: State)
    requires VirtualRegisters(env)
    requires ItemsOnStack(p, 1)
    ensures var sp := StackPointer(p);
      var s3 := State(p.ram[SP := sp - 1], sp - 1, p.d);
      Exec([AtSP, MeqMMinus1, AeqM, CInstr(DestM, comp, NoJump), AtSP, MeqMPlus1], env, p)
      == Some(State(p.ram[SP := sp - 1][sp - 1 := Eval(comp, s3)][SP := sp], SP, p.d))
  {
    var rest := [AtSP, MeqMMinus1, AeqM, CInstr(DestM, comp, NoJump), AtSP, MeqMPlus1];
    var sp := StackPointer(p);
    var s1 := p.(a := SP);
    var s2 := s1.(ram := p.ram[SP := sp - 1]);
    var s3 := s2.(a := sp - 1);
    var s4 := s3.(ram := s2.ram[sp - 1 := Eval(comp, s3)]);
    var s5 := s4.(a := SP);
    var s6 := s5.(ram := s4.ram[SP := sp]);
    ExecStep(rest, env, p, s1);
    ExecStep(rest[1..], env, s1, s2);
    ExecStep(rest[2..], env, s2, s3);
    ExecStep(rest[3..], env, s3, s4);
    ExecStep(rest[4..], env, s4, s5);
    ExecStep(rest[5..], env, s5, s6);
    assert rest[6..] == [];
  }

  /** `neg` and `not` replace the top of the stack by its negation or
      complement; the stack pointer ends where it started. */
  lemma UnaryEffect(op: string, env: map<string, int>, origin: int, st: State)
    requires IsUnary(op)
    requires VirtualRegisters(env)
    requires ItemsOnStack(st, 1)
    ensures var o := RunBlock(OneOperand(op), env, origin, st);
      var sp := StackPointer(st);
      o.FellThrough? && o.st.ram == st.ram[sp - 1 := VMUnary(op, Read(st.ram, sp - 1))]
  {
    var code := OneOperand(op);
    var comp := if OpTable[op] == Minus then NegM else NotM;
    var sp := StackPointer(st);
    var r := VMUnary(op, Read(st.ram, sp - 1));
    assert code == [AtSP, MeqMMinus1, AeqM, CInstr(DestM, comp, NoJump), AtSP, MeqMPlus1];
    ExecStoreTop(comp, env, st);
    var s3 := State(st.ram[SP := sp - 1], sp - 1, st.d);
    assert Eval(comp, s3) == r by {
      if op == "neg" { assert OpTable[op] == Minus; } else { assert OpTable[op] == Bang; }
    }
    assert SP in st.ram && st.ram[SP] == sp;
    StackPointerRestored(st.ram, sp - 1, sp - 1, r);
    RunStraightBlock(code, env, origin, st, State(st.ram[sp - 1 := r], SP, st.d));
  }

  /** The comp the binary template ends with, after the `D-M` rewrite. */
  function BinaryStoreComp(op: string): Comp {
    match op
    case "add" => DPlusM
    case "sub" => MMinusD
    case "and" => DAndM
    case _ => DOrM
  }

  /** After the `D-M` rewrite the operator slot holds the comp that stores
      `x op y`. */
  lemma SwappedBinaryComp(op: string)
    requires op in {"add", "sub", "and", "or"}
    ensures OpTable[op] in {Plus, Minus, Amp, Bar}
    ensures var b := BinaryComp(OpTable[op]);
      (if b == DMinusM then MMinusD else b) == BinaryStoreComp(op)
  {
    if op == "add" { assert OpTable[op] == Plus; }
    else if op == "sub" { assert OpTable[op] == Minus; }
    else if op == "and" { assert OpTable[op] == Amp; }
    else { assert OpTable[op] == Bar; }
  }

  /** The binary template is the pop into D followed by the store of `x op y`. */
  lemma TwoOperandsShape(op: string)
    requires op in {"add", "sub", "and", "or"}
    ensures TwoOperands(op)
         == Ok(PopToD + [AtSP, MeqMMinus1, AeqM, CInstr(DestM, BinaryStoreComp(op), NoJump), AtSP, MeqMPlus1])
  {
    SwappedBinaryComp(op);
    var t := [AtSP, MeqMMinus1, AeqM, DeqM, AtSP, MeqMMinus1, AeqM,
              CInstr(DestM, BinaryComp(OpTable[op]), NoJump), AtSP, MeqMPlus1];
    var e := PopToD + [AtSP, MeqMMinus1, AeqM, CInstr(DestM, BinaryStoreComp(op), NoJump), AtSP, MeqMPlus1];
    var r := SwapSubtraction(t);
    assert TwoOperands(op) == Ok(r);
    forall k | 0 <= k < 10
      ensures r[k] == e[k]
    {
      if k != 7 {
        assert t[k] == e[k] && !(t[k].CInstr? && t[k].comp == DMinusM);
      }
    }
    assert r == e;
  }

  /** With `y` in D and `x` at A, the stored comp computes `x op y`. */
  lemma BinaryStoreValue(op: string, s: State)
    requires op in {"add", "sub", "and", "or"}
    ensures Eval(BinaryStoreComp(op), s) == VMBinary(op, Read(s.ram, s.a), s.d)
  {
    var x := Read(s.ram, s.a);
    if op == "and" {
      AndBitsCommute(Unsigned(x), Unsigned(s.d), 16);
    } else if op == "or" {
      OrBitsCommute(Unsigned(x), Unsigned(s.d), 16);
    }
  }

  /** `add`, `sub`, `and` and `or` pop `y`, then replace the next entry `x`
      by `x op y`: the stack shrinks by one and `sub` computes `x - y`. */
  lemma BinaryEffect(op: string, env: map<string, int>, origin: int, st: State)
    requires op in {"add", "sub", "and", "or"}
    requires VirtualRegisters(env)
    requires ItemsOnStack(st, 2)
    ensures TwoOperands(op).Ok?
    ensures var o := RunBlock(TwoOperands(op).value, env, origin, st);
      var sp := StackPointer(st);
      o.FellThrough?
      && o.st.ram == st.ram[sp - 2 := VMBinary(op, Read(st.ram, sp - 2), Read(st.ram, sp - 1))][SP := sp - 1]
  {
    var rest := [AtSP, MeqMMinus1, AeqM, CInstr(DestM, BinaryStoreComp(op), NoJump), AtSP, MeqMPlus1];
    TwoOperandsShape(op);
    var block := PopToD + rest;
    var sp := StackPointer(st);
    var x := Read(st.ram, sp - 2);
    var y := Read(st.ram, sp - 1);
    var r := VMBinary(op, x, y);
    ExecPopToD(env, st);
    var p := State(st.ram[SP := sp - 1], sp - 1, y);
    var s3 := State(p.ram[SP := sp - 2], sp - 2, y);
    assert Read(s3.ram, s3.a) == x;
    BinaryStoreValue(op, s3);
    ExecStoreTop(BinaryStoreComp(op), env, p);
    var s6 := State(p.ram[SP := sp - 2][sp - 2 := r][SP := sp - 1], SP, y);
    ExecThen(PopToD, rest, env, st, p, s6);
    StackPointerOverwritten(st.ram, sp - 1, sp - 2, sp - 2, r, sp - 1);
    RunStraightBlock(block, env, origin, st, s6);
  }

  /** The first nine instructions of a comparison pop `y`, drop the stack
      to `x`, compute `x - y` in D and point A at the TRUE label. */
  lemma ExecComparisonPrefix(target: string, env: map<string, int>, st: State)
    requires VirtualRegisters(env)
    requires ItemsOnStack(st, 2)
    requires target in env
    ensures var sp := StackPointer(st);
      Exec(PopToD + [AtSP, MeqMMinus1, AeqM, CInstr(DestD, MMinusD, NoJump), At(target)], env, st)
      == Some(State(st.ram[SP := sp - 1][SP := sp - 2], env[target],
                    Wrap(Read(st.ram, sp - 2) - Read(st.ram, sp - 1))))
  {
    var sp := StackPointer(st);
    var rest := [AtSP, MeqMMinus1, AeqM, CInstr(DestD, MMinusD, NoJump), At(target)];
    ExecPopToD(env, st);
    var p := State(st.ram[SP := sp - 1], sp - 1, Read(st.ram, sp - 1));
    var s1 := p.(a := SP);
    var s2 := s1.(ram := p.ram[SP := sp - 2]);
    var s3 := s2.(a := sp - 2);
    var s4 := s3.(d := Wrap(Read(st.ram, sp - 2) - Read(st.ram, sp - 1)));
    var s5 := s4.(a := env[target]);
    ExecStep(rest, env, p, s1);
    ExecStep(rest[1..], env, s1, s2);
    ExecStep(rest[2..], env, s2, s3);
    ExecStep(rest[3..], env, s3, s4);
    ExecStep(rest[4..], env, s4, s5);
    assert rest[5..] == [];
    ExecThen(PopToD, rest, env, st, p, s5);
  }

  /** From the conditional jump on, a comparison block pushes -1 when the
      jump is taken and 0 otherwise, then falls off its end. */
  lemma ComparisonFromJump(g: Shared, op: string, env: map<string, int>, origin: int, sA: State)
    requires IsComparison(op)
    requires VirtualRegisters(env)
    requires LabelsPlaced(ComparisonOp(g, op).0, env, origin)
    requires RoomToPush(sA, 1)
    requires sA.a == origin + 13
    ensures var b := VMBool(Jumps(ComparisonJump(op), sA.d));
      var sp := StackPointer(sA);
      Run(ComparisonOp(g, op).0, env, origin, sA, 9)
      == FellThrough(State(sA.ram[sp := b][SP := sp + 1], SP, b))
  {
    if Jumps(ComparisonJump(op), sA.d) {
      ComparisonTaken(g, op, env, origin, sA);
    } else {
      ComparisonNotTaken(g, op, env, origin, sA);
    }
  }

  /** Both branches of a comparison end in the same five instructions,
      which push D. */
  lemma ComparisonPushTail(g: Shared, op: string, env: map<string, int>, origin: int, s: State)
    requires IsComparison(op)
    requires VirtualRegisters(env)
    requires RoomToPush(s, 1)
    ensures var sp := StackPointer(s);
      Run(ComparisonOp(g, op).0, env, origin, s, 16)
      == FellThrough(State(s.ram[sp := s.d][SP := sp + 1], SP, s.d))
  {
    var block := ComparisonOp(g, op).0;
    var push := InternalPush();
    assert block[16..21] == push;
    ExecInternalPush(env, s);
    RunStraight(block, env, origin, s, 16, push,
      State(s.ram[StackPointer(s) := s.d][SP := StackPointer(s) + 1], SP, s.d));
  }

  /** The true branch sets D to -1 and runs on into the push. */
  lemma ComparisonTrueBranch(g: Shared, op: string, env: map<string, int>, origin: int, sA: State)
    requires IsComparison(op)
    ensures Run(ComparisonOp(g, op).0, env, origin, sA, 13)
         == Run(ComparisonOp(g, op).0, env, origin, sA.(d := -1), 16)
  {
    var block := ComparisonOp(g, op).0;
    var c := g.compIndex;
    var sT := sA.(d := -1);
    var mid := [LabelDecl(TrueLabel(c)), CInstr(DestD, MinusOne, NoJump), LabelDecl(FinishLabel(c))];
    assert block[13..16] == mid;
    ExecStep(mid, env, sA, sA);
    ExecStep(mid[1..], env, sA, sT);
    ExecStep(mid[2..], env, sT, sT);
    assert mid[3..] == [];
    RunStraight(block, env, origin, sA, 13, mid, sT);
  }

  lemma ComparisonTaken(g: Shared, op: string, env: map<string, int>, origin: int, sA: State)
    requires IsComparison(op)
    requires VirtualRegisters(env)
    requires RoomToPush(sA, 1)
    requires sA.a == origin + 13
    requires Jumps(ComparisonJump(op), sA.d)
    ensures var sp := StackPointer(sA);
      Run(ComparisonOp(g, op).0, env, origin, sA, 9)
      == FellThrough(State(sA.ram[sp := -1][SP := sp + 1], SP, -1))
  {
    var block := ComparisonOp(g, op).0;
    assert Step(block[9], env, sA) == Jumped(sA, origin + 13);
    assert Run(block, env, origin, sA, 9) == Run(block, env, origin, sA, 13);
    ComparisonTrueBranch(g, op, env, origin, sA);
    ComparisonPushTail(g, op, env, origin, sA.(d := -1));
  }

  /** The false branch sets D to 0 and jumps over the true branch to the
      finish label. */
  lemma ComparisonFalseBranch(g: Shared, op: string, env: map<string, int>, origin: int, sA: State)
    requires IsComparison(op)
    requires LabelsPlaced(ComparisonOp(g, op).0, env, origin)
    ensures FinishLabel(g.compIndex) in env
    ensures Run(ComparisonOp(g, op).0, env, origin, sA, 10)
         == Run(ComparisonOp(g, op).0, env, origin, sA.(d := 0, a := env[FinishLabel(g.compIndex)]), 16)
  {
    var block := ComparisonOp(g, op).0;
    var c := g.compIndex;
    assert block[15] == LabelDecl(FinishLabel(c));
    var f := env[FinishLabel(c)];
    var sF := sA.(d := 0);
    var sB := sF.(a := f);
    var mid := [CInstr(DestD, Zero, NoJump), At(FinishLabel(c))];
    assert block[10..12] == mid;
    ExecStep(mid, env, sA, sF);
    ExecStep(mid[1..], env, sF, sB);
    assert mid[2..] == [];
    RunStraight(block, env, origin, sA, 10, mid, sB);
    assert Step(block[12], env, sB) == Jumped(sB, f);
    assert Run(block, env, origin, sB, 12) == Run(block, env, origin, sB, 15);
    assert Run(block, env, origin, sB, 15) == Run(block, env, origin, sB, 16);
  }

  lemma ComparisonNotTaken(g: Shared, op: string, env: map<string, int>, origin: int, sA: State)
    requires IsComparison(op)
    requires VirtualRegisters(env)
    requires LabelsPlaced(ComparisonOp(g, op).0, env, origin)
    requires RoomToPush(sA, 1)
    requires !Jumps(ComparisonJump(op), sA.d)
    ensures var sp := StackPointer(sA);
      Run(ComparisonOp(g, op).0, env, origin, sA, 9)
      == FellThrough(State(sA.ram[sp := 0][SP := sp + 1], SP, 0))
  {
    var block := ComparisonOp(g, op).0;
    assert Step(block[9], env, sA) == Next(sA);
    assert Run(block, env, origin, sA, 9) == Run(block, env, origin, sA, 10);
    ComparisonFalseBranch(g, op, env, origin, sA);
    ComparisonPushTail(g, op, env, origin, sA.(d := 0, a := env[FinishLabel(g.compIndex)]));
  }

  /** `eq`, `gt` and `lt` replace the two top entries `x` (deeper) and `y`
      by -1 when the jump condition holds of the 16-bit difference `x - y`
      and by 0 otherwise; the stack shrinks by one and control leaves the
      block at its end, whichever branch was taken. */
  lemma ComparisonEffect(g: Shared, op: string, env: map<string, int>, origin: int, st: State)
    requires IsComparison(op)
    requires VirtualRegisters(env)
    requires LabelsPlaced(ComparisonOp(g, op).0, env, origin)
    requires ItemsOnStack(st, 2)
    ensures var o := RunBlock(ComparisonOp(g, op).0, env, origin, st);
      var sp := StackPointer(st);
      var x := Read(st.ram, sp - 2);
      var y := Read(st.ram, sp - 1);
      o.FellThrough?
      && o.st.ram == st.ram[sp - 2 := VMBool(Jumps(ComparisonJump(op), Wrap(x - y)))][SP := sp - 1]
  {
    var sp := StackPointer(st);
    var v := Wrap(Read(st.ram, sp - 2) - Read(st.ram, sp - 1));
    var b := VMBool(Jumps(ComparisonJump(op), v));
    var ramA := st.ram[SP := sp - 1][SP := sp - 2];
    var sA := State(ramA, origin + 13, v);
    assert StackPointer(sA) == sp - 2;
    ComparisonReachesJump(g, op, env, origin, st);
    ComparisonFromJump(g, op, env, origin, sA);
    StackPointerOverwritten(st.ram, sp - 1, sp - 2, sp - 2, b, sp - 1);
  }

  /** The first nine instructions of a comparison run straight to the
      conditional jump, with `x - y` in D and the TRUE label's address in A. */
  lemma ComparisonReachesJump(g: Shared, op: string, env: map<string, int>, origin: int, st: State)
    requires IsComparison(op)
    requires VirtualRegisters(env)
    requires LabelsPlaced(ComparisonOp(g, op).0, env, origin)
    requires ItemsOnStack(st, 2)
    ensures var sp := StackPointer(st);
      var v := Wrap(Read(st.ram, sp - 2) - Read(st.ram, sp - 1));
      RunBlock(ComparisonOp(g, op).0, env, origin, st)
      == Run(ComparisonOp(g, op).0, env, origin, State(st.ram[SP := sp - 1][SP := sp - 2], origin + 13, v), 9)
  {
    var block := ComparisonOp(g, op).0;
    var c := g.compIndex;
    var sp := StackPointer(st);
    var v := Wrap(Read(st.ram, sp - 2) - Read(st.ram, sp - 1));
    assert block[13] == LabelDecl(TrueLabel(c));
    var pre := PopToD + [AtSP, MeqMMinus1, AeqM, CInstr(DestD, MMinusD, NoJump), At(TrueLabel(c))];
    assert block[..9] == pre;
    ExecComparisonPrefix(TrueLabel(c), env, st);
    RunStraight(block, env, origin, st, 0, pre, State(st.ram[SP := sp - 1][SP := sp - 2], origin + 13, v));
  }

  /** When `x - y` fits a word, the jump test on the difference is exactly
      the VM's comparison, so the comparison blocks push the VM's truth value. */
  lemma ComparisonAgrees(op: string, x: int, y: int)
    requires IsComparison(op)
    requires IsWord(x - y)
    ensures Jumps(ComparisonJump(op), Wrap(x - y)) <==> VMCompare(op, x, y)
  {
    assert Wrap(x - y) == x - y;
    if op == "eq" { assert OpTable[op] == EqSym; }
    else if op == "gt" { assert OpTable[op] == GtSym; }
    else { assert OpTable[op] == LtSym; }
  }

  /** Testing the sign of the wrapped difference misjudges operands far
      apart: `20000 gt -20000` pushes false. */
  lemma ComparisonOverflow()
    ensures !Jumps(ComparisonJump("gt"), Wrap(20000 - (-20000)))
    ensures VMCompare("gt", 20000, -20000)
  {
    assert OpTable["gt"] == GtSym;
    assert !IsWord(40000);
    assert (40000 + 0x8000) % WordModulus == 7232;
    assert Wrap(40000) == -25536;
  }

  // ---------------------------------------------------------------------------
  // Program control

  /** `label` only declares its name: the machine state is unchanged and
      control goes on after it. */
  lemma LabelEffect(name: string, env: map<string, int>, origin: int, st: State)
    ensures RunBlock(WriteLabel(name), env, origin, st) == FellThrough(st)
  {
    ExecStep(WriteLabel(name), env, st, st);
    RunStraightBlock(WriteLabel(name), env, origin, st, st);
  }

  /** `goto` always transfers control to the address the symbol table
      gives its label, changing only A; a name the table lacks stops the
      interpreter. */
  lemma GotoEffect(name: string, env: map<string, int>, origin: int, st: State)
    ensures var o := RunBlock(WriteGoto(name), env, origin, st);
      if name in env then
        !o.Faulted? && Continuation(o, WriteGoto(name), origin) == env[name] && o.st.ram == st.ram
      else
        o == Faulted(UndefinedSymbol(name))
  {
    var block := WriteGoto(name);
    if name in env {
      var s1 := st.(a := env[name]);
      assert Step(block[0], env, st) == Next(s1);
      assert Step(block[1], env, s1) == Jumped(s1, env[name]);
      assert RunBlock(block, env, origin, st) == Run(block, env, origin, s1, 1);
      if origin + 1 < env[name] <= origin + 2 {
        assert Run(block, env, origin, s1, 1) == Run(block, env, origin, s1, 2) == FellThrough(s1);
      } else {
        assert Run(block, env, origin, s1, 1) == Exited(s1, env[name]);
      }
    }
  }

  /** `if-goto` pops the top of the stack and transfers control to its label
      exactly when the popped value is not 0; otherwise control goes on
      after the block.  Either way the stack shrinks by one. */
  lemma IfGotoEffect(name: string, env: map<string, int>, origin: int, st: State)
    requires VirtualRegisters(env)
    requires ItemsOnStack(st, 1)
    requires name in env
    ensures var o := RunBlock(WriteIf(name), env, origin, st);
      var sp := StackPointer(st);
      !o.Faulted?
      && o.st.ram == st.ram[SP := sp - 1]
      && Continuation(o, WriteIf(name), origin)
         == (if Read(st.ram, sp - 1) != 0 then env[name] else origin + |WriteIf(name)|)
  {
    var block := WriteIf(name);
    var sp := StackPointer(st);
    var v := Read(st.ram, sp - 1);
    ExecPopToD(env, st);
    var p := State(st.ram[SP := sp - 1], sp - 1, v);
    var s5 := p.(a := env[name]);
    ExecStep([At(name)], env, p, s5);
    assert [At(name)][1..] == [];
    ExecThen(PopToD, [At(name)], env, st, p, s5);
    assert block[..5] == PopToD + [At(name)];
    RunStraight(block, env, origin, st, 0, PopToD + [At(name)], s5);
    if v != 0 {
      assert Step(block[5], env, s5) == Jumped(s5, env[name]);
    } else {
      assert Step(block[5], env, s5) == Next(s5);
    }
  }

  // ---------------------------------------------------------------------------
  // call

  /** `@reg, D=M` followed by `write_internal_push`. */
  function SaveRegister(reg: string): seq<Instr> {
    [At(reg), DeqM] + InternalPush()
  }

  /** Saving a register pushes the value of the cell it names. */
  lemma ExecSaveRegister(reg: string, cell: int, env: map<string, int>, st: State)
    requires VirtualRegisters(env)
    requires reg in env && env[reg] == cell
    requires RoomToPush(st, 1)
    ensures var sp := StackPointer(st);
      Exec(SaveRegister(reg), env, st)
      == Some(State(st.ram[sp := Read(st.ram, cell)][SP := sp + 1], SP, Read(st.ram, cell)))
  {
    var load := [At(reg), DeqM];
    var s1 := st.(a := cell);
    var s2 := s1.(d := Read(st.ram, cell));
    ExecStep(load, env, st, s1);
    ExecStep(load[1..], env, s1, s2);
    assert load[2..] == [];
    ExecLoadPush(load, env, st, s2);
  }

  /** Saving one more register after `j` cells of the frame: the frame
      grows by the register's value. */
  lemma ExecSaveNext(p: seq<Instr>, reg: string, cell: int, env: map<string, int>,
                     st: State, m: map<int, int>, sp: int, j: nat, v: int)
    requires VirtualRegisters(env)
    requires reg in env && env[reg] == cell && cell != SP
    requires 16 <= sp && sp + j + 1 < 0x8000
    requires Exec(p, env, st) == Some(State(m[SP := sp + j], SP, v))
    ensures Exec(p + SaveRegister(reg), env, st)
         == Some(State(m[sp + j := Read(m, cell)][SP := sp + j + 1], SP, Read(m, cell)))
  {
    var s0 := State(m[SP := sp + j], SP, v);
    ExecSaveRegister(reg, cell, env, s0);
    assert s0.ram[sp + j := Read(s0.ram, cell)][SP := sp + j + 1] == m[sp + j := Read(m, cell)][SP := sp + j + 1];
    ExecThen(p, SaveRegister(reg), env, st, s0, State(m[sp + j := Read(m, cell)][SP := sp + j + 1], SP, Read(m, cell)));
  }

  /** The first 35 instructions of a call push the return address and the
      caller's LCL, ARG, THIS and THAT, in that order. */
  lemma ExecSaveFrame(ret: string, env: map<string, int>, st: State)
    requires VirtualRegisters(env)
    requires ret in env
    requires RoomToPush(st, 5)
    ensures var sp := StackPointer(st);
      Exec([At(ret), DeqA] + InternalPush() + SaveRegister("LCL") + SaveRegister("ARG")
             + SaveRegister("THIS") + SaveRegister("THAT"), env, st)
      == Some(State(st.ram[sp := env[ret]][sp + 1 := Read(st.ram, LCL)][sp + 2 := Read(st.ram, ARG)]
                           [sp + 3 := Read(st.ram, THIS)][sp + 4 := Read(st.ram, THAT)][SP := sp + 5],
                    SP, Read(st.ram, THAT)))
  {
    var sp := StackPointer(st);
    var m := st.ram;
    var load := [At(ret), DeqA];
    var l1 := st.(a := env[ret]);
    var l2 := l1.(d := env[ret]);
    ExecStep(load, env, st, l1);
    ExecStep(load[1..], env, l1, l2);
    assert load[2..] == [];
    ExecLoadPush(load, env, st, l2);
    var m0 := m[sp := env[ret]];
    var p0 := load + InternalPush();
    ExecSaveNext(p0, "LCL", LCL, env, st, m0, sp, 1, env[ret]);
    var m1 := m0[sp + 1 := Read(m0, LCL)];
    var p1 := p0 + SaveRegister("LCL");
    ExecSaveNext(p1, "ARG", ARG, env, st, m1, sp, 2, Read(m0, LCL));
    var m2 := m1[sp + 2 := Read(m1, ARG)];
    var p2 := p1 + SaveRegister("ARG");
    ExecSaveNext(p2, "THIS", THIS, env, st, m2, sp, 3, Read(m1, ARG));
    var m3 := m2[sp + 3 := Read(m2, THIS)];
    var p3 := p2 + SaveRegister("THIS");
    ExecSaveNext(p3, "THAT", THAT, env, st, m3, sp, 4, Read(m2, THIS));
    assert Read(m0, LCL) == Read(m, LCL);
    assert Read(m1, ARG) == Read(m, ARG);
    assert Read(m2, THIS) == Read(m, THIS);
    assert Read(m3, THAT) == Read(m, THAT);
  }

  /** The ten instructions after the saved frame: ARG := SP - (n + 5) and
      LCL := SP, both read after the five pushes. */
  function Reposition(nArgs: int): seq<Instr> {
    [ AInstr(Num(nArgs + 5)),
      DeqA,
      AtSP,
      CInstr(DestD, MMinusD, NoJump),
      At("ARG"),
      MeqD,
      AtSP,
      DeqM,
      At("LCL"),
      MeqD ]
  }

  /** `@(n+5), D=A, @SP, D=M-D`: D := SP - (n + 5). */
  lemma ExecArgValue(nArgs: int, env: map<string, int>, st: State)
    requires VirtualRegisters(env)
    requires 0 <= nArgs + 5 < 0x8000
    ensures var sp := StackPointer(st);
      Exec(Reposition(nArgs)[..4], env, st) == Some(State(st.ram, SP, Wrap(sp - (nArgs + 5))))
  {
    var code := Reposition(nArgs)[..4];
    var sp := StackPointer(st);
    var s1 := st.(a := nArgs + 5);
    var s2 := s1.(d := nArgs + 5);
    var s3 := s2.(a := SP);
    var s4 := s3.(d := Wrap(sp - (nArgs + 5)));
    ExecStep(code, env, st, s1);
    ExecStep(code[1..], env, s1, s2);
    ExecStep(code[2..], env, s2, s3);
    ExecStep(code[3..], env, s3, s4);
    assert code[4..] == [];
  }

  /** First half of the repositioning: ARG := SP - (n + 5). */
  lemma ExecSetArg(nArgs: int, env: map<string, int>, st: State)
    requires VirtualRegisters(env)
    requires 0 <= nArgs + 5 < 0x8000
    ensures var sp := StackPointer(st);
      Exec(Reposition(nArgs)[..6], env, st)
      == Some(State(st.ram[ARG := Wrap(sp - (nArgs + 5))], ARG, Wrap(sp - (nArgs + 5))))
  {
    var code := Reposition(nArgs)[..6];
    var sp := StackPointer(st);
    var v := Wrap(sp - (nArgs + 5));
    var s4 := State(st.ram, SP, v);
    var s5 := s4.(a := ARG);
    var s6 := s5.(ram := st.ram[ARG := v]);
    var store := [At("ARG"), MeqD];
    ExecArgValue(nArgs, env, st);
    ExecStep(store, env, s4, s5);
    ExecStep(store[1..], env, s5, s6);
    assert store[2..] == [];
    assert code == Reposition(nArgs)[..4] + store;
    ExecThen(Reposition(nArgs)[..4], store, env, st, s4, s6);
  }

  /** Second half of the repositioning: LCL := SP. */
  lemma ExecSetLcl(nArgs: int, env: map<string, int>, st: State)
    requires VirtualRegisters(env)
    ensures var sp := StackPointer(st);
      Exec(Reposition(nArgs)[6..], env, st) == Some(State(st.ram[LCL := sp], LCL, sp))
  {
    var code := Reposition(nArgs)[6..];
    var sp := StackPointer(st);
    var s1 := st.(a := SP);
    var s2 := s1.(d := sp);
    var s3 := s2.(a := LCL);
    var s4 := s3.(ram := st.ram[LCL := sp]);
    ExecStep(code, env, st, s1);
    ExecStep(code[1..], env, s1, s2);
    ExecStep(code[2..], env, s2, s3);
    ExecStep(code[3..], env, s3, s4);
    assert code[4..] == [];
  }

  lemma ExecReposition(nArgs: int, env: map<string, int>, st: State)
    requires VirtualRegisters(env)
    requires 0 <= nArgs + 5 < 0x8000
    ensures var sp := StackPointer(st);
      Exec(Reposition(nArgs), env, st)
      == Some(State(st.ram[ARG := Wrap(sp - (nArgs + 5))][LCL := sp], LCL, sp))
  {
    var code := Reposition(nArgs);
    var sp := StackPointer(st);
    var mid := State(st.ram[ARG := Wrap(sp - (nArgs + 5))], ARG, Wrap(sp - (nArgs + 5)));
    ExecSetArg(nArgs, env, st);
    assert StackPointer(mid) == sp;
    ExecSetLcl(nArgs, env, mid);
    assert code == code[..6] + code[6..];
    ExecThen(code[..6], code[6..], env, st, mid, State(mid.ram[LCL := sp], LCL, sp));
  }

  /** A negative argument count below -5 does not fit the A-instruction. */
  lemma ExecRepositionBad(nArgs: int, env: map<string, int>, st: State)
    requires !(0 <= nArgs + 5 < 0x8000)
    ensures Step(Reposition(nArgs)[0], env, st) == Stuck(ConstantOutOfRange(nArgs + 5))
  {
  }

  /** The call block is the saved frame, the repositioning of ARG and LCL,
      the jump to the callee and the return label. */
  lemma CallBlockShape(f: string, nArgs: int, k: nat)
    ensures CallBlock(f, nArgs, k)
         == [At(ReturnLabel(f, k)), DeqA] + InternalPush() + SaveRegister("LCL") + SaveRegister("ARG")
            + SaveRegister("THIS") + SaveRegister("THAT") + Reposition(nArgs) + WriteGoto(f)
            + WriteLabel(ReturnLabel(f, k))
  {
  }

  /** The RAM after the five pushes of a call: the return address, then
      LCL, ARG, THIS and THAT, above the old stack top. */
  function SavedFrame(ram: map<int, int>, retAddr: int): map<int, int> {
    var sp := Read(ram, SP);
    ram[sp := retAddr][sp + 1 := Read(ram, LCL)][sp + 2 := Read(ram, ARG)]
       [sp + 3 := Read(ram, THIS)][sp + 4 := Read(ram, THAT)][SP := sp + 5]
  }

  /** The return label is declared in the last slot of the call block. */
  lemma CallReturnSlot(f: string, nArgs: int, k: nat, env: map<string, int>, origin: int)
    requires LabelsPlaced(CallBlock(f, nArgs, k), env, origin)
    ensures |CallBlock(f, nArgs, k)| == 48
    ensures ReturnLabel(f, k) in env && env[ReturnLabel(f, k)] == origin + 47
  {
    var block := CallBlock(f, nArgs, k);
    assert |block| == 48;
    assert block[47] == LabelDecl(ReturnLabel(f, k));
  }

  /** The first 35 instructions of a call save the frame. */
  lemma CallSavesFrame(f: string, nArgs: int, k: nat, env: map<string, int>, origin: int, st: State)
    requires VirtualRegisters(env)
    requires ReturnLabel(f, k) in env
    requires RoomToPush(st, 5)
    ensures RunBlock(CallBlock(f, nArgs, k), env, origin, st)
         == Run(CallBlock(f, nArgs, k), env, origin,
                State(SavedFrame(st.ram, env[ReturnLabel(f, k)]), SP, Read(st.ram, THAT)), 35)
  {
    var block := CallBlock(f, nArgs, k);
    var ret := ReturnLabel(f, k);
    var frame := [At(ret), DeqA] + InternalPush() + SaveRegister("LCL") + SaveRegister("ARG")
                 + SaveRegister("THIS") + SaveRegister("THAT");
    CallBlockShape(f, nArgs, k);
    assert |frame| == 35;
    assert block[..35] == frame;
    ExecSaveFrame(ret, env, st);
    RunStraight(block, env, origin, st, 0, frame, State(SavedFrame(st.ram, env[ret]), SP, Read(st.ram, THAT)));
  }

  /** The next ten instructions set ARG to SP - (n + 5) and LCL to SP. */
  lemma CallRepositions(f: string, nArgs: int, k: nat, env: map<string, int>, origin: int, sF: State)
    requires VirtualRegisters(env)
    requires 0 <= nArgs + 5 < 0x8000
    ensures var sp := StackPointer(sF);
      Run(CallBlock(f, nArgs, k), env, origin, sF, 35)
      == Run(CallBlock(f, nArgs, k), env, origin,
             State(sF.ram[ARG := Wrap(sp - (nArgs + 5))][LCL := sp], LCL, sp), 45)
  {
    var block := CallBlock(f, nArgs, k);
    var sp := StackPointer(sF);
    CallBlockShape(f, nArgs, k);
    assert block[35..45] == Reposition(nArgs);
    ExecReposition(nArgs, env, sF);
    RunStraight(block, env, origin, sF, 35, Reposition(nArgs),
      State(sF.ram[ARG := Wrap(sp - (nArgs + 5))][LCL := sp], LCL, sp));
  }

  /** The last three slots jump to `f`, which is not the return label. */
  lemma CallJumps(f: string, nArgs: int, k: nat, env: map<string, int>, origin: int, sR: State)
    requires LabelsPlaced(CallBlock(f, nArgs, k), env, origin)
    requires f in env && ReturnLabel(f, k) in env && env[f] != env[ReturnLabel(f, k)]
    ensures var o := Run(CallBlock(f, nArgs, k), env, origin, sR, 45);
      !o.Faulted? && o.st == sR.(a := env[f]) && Continuation(o, CallBlock(f, nArgs, k), origin) == env[f]
  {
    var block := CallBlock(f, nArgs, k);
    CallReturnSlot(f, nArgs, k, env, origin);
    CallBlockShape(f, nArgs, k);
    var sG := sR.(a := env[f]);
    assert block[45] == At(f);
    assert Run(block, env, origin, sR, 45) == Run(block, env, origin, sG, 46);
    assert block[46] == CInstr(NoDest, Zero, JMP);
    assert Step(block[46], env, sG) == Jumped(sG, env[f]);
    if env[f] == origin + 48 {
      assert Run(block, env, origin, sG, 46) == Run(block, env, origin, sG, 48) == FellThrough(sG);
    } else {
      assert Run(block, env, origin, sG, 46) == Exited(sG, env[f]);
    }
  }

  /** `call f n` saves the caller's frame above the stack (the return
      address, which is the slot of the return label right after the block,
      then LCL, ARG, THIS and THAT), points ARG at the first of the `n`
      arguments and LCL at the new stack top, and transfers control to `f`. */
  lemma CallEffect(f: string, nArgs: int, k: nat, env: map<string, int>, origin: int, st: State)
    requires VirtualRegisters(env)
    requires LabelsPlaced(CallBlock(f, nArgs, k), env, origin)
    requires f in env && ReturnLabel(f, k) in env && env[f] != env[ReturnLabel(f, k)]
    requires RoomToPush(st, 5)
    ensures env[ReturnLabel(f, k)] == origin + |CallBlock(f, nArgs, k)| - 1
    ensures var o := RunBlock(CallBlock(f, nArgs, k), env, origin, st);
      var sp := StackPointer(st);
      if 0 <= nArgs + 5 < 0x8000 then
        !o.Faulted?
        && Continuation(o, CallBlock(f, nArgs, k), origin) == env[f]
        && o.st.ram == st.ram[sp := env[ReturnLabel(f, k)]][sp + 1 := Read(st.ram, LCL)]
                             [sp + 2 := Read(st.ram, ARG)][sp + 3 := Read(st.ram, THIS)]
                             [sp + 4 := Read(st.ram, THAT)][SP := sp + 5]
                             [ARG := Wrap(sp - nArgs)][LCL := sp + 5]
      else
        o == Faulted(ConstantOutOfRange(nArgs + 5))
  {
    var block := CallBlock(f, nArgs, k);
    var ret := ReturnLabel(f, k);
    var sp := StackPointer(st);
    CallReturnSlot(f, nArgs, k, env, origin);
    var fr := SavedFrame(st.ram, env[ret]);
    var sF := State(fr, SP, Read(st.ram, THAT));
    CallSavesFrame(f, nArgs, k, env, origin, st);
    if 0 <= nArgs + 5 < 0x8000 {
      var sR := State(fr[ARG := Wrap(sp - nArgs)][LCL := sp + 5], LCL, sp + 5);
      CallRepositions(f, nArgs, k, env, origin, sF);
      CallJumps(f, nArgs, k, env, origin, sR);
    } else {
      CallBlockShape(f, nArgs, k);
      assert block[35] == Reposition(nArgs)[0];
      ExecRepositionBad(nArgs, env, sF);
      assert Run(block, env, origin, sF, 35) == Faulted(ConstantOutOfRange(nArgs + 5));
    }
  }

  /** After a call with `n >= 1` arguments lying above the virtual
      registers, ARG points at the first argument the caller pushed, LCL
      points just above the saved frame, and the frame below LCL holds the
      return address followed by the caller's four bases. */
  lemma CallFrameLayout(f: string, nArgs: int, k: nat, env: map<string, int>, origin: int, st: State)
    requires VirtualRegisters(env)
    requires LabelsPlaced(CallBlock(f, nArgs, k), env, origin)
    requires f in env && ReturnLabel(f, k) in env && env[f] != env[ReturnLabel(f, k)]
    requires RoomToPush(st, 5)
    requires 1 <= nArgs <= StackPointer(st) - 16
    ensures var o := RunBlock(CallBlock(f, nArgs, k), env, origin, st);
      var sp := StackPointer(st);
      !o.Faulted? &&
      var ram := o.st.ram;
      Read(ram, ARG) == sp - nArgs
      && Read(ram, Read(ram, ARG)) == Read(st.ram, sp - nArgs)
      && Read(ram, LCL) == sp + 5
      && Read(ram, SP) == sp + 5
      && Read(ram, sp) == origin + |CallBlock(f, nArgs, k)| - 1
      && Read(ram, sp + 1) == Read(st.ram, LCL)
      && Read(ram, sp + 2) == Read(st.ram, ARG)
      && Read(ram, sp + 3) == Read(st.ram, THIS)
      && Read(ram, sp + 4) == Read(st.ram, THAT)
  {
    CallEffect(f, nArgs, k, env, origin, st);
  }

  // ---------------------------------------------------------------------------
  // Short programs

  /** `push constant n; pop temp 0` leaves `n` in RAM[5] and the stack
      pointer where it started. */
  lemma PushConstantPopTemp(n: int, env: map<string, int>, origin: int, origin': int, st: State)
    requires VirtualRegisters(env)
    requires "R5" in env && env["R5"] == 5
    requires 0 <= n < 0x8000
    requires RoomToPush(st, 1)
    ensures var o1 := RunBlock(PushConstant(n), env, origin, st);
      o1.FellThrough? &&
      var o2 := RunBlock(PopTempPointer("temp", 0), env, origin', o1.st);
      o2.FellThrough? && Read(o2.st.ram, 5) == n && StackPointer(o2.st) == StackPointer(st)
  {
    assert RegisterSymbol(FixedSegmentAddress("temp", 0)) == "R5";
    PushConstantEffect(n, env, origin, st);
    var mid := RunBlock(PushConstant(n), env, origin, st).st;
    var sp := StackPointer(st);
    assert mid.ram == st.ram[sp := n][SP := sp + 1];
    PopTempPointerEffect("temp", 0, env, origin', mid);
  }

  /** `push constant a; push constant b; add` (or `sub`) leaves one more
      entry on the stack than before, holding `a + b` (or `a - b`) as a
      16-bit word. */
  lemma PushPushBinary(a: int, b: int, op: string, env: map<string, int>, o1: int, o2: int, o3: int, st: State)
    requires op == "add" || op == "sub"
    requires VirtualRegisters(env)
    requires 0 <= a < 0x8000 && 0 <= b < 0x8000
    requires RoomToPush(st, 2)
    ensures var r1 := RunBlock(PushConstant(a), env, o1, st);
      r1.FellThrough? &&
      var r2 := RunBlock(PushConstant(b), env, o2, r1.st);
      r2.FellThrough? &&
      TwoOperands(op).Ok? &&
      var r3 := RunBlock(TwoOperands(op).value, env, o3, r2.st);
      var sp := StackPointer(st);
      r3.FellThrough?
      && StackPointer(r3.st) == sp + 1
      && Read(r3.st.ram, sp) == (if op == "add" then Wrap(a + b) else a - b)
  {
    var sp := StackPointer(st);
    PushConstantEffect(a, env, o1, st);
    var m1 := RunBlock(PushConstant(a), env, o1, st).st;
    assert m1.ram == st.ram[sp := a][SP := sp + 1];
    PushConstantEffect(b, env, o2, m1);
    var m2 := RunBlock(PushConstant(b), env, o2, m1).st;
    assert m2.ram == m1.ram[sp + 1 := b][SP := sp + 2];
    assert Read(m2.ram, sp) == a && Read(m2.ram, sp + 1) == b;
    BinaryEffect(op, env, o3, m2);
  }

  // ---------------------------------------------------------------------------
  // The dispatchers: each VM command, whichever block it selects

  /** The RAM cell that `segment index` names: a `static` cell is wherever the
      assembler placed the symbol `File.index`, `temp` and `pointer` cells are
      fixed, and the other segments are offsets from their base register. */
  function SegmentCell(w: Writer, env: map<string, int>, ram: map<int, int>, segment: string, index: int): int
    requires segment == "static" || segment in SegmentTable
    requires segment == "static" ==> StaticSymbol(w.fileName, index) in env
  {
    if segment == "static" then env[StaticSymbol(w.fileName, index)]
    else if IsTempOrPointer(segment) then FixedSegmentAddress(segment, index)
    else SegmentAddress(ram, segment, index)
  }

  /** The value `push segment index` places on the stack. */
  function PushedValue(w: Writer, env: map<string, int>, ram: map<int, int>, segment: string, index: int): int
    requires segment == "constant" || segment == "static" || segment in SegmentTable
    requires segment == "static" ==> StaticSymbol(w.fileName, index) in env
  {
    if segment == "constant" then index else Read(ram, SegmentCell(w, env, ram, segment, index))
  }

  /** Every number the emitted code loads with an A-instruction fits one: the
      constant or the segment offset, and the fixed cell a push reads. */
  predicate Addressable(kind: CommandKind, segment: string, index: int) {
    (segment == "constant" || IsPointerSegment(segment) ==> 0 <= index < 0x8000)
    && (kind == Push && IsTempOrPointer(segment) ==> 0 <= FixedSegmentAddress(segment, index) < 0x8000)
  }

  /** `write_push_pop` does what the VM command means: a push copies the
      named value to the top of the stack and grows it, a pop moves the top
      into the named cell and shrinks it (the offset segments park the
      target address in R13 first); a number too wide for an A-instruction
      stops the machine. */
  lemma WritePushPopEffect(w: Writer, kind: CommandKind, segment: string, index: int,
                           env: map<string, int>, origin: int, st: State)
    requires WritePushPop(w, kind, segment, index).Ok?
    requires VirtualRegisters(env)
    requires kind == Push ==> RoomToPush(st, 1)
    requires kind != Push ==> ItemsOnStack(st, 1)
    requires segment == "static" ==> StaticSymbol(w.fileName, index) in env
    requires IsPointerSegment(segment) ==> IsWord(SegmentAddress(st.ram, segment, index))
    requires kind != Push && IsTempOrPointer(segment) ==>
      RegisterSymbol(FixedSegmentAddress(segment, index)) in env
      && env[RegisterSymbol(FixedSegmentAddress(segment, index))] == FixedSegmentAddress(segment, index)
    ensures var o := RunBlock(WritePushPop(w, kind, segment, index).value, env, origin, st);
      var sp := StackPointer(st);
      if !Addressable(kind, segment, index) then o.Faulted?
      else if kind == Push then
        o.FellThrough?
        && o.st.ram == st.ram[sp := PushedValue(w, env, st.ram, segment, index)][SP := sp + 1]
      else
        var cell := SegmentCell(w, env, st.ram, segment, index);
        var scratch := if IsPointerSegment(segment) then st.ram[R13 := cell] else st.ram;
        o.FellThrough? && o.st.ram == scratch[SP := sp - 1][cell := Read(st.ram, sp - 1)]
  {
    if kind == Push {
      if segment == "constant" {
        PushConstantEffect(index, env, origin, st);
      } else if segment == "static" {
        PushStaticEffect(w, index, env, origin, st);
      } else if IsTempOrPointer(segment) {
        PushTempPointerEffect(segment, index, env, origin, st);
      } else {
        assert IsPointerSegment(segment);
        PushSegmentEffect(segment, index, env, origin, st);
      }
    } else {
      if segment == "static" {
        PopStaticEffect(w, index, env, origin, st);
      } else if IsTempOrPointer(segment) {
        PopTempPointerEffect(segment, index, env, origin, st);
      } else {
        assert IsPointerSegment(segment);
        PopSegmentEffect(segment, index, env, origin, st);
      }
    }
  }

  /** The value a binary or comparison command leaves in place of its two
      operands. */
  function TwoOperandResult(op: string, x: int, y: int): int {
    if IsComparison(op) then VMBool(Jumps(ComparisonJump(op), Wrap(x - y))) else VMBinary(op, x, y)
  }

  /** `write_arithmetic` does what the VM command means: a unary command
      replaces the top of the stack, a binary or comparison command replaces
      its two operands by one result; whichever block is chosen, control
      falls through to the next command. */
  lemma WriteArithmeticEffect(g: Shared, op: string, env: map<string, int>, origin: int, st: State)
    requires op in OpTable
    requires VirtualRegisters(env)
    requires ItemsOnStack(st, if IsUnary(op) then 1 else 2)
    requires LabelsPlaced(WriteArithmetic(g, op).value.0, env, origin)
    ensures var o := RunBlock(WriteArithmetic(g, op).value.0, env, origin, st);
      var sp := StackPointer(st);
      o.FellThrough?
      && o.st.ram == if IsUnary(op) then st.ram[sp - 1 := VMUnary(op, Read(st.ram, sp - 1))]
                     else st.ram[sp - 2 := TwoOperandResult(op, Read(st.ram, sp - 2), Read(st.ram, sp - 1))][SP := sp - 1]
  {
    if IsUnary(op) {
      UnaryEffect(op, env, origin, st);
    } else if IsComparison(op) {
      ComparisonEffect(g, op, env, origin, st);
    } else {
      assert op in {"add", "sub", "and", "or"};
      BinaryEffect(op, env, origin, st);
    }
  }
}
