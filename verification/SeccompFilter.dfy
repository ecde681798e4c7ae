/** The seccomp program built by `process_group_filter` in `krabb-libs/process`, as a small compiler
    proved against an interpreter of classic BPF. */
module SeccompFilter {
  import opened Wrappers
  import opened Integers

  datatype Instruction = Instruction(code: u16, jt: byte, jf: byte, k: u32)

  // BPF_LD | BPF_W | BPF_ABS, BPF_JMP | BPF_JEQ | BPF_K and BPF_RET | BPF_K
  const LOAD: u16 := 0x20
  const JUMP_EQUAL: u16 := 0x15
  const RETURN: u16 := 0x06

  const RET_KILL_PROCESS: u32 := 0x8000_0000
  const RET_ALLOW: u32 := 0x7fff_0000
  const RET_ERRNO: u32 := 0x0005_0000
  const EPERM: u32 := 1

  // Offsets of `nr` and `arch` in `struct seccomp_data`
  const NUMBER_OFFSET: u32 := 0
  const ARCH_OFFSET: u32 := 4

  const CAPACITY := 13

  // ---------- The kernel's side ----------

  /** What a filter may look at. */
  datatype Call = Call(number: u32, arch: u32)

  function LoadWord(call: Call, offset: u32): Option<u32> {
    if offset == NUMBER_OFFSET then Some(call.number)
    else if offset == ARCH_OFFSET then Some(call.arch)
    else None
  }

  /** Runs a filter from `pc`; `None` for anything a loaded program must not do. */
  function Interpret(program: seq<Instruction>, pc: nat, accumulator: u32, call: Call): Option<u32>
    decreases |program| - pc
  {
    if pc >= |program| then None
    else
      var i := program[pc];
      if i.code == RETURN then Some(i.k)
      else if i.code == LOAD then
        match LoadWord(call, i.k)
        case None => None
        case Some(word) => Interpret(program, pc + 1, word, call)
      else if i.code == JUMP_EQUAL then
        Interpret(program, pc + 1 + (if accumulator == i.k then i.jt else i.jf), accumulator, call)
      else None
  }

  /** The kernel's load-time check: known codes, jumps forward and inside, a return at the end. */
  ghost predicate Loadable(program: seq<Instruction>) {
    && 0 < |program|
    && program[|program| - 1].code == RETURN
    && forall pc :: 0 <= pc < |program| ==>
         && program[pc].code in {LOAD, JUMP_EQUAL, RETURN}
         && (program[pc].code == LOAD ==> program[pc].k in {NUMBER_OFFSET, ARCH_OFFSET})
         && (program[pc].code == JUMP_EQUAL ==>
               pc + 1 + program[pc].jt < |program| && pc + 1 + program[pc].jf < |program|)
  }

  /** Every run of a loadable program ends in a return. */
  lemma {:induction false} LoadableReturns(program: seq<Instruction>, pc: nat, accumulator: u32, call: Call)
    requires Loadable(program) && pc < |program|
    ensures Interpret(program, pc, accumulator, call).Some?
    decreases |program| - pc
  {
    var i := program[pc];
    if i.code == LOAD {
      LoadableReturns(program, pc + 1, LoadWord(call, i.k).value, call);
    } else if i.code == JUMP_EQUAL {
      LoadableReturns(program, pc + 1 + (if accumulator == i.k then i.jt else i.jf), accumulator, call);
    }
  }

  // ---------- The program for a list of system calls ----------

  function Ret(k: u32): Instruction {
    Instruction(RETURN, 0, 0, k)
  }

  function Prologue(arch: u32): seq<Instruction> {
    [ Instruction(LOAD, 0, 0, ARCH_OFFSET),
      Instruction(JUMP_EQUAL, 1, 0, arch),
      Ret(RET_KILL_PROCESS),
      Instruction(LOAD, 0, 0, NUMBER_OFFSET) ]
  }

  function Tests(syscalls: seq<u32>): (r: seq<Instruction>)
    ensures |r| == 2 * |syscalls|
  {
    if syscalls == [] then []
    else [Instruction(JUMP_EQUAL, 0, 1, syscalls[0]), Ret(RET_ERRNO + EPERM)] + Tests(syscalls[1..])
  }

  function Program(arch: u32, syscalls: seq<u32>): seq<Instruction> {
    Prologue(arch) + Tests(syscalls) + [Ret(RET_ALLOW)]
  }

  // ---------- What it means ----------

  lemma {:induction false} TestAt(syscalls: seq<u32>, i: nat)
    requires i < |syscalls|
    ensures Tests(syscalls)[2 * i] == Instruction(JUMP_EQUAL, 0, 1, syscalls[i])
    ensures Tests(syscalls)[2 * i + 1] == Ret(RET_ERRNO + EPERM)
  {
    if i > 0 { TestAt(syscalls[1..], i - 1); }
  }

  lemma {:induction false} TestsMeaning(arch: u32, syscalls: seq<u32>, i: nat, call: Call)
    requires i <= |syscalls|
    ensures Interpret(Program(arch, syscalls), 4 + 2 * i, call.number, call) ==
      Some(if call.number in syscalls[i..] then RET_ERRNO + EPERM else RET_ALLOW)
    decreases |syscalls| - i
  {
    var program := Program(arch, syscalls);
    if i < |syscalls| {
      TestAt(syscalls, i);
      assert program[4 + 2 * i] == Tests(syscalls)[2 * i];
      assert program[4 + 2 * i + 1] == Tests(syscalls)[2 * i + 1];
      assert syscalls[i..] == [syscalls[i]] + syscalls[i + 1..];
      TestsMeaning(arch, syscalls, i + 1, call);
    } else {
      assert program[4 + 2 * i] == Ret(RET_ALLOW);
    }
  }

  /** The filter kills on a foreign architecture, refuses the listed calls with EPERM and allows
      all others. */
  lemma ProgramMeaning(arch: u32, syscalls: seq<u32>, call: Call)
    ensures Interpret(Program(arch, syscalls), 0, 0, call) ==
      Some(if call.arch != arch then RET_KILL_PROCESS
           else if call.number in syscalls then RET_ERRNO + EPERM
           else RET_ALLOW)
  {
    var program := Program(arch, syscalls);
    assert program[..4] == Prologue(arch);
    assert program[0] == Prologue(arch)[0] && program[1] == Prologue(arch)[1];
    assert program[2] == Prologue(arch)[2] && program[3] == Prologue(arch)[3];
    TestsMeaning(arch, syscalls, 0, call);
    assert syscalls[0..] == syscalls;
    if call.arch == arch {
      assert Interpret(program, 1, call.arch, call) == Interpret(program, 3, call.arch, call);
      assert Interpret(program, 3, call.arch, call) == Interpret(program, 4, call.number, call);
    } else {
      assert Interpret(program, 1, call.arch, call) == Interpret(program, 2, call.arch, call);
    }
  }

  lemma ProgramLoadable(arch: u32, syscalls: seq<u32>)
    ensures Loadable(Program(arch, syscalls))
  {
    var program := Program(arch, syscalls);
    forall pc | 4 <= pc < |program| - 1
      ensures program[pc].code == RETURN || (program[pc].code == JUMP_EQUAL && pc + 2 < |program|
                                             && program[pc].jt == 0 && program[pc].jf == 1)
    {
      TestAt(syscalls, (pc - 4) / 2);
      assert program[pc] == Tests(syscalls)[pc - 4];
      assert pc - 4 == 2 * ((pc - 4) / 2) || pc - 4 == 2 * ((pc - 4) / 2) + 1;
    }
  }

  // ---------- The generator ----------

  /** Fills the fixed buffer; `syscalls` is `setsid`, `setpgid` and the architecture's compatibility
      numbers, and fits. */
  method ProcessGroupFilter(arch: u32, syscalls: seq<u32>) returns (filter: array<Instruction>, length: nat)
    requires 4 + 2 * |syscalls| + 1 <= CAPACITY
    ensures fresh(filter) && filter.Length == CAPACITY && length <= CAPACITY
    ensures filter[..length] == Program(arch, syscalls)
    ensures forall i :: length <= i < CAPACITY ==> filter[i] == Ret(RET_ALLOW)
  {
    filter := new Instruction[CAPACITY](_ => Ret(RET_ALLOW));
    length := Emit(filter, 0, Instruction(LOAD, 0, 0, ARCH_OFFSET));
    length := Emit(filter, length, Instruction(JUMP_EQUAL, 1, 0, arch));
    length := Emit(filter, length, Ret(RET_KILL_PROCESS));
    length := Emit(filter, length, Instruction(LOAD, 0, 0, NUMBER_OFFSET));
    assert filter[..4] == Prologue(arch);
    for i := 0 to |syscalls|
      invariant length == 4 + 2 * i
      invariant filter[..length] == Prologue(arch) + Tests(syscalls)[..2 * i]
      invariant forall j :: length <= j < CAPACITY ==> filter[j] == Ret(RET_ALLOW)
    {
      NextTest(syscalls, i);
      length := Emit(filter, length, Instruction(JUMP_EQUAL, 0, 1, syscalls[i]));
      length := Emit(filter, length, Ret(RET_ERRNO + EPERM));
    }
    assert Tests(syscalls)[..2 * |syscalls|] == Tests(syscalls);
    length := Emit(filter, length, Ret(RET_ALLOW));
  }

  lemma NextTest(syscalls: seq<u32>, i: nat)
    requires i < |syscalls|
    ensures var test := Instruction(JUMP_EQUAL, 0, 1, syscalls[i]);
            forall front: seq<Instruction> ::
              front + Tests(syscalls)[..2 * (i + 1)] == front + Tests(syscalls)[..2 * i] + [test] + [Ret(RET_ERRNO + EPERM)]
  {
    TestAt(syscalls, i);
  }

  method Emit(filter: array<Instruction>, at: nat, instruction: Instruction) returns (length: nat)
    requires at < filter.Length
    modifies filter
    ensures length == at + 1 && filter[..length] == old(filter[..at]) + [instruction]
    ensures forall j :: length <= j < filter.Length ==> filter[j] == old(filter[j])
  {
    filter[at] := instruction;
    length := at + 1;
  }
}
