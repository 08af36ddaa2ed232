/** The seccomp filter generator, a compiler to classic BPF (backend/app/bill_rate_import/sandbox_launcher.py). */
module SeccompFilter {
  import opened Outcomes
  import opened Sorting

  const LD_W_ABS := 0x20
  const JMP_JEQ_K := 0x15
  const RET_K := 0x06
  const KILL_PROCESS := 0x80000000
  const ERRNO_EPERM := 0x00050001
  const ALLOW := 0x7FFF0000
  const WORD := 0x1_0000_0000

  /** One sock_filter record. */
  datatype Instruction = Instruction(code: int, jt: int, jf: int, k: int)

  /** The record as ctypes stores it: every field truncated to its width. */
  function SockFilter(code: int, jt: int, jf: int, k: int): Instruction {
    Instruction(code % 0x1_0000, jt % 0x100, jf % 0x100, k % WORD)
  }

  function BpfStatement(code: int, value: int): Instruction {
    SockFilter(code, 0, 0, value)
  }

  function BpfJump(code: int, value: int, onTrue: int, onFalse: int): Instruction {
    SockFilter(code, onTrue, onFalse, value)
  }

  // ----- the machine -----

  /** The part of seccomp_data a filter reads: the syscall number at offset 0, the architecture at offset 4. */
  datatype Syscall = Syscall(nr: int, arch: int)

  predicate IsWord(n: int) {
    0 <= n < WORD
  }

  datatype Outcome = Returned(action: int, steps: nat) | LeftProgram | BadInstruction

  function Load(data: Syscall, offset: int): Option<int> {
    if offset == 0 then Some(data.nr) else if offset == 4 then Some(data.arch) else None
  }

  /** Runs a program from pc with the given accumulator; jumps only go forward, so it always stops. */
  function Execute(program: seq<Instruction>, pc: nat, acc: int, data: Syscall, steps: nat): Outcome
    decreases |program| - pc
  {
    if pc >= |program| then LeftProgram
    else
      var i := program[pc];
      if i.code == LD_W_ABS then
        var word := Load(data, i.k);
        if word.None? then BadInstruction else Execute(program, pc + 1, word.value, data, steps + 1)
      else if i.code == JMP_JEQ_K then
        var offset := if acc == i.k then i.jt else i.jf;
        if offset < 0 then BadInstruction else Execute(program, pc + 1 + offset, acc, data, steps + 1)
      else if i.code == RET_K then Returned(i.k, steps + 1)
      else BadInstruction
  }

  function Run(program: seq<Instruction>, data: Syscall): Outcome {
    Execute(program, 0, 0, data, 0)
  }

  // ----- the compiler -----

  function Header(auditArch: int): seq<Instruction> {
    [BpfStatement(LD_W_ABS, 4),
     BpfJump(JMP_JEQ_K, auditArch, 1, 0),
     BpfStatement(RET_K, KILL_PROCESS),
     BpfStatement(LD_W_ABS, 0)]
  }

  function Test(number: int): seq<Instruction> {
    [BpfJump(JMP_JEQ_K, number, 0, 1), BpfStatement(RET_K, ERRNO_EPERM)]
  }

  function Tests(numbers: seq<int>): seq<Instruction> {
    if numbers == [] then [] else Tests(numbers[..|numbers| - 1]) + Test(numbers[|numbers| - 1])
  }

  function Compile(auditArch: int, numbers: seq<int>): seq<Instruction> {
    Header(auditArch) + Tests(numbers) + [BpfStatement(RET_K, ALLOW)]
  }

  /** What the sandbox promises for a syscall. */
  function Decision(auditArch: int, denied: set<int>, data: Syscall): int {
    if data.arch != auditArch then KILL_PROCESS
    else if data.nr in denied then ERRNO_EPERM
    else ALLOW
  }

  /** An architecture's audit number and its denied syscalls by name. */
  datatype Architecture = Architecture(audit: int, syscalls: map<string, int>)

  datatype SandboxError = UnsupportedArchitecture

  ghost predicate Fits(a: Architecture) {
    IsWord(a.audit) && forall name :: name in a.syscalls ==> IsWord(a.syscalls[name])
  }

  /** The program halts within its length and returns what the sandbox promises. */
  ghost predicate Enforces(program: seq<Instruction>, a: Architecture, data: Syscall) {
    var result := Run(program, data);
    result.Returned? && result.steps <= |program| && result.action == Decision(a.audit, a.syscalls.Values, data)
  }

  ghost predicate SmallOffsets(program: seq<Instruction>) {
    forall i :: 0 <= i < |program| ==> 0 <= program[i].jt <= 1 && 0 <= program[i].jf <= 1
  }

  method BuildFilter(machine: string, architectures: map<string, Architecture>) returns (r: Result<seq<Instruction>, SandboxError>)
    ensures r.Err? <==> machine !in architectures
    ensures r.Ok? && Fits(architectures[machine]) ==>
              forall data: Syscall :: IsWord(data.nr) && IsWord(data.arch) ==> Enforces(r.value, architectures[machine], data)
    ensures r.Ok? ==> SmallOffsets(r.value)
  {
    if machine !in architectures {
      return Err(UnsupportedArchitecture);
    }
    var a := architectures[machine];
    var instructions := Header(a.audit);
    var numbers := SortedElements(a.syscalls.Values, IntLeq());
    for c := 0 to |numbers|
      invariant instructions == Header(a.audit) + Tests(numbers[..c])
    {
      assert numbers[..c + 1][..c] == numbers[..c];
      instructions := instructions + Test(numbers[c]);
    }
    assert numbers[..|numbers|] == numbers;
    instructions := instructions + [BpfStatement(RET_K, ALLOW)];
    assert instructions == Compile(a.audit, numbers);
    OffsetsAreSmall(a.audit, numbers);
    if Fits(a) {
      forall data: Syscall | IsWord(data.nr) && IsWord(data.arch) ensures Enforces(instructions, a, data) {
        CompilerIsCorrect(a.audit, numbers, data);
        SameDenials(a, numbers, data);
      }
    }
    r := Ok(instructions);
  }

  lemma {:induction false} SameDenials(a: Architecture, numbers: seq<int>, data: Syscall)
    requires Fits(a) && (forall x :: x in numbers <==> x in a.syscalls.Values)
    ensures Wrapped(numbers, |numbers|, data.nr) <==> data.nr in a.syscalls.Values
  {
    if data.nr in a.syscalls.Values {
      var i :| 0 <= i < |numbers| && numbers[i] == data.nr;
      assert numbers[i] % WORD == data.nr;
    }
    if i :| 0 <= i < |numbers| && numbers[i] % WORD == data.nr {
      assert numbers[i] in a.syscalls.Values;
    }
  }

  // ----- correctness -----

  lemma {:induction false} TestsLength(numbers: seq<int>)
    ensures |Tests(numbers)| == 2 * |numbers|
  {
    if numbers != [] {
      TestsLength(numbers[..|numbers| - 1]);
    }
  }

  lemma {:induction false} TestAt(numbers: seq<int>, i: nat)
    requires i < |numbers|
    ensures |Tests(numbers)| == 2 * |numbers|
    ensures Tests(numbers)[2 * i] == BpfJump(JMP_JEQ_K, numbers[i], 0, 1)
    ensures Tests(numbers)[2 * i + 1] == BpfStatement(RET_K, ERRNO_EPERM)
  {
    TestsLength(numbers);
    TestsLength(numbers[..|numbers| - 1]);
    if i < |numbers| - 1 {
      TestAt(numbers[..|numbers| - 1], i);
    }
  }

  /** One of the first n listed numbers, truncated to a word, is the syscall. */
  predicate Wrapped(numbers: seq<int>, n: nat, nr: int)
    requires n <= |numbers|
  {
    exists i :: 0 <= i < n && numbers[i] % WORD == nr
  }

  lemma {:induction false} ProgramAt(auditArch: int, numbers: seq<int>, i: nat)
    requires i < |numbers|
    ensures var p := Compile(auditArch, numbers);
            && |p| == 2 * |numbers| + 5
            && p[4 + 2 * i] == BpfJump(JMP_JEQ_K, numbers[i], 0, 1)
            && p[5 + 2 * i] == BpfStatement(RET_K, ERRNO_EPERM)
            && p[4 + 2 * |numbers|] == BpfStatement(RET_K, ALLOW)
  {
    TestAt(numbers, i);
  }

  lemma {:induction false} ProgramEnds(auditArch: int, numbers: seq<int>)
    ensures var p := Compile(auditArch, numbers);
            |p| == 2 * |numbers| + 5 && p[..4] == Header(auditArch) && p[4 + 2 * |numbers|] == BpfStatement(RET_K, ALLOW)
  {
    TestsLength(numbers);
  }

  /** From the i-th test on, the program denies a listed number and allows any other. */
  lemma {:induction false} TestsDecide(auditArch: int, numbers: seq<int>, i: nat, data: Syscall, steps: nat)
    requires i <= |numbers| && IsWord(data.nr) && !Wrapped(numbers, i, data.nr)
    ensures var result := Execute(Compile(auditArch, numbers), 4 + 2 * i, data.nr, data, steps);
            && result.Returned?
            && result.steps <= steps + |numbers| - i + 2
            && result.action == (if Wrapped(numbers, |numbers|, data.nr) then ERRNO_EPERM else ALLOW)
    decreases |numbers| - i
  {
    var p := Compile(auditArch, numbers);
    ProgramEnds(auditArch, numbers);
    if i < |numbers| {
      ProgramAt(auditArch, numbers, i);
      if numbers[i] % WORD == data.nr {
        assert Execute(p, 4 + 2 * i, data.nr, data, steps) == Execute(p, 5 + 2 * i, data.nr, data, steps + 1);
      } else {
        TestsDecide(auditArch, numbers, i + 1, data, steps + 1);
        assert Execute(p, 4 + 2 * i, data.nr, data, steps) == Execute(p, 4 + 2 * (i + 1), data.nr, data, steps + 1);
      }
    }
  }

  /** Compiler correctness, for any list of numbers and any syscall. */
  lemma {:induction false} CompilerIsCorrect(auditArch: int, numbers: seq<int>, data: Syscall)
    requires IsWord(data.nr) && IsWord(data.arch)
    ensures var program, result := Compile(auditArch, numbers), Run(Compile(auditArch, numbers), data);
            && result.Returned?
            && result.steps <= |program|
            && result.action == (if data.arch != auditArch % WORD then KILL_PROCESS
                                 else if Wrapped(numbers, |numbers|, data.nr) then ERRNO_EPERM
                                 else ALLOW)
  {
    var p := Compile(auditArch, numbers);
    ProgramEnds(auditArch, numbers);
    assert p[0] == p[..4][0] && p[1] == p[..4][1] && p[2] == p[..4][2] && p[3] == p[..4][3];
    assert Execute(p, 0, 0, data, 0) == Execute(p, 1, data.arch, data, 1);
    if data.arch == auditArch % WORD {
      assert Execute(p, 1, data.arch, data, 1) == Execute(p, 3, data.arch, data, 2);
      assert Execute(p, 3, data.arch, data, 2) == Execute(p, 4, data.nr, data, 3);
      TestsDecide(auditArch, numbers, 0, data, 3);
    } else {
      assert Execute(p, 1, data.arch, data, 1) == Execute(p, 2, data.arch, data, 2);
    }
  }

  /** Every jump offset is zero or one, so none is truncated by its byte. */
  lemma {:induction false} OffsetsAreSmall(auditArch: int, numbers: seq<int>)
    ensures SmallOffsets(Compile(auditArch, numbers))
  {
    TestOffsets(numbers);
  }

  lemma {:induction false} TestOffsets(numbers: seq<int>)
    ensures SmallOffsets(Tests(numbers))
  {
    if numbers != [] {
      TestOffsets(numbers[..|numbers| - 1]);
    }
  }

  /** The 16-bit program length is exact up to 32765 denied syscalls and wraps beyond. */
  lemma {:induction false} LengthFits(auditArch: int, numbers: seq<int>)
    ensures |Compile(auditArch, numbers)| % 0x1_0000 == |Compile(auditArch, numbers)| <==> |numbers| <= 32765
  {
    ProgramEnds(auditArch, numbers);
  }
}
