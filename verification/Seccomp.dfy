/**
 The seccomp policy of the Linux managed worker: the compiler from an
 architecture, a clone number and a list of denied system calls to a classic BPF
 program, the machine that runs such programs, and the kernel's load-time check.
 */
module Seccomp {
  import opened Common

  // ----- instructions and the data they read -----

  type UInt8 = x: int | 0 <= x < 0x100

  datatype Instruction = Instruction(code: nat, jt: UInt8, jf: UInt8, k: bv32)

  const LOAD := 0x20
  const JUMP_EQUAL := 0x15
  const JUMP_SET := 0x45
  const RETURN := 0x06

  const KILL: bv32 := 0x80000000
  const ALLOW: bv32 := 0x7fff0000
  const EPERM: bv32 := 1
  const DENY: bv32 := 0x00050000 | EPERM
  const NEW_USER: bv32 := 0x10000000

  /** `struct seccomp_data` of a little-endian machine. */
  datatype SeccompData = SeccompData(nr: bv32, arch: bv32, pointer: bv64, args: seq<bv64>) {
    predicate Valid() {
      |args| == 6
    }
  }

  function Low(x: bv64): bv32 {
    (x & 0xffffffff) as bv32
  }

  function High(x: bv64): bv32 {
    (x >> 32) as bv32
  }

  /** The 32-bit word at a byte offset; nothing outside the 64 bytes or between words. */
  function Load(d: SeccompData, offset: nat): Option<bv32>
    requires d.Valid()
  {
    if offset == 0 then Some(d.nr)
    else if offset == 4 then Some(d.arch)
    else if offset == 8 then Some(Low(d.pointer))
    else if offset == 12 then Some(High(d.pointer))
    else if offset % 4 != 0 || offset >= 64 then None
    else if offset % 8 == 0 then Some(Low(d.args[(offset - 16) / 8]))
    else Some(High(d.args[(offset - 16) / 8]))
  }

  /** Runs from `pc` with accumulator `a`; None when control or a load leaves the program or the data. */
  function Run(program: seq<Instruction>, pc: nat, a: bv32, d: SeccompData): Option<bv32>
    requires d.Valid()
    decreases |program| - pc
  {
    if pc >= |program| then None
    else
      var i := program[pc];
      if i.code == LOAD then
        match Load(d, i.k as nat)
        case None => None
        case Some(word) => Run(program, pc + 1, word, d)
      else if i.code == JUMP_EQUAL then
        Run(program, pc + 1 + if a == i.k then i.jt else i.jf, a, d)
      else if i.code == JUMP_SET then
        Run(program, pc + 1 + if a & i.k != 0 then i.jt else i.jf, a, d)
      else if i.code == RETURN then Some(i.k)
      else None
  }

  // ----- the compiler -----

  function Header(arch: bv32, clone: bv32): seq<Instruction> {
    [ Instruction(LOAD, 0, 0, 4),
      Instruction(JUMP_EQUAL, 1, 0, arch),
      Instruction(RETURN, 0, 0, KILL),
      Instruction(LOAD, 0, 0, 0),
      Instruction(JUMP_EQUAL, 0, 3, clone),
      Instruction(LOAD, 0, 0, 16),
      Instruction(JUMP_SET, 0, 1, NEW_USER),
      Instruction(RETURN, 0, 0, DENY),
      Instruction(LOAD, 0, 0, 0) ]
  }

  /** Two instructions for each denied number. */
  function Checks(denied: seq<bv32>): seq<Instruction> {
    seq(2 * |denied|, i requires 0 <= i < 2 * |denied| =>
      if i % 2 == 0 then Instruction(JUMP_EQUAL, 0, 1, denied[i / 2]) else Instruction(RETURN, 0, 0, DENY))
  }

  function Program(arch: bv32, clone: bv32, denied: seq<bv32>): seq<Instruction> {
    Header(arch, clone) + Checks(denied) + [Instruction(RETURN, 0, 0, ALLOW)]
  }

  method BuildFilters(arch: bv32, clone: bv32, denied: seq<bv32>) returns (filters: seq<Instruction>)
    ensures filters == Program(arch, clone, denied)
    ensures forall d: SeccompData :: d.Valid() ==> Run(filters, 0, 0, d) == Some(Verdict(arch, clone, denied, d))
  {
    filters := Header(arch, clone);
    for n := 0 to |denied|
      invariant filters == Header(arch, clone) + Checks(denied[..n])
    {
      filters := filters + [Instruction(JUMP_EQUAL, 0, 1, denied[n]), Instruction(RETURN, 0, 0, DENY)];
    }
    assert denied[..|denied|] == denied;
    filters := filters + [Instruction(RETURN, 0, 0, ALLOW)];
    forall d: SeccompData | d.Valid()
      ensures Run(filters, 0, 0, d) == Some(Verdict(arch, clone, denied, d))
    {
      FilterMeansPolicy(arch, clone, denied, d);
    }
  }

  // ----- what the program means -----

  predicate Denied(clone: bv32, denied: seq<bv32>, d: SeccompData)
    requires d.Valid()
  {
    d.nr in denied || (d.nr == clone && d.args[0] & 0x10000000 != 0)
  }

  function Verdict(arch: bv32, clone: bv32, denied: seq<bv32>, d: SeccompData): bv32
    requires d.Valid()
  {
    if d.arch != arch then KILL else if Denied(clone, denied, d) then DENY else ALLOW
  }

  lemma UserNamespaceBitIsInLowWord(x: bv64)
    ensures Low(x) & NEW_USER != 0 <==> x & 0x10000000 != 0
  {
  }

  /** One check: the call is refused, or the next check decides. */
  lemma CheckStep(p: seq<Instruction>, pc: nat, number: bv32, a: bv32, d: SeccompData)
    requires d.Valid() && pc + 2 < |p|
    requires p[pc] == Instruction(JUMP_EQUAL, 0, 1, number) && p[pc + 1] == Instruction(RETURN, 0, 0, DENY)
    ensures Run(p, pc, a, d) == if a == number then Some(DENY) else Run(p, pc + 2, a, d)
  {
  }

  /** The n-th check is in its place, or the last return is. */
  predicate HasCheck(p: seq<Instruction>, denied: seq<bv32>, n: nat) {
    && n <= |denied|
    && |p| == 10 + 2 * |denied|
    && (n == |denied| ==> p[9 + 2 * n] == Instruction(RETURN, 0, 0, ALLOW))
    && (n < |denied| ==> p[9 + 2 * n] == Instruction(JUMP_EQUAL, 0, 1, denied[n]))
    && (n < |denied| ==> p[10 + 2 * n] == Instruction(RETURN, 0, 0, DENY))
  }

  lemma CheckAt(arch: bv32, clone: bv32, denied: seq<bv32>, n: nat)
    requires n <= |denied|
    ensures HasCheck(Program(arch, clone, denied), denied, n)
  {
    var p, checks := Program(arch, clone, denied), Checks(denied);
    assert n < |denied| ==> p[9 + 2 * n] == checks[2 * n] && p[10 + 2 * n] == checks[2 * n + 1];
  }

  lemma ReturnStep(p: seq<Instruction>, pc: nat, a: bv32, d: SeccompData)
    requires d.Valid() && pc < |p| && p[pc].code == RETURN
    ensures Run(p, pc, a, d) == Some(p[pc].k)
  {
  }

  /** In any program with the checks in place, they decide as the rest of the list says. */
  lemma {:induction false} ChecksInPlaceDecide(p: seq<Instruction>, denied: seq<bv32>, n: nat, d: SeccompData)
    requires n <= |denied| && d.Valid()
    requires forall k: nat {:trigger HasCheck(p, denied, k)} :: n <= k <= |denied| ==> HasCheck(p, denied, k)
    ensures Run(p, 9 + 2 * n, d.nr, d) == Some(if d.nr in denied[n..] then DENY else ALLOW)
    decreases |denied| - n
  {
    assert HasCheck(p, denied, n);
    if n < |denied| {
      CheckStep(p, 9 + 2 * n, denied[n], d.nr, d);
      ChecksInPlaceDecide(p, denied, n + 1, d);
      assert denied[n..] == [denied[n]] + denied[n + 1..];
    } else {
      ReturnStep(p, 9 + 2 * n, d.nr, d);
    }
  }

  /** From the n-th check on, a call is refused exactly when its number is among the remaining ones. */
  lemma ChecksDecide(arch: bv32, clone: bv32, denied: seq<bv32>, n: nat, d: SeccompData)
    requires n <= |denied| && d.Valid()
    ensures Run(Program(arch, clone, denied), 9 + 2 * n, d.nr, d)
         == Some(if d.nr in denied[n..] then DENY else ALLOW)
  {
    forall k: nat | k <= |denied| ensures HasCheck(Program(arch, clone, denied), denied, k) {
      CheckAt(arch, clone, denied, k);
    }
    ChecksInPlaceDecide(Program(arch, clone, denied), denied, n, d);
  }

  /** From the second load of the number on, only the denied list matters. */
  lemma NumberDecides(arch: bv32, clone: bv32, denied: seq<bv32>, a: bv32, d: SeccompData)
    requires d.Valid()
    ensures Run(Program(arch, clone, denied), 8, a, d) == Some(if d.nr in denied then DENY else ALLOW)
  {
    var p := Program(arch, clone, denied);
    assert p[8] == Instruction(LOAD, 0, 0, 0);
    ChecksDecide(arch, clone, denied, 0, d);
    assert denied[0..] == denied;
  }

  /** The clone test: its flag word is read only for clone, and the other paths reach the list. */
  lemma CloneDecides(arch: bv32, clone: bv32, denied: seq<bv32>, d: SeccompData)
    requires d.Valid()
    ensures Run(Program(arch, clone, denied), 4, d.nr, d) == Some(if Denied(clone, denied, d) then DENY else ALLOW)
  {
    var p := Program(arch, clone, denied);
    var flags := Low(d.args[0]);
    UserNamespaceBitIsInLowWord(d.args[0]);
    NumberDecides(arch, clone, denied, d.nr, d);
    NumberDecides(arch, clone, denied, flags, d);
    assert p[4] == Instruction(JUMP_EQUAL, 0, 3, clone);
    assert p[5] == Instruction(LOAD, 0, 0, 16);
    assert p[6] == Instruction(JUMP_SET, 0, 1, NEW_USER);
    assert p[7] == Instruction(RETURN, 0, 0, DENY);
    assert Run(p, 7, flags, d) == Some(DENY);
    assert Run(p, 5, d.nr, d) == Run(p, 6, flags, d);
  }

  /** For every policy and every system call the program returns, and returns the policy's verdict. */
  lemma FilterMeansPolicy(arch: bv32, clone: bv32, denied: seq<bv32>, d: SeccompData)
    requires d.Valid()
    ensures Run(Program(arch, clone, denied), 0, 0, d) == Some(Verdict(arch, clone, denied, d))
  {
    var p := Program(arch, clone, denied);
    CloneDecides(arch, clone, denied, d);
    assert p[0] == Instruction(LOAD, 0, 0, 4);
    assert p[1] == Instruction(JUMP_EQUAL, 1, 0, arch);
    assert p[2] == Instruction(RETURN, 0, 0, KILL);
    assert p[3] == Instruction(LOAD, 0, 0, 0);
    assert Run(p, 2, d.arch, d) == Some(KILL);
    assert Run(p, 3, d.arch, d) == Run(p, 4, d.nr, d);
  }

  // ----- loading -----

  const MAX_INSTRUCTIONS := 4096

  /** The kernel's check of a classic filter: bounded, every load and jump in range, a return at the end. */
  predicate Loadable(program: seq<Instruction>) {
    && 1 <= |program| <= MAX_INSTRUCTIONS
    && program[|program| - 1].code == RETURN
    && forall pc :: 0 <= pc < |program| ==> InstructionInRange(program[pc], pc, |program|)
  }

  predicate InstructionInRange(i: Instruction, pc: nat, length: nat) {
    || i.code == RETURN
    || (i.code == LOAD && i.k % 4 == 0 && i.k < 64)
    || (i.code in {JUMP_EQUAL, JUMP_SET} && pc + 1 + i.jt < length && pc + 1 + i.jf < length)
  }

  /** `sockFprog.length` is a uint16, so the kernel sees only this prefix. */
  function Submitted(program: seq<Instruction>): seq<Instruction> {
    program[..|program| % 0x10000]
  }

  /**
   The kernel accepts what is submitted exactly when the denied list has at most 2043 entries.
   A longer program is refused even when its 16-bit length wraps around: the surviving
   prefix never ends in a return with all its jumps inside.
   */
  lemma LoadableIffShort(arch: bv32, clone: bv32, denied: seq<bv32>)
    ensures Loadable(Submitted(Program(arch, clone, denied))) <==> |denied| <= 2043
    ensures |denied| <= 2043 ==> Submitted(Program(arch, clone, denied)) == Program(arch, clone, denied)
  {
    var p := Program(arch, clone, denied);
    var s := Submitted(p);
    assert |p| == 10 + 2 * |denied|;
    if |denied| <= 2043 {
      assert s == p;
      HeaderInRange(arch, clone, denied);
      forall pc | 9 <= pc < |p| ensures InstructionInRange(p[pc], pc, |p|) {
        if pc < |p| - 1 {
          assert p[pc] == Checks(denied)[pc - 9];
        }
      }
    } else if 0 < |s| <= MAX_INSTRUCTIONS {
      var last := |s| - 1;
      assert |s| % 2 == 0;
      if last >= 9 {
        assert s[last] == Checks(denied)[last - 9];
      } else {
        assert s[last] == Header(arch, clone)[last];
        assert last == 7 ==> !InstructionInRange(s[4], 4, 8);
      }
    }
  }

  /** One number too many: any filter of 2044 denied numbers is refused as a whole, whatever they are. */
  lemma LongListIsRefused(arch: bv32, clone: bv32, denied: seq<bv32>)
    requires |denied| == 2044
    ensures !Loadable(Submitted(Program(arch, clone, denied)))
  {
    LoadableIffShort(arch, clone, denied);
  }

  lemma HeaderInRange(arch: bv32, clone: bv32, denied: seq<bv32>)
    ensures forall pc :: 0 <= pc < 9 ==>
      InstructionInRange(Program(arch, clone, denied)[pc], pc, |Program(arch, clone, denied)|)
  {
    var p := Program(arch, clone, denied);
    forall pc | 0 <= pc < 9 ensures InstructionInRange(p[pc], pc, |p|) {
      assert p[pc] == Header(arch, clone)[pc];
    }
  }

  // ----- the two supported architectures -----

  datatype Policy = Policy(arch: bv32, clone: bv32, denied: seq<bv32>) | Unsupported

  function SeccompPolicy(architecture: string): Policy {
    var common: seq<bv32> := [425, 435, 438];
    if architecture == "arm64" then
      Policy(0xc00000b7, 220, common + [40, 41, 51, 97, 117, 198, 199, 217, 218, 219, 241, 265, 268, 270, 271, 280])
    else if architecture == "amd64" then
      Policy(0xc000003e, 56, common + [41, 53, 101, 155, 161, 165, 248, 249, 250, 272, 298, 304, 308, 310, 311, 321])
    else Unsupported
  }

  /** The calls that no managed program may make, on either architecture. */
  datatype Call =
    | Mount | PivotRoot | Chroot | Unshare | Setns | Ptrace | Socket | Socketpair | AddKey | RequestKey | Keyctl
    | PerfEventOpen | OpenByHandleAt | ProcessVmReadv | ProcessVmWritev | Bpf | IoUringSetup | Clone3 | PidfdGetfd

  /** Their numbers in the system call tables of Linux, for arm64 and for amd64. */
  function Number(call: Call, arm: bool): bv32 {
    match call
    case Mount => if arm then 40 else 165
    case PivotRoot => if arm then 41 else 155
    case Chroot => if arm then 51 else 161
    case Unshare => if arm then 97 else 272
    case Setns => if arm then 268 else 308
    case Ptrace => if arm then 117 else 101
    case Socket => if arm then 198 else 41
    case Socketpair => if arm then 199 else 53
    case AddKey => if arm then 217 else 248
    case RequestKey => if arm then 218 else 249
    case Keyctl => if arm then 219 else 250
    case PerfEventOpen => if arm then 241 else 298
    case OpenByHandleAt => if arm then 265 else 304
    case ProcessVmReadv => if arm then 270 else 310
    case ProcessVmWritev => if arm then 271 else 311
    case Bpf => if arm then 280 else 321
    case IoUringSetup => 425
    case Clone3 => 435
    case PidfdGetfd => 438
  }

  lemma CallIsDenied(call: Call, arm: bool)
    ensures Number(call, arm) in SeccompPolicy(if arm then "arm64" else "amd64").denied
  {
    var denied := SeccompPolicy(if arm then "arm64" else "amd64").denied;
    if arm {
      assert denied == [425, 435, 438, 40, 41, 51, 97, 117, 198, 199, 217, 218, 219, 241, 265, 268, 270, 271, 280];
    } else {
      assert denied == [425, 435, 438, 41, 53, 101, 155, 161, 165, 248, 249, 250, 272, 298, 304, 308, 310, 311, 321];
    }
  }

  /** Both architectures deny these nineteen calls by their own numbers, and nothing else: their lists are no longer. */
  lemma SameCallsDenied(call: Call, arm: bool)
    ensures var policy := SeccompPolicy(if arm then "arm64" else "amd64");
      && policy.Policy? && |policy.denied| == 19 && Number(call, arm) in policy.denied
      && policy.arch == (if arm then 0xc000_00b7 else 0xc000_003e) && policy.clone == (if arm then 220 else 56)
  {
    CallIsDenied(call, arm);
  }

  lemma NumbersDiffer(a: Call, b: Call, arm: bool)
    requires Number(a, arm) == Number(b, arm)
    ensures a == b
  {
  }

  /**
   The program handed to the kernel: refused for an unknown architecture, otherwise loadable
   as it stands and deciding every call by the policy of that architecture.
   */
  method InstallSeccomp(architecture: string) returns (submitted: Option<seq<Instruction>>)
    ensures submitted.None? <==> architecture != "arm64" && architecture != "amd64"
    ensures submitted.Some? ==>
      var policy := SeccompPolicy(architecture);
      && Loadable(submitted.value)
      && forall d: SeccompData :: d.Valid() ==>
        Run(submitted.value, 0, 0, d) == Some(Verdict(policy.arch, policy.clone, policy.denied, d))
  {
    var policy := SeccompPolicy(architecture);
    if policy.Unsupported? {
      return None;
    }
    var filters := BuildFilters(policy.arch, policy.clone, policy.denied);
    LoadableIffShort(policy.arch, policy.clone, policy.denied);
    submitted := Some(Submitted(filters));
  }
}
