/**
 The system-call trampoline of mylib/zpoline.c.  A replaced system call is a call to the address
 in rax, the system-call number; it lands in a sled of n bytes at address 0 that slides down to
 code jumping to asm_syscall_hook.  The sled repeats the bytes eb 6a 90, so that landing on the
 middle byte runs "push 0x90"; asm_syscall_hook drops that word again by a test on rax.
*/
module Trampoline {
  import opened Prelude
  import opened Sequences

  const WORD := 0x1_0000_0000_0000_0000
  const THIRD := 0xaaaa_aaaa_aaaa_aaab

  // ---------------------------------------------------------------- the code in memory

  function SledByte(n: nat, i: nat): Byte {
    if n - 0x6a - 2 < i then 0x90
    else if i % 3 == 0 then 0xeb
    else if i % 3 == 1 then 0x6a
    else 0x90
  }

  function Shr8(a: nat, k: nat): nat { if k == 0 then a else Shr8(a / 256, k - 1) }

  /** The bytes of a, least significant first. */
  function Bytes(a: nat, k: nat): (s: seq<Byte>)
    ensures |s| == k
  {
    if k == 0 then [] else [a % 256] + Bytes(a / 256, k - 1)
  }

  function Value(s: seq<Byte>): nat { if s == [] then 0 else s[0] + 256 * Value(s[1..]) }

  function Power(k: nat): nat { if k == 0 then 1 else 256 * Power(k - 1) }

  lemma {:induction false} BytesValue(a: nat, k: nat)
    requires a < Power(k)
    ensures Value(Bytes(a, k)) == a
  {
    if 0 < k {
      BytesValue(a / 256, k - 1);
      assert Bytes(a, k)[1..] == Bytes(a / 256, k - 1);
    }
  }

  lemma {:induction false} BytesAt(a: nat, k: nat, i: nat)
    requires i < k
    ensures Bytes(a, k)[i] == Shr8(a, i) % 256
  {
    if 0 < i {
      BytesAt(a / 256, k - 1, i - 1);
    }
  }

  /** push rax; movabs hook, rax; jmpq *rax. */
  function Tail(hook: nat): (s: seq<Byte>)
    ensures |s| == 13
  {
    [0x50, 0x48, 0xb8] + Bytes(hook, 8) + [0xff, 0xe0]
  }

  /** Memory from address 0 holds the sled of length n and then the jump to the hook. */
  ghost predicate Installed(code: seq<Byte>, n: nat, hook: nat) {
    && n + 13 <= |code|
    && (forall i :: 0 <= i < n ==> code[i] == SledByte(n, i))
    && code[n..n + 13] == Tail(hook)
  }

  /** The loop of setup_trampoline. */
  method FillSled(mem: array<Byte>, n: nat)
    requires n <= mem.Length
    modifies mem
    ensures forall i :: 0 <= i < n ==> mem[i] == SledByte(n, i)
    ensures forall i :: n <= i < mem.Length ==> mem[i] == old(mem[i])
  {
    for i := 0 to n
      invariant forall k :: 0 <= k < i ==> mem[k] == SledByte(n, k)
      invariant forall k :: n <= k < mem.Length ==> mem[k] == old(mem[k])
    {
      if n - 0x6a - 2 < i {
        mem[i] := 0x90;
      } else {
        match i % 3 {
          case 0 => mem[i] := 0xeb;
          case 1 => mem[i] := 0x6a;
          case _ => mem[i] := 0x90;
        }
      }
    }
  }

  /** The stores of the address of the hook. */
  method StoreAddress(mem: array<Byte>, at: nat, hook: nat)
    requires at + 8 <= mem.Length
    modifies mem
    ensures forall i :: at <= i < at + 8 ==> mem[i] == Bytes(hook, 8)[i - at]
    ensures forall i :: 0 <= i < mem.Length && !(at <= i < at + 8) ==> mem[i] == old(mem[i])
  {
    forall i: nat | i < 8 ensures Bytes(hook, 8)[i] == Shr8(hook, i) % 256 {
      BytesAt(hook, 8, i);
    }
    mem[at] := Shr8(hook, 0) % 256;
    mem[at + 1] := Shr8(hook, 1) % 256;
    mem[at + 2] := Shr8(hook, 2) % 256;
    mem[at + 3] := Shr8(hook, 3) % 256;
    mem[at + 4] := Shr8(hook, 4) % 256;
    mem[at + 5] := Shr8(hook, 5) % 256;
    mem[at + 6] := Shr8(hook, 6) % 256;
    mem[at + 7] := Shr8(hook, 7) % 256;
  }

  /** The stores after the sled. */
  method StoreTail(mem: array<Byte>, n: nat, hook: nat)
    requires n + 13 <= mem.Length
    modifies mem
    ensures mem[n..n + 13] == Tail(hook)
    ensures forall i :: 0 <= i < n ==> mem[i] == old(mem[i])
  {
    mem[n] := 0x50;
    mem[n + 1], mem[n + 2] := 0x48, 0xb8;
    StoreAddress(mem, n + 3, hook);
    mem[n + 11], mem[n + 12] := 0xff, 0xe0;
    var t := Tail(hook);
    assert forall i :: n <= i < n + 13 ==> mem[i] == t[i - n];
  }

  method Setup(mem: array<Byte>, n: nat, hook: nat)
    requires n + 13 <= mem.Length
    modifies mem
    ensures Installed(mem[..], n, hook)
  {
    FillSled(mem, n);
    StoreTail(mem, n, hook);
    assert mem[..][n..n + 13] == mem[n..n + 13];
  }

  // ---------------------------------------------------------------- the processor

  /** The top of the stack is its first word. */
  datatype Cpu = Cpu(pc: int, rax: nat, rdi: nat, stack: seq<nat>)

  function Signed(b: Byte): int { if b < 128 then b else b - 256 }

  function SignExtend(b: Byte): nat { if b < 128 then b else b - 256 + WORD }

  /** One instruction; None when it is not one of these or lies outside the code. */
  function Step(code: seq<Byte>, m: Cpu): Option<Cpu> {
    if !(0 <= m.pc < |code|) then None
    else
      var p := m.pc;
      if code[p] == 0x90 then Some(m.(pc := p + 1))
      else if code[p] == 0x50 then Some(m.(pc := p + 1, stack := [m.rax] + m.stack))
      else if p + 1 == |code| then None
      else if code[p] == 0xeb then Some(m.(pc := p + 2 + Signed(code[p + 1])))
      else if code[p] == 0x6a then Some(m.(pc := p + 2, stack := [SignExtend(code[p + 1])] + m.stack))
      else if code[p] == 0xff && code[p + 1] == 0xe0 then Some(m.(pc := m.rax))
      else if code[p] == 0x48 && code[p + 1] == 0xb8 && p + 10 <= |code| then
        Some(m.(pc := p + 10, rax := Value(code[p + 2..p + 10])))
      else None
  }

  function Run(code: seq<Byte>, m: Cpu, steps: nat): Option<Cpu>
    decreases steps
  {
    if steps == 0 then Some(m)
    else
      match Step(code, m)
      case None => None
      case Some(m') => Run(code, m', steps - 1)
  }

  lemma {:induction false} RunAppend(code: seq<Byte>, m: Cpu, j: nat, k: nat)
    requires Run(code, m, j).Some?
    ensures Run(code, m, j + k) == Run(code, Run(code, m, j).value, k)
    decreases j
  {
    if 0 < j {
      RunAppend(code, Step(code, m).value, j - 1, k);
    }
  }

  // ---------------------------------------------------------------- sliding down

  /** From the nops at the end of the sled. */
  lemma {:induction false} NopsSlide(code: seq<Byte>, n: nat, m: Cpu) returns (k: nat)
    requires n <= |code| && forall i :: 0 <= i < n ==> code[i] == SledByte(n, i)
    requires 0 <= m.pc <= n && n - 0x6a - 2 < m.pc
    ensures Run(code, m, k) == Some(m.(pc := n))
    decreases n - m.pc
  {
    if m.pc == n {
      k := 0;
    } else {
      var m' := m.(pc := m.pc + 1);
      assert Step(code, m) == Some(m');
      var j := NopsSlide(code, n, m');
      k := j + 1;
    }
  }

  /** A jump inside the sled has its operand and leads to another multiple of three inside it. */
  lemma JumpBytes(n: nat, pc: nat)
    requires n % 3 != 0 && pc % 3 == 0 && pc + 108 <= n
    ensures SledByte(n, pc) == 0xeb && SledByte(n, pc + 1) == 0x6a && pc + 108 < n && (pc + 108) % 3 == 0
  {
    assert (pc + 1) % 3 == 1 && (pc + 108) % 3 == 0;
  }

  /** From a multiple of three: jumps of 108 bytes, then nops.  This is where n % 3 matters. */
  lemma {:induction false} JumpsSlide(code: seq<Byte>, n: nat, m: Cpu) returns (k: nat)
    requires n <= |code| && forall i :: 0 <= i < n ==> code[i] == SledByte(n, i)
    requires n % 3 != 0 && 0 <= m.pc < n && m.pc % 3 == 0
    ensures Run(code, m, k) == Some(m.(pc := n))
    decreases n - m.pc
  {
    if n - 0x6a - 2 < m.pc {
      k := NopsSlide(code, n, m);
    } else {
      var m' := m.(pc := m.pc + 108);
      JumpBytes(n, m.pc);
      assert code[m.pc] == 0xeb && code[m.pc + 1] == 0x6a;
      assert Step(code, m) == Some(m');
      var j := JumpsSlide(code, n, m');
      k := j + 1;
    }
  }

  /** The landings that run a push. */
  predicate Pushes(n: nat, entry: nat) { entry + 108 <= n && entry % 3 == 1 }

  const PUSHED := SignExtend(0x90)

  /** Every landing slides to the end of the sled, pushing one word exactly when Pushes. */
  lemma SledSlides(code: seq<Byte>, n: nat, m: Cpu) returns (k: nat)
    requires n <= |code| && forall i :: 0 <= i < n ==> code[i] == SledByte(n, i)
    requires n % 3 != 0 && 0 <= m.pc < n
    ensures Run(code, m, k) == Some(m.(pc := n, stack := (if Pushes(n, m.pc) then [PUSHED] else []) + m.stack))
  {
    assert [] + m.stack == m.stack;
    if n - 0x6a - 2 < m.pc {
      k := NopsSlide(code, n, m);
    } else if m.pc % 3 == 0 {
      k := JumpsSlide(code, n, m);
    } else if m.pc % 3 == 1 {
      var m' := m.(pc := m.pc + 2, stack := [PUSHED] + m.stack);
      assert code[m.pc] == 0x6a && code[m.pc + 1] == 0x90;
      assert Step(code, m) == Some(m');
      var j := JumpsSlide(code, n, m');
      k := j + 1;
    } else {
      var m' := m.(pc := m.pc + 1);
      assert Step(code, m) == Some(m');
      var j := JumpsSlide(code, n, m');
      k := j + 1;
    }
  }

  // ---------------------------------------------------------------- sleds whose length is a multiple of three

  /** The addresses of the loop that the jump at n - 108 falls into: its operand is the first nop, read as -112. */
  predicate Trapped(n: nat, pc: int) { pc in {n - 108, n - 218, n - 216} }

  lemma TrapBytes(n: nat)
    requires n % 3 == 0
    ensures 108 <= n ==> SledByte(n, n - 108) == 0xeb && SledByte(n, n - 107) == 0x90
    ensures 218 <= n ==> SledByte(n, n - 218) == 0x6a
    ensures 216 <= n ==> SledByte(n, n - 216) == 0xeb && SledByte(n, n - 215) == 0x6a
  {
    assert (n - 108) % 3 == 0 && (n - 218) % 3 == 1 && (n - 216) % 3 == 0 && (n - 215) % 3 == 1;
  }

  lemma TrapStep(code: seq<Byte>, n: nat, m: Cpu)
    requires n <= |code| && forall i :: 0 <= i < n ==> code[i] == SledByte(n, i)
    requires n % 3 == 0 && 108 <= n && Trapped(n, m.pc)
    ensures Step(code, m).Some? ==> Trapped(n, Step(code, m).value.pc)
  {
    TrapBytes(n);
    if m.pc == n - 108 {
      assert code[n - 108] == 0xeb && code[n - 107] == 0x90;
    } else if 0 <= m.pc == n - 218 {
      assert code[n - 218] == 0x6a;
    } else if 0 <= m.pc {
      assert code[n - 216] == 0xeb && code[n - 215] == 0x6a;
    }
  }

  lemma {:induction false} TrapNeverLeaves(code: seq<Byte>, n: nat, m: Cpu, k: nat)
    requires n <= |code| && forall i :: 0 <= i < n ==> code[i] == SledByte(n, i)
    requires n % 3 == 0 && 108 <= n && Trapped(n, m.pc)
    ensures Run(code, m, k).Some? ==> Trapped(n, Run(code, m, k).value.pc)
    decreases k
  {
    TrapStep(code, n, m);
    if 0 < k && Step(code, m).Some? {
      TrapNeverLeaves(code, n, Step(code, m).value, k - 1);
    }
  }

  ghost predicate Arrives(code: seq<Byte>, n: nat, m: Cpu) {
    exists k: nat :: Run(code, m, k).Some? && Run(code, m, k).value.pc == n
  }

  /**
   Every landing reaches the end of the sled exactly for lengths not divisible by three (or too short to hold a jump).
  */
  lemma SlidesExactlyWhen(code: seq<Byte>, n: nat)
    requires n <= |code| && forall i :: 0 <= i < n ==> code[i] == SledByte(n, i)
    ensures (forall m: Cpu :: 0 <= m.pc < n ==> Arrives(code, n, m)) <==> n % 3 != 0 || n < 108
  {
    if n % 3 != 0 || n < 108 {
      forall m: Cpu | 0 <= m.pc < n ensures Arrives(code, n, m) {
        var k;
        if n < 108 {
          k := NopsSlide(code, n, m);
        } else {
          k := SledSlides(code, n, m);
        }
        assert Run(code, m, k).Some?;
      }
    } else {
      var m := Cpu(n - 108, 0, 0, []);
      forall k: nat ensures Run(code, m, k).Some? ==> Run(code, m, k).value.pc != n {
        TrapNeverLeaves(code, n, m, k);
      }
      assert !Arrives(code, n, m);
    }
  }

  // ---------------------------------------------------------------- the fix-up

  /** asm_syscall_hook up to skip_pop, instruction by instruction; the two pops leave the flags alone. */
  function FixUp(m: Cpu): Option<Cpu> {
    if |m.stack| < 2 then None
    else
      var m1 := m.(rax := m.stack[0], stack := m.stack[1..]);
      var m2 := m1.(stack := [m1.rax, m1.rdi] + m1.stack, rdi := THIRD);
      var m3 := m2.(rax := m2.rax * m2.rdi % WORD);
      var below := m3.rax < m3.rdi;
      var m4 := m3.(rax := m3.stack[0], rdi := m3.stack[1], stack := m3.stack[2..]);
      Some(if below then m4 else m4.(stack := m4.stack[1..]))
  }

  lemma FixUpMeans(m: Cpu)
    requires 2 <= |m.stack| && m.stack[0] < WORD
    ensures FixUp(m) ==
      Some(m.(rax := m.stack[0], stack := if m.stack[0] % 3 == 1 then m.stack[2..] else m.stack[1..]))
  {
    MultiplyTellsRemainder(m.stack[0]);
    var rest := m.stack[1..];
    assert ([m.stack[0], m.rdi] + rest)[2..] == rest;
    assert rest[1..] == m.stack[2..];
  }

  /** THIRD is the inverse of three, so a 64-bit multiplication by it tells the remainder by three. */
  lemma MultiplyTellsRemainder(rax: nat)
    requires rax < WORD
    ensures THIRD <= (rax * THIRD) % WORD <==> rax % 3 == 1
  {
    var q, r := rax / 3, rax % 3;
    assert 3 * THIRD == 2 * WORD + 1;
    assert rax * THIRD == q * (2 * WORD + 1) + r * THIRD;
    if r == 0 {
      ModIs(rax * THIRD, 2 * q, q);
    } else if r == 1 {
      ModIs(rax * THIRD, 2 * q, q + THIRD);
    } else {
      assert 2 * THIRD == WORD + 0x5555_5555_5555_5556;
      ModIs(rax * THIRD, 2 * q + 1, q + 0x5555_5555_5555_5556);
    }
  }

  lemma ModIs(x: nat, q: nat, r: nat)
    requires x == q * WORD + r && r < WORD
    ensures x % WORD == r
  {
  }

  lemma EightBytesAreAWord()
    ensures Power(8) == WORD
  {
    assert Power(1) == 0x100;
    assert Power(2) == 0x1_0000;
    assert Power(3) == 0x100_0000;
    assert Power(4) == 0x1_0000_0000;
    assert Power(5) == 0x100_0000_0000;
    assert Power(6) == 0x1_0000_0000_0000;
    assert Power(7) == 0x100_0000_0000_0000;
  }

  /** The bytes of the three instructions after the sled. */
  lemma TailBytes(code: seq<Byte>, n: nat, hook: nat)
    requires Installed(code, n, hook)
    ensures code[n] == 0x50
    ensures code[n + 1] == 0x48 && code[n + 2] == 0xb8 && code[n + 3..n + 11] == Bytes(hook, 8)
    ensures code[n + 11] == 0xff && code[n + 12] == 0xe0
  {
    var t := code[n..n + 13];
    assert code[n] == t[0] && code[n + 1] == t[1] && code[n + 2] == t[2];
    assert code[n + 11] == t[11] && code[n + 12] == t[12];
    var head: seq<Byte>, last: seq<Byte> := [0x50, 0x48, 0xb8], [0xff, 0xe0];
    var b := Bytes(hook, 8);
    assert t == head + b + last;
    Middle(head, b, last);
    assert t[3..11] == b;
    SliceOfSlice(code, n, n + 13, 3, 11);
  }

  lemma PushRax(code: seq<Byte>, m: Cpu)
    requires 0 <= m.pc < |code| && code[m.pc] == 0x50
    ensures Step(code, m) == Some(m.(pc := m.pc + 1, stack := [m.rax] + m.stack))
  {
  }

  lemma MoveToRax(code: seq<Byte>, m: Cpu, v: nat)
    requires 0 <= m.pc && m.pc + 10 <= |code| && code[m.pc] == 0x48 && code[m.pc + 1] == 0xb8
    requires Value(code[m.pc + 2..m.pc + 10]) == v
    ensures Step(code, m) == Some(m.(pc := m.pc + 10, rax := v))
  {
  }

  lemma JumpToRax(code: seq<Byte>, m: Cpu)
    requires 0 <= m.pc && m.pc + 1 < |code| && code[m.pc] == 0xff && code[m.pc + 1] == 0xe0
    ensures Step(code, m) == Some(m.(pc := m.rax))
  {
  }

  lemma ThreeSteps(code: seq<Byte>, m: Cpu, m1: Cpu, m2: Cpu, m3: Cpu)
    requires Step(code, m) == Some(m1) && Step(code, m1) == Some(m2) && Step(code, m2) == Some(m3)
    ensures Run(code, m, 3) == Some(m3)
  {
    assert Run(code, m3, 0) == Some(m3);
    assert Run(code, m2, 1) == Some(m3);
    assert Run(code, m1, 2) == Some(m3);
  }

  /** From the end of the sled to asm_syscall_hook: rax is saved on the stack. */
  lemma TailJumps(code: seq<Byte>, n: nat, hook: nat, m: Cpu)
    requires Installed(code, n, hook) && hook < WORD && m.pc == n
    ensures Run(code, m, 3) == Some(m.(pc := hook, rax := hook, stack := [m.rax] + m.stack))
  {
    var m1 := m.(pc := n + 1, stack := [m.rax] + m.stack);
    var m2 := m1.(pc := n + 11, rax := hook);
    TailBytes(code, n, hook);
    EightBytesAreAWord();
    BytesValue(hook, 8);
    PushRax(code, m);
    MoveToRax(code, m1, hook);
    JumpToRax(code, m2);
    ThreeSteps(code, m, m1, m2, m2.(pc := hook));
  }

  /** The system call numbers for which the trampoline and the fix-up agree on whether a word was pushed. */
  predicate Agrees(n: nat, nr: nat) { nr + 108 <= n || nr % 3 != 1 }

  lemma FixUpBalances(n: nat, nr: nat, stack: seq<nat>, m: Cpu)
    requires nr < WORD && stack != [] && m.stack == [nr] + ((if Pushes(n, nr) then [PUSHED] else []) + stack)
    ensures FixUp(m) == Some(m.(rax := nr, stack := if Agrees(n, nr) then stack else stack[1..]))
  {
    FixUpMeans(m);
    var pushed := if Pushes(n, nr) then [PUSHED] else [];
    assert m.stack[1..] == pushed + stack;
    assert m.stack[2..] == (pushed + stack)[1..];
    assert ([PUSHED] + stack)[1..] == stack && [] + stack == stack;
  }

  /** What the tail does in so many steps, whatever the state. */
  ghost predicate TailRuns(code: seq<Byte>, n: nat, hook: nat, steps: nat) {
    forall m: Cpu :: m.pc == n ==> Run(code, m, steps) == Some(m.(pc := hook, rax := hook, stack := [m.rax] + m.stack))
  }

  /** A landing inside the sled arrives at the hook with rax saved above the word the sled pushed, if any. */
  lemma Arrival(code: seq<Byte>, n: nat, hook: nat, m: Cpu, steps: nat) returns (k: nat)
    requires n <= |code| && forall i :: 0 <= i < n ==> code[i] == SledByte(n, i)
    requires TailRuns(code, n, hook, steps) && n % 3 != 0 && 0 <= m.pc < n
    ensures Run(code, m, k) ==
      Some(m.(pc := hook, rax := hook, stack := [m.rax] + ((if Pushes(n, m.pc) then [PUSHED] else []) + m.stack)))
  {
    var j := SledSlides(code, n, m);
    var m1 := m.(pc := n, stack := (if Pushes(n, m.pc) then [PUSHED] else []) + m.stack);
    RunThrough(code, m, j, m1, steps, m1.(pc := hook, rax := hook, stack := [m1.rax] + m1.stack));
    k := j + steps;
  }

  lemma RunThrough(code: seq<Byte>, m: Cpu, j: nat, m1: Cpu, k: nat, m2: Cpu)
    requires Run(code, m, j) == Some(m1) && Run(code, m1, k) == Some(m2)
    ensures Run(code, m, j + k) == Some(m2)
  {
    RunAppend(code, m, j, k);
  }

  /**
   A system call number nr below n arrives at the hook with rax and rdi as they were.  The stack is
   as it was too, except for numbers in the nops that are 1 modulo 3: there the fix-up drops a word
   that was never pushed, and that word is the return address.
  */
  lemma HookEntered(code: seq<Byte>, n: nat, hook: nat, nr: nat, rdi: nat, stack: seq<nat>) returns (k: nat)
    requires Installed(code, n, hook) && n % 3 != 0 && hook < WORD && nr < n <= WORD && stack != []
    ensures var m := Run(code, Cpu(nr, nr, rdi, stack), k);
      && m.Some? && m.value.pc == hook
      && FixUp(m.value) == Some(Cpu(hook, nr, rdi, if Agrees(n, nr) then stack else stack[1..]))
  {
    var m := Cpu(nr, nr, rdi, stack);
    var pushed := if Pushes(n, nr) then [PUSHED] else [];
    var m' := Cpu(hook, hook, rdi, [nr] + (pushed + stack));
    forall p: Cpu | p.pc == n ensures Run(code, p, 3) == Some(p.(pc := hook, rax := hook, stack := [p.rax] + p.stack)) {
      TailJumps(code, n, hook, p);
    }
    k := Arrival(code, n, hook, m, 3);
    assert Run(code, m, k) == Some(m');
    FixUpBalances(n, nr, stack, m');
  }

  /** The call m comes through the trampoline and the fix-up as m', apart from the program counter. */
  ghost predicate ComesThrough(code: seq<Byte>, hook: nat, m: Cpu, m': Cpu) {
    exists k: nat :: Run(code, m, k).Some? && Run(code, m, k).value.pc == hook
      && FixUp(Run(code, m, k).value) == Some(m')
  }

  /** The hook lies outside the trampoline, so a call arrives there once. */
  lemma ArrivesOnce(code: seq<Byte>, hook: nat, m: Cpu, j: nat, k: nat)
    requires |code| <= hook && j <= k && Run(code, m, j).Some? && Run(code, m, k).Some?
    requires Run(code, m, j).value.pc == hook
    ensures j == k
  {
    if j < k {
      RunAppend(code, m, j, k - j);
    }
  }

  /** For every 64-bit state of a call, its registers and stack come through unchanged exactly when the two agree. */
  lemma BalancedExactlyWhen(code: seq<Byte>, n: nat, hook: nat, nr: nat, rdi: nat, stack: seq<nat>)
    requires Installed(code, n, hook) && n % 3 != 0 && |code| <= hook < WORD && nr < n <= WORD && stack != []
    ensures ComesThrough(code, hook, Cpu(nr, nr, rdi, stack), Cpu(hook, nr, rdi, stack)) <==> Agrees(n, nr)
  {
    var m := Cpu(nr, nr, rdi, stack);
    var k := HookEntered(code, n, hook, nr, rdi, stack);
    if !Agrees(n, nr) {
      forall j: nat | Run(code, m, j).Some? && Run(code, m, j).value.pc == hook ensures j == k {
        ArrivesOnce(code, hook, m, if j < k then j else k, if j < k then k else j);
      }
      assert |stack[1..]| < |stack|;
    }
  }

  /**
   With the length of the code, 512, a call of io_uring_register (427) does not come through: its return address is
   dropped.
  */
  lemma IoUringRegisterUnbalanced(code: seq<Byte>, hook: nat, rdi: nat, stack: seq<nat>)
    requires Installed(code, 512, hook) && |code| <= hook < WORD && stack != []
    ensures !ComesThrough(code, hook, Cpu(427, 427, rdi, stack), Cpu(hook, 427, rdi, stack))
    ensures ComesThrough(code, hook, Cpu(427, 427, rdi, stack), Cpu(hook, 427, rdi, stack[1..]))
  {
    BalancedExactlyWhen(code, 512, hook, 427, rdi, stack);
    var k := HookEntered(code, 512, hook, 427, rdi, stack);
  }

  // ---------------------------------------------------------------- the bitmap of replaced instructions

  function Mask(k: nat): bv8
    requires k < 8
  {
    if k == 0 then 1 else if k == 1 then 2 else if k == 2 then 4 else if k == 3 then 8
    else if k == 4 then 16 else if k == 5 then 32 else if k == 6 then 64 else 128
  }

  predicate BitSet(b: bv8, k: nat)
    requires k < 8
  {
    b & Mask(k) != 0
  }

  lemma SetBit(b: bv8, k: nat, j: nat)
    requires k < 8 && j < 8
    ensures BitSet(b | Mask(k), j) <==> j == k || BitSet(b, j)
  {
  }

  /** The addresses recorded in a bitmap. */
  ghost function Members(bm: seq<bv8>): set<nat> {
    set v: nat | v < 8 * |bm| && BitSet(bm[v / 8], v % 8)
  }

  /** bitmap_set adds one address and loses none. */
  method Record(bm: array<bv8>, val: nat)
    requires val < 8 * bm.Length
    modifies bm
    ensures Members(bm[..]) == old(Members(bm[..])) + {val}
  {
    ghost var was := bm[..];
    bm[val / 8] := bm[val / 8] | Mask(val % 8);
    forall v: nat | v < 8 * |was| ensures BitSet(bm[v / 8], v % 8) <==> v == val || BitSet(was[v / 8], v % 8) {
      SetBit(was[val / 8], val % 8, v % 8);
    }
  }

  /** is_bitmap_set. */
  method IsRecorded(bm: array<bv8>, val: nat) returns (r: bool)
    requires val < 8 * bm.Length
    ensures r <==> val in Members(bm[..])
  {
    r := bm[val / 8] & Mask(val % 8) != 0;
  }
}
