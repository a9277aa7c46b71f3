/** The functional simulator of funct.cpp: it runs the emulator for a number of instructions, or until HALT. */
module Functional {
  import opened Memory
  import opened EmulatorModel

  datatype RunStatus = SUCCESS | HALT

  class FunctionalSimulator {
    const emulator: Emulator

    ghost const Repr: set<object> := {emulator, emulator.registers, emulator.memory.memArr}

    constructor (mem: MemoryStore)
      requires mem.Valid()
      ensures emulator.Valid() && emulator.memory == mem
      ensures fresh(emulator) && fresh(emulator.registers)
      ensures emulator.Model() == Machine(0, false, 0, seq(32, _ => 0), mem.Model(), 0)
    {
      emulator := new Emulator(mem);
    }

    /** Runs the given number of instructions, 0 meaning until HALT; `bound` is where HALT comes in that case.
        It stops early, and right after, the first HALT. */
    method RunInstructions(instructions: nat, ghost bound: nat) returns (status: RunStatus, ghost executed: nat)
      requires emulator.Valid()
      requires instructions == 0 ==> HaltsAfter(emulator.Model(), bound)
      modifies Repr
      ensures emulator.Valid() && emulator.Model() == Run(old(emulator.Model()), executed)
      ensures status == HALT ==> HaltsAfter(old(emulator.Model()), executed)
      ensures status == SUCCESS ==> executed == instructions && instructions > 0
      ensures status == SUCCESS ==> forall k :: 0 <= k < executed ==> !InfoAt(old(emulator.Model()), k).isHalt
      ensures instructions > 0 ==> executed <= instructions
    {
      hide Step, Info;
      ghost var m := emulator.Model();
      var numInstructions := 0;
      status, executed := SUCCESS, 0;
      while instructions == 0 || numInstructions < instructions
        invariant executed == numInstructions && (instructions > 0 ==> numInstructions <= instructions)
        invariant emulator.Model() == Run(m, executed)
        invariant forall k :: 0 <= k < executed ==> !InfoAt(m, k).isHalt
        invariant instructions == 0 ==> executed < bound
        decreases if instructions == 0 then bound - executed else instructions - executed
      {
        var info := emulator.ExecuteInstruction();
        assert info == InfoAt(m, executed);
        numInstructions := numInstructions + 1;
        executed := executed + 1;
        if info.isHalt {
          status := HALT;
          break;
        }
      }
    }

    /** Calls `RunInstructions(1)` until HALT. The functional run of the program must halt, after n instructions. */
    method RunTillHalt(ghost n: nat) returns (status: RunStatus)
      requires emulator.Valid() && HaltsAfter(emulator.Model(), n)
      modifies Repr
      ensures status == HALT
      ensures emulator.Valid() && emulator.Model() == Run(old(emulator.Model()), n)
    {
      hide Step, Info;
      ghost var m, k := emulator.Model(), 0;
      while true
        invariant k < n && emulator.Model() == Run(m, k)
        decreases n - k
      {
        ghost var executed: nat;
        status, executed := RunInstructions(1, 0);
        OneInstruction(m, k, executed);
        k := k + 1;
        if status == HALT {
          assert InfoAt(m, k - 1).isHalt;
          break;
        }
      }
    }
  }

  /** One instruction from the machine after k instructions is instruction k. */
  lemma OneInstruction(m: Machine, k: nat, executed: nat)
    requires executed <= 1
    ensures executed == 1 ==> Run(Run(m, k), executed) == Run(m, k + 1)
    ensures InfoAt(Run(m, k), 0) == InfoAt(m, k)
  {
    hide Step, Info;
    assert Run(Run(m, k), 0) == Run(m, k);
  }
}
