/**
 Types and constants that more than one model uses.
 */
module Common {

  datatype Option<T> = None | Some(value: T)

  type byte = x: int | 0 <= x < 256

  // A write of an instruction to a register.
  datatype Write = Write(id: nat, value: nat)

  // tool/sherlock/include/core_cpu.h
  const REGID_CPSR := 0xFF
  const REGID_SPSR := 0xFE

}
