/**
 * The Common Intermediate Language instructions the patch reads and writes
 * (ECMA-335 Partition III), and the evaluation-stack behaviour of the ones it
 * inserts.
 */
module Cil {
  import opened Results

  /** One instruction of a method body; operands are kept only where the patch looks at them. */
  datatype Instr =
    | Call(callee: string)    // call, operand: the referenced method, by name
    | LdcI4(value: int)       // ldc.i4 <int32>
    | Ldstr(text: string)     // ldstr <string literal>
    | Dup                     // dup
    | StelemRef               // stelem.ref
    | Other(opcode: string)   // anything else; its operand plays no part here
                              // (never call, ldc.i4, ldstr, dup or stelem.ref: those have their own constructors)

  /** Verification types of evaluation-stack slots: int32 and object reference (O). */
  datatype StackKind = Int32 | ObjRef

  /**
   * Effect of one instruction on the evaluation stack (top at the end), or
   * None when the stack does not admit it. The effect of `call` depends on the
   * callee's signature and that of `Other` on its opcode, neither of which is
   * modelled, so both are None.
   */
  function Step(st: seq<StackKind>, i: Instr): Option<seq<StackKind>>
  {
    match i
    case Dup => if |st| >= 1 then Some(st + [st[|st| - 1]]) else None
    case LdcI4(_) => Some(st + [Int32])
    case Ldstr(_) => Some(st + [ObjRef])
    case StelemRef =>
      // array, index, value -> (value must be an object reference for .ref)
      if |st| >= 3 && st[|st| - 3] == ObjRef && st[|st| - 2] == Int32 && st[|st| - 1] == ObjRef
      then Some(st[..|st| - 3])
      else None
    case Call(_) => None
    case Other(_) => None
  }

  /** Runs straight-line code from stack `st`. */
  function Exec(st: seq<StackKind>, code: seq<Instr>): Option<seq<StackKind>>
    decreases |code|
  {
    if code == [] then Some(st)
    else
      match Step(st, code[0])
      case None => None
      case Some(st') => Exec(st', code[1..])
  }

  /** Running two pieces of code one after the other is running their concatenation. */
  lemma {:induction false} ExecAppend(st: seq<StackKind>, a: seq<Instr>, b: seq<Instr>)
    ensures Exec(st, a + b) == match Exec(st, a) case None => None case Some(mid) => Exec(mid, b)
    decreases |a|
  {
    if a == [] {
      assert a + b == b;
    } else {
      assert (a + b)[0] == a[0];
      assert (a + b)[1..] == a[1..] + b;
      match Step(st, a[0])
      case None =>
      case Some(st') => ExecAppend(st', a[1..], b);
    }
  }
}
