/**
 * The instruction matcher: a linear scan for the first instruction with a
 * given opcode whose operand passes a test. The tests are the three the
 * patcher uses: an integer constant, a particular field, and a call target
 * given by declaring type and method name.
 */
module Matcher {
  import opened Metadata

  datatype OperandTest =
    | IntEquals(value: int)
    | IsField(field: FieldReference)
    | CallsMethod(declaringType: string, name: string)

  datatype Pattern = Pattern(opCode: OpCode, operand: OperandTest)

  /** The one instruction a pattern describes: its opcode with the integer,
      the field, or a call of the named method as operand. */
  function Described(p: Pattern): (r: Instruction)
    ensures r.opCode == p.opCode
  {
    match p.operand
    case IntEquals(v) => Instruction(p.opCode, IntOperand(v))
    case IsField(f) => Instruction(p.opCode, FieldOperand(f))
    case CallsMethod(d, n) => Instruction(p.opCode, MethodOperand(MethodReference(d, n)))
  }

  /** The opcode test and the operand test of one pattern: an instruction
      matches exactly when it is the instruction the pattern describes. */
  predicate Matches(i: Instruction, p: Pattern)
    ensures Matches(i, p) <==> i == Described(p)
  {
    && i.opCode == p.opCode
    && match p.operand
       case IntEquals(v) => i.operand == IntOperand(v)
       case IsField(f) => i.operand == FieldOperand(f)
       case CallsMethod(d, n) =>
         i.operand.MethodOperand? && i.operand.callee.declaringType == d && i.operand.callee.name == n
  }

  /** The anchor: the position of the first instruction matching `p`. */
  function FindAnchor(body: seq<Instruction>, p: Pattern): (r: Option<nat>)
    ensures r.Some? ==> r.value < |body| && Matches(body[r.value], p)
    ensures r.Some? ==> forall j :: 0 <= j < r.value ==> !Matches(body[j], p)
    ensures r.None? <==> forall j :: 0 <= j < |body| ==> !Matches(body[j], p)
  {
    FirstIndex(body, (i: Instruction) => Matches(i, p))
  }
}
