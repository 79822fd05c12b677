/**
 * The in-memory metadata model the patcher works on: the main module of a
 * .NET assembly with its types, their fields and methods, each method body
 * an ordered list of IL instructions, and the module's assembly references.
 * Loading and writing the binary are not part of this model; a module is a
 * plain value here.
 */
module Metadata {

  datatype Option<+T> = None | Some(value: T)

  /** The IL opcodes the patcher names; every other opcode is `Other`. */
  datatype OpCode = Ret | Call | Ldsfld | Ldc_I4 | Ldc_I4_0 | Other(mnemonic: string)

  /** A field as an instruction operand sees it: declaring type, name and field type. */
  datatype FieldReference = FieldReference(declaringType: string, name: string, fieldType: string)

  /** A method as an instruction operand sees it; overloads are not told apart. */
  datatype MethodReference = MethodReference(declaringType: string, name: string)

  datatype Operand =
    | NoOperand
    | IntOperand(value: int)
    | FieldOperand(field: FieldReference)
    | MethodOperand(callee: MethodReference)
    | OtherOperand(text: string)  // strings, type tokens, branch targets, ...

  datatype Instruction = Instruction(opCode: OpCode, operand: Operand)

  datatype FieldDefinition = FieldDefinition(name: string, fieldType: string)

  datatype MethodDefinition = MethodDefinition(name: string, body: seq<Instruction>)

  datatype TypeDefinition = TypeDefinition(
    fullName: string,
    fields: seq<FieldDefinition>,
    methods: seq<MethodDefinition>)

  datatype AssemblyNameReference = AssemblyNameReference(name: string, version: string)

  datatype ModuleDefinition = ModuleDefinition(
    types: seq<TypeDefinition>,
    assemblyReferences: seq<AssemblyNameReference>)

  /** The position of the first element of `s` satisfying `p`, as LINQ's
      `First`/`FirstOrDefault` find it by a scan from the front. */
  function FirstIndex<T>(s: seq<T>, p: T -> bool): (r: Option<nat>)
    ensures r.Some? ==> r.value < |s| && p(s[r.value])
    ensures r.Some? ==> forall j :: 0 <= j < r.value ==> !p(s[j])
    ensures r.None? <==> forall j :: 0 <= j < |s| ==> !p(s[j])
  {
    if |s| == 0 then None
    else if p(s[0]) then Some(0)
    else match FirstIndex(s[1..], p)
      case None => None
      case Some(i) => Some(i + 1)
  }

  // `FindType`, `FindMethod` and `FindField` are the `FirstIndex` scan with
  // the name test written in. Written as calls of `FirstIndex` with a
  // lambda they are inlined at every use, and the lambda's axioms make the
  // proofs about whole runs several times more expensive for the solver.
  function FindType(types: seq<TypeDefinition>, fullName: string): (r: Option<nat>)
    ensures r.Some? ==> r.value < |types| && types[r.value].fullName == fullName
    ensures r.Some? ==> forall j :: 0 <= j < r.value ==> types[j].fullName != fullName
    ensures r.None? <==> forall j :: 0 <= j < |types| ==> types[j].fullName != fullName
  {
    if |types| == 0 then None
    else if types[0].fullName == fullName then Some(0)
    else match FindType(types[1..], fullName)
      case None => None
      case Some(i) => Some(i + 1)
  }

  function FindMethod(methods: seq<MethodDefinition>, name: string): (r: Option<nat>)
    ensures r.Some? ==> r.value < |methods| && methods[r.value].name == name
    ensures r.Some? ==> forall j :: 0 <= j < r.value ==> methods[j].name != name
    ensures r.None? <==> forall j :: 0 <= j < |methods| ==> methods[j].name != name
  {
    if |methods| == 0 then None
    else if methods[0].name == name then Some(0)
    else match FindMethod(methods[1..], name)
      case None => None
      case Some(i) => Some(i + 1)
  }

  function FindField(fields: seq<FieldDefinition>, name: string): (r: Option<nat>)
    ensures r.Some? ==> r.value < |fields| && fields[r.value].name == name
    ensures r.Some? ==> forall j :: 0 <= j < r.value ==> fields[j].name != name
    ensures r.None? <==> forall j :: 0 <= j < |fields| ==> fields[j].name != name
  {
    if |fields| == 0 then None
    else if fields[0].name == name then Some(0)
    else match FindField(fields[1..], name)
      case None => None
      case Some(i) => Some(i + 1)
  }

  function FindReference(refs: seq<AssemblyNameReference>, name: string): (r: Option<nat>)
    ensures r.Some? ==> r.value < |refs| && refs[r.value].name == name
    ensures r.Some? ==> forall j :: 0 <= j < r.value ==> refs[j].name != name
    ensures r.None? <==> forall j :: 0 <= j < |refs| ==> refs[j].name != name
  {
    FirstIndex(refs, (a: AssemblyNameReference) => a.name == name)
  }

  /** `s` with the element at position `i` taken out (`Collection.RemoveAt`). */
  function Without<T>(s: seq<T>, i: nat): (r: seq<T>)
    requires i < |s|
    ensures |r| == |s| - 1
    ensures forall j {:trigger r[j]} :: 0 <= j < |r| ==> r[j] == if j < i then s[j] else s[j + 1]
  {
    s[..i] + s[i + 1..]
  }

  /** Two method lists with the same names at the same positions. */
  predicate SameMethodNames(ms: seq<MethodDefinition>, ms': seq<MethodDefinition>) {
    |ms| == |ms'| && forall k :: 0 <= k < |ms| ==> ms[k].name == ms'[k].name
  }

  /** Renaming nothing keeps every method lookup where it was. */
  lemma FindMethodSameNames(ms: seq<MethodDefinition>, ms': seq<MethodDefinition>, name: string)
    requires SameMethodNames(ms, ms')
    ensures FindMethod(ms, name) == FindMethod(ms', name)
  {
  }

  /** Two type lists with the same full names at the same positions. */
  predicate SameTypeNames(ts: seq<TypeDefinition>, ts': seq<TypeDefinition>) {
    |ts| == |ts'| && forall k :: 0 <= k < |ts| ==> ts[k].fullName == ts'[k].fullName
  }

  lemma FindTypeSameNames(ts: seq<TypeDefinition>, ts': seq<TypeDefinition>, fullName: string)
    requires SameTypeNames(ts, ts')
    ensures FindType(ts, fullName) == FindType(ts', fullName)
  {
  }

  /** The type `t` with the body of its method at position `mi` replaced. */
  function WithMethodBody(t: TypeDefinition, mi: nat, body: seq<Instruction>): (r: TypeDefinition)
    requires mi < |t.methods|
  {
    t.(methods := t.methods[mi := t.methods[mi].(body := body)])
  }
}
