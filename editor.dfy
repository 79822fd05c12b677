/**
 * The method body editor: what repeated `ILProcessor.RemoveAt` calls and a
 * replacement stub do to an instruction list.
 */
module Editor {
  import opened Metadata

  const RET := Instruction(Ret, NoOperand)
  const LDC_I4_0 := Instruction(Ldc_I4_0, NoOperand)

  /** The body after a run of removals, and whether every removal found an
      instruction to remove. */
  datatype WindowEdit = WindowEdit(complete: bool, body: seq<Instruction>)

  /**
   * `count` removals at position `index`, one at a time. A removal with no
   * instruction at `index` throws in the source, so the run stops there
   * with the earlier removals already done.
   */
  function RemovedAt(body: seq<Instruction>, index: nat, count: nat): (r: WindowEdit)
    requires index <= |body|
    ensures r.complete <==> index + count <= |body|
    ensures r.complete ==> |r.body| == |body| - count
    ensures r.complete ==> r.body == body[..index] + body[index + count..]
    ensures !r.complete ==> r.body == body[..index]
    decreases count
  {
    if count == 0 then WindowEdit(true, body)
    else if index < |body| then RemovedAt(Without(body, index), index, count - 1)
    else WindowEdit(false, body)
  }

  /** A removed window can be put back: the edit loses exactly those instructions. */
  lemma RemovedWindowRestores(body: seq<Instruction>, index: nat, count: nat)
    requires index + count <= |body|
    ensures var r := RemovedAt(body, index, count).body;
      r[..index] + body[index..index + count] + r[index..] == body
  {
  }

  /** The replacement bodies the patcher installs. */
  datatype Stub = ReturnVoid | ReturnZero

  function StubBody(s: Stub): (r: seq<Instruction>)
    ensures |r| >= 1 && r[|r| - 1] == RET
  {
    match s
    case ReturnVoid => [RET]
    case ReturnZero => [LDC_I4_0, RET]
  }
}
