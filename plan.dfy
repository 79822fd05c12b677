/**
 * The patch plan as functions on values: what each step of the patcher
 * does to a type, and what the whole run does to the main module, failures
 * included. A run stops at the first failed lookup or removal; the edits
 * made before it stay in place.
 */
module Plan {
  import opened Metadata
  import opened Matcher
  import opened Editor
  import opened Pruner

  const STEAMWORKS_NET := "Steamworks.NET"
  const CELESTE_TYPE := "Celeste.Celeste"
  const STATS_TYPE := "Celeste.Stats"
  const ACHIEVEMENTS_TYPE := "Celeste.Achievements"
  const CCTOR := ".cctor"
  const UPDATE := "Update"
  const MAIN := "Main"
  const STEAM_ID := "SteamID"

  /** Celeste's Steam application id, loaded by an `ldc.i4` in the static constructor. */
  const STEAM_APP_ID := 504230

  const STEAM_APP_ID_LOAD := Pattern(Ldc_I4, IntEquals(STEAM_APP_ID))
  const RUN_CALLBACKS_CALL := Pattern(Call, CallsMethod("Steamworks.SteamAPI", "RunCallbacks"))

  /** An `ldsfld` of the field `f` declared by `t`. */
  function SteamIdLoad(t: TypeDefinition, f: FieldDefinition): (r: Pattern)
    ensures forall i :: Matches(i, r) <==>
              && i.opCode == Ldsfld && i.operand.FieldOperand?
              && i.operand.field.declaringType == t.fullName
              && i.operand.field.name == f.name
              && i.operand.field.fieldType == f.fieldType
  {
    Pattern(Ldsfld, IsField(FieldReference(t.fullName, f.name, f.fieldType)))
  }

  /** Why a step failed: every failure names the type being patched. */
  datatype PatchError =
    | TypeNotFound(typeName: string)
    | MethodNotFound(typeName: string, memberName: string)
    | FieldNotFound(typeName: string, memberName: string)
    | AnchorNotFound(typeName: string, memberName: string)
    | OutOfRange(typeName: string, memberName: string)

  datatype Outcome = Applied | Failed(error: PatchError)

  /** A step on one type: its outcome and the type as the step leaves it. */
  datatype TypeRun = TypeRun(outcome: Outcome, typeDef: TypeDefinition)

  /** A step on the module: its outcome and the module as the step leaves it. */
  datatype Run = Run(outcome: Outcome, mainModule: ModuleDefinition)

  /** The edits below keep a type's name and its methods' names and positions. */
  predicate SameShape(t: TypeDefinition, t': TypeDefinition) {
    t'.fullName == t.fullName && SameMethodNames(t.methods, t'.methods)
  }

  /** Steps that fail name the type they work on. */
  predicate Names(r: TypeRun, t: TypeDefinition) {
    r.outcome.Failed? ==> r.outcome.error.typeName == t.fullName
  }

  /** The field list is kept, or loses exactly its first `SteamID` field. */
  predicate SteamIdPruned(fields: seq<FieldDefinition>, fields': seq<FieldDefinition>) {
    || fields' == fields
    || (FindField(fields, STEAM_ID).Some? && fields' == Without(fields, FindField(fields, STEAM_ID).value))
  }

  /**
   * In the method at `mi`, find the anchor and remove `count` instructions
   * starting there (Patcher.cs:40-43 and :68-72).
   */
  function WindowRemoved(t: TypeDefinition, mi: nat, anchor: Pattern, count: nat): (r: TypeRun)
    requires mi < |t.methods|
    ensures SameShape(t, r.typeDef) && r.typeDef.fields == t.fields && Names(r, t)
    ensures forall k :: 0 <= k < |t.methods| && k != mi ==> r.typeDef.methods[k] == t.methods[k]
    ensures FindAnchor(t.methods[mi].body, anchor).None?
         ==> r == TypeRun(Failed(AnchorNotFound(t.fullName, t.methods[mi].name)), t)
    ensures FindAnchor(t.methods[mi].body, anchor).Some? ==>
              var body, a := t.methods[mi].body, FindAnchor(t.methods[mi].body, anchor).value;
              if a + count <= |body| then
                r.outcome == Applied && r.typeDef.methods[mi].body == body[..a] + body[a + count..]
              else
                r.outcome == Failed(OutOfRange(t.fullName, t.methods[mi].name)) && r.typeDef.methods[mi].body == body[..a]
  {
    var body := t.methods[mi].body;
    match FindAnchor(body, anchor)
    case None => TypeRun(Failed(AnchorNotFound(t.fullName, t.methods[mi].name)), t)
    case Some(a) =>
      var edit := RemovedAt(body, a, count);
      var outcome := if edit.complete then Applied else Failed(OutOfRange(t.fullName, t.methods[mi].name));
      TypeRun(outcome, WithMethodBody(t, mi, edit.body))
  }

  /** `.cctor`: drop the three instructions from the app id load on (Patcher.cs:36-43). */
  function CctorPatched(t: TypeDefinition): (r: TypeRun)
    ensures SameShape(t, r.typeDef) && r.typeDef.fields == t.fields && Names(r, t)
    ensures forall k :: 0 <= k < |t.methods| && t.methods[k].name != CCTOR ==> r.typeDef.methods[k] == t.methods[k]
    ensures FindMethod(t.methods, CCTOR).None? ==> r == TypeRun(Failed(MethodNotFound(t.fullName, CCTOR)), t)
    ensures FindMethod(t.methods, CCTOR).Some? ==>
              var c := FindMethod(t.methods, CCTOR).value;
              var body := t.methods[c].body;
              match FindAnchor(body, STEAM_APP_ID_LOAD)
              case None => r == TypeRun(Failed(AnchorNotFound(t.fullName, CCTOR)), t)
              case Some(a) =>
                if a + 3 <= |body| then r.outcome == Applied && r.typeDef.methods[c].body == body[..a] + body[a + 3..]
                else r.outcome == Failed(OutOfRange(t.fullName, CCTOR)) && r.typeDef.methods[c].body == body[..a]
  {
    match FindMethod(t.methods, CCTOR)
    case None => TypeRun(Failed(MethodNotFound(t.fullName, CCTOR)), t)
    case Some(mi) => WindowRemoved(t, mi, STEAM_APP_ID_LOAD, 3)
  }

  /** `Update`: drop the `SteamAPI.RunCallbacks()` call (Patcher.cs:48-57). */
  function UpdatePatched(t: TypeDefinition): (r: TypeRun)
    ensures SameShape(t, r.typeDef) && r.typeDef.fields == t.fields && Names(r, t)
    ensures forall k :: 0 <= k < |t.methods| && t.methods[k].name != UPDATE ==> r.typeDef.methods[k] == t.methods[k]
    ensures FindMethod(t.methods, UPDATE).None? ==> r == TypeRun(Failed(MethodNotFound(t.fullName, UPDATE)), t)
    ensures FindMethod(t.methods, UPDATE).Some? ==>
              var u := FindMethod(t.methods, UPDATE).value;
              match FindAnchor(t.methods[u].body, RUN_CALLBACKS_CALL)
              case None => r == TypeRun(Failed(AnchorNotFound(t.fullName, UPDATE)), t)
              case Some(b) => r.outcome == Applied && r.typeDef.methods[u].body == Without(t.methods[u].body, b)
  {
    match FindMethod(t.methods, UPDATE)
    case None => TypeRun(Failed(MethodNotFound(t.fullName, UPDATE)), t)
    case Some(mi) =>
      var body := t.methods[mi].body;
      match FindAnchor(body, RUN_CALLBACKS_CALL)
      case None => TypeRun(Failed(AnchorNotFound(t.fullName, UPDATE)), t)
      case Some(a) => TypeRun(Applied, WithMethodBody(t, mi, Without(body, a)))
  }

  /**
   * `Main`: look up the `SteamID` field, drop the fifteen instructions from
   * its first load on, then drop the field (Patcher.cs:62-74).
   */
  function MainPatched(t: TypeDefinition): (r: TypeRun)
    ensures SameShape(t, r.typeDef) && Names(r, t)
    ensures r.outcome.Failed? ==> r.typeDef.fields == t.fields
    ensures SteamIdPruned(t.fields, r.typeDef.fields)
    ensures forall k :: 0 <= k < |t.methods| && t.methods[k].name != MAIN ==> r.typeDef.methods[k] == t.methods[k]
    ensures FindMethod(t.methods, MAIN).None? ==> r == TypeRun(Failed(MethodNotFound(t.fullName, MAIN)), t)
    ensures (FindMethod(t.methods, MAIN).Some? && FindField(t.fields, STEAM_ID).None?) ==>
              r == TypeRun(Failed(FieldNotFound(t.fullName, STEAM_ID)), t)
    ensures (FindMethod(t.methods, MAIN).Some? && FindField(t.fields, STEAM_ID).Some?) ==>
              var mm, fi := FindMethod(t.methods, MAIN).value, FindField(t.fields, STEAM_ID).value;
              var body := t.methods[mm].body;
              match FindAnchor(body, SteamIdLoad(t, t.fields[fi]))
              case None => r == TypeRun(Failed(AnchorNotFound(t.fullName, MAIN)), t)
              case Some(d) =>
                if d + 15 <= |body| then
                  r.outcome == Applied && r.typeDef.methods[mm].body == body[..d] + body[d + 15..]
                  && r.typeDef.fields == Without(t.fields, fi)
                else
                  r.outcome == Failed(OutOfRange(t.fullName, MAIN)) && r.typeDef.methods[mm].body == body[..d]
  {
    match FindMethod(t.methods, MAIN)
    case None => TypeRun(Failed(MethodNotFound(t.fullName, MAIN)), t)
    case Some(mi) =>
      match FindField(t.fields, STEAM_ID)
      case None => TypeRun(Failed(FieldNotFound(t.fullName, STEAM_ID)), t)
      case Some(fi) =>
        var cut := WindowRemoved(t, mi, SteamIdLoad(t, t.fields[fi]), 15);
        if cut.outcome.Failed? then cut
        else TypeRun(Applied, cut.typeDef.(fields := Without(cut.typeDef.fields, fi)))
  }

  /** `PatchCelesteClass`: the three method steps in order (Patcher.cs:29-76). */
  function CelestePatched(t: TypeDefinition): (r: TypeRun)
    ensures SameShape(t, r.typeDef) && Names(r, t)
    ensures r.outcome.Failed? ==> r.typeDef.fields == t.fields
    ensures SteamIdPruned(t.fields, r.typeDef.fields)
    ensures forall k :: 0 <= k < |t.methods| && t.methods[k].name !in {CCTOR, UPDATE, MAIN}
              ==> r.typeDef.methods[k] == t.methods[k]
  {
    var cctor := CctorPatched(t);
    if cctor.outcome.Failed? then cctor
    else
      var update := UpdatePatched(cctor.typeDef);
      if update.outcome.Failed? then update
      else MainPatched(update.typeDef)
  }

  /** A method to reduce to a stub. */
  datatype StubStep = StubStep(methodName: string, stub: Stub)

  /** `PatchStatsClass` (Patcher.cs:84-144). */
  const STATS_STUBS := [
    StubStep("MakeRequest", ReturnVoid),
    StubStep("Increment", ReturnVoid),
    StubStep("Local", ReturnZero),
    StubStep("Global", ReturnZero),
    StubStep("Store", ReturnVoid)]

  /** `PatchAchievementsClass` (Patcher.cs:152-175). */
  const ACHIEVEMENTS_STUBS := [
    StubStep("Has", ReturnZero),
    StubStep("Register", ReturnVoid)]

  /** Empty the named method's body and append its stub. */
  function Stubbed(t: TypeDefinition, step: StubStep): (r: TypeRun)
    ensures SameShape(t, r.typeDef) && r.typeDef.fields == t.fields && Names(r, t)
    ensures forall k :: 0 <= k < |t.methods| && t.methods[k].name != step.methodName
              ==> r.typeDef.methods[k] == t.methods[k]
    ensures r.outcome == Applied <==> FindMethod(t.methods, step.methodName).Some?
  {
    match FindMethod(t.methods, step.methodName)
    case None => TypeRun(Failed(MethodNotFound(t.fullName, step.methodName)), t)
    case Some(mi) => TypeRun(Applied, WithMethodBody(t, mi, StubBody(step.stub)))
  }

  /** The names of the methods a list of stub steps targets. */
  function StepNames(steps: seq<StubStep>): (r: set<string>) {
    if |steps| == 0 then {} else {steps[0].methodName} + StepNames(steps[1..])
  }

  /** A name no step carries is not among the step names. */
  lemma {:induction false} NotAStepName(steps: seq<StubStep>, name: string)
    requires forall k :: 0 <= k < |steps| ==> steps[k].methodName != name
    ensures name !in StepNames(steps)
  {
    if |steps| > 0 {
      NotAStepName(steps[1..], name);
    }
  }

  /** The stub steps in order, stopping at the first that fails. */
  function AllStubbed(t: TypeDefinition, steps: seq<StubStep>): (r: TypeRun)
    ensures SameShape(t, r.typeDef) && r.typeDef.fields == t.fields && Names(r, t)
    ensures forall k :: 0 <= k < |t.methods| && t.methods[k].name !in StepNames(steps)
              ==> r.typeDef.methods[k] == t.methods[k]
    decreases |steps|
  {
    if |steps| == 0 then TypeRun(Applied, t)
    else
      var first := Stubbed(t, steps[0]);
      if first.outcome.Failed? then first
      else AllStubbed(first.typeDef, steps[1..])
  }

  /** The three classes the patcher edits, in the order it edits them. */
  datatype TargetClass = CelesteClass | StatsClass | AchievementsClass

  function TargetName(c: TargetClass): (r: string) {
    match c
    case CelesteClass => CELESTE_TYPE
    case StatsClass => STATS_TYPE
    case AchievementsClass => ACHIEVEMENTS_TYPE
  }

  /** The names of the methods the patch of class `c` edits. */
  function MethodsOf(c: TargetClass): (r: set<string>) {
    match c
    case CelesteClass => {CCTOR, UPDATE, MAIN}
    case StatsClass => StepNames(STATS_STUBS)
    case AchievementsClass => StepNames(ACHIEVEMENTS_STUBS)
  }

  function ClassPatched(c: TargetClass, t: TypeDefinition): (r: TypeRun)
    ensures SameShape(t, r.typeDef) && Names(r, t)
    ensures forall k :: 0 <= k < |t.methods| && t.methods[k].name !in MethodsOf(c)
              ==> r.typeDef.methods[k] == t.methods[k]
    ensures c != CelesteClass ==> r.typeDef.fields == t.fields
    ensures r.outcome.Failed? ==> r.typeDef.fields == t.fields
    ensures SteamIdPruned(t.fields, r.typeDef.fields)
  {
    match c
    case CelesteClass => CelestePatched(t)
    case StatsClass => AllStubbed(t, STATS_STUBS)
    case AchievementsClass => AllStubbed(t, ACHIEVEMENTS_STUBS)
  }

  /** The module with its type at `ti` replaced. */
  function WithType(m: ModuleDefinition, ti: nat, t: TypeDefinition): (r: ModuleDefinition)
    requires ti < |m.types|
  {
    m.(types := m.types[ti := t])
  }

  lemma WithTypeOverwrite(m: ModuleDefinition, ti: nat, t: TypeDefinition, t': TypeDefinition)
    requires ti < |m.types|
    ensures WithType(WithType(m, ti, t), ti, t') == WithType(m, ti, t')
  {
    assert m.types[ti := t][ti := t'] == m.types[ti := t'];
  }

  lemma WithTypeUnchanged(m: ModuleDefinition, ti: nat)
    requires ti < |m.types|
    ensures WithType(m, ti, m.types[ti]) == m
  {
    assert m.types[ti := m.types[ti]] == m.types;
  }

  /** Every type keeps its methods' names and positions. */
  predicate SameLayout(m: ModuleDefinition, m': ModuleDefinition) {
    && SameTypeNames(m.types, m'.types)
    && forall k :: 0 <= k < |m.types| ==> SameMethodNames(m.types[k].methods, m'.types[k].methods)
  }

  /** The methods a run edits: the class's name and the method's name are both targets. */
  predicate Targeted(typeName: string, methodName: string) {
    || (typeName == CELESTE_TYPE && methodName in MethodsOf(CelesteClass))
    || (typeName == STATS_TYPE && methodName in MethodsOf(StatsClass))
    || (typeName == ACHIEVEMENTS_TYPE && methodName in MethodsOf(AchievementsClass))
  }

  /**
   * Look up the class by full name and patch it (`PatchCelesteClass`,
   * `PatchStatsClass`, `PatchAchievementsClass`). Only the first type with
   * that name is touched, and nothing outside it.
   */
  function ModulePatched(m: ModuleDefinition, c: TargetClass): (r: Run)
    ensures SameLayout(m, r.mainModule)
    ensures r.mainModule.assemblyReferences == m.assemblyReferences
    ensures forall k :: 0 <= k < |m.types| && m.types[k].fullName != TargetName(c)
              ==> r.mainModule.types[k] == m.types[k]
    ensures forall k, j :: 0 <= k < |m.types| && 0 <= j < |m.types[k].methods|
              && m.types[k].methods[j].name !in MethodsOf(c)
              ==> r.mainModule.types[k].methods[j] == m.types[k].methods[j]
    ensures c != CelesteClass ==> forall k :: 0 <= k < |m.types| ==> r.mainModule.types[k].fields == m.types[k].fields
    ensures r.outcome.Failed? ==> r.outcome.error.typeName == TargetName(c)
    ensures FindType(m.types, TargetName(c)).None? ==> r == Run(Failed(TypeNotFound(TargetName(c))), m)
  {
    match FindType(m.types, TargetName(c))
    case None => Run(Failed(TypeNotFound(TargetName(c))), m)
    case Some(ti) =>
      var t := ClassPatched(c, m.types[ti]);
      Run(t.outcome, WithType(m, ti, t.typeDef))
  }

  /** When the class is found at `ti`, the module step is the type step there. */
  lemma ModulePatchedAt(m: ModuleDefinition, c: TargetClass, ti: nat)
    requires FindType(m.types, TargetName(c)) == Some(ti)
    ensures ModulePatched(m, c)
         == Run(ClassPatched(c, m.types[ti]).outcome, WithType(m, ti, ClassPatched(c, m.types[ti]).typeDef))
  {
  }

  /** Of several types with the class's name, only the first is patched. */
  lemma ModulePatchedFirstOnly(m: ModuleDefinition, c: TargetClass, k: nat)
    requires k < |m.types| && FindType(m.types, TargetName(c)) != Some(k)
    ensures ModulePatched(m, c).mainModule.types[k] == m.types[k]
  {
  }

  /** A class step keeps every type's fields, except that the Celeste step
      may drop the first `SteamID` field of the Celeste type. */
  lemma ModulePatchedFields(m: ModuleDefinition, c: TargetClass)
    ensures forall k :: 0 <= k < |m.types| ==> SteamIdPruned(m.types[k].fields, ModulePatched(m, c).mainModule.types[k].fields)
  {
    var r := ModulePatched(m, c).mainModule;
    forall k | 0 <= k < |m.types|
      ensures SteamIdPruned(m.types[k].fields, r.types[k].fields)
    {
      if FindType(m.types, TargetName(c)) != Some(k) {
        ModulePatchedFirstOnly(m, c, k);
      }
    }
  }

  /** The module after the `Steamworks.NET` reference is removed (Patcher.cs:181-184). */
  function ReferenceRemoved(m: ModuleDefinition): (r: ModuleDefinition)
    ensures r.types == m.types
    ensures CountNamed(r.assemblyReferences, STEAMWORKS_NET)
         == if CountNamed(m.assemblyReferences, STEAMWORKS_NET) == 0 then 0
            else CountNamed(m.assemblyReferences, STEAMWORKS_NET) - 1
    ensures OthersThan(r.assemblyReferences, STEAMWORKS_NET) == OthersThan(m.assemblyReferences, STEAMWORKS_NET)
  {
    WithoutReferenceEffect(m.assemblyReferences, STEAMWORKS_NET);
    m.(assemblyReferences := WithoutReference(m.assemblyReferences, STEAMWORKS_NET))
  }

  /** `Patch`: reference removal, then the three classes in order (Patcher.cs:178-193). */
  function Patched(m: ModuleDefinition): (r: Run)
    ensures SameTypeNames(m.types, r.mainModule.types)
    ensures r.mainModule.assemblyReferences == WithoutReference(m.assemblyReferences, STEAMWORKS_NET)
    ensures r.outcome.Failed? ==> r.outcome.error.typeName in {CELESTE_TYPE, STATS_TYPE, ACHIEVEMENTS_TYPE}
  {
    var celeste := ModulePatched(ReferenceRemoved(m), CelesteClass);
    if celeste.outcome.Failed? then celeste
    else
      var stats := ModulePatched(celeste.mainModule, StatsClass);
      if stats.outcome.Failed? then stats
      else ModulePatched(stats.mainModule, AchievementsClass)
  }
}
