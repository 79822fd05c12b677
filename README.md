# CelestePatcher — the instruction patch engine in Dafny

CelestePatcher removes the Steam dependency from a copy of the game
Celeste by editing its .NET assembly. It loads the assembly through
Mono.Cecil and changes the main module in place, in a fixed order:

1. It removes the `Steamworks.NET` assembly reference, if there is one.
   If there is none, it only logs a warning.
2. It patches class `Celeste.Celeste`:
   - In the static constructor `.cctor`, it finds the first `ldc.i4 504230`, the Steam app id. It removes three instructions from there on.
   - In `Update`, it removes the first `call Steamworks.SteamAPI::RunCallbacks`.
   - In `Main`, it finds the `SteamID` field. It removes fifteen instructions from the first `ldsfld` of that field, then removes the field.
3. It patches class `Celeste.Stats`. The bodies of `MakeRequest`, `Increment` and `Store` are emptied and replaced by `ret`. The bodies of `Local` and `Global` are replaced by `ldc.i4.0; ret`.
4. It patches class `Celeste.Achievements`. `Has` becomes `ldc.i4.0; ret` and `Register` becomes `ret`.

Every type, method, field and anchor lookup inside the three class
patches uses `First`, which throws when nothing matches. `FirstOrDefault`,
which does not throw, is used by the reference lookup, by the two queries
below, and by the `SteamID` lookup inside the `Main` anchor test
(Patcher.cs:70); that last one cannot come back empty, because the `First`
at Patcher.cs:66 has already found the same field. Every
window removal is a loop of single `RemoveAt` calls, so a window that
runs past the end of the body has already removed what it could when the
exception comes. The first failure ends the run, and the edits made
before it stay. Two advisory queries, which the command line turns into
a warning and a yes/no prompt (a `--yes` flag or a "y" answer patches
whatever they return):
- `IsCeleste`: the module has a type named `Celeste.Celeste`;
- `NeedsPatching`: the module is Celeste and still references `Steamworks.NET`.

The model has two layers:

- **Value layer** (modules `Metadata`, `Matcher`, `Editor`, `Pruner`, `Plan`).
  - The assembly is a value: types with fields and methods, instruction lists, and assembly references.
  - Each step of the patcher is a function from the type before the step to an outcome and the type after it.
  - `Plan.Patched` is the whole run.
  - Failures are explicit outcomes: `TypeNotFound`, `MethodNotFound`, `FieldNotFound`, `AnchorNotFound` and `OutOfRange`. Each names the class being patched.
- **Object layer** (module `Patching`).
  - The class `Patcher` owns the main module and edits it the way the C# class does.
  - Its step methods are built on single `RemoveAt` calls, `Append`, `Fields.Remove` and `AssemblyReferences.Remove`, driven by the same loops as the source.
  - Each method is proved to leave the module exactly as the matching `Plan` function describes.

`PlanProperties` proves what the plan guarantees:
- exactly which modules a run gets through;
- what each class looks like afterwards;
- where a failing run stops, the error it reports, and what each class holds at that point;
- that nothing outside the targeted methods, the first `SteamID` field of the Celeste class and the reference list ever changes.

A window that does not fit is modelled as the code behaves: removal is
not all-or-nothing. The body is left cut at the anchor, and the step
fails with `OutOfRange`.

## Model

| member | source | states |
|---|---|---|
| Patching.Patcher.constructor | CelestePatcher/Patcher.cs:12-16 | the patcher holds the loaded module as given |
| Patching.Patcher.IsCeleste | CelestePatcher/Patcher.cs:18-21 | true exactly when some type of the module is named `Celeste.Celeste` |
| Patching.Patcher.NeedsPatching | CelestePatcher/Patcher.cs:23-27 | true exactly when `IsCeleste` holds and some assembly reference is named `Steamworks.NET`, so it implies `IsCeleste` |
| Metadata.FirstIndex | CelestePatcher/Patcher.cs:20 | the scan behind `First`/`FirstOrDefault`: a found position holds a match and no earlier element matches; nothing is found exactly when no element matches |
| Metadata.FindType | CelestePatcher/Patcher.cs:32 | the first type with the given full name, or none exactly when no type has it |
| Metadata.FindMethod | CelestePatcher/Patcher.cs:36 | the first method with the given name, or none exactly when no method has it |
| Metadata.FindField | CelestePatcher/Patcher.cs:66 | the first field with the given name, or none exactly when no field has it |
| Metadata.FindReference | CelestePatcher/Patcher.cs:181-182 | the first assembly reference with the given name, or none exactly when there is none |
| Metadata.Without | CelestePatcher/Patcher.cs:43 | `RemoveAt(i)` on a list: one element shorter, elements before `i` in place, the later ones shifted down by one |
| Matcher.Matches | CelestePatcher/Patcher.cs:40-41 | the opcode test plus the operand test of the anchor predicates here and at lines 53-56 and 69-70 (an integer constant, a field, a call target by declaring type and name): an instruction matches exactly when it is the one instruction the pattern describes |
| Matcher.FindAnchor | CelestePatcher/Patcher.cs:40-41 | the first instruction with the pattern's opcode whose operand passes the test; none exactly when no instruction matches |
| Editor.RemovedAt | CelestePatcher/Patcher.cs:43 | `count` removals at `index` complete exactly when `index + count` is within the body; then the body is the original without that window, otherwise the body is cut at `index` |
| Editor.RemovedWindowRestores | CelestePatcher/Patcher.cs:72 | a completed window removal loses exactly the window: putting it back gives the original body |
| Editor.StubBody | CelestePatcher/Patcher.cs:93 | every stub body ends with `ret` |
| Pruner.WithoutReference | CelestePatcher/Patcher.cs:181-184 | the reference list is unchanged exactly when no reference has the name |
| Pruner.FindReferenceCount | CelestePatcher/Patcher.cs:181-183 | a reference is found exactly when at least one carries the name |
| Pruner.WithoutReferenceEffect | CelestePatcher/Patcher.cs:181-184 | removal takes away exactly one reference with the name when there is one and none otherwise; the other references keep their order |
| Pruner.WithoutReferenceFirst | CelestePatcher/Patcher.cs:181-183 | the reference removed is the first with the name; every other reference, named alike or not, keeps its order |
| Pruner.WithoutReferenceIdempotent | CelestePatcher/Patcher.cs:183-184 | with at most one such reference, a second removal finds nothing and changes nothing |
| Plan.WindowRemoved | CelestePatcher/Patcher.cs:40-43 | no anchor: fails with `AnchorNotFound`, type unchanged; anchor `a` with `a + count` in range: applied, body is `body[..a] + body[a+count..]`; otherwise fails with `OutOfRange`, body is `body[..a]`; other methods and fields unchanged |
| Plan.SteamIdLoad | CelestePatcher/Patcher.cs:68-70 | the `Main` anchor: an instruction matches exactly when it is an `ldsfld` whose field operand has the Celeste type as declaring type and the field's name and field type |
| Plan.CctorPatched | CelestePatcher/Patcher.cs:34-44 | only the method named `.cctor` can change; fields, type name and method names are kept; no `.cctor`: fails with `MethodNotFound`, type unchanged; no `ldc.i4 504230`: fails with `AnchorNotFound`, type unchanged; anchor `a` with three instructions in range: applied, body `old[..a] + old[a+3..]`; otherwise fails with `OutOfRange`, body `old[..a]` |
| Plan.UpdatePatched | CelestePatcher/Patcher.cs:46-58 | only `Update` can change; fields and method names are kept; no `Update`: fails with `MethodNotFound`, type unchanged; no `RunCallbacks` call: fails with `AnchorNotFound`, type unchanged; otherwise applied, and `Update` loses exactly the first such call |
| Plan.MainPatched | CelestePatcher/Patcher.cs:60-75 | only `Main` can change; a failure leaves the fields alone, and otherwise the fields lose exactly the first `SteamID`; no `Main`: fails with `MethodNotFound`, type unchanged; `SteamID` missing: fails with `FieldNotFound` before any instruction is touched; no load of the field: fails with `AnchorNotFound`, type unchanged; load at `d` with fifteen instructions in range: applied, body `old[..d] + old[d+15..]`, field removed; otherwise fails with `OutOfRange`, body `old[..d]` |
| Plan.CelestePatched | CelestePatcher/Patcher.cs:29-76 | only `.cctor`, `Update` and `Main` can change; type and method names are kept; a failure leaves the fields alone, and otherwise they lose at most the first `SteamID` |
| Plan.Stubbed | CelestePatcher/Patcher.cs:84-94 | applied exactly when the named method exists; only that method changes |
| Plan.AllStubbed | CelestePatcher/Patcher.cs:78-145 | only methods named by the steps change; fields and names kept |
| Plan.ClassPatched | CelestePatcher/Patcher.cs:147-176 | only the class's target methods change; the fields are kept on failure and for the stub classes, and otherwise lose at most the first `SteamID` |
| Plan.ModulePatched | CelestePatcher/Patcher.cs:32 | a missing class fails with `TypeNotFound` and leaves the module as it was; types of other names, method names and references are kept; in the class only the target methods change; a failure names the class |
| Plan.ModulePatchedFirstOnly | CelestePatcher/Patcher.cs:150 | every type other than the first with the class's name, including later types of the same name, is left as it was |
| Plan.ModulePatchedFields | CelestePatcher/Patcher.cs:74 | every type's fields are kept, or lose exactly their first `SteamID` |
| Plan.ReferenceRemoved | CelestePatcher/Patcher.cs:181-184 | the types are kept; the count of `Steamworks.NET` references drops by one when there is one and stays zero otherwise; the other references keep their order |
| Plan.Patched | CelestePatcher/Patcher.cs:178-193 | the reference list loses the first `Steamworks.NET` entry; type names are kept; a failure names one of the three classes |
| PlanProperties.CelestePatchedSucceeds | CelestePatcher/Patcher.cs:29-76 | the Celeste steps all succeed exactly when the `.cctor` window, the `RunCallbacks` call, the `SteamID` field and the `Main` window all exist in the original type |
| PlanProperties.CelestePatchedResult | CelestePatcher/Patcher.cs:36-74 | on success the `.cctor` body is `old[..a] + old[a+3..]`, `Update` loses exactly the call, `Main` is `old[..d] + old[d+15..]`, `SteamID` is gone from the fields, and every other method is unchanged |
| PlanProperties.CelesteFailsAtCctor | CelestePatcher/Patcher.cs:34-44 | when the `.cctor` window is not there, the Celeste class step is exactly the `.cctor` step: it fails, and `Update`, `Main` and the fields are unchanged |
| PlanProperties.CelesteFailsAtUpdate | CelestePatcher/Patcher.cs:46-58 | when the `.cctor` window is there but the `RunCallbacks` call is not, the step reports what `Update` reports on the original type, and the type is the original with only the `.cctor` cut to `old[..a] + old[a+3..]` |
| PlanProperties.CelesteFailsAtMain | CelestePatcher/Patcher.cs:60-75 | when `.cctor` and `Update` fit but `Main` is not ready, the step reports what the `Main` step reports on the original type; the fields are kept, `.cctor` and `Update` hold their edits, and every other method is as the `Main` step leaves it |
| PlanProperties.AllStubbedSucceeds | CelestePatcher/Patcher.cs:84-144 | a run of stub steps succeeds exactly when every method it names exists |
| PlanProperties.AllStubbedFailure | CelestePatcher/Patcher.cs:86 | a run of stub steps fails with `MethodNotFound` for the first missing method, and leaves the type exactly as the steps before it left it |
| PlanProperties.AllStubbedPartial | CelestePatcher/Patcher.cs:84-144 | when distinct stub steps stop at step `k`, each method named before `k` holds its stub, and every method not named before `k` is unchanged |
| PlanProperties.AllStubbedResult | CelestePatcher/Patcher.cs:90-93 | after distinct stub steps, each named method's body is exactly its stub |
| PlanProperties.StatsStubs | CelestePatcher/Patcher.cs:84-144 | the Stats steps are distinct; `Local` and `Global` get `[ldc.i4.0, ret]`, the rest `[ret]` |
| PlanProperties.AchievementsStubs | CelestePatcher/Patcher.cs:152-175 | the Achievements steps are distinct; `Has` gets `[ldc.i4.0, ret]`, `Register` `[ret]` |
| PlanProperties.ClassPatchedSucceeds | CelestePatcher/Patcher.cs:29-176 | each class step succeeds exactly when its type is ready |
| PlanProperties.ModuleStepOutcome | CelestePatcher/Patcher.cs:81 | a class patch on the module succeeds exactly when the class exists and is ready, and it leaves the class as the class step makes it |
| PlanProperties.ModuleStepReports | CelestePatcher/Patcher.cs:81 | a class patch on the module reports `TypeNotFound` when the class is missing, and otherwise what its class step reports on the first type of that name |
| PlanProperties.ModuleStepKeeps | CelestePatcher/Patcher.cs:188-190 | patching one class leaves the other classes, and whether they are ready, as they were |
| PlanProperties.CelesteStage | CelestePatcher/Patcher.cs:188 | the Celeste patch succeeds exactly when Celeste is ready; it leaves Stats and Achievements, and whether they are ready, alone |
| PlanProperties.StatsStage | CelestePatcher/Patcher.cs:188-189 | after the Stats patch, Celeste and Stats are what their class steps make of the original, Achievements is untouched, and the Stats patch succeeded exactly when Stats was ready |
| PlanProperties.AchievementsStage | CelestePatcher/Patcher.cs:188-190 | after the Achievements patch, every class found is what its class step makes of the original, and the Achievements patch succeeded exactly when Achievements was ready |
| PlanProperties.StagesReport | CelestePatcher/Patcher.cs:188-190 | each class patch of a run reports what it would report on the module the run was given |
| PlanProperties.ModuleStepFrame | CelestePatcher/Patcher.cs:29-176 | one class patch changes only targeted methods and at most the first `SteamID` field of the Celeste class, and nothing of other types |
| PlanProperties.PatchedSucceeds | CelestePatcher/Patcher.cs:178-193 | `Patch` succeeds exactly when all three classes are ready |
| PlanProperties.PatchedResult | CelestePatcher/Patcher.cs:186-192 | after a successful `Patch`, each class is exactly what its class step makes of the original |
| PlanProperties.PatchedStubBody | CelestePatcher/Patcher.cs:84-175 | after a successful `Patch`, each method a stub class names holds its stub |
| PlanProperties.PatchedStubs | CelestePatcher/Patcher.cs:84-175 | after a successful `Patch`, `Stats.Local`, `Stats.Global` and `Achievements.Has` are `[ldc.i4.0, ret]`, and `MakeRequest`, `Increment`, `Store` and `Register` are `[ret]` |
| PlanProperties.PatchedFailsAtCeleste | CelestePatcher/Patcher.cs:188 | if Celeste is not ready, the run fails with what the Celeste class step reports on the original module (`TypeNotFound` when the class is missing); Celeste is what that step makes of it; Stats and Achievements are untouched |
| PlanProperties.PatchedFailsAtStats | CelestePatcher/Patcher.cs:189 | if only Stats is not ready, the run fails with what the Stats class step reports on the original module (`TypeNotFound` when the class is missing); Celeste is fully patched; Stats is what its step makes of it; Achievements is untouched |
| PlanProperties.PatchedFailsAtAchievements | CelestePatcher/Patcher.cs:190 | if only Achievements is not ready, the run fails with what the Achievements class step reports on the original module, after Celeste and Stats are fully patched |
| PlanProperties.PatchedFrame | CelestePatcher/Patcher.cs:178-193 | whatever the outcome, the only changes are to targeted methods of the three classes, the Celeste class's fields, which lose at most their first `SteamID`, and the references; other types stay as they were |
| Patching.Patcher.RemoveAt | CelestePatcher/Patcher.cs:43 | `ILProcessor.RemoveAt`: removes the instruction when the index is in range, else changes nothing and reports it |
| Patching.Patcher.Append | CelestePatcher/Patcher.cs:93 | `ILProcessor.Append`: the body gains the instruction at its end |
| Patching.Patcher.RemoveWindow | CelestePatcher/Patcher.cs:72 | the removal loop leaves the body that `Editor.RemovedAt` describes and reports whether every removal happened |
| Patching.Patcher.ClearBody | CelestePatcher/Patcher.cs:90-91 | the loop of `RemoveAt(0)`, with invariant "after `i` rounds the body is `old[i..]`", leaves the body empty |
| Patching.Patcher.CutAtAnchor | CelestePatcher/Patcher.cs:68-72 | anchor lookup plus window removal, as `Plan.WindowRemoved` |
| Patching.Patcher.StubMethod | CelestePatcher/Patcher.cs:110-118 | emptying the method and appending the stub, as `Plan.Stubbed` |
| Patching.Patcher.RemoveField | CelestePatcher/Patcher.cs:74 | `Fields.Remove`: the type loses exactly that field |
| Patching.Patcher.StubStepAt | CelestePatcher/Patcher.cs:96-106 | one stub step of a plan: a failure leaves the class and outcome the whole plan gives; after a success the rest of the plan gives the same result from the new class |
| Patching.Patcher.PatchCctor | CelestePatcher/Patcher.cs:34-44 | leaves the class as `Plan.CctorPatched` |
| Patching.Patcher.PatchUpdate | CelestePatcher/Patcher.cs:46-58 | leaves the class as `Plan.UpdatePatched` |
| Patching.Patcher.PatchMain | CelestePatcher/Patcher.cs:60-75 | leaves the class as `Plan.MainPatched` |
| Patching.Patcher.PatchCelesteClass | CelestePatcher/Patcher.cs:29-76 | leaves the module and outcome as `Plan.ModulePatched` for Celeste |
| Patching.Patcher.PatchStatsClass | CelestePatcher/Patcher.cs:78-145 | leaves the module and outcome as `Plan.ModulePatched` for Stats |
| Patching.Patcher.PatchAchievementsClass | CelestePatcher/Patcher.cs:147-176 | leaves the module and outcome as `Plan.ModulePatched` for Achievements |
| Patching.Patcher.RemoveSteamworksReference | CelestePatcher/Patcher.cs:180-184 | reports whether a `Steamworks.NET` reference was present, and removes the first one |
| Patching.Patcher.Patch | CelestePatcher/Patcher.cs:178-193 | the outcome and final module are exactly `Plan.Patched` of the module it started from |

## Left out

- Reading and writing the assembly file through Mono.Cecil (`ReadAssembly` in the constructor, `Save`). The constructor takes a module that is already loaded, and `Save` is not part of this model.
- Logging through Serilog. It has no effect on the module.
- IL semantics. This covers stack balance, branch targets into removed instructions, exception handlers, and how `ILProcessor` keeps debug information. The patcher neither checks nor repairs any of these.
- Exceptions are modelled as `Failed` outcomes. Their types and messages are not.
- CelestePatcher/Program.cs is not part of this model: command-line parsing, the yes/no prompt, logger setup, exit codes and the default output path.
- The `(int)` cast in the `.cctor` anchor test would throw on an `ldc.i4` whose operand is not an integer. Cecil always gives these instructions an integer operand, so an anchor here matches only `IntOperand` values.
- Matcher.FindAnchor: the `Main` anchor compares the `ldsfld` operand with the `SteamID` field object by identity. The model compares the field reference by declaring type, name and field type, so a distinct field with the same three values would also match.
- Methods without IL. In Cecil an abstract or extern method has no body, and `GetILProcessor` on it throws. The model gives every method an instruction list, so a target method without IL counts as one with an empty body: its cut fails with `AnchorNotFound` and its stub is applied, where the source would stop with an exception.
- Object identity and aliasing of Cecil objects. Types, methods and fields are identified by position in their lists, and overloads by name only.
- Update in place of the `Instruction` list objects. Each edit replaces the module value held in the `Patcher` object's field, which is observably the same for this single-threaded code.
