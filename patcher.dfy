/**
 * The patcher itself: an object owning the loaded main module and editing
 * it in place, step by step, the way `Patcher` in Patcher.cs drives
 * Mono.Cecil's `ILProcessor` and member collections. Every method is
 * proved to leave the module exactly as the matching function of the
 * `Plan` module describes.
 */
module Patching {
  import opened Metadata
  import opened Matcher
  import opened Editor
  import opened Pruner
  import opened Plan

  /** The module with the body of method `mi` of type `ti` replaced. */
  function WithBody(m: ModuleDefinition, ti: nat, mi: nat, body: seq<Instruction>): (r: ModuleDefinition)
    requires ti < |m.types| && mi < |m.types[ti].methods|
  {
    WithType(m, ti, WithMethodBody(m.types[ti], mi, body))
  }

  lemma WithBodyOverwrite(m: ModuleDefinition, ti: nat, mi: nat, body: seq<Instruction>, body': seq<Instruction>)
    requires ti < |m.types| && mi < |m.types[ti].methods|
    ensures WithBody(WithBody(m, ti, mi, body), ti, mi, body') == WithBody(m, ti, mi, body')
  {
    var t := m.types[ti];
    assert t.methods[mi := t.methods[mi].(body := body)][mi := t.methods[mi].(body := body')]
        == t.methods[mi := t.methods[mi].(body := body')];
    WithTypeOverwrite(m, ti, WithMethodBody(t, mi, body), WithMethodBody(t, mi, body'));
  }

  lemma WithBodyUnchanged(m: ModuleDefinition, ti: nat, mi: nat)
    requires ti < |m.types| && mi < |m.types[ti].methods|
    ensures WithBody(m, ti, mi, m.types[ti].methods[mi].body) == m
  {
    var t := m.types[ti];
    assert t.methods[mi := t.methods[mi].(body := t.methods[mi].body)] == t.methods;
    WithTypeUnchanged(m, ti);
  }

  class Patcher {
    var mainModule: ModuleDefinition

    /** A patcher over an already loaded module. */
    constructor (loaded: ModuleDefinition)
      ensures mainModule == loaded
    {
      mainModule := loaded;
    }

    /** The binary is Celeste when some type is named `Celeste.Celeste`. */
    function IsCeleste(): (r: bool)
      reads this
      ensures r <==> exists t :: t in mainModule.types && t.fullName == CELESTE_TYPE
    {
      var found := FindType(mainModule.types, CELESTE_TYPE);
      assert found.Some? ==> mainModule.types[found.value] in mainModule.types;
      found.Some?
    }

    /** Patching is needed when the binary is Celeste and still references `Steamworks.NET`. */
    function NeedsPatching(): (r: bool)
      reads this
      ensures r <==> IsCeleste() && exists a :: a in mainModule.assemblyReferences && a.name == STEAMWORKS_NET
    {
      var found := FindReference(mainModule.assemblyReferences, STEAMWORKS_NET);
      assert found.Some? ==> mainModule.assemblyReferences[found.value] in mainModule.assemblyReferences;
      IsCeleste() && found.Some?
    }

    predicate HasMethod(ti: nat, mi: nat)
      reads this
    {
      ti < |mainModule.types| && mi < |mainModule.types[ti].methods|
    }

    function Body(ti: nat, mi: nat): (r: seq<Instruction>)
      reads this
      requires HasMethod(ti, mi)
    {
      mainModule.types[ti].methods[mi].body
    }

    /** `ILProcessor.RemoveAt`: fails, changing nothing, when there is no instruction at `index`. */
    method RemoveAt(ti: nat, mi: nat, index: nat) returns (removed: bool)
      requires HasMethod(ti, mi)
      modifies this
      ensures removed == (index < |old(Body(ti, mi))|)
      ensures removed ==> mainModule == WithBody(old(mainModule), ti, mi, Without(old(Body(ti, mi)), index))
      ensures !removed ==> mainModule == old(mainModule)
    {
      var body := Body(ti, mi);
      removed := index < |body|;
      if removed {
        mainModule := WithBody(mainModule, ti, mi, body[..index] + body[index + 1..]);
      }
    }

    /** `ILProcessor.Append`. */
    method Append(ti: nat, mi: nat, instruction: Instruction)
      requires HasMethod(ti, mi)
      modifies this
      ensures mainModule == WithBody(old(mainModule), ti, mi, old(Body(ti, mi)) + [instruction])
    {
      mainModule := WithBody(mainModule, ti, mi, Body(ti, mi) + [instruction]);
    }

    /**
     * The window removal loop: `count` single removals, all at `index`.
     * When the body runs out first, the removals already made stay and the
     * step fails.
     */
    method RemoveWindow(ti: nat, mi: nat, index: nat, count: nat) returns (complete: bool)
      requires HasMethod(ti, mi) && index < |Body(ti, mi)|
      modifies this
      ensures complete == RemovedAt(old(Body(ti, mi)), index, count).complete
      ensures mainModule == WithBody(old(mainModule), ti, mi, RemovedAt(old(Body(ti, mi)), index, count).body)
    {
      ghost var m0, b0 := mainModule, Body(ti, mi);
      assert b0[..index] + b0[index..] == b0;
      WithBodyUnchanged(m0, ti, mi);
      complete := true;
      for i := 0 to count
        invariant index + i <= |b0|
        invariant mainModule == WithBody(m0, ti, mi, b0[..index] + b0[index + i..])
      {
        var removed := RemoveAt(ti, mi, index);
        if !removed {
          assert b0[..index] + b0[index + i..] == b0[..index];
          complete := false;
          return;
        }
        assert Without(b0[..index] + b0[index + i..], index) == b0[..index] + b0[index + i + 1..];
        WithBodyOverwrite(m0, ti, mi, b0[..index] + b0[index + i..], b0[..index] + b0[index + i + 1..]);
      }
    }

    /** Remove the first instruction as many times as the body had
        instructions, which leaves it empty. */
    method ClearBody(ti: nat, mi: nat)
      requires HasMethod(ti, mi)
      modifies this
      ensures mainModule == WithBody(old(mainModule), ti, mi, [])
    {
      ghost var m0, b0 := mainModule, Body(ti, mi);
      assert b0[0..] == b0;
      WithBodyUnchanged(m0, ti, mi);
      var count := |Body(ti, mi)|;
      for i := 0 to count
        invariant mainModule == WithBody(m0, ti, mi, b0[i..])
      {
        var removed := RemoveAt(ti, mi, 0);
        assert Without(b0[i..], 0) == b0[i + 1..];
        WithBodyOverwrite(m0, ti, mi, b0[i..], b0[i + 1..]);
      }
    }

    /** Find the anchor in method `mi` and remove `count` instructions from it on. */
    method CutAtAnchor(ti: nat, mi: nat, anchor: Pattern, count: nat) returns (outcome: Outcome)
      requires HasMethod(ti, mi)
      modifies this
      ensures outcome == WindowRemoved(old(mainModule.types[ti]), mi, anchor, count).outcome
      ensures mainModule == WithType(old(mainModule), ti, WindowRemoved(old(mainModule.types[ti]), mi, anchor, count).typeDef)
    {
      var t := mainModule.types[ti];
      var found := FindAnchor(t.methods[mi].body, anchor);
      if found.None? {
        WithTypeUnchanged(mainModule, ti);
        return Failed(AnchorNotFound(t.fullName, t.methods[mi].name));
      }
      var complete := RemoveWindow(ti, mi, found.value, count);
      outcome := if complete then Applied else Failed(OutOfRange(t.fullName, t.methods[mi].name));
    }

    /** Empty the named method and append its stub. */
    method StubMethod(ti: nat, step: StubStep) returns (outcome: Outcome)
      requires ti < |mainModule.types|
      modifies this
      ensures outcome == Stubbed(old(mainModule.types[ti]), step).outcome
      ensures mainModule == WithType(old(mainModule), ti, Stubbed(old(mainModule.types[ti]), step).typeDef)
    {
      var t := mainModule.types[ti];
      var found := FindMethod(t.methods, step.methodName);
      if found.None? {
        WithTypeUnchanged(mainModule, ti);
        return Failed(MethodNotFound(t.fullName, step.methodName));
      }
      var mi := found.value;
      ghost var m0 := mainModule;
      ClearBody(ti, mi);
      outcome := Applied;
      match step.stub {
        case ReturnZero =>
          Append(ti, mi, LDC_I4_0);
          assert [] + [LDC_I4_0] == [LDC_I4_0];
          WithBodyOverwrite(m0, ti, mi, [], [LDC_I4_0]);
          Append(ti, mi, RET);
          assert [LDC_I4_0] + [RET] == [LDC_I4_0, RET];
          WithBodyOverwrite(m0, ti, mi, [LDC_I4_0], [LDC_I4_0, RET]);
        case ReturnVoid =>
          Append(ti, mi, RET);
          assert [] + [RET] == [RET];
          WithBodyOverwrite(m0, ti, mi, [], [RET]);
      }
    }

    /** `Fields.Remove` of the field at `fi`. */
    method RemoveField(ti: nat, fi: nat)
      requires ti < |mainModule.types| && fi < |mainModule.types[ti].fields|
      modifies this
      ensures mainModule == WithType(old(mainModule), ti,
        old(mainModule.types[ti]).(fields := Without(old(mainModule.types[ti].fields), fi)))
    {
      var t := mainModule.types[ti];
      mainModule := WithType(mainModule, ti, t.(fields := t.fields[..fi] + t.fields[fi + 1..]));
    }

    /**
     * One stub step of a class patch, as the first of the plan `steps` whose
     * result is `goal`: a failure ends the plan with `goal`, and after a
     * success the rest of the plan still leads to `goal`.
     */
    method StubStepAt(ti: nat, ghost m0: ModuleDefinition, ghost steps: seq<StubStep>, ghost goal: TypeRun,
                      step: StubStep)
      returns (outcome: Outcome)
      requires ti < |mainModule.types| && |m0.types| == |mainModule.types|
      requires mainModule == WithType(m0, ti, mainModule.types[ti])
      requires |steps| > 0 && steps[0] == step && AllStubbed(mainModule.types[ti], steps) == goal
      modifies this
      ensures |mainModule.types| == |m0.types|
      ensures mainModule == WithType(m0, ti, mainModule.types[ti])
      ensures outcome.Failed? ==> TypeRun(outcome, mainModule.types[ti]) == goal
      ensures outcome.Applied? ==> AllStubbed(mainModule.types[ti], steps[1..]) == goal
    {
      ghost var t := mainModule.types[ti];
      outcome := StubMethod(ti, step);
      WithTypeOverwrite(m0, ti, t, Stubbed(t, step).typeDef);
    }

    /** The `.cctor` block of Patcher.cs:34-44. */
    method PatchCctor(ti: nat) returns (outcome: Outcome)
      requires ti < |mainModule.types|
      modifies this
      ensures outcome == CctorPatched(old(mainModule.types[ti])).outcome
      ensures mainModule == WithType(old(mainModule), ti, CctorPatched(old(mainModule.types[ti])).typeDef)
    {
      var t := mainModule.types[ti];
      var cctor := FindMethod(t.methods, CCTOR);
      if cctor.None? {
        WithTypeUnchanged(mainModule, ti);
        return Failed(MethodNotFound(t.fullName, CCTOR));
      }
      outcome := CutAtAnchor(ti, cctor.value, STEAM_APP_ID_LOAD, 3);
    }

    /** The `Update` block of Patcher.cs:46-58. */
    method PatchUpdate(ti: nat) returns (outcome: Outcome)
      requires ti < |mainModule.types|
      modifies this
      ensures outcome == UpdatePatched(old(mainModule.types[ti])).outcome
      ensures mainModule == WithType(old(mainModule), ti, UpdatePatched(old(mainModule.types[ti])).typeDef)
    {
      var t := mainModule.types[ti];
      var update := FindMethod(t.methods, UPDATE);
      if update.None? {
        WithTypeUnchanged(mainModule, ti);
        return Failed(MethodNotFound(t.fullName, UPDATE));
      }
      var call := FindAnchor(Body(ti, update.value), RUN_CALLBACKS_CALL);
      if call.None? {
        WithTypeUnchanged(mainModule, ti);
        return Failed(AnchorNotFound(t.fullName, UPDATE));
      }
      var removed := RemoveAt(ti, update.value, call.value);
      outcome := Applied;
    }

    /** The `Main` block of Patcher.cs:60-75. */
    method PatchMain(ti: nat) returns (outcome: Outcome)
      requires ti < |mainModule.types|
      modifies this
      ensures outcome == MainPatched(old(mainModule.types[ti])).outcome
      ensures mainModule == WithType(old(mainModule), ti, MainPatched(old(mainModule.types[ti])).typeDef)
    {
      ghost var m0 := mainModule;
      var t := mainModule.types[ti];
      var main := FindMethod(t.methods, MAIN);
      if main.None? {
        WithTypeUnchanged(mainModule, ti);
        return Failed(MethodNotFound(t.fullName, MAIN));
      }
      var field := FindField(t.fields, STEAM_ID);
      if field.None? {
        WithTypeUnchanged(mainModule, ti);
        return Failed(FieldNotFound(t.fullName, STEAM_ID));
      }
      outcome := CutAtAnchor(ti, main.value, SteamIdLoad(t, t.fields[field.value]), 15);
      if outcome.Failed? {
        return;
      }
      ghost var cut := mainModule.types[ti];
      RemoveField(ti, field.value);
      WithTypeOverwrite(m0, ti, cut, cut.(fields := Without(cut.fields, field.value)));
    }

    /** Patcher.cs:29-76. */
    method PatchCelesteClass() returns (outcome: Outcome)
      modifies this
      ensures Run(outcome, mainModule) == ModulePatched(old(mainModule), CelesteClass)
    {
      var found := FindType(mainModule.types, CELESTE_TYPE);
      if found.None? {
        return Failed(TypeNotFound(CELESTE_TYPE));
      }
      var ti := found.value;
      ghost var m0, t0 := mainModule, mainModule.types[ti];

      outcome := PatchCctor(ti);
      if outcome.Failed? {
        return;
      }
      ghost var t1 := mainModule.types[ti];
      outcome := PatchUpdate(ti);
      WithTypeOverwrite(m0, ti, t1, UpdatePatched(t1).typeDef);
      if outcome.Failed? {
        return;
      }
      ghost var t2 := mainModule.types[ti];
      outcome := PatchMain(ti);
      WithTypeOverwrite(m0, ti, t2, MainPatched(t2).typeDef);
    }

    /** Patcher.cs:78-145. */
    method PatchStatsClass() returns (outcome: Outcome)
      modifies this
      ensures Run(outcome, mainModule) == ModulePatched(old(mainModule), StatsClass)
    {
      var found := FindType(mainModule.types, STATS_TYPE);
      if found.None? {
        return Failed(TypeNotFound(STATS_TYPE));
      }
      var ti := found.value;
      ghost var m0 := mainModule;
      // What the whole plan makes of the original type; after each step,
      // the rest of the plan makes the same of the current one.
      ghost var goal := AllStubbed(m0.types[ti], STATS_STUBS);
      ModulePatchedAt(m0, StatsClass, ti);
      WithTypeUnchanged(m0, ti);

      outcome := StubStepAt(ti, m0, STATS_STUBS, goal, StubStep("MakeRequest", ReturnVoid));
      if outcome.Failed? {
        return;
      }
      outcome := StubStepAt(ti, m0, STATS_STUBS[1..], goal, StubStep("Increment", ReturnVoid));
      if outcome.Failed? {
        return;
      }
      outcome := StubStepAt(ti, m0, STATS_STUBS[2..], goal, StubStep("Local", ReturnZero));
      if outcome.Failed? {
        return;
      }
      outcome := StubStepAt(ti, m0, STATS_STUBS[3..], goal, StubStep("Global", ReturnZero));
      if outcome.Failed? {
        return;
      }
      outcome := StubStepAt(ti, m0, STATS_STUBS[4..], goal, StubStep("Store", ReturnVoid));
    }

    /** Patcher.cs:147-176. */
    method PatchAchievementsClass() returns (outcome: Outcome)
      modifies this
      ensures Run(outcome, mainModule) == ModulePatched(old(mainModule), AchievementsClass)
    {
      var found := FindType(mainModule.types, ACHIEVEMENTS_TYPE);
      if found.None? {
        return Failed(TypeNotFound(ACHIEVEMENTS_TYPE));
      }
      var ti := found.value;
      ghost var m0 := mainModule;
      ghost var goal := AllStubbed(m0.types[ti], ACHIEVEMENTS_STUBS);
      ModulePatchedAt(m0, AchievementsClass, ti);
      WithTypeUnchanged(m0, ti);

      outcome := StubStepAt(ti, m0, ACHIEVEMENTS_STUBS, goal, StubStep("Has", ReturnZero));
      if outcome.Failed? {
        return;
      }
      outcome := StubStepAt(ti, m0, ACHIEVEMENTS_STUBS[1..], goal, StubStep("Register", ReturnVoid));
    }

    /** Remove the first `Steamworks.NET` reference; its absence is only worth a warning. */
    method RemoveSteamworksReference() returns (found: bool)
      modifies this
      ensures found <==> exists a :: a in old(mainModule.assemblyReferences) && a.name == STEAMWORKS_NET
      ensures mainModule == ReferenceRemoved(old(mainModule))
    {
      var refs := mainModule.assemblyReferences;
      var at := FindReference(refs, STEAMWORKS_NET);
      found := at.Some?;
      if found {
        assert refs[at.value] in refs;
        mainModule := mainModule.(assemblyReferences := refs[..at.value] + refs[at.value + 1..]);
      }
    }

    /** Patcher.cs:178-193: the reference, then the three classes; the first failure ends the run. */
    method Patch() returns (outcome: Outcome)
      modifies this
      ensures Run(outcome, mainModule) == Patched(old(mainModule))
    {
      var found := RemoveSteamworksReference();
      outcome := PatchCelesteClass();
      if outcome.Failed? {
        return;
      }
      outcome := PatchStatsClass();
      if outcome.Failed? {
        return;
      }
      outcome := PatchAchievementsClass();
    }
  }
}
