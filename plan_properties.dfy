/**
 * What the patch plan guarantees: exactly when a run gets through, what
 * each class looks like afterwards, what a run never touches, and where it
 * stops when a lookup fails.
 */
module PlanProperties {
  import opened Metadata
  import opened Matcher
  import opened Editor
  import opened Pruner
  import opened Plan

  /** The method `name` exists, `anchor` occurs in its body and `count`
      instructions fit from the anchor on. */
  predicate WindowFits(t: TypeDefinition, name: string, anchor: Pattern, count: nat) {
    match FindMethod(t.methods, name)
    case None => false
    case Some(mi) =>
      match FindAnchor(t.methods[mi].body, anchor)
      case None => false
      case Some(a) => a + count <= |t.methods[mi].body|
  }

  /** The `SteamID` field is there, and so is the window from its first load in `Main`. */
  predicate MainReady(t: TypeDefinition) {
    match FindField(t.fields, STEAM_ID)
    case None => false
    case Some(fi) => WindowFits(t, MAIN, SteamIdLoad(t, t.fields[fi]), 15)
  }

  /** Everything the three Celeste steps look up is there, measured on the
      type before any of them runs. */
  predicate CelesteReady(t: TypeDefinition) {
    && WindowFits(t, CCTOR, STEAM_APP_ID_LOAD, 3)
    && WindowFits(t, UPDATE, RUN_CALLBACKS_CALL, 1)
    && MainReady(t)
  }

  /** Every method a list of stub steps names is there. */
  predicate StubsReady(t: TypeDefinition, steps: seq<StubStep>) {
    forall k :: 0 <= k < |steps| ==> FindMethod(t.methods, steps[k].methodName).Some?
  }

  predicate TypeReady(c: TargetClass, t: TypeDefinition) {
    match c
    case CelesteClass => CelesteReady(t)
    case StatsClass => StubsReady(t, STATS_STUBS)
    case AchievementsClass => StubsReady(t, ACHIEVEMENTS_STUBS)
  }

  predicate ClassReady(m: ModuleDefinition, c: TargetClass) {
    match FindType(m.types, TargetName(c))
    case None => false
    case Some(ti) => TypeReady(c, m.types[ti])
  }

  /** The module the patcher can take all the way through. */
  predicate Patchable(m: ModuleDefinition) {
    ClassReady(m, CelesteClass) && ClassReady(m, StatsClass) && ClassReady(m, AchievementsClass)
  }

  /** No two steps stub the same method. */
  predicate DistinctSteps(steps: seq<StubStep>) {
    forall i, j :: 0 <= i < j < |steps| ==> steps[i].methodName != steps[j].methodName
  }

  // ---------------------------------------------------------------------
  // The Celeste class
  // ---------------------------------------------------------------------

  /** A window measured on `t` is still there in `t'` when the method keeps
      its place and its body. */
  lemma WindowFitsKept(t: TypeDefinition, t': TypeDefinition, name: string, anchor: Pattern, count: nat)
    requires SameMethodNames(t.methods, t'.methods)
    requires FindMethod(t.methods, name).Some? ==>
               t'.methods[FindMethod(t.methods, name).value] == t.methods[FindMethod(t.methods, name).value]
    ensures WindowFits(t', name, anchor, count) == WindowFits(t, name, anchor, count)
  {
    FindMethodSameNames(t.methods, t'.methods, name);
  }

  lemma CctorStepSucceeds(t: TypeDefinition)
    ensures CctorPatched(t).outcome == Applied <==> WindowFits(t, CCTOR, STEAM_APP_ID_LOAD, 3)
  {
  }

  lemma UpdateStepSucceeds(t: TypeDefinition)
    ensures UpdatePatched(t).outcome == Applied <==> WindowFits(t, UPDATE, RUN_CALLBACKS_CALL, 1)
  {
  }

  lemma MainStepSucceeds(t: TypeDefinition)
    ensures MainPatched(t).outcome == Applied <==> MainReady(t)
  {
  }

  /** A type whose `Main` and fields are as in `t` is as ready for the `Main` step. */
  lemma MainReadyKept(t: TypeDefinition, t': TypeDefinition)
    requires t'.fullName == t.fullName && t'.fields == t.fields
    requires SameMethodNames(t.methods, t'.methods)
    requires FindMethod(t.methods, MAIN).Some? ==>
               t'.methods[FindMethod(t.methods, MAIN).value] == t.methods[FindMethod(t.methods, MAIN).value]
    ensures MainReady(t') == MainReady(t)
  {
    match FindField(t.fields, STEAM_ID)
    case None =>
    case Some(fi) =>
      assert SteamIdLoad(t', t'.fields[fi]) == SteamIdLoad(t, t.fields[fi]);
      WindowFitsKept(t, t', MAIN, SteamIdLoad(t, t.fields[fi]), 15);
  }

  /** The Celeste steps all succeed exactly when the type is ready for them. */
  lemma {:induction false} CelestePatchedSucceeds(t: TypeDefinition)
    ensures CelestePatched(t).outcome == Applied <==> CelesteReady(t)
  {
    CctorStepSucceeds(t);
    var cctor := CctorPatched(t);
    if cctor.outcome == Applied {
      var t1 := cctor.typeDef;
      FindMethodSameNames(t.methods, t1.methods, UPDATE);
      FindMethodSameNames(t.methods, t1.methods, MAIN);
      WindowFitsKept(t, t1, UPDATE, RUN_CALLBACKS_CALL, 1);
      MainReadyKept(t, t1);
      UpdateStepSucceeds(t1);
      var update := UpdatePatched(t1);
      if update.outcome == Applied {
        var t2 := update.typeDef;
        FindMethodSameNames(t1.methods, t2.methods, MAIN);
        MainReadyKept(t1, t2);
        MainStepSucceeds(t2);
      }
    }
  }

  lemma CctorStepResult(t: TypeDefinition, c: nat, a: nat)
    requires FindMethod(t.methods, CCTOR) == Some(c)
    requires FindAnchor(t.methods[c].body, STEAM_APP_ID_LOAD) == Some(a) && a + 3 <= |t.methods[c].body|
    ensures CctorPatched(t)
         == TypeRun(Applied, WithMethodBody(t, c, t.methods[c].body[..a] + t.methods[c].body[a + 3..]))
  {
  }

  lemma UpdateStepResult(t: TypeDefinition, u: nat, b: nat)
    requires FindMethod(t.methods, UPDATE) == Some(u)
    requires FindAnchor(t.methods[u].body, RUN_CALLBACKS_CALL) == Some(b)
    ensures UpdatePatched(t) == TypeRun(Applied, WithMethodBody(t, u, Without(t.methods[u].body, b)))
  {
  }

  lemma MainStepResult(t: TypeDefinition, mm: nat, fi: nat, d: nat)
    requires FindMethod(t.methods, MAIN) == Some(mm) && FindField(t.fields, STEAM_ID) == Some(fi)
    requires FindAnchor(t.methods[mm].body, SteamIdLoad(t, t.fields[fi])) == Some(d)
    requires d + 15 <= |t.methods[mm].body|
    ensures MainPatched(t)
         == TypeRun(Applied, WithMethodBody(t, mm, t.methods[mm].body[..d] + t.methods[mm].body[d + 15..])
                               .(fields := Without(t.fields, fi)))
  {
  }

  /** The `.cctor` and `Update` steps compose: the `Update` edit lands on
      the original method, and `Main` and the fields are left alone. */
  lemma {:induction false} CctorThenUpdate(t: TypeDefinition, c: nat, u: nat, a: nat, b: nat)
    requires FindMethod(t.methods, CCTOR) == Some(c)
    requires FindAnchor(t.methods[c].body, STEAM_APP_ID_LOAD) == Some(a) && a + 3 <= |t.methods[c].body|
    requires FindMethod(t.methods, UPDATE) == Some(u)
    requires FindAnchor(t.methods[u].body, RUN_CALLBACKS_CALL) == Some(b)
    ensures CctorPatched(t).outcome == Applied
    ensures UpdatePatched(CctorPatched(t).typeDef)
         == TypeRun(Applied,
              WithMethodBody(
                WithMethodBody(t, c, t.methods[c].body[..a] + t.methods[c].body[a + 3..]),
                u, Without(t.methods[u].body, b)))
  {
    var t1 := WithMethodBody(t, c, t.methods[c].body[..a] + t.methods[c].body[a + 3..]);
    CctorStepResult(t, c, a);
    assert SameMethodNames(t.methods, t1.methods);
    FindMethodSameNames(t.methods, t1.methods, UPDATE);
    assert t1.methods[u] == t.methods[u];
    UpdateStepResult(t1, u, b);
  }

  /** When the first two Celeste steps succeed, the class step is the `Main` step on what they leave. */
  lemma CelesteUnfold(t: TypeDefinition, t2: TypeDefinition, t3: TypeRun)
    requires CctorPatched(t).outcome == Applied
    requires UpdatePatched(CctorPatched(t).typeDef) == TypeRun(Applied, t2)
    requires MainPatched(t2) == t3
    ensures CelestePatched(t) == t3
  {
  }

  /** The three Celeste steps compose: each edit lands on the original
      method, which the earlier steps left alone. */
  lemma {:induction false} CelesteStepsCompose(t: TypeDefinition, c: nat, u: nat, mm: nat, fi: nat, a: nat, b: nat, d: nat)
    requires FindMethod(t.methods, CCTOR) == Some(c)
    requires FindAnchor(t.methods[c].body, STEAM_APP_ID_LOAD) == Some(a) && a + 3 <= |t.methods[c].body|
    requires FindMethod(t.methods, UPDATE) == Some(u)
    requires FindAnchor(t.methods[u].body, RUN_CALLBACKS_CALL) == Some(b)
    requires FindMethod(t.methods, MAIN) == Some(mm) && FindField(t.fields, STEAM_ID) == Some(fi)
    requires FindAnchor(t.methods[mm].body, SteamIdLoad(t, t.fields[fi])) == Some(d)
    requires d + 15 <= |t.methods[mm].body|
    ensures CelestePatched(t)
         == TypeRun(Applied,
              WithMethodBody(
                WithMethodBody(
                  WithMethodBody(t, c, t.methods[c].body[..a] + t.methods[c].body[a + 3..]),
                  u, Without(t.methods[u].body, b)),
                mm, t.methods[mm].body[..d] + t.methods[mm].body[d + 15..])
              .(fields := Without(t.fields, fi)))
  {
    var t2 := WithMethodBody(
                WithMethodBody(t, c, t.methods[c].body[..a] + t.methods[c].body[a + 3..]),
                u, Without(t.methods[u].body, b));
    var t3 := WithMethodBody(t2, mm, t.methods[mm].body[..d] + t.methods[mm].body[d + 15..])
                .(fields := Without(t.fields, fi));
    assert CctorPatched(t).outcome == Applied && UpdatePatched(CctorPatched(t).typeDef) == TypeRun(Applied, t2) by {
      CctorThenUpdate(t, c, u, a, b);
    }
    assert MainPatched(t2) == TypeRun(Applied, t3) by {
      assert SameMethodNames(t.methods, t2.methods);
      FindMethodSameNames(t.methods, t2.methods, MAIN);
      assert t2.methods[mm] == t.methods[mm];
      assert SteamIdLoad(t2, t2.fields[fi]) == SteamIdLoad(t, t.fields[fi]);
      MainStepResult(t2, mm, fi, d);
    }
    CelesteUnfold(t, t2, TypeRun(Applied, t3));
  }

  /** Replacing the bodies of three distinct methods in turn changes those three and no other. */
  lemma ThreeBodies(t: TypeDefinition, c: nat, u: nat, mm: nat,
                    bc: seq<Instruction>, bu: seq<Instruction>, bm: seq<Instruction>)
    requires c < |t.methods| && u < |t.methods| && mm < |t.methods|
    requires c != u && c != mm && u != mm
    ensures var r := WithMethodBody(WithMethodBody(WithMethodBody(t, c, bc), u, bu), mm, bm);
      && r.fullName == t.fullName
      && r.fields == t.fields
      && |r.methods| == |t.methods|
      && r.methods[c] == t.methods[c].(body := bc)
      && r.methods[u] == t.methods[u].(body := bu)
      && r.methods[mm] == t.methods[mm].(body := bm)
      && forall k :: 0 <= k < |t.methods| && k !in {c, u, mm} ==> r.methods[k] == t.methods[k]
  {
  }

  /**
   * On a ready type, the result in full: the `.cctor` loses the three
   * instructions from the app id load, `Update` loses the `RunCallbacks`
   * call, `Main` loses the fifteen instructions from the first `SteamID`
   * load, the `SteamID` field is gone, and nothing else changes.
   */
  lemma {:induction false} CelestePatchedResult(t: TypeDefinition, c: nat, u: nat, mm: nat, fi: nat, a: nat, b: nat, d: nat)
    requires FindMethod(t.methods, CCTOR) == Some(c)
    requires FindAnchor(t.methods[c].body, STEAM_APP_ID_LOAD) == Some(a) && a + 3 <= |t.methods[c].body|
    requires FindMethod(t.methods, UPDATE) == Some(u)
    requires FindAnchor(t.methods[u].body, RUN_CALLBACKS_CALL) == Some(b)
    requires FindMethod(t.methods, MAIN) == Some(mm) && FindField(t.fields, STEAM_ID) == Some(fi)
    requires FindAnchor(t.methods[mm].body, SteamIdLoad(t, t.fields[fi])) == Some(d)
    requires d + 15 <= |t.methods[mm].body|
    ensures CelestePatched(t).outcome == Applied
    ensures var r := CelestePatched(t).typeDef;
      && r.fullName == t.fullName
      && r.fields == Without(t.fields, fi)
      && |r.methods| == |t.methods|
      && r.methods[c] == t.methods[c].(body := t.methods[c].body[..a] + t.methods[c].body[a + 3..])
      && r.methods[u] == t.methods[u].(body := Without(t.methods[u].body, b))
      && r.methods[mm] == t.methods[mm].(body := t.methods[mm].body[..d] + t.methods[mm].body[d + 15..])
      && forall k :: 0 <= k < |t.methods| && k !in {c, u, mm} ==> r.methods[k] == t.methods[k]
  {
    CelesteStepsCompose(t, c, u, mm, fi, a, b, d);
    ThreeBodies(t, c, u, mm, t.methods[c].body[..a] + t.methods[c].body[a + 3..],
                Without(t.methods[u].body, b), t.methods[mm].body[..d] + t.methods[mm].body[d + 15..]);
  }

  /** When the `.cctor` window is not there the Celeste step stops at once:
      it reports what the `.cctor` step reports, and `Update`, `Main` and
      the fields are as they were. */
  lemma CelesteFailsAtCctor(t: TypeDefinition)
    requires !WindowFits(t, CCTOR, STEAM_APP_ID_LOAD, 3)
    ensures CelestePatched(t) == CctorPatched(t)
    ensures CelestePatched(t).outcome.Failed?
  {
    CctorStepSucceeds(t);
  }

  /** When the `.cctor` window is there but the `RunCallbacks` call is not,
      the Celeste step reports what the `Update` step reports on the
      original type, the `.cctor` keeps its cut, and nothing else changes. */
  lemma {:induction false} CelesteFailsAtUpdate(t: TypeDefinition, c: nat, a: nat)
    requires FindMethod(t.methods, CCTOR) == Some(c)
    requires FindAnchor(t.methods[c].body, STEAM_APP_ID_LOAD) == Some(a) && a + 3 <= |t.methods[c].body|
    requires !WindowFits(t, UPDATE, RUN_CALLBACKS_CALL, 1)
    ensures CelestePatched(t).outcome == UpdatePatched(t).outcome
    ensures CelestePatched(t).outcome.Failed?
    ensures CelestePatched(t).typeDef
         == WithMethodBody(t, c, t.methods[c].body[..a] + t.methods[c].body[a + 3..])
  {
    var t1 := WithMethodBody(t, c, t.methods[c].body[..a] + t.methods[c].body[a + 3..]);
    CctorStepResult(t, c, a);
    assert SameMethodNames(t.methods, t1.methods);
    FindMethodSameNames(t.methods, t1.methods, UPDATE);
    UpdateStepSucceeds(t);
    match FindMethod(t.methods, UPDATE)
    case None =>
    case Some(u) =>
      assert t1.methods[u] == t.methods[u];
  }

  /** The `Main` step on a type that differs from `t` only in methods other
      than `Main` reports what it reports on `t`, and edits `Main` alike. */
  lemma {:induction false} MainStepElsewhere(t: TypeDefinition, t2: TypeDefinition, mm: nat)
    requires t2.fullName == t.fullName && t2.fields == t.fields
    requires SameMethodNames(t.methods, t2.methods)
    requires FindMethod(t.methods, MAIN) == Some(mm) && t2.methods[mm] == t.methods[mm]
    ensures MainPatched(t2).outcome == MainPatched(t).outcome
    ensures MainPatched(t2).typeDef.fields == MainPatched(t).typeDef.fields
    ensures MainPatched(t2).typeDef.methods[mm] == MainPatched(t).typeDef.methods[mm]
    ensures forall k :: 0 <= k < |t2.methods| && k != mm ==> MainPatched(t2).typeDef.methods[k] == t2.methods[k]
    ensures forall k :: 0 <= k < |t.methods| && k != mm ==> MainPatched(t).typeDef.methods[k] == t.methods[k]
  {
    FindMethodSameNames(t.methods, t2.methods, MAIN);
    MainStepOnlyMain(t, mm);
    MainStepOnlyMain(t2, mm);
    match FindField(t.fields, STEAM_ID)
    case None =>
    case Some(fi) =>
      var load := SteamIdLoad(t, t.fields[fi]);
      assert SteamIdLoad(t2, t2.fields[fi]) == load;
      match FindAnchor(t.methods[mm].body, load)
      case None =>
      case Some(d) =>
        if d + 15 <= |t.methods[mm].body| {
          MainStepResult(t, mm, fi, d);
          MainStepResult(t2, mm, fi, d);
        }
  }

  /** The `Main` step edits no method but the first `Main`. */
  lemma MainStepOnlyMain(t: TypeDefinition, mm: nat)
    requires FindMethod(t.methods, MAIN) == Some(mm)
    ensures forall k :: 0 <= k < |t.methods| && k != mm ==> MainPatched(t).typeDef.methods[k] == t.methods[k]
  {
  }

  /** When the `.cctor` and `Update` windows are there but `Main` is not
      ready, the Celeste step reports what the `Main` step reports on the
      original type: the `.cctor` and `Update` keep their edits, `Main` is
      as the `Main` step leaves it, and the fields are as they were. */
  lemma {:induction false} CelesteFailsAtMain(t: TypeDefinition, c: nat, u: nat, a: nat, b: nat)
    requires FindMethod(t.methods, CCTOR) == Some(c)
    requires FindAnchor(t.methods[c].body, STEAM_APP_ID_LOAD) == Some(a) && a + 3 <= |t.methods[c].body|
    requires FindMethod(t.methods, UPDATE) == Some(u)
    requires FindAnchor(t.methods[u].body, RUN_CALLBACKS_CALL) == Some(b)
    requires !MainReady(t)
    ensures CelestePatched(t).outcome == MainPatched(t).outcome
    ensures CelestePatched(t).outcome.Failed?
    ensures var r := CelestePatched(t).typeDef;
      && r.fields == t.fields
      && |r.methods| == |t.methods|
      && r.methods[c] == t.methods[c].(body := t.methods[c].body[..a] + t.methods[c].body[a + 3..])
      && r.methods[u] == t.methods[u].(body := Without(t.methods[u].body, b))
      && forall k :: 0 <= k < |t.methods| && k !in {c, u} ==> r.methods[k] == MainPatched(t).typeDef.methods[k]
  {
    var bc := t.methods[c].body[..a] + t.methods[c].body[a + 3..];
    var bu := Without(t.methods[u].body, b);
    var t2 := WithMethodBody(WithMethodBody(t, c, bc), u, bu);
    assert CelestePatched(t) == MainPatched(t2) by {
      CctorThenUpdate(t, c, u, a, b);
      CelesteUnfold(t, t2, MainPatched(t2));
    }
    TwoBodies(t, c, u, bc, bu);
    MainFailsElsewhere(t, t2, c, u);
  }

  /** A failing `Main` step on a type that differs from `t` only in the
      methods at `c` and `u`, neither of them `Main`, fails as on `t`, keeps
      those two methods, and leaves the rest as it leaves them in `t`. */
  lemma {:induction false} MainFailsElsewhere(t: TypeDefinition, t2: TypeDefinition, c: nat, u: nat)
    requires !MainReady(t)
    requires t2.fullName == t.fullName && t2.fields == t.fields
    requires SameMethodNames(t.methods, t2.methods)
    requires c < |t.methods| && u < |t.methods| && t.methods[c].name != MAIN && t.methods[u].name != MAIN
    requires forall k :: 0 <= k < |t.methods| && k !in {c, u} ==> t2.methods[k] == t.methods[k]
    ensures MainPatched(t2).outcome == MainPatched(t).outcome && MainPatched(t).outcome.Failed?
    ensures MainPatched(t2).typeDef.fields == t.fields
    ensures MainPatched(t2).typeDef.methods[c] == t2.methods[c]
    ensures MainPatched(t2).typeDef.methods[u] == t2.methods[u]
    ensures forall k :: 0 <= k < |t.methods| && k !in {c, u}
              ==> MainPatched(t2).typeDef.methods[k] == MainPatched(t).typeDef.methods[k]
  {
    MainStepSucceeds(t);
    match FindMethod(t.methods, MAIN)
    case None =>
      FindMethodSameNames(t.methods, t2.methods, MAIN);
    case Some(mm) =>
      assert mm != c && mm != u;
      MainStepElsewhere(t, t2, mm);
  }

  /** Replacing the bodies of two distinct methods in turn changes those two and no other. */
  lemma TwoBodies(t: TypeDefinition, c: nat, u: nat, bc: seq<Instruction>, bu: seq<Instruction>)
    requires c < |t.methods| && u < |t.methods| && c != u
    ensures var r := WithMethodBody(WithMethodBody(t, c, bc), u, bu);
      && r.fullName == t.fullName
      && r.fields == t.fields
      && SameMethodNames(t.methods, r.methods)
      && r.methods[c] == t.methods[c].(body := bc)
      && r.methods[u] == t.methods[u].(body := bu)
      && forall k :: 0 <= k < |t.methods| && k !in {c, u} ==> r.methods[k] == t.methods[k]
  {
  }

  // ---------------------------------------------------------------------
  // The stub steps
  // ---------------------------------------------------------------------

  /** Readiness for a list of steps is readiness for its first step and for the rest. */
  lemma StubsReadyCons(t: TypeDefinition, steps: seq<StubStep>)
    requires |steps| > 0
    ensures StubsReady(t, steps)
        <==> FindMethod(t.methods, steps[0].methodName).Some? && StubsReady(t, steps[1..])
  {
    if FindMethod(t.methods, steps[0].methodName).Some? && StubsReady(t, steps[1..]) {
      forall k | 0 <= k < |steps|
        ensures FindMethod(t.methods, steps[k].methodName).Some?
      {
        if k > 0 {
          assert steps[k] == steps[1..][k - 1];
        }
      }
    }
  }

  /** Readiness depends only on the method names. */
  lemma StubsReadyKept(t: TypeDefinition, t': TypeDefinition, steps: seq<StubStep>)
    requires SameMethodNames(t.methods, t'.methods)
    ensures StubsReady(t', steps) == StubsReady(t, steps)
  {
    forall k | 0 <= k < |steps|
      ensures FindMethod(t'.methods, steps[k].methodName) == FindMethod(t.methods, steps[k].methodName)
    {
      FindMethodSameNames(t.methods, t'.methods, steps[k].methodName);
    }
  }

  /** A run of stub steps gets through exactly when every method it names is there. */
  lemma {:induction false} AllStubbedSucceeds(t: TypeDefinition, steps: seq<StubStep>)
    ensures AllStubbed(t, steps).outcome == Applied <==> StubsReady(t, steps)
    decreases |steps|
  {
    if |steps| > 0 {
      StubsReadyCons(t, steps);
      var first := Stubbed(t, steps[0]);
      if first.outcome == Applied {
        AllStubbedSucceeds(first.typeDef, steps[1..]);
        StubsReadyKept(t, first.typeDef, steps[1..]);
      }
    }
  }

  /** A run of stub steps stops at the first step whose method is missing,
      reports that method, and leaves the type as the steps before it left
      it. */
  lemma {:induction false} AllStubbedFailure(t: TypeDefinition, steps: seq<StubStep>, k: nat)
    requires k < |steps| && FindMethod(t.methods, steps[k].methodName).None?
    requires forall j :: 0 <= j < k ==> FindMethod(t.methods, steps[j].methodName).Some?
    ensures AllStubbed(t, steps)
         == TypeRun(Failed(MethodNotFound(t.fullName, steps[k].methodName)), AllStubbed(t, steps[..k]).typeDef)
    decreases k
  {
    if k > 0 {
      var first := Stubbed(t, steps[0]);
      assert first.outcome == Applied;
      FindMethodSameNames(t.methods, first.typeDef.methods, steps[k].methodName);
      forall j | 0 <= j < k - 1
        ensures FindMethod(first.typeDef.methods, steps[1..][j].methodName).Some?
      {
        FindMethodSameNames(t.methods, first.typeDef.methods, steps[j + 1].methodName);
      }
      AllStubbedFailure(first.typeDef, steps[1..], k - 1);
      assert steps[..k][0] == steps[0] && steps[..k][1..] == steps[1..][..k - 1];
    }
  }

  /** When a run of distinct stub steps stops at step `k`, the methods the
      steps before it name hold their stubs, and every other method is as
      it was. */
  lemma {:induction false} AllStubbedPartial(t: TypeDefinition, steps: seq<StubStep>, k: nat, j: nat, mi: nat)
    requires DistinctSteps(steps)
    requires k < |steps| && FindMethod(t.methods, steps[k].methodName).None?
    requires forall i :: 0 <= i < k ==> FindMethod(t.methods, steps[i].methodName).Some?
    requires j < k && FindMethod(t.methods, steps[j].methodName) == Some(mi)
    ensures AllStubbed(t, steps).typeDef.methods[mi].body == StubBody(steps[j].stub)
    ensures forall i :: 0 <= i < |t.methods| && t.methods[i].name !in StepNames(steps[..k])
              ==> AllStubbed(t, steps).typeDef.methods[i] == t.methods[i]
  {
    var done := steps[..k];
    AllStubbedFailure(t, steps, k);
    assert StubsReady(t, done) by {
      forall i | 0 <= i < |done|
        ensures FindMethod(t.methods, done[i].methodName).Some?
      {
        assert done[i] == steps[i];
      }
    }
    assert DistinctSteps(done) by {
      forall i, i' | 0 <= i < i' < |done|
        ensures done[i].methodName != done[i'].methodName
      {
        assert done[i] == steps[i] && done[i'] == steps[i'];
      }
    }
    assert done[j] == steps[j];
    AllStubbedResult(t, done, j, mi);
  }

  /** After a run of distinct stub steps, every method it names holds
      exactly its stub. */
  lemma {:induction false} AllStubbedResult(t: TypeDefinition, steps: seq<StubStep>, k: nat, mi: nat)
    requires StubsReady(t, steps) && DistinctSteps(steps)
    requires k < |steps| && FindMethod(t.methods, steps[k].methodName) == Some(mi)
    ensures AllStubbed(t, steps).typeDef.methods[mi].body == StubBody(steps[k].stub)
    decreases |steps|
  {
    var first := Stubbed(t, steps[0]);
    var rest := steps[1..];
    assert AllStubbed(t, steps) == AllStubbed(first.typeDef, rest) by {
      StubsReadyCons(t, steps);
    }
    if k == 0 {
      forall j | 0 <= j < |rest|
        ensures rest[j].methodName != steps[0].methodName
      {
        assert rest[j] == steps[j + 1];
      }
      NotAStepName(rest, steps[0].methodName);
    } else {
      assert FindMethod(first.typeDef.methods, rest[k - 1].methodName) == Some(mi) by {
        FindMethodSameNames(t.methods, first.typeDef.methods, steps[k].methodName);
      }
      assert StubsReady(first.typeDef, rest) by {
        StubsReadyCons(t, steps);
        StubsReadyKept(t, first.typeDef, rest);
      }
      assert DistinctSteps(rest) by {
        forall i, j | 0 <= i < j < |rest|
          ensures rest[i].methodName != rest[j].methodName
        {
          assert rest[i] == steps[i + 1] && rest[j] == steps[j + 1];
        }
      }
      AllStubbedResult(first.typeDef, rest, k - 1, mi);
    }
  }

  /** The `Stats` stubs: `MakeRequest`, `Increment` and `Store` return at
      once, `Local` and `Global` return zero. */
  lemma StatsStubs()
    ensures DistinctSteps(STATS_STUBS)
    ensures forall k :: 0 <= k < |STATS_STUBS| ==>
              StubBody(STATS_STUBS[k].stub)
                == if STATS_STUBS[k].methodName in {"Local", "Global"} then [LDC_I4_0, RET] else [RET]
  {
  }

  /** The `Achievements` stubs: `Has` returns zero, `Register` returns at once. */
  lemma AchievementsStubs()
    ensures DistinctSteps(ACHIEVEMENTS_STUBS)
    ensures forall k :: 0 <= k < |ACHIEVEMENTS_STUBS| ==>
              StubBody(ACHIEVEMENTS_STUBS[k].stub)
                == if ACHIEVEMENTS_STUBS[k].methodName == "Has" then [LDC_I4_0, RET] else [RET]
  {
  }

  // ---------------------------------------------------------------------
  // The whole run
  // ---------------------------------------------------------------------

  /** Each class step succeeds exactly when its type is ready. */
  lemma ClassPatchedSucceeds(c: TargetClass, t: TypeDefinition)
    ensures ClassPatched(c, t).outcome == Applied <==> TypeReady(c, t)
  {
    match c
    case CelesteClass => CelestePatchedSucceeds(t);
    case StatsClass => AllStubbedSucceeds(t, STATS_STUBS);
    case AchievementsClass => AllStubbedSucceeds(t, ACHIEVEMENTS_STUBS);
  }

  /** In `m'`, the first type named after `c` in `m` is what the class step
      made of it. */
  predicate ClassStepped(m: ModuleDefinition, m': ModuleDefinition, c: TargetClass) {
    match FindType(m.types, TargetName(c))
    case None => false
    case Some(ti) => ti < |m'.types| && m'.types[ti] == ClassPatched(c, m.types[ti]).typeDef
  }

  /** What a class step reports on `m`: the class is not found, or what its
      class step reports on the first type of its name. */
  predicate ClassOutcome(m: ModuleDefinition, c: TargetClass, outcome: Outcome) {
    match FindType(m.types, TargetName(c))
    case None => outcome == Failed(TypeNotFound(TargetName(c)))
    case Some(ti) => outcome == ClassPatched(c, m.types[ti]).outcome
  }

  /** In `m'`, every type named after `c` is as it was in `m`. */
  predicate ClassUntouched(m: ModuleDefinition, m': ModuleDefinition, c: TargetClass) {
    forall k :: 0 <= k < |m.types| && m.types[k].fullName == TargetName(c)
      ==> k < |m'.types| && m'.types[k] == m.types[k]
  }

  /** A module step succeeds exactly when its class is ready, and leaves that
      class as the class step makes it. */
  lemma ModuleStepOutcome(m: ModuleDefinition, c: TargetClass)
    ensures ModulePatched(m, c).outcome == Applied <==> ClassReady(m, c)
    ensures FindType(m.types, TargetName(c)).Some? ==> ClassStepped(m, ModulePatched(m, c).mainModule, c)
  {
    match FindType(m.types, TargetName(c))
    case None =>
    case Some(ti) =>
      ModulePatchedAt(m, c, ti);
      ClassPatchedSucceeds(c, m.types[ti]);
  }

  /** A module step for one class leaves the other classes, and whether they
      are ready, as they were. */
  lemma ModuleStepKeeps(m: ModuleDefinition, c: TargetClass, other: TargetClass)
    requires c != other
    ensures ClassUntouched(m, ModulePatched(m, c).mainModule, other)
    ensures ClassReady(ModulePatched(m, c).mainModule, other) == ClassReady(m, other)
  {
    var m' := ModulePatched(m, c).mainModule;
    assert TargetName(c) != TargetName(other);
    FindTypeSameNames(m.types, m'.types, TargetName(other));
  }

  /** What one class step did survives a later step for another class. */
  lemma ClassSteppedKept(m0: ModuleDefinition, m: ModuleDefinition, c: TargetClass, other: TargetClass)
    requires c != other && SameTypeNames(m0.types, m.types) && ClassStepped(m0, m, c)
    ensures ClassStepped(m0, ModulePatched(m, other).mainModule, c)
  {
    ModuleStepKeeps(m, other, c);
    var ti := FindType(m0.types, TargetName(c)).value;
    assert m.types[ti].fullName == TargetName(c);
  }

  /** A class step taken on a module where the class is still untouched
      counts as taken on the original. */
  lemma ClassSteppedFrom(m0: ModuleDefinition, m: ModuleDefinition, m': ModuleDefinition, c: TargetClass)
    requires SameTypeNames(m0.types, m.types) && ClassUntouched(m0, m, c) && ClassStepped(m, m', c)
    ensures ClassStepped(m0, m', c)
  {
    FindTypeSameNames(m0.types, m.types, TargetName(c));
  }

  /** A class step's outcome on a module where the class is still untouched
      is its outcome on the original. */
  lemma ClassOutcomeFrom(m0: ModuleDefinition, m: ModuleDefinition, c: TargetClass, outcome: Outcome)
    requires SameTypeNames(m0.types, m.types) && ClassUntouched(m0, m, c) && ClassOutcome(m, c, outcome)
    ensures ClassOutcome(m0, c, outcome)
  {
    FindTypeSameNames(m0.types, m.types, TargetName(c));
  }

  lemma ClassUntouchedTrans(m0: ModuleDefinition, m1: ModuleDefinition, m2: ModuleDefinition, c: TargetClass)
    requires SameTypeNames(m0.types, m1.types)
    requires ClassUntouched(m0, m1, c) && ClassUntouched(m1, m2, c)
    ensures ClassUntouched(m0, m2, c)
  {
    forall k | 0 <= k < |m0.types| && m0.types[k].fullName == TargetName(c)
      ensures k < |m2.types| && m2.types[k] == m0.types[k]
    {
      assert m1.types[k].fullName == TargetName(c);
    }
  }

  /** A module step reports what its class step reports, or that the class is missing. */
  lemma ModuleStepReports(m: ModuleDefinition, c: TargetClass)
    ensures ClassOutcome(m, c, ModulePatched(m, c).outcome)
  {
    match FindType(m.types, TargetName(c))
    case None =>
    case Some(ti) =>
      ModulePatchedAt(m, c, ti);
  }

  /** The module and outcome after each class step of a run, whether or
      not an earlier step failed. */
  function AfterCeleste(m: ModuleDefinition): (r: Run) {
    ModulePatched(ReferenceRemoved(m), CelesteClass)
  }

  function AfterStats(m: ModuleDefinition): (r: Run) {
    ModulePatched(AfterCeleste(m).mainModule, StatsClass)
  }

  function AfterAchievements(m: ModuleDefinition): (r: Run) {
    ModulePatched(AfterStats(m).mainModule, AchievementsClass)
  }

  /** A run is its class steps, cut at the first failure. */
  lemma PatchedStages(m: ModuleDefinition)
    ensures Patched(m)
         == if AfterCeleste(m).outcome.Failed? then AfterCeleste(m)
            else if AfterStats(m).outcome.Failed? then AfterStats(m)
            else AfterAchievements(m)
  {
  }

  /** The Celeste step succeeds exactly when Celeste is ready, and leaves the
      other classes, and whether they are ready, alone. */
  lemma CelesteStage(m: ModuleDefinition)
    ensures AfterCeleste(m).outcome == Applied <==> ClassReady(m, CelesteClass)
    ensures SameTypeNames(m.types, AfterCeleste(m).mainModule.types)
    ensures FindType(m.types, CELESTE_TYPE).Some? ==> ClassStepped(m, AfterCeleste(m).mainModule, CelesteClass)
    ensures ClassUntouched(m, AfterCeleste(m).mainModule, StatsClass)
    ensures ClassUntouched(m, AfterCeleste(m).mainModule, AchievementsClass)
    ensures ClassReady(AfterCeleste(m).mainModule, StatsClass) == ClassReady(m, StatsClass)
    ensures ClassReady(AfterCeleste(m).mainModule, AchievementsClass) == ClassReady(m, AchievementsClass)
  {
    var m0 := ReferenceRemoved(m);
    assert m0.types == m.types;
    ModuleStepOutcome(m0, CelesteClass);
    ModuleStepKeeps(m0, CelesteClass, StatsClass);
    ModuleStepKeeps(m0, CelesteClass, AchievementsClass);
  }

  /** The Stats step succeeds exactly when Stats is ready; after it, Celeste
      and Stats are as their class steps leave them, and Achievements is
      untouched. */
  lemma {:induction false} StatsStage(m: ModuleDefinition)
    ensures AfterStats(m).outcome == Applied <==> ClassReady(m, StatsClass)
    ensures SameTypeNames(m.types, AfterStats(m).mainModule.types)
    ensures FindType(m.types, CELESTE_TYPE).Some? ==> ClassStepped(m, AfterStats(m).mainModule, CelesteClass)
    ensures FindType(m.types, STATS_TYPE).Some? ==> ClassStepped(m, AfterStats(m).mainModule, StatsClass)
    ensures ClassUntouched(m, AfterStats(m).mainModule, AchievementsClass)
    ensures ClassReady(AfterStats(m).mainModule, AchievementsClass) == ClassReady(m, AchievementsClass)
  {
    var m1 := AfterCeleste(m).mainModule;
    var m2 := AfterStats(m).mainModule;
    CelesteStage(m);
    ModuleStepOutcome(m1, StatsClass);
    ModuleStepKeeps(m1, StatsClass, AchievementsClass);
    ClassUntouchedTrans(m, m1, m2, AchievementsClass);
    if FindType(m.types, CELESTE_TYPE).Some? {
      ClassSteppedKept(m, m1, CelesteClass, StatsClass);
    }
    if FindType(m.types, STATS_TYPE).Some? {
      FindTypeSameNames(m.types, m1.types, STATS_TYPE);
      ClassSteppedFrom(m, m1, m2, StatsClass);
    }
  }

  /** The Achievements step succeeds exactly when Achievements is ready;
      after it, every class found is as its class step leaves it. */
  lemma {:induction false} AchievementsStage(m: ModuleDefinition)
    ensures AfterAchievements(m).outcome == Applied <==> ClassReady(m, AchievementsClass)
    ensures FindType(m.types, CELESTE_TYPE).Some? ==> ClassStepped(m, AfterAchievements(m).mainModule, CelesteClass)
    ensures FindType(m.types, STATS_TYPE).Some? ==> ClassStepped(m, AfterAchievements(m).mainModule, StatsClass)
    ensures (FindType(m.types, ACHIEVEMENTS_TYPE).Some?
             ==> ClassStepped(m, AfterAchievements(m).mainModule, AchievementsClass))
  {
    var m2 := AfterStats(m).mainModule;
    var m3 := AfterAchievements(m).mainModule;
    StatsStage(m);
    ModuleStepOutcome(m2, AchievementsClass);
    if FindType(m.types, CELESTE_TYPE).Some? {
      ClassSteppedKept(m, m2, CelesteClass, AchievementsClass);
    }
    if FindType(m.types, STATS_TYPE).Some? {
      ClassSteppedKept(m, m2, StatsClass, AchievementsClass);
    }
    if FindType(m.types, ACHIEVEMENTS_TYPE).Some? {
      FindTypeSameNames(m.types, m2.types, ACHIEVEMENTS_TYPE);
      ClassSteppedFrom(m, m2, m3, AchievementsClass);
    }
  }

  /** Each class step of a run reports what it would report on the module
      the run was given, since no earlier step touches its class. */
  lemma {:induction false} StagesReport(m: ModuleDefinition)
    ensures ClassOutcome(m, CelesteClass, AfterCeleste(m).outcome)
    ensures ClassOutcome(m, StatsClass, AfterStats(m).outcome)
    ensures ClassOutcome(m, AchievementsClass, AfterAchievements(m).outcome)
  {
    var m0 := ReferenceRemoved(m);
    assert m0.types == m.types;
    ModuleStepReports(m0, CelesteClass);
    var m1 := AfterCeleste(m).mainModule;
    var m2 := AfterStats(m).mainModule;
    assert ClassOutcome(m, StatsClass, AfterStats(m).outcome) by {
      CelesteStage(m);
      ModuleStepReports(m1, StatsClass);
      ClassOutcomeFrom(m, m1, StatsClass, AfterStats(m).outcome);
    }
    assert ClassOutcome(m, AchievementsClass, AfterAchievements(m).outcome) by {
      StatsStage(m);
      ModuleStepReports(m2, AchievementsClass);
      ClassOutcomeFrom(m, m2, AchievementsClass, AfterAchievements(m).outcome);
    }
  }

  /** `Patch` gets through exactly when every class is ready. */
  lemma {:induction false} PatchedSucceeds(m: ModuleDefinition)
    ensures Patched(m).outcome == Applied <==> Patchable(m)
  {
    PatchedStages(m);
    CelesteStage(m);
    StatsStage(m);
    AchievementsStage(m);
  }

  /** On a patchable module, `Patch` leaves each class as its class step
      makes it. */
  lemma {:induction false} PatchedResult(m: ModuleDefinition)
    requires Patchable(m)
    ensures ClassStepped(m, Patched(m).mainModule, CelesteClass)
    ensures ClassStepped(m, Patched(m).mainModule, StatsClass)
    ensures ClassStepped(m, Patched(m).mainModule, AchievementsClass)
  {
    PatchedRunsAllStages(m);
    AchievementsStage(m);
  }

  /** On a module whose first two classes are ready, a run is its last stage. */
  lemma {:induction false} PatchedRunsAllStages(m: ModuleDefinition)
    requires ClassReady(m, CelesteClass) && ClassReady(m, StatsClass)
    ensures Patched(m) == AfterAchievements(m)
  {
    PatchedStages(m);
    CelesteStage(m);
    StatsStage(m);
  }

  /** The body of the first method `name` of the first type `typeName`, when both are there. */
  function MethodBody(m: ModuleDefinition, typeName: string, name: string): (r: Option<seq<Instruction>>) {
    match FindType(m.types, typeName)
    case None => None
    case Some(ti) =>
      match FindMethod(m.types[ti].methods, name)
      case None => None
      case Some(mi) => Some(m.types[ti].methods[mi].body)
  }

  /** After a run that gets through, each method a stub class names holds
      its stub. */
  lemma {:induction false} PatchedStubBody(m: ModuleDefinition, c: TargetClass, steps: seq<StubStep>, k: nat)
    requires Patchable(m) && c != CelesteClass
    requires steps == if c == StatsClass then STATS_STUBS else ACHIEVEMENTS_STUBS
    requires k < |steps|
    ensures MethodBody(Patched(m).mainModule, TargetName(c), steps[k].methodName) == Some(StubBody(steps[k].stub))
  {
    var p := Patched(m).mainModule;
    var ti := FindType(m.types, TargetName(c)).value;
    var t := m.types[ti];
    assert p.types[ti] == AllStubbed(t, steps).typeDef by {
      PatchedResult(m);
    }
    assert FindType(p.types, TargetName(c)) == Some(ti) by {
      PatchedFrame(m);
      FindTypeSameNames(m.types, p.types, TargetName(c));
    }
    var mi := FindMethod(t.methods, steps[k].methodName).value;
    assert FindMethod(p.types[ti].methods, steps[k].methodName) == Some(mi) by {
      FindMethodSameNames(t.methods, p.types[ti].methods, steps[k].methodName);
    }
    StatsStubs();
    AchievementsStubs();
    AllStubbedResult(t, steps, k, mi);
  }

  /** After a run that gets through, `Stats.Local`, `Stats.Global` and
      `Achievements.Has` return zero, and the other stubbed methods return
      at once. */
  lemma PatchedStubs(m: ModuleDefinition)
    requires Patchable(m)
    ensures forall k :: 0 <= k < |STATS_STUBS| ==>
              MethodBody(Patched(m).mainModule, STATS_TYPE, STATS_STUBS[k].methodName)
                == Some(if STATS_STUBS[k].methodName in {"Local", "Global"} then [LDC_I4_0, RET] else [RET])
    ensures forall k :: 0 <= k < |ACHIEVEMENTS_STUBS| ==>
              MethodBody(Patched(m).mainModule, ACHIEVEMENTS_TYPE, ACHIEVEMENTS_STUBS[k].methodName)
                == Some(if ACHIEVEMENTS_STUBS[k].methodName == "Has" then [LDC_I4_0, RET] else [RET])
  {
    StatsStubs();
    AchievementsStubs();
    forall k | 0 <= k < |STATS_STUBS|
      ensures MethodBody(Patched(m).mainModule, STATS_TYPE, STATS_STUBS[k].methodName)
           == Some(StubBody(STATS_STUBS[k].stub))
    {
      PatchedStubBody(m, StatsClass, STATS_STUBS, k);
    }
    forall k | 0 <= k < |ACHIEVEMENTS_STUBS|
      ensures MethodBody(Patched(m).mainModule, ACHIEVEMENTS_TYPE, ACHIEVEMENTS_STUBS[k].methodName)
           == Some(StubBody(ACHIEVEMENTS_STUBS[k].stub))
    {
      PatchedStubBody(m, AchievementsClass, ACHIEVEMENTS_STUBS, k);
    }
  }

  /** When the Celeste class is not ready the run fails there: the Celeste
      class keeps what its steps did before the failure, and the later
      classes are never touched. */
  lemma {:induction false} PatchedFailsAtCeleste(m: ModuleDefinition)
    requires !ClassReady(m, CelesteClass)
    ensures Patched(m).outcome.Failed? && Patched(m).outcome.error.typeName == CELESTE_TYPE
    ensures ClassOutcome(m, CelesteClass, Patched(m).outcome)
    ensures FindType(m.types, CELESTE_TYPE).Some? ==> ClassStepped(m, Patched(m).mainModule, CelesteClass)
    ensures ClassUntouched(m, Patched(m).mainModule, StatsClass)
    ensures ClassUntouched(m, Patched(m).mainModule, AchievementsClass)
  {
    PatchedStages(m);
    CelesteStage(m);
    StagesReport(m);
  }

  /** When only the Stats class is not ready the run fails there: the
      Celeste class is patched, the Stats class keeps the stubs made before
      the failure, and the Achievements class is never touched. */
  lemma {:induction false} PatchedFailsAtStats(m: ModuleDefinition)
    requires ClassReady(m, CelesteClass) && !ClassReady(m, StatsClass)
    ensures Patched(m).outcome.Failed? && Patched(m).outcome.error.typeName == STATS_TYPE
    ensures ClassOutcome(m, StatsClass, Patched(m).outcome)
    ensures ClassStepped(m, Patched(m).mainModule, CelesteClass)
    ensures FindType(m.types, STATS_TYPE).Some? ==> ClassStepped(m, Patched(m).mainModule, StatsClass)
    ensures ClassUntouched(m, Patched(m).mainModule, AchievementsClass)
  {
    assert Patched(m) == AfterStats(m) by {
      PatchedStages(m);
      CelesteStage(m);
      StatsStage(m);
    }
    StatsStage(m);
    StagesReport(m);
  }

  /** When only the Achievements class is not ready the run fails there,
      after the Celeste and Stats classes are patched. */
  lemma {:induction false} PatchedFailsAtAchievements(m: ModuleDefinition)
    requires ClassReady(m, CelesteClass) && ClassReady(m, StatsClass) && !ClassReady(m, AchievementsClass)
    ensures Patched(m).outcome.Failed? && Patched(m).outcome.error.typeName == ACHIEVEMENTS_TYPE
    ensures ClassOutcome(m, AchievementsClass, Patched(m).outcome)
    ensures ClassStepped(m, Patched(m).mainModule, CelesteClass)
    ensures ClassStepped(m, Patched(m).mainModule, StatsClass)
    ensures FindType(m.types, ACHIEVEMENTS_TYPE).Some? ==> ClassStepped(m, Patched(m).mainModule, AchievementsClass)
  {
    PatchedRunsAllStages(m);
    AchievementsStage(m);
    StagesReport(m);
  }

  /** From `m` to `m'` only targeted methods and the Celeste fields changed:
      types of other names are as they were, and so is every method that is
      not a target. */
  predicate OnlyTargetsChanged(m: ModuleDefinition, m': ModuleDefinition) {
    && SameLayout(m, m')
    && (forall k :: 0 <= k < |m.types| && m.types[k].fullName !in {CELESTE_TYPE, STATS_TYPE, ACHIEVEMENTS_TYPE}
          ==> m'.types[k] == m.types[k])
    && (forall k :: 0 <= k < |m.types| && m.types[k].fullName != CELESTE_TYPE
          ==> m'.types[k].fields == m.types[k].fields)
    && (forall k :: 0 <= k < |m.types| ==> SteamIdPruned(m.types[k].fields, m'.types[k].fields))
    && (forall k, j :: 0 <= k < |m.types| && 0 <= j < |m.types[k].methods|
          && !Targeted(m.types[k].fullName, m.types[k].methods[j].name)
          ==> m'.types[k].methods[j] == m.types[k].methods[j])
  }

  lemma ModuleStepFrame(m: ModuleDefinition, c: TargetClass)
    ensures OnlyTargetsChanged(m, ModulePatched(m, c).mainModule)
  {
    var r := ModulePatched(m, c).mainModule;
    ModulePatchedFields(m, c);
    forall k, j | 0 <= k < |m.types| && 0 <= j < |m.types[k].methods|
        && !Targeted(m.types[k].fullName, m.types[k].methods[j].name)
      ensures r.types[k].methods[j] == m.types[k].methods[j]
    {
      if m.types[k].fullName == TargetName(c) {
        assert m.types[k].methods[j].name !in MethodsOf(c);
      }
    }
  }

  lemma OnlyTargetsChangedTrans(m0: ModuleDefinition, m1: ModuleDefinition, m2: ModuleDefinition)
    requires OnlyTargetsChanged(m0, m1) && OnlyTargetsChanged(m1, m2)
    requires forall k :: 0 <= k < |m1.types| ==> m2.types[k].fields == m1.types[k].fields
    ensures OnlyTargetsChanged(m0, m2)
  {
    forall k, j | 0 <= k < |m0.types| && 0 <= j < |m0.types[k].methods|
      ensures m1.types[k].fullName == m0.types[k].fullName && m1.types[k].methods[j].name == m0.types[k].methods[j].name
    {
    }
  }

  /** Whatever the outcome, `Patch` changes nothing but the targeted methods,
      the Celeste fields and the reference list. */
  lemma {:induction false} PatchedFrame(m: ModuleDefinition)
    ensures OnlyTargetsChanged(m, Patched(m).mainModule)
  {
    var m0 := ReferenceRemoved(m);
    assert m0.types == m.types;
    var m1 := ModulePatched(m0, CelesteClass).mainModule;
    var m2 := ModulePatched(m1, StatsClass).mainModule;
    ModuleStepFrame(m0, CelesteClass);
    ModuleStepFrame(m1, StatsClass);
    ModuleStepFrame(m2, AchievementsClass);
    OnlyTargetsChangedTrans(m0, m1, m2);
    OnlyTargetsChangedTrans(m0, m2, ModulePatched(m2, AchievementsClass).mainModule);
  }
}
