/**
 * The metadata pruner: removing an assembly reference by name. Removal goes
 * through `Collection.Remove` of the first reference with that name, and an
 * absent reference is not an error.
 */
module Pruner {
  import opened Metadata

  /** The reference list after removing the first reference named `name`, if there is one. */
  function WithoutReference(refs: seq<AssemblyNameReference>, name: string): (r: seq<AssemblyNameReference>)
    ensures r == refs <==> forall j :: 0 <= j < |refs| ==> refs[j].name != name
  {
    match FindReference(refs, name)
    case None => refs
    case Some(i) => Without(refs, i)
  }

  /** How many references carry the name `name`. */
  function CountNamed(refs: seq<AssemblyNameReference>, name: string): (r: nat) {
    if |refs| == 0 then 0
    else (if refs[0].name == name then 1 else 0) + CountNamed(refs[1..], name)
  }

  /** The references not named `name`, in their order. */
  function OthersThan(refs: seq<AssemblyNameReference>, name: string): (r: seq<AssemblyNameReference>) {
    if |refs| == 0 then []
    else (if refs[0].name == name then [] else [refs[0]]) + OthersThan(refs[1..], name)
  }

  /** A reference named `name` is found exactly when there is at least one. */
  lemma {:induction false} FindReferenceCount(refs: seq<AssemblyNameReference>, name: string)
    ensures FindReference(refs, name).Some? <==> CountNamed(refs, name) > 0
  {
    if |refs| > 0 && refs[0].name != name {
      FindReferenceCount(refs[1..], name);
      FindReferencePastHead(refs, name);
    }
  }

  /** Past a first reference with another name, the search continues one position on. */
  lemma FindReferencePastHead(refs: seq<AssemblyNameReference>, name: string)
    requires |refs| > 0 && refs[0].name != name
    ensures FindReference(refs, name)
         == match FindReference(refs[1..], name)
            case None => None
            case Some(i) => Some(i + 1)
  {
    var r, r' := FindReference(refs, name), FindReference(refs[1..], name);
    if r.Some? {
      assert refs[1..][r.value - 1] == refs[r.value];
    }
    if r'.Some? {
      assert refs[r'.value + 1] == refs[1..][r'.value];
    }
  }

  /** Taking out a later element commutes with keeping the head. */
  lemma WithoutPastHead(refs: seq<AssemblyNameReference>, i: nat)
    requires i + 1 < |refs|
    ensures Without(refs, i + 1) == [refs[0]] + Without(refs[1..], i)
  {
    assert refs[..i + 1] == [refs[0]] + refs[1..][..i];
    assert refs[i + 2..] == refs[1..][i + 1..];
  }

  /** Past a first reference with another name, removal works on the rest. */
  lemma WithoutReferencePastHead(refs: seq<AssemblyNameReference>, name: string)
    requires |refs| > 0 && refs[0].name != name
    ensures WithoutReference(refs, name) == [refs[0]] + WithoutReference(refs[1..], name)
  {
    FindReferencePastHead(refs, name);
    match FindReference(refs[1..], name)
    case None =>
      assert refs == [refs[0]] + refs[1..];
    case Some(i) =>
      WithoutPastHead(refs, i);
  }

  /**
   * Removing the reference takes away exactly one reference named `name`
   * when there is one, and none otherwise; the references with other names
   * stay, in their order.
   */
  lemma {:induction false} WithoutReferenceEffect(refs: seq<AssemblyNameReference>, name: string)
    ensures CountNamed(WithoutReference(refs, name), name)
         == if CountNamed(refs, name) == 0 then 0 else CountNamed(refs, name) - 1
    ensures OthersThan(WithoutReference(refs, name), name) == OthersThan(refs, name)
  {
    if |refs| == 0 {
    } else if refs[0].name == name {
      assert FindReference(refs, name) == Some(0);
      assert WithoutReference(refs, name) == refs[1..];
    } else {
      var w := WithoutReference(refs[1..], name);
      WithoutReferenceEffect(refs[1..], name);
      WithoutReferencePastHead(refs, name);
      assert ([refs[0]] + w)[1..] == w;
    }
  }

  /**
   * The reference taken away is the first named `name`: the others, named
   * alike or not, keep their order.
   */
  lemma WithoutReferenceFirst(refs: seq<AssemblyNameReference>, name: string, i: nat)
    requires i < |refs| && refs[i].name == name
    requires forall j :: 0 <= j < i ==> refs[j].name != name
    ensures WithoutReference(refs, name) == refs[..i] + refs[i + 1..]
  {
    assert FindReference(refs, name) == Some(i);
  }

  /**
   * With at most one reference named `name`, one removal leaves none, and a
   * second removal finds nothing and changes nothing.
   */
  lemma WithoutReferenceIdempotent(refs: seq<AssemblyNameReference>, name: string)
    requires CountNamed(refs, name) <= 1
    ensures FindReference(WithoutReference(refs, name), name).None?
    ensures WithoutReference(WithoutReference(refs, name), name) == WithoutReference(refs, name)
  {
    WithoutReferenceEffect(refs, name);
    FindReferenceCount(WithoutReference(refs, name), name);
  }
}
