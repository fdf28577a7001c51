/** Adding and removing one taint on a node's taint list. */
module Taints {
  import opened Common

  datatype Effect = NoSchedule | PreferNoSchedule | NoExecute

  datatype Taint = Taint(key: string, value: string, effect: Effect)

  /** The list without any occurrence of t; everything else keeps order and
      multiplicity. */
  function Without(taints: seq<Taint>, t: Taint): seq<Taint> {
    if taints == [] then []
    else
      var rest, last := Without(taints[..|taints| - 1], t), taints[|taints| - 1];
      if last == t then rest else rest + [last]
  }

  /** A change of the list that concerns t only. */
  predicate ChangesOnly(t: Taint, before: seq<Taint>, after: seq<Taint>) {
    Without(before, t) == Without(after, t)
  }

  lemma {:induction false} WithoutCounts(taints: seq<Taint>, t: Taint)
    ensures multiset(Without(taints, t)) == multiset(taints)[t := 0]
    ensures t !in Without(taints, t)
  {
    if taints != [] {
      var init, last := taints[..|taints| - 1], taints[|taints| - 1];
      WithoutCounts(init, t);
      assert taints == init + [last];
      assert t in Without(taints, t) <==> t in multiset(Without(taints, t));
    }
  }

  lemma {:induction false} WithoutAbsent(taints: seq<Taint>, t: Taint)
    requires t !in taints
    ensures Without(taints, t) == taints
  {
    if taints != [] {
      WithoutAbsent(taints[..|taints| - 1], t);
      assert taints == taints[..|taints| - 1] + [taints[|taints| - 1]];
    }
  }

  /** Removing t is a change of t only, appending t is one, and both leave t as
      they should. */
  lemma EditsChangeOnly(taints: seq<Taint>, t: Taint)
    ensures ChangesOnly(t, taints, Without(taints, t)) && t !in Without(taints, t)
    ensures ChangesOnly(t, taints, taints + [t]) && t in taints + [t]
  {
    WithoutCounts(taints, t);
    WithoutAbsent(Without(taints, t), t);
    assert (taints + [t])[..|taints|] == taints;
  }

  /** The node object a caller holds; `taints` is its Spec.Taints. */
  class KubeNode {
    const name: string
    const version: nat
    const rest: string
    var taints: seq<Taint>

    constructor (name: string, version: nat, rest: string, taints: seq<Taint>)
      ensures this.name == name && this.version == version && this.rest == rest && this.taints == taints
    {
      this.name, this.version, this.rest, this.taints := name, version, rest, taints;
    }

    method HasTaint(t: Taint) returns (has: bool)
      ensures has <==> t in taints
    {
      for i := 0 to |taints|
        invariant t !in taints[..i]
      {
        if taints[i] == t { return true; }
        assert taints[..i + 1] == taints[..i] + [taints[i]];
      }
      assert taints[..|taints|] == taints;
      return false;
    }

    method EnsureTaint(t: Taint) returns (changed: bool)
      modifies this
      ensures changed <==> t !in old(taints)
      ensures taints == if changed then old(taints) + [t] else old(taints)
      ensures t in taints && ChangesOnly(t, old(taints), taints)
    {
      EditsChangeOnly(taints, t);
      var has := HasTaint(t);
      if has { return false; }
      taints := taints + [t];
      return true;
    }

    method RemoveTaint(t: Taint) returns (changed: bool)
      modifies this
      ensures changed <==> t in old(taints)
      ensures taints == Without(old(taints), t)
      ensures t !in taints && ChangesOnly(t, old(taints), taints)
    {
      EditsChangeOnly(taints, t);
      var out := [];
      changed := false;
      for i := 0 to |taints|
        invariant out == Without(taints[..i], t)
        invariant changed <==> t in taints[..i]
      {
        assert taints[..i + 1][..i] == taints[..i];
        assert taints[..i + 1] == taints[..i] + [taints[i]];
        if taints[i] == t {
          changed := true;
        } else {
          out := out + [taints[i]];
        }
      }
      assert taints[..|taints|] == taints;
      if changed {
        taints := out;
      } else {
        WithoutAbsent(taints, t);
      }
    }
  }
}
