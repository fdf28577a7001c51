/** The taint controller against an API server whose node objects other writers
    change too, with optimistic versioning. */
module TaintController {
  import opened Common
  import opened Taints

  // ---- pods --------------------------------------------------------------------

  datatype Condition = Condition(kind: string, status: string)

  datatype AgentPod = AgentPod(nodeName: string, phase: string, conditions: seq<Condition>)

  predicate PodReady(pod: AgentPod) {
    pod.phase == "Running" && Condition("Ready", "True") in pod.conditions
  }

  method IsPodReady(pod: AgentPod) returns (ready: bool)
    ensures ready <==> PodReady(pod)
  {
    if pod.phase != "Running" { return false; }
    for i := 0 to |pod.conditions|
      invariant Condition("Ready", "True") !in pod.conditions[..i]
    {
      if pod.conditions[i].kind == "Ready" && pod.conditions[i].status == "True" {
        assert pod.conditions[i] == Condition("Ready", "True");
        return true;
      }
      assert pod.conditions[..i + 1] == pod.conditions[..i] + [pod.conditions[i]];
    }
    assert pod.conditions[..|pod.conditions|] == pod.conditions;
    return false;
  }

  /** The nodes on which some agent pod is running and ready. */
  function ReadyNodes(pods: seq<AgentPod>): set<string> {
    set pod | pod in pods && pod.nodeName != "" && PodReady(pod) :: pod.nodeName
  }

  method BuildAgentReadyMap(pods: seq<AgentPod>) returns (ready: set<string>)
    ensures ready == ReadyNodes(pods)
  {
    ready := {};
    for i := 0 to |pods|
      invariant ready == ReadyNodes(pods[..i])
    {
      assert pods[..i + 1] == pods[..i] + [pods[i]];
      assert forall pod :: pod in pods[..i + 1] <==> pod in pods[..i] || pod == pods[i];
      if pods[i].nodeName != "" {
        var podReady := IsPodReady(pods[i]);
        if podReady {
          ready := ready + {pods[i].nodeName};
        }
      }
    }
    assert pods[..|pods|] == pods;
  }

  // ---- the API server ------------------------------------------------------------

  /** A stored node object; `rest` is everything but its taints. */
  datatype Stored = Stored(version: nat, taints: seq<Taint>, rest: string)

  type Nodes = map<string, Stored>

  /** What other writers may do: every object they change gets a version above
      all versions so far. */
  predicate Others(nodes: Nodes, revision: nat, nodes': Nodes, revision': nat) {
    && revision <= revision'
    && forall n :: n in nodes' ==>
         && nodes'[n].version <= revision'
         && ((n in nodes && nodes'[n] == nodes[n]) || nodes'[n].version > revision)
  }

  datatype Write = Write(node: string, before: Stored, after: Stored)

  datatype GetResult = Got(node: KubeNode) | GetFailed

  datatype UpdateResult = Updated | Conflict | UpdateFailed

  /** The names asked for meanwhile are exactly these. */
  predicate AskedFor(before: seq<string>, after: seq<string>, names: set<string>) {
    before <= after && Elements(after[|before|..]) == names
  }

  lemma AskedForMore(a: seq<string>, b: seq<string>, c: seq<string>, x: set<string>, y: set<string>)
    requires AskedFor(a, b, x) && AskedFor(b, c, y)
    ensures AskedFor(a, c, x + y)
  {
    assert c[|a|..] == b[|a|..] + c[|b|..];
  }

  /** `quiet`: nobody else writes and no request fails.  `asked` lists the nodes got,
      `shown` is the last listing, and the counters count answers. */
  class ApiServer {
    const quiet: bool
    var nodes: Nodes
    var revision: nat
    ghost var writes: seq<Write>
    ghost var asked: seq<string>
    ghost var shown: map<string, seq<Taint>>
    ghost var conflicts: nat
    ghost var failures: nat

    ghost predicate Valid()
      reads this
    {
      forall n :: n in nodes ==> nodes[n].version <= revision
    }

    method Interfere()
      requires Valid()
      modifies `nodes, `revision
      ensures Valid() && Others(old(nodes), old(revision), nodes, revision)
      ensures quiet ==> nodes == old(nodes)
    {
      if !quiet {
        assert Others(nodes, revision, nodes, revision);
        var nodes': Nodes, revision': nat :| Others(nodes, revision, nodes', revision');
        assert Others(nodes, revision, nodes', revision');
        assert forall n :: n in nodes' ==> nodes'[n].version <= revision';
        nodes, revision := nodes', revision';
      }
    }

    /** The selected nodes with their taints at the moment of listing. */
    method List(selected: set<string>) returns (r: Option<map<string, seq<Taint>>>)
      requires Valid()
      modifies `nodes, `revision, `shown, `failures
      ensures Valid()
      ensures r.Some? ==> r.value == shown && failures == old(failures)
      ensures r.None? ==> failures == old(failures) + 1
      ensures quiet ==>
        nodes == old(nodes) && r.Some? && r.value == map n | n in nodes && n in selected :: nodes[n].taints
    {
      Interfere();
      var fails: bool := *;
      if fails && !quiet {
        failures := failures + 1;
        return None;
      }
      var listing := map n | n in nodes && n in selected :: nodes[n].taints;
      shown := listing;
      return Some(listing);
    }

    method Get(name: string) returns (r: GetResult)
      requires Valid()
      modifies `nodes, `revision, `asked, `failures
      ensures Valid() && revision >= old(revision)
      ensures asked == old(asked) + [name]
      ensures failures == if r.Got? then old(failures) else old(failures) + 1
      ensures r.Got? ==>
        && fresh(r.node) && name in nodes && r.node.name == name
        && nodes[name] == Stored(r.node.version, r.node.taints, r.node.rest)
      ensures quiet ==> nodes == old(nodes) && (r.Got? <==> name in nodes)
    {
      Interfere();
      var fails: bool := *;
      asked := asked + [name];
      if name !in nodes || (fails && !quiet) {
        failures := failures + 1;
        return GetFailed;
      }
      var o := new KubeNode(name, nodes[name].version, nodes[name].rest, nodes[name].taints);
      return Got(o);
    }

    /** Replaces the object only if its version is still the one submitted; a
        replacement may be made and its answer lost. */
    method Update(node: KubeNode) returns (r: UpdateResult)
      requires Valid() && node.version <= revision
      modifies `nodes, `revision, `writes, `conflicts, `failures
      ensures Valid()
      ensures conflicts == if r.Conflict? then old(conflicts) + 1 else old(conflicts)
      ensures failures == if r.UpdateFailed? then old(failures) + 1 else old(failures)
      ensures r.Updated? ==> |writes| == |old(writes)| + 1
      ensures r.Conflict? ==> writes == old(writes)
      ensures old(writes) <= writes && |writes| <= |old(writes)| + 1
      ensures |writes| > |old(writes)| ==>
        var w := writes[|old(writes)|];
        && w.node == node.name && w.before.version == node.version
        && w.after.taints == node.taints && w.after.rest == node.rest && w.after.version > old(revision)
        && node.name in nodes && nodes[node.name] == w.after
        && (node.name in old(nodes) && old(nodes)[node.name].version == node.version ==>
              w.before == old(nodes)[node.name])
      ensures quiet && node.name in old(nodes) && old(nodes)[node.name].version == node.version ==>
        r.Updated? && nodes == old(nodes)[node.name := nodes[node.name]]
    {
      Interfere();
      if node.name in nodes && nodes[node.name].version != node.version {
        conflicts := conflicts + 1;
        return Conflict;
      }
      var fails: bool, lost: bool := *, *;
      if node.name !in nodes || (fails && !quiet) {
        failures := failures + 1;
        return UpdateFailed;
      }
      revision := revision + 1;
      writes := writes + [Write(node.name, nodes[node.name], Stored(revision, node.taints, node.rest))];
      nodes := nodes[node.name := Stored(revision, node.taints, node.rest)];
      if lost && !quiet {
        failures := failures + 1;
        return UpdateFailed;
      }
      return Updated;
    }
  }

  // ---- one node ---------------------------------------------------------------------

  /** A write of the controller: only the taint changes, in the wanted direction,
      relative to the very version it replaces. */
  predicate Proper(w: Write, t: Taint, agentReady: bool) {
    && ChangesOnly(t, w.before.taints, w.after.taints) && w.after.rest == w.before.rest
    && (t in w.after.taints <==> !agentReady)
  }

  predicate ProperFor(w: Write, cfg: Config, ready: set<string>) {
    Proper(w, cfg.taint, w.node in ready)
  }

  const MAX_ATTEMPTS := 5

  /** One attempt: read, edit, write back if the edit changed anything. */
  method Attempt(api: ApiServer, name: string, agentReady: bool, t: Taint) returns (r: UpdateResult)
    requires api.Valid()
    modifies api
    ensures api.Valid()
    ensures r.Conflict? ==> api.writes == old(api.writes)
    ensures api.asked == old(api.asked) + [name] && api.shown == old(api.shown)
    ensures api.conflicts == if r.Conflict? then old(api.conflicts) + 1 else old(api.conflicts)
    ensures api.failures == if r.UpdateFailed? then old(api.failures) + 1 else old(api.failures)
    ensures old(api.writes) <= api.writes && |api.writes| <= |old(api.writes)| + 1
    ensures |api.writes| > |old(api.writes)| ==>
      api.writes[|old(api.writes)|].node == name && Proper(api.writes[|old(api.writes)|], t, agentReady)
    ensures r.Updated? ==> name in api.nodes && (t in api.nodes[name].taints <==> !agentReady)
    ensures api.quiet && name in old(api.nodes) ==>
      && r.Updated? && name in api.nodes && api.nodes == old(api.nodes)[name := api.nodes[name]]
      && ((t in old(api.nodes)[name].taints <==> !agentReady) ==>
            api.writes == old(api.writes) && api.nodes == old(api.nodes))
  {
    var got := api.Get(name);
    if got.GetFailed? { return UpdateFailed; }
    var node := got.node;
    var changed: bool;
    if agentReady {
      changed := node.RemoveTaint(t);
    } else {
      changed := node.EnsureTaint(t);
    }
    if !changed {
      assert api.nodes == old(api.nodes) ==> api.nodes == old(api.nodes)[name := api.nodes[name]];
      return Updated;
    }
    r := api.Update(node);
  }

  /** Retries on conflict, and on nothing else, until the fifth.  At most one write is
      made and it is proper; a success means the taint was present exactly when the
      agent is not ready. */
  method SyncNodeTaint(api: ApiServer, name: string, agentReady: bool, t: Taint) returns (ok: bool)
    requires api.Valid()
    modifies api
    ensures api.Valid()
    ensures old(api.writes) <= api.writes && |api.writes| <= |old(api.writes)| + 1
    ensures |api.writes| > |old(api.writes)| ==>
      api.writes[|old(api.writes)|].node == name && Proper(api.writes[|old(api.writes)|], t, agentReady)
    ensures ok ==> name in api.nodes && (t in api.nodes[name].taints <==> !agentReady)
    ensures ok ==> api.failures == old(api.failures) && api.conflicts <= old(api.conflicts) + 4
    ensures !ok ==>
      || (api.failures == old(api.failures) + 1 && api.conflicts <= old(api.conflicts) + 4)
      || (api.failures == old(api.failures) && api.conflicts == old(api.conflicts) + 5)
    ensures AskedFor(old(api.asked), api.asked, {name}) && api.shown == old(api.shown)
    ensures api.quiet && name in old(api.nodes) ==>
      && ok && api.nodes == old(api.nodes)[name := api.nodes[name]]
      && ((t in old(api.nodes)[name].taints <==> !agentReady) ==>
            api.writes == old(api.writes) && api.nodes == old(api.nodes))
  {
    var r := Attempt(api, name, agentReady, t);
    var attempts := 1;
    while r.Conflict? && attempts < MAX_ATTEMPTS
      invariant api.Valid() && 1 <= attempts <= MAX_ATTEMPTS && AskedFor(old(api.asked), api.asked, {name})
      invariant api.shown == old(api.shown)
      invariant api.conflicts == old(api.conflicts) + if r.Conflict? then attempts else attempts - 1
      invariant api.failures == if r.UpdateFailed? then old(api.failures) + 1 else old(api.failures)
      invariant old(api.writes) <= api.writes && |api.writes| <= |old(api.writes)| + 1
      invariant r.Conflict? ==> api.writes == old(api.writes)
      invariant |api.writes| > |old(api.writes)| ==>
        api.writes[|old(api.writes)|].node == name && Proper(api.writes[|old(api.writes)|], t, agentReady)
      invariant r.Updated? ==> name in api.nodes && (t in api.nodes[name].taints <==> !agentReady)
      invariant api.quiet && name in old(api.nodes) ==>
        && r.Updated? && api.nodes == old(api.nodes)[name := api.nodes[name]]
        && ((t in old(api.nodes)[name].taints <==> !agentReady) ==>
              api.writes == old(api.writes) && api.nodes == old(api.nodes))
    {
      ghost var asked := api.asked;
      r := Attempt(api, name, agentReady, t);
      AskedForMore(old(api.asked), asked, api.asked, {name}, {name});
      attempts := attempts + 1;
    }
    return r.Updated?;
  }

  // ---- all nodes ---------------------------------------------------------------------

  datatype Config = Config(taint: Taint, watchOnlyTainted: bool)

  /** Every node the controller manages shows the taint exactly when no agent is
      ready on it. */
  predicate Converged(cfg: Config, ready: set<string>, names: set<string>, nodes: Nodes) {
    forall n :: n in names && n in nodes && (!cfg.watchOnlyTainted || cfg.taint in nodes[n].taints) ==>
      (cfg.taint in nodes[n].taints <==> n !in ready)
  }

  /** Nodes outside the list, and untainted ones if only tainted ones are
      watched, are as before; no node comes or goes. */
  predicate Unmanaged(cfg: Config, names: set<string>, nodes: Nodes, nodes': Nodes) {
    && nodes'.Keys == nodes.Keys
    && forall n :: n in nodes && (n !in names || (cfg.watchOnlyTainted && cfg.taint !in nodes[n].taints)) ==>
         nodes'[n] == nodes[n]
  }

  /** The nodes of this set have been passed over, and no others. */
  predicate PassedOver(cfg: Config, ready: set<string>, names: set<string>, nodes: Nodes, nodes': Nodes) {
    Converged(cfg, ready, names, nodes') && Unmanaged(cfg, names, nodes, nodes')
  }

  /** What passing over one node on its own does. */
  predicate PassesOver(cfg: Config, ready: set<string>, name: string, nodes: Nodes, nodes': Nodes) {
    && name in nodes && name in nodes' && nodes' == nodes[name := nodes'[name]]
    && Converged(cfg, ready, {name}, nodes')
    && (cfg.watchOnlyTainted && cfg.taint !in nodes[name].taints ==> nodes' == nodes)
  }

  lemma PassOverOneMore(
      cfg: Config, ready: set<string>, names: set<string>, name: string, nodes: Nodes, nodes': Nodes, nodes'': Nodes)
    requires PassedOver(cfg, ready, names, nodes, nodes') && name !in names
    requires PassesOver(cfg, ready, name, nodes', nodes'')
    ensures PassedOver(cfg, ready, names + {name}, nodes, nodes'')
  {
    assert nodes'[name] == nodes[name];
  }

  /** The listed nodes the controller manages. */
  function Managed(cfg: Config, listed: map<string, seq<Taint>>): set<string> {
    set n | n in listed && (!cfg.watchOnlyTainted || cfg.taint in listed[n])
  }

  /** One listed node: skipped if only tainted nodes are watched and it was not
      tainted when listed; a failure is only logged. */
  method SyncListed(api: ApiServer, cfg: Config, ready: set<string>, name: string, taints: seq<Taint>)
    requires api.Valid()
    requires api.quiet ==> name in api.nodes && taints == api.nodes[name].taints
    modifies api
    ensures api.Valid() && old(api.writes) <= api.writes && |api.writes| <= |old(api.writes)| + 1
    ensures |api.writes| > |old(api.writes)| ==> ProperFor(api.writes[|old(api.writes)|], cfg, ready)
    ensures AskedFor(old(api.asked), api.asked, Managed(cfg, map[name := taints])) && api.shown == old(api.shown)
    ensures api.quiet ==>
      && PassesOver(cfg, ready, name, old(api.nodes), api.nodes)
      && (Converged(cfg, ready, {name}, old(api.nodes)) ==>
            api.writes == old(api.writes) && api.nodes == old(api.nodes))
  {
    if !cfg.watchOnlyTainted || cfg.taint in taints {
      var ok := SyncNodeTaint(api, name, name in ready, cfg.taint);
      assert Managed(cfg, map[name := taints]) == {name};
    } else {
      assert Managed(cfg, map[name := taints]) == {};
      assert api.quiet ==> api.nodes == api.nodes[name := api.nodes[name]];
    }
  }

  /** One pass over the listed nodes, given the snapshot `listed` of their taints
      and the nodes with a ready agent. */
  method SyncNodes(api: ApiServer, cfg: Config, ready: set<string>, names: seq<string>, listed: map<string, seq<Taint>>)
    requires api.Valid() && Distinct(names) && Elements(names) == listed.Keys
    requires api.quiet ==> forall n :: n in listed ==> n in api.nodes && listed[n] == api.nodes[n].taints
    modifies api
    ensures api.Valid() && old(api.writes) <= api.writes
    ensures forall i :: |old(api.writes)| <= i < |api.writes| ==> ProperFor(api.writes[i], cfg, ready)
    ensures AskedFor(old(api.asked), api.asked, Managed(cfg, listed)) && api.shown == old(api.shown)
    ensures api.quiet ==>
      && PassedOver(cfg, ready, listed.Keys, old(api.nodes), api.nodes)
      && (Converged(cfg, ready, listed.Keys, old(api.nodes)) ==>
            api.writes == old(api.writes) && api.nodes == old(api.nodes))
  {
    for i := 0 to |names|
      invariant api.Valid() && old(api.writes) <= api.writes
      invariant forall j :: |old(api.writes)| <= j < |api.writes| ==> ProperFor(api.writes[j], cfg, ready)
      invariant AskedFor(old(api.asked), api.asked, Managed(cfg, listed) * Elements(names[..i]))
      invariant api.shown == old(api.shown)
      invariant api.quiet ==>
        && PassedOver(cfg, ready, Elements(names[..i]), old(api.nodes), api.nodes)
        && (Converged(cfg, ready, listed.Keys, old(api.nodes)) ==>
              api.writes == old(api.writes) && api.nodes == old(api.nodes))
    {
      var name := names[i];
      ElementsSnoc(names[..i + 1]);
      assert names[..i + 1][..i] == names[..i];
      assert name in Elements(names) && name !in Elements(names[..i]);
      ghost var before, asked := api.nodes, api.asked;
      SyncListed(api, cfg, ready, name, listed[name]);
      AskedForOneMore(cfg, listed, names, i, old(api.asked), asked, api.asked);
      if api.quiet {
        PassOverOneMore(cfg, ready, Elements(names[..i]), name, old(api.nodes), before, api.nodes);
      }
    }
    assert names[..|names|] == names;
    assert Managed(cfg, listed) * Elements(names) == Managed(cfg, listed);
  }

  lemma AskedForOneMore(cfg: Config, listed: map<string, seq<Taint>>, names: seq<string>, i: nat,
                        a: seq<string>, b: seq<string>, c: seq<string>)
    requires i < |names| && Elements(names) == listed.Keys && names[i] in listed
    requires AskedFor(a, b, Managed(cfg, listed) * Elements(names[..i]))
    requires AskedFor(b, c, Managed(cfg, map[names[i] := listed[names[i]]]))
    ensures AskedFor(a, c, Managed(cfg, listed) * Elements(names[..i + 1]))
  {
    AskedForMore(a, b, c, Managed(cfg, listed) * Elements(names[..i]), Managed(cfg, map[names[i] := listed[names[i]]]));
    ElementsSnoc(names[..i + 1]);
    assert names[..i + 1][..i] == names[..i];
    assert Managed(cfg, listed) * Elements(names[..i]) + Managed(cfg, map[names[i] := listed[names[i]]])
        == Managed(cfg, listed) * Elements(names[..i + 1]);
  }

  predicate Distinct(names: seq<string>) {
    forall i, j :: 0 <= i < j < |names| ==> names[i] != names[j]
  }

  /** The keys of a listing, each once, in any order. */
  method Enumerate(all: set<string>) returns (names: seq<string>)
    ensures Distinct(names) && Elements(names) == all
  {
    names := [];
    var left := all;
    while left != {}
      invariant left <= all && Distinct(names) && Elements(names) == all - left
      decreases left
    {
      var n :| n in left;
      left := left - {n};
      assert forall i :: 0 <= i < |names| ==> names[i] in Elements(names);
      ElementsSnoc(names + [n]);
      assert (names + [n])[..|names|] == names;
      names := names + [n];
    }
  }

  /** A reconcile pass.  It asks for exactly the listed nodes it manages, whatever
      fails on the way, unless there is no listing.  Whoever else writes, every write it
      makes is proper; if nobody does and nothing fails, the selected nodes converge to the agents'
      readiness, and a pass over converged nodes writes nothing. */
  method Reconcile(api: ApiServer, cfg: Config, pods: Option<seq<AgentPod>>, selected: set<string>) returns (ok: bool)
    requires api.Valid()
    modifies api
    ensures api.Valid() && old(api.writes) <= api.writes
    ensures forall i :: |old(api.writes)| <= i < |api.writes| ==>
      pods.Some? && ProperFor(api.writes[i], cfg, ReadyNodes(pods.value))
    ensures pods.None? ==> !ok && api.nodes == old(api.nodes) && api.writes == old(api.writes)
    ensures ok ==> AskedFor(old(api.asked), api.asked, Managed(cfg, api.shown))
    ensures !ok ==> api.asked == old(api.asked) && (pods.None? || api.failures == old(api.failures) + 1)
    ensures api.quiet && pods.Some? ==>
      && ok && PassedOver(cfg, ReadyNodes(pods.value), selected, old(api.nodes), api.nodes)
      && (Converged(cfg, ReadyNodes(pods.value), selected, old(api.nodes)) ==>
            api.writes == old(api.writes) && api.nodes == old(api.nodes))
  {
    if pods.None? { return false; }
    var readyMap := BuildAgentReadyMap(pods.value);
    var listed := api.List(selected);
    if listed.None? { return false; }
    var names := Enumerate(listed.value.Keys);
    SyncNodes(api, cfg, readyMap, names, listed.value);
    return true;
  }
}
