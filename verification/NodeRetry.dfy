/** Doing it again: a repeated ensure reuses what is attached, a repeated ensure
    or release of something already done changes nothing. */
module NodeRetry {
  import opened Common
  import opened Ec2Model
  import opened JobProgram
  import opened AgentState
  import opened NodeMachine
  import opened NodeSafety
  import opened NodeQueue
  import opened NodeAgreement
  import opened NodeDrain

  /** Where an ensure goes on with the interface `id`: it may still add addresses
      to it, but it creates and attaches nothing. */
  predicate GoesOnWith(pc: Pc, id: EniId) {
    match pc
    case EAssign4(v, _) => v.id == id
    case EAssign6(v, _) => v.id == id
    case Finished(Ensured(res, _)) => res.eniId == id
    case _ => false
  }

  /** An ensure whose lookup is answered while the pod has an attached interface,
      however it came to be attached, goes on with that interface. */
  lemma EnsureReusesHolder(p: Setup, s: Node, r: Response, s': Node, id: EniId)
    requires Reachable(p, s) && s.worker.Busy? && s.worker.job.EnsureJob? && s.worker.pc.EFind?
    requires Holder(p.me, s.ec2, s.worker.job.Tag(), id)
    requires Step(p, s, Exchange(r), s') && r.Listed?
    ensures s'.ec2 == s.ec2 && GoesOnWith(s'.worker.pc, id)
  {
    ReachableIsSafe(p, s);
    LookupFindsHolder(p.me, s.ec2, s.worker.job.Tag(), r.enis);
  }

  /** An ensure that creates finds nothing of the pod attached. */
  lemma CreateOnlyWithoutHolder(p: Setup, s: Node)
    requires Reachable(p, s) && s.worker.Busy? && (s.worker.pc.ECreate? || s.worker.pc.EAttach?)
    ensures NoHolder(p.me, s.ec2, s.worker.job.Tag())
  {
    ReachableIsSafe(p, s);
  }

  /** The request asks for exactly what the entry records. */
  predicate Repeats(req: SyncRequest, st: InterfaceState) {
    && st.podUid == req.podUid && st.podName == req.podName && st.namespace == req.namespace
    && st.interfaceName == req.interfaceName && st.networkProfile == req.networkProfile
    && st.ipv4 == req.ipv4 && st.ipv6 == req.ipv6 && st.status == "attached"
  }

  /** The interface of the entry is attached here, if only for now, and has all
      that the entry says. */
  predicate Serves(me: string, e: Ec2, st: InterfaceState) {
    && Holder(me, e, TagOf(st.podUid), st.eniId) && e.enis[st.eniId].mac == st.mac
    && Elements(st.ipv4) <= e.enis[st.eniId].Ipv4() && Elements(st.ipv6) <= e.enis[st.eniId].ipv6
  }

  /** A repeated ensure ends after its lookup, recording the same again, exactly
      when the interface of the entry is still attached with all it had.  The
      lookup changes nothing on EC2. */
  lemma EnsureEndsAtOnceExactlyWhen(p: Setup, s: Node, r: Response, s1: Node, st: InterfaceState)
    requires Safe(p, s) && s.worker.Busy? && s.worker.job.EnsureJob? && s.worker.pc.EFind?
    requires Repeats(s.worker.job.sync, st) && Step(p, s, Exchange(r), s1) && r.Listed?
    ensures s1.ec2 == s.ec2
    ensures (s1.worker.pc.Finished? && s1.worker.pc.outcome.Ensured?
             && Entry(s.worker.job.sync, s1.worker.pc.outcome.result) == st)
            <==> Serves(p.me, s.ec2, st)
  {
    LookupFindsHolder(p.me, s.ec2, s.worker.job.Tag(), r.enis);
    if r.enis != [] {
      NothingMissing(Addresses(r.enis[0].ipv4), s.worker.job.sync.ipv4);
      NothingMissing(Elements(r.enis[0].ipv6), s.worker.job.sync.ipv6);
    }
  }

  /** An ensure that succeeded, and whose interface EC2 backs, can be repeated at
      any later time, over restarts too: as long as no release of the pod has been
      at work, the lookup is its only call, EC2 stays as it is, and the map holds
      the same entry. */
  lemma EnsureAgainChangesNothing(
      p: Setup, run: seq<Node>, acts: seq<Action>, st: InterfaceState, r: Response, s1: Node, s2: Node)
    requires Run(p, run, acts) && Reachable(p, run[0]) && Backs(p.me, run[0].ec2, st)
    requires forall j :: 0 <= j < |acts| ==> !MidRelease(run[j].worker, st.podUid)
    requires var w := run[|acts|].worker; w.Busy? && w.job.EnsureJob? && w.pc.EFind? && Repeats(w.job.sync, st)
    requires Step(p, run[|acts|], Exchange(r), s1) && r.Listed? && Step(p, s1, Settle, s2)
    ensures s1.worker.pc.outcome.Ensured? && Stays(s1.worker.pc.outcome.found)
    ensures s2.ec2 == run[|acts|].ec2
    ensures s2.state == run[|acts|].state[StateKey(st.podUid, st.interfaceName) := st]
  {
    var last := run[|acts|];
    ReachableIsSafe(p, run[0]);
    RunKeepsBacked(p, run, acts, st, |acts|);
    LookupFindsHolder(p.me, last.ec2, last.worker.job.Tag(), r.enis);
    assert Holder(p.me, last.ec2, last.worker.job.Tag(), st.eniId);
    EnsureEndsAtOnceExactlyWhen(p, last, r, s1, st);
  }

  // ---- releases -----------------------------------------------------------------

  /** The map has no entry of this interface. */
  predicate NoEntry(state: StateMap, uid: string, name: string) {
    forall k :: k in state ==> !(state[k].podUid == uid && state[k].interfaceName == name)
  }

  predicate KeysColonFree(state: StateMap) {
    forall k :: k in state ==> ColonFree(state[k].podUid)
  }

  /** After a release that succeeded the interface has no entry until the pod is
      ensured again. */
  lemma {:induction false} RunKeepsNoEntry(p: Setup, run: seq<Node>, acts: seq<Action>, i: nat)
    requires Run(p, run, acts) && KeysMatch(run[0].state) && i < |run|
    requires run[0].worker.Busy? && run[0].worker.pc == Finished(Released)
    requires forall j :: 0 <= j < i ==> !Ensures(run[j].worker, run[0].worker.job.Uid())
    ensures KeysMatch(run[i].state)
    ensures run[i].worker == run[0].worker ||
            NoEntry(run[i].state, run[0].worker.job.Uid(), run[0].worker.job.InterfaceName())
  {
    if i > 0 {
      RunKeepsNoEntry(p, run, acts, i - 1);
      assert Step(p, run[i - 1], acts[i - 1], run[i - 1 + 1]);
    }
  }

  /** A release that succeeded can be repeated at any later time, over restarts
      too: as long as the pod has not been ensured again, the lookup is its only
      call, EC2 stays as it is, and so does the map. */
  lemma ReleaseAgainChangesNothing(
      p: Setup, run: seq<Node>, acts: seq<Action>, r: Response, s1: Node, s2: Node)
    requires Run(p, run, acts) && Reachable(p, run[0])
    requires run[0].worker.Busy? && run[0].worker.pc == Finished(Released)
    requires forall j :: 0 <= j < |acts| ==> !Ensures(run[j].worker, run[0].worker.job.Uid())
    requires var w := run[|acts|].worker;
      w.Busy? && w.job.ReleaseJob? && w.pc.RFind? && w.job.Uid() == run[0].worker.job.Uid()
    requires Step(p, run[|acts|], Exchange(r), s1) && r.Listed? && Step(p, s1, Settle, s2)
    ensures s1.worker.pc == Finished(Released) && s2.ec2 == run[|acts|].ec2
    ensures s2.state == run[|acts|].state - {KeyOf(run[|acts|].worker.job)}
    ensures run[|acts|].worker.job.InterfaceName() == run[0].worker.job.InterfaceName()
            && ColonFree(run[0].worker.job.Uid()) && KeysColonFree(run[|acts|].state) ==>
      s2.state == run[|acts|].state
  {
    var last, uid := run[|acts|], run[0].worker.job.Uid();
    ReachableIsSafe(p, run[0]);
    ReachableIsConserved(p, run[0]);
    RunKeepsNoHolder(p, run, acts, uid, |acts|);
    RunKeepsNoEntry(p, run, acts, |acts|);
    LookupFindsHolder(p.me, last.ec2, last.worker.job.Tag(), r.enis);
    var k := KeyOf(last.worker.job);
    if k in last.state && ColonFree(last.state[k].podUid) && ColonFree(uid) {
      KeyIsInjective(uid, last.worker.job.InterfaceName(), last.state[k].podUid, last.state[k].interfaceName);
    }
  }

  lemma ReleasedPodHoldsNothing(p: Setup, s: Node)
    requires Reachable(p, s) && s.worker.Busy? && s.worker.pc == Finished(Released)
    ensures NoHolder(p.me, s.ec2, s.worker.job.Tag())
  {
    ReachableIsSafe(p, s);
  }
}
