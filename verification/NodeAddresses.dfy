/** A pod's addresses over a whole run: what its ensures asked for, and nothing
    else, is added to its interface. */
module NodeAddresses {
  import opened Common
  import opened Ec2Model
  import opened JobProgram
  import opened AgentState
  import opened NodeMachine
  import opened NodeSafety
  import opened NodeQueue
  import opened NodeAgreement

  datatype AddressSets = AddressSets(v4: set<string>, v6: set<string>)
  {
    predicate Within(b: AddressSets) { v4 <= b.v4 && v6 <= b.v6 }
    function Plus(b: AddressSets): AddressSets { AddressSets(v4 + b.v4, v6 + b.v6) }
  }

  const NONE := AddressSets({}, {})

  function Of(n: Eni): AddressSets { AddressSets(n.Ipv4(), n.ipv6) }

  function Requested(job: Job, uid: string): AddressSets {
    if job.EnsureJob? && job.Uid() == uid then AddressSets(Elements(job.sync.ipv4), Elements(job.sync.ipv6)) else NONE
  }

  /** What the handled ensures of the pod asked for, from the n-th job on. */
  function Asked(handled: seq<Handled>, n: nat, uid: string, onlySuccessful: bool): AddressSets {
    if |handled| <= n then NONE
    else
      var last := handled[|handled| - 1];
      Asked(handled[..|handled| - 1], n, uid, onlySuccessful)
        .Plus(if onlySuccessful && !last.Succeeded() then NONE else Requested(last.job, uid))
  }

  function InHand(w: Worker, uid: string): AddressSets {
    if w.Busy? then Requested(w.job, uid) else NONE
  }

  /** Since s0 the interface has kept its seat; it has all addresses it had and
      all that successful ensures asked for, and at most those it had and those
      that were asked for at all. */
  ghost predicate Accounted(p: Setup, s0: Node, s: Node, uid: string, id: EniId) {
    && Safe(p, s) && AgreementInv(p, s) && s0.handled <= s.handled && id in s0.ec2.enis
    && Steady(p.me, s.ec2, id) && Tagged(s.ec2, id, TagOf(uid))
    && Of(s0.ec2.enis[id]).Plus(Asked(s.handled, |s0.handled|, uid, true)).Within(Of(s.ec2.enis[id]))
    && Of(s.ec2.enis[id]).Within(
         Of(s0.ec2.enis[id]).Plus(Asked(s.handled, |s0.handled|, uid, false)).Plus(InHand(s.worker, uid)))
  }

  /** What a call asks EC2 to add to this interface. */
  function AddedBy(c: Call, id: EniId): AddressSets {
    match c
    case AssignIpv4(x, ips) => if x == id then AddressSets(Elements(ips), {}) else NONE
    case AssignIpv6(x, ips) => if x == id then AddressSets({}, Elements(ips)) else NONE
    case _ => NONE
  }

  lemma ExecutesAddsOnly(me: string, e: Ec2, c: Call, r: Response, e': Ec2, id: EniId)
    requires Wf(me, e) && Executes(me, e, c, r, e') && id in e.enis && id in e'.enis
    ensures Of(e'.enis[id]).Within(Of(e.enis[id]).Plus(AddedBy(c, id)))
  {
  }

  /** A job's call asks to add to the pod's interface only what the job asks for. */
  lemma CallAddsOnlyRequested(p: Setup, s: Node, uid: string, id: EniId)
    requires Safe(p, s) && s.worker.Busy? && NextCall(s.worker.job, s.worker.pc).Some? && Tagged(s.ec2, id, TagOf(uid))
    ensures AddedBy(NextCall(s.worker.job, s.worker.pc).value, id).Within(Requested(s.worker.job, uid))
  {
    var pc := s.worker.pc;
    if pc.EAssign4? && pc.view.id == id {
      TagIsInjective(s.worker.job.Uid(), uid);
      MissingElements(Addresses(pc.view.ipv4), s.worker.job.sync.ipv4);
    } else if pc.EAssign6? && pc.view.id == id {
      TagIsInjective(s.worker.job.Uid(), uid);
      MissingElements(Elements(pc.view.ipv6), s.worker.job.sync.ipv6);
    }
  }

  /** A call of a job adds to the pod's interface at most what the job asks for. */
  lemma ExchangeAddsOnlyRequested(p: Setup, s: Node, r: Response, s': Node, uid: string, id: EniId)
    requires Safe(p, s) && Exchanges(p, s, r, s') && !MidRelease(s.worker, uid)
    requires Steady(p.me, s.ec2, id) && Tagged(s.ec2, id, TagOf(uid))
    ensures Steady(p.me, s'.ec2, id) && Tagged(s'.ec2, id, TagOf(uid))
    ensures Of(s.ec2.enis[id]).Within(Of(s'.ec2.enis[id]))
    ensures Of(s'.ec2.enis[id]).Within(Of(s.ec2.enis[id]).Plus(Requested(s.worker.job, uid)))
  {
    ExchangeKeepsSteady(p, s, r, s', uid, id);
    ExecutesAddsOnly(p.me, s.ec2, NextCall(s.worker.job, s.worker.pc).value, r, s'.ec2, id);
    CallAddsOnlyRequested(p, s, uid, id);
  }

  lemma SettleAccounts(p: Setup, s0: Node, s: Node, s': Node, uid: string, id: EniId)
    requires Accounted(p, s0, s, uid, id) && Step(p, s, Settle, s') && !MidRelease(s.worker, uid)
    ensures s0.handled <= s'.handled
    ensures Steady(p.me, s'.ec2, id) && Tagged(s'.ec2, id, TagOf(uid))
    ensures Of(s0.ec2.enis[id]).Plus(Asked(s'.handled, |s0.handled|, uid, true)).Within(Of(s'.ec2.enis[id]))
    ensures Of(s'.ec2.enis[id]).Within(
         Of(s0.ec2.enis[id]).Plus(Asked(s'.handled, |s0.handled|, uid, false)).Plus(InHand(s'.worker, uid)))
  {
    var h := Handled(s.worker.job, s.worker.pc.outcome);
    assert s'.handled[..|s.handled|] == s.handled;
    if h.outcome.Ensured? && h.job.Uid() == uid {
      assert Holder(p.me, s.ec2, TagOf(uid), id);
      assert h.outcome.result.eniId == id && Stays(h.outcome.found);
    }
  }

  lemma StepAccounts(p: Setup, s0: Node, s: Node, a: Action, s': Node, uid: string, id: EniId)
    requires Accounted(p, s0, s, uid, id) && Step(p, s, a, s') && !a.Crash? && !MidRelease(s.worker, uid)
    ensures Accounted(p, s0, s', uid, id)
  {
    StepKeepsSafe(p, s, a, s');
    StepKeepsAgreement(p, s, a, s');
    match a
    case Settle => SettleAccounts(p, s0, s, s', uid, id);
    case Exchange(r) => ExchangeAddsOnlyRequested(p, s, r, s', uid, id);
    case Elsewhere => ElsewhereKeepsSteady(p.me, s.ec2, s'.ec2, id, TagOf(uid));
    case _ =>
  }

  lemma {:induction false} RunAccounts(p: Setup, run: seq<Node>, acts: seq<Action>, uid: string, id: EniId, i: nat)
    requires Run(p, run, acts) && Reachable(p, run[0]) && i < |run|
    requires Steady(p.me, run[0].ec2, id) && Tagged(run[0].ec2, id, TagOf(uid))
    requires forall j :: 0 <= j < |acts| ==> !acts[j].Crash? && !MidRelease(run[j].worker, uid)
    ensures Accounted(p, run[0], run[i], uid, id)
  {
    if i == 0 {
      ReachableIsSafe(p, run[0]);
      ReachableAgrees(p, run[0]);
    } else {
      RunAccounts(p, run, acts, uid, id, i - 1);
      StepAccounts(p, run[0], run[i - 1], acts[i - 1], run[i], uid, id);
    }
  }

  predicate NoEnsureFailed(handled: seq<Handled>, n: nat, uid: string) {
    forall i :: n <= i < |handled| && handled[i].job.EnsureJob? && handled[i].job.Uid() == uid ==>
      handled[i].Succeeded()
  }

  lemma {:induction false} AllSuccessful(handled: seq<Handled>, n: nat, uid: string)
    requires NoEnsureFailed(handled, n, uid)
    ensures Asked(handled, n, uid, true) == Asked(handled, n, uid, false)
  {
    if |handled| > n {
      AllSuccessful(handled[..|handled| - 1], n, uid);
    }
  }

  /** From any moment, be it right after the attach that gave the pod its interface,
      to one between jobs, with no release of the pod at work and no ensure of it
      failing, its interface's addresses become exactly what they were together with
      everything asked for by its ensures that were under way or came after. */
  lemma AddressesAreReconciled(p: Setup, run: seq<Node>, acts: seq<Action>, uid: string, id: EniId)
    requires Run(p, run, acts) && Reachable(p, run[0]) && run[|acts|].worker.Waiting?
    requires Steady(p.me, run[0].ec2, id) && Tagged(run[0].ec2, id, TagOf(uid))
    requires forall j :: 0 <= j < |acts| ==> !acts[j].Crash? && !MidRelease(run[j].worker, uid)
    requires NoEnsureFailed(run[|acts|].handled, |run[0].handled|, uid)
    ensures Steady(p.me, run[|acts|].ec2, id)
    ensures Of(run[|acts|].ec2.enis[id]) ==
      Of(run[0].ec2.enis[id]).Plus(Asked(run[|acts|].handled, |run[0].handled|, uid, false))
  {
    RunAccounts(p, run, acts, uid, id, |acts|);
    AllSuccessful(run[|acts|].handled, |run[0].handled|, uid);
  }

  /** So for an ensure that has just attached a new interface: that interface ends
      with the addresses it was made with and everything asked for from then on. */
  lemma NewInterfaceIsReconciled(p: Setup, run: seq<Node>, acts: seq<Action>, uid: string)
    requires Run(p, run, acts) && Reachable(p, run[0]) && run[|acts|].worker.Waiting?
    requires run[0].worker.Busy? && run[0].worker.job.Uid() == uid && run[0].worker.pc.EModify?
    requires forall j :: 0 <= j < |acts| ==> !acts[j].Crash? && !MidRelease(run[j].worker, uid)
    requires NoEnsureFailed(run[|acts|].handled, |run[0].handled|, uid)
    ensures var id := run[0].worker.pc.view.id;
      && id in run[0].ec2.enis && Steady(p.me, run[|acts|].ec2, id)
      && Of(run[|acts|].ec2.enis[id]) ==
           Of(run[0].ec2.enis[id]).Plus(Asked(run[|acts|].handled, |run[0].handled|, uid, false))
  {
    ReachableIsSafe(p, run[0]);
    AddressesAreReconciled(p, run, acts, uid, run[0].worker.pc.view.id);
  }
}
