/** The agent's map against EC2 over runs in which no release of a pod fails
    halfway: what the entries of the pod say is then what is attached. */
module NodeCalm {
  import opened Common
  import opened Ec2Model
  import opened JobProgram
  import opened AgentState
  import opened NodeMachine
  import opened NodeSafety
  import opened NodeQueue
  import opened NodeAgreement
  import opened NodeDrain

  /** A release of the pod that found an interface and failed. */
  predicate FailsHalfway(h: Handled, uid: string) {
    h.job.ReleaseJob? && h.job.Uid() == uid && h.outcome == JobFailed(true)
  }

  predicate NoneHalfwaySince(history: seq<Handled>, n: nat, uid: string) {
    forall i :: n <= i < |history| ==> !FailsHalfway(history[i], uid)
  }

  /** Whatever of the pod is attached is attached to stay. */
  predicate AllSteady(me: string, e: Ec2, tag: string) {
    forall id :: id in e.enis && Holder(me, e, tag, id) ==> Steady(me, e, id)
  }

  /** An ensure has found nothing on its way out. */
  predicate FindsStaying(pc: Pc) {
    match pc
    case EAttach(_, v) => Stays(v.attachment)
    case EModify(v, _) => Stays(v.attachment)
    case EAssign4(v, _) => Stays(v.attachment)
    case EAssign6(v, _) => Stays(v.attachment)
    case Finished(Ensured(_, found)) => Stays(found)
    case _ => true
  }

  /** The ensure that recorded the entry found nothing on its way out, and no release
      of the pod has failed halfway since. */
  predicate CalmEntry(handled: seq<Handled>, uid: string, k: string) {
    var i := RecordedBy(handled, k);
    i >= 0 && Stays(handled[i].outcome.found) && NoneHalfwaySince(handled, i + 1, uid)
  }

  /** Nothing of the pod is on its way out but by a release under way, no ensure of
      it has found anything on its way out, and no release of it has failed
      halfway since any of its entries was recorded. */
  ghost predicate Calm(me: string, s: Node, uid: string) {
    && (MidRelease(s.worker, uid) || AllSteady(me, s.ec2, TagOf(uid)))
    && (s.worker.Busy? && EnsureFor(s.worker.job, uid) ==> FindsStaying(s.worker.pc))
    && (forall k :: k in Wave(s.state, uid) ==> CalmEntry(s.handled, uid, k))
  }

  /** At this step no release of the pod is interrupted after its lookup, and none
      ends having failed after it. */
  predicate ReleaseGoesOn(s: Node, a: Action, uid: string) {
    && (a.Crash? ==> !MidRelease(s.worker, uid))
    && (a.Settle? && s.worker.Busy? && s.worker.job.ReleaseJob? && s.worker.job.Uid() == uid ==>
          s.worker.pc != Finished(JobFailed(true)))
  }

  lemma ExchangeKeepsAllSteady(p: Setup, s: Node, r: Response, s': Node, uid: string)
    requires Safe(p, s) && Exchanges(p, s, r, s') && !MidRelease(s.worker, uid) && AllSteady(p.me, s.ec2, TagOf(uid))
    ensures AllSteady(p.me, s'.ec2, TagOf(uid))
  {
    forall id | id in s'.ec2.enis && Holder(p.me, s'.ec2, TagOf(uid), id)
      ensures Steady(p.me, s'.ec2, id)
    {
      ExecutesHolders(p.me, s.ec2, NextCall(s.worker.job, s.worker.pc).value, r, s'.ec2, id, TagOf(uid));
      if Holder(p.me, s.ec2, TagOf(uid), id) {
        ExchangeKeepsSteady(p, s, r, s', uid, id);
      }
    }
  }

  lemma ElsewhereKeepsAllSteady(me: string, e: Ec2, e': Ec2, tag: string)
    requires Wf(me, e) && Environment(me, e, e') && AllSteady(me, e, tag)
    ensures AllSteady(me, e', tag)
  {
    forall id | id in e'.enis && Holder(me, e', tag, id)
      ensures Steady(me, e', id)
    {
      EnvironmentHolders(me, e, e', id, tag);
    }
  }

  lemma ExchangeFindsStaying(p: Setup, s: Node, r: Response, s': Node, uid: string)
    requires Safe(p, s) && Calm(p.me, s, uid) && Exchanges(p, s, r, s') && EnsureFor(s.worker.job, uid)
    ensures FindsStaying(s'.worker.pc)
  {
    if s.worker.pc.EFind? && r.Listed? && r.enis != [] {
      LookupFindsHolder(p.me, s.ec2, TagOf(uid), r.enis);
    }
  }

  lemma ExchangeKeepsCalm(p: Setup, s: Node, r: Response, s': Node, uid: string)
    requires Safe(p, s) && Calm(p.me, s, uid) && Exchanges(p, s, r, s')
    ensures Calm(p.me, s', uid)
  {
    if MidRelease(s.worker, uid) {
      MidReleaseStays(p, s, r, s', uid);
    } else {
      ExchangeKeepsAllSteady(p, s, r, s', uid);
    }
    if EnsureFor(s.worker.job, uid) {
      ExchangeFindsStaying(p, s, r, s', uid);
    }
  }

  lemma HandledKeepsCalmEntry(handled: seq<Handled>, h: Handled, uid: string, k: string)
    requires if h.outcome.Ensured? && KeyOf(h.job) == k then Stays(h.outcome.found) else CalmEntry(handled, uid, k)
    requires !FailsHalfway(h, uid)
    ensures CalmEntry(handled + [h], uid, k)
  {
    var next := handled + [h];
    assert next[..|handled|] == handled;
    assert forall i :: 0 <= i < |handled| ==> next[i] == handled[i];
  }

  lemma SettleKeepsCalm(p: Setup, s: Node, s': Node, uid: string)
    requires Safe(p, s) && Calm(p.me, s, uid) && Step(p, s, Settle, s') && ReleaseGoesOn(s, Settle, uid)
    ensures Calm(p.me, s', uid)
  {
    var h := Handled(s.worker.job, s.worker.pc.outcome);
    forall k | k in Wave(s'.state, uid)
      ensures CalmEntry(s'.handled, uid, k)
    {
      if !(h.outcome.Ensured? && KeyOf(h.job) == k) {
        assert k in Wave(s.state, uid);
      }
      HandledKeepsCalmEntry(s.handled, h, uid, k);
    }
  }

  lemma StepKeepsCalm(p: Setup, s: Node, a: Action, s': Node, uid: string)
    requires Safe(p, s) && Calm(p.me, s, uid) && Step(p, s, a, s') && ReleaseGoesOn(s, a, uid)
    ensures Calm(p.me, s', uid)
  {
    match a
    case Exchange(r) => ExchangeKeepsCalm(p, s, r, s', uid);
    case Elsewhere =>
      if AllSteady(p.me, s.ec2, TagOf(uid)) {
        ElsewhereKeepsAllSteady(p.me, s.ec2, s'.ec2, TagOf(uid));
      }
    case Settle => SettleKeepsCalm(p, s, s', uid);
    case Crash =>
    case _ =>
  }

  /** No release of the pod is interrupted after its lookup or fails after it. */
  ghost predicate ReleasesGoOn(run: seq<Node>, acts: seq<Action>, uid: string)
    requires |run| == |acts| + 1
  {
    forall j :: 0 <= j < |acts| ==> ReleaseGoesOn(run[j], acts[j], uid)
  }

  lemma {:induction false} RunStaysCalm(p: Setup, run: seq<Node>, acts: seq<Action>, uid: string, i: nat)
    requires Run(p, run, acts) && Reachable(p, run[0]) && Calm(p.me, run[0], uid) && ReleasesGoOn(run, acts, uid)
    requires i < |run|
    ensures Reachable(p, run[i]) && Calm(p.me, run[i], uid)
  {
    if i > 0 {
      RunStaysCalm(p, run, acts, uid, i - 1);
      ReachableIsSafe(p, run[i - 1]);
      ReachableStep(p, run[i - 1], acts[i - 1], run[i]);
      StepKeepsCalm(p, run[i - 1], acts[i - 1], run[i], uid);
    }
  }

  /** In a calm state with no release of the pod under way, EC2 backs an entry of the
      pod exactly when no release of the pod has succeeded since it was recorded,
      and every one if the pod uses one interface name. */
  lemma CalmEntriesAreBacked(p: Setup, s: Node, uid: string, k: string)
    requires Reachable(p, s) && Calm(p.me, s, uid) && !MidRelease(s.worker, uid) && k in Wave(s.state, uid)
    ensures RecordedBy(s.handled, k) >= 0
    ensures Backs(p.me, s.ec2, s.state[k]) <==> !PodReleasedSince(s.handled, RecordedBy(s.handled, k) + 1, uid)
    ensures OneName(s.accepted, uid) ==> Backs(p.me, s.ec2, s.state[k])
  {
    var i := RecordedBy(s.handled, k);
    assert CalmEntry(s.handled, uid, k);
    EntriesAreBacked(p, s, k);
    if PodTouchedSince(s.handled, i + 1, uid) {
      var j :| i + 1 <= j < |s.handled| && s.handled[j].Touches(uid);
      assert s.handled[j].Releases(uid);
    }
    if OneName(s.accepted, uid) {
      OneNameIsNotReleased(p, s, k);
    }
  }

  /** Over every run from a calm state in which no release of the pod is interrupted
      or fails after its lookup. */
  lemma EntriesStayBacked(p: Setup, run: seq<Node>, acts: seq<Action>, uid: string, k: string)
    requires Run(p, run, acts) && Reachable(p, run[0]) && Calm(p.me, run[0], uid) && ReleasesGoOn(run, acts, uid)
    requires !MidRelease(run[|acts|].worker, uid) && k in Wave(run[|acts|].state, uid)
    ensures var s := run[|acts|];
      && RecordedBy(s.handled, k) >= 0
      && (Backs(p.me, s.ec2, s.state[k]) <==> !PodReleasedSince(s.handled, RecordedBy(s.handled, k) + 1, uid))
      && (OneName(s.accepted, uid) ==> Backs(p.me, s.ec2, s.state[k]))
  {
    RunStaysCalm(p, run, acts, uid, |acts|);
    CalmEntriesAreBacked(p, run[|acts|], uid, k);
  }

  /** The first start is calm about every pod. */
  lemma InitialIsCalm(p: Setup, s: Node, uid: string)
    requires Initial(p, s)
    ensures Reachable(p, s) && Calm(p.me, s, uid)
  {
    InitialIsReachable(p, s);
  }

  /** From the first start of the agent on: if no release of the pod has been
      interrupted or has failed after its lookup and the pod uses one interface
      name, every entry of it is backed whenever no release of it is under way. */
  lemma AgreementWithoutFailedRelease(p: Setup, run: seq<Node>, acts: seq<Action>, uid: string, k: string)
    requires RunFromStart(p, run, acts) && ReleasesGoOn(run, acts, uid)
    requires !MidRelease(run[|acts|].worker, uid) && OneName(run[|acts|].accepted, uid)
    requires k in Wave(run[|acts|].state, uid)
    ensures Backs(p.me, run[|acts|].ec2, run[|acts|].state[k])
  {
    InitialIsCalm(p, run[0], uid);
    EntriesStayBacked(p, run, acts, uid, k);
  }

  /** Whatever failed before, a release that succeeds makes a pod calm again, if the
      map has no other entry of it. */
  lemma ReleaseCalms(p: Setup, s: Node, s': Node)
    requires Reachable(p, s) && Step(p, s, Settle, s') && s.worker.pc.outcome.Released?
    requires Wave(s.state, s.worker.job.Uid()) <= {KeyOf(s.worker.job)}
    ensures Reachable(p, s') && Calm(p.me, s', s.worker.job.Uid())
  {
    ReachableIsSafe(p, s);
    ReachableStep(p, s, Settle, s');
    assert Wave(s'.state, s.worker.job.Uid()) == {};
  }
}
