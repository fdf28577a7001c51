/** What a pod's release wave achieves, and when it achieves nothing. */
module NodeDrain {
  import opened Common
  import opened Ec2Model
  import opened JobProgram
  import opened AgentState
  import opened NodeMachine
  import opened NodeSafety
  import opened NodeQueue
  import opened NodeAgreement

  /** The entries a pod event finds: those of the pod. */
  function Wave(state: StateMap, uid: string): set<string> {
    set k | k in state && state[k].podUid == uid
  }

  function WaveJob(p: Setup, st: InterfaceState): Job
    requires st.networkProfile in p.profiles
  {
    ReleaseJob(p.profiles[st.networkProfile], st.networkProfile,
               ReleaseRequest(st.podUid, st.podName, st.namespace, st.interfaceName, st.networkProfile))
  }

  /** The event hook never skips an entry for want of a profile. */
  lemma WaveJobsAreAdmissible(p: Setup, s: Node, k: string)
    requires Reachable(p, s) && k in s.state
    ensures s.state[k].networkProfile in p.profiles && Admissible(p, WaveJob(p, s.state[k]))
  {
    ReachableIsConserved(p, s);
  }

  predicate EnsureFor(job: Job, uid: string) { job.EnsureJob? && job.Uid() == uid }

  predicate NoEnsure(s: Node, uid: string) {
    && (s.worker.Waiting? || !EnsureFor(s.worker.job, uid))
    && forall i :: 0 <= i < |s.queue| ==> !EnsureFor(s.queue[i], uid)
  }

  predicate NoJob(s: Node, uid: string) {
    && (s.worker.Waiting? || s.worker.job.Uid() != uid)
    && forall i :: 0 <= i < |s.queue| ==> s.queue[i].Uid() != uid
  }

  /** A release of this interface of the pod has succeeded since the first n jobs. */
  predicate ReleasedSince(s: Node, n: nat, uid: string, name: string) {
    exists i :: n <= i < |s.handled| && s.handled[i].outcome.Released? && s.handled[i].About(uid, name)
  }

  /** The worker has an ensure of this pod in hand. */
  predicate Ensures(w: Worker, uid: string) {
    !w.Waiting? && EnsureFor(w.job, uid)
  }

  /** Nothing of the pod is attached to stay. */
  predicate NoneSteady(me: string, e: Ec2, tag: string) {
    forall id :: id in e.enis && Holder(me, e, tag, id) ==> !Steady(me, e, id)
  }

  // ---- draining ------------------------------------------------------------------

  /** While the pod is not ensured again its entries only go, and once a release
      has succeeded it holds nothing. */
  ghost predicate Draining(p: Setup, s0: Node, s: Node, uid: string) {
    && Safe(p, s) && KeysMatch(s.state) && NoEnsure(s, uid) && s0.handled <= s.handled
    && (forall k :: k in s.state && s.state[k].podUid == uid ==>
          && k in s0.state && s.state[k] == s0.state[k]
          && !ReleasedSince(s, |s0.handled|, uid, s.state[k].interfaceName))
    && (PodReleasedSince(s.handled, |s0.handled|, uid) ==> NoHolder(p.me, s.ec2, TagOf(uid)))
  }

  lemma NoEnsureStays(p: Setup, s: Node, a: Action, s': Node, uid: string)
    requires NoEnsure(s, uid) && Step(p, s, a, s') && !(a.Offer? && EnsureFor(a.job, uid))
    ensures NoEnsure(s', uid)
  {
  }

  lemma ReleasedSinceSnoc(s: Node, s': Node, h: Handled, n: nat, uid: string, name: string)
    requires n <= |s.handled| && s'.handled == s.handled + [h]
    ensures ReleasedSince(s', n, uid, name) <==>
              ReleasedSince(s, n, uid, name) || (h.outcome.Released? && h.About(uid, name))
  {
    var m := |s.handled|;
    assert s'.handled[m] == h && forall i :: 0 <= i < m ==> s'.handled[i] == s.handled[i];
    if ReleasedSince(s, n, uid, name) {
      var i :| n <= i < m && s.handled[i].outcome.Released? && s.handled[i].About(uid, name);
      assert s'.handled[i] == s.handled[i];
    }
  }

  lemma SettleKeepsDraining(p: Setup, s0: Node, s: Node, s': Node, uid: string)
    requires Draining(p, s0, s, uid) && Step(p, s, Settle, s')
    ensures Draining(p, s0, s', uid)
  {
    var h := Handled(s.worker.job, s.worker.pc.outcome);
    StepKeepsSafe(p, s, Settle, s');
    NoEnsureStays(p, s, Settle, s', uid);
    forall k | k in s'.state && s'.state[k].podUid == uid
      ensures k in s0.state && s'.state[k] == s0.state[k]
      ensures !ReleasedSince(s', |s0.handled|, uid, s'.state[k].interfaceName)
    {
      assert k in s.state && s.state[k] == s'.state[k];
      ReleasedSinceSnoc(s, s', h, |s0.handled|, uid, s'.state[k].interfaceName);
    }
    SinceSnoc(s.handled, h, |s0.handled|, uid);
  }

  lemma StepKeepsDraining(p: Setup, s0: Node, s: Node, a: Action, s': Node, uid: string)
    requires Draining(p, s0, s, uid) && Step(p, s, a, s') && !a.Crash? && !(a.Offer? && EnsureFor(a.job, uid))
    ensures Draining(p, s0, s', uid)
  {
    match a
    case Settle => SettleKeepsDraining(p, s0, s, s', uid);
    case Elsewhere =>
      StepKeepsSafe(p, s, a, s');
      NoHolderStaysElsewhere(p.me, s.ec2, s'.ec2, TagOf(uid));
      SameHistory(s, s');
    case Exchange(r) =>
      StepKeepsSafe(p, s, a, s');
      ExchangeKeepsNoHolder(p, s, r, s', uid);
      NoEnsureStays(p, s, a, s', uid);
      SameHistory(s, s');
    case _ =>
      StepKeepsSafe(p, s, a, s');
      NoEnsureStays(p, s, a, s', uid);
      SameHistory(s, s');
  }

  lemma SameHistory(s: Node, s': Node)
    requires s'.handled == s.handled
    ensures forall n: nat, uid, name :: ReleasedSince(s', n, uid, name) == ReleasedSince(s, n, uid, name)
  {
  }

  /** No call of a job that is not an ensure of the pod gives the pod a holder. */
  lemma ExchangeKeepsNoHolder(p: Setup, s: Node, r: Response, s': Node, uid: string)
    requires Safe(p, s) && !Ensures(s.worker, uid) && Exchanges(p, s, r, s')
    ensures NoHolder(p.me, s.ec2, TagOf(uid)) ==> NoHolder(p.me, s'.ec2, TagOf(uid))
  {
    if s.worker.pc.EAttach? && s.worker.job.Tag() == TagOf(uid) {
      TagIsInjective(s.worker.job.Uid(), uid);
    }
    NoHolderStays(p.me, s.ec2, NextCall(s.worker.job, s.worker.pc).value, r, s'.ec2, TagOf(uid));
  }

  lemma {:induction false} RunDrains(p: Setup, run: seq<Node>, acts: seq<Action>, uid: string, i: nat)
    requires Run(p, run, acts) && Reachable(p, run[0]) && NoEnsure(run[0], uid) && i < |run|
    requires forall j :: 0 <= j < |acts| ==> !acts[j].Crash? && !(acts[j].Offer? && EnsureFor(acts[j].job, uid))
    ensures Draining(p, run[0], run[i], uid)
  {
    if i == 0 {
      ReachableIsSafe(p, run[0]);
      ReachableIsConserved(p, run[0]);
    } else {
      RunDrains(p, run, acts, uid, i - 1);
      StepKeepsDraining(p, run[0], run[i - 1], acts[i - 1], run[i], uid);
    }
  }

  /** From a snapshot at which no ensure of the pod is queued or in flight, once
      a release has succeeded for each entry of the snapshot and no ensure of the
      pod was accepted meanwhile, no entry of the pod is left; and if anything of
      the pod was released, nothing attached carries its tag. */
  lemma ReleaseWaveDrains(p: Setup, run: seq<Node>, acts: seq<Action>, uid: string)
    requires Run(p, run, acts) && Reachable(p, run[0]) && NoEnsure(run[0], uid)
    requires forall j :: 0 <= j < |acts| ==> !acts[j].Crash? && !(acts[j].Offer? && EnsureFor(acts[j].job, uid))
    requires forall k :: k in Wave(run[0].state, uid) ==>
      ReleasedSince(run[|acts|], |run[0].handled|, uid, run[0].state[k].interfaceName)
    ensures Wave(run[|acts|].state, uid) == {}
    ensures PodReleasedSince(run[|acts|].handled, |run[0].handled|, uid) ==> NoHolder(p.me, run[|acts|].ec2, TagOf(uid))
  {
    RunDrains(p, run, acts, uid, |acts|);
    assert Wave(run[|acts|].state, uid) <= Wave(run[0].state, uid);
  }

  // ---- a wave of nothing -----------------------------------------------------------

  lemma StepKeepsForgotten(p: Setup, s: Node, a: Action, s': Node, uid: string, id: EniId)
    requires Safe(p, s) && NoJob(s, uid) && Steady(p.me, s.ec2, id) && Tagged(s.ec2, id, TagOf(uid))
    requires Step(p, s, a, s') && !(a.Offer? && a.job.Uid() == uid && |s.queue| < p.capacity)
    ensures NoJob(s', uid) && Steady(p.me, s'.ec2, id) && Tagged(s'.ec2, id, TagOf(uid))
  {
    if a.Exchange? {
      ExchangeKeepsSteady(p, s, a.response, s', uid, id);
    } else if a.Elsewhere? {
      ElsewhereKeepsSteady(p.me, s.ec2, s'.ec2, id, TagOf(uid));
    }
  }

  /** An interface of a pod about which no job is queued or accepted stays. */
  lemma {:induction false} RunKeepsForgotten(
      p: Setup, run: seq<Node>, acts: seq<Action>, uid: string, id: EniId, i: nat)
    requires Run(p, run, acts) && Safe(p, run[0]) && NoJob(run[0], uid) && i < |run|
    requires forall j :: 0 <= j < |acts| ==>
      !(acts[j].Offer? && acts[j].job.Uid() == uid && |run[j].queue| < p.capacity)
    requires Steady(p.me, run[0].ec2, id) && Tagged(run[0].ec2, id, TagOf(uid))
    ensures Safe(p, run[i]) && NoJob(run[i], uid)
    ensures Steady(p.me, run[i].ec2, id) && Tagged(run[i].ec2, id, TagOf(uid))
  {
    if i > 0 {
      RunKeepsForgotten(p, run, acts, uid, id, i - 1);
      StepKeepsSafe(p, run[i - 1], acts[i - 1], run[i]);
      StepKeepsForgotten(p, run[i - 1], acts[i - 1], run[i], uid, id);
    }
  }

  /** Every job about the pod, from the snapshot on, is one the hook makes from
      an entry of the snapshot. */
  ghost predicate OnlyWave(p: Setup, run: seq<Node>, acts: seq<Action>, uid: string) {
    && Run(p, run, acts) && Reachable(p, run[0]) && NoJob(run[0], uid)
    && forall j :: 0 <= j < |acts| ==>
         && !acts[j].Crash?
         && (acts[j].Offer? && acts[j].job.Uid() == uid ==>
               exists k :: k in Wave(run[0].state, uid) && run[0].state[k].networkProfile in p.profiles
                 && acts[j].job == WaveJob(p, run[0].state[k]))
  }

  lemma NoneSteadyStays(me: string, e: Ec2, c: Call, r: Response, e': Ec2, tag: string)
    requires Wf(me, e) && Executes(me, e, c, r, e') && NoneSteady(me, e, tag)
    requires c.Attach? ==> !Tagged(e, c.id, tag)
    ensures NoneSteady(me, e', tag)
  {
    forall id | id in e'.enis && Holder(me, e', tag, id)
      ensures !Steady(me, e', id)
    {
      ExecutesHolders(me, e, c, r, e', id, tag);
    }
  }

  lemma ExchangeKeepsNoneSteady(p: Setup, s: Node, r: Response, s': Node, uid: string)
    requires Safe(p, s) && !Ensures(s.worker, uid) && Exchanges(p, s, r, s') && NoneSteady(p.me, s.ec2, TagOf(uid))
    ensures NoneSteady(p.me, s'.ec2, TagOf(uid))
  {
    if s.worker.pc.EAttach? && s.worker.job.Tag() == TagOf(uid) {
      TagIsInjective(s.worker.job.Uid(), uid);
    }
    NoneSteadyStays(p.me, s.ec2, NextCall(s.worker.job, s.worker.pc).value, r, s'.ec2, TagOf(uid));
  }

  /** While no ensure of a pod is in hand, a pod that holds nothing goes on
      holding nothing, and one that holds nothing to stay likewise. */
  lemma {:induction false} RunKeepsNoHolder(p: Setup, run: seq<Node>, acts: seq<Action>, uid: string, i: nat)
    requires Run(p, run, acts) && Safe(p, run[0]) && i < |run|
    requires forall j :: 0 <= j < i ==> !Ensures(run[j].worker, uid)
    ensures Safe(p, run[i])
    ensures NoHolder(p.me, run[0].ec2, TagOf(uid)) ==> NoHolder(p.me, run[i].ec2, TagOf(uid))
    ensures NoneSteady(p.me, run[0].ec2, TagOf(uid)) ==> NoneSteady(p.me, run[i].ec2, TagOf(uid))
  {
    if i > 0 {
      RunKeepsNoHolder(p, run, acts, uid, i - 1);
      var s, a, s' := run[i - 1], acts[i - 1], run[i];
      StepKeepsSafe(p, s, a, s');
      if a.Elsewhere? {
        NoHolderStaysElsewhere(p.me, s.ec2, s'.ec2, TagOf(uid));
        ElsewhereKeepsNoneSteady(p.me, s.ec2, s'.ec2, TagOf(uid));
      } else if a.Exchange? {
        ExchangeKeepsNoHolder(p, s, a.response, s', uid);
        if NoneSteady(p.me, s.ec2, TagOf(uid)) {
          ExchangeKeepsNoneSteady(p, s, a.response, s', uid);
        }
      }
    }
  }

  lemma ElsewhereKeepsNoneSteady(me: string, e: Ec2, e': Ec2, tag: string)
    requires Wf(me, e) && Environment(me, e, e')
    ensures NoneSteady(me, e, tag) ==> NoneSteady(me, e', tag)
  {
    forall id | id in e'.enis && Holder(me, e', tag, id)
      ensures Holder(me, e, tag, id) && e'.enis[id] == e.enis[id]
    {
      EnvironmentHolders(me, e, e', id, tag);
    }
  }

  // ---- what becomes of the wave -----------------------------------------------------

  /** The job was offered at a moment when the queue had room. */
  ghost predicate GetsQueued(p: Setup, run: seq<Node>, acts: seq<Action>, job: Job)
    requires |run| == |acts| + 1
  {
    exists j :: 0 <= j < |acts| && acts[j] == Offer(job) && |run[j].queue| < p.capacity
  }

  ghost predicate ReleaseQueued(p: Setup, run: seq<Node>, acts: seq<Action>, st: InterfaceState)
    requires |run| == |acts| + 1
  {
    st.networkProfile in p.profiles && GetsQueued(p, run, acts, WaveJob(p, st))
  }

  lemma {:induction false} AcceptedOnlyGrows(p: Setup, run: seq<Node>, acts: seq<Action>, i: nat, j: nat)
    requires Run(p, run, acts) && i <= j < |run|
    requires forall j :: 0 <= j < |acts| ==> !acts[j].Crash?
    ensures run[i].accepted <= run[j].accepted
  {
    if i < j {
      AcceptedOnlyGrows(p, run, acts, i, j - 1);
      assert Step(p, run[j - 1], acts[j - 1], run[j - 1 + 1]);
      assert run[j - 1].accepted <= run[j].accepted;
    }
  }

  /** What has been accepted since the start of the run was offered with room. */
  lemma {:induction false} AcceptedWasQueued(p: Setup, run: seq<Node>, acts: seq<Action>, i: nat, m: nat)
    requires Run(p, run, acts) && i < |run| && |run[0].accepted| <= m < |run[i].accepted|
    requires forall j :: 0 <= j < |acts| ==> !acts[j].Crash?
    ensures GetsQueued(p, run, acts, run[i].accepted[m])
    decreases i
  {
    if i > 0 {
      assert Step(p, run[i - 1], acts[i - 1], run[i - 1 + 1]);
      if m < |run[i - 1].accepted| {
        AcceptedWasQueued(p, run, acts, i - 1, m);
      } else {
        assert acts[i - 1] == Offer(run[i].accepted[m]) && |run[i - 1].queue| < p.capacity;
      }
    }
  }

  /** And what is offered with room is accepted. */
  lemma QueuedIsAccepted(p: Setup, run: seq<Node>, acts: seq<Action>, job: Job) returns (m: nat)
    requires Run(p, run, acts) && GetsQueued(p, run, acts, job)
    requires forall j :: 0 <= j < |acts| ==> !acts[j].Crash?
    ensures |run[0].accepted| <= m < |run[|acts|].accepted| && run[|acts|].accepted[m] == job
  {
    var j :| 0 <= j < |acts| && acts[j] == Offer(job) && |run[j].queue| < p.capacity;
    m := |run[j].accepted|;
    AcceptedOnlyGrows(p, run, acts, 0, j);
    AcceptedOnlyGrows(p, run, acts, j + 1, |acts|);
    assert Step(p, run[j], acts[j], run[j + 1]);
    assert run[j + 1].accepted[m] == job;
  }

  /** The wave is all that happens to the pod: by the end every job of the pod that
      was accepted has been handled, and none of them failed. */
  ghost predicate WaveIsOver(p: Setup, run: seq<Node>, acts: seq<Action>, uid: string) {
    && OnlyWave(p, run, acts, uid) && NoJob(run[|acts|], uid)
    && forall i :: |run[0].handled| <= i < |run[|acts|].handled| && run[|acts|].handled[i].job.Uid() == uid ==>
         run[|acts|].handled[i].Succeeded()
  }

  /** A pod's job that is neither queued nor in flight was handled where it was
      accepted. */
  lemma AcceptedIsHandled(p: Setup, s: Node, uid: string, m: nat)
    requires Conserved(p, s) && NoJob(s, uid) && m < |s.accepted| && s.accepted[m].Uid() == uid
    ensures m < |s.handled| && s.handled[m].job == s.accepted[m]
  {
    JobsSize(s.handled);
    if m < |s.handled| {
      JobsAt(s.handled, m);
    }
  }

  lemma QueuedReleaseSucceeds(p: Setup, run: seq<Node>, acts: seq<Action>, uid: string, k: string)
    requires WaveIsOver(p, run, acts, uid) && k in Wave(run[0].state, uid)
    requires ReleaseQueued(p, run, acts, run[0].state[k])
    ensures ReleasedSince(run[|acts|], |run[0].handled|, uid, run[0].state[k].interfaceName)
    ensures PodReleasedSince(run[|acts|].handled, |run[0].handled|, uid)
  {
    var last, job := run[|acts|], WaveJob(p, run[0].state[k]);
    ReachableRun(p, run, acts, |acts|);
    ReachableIsConserved(p, last);
    ReachableIsConserved(p, run[0]);
    JobsSize(run[0].handled);
    var m := QueuedIsAccepted(p, run, acts, job);
    AcceptedIsHandled(p, last, uid, m);
    assert last.handled[m].Sound() && last.handled[m].Succeeded();
    assert last.handled[m].outcome.Released? && last.handled[m].About(uid, run[0].state[k].interfaceName);
  }

  lemma HandledWasQueued(p: Setup, run: seq<Node>, acts: seq<Action>, uid: string, i: nat)
    requires WaveIsOver(p, run, acts, uid) && |run[0].handled| <= i < |run[|acts|].handled|
    requires run[|acts|].handled[i].job.Uid() == uid
    ensures GetsQueued(p, run, acts, run[|acts|].handled[i].job)
  {
    var last := run[|acts|];
    ReachableRun(p, run, acts, |acts|);
    ReachableIsConserved(p, last);
    ReachableIsConserved(p, run[0]);
    HandledIsAccepted(p, last, i);
    AcceptedOnlyGrows(p, run, acts, 0, |acts|);
    if i < |run[0].accepted| {
      assert run[0].accepted[i] == last.accepted[i];
      AcceptedIsHandled(p, run[0], uid, i);
      assert false;
    }
    AcceptedWasQueued(p, run, acts, |acts|, i);
  }

  predicate AcceptedColonFree(s: Node) {
    forall i :: 0 <= i < |s.accepted| ==> ColonFree(s.accepted[i].Uid())
  }

  /** An entry whose release was not queued is still there. */
  lemma DroppedReleaseLeavesEntry(p: Setup, run: seq<Node>, acts: seq<Action>, uid: string, k: string)
    requires WaveIsOver(p, run, acts, uid) && k in Wave(run[0].state, uid)
    requires !ReleaseQueued(p, run, acts, run[0].state[k])
    requires ColonFree(uid) && AcceptedColonFree(run[|acts|])
    ensures k in Wave(run[|acts|].state, uid)
  {
    var first, last, name := run[0], run[|acts|], run[0].state[k].interfaceName;
    ReachableRun(p, run, acts, |acts|);
    ReachableIsConserved(p, first);
    AcceptedOnlyGrows(p, run, acts, 0, |acts|);
    assert forall i :: 0 <= i < |first.accepted| ==> first.accepted[i] == last.accepted[i];
    RunDrains(p, run, acts, uid, |acts|);
    EntryIsLastSuccess(p, first, uid, name);
    EntryIsLastSuccess(p, last, uid, name);
    var i :| Wins(first.handled, i, uid, name) && first.handled[i].outcome.Ensured?;
    forall j | i < j < |last.handled| && last.handled[j].Succeeded()
      ensures !last.handled[j].About(uid, name)
    {
      NotHandledSince(p, run, acts, uid, k, i, j);
    }
    assert last.handled[i] == first.handled[i];
    assert Wins(last.handled, i, uid, name);
  }

  lemma NotHandledSince(p: Setup, run: seq<Node>, acts: seq<Action>, uid: string, k: string, i: int, j: int)
    requires WaveIsOver(p, run, acts, uid) && k in Wave(run[0].state, uid) && KeysMatch(run[0].state)
    requires !ReleaseQueued(p, run, acts, run[0].state[k]) && run[0].handled <= run[|acts|].handled
    requires Wins(run[0].handled, i, uid, run[0].state[k].interfaceName) && i < j < |run[|acts|].handled|
    requires run[|acts|].handled[j].Succeeded()
    ensures !run[|acts|].handled[j].About(uid, run[0].state[k].interfaceName)
  {
    var h := run[|acts|].handled[j];
    if j < |run[0].handled| {
      assert h == run[0].handled[j];
    } else if h.About(uid, run[0].state[k].interfaceName) {
      HandledWasQueued(p, run, acts, uid, j);
      assert false;
    }
  }

  lemma NothingQueuedNothingDrained(p: Setup, run: seq<Node>, acts: seq<Action>, uid: string)
    requires WaveIsOver(p, run, acts, uid) && !NoneSteady(p.me, run[0].ec2, TagOf(uid))
    requires forall k :: k in Wave(run[0].state, uid) ==> !ReleaseQueued(p, run, acts, run[0].state[k])
    ensures !NoneSteady(p.me, run[|acts|].ec2, TagOf(uid))
  {
    ReachableIsSafe(p, run[0]);
    forall j | 0 <= j < |acts| && acts[j].Offer? && acts[j].job.Uid() == uid
      ensures |run[j].queue| >= p.capacity
    {
      var k :| k in Wave(run[0].state, uid) && run[0].state[k].networkProfile in p.profiles
        && acts[j].job == WaveJob(p, run[0].state[k]);
      assert !ReleaseQueued(p, run, acts, run[0].state[k]);
    }
    var id :| id in run[0].ec2.enis && Holder(p.me, run[0].ec2, TagOf(uid), id) && Steady(p.me, run[0].ec2, id);
    RunKeepsForgotten(p, run, acts, uid, id, |acts|);
    assert Holder(p.me, run[|acts|].ec2, TagOf(uid), id);
  }

  /** Once a wave is over, the pod has nothing attached to stay exactly when some
      release of the wave found room in the queue or nothing was attached to stay
      to begin with; and no entry exactly when every release of the wave did.  An
      interface the map does not know is never released, and neither is one whose
      releases were all dropped. */
  lemma WaveDrainsExactlyWhen(p: Setup, run: seq<Node>, acts: seq<Action>, uid: string)
    requires WaveIsOver(p, run, acts, uid)
    ensures NoneSteady(p.me, run[|acts|].ec2, TagOf(uid)) <==>
      || NoneSteady(p.me, run[0].ec2, TagOf(uid))
      || exists k :: k in Wave(run[0].state, uid) && ReleaseQueued(p, run, acts, run[0].state[k])
    ensures (exists k :: k in Wave(run[0].state, uid) && ReleaseQueued(p, run, acts, run[0].state[k])) ==>
      NoHolder(p.me, run[|acts|].ec2, TagOf(uid))
    ensures ColonFree(uid) && AcceptedColonFree(run[|acts|]) ==>
      (Wave(run[|acts|].state, uid) == {} <==>
         forall k :: k in Wave(run[0].state, uid) ==> ReleaseQueued(p, run, acts, run[0].state[k]))
  {
    WaveEmptiesMapExactlyWhen(p, run, acts, uid);
    ReachableIsSafe(p, run[0]);
    if k :| k in Wave(run[0].state, uid) && ReleaseQueued(p, run, acts, run[0].state[k]) {
      QueuedReleaseSucceeds(p, run, acts, uid, k);
      RunDrains(p, run, acts, uid, |acts|);
    } else if NoneSteady(p.me, run[0].ec2, TagOf(uid)) {
      forall j | 0 <= j < |acts|
        ensures !Ensures(run[j].worker, uid)
      {
        RunDrains(p, run, acts, uid, j);
      }
      RunKeepsNoHolder(p, run, acts, uid, |acts|);
    } else {
      NothingQueuedNothingDrained(p, run, acts, uid);
    }
  }

  lemma WaveEmptiesMapExactlyWhen(p: Setup, run: seq<Node>, acts: seq<Action>, uid: string)
    requires WaveIsOver(p, run, acts, uid)
    ensures ColonFree(uid) && AcceptedColonFree(run[|acts|]) ==>
      (Wave(run[|acts|].state, uid) == {} <==>
         forall k :: k in Wave(run[0].state, uid) ==> ReleaseQueued(p, run, acts, run[0].state[k]))
  {
    if forall k :: k in Wave(run[0].state, uid) ==> ReleaseQueued(p, run, acts, run[0].state[k]) {
      forall k | k in Wave(run[0].state, uid)
        ensures ReleasedSince(run[|acts|], |run[0].handled|, uid, run[0].state[k].interfaceName)
      {
        QueuedReleaseSucceeds(p, run, acts, uid, k);
      }
      ReleaseWaveDrains(p, run, acts, uid);
    } else if ColonFree(uid) && AcceptedColonFree(run[|acts|]) {
      var k :| k in Wave(run[0].state, uid) && !ReleaseQueued(p, run, acts, run[0].state[k]);
      DroppedReleaseLeavesEntry(p, run, acts, uid, k);
    }
  }

  /** The release of every entry of the snapshot is queued in it. */
  predicate WaveQueued(p: Setup, s: Node, uid: string) {
    forall k :: k in Wave(s.state, uid) ==>
      s.state[k].networkProfile in p.profiles && WaveJob(p, s.state[k]) in s.queue
  }

  /** From a snapshot in which the wave is queued and no ensure of the pod is queued or
      in flight: once all that was accepted then is handled, and no job of the pod
      failed nor was an ensure of it accepted meanwhile, no entry of the pod is left,
      and nothing attached carries its tag if there was one. */
  lemma QueuedWaveDrains(p: Setup, run: seq<Node>, acts: seq<Action>, uid: string)
    requires Run(p, run, acts) && Reachable(p, run[0]) && NoEnsure(run[0], uid) && WaveQueued(p, run[0], uid)
    requires forall j :: 0 <= j < |acts| ==> !acts[j].Crash? && !(acts[j].Offer? && EnsureFor(acts[j].job, uid))
    requires |run[|acts|].handled| >= |run[0].accepted|
    requires forall i :: |run[0].handled| <= i < |run[|acts|].handled| && run[|acts|].handled[i].job.Uid() == uid ==>
      run[|acts|].handled[i].Succeeded()
    ensures Wave(run[|acts|].state, uid) == {}
    ensures Wave(run[0].state, uid) != {} ==> NoHolder(p.me, run[|acts|].ec2, TagOf(uid))
  {
    var first, last := run[0], run[|acts|];
    forall k | k in Wave(first.state, uid)
      ensures ReleasedSince(last, |first.handled|, uid, first.state[k].interfaceName)
      ensures PodReleasedSince(last.handled, |first.handled|, uid)
    {
      QueuedJobIsHandled(p, run, acts, WaveJob(p, first.state[k]));
      var i :| |first.handled| <= i < |last.handled| && last.handled[i].job == WaveJob(p, first.state[k])
        && last.handled[i].Sound();
      assert last.handled[i].Releases(uid) && last.handled[i].About(uid, first.state[k].interfaceName);
    }
    ReleaseWaveDrains(p, run, acts, uid);
  }

  lemma QueuedJobIsHandled(p: Setup, run: seq<Node>, acts: seq<Action>, job: Job)
    requires Run(p, run, acts) && Reachable(p, run[0]) && job in run[0].queue
    requires forall j :: 0 <= j < |acts| ==> !acts[j].Crash?
    requires |run[|acts|].handled| >= |run[0].accepted|
    ensures exists i :: (|run[0].handled| <= i < |run[|acts|].handled| && run[|acts|].handled[i].job == job
                         && run[|acts|].handled[i].Sound())
  {
    var first, last := run[0], run[|acts|];
    ReachableRun(p, run, acts, |acts|);
    ReachableIsConserved(p, first);
    ReachableIsConserved(p, last);
    AcceptedOnlyGrows(p, run, acts, 0, |acts|);
    JobsSize(first.handled);
    var q :| 0 <= q < |first.queue| && first.queue[q] == job;
    var i := |first.handled| + |InFlight(first.worker)| + q;
    assert first.accepted[i] == job == last.accepted[i];
    HandledIsAccepted(p, last, i);
    assert last.handled[i].Sound();
  }

  // ---- several interfaces of one pod -------------------------------------------------

  /** The tag names the pod only, so a release takes away whatever any of the
      pod's entries names: when one has succeeded, what EC2 still backs is all that
      is left of the pod in the map exactly when nothing is left. */
  lemma ReleaseBacksTheRestExactlyWhen(p: Setup, s: Node, s': Node)
    requires Reachable(p, s) && Step(p, s, Settle, s') && s.worker.pc.outcome.Released?
    ensures var uid := s.worker.job.Uid();
      (forall k :: k in Wave(s'.state, uid) ==> Backs(p.me, s'.ec2, s'.state[k]))
      <==> Wave(s.state, uid) <= {KeyOf(s.worker.job)}
  {
    ReachableIsSafe(p, s);
    var uid := s.worker.job.Uid();
    assert Wave(s'.state, uid) == Wave(s.state, uid) - {KeyOf(s.worker.job)};
    forall k | k in Wave(s'.state, uid)
      ensures !Backs(p.me, s'.ec2, s'.state[k])
    {
      assert !Holder(p.me, s.ec2, TagOf(uid), s'.state[k].eniId);
    }
    if k :| k in Wave(s'.state, uid) {
      assert k in Wave(s.state, uid) && k != KeyOf(s.worker.job);
    } else {
      forall k | k in Wave(s.state, uid)
        ensures k == KeyOf(s.worker.job)
      {
        assert k !in Wave(s'.state, uid);
      }
    }
  }
}
