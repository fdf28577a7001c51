/** The agent's map against EC2: when what an entry says is what is attached. */
module NodeAgreement {
  import opened Common
  import opened Ec2Model
  import opened JobProgram
  import opened AgentState
  import opened NodeMachine
  import opened NodeSafety
  import opened NodeQueue

  /** EC2 has what the entry says: an interface attached here to stay, with the
      pod's tag, the recorded MAC and every recorded address. */
  predicate Backs(me: string, e: Ec2, st: InterfaceState) {
    && Steady(me, e, st.eniId) && Tagged(e, st.eniId, TagOf(st.podUid))
    && e.enis[st.eniId].mac == st.mac
    && Elements(st.ipv4) <= e.enis[st.eniId].Ipv4()
    && Elements(st.ipv6) <= e.enis[st.eniId].ipv6
  }

  predicate DeletedWithInstance(e: Ec2, id: EniId) {
    id in e.enis && e.enis[id].attachment.Some? && e.enis[id].attachment.value.deleteOnTermination
  }

  /** The ensure made a new interface, or its lookup showed one attached to stay. */
  predicate Stays(found: Option<Attachment>) {
    found.Some? ==> !found.value.detaching
  }

  /** ... or one that is deleted with the instance. */
  predicate Dies(found: Option<Attachment>) {
    found.Some? ==> found.value.deleteOnTermination
  }

  // ---- one ensure --------------------------------------------------------------

  /** The interface an ensure goes on with is attached to stay exactly if it was
      when found, and then has kept what decides whether it outlives the instance. */
  predicate Held(me: string, e: Ec2, tag: string, id: EniId, found: Option<Attachment>) {
    && OursTagged(e, tag, id) && OnlyHolder(me, e, tag, id)
    && (Steady(me, e, id) <==> Stays(found))
    && (Stays(found) ==> (DeletedWithInstance(e, id) <==> Dies(found)))
  }

  /** How far an ensure has got. */
  predicate OnTrack(me: string, e: Ec2, job: Job, pc: Pc)
    requires job.EnsureJob?
  {
    match pc
    case EAttach(_, v) => v.attachment.None?
    case EModify(v, _) => v.attachment.None?
    case EAssign4(v, _) => Held(me, e, job.Tag(), v.id, v.attachment)
    case EAssign6(v, _) =>
      && Held(me, e, job.Tag(), v.id, v.attachment)
      && (Stays(v.attachment) ==> Elements(job.sync.ipv4) <= e.enis[v.id].Ipv4())
    case Finished(Ensured(res, found)) =>
      && Held(me, e, job.Tag(), res.eniId, found)
      && (Stays(found) ==> Backs(me, e, Entry(job.sync, res)))
    case _ => true
  }

  lemma OnTrackFrom6(me: string, e: Ec2, job: Job, v: View, att: AttachmentId)
    requires job.EnsureJob? && Held(me, e, job.Tag(), v.id, v.attachment)
    requires Stays(v.attachment) ==> Covers(v, e.enis[v.id]) && Elements(job.sync.ipv4) <= e.enis[v.id].Ipv4()
    ensures OnTrack(me, e, job, ToAssign6(job, v, att))
  {
    if Missing6(job, v) == [] {
      NothingMissing(Elements(v.ipv6), job.sync.ipv6);
    }
  }

  lemma OnTrackFrom4(me: string, e: Ec2, job: Job, v: View, att: AttachmentId)
    requires job.EnsureJob? && Held(me, e, job.Tag(), v.id, v.attachment)
    requires Stays(v.attachment) ==> Covers(v, e.enis[v.id])
    ensures OnTrack(me, e, job, ToAssign4(job, v, att))
  {
    if Missing4(job, v) == [] {
      NothingMissing(Addresses(v.ipv4), job.sync.ipv4);
      OnTrackFrom6(me, e, job, v, att);
    }
  }

  lemma LookupIsOnTrack(me: string, e: Ec2, job: Job, r: Response, e': Ec2)
    requires Wf(me, e) && UniqueHolders(me, e) && job.EnsureJob?
    requires Executes(me, e, FindByTag(job.Tag()), r, e')
    ensures OnTrack(me, e', job, After(job, EFind, r))
  {
    if r.Listed? && r.enis != [] {
      LookupFindsHolder(me, e, job.Tag(), r.enis);
      OnTrackFrom4(me, e, job, r.enis[0], r.enis[0].attachment.value.id);
    }
  }

  lemma AssignKeepsHeld(
      me: string, e: Ec2, c: Call, r: Response, e': Ec2, tag: string, id: EniId, found: Option<Attachment>)
    requires Wf(me, e) && Held(me, e, tag, id, found) && Executes(me, e, c, r, e') && c.Readdresses()
    ensures Held(me, e', tag, id, found)
  {
    NoHolderStays(me, e, c, r, e', tag);
  }

  lemma AssignIsOnTrack(me: string, e: Ec2, job: Job, pc: Pc, r: Response, e': Ec2)
    requires Wf(me, e) && PcInv(me, e, job, pc) && (pc.EAssign4? || pc.EAssign6?) && OnTrack(me, e, job, pc)
    requires Executes(me, e, NextCall(job, pc).value, r, e')
    ensures OnTrack(me, e', job, After(job, pc, r))
  {
    var v := pc.view;
    AssignKeepsHeld(me, e, NextCall(job, pc).value, r, e', job.Tag(), v.id, v.attachment);
    if r.Done? {
      if pc.EAssign4? {
        MissingElements(Addresses(v.ipv4), job.sync.ipv4);
        OnTrackFrom6(me, e', job, v, pc.attachment);
      } else {
        MissingElements(Elements(v.ipv6), job.sync.ipv6);
      }
    }
  }

  lemma ModifyIsOnTrack(me: string, e: Ec2, job: Job, pc: Pc, r: Response, e': Ec2)
    requires Wf(me, e) && UniqueHolders(me, e) && PcInv(me, e, job, pc) && pc.EModify? && OnTrack(me, e, job, pc)
    requires Executes(me, e, NextCall(job, pc).value, r, e')
    ensures OnTrack(me, e', job, After(job, pc, r))
  {
    if r.Done? {
      NoHolderStays(me, e, NextCall(job, pc).value, r, e', job.Tag());
      assert OnlyHolder(me, e, job.Tag(), pc.view.id);
      OnTrackFrom4(me, e', job, pc.view, pc.attachment);
    }
  }

  /** Every call of an ensure keeps it on track. */
  lemma ExchangeIsOnTrack(me: string, e: Ec2, job: Job, pc: Pc, r: Response, e': Ec2)
    requires Wf(me, e) && UniqueHolders(me, e) && PcInv(me, e, job, pc)
    requires job.EnsureJob? && OnTrack(me, e, job, pc)
    requires NextCall(job, pc).Some? && Executes(me, e, NextCall(job, pc).value, r, e')
    ensures OnTrack(me, e', job, After(job, pc, r))
  {
    match pc
    case EFind => LookupIsOnTrack(me, e, job, r, e');
    case EModify(_, _) => ModifyIsOnTrack(me, e, job, pc, r, e');
    case EAssign4(_, _) => AssignIsOnTrack(me, e, job, pc, r, e');
    case EAssign6(_, _) => AssignIsOnTrack(me, e, job, pc, r, e');
    case _ =>
  }

  lemma ElsewhereKeepsSteady(me: string, e: Ec2, e': Ec2, id: EniId, tag: string)
    requires Wf(me, e) && Environment(me, e, e') && Steady(me, e, id) && Tagged(e, id, tag)
    ensures id in e'.enis && e'.enis[id] == e.enis[id]
  {
    assert id in e.ours;
  }

  /** So does everything that happens elsewhere. */
  lemma ElsewhereIsOnTrack(me: string, e: Ec2, e': Ec2, job: Job, pc: Pc)
    requires Wf(me, e) && Environment(me, e, e') && job.EnsureJob? && OnTrack(me, e, job, pc)
    ensures OnTrack(me, e', job, pc)
  {
    NoHolderStaysElsewhere(me, e, e', job.Tag());
  }

  // ---- entries -----------------------------------------------------------------

  /** The worker is still attaching this interface. */
  predicate Making(w: Worker, id: EniId) {
    w.Busy? && (w.pc.EAttach? || w.pc.EModify?) && w.pc.view.id == id
  }

  /** What holds of the entry under k, recorded by the i-th job. */
  ghost predicate Faithful(me: string, s: Node, k: string, i: nat)
    requires k in s.state && i < |s.handled| && s.handled[i].outcome.Ensured?
  {
    var st, found := s.state[k], s.handled[i].outcome.found;
    && OursTagged(s.ec2, TagOf(st.podUid), st.eniId) && !Making(s.worker, st.eniId)
    && (Steady(me, s.ec2, st.eniId) ==>
          && Stays(found) && !PodReleasedSince(s.handled, i + 1, st.podUid)
          && (DeletedWithInstance(s.ec2, st.eniId) <==> Dies(found)))
    && (Stays(found) && !PodTouchedSince(s.handled, i + 1, st.podUid) && !MidRelease(s.worker, st.podUid) ==>
          Backs(me, s.ec2, st))
  }

  ghost predicate Agrees(me: string, s: Node) {
    forall k | k in s.state ::
      RecordedBy(s.handled, k) >= 0 && Faithful(me, s, k, RecordedBy(s.handled, k))
  }

  ghost predicate AgreementInv(p: Setup, s: Node) {
    && (s.worker.Busy? && s.worker.job.EnsureJob? ==> OnTrack(p.me, s.ec2, s.worker.job, s.worker.pc))
    && Agrees(p.me, s)
  }

  // ---- exchanges --------------------------------------------------------------

  lemma MidReleaseStays(p: Setup, s: Node, r: Response, s': Node, uid: string)
    requires Exchanges(p, s, r, s') && MidRelease(s.worker, uid)
    ensures MidRelease(s'.worker, uid)
  {
  }

  /** Only detach and unassign calls on an interface take anything from it. */
  lemma ExecutesKeepsSteady(me: string, e: Ec2, c: Call, r: Response, e': Ec2, id: EniId)
    requires Wf(me, e) && Executes(me, e, c, r, e') && Steady(me, e, id)
    requires c.Detach? ==> c.attachment.eni != id
    requires c.UnassignIpv4? || c.UnassignIpv6? ==> c.id != id
    ensures Steady(me, e', id) && e'.enis[id].tag == e.enis[id].tag && e'.enis[id].mac == e.enis[id].mac
    ensures e.enis[id].Ipv4() <= e'.enis[id].Ipv4() && e.enis[id].ipv6 <= e'.enis[id].ipv6
  {
  }

  /** A job touches no attached interface of another pod, and an ensure only
      adds addresses to its own. */
  lemma ExchangeKeepsSteady(p: Setup, s: Node, r: Response, s': Node, uid: string, id: EniId)
    requires Safe(p, s) && Exchanges(p, s, r, s') && !MidRelease(s.worker, uid)
    requires Steady(p.me, s.ec2, id) && Tagged(s.ec2, id, TagOf(uid))
    ensures Steady(p.me, s'.ec2, id) && Tagged(s'.ec2, id, TagOf(uid))
    ensures s'.ec2.enis[id].mac == s.ec2.enis[id].mac
    ensures s.ec2.enis[id].Ipv4() <= s'.ec2.enis[id].Ipv4() && s.ec2.enis[id].ipv6 <= s'.ec2.enis[id].ipv6
  {
    if s.worker.job.Tag() == TagOf(uid) {
      TagIsInjective(s.worker.job.Uid(), uid);
    }
    ExecutesKeepsSteady(p.me, s.ec2, NextCall(s.worker.job, s.worker.pc).value, r, s'.ec2, id);
  }

  /** Only an attach makes an interface attached to stay, and only the call after
      it decides whether it is deleted with the instance. */
  lemma ExecutesMakesNothingSteady(me: string, e: Ec2, c: Call, r: Response, e': Ec2, tag: string, id: EniId)
    requires Wf(me, e) && Executes(me, e, c, r, e') && OursTagged(e, tag, id)
    requires c.Attach? || c.SetDeleteOnTermination? ==> c.id != id
    ensures OursTagged(e', tag, id)
    ensures Steady(me, e', id) ==> Steady(me, e, id) && (DeletedWithInstance(e', id) <==> DeletedWithInstance(e, id))
  {
  }

  lemma ExchangeMakesNothingSteady(p: Setup, s: Node, r: Response, s': Node, tag: string, id: EniId)
    requires Safe(p, s) && Exchanges(p, s, r, s') && OursTagged(s.ec2, tag, id) && !Making(s.worker, id)
    ensures OursTagged(s'.ec2, tag, id) && !Making(s'.worker, id)
    ensures Steady(p.me, s'.ec2, id) ==>
      Steady(p.me, s.ec2, id) && (DeletedWithInstance(s'.ec2, id) <==> DeletedWithInstance(s.ec2, id))
  {
    ExecutesMakesNothingSteady(p.me, s.ec2, NextCall(s.worker.job, s.worker.pc).value, r, s'.ec2, tag, id);
  }

  lemma ExchangeKeepsFaithful(p: Setup, s: Node, r: Response, s': Node, k: string, i: nat)
    requires Safe(p, s) && Exchanges(p, s, r, s')
    requires k in s.state && i < |s.handled| && s.handled[i].outcome.Ensured? && Faithful(p.me, s, k, i)
    ensures Faithful(p.me, s', k, i)
  {
    var st := s.state[k];
    ExchangeMakesNothingSteady(p, s, r, s', TagOf(st.podUid), st.eniId);
    if MidRelease(s.worker, st.podUid) {
      MidReleaseStays(p, s, r, s', st.podUid);
    } else if Backs(p.me, s.ec2, st) {
      ExchangeKeepsSteady(p, s, r, s', st.podUid, st.eniId);
    }
  }

  // ---- the other steps -----------------------------------------------------------

  lemma ElsewhereKeepsFaithful(p: Setup, s: Node, s': Node, k: string, i: nat)
    requires Safe(p, s) && Step(p, s, Elsewhere, s')
    requires k in s.state && i < |s.handled| && s.handled[i].outcome.Ensured? && Faithful(p.me, s, k, i)
    ensures Faithful(p.me, s', k, i)
  {
  }

  /** When a job ends, every other entry of the pod has lost its interface if the
      job was a release that succeeded. */
  lemma SettleKeepsFaithful(p: Setup, s: Node, s': Node, k: string, i: nat)
    requires Safe(p, s) && Step(p, s, Settle, s') && k in s'.state && k in s.state && s'.state[k] == s.state[k]
    requires i < |s.handled| && s.handled[i].outcome.Ensured? && Faithful(p.me, s, k, i)
    ensures Faithful(p.me, s', k, i)
  {
    SinceSnoc(s.handled, Handled(s.worker.job, s.worker.pc.outcome), i + 1, s.state[k].podUid);
    assert s'.handled[i] == s.handled[i];
  }

  /** The entry of the job itself is as the job was on track. */
  lemma SettleKeepsAgreement(p: Setup, s: Node, s': Node)
    requires Safe(p, s) && AgreementInv(p, s) && Step(p, s, Settle, s')
    ensures AgreementInv(p, s')
  {
    var h, n := Handled(s.worker.job, s.worker.pc.outcome), |s.handled|;
    assert s'.handled[..n] == s.handled;
    forall k | k in s'.state
      ensures RecordedBy(s'.handled, k) >= 0 && Faithful(p.me, s', k, RecordedBy(s'.handled, k))
    {
      if !(h.outcome.Ensured? && KeyOf(h.job) == k) {
        SettleKeepsFaithful(p, s, s', k, RecordedBy(s.handled, k));
      }
    }
  }

  /** Steps of the worker that make no call and finish no job. */
  lemma QuietStepKeepsAgreement(p: Setup, s: Node, a: Action, s': Node)
    requires AgreementInv(p, s) && Step(p, s, a, s')
    requires a.Offer? || a.BumpDepth? || a.Take? || a.Begin? || a.GiveUp?
    ensures AgreementInv(p, s')
  {
    forall k | k in s'.state
      ensures Faithful(p.me, s', k, RecordedBy(s'.handled, k))
    {
      QuietKeepsFaithful(p.me, s, s', k, RecordedBy(s.handled, k));
    }
  }

  lemma QuietKeepsFaithful(me: string, s: Node, s': Node, k: string, i: nat)
    requires s'.ec2 == s.ec2 && s'.state == s.state && s'.handled == s.handled
    requires k in s.state && i < |s.handled| && s.handled[i].outcome.Ensured? && Faithful(me, s, k, i)
    requires Making(s'.worker, s.state[k].eniId) ==> Making(s.worker, s.state[k].eniId)
    requires MidRelease(s.worker, s.state[k].podUid) ==> MidRelease(s'.worker, s.state[k].podUid)
    ensures Faithful(me, s', k, i)
  {
  }

  lemma StepKeepsAgreement(p: Setup, s: Node, a: Action, s': Node)
    requires Safe(p, s) && AgreementInv(p, s) && Step(p, s, a, s')
    ensures AgreementInv(p, s')
  {
    match a
    case Exchange(r) =>
      if s.worker.job.EnsureJob? {
        ExchangeIsOnTrack(p.me, s.ec2, s.worker.job, s.worker.pc, r, s'.ec2);
      }
      forall k | k in s'.state
        ensures Faithful(p.me, s', k, RecordedBy(s'.handled, k))
      {
        ExchangeKeepsFaithful(p, s, r, s', k, RecordedBy(s.handled, k));
      }
    case Elsewhere =>
      if s.worker.Busy? && s.worker.job.EnsureJob? {
        ElsewhereIsOnTrack(p.me, s.ec2, s'.ec2, s.worker.job, s.worker.pc);
      }
      forall k | k in s'.state
        ensures Faithful(p.me, s', k, RecordedBy(s'.handled, k))
      {
        ElsewhereKeepsFaithful(p, s, s', k, RecordedBy(s.handled, k));
      }
    case Settle => SettleKeepsAgreement(p, s, s');
    case Crash =>
    case _ => QuietStepKeepsAgreement(p, s, a, s');
  }

  lemma {:induction false} RunAgrees(p: Setup, run: seq<Node>, acts: seq<Action>, i: nat)
    requires RunFromStart(p, run, acts) && i < |run|
    ensures AgreementInv(p, run[i])
  {
    if i > 0 {
      RunAgrees(p, run, acts, i - 1);
      RunStaysSafe(p, run, acts, i - 1);
      StepKeepsAgreement(p, run[i - 1], acts[i - 1], run[i]);
    }
  }

  lemma ReachableAgrees(p: Setup, s: Node)
    requires Reachable(p, s)
    ensures AgreementInv(p, s)
  {
    var run, acts :| RunFromStart(p, run, acts) && run[|run| - 1] == s;
    RunAgrees(p, run, acts, |run| - 1);
  }

  // ---- what an entry is worth --------------------------------------------------

  /** Every entry comes from a handled ensure.  EC2 backs it only if the interface
      was attached to stay when that ensure found or made it and no release of the
      pod has succeeded since; and it does back it then, unless a release of the
      pod has failed halfway since or is under way. */
  lemma EntriesAreBacked(p: Setup, s: Node, k: string)
    requires Reachable(p, s) && k in s.state
    ensures var i, st := RecordedBy(s.handled, k), s.state[k];
      && i >= 0 && s.handled[i].job.EnsureJob? && st == Entry(s.handled[i].job.sync, s.handled[i].outcome.result)
      && (Backs(p.me, s.ec2, st) ==>
            Stays(s.handled[i].outcome.found) && !PodReleasedSince(s.handled, i + 1, st.podUid))
      && (PodTouchedSince(s.handled, i + 1, st.podUid) || MidRelease(s.worker, st.podUid) ||
            (Backs(p.me, s.ec2, st) <==> Stays(s.handled[i].outcome.found)))
  {
    ReachableAgrees(p, s);
    ReachableIsConserved(p, s);
    EntryIsRecorded(s.handled, k);
  }

  /** EC2 backs what an ensure is about to record exactly when its lookup showed the
      interface attached to stay, or showed none and the ensure made it; and then
      it is deleted with the instance exactly when new or shown so. */
  lemma EnsuredIsBackedExactlyWhen(p: Setup, s: Node)
    requires Reachable(p, s) && s.worker.Busy? && s.worker.pc.Finished? && s.worker.pc.outcome.Ensured?
    ensures s.worker.job.EnsureJob?
    ensures var st, found := Entry(s.worker.job.sync, s.worker.pc.outcome.result), s.worker.pc.outcome.found;
      && (Backs(p.me, s.ec2, st) <==> Stays(found))
      && (Backs(p.me, s.ec2, st) ==> (DeletedWithInstance(s.ec2, st.eniId) <==> Dies(found)))
  {
    ReachableIsSafe(p, s);
    ReachableAgrees(p, s);
  }

  /** An entry's interface, while attached to stay, is deleted with the instance
      exactly when the ensure that recorded it made it, or found it so. */
  lemma EntryDiesWithInstanceExactlyWhen(p: Setup, s: Node, k: string)
    requires Reachable(p, s) && k in s.state && Steady(p.me, s.ec2, s.state[k].eniId)
    ensures RecordedBy(s.handled, k) >= 0
    ensures DeletedWithInstance(s.ec2, s.state[k].eniId) <==> Dies(s.handled[RecordedBy(s.handled, k)].outcome.found)
  {
    ReachableAgrees(p, s);
  }

  predicate OneName(accepted: seq<Job>, podUid: string) {
    forall i, j | 0 <= i < |accepted| && 0 <= j < |accepted| && accepted[i].Uid() == podUid == accepted[j].Uid() ::
      accepted[i].InterfaceName() == accepted[j].InterfaceName()
  }

  lemma {:induction false} ReleasedKeyIsGone(history: seq<Handled>, k: string, j: int)
    requires AllSound(history) && k in Replay(history)
    requires RecordedBy(history, k) < j < |history| && history[j].outcome.Released?
    ensures KeyOf(history[j].job) != k
  {
    if j < |history| - 1 {
      ReleasedKeyIsGone(history[..|history| - 1], k, j);
    }
  }

  lemma HandledIsAccepted(p: Setup, s: Node, i: int)
    requires Conserved(p, s) && 0 <= i < |s.handled|
    ensures i < |s.accepted| && s.accepted[i] == s.handled[i].job
  {
    JobsAt(s.handled, i);
  }

  lemma SameNameWhenOneName(p: Setup, s: Node, i: int, j: int)
    requires Conserved(p, s) && 0 <= i < |s.handled| && 0 <= j < |s.handled|
    requires s.handled[i].job.Uid() == s.handled[j].job.Uid() && OneName(s.accepted, s.handled[i].job.Uid())
    ensures KeyOf(s.handled[i].job) == KeyOf(s.handled[j].job)
  {
    HandledIsAccepted(p, s, i);
    HandledIsAccepted(p, s, j);
  }

  lemma OneNameIsNotReleasedBy(p: Setup, s: Node, k: string, j: int)
    requires Conserved(p, s) && AllSound(s.handled) && k in Replay(s.handled)
    requires OneName(s.accepted, Replay(s.handled)[k].podUid) && RecordedBy(s.handled, k) < j < |s.handled|
    ensures !s.handled[j].Releases(Replay(s.handled)[k].podUid)
  {
    EntryIsRecorded(s.handled, k);
    if s.handled[j].Releases(Replay(s.handled)[k].podUid) {
      SameNameWhenOneName(p, s, RecordedBy(s.handled, k), j);
      ReleasedKeyIsGone(s.handled, k, j);
    }
  }

  /** As long as a pod uses one interface name, no release of it has succeeded
      since any entry of it was recorded. */
  lemma OneNameIsNotReleased(p: Setup, s: Node, k: string)
    requires Reachable(p, s) && k in s.state && OneName(s.accepted, s.state[k].podUid)
    ensures !PodReleasedSince(s.handled, RecordedBy(s.handled, k) + 1, s.state[k].podUid)
  {
    ReachableIsConserved(p, s);
    forall j | RecordedBy(s.handled, k) + 1 <= j < |s.handled|
      ensures !s.handled[j].Releases(s.state[k].podUid)
    {
      OneNameIsNotReleasedBy(p, s, k, j);
    }
  }

  // ---- over a run -----------------------------------------------------------------

  /** What EC2 backs it goes on backing, over restarts too, as long as no release
      of the pod is at work. */
  lemma {:induction false} RunKeepsBacked(p: Setup, run: seq<Node>, acts: seq<Action>, st: InterfaceState, i: nat)
    requires Run(p, run, acts) && Safe(p, run[0]) && Backs(p.me, run[0].ec2, st) && i < |run|
    requires forall j :: 0 <= j < i ==> !MidRelease(run[j].worker, st.podUid)
    ensures Safe(p, run[i]) && Backs(p.me, run[i].ec2, st)
  {
    if i > 0 {
      RunKeepsBacked(p, run, acts, st, i - 1);
      var s, a, s' := run[i - 1], acts[i - 1], run[i];
      StepKeepsSafe(p, s, a, s');
      if a.Exchange? {
        ExchangeKeepsSteady(p, s, a.response, s', st.podUid, st.eniId);
      } else if a.Elsewhere? {
        ElsewhereKeepsSteady(p.me, s.ec2, s'.ec2, st.eniId, TagOf(st.podUid));
      }
    }
  }
}
