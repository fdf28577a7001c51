/** What every reachable state of a node satisfies about attachments: at most one
    interface per pod is attached, and only detached interfaces are deleted. */
module NodeSafety {
  import opened Common
  import opened Ec2Model
  import opened JobProgram
  import opened AgentState
  import opened NodeMachine

  /** At most one interface per tag is attached here, detaching ones included. */
  predicate UniqueHolders(me: string, e: Ec2) {
    forall a, b | a in e.enis && b in e.enis && Attached(me, e, a) && Attached(me, e, b) ::
      e.enis[a].tag.Some? && e.enis[a].tag == e.enis[b].tag ==> a == b
  }

  /** The interface still has what the view showed. */
  predicate Covers(v: View, n: Eni) {
    v.mac == n.mac && Addresses(v.ipv4) <= n.Ipv4() && Elements(v.ipv6) <= n.ipv6
  }

  predicate OursTagged(e: Ec2, tag: string, id: EniId) {
    id in e.ours && (id in e.enis ==> Tagged(e, id, tag))
  }

  predicate Detached(e: Ec2, id: EniId) {
    id in e.enis ==> e.enis[id].attachment.None?
  }

  /** A release's lookup returned `v`: no other interface of the pod is attached. */
  predicate Found(me: string, e: Ec2, tag: string, v: View) {
    && OursTagged(e, tag, v.id) && OnlyHolder(me, e, tag, v.id)
    && v.attachment.Some? && v.attachment.value.id.eni == v.id
  }

  /** What EC2 satisfies while the worker is at `pc` of `job`. */
  predicate PcInv(me: string, e: Ec2, job: Job, pc: Pc) {
    && Fits(job, pc)
    && match pc
       case EFind | RFind => true
       case EInstance | EType(_) | ECreate(_) => NoHolder(me, e, job.Tag())
       case EAttach(_, v) =>
         && NoHolder(me, e, job.Tag()) && OursTagged(e, job.Tag(), v.id) && Detached(e, v.id)
         && (v.id in e.enis ==> Covers(v, e.enis[v.id]))
       case EModify(v, _) =>
         && OursTagged(e, job.Tag(), v.id) && Steady(me, e, v.id) && Covers(v, e.enis[v.id])
       case EAssign4(v, _) =>
         OursTagged(e, job.Tag(), v.id) && (v.id in e.enis ==> Covers(v, e.enis[v.id]))
       case EAssign6(v, _) =>
         OursTagged(e, job.Tag(), v.id) && (v.id in e.enis ==> Covers(v, e.enis[v.id]))
       case RUnassign4(v) => Found(me, e, job.Tag(), v)
       case RUnassign6(v) => Found(me, e, job.Tag(), v)
       case RDetach(v) => Found(me, e, job.Tag(), v)
       case RPoll(v) => Found(me, e, job.Tag(), v)
       case RDelete(v) => Found(me, e, job.Tag(), v) && Detached(e, v.id)
       case Finished(Ensured(res, _)) => res.ipv4 == job.sync.ipv4 && res.ipv6 == job.sync.ipv6
       case Finished(Released) => NoHolder(me, e, job.Tag())
       case Finished(_) => true
  }

  predicate Safe(p: Setup, s: Node) {
    && Wf(p.me, s.ec2) && UniqueHolders(p.me, s.ec2)
    && (s.worker.Busy? ==> PcInv(p.me, s.ec2, s.worker.job, s.worker.pc))
  }

  // ---- who can become a holder ----------------------------------------------

  /** Only a successful attach makes an interface a holder. */
  lemma ExecutesHolders(me: string, e: Ec2, c: Call, r: Response, e': Ec2, id: EniId, tag: string)
    requires Wf(me, e) && Executes(me, e, c, r, e') && Holder(me, e', tag, id)
    ensures Holder(me, e, tag, id) || (c.Attach? && id == c.id && Tagged(e, id, tag))
  {
  }

  /** Nothing that happens elsewhere makes a tagged interface a holder. */
  lemma EnvironmentHolders(me: string, e: Ec2, e': Ec2, id: EniId, tag: string)
    requires Wf(me, e) && Environment(me, e, e') && Holder(me, e', tag, id)
    ensures Holder(me, e, tag, id) && e'.enis[id] == e.enis[id]
  {
    assert id in e'.ours;
  }

  lemma NoHolderStays(me: string, e: Ec2, c: Call, r: Response, e': Ec2, tag: string)
    requires Wf(me, e) && Executes(me, e, c, r, e')
    requires c.Attach? ==> !Tagged(e, c.id, tag)
    ensures NoHolder(me, e, tag) ==> NoHolder(me, e', tag)
    ensures forall x :: OnlyHolder(me, e, tag, x) ==> OnlyHolder(me, e', tag, x)
  {
    forall id | id in e'.enis && Holder(me, e', tag, id)
      ensures Holder(me, e, tag, id)
    {
      ExecutesHolders(me, e, c, r, e', id, tag);
    }
  }

  lemma NoHolderStaysElsewhere(me: string, e: Ec2, e': Ec2, tag: string)
    requires Wf(me, e) && Environment(me, e, e')
    ensures NoHolder(me, e, tag) ==> NoHolder(me, e', tag)
    ensures forall x :: OnlyHolder(me, e, tag, x) ==> OnlyHolder(me, e', tag, x)
  {
    forall id | id in e'.enis && Holder(me, e', tag, id)
      ensures Holder(me, e, tag, id)
    {
      EnvironmentHolders(me, e, e', id, tag);
    }
  }

  // ---- uniqueness -----------------------------------------------------------

  lemma EnvironmentKeepsUnique(me: string, e: Ec2, e': Ec2)
    requires Wf(me, e) && UniqueHolders(me, e) && Environment(me, e, e')
    ensures UniqueHolders(me, e')
  {
    forall a, b | a in e'.enis && b in e'.enis && Attached(me, e', a) && Attached(me, e', b)
      && e'.enis[a].tag.Some? && e'.enis[a].tag == e'.enis[b].tag
      ensures a == b
    {
      EnvironmentHolders(me, e, e', a, e'.enis[a].tag.value);
      EnvironmentHolders(me, e, e', b, e'.enis[a].tag.value);
    }
  }

  lemma ExchangeKeepsUnique(me: string, e: Ec2, job: Job, pc: Pc, r: Response, e': Ec2)
    requires Wf(me, e) && UniqueHolders(me, e) && PcInv(me, e, job, pc)
    requires NextCall(job, pc).Some? && Executes(me, e, NextCall(job, pc).value, r, e')
    ensures UniqueHolders(me, e')
  {
    var c := NextCall(job, pc).value;
    forall a, b | a in e'.enis && b in e'.enis && Attached(me, e', a) && Attached(me, e', b)
      && e'.enis[a].tag.Some? && e'.enis[a].tag == e'.enis[b].tag
      ensures a == b
    {
      var tag := e'.enis[a].tag.value;
      ExecutesHolders(me, e, c, r, e', a, tag);
      ExecutesHolders(me, e, c, r, e', b, tag);
    }
  }

  // ---- the program counter's facts ------------------------------------------

  lemma EnvironmentKeepsPc(me: string, e: Ec2, e': Ec2, job: Job, pc: Pc)
    requires Wf(me, e) && PcInv(me, e, job, pc) && Environment(me, e, e')
    ensures PcInv(me, e', job, pc)
  {
    NoHolderStaysElsewhere(me, e, e', job.Tag());
  }

  /** A lookup that finds something finds the pod's one holder. */
  lemma LookupFindsHolder(me: string, e: Ec2, tag: string, vs: seq<View>)
    requires Wf(me, e) && UniqueHolders(me, e) && Lists(me, e, tag, vs)
    ensures vs == [] <==> NoHolder(me, e, tag)
    ensures vs != [] ==>
      && Holder(me, e, tag, vs[0].id) && vs[0].id in e.ours && OnlyHolder(me, e, tag, vs[0].id)
      && Shows(vs[0], vs[0].id, e.enis[vs[0].id]) && vs[0].attachment.Some?
  {
    if vs != [] {
      assert vs[0] in vs;
    }
  }

  lemma LookupKeepsPc(me: string, e: Ec2, job: Job, pc: Pc, r: Response, e': Ec2)
    requires Wf(me, e) && UniqueHolders(me, e) && (pc.EFind? || pc.RFind?) && Fits(job, pc)
    requires Executes(me, e, FindByTag(job.Tag()), r, e')
    ensures PcInv(me, e', job, After(job, pc, r))
  {
    if r.Listed? {
      LookupFindsHolder(me, e, job.Tag(), r.enis);
    }
  }

  lemma EnsureKeepsPc(me: string, e: Ec2, job: Job, pc: Pc, r: Response, e': Ec2)
    requires Wf(me, e) && PcInv(me, e, job, pc) && job.EnsureJob? && !pc.EFind? && !pc.Finished?
    requires Executes(me, e, NextCall(job, pc).value, r, e')
    ensures PcInv(me, e', job, After(job, pc, r))
  {
    if !pc.EAttach? {
      NoHolderStays(me, e, NextCall(job, pc).value, r, e', job.Tag());
    }
  }

  lemma ReleaseKeepsPc(me: string, e: Ec2, job: Job, pc: Pc, r: Response, e': Ec2)
    requires Wf(me, e) && PcInv(me, e, job, pc) && job.ReleaseJob? && !pc.RFind? && !pc.Finished?
    requires NextCall(job, pc).Some? && Executes(me, e, NextCall(job, pc).value, r, e')
    ensures PcInv(me, e', job, After(job, pc, r))
  {
    NoHolderStays(me, e, NextCall(job, pc).value, r, e', job.Tag());
  }

  lemma ExchangeKeepsPc(me: string, e: Ec2, job: Job, pc: Pc, r: Response, e': Ec2)
    requires Wf(me, e) && UniqueHolders(me, e) && PcInv(me, e, job, pc)
    requires NextCall(job, pc).Some? && Executes(me, e, NextCall(job, pc).value, r, e')
    ensures PcInv(me, e', job, After(job, pc, r))
  {
    if pc.EFind? || pc.RFind? {
      LookupKeepsPc(me, e, job, pc, r, e');
    } else if job.EnsureJob? {
      EnsureKeepsPc(me, e, job, pc, r, e');
    } else {
      ReleaseKeepsPc(me, e, job, pc, r, e');
    }
  }

  // ---- every reachable state ------------------------------------------------

  lemma StepKeepsSafe(p: Setup, s: Node, a: Action, s': Node)
    requires Safe(p, s) && Step(p, s, a, s')
    ensures Safe(p, s')
  {
    match a
    case Exchange(r) =>
      var job, pc := s.worker.job, s.worker.pc;
      ExecutesKeepsWf(p.me, s.ec2, NextCall(job, pc).value, r, s'.ec2);
      ExchangeKeepsUnique(p.me, s.ec2, job, pc, r, s'.ec2);
      ExchangeKeepsPc(p.me, s.ec2, job, pc, r, s'.ec2);
    case Elsewhere =>
      EnvironmentKeepsUnique(p.me, s.ec2, s'.ec2);
      if s.worker.Busy? {
        EnvironmentKeepsPc(p.me, s.ec2, s'.ec2, s.worker.job, s.worker.pc);
      }
    case Offer(_) =>
    case BumpDepth =>
    case Take =>
    case Begin =>
    case GiveUp =>
    case Settle =>
    case Crash =>
  }

  lemma {:induction false} RunStaysSafe(p: Setup, run: seq<Node>, acts: seq<Action>, i: nat)
    requires RunFromStart(p, run, acts) && i < |run|
    ensures Safe(p, run[i])
  {
    if i > 0 {
      RunStaysSafe(p, run, acts, i - 1);
      StepKeepsSafe(p, run[i - 1], acts[i - 1], run[i]);
    } else {
      forall id | id in run[0].ec2.enis && Attached(p.me, run[0].ec2, id)
        ensures run[0].ec2.enis[id].tag.None?
      {
      }
    }
  }

  lemma ReachableIsSafe(p: Setup, s: Node)
    requires Reachable(p, s)
    ensures Safe(p, s)
  {
    var run, acts :| RunFromStart(p, run, acts) && run[|run| - 1] == s;
    RunStaysSafe(p, run, acts, |run| - 1);
  }

  /** Whatever fails or crashes when, at most one interface of a pod is attached
      to this instance. */
  lemma OneInterfacePerPod(p: Setup, s: Node, uid: string, a: EniId, b: EniId)
    requires Reachable(p, s) && Holder(p.me, s.ec2, TagOf(uid), a) && Holder(p.me, s.ec2, TagOf(uid), b)
    ensures a == b
  {
    ReachableIsSafe(p, s);
  }

  /** Whenever the worker is about to delete, the interface is one the agent
      created for that pod, and it is not attached. */
  lemma DeleteHitsDetached(p: Setup, s: Node, id: EniId)
    requires Reachable(p, s) && s.worker.Busy? && Fits(s.worker.job, s.worker.pc)
    requires NextCall(s.worker.job, s.worker.pc) == Some(Delete(id))
    ensures id in s.ec2.ours
    ensures id in s.ec2.enis ==> Tagged(s.ec2, id, s.worker.job.Tag()) && s.ec2.enis[id].attachment.None?
  {
    ReachableIsSafe(p, s);
  }
}
