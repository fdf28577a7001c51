/** The record of one job's EC2 calls, and what every record that follows the
    program counter looks like. */
module JobTrace {
  import opened Common
  import opened Ec2Model
  import opened JobProgram
  import opened AgentState
  import opened NodeMachine
  import opened NodeSafety

  /** One call: EC2 just before it, the answer, EC2 just after it. */
  datatype Record = Record(before: Ec2, call: Call, response: Response, after: Ec2)

  function PcAfter(job: Job, trace: seq<Record>): (pc: Pc)
    ensures Fits(job, pc)
  {
    if trace == [] then Start(job)
    else After(job, PcAfter(job, trace[..|trace| - 1]), trace[|trace| - 1].response)
  }

  function End(start: Ec2, trace: seq<Record>): Ec2 {
    if trace == [] then start else trace[|trace| - 1].after
  }

  /** Each call is the one the program counter asks for and is answered by EC2;
      between two calls anything may happen elsewhere. */
  predicate Runs(me: string, job: Job, start: Ec2, trace: seq<Record>) {
    trace == [] ||
    var init, x := trace[..|trace| - 1], trace[|trace| - 1];
    && Runs(me, job, start, init)
    && NextCall(job, PcAfter(job, init)) == Some(x.call)
    && Environment(me, End(start, init), x.before)
    && Executes(me, x.before, x.call, x.response, x.after)
  }

  lemma {:induction false} RunsTake(me: string, job: Job, start: Ec2, trace: seq<Record>, n: nat)
    requires Runs(me, job, start, trace) && n <= |trace|
    ensures Runs(me, job, start, trace[..n])
  {
    if n == |trace| {
      assert trace[..n] == trace;
    } else {
      var init := trace[..|trace| - 1];
      RunsTake(me, job, start, init, n);
      assert init[..n] == trace[..n];
    }
  }

  lemma RunsPrefix(me: string, job: Job, start: Ec2, trace: seq<Record>, n: nat)
    requires Runs(me, job, start, trace) && n <= |trace|
    ensures Runs(me, job, start, trace[..n])
    ensures n < |trace| ==>
      && NextCall(job, PcAfter(job, trace[..n])) == Some(trace[n].call)
      && PcAfter(job, trace[..n + 1]) == After(job, PcAfter(job, trace[..n]), trace[n].response)
      && Environment(me, End(start, trace[..n]), trace[n].before)
      && Executes(me, trace[n].before, trace[n].call, trace[n].response, trace[n].after)
  {
    RunsTake(me, job, start, trace, n);
    if n < |trace| {
      RunsTake(me, job, start, trace, n + 1);
      var t := trace[..n + 1];
      assert t[..|t| - 1] == trace[..n] && t[|t| - 1] == trace[n];
    }
  }

  lemma RunsSnoc(me: string, job: Job, start: Ec2, trace: seq<Record>, x: Record)
    requires Runs(me, job, start, trace)
    requires NextCall(job, PcAfter(job, trace)) == Some(x.call)
    requires Environment(me, End(start, trace), x.before) && Executes(me, x.before, x.call, x.response, x.after)
    ensures Runs(me, job, start, trace + [x])
    ensures PcAfter(job, trace + [x]) == After(job, PcAfter(job, trace), x.response)
    ensures End(start, trace + [x]) == x.after
  {
    assert (trace + [x])[..|trace|] == trace;
  }

  /** Every call that names a tag names that of the job's pod. */
  predicate TagsPod(trace: seq<Record>, uid: string) {
    forall x :: x in trace ==>
      && (x.call.FindByTag? ==> x.call.tag == "multivpc-" + uid)
      && (x.call.Create? ==> x.call.newTag == "multivpc-" + uid)
  }

  lemma {:induction false} CallsTagPod(me: string, job: Job, start: Ec2, trace: seq<Record>)
    requires Runs(me, job, start, trace)
    ensures TagsPod(trace, job.Uid())
    ensures trace != [] ==> trace[0].call == FindByTag("multivpc-" + job.Uid())
  {
    if trace != [] {
      var init, x := trace[..|trace| - 1], trace[|trace| - 1];
      CallsTagPod(me, job, start, init);
      assert init + [x] == trace;
      CallTagsPod(job, PcAfter(job, init), x.call);
      if init != [] {
        assert trace[0] == init[0];
      }
    }
  }

  lemma CallTagsPod(job: Job, pc: Pc, c: Call)
    requires Fits(job, pc) && NextCall(job, pc) == Some(c)
    ensures c.FindByTag? ==> c.tag == "multivpc-" + job.Uid()
    ensures c.Create? ==> c.newTag == "multivpc-" + job.Uid()
  {
  }

  // ---- the record of a release -------------------------------------------------

  function Mutations(trace: seq<Record>): seq<Call> {
    if trace == [] then []
    else
      var rest := Mutations(trace[..|trace| - 1]);
      var call := trace[|trace| - 1].call;
      if call.Mutates() then rest + [call] else rest
  }

  function UnassignPlan(v: View): seq<Call> {
    (if NonPrimary(v.ipv4) != [] then [UnassignIpv4(v.id, NonPrimary(v.ipv4))] else [])
    + (if v.ipv6 != [] then [UnassignIpv6(v.id, v.ipv6)] else [])
  }

  /** Everything a release of the interface in `v` may do to EC2, in order. */
  function ReleasePlan(v: View): seq<Call>
    requires v.attachment.Some?
  {
    UnassignPlan(v) + [Detach(v.attachment.value.id), Delete(v.id)]
  }

  /** What the release has done by the time it is at `pc`, given its lookup found `v`. */
  predicate DoneBy(pc: Pc, v: View, done: seq<Call>)
    requires v.attachment.Some?
  {
    match pc
    case RUnassign4(w) => w == v && NonPrimary(v.ipv4) != [] && done == []
    case RUnassign6(w) => w == v && v.ipv6 != [] && done + [UnassignIpv6(v.id, v.ipv6)] == UnassignPlan(v)
    case RDetach(w) => w == v && done == UnassignPlan(v)
    case RPoll(w) => w == v && done == UnassignPlan(v) + [Detach(v.attachment.value.id)]
    case RDelete(w) => w == v && done == UnassignPlan(v) + [Detach(v.attachment.value.id)]
    case Finished(Released) => done == ReleasePlan(v)
    case Finished(_) => done <= ReleasePlan(v)
    case _ => false
  }

  /** The interface a job's lookup returned, if it returned one. */
  function LookedUp(trace: seq<Record>): (v: Option<View>)
    ensures v.Some? ==> v.value.attachment.Some?
  {
    if trace != [] && trace[0].response.Listed? && trace[0].response.enis != []
      && trace[0].response.enis[0].attachment.Some?
    then Some(trace[0].response.enis[0]) else None
  }

  lemma DoneByStep(job: Job, pc: Pc, r: Response, v: View, done: seq<Call>)
    requires job.ReleaseJob? && Fits(job, pc) && v.attachment.Some? && DoneBy(pc, v, done)
    requires NextCall(job, pc).Some?
    ensures var c := NextCall(job, pc).value;
            DoneBy(After(job, pc, r), v, if c.Mutates() then done + [c] else done)
  {
    assert UnassignPlan(v) + [Detach(v.attachment.value.id)] + [Delete(v.id)] == ReleasePlan(v);
    assert UnassignPlan(v) <= ReleasePlan(v);
  }

  lemma {:induction false} ReleaseDoneBy(me: string, job: Job, start: Ec2, trace: seq<Record>)
    requires job.ReleaseJob? && Runs(me, job, start, trace)
    ensures LookedUp(trace).Some? ==> DoneBy(PcAfter(job, trace), LookedUp(trace).value, Mutations(trace))
    ensures LookedUp(trace).None? ==> Mutations(trace) == [] && (trace == [] || PcAfter(job, trace).Finished?)
  {
    if trace != [] {
      var init, last := trace[..|trace| - 1], trace[|trace| - 1];
      ReleaseDoneBy(me, job, start, init);
      if init != [] {
        assert LookedUp(init) == LookedUp(trace);
        if LookedUp(trace).Some? {
          DoneByStep(job, PcAfter(job, init), last.response, LookedUp(trace).value, Mutations(init));
        }
      }
    }
  }

  /** The mutating calls of a release are always a prefix of the plan for the
      interface its lookup returned: unassign IPv4, unassign IPv6 (each only if
      there is something to unassign), detach, delete.  All of the plan if the
      release succeeds; nothing at all if the lookup returned nothing. */
  lemma ReleaseFollowsPlan(me: string, job: Job, start: Ec2, trace: seq<Record>)
    requires job.ReleaseJob? && Runs(me, job, start, trace)
    ensures match LookedUp(trace)
      case Some(v) =>
        && Mutations(trace) <= ReleasePlan(v)
        && (PcAfter(job, trace) == Finished(Released) ==> Mutations(trace) == ReleasePlan(v))
      case None => Mutations(trace) == []
  {
    ReleaseDoneBy(me, job, start, trace);
    if LookedUp(trace).Some? {
      var v := LookedUp(trace).value;
      assert ReleasePlan(v) == UnassignPlan(v) + [Detach(v.attachment.value.id)] + [Delete(v.id)];
      if PcAfter(job, trace).RUnassign6? {
        assert Mutations(trace) <= UnassignPlan(v);
      }
    }
  }

  /** The answer shows the interface gone, unattached or available. */
  predicate ShowsDetached(r: Response) {
    r.Listed? && (r.enis == [] || r.enis[0].attachment.None? || r.enis[0].available)
  }

  /** Only a poll whose answer shows the interface detached leads to its delete. */
  lemma OnlyPollLeadsToDelete(job: Job, pc: Pc, r: Response, call: Call)
    requires Fits(job, pc) && NextCall(job, pc).Some?
    requires call.Delete? && NextCall(job, After(job, pc, r)) == Some(call)
    ensures NextCall(job, pc) == Some(DescribeEni(call.id)) && ShowsDetached(r)
  {
  }

  /** The call right before a delete is a poll of the same interface that saw it
      detached. */
  lemma PollPrecedesDelete(me: string, job: Job, start: Ec2, trace: seq<Record>, d: nat)
    requires Runs(me, job, start, trace) && d < |trace| && trace[d].call.Delete?
    ensures d > 0 && trace[d - 1].call == DescribeEni(trace[d].call.id) && ShowsDetached(trace[d - 1].response)
  {
    RunsPrefix(me, job, start, trace, d);
    if d > 0 {
      RunsPrefix(me, job, start, trace, d - 1);
      assert trace[..d - 1 + 1] == trace[..d];
      OnlyPollLeadsToDelete(job, PcAfter(job, trace[..d - 1]), trace[d - 1].response, trace[d].call);
    }
  }

  /** From the n-th call on the record only polls the interface, in vain. */
  predicate PollsInVain(trace: seq<Record>, n: nat, id: EniId) {
    forall i :: n <= i < |trace| ==> trace[i].call == DescribeEni(id) && !ShowsDetached(trace[i].response)
  }

  lemma PollsInVainSnoc(trace: seq<Record>, x: Record, n: nat, id: EniId)
    requires PollsInVain(trace, n, id) && x.call == DescribeEni(id) && !ShowsDetached(x.response)
    ensures PollsInVain(trace + [x], n, id)
  {
  }

  /** A release comes to its polls by a detach or a poll in vain, and polls nothing
      before. */
  lemma OnlyDetachLeadsToPolls(job: Job, pc: Pc, r: Response)
    requires job.ReleaseJob? && Fits(job, pc) && NextCall(job, pc).Some?
    ensures var c, pc' := NextCall(job, pc).value, After(job, pc, r);
      && (BeforePolls(pc') ==> BeforePolls(pc) && !c.DescribeEni?)
      && (pc'.RPoll? ==> (BeforePolls(pc) && !c.DescribeEni?) || (pc.RPoll? && !ShowsDetached(r)))
  {
  }

  predicate BeforePolls(pc: Pc) {
    pc.RFind? || pc.RUnassign4? || pc.RUnassign6? || pc.RDetach?
  }

  /** No poll in the record shows its interface detached. */
  predicate NoneShowsDetached(trace: seq<Record>) {
    forall x :: x in trace && x.call.DescribeEni? ==> !ShowsDetached(x.response)
  }

  lemma NoneShowsDetachedSnoc(trace: seq<Record>, x: Record)
    requires NoneShowsDetached(trace) && (x.call.DescribeEni? ==> !ShowsDetached(x.response))
    ensures NoneShowsDetached(trace + [x])
  {
  }

  /** Until a poll shows the interface detached, none before it did. */
  lemma {:induction false} PollsShowAttached(me: string, job: Job, start: Ec2, trace: seq<Record>)
    requires Runs(me, job, start, trace) && job.ReleaseJob?
    requires BeforePolls(PcAfter(job, trace)) || PcAfter(job, trace).RPoll?
    ensures NoneShowsDetached(trace)
  {
    if trace != [] {
      var init, x := trace[..|trace| - 1], trace[|trace| - 1];
      OnlyDetachLeadsToPolls(job, PcAfter(job, init), x.response);
      PollsShowAttached(me, job, start, init);
      NoneShowsDetachedSnoc(init, x);
      assert init + [x] == trace;
    }
  }

  /** A release fails only if its last call did, or if it gave up waiting. */
  lemma ReleaseFailsOnlyWhen(me: string, job: Job, start: Ec2, trace: seq<Record>)
    requires Runs(me, job, start, trace) && job.ReleaseJob?
    requires PcAfter(job, trace).Finished? && PcAfter(job, trace).outcome.JobFailed?
    ensures trace != [] && trace[|trace| - 1].response.Failed?
  {
    var init, x := trace[..|trace| - 1], trace[|trace| - 1];
    FailureIsAnswered(me, x.before, job, PcAfter(job, init), x.response, x.after);
  }

  lemma FailureIsAnswered(me: string, e: Ec2, job: Job, pc: Pc, r: Response, e': Ec2)
    requires job.ReleaseJob? && Fits(job, pc) && NextCall(job, pc).Some?
    requires Executes(me, e, NextCall(job, pc).value, r, e')
    requires After(job, pc, r).Finished? && After(job, pc, r).outcome.JobFailed?
    ensures r.Failed?
  {
  }

  // ---- the device index of an ensure ----------------------------------------------

  /** Nobody else has attached anything at a new index between two calls. */
  predicate NoForeignAttach(me: string, start: Ec2, trace: seq<Record>) {
    forall i :: 0 <= i < |trace| ==>
      IndexesInUse(me, trace[i].before) <= IndexesInUse(me, End(start, trace[..i]))
  }

  lemma OnlyAttachTakesIndex(me: string, e: Ec2, c: Call, r: Response, e': Ec2)
    requires Executes(me, e, c, r, e') && !c.Attach?
    ensures IndexesInUse(me, e') <= IndexesInUse(me, e)
  {
    forall id | id in e'.enis && Attached(me, e', id)
      ensures e'.enis[id].attachment.value.index in IndexesInUse(me, e)
    {
      assert Attached(me, e, id) && e.enis[id].attachment.value.index == e'.enis[id].attachment.value.index;
    }
  }

  predicate IndexFree(me: string, e: Ec2, pc: Pc) {
    match pc
    case EType(used) => IndexesInUse(me, e) <= used
    case ECreate(index) => index >= 1 && index !in IndexesInUse(me, e)
    case EAttach(index, _) => index >= 1 && index !in IndexesInUse(me, e)
    case _ => true
  }

  lemma ChosenIndexIsFree(me: string, e: Ec2, used: set<int>, max: Option<int>)
    requires IndexesInUse(me, e) <= used
    ensures IndexFree(me, e, ToCreate(used, max))
  {
    FirstFreeIsLeast(used, 1, InterfaceLimit(max));
  }

  lemma ExchangeKeepsIndexFree(me: string, e: Ec2, job: Job, pc: Pc, r: Response, e': Ec2)
    requires Fits(job, pc) && NextCall(job, pc).Some? && Executes(me, e, NextCall(job, pc).value, r, e')
    requires IndexFree(me, e, pc)
    ensures IndexFree(me, e', After(job, pc, r))
  {
    match pc
    case EInstance =>
      if r.Instance? && r.found.Some? && !r.found.value.typed {
        ChosenIndexIsFree(me, e', UsedIndexes(r.found.value.indexes), None);
      }
    case EType(used) => ChosenIndexIsFree(me, e', used, if r.InstanceType? then r.max else None);
    case ECreate(_) => OnlyAttachTakesIndex(me, e, NextCall(job, pc).value, r, e');
    case _ =>
  }

  /** The index an ensure settled on is still free when it attaches, unless somebody
      else has attached an interface meanwhile. */
  lemma {:induction false} IndexStaysFree(me: string, job: Job, start: Ec2, trace: seq<Record>)
    requires Runs(me, job, start, trace) && NoForeignAttach(me, start, trace)
    ensures IndexFree(me, End(start, trace), PcAfter(job, trace))
  {
    if trace != [] {
      var init, x := trace[..|trace| - 1], trace[|trace| - 1];
      assert forall i :: 0 <= i < |init| ==> init[i] == trace[i] && init[..i] == trace[..i];
      IndexStaysFree(me, job, start, init);
      assert IndexesInUse(me, x.before) <= IndexesInUse(me, End(start, init));
      ExchangeKeepsIndexFree(me, x.before, job, PcAfter(job, init), x.response, x.after);
    }
  }

  // ---- a record is a run of the machine -------------------------------------------

  /** From a reachable state in which the worker has just begun a job, every
      linked record that follows the program counter leads, by calls and steps
      elsewhere only, to a reachable state. */
  lemma {:induction false} TraceIsRun(p: Setup, s: Node, job: Job, trace: seq<Record>)
    requires Reachable(p, s) && s.worker == Busy(job, Start(job))
    requires Runs(p.me, job, s.ec2, trace)
    ensures Reachable(p, s.(ec2 := End(s.ec2, trace), worker := Busy(job, PcAfter(job, trace))))
  {
    if trace == [] {
      assert s.(ec2 := End(s.ec2, trace), worker := Busy(job, PcAfter(job, trace))) == s;
    } else {
      var init, x := trace[..|trace| - 1], trace[|trace| - 1];
      TraceIsRun(p, s, job, init);
      var a := s.(ec2 := End(s.ec2, init), worker := Busy(job, PcAfter(job, init)));
      var b := a.(ec2 := x.before);
      var c := a.(ec2 := x.after, worker := Busy(job, PcAfter(job, trace)));
      ReachableStep(p, a, Elsewhere, b);
      ReachableStep(p, b, Exchange(x.response), c);
    }
  }

  /** Every delete a record contains hits an interface that is not attached. */
  lemma DeletesAreSafe(p: Setup, s: Node, job: Job, trace: seq<Record>, d: nat)
    requires Reachable(p, s) && s.worker == Busy(job, Start(job))
    requires Runs(p.me, job, s.ec2, trace)
    requires d < |trace| && trace[d].call.Delete?
    ensures Detached(trace[d].before, trace[d].call.id)
  {
    var t := trace[..d];
    RunsPrefix(p.me, job, s.ec2, trace, d);
    TraceIsRun(p, s, job, t);
    var a := s.(ec2 := End(s.ec2, t), worker := Busy(job, PcAfter(job, t)));
    var b := a.(ec2 := trace[d].before);
    ReachableStep(p, a, Elsewhere, b);
    DeleteHitsDetached(p, b, trace[d].call.id);
  }
}
