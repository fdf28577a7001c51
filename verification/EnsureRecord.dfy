/** What the record of an ensure says about how it ended: the answer to its lookup
    decides. */
module EnsureRecord {
  import opened Common
  import opened Ec2Model
  import opened JobProgram
  import opened AgentState
  import opened NodeMachine
  import opened NodeSafety
  import opened NodeAgreement
  import opened JobTrace

  /** The attachment the lookup showed, if it returned an interface. */
  function FoundBy(v: Option<View>): Option<Attachment> {
    if v.Some? then v.value.attachment else None
  }

  /** The interface an ensure goes on with is the one its lookup returned, or one it
      created and has not seen attached. */
  predicate GoesOnWithFound(pc: Pc, v: Option<View>) {
    match pc
    case EAttach(_, w) => v.None? && w.attachment.None?
    case EModify(w, _) => v.None? && w.attachment.None?
    case EAssign4(w, _) => if v.Some? then w == v.value else w.attachment.None?
    case EAssign6(w, _) => if v.Some? then w == v.value else w.attachment.None?
    case Finished(Ensured(res, found)) => found == FoundBy(v) && (v.Some? ==> res.eniId == v.value.id)
    case Finished(_) => true
    case _ => v.None?
  }

  lemma ExchangeGoesOnWithFound(me: string, e: Ec2, job: Job, pc: Pc, r: Response, e': Ec2, v: Option<View>)
    requires job.EnsureJob? && Fits(job, pc) && !pc.EFind? && NextCall(job, pc).Some?
    requires Executes(me, e, NextCall(job, pc).value, r, e') && GoesOnWithFound(pc, v)
    ensures GoesOnWithFound(After(job, pc, r), v)
  {
  }

  lemma {:induction false} EnsureGoesOnWithFound(me: string, job: Job, start: Ec2, trace: seq<Record>)
    requires job.EnsureJob? && Runs(me, job, start, trace)
    ensures PcAfter(job, trace).EFind? ==> trace == []
    ensures GoesOnWithFound(PcAfter(job, trace), LookedUp(trace))
  {
    if trace != [] {
      var init, x := trace[..|trace| - 1], trace[|trace| - 1];
      EnsureGoesOnWithFound(me, job, start, init);
      if init != [] {
        assert LookedUp(init) == LookedUp(trace);
        ExchangeGoesOnWithFound(me, x.before, job, PcAfter(job, init), x.response, x.after, LookedUp(trace));
      }
    }
  }

  lemma {:induction false} RecordIsOnTrack(me: string, job: Job, start: Ec2, trace: seq<Record>)
    requires Wf(me, start) && UniqueHolders(me, start) && job.EnsureJob? && Runs(me, job, start, trace)
    ensures Wf(me, End(start, trace)) && UniqueHolders(me, End(start, trace))
    ensures PcInv(me, End(start, trace), job, PcAfter(job, trace))
    ensures OnTrack(me, End(start, trace), job, PcAfter(job, trace))
  {
    if trace != [] {
      var init, x := trace[..|trace| - 1], trace[|trace| - 1];
      var pc := PcAfter(job, init);
      RecordIsOnTrack(me, job, start, init);
      EnvironmentKeepsUnique(me, End(start, init), x.before);
      EnvironmentKeepsPc(me, End(start, init), x.before, job, pc);
      ElsewhereIsOnTrack(me, End(start, init), x.before, job, pc);
      ExecutesKeepsWf(me, x.before, x.call, x.response, x.after);
      ExchangeKeepsUnique(me, x.before, job, pc, x.response, x.after);
      ExchangeKeepsPc(me, x.before, job, pc, x.response, x.after);
      ExchangeIsOnTrack(me, x.before, job, pc, x.response, x.after);
    }
  }

  /** When an ensure succeeds, EC2 backs its result exactly when the lookup returned
      nothing or an interface that was not detaching; and then the interface is
      deleted with the instance exactly when the lookup returned nothing or showed
      it so. */
  lemma EnsureSucceedsAsLookedUp(me: string, job: Job, start: Ec2, trace: seq<Record>)
    requires Wf(me, start) && UniqueHolders(me, start) && job.EnsureJob? && Runs(me, job, start, trace)
    requires PcAfter(job, trace).Finished? && PcAfter(job, trace).outcome.Ensured?
    ensures var res, e, v := PcAfter(job, trace).outcome.result, End(start, trace), LookedUp(trace);
      && (v.Some? ==> res.eniId == v.value.id)
      && (Backs(me, e, Entry(job.sync, res)) <==> v.None? || !v.value.attachment.value.detaching)
      && (Backs(me, e, Entry(job.sync, res)) ==>
            (DeletedWithInstance(e, res.eniId) <==> v.None? || v.value.attachment.value.deleteOnTermination))
  {
    EnsureGoesOnWithFound(me, job, start, trace);
    RecordIsOnTrack(me, job, start, trace);
  }

  // ---- why an ensure fails -------------------------------------------------------

  /** The calls of an ensure up to where it knows the instance. */
  predicate AsDescribed(me: string, pc: Pc, trace: seq<Record>) {
    match pc
    case EFind => trace == []
    case EInstance => |trace| == 1
    case EType(used) =>
      && |trace| == 2 && trace[1].call == DescribeInstance
      && trace[1].response.Instance? && trace[1].response.found.Some?
      && used == IndexesInUse(me, trace[1].before)
    case _ => true
  }

  lemma {:induction false} EnsureDescribes(me: string, job: Job, start: Ec2, trace: seq<Record>)
    requires job.EnsureJob? && Runs(me, job, start, trace)
    ensures AsDescribed(me, PcAfter(job, trace), trace)
  {
    if trace != [] {
      var init, x := trace[..|trace| - 1], trace[|trace| - 1];
      EnsureDescribes(me, job, start, init);
      NextIsDescribed(me, x.before, job, PcAfter(job, init), x.response, x.after);
      assert |trace| == 2 ==> trace[1] == x;
    }
  }

  lemma NextIsDescribed(me: string, e: Ec2, job: Job, pc: Pc, r: Response, e': Ec2)
    requires job.EnsureJob? && Fits(job, pc) && NextCall(job, pc).Some?
    requires Executes(me, e, NextCall(job, pc).value, r, e')
    ensures !After(job, pc, r).EFind?
    ensures After(job, pc, r).EInstance? ==> pc.EFind?
    ensures After(job, pc, r).EType? ==>
      && pc.EInstance? && r.Instance? && r.found.Some? && After(job, pc, r).used == IndexesInUse(me, e)
  {
  }

  /** The least index from 1 up, below the limit, that is not in use, if there is one. */
  predicate IsLeast(index: Option<int>, used: set<int>, limit: int) {
    match index
    case Some(i) => 1 <= i < limit && i !in used && forall j :: 1 <= j < i ==> j in used
    case None => forall j :: 1 <= j < limit ==> j in used
  }

  /** The index for these indexes in use after this last call.  The limit is what the
      call answered about the instance type, but at least 2, and 15 if it answered
      nothing or did not ask. */
  predicate IndexAnswer(index: Option<int>, used: set<int>, last: Record) {
    if last.call.DescribeType? && last.response.InstanceType? && last.response.max.Some?
    then
      && (last.response.max.value >= 2 ==> IsLeast(index, used, last.response.max.value))
      && (last.response.max.value < 2 ==> IsLeast(index, used, 2))
    else IsLeast(index, used, 15)
  }

  predicate Described(trace: seq<Record>) {
    |trace| >= 2 && trace[1].call == DescribeInstance && trace[1].response.Instance? && trace[1].response.found.Some?
  }

  /** The instance was described, and uses every index that the instance type allows. */
  predicate NoIndexLeft(me: string, trace: seq<Record>) {
    Described(trace) && IndexAnswer(None, IndexesInUse(me, trace[1].before), trace[|trace| - 1])
  }

  predicate LastFailed(trace: seq<Record>) {
    trace != [] && trace[|trace| - 1].response.Failed? && !trace[|trace| - 1].call.DescribeType?
  }

  predicate NotDescribed(trace: seq<Record>) {
    && trace != [] && trace[|trace| - 1].response.Instance?
    && trace[|trace| - 1].response.found.None?
  }

  /** An ensure fails only if its profile names no subnet or no security group, its
      last call failed (asking for the instance type may fail), the instance was
      not found, or no device index was left. */
  lemma EnsureFailsOnlyWhen(me: string, job: Job, start: Ec2, trace: seq<Record>)
    requires job.EnsureJob? && Runs(me, job, start, trace)
    requires PcAfter(job, trace).Finished? && PcAfter(job, trace).outcome.JobFailed?
    ensures if job.profile.subnetId == "" || job.profile.securityGroupIds == [] then trace == []
            else LastFailed(trace) || NotDescribed(trace) || NoIndexLeft(me, trace)
  {
    if trace == [] {
    } else {
      var init, x := trace[..|trace| - 1], trace[|trace| - 1];
      EnsureDescribes(me, job, start, init);
      ProfileIsComplete(me, job, start, init);
      if x.call.DescribeInstance? || x.call.DescribeType? {
        IndexIsAsAnswered(me, job, start, trace);
      } else {
        CallFailure(me, job, PcAfter(job, init), x);
      }
    }
  }

  lemma {:induction false} ProfileIsComplete(me: string, job: Job, start: Ec2, trace: seq<Record>)
    requires job.EnsureJob? && Runs(me, job, start, trace)
    ensures job.profile.subnetId == "" || job.profile.securityGroupIds == [] ==> trace == []
  {
    if trace != [] {
      ProfileIsComplete(me, job, start, trace[..|trace| - 1]);
    }
  }

  lemma CallFailure(me: string, job: Job, pc: Pc, x: Record)
    requires job.EnsureJob? && Fits(job, pc) && NextCall(job, pc) == Some(x.call)
    requires !x.call.DescribeInstance? && !x.call.DescribeType?
    requires Executes(me, x.before, x.call, x.response, x.after)
    requires After(job, pc, x.response).Finished? && After(job, pc, x.response).outcome.JobFailed?
    ensures x.response.Failed? && !x.call.DescribeType?
  {
  }

  /** Where an ensure goes on from having described the instance and its type. */
  function IndexOf(pc: Pc): Option<int> {
    if pc.ECreate? then Some(pc.index) else None
  }

  lemma ChosenIndexIsLeast(used: set<int>, max: Option<int>)
    ensures IsLeast(IndexOf(ToCreate(used, max)), used,
      if max.None? then 15 else if max.value >= 2 then max.value else 2)
  {
    FirstFreeIsLeast(used, 1, InterfaceLimit(max));
  }

  lemma IndexAfterInstance(me: string, job: Job, x: Record)
    requires job.EnsureJob? && x.call == DescribeInstance && Executes(me, x.before, x.call, x.response, x.after)
    requires After(job, EInstance, x.response).ECreate? || After(job, EInstance, x.response).Finished?
    ensures if x.response.Instance? && x.response.found.Some?
      then IndexAnswer(IndexOf(After(job, EInstance, x.response)), IndexesInUse(me, x.before), x)
      else After(job, EInstance, x.response).Finished? && (x.response.Instance? || x.response.Failed?)
  {
    if x.response.Instance? && x.response.found.Some? {
      ChosenIndexIsLeast(UsedIndexes(x.response.found.value.indexes), None);
    }
  }

  lemma IndexAfterType(job: Job, used: set<int>, x: Record)
    requires job.EnsureJob? && x.call == DescribeType
    ensures IndexAnswer(IndexOf(After(job, EType(used), x.response)), used, x)
  {
    ChosenIndexIsLeast(used, if x.response.InstanceType? then x.response.max else None);
  }

  /** The calls that lead to an index end with one of these. */
  predicate EndsDescribing(trace: seq<Record>) {
    trace != [] && (trace[|trace| - 1].call.DescribeInstance? || trace[|trace| - 1].call.DescribeType?)
  }

  /** The index an ensure chooses, or its finding none, is as its calls were answered. */
  lemma IndexIsAsAnswered(me: string, job: Job, start: Ec2, trace: seq<Record>)
    requires job.EnsureJob? && Runs(me, job, start, trace) && EndsDescribing(trace)
    requires PcAfter(job, trace).ECreate? || PcAfter(job, trace).Finished?
    ensures |trace| >= 2 && trace[1].call == DescribeInstance
    ensures if Described(trace)
      then IndexAnswer(IndexOf(PcAfter(job, trace)), IndexesInUse(me, trace[1].before), trace[|trace| - 1])
      else PcAfter(job, trace).Finished? && (NotDescribed(trace) || LastFailed(trace))
  {
    var init, x := trace[..|trace| - 1], trace[|trace| - 1];
    EnsureDescribes(me, job, start, init);
    if x.call.DescribeInstance? {
      IndexAfterInstance(me, job, x);
    } else {
      IndexAfterType(job, PcAfter(job, init).used, x);
      assert trace[1] == init[1];
    }
  }

  /** An attach can be carried out, unless somebody else has attached an interface
      since the index was chosen or cleaned up the new one. */
  lemma AttachIsPossible(me: string, job: Job, start: Ec2, trace: seq<Record>)
    requires Wf(me, start) && UniqueHolders(me, start) && job.EnsureJob? && Runs(me, job, start, trace)
    requires NoForeignAttach(me, start, trace) && PcAfter(job, trace).EAttach?
    requires PcAfter(job, trace).view.id in End(start, trace).enis
    ensures CanAttach(me, End(start, trace), PcAfter(job, trace).view.id, PcAfter(job, trace).index)
  {
    RecordIsOnTrack(me, job, start, trace);
    IndexStaysFree(me, job, start, trace);
  }
}
