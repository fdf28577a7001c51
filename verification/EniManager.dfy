/** The ENI manager's procedures, call by call, against a remote EC2 that anyone
    else may change between two calls. */
module EniManager {
  import opened Common
  import opened Ec2Model
  import opened JobProgram
  import opened AgentState
  import opened NodeMachine
  import opened NodeSafety
  import opened NodeAgreement
  import opened JobTrace
  import opened EnsureRecord

  datatype Result<+T> = Ok(value: T) | Err

  /** Wall-clock time in milliseconds.  It never goes back.  `asked` adds up the
      sleeps asked for. */
  class Clock {
    var now: int
    ghost var asked: nat

    method Now() returns (t: int)
      modifies this
      ensures t == now >= old(now) && asked == old(asked)
    {
      var drift :| drift >= 0;
      now := now + drift;
      t := now;
    }

    method Sleep(ms: nat)
      modifies this
      ensures now >= old(now) + ms && asked == old(asked) + ms
    {
      var drift :| drift >= 0;
      now := now + ms + drift;
      asked := asked + ms;
    }
  }

  /** The agent's context, which may be cancelled at any time and stays so.  `checks`
      counts how often it was looked at. */
  class Context {
    var cancelled: bool
    ghost var checks: nat

    method Err() returns (c: bool)
      modifies this
      ensures c == cancelled && (old(cancelled) ==> cancelled) && checks == old(checks) + 1
    {
      var hit: bool := *;
      checks := checks + 1;
      cancelled := cancelled || hit;
      c := cancelled;
    }
  }

  // ---- the remote side ---------------------------------------------------------

  /** A call that succeeds on an interface of ours changes the addresses it had when
      the previous call ended, and nothing else; a detachment that was under way
      may have completed meanwhile. */
  lemma OursIsReaddressed(me: string, e: Ec2, before: Ec2, c: Call, r: Response, after: Ec2)
    requires Wf(me, e) && Environment(me, e, before) && Executes(me, before, c, r, after)
    requires c.Readdresses() && c.id in e.ours && r.Done?
    ensures c.id in e.enis && c.id in after.enis && Settles(e.enis[c.id].Readdressed(c), after.enis[c.id])
  {
  }

  lemma FailureIsPossible(me: string, e: Ec2, c: Call)
    ensures Executes(me, e, c, Failed, e)
  {
  }

  /** EC2 answers a call in any way it may. */
  method Serve(me: string, e: Ec2, c: Call) returns (r: Response, e': Ec2)
    ensures Executes(me, e, c, r, e')
  {
    FailureIsPossible(me, e, c);
    r, e' :| Executes(me, e, c, r, e');
  }

  /** Everybody else does whatever they may. */
  method Interfere(me: string, e: Ec2) returns (e': Ec2)
    requires Wf(me, e)
    ensures Environment(me, e, e')
  {
    assert Environment(me, e, e);
    e' :| Environment(me, e, e');
  }

  /** One call: everybody else does whatever they may, then EC2 answers. */
  method RemoteCall(me: string, e: Ec2, c: Call) returns (ghost before: Ec2, r: Response, after: Ec2)
    requires Wf(me, e)
    ensures Environment(me, e, before) && Executes(me, before, c, r, after)
  {
    var world := Interfere(me, e);
    before := world;
    r, after := Serve(me, world, c);
  }

  ghost function PcOf(job: Job, trace: seq<Record>, gaveUp: bool): (pc: Pc)
    ensures Fits(job, pc)
  {
    if gaveUp then Finished(JobFailed(true)) else PcAfter(job, trace)
  }

  /** EC2 and the record of the job agree: the record follows the program from
      `start` to this cloud, which is as the program counter says. */
  ghost predicate Consistent(me: string, cloud: Ec2, job: Job, start: Ec2, trace: seq<Record>, gaveUp: bool) {
    && Wf(me, cloud) && UniqueHolders(me, cloud) && PcInv(me, cloud, job, PcOf(job, trace, gaveUp))
    && Runs(me, job, start, trace) && cloud == End(start, trace)
    && (gaveUp ==> PcAfter(job, trace).RPoll?)
  }

  /** A call made where the record has got to extends the record and keeps every
      fact about EC2 that the program counter carries. */
  lemma InvokeIsSound(me: string, cloud: Ec2, start: Ec2, job: Job, trace: seq<Record>, gaveUp: bool, x: Record)
    requires Consistent(me, cloud, job, start, trace, gaveUp) && NextCall(job, PcOf(job, trace, gaveUp)) == Some(x.call)
    requires Environment(me, cloud, x.before) && Executes(me, x.before, x.call, x.response, x.after)
    ensures Consistent(me, x.after, job, start, trace + [x], gaveUp)
    ensures PcOf(job, trace + [x], gaveUp) == After(job, PcOf(job, trace, gaveUp), x.response)
  {
    var pc := PcAfter(job, trace);
    EnvironmentKeepsUnique(me, cloud, x.before);
    EnvironmentKeepsPc(me, cloud, x.before, job, pc);
    ExecutesKeepsWf(me, x.before, x.call, x.response, x.after);
    ExchangeKeepsUnique(me, x.before, job, pc, x.response, x.after);
    ExchangeKeepsPc(me, x.before, job, pc, x.response, x.after);
    RunsSnoc(me, job, start, trace, x);
  }

  /** Assigning what the view misses gives the interface everything wanted. */
  lemma AssigningMissing4(n: Eni, v: View, wanted: seq<string>)
    requires Covers(v, n)
    ensures var ips := Missing(Addresses(v.ipv4), wanted);
      && n.Readdressed(AssignIpv4(v.id, ips)).Ipv4() == n.Ipv4() + Elements(wanted)
      && (ips == [] ==> n.Ipv4() == n.Ipv4() + Elements(wanted))
  {
    MissingElements(Addresses(v.ipv4), wanted);
  }

  lemma AssigningMissing6(n: Eni, v: View, wanted: seq<string>)
    requires Elements(v.ipv6) <= n.ipv6
    ensures var ips := Missing(Elements(v.ipv6), wanted);
      && n.Readdressed(AssignIpv6(v.id, ips)).ipv6 == n.ipv6 + Elements(wanted)
      && (ips == [] ==> n.ipv6 == n.ipv6 + Elements(wanted))
  {
    MissingElements(Elements(v.ipv6), wanted);
  }

  /** Unassigning all the view shows leaves the primary address. */
  lemma UnassigningAll(n: Eni, v: View)
    requires Shows(v, v.id, n)
    ensures n.Readdressed(UnassignIpv4(v.id, NonPrimary(v.ipv4))).Ipv4() == {n.primary}
    ensures NonPrimary(v.ipv4) == [] ==> n.Ipv4() == {n.primary}
    ensures Elements(v.ipv6) == n.ipv6
  {
    NonPrimaryOfView(v, n);
  }

  lemma UnassigningAll6(n: Eni, v: View)
    requires Elements(v.ipv6) == n.ipv6
    ensures n.Readdressed(UnassignIpv6(v.id, v.ipv6)) == n.(ipv6 := {})
    ensures v.ipv6 == [] ==> n == n.(ipv6 := {})
  {
  }

  // ---- loops --------------------------------------------------------------------

  /** The device indexes that are set. */
  method CollectUsed(indexes: seq<Option<int>>) returns (used: set<int>)
    ensures used == UsedIndexes(indexes)
  {
    used := {};
    for i := 0 to |indexes|
      invariant used == UsedIndexes(indexes[..i])
    {
      assert indexes[..i + 1] == indexes[..i] + [indexes[i]];
      if indexes[i].Some? {
        used := used + {indexes[i].value};
      }
    }
    assert indexes[..|indexes|] == indexes;
  }

  predicate LeastFree(i: int, used: set<int>) {
    1 <= i && i !in used && forall j :: 1 <= j < i ==> j in used
  }

  /** The answer is the least index from 1 up, below the limit, that is not in use;
      an error exactly when there is none. */
  predicate IsLeastBelow(r: Result<int>, used: set<int>, limit: int) {
    match r
    case Ok(i) => i < limit && LeastFree(i, used)
    case Err => forall j :: 1 <= j < limit ==> j in used
  }

  method LeastFreeIndex(used: set<int>, limit: int) returns (r: Result<int>)
    ensures r == match FirstFree(used, 1, limit) case Some(i) => Ok(i) case None => Err
    ensures IsLeastBelow(r, used, limit)
  {
    var index := 1;
    while index < limit
      invariant 1 <= index && (index <= limit || limit <= 1)
      invariant forall j :: 1 <= j < index ==> j in used
      invariant FirstFree(used, 1, limit) == FirstFree(used, index, limit)
    {
      if index !in used { return Ok(index); }
      index := index + 1;
    }
    return Err;
  }

  method CollectAddresses(ips: seq<PrivateIp>) returns (existing: set<string>)
    ensures existing == Addresses(ips)
  {
    existing := {};
    for i := 0 to |ips|
      invariant existing == Addresses(ips[..i])
    {
      assert ips[..i + 1] == ips[..i] + [ips[i]];
      existing := existing + {ips[i].address};
    }
    assert ips[..|ips|] == ips;
  }

  method CollectElements(list: seq<string>) returns (existing: set<string>)
    ensures existing == Elements(list)
  {
    existing := {};
    for i := 0 to |list|
      invariant existing == Elements(list[..i])
    {
      assert list[..i + 1] == list[..i] + [list[i]];
      existing := existing + {list[i]};
    }
    assert list[..|list|] == list;
  }

  /** The wanted addresses that are not there yet, in the order asked for. */
  method ListMissing(existing: set<string>, wanted: seq<string>) returns (toAssign: seq<string>)
    ensures toAssign == Missing(existing, wanted)
    ensures Elements(toAssign) == Elements(wanted) - existing
  {
    toAssign := [];
    for i := 0 to |wanted|
      invariant toAssign == Missing(existing, wanted[..i])
    {
      assert wanted[..i + 1][..i] == wanted[..i];
      if wanted[i] !in existing {
        toAssign := toAssign + [wanted[i]];
      }
    }
    assert wanted[..|wanted|] == wanted;
    MissingElements(existing, wanted);
  }

  method ListNonPrimary(ips: seq<PrivateIp>) returns (list: seq<string>)
    ensures list == NonPrimary(ips)
    ensures Elements(list) == set p | p in ips && !p.primary :: p.address
  {
    list := [];
    for i := 0 to |ips|
      invariant list == NonPrimary(ips[..i])
    {
      assert ips[..i + 1][..i] == ips[..i];
      if !ips[i].primary {
        list := list + [ips[i].address];
      }
    }
    assert ips[..|ips|] == ips;
    NonPrimaryElements(ips);
  }

  /** The remote EC2 and, for the proofs, the job being worked on and the record
      of its calls so far. */
  class Ec2Client {
    const me: string
    var cloud: Ec2
    ghost var job: Job
    ghost var start: Ec2
    ghost var trace: seq<Record>
    ghost var gaveUp: bool

    ghost function Pc(): (pc: Pc)
      reads this
      ensures Fits(job, pc)
    {
      PcOf(job, trace, gaveUp)
    }

    ghost predicate Valid()
      reads this
    {
      Consistent(me, cloud, job, start, trace, gaveUp)
    }

    /** A worker picks up the next job. */
    ghost method Begin(next: Job)
      requires Wf(me, cloud) && UniqueHolders(me, cloud)
      modifies `job, `start, `trace, `gaveUp
      ensures Valid() && job == next && start == cloud && trace == [] && !gaveUp
    {
      job, start, trace, gaveUp := next, cloud, [], false;
    }

    /** The current job stops waiting for a detachment. */
    ghost method GiveUp()
      requires Valid() && Pc().RPoll?
      modifies `gaveUp
      ensures Valid() && Pc() == Finished(JobFailed(true))
    {
      gaveUp := true;
    }

    /** One remote call, the one the job's program counter is at; others may act
        between the previous call and this one. */
    method Invoke(call: Call) returns (r: Response, ghost before: Ec2)
      requires Valid() && NextCall(job, Pc()) == Some(call)
      modifies `cloud, `trace
      ensures Valid() && trace == old(trace) + [Record(before, call, r, cloud)]
      ensures Environment(me, old(cloud), before) && Executes(me, before, call, r, cloud)
      ensures Pc() == After(job, old(Pc()), r)
    {
      ghost var pc := Pc();
      var after;
      before, r, after := RemoteCall(me, cloud, call);
      ghost var x := Record(before, call, r, after);
      InvokeIsSound(me, cloud, start, job, trace, gaveUp, x);
      trace := trace + [x];
      cloud := after;
      assert PcOf(job, trace, gaveUp) == After(job, pc, r);
    }

    method DescribeByTag(tag: string) returns (r: Response)
      requires Valid() && (Pc().EFind? || Pc().RFind?) && tag == job.Tag()
      modifies `cloud, `trace
      ensures Valid() && |trace| == |old(trace)| + 1 && Pc() == After(job, old(Pc()), r)
      ensures r.Listed? ==> (r.enis == [] <==> NoHolder(me, cloud, tag))
      ensures r.Listed? && r.enis != [] ==>
        var v := r.enis[0];
        && Holder(me, cloud, tag, v.id) && v.id in cloud.ours && Shows(v, v.id, cloud.enis[v.id]) && v.attachment.Some?
        && v.id in old(cloud).enis && old(cloud).enis[v.id] == cloud.enis[v.id]
    {
      ghost var before;
      r, before := Invoke(FindByTag(tag));
      if r.Listed? {
        EnvironmentKeepsUnique(me, old(cloud), before);
        LookupFindsHolder(me, before, tag, r.enis);
        if r.enis != [] {
          EnvironmentHolders(me, old(cloud), before, r.enis[0].id, tag);
        }
      }
    }

    method DescribeInstances() returns (r: Response)
      requires Valid() && Pc().EInstance?
      modifies `cloud, `trace
      ensures Valid() && Pc() == After(job, EInstance, r)
      ensures old(trace) <= trace && EndsDescribing(trace)
      ensures cloud.ours == old(cloud).ours
    {
      ghost var before;
      r, before := Invoke(DescribeInstance);
    }

    method DescribeInstanceTypes() returns (r: Response)
      requires Valid() && Pc().EType?
      modifies `cloud, `trace
      ensures Valid() && Pc() == After(job, old(Pc()), r)
      ensures old(trace) <= trace && EndsDescribing(trace)
      ensures cloud.ours == old(cloud).ours
    {
      ghost var before;
      r, before := Invoke(DescribeType);
    }

    method CreateNetworkInterface(tag: string) returns (r: Response)
      requires Valid() && Pc().ECreate? && tag == job.Tag()
      modifies `cloud, `trace
      ensures Valid() && Pc() == if r.Created? then EAttach(old(Pc()).index, r.view) else Finished(JobFailed(false))
      ensures r.Created? ==> r.view.id !in old(cloud).ours && r.view.id in cloud.ours
    {
      ghost var before;
      r, before := Invoke(Create(tag));
    }

    method AttachNetworkInterface(id: EniId, index: int) returns (r: Response)
      requires Valid() && Pc().EAttach? && id == Pc().view.id && index == Pc().index
      modifies `cloud, `trace
      ensures Valid()
      ensures Pc() == if r.AttachedAs? then EModify(old(Pc()).view, r.attachment) else Finished(JobFailed(false))
      ensures old(cloud).ours == cloud.ours
      ensures r.AttachedAs? ==> Attached(me, cloud, id) && cloud.enis[id].attachment.value.index == index
    {
      ghost var before;
      r, before := Invoke(Attach(id, index));
    }

    method ModifyNetworkInterfaceAttribute(id: EniId, attachment: AttachmentId) returns (r: Response)
      requires Valid() && Pc().EModify? && id == Pc().view.id && attachment == Pc().attachment
      modifies `cloud, `trace
      ensures Valid()
      ensures Pc() == if r.Done? then ToAssign4(job, old(Pc()).view, attachment) else Finished(JobFailed(false))
      ensures old(cloud).ours == cloud.ours && Attached(me, old(cloud), id)
      ensures r.Done? ==>
        && Steady(me, cloud, id) && Tagged(cloud, id, job.Tag()) && Covers(old(Pc()).view, cloud.enis[id])
        && cloud.enis[id].attachment.value.deleteOnTermination
        && cloud.enis[id].attachment.value.index == old(cloud).enis[id].attachment.value.index
    {
      ghost var before;
      r, before := Invoke(SetDeleteOnTermination(id, attachment));
      EnvironmentKeepsPc(me, old(cloud), before, job, old(Pc()));
    }

    /** An interface of ours changes only by what the call adds. */
    method AssignPrivateIpAddresses(id: EniId, ips: seq<string>) returns (r: Response)
      requires Valid() && Pc().EAssign4? && id == Pc().view.id && ips == Missing4(job, Pc().view)
      modifies `cloud, `trace
      ensures Valid()
      ensures Pc() == if r.Done? then ToAssign6(job, old(Pc()).view, old(Pc()).attachment)
                      else Finished(JobFailed(false))
      ensures id in old(cloud).ours && r.Done? ==>
        && id in old(cloud).enis && id in cloud.enis
        && Settles(old(cloud).enis[id].Readdressed(AssignIpv4(id, ips)), cloud.enis[id])
      ensures cloud.ours == old(cloud).ours
    {
      ghost var before;
      r, before := Invoke(AssignIpv4(id, ips));
      if id in old(cloud).ours && r.Done? {
        OursIsReaddressed(me, old(cloud), before, AssignIpv4(id, ips), r, cloud);
      }
    }

    method AssignIpv6Addresses(id: EniId, ips: seq<string>) returns (r: Response)
      requires Valid() && Pc().EAssign6? && id == Pc().view.id && ips == Missing6(job, Pc().view)
      modifies `cloud, `trace
      ensures Valid()
      ensures Pc() == if r.Done? then EnsureResult(job, old(Pc()).view, old(Pc()).attachment)
                      else Finished(JobFailed(false))
      ensures id in old(cloud).ours && r.Done? ==>
        && id in old(cloud).enis && id in cloud.enis
        && Settles(old(cloud).enis[id].Readdressed(AssignIpv6(id, ips)), cloud.enis[id])
      ensures cloud.ours == old(cloud).ours
    {
      ghost var before;
      r, before := Invoke(AssignIpv6(id, ips));
      if id in old(cloud).ours && r.Done? {
        OursIsReaddressed(me, old(cloud), before, AssignIpv6(id, ips), r, cloud);
      }
    }

    method UnassignPrivateIpAddresses(id: EniId, ips: seq<string>) returns (r: Response)
      requires Valid() && Pc().RUnassign4? && id == Pc().view.id && ips == NonPrimary(Pc().view.ipv4)
      modifies `cloud, `trace
      ensures Valid() && Pc() == if r.Done? then ToUnassign6(old(Pc()).view) else Finished(JobFailed(true))
      ensures id in old(cloud).ours && r.Done? ==>
        && id in old(cloud).enis && id in cloud.enis
        && Settles(old(cloud).enis[id].Readdressed(UnassignIpv4(id, ips)), cloud.enis[id])
      ensures cloud.ours == old(cloud).ours
    {
      ghost var before;
      r, before := Invoke(UnassignIpv4(id, ips));
      if id in old(cloud).ours && r.Done? {
        OursIsReaddressed(me, old(cloud), before, UnassignIpv4(id, ips), r, cloud);
      }
    }

    method UnassignIpv6Addresses(id: EniId, ips: seq<string>) returns (r: Response)
      requires Valid() && Pc().RUnassign6? && id == Pc().view.id && ips == Pc().view.ipv6
      modifies `cloud, `trace
      ensures Valid() && Pc() == if r.Done? then RDetach(old(Pc()).view) else Finished(JobFailed(true))
      ensures id in old(cloud).ours && r.Done? ==>
        && id in old(cloud).enis && id in cloud.enis
        && Settles(old(cloud).enis[id].Readdressed(UnassignIpv6(id, ips)), cloud.enis[id])
      ensures cloud.ours == old(cloud).ours
    {
      ghost var before;
      r, before := Invoke(UnassignIpv6(id, ips));
      if id in old(cloud).ours && r.Done? {
        OursIsReaddressed(me, old(cloud), before, UnassignIpv6(id, ips), r, cloud);
      }
    }

    method DetachNetworkInterface(attachment: AttachmentId) returns (r: Response)
      requires Valid() && Pc().RDetach? && Pc().view.attachment.Some? && attachment == Pc().view.attachment.value.id
      modifies `cloud, `trace
      ensures Valid() && Pc() == if r.Done? then RPoll(old(Pc()).view) else Finished(JobFailed(true))
      ensures r.Done? ==> attachment.eni in cloud.enis && Loose(cloud.enis[attachment.eni])
    {
      ghost var before;
      r, before := Invoke(Detach(attachment));
    }

    method DescribeById(id: EniId) returns (r: Response)
      requires Valid() && Pc().RPoll? && id == Pc().view.id && !gaveUp
      modifies `cloud, `trace
      ensures Valid() && !gaveUp && |trace| == |old(trace)| + 1 && old(trace) <= trace
      ensures trace[|old(trace)|].call == DescribeEni(id) && trace[|old(trace)|].response == r
      ensures Pc() == if ShowsDetached(r) then RDelete(old(Pc()).view) else old(Pc())
    {
      ghost var before;
      r, before := Invoke(DescribeEni(id));
    }

    method DeleteNetworkInterface(id: EniId) returns (r: Response)
      requires Valid() && Pc().RDelete? && id == Pc().view.id && Detached(cloud, id)
      modifies `cloud, `trace
      ensures Valid() && Pc() == Finished(if r.Done? then Released else JobFailed(true))
      ensures r.Done? ==> id !in cloud.enis
    {
      ghost var before;
      r, before := Invoke(Delete(id));
    }
  }

  lemma ReleasedHoldsNothing(c: Ec2Client)
    requires c.Valid() && c.Pc() == Finished(Released)
    ensures NoHolder(c.me, c.cloud, c.job.Tag())
  {
  }

  class Manager {
    const client: Ec2Client
    const clock: Clock
    const ctx: Context

    constructor (client: Ec2Client, clock: Clock, ctx: Context)
      ensures this.client == client && this.clock == clock && this.ctx == ctx
    {
      this.client, this.clock, this.ctx := client, clock, ctx;
    }

    // ---- lookup ------------------------------------------------------------

    /** The interface attached to this instance under the tag.  One that was
        steady when the lookup was made is returned steady. */
    method FindExistingInterface(tag: string) returns (r: Result<Option<View>>)
      requires client.Valid() && (client.Pc().EFind? || client.Pc().RFind?) && tag == client.job.Tag()
      modifies client`cloud, client`trace
      ensures client.Valid()
      ensures r.Err? ==> client.Pc() == Finished(JobFailed(false))
      ensures r == Ok(None) ==>
        && NoHolder(client.me, client.cloud, tag)
        && client.Pc() == if old(client.Pc()).EFind? then EInstance else Finished(Released)
      ensures r.Ok? && r.value.Some? ==>
        var v := r.value.value;
        && Holder(client.me, client.cloud, tag, v.id) && v.id in client.cloud.ours && v.attachment.Some?
        && Shows(v, v.id, client.cloud.enis[v.id])
        && client.Pc() == (if old(client.Pc()).EFind? then ToAssign4(client.job, v, v.attachment.value.id)
                           else ToUnassign4(v))
        && v.id in old(client.cloud).enis && old(client.cloud).enis[v.id] == client.cloud.enis[v.id]
    {
      var out := client.DescribeByTag(tag);
      if !out.Listed? { return Err; }
      if |out.enis| == 0 { return Ok(None); }
      var eni := out.enis[0];
      if eni.attachment.None? { return Err; }
      return Ok(Some(eni));
    }

    // ---- create and attach -------------------------------------------------

    /** The least device index from 1 up, below the limit, that the instance did not
        use when the first call described it; an error exactly when there is none,
        if the instance could be described at all.  The limit is what the last call
        answered about the instance type, at least 2, and 15 if it answered nothing
        or did not ask. */
    method NextAvailableDeviceIndex() returns (r: Result<int>)
      requires client.Valid() && client.Pc() == EInstance && client.job.EnsureJob?
      modifies client`cloud, client`trace
      ensures client.Valid() && client.cloud.ours == old(client.cloud).ours
      ensures client.Pc() == match r case Ok(i) => ECreate(i) case Err => Finished(JobFailed(false))
      ensures |client.trace| >= 2 && client.trace[1].call == DescribeInstance
      ensures Environment(client.me, old(client.cloud), client.trace[1].before)
      ensures Described(client.trace) ==>
        var used, last := IndexesInUse(client.me, client.trace[1].before), client.trace[|client.trace| - 1];
        var index := match r case Ok(i) => Some(i) case Err => None;
        if last.call.DescribeType? && last.response.InstanceType? && last.response.max.Some?
        then
          && (last.response.max.value >= 2 ==> IsLeast(index, used, last.response.max.value))
          && (last.response.max.value < 2 ==> IsLeast(index, used, 2))
        else IsLeast(index, used, 15)
      ensures !Described(client.trace) ==> r.Err?
    {
      EnsureDescribes(client.me, client.job, client.start, client.trace);
      r := FindIndex();
      IndexIsAsAnswered(client.me, client.job, client.start, client.trace);
      RunsPrefix(client.me, client.job, client.start, client.trace, 1);
      assert client.trace[..1] == old(client.trace);
    }

    method FindIndex() returns (r: Result<int>)
      requires client.Valid() && client.Pc() == EInstance
      modifies client`cloud, client`trace
      ensures client.Valid() && client.cloud.ours == old(client.cloud).ours
      ensures client.Pc() == match r case Ok(i) => ECreate(i) case Err => Finished(JobFailed(false))
      ensures old(client.trace) <= client.trace && EndsDescribing(client.trace)
    {
      var out := client.DescribeInstances();
      if !out.Instance? || out.found.None? { return Err; }
      var used := CollectUsed(out.found.value.indexes);
      var max := MaxInterfaces(out.found.value.typed, used);
      r := LeastFreeIndex(used, max);
    }

    /** The limit on device indexes, asked for if the instance names its type. */
    method MaxInterfaces(typed: bool, ghost used: set<int>) returns (max: int)
      requires client.Valid() && client.Pc() == if typed then EType(used) else ToCreate(used, None)
      requires EndsDescribing(client.trace)
      modifies client`cloud, client`trace
      ensures client.Valid() && client.cloud.ours == old(client.cloud).ours
      ensures old(client.trace) <= client.trace && EndsDescribing(client.trace)
      ensures client.Pc() == match FirstFree(used, 1, max)
        case Some(i) => ECreate(i) case None => Finished(JobFailed(false))
    {
      max := DEFAULT_MAX_INTERFACES;
      if typed {
        var types := client.DescribeInstanceTypes();
        if types.InstanceType? && types.max.Some? { max := types.max.value; }
      }
      if max < 2 { max := 2; }
    }

    /** On success a new interface with the tag is attached here, to be deleted
        with the instance, at the least index that was free when it was described.
        `seen` is EC2 as the first call described it. */
    method CreateAndAttachInterface(tag: string) returns (r: Result<(View, AttachmentId)>, ghost seen: Ec2)
      requires client.Valid() && client.Pc() == EInstance && client.job.EnsureJob? && tag == client.job.Tag()
      modifies client`cloud, client`trace
      ensures client.Valid() && Environment(client.me, old(client.cloud), seen)
      ensures r.Err? ==> client.Pc() == Finished(JobFailed(false))
      ensures r.Ok? ==>
        var (v, att) := r.value;
        && client.Pc() == ToAssign4(client.job, v, att)
        && v.id !in old(client.cloud).ours && v.id in client.cloud.ours
        && Steady(client.me, client.cloud, v.id) && Tagged(client.cloud, v.id, tag)
        && Covers(v, client.cloud.enis[v.id])
        && client.cloud.enis[v.id].attachment.value.deleteOnTermination
        && LeastFree(client.cloud.enis[v.id].attachment.value.index, IndexesInUse(client.me, seen))
    {
      var index := NextAvailableDeviceIndex();
      seen := client.trace[1].before;
      if index.Err? { return Err, seen; }
      assert LeastFree(index.value, IndexesInUse(client.me, seen));
      r := CreateAt(tag, index.value);
    }

    method CreateAt(tag: string, index: int) returns (r: Result<(View, AttachmentId)>)
      requires client.Valid() && client.Pc() == ECreate(index) && tag == client.job.Tag()
      modifies client`cloud, client`trace
      ensures client.Valid()
      ensures r.Err? ==> client.Pc() == Finished(JobFailed(false))
      ensures r.Ok? ==>
        var (v, att) := r.value;
        && client.Pc() == ToAssign4(client.job, v, att)
        && v.id !in old(client.cloud).ours && v.id in client.cloud.ours
        && Steady(client.me, client.cloud, v.id) && Tagged(client.cloud, v.id, tag)
        && Covers(v, client.cloud.enis[v.id])
        && client.cloud.enis[v.id].attachment.value.deleteOnTermination
        && client.cloud.enis[v.id].attachment.value.index == index
    {
      var out := client.CreateNetworkInterface(tag);
      if !out.Created? { return Err; }
      assert client.Pc() == EAttach(index, out.view);
      var att := client.AttachNetworkInterface(out.view.id, index);
      if !att.AttachedAs? { return Err; }
      assert client.Pc() == EModify(out.view, att.attachment);
      var done := client.ModifyNetworkInterfaceAttribute(out.view.id, att.attachment);
      if !done.Done? { return Err; }
      return Ok((out.view, att.attachment));
    }

    // ---- addresses -----------------------------------------------------------

    method AssignMissingIpv4(v: View, wanted: seq<string>, ghost att: AttachmentId) returns (ok: bool)
      requires client.Valid() && client.job.EnsureJob? && wanted == client.job.sync.ipv4
      requires client.Pc() == ToAssign4(client.job, v, att)
      modifies client`cloud, client`trace
      ensures client.Valid()
      ensures client.Pc() == if ok then ToAssign6(client.job, v, att) else Finished(JobFailed(false))
      ensures client.cloud.ours == old(client.cloud).ours
      ensures ok && v.id in old(client.cloud).ours && v.id in old(client.cloud).enis
                && Covers(v, old(client.cloud).enis[v.id]) ==>
        var n := old(client.cloud).enis[v.id];
        && v.id in client.cloud.enis && client.cloud.enis[v.id].Ipv4() == n.Ipv4() + Elements(wanted)
        && Settles(n.(secondary := client.cloud.enis[v.id].secondary), client.cloud.enis[v.id])
    {
      ok := true;
      ghost var n := if v.id in client.cloud.enis then client.cloud.enis[v.id] else Eni(None, "", None, "", {}, {});
      if Covers(v, n) {
        AssigningMissing4(n, v, wanted);
      }
      if |wanted| > 0 {
        var existing := CollectAddresses(v.ipv4);
        var toAssign := ListMissing(existing, wanted);
        if |toAssign| > 0 {
          var r := client.AssignPrivateIpAddresses(v.id, toAssign);
          ok := r.Done?;
        }
      }
    }

    method AssignMissingIpv6(v: View, wanted: seq<string>, ghost att: AttachmentId) returns (ok: bool)
      requires client.Valid() && client.job.EnsureJob? && wanted == client.job.sync.ipv6
      requires client.Pc() == ToAssign6(client.job, v, att)
      modifies client`cloud, client`trace
      ensures client.Valid()
      ensures client.Pc() == if ok then EnsureResult(client.job, v, att) else Finished(JobFailed(false))
      ensures ok && v.id in old(client.cloud).ours && v.id in old(client.cloud).enis
                && Elements(v.ipv6) <= old(client.cloud).enis[v.id].ipv6 ==>
        var n := old(client.cloud).enis[v.id];
        v.id in client.cloud.enis && Settles(n.(ipv6 := n.ipv6 + Elements(wanted)), client.cloud.enis[v.id])
    {
      ok := true;
      ghost var n := if v.id in client.cloud.enis then client.cloud.enis[v.id] else Eni(None, "", None, "", {}, {});
      if Elements(v.ipv6) <= n.ipv6 {
        AssigningMissing6(n, v, wanted);
      }
      if |wanted| > 0 {
        var existing := CollectElements(v.ipv6);
        var toAssign := ListMissing(existing, wanted);
        if |toAssign| > 0 {
          var r := client.AssignIpv6Addresses(v.id, toAssign);
          ok := r.Done?;
        }
      }
    }

    /** On success an interface of ours has its old addresses and every requested
        one, and nothing else of it has changed, except that a detachment that was
        under way may have completed. */
    method AssignIPAddresses(v: View, req: SyncRequest, ghost att: AttachmentId) returns (ok: bool)
      requires client.Valid() && client.job.EnsureJob? && req == client.job.sync
      requires client.Pc() == ToAssign4(client.job, v, att)
      modifies client`cloud, client`trace
      ensures client.Valid()
      ensures client.Pc() == if ok then EnsureResult(client.job, v, att) else Finished(JobFailed(false))
      ensures ok && v.id in old(client.cloud).ours && v.id in old(client.cloud).enis
                && Covers(v, old(client.cloud).enis[v.id]) ==>
        var n := old(client.cloud).enis[v.id];
        && v.id in client.cloud.enis && client.cloud.enis[v.id].Ipv4() == n.Ipv4() + Elements(req.ipv4)
        && client.cloud.enis[v.id].ipv6 == n.ipv6 + Elements(req.ipv6)
        && Settles(n.(secondary := client.cloud.enis[v.id].secondary, ipv6 := client.cloud.enis[v.id].ipv6),
                   client.cloud.enis[v.id])
    {
      ok := AssignMissingIpv4(v, req.ipv4, att);
      if ok {
        ok := AssignMissingIpv6(v, req.ipv6, att);
      }
    }

    /** On success an interface of ours that is as the view shows it is left with
        its primary IPv4 address only, and otherwise as it was, except that a
        detachment that was under way may have completed. */
    method UnassignIPAddresses(v: View) returns (ok: bool)
      requires client.Valid() && client.Pc() == ToUnassign4(v)
      modifies client`cloud, client`trace
      ensures client.Valid()
      ensures client.Pc() == if ok then RDetach(v) else Finished(JobFailed(true))
      ensures ok && v.id in old(client.cloud).ours && v.id in old(client.cloud).enis
                && Shows(v, v.id, old(client.cloud).enis[v.id]) ==>
        var n := old(client.cloud).enis[v.id];
        && v.id in client.cloud.enis
        && client.cloud.enis[v.id].Ipv4() == {n.primary} && client.cloud.enis[v.id].ipv6 == {}
        && Settles(n.(secondary := client.cloud.enis[v.id].secondary, ipv6 := {}), client.cloud.enis[v.id])
    {
      ghost var n := if v.id in client.cloud.enis then client.cloud.enis[v.id] else Eni(None, "", None, "", {}, {});
      if Shows(v, v.id, n) {
        UnassigningAll(n, v);
      }
      ok := UnassignIpv4Addresses(v);
      if ok {
        ok := UnassignAllIpv6(v);
      }
    }

    method UnassignAllIpv6(v: View) returns (ok: bool)
      requires client.Valid() && client.Pc() == ToUnassign6(v)
      modifies client`cloud, client`trace
      ensures client.Valid()
      ensures client.Pc() == if ok then RDetach(v) else Finished(JobFailed(true))
      ensures ok && v.id in old(client.cloud).ours && v.id in old(client.cloud).enis
                && Elements(v.ipv6) == old(client.cloud).enis[v.id].ipv6 ==>
        && v.id in client.cloud.enis
        && Settles(old(client.cloud).enis[v.id].(ipv6 := {}), client.cloud.enis[v.id])
    {
      ok := true;
      ghost var n := if v.id in client.cloud.enis then client.cloud.enis[v.id] else Eni(None, "", None, "", {}, {});
      if Elements(v.ipv6) == n.ipv6 {
        UnassigningAll6(n, v);
      }
      if |v.ipv6| > 0 {
        var r := client.UnassignIpv6Addresses(v.id, v.ipv6);
        ok := r.Done?;
      }
    }

    method UnassignIpv4Addresses(v: View) returns (ok: bool)
      requires client.Valid() && client.Pc() == ToUnassign4(v)
      modifies client`cloud, client`trace
      ensures client.Valid()
      ensures client.Pc() == if ok then ToUnassign6(v) else Finished(JobFailed(true))
      ensures client.cloud.ours == old(client.cloud).ours
      ensures ok && v.id in old(client.cloud).ours && v.id in old(client.cloud).enis
                && Shows(v, v.id, old(client.cloud).enis[v.id]) ==>
        var n := old(client.cloud).enis[v.id];
        && v.id in client.cloud.enis && client.cloud.enis[v.id].Ipv4() == {n.primary}
        && Settles(n.(secondary := client.cloud.enis[v.id].secondary), client.cloud.enis[v.id])
    {
      ok := true;
      var ipv4 := ListNonPrimary(v.ipv4);
      ghost var n := if v.id in client.cloud.enis then client.cloud.enis[v.id] else Eni(None, "", None, "", {}, {});
      if Shows(v, v.id, n) {
        UnassigningAll(n, v);
      }
      if |ipv4| > 0 {
        var r := client.UnassignPrivateIpAddresses(v.id, ipv4);
        ok := r.Done?;
      }
    }

    // ---- detach, wait, delete --------------------------------------------------

    method DetachInterface(v: View) returns (ok: bool)
      requires client.Valid() && client.Pc() == RDetach(v) && v.attachment.Some?
      modifies client`cloud, client`trace
      ensures client.Valid()
      ensures client.Pc() == if ok then RPoll(v) else Finished(JobFailed(true))
    {
      var r := client.DetachNetworkInterface(v.attachment.value.id);
      return r.Done?;
    }

    /** Polls every two seconds until a poll shows the interface gone, unattached or
        available, and fails only if the context is cancelled or 30 seconds have
        passed, no poll having shown that; at most 16 polls either way.  The context
        is looked at before each poll, and none is made once it is cancelled.  On
        success the interface is not attached. */
    method WaitForDetachment(v: View) returns (ok: bool)
      requires client.Valid() && client.Pc() == RPoll(v) && !client.gaveUp
      modifies client`cloud, client`trace, client`gaveUp, clock, ctx
      ensures client.Valid()
      ensures client.Pc() == if ok then RDelete(v) else Finished(JobFailed(true))
      ensures ok ==> Detached(client.cloud, v.id) && !client.gaveUp
      ensures old(client.trace) <= client.trace && |client.trace| <= |old(client.trace)| + 16
      ensures !ok ==> ctx.cancelled || clock.now > old(clock.now) + 30000
      ensures old(ctx.cancelled) ==> !ok && client.trace == old(client.trace)
      ensures ctx.checks ==
        old(ctx.checks) + (|client.trace| - |old(client.trace)|) + if ok then 0 else 1
      ensures !ok ==> PollsInVain(client.trace, |old(client.trace)|, v.id)
      ensures clock.asked ==
        old(clock.asked) + 2000 * (|client.trace| - |old(client.trace)| - if ok then 1 else 0)
    {
      var t0 := clock.Now();
      var deadline := t0 + 30000;
      ghost var polls := 0;
      ok := false;
      while true
        invariant client.Valid() && client.Pc() == RPoll(v) && !client.gaveUp && !ok
        invariant old(client.trace) <= client.trace
        invariant |client.trace| == |old(client.trace)| + polls && 0 <= polls <= 16
        invariant ctx.checks == old(ctx.checks) + polls && (old(ctx.cancelled) ==> ctx.cancelled && polls == 0)
        invariant clock.now >= t0 + 2000 * polls && clock.asked == old(clock.asked) + 2000 * polls
        invariant PollsInVain(client.trace, |old(client.trace)|, v.id)
        decreases 16 - polls
      {
        var cancelled := ctx.Err();
        if cancelled { break; }
        var now := clock.Now();
        if now > deadline { break; }
        ghost var before := client.trace;
        ok := Poll(v);
        polls := polls + 1;
        if ok { return; }
        PollsInVainSnoc(before, client.trace[|before|], |old(client.trace)|, v.id);
        clock.Sleep(2000);
      }
      client.GiveUp();
    }

    /** One poll; a failed one shows nothing. */
    method Poll(v: View) returns (detached: bool)
      requires client.Valid() && client.Pc() == RPoll(v) && !client.gaveUp
      modifies client`cloud, client`trace
      ensures client.Valid() && !client.gaveUp && client.Pc() == if detached then RDelete(v) else RPoll(v)
      ensures detached ==> Detached(client.cloud, v.id)
      ensures |client.trace| == |old(client.trace)| + 1
      ensures client.trace == old(client.trace) + [client.trace[|old(client.trace)|]]
      ensures var x := client.trace[|old(client.trace)|];
        x.call == DescribeEni(v.id) && (detached <==> ShowsDetached(x.response))
    {
      var out := client.DescribeById(v.id);
      if !out.Listed? { return false; }
      if |out.enis| == 0 { return true; }
      var current := out.enis[0];
      return current.attachment.None? || current.available;
    }

    method DeleteInterface(v: View) returns (ok: bool)
      requires client.Valid() && client.Pc() == RDelete(v) && Detached(client.cloud, v.id)
      modifies client`cloud, client`trace
      ensures client.Valid()
      ensures client.Pc() == Finished(if ok then Released else JobFailed(true))
      ensures ok ==> v.id !in client.cloud.enis
    {
      var r := client.DeleteNetworkInterface(v.id);
      return r.Done?;
    }

    /** The rest of a release, once the addresses are unassigned. */
    method TearDown(v: View) returns (ok: bool)
      requires client.Valid() && client.Pc() == RDetach(v) && v.attachment.Some? && !client.gaveUp
      modifies client`cloud, client`trace, client`gaveUp, clock, ctx
      ensures client.Valid()
      ensures client.Pc() == Finished(if ok then Released else JobFailed(true))
      ensures client.gaveUp ==> !ok && (ctx.cancelled || clock.now > old(clock.now) + 30000)
    {
      ok := DetachInterface(v);
      if ok {
        ok := WaitAndDelete(v);
      }
    }

    method WaitAndDelete(v: View) returns (ok: bool)
      requires client.Valid() && client.Pc() == RPoll(v) && !client.gaveUp
      modifies client`cloud, client`trace, client`gaveUp, clock, ctx
      ensures client.Valid()
      ensures client.Pc() == Finished(if ok then Released else JobFailed(true))
      ensures client.gaveUp ==> !ok && (ctx.cancelled || clock.now > old(clock.now) + 30000)
    {
      ok := WaitForDetachment(v);
      if ok {
        ok := DeleteInterface(v);
      }
    }

    // ---- the two procedures ------------------------------------------------------

    ghost predicate Fresh(job: Job)
      reads client
    {
      client.job == job && client.trace == [] && !client.gaveUp
    }

    /** Follows the ensure program to its end.  After success EC2 backs the entry the
        agent will record exactly when the lookup returned nothing or an interface
        that was not detaching; and then the interface is deleted with the instance
        exactly when the lookup returned nothing or showed it so.  It fails only for
        an incomplete profile, a failed last call, an instance that is not found or
        has no device index left. */
    method EnsureInterface(profile: Profile, req: SyncRequest, ghost key: string) returns (r: Result<SyncResult>)
      requires client.Valid() && Fresh(EnsureJob(profile, key, req))
      modifies client`cloud, client`trace
      ensures client.Valid()
      ensures client.Pc().Finished? && match r
        case Ok(res) => client.Pc().outcome.Ensured? && client.Pc().outcome.result == res
        case Err => client.Pc().outcome == JobFailed(false)
      ensures r.Ok? ==> r.value.ipv4 == req.ipv4 && r.value.ipv6 == req.ipv6
      ensures TagsPod(client.trace, req.podUid)
      ensures r.Err? ==>
        if profile.subnetId == "" || profile.securityGroupIds == [] then client.trace == []
        else LastFailed(client.trace) || NotDescribed(client.trace) || NoIndexLeft(client.me, client.trace)
      ensures r.Ok? ==>
        var v, st := LookedUp(client.trace), Entry(req, r.value);
        && (v.Some? ==> r.value.eniId == v.value.id)
        && (Backs(client.me, client.cloud, st) <==> v.None? || !v.value.attachment.value.detaching)
        && (Backs(client.me, client.cloud, st) ==>
              (DeletedWithInstance(client.cloud, st.eniId)
               <==> v.None? || v.value.attachment.value.deleteOnTermination))
    {
      r := Ensure(profile, req);
      CallsTagPod(client.me, client.job, client.start, client.trace);
      if r.Ok? {
        EnsureSucceedsAsLookedUp(client.me, client.job, client.start, client.trace);
      } else {
        EnsureFailsOnlyWhen(client.me, client.job, client.start, client.trace);
      }
    }

    method Ensure(profile: Profile, req: SyncRequest) returns (r: Result<SyncResult>)
      requires client.Valid() && client.job.EnsureJob? && client.job.profile == profile && client.job.sync == req
      requires client.trace == [] && !client.gaveUp
      modifies client`cloud, client`trace
      ensures client.Valid() && client.Pc().Finished?
      ensures match r
        case Ok(res) =>
          && client.Pc().outcome.Ensured? && client.Pc().outcome.result == res
          && res.ipv4 == req.ipv4 && res.ipv6 == req.ipv6
        case Err => client.Pc().outcome == JobFailed(false)
    {
      if profile.subnetId == "" { return Err; }
      if |profile.securityGroupIds| == 0 { return Err; }
      var tag := TagOf(req.podUid);
      var found := FindExistingInterface(tag);
      if found.Err? { return Err; }
      var v: View, att: AttachmentId;
      if found.value.Some? {
        v, att := found.value.value, found.value.value.attachment.value.id;
      } else {
        ghost var seen;
        var created;
        created, seen := CreateAndAttachInterface(tag);
        if created.Err? { return Err; }
        v, att := created.value.0, created.value.1;
      }
      var ok := AssignIPAddresses(v, req, att);
      if !ok { return Err; }
      return Ok(SyncResult(v.id, att, req.ipv4, req.ipv6, v.mac));
    }

    /** Follows the release program to its end.  Success means nothing attached
        here carries the pod's tag.  It fails only if its last call failed, or if
        the context was cancelled or 30 seconds passed and no poll had shown the
        interface detached. */
    method ReleaseInterface(profile: Profile, req: ReleaseRequest, ghost key: string) returns (ok: bool)
      requires client.Valid() && Fresh(ReleaseJob(profile, key, req))
      modifies client`cloud, client`trace, client`gaveUp, clock, ctx
      ensures client.Valid()
      ensures client.Pc().Finished?
      ensures ok <==> client.Pc() == Finished(Released)
      ensures !ok ==> client.Pc().outcome.JobFailed?
      ensures ok ==> NoHolder(client.me, client.cloud, TagOf(req.podUid))
      ensures TagsPod(client.trace, req.podUid)
      ensures !ok && !client.gaveUp ==>
        client.trace != [] && client.trace[|client.trace| - 1].response.Failed?
      ensures client.gaveUp ==> !ok && (ctx.cancelled || clock.now > old(clock.now) + 30000)
      ensures client.gaveUp ==> NoneShowsDetached(client.trace)
    {
      ok := Release(req);
      CallsTagPod(client.me, client.job, client.start, client.trace);
      if ok {
        ReleasedHoldsNothing(client);
      } else if client.gaveUp {
        PollsShowAttached(client.me, client.job, client.start, client.trace);
      } else {
        ReleaseFailsOnlyWhen(client.me, client.job, client.start, client.trace);
      }
    }

    method Release(req: ReleaseRequest) returns (ok: bool)
      requires client.Valid() && client.job.ReleaseJob? && client.job.release == req
      requires client.trace == [] && !client.gaveUp
      modifies client`cloud, client`trace, client`gaveUp, clock, ctx
      ensures client.Valid() && client.Pc().Finished?
      ensures if ok then client.Pc() == Finished(Released) else client.Pc().outcome.JobFailed?
      ensures client.gaveUp ==> !ok && (ctx.cancelled || clock.now > old(clock.now) + 30000)
    {
      var found := FindExistingInterface(TagOf(req.podUid));
      if found.Err? { return false; }
      if found.value.None? { return true; }
      var v := found.value.value;
      ok := UnassignIPAddresses(v);
      if !ok { return false; }
      ok := TearDown(v);
    }
  }
}
