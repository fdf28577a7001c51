/** The worker's two procedures, as a program counter that names the next EC2
    call and says where its answer leads.  The imperative procedures of module
    EniManager are proved to follow it call by call. */
module JobProgram {
  import opened Common
  import opened Ec2Model

  datatype Profile = Profile(subnetId: string, securityGroupIds: seq<string>)

  datatype SyncRequest = SyncRequest(
    podUid: string, podName: string, namespace: string, interfaceName: string, networkProfile: string,
    ipv4: seq<string>, ipv6: seq<string>, mac: string)

  datatype ReleaseRequest = ReleaseRequest(
    podUid: string, podName: string, namespace: string, interfaceName: string, networkProfile: string)

  datatype Job =
    | EnsureJob(profile: Profile, profileKey: string, sync: SyncRequest)
    | ReleaseJob(profile: Profile, profileKey: string, release: ReleaseRequest)
  {
    function Uid(): string { if EnsureJob? then sync.podUid else release.podUid }
    function InterfaceName(): string { if EnsureJob? then sync.interfaceName else release.interfaceName }
    function RequestedProfile(): string { if EnsureJob? then sync.networkProfile else release.networkProfile }
    function Tag(): string { TagOf(Uid()) }
  }

  datatype SyncResult = SyncResult(
    eniId: EniId, attachment: AttachmentId, ipv4: seq<string>, ipv6: seq<string>, mac: string)

  /** How a job ends.  `found`: the attachment an ensure's lookup showed, none if
      it made a new interface.  `touched`: a release that failed after its lookup
      found an interface, so it may have undone part of it. */
  datatype Outcome =
    | Ensured(result: SyncResult, found: Option<Attachment>)
    | Released
    | JobFailed(touched: bool)

  datatype Pc =
    | EFind
    | EInstance
    | EType(used: set<int>)
    | ECreate(index: int)
    | EAttach(index: int, view: View)
    | EModify(view: View, attachment: AttachmentId)
    | EAssign4(view: View, attachment: AttachmentId)
    | EAssign6(view: View, attachment: AttachmentId)
    | RFind
    | RUnassign4(view: View)
    | RUnassign6(view: View)
    | RDetach(view: View)
    | RPoll(view: View)
    | RDelete(view: View)
    | Finished(outcome: Outcome)

  const TAG_PREFIX := "multivpc-"

  /** The tag names the pod only, not its interface. */
  function TagOf(podUid: string): string { TAG_PREFIX + podUid }

  lemma TagIsInjective(a: string, b: string)
    requires TagOf(a) == TagOf(b)
    ensures a == b
  {
    assert a == TagOf(a)[|TAG_PREFIX|..];
    assert b == TagOf(b)[|TAG_PREFIX|..];
  }

  // ---- device index ----------------------------------------------------------

  const DEFAULT_MAX_INTERFACES := 15

  function InterfaceLimit(max: Option<int>): int {
    var m := if max.Some? then max.value else DEFAULT_MAX_INTERFACES;
    if m < 2 then 2 else m
  }

  function FirstFree(used: set<int>, index: int, max: int): Option<int>
    decreases max - index
  {
    if index >= max then None
    else if index !in used then Some(index)
    else FirstFree(used, index + 1, max)
  }

  // ---- addresses ---------------------------------------------------------------

  function Missing(existing: set<string>, wanted: seq<string>): seq<string> {
    if wanted == [] then []
    else
      var rest := Missing(existing, wanted[..|wanted| - 1]);
      var last := wanted[|wanted| - 1];
      if last in existing then rest else rest + [last]
  }

  function NonPrimary(ips: seq<PrivateIp>): seq<string> {
    if ips == [] then []
    else
      var rest := NonPrimary(ips[..|ips| - 1]);
      var last := ips[|ips| - 1];
      if last.primary then rest else rest + [last.address]
  }

  function Missing4(job: Job, v: View): seq<string>
    requires job.EnsureJob?
  {
    Missing(Addresses(v.ipv4), job.sync.ipv4)
  }

  function Missing6(job: Job, v: View): seq<string>
    requires job.EnsureJob?
  {
    Missing(Elements(v.ipv6), job.sync.ipv6)
  }

  // ---- the program counter -------------------------------------------------------

  function Start(job: Job): Pc {
    if job.ReleaseJob? then RFind
    else if job.profile.subnetId == "" || job.profile.securityGroupIds == [] then Finished(JobFailed(false))
    else EFind
  }

  /** The program counters a job of this kind can be at. */
  predicate Fits(job: Job, pc: Pc) {
    match pc
    case EFind | EInstance | EType(_) | ECreate(_) => job.EnsureJob?
    case EAttach(_, _) | EModify(_, _) | EAssign4(_, _) | EAssign6(_, _) => job.EnsureJob?
    case Finished(Ensured(_, _)) => job.EnsureJob?
    case Finished(JobFailed(_)) => true
    case _ => job.ReleaseJob?
  }

  function NextCall(job: Job, pc: Pc): Option<Call>
    requires Fits(job, pc)
  {
    match pc
    case EFind => Some(FindByTag(job.Tag()))
    case EInstance => Some(DescribeInstance)
    case EType(_) => Some(DescribeType)
    case ECreate(_) => Some(Create(job.Tag()))
    case EAttach(index, v) => Some(Attach(v.id, index))
    case EModify(v, att) => Some(SetDeleteOnTermination(v.id, att))
    case EAssign4(v, _) => Some(AssignIpv4(v.id, Missing4(job, v)))
    case EAssign6(v, _) => Some(AssignIpv6(v.id, Missing6(job, v)))
    case RFind => Some(FindByTag(job.Tag()))
    case RUnassign4(v) => Some(UnassignIpv4(v.id, NonPrimary(v.ipv4)))
    case RUnassign6(v) => Some(UnassignIpv6(v.id, v.ipv6))
    case RDetach(v) => if v.attachment.Some? then Some(Detach(v.attachment.value.id)) else None
    case RPoll(v) => Some(DescribeEni(v.id))
    case RDelete(v) => Some(Delete(v.id))
    case Finished(_) => None
  }

  function EnsureResult(job: Job, v: View, att: AttachmentId): Pc
    requires job.EnsureJob?
  {
    Finished(Ensured(SyncResult(v.id, att, job.sync.ipv4, job.sync.ipv6, v.mac), v.attachment))
  }

  function ToAssign6(job: Job, v: View, att: AttachmentId): Pc
    requires job.EnsureJob?
  {
    if Missing6(job, v) != [] then EAssign6(v, att) else EnsureResult(job, v, att)
  }

  function ToAssign4(job: Job, v: View, att: AttachmentId): Pc
    requires job.EnsureJob?
  {
    if Missing4(job, v) != [] then EAssign4(v, att) else ToAssign6(job, v, att)
  }

  function ToCreate(used: set<int>, max: Option<int>): Pc {
    match FirstFree(used, 1, InterfaceLimit(max))
    case Some(index) => ECreate(index)
    case None => Finished(JobFailed(false))
  }

  function ToUnassign6(v: View): Pc {
    if v.ipv6 != [] then RUnassign6(v) else RDetach(v)
  }

  function ToUnassign4(v: View): Pc {
    if NonPrimary(v.ipv4) != [] then RUnassign4(v) else ToUnassign6(v)
  }

  /** Where the answer `r` to the call at `pc` leads.  A poll that fails or still
      shows the attachment is repeated. */
  function After(job: Job, pc: Pc, r: Response): (pc': Pc)
    requires Fits(job, pc)
    ensures Fits(job, pc')
  {
    match pc
    case EFind =>
      if !r.Listed? then Finished(JobFailed(false))
      else if r.enis == [] then EInstance
      else if r.enis[0].attachment.None? then Finished(JobFailed(false))
      else ToAssign4(job, r.enis[0], r.enis[0].attachment.value.id)
    case EInstance =>
      if !r.Instance? || r.found.None? then Finished(JobFailed(false))
      else
        var used := UsedIndexes(r.found.value.indexes);
        if r.found.value.typed then EType(used) else ToCreate(used, None)
    case EType(used) => ToCreate(used, if r.InstanceType? then r.max else None)
    case ECreate(index) => if r.Created? then EAttach(index, r.view) else Finished(JobFailed(false))
    case EAttach(_, v) => if r.AttachedAs? then EModify(v, r.attachment) else Finished(JobFailed(false))
    case EModify(v, att) => if r.Done? then ToAssign4(job, v, att) else Finished(JobFailed(false))
    case EAssign4(v, att) => if r.Done? then ToAssign6(job, v, att) else Finished(JobFailed(false))
    case EAssign6(v, att) => if r.Done? then EnsureResult(job, v, att) else Finished(JobFailed(false))
    case RFind =>
      if !r.Listed? then Finished(JobFailed(false))
      else if r.enis == [] then Finished(Released)
      else if r.enis[0].attachment.None? then Finished(JobFailed(false))
      else ToUnassign4(r.enis[0])
    case RUnassign4(v) => if r.Done? then ToUnassign6(v) else Finished(JobFailed(true))
    case RUnassign6(v) => if r.Done? then RDetach(v) else Finished(JobFailed(true))
    case RDetach(v) => if r.Done? then RPoll(v) else Finished(JobFailed(true))
    case RPoll(v) =>
      if r.Listed? && (r.enis == [] || r.enis[0].attachment.None? || r.enis[0].available)
      then RDelete(v) else RPoll(v)
    case RDelete(v) => Finished(if r.Done? then Released else JobFailed(true))
    case Finished(_) => pc
  }

  /** The wait for detachment may give up between two polls: its deadline
      passed, or its context was cancelled. */
  predicate GivesUp(pc: Pc, pc': Pc) {
    pc.RPoll? && pc' == Finished(JobFailed(true))
  }

  // ---- lemmas about the pieces ------------------------------------------------------

  /** FirstFree is the least index not in use, and fails exactly when every
      index of the range is in use. */
  lemma {:induction false} FirstFreeIsLeast(used: set<int>, index: int, max: int)
    ensures match FirstFree(used, index, max)
      case Some(i) => index <= i < max && i !in used && forall j :: index <= j < i ==> j in used
      case None => forall j :: index <= j < max ==> j in used
    decreases max - index
  {
    if index < max && index in used {
      FirstFreeIsLeast(used, index + 1, max);
    }
  }

  /** Fewer than max - 1 interfaces at nonzero indexes leave an index free. */
  lemma FreeIndexByPigeonhole(used: set<int>, max: int)
    requires |used - {0}| < max - 1
    ensures FirstFree(used, 1, max).Some?
  {
    FirstFreeIsLeast(used, 1, max);
    if FirstFree(used, 1, max).None? {
      RangeSize(1, max);
      SubsetSize(Range(1, max), used - {0});
      assert false;
    }
  }

  /** The indexes that n allocations one after another yield, each taken before the
      next is sought, until there is none left. */
  function Allocations(used: set<int>, max: int, n: nat): seq<int>
    decreases n
  {
    if n == 0 then []
    else
      match FirstFree(used, 1, max)
      case None => []
      case Some(i) => [i] + Allocations(used + {i}, max, n - 1)
  }

  /** Successive allocations yield ever greater indexes, none of them in use, and
      go on until none of the range is left. */
  lemma {:induction false} AllocationsUseUpTheRange(used: set<int>, max: int, n: nat)
    ensures var a, free := Allocations(used, max, n), Range(1, max) - used;
      && (forall j, k :: 0 <= j < k < |a| ==> a[j] < a[k])
      && (forall j :: 0 <= j < |a| ==> a[j] in free)
      && |a| == if n <= |free| then n else |free|
    decreases n
  {
    if n > 0 {
      FirstFreeIsLeast(used, 1, max);
      match FirstFree(used, 1, max)
      case None => assert Range(1, max) - used == {};
      case Some(i) =>
        AllocationsUseUpTheRange(used + {i}, max, n - 1);
        assert Range(1, max) - (used + {i}) == (Range(1, max) - used) - {i};
    }
  }

  /** What is requested is exactly what is absent. */
  lemma {:induction false} MissingElements(existing: set<string>, wanted: seq<string>)
    ensures Elements(Missing(existing, wanted)) == Elements(wanted) - existing
  {
    if wanted != [] {
      MissingElements(existing, wanted[..|wanted| - 1]);
      ElementsSnoc(wanted);
      if wanted[|wanted| - 1] !in existing {
        var m := Missing(existing, wanted);
        ElementsSnoc(m);
        assert m[..|m| - 1] == Missing(existing, wanted[..|wanted| - 1]);
      }
    }
  }

  lemma NothingMissing(existing: set<string>, wanted: seq<string>)
    ensures Missing(existing, wanted) == [] <==> Elements(wanted) <= existing
  {
    var m := Missing(existing, wanted);
    MissingElements(existing, wanted);
    if m != [] {
      assert m[0] in Elements(m);
    } else {
      assert Elements(wanted) - existing == {};
    }
  }

  /** ... in the order asked for, however the request is split. */
  lemma {:induction false} MissingConcat(existing: set<string>, a: seq<string>, b: seq<string>)
    ensures Missing(existing, a + b) == Missing(existing, a) + Missing(existing, b)
  {
    if b == [] {
      assert a + b == a;
    } else {
      var init := b[..|b| - 1];
      assert (a + b)[..|a + b| - 1] == a + init;
      MissingConcat(existing, a, init);
    }
  }

  lemma {:induction false} NonPrimaryElements(ips: seq<PrivateIp>)
    ensures Elements(NonPrimary(ips)) == set p | p in ips && !p.primary :: p.address
  {
    if ips != [] {
      var init, last := ips[..|ips| - 1], ips[|ips| - 1];
      NonPrimaryElements(init);
      ElementsSnoc(ips);
      assert forall p :: p in ips <==> p in Elements(ips);
      assert forall p :: p in init <==> p in Elements(init);
      if !last.primary {
        var n := NonPrimary(ips);
        ElementsSnoc(n);
        assert n[..|n| - 1] == NonPrimary(init);
      }
    }
  }

  /** Unassigning what a view shows as non-primary leaves the primary only. */
  lemma NonPrimaryOfView(v: View, n: Eni)
    requires Shows(v, v.id, n)
    ensures Elements(NonPrimary(v.ipv4)) == n.Ipv4() - {n.primary}
  {
    NonPrimaryElements(v.ipv4);
    forall a | a in n.Ipv4() && a != n.primary
      ensures a in Elements(NonPrimary(v.ipv4))
    {
      assert a in Addresses(v.ipv4);
    }
    forall a | a in Elements(NonPrimary(v.ipv4))
      ensures a in n.Ipv4() && a != n.primary
    {
      assert a in Addresses(v.ipv4);
    }
  }
}
