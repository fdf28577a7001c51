/** Concrete runs in which a property one might expect does not hold, and which
    the theorems saying exactly when it does leave out. */
module NodeWitness {
  import opened Common
  import opened Ec2Model
  import opened JobProgram
  import opened AgentState
  import opened NodeMachine
  import opened NodeSafety
  import opened NodeAgreement
  import opened NodeDrain
  import opened ReleaseWave

  const ME := "i-1"
  const PROFILE := Profile("subnet-1", ["sg-1"])
  const SETUP := Setup(ME, map["profile" := PROFILE], 1)
  const UID := "uid-1"
  const ENSURE := EnsureOf("net1")
  const RELEASE := ReleaseJob(PROFILE, "profile", ReleaseRequest(UID, "pod", "default", "net1", "profile"))
  const ID := "eni-1"
  const ATT := AttachmentId(ID, 0)

  function EnsureOf(name: string): Job {
    EnsureJob(PROFILE, "profile", SyncRequest(UID, "pod", "default", name, "profile", [], [], ""))
  }

  /** EC2 with the one interface the runs create. */
  function World(attachment: Option<Attachment>): Ec2 {
    Ec2(map[ID := Eni(Some(TagOf(UID)), "mac-1", attachment, "10.0.0.1", {}, {})], {ID}, {ID})
  }

  function Seat(detaching: bool, dies: bool): Option<Attachment> {
    Some(Attachment(ATT, ME, 1, detaching, dies))
  }

  function ViewOf(attachment: Option<Attachment>): View {
    View(ID, "mac-1", attachment, attachment.None?, [PrivateIp("10.0.0.1", true)], [])
  }

  function Success(found: Option<Attachment>): Outcome {
    Ensured(SyncResult(ID, ATT, [], [], "mac-1"), found)
  }

  ghost predicate Idle(s: Node) {
    Reachable(SETUP, s) && s.worker.Waiting? && s.queue == []
  }

  /** The worker is at this point, with this EC2 and map and no job lost so far
      but those counted. */
  ghost predicate Working(s: Node, job: Job, pc: Pc, e: Ec2, state: StateMap, failed: nat) {
    && Reachable(SETUP, s) && s.worker == Busy(job, pc) && s.queue == []
    && s.ec2 == e && s.state == state && s.failed == failed && s.interrupted == 0
  }

  ghost predicate Resting(s: Node, e: Ec2, state: StateMap, failed: nat) {
    Idle(s) && s.ec2 == e && s.state == state && s.failed == failed && s.interrupted == 0
  }

  /** A job is offered to an idle agent and begun. */
  lemma Submit(s: Node, job: Job) returns (s': Node)
    requires Idle(s) && s.interrupted == 0 && Admissible(SETUP, job)
    ensures Working(s', job, Start(job), s.ec2, s.state, s.failed)
  {
    var a := s.(queue := [job], accepted := s.accepted + [job], unbumped := s.unbumped + 1);
    assert s.queue + [job] == [job];
    ReachableStep(SETUP, s, Offer(job), a);
    var b := a.(queue := [], worker := Taken(job));
    ReachableStep(SETUP, a, Take, b);
    s' := b.(worker := Busy(job, Start(job)), depth := b.depth - 1);
    ReachableStep(SETUP, b, Begin, s');
  }

  lemma Ask(s: Node, job: Job, pc: Pc, r: Response, e': Ec2) returns (s': Node)
    requires Working(s, job, pc, s.ec2, s.state, s.failed) && Fits(job, pc)
    requires NextCall(job, pc).Some? && Executes(ME, s.ec2, NextCall(job, pc).value, r, e')
    ensures Working(s', job, After(job, pc, r), e', s.state, s.failed)
  {
    s' := s.(ec2 := e', worker := Busy(job, After(job, pc, r)));
    ReachableStep(SETUP, s, Exchange(r), s');
  }

  lemma Finish(s: Node, job: Job, o: Outcome) returns (s': Node)
    requires Working(s, job, Finished(o), s.ec2, s.state, s.failed) && Fits(job, Finished(o))
    ensures Resting(s', s.ec2, Apply(s.state, Handled(job, o)), if o.JobFailed? then s.failed + 1 else s.failed)
  {
    s' := Settled(s);
    ReachableStep(SETUP, s, Settle, s');
  }

  // ---- the first ensure ------------------------------------------------------------

  lemma NothingAttachedYet() returns (s: Node)
    ensures Working(s, ENSURE, ECreate(1), Ec2(map[], {}, {}), map[], 0)
  {
    var e0 := Ec2(map[], {}, {});
    s := Node(e0, [], Waiting, map[], 0, 0, [], [], 0, 0);
    InitialIsReachable(SETUP, s);
    s := Submit(s, ENSURE);
    s := Ask(s, ENSURE, EFind, Listed([]), e0);
    assert UsedIndexes([]) == {} == IndexesInUse(ME, e0);
    s := Ask(s, ENSURE, EInstance, Instance(Some(InstanceView([], false))), e0);
  }

  lemma CreateIsPossible()
    ensures Executes(ME, Ec2(map[], {}, {}), Create(TagOf(UID)), Created(ViewOf(None)), World(None))
  {
    assert ViewOf(None).ipv4[0] in ViewOf(None).ipv4;
    assert Addresses(ViewOf(None).ipv4) == {"10.0.0.1"};
    assert Shows(ViewOf(None), ID, World(None).enis[ID]);
  }

  lemma AttachIsPossible()
    ensures Executes(ME, World(None), Attach(ID, 1), AttachedAs(ATT), World(Seat(false, false)))
  {
    assert IndexesInUse(ME, World(None)) == {};
  }

  lemma AttachedNotYetModified() returns (s: Node)
    ensures Working(s, ENSURE, EModify(ViewOf(None), ATT), World(Seat(false, false)), map[], 0)
  {
    s := NothingAttachedYet();
    CreateIsPossible();
    s := Ask(s, ENSURE, ECreate(1), Created(ViewOf(None)), World(None));
    AttachIsPossible();
    s := Ask(s, ENSURE, EAttach(1, ViewOf(None)), AttachedAs(ATT), World(Seat(false, false)));
  }

  /** An ensure that fails after its attach leaves an attached interface that no
      entry knows. */
  lemma EnsureCanFailAfterAttach() returns (s: Node)
    ensures Resting(s, World(Seat(false, false)), map[], 1)
  {
    s := AttachedNotYetModified();
    s := Ask(s, ENSURE, EModify(ViewOf(None), ATT), Failed, World(Seat(false, false)));
    s := Finish(s, ENSURE, JobFailed(false));
  }

  /** The pod's wave is then empty, so nothing will release the interface. */
  lemma EmptyWaveCanStrand() returns (s: Node)
    ensures Reachable(SETUP, s) && NoJob(s, UID)
    ensures Wave(s.state, UID) == {} && !NoneSteady(ME, s.ec2, TagOf(UID))
  {
    s := EnsureCanFailAfterAttach();
    assert Holder(ME, s.ec2, TagOf(UID), ID) && Steady(ME, s.ec2, ID);
  }

  lemma LookupShowsIt(seat: Option<Attachment>)
    requires seat.Some? && seat.value.instance == ME
    ensures Lists(ME, World(seat), TagOf(UID), [ViewOf(seat)])
  {
    var v := ViewOf(seat);
    assert v.ipv4[0] in v.ipv4;
    assert Shows(v, ID, World(seat).enis[ID]);
    assert v in [v];
  }

  lemma EnsureAgain(t: Node, name: string, seat: Option<Attachment>) returns (s: Node)
    requires Idle(t) && t.interrupted == 0 && t.ec2 == World(seat) && seat.Some? && seat.value.instance == ME
    requires seat.value.id == ATT
    ensures Resting(s, World(seat), Apply(t.state, Handled(EnsureOf(name), Success(seat))), t.failed)
  {
    s := Submit(t, EnsureOf(name));
    LookupShowsIt(seat);
    s := Ask(s, EnsureOf(name), EFind, Listed([ViewOf(seat)]), World(seat));
    s := Finish(s, EnsureOf(name), Success(seat));
  }

  /** A retried ensure succeeds without ever asking for deletion on termination. */
  lemma RetrySkipsDeleteOnTermination() returns (s: Node)
    ensures Resting(s, World(Seat(false, false)), s.state, 1)
    ensures StateKey(UID, "net1") in s.state && Backs(ME, s.ec2, s.state[StateKey(UID, "net1")])
    ensures !DeletedWithInstance(s.ec2, s.state[StateKey(UID, "net1")].eniId)
  {
    s := EnsureCanFailAfterAttach();
    s := EnsureAgain(s, "net1", Seat(false, false));
  }

  // ---- releases ----------------------------------------------------------------------

  lemma ReleaseDetaches(t: Node, dies: bool) returns (s: Node)
    requires Idle(t) && t.interrupted == 0 && t.ec2 == World(Seat(false, dies))
    ensures Working(s, RELEASE, RPoll(ViewOf(Seat(false, dies))), World(Seat(true, dies)), t.state, t.failed)
  {
    s := Submit(t, RELEASE);
    var v := ViewOf(Seat(false, dies));
    LookupShowsIt(Seat(false, dies));
    s := Ask(s, RELEASE, RFind, Listed([v]), World(Seat(false, dies)));
    assert NonPrimary(v.ipv4[..0]) == [];
    s := Ask(s, RELEASE, RDetach(v), Done, World(Seat(true, dies)));
  }

  lemma Detaches(t: Node, dies: bool) returns (s: Node)
    requires Reachable(SETUP, t) && t.ec2 == World(Seat(true, dies))
    ensures s == t.(ec2 := World(None)) && Reachable(SETUP, s)
  {
    assert Environment(ME, t.ec2, World(None));
    s := t.(ec2 := World(None));
    ReachableStep(SETUP, t, Elsewhere, s);
  }

  /** A release that gives up waiting and an ensure that follows record an interface
      on its way out; then the pod has an entry and nothing attached, so repeating
      the ensure makes a new interface. */
  lemma FailedReleaseBreaksAgreement() returns (s: Node)
    ensures Idle(s) && StateKey(UID, "net1") in s.state && !Backs(ME, s.ec2, s.state[StateKey(UID, "net1")])
    ensures NoHolder(ME, s.ec2, TagOf(UID))
  {
    s := RetrySkipsDeleteOnTermination();
    s := ReleaseDetaches(s, false);
    var t := s.(worker := Busy(RELEASE, Finished(JobFailed(true))));
    ReachableStep(SETUP, s, GiveUp, t);
    s := Finish(t, RELEASE, JobFailed(true));
    s := EnsureAgain(s, "net1", Seat(true, false));
    s := Detaches(s, false);
  }

  lemma EnsureSucceeds() returns (s: Node)
    ensures Resting(s, World(Seat(false, true)), Apply(map[], Handled(ENSURE, Success(None))), 0)
  {
    s := AttachedNotYetModified();
    s := Ask(s, ENSURE, EModify(ViewOf(None), ATT), Done, World(Seat(false, true)));
    s := Finish(s, ENSURE, Success(None));
  }

  lemma PollShowsIt()
    ensures Executes(ME, World(None), DescribeEni(ID), Listed([ViewOf(None)]), World(None))
  {
    var v := ViewOf(None);
    assert v.ipv4[0] in v.ipv4;
    assert Shows(v, ID, World(None).enis[ID]);
  }

  lemma ReleaseSucceeds(t: Node) returns (s: Node)
    requires Idle(t) && t.interrupted == 0 && t.ec2 == World(Seat(false, true))
    ensures Resting(s, Ec2(map[], {ID}, {ID}), Apply(t.state, Handled(RELEASE, Released)), t.failed)
  {
    var v := ViewOf(Seat(false, true));
    s := ReleaseDetaches(t, true);
    s := Detaches(s, true);
    PollShowsIt();
    s := Ask(s, RELEASE, RPoll(v), Listed([ViewOf(None)]), World(None));
    assert AfterDelete(World(None), ID) == Ec2(map[], {ID}, {ID});
    s := Ask(s, RELEASE, RDelete(v), Done, Ec2(map[], {ID}, {ID}));
    s := Finish(s, RELEASE, Released);
  }

  /** No job fails and none is interrupted: the pod's first interface is released,
      and the entry of its second names an interface that is gone. */
  lemma ReleaseTakesTheOtherInterface() returns (s: Node)
    ensures Idle(s) && s.failed == 0 && s.interrupted == 0
    ensures StateKey(UID, "net2") in s.state && s.ec2.enis == map[]
  {
    s := EnsureSucceeds();
    s := EnsureAgain(s, "net2", Seat(false, true));
    s := ReleaseSucceeds(s);
    assert StateKey(UID, "net1")[|UID| + 4] != StateKey(UID, "net2")[|UID| + 4];
  }

  // ---- waves that free nothing -------------------------------------------------------

  /** A job of another pod. */
  const OTHER := EnsureJob(PROFILE, "profile", SyncRequest("uid-2", "pod-2", "default", "net1", "profile", [], [], ""))

  lemma FullQueueDropsAll(queue: seq<Job>, jobs: seq<Job>)
    requires |queue| >= SETUP.capacity
    ensures Fill(SETUP.capacity, queue, jobs) == queue
  {
  }

  /** No job has failed and none is interrupted: the pod has an entry and an attached
      interface, but another pod's job fills the queue, so the wave is dropped, and
      after the pod's deletion nothing asks again. */
  lemma FullQueueDropsTheWave() returns (s: Node)
    ensures Reachable(SETUP, s) && s.failed == 0 && s.interrupted == 0 && NoJob(s, UID)
    ensures StateKey(UID, "net1") in Wave(s.state, UID) && !NoneSteady(ME, s.ec2, TagOf(UID))
    ensures WaveOffered(SETUP, s.state, Wave(s.state, UID), s.queue, s.queue)
  {
    var t := EnsureSucceeds();
    s := t.(queue := [OTHER], accepted := t.accepted + [OTHER], unbumped := t.unbumped + 1);
    assert t.queue + [OTHER] == [OTHER];
    ReachableStep(SETUP, t, Offer(OTHER), s);
    var k := StateKey(UID, "net1");
    assert s.state.Keys == {k} && Wave(s.state, UID) == {k};
    assert Holder(ME, s.ec2, TagOf(UID), ID) && Steady(ME, s.ec2, ID);
    assert ListsWave(s.state, {k}, [s.state[k]]);
    FullQueueDropsAll(s.queue, WaveJobs(SETUP, [s.state[k]]));
  }

  function Asked(s: Node, job: Job, pc: Pc, e: Ec2): Node {
    s.(ec2 := e, worker := Busy(job, pc))
  }

  /** One more answer to the worker. */
  lemma AskOn(run: seq<Node>, acts: seq<Action>, job: Job, pc: Pc, r: Response, e: Ec2)
    returns (run': seq<Node>, acts': seq<Action>)
    requires Run(SETUP, run, acts) && run[|acts|].worker == Busy(job, pc) && Fits(job, pc)
    requires NextCall(job, pc).Some? && Executes(ME, run[|acts|].ec2, NextCall(job, pc).value, r, e)
    ensures Run(SETUP, run', acts') && run'[0] == run[0] && acts' == acts + [Exchange(r)]
    ensures run'[|acts'|] == Asked(run[|acts|], job, After(job, pc, r), e)
  {
    run', acts' := run + [Asked(run[|acts|], job, After(job, pc, r), e)], acts + [Exchange(r)];
  }

  lemma EnsureSteps(s: Node) returns (run: seq<Node>, acts: seq<Action>)
    requires s.worker == Busy(ENSURE, ECreate(1)) && s.ec2 == Ec2(map[], {}, {})
    ensures Run(SETUP, run, acts) && run[0] == s
    ensures run[|acts|] == Asked(s, ENSURE, Finished(Success(None)), World(Seat(false, true)))
    ensures forall j :: 0 <= j < |acts| ==> acts[j].Exchange?
  {
    var v := ViewOf(None);
    run, acts := [s], [];
    CreateIsPossible();
    run, acts := AskOn(run, acts, ENSURE, ECreate(1), Created(v), World(None));
    AttachIsPossible();
    run, acts := AskOn(run, acts, ENSURE, EAttach(1, v), AttachedAs(ATT), World(Seat(false, false)));
    run, acts := AskOn(run, acts, ENSURE, EModify(v, ATT), Done, World(Seat(false, true)));
  }

  /** A wave that comes while an ensure of the pod is under way, before the map has an
      entry, is empty; the ensure then succeeds, and the interface stays. */
  lemma EnsureUnderWayOutlivesWave() returns (run: seq<Node>, acts: seq<Action>)
    ensures Run(SETUP, run, acts) && Reachable(SETUP, run[0])
    ensures forall j :: 0 <= j < |acts| ==> acts[j].Exchange? || acts[j].Settle?
    ensures Wave(run[0].state, UID) == {} && NoHolder(ME, run[0].ec2, TagOf(UID))
    ensures NoJob(run[|acts|], UID) && !NoneSteady(ME, run[|acts|].ec2, TagOf(UID))
  {
    var s := NothingAttachedYet();
    run, acts := EnsureSteps(s);
    var last := Settled(run[|acts|]);
    assert Holder(ME, last.ec2, TagOf(UID), ID) && Steady(ME, last.ec2, ID);
    run, acts := run + [last], acts + [Settle];
  }
}
