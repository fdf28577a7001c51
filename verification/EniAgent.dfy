/** The agent server: request handlers, pod event hooks, the queue and the
    worker.  Each method is a run of the node machine, so everything proved of
    the machine's reachable states holds of the agent between calls. */
module EniAgent {
  import opened Common
  import opened Ec2Model
  import opened JobProgram
  import opened AgentState
  import opened NodeMachine
  import opened NodeSafety
  import opened NodeQueue
  import opened NodeDrain
  import opened JobTrace
  import opened EniManager
  import opened PodEvents
  import opened ReleaseWave

  datatype ReportRequest = ReportRequest(
    nodeName: string, namespace: string, podName: string, podUid: string, interfaceName: string,
    networkProfile: string, ipv4: seq<string>, ipv6: seq<string>, mac: string)

  /** Why a request is refused before it reaches the queue. */
  datatype Refusal = NoRequest | WrongNode | UnknownProfile

  /** The answer to an accepted request says only whether the queue had room. */
  datatype Reply = Queued | QueueFull | Refused(why: Refusal)

  datatype Metric = SyncTotal | SyncFailures | ReleaseTotal | ReleaseFailures

  type Counters = map<(Metric, string), nat>

  function Reading(c: Counters, m: Metric, key: string): nat {
    if (m, key) in c then c[(m, key)] else 0
  }

  function Incremented(c: Counters, m: Metric, key: string): Counters {
    c[(m, key) := Reading(c, m, key) + 1]
  }

  function MetricOf(h: Handled): Metric {
    if h.job.EnsureJob? then (if h.Succeeded() then SyncTotal else SyncFailures)
    else (if h.Succeeded() then ReleaseTotal else ReleaseFailures)
  }

  function Count(handled: seq<Handled>, m: Metric, key: string): nat {
    if handled == [] then 0
    else
      var last := handled[|handled| - 1];
      Count(handled[..|handled| - 1], m, key) + (if MetricOf(last) == m && last.job.profileKey == key then 1 else 0)
  }

  function Counted(c: Counters, h: Handled): Counters {
    Incremented(c, MetricOf(h), h.job.profileKey)
  }

  /** Exactly the counter of this job's kind, outcome and profile has gone up by one. */
  ghost predicate CountsOne(c: Counters, c': Counters, job: Job, outcome: Outcome) {
    forall m, key :: Reading(c', m, key) == Reading(c, m, key) +
      if key == job.profileKey && (match m
        case SyncTotal => outcome.Ensured?
        case SyncFailures => job.EnsureJob? && outcome.JobFailed?
        case ReleaseTotal => outcome.Released?
        case ReleaseFailures => job.ReleaseJob? && outcome.JobFailed?) then 1 else 0
  }

  lemma CountedCountsOne(c: Counters, h: Handled)
    requires h.Sound()
    ensures CountsOne(c, Counted(c, h), h.job, h.outcome)
  {
  }

  /** Each counter is the number of handled jobs of its kind and profile. */
  ghost predicate CountersMatch(c: Counters, handled: seq<Handled>) {
    forall m, key :: Reading(c, m, key) == Count(handled, m, key)
  }

  lemma CountedCounts(c: Counters, handled: seq<Handled>, h: Handled)
    requires CountersMatch(c, handled)
    ensures CountersMatch(Counted(c, h), handled + [h])
  {
    assert (handled + [h])[..|handled|] == handled;
  }

  // ---- the machine behind the agent ----------------------------------------------

  /** `s` is a reachable state of the machine that has this cloud, queue, map and
      depth gauge, its worker at w and no gauge update pending. */
  ghost predicate Mirrors(p: Setup, s: Node, w: Worker, cloud: Ec2, queue: seq<Job>, state: StateMap, depth: int) {
    && Reachable(p, s) && s.worker == w && s.ec2 == cloud
    && s.queue == queue && s.state == state && s.depth == depth && s.unbumped == 0
  }

  /** The machine state after the worker has run its job to the end. */
  ghost function AfterJob(s: Node, c: Ec2Client): Node
    requires c.Pc().Finished?
    reads c
  {
    Settled(s.(ec2 := c.cloud, worker := Busy(c.job, c.Pc())))
  }

  /** A worker that has run its job to the end leaves the machine in the state
      its bookkeeping describes. */
  lemma FinishedJobIsReachable(p: Setup, s: Node, c: Ec2Client, queue: seq<Job>, state: StateMap, depth: int)
    requires Mirrors(p, s, Busy(c.job, Start(c.job)), c.start, queue, state, depth)
    requires c.Valid() && c.me == p.me && c.Pc().Finished?
    ensures Handled(c.job, c.Pc().outcome).Sound()
    ensures Mirrors(p, AfterJob(s, c), Waiting, c.cloud, queue, Apply(state, Handled(c.job, c.Pc().outcome)), depth)
    ensures AfterJob(s, c).handled == s.handled + [Handled(c.job, c.Pc().outcome)]
  {
    TraceIsRun(p, s, c.job, c.trace);
    var a := s.(ec2 := c.cloud, worker := Busy(c.job, PcAfter(c.job, c.trace)));
    var b := s.(ec2 := c.cloud, worker := Busy(c.job, c.Pc()));
    if c.gaveUp {
      ReachableStep(p, a, GiveUp, b);
    }
    ReachableStep(p, b, Settle, Settled(b));
  }

  class AgentServer {
    const node: string
    const profiles: map<string, Profile>
    const capacity: nat
    const manager: Manager

    var queue: seq<Job>
    var state: StateMap
    var queueDepth: int
    var inFlight: int
    var counters: Counters

    /** The machine state this agent and its EC2 are in. */
    ghost var model: Node

    ghost function TheSetup(): Setup {
      Setup(manager.client.me, profiles, capacity)
    }

    ghost predicate At(w: Worker)
      reads this, manager.client
    {
      && Mirrors(TheSetup(), model, w, manager.client.cloud, queue, state, queueDepth)
      && inFlight == 0 && CountersMatch(counters, model.handled)
    }

    /** Between two method calls the worker waits. */
    ghost predicate Valid()
      reads this, manager.client
    {
      At(Waiting)
    }

    /** The agent starts for the first time, or again after it stopped at any point
        of any run: `before` is the state of the machine at that point. */
    constructor (manager: Manager, profiles: map<string, Profile>, node: string, capacity: nat, ghost before: Node)
      requires Reachable(Setup(manager.client.me, profiles, capacity), before)
      requires before.ec2 == manager.client.cloud
      ensures Valid() && this.manager == manager && this.profiles == profiles
      ensures this.node == node && this.capacity == capacity
      ensures queue == [] && state == map[] && model == Crashed(before)
    {
      this.manager, this.profiles, this.node, this.capacity := manager, profiles, node, capacity;
      queue, state, queueDepth, inFlight, counters := [], map[], 0, 0, map[];
      model := Crashed(before);
      new;
      ReachableStep(TheSetup(), before, Crash, model);
    }

    // ---- the queue ------------------------------------------------------------

    /** A job is queued last if there is room, and dropped otherwise. */
    method EnqueueJob(job: Job) returns (accepted: bool)
      requires Valid() && Admissible(TheSetup(), job)
      modifies `queue, `queueDepth, `model
      ensures Valid() && model.handled == old(model.handled)
      ensures accepted <==> |old(queue)| < capacity
      ensures queue == if accepted then old(queue) + [job] else old(queue)
      ensures queueDepth == |queue|
    {
      ReachableIsConserved(TheSetup(), model);
      accepted := |queue| < capacity;
      if accepted {
        queue := queue + [job];
        queueDepth := queueDepth + 1;
        ghost var offered := model.(queue := queue, accepted := model.accepted + [job], unbumped := 1);
        ReachableStep(TheSetup(), model, Offer(job), offered);
        ReachableStep(TheSetup(), offered, BumpDepth, offered.(unbumped := 0, depth := offered.depth + 1));
        model := offered.(unbumped := 0, depth := offered.depth + 1);
      }
    }

    method ReportInterface(req: Option<ReportRequest>) returns (r: Reply)
      requires Valid()
      modifies `queue, `queueDepth, `model
      ensures Valid() && model.handled == old(model.handled)
      ensures r == if req.None? then Refused(NoRequest)
                   else if req.value.nodeName != "" && req.value.nodeName != node then Refused(WrongNode)
                   else if req.value.networkProfile !in profiles then Refused(UnknownProfile)
                   else if |old(queue)| < capacity then Queued else QueueFull
      ensures r != Queued ==> queue == old(queue)
      ensures r == Queued ==>
        queue == old(queue) + [EnsureJob(profiles[req.value.networkProfile], req.value.networkProfile,
          SyncRequest(req.value.podUid, req.value.podName, req.value.namespace, req.value.interfaceName,
                      req.value.networkProfile, req.value.ipv4, req.value.ipv6, req.value.mac))]
    {
      if req.None? { return Refused(NoRequest); }
      var q := req.value;
      if q.nodeName != "" && q.nodeName != node { return Refused(WrongNode); }
      if q.networkProfile !in profiles { return Refused(UnknownProfile); }
      var sync := SyncRequest(
        q.podUid, q.podName, q.namespace, q.interfaceName, q.networkProfile, q.ipv4, q.ipv6, q.mac);
      var accepted := EnqueueJob(EnsureJob(profiles[q.networkProfile], q.networkProfile, sync));
      r := if accepted then Queued else QueueFull;
    }

    method ReleaseInterface(req: Option<ReleaseRequest>) returns (r: Reply)
      requires Valid()
      modifies `queue, `queueDepth, `model
      ensures Valid() && model.handled == old(model.handled)
      ensures r == if req.None? then Refused(NoRequest)
                   else if req.value.networkProfile !in profiles then Refused(UnknownProfile)
                   else if |old(queue)| < capacity then Queued else QueueFull
      ensures r != Queued ==> queue == old(queue)
      ensures r == Queued ==>
        queue == old(queue) + [ReleaseJob(profiles[req.value.networkProfile], req.value.networkProfile, req.value)]
    {
      if req.None? { return Refused(NoRequest); }
      var q := req.value;
      if q.networkProfile !in profiles { return Refused(UnknownProfile); }
      var accepted := EnqueueJob(ReleaseJob(profiles[q.networkProfile], q.networkProfile, q));
      r := if accepted then Queued else QueueFull;
    }

    // ---- the state map ----------------------------------------------------------

    /** The entries the filter keeps, each once, in no particular order. */
    method SnapshotStates(keep: InterfaceState -> bool) returns (states: seq<InterfaceState>)
      requires Valid()
      ensures |states| == |set k | k in state && keep(state[k])|
      ensures forall st :: st in states <==> exists k :: k in state && keep(state[k]) && st == state[k]
    {
      states := [];
      var left := state.Keys;
      ghost var seen: set<string> := {};
      while left != {}
        invariant left <= state.Keys
        invariant seen == set k | k in state && k !in left && keep(state[k])
        invariant |states| == |seen|
        invariant forall st :: st in states <==> exists k :: k in seen && st == state[k]
        decreases left
      {
        var k :| k in left;
        left := left - {k};
        if keep(state[k]) {
          states := states + [state[k]];
          seen := seen + {k};
        }
      }
      assert seen == set k | k in state && keep(state[k]);
    }

    /** A query that names pod and interface gets at most one entry. */
    method GetStatus(q: Option<Query>) returns (states: seq<InterfaceState>)
      requires Valid()
      ensures forall st :: st in states <==> exists k :: k in state && st == state[k] && (q.Some? ==>
        && (q.value.podUid == "" || st.podUid == q.value.podUid)
        && (q.value.interfaceName == "" || st.interfaceName == q.value.interfaceName)
        && (q.value.networkProfile == "" || st.networkProfile == q.value.networkProfile))
      ensures q.Some? && q.value.podUid != "" && q.value.interfaceName != "" ==> |states| <= 1
    {
      var keep := (st: InterfaceState) => q.Some? ==> q.value.Accepts(st);
      states := SnapshotStates(keep);
      if q.Some? && q.value.podUid != "" && q.value.interfaceName != "" {
        ghost var matching := set k | k in state && keep(state[k]);
        if k :| k in matching {
          forall k' | k' in matching
            ensures k' == k
          {
            FullQueryIsUnique(TheSetup(), model, q.value, k, k');
          }
          assert matching == {k};
        }
      }
    }

    method UpdateState(req: SyncRequest, res: SyncResult)
      modifies `state
      ensures state == old(state)[StateKey(req.podUid, req.interfaceName) := Entry(req, res)]
    {
      var key := StateKey(req.podUid, req.interfaceName);
      var st := InterfaceState(req.podUid, req.podName, req.namespace, req.networkProfile, res.eniId,
                               res.ipv4, res.ipv6, "attached", req.interfaceName, res.mac);
      state := state[key := st];
    }

    method DeleteState(req: ReleaseRequest)
      modifies `state
      ensures state == old(state) - {StateKey(req.podUid, req.interfaceName)}
    {
      state := state - {StateKey(req.podUid, req.interfaceName)};
    }

    // ---- the worker ---------------------------------------------------------------

    method Increment(m: Metric, key: string)
      modifies `counters
      ensures counters == Incremented(old(counters), m, key)
    {
      counters := counters[(m, key) := Reading(counters, m, key) + 1];
    }

    method HandleEnsure(job: Job) returns (ghost outcome: Outcome)
      requires job.EnsureJob? && manager.client.Valid() && manager.Fresh(job)
      modifies `state, `inFlight, `counters, manager.client`cloud, manager.client`trace
      ensures manager.client.Valid() && manager.client.Pc() == Finished(outcome) && Handled(job, outcome).Sound()
      ensures state == Apply(old(state), Handled(job, outcome)) && inFlight == old(inFlight)
      ensures counters == Counted(old(counters), Handled(job, outcome))
      ensures CountsOne(old(counters), counters, job, outcome)
    {
      inFlight := inFlight + 1;
      var r := manager.EnsureInterface(job.profile, job.sync, job.profileKey);
      inFlight := inFlight - 1;
      if r.Err? {
        outcome := JobFailed(false);
        Increment(SyncFailures, job.profileKey);
        CountedCountsOne(old(counters), Handled(job, outcome));
        return;
      }
      outcome := manager.client.Pc().outcome;
      Increment(SyncTotal, job.profileKey);
      UpdateState(job.sync, r.value);
      CountedCountsOne(old(counters), Handled(job, outcome));
    }

    method HandleRelease(job: Job) returns (ghost outcome: Outcome)
      requires job.ReleaseJob? && manager.client.Valid() && manager.Fresh(job)
      modifies `state, `inFlight, `counters
      modifies manager.client`cloud, manager.client`trace, manager.client`gaveUp, manager.clock, manager.ctx
      ensures manager.client.Valid() && manager.client.Pc() == Finished(outcome) && Handled(job, outcome).Sound()
      ensures state == Apply(old(state), Handled(job, outcome)) && inFlight == old(inFlight)
      ensures counters == Counted(old(counters), Handled(job, outcome))
      ensures CountsOne(old(counters), counters, job, outcome)
    {
      inFlight := inFlight + 1;
      var ok := manager.ReleaseInterface(job.profile, job.release, job.profileKey);
      inFlight := inFlight - 1;
      outcome := manager.client.Pc().outcome;
      if !ok {
        Increment(ReleaseFailures, job.profileKey);
        CountedCountsOne(old(counters), Handled(job, outcome));
        return;
      }
      Increment(ReleaseTotal, job.profileKey);
      DeleteState(job.release);
      CountedCountsOne(old(counters), Handled(job, outcome));
    }

    method RunJob(job: Job) returns (ghost outcome: Outcome)
      requires Wf(manager.client.me, manager.client.cloud) && UniqueHolders(manager.client.me, manager.client.cloud)
      modifies `state, `inFlight, `counters
      modifies manager.client`cloud, manager.client`job, manager.client`start
      modifies manager.client`trace, manager.client`gaveUp, manager.clock, manager.ctx
      ensures manager.client.Valid() && manager.client.job == job && manager.client.start == old(manager.client.cloud)
      ensures manager.client.Pc() == Finished(outcome) && Handled(job, outcome).Sound()
      ensures state == Apply(old(state), Handled(job, outcome)) && inFlight == old(inFlight)
      ensures counters == Counted(old(counters), Handled(job, outcome))
      ensures CountsOne(old(counters), counters, job, outcome)
    {
      manager.client.Begin(job);
      if job.EnsureJob? {
        outcome := HandleEnsure(job);
      } else {
        outcome := HandleRelease(job);
      }
    }

    /** Runs a job to its end: its calls follow the program, the map changes as
        the outcome says, and exactly its counter goes up. */
    method HandleJob(job: Job) returns (ghost outcome: Outcome)
      requires At(Busy(job, Start(job)))
      modifies `state, `inFlight, `counters, `model
      modifies manager.client`cloud, manager.client`job, manager.client`start
      modifies manager.client`trace, manager.client`gaveUp, manager.clock, manager.ctx
      ensures Valid() && queue == old(queue)
      ensures model.handled == old(model.handled) + [Handled(job, outcome)] && Handled(job, outcome).Sound()
      ensures state == Apply(old(state), Handled(job, outcome))
      ensures CountsOne(old(counters), counters, job, outcome)
      ensures manager.client.Valid() && manager.client.job == job && manager.client.start == old(manager.client.cloud)
      ensures manager.client.Pc() == Finished(outcome)
    {
      ReachableIsSafe(TheSetup(), model);
      outcome := RunJob(job);
      FinishedJobIsReachable(TheSetup(), model, manager.client, queue, old(state), queueDepth);
      CountedCounts(old(counters), model.handled, Handled(job, outcome));
      model := AfterJob(model, manager.client);
    }

    /** One turn of the worker's loop. */
    method WorkOnce() returns (ghost h: Handled)
      requires Valid() && queue != []
      modifies `queue, `queueDepth, `state, `inFlight, `counters, `model
      modifies manager.client`cloud, manager.client`job, manager.client`start
      modifies manager.client`trace, manager.client`gaveUp, manager.clock, manager.ctx
      ensures Valid() && queue == old(queue)[1..] && h.job == old(queue)[0] && h.Sound()
      ensures model.handled == old(model.handled) + [h] && state == Apply(old(state), h)
    {
      var job := queue[0];
      queue := queue[1..];
      ghost var taken := model.(queue := queue, worker := Taken(job));
      ReachableStep(TheSetup(), model, Take, taken);
      queueDepth := queueDepth - 1;
      ghost var begun := taken.(worker := Busy(job, Start(job)), depth := queueDepth);
      ReachableStep(TheSetup(), taken, Begin, begun);
      model := begun;
      ghost var outcome := HandleJob(job);
      h := Handled(job, outcome);
    }

    // ---- pod events ------------------------------------------------------------------

    method OnPodAdd(pod: Option<Pod>)
      requires Valid()
      modifies `queue, `queueDepth, `model
      ensures Valid()
      ensures WaveOffered(TheSetup(), state,
        if pod.Some? && (pod.value.deletionRequested || pod.value.phase == Succeeded || pod.value.phase == PodFailed)
        then Wave(state, pod.value.uid) else {}, old(queue), queue)
      ensures WaveOffered(TheSetup(), state,
        if Added(pod).TriggersWave() then Wave(state, pod.value.uid) else {}, old(queue), queue)
    {
      EmptyWaveOffersNothing(TheSetup(), state, queue);
      if IsPodTerminating(pod) {
        EnqueueReleasesForPod(pod.value.uid);
      }
    }

    method OnPodUpdate(was: Option<Pod>, now: Option<Pod>)
      requires Valid()
      modifies `queue, `queueDepth, `model
      ensures Valid()
      ensures WaveOffered(TheSetup(), state,
        if was.Some? && now.Some?
          && !(was.value.deletionRequested || was.value.phase == Succeeded || was.value.phase == PodFailed)
          && (now.value.deletionRequested || now.value.phase == Succeeded || now.value.phase == PodFailed)
        then Wave(state, now.value.uid) else {}, old(queue), queue)
      ensures WaveOffered(TheSetup(), state,
        if Updated(was, now).TriggersWave() then Wave(state, now.value.uid) else {}, old(queue), queue)
    {
      EmptyWaveOffersNothing(TheSetup(), state, queue);
      if was.None? || now.None? { return; }
      if !IsPodTerminating(was) && IsPodTerminating(now) {
        EnqueueReleasesForPod(now.value.uid);
      }
    }

    method OnPodDelete(pod: Option<Pod>)
      requires Valid()
      modifies `queue, `queueDepth, `model
      ensures Valid()
      ensures WaveOffered(TheSetup(), state,
        if pod.Some? then Wave(state, pod.value.uid) else {}, old(queue), queue)
      ensures WaveOffered(TheSetup(), state,
        if Deleted(pod).TriggersWave() then Wave(state, pod.value.uid) else {}, old(queue), queue)
    {
      EmptyWaveOffersNothing(TheSetup(), state, queue);
      if pod.None? { return; }
      EnqueueReleasesForPod(pod.value.uid);
    }

    /** Offers the release of every entry of the pod, in no particular order. */
    method EnqueueReleasesForPod(uid: string)
      requires Valid()
      modifies `queue, `queueDepth, `model
      ensures Valid() && model.handled == old(model.handled)
      ensures WaveOffered(TheSetup(), state, Wave(state, uid), old(queue), queue)
    {
      var states := SnapshotEntries(uid);
      var i := 0;
      while i < |states|
        invariant 0 <= i <= |states|
        invariant Valid() && model.handled == old(model.handled)
        invariant queue == Fill(capacity, old(queue), WaveJobs(TheSetup(), states[..i]))
      {
        FillOneMore(TheSetup(), old(queue), states, i);
        EnqueueRelease(states[i]);
        i := i + 1;
      }
      assert states[..|states|] == states;
    }

    method EnqueueRelease(st: InterfaceState)
      requires Valid()
      modifies `queue, `queueDepth, `model
      ensures Valid() && model.handled == old(model.handled)
      ensures queue == if st.networkProfile in profiles && |old(queue)| < capacity
        then old(queue) + [WaveJob(TheSetup(), st)] else old(queue)
    {
      if st.networkProfile in profiles {
        var accepted := EnqueueJob(ReleaseJob(profiles[st.networkProfile], st.networkProfile,
          ReleaseRequest(st.podUid, st.podName, st.namespace, st.interfaceName, st.networkProfile)));
      }
    }

    method SnapshotEntries(uid: string) returns (states: seq<InterfaceState>)
      requires Valid()
      ensures ListsWave(state, Wave(state, uid), states)
    {
      var keep := (st: InterfaceState) => st.podUid == uid;
      states := SnapshotStates(keep);
      assert (set k | k in state && keep(state[k])) == Wave(state, uid);
      assert forall i :: 0 <= i < |states| ==> states[i] in states;
    }
  }
}
