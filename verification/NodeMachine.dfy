/** One node as a state machine: EC2, the agent's bounded queue, its single
    worker and its state map.  Enqueuers, worker, EC2 and the environment
    interleave freely; any call can fail; the agent can crash at any point. */
module NodeMachine {
  import opened Common
  import opened Ec2Model
  import opened JobProgram
  import opened AgentState

  /** Fixed for a run: the instance, the profile configuration, the queue size. */
  datatype Setup = Setup(me: string, profiles: map<string, Profile>, capacity: nat)

  /** `Taken`: dequeued, the depth gauge not yet decremented. */
  datatype Worker = Waiting | Taken(job: Job) | Busy(job: Job, pc: Pc)

  /** `unbumped` counts jobs enqueued whose gauge increment is still to come;
      `accepted` and `handled` run since the agent started; the last two fields
      are counters over the whole run, across restarts. */
  datatype Node = Node(
    ec2: Ec2,
    queue: seq<Job>, worker: Worker, state: StateMap,
    depth: int, unbumped: nat,
    accepted: seq<Job>, handled: seq<Handled>,
    failed: nat, interrupted: nat)

  /** What the two request handlers and the pod hook let into the queue. */
  predicate Admissible(p: Setup, job: Job) {
    && job.profileKey in p.profiles && job.profile == p.profiles[job.profileKey]
    && job.RequestedProfile() == job.profileKey
  }

  /** A release of this pod has found an interface and is not over. */
  predicate MidRelease(w: Worker, podUid: string) {
    && w.Busy? && w.job.ReleaseJob? && w.job.Uid() == podUid
    && !w.pc.RFind? && w.pc != Finished(JobFailed(false))
  }

  datatype Action =
    | Offer(job: Job)
    | BumpDepth
    | Take
    | Begin
    | Exchange(response: Response)
    | GiveUp
    | Settle
    | Elsewhere
    | Crash

  predicate Initial(p: Setup, s: Node) {
    && Wf(p.me, s.ec2) && s.ec2.ours == {}
    && s == Node(s.ec2, [], Waiting, map[], 0, 0, [], [], 0, 0)
  }

  /** A job leaves the worker and its outcome reaches the map. */
  function Settled(s: Node): Node
    requires s.worker.Busy? && s.worker.pc.Finished? && Fits(s.worker.job, s.worker.pc)
  {
    var h := Handled(s.worker.job, s.worker.pc.outcome);
    s.(worker := Waiting,
       state := Apply(s.state, h),
       handled := s.handled + [h],
       failed := if h.Succeeded() then s.failed else s.failed + 1)
  }

  function Crashed(s: Node): Node {
    s.(queue := [], worker := Waiting, state := map[], depth := 0, unbumped := 0,
       accepted := [], handled := [],
       interrupted := if s.worker.Busy? then s.interrupted + 1 else s.interrupted)
  }

  /** The worker's next EC2 call and its answer, at the worker's program counter. */
  predicate Exchanges(p: Setup, s: Node, r: Response, s': Node) {
    && s.worker.Busy? && Fits(s.worker.job, s.worker.pc)
    && NextCall(s.worker.job, s.worker.pc).Some?
    && Executes(p.me, s.ec2, NextCall(s.worker.job, s.worker.pc).value, r, s'.ec2)
    && s' == s.(ec2 := s'.ec2, worker := Busy(s.worker.job, After(s.worker.job, s.worker.pc, r)))
  }

  predicate Step(p: Setup, s: Node, a: Action, s': Node) {
    match a
    case Offer(job) =>
      && Admissible(p, job)
      && s' == if |s.queue| < p.capacity
               then s.(queue := s.queue + [job], accepted := s.accepted + [job], unbumped := s.unbumped + 1)
               else s
    case BumpDepth => s.unbumped > 0 && s' == s.(unbumped := s.unbumped - 1, depth := s.depth + 1)
    case Take =>
      && s.worker.Waiting? && s.queue != []
      && s' == s.(queue := s.queue[1..], worker := Taken(s.queue[0]))
    case Begin =>
      && s.worker.Taken?
      && s' == s.(worker := Busy(s.worker.job, Start(s.worker.job)), depth := s.depth - 1)
    case Exchange(r) => Exchanges(p, s, r, s')
    case GiveUp =>
      && s.worker.Busy? && s'.worker.Busy? && GivesUp(s.worker.pc, s'.worker.pc)
      && s' == s.(worker := Busy(s.worker.job, s'.worker.pc))
    case Settle =>
      && s.worker.Busy? && s.worker.pc.Finished? && Fits(s.worker.job, s.worker.pc)
      && s' == Settled(s)
    case Elsewhere =>
      && Environment(p.me, s.ec2, s'.ec2)
      && s' == s.(ec2 := s'.ec2)
    case Crash => s' == Crashed(s)
  }

  /** `run[i]` is the state before `acts[i]`. */
  ghost predicate Run(p: Setup, run: seq<Node>, acts: seq<Action>) {
    && |run| == |acts| + 1
    && forall i :: 0 <= i < |acts| ==> Step(p, run[i], acts[i], run[i + 1])
  }

  ghost predicate RunFromStart(p: Setup, run: seq<Node>, acts: seq<Action>) {
    Run(p, run, acts) && Initial(p, run[0])
  }

  ghost predicate Reachable(p: Setup, s: Node) {
    exists run, acts :: RunFromStart(p, run, acts) && run[|run| - 1] == s
  }

  lemma InitialIsReachable(p: Setup, s: Node)
    requires Initial(p, s)
    ensures Reachable(p, s)
  {
    assert RunFromStart(p, [s], []);
  }

  lemma ReachableStep(p: Setup, s: Node, a: Action, s': Node)
    requires Reachable(p, s) && Step(p, s, a, s')
    ensures Reachable(p, s')
  {
    var run, acts :| RunFromStart(p, run, acts) && run[|run| - 1] == s;
    assert RunFromStart(p, run + [s'], acts + [a]);
  }

  lemma {:induction false} ReachableRun(p: Setup, run: seq<Node>, acts: seq<Action>, i: nat)
    requires Run(p, run, acts) && Reachable(p, run[0]) && i < |run|
    ensures Reachable(p, run[i])
  {
    if i > 0 {
      ReachableRun(p, run, acts, i - 1);
      ReachableStep(p, run[i - 1], acts[i - 1], run[i]);
    }
  }
}
