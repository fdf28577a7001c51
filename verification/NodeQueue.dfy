/** The queue and the state map over all interleavings: nothing accepted is lost
    or reordered, and the map is a function of the handled history. */
module NodeQueue {
  import opened Common
  import opened Ec2Model
  import opened JobProgram
  import opened AgentState
  import opened NodeMachine

  function Jobs(handled: seq<Handled>): seq<Job> {
    if handled == [] then [] else Jobs(handled[..|handled| - 1]) + [handled[|handled| - 1].job]
  }

  function InFlight(w: Worker): seq<Job> {
    if w.Waiting? then [] else [w.job]
  }

  /** Accepted jobs, in order, are those handled, the one in flight, those queued. */
  predicate Conserved(p: Setup, s: Node) {
    && s.accepted == Jobs(s.handled) + InFlight(s.worker) + s.queue
    && |s.queue| <= p.capacity
    && s.depth == |s.queue| + (if s.worker.Taken? then 1 else 0) - s.unbumped
    && (forall i :: 0 <= i < |s.accepted| ==> Admissible(p, s.accepted[i]))
  }

  predicate Accepted(s: Node, podUid: string, interfaceName: string) {
    exists i :: 0 <= i < |s.accepted| && s.accepted[i].Uid() == podUid && s.accepted[i].InterfaceName() == interfaceName
  }

  predicate MapFollowsHistory(p: Setup, s: Node) {
    && AllSound(s.handled) && s.state == Replay(s.handled)
    && KeysMatch(s.state)
    && (forall k :: k in s.state ==> s.state[k].networkProfile in p.profiles)
    && (forall k :: k in s.state ==> Accepted(s, s.state[k].podUid, s.state[k].interfaceName))
  }

  lemma JobsSnoc(handled: seq<Handled>, h: Handled)
    ensures Jobs(handled + [h]) == Jobs(handled) + [h.job]
  {
    assert (handled + [h])[..|handled|] == handled;
  }

  lemma StepConserves(p: Setup, s: Node, a: Action, s': Node)
    requires Conserved(p, s) && Step(p, s, a, s')
    ensures Conserved(p, s')
  {
    match a
    case Offer(job) =>
      assert s'.accepted == s.accepted || s'.accepted == Jobs(s.handled) + InFlight(s.worker) + s'.queue;
    case Take => TakeKeepsOrder(s.handled, s.queue);
    case Settle => SettleConserves(p, s, s');
    case _ =>
  }

  lemma TakeKeepsOrder(handled: seq<Handled>, queue: seq<Job>)
    requires queue != []
    ensures Jobs(handled) + [] + queue == Jobs(handled) + [queue[0]] + queue[1..]
  {
    assert queue == [queue[0]] + queue[1..];
  }

  lemma SettleConserves(p: Setup, s: Node, s': Node)
    requires Conserved(p, s) && Step(p, s, Settle, s')
    ensures Conserved(p, s')
  {
    JobsSnoc(s.handled, Handled(s.worker.job, s.worker.pc.outcome));
  }

  lemma InFlightIsAccepted(p: Setup, s: Node)
    requires Conserved(p, s) && !s.worker.Waiting?
    ensures Admissible(p, s.worker.job) && Accepted(s, s.worker.job.Uid(), s.worker.job.InterfaceName())
  {
    var i := |Jobs(s.handled)|;
    assert s.accepted[i] == s.worker.job;
  }

  lemma AcceptedGrows(s: Node, s': Node, podUid: string, interfaceName: string)
    requires s.accepted <= s'.accepted && Accepted(s, podUid, interfaceName)
    ensures Accepted(s', podUid, interfaceName)
  {
    var i :| 0 <= i < |s.accepted| && s.accepted[i].Uid() == podUid && s.accepted[i].InterfaceName() == interfaceName;
    assert s'.accepted[i] == s.accepted[i];
  }

  /** An entry after a job was there before, or is the job's own. */
  lemma AppliedEntry(state: StateMap, h: Handled, k: string)
    requires h.Sound() && k in Apply(state, h)
    ensures (k in state && Apply(state, h)[k] == state[k]) ||
      (h.outcome.Ensured? && h.job.EnsureJob? && Apply(state, h)[k] == Entry(h.job.sync, h.outcome.result))
  {
  }

  lemma SettleFollowsHistory(p: Setup, s: Node, s': Node)
    requires Conserved(p, s) && MapFollowsHistory(p, s) && Step(p, s, Settle, s')
    ensures MapFollowsHistory(p, s')
  {
    assert s'.handled[..|s.handled|] == s.handled;
    forall k | k in s'.state
      ensures s'.state[k].networkProfile in p.profiles
      ensures Accepted(s', s'.state[k].podUid, s'.state[k].interfaceName)
    {
      SettledEntry(p, s, s', k);
    }
  }

  lemma SettledEntry(p: Setup, s: Node, s': Node, k: string)
    requires Conserved(p, s) && MapFollowsHistory(p, s) && Step(p, s, Settle, s') && k in s'.state
    ensures s'.state[k].networkProfile in p.profiles
    ensures Accepted(s', s'.state[k].podUid, s'.state[k].interfaceName)
  {
    InFlightIsAccepted(p, s);
    AppliedEntry(s.state, Handled(s.worker.job, s.worker.pc.outcome), k);
    AcceptedGrows(s, s', s'.state[k].podUid, s'.state[k].interfaceName);
  }

  lemma StepFollowsHistory(p: Setup, s: Node, a: Action, s': Node)
    requires Conserved(p, s) && MapFollowsHistory(p, s) && Step(p, s, a, s')
    ensures MapFollowsHistory(p, s')
  {
    if a.Settle? {
      SettleFollowsHistory(p, s, s');
    } else if !a.Crash? {
      forall k | k in s'.state
        ensures Accepted(s', s'.state[k].podUid, s'.state[k].interfaceName)
      {
        AcceptedGrows(s, s', s.state[k].podUid, s.state[k].interfaceName);
      }
    }
  }

  lemma {:induction false} RunConserves(p: Setup, run: seq<Node>, acts: seq<Action>, i: nat)
    requires RunFromStart(p, run, acts) && i < |run|
    ensures Conserved(p, run[i]) && MapFollowsHistory(p, run[i])
  {
    if i > 0 {
      RunConserves(p, run, acts, i - 1);
      StepConserves(p, run[i - 1], acts[i - 1], run[i]);
      StepFollowsHistory(p, run[i - 1], acts[i - 1], run[i]);
    }
  }

  /** FIFO conservation, the queue bound and what the depth gauge shows, in
      every reachable state. */
  lemma ReachableIsConserved(p: Setup, s: Node)
    requires Reachable(p, s)
    ensures Conserved(p, s) && MapFollowsHistory(p, s)
  {
    var run, acts :| RunFromStart(p, run, acts) && run[|run| - 1] == s;
    RunConserves(p, run, acts, |run| - 1);
  }

  /** A status query that names pod and interface matches at most one entry. */
  lemma FullQueryIsUnique(p: Setup, s: Node, q: Query, k1: string, k2: string)
    requires Reachable(p, s) && q.podUid != "" && q.interfaceName != ""
    requires k1 in s.state && q.Accepts(s.state[k1]) && k2 in s.state && q.Accepts(s.state[k2])
    ensures k1 == k2
  {
    ReachableIsConserved(p, s);
  }

  /** In every reachable state an interface's entry is that of the last
      successful job about it since the agent started. */
  lemma EntryIsLastSuccess(p: Setup, s: Node, podUid: string, interfaceName: string)
    requires Reachable(p, s)
    requires ColonFree(podUid) && forall i :: 0 <= i < |s.accepted| ==> ColonFree(s.accepted[i].Uid())
    ensures StateKey(podUid, interfaceName) in s.state <==>
              exists i :: Wins(s.handled, i, podUid, interfaceName) && s.handled[i].outcome.Ensured?
    ensures forall i :: Wins(s.handled, i, podUid, interfaceName) && s.handled[i].outcome.Ensured? ==>
              && s.handled[i].job.EnsureJob? && StateKey(podUid, interfaceName) in s.state
              && s.state[StateKey(podUid, interfaceName)] == Entry(s.handled[i].job.sync, s.handled[i].outcome.result)
  {
    ReachableIsConserved(p, s);
    forall i | 0 <= i < |s.handled|
      ensures ColonFree(s.handled[i].job.Uid())
    {
      JobsAt(s.handled, i);
      assert s.accepted[i] == s.handled[i].job;
    }
    LastSuccessWins(s.handled, podUid, interfaceName);
  }

  lemma {:induction false} JobsSize(handled: seq<Handled>)
    ensures |Jobs(handled)| == |handled|
  {
    if handled != [] {
      JobsSize(handled[..|handled| - 1]);
    }
  }

  lemma {:induction false} JobsAt(handled: seq<Handled>, i: nat)
    requires i < |handled|
    ensures |Jobs(handled)| == |handled| && Jobs(handled)[i] == handled[i].job
  {
    var n := |handled| - 1;
    if n > 0 {
      JobsAt(handled[..n], if i < n then i else 0);
    }
  }
}
