/** What the pod event hook does to the queue: it offers the release of every entry
    of the pod, and does not look whether there was room. */
module ReleaseWave {
  import opened Common
  import opened JobProgram
  import opened AgentState
  import opened NodeMachine
  import opened NodeQueue
  import opened NodeDrain

  /** The queue after offering it jobs one by one: what does not fit is dropped. */
  function Fill(capacity: nat, queue: seq<Job>, jobs: seq<Job>): seq<Job> {
    if jobs == [] then queue
    else
      var q := Fill(capacity, queue, jobs[..|jobs| - 1]);
      if |q| < capacity then q + [jobs[|jobs| - 1]] else q
  }

  /** The releases of the listed entries; an entry without profile is skipped. */
  function WaveJobs(p: Setup, states: seq<InterfaceState>): seq<Job> {
    if states == [] then []
    else
      var rest, last := WaveJobs(p, states[..|states| - 1]), states[|states| - 1];
      if last.networkProfile in p.profiles then rest + [WaveJob(p, last)] else rest
  }

  /** The entries with these keys, listed once each in any order. */
  ghost predicate ListsWave(state: StateMap, wave: set<string>, states: seq<InterfaceState>) {
    && |states| == |wave|
    && (forall i :: 0 <= i < |states| ==> exists k :: k in wave && k in state && states[i] == state[k])
    && (forall k :: k in wave && k in state ==> state[k] in states)
  }

  /** The queue has been offered the release of every entry of the wave. */
  ghost predicate WaveOffered(p: Setup, state: StateMap, wave: set<string>, before: seq<Job>, after: seq<Job>) {
    exists states :: ListsWave(state, wave, states) && after == Fill(p.capacity, before, WaveJobs(p, states))
  }

  lemma {:induction false} FillFits(capacity: nat, queue: seq<Job>, jobs: seq<Job>)
    requires |queue| + |jobs| <= capacity
    ensures Fill(capacity, queue, jobs) == queue + jobs
  {
    if jobs != [] {
      FillFits(capacity, queue, jobs[..|jobs| - 1]);
      assert jobs == jobs[..|jobs| - 1] + [jobs[|jobs| - 1]];
    }
  }

  lemma {:induction false} WaveJobsAre(p: Setup, states: seq<InterfaceState>)
    ensures |WaveJobs(p, states)| <= |states|
    ensures forall st :: st in states && st.networkProfile in p.profiles ==> WaveJob(p, st) in WaveJobs(p, states)
  {
    if states != [] {
      WaveJobsAre(p, states[..|states| - 1]);
      ElementsSnoc(states);
      assert forall st :: st in states ==> st in Elements(states);
    }
  }

  lemma FillOneMore(p: Setup, queue: seq<Job>, states: seq<InterfaceState>, i: nat)
    requires i < |states|
    ensures var q := Fill(p.capacity, queue, WaveJobs(p, states[..i]));
      Fill(p.capacity, queue, WaveJobs(p, states[..i + 1])) ==
        if states[i].networkProfile in p.profiles && |q| < p.capacity then q + [WaveJob(p, states[i])] else q
  {
    assert states[..i + 1][..i] == states[..i];
    if states[i].networkProfile in p.profiles {
      var jobs := WaveJobs(p, states[..i + 1]);
      assert jobs[..|jobs| - 1] == WaveJobs(p, states[..i]);
    }
  }

  lemma EmptyWaveOffersNothing(p: Setup, state: StateMap, queue: seq<Job>)
    ensures WaveOffered(p, state, {}, queue, queue)
  {
    assert ListsWave(state, {}, []) && queue == Fill(p.capacity, queue, WaveJobs(p, []));
  }

  lemma {:induction false} FillBounds(capacity: nat, queue: seq<Job>, jobs: seq<Job>)
    requires |queue| <= capacity
    ensures queue <= Fill(capacity, queue, jobs) && |Fill(capacity, queue, jobs)| <= capacity
  {
    if jobs != [] {
      FillBounds(capacity, queue, jobs[..|jobs| - 1]);
    }
  }

  ghost predicate HasProfiles(p: Setup, state: StateMap, wave: set<string>) {
    forall k :: k in wave ==> k in state && state[k].networkProfile in p.profiles
  }

  function JobsOf(p: Setup, state: StateMap, wave: set<string>): set<Job>
    requires HasProfiles(p, state, wave)
  {
    set k | k in wave :: WaveJob(p, state[k])
  }

  /** Different entries have different releases. */
  lemma {:induction false} JobsOfSize(p: Setup, state: StateMap, wave: set<string>)
    requires HasProfiles(p, state, wave) && KeysMatch(state)
    ensures |JobsOf(p, state, wave)| == |wave|
  {
    if k :| k in wave {
      var rest := wave - {k};
      JobsOfSize(p, state, rest);
      forall k' | k' in rest
        ensures WaveJob(p, state[k']) != WaveJob(p, state[k])
      {
        assert k' != k;
      }
      assert JobsOf(p, state, wave) == JobsOf(p, state, rest) + {WaveJob(p, state[k])};
    }
  }

  /** The queue goes on from what was there with the release of every entry. */
  ghost predicate QueuedBehind(p: Setup, state: StateMap, wave: set<string>, before: seq<Job>, after: seq<Job>) {
    && before <= after
    && forall k :: k in wave ==>
         k in state && state[k].networkProfile in p.profiles && WaveJob(p, state[k]) in after[|before|..]
  }

  lemma QueuedNeedsRoom(p: Setup, state: StateMap, wave: set<string>, before: seq<Job>, after: seq<Job>)
    requires KeysMatch(state) && QueuedBehind(p, state, wave, before, after)
    ensures |before| + |wave| <= |after|
  {
    JobsOfSize(p, state, wave);
    ElementsSize(after[|before|..]);
    SubsetSize(JobsOf(p, state, wave), Elements(after[|before|..]));
  }

  /** The release of every entry of a wave is queued, behind what was there, exactly
      when there is room for the whole wave; what does not fit is dropped. */
  lemma WaveIsQueuedExactlyWhen(p: Setup, s: Node, uid: string, after: seq<Job>)
    requires Reachable(p, s) && WaveOffered(p, s.state, Wave(s.state, uid), s.queue, after)
    ensures s.queue <= after && |after| <= p.capacity
    ensures QueuedBehind(p, s.state, Wave(s.state, uid), s.queue, after) <==>
              |s.queue| + |Wave(s.state, uid)| <= p.capacity
  {
    ReachableIsConserved(p, s);
    var states :| ListsWave(s.state, Wave(s.state, uid), states)
      && after == Fill(p.capacity, s.queue, WaveJobs(p, states));
    WaveJobsAre(p, states);
    FillBounds(p.capacity, s.queue, WaveJobs(p, states));
    if |s.queue| + |Wave(s.state, uid)| <= p.capacity {
      FillFits(p.capacity, s.queue, WaveJobs(p, states));
      assert after[|s.queue|..] == WaveJobs(p, states);
    } else if QueuedBehind(p, s.state, Wave(s.state, uid), s.queue, after) {
      QueuedNeedsRoom(p, s.state, Wave(s.state, uid), s.queue, after);
    }
  }
}
