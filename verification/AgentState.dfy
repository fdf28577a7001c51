/** The agent's state map: what a finished job does to it, and what it must be
    after any history of jobs. */
module AgentState {
  import opened Common
  import opened Ec2Model
  import opened JobProgram

  datatype InterfaceState = InterfaceState(
    podUid: string, podName: string, namespace: string, networkProfile: string, eniId: EniId,
    ipv4: seq<string>, ipv6: seq<string>, status: string, interfaceName: string, mac: string)

  type StateMap = map<string, InterfaceState>

  function StateKey(podUid: string, interfaceName: string): string {
    podUid + ":" + interfaceName
  }

  function Entry(req: SyncRequest, res: SyncResult): InterfaceState {
    InterfaceState(req.podUid, req.podName, req.namespace, req.networkProfile, res.eniId,
                   res.ipv4, res.ipv6, "attached", req.interfaceName, res.mac)
  }

  function KeyOf(job: Job): string {
    StateKey(job.Uid(), job.InterfaceName())
  }

  datatype Handled = Handled(job: Job, outcome: Outcome)
  {
    predicate Sound() { Fits(job, Finished(outcome)) }
    predicate Succeeded() { !outcome.JobFailed? }
    predicate About(podUid: string, interfaceName: string) {
      job.Uid() == podUid && job.InterfaceName() == interfaceName
    }
    predicate Releases(podUid: string) { outcome.Released? && job.Uid() == podUid }

    /** A release of the pod that found an interface and succeeded or failed. */
    predicate Touches(podUid: string) {
      job.ReleaseJob? && job.Uid() == podUid && (outcome.Released? || outcome == JobFailed(true))
    }
  }

  function Apply(state: StateMap, h: Handled): StateMap
    requires h.Sound()
  {
    match h.outcome
    case Ensured(res, _) => state[KeyOf(h.job) := Entry(h.job.sync, res)]
    case Released => state - {KeyOf(h.job)}
    case JobFailed(_) => state
  }

  predicate AllSound(history: seq<Handled>) {
    forall i :: 0 <= i < |history| ==> history[i].Sound()
  }

  function Replay(history: seq<Handled>): StateMap
    requires AllSound(history)
  {
    if history == [] then map[]
    else Apply(Replay(history[..|history| - 1]), history[|history| - 1])
  }

  // ---- last successful job wins ----------------------------------------------

  /** Job i is the last successful one about this interface. */
  ghost predicate Wins(history: seq<Handled>, i: int, podUid: string, interfaceName: string) {
    && 0 <= i < |history|
    && history[i].Succeeded() && history[i].About(podUid, interfaceName)
    && forall j :: i < j < |history| && history[j].Succeeded() ==> !history[j].About(podUid, interfaceName)
  }

  predicate ColonFree(s: string) {
    ':' !in s
  }

  lemma KeyIsInjective(uid: string, name: string, uid': string, name': string)
    requires ColonFree(uid) && ColonFree(uid')
    requires StateKey(uid, name) == StateKey(uid', name')
    ensures uid == uid' && name == name'
  {
    SplitAtFirst(':', uid, name, uid', name');
  }

  /** With a colon in a UID two interfaces can share a key. */
  lemma KeysCanCollide()
    ensures StateKey("a:b", "c") == StateKey("a", "b:c")
  {
  }

  lemma ClashOf(uid: string, uid': string)
    requires uid + ":" <= uid'
    ensures exists name, name' :: StateKey(uid, name) == StateKey(uid', name')
  {
    var rest := uid'[|uid| + 1..];
    assert uid' == uid + ":" + rest;
    assert StateKey(uid, rest + ":") == StateKey(uid', "");
  }

  /** Two pods have interfaces that share a key exactly when the UID of one is the
      start of the other's, up to a colon. */
  lemma KeysClashExactlyWhen(uid: string, uid': string)
    requires uid != uid'
    ensures (exists name, name' :: StateKey(uid, name) == StateKey(uid', name'))
            <==> uid + ":" <= uid' || uid' + ":" <= uid
  {
    if name, name' :| StateKey(uid, name) == StateKey(uid', name') {
      JoinedFront(':', uid, name, uid', name');
    }
    if uid + ":" <= uid' {
      ClashOf(uid, uid');
    }
    if uid' + ":" <= uid {
      ClashOf(uid', uid);
      var name', name :| StateKey(uid', name') == StateKey(uid, name);
    }
  }

  /** A job changes what the map says about its own interface, and about no other:
      an ensure that succeeded leaves its entry, a release that succeeded none. */
  lemma ApplyIsLocal(state: StateMap, h: Handled, uid: string, name: string)
    requires h.Sound() && ColonFree(uid) && ColonFree(h.job.Uid())
    ensures var k, after := StateKey(uid, name), Apply(state, h);
      if h.Succeeded() && h.About(uid, name)
      then
        && (k in after <==> h.outcome.Ensured?)
        && (k in after ==>
              var st, req, res := after[k], h.job.sync, h.outcome.result;
              && st.podUid == uid && st.interfaceName == name
              && st.podName == req.podName && st.namespace == req.namespace && st.networkProfile == req.networkProfile
              && st.eniId == res.eniId && st.mac == res.mac && st.ipv4 == res.ipv4 && st.ipv6 == res.ipv6
              && st.status == "attached")
      else (k in after <==> k in state) && (k in after ==> after[k] == state[k])
  {
    if KeyOf(h.job) == StateKey(uid, name) {
      KeyIsInjective(h.job.Uid(), h.job.InterfaceName(), uid, name);
    }
  }

  /** The position of the last successful job about an interface, or -1. */
  function LastSuccess(history: seq<Handled>, podUid: string, interfaceName: string): (i: int)
    ensures -1 <= i < |history|
  {
    if history == [] then -1
    else
      var last := history[|history| - 1];
      if last.Succeeded() && last.About(podUid, interfaceName) then |history| - 1
      else LastSuccess(history[..|history| - 1], podUid, interfaceName)
  }

  lemma {:induction false} LastSuccessIsTheWinner(history: seq<Handled>, podUid: string, interfaceName: string, i: int)
    ensures Wins(history, i, podUid, interfaceName) <==>
              i == LastSuccess(history, podUid, interfaceName) && i >= 0
  {
    if history != [] {
      var init := history[..|history| - 1];
      LastSuccessIsTheWinner(init, podUid, interfaceName, i);
      if i < |init| && history[|init|].Succeeded() && history[|init|].About(podUid, interfaceName) {
        assert !Wins(history, i, podUid, interfaceName);
      }
    }
  }

  lemma {:induction false} MapHoldsLastSuccess(history: seq<Handled>, podUid: string, interfaceName: string)
    requires AllSound(history)
    requires ColonFree(podUid) && forall h :: h in history ==> ColonFree(h.job.Uid())
    ensures var i, k := LastSuccess(history, podUid, interfaceName), StateKey(podUid, interfaceName);
            var m := Replay(history);
            && (k in m <==> i >= 0 && history[i].outcome.Ensured?)
            && (k in m ==> m[k] == Entry(history[i].job.sync, history[i].outcome.result))
  {
    if history != [] {
      var init, last := history[..|history| - 1], history[|history| - 1];
      MapHoldsLastSuccess(init, podUid, interfaceName);
      assert last in history;
      if last.Succeeded() && StateKey(last.job.Uid(), last.job.InterfaceName()) == StateKey(podUid, interfaceName) {
        KeyIsInjective(last.job.Uid(), last.job.InterfaceName(), podUid, interfaceName);
      }
    }
  }

  /** The map holds exactly the entry of the last successful job about each
      interface: its entry if that was an ensure, nothing if it was a release
      or if no job about it succeeded.  Failed jobs change nothing. */
  lemma LastSuccessWins(history: seq<Handled>, podUid: string, interfaceName: string)
    requires AllSound(history)
    requires ColonFree(podUid) && forall h :: h in history ==> ColonFree(h.job.Uid())
    ensures StateKey(podUid, interfaceName) in Replay(history) <==>
              exists i :: Wins(history, i, podUid, interfaceName) && history[i].outcome.Ensured?
    ensures forall i :: Wins(history, i, podUid, interfaceName) && history[i].outcome.Ensured? ==>
              && StateKey(podUid, interfaceName) in Replay(history)
              && Replay(history)[StateKey(podUid, interfaceName)]
                   == Entry(history[i].job.sync, history[i].outcome.result)
  {
    MapHoldsLastSuccess(history, podUid, interfaceName);
    LastSuccessIsTheWinner(history, podUid, interfaceName, LastSuccess(history, podUid, interfaceName));
    forall i | Wins(history, i, podUid, interfaceName)
      ensures i == LastSuccess(history, podUid, interfaceName)
    {
      LastSuccessIsTheWinner(history, podUid, interfaceName, i);
    }
  }

  // ---- where an entry comes from -------------------------------------------------

  /** The position of the last ensure that recorded an entry under the key, or -1. */
  function RecordedBy(history: seq<Handled>, k: string): (i: int)
    ensures -1 <= i < |history|
    ensures i >= 0 ==> history[i].outcome.Ensured? && KeyOf(history[i].job) == k
  {
    if history == [] then -1
    else
      var last := history[|history| - 1];
      if last.outcome.Ensured? && KeyOf(last.job) == k then |history| - 1
      else RecordedBy(history[..|history| - 1], k)
  }

  lemma {:induction false} EntryIsRecorded(history: seq<Handled>, k: string)
    requires AllSound(history) && k in Replay(history)
    ensures var i := RecordedBy(history, k);
      i >= 0 && history[i].job.EnsureJob? && Replay(history)[k] == Entry(history[i].job.sync, history[i].outcome.result)
  {
    var init, last := history[..|history| - 1], history[|history| - 1];
    if !(last.outcome.Ensured? && KeyOf(last.job) == k) {
      EntryIsRecorded(init, k);
    }
  }

  /** A release of the pod has succeeded among the jobs from the n-th on. */
  predicate PodReleasedSince(history: seq<Handled>, n: nat, uid: string) {
    exists i :: n <= i < |history| && history[i].Releases(uid)
  }

  predicate PodTouchedSince(history: seq<Handled>, n: nat, uid: string) {
    exists i :: n <= i < |history| && history[i].Touches(uid)
  }

  lemma SinceSnoc(history: seq<Handled>, h: Handled, n: nat, uid: string)
    requires n <= |history|
    ensures PodReleasedSince(history + [h], n, uid) <==> PodReleasedSince(history, n, uid) || h.Releases(uid)
    ensures PodTouchedSince(history + [h], n, uid) <==> PodTouchedSince(history, n, uid) || h.Touches(uid)
  {
    var next := history + [h];
    assert next[|history|] == h && forall i :: 0 <= i < |history| ==> next[i] == history[i];
    if PodReleasedSince(history, n, uid) {
      var i :| n <= i < |history| && history[i].Releases(uid);
      assert next[i].Releases(uid);
    }
    if PodTouchedSince(history, n, uid) {
      var i :| n <= i < |history| && history[i].Touches(uid);
      assert next[i].Touches(uid);
    }
  }

  // ---- queries -----------------------------------------------------------------

  /** Every entry sits under the key of its own pod and interface. */
  predicate KeysMatch(state: StateMap) {
    forall k :: k in state ==> k == StateKey(state[k].podUid, state[k].interfaceName)
  }

  lemma {:induction false} ReplayKeysMatch(history: seq<Handled>)
    requires AllSound(history)
    ensures KeysMatch(Replay(history))
  {
    if history != [] {
      ReplayKeysMatch(history[..|history| - 1]);
    }
  }

  /** An empty field of a status query matches everything. */
  datatype Query = Query(podUid: string, interfaceName: string, networkProfile: string)
  {
    predicate Accepts(s: InterfaceState) {
      && (podUid != "" ==> s.podUid == podUid)
      && (interfaceName != "" ==> s.interfaceName == interfaceName)
      && (networkProfile != "" ==> s.networkProfile == networkProfile)
    }
  }
}
