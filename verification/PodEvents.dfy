/** When a pod's informer events make the agent enqueue releases. */
module PodEvents {
  import opened Common

  datatype Phase = Pending | Running | Succeeded | PodFailed | Unknown

  datatype Pod = Pod(uid: string, deletionRequested: bool, phase: Phase)

  predicate IsPodTerminating(pod: Option<Pod>) {
    pod.Some? && (pod.value.deletionRequested || pod.value.phase.Succeeded? || pod.value.phase.PodFailed?)
  }

  datatype Event =
    | Added(pod: Option<Pod>)
    | Updated(was: Option<Pod>, now: Option<Pod>)
    | Deleted(pod: Option<Pod>)
  {
    /** The event makes the agent enqueue a release for each entry of the pod. */
    predicate TriggersWave() {
      match this
      case Added(pod) => IsPodTerminating(pod)
      case Updated(was, now) => was.Some? && now.Some? && !IsPodTerminating(was) && IsPodTerminating(now)
      case Deleted(pod) => pod.Some?
    }
  }

  function Waves(events: seq<Event>): nat {
    if events == [] then 0
    else Waves(events[..|events| - 1]) + (if events[|events| - 1].TriggersWave() then 1 else 0)
  }

  /** What an informer tells about one pod: added, then each update from the
      value before it. */
  function Life(versions: seq<Pod>): seq<Event>
    requires versions != []
  {
    if |versions| == 1 then [Added(Some(versions[0]))]
    else Life(versions[..|versions| - 1]) + [Updated(Some(versions[|versions| - 2]), Some(versions[|versions| - 1]))]
  }

  /** A deletion request is never withdrawn and a final phase never left. */
  predicate OnlyForward(versions: seq<Pod>) {
    forall i, j :: 0 <= i < j < |versions| ==>
      && (versions[i].deletionRequested ==> versions[j].deletionRequested)
      && (versions[i].phase.Succeeded? || versions[i].phase.PodFailed? ==> versions[j].phase == versions[i].phase)
  }

  /** The pod is being deleted or has run to its end. */
  predicate Over(pod: Pod) {
    pod.deletionRequested || pod.phase == Succeeded || pod.phase == PodFailed
  }

  lemma TerminatingIsOver(pod: Option<Pod>)
    ensures IsPodTerminating(pod) <==> pod.Some? && Over(pod.value)
  {
  }

  /** Over a pod's life until it is deleted, exactly one wave is triggered if the pod
      is ever asked to go or runs to its end, and none if not, however many updates
      and resyncs it is told in. */
  lemma {:induction false} LifeTriggersOnce(versions: seq<Pod>)
    requires versions != [] && OnlyForward(versions)
    ensures Waves(Life(versions)) == if Over(versions[|versions| - 1]) then 1 else 0
    ensures (exists i :: 0 <= i < |versions| && Over(versions[i])) <==> Over(versions[|versions| - 1])
  {
    var n := |versions| - 1;
    TerminatingIsOver(Some(versions[n]));
    if n == 0 {
      assert Life(versions)[..0] == [];
    } else {
      var init := versions[..n];
      LifeTriggersOnce(init);
      TerminatingIsOver(Some(versions[n - 1]));
      assert Life(versions)[..|Life(versions)| - 1] == Life(init);
      if i :| 0 <= i < n && Over(versions[i]) {
        assert Over(init[i]);
      }
    }
  }

  /** Deletion adds exactly one more. */
  lemma DeletionAddsOneWave(versions: seq<Pod>)
    requires versions != []
    ensures Waves(Life(versions) + [Deleted(Some(versions[|versions| - 1]))]) == Waves(Life(versions)) + 1
  {
    var events := Life(versions);
    assert (events + [Deleted(Some(versions[|versions| - 1]))])[..|events|] == events;
  }
}
