# multus-multivpc-cni: verified model

multus-multivpc-cni gives Kubernetes pods extra network interfaces backed by AWS ENIs. A CNI plugin
reports each pod interface to a node agent; the agent's single worker turns the queue of requests into
EC2 calls; a taint controller keeps pods off nodes whose agent is not ready. This project models those
three programs in Dafny and proves what they keep over all their runs.

## What is modelled

**The node** (the core). `NodeMachine` is a state machine of one node: EC2, the agent's bounded queue,
its worker and its state map. The worker has a program counter inside each job (`JobProgram`), so every
EC2 call is a step of its own, and between any two steps anything else may happen: requests are queued,
a detachment completes, an unattached interface is cleaned up, other actors change their own interfaces,
the agent crashes and restarts with an empty map and queue. A call takes effect and succeeds, does
nothing and fails, or takes effect and reports an error (`Ec2Model`). The theorems hold in every
reachable state, however calls fail:

- at most one interface of a pod is attached to the instance, and only detached interfaces are deleted (`NodeSafety`);
- at most one interface is left behind per failed or interrupted job (`NodeLeaks`);
- accepted jobs are handled in order and none is lost, and the state map is exactly the
  last-successful-job-wins function of the handled history (`NodeQueue`, `AgentState`);
- over every run in which no release of a pod fails or is interrupted halfway and the pod uses one interface name,
  every entry of it is backed by EC2 (`NodeCalm`); in any run an entry is backed exactly when its ensure found or made
  an interface attached to stay and no release of the pod has succeeded since, unless one failed halfway
  (`NodeAgreement`);
- a pod's addresses are what they were plus what was asked for (`NodeAddresses`);
- a pod's release wave drains it, and exactly when (`NodeDrain`, `ReleaseWave`);
- repeating a successful ensure or release at any later time, over restarts too, changes nothing (`NodeRetry`).

**The programs themselves.** `EniManager` holds the ENI manager's procedures with their loops, against a
remote EC2 that may change between calls. Each is proved to follow the program counter call by call, and
`JobTrace.TraceIsRun` turns the record of such a job into a run of the machine; `EnsureRecord` says how an ensure's
lookup decides what it ends with. `EniAgent` holds the agent server, started on whatever an earlier one left behind;
each of its methods is a run of the machine, so the theorems above hold between any two of its calls.

**The rest.** `PodEvents` (when informer events trigger a release wave), `CniCache` and `DelegateChain` (the
plugin's cache directory and delegate chains), `Taints` and `TaintController` (taint edits under optimistic
versioning, with other writers).

## What turned out not to hold

Each has a lemma with a concrete run or input, and a theorem saying exactly when the property does hold.

- *A release wave always frees the pod's interface.* Take a wave that is all that happens to the pod: no job of the
  pod is queued or in flight when it comes, none but its own releases is offered after it, all of them that are
  accepted have been handled and none failed, and the agent has not crashed. Then nothing of the pod is left attached
  to stay exactly when nothing was before or some release of the wave found room in the queue, and no entry is left
  exactly when every one did (`NodeDrain.WaveDrainsExactlyWhen`). So an interface stays when the map has no entry of
  it, as after an agent restart or an ensure that fails after its attach (`NodeWitness.EmptyWaveCanStrand`).
- *A release wave is queued.* The hook does not look whether the queue had room, and what does not fit is dropped, with
  no job having failed (`NodeWitness.FullQueueDropsTheWave`). All of a wave is queued exactly when there is room for
  all of it (`ReleaseWave.WaveIsQueuedExactlyWhen`), and then it drains the pod
  (`NodeDrain.QueuedWaveDrains`).
- *A wave comes last.* An ensure of the pod that is under way when the wave comes is not stopped by it, and leaves an
  interface (`NodeWitness.EnsureUnderWayOutlivesWave`); this is why the theorems about waves ask for none.
- *A recorded interface is attached to stay, and its ensure can be repeated without effect.* The lookup also returns
  interfaces that are detaching, so an ensure after a release that gave up waiting records one that is about to go
  (`NodeWitness.FailedReleaseBreaksAgreement`). A success is backed exactly when the lookup returned nothing or an
  interface that was not detaching (`EnsureRecord.EnsureSucceedsAsLookedUp`,
  `NodeAgreement.EnsuredIsBackedExactlyWhen`), which is always so in a run in which no release of the pod fails or is
  interrupted halfway (`NodeCalm.EntriesStayBacked`), and a repetition ends at once exactly when the interface is still
  attached with all that was recorded (`NodeRetry.EnsureEndsAtOnceExactlyWhen`).
- *An ensured interface is deleted with its instance.* The attribute is set only in the job that creates the
  interface; a retry after that call failed succeeds without it (`NodeWitness.RetrySkipsDeleteOnTermination`). It is
  set exactly when the recording ensure made the interface or its lookup showed it set
  (`NodeAgreement.EntryDiesWithInstanceExactlyWhen`, `EnsureRecord.EnsureSucceedsAsLookedUp`).
- *Releasing one interface of a pod leaves its others alone.* The tag names the pod only, so the pod's interfaces
  share one ENI, and with no failure at all a release leaves the other entries naming nothing
  (`NodeWitness.ReleaseTakesTheOtherInterface`). What is left of the pod in the map is backed exactly when nothing is
  left (`NodeDrain.ReleaseBacksTheRestExactlyWhen`); with one interface name per pod that is always so
  (`NodeAgreement.OneNameIsNotReleased`).
- *Map keys and cache file names are unambiguous.* Two pods have interfaces that share a key exactly when one UID
  starts the other, up to a colon (`AgentState.KeysClashExactlyWhen`, `KeysCanCollide`); file names clash exactly
  when that holds of the sanitised UIDs with an underscore and likewise, from the end, of the container prefixes
  (`CniCache.FileNamesClashExactlyWhen`, `FileNamesCanCollide`). Kubernetes UIDs and container ids hold neither.
- *Every cached interface is released on DEL.* A DEL that cannot reach the agent removes the file without a release
  (`CniCache.DelCanSkipTheRelease`). All are released exactly when each of the DELs that take a file reaches it
  (`CniCache.EnoughDelsDrain`).
- *DEL mirrors ADD.* Exactly when no delegate is configured with a `prevResult` of its own
  (`DelegateChain.DelMirrorsAdd`, `DelCanKeepPrev`).

## Assumptions

Nobody else attaches an interface with the agent's tag key to this instance, or attaches, changes or reuses an
interface of the agent; an unattached or detaching one may be cleaned up. EC2 never reuses interface and attachment
ids, never gives two attached interfaces one device index, and its answers show its current state. The queue holds at
least one job. A sleep lasts at least as long as asked and the clock does not go back. A retry on conflict makes five
attempts (client-go's default; client-go is not part of this model).

## Model

| member | source | states |
|---|---|---|
| Ec2Model.ExecutesKeepsWf | pkg/aws/eni_manager.go:51-64 | no call of the agent, whether it takes effect or not, breaks what EC2 guarantees: fresh ids, one interface per device index, ours attached only here |
| JobProgram.TagIsInjective | pkg/aws/eni_manager.go:176-178 | two pods never share a tag |
| JobProgram.FirstFreeIsLeast | pkg/aws/eni_manager.go:218-224 | the search returns the least unused index of the range and fails exactly when all are used |
| JobProgram.FreeIndexByPigeonhole | pkg/aws/eni_manager.go:193-224 | fewer than max - 1 interfaces at nonzero indexes leave an index free |
| JobProgram.AllocationsUseUpTheRange | pkg/aws/eni_manager.go:193-224 | successive allocations yield ever greater indexes, none in use, until the range is used up |
| JobProgram.MissingElements | pkg/aws/eni_manager.go:308-319 | what is requested is exactly what is wanted and absent |
| JobProgram.MissingConcat | pkg/aws/eni_manager.go:314-319 | requested addresses keep the order asked for |
| JobProgram.NonPrimaryOfView | pkg/aws/eni_manager.go:355-361 | unassigning what a response shows as non-primary means everything but the primary address |
| AgentState.KeysClashExactlyWhen | cmd/multivpc-eni-agent/main.go:237-239 | two pods have interfaces that share a key exactly when the UID of one starts the other's, up to a colon |
| AgentState.KeysCanCollide | cmd/multivpc-eni-agent/main.go:237-239 | two concrete pods and interfaces that share a key |
| AgentState.ApplyIsLocal | cmd/multivpc-eni-agent/main.go:211-235 | for colon-free UIDs a job changes what the map says about its own interface only: an ensure that succeeded leaves an entry with the request's names and profile and the result's ENI, addresses and MAC, a release that succeeded none, a failed job all as it was |
| AgentState.LastSuccessIsTheWinner | cmd/multivpc-eni-agent/main.go:182-209 | the recursive search for the last successful job about an interface finds it, and only it |
| AgentState.LastSuccessWins | cmd/multivpc-eni-agent/main.go:211-235 | for colon-free UIDs, replaying any history, an interface has an entry exactly when the last successful job about it was an ensure, and it is that job's |
| NodeSafety.ExecutesHolders | pkg/aws/eni_manager.go:278-285 | only an attach makes a tagged interface attached here |
| NodeSafety.LookupFindsHolder | pkg/aws/eni_manager.go:227-253 | a lookup is empty exactly when nothing of the pod is attached, and otherwise returns the one interface that is |
| NodeSafety.ExchangeKeepsUnique | pkg/aws/eni_manager.go:126-136 | no call of a job makes a second interface of a tag attached |
| NodeSafety.ExchangeKeepsPc | pkg/aws/eni_manager.go:116-174 | every call, whatever its answer, establishes what the next point of the job relies on |
| NodeSafety.StepKeepsSafe | cmd/multivpc-eni-agent/main.go:168-180 | every step of anybody, crashes included, keeps the safety invariant |
| NodeSafety.ReachableIsSafe | cmd/multivpc-eni-agent/main.go:168-209 | the safety invariant holds in every reachable state |
| NodeSafety.OneInterfacePerPod | pkg/aws/eni_manager.go:124-136 | at most one interface of a pod is attached to the instance at any time |
| NodeSafety.DeleteHitsDetached | pkg/aws/eni_manager.go:162-173 | whenever a delete is about to be called, its target is an interface created for that pod and has no attachment |
| NodeLeaks.StepKeepsLeakBound | pkg/aws/eni_manager.go:255-304 | every step keeps: loose interfaces, less the one the current job answers for, number at most the failed and interrupted jobs |
| NodeLeaks.LeaksAreBounded | pkg/aws/eni_manager.go:152-174 | between jobs at most one interface is left behind per failed or interrupted job, and created = deleted + in use + left behind |
| NodeLeaks.NothingLeaksWithoutFailure | cmd/multivpc-eni-agent/main.go:182-209 | with no failed or interrupted job, created = deleted + attached exactly |
| NodeQueue.StepConserves | cmd/multivpc-eni-agent/main.go:348-357 | every step keeps queue order, queue bound and what the depth gauge shows |
| NodeQueue.ReachableIsConserved | cmd/multivpc-eni-agent/main.go:168-180 | accepted jobs are, in order, those handled, the one in flight and those queued; the gauge differs from the queue length by the updates still to come; the map is the replay of the handled jobs |
| NodeQueue.FullQueryIsUnique | cmd/multivpc-eni-agent/main.go:328-346 | a status query naming pod and interface matches at most one entry |
| NodeQueue.EntryIsLastSuccess | cmd/multivpc-eni-agent/main.go:182-235 | for colon-free UIDs, in every reachable state an interface's entry is that of its last successful job since the agent started |
| NodeAgreement.ExecutesKeepsSteady | pkg/aws/eni_manager.go:306-397 | only detach and unassign calls take anything from an attached interface |
| NodeAgreement.ExchangeKeepsSteady | pkg/aws/eni_manager.go:116-174 | a job takes nothing from another pod's attached interface, and an ensure nothing from any |
| NodeAgreement.StepKeepsAgreement | cmd/multivpc-eni-agent/main.go:182-235 | every step keeps the agreement of map and EC2 |
| NodeAgreement.ExchangeIsOnTrack | pkg/aws/eni_manager.go:124-148 | whatever its calls answer, the interface an ensure goes on with is attached to stay exactly if it was when found, and gets every address asked for |
| NodeAgreement.EnsuredIsBackedExactlyWhen | pkg/aws/eni_manager.go:138-148 | EC2 backs what an ensure is about to record exactly when its lookup showed the interface attached to stay, or showed none; and then it is deleted with the instance exactly when new or shown so |
| NodeAgreement.EntriesAreBacked | cmd/multivpc-eni-agent/main.go:211-228 | in every reachable state each entry is that of a handled ensure, and EC2 backs it exactly when that ensure found or made an interface attached to stay and no release of the pod has succeeded since, if none has failed halfway since or is under way |
| NodeAgreement.EntryDiesWithInstanceExactlyWhen | pkg/aws/eni_manager.go:287-297 | in every reachable state an entry's interface, while attached to stay, is deleted with the instance exactly when the ensure that recorded it made it or found it so |
| NodeAgreement.OneNameIsNotReleased | cmd/multivpc-eni-agent/main.go:230-235 | while a pod uses one interface name, no release of it has succeeded since an entry of it was recorded |
| NodeAgreement.RunKeepsBacked | pkg/aws/eni_manager.go:116-174 | what EC2 backs it goes on backing over any run, restarts included, in which no release of the pod is at work |
| NodeCalm.StepKeepsCalm | cmd/multivpc-eni-agent/main.go:182-235 | every step keeps a pod calm (nothing of it on its way out but by a release under way, nothing of that kind found by an ensure), unless a release of it is interrupted or fails after its lookup |
| NodeCalm.EntriesStayBacked | cmd/multivpc-eni-agent/main.go:182-235 | over every run from a calm state in which no release of the pod is interrupted or fails after its lookup, an entry of it is backed exactly when no release of the pod has succeeded since it was recorded, and always with one interface name, whenever no release is under way |
| NodeCalm.AgreementWithoutFailedRelease | cmd/multivpc-eni-agent/main.go:182-235 | from the agent's first start, if no release of the pod was interrupted or failed after its lookup and the pod uses one interface name, every entry of it is backed whenever no release of it is under way |
| NodeCalm.ReleaseCalms | pkg/aws/eni_manager.go:152-174 | whatever failed before, a release that succeeds makes the pod calm again, if the map has no other entry of it |
| NodeAddresses.ExchangeAddsOnlyRequested | pkg/aws/eni_manager.go:306-352 | a call adds to the pod's interface at most what the job asks for |
| NodeAddresses.AddressesAreReconciled | pkg/aws/eni_manager.go:306-352 | over any run without release or failed ensure of the pod, from any moment its interface is attached to stay, the interface ends with exactly the addresses it had and all requested by ensures under way or to come |
| NodeAddresses.NewInterfaceIsReconciled | pkg/aws/eni_manager.go:126-138 | so does an interface an ensure has just made and attached, that ensure's own request included |
| NodeDrain.WaveJobsAreAdmissible | cmd/multivpc-eni-agent/main.go:386-403 | the profile of every entry resolves, so the hook never skips one |
| NodeDrain.StepKeepsDraining | cmd/multivpc-eni-agent/main.go:182-235 | while the pod is not ensured again its entries only go, and after a successful release it holds nothing |
| NodeDrain.ReleaseWaveDrains | cmd/multivpc-eni-agent/main.go:383-406 | once a release succeeded for every entry of the snapshot and no ensure of the pod was accepted, no entry is left, and if anything was released nothing attached carries the tag |
| NodeDrain.RunKeepsForgotten | pkg/aws/eni_manager.go:152-174 | an interface of a pod about which no job is queued or accepted stays attached for good, over restarts too |
| NodeDrain.RunKeepsNoHolder | pkg/aws/eni_manager.go:124-136 | while no ensure of a pod is in hand, a pod that holds nothing, or nothing to stay, goes on so, over restarts too |
| NodeDrain.WaveDrainsExactlyWhen | cmd/multivpc-eni-agent/main.go:383-406 | if the wave is all that happens to the pod and no accepted release of it fails: nothing stays attached exactly when nothing was before or some release of the wave found room in the queue; for colon-free UIDs no entry is left exactly when every one did |
| NodeDrain.QueuedWaveDrains | cmd/multivpc-eni-agent/main.go:383-406 | with the whole wave in the queue and no ensure of the pod queued, in flight or accepted: once what was accepted is handled and no job of the pod failed, no entry and nothing attached is left |
| NodeDrain.ReleaseBacksTheRestExactlyWhen | pkg/aws/eni_manager.go:152-178 | when a release of a pod has succeeded, EC2 backs all entries left of the pod exactly when it had no other entry |
| NodeRetry.EnsureReusesHolder | pkg/aws/eni_manager.go:124-136 | an ensure goes on with the pod's attached interface, however it came to be attached, and never creates beside it |
| NodeRetry.CreateOnlyWithoutHolder | pkg/aws/eni_manager.go:131-136 | whenever an ensure is about to create or attach, nothing of the pod is attached |
| NodeRetry.EnsureEndsAtOnceExactlyWhen | pkg/aws/eni_manager.go:306-352 | a repeated ensure ends after its lookup, with EC2 unchanged and the same entry, exactly when the entry's interface is still attached with all that is recorded |
| NodeRetry.EnsureAgainChangesNothing | pkg/aws/eni_manager.go:124-148 | an ensure whose entry EC2 backs can be repeated after any run, restarts included, in which no release of the pod was at work: one lookup, EC2 unchanged, the same entry |
| NodeRetry.ReleaseAgainChangesNothing | pkg/aws/eni_manager.go:152-160 | a release that succeeded can be repeated after any run, restarts included, in which the pod was not ensured: one lookup, EC2 unchanged, and for colon-free UIDs the map too |
| NodeRetry.ReleasedPodHoldsNothing | pkg/aws/eni_manager.go:162-173 | a release that succeeded leaves nothing of the pod attached |
| NodeWitness.EmptyWaveCanStrand | cmd/multivpc-eni-agent/main.go:383-406 | a reachable state in which a pod's wave is empty and its interface attached |
| NodeWitness.FullQueueDropsTheWave | cmd/multivpc-eni-agent/main.go:348-357 | a reachable state, no job having failed, in which a pod with an entry and an attached interface has its whole wave dropped by a full queue |
| NodeWitness.EnsureUnderWayOutlivesWave | cmd/multivpc-eni-agent/main.go:383-406 | a run from a state with an empty wave and nothing attached, an ensure of the pod under way, to one with its interface attached, no job being offered |
| NodeWitness.RetrySkipsDeleteOnTermination | pkg/aws/eni_manager.go:287-297 | a reachable state with an entry whose interface is not deleted with the instance |
| NodeWitness.FailedReleaseBreaksAgreement | pkg/aws/eni_manager.go:229-239 | a reachable state with an entry whose interface is not attached, after a release that gave up waiting |
| NodeWitness.ReleaseTakesTheOtherInterface | pkg/aws/eni_manager.go:152-178 | a reachable state, no job having failed, with an entry of a pod and no interface at all, after a release of the pod's other interface |
| JobTrace.ReleaseFollowsPlan | pkg/aws/eni_manager.go:152-174 | a release's mutating calls are a prefix of unassign IPv4, unassign IPv6, detach, delete (empty unassigns omitted), all of it on success, none if the lookup returned nothing |
| JobTrace.PollPrecedesDelete | pkg/aws/eni_manager.go:412-443 | the call before a delete is a poll of that interface that saw it gone, unattached or available |
| JobTrace.DeletesAreSafe | pkg/aws/eni_manager.go:399-410 | every delete in the record of a job hits an interface that is not attached |
| JobTrace.CallsTagPod | pkg/aws/eni_manager.go:116-178 | every job begins with a lookup under "multivpc-" and the pod's UID, and names no other tag |
| JobTrace.PollsShowAttached | pkg/aws/eni_manager.go:412-443 | while a release waits, no poll has shown the interface detached |
| JobTrace.ReleaseFailsOnlyWhen | pkg/aws/eni_manager.go:152-174 | a release that did not give up waiting fails only because its last call failed |
| JobTrace.IndexStaysFree | pkg/aws/eni_manager.go:180-275 | the index an ensure chose is still free when it attaches, unless somebody else attached an interface meanwhile |
| EnsureRecord.AttachIsPossible | pkg/aws/eni_manager.go:255-285 | when an ensure is about to attach, its new interface is unattached and its index free, provided the interface still exists and nobody else has attached one since the index was chosen |
| EnsureRecord.EnsureSucceedsAsLookedUp | pkg/aws/eni_manager.go:116-149 | over every record of an ensure that succeeds: EC2 backs the result exactly when the lookup returned nothing or an interface that was not detaching, and then it is deleted with the instance exactly when the lookup returned nothing or showed it so |
| EnsureRecord.EnsureFailsOnlyWhen | pkg/aws/eni_manager.go:116-149 | an ensure fails only for a profile without subnet or security group, and then makes no call; or because its last call failed, other than the one about the instance type, the instance was not found, or all device indexes were in use |
| EnsureRecord.IndexIsAsAnswered | pkg/aws/eni_manager.go:180-225 | the index chosen is the least not in use when the instance was described, below the limit the type call answered (at least 2, and 15 if it answered none or was not made), and there is none exactly when all are in use |
| JobTrace.TraceIsRun | cmd/multivpc-eni-agent/main.go:168-209 | the record of a job that follows the program counter is a run of the machine |
| EniManager.LeastFreeIndex | pkg/aws/eni_manager.go:218-224 | the loop returns the least unused index from 1 up and an error exactly when there is none |
| EniManager.CollectUsed | pkg/aws/eni_manager.go:193-198 | the loop collects exactly the device indexes that are set |
| EniManager.CollectAddresses | pkg/aws/eni_manager.go:308-313 | the loop collects exactly the addresses shown |
| EniManager.ListMissing | pkg/aws/eni_manager.go:314-319 | the loop lists the wanted addresses that are absent, in order |
| EniManager.ListNonPrimary | pkg/aws/eni_manager.go:355-361 | the loop lists exactly the non-primary addresses |
| EniManager.Manager.FindExistingInterface | pkg/aws/eni_manager.go:227-253 | returns the interface attached here under the tag, none exactly when there is none, as it was when the last call ended |
| EniManager.Manager.NextAvailableDeviceIndex | pkg/aws/eni_manager.go:180-225 | the least index that the instance did not use when the first call described it, below the limit the type call answered (15 if it answered none or was not made, and at least 2); an error if there is none or the instance could not be described |
| EniManager.Manager.CreateAndAttachInterface | pkg/aws/eni_manager.go:255-304 | on success a new tagged interface is attached to stay, at the least index free on EC2 as it was described during the call, and will be deleted with the instance |
| EniManager.Manager.AssignIPAddresses | pkg/aws/eni_manager.go:306-352 | on success an interface of the agent, detaching or not, has exactly its old addresses and the requested ones, and nothing else of it changed but that a detachment may have completed |
| EniManager.Manager.UnassignIPAddresses | pkg/aws/eni_manager.go:354-383 | on success an interface of the agent, detaching or not, is left with its primary IPv4 address and no IPv6 address, and otherwise as it was but that a detachment may have completed |
| EniManager.Manager.DetachInterface | pkg/aws/eni_manager.go:385-397 | asks for the detachment the lookup showed, then goes on to wait or fails |
| EniManager.Manager.WaitForDetachment | pkg/aws/eni_manager.go:412-443 | polls every two seconds, at most 16 times, and not once the context is cancelled; success means a poll saw the interface detached, and it is; it fails only if the context was cancelled or 30 seconds have passed, every poll having failed or shown the interface attached |
| EniManager.Manager.DeleteInterface | pkg/aws/eni_manager.go:399-410 | deletes only a detached interface; success means it is gone |
| EniManager.Manager.EnsureInterface | pkg/aws/eni_manager.go:116-149 | follows the ensure program to its end; after success EC2 backs the entry to be recorded exactly when the lookup returned nothing or an interface that was not detaching, and then it is deleted with the instance exactly when the lookup returned nothing or showed it so; it fails only for an incomplete profile, a failed last call, an instance not found or without a free index |
| EniManager.Manager.ReleaseInterface | pkg/aws/eni_manager.go:152-174 | follows the release program to its end; success means nothing attached here carries the pod's tag; it fails only if its last call failed, or the context was cancelled or 30 seconds passed and no poll had shown the interface detached |
| EniAgent.AgentServer.constructor | cmd/multivpc-eni-agent/main.go:157-166 | a new agent, whatever an earlier one left on EC2, is the machine after a restart |
| EniAgent.AgentServer.EnqueueJob | cmd/multivpc-eni-agent/main.go:348-357 | queues a job last if there is room and drops it otherwise, and says which |
| EniAgent.AgentServer.ReportInterface | cmd/multivpc-eni-agent/main.go:258-298 | refuses a missing request, another node's and an unknown profile; otherwise offers the ensure |
| EniAgent.AgentServer.ReleaseInterface | cmd/multivpc-eni-agent/main.go:300-326 | refuses a missing request and an unknown profile; otherwise offers the release |
| EniAgent.AgentServer.SnapshotStates | cmd/multivpc-eni-agent/main.go:241-256 | exactly the entries the filter keeps, each once |
| EniAgent.AgentServer.GetStatus | cmd/multivpc-eni-agent/main.go:328-346 | exactly the entries the query matches; at most one if it names pod and interface |
| EniAgent.AgentServer.HandleJob | cmd/multivpc-eni-agent/main.go:182-209 | runs a job along its program to its end; the map changes as the outcome says, exactly the counter of its kind, outcome and profile goes up by one, and the result is a reachable state of the machine |
| EniAgent.AgentServer.WorkOnce | cmd/multivpc-eni-agent/main.go:168-180 | takes the oldest job and handles it |
| EniAgent.FinishedJobIsReachable | cmd/multivpc-eni-agent/main.go:182-209 | a job run to its end leaves the machine in a reachable state |
| EniAgent.AgentServer.OnPodAdd | cmd/multivpc-eni-agent/main.go:361-365 | the entries of a pod with a deletion request or a final phase are offered for release |
| EniAgent.AgentServer.OnPodUpdate | cmd/multivpc-eni-agent/main.go:367-374 | entries are offered for release when the pod gets a deletion request or a final phase, having had neither |
| EniAgent.AgentServer.OnPodDelete | cmd/multivpc-eni-agent/main.go:376-381 | entries are offered for release |
| EniAgent.AgentServer.EnqueueReleasesForPod | cmd/multivpc-eni-agent/main.go:383-406 | offers the release of every entry of the pod, each once |
| ReleaseWave.WaveIsQueuedExactlyWhen | cmd/multivpc-eni-agent/main.go:348-406 | the release of every entry of a wave is queued, behind what was there, exactly when there is room for the whole wave |
| PodEvents.LifeTriggersOnce | cmd/multivpc-eni-agent/main.go:361-374 | over a life in which a deletion request is never withdrawn and a final phase never left, one wave comes before deletion if the pod is ever asked to go, succeeds or fails, and none otherwise |
| PodEvents.DeletionAddsOneWave | cmd/multivpc-eni-agent/main.go:376-381 | deletion adds exactly one wave |
| CniCache.SanitizeIsIdempotent | cmd/multus-multivpc-cni/main.go:711-733 | sanitising yields a nonempty word over the allowed alphabet and is idempotent, and so is truncation |
| CniCache.SanitizeReplacesTheRest | cmd/multus-multivpc-cni/main.go:711-723 | letters, digits, hyphens and underscores stay and any other character becomes an underscore |
| CniCache.FileNameIsUnambiguous | cmd/multus-multivpc-cni/main.go:695-701 | without underscores in pod UID and container id, equal file names mean equal sanitised pod, interface and container prefix |
| CniCache.FileNamesCanCollide | cmd/multus-multivpc-cni/main.go:695-701 | two concrete interfaces that share a file |
| CniCache.FileNamesClashExactlyWhen | cmd/multus-multivpc-cni/main.go:695-701 | two pods and containers have interfaces that share a file exactly when one sanitised UID starts the other, up to an underscore, and one container prefix ends the other, from an underscore on |
| CniCache.MatchContainerExactlyWhen | cmd/multus-multivpc-cni/main.go:725-741 | a stored id that is not empty matches exactly the ids with the same first 12 characters (the same id if one is shorter), and "unknown" matches the empty id too |
| CniCache.WrittenIsMatched | cmd/multus-multivpc-cni/main.go:735-741 | a DEL finds what ADD wrote under a container id that is not empty, under every id with the same first 12 characters |
| CniCache.DelsLeaveOthers | cmd/multus-multivpc-cni/main.go:193-247 | a series of DELs of one container leaves every file of a container whose id differs in its first 12 characters |
| CniCache.EnoughDelsDrain | cmd/multus-multivpc-cni/main.go:193-247 | for a container with n entries, n or more DELs take each exactly once, remove exactly their files, and further ones do nothing; every release is attempted exactly when each of the first n reaches the agent |
| CniCache.DelCanSkipTheRelease | cmd/multus-multivpc-cni/main.go:205-247 | a DEL that does not reach the agent, and removes the file without a release |
| CniCache.CacheDir.WriteCacheEntry | cmd/multus-multivpc-cni/main.go:661-671 | writes the entry's own file; a failed write, which a reliable disk has none of, spoils at most that file |
| CniCache.CacheDir.ReadCacheEntry | cmd/multus-multivpc-cni/main.go:673-693 | finds an entry of the container asked for; or says there is none, because all files read and none is, there is no directory, or a listed file has gone; or fails on an unreadable file |
| CniCache.CacheDir.CmdDel | cmd/multus-multivpc-cni/main.go:193-247 | over a readable cache takes one entry of the container, removes its file, and attempts its release exactly when the agent could be dialled; every file of another container stays; a failure removes nothing |
| DelegateChain.ConfiguredKeepsDelegate | cmd/multus-multivpc-cni/main.go:506-534 | a delegate's own settings stay but for a known master, unknown keys pass through, and configuring twice is configuring once |
| DelegateChain.ConfiguredFillsIn | cmd/multus-multivpc-cni/main.go:506-534 | what a delegate does not set: type ipvlan, its default name, the plugin's CNI version and runtimeConfig where there are such |
| DelegateChain.ChainNames | cmd/multus-multivpc-cni/main.go:448-504 | without a name of its own the base delegate is named multivpc-ipvlan, an sbr post delegate multivpc-sbr, any other after the plugin |
| DelegateChain.ConfigureDelegate | cmd/multus-multivpc-cni/main.go:506-534 | the key-by-key code yields the plugin's defaults overridden by the delegate's own settings overridden by a known master; unknown keys pass through |
| DelegateChain.DelMirrorsAdd | cmd/multus-multivpc-cni/main.go:448-504 | DEL's calls are ADD's in reverse without prevResult, if and only if neither the delegate nor a post delegate is configured with one |
| DelegateChain.DelCanKeepPrev | cmd/multus-multivpc-cni/main.go:481-504 | a base delegate configured with a prevResult, which DEL passes on |
| DelegateChain.RunDelegateChain | cmd/multus-multivpc-cni/main.go:448-479 | runs base and non-nil post delegates in order; each post delegate's prevResult is the result before it in the plugin's CNI version, or null exactly if that cannot be converted; it stops only where a delegate failed or has no type |
| DelegateChain.RunDelegateDelChain | cmd/multus-multivpc-cni/main.go:481-504 | runs the same delegates in reverse and stops only where one failed or has no type |
| Taints.WithoutCounts | pkg/taintcontroller/taints.go:31-45 | removal takes every occurrence of the taint and keeps all others |
| Taints.EditsChangeOnly | pkg/taintcontroller/taints.go:17-45 | both edits change the one taint only and leave it present, respectively absent |
| Taints.KubeNode.HasTaint | pkg/taintcontroller/taints.go:7-15 | whether the taint is present |
| Taints.KubeNode.EnsureTaint | pkg/taintcontroller/taints.go:17-28 | the taint is present afterwards, nothing else changed, and the answer says whether it was absent |
| Taints.KubeNode.RemoveTaint | pkg/taintcontroller/taints.go:30-45 | the taint is absent afterwards, nothing else changed, and the answer says whether it was present |
| TaintController.IsPodReady | cmd/multivpc-taint-controller/main.go:207-217 | running, with a true Ready condition |
| TaintController.BuildAgentReadyMap | cmd/multivpc-taint-controller/main.go:158-176 | exactly the nodes with a ready agent pod |
| TaintController.Attempt | cmd/multivpc-taint-controller/main.go:179-204 | a write changes only the taint, relative to the version it replaces; success means the taint is present exactly when the agent is not ready |
| TaintController.SyncNodeTaint | cmd/multivpc-taint-controller/main.go:178-205 | retries conflicts, up to the fifth, and nothing else; at most one write, and a proper one; success means the taint is present exactly when the agent is not ready; failure means another failure or five conflicts |
| TaintController.Reconcile | cmd/multivpc-taint-controller/main.go:130-156 | asks for exactly the listed nodes it manages, whatever fails on the way; whoever else writes, every write is proper; undisturbed, the selected nodes converge and a second pass writes nothing |

## Left out

- EC2's eventual consistency: a lookup that misses a fresh attachment could lead to a second one; answers here show the current state.
- Optional fields that EC2 always fills in (ids, addresses, flags): modelled as present, so the nil checks on them have no counterpart.
- The clean-up of an interface a failed create or attach leaves behind: the program has none, hence a bound and not zero.
- NodeAgreement.EntriesAreBacked: says nothing of whether EC2 backs an entry once a release of the pod failed halfway, because a failed call may or may not have had its effect; a restart clears the map and with it such entries.
- A configuration that changes across a restart: profiles and queue size are fixed for a run.
- Liveness that depends on EC2 answering: theorems about draining assume the jobs succeed.
- Concurrency inside `AgentServer`: its methods run one at a time; their interleaving with the worker is `NodeMachine`'s.
- AWS SDK retries, instance metadata, gRPC, sockets, signals, metrics export, latency histograms and logs: plumbing.
- Configuration, environment and argument parsing, and `cmdAdd`'s polling of status and host links: no deep property; profiles are an immutable map.
- Network namespaces, netlink and the delegates' own work: a delegate is a call with an arbitrary answer.
- `configureDelegate` with a nil configuration: the chains never call it so.
- Sharing of nested maps by the shallow copy of a delegate's configuration: configurations are values here and nothing writes into them.
- Bytes against characters: strings are sequences of characters; for ASCII, as container ids and UIDs are, the two agree.
- Informer internals, such as list, watch and resync: only the event handlers over one pod's event sequence.
- Server-side validation of taints: a rejected update is a failed one.
