/** How many interfaces the agent can leave behind: at most one for every job
    that failed or was interrupted. */
module NodeLeaks {
  import opened Common
  import opened Ec2Model
  import opened JobProgram
  import opened AgentState
  import opened NodeMachine
  import opened NodeSafety

  /** Existing interfaces of ours that are unattached or on their way out. */
  function Leaked(e: Ec2): set<EniId> {
    set id | id in e.ours && id in e.enis && Loose(e.enis[id])
  }

  /** Existing interfaces of ours that are attached here to stay. */
  function InUse(e: Ec2): set<EniId> {
    set id | id in e.ours && id in e.enis && !Loose(e.enis[id])
  }

  function DeletedIds(e: Ec2): set<EniId> {
    e.ours - e.enis.Keys
  }

  /** The interface the current job answers for: it is loose, or will be, but
      the job is not over. */
  function Exposed(w: Worker): set<EniId> {
    if !w.Busy? then {}
    else
      match w.pc
      case EAttach(_, v) => {v.id}
      case RUnassign4(v) => {v.id}
      case RUnassign6(v) => {v.id}
      case RDetach(v) => {v.id}
      case RPoll(v) => {v.id}
      case RDelete(v) => {v.id}
      case _ => {}
  }

  /** The job has failed but is not counted yet. */
  function Uncounted(w: Worker): nat {
    if w.Busy? && w.pc.Finished? && w.pc.outcome.JobFailed? then 1 else 0
  }

  predicate LeakBound(s: Node) {
    |Leaked(s.ec2) - Exposed(s.worker)| <= s.failed + s.interrupted + Uncounted(s.worker)
  }

  /** The only interface a call can make loose. */
  function MadeLoose(e: Ec2, c: Call, e': Ec2): set<EniId> {
    match c
    case Create(_) => e'.ours - e.ours
    case Detach(att) => {att.eni}
    case _ => {}
  }

  lemma ExecutesLeaks(me: string, e: Ec2, c: Call, r: Response, e': Ec2)
    requires Wf(me, e) && Executes(me, e, c, r, e')
    ensures Leaked(e') <= Leaked(e) + MadeLoose(e, c, e')
    ensures c.Attach? && r.AttachedAs? ==> c.id !in Leaked(e')
    ensures c.Delete? && r.Done? ==> c.id !in Leaked(e')
  {
  }

  lemma CreateLeaks(me: string, e: Ec2, tag: string, r: Response, e': Ec2)
    requires Wf(me, e) && Executes(me, e, Create(tag), r, e')
    ensures r.Created? ==> MadeLoose(e, Create(tag), e') == {r.view.id}
    ensures exists x :: MadeLoose(e, Create(tag), e') <= {x}
  {
    if id :| id in e'.enis && CreatedEni(e, tag, id, e') {
      assert MadeLoose(e, Create(tag), e') == {id};
    } else {
      assert MadeLoose(e, Create(tag), e') <= {""};
    }
  }

  lemma CreateKeepsLeakBound(p: Setup, s: Node, r: Response, s': Node)
    requires Safe(p, s) && LeakBound(s) && Exchanges(p, s, r, s') && s.worker.pc.ECreate?
    ensures LeakBound(s')
  {
    var before, after := Leaked(s.ec2) - Exposed(s.worker), Leaked(s'.ec2) - Exposed(s'.worker);
    var c := NextCall(s.worker.job, s.worker.pc).value;
    ExecutesLeaks(p.me, s.ec2, c, r, s'.ec2);
    CreateLeaks(p.me, s.ec2, c.newTag, r, s'.ec2);
    if r.Created? {
      assert after <= before;
      SubsetSize(after, before);
    } else {
      var x :| MadeLoose(s.ec2, c, s'.ec2) <= {x};
      assert after <= before + {x};
      GrowsByOne(after, before, x);
    }
  }

  /** After an exchange the exposed interface accounts for what the call made
      loose, unless the job has just failed. */
  lemma ExchangeKeepsLeakBound(p: Setup, s: Node, r: Response, s': Node)
    requires Safe(p, s) && LeakBound(s) && Exchanges(p, s, r, s') && !s.worker.pc.ECreate?
    ensures LeakBound(s')
  {
    var before, after := Leaked(s.ec2) - Exposed(s.worker), Leaked(s'.ec2) - Exposed(s'.worker);
    if Uncounted(s'.worker) == 0 || Exposed(s.worker) == {} {
      ExposureMoves(p, s, r, s');
      SubsetSize(after, before);
    } else {
      ExposureIsOne(s.worker);
      var x :| Exposed(s.worker) == {x};
      ExecutesLeaks(p.me, s.ec2, NextCall(s.worker.job, s.worker.pc).value, r, s'.ec2);
      MadeLooseIsExposed(p, s, r, s');
      assert after <= before + {x};
      GrowsByOne(after, before, x);
    }
  }

  lemma MadeLooseIsExposed(p: Setup, s: Node, r: Response, s': Node)
    requires Safe(p, s) && Exchanges(p, s, r, s') && !s.worker.pc.ECreate?
    ensures MadeLoose(s.ec2, NextCall(s.worker.job, s.worker.pc).value, s'.ec2) <= Exposed(s.worker)
  {
  }

  lemma ExposureMoves(p: Setup, s: Node, r: Response, s': Node)
    requires Safe(p, s) && Exchanges(p, s, r, s') && !s.worker.pc.ECreate?
    requires Uncounted(s'.worker) == 0 || Exposed(s.worker) == {}
    ensures Leaked(s'.ec2) - Exposed(s'.worker) <= Leaked(s.ec2) - Exposed(s.worker)
  {
    ExecutesLeaks(p.me, s.ec2, NextCall(s.worker.job, s.worker.pc).value, r, s'.ec2);
    MadeLooseIsExposed(p, s, r, s');
  }

  lemma ExposureIsOne(w: Worker)
    ensures Exposed(w) == {} || exists x :: Exposed(w) == {x}
  {
    if Exposed(w) != {} {
      assert Exposed(w) == {w.pc.view.id};
    }
  }

  lemma ElsewhereLeaks(me: string, e: Ec2, e': Ec2)
    requires Wf(me, e) && Environment(me, e, e')
    ensures Leaked(e') <= Leaked(e)
  {
  }

  lemma JobEndsLeakBound(s: Node, s': Node)
    requires LeakBound(s) && s'.ec2 == s.ec2 && Exposed(s'.worker) == {} && s.worker.Busy?
    requires s'.failed + s'.interrupted + Uncounted(s'.worker) >=
             s.failed + s.interrupted + Uncounted(s.worker) + (if Exposed(s.worker) == {} then 0 else 1)
    ensures LeakBound(s')
  {
    var before, after := Leaked(s.ec2) - Exposed(s.worker), Leaked(s'.ec2);
    assert Leaked(s'.ec2) - Exposed(s'.worker) == after;
    ExposureIsOne(s.worker);
    if x :| Exposed(s.worker) == {x} {
      GrowsByOne(after, before, x);
    } else {
      assert after == before;
    }
  }

  lemma ElsewhereKeepsLeakBound(p: Setup, s: Node, s': Node)
    requires Safe(p, s) && LeakBound(s) && Step(p, s, Elsewhere, s')
    ensures LeakBound(s')
  {
    ElsewhereLeaks(p.me, s.ec2, s'.ec2);
    SubsetSize(Leaked(s'.ec2) - Exposed(s'.worker), Leaked(s.ec2) - Exposed(s.worker));
  }

  /** Steps that make no call and end no job. */
  lemma QuietStepKeepsLeakBound(p: Setup, s: Node, a: Action, s': Node)
    requires LeakBound(s) && Step(p, s, a, s')
    requires a.Offer? || a.BumpDepth? || a.Take? || a.Begin? || (a.Crash? && !s.worker.Busy?)
    ensures LeakBound(s')
  {
    assert Exposed(s.worker) == {} == Exposed(s'.worker) || s'.worker == s.worker;
  }

  lemma StepKeepsLeakBound(p: Setup, s: Node, a: Action, s': Node)
    requires Safe(p, s) && LeakBound(s) && Step(p, s, a, s')
    ensures LeakBound(s')
  {
    match a
    case Exchange(r) =>
      if s.worker.pc.ECreate? {
        CreateKeepsLeakBound(p, s, r, s');
      } else {
        ExchangeKeepsLeakBound(p, s, r, s');
      }
    case Elsewhere => ElsewhereKeepsLeakBound(p, s, s');
    case GiveUp => JobEndsLeakBound(s, s');
    case Crash =>
      if s.worker.Busy? {
        JobEndsLeakBound(s, s');
      } else {
        QuietStepKeepsLeakBound(p, s, a, s');
      }
    case Settle => JobEndsLeakBound(s, s');
    case _ => QuietStepKeepsLeakBound(p, s, a, s');
  }

  lemma {:induction false} RunKeepsLeakBound(p: Setup, run: seq<Node>, acts: seq<Action>, i: nat)
    requires RunFromStart(p, run, acts) && i < |run|
    ensures LeakBound(run[i])
  {
    if i > 0 {
      RunKeepsLeakBound(p, run, acts, i - 1);
      RunStaysSafe(p, run, acts, i - 1);
      StepKeepsLeakBound(p, run[i - 1], acts[i - 1], run[i]);
    } else {
      assert Leaked(run[0].ec2) == {};
    }
  }

  lemma EveryInterfaceAccountedFor(e: Ec2)
    ensures |e.ours| == |DeletedIds(e)| + |InUse(e)| + |Leaked(e)|
  {
    var kept := InUse(e) + Leaked(e);
    assert InUse(e) !! Leaked(e);
    assert |kept| == |InUse(e)| + |Leaked(e)|;
    assert kept == e.ours * e.enis.Keys;
    assert e.ours == DeletedIds(e) + kept;
  }

  /** Between jobs at most one interface per failed or interrupted job is left
      behind; and every interface ever created is deleted, in use or left. */
  lemma LeaksAreBounded(p: Setup, s: Node)
    requires Reachable(p, s) && !s.worker.Busy?
    ensures |Leaked(s.ec2)| <= s.failed + s.interrupted
    ensures |s.ec2.ours| == |DeletedIds(s.ec2)| + |InUse(s.ec2)| + |Leaked(s.ec2)|
    ensures forall id :: id in InUse(s.ec2) ==> Steady(p.me, s.ec2, id)
  {
    var run, acts :| RunFromStart(p, run, acts) && run[|run| - 1] == s;
    RunKeepsLeakBound(p, run, acts, |run| - 1);
    assert Leaked(s.ec2) - Exposed(s.worker) == Leaked(s.ec2);
    ReachableIsSafe(p, s);
    EveryInterfaceAccountedFor(s.ec2);
  }

  /** Without failures and interruptions nothing is left behind: created equals
      deleted plus attached. */
  lemma NothingLeaksWithoutFailure(p: Setup, s: Node)
    requires Reachable(p, s) && !s.worker.Busy? && s.failed == 0 && s.interrupted == 0
    ensures |s.ec2.ours| == |DeletedIds(s.ec2)| + |InUse(s.ec2)|
    ensures forall id :: id in s.ec2.ours && id in s.ec2.enis ==> Steady(p.me, s.ec2, id)
  {
    LeaksAreBounded(p, s);
    assert Leaked(s.ec2) == {};
    forall id | id in s.ec2.ours && id in s.ec2.enis
      ensures id in InUse(s.ec2)
    {
      assert id !in Leaked(s.ec2);
    }
  }
}
