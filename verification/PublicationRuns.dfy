/** The publication protocol over whole runs. */
module PublicationRuns {
  import opened ImageRefs
  import opened Storage
  import opened Tokens
  import opened Writer
  import opened Planner
  import opened Publication
  import opened PublicationSafety

  // ----- one step -----

  predicate Final(state: PlanState) {
    state == Published || state == AlreadySatisfied || state == Conflict
  }

  /** How a stored row may look later: the plan never changes, a final row never changes, a
      pending row keeps its commit and can only become unknown or published. */
  predicate Later(r: Row, r': Row) {
    && r'.plan == r.plan && r'.target == r.target
    && (Final(r.state) ==> r' == r)
    && (Pending(r) ==> r'.commit == r.commit && (Pending(r') || r'.state == Published))
    && (r.state == Unknown ==> r'.state == Unknown || r'.state == Published)
  }

  lemma FinalStays(r: Row, r': Row)
    requires Later(r, r') && r.state == Published
    ensures r' == r
  {
  }

  lemma StepRows(cfg: Config, w: World, w': World, s: Step, id: PlanId)
    requires Inv(cfg, w) && NextStep(cfg, w, w', s) && id in w.plans
    ensures id in w'.plans && Later(w.plans[id], w'.plans[id])
  {
    hide EnvironmentStep, PrepareStep, PreviewStep, ApplyStep, Inv, Later;
    if EnvironmentStep(w, w', s) {
      EnvironmentRows(w, w', s);
    } else if PrepareStep(w, w', s) {
      PrepareRows(w, w', s);
    } else if PreviewStep(cfg, w, w', s) {
      PreviewRows(cfg, w, w', s, id);
    } else {
      ApplyRows(cfg, w, w', s, id);
    }
    if w'.plans == w.plans {
      SameRow(w.plans[id]);
    }
  }

  lemma SameRow(r: Row)
    ensures Later(r, r)
  {
  }

  lemma EnvironmentRows(w: World, w': World, s: Step)
    requires EnvironmentStep(w, w', s)
    ensures w'.plans == w.plans && w'.sent == w.sent
  {
  }

  lemma PrepareRows(w: World, w': World, s: Step)
    requires PrepareStep(w, w', s)
    ensures w'.plans == w.plans && w'.sent == w.sent && w'.history == w.history
  {
  }

  lemma PreviewRows(cfg: Config, w: World, w': World, s: Step, id: PlanId)
    requires Inv(cfg, w) && PreviewStep(cfg, w, w', s) && id in w.plans
    ensures id in w'.plans && Later(w.plans[id], w'.plans[id])
  {
    hide Reviewed, WriteDiffs, IsAncestor, RemoteOk, OwnPushesOnly, RowOk, SentOk, FlightOk, JobsOk, CandidateOk, HasLanded, NeverSent;
  }

  lemma ApplyRows(cfg: Config, w: World, w': World, s: Step, id: PlanId)
    requires Inv(cfg, w) && ApplyStep(cfg, w, w', s) && id in w.plans
    ensures id in w'.plans && Later(w.plans[id], w'.plans[id])
  {
    hide Inv, DecideStep, PublishStep, Later;
    if DecideStep(w, w', s) {
      DecideRows(cfg, w, w', s, id);
    } else {
      PublishRows(cfg, w, w', s, id);
    }
  }

  lemma DecideRows(cfg: Config, w: World, w': World, s: Step, id: PlanId)
    requires Inv(cfg, w) && DecideStep(w, w', s) && id in w.plans
    ensures id in w'.plans && Later(w.plans[id], w'.plans[id])
  {
    hide Reviewed, WriteDiffs, IsAncestor, RemoteOk, OwnPushesOnly, RowOk, SentOk, FlightOk, JobsOk, CandidateOk, HasLanded, NeverSent;
  }

  lemma PublishRows(cfg: Config, w: World, w': World, s: Step, id: PlanId)
    requires Inv(cfg, w) && PublishStep(cfg, w, w', s) && id in w.plans
    ensures id in w'.plans && Later(w.plans[id], w'.plans[id])
  {
    hide Reviewed, WriteDiffs, IsAncestor, RemoteOk, OwnPushesOnly, RowOk, SentOk, FlightOk, JobsOk, CandidateOk, HasLanded, NeverSent;
  }

  /** A push lands only while the branch is exactly at its base, moves it to its commit, and the
      commit was stored with its plan before. */
  ghost predicate LandsBetween(w: World, w': World, push: Push) {
    && w.tip == Some(push.base) && w'.tip == Some(push.commit)
    && push.plan in w.plans && w.plans[push.plan].commit == Some(push.commit) && w.plans[push.plan].plan.base == push.base
  }

  lemma StepLands(cfg: Config, w: World, w': World, s: Step, push: Push)
    requires Inv(cfg, w) && NextStep(cfg, w, w', s)
    requires Landed(push) !in w.history && Landed(push) in w'.history
    ensures LandsBetween(w, w', push)
  {
    hide PrepareStep, PreviewStep, ApplyStep, RemoteOk, OwnPushesOnly, RowsOk, JobsOk, TaskOk;
    if PrepareStep(w, w', s) {
      PrepareRows(w, w', s);
    } else if !EnvironmentStep(w, w', s) {
      ApplyHistory(cfg, w, w', s);
    } else if s.Deliver? {
      FlightSent(w, s.push);
    }
  }

  lemma ApplyHistory(cfg: Config, w: World, w': World, s: Step)
    requires PreviewStep(cfg, w, w', s) || ApplyStep(cfg, w, w', s)
    ensures w'.history == w.history
  {
    hide Reviewed, WriteDiffs, IsAncestor;
  }

  /** The commit id is in the durable table when the push leaves, and no other push of the
      plan was ever sent. */
  lemma SendIsRecorded(cfg: Config, w: World, w': World, s: Step)
    requires Inv(cfg, w) && NextStep(cfg, w, w', s) && w'.sent != w.sent
    ensures exists push ::
              && w'.sent == w.sent + [push] && push.plan in w.plans
              && w.plans[push.plan].commit == Some(push.commit) && w.plans[push.plan].plan.base == push.base
              && NeverSent(w, push.plan)
  {
    hide EnvironmentStep, PrepareStep, Reviewed, WriteDiffs, IsAncestor, RemoteOk, OwnPushesOnly, RowsOk, JobsOk, SentOk, FlightOk, CandidateOk;
    if EnvironmentStep(w, w', s) {
      EnvironmentRows(w, w', s);
    } else if PrepareStep(w, w', s) {
      PrepareRows(w, w', s);
    }
    if s.Send? {
      var push := PushOf(w.task.id, w.task.row);
      assert w'.sent == w.sent + [push];
    }
  }

  // ----- whole runs -----

  lemma {:induction false} RunRows(cfg: Config, run: seq<World>, steps: seq<Step>, i: nat, j: nat, id: PlanId)
    requires IsRun(cfg, run, steps) && i <= j < |run| && id in run[i].plans
    ensures id in run[j].plans && Later(run[i].plans[id], run[j].plans[id])
    decreases j
  {
    hide NextStep, Inv, Init;
    if i < j {
      RunRows(cfg, run, steps, i, j - 1, id);
      RunInvariant(cfg, run, steps, j - 1);
      assert NextStep(cfg, run[j - 1], run[j - 1 + 1], steps[j - 1]);
      StepRows(cfg, run[j - 1], run[j], steps[j - 1], id);
      LaterTransitive(run[i].plans[id], run[j - 1].plans[id], run[j].plans[id]);
    }
  }

  lemma LaterTransitive(a: Row, b: Row, c: Row)
    requires Later(a, b) && Later(b, c)
    ensures Later(a, c)
  {
  }

  /** Plans are immutable once stored, published, satisfied and conflicting plans are never
      left, and a pending publication only ever becomes unknown or published. */
  lemma StatesAreFinal(cfg: Config, run: seq<World>, steps: seq<Step>, i: nat, j: nat, id: PlanId)
    requires IsRun(cfg, run, steps) && i <= j < |run| && id in run[i].plans
    ensures id in run[j].plans && run[j].plans[id].plan == run[i].plans[id].plan && run[j].plans[id].target == run[i].plans[id].target
    ensures Final(run[i].plans[id].state) ==> run[j].plans[id] == run[i].plans[id]
    ensures Pending(run[i].plans[id]) ==>
              run[j].plans[id].commit == run[i].plans[id].commit
              && (Pending(run[j].plans[id]) || run[j].plans[id].state == Published)
  {
    hide NextStep, Init;
    RunRows(cfg, run, steps, i, j, id);
  }

  lemma {:induction false} LandingStep(cfg: Config, run: seq<World>, steps: seq<Step>, n: nat, push: Push) returns (k: nat)
    requires IsRun(cfg, run, steps) && n < |run| && Landed(push) in run[n].history
    ensures k < n && LandsBetween(run[k], run[k + 1], push)
    decreases n
  {
    hide NextStep, Inv, LandsBetween;
    assert n > 0;
    assert NextStep(cfg, run[n - 1], run[n - 1 + 1], steps[n - 1]);
    if Landed(push) in run[n - 1].history {
      k := LandingStep(cfg, run, steps, n - 1, push);
    } else {
      RunInvariant(cfg, run, steps, n - 1);
      StepLands(cfg, run[n - 1], run[n], steps[n - 1], push);
      k := n - 1;
    }
  }

  /** At most once: in every run, whatever crashes, replies and database writes are lost and
      whatever others do to the branch, at most one push of a plan takes effect. It took effect
      while the branch was at the plan's base, its commit was stored before, and that commit has
      the base as its only parent. */
  lemma AtMostOnePublication(cfg: Config, run: seq<World>, steps: seq<Step>, n: nat, i: nat, j: nat)
    requires IsRun(cfg, run, steps) && n < |run|
    requires i < |run[n].history| && run[n].history[i].Landed?
    requires j < |run[n].history| && run[n].history[j].Landed?
    requires run[n].history[i].push.plan == run[n].history[j].push.plan
    ensures i == j
    ensures var push := run[n].history[i].push;
            && (exists k :: 0 <= k < n && LandsBetween(run[k], run[k + 1], push))
            && push.commit in run[n].commits && run[n].commits[push.commit].parents == [push.base]
            && run[n].commits[push.commit].owner == Some(push.plan)
  {
    hide NextStep, Init, LandsBetween, Reviewed, WriteDiffs;
    RunInvariant(cfg, run, steps, n);
    OneLanding(run[n], i, j);
    var push := run[n].history[i].push;
    assert push in run[n].sent;
    FlightCandidate(cfg, run[n], push);
    var k := LandingStep(cfg, run, steps, n, push);
  }

  lemma OneLanding(w: World, i: nat, j: nat)
    requires SentOk(w) && FlightOk(w)
    requires i < |w.history| && w.history[i].Landed? && j < |w.history| && w.history[j].Landed?
    requires w.history[i].push.plan == w.history[j].push.plan
    ensures i == j
  {
    var p, q := w.history[i].push, w.history[j].push;
    assert p in w.sent && q in w.sent;
    assert p == q && w.history[i] == w.history[j];
  }

  /** Truthful: a plan stored as published had its commit as the branch tip at some instant, put
      there by its own push, also when the state was only recovered from the history later. */
  lemma PublishedIsTruthful(cfg: Config, run: seq<World>, steps: seq<Step>, n: nat, id: PlanId)
    requires IsRun(cfg, run, steps) && n < |run|
    requires id in run[n].plans && run[n].plans[id].state == Published
    ensures run[n].plans[id].commit.Some?
    ensures exists k :: 0 <= k < n && LandsBetween(run[k], run[k + 1], PushOf(id, run[n].plans[id]))
  {
    hide NextStep, Init, LandsBetween, Reviewed, WriteDiffs, CandidateOk;
    RunInvariant(cfg, run, steps, n);
    assert RowOk(cfg, run[n], id, run[n].plans[id]);
    var k := LandingStep(cfg, run, steps, n, PushOf(id, run[n].plans[id]));
  }

  /** What is published is what was reviewed: the content in scope is the base with the stored
      mutations applied, and everything out of scope is the base's. */
  lemma PublishedIsReviewed(cfg: Config, run: seq<World>, steps: seq<Step>, n: nat, push: Push)
    requires IsRun(cfg, run, steps) && n < |run| && Landed(push) in run[n].history
    ensures push.plan in run[n].plans && push.commit in run[n].commits && push.base in run[n].commits
    ensures var plan := run[n].plans[push.plan].plan;
            var before, after := run[n].commits[push.base].tree, run[n].commits[push.commit].tree;
            && Snapshot(cfg, after) == Applied(cfg.yaml, Snapshot(cfg, before), plan.mutations)
            && (forall f :: f in before && !cfg.inScope(f) ==> f in after && after[f] == before[f])
  {
    hide NextStep, Init, Applied, Snapshot, WriteDiffs;
    RunInvariant(cfg, run, steps, n);
    var i :| 0 <= i < |run[n].history| && run[n].history[i] == Landed(push);
    assert push in run[n].sent;
    FlightCandidate(cfg, run[n], push);
    var plan := run[n].plans[push.plan].plan;
    var before := run[n].commits[push.base].tree;
    assert RowOk(cfg, run[n], push.plan, run[n].plans[push.plan]);
    CommittedIsReviewed(cfg, before, plan);
    SameFiles(cfg, before, plan);
  }

  lemma SameFiles(cfg: Config, tree: Files, plan: Plan)
    ensures WriteDiffs(cfg, tree, plan).Keys == tree.Keys
  {
    hide Applied, HasDiff, Snapshot;
  }

  /** Nothing that was committed, served, sent, logged or baselined is ever taken back. */
  lemma {:induction false} RunGrows(cfg: Config, run: seq<World>, steps: seq<Step>, i: nat, j: nat)
    requires IsRun(cfg, run, steps) && i <= j < |run|
    ensures Grows(run[i], run[j])
    decreases j
  {
    hide NextStep, Init;
    if i < j {
      RunGrows(cfg, run, steps, i, j - 1);
      assert NextStep(cfg, run[j - 1], run[j - 1 + 1], steps[j - 1]);
      StepGrows(cfg, run[j - 1], run[j], steps[j - 1]);
    }
  }

  /** However often a job is claimed, retried, recovered or queued again: all its effective
      pushes are one, and its parent is the revision baselined at the job's first attempt. */
  lemma JobPublishesOnce(cfg: Config, run: seq<World>, steps: seq<Step>, m: nat, n: nat, job: string, i: nat, j: nat)
    requires IsRun(cfg, run, steps) && m <= n < |run| && job in run[m].baselines
    requires i < |run[n].history| && run[n].history[i].Landed? && run[n].history[i].push.plan == JobPlan(job)
    requires j < |run[n].history| && run[n].history[j].Landed? && run[n].history[j].push.plan == JobPlan(job)
    ensures i == j
    ensures var push := run[n].history[i].push;
            push.base == run[m].baselines[job]
            && push.commit in run[n].commits && run[n].commits[push.commit].parents == [run[m].baselines[job]]
  {
    hide NextStep, Init, Reviewed, WriteDiffs, LandsBetween;
    AtMostOnePublication(cfg, run, steps, n, i, j);
    RunInvariant(cfg, run, steps, n);
    RunGrows(cfg, run, steps, m, n);
    assert run[n].history[i].push in run[n].sent;
  }

  /** A database serves one repository and branch for good: the first writer binds it, and every
      plan ever stored, at any two instants of a run, is for the same. */
  lemma OneRepository(cfg: Config, run: seq<World>, steps: seq<Step>, i: nat, j: nat, a: PlanId, b: PlanId)
    requires IsRun(cfg, run, steps) && i <= j < |run| && a in run[i].plans && b in run[j].plans
    ensures run[i].bound.Some? && run[j].bound == run[i].bound
    ensures run[i].plans[a].target.binding == run[j].plans[b].target.binding == run[i].bound.value
  {
    hide NextStep, Init, RemoteOk, OwnPushesOnly, RowsOk, SentOk, FlightOk, JobsOk, TaskOk;
    RunInvariant(cfg, run, steps, i);
    RunInvariant(cfg, run, steps, j);
    RunGrows(cfg, run, steps, i, j);
  }
}
