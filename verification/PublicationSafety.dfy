/** What every step of the publication protocol keeps. */
module PublicationSafety {
  import opened ImageRefs
  import opened Storage
  import opened Tokens
  import opened Writer
  import opened Planner
  import opened Publication

  // ----- the invariant, part by part -----

  /** What the remote has served is closed under parents, and nothing else is reachable from it. */
  ghost predicate RemoteOk(w: World) {
    && w.visible <= w.commits.Keys && w.head in w.commits
    && (w.tip.Some? ==> w.tip.value in w.visible)
    && (w.tracking.Some? ==> w.tracking.value in w.visible)
    && (forall c :: c in w.visible ==> forall p :: p in w.commits[c].parents ==> p in w.visible)
  }

  /** A controller commit becomes visible only by landing its own push. */
  ghost predicate OwnPushesOnly(w: World) {
    forall c :: c in w.visible && c in w.commits && w.commits[c].owner.Some? ==>
                  exists push :: Landed(push) in w.history && push.commit == c && push.plan == w.commits[c].owner.value
  }

  /** The commit recorded in a row: owned by the plan, with the base as only parent and the
      reviewed content. */
  ghost predicate CandidateOk(cfg: Config, w: World, id: PlanId, row: Row) {
    && row.commit.Some? && row.commit.value in w.commits && row.plan.base in w.commits
    && w.commits[row.commit.value]
       == Commit([row.plan.base], WriteDiffs(cfg, w.commits[row.plan.base].tree, row.plan), Some(id))
  }

  ghost predicate HasLanded(w: World, id: PlanId, row: Row) {
    row.commit.Some? && Landed(PushOf(id, row)) in w.history
  }

  /** A stored row: reviewed at its base, and in a state that its commit and pushes justify. */
  ghost predicate RowOk(cfg: Config, w: World, id: PlanId, row: Row) {
    && row.plan.base in w.visible && row.plan.base in w.commits
    && Reviewed(cfg, w.commits[row.plan.base].tree, row.plan)
    && (if Pending(row) || row.state == Published then CandidateOk(cfg, w, id, row) else row.commit == None)
    && (row.state == Published ==> HasLanded(w, id, row))
  }

  ghost predicate RowsOk(cfg: Config, w: World) {
    forall id :: id in w.plans ==> RowOk(cfg, w, id, w.plans[id])
  }

  /** Each push that was sent is the one its durable row records, and no plan sent two. */
  ghost predicate SentOk(w: World) {
    && (forall i :: 0 <= i < |w.sent| ==>
          w.sent[i].plan in w.plans && w.plans[w.sent[i].plan].commit.Some?
          && w.sent[i] == PushOf(w.sent[i].plan, w.plans[w.sent[i].plan]))
    && (forall i, j :: 0 <= i < j < |w.sent| ==> w.sent[i].plan != w.sent[j].plan)
  }

  /** Only sent pushes are in flight or land, and a push lands at most once. */
  ghost predicate FlightOk(w: World) {
    && (forall push :: push in w.inflight ==> push in w.sent && Landed(push) !in w.history)
    && (forall i :: 0 <= i < |w.history| && w.history[i].Landed? ==> w.history[i].push in w.sent)
    && (forall i, j :: 0 <= i < j < |w.history| && w.history[i].Landed? ==> w.history[i] != w.history[j])
  }

  /** Every plan in the database is for the repository and branch the database is bound to. */
  ghost predicate BoundOk(w: World) {
    forall id :: id in w.plans ==> w.bound == Some(w.plans[id].target.binding)
  }

  /** A job's plan is based on the revision recorded at its first attempt. */
  ghost predicate JobsOk(w: World) {
    forall job :: JobPlan(job) in w.plans ==> job in w.baselines && w.plans[JobPlan(job)].plan.base == w.baselines[job]
  }

  ghost predicate NeverSent(w: World, id: PlanId) {
    forall i :: 0 <= i < |w.sent| ==> w.sent[i].plan != id
  }

  ghost predicate GoalOk(w: World, goal: Goal) {
    match goal
    case ForApply(id, row) => id in w.plans && w.plans[id] == row && row.state != Published && row.state != AlreadySatisfied
    case ForPreview(id, _, baseline) =>
      && id !in w.plans
      && (id.JobPlan? ==> baseline.Some? && id.job in w.baselines && w.baselines[id.job] == baseline.value)
    case ForJob(job) => JobPlan(job) !in w.plans
    case ForSync => true
  }

  /** What the running operation knows is still true: nobody else writes its row. */
  ghost predicate TaskOk(cfg: Config, w: World) {
    match w.task
    case Idle => true
    case Syncing(goal) => GoalOk(w, goal)
    case Fetching(goal) => GoalOk(w, goal)
    case Synced(goal) => GoalOk(w, goal) && w.head in w.visible
    case Committed(id, row) =>
      && id in w.plans && row.state == Publishing && w.plans[id] == row.(state := Planned, commit := None)
      && CandidateOk(cfg, w, id, row) && NeverSent(w, id)
    case Recorded(id, row) =>
      && id in w.plans && w.plans[id] == row && row.state == Publishing && row.commit.Some?
      && NeverSent(w, id)
    case Sent(id, row) => id in w.plans && w.plans[id] == row && row.state == Publishing && row.commit.Some?
    case Answered(id, row, ok) =>
      && id in w.plans && w.plans[id] == row && row.state == Publishing
      && (ok ==> HasLanded(w, id, row))
  }

  ghost predicate Inv(cfg: Config, w: World) {
    RemoteOk(w) && OwnPushesOnly(w) && RowsOk(cfg, w) && SentOk(w) && FlightOk(w) && JobsOk(w) && BoundOk(w) && TaskOk(cfg, w)
  }

  // ----- growth -----

  /** Commits are immutable, and what was visible, sent, baselined or logged stays so. */
  ghost predicate Grows(w: World, w': World) {
    && (forall c :: c in w.commits ==> c in w'.commits && w'.commits[c] == w.commits[c])
    && (w.bound.Some? ==> w'.bound == w.bound)
    && w.visible <= w'.visible && w.sent <= w'.sent && w.history <= w'.history
    && (forall job :: job in w.baselines ==> job in w'.baselines && w'.baselines[job] == w.baselines[job])
  }

  lemma EnvironmentGrows(w: World, w': World, s: Step)
    requires EnvironmentStep(w, w', s)
    ensures Grows(w, w')
  {
  }

  lemma PrepareGrows(w: World, w': World, s: Step)
    requires PrepareStep(w, w', s)
    ensures Grows(w, w')
  {
  }

  lemma ApplyGrows(cfg: Config, w: World, w': World, s: Step)
    requires PreviewStep(cfg, w, w', s) || ApplyStep(cfg, w, w', s)
    ensures Grows(w, w')
  {
    hide Reviewed, IsAncestor, WriteDiffs;
  }

  lemma StepGrows(cfg: Config, w: World, w': World, s: Step)
    requires NextStep(cfg, w, w', s)
    ensures Grows(w, w')
  {
    hide EnvironmentStep, PrepareStep, PreviewStep, ApplyStep, Grows;
    if EnvironmentStep(w, w', s) {
      EnvironmentGrows(w, w', s);
    } else if PrepareStep(w, w', s) {
      PrepareGrows(w, w', s);
    } else {
      ApplyGrows(cfg, w, w', s);
    }
  }

  lemma LandedStays(w: World, w': World, id: PlanId, row: Row)
    requires Grows(w, w') && HasLanded(w, id, row)
    ensures HasLanded(w', id, row)
  {
  }

  lemma RowStaysOk(cfg: Config, w: World, w': World, id: PlanId, row: Row)
    requires RowOk(cfg, w, id, row) && Grows(w, w')
    ensures RowOk(cfg, w', id, row)
  {
    hide Reviewed, WriteDiffs;
    if row.state == Published {
      LandedStays(w, w', id, row);
    }
  }

  lemma RowsStayOk(cfg: Config, w: World, w': World)
    requires RowsOk(cfg, w) && Grows(w, w') && w'.plans == w.plans
    ensures RowsOk(cfg, w')
  {
    hide RowOk, Grows;
    forall id | id in w'.plans
      ensures RowOk(cfg, w', id, w'.plans[id])
    {
      RowStaysOk(cfg, w, w', id, w.plans[id]);
    }
  }

  /** Storing one row that is in order keeps the table in order, whatever the write reports. */
  lemma StoredRowsOk(cfg: Config, w: World, w': World, id: PlanId, row: Row, write: Write)
    requires RowsOk(cfg, w) && Grows(w, w') && w'.plans == Stored(w.plans, id, row, write)
    requires RowOk(cfg, w', id, row)
    ensures RowsOk(cfg, w')
  {
    hide RowOk, Grows;
    forall other | other in w'.plans
      ensures RowOk(cfg, w', other, w'.plans[other])
    {
      if other in w.plans {
        RowStaysOk(cfg, w, w', other, w.plans[other]);
      }
    }
  }

  lemma CandidateStays(cfg: Config, w: World, w': World, id: PlanId, row: Row)
    requires CandidateOk(cfg, w, id, row) && Grows(w, w')
    ensures CandidateOk(cfg, w', id, row)
  {
    hide WriteDiffs;
  }

  // ----- the environment -----

  lemma TaskStaysOk(cfg: Config, w: World, w': World)
    requires TaskOk(cfg, w) && Grows(w, w')
    requires w'.plans == w.plans && w'.baselines == w.baselines && w'.sent == w.sent && w'.head == w.head && w'.task == w.task
    ensures TaskOk(cfg, w')
  {
    hide Grows, CandidateOk;
    match w.task
    case Committed(id, row) => CandidateStays(cfg, w, w', id, row);
    case Answered(id, row, ok) =>
      if ok {
        LandedStays(w, w', id, row);
      }
    case Synced(_) => GrowsVisible(w, w');
    case _ =>
  }

  lemma GrowsVisible(w: World, w': World)
    requires Grows(w, w')
    ensures w.visible <= w'.visible
  {
  }

  lemma UserCommitsKeeps(cfg: Config, w: World, w': World, rev: Rev, commit: Commit)
    requires Inv(cfg, w) && EnvironmentStep(w, w', UserCommits(rev, commit))
    ensures Inv(cfg, w')
  {
    hide RowOk, TaskOk;
    StepGrows(cfg, w, w', UserCommits(rev, commit));
    RowsStayOk(cfg, w, w');
    TaskStaysOk(cfg, w, w');
  }

  lemma UserMovesKeeps(cfg: Config, w: World, w': World, to: Option<Rev>)
    requires Inv(cfg, w) && EnvironmentStep(w, w', UserMoves(to))
    ensures Inv(cfg, w')
  {
    hide RowOk, TaskOk;
    StepGrows(cfg, w, w', UserMoves(to));
    RowsStayOk(cfg, w, w');
    TaskStaysOk(cfg, w, w');
  }

  /** What a push in flight will install: its plan's recorded commit on top of the base. */
  lemma FlightCandidate(cfg: Config, w: World, push: Push)
    requires Inv(cfg, w) && push in w.sent
    ensures push.plan in w.plans && push == PushOf(push.plan, w.plans[push.plan])
    ensures CandidateOk(cfg, w, push.plan, w.plans[push.plan]) && push.base in w.visible
  {
  }

  /** A landing push is conditional on the base, makes its own commit visible, and cannot land again. */
  lemma DeliverKeeps(cfg: Config, w: World, w': World, push: Push)
    requires Inv(cfg, w) && EnvironmentStep(w, w', Deliver(push))
    ensures Inv(cfg, w')
  {
    hide TaskOk, RowsOk, JobsOk, SentOk, FlightOk, OwnPushesOnly;
    StepGrows(cfg, w, w', Deliver(push));
    RowsStayOk(cfg, w, w');
    TaskStaysOk(cfg, w, w');
    FlightSent(w, push);
    FlightCandidate(cfg, w, push);
    SentUnchanged(w, w');
    JobsUnchanged(w, w');
    DeliverFlight(w, w', push);
    DeliverOwn(cfg, w, w', push);
  }

  lemma FlightSent(w: World, push: Push)
    requires FlightOk(w) && push in w.inflight
    ensures push in w.sent
  {
  }

  lemma SentUnchanged(w: World, w': World)
    requires SentOk(w) && w'.sent == w.sent && w'.plans == w.plans
    ensures SentOk(w')
  {
  }

  lemma JobsUnchanged(w: World, w': World)
    requires JobsOk(w) && w'.plans == w.plans && w'.baselines == w.baselines
    ensures JobsOk(w')
  {
  }

  lemma DeliverFlight(w: World, w': World, push: Push)
    requires FlightOk(w) && EnvironmentStep(w, w', Deliver(push))
    ensures FlightOk(w')
  {
    var n := |w.history|;
    assert forall i :: 0 <= i < n ==> w'.history[i] == w.history[i] && w.history[i] in w.history;
  }

  lemma DeliverOwn(cfg: Config, w: World, w': World, push: Push)
    requires OwnPushesOnly(w) && EnvironmentStep(w, w', Deliver(push)) && Grows(w, w')
    requires push.plan in w.plans && w.plans[push.plan].commit.Some? && push == PushOf(push.plan, w.plans[push.plan])
    requires CandidateOk(cfg, w, push.plan, w.plans[push.plan])
    requires w.visible <= w.commits.Keys
    ensures OwnPushesOnly(w')
  {
    hide WriteDiffs;
    forall c | c in w'.visible && c in w'.commits && w'.commits[c].owner.Some?
      ensures exists p :: Landed(p) in w'.history && p.commit == c && p.plan == w'.commits[c].owner.value
    {
      if c in w.visible {
        var p :| Landed(p) in w.history && p.commit == c && p.plan == w.commits[c].owner.value;
        assert Landed(p) in w'.history;
      } else {
        assert Landed(push) in w'.history;
      }
    }
  }

  lemma DropKeeps(cfg: Config, w: World, w': World, push: Push)
    requires Inv(cfg, w) && EnvironmentStep(w, w', Drop(push))
    ensures Inv(cfg, w')
  {
    hide RowOk, TaskOk;
    StepGrows(cfg, w, w', Drop(push));
    RowsStayOk(cfg, w, w');
    TaskStaysOk(cfg, w, w');
  }

  lemma EnvironmentKeeps(cfg: Config, w: World, w': World, s: Step)
    requires Inv(cfg, w) && EnvironmentStep(w, w', s)
    ensures Inv(cfg, w')
  {
    hide Inv;
    match s
    case UserCommits(rev, commit) => UserCommitsKeeps(cfg, w, w', rev, commit);
    case UserMoves(to) => UserMovesKeeps(cfg, w, w', to);
    case Deliver(push) => DeliverKeeps(cfg, w, w', push);
    case Drop(push) => DropKeeps(cfg, w, w', push);
    case Crash => CrashKeeps(cfg, w, w');
    case _ =>
  }

  lemma CrashKeeps(cfg: Config, w: World, w': World)
    requires Inv(cfg, w) && w' == w.(task := Idle)
    ensures Inv(cfg, w')
  {
    hide RowOk;
    RowsStayOk(cfg, w, w');
  }

  // ----- the controller -----

  lemma PrepareKeeps(cfg: Config, w: World, w': World, s: Step)
    requires Inv(cfg, w) && PrepareStep(w, w', s)
    ensures Inv(cfg, w')
  {
    hide RowsOk, SentOk, FlightOk, OwnPushesOnly, TaskOk, JobsOk, RemoteOk, GoalOk;
    StepGrows(cfg, w, w', s);
    RowsStayOk(cfg, w, w');
    SentUnchanged(w, w');
    FlightUnchanged(w, w');
    PrepareRemote(w, w', s);
    PrepareJobs(w, w', s);
    PrepareTask(cfg, w, w', s);
  }

  lemma PrepareRemote(w: World, w': World, s: Step)
    requires RemoteOk(w) && PrepareStep(w, w', s)
    ensures RemoteOk(w')
  {
  }

  lemma PrepareJobs(w: World, w': World, s: Step)
    requires JobsOk(w) && PrepareStep(w, w', s)
    ensures JobsOk(w') && (OwnPushesOnly(w) ==> OwnPushesOnly(w'))
  {
  }

  lemma PrepareTask(cfg: Config, w: World, w': World, s: Step)
    requires RemoteOk(w) && TaskOk(cfg, w) && PrepareStep(w, w', s)
    ensures TaskOk(cfg, w')
  {
    hide CandidateOk, HasLanded, NeverSent;
  }

  lemma PreviewKeeps(cfg: Config, w: World, w': World, s: Step)
    requires Inv(cfg, w) && PreviewStep(cfg, w, w', s)
    ensures Inv(cfg, w')
  {
    hide RowsOk, Reviewed;
    StepGrows(cfg, w, w', s);
    StoredRowsOk(cfg, w, w', w.task.goal.target, Row(s.plan, s.target, Planned, None), s.write);
  }

  /** Writing a row that keeps plan and commit touches neither the pushes nor the jobs. */
  lemma StoredSentOk(cfg: Config, w: World, w': World, id: PlanId, row: Row, write: Write)
    requires RowsOk(cfg, w) && SentOk(w) && JobsOk(w) && id in w.plans
    requires w'.plans == Stored(w.plans, id, row, write) && w'.sent == w.sent && w'.baselines == w.baselines
    requires row.plan == w.plans[id].plan && (row.commit == w.plans[id].commit || NeverSent(w, id))
    ensures SentOk(w') && JobsOk(w')
  {
    hide RowOk;
  }

  lemma RecoverKeeps(cfg: Config, w: World, w': World, write: Write)
    requires Inv(cfg, w) && ApplyStep(cfg, w, w', Recover(write))
    ensures Inv(cfg, w')
  {
    hide Reviewed, WriteDiffs, RowsOk, SentOk, JobsOk;
    var id, row := w.task.goal.id, w.task.goal.row;
    var done := row.(state := Published);
    StepGrows(cfg, w, w', Recover(write));
    StoredRowAt(cfg, w, id);
    VisibleAncestor(w, row.commit.value, w.head);
    RecoveredLanded(cfg, w, id, row);
    DecidedKeeps(cfg, w, w', id, done, write);
  }

  lemma StoredRowAt(cfg: Config, w: World, id: PlanId)
    requires RowsOk(cfg, w) && id in w.plans
    ensures RowOk(cfg, w, id, w.plans[id])
  {
  }

  /** Everything reachable from a visible commit is visible. */
  lemma VisibleAncestor(w: World, a: Rev, b: Rev)
    requires RemoteOk(w) && b in w.visible && IsAncestor(w.commits, a, b)
    ensures a in w.visible
  {
    var path :| Ancestor(w.commits, a, b, path);
    VisiblePath(w, path, |path| - 1);
  }

  lemma {:induction false} VisiblePath(w: World, path: seq<Rev>, i: nat)
    requires RemoteOk(w) && i < |path| && path[0] in w.visible
    requires forall j :: 0 <= j < |path| ==> path[j] in w.commits
    requires forall j :: 0 <= j < |path| - 1 ==> path[j + 1] in w.commits[path[j]].parents
    ensures path[i] in w.visible
  {
    if i > 0 {
      VisiblePath(w, path, i - 1);
      assert path[i - 1 + 1] in w.commits[path[i - 1]].parents;
    }
  }

  /** A candidate that is visible got there by its own plan's push. */
  lemma RecoveredLanded(cfg: Config, w: World, id: PlanId, row: Row)
    requires OwnPushesOnly(w) && SentOk(w) && FlightOk(w)
    requires id in w.plans && w.plans[id] == row && CandidateOk(cfg, w, id, row) && row.commit.value in w.visible
    ensures HasLanded(w, id, row)
  {
    hide WriteDiffs;
    var push :| Landed(push) in w.history && push.commit == row.commit.value && push.plan == id;
    assert push in w.sent;
    assert push == PushOf(id, row);
  }

  lemma MarkKeeps(cfg: Config, w: World, w': World, s: Step)
    requires Inv(cfg, w) && ApplyStep(cfg, w, w', s) && (s.MarkConflict? || s.MarkSatisfied?)
    ensures Inv(cfg, w')
  {
    hide Reviewed, WriteDiffs, RowsOk, SentOk, JobsOk, IsAncestor, CandidateOk, HasLanded, RemoteOk, OwnPushesOnly, FlightOk, BoundOk;
    var id := w.task.goal.id;
    var row := w.task.goal.row.(state := if s.MarkConflict? then Conflict else AlreadySatisfied);
    StepGrows(cfg, w, w', s);
    StoredRowAt(cfg, w, id);
    DecidedKeeps(cfg, w, w', id, row, s.write);
  }

  /** A decision stores a row with the same plan and commit and ends the operation. */
  lemma DecidedKeeps(cfg: Config, w: World, w': World, id: PlanId, row: Row, write: Write)
    requires Inv(cfg, w) && Grows(w, w') && id in w.plans && RowOk(cfg, w, id, row)
    requires w' == w.(plans := Stored(w.plans, id, row, write), task := Idle)
    requires row.plan == w.plans[id].plan && row.target == w.plans[id].target && row.commit == w.plans[id].commit
    ensures Inv(cfg, w')
  {
    hide RowOk, RowsOk, SentOk, Grows;
    RowStaysOk(cfg, w, w', id, row);
    StoredRowsOk(cfg, w, w', id, row, write);
    StoredSentOk(cfg, w, w', id, row, write);
  }

  lemma MakeCommitKeeps(cfg: Config, w: World, w': World, rev: Rev)
    requires Inv(cfg, w) && ApplyStep(cfg, w, w', MakeCommit(rev))
    ensures Inv(cfg, w')
  {
    hide Reviewed, WriteDiffs, RowsOk, SentOk, JobsOk, FlightOk;
    var id, row := w.task.goal.id, w.task.goal.row;
    StepGrows(cfg, w, w', MakeCommit(rev));
    StoredRowAt(cfg, w, id);
    RowsStayOk(cfg, w, w');
    SentUnchanged(w, w');
    JobsUnchanged(w, w');
    UncommittedNeverSent(w, id);
    FlightUnchanged(w, w');
  }

  lemma FlightUnchanged(w: World, w': World)
    requires FlightOk(w) && w'.sent == w.sent && w'.inflight == w.inflight && w'.history == w.history
    ensures FlightOk(w')
  {
  }

  lemma UncommittedNeverSent(w: World, id: PlanId)
    requires SentOk(w) && id in w.plans && w.plans[id].commit == None
    ensures NeverSent(w, id)
  {
  }

  lemma RecordKeeps(cfg: Config, w: World, w': World, write: Write)
    requires Inv(cfg, w) && ApplyStep(cfg, w, w', Record(write))
    ensures Inv(cfg, w')
  {
    hide Reviewed, WriteDiffs, RowsOk, SentOk, JobsOk, FlightOk;
    var id, row := w.task.id, w.task.row;
    StepGrows(cfg, w, w', Record(write));
    StoredRowAt(cfg, w, id);
    CandidateStays(cfg, w, w', id, row);
    assert RowOk(cfg, w', id, row);
    StoredRowsOk(cfg, w, w', id, row, write);
    StoredSentOk(cfg, w, w', id, row, write);
    FlightUnchanged(w, w');
  }

  lemma SendKeeps(cfg: Config, w: World, w': World)
    requires Inv(cfg, w) && ApplyStep(cfg, w, w', Send)
    ensures Inv(cfg, w')
  {
    hide RowsOk, JobsOk, CandidateOk, WriteDiffs, IsAncestor, Stored, HasLanded;
    StepGrows(cfg, w, w', Send);
    RowsStayOk(cfg, w, w');
    JobsUnchanged(w, w');
    var push := PushOf(w.task.id, w.task.row);
    assert forall i :: 0 <= i < |w.sent| ==> w'.sent[i] == w.sent[i];
    assert Landed(push) !in w.history;
  }

  lemma ReplyKeeps(cfg: Config, w: World, w': World, ok: bool)
    requires Inv(cfg, w) && ApplyStep(cfg, w, w', Reply(ok))
    ensures Inv(cfg, w')
  {
    hide RowsOk, JobsOk, SentOk, FlightOk;
    StepGrows(cfg, w, w', Reply(ok));
    RowsStayOk(cfg, w, w');
    JobsUnchanged(w, w');
    SentUnchanged(w, w');
    FlightUnchanged(w, w');
  }

  lemma FinishKeeps(cfg: Config, w: World, w': World, write: Write)
    requires Inv(cfg, w) && ApplyStep(cfg, w, w', Finish(write))
    ensures Inv(cfg, w')
  {
    hide Reviewed, WriteDiffs, RowsOk, SentOk, JobsOk, FlightOk;
    var id := w.task.id;
    var row := w.task.row.(state := if w.task.ok then Published else Unknown);
    StepGrows(cfg, w, w', Finish(write));
    StoredRowAt(cfg, w, id);
    CandidateStays(cfg, w, w', id, row);
    assert RowOk(cfg, w', id, row);
    StoredRowsOk(cfg, w, w', id, row, write);
    StoredSentOk(cfg, w, w', id, row, write);
    FlightUnchanged(w, w');
  }

  lemma ApplyKeeps(cfg: Config, w: World, w': World, s: Step)
    requires Inv(cfg, w) && ApplyStep(cfg, w, w', s)
    ensures Inv(cfg, w')
  {
    hide Inv, IsAncestor, WriteDiffs;
    match s
    case Recover(write) => RecoverKeeps(cfg, w, w', write);
    case MarkConflict(_) => MarkKeeps(cfg, w, w', s);
    case MarkSatisfied(_) => MarkKeeps(cfg, w, w', s);
    case MakeCommit(rev) => MakeCommitKeeps(cfg, w, w', rev);
    case Record(write) => RecordKeeps(cfg, w, w', write);
    case Send => SendKeeps(cfg, w, w');
    case Reply(ok) => ReplyKeeps(cfg, w, w', ok);
    case Finish(write) => FinishKeeps(cfg, w, w', write);
    case _ =>
  }

  /** Every step of the protocol, its environment and its failures keeps the invariant. */
  lemma StepKeepsInvariant(cfg: Config, w: World, w': World, s: Step)
    requires Inv(cfg, w) && NextStep(cfg, w, w', s)
    ensures Inv(cfg, w')
  {
    hide Inv, EnvironmentStep, PrepareStep, PreviewStep, ApplyStep;
    if EnvironmentStep(w, w', s) {
      EnvironmentKeeps(cfg, w, w', s);
    } else if PrepareStep(w, w', s) {
      PrepareKeeps(cfg, w, w', s);
    } else if PreviewStep(cfg, w, w', s) {
      PreviewKeeps(cfg, w, w', s);
    } else {
      ApplyKeeps(cfg, w, w', s);
    }
  }

  lemma InitKeeps(cfg: Config, w: World)
    requires Init(w)
    ensures Inv(cfg, w)
  {
  }

  lemma {:induction false} RunInvariant(cfg: Config, run: seq<World>, steps: seq<Step>, n: nat)
    requires IsRun(cfg, run, steps) && n < |run|
    ensures Inv(cfg, run[n])
  {
    hide Inv, NextStep;
    if n == 0 {
      InitKeeps(cfg, run[0]);
    } else {
      RunInvariant(cfg, run, steps, n - 1);
      assert NextStep(cfg, run[n - 1], run[n - 1 + 1], steps[n - 1]);
      StepKeepsInvariant(cfg, run[n - 1], run[n], steps[n - 1]);
    }
  }
}
