/** The publication protocol as a state machine: durable plans and baselines, a local
    clone, a remote branch that others move too, pushes in flight, and crashes anywhere. */
module Publication {
  import opened ImageRefs
  import opened Storage
  import opened Tokens
  import opened Writer
  import opened Planner

  type Rev = string

  /** Plan ids of the form `job-<hash>` belong to queued jobs; all others are chosen by callers. */
  datatype PlanId = JobPlan(job: string) | CallerPlan(id: string)

  datatype PlanState = Planned | Publishing | Published | Unknown | Conflict | AlreadySatisfied

  /** The repository and branch a database is bound to. */
  datatype Binding = Binding(provider: string, repository: string, branch: string)

  /** What a plan was made for. */
  datatype Target = Target(binding: Binding, scope: string)

  /** A row of the durable plan table. */
  datatype Row = Row(plan: Plan, target: Target, state: PlanState, commit: Option<Rev>)

  datatype Commit = Commit(parents: seq<Rev>, tree: Files, owner: Option<PlanId>)

  /** A push of `commit` on the condition that the branch is still at `base`. */
  datatype Push = Push(plan: PlanId, base: Rev, commit: Rev)

  datatype Move = MovedByUser(to: Option<Rev>) | Landed(push: Push)

  /** What the controller wants once the clone is up to date. */
  datatype Goal =
    | ForApply(id: PlanId, row: Row)
    | ForPreview(target: PlanId, intent: Intent, baseline: Option<Rev>)
    | ForJob(job: string)
    | ForSync

  /** Where the single controller operation stands; lost in a crash. */
  datatype Task =
    | Idle
    | Syncing(goal: Goal)
    | Fetching(goal: Goal)
    | Synced(goal: Goal)
    | Committed(id: PlanId, row: Row)
    | Recorded(id: PlanId, row: Row)
    | Sent(id: PlanId, row: Row)
    | Answered(id: PlanId, row: Row, ok: bool)

  /** `readable` tells whether a tree can be read at all: an existing scope, no submodules, only
      regular files, and sizes within the limits. */
  datatype Config = Config(yaml: Yaml, inScope: string -> bool, readable: Files -> bool)

  datatype World = World(
    tip: Option<Rev>, commits: map<Rev, Commit>, visible: set<Rev>, inflight: set<Push>,
    plans: map<PlanId, Row>, bound: Option<Binding>, baselines: map<string, Rev>,
    tracking: Option<Rev>, head: Rev, task: Task,
    sent: seq<Push>, history: seq<Move>)

  // ----- reviewed content -----

  /** The files of a tree that the controller looks at. */
  function Snapshot(cfg: Config, tree: Files): Files {
    map f | f in tree && cfg.inScope(f) :: tree[f]
  }

  predicate HasDiff(plan: Plan, f: string) {
    Lists(plan.diffs, f)
  }

  /** The diffs shown for review name exactly the files that the mutations change. */
  ghost predicate Reviewed(cfg: Config, tree: Files, plan: Plan) {
    var snap := Snapshot(cfg, tree);
    && Applicable(cfg.yaml, snap, plan.mutations)
    && forall f :: HasDiff(plan, f) <==> f in snap && Applied(cfg.yaml, snap, plan.mutations)[f] != snap[f]
  }

  /** The worktree after writing the updated text of every file with a diff. */
  ghost function WriteDiffs(cfg: Config, tree: Files, plan: Plan): Files {
    var updated := Applied(cfg.yaml, Snapshot(cfg, tree), plan.mutations);
    map f | f in tree :: if HasDiff(plan, f) && f in updated then updated[f] else tree[f]
  }

  /** What is committed is what was reviewed: in scope exactly the mutated text, outside untouched. */
  lemma CommittedIsReviewed(cfg: Config, tree: Files, plan: Plan)
    requires Reviewed(cfg, tree, plan)
    ensures Snapshot(cfg, WriteDiffs(cfg, tree, plan)) == Applied(cfg.yaml, Snapshot(cfg, tree), plan.mutations)
    ensures forall f :: f in tree && !cfg.inScope(f) ==> WriteDiffs(cfg, tree, plan)[f] == tree[f]
  {
    hide Applicable, Applied, HasDiff;
  }

  /** A plan built from the snapshot is reviewed content. */
  lemma BuiltPlanIsReviewed(cfg: Config, tree: Files, names: seq<string>, plan: Plan)
    requires Applicable(cfg.yaml, Snapshot(cfg, tree), plan.mutations)
    requires forall f :: f in names <==> f in Snapshot(cfg, tree)
    requires plan.diffs == DiffsOf(names, Snapshot(cfg, tree), Applied(cfg.yaml, Snapshot(cfg, tree), plan.mutations))
    ensures Reviewed(cfg, tree, plan)
  {
    hide Applicable, Applied, DiffsOf;
    var snap := Snapshot(cfg, tree);
    var updated := Applied(cfg.yaml, snap, plan.mutations);
    forall f
      ensures HasDiff(plan, f) <==> f in snap && updated[f] != snap[f]
    {
      DiffsMeaning(names, snap, updated, f);
    }
  }

  predicate Lists(diffs: seq<FileDiff>, f: string) {
    exists i :: 0 <= i < |diffs| && diffs[i].file == f
  }

  lemma {:induction false} DiffsMeaning(names: seq<string>, files: Files, changed: Files, f: string)
    ensures Lists(DiffsOf(names, files, changed), f) <==> f in names && TextOf(files, f) != TextOf(changed, f)
    decreases |names|
  {
    hide TextOf;
    if names != [] {
      var init, g := names[..|names| - 1], names[|names| - 1];
      DiffsMeaning(init, files, changed, f);
      assert names == init + [g];
      if TextOf(files, g) != TextOf(changed, g) {
        ListsMore(DiffsOf(init, files, changed), FileDiff(g, TextOf(files, g), TextOf(changed, g)), f);
      } else {
        assert DiffsOf(init, files, changed) + [] == DiffsOf(init, files, changed);
      }
    }
  }

  lemma ListsMore(diffs: seq<FileDiff>, d: FileDiff, f: string)
    ensures Lists(diffs + [d], f) <==> Lists(diffs, f) || d.file == f
  {
    var all := diffs + [d];
    assert all[|diffs|] == d && forall i :: 0 <= i < |diffs| ==> all[i] == diffs[i];
  }

  // ----- steps -----

  function Stored(plans: map<PlanId, Row>, id: PlanId, row: Row, write: Write): map<PlanId, Row> {
    if write == Refused then plans else plans[id := row]
  }

  datatype Step =
    | UserCommits(rev: Rev, commit: Commit)
    | UserMoves(to: Option<Rev>)
    | Deliver(push: Push)
    | Drop(push: Push)
    | Crash
    | BeginApply(id: PlanId)
    | BeginPreview(name: string, intent: Intent)
    | BeginJob(job: string)
    | BeginSync
    | Abort
    | List
    | Fetch
    | Baseline(request: Intent, write: Write)
    | Bind(binding: Binding, write: Write)
    | SavePreview(plan: Plan, target: Target, write: Write)
    | Recover(write: Write)
    | MarkConflict(write: Write)
    | MarkSatisfied(write: Write)
    | MakeCommit(rev: Rev)
    | Record(write: Write)
    | Send
    | Reply(ok: bool)
    | Finish(write: Write)

  /** `a` is `b` or one of its ancestors. */
  ghost predicate Ancestor(commits: map<Rev, Commit>, a: Rev, b: Rev, path: seq<Rev>) {
    && |path| > 0 && path[0] == b && path[|path| - 1] == a
    && (forall i :: 0 <= i < |path| ==> path[i] in commits)
    && forall i :: 0 <= i < |path| - 1 ==> path[i + 1] in commits[path[i]].parents
  }

  ghost predicate IsAncestor(commits: map<Rev, Commit>, a: Rev, b: Rev) {
    exists path :: Ancestor(commits, a, b, path)
  }

  predicate Pending(row: Row) {
    row.state == Publishing || row.state == Unknown
  }

  function PushOf(id: PlanId, row: Row): Push
    requires row.commit.Some?
  {
    Push(id, row.plan.base, row.commit.value)
  }

  /** The environment: other people's pushes, late or lost deliveries, and crashes. */
  ghost predicate EnvironmentStep(w: World, w': World, s: Step) {
    match s
    case UserCommits(rev, commit) =>
      && rev !in w.commits && commit.owner == None && (forall p :: p in commit.parents ==> p in w.visible)
      && w' == w.(commits := w.commits[rev := commit], visible := w.visible + {rev}, tip := Some(rev),
                  history := w.history + [MovedByUser(Some(rev))])
    case UserMoves(to) =>
      && (to.Some? ==> to.value in w.visible)
      && w' == w.(tip := to, history := w.history + [MovedByUser(to)])
    case Deliver(push) =>
      && push in w.inflight
      && w' == if w.tip == Some(push.base)
               then w.(inflight := w.inflight - {push}, tip := Some(push.commit), visible := w.visible + {push.commit},
                       history := w.history + [Landed(push)])
               else w.(inflight := w.inflight - {push})
    case Drop(push) => w' == w.(inflight := w.inflight - {push})
    case Crash => w' == w.(task := Idle)
    case _ => false
  }

  /** Starting an operation, and bringing the clone up to date. */
  ghost predicate PrepareStep(w: World, w': World, s: Step) {
    match s
    case BeginApply(id) =>
      && w.task == Idle && id in w.plans
      && w' == if w.plans[id].state == Published || w.plans[id].state == AlreadySatisfied then w
               else w.(task := Syncing(ForApply(id, w.plans[id])))
    case BeginPreview(name, intent) =>
      && w.task == Idle
      && w' == if CallerPlan(name) in w.plans then w
               else w.(task := Syncing(ForPreview(CallerPlan(name), intent, None)))
    case BeginJob(job) =>
      && w.task == Idle
      && w' == if JobPlan(job) in w.plans then w else w.(task := Syncing(ForJob(job)))
    case BeginSync => w.task == Idle && w' == w.(task := Syncing(ForSync))
    case Abort => (w.task.Syncing? || w.task.Fetching? || w.task.Synced?) && w' == w.(task := Idle)
    case List => w.task.Syncing? && w' == w.(task := if w.tip.Some? then Fetching(w.task.goal) else Idle)
    case Fetch =>
      && w.task.Fetching?
      && var tracking := if w.tip.Some? then w.tip else w.tracking;
         w' == if tracking.None? then w.(task := Idle)
               else w.(tracking := tracking, head := tracking.value, task := Synced(w.task.goal))
    case Bind(binding, write) =>
      && w.task.Synced?
      && w' == w.(bound := if w.bound.Some? || write == Refused then w.bound else Some(binding))
    case Baseline(request, write) =>
      && w.task.Synced? && w.task.goal.ForJob?
      && var job := w.task.goal.job;
         var baselines := if job in w.baselines || write == Refused then w.baselines else w.baselines[job := w.head];
         w' == if write == Done && baselines[job] == w.head
               then w.(baselines := baselines, task := Syncing(ForPreview(JobPlan(job), request, Some(w.head))))
               else w.(baselines := baselines, task := Idle)
    case _ => false
  }

  ghost predicate PreviewStep(cfg: Config, w: World, w': World, s: Step) {
    match s
    case SavePreview(plan, target, write) =>
      && w.task.Synced? && w.task.goal.ForPreview? && w.head in w.commits
      && (w.task.goal.baseline.Some? ==> w.head == w.task.goal.baseline.value)
      && plan.base == w.head && plan.intent == w.task.goal.intent && w.bound == Some(target.binding)
      && Reviewed(cfg, w.commits[w.head].tree, plan)
      && w' == w.(plans := Stored(w.plans, w.task.goal.target, Row(plan, target, Planned, None), write), task := Idle)
    case _ => false
  }

  /** Decisions on a stored plan that publish nothing. */
  ghost predicate DecideStep(w: World, w': World, s: Step) {
    var applying := w.task.Synced? && w.task.goal.ForApply?;
    match s
    case Recover(write) =>
      && applying && Pending(w.task.goal.row) && w.task.goal.row.commit.Some?
      && IsAncestor(w.commits, w.task.goal.row.commit.value, w.head)
      && w' == w.(plans := Stored(w.plans, w.task.goal.id, w.task.goal.row.(state := Published), write), task := Idle)
    case MarkConflict(write) =>
      && applying && w.task.goal.row.state == Planned && w.head != w.task.goal.row.plan.base
      && w' == w.(plans := Stored(w.plans, w.task.goal.id, w.task.goal.row.(state := Conflict), write), task := Idle)
    case MarkSatisfied(write) =>
      && applying && w.task.goal.row.state == Planned && w.head == w.task.goal.row.plan.base
      && w.task.goal.row.plan.mutations == []
      && w' == w.(plans := Stored(w.plans, w.task.goal.id, w.task.goal.row.(state := AlreadySatisfied), write), task := Idle)
    case _ => false
  }

  /** Publishing a planned change: commit, durable record, push, answer, final write. */
  ghost predicate PublishStep(cfg: Config, w: World, w': World, s: Step) {
    match s
    case MakeCommit(rev) =>
      && w.task.Synced? && w.task.goal.ForApply? && w.task.goal.row.state == Planned && w.head == w.task.goal.row.plan.base
      && w.task.goal.row.plan.mutations != [] && rev !in w.commits && w.head in w.commits
      && var id, row := w.task.goal.id, w.task.goal.row;
         w' == w.(commits := w.commits[rev := Commit([w.head], WriteDiffs(cfg, w.commits[w.head].tree, row.plan), Some(id))],
                  head := rev, task := Committed(id, row.(state := Publishing, commit := Some(rev))))
    case Record(write) =>
      && w.task.Committed?
      && var id, row := w.task.id, w.task.row;
         w' == w.(plans := Stored(w.plans, id, row, write),
                  task := if write == Done then Recorded(id, row) else Idle,
                  head := if write == Done then w.head else row.plan.base)
    case Send =>
      && w.task.Recorded? && w.task.row.commit.Some?
      && var push := PushOf(w.task.id, w.task.row);
         w' == w.(inflight := w.inflight + {push}, sent := w.sent + [push], task := Sent(w.task.id, w.task.row))
    case Reply(ok) =>
      && w.task.Sent? && w.task.row.commit.Some?
      && (ok ==> Landed(PushOf(w.task.id, w.task.row)) in w.history)
      && w' == w.(task := Answered(w.task.id, w.task.row, ok))
    case Finish(write) =>
      && w.task.Answered?
      && var row := w.task.row.(state := if w.task.ok then Published else Unknown);
         w' == w.(plans := Stored(w.plans, w.task.id, row, write), task := Idle,
                  head := if w.task.ok then w.head else row.plan.base)
    case _ => false
  }

  /** Applying a stored plan. */
  ghost predicate ApplyStep(cfg: Config, w: World, w': World, s: Step) {
    DecideStep(w, w', s) || PublishStep(cfg, w, w', s)
  }

  ghost predicate NextStep(cfg: Config, w: World, w': World, s: Step) {
    EnvironmentStep(w, w', s) || PrepareStep(w, w', s) || PreviewStep(cfg, w, w', s) || ApplyStep(cfg, w, w', s)
  }

  lemma CommitIsAStep(cfg: Config, w: World, rev: Rev)
    requires w.task.Synced? && w.task.goal.ForApply? && w.task.goal.row.state == Planned && w.head == w.task.goal.row.plan.base
    requires w.task.goal.row.plan.mutations != [] && rev !in w.commits && w.head in w.commits
    ensures var id, row := w.task.goal.id, w.task.goal.row;
            NextStep(cfg, w, w.(commits := w.commits[rev := Commit([w.head], WriteDiffs(cfg, w.commits[w.head].tree, row.plan), Some(id))],
                                head := rev, task := Committed(id, row.(state := Publishing, commit := Some(rev)))), MakeCommit(rev))
  {
    hide WriteDiffs, EnvironmentStep, PrepareStep, PreviewStep, DecideStep;
  }

  lemma RecordIsAStep(cfg: Config, w: World, write: Write)
    requires w.task.Committed?
    ensures var id, row := w.task.id, w.task.row;
            NextStep(cfg, w, w.(plans := Stored(w.plans, id, row, write), task := if write == Done then Recorded(id, row) else Idle,
                                head := if write == Done then w.head else row.plan.base), Record(write))
  {
    hide Stored, EnvironmentStep, PrepareStep, PreviewStep, DecideStep;
  }

  lemma FinishIsAStep(cfg: Config, w: World, write: Write)
    requires w.task.Answered?
    ensures var row := w.task.row.(state := if w.task.ok then Published else Unknown);
            NextStep(cfg, w, w.(plans := Stored(w.plans, w.task.id, row, write), task := Idle,
                                head := if w.task.ok then w.head else row.plan.base), Finish(write))
  {
    hide Stored, EnvironmentStep, PrepareStep, PreviewStep, DecideStep;
  }

  ghost predicate Init(w: World) {
    && w.plans == map[] && w.bound == None && w.baselines == map[] && w.task == Idle && w.sent == [] && w.history == [] && w.inflight == {}
    && w.visible == w.commits.Keys && w.head in w.visible
    && (w.tip.Some? ==> w.tip.value in w.visible) && (w.tracking.Some? ==> w.tracking.value in w.visible)
    && (forall c :: c in w.commits ==> w.commits[c].owner == None && forall p :: p in w.commits[c].parents ==> p in w.commits)
  }

  /** A run, with the steps taken. */
  ghost predicate IsRun(cfg: Config, run: seq<World>, steps: seq<Step>) {
    && |run| == |steps| + 1 && Init(run[0])
    && forall i :: 0 <= i < |steps| ==> NextStep(cfg, run[i], run[i + 1], steps[i])
  }
}
