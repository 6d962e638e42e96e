/** The controller's operations on the clone, the durable tables and the remote. A ghost
    trace records every step they take, so that each operation is seen to be a run of the
    publication protocol, whatever happens around it. */
module Controller {
  import opened Strings
  import opened Sorting
  import opened ImageRefs
  import opened Storage
  import opened Repository
  import opened Validation
  import opened Tokens
  import opened Writer
  import opened Planner
  import opened PlanBuilder
  import opened PlanTheorems
  import opened PlanStability
  import opened Publication
  import opened PublicationSafety
  import opened PublicationRuns
  import Jobs

  /** Something that happens at the remote between two steps of the controller. */
  datatype Event = Commits(rev: Rev, commit: Commit) | Moves(to: Option<Rev>) | Delivers(push: Push) | Loses(push: Push)

  /** Everything an operation cannot decide by itself, by step number where it may differ. */
  datatype Oracle = Oracle(
    events: nat -> seq<Event>, crash: nat -> bool, reachable: nat -> bool, write: nat -> Write,
    access: bool, identity: Option<Identity>, branch: string, scope: string, registry: (string, string) -> Option<string>,
    writable: string -> bool, rev: Rev, delivered: bool, replied: bool)

  /** What the provider says about the repository. */
  datatype Identity = Identity(provider: string, repository: string, verified: bool, writable: bool)

  datatype Outcome = Returned(row: Row) | NotFound | Conflicting | Rejected | NothingMatches | Unavailable | Crashed

  /** How an attempt at a job ends. */
  datatype Worked = Did(outcome: Jobs.JobOutcome) | Conflicted | Broken | Killed

  const SEARCH_LIMIT: nat := 10000

  class GitManager {
    const cfg: Config
    const parse: ParseFiles
    const jobName: string -> string
    var tip: Option<Rev>
    var commits: map<Rev, Commit>
    var visible: set<Rev>
    var inflight: set<Push>
    var history: seq<Move>
    var plans: map<PlanId, Row>
    var bound: Option<Binding>
    var baselines: map<string, Rev>
    var tracking: Option<Rev>
    var head: Rev
    ghost var task: Task
    ghost var sent: seq<Push>
    ghost var trace: seq<World>
    ghost var steps: seq<Step>

    ghost function View(): World
      reads this
    {
      World(tip, commits, visible, inflight, plans, bound, baselines, tracking, head, task, sent, history)
    }

    /** The steps so far form a run that ends in the present state. */
    ghost predicate Valid()
      reads this
    {
      IsRun(cfg, trace, steps) && trace[|trace| - 1] == View()
    }

    /** The run so far is a prefix of the run now. */
    twostate predicate Continues()
      reads this
    {
      Valid() && old(trace) <= trace && old(steps) <= steps
    }

    constructor (cfg: Config, parse: ParseFiles, jobName: string -> string, commits: map<Rev, Commit>, tip: Option<Rev>, head: Rev)
      requires head in commits && (tip.Some? ==> tip.value in commits)
      requires forall c :: c in commits ==> commits[c].owner == None && forall p :: p in commits[c].parents ==> p in commits
      ensures Valid() && task == Idle && this.cfg == cfg && this.parse == parse && this.jobName == jobName
      ensures plans == map[] && history == []
    {
      this.cfg, this.parse, this.jobName := cfg, parse, jobName;
      this.commits, this.tip, this.head, this.tracking, this.visible := commits, tip, head, tip, commits.Keys;
      inflight, history, plans, bound, baselines := {}, [], map[], None, map[];
      task, sent, steps := Idle, [], [];
      new;
      trace := [View()];
    }

    /** Appends the step just taken. */
    ghost method Take(s: Step)
      requires IsRun(cfg, trace, steps) && NextStep(cfg, trace[|trace| - 1], View(), s)
      modifies `trace, `steps
      ensures Valid() && trace == old(trace) + [View()] && steps == old(steps) + [s]
    {
      hide NextStep, Init;
      var run, taken := trace, steps;
      trace := run + [View()];
      steps := taken + [s];
      forall i | 0 <= i < |steps|
        ensures NextStep(cfg, trace[i], trace[i + 1], steps[i])
      {
        if i < |taken| {
          assert NextStep(cfg, run[i], run[i + 1], taken[i]);
        }
      }
    }

    /** Whatever the plan table holds obeys the protocol's invariant. */
    lemma Invariant()
      requires Valid()
      ensures Inv(cfg, View())
    {
      hide Inv;
      RunInvariant(cfg, trace, steps, |trace| - 1);
    }

    // ----- the environment -----

    /** One event, if it is possible at all. */
    method Happen(e: Event)
      requires Valid()
      modifies this`tip, this`commits, this`visible, this`inflight, this`history, this`trace, this`steps
      ensures Continues()
      ensures Grows(old(View()), View())
    {
      hide IsRun, NextStep;
      match e {
        case Commits(rev, commit) => OthersCommit(rev, commit);
        case Moves(to) => OthersMove(to);
        case Delivers(push) =>
          if push in inflight {
            LandPush(push);
          }
        case Loses(push) => LosePush(push);
      }
    }

    method LosePush(push: Push)
      requires Valid()
      modifies this`inflight, this`trace, this`steps
      ensures Continues()
      ensures Grows(old(View()), View())
    {
      hide IsRun, PrepareStep, PreviewStep, ApplyStep;
      inflight := inflight - {push};
      Take(Drop(push));
    }

    method OthersCommit(rev: Rev, commit: Commit)
      requires Valid()
      modifies this`tip, this`commits, this`visible, this`history, this`trace, this`steps
      ensures Continues()
      ensures Grows(old(View()), View())
    {
      hide IsRun, PrepareStep, PreviewStep, ApplyStep;
      if rev !in commits && commit.owner == None && forall p :: p in commit.parents ==> p in visible {
        commits, visible, tip := commits[rev := commit], visible + {rev}, Some(rev);
        history := history + [MovedByUser(tip)];
        Take(UserCommits(rev, commit));
      }
    }

    method OthersMove(to: Option<Rev>)
      requires Valid()
      modifies this`tip, this`history, this`trace, this`steps
      ensures Continues()
      ensures Grows(old(View()), View())
    {
      hide IsRun, PrepareStep, PreviewStep, ApplyStep;
      if to.None? || to.value in visible {
        tip, history := to, history + [MovedByUser(to)];
        Take(UserMoves(to));
      }
    }

    /** The remote handles a push: compare with the base, then swap. */
    method LandPush(push: Push)
      requires Valid() && push in inflight
      modifies this`tip, this`visible, this`inflight, this`history, this`trace, this`steps
      ensures Continues()
      ensures Grows(old(View()), View())
      ensures tip == if old(tip) == Some(push.base) then Some(push.commit) else old(tip)
      ensures old(tip) == Some(push.base) ==> Landed(push) in history
    {
      hide IsRun;
      inflight := inflight - {push};
      if tip == Some(push.base) {
        tip, visible, history := Some(push.commit), visible + {push.commit}, history + [Landed(push)];
      }
      Take(Deliver(push));
    }

    /** What others do before the next step, possibly followed by a crash of this process. */
    method Between(k: nat, o: Oracle) returns (alive: bool)
      requires Valid()
      modifies this`tip, this`commits, this`visible, this`inflight, this`history, this`task, this`trace, this`steps
      ensures Continues() && Grows(old(View()), View())
      ensures task == if alive then old(task) else Idle
      ensures o.events(k) == [] ==>
                tip == old(tip) && commits == old(commits) && visible == old(visible) && inflight == old(inflight) && history == old(history)
      ensures alive == !o.crash(k)
    {
      hide NextStep, IsRun, Grows;
      NothingGrows(View());
      var es := o.events(k);
      for i := 0 to |es|
        invariant Valid() && old(trace) <= trace && old(steps) <= steps && Grows(old(View()), View())
        invariant task == old(task)
        invariant i == 0 ==> View() == old(View())
      {
        label before:
        Happen(es[i]);
        GrowsMore(old(View()), old@before(View()), View());
      }
      alive := !o.crash(k);
      if !alive {
        IdleGrows(old(View()), View());
        TakeCrash();
      }
    }

    ghost method TakeCrash()
      requires Valid()
      modifies this`task, this`trace, this`steps
      ensures Continues() && View() == old(View()).(task := Idle)
    {
      hide NextStep, Init;
      task := Idle;
      CrashIsAStep(trace[|trace| - 1], View());
      Take(Crash);
    }

    lemma CrashIsAStep(w: World, w': World)
      requires w' == w.(task := Idle)
      ensures NextStep(cfg, w, w', Crash)
    {
    }

    /** Gives up before anything was written. */
    ghost method GiveUp()
      requires Valid() && (task.Syncing? || task.Fetching? || task.Synced?)
      modifies this`task, this`trace, this`steps
      ensures Continues() && View() == old(View()).(task := Idle)
    {
      hide IsRun;
      task := Idle;
      Take(Abort);
    }

    /** A live look at the remote: a deleted branch ends the operation. */
    method ListBranch() returns (found: bool)
      requires Valid() && task.Syncing?
      modifies this`task, this`trace, this`steps
      ensures Continues()
      ensures View() == old(View()).(task := if found then Fetching(old(task).goal) else Idle)
      ensures found <==> tip.Some?
    {
      hide IsRun, EnvironmentStep, PreviewStep, ApplyStep;
      found := tip.Some?;
      ghost var goal := task.goal;
      task := if found then Fetching(goal) else Idle;
      Take(List);
    }

    /** Fetches what is there now and resets the clone to it; a branch deleted meanwhile leaves
        the last fetched revision. */
    method FetchBranch() returns (ok: bool)
      requires Valid() && task.Fetching?
      modifies this`tracking, this`head, this`task, this`trace, this`steps
      ensures Continues()
      ensures ok <==> tip.Some? || old(tracking).Some?
      ensures ok ==> tracking == (if tip.Some? then tip else old(tracking)) && head == tracking.value
      ensures View() == old(View()).(tracking := tracking, head := head, task := if ok then Synced(old(task).goal) else Idle)
      ensures !ok ==> tracking == old(tracking) && head == old(head)
    {
      hide IsRun, EnvironmentStep, PreviewStep, ApplyStep;
      ghost var goal := task.goal;
      ok := tip.Some? || tracking.Some?;
      if ok {
        tracking := if tip.Some? then tip else tracking;
        head := tracking.value;
      }
      task := if ok then Synced(goal) else Idle;
      Take(Fetch);
    }

    /** The look at the remote, after whatever others do before it. */
    method ListRemote(k: nat, o: Oracle) returns (ok: bool, alive: bool)
      requires Valid() && task.Syncing?
      modifies this`tip, this`commits, this`visible, this`inflight, this`history, this`task, this`trace, this`steps
      ensures Continues() && (ok ==> alive)
      ensures task == if ok then Fetching(old(task).goal) else Idle
      ensures Quiet(o, k) ==> (ok <==> tip.Some?) && tip == old(tip) && commits == old(commits) && history == old(history)
    {
      hide IsRun, NextStep, Grows;
      ok := false;
      alive := Between(k, o);
      if !alive {
        return;
      }
      if !o.reachable(k) {
        GiveUp();
        return;
      }
      ok := ListBranch();
    }

    /** The fetch, after whatever others do before it. */
    method FetchRemote(k: nat, o: Oracle) returns (ok: bool, alive: bool)
      requires Valid() && task.Fetching?
      modifies this`tip, this`commits, this`visible, this`inflight, this`history, this`task, this`trace, this`steps, this`tracking, this`head
      ensures Continues() && (ok ==> alive)
      ensures task == if ok then Synced(old(task).goal) else Idle
      ensures Quiet(o, k) ==> tip == old(tip) && commits == old(commits) && history == old(history) && (tip.Some? ==> ok && Some(head) == tip)
    {
      hide IsRun, NextStep, Grows;
      ok := false;
      alive := Between(k, o);
      if !alive {
        return;
      }
      if !o.reachable(k) {
        GiveUp();
        return;
      }
      ok := FetchBranch();
    }

    /** Lists the remote refs, fetches, and resets the clone to the branch as last fetched. */
    method Synchronize(k: nat, o: Oracle) returns (ok: bool, alive: bool)
      requires Valid() && task.Syncing?
      modifies this`tip, this`commits, this`visible, this`inflight, this`history, this`task, this`trace, this`steps, this`tracking, this`head
      ensures Continues() && (ok ==> alive)
      ensures task == if ok then Synced(old(task).goal) else Idle
      ensures Quiet(o, k) && Quiet(o, k + 1) && old(tip).Some? ==> ok && Some(head) == tip
      ensures Quiet(o, k) && Quiet(o, k + 1) ==> tip == old(tip) && commits == old(commits) && history == old(history)
    {
      hide IsRun, NextStep, Quiet;
      ok, alive := ListRemote(k, o);
      if ok {
        ok, alive := FetchRemote(k + 1, o);
      }
    }

    /** The model of the present head: the files in scope, parsed. A tree that cannot be read is an error. */
    method TakeSnapshot() returns (ok: bool, model: Model, files: Files)
      requires head in commits
      ensures ok == cfg.readable(commits[head].tree)
      ensures files == Snapshot(cfg, commits[head].tree)
      ensures IsModel(parse, model, files, head)
    {
      ok := cfg.readable(commits[head].tree);
      files := Snapshot(cfg, commits[head].tree);
      var names := SortStrings(files.Keys);
      model := parse(files).(revision := head, files := names);
    }

    // ----- access and identity -----

    /** Binds the database to a repository and branch, once and for all; another one is refused. */
    method BindIdentity(b: Binding, write: Write) returns (failure: Option<Outcome>)
      requires Valid() && task.Synced?
      modifies this`bound, this`trace, this`steps
      ensures Continues() && View() == old(View()).(bound := if old(bound).Some? || write == Refused then old(bound) else Some(b))
      ensures failure.None? <==> write == Done && bound == Some(b)
      ensures failure == Some(Conflicting) <==> write == Done && bound != Some(b)
      ensures failure.Some? ==> failure.value == Conflicting || failure.value == Unavailable
    {
      hide IsRun, EnvironmentStep, PreviewStep, ApplyStep;
      if bound.None? && write != Refused {
        bound := Some(b);
      }
      Take(Bind(b, write));
      failure := if write != Done then Some(Unavailable) else if bound != Some(b) then Some(Conflicting) else None;
    }

    /** Before planning: access, a verified and writable repository, and the binding of the database. */
    method VerifyForPreview(o: Oracle) returns (target: Option<Target>, failure: Outcome)
      requires Valid() && task.Synced?
      modifies this`bound, this`trace, this`steps
      ensures Continues() && View() == old(View()).(bound := bound)
      ensures target.Some? ==> Identified(o) == target && bound == Some(target.value.binding)
      ensures target.None? ==> failure == Rejected || failure == Conflicting || failure == Unavailable
      ensures Identified(o).Some? && o.write(6) == Done && Bindable(old(bound), Identified(o).value.binding) ==> target.Some?
    {
      hide IsRun, NextStep;
      failure := Rejected;
      if !o.access || o.identity.None? || !o.identity.value.verified || !o.identity.value.writable {
        return None, failure;
      }
      var b := Binding(o.identity.value.provider, o.identity.value.repository, o.branch);
      var refused := BindIdentity(b, o.write(6));
      if refused.Some? {
        return None, refused.value;
      }
      target := Some(Target(b, o.scope));
    }

    /** Before applying: the same scope, access, and the same repository and branch as when the plan was made. */
    method VerifyForApply(target: Target, o: Oracle) returns (failure: Option<Outcome>)
      requires Valid() && task.Synced?
      modifies this`bound, this`trace, this`steps
      ensures Continues() && View() == old(View()).(bound := bound)
      ensures failure.None? ==> Identified(o) == Some(target) && bound == Some(target.binding)
      ensures failure.Some? ==> failure.value == Rejected || failure.value == Conflicting || failure.value == Unavailable
      ensures o.scope != target.scope ==> failure == Some(Conflicting)
      ensures Identified(o) == Some(target) && o.write(6) == Done && Bindable(old(bound), target.binding) ==> failure.None?
    {
      hide IsRun, NextStep;
      if target.scope != o.scope {
        return Some(Conflicting);
      }
      if !o.access || o.identity.None? {
        return Some(Rejected);
      }
      var identity := o.identity.value;
      if !identity.verified || !identity.writable || identity.provider != target.binding.provider
         || identity.repository != target.binding.repository || o.branch != target.binding.branch {
        return Some(Conflicting);
      }
      failure := BindIdentity(target.binding, o.write(6));
    }

    // ----- preview -----

    /** Plans an intent on the fetched revision and stores the plan. */
    method FinishPreview(id: PlanId, intent: Intent, baseline: Option<Rev>, o: Oracle) returns (r: Outcome)
      requires Valid() && task == Synced(ForPreview(id, intent, baseline)) && IntentOk(intent)
      requires head in commits
      modifies this`plans, this`bound, this`task, this`trace, this`steps
      ensures Continues() && task == Idle
      ensures forall other :: other in old(plans) && other != id ==> other in plans && plans[other] == old(plans)[other]
      ensures r.Returned? ==>
                && id in plans && plans[id] == r.row
                && r.row.state == Planned && r.row.commit == None && r.row.plan.base == head && r.row.plan.intent == intent
                && (baseline.Some? ==> r.row.plan.base == baseline.value)
      ensures r.Returned? ==>
                && Identified(o) == Some(r.row.target) && bound == Some(r.row.target.binding)
                && Resolved(cfg, parse, o, commits[head].tree, head, r.row.plan)
      ensures !r.Returned? && o.write(0) == Refused ==> plans == old(plans)
      ensures Identified(o).Some? && o.write(6) == Done && Bindable(old(bound), Identified(o).value.binding)
              && (baseline.Some? ==> head == baseline.value) && o.write(0) == Done
              && CanPlan(cfg, parse, o, commits[head].tree, head, intent) ==>
                r.Returned?
    {
      hide IsRun, NextStep, IntentOk, Snapshot, Reviewed, CanPlan, Resolved;
      if baseline.Some? && head != baseline.value {
        GiveUp();
        return Conflicting;
      }
      var target, refused := VerifyForPreview(o);
      if target.None? {
        GiveUp();
        return refused;
      }
      var built, failure := BuildOnHead(intent, o);
      if built.None? {
        GiveUp();
        return failure;
      }
      StorePreview(id, intent, baseline, built.value, target.value, o.write(0));
      r := if o.write(0) == Done then Returned(Row(built.value, target.value, Planned, None)) else Unavailable;
    }

    /** Takes a snapshot, asks the registry and builds. */
    method BuildOnHead(intent: Intent, o: Oracle) returns (plan: Option<Plan>, failure: Outcome)
      requires head in commits && IntentOk(intent)
      ensures plan.Some? ==> plan.value.base == head && plan.value.intent == intent && Reviewed(cfg, commits[head].tree, plan.value)
      ensures plan.Some? ==> Resolved(cfg, parse, o, commits[head].tree, head, plan.value)
      ensures plan.None? ==> !CanPlan(cfg, parse, o, commits[head].tree, head, intent) && (failure == NothingMatches || failure == Rejected)
    {
      hide Applied, Applicable, Plannable, PostCheck, IsMutationList, DiffsOf, IsArtifactList, IntentOk, Snapshot, Reviewed, IsRequest, CanPlan,
        RendersAsWanted, Resolves, Resolved, Answers, ScalarEdits, Pairs, ResolvedMap, Expected, ImpactOf;
      failure := Rejected;
      var readable, model, files := TakeSnapshot();
      if !readable {
        Unreadable(cfg, parse, o, commits[head].tree, head, intent);
        return None, Rejected;
      }
      var requested := Request(model, intent);
      var answers, k := AskRegistry(requested, o);
      if answers.None? {
        NoAnswer(cfg, parse, o, commits[head].tree, head, intent, model, requested, k);
        return None, Rejected;
      }
      var built := BuildPlan(cfg.yaml, parse, model, files, intent, answers.value);
      if built.Err? {
        NoBuild(cfg, parse, o, commits[head].tree, head, intent, model, requested, answers.value);
        return None, if built.error == NoMatch then NothingMatches else Rejected;
      }
      BuiltIsReviewed(cfg, parse, commits[head].tree, head, model, built.value, answers.value);
      BuiltResolves(cfg, parse, o, commits[head].tree, head, model, built.value, requested, answers.value);
      plan := Some(built.value);
    }

    /** Asks the registry for one artifact; it answers with a digest for that image and tag. */
    method VerifyArtifact(image: string, tag: string, o: Oracle) returns (a: Option<Artifact>)
      ensures a.Some? <==> o.registry(image, tag).Some?
      ensures a.Some? ==> a.value.image == image && a.value.tag == tag && o.registry(image, tag) == Some(a.value.digest)
    {
      var digest := o.registry(image, tag);
      a := if digest.None? then None else Some(Artifact(image, tag, digest.value));
    }

    /** Asks the registry for every requested artifact; one without an answer ends it. */
    method AskRegistry(requested: seq<Artifact>, o: Oracle) returns (answers: Option<seq<Artifact>>, k: nat)
      ensures answers.Some? ==> Answers(o, requested, answers.value)
      ensures answers.None? ==> k < |requested| && o.registry(requested[k].image, requested[k].tag).None?
    {
      var artifacts: seq<Artifact> := [];
      for i := 0 to |requested|
        invariant Answers(o, requested[..i], artifacts)
      {
        var a := VerifyArtifact(requested[i].image, requested[i].tag, o);
        if a.None? {
          return None, i;
        }
        artifacts := artifacts + [a.value];
      }
      assert requested[..|requested|] == requested;
      answers, k := Some(artifacts), 0;
    }

    method StorePreview(id: PlanId, intent: Intent, baseline: Option<Rev>, plan: Plan, target: Target, write: Write)
      requires Valid() && task == Synced(ForPreview(id, intent, baseline)) && head in commits
      requires baseline.Some? ==> head == baseline.value
      requires plan.base == head && plan.intent == intent && Reviewed(cfg, commits[head].tree, plan) && bound == Some(target.binding)
      modifies this`plans, this`task, this`trace, this`steps
      ensures Continues() && View() == old(View()).(plans := Stored(old(plans), id, Row(plan, target, Planned, None), write), task := Idle)
    {
      hide IsRun, EnvironmentStep, PrepareStep, ApplyStep, Reviewed;
      plans := Stored(plans, id, Row(plan, target, Planned, None), write);
      task := Idle;
      Take(SavePreview(plan, target, write));
    }

    method Request(model: Model, intent: Intent) returns (list: seq<Artifact>)
      requires IntentOk(intent)
      ensures IsRequest(list, model.uses, intent)
    {
      list := RequestedArtifacts(model.uses, intent);
    }

    ghost method StartPreview(name: string, intent: Intent)
      requires Valid() && task == Idle && CallerPlan(name) !in plans
      modifies this`task, this`trace, this`steps
      ensures Continues() && View() == old(View()).(task := Syncing(ForPreview(CallerPlan(name), intent, None)))
    {
      hide IsRun, EnvironmentStep, PreviewStep, ApplyStep;
      task := Syncing(ForPreview(CallerPlan(name), intent, None));
      Take(BeginPreview(name, intent));
    }

    /** Fetches, and plans on what was fetched. */
    method PlanOnHead(id: PlanId, intent: Intent, baseline: Option<Rev>, o: Oracle) returns (r: Outcome)
      requires Valid() && task == Syncing(ForPreview(id, intent, baseline)) && IntentOk(intent)
      modifies this
      ensures Continues() && task == Idle && sent == old(sent) && baselines == old(baselines)
      ensures forall other :: other in old(plans) && other != id ==> other in plans && plans[other] == old(plans)[other]
      ensures r.Returned? ==>
                && id in plans && plans[id] == r.row
                && r.row.state == Planned && r.row.commit == None && r.row.plan.base == head && r.row.plan.intent == intent
                && (baseline.Some? ==> r.row.plan.base == baseline.value)
      ensures r.Returned? ==>
                && Identified(o) == Some(r.row.target) && head in commits
                && Resolved(cfg, parse, o, commits[head].tree, head, r.row.plan)
      ensures PreviewReady(cfg, parse, o, old(commits), old(bound), old(tip), intent) && (baseline.Some? ==> baseline == old(tip)) ==>
                r.Returned? && tip == old(tip) && commits == old(commits) && Some(head) == tip
    {
      hide IsRun, NextStep, IntentOk, Resolved, Quiet, CanPlan;
      var ok, alive := Synchronize(0, o);
      if !ok {
        return if alive then Unavailable else Crashed;
      }
      HeadExists();
      r := FinishPreview(id, intent, baseline, o);
    }

    /** A caller's preview: an id is bound to its first intent for good. */
    method Preview(name: string, intent: Intent, o: Oracle) returns (r: Outcome)
      requires Valid() && task == Idle
      modifies this
      ensures Continues() && task == Idle
      ensures forall id :: id in old(plans) ==> id in plans && plans[id] == old(plans)[id]
      ensures IntentOk(intent) && CallerPlan(name) in old(plans) ==>
                r == if old(plans)[CallerPlan(name)].plan.intent == intent then Returned(old(plans)[CallerPlan(name)]) else Conflicting
      ensures r.Returned? ==> CallerPlan(name) in plans && plans[CallerPlan(name)] == r.row && r.row.plan.intent == intent
      ensures r.Returned? && CallerPlan(name) !in old(plans) ==>
                && r.row.state == Planned && r.row.plan.base == head && Identified(o) == Some(r.row.target) && head in commits
                && Resolved(cfg, parse, o, commits[head].tree, head, r.row.plan)
      ensures IntentOk(intent) && CallerPlan(name) !in old(plans) && PreviewReady(cfg, parse, o, old(commits), old(bound), old(tip), intent) ==> r.Returned?
    {
      hide IsRun, NextStep, IntentOk, Resolved, PreviewReady;
      var id := CallerPlan(name);
      if !IntentOk(intent) {
        return Rejected;
      }
      if id in plans {
        return if plans[id].plan.intent == intent then Returned(plans[id]) else Conflicting;
      }
      StartPreview(name, intent);
      r := PlanOnHead(id, intent, None, o);
    }

    // ----- apply -----

    /** Searches the history of the clone for a commit, depth first and each commit once, up to a
        fixed number of commits. */
    method Reachable(commit: Rev) returns (found: bool)
      requires RemoteOk(View()) && head in visible
      ensures found ==> IsAncestor(commits, commit, head)
      ensures !found && IsAncestor(commits, commit, head) ==> LongHistory(commits, head)
    {
      hide IsAncestor;
      var work, seen := [head], {};
      SelfAncestor(commits, head);
      for i := 0 to SEARCH_LIMIT
        invariant forall r :: r in work ==> r in visible && IsAncestor(commits, r, head)
        invariant seen <= visible && |seen| == i && commit !in seen
        invariant forall r :: r in seen ==> IsAncestor(commits, r, head)
        invariant head in seen || head in work
        invariant Covered(commits, seen, work)
      {
        while work != [] && work[0] in seen
          invariant forall r :: r in work ==> r in visible && IsAncestor(commits, r, head)
          invariant head in seen || head in work
          invariant Covered(commits, seen, work)
          decreases |work|
        {
          CoveredWithout(commits, seen, work);
          work := work[1..];
        }
        if work == [] {
          if IsAncestor(commits, commit, head) {
            ClosedHasAncestors(commits, seen, commit, head);
          }
          return false;
        }
        var c := work[0];
        if c == commit {
          return true;
        }
        forall r | r in commits[c].parents && r in commits
          ensures IsAncestor(commits, r, head)
        {
          ParentAncestor(commits, r, c, head);
        }
        CoveredMore(commits, seen, work);
        seen, work := seen + {c}, commits[c].parents + work[1..];
      }
      found := false;
      if IsAncestor(commits, commit, head) {
        assert |seen + {commit}| == SEARCH_LIMIT + 1;
        assert AllAncestors(commits, seen + {commit}, head);
      }
    }

    /** The worktree after the reviewed files were written; the first file that cannot be ends it. */
    method WriteFiles(tree: Files, plan: Plan, updated: Files, o: Oracle) returns (ok: bool, written: Files)
      requires updated == Applied(cfg.yaml, Snapshot(cfg, tree), plan.mutations)
      ensures ok <==> AllWritten(o, plan.diffs)
      ensures ok ==> written == WriteDiffs(cfg, tree, plan)
    {
      hide Applied, Snapshot, Lists, UpdatePathOk;
      written := tree;
      assert NoneListed([]) by {
        ListsNothing();
      }
      for i := 0 to |plan.diffs|
        invariant written.Keys == tree.Keys && AllWritten(o, plan.diffs[..i])
        invariant forall g :: g in tree ==> written[g] == Pick(plan.diffs[..i], updated, tree, g)
      {
        var f := plan.diffs[i].file;
        if !UpdatePathOk(f) || !o.writable(f) {
          assert !AllWritten(o, plan.diffs);
          return false, written;
        }
        assert plan.diffs[..i + 1] == plan.diffs[..i] + [plan.diffs[i]];
        forall g
          ensures Lists(plan.diffs[..i + 1], g) <==> Lists(plan.diffs[..i], g) || g == f
        {
          ListsMore(plan.diffs[..i], plan.diffs[i], g);
        }
        if f in tree && f in updated {
          written := written[f := updated[f]];
        }
      }
      assert plan.diffs[..|plan.diffs|] == plan.diffs;
      ok := true;
    }

    /** Checks the artifacts again and rebuilds the plan; anything different is refused. */
    method Recheck(row: Row, o: Oracle) returns (r: Option<Outcome>, updated: Files)
      requires head in commits
      ensures r.None? ==> updated == Applied(cfg.yaml, Snapshot(cfg, commits[head].tree), row.plan.mutations)
      ensures r.Some? ==> r.value == Conflicting || r.value == Rejected
      ensures r.None? ==> Confirms(o, row.plan.artifacts) && StillResolves(cfg, parse, commits[head].tree, head, row.plan)
      ensures Built(cfg, parse, commits[head].tree, head, row.plan) && Confirms(o, row.plan.artifacts) ==> r.None?
    {
      hide Applied, Applicable, Snapshot, RendersAsWanted, Plannable, Built, IsMutationList, ScalarEdits, Pairs, Expected, ImpactOf, IsArtifactList,
        DiffsOf, ResolvedMap, NoConflict;
      updated := map[];
      for i := 0 to |row.plan.artifacts|
        invariant Confirms(o, row.plan.artifacts[..i])
      {
        var a := row.plan.artifacts[i];
        var now := VerifyArtifact(a.image, a.tag, o);
        if now.None? {
          return Some(Rejected), updated;
        }
        if now.value != a {
          return Some(Conflicting), updated;
        }
      }
      assert row.plan.artifacts[..|row.plan.artifacts|] == row.plan.artifacts;
      var readable, model, files := TakeSnapshot();
      if !readable {
        BuiltIsReadable(cfg, parse, commits[head].tree, head, row.plan);
        return Some(Rejected), updated;
      }
      var rebuilt := BuildPlan(cfg.yaml, parse, model, files, row.plan.intent, row.plan.artifacts);
      if Built(cfg, parse, commits[head].tree, head, row.plan) {
        Rebuilds(row.plan, model, files, rebuilt);
      }
      if rebuilt.Err? {
        return Some(Rejected), updated;
      }
      if rebuilt.value.mutations != row.plan.mutations || rebuilt.value.diffs != row.plan.diffs {
        return Some(Conflicting), updated;
      }
      assert Resolves(cfg, parse, commits[head].tree, head, rebuilt.value, row.plan.artifacts) && SameEdits(rebuilt.value, row.plan);
      var applied := Apply(cfg.yaml, files, row.plan.mutations);
      if applied.None? {
        return Some(Rejected), updated;
      }
      r, updated := None, applied.value;
    }

    /** On the same revision with the same artifacts the rebuilt plan has the same mutations and diffs. */
    lemma Rebuilds(plan: Plan, model: Model, files: Files, rebuilt: Planner.Result<Plan>)
      requires head in commits && Built(cfg, parse, commits[head].tree, head, plan) && files == Snapshot(cfg, commits[head].tree)
      requires IsModel(parse, model, files, head)
      requires rebuilt.Ok? ==> IsPlan(cfg.yaml, model, files, plan.intent, plan.artifacts, rebuilt.value)
      requires rebuilt.Err? && Plannable(model, plan.intent, plan.artifacts) ==>
                 forall ms :: IsMutationList(ms, ScalarEdits(Pairs(plan.intent.changes, model.uses), ResolvedMap(plan.artifacts))) ==>
                                !RendersAsWanted(cfg.yaml, parse, model, files, plan.intent, plan.artifacts, ms)
      ensures rebuilt.Ok? && rebuilt.value.mutations == plan.mutations && rebuilt.value.diffs == plan.diffs
      ensures Applicable(cfg.yaml, files, plan.mutations)
    {
      hide Plannable, Applicable, PostCheck, IsPlan, IsMutationList, ScalarEdits, Pairs, ResolvedMap, Expected, ValidRef, Snapshot, Ascending;
      var verified :| Resolves(cfg, parse, commits[head].tree, head, plan, verified);
      var was :| IsModel(parse, was, files, head) && IsBuilt(cfg.yaml, parse, was, files, verified, plan);
      AscendingUnique(x => x, was.files, model.files);
      assert was == model;
      ReplanIsStable(cfg.yaml, parse, model, files, plan.intent, verified, plan);
    }

    method StoreDecision(id: PlanId, row: Row, ghost s: Step, write: Write)
      requires Valid() && task.Synced?
      requires s == MarkConflict(write) || s == MarkSatisfied(write) || s == Recover(write)
      requires ApplyStep(cfg, View(), View().(plans := Stored(plans, id, row, write), task := Idle), s)
      modifies this`plans, this`task, this`trace, this`steps
      ensures Continues() && View() == old(View()).(plans := Stored(old(plans), id, row, write), task := Idle)
    {
      hide IsRun, EnvironmentStep, PrepareStep, PreviewStep, ApplyStep;
      plans := Stored(plans, id, row, write);
      task := Idle;
      Take(s);
    }

    /** A pending publication whose commit is found in the branch history is published. */
    method MarkRecovered(id: PlanId, row: Row, write: Write)
      requires Valid() && task == Synced(ForApply(id, row)) && Pending(row)
      requires row.commit.Some? && IsAncestor(commits, row.commit.value, head)
      modifies this`plans, this`task, this`trace, this`steps
      ensures Continues() && View() == old(View()).(plans := Stored(old(plans), id, row.(state := Published), write), task := Idle)
    {
      StoreDecision(id, row.(state := Published), Recover(write), write);
    }

    method MarkMoved(id: PlanId, row: Row, write: Write)
      requires Valid() && task == Synced(ForApply(id, row)) && row.state == Planned && head != row.plan.base
      modifies this`plans, this`task, this`trace, this`steps
      ensures Continues() && View() == old(View()).(plans := Stored(old(plans), id, row.(state := Conflict), write), task := Idle)
    {
      StoreDecision(id, row.(state := Conflict), MarkConflict(write), write);
    }

    method MarkEmpty(id: PlanId, row: Row, write: Write)
      requires Valid() && task == Synced(ForApply(id, row)) && row.state == Planned && head == row.plan.base && row.plan.mutations == []
      modifies this`plans, this`task, this`trace, this`steps
      ensures Continues() && View() == old(View()).(plans := Stored(old(plans), id, row.(state := AlreadySatisfied), write), task := Idle)
    {
      StoreDecision(id, row.(state := AlreadySatisfied), MarkSatisfied(write), write);
    }

    /** Commits the written worktree on top of the base, locally. */
    method CommitFiles(id: PlanId, row: Row, written: Files, rev: Rev) returns (candidate: Row)
      requires Valid() && task == Synced(ForApply(id, row)) && row.state == Planned && head == row.plan.base
      requires row.plan.mutations != [] && rev !in commits && head in commits
      requires written == WriteDiffs(cfg, commits[head].tree, row.plan)
      modifies this`commits, this`head, this`task, this`trace, this`steps
      ensures Continues() && candidate == row.(state := Publishing, commit := Some(rev))
      ensures View() == old(View()).(commits := old(commits)[rev := Commit([old(head)], written, Some(id))], head := rev,
                                     task := Committed(id, candidate))
    {
      hide IsRun, NextStep, WriteDiffs;
      CommitIsAStep(cfg, View(), rev);
      candidate := row.(state := Publishing, commit := Some(rev));
      commits := commits[rev := Commit([head], written, Some(id))];
      head := rev;
      task := Committed(id, candidate);
      Take(MakeCommit(rev));
    }

    /** Makes the commit id durable; without that nothing is pushed. */
    method RecordCandidate(id: PlanId, row: Row, write: Write)
      requires Valid() && task == Committed(id, row)
      modifies this`plans, this`head, this`task, this`trace, this`steps
      ensures Continues()
      ensures View() == old(View()).(plans := Stored(old(plans), id, row, write), task := if write == Done then Recorded(id, row) else Idle,
                                     head := if write == Done then old(head) else row.plan.base)
    {
      hide IsRun, NextStep;
      RecordIsAStep(cfg, View(), write);
      plans := Stored(plans, id, row, write);
      task := if write == Done then Recorded(id, row) else Idle;
      head := if write == Done then head else row.plan.base;
      Take(Record(write));
    }

    method SendPush(id: PlanId, row: Row) returns (push: Push)
      requires Valid() && task == Recorded(id, row) && row.commit.Some?
      modifies this`inflight, this`sent, this`task, this`trace, this`steps
      ensures Continues() && push == PushOf(id, row)
      ensures View() == old(View()).(inflight := old(inflight) + {push}, sent := old(sent) + [push], task := Sent(id, row))
    {
      hide IsRun, EnvironmentStep, PrepareStep, PreviewStep, DecideStep;
      push := PushOf(id, row);
      inflight := inflight + {push};
      sent := sent + [push];
      task := Sent(id, row);
      Take(Send);
    }

    /** The answer to the push, if it arrives; success is only reported when the branch was moved. */
    method ReceiveReply(id: PlanId, row: Row, replied: bool) returns (ok: bool)
      requires Valid() && task == Sent(id, row) && row.commit.Some?
      modifies this`task, this`trace, this`steps
      ensures Continues() && View() == old(View()).(task := Answered(id, row, ok))
      ensures ok == (replied && Landed(PushOf(id, row)) in history)
    {
      hide IsRun, EnvironmentStep, PrepareStep, PreviewStep, DecideStep;
      ok := replied && Landed(PushOf(id, row)) in history;
      task := Answered(id, row, ok);
      Take(Reply(ok));
    }

    method FinishApply(id: PlanId, row: Row, ok: bool, write: Write) returns (final: Row)
      requires Valid() && task == Answered(id, row, ok)
      modifies this`plans, this`head, this`task, this`trace, this`steps
      ensures Continues() && final == row.(state := if ok then Published else Unknown)
      ensures View() == old(View()).(plans := Stored(old(plans), id, final, write), task := Idle,
                                     head := if ok then old(head) else row.plan.base)
    {
      hide IsRun, NextStep;
      FinishIsAStep(cfg, View(), write);
      final := row.(state := if ok then Published else Unknown);
      plans := Stored(plans, id, final, write);
      task := Idle;
      head := if ok then head else row.plan.base;
      Take(Finish(write));
    }

    /** Records the commit, and then whatever others do. */
    method RecordAndWait(id: PlanId, row: Row, o: Oracle) returns (r: Option<Outcome>)
      requires Valid() && task == Committed(id, row)
      modifies this
      ensures Continues()
      ensures r.Some? ==> task == Idle && !r.value.Returned?
      ensures r.None? ==> task == Recorded(id, row)
      ensures plans == old(plans) || plans == old(plans)[id := row]
      ensures sent == old(sent)
      ensures o.write(0) == Done && o.events(3) == [] && !o.crash(3) ==> r.None? && tip == old(tip)
    {
      hide IsRun, NextStep, Grows;
      RecordCandidate(id, row, o.write(0));
      if o.write(0) != Done {
        return Some(Unavailable);
      }
      var alive := Between(3, o);
      r := if alive then None else Some(Crashed);
    }

    /** Commits the checked plan and records the commit, before anything leaves the process. */
    method PrepareCandidate(id: PlanId, row: Row, written: Files, o: Oracle) returns (r: Option<Outcome>, candidate: Row)
      requires Valid() && task == Synced(ForApply(id, row)) && row.state == Planned && head == row.plan.base
      requires row.plan.mutations != [] && o.rev !in commits && head in commits
      requires written == WriteDiffs(cfg, commits[head].tree, row.plan)
      modifies this
      ensures Continues() && candidate == row.(state := Publishing, commit := Some(o.rev))
      ensures r.Some? ==> task == Idle && !r.value.Returned?
      ensures r.None? ==> task == Recorded(id, candidate)
      ensures plans == old(plans) || plans == old(plans)[id := candidate]
      ensures sent == old(sent)
      ensures Smooth(o) ==> r.None? && tip == old(tip)
    {
      hide IsRun, NextStep, WriteDiffs, Grows;
      candidate := CommitFiles(id, row, written, o.rev);
      var alive := Between(2, o);
      if !alive {
        return Some(Crashed), candidate;
      }
      r := RecordAndWait(id, candidate, o);
    }

    /** From the checked plan to the final database write; the remote is asked exactly once. */
    method Publish(id: PlanId, row: Row, written: Files, o: Oracle) returns (r: Outcome)
      requires Valid() && task == Synced(ForApply(id, row)) && row.state == Planned && head == row.plan.base
      requires row.plan.mutations != [] && head in commits && written == WriteDiffs(cfg, commits[head].tree, row.plan)
      requires id in plans
      modifies this
      ensures Continues() && task == Idle
      ensures plans.Keys == old(plans).Keys && forall other :: other in old(plans) && other != id ==> plans[other] == old(plans)[other]
      ensures r.Returned? ==> plans[id] == r.row && r.row.state == Published
      ensures sent == old(sent) || sent == old(sent) + [Push(id, row.plan.base, o.rev)]
      ensures old(tip) == Some(row.plan.base) && o.rev !in old(commits) && Smooth(o) ==>
                r == Returned(row.(state := Published, commit := Some(o.rev))) && tip == Some(o.rev)
    {
      hide IsRun, NextStep, WriteDiffs, Smooth;
      if o.rev in commits {
        GiveUp();
        return Unavailable;
      }
      var stopped, candidate := PrepareCandidate(id, row, written, o);
      if stopped.Some? {
        return stopped.value;
      }
      r := PushCandidate(id, candidate, o);
    }

    /** The one conditional push of a recorded candidate. */
    method PushCandidate(id: PlanId, row: Row, o: Oracle) returns (r: Outcome)
      requires Valid() && task == Recorded(id, row) && row.commit.Some? && id in plans
      modifies this
      ensures Continues() && task == Idle
      ensures plans.Keys == old(plans).Keys && forall other :: other in old(plans) && other != id ==> plans[other] == old(plans)[other]
      ensures r.Returned? ==> plans[id] == r.row && r.row == row.(state := Published)
      ensures sent == old(sent) + [PushOf(id, row)]
      ensures old(tip) == Some(row.plan.base) && Smooth(o) ==> r == Returned(row.(state := Published)) && tip == row.commit
    {
      hide IsRun, NextStep, Grows;
      var push := SendPush(id, row);
      if o.delivered {
        LandPush(push);
      }
      var alive := Between(4, o);
      if !alive {
        return Crashed;
      }
      r := Conclude(id, row, o);
    }

    /** What the controller makes of the answer. */
    method Conclude(id: PlanId, row: Row, o: Oracle) returns (r: Outcome)
      requires Valid() && task == Sent(id, row) && row.commit.Some? && id in plans
      modifies this
      ensures Continues() && task == Idle && sent == old(sent)
      ensures plans.Keys == old(plans).Keys && forall other :: other in old(plans) && other != id ==> plans[other] == old(plans)[other]
      ensures r.Returned? ==> plans[id] == r.row && r.row == row.(state := Published)
      ensures o.replied && o.write(1) == Done && Landed(PushOf(id, row)) in old(history) && o.events(5) == [] && !o.crash(5) ==>
                r == Returned(row.(state := Published)) && tip == old(tip)
    {
      hide IsRun, NextStep;
      var ok := ReceiveReply(id, row, o.replied);
      var alive := Between(5, o);
      if !alive {
        return Crashed;
      }
      var final := FinishApply(id, row, ok, o.write(1));
      if o.write(1) != Done {
        return Unavailable;
      }
      r := if ok then Returned(final) else Conflicting;
    }

    /** The state of a plan decides what applying it may still do: a published or satisfied plan is
        returned as it is, a pending one can only be found in the history, a conflicting one stays,
        and only a planned one on its own base is published. */
    method Decide(id: PlanId, row: Row, o: Oracle) returns (r: Outcome)
      requires Valid() && task == Synced(ForApply(id, row)) && id in plans && plans[id] == row
      requires row.state != Published && row.state != AlreadySatisfied
      modifies this
      ensures Continues() && task == Idle
      ensures plans.Keys == old(plans).Keys && forall other :: other in old(plans) && other != id ==> plans[other] == old(plans)[other]
      ensures r.Returned? ==> plans[id] == r.row && (r.row.state == Published || r.row.state == AlreadySatisfied)
      ensures row.state != Planned || row.plan.base != old(head) ==> sent == old(sent)
      ensures sent == old(sent) || (sent == old(sent) + [Push(id, row.plan.base, o.rev)] && Approved(o, row))
      ensures old(tip) == Some(row.plan.base) && old(head) == row.plan.base && row.state == Planned
              && old(head) in old(commits) && Built(cfg, parse, old(commits)[old(head)].tree, old(head), row.plan)
              && Identified(o) == Some(row.target) && AllWritten(o, row.plan.diffs)
              && Smooth(o) && Confirms(o, row.plan.artifacts) && o.rev !in old(commits) ==>
                r == Returned(Ideal(row, o.rev)) && tip == IdealTip(row, o.rev)
    {
      hide IsRun, NextStep, Built, Confirms, Approved, AllWritten, Identified, Ideal, IdealTip, Smooth;
      RowIsBound(id);
      WritesWhenSmooth(o);
      var refused := VerifyForApply(row.target, o);
      if refused.Some? {
        GiveUp();
        return refused.value;
      }
      r := DecideVerified(id, row, o);
    }

    /** What the state of the row allows, once it is verified. */
    method DecideVerified(id: PlanId, row: Row, o: Oracle) returns (r: Outcome)
      requires Valid() && task == Synced(ForApply(id, row)) && id in plans && plans[id] == row
      requires row.state != Published && row.state != AlreadySatisfied && Identified(o) == Some(row.target)
      modifies this
      ensures Continues() && task == Idle
      ensures plans.Keys == old(plans).Keys && forall other :: other in old(plans) && other != id ==> plans[other] == old(plans)[other]
      ensures r.Returned? ==> plans[id] == r.row && (r.row.state == Published || r.row.state == AlreadySatisfied)
      ensures row.state != Planned || row.plan.base != old(head) ==> sent == old(sent)
      ensures sent == old(sent) || (sent == old(sent) + [Push(id, row.plan.base, o.rev)] && Approved(o, row))
      ensures old(tip) == Some(row.plan.base) && old(head) == row.plan.base && row.state == Planned
              && old(head) in old(commits) && Built(cfg, parse, old(commits)[old(head)].tree, old(head), row.plan)
              && AllWritten(o, row.plan.diffs)
              && Smooth(o) && Confirms(o, row.plan.artifacts) && o.rev !in old(commits) ==>
                r == Returned(Ideal(row, o.rev)) && tip == IdealTip(row, o.rev)
    {
      hide IsRun, NextStep, Built, Confirms, Approved, AllWritten, Identified, Ideal, IdealTip, Smooth;
      WritesWhenSmooth(o);
      HeadExists();
      if Pending(row) {
        r := Reconcile(id, row, o.write(0));
        return;
      }
      if row.state != Planned {
        GiveUp();
        return Conflicting;
      }
      if head != row.plan.base {
        MarkMoved(id, row, o.write(0));
        return if o.write(0) == Done then Conflicting else Unavailable;
      }
      r := PublishPlanned(id, row, o);
    }

    /** A planned row on its own base: recheck, then publish or find nothing to do. */
    method PublishPlanned(id: PlanId, row: Row, o: Oracle) returns (r: Outcome)
      requires Valid() && task == Synced(ForApply(id, row)) && id in plans && plans[id] == row
      requires row.state == Planned && head == row.plan.base && head in commits && Identified(o) == Some(row.target)
      modifies this
      ensures Continues() && task == Idle
      ensures plans.Keys == old(plans).Keys && forall other :: other in old(plans) && other != id ==> plans[other] == old(plans)[other]
      ensures r.Returned? ==> plans[id] == r.row && (r.row.state == Published || r.row.state == AlreadySatisfied)
      ensures sent == old(sent) || (sent == old(sent) + [Push(id, row.plan.base, o.rev)] && Approved(o, row))
      ensures old(tip) == Some(row.plan.base) && Built(cfg, parse, old(commits)[row.plan.base].tree, row.plan.base, row.plan)
              && AllWritten(o, row.plan.diffs) && Smooth(o) && Confirms(o, row.plan.artifacts) && o.rev !in old(commits) ==>
                r == Returned(Ideal(row, o.rev)) && tip == IdealTip(row, o.rev)
    {
      hide IsRun, NextStep, WriteDiffs, Built, Confirms, StillResolves, AllWritten;
      var refused, updated := Recheck(row, o);
      if refused.Some? {
        GiveUp();
        return refused.value;
      }
      if row.plan.mutations == [] {
        MarkEmpty(id, row, o.write(0));
        return if o.write(0) == Done then Returned(row.(state := AlreadySatisfied)) else Unavailable;
      }
      var ok, written := WriteFiles(commits[head].tree, row.plan, updated, o);
      if !ok {
        GiveUp();
        return Rejected;
      }
      ghost var start := LastWorld();
      ghost var tree := commits[head].tree;
      r := Publish(id, row, written, o);
      RunGrows(cfg, trace, steps, start, |trace| - 1);
      assert commits[row.plan.base].tree == tree;
    }

    /** What must hold for a plan to be pushed: the repository, branch and scope it was made for,
        unchanged artifacts, and the same resolution on its base. */
    ghost predicate Approved(o: Oracle, row: Row)
      reads this
    {
      && Identified(o) == Some(row.target) && Confirms(o, row.plan.artifacts)
      && row.plan.base in commits && StillResolves(cfg, parse, commits[row.plan.base].tree, row.plan.base, row.plan)
    }

    /** A publication whose outcome was lost is only ever recovered, never repeated. */
    method Reconcile(id: PlanId, row: Row, write: Write) returns (r: Outcome)
      requires Valid() && task == Synced(ForApply(id, row)) && id in plans && plans[id] == row && Pending(row)
      modifies this`plans, this`task, this`trace, this`steps
      ensures Continues() && task == Idle
      ensures plans == old(plans) || plans == old(plans)[id := row.(state := Published)]
      ensures r.Returned? ==> plans[id] == r.row && r.row.state == Published
      ensures row.commit.Some? && IsAncestor(commits, row.commit.value, head) && !LongHistory(commits, head) && write == Done ==>
                r == Returned(row.(state := Published))
    {
      hide IsRun, NextStep, IsAncestor, RemoteOk;
      var found := row.commit.Some?;
      SyncedIsVisible();
      if found {
        found := Reachable(row.commit.value);
      }
      if found {
        MarkRecovered(id, row, write);
        return if write == Done then Returned(row.(state := Published)) else Unavailable;
      }
      GiveUp();
      r := Conflicting;
    }

    /** Fetches, and then decides on the plan. */
    method Resume(id: PlanId, row: Row, o: Oracle) returns (r: Outcome)
      requires Valid() && task == Syncing(ForApply(id, row)) && id in plans && plans[id] == row
      requires row.state != Published && row.state != AlreadySatisfied
      modifies this
      ensures Continues() && task == Idle
      ensures plans.Keys == old(plans).Keys && forall other :: other in old(plans) && other != id ==> plans[other] == old(plans)[other]
      ensures r.Returned? ==> plans[id] == r.row && (r.row.state == Published || r.row.state == AlreadySatisfied)
      ensures sent == old(sent)
              || (row.state == Planned && sent == old(sent) + [Push(id, row.plan.base, o.rev)] && Approved(o, row))
      ensures ApplyReady(cfg, parse, o, old(commits), old(tip), row) ==> r == Returned(Ideal(row, o.rev)) && tip == IdealTip(row, o.rev)
    {
      hide IsRun, NextStep, Built, Confirms, Smooth, Quiet, StillResolves;
      var ok, alive := Synchronize(0, o);
      if !ok {
        return if alive then Unavailable else Crashed;
      }
      r := Decide(id, row, o);
    }

    /** Applies a stored plan. */
    method ApplyPlan(id: PlanId, o: Oracle) returns (r: Outcome)
      requires Valid() && task == Idle
      modifies this
      ensures Continues() && task == Idle
      ensures plans.Keys == old(plans).Keys && forall other :: other in old(plans) && other != id ==> plans[other] == old(plans)[other]
      ensures id !in old(plans) ==> r == NotFound && View() == old(View())
      ensures id in old(plans) ==> Later(old(plans)[id], plans[id])
      ensures id in old(plans) && (old(plans)[id].state == Published || old(plans)[id].state == AlreadySatisfied) ==>
                r == Returned(old(plans)[id]) && View() == old(View())
      ensures r.Returned? ==> id in plans && plans[id] == r.row && (r.row.state == AlreadySatisfied || (r.row.state == Published && HasLanded(View(), id, r.row)))
      ensures sent == old(sent)
              || (id in old(plans) && old(plans)[id].state == Planned && sent == old(sent) + [Push(id, old(plans)[id].plan.base, o.rev)]
                  && Approved(o, old(plans)[id]))
      ensures sent != old(sent) && r.Returned? && r.row.state == Published ==> Delivered(id)
      ensures id in old(plans) && ApplyReady(cfg, parse, o, old(commits), old(tip), old(plans)[id]) ==>
                r == Returned(Ideal(old(plans)[id], o.rev)) && tip == IdealTip(old(plans)[id], o.rev)
    {
      hide IsRun, NextStep, Built, Confirms, Smooth, Quiet, Ideal, IdealTip, HasLanded, Later, StillResolves;
      if id !in plans {
        return NotFound;
      }
      var row := plans[id];
      ghost var start := LastWorld();
      StartApply(id, row);
      if row.state == Published || row.state == AlreadySatisfied {
        r := Returned(row);
      } else {
        r := Resume(id, row, o);
      }
      RunRows(cfg, trace, steps, start, |trace| - 1, id);
      PublishedLanded(id);
      SamePlan(row, plans[id]);
      if sent != old(sent) && r.Returned? && r.row.state == Published {
        LandedRenders(id);
      }
    }

    /** The published commit renders what the plan was asked for, and nothing else changed. */
    ghost predicate Delivered(id: PlanId)
      reads this
    {
      && id in plans && plans[id].commit.Some? && plans[id].plan.base in commits && plans[id].commit.value in commits
      && RendersRequest(parse, Snapshot(cfg, commits[plans[id].plan.base].tree), Snapshot(cfg, commits[plans[id].commit.value].tree), plans[id].plan)
    }

    lemma LandedRenders(id: PlanId)
      requires Valid() && id in plans && HasLanded(View(), id, plans[id]) && plans[id].plan.base in commits
      requires StillResolves(cfg, parse, commits[plans[id].plan.base].tree, plans[id].plan.base, plans[id].plan)
      ensures Delivered(id)
    {
      hide IsRun, StillResolves, RendersRequest, Snapshot, Applied;
      var row := plans[id];
      var last := LastWorld();
      PublishedIsReviewed(cfg, trace, steps, last, PushOf(id, row));
      ApprovedRenders(cfg, parse, commits[row.plan.base].tree, row.plan.base, row.plan);
    }

    ghost method StartApply(id: PlanId, row: Row)
      requires Valid() && task == Idle && id in plans && plans[id] == row
      modifies this`task, this`trace, this`steps
      ensures Continues()
      ensures View() == if row.state == Published || row.state == AlreadySatisfied then old(View())
                        else old(View()).(task := Syncing(ForApply(id, row)))
    {
      hide IsRun, EnvironmentStep, PreviewStep, ApplyStep;
      if row.state != Published && row.state != AlreadySatisfied {
        task := Syncing(ForApply(id, row));
      }
      Take(BeginApply(id));
    }

    lemma LastWorld() returns (i: nat)
      requires Valid()
      ensures i == |trace| - 1
    {
      i := |steps|;
    }

    /** Whatever operations ran in between, a published plan is still the same and has landed. */
    twostate lemma PublishedStays(id: PlanId)
      requires old(Valid()) && Continues() && id in old(plans) && old(plans)[id].state == Published
      ensures id in plans && plans[id] == old(plans)[id] && HasLanded(View(), id, plans[id])
    {
      hide NextStep, Init, HasLanded;
      var i := |old(trace)| - 1;
      assert trace[i] == old(trace)[i];
      RunRows(cfg, trace, steps, i, |trace| - 1, id);
      FinalStays(old(plans)[id], plans[id]);
      PublishedLanded(id);
    }

    lemma RowIsBound(id: PlanId)
      requires Valid() && id in plans
      ensures bound == Some(plans[id].target.binding)
    {
      hide IsRun, OwnPushesOnly, SentOk, FlightOk, JobsOk, TaskOk, RemoteOk, RowsOk;
      Invariant();
    }

    lemma PublishedLanded(id: PlanId)
      requires Valid() && id in plans
      ensures plans[id].state == Published ==> HasLanded(View(), id, plans[id])
    {
      hide IsRun, OwnPushesOnly, SentOk, FlightOk, JobsOk, TaskOk, RemoteOk, HasLanded, CandidateOk, Reviewed;
      Invariant();
      assert RowOk(cfg, View(), id, plans[id]);
    }

    ghost method StartSync()
      requires Valid() && task == Idle
      modifies this`task, this`trace, this`steps
      ensures Continues() && View() == old(View()).(task := Syncing(ForSync))
    {
      hide IsRun, EnvironmentStep, PreviewStep, ApplyStep;
      task := Syncing(ForSync);
      Take(BeginSync);
    }

    /** Brings the clone up to date, and nothing else. */
    method SyncWorkspace(o: Oracle) returns (ok: bool, alive: bool)
      requires Valid() && task == Idle
      modifies this
      ensures Continues() && task == Idle && (ok ==> alive)
      ensures plans == old(plans) && baselines == old(baselines) && sent == old(sent)
      ensures Quiet(o, 0) && Quiet(o, 1) && old(tip).Some? ==> ok && Some(head) == tip && tip == old(tip)
    {
      hide IsRun, NextStep;
      StartSync();
      ok, alive := Synchronize(0, o);
      if ok {
        GiveUp();
      }
    }

    // ----- queued jobs -----

    /** The environments an unforced job may change: those on the list that use the image. */
    method AllowedEnvironments(uses: seq<Use>, image: string, allowed: seq<string>) returns (found: bool, envs: seq<string>)
      ensures found <==> exists u :: u in uses && Concerns(u, image)
      ensures envs == EnvironmentsOf(uses, image, allowed)
    {
      hide Concerns;
      found, envs := false, [];
      for i := 0 to |uses|
        invariant found <==> exists u :: u in uses[..i] && Concerns(u, image)
        invariant envs == EnvironmentsOf(uses[..i], image, allowed)
      {
        assert uses[..i + 1] == uses[..i] + [uses[i]] && uses[..i + 1][..i] == uses[..i];
        var u := uses[i];
        if Concerns(u, image) {
          found := true;
          if u.environment in allowed && u.environment !in envs {
            envs := envs + [u.environment];
          }
        }
      }
      assert uses[..|uses|] == uses;
    }

    /** The change a job asks for; without force it is limited to the allowed environments. */
    method Narrow(job: Jobs.Job, allowed: seq<string>) returns (r: Narrowed)
      requires head in commits
      ensures r == NarrowTo(cfg, parse, commits[head].tree, job, allowed)
    {
      hide Concerns, EnvironmentsOf, Snapshot;
      var change := Change(job.image, job.tag, job.file, []);
      if job.force || allowed == [] {
        return Limited(change);
      }
      var readable, model, _ := TakeSnapshot();
      if !readable {
        return Ended(Broken);
      }
      if model.diagnostics != [] {
        return Ended(Broken);
      }
      var found, envs := AllowedEnvironments(model.uses, job.image, allowed);
      if !found {
        return Ended(Did(Jobs.OutcomeNoMatch));
      }
      if envs == [] {
        return Ended(Did(Jobs.OutcomeSkippedPolicy));
      }
      r := Limited(change.(environments := envs));
    }

    ghost method StartJob(job: string)
      requires Valid() && task == Idle && JobPlan(job) !in plans
      modifies this`task, this`trace, this`steps
      ensures Continues() && View() == old(View()).(task := Syncing(ForJob(job)))
    {
      hide IsRun, EnvironmentStep, PreviewStep, ApplyStep;
      task := Syncing(ForJob(job));
      Take(BeginJob(job));
    }

    ghost method TakeBaseline(before: World, job: string, intent: Intent, write: Write)
      requires IsRun(cfg, trace, steps) && trace[|trace| - 1] == before && before.task == Synced(ForJob(job))
      requires View() == before.(baselines := baselines)
      requires baselines == if job in before.baselines || write == Refused then before.baselines else before.baselines[job := head]
      modifies this`task, this`trace, this`steps
      ensures Continues()
      ensures View() == before.(baselines := baselines,
                                task := if write == Done && baselines[job] == head then Syncing(ForPreview(JobPlan(job), intent, Some(head))) else Idle)
    {
      hide IsRun, EnvironmentStep, PreviewStep, ApplyStep;
      task := if write == Done && baselines[job] == head then Syncing(ForPreview(JobPlan(job), intent, Some(head))) else Idle;
      Take(Baseline(intent, write));
    }

    /** Fixes the revision of a job at its first attempt; later attempts must find the same. */
    method RecordBaseline(job: Jobs.Job, allowed: seq<string>, write: Write) returns (stop: Option<Worked>, intent: Intent)
      requires Valid() && task == Synced(ForJob(job.id)) && head in commits
      modifies this`baselines, this`task, this`trace, this`steps
      ensures Continues() && View() == old(View()).(baselines := baselines, task := task)
      ensures baselines == if job.id in old(baselines) || write == Refused then old(baselines) else old(baselines)[job.id := head]
      ensures var n := NarrowTo(cfg, parse, commits[head].tree, job, allowed);
              && stop == (if write != Done then Some(Broken) else if baselines[job.id] != head then Some(Conflicted)
                          else if !FileFound(commits[head].tree, job.file) then Some(Broken) else if n.Ended? then Some(n.end) else None)
              && (stop.None? ==> intent == Intent(jobName(job.id), [n.change]))
      ensures task == if stop.None? then Syncing(ForPreview(JobPlan(job.id), intent, Some(head))) else Idle
    {
      hide IsRun, NextStep, NarrowTo, FileFound;
      intent := Intent(jobName(job.id), []);
      ghost var before := View();
      if job.id !in baselines && write != Refused {
        baselines := baselines[job.id := head];
      }
      if write != Done || baselines[job.id] != head {
        TakeBaseline(before, job.id, intent, write);
        return Some(if write == Done then Conflicted else Broken), intent;
      }
      var n := Narrow(job, allowed);
      intent := Intent(jobName(job.id), if n.Limited? then [n.change] else []);
      TakeBaseline(before, job.id, intent, write);
      stop := if !FileFound(commits[head].tree, job.file) then Some(Broken) else if n.Ended? then Some(n.end) else None;
      if stop.Some? {
        GiveUp();
      }
    }

    /** A stored plan serves a job exactly if the job, narrowed to what it may change now, still asks
        for the stored intent; then that intent is one permitted change. A job that asks for something
        else is a conflict. */
    method CompareStored(job: Jobs.Job, allowed: seq<string>) returns (stop: Option<Worked>)
      requires head in commits && JobPlan(job.id) in plans
      ensures stop.None? <==> Serves(cfg, parse, commits[head].tree, job, allowed, jobName(job.id), plans[JobPlan(job.id)].plan)
      ensures stop.None? ==>
                var changes := plans[JobPlan(job.id)].plan.intent.changes;
                |changes| == 1 && Permitted(job, allowed, changes[0])
      ensures stop == Some(Conflicted) <==>
              && NarrowTo(cfg, parse, commits[head].tree, job, allowed).Limited?
              && var intent := JobIntent(cfg, parse, jobName(job.id), job, allowed, commits[head].tree);
                 IntentOk(intent) && plans[JobPlan(job.id)].plan.intent != intent
      ensures stop.Some? ==> EndsEarly(stop.value)
      ensures stop.Some? && stop.value.Did? ==> NarrowTo(cfg, parse, commits[head].tree, job, allowed) == Ended(stop.value)
    {
      hide IntentOk, NarrowTo, Permitted;
      NarrowedIsPermitted(cfg, parse, commits[head].tree, job, allowed);
      var n := Narrow(job, allowed);
      if n.Ended? {
        EndsWithoutConflict(cfg, parse, commits[head].tree, job, allowed);
        return Some(n.end);
      }
      var intent := Intent(jobName(job.id), [n.change]);
      stop := if !IntentOk(intent) then Some(Broken) else if plans[JobPlan(job.id)].plan.intent != intent then Some(Conflicted) else None;
    }

    /** The plan of a job: the stored one if its content is still the same, else a new one on the
        baseline revision. */
    method PlanJob(job: Jobs.Job, allowed: seq<string>, first: Oracle, second: Oracle) returns (stop: Option<Worked>)
      requires Valid() && task == Idle
      modifies this
      ensures Continues() && task == Idle && sent == old(sent)
      ensures forall other :: other in old(plans) ==> other in plans && plans[other] == old(plans)[other]
      ensures stop.Some? ==> EndsEarly(stop.value)
      ensures stop.None? ==>
                JobPlan(job.id) in plans && |plans[JobPlan(job.id)].plan.intent.changes| == 1
                && Permitted(job, allowed, plans[JobPlan(job.id)].plan.intent.changes[0])
      ensures JobPlan(job.id) in old(plans) ==>
                && plans == old(plans) && View() == old(View()) && head in commits
                && (stop.None? <==> Serves(cfg, parse, commits[head].tree, job, allowed, jobName(job.id), plans[JobPlan(job.id)].plan))
      ensures JobPlan(job.id) !in old(plans)
              && JobReady(cfg, parse, first, second, job, allowed, jobName(job.id), old(commits), old(bound), old(tip), old(baselines)) ==>
                stop.None? && tip == old(tip) && commits == old(commits) && Prepared(JobPlan(job.id), second)
    {
      hide IsRun, NextStep, IntentOk, Permitted, NarrowTo, JobReady, Prepared, Serves;
      HeadExists();
      var id := JobPlan(job.id);
      if id in plans {
        stop := CompareStored(job, allowed);
        return;
      }
      stop := PlanNewJob(job, allowed, first, second);
    }

    /** Fetches and fixes the baseline. */
    method FixBaseline(job: Jobs.Job, allowed: seq<string>, o: Oracle) returns (stop: Option<Worked>, intent: Intent)
      requires Valid() && task == Idle && JobPlan(job.id) !in plans
      modifies this
      ensures Continues() && sent == old(sent) && plans == old(plans) && bound == old(bound)
      ensures stop.Some? ==> task == Idle && EndsEarly(stop.value)
      ensures stop.None? ==> task == Syncing(ForPreview(JobPlan(job.id), intent, Some(head)))
      ensures stop.None? ==> |intent.changes| == 1 && Permitted(job, allowed, intent.changes[0])
      ensures BaselineReady(cfg, parse, o, job, allowed, old(commits), old(tip), old(baselines)) ==>
                stop.None? && tip == old(tip) && commits == old(commits) && Some(head) == tip
                && intent == JobIntent(cfg, parse, jobName(job.id), job, allowed, old(commits)[old(tip).value].tree)
    {
      hide IsRun, NextStep, IntentOk, Permitted, Quiet, NarrowTo, FileFound;
      StartJob(job.id);
      var ok, alive := Synchronize(0, o);
      if !ok {
        return Some(if alive then Broken else Killed), Intent(jobName(job.id), []);
      }
      HeadExists();
      NarrowedIsPermitted(cfg, parse, commits[head].tree, job, allowed);
      stop, intent := RecordBaseline(job, allowed, o.write(0));
    }

    /** The first attempts at a job: baseline, then plan. */
    method PlanNewJob(job: Jobs.Job, allowed: seq<string>, first: Oracle, second: Oracle) returns (stop: Option<Worked>)
      requires Valid() && task == Idle && JobPlan(job.id) !in plans
      modifies this
      ensures Continues() && task == Idle && sent == old(sent)
      ensures forall other :: other in old(plans) ==> other in plans && plans[other] == old(plans)[other]
      ensures stop.Some? ==> EndsEarly(stop.value)
      ensures stop.None? ==>
                JobPlan(job.id) in plans && |plans[JobPlan(job.id)].plan.intent.changes| == 1
                && Permitted(job, allowed, plans[JobPlan(job.id)].plan.intent.changes[0])
      ensures JobReady(cfg, parse, first, second, job, allowed, jobName(job.id), old(commits), old(bound), old(tip), old(baselines)) ==>
                stop.None? && tip == old(tip) && commits == old(commits) && Prepared(JobPlan(job.id), second)
    {
      hide IsRun, NextStep, IntentOk, Permitted, BaselineReady, PreviewReady, JobIntent, Resolved;
      var intent;
      stop, intent := FixBaseline(job, allowed, first);
      if stop.Some? {
        return;
      }
      stop := PreviewJob(job.id, intent, second);
    }

    /** A planned row on the present tip, built from the answers of this registry for what was identified. */
    ghost predicate Prepared(id: PlanId, o: Oracle)
      reads this
    {
      && id in plans && plans[id].state == Planned && plans[id].commit == None && tip == Some(plans[id].plan.base)
      && plans[id].plan.base in commits && Identified(o) == Some(plans[id].target)
      && Resolved(cfg, parse, o, commits[plans[id].plan.base].tree, plans[id].plan.base, plans[id].plan)
    }

    /** Fetches again, and plans only if the branch is still at the baseline. */
    method PreviewJob(job: string, intent: Intent, o: Oracle) returns (stop: Option<Worked>)
      requires Valid() && task == Syncing(ForPreview(JobPlan(job), intent, Some(head))) && JobPlan(job) !in plans
      modifies this
      ensures Continues() && task == Idle && sent == old(sent)
      ensures forall other :: other in old(plans) ==> other in plans && plans[other] == old(plans)[other]
      ensures stop.Some? ==> EndsEarly(stop.value)
      ensures stop.None? ==> JobPlan(job) in plans && plans[JobPlan(job)].plan.intent == intent && plans[JobPlan(job)].plan.base == old(head)
      ensures PreviewReady(cfg, parse, o, old(commits), old(bound), old(tip), intent) && IntentOk(intent) && Some(old(head)) == old(tip) ==>
                stop.None? && tip == old(tip) && commits == old(commits)
      ensures stop.None? ==>
                && plans[JobPlan(job)].state == Planned && plans[JobPlan(job)].commit == None && old(head) in commits
                && Identified(o) == Some(plans[JobPlan(job)].target)
                && Resolved(cfg, parse, o, commits[old(head)].tree, old(head), plans[JobPlan(job)].plan)
    {
      hide IsRun, NextStep, IntentOk, PreviewReady, Resolved;
      ghost var goal := task.goal;
      var baseline := head;
      if !IntentOk(intent) {
        GiveUp();
        return Some(Broken);
      }
      var r := PlanOnHead(JobPlan(job), intent, Some(baseline), o);
      stop := match r
        case Returned(_) => None
        case NothingMatches => Some(Did(Jobs.OutcomeNoMatch))
        case Conflicting => Some(Conflicted)
        case Crashed => Some(Killed)
        case _ => Some(Broken);
    }

    /** One attempt at a job. However it ends, the job sends no push but one on its baseline. */
    method Work(job: Jobs.Job, allowed: seq<string>, first: Oracle, second: Oracle, third: Oracle) returns (r: Worked)
      requires Valid() && task == Idle
      modifies this
      ensures Continues() && task == Idle
      ensures !UpdateOk(job) ==> r == Broken && View() == old(View())
      ensures forall other :: other in old(plans) && other != JobPlan(job.id) ==> other in plans && plans[other] == old(plans)[other]
      ensures sent == old(sent)
              || (job.id in baselines && sent == old(sent) + [Push(JobPlan(job.id), baselines[job.id], third.rev)])
      ensures EndsEarly(r) || r == Did(Jobs.OutcomePublished) || r == Did(Jobs.OutcomeAlreadySatisfied)
      ensures r == Did(Jobs.OutcomePublished) ==>
                JobPlan(job.id) in plans && HasLanded(View(), JobPlan(job.id), plans[JobPlan(job.id)])
                && plans[JobPlan(job.id)].state == Published
      ensures r == Did(Jobs.OutcomeAlreadySatisfied) ==>
                JobPlan(job.id) in plans && plans[JobPlan(job.id)].state == AlreadySatisfied
      ensures r == Did(Jobs.OutcomePublished) || r == Did(Jobs.OutcomeAlreadySatisfied) ==>
                |plans[JobPlan(job.id)].plan.intent.changes| == 1
                && Permitted(job, allowed, plans[JobPlan(job.id)].plan.intent.changes[0])
      ensures UpdateOk(job) && JobPlan(job.id) in old(plans) && old(plans)[JobPlan(job.id)].state == Published && old(head) in old(commits)
              && Serves(cfg, parse, old(commits)[old(head)].tree, job, allowed, jobName(job.id), old(plans)[JobPlan(job.id)].plan) ==>
                r == Did(Jobs.OutcomePublished) && View() == old(View())
      ensures UpdateOk(job) && JobPlan(job.id) !in old(plans)
              && JobReady(cfg, parse, first, second, job, allowed, jobName(job.id), old(commits), old(bound), old(tip), old(baselines))
              && UsesValid(parse, Snapshot(cfg, old(commits)[old(tip).value].tree))
              && Quiet(third, 0) && Quiet(third, 1) && Smooth(third) && third.rev !in old(commits)
              && third.registry == second.registry && Identified(third) == Identified(second)
              && (JobPlan(job.id) in plans ==> AllWritten(third, plans[JobPlan(job.id)].plan.diffs)) ==>
                && JobPlan(job.id) in plans
                && (if plans[JobPlan(job.id)].plan.mutations == [] then r == Did(Jobs.OutcomeAlreadySatisfied) && tip == old(tip)
                    else r == Did(Jobs.OutcomePublished) && tip == Some(third.rev))
    {
      hide IsRun, NextStep, HasLanded, Later, Permitted, Built, Confirms, Smooth, UpdateOk, Quiet, JobReady, NarrowTo, Snapshot, Resolved, UsesValid, Serves,
        ApplyReady, AllWritten, Identified;
      if !UpdateOk(job) {
        return Broken;
      }
      var stop := PlanJob(job, allowed, first, second);
      if stop.Some? {
        return stop.value;
      }
      var id := JobPlan(job.id);
      if Prepared(id, second) {
        PreparedIsReady(id, second, third);
      }
      r := ApplyJob(job.id, third);
    }

    lemma SyncedIsVisible()
      requires Valid() && task.Synced?
      ensures RemoteOk(View()) && head in visible
    {
      hide IsRun, RowsOk, SentOk, FlightOk, JobsOk, OwnPushesOnly, RemoteOk, GoalOk;
      Invariant();
    }

    /** Applies the plan of a job. */
    method ApplyJob(job: string, o: Oracle) returns (r: Worked)
      requires Valid() && task == Idle && JobPlan(job) in plans
      modifies this
      ensures Continues() && task == Idle
      ensures plans.Keys == old(plans).Keys && plans[JobPlan(job)].plan == old(plans)[JobPlan(job)].plan
      ensures forall other :: other in old(plans) && other != JobPlan(job) ==> plans[other] == old(plans)[other]
      ensures sent == old(sent) || (job in baselines && sent == old(sent) + [Push(JobPlan(job), baselines[job], o.rev)])
      ensures EndsEarly(r) || r == Did(Jobs.OutcomePublished) || r == Did(Jobs.OutcomeAlreadySatisfied)
      ensures r == Did(Jobs.OutcomePublished) ==> HasLanded(View(), JobPlan(job), plans[JobPlan(job)]) && plans[JobPlan(job)].state == Published
      ensures r == Did(Jobs.OutcomeAlreadySatisfied) ==> plans[JobPlan(job)].state == AlreadySatisfied
      ensures old(plans)[JobPlan(job)].state == Published ==> r == Did(Jobs.OutcomePublished) && View() == old(View())
      ensures ApplyReady(cfg, parse, o, old(commits), old(tip), old(plans)[JobPlan(job)]) ==>
                if plans[JobPlan(job)].plan.mutations == [] then r == Did(Jobs.OutcomeAlreadySatisfied) && tip == old(tip)
                else r == Did(Jobs.OutcomePublished) && tip == Some(o.rev)
    {
      hide IsRun, NextStep, HasLanded, Later, ApplyReady, Delivered, Approved, EndsEarly;
      var id := JobPlan(job);
      JobBaseline(job);
      ghost var row := plans[id];
      OnOwnBase(cfg, parse, o, commits, tip, row);
      var applied := ApplyPlan(id, o);
      JobBaseline(job);
      SamePlan(row, plans[id]);
      r := WorkedOf(applied);
    }

    /** With an unchanged registry and repository, what was just planned can be applied. */
    lemma PreparedIsReady(id: PlanId, was: Oracle, o: Oracle)
      requires Prepared(id, was)
      ensures UsesValid(parse, Snapshot(cfg, commits[plans[id].plan.base].tree)) && Quiet(o, 0) && Quiet(o, 1) && Smooth(o)
              && o.registry == was.registry && Identified(o) == Identified(was) && AllWritten(o, plans[id].plan.diffs) && o.rev !in commits ==>
                ApplyReady(cfg, parse, o, commits, tip, plans[id])
    {
      hide Resolves, Snapshot, Smooth, Quiet, Identified, AllWritten;
    }

    lemma SamePlan(r: Row, r': Row)
      requires Later(r, r')
      ensures r'.plan == r.plan
    {
    }

    lemma JobBaseline(job: string)
      requires Valid() && JobPlan(job) in plans
      ensures job in baselines && plans[JobPlan(job)].plan.base == baselines[job]
    {
      hide IsRun, RowsOk, SentOk, FlightOk, RemoteOk, TaskOk, OwnPushesOnly;
      Invariant();
    }

    lemma HeadExists()
      requires Valid()
      ensures head in commits
    {
      hide IsRun, RowsOk, SentOk, FlightOk, JobsOk, TaskOk, OwnPushesOnly;
      Invariant();
    }
  }

  ghost predicate NoneListed(diffs: seq<FileDiff>) {
    forall f :: !Lists(diffs, f)
  }

  lemma ListsNothing()
    ensures NoneListed([])
  {
  }

  function Pick(diffs: seq<FileDiff>, updated: Files, tree: Files, f: string): string
    requires f in tree
  {
    if Lists(diffs, f) && f in updated then updated[f] else tree[f]
  }

  /** Every parent of a visited commit is visited or still to be. */
  ghost predicate Covered(commits: map<Rev, Commit>, seen: set<Rev>, work: seq<Rev>) {
    forall c :: c in seen && c in commits ==> forall p :: p in commits[c].parents ==> p in seen || p in work
  }

  lemma CoveredWithout(commits: map<Rev, Commit>, seen: set<Rev>, work: seq<Rev>)
    requires Covered(commits, seen, work) && work != [] && work[0] in seen
    ensures Covered(commits, seen, work[1..])
  {
    assert forall r :: r in work ==> r == work[0] || r in work[1..];
  }

  lemma CoveredMore(commits: map<Rev, Commit>, seen: set<Rev>, work: seq<Rev>)
    requires Covered(commits, seen, work) && work != [] && work[0] in commits
    ensures Covered(commits, seen + {work[0]}, commits[work[0]].parents + work[1..])
  {
    assert forall r :: r in work ==> r == work[0] || r in work[1..];
  }

  /** A set of commits that contains the head and all parents of its members contains all ancestors. */
  lemma ClosedHasAncestors(commits: map<Rev, Commit>, seen: set<Rev>, a: Rev, b: Rev)
    requires b in seen && Covered(commits, seen, []) && IsAncestor(commits, a, b)
    ensures a in seen
  {
    var path :| Ancestor(commits, a, b, path);
    ClosedPath(commits, seen, path, |path| - 1);
  }

  lemma {:induction false} ClosedPath(commits: map<Rev, Commit>, seen: set<Rev>, path: seq<Rev>, i: nat)
    requires i < |path| && path[0] in seen && Covered(commits, seen, [])
    requires forall j :: 0 <= j < |path| ==> path[j] in commits
    requires forall j :: 0 <= j < |path| - 1 ==> path[j + 1] in commits[path[j]].parents
    ensures path[i] in seen
  {
    if i > 0 {
      ClosedPath(commits, seen, path, i - 1);
      assert path[i - 1 + 1] in commits[path[i - 1]].parents;
    }
  }

  ghost predicate AllAncestors(commits: map<Rev, Commit>, s: set<Rev>, head: Rev) {
    forall r :: r in s ==> IsAncestor(commits, r, head)
  }

  /** The history of the head has more commits than are looked at. */
  ghost predicate LongHistory(commits: map<Rev, Commit>, head: Rev) {
    exists s :: |s| > SEARCH_LIMIT && AllAncestors(commits, s, head)
  }

  lemma SelfAncestor(commits: map<Rev, Commit>, c: Rev)
    requires c in commits
    ensures IsAncestor(commits, c, c)
  {
    assert Ancestor(commits, c, c, [c]);
  }

  lemma ParentAncestor(commits: map<Rev, Commit>, p: Rev, c: Rev, b: Rev)
    requires IsAncestor(commits, c, b) && p in commits && p in commits[c].parents
    ensures IsAncestor(commits, p, b)
  {
    var path :| Ancestor(commits, c, b, path);
    assert Ancestor(commits, p, b, path + [p]);
  }

  /** Nothing happens around step `k`: no event, no crash, the remote answers. */
  predicate Quiet(o: Oracle, k: nat) {
    o.events(k) == [] && !o.crash(k) && o.reachable(k)
  }

  predicate Concerns(u: Use, image: string) {
    ImageName(u.sourceImage) == ImageName(image) || ImageName(u.effectiveImage) == ImageName(image)
  }

  /** A change of a job: all environments if forced or unrestricted, else some of the allowed ones. */
  predicate Permitted(job: Jobs.Job, allowed: seq<string>, change: Change) {
    && change.image == job.image && change.tag == job.tag && change.file == job.file
    && (if job.force || allowed == [] then change.environments == []
        else change.environments != [] && forall e :: e in change.environments ==> e in allowed)
  }

  /** An end without a plan to apply. */
  predicate EndsEarly(w: Worked) {
    w.Did? ==> w.outcome == Jobs.OutcomeNoMatch || w.outcome == Jobs.OutcomeSkippedPolicy
  }

  predicate UpdateOk(job: Jobs.Job) {
    NameOnly(job.image) && TagOk(job.tag) && (job.file != "" ==> UpdatePathOk(job.file))
  }

  /** A build on the given revision, with these answers of the registry, returns the plan. */
  ghost predicate Resolves(cfg: Config, parse: ParseFiles, tree: Files, rev: Rev, plan: Plan, verified: seq<Artifact>) {
    cfg.readable(tree) && exists model :: IsModel(parse, model, Snapshot(cfg, tree), rev) && IsBuilt(cfg.yaml, parse, model, Snapshot(cfg, tree), verified, plan)
  }

  /** What the parser reports are references, as it checks. */
  ghost predicate UsesValid(parse: ParseFiles, files: Files) {
    forall u :: u in parse(files).uses ==> ValidRef(u.effectiveImage)
  }

  /** The plan is what a build on the revision returned, for some answers of the registry. */
  ghost predicate Built(cfg: Config, parse: ParseFiles, tree: Files, rev: Rev, plan: Plan) {
    && UsesValid(parse, Snapshot(cfg, tree))
    && exists verified :: Resolves(cfg, parse, tree, rev, plan, verified)
  }

  /** Building again from the plan's own artifacts gives the same mutations and diffs. */
  ghost predicate StillResolves(cfg: Config, parse: ParseFiles, tree: Files, rev: Rev, plan: Plan) {
    exists q :: SameEdits(q, plan) && Resolves(cfg, parse, tree, rev, q, plan.artifacts)
  }

  ghost predicate SameEdits(p: Plan, q: Plan) {
    p.intent == q.intent && p.mutations == q.mutations && p.diffs == q.diffs
  }

  /** From one set of files to another: a clean parse, the requested image for every selected use,
      the old image for every other use. */
  ghost predicate RendersRequest(parse: ParseFiles, before: Files, after: Files, plan: Plan) {
    var m, a := parse(before), parse(after);
    && a.diagnostics == []
    && (forall u :: u in m.uses ==> KeyOf(u) in LastUses(a.uses))
    && (forall u, c :: u in m.uses && c in plan.intent.changes && Selected(u, c) ==>
          ImageAfter(u, a) == Next(Pair(c, u), ResolvedMap(plan.artifacts)))
    && (forall u :: u in m.uses && Unselected(u, m.uses, plan.intent.changes) ==> ImageAfter(u, a) == u.effectiveImage)
  }

  lemma ApprovedRenders(cfg: Config, parse: ParseFiles, tree: Files, rev: Rev, plan: Plan)
    requires StillResolves(cfg, parse, tree, rev, plan)
    ensures RendersRequest(parse, Snapshot(cfg, tree), Applied(cfg.yaml, Snapshot(cfg, tree), plan.mutations), plan)
  {
    hide Plannable, IsPlan, Snapshot, Applied, Applicable, Selected, Next, Unselected, ImageAfter, ResolvedMap;
    var q :| SameEdits(q, plan) && Resolves(cfg, parse, tree, rev, q, plan.artifacts);
    var files := Snapshot(cfg, tree);
    var model :| IsModel(parse, model, files, rev) && IsBuilt(cfg.yaml, parse, model, files, plan.artifacts, q);
    PlanIsContained(cfg.yaml, parse, model, files, q.intent, plan.artifacts, q);
  }

  /** What the registry is asked for an intent. */
  ghost predicate IsRequest(list: seq<Artifact>, uses: seq<Use>, intent: Intent) {
    Ascending(ArtifactKey, list) && forall a :: a in list <==> Asked(a, intent.changes, uses)
  }

  ghost predicate Answers(o: Oracle, requested: seq<Artifact>, answers: seq<Artifact>) {
    && |answers| == |requested|
    && forall i :: 0 <= i < |requested| ==>
         && answers[i].image == requested[i].image && answers[i].tag == requested[i].tag
         && o.registry(requested[i].image, requested[i].tag) == Some(answers[i].digest)
  }

  /** The registry answers every request, and with its answers the intent is plannable and
      renders as wanted. */
  ghost predicate CanPlan(cfg: Config, parse: ParseFiles, o: Oracle, tree: Files, rev: Rev, intent: Intent) {
    cfg.readable(tree) && exists model, requested, answers, ms ::
      IsModel(parse, model, Snapshot(cfg, tree), rev) && IsRequest(requested, model.uses, intent) && Answers(o, requested, answers)
      && Editable(cfg, parse, Snapshot(cfg, tree), model, intent, answers, ms)
  }

  ghost predicate Editable(cfg: Config, parse: ParseFiles, files: Files, model: Model, intent: Intent, answers: seq<Artifact>, ms: seq<Mutation>) {
    && Plannable(model, intent, answers)
    && IsMutationList(ms, ScalarEdits(Pairs(intent.changes, model.uses), ResolvedMap(answers)))
    && RendersAsWanted(cfg.yaml, parse, model, files, intent, answers, ms)
  }

  lemma OneModel(parse: ParseFiles, files: Files, rev: Rev, a: Model, b: Model)
    requires IsModel(parse, a, files, rev) && IsModel(parse, b, files, rev)
    ensures a == b
  {
    hide Ascending;
    AscendingUnique(x => x, a.files, b.files);
  }

  lemma OneRequest(uses: seq<Use>, intent: Intent, a: seq<Artifact>, b: seq<Artifact>)
    requires IsRequest(a, uses, intent) && IsRequest(b, uses, intent)
    ensures a == b
  {
    hide Ascending, Asked;
    AscendingUnique(ArtifactKey, a, b);
  }

  lemma BuiltResolves(
    cfg: Config, parse: ParseFiles, o: Oracle, tree: Files, rev: Rev, model: Model, plan: Plan, requested: seq<Artifact>, answers: seq<Artifact>)
    requires cfg.readable(tree) && IsModel(parse, model, Snapshot(cfg, tree), rev)
    requires IsRequest(requested, model.uses, plan.intent) && Answers(o, requested, answers)
    requires IsBuilt(cfg.yaml, parse, model, Snapshot(cfg, tree), answers, plan)
    ensures Resolved(cfg, parse, o, tree, rev, plan)
  {
    hide Snapshot, IsBuilt, IsRequest, Answers, Confirms, ValidRef, InListOrder;
    assert Resolves(cfg, parse, tree, rev, plan, answers);
    if UsesValid(parse, Snapshot(cfg, tree)) {
      AnswersConfirm(cfg.yaml, parse, o, model, Snapshot(cfg, tree), plan, requested, answers);
    }
  }

  /** The artifacts a plan records are answers of the registry to what was requested: as long as it
      answers the same, it confirms them. */
  lemma AnswersConfirm(
    yaml: Yaml, parse: ParseFiles, o: Oracle, model: Model, files: Files, plan: Plan, requested: seq<Artifact>, answers: seq<Artifact>)
    requires IsRequest(requested, model.uses, plan.intent) && Answers(o, requested, answers)
    requires IsBuilt(yaml, parse, model, files, answers, plan)
    requires forall u :: u in model.uses ==> ValidRef(u.effectiveImage)
    ensures Confirms(o, plan.artifacts)
  {
    hide ValidRef, Pairs, Expected, ResolvedMap, PostCheck, RendersAsWanted, IsMutationList, ScalarEdits, DiffsOf, ImpactOf, Applied, NoLeak, Matched, IntentOk,
      NoConflict, DigestsAgree, ArtifactFor, KeyOf, IsRequest, Answers;
    var ps, resolved := Pairs(plan.intent.changes, model.uses), ResolvedMap(answers);
    ExpectedMeaning(ps, resolved);
    forall a | a in plan.artifacts
      ensures o.registry(a.image, a.tag) == Some(a.digest)
    {
      var u :| u in model.uses && KeyOf(u) in Expected(ps, resolved) && a == ArtifactFor(Expected(ps, resolved)[KeyOf(u)], resolved);
      var p :| p in ps && KeyOf(p.use) == KeyOf(u);
      PairFacts(model, plan.intent, answers, p);
      AnswerConfirms(o, model, plan.intent, p, a, requested, answers);
    }
  }

  lemma AnswerConfirms(
    o: Oracle, model: Model, intent: Intent, p: Pair, a: Artifact, requested: seq<Artifact>, answers: seq<Artifact>)
    requires IsRequest(requested, model.uses, intent) && Answers(o, requested, answers) && DigestsAgree(answers)
    requires p.use in model.uses && p.change in intent.changes && Selected(p.use, p.change)
    requires ValidRef(p.use.effectiveImage) && TagOk(p.change.tag) && PinAllowed(p, ResolvedMap(answers))
    requires a == ArtifactFor(Next(p, ResolvedMap(answers)), ResolvedMap(answers))
    ensures o.registry(a.image, a.tag) == Some(a.digest)
  {
    hide ValidRef, TagOk, PinAllowed, ResolvedMap, ImageName, ImageTag, Next, Selected, DigestsAgree, Ascending;
    var resolved := ResolvedMap(answers);
    var name, tag := ImageName(p.use.effectiveImage), p.change.tag;
    RecordedArtifact(p, resolved);
    TagHasNoColon(Next(p, resolved));
    TagOkHasNoColon(tag);
    ColonSplits(a.image, a.tag, name, tag);
    assert Asked(Artifact(name, tag, ""), intent.changes, model.uses);
    var i :| 0 <= i < |requested| && requested[i] == Artifact(name, tag, "");
    NameIsItsOwnName(p.use.effectiveImage);
    ResolvedMeaning(answers);
    assert answers[i] in answers && VerifiedKey(answers[i]) == name + ":" + tag;
  }

  lemma TagOkHasNoColon(tag: string)
    requires TagOk(tag)
    ensures ':' !in tag
  {
    TagOkChars(tag);
  }

  lemma BuiltIsReadable(cfg: Config, parse: ParseFiles, tree: Files, rev: Rev, plan: Plan)
    ensures Built(cfg, parse, tree, rev, plan) ==> cfg.readable(tree)
  {
    hide Snapshot, IsBuilt, IsModel;
  }

  lemma Unreadable(cfg: Config, parse: ParseFiles, o: Oracle, tree: Files, rev: Rev, intent: Intent)
    requires !cfg.readable(tree)
    ensures !CanPlan(cfg, parse, o, tree, rev, intent)
  {
  }

  lemma BuiltIsReviewed(cfg: Config, parse: ParseFiles, tree: Files, rev: Rev, model: Model, plan: Plan, answers: seq<Artifact>)
    requires IsModel(parse, model, Snapshot(cfg, tree), rev)
    requires IsBuilt(cfg.yaml, parse, model, Snapshot(cfg, tree), answers, plan)
    ensures Reviewed(cfg, tree, plan)
  {
    hide Snapshot, Reviewed, Applied, Applicable, Plannable, PostCheck, IsMutationList, DiffsOf, IsArtifactList, ImpactOf, InListOrder;
    BuiltPlanIsReviewed(cfg, tree, model.files, plan);
  }

  lemma SameAnswers(o: Oracle, requested: seq<Artifact>, a: seq<Artifact>, b: seq<Artifact>)
    requires Answers(o, requested, a) && Answers(o, requested, b)
    ensures a == b
  {
  }

  lemma NoAnswer(
    cfg: Config, parse: ParseFiles, o: Oracle, tree: Files, rev: Rev, intent: Intent, model: Model, requested: seq<Artifact>, i: nat)
    requires IsModel(parse, model, Snapshot(cfg, tree), rev) && IsRequest(requested, model.uses, intent)
    requires i < |requested| && o.registry(requested[i].image, requested[i].tag).None?
    ensures !CanPlan(cfg, parse, o, tree, rev, intent)
  {
    hide Snapshot, IsModel, IsRequest, Editable;
    if CanPlan(cfg, parse, o, tree, rev, intent) {
      var model', requested', answers, ms :|
        IsModel(parse, model', Snapshot(cfg, tree), rev) && IsRequest(requested', model'.uses, intent) && Answers(o, requested', answers)
        && Editable(cfg, parse, Snapshot(cfg, tree), model', intent, answers, ms);
      OneModel(parse, Snapshot(cfg, tree), rev, model, model');
      OneRequest(model.uses, intent, requested, requested');
    }
  }

  lemma NoBuild(
    cfg: Config, parse: ParseFiles, o: Oracle, tree: Files, rev: Rev, intent: Intent, model: Model, requested: seq<Artifact>, answers: seq<Artifact>)
    requires IsModel(parse, model, Snapshot(cfg, tree), rev) && IsRequest(requested, model.uses, intent) && Answers(o, requested, answers)
    requires Plannable(model, intent, answers) ==>
               forall ms :: IsMutationList(ms, ScalarEdits(Pairs(intent.changes, model.uses), ResolvedMap(answers))) ==>
                              !RendersAsWanted(cfg.yaml, parse, model, Snapshot(cfg, tree), intent, answers, ms)
    ensures !CanPlan(cfg, parse, o, tree, rev, intent)
  {
    hide Snapshot, IsModel, IsRequest, Plannable, IsMutationList, ScalarEdits, Pairs, ResolvedMap, RendersAsWanted;
    if CanPlan(cfg, parse, o, tree, rev, intent) {
      var model', requested', answers', ms :|
        IsModel(parse, model', Snapshot(cfg, tree), rev) && IsRequest(requested', model'.uses, intent) && Answers(o, requested', answers')
        && Editable(cfg, parse, Snapshot(cfg, tree), model', intent, answers', ms);
      OneModel(parse, Snapshot(cfg, tree), rev, model, model');
      OneRequest(model.uses, intent, requested, requested');
      SameAnswers(o, requested, answers, answers');
    }
  }

  /** Nothing gets in the way of planning on the present tip. */
  ghost predicate PreviewReady(
    cfg: Config, parse: ParseFiles, o: Oracle, commits: map<Rev, Commit>, bound: Option<Binding>, tip: Option<Rev>, intent: Intent)
  {
    && Quiet(o, 0) && Quiet(o, 1) && o.write(0) == Done && o.write(6) == Done
    && Identified(o).Some? && Bindable(bound, Identified(o).value.binding)
    && tip.Some? && tip.value in commits && CanPlan(cfg, parse, o, commits[tip.value].tree, tip.value, intent)
  }

  // ----- what a job may change -----

  /** The allowed environments that use an image, in the order of their first use. */
  function EnvironmentsOf(uses: seq<Use>, image: string, allowed: seq<string>): seq<string> {
    if uses == [] then []
    else
      var init, u := EnvironmentsOf(uses[..|uses| - 1], image, allowed), uses[|uses| - 1];
      if Concerns(u, image) && u.environment in allowed && u.environment !in init then init + [u.environment] else init
  }

  lemma {:induction false} EnvironmentsMeaning(uses: seq<Use>, image: string, allowed: seq<string>)
    ensures forall e :: e in EnvironmentsOf(uses, image, allowed) <==>
                        e in allowed && exists u :: u in uses && Concerns(u, image) && u.environment == e
    ensures forall i, j :: 0 <= i < j < |EnvironmentsOf(uses, image, allowed)| ==>
                             EnvironmentsOf(uses, image, allowed)[i] != EnvironmentsOf(uses, image, allowed)[j]
    decreases |uses|
  {
    hide Concerns;
    if uses != [] {
      EnvironmentsMeaning(uses[..|uses| - 1], image, allowed);
      assert uses == uses[..|uses| - 1] + [uses[|uses| - 1]];
    }
  }

  datatype Narrowed = Limited(change: Change) | Ended(end: Worked)

  function NarrowTo(cfg: Config, parse: ParseFiles, tree: Files, job: Jobs.Job, allowed: seq<string>): Narrowed {
    var change := Change(job.image, job.tag, job.file, []);
    var m := parse(Snapshot(cfg, tree));
    if job.force || allowed == [] then Limited(change)
    else if !cfg.readable(tree) then Ended(Broken)
    else if m.diagnostics != [] then Ended(Broken)
    else if forall u :: u in m.uses ==> !Concerns(u, job.image) then Ended(Did(Jobs.OutcomeNoMatch))
    else
      var envs := EnvironmentsOf(m.uses, job.image, allowed);
      if envs == [] then Ended(Did(Jobs.OutcomeSkippedPolicy)) else Limited(change.(environments := envs))
  }

  /** A job may change what it asks for, without force only in allowed environments; it ends
      early exactly when no use or no allowed use of its image is there, or nothing can be told. */
  lemma NarrowedIsPermitted(cfg: Config, parse: ParseFiles, tree: Files, job: Jobs.Job, allowed: seq<string>)
    ensures var n, m := NarrowTo(cfg, parse, tree, job, allowed), parse(Snapshot(cfg, tree));
            && (n.Limited? ==> Permitted(job, allowed, n.change))
            && (n.Ended? ==> EndsEarly(n.end) && !job.force && allowed != [])
            && (n == Ended(Did(Jobs.OutcomeSkippedPolicy)) ==> forall u :: u in m.uses && Concerns(u, job.image) ==> u.environment !in allowed)
  {
    hide Concerns, Snapshot;
    EnvironmentsMeaning(parse(Snapshot(cfg, tree)).uses, job.image, allowed);
  }

  function JobIntent(cfg: Config, parse: ParseFiles, name: string, job: Jobs.Job, allowed: seq<string>, tree: Files): Intent {
    var n := NarrowTo(cfg, parse, tree, job, allowed);
    Intent(name, if n.Limited? then [n.change] else [])
  }

  /** Nothing gets in the way of fixing the baseline on the present tip. */
  ghost predicate BaselineReady(
    cfg: Config, parse: ParseFiles, o: Oracle, job: Jobs.Job, allowed: seq<string>,
    commits: map<Rev, Commit>, tip: Option<Rev>, baselines: map<string, Rev>)
  {
    && Quiet(o, 0) && Quiet(o, 1) && o.write(0) == Done
    && tip.Some? && tip.value in commits && (job.id in baselines ==> baselines[job.id] == tip.value)
    && FileFound(commits[tip.value].tree, job.file) && NarrowTo(cfg, parse, commits[tip.value].tree, job, allowed).Limited?
  }

  /** Nor in the way of planning the job there. */
  ghost predicate JobReady(
    cfg: Config, parse: ParseFiles, first: Oracle, second: Oracle, job: Jobs.Job, allowed: seq<string>, name: string,
    commits: map<Rev, Commit>, bound: Option<Binding>, tip: Option<Rev>, baselines: map<string, Rev>)
  {
    && BaselineReady(cfg, parse, first, job, allowed, commits, tip, baselines)
    && tip.Some? && tip.value in commits
    && var intent := JobIntent(cfg, parse, name, job, allowed, commits[tip.value].tree);
       IntentOk(intent) && PreviewReady(cfg, parse, second, commits, bound, tip, intent)
  }

  /** A stored plan serves a job if the job still asks for its intent. */
  ghost predicate Serves(
    cfg: Config, parse: ParseFiles, tree: Files, job: Jobs.Job, allowed: seq<string>, name: string, plan: Plan)
  {
    && NarrowTo(cfg, parse, tree, job, allowed).Limited?
    && IntentOk(JobIntent(cfg, parse, name, job, allowed, tree)) && plan.intent == JobIntent(cfg, parse, name, job, allowed, tree)
  }

  lemma EndsWithoutConflict(cfg: Config, parse: ParseFiles, tree: Files, job: Jobs.Job, allowed: seq<string>)
    ensures NarrowTo(cfg, parse, tree, job, allowed).Ended? ==> NarrowTo(cfg, parse, tree, job, allowed).end != Conflicted
  {
    hide Concerns, EnvironmentsOf, Snapshot;
  }

  /** A job without a file, or with the path of something in the tree. */
  predicate FileFound(tree: Files, file: string) {
    file == "" || (UpdatePathOk(file) && var c := Cleaned(file); c.Some? && exists f :: f in tree && (f == c.value || HasPrefix(f, c.value + "/")))
  }

  /** The plan is what a build returned on answers of this registry, and the registry confirms the
      artifacts that the plan records. */
  ghost predicate Resolved(cfg: Config, parse: ParseFiles, o: Oracle, tree: Files, rev: Rev, plan: Plan) {
    && (exists verified :: Resolves(cfg, parse, tree, rev, plan, verified))
    && (UsesValid(parse, Snapshot(cfg, tree)) ==> Confirms(o, plan.artifacts))
  }

  /** Access, and a verified and writable repository: what a plan made now is for. */
  function Identified(o: Oracle): Option<Target> {
    if o.access && o.identity.Some? && o.identity.value.verified && o.identity.value.writable
    then Some(Target(Binding(o.identity.value.provider, o.identity.value.repository, o.branch), o.scope)) else None
  }

  predicate Bindable(bound: Option<Binding>, b: Binding) {
    bound == None || bound == Some(b)
  }

  /** Every file with a diff has a valid path and can be written. */
  predicate AllWritten(o: Oracle, diffs: seq<FileDiff>) {
    forall i :: 0 <= i < |diffs| ==> UpdatePathOk(diffs[i].file) && o.writable(diffs[i].file)
  }

  ghost predicate IsModel(parse: ParseFiles, model: Model, files: Files, rev: Rev) {
    && model.revision == rev && (forall f :: f in model.files <==> f in files) && InListOrder(model.files)
    && model.uses == parse(files).uses && model.diagnostics == parse(files).diagnostics
  }

  ghost predicate IsBuilt(yaml: Yaml, parse: ParseFiles, model: Model, files: Files, verified: seq<Artifact>, plan: Plan) {
    && Plannable(model, plan.intent, verified) && IsPlan(yaml, model, files, plan.intent, verified, plan)
    && RendersAsWanted(yaml, parse, model, files, plan.intent, verified, plan.mutations)
  }

  /** From the checks on, nothing gets in the way: the registry and the database answer, nobody
      else writes, and the push and its reply arrive. */
  predicate Smooth(o: Oracle) {
    && o.delivered && o.replied && o.write(0) == Done && o.write(1) == Done && o.write(6) == Done
    && forall k :: 2 <= k <= 5 ==> o.events(k) == [] && !o.crash(k)
  }

  lemma WritesWhenSmooth(o: Oracle)
    ensures Smooth(o) ==> o.write(0) == Done && o.write(1) == Done && o.write(6) == Done
  {
  }

  /** Nothing gets in the way of applying a planned row on its own base. */
  ghost predicate ApplyReady(cfg: Config, parse: ParseFiles, o: Oracle, commits: map<Rev, Commit>, tip: Option<Rev>, row: Row) {
    && row.state == Planned && tip == Some(row.plan.base) && row.plan.base in commits
    && Built(cfg, parse, commits[row.plan.base].tree, row.plan.base, row.plan)
    && Identified(o) == Some(row.target) && AllWritten(o, row.plan.diffs)
    && Quiet(o, 0) && Quiet(o, 1) && Smooth(o) && Confirms(o, row.plan.artifacts) && o.rev !in commits
  }

  /** What the result of applying its plan means for a job. */
  function WorkedOf(applied: Outcome): (r: Worked)
    ensures applied.Returned? <==> !EndsEarly(r)
  {
    match applied
    case Returned(row) => Did(if row.state == AlreadySatisfied then Jobs.OutcomeAlreadySatisfied else Jobs.OutcomePublished)
    case Conflicting => Conflicted
    case Crashed => Killed
    case _ => Broken
  }

  lemma OnOwnBase(cfg: Config, parse: ParseFiles, o: Oracle, commits: map<Rev, Commit>, tip: Option<Rev>, row: Row)
    ensures ApplyReady(cfg, parse, o, commits, tip, row) ==> tip == Some(row.plan.base)
  {
  }

  /** How a planned row should end, and where the branch should be then. */
  function Ideal(row: Row, rev: Rev): Row {
    if row.plan.mutations == [] then row.(state := AlreadySatisfied) else row.(state := Published, commit := Some(rev))
  }

  function IdealTip(row: Row, rev: Rev): Option<Rev> {
    Some(if row.plan.mutations == [] then row.plan.base else rev)
  }

  /** The registry still names the artifacts of the plan. */
  predicate Confirms(o: Oracle, artifacts: seq<Artifact>) {
    forall a :: a in artifacts ==> o.registry(a.image, a.tag) == Some(a.digest)
  }

  predicate InListOrder(names: seq<string>) {
    Ascending(x => x, names)
  }

  lemma NothingGrows(a: World)
    ensures Grows(a, a)
  {
  }

  lemma IdleGrows(a: World, b: World)
    requires Grows(a, b)
    ensures Grows(a, b.(task := Idle))
  {
  }

  lemma GrowsMore(a: World, b: World, c: World)
    requires Grows(a, b) && Grows(b, c)
    ensures Grows(a, c)
  {
  }
}
